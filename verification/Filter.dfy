/** The exclude filter (internal/watcher/filter.go:31-49). A compiled glob is an arbitrary
    predicate on strings. */
module Filters {
  import opened Text

  type Pattern = string -> bool

  /* ---- paths ---- */

  function FirstSlash(s: string): (r: nat)
    ensures r <= |s| && '/' !in s[..r] && (r < |s| ==> s[r] == '/')
  {
    if s == "" || s[0] == '/' then 0
    else
      var r := FirstSlash(s[1..]);
      assert s[..r + 1] == [s[0]] + s[1..][..r];
      r + 1
  }

  /** strings.Split at '/'. */
  function Split(s: string): (parts: seq<string>)
    ensures |parts| >= 1
  {
    var k := FirstSlash(s);
    if k == |s| then [s] else [s[..k]] + Split(s[k + 1..])
  }

  /** strings.Join with '/'. */
  function Join(parts: seq<string>): string
    requires |parts| >= 1
  {
    if |parts| == 1 then parts[0] else parts[0] + "/" + Join(parts[1..])
  }

  function LastComponent(path: string): string { path[LastIndex(path, '/') + 1..] }

  function TrimSlashes(path: string): string {
    if path != "" && path[|path| - 1] == '/' then TrimSlashes(path[..|path| - 1]) else path
  }

  /** filepath.Base. */
  function Base(path: string): string {
    if path == "" then "."
    else if TrimSlashes(path) == "" then "/"
    else LastComponent(TrimSlashes(path))
  }

  /** A relative path without empty components, as filepath.Rel returns it. */
  predicate Clean(path: string) { "" !in Split(path) }

  predicate SlashFree(parts: seq<string>) { forall i | 0 <= i < |parts| :: '/' !in parts[i] }

  lemma FirstSlashIs(s: string, k: nat)
    requires k <= |s| && '/' !in s[..k] && (k < |s| ==> s[k] == '/')
    ensures FirstSlash(s) == k
  {
    var r := FirstSlash(s);
    assert forall j | 0 <= j < k :: s[..k][j] == s[j] != '/';
    assert forall j | 0 <= j < r :: s[..r][j] == s[j] != '/';
  }

  lemma SplitFirst(s: string, k: nat, first: string)
    requires k < |s| && s[..k] == first && '/' !in first && s[k] == '/'
    ensures Split(s) == [first] + Split(s[k + 1..])
  {
    FirstSlashIs(s, k);
  }

  lemma {:induction false} SplitAppend(q: string, rest: string)
    ensures Split(q + "/" + rest) == Split(q) + Split(rest)
    decreases |q|
  {
    var s, k := q + "/" + rest, FirstSlash(q);
    SplitFirst(s, k, q[..k]);
    if k == |q| {
      assert s[k + 1..] == rest && q[..k] == q;
    } else {
      assert s[k + 1..] == q[k + 1..] + "/" + rest;
      SplitAppend(q[k + 1..], rest);
      SplitFirst(q, k, q[..k]);
    }
  }

  lemma {:induction false} JoinAppend(a: seq<string>, b: seq<string>)
    requires |a| >= 1 && |b| >= 1
    ensures Join(a + b) == Join(a) + "/" + Join(b)
  {
    assert (a + b)[1..] == a[1..] + b;
    if |a| > 1 {
      JoinAppend(a[1..], b);
    }
  }

  lemma {:induction false} JoinSplit(s: string)
    ensures Join(Split(s)) == s && SlashFree(Split(s))
    decreases |s|
  {
    var k := FirstSlash(s);
    if k < |s| {
      SplitFirst(s, k, s[..k]);
      JoinSplit(s[k + 1..]);
      JoinAppend([s[..k]], Split(s[k + 1..]));
      assert s == s[..k] + "/" + s[k + 1..];
    } else {
      assert s[..k] == s;
    }
  }

  lemma {:induction false} NoSlash(s: string)
    requires '/' !in s
    ensures LastIndex(s, '/') == -1
  {
    if s != "" {
      NoSlash(s[..|s| - 1]);
    }
  }

  lemma LastAfterSlash(above: string, last: string)
    requires '/' !in last
    ensures LastComponent(above + "/" + last) == last
  {
    var path := above + "/" + last;
    assert path == above + ['/'] + last;
    LastIndexAppend(above, last, '/');
    assert path[|above| + 1..] == last;
  }

  lemma LastOfAppend(above: seq<string>, last: string)
    requires |above| >= 1 && '/' !in last
    ensures LastComponent(Join(above + [last])) == last
  {
    JoinAppend(above, [last]);
    LastAfterSlash(Join(above), last);
  }

  lemma LastOfOne(last: string)
    requires '/' !in last
    ensures LastComponent(Join([last])) == last
  {
    NoSlash(last);
    assert last[0..] == last;
  }

  lemma LastOfJoin(parts: seq<string>)
    requires |parts| >= 1 && '/' !in parts[|parts| - 1]
    ensures LastComponent(Join(parts)) == parts[|parts| - 1]
  {
    var n := |parts| - 1;
    var last := parts[n];
    if n == 0 {
      LastOfOne(last);
      assert [last] == parts;
    } else {
      LastOfAppend(parts[..n], last);
      assert parts[..n] + [last] == parts;
    }
  }

  /** On a clean path filepath.Base is the last component. */
  lemma BaseOfClean(path: string)
    requires Clean(path)
    ensures Base(path) == LastComponent(path)
  {
    JoinSplit(path);
    LastOfJoin(Split(path));
    var last := Split(path)[|Split(path)| - 1];
    assert last in Split(path);
    assert last[|last| - 1] == path[|path| - 1];
  }

  /** What filepath.Base makes of the paths that are not clean. */
  lemma BaseOfOthers(path: string)
    ensures Base("") == "." && Base("/") == "/"
    ensures path != "" ==> Base(path + "/") == Base(path)
  {
    assert (path + "/")[..|path|] == path;
    assert TrimSlashes("/") == "" by { assert "/"[..0] == ""; }
  }

  /* ---- exclusion ---- */

  predicate Hit(patterns: seq<Pattern>, s: string) {
    exists k | 0 <= k < |patterns| :: patterns[k](s)
  }

  /** A path above `path`, or `path` itself. */
  predicate ComponentPrefix(q: string, path: string) { q == path || q + "/" <= path }

  /** Pattern `k` matches `q`, a component prefix of the path, or its last component. */
  predicate MatchedAt(patterns: seq<Pattern>, path: string, q: string, k: nat) {
    ComponentPrefix(q, path) && q != "" && k < |patterns| && (patterns[k](q) || patterns[k](LastComponent(q)))
  }

  /** Some component prefix, or the last component of one, is matched. */
  ghost predicate Excludes(patterns: seq<Pattern>, path: string) {
    exists q: string, k: nat :: MatchedAt(patterns, path, q, k)
  }

  lemma HitIsMatch(patterns: seq<Pattern>, path: string, q: string)
    requires ComponentPrefix(q, path) && q != ""
    ensures Hit(patterns, q) || Hit(patterns, LastComponent(q)) <==> exists k: nat :: MatchedAt(patterns, path, q, k)
  {
    if Hit(patterns, q) {
      var k :| 0 <= k < |patterns| && patterns[k](q);
      assert MatchedAt(patterns, path, q, k);
    } else if Hit(patterns, LastComponent(q)) {
      var k :| 0 <= k < |patterns| && patterns[k](LastComponent(q));
      assert MatchedAt(patterns, path, q, k);
    }
  }

  /** What one directory component contributes. */
  predicate PartHit(patterns: seq<Pattern>, parts: seq<string>, i: nat) {
    1 <= i < |parts| && (Hit(patterns, Join(parts[..i])) || Hit(patterns, parts[i - 1]))
  }

  predicate Looked(patterns: seq<Pattern>, path: string) {
    || Hit(patterns, path) || Hit(patterns, Base(path))
    || exists i | 1 <= i < |Split(path)| :: PartHit(patterns, Split(path), i)
  }

  /** The i-th directory prefix and its component. */
  lemma PrefixAt(path: string, i: nat)
    requires 1 <= i < |Split(path)|
    ensures var q := Join(Split(path)[..i]);
      ComponentPrefix(q, path) && LastComponent(q) == Split(path)[i - 1]
  {
    var parts := Split(path);
    JoinSplit(path);
    LastOfJoin(parts[..i]);
    assert Join(parts) == Join(parts[..i]) + "/" + Join(parts[i..]) by {
      assert parts == parts[..i] + parts[i..];
      JoinAppend(parts[..i], parts[i..]);
    }
  }

  /** Every proper component prefix is one of those. */
  lemma PrefixIsAt(q: string, path: string)
    requires q + "/" <= path
    ensures var i := |Split(q)|;
      i < |Split(path)| && Join(Split(path)[..i]) == q && Split(path)[i - 1] == LastComponent(q)
  {
    var rest := path[|q| + 1..];
    assert path == q + "/" + rest;
    SplitAppend(q, rest);
    assert Split(path)[..|Split(q)|] == Split(q);
    JoinSplit(q);
    LastOfJoin(Split(q));
  }

  lemma CleanPrefix(q: string, path: string)
    requires Clean(path) && ComponentPrefix(q, path)
    ensures q != ""
  {
    if q != path {
      var rest := path[|q| + 1..];
      assert path == q + "/" + rest;
      SplitAppend(q, rest);
      assert Split(path)[0] == Split(q)[0];
    }
  }

  lemma ExcludedIffPrefixMatches(patterns: seq<Pattern>, path: string)
    requires Clean(path)
    ensures Looked(patterns, path) <==> Excludes(patterns, path)
  {
    BaseOfClean(path);
    CleanPrefix(path, path);
    assert ComponentPrefix(path, path);
    forall i | 1 <= i < |Split(path)| && PartHit(patterns, Split(path), i)
      ensures Excludes(patterns, path)
    {
      PrefixAt(path, i);
      CleanPrefix(Join(Split(path)[..i]), path);
      HitIsMatch(patterns, path, Join(Split(path)[..i]));
    }
    HitIsMatch(patterns, path, path);
    forall q: string, k: nat | MatchedAt(patterns, path, q, k)
      ensures Looked(patterns, path)
    {
      HitIsMatch(patterns, path, q);
      if q != path {
        PrefixIsAt(q, path);
        assert PartHit(patterns, Split(path), |Split(q)|);
      }
    }
  }

  /** Everything below an excluded path is excluded. */
  lemma BelowExcluded(patterns: seq<Pattern>, path: string, rest: string)
    requires Clean(path) && Clean(rest) && Looked(patterns, path)
    ensures Clean(path + "/" + rest) && Looked(patterns, path + "/" + rest)
  {
    var below := path + "/" + rest;
    SplitAppend(path, rest);
    ExcludedIffPrefixMatches(patterns, path);
    var q: string, k: nat :| MatchedAt(patterns, path, q, k);
    assert MatchedAt(patterns, below, q, k);
    ExcludedIffPrefixMatches(patterns, below);
  }

  class Filter {
    const patterns: seq<Pattern>

    constructor (patterns: seq<Pattern>)
      ensures this.patterns == patterns
    {
      this.patterns := patterns;
    }

    method Excluded(relPath: string) returns (excluded: bool)
      ensures excluded <==> Looked(patterns, relPath)
      ensures Clean(relPath) ==> (excluded <==> Excludes(patterns, relPath))
    {
      if Clean(relPath) {
        ExcludedIffPrefixMatches(patterns, relPath);
      }
      var base := Base(relPath);
      for k := 0 to |patterns|
        invariant forall j | 0 <= j < k :: !patterns[j](relPath) && !patterns[j](base)
      {
        if patterns[k](relPath) || patterns[k](base) {
          return true;
        }
      }
      var parts := Split(relPath);
      for i := 1 to |parts|
        invariant forall j | 1 <= j < i :: !PartHit(patterns, parts, j)
      {
        var prefix := Join(parts[..i]);
        for k := 0 to |patterns|
          invariant forall j | 0 <= j < k :: !patterns[j](prefix) && !patterns[j](parts[i - 1])
        {
          if patterns[k](prefix) || patterns[k](parts[i - 1]) {
            assert PartHit(patterns, parts, i);
            return true;
          }
        }
        assert !PartHit(patterns, parts, i);
      }
      return false;
    }
  }
}
