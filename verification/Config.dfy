/** The sync-pair check of a configuration, and why it keeps the files of different pairs
    apart (internal/config/config.go:300-316, internal/config/config.go:338-345). */
module Config {
  import opened Wrappers

  /** A sync pair with its path already made absolute; stat tells of an existing directory. */
  datatype SyncPair = SyncPair(name: string, localPath: string, abs: string, isDirectory: bool)

  datatype PathError = Missing(index: nat) | NotADirectory(index: nat) | Overlap(index: nat)

  predicate Overlaps(abs: string, prev: string) {
    abs == prev || prev + "/" <= abs || abs + "/" <= prev
  }

  predicate Usable(p: SyncPair) { p.localPath != "" && p.isDirectory }

  predicate Disjoint(pairs: seq<SyncPair>) {
    forall i, j | 0 <= i < j < |pairs| :: !Overlaps(pairs[j].abs, pairs[i].abs)
  }

  /** What is wrong with entry `i` given that nothing is wrong before it. */
  predicate Reported(pairs: seq<SyncPair>, e: PathError) {
    && e.index < |pairs| && (forall i | 0 <= i < e.index :: Usable(pairs[i])) && Disjoint(pairs[..e.index])
    && match e
       case Missing(i) => pairs[i].localPath == ""
       case NotADirectory(i) => pairs[i].localPath != "" && !pairs[i].isDirectory
       case Overlap(i) => Usable(pairs[i]) && exists j | 0 <= j < i :: Overlaps(pairs[i].abs, pairs[j].abs)
  }

  /** The loop over sync_pairs in validate. */
  method ValidatePairs(pairs: seq<SyncPair>) returns (e: Option<PathError>)
    ensures e.None? <==> (forall i | 0 <= i < |pairs| :: pairs[i].localPath != "" && pairs[i].isDirectory)
                         && (forall i, j | 0 <= i < j < |pairs| :: !Overlaps(pairs[j].abs, pairs[i].abs))
    ensures e.Some? ==> Reported(pairs, e.value)
  {
    var seen: map<string, string> := map[];
    for i := 0 to |pairs|
      invariant forall k | 0 <= k < i :: Usable(pairs[k])
      invariant Disjoint(pairs[..i])
      invariant forall s :: s in seen <==> exists k | 0 <= k < i :: pairs[k].abs == s
    {
      var sp := pairs[i];
      if sp.localPath == "" {
        return Some(Missing(i));
      }
      if !sp.isDirectory {
        return Some(NotADirectory(i));
      }
      var todo := seen.Keys;
      while todo != {}
        invariant todo <= seen.Keys
        invariant forall s | s in seen.Keys - todo :: !Overlaps(sp.abs, s)
        decreases todo
      {
        var prev :| prev in todo;
        if Overlaps(sp.abs, prev) {
          var k :| 0 <= k < i && pairs[k].abs == prev;
          return Some(Overlap(i));
        }
        todo := todo - {prev};
      }
      forall k | 0 <= k < i
        ensures !Overlaps(sp.abs, pairs[k].abs)
      {
        assert pairs[k].abs in seen;
      }
      seen := seen[sp.abs := sp.name];
      assert pairs[..i + 1] == pairs[..i] + [sp];
    }
    assert pairs[..|pairs|] == pairs;
    return None;
  }

  /** SyncPairByName returns the first pair of that name. */
  method SyncPairByName(pairs: seq<SyncPair>, name: string) returns (found: Option<SyncPair>)
    ensures found.None? <==> forall i | 0 <= i < |pairs| :: pairs[i].name != name
    ensures found.Some? ==> exists i ::
      && 0 <= i < |pairs| && pairs[i] == found.value && pairs[i].name == name
      && forall j | 0 <= j < i :: pairs[j].name != name
  {
    for i := 0 to |pairs|
      invariant forall j | 0 <= j < i :: pairs[j].name != name
    {
      if pairs[i].name == name {
        return Some(pairs[i]);
      }
    }
    return None;
  }

  /** The absolute path of `rel` under `root` (filepath.Join on clean arguments). */
  function Under(root: string, rel: string): string {
    if root == "/" then "/" + rel else root + "/" + rel
  }

  /** What filepath.Abs yields: "/" alone, or no slash at the end. */
  predicate CleanRoot(root: string) {
    |root| > 0 && root[0] == '/' && (root == "/" || root[|root| - 1] != '/')
  }

  /** Some file lies under both roots. */
  ghost predicate ShareAFile(a: string, b: string) {
    exists x: string, y: string :: x != "" && y != "" && Under(a, x) == Under(b, y)
  }

  /** Both prefixes of one path, so one is a prefix of the other. */
  lemma PrefixesNest(a: string, x: string, b: string, y: string)
    requires a + "/" + x == b + "/" + y && |a| <= |b|
    ensures a == b || a + "/" <= b
  {
    var path := a + "/" + x;
    assert a == path[..|a|] && b == path[..|b|];
    if |a| < |b| {
      assert b[..|a| + 1] == path[..|a| + 1] == a + "/";
    }
  }

  /** Away from "/", two roots share a file exactly when validate calls them overlapping. */
  lemma OverlapIffShared(a: string, b: string)
    requires CleanRoot(a) && CleanRoot(b) && a != "/" && b != "/"
    ensures ShareAFile(a, b) <==> Overlaps(a, b)
  {
    if Overlaps(a, b) {
      var y := if a == b then "f" else if |b| < |a| then a[|b| + 1..] + "/f" else "f";
      var x := if a == b then "f" else if |b| < |a| then "f" else b[|a| + 1..] + "/f";
      if |b| < |a| { assert a == b + "/" + a[|b| + 1..]; }
      if |a| < |b| { assert b == a + "/" + b[|a| + 1..]; }
      assert Under(a, x) == Under(b, y);
    }
    if ShareAFile(a, b) {
      var x: string, y: string :| x != "" && y != "" && Under(a, x) == Under(b, y);
      if |a| <= |b| { PrefixesNest(a, x, b, y); } else { PrefixesNest(b, y, a, x); }
    }
  }

  /** The root directory holds every file, yet overlaps only itself in validate's eyes:
      "//" never starts a cleaned path. */
  lemma RootEscapesTheCheck(b: string)
    requires CleanRoot(b) && b != "/" && |b| > 1 && b[1] != '/'
    ensures ShareAFile("/", b) && !Overlaps("/", b)
  {
    assert Under("/", b[1..] + "/f") == Under(b, "f") by {
      assert "/" + b[1..] == b;
    }
  }

  /** On clean roots a check that passes keeps two pairs apart exactly when neither is "/". */
  lemma AcceptedPairsDisjoint(pairs: seq<SyncPair>, i: nat, j: nat)
    requires Disjoint(pairs) && i < j < |pairs|
    requires forall k | 0 <= k < |pairs| :: CleanRoot(pairs[k].abs) && (|pairs[k].abs| > 1 ==> pairs[k].abs[1] != '/')
    ensures !ShareAFile(pairs[i].abs, pairs[j].abs) <==> pairs[i].abs != "/" && pairs[j].abs != "/"
  {
    var a, b := pairs[i].abs, pairs[j].abs;
    if a != "/" && b != "/" {
      OverlapIffShared(b, a);
    } else if b == "/" {
      RootEscapesTheCheck(a);
    } else {
      RootEscapesTheCheck(b);
    }
  }
}
