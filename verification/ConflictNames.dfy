/** Where keep_both puts an evacuated file (internal/reconciler/conflict.go:104-121). */
module ConflictNames {
  import opened Text

  /** The index of the dot that starts the extension of the last path element, or the
      length of the path when that element has no dot; looked for from `i` downwards. */
  function ExtStart(path: string, i: nat): (r: nat)
    requires i <= |path|
    requires forall j | i <= j < |path| :: path[j] != '.' && path[j] != '/'
    ensures r == |path| || (r < i && path[r] == '.' && forall j | r < j < |path| :: path[j] != '.' && path[j] != '/')
    decreases i
  {
    if i == 0 || path[i - 1] == '/' then |path|
    else if path[i - 1] == '.' then i - 1
    else ExtStart(path, i - 1)
  }

  /** filepath.Ext. */
  function Ext(path: string): string { path[ExtStart(path, |path|)..] }

  function Base(path: string): string { path[..ExtStart(path, |path|)] }

  function ConflictName(path: string, node: string, now: string): string {
    Base(path) + "." + node + "." + now + Ext(path)
  }

  function ConflictPath(dir: string, path: string, node: string, now: string): string {
    dir + "/" + ConflictName(path, node, now)
  }

  /** Neither a dot nor a slash. */
  predicate Plain(s: string) { '.' !in s && '/' !in s }

  lemma ExtShape(path: string)
    ensures path == Base(path) + Ext(path)
    ensures Ext(path) != "" ==> Ext(path)[0] == '.' && '.' !in Ext(path)[1..]
  {
    var r := ExtStart(path, |path|);
    if r < |path| {
      assert forall j | 0 <= j < |Ext(path)[1..]| :: Ext(path)[1..][j] == path[r + 1 + j];
    }
  }

  lemma SameStem(a: string, m: string, t: string, b: string, n: string, u: string)
    requires a + "." + m + "." + t == b + "." + n + "." + u
    requires Plain(m) && Plain(t) && Plain(n) && Plain(u)
    ensures a == b && m == n && t == u
  {
    LastSplitUnique(a + "." + m, t, b + "." + n, u, '.');
    LastSplitUnique(a, m, b, n, '.');
  }

  lemma ExtOfTwo(a: string, e: string)
    requires Plain(e)
    ensures Base(a + "." + e) == a && Ext(a + "." + e) == "." + e
  {
    ExtAfter(a + "." + e, |a|, |a + "." + e|);
  }

  lemma {:induction false} ExtAfter(p: string, d: nat, i: nat)
    requires d < i <= |p| && p[d] == '.' && forall j | d < j < |p| :: p[j] != '.' && p[j] != '/'
    ensures ExtStart(p, i) == d
    decreases i
  {
    if i > d + 1 {
      ExtAfter(p, d, i - 1);
    }
  }

  /** A name made from a path without an extension is never one made from a path with one. */
  lemma MixedNamesDiffer(p: string, m: string, t: string, b: string, n: string, u: string, e: string)
    requires Plain(m) && Plain(t) && Plain(n) && Plain(u) && '.' !in e && Ext(p) == ""
    ensures p + "." + m + "." + t != b + "." + n + "." + u + "." + e
  {
    if p + "." + m + "." + t == b + "." + n + "." + u + "." + e {
      LastSplitUnique(p + "." + m, t, b + "." + n + "." + u, e, '.');
      LastSplitUnique(p, m, b + "." + n, u, '.');
      ExtOfTwo(b, n);
    }
  }

  /** The node and the second come before the extension, or last where the last component of
      the path has none. */
  lemma NameShape(stem: string, e: string, node: string, now: string)
    requires Plain(e)
    ensures ConflictName(stem + "." + e, node, now) == stem + "." + node + "." + now + "." + e
    ensures ConflictName(e, node, now) == e + "." + node + "." + now
    ensures ConflictName(stem + "/" + e, node, now) == stem + "/" + e + "." + node + "." + now
  {
    ExtOfTwo(stem, e);
    NoExtension(e, 0, |e|);
    NoExtension(stem + "/" + e, |stem| + 1, |stem + "/" + e|);
    assert e[|e|..] == "" && e[..|e|] == e;
  }

  lemma {:induction false} NoExtension(p: string, from: nat, i: nat)
    requires from <= i <= |p| && (from == 0 || p[from - 1] == '/')
    requires forall j | from <= j < |p| :: p[j] != '.' && p[j] != '/'
    ensures ExtStart(p, i) == |p|
    decreases i
  {
    if from < i {
      NoExtension(p, from, i - 1);
    }
  }

  /** The conflict name determines the path, the node and the second, provided node names
      have no dot or slash. */
  lemma ConflictNameInjective(p: string, m: string, t: string, q: string, n: string, u: string)
    requires Plain(m) && Plain(t) && Plain(n) && Plain(u)
    requires ConflictName(p, m, t) == ConflictName(q, n, u)
    ensures p == q && m == n && t == u
  {
    ExtShape(p);
    ExtShape(q);
    var (a, x, b, y) := (Base(p), Ext(p), Base(q), Ext(q));
    var (f, g) := (a + "." + m + "." + t, b + "." + n + "." + u);
    assert f + x == g + y;
    if x == "" && y == "" {
      assert f + x == f && g + y == g;
      SameStem(a, m, t, b, n, u);
    } else if x == "" {
      assert f + x == f && a == p && g + y == g + "." + y[1..];
      MixedNamesDiffer(p, m, t, b, n, u, y[1..]);
    } else if y == "" {
      assert g + y == g && b == q && f + x == f + "." + x[1..];
      MixedNamesDiffer(q, n, u, a, m, t, x[1..]);
    } else {
      assert f + x == f + "." + x[1..] && g + y == g + "." + y[1..];
      LastSplitUnique(f, x[1..], g, y[1..], '.');
      SameStem(a, m, t, b, n, u);
    }
  }

  /** The proviso is needed: a node name with a dot can stand for part of another path. */
  lemma DottedNamesCollide(p: string, m: string, n: string, e: string, now: string)
    requires Plain(e)
    ensures ConflictName(p + "." + e, m + "." + n, now) == ConflictName(p + "." + m + "." + e, n, now)
  {
    ExtOfTwo(p, e);
    ExtOfTwo(p + "." + m, e);
  }
}
