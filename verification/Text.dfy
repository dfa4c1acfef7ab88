/** Byte-wise string order, as Go's `<` on strings and SQLite's default collation
    both compute it. */
module Text {

  function LexCompare(a: string, b: string): int {
    if a == [] then (if b == [] then 0 else -1)
    else if b == [] then 1
    else if a[0] < b[0] then -1
    else if b[0] < a[0] then 1
    else LexCompare(a[1..], b[1..])
  }

  predicate LexLess(a: string, b: string) {
    LexCompare(a, b) < 0
  }

  /** Only equal strings compare equal. */
  lemma {:induction false} LexZero(a: string, b: string)
    ensures LexCompare(a, b) == 0 <==> a == b
  {
    if a != [] && b != [] {
      LexZero(a[1..], b[1..]);
      assert a == [a[0]] + a[1..] && b == [b[0]] + b[1..];
    }
  }

  lemma {:induction false} LexFlip(a: string, b: string)
    ensures LexCompare(a, b) == -LexCompare(b, a)
  {
    if a != [] && b != [] {
      LexFlip(a[1..], b[1..]);
    }
  }

  lemma {:induction false} LexTransitive(a: string, b: string, c: string)
    requires LexCompare(a, b) <= 0 && LexCompare(b, c) <= 0
    ensures LexCompare(a, c) <= 0
  {
    if a != [] && b != [] && c != [] && a[0] == b[0] == c[0] {
      LexTransitive(a[1..], b[1..], c[1..]);
    }
  }

  lemma {:induction false} LeastText(texts: set<string>) returns (least: string)
    requires texts != {}
    ensures least in texts && forall s | s in texts :: LexCompare(least, s) <= 0
  {
    least :| least in texts;
    LexZero(least, least);
    if texts != {least} {
      var other := LeastText(texts - {least});
      LexFlip(least, other);
      if LexCompare(other, least) <= 0 {
        least := other;
      } else {
        forall s | s in texts && s != least ensures LexCompare(least, s) <= 0 {
          LexTransitive(least, other, s);
        }
      }
    }
  }

  lemma {:induction false} GreatestText(texts: set<string>) returns (greatest: string)
    requires texts != {}
    ensures greatest in texts && forall s | s in texts :: LexCompare(s, greatest) <= 0
  {
    greatest :| greatest in texts;
    LexZero(greatest, greatest);
    if texts != {greatest} {
      var other := GreatestText(texts - {greatest});
      LexFlip(greatest, other);
      if LexCompare(greatest, other) <= 0 {
        greatest := other;
      } else {
        forall s | s in texts && s != greatest ensures LexCompare(s, greatest) <= 0 {
          LexTransitive(s, other, greatest);
        }
      }
    }
  }

  /** The first differing character decides. */
  lemma {:induction false} LexAtDifference(a: string, b: string, k: nat)
    requires k < |a| && k < |b|
    requires a[..k] == b[..k] && a[k] != b[k]
    ensures LexCompare(a, b) == if a[k] < b[k] then -1 else 1
  {
    if k > 0 {
      assert a[0] == a[..k][0] == b[..k][0] == b[0];
      assert a[1..][..k - 1] == a[..k][1..] && b[1..][..k - 1] == b[..k][1..];
      LexAtDifference(a[1..], b[1..], k - 1);
    }
  }

  /** A text comes before every longer text that it begins. */
  lemma {:induction false} LexPrefix(a: string, x: string)
    requires x != ""
    ensures LexCompare(a, a + x) == -1 && LexCompare(a + x, a) == 1
  {
    if a == "" {
      assert a + x == x;
    } else {
      assert (a + x)[1..] == a[1..] + x;
      LexPrefix(a[1..], x);
    }
  }

  /** The two texts differ first at `k`, and `a` has the smaller character there. */
  predicate SmallerAt(a: string, b: string, k: nat) {
    k < |a| && k < |b| && a[..k] == b[..k] && a[k] < b[k]
  }

  /** Where two texts differ first, unless one begins the other. */
  lemma {:induction false} BeginsOrDiffers(a: string, b: string)
    ensures a <= b || b <= a || exists k: nat :: SmallerAt(a, b, k) || SmallerAt(b, a, k)
  {
    if a != "" && b != "" {
      if a[0] == b[0] {
        BeginsOrDiffers(a[1..], b[1..]);
        assert a == [a[0]] + a[1..] && b == [b[0]] + b[1..];
        if k: nat :| SmallerAt(a[1..], b[1..], k) || SmallerAt(b[1..], a[1..], k) {
          assert a[..k + 1] == [a[0]] + a[1..][..k] && b[..k + 1] == [b[0]] + b[1..][..k];
          assert SmallerAt(a, b, k + 1) || SmallerAt(b, a, k + 1);
        }
      } else {
        assert SmallerAt(a, b, 0) || SmallerAt(b, a, 0);
      }
    }
  }

  /** The order of bytes: a text is less than another if and only if it begins the other, or
      has the smaller character at the first difference. */
  lemma LexLessIff(a: string, b: string)
    ensures LexLess(a, b) <==> a < b || exists k: nat :: SmallerAt(a, b, k)
  {
    forall k: nat | SmallerAt(a, b, k) ensures LexLess(a, b) { LexAtDifference(a, b, k); }
    forall k: nat | SmallerAt(b, a, k) ensures LexCompare(a, b) == 1 { LexAtDifference(a, b, k); }
    LexZero(a, b);
    BeginsOrDiffers(a, b);
    if a <= b && a != b {
      assert b == a + b[|a|..];
      LexPrefix(a, b[|a|..]);
    } else if b <= a && a != b {
      assert a == b + a[|b|..];
      LexPrefix(b, a[|b|..]);
    }
  }

  /** A common prefix of equal width can be compared first. */
  lemma {:induction false} LexAppend(p: string, q: string, x: string, y: string)
    requires |p| == |q|
    ensures LexCompare(p + x, q + y) == if LexCompare(p, q) != 0 then LexCompare(p, q) else LexCompare(x, y)
  {
    if p == [] {
      assert p + x == x && q + y == y;
    } else {
      assert (p + x)[1..] == p[1..] + x && (q + y)[1..] == q[1..] + y;
      LexAppend(p[1..], q[1..], x, y);
    }
  }

  /** Where `c` occurs last, or -1 (strings.LastIndex). */
  function LastIndex(s: string, c: char): (r: int)
    ensures -1 <= r < |s|
    ensures r >= 0 ==> s[r] == c
  {
    if s == "" then -1 else if s[|s| - 1] == c then |s| - 1 else LastIndex(s[..|s| - 1], c)
  }

  lemma {:induction false} LastIndexAppend(a: string, b: string, c: char)
    requires c !in b
    ensures LastIndex(a + [c] + b, c) == |a|
  {
    var s := a + [c] + b;
    if b == "" {
      assert s[|s| - 1] == c;
    } else {
      assert s[..|s| - 1] == a + [c] + b[..|b| - 1];
      LastIndexAppend(a, b[..|b| - 1], c);
    }
  }

  /** A text splits in one way at its last `c`. */
  lemma LastSplitUnique(a: string, x: string, b: string, y: string, c: char)
    requires a + [c] + x == b + [c] + y && c !in x && c !in y
    ensures a == b && x == y
  {
    LastIndexAppend(a, x, c);
    LastIndexAppend(b, y, c);
    assert a == (a + [c] + x)[..|a|] && b == (b + [c] + y)[..|b|];
    assert x == (a + [c] + x)[|a| + 1..] && y == (b + [c] + y)[|b| + 1..];
  }
}
