/** Fixed-width numerals in base 10 and 16, and the order of their texts. */
module Digits {
  import opened Text

  predicate IsBase(base: nat) { base == 10 || base == 16 }

  function DigitChar(d: nat): char
    requires d < 16
  {
    if d < 10 then '0' + d as char else 'a' + (d - 10) as char
  }

  predicate IsDigit(c: char, base: nat) {
    '0' <= c <= '9' || (base == 16 && ('a' <= c <= 'f' || 'A' <= c <= 'F'))
  }

  function DigitValue(c: char): nat
    requires IsDigit(c, 16)
  {
    if c <= '9' then (c - '0') as nat else if c <= 'F' then (c - 'A') as nat + 10 else (c - 'a') as nat + 10
  }

  predicate AllDigits(s: string, base: nat) {
    forall i | 0 <= i < |s| :: IsDigit(s[i], base)
  }

  function Quotient(n: nat, base: nat): nat
    requires IsBase(base)
  {
    if base == 10 then n / 10 else n / 16
  }

  function Remainder(n: nat, base: nat): (r: nat)
    requires IsBase(base)
    ensures r < base && n == Quotient(n, base) * base + r
  {
    if base == 10 then n % 10 else n % 16
  }

  /** The last `width` digits of `n`, with leading zeros. */
  function Numeral(n: nat, width: nat, base: nat): (s: string)
    requires IsBase(base)
    ensures |s| == width && AllDigits(s, base) && forall i | 0 <= i < |s| :: !('A' <= s[i] <= 'Z')
  {
    if width == 0 then "" else Numeral(Quotient(n, base), width - 1, base) + [DigitChar(Remainder(n, base))]
  }

  function Value(s: string, base: nat): nat
    requires IsBase(base) && AllDigits(s, base)
  {
    if s == "" then 0 else Value(s[..|s| - 1], base) * base + DigitValue(s[|s| - 1])
  }

  /** The number of numerals of the given width. */
  function Capacity(width: nat, base: nat): nat
    requires IsBase(base)
  {
    if width == 0 then 1 else Capacity(width - 1, base) * base
  }

  lemma QuotientFits(n: nat, width: nat, base: nat)
    requires IsBase(base) && width > 0 && n < Capacity(width, base)
    ensures Quotient(n, base) < Capacity(width - 1, base)
  {
    if base == 10 {} else {}
  }

  /** Reading a numeral gives back the number. */
  lemma {:induction false} NumeralRoundTrip(n: nat, width: nat, base: nat)
    requires IsBase(base) && n < Capacity(width, base)
    ensures Value(Numeral(n, width, base), base) == n
  {
    if width > 0 {
      QuotientFits(n, width, base);
      NumeralRoundTrip(Quotient(n, base), width - 1, base);
      ValueAppend(Numeral(Quotient(n, base), width - 1, base), Remainder(n, base), base);
    }
  }

  lemma ValueAppend(s: string, d: nat, base: nat)
    requires IsBase(base) && AllDigits(s, base) && d < base
    ensures AllDigits(s + [DigitChar(d)], base) && Value(s + [DigitChar(d)], base) == Value(s, base) * base + d
  {
    assert (s + [DigitChar(d)])[..|s|] == s;
  }

  function Sign(m: int, n: int): int {
    if m < n then -1 else if m > n then 1 else 0
  }

  /** Numerals of one width are ordered as texts the way their numbers are. */
  lemma {:induction false} NumeralOrder(m: nat, n: nat, width: nat, base: nat)
    requires IsBase(base) && m < Capacity(width, base) && n < Capacity(width, base)
    ensures LexCompare(Numeral(m, width, base), Numeral(n, width, base)) == Sign(m, n)
  {
    if width > 0 {
      QuotientFits(m, width, base);
      QuotientFits(n, width, base);
      NumeralOrder(Quotient(m, base), Quotient(n, base), width - 1, base);
      LexAppend(Numeral(Quotient(m, base), width - 1, base), Numeral(Quotient(n, base), width - 1, base),
                [DigitChar(Remainder(m, base))], [DigitChar(Remainder(n, base))]);
      QuotientOrder(m, n, base);
    }
  }

  lemma QuotientOrder(m: nat, n: nat, base: nat)
    requires IsBase(base)
    ensures Sign(m, n) == if Quotient(m, base) != Quotient(n, base) then Sign(Quotient(m, base), Quotient(n, base))
                          else Sign(Remainder(m, base), Remainder(n, base))
  {
    if base == 10 {} else {}
  }

  function Zeros(n: nat): (s: string)
    ensures |s| == n && AllDigits(s, 10)
  {
    seq(n, _ => '0')
  }

  /** Zeros come before every other digit text of their length. */
  lemma {:induction false} ZerosLeast(s: string)
    requires AllDigits(s, 10)
    ensures LexCompare(Zeros(|s|), s) == if s == Zeros(|s|) then 0 else -1
  {
    if s != "" {
      assert Zeros(|s|)[1..] == Zeros(|s[1..]|);
      ZerosLeast(s[1..]);
      assert s == [s[0]] + s[1..];
      assert Zeros(|s|) == ['0'] + Zeros(|s[1..]|);
    }
  }

  /** A digit text without its trailing zeros. */
  function Trim(s: string): (r: string)
    requires AllDigits(s, 10)
    ensures |r| <= |s| && r <= s && AllDigits(r, 10)
    ensures r == "" || r[|r| - 1] != '0'
  {
    if s == "" || s[|s| - 1] != '0' then s else Trim(s[..|s| - 1])
  }

  lemma {:induction false} TrimDropsZeros(s: string)
    requires AllDigits(s, 10)
    ensures s == Trim(s) + Zeros(|s| - |Trim(s)|)
  {
    if s != "" && s[|s| - 1] == '0' {
      var p := s[..|s| - 1];
      TrimDropsZeros(p);
      assert s == p + "0";
      assert Zeros(|s| - |Trim(p)|) == Zeros(|p| - |Trim(p)|) + "0";
    }
  }
}
