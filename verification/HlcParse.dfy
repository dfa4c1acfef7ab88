/** Exactly which texts parse as a stamp, and as which (internal/changelog/hlc.go:99-114). */
module HlcParse {
  import opened Wrappers
  import opened Text
  import opened Digits
  import opened HlcText

  function LowerChar(c: char): char { if 'A' <= c <= 'F' then 'a' + (c - 'A') else c }

  function Lower(s: string): (r: string)
    ensures |r| == |s|
  {
    if s == "" then "" else Lower(s[..|s| - 1]) + [LowerChar(s[|s| - 1])]
  }

  lemma DivideBack(v: nat, d: nat, base: nat)
    requires IsBase(base) && d < base
    ensures Quotient(v * base + d, base) == v && Remainder(v * base + d, base) == d
  {
    if base == 10 {} else {}
  }

  lemma DigitBack(c: char, base: nat)
    requires IsBase(base) && IsDigit(c, base)
    ensures DigitValue(c) < base && DigitChar(DigitValue(c)) == LowerChar(c)
  {
  }

  lemma BelowCapacity(v: nat, d: nat, width: nat, base: nat)
    requires IsBase(base) && width > 0 && v < Capacity(width - 1, base) && d < base
    ensures v * base + d < Capacity(width, base)
  {
    if base == 10 {} else {}
  }

  /** Every digit text is the numeral of its value, but for the case of its letters. */
  lemma {:induction false} NumeralOfValue(s: string, base: nat)
    requires IsBase(base) && AllDigits(s, base)
    ensures Value(s, base) < Capacity(|s|, base) && Numeral(Value(s, base), |s|, base) == Lower(s)
  {
    if s != "" {
      var n := |s| - 1;
      NumeralOfValue(s[..n], base);
      DigitBack(s[n], base);
      BelowCapacity(Value(s[..n], base), DigitValue(s[n]), |s|, base);
      DivideBack(Value(s[..n], base), DigitValue(s[n]), base);
    }
  }

  lemma {:induction false} LowerDecimal(s: string)
    requires AllDigits(s, 10)
    ensures Lower(s) == s
  {
    if s != "" {
      LowerDecimal(s[..|s| - 1]);
    }
  }

  lemma FieldIs(s: string, from: nat, to: nat)
    requires from <= to <= |s|
    ensures Field(s, from, to).Some? ==> s[from..to] == Numeral(Field(s, from, to).value, to - from, 10)
  {
    if Field(s, from, to).Some? {
      NumeralOfValue(s[from..to], 10);
      LowerDecimal(s[from..to]);
    }
  }

  /* ---- the end of a date-time ---- */

  /** `f` are the digits of a fraction in `e`, after a dot or a comma; without any, just the zone. */
  predicate IsEnding(e: string, f: string) {
    if f == "" then e == "Z" else e == "." + (f + "Z") || e == "," + (f + "Z")
  }

  /** `f` is a written fraction of so many nanoseconds: nine digits count, and missing ones are
      zeros. */
  predicate IsFraction(f: string, nanos: nat) {
    AllDigits(f, 10) && (f + Zeros(9))[..9] == Numeral(nanos, 9, 10)
  }

  lemma NineDigits(f: string)
    requires AllDigits(f, 10)
    ensures var d := (f + Zeros(9))[..9];
      AllDigits(d, 10) && d == if |f| >= 9 then f[..9] else f + Zeros(9 - |f|)
  {
    if |f| < 9 {
      assert Zeros(9)[..9 - |f|] == Zeros(9 - |f|);
    }
  }

  lemma FractionIff(f: string, nanos: nat)
    requires AllDigits(f, 10)
    ensures FractionNanos(f) == nanos && nanos < 1_000_000_000 <==> IsFraction(f, nanos) && nanos < 1_000_000_000
  {
    var d := (f + Zeros(9))[..9];
    NineDigits(f);
    NumeralOfValue(d, 10);
    LowerDecimal(d);
    Capacities();
    if nanos < 1_000_000_000 {
      NumeralRoundTrip(nanos, 9, 10);
    }
  }

  lemma RunOfEnding(e: string, f: string)
    requires f != "" && AllDigits(f, 10) && IsEnding(e, f)
    ensures |e| == |f| + 2 && DigitRun(e, 1) == |f| + 1 && e[1..|f| + 1] == f && e[|f| + 1..] == "Z"
    ensures IsDigit(e[1], 10) && (e[0] == '.' || e[0] == ',')
  {
    var c := e[0];
    DigitRunStops(f, "Z", 0);
    DigitRunShift(c, f + "Z", 0);
    AroundDigits(c, f);
  }

  lemma AroundDigits(c: char, f: string)
    requires f != ""
    ensures var e := [c] + (f + "Z"); e[1..|f| + 1] == f && e[|f| + 1..] == "Z" && e[0] == c && e[1] == f[0]
  {
  }

  lemma EndingParses(e: string, f: string)
    requires AllDigits(f, 10) && IsEnding(e, f)
    ensures ParseEnding(e) == Some(FractionNanos(f))
  {
    if f == "" {
      FractionOfZeros(9);
      assert "" + Zeros(9) == Zeros(9);
    } else {
      RunOfEnding(e, f);
    }
  }

  function DigitsOf(e: string): (f: string)
    ensures AllDigits(f, 10)
  {
    if |e| >= 2 && (e[0] == '.' || e[0] == ',') && IsDigit(e[1], 10) then e[1..DigitRun(e, 1)] else ""
  }

  lemma ParsedEnding(e: string)
    ensures ParseEnding(e).Some? ==> IsEnding(e, DigitsOf(e)) && ParseEnding(e).value == FractionNanos(DigitsOf(e))
  {
    var f := DigitsOf(e);
    if ParseEnding(e).Some? && e != "Z" {
      var n := DigitRun(e, 1);
      assert e == [e[0]] + (e[1..n] + e[n..]);
    } else if e == "Z" {
      EndingParses(e, "");
    }
  }

  /* ---- whole texts ---- */

  /** `s` writes the time `t`: date and time of day in full, then any number of digits of the
      fraction after a dot or a comma, or none, and the zone. */
  ghost predicate Writes(s: string, t: Time) {
    ValidTime(t) && exists f: string :: WritesWith(s, t, f)
  }

  predicate WritesWith(s: string, t: Time, f: string) {
    |s| >= 20 && s[..19] == ClockText(t) && IsEnding(s[19..], f) && IsFraction(f, t.nanos)
  }

  lemma ParsedClock(s: string)
    ensures ParseTime(s).Some? ==> |s| >= 20 && s[..19] == ClockText(ParseTime(s).value)
  {
    if ParseTime(s).Some? {
      var t := ParseTime(s).value;
      FieldIs(s, 0, 4);
      FieldIs(s, 5, 7);
      FieldIs(s, 8, 10);
      FieldIs(s, 11, 13);
      FieldIs(s, 14, 16);
      FieldIs(s, 17, 19);
      JoinClock(s, t);
    }
  }

  lemma JoinClock(s: string, t: Time)
    requires |s| >= 19 && s[4] == '-' && s[7] == '-' && s[10] == 'T' && s[13] == ':' && s[16] == ':'
    requires s[0..4] == Numeral(t.year, 4, 10) && s[5..7] == Numeral(t.month, 2, 10)
    requires s[8..10] == Numeral(t.day, 2, 10) && s[11..13] == Numeral(t.hour, 2, 10)
    requires s[14..16] == Numeral(t.minute, 2, 10) && s[17..19] == Numeral(t.second, 2, 10)
    ensures s[..19] == ClockText(t)
  {
    Piece(s, 0, 4, "-");
    Piece(s, 5, 7, "-");
    Piece(s, 8, 10, "T");
    Piece(s, 11, 13, ":");
    Piece(s, 14, 16, ":");
    assert s[0..19] == s[..19];
  }

  /** A field, the separator after it, and the rest of the date and time of day. */
  lemma Piece(s: string, from: nat, to: nat, separator: string)
    requires from <= to < 19 <= |s| && separator == [s[to]]
    ensures s[from..19] == s[from..to] + (separator + s[to + 1..19])
  {
  }

  lemma ClockParses(s: string, t: Time, f: string)
    requires ValidTime(t) && WritesWith(s, t, f)
    ensures ParseTime(s) == Some(t)
  {
    var c, e := s[..19], s[19..];
    assert s == c + e;
    ClockFields(t);
    Capacities();
    FieldReads(c, e, 0, 4, t.year);
    FieldReads(c, e, 5, 7, t.month);
    FieldReads(c, e, 8, 10, t.day);
    FieldReads(c, e, 11, 13, t.hour);
    FieldReads(c, e, 14, 16, t.minute);
    FieldReads(c, e, 17, 19, t.second);
    EndingParses(e, f);
    FractionIff(f, t.nanos);
  }

  /** A text parses as a time if and only if it writes that time. */
  lemma TimeParsesIff(s: string, t: Time)
    ensures ParseTime(s) == Some(t) <==> Writes(s, t)
  {
    if ParseTime(s) == Some(t) {
      ParsedClock(s);
      ParsedEnding(s[19..]);
      FractionIff(DigitsOf(s[19..]), t.nanos);
      assert WritesWith(s, t, DigitsOf(s[19..]));
    }
    if Writes(s, t) {
      var f: string :| WritesWith(s, t, f);
      ClockParses(s, t, f);
    }
  }

  /** `s` writes the counter `l` in any width and with letters of either case. */
  predicate WritesCounter(s: string, l: nat) {
    s != "" && AllDigits(s, 16) && l < COUNTER_LIMIT && l < Capacity(|s|, 16) && Lower(s) == Numeral(l, |s|, 16)
  }

  lemma CounterParsesIff(s: string, l: nat)
    ensures ParseCounter(s) == Some(l) <==> WritesCounter(s, l)
  {
    if AllDigits(s, 16) {
      NumeralOfValue(s, 16);
      NumeralRoundTrip(Value(s, 16), |s|, 16);
      if l < Capacity(|s|, 16) { NumeralRoundTrip(l, |s|, 16); }
    }
  }

  /** A text parses as a stamp if and only if it writes the time, a colon and the counter. */
  lemma StampParsesIff(s: string, t: Time, l: nat)
    ensures ParseHlc(s) == Some((t, l))
      <==> exists a: string, b: string :: s == a + ":" + b && Writes(a, t) && WritesCounter(b, l)
  {
    if ParseHlc(s) == Some((t, l)) {
      var i := LastIndex(s, ':');
      assert s == s[..i] + ":" + s[i + 1..];
      TimeParsesIff(s[..i], t);
      CounterParsesIff(s[i + 1..], l);
    }
    forall a: string, b: string | s == a + ":" + b && Writes(a, t) && WritesCounter(b, l)
      ensures ParseHlc(s) == Some((t, l))
    {
      StampParses(s, a, b, t, l);
    }
  }

  lemma StampParses(s: string, a: string, b: string, t: Time, l: nat)
    requires s == a + ":" + b && Writes(a, t) && WritesCounter(b, l)
    ensures ParseHlc(s) == Some((t, l))
  {
    assert ':' !in b;
    LastIndexAppend(a, b, ':');
    assert s[..|a|] == a && s[|a| + 1..] == b;
    TimeParsesIff(a, t);
    CounterParsesIff(b, l);
  }

  /** A printed stamp is the time, a colon, and eight hexadecimal digits in lower case. */
  lemma PrintedShape(t: Time, l: nat)
    ensures var s := FormatHlc(t, l);
      && |s| == |TimeText(t)| + 9 && s[..|s| - 9] == TimeText(t) && s[|s| - 9] == ':'
      && forall i | |s| - 8 <= i < |s| :: '0' <= s[i] <= '9' || 'a' <= s[i] <= 'f'
  {
    var n := Numeral(l, 8, 16);
    var s := FormatHlc(t, l);
    assert forall i | 0 <= i < 8 :: s[|s| - 8 + i] == n[i] && IsDigit(n[i], 16);
  }
}
