/** The text form of a hybrid-logical-clock stamp: an RFC 3339 date-time in UTC with its
    fraction trimmed, a colon and eight hexadecimal digits (internal/changelog/hlc.go). */
module HlcText {
  import opened Wrappers
  import opened Text
  import opened Digits
  import opened Arithmetic

  /** A UTC time by its fields. */
  datatype Time = Time(year: nat, month: nat, day: nat, hour: nat, minute: nat, second: nat, nanos: nat)

  predicate IsLeap(year: nat) {
    year % 4 == 0 && (year % 100 != 0 || year % 400 == 0)
  }

  function DaysIn(year: nat, month: nat): nat {
    if month == 2 then (if IsLeap(year) then 29 else 28)
    else if month == 4 || month == 6 || month == 9 || month == 11 then 30
    else 31
  }

  /** What section 5.6 of RFC 3339 can write down, leap seconds aside. */
  predicate ValidTime(t: Time) {
    && t.year < 10000 && 1 <= t.month <= 12 && 1 <= t.day <= DaysIn(t.year, t.month)
    && t.hour < 24 && t.minute < 60 && t.second < 60 && t.nanos < 1_000_000_000
  }

  const COUNTER_LIMIT: nat := 0x1_0000_0000

  function DayOf(t: Time): int { (t.year * 13 + t.month) * 32 + t.day }

  function MinuteOf(t: Time): int { (DayOf(t) * 24 + t.hour) * 60 + t.minute }

  /** The whole seconds in chronological order, with gaps. */
  function SecondOf(t: Time): int { MinuteOf(t) * 60 + t.second }

  /** The instants in chronological order, with gaps. */
  function Instant(t: Time): int { SecondOf(t) * 1_000_000_000 + t.nanos }

  /** Different valid times are different instants. */
  lemma InstantInjective(a: Time, b: Time)
    requires ValidTime(a) && ValidTime(b) && Instant(a) == Instant(b)
    ensures a == b
  {
    SameParts(SecondOf(a), a.nanos, SecondOf(b), b.nanos, 1_000_000_000);
    SameParts(MinuteOf(a), a.second, MinuteOf(b), b.second, 60);
    SameParts(DayOf(a) * 24 + a.hour, a.minute, DayOf(b) * 24 + b.hour, b.minute, 60);
    SameParts(DayOf(a), a.hour, DayOf(b), b.hour, 24);
    SameParts(a.year * 13 + a.month, a.day, b.year * 13 + b.month, b.day, 32);
    SameParts(a.year, a.month, b.year, b.month, 13);
  }

  lemma SameParts(a: int, x: nat, b: int, y: nat, m: nat)
    requires x < m && y < m && a * m + x == b * m + y
    ensures a == b && x == y
  {
    if a < b {
      NextMultiple(a, b, m);
    } else if b < a {
      NextMultiple(b, a, m);
    }
  }

  /* ---- printing ---- */

  function ClockText(t: Time): string {
    Numeral(t.year, 4, 10) + ("-" + (Numeral(t.month, 2, 10) + ("-" + (Numeral(t.day, 2, 10) + ("T" +
      (Numeral(t.hour, 2, 10) + (":" + (Numeral(t.minute, 2, 10) + (":" + Numeral(t.second, 2, 10))))))))))
  }

  function Fraction(t: Time): (f: string)
    ensures AllDigits(f, 10) && |f| <= 9 && (f == "" || f[|f| - 1] != '0')
  {
    Trim(Numeral(t.nanos, 9, 10))
  }

  /** The end of a date-time: a fraction if there is one, and the zone. */
  function Ending(f: string): string { (if f == "" then "" else "." + f) + "Z" }

  function TimeText(t: Time): string { ClockText(t) + Ending(Fraction(t)) }

  function FormatHlc(t: Time, logical: nat): string {
    TimeText(t) + ":" + Numeral(logical, 8, 16)
  }

  /* ---- parsing ---- */

  function Field(s: string, from: nat, to: nat): Option<nat>
    requires from <= to <= |s|
  {
    if AllDigits(s[from..to], 10) then Some(Value(s[from..to], 10)) else None
  }

  /** How far the run of digits that starts at `i` reaches. */
  function DigitRun(s: string, i: nat): (n: nat)
    requires i <= |s|
    ensures i <= n <= |s| && AllDigits(s[i..n], 10)
    decreases |s| - i
  {
    if i < |s| && IsDigit(s[i], 10) then
      var n := DigitRun(s, i + 1);
      assert s[i..n] == [s[i]] + s[i + 1..n];
      n
    else i
  }

  /** Nanoseconds of a fraction; digits past the ninth are dropped. */
  function FractionNanos(f: string): nat
    requires AllDigits(f, 10)
  {
    if |f| >= 9 then Value(f[..9], 10) else Value(f + Zeros(9 - |f|), 10)
  }

  function ParseEnding(s: string): Option<nat> {
    if |s| >= 2 && (s[0] == '.' || s[0] == ',') && IsDigit(s[1], 10) then
      var n := DigitRun(s, 1);
      if s[n..] == "Z" then Some(FractionNanos(s[1..n])) else None
    else if s == "Z" then Some(0)
    else None
  }

  function ParseTime(s: string): Option<Time> {
    if |s| < 20 || s[4] != '-' || s[7] != '-' || s[10] != 'T' || s[13] != ':' || s[16] != ':' then None
    else
      match (Field(s, 0, 4), Field(s, 5, 7), Field(s, 8, 10), Field(s, 11, 13), Field(s, 14, 16), Field(s, 17, 19),
             ParseEnding(s[19..]))
      case (Some(y), Some(mo), Some(d), Some(h), Some(mi), Some(sec), Some(ns)) =>
        var t := Time(y, mo, d, h, mi, sec, ns);
        if ValidTime(t) then Some(t) else None
      case _ => None
  }

  /** An unsigned hexadecimal number of at most 32 bits. */
  function ParseCounter(s: string): Option<nat> {
    if s == "" || !AllDigits(s, 16) || Value(s, 16) >= COUNTER_LIMIT then None else Some(Value(s, 16))
  }

  function ParseHlc(s: string): Option<(Time, nat)> {
    var i := LastIndex(s, ':');
    if i < 0 then None
    else
      match (ParseTime(s[..i]), ParseCounter(s[i + 1..]))
      case (Some(t), Some(l)) => Some((t, l))
      case _ => None
  }

  function CompareTime(a: Time, b: Time): int { Sign(Instant(a), Instant(b)) }

  /** Decoded stamps are compared as stamps, anything else as text. */
  function CompareHlc(a: string, b: string): int {
    match (ParseHlc(a), ParseHlc(b))
    case (Some((s, i)), Some((t, j))) => if CompareTime(s, t) != 0 then CompareTime(s, t) else Sign(i, j)
    case _ => LexCompare(a, b)
  }

  /* ---- the round trip ---- */

  lemma Capacities()
    ensures Capacity(2, 10) == 100 && Capacity(4, 10) == 10000 && Capacity(9, 10) == 1_000_000_000
    ensures Capacity(8, 16) == COUNTER_LIMIT
  {
    assert Capacity(1, 10) == 10 && Capacity(2, 10) == 100 && Capacity(3, 10) == 1000 && Capacity(4, 10) == 10000;
    assert Capacity(5, 10) == 100000 && Capacity(6, 10) == 1000000 && Capacity(7, 10) == 10000000
        && Capacity(8, 10) == 100000000;
    assert Capacity(1, 16) == 0x10 && Capacity(2, 16) == 0x100 && Capacity(3, 16) == 0x1000
        && Capacity(4, 16) == 0x10000;
    assert Capacity(5, 16) == 0x10_0000 && Capacity(6, 16) == 0x100_0000 && Capacity(7, 16) == 0x1000_0000;
  }

  lemma {:induction false} DigitRunStops(f: string, rest: string, i: nat)
    requires AllDigits(f, 10) && (rest == "" || !IsDigit(rest[0], 10)) && i <= |f|
    ensures DigitRun(f + rest, i) == |f|
    decreases |f| - i
  {
    if i < |f| {
      DigitRunStops(f, rest, i + 1);
    }
  }

  lemma {:induction false} DigitRunShift(c: char, s: string, i: nat)
    requires i <= |s|
    ensures DigitRun([c] + s, i + 1) == DigitRun(s, i) + 1
    decreases |s| - i
  {
    if i < |s| && IsDigit(s[i], 10) {
      DigitRunShift(c, s, i + 1);
    }
  }

  lemma EndingRoundTrip(t: Time)
    requires ValidTime(t)
    ensures ParseEnding(Ending(Fraction(t))) == Some(t.nanos)
  {
    var f := Fraction(t);
    NanosOfFraction(t);
    if f != "" {
      EndingShape(f);
    }
  }

  /** Padding the trimmed fraction gives the nanoseconds back. */
  lemma NanosOfFraction(t: Time)
    requires ValidTime(t)
    ensures FractionNanos(Fraction(t)) == t.nanos && (Fraction(t) == "" ==> t.nanos == 0)
  {
    var f := Fraction(t);
    var d := Numeral(t.nanos, 9, 10);
    Capacities();
    NumeralRoundTrip(t.nanos, 9, 10);
    TrimDropsZeros(d);
    if |f| == 9 {
      assert f + Zeros(0) == f && f[..9] == f;
    } else if f == "" {
      assert "" + Zeros(9) == Zeros(9);
      FractionOfZeros(9);
    }
  }

  /** The run of digits after the dot is the fraction, and "Z" follows it. */
  lemma EndingShape(f: string)
    requires f != "" && forall i | 0 <= i < |f| :: IsDigit(f[i], 10)
    ensures DigitRun(Ending(f), 1) == |f| + 1 && Ending(f)[1..|f| + 1] == f && Ending(f)[|f| + 1..] == "Z"
  {
    assert Ending(f) == "." + (f + "Z");
    DigitRunStops(f, "Z", 0);
    DigitRunShift('.', f + "Z", 0);
  }

  lemma {:induction false} FractionOfZeros(n: nat)
    ensures Value(Zeros(n), 10) == 0
  {
    if n > 0 {
      assert Zeros(n)[..n - 1] == Zeros(n - 1);
      FractionOfZeros(n - 1);
    }
  }

  lemma ClockFields(t: Time)
    ensures var s := ClockText(t);
      && |s| == 19 && s[4] == '-' && s[7] == '-' && s[10] == 'T' && s[13] == ':' && s[16] == ':'
      && s[0..4] == Numeral(t.year, 4, 10) && s[5..7] == Numeral(t.month, 2, 10) && s[8..10] == Numeral(t.day, 2, 10)
      && s[11..13] == Numeral(t.hour, 2, 10) && s[14..16] == Numeral(t.minute, 2, 10)
          && s[17..19] == Numeral(t.second, 2, 10)
  {
  }

  lemma FieldReads(head: string, tail: string, from: nat, to: nat, n: nat)
    requires from <= to <= |head| && n < Capacity(to - from, 10) && head[from..to] == Numeral(n, to - from, 10)
    ensures Field(head + tail, from, to) == Some(n)
  {
    assert (head + tail)[from..to] == head[from..to];
    NumeralRoundTrip(n, to - from, 10);
  }

  lemma FieldsParse(t: Time)
    requires ValidTime(t)
    ensures var s := TimeText(t);
      && Field(s, 0, 4) == Some(t.year) && Field(s, 5, 7) == Some(t.month) && Field(s, 8, 10) == Some(t.day)
      && Field(s, 11, 13) == Some(t.hour) && Field(s, 14, 16) == Some(t.minute) && Field(s, 17, 19) == Some(t.second)
  {
    var c, e := ClockText(t), Ending(Fraction(t));
    ClockFields(t);
    Capacities();
    FieldReads(c, e, 0, 4, t.year);
    FieldReads(c, e, 5, 7, t.month);
    FieldReads(c, e, 8, 10, t.day);
    FieldReads(c, e, 11, 13, t.hour);
    FieldReads(c, e, 14, 16, t.minute);
    FieldReads(c, e, 17, 19, t.second);
  }

  lemma TimeRoundTrip(t: Time)
    requires ValidTime(t)
    ensures ParseTime(TimeText(t)) == Some(t)
  {
    ClockFields(t);
    FieldsParse(t);
    EndingRoundTrip(t);
    assert TimeText(t)[19..] == Ending(Fraction(t));
  }

  /** Parsing a printed stamp gives back exactly the time and the counter. */
  lemma HlcRoundTrip(t: Time, logical: nat)
    requires ValidTime(t) && logical < COUNTER_LIMIT
    ensures ParseHlc(FormatHlc(t, logical)) == Some((t, logical))
  {
    var n := Numeral(logical, 8, 16);
    var s := FormatHlc(t, logical);
    LastIndexAppend(TimeText(t), n, ':');
    assert s == TimeText(t) + [':'] + n;
    assert s[..|TimeText(t)|] == TimeText(t) && s[|TimeText(t)| + 1..] == n;
    TimeRoundTrip(t);
    Capacities();
    NumeralRoundTrip(logical, 8, 16);
  }
}
