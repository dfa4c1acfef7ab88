/** Two orders on stamp texts that are meant to agree: CompareHLC, and the plain string
    order SQLite uses for ORDER BY, `>`, MAX and the pruning cutoff. */
module HlcOrder {
  import opened Wrappers
  import opened Text
  import opened Digits
  import opened Arithmetic
  import opened Changelog
  import opened HlcText

  /** One of the two digit texts is a proper prefix of the other. */
  predicate ProperPrefix(f: string, g: string) { f < g || g < f }

  /* ---- the whole seconds ---- */

  lemma FieldOrder(m: nat, n: nat, width: nat, x: string, y: string)
    requires m < Capacity(width, 10) && n < Capacity(width, 10)
    ensures LexCompare(Numeral(m, width, 10) + x, Numeral(n, width, 10) + y)
         == if m != n then Sign(m, n) else LexCompare(x, y)
  {
    NumeralOrder(m, n, width, 10);
    LexAppend(Numeral(m, width, 10), Numeral(n, width, 10), x, y);
  }

  lemma SeparatorOrder(c: char, x: string, y: string)
    ensures LexCompare([c] + x, [c] + y) == LexCompare(x, y)
  {
    LexAppend([c], [c], x, y);
  }

  function HourText(t: Time): string {
    Numeral(t.hour, 2, 10) + (":" + (Numeral(t.minute, 2, 10) + (":" + Numeral(t.second, 2, 10))))
  }

  function TimeOfDay(t: Time): int { (t.hour * 60 + t.minute) * 60 + t.second }

  lemma HourOrder(a: Time, b: Time)
    requires ValidTime(a) && ValidTime(b)
    ensures LexCompare(HourText(a), HourText(b)) == Sign(TimeOfDay(a), TimeOfDay(b))
  {
    Capacities();
    var (sa, sb) := (Numeral(a.second, 2, 10), Numeral(b.second, 2, 10));
    var (ma, mb) := (Numeral(a.minute, 2, 10) + (":" + sa), Numeral(b.minute, 2, 10) + (":" + sb));
    NumeralOrder(a.second, b.second, 2, 10);
    SeparatorOrder(':', sa, sb);
    FieldOrder(a.minute, b.minute, 2, ":" + sa, ":" + sb);
    SeparatorOrder(':', ma, mb);
    FieldOrder(a.hour, b.hour, 2, ":" + ma, ":" + mb);
  }

  function DateText(t: Time, rest: string): string {
    Numeral(t.year, 4, 10) + ("-" + (Numeral(t.month, 2, 10) + ("-" + (Numeral(t.day, 2, 10) + rest))))
  }

  lemma DateOrder(a: Time, b: Time, x: string, y: string)
    requires ValidTime(a) && ValidTime(b)
    ensures LexCompare(DateText(a, x), DateText(b, y))
         == if DayOf(a) != DayOf(b) then Sign(DayOf(a), DayOf(b)) else LexCompare(x, y)
  {
    Capacities();
    var (da, db) := (Numeral(a.day, 2, 10) + x, Numeral(b.day, 2, 10) + y);
    var (ma, mb) := (Numeral(a.month, 2, 10) + ("-" + da), Numeral(b.month, 2, 10) + ("-" + db));
    FieldOrder(a.day, b.day, 2, x, y);
    SeparatorOrder('-', da, db);
    FieldOrder(a.month, b.month, 2, "-" + da, "-" + db);
    SeparatorOrder('-', ma, mb);
    FieldOrder(a.year, b.year, 4, "-" + ma, "-" + mb);
  }

  /** Texts of whole seconds sort chronologically. */
  lemma ClockOrder(a: Time, b: Time)
    requires ValidTime(a) && ValidTime(b)
    ensures LexCompare(ClockText(a), ClockText(b)) == Sign(SecondOf(a), SecondOf(b))
  {
    HourOrder(a, b);
    SeparatorOrder('T', HourText(a), HourText(b));
    DateOrder(a, b, "T" + HourText(a), "T" + HourText(b));
    assert SecondOf(a) == DayOf(a) * 86400 + TimeOfDay(a);
    assert SecondOf(b) == DayOf(b) * 86400 + TimeOfDay(b);
  }

  /* ---- the fractions ---- */

  /** The first place where two texts, neither a prefix of the other, differ. */
  lemma {:induction false} FirstDifference(f: string, g: string) returns (k: nat)
    requires f != g && !ProperPrefix(f, g)
    ensures k < |f| && k < |g| && f[..k] == g[..k] && f[k] != g[k]
  {
    if f[0] != g[0] {
      k := 0;
    } else {
      assert f == [f[0]] + f[1..] && g == [g[0]] + g[1..];
      var j := FirstDifference(f[1..], g[1..]);
      k := j + 1;
      assert f[..k] == [f[0]] + f[1..][..j] && g[..k] == [g[0]] + g[1..][..j];
    }
  }

  /** Endings of date-times compare like their digits, except that a shorter fraction that
      is a prefix of the longer one sorts after it, since 'Z' follows '.' and every digit. */
  lemma EndingOrder(f: string, g: string, x: string, y: string)
    requires AllDigits(f, 10) && AllDigits(g, 10)
    ensures LexCompare(Ending(f) + x, Ending(g) + y) ==
      if f == g then LexCompare(x, y) else if f < g then 1 else if g < f then -1 else LexCompare(f, g)
  {
    var a, b := Ending(f) + x, Ending(g) + y;
    if f == g {
      LexAppend(Ending(f), Ending(g), x, y);
      LexZero(Ending(f), Ending(g));
    } else if f < g || g < f {
      var k := if f < g then |f| else |g|;
      var d := if k == 0 then 0 else k + 1;
      assert a[..d] == b[..d];
      LexAtDifference(a, b, d);
    } else {
      var k := FirstDifference(f, g);
      assert a[..k + 1] == "." + f[..k] && b[..k + 1] == "." + g[..k];
      LexAtDifference(a, b, k + 1);
      LexAtDifference(f, g, k);
    }
  }

  /** Padding with zeros on the right does not change an order that is decided before. */
  lemma PaddedOrder(f: string, g: string, p: string, q: string)
    requires f != g && !ProperPrefix(f, g)
    ensures LexCompare(f + p, g + q) == LexCompare(f, g)
  {
    var k := FirstDifference(f, g);
    assert (f + p)[..k] == f[..k] && (g + q)[..k] == g[..k];
    LexAtDifference(f + p, g + q, k);
    LexAtDifference(f, g, k);
  }

  function Padded(f: string, width: nat): (p: string)
    requires |f| <= width
    ensures |p| == width
  {
    f + Zeros(width - |f|)
  }

  lemma PrefixPadded(f: string, tail: string)
    requires AllDigits(tail, 10)
    ensures LexCompare(f + Zeros(|tail|), f + tail) == if tail == Zeros(|tail|) then 0 else -1
  {
    LexAppend(f, f, Zeros(|tail|), tail);
    LexZero(f, f);
    ZerosLeast(tail);
  }

  /** A proper prefix, padded with zeros to the same width, is not greater; and it is
      smaller if the longer text ends in a non-zero digit. */
  lemma PrefixOrder(f: string, g: string, width: nat)
    requires AllDigits(f, 10) && AllDigits(g, 10) && f < g && |g| <= width
    ensures LexCompare(Padded(f, width), Padded(g, width)) <= 0
    ensures g[|g| - 1] != '0' ==> LexCompare(Padded(f, width), Padded(g, width)) == -1
  {
    var tail := g[|f|..] + Zeros(width - |g|);
    assert Padded(g, width) == f + tail;
    assert tail[|g| - 1 - |f|] == g[|g| - 1];
    PrefixPadded(f, tail);
  }

  /** How two digit texts and their zero-padded forms compare. */
  lemma PaddedCompare(f: string, g: string, width: nat)
    requires AllDigits(f, 10) && AllDigits(g, 10) && |f| <= width && |g| <= width
    ensures var c := LexCompare(Padded(f, width), Padded(g, width));
      && (f == g ==> c == 0)
      && (f < g ==> c <= 0 && (g[|g| - 1] != '0' ==> c == -1))
      && (g < f ==> c >= 0 && (f[|f| - 1] != '0' ==> c == 1))
      && (f != g && !ProperPrefix(f, g) ==> c == LexCompare(f, g) && c != 0)
  {
    if f == g {
      LexZero(Padded(f, width), Padded(g, width));
    } else if f < g {
      PrefixOrder(f, g, width);
    } else if g < f {
      PrefixOrder(g, f, width);
      LexFlip(Padded(f, width), Padded(g, width));
    } else {
      PaddedOrder(f, g, Zeros(width - |f|), Zeros(width - |g|));
      LexZero(f, g);
    }
  }

  lemma FractionPads(t: Time)
    ensures Padded(Fraction(t), 9) == Numeral(t.nanos, 9, 10)
  {
    TrimDropsZeros(Numeral(t.nanos, 9, 10));
  }

  /** The digit texts of two fractions, in relation to the nanoseconds they stand for. */
  lemma FractionOrder(a: Time, b: Time)
    requires ValidTime(a) && ValidTime(b)
    ensures var f, g := Fraction(a), Fraction(b);
      && (f == g <==> a.nanos == b.nanos)
      && (f < g ==> a.nanos < b.nanos) && (g < f ==> b.nanos < a.nanos)
      && (f != g && !ProperPrefix(f, g) ==> LexCompare(f, g) == Sign(a.nanos, b.nanos))
  {
    Capacities();
    NumeralOrder(a.nanos, b.nanos, 9, 10);
    FractionPads(a);
    FractionPads(b);
    PaddedCompare(Fraction(a), Fraction(b), 9);
  }

  /* ---- stamps ---- */

  /** Both texts lie in one second and one's trimmed fraction is a proper prefix of the
      other's. */
  predicate Clash(a: Time, b: Time) {
    SecondOf(a) == SecondOf(b) && ProperPrefix(Fraction(a), Fraction(b))
  }

  function StampOf(t: Time, logical: nat): Stamp { Stamp(Instant(t), logical) }

  /** On printed stamps CompareHLC is the comparison of the decoded stamps. */
  lemma CompareDecodes(a: Time, i: nat, b: Time, j: nat)
    requires ValidTime(a) && ValidTime(b) && i < COUNTER_LIMIT && j < COUNTER_LIMIT
    ensures CompareHlc(FormatHlc(a, i), FormatHlc(b, j)) == CompareStamp(StampOf(a, i), StampOf(b, j))
  {
    HlcRoundTrip(a, i);
    HlcRoundTrip(b, j);
  }

  lemma StampTextOrder(a: Time, i: nat, b: Time, j: nat)
    requires ValidTime(a) && ValidTime(b) && i < COUNTER_LIMIT && j < COUNTER_LIMIT
    ensures LexCompare(FormatHlc(a, i), FormatHlc(b, j)) ==
      if SecondOf(a) != SecondOf(b) then Sign(SecondOf(a), SecondOf(b))
      else if Fraction(a) == Fraction(b) then Sign(i, j)
      else if Fraction(a) < Fraction(b) then 1
      else if Fraction(b) < Fraction(a) then -1
      else LexCompare(Fraction(a), Fraction(b))
  {
    var x, y := ":" + Numeral(i, 8, 16), ":" + Numeral(j, 8, 16);
    assert FormatHlc(a, i) == ClockText(a) + (Ending(Fraction(a)) + x);
    assert FormatHlc(b, j) == ClockText(b) + (Ending(Fraction(b)) + y);
    ClockFields(a);
    ClockFields(b);
    LexAppend(ClockText(a), ClockText(b), Ending(Fraction(a)) + x, Ending(Fraction(b)) + y);
    ClockOrder(a, b);
    EndingOrder(Fraction(a), Fraction(b), x, y);
    SeparatorOrder(':', Numeral(i, 8, 16), Numeral(j, 8, 16));
    Capacities();
    NumeralOrder(i, j, 8, 16);
  }

  /** The string order of two printed stamps and CompareHLC agree unless the stamps clash,
      and then they are opposite. */
  lemma OrdersAgreeIffNoClash(a: Time, i: nat, b: Time, j: nat)
    requires ValidTime(a) && ValidTime(b) && i < COUNTER_LIMIT && j < COUNTER_LIMIT
    ensures var text, time := LexCompare(FormatHlc(a, i), FormatHlc(b, j)), CompareHlc(FormatHlc(a, i),
        FormatHlc(b, j));
      && (text == time <==> !Clash(a, b))
      && (Clash(a, b) ==> text == -time && time != 0)
  {
    StampTextOrder(a, i, b, j);
    CompareDecodes(a, i, b, j);
    FractionOrder(a, b);
    SecondsFirst(a, b);
  }

  lemma SecondsFirst(a: Time, b: Time)
    requires ValidTime(a) && ValidTime(b)
    ensures CompareTime(a, b) == if SecondOf(a) != SecondOf(b) then Sign(SecondOf(a), SecondOf(b))
        else Sign(a.nanos, b.nanos)
  {
    if SecondOf(a) < SecondOf(b) {
      NextMultiple(SecondOf(a), SecondOf(b), 1_000_000_000);
    } else if SecondOf(b) < SecondOf(a) {
      NextMultiple(SecondOf(b), SecondOf(a), 1_000_000_000);
    }
  }

  /** Stamps of different seconds, and stamps whose fractions have one width, never clash. */
  lemma NoClash(a: Time, b: Time)
    requires SecondOf(a) != SecondOf(b) || |Fraction(a)| == |Fraction(b)|
    ensures !Clash(a, b)
  {
  }

  /** On a log in which no stamp clashes with `since`, the SQL cursor `hlc_timestamp > since`
      selects exactly the entries CompareHLC puts after it; and the text MAX of a log
      without clashes is a CompareHLC maximum. */
  lemma CursorAndMax(log: seq<(Time, nat)>, since: (Time, nat))
    requires ValidTime(since.0) && since.1 < COUNTER_LIMIT
    requires forall e | e in log :: ValidTime(e.0) && e.1 < COUNTER_LIMIT && !Clash(e.0, since.0)
    ensures forall e | e in log ::
      LexLess(FormatHlc(since.0, since.1), FormatHlc(e.0, e.1)) <==>
        CompareHlc(FormatHlc(e.0, e.1), FormatHlc(since.0, since.1)) > 0
    ensures (forall e | e in log :: LexCompare(FormatHlc(e.0, e.1), FormatHlc(since.0, since.1)) <= 0) ==>
      forall e | e in log :: CompareHlc(FormatHlc(e.0, e.1), FormatHlc(since.0, since.1)) <= 0
  {
    forall e | e in log
      ensures LexCompare(FormatHlc(e.0, e.1), FormatHlc(since.0, since.1)) == CompareHlc(FormatHlc(e.0, e.1),
          FormatHlc(since.0, since.1))
      ensures LexCompare(FormatHlc(since.0, since.1), FormatHlc(e.0, e.1)) == -LexCompare(FormatHlc(e.0, e.1),
          FormatHlc(since.0, since.1))
    {
      OrdersAgreeIffNoClash(e.0, e.1, since.0, since.1);
      LexFlip(FormatHlc(since.0, since.1), FormatHlc(e.0, e.1));
    }
  }

  /** CompareHLC is a total preorder on texts that parse. */
  lemma CompareIsPreorder(a: string, b: string, c: string)
    requires ParseHlc(a).Some? && ParseHlc(b).Some? && ParseHlc(c).Some?
    ensures CompareHlc(a, b) == -CompareHlc(b, a)
    ensures CompareHlc(a, b) <= 0 && CompareHlc(b, c) <= 0 ==> CompareHlc(a, c) <= 0
    ensures CompareHlc(a, b) == 0 <==> ParseHlc(a) == ParseHlc(b)
  {
    CompareParsed(a, b);
    CompareParsed(b, a);
    CompareParsed(b, c);
    CompareParsed(a, c);
    ParsedDiffer(a, b);
  }

  function Parsed(s: string): Stamp
    requires ParseHlc(s).Some?
  {
    StampOf(ParseHlc(s).value.0, ParseHlc(s).value.1)
  }

  lemma CompareParsed(a: string, b: string)
    requires ParseHlc(a).Some? && ParseHlc(b).Some?
    ensures CompareHlc(a, b) == CompareStamp(Parsed(a), Parsed(b))
  {
  }

  lemma ParsedDiffer(a: string, b: string)
    requires ParseHlc(a).Some? && ParseHlc(b).Some?
    ensures Parsed(a) == Parsed(b) <==> ParseHlc(a) == ParseHlc(b)
  {
    ParsedAreValid(a);
    ParsedAreValid(b);
    if Parsed(a) == Parsed(b) {
      InstantInjective(ParseHlc(a).value.0, ParseHlc(b).value.0);
    }
  }

  lemma ParsedAreValid(s: string)
    ensures ParseHlc(s).Some? ==> ValidTime(ParseHlc(s).value.0) && ParseHlc(s).value.1 < COUNTER_LIMIT
  {
  }

  /** With one text that does not parse, CompareHLC can run in a circle: in every second
      the stamp without a fraction is before the half second, that is before a malformed
      text, and that is before the stamp without a fraction. */
  lemma CompareCanCycle(t: Time, half: Time, i: nat, j: nat)
    requires ValidTime(t) && t.nanos == 0 && half == t.(nanos := 500_000_000) && i < COUNTER_LIMIT && j < COUNTER_LIMIT
    ensures var a, b, c := FormatHlc(t, i), FormatHlc(half, j), ClockText(t) + "X";
      CompareHlc(a, b) < 0 && CompareHlc(b, c) < 0 && CompareHlc(c, a) < 0
  {
    var a, b, c := FormatHlc(t, i), FormatHlc(half, j), ClockText(t) + "X";
    HalfIsLater(t, half, i, j);
    MalformedText(t);
    MarkedTexts(t, half, i, j);
  }

  lemma HalfIsLater(t: Time, half: Time, i: nat, j: nat)
    requires ValidTime(t) && t.nanos == 0 && half == t.(nanos := 500_000_000) && i < COUNTER_LIMIT && j < COUNTER_LIMIT
    ensures CompareHlc(FormatHlc(t, i), FormatHlc(half, j)) < 0
  {
    CompareDecodes(t, i, half, j);
  }

  lemma MarkedTexts(t: Time, half: Time, i: nat, j: nat)
    requires ValidTime(t) && t.nanos == 0 && half == t.(nanos := 500_000_000)
    ensures var c := ClockText(t) + "X"; LexCompare(FormatHlc(half, j), c) < 0 && LexCompare(c, FormatHlc(t, i)) < 0
  {
    HalfIsWritten(t, half);
    var x, y := Fraction(half) + "Z:" + Numeral(j, 8, 16), ":" + Numeral(i, 8, 16);
    MarkerOrder(ClockText(t), x, y);
    WholeText(t, i);
    PartText(half, j);
  }

  lemma WholeText(t: Time, i: nat)
    requires Fraction(t) == ""
    ensures FormatHlc(t, i) == ClockText(t) + ("Z" + (":" + Numeral(i, 8, 16)))
  {
  }

  lemma PartText(t: Time, i: nat)
    requires Fraction(t) != ""
    ensures FormatHlc(t, i) == ClockText(t) + ("." + (Fraction(t) + "Z:" + Numeral(i, 8, 16)))
  {
  }

  lemma MarkerOrder(p: string, x: string, y: string)
    ensures LexCompare(p + ("." + x), p + "X") < 0 && LexCompare(p + "X", p + ("Z" + y)) < 0
  {
    LexZero(p, p);
    LexAppend(p, p, "." + x, "X");
    LexAppend(p, p, "X", "Z" + y);
  }

  lemma HalfIsWritten(t: Time, half: Time)
    requires ValidTime(t) && t.nanos == 0 && half == t.(nanos := 500_000_000)
    ensures Fraction(t) == "" && Fraction(half) != "" && ClockText(half) == ClockText(t)
  {
    NoFraction(t);
    FractionOrder(t, half);
  }

  lemma NoFraction(t: Time)
    requires t.nanos == 0
    ensures Fraction(t) == ""
  {
    ZeroNumeral(9);
    TrimZeros(9);
  }

  lemma {:induction false} ZeroNumeral(width: nat)
    ensures Numeral(0, width, 10) == Zeros(width)
  {
    if width > 0 {
      ZeroNumeral(width - 1);
      assert Zeros(width) == Zeros(width - 1) + "0";
    }
  }

  lemma {:induction false} TrimZeros(n: nat)
    ensures Trim(Zeros(n)) == ""
  {
    if n > 0 {
      assert Zeros(n)[..n - 1] == Zeros(n - 1);
      TrimZeros(n - 1);
    }
  }

  /** The last colon of a bare date-time stands before its seconds, so what precedes it is
      too short to be a time. */
  lemma MalformedText(t: Time)
    ensures ParseHlc(ClockText(t) + "X") == None
  {
    var s := ClockText(t) + "X";
    ClockFields(t);
    var rest := Numeral(t.second, 2, 10) + "X";
    assert s == ClockText(t)[..16] + [':'] + rest;
    LastIndexAppend(ClockText(t)[..16], rest, ':');
  }

  /* ---- the pruning cutoff ---- */

  /** `created_at` as SQLite's strftime writes it: always three fraction digits. */
  function CreatedText(t: Time, millis: nat): string {
    ClockText(t) + Ending(Numeral(millis, 3, 10))
  }

  /** `created_at < cutoff` on the texts is right for a row created at second `t` plus
      `millis` unless row and cutoff share a second and one's written digits are a proper
      prefix of the other's; then it is wrong. */
  lemma CutoffRightIffNoClash(t: Time, millis: nat, cutoff: Time)
    requires ValidTime(t) && millis < 1000 && t.nanos == millis * 1_000_000 && ValidTime(cutoff)
    ensures (LexLess(CreatedText(t, millis), TimeText(cutoff)) <==> Instant(t) < Instant(cutoff)) <==>
      !(SecondOf(t) == SecondOf(cutoff) && ProperPrefix(Numeral(millis, 3, 10), Fraction(cutoff)))
  {
    CreatedOrder(t, millis, cutoff);
    SecondsFirst(t, cutoff);
    WrittenDigits(millis, cutoff);
  }

  /** Three written digits and a trimmed fraction, in relation to the nanoseconds. */
  lemma WrittenDigits(millis: nat, cutoff: Time)
    requires millis < 1000 && ValidTime(cutoff)
    ensures var r, c, n := Numeral(millis, 3, 10), Fraction(cutoff), millis * 1_000_000;
      && (r == c ==> n == cutoff.nanos)
      && (r < c ==> n < cutoff.nanos) && (c < r ==> n >= cutoff.nanos)
      && (r != c && !ProperPrefix(r, c) ==> LexCompare(r, c) == Sign(n, cutoff.nanos))
  {
    MillisAsNanos(millis);
    FractionPads(cutoff);
    Capacities();
    NumeralOrder(millis * 1_000_000, cutoff.nanos, 9, 10);
    PaddedCompare(Numeral(millis, 3, 10), Fraction(cutoff), 9);
  }

  lemma CreatedOrder(t: Time, millis: nat, cutoff: Time)
    requires ValidTime(t) && ValidTime(cutoff)
    ensures var r, c := Numeral(millis, 3, 10), Fraction(cutoff);
      LexCompare(CreatedText(t, millis), TimeText(cutoff)) ==
        if SecondOf(t) != SecondOf(cutoff) then Sign(SecondOf(t), SecondOf(cutoff))
        else if r == c then 0 else if r < c then 1 else if c < r then -1 else LexCompare(r, c)
  {
    var r, c := Numeral(millis, 3, 10), Fraction(cutoff);
    ClockFields(t);
    ClockFields(cutoff);
    LexAppend(ClockText(t), ClockText(cutoff), Ending(r), Ending(c));
    ClockOrder(t, cutoff);
    assert Ending(r) + "" == Ending(r) && Ending(c) + "" == Ending(c);
    EndingOrder(r, c, "", "");
  }

  lemma {:induction false} ShiftedNumeral(n: nat, width: nat, zeros: nat)
    ensures Numeral(Shift(n, zeros), width + zeros, 10) == Numeral(n, width, 10) + Zeros(zeros)
  {
    if zeros > 0 {
      ShiftedNumeral(n, width, zeros - 1);
      assert Zeros(zeros) == Zeros(zeros - 1) + "0";
    } else {
      assert Zeros(0) == "";
    }
  }

  function Shift(n: nat, zeros: nat): nat {
    if zeros == 0 then n else Shift(n, zeros - 1) * 10
  }

  lemma MillisAsNanos(millis: nat)
    ensures Numeral(millis * 1_000_000, 9, 10) == Numeral(millis, 3, 10) + Zeros(6)
  {
    ShiftedNumeral(millis, 3, 6);
    assert Shift(millis, 1) == millis * 10 && Shift(millis, 2) == millis * 100 && Shift(millis, 3) == millis * 1000;
    assert Shift(millis, 4) == millis * 10000 && Shift(millis, 5) == millis * 100000;
  }
}
