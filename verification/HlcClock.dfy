/** The hybrid logical clock (internal/changelog/hlc.go:14-92): a mutable clock, and what
    runs of one clock and of many clocks guarantee about the stamps they issue. */
module HlcClock {
  import opened Wrappers
  import opened Changelog
  import opened HlcText
  import opened HlcOrder

  /** The counter is 32 bits wide. */
  function Increment(n: nat): nat { (n + 1) % COUNTER_LIMIT }

  function Max(a: int, b: int): int { if b > a then b else a }

  predicate ValidStamp(s: Stamp) { s.logical < COUNTER_LIMIT }

  function TickStep(c: Stamp, now: int): Stamp {
    if now > c.physical then Stamp(now, 0) else Stamp(c.physical, Increment(c.logical))
  }

  function ReceiveStep(c: Stamp, now: int, received: Stamp): Stamp {
    var m := Max(Max(now, c.physical), received.physical);
    var l := if m == c.physical && m == received.physical then Increment(Max(c.logical, received.logical))
             else if m == c.physical then Increment(c.logical)
             else if m == received.physical then Increment(received.logical)
             else 0;
    Stamp(m, l)
  }

  ghost predicate Prints(text: string, t: Time, l: nat, s: Stamp) {
    ValidTime(t) && l < COUNTER_LIMIT && text == FormatHlc(t, l) && s == StampOf(t, l)
  }

  /** `text` is the printed form of a valid time and counter with the value `s`. */
  ghost predicate Shows(text: string, s: Stamp) {
    exists t: Time, l: nat :: Prints(text, t, l, s)
  }

  /** The clock object. */
  class Hlc {
    var physical: Time
    var logical: nat

    ghost predicate Valid()
      reads this
    {
      ValidTime(physical) && logical < COUNTER_LIMIT
    }

    function State(): Stamp
      reads this
    {
      StampOf(physical, logical)
    }

    /** Go's zero time. */
    constructor ()
      ensures Valid() && State() == StampOf(Time(1, 1, 1, 0, 0, 0, 0), 0)
    {
      physical := Time(1, 1, 1, 0, 0, 0, 0);
      logical := 0;
    }

    method Tick(now: Time) returns (text: string)
      requires Valid() && ValidTime(now)
      modifies this
      ensures Valid() && State() == TickStep(old(State()), Instant(now)) && Shows(text, State())
    {
      if Instant(now) > Instant(physical) {
        physical := now;
        logical := 0;
      } else {
        logical := Increment(logical);
      }
      text := Print();
    }

    method Print() returns (text: string)
      requires Valid()
      ensures Shows(text, State())
    {
      text := FormatHlc(physical, logical);
      assert Prints(text, physical, logical, State());
    }

    method Receive(now: Time, t: Time, l: nat) returns (text: string)
      requires Valid() && ValidTime(now) && ValidTime(t) && l < COUNTER_LIMIT
      modifies this
      ensures Valid() && State() == ReceiveStep(old(State()), Instant(now), StampOf(t, l)) && Shows(text, State())
    {
      var m := MaxTime(now, physical, t);
      if Instant(m) == Instant(physical) && Instant(m) == Instant(t) {
        logical := Increment(Max(logical, l));
      } else if Instant(m) == Instant(physical) {
        logical := Increment(logical);
      } else if Instant(m) == Instant(t) {
        logical := Increment(l);
      } else {
        logical := 0;
      }
      physical := m;
      text := Print();
    }

    /** HLCReceive: a text that does not parse is an error and leaves the clock alone. */
    method ReceiveText(received: string, now: Time) returns (text: Option<string>)
      requires Valid() && ValidTime(now)
      modifies this
      ensures Valid()
      ensures match ParseHlc(received)
        case None => text == None && State() == old(State())
        case Some((t, l)) =>
          State() == ReceiveStep(old(State()), Instant(now), StampOf(t, l)) && text.Some? && Shows(text.value, State())
    {
      var parsed := ParseHlc(received);
      if parsed == None {
        return None;
      }
      ParsedAreValid(received);
      var printed := Receive(now, parsed.value.0, parsed.value.1);
      text := Some(printed);
    }
  }

  function MaxTime(a: Time, b: Time, c: Time): (m: Time)
    ensures Instant(m) == Max(Max(Instant(a), Instant(b)), Instant(c))
    ensures m == a || m == b || m == c
  {
    var m := if Instant(b) > Instant(a) then b else a;
    if Instant(c) > Instant(m) then c else m
  }

  /* ---- one step ---- */

  /** A tick moves the clock forward exactly if the wall clock has passed it or the
      counter does not wrap. */
  lemma TickAdvancesIff(c: Stamp, now: int)
    requires ValidStamp(c)
    ensures ValidStamp(TickStep(c, now))
    ensures Earlier(c, TickStep(c, now)) <==> now > c.physical || c.logical + 1 < COUNTER_LIMIT
  {
  }

  /** The counter a receive step would increment, if it increments one. */
  function Carried(c: Stamp, now: int, received: Stamp): Option<nat> {
    var m := Max(Max(now, c.physical), received.physical);
    if m == c.physical && m == received.physical then Some(Max(c.logical, received.logical))
    else if m == c.physical then Some(c.logical)
    else if m == received.physical then Some(received.logical)
    else None
  }

  /** A receive moves the clock past its own and past the received stamp exactly if the
      wall clock leads or the counter it increments does not wrap. */
  lemma ReceiveAdvancesIff(c: Stamp, now: int, received: Stamp)
    requires ValidStamp(c) && ValidStamp(received)
    ensures var c' := ReceiveStep(c, now, received);
      && ValidStamp(c')
      && (Earlier(c, c') && Earlier(received, c') <==>
            Carried(c, now, received) == None || Carried(c, now, received).value + 1 < COUNTER_LIMIT)
  {
  }

  /* ---- runs of one clock ---- */

  datatype Event = Tick(now: int) | Receive(now: int, received: Stamp)

  predicate ValidEvent(e: Event, limit: nat) {
    e.Receive? ==> e.received.logical <= limit
  }

  function StepClock(c: Stamp, e: Event): Stamp {
    match e
    case Tick(now) => TickStep(c, now)
    case Receive(now, received) => ReceiveStep(c, now, received)
  }

  function ClockAt(c: Stamp, es: seq<Event>, i: nat): Stamp
    requires i <= |es|
  {
    if i == 0 then c else StepClock(ClockAt(c, es, i - 1), es[i - 1])
  }

  /** Received counters and the own one start within `limit`, and the run is short enough
      that no counter can wrap. */
  predicate Roomy(c: Stamp, es: seq<Event>, limit: nat) {
    && ValidStamp(c) && c.logical <= limit && limit + |es| < COUNTER_LIMIT
    && forall i | 0 <= i < |es| :: ValidEvent(es[i], limit)
  }

  lemma StepBounds(c: Stamp, e: Event, bound: nat, limit: nat)
    requires ValidStamp(c) && c.logical <= bound && limit <= bound && bound + 1 < COUNTER_LIMIT && ValidEvent(e, limit)
    ensures var c' := StepClock(c, e);
      && ValidStamp(c') && c'.logical <= bound + 1 && Earlier(c, c')
      && (e.Receive? ==> Earlier(e.received, c'))
  {
    match e {
      case Tick(now) => TickAdvancesIff(c, now);
      case Receive(now, received) => ReceiveAdvancesIff(c, now, received);
    }
  }

  /** The counter never exceeds the largest received one plus the number of steps. */
  lemma {:induction false} CounterBound(c: Stamp, es: seq<Event>, i: nat, limit: nat)
    requires Roomy(c, es, limit) && i <= |es|
    ensures ValidStamp(ClockAt(c, es, i)) && ClockAt(c, es, i).logical <= limit + i
  {
    if i > 0 {
      CounterBound(c, es, i - 1, limit);
      StepBounds(ClockAt(c, es, i - 1), es[i - 1], limit + i - 1, limit);
    }
  }

  lemma {:induction false} ClockIncreases(c: Stamp, es: seq<Event>, i: nat, j: nat, limit: nat)
    requires Roomy(c, es, limit) && i < j <= |es|
    ensures Earlier(ClockAt(c, es, i), ClockAt(c, es, j))
  {
    CounterBound(c, es, j - 1, limit);
    StepBounds(ClockAt(c, es, j - 1), es[j - 1], limit + j - 1, limit);
    if i < j - 1 {
      ClockIncreases(c, es, i, j - 1, limit);
    }
  }

  lemma LaterThanAll(c: Stamp, es: seq<Event>, i: nat, j: nat, limit: nat)
    requires Roomy(c, es, limit) && i < j <= |es|
    ensures Earlier(ClockAt(c, es, i), ClockAt(c, es, j))
    ensures es[i].Receive? ==> Earlier(es[i].received, ClockAt(c, es, j))
  {
    ClockIncreases(c, es, i, j, limit);
    CounterBound(c, es, i, limit);
    StepBounds(ClockAt(c, es, i), es[i], limit + i, limit);
    if i + 1 < j {
      ClockIncreases(c, es, i + 1, j, limit);
    }
  }

  /** Every stamp a clock issues is greater under CompareHLC than every stamp it issued or
      received before, whatever the wall clock shows. */
  lemma IssuedStampsIncrease(c: Stamp, es: seq<Event>, i: nat, j: nat, limit: nat, past: Stamp, a: Time, b: Time)
    requires Roomy(c, es, limit) && i < j <= |es|
    requires past == ClockAt(c, es, i) || (es[i].Receive? && past == es[i].received)
    requires ValidTime(a) && Instant(a) == past.physical && ValidTime(b) && Instant(b) == ClockAt(c, es, j).physical
    ensures CompareHlc(FormatHlc(a, past.logical), FormatHlc(b, ClockAt(c, es, j).logical)) < 0
  {
    LaterThanAll(c, es, i, j, limit);
    CounterBound(c, es, i, limit);
    CounterBound(c, es, j, limit);
    CompareDecodes(a, past.logical, b, ClockAt(c, es, j).logical);
  }

  /** A reading the clock has taken in among the first `i` events: its start, a wall-clock
      reading, or a received time. */
  predicate IsReading(c: Stamp, es: seq<Event>, i: nat, t: int)
    requires i <= |es|
  {
    || t == c.physical
    || exists j | 0 <= j < i :: t == es[j].now || (es[j].Receive? && t == es[j].received.physical)
  }

  /** The physical part is the latest of all readings seen. */
  lemma {:induction false} PhysicalIsMaximum(c: Stamp, es: seq<Event>, i: nat, t: int)
    requires i <= |es|
    ensures IsReading(c, es, i, ClockAt(c, es, i).physical)
    ensures IsReading(c, es, i, t) ==> t <= ClockAt(c, es, i).physical
  {
    if i > 0 {
      PhysicalIsMaximum(c, es, i - 1, t);
      var p, p' := ClockAt(c, es, i - 1).physical, ClockAt(c, es, i).physical;
      assert p <= p';
      assert p' == p || p' == es[i - 1].now || (es[i - 1].Receive? && p' == es[i - 1].received.physical);
    }
  }

  /* ---- what the counter counts ---- */

  /** `v` is what a count gives that began at physical time `p`: at the start, with the counter
      there; at a receipt, with the received counter; or, from nothing, when a wall clock
      showed `p`. Every event since then counts, a receipt itself included. */
  predicate CountsTo(c: Stamp, es: seq<Event>, i: nat, p: int, v: nat)
    requires i <= |es|
  {
    || (c.physical == p && v == c.logical + i)
    || (exists n | 0 <= n < i :: es[n].Receive? && es[n].received.physical == p && v == es[n].received.logical + i - n)
    || (exists n | 0 <= n < i :: es[n].now == p && v == i - n - 1)
  }

  lemma CountsOn(c: Stamp, es: seq<Event>, i: nat, p: int, v: nat)
    requires i < |es|
    ensures CountsTo(c, es, i, p, v) ==> CountsTo(c, es, i + 1, p, v + 1)
    ensures CountsTo(c, es, i + 1, p, v) ==>
      || (v > 0 && CountsTo(c, es, i, p, v - 1))
      || (es[i].Receive? && es[i].received.physical == p && v == es[i].received.logical + 1)
      || (es[i].now == p && v == 0)
  {
  }

  lemma CountIsReading(c: Stamp, es: seq<Event>, i: nat, p: int, v: nat)
    requires i <= |es| && CountsTo(c, es, i, p, v)
    ensures p <= ClockAt(c, es, i).physical
  {
    assert IsReading(c, es, i, p);
    PhysicalIsMaximum(c, es, i, p);
  }

  /** `l` is the largest count that began at `p`. */
  ghost predicate IsLargestCount(c: Stamp, es: seq<Event>, i: nat, p: int, l: nat)
    requires i <= |es|
  {
    CountsTo(c, es, i, p, l) && forall v: nat | CountsTo(c, es, i, p, v) :: v <= l
  }

  /** The counter is the largest count at the physical time the clock shows: exactly what has
      happened there, no more and no less. */
  lemma {:induction false} CounterIsLargestCount(c: Stamp, es: seq<Event>, i: nat, limit: nat)
    requires Roomy(c, es, limit) && i <= |es|
    ensures IsLargestCount(c, es, i, ClockAt(c, es, i).physical, ClockAt(c, es, i).logical)
  {
    if i > 0 {
      CounterIsLargestCount(c, es, i - 1, limit);
      CounterBound(c, es, i - 1, limit);
      LargestCountStep(c, es, i - 1);
    }
  }

  ghost predicate CountHolds(c: Stamp, es: seq<Event>, i: nat)
    requires i <= |es|
  {
    IsLargestCount(c, es, i, ClockAt(c, es, i).physical, ClockAt(c, es, i).logical)
  }

  /** The step's own part of the count. */
  lemma StepCounts(c: Stamp, e: Event)
    requires c.logical + 1 < COUNTER_LIMIT && (e.Receive? ==> e.received.logical + 1 < COUNTER_LIMIT)
    ensures var c' := StepClock(c, e);
      && c'.physical >= c.physical
      && (c'.physical == c.physical ==> c'.logical >= c.logical + 1)
      && (e.Receive? && c'.physical == e.received.physical ==> c'.logical >= e.received.logical + 1)
      && (|| (c'.physical == c.physical && c'.logical == c.logical + 1)
          || (e.Receive? && c'.physical == e.received.physical && c'.logical == e.received.logical + 1)
          || (c'.physical == e.now && c'.logical == 0))
  {
  }

  lemma CountReached(c: Stamp, es: seq<Event>, i: nat)
    requires i < |es| && CountHolds(c, es, i) && ClockAt(c, es, i).logical + 1 < COUNTER_LIMIT
    requires es[i].Receive? ==> es[i].received.logical + 1 < COUNTER_LIMIT
    ensures CountsTo(c, es, i + 1, ClockAt(c, es, i + 1).physical, ClockAt(c, es, i + 1).logical)
  {
    var was := ClockAt(c, es, i);
    StepCounts(was, es[i]);
    CountsOn(c, es, i, was.physical, was.logical);
    CountBegins(c, es, i);
  }

  lemma CountBegins(c: Stamp, es: seq<Event>, i: nat)
    requires i < |es|
    ensures CountsTo(c, es, i + 1, es[i].now, 0)
    ensures es[i].Receive? ==> CountsTo(c, es, i + 1, es[i].received.physical, es[i].received.logical + 1)
  {
  }

  lemma CountNotPassed(c: Stamp, es: seq<Event>, i: nat, v: nat)
    requires i < |es| && CountHolds(c, es, i) && ClockAt(c, es, i).logical + 1 < COUNTER_LIMIT
    requires es[i].Receive? ==> es[i].received.logical + 1 < COUNTER_LIMIT
    requires CountsTo(c, es, i + 1, ClockAt(c, es, i + 1).physical, v)
    ensures v <= ClockAt(c, es, i + 1).logical
  {
    var was, p := ClockAt(c, es, i), ClockAt(c, es, i + 1).physical;
    StepCounts(was, es[i]);
    CountsOn(c, es, i, p, v);
    if v > 0 && CountsTo(c, es, i, p, v - 1) {
      CountIsReading(c, es, i, p, v - 1);
      assert p == was.physical;
    }
  }

  lemma LargestCountStep(c: Stamp, es: seq<Event>, i: nat)
    requires i < |es| && CountHolds(c, es, i) && ClockAt(c, es, i).logical + 1 < COUNTER_LIMIT
    requires es[i].Receive? ==> es[i].received.logical + 1 < COUNTER_LIMIT
    ensures CountHolds(c, es, i + 1)
  {
    CountReached(c, es, i);
    var j, p := i + 1, ClockAt(c, es, i + 1).physical;
    forall v: nat | CountsTo(c, es, j, p, v) ensures v <= ClockAt(c, es, j).logical {
      CountNotPassed(c, es, i, v);
    }
  }

  /** Over ticks alone: the number of ticks since the physical part last changed, which it did
      at `n`; on top of the counter there, if it never did. */
  lemma {:induction false} TicksSinceChange(c: Stamp, es: seq<Event>, n: nat, i: nat, limit: nat)
    requires Roomy(c, es, limit) && n <= i <= |es| && forall j | 0 <= j < i :: es[j].Tick?
    requires ClockAt(c, es, n).physical == ClockAt(c, es, i).physical
    requires n > 0 ==> ClockAt(c, es, n - 1).physical < ClockAt(c, es, n).physical
    ensures ClockAt(c, es, i).logical == (if n == 0 then c.logical else 0) + i - n
  {
    if n < i {
      assert IsReading(c, es, i - 1, ClockAt(c, es, n).physical) by { PhysicalIsMaximum(c, es, n, 0); }
      PhysicalIsMaximum(c, es, i - 1, ClockAt(c, es, n).physical);
      CounterBound(c, es, i - 1, limit);
      TicksSinceChange(c, es, n, i - 1, limit);
    }
  }

  /** So the counter starts again from nothing when the wall clock takes the lead. */
  lemma LeadResets(c: Stamp, e: Event)
    requires e.now > c.physical && (e.Receive? ==> e.now > e.received.physical)
    ensures StepClock(c, e) == Stamp(e.now, 0)
  {
  }

  /* ---- many clocks that exchange stamps ---- */

  /** Something happens at a node: it issues a stamp, on its own or on receiving the stamp
      issued at an earlier happening. */
  datatype Happening = Happening(node: nat, now: int, from: Option<nat>)

  predicate ValidHistory(hs: seq<Happening>) {
    && |hs| < COUNTER_LIMIT
    && forall i | 0 <= i < |hs| && hs[i].from.Some? :: hs[i].from.value < i
  }

  /** The clock of node `n` after the first `i` happenings. */
  function ClockOf(hs: seq<Happening>, start: int, i: nat, n: nat): Stamp
    requires ValidHistory(hs) && i <= |hs|
    decreases i
  {
    if i == 0 then Stamp(start, 0)
    else
      var h, c := hs[i - 1], ClockOf(hs, start, i - 1, n);
      if h.node != n then c
      else match h.from
        case None => TickStep(c, h.now)
        case Some(j) =>
          ReceiveStep(c, h.now, ClockOf(hs, start, j + 1, hs[j].node))
  }

  /** The stamp issued at happening `i`. */
  function Issued(hs: seq<Happening>, start: int, i: nat): Stamp
    requires ValidHistory(hs) && i < |hs|
  {
    ClockOf(hs, start, i + 1, hs[i].node)
  }

  lemma {:induction false} HistoryBound(hs: seq<Happening>, start: int, i: nat, n: nat)
    requires ValidHistory(hs) && i <= |hs|
    ensures ValidStamp(ClockOf(hs, start, i, n)) && ClockOf(hs, start, i, n).logical <= i
    decreases i, 0
  {
    if i > 0 {
      HistoryBound(hs, start, i - 1, n);
      if hs[i - 1].node == n {
        HappeningAdvances(hs, start, i - 1);
      }
    }
  }

  /** A happening issues a stamp later than its node's clock and than what it received. */
  lemma {:induction false} HappeningAdvances(hs: seq<Happening>, start: int, i: nat)
    requires ValidHistory(hs) && i < |hs|
    ensures ValidStamp(Issued(hs, start, i)) && Issued(hs, start, i).logical <= i + 1
    ensures Earlier(ClockOf(hs, start, i, hs[i].node), Issued(hs, start, i))
    ensures hs[i].from.Some? ==> Earlier(Issued(hs, start, hs[i].from.value), Issued(hs, start, i))
    decreases i, 1
  {
    HistoryBound(hs, start, i, hs[i].node);
    var c := ClockOf(hs, start, i, hs[i].node);
    match hs[i].from {
      case None => StepBounds(c, Tick(hs[i].now), i, 0);
      case Some(j) =>
        HistoryBound(hs, start, j + 1, hs[j].node);
        var sent := Issued(hs, start, j);
        StepBounds(c, Receive(hs[i].now, sent), i, i);
    }
  }

  lemma {:induction false} NodeClockGrows(hs: seq<Happening>, start: int, i: nat, k: nat, n: nat)
    requires ValidHistory(hs) && i <= k <= |hs|
    ensures ClockOf(hs, start, i, n) == ClockOf(hs, start, k, n) || Earlier(ClockOf(hs, start, i, n),
        ClockOf(hs, start, k, n))
  {
    if i < k {
      NodeClockGrows(hs, start, i, k - 1, n);
      if hs[k - 1].node == n {
        HappeningAdvances(hs, start, k - 1);
      }
    }
  }

  /** Same node earlier, or the message received at `i` was sent at `j`. */
  predicate Direct(hs: seq<Happening>, j: nat, i: nat)
    requires ValidHistory(hs) && i < |hs|
  {
    j < i && (hs[j].node == hs[i].node || hs[i].from == Some(j))
  }

  predicate HappensBefore(hs: seq<Happening>, j: nat, i: nat)
    requires ValidHistory(hs) && i < |hs|
    decreases i
  {
    Direct(hs, j, i) || exists k | 0 <= k < i :: Direct(hs, k, i) && HappensBefore(hs, j, k)
  }

  lemma DirectIncreases(hs: seq<Happening>, start: int, j: nat, i: nat)
    requires ValidHistory(hs) && i < |hs| && Direct(hs, j, i)
    ensures Earlier(Issued(hs, start, j), Issued(hs, start, i))
  {
    HappeningAdvances(hs, start, i);
    if hs[j].node == hs[i].node {
      NodeClockGrows(hs, start, j + 1, i, hs[i].node);
    }
  }

  lemma {:induction false} CausalOrder(hs: seq<Happening>, start: int, j: nat, i: nat)
    requires ValidHistory(hs) && i < |hs| && HappensBefore(hs, j, i)
    ensures j < i && Earlier(Issued(hs, start, j), Issued(hs, start, i))
    decreases i
  {
    if Direct(hs, j, i) {
      DirectIncreases(hs, start, j, i);
    } else {
      var k :| 0 <= k < i && Direct(hs, k, i) && HappensBefore(hs, j, k);
      CausalOrder(hs, start, j, k);
      DirectIncreases(hs, start, k, i);
    }
  }

  /** Any number of clocks exchanging stamps, with any wall clocks: what happens before is
      stamped less. */
  lemma HappensBeforeIsStampedLess(hs: seq<Happening>, start: int, j: nat, i: nat, a: Time, b: Time)
    requires ValidHistory(hs) && j < |hs| && i < |hs| && HappensBefore(hs, j, i)
    requires ValidTime(a) && Instant(a) == Issued(hs, start, j).physical
    requires ValidTime(b) && Instant(b) == Issued(hs, start, i).physical
    ensures CompareHlc(FormatHlc(a, Issued(hs, start, j).logical), FormatHlc(b, Issued(hs, start, i).logical)) < 0
  {
    CausalOrder(hs, start, j, i);
    HappeningAdvances(hs, start, j);
    HappeningAdvances(hs, start, i);
    CompareDecodes(a, Issued(hs, start, j).logical, b, Issued(hs, start, i).logical);
  }
}
