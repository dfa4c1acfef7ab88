/** The debouncer: a table of pending events, a timer per event, a mutex and a bounded
    channel (internal/watcher/debounce.go, internal/watcher/watcher.go:91-104). */
module Debounce {
  import opened Wrappers
  import opened Changelog

  const MAX_PENDING: nat := 100_000
  const CAPACITY: nat := 1024

  datatype RawEvent = RawEvent(key: Key, kind: Kind, isDir: bool, pid: int)

  /** A pending event and the timer that is to emit it. */
  datatype PendingEntry = PendingEntry(event: RawEvent, timer: nat)

  /** The shared state. `armed` maps each running timer to the key its callback looks up;
      `waiting` counts the callbacks that fired and wait for the mutex; `inFlight` holds
      events taken out by a callback and not yet in the channel. */
  datatype Table = Table(
    pending: map<Key, PendingEntry>, armed: map<nat, Key>, nextTimer: nat,
    waiting: multiset<Key>, inFlight: multiset<RawEvent>, out: seq<RawEvent>)

  /** Push, past the size check: a pending key keeps its timer, reset; a new one gets one. */
  function Insert(t: Table, e: RawEvent): Table {
    if e.key in t.pending then
      var timer := t.pending[e.key].timer;
      t.(pending := t.pending[e.key := PendingEntry(e, timer)], armed := t.armed[timer := e.key])
    else
      t.(pending := t.pending[e.key := PendingEntry(e, t.nextTimer)],
         armed := t.armed[t.nextTimer := e.key], nextTimer := t.nextTimer + 1)
  }

  /** A timer goes off: its callback starts and waits for the mutex. */
  function Fire(t: Table, timer: nat): Table
    requires timer in t.armed
  {
    t.(armed := t.armed - {timer}, waiting := t.waiting + multiset{t.armed[timer]})
  }

  /** The locked part of the callback for `k`: it takes whatever is pending under `k` now. */
  function Extract(t: Table, k: Key): Table {
    var u := t.(waiting := t.waiting - multiset{k});
    if k in t.pending then u.(pending := u.pending - {k}, inFlight := u.inFlight + multiset{t.pending[k].event}) else u
  }

  /** The callback's send, which needs room in the channel. */
  function Send(t: Table, e: RawEvent): Table {
    t.(inFlight := t.inFlight - multiset{e}, out := t.out + [e])
  }

  /** One turn of flushLocked's loop first stops the timer. */
  function StopTimer(t: Table, k: Key): Table
    requires k in t.pending
  {
    t.(armed := t.armed - {t.pending[k].timer})
  }

  /** When the channel has room it sends, and deletes. */
  function EmitStopped(t: Table, k: Key): Table
    requires k in t.pending
  {
    t.(out := t.out + [t.pending[k].event], pending := t.pending - {k})
  }

  /* ---- the interleavings ---- */

  /** The mutex is free, or held by a flush, which a full table makes part of the push of
      `held`; the flush may be about to send the event of a key whose timer it has stopped. */
  datatype Lock = Free | Flushing(held: Option<RawEvent>, stopped: Option<Key>)

  /** The table, the mutex, and the history: what was pushed, what a later push of its key
      replaced, what the consumer received, and the latest push of each key. */
  datatype State = State(
    table: Table, lock: Lock,
    pushed: multiset<RawEvent>, superseded: multiset<RawEvent>, taken: seq<RawEvent>, latest: map<Key, RawEvent>)

  datatype Action =
    | Push(event: RawEvent)
    | TimerFires(timer: nat)
    | Callback(key: Key)
    | SendOut(event: RawEvent)
    | FlushBegins
    | FlushStops(key: Key)
    | FlushEmits(key: Key)
    | FlushEnds
    | Take

  /** A flush has stopped the timer of `k` and waits for room in the channel. */
  predicate IsStopped(s: State, k: Key) { s.lock.Flushing? && s.lock.stopped == Some(k) }

  predicate Can(s: State, a: Action) {
    match a
    case Push(_) => s.lock.Free?
    case TimerFires(timer) => timer in s.table.armed
    case Callback(k) => s.lock.Free? && k in s.table.waiting
    case SendOut(e) => e in s.table.inFlight && |s.table.out| < CAPACITY
    case FlushBegins => s.lock.Free?
    case FlushStops(k) => s.lock.Flushing? && s.lock.stopped.None? && k in s.table.pending
    case FlushEmits(k) => IsStopped(s, k) && k in s.table.pending && |s.table.out| < CAPACITY
    case FlushEnds => s.lock.Flushing? && s.lock.stopped.None? && s.table.pending == map[]
    case Take => s.table.out != []
  }

  /** The insertion, with its history. */
  function Inserted(s: State, e: RawEvent): State {
    var replaced := if e.key in s.table.pending then multiset{s.table.pending[e.key].event} else multiset{};
    s.(table := Insert(s.table, e), lock := Free, pushed := s.pushed + multiset{e},
       superseded := s.superseded + replaced, latest := s.latest[e.key := e])
  }

  function Step(s: State, a: Action): State
    requires Can(s, a)
  {
    match a
    case Push(e) => if |s.table.pending| >= MAX_PENDING then s.(lock := Flushing(Some(e), None)) else Inserted(s, e)
    case TimerFires(timer) => s.(table := Fire(s.table, timer))
    case Callback(k) => s.(table := Extract(s.table, k))
    case SendOut(e) => s.(table := Send(s.table, e))
    case FlushBegins => s.(lock := Flushing(None, None))
    case FlushStops(k) => s.(table := StopTimer(s.table, k), lock := s.lock.(stopped := Some(k)))
    case FlushEmits(k) => s.(table := EmitStopped(s.table, k), lock := s.lock.(stopped := None))
    case FlushEnds => if s.lock.held.None? then s.(lock := Free) else Inserted(s, s.lock.held.value)
    case Take => s.(taken := s.taken + [s.table.out[0]], table := s.table.(out := s.table.out[1..]))
  }

  /** How often `e` is pending: once or not at all. */
  function PendingCount(t: Table, e: RawEvent): nat {
    if e.key in t.pending && t.pending[e.key].event == e then 1 else 0
  }

  /** Where the copies of `e` are now: received, in the channel, in flight, pending, or
      superseded by a later push of the key. */
  function Whereabouts(s: State, e: RawEvent): nat {
    multiset(s.taken)[e] + multiset(s.table.out)[e] + s.table.inFlight[e] + PendingCount(s.table, e) + s.superseded[e]
  }

  /** No push is lost and none is doubled. */
  ghost predicate Conserved(s: State) {
    forall e :: s.pushed[e] == Whereabouts(s, e)
  }

  /** A pending event is its key's latest push, and its timer is running, a callback for its
      key is waiting, or a flush is about to send it. */
  ghost predicate TendedAt(s: State, k: Key)
    requires k in s.table.pending
  {
    var p := s.table.pending[k];
    && p.event.key == k && k in s.latest && s.latest[k] == p.event
    && ((p.timer in s.table.armed && s.table.armed[p.timer] == k) || k in s.table.waiting || IsStopped(s, k))
  }

  ghost predicate Tended(s: State) {
    forall k | k in s.table.pending :: TendedAt(s, k)
  }

  /** What a flush is about to send is still there. */
  ghost predicate StoppedIsPending(s: State) {
    forall k | IsStopped(s, k) :: k in s.table.pending
  }

  ghost predicate TimersDistinct(t: Table) {
    && (forall timer | timer in t.armed :: timer < t.nextTimer)
    && (forall k | k in t.pending :: t.pending[k].timer < t.nextTimer)
    && (forall j, k | j in t.pending && k in t.pending && t.pending[j].timer == t.pending[k].timer :: j == k)
  }

  ghost predicate Bounded(s: State) {
    |s.table.pending| <= MAX_PENDING && |s.table.out| <= CAPACITY
  }

  ghost predicate Inv(s: State) {
    Conserved(s) && Tended(s) && TimersDistinct(s.table) && Bounded(s) && StoppedIsPending(s)
  }

  const INITIAL: State :=
    State(Table(map[], map[], 0, multiset{}, multiset{}, []), Free, multiset{}, multiset{}, [], map[])

  lemma SplitHead(out: seq<RawEvent>)
    requires out != []
    ensures multiset(out) == multiset{out[0]} + multiset(out[1..])
  {
    assert out == [out[0]] + out[1..];
  }

  lemma InsertMoves(s: State, e: RawEvent, x: RawEvent)
    requires Tended(s)
    ensures Whereabouts(Inserted(s, e), x) == Whereabouts(s, x) + if x == e then 1 else 0
  {
    if e.key in s.table.pending {
      assert TendedAt(s, e.key);
    }
  }

  lemma ExtractMoves(s: State, k: Key, x: RawEvent)
    requires Tended(s) && Can(s, Callback(k))
    ensures Whereabouts(Step(s, Callback(k)), x) == Whereabouts(s, x)
  {
    if k in s.table.pending {
      assert TendedAt(s, k);
    }
  }

  lemma EmitMoves(s: State, k: Key, x: RawEvent)
    requires Tended(s) && Can(s, FlushEmits(k))
    ensures Whereabouts(Step(s, FlushEmits(k)), x) == Whereabouts(s, x)
  {
    assert TendedAt(s, k);
  }

  lemma TakeMoves(s: State, x: RawEvent)
    requires s.table.out != []
    ensures Whereabouts(Step(s, Take), x) == Whereabouts(s, x)
  {
    SplitHead(s.table.out);
  }

  lemma SendMoves(s: State, e: RawEvent, x: RawEvent)
    requires Can(s, SendOut(e))
    ensures Whereabouts(Step(s, SendOut(e)), x) == Whereabouts(s, x)
  {
  }

  /** A step accounts for each event: only its own push adds a copy. */
  lemma StepMoves(s: State, a: Action, x: RawEvent)
    requires Tended(s) && Can(s, a)
    ensures Step(s, a).pushed[x] - s.pushed[x] == Whereabouts(Step(s, a), x) - Whereabouts(s, x)
  {
    match a {
      case Push(e) => if |s.table.pending| < MAX_PENDING { InsertMoves(s, e, x); }
      case FlushEnds => if s.lock.held.Some? { InsertMoves(s, s.lock.held.value, x); }
      case Callback(k) => ExtractMoves(s, k, x);
      case FlushEmits(k) => EmitMoves(s, k, x);
      case SendOut(e) => SendMoves(s, e, x);
      case Take => TakeMoves(s, x);
      case _ =>
    }
  }

  lemma ConservedStep(s: State, a: Action)
    requires Conserved(s) && Tended(s) && Can(s, a)
    ensures Conserved(Step(s, a))
  {
    forall x ensures Step(s, a).pushed[x] == Whereabouts(Step(s, a), x) {
      StepMoves(s, a, x);
    }
  }

  lemma InsertTends(s: State, e: RawEvent)
    requires Tended(s) && TimersDistinct(s.table) && (s.lock.Flushing? ==> s.lock.stopped.None?)
    ensures Tended(Inserted(s, e)) && TimersDistinct(Inserted(s, e).table)
  {
    var s' := Inserted(s, e);
    forall k | k in s'.table.pending ensures TendedAt(s', k) {
      if k != e.key {
        assert TendedAt(s, k);
      }
    }
  }

  lemma RemovalTends(s: State, s': State, k: Key)
    requires Tended(s) && TimersDistinct(s.table) && s'.latest == s.latest
    requires s'.table.pending == s.table.pending - {k} && s'.table.nextTimer == s.table.nextTimer
    requires s'.table.armed == s.table.armed
    requires s'.table.waiting == s.table.waiting || s'.table.waiting == s.table.waiting - multiset{k}
    requires forall j | j != k :: IsStopped(s, j) ==> IsStopped(s', j)
    ensures Tended(s') && TimersDistinct(s'.table)
  {
    forall j | j in s'.table.pending ensures TendedAt(s', j) {
      assert TendedAt(s, j);
    }
  }

  lemma StopTends(s: State, k: Key)
    requires Tended(s) && TimersDistinct(s.table) && Can(s, FlushStops(k))
    ensures Tended(Step(s, FlushStops(k))) && TimersDistinct(Step(s, FlushStops(k)).table)
  {
    var s' := Step(s, FlushStops(k));
    forall j | j in s'.table.pending ensures TendedAt(s', j) {
      assert TendedAt(s, j);
    }
  }

  lemma FireTends(s: State, timer: nat)
    requires Tended(s) && TimersDistinct(s.table) && timer in s.table.armed
    ensures Tended(Step(s, TimerFires(timer))) && TimersDistinct(Step(s, TimerFires(timer)).table)
  {
    var s' := Step(s, TimerFires(timer));
    forall k | k in s'.table.pending ensures TendedAt(s', k) {
      assert TendedAt(s, k);
    }
  }

  lemma CallbackTends(s: State, k: Key)
    requires Tended(s) && TimersDistinct(s.table) && Can(s, Callback(k))
    ensures Tended(Step(s, Callback(k))) && TimersDistinct(Step(s, Callback(k)).table)
  {
    assert k !in s.table.pending ==> s.table.pending - {k} == s.table.pending;
    RemovalTends(s, Step(s, Callback(k)), k);
  }

  lemma FlushEndTends(s: State)
    requires Tended(s) && TimersDistinct(s.table) && Can(s, FlushEnds)
    ensures Tended(Step(s, FlushEnds)) && TimersDistinct(Step(s, FlushEnds).table)
  {
    if s.lock.held.Some? {
      InsertTends(s, s.lock.held.value);
    } else {
      SameTable(s, Step(s, FlushEnds));
    }
  }

  lemma TendedStep(s: State, a: Action)
    requires Tended(s) && TimersDistinct(s.table) && Can(s, a)
    ensures Tended(Step(s, a)) && TimersDistinct(Step(s, a).table)
  {
    match a {
      case Push(e) => if |s.table.pending| < MAX_PENDING { InsertTends(s, e); } else { SameTable(s, Step(s, a)); }
      case TimerFires(timer) => FireTends(s, timer);
      case Callback(k) => CallbackTends(s, k);
      case FlushStops(k) => StopTends(s, k);
      case FlushEmits(k) => RemovalTends(s, Step(s, a), k);
      case FlushEnds => FlushEndTends(s);
      case _ => SameTable(s, Step(s, a));
    }
  }

  lemma SameTable(s: State, s': State)
    requires Tended(s) && TimersDistinct(s.table) && s'.latest == s.latest
    requires s'.table == s.table.(inFlight := s'.table.inFlight, out := s'.table.out)
    requires forall k :: IsStopped(s, k) ==> IsStopped(s', k)
    ensures Tended(s') && TimersDistinct(s'.table)
  {
    forall k | k in s'.table.pending ensures TendedAt(s', k) {
      assert TendedAt(s, k);
    }
  }

  lemma BoundedStep(s: State, a: Action)
    requires Bounded(s) && Can(s, a)
    ensures Bounded(Step(s, a))
  {
    match a {
      case Push(e) => InsertSize(s.table, e);
      case FlushEnds => if s.lock.held.Some? { InsertSize(s.table, s.lock.held.value); }
      case Callback(k) => RemoveSize(s.table.pending, k);
      case FlushEmits(k) => RemoveSize(s.table.pending, k);
      case _ =>
    }
  }

  lemma InsertSize(t: Table, e: RawEvent)
    ensures |Insert(t, e).pending| <= |t.pending| + 1
  {
    assert Insert(t, e).pending.Keys == t.pending.Keys + {e.key};
  }

  lemma RemoveSize(m: map<Key, PendingEntry>, k: Key)
    ensures |m - {k}| == |m| - if k in m then 1 else 0
  {
    assert (m - {k}).Keys == m.Keys - {k};
  }

  lemma StoppedStep(s: State, a: Action)
    requires StoppedIsPending(s) && Can(s, a)
    ensures StoppedIsPending(Step(s, a))
  {
    forall k | IsStopped(Step(s, a), k) ensures k in Step(s, a).table.pending {
      assert IsStopped(s, k) || a == FlushStops(k);
    }
  }

  /** Pushes, late callbacks, sends, flushes and the consumer in any interleaving. */
  ghost predicate Runs(states: seq<State>, actions: seq<Action>) {
    && |states| == |actions| + 1 && states[0] == INITIAL
    && forall i | 0 <= i < |actions| :: Can(states[i], actions[i]) && states[i + 1] == Step(states[i], actions[i])
  }

  /** At every point of every interleaving: pushes = emitted + in flight + pending +
      superseded, event by event; each pending event is its key's latest push and is
      tended by a timer, a callback or the running flush; and the table never exceeds its
      limit. */
  lemma {:induction false} ConservationAlways(states: seq<State>, actions: seq<Action>, i: nat)
    requires Runs(states, actions) && i < |states|
    ensures Inv(states[i])
  {
    if i > 0 {
      ConservationAlways(states, actions, i - 1);
      ConservedStep(states[i - 1], actions[i - 1]);
      TendedStep(states[i - 1], actions[i - 1]);
      BoundedStep(states[i - 1], actions[i - 1]);
      StoppedStep(states[i - 1], actions[i - 1]);
    }
  }

  /** The event a step takes out of the table. */
  function Extracted(s: State, a: Action): Option<RawEvent> {
    match a
    case Callback(k) => if k in s.table.pending then Some(s.table.pending[k].event) else None
    case FlushEmits(k) => if k in s.table.pending then Some(s.table.pending[k].event) else None
    case _ => None
  }

  /** An event leaves the table only as the latest push of its key at that moment, even
      when the callback that takes it belongs to an older timer. */
  lemma ExtractsLatest(states: seq<State>, actions: seq<Action>, i: nat)
    requires Runs(states, actions) && i < |actions| && Extracted(states[i], actions[i]).Some?
    ensures var e := Extracted(states[i], actions[i]).value;
      e.key in states[i].latest && states[i].latest[e.key] == e && e.key !in states[i + 1].table.pending
  {
    ConservationAlways(states, actions, i);
  }

  /* ---- the order of what is sent ---- */

  /** Everything sent so far: what the consumer has, and what waits in the channel. */
  function Sent(s: State): seq<RawEvent> { s.taken + s.table.out }

  /** What a step sends. */
  function SentBy(s: State, a: Action): seq<RawEvent> {
    match a
    case SendOut(e) => [e]
    case FlushEmits(k) => if k in s.table.pending then [s.table.pending[k].event] else []
    case _ => []
  }

  lemma SentGrows(s: State, a: Action)
    requires Can(s, a)
    ensures Sent(Step(s, a)) == Sent(s) + SentBy(s, a)
  {
    var taken, out, more := s.taken, s.table.out, SentBy(s, a);
    if a.Take? {
      assert out == [out[0]] + out[1..];
      Regroup(taken, [out[0]], out[1..]);
      Regroup(taken, out, []);
    } else {
      Regroup(taken, out, more);
    }
  }

  lemma Regroup(a: seq<RawEvent>, b: seq<RawEvent>, c: seq<RawEvent>)
    ensures a + (b + c) == (a + b) + c && b + [] == b && a <= a + b
  {
  }

  lemma PrefixOn(a: seq<RawEvent>, b: seq<RawEvent>, c: seq<RawEvent>)
    requires a <= b
    ensures a <= b + c
  {
  }

  lemma SentStays(sent: seq<RawEvent>, s: State, a: Action)
    requires Can(s, a) && sent <= Sent(s)
    ensures sent <= Sent(Step(s, a))
  {
    SentGrows(s, a);
    PrefixOn(sent, Sent(s), SentBy(s, a));
  }

  lemma {:induction false} StaysSent(states: seq<State>, actions: seq<Action>, sent: seq<RawEvent>, i: nat, j: nat)
    requires Runs(states, actions) && i <= j < |states| && sent <= Sent(states[i])
    ensures sent <= Sent(states[j])
  {
    if i < j {
      StaysSent(states, actions, sent, i, j - 1);
      SentStays(sent, states[j - 1], actions[j - 1]);
    }
  }

  /** First in, first out: whatever happens later, what has been sent is received in the order
      in which it was sent, and nothing overtakes it. */
  lemma NothingOvertakes(states: seq<State>, actions: seq<Action>, i: nat, j: nat)
    requires Runs(states, actions) && i <= j < |states|
    ensures Sent(states[i]) <= Sent(states[j])
  {
    StaysSent(states, actions, Sent(states[i]), i, j);
  }

  /** An event sent at step `i` comes directly after all that was sent before it. */
  lemma SentInPlace(states: seq<State>, actions: seq<Action>, i: nat, j: nat)
    requires Runs(states, actions) && i < j < |states|
    ensures Sent(states[i]) + SentBy(states[i], actions[i]) <= Sent(states[j])
  {
    SentGrows(states[i], actions[i]);
    NothingOvertakes(states, actions, i + 1, j);
  }

  /* ---- timers ---- */

  /** Every push has replaced a pending event or got a timer of its own; and no push brings
      more than one callback. */
  predicate TimersCount(s: State) {
    && |s.pushed| == s.table.nextTimer + |s.superseded|
    && |s.table.armed| + |s.table.waiting| <= |s.pushed|
  }

  lemma ArmedSize(m: map<nat, Key>, timer: nat, k: Key)
    ensures |m[timer := k]| == |m| + if timer in m then 0 else 1
    ensures |m - {timer}| == |m| - if timer in m then 1 else 0
  {
    assert m[timer := k].Keys == m.Keys + {timer} && (m - {timer}).Keys == m.Keys - {timer};
  }

  lemma InsertCounts(s: State, e: RawEvent)
    requires TimersCount(s)
    ensures TimersCount(Inserted(s, e))
  {
    var t := s.table;
    ArmedSize(t.armed, if e.key in t.pending then t.pending[e.key].timer else t.nextTimer, e.key);
  }

  lemma StepCounts(s: State, a: Action)
    requires TimersCount(s) && Can(s, a)
    ensures TimersCount(Step(s, a))
  {
    match a {
      case Push(e) => if |s.table.pending| < MAX_PENDING { InsertCounts(s, e); }
      case FlushEnds => if s.lock.held.Some? { InsertCounts(s, s.lock.held.value); }
      case TimerFires(timer) => ArmedSize(s.table.armed, timer, s.table.armed[timer]);
      case FlushStops(k) => ArmedSize(s.table.armed, s.table.pending[k].timer, k);
      case _ =>
    }
  }

  lemma {:induction false} OneTimerPerBurst(states: seq<State>, actions: seq<Action>, i: nat)
    requires Runs(states, actions) && i < |states|
    ensures TimersCount(states[i])
  {
    if i > 0 {
      OneTimerPerBurst(states, actions, i - 1);
      StepCounts(states[i - 1], actions[i - 1]);
    }
  }

  /* ---- each push and each firing counts once ---- */

  /** How often `e` was pushed among the first `i` actions. */
  function PushesOf(actions: seq<Action>, i: nat, e: RawEvent): nat
    requires i <= |actions|
  {
    if i == 0 then 0 else PushesOf(actions, i - 1, e) + if actions[i - 1] == Push(e) then 1 else 0
  }

  /** `e` is the event of a push that waits for its flush to end. */
  predicate IsHeld(s: State, e: RawEvent) { s.lock.Flushing? && s.lock.held == Some(e) }

  /** Every push counts once: as soon as it is in the table, which for a push that finds the
      table full is when its flush has ended. */
  lemma {:induction false} EveryPushCounts(states: seq<State>, actions: seq<Action>, i: nat, e: RawEvent)
    requires Runs(states, actions) && i < |states|
    ensures states[i].pushed[e] + (if IsHeld(states[i], e) then 1 else 0) == PushesOf(actions, i, e)
  {
    if i > 0 {
      EveryPushCounts(states, actions, i - 1, e);
      assert Can(states[i - 1], actions[i - 1]);
      HeldStep(states[i - 1], actions[i - 1], e);
    }
  }

  lemma HeldStep(s: State, a: Action, e: RawEvent)
    requires Can(s, a)
    ensures Step(s, a).pushed[e] + (if IsHeld(Step(s, a), e) then 1 else 0)
      == s.pushed[e] + (if IsHeld(s, e) then 1 else 0) + if a == Push(e) then 1 else 0
  {
  }

  /** The timers that went off, and the callbacks that ran, among the first `i` actions. */
  function Fired(actions: seq<Action>, i: nat): nat
    requires i <= |actions|
  {
    if i == 0 then 0 else Fired(actions, i - 1) + if actions[i - 1].TimerFires? then 1 else 0
  }

  function Ran(actions: seq<Action>, i: nat): nat
    requires i <= |actions|
  {
    if i == 0 then 0 else Ran(actions, i - 1) + if actions[i - 1].Callback? then 1 else 0
  }

  /** Each timer that goes off brings one callback. */
  lemma {:induction false} OneCallbackPerFiring(states: seq<State>, actions: seq<Action>, i: nat)
    requires Runs(states, actions) && i < |states|
    ensures |states[i].table.waiting| + Ran(actions, i) == Fired(actions, i)
  {
    if i > 0 {
      OneCallbackPerFiring(states, actions, i - 1);
      assert Can(states[i - 1], actions[i - 1]);
    }
  }

  /** A push that does not find the table full leaves its event pending with the timer
      running, set anew if it was running or had gone off. */
  lemma PushArms(s: State, e: RawEvent)
    requires Can(s, Push(e)) && |s.table.pending| < MAX_PENDING
    ensures var t := Step(s, Push(e)).table;
      && e.key in t.pending && t.pending[e.key].event == e
      && t.pending[e.key].timer in t.armed && t.armed[t.pending[e.key].timer] == e.key
      && (e.key in s.table.pending ==> t.pending[e.key].timer == s.table.pending[e.key].timer)
      && (e.key !in s.table.pending ==> t.pending[e.key].timer == s.table.nextTimer)
  {
  }
}
