/** The debouncer object, and the shutdown path that flushes it
    (internal/watcher/debounce.go:53-110, internal/watcher/watcher.go:91-104). A method that
    would block on the full channel, mutex in hand, returns `done == false` instead. */
module Debouncers {
  import opened Changelog
  import opened Debounce

  /** The pending events of the given keys, in that order. */
  function EventsOf(pending: map<Key, PendingEntry>, order: seq<Key>): (es: seq<RawEvent>)
    requires forall k | k in order :: k in pending
    ensures |es| == |order| && forall i | 0 <= i < |order| :: es[i] == pending[order[i]].event
  {
    if order == [] then [] else EventsOf(pending, order[..|order| - 1]) + [pending[order[|order| - 1]].event]
  }

  function TimersOf(pending: map<Key, PendingEntry>, ks: set<Key>): set<nat>
    requires ks <= pending.Keys
  {
    set k | k in ks :: pending[k].timer
  }

  /** The table after a flush has emitted the keys of `order`, in that order. */
  function FlushedTo(was: Table, order: seq<Key>): Table
    requires KeysOf(order) <= was.pending.Keys
  {
    was.(pending := was.pending - KeysOf(order),
         armed := was.armed - TimersOf(was.pending, KeysOf(order)),
         out := was.out + EventsOf(was.pending, order))
  }

  /** A flush has emitted the keys of `order` and is blocked on the full channel, with the
      timer of one more pending key stopped. */
  predicate IsBlocked(was: Table, order: seq<Key>, stopped: Key, now: Table) {
    && KeysOf(order) <= was.pending.Keys && stopped in FlushedTo(was, order).pending
    && now == StopTimer(FlushedTo(was, order), stopped) && |now.out| == CAPACITY
  }

  class Debouncer {
    var pending: map<Key, PendingEntry>
    var armed: map<nat, Key>
    var nextTimer: nat
    var waiting: multiset<Key>
    var inFlight: multiset<RawEvent>
    var out: seq<RawEvent>

    function State(): Table
      reads this
    {
      Table(pending, armed, nextTimer, waiting, inFlight, out)
    }

    ghost predicate Valid()
      reads this
    {
      |out| <= CAPACITY && |pending| <= MAX_PENDING
    }

    constructor ()
      ensures Valid() && State() == INITIAL.table
    {
      pending, armed, nextTimer, waiting, inFlight, out := map[], map[], 0, multiset{}, multiset{}, [];
    }

    /** Sends every pending event. If the channel fills up first, it blocks at the send of
        one more, `stopped`, whose timer it has stopped already. */
    method FlushLocked() returns (done: bool, ghost order: seq<Key>, ghost stopped: Key)
      requires Valid()
      modifies this
      ensures Valid() && Distinct(order) && KeysOf(order) <= old(pending).Keys
      ensures done <==> old(|pending|) + old(|out|) <= CAPACITY
      ensures done ==> State() == FlushedTo(old(State()), order)
      ensures done ==> pending == map[] && KeysOf(order) == old(pending).Keys
      ensures !done ==> IsBlocked(old(State()), order, stopped, State())
    {
      done, order, stopped := true, [], Key("", "");
      ghost var was := State();
      EmittedNothing(was);
      while pending != map[]
        invariant Valid() && Distinct(order) && KeysOf(order) <= was.pending.Keys
        invariant State() == FlushedTo(was, order)
        invariant |pending| + |out| == |was.pending| + |was.out|
        decreases |pending|
      {
        var k :| k in pending;
        EmittedMore(was, order, k);
        done := EmitNext(k);
        if !done {
          stopped := k;
          return;
        }
        order := order + [k];
      }
      EmittedAll(was, order);
    }

    /** One turn of the flush loop: the timer is stopped whether or not the channel has room. */
    method EmitNext(k: Key) returns (sent: bool)
      requires Valid() && k in pending
      modifies this
      ensures Valid() && (sent <==> old(|out|) < CAPACITY)
      ensures !sent ==> State() == StopTimer(old(State()), k) && |pending| == old(|pending|) > 0
      ensures sent ==> State() == EmitStopped(StopTimer(old(State()), k), k)
      ensures sent ==> |pending| == old(|pending|) - 1 && |out| == old(|out|) + 1
    {
      RemoveSize(pending, k);
      armed := armed - {pending[k].timer};
      sent := |out| < CAPACITY;
      if sent {
        out, pending := out + [pending[k].event], pending - {k};
      }
    }

    /** Push: a full table is flushed first, which this table, larger than the channel,
        cannot finish until the consumer makes room. */
    method Push(e: RawEvent) returns (done: bool, ghost order: seq<Key>, ghost stopped: Key)
      requires Valid()
      modifies this
      ensures Valid()
      ensures done <==> old(|pending|) < MAX_PENDING
      ensures done ==> State() == Insert(old(State()), e)
      ensures !done ==> Distinct(order) && IsBlocked(old(State()), order, stopped, State())
    {
      done, order, stopped := true, [], e.key;
      if |pending| >= MAX_PENDING {
        done, order, stopped := FlushLocked();
        if !done {
          return;
        }
      }
      InsertSize(State(), e);
      if e.key in pending {
        var timer := pending[e.key].timer;
        pending, armed := pending[e.key := PendingEntry(e, timer)], armed[timer := e.key];
      } else {
        pending, armed := pending[e.key := PendingEntry(e, nextTimer)], armed[nextTimer := e.key];
        nextTimer := nextTimer + 1;
      }
    }

    /** The locked half of a timer's callback: it takes what is pending under its key. */
    method TimerCallback(k: Key)
      requires Valid() && k in waiting
      modifies this
      ensures Valid() && State() == Extract(old(State()), k)
    {
      RemoveSize(pending, k);
      waiting := waiting - multiset{k};
      if k in pending {
        inFlight := inFlight + multiset{pending[k].event};
        pending := pending - {k};
      }
    }

    /** Shutdown: flush, then write what is in the channel to the changelog. */
    method FlushAll() returns (done: bool, written: seq<RawEvent>, ghost order: seq<Key>)
      requires Valid()
      modifies this
      ensures Valid()
      ensures done <==> old(|pending|) + old(|out|) <= CAPACITY
      ensures done ==>
        && pending == map[] && out == [] && inFlight == old(inFlight)
        && Distinct(order) && KeysOf(order) == old(pending).Keys
        && written == old(out) + EventsOf(old(pending), order)
    {
      written := [];
      ghost var stopped: Key;
      done, order, stopped := FlushLocked();
      if done {
        written := Drain();
      }
    }

    /** Receives until the channel is empty. */
    method Drain() returns (written: seq<RawEvent>)
      requires |out| <= CAPACITY
      modifies this`out
      ensures out == [] && written == old(out)
    {
      written := [];
      while out != []
        invariant written + out == old(out)
        decreases |out|
      {
        written := written + [out[0]];
        out := out[1..];
      }
    }
  }

  lemma EmittedNothing(was: Table)
    ensures Distinct([]) && KeysOf([]) == {} && FlushedTo(was, []) == was
  {
    assert was.pending - {} == was.pending;
    assert TimersOf(was.pending, {}) == {} && was.armed - {} == was.armed;
  }

  lemma OrderExtends(was: Table, order: seq<Key>, k: Key)
    requires Distinct(order) && KeysOf(order) <= was.pending.Keys && k in was.pending && k !in KeysOf(order)
    ensures var more := order + [k];
      && Distinct(more) && KeysOf(more) == KeysOf(order) + {k} && KeysOf(more) <= was.pending.Keys
      && EventsOf(was.pending, more) == EventsOf(was.pending, order) + [was.pending[k].event]
  {
    assert (order + [k])[..|order|] == order;
  }

  lemma TimersExtend(was: Table, ks: set<Key>, k: Key)
    requires ks <= was.pending.Keys && k in was.pending
    ensures was.armed - TimersOf(was.pending, ks + {k}) == was.armed - TimersOf(was.pending,
        ks) - {was.pending[k].timer}
    ensures was.pending - (ks + {k}) == was.pending - ks - {k}
  {
    assert TimersOf(was.pending, ks + {k}) == TimersOf(was.pending, ks) + {was.pending[k].timer};
  }

  lemma EmittedMore(was: Table, order: seq<Key>, k: Key)
    requires Distinct(order) && KeysOf(order) <= was.pending.Keys && k in FlushedTo(was, order).pending
    ensures var more := order + [k];
      && Distinct(more) && KeysOf(more) <= was.pending.Keys
      && FlushedTo(was, more) == EmitStopped(StopTimer(FlushedTo(was, order), k), k)
  {
    OrderExtends(was, order, k);
    TimersExtend(was, KeysOf(order), k);
    assert was.out + (EventsOf(was.pending, order) + [was.pending[k].event])
        == was.out + EventsOf(was.pending, order) + [was.pending[k].event];
  }

  lemma EmittedAll(was: Table, order: seq<Key>)
    requires KeysOf(order) <= was.pending.Keys && FlushedTo(was, order).pending == map[]
    ensures KeysOf(order) == was.pending.Keys
  {
    assert (was.pending - KeysOf(order)).Keys == was.pending.Keys - KeysOf(order);
  }

  /** Each pending event is written exactly once, after the buffered ones: as often as it
      was buffered, plus one for the key that had it pending. */
  lemma WrittenOnce(was: Table, order: seq<Key>, x: RawEvent)
    requires Distinct(order) && KeysOf(order) == was.pending.Keys
    requires forall k | k in was.pending :: was.pending[k].event.key == k
    ensures multiset(was.out + EventsOf(was.pending, order))[x] == multiset(was.out)[x] + PendingCount(was, x)
  {
    EventCount(was, order, x);
  }

  lemma {:induction false} EventCount(was: Table, order: seq<Key>, x: RawEvent)
    requires Distinct(order) && KeysOf(order) <= was.pending.Keys
    requires forall k | k in was.pending :: was.pending[k].event.key == k
    ensures multiset(EventsOf(was.pending, order))[x] ==
      if x.key in KeysOf(order) && was.pending[x.key].event == x then 1 else 0
  {
    if order != [] {
      var n := |order| - 1;
      assert order == order[..n] + [order[n]];
      EventCount(was, order[..n], x);
    }
  }

  /** After a completed FlushAll with no callback in flight nothing is left behind: every
      push of the whole history was received, has just been written, or was superseded. */
  lemma FlushAllAccountsForAll(s: State, order: seq<Key>, x: RawEvent)
    requires Inv(s) && s.table.inFlight == multiset{}
    requires Distinct(order) && KeysOf(order) == s.table.pending.Keys
    ensures var written := s.table.out + EventsOf(s.table.pending, order);
      s.pushed[x] == multiset(s.taken)[x] + multiset(written)[x] + s.superseded[x]
  {
    assert forall k | k in s.table.pending :: TendedAt(s, k);
    WrittenOnce(s.table, order, x);
    assert s.pushed[x] == Whereabouts(s, x);
  }
}
