/** Uninterrupted cycles on one key in which every call gets through, alone and one after the
    other (internal/reconciler/reconciler.go:61-199). The example runs are built from them. */
module SingleCycles {
  import opened Changelog
  import opened Cycle
  import opened Draining
  import opened Protocol
  import opened CycleRuns
  import OneCycle
  import BothCycles

  /** A cycle on one key in which every call gets through. */
  function Single(x: Side, k: Key, local: map<Key, Entry>, remote: map<Key, Entry>): Attempt {
    Attempt(x, Round(local, remote, [k]), (_: Key) => ALL_GOOD, true, true)
  }

  function TurnOn(s: System, a: Attempt, k: Key): Pass {
    var start := Pass(MyNode(s, a), PeerNode(s, a), Get(s, a.x).blocked, {}, {});
    Process(s.conf, start, k, At(a.round.local, k), At(a.round.remote, k), ALL_GOOD)
  }

  /** It is one turn, and then its marks and acknowledgements. */
  lemma SingleCycle(s: System, x: Side, k: Key, local: map<Key, Entry>, remote: map<Key, Entry>)
    requires Get(s, x).phase.Idle? && local.Keys + remote.Keys == {k}
    requires NewestUnsynced(local, Get(s, x).node.rows) && NewestUnsynced(remote, Get(s, Other(x)).node.rows)
    ensures var a := Single(x, k, local, remote);
      var q := TurnOn(s, a, k);
      && IsRun(CycleStates(s, a), CycleMoves(a)) && CycleStates(s, a)[0] == s
      && CycleMoves(a) == [Move(x, Fetch(remote)), Move(x, Read(local)), Move(x, Handle(k, ALL_GOOD)),
                           Move(x, Mark(true)), Move(x, Ack(true))]
      && CycleStates(s, a)[5].conf == s.conf
      && Get(CycleStates(s, a)[5], x) == Daemon(q.me.(rows := MarkSynced(q.me.rows, q.marks)), q.blocked, Idle)
      && Get(CycleStates(s, a)[5], Other(x)) ==
           Get(s, Other(x)).(node := q.peer.(rows := MarkPeerAck(q.peer.rows, q.acks)))
  {
    var a := Single(x, k, local, remote);
    assert KeysOf([k]) == {k};
    CycleIsRun(s, a);
    assert [k][..0] == [];
  }

  /** The cycle of one side and then that of the other are one clean cycle of each. */
  lemma TwoCycles(s: System, a: Attempt, s': System, b: Attempt, k: Key)
    requires IsRun(CycleStates(s, a), CycleMoves(a)) && IsRun(CycleStates(s', b), CycleMoves(b))
    requires a.round.order == [k] && b.round.order == [k] && b.x == Other(a.x) && CycleStates(s, a)[5] == s'
    requires a == Single(a.x, k, a.round.local, a.round.remote) && b == Single(b.x, k, b.round.local, b.round.remote)
    requires CycleStates(s', b)[5].left.phase.Idle? && CycleStates(s', b)[5].right.phase.Idle?
    ensures var states, moves := CycleStates(s, a)[..5] + CycleStates(s', b), CycleMoves(a) + CycleMoves(b);
      BothCycles.CleanRun(states, moves, k, BothCycles.UNREAD) && BothCycles.Finished(states, moves)
  {
    var states, moves := CycleStates(s, a)[..5] + CycleStates(s', b), CycleMoves(a) + CycleMoves(b);
    RunsJoin(CycleStates(s, a), CycleMoves(a), CycleStates(s', b), CycleMoves(b));
    forall i | 0 <= i < 10
      ensures OneCycle.CleanFor(moves[i].action, k) && !moves[i].action.Prune?
      ensures moves[i].action.Fetch? ==> !BothCycles.HasFetched(moves, i, moves[i].side)
    {
      CleanMoves(a, b, k, i);
    }
    BothCycles.OneFetchSuffices(moves, k);
    assert moves[0].side == a.x && moves[0].action.Fetch?;
    assert moves[5].side == b.x && moves[5].action.Fetch?;
    assert BothCycles.HasFetched(moves, 10, a.x) && BothCycles.HasFetched(moves, 10, b.x);
  }

  lemma CleanMoves(a: Attempt, b: Attempt, k: Key, i: nat)
    requires a.round.order == [k] && b.round.order == [k] && b.x == Other(a.x) && i < 10
    requires a == Single(a.x, k, a.round.local, a.round.remote) && b == Single(b.x, k, b.round.local, b.round.remote)
    ensures var moves := CycleMoves(a) + CycleMoves(b);
      && OneCycle.CleanFor(moves[i].action, k) && !moves[i].action.Prune?
      && (moves[i].action.Fetch? ==> !BothCycles.HasFetched(moves, i, moves[i].side))
  {
  }

  /** A cycle step in which everything gets through. */
  predicate Flawless(a: Action) {
    match a
    case Fetch(_) => true
    case Read(_) => true
    case Handle(_, env) => env.callOk && env.replyOk && env.moveOk
    case Mark(ok) => ok
    case Ack(ok) => ok
    case _ => false
  }

  ghost predicate FlawlessRun(states: seq<System>, moves: seq<Move>) {
    IsRun(states, moves) && forall i | 0 <= i < |moves| :: Flawless(moves[i].action)
  }

  /** Some run leads from `s` to `t` in which both nodes only cycle and nothing fails. */
  ghost predicate Reaches(s: System, t: System) {
    exists states: seq<System>, moves: seq<Move> ::
      FlawlessRun(states, moves) && states[0] == s && states[|moves|] == t
  }

  lemma ReachesOn(s: System, t: System, u: System)
    requires Reaches(s, t) && Reaches(t, u)
    ensures Reaches(s, u)
  {
    var ss, ms :| FlawlessRun(ss, ms) && ss[0] == s && ss[|ms|] == t;
    var ts, ns :| FlawlessRun(ts, ns) && ts[0] == t && ts[|ns|] == u;
    RunsJoin(ss, ms, ts, ns);
    var states, moves := ss[..|ms|] + ts, ms + ns;
    assert FlawlessRun(states, moves) && states[0] == s && states[|moves|] == u;
  }

  lemma {:induction false} ReachesLast(ss: seq<System>)
    requires |ss| >= 2 && forall i | 0 <= i < |ss| - 1 :: Reaches(ss[i], ss[i + 1])
    ensures Reaches(ss[0], ss[|ss| - 1])
  {
    if |ss| > 2 {
      var n := |ss| - 1;
      ReachesLast(ss[..n]);
      ReachesOn(ss[0], ss[n - 1], ss[n]);
    }
  }

  lemma ReachesStep(s: System, m: Move, t: System)
    requires Follows(s, m, t) && Flawless(m.action)
    ensures Reaches(s, t)
  {
    assert FlawlessRun([s, t], [m]);
  }

  lemma ReachesCycle(s: System, x: Side, k: Key, local: map<Key, Entry>, remote: map<Key, Entry>)
    requires Get(s, x).phase.Idle? && local.Keys + remote.Keys == {k}
    requires NewestUnsynced(local, Get(s, x).node.rows) && NewestUnsynced(remote, Get(s, Other(x)).node.rows)
    ensures Reaches(s, CycleStates(s, Single(x, k, local, remote))[5])
  {
    SingleCycle(s, x, k, local, remote);
    var a := Single(x, k, local, remote);
    assert FlawlessRun(CycleStates(s, a), CycleMoves(a));
  }
}
