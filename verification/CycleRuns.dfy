/** The uninterrupted cycle that `Reconcilers.Reconciler.Run` performs is one run of the
    two-node state machine, so what holds of every run holds of it
    (internal/reconciler/reconciler.go:61-199). */
module CycleRuns {
  import opened Changelog
  import opened Cycle
  import opened Pointwise
  import opened Draining
  import opened Protocol

  /** One cycle of side `x`: its snapshots and key order, and what gets through. */
  datatype Attempt = Attempt(x: Side, round: Round, env: Key -> Env, markOk: bool, ackOk: bool)

  function Put(s: System, x: Side, me: Daemon, peer: Daemon): System {
    if x.Left? then s.(left := me, right := peer) else s.(left := peer, right := me)
  }

  function MyNode(s: System, a: Attempt): Node { Get(s, a.x).node }
  function PeerNode(s: System, a: Attempt): Node { Get(s, Other(a.x)).node }

  ghost predicate Ready(s: System, a: Attempt) {
    Get(s, a.x).phase.Idle? && Faithful(MyNode(s, a), PeerNode(s, a), a.round)
  }

  /** The pass after the first `n` keys. */
  function PassAt(s: System, a: Attempt, n: nat): Pass
    requires n <= |a.round.order|
  {
    Loop(ViewOf(s.conf, MyNode(s, a), PeerNode(s, a), a.round), Get(s, a.x).blocked, a.round.order[..n], a.env)
  }

  function Fetching(s: System, a: Attempt): System {
    Put(s, a.x, Get(s, a.x).(phase := Fetched(a.round.remote)), Get(s, Other(a.x)))
  }

  function Working(s: System, a: Attempt, n: nat): System
    requires n <= |a.round.order|
  {
    var c, p := a.round, PassAt(s, a, n);
    var todo := c.local.Keys + c.remote.Keys - KeysOf(c.order[..n]);
    Put(s, a.x, Daemon(p.me, p.blocked, Looping(c.remote, c.local, todo, p.marks, p.acks)),
        Get(s, Other(a.x)).(node := p.peer))
  }

  function Marking(s: System, a: Attempt): System {
    var p := PassAt(s, a, |a.round.order|);
    var rows := if a.markOk then MarkSynced(p.me.rows, p.marks) else p.me.rows;
    Put(s, a.x, Daemon(p.me.(rows := rows), p.blocked, Marked(a.round.remote, p.acks)),
        Get(s, Other(a.x)).(node := p.peer))
  }

  function Ending(s: System, a: Attempt): System {
    var p := PassAt(s, a, |a.round.order|);
    var rows := if a.ackOk then MarkPeerAck(p.peer.rows, p.acks) else p.peer.rows;
    Put(s, a.x, Get(Marking(s, a), a.x).(phase := Idle), Get(s, Other(a.x)).(node := p.peer.(rows := rows)))
  }

  /** The states and moves of the cycle. */
  function StateAt(s: System, a: Attempt, i: nat): System {
    var n := |a.round.order|;
    if i == 0 then s
    else if i == 1 then Fetching(s, a)
    else if i <= n + 2 then Working(s, a, i - 2)
    else if i == n + 3 then Marking(s, a)
    else Ending(s, a)
  }

  function MoveAt(a: Attempt, i: nat): Move {
    var n := |a.round.order|;
    Move(a.x,
      if i == 0 then Fetch(a.round.remote)
      else if i == 1 then Read(a.round.local)
      else if i < n + 2 then Handle(a.round.order[i - 2], a.env(a.round.order[i - 2]))
      else if i == n + 2 then Mark(a.markOk)
      else Ack(a.ackOk))
  }

  lemma FetchFollows(s: System, a: Attempt)
    requires Ready(s, a)
    ensures Follows(s, Move(a.x, Fetch(a.round.remote)), Fetching(s, a))
  {
  }

  lemma ReadFollows(s: System, a: Attempt)
    requires Ready(s, a)
    ensures Follows(Fetching(s, a), Move(a.x, Read(a.round.local)), Working(s, a, 0))
  {
    var c := a.round;
    assert c.order[..0] == [] && KeysOf([]) == {};
    assert c.local.Keys + c.remote.Keys - {} == c.local.Keys + c.remote.Keys;
  }

  lemma TodoShrinks(c: Round, n: nat)
    requires Distinct(c.order) && KeysOf(c.order) == c.local.Keys + c.remote.Keys && n < |c.order|
    ensures var todo := c.local.Keys + c.remote.Keys - KeysOf(c.order[..n]);
      && c.order[n] in todo
      && c.local.Keys + c.remote.Keys - KeysOf(c.order[..n + 1]) == todo - {c.order[n]}
  {
    assert c.order[..n + 1] == c.order[..n] + [c.order[n]];
    assert c.order[n] in KeysOf(c.order);
  }

  lemma HandleFollows(s: System, a: Attempt, n: nat)
    requires Ready(s, a) && n < |a.round.order|
    ensures var k := a.round.order[n]; Follows(Working(s, a, n), Move(a.x, Handle(k, a.env(k))), Working(s, a, n + 1))
  {
    TodoShrinks(a.round, n);
    assert a.round.order[..n + 1][..n] == a.round.order[..n];
  }

  lemma MarkFollows(s: System, a: Attempt)
    requires Ready(s, a)
    ensures Follows(Working(s, a, |a.round.order|), Move(a.x, Mark(a.markOk)), Marking(s, a))
  {
    assert a.round.order[..|a.round.order|] == a.round.order;
  }

  lemma AckFollows(s: System, a: Attempt)
    requires Ready(s, a)
    ensures Follows(Marking(s, a), Move(a.x, Ack(a.ackOk)), Ending(s, a))
  {
  }

  function CycleStates(s: System, a: Attempt): seq<System> {
    seq(|a.round.order| + 5, i requires 0 <= i => StateAt(s, a, i))
  }

  function CycleMoves(a: Attempt): seq<Move> { seq(|a.round.order| + 4, i requires 0 <= i => MoveAt(a, i)) }

  /** The cycle, from its first call to its last, is a run, and it ends in exactly the
      state that the cycle computes as a whole. */
  lemma CycleIsRun(s: System, a: Attempt)
    requires Ready(s, a)
    ensures IsRun(CycleStates(s, a), CycleMoves(a)) && CycleStates(s, a)[0] == s
    ensures var p := Loop(ViewOf(s.conf, MyNode(s, a), PeerNode(s, a), a.round), Get(s, a.x).blocked, a.round.order,
        a.env);
      var last := CycleStates(s, a)[|CycleMoves(a)|];
      && last.conf == s.conf
      && Get(last, a.x) == Daemon(p.me.(rows := if a.markOk then MarkSynced(p.me.rows, p.marks)
          else p.me.rows), p.blocked, Idle)
      && Get(last, Other(a.x)) ==
           Get(s, Other(a.x)).(node := p.peer.(rows := if a.ackOk then MarkPeerAck(p.peer.rows, p.acks)
               else p.peer.rows))
  {
    var n := |a.round.order|;
    forall i | 0 <= i < n + 4 ensures Follows(CycleStates(s, a)[i], CycleMoves(a)[i], CycleStates(s, a)[i + 1]) {
      StepFollows(s, a, i);
    }
    assert a.round.order[..n] == a.round.order;
  }

  /** The round that the results about repeated cycles play is this cycle, with nothing blocked
      and both lists getting through. */
  lemma RoundIsCycle(s: System, a: Attempt)
    requires Ready(s, a) && Get(s, a.x).blocked == {} && a.markOk && a.ackOk
    ensures var last := CycleStates(s, a)[|CycleMoves(a)|];
      (Get(last, a.x).node, Get(last, Other(a.x)).node)
      == PlayRound(s.conf, MyNode(s, a), PeerNode(s, a), a.round, a.env)
  {
    CycleIsRun(s, a);
  }

  lemma StepFollows(s: System, a: Attempt, i: nat)
    requires Ready(s, a) && i < |a.round.order| + 4
    ensures Follows(StateAt(s, a, i), MoveAt(a, i), StateAt(s, a, i + 1))
  {
    var n := |a.round.order|;
    if i == 0 {
      FetchFollows(s, a);
    } else if i == 1 {
      ReadFollows(s, a);
    } else if i < n + 2 {
      HandleFollows(s, a, i - 2);
    } else if i == n + 2 {
      MarkFollows(s, a);
    } else {
      AckFollows(s, a);
    }
  }
}
