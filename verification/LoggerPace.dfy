/** How fast the entries go that one node alone has logged, while both nodes run cycles
    (internal/reconciler/reconciler.go:178-182). */
module LoggerPace {
  import opened Changelog
  import opened Cycle
  import opened Protocol
  import opened Blocking
  import opened OneCycle
  import opened OneLogger
  import opened OldestLast
  import Convergence

  /** The turns for the path and the marking steps succeed. */
  predicate Prompt(a: Action, k: Key) {
    (IsTurn(a, k) ==> a.env.callOk && a.env.replyOk) && (a.Mark? ==> a.ok)
  }

  /** A node past its turn for the path is to mark the entry. */
  predicate OnPace(d: Daemon, k: Key) {
    d.phase.Looping? && k in d.phase.local && k !in d.phase.todo ==> d.phase.local[k].id in d.phase.marks
  }

  /** Down to nothing, and no further. */
  function Less(n: nat, steps: nat): nat { if steps < n then n - steps else 0 }

  predicate IsMarkOf(m: Move, x: Side) { m.side == x && m.action.Mark? }

  lemma PaceStep(conf: Settings, k: Key, x: Daemon, y: Daemon, a: Action)
    requires OneSided(conf, k, x, y) && Can(x, y, a) && SparesKey(a, k) && LeavesPending(x.node, a, k)
    requires Prompt(a, k) && OnPace(x, k)
    ensures OnPace(Step(conf, x, y, a).0, k)
    ensures |Pending(Step(conf, x, y, a).0, k)| == Less(|Pending(x, k)|, if a.Mark? then 1 else 0)
  {
    PendingKept(conf, k, x, y, a);
    if a.Handle? {
      if a.key == k { LoggersTurn(conf, k, x, y, a.env); } else { LoggersOtherTurn(conf, k, x, y, a.key, a.env); }
    } else if a.Mark? {
      MarkTakesOwn(x, y, k);
    }
  }

  lemma PaceMove(s: System, m: Move, s': System, k: Key, x: Side)
    requires LoneAt(s, k, x) && Follows(s, m, s') && LoneStep(s, m, k) && OnPace(Get(s, x), k)
    requires m.side == x ==> Prompt(m.action, k)
    ensures LoneAt(s', k, x) && OnPace(Get(s', x), k)
    ensures |Pending(Get(s', x), k)| == Less(|Pending(Get(s, x), k)|, if IsMarkOf(m, x) then 1 else 0)
  {
    LoneMove(s, m, s', k, x, AnyEntry(k));
    var me, peer := Get(s, m.side), Get(s, Other(m.side));
    if m.side == x {
      PaceStep(s.conf, k, me, peer, m.action);
    } else {
      StepKeepsLogs(s.conf, me, peer, m.action);
      PendingKept(s.conf, k, me, peer, m.action);
    }
  }

  /** If the logger's own calls for the path succeed, each of its marking steps takes one
      entry, whatever the other node does. */
  lemma {:induction false} OnePerMark(states: seq<System>, moves: seq<Move>, i: nat, k: Key, x: Side)
    requires LoneRun(states, moves, k, x) && i <= |moves| && Get(states[0], x).phase.Idle?
    requires forall n | 0 <= n < |moves| && moves[n].side == x :: Prompt(moves[n].action, k)
    ensures LoneAt(states[i], k, x) && OnPace(Get(states[i], x), k)
    ensures |Pending(Get(states[i], x), k)|
            == Less(|Pending(Get(states[0], x), k)|, Convergence.MarksBy(moves, 0, i, x))
  {
    if i > 0 {
      OnePerMark(states, moves, i - 1, k, x);
      assert Follows(states[i - 1], moves[i - 1], states[i]) && LoneStep(states[i - 1], moves[i - 1], k);
      PaceMove(states[i - 1], moves[i - 1], states[i], k, x);
    }
  }
}
