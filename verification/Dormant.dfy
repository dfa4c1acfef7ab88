/** A path with no pending entry on either node is out of every cycle: however its files
    differ, they stay as they are until the path is logged or edited again
    (internal/reconciler/reconciler.go:61-199). */
module Dormant {
  import opened Changelog
  import opened Cycle
  import opened KeepBothPolicy
  import opened Protocol
  import opened Blocking

  /** Nothing of `k` is pending, nor in the snapshots of a running cycle. */
  ghost predicate Unaware(d: Daemon, k: Key) {
    && UnsyncedIds(d.node.rows, k) == {}
    && match d.phase
       case Idle => true
       case Fetched(remote) => k !in remote
       case Looping(_, _, todo, _, _) => k !in todo
       case Marked(_, _) => true
  }

  ghost predicate IsDormant(s: System, k: Key) {
    ValidSystem(s) && Apart(s.conf, k) && Unaware(s.left, k) && Unaware(s.right, k)
  }

  lemma NoneAppears(rows: Rows, rows': Rows, k: Key)
    requires UnsyncedIds(rows, k) == {}
    requires forall id | IsUnsynced(rows', id) && rows'[id].entry.key == k ::
               IsUnsynced(rows, id) && rows[id].entry == rows'[id].entry
    ensures UnsyncedIds(rows', k) == {}
  {
    forall id ensures id !in UnsyncedIds(rows', k) {
      assert id !in UnsyncedIds(rows, k);
    }
  }

  lemma DormantStep(conf: Settings, me: Daemon, peer: Daemon, a: Action, k: Key)
    requires Valid(me, peer) && Can(me, peer, a) && SparesKey(a, k) && Apart(conf, k)
    requires Unaware(me, k) && Unaware(peer, k)
    ensures var (me', peer') := Step(conf, me, peer, a);
      && Unaware(me', k) && Unaware(peer', k)
      && FileAt(me'.node.tree, k) == FileAt(me.node.tree, k) && FileAt(peer'.node.tree, k) == FileAt(peer.node.tree, k)
  {
    var (me', peer') := Step(conf, me, peer, a);
    match a {
      case Fetch(remote) => ClearIsAbsent(remote, peer.node.rows, k);
      case Read(local) => ClearIsAbsent(local, me.node.rows, k);
      case Handle(j, env) =>
        TurnApart(conf, PassOf(me, peer), j, At(me.phase.local, j), At(me.phase.remote, j), env, k);
      case Mark(_) => NoneAppears(me.node.rows, me'.node.rows, k);
      case Ack(_) => NoneAppears(peer.node.rows, peer'.node.rows, k);
      case Log(_, _, _, _) => NoneAppears(me.node.rows, me'.node.rows, k);
      case Prune(_, _) => NoneAppears(me.node.rows, me'.node.rows, k);
      case _ =>
    }
  }

  lemma DormantMove(s: System, m: Move, s': System, k: Key)
    requires IsDormant(s, k) && Follows(s, m, s') && SparesKey(m.action, k)
    ensures IsDormant(s', k)
    ensures forall x: Side :: FileAt(Get(s', x).node.tree, k) == FileAt(Get(s, x).node.tree, k)
  {
    var me, peer := Get(s, m.side), Get(s, Other(m.side));
    StepKeepsValid(s.conf, me, peer, m.action);
    DormantStep(s.conf, me, peer, m.action, k);
  }

  /** In every run in which the path itself is neither edited nor logged, whatever else is
      edited, logged, pruned or fails, its file on each node stays what it was. */
  lemma {:induction false} DormantStays(states: seq<System>, moves: seq<Move>, i: nat, k: Key, x: Side)
    requires IsRun(states, moves) && IsDormant(states[0], k) && i < |states|
    requires forall n | 0 <= n < |moves| :: SparesKey(moves[n].action, k)
    ensures IsDormant(states[i], k) && FileAt(Get(states[i], x).node.tree, k) == FileAt(Get(states[0], x).node.tree, k)
  {
    if i > 0 {
      DormantStays(states, moves, i - 1, k, x);
      assert Follows(states[i - 1], moves[i - 1], states[i]);
      DormantMove(states[i - 1], moves[i - 1], states[i], k);
    }
  }
}
