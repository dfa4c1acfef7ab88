/** The manual policy: a blocked key stays out of its node's cycles
    (internal/reconciler/reconciler.go:98-107, internal/reconciler/reconciler.go:153-161). */
module Blocking {
  import opened Changelog
  import opened Cycle
  import opened KeepBothPolicy
  import opened Protocol

  /** What lifts a block: the cycle's own newest entry is a delete and the peer's newest is
      absent or a delete; or the daemon restarts, for it keeps its blocks in memory. */
  ghost predicate LiftsBlock(s: System, m: Move, x: Side, k: Key) {
    && m.side == x
    && (m.action.Restart?
        || (m.action.Handle? && m.action.key == k && Get(s, x).phase.Looping?
            && SeesOwnDelete(Get(s, x).phase.local, Get(s, x).phase.remote, k)))
  }

  /** The own snapshot has a delete of `k`, and the peer's has nothing of `k` or a delete. */
  predicate SeesOwnDelete(local: map<Key, Entry>, remote: map<Key, Entry>, k: Key) {
    k in local && local[k].kind.Delete? && (k in remote ==> remote[k].kind.Delete?)
  }

  /** The file `k` and every row of `k` are the same before and after. */
  ghost predicate LeavesNode(n: Node, n': Node, k: Key) {
    FileAt(n'.tree, k) == FileAt(n.tree, k) && SameRowsOf(n.rows, n'.rows, k)
  }

  /** The step leaves everything about `k` as it was: files and flags on both nodes. */
  ghost predicate LeavesKey(s: System, s': System, k: Key) {
    LeavesNode(s.left.node, s'.left.node, k) && LeavesNode(s.right.node, s'.right.node, k)
  }

  ghost predicate SameRowsOf(rows: Rows, rows': Rows, k: Key) {
    forall id :: (id in rows && rows[id].entry.key == k) || (id in rows' && rows'[id].entry.key == k) ==>
      id in rows && id in rows' && rows'[id] == rows[id]
  }

  lemma FlagsMissKey(ids: set<nat>, m: map<Key, Entry>, todo: set<Key>, blocked: set<Key>, rows: Rows, owner: Node,
                     k: Key)
    requires Gathered(ids, m, todo, blocked) && Snapshot(m, owner) && rows == owner.rows && k in blocked
    ensures SameRowsOf(rows, MarkSynced(rows, ids), k)
    ensures SameRowsOf(rows, MarkPeerAck(rows, ids), k)
  {
    forall id | id in ids && id in rows ensures rows[id].entry.key != k {
      var j :| j in m && j !in todo && j !in blocked && m[j].id == id;
    }
  }

  /** The blocking node's cycle, at any step, neither marks, acknowledges, pushes, deletes
      nor pulls a blocked key; only a lifting event ends the block. */
  lemma BlockedStep(s: System, m: Move, k: Key)
    requires ValidSystem(s) && Enabled(s, m) && Apart(s.conf, k) && k in Get(s, m.side).blocked
    ensures CycleAction(m.action) ==> LeavesKey(s, Apply(s, m), k)
    ensures k in Get(Apply(s, m), m.side).blocked <==> !LiftsBlock(s, m, m.side, k)
  {
    var me, peer := Get(s, m.side), Get(s, Other(m.side));
    match m.action {
      case Handle(j, env) =>
        TurnApart(s.conf, PassOf(me, peer), j, At(me.phase.local, j), At(me.phase.remote, j), env, k);
      case Mark(ok) => FlagsMissKey(me.phase.marks, me.phase.local, {}, me.blocked, me.node.rows, me.node, k);
      case Ack(ok) => FlagsMissKey(me.phase.acks, me.phase.remote, {}, me.blocked, peer.node.rows, peer.node, k);
      case _ =>
    }
  }

  /** Until the lifting event happens the key stays blocked. */
  lemma StaysBlocked(s: System, m: Move, s': System, x: Side, k: Key)
    requires ValidSystem(s) && Follows(s, m, s') && Apart(s.conf, k)
    requires k in Get(s, x).blocked && !LiftsBlock(s, m, x, k)
    ensures k in Get(s', x).blocked
  {
    if m.side == x {
      BlockedStep(s, m, k);
    } else {
      StepKeepsLogs(s.conf, Get(s, m.side), Get(s, Other(m.side)), m.action);
    }
  }

  lemma BlockedAt(states: seq<System>, moves: seq<Move>, i: nat, x: Side, k: Key)
    requires IsRun(states, moves) && ValidSystem(states[0]) && i < |moves| && Apart(states[0].conf, k)
    requires k in Get(states[i], x).blocked && !LiftsBlock(states[i], moves[i], x, k)
    ensures k in Get(states[i + 1], x).blocked
  {
    RunKeepsValid(states, moves, i);
    SameConf(states, moves, i);
    assert Follows(states[i], moves[i], states[i + 1]);
    StaysBlocked(states[i], moves[i], states[i + 1], x, k);
  }

  lemma {:induction false} BlockedUntilLifted(states: seq<System>, moves: seq<Move>, i: nat, j: nat, x: Side, k: Key)
    requires IsRun(states, moves) && ValidSystem(states[0]) && i <= j < |states|
    requires Apart(states[0].conf, k) && k in Get(states[i], x).blocked
    requires forall n | i <= n < j :: !LiftsBlock(states[n], moves[n], x, k)
    ensures k in Get(states[j], x).blocked
  {
    if i < j {
      BlockedUntilLifted(states, moves, i, j - 1, x, k);
      assert !LiftsBlock(states[j - 1], moves[j - 1], x, k);
      BlockedAt(states, moves, j - 1, x, k);
    }
  }

  /** Over a whole run: as long as the block is not lifted, no step of that node's cycles
      changes a file or a flag of the key on either node. */
  lemma BlockedKeyUntouched(states: seq<System>, moves: seq<Move>, i: nat, j: nat, x: Side, k: Key)
    requires IsRun(states, moves) && ValidSystem(states[0]) && i <= j < |moves|
    requires Apart(states[0].conf, k) && k in Get(states[i], x).blocked
    requires forall n | i <= n < j :: !LiftsBlock(states[n], moves[n], x, k)
    requires moves[j].side == x && CycleAction(moves[j].action)
    ensures LeavesKey(states[j], states[j + 1], k)
  {
    BlockedUntilLifted(states, moves, i, j, x, k);
    RunKeepsValid(states, moves, j);
    SameConf(states, moves, j);
    assert Follows(states[j], moves[j], states[j + 1]);
    BlockedStep(states[j], moves[j], k);
  }

  lemma {:induction false} SameConf(states: seq<System>, moves: seq<Move>, i: nat)
    requires IsRun(states, moves) && i < |states|
    ensures states[i].conf == states[0].conf
  {
    if i > 0 {
      SameConf(states, moves, i - 1);
      assert Follows(states[i - 1], moves[i - 1], states[i]);
    }
  }

  /* ---- a two-sided edit under the manual policy ---- */

  /** `top` is an unsynced create or modify of `k`, newer than every unsynced delete of it. */
  ghost predicate TopsDeletes(rows: Rows, k: Key, top: nat) {
    && IsUnsynced(rows, top) && rows[top].entry.key == k && !rows[top].entry.kind.Delete?
    && forall id | IsUnsynced(rows, id) && rows[id].entry.key == k && rows[id].entry.kind.Delete? ::
         Earlier(rows[id].entry.stamp, rows[top].entry.stamp)
  }

  /** The newest unsynced entry of `k` is a create or modify. */
  ghost predicate EditedOnTop(rows: Rows, k: Key) {
    exists top :: TopsDeletes(rows, k, top)
  }

  lemma SnapshotIsEdit(m: map<Key, Entry>, rows: Rows, k: Key)
    requires NewestUnsynced(m, rows) && EditedOnTop(rows, k)
    ensures k in m && !m[k].kind.Delete?
  {
    var top :| TopsDeletes(rows, k, top);
    assert IsUnsynced(rows, m[k].id);
  }

  /** What the phase of a node holds while the two-sided edit of `k` is pending. */
  ghost predicate Contested(d: Daemon, k: Key) {
    match d.phase
    case Idle => true
    case Fetched(remote) => k in remote && !remote[k].kind.Delete?
    case Looping(remote, local, todo, marks, acks) =>
      && k in remote && !remote[k].kind.Delete? && k in local && !local[k].kind.Delete?
      && (k in todo || k in d.blocked)
    case Marked(_, _) => k in d.blocked
  }

  /** Both nodes know the pair, both logs have an unsynced edit of `k` on top, and every
      cycle under way has seen both. */
  ghost predicate Standoff(conf: Settings, me: Daemon, peer: Daemon, k: Key) {
    && conf.policy.Manual? && Valid(me, peer)
    && k.pair in me.node.pairs && k.pair in peer.node.pairs
    && EditedOnTop(me.node.rows, k) && EditedOnTop(peer.node.rows, k)
    && Contested(me, k) && Contested(peer, k)
  }

  /** Edits and appends keep away from `k` itself. */
  predicate SparesKey(a: Action, k: Key) {
    && (a.Touch? ==> a.key != k)
    && (a.Log? ==> a.key != k)
  }

  /** No row of `k` appears or changes, and none that is pending and not a delete goes:
      old deletes and rows with both flags may be pruned. */
  ghost predicate SparesRowsOf(rows: Rows, rows': Rows, k: Key) {
    && (forall id | id in rows' && rows'[id].entry.key == k :: id in rows && rows'[id] == rows[id])
    && (forall id | IsUnsynced(rows, id) && rows[id].entry.key == k && !rows[id].entry.kind.Delete? ::
          id in rows' && rows'[id] == rows[id])
  }

  ghost predicate SparesNode(n: Node, n': Node, k: Key) {
    FileAt(n'.tree, k) == FileAt(n.tree, k) && SparesRowsOf(n.rows, n'.rows, k)
  }

  lemma SparedTopStays(rows: Rows, rows': Rows, k: Key)
    requires SparesRowsOf(rows, rows', k) && EditedOnTop(rows, k)
    ensures EditedOnTop(rows', k)
  {
    var top :| TopsDeletes(rows, k, top);
    assert forall id | IsUnsynced(rows', id) && rows'[id].entry.key == k :: IsUnsynced(rows, id);
    assert TopsDeletes(rows', k, top);
  }

  lemma StandoffTurn(conf: Settings, me: Daemon, peer: Daemon, j: Key, env: Env, k: Key)
    requires Standoff(conf, me, peer, k) && Can(me, peer, Handle(j, env))
    ensures var (me', peer') := Step(conf, me, peer, Handle(j, env));
      LeavesNode(me.node, me'.node, k) && LeavesNode(peer.node, peer'.node, k)
  {
    TurnApart(conf, PassOf(me, peer), j, At(me.phase.local, j), At(me.phase.remote, j), env, k);
  }

  lemma StandoffFlags(conf: Settings, me: Daemon, peer: Daemon, a: Action, k: Key)
    requires Standoff(conf, me, peer, k) && Can(me, peer, a) && (a.Mark? || a.Ack?)
    ensures var (me', peer') := Step(conf, me, peer, a);
      LeavesNode(me.node, me'.node, k) && LeavesNode(peer.node, peer'.node, k)
  {
    if a.Mark? {
      FlagsMissKey(me.phase.marks, me.phase.local, {}, me.blocked, me.node.rows, me.node, k);
    } else {
      FlagsMissKey(me.phase.acks, me.phase.remote, {}, me.blocked, peer.node.rows, peer.node, k);
    }
  }

  lemma StandoffSpares(conf: Settings, me: Daemon, peer: Daemon, a: Action, k: Key)
    requires Standoff(conf, me, peer, k) && Can(me, peer, a) && SparesKey(a, k)
    ensures var (me', peer') := Step(conf, me, peer, a);
      SparesNode(me.node, me'.node, k) && SparesNode(peer.node, peer'.node, k)
  {
    var (me', peer') := Step(conf, me, peer, a);
    if a.Handle? || a.Mark? || a.Ack? {
      if a.Handle? { StandoffTurn(conf, me, peer, a.key, a.env, k); } else { StandoffFlags(conf, me, peer, a, k); }
    } else {
      StepKeepsLogs(conf, me, peer, a);
    }
  }

  lemma StandoffPhase(conf: Settings, me: Daemon, peer: Daemon, a: Action, k: Key)
    requires Standoff(conf, me, peer, k) && Can(me, peer, a) && SparesKey(a, k)
    ensures var me' := Step(conf, me, peer, a).0;
      && Contested(me', k)
      && (k in me.blocked && !a.Restart? ==> k in me'.blocked)
      && (a.Mark? ==> k in me'.blocked)
  {
    match a {
      case Fetch(remote) => SnapshotIsEdit(remote, peer.node.rows, k);
      case Read(local) => SnapshotIsEdit(local, me.node.rows, k);
      case Handle(j, env) =>
        TurnApart(conf, PassOf(me, peer), j, At(me.phase.local, j), At(me.phase.remote, j), env, k);
      case _ =>
    }
  }

  lemma StandoffStep(conf: Settings, me: Daemon, peer: Daemon, a: Action, k: Key)
    requires Standoff(conf, me, peer, k) && Can(me, peer, a) && SparesKey(a, k)
    ensures Standoff(conf, Step(conf, me, peer, a).0, Step(conf, me, peer, a).1, k)
  {
    var (me', peer') := Step(conf, me, peer, a);
    StepKeepsValid(conf, me, peer, a);
    StepKeepsLogs(conf, me, peer, a);
    StandoffSpares(conf, me, peer, a, k);
    StandoffPhase(conf, me, peer, a, k);
    SparedTopStays(me.node.rows, me'.node.rows, k);
    SparedTopStays(peer.node.rows, peer'.node.rows, k);
  }

  ghost predicate Holds(s: System, k: Key) { Standoff(s.conf, s.left, s.right, k) }

  lemma StandoffMove(s: System, m: Move, s': System, k: Key, y: Side)
    requires Holds(s, k) && Follows(s, m, s') && SparesKey(m.action, k)
    ensures Holds(s', k)
    ensures SparesNode(Get(s, y).node, Get(s', y).node, k)
    ensures (k in Get(s, y).blocked && !IsRestart(m, y)) || IsMark(m, y) ==> k in Get(s', y).blocked
  {
    var me, peer := Get(s, m.side), Get(s, Other(m.side));
    StandoffStep(s.conf, me, peer, m.action, k);
    StandoffPhase(s.conf, me, peer, m.action, k);
    StandoffSpares(s.conf, me, peer, m.action, k);
    StepKeepsLogs(s.conf, me, peer, m.action);
  }

  predicate IsMark(m: Move, y: Side) { m.side == y && m.action.Mark? }

  predicate IsRestart(m: Move, y: Side) { m.side == y && m.action.Restart? }

  /** Side `y` has been through a marking step since it was last restarted. */
  ghost predicate MarkedBefore(moves: seq<Move>, i: nat, y: Side)
    requires i <= |moves|
  {
    exists n | 0 <= n < i :: IsMark(moves[n], y) && forall j | n < j < i :: !IsRestart(moves[j], y)
  }

  lemma MarkedLast(moves: seq<Move>, i: nat, y: Side)
    requires 0 < i <= |moves| && MarkedBefore(moves, i, y)
    ensures IsMark(moves[i - 1], y) || (MarkedBefore(moves, i - 1, y) && !IsRestart(moves[i - 1], y))
  {
  }

  lemma {:induction false} StandoffRun(states: seq<System>, moves: seq<Move>, i: nat, k: Key, y: Side)
    requires IsRun(states, moves) && i <= |moves| && Holds(states[0], k)
    requires forall n | 0 <= n < i :: SparesKey(moves[n].action, k)
    ensures Holds(states[i], k)
    ensures MarkedBefore(moves, i, y) ==> k in Get(states[i], y).blocked
  {
    if i > 0 {
      StandoffRun(states, moves, i - 1, k, y);
      assert Follows(states[i - 1], moves[i - 1], states[i]);
      StandoffMove(states[i - 1], moves[i - 1], states[i], k, y);
      if MarkedBefore(moves, i, y) { MarkedLast(moves, i, y); }
    }
  }

  lemma SparesNext(states: seq<System>, moves: seq<Move>, i: nat, k: Key, y: Side)
    requires IsRun(states, moves) && i < |moves| && Holds(states[i], k) && SparesKey(moves[i].action, k)
    ensures SparesNode(Get(states[i], y).node, Get(states[i + 1], y).node, k)
  {
    assert Follows(states[i], moves[i], states[i + 1]);
    StandoffMove(states[i], moves[i], states[i + 1], k, y);
  }

  lemma {:induction false} SparesRun(states: seq<System>, moves: seq<Move>, i: nat, k: Key, y: Side)
    requires IsRun(states, moves) && i <= |moves| && Holds(states[0], k)
    requires forall n | 0 <= n < i :: SparesKey(moves[n].action, k)
    ensures SparesNode(Get(states[0], y).node, Get(states[i], y).node, k)
  {
    if i > 0 {
      SparesRun(states, moves, i - 1, k, y);
      StandoffRun(states, moves, i - 1, k, y);
      SparesNext(states, moves, i - 1, k, y);
    }
  }

  /** Both nodes edited `k` under the manual policy: whatever happens to other keys, however
      the cycles overlap and whatever is pruned, neither the file nor any flag of `k` changes
      on either node, and each node that got as far as marking has the key blocked until it
      is restarted. */
  lemma ManualBlocksBoth(states: seq<System>, moves: seq<Move>, i: nat, k: Key, y: Side)
    requires IsRun(states, moves) && i <= |moves| && Holds(states[0], k)
    requires forall n | 0 <= n < i :: SparesKey(moves[n].action, k)
    ensures Holds(states[i], k)
    ensures SparesNode(Get(states[0], y).node, Get(states[i], y).node, k)
    ensures MarkedBefore(moves, i, y) ==> k in Get(states[i], y).blocked
  {
    StandoffRun(states, moves, i, k, y);
    SparesRun(states, moves, i, k, y);
  }
}
