/** Newest first: which unsynced entries a cycle can mark
    (internal/reconciler/reconciler.go:174-182, internal/reconciler/reconciler.go:281-290). */
module Newest {
  import opened Changelog
  import opened Cycle
  import opened Protocol

  /** As far as `ids` are concerned, what the looping cycle took for the newest still is. */
  ghost predicate FreshFor(d: Daemon, ids: set<nat>) {
    d.phase.Looping? ==> forall id | id in ids && IsUnsynced(d.node.rows, id) ::
      Covered(d.phase.local, d.node.rows[id].entry)
  }

  /** The snapshot holds an entry of the same key that is not older. */
  predicate Covered(m: map<Key, Entry>, e: Entry) {
    e.key in m && CompareStamp(e.stamp, m[e.key].stamp) <= 0
  }

  /** The ids were handed out before: no append can bring one of them. */
  ghost predicate HandedOutBefore(ids: set<nat>, n: Node) {
    forall id | id in ids :: id < n.nextId
  }

  /** Among `ids`, whenever an entry is synced every strictly newer one of its key is. */
  ghost predicate UpwardClosed(rows: Rows, ids: set<nat>) {
    forall a, b | a in ids && b in ids && a in rows && b in rows ::
      rows[a].entry.key == rows[b].entry.key && Earlier(rows[a].entry.stamp, rows[b].entry.stamp) && rows[a].synced
      ==> rows[b].synced
  }

  /** What any step, appends and pruning included, may do to the rows of `ids`. */
  ghost predicate KeepsIds(rows: Rows, rows': Rows, ids: set<nat>, marks: set<nat>) {
    forall id | id in ids && id in rows' ::
      && id in rows && rows'[id].entry == rows[id].entry
      && (rows[id].synced ==> rows'[id].synced)
      && (rows'[id].synced ==> rows[id].synced || id in marks)
  }

  /** The ids a step marks at the acting node. */
  function MarksOf(me: Daemon, a: Action): set<nat> {
    if a == Mark(true) && me.phase.Looping? then me.phase.marks else {}
  }

  lemma StepKeepsIds(conf: Settings, me: Daemon, peer: Daemon, a: Action, ids: set<nat>)
    requires Valid(me, peer) && Can(me, peer, a)
    ensures HandedOutBefore(ids, me.node) ==>
      KeepsIds(me.node.rows, Step(conf, me, peer, a).0.node.rows, ids, MarksOf(me, a))
    ensures HandedOutBefore(ids, peer.node) ==> KeepsIds(peer.node.rows, Step(conf, me, peer, a).1.node.rows, ids, {})
  {
    if a.Handle? {
      ProcessFrame(conf, PassOf(me, peer), a.key, At(me.phase.local, a.key), At(me.phase.remote, a.key), a.env);
    }
  }

  /** Every step keeps a cycle fresh for ids handed out before, and a Read makes it so. */
  lemma FreshStep(conf: Settings, me: Daemon, peer: Daemon, a: Action, ids: set<nat>)
    requires Valid(me, peer) && Can(me, peer, a)
    ensures HandedOutBefore(ids, me.node) && (FreshFor(me, ids) || a.Read?) ==> FreshFor(Step(conf, me, peer, a).0, ids)
    ensures HandedOutBefore(ids, peer.node) && FreshFor(peer, ids) ==> FreshFor(Step(conf, me, peer, a).1, ids)
  {
    StepKeepsIds(conf, me, peer, a, ids);
    StepKeepsLogs(conf, me, peer, a);
  }

  lemma FreshAt(states: seq<System>, moves: seq<Move>, i: nat, x: Side, ids: set<nat>)
    requires IsRun(states, moves) && ValidSystem(states[0]) && i < |moves|
    requires FreshFor(Get(states[i], x), ids) && HandedOutBefore(ids, Get(states[i], x).node)
    ensures FreshFor(Get(states[i + 1], x), ids) && HandedOutBefore(ids, Get(states[i + 1], x).node)
  {
    RunKeepsValid(states, moves, i);
    assert Follows(states[i], moves[i], states[i + 1]);
    FreshMove(states[i], moves[i], states[i + 1], x, ids);
  }

  /** From step `i` on, whatever happens, the ids stay handed out and the cycles of `x` fresh
      for them. */
  lemma {:induction false} FreshRun(states: seq<System>, moves: seq<Move>, i: nat, j: nat, x: Side, ids: set<nat>)
    requires IsRun(states, moves) && ValidSystem(states[0]) && i <= j < |states|
    requires FreshFor(Get(states[i], x), ids) && HandedOutBefore(ids, Get(states[i], x).node)
    ensures FreshFor(Get(states[j], x), ids) && HandedOutBefore(ids, Get(states[j], x).node)
  {
    if i < j {
      FreshRun(states, moves, i, j - 1, x, ids);
      FreshAt(states, moves, j - 1, x, ids);
    }
  }

  lemma FreshMove(s: System, m: Move, s': System, x: Side, ids: set<nat>)
    requires ValidSystem(s) && Follows(s, m, s') && HandedOutBefore(ids, Get(s, x).node)
    requires FreshFor(Get(s, x), ids) || (m.side == x && m.action.Read?)
    ensures FreshFor(Get(s', x), ids) && HandedOutBefore(ids, Get(s', x).node)
  {
    FreshStep(s.conf, Get(s, m.side), Get(s, Other(m.side)), m.action, ids);
    StepKeepsLogs(s.conf, Get(s, m.side), Get(s, Other(m.side)), m.action);
  }

  /** An id that gets marked is not older than any pending entry of its key among `ids`. */
  lemma MarkedIsTop(me: Daemon, ids: set<nat>, a: nat, b: nat)
    requires me.phase.Looping? && FreshFor(me, ids) && Snapshot(me.phase.local, me.node)
    requires Gathered(me.phase.marks, me.phase.local, me.phase.todo, me.blocked)
    requires a in me.phase.marks && a in me.node.rows && b in ids && IsUnsynced(me.node.rows, b)
    requires me.node.rows[a].entry.key == me.node.rows[b].entry.key
    ensures !Earlier(me.node.rows[a].entry.stamp, me.node.rows[b].entry.stamp)
  {
    var k :| k in me.phase.local && k !in me.phase.todo && k !in me.blocked && me.phase.local[k].id == a;
    assert Covered(me.phase.local, me.node.rows[b].entry);
  }

  lemma ClosedMove(s: System, m: Move, s': System, x: Side, ids: set<nat>)
    requires ValidSystem(s) && Follows(s, m, s') && HandedOutBefore(ids, Get(s, x).node)
    requires FreshFor(Get(s, x), ids) && UpwardClosed(Get(s, x).node.rows, ids)
    ensures UpwardClosed(Get(s', x).node.rows, ids)
  {
    var d, rows, rows' := Get(s, x), Get(s, x).node.rows, Get(s', x).node.rows;
    StepKeepsIds(s.conf, Get(s, m.side), Get(s, Other(m.side)), m.action, ids);
    forall a, b | a in ids && b in ids && a in rows' && b in rows'
        && rows'[a].entry.key == rows'[b].entry.key && Earlier(rows'[a].entry.stamp, rows'[b].entry.stamp)
        && rows'[a].synced
      ensures rows'[b].synced
    {
      if !rows[a].synced && IsUnsynced(rows, b) {
        MarkedIsTop(d, ids, a, b);
      }
    }
  }

  /** In every run, whatever is appended, pruned or fails, the entries of a key that are
      there at the start become synced from the newest down: at every point those synced
      among any set that starts closed (all unsynced, for one) are closed upward. */
  lemma {:induction false} SyncedUpwardClosed(states: seq<System>, moves: seq<Move>, i: nat, x: Side, ids: set<nat>)
    requires IsRun(states, moves) && ValidSystem(states[0]) && i < |states|
    requires HandedOutBefore(ids, Get(states[0], x).node) && FreshFor(Get(states[0], x), ids)
    requires UpwardClosed(Get(states[0], x).node.rows, ids)
    ensures UpwardClosed(Get(states[i], x).node.rows, ids)
  {
    if i > 0 {
      SyncedUpwardClosed(states, moves, i - 1, x, ids);
      FreshRun(states, moves, 0, i - 1, x, ids);
      RunKeepsValid(states, moves, i - 1);
      assert Follows(states[i - 1], moves[i - 1], states[i]);
      ClosedMove(states[i - 1], moves[i - 1], states[i], x, ids);
    }
  }

  /** In every run a marking step never takes an entry while a strictly newer one of its key
      is pending that was logged when the cycle read the log. */
  lemma MarkTakesNewest(states: seq<System>, moves: seq<Move>, r: nat, i: nat, id: nat, newer: nat)
    requires IsRun(states, moves) && ValidSystem(states[0]) && r < i < |moves|
    requires moves[r].side == moves[i].side && moves[r].action.Read? && moves[i].action == Mark(true)
    requires newer < Get(states[r], moves[r].side).node.nextId
    requires var rows := Get(states[i], moves[i].side).node.rows;
      && IsUnsynced(rows, id) && IsUnsynced(rows, newer)
      && rows[newer].entry.key == rows[id].entry.key && Earlier(rows[id].entry.stamp, rows[newer].entry.stamp)
    ensures IsUnsynced(Get(states[i + 1], moves[i].side).node.rows, id)
  {
    var x, d := moves[i].side, Get(states[i], moves[i].side);
    RunKeepsValid(states, moves, r);
    RunKeepsValid(states, moves, i);
    assert Follows(states[r], moves[r], states[r + 1]) && Follows(states[i], moves[i], states[i + 1]);
    FreshMove(states[r], moves[r], states[r + 1], x, {newer});
    FreshRun(states, moves, r + 1, i, x, {newer});
    if id in d.phase.marks {
      MarkedIsTop(d, {newer}, id, newer);
    }
  }
}
