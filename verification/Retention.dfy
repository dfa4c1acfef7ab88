/** What can happen to one changelog row over any run of the two daemons: edits, appends,
    failures, stale snapshots and pruning included
    (internal/changelog/store.go:12-28, internal/changelog/maintenance.go:35-61). */
module Retention {
  import opened Changelog
  import opened Cycle
  import opened Protocol

  function RowsAt(s: System, x: Side): Rows { Get(s, x).node.rows }

  ghost predicate Sets(s: System, m: Move, x: Side, id: nat) {
    && Enabled(s, m) && m.side == x && m.action == Mark(true)
    && exists k :: IsOwnNewest(s, x, k, id)
  }

  /** `id` is the entry the running cycle of `x` read as its own newest for the handled key `k`. */
  ghost predicate IsOwnNewest(s: System, x: Side, k: Key, id: nat) {
    var d := Get(s, x);
    && d.phase.Looping? && k in d.phase.local && k !in d.blocked && d.phase.local[k].id == id
    && id in d.node.rows && d.node.rows[id].entry == d.phase.local[k]
  }

  /** `id` is the entry of `x` that the running cycle of the peer fetched for the key `k`. */
  ghost predicate IsFetched(s: System, x: Side, k: Key, id: nat) {
    var d := Get(s, Other(x));
    && d.phase.Marked? && k in d.phase.remote && k !in d.blocked && d.phase.remote[k].id == id
    && id in RowsAt(s, x) && RowsAt(s, x)[id].entry == d.phase.remote[k]
  }

  ghost predicate Acks(s: System, m: Move, x: Side, id: nat) {
    && Enabled(s, m) && m.side == Other(x) && m.action == Ack(true)
    && exists k :: IsFetched(s, x, k, id)
  }

  ghost predicate Drops(s: System, m: Move, x: Side, id: nat) {
    && m.side == x && m.action.Prune? && id in RowsAt(s, x)
    && Expired(RowsAt(s, x)[id], m.action.retention, m.action.tombstones)
  }

  lemma HandleKeepsRows(s: System, m: Move, x: Side)
    requires ValidSystem(s) && Enabled(s, m) && m.action.Handle?
    ensures RowsAt(Apply(s, m), x) == RowsAt(s, x)
  {
    var me, peer, k := Get(s, m.side), Get(s, Other(m.side)), m.action.key;
    ProcessFrame(s.conf, PassOf(me, peer), k, At(me.phase.local, k), At(me.phase.remote, k), m.action.env);
  }

  /** One step and one row: flags only rise, `synced` only by the owner's cycle and for the
      entry it handled, `peerAck` only by the peer's cycle and for the entry it fetched,
      and the row leaves only through pruning. */
  lemma RowStep(s: System, m: Move, x: Side, id: nat)
    requires ValidSystem(s) && Enabled(s, m) && id in RowsAt(s, x)
    ensures var rows, rows' := RowsAt(s, x), RowsAt(Apply(s, m), x);
      && (id !in rows' <==> Drops(s, m, x, id))
      && (id in rows' ==>
            && rows'[id].entry == rows[id].entry && rows'[id].createdAt == rows[id].createdAt
            && (rows[id].synced ==> rows'[id].synced) && (rows[id].peerAck ==> rows'[id].peerAck)
            && (rows'[id].synced && !rows[id].synced ==> Sets(s, m, x, id))
            && (rows'[id].peerAck && !rows[id].peerAck ==> Acks(s, m, x, id)))
  {
    var me, peer := Get(s, m.side), Get(s, Other(m.side));
    match m.action {
      case Handle(k, env) => HandleKeepsRows(s, m, x);
      case Mark(ok) =>
        if ok && m.side == x && id in me.phase.marks {
          var k :| k in me.phase.local && k !in me.phase.todo && k !in me.blocked && me.phase.local[k].id == id;
          assert IsOwnNewest(s, x, k, id);
        }
      case Ack(ok) =>
        if ok && m.side == Other(x) && id in me.phase.acks {
          var k :| k in me.phase.remote && k !in me.blocked && me.phase.remote[k].id == id;
          assert IsFetched(s, x, k, id);
        }
      case _ =>
    }
  }

  /** An id that was handed out and is gone never names a row again. */
  lemma {:induction false} IdsNeverReturn(states: seq<System>, moves: seq<Move>, i: nat, j: nat, x: Side, id: nat)
    requires IsRun(states, moves) && ValidSystem(states[0]) && i <= j < |states|
    requires id < Get(states[i], x).node.nextId && id !in RowsAt(states[i], x)
    ensures id < Get(states[j], x).node.nextId && id !in RowsAt(states[j], x)
  {
    if i < j {
      IdsNeverReturn(states, moves, i, j - 1, x, id);
      RunKeepsValid(states, moves, j - 1);
      var s, m := states[j - 1], moves[j - 1];
      assert Follows(s, m, states[j]);
      StepKeepsLogs(s.conf, Get(s, m.side), Get(s, Other(m.side)), m.action);
    }
  }

  /** Every id of a row stays below the owner's counter. */
  lemma {:induction false} HandedOut(states: seq<System>, moves: seq<Move>, i: nat, j: nat, x: Side, id: nat)
    requires IsRun(states, moves) && ValidSystem(states[0]) && i <= j < |states|
    requires id < Get(states[i], x).node.nextId
    ensures id < Get(states[j], x).node.nextId
  {
    if i < j {
      HandedOut(states, moves, i, j - 1, x, id);
      RunKeepsValid(states, moves, j - 1);
      var s, m := states[j - 1], moves[j - 1];
      assert Follows(s, m, states[j]);
      StepKeepsLogs(s.conf, Get(s, m.side), Get(s, Other(m.side)), m.action);
    }
  }

  /** A row that is there at both ends of a stretch was there all along. */
  lemma RowPersists(states: seq<System>, moves: seq<Move>, i: nat, n: nat, j: nat, x: Side, id: nat)
    requires IsRun(states, moves) && ValidSystem(states[0]) && i <= n <= j < |states|
    requires id in RowsAt(states[i], x) && id in RowsAt(states[j], x)
    ensures id in RowsAt(states[n], x)
  {
    if id !in RowsAt(states[n], x) {
      RunKeepsValid(states, moves, i);
      HandedOut(states, moves, i, n, x, id);
      IdsNeverReturn(states, moves, n, j, x, id);
    }
  }

  ghost predicate SetBetween(states: seq<System>, moves: seq<Move>, i: nat, j: nat, x: Side, id: nat)
    requires j <= |moves| < |states|
  {
    exists n | i <= n < j :: Sets(states[n], moves[n], x, id)
  }

  ghost predicate AckedBetween(states: seq<System>, moves: seq<Move>, i: nat, j: nat, x: Side, id: nat)
    requires j <= |moves| < |states|
  {
    exists n | i <= n < j :: Acks(states[n], moves[n], x, id)
  }

  /** Over any stretch of a run a surviving row keeps its entry, its flags only rise, and a
      flag that rose was raised by the right node's cycle at some step in between. */
  lemma {:induction false} RowHistory(states: seq<System>, moves: seq<Move>, i: nat, j: nat, x: Side, id: nat)
    requires IsRun(states, moves) && ValidSystem(states[0]) && i <= j < |states|
    requires id in RowsAt(states[i], x) && id in RowsAt(states[j], x)
    ensures var row, row' := RowsAt(states[i], x)[id], RowsAt(states[j], x)[id];
      && row'.entry == row.entry
      && (row.synced ==> row'.synced) && (row.peerAck ==> row'.peerAck)
      && (row'.synced && !row.synced ==> SetBetween(states, moves, i, j, x, id))
      && (row'.peerAck && !row.peerAck ==> AckedBetween(states, moves, i, j, x, id))
  {
    if i < j {
      RowPersists(states, moves, i, j - 1, j, x, id);
      RowHistory(states, moves, i, j - 1, x, id);
      RunKeepsValid(states, moves, j - 1);
      assert Follows(states[j - 1], moves[j - 1], states[j]);
      RowStep(states[j - 1], moves[j - 1], x, id);
      assert Sets(states[j - 1], moves[j - 1], x, id) ==> SetBetween(states, moves, i, j, x, id);
      assert Acks(states[j - 1], moves[j - 1], x, id) ==> AckedBetween(states, moves, i, j, x, id);
    }
  }

  /** The pruning step takes the row of `e`, and unless `e` is a delete both its flags are set. */
  ghost predicate DropsSafely(s: System, m: Move, x: Side, id: nat, e: Entry) {
    && Drops(s, m, x, id) && RowsAt(s, x)[id].entry == e
    && (!e.kind.Delete? ==> RowsAt(s, x)[id].synced && RowsAt(s, x)[id].peerAck)
  }

  /** A row that is not a delete leaves the log only after both flags were set: it was
      there, synced and acknowledged, when the pruning step took it. */
  lemma {:induction false} RetentionSafety(states: seq<System>, moves: seq<Move>, i: nat, j: nat, x: Side, id: nat)
    requires IsRun(states, moves) && ValidSystem(states[0]) && i <= j < |states|
    requires id in RowsAt(states[i], x) && id !in RowsAt(states[j], x)
    ensures exists n | i <= n < j :: DropsSafely(states[n], moves[n], x, id, RowsAt(states[i], x)[id].entry)
  {
    RunKeepsValid(states, moves, j - 1);
    var s, m := states[j - 1], moves[j - 1];
    assert Follows(s, m, states[j]);
    if id in RowsAt(s, x) {
      RowStep(s, m, x, id);
      RowHistory(states, moves, i, j - 1, x, id);
      assert DropsSafely(s, m, x, id, RowsAt(states[i], x)[id].entry);
    } else {
      RetentionSafety(states, moves, i, j - 1, x, id);
    }
  }
}
