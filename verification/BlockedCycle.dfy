/** What one cycle does to a key that its node has blocked, read off the two logs
    (internal/reconciler/reconciler.go:98-107). */
module BlockedCycle {
  import opened Wrappers
  import opened Changelog
  import opened Cycle
  import opened KeepBothPolicy
  import opened Protocol
  import opened Blocking
  import opened OneCycle

  /** The newest pending entry of `k`, or that there is none. */
  ghost predicate TopIs(rows: Rows, k: Key, top: Option<Entry>) {
    if top.Some? then IsNewest(rows, k, top.value) else UnsyncedIds(rows, k) == {}
  }

  lemma SnapshotOfTop(m: map<Key, Entry>, rows: Rows, k: Key, top: Option<Entry>)
    requires NewestUnsynced(m, rows) && TopIs(rows, k, top)
    ensures At(m, k) == top
  {
    if top.Some? {
      SnapshotOfNewest(m, rows, k, top.value);
    } else {
      ClearIsAbsent(m, rows, k);
    }
  }

  /** A delete of its own on top, against nothing or a delete at the peer. */
  predicate Lifts(mine: Option<Entry>, theirs: Option<Entry>) {
    mine.Some? && mine.value.kind.Delete? && (theirs.Some? ==> theirs.value.kind.Delete?)
  }

  /** The node in the middle of its cycle: what it has seen, and its block so far. */
  ghost predicate Under(d: Daemon, k: Key, mine: Option<Entry>, theirs: Option<Entry>) {
    match d.phase
    case Fetched(remote) => At(remote, k) == theirs && k in d.blocked
    case Looping(remote, local, todo, _, _) =>
      && At(remote, k) == theirs && At(local, k) == mine
      && if k in todo || (mine.None? && theirs.None?) then k in d.blocked
         else (k !in d.blocked <==> Lifts(mine, theirs))
    case _ => false
  }

  /** Steps that neither end the cycle nor begin another. */
  predicate Goes(a: Action) { !a.Fetch? && !a.Abandon? && !a.Restart? && !a.Mark? && !a.Ack? }

  lemma UnderStep(conf: Settings, me: Daemon, peer: Daemon, a: Action, k: Key, mine: Option<Entry>,
                  theirs: Option<Entry>)
    requires Valid(me, peer) && Can(me, peer, a) && Goes(a) && Apart(conf, k) && Under(me, k, mine, theirs)
    requires a.Read? ==> TopIs(me.node.rows, k, mine)
    ensures Under(Step(conf, me, peer, a).0, k, mine, theirs)
  {
    if a.Read? {
      SnapshotOfTop(a.local, me.node.rows, k, mine);
    } else if a.Handle? {
      var j := a.key;
      TurnApart(conf, PassOf(me, peer), j, At(me.phase.local, j), At(me.phase.remote, j), a.env, k);
    }
  }

  lemma UnderMove(s: System, m: Move, s': System, x: Side, k: Key, mine: Option<Entry>, theirs: Option<Entry>)
    requires ValidSystem(s) && Follows(s, m, s') && Apart(s.conf, k) && Under(Get(s, x), k, mine, theirs)
    requires m.side == x ==> Goes(m.action) && (m.action.Read? ==> TopIs(Get(s, x).node.rows, k, mine))
    ensures Under(Get(s', x), k, mine, theirs)
  {
    var me, peer := Get(s, m.side), Get(s, Other(m.side));
    if m.side == x {
      UnderStep(s.conf, me, peer, m.action, k, mine, theirs);
    } else {
      StepKeepsLogs(s.conf, me, peer, m.action);
    }
  }

  /** Side `x` fetches at step `f` and marks at step `h`; in between it goes on with that cycle. */
  ghost predicate OneCycleOf(states: seq<System>, moves: seq<Move>, f: nat, h: nat, x: Side) {
    && IsRun(states, moves) && ValidSystem(states[0]) && f < h < |moves|
    && moves[f].side == x && moves[f].action.Fetch? && moves[h].side == x && moves[h].action.Mark?
    && forall i | f < i < h && moves[i].side == x :: Goes(moves[i].action)
  }

  /** `mine` is on top whenever the node reads its log. */
  ghost predicate ReadsTop(states: seq<System>, moves: seq<Move>, f: nat, h: nat, x: Side, k: Key,
                           mine: Option<Entry>)
    requires h <= |moves| < |states|
  {
    forall i | f < i < h && moves[i].side == x && moves[i].action.Read? :: TopIs(Get(states[i], x).node.rows, k, mine)
  }

  lemma UnderNext(states: seq<System>, moves: seq<Move>, f: nat, h: nat, i: nat, x: Side, k: Key,
                  mine: Option<Entry>, theirs: Option<Entry>)
    requires OneCycleOf(states, moves, f, h, x) && Apart(states[0].conf, k) && f < i < h
    requires ReadsTop(states, moves, f, h, x, k, mine) && Under(Get(states[i], x), k, mine, theirs)
    ensures Under(Get(states[i + 1], x), k, mine, theirs)
  {
    RunKeepsValid(states, moves, i);
    SameConf(states, moves, i);
    assert Follows(states[i], moves[i], states[i + 1]);
    UnderMove(states[i], moves[i], states[i + 1], x, k, mine, theirs);
  }

  lemma UnderFirst(states: seq<System>, moves: seq<Move>, f: nat, h: nat, x: Side, k: Key, mine: Option<Entry>,
                   theirs: Option<Entry>)
    requires OneCycleOf(states, moves, f, h, x) && k in Get(states[f], x).blocked
    requires TopIs(Get(states[f], Other(x)).node.rows, k, theirs)
    ensures Under(Get(states[f + 1], x), k, mine, theirs)
  {
    assert Follows(states[f], moves[f], states[f + 1]);
    SnapshotOfTop(moves[f].action.remote, Get(states[f], Other(x)).node.rows, k, theirs);
  }

  lemma {:induction false} UnderSince(states: seq<System>, moves: seq<Move>, f: nat, h: nat, i: nat, x: Side, k: Key,
                                      mine: Option<Entry>, theirs: Option<Entry>)
    requires OneCycleOf(states, moves, f, h, x) && Apart(states[0].conf, k) && f < i <= h
    requires ReadsTop(states, moves, f, h, x, k, mine)
    requires k in Get(states[f], x).blocked && TopIs(Get(states[f], Other(x)).node.rows, k, theirs)
    ensures Under(Get(states[i], x), k, mine, theirs)
  {
    if i == f + 1 {
      UnderFirst(states, moves, f, h, x, k, mine, theirs);
    } else {
      UnderSince(states, moves, f, h, i - 1, x, k, mine, theirs);
      UnderNext(states, moves, f, h, i - 1, x, k, mine, theirs);
    }
  }

  /** A cycle of the blocking node, from its fetch to its marking, overlapped in any way and
      whatever fails in its loop, lifts the block if and only if its own newest pending entry
      of the path was a delete when it read its log, and the peer's, when it fetched, was a
      delete or there was none. With an edit of its own on top, or nothing, it does not. */
  lemma CycleLiftsIff(states: seq<System>, moves: seq<Move>, f: nat, h: nat, x: Side, k: Key, mine: Option<Entry>,
                      theirs: Option<Entry>)
    requires OneCycleOf(states, moves, f, h, x) && Apart(states[0].conf, k)
    requires ReadsTop(states, moves, f, h, x, k, mine)
    requires k in Get(states[f], x).blocked && TopIs(Get(states[f], Other(x)).node.rows, k, theirs)
    ensures k !in Get(states[h + 1], x).blocked
      <==> mine.Some? && mine.value.kind.Delete? && (theirs.None? || theirs.value.kind.Delete?)
  {
    UnderSince(states, moves, f, h, h, x, k, mine, theirs);
    assert Follows(states[h], moves[h], states[h + 1]);
  }
}
