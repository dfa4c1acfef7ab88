/** The convergence theorem: whatever failed before, enough steps of both nodes without
    failures, in any interleaving, lead to equal trees holding the winners' files and to
    empty logs. */
module Convergence {
  import opened Arithmetic
  import opened Changelog
  import opened Text
  import opened Cycle
  import opened Protocol
  import opened Quiet
  import opened WinnerFirst

  /* ---- every cycle drains one entry per key ---- */

  /** From step `from` on no call fails. */
  predicate QuietFrom(moves: seq<Move>, from: nat) {
    forall i | from <= i < |moves| :: QuietAction(moves[i].action)
  }

  /** Side `x` takes a step of its cycle. */
  predicate Acts(m: Move, x: Side) { m.side == x && !m.action.Prune? }

  /** The cycle steps of side `x` from `from` up to `i`. */
  function StepsBy(moves: seq<Move>, from: nat, i: nat, x: Side): nat
    requires i <= |moves|
  {
    if i <= from then 0 else StepsBy(moves, from, i - 1, x) + if Acts(moves[i - 1], x) then 1 else 0
  }

  function MarksBy(moves: seq<Move>, from: nat, i: nat, x: Side): nat
    requires i <= |moves|
  {
    if i <= from then 0
    else MarksBy(moves, from, i - 1, x) + if moves[i - 1].side == x && moves[i - 1].action.Mark? then 1 else 0
  }

  function LeftOver(s: System, x: Side, k: Key): set<nat> { UnsyncedIds(Get(s, x).node.rows, k) }

  lemma MarkDrains(rows: Rows, local: map<Key, Entry>, k: Key)
    requires NewestUnsynced(local, rows)
    ensures UnsyncedIds(MarkSynced(rows, IdsOf(local, local.Keys)), k)
         == UnsyncedIds(rows, k) - (if k in local then {local[k].id} else {})
    ensures UnsyncedIds(rows, k) != {} ==> k in local && local[k].id in UnsyncedIds(rows, k)
  {
    forall id | id in UnsyncedIds(rows, k) ensures k in local
        && (id in IdsOf(local, local.Keys) <==> id == local[k].id) {
      assert IsUnsynced(rows, id);
      if id in IdsOf(local, local.Keys) {
        var j :| j in local && local[j].id == id;
      }
    }
    if k in local {
      assert IsUnsynced(rows, local[k].id);
    }
  }

  /** A marking step that gets through, of a cycle in which nothing failed, takes one. */
  lemma DrainMark(s0: System, s: System, m: Move, s': System, x: Side, k: Key)
    requires BothCalm(s0, s) && Follows(s, m, s') && m.action == Mark(true)
    requires m.side == x && OnTrack(Get(s, x).phase)
    ensures LeftOver(s, x, k) != {} ==> |LeftOver(s', x, k)| == |LeftOver(s, x, k)| - 1
    ensures LeftOver(s, x, k) == {} ==> LeftOver(s', x, k) == {}
  {
    var me := Get(s, x);
    assert me.phase.local.Keys - {} == me.phase.local.Keys;
    MarkDrains(me.node.rows, me.phase.local, k);
  }

  lemma StepAddsNone(conf: Settings, me: Daemon, peer: Daemon, a: Action, me0: Node, peer0: Node, k: Key)
    requires EditSetting(conf, me0, peer0) && Calm(me, me0, peer0) && Can(me, peer, a) && Unedited(a)
    ensures var (me', peer') := Step(conf, me, peer, a);
      && UnsyncedIds(me'.node.rows, k) <= UnsyncedIds(me.node.rows, k)
      && UnsyncedIds(peer'.node.rows, k) <= UnsyncedIds(peer.node.rows, k)
  {
    if a.Handle? {
      CalmHandle(conf, me, peer, a.key, a.env, me0, peer0);
    }
  }

  /** No step of a cycle adds a pending entry. */
  lemma NeverMore(s0: System, s: System, m: Move, s': System, x: Side, k: Key)
    requires Begins(s0) && BothCalm(s0, s) && Follows(s, m, s') && Unedited(m.action)
    ensures LeftOver(s', x, k) <= LeftOver(s, x, k)
  {
    var y := Other(m.side);
    StepAddsNone(s.conf, Get(s, m.side), Get(s, y), m.action, Get(s0, m.side).node, Get(s0, y).node, k);
  }

  lemma {:induction false} FewerRun(states: seq<System>, moves: seq<Move>, i: nat, x: Side, k: Key)
    requires UneditedRun(states, moves) && Begins(states[0]) && i < |states|
    ensures LeftOver(states[i], x, k) <= LeftOver(states[0], x, k)
  {
    if i > 0 {
      FewerRun(states, moves, i - 1, x, k);
      CalmRun(states, moves, i - 1);
      assert Follows(states[i - 1], moves[i - 1], states[i]);
      NeverMore(states[0], states[i - 1], moves[i - 1], states[i], x, k);
    }
  }

  /** The marking steps that drain: the first one may end a cycle in which calls failed. */
  function Draining(marks: nat): nat { if marks > 0 then marks - 1 else 0 }

  /** How far the pending entries of `k` at `x` are down after `marks` marking steps. */
  ghost predicate DrainedBy(s0: System, s: System, marks: nat, x: Side, k: Key) {
    && (OnTrack(Get(s, x).phase) || marks == 0)
    && (LeftOver(s, x, k) == {} || |LeftOver(s, x, k)| + Draining(marks) <= |LeftOver(s0, x, k)|)
  }

  lemma DrainStart(s0: System, s: System, x: Side, k: Key)
    requires LeftOver(s, x, k) <= LeftOver(s0, x, k)
    ensures DrainedBy(s0, s, 0, x, k)
  {
    SubsetSize(LeftOver(s, x, k), LeftOver(s0, x, k));
  }

  lemma DrainMove(s0: System, s: System, m: Move, s': System, marks: nat, x: Side, k: Key)
    requires Begins(s0) && BothCalm(s0, s) && Follows(s, m, s') && QuietAction(m.action)
    requires DrainedBy(s0, s, marks, x, k)
    ensures DrainedBy(s0, s', marks + if m.side == x && m.action.Mark? then 1 else 0, x, k)
  {
    NeverMore(s0, s, m, s', x, k);
    SubsetSize(LeftOver(s', x, k), LeftOver(s, x, k));
    var me, peer := Get(s, m.side), Get(s, Other(m.side));
    OnTrackStep(s.conf, me, peer, m.action, Get(s0, m.side).node, Get(s0, Other(m.side)).node);
    if m.side == x && m.action.Mark? && marks > 0 {
      DrainMark(s0, s, m, s', x, k);
    }
  }

  lemma DrainAt(states: seq<System>, moves: seq<Move>, from: nat, i: nat, marks: nat, x: Side, k: Key)
    requires UneditedRun(states, moves) && Begins(states[0]) && QuietFrom(moves, from) && from <= i < |moves|
    requires DrainedBy(states[0], states[i], marks, x, k)
    ensures DrainedBy(states[0], states[i + 1], marks + if moves[i].side == x
        && moves[i].action.Mark? then 1 else 0, x, k)
  {
    CalmRun(states, moves, i);
    assert Follows(states[i], moves[i], states[i + 1]) && QuietAction(moves[i].action);
    DrainMove(states[0], states[i], moves[i], states[i + 1], marks, x, k);
  }

  lemma {:induction false} DrainRun(states: seq<System>, moves: seq<Move>, from: nat, i: nat, x: Side, k: Key)
    requires UneditedRun(states, moves) && Begins(states[0]) && QuietFrom(moves, from) && from <= i < |states|
    ensures DrainedBy(states[0], states[i], MarksBy(moves, from, i, x), x, k)
  {
    if i == from {
      FewerRun(states, moves, i, x, k);
      DrainStart(states[0], states[i], x, k);
    } else {
      DrainRun(states, moves, from, i - 1, x, k);
      DrainAt(states, moves, from, i - 1, MarksBy(moves, from, i - 1, x), x, k);
    }
  }

  /* ---- every cycle ends ---- */

  /** Progress within a cycle, counted so that the marking step closes a round. */
  function Position(phase: Phase, n: nat): int {
    match phase
    case Idle => 0
    case Fetched(_) => 1
    case Looping(_, _, todo, _, _) => 2 + n - |todo|
    case Marked(_, _) => -1
  }

  lemma SubsetSize<T>(a: set<T>, b: set<T>)
    requires a <= b
    ensures |a| <= |b|
  {
    assert b == a + (b - a);
  }

  lemma TodoBounded(s0: System, s: System, x: Side)
    requires Begins(s0) && BothCalm(s0, s) && Get(s, x).phase.Looping?
    ensures |Get(s, x).phase.todo| <= |Logged(s0)|
  {
    var ph := Get(s, x).phase;
    SnapshotKeysLogged(ph.local, Get(s0, x).node);
    SnapshotKeysLogged(ph.remote, Get(s0, Other(x)).node);
    SubsetSize(ph.todo, Logged(s0));
  }

  /** What one step gains, in units of which a marking step costs `w`. */
  function Gain(m: Move, x: Side, w: nat): int {
    if !Acts(m, x) then 0 else if m.action.Mark? then 1 - w else 1
  }

  lemma PaceMove(s0: System, s: System, m: Move, s': System, x: Side)
    requires Begins(s0) && BothCalm(s0, s) && BothCalm(s0, s') && Follows(s, m, s') && QuietAction(m.action)
    ensures var n := |Logged(s0)|;
      Position(Get(s', x).phase, n) >= Position(Get(s, x).phase, n) + Gain(m, x, n + 4)
  {
    if m.side == x && m.action.Read? {
      TodoBounded(s0, s', x);
    } else if m.action.Handle? {
      var me, peer := Get(s, m.side), Get(s, Other(m.side));
      CalmHandle(s.conf, me, peer, m.action.key, m.action.env, Get(s0, m.side).node, Get(s0, Other(m.side)).node);
    }
  }

  function PositionAt(states: seq<System>, i: nat, x: Side): int
    requires i < |states|
  {
    Position(Get(states[i], x).phase, |Logged(states[0])|)
  }

  lemma PaceAt(states: seq<System>, moves: seq<Move>, from: nat, i: nat, x: Side)
    requires UneditedRun(states, moves) && Begins(states[0]) && QuietFrom(moves, from) && from <= i < |moves|
    ensures PositionAt(states, i + 1, x) >= PositionAt(states, i, x) + Gain(moves[i], x, |Logged(states[0])| + 4)
  {
    CalmRun(states, moves, i);
    CalmRun(states, moves, i + 1);
    assert Follows(states[i], moves[i], states[i + 1]) && QuietAction(moves[i].action);
    PaceMove(states[0], states[i], moves[i], states[i + 1], x);
  }

  /** Going from position `p` to position `q`, the steps are paid for. */
  predicate Paced(moves: seq<Move>, from: nat, i: nat, x: Side, w: nat, p: int, q: int)
    requires i <= |moves|
  {
    StepsBy(moves, from, i, x) + p <= Owed(moves, from, i, x, w) + q
  }

  lemma PaceNext(states: seq<System>, moves: seq<Move>, from: nat, i: nat, x: Side)
    requires UneditedRun(states, moves) && Begins(states[0]) && QuietFrom(moves, from) && from <= i < |moves|
    requires Paced(moves, from, i, x, |Logged(states[0])| + 4, PositionAt(states, from, x), PositionAt(states, i, x))
    ensures Paced(moves, from, i + 1, x, |Logged(states[0])| + 4, PositionAt(states, from, x),
        PositionAt(states, i + 1, x))
  {
    PaceAt(states, moves, from, i, x);
    PaceAdds(moves, from, i, x, |Logged(states[0])| + 4, PositionAt(states, from, x), PositionAt(states, i, x),
        PositionAt(states, i + 1, x));
  }

  lemma PaceAdds(moves: seq<Move>, from: nat, i: nat, x: Side, w: nat, p: int, q: int, r: int)
    requires from <= i < |moves| && Paced(moves, from, i, x, w, p, q) && r >= q + Gain(moves[i], x, w)
    ensures Paced(moves, from, i + 1, x, w, p, r)
  {
  }

  /** What PaceNext carries on, at step `i`. */
  predicate PacedAt(states: seq<System>, moves: seq<Move>, from: nat, i: nat, x: Side)
    requires from < |states| && i < |states| && i <= |moves|
  {
    Paced(moves, from, i, x, |Logged(states[0])| + 4, PositionAt(states, from, x), PositionAt(states, i, x))
  }

  lemma {:induction false} PacedByInduction(states: seq<System>, moves: seq<Move>, from: nat, i: nat, x: Side)
    requires from <= i <= |moves| < |states| && PacedAt(states, moves, from, from, x)
    requires forall j: nat | from <= j < |moves| && PacedAt(states, moves, from, j, x) ::
               PacedAt(states, moves, from, j + 1, x)
    ensures PacedAt(states, moves, from, i, x)
  {
    if from < i {
      PacedByInduction(states, moves, from, i - 1, x);
    }
  }

  lemma PaceRun(states: seq<System>, moves: seq<Move>, from: nat, i: nat, x: Side)
    requires UneditedRun(states, moves) && Begins(states[0]) && QuietFrom(moves, from) && from <= i < |states|
    ensures Paced(moves, from, i, x, |Logged(states[0])| + 4, PositionAt(states, from, x), PositionAt(states, i, x))
  {
    assert PacedAt(states, moves, from, from, x);
    forall j: nat | from <= j < |moves| && PacedAt(states, moves, from, j, x)
      ensures PacedAt(states, moves, from, j + 1, x)
    {
      PaceNext(states, moves, from, j, x);
    }
    PacedByInduction(states, moves, from, i, x);
    assert PacedAt(states, moves, from, i, x);
  }

  /** `w` for every marking step. */
  function Owed(moves: seq<Move>, from: nat, i: nat, x: Side, w: nat): nat
    requires i <= |moves|
  {
    if i <= from then 0
    else Owed(moves, from, i - 1, x, w) + if moves[i - 1].side == x && moves[i - 1].action.Mark? then w else 0
  }

  lemma {:induction false} OwedIsProduct(moves: seq<Move>, from: nat, i: nat, x: Side, w: nat)
    requires i <= |moves|
    ensures Owed(moves, from, i, x, w) == MarksBy(moves, from, i, x) * w
  {
    if i > from {
      OwedIsProduct(moves, from, i - 1, x, w);
      var a := MarksBy(moves, from, i - 1, x);
      assert (a + 1) * w == a * w + w;
    }
  }

  lemma PositionBounds(s0: System, s: System, x: Side)
    requires Begins(s0) && BothCalm(s0, s)
    ensures -1 <= Position(Get(s, x).phase, |Logged(s0)|) <= |Logged(s0)| + 2
  {
    if Get(s, x).phase.Looping? {
      TodoBounded(s0, s, x);
    }
  }

  /** Steps without failures, from wherever the cycles are, complete cycles. */
  lemma RoundsDone(states: seq<System>, moves: seq<Move>, from: nat, i: nat, x: Side, rounds: nat)
    requires UneditedRun(states, moves) && Begins(states[0]) && QuietFrom(moves, from) && from <= i < |states|
    requires StepsBy(moves, from, i, x) >= rounds * (|Logged(states[0])| + 4)
    ensures MarksBy(moves, from, i, x) >= rounds
  {
    var n := |Logged(states[0])|;
    PaceRun(states, moves, from, i, x);
    CalmRun(states, moves, from);
    CalmRun(states, moves, i);
    PositionBounds(states[0], states[from], x);
    PositionBounds(states[0], states[i], x);
    OwedIsProduct(moves, from, i, x, n + 4);
    if MarksBy(moves, from, i, x) < rounds {
      NextMultiple(MarksBy(moves, from, i, x), rounds, n + 4);
    }
  }

  /* ---- there is a winner for every logged key ---- */

  /** No two unsynced entries of the two logs for one key share a stamp. */
  ghost predicate DistinctStamps(a: Node, b: Node) {
    forall i, j | IsUnsynced(a.rows, i) && IsUnsynced(b.rows, j) && a.rows[i].entry.key == b.rows[j].entry.key ::
      a.rows[i].entry.stamp != b.rows[j].entry.stamp
  }

  lemma {:induction false} NewestAmong(rows: Rows, ids: set<nat>) returns (top: nat)
    requires ids != {} && ids <= rows.Keys
    ensures top in ids && forall id | id in ids :: !Earlier(rows[top].entry.stamp, rows[id].entry.stamp)
  {
    var x :| x in ids;
    if ids == {x} {
      top := x;
    } else {
      top := NewestAmong(rows, ids - {x});
      if Earlier(rows[top].entry.stamp, rows[x].entry.stamp) {
        top := x;
      }
    }
  }

  lemma LoggedHasEntry(n: Node, k: Key)
    ensures k in LoggedKeys(n) <==> UnsyncedIds(n.rows, k) != {}
  {
    if UnsyncedIds(n.rows, k) != {} {
      var id :| id in UnsyncedIds(n.rows, k);
    } else {
      assert forall id | id in n.rows && !n.rows[id].synced && n.rows[id].entry.key == k :: id in UnsyncedIds(n.rows,
          k);
    }
  }

  lemma NothingLeft(n: Node, id: nat)
    requires LoggedKeys(n) == {}
    ensures !IsUnsynced(n.rows, id)
  {
    if id in n.rows {
      assert n.rows[id].entry.key in LoggedKeys(n) || n.rows[id].synced;
    }
  }

  /** Every logged key has a winner. */
  lemma WinnerExists(s: System, k: Key) returns (w: Side, top: nat)
    requires Begins(s) && k in Logged(s)
    requires s.conf.policy.Lww? ==> DistinctStamps(s.left.node, s.right.node)
    ensures Leads(s, k, w, top)
  {
    var ls, rs := LeftOver(s, Left, k), LeftOver(s, Right, k);
    LoggedHasEntry(s.left.node, k);
    LoggedHasEntry(s.right.node, k);
    if rs == {} {
      w := Left;
      top := NewestAmong(s.left.node.rows, ls);
      assert forall id | IsUnsynced(s.right.node.rows, id) :: s.right.node.rows[id].entry.key == k ==> id in rs;
    } else if ls == {} {
      w := Right;
      top := NewestAmong(s.right.node.rows, rs);
      assert forall id | IsUnsynced(s.left.node.rows, id) :: s.left.node.rows[id].entry.key == k ==> id in ls;
    } else {
      var l := NewestAmong(s.left.node.rows, ls);
      var r := NewestAmong(s.right.node.rows, rs);
      LexFlip(s.left.node.name, s.right.node.name);
      LexZero(s.left.node.name, s.right.node.name);
      assert IsUnsynced(s.left.node.rows, l) && IsUnsynced(s.right.node.rows, r);
      assert forall id | IsUnsynced(s.left.node.rows, id) :: s.left.node.rows[id].entry.key == k ==> id in ls;
      assert forall id | IsUnsynced(s.right.node.rows, id) :: s.right.node.rows[id].entry.key == k ==> id in rs;
      if s.conf.policy.Lww? {
        if Earlier(s.right.node.rows[r].entry.stamp, s.left.node.rows[l].entry.stamp) {
          w, top := Left, l;
        } else {
          w, top := Right, r;
        }
      } else if LexLess(s.left.node.name, s.right.node.name) {
        w, top := Left, l;
      } else {
        w, top := Right, r;
      }
    }
  }

  /** A key has one winner. */
  lemma WinnerUnique(s: System, k: Key, a: nat, b: nat)
    requires Leads(s, k, Left, a)
    ensures !Leads(s, k, Right, b)
  {
    LexFlip(s.left.node.name, s.right.node.name);
  }

  /* ---- the theorem ---- */

  /** Equal trees; on each logged path the file the winner had; both logs fully synced. */
  ghost predicate Converged(s0: System, s: System) {
    && s.left.node.tree == s.right.node.tree
    && (forall k, w: Side, top | Leads(s0, k, w, top) ::
          FileAt(s.left.node.tree, k) == FileAt(Get(s0, w).node.tree, k))
    && (forall k | k !in Logged(s0) :: FileAt(s.left.node.tree, k) == FileAt(s0.left.node.tree, k))
    && LoggedKeys(s.left.node) == {} && LoggedKeys(s.right.node) == {}
  }

  /** No key has more than `rounds` unsynced entries in one log. */
  ghost predicate AtMost(s: System, rounds: nat) {
    forall x: Side, k :: |LeftOver(s, x, k)| <= rounds
  }

  /** Both nodes took enough steps from `from` on for `rounds` cycles each. */
  ghost predicate Enough(s0: System, moves: seq<Move>, from: nat, i: nat, rounds: nat)
    requires i <= |moves|
  {
    forall x: Side :: StepsBy(moves, from, i, x) >= rounds * (|Logged(s0)| + 4)
  }

  lemma LogEmpty(states: seq<System>, moves: seq<Move>, from: nat, i: nat, rounds: nat, x: Side)
    requires UneditedRun(states, moves) && Begins(states[0]) && QuietFrom(moves, from) && from <= i < |states|
    requires AtMost(states[0], rounds) && Enough(states[0], moves, from, i, rounds + 1)
    ensures LoggedKeys(Get(states[i], x).node) == {}
  {
    RoundsDone(states, moves, from, i, x, rounds + 1);
    forall k ensures k !in LoggedKeys(Get(states[i], x).node) {
      DrainRun(states, moves, from, i, x, k);
      assert |LeftOver(states[0], x, k)| <= rounds;
      LoggedHasEntry(Get(states[i], x).node, k);
    }
  }

  lemma WinnerSpread(states: seq<System>, moves: seq<Move>, from: nat, i: nat, rounds: nat, k: Key, w: Side,
                     top: nat, y: Side)
    requires UneditedRun(states, moves) && Begins(states[0]) && QuietFrom(moves, from) && from <= i < |states|
    requires AtMost(states[0], rounds) && Enough(states[0], moves, from, i, rounds + 1)
    requires Leads(states[0], k, w, top)
    ensures FileAt(Get(states[i], y).node.tree, k) == FileAt(Get(states[0], w).node.tree, k)
  {
    LoserNeverFirst(states, moves, i, k, w, top);
    LogEmpty(states, moves, from, i, rounds, w);
    NothingLeft(Get(states[i], w).node, top);
  }

  /** From edit-only logs with any number of entries per path, under lww with distinct
      stamps or alpha_wins: whatever fails up to `from`, every interleaving in which both
      nodes take enough steps after it ends, and stays, with equal trees that hold each
      path's winner, and with empty logs. */
  lemma TreesConverge(states: seq<System>, moves: seq<Move>, from: nat, i: nat, rounds: nat)
    requires UneditedRun(states, moves) && Begins(states[0]) && QuietFrom(moves, from) && from <= i < |states|
    requires states[0].conf.policy.Lww? ==> DistinctStamps(states[0].left.node, states[0].right.node)
    requires AtMost(states[0], rounds) && Enough(states[0], moves, from, i, rounds + 1)
    ensures Converged(states[0], states[i])
  {
    var s0, s := states[0], states[i];
    LogEmpty(states, moves, from, i, rounds, Left);
    LogEmpty(states, moves, from, i, rounds, Right);
    forall k ensures FileAt(s.left.node.tree, k) == FileAt(s.right.node.tree, k) {
      if k in Logged(s0) {
        var w, top := WinnerExists(s0, k);
        WinnerSpread(states, moves, from, i, rounds, k, w, top, Left);
        WinnerSpread(states, moves, from, i, rounds, k, w, top, Right);
      } else {
        UnloggedUntouched(states, moves, i, k, Left);
        UnloggedUntouched(states, moves, i, k, Right);
      }
    }
    SameFiles(s.left.node.tree, s.right.node.tree);
    forall k, w: Side, top | Leads(s0, k, w, top)
      ensures FileAt(s.left.node.tree, k) == FileAt(Get(s0, w).node.tree, k)
    {
      WinnerSpread(states, moves, from, i, rounds, k, w, top, Left);
    }
    forall k | k !in Logged(s0) ensures FileAt(s.left.node.tree, k) == FileAt(s0.left.node.tree, k) {
      UnloggedUntouched(states, moves, i, k, Left);
    }
  }

  lemma SameFiles(a: Tree, b: Tree)
    requires forall k :: FileAt(a, k) == FileAt(b, k)
    ensures a == b
  {
    forall k ensures k in a <==> k in b {
      assert FileAt(a, k) == FileAt(b, k);
    }
    forall k | k in a ensures a[k] == b[k] {
      assert FileAt(a, k) == FileAt(b, k);
    }
  }
}
