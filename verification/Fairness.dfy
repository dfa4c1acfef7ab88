/** Convergence over infinite runs: of the interleaving only fairness is asked, and of the
    calls and marking steps only that they do not fail for ever. */
module Fairness {
  import opened Changelog
  import opened Cycle
  import opened Protocol
  import opened Quiet
  import opened WinnerFirst
  import opened Convergence

  ghost predicate InfiniteRun(st: nat -> System, mv: nat -> Move) {
    forall i: nat :: Follows(st(i), mv(i), st(i + 1)) && Unedited(mv(i).action)
  }

  /** Nothing fails from step `from` on. */
  ghost predicate Recovers(mv: nat -> Move, from: nat) {
    forall i: nat | from <= i :: QuietAction(mv(i).action)
  }

  /** Side `x` takes a step of its cycle at step `j`, no earlier than `i`. */
  ghost predicate MovesAt(mv: nat -> Move, x: Side, i: nat, j: nat) {
    i <= j && Acts(mv(j), x)
  }

  ghost predicate MovesAgain(mv: nat -> Move, x: Side, i: nat) {
    exists j: nat :: MovesAt(mv, x, i, j)
  }

  /** Neither node stops for good. */
  ghost predicate Fair(mv: nat -> Move) {
    forall x: Side, i: nat :: MovesAgain(mv, x, i)
  }

  function States(st: nat -> System, n: nat): seq<System> { seq(n + 1, i requires 0 <= i => st(i)) }

  function Moves(mv: nat -> Move, n: nat): seq<Move> { seq(n, i requires 0 <= i => mv(i)) }

  function Turns(mv: nat -> Move, from: nat, i: nat, x: Side): nat {
    if i <= from then 0 else Turns(mv, from, i - 1, x) + if Acts(mv(i - 1), x) then 1 else 0
  }

  lemma {:induction false} TurnsAreSteps(mv: nat -> Move, from: nat, n: nat, i: nat, x: Side)
    requires i <= n
    ensures StepsBy(Moves(mv, n), from, i, x) == Turns(mv, from, i, x)
  {
    if i > from {
      TurnsAreSteps(mv, from, n, i - 1, x);
    }
  }

  lemma {:induction false} TurnsGrow(mv: nat -> Move, from: nat, i: nat, j: nat, x: Side)
    requires i <= j
    ensures Turns(mv, from, i, x) <= Turns(mv, from, j, x)
  {
    if i < j {
      TurnsGrow(mv, from, i, j - 1, x);
    }
  }

  lemma {:induction false} TurnsUnbounded(mv: nat -> Move, from: nat, x: Side, goal: nat) returns (n: nat)
    requires Fair(mv)
    ensures from <= n && Turns(mv, from, n, x) >= goal
  {
    if goal == 0 {
      n := from;
    } else {
      var m := TurnsUnbounded(mv, from, x, goal - 1);
      assert MovesAgain(mv, x, m);
      var j: nat :| MovesAt(mv, x, m, j);
      TurnsGrow(mv, from, m, j, x);
      n := j + 1;
    }
  }

  lemma EntryBound(n: Node, k: Key)
    ensures |UnsyncedIds(n.rows, k)| <= |n.rows.Keys|
  {
    SubsetSize(UnsyncedIds(n.rows, k), n.rows.Keys);
  }

  lemma PrefixIsRun(st: nat -> System, mv: nat -> Move, n: nat)
    requires InfiniteRun(st, mv)
    ensures UneditedRun(States(st, n), Moves(mv, n))
  {
    var states, moves := States(st, n), Moves(mv, n);
    forall i | 0 <= i < n ensures Follows(states[i], moves[i], states[i + 1]) && Unedited(moves[i].action) {
      assert Follows(st(i), mv(i), st(i + 1));
    }
  }

  /** The number of steps that makes up `rounds` cycles and the rest of one under way. */
  function Goal(s: System, rounds: nat): nat { (rounds + 1) * (|Logged(s)| + 4) }

  ghost predicate GoodStart(s: System) {
    Begins(s) && (s.conf.policy.Lww? ==> DistinctStamps(s.left.node, s.right.node))
  }

  /** The state at step `i` of an infinite run is converged once both nodes have moved
      often enough without failures. */
  lemma ConvergedAt(st: nat -> System, mv: nat -> Move, from: nat, i: nat, rounds: nat)
    requires InfiniteRun(st, mv) && Recovers(mv, from) && from <= i && GoodStart(st(0)) && AtMost(st(0), rounds)
    requires forall x: Side :: Turns(mv, from, i, x) >= Goal(st(0), rounds)
    ensures Converged(st(0), st(i))
  {
    PrefixIsRun(st, mv, i);
    var states, moves := States(st, i), Moves(mv, i);
    assert states[0] == st(0) && states[i] == st(i);
    forall x: Side ensures StepsBy(moves, from, i, x) >= (rounds + 1) * (|Logged(st(0))| + 4) {
      TurnsAreSteps(mv, from, i, i, x);
    }
    TreesConverge(states, moves, from, i, rounds);
  }

  lemma RowsBound(s: System)
    ensures AtMost(s, |s.left.node.rows.Keys| + |s.right.node.rows.Keys|)
  {
    forall x: Side, k ensures |LeftOver(s, x, k)| <= |s.left.node.rows.Keys| + |s.right.node.rows.Keys| {
      EntryBound(Get(s, x).node, k);
    }
  }

  /** Every fair run of the two nodes' cycles in which each call and each marking step fails
      only finitely often reaches, and never leaves, equal trees with the policy winners'
      files and empty logs. */
  lemma FairRunsConverge(st: nat -> System, mv: nat -> Move, from: nat) returns (n: nat)
    requires InfiniteRun(st, mv) && Fair(mv) && Recovers(mv, from) && GoodStart(st(0))
    ensures forall i: nat | n <= i :: Converged(st(0), st(i))
  {
    var rounds := |st(0).left.node.rows.Keys| + |st(0).right.node.rows.Keys|;
    RowsBound(st(0));
    var l := TurnsUnbounded(mv, from, Left, Goal(st(0), rounds));
    var r := TurnsUnbounded(mv, from, Right, Goal(st(0), rounds));
    n := l + r;
    forall i: nat | n <= i ensures Converged(st(0), st(i)) {
      forall x: Side ensures Turns(mv, from, i, x) >= Goal(st(0), rounds) {
        TurnsGrow(mv, from, if x.Left? then l else r, i, x);
      }
      ConvergedAt(st, mv, from, i, rounds);
    }
  }

  /** In every state each node has a step to take. */
  lemma NeverStuck(me: Daemon, peer: Daemon) returns (a: Action)
    requires ValidNode(me.node) && ValidNode(peer.node)
    ensures Can(me, peer, a) && QuietAction(a) && !a.Prune?
  {
    match me.phase {
      case Idle => a := Fetch(SomeNewest(peer.node.rows));
      case Fetched(_) => a := Read(SomeNewest(me.node.rows));
      case Looping(_, _, todo, _, _) =>
        if todo == {} {
          a := Mark(true);
        } else {
          var k :| k in todo;
          a := Handle(k, ALL_GOOD);
        }
      case Marked(_, _) => a := Ack(true);
    }
  }

  lemma SomeStep(me: Daemon, peer: Daemon)
    requires ValidNode(me.node) && ValidNode(peer.node)
    ensures exists a: Action :: Can(me, peer, a) && QuietAction(a) && !a.Prune?
  {
    var a := NeverStuck(me, peer);
  }

  ghost function NextStep(me: Daemon, peer: Daemon): (a: Action)
    requires ValidNode(me.node) && ValidNode(peer.node)
    ensures Can(me, peer, a) && QuietAction(a) && !a.Prune?
  {
    SomeStep(me, peer);
    var a: Action :| Can(me, peer, a) && QuietAction(a) && !a.Prune?;
    a
  }

  /** The two nodes in turn. */
  function SideAt(n: nat): Side { if n % 2 == 0 then Left else Right }

  ghost function NextMove(s: System, n: nat): (m: Move)
    requires ValidSystem(s)
    ensures Enabled(s, m) && QuietAction(m.action) && Acts(m, SideAt(n))
  {
    Move(SideAt(n), NextStep(Get(s, SideAt(n)), Get(s, Other(SideAt(n)))))
  }

  ghost function After(s: System, n: nat): (s': System)
    requires ValidSystem(s)
    ensures ValidSystem(s')
  {
    if n == 0 then s
    else
      var t := After(s, n - 1);
      var m := NextMove(t, n - 1);
      StepKeepsValid(t.conf, Get(t, m.side), Get(t, Other(m.side)), m.action);
      Apply(t, m)
  }

  lemma InTurnIsFair(mv: nat -> Move)
    requires forall n: nat :: Acts(mv(n), SideAt(n))
    ensures Fair(mv)
  {
    forall x: Side, i: nat ensures MovesAgain(mv, x, i) {
      var j := if SideAt(i) == x then i else i + 1;
      assert SideAt(j) == x && Acts(mv(j), SideAt(j));
      assert MovesAt(mv, x, i, j);
    }
  }

  predicate ActsInTurn(mv: nat -> Move, n: nat) { QuietAction(mv(n).action) && Acts(mv(n), SideAt(n)) }

  ghost predicate FollowsAt(st: nat -> System, mv: nat -> Move, n: nat) { Follows(st(n), mv(n), st(n + 1)) }

  lemma StepsAreRun(st: nat -> System, mv: nat -> Move)
    requires forall n: nat :: FollowsAt(st, mv, n)
    requires forall n: nat :: ActsInTurn(mv, n)
    ensures InfiniteRun(st, mv) && Fair(mv) && Recovers(mv, 0)
  {
    forall i: nat ensures Follows(st(i), mv(i), st(i + 1)) && QuietAction(mv(i).action) && Acts(mv(i), SideAt(i)) {
      assert FollowsAt(st, mv, i) && ActsInTurn(mv, i);
    }
    InTurnIsFair(mv);
  }

  /** From every good start there is a fair run in which nothing ever fails. */
  lemma FairRunExists(s: System) returns (st: nat -> System, mv: nat -> Move)
    requires GoodStart(s)
    ensures st(0) == s && InfiniteRun(st, mv) && Fair(mv) && Recovers(mv, 0)
  {
    assert ValidSystem(s);
    st := (n: nat) => After(s, n);
    mv := (n: nat) => NextMove(After(s, n), n);
    forall n: nat ensures FollowsAt(st, mv, n) {
    }
    forall n: nat ensures ActsInTurn(mv, n) {
      assert mv(n) == NextMove(After(s, n), n);
    }
    StepsAreRun(st, mv);
  }

  lemma NewestExists(rows: Rows, k: Key)
    requires UnsyncedIds(rows, k) != {}
    ensures exists id :: IsTop(rows, k, id)
  {
    var top := NewestAmong(rows, UnsyncedIds(rows, k));
    assert IsTop(rows, k, top);
  }

  ghost predicate IsTop(rows: Rows, k: Key, id: nat) {
    id in UnsyncedIds(rows, k) && forall j | j in UnsyncedIds(rows, k) :: !Earlier(rows[id].entry.stamp,
        rows[j].entry.stamp)
  }

  ghost function Tops(rows: Rows): map<Key, Entry> {
    var keys := set id | id in rows && !rows[id].synced :: rows[id].entry.key;
    map k | k in keys && UnsyncedIds(rows, k) != {} :: rows[TopOf(rows, k)].entry
  }

  lemma NewestOfTops(rows: Rows)
    requires forall id | id in rows :: rows[id].entry.id == id
    ensures NewestUnsynced(Tops(rows), rows)
  {
    forall id | IsUnsynced(rows, id) ensures rows[id].entry.key in Tops(rows) {
      assert id in UnsyncedIds(rows, rows[id].entry.key);
    }
  }

  /** A newest-entry snapshot of any log. */
  ghost function SomeNewest(rows: Rows): (m: map<Key, Entry>)
    requires forall id | id in rows :: rows[id].entry.id == id
    ensures NewestUnsynced(m, rows)
  {
    NewestOfTops(rows);
    Tops(rows)
  }

  ghost function TopOf(rows: Rows, k: Key): (id: nat)
    requires UnsyncedIds(rows, k) != {}
    ensures IsTop(rows, k, id)
  {
    NewestExists(rows, k);
    var id :| IsTop(rows, k, id);
    id
  }
}
