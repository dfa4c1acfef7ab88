/** A keep_both run in which both cycles overlap: each node sees the other's edit, both move
    their own file away, and the path is left empty on both nodes
    (internal/reconciler/reconciler.go:133-175, internal/reconciler/conflict.go:68-81). */
module EmptiedPath {
  import opened Wrappers
  import opened Changelog
  import opened Conflict
  import opened Cycle
  import opened KeepBothPolicy
  import opened Protocol
  import opened OneCycle
  import opened BothCycles
  import opened KeepBothRuns

  const CONF: Settings := Settings(KeepBoth, ".bisync-conflicts")

  const NOW: Env := Env(true, true, true, "20260101T000000Z")

  function Older(k: Key): Entry { Entry(1, k, Modify, Stamp(0, 0), "a") }

  function Newer(k: Key): Entry { Entry(1, k, Modify, Stamp(1, 0), "b") }

  function Disputed(k: Key, fileA: Content, fileB: Content): Matter {
    var s := States(k, fileA, fileB)[0];
    Matter(k, Stand(s.left.node.rows, Older(k)), Stand(s.right.node.rows, Newer(k)))
  }

  /** The older entry is the loser on both nodes. */
  function AsideKey(k: Key): Key { Target(CONF, Older(k), NOW) }

  function NodeOf(e: Entry, k: Key, tree: Tree, synced: bool, acked: bool): Node {
    Node(e.node, {k.pair}, tree, map[1 := Row(e, synced, acked, "")], 2)
  }

  function Moves(k: Key): seq<Move> {
    var (a, b) := (map[k := Older(k)], map[k := Newer(k)]);
    [Move(Left, Fetch(b)), Move(Right, Fetch(a)), Move(Left, Read(a)), Move(Right, Read(b)),
     Move(Left, Handle(k, NOW)), Move(Right, Handle(k, NOW)), Move(Left, Mark(true)), Move(Right, Mark(true)),
     Move(Left, Ack(true)), Move(Right, Ack(true))]
  }

  function States(k: Key, fileA: Content, fileB: Content): seq<System> {
    var (a, b) := (map[k := Older(k)], map[k := Newer(k)]);
    var (l0, r0) := (NodeOf(Older(k), k, map[k := fileA], false, false),
        NodeOf(Newer(k), k, map[k := fileB], false, false));
    var (l1, r1) := (l0.(tree := map[AsideKey(k) := fileA]), r0.(tree := map[AsideKey(k) := fileB]));
    var (l2, r2) := (NodeOf(Older(k), k, l1.tree, true, false), NodeOf(Newer(k), k, r1.tree, true, false));
    var (l3, r3) := (NodeOf(Older(k), k, l1.tree, true, true), NodeOf(Newer(k), k, r1.tree, true, true));
    var (lf, rf) := (Daemon(l0, {}, Fetched(b)), Daemon(r0, {}, Fetched(a)));
    var (ll, rl) := (Daemon(l0, {}, Looping(b, a, {k}, {}, {})), Daemon(r0, {}, Looping(a, b, {k}, {}, {})));
    var (lh, rh) := (Daemon(l1, {}, Looping(b, a, {}, {1}, {1})), Daemon(r1, {}, Looping(a, b, {}, {1}, {1})));
    var (lm, rm) := (Daemon(l2, {}, Marked(b, {1})), Daemon(r2, {}, Marked(a, {1})));
    [System(CONF, Daemon(l0, {}, Idle), Daemon(r0, {}, Idle)), System(CONF, lf, Daemon(r0, {}, Idle)),
     System(CONF, lf, rf), System(CONF, ll, rf), System(CONF, ll, rl), System(CONF, lh, rl), System(CONF, lh, rh),
     System(CONF, lm, rh), System(CONF, lm, rm),
     System(CONF, Daemon(l2, {}, Idle), rm.(node := r3)), System(CONF, Daemon(l3, {}, Idle), Daemon(r3, {}, Idle))]
  }

  lemma MoveOne(k: Key, loser: Entry, file: Content)
    requires loser.key == k
    ensures Target(CONF, loser, NOW) != k
    ensures Evacuate(CONF, map[k := file], loser, NOW) == (map[Target(CONF, loser, NOW) := file], true)
  {
    TargetElsewhere(CONF, loser, NOW);
    assert map[k := file] - {k} == map[];
  }

  lemma FirstHalf(k: Key, fileA: Content, fileB: Content, i: nat)
    requires i < 4
    ensures Follows(States(k, fileA, fileB)[i], Moves(k)[i], States(k, fileA, fileB)[i + 1])
  {
    var (a, b) := (map[k := Older(k)], map[k := Newer(k)]);
    assert a.Keys + b.Keys == {k} && b.Keys + a.Keys == {k};
  }

  lemma Turns(k: Key, fileA: Content, fileB: Content, i: nat)
    requires 4 <= i < 6
    ensures Follows(States(k, fileA, fileB)[i], Moves(k)[i], States(k, fileA, fileB)[i + 1])
  {
    MoveOne(k, Older(k), fileA);
    MoveOne(k, Older(k), fileB);
    assert {k} - {k} == {} && {} + {1} == {1};
  }

  lemma LastHalf(k: Key, fileA: Content, fileB: Content, i: nat)
    requires 6 <= i < 10
    ensures Follows(States(k, fileA, fileB)[i], Moves(k)[i], States(k, fileA, fileB)[i + 1])
  {
    MarkOnly(1, Row(Older(k), false, false, ""));
    MarkOnly(1, Row(Newer(k), false, false, ""));
    MarkOnly(1, Row(Older(k), true, false, ""));
    MarkOnly(1, Row(Newer(k), true, false, ""));
  }

  lemma CleanMoves(k: Key, i: nat)
    requires i < 10
    ensures CleanFor(Moves(k)[i].action, k) && !Moves(k)[i].action.Prune?
    ensures Moves(k)[i].action.Fetch? ==> !HasFetched(Moves(k), i, Moves(k)[i].side)
  {
  }

  lemma StartsDisputed(k: Key, fileA: Content, fileB: Content)
    requires Apart(CONF, k)
    ensures Starts(States(k, fileA, fileB)[0], Disputed(k, fileA, fileB))
  {
  }

  lemma BothFetch(k: Key, fileA: Content, fileB: Content)
    ensures Finished(States(k, fileA, fileB), Moves(k))
  {
    assert Moves(k)[0].side == Left && Moves(k)[0].action.Fetch?;
    assert Moves(k)[1].side == Right && Moves(k)[1].action.Fetch?;
  }

  /** One clean cycle of each node on a path outside the conflict directory, and the path is
      empty on both nodes although the right node's write was the last. */
  lemma PathCanEmpty(k: Key, fileA: Content, fileB: Content)
    requires Apart(CONF, k)
    ensures var states, m := States(k, fileA, fileB), Disputed(k, fileA, fileB);
      && EditEditRun(states, Moves(k), m, UNREAD) && FilesIn(states[0], k) == (Some(fileA), Some(fileB))
      && Earlier(m.left.top.stamp, m.right.top.stamp)
      && FilesIn(states[10], k) == (None, None)
  {
    TargetElsewhere(CONF, Older(k), NOW);
    forall i | 0 <= i < 10
      ensures Follows(States(k, fileA, fileB)[i], Moves(k)[i], States(k, fileA, fileB)[i + 1])
      ensures CleanFor(Moves(k)[i].action, k) && !Moves(k)[i].action.Prune?
      ensures Moves(k)[i].action.Fetch? ==> !HasFetched(Moves(k), i, Moves(k)[i].side)
    {
      CleanMoves(k, i);
      if i < 4 { FirstHalf(k, fileA, fileB, i); } else if i < 6 { Turns(k, fileA, fileB, i); }
          else { LastHalf(k, fileA, fileB, i); }
    }
    OneFetchSuffices(Moves(k), k);
    StartsDisputed(k, fileA, fileB);
    BothFetch(k, fileA, fileB);
    WholeCycles(States(k, fileA, fileB), Moves(k), Disputed(k, fileA, fileB));
  }
}
