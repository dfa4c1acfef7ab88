/** A run in which the editing node finishes its cycle before the deleting node fetches:
    the edit is removed from the node that made it. It shows that the condition on what the
    deleting node saw cannot be dropped (internal/reconciler/reconciler.go:118-131,
    internal/grpc/server.go:118-125). */
module EditLoss {
  import opened Wrappers
  import opened Changelog
  import opened Conflict
  import opened Cycle
  import opened Protocol
  import opened CycleRuns
  import opened SingleCycles
  import opened OneCycle
  import opened BothCycles
  import opened DeleteModify
  import opened Dormant

  function Deletion(k: Key): Entry { Entry(1, k, Delete, Stamp(0, 0), "a") }

  function Edit(k: Key): Entry { Entry(1, k, Modify, Stamp(1, 0), "b") }

  const CONF: Settings := Settings(Lww, ".bisync-conflicts")

  function Deleter(k: Key, tree: Tree, synced: bool, acked: bool): Daemon {
    Daemon(Node("a", {k.pair}, tree, map[1 := Row(Deletion(k), synced, acked, "")], 2), {}, Idle)
  }

  function Editor(k: Key, tree: Tree, synced: bool): Daemon {
    Daemon(Node("b", {k.pair}, tree, map[1 := Row(Edit(k), synced, false, "")], 2), {}, Idle)
  }

  function Start(k: Key, file: Content): System {
    System(CONF, Deleter(k, map[], false, false), Editor(k, map[k := file], false))
  }

  function Between(k: Key, file: Content): System {
    System(CONF, Deleter(k, map[k := file], false, true), Editor(k, map[k := file], true))
  }

  function End(k: Key, file: Content): System {
    System(CONF, Deleter(k, map[k := file], true, true), Editor(k, map[], true))
  }

  /** The editor's cycle first, then the deleter's. */
  function First(k: Key): Attempt { Single(Right, k, map[k := Edit(k)], map[k := Deletion(k)]) }

  function Second(k: Key): Attempt { Single(Left, k, map[k := Deletion(k)], map[]) }

  function Moves(k: Key): seq<Move> { CycleMoves(First(k)) + CycleMoves(Second(k)) }

  function States(k: Key, file: Content): seq<System> {
    CycleStates(Start(k, file), First(k))[..5] + CycleStates(Between(k, file), Second(k))
  }

  lemma FirstTurn(k: Key, file: Content)
    ensures TurnOn(Start(k, file), First(k), k)
            == Pass(Start(k, file).right.node, Start(k, file).left.node.(tree := map[k := file]), {}, {1}, {1})
  {
    assert map[][k := file] == map[k := file];
  }

  lemma SecondTurn(k: Key, file: Content)
    ensures TurnOn(Between(k, file), Second(k), k)
            == Pass(Between(k, file).left.node, Between(k, file).right.node.(tree := map[]), {}, {1}, {})
  {
    assert map[k := file] - {k} == map[];
  }

  lemma FirstRuns(k: Key, file: Content)
    ensures IsRun(CycleStates(Start(k, file), First(k)), CycleMoves(First(k)))
    ensures CycleStates(Start(k, file), First(k))[5] == Between(k, file)
  {
    FirstTurn(k, file);
    SingleCycle(Start(k, file), Right, k, map[k := Edit(k)], map[k := Deletion(k)]);
    MarkOnly(1, Row(Deletion(k), false, false, ""));
    MarkOnly(1, Row(Edit(k), false, false, ""));
  }

  lemma SecondRuns(k: Key, file: Content)
    ensures IsRun(CycleStates(Between(k, file), Second(k)), CycleMoves(Second(k)))
    ensures CycleStates(Between(k, file), Second(k))[5] == End(k, file)
  {
    SecondTurn(k, file);
    SingleCycle(Between(k, file), Left, k, map[k := Deletion(k)], map[]);
    MarkOnly(1, Row(Deletion(k), false, true, ""));
    MarkOnly(1, Row(Edit(k), true, false, ""));
  }

  function Opposed(k: Key, file: Content): Matter {
    Matter(k, Stand(Start(k, file).left.node.rows, Deletion(k)), Stand(Start(k, file).right.node.rows, Edit(k)))
  }

  lemma StartsOpposed(k: Key, file: Content)
    ensures Starts(Start(k, file), Opposed(k, file))
  {
  }

  lemma EndIsDormant(k: Key, file: Content)
    ensures IsDormant(End(k, file), k) && FilesIn(End(k, file), k) == (Some(file), None)
  {
  }

  /** After one clean cycle of each node the deleting node has the edited file, and the
      node that edited it has lost it; nothing is pending any more. */
  lemma EditCanBeLost(k: Key, file: Content)
    ensures DeleteEditRun(States(k, file), Moves(k), Opposed(k, file), UNREAD, Left)
    ensures FilesIn(States(k, file)[0], k) == (None, Some(file))
    ensures var last := States(k, file)[|Moves(k)|]; IsDormant(last, k) && FilesIn(last, k) == (Some(file), None)
  {
    FirstRuns(k, file);
    SecondRuns(k, file);
    TwoCycles(Start(k, file), First(k), Between(k, file), Second(k), k);
    StartsOpposed(k, file);
    WholeCycles(States(k, file), Moves(k), Opposed(k, file));
    assert States(k, file)[10] == End(k, file);
    EndIsDormant(k, file);
  }
}
