/** A run in which the deleting node still has an older edit pending under its delete: the
    editing node's cycle sees that edit, lww gives way to it, and the editing node's file is
    never sent. Nothing is pending in the end, and the trees differ
    (internal/reconciler/reconciler.go:133-175, internal/reconciler/conflict.go:89-94). */
module EditHeldBack {
  import opened Wrappers
  import opened Changelog
  import opened Conflict
  import opened Cycle
  import opened Protocol
  import opened CycleRuns
  import opened SingleCycles
  import opened OneCycle
  import opened BothCycles
  import opened DeleteModify
  import opened Dormant

  function Underneath(k: Key): Entry { Entry(1, k, Modify, Stamp(5, 0), "a") }

  function Deletion(k: Key): Entry { Entry(2, k, Delete, Stamp(6, 0), "a") }

  function Edit(k: Key): Entry { Entry(1, k, Modify, Stamp(1, 0), "b") }

  const CONF: Settings := Settings(Lww, ".bisync-conflicts")

  /** The deleter: the flags of the older edit and of the delete. */
  function Deleter(k: Key, synced: bool, acked: bool, deleteSynced: bool): Daemon {
    var older, top := Row(Underneath(k), synced, acked, ""), Row(Deletion(k), deleteSynced, false, "");
    Daemon(Node("a", {k.pair}, map[], map[1 := older, 2 := top], 3), {}, Idle)
  }

  function Editor(k: Key, file: Content, synced: bool, acked: bool): Daemon {
    Daemon(Node("b", {k.pair}, map[k := file], map[1 := Row(Edit(k), synced, acked, "")], 2), {}, Idle)
  }

  function Start(k: Key, file: Content): System {
    System(CONF, Deleter(k, false, false, false), Editor(k, file, false, false))
  }

  function AfterFirst(k: Key, file: Content): System {
    System(CONF, Deleter(k, false, false, true), Editor(k, file, false, true))
  }

  function AfterSecond(k: Key, file: Content): System {
    System(CONF, Deleter(k, false, true, true), Editor(k, file, true, true))
  }

  function End(k: Key, file: Content): System {
    System(CONF, Deleter(k, true, true, true), Editor(k, file, true, true))
  }

  /** The deleter's cycle, the editor's, and the deleter's second. */
  function First(k: Key): Attempt { Single(Left, k, map[k := Deletion(k)], map[k := Edit(k)]) }

  function Second(k: Key): Attempt { Single(Right, k, map[k := Edit(k)], map[k := Underneath(k)]) }

  function Third(k: Key): Attempt { Single(Left, k, map[k := Underneath(k)], map[]) }

  lemma Snapshots(k: Key, file: Content)
    ensures NewestUnsynced(map[k := Deletion(k)], Start(k, file).left.node.rows)
    ensures NewestUnsynced(map[k := Edit(k)], Start(k, file).right.node.rows)
    ensures NewestUnsynced(map[k := Edit(k)], AfterFirst(k, file).right.node.rows)
    ensures NewestUnsynced(map[k := Underneath(k)], AfterFirst(k, file).left.node.rows)
    ensures NewestUnsynced(map[k := Underneath(k)], AfterSecond(k, file).left.node.rows)
    ensures NewestUnsynced(map[], AfterSecond(k, file).right.node.rows)
  {
  }

  lemma Flags(k: Key, file: Content)
    ensures MarkSynced(Deleter(k, false, false, false).node.rows, {2}) == Deleter(k, false, false, true).node.rows
    ensures MarkPeerAck(Deleter(k, false, false, true).node.rows, {1}) == Deleter(k, false, true, true).node.rows
    ensures MarkSynced(Deleter(k, false, true, true).node.rows, {1}) == Deleter(k, true, true, true).node.rows
    ensures MarkPeerAck(Editor(k, file, false, false).node.rows, {1}) == Editor(k, file, false, true).node.rows
    ensures MarkSynced(Editor(k, file, false, true).node.rows, {1}) == Editor(k, file, true, true).node.rows
    ensures MarkPeerAck(Editor(k, file, true, true).node.rows, {}) == Editor(k, file, true, true).node.rows
  {
  }

  lemma FirstTurn(k: Key, file: Content)
    ensures TurnOn(Start(k, file), First(k), k)
            == Pass(Start(k, file).left.node, Start(k, file).right.node, {}, {2}, {1})
  {
  }

  lemma SecondTurn(k: Key, file: Content)
    ensures TurnOn(AfterFirst(k, file), Second(k), k)
            == Pass(AfterFirst(k, file).right.node, AfterFirst(k, file).left.node, {}, {1}, {1})
  {
  }

  lemma ThirdTurn(k: Key, file: Content)
    ensures TurnOn(AfterSecond(k, file), Third(k), k)
            == Pass(AfterSecond(k, file).left.node, AfterSecond(k, file).right.node, {}, {1}, {})
  {
  }

  lemma FirstRuns(k: Key, file: Content)
    ensures IsRun(CycleStates(Start(k, file), First(k)), CycleMoves(First(k)))
    ensures CycleStates(Start(k, file), First(k))[5] == AfterFirst(k, file)
  {
    Snapshots(k, file);
    FirstTurn(k, file);
    SingleCycle(Start(k, file), Left, k, map[k := Deletion(k)], map[k := Edit(k)]);
    Flags(k, file);
  }

  lemma SecondRuns(k: Key, file: Content)
    ensures IsRun(CycleStates(AfterFirst(k, file), Second(k)), CycleMoves(Second(k)))
    ensures CycleStates(AfterFirst(k, file), Second(k))[5] == AfterSecond(k, file)
  {
    Snapshots(k, file);
    SecondTurn(k, file);
    SingleCycle(AfterFirst(k, file), Right, k, map[k := Edit(k)], map[k := Underneath(k)]);
    Flags(k, file);
  }

  lemma ThirdRuns(k: Key, file: Content)
    ensures IsRun(CycleStates(AfterSecond(k, file), Third(k)), CycleMoves(Third(k)))
    ensures CycleStates(AfterSecond(k, file), Third(k))[5] == End(k, file)
  {
    Snapshots(k, file);
    ThirdTurn(k, file);
    SingleCycle(AfterSecond(k, file), Left, k, map[k := Underneath(k)], map[]);
    Flags(k, file);
  }

  /** The first two cycles. */
  function Moves(k: Key): seq<Move> { CycleMoves(First(k)) + CycleMoves(Second(k)) }

  function States(k: Key, file: Content): seq<System> {
    CycleStates(Start(k, file), First(k))[..5] + CycleStates(AfterFirst(k, file), Second(k))
  }

  function Opposed(k: Key, file: Content): Matter {
    Matter(k, Stand(Start(k, file).left.node.rows, Deletion(k)), Stand(Start(k, file).right.node.rows, Edit(k)))
  }

  lemma StartsOpposed(k: Key, file: Content)
    ensures Starts(Start(k, file), Opposed(k, file))
  {
  }

  lemma OneCycleOfEach(k: Key, file: Content)
    ensures DeleteEditRun(States(k, file), Moves(k), Opposed(k, file), UNREAD, Left)
    ensures States(k, file)[|Moves(k)|] == AfterSecond(k, file)
  {
    FirstRuns(k, file);
    SecondRuns(k, file);
    TwoCycles(Start(k, file), First(k), AfterFirst(k, file), Second(k), k);
    StartsOpposed(k, file);
    WholeCycles(States(k, file), Moves(k), Opposed(k, file));
    assert States(k, file)[10] == AfterSecond(k, file);
  }

  lemma EndIsDormant(k: Key, file: Content)
    ensures IsDormant(End(k, file), k) && FilesIn(End(k, file), k) == (None, Some(file))
  {
  }

  /** One clean cycle of each node and a second one of the deleter: nothing is pending on
      either node any more, and the edited file is on the editor only. */
  lemma EditCanBeHeldBack(k: Key, file: Content)
    ensures DeleteEditRun(States(k, file), Moves(k), Opposed(k, file), UNREAD, Left)
    ensures var last, more := States(k, file)[|Moves(k)|], CycleMoves(Third(k));
      && IsRun(CycleStates(last, Third(k)), more) && CycleStates(last, Third(k))[0] == last
      && CycleStates(last, Third(k))[|more|] == End(k, file)
    ensures IsDormant(End(k, file), k) && FilesIn(End(k, file), k) == (None, Some(file))
  {
    OneCycleOfEach(k, file);
    ThirdRuns(k, file);
    EndIsDormant(k, file);
  }
}
