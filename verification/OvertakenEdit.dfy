/** A run with edits only: a node pushes its edit; before it marks, the peer edits the file it
    got and runs a cycle; alpha_wins prefers the pushed entry, so the later edit is settled
    unsent. Nothing is pending in the end, and the trees differ for good
    (internal/reconciler/reconciler.go:114-182, internal/reconciler/conflict.go:96-102). */
module OvertakenEdit {
  import opened Wrappers
  import opened Changelog
  import opened Conflict
  import opened Cycle
  import opened Text
  import opened Protocol
  import opened CycleRuns
  import opened SingleCycles
  import opened OneCycle
  import opened BothCycles
  import opened LateEdit
  import opened Dormant

  function Pushed(k: Key): Entry { Entry(1, k, Modify, Stamp(0, 0), "a") }

  function Later(k: Key): Entry { Entry(1, k, Modify, Stamp(1, 0), "b") }

  const CONF: Settings := Settings(AlphaWins, ".bisync-conflicts")

  function Pusher(k: Key, file: Content, synced: bool, acked: bool, phase: Phase): Daemon {
    Daemon(Node("a", {k.pair}, map[k := file], map[1 := Row(Pushed(k), synced, acked, "")], 2), {}, phase)
  }

  function Before(k: Key, tree: Tree): Daemon { Daemon(Node("b", {k.pair}, tree, map[], 1), {}, Idle) }

  function Editor(k: Key, file: Content, synced: bool): Daemon {
    Daemon(Node("b", {k.pair}, map[k := file], map[1 := Row(Later(k), synced, false, "")], 2), {}, Idle)
  }

  function Working(k: Key, todo: set<Key>, marks: set<nat>): Phase {
    Looping(map[], map[k := Pushed(k)], todo, marks, {})
  }

  /** The push, the edit and its entry in the log. */
  function PushMoves(k: Key, file: Content): seq<Move> {
    [Move(Right, Fetch(map[])), Move(Right, Read(map[k := Pushed(k)])), Move(Right, Handle(k, ALL_GOOD)),
     Move(Left, Touch(k, Some(file))), Move(Left, Log(k, Modify, Stamp(1, 0), ""))]
  }

  function PushStates(k: Key, pushed: Content, file: Content): seq<System> {
    var there := map[k := pushed];
    [System(CONF, Before(k, map[]), Pusher(k, pushed, false, false, Idle)),
     System(CONF, Before(k, map[]), Pusher(k, pushed, false, false, Fetched(map[]))),
     System(CONF, Before(k, map[]), Pusher(k, pushed, false, false, Working(k, {k}, {}))),
     System(CONF, Before(k, there), Pusher(k, pushed, false, false, Working(k, {}, {1}))),
     System(CONF, Before(k, map[k := file]), Pusher(k, pushed, false, false, Working(k, {}, {1}))),
     Overtaken(k, pushed, file)]
  }

  function Overtaken(k: Key, pushed: Content, file: Content): System {
    System(CONF, Editor(k, file, false), Pusher(k, pushed, false, false, Working(k, {}, {1})))
  }

  /** The editor's cycle. */
  function EditorsCycle(k: Key): Attempt { Single(Left, k, map[k := Later(k)], map[k := Pushed(k)]) }

  function AfterCycle(k: Key, pushed: Content, file: Content): System {
    System(CONF, Editor(k, file, true), Pusher(k, pushed, false, true, Working(k, {}, {1})))
  }

  /** The rest of the pusher's. */
  function RestMoves(): seq<Move> { [Move(Right, Mark(true)), Move(Right, Ack(true))] }

  function RestStates(k: Key, pushed: Content, file: Content): seq<System> {
    [AfterCycle(k, pushed, file),
     System(CONF, Editor(k, file, true), Pusher(k, pushed, true, true, Marked(map[], {}))),
     End(k, pushed, file)]
  }

  function End(k: Key, pushed: Content, file: Content): System {
    System(CONF, Editor(k, file, true), Pusher(k, pushed, true, true, Idle))
  }

  lemma PushRuns(k: Key, pushed: Content, file: Content)
    ensures IsRun(PushStates(k, pushed, file), PushMoves(k, file))
  {
    var none: map<Key, Entry>, own := map[], map[k := Pushed(k)];
    assert own.Keys + none.Keys == {k} && {k} - {k} == {} && {} + {1} == {1};
  }

  lemma EditorsTurn(k: Key, pushed: Content, file: Content)
    ensures var s := Overtaken(k, pushed, file);
      TurnOn(s, EditorsCycle(k), k) == Pass(s.left.node, s.right.node, {}, {1}, {1})
  {
    assert LexCompare("b", "a") > 0;
  }

  lemma EditorsRun(k: Key, pushed: Content, file: Content)
    ensures IsRun(CycleStates(Overtaken(k, pushed, file), EditorsCycle(k)), CycleMoves(EditorsCycle(k)))
    ensures CycleStates(Overtaken(k, pushed, file), EditorsCycle(k))[5] == AfterCycle(k, pushed, file)
  {
    EditorsTurn(k, pushed, file);
    SingleCycle(Overtaken(k, pushed, file), Left, k, map[k := Later(k)], map[k := Pushed(k)]);
    MarkOnly(1, Row(Later(k), false, false, ""));
    MarkOnly(1, Row(Pushed(k), false, false, ""));
  }

  lemma RestRuns(k: Key, pushed: Content, file: Content)
    ensures IsRun(RestStates(k, pushed, file), RestMoves())
  {
    MarkOnly(1, Row(Pushed(k), false, true, ""));
    MarkOnly(1, Row(Later(k), true, false, ""));
  }

  function Contest(k: Key, pushed: Content, file: Content): Matter {
    var s := Overtaken(k, pushed, file);
    Matter(k, Stand(s.left.node.rows, Later(k)), Stand(s.right.node.rows, Pushed(k)))
  }

  function LateMoves(k: Key): seq<Move> { CycleMoves(EditorsCycle(k)) + RestMoves() }

  function LateStates(k: Key, pushed: Content, file: Content): seq<System> {
    CycleStates(Overtaken(k, pushed, file), EditorsCycle(k))[..5] + RestStates(k, pushed, file)
  }

  lemma IsLate(k: Key, pushed: Content, file: Content)
    ensures EditedLate(Overtaken(k, pushed, file), Contest(k, pushed, file), Views(Unread, Saw(None)), Left)
  {
    IdleIsOpen(Overtaken(k, pushed, file), Contest(k, pushed, file), Views(Unread, Saw(None)), Left);
  }

  lemma EndIsDormant(k: Key, pushed: Content, file: Content)
    ensures IsDormant(End(k, pushed, file), k) && FilesIn(End(k, pushed, file), k) == (Some(file), Some(pushed))
  {
  }

  lemma CleanMoves(k: Key, i: nat)
    requires i < 7
    ensures CleanFor(LateMoves(k)[i].action, k) && !LateMoves(k)[i].action.Prune?
    ensures LateMoves(k)[i].action.Fetch? ==> i == 0
  {
  }

  lemma AllFollow(k: Key, pushed: Content, file: Content)
    ensures IsRun(LateStates(k, pushed, file), LateMoves(k))
    ensures LateStates(k, pushed, file)[0] == Overtaken(k, pushed, file)
    ensures LateStates(k, pushed, file)[7] == End(k, pushed, file)
  {
    EditorsRun(k, pushed, file);
    RestRuns(k, pushed, file);
    RunsJoin(CycleStates(Overtaken(k, pushed, file), EditorsCycle(k)), CycleMoves(EditorsCycle(k)),
        RestStates(k, pushed, file), RestMoves());
  }

  lemma LateFetch(k: Key)
    ensures OneFetchEach(LateMoves(k), k, Views(Unread, Saw(None)))
    ensures View(ViewsAfter(Views(Unread, Saw(None)), LateMoves(k), 7, k), Left).Saw?
  {
    forall i | 0 <= i < 7 && LateMoves(k)[i].action.Fetch? ensures i == 0 && LateMoves(k)[i].side == Left {
      CleanMoves(k, i);
    }
    SeenFromFetch(LateMoves(k), 0, 7, k, Views(Unread, Saw(None)));
  }

  lemma LateRuns(k: Key, pushed: Content, file: Content)
    ensures LateRun(LateStates(k, pushed, file), LateMoves(k), Contest(k, pushed, file), Views(Unread, Saw(None)), Left)
    ensures LateStates(k, pushed, file)[0] == Overtaken(k, pushed, file)
    ensures LateStates(k, pushed, file)[7] == End(k, pushed, file)
  {
    AllFollow(k, pushed, file);
    LateFetch(k);
    forall i | 0 <= i < 7 ensures CleanStep(LateStates(k, pushed, file)[i], LateMoves(k)[i], k) {
      CleanMoves(k, i);
    }
    IsLate(k, pushed, file);
  }

  /** The push, the editor's cycle of the kind above, and the end of the pusher's: nothing of
      the path is pending anywhere, and each node has its own file. */
  lemma EditCanBeOvertaken(k: Key, pushed: Content, file: Content)
    ensures IsRun(PushStates(k, pushed, file), PushMoves(k, file))
    ensures LateRun(LateStates(k, pushed, file), LateMoves(k), Contest(k, pushed, file), Views(Unread, Saw(None)), Left)
    ensures LateStates(k, pushed, file)[0] == PushStates(k, pushed, file)[5]
    ensures var last := LateStates(k, pushed, file)[|LateMoves(k)|];
      IsDormant(last, k) && FilesIn(last, k) == (Some(file), Some(pushed))
  {
    PushRuns(k, pushed, file);
    LateRuns(k, pushed, file);
    EndIsDormant(k, pushed, file);
  }
}
