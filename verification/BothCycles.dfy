/** Runs with at most one cycle of each node: the order of the two turns for a path, what each
    fetch saw, and the files in the end (internal/reconciler/reconciler.go:61-199). */
module BothCycles {
  import opened Wrappers
  import opened Changelog
  import opened Cycle
  import opened Protocol
  import opened OneCycle

  /* ---- the turns of both nodes, in the order in which they come ---- */

  /** The two nodes' say about `k`. */
  datatype Matter = Matter(k: Key, left: Stand, right: Stand)

  function Of(m: Matter, x: Side): Stand { if x.Left? then m.left else m.right }

  /** Who has had its turn for `k`, and who first. */
  datatype Order = Nobody | Only(side: Side) | Both(first: Side)

  predicate InOrder(o: Order, x: Side) { o.Both? || o == Only(x) }

  function Then(o: Order, x: Side): Order {
    match o
    case Nobody => Only(x)
    case Only(y) => Both(y)
    case Both(_) => o
  }

  /** The files at `k` on the left and on the right. */
  function FilesIn(s: System, k: Key): Pair { (FileAt(s.left.node.tree, k), FileAt(s.right.node.tree, k)) }

  function On(files: Pair, x: Side): Option<Content> { if x.Left? then files.0 else files.1 }

  /** What the sights of both sides are. */
  datatype Views = Views(left: Sight, right: Sight)

  function View(v: Views, x: Side): Sight { if x.Left? then v.left else v.right }

  function Look(v: Views, x: Side, a: Action, k: Key): Views {
    if x.Left? then v.(left := Sights(v.left, a, k)) else v.(right := Sights(v.right, a, k))
  }

  /** The files after the turn of side `x`. */
  function TurnBy(conf: Settings, m: Matter, v: Views, x: Side, files: Pair): Pair {
    if x.Left? then Turned(conf, m.left.top, Seen(v.left), files.0, files.1)
    else
      var (mine, theirs) := Turned(conf, m.right.top, Seen(v.right), files.1, files.0);
      (theirs, mine)
  }

  function Outcome(conf: Settings, m: Matter, v: Views, o: Order, files: Pair): Pair {
    match o
    case Nobody => files
    case Only(x) => TurnBy(conf, m, v, x, files)
    case Both(x) => TurnBy(conf, m, v, Other(x), TurnBy(conf, m, v, x, files))
  }

  ghost predicate JointAt(s: System, m: Matter, v: Views) {
    && Setting(s.conf, m.k, s.left, s.right)
    && Joint(s.conf, m.k, m.left, m.right, v.left, v.right, s.left, s.right)
  }

  predicate DoneAt(s: System, v: Views, k: Key, x: Side) { Done(Get(s, x), View(v, x), k) }

  /** The order names the sides that are through their turn now and were not at the start. */
  predicate OrderFits(s0: System, v0: Views, s: System, v: Views, k: Key, o: Order, x: Side) {
    && (InOrder(o, x) <==> DoneAt(s, v, k, x) && !DoneAt(s0, v0, k, x))
    && (DoneAt(s0, v0, k, x) ==> DoneAt(s, v, k, x))
  }

  /** Everything that is known after some steps. */
  ghost predicate Known(s0: System, m: Matter, v0: Views, s: System, v: Views, o: Order) {
    && s.conf == s0.conf && JointAt(s, m, v)
    && OrderFits(s0, v0, s, v, m.k, o, Left) && OrderFits(s0, v0, s, v, m.k, o, Right)
    && FilesIn(s, m.k) == Outcome(s0.conf, m, v, o, FilesIn(s0, m.k))
  }

  /** A clean step: its calls succeed, and it leaves what is pending for `k`. */
  predicate CleanStep(s: System, m: Move, k: Key) {
    CleanFor(m.action, k) && LeavesPending(Get(s, m.side).node, m.action, k)
  }

  lemma DoneGrows(conf: Settings, k: Key, mine: Stand, s: Sight, me: Daemon, peer: Daemon, a: Action)
    requires OwnAt(conf, k, mine, s, me) && Can(me, peer, a) && CleanFor(a, k) && (a.Fetch? ==> s.Unread?)
    ensures Done(Step(conf, me, peer, a).0, Sights(s, a, k), k) <==> Done(me, s, k) || IsTurn(a, k)
    ensures IsTurn(a, k) ==> !Done(me, s, k)
  {
    if a.Read? {
      OwnRead(conf, k, mine, s, me, peer, a.local);
    }
  }

  /** What has been seen by a side whose turn is still ahead plays no part yet. */
  lemma OutcomeIgnores(conf: Settings, m: Matter, v: Views, o: Order, x: Side, a: Action, files: Pair)
    requires !InOrder(o, x)
    ensures Outcome(conf, m, Look(v, x, a, m.k), o, files) == Outcome(conf, m, v, o, files)
  {
  }

  lemma OutcomeExtends(conf: Settings, m: Matter, v: Views, o: Order, x: Side, files: Pair)
    requires !InOrder(o, x)
    ensures Outcome(conf, m, v, Then(o, x), files) == TurnBy(conf, m, v, x, Outcome(conf, m, v, o, files))
    ensures InOrder(Then(o, x), x) && (InOrder(Then(o, x), Other(x)) <==> InOrder(o, Other(x)))
  {
  }

  lemma JointMove(s: System, t: Matter, v: Views, m: Move, s': System)
    requires JointAt(s, t, v) && Follows(s, m, s') && CleanStep(s, m, t.k)
    requires m.action.Fetch? ==> View(v, m.side).Unread?
    ensures s'.conf == s.conf && JointAt(s', t, Look(v, m.side, m.action, t.k))
    ensures FilesIn(s', t.k)
            == if IsTurn(m.action, t.k) then TurnBy(s.conf, t, v, m.side, FilesIn(s, t.k)) else FilesIn(s, t.k)
  {
    var x, y := m.side, Other(m.side);
    var me, peer := Get(s, x), Get(s, y);
    StepKeepsValid(s.conf, me, peer, m.action);
    JointStep(s.conf, t.k, Of(t, x), Of(t, y), View(v, x), View(v, y), me, peer, m.action);
  }

  /** Whether side `x` is through its turn after a move. */
  lemma DoneMove(s: System, t: Matter, v: Views, m: Move, s': System, x: Side)
    requires JointAt(s, t, v) && Follows(s, m, s') && CleanStep(s, m, t.k)
    requires m.action.Fetch? ==> View(v, m.side).Unread?
    ensures DoneAt(s', Look(v, m.side, m.action, t.k), t.k, x)
            <==> DoneAt(s, v, t.k, x) || (x == m.side && IsTurn(m.action, t.k))
    ensures IsTurn(m.action, t.k) ==> !DoneAt(s, v, t.k, m.side)
  {
    var me, peer := Get(s, m.side), Get(s, Other(m.side));
    StepKeepsLogs(s.conf, me, peer, m.action);
    DoneGrows(s.conf, t.k, Of(t, m.side), View(v, m.side), me, peer, m.action);
  }

  lemma OrderMove(s0: System, t: Matter, v0: Views, s: System, v: Views, o: Order, m: Move, s': System, x: Side)
    requires JointAt(s, t, v) && Follows(s, m, s') && CleanStep(s, m, t.k)
    requires m.action.Fetch? ==> View(v, m.side).Unread?
    requires OrderFits(s0, v0, s, v, t.k, o, x)
    requires IsTurn(m.action, t.k) ==> !InOrder(o, m.side)
    ensures OrderFits(s0, v0, s', Look(v, m.side, m.action, t.k), t.k,
                      if IsTurn(m.action, t.k) then Then(o, m.side) else o, x)
  {
    DoneMove(s, t, v, m, s', x);
    if IsTurn(m.action, t.k) {
      OutcomeExtends(s.conf, t, v, o, m.side, FilesIn(s, t.k));
    }
  }

  lemma KnownMove(s0: System, t: Matter, v0: Views, s: System, v: Views, o: Order, m: Move, s': System)
    requires Known(s0, t, v0, s, v, o) && Follows(s, m, s') && CleanStep(s, m, t.k)
    requires m.action.Fetch? ==> View(v, m.side).Unread?
    ensures Known(s0, t, v0, s', Look(v, m.side, m.action, t.k), if IsTurn(m.action, t.k) then Then(o, m.side) else o)
  {
    var x := m.side;
    JointMove(s, t, v, m, s');
    NotYetInOrder(s0, t, v0, s, v, o, m);
    OrderMove(s0, t, v0, s, v, o, m, s', Left);
    OrderMove(s0, t, v0, s, v, o, m, s', Right);
    if IsTurn(m.action, t.k) {
      OutcomeExtends(s.conf, t, v, o, x, FilesIn(s0, t.k));
    } else if m.action.Fetch? {
      OutcomeIgnores(s.conf, t, v, o, x, m.action, FilesIn(s0, t.k));
    }
  }

  lemma NotYetInOrder(s0: System, t: Matter, v0: Views, s: System, v: Views, o: Order, m: Move)
    requires JointAt(s, t, v) && Enabled(s, m) && CleanFor(m.action, t.k)
    requires OrderFits(s0, v0, s, v, t.k, o, Left) && OrderFits(s0, v0, s, v, t.k, o, Right)
    requires m.action.Fetch? ==> View(v, m.side).Unread?
    ensures IsTurn(m.action, t.k) || m.action.Fetch? ==> !InOrder(o, m.side)
  {
    assert OrderFits(s0, v0, s, v, t.k, o, m.side);
  }

  /* ---- whole runs ---- */

  /** What both sides have seen after the first `i` moves. */
  function ViewsAfter(v: Views, moves: seq<Move>, i: nat, k: Key): Views
    requires i <= |moves|
  {
    if i == 0 then v else Look(ViewsAfter(v, moves, i - 1, k), moves[i - 1].side, moves[i - 1].action, k)
  }

  /** Whose turn for `k` was among the first `i` moves. */
  function OrderAfter(moves: seq<Move>, i: nat, k: Key): Order
    requires i <= |moves|
  {
    if i == 0 then Nobody
    else if IsTurn(moves[i - 1].action, k) then Then(OrderAfter(moves, i - 1, k), moves[i - 1].side)
    else OrderAfter(moves, i - 1, k)
  }

  const UNREAD: Views := Views(Unread, Unread)

  /** Side `x` has fetched among the first `i` moves. */
  predicate HasFetched(moves: seq<Move>, i: nat, x: Side)
    requires i <= |moves|
  {
    exists n | 0 <= n < i :: moves[n].side == x && moves[n].action.Fetch?
  }

  lemma {:induction false} UnreadIffNotFetched(moves: seq<Move>, i: nat, v: Views, x: Side, k: Key)
    requires i <= |moves|
    ensures View(ViewsAfter(v, moves, i, k), x).Unread? <==> View(v, x).Unread? && !HasFetched(moves, i, x)
  {
    if i > 0 {
      UnreadIffNotFetched(moves, i - 1, v, x, k);
    }
  }

  /** What side `x` has seen in the end. */
  function SeenBy(v: Views, moves: seq<Move>, x: Side, k: Key): Option<Entry> {
    Seen(View(ViewsAfter(v, moves, |moves|, k), x))
  }

  predicate OneFetchEach(moves: seq<Move>, k: Key, v: Views) {
    forall i | 0 <= i < |moves| ::
      moves[i].action.Fetch? ==> View(ViewsAfter(v, moves, i, k), moves[i].side).Unread?
  }

  lemma OneFetchSuffices(moves: seq<Move>, k: Key)
    requires forall i | 0 <= i < |moves| :: moves[i].action.Fetch? ==> !HasFetched(moves, i, moves[i].side)
    ensures OneFetchEach(moves, k, UNREAD)
  {
    forall i | 0 <= i < |moves| && moves[i].action.Fetch?
      ensures View(ViewsAfter(UNREAD, moves, i, k), moves[i].side).Unread?
    {
      UnreadIffNotFetched(moves, i, UNREAD, moves[i].side, k);
    }
  }

  /** Each side fetches at most once, and nothing but the two cycles concerns `k`. */
  ghost predicate CleanRun(states: seq<System>, moves: seq<Move>, k: Key, v: Views) {
    && IsRun(states, moves) && OneFetchEach(moves, k, v)
    && forall i | 0 <= i < |moves| :: CleanStep(states[i], moves[i], k)
  }

  ghost predicate KnownAt(states: seq<System>, moves: seq<Move>, i: nat, m: Matter, v: Views)
    requires i < |states| && i <= |moves|
  {
    exists views: Views, order: Order ::
      && Known(states[0], m, v, states[i], views, order)
      && views == ViewsAfter(v, moves, i, m.k) && order == OrderAfter(moves, i, m.k)
  }

  lemma KnownNext(states: seq<System>, moves: seq<Move>, i: nat, m: Matter, v: Views)
    requires CleanRun(states, moves, m.k, v) && i < |moves| && KnownAt(states, moves, i, m, v)
    ensures KnownAt(states, moves, i + 1, m, v)
  {
    var views, order := ViewsAfter(v, moves, i, m.k), OrderAfter(moves, i, m.k);
    assert Follows(states[i], moves[i], states[i + 1]);
    KnownMove(states[0], m, v, states[i], views, order, moves[i], states[i + 1]);
    var views', order' := ViewsAfter(v, moves, i + 1, m.k), OrderAfter(moves, i + 1, m.k);
    assert Known(states[0], m, v, states[i + 1], views', order');
  }

  lemma {:induction false} KnownRun(states: seq<System>, moves: seq<Move>, i: nat, m: Matter, v: Views)
    requires CleanRun(states, moves, m.k, v) && JointAt(states[0], m, v) && i <= |moves|
    ensures KnownAt(states, moves, i, m, v)
  {
    if i == 0 {
      assert Known(states[0], m, v, states[0], v, Nobody);
    } else {
      KnownRun(states, moves, i - 1, m, v);
      KnownNext(states, moves, i - 1, m, v);
    }
  }

  /** Both nodes idle, with pending entries of `k` that have a newest one. */
  ghost predicate Starts(s: System, m: Matter) {
    && Setting(s.conf, m.k, s.left, s.right)
    && StartsAt(s.left, m.k, m.left) && StartsAt(s.right, m.k, m.right)
  }

  ghost predicate StartsAt(d: Daemon, k: Key, mine: Stand) {
    && d.phase.Idle? && k !in d.blocked && k.pair in d.node.pairs
    && mine.log == d.node.rows && IsNewest(d.node.rows, k, mine.top)
  }

  /** Both sides have been through their cycle. */
  ghost predicate Finished(states: seq<System>, moves: seq<Move>) {
    && |states| == |moves| + 1 && HasFetched(moves, |moves|, Left) && HasFetched(moves, |moves|, Right)
    && states[|moves|].left.phase.Idle? && states[|moves|].right.phase.Idle?
  }

  /** Each node is at some point of its cycle before its turn for `k`. */
  ghost predicate Open(s: System, m: Matter, v: Views) {
    JointAt(s, m, v) && !DoneAt(s, v, m.k, Left) && !DoneAt(s, v, m.k, Right)
  }

  /** Both sides have been through their cycle, begun before or in the run. */
  ghost predicate Ended(states: seq<System>, moves: seq<Move>, k: Key, v: Views) {
    && |states| == |moves| + 1
    && states[|moves|].left.phase.Idle? && states[|moves|].right.phase.Idle?
    && ViewsAfter(v, moves, |moves|, k).left.Saw? && ViewsAfter(v, moves, |moves|, k).right.Saw?
  }

  /** One cycle of each node, or what is left of it, with the turn for the path; nothing else
      about the path. */
  ghost predicate CycleOfEach(states: seq<System>, moves: seq<Move>, m: Matter, v: Views) {
    CleanRun(states, moves, m.k, v) && Open(states[0], m, v) && Ended(states, moves, m.k, v)
  }

  /** Two whole cycles, from idle nodes. */
  lemma WholeCycles(states: seq<System>, moves: seq<Move>, m: Matter)
    requires CleanRun(states, moves, m.k, UNREAD) && Starts(states[0], m) && Finished(states, moves)
    ensures CycleOfEach(states, moves, m, UNREAD)
  {
    UnreadIffNotFetched(moves, |moves|, UNREAD, Left, m.k);
    UnreadIffNotFetched(moves, |moves|, UNREAD, Right, m.k);
  }

  predicate FetchesAt(moves: seq<Move>, i: nat, x: Side) {
    i < |moves| && moves[i].side == x && moves[i].action.Fetch?
  }

  /** Side `x` has fetched, and did not see the other's newest entry. */
  predicate Missed(m: Matter, v: Views, x: Side) { View(v, x).Saw? && View(v, x).entry != Some(Of(m, Other(x)).top) }

  /** Such a side has its turn after the other's. */
  predicate MissedSecond(m: Matter, v: Views, o: Order, x: Side) {
    Missed(m, v, x) ==> o == Only(Other(x)) || o == Both(Other(x))
  }

  /** What both fetches saw fits, and a side that missed the newest entry comes second. */
  ghost predicate InTurn(s: System, m: Matter, v: Views, o: Order) {
    && Fits(m.k, v.left, m.right, s.right) && Fits(m.k, v.right, m.left, s.left)
    && MissedSecond(m, v, o, Left) && MissedSecond(m, v, o, Right)
  }

  /** What a side has fetched before its turn, while the other's is ahead too, is the other's
      newest entry. */
  lemma OpenSights(s: System, m: Matter, v: Views, x: Side)
    requires Open(s, m, v)
    ensures !Missed(m, v, x) && Fits(m.k, View(v, x), Of(m, Other(x)), Get(s, Other(x)))
  {
    var y := Other(x);
    assert !Past(m.k, Of(m, y), Get(s, y));
  }

  /** What both nodes know of each other's log stays true. */
  lemma FitsMove(conf: Settings, k: Key, mine: Stand, theirs: Stand, s: Sight, s': Sight, me: Daemon, peer: Daemon,
                 a: Action)
    requires Setting(conf, k, me, peer) && Joint(conf, k, mine, theirs, s, s', me, peer)
    requires Can(me, peer, a) && CleanFor(a, k) && LeavesPending(me.node, a, k) && (a.Fetch? ==> s.Unread?)
    requires Fits(k, s, theirs, peer) && Fits(k, s', mine, me)
    ensures var (me', peer') := Step(conf, me, peer, a);
      Fits(k, Sights(s, a, k), theirs, peer') && Fits(k, s', mine, me')
  {
    var (me', peer') := Step(conf, me, peer, a);
    UnsyncedKept(conf, me, peer, a, k);
    if a.Fetch? {
      OwnFetch(conf, k, mine, me, peer, theirs, s', a.remote);
    } else {
      if a.Mark? {
        MarkTakes(conf, k, mine, s, me, peer);
      }
      FitsKept(k, s, theirs, peer, peer');
      FitsKept(k, s', mine, me, me');
    }
  }

  lemma SecondMove(s0: System, t: Matter, v0: Views, s: System, v: Views, o: Order, m: Move, s': System, x: Side)
    requires Open(s0, t, v0) && Known(s0, t, v0, s, v, o) && Follows(s, m, s') && CleanStep(s, m, t.k)
    requires m.action.Fetch? ==> View(v, m.side).Unread?
    requires MissedSecond(t, v, o, x)
    requires m.side == x && m.action.Fetch? ==>
      Fits(t.k, Saw(At(m.action.remote, t.k)), Of(t, Other(x)), Get(s, Other(x)))
    ensures MissedSecond(t, Look(v, m.side, m.action, t.k), if IsTurn(m.action, t.k) then Then(o, m.side) else o, x)
  {
    var y := Other(x);
    NotYetInOrder(s0, t, v0, s, v, o, m);
    if m.side == x && m.action.Fetch? && At(m.action.remote, t.k) != Some(Of(t, y).top) {
      assert OrderFits(s0, v0, s, v, t.k, o, y);
    }
  }

  lemma InTurnMove(s0: System, t: Matter, v0: Views, s: System, v: Views, o: Order, m: Move, s': System)
    requires Open(s0, t, v0) && Known(s0, t, v0, s, v, o) && Follows(s, m, s') && CleanStep(s, m, t.k)
    requires m.action.Fetch? ==> View(v, m.side).Unread?
    requires InTurn(s, t, v, o)
    ensures InTurn(s', t, Look(v, m.side, m.action, t.k), if IsTurn(m.action, t.k) then Then(o, m.side) else o)
  {
    var x, y := m.side, Other(m.side);
    FitsMove(s.conf, t.k, Of(t, x), Of(t, y), View(v, x), View(v, y), Get(s, x), Get(s, y), m.action);
    SecondMove(s0, t, v0, s, v, o, m, s', Left);
    SecondMove(s0, t, v0, s, v, o, m, s', Right);
  }

  ghost predicate InTurnAt(states: seq<System>, moves: seq<Move>, i: nat, m: Matter, v0: Views)
    requires i < |states| && i <= |moves|
  {
    exists v: Views, o: Order ::
      InTurn(states[i], m, v, o) && v == ViewsAfter(v0, moves, i, m.k) && o == OrderAfter(moves, i, m.k)
  }

  lemma InTurnNext(states: seq<System>, moves: seq<Move>, i: nat, m: Matter, v0: Views)
    requires CleanRun(states, moves, m.k, v0) && Open(states[0], m, v0) && i < |moves|
    requires InTurnAt(states, moves, i, m, v0)
    ensures InTurnAt(states, moves, i + 1, m, v0)
  {
    KnownRun(states, moves, i, m, v0);
    assert Follows(states[i], moves[i], states[i + 1]);
    InTurnMove(states[0], m, v0, states[i], ViewsAfter(v0, moves, i, m.k), OrderAfter(moves, i, m.k), moves[i],
        states[i + 1]);
    assert InTurn(states[i + 1], m, ViewsAfter(v0, moves, i + 1, m.k), OrderAfter(moves, i + 1, m.k));
  }

  lemma InTurnStart(states: seq<System>, moves: seq<Move>, m: Matter, v0: Views)
    requires |states| > 0 && Open(states[0], m, v0)
    ensures InTurnAt(states, moves, 0, m, v0)
  {
    OpenSights(states[0], m, v0, Left);
    OpenSights(states[0], m, v0, Right);
    assert InTurn(states[0], m, v0, Nobody);
  }

  lemma {:induction false} InTurnByInduction(states: seq<System>, moves: seq<Move>, i: nat, m: Matter, v0: Views)
    requires i <= |moves| < |states| && InTurnAt(states, moves, 0, m, v0)
    requires forall j: nat | j < |moves| && InTurnAt(states, moves, j, m, v0) :: InTurnAt(states, moves, j + 1, m, v0)
    ensures InTurnAt(states, moves, i, m, v0)
  {
    if i > 0 {
      InTurnByInduction(states, moves, i - 1, m, v0);
    }
  }

  lemma InTurnRun(states: seq<System>, moves: seq<Move>, i: nat, m: Matter, v0: Views)
    requires CleanRun(states, moves, m.k, v0) && Open(states[0], m, v0) && i <= |moves|
    ensures InTurnAt(states, moves, i, m, v0)
  {
    InTurnStart(states, moves, m, v0);
    forall j: nat | j < |moves| && InTurnAt(states, moves, j, m, v0) ensures InTurnAt(states, moves, j + 1, m, v0) {
      InTurnNext(states, moves, j, m, v0);
    }
    InTurnByInduction(states, moves, i, m, v0);
  }

  /** One cycle of each node, overlapped in any way, from any point of each before its turn: the
      files of the path are what the two turns make of them, one after the other, each with
      what that node's one fetch saw; a node whose fetch missed the other's newest entry has
      its turn second. */
  lemma TwoTurns(states: seq<System>, moves: seq<Move>, m: Matter, v0: Views)
    requires CycleOfEach(states, moves, m, v0)
    ensures var v := ViewsAfter(v0, moves, |moves|, m.k);
      v.left.Saw? && v.right.Saw? && exists first: Side ::
        && FilesIn(states[|moves|], m.k) == Outcome(states[0].conf, m, v, Both(first), FilesIn(states[0], m.k))
        && (forall x: Side :: Missed(m, v, x) ==> first == Other(x))
  {
    KnownRun(states, moves, |moves|, m, v0);
    InTurnRun(states, moves, |moves|, m, v0);
    var v, o := ViewsAfter(v0, moves, |moves|, m.k), OrderAfter(moves, |moves|, m.k);
    assert OrderFits(states[0], v0, states[|moves|], v, m.k, o, Left);
    assert OrderFits(states[0], v0, states[|moves|], v, m.k, o, Right);
    assert FilesIn(states[|moves|], m.k) == Outcome(states[0].conf, m, v, Both(o.first), FilesIn(states[0], m.k));
  }

  /** What is pending and blocked after a node's cycle: its newest entry stays pending exactly
      if the turn blocked the path; the older ones are untouched. */
  lemma LeftPending(states: seq<System>, moves: seq<Move>, m: Matter, v0: Views, x: Side)
    requires CleanRun(states, moves, m.k, v0) && JointAt(states[0], m, v0)
    requires View(ViewsAfter(v0, moves, |moves|, m.k), x).Saw? && Get(states[|moves|], x).phase.Idle?
    ensures Settled(states[0].conf, m.k, Of(m, x), View(ViewsAfter(v0, moves, |moves|, m.k), x).entry,
                    Get(states[|moves|], x))
  {
    KnownRun(states, moves, |moves|, m, v0);
  }

  /* ---- what a fetch sees ---- */

  /** `e` is one of the entries `ids` of `log` that no other of them beats; nothing if there
      are none. */
  ghost predicate IsFirstOf(log: Rows, ids: set<nat>, e: Option<Entry>) {
    && (e.None? <==> ids == {})
    && (e.Some? ==> e.value.id in ids && e.value.id in log && log[e.value.id].entry == e.value)
    && (e.Some? ==> forall id | id in ids && id in log :: CompareStamp(log[id].entry.stamp, e.value.stamp) <= 0)
  }

  /** The ids of `k` pending at the start, but for the newest if that is marked. */
  ghost function Remaining(k: Key, mine: Stand, marked: bool): set<nat> {
    UnsyncedIds(mine.log, k) - (if marked then {mine.top.id} else {})
  }

  /** A node has marked the newest entry once it is past the marking step of its one cycle,
      unless it blocked the path. */
  predicate HasMarked(conf: Settings, mine: Stand, s: Sight, d: Daemon) {
    s.Saw? && (d.phase.Marked? || d.phase.Idle?) && !Sticks(conf, mine.top, s.entry)
  }

  lemma PendingIs(conf: Settings, k: Key, mine: Stand, s: Sight, d: Daemon)
    requires OwnAt(conf, k, mine, s, d)
    ensures PendingLess(mine.log, d.node.rows, k, if HasMarked(conf, mine, s, d) then {mine.top.id} else {})
  {
  }

  lemma SnapshotFirst(log: Rows, rows: Rows, k: Key, gone: set<nat>, s: map<Key, Entry>)
    requires PendingLess(log, rows, k, gone) && NewestUnsynced(s, rows)
    ensures IsFirstOf(log, UnsyncedIds(log, k) - gone, At(s, k))
  {
    forall id | id in UnsyncedIds(rows, k) ensures k in s && CompareStamp(rows[id].entry.stamp, s[k].stamp) <= 0 {
      assert IsUnsynced(rows, id);
    }
    if k in s {
      assert IsUnsynced(rows, s[k].id) && s[k].id in UnsyncedIds(rows, k);
    }
  }

  lemma FirstIsNewest(k: Key, mine: Stand, e: Option<Entry>)
    requires IsNewest(mine.log, k, mine.top) && IsFirstOf(mine.log, Remaining(k, mine, false), e)
    ensures e == Some(mine.top)
  {
    assert mine.top.id in Remaining(k, mine, false) && mine.log[mine.top.id].entry == mine.top;
    assert e.Some? && CompareStamp(mine.top.stamp, e.value.stamp) <= 0;
  }

  /** A fetch sees the newest of the other's entries, or the next one once that is marked. */
  lemma FetchSees(states: seq<System>, moves: seq<Move>, i: nat, m: Matter, v0: Views)
    requires CleanRun(states, moves, m.k, v0) && JointAt(states[0], m, v0)
    requires i < |moves| && moves[i].action.Fetch?
    ensures var y := Other(moves[i].side);
      var marked := HasMarked(states[0].conf, Of(m, y), View(ViewsAfter(v0, moves, i, m.k), y), Get(states[i], y));
      IsFirstOf(Of(m, y).log, Remaining(m.k, Of(m, y), marked), At(moves[i].action.remote, m.k))
  {
    KnownRun(states, moves, i, m, v0);
    assert Follows(states[i], moves[i], states[i + 1]);
    var y := Other(moves[i].side);
    PendingIs(states[0].conf, m.k, Of(m, y), View(ViewsAfter(v0, moves, i, m.k), y), Get(states[i], y));
    SnapshotFirst(Of(m, y).log, Get(states[i], y).node.rows, m.k,
        if HasMarked(states[0].conf, Of(m, y), View(ViewsAfter(v0, moves, i, m.k), y), Get(states[i], y))
        then {Of(m, y).top.id} else {}, moves[i].action.remote);
  }

  /** A side's one fetch decides what it has seen from then on. */
  lemma {:induction false} SeenFromFetch(moves: seq<Move>, i: nat, j: nat, k: Key, v: Views)
    requires OneFetchEach(moves, k, v) && i < j <= |moves| && moves[i].action.Fetch?
    ensures View(ViewsAfter(v, moves, j, k), moves[i].side) == Saw(At(moves[i].action.remote, k))
  {
    if j > i + 1 {
      SeenFromFetch(moves, i, j - 1, k, v);
    }
  }

  lemma {:induction false} SightStays(moves: seq<Move>, j: nat, k: Key, v: Views, x: Side)
    requires OneFetchEach(moves, k, v) && j <= |moves| && View(v, x).Saw?
    ensures View(ViewsAfter(v, moves, j, k), x) == View(v, x)
  {
    if j > 0 {
      SightStays(moves, j - 1, k, v, x);
    }
  }

  lemma OpenNewest(s: System, m: Matter, v: Views, x: Side)
    requires Open(s, m, v)
    ensures var mine := Of(m, x);
      && IsNewest(mine.log, m.k, mine.top) && mine.top.id in UnsyncedIds(mine.log, m.k)
      && forall id | id in UnsyncedIds(mine.log, m.k) :: mine.log[id].entry.node == mine.top.node
  {
    PendingIs(s.conf, m.k, Of(m, x), View(v, x), Get(s, x));
    assert forall id | id in UnsyncedIds(Of(m, x).log, m.k) :: id in UnsyncedIds(Get(s, x).node.rows, m.k);
  }

  /** Whatever a side saw was pending in the other's log at the start. */
  lemma SeenWasPending(states: seq<System>, moves: seq<Move>, m: Matter, v: Views, x: Side)
    requires CycleOfEach(states, moves, m, v)
    ensures var log, seen := Of(m, Other(x)).log, SeenBy(v, moves, x, m.k);
      seen.Some? ==> seen.value.id in UnsyncedIds(log, m.k) && log[seen.value.id].entry == seen.value
  {
    if View(v, x).Saw? {
      SightStays(moves, |moves|, m.k, v, x);
      OpenSights(states[0], m, v, x);
      OpenNewest(states[0], m, v, Other(x));
    } else {
      UnreadIffNotFetched(moves, |moves|, v, x, m.k);
      assert HasFetched(moves, |moves|, x);
      var i :| 0 <= i < |moves| && moves[i].side == x && moves[i].action.Fetch?;
      FetchSees(states, moves, i, m, v);
      SeenFromFetch(moves, i, |moves|, m.k, v);
    }
  }
}
