/** Two edits of one path under lww or alpha_wins, with any number of older pending entries of
    the path on both nodes, one cycle of each node, overlapped in any way
    (internal/reconciler/reconciler.go:133-175, internal/reconciler/conflict.go:89-102). */
module EditContest {
  import opened Wrappers
  import opened Changelog
  import opened Cycle
  import opened Text
  import opened Protocol
  import opened OneCycle
  import opened BothCycles

  /** One cycle of each node, nothing else about the path, from an edit of a file against an
      edit of a file, under a policy that picks one. */
  ghost predicate ContestRun(states: seq<System>, moves: seq<Move>, m: Matter, v0: Views) {
    && CycleOfEach(states, moves, m, v0)
    && (states[0].conf.policy.Lww? || states[0].conf.policy.AlphaWins?)
    && !m.left.top.kind.Delete? && !m.right.top.kind.Delete?
    && FilesIn(states[0], m.k).0.Some? && FilesIn(states[0], m.k).1.Some?
  }

  /** The policy prefers the newest entry of side `w` to that of the other. */
  predicate Wins(conf: Settings, m: Matter, w: Side) {
    var won, lost := Of(m, w).top, Of(m, Other(w)).top;
    if conf.policy.Lww? then Earlier(lost.stamp, won.stamp) else LexLess(won.node, lost.node)
  }

  /** Whatever pending entry of the other the winner's fetch saw, its turn sends. */
  lemma WinnerSends(states: seq<System>, moves: seq<Move>, m: Matter, v0: Views, w: Side)
    requires ContestRun(states, moves, m, v0) && Wins(states[0].conf, m, w)
    ensures Sends(states[0].conf, Of(m, w).top, SeenBy(v0, moves, w, m.k))
    ensures !Sends(states[0].conf, Of(m, Other(w)).top, Some(Of(m, w).top))
  {
    SeenWasPending(states, moves, m, v0, w);
    OpenNewest(states[0], m, v0, w);
    OpenNewest(states[0], m, v0, Other(w));
    var won, lost := Of(m, w).top, Of(m, Other(w)).top;
    LexFlip(won.node, lost.node);
    LexZero(won.node, lost.node);
  }

  lemma ContestOutcome(conf: Settings, m: Matter, v: Views, first: Side, files: Pair, w: Side)
    requires Sends(conf, Of(m, w).top, Seen(View(v, w))) && !Sends(conf, Of(m, Other(w)).top, Some(Of(m, w).top))
    requires !Of(m, Other(w)).top.kind.Delete? && !conf.policy.KeepBoth? && v.left.Saw? && v.right.Saw?
    requires forall z: Side :: Missed(m, v, z) ==> first == Other(z)
    requires files.0.Some? && files.1.Some?
    ensures Outcome(conf, m, v, Both(first), files) == (On(files, w), On(files, w))
  {
    assert Missed(m, v, Other(w)) ==> first == w;
  }

  /** After one cycle of each node both have the file of the node whose newest entry the
      policy prefers, whatever older entries the two fetches saw instead. */
  lemma WinnerPrevails(states: seq<System>, moves: seq<Move>, m: Matter, v0: Views, w: Side)
    requires ContestRun(states, moves, m, v0) && Wins(states[0].conf, m, w)
    ensures var won := On(FilesIn(states[0], m.k), w); FilesIn(states[|moves|], m.k) == (won, won)
  {
    TwoTurns(states, moves, m, v0);
    WinnerSends(states, moves, m, v0, w);
    var v := ViewsAfter(v0, moves, |moves|, m.k);
    var first: Side :|
      && FilesIn(states[|moves|], m.k) == Outcome(states[0].conf, m, v, Both(first), FilesIn(states[0], m.k))
      && (forall z: Side :: Missed(m, v, z) ==> first == Other(z));
    ContestOutcome(states[0].conf, m, v, first, FilesIn(states[0], m.k), w);
  }

  /** With equal stamps under lww both nodes send, so the one whose turn came first prevails:
      the trees agree on the path all the same, on one of the two files. */
  lemma EvenStampsAgree(states: seq<System>, moves: seq<Move>, m: Matter, v0: Views)
    requires ContestRun(states, moves, m, v0)
    requires !Wins(states[0].conf, m, Left) && !Wins(states[0].conf, m, Right)
    ensures var before, after := FilesIn(states[0], m.k), FilesIn(states[|moves|], m.k);
      after.0 == after.1 && (after.0 == before.0 || after.0 == before.1)
  {
    TwoTurns(states, moves, m, v0);
    var v := ViewsAfter(v0, moves, |moves|, m.k);
    var first: Side :|
      && FilesIn(states[|moves|], m.k) == Outcome(states[0].conf, m, v, Both(first), FilesIn(states[0], m.k))
      && (forall z: Side :: Missed(m, v, z) ==> first == Other(z));
    EvenSends(states, moves, m, v0, Left);
    EvenSends(states, moves, m, v0, Right);
  }

  lemma EvenSends(states: seq<System>, moves: seq<Move>, m: Matter, v0: Views, x: Side)
    requires ContestRun(states, moves, m, v0)
    requires !Wins(states[0].conf, m, x) && !Wins(states[0].conf, m, Other(x))
    ensures Sends(states[0].conf, Of(m, x).top, SeenBy(v0, moves, x, m.k))
  {
    SeenWasPending(states, moves, m, v0, x);
    OpenNewest(states[0], m, v0, x);
    OpenNewest(states[0], m, v0, Other(x));
    LexFlip(m.left.top.node, m.right.top.node);
  }
}
