/** Two edits of one path on top of the two logs, each node anywhere in its cycle: when the
    trees agree on the path once both cycles have ended
    (internal/reconciler/reconciler.go:61-199). */
module MidCycle {
  import opened Protocol
  import opened OneCycle
  import opened BothCycles
  import opened EditContest
  import opened KeepBothRuns
  import opened LateEdit

  /** From any point of the two cycles to their ends, nothing else about the path; a node whose
      turn is ahead has its file. */
  ghost predicate EditsMeet(states: seq<System>, moves: seq<Move>, m: Matter, v: Views) {
    && CleanRun(states, moves, m.k, v) && JointAt(states[0], m, v) && Ended(states, moves, m.k, v)
    && !m.left.top.kind.Delete? && !m.right.top.kind.Delete?
    && forall x: Side :: DoneAt(states[0], v, m.k, x) || On(FilesIn(states[0], m.k), x).Some?
  }

  lemma NoTurnLeft(states: seq<System>, moves: seq<Move>, m: Matter, v: Views)
    requires EditsMeet(states, moves, m, v)
    requires DoneAt(states[0], v, m.k, Left) && DoneAt(states[0], v, m.k, Right)
    ensures FilesIn(states[|moves|], m.k) == FilesIn(states[0], m.k)
  {
    KnownRun(states, moves, |moves|, m, v);
    var after, o := ViewsAfter(v, moves, |moves|, m.k), OrderAfter(moves, |moves|, m.k);
    assert OrderFits(states[0], v, states[|moves|], after, m.k, o, Left);
    assert OrderFits(states[0], v, states[|moves|], after, m.k, o, Right);
    assert o == Nobody;
  }

  /** Under manual neither fetch misses the other's edit, for neither is ever settled. */
  lemma BothStick(states: seq<System>, moves: seq<Move>, m: Matter, v: Views)
    requires EditsMeet(states, moves, m, v) && CycleOfEach(states, moves, m, v) && states[0].conf.policy.Manual?
    ensures FilesIn(states[|moves|], m.k) == FilesIn(states[0], m.k)
  {
    TwoTurns(states, moves, m, v);
    var after := ViewsAfter(v, moves, |moves|, m.k);
    var first: Side :|
      && FilesIn(states[|moves|], m.k) == Outcome(states[0].conf, m, after, Both(first), FilesIn(states[0], m.k))
      && (forall z: Side :: Missed(m, after, z) ==> first == Other(z));
    forall x: Side ensures !Missed(m, after, x) {
      MissedIsMutual(states, moves, m, v, x);
    }
    assert !Missed(m, after, Left) && !Missed(m, after, Right);
  }

  lemma MissedIsMutual(states: seq<System>, moves: seq<Move>, m: Matter, v: Views, x: Side)
    requires EditsMeet(states, moves, m, v) && CycleOfEach(states, moves, m, v) && states[0].conf.policy.Manual?
    ensures var after := ViewsAfter(v, moves, |moves|, m.k); Missed(m, after, x) ==> Missed(m, after, Other(x))
  {
    InTurnRun(states, moves, |moves|, m, v);
    LeftPending(states, moves, m, v, Other(x));
    OpenNewest(states[0], m, v, Other(x));
  }

  lemma TwoTurnsAgree(states: seq<System>, moves: seq<Move>, m: Matter, v: Views)
    requires EditsMeet(states, moves, m, v) && CycleOfEach(states, moves, m, v) && !states[0].conf.policy.Manual?
    ensures FilesIn(states[|moves|], m.k).0 == FilesIn(states[|moves|], m.k).1
  {
    assert forall x: Side :: !DoneAt(states[0], v, m.k, x) ==> On(FilesIn(states[0], m.k), x).Some?;
    if states[0].conf.policy.KeepBoth? {
      KeepBothOutcome(states, moves, m, v, Left);
      KeepBothOutcome(states, moves, m, v, Right);
    } else if Wins(states[0].conf, m, Left) {
      WinnerPrevails(states, moves, m, v, Left);
    } else if Wins(states[0].conf, m, Right) {
      WinnerPrevails(states, moves, m, v, Right);
    } else {
      EvenStampsAgree(states, moves, m, v);
    }
  }

  /** Whatever the policy and wherever the two cycles stand: if both nodes have their turn for
      the path ahead, the trees agree on it in the end, unless manual holds back two different
      files; if one has, then in the cases of a late edit; if none has, then if they agreed. */
  lemma AgreeIff(states: seq<System>, moves: seq<Move>, m: Matter, v: Views)
    requires EditsMeet(states, moves, m, v)
    ensures var conf, before, after := states[0].conf, FilesIn(states[0], m.k), FilesIn(states[|moves|], m.k);
      after.0 == after.1 <==> AgreeWhen(states[0], m, v, ViewsAfter(v, moves, |moves|, m.k))
  {
    var l, r := DoneAt(states[0], v, m.k, Left), DoneAt(states[0], v, m.k, Right);
    if l && r {
      NoTurnLeft(states, moves, m, v);
    } else if l {
      LateEditArrivesIff(states, moves, m, v, Right);
    } else if r {
      LateEditArrivesIff(states, moves, m, v, Left);
    } else if states[0].conf.policy.Manual? {
      BothStick(states, moves, m, v);
    } else {
      TwoTurnsAgree(states, moves, m, v);
    }
  }

  /** In terms of the state at the start and of what a late edit's fetch sees. */
  predicate AgreeWhen(s: System, m: Matter, v: Views, after: Views) {
    var before, l, r := FilesIn(s, m.k), DoneAt(s, v, m.k, Left), DoneAt(s, v, m.k, Right);
    if l && r then before.0 == before.1
    else if l then LateAgrees(s.conf, m.right.top, Seen(after.right), before, Right)
    else if r then LateAgrees(s.conf, m.left.top, Seen(after.left), before, Left)
    else !s.conf.policy.Manual? || before.0 == before.1
  }
}
