/** An edit that is made and logged after the peer's cycle has had its turn for the path, and
    before the peer has marked (internal/reconciler/reconciler.go:74-86,
    internal/reconciler/reconciler.go:114-182). */
module LateEdit {
  import opened Wrappers
  import opened Changelog
  import opened Cycle
  import opened Protocol
  import opened OneCycle
  import opened BothCycles

  /** Side `x` is at some point of its cycle before its turn for the path, with an edit on top of
      its log and a file; the cycle of the other side, whatever it saw, has had its turn. */
  ghost predicate EditedLate(s: System, m: Matter, v: Views, x: Side) {
    && JointAt(s, m, v) && !DoneAt(s, v, m.k, x) && DoneAt(s, v, m.k, Other(x))
    && !Of(m, x).top.kind.Delete? && On(FilesIn(s, m.k), x).Some?
  }

  /** In particular an idle node that has just logged its edit. */
  lemma IdleIsOpen(s: System, m: Matter, v: Views, x: Side)
    requires Setting(s.conf, m.k, s.left, s.right) && StartsAt(Get(s, x), m.k, Of(m, x)) && View(v, x).Unread?
    requires OwnAt(s.conf, m.k, Of(m, Other(x)), View(v, Other(x)), Get(s, Other(x))) && DoneAt(s, v, m.k, Other(x))
    ensures JointAt(s, m, v) && !DoneAt(s, v, m.k, x)
  {
  }

  /** One cycle of side `x` from there; the other may end its cycle and starts no new one. */
  ghost predicate LateRun(states: seq<System>, moves: seq<Move>, m: Matter, v: Views, x: Side) {
    && CleanRun(states, moves, m.k, v) && EditedLate(states[0], m, v, x)
    && View(ViewsAfter(v, moves, |moves|, m.k), x).Saw? && Get(states[|moves|], x).phase.Idle?
  }

  lemma OnlyOneTurn(states: seq<System>, moves: seq<Move>, m: Matter, v: Views, x: Side)
    requires LateRun(states, moves, m, v, x)
    ensures var after := ViewsAfter(v, moves, |moves|, m.k);
      FilesIn(states[|moves|], m.k) == TurnBy(states[0].conf, m, after, x, FilesIn(states[0], m.k))
  {
    KnownRun(states, moves, |moves|, m, v);
    var after, o := ViewsAfter(v, moves, |moves|, m.k), OrderAfter(moves, |moves|, m.k);
    assert OrderFits(states[0], v, states[|moves|], after, m.k, o, x);
    assert OrderFits(states[0], v, states[|moves|], after, m.k, o, Other(x));
    assert o == Only(x);
  }

  predicate LateAgrees(conf: Settings, edit: Entry, seen: Option<Entry>, before: Pair, x: Side) {
    if SetsAside(conf, edit, seen) then On(before, Other(x)) == None
    else Sends(conf, edit, seen) || before.0 == before.1
  }

  /** After the cycle the trees agree on the path if and only if the edited file was sent, or
      they had the same file anyway and it was not moved, or it was moved away and the other
      node has none. */
  lemma LateEditArrivesIff(states: seq<System>, moves: seq<Move>, m: Matter, v: Views, x: Side)
    requires LateRun(states, moves, m, v, x)
    ensures var seen := Seen(View(ViewsAfter(v, moves, |moves|, m.k), x));
      var before, after := FilesIn(states[0], m.k), FilesIn(states[|moves|], m.k);
      var conf, edit := states[0].conf, Of(m, x).top;
      && (after.0 == after.1 <==> LateAgrees(conf, edit, seen, before, x))
      && (Sends(conf, edit, seen) ==> On(after, Other(x)) == On(before, x))
  {
    OnlyOneTurn(states, moves, m, v, x);
  }

  /** Its fetch, at step `i`, sees the entry that the other node has just dealt with exactly if
      that is not yet marked. If the other node has no more of the path, the edit is held
      back if and only if it comes before the mark and does not win over an edit in place. */
  lemma HeldBackIff(states: seq<System>, moves: seq<Move>, i: nat, m: Matter, v: Views, x: Side)
    requires LateRun(states, moves, m, v, x) && FetchesAt(moves, i, x)
    ensures var conf, y, edit := states[0].conf, Other(x), Of(m, x).top;
      var marked := HasMarked(conf, Of(m, y), View(ViewsAfter(v, moves, i, m.k), y), Get(states[i], y));
      var seen := Seen(View(ViewsAfter(v, moves, |moves|, m.k), x));
      && IsFirstOf(Of(m, y).log, Remaining(m.k, Of(m, y), marked), seen)
      && (seen == Some(Of(m, y).top) <==> !marked)
      && (UnsyncedIds(Of(m, y).log, m.k) == {Of(m, y).top.id} ==>
            (Sends(conf, edit, seen) <==> marked || Of(m, y).top.kind.Delete? || WinsInPlace(conf, edit, Of(m, y).top)))
  {
    KnownRun(states, moves, i, m, v);
    FetchSees(states, moves, i, m, v);
    SeenFromFetch(moves, i, |moves|, m.k, v);
    var y := Other(x);
    if !HasMarked(states[0].conf, Of(m, y), View(ViewsAfter(v, moves, i, m.k), y), Get(states[i], y)) {
      FirstIsNewest(m.k, Of(m, y), Seen(View(ViewsAfter(v, moves, |moves|, m.k), x)));
    }
  }
}
