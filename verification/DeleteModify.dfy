/** A delete on one node against a create or modify on the other, with any number of older
    pending entries of the path on both, one cycle of each node, overlapped in any way
    (internal/reconciler/reconciler.go:133-175, internal/reconciler/conflict.go:52-61,
    internal/grpc/server.go:118-125). */
module DeleteModify {
  import opened Wrappers
  import opened Changelog
  import opened Cycle
  import opened Protocol
  import opened OneCycle
  import opened BothCycles

  /** One cycle of each node, nothing else about the path; its newest pending entry is a delete
      at side `x` and an edit at the other. */
  ghost predicate DeleteEditRun(states: seq<System>, moves: seq<Move>, m: Matter, v0: Views, x: Side) {
    CycleOfEach(states, moves, m, v0) && Of(m, x).top.kind.Delete? && !Of(m, Other(x)).top.kind.Delete?
  }

  /** The outcome of both turns, in either order. */
  lemma DeleteEditOutcome(conf: Settings, m: Matter, v: Views, first: Side, files: Pair, x: Side)
    requires Of(m, x).top.kind.Delete? && !Of(m, Other(x)).top.kind.Delete?
    requires v.left.Saw? && v.right.Saw?
    requires forall z: Side :: Missed(m, v, z) ==> first == Other(z)
    ensures var seen, seen' := View(v, x).entry, View(v, Other(x)).entry;
      var edit, after := Of(m, Other(x)).top, Outcome(conf, m, v, Both(first), files);
      && On(after, Other(x)) == (if seen.None? || SetsAside(conf, edit, seen') then None else On(files, Other(x)))
      && On(after, x) == (if Sends(conf, edit, seen') && On(files, Other(x)).Some? then On(files, Other(x))
                          else On(files, x))
  {
    assert Missed(m, v, x) ==> first == Other(x);
    assert Missed(m, v, Other(x)) ==> first == x;
  }

  /** After one cycle of each node, overlapped in any way and under every policy: the editor
      keeps its file if and only if the deleter's fetch saw some pending entry of the path,
      except that under keep_both an editor whose fetch saw an edit sets the file aside. The
      deleter has the editor's file if the editor's turn sends it, and otherwise what it had. */
  lemma EditSurvivesIffSeen(states: seq<System>, moves: seq<Move>, m: Matter, v0: Views, x: Side)
    requires DeleteEditRun(states, moves, m, v0, x)
    ensures var conf, edit := states[0].conf, Of(m, Other(x)).top;
      var seen, seen' := SeenBy(v0, moves, x, m.k), SeenBy(v0, moves, Other(x), m.k);
      var before, after := FilesIn(states[0], m.k), FilesIn(states[|moves|], m.k);
      && On(after, Other(x)) == (if seen.None? || (conf.policy.KeepBoth? && IsEdit(seen')) then None
                                 else On(before, Other(x)))
      && On(after, x) == (if Sends(conf, edit, seen') && On(before, Other(x)).Some? then On(before, Other(x))
                          else On(before, x))
  {
    TwoTurns(states, moves, m, v0);
    var v := ViewsAfter(v0, moves, |moves|, m.k);
    var first: Side :|
      && FilesIn(states[|moves|], m.k) == Outcome(states[0].conf, m, v, Both(first), FilesIn(states[0], m.k))
      && (forall z: Side :: Missed(m, v, z) ==> first == Other(z));
    DeleteEditOutcome(states[0].conf, m, v, first, FilesIn(states[0], m.k), x);
  }

  /** If the deleter's file is gone, the trees agree on the path afterwards if and only if the
      editor's is gone too, or its turn sent it and the deleter's did not remove it, or it was
      set aside. */
  lemma AgreeAfterwardsIff(states: seq<System>, moves: seq<Move>, m: Matter, v0: Views, x: Side)
    requires DeleteEditRun(states, moves, m, v0, x) && On(FilesIn(states[0], m.k), x) == None
    ensures var seen, seen' := SeenBy(v0, moves, x, m.k), SeenBy(v0, moves, Other(x), m.k);
      var conf, edit, after := states[0].conf, Of(m, Other(x)).top, FilesIn(states[|moves|], m.k);
      after.0 == after.1 <==>
        On(FilesIn(states[0], m.k), Other(x)) == None
        || (if Sends(conf, edit, seen') then seen.Some? else SetsAside(conf, edit, seen'))
  {
    EditSurvivesIffSeen(states, moves, m, v0, x);
    NotBothMissed(states, moves, m, v0, x);
  }

  /** At most one of the two fetches misses the other's newest entry. */
  lemma NotBothMissed(states: seq<System>, moves: seq<Move>, m: Matter, v0: Views, x: Side)
    requires DeleteEditRun(states, moves, m, v0, x)
    ensures SeenBy(v0, moves, x, m.k) == Some(Of(m, Other(x)).top)
            || SeenBy(v0, moves, Other(x), m.k) == Some(Of(m, x).top)
  {
    TwoTurns(states, moves, m, v0);
    var v := ViewsAfter(v0, moves, |moves|, m.k);
    assert Missed(m, v, x) && Missed(m, v, Other(x)) ==> false;
  }

  /** What is left of the two entries: the delete is settled; the edit is settled unless the
      editor, under manual, saw an edit, and then it stays pending and the path blocked. */
  lemma EditBlockedIff(states: seq<System>, moves: seq<Move>, m: Matter, v0: Views, x: Side)
    requires DeleteEditRun(states, moves, m, v0, x)
    ensures var deleter, editor := Get(states[|moves|], x), Get(states[|moves|], Other(x));
      var stuck := states[0].conf.policy.Manual? && IsEdit(SeenBy(v0, moves, Other(x), m.k));
      && Past(m.k, Of(m, x), deleter) && m.k !in deleter.blocked
      && (Past(m.k, Of(m, Other(x)), editor) <==> !stuck) && (m.k in editor.blocked <==> stuck)
  {
    TwoTurns(states, moves, m, v0);
    LeftPending(states, moves, m, v0, x);
    LeftPending(states, moves, m, v0, Other(x));
    OpenNewest(states[0], m, v0, x);
    OpenNewest(states[0], m, v0, Other(x));
  }

  lemma NothingRemains(k: Key, mine: Stand, marked: bool)
    requires mine.top.id in UnsyncedIds(mine.log, k)
    ensures Remaining(k, mine, marked) == {} <==> marked && UnsyncedIds(mine.log, k) == {mine.top.id}
  {
    if marked {
      assert UnsyncedIds(mine.log, k) == Remaining(k, mine, marked) + {mine.top.id};
    } else {
      assert mine.top.id in Remaining(k, mine, marked);
    }
  }

  /** In terms of what is known before the fetch. The deleter's fetch, at step `i`, sees no
      entry of the path exactly if the editor has marked the edit and had no other pending. */
  lemma SeenIffBeforeMark(states: seq<System>, moves: seq<Move>, i: nat, m: Matter, v0: Views, x: Side)
    requires DeleteEditRun(states, moves, m, v0, x)
    requires FetchesAt(moves, i, x)
    ensures var y := Other(x);
      var marked := HasMarked(states[0].conf, Of(m, y), View(ViewsAfter(v0, moves, i, m.k), y), Get(states[i], y));
      SeenBy(v0, moves, x, m.k).None? <==> marked && UnsyncedIds(Of(m, y).log, m.k) == {Of(m, y).top.id}
  {
    FetchSees(states, moves, i, m, v0);
    SeenFromFetch(moves, i, |moves|, m.k, v0);
    OpenNewest(states[0], m, v0, Other(x));
    var y := Other(x);
    NothingRemains(m.k, Of(m, y),
        HasMarked(states[0].conf, Of(m, y), View(ViewsAfter(v0, moves, i, m.k), y), Get(states[i], y)));
  }

  /** And the editor's turn sends the file exactly if the deleter has not yet marked when the
      editor fetches, or the deleter's next pending entry, if there is one, is a delete or
      an edit that loses without a move. */
  lemma SendsIffBeforeMark(states: seq<System>, moves: seq<Move>, i: nat, m: Matter, v0: Views, x: Side)
    requires DeleteEditRun(states, moves, m, v0, x)
    requires FetchesAt(moves, i, Other(x))
    ensures var conf, edit, del := states[0].conf, Of(m, Other(x)).top, Of(m, x);
      var marked := HasMarked(conf, del, View(ViewsAfter(v0, moves, i, m.k), x), Get(states[i], x));
      var seen := SeenBy(v0, moves, Other(x), m.k);
      && IsFirstOf(del.log, Remaining(m.k, del, marked), seen)
      && (Sends(conf, edit, seen) <==> !marked || !IsEdit(seen) || WinsInPlace(conf, edit, seen.value))
  {
    FetchSees(states, moves, i, m, v0);
    SeenFromFetch(moves, i, |moves|, m.k, v0);
    OpenNewest(states[0], m, v0, x);
    var marked := HasMarked(states[0].conf, Of(m, x), View(ViewsAfter(v0, moves, i, m.k), x), Get(states[i], x));
    if !marked {
      FirstIsNewest(m.k, Of(m, x), SeenBy(v0, moves, Other(x), m.k));
    }
  }
}
