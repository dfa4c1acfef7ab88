/** Two edits of one path under keep_both, with any number of older pending entries of the path
    on both nodes, one cycle of each node, overlapped in any way
    (internal/reconciler/reconciler.go:133-175, internal/reconciler/conflict.go:68-81,
    internal/reconciler/conflict.go:104-121). */
module KeepBothRuns {
  import opened Wrappers
  import opened Changelog
  import opened ConflictNames
  import opened Cycle
  import opened KeepBothPolicy
  import opened Protocol
  import opened OneCycle
  import opened BothCycles
  import opened Blocking

  /* ---- the path ---- */

  /** The policy is keep_both, and the newest pending entry of the path is an edit on each node. */
  predicate BothEdit(conf: Settings, m: Matter) {
    conf.policy.KeepBoth? && !m.left.top.kind.Delete? && !m.right.top.kind.Delete?
  }

  ghost predicate EditMeetsEdit(s: System, m: Matter, v: Views) { Open(s, m, v) && BothEdit(s.conf, m) }

  /** One cycle of each node, nothing else about the path, from an edit against an edit. */
  ghost predicate EditEditRun(states: seq<System>, moves: seq<Move>, m: Matter, v0: Views) {
    CycleOfEach(states, moves, m, v0) && BothEdit(states[0].conf, m)
  }

  /** The outcome of both turns, in either order. */
  lemma EditEditOutcome(conf: Settings, m: Matter, v: Views, first: Side, files: Pair, x: Side)
    requires BothEdit(conf, m)
    requires v.left.Saw? && v.right.Saw?
    requires forall z: Side :: Missed(m, v, z) ==> first == Other(z)
    ensures IsEdit(View(v, x).entry) || IsEdit(View(v, Other(x)).entry)
    ensures On(Outcome(conf, m, v, Both(first), files), x)
            == (if !IsEdit(View(v, x).entry) then On(files, x)
                else if !IsEdit(View(v, Other(x)).entry) then On(files, Other(x)) else None)
  {
    assert Missed(m, v, x) ==> first == Other(x);
    assert Missed(m, v, Other(x)) ==> first == x;
  }

  /** After one cycle of each node: at least one of the two fetches saw an edit of the path. A
      node whose fetch saw none has its own file at the path on both nodes, whatever the
      stamps; if both saw one the path is empty on both. */
  lemma KeepBothOutcome(states: seq<System>, moves: seq<Move>, m: Matter, v0: Views, x: Side)
    requires EditEditRun(states, moves, m, v0)
    ensures var saw, saw' := IsEdit(SeenBy(v0, moves, x, m.k)), IsEdit(SeenBy(v0, moves, Other(x), m.k));
      var before, after := FilesIn(states[0], m.k), FilesIn(states[|moves|], m.k);
      && (saw || saw')
      && On(after, x) == (if !saw then On(before, x) else if !saw' then On(before, Other(x)) else None)
  {
    TwoTurns(states, moves, m, v0);
    var v := ViewsAfter(v0, moves, |moves|, m.k);
    var first: Side :|
      && FilesIn(states[|moves|], m.k) == Outcome(states[0].conf, m, v, Both(first), FilesIn(states[0], m.k))
      && (forall z: Side :: Missed(m, v, z) ==> first == Other(z));
    EditEditOutcome(states[0].conf, m, v, first, FilesIn(states[0], m.k), x);
  }

  /** What docs/overview.md:86 promises for the path: the last write on both nodes. The promise
      is kept if and only if it was the winner's fetch that saw no edit, or the loser's saw
      none and the two files are the same. */
  lemma LastWriteStandsIff(states: seq<System>, moves: seq<Move>, m: Matter, v0: Views, w: Side)
    requires EditEditRun(states, moves, m, v0) && Earlier(Of(m, Other(w)).top.stamp, Of(m, w).top.stamp)
    requires On(FilesIn(states[0], m.k), w).Some?
    ensures var won, lost := IsEdit(SeenBy(v0, moves, w, m.k)), IsEdit(SeenBy(v0, moves, Other(w), m.k));
      var before, after := FilesIn(states[0], m.k), FilesIn(states[|moves|], m.k);
      after == (On(before, w), On(before, w)) <==> !won || (!lost && before.0 == before.1)
  {
    KeepBothOutcome(states, moves, m, v0, Left);
    KeepBothOutcome(states, moves, m, v0, Right);
  }

  /** A fetch, at step `i`, sees no edit exactly if the other node has marked its newest one by
      then, and its next pending entry, if there is one, is a delete. */
  lemma UnseenIffMarked(states: seq<System>, moves: seq<Move>, i: nat, m: Matter, v0: Views, x: Side)
    requires EditEditRun(states, moves, m, v0)
    ensures FetchesAt(moves, i, x) ==>
      var y, seen := Other(x), SeenBy(v0, moves, x, m.k);
      var marked := HasMarked(states[0].conf, Of(m, y), View(ViewsAfter(v0, moves, i, m.k), y), Get(states[i], y));
      && IsFirstOf(Of(m, y).log, Remaining(m.k, Of(m, y), marked), seen)
      && (!IsEdit(seen) <==> marked && (seen.None? || seen.value.kind.Delete?))
  {
    if FetchesAt(moves, i, x) {
        FetchSees(states, moves, i, m, v0);
      SeenFromFetch(moves, i, |moves|, m.k, v0);
      var y := Other(x);
      if !HasMarked(states[0].conf, Of(m, y), View(ViewsAfter(v0, moves, i, m.k), y), Get(states[i], y)) {
        FirstIsNewest(m.k, Of(m, y), SeenBy(v0, moves, x, m.k));
      }
    }
  }

  /* ---- the file that is set aside ---- */

  /** The entry that the node takes for the loser. */
  function Loser(mine: Entry, seen: Entry): Entry {
    if CompareStamp(mine.stamp, seen.stamp) >= 0 then seen else mine
  }

  /** The file is in the conflict directory, under the name that the node's own evacuation
      gives it in some second. */
  ghost predicate SetAside(conf: Settings, loser: Entry, tree: Tree, file: Content) {
    Plain(loser.node) && exists env: Env :: Plain(env.now) && FileAt(tree, Target(conf, loser, env)) == Some(file)
  }

  /** Nothing else concerns the conflict directory, and the clock text has no dot or slash. */
  predicate SparesAside(conf: Settings, a: Action) {
    && (a.Handle? ==> Plain(a.env.now) && Apart(conf, a.key))
    && (a.Touch? ==> Apart(conf, a.key))
  }

  ghost predicate PlainNodes(s: System) { Plain(s.left.node.name) && Plain(s.right.node.name) }

  /** A key outside the conflict directory is no conflict name. */
  lemma NotATarget(conf: Settings, loser: Entry, env: Env, j: Key)
    requires conf.policy.KeepBoth? && Apart(conf, j)
    ensures Target(conf, loser, env) != j
  {
    TargetInDirectory(conf, loser, env);
  }

  /** A change outside the conflict directory leaves what is set aside. */
  lemma AsideStays(conf: Settings, loser: Entry, tree: Tree, file: Content, tree': Tree, j: Key)
    requires conf.policy.KeepBoth? && Apart(conf, j) && SetAside(conf, loser, tree, file)
    requires forall i | i != j :: FileAt(tree', i) == FileAt(tree, i)
    ensures SetAside(conf, loser, tree', file)
  {
    var env: Env :| Plain(env.now) && FileAt(tree, Target(conf, loser, env)) == Some(file);
    NotATarget(conf, loser, env, j);
    assert FileAt(tree', Target(conf, loser, env)) == Some(file);
  }

  /** So does the move of another key. */
  lemma AsideOutlivesMove(conf: Settings, loser: Entry, tree: Tree, file: Content, other: Entry, env: Env)
    requires conf.policy.KeepBoth? && SetAside(conf, loser, tree, file) && Apart(conf, other.key)
    requires other.key != loser.key && Plain(other.node) && Plain(env.now)
    ensures SetAside(conf, loser, Evacuate(conf, tree, other, env).0, file)
  {
    var was: Env :| Plain(was.now) && FileAt(tree, Target(conf, loser, was)) == Some(file);
    NotATarget(conf, loser, was, other.key);
    TargetsDiffer(conf, loser, was, other, env);
    assert FileAt(Evacuate(conf, tree, other, env).0, Target(conf, loser, was)) == Some(file);
  }

  /** A turn changes at most its own key's file at the peer, and at this node nothing but a
      move of that file. */
  lemma TurnMoves(conf: Settings, p: Pass, j: Key, local: Option<Entry>, remote: Option<Entry>, env: Env)
    requires (local.Some? ==> local.value.key == j) && (remote.Some? ==> remote.value.key == j)
    ensures var q := Process(conf, p, j, local, remote, env);
      && (forall i | i != j :: FileAt(q.peer.tree, i) == FileAt(p.peer.tree, i))
      && (q.me.tree == p.me.tree
          || (local.Some? && q.me.tree == Evacuate(conf, p.me.tree, local.value, env).0)
          || (remote.Some? && q.me.tree == Evacuate(conf, p.me.tree, remote.value, env).0))
  {
  }

  lemma OtherTurnKeepsAside(conf: Settings, loser: Entry, file: Content, me: Daemon, peer: Daemon, j: Key, env: Env)
    requires conf.policy.KeepBoth? && Valid(me, peer) && Can(me, peer, Handle(j, env))
    requires SparesAside(conf, Handle(j, env)) && Plain(me.node.name) && Plain(peer.node.name) && j != loser.key
    requires SetAside(conf, loser, me.node.tree, file)
    ensures SetAside(conf, loser, Step(conf, me, peer, Handle(j, env)).0.node.tree, file)
  {
    var me' := Step(conf, me, peer, Handle(j, env)).0;
    var l, r := At(me.phase.local, j), At(me.phase.remote, j);
    TurnMoves(conf, PassOf(me, peer), j, l, r, env);
    if l.Some? && me'.node.tree == Evacuate(conf, me.node.tree, l.value, env).0 {
      AsideOutlivesMove(conf, loser, me.node.tree, file, l.value, env);
    } else if r.Some? && me'.node.tree == Evacuate(conf, me.node.tree, r.value, env).0 {
      AsideOutlivesMove(conf, loser, me.node.tree, file, r.value, env);
    }
  }

  /** A step of a node, other than its turn for the path, leaves what it set aside. */
  lemma OwnStepKeepsAside(conf: Settings, loser: Entry, file: Content, me: Daemon, peer: Daemon, a: Action)
    requires conf.policy.KeepBoth? && Valid(me, peer) && Can(me, peer, a) && SparesAside(conf, a)
    requires Plain(me.node.name) && Plain(peer.node.name) && !IsTurn(a, loser.key)
    requires SetAside(conf, loser, me.node.tree, file)
    ensures SetAside(conf, loser, Step(conf, me, peer, a).0.node.tree, file)
  {
    if a.Handle? {
      OtherTurnKeepsAside(conf, loser, file, me, peer, a.key, a.env);
    } else if a.Touch? {
      AsideStays(conf, loser, me.node.tree, file, Step(conf, me, peer, a).0.node.tree, a.key);
    }
  }

  /** So does every step of the other node. */
  lemma PeerStepKeepsAside(conf: Settings, loser: Entry, file: Content, me: Daemon, peer: Daemon, a: Action)
    requires conf.policy.KeepBoth? && Valid(me, peer) && Can(me, peer, a) && SparesAside(conf, a)
    requires SetAside(conf, loser, peer.node.tree, file)
    ensures SetAside(conf, loser, Step(conf, me, peer, a).1.node.tree, file)
  {
    if a.Handle? {
      TurnMoves(conf, PassOf(me, peer), a.key, At(me.phase.local, a.key), At(me.phase.remote, a.key), a.env);
      AsideStays(conf, loser, peer.node.tree, file, Step(conf, me, peer, a).1.node.tree, a.key);
    }
  }

  /** The node's own turn for the path sets its file aside. */
  lemma OwnTurnSetsAside(conf: Settings, k: Key, mine: Stand, s: Sight, me: Daemon, peer: Daemon, env: Env)
    requires conf.policy.KeepBoth? && Setting(conf, k, me, peer) && OwnAt(conf, k, mine, s, me)
    requires Can(me, peer, Handle(k, env)) && CleanFor(Handle(k, env), k) && Plain(env.now)
    requires !mine.top.kind.Delete? && IsEdit(Seen(s)) && k in me.node.tree
    requires Plain(me.node.name) && Plain(peer.node.name)
    ensures var me' := Step(conf, me, peer, Handle(k, env)).0;
      SetAside(conf, Loser(mine.top, Seen(s).value), me'.node.tree, me.node.tree[k])
  {
    var me', loser := Step(conf, me, peer, Handle(k, env)).0, Loser(mine.top, Seen(s).value);
    assert At(me.phase.remote, k) == Seen(s) && At(me.phase.local, k) == Some(mine.top);
    NotATarget(conf, loser, env, k);
    assert FileAt(me'.node.tree, Target(conf, loser, env)) == Some(me.node.tree[k]);
  }

  /** A side that is through its turn and whose fetch saw an edit has set its file aside. */
  ghost predicate AsideIfSeen(s: System, m: Matter, v: Views, x: Side, files: Pair) {
    DoneAt(s, v, m.k, x) && IsEdit(Seen(View(v, x))) && On(files, x).Some? ==> HasAside(s, m, v, x, files)
  }

  ghost predicate HasAside(s: System, m: Matter, v: Views, x: Side, files: Pair)
    requires Seen(View(v, x)).Some? && On(files, x).Some?
  {
    var loser := Loser(Of(m, x).top, Seen(View(v, x)).value);
    loser.key == m.k && SetAside(s.conf, loser, Get(s, x).node.tree, On(files, x).value)
  }

  /** Before a side's turn its file is the one it started with. */
  lemma FileUntilTurn(conf: Settings, m: Matter, v: Views, o: Order, files: Pair, x: Side)
    requires BothEdit(conf, m)
    requires !InOrder(o, x) && MissedSecond(m, v, o, Other(x))
    requires o == Only(Other(x)) ==> View(v, Other(x)).Saw?
    ensures On(Outcome(conf, m, v, o, files), x) == On(files, x)
  {
  }

  /** The turn of side `x` itself. */
  lemma AsideByTurn(s0: System, t: Matter, v0: Views, s: System, v: Views, o: Order, m: Move, s': System)
    requires EditMeetsEdit(s0, t, v0) && PlainNodes(s) && Known(s0, t, v0, s, v, o) && InTurn(s, t, v, o)
    requires Follows(s, m, s') && CleanStep(s, m, t.k) && SparesAside(s.conf, m.action) && IsTurn(m.action, t.k)
    requires IsEdit(Seen(View(v, m.side))) && On(FilesIn(s0, t.k), m.side).Some?
    ensures HasAside(s', t, v, m.side, FilesIn(s0, t.k))
  {
    var x, y := m.side, Other(m.side);
    NotYetInOrder(s0, t, v0, s, v, o, m);
    assert OrderFits(s0, v0, s, v, t.k, o, y);
    FileUntilTurn(s.conf, t, v, o, FilesIn(s0, t.k), x);
    assert On(FilesIn(s, t.k), x) == On(FilesIn(s0, t.k), x);
    OwnTurnSetsAside(s.conf, t.k, Of(t, x), View(v, x), Get(s, x), Get(s, y), m.action.env);
  }

  /** All other steps, of either node. */
  lemma AsideKept(t: Matter, s: System, v: Views, m: Move, s': System, x: Side, files: Pair)
    requires s.conf.policy.KeepBoth? && PlainNodes(s) && ValidSystem(s)
    requires Follows(s, m, s') && SparesAside(s.conf, m.action) && !(m.side == x && IsTurn(m.action, t.k))
    requires IsEdit(Seen(View(v, x))) && On(files, x).Some? && HasAside(s, t, v, x, files)
    ensures HasAside(s', t, v, x, files)
  {
    var loser := Loser(Of(t, x).top, Seen(View(v, x)).value);
    var me, peer := Get(s, m.side), Get(s, Other(m.side));
    if m.side == x {
      OwnStepKeepsAside(s.conf, loser, On(files, x).value, me, peer, m.action);
    } else {
      PeerStepKeepsAside(s.conf, loser, On(files, x).value, me, peer, m.action);
    }
  }

  lemma AsideMove(s0: System, t: Matter, v0: Views, s: System, v: Views, o: Order, m: Move, s': System, x: Side)
    requires EditMeetsEdit(s0, t, v0) && PlainNodes(s) && Known(s0, t, v0, s, v, o) && InTurn(s, t, v, o)
    requires Follows(s, m, s') && CleanStep(s, m, t.k) && SparesAside(s.conf, m.action)
    requires m.action.Fetch? ==> View(v, m.side).Unread?
    requires AsideIfSeen(s, t, v, x, FilesIn(s0, t.k))
    ensures AsideIfSeen(s', t, Look(v, m.side, m.action, t.k), x, FilesIn(s0, t.k))
  {
    var v' := Look(v, m.side, m.action, t.k);
    DoneMove(s, t, v, m, s', x);
    if DoneAt(s', v', t.k, x) && IsEdit(Seen(View(v', x))) && On(FilesIn(s0, t.k), x).Some? {
      if m.side == x && IsTurn(m.action, t.k) {
        AsideByTurn(s0, t, v0, s, v, o, m, s');
      } else {
        AsideKept(t, s, v, m, s', x, FilesIn(s0, t.k));
      }
    }
  }

  lemma NamesStay(s: System, m: Move, s': System)
    requires ValidSystem(s) && Follows(s, m, s') && PlainNodes(s)
    ensures PlainNodes(s')
  {
    StepKeepsLogs(s.conf, Get(s, m.side), Get(s, Other(m.side)), m.action);
  }

  ghost predicate AsideHere(states: seq<System>, moves: seq<Move>, i: nat, m: Matter, v0: Views, x: Side)
    requires i < |states| && i <= |moves|
  {
    exists v: Views ::
      && PlainNodes(states[i]) && AsideIfSeen(states[i], m, v, x, FilesIn(states[0], m.k))
      && v == ViewsAfter(v0, moves, i, m.k)
  }

  lemma AsideNext(states: seq<System>, moves: seq<Move>, i: nat, m: Matter, v0: Views, x: Side)
    requires CleanRun(states, moves, m.k, v0) && EditMeetsEdit(states[0], m, v0) && i < |moves|
    requires SparesAside(states[0].conf, moves[i].action) && AsideHere(states, moves, i, m, v0, x)
    ensures AsideHere(states, moves, i + 1, m, v0, x)
  {
    KnownRun(states, moves, i, m, v0);
    InTurnRun(states, moves, i, m, v0);
    assert Follows(states[i], moves[i], states[i + 1]);
    var v, o := ViewsAfter(v0, moves, i, m.k), OrderAfter(moves, i, m.k);
    NamesStay(states[i], moves[i], states[i + 1]);
    AsideMove(states[0], m, v0, states[i], v, o, moves[i], states[i + 1], x);
    assert AsideIfSeen(states[i + 1], m, ViewsAfter(v0, moves, i + 1, m.k), x, FilesIn(states[0], m.k));
  }

  lemma AsideStart(states: seq<System>, moves: seq<Move>, m: Matter, v0: Views, x: Side)
    requires |states| > 0 && EditMeetsEdit(states[0], m, v0) && PlainNodes(states[0])
    ensures AsideHere(states, moves, 0, m, v0, x)
  {
    assert AsideIfSeen(states[0], m, v0, x, FilesIn(states[0], m.k));
  }

  lemma {:induction false} AsideRun(states: seq<System>, moves: seq<Move>, i: nat, m: Matter, v0: Views, x: Side)
    requires CleanRun(states, moves, m.k, v0) && EditMeetsEdit(states[0], m, v0) && i <= |moves|
    requires PlainNodes(states[0]) && forall n | 0 <= n < |moves| :: SparesAside(states[0].conf, moves[n].action)
    ensures AsideHere(states, moves, i, m, v0, x)
  {
    if i == 0 {
      AsideStart(states, moves, m, v0, x);
    } else {
      AsideRun(states, moves, i - 1, m, v0, x);
      AsideNext(states, moves, i - 1, m, v0, x);
    }
  }

  /** A node whose fetch saw an edit has its own file in the conflict directory afterwards, if
      nothing else is done there. */
  lemma SeenIsSetAside(states: seq<System>, moves: seq<Move>, m: Matter, v0: Views, x: Side)
    requires EditEditRun(states, moves, m, v0) && PlainNodes(states[0])
    requires forall n | 0 <= n < |moves| :: SparesAside(states[0].conf, moves[n].action)
    requires IsEdit(SeenBy(v0, moves, x, m.k)) && On(FilesIn(states[0], m.k), x).Some?
    ensures SetAside(states[0].conf, Loser(Of(m, x).top, SeenBy(v0, moves, x, m.k).value),
                     Get(states[|moves|], x).node.tree, On(FilesIn(states[0], m.k), x).value)
  {
    AsideRun(states, moves, |moves|, m, v0, x);
    SameConf(states, moves, |moves|);
  }
}
