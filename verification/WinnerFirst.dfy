/** The heart of convergence: whatever the interleaving of the two nodes' cycles, the loser
    never sends a path before the winner has
    (internal/reconciler/reconciler.go:61-229, internal/reconciler/conflict.go:89-102). */
module WinnerFirst {
  import opened Wrappers
  import opened Changelog
  import opened Text
  import opened Cycle
  import opened Protocol
  import opened Quiet

  /** `top` is an unsynced entry of `w` for `k` that the policy prefers to every unsynced
      entry of `l` for `k`. */
  ghost predicate Dominates(conf: Settings, k: Key, w: Node, l: Node, top: nat) {
    && IsUnsynced(w.rows, top) && w.rows[top].entry.key == k
    && forall id | IsUnsynced(l.rows, id) && l.rows[id].entry.key == k ::
         if conf.policy.Lww? then Earlier(l.rows[id].entry.stamp, w.rows[top].entry.stamp)
         else LexLess(w.name, l.name)
  }

  /* ---- the key invariant, one key at a time: the loser never sends before the winner ---- */

  /** The winner's file has not gone out yet; its top entry is still unsynced, its own
      cycle has the key ahead or could not send it, and any cycle of the loser has seen an
      entry that beats the loser's. */
  ghost predicate Pending(k: Key, top: nat, w: Daemon, l: Daemon) {
    && IsUnsynced(w.node.rows, top)
    && (w.phase.Looping? ==> NotMarked(w.phase, k))
    && (l.phase.Fetched? || l.phase.Looping? ==>
          k in l.phase.remote && !Earlier(l.phase.remote[k].stamp, w.node.rows[top].entry.stamp))
  }

  predicate NotMarked(phase: Phase, k: Key)
    requires phase.Looping?
  {
    k in phase.local ==> phase.local[k].id !in phase.marks
  }

  ghost predicate KeyInv(k: Key, top: nat, file: Content, w: Daemon, l: Daemon) {
    && FileAt(w.node.tree, k) == Some(file)
    && (FileAt(l.node.tree, k) == Some(file) || Pending(k, top, w, l))
  }

  ghost predicate KeySetting(conf: Settings, k: Key, top: nat, w0: Node, l0: Node) {
    EditSetting(conf, w0, l0) && Dominates(conf, k, w0, l0, top)
  }

  /** Marking leaves the top entry of a key that is not marked. */
  lemma TopOutlivesMark(w: Daemon, k: Key, top: nat, w0: Node, l0: Node)
    requires Calm(w, w0, l0) && w.phase.Looping? && NotMarked(w.phase, k)
    requires IsUnsynced(w.node.rows, top) && w.node.rows[top].entry.key == k
    ensures IsUnsynced(MarkSynced(w.node.rows, w.phase.marks), top)
  {
    forall j | j in w.phase.local ensures w.node.rows[w.phase.local[j].id].entry.key == j {
      assert IsUnsynced(w.node.rows, w.phase.local[j].id);
    }
  }

  lemma WinnersTurn(conf: Settings, w: Daemon, l: Daemon, j: Key, env: Env, k: Key, top: nat, file: Content,
                    w0: Node, l0: Node)
    requires KeySetting(conf, k, top, w0, l0) && Calm(w, w0, l0) && Calm(l, l0, w0)
    requires Can(w, l, Handle(j, env)) && KeyInv(k, top, file, w, l)
    ensures var (w', l') := Step(conf, w, l, Handle(j, env)); KeyInv(k, top, file, w', l')
  {
    CalmHandle(conf, w, l, j, env, w0, l0);
    if Pending(k, top, w, l) {
      WinnerStands(conf, w, k, top, w0, l0);
    }
  }

  /** The winner's own step: handling the key sends the file or marks nothing. */
  lemma WinnerStep(conf: Settings, w: Daemon, l: Daemon, a: Action, k: Key, top: nat, file: Content, w0: Node, l0: Node)
    requires KeySetting(conf, k, top, w0, l0) && Calm(w, w0, l0) && Calm(l, l0, w0)
    requires Can(w, l, a) && Unedited(a) && KeyInv(k, top, file, w, l)
    ensures var (w', l') := Step(conf, w, l, a); KeyInv(k, top, file, w', l')
  {
    match a {
      case Handle(j, env) => WinnersTurn(conf, w, l, j, env, k, top, file, w0, l0);
      case Read(local) => NewestHasTop(local, w.node.rows, k, top, w0.rows);
      case Mark(ok) => if Pending(k, top, w, l) { TopOutlivesMark(w, k, top, w0, l0); }
      case _ =>
    }
  }

  /** A snapshot taken while `top` is unsynced holds an entry of its key, none older than it. */
  lemma NewestHasTop(m: map<Key, Entry>, rows: Rows, k: Key, top: nat, log: Rows)
    requires NewestUnsynced(m, rows) && Shrinks(log, rows)
    requires top in log && log[top].entry.key == k
    ensures IsUnsynced(rows, top) ==> k in m && !Earlier(m[k].stamp, rows[top].entry.stamp)
  {
  }

  lemma WinnerStands(conf: Settings, w: Daemon, k: Key, top: nat, w0: Node, l0: Node)
    requires KeySetting(conf, k, top, w0, l0) && Calm(w, w0, l0)
    requires w.phase.Looping? && IsUnsynced(w.node.rows, top)
    ensures Stands(conf, At(w.phase.local, k), At(w.phase.remote, k))
  {
    NewestHasTop(w.phase.local, w.node.rows, k, top, w0.rows);
    if k in w.phase.remote {
      var l, r := w.phase.local[k], w.phase.remote[k];
      assert l.node == w0.name && r.node == l0.name;
      assert IsUnsynced(l0.rows, r.id);
    }
  }

  /** The loser's own step: as long as the winner's file is pending it sends nothing. */
  lemma LoserStep(conf: Settings, w: Daemon, l: Daemon, a: Action, k: Key, top: nat, file: Content, w0: Node, l0: Node)
    requires KeySetting(conf, k, top, w0, l0) && Calm(w, w0, l0) && Calm(l, l0, w0)
    requires Can(l, w, a) && Unedited(a) && KeyInv(k, top, file, w, l)
    ensures var (l', w') := Step(conf, l, w, a); KeyInv(k, top, file, w', l')
  {
    match a {
      case Fetch(remote) => NewestHasTop(remote, w.node.rows, k, top, w0.rows);
      case Handle(j, env) =>
        CalmHandle(conf, l, w, j, env, l0, w0);
        if j == k && Pending(k, top, w, l) {
          LoserYields(conf, w, l, k, top, w0, l0);
        }
      case Ack(ok) =>
        var w' := Step(conf, l, w, a).1;
        assert IsUnsynced(w.node.rows, top) ==> IsUnsynced(w'.node.rows, top);
      case _ =>
    }
  }

  lemma LoserYields(conf: Settings, w: Daemon, l: Daemon, k: Key, top: nat, w0: Node, l0: Node)
    requires KeySetting(conf, k, top, w0, l0) && Calm(w, w0, l0) && Calm(l, l0, w0)
    requires l.phase.Looping? && Pending(k, top, w, l)
    ensures !Stands(conf, At(l.phase.local, k), At(l.phase.remote, k))
  {
    if k in l.phase.local {
      var mine, theirs := l.phase.local[k], l.phase.remote[k];
      assert mine.node == l0.name && theirs.node == w0.name;
      assert IsUnsynced(l0.rows, mine.id);
      LexFlip(w0.name, l0.name);
    }
  }

  /* ---- whole runs ---- */

  /** Nobody edits: cycles of the two nodes with any failures, restarts and pruning. */
  ghost predicate UneditedRun(states: seq<System>, moves: seq<Move>) {
    IsRun(states, moves) && forall i | 0 <= i < |moves| :: Unedited(moves[i].action)
  }

  /** Where a convergence argument starts: nothing under way, edit-only logs, and trees
      that agree on every path nobody has logged. */
  ghost predicate Begins(s: System) {
    && EditSetting(s.conf, s.left.node, s.right.node)
    && s.left.phase.Idle? && s.right.phase.Idle? && s.left.blocked == {} && s.right.blocked == {}
    && (forall k | k !in Logged(s) :: FileAt(s.left.node.tree, k) == FileAt(s.right.node.tree, k))
  }

  function Logged(s: System): set<Key> { LoggedKeys(s.left.node) + LoggedKeys(s.right.node) }

  ghost predicate BothCalm(s0: System, s: System) {
    && s.conf == s0.conf
    && Calm(s.left, s0.left.node, s0.right.node) && Calm(s.right, s0.right.node, s0.left.node)
  }

  lemma CalmMove(s0: System, s: System, m: Move, s': System)
    requires Begins(s0) && BothCalm(s0, s) && Follows(s, m, s') && Unedited(m.action)
    ensures BothCalm(s0, s')
  {
    CalmStep(s.conf, Get(s, m.side), Get(s, Other(m.side)), m.action, Get(s0, m.side).node,
        Get(s0, Other(m.side)).node);
  }

  lemma {:induction false} CalmRun(states: seq<System>, moves: seq<Move>, i: nat)
    requires UneditedRun(states, moves) && Begins(states[0]) && i < |states|
    ensures BothCalm(states[0], states[i])
  {
    if i > 0 {
      CalmRun(states, moves, i - 1);
      assert Follows(states[i - 1], moves[i - 1], states[i]);
      CalmMove(states[0], states[i - 1], moves[i - 1], states[i]);
    }
  }

  ghost predicate SysKeyInv(s: System, k: Key, top: nat, file: Content, w: Side) {
    KeyInv(k, top, file, Get(s, w), Get(s, Other(w)))
  }

  ghost predicate Leads(s0: System, k: Key, w: Side, top: nat) {
    Dominates(s0.conf, k, Get(s0, w).node, Get(s0, Other(w)).node, top)
  }

  lemma KeyMove(s0: System, s: System, m: Move, s': System, k: Key, top: nat, file: Content, w: Side)
    requires Begins(s0) && BothCalm(s0, s) && Follows(s, m, s') && Unedited(m.action)
    requires Leads(s0, k, w, top) && SysKeyInv(s, k, top, file, w)
    ensures SysKeyInv(s', k, top, file, w)
  {
    var me, peer := Get(s, w), Get(s, Other(w));
    if m.side == w {
      WinnerStep(s.conf, me, peer, m.action, k, top, file, Get(s0, w).node, Get(s0, Other(w)).node);
    } else {
      LoserStep(s.conf, me, peer, m.action, k, top, file, Get(s0, w).node, Get(s0, Other(w)).node);
    }
  }

  /** In every interleaving and at every point, the winner's file is where it was, and
      either the loser has it too or the winner's entry is still to be sent. */
  lemma {:induction false} LoserNeverFirst(states: seq<System>, moves: seq<Move>, i: nat, k: Key, w: Side, top: nat)
    requires UneditedRun(states, moves) && Begins(states[0]) && i < |states| && Leads(states[0], k, w, top)
    ensures k in Get(states[0], w).node.tree
    ensures SysKeyInv(states[i], k, top, Get(states[0], w).node.tree[k], w)
  {
    if i > 0 {
      LoserNeverFirst(states, moves, i - 1, k, w, top);
      CalmRun(states, moves, i - 1);
      assert Follows(states[i - 1], moves[i - 1], states[i]);
      KeyMove(states[0], states[i - 1], moves[i - 1], states[i], k, top, Get(states[0], w).node.tree[k], w);
    }
  }

  /** Paths nobody logged keep their file. */
  lemma {:induction false} UnloggedUntouched(states: seq<System>, moves: seq<Move>, i: nat, k: Key, y: Side)
    requires UneditedRun(states, moves) && Begins(states[0]) && i < |states| && k !in Logged(states[0])
    ensures FileAt(Get(states[i], y).node.tree, k) == FileAt(Get(states[0], y).node.tree, k)
  {
    if i > 0 {
      UnloggedUntouched(states, moves, i - 1, k, y);
      CalmRun(states, moves, i - 1);
      assert Follows(states[i - 1], moves[i - 1], states[i]);
      UnloggedMove(states[0], states[i - 1], moves[i - 1], states[i], k, y);
    }
  }

  lemma SnapshotKeysLogged(m: map<Key, Entry>, n: Node)
    requires FromLog(m, n.rows)
    ensures m.Keys <= LoggedKeys(n)
  {
    forall k | k in m ensures k in LoggedKeys(n) {
      assert IsUnsynced(n.rows, m[k].id);
    }
  }

  lemma UnloggedMove(s0: System, s: System, m: Move, s': System, k: Key, y: Side)
    requires Begins(s0) && BothCalm(s0, s) && Follows(s, m, s') && Unedited(m.action) && k !in Logged(s0)
    ensures FileAt(Get(s', y).node.tree, k) == FileAt(Get(s, y).node.tree, k)
  {
    var me, peer := Get(s, m.side), Get(s, Other(m.side));
    if m.action.Handle? {
      SnapshotKeysLogged(me.phase.local, Get(s0, m.side).node);
      SnapshotKeysLogged(me.phase.remote, Get(s0, Other(m.side)).node);
      CalmHandle(s.conf, me, peer, m.action.key, m.action.env, Get(s0, m.side).node, Get(s0, Other(m.side)).node);
    }
  }
}
