/** A path that one node alone has logged, with any number of pending entries: what each step of
    either node does to its files, to what is pending and to what the other node is due to have
    (internal/reconciler/reconciler.go:88-182, internal/reconciler/reconciler.go:231-256,
    internal/grpc/server.go:112-137). */
module OneLogger {
  import opened Wrappers
  import opened Changelog
  import opened Cycle
  import opened KeepBothPolicy
  import opened Protocol
  import opened Blocking
  import opened OneCycle

  function Pending(d: Daemon, k: Key): set<nat> { UnsyncedIds(d.node.rows, k) }

  /** `e` is pending for `k`, and no other pending entry of `k` beats it. */
  ghost predicate IsUnbeaten(rows: Rows, k: Key, e: Entry) {
    && e.id in UnsyncedIds(rows, k) && rows[e.id].entry == e
    && forall id | id in UnsyncedIds(rows, k) :: CompareStamp(rows[id].entry.stamp, e.stamp) <= 0
  }

  /** What the entry asks for is done at the peer. */
  predicate Delivered(tree: Tree, tree': Tree, k: Key, e: Entry) {
    if e.kind.Delete? then k !in tree' else k in tree ==> FileAt(tree', k) == FileAt(tree, k)
  }

  /** The logger, at any point of a cycle: it has seen nothing of `k` at the peer, it works on
      a newest pending entry, and what it is to mark is delivered. */
  ghost predicate LoggerAt(x: Daemon, y: Daemon, k: Key) {
    && k !in x.blocked && k.pair in x.node.pairs
    && match x.phase
       case Idle => true
       case Fetched(remote) => k !in remote
       case Looping(remote, local, todo, marks, _) =>
         && k !in remote && (k in local <==> Pending(x, k) != {})
         && (k in local ==> IsUnbeaten(x.node.rows, k, local[k]))
         && (k in local && local[k].id in marks ==> Delivered(x.node.tree, y.node.tree, k, local[k]))
       case Marked(_, _) => true
  }

  /** The other node, at any point of a cycle, whatever it has fetched. */
  ghost predicate PeerAt(y: Daemon, k: Key) {
    && k !in y.blocked && k.pair in y.node.pairs && Pending(y, k) == {}
    && (y.phase.Looping? ==> k !in y.phase.local)
  }

  ghost predicate OneSided(conf: Settings, k: Key, x: Daemon, y: Daemon) {
    Apart(conf, k) && Valid(x, y) && LoggerAt(x, y, k) && PeerAt(y, k)
  }

  /* ---- the logger's steps ---- */

  lemma SnapshotIsUnbeaten(m: map<Key, Entry>, rows: Rows, k: Key)
    requires NewestUnsynced(m, rows)
    ensures k in m <==> UnsyncedIds(rows, k) != {}
    ensures k in m ==> IsUnbeaten(rows, k, m[k])
  {
    forall id | id in UnsyncedIds(rows, k) ensures k in m && CompareStamp(rows[id].entry.stamp, m[k].stamp) <= 0 {
      assert IsUnsynced(rows, id);
    }
    if k in m {
      assert IsUnsynced(rows, m[k].id) && m[k].id in UnsyncedIds(rows, k);
    }
  }

  /** The marking step takes the entry of `k` it has delivered, and no other of `k`. */
  lemma MarkTakesOwn(x: Daemon, y: Daemon, k: Key)
    requires Valid(x, y) && LoggerAt(x, y, k) && x.phase.Looping?
    ensures var rows, local, marks := x.node.rows, x.phase.local, x.phase.marks;
      UnsyncedIds(MarkSynced(rows, marks), k)
      == Pending(x, k) - (if k in local && local[k].id in marks then {local[k].id} else {})
  {
    var rows, local, marks := x.node.rows, x.phase.local, x.phase.marks;
    forall id | id in Pending(x, k) && id in marks ensures k in local && id == local[k].id {
      var j :| j in local && j !in x.phase.todo && j !in x.blocked && local[j].id == id;
      assert rows[id].entry == local[j];
    }
    assert UnsyncedIds(MarkSynced(rows, marks), k) == Pending(x, k) - marks;
  }

  /** What the logger's own turn does to the file at the peer. */
  function AfterTurn(x: Daemon, y: Daemon, k: Key, env: Env): Option<Content>
    requires x.phase.Looping?
  {
    if k in x.phase.local && env.callOk && (x.phase.local[k].kind.Delete? || k in x.node.tree) then
      if x.phase.local[k].kind.Delete? then None else FileAt(x.node.tree, k)
    else FileAt(y.node.tree, k)
  }

  lemma LoggersTurn(conf: Settings, k: Key, x: Daemon, y: Daemon, env: Env)
    requires OneSided(conf, k, x, y) && Can(x, y, Handle(k, env))
    ensures var (x', y') := Step(conf, x, y, Handle(k, env));
      && LoggerAt(x', y', k) && PeerAt(y', k) && x'.node == x.node && y'.node.rows == y.node.rows
      && FileAt(y'.node.tree, k) == AfterTurn(x, y, k, env)
      && (k in x.phase.local && env.callOk && env.replyOk ==> x.phase.local[k].id in x'.phase.marks)
  {
    NothingGuards(y.node.rows, k);
  }

  lemma LoggersOtherTurn(conf: Settings, k: Key, x: Daemon, y: Daemon, j: Key, env: Env)
    requires OneSided(conf, k, x, y) && Can(x, y, Handle(j, env)) && j != k
    ensures var (x', y') := Step(conf, x, y, Handle(j, env));
      && LoggerAt(x', y', k) && PeerAt(y', k) && x'.node.rows == x.node.rows && y'.node.rows == y.node.rows
      && FileAt(x'.node.tree, k) == FileAt(x.node.tree, k) && FileAt(y'.node.tree, k) == FileAt(y.node.tree, k)
      && x.phase.marks <= x'.phase.marks
  {
    var l, r := At(x.phase.local, j), At(x.phase.remote, j);
    TurnApart(conf, PassOf(x, y), j, l, r, env, k);
    ProcessFrame(conf, PassOf(x, y), j, l, r, env);
    if k in x.phase.local && l.Some? {
      assert l.value.id != x.phase.local[k].id;
    }
  }

  /** The pending entries of `k` in `rows'` are some of those in `rows`. */
  ghost predicate NoneNew(rows: Rows, rows': Rows, k: Key) {
    forall id | id in UnsyncedIds(rows', k) :: id in UnsyncedIds(rows, k) && rows'[id].entry == rows[id].entry
  }

  /** Apart from marking, the logger's own steps leave its pending entries, and no step of it
      gives the other node any. */
  lemma PendingKept(conf: Settings, k: Key, me: Daemon, peer: Daemon, a: Action)
    requires Valid(me, peer) && Can(me, peer, a) && SparesKey(a, k) && LeavesPending(me.node, a, k)
    ensures var (me', peer') := Step(conf, me, peer, a);
      && (!a.Mark? ==> Pending(me', k) == Pending(me, k)) && NoneNew(me.node.rows, me'.node.rows, k)
      && Pending(peer', k) == Pending(peer, k) && NoneNew(peer.node.rows, peer'.node.rows, k)
  {
    if a.Handle? {
      ProcessFrame(conf, PassOf(me, peer), a.key, At(me.phase.local, a.key), At(me.phase.remote, a.key), a.env);
    }
  }

  lemma LoggersRest(conf: Settings, k: Key, x: Daemon, y: Daemon, a: Action)
    requires OneSided(conf, k, x, y) && Can(x, y, a) && SparesKey(a, k) && LeavesPending(x.node, a, k) && !a.Handle?
    ensures var (x', y') := Step(conf, x, y, a);
      && LoggerAt(x', y', k) && PeerAt(y', k)
      && FileAt(x'.node.tree, k) == FileAt(x.node.tree, k) && FileAt(y'.node.tree, k) == FileAt(y.node.tree, k)
  {
    PendingKept(conf, k, x, y, a);
    if a.Fetch? {
      ClearIsAbsent(a.remote, y.node.rows, k);
    } else if a.Read? {
      SnapshotIsUnbeaten(a.local, x.node.rows, k);
    }
  }

  /* ---- the peer's steps ---- */

  /** The turn of the node that logged nothing takes the logger's file: its fetch saw a delete,
      the call gets through, and nothing of the path is pending at the logger any more. */
  predicate TakesFile(x: Daemon, y: Daemon, a: Action, k: Key) {
    && a.Handle? && a.key == k && a.env.callOk && Pending(x, k) == {}
    && y.phase.Looping? && k in y.phase.remote && y.phase.remote[k].kind.Delete?
  }

  /** A turn with nothing in the own log, on values. */
  lemma PulledTurn(conf: Settings, p: Pass, k: Key, remote: Option<Entry>, env: Env)
    requires k !in p.blocked && k.pair in p.me.pairs && k.pair in p.peer.pairs
    requires remote.Some? ==> remote.value.key == k
    ensures var q := Process(conf, p, k, None, remote, env);
      var takes := remote.Some? && remote.value.kind.Delete? && env.callOk && UnsyncedIds(p.peer.rows, k) == {};
      && q.me == p.me && q.blocked == p.blocked && q.marks == p.marks
      && q.peer == p.peer.(tree := if takes then p.peer.tree - {k} else p.peer.tree)
  {
    GuardIsPending(p.peer.rows, k);
  }

  lemma PeersTurn(conf: Settings, k: Key, x: Daemon, y: Daemon, env: Env)
    requires OneSided(conf, k, x, y) && Can(y, x, Handle(k, env))
    ensures var (y', x') := Step(conf, y, x, Handle(k, env));
      && LoggerAt(x', y', k) && PeerAt(y', k) && y'.node == y.node && x'.node.rows == x.node.rows
      && FileAt(x'.node.tree, k) == if TakesFile(x, y, Handle(k, env), k) then None else FileAt(x.node.tree, k)
  {
    PulledTurn(conf, PassOf(y, x), k, At(y.phase.remote, k), env);
  }

  lemma GuardIsPending(rows: Rows, k: Key)
    ensures HasUnsynced(rows, k) <==> UnsyncedIds(rows, k) != {}
  {
    if UnsyncedIds(rows, k) == {} {
      NothingGuards(rows, k);
    } else {
      var id :| id in UnsyncedIds(rows, k);
    }
  }

  lemma PeersOtherTurn(conf: Settings, k: Key, x: Daemon, y: Daemon, j: Key, env: Env)
    requires OneSided(conf, k, x, y) && Can(y, x, Handle(j, env)) && j != k
    ensures var (y', x') := Step(conf, y, x, Handle(j, env));
      && LoggerAt(x', y', k) && PeerAt(y', k)
      && FileAt(x'.node.tree, k) == FileAt(x.node.tree, k) && FileAt(y'.node.tree, k) == FileAt(y.node.tree, k)
  {
    var l, r := At(y.phase.local, j), At(y.phase.remote, j);
    TurnApart(conf, PassOf(y, x), j, l, r, env, k);
    ProcessFrame(conf, PassOf(y, x), j, l, r, env);
  }

  lemma PeersRest(conf: Settings, k: Key, x: Daemon, y: Daemon, a: Action)
    requires OneSided(conf, k, x, y) && Can(y, x, a) && SparesKey(a, k) && LeavesPending(y.node, a, k) && !a.Handle?
    ensures var (y', x') := Step(conf, y, x, a);
      && LoggerAt(x', y', k) && PeerAt(y', k)
      && FileAt(x'.node.tree, k) == FileAt(x.node.tree, k) && FileAt(y'.node.tree, k) == FileAt(y.node.tree, k)
  {
    PendingKept(conf, k, y, x, a);
    if a.Read? {
      ClearIsAbsent(a.local, y.node.rows, k);
    }
  }

  /* ---- what the other node is to have ---- */

  /** `id` is pending for `k` and older than every other pending entry of `k`. */
  ghost predicate IsOldest(rows: Rows, k: Key, id: nat) {
    && id in UnsyncedIds(rows, k)
    && forall j | j in UnsyncedIds(rows, k) && j != id :: Earlier(rows[id].entry.stamp, rows[j].entry.stamp)
  }

  /** Some pending entry of `k` is a delete. */
  ghost predicate DeletePending(rows: Rows, k: Key) {
    exists id :: id in UnsyncedIds(rows, k) && rows[id].entry.kind.Delete?
  }

  /** What the other node has of `k` when the logger's entries are settled: if the logger has
      the file, the oldest pending entry decides; if not, any delete. */
  ghost function Due(x: Node, y: Node, k: Key, oldest: Entry): Option<Content> {
    if UnsyncedIds(x.rows, k) == {} then FileAt(y.tree, k)
    else if k in x.tree then (if oldest.kind.Delete? then None else Some(x.tree[k]))
    else if DeletePending(x.rows, k) then None
    else FileAt(y.tree, k)
  }

  /** The oldest entry is still pending, unless nothing is. */
  ghost predicate OldestOrNone(rows: Rows, k: Key, oldest: Entry) {
    UnsyncedIds(rows, k) == {} || (IsOldest(rows, k, oldest.id) && rows[oldest.id].entry == oldest)
  }

  ghost predicate DueKept(x: Node, y: Node, x': Node, y': Node, k: Key, oldest: Entry) {
    OldestOrNone(x.rows, k, oldest) ==>
      OldestOrNone(x'.rows, k, oldest) && Due(x', y', k, oldest) == Due(x, y, k, oldest)
  }

  lemma DeletesStay(rows: Rows, rows': Rows, k: Key)
    requires NoneNew(rows, rows', k) && UnsyncedIds(rows', k) == UnsyncedIds(rows, k)
    ensures DeletePending(rows', k) <==> DeletePending(rows, k)
  {
    assert forall id | id in UnsyncedIds(rows, k) :: rows'[id].entry == rows[id].entry;
  }

  /** Taking a newest entry that is delivered leaves what is due. */
  lemma DueAfterMark(x: Node, y: Node, x': Node, k: Key, e: Entry, oldest: Entry)
    requires IsUnbeaten(x.rows, k, e) && Delivered(x.tree, y.tree, k, e)
    requires UnsyncedIds(x'.rows, k) == UnsyncedIds(x.rows, k) - {e.id} && NoneNew(x.rows, x'.rows, k)
    requires FileAt(x'.tree, k) == FileAt(x.tree, k)
    ensures DueKept(x, y, x', y, k, oldest)
  {
    if UnsyncedIds(x'.rows, k) != {} {
      var j :| j in UnsyncedIds(x'.rows, k);
      assert OldestOrNone(x.rows, k, oldest) ==> oldest.id != e.id;
    } else {
      assert UnsyncedIds(x.rows, k) == {e.id};
    }
    if DeletePending(x.rows, k) {
      var id :| id in UnsyncedIds(x.rows, k) && x.rows[id].entry.kind.Delete?;
      assert id == e.id || id in UnsyncedIds(x'.rows, k);
    }
    if DeletePending(x'.rows, k) {
      var id :| id in UnsyncedIds(x'.rows, k) && x'.rows[id].entry.kind.Delete?;
      assert id in UnsyncedIds(x.rows, k);
    }
  }

  /** With the pending entries as they were, it is enough that the other node's file either
      stays or becomes what is due. */
  lemma DueStays(x: Node, y: Node, x': Node, y': Node, k: Key, oldest: Entry)
    requires UnsyncedIds(x'.rows, k) == UnsyncedIds(x.rows, k) && NoneNew(x.rows, x'.rows, k)
    requires UnsyncedIds(x.rows, k) != {} ==> FileAt(x'.tree, k) == FileAt(x.tree, k)
    requires FileAt(y'.tree, k) == FileAt(y.tree, k)
             || (UnsyncedIds(x.rows, k) != {} && (k in x.tree || DeletePending(x.rows, k)))
    ensures DueKept(x, y, x', y', k, oldest)
  {
    DeletesStay(x.rows, x'.rows, k);
  }

  lemma LoggerKeepsDue(conf: Settings, k: Key, x: Daemon, y: Daemon, a: Action, oldest: Entry)
    requires OneSided(conf, k, x, y) && Can(x, y, a) && SparesKey(a, k) && LeavesPending(x.node, a, k)
    ensures var (x', y') := Step(conf, x, y, a);
      && LoggerAt(x', y', k) && PeerAt(y', k) && FileAt(x'.node.tree, k) == FileAt(x.node.tree, k)
      && Pending(x', k) <= Pending(x, k)
      && DueKept(x.node, y.node, x'.node, y'.node, k, oldest)
  {
    var (x', y') := Step(conf, x, y, a);
    PendingKept(conf, k, x, y, a);
    if a.Handle? {
      if a.key == k {
        LoggersTurn(conf, k, x, y, a.env);
      } else {
        LoggersOtherTurn(conf, k, x, y, a.key, a.env);
      }
      DueStays(x.node, y.node, x'.node, y'.node, k, oldest);
    } else {
      LoggersRest(conf, k, x, y, a);
      if a.Mark? && a.ok {
        MarkKeepsDue(x, y, x', k, oldest);
      } else {
        DueStays(x.node, y.node, x'.node, y'.node, k, oldest);
      }
    }
  }

  lemma MarkKeepsDue(x: Daemon, y: Daemon, x': Daemon, k: Key, oldest: Entry)
    requires Valid(x, y) && LoggerAt(x, y, k) && x.phase.Looping?
    requires x'.node == x.node.(rows := MarkSynced(x.node.rows, x.phase.marks))
    ensures DueKept(x.node, y.node, x'.node, y.node, k, oldest)
  {
    MarkTakesOwn(x, y, k);
    if k in x.phase.local && x.phase.local[k].id in x.phase.marks {
      DueAfterMark(x.node, y.node, x'.node, k, x.phase.local[k], oldest);
    } else {
      DueStays(x.node, y.node, x'.node, y.node, k, oldest);
    }
  }

  lemma PeerKeepsDue(conf: Settings, k: Key, x: Daemon, y: Daemon, a: Action, oldest: Entry)
    requires OneSided(conf, k, x, y) && Can(y, x, a) && SparesKey(a, k) && LeavesPending(y.node, a, k)
    ensures var (y', x') := Step(conf, y, x, a);
      && LoggerAt(x', y', k) && PeerAt(y', k)
      && FileAt(x'.node.tree, k) == (if TakesFile(x, y, a, k) then None else FileAt(x.node.tree, k))
      && Pending(x', k) == Pending(x, k)
      && DueKept(x.node, y.node, x'.node, y'.node, k, oldest)
  {
    var (y', x') := Step(conf, y, x, a);
    PendingKept(conf, k, y, x, a);
    if a.Handle? && a.key == k {
      PeersTurn(conf, k, x, y, a.env);
    } else if a.Handle? {
      PeersOtherTurn(conf, k, x, y, a.key, a.env);
    } else {
      PeersRest(conf, k, x, y, a);
    }
    DueStays(x.node, y.node, x'.node, y'.node, k, oldest);
  }
}
