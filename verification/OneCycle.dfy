/** One path and one cycle of each node, overlapped in any way: where each node stands, what
    its fetch saw of the other's log, and what the two turns for the path do to its file
    (internal/reconciler/reconciler.go:61-199). The logs may hold any number of entries. */
module OneCycle {
  import opened Wrappers
  import opened Changelog
  import opened Conflict
  import opened Cycle
  import opened KeepBothPolicy
  import opened Protocol
  import opened Blocking

  /* ---- logs ---- */

  /** `e` is pending for `k` and newer than every other pending entry of `k`. */
  ghost predicate IsNewest(rows: Rows, k: Key, e: Entry) {
    && e.key == k && e.id in UnsyncedIds(rows, k) && rows[e.id].entry == e
    && forall id | id in UnsyncedIds(rows, k) && id != e.id :: Earlier(rows[id].entry.stamp, e.stamp)
  }

  lemma SnapshotOfNewest(s: map<Key, Entry>, rows: Rows, k: Key, e: Entry)
    requires NewestUnsynced(s, rows) && IsNewest(rows, k, e)
    ensures k in s && s[k] == e
  {
    assert IsUnsynced(rows, e.id) && IsUnsynced(rows, s[k].id);
    assert s[k].id in UnsyncedIds(rows, k);
  }

  /** Of the entries of `k` pending in `log`, those in `gone` are not pending any more. */
  ghost predicate PendingLess(log: Rows, rows: Rows, k: Key, gone: set<nat>) {
    && UnsyncedIds(rows, k) == UnsyncedIds(log, k) - gone
    && forall id | id in UnsyncedIds(rows, k) :: rows[id].entry == log[id].entry
  }

  /** What a node has to say about `k` at the start: its log, and the newest pending entry. */
  datatype Stand = Stand(log: Rows, top: Entry)

  /* ---- clean steps ---- */

  /** Cycle steps on `k` succeed, and nothing but the two cycles concerns `k`. */
  predicate CleanFor(a: Action, k: Key) {
    match a
    case Handle(j, env) => j == k ==> env.callOk && env.replyOk && env.moveOk
    case Mark(ok) => ok
    case Abandon => false
    case Restart => false
    case _ => SparesKey(a, k)
  }

  /** Pruning takes no pending entry of `k`. */
  predicate LeavesPending(n: Node, a: Action, k: Key) {
    a.Prune? ==> forall id | id in UnsyncedIds(n.rows, k) :: !Expired(n.rows[id], a.retention, a.tombstones)
  }

  /* ---- where a node is ---- */

  /** What the node's one fetch saw of the other's log for `k`. */
  datatype Sight = Unread | Saw(entry: Option<Entry>)

  function Sights(s: Sight, a: Action, k: Key): Sight {
    if a.Fetch? then Saw(At(a.remote, k)) else s
  }

  /** The node has been through its turn for `k`. */
  predicate Done(d: Daemon, s: Sight, k: Key) {
    match d.phase
    case Idle => !s.Unread?
    case Fetched(_) => false
    case Looping(_, _, todo, _, _) => k !in todo
    case Marked(_, _) => true
  }

  predicate IsEdit(e: Option<Entry>) { e.Some? && !e.value.kind.Delete? }

  /** The turn blocks the key instead of settling it. */
  predicate Sticks(conf: Settings, top: Entry, seen: Option<Entry>) {
    conf.policy.Manual? && !top.kind.Delete? && IsEdit(seen)
  }

  /** The turn sends the node's file, if it has one. */
  predicate Sends(conf: Settings, top: Entry, seen: Option<Entry>) {
    && !top.kind.Delete?
    && (IsEdit(seen) ==> !conf.policy.KeepBoth? && Resolve(conf.policy, top, seen.value).Local?)
  }

  /** The local entry wins, and nothing is moved for it. */
  predicate WinsInPlace(conf: Settings, local: Entry, remote: Entry) {
    !conf.policy.KeepBoth? && Resolve(conf.policy, local, remote).Local?
  }

  /** The turn removes the other node's file. */
  predicate Removes(top: Entry, seen: Option<Entry>) { top.kind.Delete? && seen.None? }

  /** The turn moves the node's own file into the conflict directory. */
  predicate SetsAside(conf: Settings, top: Entry, seen: Option<Entry>) {
    conf.policy.KeepBoth? && !top.kind.Delete? && IsEdit(seen)
  }

  ghost predicate Settled(conf: Settings, k: Key, mine: Stand, seen: Option<Entry>, d: Daemon) {
    && (k in d.blocked <==> Sticks(conf, mine.top, seen))
    && PendingLess(mine.log, d.node.rows, k, if Sticks(conf, mine.top, seen) then {} else {mine.top.id})
  }

  ghost predicate Untaken(k: Key, mine: Stand, d: Daemon) {
    k !in d.blocked && PendingLess(mine.log, d.node.rows, k, {})
  }

  /** The node before, during and after its one cycle. */
  ghost predicate OwnAt(conf: Settings, k: Key, mine: Stand, s: Sight, d: Daemon) {
    && IsNewest(mine.log, k, mine.top) && k.pair in d.node.pairs
    && if s.Unread? then d.phase.Idle? && Untaken(k, mine, d)
       else match d.phase
         case Idle => Settled(conf, k, mine, s.entry, d)
         case Fetched(remote) => Untaken(k, mine, d) && At(remote, k) == s.entry
         case Looping(remote, local, todo, marks, _) =>
           && At(remote, k) == s.entry && At(local, k) == Some(mine.top)
           && PendingLess(mine.log, d.node.rows, k, {})
           && if k in todo then k !in d.blocked
              else (k in d.blocked <==> Sticks(conf, mine.top, s.entry)) &&
                   (Sticks(conf, mine.top, s.entry) || mine.top.id in marks)
         case Marked(_, _) => Settled(conf, k, mine, s.entry, d)
  }

  /** The newest entry is no longer pending. */
  predicate Past(k: Key, mine: Stand, d: Daemon) { mine.top.id !in UnsyncedIds(d.node.rows, k) }

  /** What a fetch saw: the other's newest entry, or another one if that is marked; and
      nothing only if nothing is pending. */
  ghost predicate Fits(k: Key, s: Sight, theirs: Stand, d: Daemon) {
    s.Saw? ==>
      && (s.entry == Some(theirs.top) || Past(k, theirs, d))
      && (s.entry == None ==> UnsyncedIds(d.node.rows, k) == {})
  }

  ghost predicate OpenFits(k: Key, s: Sight, theirs: Stand, me: Daemon, peer: Daemon) {
    Done(me, s, k) || Fits(k, s, theirs, peer)
  }

  /** Both nodes are in their places, and whoever has its turn ahead knows what it needs. */
  ghost predicate Joint(conf: Settings, k: Key, mine: Stand, theirs: Stand, s: Sight, s': Sight, me: Daemon,
                        peer: Daemon) {
    && OwnAt(conf, k, mine, s, me) && OwnAt(conf, k, theirs, s', peer)
    && OpenFits(k, s, theirs, me, peer) && OpenFits(k, s', mine, peer, me)
  }

  ghost predicate Setting(conf: Settings, k: Key, me: Daemon, peer: Daemon) {
    Apart(conf, k) && Valid(me, peer)
  }

  /* ---- the turn ---- */

  /** The files at `k` of the node and of its peer after the node's turn. */
  function Turned(conf: Settings, top: Entry, seen: Option<Entry>, mine: Option<Content>, theirs: Option<Content>)
    : (Option<Content>, Option<Content>)
  {
    if Sends(conf, top, seen) && mine.Some? then (mine, mine)
    else if Removes(top, seen) then (mine, None)
    else if SetsAside(conf, top, seen) then (None, theirs)
    else (mine, theirs)
  }

  lemma TurnOf(conf: Settings, p: Pass, k: Key, top: Entry, seen: Option<Entry>, env: Env)
    requires Apart(conf, k) && top.key == k && (seen.Some? ==> seen.value.key == k)
    requires k !in p.blocked && k.pair in p.me.pairs && k.pair in p.peer.pairs
    requires env.callOk && env.replyOk && env.moveOk
    requires seen.None? ==> !HasUnsynced(p.peer.rows, k)
    ensures var q := Process(conf, p, k, Some(top), seen, env);
      && q.me == p.me.(tree := q.me.tree) && q.peer == p.peer.(tree := q.peer.tree)
      && (FileAt(q.me.tree, k), FileAt(q.peer.tree, k))
         == Turned(conf, top, seen, FileAt(p.me.tree, k), FileAt(p.peer.tree, k))
      && q.blocked == (if Sticks(conf, top, seen) then p.blocked + {k} else p.blocked)
      && q.marks == (if Sticks(conf, top, seen) then p.marks else p.marks + {top.id})
  {
    TargetInDirectory(conf, top, env);
    if seen.Some? {
      TargetInDirectory(conf, seen.value, env);
    }
  }

  /* ---- steps ---- */

  /** The unsynced entries of `k` are the same. */
  ghost predicate SameUnsynced(rows: Rows, rows': Rows, k: Key) {
    && UnsyncedIds(rows', k) == UnsyncedIds(rows, k)
    && forall id | id in UnsyncedIds(rows, k) :: rows'[id].entry == rows[id].entry
  }

  /** Apart from the acting node's own marking, steps leave the unsynced entries of `k`. */
  lemma UnsyncedKept(conf: Settings, me: Daemon, peer: Daemon, a: Action, k: Key)
    requires Can(me, peer, a) && CleanFor(a, k) && LeavesPending(me.node, a, k) && Valid(me, peer)
    ensures var (me', peer') := Step(conf, me, peer, a);
      && (!a.Mark? ==> SameUnsynced(me.node.rows, me'.node.rows, k))
      && SameUnsynced(peer.node.rows, peer'.node.rows, k)
  {
    if a.Handle? {
      ProcessFrame(conf, PassOf(me, peer), a.key, At(me.phase.local, a.key), At(me.phase.remote, a.key), a.env);
    }
  }

  lemma FitsKept(k: Key, s: Sight, theirs: Stand, d: Daemon, d': Daemon)
    requires Fits(k, s, theirs, d) && UnsyncedIds(d'.node.rows, k) <= UnsyncedIds(d.node.rows, k)
    ensures Fits(k, s, theirs, d')
  {
  }

  /** Marking takes the newest entry of `k`, unless the key is blocked, and no other of `k`. */
  lemma MarkTakes(conf: Settings, k: Key, mine: Stand, s: Sight, me: Daemon, peer: Daemon)
    requires OwnAt(conf, k, mine, s, me) && Valid(me, peer) && me.phase.Looping? && me.phase.todo == {}
    ensures PendingLess(mine.log, MarkSynced(me.node.rows, me.phase.marks), k,
                        if Sticks(conf, mine.top, s.entry) then {} else {mine.top.id})
  {
    var rows, marks := me.node.rows, me.phase.marks;
    forall id | id in UnsyncedIds(rows, k) && id in marks ensures id == mine.top.id && k !in me.blocked {
      var j :| j in me.phase.local && j !in me.phase.todo && j !in me.blocked && me.phase.local[j].id == id;
      assert rows[id].entry == me.phase.local[j] && j == k;
    }
    assert UnsyncedIds(MarkSynced(rows, marks), k) == UnsyncedIds(rows, k) - marks;
    assert mine.top.id in UnsyncedIds(mine.log, k);
  }

  lemma OwnFetch(conf: Settings, k: Key, mine: Stand, me: Daemon, peer: Daemon, theirs: Stand, s': Sight,
                 remote: map<Key, Entry>)
    requires OwnAt(conf, k, mine, Unread, me) && OwnAt(conf, k, theirs, s', peer) && Can(me, peer, Fetch(remote))
    ensures var (me', peer') := Step(conf, me, peer, Fetch(remote));
      OwnAt(conf, k, mine, Saw(At(remote, k)), me') && Fits(k, Saw(At(remote, k)), theirs, peer')
  {
    if !Past(k, theirs, peer) {
      assert IsNewest(peer.node.rows, k, theirs.top);
      SnapshotOfNewest(remote, peer.node.rows, k, theirs.top);
    }
    if k !in remote {
      forall id ensures id !in UnsyncedIds(peer.node.rows, k) {
        assert IsUnsynced(peer.node.rows, id) ==> peer.node.rows[id].entry.key in remote;
      }
    }
  }

  lemma OwnRead(conf: Settings, k: Key, mine: Stand, s: Sight, me: Daemon, peer: Daemon, local: map<Key, Entry>)
    requires OwnAt(conf, k, mine, s, me) && Can(me, peer, Read(local))
    ensures OwnAt(conf, k, mine, s, Step(conf, me, peer, Read(local)).0)
  {
    assert IsNewest(me.node.rows, k, mine.top);
    SnapshotOfNewest(local, me.node.rows, k, mine.top);
  }

  lemma OwnTurn(conf: Settings, k: Key, mine: Stand, s: Sight, me: Daemon, peer: Daemon, env: Env)
    requires Setting(conf, k, me, peer) && OwnAt(conf, k, mine, s, me) && k.pair in peer.node.pairs
    requires Can(me, peer, Handle(k, env)) && CleanFor(Handle(k, env), k)
    requires s.Saw? ==> s.entry == None ==> UnsyncedIds(peer.node.rows, k) == {}
    ensures var (me', peer') := Step(conf, me, peer, Handle(k, env));
      && OwnAt(conf, k, mine, s, me') && s.Saw?
      && (FileAt(me'.node.tree, k), FileAt(peer'.node.tree, k))
         == Turned(conf, mine.top, s.entry, FileAt(me.node.tree, k), FileAt(peer.node.tree, k))
  {
    if s.entry == None {
      NothingGuards(peer.node.rows, k);
    }
    TurnOf(conf, PassOf(me, peer), k, mine.top, s.entry, env);
  }

  lemma OtherTurn(conf: Settings, k: Key, mine: Stand, s: Sight, me: Daemon, peer: Daemon, j: Key, env: Env)
    requires Setting(conf, k, me, peer) && OwnAt(conf, k, mine, s, me)
    requires Can(me, peer, Handle(j, env)) && j != k
    ensures var (me', peer') := Step(conf, me, peer, Handle(j, env));
      && OwnAt(conf, k, mine, s, me')
      && FileAt(me'.node.tree, k) == FileAt(me.node.tree, k) && FileAt(peer'.node.tree, k) == FileAt(peer.node.tree, k)
  {
    TurnApart(conf, PassOf(me, peer), j, At(me.phase.local, j), At(me.phase.remote, j), env, k);
    ProcessFrame(conf, PassOf(me, peer), j, At(me.phase.local, j), At(me.phase.remote, j), env);
  }

  type Pair = (Option<Content>, Option<Content>)

  function Files(me: Daemon, peer: Daemon, k: Key): Pair {
    (FileAt(me.node.tree, k), FileAt(peer.node.tree, k))
  }

  function Seen(s: Sight): Option<Entry> { if s.Saw? then s.entry else None }

  /** The files after a step that is, or is not, the node's turn for the path. */
  function FilesAfter(conf: Settings, mine: Stand, s: Sight, turn: bool, files: Pair): Pair {
    if turn then Turned(conf, mine.top, Seen(s), files.0, files.1) else files
  }

  predicate IsTurn(a: Action, k: Key) { a.Handle? && a.key == k }

  /** The node that does nothing now keeps its place, and so does what it knows. */
  lemma PeerKept(conf: Settings, k: Key, mine: Stand, theirs: Stand, s': Sight, me: Daemon, peer: Daemon, a: Action)
    requires Valid(me, peer) && OwnAt(conf, k, theirs, s', peer) && OpenFits(k, s', mine, peer, me)
    requires Can(me, peer, a) && CleanFor(a, k) && LeavesPending(me.node, a, k)
    requires a.Mark? ==> UnsyncedIds(Step(conf, me, peer, a).0.node.rows, k) <= UnsyncedIds(me.node.rows, k)
    ensures var (me', peer') := Step(conf, me, peer, a);
      && OwnAt(conf, k, theirs, s', peer') && OpenFits(k, s', mine, peer', me')
      && (Done(peer', s', k) <==> Done(peer, s', k))
  {
    var (me', peer') := Step(conf, me, peer, a);
    StepKeepsLogs(conf, me, peer, a);
    UnsyncedKept(conf, me, peer, a, k);
    if Fits(k, s', mine, me) {
      FitsKept(k, s', mine, me, me');
    }
  }

  lemma TurnKeepsJoint(conf: Settings, k: Key, mine: Stand, theirs: Stand, s: Sight, s': Sight, me: Daemon,
                       peer: Daemon, j: Key, env: Env)
    requires Setting(conf, k, me, peer) && Joint(conf, k, mine, theirs, s, s', me, peer)
    requires Can(me, peer, Handle(j, env)) && CleanFor(Handle(j, env), k)
    ensures var (me', peer') := Step(conf, me, peer, Handle(j, env));
      && Joint(conf, k, mine, theirs, s, s', me', peer')
      && Files(me', peer', k) == FilesAfter(conf, mine, s, j == k, Files(me, peer, k))
  {
    PeerKept(conf, k, mine, theirs, s', me, peer, Handle(j, env));
    if j == k {
      OwnTurn(conf, k, mine, s, me, peer, env);
    } else {
      OtherTurn(conf, k, mine, s, me, peer, j, env);
      var (me', peer') := Step(conf, me, peer, Handle(j, env));
      UnsyncedKept(conf, me, peer, Handle(j, env), k);
      if Fits(k, s, theirs, peer) { FitsKept(k, s, theirs, peer, peer'); }
    }
  }

  lemma FetchKeepsJoint(conf: Settings, k: Key, mine: Stand, theirs: Stand, s': Sight, me: Daemon, peer: Daemon,
                        remote: map<Key, Entry>)
    requires Setting(conf, k, me, peer) && Joint(conf, k, mine, theirs, Unread, s', me, peer)
    requires Can(me, peer, Fetch(remote))
    ensures var (me', peer') := Step(conf, me, peer, Fetch(remote));
      && Joint(conf, k, mine, theirs, Saw(At(remote, k)), s', me', peer')
      && Files(me', peer', k) == Files(me, peer, k)
  {
    PeerKept(conf, k, mine, theirs, s', me, peer, Fetch(remote));
    OwnFetch(conf, k, mine, me, peer, theirs, s', remote);
  }

  /** Reading, marking, acknowledging, and steps that have nothing to do with `k`. */
  lemma RestKeepsJoint(conf: Settings, k: Key, mine: Stand, theirs: Stand, s: Sight, s': Sight, me: Daemon,
                       peer: Daemon, a: Action)
    requires Setting(conf, k, me, peer) && Joint(conf, k, mine, theirs, s, s', me, peer)
    requires Can(me, peer, a) && CleanFor(a, k) && LeavesPending(me.node, a, k) && !a.Fetch? && !a.Handle?
    ensures var (me', peer') := Step(conf, me, peer, a);
      Joint(conf, k, mine, theirs, s, s', me', peer') && Files(me', peer', k) == Files(me, peer, k)
  {
    var (me', peer') := Step(conf, me, peer, a);
    UnsyncedKept(conf, me, peer, a, k);
    PeerKept(conf, k, mine, theirs, s', me, peer, a);
    if Fits(k, s, theirs, peer) { FitsKept(k, s, theirs, peer, peer'); }
    if a.Read? {
      OwnRead(conf, k, mine, s, me, peer, a.local);
    } else if a.Mark? {
      MarkTakes(conf, k, mine, s, me, peer);
    }
  }

  lemma JointStep(conf: Settings, k: Key, mine: Stand, theirs: Stand, s: Sight, s': Sight, me: Daemon, peer: Daemon,
                  a: Action)
    requires Setting(conf, k, me, peer) && Joint(conf, k, mine, theirs, s, s', me, peer)
    requires Can(me, peer, a) && CleanFor(a, k) && LeavesPending(me.node, a, k) && (a.Fetch? ==> s.Unread?)
    ensures var (me', peer') := Step(conf, me, peer, a);
      && Joint(conf, k, mine, theirs, Sights(s, a, k), s', me', peer')
      && Files(me', peer', k) == FilesAfter(conf, mine, s, IsTurn(a, k), Files(me, peer, k))
  {
    if a.Fetch? {
      FetchKeepsJoint(conf, k, mine, theirs, s', me, peer, a.remote);
    } else if a.Handle? {
      TurnKeepsJoint(conf, k, mine, theirs, s, s', me, peer, a.key, a.env);
    } else {
      RestKeepsJoint(conf, k, mine, theirs, s, s', me, peer, a);
    }
  }
}
