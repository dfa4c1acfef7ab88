/** Runs without new edits, in which the logs hold creates and modifies only: the reconcile
    cycles act, any call may fail or lose its reply, daemons restart and logs are pruned. Facts
    about one node that every step of either node keeps. */
module Quiet {
  import opened Wrappers
  import opened Changelog
  import opened Conflict
  import opened Cycle
  import opened Protocol

  /** Anything but an edit and its entry in the log. */
  predicate Unedited(a: Action) { !a.Touch? && !a.Log? }

  /** Pruning, or a step of a cycle in which every call gets through. An acknowledgement may
      still fail: nothing below depends on it. */
  predicate QuietAction(a: Action) {
    match a
    case Fetch(_) => true
    case Read(_) => true
    case Handle(_, env) => env.callOk && env.replyOk
    case Mark(ok) => ok
    case Ack(_) => true
    case Prune(_, _) => true
    case _ => false
  }

  /** The unsynced entries are creates and modifies of files that exist, in pairs both
      nodes know. */
  ghost predicate EditsOnly(n: Node, peer: Node) {
    forall id | IsUnsynced(n.rows, id) ::
      var e := n.rows[id].entry;
      !e.kind.Delete? && e.key in n.tree && e.key.pair in n.pairs && e.key.pair in peer.pairs
  }

  function LoggedKeys(n: Node): set<Key> {
    set id | id in n.rows && !n.rows[id].synced :: n.rows[id].entry.key
  }

  /** Every entry of the snapshot was unsynced in `log` when the run began. */
  ghost predicate FromLog(m: map<Key, Entry>, log: Rows) {
    forall k | k in m :: m[k].key == k && IsUnsynced(log, m[k].id) && log[m[k].id].entry == m[k]
  }

  function IdsOf(m: map<Key, Entry>, ks: set<Key>): set<nat> {
    set k | k in m && k in ks :: m[k].id
  }

  /** The log has no other rows than it had in the beginning, and unsynced ones have only got
      fewer. */
  ghost predicate Shrinks(log: Rows, rows: Rows) {
    forall id | id in rows :: id in log && rows[id].entry == log[id].entry && (log[id].synced ==> rows[id].synced)
  }

  ghost predicate CalmPhase(phase: Phase, rows: Rows, log: Rows, peerLog: Rows) {
    match phase
    case Idle => true
    case Fetched(remote) => FromLog(remote, peerLog)
    case Looping(remote, local, todo, marks, _) =>
      && FromLog(remote, peerLog) && FromLog(local, log) && NewestUnsynced(local, rows)
      && todo <= local.Keys + remote.Keys
      && marks <= IdsOf(local, local.Keys - todo)
    case Marked(_, _) => true
  }

  /** Nothing has failed in the loop of the running cycle. */
  predicate OnTrack(phase: Phase) {
    phase.Looping? ==> phase.marks == IdsOf(phase.local, phase.local.Keys - phase.todo)
  }

  /** The state of one node, compared with the nodes the run began with. */
  ghost predicate Calm(me: Daemon, me0: Node, peer0: Node) {
    && me.node.name == me0.name && me.node.pairs == me0.pairs && me.blocked == {}
    && Shrinks(me0.rows, me.node.rows)
    && CalmPhase(me.phase, me.node.rows, me0.rows, peer0.rows)
  }

  /** lww or alpha_wins, edit-only logs, differently named nodes. */
  ghost predicate EditSetting(conf: Settings, me0: Node, peer0: Node) {
    && (conf.policy.Lww? || conf.policy.AlphaWins?) && me0.name != peer0.name
    && ValidNode(me0) && ValidNode(peer0) && EditsOnly(me0, peer0) && EditsOnly(peer0, me0)
  }

  lemma FreshFromLog(m: map<Key, Entry>, log: Rows, rows: Rows)
    requires NewestUnsynced(m, rows) && Shrinks(log, rows)
    ensures FromLog(m, log)
  {
    forall k | k in m ensures IsUnsynced(log, m[k].id) {
      assert IsUnsynced(rows, m[k].id);
    }
  }

  predicate Stands(conf: Settings, local: Option<Entry>, remote: Option<Entry>) {
    local.Some? && (remote.Some? ==> Resolve(conf.policy, local.value, remote.value).Local?)
  }

  /** The turn is to send the file of its key. */
  predicate Sending(conf: Settings, tree: Tree, k: Key, local: Option<Entry>, remote: Option<Entry>) {
    Stands(conf, local, remote) && k in tree
  }

  /** A turn of the loop under these conditions sends the file exactly if the local entry
      stands against the remote one and the call gets through, and it marks the local entry
      unless the sending fails. */
  lemma QuietTurn(conf: Settings, p: Pass, k: Key, local: Option<Entry>, remote: Option<Entry>, env: Env)
    requires (conf.policy.Lww? || conf.policy.AlphaWins?) && p.blocked == {}
    requires local.Some? ==> local.value.key == k && !local.value.kind.Delete?
    requires remote.Some? ==> remote.value.key == k && !remote.value.kind.Delete?
    requires local.Some? || remote.Some? ==> k.pair in p.me.pairs
    ensures var q := Process(conf, p, k, local, remote, env);
      var sends := Sending(conf, p.me.tree, k, local, remote);
      && q.me == p.me && q.blocked == {}
      && q.marks == p.marks + (if local.Some? && ((env.callOk && env.replyOk) || !sends) then {local.value.id} else {})
      && q.peer == p.peer.(tree := if sends && env.callOk then p.peer.tree[k := p.me.tree[k]] else p.peer.tree)
  {
  }

  lemma IdsOfGrows(m: map<Key, Entry>, todo: set<Key>, k: Key)
    requires k in todo
    ensures IdsOf(m, m.Keys - (todo - {k})) == IdsOf(m, m.Keys - todo) + (if k in m then {m[k].id} else {})
  {
  }

  /** What a turn does to the peer's tree. */
  function Sent(conf: Settings, me: Daemon, peer: Daemon, k: Key, env: Env): Tree
    requires me.phase.Looping?
  {
    if Sending(conf, me.node.tree, k, At(me.phase.local, k), At(me.phase.remote, k)) && env.callOk
    then peer.node.tree[k := me.node.tree[k]] else peer.node.tree
  }

  /** The ids marked after the turn. */
  function MarkedBy(conf: Settings, me: Daemon, k: Key, env: Env): set<nat>
    requires me.phase.Looping?
  {
    var sends := Sending(conf, me.node.tree, k, At(me.phase.local, k), At(me.phase.remote, k));
    var settles := k in me.phase.local && ((env.callOk && env.replyOk) || !sends);
    me.phase.marks + if settles then {me.phase.local[k].id} else {}
  }

  lemma CalmHandle(conf: Settings, me: Daemon, peer: Daemon, k: Key, env: Env, me0: Node, peer0: Node)
    requires EditSetting(conf, me0, peer0) && Calm(me, me0, peer0) && Can(me, peer, Handle(k, env))
    ensures var (me', peer') := Step(conf, me, peer, Handle(k, env));
      && Calm(me', me0, peer0) && me'.node == me.node
      && me'.phase.Looping? && me'.phase.local == me.phase.local && me'.phase.remote == me.phase.remote
      && me'.phase.todo == me.phase.todo - {k} && me'.phase.marks == MarkedBy(conf, me, k, env)
      && (env.callOk && env.replyOk && OnTrack(me.phase) ==> OnTrack(me'.phase))
      && peer' == peer.(node := peer.node.(tree := Sent(conf, me, peer, k, env)))
  {
    var ph := me.phase;
    QuietTurn(conf, PassOf(me, peer), k, At(ph.local, k), At(ph.remote, k), env);
    IdsOfGrows(ph.local, ph.todo, k);
  }

  lemma CalmAcked(me: Daemon, me0: Node, peer0: Node, ids: set<nat>)
    requires Calm(me, me0, peer0)
    ensures Calm(me.(node := me.node.(rows := MarkPeerAck(me.node.rows, ids))), me0, peer0)
  {
    var rows' := MarkPeerAck(me.node.rows, ids);
    assert forall id :: IsUnsynced(rows', id) <==> IsUnsynced(me.node.rows, id);
  }

  /** Pruning takes no pending create or modify. */
  lemma CalmPruned(me: Daemon, me0: Node, peer0: Node, retention: string, tombstones: string)
    requires Calm(me, me0, peer0) && EditsOnly(me0, peer0)
    ensures Calm(me.(node := me.node.(rows := PruneRows(me.node.rows, retention, tombstones))), me0, peer0)
  {
    var rows := me.node.rows;
    var rows' := PruneRows(rows, retention, tombstones);
    forall id ensures IsUnsynced(rows', id) <==> IsUnsynced(rows, id) {
      if IsUnsynced(rows, id) {
        assert IsUnsynced(me0.rows, id);
      }
    }
  }

  /** Every step keeps both nodes calm. */
  lemma CalmStep(conf: Settings, me: Daemon, peer: Daemon, a: Action, me0: Node, peer0: Node)
    requires EditSetting(conf, me0, peer0) && Calm(me, me0, peer0) && Calm(peer, peer0, me0)
    requires Can(me, peer, a) && Unedited(a)
    ensures Calm(Step(conf, me, peer, a).0, me0, peer0) && Calm(Step(conf, me, peer, a).1, peer0, me0)
  {
    match a {
      case Fetch(remote) => FreshFromLog(remote, peer0.rows, peer.node.rows);
      case Read(local) => FreshFromLog(local, me0.rows, me.node.rows);
      case Handle(k, env) => CalmHandle(conf, me, peer, k, env, me0, peer0);
      case Ack(ok) => if ok { CalmAcked(peer, peer0, me0, me.phase.acks); }
      case Prune(retention, tombstones) => CalmPruned(me, me0, peer0, retention, tombstones);
      case _ =>
    }
  }

  /** Without failures a cycle stays settled, and reading the log starts one that is. */
  lemma OnTrackStep(conf: Settings, me: Daemon, peer: Daemon, a: Action, me0: Node, peer0: Node)
    requires EditSetting(conf, me0, peer0) && Calm(me, me0, peer0) && Can(me, peer, a) && QuietAction(a)
    ensures OnTrack(me.phase) || a.Mark? ==> OnTrack(Step(conf, me, peer, a).0.phase)
    ensures Step(conf, me, peer, a).1.phase == peer.phase
  {
    if a.Handle? {
      CalmHandle(conf, me, peer, a.key, a.env, me0, peer0);
    } else if a.Read? {
      assert IdsOf(a.local, a.local.Keys - (a.local.Keys + me.phase.remote.Keys)) == {};
    }
  }
}
