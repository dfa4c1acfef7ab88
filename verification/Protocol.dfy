/** Two daemons running reconcile cycles against each other, as a state machine. A cycle
    is several atomic steps, so cycles of the two nodes interleave freely with each other
    and with edits, log appends and pruning. */
module Protocol {
  import opened Wrappers
  import opened Changelog
  import opened Cycle
  import opened Text

  datatype Side = Left | Right

  function Other(side: Side): Side { if side.Left? then Right else Left }

  /** How far a node is in its cycle. Only one cycle runs at a time (Run's TryLock). */
  datatype Phase =
    | Idle
    | Fetched(remote: map<Key, Entry>)
    | Looping(remote: map<Key, Entry>, local: map<Key, Entry>, todo: set<Key>, marks: set<nat>, acks: set<nat>)
    | Marked(remote: map<Key, Entry>, acks: set<nat>)

  datatype Daemon = Daemon(node: Node, blocked: set<Key>, phase: Phase)

  datatype Action =
    | Fetch(remote: map<Key, Entry>)      // ExchangeChangelog on the peer
    | Read(local: map<Key, Entry>)        // own unsynced entries
    | Abandon                             // reading the own log failed
    | Restart                             // of the daemon, at any point of its cycle
    | Handle(key: Key, env: Env)          // one turn of the loop
    | Mark(ok: bool)                      // MarkSynced
    | Ack(ok: bool)                       // AckTransfer on the peer
    | Touch(key: Key, file: Option<Content>)
    | Log(key: Key, kind: Kind, stamp: Stamp, createdAt: string)
    | Prune(retention: string, tombstones: string)

  ghost predicate Can(me: Daemon, peer: Daemon, a: Action) {
    match a
    case Fetch(remote) => me.phase.Idle? && NewestUnsynced(remote, peer.node.rows)
    case Read(local) => me.phase.Fetched? && NewestUnsynced(local, me.node.rows)
    case Abandon => me.phase.Fetched?
    case Restart => true
    case Handle(k, _) => me.phase.Looping? && k in me.phase.todo
    case Mark(_) => me.phase.Looping? && me.phase.todo == {}
    case Ack(_) => me.phase.Marked?
    case Touch(_, _) => true
    case Log(_, _, _, _) => true
    case Prune(_, _) => true
  }

  /** A step of a reconcile cycle, failing calls and restarts included. */
  predicate CycleAction(a: Action) { !a.Touch? && !a.Log? && !a.Prune? }

  predicate Expired(row: Row, retention: string, tombstones: string) {
    || (row.synced && row.peerAck && LexLess(row.createdAt, retention))
    || (row.entry.kind.Delete? && LexLess(row.createdAt, tombstones))
  }

  function PruneRows(rows: Rows, retention: string, tombstones: string): Rows {
    map id | id in rows && !Expired(rows[id], retention, tombstones) :: rows[id]
  }

  /** The pass that the running cycle stands at. */
  function PassOf(me: Daemon, peer: Daemon): Pass
    requires me.phase.Looping?
  {
    Pass(me.node, peer.node, me.blocked, me.phase.marks, me.phase.acks)
  }

  function HandleKey(conf: Settings, me: Daemon, peer: Daemon, k: Key, env: Env): Pass
    requires me.phase.Looping?
  {
    Process(conf, PassOf(me, peer), k, At(me.phase.local, k), At(me.phase.remote, k), env)
  }

  /** The step `me` takes; the second component is the peer afterwards. */
  ghost function Step(conf: Settings, me: Daemon, peer: Daemon, a: Action): (Daemon, Daemon)
    requires Can(me, peer, a)
  {
    match a
    case Fetch(remote) => (me.(phase := Fetched(remote)), peer)
    case Read(local) =>
      var remote := me.phase.remote;
      (me.(phase := Looping(remote, local, local.Keys + remote.Keys, {}, {})), peer)
    case Abandon => (me.(phase := Idle), peer)
    case Restart => (me.(phase := Idle, blocked := {}), peer)
    case Handle(k, env) =>
      var q := HandleKey(conf, me, peer, k, env);
      var ph := me.phase;
      (Daemon(q.me, q.blocked, Looping(ph.remote, ph.local, ph.todo - {k}, q.marks, q.acks)), peer.(node := q.peer))
    case Mark(ok) =>
      var rows := if ok then MarkSynced(me.node.rows, me.phase.marks) else me.node.rows;
      (me.(node := me.node.(rows := rows), phase := Marked(me.phase.remote, me.phase.acks)), peer)
    case Ack(ok) =>
      var rows := if ok then MarkPeerAck(peer.node.rows, me.phase.acks) else peer.node.rows;
      (me.(phase := Idle), peer.(node := peer.node.(rows := rows)))
    case Touch(k, file) =>
      var tree := if file.Some? then me.node.tree[k := file.value] else me.node.tree - {k};
      (me.(node := me.node.(tree := tree)), peer)
    case Log(k, kind, stamp, createdAt) =>
      var id := me.node.nextId;
      var row := Row(Entry(id, k, kind, stamp, me.node.name), false, false, createdAt);
      (me.(node := me.node.(rows := me.node.rows[id := row], nextId := id + 1)), peer)
    case Prune(retention, tombstones) =>
      (me.(node := me.node.(rows := PruneRows(me.node.rows, retention, tombstones))), peer)
  }

  datatype System = System(conf: Settings, left: Daemon, right: Daemon)

  function Get(s: System, side: Side): Daemon { if side.Left? then s.left else s.right }

  datatype Move = Move(side: Side, action: Action)

  ghost predicate Enabled(s: System, m: Move) {
    Can(Get(s, m.side), Get(s, Other(m.side)), m.action)
  }

  ghost function Apply(s: System, m: Move): (s': System)
    requires Enabled(s, m)
    ensures (Get(s', m.side), Get(s', Other(m.side))) == Step(s.conf, Get(s, m.side), Get(s, Other(m.side)), m.action)
    ensures s'.conf == s.conf
  {
    var (me, peer) := Step(s.conf, Get(s, m.side), Get(s, Other(m.side)), m.action);
    if m.side.Left? then s.(left := me, right := peer) else s.(left := peer, right := me)
  }

  /** A finite run: `states[i + 1]` follows from `states[i]` by `moves[i]`. */
  ghost predicate IsRun(states: seq<System>, moves: seq<Move>) {
    && |states| == |moves| + 1
    && forall i | 0 <= i < |moves| :: Follows(states[i], moves[i], states[i + 1])
  }

  ghost predicate Follows(s: System, m: Move, s': System) {
    Enabled(s, m) && s' == Apply(s, m)
  }

  /** Two runs, the second from where the first ends, are one run. */
  lemma RunsJoin(states: seq<System>, moves: seq<Move>, states': seq<System>, moves': seq<Move>)
    requires IsRun(states, moves) && IsRun(states', moves') && states[|moves|] == states'[0]
    ensures IsRun(states[..|moves|] + states', moves + moves')
  {
    var all, ms := states[..|moves|] + states', moves + moves';
    forall i | 0 <= i < |ms| ensures Follows(all[i], ms[i], all[i + 1]) {
      if i < |moves| {
        assert all[i] == states[i] && ms[i] == moves[i] && all[i + 1] == states[i + 1];
      } else {
        var j := i - |moves|;
        assert all[i] == states'[j] && ms[i] == moves'[j] && all[i + 1] == states'[j + 1];
      }
    }
  }

  /* ---- what every reachable state satisfies ---- */

  /** A snapshot of `owner`'s log, possibly stale: whatever it still shares an id with is
      the very entry it recorded. */
  ghost predicate Snapshot(m: map<Key, Entry>, owner: Node) {
    && (forall k | k in m ::
          && m[k].key == k && m[k].id < owner.nextId && m[k].node == owner.name
          && (m[k].id in owner.rows ==> owner.rows[m[k].id].entry == m[k]))
    && (forall j, k | j in m && k in m && m[j].id == m[k].id :: j == k)
  }

  /** The ids stem from snapshot entries of keys already handled and not blocked. */
  ghost predicate Gathered(ids: set<nat>, m: map<Key, Entry>, todo: set<Key>, blocked: set<Key>) {
    forall id | id in ids :: exists k :: k in m && k !in todo && k !in blocked && m[k].id == id
  }

  ghost predicate ValidNode(n: Node) {
    ValidRows(n.rows, n.nextId) && forall id | id in n.rows :: n.rows[id].entry.node == n.name
  }

  ghost predicate ValidPhase(me: Daemon, peer: Node) {
    match me.phase
    case Idle => true
    case Fetched(remote) => Snapshot(remote, peer)
    case Looping(remote, local, todo, marks, acks) =>
      && Snapshot(remote, peer) && Snapshot(local, me.node)
      && Gathered(marks, local, todo, me.blocked) && Gathered(acks, remote, todo, me.blocked)
    case Marked(remote, acks) =>
      Snapshot(remote, peer) && Gathered(acks, remote, {}, me.blocked)
  }

  ghost predicate Valid(me: Daemon, peer: Daemon) {
    ValidNode(me.node) && ValidNode(peer.node) && ValidPhase(me, peer.node) && ValidPhase(peer, me.node)
  }

  ghost predicate ValidSystem(s: System) { Valid(s.left, s.right) }

  /** What a step may do to a log: rows keep their entry, new rows get new ids. */
  ghost predicate LogGrows(n: Node, n': Node) {
    && n'.name == n.name && n'.pairs == n.pairs && n'.nextId >= n.nextId
    && (forall id | id in n.rows && id in n'.rows :: n'.rows[id].entry == n.rows[id].entry)
    && (forall id | id in n'.rows && id !in n.rows :: id >= n.nextId)
  }

  lemma PhaseStays(me: Daemon, peer: Node, node': Node, peer': Node)
    requires ValidPhase(me, peer) && LogGrows(me.node, node') && LogGrows(peer, peer')
    ensures ValidPhase(me.(node := node'), peer')
  {
  }

  lemma FreshSnapshot(m: map<Key, Entry>, n: Node)
    requires ValidNode(n) && NewestUnsynced(m, n.rows)
    ensures Snapshot(m, n)
  {
    forall k | k in m ensures m[k].id in n.rows && m[k].node == n.name && m[k].id < n.nextId {
      assert IsUnsynced(n.rows, m[k].id);
    }
  }

  /** A turn of the loop writes no log, touches no flag, and adds at most the two ids of
      its own key, and those only if it leaves the key unblocked. */
  lemma ProcessFrame(conf: Settings, p: Pass, k: Key, local: Option<Entry>, remote: Option<Entry>, env: Env)
    requires (local.Some? ==> local.value.key == k) && (remote.Some? ==> remote.value.key == k)
    ensures var q := Process(conf, p, k, local, remote, env);
      && q.me == p.me.(tree := q.me.tree) && q.peer == p.peer.(tree := q.peer.tree)
      && (forall j | j != k :: j in q.blocked <==> j in p.blocked)
      && (q.marks == p.marks || (local.Some? && q.marks == p.marks + {local.value.id} && k !in q.blocked))
      && (q.acks == p.acks || (remote.Some? && q.acks == p.acks + {remote.value.id} && k !in q.blocked))
      && (k in p.blocked ==> q == p.(blocked := q.blocked))
      && (k in q.blocked ==> q.marks == p.marks && q.acks == p.acks)
  {
  }

  lemma GatheredGrows(ids: set<nat>, ids': set<nat>, m: map<Key, Entry>, todo: set<Key>, blocked: set<Key>,
                      blocked': set<Key>, k: Key)
    requires Gathered(ids, m, todo, blocked) && k in todo
    requires forall j | j != k :: j in blocked' <==> j in blocked
    requires ids' == ids || (k in m && k !in blocked' && ids' == ids + {m[k].id})
    ensures Gathered(ids', m, todo - {k}, blocked')
  {
    forall id | id in ids' ensures exists j :: j in m && j !in todo - {k} && j !in blocked' && m[j].id == id {
      if id in ids {
        var j :| j in m && j !in todo && j !in blocked && m[j].id == id;
      } else {
        assert k in m && k !in todo - {k};
      }
    }
  }

  lemma StepKeepsLogs(conf: Settings, me: Daemon, peer: Daemon, a: Action)
    requires Valid(me, peer) && Can(me, peer, a)
    ensures var (me', peer') := Step(conf, me, peer, a);
      && LogGrows(me.node, me'.node) && LogGrows(peer.node, peer'.node)
      && ValidNode(me'.node) && ValidNode(peer'.node)
      && peer' == peer.(node := peer'.node)
  {
    if a.Handle? {
      ProcessFrame(conf, PassOf(me, peer), a.key, At(me.phase.local, a.key), At(me.phase.remote, a.key), a.env);
    }
  }

  /** Every step of either node, whatever else goes on, keeps the invariant. */
  lemma StepKeepsValid(conf: Settings, me: Daemon, peer: Daemon, a: Action)
    requires Valid(me, peer) && Can(me, peer, a)
    ensures Valid(Step(conf, me, peer, a).0, Step(conf, me, peer, a).1)
  {
    var (me', peer') := Step(conf, me, peer, a);
    StepKeepsLogs(conf, me, peer, a);
    PhaseStays(peer, me.node, peer'.node, me'.node);
    PhaseStays(me, peer.node, me'.node, peer'.node);
    match a {
      case Fetch(remote) => FreshSnapshot(remote, peer.node);
      case Read(local) => FreshSnapshot(local, me.node);
      case Handle(k, env) =>
        var ph := me.phase;
        ProcessFrame(conf, PassOf(me, peer), k, At(ph.local, k), At(ph.remote, k), env);
        GatheredGrows(ph.marks, me'.phase.marks, ph.local, ph.todo, me.blocked, me'.blocked, k);
        GatheredGrows(ph.acks, me'.phase.acks, ph.remote, ph.todo, me.blocked, me'.blocked, k);
      case _ =>
    }
  }

  lemma {:induction false} RunKeepsValid(states: seq<System>, moves: seq<Move>, i: nat)
    requires IsRun(states, moves) && ValidSystem(states[0]) && i < |states|
    ensures ValidSystem(states[i])
  {
    if i > 0 {
      RunKeepsValid(states, moves, i - 1);
      var s, m := states[i - 1], moves[i - 1];
      assert Follows(s, m, states[i]);
      StepKeepsValid(s.conf, Get(s, m.side), Get(s, Other(m.side)), m.action);
    }
  }
}
