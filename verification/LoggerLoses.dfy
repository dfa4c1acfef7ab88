/** Two runs in which one node alone logs a path, nothing is edited and nothing fails, and the
    other node, which logged nothing, removes the logger's newer file: its fetch saw an older
    delete that the logger settled before the other's turn came
    (internal/reconciler/reconciler.go:126-131, internal/reconciler/reconciler.go:231-256,
    internal/grpc/server.go:118-136). */
module LoggerLoses {
  import opened Wrappers
  import opened Changelog
  import opened Conflict
  import opened Cycle
  import opened Protocol
  import opened SingleCycles
  import opened BothCycles
  import opened OldestLast
  import opened Dormant

  const CONF: Settings := Settings(Lww, ".bisync-conflicts")

  /** The logger's entries are numbered from 1 on, in the order of their stamps. */
  function Logged(k: Key, id: nat, kind: Kind): Entry { Entry(id, k, kind, Stamp(id, 0), "a") }

  function RowsOf(k: Key, kinds: seq<Kind>, synced: set<nat>, acked: set<nat>): Rows {
    map i: nat | 1 <= i <= |kinds| :: Row(Logged(k, i, kinds[i - 1]), i in synced, i in acked, "")
  }

  function Logger(k: Key, kinds: seq<Kind>, file: Option<Content>, synced: set<nat>, acked: set<nat>): Daemon {
    Daemon(Node("a", {k.pair}, TreeOf(k, file), RowsOf(k, kinds, synced, acked), |kinds| + 1), {}, Idle)
  }

  lemma Flags(k: Key, kinds: seq<Kind>, synced: set<nat>, acked: set<nat>, id: nat)
    ensures MarkSynced(RowsOf(k, kinds, synced, acked), {id}) == RowsOf(k, kinds, synced + {id}, acked)
    ensures MarkPeerAck(RowsOf(k, kinds, synced, acked), {id}) == RowsOf(k, kinds, synced, acked + {id})
  {
  }

  /** The newest entry that is not settled makes up a snapshot. */
  lemma IsSnapshot(k: Key, kinds: seq<Kind>, synced: set<nat>, acked: set<nat>, id: nat)
    requires IsNext(kinds, synced, id)
    ensures NewestUnsynced(map[k := Logged(k, id, kinds[id - 1])], RowsOf(k, kinds, synced, acked))
  {
  }

  function TreeOf(k: Key, file: Option<Content>): Tree { if file.Some? then map[k := file.value] else map[] }

  function Peer(k: Key, file: Option<Content>, phase: Phase): Daemon {
    Daemon(Node("b", {k.pair}, TreeOf(k, file), map[], 1), {}, phase)
  }

  /** The peer's cycle after its read. */
  function Seen(k: Key, e: Entry, todo: set<Key>, acks: set<nat>): Phase {
    Looping(map[k := e], map[], todo, {}, acks)
  }

  /** The peer fetches the delete `e` and reads its own empty log. */
  lemma PeerReads(k: Key, x: Daemon, file: Option<Content>, e: Entry)
    requires NewestUnsynced(map[k := e], x.node.rows)
    ensures Reaches(System(CONF, x, Peer(k, file, Idle)), System(CONF, x, Peer(k, file, Seen(k, e, {k}, {}))))
  {
    var s, t, u := System(CONF, x, Peer(k, file, Idle)), System(CONF, x, Peer(k, file, Fetched(map[k := e]))),
        System(CONF, x, Peer(k, file, Seen(k, e, {k}, {})));
    var none: map<Key, Entry>, remote := map[], map[k := e];
    assert none.Keys + remote.Keys == {k};
    assert Follows(s, Move(Right, Fetch(remote)), t) && Follows(t, Move(Right, Read(none)), u);
    ReachesStep(s, Move(Right, Fetch(remote)), t);
    ReachesStep(t, Move(Right, Read(none)), u);
    ReachesOn(s, t, u);
  }

  /** It takes the file at the logger, where nothing is pending, and ends its cycle. */
  lemma PeerTakes(k: Key, x: Daemon, x': Daemon, y: Option<Content>, e: Entry)
    requires e.key == k && e.kind.Delete? && x.phase.Idle? && k.pair in x.node.pairs
    requires UnsyncedIds(x.node.rows, k) == {}
    requires x' == x.(node := x.node.(tree := x.node.tree - {k}, rows := MarkPeerAck(x.node.rows, {e.id})))
    ensures Reaches(System(CONF, x, Peer(k, y, Seen(k, e, {k}, {}))), System(CONF, x', Peer(k, y, Idle)))
  {
    var gone := x.(node := x.node.(tree := x.node.tree - {k}));
    var s := System(CONF, x, Peer(k, y, Seen(k, e, {k}, {})));
    var t := System(CONF, gone, Peer(k, y, Seen(k, e, {}, {e.id})));
    var u, w := System(CONF, gone, Peer(k, y, Marked(map[k := e], {e.id}))), System(CONF, x', Peer(k, y, Idle));
    NothingGuards(x.node.rows, k);
    assert {k} - {k} == {} && {} + {e.id} == {e.id};
    assert MarkSynced(map[], {}) == map[];
    assert Follows(s, Move(Right, Handle(k, ALL_GOOD)), t) && Follows(t, Move(Right, Mark(true)), u)
        && Follows(u, Move(Right, Ack(true)), w);
    ReachesStep(s, Move(Right, Handle(k, ALL_GOOD)), t);
    ReachesStep(t, Move(Right, Mark(true)), u);
    ReachesStep(u, Move(Right, Ack(true)), w);
    ReachesOn(s, t, u);
    ReachesOn(s, u, w);
  }

  /** A cycle of the logger on one pending entry, which sends the file or removes the peer's. */
  lemma LoggerCycles(k: Key, x: Daemon, x': Daemon, file: Content, was: Option<Content>, phase: Phase, e: Entry)
    requires x.phase.Idle? && x.blocked == {} && x.node.tree == map[k := file] && k.pair in x.node.pairs
    requires e.key == k && NewestUnsynced(map[k := e], x.node.rows)
    requires x' == x.(node := x.node.(rows := MarkSynced(x.node.rows, {e.id})))
    ensures Reaches(System(CONF, x, Peer(k, was, phase)),
                    System(CONF, x', Peer(k, if e.kind.Delete? then None else Some(file), phase)))
  {
    var s := System(CONF, x, Peer(k, was, phase));
    var a := Single(Left, k, map[k := e], map[]);
    var to := if e.kind.Delete? then None else Some(file);
    assert TreeOf(k, was)[k := file] == map[k := file] && TreeOf(k, was) - {k} == map[];
    var none: map<Key, Entry>, local := map[], map[k := e];
    assert local.Keys + none.Keys == {k};
    assert TurnOn(s, a, k) == Pass(x.node, s.right.node.(tree := TreeOf(k, to)), {}, {e.id}, {});
    SingleCycle(s, Left, k, local, none);
    ReachesCycle(s, Left, k, local, none);
    assert MarkPeerAck(map[], {}) == map[];
  }

  function Stage(k: Key, kinds: seq<Kind>, file: Option<Content>, synced: set<nat>, was: Option<Content>, phase: Phase)
    : System
  {
    System(CONF, Logger(k, kinds, file, synced, {}), Peer(k, was, phase))
  }

  function Sent(kind: Kind, file: Content): Option<Content> { if kind.Delete? then None else Some(file) }

  /** `id` is the newest entry that is not settled. */
  predicate IsNext(kinds: seq<Kind>, synced: set<nat>, id: nat) {
    1 <= id <= |kinds| && id !in synced && forall j | id < j <= |kinds| :: j in synced
  }

  lemma Settles(k: Key, kinds: seq<Kind>, file: Content, synced: set<nat>, was: Option<Content>, phase: Phase, id: nat)
    requires IsNext(kinds, synced, id)
    ensures Reaches(Stage(k, kinds, Some(file), synced, was, phase),
                    Stage(k, kinds, Some(file), synced + {id}, Sent(kinds[id - 1], file), phase))
  {
    IsSnapshot(k, kinds, synced, {}, id);
    Flags(k, kinds, synced, {}, id);
    var x, x' := Logger(k, kinds, Some(file), synced, {}), Logger(k, kinds, Some(file), synced + {id}, {});
    LoggerCycles(k, x, x', file, was, phase, Logged(k, id, kinds[id - 1]));
  }

  lemma Reads(k: Key, kinds: seq<Kind>, file: Content, synced: set<nat>, was: Option<Content>, id: nat)
    requires IsNext(kinds, synced, id)
    ensures Reaches(Stage(k, kinds, Some(file), synced, was, Idle),
                    Stage(k, kinds, Some(file), synced, was, Seen(k, Logged(k, id, kinds[id - 1]), {k}, {})))
  {
    IsSnapshot(k, kinds, synced, {}, id);
    PeerReads(k, Logger(k, kinds, Some(file), synced, {}), was, Logged(k, id, kinds[id - 1]));
  }

  lemma Ends(k: Key, kinds: seq<Kind>, file: Content, synced: set<nat>, was: Option<Content>, id: nat)
    requires 1 <= id <= |kinds| && kinds[id - 1].Delete? && forall j | 1 <= j <= |kinds| :: j in synced
    ensures Reaches(Stage(k, kinds, Some(file), synced, was, Seen(k, Logged(k, id, kinds[id - 1]), {k}, {})),
                    System(CONF, Logger(k, kinds, None, synced, {id}), Peer(k, was, Idle)))
  {
    Flags(k, kinds, synced, {}, id);
    assert map[k := file] - {k} == map[] && {} + {id} == {id};
    PeerTakes(k, Logger(k, kinds, Some(file), synced, {}), Logger(k, kinds, None, synced, {id}), was,
        Logged(k, id, kinds[id - 1]));
  }

  predicate BothIdle(s: System) { s.left.phase.Idle? && s.right.phase.Idle? }

  /* ---- a delete and a newer create ---- */

  const TWO: seq<Kind> := [Delete, Create]

  function TwoStart(k: Key, file: Content): System { Stage(k, TWO, Some(file), {}, None, Idle) }

  function TwoEnd(k: Key): System {
    System(CONF, Logger(k, TWO, None, {} + {2} + {1}, {1}), Peer(k, None, Idle))
  }

  /** The logger sends the file; the peer fetches and sees the delete; the logger's second
      cycle removes the file at the peer; the peer's turn removes it at the logger. */
  lemma TwoReaches(k: Key, file: Content)
    ensures Reaches(TwoStart(k, file), TwoEnd(k))
  {
    var f, seen := Some(file), Seen(k, Logged(k, 1, Delete), {k}, {});
    Settles(k, TWO, file, {}, None, Idle, 2);
    Reads(k, TWO, file, {} + {2}, f, 1);
    Settles(k, TWO, file, {} + {2}, f, seen, 1);
    Ends(k, TWO, file, {} + {2} + {1}, None, 1);
    ReachesLast([TwoStart(k, file), Stage(k, TWO, f, {} + {2}, f, Idle), Stage(k, TWO, f, {} + {2}, f, seen),
                 Stage(k, TWO, f, {} + {2} + {1}, None, seen), TwoEnd(k)]);
  }

  /** The file that was created last is lost on both nodes, and nothing is pending. */
  lemma FileCanBeLost(k: Key, file: Content)
    ensures LoneAt(TwoStart(k, file), k, Left) && BothIdle(TwoStart(k, file))
    ensures FilesIn(TwoStart(k, file), k) == (Some(file), None)
    ensures Reaches(TwoStart(k, file), TwoEnd(k)) && IsDormant(TwoEnd(k), k) && FilesIn(TwoEnd(k), k) == (None, None)
  {
    TwoReaches(k, file);
  }

  /* ---- a create, a delete and a newer create ---- */

  const THREE: seq<Kind> := [Create, Delete, Create]

  function ThreeStart(k: Key, file: Content): System { Stage(k, THREE, Some(file), {}, None, Idle) }

  function ThreeEnd(k: Key, file: Content): System {
    System(CONF, Logger(k, THREE, None, {} + {3} + {2} + {1}, {2}), Peer(k, Some(file), Idle))
  }

  /** The peer fetches after the logger's first cycle; two more follow before its turn. */
  lemma ThreeReaches(k: Key, file: Content)
    ensures Reaches(ThreeStart(k, file), ThreeEnd(k, file))
  {
    var f, seen := Some(file), Seen(k, Logged(k, 2, Delete), {k}, {});
    Settles(k, THREE, file, {}, None, Idle, 3);
    Reads(k, THREE, file, {} + {3}, f, 2);
    Settles(k, THREE, file, {} + {3}, f, seen, 2);
    Settles(k, THREE, file, {} + {3} + {2}, None, seen, 1);
    Ends(k, THREE, file, {} + {3} + {2} + {1}, f, 2);
    ReachesLast([ThreeStart(k, file), Stage(k, THREE, f, {} + {3}, f, Idle), Stage(k, THREE, f, {} + {3}, f, seen),
                 Stage(k, THREE, f, {} + {3} + {2}, None, seen), Stage(k, THREE, f, {} + {3} + {2} + {1}, f, seen),
                 ThreeEnd(k, file)]);
  }

  /** The logger has lost the file, the other node has it, and nothing is pending, although the
      oldest entry is no delete. */
  lemma LoggerCanLose(k: Key, file: Content)
    ensures LoneAt(ThreeStart(k, file), k, Left) && BothIdle(ThreeStart(k, file))
    ensures FilesIn(ThreeStart(k, file), k) == (Some(file), None)
    ensures Reaches(ThreeStart(k, file), ThreeEnd(k, file))
    ensures IsDormant(ThreeEnd(k, file), k) && FilesIn(ThreeEnd(k, file), k) == (None, Some(file))
  {
    ThreeReaches(k, file);
  }
}
