/** What whole cycles leave in the log when the peer is quiet and nothing fails
    (internal/reconciler/reconciler.go:61-199). */
module Draining {
  import opened Changelog
  import opened Cycle
  import opened Pointwise

  /** MarkSynced on the own log, then AckTransfer on the peer's. */
  function Finish(p: Pass): (r: (Node, Node)) {
    (p.me.(rows := MarkSynced(p.me.rows, p.marks)), p.peer.(rows := MarkPeerAck(p.peer.rows, p.acks)))
  }

  /** One uninterrupted cycle: the two snapshots it works on and the order of its keys. */
  datatype Round = Round(local: map<Key, Entry>, remote: map<Key, Entry>, order: seq<Key>)

  ghost predicate Faithful(me: Node, peer: Node, c: Round) {
    && NewestUnsynced(c.local, me.rows)
    && NewestUnsynced(c.remote, peer.rows)
    && Distinct(c.order)
    && KeysOf(c.order) == c.local.Keys + c.remote.Keys
  }

  function ViewOf(conf: Settings, me: Node, peer: Node, c: Round): View {
    View(conf, me, peer, c.local, c.remote)
  }

  function PlayRound(conf: Settings, me: Node, peer: Node, c: Round, env: Key -> Env): (Node, Node) {
    Finish(Loop(ViewOf(conf, me, peer, c), {}, c.order, env))
  }

  /** A pair this node knows and has pending entries of is known to the peer. */
  ghost predicate PairsKnown(me: Node, peer: Node) {
    forall id | IsUnsynced(me.rows, id) ::
      me.rows[id].entry.key.pair in me.pairs ==> me.rows[id].entry.key.pair in peer.pairs
  }

  ghost predicate Smooth(env: Key -> Env) {
    forall k :: env(k).callOk && env(k).replyOk && env(k).moveOk
  }

  /** With nothing failing and nothing blocked, each known key with a local entry gets
      its newest entry marked, under every policy but manual. */
  lemma {:induction false} LoopMarksAll(v: View, order: seq<Key>, env: Key -> Env)
    requires WellKeyed(v) && !v.conf.policy.Manual? && Distinct(order) && Smooth(env)
    requires NewestUnsynced(v.remote, v.peer.rows)
    requires forall k | k in v.local && k.pair in v.me.pairs :: k.pair in v.peer.pairs
    ensures var p := Loop(v, {}, order, env);
      && p.me == v.me.(tree := p.me.tree) && p.peer == v.peer.(tree := p.peer.tree) && p.blocked == {}
      && p.marks == set k | k in order && k in v.local && k.pair in v.me.pairs :: v.local[k].id
  {
    if order != [] {
      var n := |order| - 1;
      var k := order[n];
      LoopMarksAll(v, order[..n], env);
      assert order == order[..n] + [k];
      var p := Loop(v, {}, order[..n], env);
      assert k in v.local && k !in v.remote ==> !HasUnsynced(p.peer.rows, k);
      ProcessMarks(v, p, k, env(k));
    }
  }

  lemma ProcessMarks(v: View, p: Pass, k: Key, env: Env)
    requires WellKeyed(v) && !v.conf.policy.Manual? && env.callOk && env.replyOk && env.moveOk && p.blocked == {}
    requires p.me.pairs == v.me.pairs && p.peer.pairs == v.peer.pairs
    requires k in v.local && k.pair in v.me.pairs ==> k.pair in v.peer.pairs
    requires k in v.local && k !in v.remote ==> !HasUnsynced(p.peer.rows, k)
    ensures var q := Process(v.conf, p, k, At(v.local, k), At(v.remote, k), env);
      && q.me == p.me.(tree := q.me.tree) && q.peer == p.peer.(tree := q.peer.tree) && q.blocked == {}
      && q.marks == p.marks + if k in v.local && k.pair in v.me.pairs then {v.local[k].id} else {}
  {
  }

  /** The keys a cycle marks at this node. */
  function MarkedKeys(me: Node, c: Round): set<Key> {
    set k | k in c.local && k.pair in me.pairs
  }

  function AllUnsynced(rs: Rows): set<nat> {
    set id | id in rs && !rs[id].synced
  }

  lemma {:induction false} ImageSize(m: map<Key, Entry>, ks: set<Key>)
    requires ks <= m.Keys
    requires forall j, k | j in ks && k in ks && j != k :: m[j].id != m[k].id
    ensures |set k | k in ks :: m[k].id| == |ks|
  {
    if ks != {} {
      var k :| k in ks;
      ImageSize(m, ks - {k});
      assert (set j | j in ks :: m[j].id) == (set j | j in ks - {k} :: m[j].id) + {m[k].id};
    }
  }

  /** The ids a cycle marks: the newest entry of each known key. */
  function MarkedIds(me: Node, c: Round): set<nat> {
    set k | k in c.local && k.pair in me.pairs :: c.local[k].id
  }

  lemma RoundOutcome(conf: Settings, me: Node, peer: Node, c: Round, env: Key -> Env)
    requires !conf.policy.Manual? && Smooth(env) && Faithful(me, peer, c) && PairsKnown(me, peer)
    ensures var (me', peer') := PlayRound(conf, me, peer, c, env);
      && me' == me.(tree := me'.tree, rows := MarkSynced(me.rows, MarkedIds(me, c)))
      && peer' == peer.(tree := peer'.tree, rows := peer'.rows)
      && AllUnsynced(peer'.rows) == AllUnsynced(peer.rows)
  {
    var v := ViewOf(conf, me, peer, c);
    forall k | k in c.local ensures (k.pair in me.pairs ==> k.pair in peer.pairs) && k in c.order {
      assert IsUnsynced(me.rows, c.local[k].id);
      assert k in KeysOf(c.order);
    }
    LoopMarksAll(v, c.order, env);
    assert Loop(v, {}, c.order, env).marks == MarkedIds(me, c);
  }

  /** The keys of known pairs with an unsynced entry. */
  function PendingKeys(n: Node): set<Key> {
    set id | id in n.rows && !n.rows[id].synced && n.rows[id].entry.key.pair in n.pairs :: n.rows[id].entry.key
  }

  /** The entry of `k` that a cycle marks. */
  function Taken(me: Node, c: Round, k: Key): set<nat> {
    if k in c.local && k.pair in me.pairs then {c.local[k].id} else {}
  }

  /** A cycle lowers the number of unsynced entries by exactly the number of known-pair keys
      that have one: each such key loses its newest, and the peer's flags stay. */
  lemma RoundDrains(conf: Settings, me: Node, peer: Node, c: Round, env: Key -> Env)
    requires !conf.policy.Manual? && Smooth(env) && Faithful(me, peer, c) && PairsKnown(me, peer)
    ensures var (me', peer') := PlayRound(conf, me, peer, c, env);
      && |AllUnsynced(me'.rows)| == |AllUnsynced(me.rows)| - |MarkedKeys(me, c)|
      && MarkedKeys(me, c) == PendingKeys(me)
      && (forall k :: UnsyncedIds(me'.rows, k) == UnsyncedIds(me.rows, k) - Taken(me, c, k))
      && AllUnsynced(peer'.rows) == AllUnsynced(peer.rows)
  {
    RoundOutcome(conf, me, peer, c, env);
    RoundKeys(me, peer, c);
    RoundSize(me, peer, c);
    forall k ensures UnsyncedIds(MarkSynced(me.rows, MarkedIds(me, c)), k) == UnsyncedIds(me.rows, k) - Taken(me, c,
        k) {
      RoundTakesNewest(me, peer, c, k);
    }
  }

  lemma RoundSize(me: Node, peer: Node, c: Round)
    requires Faithful(me, peer, c) && PairsKnown(me, peer)
    ensures |AllUnsynced(MarkSynced(me.rows, MarkedIds(me, c)))| == |AllUnsynced(me.rows)| - |MarkedKeys(me, c)|
  {
    MarkedSize(me, peer, c);
    MarkingRemoves(me.rows, MarkedIds(me, c));
    RemovalSize(AllUnsynced(me.rows), MarkedIds(me, c));
  }

  /** Different keys have different newest entries. */
  lemma MarkedSize(me: Node, peer: Node, c: Round)
    requires Faithful(me, peer, c)
    ensures |MarkedIds(me, c)| == |MarkedKeys(me, c)|
  {
    forall j, k | j in c.local && k in c.local && j != k ensures c.local[j].id != c.local[k].id {
      assert IsUnsynced(me.rows, c.local[j].id) && IsUnsynced(me.rows, c.local[k].id);
    }
    ImageSize(c.local, MarkedKeys(me, c));
    assert MarkedIds(me, c) == set k | k in MarkedKeys(me, c) :: c.local[k].id;
  }

  lemma MarkingRemoves(rs: Rows, ids: set<nat>)
    ensures AllUnsynced(MarkSynced(rs, ids)) == AllUnsynced(rs) - ids
  {
  }

  lemma RemovalSize(a: set<nat>, b: set<nat>)
    requires b <= a
    ensures |a - b| == |a| - |b|
  {
    assert a == (a - b) + b;
  }

  lemma RoundKeys(me: Node, peer: Node, c: Round)
    requires Faithful(me, peer, c)
    ensures MarkedKeys(me, c) == PendingKeys(me)
  {
    forall k | k in MarkedKeys(me, c) ensures k in PendingKeys(me) {
      assert IsUnsynced(me.rows, c.local[k].id);
    }
    forall id | id in me.rows && !me.rows[id].synced ensures me.rows[id].entry.key in c.local {
      assert IsUnsynced(me.rows, id);
    }
  }

  lemma RoundTakesNewest(me: Node, peer: Node, c: Round, k: Key)
    requires Faithful(me, peer, c)
    ensures UnsyncedIds(MarkSynced(me.rows, MarkedIds(me, c)), k) == UnsyncedIds(me.rows, k) - Taken(me, c, k)
  {
    forall id | id in UnsyncedIds(me.rows, k) ensures id in MarkedIds(me, c) <==> id in Taken(me, c, k) {
      assert IsUnsynced(me.rows, id);
      if id in MarkedIds(me, c) {
        var j :| j in c.local && j.pair in me.pairs && c.local[j].id == id;
      }
    }
  }

  /** A cycle together with what the outside world answers while it lasts. */
  datatype Turn = Turn(round: Round, env: Key -> Env)

  function Play(conf: Settings, me: Node, peer: Node, ts: seq<Turn>): (Node, Node)
    decreases |ts|
  {
    if ts == [] then (me, peer)
    else
      var (me', peer') := PlayRound(conf, me, peer, ts[0].round, ts[0].env);
      Play(conf, me', peer', ts[1..])
  }

  /** Every cycle works on snapshots of the logs as they are then, and nothing fails. */
  ghost predicate Clean(conf: Settings, me: Node, peer: Node, ts: seq<Turn>)
    decreases |ts|
  {
    ts == [] ||
    (Faithful(me, peer, ts[0].round) && Smooth(ts[0].env) &&
     var (me', peer') := PlayRound(conf, me, peer, ts[0].round, ts[0].env);
     Clean(conf, me', peer', ts[1..]))
  }

  /** No entry of a known pair is unsynced. */
  ghost predicate Drained(n: Node) {
    forall id | IsUnsynced(n.rows, id) :: n.rows[id].entry.key.pair !in n.pairs
  }

  /** After as many cycles as the largest number of unsynced entries of one known-pair key,
      nothing of a known pair is unsynced, whatever the order of keys in each cycle. */
  lemma {:induction false} LogDrains(conf: Settings, me: Node, peer: Node, ts: seq<Turn>)
    requires !conf.policy.Manual? && Clean(conf, me, peer, ts) && PairsKnown(me, peer)
    requires forall k: Key | k.pair in me.pairs :: |UnsyncedIds(me.rows, k)| <= |ts|
    ensures Drained(Play(conf, me, peer, ts).0)
    decreases |ts|
  {
    if ts == [] {
      forall id | IsUnsynced(me.rows, id) ensures me.rows[id].entry.key.pair !in me.pairs {
        assert id in UnsyncedIds(me.rows, me.rows[id].entry.key);
      }
    } else {
      var c, env := ts[0].round, ts[0].env;
      var (me', peer') := PlayRound(conf, me, peer, c, env);
      RoundDrains(conf, me, peer, c, env);
      RoundOutcome(conf, me, peer, c, env);
      assert forall id | IsUnsynced(me'.rows, id) :: IsUnsynced(me.rows, id);
      forall k: Key | k.pair in me'.pairs ensures |UnsyncedIds(me'.rows, k)| <= |ts[1..]| {
        OneFewer(me, peer, c, k);
      }
      LogDrains(conf, me', peer', ts[1..]);
    }
  }

  lemma OneFewer(me: Node, peer: Node, c: Round, k: Key)
    requires Faithful(me, peer, c) && k.pair in me.pairs
    ensures |UnsyncedIds(me.rows, k) - Taken(me, c, k)| == if UnsyncedIds(me.rows, k) == {} then 0
        else |UnsyncedIds(me.rows, k)| - 1
  {
    if UnsyncedIds(me.rows, k) != {} {
      var id :| id in UnsyncedIds(me.rows, k);
      assert IsUnsynced(me.rows, id) && k in c.local;
      assert IsUnsynced(me.rows, c.local[k].id);
    }
  }

  /** Once the own log is drained a further cycle changes no tree and no synced flag on
      either node: a delete still waiting at the peer is refused by the peer itself. */
  lemma DrainedIsStable(conf: Settings, me: Node, peer: Node, c: Round, env: Key -> Env)
    requires Faithful(me, peer, c) && Drained(me)
    ensures var (me', peer') := PlayRound(conf, me, peer, c, env);
      && me' == me
      && peer' == peer.(rows := peer'.rows)
      && peer'.rows.Keys == peer.rows.Keys
      && forall id | id in peer.rows :: peer'.rows[id] == peer.rows[id].(peerAck := peer'.rows[id].peerAck)
  {
    forall k | k in c.local ensures k.pair !in me.pairs {
      assert IsUnsynced(me.rows, c.local[k].id);
    }
    IdleLoop(ViewOf(conf, me, peer, c), c.order, env);
  }

  lemma {:induction false} IdleLoop(v: View, order: seq<Key>, env: Key -> Env)
    requires (forall k | k in v.local :: k.pair !in v.me.pairs) && NewestUnsynced(v.remote, v.peer.rows)
    ensures var p := Loop(v, {}, order, env);
      p.me == v.me && p.peer == v.peer && p.blocked == {} && p.marks == {}
  {
    if order != [] {
      var n := |order| - 1;
      IdleLoop(v, order[..n], env);
      var k := order[n];
      assert k in v.remote ==> HasUnsynced(v.peer.rows, k);
    }
  }
}
