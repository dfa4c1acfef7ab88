/** Run's loop goes over a Go map, so in any order. Here the loop over any order is
    shown to compute one key-by-key specification (internal/reconciler/reconciler.go:94-192). */
module Pointwise {
  import opened Wrappers
  import opened Changelog
  import opened Conflict
  import opened Cycle

  /** What a cycle sees of the two nodes and never changes while it loops. */
  datatype View = View(conf: Settings, me: Node, peer: Node, local: map<Key, Entry>, remote: map<Key, Entry>)

  ghost predicate WellKeyed(v: View) {
    && (forall k | k in v.local :: v.local[k].key == k)
    && (forall k | k in v.remote :: v.remote[k].key == k)
  }

  function Keys(v: View): set<Key> { v.local.Keys + v.remote.Keys }

  predicate LocalDelete(v: View, k: Key) { k in v.local && v.local[k].kind.Delete? }
  predicate LocalUpsert(v: View, k: Key) { k in v.local && !v.local[k].kind.Delete? }
  predicate RemoteDelete(v: View, k: Key) { k in v.remote && v.remote[k].kind.Delete? }
  predicate RemoteUpsert(v: View, k: Key) { k in v.remote && !v.remote[k].kind.Delete? }

  /** The key is neither blocked nor of a pair this node does not know. */
  predicate Handled(v: View, blocked: set<Key>, k: Key) {
    k !in blocked && k.pair in v.me.pairs
  }

  /** Two creates or modifies under the manual policy. */
  predicate Clashes(v: View, blocked: set<Key>, k: Key) {
    Handled(v, blocked, k) && v.conf.policy.Manual? && LocalUpsert(v, k) && RemoteUpsert(v, k)
  }

  /** A delete known to one side only. */
  predicate AsksDelete(v: View, blocked: set<Key>, k: Key) {
    && Handled(v, blocked, k)
    && ((LocalDelete(v, k) && k !in v.remote) || (k !in v.local && RemoteDelete(v, k)))
  }

  predicate Refuses(v: View, env: Env, k: Key) {
    !env.callOk || k.pair !in v.peer.pairs || HasUnsynced(v.peer.rows, k)
  }

  /** The local create or modify stands: nobody contests it, or it is the winner. */
  predicate LocalStands(v: View, k: Key) {
    LocalUpsert(v, k) && (RemoteUpsert(v, k) ==> Resolve(v.conf.policy, v.local[k], v.remote[k]).Local?)
  }

  predicate Sends(v: View, blocked: set<Key>, k: Key) {
    Handled(v, blocked, k) && LocalStands(v, k) && k in v.me.tree
  }

  predicate Fails(v: View, blocked: set<Key>, env: Env, k: Key) {
    || (AsksDelete(v, blocked, k) && (Refuses(v, env, k) || !env.replyOk))
    || (Sends(v, blocked, k) && !(env.callOk && env.replyOk))
  }

  /** The key's entries are recorded as dealt with. */
  predicate Settles(v: View, blocked: set<Key>, env: Env, k: Key) {
    Handled(v, blocked, k) && !Clashes(v, blocked, k) && !Fails(v, blocked, env, k)
  }

  function FileAfter(v: View, blocked: set<Key>, env: Env, k: Key): Option<Content> {
    if AsksDelete(v, blocked, k) && !Refuses(v, env, k) then None
    else if Sends(v, blocked, k) && env.callOk then Some(v.me.tree[k])
    else FileAt(v.peer.tree, k)
  }

  predicate BlockedAfter(v: View, blocked: set<Key>, k: Key) {
    if k in blocked then !(LocalDelete(v, k) && !RemoteUpsert(v, k)) else Clashes(v, blocked, k)
  }

  /** The whole pass over `keys`, told key by key. */
  function PassSpec(v: View, blocked: set<Key>, keys: set<Key>, env: Key -> Env): Pass {
    Pass(
      v.me,
      v.peer.(tree := map k | k in v.peer.tree.Keys + keys &&
                              (k in keys ==> FileAfter(v, blocked, env(k), k).Some?)
                      :: if k in keys then FileAfter(v, blocked, env(k), k).value else v.peer.tree[k]),
      set k | k in blocked + keys && (k in keys ==> BlockedAfter(v, blocked, k)),
      set k | k in keys && k in v.local && Settles(v, blocked, env(k), k) :: v.local[k].id,
      set k | k in keys && k in v.remote && Settles(v, blocked, env(k), k) :: v.remote[k].id)
  }

  function Start(v: View, blocked: set<Key>): Pass { Pass(v.me, v.peer, blocked, {}, {}) }

  /** The loop, one key after another in the given order. */
  function Loop(v: View, blocked: set<Key>, order: seq<Key>, env: Key -> Env): Pass {
    if order == [] then Start(v, blocked)
    else
      var k := order[|order| - 1];
      Process(v.conf, Loop(v, blocked, order[..|order| - 1], env), k, At(v.local, k), At(v.remote, k), env(k))
  }

  function Put(tree: Tree, k: Key, file: Option<Content>): Tree {
    if file.Some? then tree[k := file.value] else tree - {k}
  }

  function With<T>(s: set<T>, x: T, present: bool): set<T> {
    if present then s + {x} else s - {x}
  }

  /** A pass that has left `k` alone so far. */
  ghost predicate Untouched(v: View, blocked: set<Key>, p: Pass, k: Key) {
    && p.me == v.me
    && p.peer == v.peer.(tree := p.peer.tree)
    && FileAt(p.peer.tree, k) == FileAt(v.peer.tree, k)
    && (k in p.blocked <==> k in blocked)
  }

  /** `q` is `p` with the specified share of `k` added. */
  ghost predicate AsSpecified(v: View, blocked: set<Key>, p: Pass, k: Key, env: Env, q: Pass) {
    && q.me == v.me
    && q.peer == v.peer.(tree := Put(p.peer.tree, k, FileAfter(v, blocked, env, k)))
    && q.blocked == With(p.blocked, k, BlockedAfter(v, blocked, k))
    && q.marks == p.marks + (if k in v.local && Settles(v, blocked, env, k) then {v.local[k].id} else {})
    && q.acks == p.acks + (if k in v.remote && Settles(v, blocked, env, k) then {v.remote[k].id} else {})
  }

  lemma ContestedMeetsSpec(v: View, blocked: set<Key>, p: Pass, k: Key, env: Env)
    requires WellKeyed(v) && !v.conf.policy.KeepBoth? && Untouched(v, blocked, p, k)
    requires k in v.local && k in v.remote
    ensures AsSpecified(v, blocked, p, k, env, Process(v.conf, p, k, At(v.local, k), At(v.remote, k), env))
  {
    assert Put(p.peer.tree, k, FileAt(p.peer.tree, k)) == p.peer.tree;
    assert With(p.blocked, k, k in p.blocked) == p.blocked;
  }

  lemma LoneMeetsSpec(v: View, blocked: set<Key>, p: Pass, k: Key, env: Env)
    requires WellKeyed(v) && !v.conf.policy.KeepBoth? && Untouched(v, blocked, p, k)
    requires k !in v.local || k !in v.remote
    ensures AsSpecified(v, blocked, p, k, env, Process(v.conf, p, k, At(v.local, k), At(v.remote, k), env))
  {
    assert Put(p.peer.tree, k, FileAt(p.peer.tree, k)) == p.peer.tree;
    assert With(p.blocked, k, k in p.blocked) == p.blocked;
  }

  /** Processing a key the pass has not touched does what the specification says of it. */
  lemma ProcessMeetsSpec(v: View, blocked: set<Key>, p: Pass, k: Key, env: Env)
    requires WellKeyed(v) && !v.conf.policy.KeepBoth? && Untouched(v, blocked, p, k)
    ensures AsSpecified(v, blocked, p, k, env, Process(v.conf, p, k, At(v.local, k), At(v.remote, k), env))
  {
    if k in v.local && k in v.remote {
      ContestedMeetsSpec(v, blocked, p, k, env);
    } else {
      LoneMeetsSpec(v, blocked, p, k, env);
    }
  }

  lemma SpecAddsFile(v: View, blocked: set<Key>, done: set<Key>, k: Key, env: Key -> Env)
    requires k !in done
    ensures PassSpec(v, blocked, done + {k}, env).peer.tree
         == Put(PassSpec(v, blocked, done, env).peer.tree, k, FileAfter(v, blocked, env(k), k))
  {
  }

  lemma SpecAddsIds(v: View, blocked: set<Key>, done: set<Key>, k: Key, env: Key -> Env)
    requires k !in done
    ensures var p, q := PassSpec(v, blocked, done, env), PassSpec(v, blocked, done + {k}, env);
      && q.blocked == With(p.blocked, k, BlockedAfter(v, blocked, k))
      && q.marks == p.marks + (if k in v.local && Settles(v, blocked, env(k), k) then {v.local[k].id} else {})
      && q.acks == p.acks + (if k in v.remote && Settles(v, blocked, env(k), k) then {v.remote[k].id} else {})
  {
  }

  /** One step adds exactly the key's own share of the specification. */
  lemma ProcessAddsKey(v: View, blocked: set<Key>, done: set<Key>, k: Key, env: Key -> Env)
    requires WellKeyed(v) && !v.conf.policy.KeepBoth? && k !in done
    ensures Process(v.conf, PassSpec(v, blocked, done, env), k, At(v.local, k), At(v.remote, k), env(k))
         == PassSpec(v, blocked, done + {k}, env)
  {
    var p := PassSpec(v, blocked, done, env);
    assert Untouched(v, blocked, p, k);
    ProcessMeetsSpec(v, blocked, p, k, env(k));
    SpecAddsFile(v, blocked, done, k, env);
    SpecAddsIds(v, blocked, done, k, env);
  }

  /** Except under keep_both, the loop over any order of distinct keys computes the
      key-by-key specification. */
  lemma {:induction false} LoopMeetsSpec(v: View, blocked: set<Key>, order: seq<Key>, env: Key -> Env)
    requires WellKeyed(v) && !v.conf.policy.KeepBoth? && Distinct(order)
    ensures Loop(v, blocked, order, env) == PassSpec(v, blocked, KeysOf(order), env)
  {
    if order == [] {
      assert KeysOf(order) == {};
      assert PassSpec(v, blocked, {}, env).peer.tree == v.peer.tree;
    } else {
      var n := |order| - 1;
      LoopMeetsSpec(v, blocked, order[..n], env);
      assert KeysOf(order) == KeysOf(order[..n]) + {order[n]} by { assert order == order[..n] + [order[n]]; }
      ProcessAddsKey(v, blocked, KeysOf(order[..n]), order[n], env);
    }
  }

  /** Any two orders of the same keys end in the same trees, blocked set, marks and acks. */
  lemma OrderIndependence(v: View, blocked: set<Key>, order: seq<Key>, order': seq<Key>, env: Key -> Env)
    requires WellKeyed(v) && !v.conf.policy.KeepBoth? && Distinct(order) && Distinct(order')
    requires KeysOf(order) == KeysOf(order')
    ensures Loop(v, blocked, order, env) == Loop(v, blocked, order', env)
  {
    LoopMeetsSpec(v, blocked, order, env);
    LoopMeetsSpec(v, blocked, order', env);
  }
}
