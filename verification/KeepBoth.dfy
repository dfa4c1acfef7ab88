/** keep_both: what the running node does with its own file
    (internal/reconciler/conflict.go:68-81, internal/reconciler/conflict.go:104-121). */
module KeepBothPolicy {
  import opened Wrappers
  import opened Changelog
  import opened Conflict
  import opened ConflictNames
  import opened Cycle
  import opened Pointwise

  function Target(conf: Settings, loser: Entry, env: Env): Key {
    Key(loser.key.pair, ConflictPath(conf.conflictDir, loser.key.path, loser.node, env.now))
  }

  /** Under keep_both, a path outside the conflict directory: no move ends there. */
  predicate Apart(conf: Settings, k: Key) {
    conf.policy.KeepBoth? ==> !(conf.conflictDir + "/" <= k.path)
  }

  lemma TargetInDirectory(conf: Settings, loser: Entry, env: Env)
    ensures conf.conflictDir + "/" <= Target(conf, loser, env).path
  {
  }

  /** A turn of the loop for one key leaves the files and the block of another, and of a
      blocked key; under keep_both, of any that lies outside the conflict directory. */
  lemma TurnApart(conf: Settings, p: Pass, j: Key, local: Option<Entry>, remote: Option<Entry>, env: Env, k: Key)
    requires (local.Some? ==> local.value.key == j) && (remote.Some? ==> remote.value.key == j) && Apart(conf, k)
    ensures var q := Process(conf, p, j, local, remote, env);
      && q.me == p.me.(tree := q.me.tree) && q.peer == p.peer.(tree := q.peer.tree)
      && (k != j || k in p.blocked ==>
            FileAt(q.me.tree, k) == FileAt(p.me.tree, k) && FileAt(q.peer.tree, k) == FileAt(p.peer.tree, k))
      && (k in p.blocked ==> (k !in q.blocked <==>
            k == j && local.Some? && local.value.kind.Delete? && (remote.Some? ==> remote.value.kind.Delete?)))
      && (k != j ==> (k in q.blocked <==> k in p.blocked))
      && p.marks <= q.marks
  {
    if local.Some? && remote.Some? {
      TargetInDirectory(conf, local.value, env);
      TargetInDirectory(conf, remote.value, env);
    }
  }

  /** A move keeps every other file and every content, unless its target name is taken. */
  lemma EvacuationKeepsContent(conf: Settings, tree: Tree, loser: Entry, env: Env)
    requires Target(conf, loser, env) !in tree
    ensures var (tree', _) := Evacuate(conf, tree, loser, env);
      && tree'.Values == tree.Values
      && forall k | k in tree && k != loser.key :: FileAt(tree', k) == FileAt(tree, k)
  {
    var (tree', _) := Evacuate(conf, tree, loser, env);
    forall k | k in tree ensures tree[k] in tree'.Values {
      assert if k in tree' then tree'[k] == tree[k] else Target(conf, loser, env) in tree';
    }
    forall k | k in tree' ensures tree'[k] in tree.Values {
      assert if k in tree then tree'[k] == tree[k] else tree[loser.key] == tree'[k];
    }
  }

  lemma TargetsDiffer(conf: Settings, a: Entry, s: Env, b: Entry, t: Env)
    requires Plain(s.now) && Plain(t.now) && Plain(a.node) && Plain(b.node) && a.key != b.key
    ensures Target(conf, a, s) != Target(conf, b, t)
  {
    var p, q := ConflictName(a.key.path, a.node, s.now), ConflictName(b.key.path, b.node, t.now);
    if Target(conf, a, s) == Target(conf, b, t) {
      assert p == (conf.conflictDir + "/" + p)[|conf.conflictDir| + 1..];
      assert q == (conf.conflictDir + "/" + q)[|conf.conflictDir| + 1..];
      ConflictNameInjective(a.key.path, a.node, s.now, b.key.path, b.node, t.now);
    }
  }

  /* ---- the moves of one cycle ---- */

  /** The file of `k` is at hand and edited on both sides, and its move succeeds. */
  predicate Evacuated(v: View, blocked: set<Key>, env: Key -> Env, k: Key) {
    Handled(v, blocked, k) && LocalUpsert(v, k) && RemoteUpsert(v, k) && k in v.me.tree && env(k).moveOk
  }

  function LoserOf(v: View, k: Key): Entry
    requires k in v.local && k in v.remote
  {
    if Resolve(v.conf.policy, v.local[k], v.remote[k]).Local? then v.remote[k] else v.local[k]
  }

  function TargetOf(v: View, env: Key -> Env, k: Key): Key
    requires k in v.local && k in v.remote
  {
    Target(v.conf, LoserOf(v, k), env(k))
  }

  ghost predicate PlainNames(v: View, env: Key -> Env) {
    && (forall k :: Plain(env(k).now))
    && (forall k | k in v.local :: Plain(v.local[k].node))
    && (forall k | k in v.remote :: Plain(v.remote[k].node))
  }

  /** No conflict name of the cycle is that of a file or of a key of the cycle. */
  ghost predicate FreshTargets(v: View, blocked: set<Key>, order: seq<Key>, env: Key -> Env) {
    forall k | k in order && Evacuated(v, blocked, env, k) ::
      TargetOf(v, env, k) !in v.me.tree && TargetOf(v, env, k) !in order
  }

  /** Where the file `k` of this node is after the pass. */
  ghost predicate Kept(v: View, blocked: set<Key>, order: seq<Key>, env: Key -> Env, tree: Tree, k: Key) {
    if k in order && Evacuated(v, blocked, env, k) then
      k !in tree && FileAt(tree, TargetOf(v, env, k)) == FileAt(v.me.tree, k)
    else FileAt(tree, k) == FileAt(v.me.tree, k)
  }

  ghost predicate IsTarget(v: View, blocked: set<Key>, order: seq<Key>, env: Key -> Env, k: Key) {
    exists j :: j in order && Evacuated(v, blocked, env, j) && k == TargetOf(v, env, j)
  }

  /** One turn under keep_both moves the file of its key exactly if it is evacuated. */
  lemma TurnEvacuates(v: View, blocked: set<Key>, p: Pass, env: Key -> Env, j: Key)
    requires WellKeyed(v) && v.conf.policy.KeepBoth? && p.me == v.me.(tree := p.me.tree)
    requires FileAt(p.me.tree, j) == FileAt(v.me.tree, j) && (j in p.blocked <==> j in blocked)
    ensures var q := Process(v.conf, p, j, At(v.local, j), At(v.remote, j), env(j));
      && q.me == v.me.(tree := q.me.tree)
      && (forall k | k != j :: k in q.blocked <==> k in p.blocked)
      && q.me.tree == if Evacuated(v, blocked, env, j)
                      then (p.me.tree - {j})[TargetOf(v, env, j) := v.me.tree[j]] else p.me.tree
  {
  }

  /** A whole keep_both pass, whatever else fails: each file of this node is in its place or,
      exactly for the keys edited on both sides whose move succeeds, under its own conflict
      name and nowhere else; and no other file appears. */
  lemma {:induction false} EvacuationsNeverOverwrite(v: View, blocked: set<Key>, order: seq<Key>, env: Key -> Env)
    requires WellKeyed(v) && v.conf.policy.KeepBoth? && Distinct(order) && PlainNames(v, env)
    requires FreshTargets(v, blocked, order, env)
    ensures var p := Loop(v, blocked, order, env);
      && p.me == v.me.(tree := p.me.tree)
      && (forall k | k !in order :: k in p.blocked <==> k in blocked)
      && (forall k | k in v.me.tree :: Kept(v, blocked, order, env, p.me.tree, k))
      && (forall k | k in p.me.tree :: k in v.me.tree || IsTarget(v, blocked, order, env, k))
  {
    if order != [] {
      var n := |order| - 1;
      var j, before := order[n], order[..n];
      assert order == before + [j] && j !in before;
      EvacuationsNeverOverwrite(v, blocked, before, env);
      var p, q := Loop(v, blocked, before, env), Loop(v, blocked, order, env);
      assert FileAt(p.me.tree, j) == FileAt(v.me.tree, j) by {
        assert !IsTarget(v, blocked, before, env, j);
      }
      TurnEvacuates(v, blocked, p, env, j);
      forall k | k in v.me.tree ensures Kept(v, blocked, order, env, q.me.tree, k) {
        StillKept(v, blocked, before, j, env, p.me.tree, q.me.tree, k);
      }
      forall k | k in q.me.tree ensures k in v.me.tree || IsTarget(v, blocked, order, env, k) {
        if Evacuated(v, blocked, env, j) && k == TargetOf(v, env, j) {
        } else if k !in v.me.tree {
          assert k in p.me.tree && IsTarget(v, blocked, before, env, k);
          var i :| i in before && Evacuated(v, blocked, env, i) && k == TargetOf(v, env, i);
        }
      }
    }
  }

  lemma StillKept(v: View, blocked: set<Key>, before: seq<Key>, j: Key, env: Key -> Env, was: Tree, tree: Tree, k: Key)
    requires WellKeyed(v) && PlainNames(v, env) && FreshTargets(v, blocked, before + [j], env)
    requires k in v.me.tree && Kept(v, blocked, before, env, was, k) && j !in before
    requires tree == if Evacuated(v, blocked, env, j)
                     then (was - {j})[TargetOf(v, env, j) := v.me.tree[j]] else was
    ensures Kept(v, blocked, before + [j], env, tree, k)
  {
    var order := before + [j];
    assert forall i :: i in order <==> i in before || i == j;
    if k in before && Evacuated(v, blocked, env, k) && Evacuated(v, blocked, env, j) {
      TargetsDiffer(v.conf, LoserOf(v, k), env(k), LoserOf(v, j), env(j));
    }
  }

  /** A conflict name is longer than the path it is made from. */
  lemma TargetElsewhere(conf: Settings, loser: Entry, env: Env)
    ensures Target(conf, loser, env) != loser.key
  {
    assert |ConflictName(loser.key.path, loser.node, env.now)| > |loser.key.path| by { ExtShape(loser.key.path); }
  }

  /** Two edits of a path the running node has, under keep_both: whichever wins, the file
      leaves that path for the conflict directory, the peer's tree is not touched, and both
      entries count as settled. */
  lemma KeepBothEmptiesPath(conf: Settings, p: Pass, l: Entry, r: Entry, env: Env)
    requires conf.policy.KeepBoth? && l.key == r.key && !l.kind.Delete? && !r.kind.Delete?
    requires l.key !in p.blocked && l.key.pair in p.me.pairs && l.key in p.me.tree && env.moveOk
    ensures var loser := if Resolve(conf.policy, l, r).Local? then r else l;
      var q := Process(conf, p, l.key, Some(l), Some(r), env);
      && FileAt(q.me.tree, Target(conf, loser, env)) == Some(p.me.tree[l.key])
      && l.key !in q.me.tree && q.peer == p.peer
      && q.marks == p.marks + {l.id} && q.acks == p.acks + {r.id}
  {
    TargetElsewhere(conf, l, env);
    TargetElsewhere(conf, r, env);
  }

  /** The two edits of a file at hand that keep_both treats in its own way. */
  predicate EditedTwice(p: Pass, k: Key, local: Option<Entry>, remote: Option<Entry>) {
    && local.Some? && remote.Some? && !local.value.kind.Delete? && !remote.value.kind.Delete?
    && k in p.me.tree
  }

  /** In every other case keep_both is lww, and when the move fails the key is left for a
      later cycle with nothing changed. */
  lemma KeepBothElseLww(conf: Settings, p: Pass, k: Key, local: Option<Entry>, remote: Option<Entry>, env: Env)
    requires conf.policy.KeepBoth?
    requires (local.Some? ==> local.value.key == k) && (remote.Some? ==> remote.value.key == k)
    ensures !EditedTwice(p, k, local, remote) ==>
      Process(conf, p, k, local, remote, env) == Process(conf.(policy := Lww), p, k, local, remote, env)
    ensures EditedTwice(p, k, local, remote) && k !in p.blocked && !env.moveOk ==>
      Process(conf, p, k, local, remote, env) == p
  {
    var lww := conf.(policy := Lww);
    if local.Some? && remote.Some? {
      assert Resolve(conf.policy, local.value, remote.value) == Resolve(lww.policy, local.value, remote.value);
      assert p.me.(tree := p.me.tree) == p.me;
    }
  }
}
