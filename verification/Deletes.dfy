/** Where a file removal can come from (internal/reconciler/reconciler.go:124-175,
    internal/reconciler/reconciler.go:231-246, internal/grpc/server.go:118-125). */
module Deletes {
  import opened Wrappers
  import opened Changelog
  import opened Conflict
  import opened Cycle
  import opened KeepBothPolicy
  import opened Protocol

  /** Exactly one of the two newest entries exists, and it is a delete. */
  predicate LoneDelete(local: Option<Entry>, remote: Option<Entry>) {
    || (local.Some? && remote.None? && local.value.kind.Delete?)
    || (local.None? && remote.Some? && remote.value.kind.Delete?)
  }

  /** Under every policy a turn of the loop takes a file from the peer only for a delete
      that one side alone has logged, only when the call gets through, and only if the
      peer has nothing unsynced for that path. */
  lemma RemovalNeedsLoneDelete(conf: Settings, p: Pass, k: Key, local: Option<Entry>, remote: Option<Entry>,
                               env: Env, j: Key)
    requires (local.Some? ==> local.value.key == k) && (remote.Some? ==> remote.value.key == k)
    requires j in p.peer.tree && j !in Process(conf, p, k, local, remote, env).peer.tree
    ensures j == k && LoneDelete(local, remote) && env.callOk
    ensures k !in p.blocked && k.pair in p.peer.pairs && !HasUnsynced(p.peer.rows, k)
  {
  }

  /** The other direction: exactly then the file goes, whatever the policy. */
  lemma LoneDeleteRemoves(conf: Settings, p: Pass, k: Key, local: Option<Entry>, remote: Option<Entry>, env: Env)
    requires (local.Some? ==> local.value.key == k) && (remote.Some? ==> remote.value.key == k)
    requires k in p.peer.tree
    ensures k !in Process(conf, p, k, local, remote, env).peer.tree <==>
      LoneDelete(local, remote) && env.callOk && k !in p.blocked && k.pair in p.me.pairs && k.pair in p.peer.pairs
      && !HasUnsynced(p.peer.rows, k)
  {
  }

  /** In any run a step of one node removes a file of the other only as above. */
  lemma RemovalOrigin(s: System, m: Move, k: Key)
    requires ValidSystem(s) && Enabled(s, m)
    requires var y := Other(m.side); k in Get(s, y).node.tree && k !in Get(Apply(s, m), y).node.tree
    ensures m.action.Handle? && m.action.key == k
    ensures var d := Get(s, m.side); LoneDelete(At(d.phase.local, k), At(d.phase.remote, k))
    ensures !HasUnsynced(Get(s, Other(m.side)).node.rows, k)
  {
    var me, peer := Get(s, m.side), Get(s, Other(m.side));
    if m.action.Handle? {
      var j := m.action.key;
      RemovalNeedsLoneDelete(s.conf, PassOf(me, peer), j, At(me.phase.local, j), At(me.phase.remote, j),
          m.action.env, k);
    }
  }

  /** A key with an entry on both sides never makes a cycle call DeleteFile: the peer's
      files keep every name they had. */
  lemma SharedKeyNeverDeletes(conf: Settings, p: Pass, k: Key, l: Entry, r: Entry, env: Env)
    requires l.key == k && r.key == k
    ensures p.peer.tree.Keys <= Process(conf, p, k, Some(l), Some(r), env).peer.tree.Keys
  {
  }

  /** A delete seen on the peer alone, still unsynced there when the call arrives: the
      peer's guard sees that very entry, so nothing happens and nothing is acknowledged. */
  lemma OwnEntryGuards(s: System, m: Move, k: Key)
    requires ValidSystem(s) && Enabled(s, m) && m.action.Handle? && m.action.key == k
    requires var d := Get(s, m.side);
      k !in d.phase.local && k in d.phase.remote && d.phase.remote[k].kind.Delete? &&
      IsUnsynced(Get(s, Other(m.side)).node.rows, d.phase.remote[k].id)
    ensures var d, d' := Get(s, m.side), Get(Apply(s, m), m.side);
      && d'.node == d.node && d'.phase.marks == d.phase.marks && d'.phase.acks == d.phase.acks
      && Get(Apply(s, m), Other(m.side)) == Get(s, Other(m.side))
  {
    var me, peer := Get(s, m.side), Get(s, Other(m.side));
    assert HasUnsynced(peer.node.rows, k);
  }

  /* ---- whole runs ---- */

  predicate Logged(s: System, x: Side, e: Entry) {
    e.id in Get(s, x).node.rows && Get(s, x).node.rows[e.id].entry == e
  }

  /** The log of `x` held the entry at step `i` or before. */
  ghost predicate WasLogged(states: seq<System>, i: nat, x: Side, e: Entry)
    requires i < |states|
  {
    exists j: nat :: j <= i && Logged(states[j], x, e)
  }

  ghost predicate StemsFrom(states: seq<System>, i: nat, x: Side, m: map<Key, Entry>)
    requires i < |states|
  {
    forall k | k in m :: m[k].key == k && WasLogged(states, i, x, m[k])
  }

  /** Every entry that the running cycle of `x` works on was in the log it was read from. */
  ghost predicate CycleStems(states: seq<System>, i: nat, x: Side)
    requires i < |states|
  {
    match Get(states[i], x).phase
    case Idle => true
    case Fetched(remote) => StemsFrom(states, i, Other(x), remote)
    case Looping(remote, local, _, _, _) => StemsFrom(states, i, Other(x), remote) && StemsFrom(states, i, x, local)
    case Marked(_, _) => true
  }

  lemma StemsLater(states: seq<System>, i: nat, j: nat, x: Side, m: map<Key, Entry>)
    requires i <= j < |states| && StemsFrom(states, i, x, m)
    ensures StemsFrom(states, j, x, m)
  {
    forall k | k in m ensures WasLogged(states, j, x, m[k]) {
      var n: nat :| n <= i && Logged(states[n], x, m[k]);
    }
  }

  lemma FreshStems(states: seq<System>, i: nat, x: Side, m: map<Key, Entry>)
    requires i < |states| && NewestUnsynced(m, Get(states[i], x).node.rows)
    ensures StemsFrom(states, i, x, m)
  {
    forall k | k in m ensures WasLogged(states, i, x, m[k]) {
      assert IsUnsynced(Get(states[i], x).node.rows, m[k].id);
      assert Logged(states[i], x, m[k]);
    }
  }

  lemma {:induction false} StemsRun(states: seq<System>, moves: seq<Move>, i: nat, x: Side)
    requires IsRun(states, moves) && ValidSystem(states[0]) && i < |states|
    requires states[0].left.phase.Idle? && states[0].right.phase.Idle?
    ensures CycleStems(states, i, x)
  {
    if i > 0 {
      var s, m := states[i - 1], moves[i - 1];
      StemsRun(states, moves, i - 1, x);
      RunKeepsValid(states, moves, i - 1);
      assert Follows(s, m, states[i]);
      StepKeepsLogs(s.conf, Get(s, m.side), Get(s, Other(m.side)), m.action);
      if m.side == x && m.action.Fetch? {
        FreshStems(states, i - 1, Other(x), m.action.remote);
        StemsLater(states, i - 1, i, Other(x), m.action.remote);
      } else if m.side == x && m.action.Read? {
        FreshStems(states, i - 1, x, m.action.local);
        StemsLater(states, i - 1, i, x, m.action.local);
      }
    }
  }

  /** One of the two logs held a delete of `k` by step `i`. */
  ghost predicate DeleteWasLogged(states: seq<System>, i: nat, k: Key)
    requires i < |states|
  {
    exists x: Side, e: Entry :: WasLogged(states, i, x, e) && e.key == k && e.kind.Delete?
  }

  /** The file has gone to a conflict name. */
  ghost predicate MovedAside(conf: Settings, n: Node, n': Node, k: Key) {
    conf.policy.KeepBoth? &&
    exists loser: Entry, env: Env ::
      loser.key == k && FileAt(n'.tree, Target(conf, loser, env)) == FileAt(n.tree, k)
  }

  /** A turn takes a file from its own node only to set it aside. */
  lemma OwnRemovalIsMove(conf: Settings, p: Pass, j: Key, local: Option<Entry>, remote: Option<Entry>, env: Env, k: Key)
    requires (local.Some? ==> local.value.key == j) && (remote.Some? ==> remote.value.key == j)
    requires k in p.me.tree && k !in Process(conf, p, j, local, remote, env).me.tree
    ensures MovedAside(conf, p.me, Process(conf, p, j, local, remote, env).me, k)
  {
    var l, r := local.value, remote.value;
    var loser := if Resolve(conf.policy, l, r).Local? then r else l;
    var q := Process(conf, p, j, local, remote, env);
    assert loser.key == k && FileAt(q.me.tree, Target(conf, loser, env)) == FileAt(p.me.tree, k);
  }

  /** In every run, whatever is edited, appended, pruned or fails: a step of the protocol
      takes a file from a node only because one of the two logs held a delete of that path,
      or, under keep_both, to set it aside on the same node. */
  lemma RemovalWasLogged(states: seq<System>, moves: seq<Move>, i: nat, y: Side, k: Key)
    requires IsRun(states, moves) && ValidSystem(states[0]) && i < |moves|
    requires states[0].left.phase.Idle? && states[0].right.phase.Idle? && !moves[i].action.Touch?
    requires k in Get(states[i], y).node.tree && k !in Get(states[i + 1], y).node.tree
    ensures DeleteWasLogged(states, i, k) ||
      (y == moves[i].side && MovedAside(states[i].conf, Get(states[i], y).node, Get(states[i + 1], y).node, k))
  {
    var s, m := states[i], moves[i];
    var me, peer := Get(s, m.side), Get(s, Other(m.side));
    RunKeepsValid(states, moves, i);
    assert Follows(s, m, states[i + 1]);
    StemsRun(states, moves, i, m.side);
    if m.action.Handle? {
      var j := m.action.key;
      if y == m.side {
        OwnRemovalIsMove(s.conf, PassOf(me, peer), j, At(me.phase.local, j), At(me.phase.remote, j), m.action.env, k);
      } else {
        RemovalOrigin(s, m, k);
        if k in me.phase.local {
          assert WasLogged(states, i, m.side, me.phase.local[k]);
        } else {
          assert WasLogged(states, i, Other(m.side), me.phase.remote[k]);
        }
      }
    }
  }
}
