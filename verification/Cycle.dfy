/** One reconcile cycle on values: what processing a key does to the two nodes, and what
    a whole pass over the keys does (internal/reconciler/reconciler.go). */
module Cycle {
  import opened Wrappers
  import opened Changelog
  import opened Conflict
  import opened ConflictNames

  type Content = string

  /** Files by (sync pair, relative path); pairs own disjoint directories. */
  type Tree = map<Key, Content>

  datatype Node = Node(name: string, pairs: set<string>, tree: Tree, rows: Rows, nextId: nat)

  function FileAt(tree: Tree, k: Key): Option<Content> {
    if k in tree then Some(tree[k]) else None
  }

  function At(m: map<Key, Entry>, k: Key): Option<Entry> {
    if k in m then Some(m[k]) else None
  }

  /** What the outside world answers while one key is processed: whether the transfer or
      the call to the peer gets through, whether its success is reported back, whether the
      move into the conflict directory works, and the clock text used in the conflict name. */
  datatype Env = Env(callOk: bool, replyOk: bool, moveOk: bool, now: string)

  const ALL_GOOD: Env := Env(true, true, true, "")

  /** The server's DeleteFile: refused for an unknown pair and for a path with unsynced entries. */
  function DeleteFile(server: Node, k: Key): (r: (Node, bool)) {
    if k.pair !in server.pairs || HasUnsynced(server.rows, k) then (server, false)
    else (server.(tree := server.tree - {k}), true)
  }

  /** A delete sent to the peer; without its reply it counts as failed. */
  function SendDelete(peer: Node, k: Key, env: Env): (Node, bool) {
    if env.callOk then
      var (peer', ok) := DeleteFile(peer, k);
      (peer', ok && env.replyOk)
    else (peer, false)
  }

  function Push(me: Node, peer: Node, e: Entry, env: Env): (Node, bool) {
    if e.kind.Delete? then SendDelete(peer, e.key, env)
    else if e.key !in me.tree then (peer, true)
    else if env.callOk then (peer.(tree := peer.tree[e.key := me.tree[e.key]]), env.replyOk)
    else (peer, false)
  }

  /** A pulled delete is sent to the peer; a pulled create or modify moves nothing. */
  function Pull(peer: Node, e: Entry, env: Env): (Node, bool) {
    if e.kind.Delete? then SendDelete(peer, e.key, env) else (peer, true)
  }

  datatype Settings = Settings(policy: Policy, conflictDir: string)

  /** Moves the running node's own file, whichever entry lost. */
  function Evacuate(conf: Settings, tree: Tree, loser: Entry, env: Env): (Tree, bool) {
    if loser.key !in tree then (tree, true)
    else if !env.moveOk then (tree, false)
    else
      var target := Key(loser.key.pair, ConflictPath(conf.conflictDir, loser.key.path, loser.node, env.now));
      ((tree - {loser.key})[target := tree[loser.key]], true)
  }

  /** The state a pass over the keys carries: both nodes, the running node's blocked keys,
      and the ids gathered so far for MarkSynced and for AckTransfer. */
  datatype Pass = Pass(me: Node, peer: Node, blocked: set<Key>, marks: set<nat>, acks: set<nat>)

  predicate Unblocks(local: Option<Entry>, remote: Option<Entry>) {
    local.Some? && local.value.kind.Delete? && (remote.None? || remote.value.kind.Delete?)
  }

  function ProcessConflict(conf: Settings, p: Pass, l: Entry, r: Entry, env: Env): Pass {
    if l.kind.Delete? && r.kind.Delete? then p.(marks := p.marks + {l.id}, acks := p.acks + {r.id})
    else
      var verdict := Resolve(conf.policy, l, r);
      if verdict.Blocked? then p.(blocked := p.blocked + {l.key})
      else
        var (tree, moved) :=
          if Evacuates(conf.policy, l, r) then Evacuate(conf, p.me.tree, if verdict.Local? then r else l, env)
          else (p.me.tree, true);
        var me := p.me.(tree := tree);
        if !moved then p
        else
          var (peer, done) := if verdict.Local? then Push(me, p.peer, l, env) else Pull(p.peer, r, env);
          if done then Pass(me, peer, p.blocked, p.marks + {l.id}, p.acks + {r.id})
          else p.(me := me, peer := peer)
  }

  /** The body of Run's loop for one key. */
  function Process(conf: Settings, p: Pass, k: Key, local: Option<Entry>, remote: Option<Entry>, env: Env): Pass {
    if k in p.blocked then
      if Unblocks(local, remote) then p.(blocked := p.blocked - {k}) else p
    else if k.pair !in p.me.pairs then p
    else match (local, remote)
      case (Some(l), None) =>
        var (peer, done) := Push(p.me, p.peer, l, env);
        if done then p.(peer := peer, marks := p.marks + {l.id}) else p.(peer := peer)
      case (None, Some(r)) =>
        var (peer, done) := Pull(p.peer, r, env);
        if done then p.(peer := peer, acks := p.acks + {r.id}) else p.(peer := peer)
      case (Some(l), Some(r)) => ProcessConflict(conf, p, l, r, env)
      case (None, None) => p
  }
}
