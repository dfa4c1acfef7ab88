/** The reconciler and the server handlers it calls, as mutable objects
    (internal/reconciler/reconciler.go, internal/grpc/server.go). */
module Reconcilers {
  import opened Wrappers
  import opened Changelog
  import opened Conflict
  import opened Cycle
  import opened Stores
  import opened Text
  import opened Pointwise
  import opened Draining

  /** The entries of one pair, or of all. */
  function OfPair(es: seq<Entry>, pair: string): seq<Entry> {
    if es == [] then []
    else
      var n := |es| - 1;
      OfPair(es[..n], pair) + if pair == "" || es[n].key.pair == pair then [es[n]] else []
  }

  lemma {:induction false} OfPairMembers(es: seq<Entry>, pair: string, e: Entry)
    ensures e in OfPair(es, pair) <==> e in es && (pair == "" || e.key.pair == pair)
  {
    if es != [] {
      var n := |es| - 1;
      assert es == es[..n] + [es[n]];
      OfPairMembers(es[..n], pair, e);
    }
  }

  lemma {:induction false} OfPairKeeps(es: seq<Entry>, pair: string, text: StampText)
    requires TextOrdered(es, text) && DistinctIds(es)
    ensures TextOrdered(OfPair(es, pair), text) && DistinctIds(OfPair(es, pair))
  {
    if es != [] {
      var n := |es| - 1;
      var front := OfPair(es[..n], pair);
      OfPairKeeps(es[..n], pair, text);
      if pair == "" || es[n].key.pair == pair {
        forall e | e in front ensures e in es[..n] { OfPairMembers(es[..n], pair, e); }
        OneMore(es, front, text);
      }
    }
  }

  predicate DistinctIds(es: seq<Entry>) { forall i, j | 0 <= i < j < |es| :: es[i].id != es[j].id }

  lemma OneMore(es: seq<Entry>, front: seq<Entry>, text: StampText)
    requires es != [] && TextOrdered(es, text) && DistinctIds(es)
    requires TextOrdered(front, text) && DistinctIds(front) && forall e | e in front :: e in es[..|es| - 1]
    ensures var out := front + [es[|es| - 1]]; TextOrdered(out, text) && DistinctIds(out)
  {
    forall i | 0 <= i < |front| ensures exists j | 0 <= j < |es| - 1 :: es[j] == front[i] {
      assert front[i] in front;
    }
  }

  lemma OfPairLists(es: seq<Entry>, req: Request, rows: Rows, text: StampText)
    requires ListsAsked(es, rows, Request(req.since, ""), text) && TextOrdered(es, text)
    ensures ListsAsked(OfPair(es, req.pair), rows, req, text) && TextOrdered(OfPair(es, req.pair), text)
  {
    var out := OfPair(es, req.pair);
    OfPairKeeps(es, req.pair, text);
    forall i | 0 <= i < |out| ensures out[i] in es && Asked(out[i], req, text) {
      OfPairMembers(es, req.pair, out[i]);
    }
    forall id | IsUnsynced(rows, id) && Asked(rows[id].entry, req, text) ensures rows[id].entry in out {
      OfPairMembers(es, req.pair, rows[id].entry);
    }
  }

  /** A node's files, log and server handlers. */
  class Host {
    const name: string
    const pairs: set<string>
    const store: Store
    var tree: Tree

    constructor (name: string, pairs: set<string>, store: Store, tree: Tree)
      ensures this.name == name && this.pairs == pairs && this.store == store && this.tree == tree
    {
      this.name, this.pairs, this.store, this.tree := name, pairs, store, tree;
    }

    function State(): Node
      reads this, store
    {
      Node(name, pairs, tree, store.rows, store.nextId)
    }

    method DeleteFile(k: Key) returns (ok: bool)
      modifies this`tree
      ensures (State(), ok) == Cycle.DeleteFile(old(State()), k)
    {
      if k.pair !in pairs {
        return false;
      }
      if HasUnsynced(store.rows, k) {
        return false;
      }
      tree := tree - {k};
      ok := true;
    }

    /** What a transfer from the other node writes. */
    method Receive(k: Key, content: Content)
      modifies this`tree
      ensures State() == old(State()).(tree := old(tree)[k := content])
    {
      tree := tree[k := content];
    }

    /** The pending entries asked for, in the order of their stamp texts, and the greatest
        stamp text of the log; `next` is the clock's next stamp. */
    method ExchangeChangelog(req: Request, next: string) returns (entries: seq<Entry>, current: string)
      requires store.Valid()
      ensures ListsAsked(entries, store.rows, req, store.text)
      ensures forall e :: e in entries <==>
        && e.id in store.rows && !store.rows[e.id].synced && store.rows[e.id].entry == e
        && (req.pair == "" || e.key.pair == req.pair) && (req.since == "" || LexLess(req.since, store.text(e.stamp)))
      ensures forall i, j | 0 <= i < j < |entries| ::
        entries[i].id != entries[j].id && LexCompare(store.text(entries[i].stamp), store.text(entries[j].stamp)) <= 0
      ensures store.rows == map[] ==> current == next
      ensures forall id | id in store.rows :: LexCompare(store.text(store.rows[id].entry.stamp), current) <= 0
      ensures store.rows != map[] ==>
        exists id :: id in store.rows && store.text(store.rows[id].entry.stamp) == current
    {
      var since := store.EntriesSince(req.since);
      entries := [];
      for i := 0 to |since|
        invariant entries == OfPair(since[..i], req.pair)
      {
        assert since[..i + 1][..i] == since[..i];
        if req.pair == "" || since[i].key.pair == req.pair {
          entries := entries + [since[i]];
        }
      }
      assert since[..|since|] == since;
      OfPairLists(since, req, store.rows, store.text);
      forall e ensures e in entries <==>
        && e.id in store.rows && !store.rows[e.id].synced && store.rows[e.id].entry == e
        && (req.pair == "" || e.key.pair == req.pair) && (req.since == "" || LexLess(req.since, store.text(e.stamp)))
      {
        ListedIff(entries, store.rows, req, store.text, e);
      }
      current := store.CurrentHlc(next);
    }

    method AckTransfer(ids: seq<nat>, ok: bool)
      requires store.Valid()
      modifies store`rows
      ensures store.Valid()
      ensures store.rows == if ok then MarkPeerAck(old(store.rows), IdSet(ids)) else old(store.rows)
    {
      store.MarkPeerAck(ids, ok);
    }
  }

  /** Every entry of the key before position `i` is older than the one at `i`. */
  predicate BeatsEarlier(es: seq<Entry>, i: nat) {
    i < |es| && forall j | 0 <= j < i && es[j].key == es[i].key :: CompareStamp(es[j].stamp, es[i].stamp) < 0
  }

  /** What groupEntries returns: per key the first entry that no other of its key beats. */
  ghost predicate Groups(m: map<Key, Entry>, es: seq<Entry>) {
    && (forall k | k in m :: m[k].key == k && exists i: nat :: BeatsEarlier(es, i) && es[i] == m[k])
    && (forall e | e in es :: e.key in m && CompareStamp(e.stamp, m[e.key].stamp) <= 0)
  }

  lemma GroupsGrow(m: map<Key, Entry>, es: seq<Entry>, e: Entry)
    requires Groups(m, es)
    ensures Groups(if e.key !in m || CompareStamp(e.stamp, m[e.key].stamp) > 0 then m[e.key := e] else m, es + [e])
  {
    var es', m' := es + [e], if e.key !in m || CompareStamp(e.stamp, m[e.key].stamp) > 0 then m[e.key := e] else m;
    forall k | k in m' ensures m'[k].key == k && exists i: nat :: BeatsEarlier(es', i) && es'[i] == m'[k] {
      if k in m && m'[k] == m[k] {
        var i: nat :| BeatsEarlier(es, i) && es[i] == m[k];
        StillBeats(es, e, i);
      } else {
        NewBeats(m, es, e);
      }
    }
  }

  lemma StillBeats(es: seq<Entry>, e: Entry, i: nat)
    requires BeatsEarlier(es, i)
    ensures BeatsEarlier(es + [e], i) && (es + [e])[i] == es[i]
  {
  }

  lemma NewBeats(m: map<Key, Entry>, es: seq<Entry>, e: Entry)
    requires Groups(m, es) && (e.key !in m || CompareStamp(e.stamp, m[e.key].stamp) > 0)
    ensures BeatsEarlier(es + [e], |es|) && (es + [e])[|es|] == e
  {
    assert forall j | 0 <= j < |es| :: es[j] in es && (es + [e])[j] == es[j];
  }

  method GroupEntries(es: seq<Entry>) returns (m: map<Key, Entry>)
    ensures Groups(m, es)
  {
    m := map[];
    for i := 0 to |es|
      invariant Groups(m, es[..i])
    {
      var e := es[i];
      assert es[..i + 1] == es[..i] + [e];
      GroupsGrow(m, es[..i], e);
      if e.key !in m || CompareStamp(e.stamp, m[e.key].stamp) > 0 {
        m := m[e.key := e];
      }
    }
    assert es[..|es|] == es;
  }

  ghost predicate SameMembers(es: seq<Entry>, es': seq<Entry>) { forall e :: e in es <==> e in es' }

  ghost predicate StampsDiffer(es: seq<Entry>) {
    forall e, f | e in es && f in es && e.key == f.key && e != f :: e.stamp != f.stamp
  }

  /** When the entries of each key have different stamps, the grouping does not depend on
      the order of the input. */
  lemma GroupingIgnoresOrder(es: seq<Entry>, es': seq<Entry>, m: map<Key, Entry>, m': map<Key, Entry>)
    requires SameMembers(es, es') && StampsDiffer(es) && Groups(m, es) && Groups(m', es')
    ensures m == m'
  {
    forall k | k in m ensures AgreesAt(m, m', k) { AgreeAt(es, es', m, m', k); }
    forall k | k in m' ensures AgreesAt(m', m, k) { AgreeAt(es', es, m', m, k); }
    SameMap(m, m');
  }

  predicate AgreesAt(m: map<Key, Entry>, m': map<Key, Entry>, k: Key)
    requires k in m
  {
    k in m' && m'[k] == m[k]
  }

  lemma SameMap(m: map<Key, Entry>, m': map<Key, Entry>)
    requires (forall k | k in m :: AgreesAt(m, m', k)) && (forall k | k in m' :: AgreesAt(m', m, k))
    ensures m == m'
  {
  }

  lemma AgreeAt(es: seq<Entry>, es': seq<Entry>, m: map<Key, Entry>, m': map<Key, Entry>, k: Key)
    requires SameMembers(es, es') && (StampsDiffer(es) || StampsDiffer(es'))
    requires Groups(m, es) && Groups(m', es') && k in m
    ensures AgreesAt(m, m', k)
  {
    OneMaximum(es, m[k], m'[k]);
  }

  lemma OneMaximum(es: seq<Entry>, a: Entry, b: Entry)
    requires a in es && b in es && CompareStamp(a.stamp, b.stamp) <= 0 && CompareStamp(b.stamp, a.stamp) <= 0
    requires a != b ==> a.stamp != b.stamp
    ensures a == b
  {
  }

  lemma GroupsAreNewest(m: map<Key, Entry>, es: seq<Entry>, rows: Rows)
    requires Groups(m, es) && ListsUnsynced(es, rows)
    ensures NewestUnsynced(m, rows)
  {
    forall k | k in m ensures IsUnsynced(rows, m[k].id) && rows[m[k].id].entry == m[k] {
      var i: nat :| BeatsEarlier(es, i) && es[i] == m[k];
    }
    forall id | IsUnsynced(rows, id)
      ensures rows[id].entry.key in m && CompareStamp(rows[id].entry.stamp, m[rows[id].entry.key].stamp) <= 0
    {
      assert rows[id].entry in es;
    }
  }

  /** Which of the calls around the loop get through. */
  datatype Faults = Faults(fetchOk: bool, readOk: bool, markOk: bool, ackOk: bool)

  class Reconciler {
    const conf: Settings
    const host: Host
    const peer: Host
    var blocked: set<Key>

    constructor (conf: Settings, host: Host, peer: Host)
      ensures this.conf == conf && this.host == host && this.peer == peer && blocked == {}
    {
      this.conf, this.host, this.peer, blocked := conf, host, peer, {};
    }

    ghost predicate Valid()
      reads this, host, peer, host.store, peer.store
    {
      host != peer && host.store != peer.store && host.store.Valid() && peer.store.Valid()
    }

    /** The call to the peer's handler; without its reply it counts as failed. */
    method CallDelete(k: Key, env: Env) returns (done: bool)
      requires Valid()
      modifies peer`tree
      ensures (peer.State(), done) == SendDelete(old(peer.State()), k, env)
    {
      if !env.callOk {
        return false;
      }
      done := peer.DeleteFile(k);
      done := done && env.replyOk;
    }

    method PushToRemote(e: Entry, env: Env) returns (done: bool)
      requires Valid()
      modifies peer`tree
      ensures (peer.State(), done) == Push(host.State(), old(peer.State()), e, env)
    {
      if e.kind.Delete? {
        done := CallDelete(e.key, env);
      } else {
        if e.key !in host.tree {
          return true;
        }
        if !env.callOk {
          return false;
        }
        peer.Receive(e.key, host.tree[e.key]);
        done := env.replyOk;
      }
    }

    method PullFromRemote(e: Entry, env: Env) returns (done: bool)
      requires Valid()
      modifies peer`tree
      ensures (peer.State(), done) == Pull(old(peer.State()), e, env)
    {
      if !e.kind.Delete? {
        return true;
      }
      done := CallDelete(e.key, env);
    }

    method EvacuateLoser(loser: Entry, env: Env) returns (moved: bool)
      modifies host`tree
      ensures (host.tree, moved) == Evacuate(conf, old(host.tree), loser, env)
    {
      if loser.key !in host.tree {
        return true;
      }
      if !env.moveOk {
        return false;
      }
      var target := Key(loser.key.pair, ConflictNames.ConflictPath(conf.conflictDir, loser.key.path, loser.node,
          env.now));
      var content := host.tree[loser.key];
      host.tree := host.tree - {loser.key};
      host.tree := host.tree[target := content];
      moved := true;
    }

    /** The loop body for a key with entries on both sides. */
    method HandleConflict(l: Entry, r: Entry, env: Env, marks: seq<nat>, acks: seq<nat>)
      returns (marks': seq<nat>, acks': seq<nat>)
      requires Valid()
      modifies this`blocked, host`tree, peer`tree
      ensures Pass(host.State(), peer.State(), blocked, IdSet(marks'), IdSet(acks'))
           == ProcessConflict(conf, Pass(old(host.State()), old(peer.State()), old(blocked), IdSet(marks),
               IdSet(acks)), l, r, env)
    {
      marks', acks' := marks, acks;
      if !(l.kind.Delete? && r.kind.Delete?) {
        var verdict := Resolve(conf.policy, l, r);
        if verdict.Blocked? {
          blocked := blocked + {l.key};
          return;
        }
        if Evacuates(conf.policy, l, r) {
          var moved := EvacuateLoser(if verdict.Local? then r else l, env);
          if !moved {
            return;
          }
        }
        var done;
        if verdict.Local? {
          done := PushToRemote(l, env);
        } else {
          done := PullFromRemote(r, env);
        }
        if !done {
          return;
        }
      }
      marks', acks' := marks + [l.id], acks + [r.id];
      assert IdSet(marks') == IdSet(marks) + {l.id} && IdSet(acks') == IdSet(acks) + {r.id};
    }

    method HandleKey(k: Key, local: Option<Entry>, remote: Option<Entry>, env: Env, marks: seq<nat>, acks: seq<nat>)
      returns (marks': seq<nat>, acks': seq<nat>)
      requires Valid()
      modifies this`blocked, host`tree, peer`tree
      ensures Pass(host.State(), peer.State(), blocked, IdSet(marks'), IdSet(acks'))
           == Process(conf, Pass(old(host.State()), old(peer.State()), old(blocked), IdSet(marks), IdSet(acks)), k,
               local, remote, env)
    {
      marks', acks' := marks, acks;
      if k in blocked {
        if Unblocks(local, remote) {
          blocked := blocked - {k};
        }
        return;
      }
      if k.pair !in host.pairs {
        return;
      }
      if local.Some? && remote.None? {
        var done := PushToRemote(local.value, env);
        if done {
          marks' := marks + [local.value.id];
          assert IdSet(marks') == IdSet(marks) + {local.value.id};
        }
      } else if local.None? && remote.Some? {
        var done := PullFromRemote(remote.value, env);
        if done {
          acks' := acks + [remote.value.id];
          assert IdSet(acks') == IdSet(acks) + {remote.value.id};
        }
      } else if local.Some? && remote.Some? {
        marks', acks' := HandleConflict(local.value, remote.value, env, marks, acks);
      }
    }

    /** The loop over the merged keys, in whatever order they come. */
    method HandleAll(local: map<Key, Entry>, remote: map<Key, Entry>, env: Key -> Env)
      returns (marks: seq<nat>, acks: seq<nat>, ghost order: seq<Key>)
      requires Valid()
      modifies this`blocked, host`tree, peer`tree
      ensures Distinct(order) && KeysOf(order) == local.Keys + remote.Keys
      ensures Pass(host.State(), peer.State(), blocked, IdSet(marks), IdSet(acks))
           == Loop(View(conf, old(host.State()), old(peer.State()), local, remote), old(blocked), order, env)
    {
      var todo := local.Keys + remote.Keys;
      marks, acks, order := [], [], [];
      ghost var v := View(conf, host.State(), peer.State(), local, remote);
      ghost var was := blocked;
      while todo != {}
        invariant Distinct(order) && KeysOf(order) !! todo && KeysOf(order) + todo == local.Keys + remote.Keys
        invariant Valid()
        invariant Pass(host.State(), peer.State(), blocked, IdSet(marks), IdSet(acks)) == Loop(v, was, order, env)
        decreases todo
      {
        var k :| k in todo;
        todo := todo - {k};
        ghost var p := Pass(host.State(), peer.State(), blocked, IdSet(marks), IdSet(acks));
        marks, acks := HandleKey(k, At(local, k), At(remote, k), env(k), marks, acks);
        ghost var q := Pass(host.State(), peer.State(), blocked, IdSet(marks), IdSet(acks));
        OrderGrows(v, was, order, k, env, p, q);
        order := order + [k];
      }
    }

    /** One reconcile cycle. The order in which the keys come is not determined; `round`
        records the snapshots taken and the order that happened. */
    method Run(env: Key -> Env, faults: Faults) returns (ghost round: Round)
      requires Valid()
      modifies this`blocked, host`tree, peer`tree, host.store`rows, peer.store`rows
      ensures Valid()
      ensures !(faults.fetchOk && faults.readOk) ==>
        host.State() == old(host.State()) && peer.State() == old(peer.State()) && blocked == old(blocked)
      ensures faults.fetchOk && faults.readOk ==>
        && Faithful(old(host.State()), old(peer.State()), round)
        && var p := Loop(ViewOf(conf, old(host.State()), old(peer.State()), round), old(blocked), round.order, env);
           && blocked == p.blocked
           && host.State() == p.me.(rows := if faults.markOk then MarkSynced(p.me.rows, p.marks) else p.me.rows)
           && peer.State() == p.peer.(rows := if faults.ackOk then MarkPeerAck(p.peer.rows, p.acks) else p.peer.rows)
    {
      round := Round(map[], map[], []);
      if !faults.fetchOk {
        return;
      }
      var fetched, _ := peer.ExchangeChangelog(ALL, "");
      if !faults.readOk {
        return;
      }
      var own := host.store.UnsyncedEntries("");
      AllAreListed(fetched, peer.store.rows, peer.store.text);
      AllAreListed(own, host.store.rows, host.store.text);
      var local := GroupEntries(own);
      var remote := GroupEntries(fetched);
      GroupsAreNewest(local, own, host.store.rows);
      GroupsAreNewest(remote, fetched, peer.store.rows);
      var marks, acks, order := HandleAll(local, remote, env);
      round := Round(local, remote, order);
      Settle(marks, acks, faults);
    }

    /** MarkSynced, then AckTransfer if there is anything to acknowledge. */
    method Settle(marks: seq<nat>, acks: seq<nat>, faults: Faults)
      requires Valid()
      modifies host.store`rows, peer.store`rows
      ensures Valid()
      ensures host.store.rows == if faults.markOk then MarkSynced(old(host.store.rows), IdSet(marks))
          else old(host.store.rows)
      ensures peer.store.rows == if faults.ackOk then MarkPeerAck(old(peer.store.rows), IdSet(acks))
          else old(peer.store.rows)
    {
      host.store.MarkSynced(marks, faults.markOk);
      if |acks| > 0 {
        peer.AckTransfer(acks, faults.ackOk);
      } else {
        assert IdSet(acks) == {};
        assert MarkPeerAck(peer.store.rows, {}) == peer.store.rows;
      }
    }
  }

  lemma OrderGrows(v: View, blocked: set<Key>, order: seq<Key>, k: Key, env: Key -> Env, p: Pass, q: Pass)
    requires Distinct(order) && k !in KeysOf(order)
    requires p == Loop(v, blocked, order, env) && q == Process(v.conf, p, k, At(v.local, k), At(v.remote, k), env(k))
    ensures Distinct(order + [k]) && KeysOf(order + [k]) == KeysOf(order) + {k}
    ensures Loop(v, blocked, order + [k], env) == q
  {
    assert (order + [k])[..|order|] == order;
  }
}
