/** The changelog table and its maintenance as mutable objects
    (internal/changelog/store.go, internal/changelog/maintenance.go). */
module Stores {
  import opened Changelog
  import opened Cycle
  import opened Protocol
  import opened Text

  datatype Column = Synced | PeerAck

  function IdSet(ids: seq<nat>): set<nat> { set id | id in ids }

  function WithFlag(rows: Rows, col: Column, ids: set<nat>): Rows {
    if col.Synced? then MarkSynced(rows, ids) else MarkPeerAck(rows, ids)
  }

  /** `out` lists each unsynced entry once. */
  ghost predicate ListsUnsynced(out: seq<Entry>, rows: Rows) {
    && (forall i | 0 <= i < |out| :: IsUnsynced(rows, out[i].id) && rows[out[i].id].entry == out[i])
    && (forall i, j | 0 <= i < j < |out| :: out[i].id != out[j].id)
    && (forall id | IsUnsynced(rows, id) :: rows[id].entry in out)
  }

  /** What a query for pending entries asks for: stamps after `since`, and one pair; an
      empty text asks for all. */
  datatype Request = Request(since: string, pair: string)

  const ALL: Request := Request("", "")

  /** The text that stands in the hlc_timestamp column for a stamp. */
  type StampText = Stamp -> string

  predicate Asked(e: Entry, req: Request, text: StampText) {
    && (req.since == "" || LexLess(req.since, text(e.stamp)))
    && (req.pair == "" || e.key.pair == req.pair)
  }

  /** `out` lists each unsynced entry that was asked for once. */
  ghost predicate ListsAsked(out: seq<Entry>, rows: Rows, req: Request, text: StampText) {
    && (forall i | 0 <= i < |out| ::
          IsUnsynced(rows, out[i].id) && rows[out[i].id].entry == out[i] && Asked(out[i], req, text))
    && (forall i, j | 0 <= i < j < |out| :: out[i].id != out[j].id)
    && (forall id | IsUnsynced(rows, id) && Asked(rows[id].entry, req, text) :: rows[id].entry in out)
  }

  predicate TextOrdered(out: seq<Entry>, text: StampText) {
    forall i, j | 0 <= i < j < |out| :: LexCompare(text(out[i].stamp), text(out[j].stamp)) <= 0
  }

  /** What it means for one entry to be listed, written out. */
  lemma ListedIff(out: seq<Entry>, rows: Rows, req: Request, text: StampText, e: Entry)
    requires ListsAsked(out, rows, req, text)
    ensures e in out <==>
      && e.id in rows && !rows[e.id].synced && rows[e.id].entry == e
      && (req.pair == "" || e.key.pair == req.pair) && (req.since == "" || LexLess(req.since, text(e.stamp)))
  {
  }

  lemma AllAreListed(out: seq<Entry>, rows: Rows, text: StampText)
    requires ListsAsked(out, rows, ALL, text)
    ensures ListsUnsynced(out, rows)
  {
  }

  predicate AtMostText(rows: Rows, id: nat, j: nat, text: StampText)
    requires id in rows && j in rows
  {
    LexCompare(text(rows[id].entry.stamp), text(rows[j].entry.stamp)) <= 0
  }

  function TextAt(rows: Rows, id: nat, text: StampText): string
    requires id in rows
  {
    text(rows[id].entry.stamp)
  }

  lemma LeastExists(rows: Rows, ids: set<nat>, text: StampText)
    requires ids != {} && ids <= rows.Keys
    ensures exists id :: id in ids && forall j | j in ids :: AtMostText(rows, id, j, text)
  {
    var texts := set id | id in ids :: TextAt(rows, id, text);
    var x :| x in ids;
    assert TextAt(rows, x, text) in texts;
    var least := LeastText(texts);
    var id :| id in ids && TextAt(rows, id, text) == least;
    forall j | j in ids ensures AtMostText(rows, id, j, text) {
      assert TextAt(rows, j, text) in texts;
    }
  }

  lemma GreatestExists(rows: Rows, ids: set<nat>, text: StampText)
    requires ids != {} && ids <= rows.Keys
    ensures exists id :: id in ids && forall j | j in ids :: AtMostText(rows, j, id, text)
  {
    var texts := set id | id in ids :: TextAt(rows, id, text);
    var x :| x in ids;
    assert TextAt(rows, x, text) in texts;
    var greatest := GreatestText(texts);
    var id :| id in ids && TextAt(rows, id, text) == greatest;
    forall j | j in ids ensures AtMostText(rows, j, id, text) {
      assert TextAt(rows, j, text) in texts;
    }
  }

  /** `out` lists in order what was asked for, except the rows in `left`, which come later. */
  ghost predicate ListedButFor(out: seq<Entry>, rows: Rows, req: Request, text: StampText, left: set<nat>) {
    && left <= rows.Keys && TextOrdered(out, text)
    && (forall id | id in left :: !rows[id].synced && Asked(rows[id].entry, req, text))
    && (forall i | 0 <= i < |out| :: ListedBefore(out[i], rows, req, text, left))
    && (forall i, j | 0 <= i < j < |out| :: out[i].id != out[j].id)
    && (forall id | IsUnsynced(rows, id) && Asked(rows[id].entry, req, text) && id !in left :: rows[id].entry in out)
  }

  ghost predicate ListedBefore(e: Entry, rows: Rows, req: Request, text: StampText, left: set<nat>) {
    && e.id !in left && IsUnsynced(rows, e.id) && rows[e.id].entry == e && Asked(e, req, text)
    && forall j | j in left :: j in rows && AtMostText(rows, e.id, j, text)
  }

  lemma ListOneMore(out: seq<Entry>, rows: Rows, req: Request, text: StampText, left: set<nat>, id: nat)
    requires ListedButFor(out, rows, req, text, left) && id in left && rows[id].entry.id == id
    requires forall j | j in left :: AtMostText(rows, id, j, text)
    ensures ListedButFor(out + [rows[id].entry], rows, req, text, left - {id})
  {
    var out' := out + [rows[id].entry];
    forall i | 0 <= i < |out'| ensures ListedBefore(out'[i], rows, req, text, left - {id}) {
      if i < |out| { assert ListedBefore(out[i], rows, req, text, left); }
    }
    forall i, j | 0 <= i < j < |out'|
      ensures out'[i].id != out'[j].id && LexCompare(text(out'[i].stamp), text(out'[j].stamp)) <= 0
    {
      assert ListedBefore(out[i], rows, req, text, left);
    }
  }

  class Store {
    const text: StampText
    var rows: Rows
    /** AUTOINCREMENT: greater than every id ever handed out. */
    var nextId: nat

    ghost predicate Valid()
      reads this
    {
      ValidRows(rows, nextId)
    }

    constructor (text: StampText)
      ensures Valid() && rows == map[] && nextId == 1 && this.text == text
    {
      this.text, rows, nextId := text, map[], 1;
    }

    method Append(k: Key, kind: Kind, stamp: Stamp, node: string, createdAt: string) returns (id: nat)
      requires Valid()
      modifies this
      ensures Valid() && id == old(nextId) && nextId == id + 1 && id !in old(rows)
      ensures rows == old(rows)[id := Row(Entry(id, k, kind, stamp, node), false, false, createdAt)]
      ensures forall conf: Settings, d: Daemon, peer: Daemon
        | d.node.name == node && d.node.rows == old(rows) && d.node.nextId == old(nextId) ::
        var logged := Step(conf, d, peer, Log(k, kind, stamp, createdAt)).0.node;
        logged == d.node.(rows := rows, nextId := nextId)
    {
      id := nextId;
      rows := rows[id := Row(Entry(id, k, kind, stamp, node), false, false, createdAt)];
      nextId := id + 1;
    }

    /** One transaction: either every id gets the flag or, if it fails, none. */
    method UpdateFlag(col: Column, ids: seq<nat>, ok: bool)
      requires Valid()
      modifies this`rows
      ensures Valid() && rows == if ok then WithFlag(old(rows), col, IdSet(ids)) else old(rows)
    {
      if |ids| == 0 || !ok {
        assert WithFlag(rows, col, {}) == rows;
        assert |ids| == 0 ==> IdSet(ids) == {};
        return;
      }
      var tx := rows;
      for i := 0 to |ids|
        invariant tx == WithFlag(rows, col, IdSet(ids[..i]))
      {
        var id := ids[i];
        assert IdSet(ids[..i + 1]) == IdSet(ids[..i]) + {id} by { assert ids[..i + 1] == ids[..i] + [id]; }
        if id in tx {
          tx := tx[id := if col.Synced? then tx[id].(synced := true) else tx[id].(peerAck := true)];
        }
      }
      assert ids[..|ids|] == ids;
      rows := tx;
    }

    method MarkSynced(ids: seq<nat>, ok: bool)
      requires Valid()
      modifies this`rows
      ensures Valid() && rows == if ok then Changelog.MarkSynced(old(rows), IdSet(ids)) else old(rows)
    {
      UpdateFlag(Synced, ids, ok);
    }

    method MarkPeerAck(ids: seq<nat>, ok: bool)
      requires Valid()
      modifies this`rows
      ensures Valid() && rows == if ok then Changelog.MarkPeerAck(old(rows), IdSet(ids)) else old(rows)
    {
      UpdateFlag(PeerAck, ids, ok);
    }

    /** The rows of a query, in the order of their stamp texts. */
    method Query(req: Request) returns (out: seq<Entry>)
      requires Valid()
      ensures ListsAsked(out, rows, req, text) && TextOrdered(out, text)
    {
      out := [];
      var left := set id | id in rows && !rows[id].synced && Asked(rows[id].entry, req, text);
      while left != {}
        invariant ListedButFor(out, rows, req, text, left)
        decreases left
      {
        LeastExists(rows, left, text);
        var id :| id in left && forall j | j in left :: AtMostText(rows, id, j, text);
        ListOneMore(out, rows, req, text, left, id);
        out := out + [rows[id].entry];
        left := left - {id};
      }
    }

    method UnsyncedEntries(pair: string) returns (out: seq<Entry>)
      requires Valid()
      ensures ListsAsked(out, rows, Request("", pair), text)
      ensures forall e :: e in out <==>
        e.id in rows && !rows[e.id].synced && rows[e.id].entry == e && (pair == "" || e.key.pair == pair)
      ensures forall i, j | 0 <= i < j < |out| ::
        out[i].id != out[j].id && LexCompare(text(out[i].stamp), text(out[j].stamp)) <= 0
    {
      out := Query(Request("", pair));
      forall e ensures e in out <==>
        e.id in rows && !rows[e.id].synced && rows[e.id].entry == e && (pair == "" || e.key.pair == pair)
      {
        ListedIff(out, rows, Request("", pair), text, e);
      }
    }

    method EntriesSince(since: string) returns (out: seq<Entry>)
      requires Valid()
      ensures ListsAsked(out, rows, Request(since, ""), text) && TextOrdered(out, text)
      ensures forall e :: e in out <==>
        e.id in rows && !rows[e.id].synced && rows[e.id].entry == e && (since == "" || LexLess(since, text(e.stamp)))
      ensures forall i, j | 0 <= i < j < |out| ::
        out[i].id != out[j].id && LexCompare(text(out[i].stamp), text(out[j].stamp)) <= 0
    {
      out := Query(Request(since, ""));
      forall e ensures e in out <==>
        e.id in rows && !rows[e.id].synced && rows[e.id].entry == e && (since == "" || LexLess(since, text(e.stamp)))
      {
        ListedIff(out, rows, Request(since, ""), text, e);
      }
    }

    /** The greatest stamp text of all rows, synced or not; `next` if there are none. */
    method CurrentHlc(next: string) returns (current: string)
      requires Valid()
      ensures rows == map[] ==> current == next
      ensures forall id | id in rows :: LexCompare(text(rows[id].entry.stamp), current) <= 0
      ensures rows != map[] ==> exists id :: id in rows && text(rows[id].entry.stamp) == current
    {
      if rows == map[] {
        return next;
      }
      assert rows.Keys != {};
      GreatestExists(rows, rows.Keys, text);
      var id :| id in rows.Keys && forall j | j in rows.Keys :: AtMostText(rows, j, id, text);
      current := text(rows[id].entry.stamp);
    }

    method DeleteOldSynced(cutoff: string)
      requires Valid()
      modifies this`rows
      ensures Valid() && RowsLeft(old(rows), rows)
      ensures forall id | id in old(rows) :: id !in rows <==>
        old(rows)[id].synced && old(rows)[id].peerAck && LexLess(old(rows)[id].createdAt, cutoff)
    {
      rows := map id | id in rows && !(rows[id].synced && rows[id].peerAck
          && LexLess(rows[id].createdAt, cutoff)) :: rows[id];
    }

    method DeleteStaleTombstones(cutoff: string)
      requires Valid()
      modifies this`rows
      ensures Valid() && RowsLeft(old(rows), rows)
      ensures forall id | id in old(rows) :: id !in rows <==>
        old(rows)[id].entry.kind.Delete? && LexLess(old(rows)[id].createdAt, cutoff)
    {
      rows := map id | id in rows && !(rows[id].entry.kind.Delete? && LexLess(rows[id].createdAt, cutoff)) :: rows[id];
    }

    /** One maintenance pass is the pruning step of the two-node model. */
    method Maintain(retention: string, tombstones: string)
      requires Valid()
      modifies this`rows
      ensures Valid() && rows == PruneRows(old(rows), retention, tombstones)
    {
      DeleteOldSynced(retention);
      DeleteStaleTombstones(tombstones);
    }
  }

  /** Some rows may be gone; the others are as they were, and none is new. */
  ghost predicate RowsLeft(was: Rows, rows: Rows) {
    forall id | id in rows :: id in was && rows[id] == was[id]
  }
}
