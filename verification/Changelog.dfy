/** The changelog: entries, the table rows that carry their two flags, and what
    "the newest unsynced entry of a key" means (internal/changelog/store.go). */
module Changelog {

  /** A decoded hybrid-logical-clock stamp: an instant and a counter. */
  datatype Stamp = Stamp(physical: int, logical: nat)

  predicate Earlier(a: Stamp, b: Stamp) {
    a.physical < b.physical || (a.physical == b.physical && a.logical < b.logical)
  }

  /** The three-way comparison that CompareHLC makes once both stamps are decoded. */
  function CompareStamp(a: Stamp, b: Stamp): int {
    if a.physical < b.physical then -1
    else if a.physical > b.physical then 1
    else if a.logical < b.logical then -1
    else if a.logical > b.logical then 1
    else 0
  }

  /** The event kinds the watcher and the recovery scan write. */
  datatype Kind = Create | Modify | Attrib | Delete

  datatype Key = Key(pair: string, path: string)

  predicate Distinct(order: seq<Key>) {
    forall i, j | 0 <= i < j < |order| :: order[i] != order[j]
  }

  function KeysOf(order: seq<Key>): set<Key> { set k | k in order }

  datatype Entry = Entry(id: nat, key: Key, kind: Kind, stamp: Stamp, node: string)

  datatype Row = Row(entry: Entry, synced: bool, peerAck: bool, createdAt: string)

  type Rows = map<nat, Row>

  /** Every id was handed out before `nextId`, and a row is filed under its own id. */
  ghost predicate ValidRows(rows: Rows, nextId: nat) {
    forall id | id in rows :: id < nextId && rows[id].entry.id == id
  }

  predicate IsUnsynced(rows: Rows, id: nat) {
    id in rows && !rows[id].synced
  }

  predicate HasUnsynced(rows: Rows, k: Key) {
    exists id | id in rows :: !rows[id].synced && rows[id].entry.key == k
  }

  function UnsyncedIds(rows: Rows, k: Key): set<nat> {
    set id | id in rows && !rows[id].synced && rows[id].entry.key == k
  }

  /** `m` holds, for each key with an unsynced row, one such entry that no other beats. */
  ghost predicate NewestUnsynced(m: map<Key, Entry>, rows: Rows) {
    && (forall k | k in m :: m[k].key == k && IsUnsynced(rows, m[k].id) && rows[m[k].id].entry == m[k])
    && (forall id | IsUnsynced(rows, id) ::
          rows[id].entry.key in m && CompareStamp(rows[id].entry.stamp, m[rows[id].entry.key].stamp) <= 0)
  }

  function MarkSynced(rows: Rows, ids: set<nat>): Rows {
    map id | id in rows :: if id in ids then rows[id].(synced := true) else rows[id]
  }

  function MarkPeerAck(rows: Rows, ids: set<nat>): Rows {
    map id | id in rows :: if id in ids then rows[id].(peerAck := true) else rows[id]
  }

  lemma NothingGuards(rows: Rows, k: Key)
    requires UnsyncedIds(rows, k) == {}
    ensures !HasUnsynced(rows, k)
  {
    assert forall id | id in rows :: id !in UnsyncedIds(rows, k);
  }

  lemma ClearIsAbsent(m: map<Key, Entry>, rows: Rows, k: Key)
    requires NewestUnsynced(m, rows) && UnsyncedIds(rows, k) == {}
    ensures k !in m
  {
    assert forall j | j in m :: IsUnsynced(rows, m[j].id) && m[j].id in UnsyncedIds(rows, j);
  }

  lemma MarkOnly(id: nat, row: Row)
    ensures MarkSynced(map[id := row], {id}) == map[id := row.(synced := true)]
    ensures MarkPeerAck(map[id := row], {id}) == map[id := row.(peerAck := true)]
    ensures MarkPeerAck(map[id := row], {}) == map[id := row]
  {
  }
}
