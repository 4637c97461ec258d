/** The synced entry, the server's table of entries and a device's table of rows. */
module Entries {
  import opened Basics
  import opened Crypto

  /** The fields an entry carries over the wire and in both databases. */
  datatype Entry = Entry(
    uuid: Uuid,
    typ: string,
    dek: Blob,
    payload: Blob,
    meta: Blob,
    version: int,
    deleted: bool,
    updatedAt: Time)

  /** Server rows, keyed by (user_id, uuid). */
  type Table = map<(UserId, Uuid), Entry>

  /** One row of a device's `entries` table, whose primary key is the uuid alone. */
  datatype Row = Row(entry: Entry, dirty: bool, user: UserId)

  type Rows = map<Uuid, Row>

  /** Every row is filed under the uuid of its entry. */
  ghost predicate WellKeyed(rows: Rows) {
    forall id | id in rows :: rows[id].entry.uuid == id
  }

  ghost predicate TableWellKeyed(table: Table) {
    forall k | k in table :: table[k].uuid == k.1
  }

  /** `later` has a higher version than `e`, or is `e` itself. */
  predicate AtLeast(later: Entry, e: Entry) {
    later.version > e.version || later == e
  }

  /** No row disappears and none is replaced except by a strictly higher version. */
  ghost predicate Grows(before: Table, after: Table) {
    forall k | k in before :: k in after && AtLeast(after[k], before[k])
  }

  lemma GrowsTransitive(a: Table, b: Table, c: Table)
    requires Grows(a, b) && Grows(b, c)
    ensures Grows(a, c)
  {
    forall k | k in a
      ensures k in c && AtLeast(c[k], a[k])
    {
      assert k in b;
    }
  }

  ghost predicate DistinctIds(entries: seq<Entry>) {
    forall i, j | 0 <= i < j < |entries| :: entries[i].uuid != entries[j].uuid
  }

  lemma LastIsNew(entries: seq<Entry>)
    requires DistinctIds(entries) && entries != []
    ensures DistinctIds(entries[..|entries| - 1]) && entries[|entries| - 1].uuid !in Ids(entries[..|entries| - 1])
  {
  }

  function Ids(entries: seq<Entry>): set<Uuid> {
    set e | e in entries :: e.uuid
  }

  function IdSet(ids: seq<Uuid>): set<Uuid> {
    set id | id in ids
  }
}
