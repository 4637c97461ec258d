/**
 The meaning of the device statements that sync uses, as functions on rows
 (internal/client/repository/db/sqlite.go).
 */
module LocalRows {
  import opened Basics
  import opened Entries

  /** saveEntry for each remote update in turn. There is no version guard: the row is replaced. */
  function SaveAll(rows: Rows, user: UserId, updates: seq<Entry>): Rows {
    if updates == [] then rows
    else
      var e := updates[|updates| - 1];
      SaveAll(rows, user, updates[..|updates| - 1])[e.uuid := Row(e, false, user)]
  }

  /** UPDATE entries SET is_dirty = 0 WHERE uuid = id AND user_id = user */
  function Clean(rows: Rows, user: UserId, id: Uuid): Rows {
    if id in rows && rows[id].user == user then rows[id := rows[id].(dirty := false)] else rows
  }

  /** Clears the flag of each pushed row whose id the server applied. */
  function CleanApplied(rows: Rows, user: UserId, dirty: seq<Entry>, applied: set<Uuid>): Rows {
    if dirty == [] then rows
    else
      var rows' := CleanApplied(rows, user, dirty[..|dirty| - 1], applied);
      var e := dirty[|dirty| - 1];
      if e.uuid in applied then Clean(rows', user, e.uuid) else rows'
  }

  /** PersistSyncResult when its transaction commits. */
  function Persist(rows: Rows, user: UserId, updates: seq<Entry>, dirty: seq<Entry>, applied: set<Uuid>): Rows {
    CleanApplied(SaveAll(rows, user, updates), user, dirty, applied)
  }

  /** The updates are in, clean, and nothing else has changed. */
  ghost predicate HasSaved(rows: Rows, user: UserId, updates: seq<Entry>, r: Rows) {
    && r.Keys == rows.Keys + Ids(updates)
    && (forall e | e in updates :: r[e.uuid] == Row(e, false, user))
    && (forall id | id in rows && id !in Ids(updates) :: r[id] == rows[id])
  }

  lemma {:induction false} SaveAllAt(rows: Rows, user: UserId, updates: seq<Entry>)
    requires DistinctIds(updates)
    ensures HasSaved(rows, user, updates, SaveAll(rows, user, updates))
  {
    if updates == [] {
    } else {
      var init, last := updates[..|updates| - 1], updates[|updates| - 1];
      SaveAllAt(rows, user, init);
      LastIsNew(updates);
      SaveOneAt(rows, user, init, SaveAll(rows, user, init), last);
      assert updates == init + [last];
    }
  }

  lemma SaveOneAt(rows: Rows, user: UserId, init: seq<Entry>, r: Rows, last: Entry)
    requires HasSaved(rows, user, init, r) && last.uuid !in Ids(init)
    ensures HasSaved(rows, user, init + [last], r[last.uuid := Row(last, false, user)])
  {
    assert Ids(init + [last]) == Ids(init) + {last.uuid};
    forall e | e in init
      ensures e.uuid != last.uuid
    {
      assert e.uuid in Ids(init);
    }
  }

  lemma {:induction false} CleanAppliedAt(rows: Rows, user: UserId, dirty: seq<Entry>, applied: set<Uuid>)
    ensures var r := CleanApplied(rows, user, dirty, applied);
            && r.Keys == rows.Keys
            && forall id | id in rows ::
                 r[id] == if rows[id].user == user && id in Ids(dirty) && id in applied
                          then rows[id].(dirty := false) else rows[id]
  {
    if dirty == [] {
    } else {
      var init, last := dirty[..|dirty| - 1], dirty[|dirty| - 1];
      CleanAppliedAt(rows, user, init, applied);
      assert dirty == init + [last];
      assert Ids(dirty) == Ids(init) + {last.uuid};
    }
  }

  /** PersistSyncResult row by row. */
  lemma PersistAt(rows: Rows, user: UserId, updates: seq<Entry>, dirty: seq<Entry>, applied: set<Uuid>)
    requires DistinctIds(updates)
    ensures var r := Persist(rows, user, updates, dirty, applied);
            && r.Keys == rows.Keys + Ids(updates)
            && (forall e | e in updates :: r[e.uuid] == Row(e, false, user))
            && (forall id | id in rows && id !in Ids(updates) ::
                  r[id] == if rows[id].user == user && id in Ids(dirty) && id in applied
                           then rows[id].(dirty := false) else rows[id])
  {
    SaveAllAt(rows, user, updates);
    CleanAppliedAt(SaveAll(rows, user, updates), user, dirty, applied);
    var r := Persist(rows, user, updates, dirty, applied);
    forall e | e in updates
      ensures r[e.uuid] == Row(e, false, user)
    {
      assert e.uuid in Ids(updates);
    }
  }

  // ----- What the readers return -----

  /** GetDirtyEntries for one account: its dirty rows, each once, in any order. */
  ghost predicate IsDirtyList(rows: Rows, user: UserId, batch: seq<Entry>) {
    && DistinctIds(batch)
    && (forall e | e in batch :: e.uuid in rows && rows[e.uuid] == Row(e, true, user))
    && (forall id | id in rows && rows[id].user == user && rows[id].dirty :: rows[id].entry in batch)
  }

  /** There is always such a list. */
  lemma DirtyListExists(rows: Rows, user: UserId) returns (batch: seq<Entry>)
    requires WellKeyed(rows)
    ensures IsDirtyList(rows, user, batch)
  {
    batch := ListRows(rows, set id | id in rows && rows[id].user == user && rows[id].dirty);
  }

  lemma {:induction false} ListRows(rows: Rows, ids: set<Uuid>) returns (list: seq<Entry>)
    requires WellKeyed(rows) && ids <= rows.Keys
    ensures DistinctIds(list)
    ensures forall e | e in list :: e.uuid in ids && rows[e.uuid].entry == e
    ensures forall id | id in ids :: rows[id].entry in list
  {
    if ids == {} {
      list := [];
    } else {
      var id :| id in ids;
      var rest := ListRows(rows, ids - {id});
      assert forall e | e in rest :: e.uuid != id;
      list := [rows[id].entry] + rest;
    }
  }

  /** GetUpdatedAfter: the account's rows stamped after the cursor, each once, oldest first. */
  ghost predicate IsAnswer(table: Table, user: UserId, cursor: Time, updates: seq<Entry>) {
    && DistinctIds(updates)
    && (forall i, j | 0 <= i < j < |updates| :: updates[i].updatedAt <= updates[j].updatedAt)
    && (forall e | e in updates :: (user, e.uuid) in table && table[(user, e.uuid)] == e && e.updatedAt > cursor)
    && (forall k | k in table && k.0 == user && table[k].updatedAt > cursor :: table[k] in updates)
  }

  /** The device's rows of one account. */
  function ViewOfRows(rows: Rows, user: UserId): Rows {
    map id | id in rows && rows[id].user == user :: rows[id]
  }

  /** All that the convergence results use about GetLastUpdate: zero without rows, else no later than some row. */
  ghost predicate CursorWithin(local: Rows, cursor: Time) {
    if local == map[] then cursor == 0
    else exists id :: id in local && cursor <= local[id].entry.updatedAt
  }
}
