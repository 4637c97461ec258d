/**
 One sync round of one account that no other push interrupts, as a function on what the server
 and the device hold for that account; and when such a round makes them equal.
 */
module SyncRound {
  import opened Basics
  import opened Entries
  import opened ServerTable
  import opened LocalRows

  /** The server's rows of one account. */
  type ServerView = map<Uuid, Entry>

  function ViewOfTable(table: Table, user: UserId): ServerView {
    map id | id in (set k | k in table && k.0 == user :: k.1) :: table[(user, id)]
  }

  function Lift(user: UserId, view: ServerView): Table {
    map k: (UserId, Uuid) | k in (set id | id in view :: (user, id)) :: view[k.1]
  }

  /** The device's row is dirty and newer than what the server has. */
  predicate Wins(server: ServerView, local: Rows, id: Uuid) {
    id in local && local[id].dirty && (id in server ==> server[id].version < local[id].entry.version)
  }

  /** The server's rows after the device's dirty rows are pushed. */
  function Push(server: ServerView, local: Rows): ServerView {
    map id | id in server.Keys + (set x | x in local && local[x].dirty) ::
      if Wins(server, local, id) then local[id].entry else server[id]
  }

  /** The device's rows after it also receives every server row stamped after the cursor. */
  function Pull(server: ServerView, local: Rows, user: UserId, cursor: Time): Rows {
    var pushed := Push(server, local);
    map id | id in local.Keys + (set x | x in pushed && pushed[x].updatedAt > cursor) ::
      if id in pushed && pushed[id].updatedAt > cursor then Row(pushed[id], false, user)
      else if Wins(server, local, id) then local[id].(dirty := false)
      else local[id]
  }

  function TableAfter(table: Table, rows: Rows, user: UserId): Table {
    table + Lift(user, Push(ViewOfTable(table, user), ViewOfRows(rows, user)))
  }

  function RowsAfter(table: Table, rows: Rows, user: UserId, cursor: Time): Rows {
    rows + Pull(ViewOfTable(table, user), ViewOfRows(rows, user), user, cursor)
  }

  /** `Wins`, said of the whole tables. */
  predicate Accepts(table: Table, rows: Rows, user: UserId, id: Uuid) {
    && id in rows && rows[id].user == user && rows[id].dirty
    && ((user, id) in table ==> table[(user, id)].version < rows[id].entry.version)
  }

  lemma ViewsAgree(table: Table, rows: Rows, user: UserId, id: Uuid)
    ensures (user, id) in table <==> id in ViewOfTable(table, user)
    ensures (user, id) in table ==> ViewOfTable(table, user)[id] == table[(user, id)]
    ensures Accepts(table, rows, user, id) <==> Wins(ViewOfTable(table, user), ViewOfRows(rows, user), id)
  {
    if (user, id) in table {
      assert id in (set k | k in table && k.0 == user :: k.1);
    }
  }

  lemma TableAfterAt(table: Table, rows: Rows, user: UserId, k: (UserId, Uuid))
    ensures var t := TableAfter(table, rows, user);
            && (k in t <==> k in table || (k.0 == user && Accepts(table, rows, user, k.1)))
            && (k in t ==> t[k] == if k.0 == user && Accepts(table, rows, user, k.1) then rows[k.1].entry else table[k])
  {
    var pushed := Push(ViewOfTable(table, user), ViewOfRows(rows, user));
    ViewsAgree(table, rows, user, k.1);
    assert k in Lift(user, pushed) <==> k.0 == user && k.1 in pushed;
  }

  /** Whether the pull delivers the id: the server has it, after the push, with a stamp past the cursor. */
  predicate Delivers(table: Table, rows: Rows, user: UserId, cursor: Time, id: Uuid) {
    var t := TableAfter(table, rows, user);
    (user, id) in t && t[(user, id)].updatedAt > cursor
  }

  lemma RowsAfterAt(table: Table, rows: Rows, user: UserId, cursor: Time, id: Uuid)
    ensures var r := RowsAfter(table, rows, user, cursor);
            && (id in r <==> id in rows || Delivers(table, rows, user, cursor, id))
            && (id in r ==> r[id] == if Delivers(table, rows, user, cursor, id)
                                     then Row(TableAfter(table, rows, user)[(user, id)], false, user)
                                     else if Accepts(table, rows, user, id) then rows[id].(dirty := false)
                                     else rows[id])
  {
    var server, local := ViewOfTable(table, user), ViewOfRows(rows, user);
    ViewsAgree(table, rows, user, id);
    ViewAfter(table, rows, user, id);
    PullAt(server, local, user, cursor, id);
  }

  /** Reading the account's part of the pushed table gives the pushed view. */
  lemma ViewAfter(table: Table, rows: Rows, user: UserId, id: Uuid)
    ensures var t, pushed := TableAfter(table, rows, user), Push(ViewOfTable(table, user), ViewOfRows(rows, user));
            && ((user, id) in t <==> id in pushed)
            && ((user, id) in t ==> t[(user, id)] == pushed[id])
  {
    var pushed := Push(ViewOfTable(table, user), ViewOfRows(rows, user));
    ViewsAgree(table, rows, user, id);
    assert (user, id) in Lift(user, pushed) <==> id in pushed;
  }

  lemma PullAt(server: ServerView, local: Rows, user: UserId, cursor: Time, id: Uuid)
    ensures var p, pushed := Pull(server, local, user, cursor), Push(server, local);
            && (id in p <==> id in local || (id in pushed && pushed[id].updatedAt > cursor))
            && (id in p ==> p[id] == if id in pushed && pushed[id].updatedAt > cursor then Row(pushed[id], false, user)
                                     else if Wins(server, local, id) then local[id].(dirty := false)
                                     else local[id])
  {
  }

  /** The upsert of the dirty rows, in whatever order they were read, is Push. */
  lemma UpsertIsPush(table: Table, rows: Rows, user: UserId, batch: seq<Entry>)
    requires WellKeyed(rows) && IsDirtyList(rows, user, batch)
    ensures Upsert(table, user, batch).Done?
    ensures Upsert(table, user, batch).table == TableAfter(table, rows, user)
    ensures forall e | e in batch ::
              e.uuid in Upsert(table, user, batch).applied <==> Accepts(table, rows, user, e.uuid)
  {
    UpsertExact(table, user, batch);
    var after, t := Upsert(table, user, batch).table, TableAfter(table, rows, user);
    forall k
      ensures SameAt(after, t, k)
    {
      UpsertIsPushAt(table, rows, user, batch, k);
    }
    SameEverywhere(after, t);
  }

  lemma UpsertIsPushAt(table: Table, rows: Rows, user: UserId, batch: seq<Entry>, k: (UserId, Uuid))
    requires WellKeyed(rows) && IsDirtyList(rows, user, batch)
    ensures Upsert(table, user, batch).Done?
    ensures SameAt(Upsert(table, user, batch).table, TableAfter(table, rows, user), k)
  {
    UpsertExact(table, user, batch);
    TableAfterAt(table, rows, user, k);
    DirtyIds(rows, user, batch, k.1);
    if k.0 == user && k.1 in Ids(batch) {
      var e :| e in batch && e.uuid == k.1;
      assert rows[e.uuid] == Row(e, true, user);
      assert Beats(table, user, e) <==> Accepts(table, rows, user, e.uuid);
    }
  }

  /** PersistSyncResult on what the server applied and answered, in whatever order, is Pull. */
  lemma PersistIsPull(table: Table, rows: Rows, user: UserId, cursor: Time,
                      batch: seq<Entry>, updates: seq<Entry>, applied: set<Uuid>)
    requires WellKeyed(rows) && TableWellKeyed(table) && IsDirtyList(rows, user, batch)
    requires IsAnswer(TableAfter(table, rows, user), user, cursor, updates)
    requires forall e | e in batch :: e.uuid in applied <==> Accepts(table, rows, user, e.uuid)
    ensures Persist(rows, user, updates, batch, applied) == RowsAfter(table, rows, user, cursor)
  {
    var r, r' := Persist(rows, user, updates, batch, applied), RowsAfter(table, rows, user, cursor);
    forall id
      ensures SameAt(r, r', id)
    {
      PersistIsPullAt(table, rows, user, cursor, batch, updates, applied, id);
    }
    SameEverywhere(r, r');
  }

  lemma PersistIsPullAt(table: Table, rows: Rows, user: UserId, cursor: Time,
                        batch: seq<Entry>, updates: seq<Entry>, applied: set<Uuid>, id: Uuid)
    requires WellKeyed(rows) && TableWellKeyed(table) && IsDirtyList(rows, user, batch)
    requires IsAnswer(TableAfter(table, rows, user), user, cursor, updates)
    requires forall e | e in batch :: e.uuid in applied <==> Accepts(table, rows, user, e.uuid)
    ensures SameAt(Persist(rows, user, updates, batch, applied), RowsAfter(table, rows, user, cursor), id)
  {
    var r := Persist(rows, user, updates, batch, applied);
    PersistAt(rows, user, updates, batch, applied);
    RowsAfterAt(table, rows, user, cursor, id);
    AnswerIds(table, rows, user, cursor, updates, id);
    if id in Ids(updates) {
      var e :| e in updates && e.uuid == id;
      assert r[e.uuid] == Row(e, false, user);
    } else if id in rows {
      DirtyIds(rows, user, batch, id);
      if id in Ids(batch) {
        var e :| e in batch && e.uuid == id;
        assert e.uuid in applied <==> Accepts(table, rows, user, e.uuid);
      }
    }
  }

  lemma AnswerIds(table: Table, rows: Rows, user: UserId, cursor: Time, updates: seq<Entry>, id: Uuid)
    requires WellKeyed(rows) && TableWellKeyed(table)
    requires IsAnswer(TableAfter(table, rows, user), user, cursor, updates)
    ensures var t := TableAfter(table, rows, user);
            id in Ids(updates) <==> (user, id) in t && t[(user, id)].updatedAt > cursor
  {
    var t := TableAfter(table, rows, user);
    TableAfterAt(table, rows, user, (user, id));
    if (user, id) in t && t[(user, id)].updatedAt > cursor {
      assert t[(user, id)] in updates;
      assert t[(user, id)].uuid == id;
    }
  }

  lemma DirtyIds(rows: Rows, user: UserId, batch: seq<Entry>, id: Uuid)
    requires WellKeyed(rows) && IsDirtyList(rows, user, batch)
    ensures id in Ids(batch) <==> id in rows && rows[id].user == user && rows[id].dirty
  {
    if id in rows && rows[id].user == user && rows[id].dirty {
      assert rows[id].entry in batch;
    }
  }
}
