/** The device's SQLite vault as a mutable object (internal/client/repository/db/sqlite.go, session.go). */
module LocalStore {
  import opened Basics
  import opened Crypto
  import opened Entries
  import opened LocalRows
  import opened SealedEntries
  import A = AuthSession

  datatype DbError = NotNull | CommitFailed

  /** Whether a reader limited to `forUser` sees the row. */
  predicate Sees(forUser: Option<UserId>, row: Row) {
    forUser.Some? ==> row.user == forUser.value
  }

  /** Zero without rows, else a whole number of seconds: the last before or at the latest stamp. */
  ghost predicate IsLastUpdate(rows: Rows, forUser: Option<UserId>, cursor: Time) {
    if forall id | id in rows :: !Sees(forUser, rows[id]) then cursor == 0
    else
      && cursor % 1_000_000_000 == 0
      && (exists id :: id in rows && Sees(forUser, rows[id]) && cursor <= rows[id].entry.updatedAt)
      && (forall id | id in rows && Sees(forUser, rows[id]) :: rows[id].entry.updatedAt < cursor + 1_000_000_000)
  }

  class Repository {
    var rows: Rows
    var crypto: map<UserId, LocalCrypto>
    var session: Option<A.Session>

    constructor ()
      ensures rows == map[] && crypto == map[] && session == None
    {
      rows, crypto, session := map[], map[], None;
    }

    /** The user_id column is NOT NULL, so an entry without an account is refused. */
    method SaveEntry(e: Entry, user: Option<UserId>, isDirty: bool) returns (r: Result<(), DbError>)
      modifies this`rows
      ensures match user
              case None => r == Err(NotNull) && rows == old(rows)
              case Some(u) => r == Ok(()) && rows == old(rows)[e.uuid := Row(e, isDirty, u)]
    {
      if user.None? {
        return Err(NotNull);
      }
      rows := rows[e.uuid := Row(e, isDirty, user.value)];
      return Ok(());
    }

    /** One transaction: save every update, then clear the flag of each dirty row the server applied. */
    method PersistSyncResult(user: UserId, updates: seq<Entry>, dirty: seq<Entry>, applied: set<Uuid>, commits: bool)
      returns (r: Result<(), DbError>)
      modifies this`rows
      ensures if commits then r == Ok(()) && rows == Persist(old(rows), user, updates, dirty, applied)
              else r == Err(CommitFailed) && rows == old(rows)
    {
      var tx := rows;
      for i := 0 to |updates|
        invariant tx == SaveAll(rows, user, updates[..i])
      {
        assert updates[..i + 1][..i] == updates[..i];
        tx := tx[updates[i].uuid := Row(updates[i], false, user)];
      }
      assert updates[..|updates|] == updates;
      ghost var saved := tx;
      for i := 0 to |dirty|
        invariant tx == CleanApplied(saved, user, dirty[..i], applied)
      {
        assert dirty[..i + 1][..i] == dirty[..i];
        var id := dirty[i].uuid;
        if id in applied && id in tx && tx[id].user == user {
          tx := tx[id := tx[id].(dirty := false)];
        }
      }
      assert dirty[..|dirty|] == dirty;
      if !commits {
        return Err(CommitFailed);
      }
      rows := tx;
      return Ok(());
    }

    method GetDirtyEntries(user: UserId) returns (batch: seq<Entry>)
      requires WellKeyed(rows)
      ensures IsDirtyList(rows, user, batch)
    {
      var pending := set id | id in rows && rows[id].user == user && rows[id].dirty;
      ghost var all := pending;
      batch := [];
      while pending != {}
        invariant pending <= all
        invariant forall e | e in batch :: e.uuid in all - pending && rows[e.uuid].entry == e
        invariant forall id | id in all - pending :: rows[id].entry in batch
        invariant DistinctIds(batch)
        decreases pending
      {
        var id :| id in pending;
        assert forall i | 0 <= i < |batch| :: batch[i] in batch;
        batch := batch + [rows[id].entry];
        pending := pending - {id};
      }
    }

    method GetLastUpdate(forUser: Option<UserId>) returns (cursor: Time)
      ensures IsLastUpdate(rows, forUser, cursor)
      ensures forUser.Some? ==> CursorWithin(ViewOfRows(rows, forUser.value), cursor)
    {
      var seen := set id | id in rows && Sees(forUser, rows[id]);
      assert forall id | id in rows && Sees(forUser, rows[id]) :: id in seen;
      if seen == {} {
        assert forUser.Some? ==> forall id :: id !in ViewOfRows(rows, forUser.value);
        return 0;
      }
      LatestExists(rows, seen);
      var last :| last in seen && forall x | x in seen :: rows[x].entry.updatedAt <= rows[last].entry.updatedAt;
      var stamp := rows[last].entry.updatedAt;
      cursor := stamp - stamp % NANOS_PER_SECOND;
      assert forUser.Some? ==> last in ViewOfRows(rows, forUser.value);
    }

    method GetEntry(id: Uuid, forUser: Option<UserId>) returns (found: Option<Row>)
      ensures found == if id in rows && Sees(forUser, rows[id]) then Some(rows[id]) else None
    {
      if id in rows && Sees(forUser, rows[id]) {
        return Some(rows[id]);
      }
      return None;
    }

    /** Rows that are not deleted, each once, latest first. */
    method ListEntries(forUser: Option<UserId>) returns (list: seq<Row>)
      requires WellKeyed(rows)
      ensures forall row ::
                row in list <==> exists id :: id in rows && rows[id] == row && Sees(forUser, row) && !row.entry.deleted
      ensures forall i, j | 0 <= i < j < |list| ::
                list[i].entry.updatedAt >= list[j].entry.updatedAt && list[i].entry.uuid != list[j].entry.uuid
    {
      var pending := set id | id in rows && Sees(forUser, rows[id]) && !rows[id].entry.deleted;
      ghost var all := pending;
      list := [];
      while pending != {}
        invariant Gathered(rows, all, pending, list)
        decreases pending
      {
        LatestExists(rows, pending);
        var id :| id in pending && forall x | x in pending :: rows[x].entry.updatedAt <= rows[id].entry.updatedAt;
        GatherNext(rows, all, pending, list, id);
        list := list + [rows[id]];
        pending := pending - {id};
      }
      forall row
        ensures row in list <==> exists id :: id in rows && rows[id] == row && Sees(forUser, row) && !row.entry.deleted
      {
        if id :| id in rows && rows[id] == row && Sees(forUser, row) && !row.entry.deleted {
          assert id in all;
        }
      }
    }

    /** Loads the account's salt and verifier, or stores the new salt without a verifier. */
    method EnsureLocalVaultCrypto(user: UserId, newSalt: seq<Byte>) returns (c: LocalCrypto)
      modifies this`crypto
      ensures c == if user in old(crypto) then old(crypto)[user] else LocalCrypto(newSalt, None)
      ensures crypto == old(crypto)[user := c]
    {
      if user in crypto {
        c := crypto[user];
        assert crypto == crypto[user := c];
      } else {
        c := LocalCrypto(newSalt, None);
        crypto := crypto[user := c];
      }
    }

    method ReplaceLocalVaultCrypto(user: UserId, pair: Pair)
      modifies this`crypto
      ensures crypto == old(crypto)[user := LocalCrypto(pair.salt, Some(pair.verifier))]
    {
      crypto := crypto[user := LocalCrypto(pair.salt, Some(pair.verifier))];
    }

    /** An UPDATE: without a row for the account it changes nothing. */
    method SetLocalMasterVerifier(user: UserId, verifier: Verifier)
      modifies this`crypto
      ensures crypto == if user in old(crypto) then old(crypto)[user := old(crypto)[user].(verifier := Some(verifier))]
          else old(crypto)
    {
      if user in crypto {
        crypto := crypto[user := crypto[user].(verifier := Some(verifier))];
      }
    }

    method SaveSession(s: A.Session) returns (r: Result<(), DbError>)
      modifies this`session
      ensures if s.user.None? then r == Err(NotNull) && session == old(session) else r == Ok(()) && session == Some(s)
    {
      if s.user.None? {
        return Err(NotNull);
      }
      session := Some(s);
      return Ok(());
    }

    method ClearSession()
      modifies this`session
      ensures session == None
    {
      session := None;
    }
  }

  lemma {:induction false} LatestExists(rows: Rows, ids: set<Uuid>)
    requires ids != {} && ids <= rows.Keys
    ensures exists id :: id in ids && forall x | x in ids :: rows[x].entry.updatedAt <= rows[id].entry.updatedAt
  {
    var id :| id in ids;
    var rest := ids - {id};
    if rest != {} {
      LatestExists(rows, rest);
      var m :| m in rest && forall x | x in rest :: rows[x].entry.updatedAt <= rows[m].entry.updatedAt;
      var last := if rows[id].entry.updatedAt >= rows[m].entry.updatedAt then id else m;
      assert last in ids && forall x | x in ids :: rows[x].entry.updatedAt <= rows[last].entry.updatedAt;
    } else {
      assert ids == {id};
    }
  }

  /** `list` has, latest first and each once, the rows of `all` that are no longer pending. */
  ghost predicate Gathered(rows: Rows, all: set<Uuid>, pending: set<Uuid>, list: seq<Row>) {
    && pending <= all <= rows.Keys
    && (forall row | row in list :: row.entry.uuid in all - pending && rows[row.entry.uuid] == row)
    && (forall id | id in all - pending :: rows[id] in list)
    && (forall row, id | row in list && id in pending :: row.entry.updatedAt >= rows[id].entry.updatedAt)
    && (forall i, j | 0 <= i < j < |list| ::
          list[i].entry.updatedAt >= list[j].entry.updatedAt && list[i].entry.uuid != list[j].entry.uuid)
  }

  lemma GatherNext(rows: Rows, all: set<Uuid>, pending: set<Uuid>, list: seq<Row>, id: Uuid)
    requires WellKeyed(rows) && Gathered(rows, all, pending, list)
    requires id in pending && forall x | x in pending :: rows[x].entry.updatedAt <= rows[id].entry.updatedAt
    ensures Gathered(rows, all, pending - {id}, list + [rows[id]])
  {
    var list', pending' := list + [rows[id]], pending - {id};
    forall i, j | 0 <= i < j < |list'|
      ensures list'[i].entry.updatedAt >= list'[j].entry.updatedAt && list'[i].entry.uuid != list'[j].entry.uuid
    {
      assert list'[i] in list;
    }
    forall x | x in all - pending'
      ensures rows[x] in list'
    {
      assert x == id || x in all - pending;
    }
  }
}
