/** The server's Postgres repository as a mutable object (internal/skeeper/repository/postgres/postgres.go). */
module ServerStore {
  import opened Basics
  import opened Crypto
  import opened Entries
  import opened LocalRows
  import opened ServerTable
  import opened Wire
  import V = VaultRegister

  datatype DbError = CannotAffectTwice

  class Repository {
    var table: Table
    var vault: V.Register

    constructor ()
      ensures table == map[] && vault == map[]
    {
      table, vault := map[], map[];
    }

    /** Fills the column arrays, runs the statement, and collects the returned uuids. */
    method UpsertEntries(user: UserId, entries: seq<Entry>) returns (r: Result<seq<Uuid>, DbError>)
      modifies this`table
      ensures match Upsert(old(table), user, entries)
              case Done(after, applied) => table == after && r == Ok(applied)
              case HitTwice => table == old(table) && r == Err(CannotAffectTwice)
    {
      if |entries| == 0 {
        return Ok([]);
      }
      var columns := FillColumns(user, entries);
      r := ExecUpsert(user, entries, columns);
    }

    static method FillColumns(user: UserId, entries: seq<Entry>) returns (c: Columns)
      ensures Carries(c, user, entries)
    {
      var n := |entries|;
      var uuids, types, versions := seq(n, _ => Uuid(0)), seq(n, _ => ""), seq(n, _ => 0);
      var deks, payloads, metas := seq(n, _ => Raw([])), seq(n, _ => Raw([])), seq(n, _ => Raw([]));
      var deleted, updatedAt := seq(n, _ => false), seq(n, _ => ZERO_TIME);
      for i := 0 to n
        invariant |uuids| == |types| == |versions| == |deks| == |payloads| == |metas| == |deleted| == |updatedAt| == n
        invariant forall j | 0 <= j < i :: uuids[j] == entries[j].uuid
        invariant forall j | 0 <= j < i :: types[j] == entries[j].typ
        invariant forall j | 0 <= j < i :: deks[j] == entries[j].dek
        invariant forall j | 0 <= j < i :: payloads[j] == entries[j].payload
        invariant forall j | 0 <= j < i :: metas[j] == entries[j].meta
        invariant forall j | 0 <= j < i :: versions[j] == entries[j].version
        invariant forall j | 0 <= j < i :: deleted[j] == entries[j].deleted
        invariant forall j | 0 <= j < i :: updatedAt[j] == entries[j].updatedAt
      {
        var e := entries[i];
        uuids, types := uuids[i := e.uuid], types[i := e.typ];
        deks, payloads, metas := deks[i := e.dek], payloads[i := e.payload], metas[i := e.meta];
        versions, deleted, updatedAt := versions[i := e.version], deleted[i := e.deleted], updatedAt[i := e.updatedAt];
      }
      var userIds := seq(n, _ => 0);
      for i := 0 to n
        invariant |userIds| == n && forall j | 0 <= j < i :: userIds[j] == user
      {
        userIds := userIds[i := user];
      }
      c := Columns(uuids, userIds, types, deks, payloads, metas, versions, deleted, updatedAt);
      ColumnsCarry(c, user, entries);
    }

    /** The INSERT ... SELECT FROM UNNEST ... ON CONFLICT statement: row by row, all or nothing. */
    method ExecUpsert(user: UserId, ghost entries: seq<Entry>, c: Columns) returns (r: Result<seq<Uuid>, DbError>)
      requires Carries(c, user, entries)
      modifies this`table
      ensures match Upsert(old(table), user, entries)
              case Done(after, applied) => table == after && r == Ok(applied)
              case HitTwice => table == old(table) && r == Err(CannotAffectTwice)
    {
      var before, applied := table, [];
      for i := 0 to |c.uuids|
        invariant Upsert(before, user, entries[..i]) == Done(table, applied)
      {
        assert entries[..i + 1][..i] == entries[..i];
        assert UnnestRow(c, i) == (user, entries[i]);
        var (uid, e) := UnnestRow(c, i);
        if e.uuid in applied {
          table := before;
          AbortIsFinal(before, user, entries, i + 1);
          return Err(CannotAffectTwice);
        }
        if (uid, e.uuid) !in table || table[(uid, e.uuid)].version < e.version {
          table := table[(uid, e.uuid) := e];
          applied := applied + [e.uuid];
        }
      }
      assert entries[..|entries|] == entries;
      return Ok(applied);
    }

    /** SELECT ... WHERE user_id = user AND updated_at > since ORDER BY updated_at ASC. */
    method GetUpdatedAfter(user: UserId, since: Time) returns (updates: seq<Entry>)
      requires TableWellKeyed(table)
      ensures IsAnswer(table, user, since, updates)
    {
      var pending := set k | k in table && k.0 == user && table[k].updatedAt > since;
      ghost var all := pending;
      updates := [];
      while pending != {}
        invariant Collected(table, user, all, pending, updates)
        decreases pending
      {
        EarliestExists(table, pending);
        var k :| k in pending && forall x | x in pending :: table[k].updatedAt <= table[x].updatedAt;
        CollectNext(table, user, all, pending, updates, k);
        updates := updates + [table[k]];
        pending := pending - {k};
      }
    }

    method GetVaultCrypto(user: UserId) returns (found: Option<Pair>)
      ensures found == V.Lookup(vault, user)
    {
      if user in vault {
        found := Some(vault[user]);
      } else {
        found := None;
      }
    }

    /**
     SELECT, then INSERT ... ON CONFLICT DO NOTHING, then SELECT again. `racing` holds the rows that
     other connections commit between the first SELECT and the INSERT. The call is one atomic put
     on the register those connections leave.
     */
    method PutVaultCrypto(user: UserId, pair: Pair, racing: V.Register) returns (reply: V.Reply)
      modifies this`vault
      ensures !SizesOk(pair) ==> reply == V.BadSizes && vault == old(vault)
      ensures reply == V.BadSizes <==> |pair.salt| != 16 || (pair.verifier.Digest? && |pair.verifier.bytes| != 32)
      ensures SizesOk(pair) ==> (vault, reply) == V.AtomicPut(racing + old(vault), user, pair)
    {
      if |pair.salt| != SALT_SIZE || VerifierSize(pair.verifier) != VERIFIER_SIZE {
        return V.BadSizes;
      }
      var existing := GetVaultCrypto(user);
      vault := racing + vault;
      if existing.Some? {
        return if existing.value == pair then V.Stored else V.Conflict;
      }
      var inserted := InsertVault(user, pair);
      if inserted {
        return V.Stored;
      }
      existing := GetVaultCrypto(user);
      return if existing.value == pair then V.Stored else V.Conflict;
    }

    /** INSERT ... ON CONFLICT (user_id) DO NOTHING; tells whether a row came back. */
    method InsertVault(user: UserId, pair: Pair) returns (inserted: bool)
      modifies this`vault
      ensures inserted <==> user !in old(vault)
      ensures vault == if user in old(vault) then old(vault) else old(vault)[user := pair]
    {
      inserted := user !in vault;
      if inserted {
        vault := vault[user := pair];
      }
    }
  }

  lemma {:induction false} AbortIsFinal(table: Table, user: UserId, entries: seq<Entry>, n: nat)
    requires n <= |entries| && Upsert(table, user, entries[..n]).HitTwice?
    ensures Upsert(table, user, entries).HitTwice?
    decreases |entries| - n
  {
    if n < |entries| {
      assert entries[..n + 1][..n] == entries[..n];
      AbortIsFinal(table, user, entries, n + 1);
    } else {
      assert entries[..n] == entries;
    }
  }

  lemma {:induction false} EarliestExists(table: Table, keys: set<(UserId, Uuid)>)
    requires keys != {} && keys <= table.Keys
    ensures exists k :: k in keys && forall x | x in keys :: table[k].updatedAt <= table[x].updatedAt
  {
    var k :| k in keys;
    var rest := keys - {k};
    if rest != {} {
      EarliestExists(table, rest);
      var m :| m in rest && forall x | x in rest :: table[m].updatedAt <= table[x].updatedAt;
      var first := if table[k].updatedAt <= table[m].updatedAt then k else m;
      assert first in keys && forall x | x in keys :: table[first].updatedAt <= table[x].updatedAt;
    } else {
      assert keys == {k};
    }
  }

  /** There is always an answer. */
  lemma AnswerExists(table: Table, user: UserId, cursor: Time) returns (updates: seq<Entry>)
    requires TableWellKeyed(table)
    ensures IsAnswer(table, user, cursor, updates)
  {
    updates := ListOldestFirst(table, user, set k | k in table && k.0 == user && table[k].updatedAt > cursor);
  }

  lemma {:induction false} ListOldestFirst(table: Table, user: UserId, keys: set<(UserId, Uuid)>)
    returns (list: seq<Entry>)
    requires TableWellKeyed(table) && keys <= table.Keys && forall k | k in keys :: k.0 == user
    ensures DistinctIds(list)
    ensures forall i, j | 0 <= i < j < |list| :: list[i].updatedAt <= list[j].updatedAt
    ensures forall e | e in list :: (user, e.uuid) in keys && table[(user, e.uuid)] == e
    ensures forall k | k in keys :: table[k] in list
  {
    if keys == {} {
      list := [];
    } else {
      EarliestExists(table, keys);
      var k :| k in keys && forall x | x in keys :: table[k].updatedAt <= table[x].updatedAt;
      var rest := ListOldestFirst(table, user, keys - {k});
      assert forall e | e in rest :: e.uuid != k.1 && table[k].updatedAt <= e.updatedAt;
      list := [table[k]] + rest;
    }
  }

  /** `updates` lists, oldest first and each once, the rows of `all` that are no longer pending. */
  ghost predicate Collected(table: Table, user: UserId, all: set<(UserId, Uuid)>, pending: set<(UserId, Uuid)>,
                            updates: seq<Entry>)
  {
    && pending <= all <= table.Keys && (forall k | k in all :: k.0 == user)
    && (forall e | e in updates :: (user, e.uuid) in all - pending && table[(user, e.uuid)] == e)
    && (forall k | k in all - pending :: table[k] in updates)
    && (forall e, k | e in updates && k in pending :: e.updatedAt <= table[k].updatedAt)
    && (forall i, j | 0 <= i < j < |updates| :: updates[i].updatedAt <= updates[j].updatedAt)
    && DistinctIds(updates)
  }

  lemma CollectNext(table: Table, user: UserId, all: set<(UserId, Uuid)>, pending: set<(UserId, Uuid)>,
                    updates: seq<Entry>, k: (UserId, Uuid))
    requires TableWellKeyed(table) && Collected(table, user, all, pending, updates)
    requires k in pending && forall x | x in pending :: table[k].updatedAt <= table[x].updatedAt
    ensures Collected(table, user, all, pending - {k}, updates + [table[k]])
  {
    var updates', pending' := updates + [table[k]], pending - {k};
    assert k == (user, table[k].uuid);
    forall i, j | 0 <= i < j < |updates'|
      ensures updates'[i].uuid != updates'[j].uuid && updates'[i].updatedAt <= updates'[j].updatedAt
    {
      assert updates'[i] in updates;
    }
    forall x | x in all - pending'
      ensures table[x] in updates'
    {
      assert x == k || x in all - pending;
    }
  }

  lemma ColumnsCarry(c: Columns, user: UserId, entries: seq<Entry>)
    requires Rectangular(c) && |c.uuids| == |entries|
    requires forall j | 0 <= j < |entries| :: c.userIds[j] == user
    requires forall j | 0 <= j < |entries| :: c.uuids[j] == entries[j].uuid
    requires forall j | 0 <= j < |entries| :: c.types[j] == entries[j].typ
    requires forall j | 0 <= j < |entries| :: c.deks[j] == entries[j].dek
    requires forall j | 0 <= j < |entries| :: c.payloads[j] == entries[j].payload
    requires forall j | 0 <= j < |entries| :: c.metas[j] == entries[j].meta
    requires forall j | 0 <= j < |entries| :: c.versions[j] == entries[j].version
    requires forall j | 0 <= j < |entries| :: c.deleted[j] == entries[j].deleted
    requires forall j | 0 <= j < |entries| :: c.updatedAt[j] == entries[j].updatedAt
    ensures Carries(c, user, entries)
  {
  }
}
