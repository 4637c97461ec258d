/**
 One device's use cases in the order a user meets them: sign in, save an entry, synchronize
 (internal/client/usecase/auth.go, secret.go, sync.go). They share the device's store, and what links
 them is the account: the one that signed in owns the entry, and its sync sends it.
 */
module EndToEnd {
  import opened Basics
  import opened Crypto
  import opened Entries
  import opened LocalRows
  import opened ServerTable
  import opened SealedEntries
  import A = AuthSession
  import H = AuthService
  import C = Secrets
  import T = RefreshTokens
  import V = VaultCommands
  import W = VaultLaws
  import Y = SyncService

  /**
   A sync of the account sends the entry. If the request is served the server ends with it under the
   account, or with a later version that another push brought in between.
   */
  ghost predicate Sent(before: Table, between: seq<Batch>, rows: Rows, user: UserId, e: Entry,
                       fate: Y.Fate, commits: bool, ok: bool, after: Table, rows': Rows)
  {
    && (exists cursor, batch, updates ::
          && e in batch
          && Y.SyncOutcomeOf(before, between, rows, user, cursor, batch, updates, fate, commits, ok, after, rows'))
    && (!fate.RequestLost? ==> (user, e.uuid) in after && AtLeast(after[(user, e.uuid)], e))
    && (!fate.RequestLost? && between == [] ==> after[(user, e.uuid)] == e)
  }

  lemma {:induction false} BatchesGrow(table: Table, batches: seq<Batch>)
    ensures Grows(table, RunBatches(table, batches))
  {
    if batches == [] {
    } else {
      var init, b := batches[..|batches| - 1], batches[|batches| - 1];
      BatchesGrow(table, init);
      UpsertGrows(RunBatches(table, init), b.user, b.entries);
      GrowsTransitive(table, RunBatches(table, init), RunBatches(table, batches));
    }
  }

  /** Every sync of an account sends each of its dirty rows. */
  lemma DirtyRowIsSent(before: Table, between: seq<Batch>, rows: Rows, user: UserId, id: Uuid, cursor: Time,
                       fate: Y.Fate, commits: bool, ok: bool, after: Table, rows': Rows)
    requires WellKeyed(rows) && id in rows && rows[id].user == user && rows[id].dirty && (user, id) !in before
    requires Y.SyncOutcome(before, between, rows, user, cursor, fate, commits, ok, after, rows')
    ensures Sent(before, between, rows, user, rows[id].entry, fate, commits, ok, after, rows')
  {
    var batch, updates :|
      Y.SyncOutcomeOf(before, between, rows, user, cursor, batch, updates, fate, commits, ok, after, rows');
    assert rows[id].entry in batch;
    if !fate.RequestLost? {
      UpsertExact(before, user, batch);
      var merged := Upsert(before, user, batch).table;
      assert merged[(user, id)] == rows[id].entry;
      BatchesGrow(merged, between);
    }
  }

  /** The device holds a new entry of the account, to be pushed, which opens to what was saved under the password. */
  ghost predicate HoldsNew(v: V.Vault, u: UserId, c: V.Command, now: Time)
    requires c.Add?
  {
    && c.id in v.rows && v.rows[c.id].user == u && v.rows[c.id].dirty
    && v.rows[c.id].entry.uuid == c.id && v.rows[c.id].entry.typ == c.typ && v.rows[c.id].entry.version == 1
    && v.rows[c.id].entry.updatedAt == now && !v.rows[c.id].entry.deleted
    && u in v.crypto
    && Open(v.rows[c.id].entry, MasterKey(c.password, v.crypto[u].salt)) == Ok(Plain(Secret(c.plaintext), c.meta))
  }

  /** The stored session is the user's, with the user's own access token. */
  ghost predicate SignedInAs(session: Option<A.Session>, u: UserId) {
    session.Some? && session.value.user == Some(u) && session.value.access.claim == Some(u)
  }

  /** Saves a new entry for whoever is signed in. */
  method Save(vault: C.UseCase, ghost u: UserId, c: V.Command, env: V.Env) returns (ok: bool)
    requires c.Add? && SignedInAs(vault.local.session, u) && WellKeyed(vault.local.rows)
    modifies vault.local, vault.remote
    ensures vault.remote != null ==> vault.remote.table == old(vault.remote.table)
    ensures vault.local.session == old(vault.local.session) && WellKeyed(vault.local.rows)
    ensures ok ==> HoldsNew(vault.View(), u, c, env.now)
  {
    ghost var before := vault.View();
    var saved := vault.InsertEncryptedEntry(c.id, c.typ, c.meta, c.plaintext, c.password, env);
    ok := saved.Ok?;
    if ok {
      W.InsertedOpens(before, u, c, env, MasterKey(c.password, vault.local.crypto[u].salt));
    }
  }

  /** Signs in; the session is then that of the user whose password matched. */
  method SignIn(auth: H.AuthUseCase, account: Option<UserId>, m: Option<T.Minted>, login: A.Fate) returns (ok: bool)
    modifies auth.local`session, auth.remote
    ensures ok ==> account.Some? && SignedInAs(auth.local.session, account.value)
  {
    var r := auth.Login(account, m, login);
    ok := r.Ok?;
  }

  /** How far the user got, and the entry as it was saved. */
  datatype Story = SignInFailed | SaveFailed | Saved(entry: Entry, synced: bool)

  /**
   Signs in, saves a new entry and synchronizes, going on only after a success. `account` is the user
   whose password matched. If the sign-in and the insertion succeed, the entry is that account's: the
   sync sends it for the account, and if the request is served the server ends with it under the
   account, or with a later version that another device pushed in between.
   */
  method SignInSaveSync(auth: H.AuthUseCase, vault: C.UseCase, sync: Y.SyncUseCase,
                        account: Option<UserId>, m: Option<T.Minted>, login: A.Fate,
                        c: V.Command, env: V.Env, fate: Y.Fate, between: seq<Batch>, commits: bool)
    returns (story: Story)
    requires auth.local == vault.local == sync.local && c.Add?
    requires WellKeyed(sync.local.rows) && TableWellKeyed(sync.remote.server.repo.table)
    requires account.Some? ==> (account.value, c.id) !in sync.remote.server.repo.table
    modifies auth.local, auth.remote, vault.remote, sync.remote.server.repo
    ensures story.Saved? ==>
              account.Some? && exists v: V.Vault ::
                && HoldsNew(v, account.value, c, env.now) && story.entry == v.rows[c.id].entry
                && Sent(old(sync.remote.server.repo.table), between, v.rows, account.value, story.entry, fate, commits,
                        story.synced, sync.remote.server.repo.table, sync.local.rows)
  {
    var signedIn := SignIn(auth, account, m, login);
    if !signedIn {
      return SignInFailed;
    }
    var saved := Save(vault, account.value, c, env);
    if !saved {
      return SaveFailed;
    }
    ghost var v, u, table := vault.View(), account.value, sync.remote.server.repo.table;
    var entry := sync.local.rows[c.id].entry;
    var synced, cursor := sync.Sync(fate, between, commits);
    DirtyRowIsSent(table, between, v.rows, u, c.id, cursor, fate, commits, synced.Ok?, sync.remote.server.repo.table,
                   sync.local.rows);
    return Saved(entry, synced.Ok?);
  }
}
