/**
 The client's vault use case as an object over the local and the remote store
 (internal/client/usecase/secret.go), proved to carry out the commands of VaultCommands.
 */
module Secrets {
  import opened Basics
  import opened Crypto
  import opened Entries
  import opened SealedEntries
  import opened SyncProtocol
  import opened VaultCommands
  import opened VaultLaws
  import A = AuthSession
  import L = LocalStore
  import S = ServerStore
  import V = VaultRegister

  const DEFAULT_MAX_FILE_BYTES: nat := 10 * 1024 * 1024

  /** Nobody is logged in: there is no session, or it names no user. */
  ghost predicate LoggedOut(session: Option<A.Session>) {
    session.None? || session.value.user.None?
  }

  /** One row is written, for the user whom the session names. */
  ghost predicate SavesFor(session: Option<A.Session>, before: Rows, after: Rows, id: Uuid, version: int, now: Time) {
    && session.Some? && session.value.user.Some?
    && WritesOnly(before, after, id, session.value.user.value, version, now)
  }

  /** A live row of the session's user is changed as asked, and no other row. */
  ghost predicate ChangesFor(session: Option<A.Session>, before: Rows, after: Rows, id: Uuid, edit: Edit, now: Time) {
    session.Some? && session.value.user.Some? && ChangesRow(before, after, session.value.user.value, id, edit, now)
  }

  /** The reply is a live row of the session's user, opened under the password's key. */
  ghost predicate ShowsFor(session: Option<A.Session>, v: Vault, id: Uuid, password: string,
                           r: Result<Reply, VaultError>)
  {
    && session.Some? && session.value.user.Some? && id in v.rows
    && v.rows[id].user == session.value.user.value && !v.rows[id].entry.deleted
    && (exists key :: IsKeyOf(key, v, session.value.user.value, password) && Opens(v.rows[id].entry, key))
    && ReadsEntry(r, v.rows[id].entry)
  }

  /** An insertion for the session's user, as its caller sees it. */
  lemma InsertionSaves(v: Vault, session: A.Session, c: Command, env: Env)
    requires c.Add? && session.user.Some?
    ensures var o := Execute(v, session.user, c, env);
            && (o.vault.rows == v.rows || SavesFor(Some(session), v.rows, o.vault.rows, c.id, 1, env.now))
            && (o.reply.Ok? ==> SavesFor(Some(session), v.rows, o.vault.rows, c.id, 1, env.now))
  {
    AddWrites(v, session.user.value, c, env);
  }

  /** A change for the session's user, as its caller sees it. */
  lemma ChangeApplies(v: Vault, session: A.Session, c: Command, env: Env)
    requires WellKeyed(v.rows) && c.Change? && session.user.Some?
    ensures var o := Execute(v, session.user, c, env);
            && (o.reply.Err? ==> o.vault.rows == v.rows)
            && (o.reply.Ok? ==> ChangesFor(Some(session), v.rows, o.vault.rows, c.id, c.edit, env.now))
  {
    ChangeIsExact(v, session.user, c, env);
  }

  /** A live row of the user. */
  ghost predicate IsListed(rows: Rows, u: UserId, row: Row) {
    exists id :: id in rows && rows[id] == row && row.user == u && !row.entry.deleted
  }

  /** Cryptography on one entry in memory. */
  class EntrySeal {
    var e: Entry

    constructor (e: Entry)
      ensures this.e == e
    {
      this.e := e;
    }

    method Seal(plaintext: seq<Byte>, meta: Metadata, master: Key, draws: Draws, now: Time)
      modifies this
      ensures e == SealWithNewDek(old(e), plaintext, meta, master, draws, now)
      ensures Follows(e, old(e), now) && e.deleted == old(e).deleted
      ensures Open(e, master) == Ok(Plain(Secret(plaintext), meta))
    {
      var dek := RandomKey(draws.dek);
      var payload := Encrypt(Secret(plaintext), dek, draws.payloadNonce);
      var encMeta := Encrypt(MetaJson(meta), dek, draws.metaNonce);
      var encDek := Encrypt(KeyBytes(dek), master, draws.dekNonce);
      e := e.(payload := payload);
      e := e.(meta := encMeta);
      e := e.(dek := encDek);
      e := e.(version := e.version + 1);
      e := e.(updatedAt := now);
    }

    method SealMetaOnly(meta: Metadata, dek: Key, nonce: nat, now: Time)
      modifies this
      ensures e == EncryptMetaOnly(old(e), meta, dek, nonce, now)
      ensures Follows(e, old(e), now) && e.deleted == old(e).deleted
      ensures e.dek == old(e).dek && e.payload == old(e).payload && OpenMetadata(e.meta, dek) == Ok(meta)
    {
      e := e.(meta := Encrypt(MetaJson(meta), dek, nonce));
      e := e.(version := e.version + 1);
      e := e.(updatedAt := now);
    }

    /** Both ciphertexts must open; their contents are not looked at. */
    method VerifyPayloadAndMeta(dek: Key) returns (r: Result<(), VaultError>)
      ensures r.Ok? <==> Decrypt(e.payload, dek).Ok? && Decrypt(e.meta, dek).Ok?
      ensures Decrypt(e.payload, dek).Err? ==> r == Err(Broken(Decrypt(e.payload, dek).error))
      ensures Decrypt(e.payload, dek).Ok? && Decrypt(e.meta, dek).Err? ==> r == Err(Broken(Decrypt(e.meta, dek).error))
    {
      match Decrypt(e.payload, dek)
      case Err(c) => return Err(Broken(c));
      case Ok(_) =>
        match Decrypt(e.meta, dek)
        case Err(c) => return Err(Broken(c));
        case Ok(_) => return Ok(());
    }

    /** UpdateFile on the entry itself. */
    method UpdateFile(meta: Metadata, replacement: Option<NewFile>, maxFileBytes: nat, master: Key,
                      draws: Draws, now: Time)
      returns (r: Result<(), VaultError>)
      modifies this
      ensures match ReplaceFile(old(e), meta, replacement, maxFileBytes, master, draws, now)
              case Err(error) => r == Err(error) && e == old(e)
              case Ok(changed) => r == Ok(()) && e == changed
    {
      var dek := UnwrapKey(e.dek, master);
      if dek.Err? {
        return Err(Broken(dek.error));
      }
      if e.typ != TYPE_FILE {
        return Err(WrongType);
      }
      var stored := OpenMetadata(e.meta, dek.value);
      if stored.Err? {
        return Err(Broken(stored.error));
      }
      var merged := stored.value;
      merged := merged.(name := meta.name);
      merged := merged.(notes := meta.notes);
      if meta.tags.Some? {
        merged := merged.(tags := meta.tags);
      }
      if replacement.None? {
        var payload := Decrypt(e.payload, dek.value);
        if payload.Err? {
          return Err(Broken(payload.error));
        }
        SealMetaOnly(merged, dek.value, draws.metaNonce, now);
      } else {
        var file := replacement.value;
        if |file.data| > maxFileBytes {
          return Err(TooLarge);
        }
        merged := merged.(filename := file.filename);
        Seal(file.data, merged, master, draws, now);
      }
      return Ok(());
    }
  }

  class UseCase {
    const local: L.Repository
    const remote: S.Repository?
    const maxFileBytes: nat

    /** A limit that is not positive stands for the default. */
    constructor (local: L.Repository, remote: S.Repository?, maxFileBytes: int)
      ensures this.local == local && this.remote == remote
      ensures this.maxFileBytes == if maxFileBytes <= 0 then 10_485_760 else maxFileBytes
    {
      this.local, this.remote := local, remote;
      this.maxFileBytes := if maxFileBytes <= 0 then DEFAULT_MAX_FILE_BYTES else maxFileBytes;
    }

    /** The stores as the commands' specification sees them. */
    ghost function View(): Vault
      reads local, remote
    {
      Vault(local.rows, local.crypto, if remote == null then None else Some(remote.vault))
    }

    function ActiveUser(): Option<UserId>
      reads local
    {
      if local.session.Some? then local.session.value.user else None
    }

    /** The remote's pair, if any, replaces the local one; then the local one is loaded or created. */
    method MaterializeVaultCrypto(u: UserId, env: Env) returns (r: Result<LocalCrypto, VaultError>)
      modifies local`crypto
      ensures r == FetchCrypto(old(View()), u, env)
      ensures local.crypto == if r.Ok? then old(local.crypto)[u := r.value] else old(local.crypto)
    {
      if remote != null {
        if !env.fetchOk {
          return Err(FetchFailed);
        }
        var found := remote.GetVaultCrypto(u);
        if found.Some? {
          local.ReplaceLocalVaultCrypto(u, found.value);
        }
      }
      var c := local.EnsureLocalVaultCrypto(u, env.newSalt);
      return Ok(c);
    }

    method PublishVaultCrypto(u: UserId, pair: Pair, env: Env) returns (r: Result<Reply, VaultError>)
      modifies remote
      ensures remote != null ==> remote.table == old(remote.table)
      ensures Outcome(View(), r) == Publish(old(View()), u, pair, env.publish, env.racing)
    {
      if remote == null {
        return Ok(Done);
      }
      if env.publish.Unserved? {
        return Err(PublishFailed);
      }
      var reply := remote.PutVaultCrypto(u, pair, Racing(u, env.racing));
      return if reply == V.Stored && env.publish.Served? then Ok(Done) else Err(PublishFailed);
    }

    /** The fetched salt and verifier, and the master key if the password passes their check. */
    method CheckedVault(u: UserId, password: string, env: Env) returns (r: Result<(LocalCrypto, Key), VaultError>)
      modifies local`crypto
      ensures match FetchCrypto(old(View()), u, env)
              case Err(e) => r == Err(e) && View() == old(View())
              case Ok(c) =>
                && View() == old(View()).(crypto := old(local.crypto)[u := c])
                && match CheckKey(c, password)
                   case Err(e) => r == Err(e)
                   case Ok(key) => r == Ok((c, key))
    {
      var c := MaterializeVaultCrypto(u, env);
      if c.Err? {
        return Err(c.error);
      }
      var key := CheckKey(c.value, password);
      if key.Err? {
        return Err(key.error);
      }
      return Ok((c.value, key.value));
    }

    /** SetPassword, SetText, SetFile and SetCard, once the type and the plaintext bytes are fixed. */
    method InsertEncryptedEntry(id: Uuid, typ: string, meta: Metadata, plaintext: seq<Byte>, password: string, env: Env)
      returns (r: Result<Reply, VaultError>)
      modifies local, remote
      ensures remote != null ==> remote.table == old(remote.table)
      ensures local.session == old(local.session)
      ensures Outcome(View(), r) == Execute(old(View()), ActiveUser(), Add(id, typ, meta, plaintext, password), env)
      ensures LoggedOut(local.session) ==> r == Err(NotLoggedIn) && View() == old(View())
      ensures local.rows == old(local.rows) || SavesFor(local.session, old(local.rows), local.rows, id, 1, env.now)
      ensures r.Ok? ==> SavesFor(local.session, old(local.rows), local.rows, id, 1, env.now)
    {
      var user := ActiveUser();
      if user.None? {
        return Err(NotLoggedIn);
      }
      InsertionSaves(View(), local.session.value, Add(id, typ, meta, plaintext, password), env);
      var u := user.value;
      var checked := CheckedVault(u, password, env);
      if checked.Err? {
        return Err(checked.error);
      }
      var (c, key) := checked.value;
      AddPublishes(old(View()), u, Add(id, typ, meta, plaintext, password), c, env);
      r := SaveNewEntry(u, id, typ, meta, plaintext, c, key, env);
    }

    /** The part of an insertion that follows the password check. */
    method SaveNewEntry(u: UserId, id: Uuid, typ: string, meta: Metadata, plaintext: seq<Byte>,
                        c: LocalCrypto, key: Key, env: Env)
      returns (r: Result<Reply, VaultError>)
      requires u in local.crypto && local.crypto[u] == c
      modifies local`rows, local`crypto, remote
      ensures remote != null ==> remote.table == old(remote.table)
      ensures var sealed := if c.verifier.None? then c.(verifier := Some(MasterKeyVerifier(key))) else c;
              var e := NewEntry(id, typ, meta, plaintext, key, env.draws, env.now);
              var rows, crypto := old(local.rows)[id := Row(e, true, u)], old(local.crypto)[u := sealed];
              Outcome(View(), r)
              == Publish(Vault(rows, crypto, old(View()).register), u, Pair(c.salt, MasterKeyVerifier(key)),
                         env.publish, env.racing)
    {
      var seal := new EntrySeal(Blank(id, typ));
      seal.Seal(plaintext, meta, key, env.draws, env.now);
      var _ := local.SaveEntry(seal.e, Some(u), true);
      r := FinalizeVaultVerifier(u, c, key, env);
    }

    /** Stores the verifier when there was none, then publishes. */
    method FinalizeVaultVerifier(u: UserId, c: LocalCrypto, key: Key, env: Env) returns (r: Result<Reply, VaultError>)
      requires u in local.crypto && local.crypto[u] == c
      modifies local`crypto, remote
      ensures remote != null ==> remote.table == old(remote.table)
      ensures var sealed := if c.verifier.None? then c.(verifier := Some(MasterKeyVerifier(key))) else c;
              var v := Vault(old(local.rows), old(local.crypto)[u := sealed], old(View()).register);
              Outcome(View(), r) == Publish(v, u, Pair(c.salt, MasterKeyVerifier(key)), env.publish, env.racing)
    {
      var verifier := MasterKeyVerifier(key);
      if c.verifier.None? {
        local.SetLocalMasterVerifier(u, verifier);
      } else {
        RewriteIsIdle(local.crypto, u);
      }
      r := PublishVaultCrypto(u, Pair(c.salt, verifier), env);
    }

    method SetFile(id: Uuid, meta: Metadata, file: NewFile, password: string, env: Env)
      returns (r: Result<Reply, VaultError>)
      modifies local, remote
      ensures remote != null ==> remote.table == old(remote.table)
      ensures local.session == old(local.session)
      ensures |file.data| > maxFileBytes ==> r == Err(TooLarge) && View() == old(View())
      ensures |file.data| <= maxFileBytes ==>
                Outcome(View(), r)
                == Execute(old(View()), ActiveUser(),
                           Add(id, "FILE", Metadata(meta.name, meta.notes, file.filename, meta.tags), file.data,
                               password), env)
    {
      if |file.data| > maxFileBytes {
        return Err(TooLarge);
      }
      r := InsertEncryptedEntry(id, TYPE_FILE, meta.(filename := file.filename), file.data, password, env);
    }

    /** Loads a non-deleted entry, checks the password, and leaves unwrapping to the caller. */
    method CheckedEntry(id: Uuid, password: string, env: Env) returns (r: Result<(Row, Key), VaultError>)
      modifies local`crypto
      ensures var v, user := old(View()), ActiveUser();
              match user
              case None => r == Err(NotLoggedIn) && View() == v
              case Some(u) =>
                if !Holds(v.rows, u, id) then r == Err(EntryNotFound) && View() == v
                else if v.rows[id].entry.deleted then r == Err(EntryDeleted) && View() == v
                else match FetchCrypto(v, u, env)
                     case Err(e) => r == Err(e) && View() == v
                     case Ok(c) =>
                       && View() == v.(crypto := v.crypto[u := c])
                       && match CheckKey(c, password)
                          case Err(e) => r == Err(e)
                          case Ok(key) => r == Ok((v.rows[id], key))
    {
      var user := ActiveUser();
      if user.None? {
        return Err(NotLoggedIn);
      }
      var found := local.GetEntry(id, user);
      if found.None? {
        return Err(EntryNotFound);
      }
      if found.value.entry.deleted {
        return Err(EntryDeleted);
      }
      var vault := CheckedVault(user.value, password, env);
      if vault.Err? {
        return Err(vault.error);
      }
      return Ok((found.value, vault.value.1));
    }

    method UpdateEntryReplaceContent(id: Uuid, wantType: string, meta: Metadata, plaintext: seq<Byte>,
                                     password: string, env: Env)
      returns (r: Result<Reply, VaultError>)
      requires WellKeyed(local.rows)
      modifies local`rows, local`crypto
      ensures Outcome(View(), r)
          == Execute(old(View()), ActiveUser(), Command.Change(id, Content(wantType, meta, plaintext), password), env)
      ensures LoggedOut(local.session) ==> r == Err(NotLoggedIn) && View() == old(View())
      ensures r.Err? ==> local.rows == old(local.rows)
      ensures r.Ok? ==> ChangesFor(local.session, old(local.rows), local.rows, id, Content(wantType, meta, plaintext),
                                   env.now)
    {
      ghost var v := View();
      var checked := CheckedEntry(id, password, env);
      if checked.Err? {
        return Err(checked.error);
      }
      ChangeApplies(v, local.session.value, Command.Change(id, Content(wantType, meta, plaintext), password), env);
      var (row, master) := checked.value;
      var dek := UnwrapKey(row.entry.dek, master);
      if dek.Err? {
        return Err(Broken(dek.error));
      }
      if row.entry.typ != wantType {
        return Err(WrongType);
      }
      var seal := new EntrySeal(row.entry);
      var verified := seal.VerifyPayloadAndMeta(dek.value);
      if verified.Err? {
        return Err(verified.error);
      }
      seal.Seal(plaintext, meta, master, env.draws, env.now);
      var _ := local.SaveEntry(seal.e, ActiveUser(), true);
      return Ok(Done);
    }

    /** Changes metadata and, with a replacement, the file itself. */
    method UpdateFile(id: Uuid, meta: Metadata, replacement: Option<NewFile>, password: string, env: Env)
      returns (r: Result<Reply, VaultError>)
      requires WellKeyed(local.rows)
      modifies local`rows, local`crypto
      ensures Outcome(View(), r)
          == Execute(old(View()), ActiveUser(),
                     Command.Change(id, File(meta, replacement, maxFileBytes), password), env)
      ensures LoggedOut(local.session) ==> r == Err(NotLoggedIn) && View() == old(View())
      ensures r.Err? ==> local.rows == old(local.rows)
      ensures r.Ok? ==> ChangesFor(local.session, old(local.rows), local.rows, id,
                                   File(meta, replacement, maxFileBytes), env.now)
    {
      ghost var v := View();
      var checked := CheckedEntry(id, password, env);
      if checked.Err? {
        return Err(checked.error);
      }
      ChangeApplies(v, local.session.value, Command.Change(id, File(meta, replacement, maxFileBytes), password), env);
      var seal := new EntrySeal(checked.value.0.entry);
      var changed := seal.UpdateFile(meta, replacement, maxFileBytes, checked.value.1, env.draws, env.now);
      if changed.Err? {
        return Err(changed.error);
      }
      var _ := local.SaveEntry(seal.e, ActiveUser(), true);
      return Ok(Done);
    }

    /** Soft delete; the password is checked but the entry is not opened. */
    method DeleteEntry(id: Uuid, password: string, env: Env) returns (r: Result<Reply, VaultError>)
      requires WellKeyed(local.rows)
      modifies local`rows, local`crypto
      ensures Outcome(View(), r) == Execute(old(View()), ActiveUser(), Command.Change(id, Delete, password), env)
      ensures LoggedOut(local.session) ==> r == Err(NotLoggedIn) && View() == old(View())
      ensures r.Err? ==> local.rows == old(local.rows)
      ensures r.Ok? ==> ChangesFor(local.session, old(local.rows), local.rows, id, Delete, env.now)
    {
      ghost var v := View();
      var checked := CheckedEntry(id, password, env);
      if checked.Err? {
        return Err(checked.error);
      }
      ChangeApplies(v, local.session.value, Command.Change(id, Delete, password), env);
      var e := checked.value.0.entry;
      e := e.(deleted := true);
      e := e.(version := e.version + 1);
      e := e.(updatedAt := env.now);
      var _ := local.SaveEntry(e, ActiveUser(), true);
      return Ok(Done);
    }

    method GetDecryptedEntry(id: Uuid, password: string, env: Env) returns (r: Result<Reply, VaultError>)
      modifies local`crypto
      ensures Outcome(View(), r) == Execute(old(View()), ActiveUser(), Get(id, password), env)
      ensures LoggedOut(local.session) ==> r == Err(NotLoggedIn) && View() == old(View())
      ensures r.Ok? ==> ShowsFor(local.session, View(), id, password, r)
    {
      ReadShows(View(), ActiveUser(), id, password, env);
      var checked := CheckedEntry(id, password, env);
      if checked.Err? {
        return Err(checked.error);
      }
      var (row, master) := checked.value;
      var dek := UnwrapKey(row.entry.dek, master);
      if dek.Err? {
        return Err(Broken(dek.error));
      }
      var payload := Decrypt(row.entry.payload, dek.value);
      if payload.Err? {
        return Err(Broken(payload.error));
      }
      var meta := OpenMetadata(row.entry.meta, dek.value);
      if meta.Err? {
        return Err(Broken(meta.error));
      }
      return Ok(Found(Present(Plain(payload.value, meta.value), row.entry.typ)));
    }

    /** The rows of the session's user that are not deleted, each once, latest first. */
    method ListLocal() returns (r: Result<seq<Row>, VaultError>)
      requires WellKeyed(local.rows)
      ensures LoggedOut(local.session) ==> r == Err(NotLoggedIn)
      ensures !LoggedOut(local.session) ==>
                r.Ok? && forall row :: row in r.value <==> IsListed(local.rows, local.session.value.user.value, row)
      ensures r.Ok? ==> forall i, j | 0 <= i < j < |r.value| ::
                r.value[i].entry.updatedAt >= r.value[j].entry.updatedAt && r.value[i] != r.value[j]
      ensures match ActiveUser()
              case None => r == Err(NotLoggedIn)
              case Some(u) =>
                r.Ok? && forall id ::
                  id in ListedIds(local.rows, u) <==> exists row :: row in r.value && row.entry.uuid == id
    {
      var user := ActiveUser();
      if user.None? {
        return Err(NotLoggedIn);
      }
      var list := local.ListEntries(user);
      forall id
        ensures id in ListedIds(local.rows, user.value) <==> exists row :: row in list && row.entry.uuid == id
      {
        if id in ListedIds(local.rows, user.value) {
          assert local.rows[id] in list;
        }
      }
      return Ok(list);
    }
  }
}
