/**
 What a user observes of the vault, in terms of commands and their replies alone, and what a command
 writes: whose row, at which version, under which stamp.
 */
module VaultLaws {
  import opened Basics
  import opened Crypto
  import opened Entries
  import opened SealedEntries
  import opened VaultCommands
  import P = SyncProtocol

  // ----- What is written -----

  /** Only this row is written: it is the account's, to be pushed, at this version and stamped with this time. */
  ghost predicate WritesOnly(before: Rows, after: Rows, id: Uuid, u: UserId, version: int, now: Time) {
    && after.Keys == before.Keys + {id}
    && (forall x | x in before && x != id :: after[x] == before[x])
    && after[id].dirty && after[id].user == u
    && after[id].entry.uuid == id && after[id].entry.version == version && after[id].entry.updatedAt == now
  }

  /** The command writes one row of the account in session: a new one at version 1, or its own one version up. */
  ghost predicate WritesFor(v: Vault, session: Option<UserId>, c: Command, now: Time, after: Rows) {
    && session.Some? && (c.Add? || c.Change?)
    && (c.Change? ==> c.id in v.rows && v.rows[c.id].user == session.value)
    && WritesOnly(v.rows, after, c.id, session.value, if c.Add? then 1 else v.rows[c.id].entry.version + 1, now)
  }

  /** Every command writes nothing or just that, and a successful insertion or change does write. */
  lemma CommandWrites(v: Vault, session: Option<UserId>, c: Command, env: Env)
    requires WellKeyed(v.rows)
    ensures var o := Execute(v, session, c, env);
            && (o.vault.rows == v.rows || WritesFor(v, session, c, env.now, o.vault.rows))
            && (o.reply.Ok? && (c.Add? || c.Change?) ==> WritesFor(v, session, c, env.now, o.vault.rows))
            && (session.None? ==> o == Outcome(v, Err(NotLoggedIn)))
  {
    if session.Some? && c.Add? {
      AddWrites(v, session.value, c, env);
    } else if session.Some? && c.Change? && P.Holds(v.rows, session.value, c.id) {
      ChangeWrites(v, session.value, c, env);
    }
  }

  lemma AddWrites(v: Vault, u: UserId, c: Command, env: Env)
    requires c.Add?
    ensures var o := Execute(v, Some(u), c, env);
            && (o.vault.rows == v.rows || WritesFor(v, Some(u), c, env.now, o.vault.rows))
            && (o.reply.Ok? ==> WritesFor(v, Some(u), c, env.now, o.vault.rows))
  {
    if FetchCrypto(v, u, env).Ok? && CheckKey(FetchCrypto(v, u, env).value, c.password).Ok? {
      var crypto := FetchCrypto(v, u, env).value;
      AddPublishes(v, u, c, crypto, env);
      assert WritesFor(v, Some(u), c, env.now, SavedVault(v, u, c, crypto, env).rows);
    }
  }

  lemma ChangeWrites(v: Vault, u: UserId, c: Command, env: Env)
    requires WellKeyed(v.rows) && c.Change? && P.Holds(v.rows, u, c.id)
    ensures var o := Execute(v, Some(u), c, env);
            && (o.vault.rows == v.rows || WritesFor(v, Some(u), c, env.now, o.vault.rows))
            && (o.reply.Ok? ==> WritesFor(v, Some(u), c, env.now, o.vault.rows))
  {
    if FetchCrypto(v, u, env).Ok? && CheckKey(FetchCrypto(v, u, env).value, c.password).Ok? {
      var key := CheckKey(FetchCrypto(v, u, env).value, c.password).value;
      EditWrites(v.rows[c.id].entry, c.edit, key, env.draws, env.now);
    }
  }

  /** Every change that succeeds saves the next version, stamped with the time of the change. */
  lemma EditWrites(e: Entry, edit: Edit, key: Key, draws: Draws, now: Time)
    ensures var r := Edited(e, edit, key, draws, now);
            r.Ok? ==> Follows(r.value, e, now) && r.value.deleted == (edit.Delete? || e.deleted)
  {
  }

  // ----- What the rows hold -----

  function GetReply(v: Vault, u: UserId, id: Uuid, password: string, env: Env): Result<Reply, VaultError> {
    Execute(v, Some(u), Get(id, password), env).reply
  }

  /**
   What is read has this payload, type, name, notes and tags, and this file name; a file without one
   is called "file".
   */
  predicate ReadsAs(r: Result<Reply, VaultError>, payload: Content, typ: string, meta: Metadata) {
    && r.Ok? && r.value.Found?
    && r.value.entry.payload == payload && r.value.entry.typ == typ
    && r.value.entry.meta.name == meta.name && r.value.entry.meta.notes == meta.notes
    && r.value.entry.meta.tags == meta.tags
    && r.value.entry.meta.filename == (if typ == "FILE" && meta.filename == "" then "file" else meta.filename)
  }

  /** What a change makes of an entry's contents, under every key that opens it. */
  ghost predicate ChangesContents(before: Entry, edit: Edit, after: Entry) {
    forall key | Opens(before, key) ::
      && Opens(after, key)
      && var was, now := Open(before, key).value, Open(after, key).value;
         match edit
         case Content(_, meta, plaintext) => now == Plain(Secret(plaintext), meta)
         case File(meta, replacement, _) =>
           && now.payload == (if replacement.Some? then Secret(replacement.value.data) else was.payload)
           && FileMetadata(was.meta, meta, replacement, now.meta)
         case Delete => now == was
  }

  /** The reply is the entry's contents under every key that opens it. */
  ghost predicate ReadsEntry(r: Result<Reply, VaultError>, e: Entry) {
    forall key | Opens(e, key) :: ReadsAs(r, Open(e, key).value.payload, e.typ, Open(e, key).value.meta)
  }

  /** The key of a password under the account's salt on the device. */
  ghost predicate IsKeyOf(key: Key, v: Vault, u: UserId, password: string) {
    u in v.crypto && key == MasterKey(password, v.crypto[u].salt)
  }

  /** A successful insertion holds what was inserted, under the password's key. */
  lemma InsertedOpens(v: Vault, u: UserId, c: Command, env: Env, key: Key)
    requires c.Add? && Execute(v, Some(u), c, env).reply.Ok?
    requires IsKeyOf(key, Execute(v, Some(u), c, env).vault, u, c.password)
    ensures var rows := Execute(v, Some(u), c, env).vault.rows;
            && c.id in rows && rows[c.id].entry.typ == c.typ && !rows[c.id].entry.deleted
            && Open(rows[c.id].entry, key) == Ok(Plain(Secret(c.plaintext), c.meta))
  {
    AddPublishes(v, u, c, FetchCrypto(v, u, env).value, env);
  }

  /** A successful change finds a live entry of the account, and changes its contents as asked. */
  lemma ChangedOpens(v: Vault, u: UserId, c: Command, env: Env)
    requires c.Change? && Execute(v, Some(u), c, env).reply.Ok?
    ensures var rows := Execute(v, Some(u), c, env).vault.rows;
            && c.id in v.rows && v.rows[c.id].user == u && !v.rows[c.id].entry.deleted && c.id in rows
            && ChangesContents(v.rows[c.id].entry, c.edit, rows[c.id].entry)
            && rows[c.id].entry.typ == v.rows[c.id].entry.typ && rows[c.id].entry.deleted == c.edit.Delete?
  {
    EditContents(v.rows[c.id].entry, c.edit, CheckKey(FetchCrypto(v, u, env).value, c.password).value, env);
  }

  lemma EditContents(e: Entry, edit: Edit, key: Key, env: Env)
    requires Edited(e, edit, key, env.draws, env.now).Ok? && !e.deleted
    ensures var e' := Edited(e, edit, key, env.draws, env.now).value;
            ChangesContents(e, edit, e') && e'.typ == e.typ && e'.deleted == edit.Delete?
  {
    forall k | Opens(e, k)
      ensures edit.Delete? || k == key
    {
      if !edit.Delete? {
        assert UnwrapKey(e.dek, key).Ok? && UnwrapKey(e.dek, k).Ok?;
      }
    }
  }

  /** A successful read shows a live entry of the account, opened under the password's key. */
  lemma ReadShows(v: Vault, session: Option<UserId>, id: Uuid, password: string, env: Env)
    ensures var o := Execute(v, session, Get(id, password), env);
            o.reply.Ok? ==>
              && session.Some? && id in v.rows && v.rows[id].user == session.value && !v.rows[id].entry.deleted
              && ReadsEntry(o.reply, v.rows[id].entry) && o.vault.rows == v.rows
              && exists key :: IsKeyOf(key, o.vault, session.value, password) && Opens(v.rows[id].entry, key)
  {
    var o := Execute(v, session, Get(id, password), env);
    if o.reply.Ok? {
      assert IsKeyOf(MasterKey(password, o.vault.crypto[session.value].salt), o.vault, session.value, password);
    }
  }

  /** The account's live row `id` is changed as asked, and no other row. */
  ghost predicate ChangesRow(before: Rows, after: Rows, u: UserId, id: Uuid, edit: Edit, now: Time) {
    && id in before && before[id].user == u && !before[id].entry.deleted
    && WritesOnly(before, after, id, u, before[id].entry.version + 1, now)
    && ChangesContents(before[id].entry, edit, after[id].entry)
    && after[id].entry.typ == before[id].entry.typ && after[id].entry.deleted == edit.Delete?
  }

  lemma ChangeIsExact(v: Vault, session: Option<UserId>, c: Command, env: Env)
    requires WellKeyed(v.rows) && c.Change?
    ensures var o := Execute(v, session, c, env);
            && (o.reply.Err? ==> o.vault.rows == v.rows)
            && (o.reply.Ok? ==> session.Some?
                                && ChangesRow(v.rows, o.vault.rows, session.value, c.id, c.edit, env.now))
  {
    FailureLeavesRowsIff(v, session, c, env);
    CommandWrites(v, session, c, env);
    if Execute(v, session, c, env).reply.Ok? {
      ChangedOpens(v, session.value, c, env);
    }
  }

  // ----- Reading back -----

  predicate Reaches(v: Vault, env: Env) {
    v.register.None? || env.fetchOk
  }

  /** The event is a command of the account, and it succeeds. */
  predicate Succeeds(v: Vault, ev: Event, u: UserId) {
    ev.Use? && ev.session == Some(u) && Execute(v, Some(u), ev.command, ev.env).reply.Ok?
  }

  predicate ChangesEntry(ev: Event, u: UserId, id: Uuid) {
    ev.Use? && ev.session == Some(u) && ev.command.Change? && ev.command.id == id
  }

  lemma PlainGet(v: Vault, u: UserId, p: PlainVault, id: Uuid, password: string, env: Env)
    requires Refines(v, u, p)
    ensures GetReply(v, u, id, password, env) == PlainExecute(p, Get(id, password), env).reply
    ensures Reaches(v, env) <==> !Unreachable(p, env)
  {
    ReadRefines(v, u, p, Get(id, password), env);
  }

  /** A successful insertion is read back exactly, with its password. */
  lemma AddThenGet(vaults: seq<Vault>, events: seq<Event>, u: UserId, i: nat, env: Env)
    requires Run(vaults, events) && i < |events| && Succeeds(vaults[i], events[i], u) && events[i].command.Add?
    requires Reaches(vaults[i + 1], env)
    ensures var c := events[i].command;
            ReadsAs(GetReply(vaults[i + 1], u, c.id, c.password, env), Secret(c.plaintext), c.typ, c.meta)
  {
    var c := events[i].command;
    AddIsInForce(vaults, events, u, i);
    RunRefines(vaults, events, u, i + 1);
    PlainGet(vaults[i + 1], u, PlainAfter(vaults[0], events[..i + 1], u), c.id, c.password, env);
  }

  /** After a successful insertion its key is the master's, the master is settled, and the item is as inserted. */
  lemma AddIsInForce(vaults: seq<Vault>, events: seq<Event>, u: UserId, i: nat)
    requires Run(vaults, events) && i < |events| && Succeeds(vaults[i], events[i], u) && events[i].command.Add?
    ensures var c, q := events[i].command, PlainAfter(vaults[0], events[..i + 1], u);
            && q.master.Some? && !q.standing.Unpublished?
            && var key := DeriveMasterKey(c.password, q.master.value.salt);
               && MasterKeyVerifier(key) == q.master.value.verifier
               && c.id in q.items && q.items[c.id] == Item(c.typ, c.plaintext, c.meta, false, 0, key)
  {
    var p := PlainAfter(vaults[0], events[..i], u);
    RunRefines(vaults, events, u, i);
    AddRefines(vaults[i], u, p, events[i].command, events[i].env);
    assert events[..i + 1][..i] == events[..i];
  }

  /** What a successful change of an entry does to what is read of it with the same password. */
  ghost predicate ReadsChanged(was: Result<Reply, VaultError>, edit: Edit, r: Result<Reply, VaultError>) {
    match edit
    case Delete => r == Err(EntryDeleted)
    case Content(typ, meta, plaintext) =>
      was.Ok? && was.value.Found? && was.value.entry.typ == typ && ReadsAs(r, Secret(plaintext), typ, meta)
    case File(meta, replacement, max) =>
      && was.Ok? && was.value.Found? && was.value.entry.typ == "FILE"
      && r.Ok? && r.value.Found? && FileReads(was.value.entry, meta, replacement, r.value.entry)
      && (replacement.Some? ==> |replacement.value.data| <= max)
  }

  /** What is read of a file after a change of it. */
  predicate FileReads(was: DecryptedEntry, given: Metadata, replacement: Option<NewFile>, result: DecryptedEntry) {
    && result.typ == "FILE"
    && result.meta.name == given.name && result.meta.notes == given.notes
    && result.meta.tags == (if given.tags.Some? then given.tags else was.meta.tags)
    && match replacement
       case None => result.payload == was.payload && result.meta.filename == was.meta.filename
       case Some(file) =>
         && result.payload == Secret(file.data)
         && result.meta.filename == if file.filename == "" then "file" else file.filename
  }

  lemma PlainChangeReads(p: PlainVault, c: Command, env: Env, before: Env, after: Env)
    requires c.Change? && PlainExecute(p, c, env).reply.Ok? && p.master.Some?
    requires !Unreachable(p, before) && !Unreachable(p, after)
    ensures var q := PlainExecute(p, c, env).vault;
            ReadsChanged(PlainExecute(p, Get(c.id, c.password), before).reply, c.edit,
                         PlainExecute(q, Get(c.id, c.password), after).reply)
  {
  }

  /** A successful change is seen by the next read, before and after by any fetch that reaches the remote. */
  lemma ChangeThenGet(vaults: seq<Vault>, events: seq<Event>, u: UserId, i: nat, before: Env, after: Env)
    requires Run(vaults, events) && i < |events| && Succeeds(vaults[i], events[i], u) && events[i].command.Change?
    requires Reaches(vaults[i], before) && Reaches(vaults[i + 1], after)
    ensures var c := events[i].command;
            ReadsChanged(GetReply(vaults[i], u, c.id, c.password, before), c.edit,
                         GetReply(vaults[i + 1], u, c.id, c.password, after))
  {
    var c, env := events[i].command, events[i].env;
    var p, q := PlainAfter(vaults[0], events[..i], u), PlainAfter(vaults[0], events[..i + 1], u);
    RunRefines(vaults, events, u, i);
    RunRefines(vaults, events, u, i + 1);
    StepRefines(vaults[i], u, p, events[i]);
    assert events[..i + 1][..i] == events[..i];
    assert q == PlainExecute(p, c, env).vault;
    PlainGet(vaults[i], u, p, c.id, c.password, before);
    PlainGet(vaults[i + 1], u, q, c.id, c.password, after);
    PlainChangeReads(p, c, env, before, after);
  }

  /** Once there is a master, the salt a command would draw does not matter. */
  lemma UnlockNeedsNoSalt(v: Vault, u: UserId, p: PlainVault, password: string, a: seq<Byte>, b: seq<Byte>)
    requires Refines(v, u, p) && p.items != map[]
    ensures Unlock(p, password, a) == Unlock(p, password, b)
  {
  }

  // ----- Reads over runs -----

  /** An event that neither changes the entry nor overtakes the vault leaves its item and the master. */
  lemma EventKeepsItem(v: Vault, u: UserId, p: PlainVault, ev: Event, id: Uuid)
    requires Refines(v, u, p) && PlainOk(p) && IsNew(v, ev) && id in p.items
    requires !ChangesEntry(ev, u, id) && !Overtakes(v, u, ev)
    ensures var q := PlainStep(p, u, ev); id in q.items && q.items[id] == p.items[id] && q.master == p.master
  {
    if ev.Use? && ev.session == Some(u) && ev.command.Add? {
      CheckRefines(v, u, p, ev.command.password, ev.env);
      assert P.Holds(v.rows, u, id);
    }
  }

  /** So does the event after `j` events of a run. */
  lemma ItemStaysOnce(vaults: seq<Vault>, events: seq<Event>, u: UserId, id: Uuid, j: nat)
    requires Run(vaults, events) && j < |events| && id in PlainAfter(vaults[0], events[..j], u).items
    requires !ChangesEntry(events[j], u, id) && !Overtakes(vaults[j], u, events[j])
    ensures var p, q := PlainAfter(vaults[0], events[..j], u), PlainAfter(vaults[0], events[..j + 1], u);
            id in q.items && q.items[id] == p.items[id] && q.master == p.master
  {
    RunRefines(vaults, events, u, j);
    RunDecides(vaults, events, u, j);
    EventKeepsItem(vaults[j], u, PlainAfter(vaults[0], events[..j], u), events[j], id);
    assert events[..j + 1][..j] == events[..j];
  }

  lemma {:induction false} ItemStays(vaults: seq<Vault>, events: seq<Event>, u: UserId, id: Uuid, i: nat, j: nat)
    requires Run(vaults, events) && i <= j < |vaults| && id in PlainAfter(vaults[0], events[..i], u).items
    requires forall k | i <= k < j :: !ChangesEntry(events[k], u, id) && !Overtakes(vaults[k], u, events[k])
    ensures var p, q := PlainAfter(vaults[0], events[..i], u), PlainAfter(vaults[0], events[..j], u);
            id in q.items && q.items[id] == p.items[id] && q.master == p.master
  {
    if i == j {
    } else {
      ItemStays(vaults, events, u, id, i, j - 1);
      ItemStaysOnce(vaults, events, u, id, j - 1);
    }
  }

  /**
   Reads repeat. What a password once read of an entry it reads ever after, whatever else happens on
   the device and in the account, until a change of the entry or until another device overtakes.
   */
  lemma ReadsRepeat(vaults: seq<Vault>, events: seq<Event>, u: UserId, id: Uuid, password: string,
                    i: nat, j: nat, first: Env, second: Env)
    requires Run(vaults, events) && i <= j < |vaults| && GetReply(vaults[i], u, id, password, first).Ok?
    requires forall k | i <= k < j :: !ChangesEntry(events[k], u, id) && !Overtakes(vaults[k], u, events[k])
    requires Reaches(vaults[j], second)
    ensures GetReply(vaults[j], u, id, password, second) == GetReply(vaults[i], u, id, password, first)
  {
    var p, q := PlainAfter(vaults[0], events[..i], u), PlainAfter(vaults[0], events[..j], u);
    RunRefines(vaults, events, u, i);
    RunRefines(vaults, events, u, j);
    PlainGet(vaults[i], u, p, id, password, first);
    ItemStays(vaults, events, u, id, i, j);
    PlainGet(vaults[j], u, q, id, password, second);
    UnlockNeedsNoSalt(vaults[i], u, p, password, first.newSalt, second.newSalt);
  }

  // ----- Other passwords -----

  lemma {:induction false} MasterStays(vaults: seq<Vault>, events: seq<Event>, u: UserId, i: nat, j: nat)
    requires Run(vaults, events) && i <= j < |vaults|
    requires var p := PlainAfter(vaults[0], events[..i], u); p.master.Some? && !p.standing.Unpublished?
    ensures var p, q := PlainAfter(vaults[0], events[..i], u), PlainAfter(vaults[0], events[..j], u);
            q.master == p.master && q.standing == p.standing
  {
    if i == j {
    } else {
      MasterStays(vaults, events, u, i, j - 1);
      assert events[..j][..j - 1] == events[..j - 1];
    }
  }

  /**
   One password per vault. Once an insertion has succeeded, a command with any other password is
   refused as wrong in every later state of every run, as far as it comes to the check, and changes
   no row.
   */
  lemma OtherPasswordIsRefused(vaults: seq<Vault>, events: seq<Event>, u: UserId, i: nat, j: nat, c: Command, env: Env)
    requires Run(vaults, events) && i < |events| && Succeeds(vaults[i], events[i], u) && events[i].command.Add?
    requires i < j < |vaults| && !c.ListAll? && c.password != events[i].command.password
    requires Reaches(vaults[j], env)
    requires c.Add? || (P.Holds(vaults[j].rows, u, c.id) && !vaults[j].rows[c.id].entry.deleted)
    ensures var o := Execute(vaults[j], Some(u), c, env);
            o.reply == Err(WrongPassword) && o.vault.rows == vaults[j].rows
  {
    AddIsInForce(vaults, events, u, i);
    MasterStays(vaults, events, u, i + 1, j);
    RunRefines(vaults, events, u, j);
    CheckRefines(vaults[j], u, PlainAfter(vaults[0], events[..j], u), c.password, env);
  }
}
