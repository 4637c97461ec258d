/**
 The vault commands of one device as functions on its store (internal/client/usecase/secret.go),
 and the theorem that they refine a map of plaintext entries, with or without a remote, and whatever
 other devices register for the account in between.
 */
module VaultCommands {
  import opened Basics
  import opened Crypto
  import opened Entries
  import opened SealedEntries
  import opened SyncProtocol
  import V = VaultRegister

  /** What a vault command can read and write; `register` is None when no remote is configured. */
  datatype Vault = Vault(rows: Rows, crypto: map<UserId, LocalCrypto>, register: Option<V.Register>)

  /** How the publishing call fares: served, never served, or served with its reply lost. */
  datatype Fate = Served | Unserved | Unanswered

  /**
   Everything a command takes from outside: randomness, the clock and the network. `racing` is a pair
   that another device tries to register for the account between this command's fetch and its put.
   */
  datatype Env = Env(newSalt: seq<Byte>, draws: Draws, now: Time, fetchOk: bool, publish: Fate, racing: Option<Pair>)

  datatype DecryptedEntry = DecryptedEntry(payload: Content, meta: Metadata, typ: string)

  datatype Reply = Done | Found(entry: DecryptedEntry) | Listed(ids: set<Uuid>)

  datatype Outcome = Outcome(vault: Vault, reply: Result<Reply, VaultError>)

  datatype Command =
    | Add(id: Uuid, typ: string, meta: Metadata, plaintext: seq<Byte>, password: string)
    | Change(id: Uuid, edit: Edit, password: string)
    | Get(id: Uuid, password: string)
    | ListAll

  // ----- The commands -----

  /** materializeVaultCrypto: fails only when the configured remote cannot be asked. */
  function FetchCrypto(v: Vault, u: UserId, env: Env): Result<LocalCrypto, VaultError> {
    if v.register.Some? && !env.fetchOk then Err(FetchFailed)
    else
      var remote := if v.register.Some? then V.Lookup(v.register.value, u) else None;
      Ok(MaterializeCrypto(remote, if u in v.crypto then Some(v.crypto[u]) else None, env.newSalt))
  }

  /** The rows other connections commit in a race: none when the server refuses the pair's sizes. */
  function Racing(u: UserId, pair: Option<Pair>): V.Register {
    if pair.Some? && SizesOk(pair.value) then map[u := pair.value] else map[]
  }

  /** publishVaultCrypto: nothing to do without a remote. */
  function Publish(v: Vault, u: UserId, pair: Pair, fate: Fate, racing: Option<Pair>): Outcome {
    if v.register.None? then Outcome(v, Ok(Done))
    else if fate.Unserved? || !SizesOk(pair) then Outcome(v, Err(PublishFailed))
    else
      var (register, reply) := V.AtomicPut(Racing(u, racing) + v.register.value, u, pair);
      Outcome(v.(register := Some(register)),
              if reply == V.Stored && fate.Served? then Ok(Done) else Err(PublishFailed))
  }

  function AddEntry(v: Vault, u: UserId, id: Uuid, typ: string, meta: Metadata, plaintext: seq<Byte>, password: string,
                    env: Env): Outcome
  {
    match FetchCrypto(v, u, env)
    case Err(e) => Outcome(v, Err(e))
    case Ok(c) =>
      var v1 := v.(crypto := v.crypto[u := c]);
      match CheckKey(c, password)
      case Err(e) => Outcome(v1, Err(e))
      case Ok(key) =>
        var verifier := MasterKeyVerifier(key);
        var e := NewEntry(id, typ, meta, plaintext, key, env.draws, env.now);
        var saved := v1.(rows := v.rows[id := Row(e, true, u)]);
        var sealed :=
          if c.verifier.None? then saved.(crypto := v.crypto[u := c.(verifier := Some(verifier))]) else saved;
        Publish(sealed, u, Pair(c.salt, verifier), env.publish, env.racing)
  }

  function ChangeEntry(v: Vault, u: UserId, id: Uuid, edit: Edit, password: string, env: Env): Outcome {
    if !Holds(v.rows, u, id) then Outcome(v, Err(EntryNotFound))
    else if v.rows[id].entry.deleted then Outcome(v, Err(EntryDeleted))
    else
      match FetchCrypto(v, u, env)
      case Err(e) => Outcome(v, Err(e))
      case Ok(c) =>
        var v1 := v.(crypto := v.crypto[u := c]);
        match CheckKey(c, password)
        case Err(e) => Outcome(v1, Err(e))
        case Ok(key) =>
          match Edited(v.rows[id].entry, edit, key, env.draws, env.now)
          case Err(e) => Outcome(v1, Err(e))
          case Ok(entry) => Outcome(v1.(rows := v.rows[id := Row(entry, true, u)]), Ok(Done))
  }

  /** The stored file name of a FILE entry, or "file" when there is none. */
  function Present(plain: Plain, typ: string): DecryptedEntry {
    var meta := if typ == TYPE_FILE && plain.meta.filename == "" then plain.meta.(filename := "file") else plain.meta;
    DecryptedEntry(plain.payload, meta, typ)
  }

  function GetEntry(v: Vault, u: UserId, id: Uuid, password: string, env: Env): Outcome {
    if !Holds(v.rows, u, id) then Outcome(v, Err(EntryNotFound))
    else if v.rows[id].entry.deleted then Outcome(v, Err(EntryDeleted))
    else
      match FetchCrypto(v, u, env)
      case Err(e) => Outcome(v, Err(e))
      case Ok(c) =>
        var v1 := v.(crypto := v.crypto[u := c]);
        match CheckKey(c, password)
        case Err(e) => Outcome(v1, Err(e))
        case Ok(key) =>
          match Open(v.rows[id].entry, key)
          case Err(e) => Outcome(v1, Err(e))
          case Ok(plain) => Outcome(v1, Ok(Found(Present(plain, v.rows[id].entry.typ))))
  }

  function ListedIds(rows: Rows, u: UserId): set<Uuid> {
    set id | id in rows && rows[id].user == u && !rows[id].entry.deleted
  }

  function Execute(v: Vault, session: Option<UserId>, command: Command, env: Env): Outcome {
    match session
    case None => Outcome(v, Err(NotLoggedIn))
    case Some(u) =>
      match command
      case Add(id, typ, meta, plaintext, password) => AddEntry(v, u, id, typ, meta, plaintext, password, env)
      case Change(id, edit, password) => ChangeEntry(v, u, id, edit, password, env)
      case Get(id, password) => GetEntry(v, u, id, password, env)
      case ListAll => Outcome(v, Ok(Listed(ListedIds(v.rows, u))))
  }

  function EntryOf(c: Command, key: Key, env: Env): Entry
    requires c.Add?
  {
    NewEntry(c.id, c.typ, c.meta, c.plaintext, key, env.draws, env.now)
  }

  /** The pair an insertion with this password would publish. */
  function OwnPair(c: LocalCrypto, password: string): Pair {
    Pair(c.salt, MasterKeyVerifier(DeriveMasterKey(password, c.salt)))
  }

  /** The device's stores when an insertion that passes the check comes to publishing. */
  function SavedVault(v: Vault, u: UserId, c: Command, crypto: LocalCrypto, env: Env): Vault
    requires c.Add?
  {
    var key := DeriveMasterKey(c.password, crypto.salt);
    var sealed := if crypto.verifier.Some? then crypto else crypto.(verifier := Some(MasterKeyVerifier(key)));
    Vault(v.rows[c.id := Row(EntryOf(c, key, env), true, u)], v.crypto[u := sealed], v.register)
  }

  /** The insertion is what comes before its publication, and its publication. */
  lemma AddPublishes(v: Vault, u: UserId, c: Command, crypto: LocalCrypto, env: Env)
    requires c.Add? && FetchCrypto(v, u, env) == Ok(crypto) && CheckKey(crypto, c.password).Ok?
    ensures Execute(v, Some(u), c, env)
         == Publish(SavedVault(v, u, c, crypto, env), u, OwnPair(crypto, c.password), env.publish, env.racing)
  {
  }

  // ----- Failed commands -----

  /** Another device's racing put is one the server takes, and of another pair. */
  predicate Beaten(own: Pair, racing: Option<Pair>) {
    racing.Some? && SizesOk(racing.value) && racing.value != own
  }

  /** The insertion gets as far as saving its entry, and then its publication fails. */
  predicate SavesUnpublished(v: Vault, u: UserId, password: string, env: Env) {
    && v.register.Some? && env.fetchOk
    && var c := FetchCrypto(v, u, env).value;
       && CheckKey(c, password).Ok?
       && (|| !env.publish.Served? || !SizesOk(OwnPair(c, password))
           || (u !in v.register.value && Beaten(OwnPair(c, password), env.racing)))
  }

  /**
   A failed command leaves every row as it was, with one exception that can be told before the call:
   an insertion that reaches the remote and passes the check, but whose publication is not served,
   or not answered, or meets a pair that another device has just registered.
   */
  lemma FailureLeavesRowsIff(v: Vault, session: Option<UserId>, command: Command, env: Env)
    requires command.Add? ==> command.id !in v.rows
    ensures var o := Execute(v, session, command, env);
            o.reply.Err? && o.vault.rows != v.rows
            <==> session.Some? && command.Add? && SavesUnpublished(v, session.value, command.password, env)
  {
    if session.Some? && command.Add? && FetchCrypto(v, session.value, env).Ok? {
      var c := FetchCrypto(v, session.value, env).value;
      if CheckKey(c, command.password).Ok? {
        assert command.id in Execute(v, session, command, env).vault.rows;
      }
    }
  }

  /** Such an input: the first insertion on a device whose put does not reach the server. */
  lemma FailedInsertionKeepsItsEntry(u: UserId, c: Command, salt: seq<Byte>, draws: Draws, now: Time)
    requires c.Add?
    ensures var v, env := Vault(map[], map[], Some(map[])), Env(salt, draws, now, true, Unserved, None);
            var o := Execute(v, Some(u), c, env);
            o.reply == Err(PublishFailed) && Holds(o.vault.rows, u, c.id)
  {
  }

  // ----- The plaintext map -----

  /** `changes` counts the successful changes since the entry was added under `key`. */
  datatype Item = Item(typ: string, payload: seq<Byte>, meta: Metadata, deleted: bool, changes: nat, key: Key)

  datatype Standing = NoRemote | Unpublished | Published

  /**
   An account's vault as its user sees it. `master` is the salt and verifier in force: those of the
   first insertion, until the server has a pair for the account, and from then on the server's.
   */
  datatype PlainVault = PlainVault(master: Option<Pair>, standing: Standing, items: map<Uuid, Item>)

  datatype PlainOutcome = PlainOutcome(vault: PlainVault, reply: Result<Reply, VaultError>)

  /** The first insertion may use any password; afterwards only one that has the master's verifier. */
  function Unlock(p: PlainVault, password: string, newSalt: seq<Byte>): Result<Key, VaultError> {
    match p.master
    case None => Ok(DeriveMasterKey(password, newSalt))
    case Some(pair) =>
      var key := DeriveMasterKey(password, pair.salt);
      if MasterKeyVerifier(key) == pair.verifier then Ok(key) else Err(WrongPassword)
  }

  predicate Unreachable(p: PlainVault, env: Env) {
    !p.standing.NoRemote? && !env.fetchOk
  }

  /** A pair reaches the server for the account: the first one of the right sizes counts. */
  function Land(p: PlainVault, pair: Pair): PlainVault {
    if p.standing.Unpublished? && SizesOk(pair) then p.(master := Some(pair), standing := Published) else p
  }

  function PlainPublish(p: PlainVault, own: Pair, fate: Fate, racing: Option<Pair>): PlainOutcome {
    if p.standing.NoRemote? then PlainOutcome(p, Ok(Done))
    else if fate.Unserved? || !SizesOk(own) then PlainOutcome(p, Err(PublishFailed))
    else
      var q := Land(if racing.Some? then Land(p, racing.value) else p, own);
      PlainOutcome(q, if q.master == Some(own) && fate.Served? then Ok(Done) else Err(PublishFailed))
  }

  function PlainEdit(item: Item, edit: Edit, key: Key): Result<Item, VaultError> {
    if !edit.Delete? && item.key != key then Err(Broken(AuthenticationFailed))
    else
      match edit
      case Content(typ, meta, plaintext) =>
        if item.typ != typ then Err(WrongType)
        else Ok(item.(payload := plaintext, meta := meta, changes := item.changes + 1))
      case File(meta, None, _) =>
        if item.typ != "FILE" then Err(WrongType)
        else
          var tags := if meta.tags.Some? then meta.tags else item.meta.tags;
          Ok(item.(meta := Metadata(meta.name, meta.notes, item.meta.filename, tags), changes := item.changes + 1))
      case File(meta, Some(file), max) =>
        if item.typ != "FILE" then Err(WrongType)
        else if |file.data| > max then Err(TooLarge)
        else
          var tags := if meta.tags.Some? then meta.tags else item.meta.tags;
          Ok(item.(payload := file.data, meta := Metadata(meta.name, meta.notes, file.filename, tags),
                   changes := item.changes + 1))
      case Delete => Ok(item.(deleted := true, changes := item.changes + 1))
  }

  function PlainAdd(p: PlainVault, c: Command, env: Env): PlainOutcome
    requires c.Add?
  {
    if Unreachable(p, env) then PlainOutcome(p, Err(FetchFailed))
    else
      match Unlock(p, c.password, env.newSalt)
      case Err(e) => PlainOutcome(p, Err(e))
      case Ok(key) =>
        var own := p.master.GetOr(Pair(env.newSalt, MasterKeyVerifier(key)));
        var items := p.items[c.id := Item(c.typ, c.plaintext, c.meta, false, 0, key)];
        PlainPublish(PlainVault(Some(own), p.standing, items), own, env.publish, env.racing)
  }

  /** The item, if it is there and not deleted, and the key of a password that passes the check. */
  function PlainUnlock(p: PlainVault, id: Uuid, password: string, env: Env): Result<Key, VaultError> {
    if id !in p.items then Err(EntryNotFound)
    else if p.items[id].deleted then Err(EntryDeleted)
    else if Unreachable(p, env) then Err(FetchFailed)
    else Unlock(p, password, env.newSalt)
  }

  /** The metadata as shown: a file without a name is called "file". */
  function Shown(meta: Metadata, typ: string): Metadata {
    Metadata(meta.name, meta.notes, if typ == "FILE" && meta.filename == "" then "file" else meta.filename, meta.tags)
  }

  function PlainExecute(p: PlainVault, command: Command, env: Env): PlainOutcome {
    match command
    case Add(_, _, _, _, _) => PlainAdd(p, command, env)
    case Change(id, edit, password) =>
      (match PlainUnlock(p, id, password, env)
       case Err(e) => PlainOutcome(p, Err(e))
       case Ok(key) =>
         match PlainEdit(p.items[id], edit, key)
         case Err(e) => PlainOutcome(p, Err(e))
         case Ok(item) => PlainOutcome(p.(items := p.items[id := item]), Ok(Done)))
    case Get(id, password) =>
      (match PlainUnlock(p, id, password, env)
       case Err(e) => PlainOutcome(p, Err(e))
       case Ok(key) =>
         var item := p.items[id];
         PlainOutcome(p, if item.key != key then Err(Broken(AuthenticationFailed))
                         else Ok(Found(DecryptedEntry(Secret(item.payload), Shown(item.meta, item.typ), item.typ)))))
    case ListAll => PlainOutcome(p, Ok(Listed(set id | id in p.items && !p.items[id].deleted)))
  }

  // ----- Refinement -----

  /** The row is the item's ciphertext: it opens to the item under the item's key, at version one plus its changes. */
  predicate Encrypts(e: Entry, item: Item) {
    && e.typ == item.typ && e.deleted == item.deleted && e.version == 1 + item.changes
    && Open(e, item.key) == Ok(Plain(Secret(item.payload), item.meta))
  }

  /** The salt and verifier the account's next command would find. */
  function InForce(v: Vault, u: UserId): Option<LocalCrypto> {
    if v.register.Some? && u in v.register.value then
      Some(LocalCrypto(v.register.value[u].salt, Some(v.register.value[u].verifier)))
    else if u in v.crypto then Some(v.crypto[u])
    else None
  }

  ghost predicate SameMaster(v: Vault, u: UserId, p: PlainVault) {
    && (p.standing.NoRemote? <==> v.register.None?)
    && (p.standing.Published? <==> v.register.Some? && u in v.register.value)
    && InForce(v, u) == match p.master
                        case None => None
                        case Some(pair) => Some(LocalCrypto(pair.salt, Some(pair.verifier)))
  }

  ghost predicate SameItems(rows: Rows, u: UserId, items: map<Uuid, Item>) {
    && WellKeyed(rows)
    && (forall id :: Holds(rows, u, id) <==> id in items)
    && (forall id | id in items :: Encrypts(rows[id].entry, items[id]))
  }

  ghost predicate Refines(v: Vault, u: UserId, p: PlainVault) {
    SameMaster(v, u, p) && SameItems(v.rows, u, p.items) && (p.master.None? ==> p.items == map[])
  }

  /** The check against the fetched pair is the check against the master. */
  lemma CheckRefines(v: Vault, u: UserId, p: PlainVault, password: string, env: Env)
    requires SameMaster(v, u, p)
    ensures FetchCrypto(v, u, env).Ok? <==> !Unreachable(p, env)
    ensures FetchCrypto(v, u, env).Err? ==> FetchCrypto(v, u, env) == Err(FetchFailed)
    ensures FetchCrypto(v, u, env).Ok? ==>
              && FetchCrypto(v, u, env).value == InForce(v, u).GetOr(LocalCrypto(env.newSalt, None))
              && CheckKey(FetchCrypto(v, u, env).value, password) == Unlock(p, password, env.newSalt)
  {
  }

  /** Fetching changes nothing the account can see. */
  lemma FetchKeepsMaster(v: Vault, u: UserId, p: PlainVault, env: Env, rows: Rows)
    requires SameMaster(v, u, p) && p.master.Some? && FetchCrypto(v, u, env).Ok?
    ensures SameMaster(v.(crypto := v.crypto[u := FetchCrypto(v, u, env).value], rows := rows), u, p)
  {
  }

  lemma EditRefines(e: Entry, item: Item, key: Key, edit: Edit, draws: Draws, now: Time)
    requires Encrypts(e, item)
    ensures var r, q := Edited(e, edit, key, draws, now), PlainEdit(item, edit, key);
            if q.Err? then r == Err(q.error)
            else r.Ok? && r.value.uuid == e.uuid && Encrypts(r.value, q.value)
  {
    match edit
    case Content(typ, meta, plaintext) =>
      if key == item.key {
        ChangesKeepTheKey(e, key, typ, meta, plaintext, None, 0, draws, now);
      } else {
        OtherKeyChangesNothing(e, item.key, key, typ, meta, plaintext, None, 0, draws, now);
      }
    case File(meta, replacement, max) =>
      if key == item.key {
        ChangesKeepTheKey(e, key, "", meta, [], replacement, max, draws, now);
      } else {
        OtherKeyChangesNothing(e, item.key, key, "", meta, [], replacement, max, draws, now);
      }
    case Delete => ChangesKeepTheKey(e, item.key, "", Metadata("", "", "", None), [], None, 0, draws, now);
  }

  /** Publishing refines its plain counterpart, races included. */
  lemma PublishRefines(v: Vault, u: UserId, p: PlainVault, own: Pair, fate: Fate, racing: Option<Pair>)
    requires SameMaster(v, u, p) && p.master == Some(own)
    ensures var o, q := Publish(v, u, own, fate, racing), PlainPublish(p, own, fate, racing);
            o.reply == q.reply && SameMaster(o.vault, u, q.vault) && o.vault.rows == v.rows && q.vault.items == p.items
  {
  }

  lemma SavedItem(rows: Rows, u: UserId, items: map<Uuid, Item>, e: Entry, item: Item)
    requires SameItems(rows, u, items) && Encrypts(e, item)
    requires e.uuid in items || e.uuid !in rows
    ensures SameItems(rows[e.uuid := Row(e, true, u)], u, items[e.uuid := item])
  {
    var rows', items' := rows[e.uuid := Row(e, true, u)], items[e.uuid := item];
    forall id
      ensures Holds(rows', u, id) <==> id in items'
      ensures id in items' ==> Encrypts(rows'[id].entry, items'[id])
    {
      assert Holds(rows, u, id) <==> id in items;
    }
  }

  lemma AddRefines(v: Vault, u: UserId, p: PlainVault, c: Command, env: Env)
    requires Refines(v, u, p) && c.Add? && c.id !in v.rows
    ensures var o, q := Execute(v, Some(u), c, env), PlainExecute(p, c, env);
            o.reply == q.reply && Refines(o.vault, u, q.vault)
  {
    CheckRefines(v, u, p, c.password, env);
    if FetchCrypto(v, u, env).Ok? && Unlock(p, c.password, env.newSalt).Ok? {
      var crypto, key := FetchCrypto(v, u, env).value, Unlock(p, c.password, env.newSalt).value;
      var own := OwnPair(crypto, c.password);
      var item := Item(c.typ, c.plaintext, c.meta, false, 0, key);
      var e := NewEntry(c.id, c.typ, c.meta, c.plaintext, key, env.draws, env.now);
      SealThenOpen(Blank(c.id, c.typ), c.plaintext, c.meta, key, env.draws, env.now, key);
      SavedItem(v.rows, u, p.items, e, item);
      var crypto' := v.crypto[u := LocalCrypto(own.salt, Some(own.verifier))];
      var sealed := Vault(v.rows[c.id := Row(e, true, u)], crypto', v.register);
      var q := PlainVault(Some(own), p.standing, p.items[c.id := item]);
      assert SameMaster(sealed, u, q);
      PublishRefines(sealed, u, q, own, env.publish, env.racing);
    }
  }

  lemma ChangeRefines(v: Vault, u: UserId, p: PlainVault, c: Command, env: Env)
    requires Refines(v, u, p) && c.Change?
    ensures var o, q := Execute(v, Some(u), c, env), PlainExecute(p, c, env);
            o.reply == q.reply && Refines(o.vault, u, q.vault)
  {
    assert Holds(v.rows, u, c.id) <==> c.id in p.items;
    CheckRefines(v, u, p, c.password, env);
    if c.id in p.items && FetchCrypto(v, u, env).Ok? {
      FetchKeepsMaster(v, u, p, env, v.rows);
      if Unlock(p, c.password, env.newSalt).Ok? {
        var e, key := v.rows[c.id].entry, Unlock(p, c.password, env.newSalt).value;
        EditRefines(e, p.items[c.id], key, c.edit, env.draws, env.now);
        var q := PlainEdit(p.items[c.id], c.edit, key);
        if q.Ok? {
          var e' := Edited(e, c.edit, key, env.draws, env.now).value;
          SavedItem(v.rows, u, p.items, e', q.value);
          FetchKeepsMaster(v, u, p, env, v.rows[c.id := Row(e', true, u)]);
        }
      }
    }
  }

  lemma ReadRefines(v: Vault, u: UserId, p: PlainVault, c: Command, env: Env)
    requires Refines(v, u, p) && (c.Get? || c.ListAll?)
    ensures var o, q := Execute(v, Some(u), c, env), PlainExecute(p, c, env);
            o.reply == q.reply && Refines(o.vault, u, q.vault)
  {
    if c.Get? {
      assert Holds(v.rows, u, c.id) <==> c.id in p.items;
      CheckRefines(v, u, p, c.password, env);
      if c.id in p.items && FetchCrypto(v, u, env).Ok? {
        assert Encrypts(v.rows[c.id].entry, p.items[c.id]);
        FetchKeepsMaster(v, u, p, env, v.rows);
      }
    } else {
      forall id
        ensures id in ListedIds(v.rows, u) <==> id in p.items && !p.items[id].deleted
      {
        assert Holds(v.rows, u, id) <==> id in p.items;
        if id in p.items {
          assert Encrypts(v.rows[id].entry, p.items[id]);
        }
      }
      assert ListedIds(v.rows, u) == set id | id in p.items && !p.items[id].deleted;
    }
  }

  /** The account's rows, crypto_meta row and registered pair are the same in both. */
  ghost predicate SameFor(v: Vault, v': Vault, u: UserId) {
    && (forall id :: Holds(v.rows, u, id) <==> Holds(v'.rows, u, id))
    && (forall id | Holds(v.rows, u, id) :: v'.rows[id] == v.rows[id])
    && SameAt(v.crypto, v'.crypto, u)
    && (v.register.Some? <==> v'.register.Some?)
    && (v.register.Some? ==> SameAt(v.register.value, v'.register.value, u))
  }

  lemma RefinesFrame(v: Vault, v': Vault, u: UserId, p: PlainVault)
    requires Refines(v, u, p) && SameFor(v, v', u) && WellKeyed(v'.rows)
    ensures Refines(v', u, p)
  {
    forall id
      ensures Holds(v'.rows, u, id) <==> id in p.items
    {
      assert Holds(v.rows, u, id) <==> id in p.items;
    }
  }

  lemma PublishSparesOthers(v: Vault, u: UserId, other: UserId, own: Pair, fate: Fate, racing: Option<Pair>)
    requires u != other && WellKeyed(v.rows)
    ensures var v' := Publish(v, other, own, fate, racing).vault; SameFor(v, v', u) && v'.rows == v.rows
  {
  }

  /** Fetching and saving under another account. */
  lemma SaveSparesOthers(v: Vault, v': Vault, u: UserId, other: UserId, id: Uuid, e: Entry, crypto: LocalCrypto)
    requires u != other && WellKeyed(v.rows) && e.uuid == id && (id in v.rows ==> v.rows[id].user == other)
    requires v'.rows == v.rows || v'.rows == v.rows[id := Row(e, true, other)]
    requires v'.crypto == v.crypto[other := crypto] && v'.register == v.register
    ensures SameFor(v, v', u) && WellKeyed(v'.rows)
  {
  }

  lemma AddSparesOthers(v: Vault, u: UserId, other: UserId, c: Command, env: Env)
    requires u != other && WellKeyed(v.rows) && c.Add? && c.id !in v.rows
    ensures var v' := Execute(v, Some(other), c, env).vault; SameFor(v, v', u) && WellKeyed(v'.rows)
  {
    if FetchCrypto(v, other, env).Ok? {
      var crypto := FetchCrypto(v, other, env).value;
      if CheckKey(crypto, c.password).Ok? {
        var key := CheckKey(crypto, c.password).value;
        var e := NewEntry(c.id, c.typ, c.meta, c.plaintext, key, env.draws, env.now);
        var sealed := if crypto.verifier.None? then crypto.(verifier := Some(MasterKeyVerifier(key))) else crypto;
        var saved := Vault(v.rows[c.id := Row(e, true, other)], v.crypto[other := sealed], v.register);
        SaveSparesOthers(v, saved, u, other, c.id, e, sealed);
        PublishSparesOthers(saved, u, other, OwnPair(crypto, c.password), env.publish, env.racing);
        assert Execute(v, Some(other), c, env)
            == Publish(saved, other, OwnPair(crypto, c.password), env.publish, env.racing);
      }
    }
  }

  /** Another account's command on the same device leaves this account's vault as it is. */
  lemma OthersSpareVault(v: Vault, u: UserId, session: Option<UserId>, c: Command, env: Env)
    requires WellKeyed(v.rows) && session != Some(u)
    requires c.Add? ==> c.id !in v.rows
    ensures var v' := Execute(v, session, c, env).vault; SameFor(v, v', u) && WellKeyed(v'.rows)
  {
    if session.Some? && c.Add? {
      AddSparesOthers(v, u, session.value, c, env);
    } else if session.Some? && c.Change? && FetchCrypto(v, session.value, env).Ok? && c.id in v.rows {
      var key := DeriveMasterKey(c.password, FetchCrypto(v, session.value, env).value.salt);
      EditKeepsUuid(v.rows[c.id].entry, c.edit, key, env.draws, env.now);
    }
  }

  lemma EditKeepsUuid(e: Entry, edit: Edit, key: Key, draws: Draws, now: Time)
    ensures Edited(e, edit, key, draws, now).Ok? ==> Edited(e, edit, key, draws, now).value.uuid == e.uuid
  {
  }

  // ----- Runs of one device -----

  /** What happens to a device's vault: a command of whoever is logged in, or another device's registration. */
  datatype Event =
    | Use(session: Option<UserId>, command: Command, env: Env)
    | Register(user: UserId, pair: Pair)

  function After(v: Vault, ev: Event): Vault {
    match ev
    case Use(session, command, env) => Execute(v, session, command, env).vault
    case Register(u, pair) =>
      if v.register.Some? && SizesOk(pair) then v.(register := Some(V.AtomicPut(v.register.value, u, pair).0)) else v
  }

  /**
   A run of a new installation, with or without a remote; the accounts may already have pairs on the
   server. Each insertion draws a uuid no row has.
   */
  ghost predicate Run(vaults: seq<Vault>, events: seq<Event>) {
    && |vaults| == |events| + 1
    && vaults[0].rows == map[] && vaults[0].crypto == map[]
    && forall i | 0 <= i < |events| :: IsNew(vaults[i], events[i]) && vaults[i + 1] == After(vaults[i], events[i])
  }

  predicate IsNew(v: Vault, ev: Event) {
    ev.Use? && ev.command.Add? ==> ev.command.id !in v.rows
  }

  function PlainStart(v: Vault, u: UserId): PlainVault {
    match v.register
    case None => PlainVault(None, NoRemote, map[])
    case Some(register) =>
      PlainVault(V.Lookup(register, u), if u in register then Published else Unpublished, map[])
  }

  /** Only the account's own commands and registrations count. */
  function PlainStep(p: PlainVault, u: UserId, ev: Event): PlainVault {
    match ev
    case Use(session, command, env) => if session == Some(u) then PlainExecute(p, command, env).vault else p
    case Register(user, pair) => if user == u then Land(p, pair) else p
  }

  function PlainAfter(start: Vault, events: seq<Event>, u: UserId): PlainVault {
    if events == [] then PlainStart(start, u)
    else PlainStep(PlainAfter(start, events[..|events| - 1], u), u, events[|events| - 1])
  }

  lemma StepRefines(v: Vault, u: UserId, p: PlainVault, ev: Event)
    requires Refines(v, u, p) && IsNew(v, ev)
    ensures Refines(After(v, ev), u, PlainStep(p, u, ev))
    ensures ev.Use? && ev.session == Some(u) ==>
              Execute(v, Some(u), ev.command, ev.env).reply == PlainExecute(p, ev.command, ev.env).reply
  {
    match ev
    case Register(_, _) =>
    case Use(session, command, env) =>
      if session != Some(u) {
        OthersSpareVault(v, u, session, command, env);
        RefinesFrame(v, Execute(v, session, command, env).vault, u, p);
      } else {
        match command
        case Add(_, _, _, _, _) => AddRefines(v, u, p, command, env);
        case Change(_, _, _) => ChangeRefines(v, u, p, command, env);
        case Get(_, _) => ReadRefines(v, u, p, command, env);
        case ListAll => ReadRefines(v, u, p, command, env);
      }
  }

  lemma {:induction false} RunRefines(vaults: seq<Vault>, events: seq<Event>, u: UserId, i: nat)
    requires Run(vaults, events) && i < |vaults|
    ensures Refines(vaults[i], u, PlainAfter(vaults[0], events[..i], u))
  {
    if i == 0 {
    } else {
      RunRefines(vaults, events, u, i - 1);
      assert events[..i][..i - 1] == events[..i - 1];
      StepRefines(vaults[i - 1], u, PlainAfter(vaults[0], events[..i - 1], u), events[i - 1]);
    }
  }

  /**
   The encrypted vault refines the plaintext map. In every run of a device, with or without a remote,
   with fetches and puts failing, replies lost, other devices registering at any moment, any
   passwords and any switching of accounts, each command of the account replies exactly as the
   plaintext map would, and afterwards the account's rows decrypt to the map's contents.
   */
  lemma VaultRefinesPlaintextMap(vaults: seq<Vault>, events: seq<Event>, u: UserId, i: nat)
    requires Run(vaults, events) && i < |events|
    ensures events[i].Use? && events[i].session == Some(u) ==>
              Execute(vaults[i], Some(u), events[i].command, events[i].env).reply
              == PlainExecute(PlainAfter(vaults[0], events[..i], u), events[i].command, events[i].env).reply
    ensures Refines(vaults[i + 1], u, PlainAfter(vaults[0], events[..i + 1], u))
  {
    RunRefines(vaults, events, u, i);
    RunRefines(vaults, events, u, i + 1);
    StepRefines(vaults[i], u, PlainAfter(vaults[0], events[..i], u), events[i]);
  }

  // ----- One key per vault -----

  /**
   Another device's pair takes the place of the one this device has sealed entries under: it
   registers first, or its put wins the race against this device's insertion.
   */
  predicate Overtakes(v: Vault, u: UserId, ev: Event) {
    && v.register.Some? && u !in v.register.value
    && match ev
       case Register(user, pair) =>
         user == u && SizesOk(pair) && u in v.crypto && v.crypto[u] != LocalCrypto(pair.salt, Some(pair.verifier))
       case Use(session, command, env) =>
         && session == Some(u) && command.Add? && env.fetchOk && !env.publish.Unserved?
         && var c := FetchCrypto(v, u, env).value;
            && CheckKey(c, command.password).Ok?
            && SizesOk(OwnPair(c, command.password)) && Beaten(OwnPair(c, command.password), env.racing)
  }

  /** Some password that passes the check in force opens the entry. */
  ghost predicate Readable(v: Vault, u: UserId, e: Entry) {
    && InForce(v, u).Some?
    && var c := InForce(v, u).value;
       exists password :: CheckKey(c, password).Ok? && Opens(e, CheckKey(c, password).value)
  }

  /** The key is derived with the master's salt and has its verifier. */
  predicate IsMasters(key: Key, master: Option<Pair>) {
    key.MasterKey? && master == Some(Pair(key.salt, MasterKeyVerifier(key)))
  }

  ghost predicate AllMasters(p: PlainVault) {
    forall id | id in p.items :: IsMasters(p.items[id].key, p.master)
  }

  /** Until the server has a pair, the master is that of an insertion, and so of all. */
  ghost predicate PlainOk(p: PlainVault) {
    && (forall id | id in p.items :: p.items[id].key.MasterKey?)
    && (p.master.None? ==> p.items == map[])
    && (!p.standing.Published? ==> AllMasters(p) && (p.master.Some? ==> p.items != map[]))
  }

  lemma ReadableIff(v: Vault, u: UserId, p: PlainVault, e: Entry, item: Item)
    requires SameMaster(v, u, p) && Encrypts(e, item) && item.key.MasterKey?
    ensures Readable(v, u, e) <==> IsMasters(item.key, p.master)
  {
    if IsMasters(item.key, p.master) {
      assert CheckKey(InForce(v, u).value, item.key.password) == Ok(item.key);
    }
  }

  /** When a pair lands where another master was in force, the items stay under the old one. */
  lemma LandingDecides(p: PlainVault, pair: Pair)
    requires PlainOk(p)
    ensures PlainOk(Land(p, pair))
    ensures AllMasters(Land(p, pair))
        <==> AllMasters(p) && (p.standing.Unpublished? && p.master.Some? && SizesOk(pair) ==> p.master == Some(pair))
  {
    if p.standing.Unpublished? && p.items != map[] {
      var id :| id in p.items;
      assert IsMasters(p.items[id].key, p.master);
    }
  }

  lemma PublishingDecides(p: PlainVault, own: Pair, fate: Fate, racing: Option<Pair>)
    requires PlainOk(p) && p.master == Some(own)
    ensures var q := PlainPublish(p, own, fate, racing).vault;
            var lost := p.standing.Unpublished? && !fate.Unserved? && SizesOk(own) && Beaten(own, racing);
            PlainOk(q) && (AllMasters(q) <==> AllMasters(p) && !lost)
  {
    if racing.Some? {
      LandingDecides(p, racing.value);
      LandingDecides(Land(p, racing.value), own);
    } else {
      LandingDecides(p, own);
    }
  }

  lemma AddDecides(v: Vault, u: UserId, p: PlainVault, c: Command, env: Env)
    requires Refines(v, u, p) && PlainOk(p) && c.Add? && c.id !in v.rows
    ensures var q := PlainAdd(p, c, env).vault;
            PlainOk(q) && (AllMasters(q) <==> AllMasters(p) && !Overtakes(v, u, Use(Some(u), c, env)))
  {
    CheckRefines(v, u, p, c.password, env);
    if !Unreachable(p, env) && Unlock(p, c.password, env.newSalt).Ok? {
      var key := Unlock(p, c.password, env.newSalt).value;
      var own := p.master.GetOr(Pair(env.newSalt, MasterKeyVerifier(key)));
      var saved := PlainVault(Some(own), p.standing, p.items[c.id := Item(c.typ, c.plaintext, c.meta, false, 0, key)]);
      assert own == OwnPair(FetchCrypto(v, u, env).value, c.password);
      assert !Holds(v.rows, u, c.id);
      SavingKeepsMasters(p, saved, c.id);
      PublishingDecides(saved, own, env.publish, env.racing);
    }
  }

  /** An item added under the master's key joins the others. */
  lemma SavingKeepsMasters(p: PlainVault, q: PlainVault, id: Uuid)
    requires PlainOk(p) && id !in p.items && q.standing == p.standing
    requires id in q.items && q.items == p.items[id := q.items[id]] && IsMasters(q.items[id].key, q.master)
    requires p.master.Some? ==> q.master == p.master
    ensures PlainOk(q) && (AllMasters(q) <==> AllMasters(p))
  {
    forall x | x in p.items
      ensures q.items[x] == p.items[x]
    {
    }
  }

  lemma EventDecides(v: Vault, u: UserId, p: PlainVault, ev: Event)
    requires Refines(v, u, p) && PlainOk(p) && IsNew(v, ev)
    ensures var q := PlainStep(p, u, ev); PlainOk(q) && (AllMasters(q) <==> AllMasters(p) && !Overtakes(v, u, ev))
  {
    match ev
    case Register(user, pair) =>
      if user == u {
        LandingDecides(p, pair);
      }
    case Use(session, command, env) =>
      if session == Some(u) && command.Add? {
        AddDecides(v, u, p, command, env);
      } else if session == Some(u) && command.Change? {
        ChangeDecides(p, command, env);
      }
  }

  lemma ChangeDecides(p: PlainVault, c: Command, env: Env)
    requires PlainOk(p) && c.Change?
    ensures var q := PlainExecute(p, c, env).vault; PlainOk(q) && (AllMasters(q) <==> AllMasters(p))
  {
    var q := PlainExecute(p, c, env).vault;
    assert q.items.Keys == p.items.Keys;
    forall id | id in p.items
      ensures q.items[id].key == p.items[id].key
    {
    }
  }

  lemma {:induction false} RunDecides(vaults: seq<Vault>, events: seq<Event>, u: UserId, i: nat)
    requires Run(vaults, events) && i < |vaults|
    ensures var p := PlainAfter(vaults[0], events[..i], u);
            PlainOk(p) && (AllMasters(p) <==> forall k | 0 <= k < i :: !Overtakes(vaults[k], u, events[k]))
  {
    if i == 0 {
    } else {
      RunDecides(vaults, events, u, i - 1);
      RunRefines(vaults, events, u, i - 1);
      assert events[..i][..i - 1] == events[..i - 1];
      EventDecides(vaults[i - 1], u, PlainAfter(vaults[0], events[..i - 1], u), events[i - 1]);
    }
  }

  /**
   One key per vault, exactly as long as no other device overtakes. In every state of every run, each
   entry of the account opens under the one key that passes the check in force, if and only if no
   other device's pair took the place of the one the device had sealed entries under. Overtaken
   entries are never under that key again.
   */
  lemma OneKeyPerVault(vaults: seq<Vault>, events: seq<Event>, u: UserId, i: nat)
    requires Run(vaults, events) && i < |vaults|
    ensures (forall id | Holds(vaults[i].rows, u, id) :: Readable(vaults[i], u, vaults[i].rows[id].entry))
       <==> (forall k | 0 <= k < i :: !Overtakes(vaults[k], u, events[k]))
  {
    RunRefines(vaults, events, u, i);
    RunDecides(vaults, events, u, i);
    var p := PlainAfter(vaults[0], events[..i], u);
    forall id | Holds(vaults[i].rows, u, id)
      ensures id in p.items
      ensures Readable(vaults[i], u, vaults[i].rows[id].entry) <==> IsMasters(p.items[id].key, p.master)
    {
      ReadableIff(vaults[i], u, p, vaults[i].rows[id].entry, p.items[id]);
    }
  }

  /** Such a run: the first insertion of a device, and another device's put that comes between its fetch and its own. */
  lemma LostRaceStrandsEntry(u: UserId, c: Command, salt: seq<Byte>, draws: Draws, now: Time, other: Pair)
    requires c.Add? && |salt| == SALT_SIZE
    requires SizesOk(other) && other != OwnPair(LocalCrypto(salt, None), c.password)
    ensures var v := Vault(map[], map[], Some(map[]));
            var ev := Use(Some(u), c, Env(salt, draws, now, true, Served, Some(other)));
            && Run([v, After(v, ev)], [ev]) && Overtakes(v, u, ev)
            && Holds(After(v, ev).rows, u, c.id)
            && !Readable(After(v, ev), u, After(v, ev).rows[c.id].entry)
  {
  }

  /** A command whose password does not pass the check in force fails and changes no row, whatever happens around it. */
  lemma WrongPasswordChangesNothing(v: Vault, u: UserId, c: Command, env: Env)
    requires !c.ListAll? && InForce(v, u).Some? && CheckKey(InForce(v, u).value, c.password).Err?
    ensures var o := Execute(v, Some(u), c, env); o.reply.Err? && o.vault.rows == v.rows
  {
  }
}
