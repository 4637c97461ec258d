/**
 Sealing, resealing and opening one entry (internal/client/usecase/secret.go): a fresh data key
 encrypts payload and metadata, and the master key wraps the data key.
 */
module SealedEntries {
  import opened Basics
  import opened Crypto
  import opened Entries

  const TYPE_FILE: string := "FILE"

  datatype VaultError =
    | NotLoggedIn
    | FetchFailed
    | WrongPassword
    | EntryNotFound
    | EntryDeleted
    | WrongType
    | TooLarge
    | Broken(cause: CryptoError)
    | PublishFailed

  /** A device's crypto_meta row for one account. */
  datatype LocalCrypto = LocalCrypto(salt: seq<Byte>, verifier: Option<Verifier>)

  /** The random values one sealing draws: the data key and three nonces. */
  datatype Draws = Draws(dek: nat, payloadNonce: nat, metaNonce: nat, dekNonce: nat)

  /** deriveAndCheckMasterKey: without a stored verifier any password is accepted. */
  function CheckKey(c: LocalCrypto, password: string): Result<Key, VaultError> {
    var key := DeriveMasterKey(password, c.salt);
    if c.verifier.Some? && MasterKeyVerifier(key) != c.verifier.value then Err(WrongPassword) else Ok(key)
  }

  /** pullRemoteVaultCrypto then EnsureLocalVaultCrypto: the server's pair wins, else the local row, else a new salt. */
  function MaterializeCrypto(remote: Option<Pair>, local: Option<LocalCrypto>, newSalt: seq<Byte>): LocalCrypto {
    if remote.Some? then LocalCrypto(remote.value.salt, Some(remote.value.verifier))
    else if local.Some? then local.value
    else LocalCrypto(newSalt, None)
  }

  function Blank(id: Uuid, typ: string): Entry {
    Entry(id, typ, Raw([]), Raw([]), Raw([]), 0, false, 0)
  }

  function SealWithNewDek(e: Entry, plaintext: seq<Byte>, meta: Metadata, master: Key, draws: Draws, now: Time): Entry {
    var dek := RandomKey(draws.dek);
    e.(payload := Encrypt(Secret(plaintext), dek, draws.payloadNonce),
       meta := Encrypt(MetaJson(meta), dek, draws.metaNonce),
       dek := Encrypt(KeyBytes(dek), master, draws.dekNonce),
       version := e.version + 1,
       updatedAt := now)
  }

  function EncryptMetaOnly(e: Entry, meta: Metadata, dek: Key, nonce: nat, now: Time): Entry {
    e.(meta := Encrypt(MetaJson(meta), dek, nonce), version := e.version + 1, updatedAt := now)
  }

  function MarkDeleted(e: Entry, now: Time): Entry {
    e.(deleted := true, version := e.version + 1, updatedAt := now)
  }

  datatype Plain = Plain(payload: Content, meta: Metadata)

  /** decryptPayloadAndMeta, given the master key. */
  function Open(e: Entry, master: Key): Result<Plain, VaultError> {
    match UnwrapKey(e.dek, master)
    case Err(c) => Err(Broken(c))
    case Ok(dek) =>
      match Decrypt(e.payload, dek)
      case Err(c) => Err(Broken(c))
      case Ok(payload) =>
        match OpenMetadata(e.meta, dek)
        case Err(c) => Err(Broken(c))
        case Ok(meta) => Ok(Plain(payload, meta))
  }

  predicate Opens(e: Entry, master: Key) {
    Open(e, master).Ok?
  }

  /** updateEntryReplaceContent, from the unlocked entry on. */
  function ReplaceContent(e: Entry, wantType: string, meta: Metadata, plaintext: seq<Byte>,
                          master: Key, draws: Draws, now: Time): Result<Entry, VaultError>
  {
    match UnwrapKey(e.dek, master)
    case Err(c) => Err(Broken(c))
    case Ok(dek) =>
      if e.typ != wantType then Err(WrongType)
      else if Decrypt(e.payload, dek).Err? then Err(Broken(Decrypt(e.payload, dek).error))
      else if Decrypt(e.meta, dek).Err? then Err(Broken(Decrypt(e.meta, dek).error))
      else Ok(SealWithNewDek(e, plaintext, meta, master, draws, now))
  }

  /** New bytes for a FILE entry, with the name they are stored under. */
  datatype NewFile = NewFile(data: seq<Byte>, filename: string)

  /** The stored metadata with the caller's name and notes, and tags when given. */
  function MergeMeta(stored: Metadata, given: Metadata): Metadata {
    stored.(name := given.name, notes := given.notes, tags := if given.tags.Some? then given.tags else stored.tags)
  }

  /** UpdateFile, from the unlocked entry on. */
  function ReplaceFile(e: Entry, meta: Metadata, replacement: Option<NewFile>, maxFileBytes: nat,
                       master: Key, draws: Draws, now: Time): Result<Entry, VaultError>
  {
    match UnwrapKey(e.dek, master)
    case Err(c) => Err(Broken(c))
    case Ok(dek) =>
      if e.typ != TYPE_FILE then Err(WrongType)
      else
        match OpenMetadata(e.meta, dek)
        case Err(c) => Err(Broken(c))
        case Ok(stored) =>
          var merged := MergeMeta(stored, meta);
          match replacement
          case None =>
            if Decrypt(e.payload, dek).Err? then Err(Broken(Decrypt(e.payload, dek).error))
            else Ok(EncryptMetaOnly(e, merged, dek, draws.metaNonce, now))
          case Some(file) =>
            if |file.data| > maxFileBytes then Err(TooLarge)
            else Ok(SealWithNewDek(e, file.data, merged.(filename := file.filename), master, draws, now))
  }

  function NewEntry(id: Uuid, typ: string, meta: Metadata, plaintext: seq<Byte>, master: Key, draws: Draws,
                    now: Time): Entry
  {
    SealWithNewDek(Blank(id, typ), plaintext, meta, master, draws, now)
  }

  /** The three ways the client changes a stored entry. */
  datatype Edit =
    | Content(wantType: string, meta: Metadata, plaintext: seq<Byte>)
    | File(meta: Metadata, replacement: Option<NewFile>, maxFileBytes: nat)
    | Delete

  function Edited(e: Entry, edit: Edit, master: Key, draws: Draws, now: Time): Result<Entry, VaultError> {
    match edit
    case Content(typ, meta, plaintext) => ReplaceContent(e, typ, meta, plaintext, master, draws, now)
    case File(meta, replacement, max) => ReplaceFile(e, meta, replacement, max, master, draws, now)
    case Delete => Ok(MarkDeleted(e, now))
  }

  /**
   What is sealed opens under the sealing key, to what was sealed, and under no other key. It is the
   next version of the entry, stamped with the time of sealing.
   */
  lemma SealThenOpen(e: Entry, plaintext: seq<Byte>, meta: Metadata, master: Key, draws: Draws, now: Time, key: Key)
    ensures var sealed := SealWithNewDek(e, plaintext, meta, master, draws, now);
            && Open(sealed, master) == Ok(Plain(Secret(plaintext), meta))
            && (key != master ==> !Opens(sealed, key))
            && Follows(sealed, e, now) && sealed.deleted == e.deleted
  {
  }

  /**
   Every change of an entry that opens under the master key succeeds or fails by its own rules, and
   what it saves opens under the same key. A content change replaces payload and metadata. A file
   change takes the given name and notes, the given tags if there are any, and the name of new bytes
   if there are any, and keeps the rest. A deletion keeps all. Each bumps the version by one and sets
   the stamp to the time of the change.
   */
  lemma ChangesKeepTheKey(e: Entry, master: Key, wantType: string, meta: Metadata, plaintext: seq<Byte>,
                          replacement: Option<NewFile>, maxFileBytes: nat, draws: Draws, now: Time)
    requires Opens(e, master)
    ensures var r := ReplaceContent(e, wantType, meta, plaintext, master, draws, now);
            if e.typ != wantType then r == Err(WrongType)
            else r.Ok? && Open(r.value, master) == Ok(Plain(Secret(plaintext), meta))
                 && Follows(r.value, e, now) && r.value.deleted == e.deleted
    ensures var r := ReplaceFile(e, meta, replacement, maxFileBytes, master, draws, now);
            var was := Open(e, master).value;
            if e.typ != "FILE" then r == Err(WrongType)
            else if replacement.Some? && |replacement.value.data| > maxFileBytes then r == Err(TooLarge)
            else
              && r.Ok? && Follows(r.value, e, now) && r.value.deleted == e.deleted
              && Opens(r.value, master)
              && var plain := Open(r.value, master).value;
                 && plain.payload == (if replacement.Some? then Secret(replacement.value.data) else was.payload)
                 && FileMetadata(was.meta, meta, replacement, plain.meta)
    ensures var r := MarkDeleted(e, now);
            Open(r, master) == Open(e, master) && Follows(r, e, now) && r.deleted
  {
  }

  /** The metadata of a changed file, field by field. */
  predicate FileMetadata(was: Metadata, given: Metadata, replacement: Option<NewFile>, result: Metadata) {
    && result.name == given.name
    && result.notes == given.notes
    && result.tags == (if given.tags.Some? then given.tags else was.tags)
    && result.filename == (if replacement.Some? then replacement.value.filename else was.filename)
  }

  /** `e'` is the next version of `e`, saved at time `now`: same id and type. */
  predicate Follows(e': Entry, e: Entry, now: Time) {
    e'.uuid == e.uuid && e'.typ == e.typ && e'.version == e.version + 1 && e'.updatedAt == now
  }

  /** An entry wrapped under another key refuses every change that needs its data key. */
  lemma OtherKeyChangesNothing(e: Entry, master: Key, other: Key, wantType: string, meta: Metadata,
                               plaintext: seq<Byte>, replacement: Option<NewFile>, maxFileBytes: nat,
                               draws: Draws, now: Time)
    requires Opens(e, master) && other != master
    ensures ReplaceContent(e, wantType, meta, plaintext, other, draws, now) == Err(Broken(AuthenticationFailed))
    ensures ReplaceFile(e, meta, replacement, maxFileBytes, other, draws, now) == Err(Broken(AuthenticationFailed))
    ensures Open(e, other) == Err(Broken(AuthenticationFailed))
  {
  }
}
