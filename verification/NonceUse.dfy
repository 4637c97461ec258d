/**
 Which keys and nonces the vault's ciphertexts use (internal/client/usecase/secret.go,
 internal/client/pkg/crypto/crypto.go). AES-GCM loses its guarantees when one nonce serves two
 messages under one key (section 8 of NIST SP 800-38D).
 */
module NonceUse {
  import opened Basics
  import opened Crypto
  import opened Entries
  import opened SealedEntries
  import opened VaultCommands

  /** The entry is sealed afresh: its own drawn key and three drawn nonces, the key wrapped by a master key. */
  predicate SealedAfresh(e: Entry, draws: Draws) {
    && e.payload.Sealed? && e.payload.key == RandomKey(draws.dek) && e.payload.nonce == draws.payloadNonce
    && e.meta.Sealed? && e.meta.key == RandomKey(draws.dek) && e.meta.nonce == draws.metaNonce
    && e.dek.Sealed? && e.dek.key.MasterKey? && e.dek.nonce == draws.dekNonce
    && e.dek.content == KeyBytes(RandomKey(draws.dek))
  }

  /** Only the metadata is sealed again, under the entry's own key and the drawn nonce. */
  predicate MetaResealed(e: Entry, was: Entry, draws: Draws) {
    && e.dek == was.dek && e.payload == was.payload && e.dek.Sealed? && e.dek.content.KeyBytes?
    && e.meta.Sealed? && e.meta.key == e.dek.content.key && e.meta.nonce == draws.metaNonce
  }

  predicate SameBlobs(e: Entry, was: Entry) {
    e.dek == was.dek && e.payload == was.payload && e.meta == was.meta
  }

  /** Every change saves an entry sealed afresh, with its metadata resealed, or with its ciphertexts untouched. */
  lemma EditSeals(e: Entry, edit: Edit, key: Key, draws: Draws, now: Time)
    requires key.MasterKey? && Edited(e, edit, key, draws, now).Ok?
    ensures var e' := Edited(e, edit, key, draws, now).value;
            if edit.Delete? then SameBlobs(e', e)
            else if edit.File? && edit.replacement.None? then MetaResealed(e', e, draws)
            else SealedAfresh(e', draws)
  {
  }

  /** Of the rows a command leaves, only its own can have new ciphertexts. */
  lemma CommandSeals(v: Vault, session: Option<UserId>, c: Command, env: Env, id: Uuid)
    requires id in Execute(v, session, c, env).vault.rows
    ensures var e := Execute(v, session, c, env).vault.rows[id].entry;
            || (id in v.rows && SameBlobs(e, v.rows[id].entry))
            || ((c.Add? || c.Change?) && c.id == id && SealedAfresh(e, env.draws))
            || (c.Change? && c.id == id && id in v.rows && MetaResealed(e, v.rows[id].entry, env.draws))
  {
    if session.Some? && FetchCrypto(v, session.value, env).Ok? && (c.Add? || c.Change?) {
      var crypto := FetchCrypto(v, session.value, env).value;
      if CheckKey(crypto, c.password).Ok? {
        var key := CheckKey(crypto, c.password).value;
        if c.Add? {
          AddPublishes(v, session.value, c, crypto, env);
        } else if c.id in v.rows && Edited(v.rows[c.id].entry, c.edit, key, env.draws, env.now).Ok? {
          EditSeals(v.rows[c.id].entry, c.edit, key, env.draws, env.now);
        }
      }
    }
  }

  // ----- Runs -----

  /** What event `k` drew. */
  function DrawsAt(events: seq<Event>, k: nat): Draws
    requires k < |events| && events[k].Use?
  {
    events[k].env.draws
  }

  /**
   No two events draw the same key, or the same nonce where the two can meet under one key: for
   wrapping, for metadata, or for a payload and later metadata. Nor does one event draw the same
   nonce for payload and metadata.
   */
  ghost predicate DrawsApart(events: seq<Event>) {
    && (forall k | 0 <= k < |events| && events[k].Use? ::
          DrawsAt(events, k).payloadNonce != DrawsAt(events, k).metaNonce)
    && (forall k, l | 0 <= k < l < |events| && events[k].Use? && events[l].Use? ::
          && DrawsAt(events, k).dek != DrawsAt(events, l).dek
          && DrawsAt(events, k).dekNonce != DrawsAt(events, l).dekNonce
          && DrawsAt(events, k).metaNonce != DrawsAt(events, l).metaNonce
          && DrawsAt(events, k).payloadNonce != DrawsAt(events, l).metaNonce)
  }

  /** Event `k` is a command on an entry, which is stored after it: the entry as it left it. */
  ghost predicate Wrote(vaults: seq<Vault>, events: seq<Event>, k: nat) {
    && k < |events| && k + 1 < |vaults| && events[k].Use? && (events[k].command.Add? || events[k].command.Change?)
    && events[k].command.id in vaults[k + 1].rows
  }

  function Written(vaults: seq<Vault>, events: seq<Event>, k: nat): Entry
    requires Wrote(vaults, events, k)
  {
    vaults[k + 1].rows[events[k].command.id].entry
  }

  /** The payload and the wrapped key are those event `p` wrote, the metadata is what event `m` wrote. */
  ghost predicate From(vaults: seq<Vault>, events: seq<Event>, e: Entry, p: nat, m: nat) {
    && p <= m && Wrote(vaults, events, p) && Wrote(vaults, events, m)
    && e.payload == Written(vaults, events, p).payload && e.dek == Written(vaults, events, p).dek
    && e.meta == Written(vaults, events, m).meta
    && var key := RandomKey(DrawsAt(events, p).dek);
       && e.payload.Sealed? && e.payload.key == key && e.payload.nonce == DrawsAt(events, p).payloadNonce
       && e.meta.Sealed? && e.meta.key == key && e.meta.nonce == DrawsAt(events, m).metaNonce
       && e.dek.Sealed? && e.dek.key.MasterKey? && e.dek.nonce == DrawsAt(events, p).dekNonce
       && e.dek.content == KeyBytes(key)
  }

  /** Every ciphertext stored in any state of a run was written by an event before it, with what that event drew. */
  lemma {:induction false} StoredFrom(vaults: seq<Vault>, events: seq<Event>, i: nat, id: Uuid) returns (p: nat, m: nat)
    requires Run(vaults, events) && i < |vaults| && id in vaults[i].rows
    ensures From(vaults, events, vaults[i].rows[id].entry, p, m) && m < i
  {
    var ev, e := events[i - 1], vaults[i].rows[id].entry;
    if ev.Register? {
      p, m := StoredFrom(vaults, events, i - 1, id);
    } else {
      CommandSeals(vaults[i - 1], ev.session, ev.command, ev.env, id);
      if id in vaults[i - 1].rows && SameBlobs(e, vaults[i - 1].rows[id].entry) {
        p, m := StoredFrom(vaults, events, i - 1, id);
      } else if SealedAfresh(e, ev.env.draws) {
        p, m := i - 1, i - 1;
      } else {
        p, m := StoredFrom(vaults, events, i - 1, id);
        m := i - 1;
      }
    }
  }

  predicate IsBlobOf(b: Blob, e: Entry) {
    b == e.payload || b == e.meta || b == e.dek
  }

  /** Two of their ciphertexts under one key and nonce are the same. */
  predicate NoClash(a: Blob, b: Blob) {
    a.Sealed? && b.Sealed? && (a.key == b.key && a.nonce == b.nonce ==> a == b)
  }

  /** When draws are apart, one draw is that of one event. */
  lemma OneEventPerDraw(events: seq<Event>, k: nat, l: nat)
    requires DrawsApart(events) && k < |events| && l < |events| && events[k].Use? && events[l].Use?
    ensures DrawsAt(events, k).dek == DrawsAt(events, l).dek ==> k == l
    ensures DrawsAt(events, k).dekNonce == DrawsAt(events, l).dekNonce ==> k == l
    ensures DrawsAt(events, k).metaNonce == DrawsAt(events, l).metaNonce ==> k == l
    ensures k <= l ==> DrawsAt(events, k).payloadNonce != DrawsAt(events, l).metaNonce
  {
    if k < l {
      assert DrawsAt(events, k).dek != DrawsAt(events, l).dek;
    } else if l < k {
      assert DrawsAt(events, l).dek != DrawsAt(events, k).dek;
    }
  }

  lemma ProvenanceDecides(vaults: seq<Vault>, events: seq<Event>, e: Entry, p: nat, m: nat, e': Entry, q: nat, n: nat)
    requires DrawsApart(events) && From(vaults, events, e, p, m) && From(vaults, events, e', q, n)
    ensures NoClash(e.payload, e'.payload) && NoClash(e.meta, e'.meta) && NoClash(e.dek, e'.dek)
    ensures NoClash(e.payload, e'.meta) && NoClash(e.payload, e'.dek) && NoClash(e.meta, e'.dek)
  {
    OneEventPerDraw(events, p, q);
    OneEventPerDraw(events, m, n);
    OneEventPerDraw(events, p, n);
  }

  /**
   No nonce is used twice under a key. In every run whose draws are apart, two ciphertexts stored at
   any two times, in any entries, under the same key and with the same nonce are one and the same.
   Edits of metadata alone, which keep the data key, included.
   */
  lemma NoncesAreUsedOnce(vaults: seq<Vault>, events: seq<Event>, i: nat, id: Uuid, a: Blob, j: nat, id': Uuid, b: Blob)
    requires Run(vaults, events) && DrawsApart(events) && i < |vaults| && j < |vaults|
    requires id in vaults[i].rows && IsBlobOf(a, vaults[i].rows[id].entry)
    requires id' in vaults[j].rows && IsBlobOf(b, vaults[j].rows[id'].entry)
    ensures a.Sealed? && b.Sealed? && (a.key == b.key && a.nonce == b.nonce ==> a == b)
  {
    var p, m := StoredFrom(vaults, events, i, id);
    var q, n := StoredFrom(vaults, events, j, id');
    ProvenanceDecides(vaults, events, vaults[i].rows[id].entry, p, m, vaults[j].rows[id'].entry, q, n);
    ProvenanceDecides(vaults, events, vaults[j].rows[id'].entry, q, n, vaults[i].rows[id].entry, p, m);
  }
}
