/**
 A vault command as the use case carries it out, with every outcome it can have and with anything
 other devices, the server and the network do before its put, is a path of the vault machine. So what
 holds of every run of VaultSafety holds of the program.
 */
module VaultFollowsProtocol {
  import opened Basics
  import opened Crypto
  import opened Entries
  import opened LocalRows
  import opened SealedEntries
  import opened SyncProtocol
  import C = VaultCommands
  import S = VaultSafety
  import V = VaultRegister

  /** What device `d` can see of the account's vault: its rows, its salt and verifier, and the server's pair. */
  ghost predicate Sees(s: S.State, d: DeviceId, u: UserId, v: C.Vault) {
    && d in s.sync.devices && v.rows == s.sync.devices[d].rows
    && v.register.Some? && SameAt(v.register.value, s.register, u)
    && (u in v.crypto <==> (d, u) in s.crypto) && (u in v.crypto ==> v.crypto[u] == s.crypto[(d, u)])
  }

  ghost predicate AtRest(s: S.State, d: DeviceId) {
    Idle(s.sync, d) && S.PhaseOf(s, d).Ready?
  }

  /** The device is done and sees what the command left; an insertion is acknowledged exactly if it replied success. */
  ghost predicate Agrees(s: S.State, d: DeviceId, u: UserId, c: C.Command, o: C.Outcome) {
    && S.VaultInv(s) && Sees(s, d, u, o.vault) && AtRest(s, d)
    && (c.Add? ==> ((u, c.id) in s.acked <==> o.reply.Ok?))
  }

  lemma NewIsUnacknowledged(s: S.State, u: UserId, id: Uuid)
    requires S.VaultInv(s) && id !in s.sync.owner
    ensures (u, id) !in s.acked
  {
    forall k | k in s.acked
      ensures k.1 in s.sync.owner
    {
      assert S.AckOk(s.sync, s.register, k.0, k.1, s.acked[k]);
    }
  }

  /** A command that fails after fetching, or only reads. */
  lemma FetchAndStop(s: S.State, d: DeviceId, u: UserId, v: C.Vault, env: C.Env) returns (steps: seq<S.Step>)
    requires S.VaultInv(s) && Sees(s, d, u, v) && AtRest(s, d) && env.fetchOk
    ensures S.Path(s, steps)
    ensures var s' := S.PathEnd(s, steps);
            && S.VaultInv(s') && AtRest(s', d) && s'.acked == s.acked
            && Sees(s', d, u, v.(crypto := v.crypto[u := C.FetchCrypto(v, u, env).value]))
  {
    var fetch := S.Fetch(d, u, env.newSalt);
    assert S.Path(s, []);
    S.PathFurther(s, [], fetch);
    S.PathFurther(s, [] + [fetch], S.Crash(d));
    steps := [] + [fetch] + [S.Crash(d)];
    S.PathKeepsVaultInv(s, steps);
  }

  function InsertStep(d: DeviceId, c: C.Command, env: C.Env): S.Step
    requires c.Add?
  {
    S.Insert(d, c.id, c.typ, c.meta, c.plaintext, c.password, env.draws, env.now)
  }

  /** The insertion's steps up to its publication. */
  function SavingSteps(d: DeviceId, u: UserId, c: C.Command, env: C.Env): seq<S.Step>
    requires c.Add?
  {
    [] + [S.Fetch(d, u, env.newSalt)] + [InsertStep(d, c, env)] + [S.SetVerifier(d)]
  }

  /** What an insertion has saved when it comes to publishing. */
  ghost predicate HasSaved(s: S.State, s': S.State, d: DeviceId, u: UserId, c: C.Command, env: C.Env,
                           crypto: LocalCrypto)
    requires c.Add? && d in s.sync.devices
  {
    var key := DeriveMasterKey(c.password, crypto.salt);
    var sealed := if crypto.verifier.Some? then crypto else crypto.(verifier := Some(MasterKeyVerifier(key)));
    && Idle(s'.sync, d) && S.PhaseOf(s', d) == S.Sealing(u, c.id, crypto, c.password)
    && s'.sync.devices[d].rows == s.sync.devices[d].rows[c.id := Row(C.EntryOf(c, key, env), true, u)]
    && s'.register == s.register && s'.acked == s.acked && s'.crypto == s.crypto[(d, u) := sealed]
    && (forall e | e != d :: S.PhaseOf(s', e) == S.PhaseOf(s, e))
  }

  lemma FetchLeaves(s: S.State, d: DeviceId, u: UserId, newSalt: seq<Byte>)
    requires AtRest(s, d)
    ensures S.StepEnabled(s, S.Fetch(d, u, newSalt))
    ensures var s', crypto := S.Then(s, S.Fetch(d, u, newSalt)), S.FetchedCrypto(s, d, u, newSalt);
            && s'.sync == s.sync && s'.register == s.register && s'.acked == s.acked
            && s'.crypto == s.crypto[(d, u) := crypto] && S.PhaseOf(s', d) == S.Fetched(u, crypto)
            && (forall e | e != d :: S.PhaseOf(s', e) == S.PhaseOf(s, e))
  {
  }

  lemma InsertLeaves(s: S.State, d: DeviceId, u: UserId, c: C.Command, env: C.Env, crypto: LocalCrypto)
    requires Idle(s.sync, d) && S.PhaseOf(s, d) == S.Fetched(u, crypto)
    requires c.Add? && c.id !in s.sync.owner && CheckKey(crypto, c.password).Ok?
    ensures S.StepEnabled(s, InsertStep(d, c, env))
    ensures var s', key := S.Then(s, InsertStep(d, c, env)), DeriveMasterKey(c.password, crypto.salt);
            && Idle(s'.sync, d) && S.PhaseOf(s', d) == S.Saved(u, c.id, crypto, c.password)
            && s'.sync.devices[d].rows == s.sync.devices[d].rows[c.id := Row(C.EntryOf(c, key, env), true, u)]
            && s'.register == s.register && s'.acked == s.acked && s'.crypto == s.crypto
            && (forall e | e != d :: S.PhaseOf(s', e) == S.PhaseOf(s, e))
  {
    var key := CheckKey(crypto, c.password).value;
    assert S.SaveLabel(s, InsertStep(d, c, env)) == Some(Create(d, u, C.EntryOf(c, key, env)));
  }

  lemma SetVerifierLeaves(s: S.State, d: DeviceId)
    requires S.PhaseOf(s, d).Saved?
    ensures S.StepEnabled(s, S.SetVerifier(d))
    ensures var s', p := S.Then(s, S.SetVerifier(d)), S.PhaseOf(s, d);
            var verifier := MasterKeyVerifier(DeriveMasterKey(p.password, p.crypto.salt));
            var sealed := if p.crypto.verifier.Some? then p.crypto else p.crypto.(verifier := Some(verifier));
            && s'.sync == s.sync && s'.register == s.register && s'.acked == s.acked
            && S.PhaseOf(s', d) == S.Sealing(p.user, p.id, p.crypto, p.password)
            && s'.crypto == s.crypto[(d, p.user) := sealed]
            && (forall e | e != d :: S.PhaseOf(s', e) == S.PhaseOf(s, e))
  {
  }

  lemma InsertionSaves(s: S.State, d: DeviceId, u: UserId, c: C.Command, env: C.Env)
    requires S.VaultInv(s) && AtRest(s, d) && c.Add? && c.id !in s.sync.owner
    requires CheckKey(S.FetchedCrypto(s, d, u, env.newSalt), c.password).Ok?
    ensures S.Path(s, SavingSteps(d, u, c, env))
    ensures HasSaved(s, S.PathEnd(s, SavingSteps(d, u, c, env)), d, u, c, env, S.FetchedCrypto(s, d, u, env.newSalt))
  {
    FetchAndInsert(s, d, u, c, env);
    var s2 := S.Then(S.Then(s, S.Fetch(d, u, env.newSalt)), InsertStep(d, c, env));
    VerifierIsSet(s, s2, d, u, c, env, S.FetchedCrypto(s, d, u, env.newSalt));
    ThreeSteps(s, S.Fetch(d, u, env.newSalt), InsertStep(d, c, env), S.SetVerifier(d));
  }

  /** What an insertion has saved before it stores its verifier. */
  ghost predicate HasInserted(s: S.State, s': S.State, d: DeviceId, u: UserId, c: C.Command, env: C.Env,
                              crypto: LocalCrypto)
    requires c.Add? && d in s.sync.devices
  {
    var key := DeriveMasterKey(c.password, crypto.salt);
    && Idle(s'.sync, d) && S.PhaseOf(s', d) == S.Saved(u, c.id, crypto, c.password)
    && s'.sync.devices[d].rows == s.sync.devices[d].rows[c.id := Row(C.EntryOf(c, key, env), true, u)]
    && s'.register == s.register && s'.acked == s.acked && s'.crypto == s.crypto[(d, u) := crypto]
    && (forall e | e != d :: S.PhaseOf(s', e) == S.PhaseOf(s, e))
  }

  lemma FetchAndInsert(s: S.State, d: DeviceId, u: UserId, c: C.Command, env: C.Env)
    requires AtRest(s, d) && c.Add? && c.id !in s.sync.owner
    requires CheckKey(S.FetchedCrypto(s, d, u, env.newSalt), c.password).Ok?
    ensures S.StepEnabled(s, S.Fetch(d, u, env.newSalt))
            && var s1 := S.Then(s, S.Fetch(d, u, env.newSalt));
               S.StepEnabled(s1, InsertStep(d, c, env))
               && HasInserted(s, S.Then(s1, InsertStep(d, c, env)), d, u, c, env, S.FetchedCrypto(s, d, u, env.newSalt))
  {
    FetchLeaves(s, d, u, env.newSalt);
    InsertLeaves(S.Then(s, S.Fetch(d, u, env.newSalt)), d, u, c, env, S.FetchedCrypto(s, d, u, env.newSalt));
  }

  lemma VerifierIsSet(s: S.State, s': S.State, d: DeviceId, u: UserId, c: C.Command, env: C.Env, crypto: LocalCrypto)
    requires c.Add? && d in s.sync.devices && HasInserted(s, s', d, u, c, env, crypto)
    ensures S.StepEnabled(s', S.SetVerifier(d)) && HasSaved(s, S.Then(s', S.SetVerifier(d)), d, u, c, env, crypto)
  {
    SetVerifierLeaves(s', d);
  }

  lemma ThreeSteps(s: S.State, a: S.Step, b: S.Step, c: S.Step)
    requires S.StepEnabled(s, a) && S.StepEnabled(S.Then(s, a), b) && S.StepEnabled(S.Then(S.Then(s, a), b), c)
    ensures S.Path(s, [] + [a] + [b] + [c]) && S.PathEnd(s, [] + [a] + [b] + [c]) == S.Then(S.Then(S.Then(s, a), b), c)
  {
    assert S.Path(s, []);
    S.PathFurther(s, [], a);
    S.PathFurther(s, [] + [a], b);
    S.PathFurther(s, [] + [a] + [b], c);
  }

  /** The publication itself: its register, and whether it is acknowledged. */
  lemma PublishLeaves(s: S.State, d: DeviceId, lost: bool)
    requires S.PhaseOf(s, d).Sealing? && (S.PhaseOf(s, d).user, S.PhaseOf(s, d).id) !in s.acked
    ensures S.StepEnabled(s, S.Publish(d, lost))
    ensures var p, s' := S.PhaseOf(s, d), S.Then(s, S.Publish(d, lost));
            var (register, reply) := V.AtomicPut(s.register, p.user, S.PairOf(p));
            && s'.sync == s.sync && S.PhaseOf(s', d) == S.Ready && s'.crypto == s.crypto
            && s'.register == (if SizesOk(S.PairOf(p)) then register else s.register)
            && ((p.user, p.id) in s'.acked <==> SizesOk(S.PairOf(p)) && !lost && reply == V.Stored)
            && (forall k | k != (p.user, p.id) :: k in s'.acked <==> k in s.acked)
            && (forall e | e != d :: S.PhaseOf(s', e) == S.PhaseOf(s, e))
  {
  }

  // ----- What others do before the put -----

  /** Anything but the device's own put or crash. */
  predicate Elsewhere(step: S.Step, d: DeviceId) {
    step.Publish? || step.Crash? ==> step.device != d
  }

  ghost predicate Meanwhile(s: S.State, steps: seq<S.Step>, d: DeviceId) {
    S.Path(s, steps) && forall step | step in steps :: Elsewhere(step, d)
  }

  /** The device's part of the state is the same in both. */
  ghost predicate SameDevice(s: S.State, s': S.State, d: DeviceId) {
    && S.PhaseOf(s', d) == S.PhaseOf(s, d)
    && Idle(s.sync, d) && Idle(s'.sync, d) && s'.sync.devices[d].rows == s.sync.devices[d].rows
    && forall u :: SameAt(s.crypto, s'.crypto, (d, u))
  }

  lemma PublisherIsIdle(s: S.State, d: DeviceId)
    requires S.VaultInv(s) && S.PhaseOf(s, d).Sealing?
    ensures Idle(s.sync, d) && (S.PhaseOf(s, d).user, S.PhaseOf(s, d).id) !in s.acked
  {
    assert S.PhaseOk(s, d);
  }

  lemma NetworkElsewhere(s: S.State, l: Label, d: DeviceId)
    requires S.VaultInv(s) && S.PhaseOf(s, d).Sealing? && S.StepEnabled(s, S.Network(l))
    ensures SameDevice(s, S.Then(s, S.Network(l)), d)
  {
    PublisherIsIdle(s, d);
    S.BusyDeviceUnmoved(s, l, d);
  }

  /** A save of another device. */
  lemma SaveElsewhere(s: S.State, step: S.Step, d: DeviceId)
    requires Idle(s.sync, d) && S.StepEnabled(s, step) && (step.Insert? || step.Update?) && step.device != d
    ensures SameDevice(s, S.Then(s, step), d)
  {
    var l := S.SaveLabel(s, step).value;
    assert (l.Create? || l.Modify?) && l.device == step.device;
  }

  lemma QuietElsewhere(s: S.State, step: S.Step, d: DeviceId)
    requires Idle(s.sync, d) && S.StepEnabled(s, step)
    requires step.Fetch? || step.SetVerifier? || step.Publish? || step.Crash? || step.Arrive?
    requires step.Arrive? || step.device != d
    ensures SameDevice(s, S.Then(s, step), d)
  {
  }

  /** A device about to publish is not touched by any other step, of the network or of other devices. */
  lemma StepElsewhere(s: S.State, step: S.Step, d: DeviceId)
    requires S.VaultInv(s) && S.PhaseOf(s, d).Sealing? && S.StepEnabled(s, step) && Elsewhere(step, d)
    ensures SameDevice(s, S.Then(s, step), d)
  {
    PublisherIsIdle(s, d);
    match step
    case Network(l) => NetworkElsewhere(s, l, d);
    case Insert(_, _, _, _, _, _, _, _) => SaveElsewhere(s, step, d);
    case Update(_, _, _, _, _, _) => SaveElsewhere(s, step, d);
    case _ => QuietElsewhere(s, step, d);
  }

  lemma {:induction false} MeanwhileSpares(s: S.State, steps: seq<S.Step>, d: DeviceId)
    requires S.VaultInv(s) && S.PhaseOf(s, d).Sealing? && Meanwhile(s, steps, d)
    ensures S.VaultInv(S.PathEnd(s, steps)) && SameDevice(s, S.PathEnd(s, steps), d)
    decreases |steps|
  {
    if steps == [] {
      PublisherIsIdle(s, d);
    } else {
      var s1 := S.Then(s, steps[0]);
      S.StepKeepsVaultInv(s, steps[0]);
      StepElsewhere(s, steps[0], d);
      MeanwhileSpares(s1, steps[1..], d);
      DeviceStaysSame(s, s1, S.PathEnd(s, steps), d);
    }
  }

  lemma DeviceStaysSame(a: S.State, b: S.State, c: S.State, d: DeviceId)
    requires SameDevice(a, b, d) && SameDevice(b, c, d)
    ensures SameDevice(a, c, d)
  {
    forall u
      ensures SameAt(a.crypto, c.crypto, (d, u))
    {
      assert SameAt(a.crypto, b.crypto, (d, u)) && SameAt(b.crypto, c.crypto, (d, u));
    }
  }

  /** The insertion gets as far as a put that the server would look at. */
  ghost predicate Puts(s: S.State, d: DeviceId, u: UserId, c: C.Command, env: C.Env) {
    && c.Add? && env.fetchOk && !env.publish.Unserved?
    && var crypto := S.FetchedCrypto(s, d, u, env.newSalt);
       CheckKey(crypto, c.password).Ok? && SizesOk(S.OwnPair(crypto, c.password))
  }

  /** If the command comes to a put, others do `mid` before it, and `env.racing` is the pair that brings, if any. */
  ghost predicate Races(s: S.State, d: DeviceId, u: UserId, c: C.Command, env: C.Env, mid: seq<S.Step>) {
    Puts(s, d, u, c, env) ==>
      && S.Path(s, SavingSteps(d, u, c, env))
      && var saved := S.PathEnd(s, SavingSteps(d, u, c, env));
         Meanwhile(saved, mid, d) && SameAt(S.PathEnd(saved, mid).register, C.Racing(u, env.racing) + s.register, u)
  }

  lemma SeesSaved(s: S.State, s1: S.State, d: DeviceId, u: UserId, v: C.Vault, c: C.Command, env: C.Env,
                  crypto: LocalCrypto)
    requires c.Add? && Sees(s, d, u, v) && HasSaved(s, s1, d, u, c, env, crypto)
    ensures Sees(s1, d, u, C.SavedVault(v, u, c, crypto, env))
  {
  }

  lemma CrashConcludes(s: S.State, d: DeviceId, u: UserId, v: C.Vault, c: C.Command, own: Pair, fate: C.Fate,
                       racing: Option<Pair>)
    requires S.VaultInv(s) && Sees(s, d, u, v) && Idle(s.sync, d) && c.Add? && (u, c.id) !in s.acked && fate.Unserved?
    ensures S.StepEnabled(s, S.Crash(d))
    ensures Agrees(S.Then(s, S.Crash(d)), d, u, c, C.Publish(v, u, own, fate, racing))
  {
    S.StepKeepsVaultInv(s, S.Crash(d));
  }

  /** A put depends on the register, and changes it, only at its own account. */
  lemma PutAtAccount(reg: V.Register, reg': V.Register, u: UserId, own: Pair)
    requires SameAt(reg, reg', u)
    ensures SameAt(V.AtomicPut(reg, u, own).0, V.AtomicPut(reg', u, own).0, u)
    ensures V.AtomicPut(reg, u, own).1 == V.AtomicPut(reg', u, own).1
  {
  }

  /** `s` is the state just before the put, after whatever others did. */
  lemma PutConcludes(s: S.State, d: DeviceId, u: UserId, v: C.Vault, c: C.Command, crypto: LocalCrypto,
                     fate: C.Fate, racing: Option<Pair>)
    requires S.VaultInv(s) && Idle(s.sync, d) && !fate.Unserved? && c.Add? && v.register.Some?
    requires S.PhaseOf(s, d) == S.Sealing(u, c.id, crypto, c.password)
    requires Sees(s, d, u, if SizesOk(S.OwnPair(crypto, c.password))
                           then v.(register := Some(C.Racing(u, racing) + v.register.value)) else v)
    ensures S.StepEnabled(s, S.Publish(d, fate.Unanswered?))
    ensures Agrees(S.Then(s, S.Publish(d, fate.Unanswered?)), d, u, c,
        C.Publish(v, u, S.OwnPair(crypto, c.password), fate, racing))
  {
    PublisherIsIdle(s, d);
    if SizesOk(S.OwnPair(crypto, c.password)) {
      PutAtAccount(C.Racing(u, racing) + v.register.value, s.register, u, S.OwnPair(crypto, c.password));
    }
    PublishLeaves(s, d, fate.Unanswered?);
    S.StepKeepsVaultInv(s, S.Publish(d, fate.Unanswered?));
  }

  /** What the device sees is the same after the others' steps, but for the account's pair. */
  lemma SeesAfterRace(s: S.State, s': S.State, d: DeviceId, u: UserId, v: C.Vault, racing: Option<Pair>)
    requires Sees(s, d, u, v) && SameDevice(s, s', d)
    requires SameAt(s'.register, C.Racing(u, racing) + s.register, u)
    ensures Sees(s', d, u, v.(register := Some(C.Racing(u, racing) + v.register.value)))
  {
    assert SameAt(s.crypto, s'.crypto, (d, u));
  }

  /** An insertion that passes the check: Fetch, Insert and SetVerifier, what others do, then Publish or a crash. */
  lemma InsertionIsAPath(s: S.State, d: DeviceId, u: UserId, v: C.Vault, c: C.Command, env: C.Env, mid: seq<S.Step>)
    returns (steps: seq<S.Step>)
    requires S.VaultInv(s) && Sees(s, d, u, v) && AtRest(s, d) && env.fetchOk
    requires c.Add? && c.id !in s.sync.owner && Races(s, d, u, c, env, mid)
    requires CheckKey(S.FetchedCrypto(s, d, u, env.newSalt), c.password).Ok?
    ensures S.Path(s, steps) && Agrees(S.PathEnd(s, steps), d, u, c, C.Execute(v, Some(u), c, env))
  {
    var crypto := S.FetchedCrypto(s, d, u, env.newSalt);
    var saved, own := C.SavedVault(v, u, c, crypto, env), S.OwnPair(crypto, c.password);
    C.AddPublishes(v, u, c, crypto, env);
    steps := SavingSteps(d, u, c, env);
    InsertionSaves(s, d, u, c, env);
    S.PathKeepsVaultInv(s, steps);
    var s1 := S.PathEnd(s, steps);
    NewIsUnacknowledged(s, u, c.id);
    SeesSaved(s, s1, d, u, v, c, env, crypto);
    if env.publish.Unserved? {
      CrashConcludes(s1, d, u, saved, c, own, env.publish, env.racing);
      S.PathFurther(s, steps, S.Crash(d));
      steps := steps + [S.Crash(d)];
    } else {
      if SizesOk(own) {
        MeanwhileSpares(s1, mid, d);
        SeesAfterRace(s1, S.PathEnd(s1, mid), d, u, saved, env.racing);
        S.PathAppend(s, steps, mid);
        steps := steps + mid;
      }
      PutConcludes(S.PathEnd(s, steps), d, u, saved, c, crypto, env.publish, env.racing);
      S.PathFurther(s, steps, S.Publish(d, env.publish.Unanswered?));
      steps := steps + [S.Publish(d, env.publish.Unanswered?)];
    }
  }

  /** A change that succeeds is Fetch and Update. */
  lemma ChangeIsAPath(s: S.State, d: DeviceId, u: UserId, v: C.Vault, c: C.Command, env: C.Env)
    returns (steps: seq<S.Step>)
    requires S.VaultInv(s) && Sees(s, d, u, v) && AtRest(s, d)
    requires c.Change? && C.Execute(v, Some(u), c, env).reply.Ok?
    ensures S.Path(s, steps) && Agrees(S.PathEnd(s, steps), d, u, c, C.Execute(v, Some(u), c, env))
  {
    var crypto, fetch := S.FetchedCrypto(s, d, u, env.newSalt), S.Fetch(d, u, env.newSalt);
    var update := S.Update(d, c.id, c.edit, c.password, env.draws, env.now);
    assert C.FetchCrypto(v, u, env) == Ok(crypto);
    assert S.Path(s, []);
    S.PathFurther(s, [], fetch);
    var s1 := S.Then(s, fetch);
    assert S.PhaseOf(s1, d) == S.Fetched(u, crypto);
    assert DeviceOk(s.sync, s.sync.devices[d]);
    ChangeSaves(s1, d, u, crypto, update);
    S.PathFurther(s, [] + [fetch], update);
    steps := [] + [fetch] + [update];
    S.PathKeepsVaultInv(s, steps);
  }

  /** From a fetched vault, the change of an entry the device may change is a step, and this is what it leaves. */
  lemma ChangeSaves(s: S.State, d: DeviceId, u: UserId, c: LocalCrypto, update: S.Step)
    requires Idle(s.sync, d) && S.PhaseOf(s, d) == S.Fetched(u, c)
    requires update.Update? && update.device == d && WellKeyed(s.sync.devices[d].rows)
    requires Holds(s.sync.devices[d].rows, u, update.id) && !s.sync.devices[d].rows[update.id].entry.deleted
    requires CheckKey(c, update.password).Ok?
    requires Edited(s.sync.devices[d].rows[update.id].entry, update.edit, CheckKey(c, update.password).value,
                    update.draws, update.now).Ok?
    ensures S.StepEnabled(s, update)
    ensures var s', rows := S.Then(s, update), s.sync.devices[d].rows;
            var key := CheckKey(c, update.password).value;
            var e := Edited(rows[update.id].entry, update.edit, key, update.draws, update.now).value;
            && Idle(s'.sync, d) && S.PhaseOf(s', d) == S.Ready
            && s'.sync.devices[d].rows == rows[update.id := Row(e, true, u)]
            && s'.register == s.register && s'.crypto == s.crypto
  {
    var key := CheckKey(c, update.password).value;
    var e := s.sync.devices[d].rows[update.id].entry;
    NextVersion(e, update.edit, key, update.draws, update.now);
    assert S.SaveLabel(s, update) == Some(Modify(d, u, Edited(e, update.edit, key, update.draws, update.now).value));
  }

  lemma NextVersion(e: Entry, edit: Edit, key: Key, draws: Draws, now: Time)
    ensures var r := Edited(e, edit, key, draws, now);
            r.Ok? ==> r.value.uuid == e.uuid && r.value.version == e.version + 1
  {
  }

  /**
   Every vault command, whatever its outcome, is a path of the vault machine that leaves the device's
   rows, salt, verifier and registered pair as the command does, and acknowledges exactly an insertion
   that replied success. That covers missing entries, failed fetches, wrong passwords, refused
   changes, puts that are not served or not answered, and a put that meets whatever other devices,
   the server and the network have done since the fetch.
   */
  lemma CommandIsAPath(s: S.State, d: DeviceId, u: UserId, v: C.Vault, c: C.Command, env: C.Env, mid: seq<S.Step>)
    returns (steps: seq<S.Step>)
    requires S.VaultInv(s) && Sees(s, d, u, v) && AtRest(s, d)
    requires c.Add? ==> c.id !in s.sync.owner && Races(s, d, u, c, env, mid)
    ensures S.Path(s, steps) && Agrees(S.PathEnd(s, steps), d, u, c, C.Execute(v, Some(u), c, env))
  {
    var o := C.Execute(v, Some(u), c, env);
    if c.Add? {
      NewIsUnacknowledged(s, u, c.id);
    }
    if c.Add? && env.fetchOk && CheckKey(S.FetchedCrypto(s, d, u, env.newSalt), c.password).Ok? {
      steps := InsertionIsAPath(s, d, u, v, c, env, mid);
    } else if c.Change? && o.reply.Ok? {
      steps := ChangeIsAPath(s, d, u, v, c, env);
    } else if o.vault == v {
      steps := [];
    } else {
      StopsAfterFetching(v, u, c, env);
      steps := FetchAndStop(s, d, u, v, env);
    }
  }

  /** Any other command either leaves everything as it was or has just fetched. */
  lemma StopsAfterFetching(v: C.Vault, u: UserId, c: C.Command, env: C.Env)
    requires v.register.Some?
    requires c.Change? ==> C.Execute(v, Some(u), c, env).reply.Err?
    requires c.Add? && C.FetchCrypto(v, u, env).Ok? ==> CheckKey(C.FetchCrypto(v, u, env).value, c.password).Err?
    ensures var o := C.Execute(v, Some(u), c, env);
            && (c.Add? ==> o.reply.Err?)
            && (o.vault != v ==> env.fetchOk && o.vault == v.(crypto := v.crypto[u := C.FetchCrypto(v, u, env).value]))
  {
  }

  /** So a run that comes to a command can be continued through it. */
  lemma CommandContinuesRun(states: seq<S.State>, steps: seq<S.Step>, d: DeviceId, u: UserId,
                            v: C.Vault, c: C.Command, env: C.Env, mid: seq<S.Step>)
    returns (all: seq<S.State>, more: seq<S.Step>)
    requires S.VaultRun(states, steps) && Sees(states[|steps|], d, u, v) && AtRest(states[|steps|], d)
    requires c.Add? ==> c.id !in states[|steps|].sync.owner && Races(states[|steps|], d, u, c, env, mid)
    ensures S.VaultRun(all, steps + more) && states <= all
    ensures Agrees(all[|steps + more|], d, u, c, C.Execute(v, Some(u), c, env))
  {
    S.VaultRunKeepsInv(states, steps, |steps|);
    more := CommandIsAPath(states[|steps|], d, u, v, c, env, mid);
    all := S.PathExtendsRun(states, steps, more);
  }
}
