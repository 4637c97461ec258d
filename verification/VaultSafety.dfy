/**
 The vault over the sync protocol: many devices, the server's write-once register of salt and
 verifier, and the client's commands split at their remote calls. A command of one device runs
 alone on that device, but any number of steps of other devices, of the server and of the network
 fall between its parts, including other devices' first initialisation of the same vault. A device
 may crash at any point. The remote is configured on every device; a remote call that fails ends the
 command, like a crash, and a put that was on its way then may still arrive.
 */
module VaultSafety {
  import opened Basics
  import opened Crypto
  import opened Entries
  import opened LocalRows
  import opened SealedEntries
  import opened ServerTable
  import opened SyncProtocol
  import V = VaultRegister

  /**
   Where a device's vault command stands: `Fetched` after materializeVaultCrypto, `Saved` and
   `Sealing` around SetLocalMasterVerifier in an insertion that is not yet published.
   */
  datatype Phase =
    | Ready
    | Fetched(user: UserId, crypto: LocalCrypto)
    | Saved(user: UserId, id: Uuid, crypto: LocalCrypto, password: string)
    | Sealing(user: UserId, id: Uuid, crypto: LocalCrypto, password: string)

  /**
   `acked` records, for each insertion that returned success, the password it was given; `late` the
   pairs whose devices gave up on publishing them while the put was on its way.
   */
  datatype State = State(
    sync: World,
    register: V.Register,
    crypto: map<(DeviceId, UserId), LocalCrypto>,
    phases: map<DeviceId, Phase>,
    acked: map<(UserId, Uuid), string>,
    late: set<(UserId, Pair)>)

  const INITIAL_STATE: State := State(INITIAL, map[], map[], map[], map[], {})

  datatype Step =
    | Network(event: Label)
    | Fetch(device: DeviceId, user: UserId, newSalt: seq<Byte>)
    | Insert(device: DeviceId, id: Uuid, typ: string, meta: Metadata, plaintext: seq<Byte>, password: string,
        draws: Draws, now: Time)
    | SetVerifier(device: DeviceId)
    | Publish(device: DeviceId, replyLost: bool)
    | Update(device: DeviceId, id: Uuid, edit: Edit, password: string, draws: Draws, now: Time)
    | Crash(device: DeviceId)
    | Arrive(user: UserId, pair: Pair)

  function PhaseOf(s: State, d: DeviceId): Phase {
    if d in s.phases then s.phases[d] else Ready
  }

  /** What a fetch finds, given the salt it would draw. */
  function FetchedCrypto(s: State, d: DeviceId, u: UserId, newSalt: seq<Byte>): LocalCrypto {
    MaterializeCrypto(V.Lookup(s.register, u), if (d, u) in s.crypto then Some(s.crypto[(d, u)]) else None, newSalt)
  }

  /**
   The protocol step a successful insertion or change amounts to. A change reads its row before it
   fetches; reading it here is the same, since nothing changes the device's rows in between. A command
   that fails after fetching ends in Crash.
   */
  function SaveLabel(s: State, step: Step): Option<Label> {
    match step
    case Insert(d, id, typ, meta, plaintext, password, draws, now) =>
      var p := PhaseOf(s, d);
      if !p.Fetched? then None
      else
        (match CheckKey(p.crypto, password)
         case Err(_) => None
         case Ok(key) => Some(Create(d, p.user, NewEntry(id, typ, meta, plaintext, key, draws, now))))
    case Update(d, id, edit, password, draws, now) =>
      var p := PhaseOf(s, d);
      if !p.Fetched? || d !in s.sync.devices || !Holds(s.sync.devices[d].rows, p.user, id)
         || s.sync.devices[d].rows[id].entry.deleted then None
      else
        (match CheckKey(p.crypto, password)
         case Err(_) => None
         case Ok(key) =>
           match Edited(s.sync.devices[d].rows[id].entry, edit, key, draws, now)
           case Err(_) => None
           case Ok(e) => Some(Modify(d, p.user, e)))
    case _ => None
  }

  ghost predicate StepEnabled(s: State, step: Step) {
    match step
    case Network(l) => Enabled(s.sync, l) && !l.Create? && !l.Modify? && (l.Send? ==> PhaseOf(s, l.device).Ready?)
    case Fetch(d, u, salt) => Idle(s.sync, d) && PhaseOf(s, d).Ready?
    case Insert(d, _, _, _, _, _, _, _) => SaveLabel(s, step).Some? && Enabled(s.sync, SaveLabel(s, step).value)
    case Update(d, _, _, _, _, _) => SaveLabel(s, step).Some? && Enabled(s.sync, SaveLabel(s, step).value)
    case SetVerifier(d) => PhaseOf(s, d).Saved?
    case Publish(d, _) => PhaseOf(s, d).Sealing?
    case Crash(d) => d in s.sync.devices
    case Arrive(u, pair) => (u, pair) in s.late
  }

  /** The pair an insertion fixes for its vault: its salt, and the verifier of its key. */
  function OwnPair(c: LocalCrypto, password: string): Pair {
    Pair(c.salt, MasterKeyVerifier(DeriveMasterKey(password, c.salt)))
  }

  function PairOf(p: Phase): Pair
    requires p.Sealing?
  {
    OwnPair(p.crypto, p.password)
  }

  ghost function Then(s: State, step: Step): State
    requires StepEnabled(s, step)
  {
    match step
    case Network(l) => s.(sync := Next(s.sync, l))
    case Fetch(d, u, salt) =>
      var c := FetchedCrypto(s, d, u, salt);
      s.(crypto := s.crypto[(d, u) := c], phases := s.phases[d := Fetched(u, c)])
    case Insert(d, id, _, _, _, password, _, _) =>
      var p := PhaseOf(s, d);
      s.(sync := Next(s.sync, SaveLabel(s, step).value), phases := s.phases[d := Saved(p.user, id, p.crypto, password)])
    case Update(d, _, _, _, _, _) =>
      s.(sync := Next(s.sync, SaveLabel(s, step).value), phases := s.phases[d := Ready])
    case SetVerifier(d) =>
      var p := PhaseOf(s, d);
      var key := DeriveMasterKey(p.password, p.crypto.salt);
      var c := if p.crypto.verifier.Some? then p.crypto else p.crypto.(verifier := Some(MasterKeyVerifier(key)));
      s.(crypto := s.crypto[(d, p.user) := c], phases := s.phases[d := Sealing(p.user, p.id, p.crypto, p.password)])
    case Publish(d, replyLost) =>
      var p := PhaseOf(s, d);
      var idle := s.(phases := s.phases[d := Ready]);
      if !SizesOk(PairOf(p)) then idle
      else
        var (register, reply) := V.AtomicPut(s.register, p.user, PairOf(p));
        idle.(register := register,
              acked := if reply == V.Stored && !replyLost then s.acked[(p.user, p.id) := p.password] else s.acked)
    case Crash(d) =>
      var p := PhaseOf(s, d);
      s.(sync := Next(s.sync, GiveUp(d)), phases := s.phases[d := Ready],
         late := if p.Sealing? && SizesOk(PairOf(p)) then s.late + {(p.user, PairOf(p))} else s.late)
    case Arrive(u, pair) => s.(register := V.AtomicPut(s.register, u, pair).0, late := s.late - {(u, pair)})
  }

  ghost predicate VaultRun(states: seq<State>, steps: seq<Step>) {
    && |states| == |steps| + 1
    && states[0] == INITIAL_STATE
    && forall i | 0 <= i < |steps| :: StepEnabled(states[i], steps[i]) && states[i + 1] == Then(states[i], steps[i])
  }

  // ----- Paths: steps one after the other from any state -----

  ghost predicate Path(s: State, steps: seq<Step>)
    decreases |steps|
  {
    steps == [] || (StepEnabled(s, steps[0]) && Path(Then(s, steps[0]), steps[1..]))
  }

  ghost function PathEnd(s: State, steps: seq<Step>): State
    requires Path(s, steps)
    decreases |steps|
  {
    if steps == [] then s else PathEnd(Then(s, steps[0]), steps[1..])
  }

  lemma {:induction false} PathAppend(s: State, a: seq<Step>, b: seq<Step>)
    requires Path(s, a) && Path(PathEnd(s, a), b)
    ensures Path(s, a + b) && PathEnd(s, a + b) == PathEnd(PathEnd(s, a), b)
    decreases |a|
  {
    if a == [] {
      assert a + b == b;
    } else {
      PathAppend(Then(s, a[0]), a[1..], b);
      assert (a + b)[1..] == a[1..] + b;
    }
  }

  lemma PathFurther(s: State, steps: seq<Step>, step: Step)
    requires Path(s, steps) && StepEnabled(PathEnd(s, steps), step)
    ensures Path(s, steps + [step]) && PathEnd(s, steps + [step]) == Then(PathEnd(s, steps), step)
  {
    assert [step][1..] == [];
    PathAppend(s, steps, [step]);
  }

  /** A path from the last state of a run makes a longer run. */
  lemma {:induction false} PathExtendsRun(states: seq<State>, steps: seq<Step>, more: seq<Step>)
    returns (all: seq<State>)
    requires VaultRun(states, steps) && Path(states[|steps|], more)
    ensures VaultRun(all, steps + more) && states <= all && all[|steps + more|] == PathEnd(states[|steps|], more)
    decreases |more|
  {
    if more == [] {
      all := states;
      assert steps + more == steps;
    } else {
      all := PathExtendsRun(states + [Then(states[|steps|], more[0])], steps + [more[0]], more[1..]);
      assert steps + [more[0]] + more[1..] == steps + more;
    }
  }

  // ----- Copies of an entry -----

  /** With a key, the copy opens under it; without, there must be no copy. */
  predicate Fits(e: Entry, key: Option<Key>) {
    key.Some? && Opens(e, key.value)
  }

  /**
   Every copy of the account's entry fits: on devices other than `apart`, on the server, and in
   requests and replies.
   */
  ghost predicate Copies(w: World, u: UserId, id: Uuid, apart: Option<DeviceId>, key: Option<Key>) {
    && (forall d | d in w.devices && apart != Some(d) && Holds(w.devices[d].rows, u, id) ::
        Fits(w.devices[d].rows[id].entry, key))
    && ((u, id) in w.table ==> Fits(w.table[(u, id)], key))
    && (forall r | r in w.flights && w.flights[r].user == u :: FlightFits(w.flights[r], id, key))
  }

  ghost predicate FlightFits(f: Flight, id: Uuid, key: Option<Key>) {
    && (forall e | e in f.batch && e.uuid == id :: Fits(e, key))
    && (f.stage.Answered? ==> forall e | e in f.stage.updates && e.uuid == id :: Fits(e, key))
  }

  /**
   The protocol only passes copies on. After any step every copy still fits, provided a save of this
   entry writes a fitting one and the device set apart does not send.
   */
  lemma StepPassesCopiesOn(w: World, l: Label, u: UserId, id: Uuid, apart: Option<DeviceId>, key: Option<Key>)
    requires Inv(w) && Enabled(w, l)
    requires Copies(w, u, id, apart, key)
    requires (l.Create? || l.Modify?) && l.user == u && l.entry.uuid == id ==>
        apart == Some(l.device) || Fits(l.entry, key)
    requires l.Send? ==> apart != Some(l.device)
    ensures Copies(Next(w, l), u, id, apart, key)
  {
    match l
    case Merge(r) => MergePassesOn(w, r, u, id, apart, key);
    case Keep(d) => KeepPassesOn(w, d, u, id, apart, key);
    case Answer(r, updates) => AnswerPassesOn(w, r, updates, u, id, apart, key);
    case Send(_, _, _, _, _) => SendPassesOn(w, l, u, id, apart, key);
    case Create(_, _, _) => SavePassesOn(w, l, u, id, apart, key);
    case Modify(_, _, _) => SavePassesOn(w, l, u, id, apart, key);
    case Join(_) =>
    case GiveUp(_) =>
  }

  lemma SavePassesOn(w: World, l: Label, u: UserId, id: Uuid, apart: Option<DeviceId>, key: Option<Key>)
    requires Enabled(w, l) && (l.Create? || l.Modify?)
    requires Copies(w, u, id, apart, key)
    requires l.user == u && l.entry.uuid == id ==> apart == Some(l.device) || Fits(l.entry, key)
    ensures Copies(Next(w, l), u, id, apart, key)
  {
  }

  lemma AnswerPassesOn(w: World, r: RequestId, updates: seq<Entry>, u: UserId, id: Uuid, apart: Option<DeviceId>,
                       key: Option<Key>)
    requires Enabled(w, Answer(r, updates)) && Copies(w, u, id, apart, key)
    ensures Copies(Next(w, Answer(r, updates)), u, id, apart, key)
  {
    assert w.flights[r].user == u ==> FlightFits(w.flights[r], id, key);
  }

  lemma SendPassesOn(w: World, l: Label, u: UserId, id: Uuid, apart: Option<DeviceId>, key: Option<Key>)
    requires Enabled(w, l) && l.Send? && apart != Some(l.device)
    requires Copies(w, u, id, apart, key)
    ensures Copies(Next(w, l), u, id, apart, key)
  {
    forall e | e in l.batch && e.uuid == id && l.user == u
      ensures Fits(e, key)
    {
      assert w.devices[l.device].rows[e.uuid] == Row(e, true, u);
    }
  }

  lemma MergePassesOn(w: World, r: RequestId, u: UserId, id: Uuid, apart: Option<DeviceId>, key: Option<Key>)
    requires Inv(w) && Enabled(w, Merge(r)) && Copies(w, u, id, apart, key)
    ensures Copies(Next(w, Merge(r)), u, id, apart, key)
  {
    var f := w.flights[r];
    assert FlightOk(w.table, w.owner, f);
    UpsertStoresFitting(w.table, f, u, id, key);
    forall q | q in w.flights && w.flights[q].user == u
      ensures FlightFits(Next(w, Merge(r)).flights[q], id, key)
    {
      assert FlightFits(w.flights[q], id, key);
    }
  }

  lemma UpsertStoresFitting(table: Table, f: Flight, u: UserId, id: Uuid, key: Option<Key>)
    requires DistinctIds(f.batch)
    requires f.user == u ==> FlightFits(f, id, key)
    requires (u, id) in table ==> Fits(table[(u, id)], key)
    ensures Upsert(table, f.user, f.batch).Done?
    ensures var t := Upsert(table, f.user, f.batch).table; (u, id) in t ==> Fits(t[(u, id)], key)
  {
    UpsertExact(table, f.user, f.batch);
    var t := Upsert(table, f.user, f.batch).table;
    if (u, id) in t && u == f.user && id in Ids(f.batch) {
      var e :| e in f.batch && e.uuid == id;
      assert t[(f.user, e.uuid)] == if Beats(table, f.user, e) then e else table[(f.user, e.uuid)];
    }
  }

  lemma KeepPassesOn(w: World, d: DeviceId, u: UserId, id: Uuid, apart: Option<DeviceId>, key: Option<Key>)
    requires Inv(w) && Enabled(w, Keep(d)) && Copies(w, u, id, apart, key)
    ensures Copies(Next(w, Keep(d)), u, id, apart, key)
  {
    var f := w.flights[w.devices[d].waiting.value];
    assert FlightOk(w.table, w.owner, f);
    if apart != Some(d) {
      KeptRowsFit(w.devices[d].rows, f, u, id, key);
    }
  }

  lemma KeptRowsFit(rows: Rows, f: Flight, u: UserId, id: Uuid, key: Option<Key>)
    requires f.stage.Answered? && DistinctIds(f.stage.updates)
    requires f.user == u ==> FlightFits(f, id, key)
    requires Holds(rows, u, id) ==> Fits(rows[id].entry, key)
    ensures Holds(Kept(rows, f), u, id) ==> Fits(Kept(rows, f)[id].entry, key)
  {
    PersistAt(rows, f.user, f.stage.updates, f.batch, IdSet(f.stage.applied));
    var kept := Kept(rows, f);
    if Holds(kept, u, id) && id in Ids(f.stage.updates) {
      var e :| e in f.stage.updates && e.uuid == id;
      assert kept[e.uuid] == Row(e, false, f.user);
    }
  }

  /** A uuid nobody has created has no copies. */
  lemma UncreatedHasNoCopies(w: World, u: UserId, id: Uuid)
    requires Inv(w) && id !in w.owner
    ensures Copies(w, u, id, None, None)
  {
    forall d | d in w.devices
      ensures !Holds(w.devices[d].rows, u, id)
    {
      assert DeviceOk(w, w.devices[d]);
    }
    forall r | r in w.flights && w.flights[r].user == u
      ensures FlightFits(w.flights[r], id, None)
    {
      assert FlightOk(w.table, w.owner, w.flights[r]);
    }
  }

  // ----- The invariant -----

  function KeyFor(password: string, c: LocalCrypto): Key {
    DeriveMasterKey(password, c.salt)
  }

  function RegisterCrypto(reg: V.Register, u: UserId): LocalCrypto
    requires u in reg
  {
    LocalCrypto(reg[u].salt, Some(reg[u].verifier))
  }

  /**
   Every copy of an acknowledged entry opens under its password with the register's salt, and that
   key passes the register's check.
   */
  ghost predicate AckOk(w: World, reg: V.Register, u: UserId, id: Uuid, password: string) {
    && id in w.owner && w.owner[id] == u
    && u in reg
    && var key := KeyFor(password, RegisterCrypto(reg, u));
       && CheckKey(RegisterCrypto(reg, u), password) == Ok(key)
       && Copies(w, u, id, None, Some(key))
  }

  /** An insertion under way: the device has the only copy, which opens under the key it will publish. */
  ghost predicate PendingOk(s: State, d: DeviceId, u: UserId, id: Uuid, c: LocalCrypto, password: string) {
    && Idle(s.sync, d)
    && Holds(s.sync.devices[d].rows, u, id)
    && Opens(s.sync.devices[d].rows[id].entry, KeyFor(password, c))
    && Copies(s.sync, u, id, Some(d), None)
    && id in s.sync.owner && s.sync.owner[id] == u
    && (u, id) !in s.acked
  }

  /** A fetched salt and verifier are the register's for as long as the device holds an acknowledged entry. */
  ghost predicate FetchedOk(s: State, d: DeviceId, u: UserId, c: LocalCrypto) {
    && Idle(s.sync, d)
    && forall id | (u, id) in s.acked && Holds(s.sync.devices[d].rows, u, id) ::
         u in s.register && c == RegisterCrypto(s.register, u)
  }

  ghost predicate PhaseOk(s: State, d: DeviceId) {
    match PhaseOf(s, d)
    case Ready => true
    case Fetched(u, c) => FetchedOk(s, d, u, c)
    case Saved(u, id, c, password) => PendingOk(s, d, u, id, c, password)
    case Sealing(u, id, c, password) => PendingOk(s, d, u, id, c, password)
  }

  ghost predicate VaultInv(s: State) {
    && Inv(s.sync)
    && (forall k | k in s.acked :: AckOk(s.sync, s.register, k.0, k.1, s.acked[k]))
    && (forall d | d in s.phases :: PhaseOk(s, d))
  }

  // ----- Each step keeps it -----

  /** A device in the middle of a vault command neither sends nor keeps. */
  lemma BusyDeviceUnmoved(s: State, l: Label, d: DeviceId)
    requires VaultInv(s) && StepEnabled(s, Network(l)) && !PhaseOf(s, d).Ready?
    ensures Idle(Next(s.sync, l), d) && Next(s.sync, l).devices[d].rows == s.sync.devices[d].rows
    ensures l.Send? ==> l.device != d
  {
    assert PhaseOk(s, d);
  }

  lemma NetworkKeeps(s: State, l: Label)
    requires VaultInv(s) && StepEnabled(s, Network(l))
    ensures VaultInv(Then(s, Network(l)))
  {
    var s' := Then(s, Network(l));
    StepKeepsInv(s.sync, l);
    forall k | k in s'.acked
      ensures AckOk(s'.sync, s'.register, k.0, k.1, s'.acked[k])
    {
      AckSurvives(s, l, k);
    }
    forall d | d in s'.phases
      ensures PhaseOk(s', d)
    {
      NetworkKeepsPhase(s, l, d);
    }
  }

  lemma NetworkKeepsPhase(s: State, l: Label, d: DeviceId)
    requires VaultInv(s) && StepEnabled(s, Network(l)) && d in s.phases
    ensures PhaseOk(Then(s, Network(l)), d)
  {
    assert PhaseOk(s, d);
    var p := PhaseOf(s, d);
    if !p.Ready? {
      BusyDeviceUnmoved(s, l, d);
    }
    if p.Saved? || p.Sealing? {
      StepPassesCopiesOn(s.sync, l, p.user, p.id, Some(d), None);
      OwnersStay(s.sync, l);
    }
  }

  lemma OwnersStay(w: World, l: Label)
    requires Enabled(w, l)
    ensures Extends(w.owner, Next(w, l).owner)
  {
  }

  /** A protocol step keeps an acknowledgement, provided a save of that entry opens under its key. */
  lemma AckSurvives(s: State, l: Label, k: (UserId, Uuid))
    requires VaultInv(s) && Enabled(s.sync, l) && k in s.acked
    requires (l.Create? || l.Modify?) && l.user == k.0 && l.entry.uuid == k.1 && k.0 in s.register ==>
               Opens(l.entry, KeyFor(s.acked[k], RegisterCrypto(s.register, k.0)))
    ensures AckOk(Next(s.sync, l), s.register, k.0, k.1, s.acked[k])
  {
    assert AckOk(s.sync, s.register, k.0, k.1, s.acked[k]);
    StepPassesCopiesOn(s.sync, l, k.0, k.1, None, Some(KeyFor(s.acked[k], RegisterCrypto(s.register, k.0))));
  }

  lemma FetchKeeps(s: State, step: Step)
    requires VaultInv(s) && StepEnabled(s, step) && step.Fetch?
    ensures VaultInv(Then(s, step))
  {
    var s' := Then(s, step);
    forall d | d in s'.phases
      ensures PhaseOk(s', d)
    {
      if d != step.device {
        assert PhaseOk(s, d);
      } else {
        forall id | (step.user, id) in s.acked
          ensures step.user in s.register
        {
          assert AckOk(s.sync, s.register, step.user, id, s.acked[(step.user, id)]);
        }
      }
    }
  }

  /** While an insertion is under way no other device holds the entry. */
  lemma PendingIsAlone(w: World, u: UserId, id: Uuid, apart: DeviceId, d: DeviceId)
    requires Copies(w, u, id, Some(apart), None) && d != apart && d in w.devices
    ensures !Holds(w.devices[d].rows, u, id)
  {
  }

  /** Other devices' commands are undisturbed by a save on `d` of an entry they are not inserting. */
  lemma SaveSparesOthers(s: State, l: Label, s': State, e: DeviceId)
    requires VaultInv(s) && Enabled(s.sync, l) && (l.Create? || l.Modify?) && e != l.device
    requires s'.sync == Next(s.sync, l) && s'.register == s.register && s'.acked == s.acked
    requires PhaseOf(s', e) == PhaseOf(s, e) && e in s.phases
    ensures PhaseOk(s', e)
  {
    assert PhaseOk(s, e);
    match PhaseOf(s, e)
    case Ready =>
    case Fetched(u, c) => SaveSparesFetched(s, l, s', e, u, c);
    case Saved(u, id, c, password) => SaveSparesPending(s, l, s', e, u, id, c, password);
    case Sealing(u, id, c, password) => SaveSparesPending(s, l, s', e, u, id, c, password);
  }

  lemma SaveSparesFetched(s: State, l: Label, s': State, e: DeviceId, u: UserId, c: LocalCrypto)
    requires FetchedOk(s, e, u, c)
    requires Enabled(s.sync, l) && (l.Create? || l.Modify?) && e != l.device
    requires s'.sync == Next(s.sync, l) && s'.register == s.register && s'.acked == s.acked
    ensures FetchedOk(s', e, u, c)
  {
  }

  lemma SaveSparesPending(s: State, l: Label, s': State, e: DeviceId, u: UserId, id: Uuid, c: LocalCrypto,
                          password: string)
    requires PendingOk(s, e, u, id, c, password)
    requires Enabled(s.sync, l) && (l.Create? || l.Modify?) && e != l.device
    requires s'.sync == Next(s.sync, l) && s'.acked == s.acked
    ensures PendingOk(s', e, u, id, c, password)
  {
    PendingIsAlone(s.sync, u, id, e, l.device);
    SavePassesOn(s.sync, l, u, id, Some(e), None);
  }

  lemma InsertKeeps(s: State, step: Step)
    requires VaultInv(s) && StepEnabled(s, step) && step.Insert?
    ensures VaultInv(Then(s, step))
  {
    var s', d, l, p := Then(s, step), step.device, SaveLabel(s, step).value, PhaseOf(s, step.device);
    StepKeepsInv(s.sync, l);
    forall k | k in s'.acked
      ensures AckOk(s'.sync, s'.register, k.0, k.1, s'.acked[k])
    {
      assert AckOk(s.sync, s.register, k.0, k.1, s.acked[k]);
      AckSurvives(s, l, k);
    }
    assert PhaseOk(s', d) by {
      UncreatedHasNoCopies(s.sync, p.user, step.id);
      assert Copies(s.sync, p.user, step.id, Some(d), None);
      StepPassesCopiesOn(s.sync, l, p.user, step.id, Some(d), None);
      var key := KeyFor(step.password, p.crypto);
      SealThenOpen(Blank(step.id, step.typ), step.plaintext, step.meta, key, step.draws, step.now, key);
      forall k | k in s.acked
        ensures k.1 in s.sync.owner
      {
        assert AckOk(s.sync, s.register, k.0, k.1, s.acked[k]);
      }
    }
    forall e | e in s'.phases
      ensures PhaseOk(s', e)
    {
      if e != d {
        SaveSparesOthers(s, l, s', e);
      }
    }
  }

  /** A change of an acknowledged entry is made under the register's key: the check leaves no other. */
  lemma UpdateUsesRegisterKey(s: State, step: Step)
    requires VaultInv(s) && StepEnabled(s, step) && step.Update?
    requires (PhaseOf(s, step.device).user, step.id) in s.acked
    ensures var l, u := SaveLabel(s, step).value, PhaseOf(s, step.device).user;
            u in s.register && Opens(l.entry, KeyFor(s.acked[(u, step.id)], RegisterCrypto(s.register, u)))
  {
    var p, d := PhaseOf(s, step.device), step.device;
    var u, password := p.user, s.acked[(p.user, step.id)];
    assert PhaseOk(s, d);
    assert AckOk(s.sync, s.register, u, step.id, password);
    var key := KeyFor(password, RegisterCrypto(s.register, u));
    assert CheckKey(p.crypto, step.password) == Ok(key);
    var e := s.sync.devices[d].rows[step.id].entry;
    assert Fits(e, Some(key));
    match step.edit
    case Content(typ, meta, plaintext) =>
      ChangesKeepTheKey(e, key, typ, meta, plaintext, None, 0, step.draws, step.now);
    case File(meta, replacement, max) =>
      ChangesKeepTheKey(e, key, "", meta, [], replacement, max, step.draws, step.now);
    case Delete =>
      ChangesKeepTheKey(e, key, "", Metadata("", "", "", None), [], None, 0, step.draws, step.now);
  }

  lemma UpdateKeeps(s: State, step: Step)
    requires VaultInv(s) && StepEnabled(s, step) && step.Update?
    ensures VaultInv(Then(s, step))
  {
    var s', l, p := Then(s, step), SaveLabel(s, step).value, PhaseOf(s, step.device);
    assert l.user == p.user && l.entry.uuid == step.id by {
      assert DeviceOk(s.sync, s.sync.devices[step.device]);
    }
    StepKeepsInv(s.sync, l);
    forall k | k in s'.acked
      ensures AckOk(s'.sync, s'.register, k.0, k.1, s'.acked[k])
    {
      if k == (p.user, step.id) {
        UpdateUsesRegisterKey(s, step);
      }
      AckSurvives(s, l, k);
    }
    forall e | e in s'.phases
      ensures PhaseOk(s', e)
    {
      if e != step.device {
        SaveSparesOthers(s, l, s', e);
      }
    }
  }

  lemma SetVerifierKeeps(s: State, step: Step)
    requires VaultInv(s) && StepEnabled(s, step) && step.SetVerifier?
    ensures VaultInv(Then(s, step))
  {
    var s' := Then(s, step);
    forall d | d in s'.phases
      ensures PhaseOk(s', d)
    {
      SetVerifierKeepsPhase(s, step, d);
    }
  }

  lemma SetVerifierKeepsPhase(s: State, step: Step, d: DeviceId)
    requires VaultInv(s) && StepEnabled(s, step) && step.SetVerifier? && d in Then(s, step).phases
    ensures PhaseOk(Then(s, step), d)
  {
    assert d in s.phases && PhaseOk(s, d);
  }

  /** The publishing device's entry is acknowledged only with its own pair in the register. */
  lemma PublishKeepsAcks(s: State, step: Step, k: (UserId, Uuid))
    requires VaultInv(s) && StepEnabled(s, step) && step.Publish? && k in Then(s, step).acked
    ensures var s' := Then(s, step); AckOk(s'.sync, s'.register, k.0, k.1, s'.acked[k])
  {
    var p := PhaseOf(s, step.device);
    PublishHasEffect(s, step);
    if k in s.acked {
      assert PhaseOk(s, step.device);
      AckOkKeeps(s.sync, s.register, Then(s, step).register, k.0, k.1, s.acked[k]);
    } else {
      PendingBecomesAcked(s, step.device);
    }
  }

  /** An acknowledgement depends on the register only at its own account. */
  lemma AckOkKeeps(w: World, reg: V.Register, reg': V.Register, u: UserId, id: Uuid, password: string)
    requires AckOk(w, reg, u, id, password)
    requires forall x | x in reg :: x in reg' && reg'[x] == reg[x]
    ensures AckOk(w, reg', u, id, password)
  {
  }

  lemma PublishKeepsPhases(s: State, step: Step, e: DeviceId)
    requires VaultInv(s) && StepEnabled(s, step) && step.Publish? && e in Then(s, step).phases
    ensures PhaseOk(Then(s, step), e)
  {
    var d, p := step.device, PhaseOf(s, step.device);
    PublishHasEffect(s, step);
    assert PhaseOk(s, d);
    if e != d {
      assert PhaseOk(s, e);
      if !PhaseOf(s, e).Ready? {
        PendingIsAlone(s.sync, p.user, p.id, d, e);
      }
      PublishSparesOthers(s, Then(s, step), d, (p.user, p.id), e);
    }
  }

  lemma PublishKeeps(s: State, step: Step)
    requires VaultInv(s) && StepEnabled(s, step) && step.Publish?
    ensures VaultInv(Then(s, step))
  {
    var s' := Then(s, step);
    forall k | k in s'.acked
      ensures AckOk(s'.sync, s'.register, k.0, k.1, s'.acked[k])
    {
      PublishKeepsAcks(s, step, k);
    }
    forall e | e in s'.phases
      ensures PhaseOk(s', e)
    {
      PublishKeepsPhases(s, step, e);
    }
  }

  /** When a device has the only copy, all copies open under the key that opens it. */
  lemma OnlyCopyDecides(w: World, u: UserId, id: Uuid, d: DeviceId, key: Key)
    requires Copies(w, u, id, Some(d), None)
    requires d in w.devices && Holds(w.devices[d].rows, u, id) && Opens(w.devices[d].rows[id].entry, key)
    ensures Copies(w, u, id, None, Some(key))
  {
    forall e | e in w.devices && e != d
      ensures !Holds(w.devices[e].rows, u, id)
    {
      PendingIsAlone(w, u, id, d, e);
    }
    forall r | r in w.flights && w.flights[r].user == u
      ensures FlightFits(w.flights[r], id, Some(key))
    {
      assert FlightFits(w.flights[r], id, None);
    }
  }

  lemma PendingBecomesAcked(s: State, d: DeviceId)
    requires VaultInv(s) && PhaseOf(s, d).Sealing?
    requires V.AtomicPut(s.register, PhaseOf(s, d).user, PairOf(PhaseOf(s, d))).1 == V.Stored
    ensures var p := PhaseOf(s, d);
            AckOk(s.sync, V.AtomicPut(s.register, p.user, PairOf(p)).0, p.user, p.id, p.password)
  {
    var p := PhaseOf(s, d);
    assert PhaseOk(s, d);
    var reg := V.AtomicPut(s.register, p.user, PairOf(p)).0;
    assert reg[p.user] == PairOf(p);
    OnlyCopyDecides(s.sync, p.user, p.id, d, KeyFor(p.password, p.crypto));
  }

  /** Publishing touches only the register, the acknowledgement of its own entry, and its own phase. */
  ghost predicate PublishEffect(s: State, s': State, d: DeviceId, k: (UserId, Uuid)) {
    && s'.sync == s.sync
    && (forall u | u in s.register :: u in s'.register && s'.register[u] == s.register[u])
    && (forall x | x in s'.acked :: x == k || x in s.acked)
    && (forall x | x in s.acked && x != k :: x in s'.acked && s'.acked[x] == s.acked[x])
    && (forall e | e != d :: PhaseOf(s', e) == PhaseOf(s, e))
  }

  lemma PublishHasEffect(s: State, step: Step)
    requires StepEnabled(s, step) && step.Publish?
    ensures PublishEffect(s, Then(s, step), step.device, (PhaseOf(s, step.device).user, PhaseOf(s, step.device).id))
  {
  }

  lemma PublishSparesOthers(s: State, s': State, d: DeviceId, k: (UserId, Uuid), e: DeviceId)
    requires PublishEffect(s, s', d, k) && e != d && PhaseOk(s, e)
    requires !PhaseOf(s, e).Ready? ==> e in s.sync.devices && !Holds(s.sync.devices[e].rows, k.0, k.1)
    ensures PhaseOk(s', e)
  {
  }

  lemma CrashKeeps(s: State, step: Step)
    requires VaultInv(s) && StepEnabled(s, step) && step.Crash?
    ensures VaultInv(Then(s, step))
  {
    var s', l := Then(s, step), GiveUp(step.device);
    StepKeepsInv(s.sync, l);
    forall k | k in s'.acked
      ensures AckOk(s'.sync, s'.register, k.0, k.1, s'.acked[k])
    {
      AckSurvives(s, l, k);
    }
    forall d | d in s'.phases
      ensures PhaseOk(s', d)
    {
      if d != step.device {
        CrashSparesOthers(s, step, d);
      }
    }
  }

  lemma CrashSparesOthers(s: State, step: Step, d: DeviceId)
    requires VaultInv(s) && StepEnabled(s, step) && step.Crash? && d != step.device && d in s.phases
    ensures PhaseOk(Then(s, step), d)
  {
    assert PhaseOk(s, d);
    var p := PhaseOf(s, d);
    if p.Saved? || p.Sealing? {
      StepPassesCopiesOn(s.sync, GiveUp(step.device), p.user, p.id, Some(d), None);
    }
  }

  lemma StepKeepsVaultInv(s: State, step: Step)
    requires VaultInv(s) && StepEnabled(s, step)
    ensures VaultInv(Then(s, step))
  {
    match step
    case Network(l) => NetworkKeeps(s, l);
    case Fetch(_, _, _) => FetchKeeps(s, step);
    case Insert(_, _, _, _, _, _, _, _) => InsertKeeps(s, step);
    case Update(_, _, _, _, _, _) => UpdateKeeps(s, step);
    case SetVerifier(_) => SetVerifierKeeps(s, step);
    case Publish(_, _) => PublishKeeps(s, step);
    case Crash(_) => CrashKeeps(s, step);
    case Arrive(_, _) => ArriveKeeps(s, step);
  }

  /** A put that arrives after its device gave up on it: without it there was nothing to disagree with. */
  lemma ArriveKeeps(s: State, step: Step)
    requires VaultInv(s) && StepEnabled(s, step) && step.Arrive?
    ensures VaultInv(Then(s, step))
  {
    var s' := Then(s, step);
    forall k | k in s'.acked
      ensures AckOk(s'.sync, s'.register, k.0, k.1, s'.acked[k])
    {
      AckOkKeeps(s.sync, s.register, s'.register, k.0, k.1, s.acked[k]);
    }
    forall d | d in s'.phases
      ensures PhaseOk(s', d)
    {
      ArriveKeepsPhase(s, step, d);
    }
  }

  lemma ArriveKeepsPhase(s: State, step: Step, d: DeviceId)
    requires VaultInv(s) && StepEnabled(s, step) && step.Arrive? && d in s.phases
    ensures PhaseOk(Then(s, step), d)
  {
    assert PhaseOk(s, d);
  }

  lemma {:induction false} PathKeepsVaultInv(s: State, steps: seq<Step>)
    requires VaultInv(s) && Path(s, steps)
    ensures VaultInv(PathEnd(s, steps))
    decreases |steps|
  {
    if steps == [] {
    } else {
      StepKeepsVaultInv(s, steps[0]);
      PathKeepsVaultInv(Then(s, steps[0]), steps[1..]);
    }
  }

  lemma StepOnlyAdds(s: State, step: Step)
    requires StepEnabled(s, step) && (step.Publish? ==> PhaseOk(s, step.device))
    ensures forall k | k in s.acked :: k in Then(s, step).acked && Then(s, step).acked[k] == s.acked[k]
    ensures forall u | u in s.register :: u in Then(s, step).register && Then(s, step).register[u] == s.register[u]
  {
  }

  lemma {:induction false} VaultRunKeepsInv(states: seq<State>, steps: seq<Step>, i: nat)
    requires VaultRun(states, steps) && i < |states|
    ensures VaultInv(states[i])
  {
    if i == 0 {
    } else {
      VaultRunKeepsInv(states, steps, i - 1);
      StepKeepsVaultInv(states[i - 1], steps[i - 1]);
    }
  }

  lemma {:induction false} AcksAndRegisterStay(states: seq<State>, steps: seq<Step>, i: nat, j: nat)
    requires VaultRun(states, steps) && i <= j < |states|
    ensures forall k | k in states[i].acked :: k in states[j].acked && states[j].acked[k] == states[i].acked[k]
    ensures forall u | u in states[i].register ::
        u in states[j].register && states[j].register[u] == states[i].register[u]
  {
    if i == j {
    } else {
      AcksAndRegisterStay(states, steps, i, j - 1);
      VaultRunKeepsInv(states, steps, j - 1);
      if steps[j - 1].Publish? {
        assert PhaseOk(states[j - 1], steps[j - 1].device);
      }
      StepOnlyAdds(states[j - 1], steps[j - 1]);
    }
  }

  /**
   Once an insertion has returned success, in every later state of every run: the register still has
   the pair it had then; the insertion's password passes the register's check; and every copy of the
   entry, on every device, on the server, and in every request and reply, opens under the resulting
   key, whatever was updated, deleted, synced, lost or raced in between.
   */
  lemma AcknowledgedStaysDecryptable(states: seq<State>, steps: seq<Step>, i: nat, j: nat, u: UserId, id: Uuid)
    requires VaultRun(states, steps) && i <= j < |states| && (u, id) in states[i].acked
    ensures u in states[i].register && u in states[j].register && states[j].register[u] == states[i].register[u]
    ensures var pair := states[j].register[u];
            var key := DeriveMasterKey(states[i].acked[(u, id)], pair.salt);
            && MasterKeyVerifier(key) == pair.verifier
            && Copies(states[j].sync, u, id, None, Some(key))
  {
    VaultRunKeepsInv(states, steps, i);
    VaultRunKeepsInv(states, steps, j);
    AcksAndRegisterStay(states, steps, i, j);
    assert AckOk(states[i].sync, states[i].register, u, id, states[i].acked[(u, id)]);
    assert AckOk(states[j].sync, states[j].register, u, id, states[j].acked[(u, id)]);
  }

  /** Any device that fetches the vault afterwards and holds the entry can read it with that password. */
  lemma AcknowledgedIsReadable(states: seq<State>, steps: seq<Step>, i: nat, j: nat, u: UserId, id: Uuid, d: DeviceId,
                               newSalt: seq<Byte>)
    requires VaultRun(states, steps) && i <= j < |states| && (u, id) in states[i].acked
    requires d in states[j].sync.devices && Holds(states[j].sync.devices[d].rows, u, id)
    ensures var c, password := FetchedCrypto(states[j], d, u, newSalt), states[i].acked[(u, id)];
            CheckKey(c, password).Ok? && Opens(states[j].sync.devices[d].rows[id].entry, CheckKey(c, password).value)
  {
    AcknowledgedStaysDecryptable(states, steps, i, j, u, id);
  }

  // ----- Saved entries, acknowledged or not -----

  /** Some password that the register's check accepts opens the entry. */
  ghost predicate Readable(reg: V.Register, u: UserId, e: Entry) {
    && u in reg
    && exists password ::
        CheckKey(RegisterCrypto(reg, u), password).Ok? && Opens(e, KeyFor(password, RegisterCrypto(reg, u)))
  }

  ghost predicate InFlight(f: Flight, id: Uuid, e: Entry) {
    e.uuid == id && (e in f.batch || (f.stage.Answered? && e in f.stage.updates))
  }

  /** A copy of the account's entry: on some device, on the server, or in a request or reply. */
  ghost predicate IsCopy(w: World, u: UserId, id: Uuid, e: Entry) {
    || (exists d | d in w.devices :: Holds(w.devices[d].rows, u, id) && w.devices[d].rows[id].entry == e)
    || ((u, id) in w.table && w.table[(u, id)] == e)
    || (exists r | r in w.flights :: w.flights[r].user == u && InFlight(w.flights[r], id, e))
  }

  /** An entry that opens under a key is readable exactly if the register has that key's pair. */
  lemma ReadableIff(reg: V.Register, u: UserId, e: Entry, c: LocalCrypto, password: string)
    requires Opens(e, KeyFor(password, c))
    ensures Readable(reg, u, e) <==> u in reg && reg[u] == OwnPair(c, password)
  {
    if u in reg && reg[u] == OwnPair(c, password) {
      assert CheckKey(RegisterCrypto(reg, u), password).Ok?;
    }
    if Readable(reg, u, e) {
      var other :| CheckKey(RegisterCrypto(reg, u), other).Ok? && Opens(e, KeyFor(other, RegisterCrypto(reg, u)));
      assert KeyFor(other, RegisterCrypto(reg, u)) == KeyFor(password, c);
    }
  }

  /** Every change leaves an entry under the key that sealed it, whatever key the change was made with. */
  lemma EditsKeepTheKey(e: Entry, key: Key, edit: Edit, other: Key, draws: Draws, now: Time)
    requires Opens(e, key) && Edited(e, edit, other, draws, now).Ok?
    ensures Opens(Edited(e, edit, other, draws, now).value, key)
  {
  }

  /** The entry is the account's, all its copies open under the key, and the device has one. */
  ghost predicate SealedFor(s: State, d: DeviceId, u: UserId, id: Uuid, key: Key) {
    && id in s.sync.owner && s.sync.owner[id] == u
    && Copies(s.sync, u, id, None, Some(key))
    && d in s.sync.devices && Holds(s.sync.devices[d].rows, u, id)
  }

  lemma InsertSeals(s: State, step: Step)
    requires VaultInv(s) && StepEnabled(s, step) && step.Insert?
    ensures var p := PhaseOf(s, step.device);
            p.Fetched? && SealedFor(Then(s, step), step.device, p.user, step.id, KeyFor(step.password, p.crypto))
  {
    var p, s' := PhaseOf(s, step.device), Then(s, step);
    InsertKeeps(s, step);
    assert PhaseOk(s', step.device);
    var key := KeyFor(step.password, p.crypto);
    OnlyCopyDecides(s'.sync, p.user, step.id, step.device, key);
  }

  lemma LabelKeepsSealed(w: World, l: Label, d: DeviceId, u: UserId, id: Uuid, key: Key)
    requires Inv(w) && Enabled(w, l)
    requires id in w.owner && w.owner[id] == u && Copies(w, u, id, None, Some(key))
    requires d in w.devices && Holds(w.devices[d].rows, u, id)
    requires (l.Create? || l.Modify?) && l.user == u && l.entry.uuid == id ==> Opens(l.entry, key)
    ensures var w' := Next(w, l);
            && id in w'.owner && w'.owner[id] == u && Copies(w', u, id, None, Some(key))
            && d in w'.devices && Holds(w'.devices[d].rows, u, id)
  {
    StepPassesCopiesOn(w, l, u, id, None, Some(key));
    OwnersStay(w, l);
    assert DeviceOk(w, w.devices[d]);
    if l == Keep(d) {
      KeptAt(w, w.devices[d], w.flights[w.devices[d].waiting.value], id);
    }
  }

  lemma StepKeepsSealed(s: State, step: Step, d: DeviceId, u: UserId, id: Uuid, key: Key)
    requires VaultInv(s) && StepEnabled(s, step) && SealedFor(s, d, u, id, key)
    ensures SealedFor(Then(s, step), d, u, id, key)
  {
    match step
    case Network(l) => LabelKeepsSealed(s.sync, l, d, u, id, key);
    case Insert(_, _, _, _, _, _, _, _) => InsertKeepsSealed(s, step, d, u, id, key);
    case Update(_, _, _, _, _, _) => UpdateKeepsSealed(s, step, d, u, id, key);
    case Crash(_) => CrashKeepsSealed(s, step, d, u, id, key);
    case Fetch(_, _, _) => assert Then(s, step).sync == s.sync;
    case SetVerifier(_) => assert Then(s, step).sync == s.sync;
    case Publish(_, _) => assert Then(s, step).sync == s.sync;
    case Arrive(_, _) => assert Then(s, step).sync == s.sync;
  }

  lemma CrashKeepsSealed(s: State, step: Step, d: DeviceId, u: UserId, id: Uuid, key: Key)
    requires VaultInv(s) && StepEnabled(s, step) && step.Crash? && SealedFor(s, d, u, id, key)
    ensures SealedFor(Then(s, step), d, u, id, key)
  {
    LabelKeepsSealed(s.sync, GiveUp(step.device), d, u, id, key);
  }

  lemma InsertKeepsSealed(s: State, step: Step, d: DeviceId, u: UserId, id: Uuid, key: Key)
    requires VaultInv(s) && StepEnabled(s, step) && step.Insert? && SealedFor(s, d, u, id, key)
    ensures SealedFor(Then(s, step), d, u, id, key)
  {
    LabelKeepsSealed(s.sync, SaveLabel(s, step).value, d, u, id, key);
  }

  /** A change of the entry leaves it under its key. */
  lemma UpdateIsSealed(s: State, step: Step, u: UserId, id: Uuid, key: Key)
    requires Inv(s.sync) && StepEnabled(s, step) && step.Update? && Copies(s.sync, u, id, None, Some(key))
    requires PhaseOf(s, step.device).user == u && step.id == id
    ensures Opens(SaveLabel(s, step).value.entry, key)
  {
    var p, rows := PhaseOf(s, step.device), s.sync.devices[step.device].rows;
    assert Fits(rows[id].entry, Some(key));
    EditsKeepTheKey(rows[id].entry, key, step.edit, CheckKey(p.crypto, step.password).value, step.draws, step.now);
  }

  lemma UpdateKeepsSealed(s: State, step: Step, d: DeviceId, u: UserId, id: Uuid, key: Key)
    requires VaultInv(s) && StepEnabled(s, step) && step.Update? && SealedFor(s, d, u, id, key)
    ensures SealedFor(Then(s, step), d, u, id, key)
  {
    assert DeviceOk(s.sync, s.sync.devices[step.device]);
    if PhaseOf(s, step.device).user == u && step.id == id {
      UpdateIsSealed(s, step, u, id, key);
    }
    LabelKeepsSealed(s.sync, SaveLabel(s, step).value, d, u, id, key);
  }

  lemma {:induction false} SealedAtLater(states: seq<State>, steps: seq<Step>, i: nat, j: nat)
    requires VaultRun(states, steps) && i < j < |states| && steps[i].Insert?
    ensures var p := PhaseOf(states[i], steps[i].device);
            && p.Fetched?
            && SealedFor(states[j], steps[i].device, p.user, steps[i].id, KeyFor(steps[i].password, p.crypto))
  {
    VaultRunKeepsInv(states, steps, j - 1);
    if j == i + 1 {
      InsertSeals(states[i], steps[i]);
    } else {
      SealedAtLater(states, steps, i, j - 1);
      var p := PhaseOf(states[i], steps[i].device);
      StepKeepsSealed(states[j - 1], steps[j - 1], steps[i].device, p.user, steps[i].id,
          KeyFor(steps[i].password, p.crypto));
    }
  }

  /**
   What decides whether a saved entry can be read. For every insertion that saved its entry, whether
   it published, crashed, lost its reply or lost a race, in every later state: its device still holds
   the entry, and any copy of it anywhere opens under some password that the register's check accepts
   if and only if the register has this insertion's own pair.
   */
  lemma SavedIsReadableIff(states: seq<State>, steps: seq<Step>, i: nat, j: nat)
    requires VaultRun(states, steps) && i < j < |states| && steps[i].Insert?
    ensures PhaseOf(states[i], steps[i].device).Fetched?
    ensures var p, d, id := PhaseOf(states[i], steps[i].device), steps[i].device, steps[i].id;
            var w, reg, pair := states[j].sync, states[j].register, OwnPair(p.crypto, steps[i].password);
            && d in w.devices && Holds(w.devices[d].rows, p.user, id)
            && forall e | IsCopy(w, p.user, id, e) :: Readable(reg, p.user, e) <==> p.user in reg && reg[p.user] == pair
  {
    SealedAtLater(states, steps, i, j);
    var p := PhaseOf(states[i], steps[i].device);
    forall e | IsCopy(states[j].sync, p.user, steps[i].id, e)
      ensures Readable(states[j].register, p.user, e)
         <==> p.user in states[j].register && states[j].register[p.user] == OwnPair(p.crypto, steps[i].password)
    {
      CopyOpens(states[j].sync, p.user, steps[i].id, e, KeyFor(steps[i].password, p.crypto));
      ReadableIff(states[j].register, p.user, e, p.crypto, steps[i].password);
    }
  }

  lemma CopyOpens(w: World, u: UserId, id: Uuid, e: Entry, key: Key)
    requires Copies(w, u, id, None, Some(key)) && IsCopy(w, u, id, e)
    ensures Opens(e, key)
  {
    if r :| r in w.flights && w.flights[r].user == u && InFlight(w.flights[r], id, e) {
      assert FlightFits(w.flights[r], id, Some(key));
      assert Fits(e, Some(key));
    } else if d :| d in w.devices && Holds(w.devices[d].rows, u, id) && w.devices[d].rows[id].entry == e {
      assert Fits(w.devices[d].rows[id].entry, Some(key));
    }
  }

  // ----- What a publication decides -----

  /** All pairs the server has stored, or may still be sent, have the right sizes. */
  ghost predicate PairsHaveSizes(s: State) {
    && (forall u | u in s.register :: SizesOk(s.register[u]))
    && (forall k | k in s.late :: SizesOk(k.1))
  }

  lemma StepKeepsSizes(s: State, step: Step)
    requires StepEnabled(s, step) && PairsHaveSizes(s)
    ensures PairsHaveSizes(Then(s, step))
  {
    match step
    case Publish(_, _) =>
    case Crash(_) =>
    case Arrive(_, _) => assert SizesOk((step.user, step.pair).1);
    case _ => assert Then(s, step).register == s.register && Then(s, step).late == s.late;
  }

  lemma {:induction false} RegisterHasSizes(states: seq<State>, steps: seq<Step>, i: nat)
    requires VaultRun(states, steps) && i < |states|
    ensures PairsHaveSizes(states[i])
  {
    if i == 0 {
    } else {
      RegisterHasSizes(states, steps, i - 1);
      StepKeepsSizes(states[i - 1], steps[i - 1]);
    }
  }

  /** A publishing device's insertion happened before, with the same salt and password. */
  lemma {:induction false} PublisherInserted(states: seq<State>, steps: seq<Step>, i: nat, d: DeviceId) returns (k: nat)
    requires VaultRun(states, steps) && i < |states|
    requires PhaseOf(states[i], d).Saved? || PhaseOf(states[i], d).Sealing?
    ensures var p := PhaseOf(states[i], d);
            && k < i
            && steps[k].Insert? && steps[k].device == d && steps[k].id == p.id && steps[k].password == p.password
            && PhaseOf(states[k], d) == Fetched(p.user, p.crypto)
  {
    assert i > 0 && StepEnabled(states[i - 1], steps[i - 1]) && states[i] == Then(states[i - 1], steps[i - 1]);
    PhaseComesFrom(states[i - 1], steps[i - 1], d);
    if steps[i - 1].Insert? && steps[i - 1].device == d {
      k := i - 1;
    } else {
      k := PublisherInserted(states, steps, i - 1, d);
    }
  }

  /** A device comes to be inserting by an Insert step, and its insertion stays the same until published. */
  lemma PhaseComesFrom(s: State, step: Step, d: DeviceId)
    requires StepEnabled(s, step)
    ensures var p, p' := PhaseOf(s, d), PhaseOf(Then(s, step), d);
            p'.Saved? || p'.Sealing? ==>
              if step.Insert? && step.device == d then
                step.id == p'.id && step.password == p'.password && p == Fetched(p'.user, p'.crypto)
              else
                && (p.Saved? || p.Sealing?)
                && p.user == p'.user && p.id == p'.id && p.crypto == p'.crypto && p.password == p'.password
  {
  }

  /**
   Publishing decides the entry's fate for good. In every later state every copy of the entry is
   readable, with a password the register's check accepts, if and only if the pair had the right
   sizes and no other pair was registered before; whether the reply arrived does not matter. The
   insertion is acknowledged exactly if, besides, the reply arrived.
   */
  lemma PublishDecides(states: seq<State>, steps: seq<Step>, i: nat, j: nat)
    requires VaultRun(states, steps) && i < j < |states| && steps[i].Publish?
    ensures PhaseOf(states[i], steps[i].device).Sealing?
    ensures var p, d := PhaseOf(states[i], steps[i].device), steps[i].device;
            var wins := SizesOk(PairOf(p))
                && (p.user in states[i].register ==> states[i].register[p.user] == PairOf(p));
            var w, reg := states[j].sync, states[j].register;
            && d in w.devices && Holds(w.devices[d].rows, p.user, p.id)
            && (forall e | IsCopy(w, p.user, p.id, e) :: Readable(reg, p.user, e) <==> wins)
            && ((p.user, p.id) in states[i + 1].acked <==> wins && !steps[i].replyLost)
  {
    var p, d := PhaseOf(states[i], steps[i].device), steps[i].device;
    var k := PublisherInserted(states, steps, i, d);
    SavedIsReadableIff(states, steps, k, j);
    assert OwnPair(p.crypto, p.password) == PairOf(p);
    RegisterAfterPublish(states, steps, i, j);
    VaultRunKeepsInv(states, steps, i);
    assert PhaseOk(states[i], d);
  }

  lemma RegisterAfterPublish(states: seq<State>, steps: seq<Step>, i: nat, j: nat)
    requires VaultRun(states, steps) && i < j < |states| && steps[i].Publish?
    ensures var p, reg := PhaseOf(states[i], steps[i].device), states[j].register;
            p.Sealing?
            && ((p.user in reg && reg[p.user] == PairOf(p))
                <==> SizesOk(PairOf(p)) && (p.user in states[i].register ==> states[i].register[p.user] == PairOf(p)))
  {
    var p := PhaseOf(states[i], steps[i].device);
    AcksAndRegisterStay(states, steps, i + 1, j);
    RegisterHasSizes(states, steps, j);
  }

  /**
   The loser of a race to initialise a vault is stranded. When the register already has another
   pair, then in every later state its device still holds the entry, the insertion is never
   acknowledged, and no password that the register's check accepts opens any copy.
   */
  lemma LosingPublisherIsStranded(states: seq<State>, steps: seq<Step>, i: nat, j: nat)
    requires VaultRun(states, steps) && i < j < |states| && steps[i].Publish?
    requires var p := PhaseOf(states[i], steps[i].device);
             p.user in states[i].register && states[i].register[p.user] != PairOf(p)
    ensures var p, d, w := PhaseOf(states[i], steps[i].device), steps[i].device, states[j].sync;
            && d in w.devices && Holds(w.devices[d].rows, p.user, p.id)
            && (p.user, p.id) !in states[j].acked
            && forall e | IsCopy(w, p.user, p.id, e) :: !Readable(states[j].register, p.user, e)
  {
    PublishDecides(states, steps, i, j);
    var p, d, w := PhaseOf(states[i], steps[i].device), steps[i].device, states[j].sync;
    if (p.user, p.id) in states[j].acked {
      AcknowledgedStaysDecryptable(states, steps, j, j, p.user, p.id);
      var e, password := w.devices[d].rows[p.id].entry, states[j].acked[(p.user, p.id)];
      assert Fits(e, Some(DeriveMasterKey(password, states[j].register[p.user].salt)));
      assert CheckKey(RegisterCrypto(states[j].register, p.user), password).Ok?;
      assert IsCopy(w, p.user, p.id, e);
      assert false;
    }
  }
}
