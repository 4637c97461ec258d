/**
 The sync protocol as a state machine over one server, any number of devices and any number of
 accounts. The server's upsert and its read are separate steps, so other devices' pushes can fall
 between them. A request lives on after its device has given up on it, so a lost reply, a crash of
 the client in mid-sync and a request that is served late are all covered.

 The cursor of a request is arbitrary: the results here do not depend on it.
 */
module SyncProtocol {
  import opened Basics
  import opened Entries
  import opened ServerTable
  import opened LocalRows

  type RequestId = nat

  datatype Stage =
    | Sent
    | Merged(applied: seq<Uuid>)
    | Answered(applied: seq<Uuid>, updates: seq<Entry>)

  datatype Flight = Flight(user: UserId, batch: seq<Entry>, cursor: Time, stage: Stage)

  /** `waiting` is the request the device is blocked on; one command runs at a time. */
  datatype Device = Device(rows: Rows, waiting: Option<RequestId>)

  /** One saved change: which device wrote which version of which entry. */
  datatype Change = Change(device: DeviceId, user: UserId, uuid: Uuid, version: int)

  /** `owner` and `changes` record history: who created each uuid, and every change ever saved. */
  datatype World = World(
    table: Table,
    devices: map<DeviceId, Device>,
    flights: map<RequestId, Flight>,
    owner: map<Uuid, UserId>,
    changes: set<Change>)

  datatype Label =
    | Join(device: DeviceId)
    | Create(device: DeviceId, user: UserId, entry: Entry)
    | Modify(device: DeviceId, user: UserId, entry: Entry)
    | Send(device: DeviceId, user: UserId, request: RequestId, batch: seq<Entry>, cursor: Time)
    | Merge(request: RequestId)
    | Answer(request: RequestId, updates: seq<Entry>)
    | Keep(device: DeviceId)
    | GiveUp(device: DeviceId)

  const INITIAL: World := World(map[], map[], map[], map[], {})

  predicate Idle(w: World, d: DeviceId) {
    d in w.devices && w.devices[d].waiting == None
  }

  predicate Holds(rows: Rows, user: UserId, id: Uuid) {
    id in rows && rows[id].user == user
  }

  ghost predicate Enabled(w: World, l: Label) {
    match l
    case Join(d) => d !in w.devices
    case Create(d, u, e) => Idle(w, d) && e.uuid !in w.owner && e.version == 1
    case Modify(d, u, e) =>
      && Idle(w, d) && Holds(w.devices[d].rows, u, e.uuid)
      && e.version == w.devices[d].rows[e.uuid].entry.version + 1
    case Send(d, u, r, batch, _) => Idle(w, d) && r !in w.flights && IsDirtyList(w.devices[d].rows, u, batch)
    case Merge(r) =>
      && r in w.flights && w.flights[r].stage.Sent?
      && Upsert(w.table, w.flights[r].user, w.flights[r].batch).Done?
    case Answer(r, updates) =>
      && r in w.flights && w.flights[r].stage.Merged?
      && IsAnswer(w.table, w.flights[r].user, w.flights[r].cursor, updates)
    case Keep(d) =>
      && d in w.devices && w.devices[d].waiting.Some?
      && w.devices[d].waiting.value in w.flights && w.flights[w.devices[d].waiting.value].stage.Answered?
    case GiveUp(d) => d in w.devices
  }

  function SetRows(w: World, d: DeviceId, rows: Rows): World
    requires d in w.devices
  {
    w.(devices := w.devices[d := w.devices[d].(rows := rows)])
  }

  function SetStage(w: World, r: RequestId, stage: Stage): World
    requires r in w.flights
  {
    w.(flights := w.flights[r := w.flights[r].(stage := stage)])
  }

  /** The rows after PersistSyncResult on the answered request `f`. */
  function Kept(rows: Rows, f: Flight): Rows
    requires f.stage.Answered?
  {
    Persist(rows, f.user, f.stage.updates, f.batch, IdSet(f.stage.applied))
  }

  ghost function Next(w: World, l: Label): World
    requires Enabled(w, l)
  {
    match l
    case Join(d) => w.(devices := w.devices[d := Device(map[], None)])
    case Create(d, u, e) =>
      SetRows(w, d, w.devices[d].rows[e.uuid := Row(e, true, u)])
        .(owner := w.owner[e.uuid := u], changes := w.changes + {Change(d, u, e.uuid, e.version)})
    case Modify(d, u, e) =>
      SetRows(w, d, w.devices[d].rows[e.uuid := Row(e, true, u)])
        .(changes := w.changes + {Change(d, u, e.uuid, e.version)})
    case Send(d, u, r, batch, cursor) =>
      w.(flights := w.flights[r := Flight(u, batch, cursor, Sent)],
         devices := w.devices[d := w.devices[d].(waiting := Some(r))])
    case Merge(r) =>
      var done := Upsert(w.table, w.flights[r].user, w.flights[r].batch);
      SetStage(w, r, Merged(done.applied)).(table := done.table)
    case Answer(r, updates) => SetStage(w, r, Answered(w.flights[r].stage.applied, updates))
    case Keep(d) =>
      w.(devices := w.devices[d := Device(Kept(w.devices[d].rows, w.flights[w.devices[d].waiting.value]), None)])
    case GiveUp(d) => w.(devices := w.devices[d := w.devices[d].(waiting := None)])
  }

  ghost predicate Run(worlds: seq<World>, labels: seq<Label>) {
    && |worlds| == |labels| + 1
    && worlds[0] == INITIAL
    && forall i | 0 <= i < |labels| :: Enabled(worlds[i], labels[i]) && worlds[i + 1] == Next(worlds[i], labels[i])
  }

  // ----- Walks: steps one after the other from any state -----

  ghost predicate Walk(w: World, labels: seq<Label>)
    decreases |labels|
  {
    labels == [] || (Enabled(w, labels[0]) && Walk(Next(w, labels[0]), labels[1..]))
  }

  ghost function End(w: World, labels: seq<Label>): World
    requires Walk(w, labels)
    decreases |labels|
  {
    if labels == [] then w else End(Next(w, labels[0]), labels[1..])
  }

  lemma WalkFirst(w: World, l: Label, rest: seq<Label>)
    requires Enabled(w, l) && Walk(Next(w, l), rest)
    ensures Walk(w, [l] + rest) && End(w, [l] + rest) == End(Next(w, l), rest)
  {
    assert ([l] + rest)[1..] == rest;
  }

  lemma {:induction false} WalkAppend(w: World, a: seq<Label>, b: seq<Label>)
    requires Walk(w, a) && Walk(End(w, a), b)
    ensures Walk(w, a + b) && End(w, a + b) == End(End(w, a), b)
    decreases |a|
  {
    if a == [] {
      assert a + b == b;
    } else {
      WalkAppend(Next(w, a[0]), a[1..], b);
      assert (a + b)[1..] == a[1..] + b;
    }
  }

  lemma WalkFurther(w: World, labels: seq<Label>, l: Label)
    requires Walk(w, labels) && Enabled(End(w, labels), l)
    ensures Walk(w, labels + [l]) && End(w, labels + [l]) == Next(End(w, labels), l)
  {
    assert [l][1..] == [];
    WalkAppend(w, labels, [l]);
  }

  /** A walk from the last state of a run makes a longer run. */
  lemma {:induction false} WalkExtendsRun(worlds: seq<World>, labels: seq<Label>, more: seq<Label>)
    returns (all: seq<World>)
    requires Run(worlds, labels) && Walk(worlds[|labels|], more)
    ensures Run(all, labels + more) && worlds <= all && all[|labels + more|] == End(worlds[|labels|], more)
    decreases |more|
  {
    if more == [] {
      all := worlds;
      assert labels + more == labels;
    } else {
      var w := Next(worlds[|labels|], more[0]);
      all := WalkExtendsRun(worlds + [w], labels + [more[0]], more[1..]);
      assert labels + [more[0]] + more[1..] == labels + more;
    }
  }

  // ----- The invariant, component by component -----

  ghost predicate TableOk(table: Table, owner: map<Uuid, UserId>) {
    forall k | k in table :: table[k].uuid == k.1 && k.1 in owner && owner[k.1] == k.0
  }

  ghost predicate RowsOk(rows: Rows, owner: map<Uuid, UserId>) {
    forall id | id in rows :: rows[id].entry.uuid == id && id in owner && owner[id] == rows[id].user
  }

  /** The server has the entry, at a higher version or identical. */
  predicate Behind(table: Table, user: UserId, e: Entry) {
    (user, e.uuid) in table && AtLeast(table[(user, e.uuid)], e)
  }

  predicate Reached(table: Table, user: UserId, id: Uuid, version: int) {
    (user, id) in table && table[(user, id)].version >= version
  }

  /** A clean local row at version v implies the server holds v or more, and the same entry if equal. */
  ghost predicate CleanOk(table: Table, rows: Rows) {
    forall id | id in rows && !rows[id].dirty :: Behind(table, rows[id].user, rows[id].entry)
  }

  ghost predicate BatchOk(owner: map<Uuid, UserId>, f: Flight) {
    && DistinctIds(f.batch)
    && forall e | e in f.batch :: e.uuid in owner && owner[e.uuid] == f.user
  }

  /** Once merged, all of the batch is reached, and what was applied is stored or superseded. */
  ghost predicate MergedOk(table: Table, f: Flight, applied: seq<Uuid>) {
    forall e | e in f.batch ::
      && Reached(table, f.user, e.uuid, e.version)
      && (e.uuid in applied ==> Behind(table, f.user, e))
  }

  ghost predicate UpdatesOk(table: Table, f: Flight, updates: seq<Entry>) {
    && DistinctIds(updates)
    && forall e | e in updates :: Behind(table, f.user, e)
  }

  ghost predicate FlightOk(table: Table, owner: map<Uuid, UserId>, f: Flight) {
    && BatchOk(owner, f)
    && match f.stage
       case Sent => true
       case Merged(applied) => MergedOk(table, f, applied)
       case Answered(applied, updates) => MergedOk(table, f, applied) && UpdatesOk(table, f, updates)
  }

  ghost predicate NotAbove(rows: Rows, updates: seq<Entry>) {
    forall e | e in updates && e.uuid in rows ::
      && rows[e.uuid].entry.version <= e.version
      && (!rows[e.uuid].dirty ==> AtLeast(e, rows[e.uuid].entry))
  }

  /** While a device waits, the batch is still its dirty rows, and the answer is nowhere below its rows. */
  ghost predicate WaitOk(dev: Device, flights: map<RequestId, Flight>) {
    dev.waiting.Some? ==>
      && dev.waiting.value in flights
      && var f := flights[dev.waiting.value];
         && IsDirtyList(dev.rows, f.user, f.batch)
         && (f.stage.Answered? ==> NotAbove(dev.rows, f.stage.updates))
  }

  ghost predicate DeviceOk(w: World, dev: Device) {
    RowsOk(dev.rows, w.owner) && CleanOk(w.table, dev.rows) && WaitOk(dev, w.flights)
  }

  /** A change is still dirty on its device at its version or above, or the server has reached it. */
  ghost predicate ChangeSafe(w: World, c: Change) {
    || Reached(w.table, c.user, c.uuid, c.version)
    || (&& c.device in w.devices && Holds(w.devices[c.device].rows, c.user, c.uuid)
        && w.devices[c.device].rows[c.uuid].dirty
        && w.devices[c.device].rows[c.uuid].entry.version >= c.version)
  }

  ghost predicate FlightsOk(w: World) {
    forall r | r in w.flights :: FlightOk(w.table, w.owner, w.flights[r])
  }

  ghost predicate DevicesOk(w: World) {
    forall d | d in w.devices :: DeviceOk(w, w.devices[d])
  }

  ghost predicate ChangesOk(w: World) {
    forall c | c in w.changes :: ChangeSafe(w, c)
  }

  ghost predicate Inv(w: World) {
    TableOk(w.table, w.owner) && FlightsOk(w) && DevicesOk(w) && ChangesOk(w)
  }

  // ----- The server only grows -----

  ghost predicate Extends(before: map<Uuid, UserId>, after: map<Uuid, UserId>) {
    forall id | id in before :: id in after && after[id] == before[id]
  }

  lemma FlightOkGrows(t: Table, t': Table, owner: map<Uuid, UserId>, owner': map<Uuid, UserId>, f: Flight)
    requires FlightOk(t, owner, f) && Grows(t, t') && Extends(owner, owner')
    ensures FlightOk(t', owner', f)
  {
  }

  lemma DeviceOkGrows(w: World, w': World, dev: Device)
    requires DeviceOk(w, dev) && Grows(w.table, w'.table) && Extends(w.owner, w'.owner)
    requires WaitOk(dev, w'.flights)
    ensures DeviceOk(w', dev)
  {
  }

  // ----- Each step keeps the invariant -----

  lemma MergeKeeps(w: World, r: RequestId)
    requires Inv(w) && Enabled(w, Merge(r))
    ensures Inv(Next(w, Merge(r))) && Grows(w.table, Next(w, Merge(r)).table)
  {
    var f, w' := w.flights[r], Next(w, Merge(r));
    UpsertExact(w.table, f.user, f.batch);
    UpsertGrows(w.table, f.user, f.batch);
    MergeTableOk(w, r);
    assert FlightOk(w'.table, w'.owner, w'.flights[r]) by {
      MergedFlightOk(w.table, f);
    }
    forall q | q in w'.flights
      ensures FlightOk(w'.table, w'.owner, w'.flights[q])
    {
      if q != r {
        FlightOkGrows(w.table, w'.table, w.owner, w'.owner, w.flights[q]);
      }
    }
    forall d | d in w'.devices
      ensures DeviceOk(w', w'.devices[d])
    {
      DeviceOkGrows(w, w', w.devices[d]);
    }
    forall c | c in w'.changes
      ensures ChangeSafe(w', c)
    {
      assert ChangeSafe(w, c);
    }
  }

  lemma MergeTableOk(w: World, r: RequestId)
    requires Inv(w) && Enabled(w, Merge(r))
    ensures TableOk(Next(w, Merge(r)).table, w.owner)
  {
    var f := w.flights[r];
    UpsertExact(w.table, f.user, f.batch);
    var t := Upsert(w.table, f.user, f.batch).table;
    forall k | k in t
      ensures t[k].uuid == k.1 && k.1 in w.owner && w.owner[k.1] == k.0
    {
      if k.0 == f.user && k.1 in Ids(f.batch) {
        var e :| e in f.batch && e.uuid == k.1;
        assert t[(f.user, e.uuid)] == if Beats(w.table, f.user, e) then e else w.table[(f.user, e.uuid)];
      }
    }
  }

  lemma MergedFlightOk(table: Table, f: Flight)
    requires DistinctIds(f.batch)
    ensures var done := Upsert(table, f.user, f.batch);
            done.Done? && MergedOk(done.table, f, done.applied)
  {
    UpsertExact(table, f.user, f.batch);
  }

  lemma AnswerKeeps(w: World, r: RequestId, updates: seq<Entry>)
    requires Inv(w) && Enabled(w, Answer(r, updates))
    ensures Inv(Next(w, Answer(r, updates)))
  {
    var f, w' := w.flights[r], Next(w, Answer(r, updates));
    forall q | q in w'.flights
      ensures FlightOk(w'.table, w'.owner, w'.flights[q])
    {
      assert FlightOk(w.table, w.owner, w.flights[q]);
    }
    forall d | d in w'.devices
      ensures DeviceOk(w', w'.devices[d])
    {
      assert DeviceOk(w, w.devices[d]);
      if w.devices[d].waiting == Some(r) {
        AnswerNotBelow(w, w.devices[d], f, updates);
      }
    }
    forall c | c in w'.changes
      ensures ChangeSafe(w', c)
    {
      assert ChangeSafe(w, c);
    }
  }

  /**
   What the server answers is at least what the waiting device has: its clean rows are backed, its
   dirty rows were merged.
   */
  lemma AnswerNotBelow(w: World, dev: Device, f: Flight, updates: seq<Entry>)
    requires TableOk(w.table, w.owner) && DeviceOk(w, dev)
    requires f.stage.Merged? && MergedOk(w.table, f, f.stage.applied)
    requires IsDirtyList(dev.rows, f.user, f.batch)
    requires IsAnswer(w.table, f.user, f.cursor, updates)
    ensures NotAbove(dev.rows, updates)
  {
    forall e | e in updates && e.uuid in dev.rows
      ensures dev.rows[e.uuid].entry.version <= e.version
      ensures !dev.rows[e.uuid].dirty ==> AtLeast(e, dev.rows[e.uuid].entry)
    {
      var row := dev.rows[e.uuid];
      assert w.table[(f.user, e.uuid)] == e;
      assert row.user == f.user && row.entry.uuid == e.uuid;
      if row.dirty {
        assert row.entry in f.batch;
        assert Reached(w.table, f.user, row.entry.uuid, row.entry.version);
      } else {
        assert Behind(w.table, row.user, row.entry);
      }
    }
  }

  /** The rows after PersistSyncResult, under what the invariant says of the device and its request. */
  lemma KeptAt(w: World, dev: Device, f: Flight, id: Uuid)
    requires RowsOk(dev.rows, w.owner) && CleanOk(w.table, dev.rows)
    requires f.stage.Answered? && FlightOk(w.table, w.owner, f) && TableOk(w.table, w.owner)
    requires IsDirtyList(dev.rows, f.user, f.batch) && NotAbove(dev.rows, f.stage.updates)
    ensures var rows, kept := dev.rows, Kept(dev.rows, f);
            && (id in rows ==> (id in kept && kept[id].user == rows[id].user
                                && kept[id].entry.version >= rows[id].entry.version))
            && (id in rows && !rows[id].dirty ==> !kept[id].dirty && AtLeast(kept[id].entry, rows[id].entry))
            && (id in kept ==> kept[id].entry.uuid == id && id in w.owner && w.owner[id] == kept[id].user)
            && (id in kept && !kept[id].dirty ==> Behind(w.table, kept[id].user, kept[id].entry))
            && (id in kept && kept[id].dirty ==> id in rows && kept[id] == rows[id])
            && (id in rows && rows[id].user != f.user ==> kept[id] == rows[id])
  {
    var rows, updates, applied := dev.rows, f.stage.updates, IdSet(f.stage.applied);
    PersistAt(rows, f.user, updates, f.batch, applied);
    var kept := Kept(rows, f);
    if id in Ids(updates) {
      var e :| e in updates && e.uuid == id;
      assert Behind(w.table, f.user, e);
      assert kept[e.uuid] == Row(e, false, f.user);
    } else if id in rows && rows[id].user == f.user && id in Ids(f.batch) && id in applied {
      var e :| e in f.batch && e.uuid == id;
      assert rows[e.uuid] == Row(e, true, f.user);
      assert e.uuid in f.stage.applied;
    }
  }

  lemma KeepKeeps(w: World, d: DeviceId)
    requires Inv(w) && Enabled(w, Keep(d))
    ensures Inv(Next(w, Keep(d)))
  {
    var dev, w' := w.devices[d], Next(w, Keep(d));
    var f := w.flights[dev.waiting.value];
    assert DeviceOk(w, dev) && FlightOk(w.table, w.owner, f);
    forall id | id in w'.devices[d].rows
      ensures var row := w'.devices[d].rows[id];
              && row.entry.uuid == id && id in w.owner && w.owner[id] == row.user
              && (!row.dirty ==> Behind(w.table, row.user, row.entry))
    {
      KeptAt(w, dev, f, id);
    }
    forall e | e in w'.devices
      ensures DeviceOk(w', w'.devices[e])
    {
      if e != d {
        assert DeviceOk(w, w.devices[e]);
      }
    }
    forall c | c in w'.changes
      ensures ChangeSafe(w', c)
    {
      KeepKeepsChange(w, d, c);
    }
  }

  lemma KeepKeepsChange(w: World, d: DeviceId, c: Change)
    requires Inv(w) && Enabled(w, Keep(d)) && c in w.changes
    ensures ChangeSafe(Next(w, Keep(d)), c)
  {
    assert ChangeSafe(w, c);
    if c.device == d {
      var dev := w.devices[d];
      assert DeviceOk(w, dev);
      KeptAt(w, dev, w.flights[dev.waiting.value], c.uuid);
    }
  }

  /** Create and Modify: a dirty row at a higher version than before, on a device that is not waiting. */
  lemma SaveKeeps(w: World, l: Label)
    requires Inv(w) && Enabled(w, l) && (l.Create? || l.Modify?)
    ensures Inv(Next(w, l))
  {
    var w', d := Next(w, l), l.device;
    assert DeviceOk(w, w.devices[d]);
    assert l.entry.uuid in w.devices[d].rows ==> l.entry.uuid in w.owner;
    forall r | r in w'.flights
      ensures FlightOk(w'.table, w'.owner, w'.flights[r])
    {
      FlightOkGrows(w.table, w'.table, w.owner, w'.owner, w.flights[r]);
    }
    forall e | e in w'.devices
      ensures DeviceOk(w', w'.devices[e])
    {
      if e != d {
        DeviceOkGrows(w, w', w.devices[e]);
      }
    }
    forall c | c in w'.changes
      ensures ChangeSafe(w', c)
    {
      SaveKeepsChange(w, l, c);
    }
  }

  lemma SaveKeepsChange(w: World, l: Label, c: Change)
    requires Inv(w) && Enabled(w, l) && (l.Create? || l.Modify?) && c in Next(w, l).changes
    ensures ChangeSafe(Next(w, l), c)
  {
    assert DeviceOk(w, w.devices[l.device]);
    if c in w.changes {
      assert ChangeSafe(w, c);
    }
  }

  lemma SendKeeps(w: World, l: Label)
    requires Inv(w) && Enabled(w, l) && l.Send?
    ensures Inv(Next(w, l))
  {
    var w', dev := Next(w, l), w.devices[l.device];
    assert DeviceOk(w, dev);
    forall r | r in w'.flights
      ensures FlightOk(w'.table, w'.owner, w'.flights[r])
    {
      if r == l.request {
        forall e | e in l.batch
          ensures e.uuid in w.owner && w.owner[e.uuid] == l.user
        {
          assert dev.rows[e.uuid] == Row(e, true, l.user);
        }
      } else {
        assert FlightOk(w.table, w.owner, w.flights[r]);
      }
    }
    forall e | e in w'.devices
      ensures DeviceOk(w', w'.devices[e])
    {
      assert DeviceOk(w, w.devices[e]);
    }
    forall c | c in w'.changes
      ensures ChangeSafe(w', c)
    {
      assert ChangeSafe(w, c);
    }
  }

  lemma QuietKeeps(w: World, l: Label)
    requires Inv(w) && Enabled(w, l) && (l.Join? || l.GiveUp?)
    ensures Inv(Next(w, l))
  {
    var w' := Next(w, l);
    forall e | e in w'.devices
      ensures DeviceOk(w', w'.devices[e])
    {
      if e in w.devices {
        assert DeviceOk(w, w.devices[e]);
      }
    }
    forall c | c in w'.changes
      ensures ChangeSafe(w', c)
    {
      assert ChangeSafe(w, c);
    }
  }

  /** Every step of the protocol keeps the global invariant. */
  lemma StepKeepsInv(w: World, l: Label)
    requires Inv(w) && Enabled(w, l)
    ensures Inv(Next(w, l))
  {
    match l
    case Merge(r) => MergeKeeps(w, r);
    case Answer(r, updates) => AnswerKeeps(w, r, updates);
    case Keep(d) => KeepKeeps(w, d);
    case Send(_, _, _, _, _) => SendKeeps(w, l);
    case Create(_, _, _) => SaveKeeps(w, l);
    case Modify(_, _, _) => SaveKeeps(w, l);
    case Join(_) => QuietKeeps(w, l);
    case GiveUp(_) => QuietKeeps(w, l);
  }

  lemma {:induction false} RunKeepsInv(worlds: seq<World>, labels: seq<Label>, i: nat)
    requires Run(worlds, labels) && i < |worlds|
    ensures Inv(worlds[i])
  {
    if i == 0 {
    } else {
      RunKeepsInv(worlds, labels, i - 1);
      StepKeepsInv(worlds[i - 1], labels[i - 1]);
    }
  }

  lemma {:induction false} WalkKeepsInv(w: World, labels: seq<Label>)
    requires Inv(w) && Walk(w, labels)
    ensures Inv(End(w, labels))
    decreases |labels|
  {
    if labels == [] {
    } else {
      StepKeepsInv(w, labels[0]);
      WalkKeepsInv(Next(w, labels[0]), labels[1..]);
    }
  }
}
