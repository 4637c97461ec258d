/**
 The runs of SerialUse are runs of the protocol: each action is a walk of SyncProtocol, seen from one
 account.
 */
module SerialRuns {
  import opened Basics
  import opened CodeFollowsProtocol
  import opened Convergence
  import opened Entries
  import opened LocalRows
  import opened ServerTable
  import opened SyncProtocol
  import opened SyncRound
  import D = ServerStore
  import U = SerialUse
  import Y = SyncService

  /** The fleet is the account's part of the world, in which no device is waiting. */
  ghost predicate Shows(w: World, user: UserId, f: Fleet) {
    && f.server == ViewOfTable(w.table, user)
    && f.locals.Keys == w.devices.Keys
    && forall d | d in w.devices :: Idle(w, d) && f.locals[d] == ViewOfRows(w.devices[d].rows, user)
  }

  lemma AccountsDoNotShare(w: World, d: DeviceId, user: UserId)
    requires Inv(w) && d in w.devices
    ensures Unshared(w.table, w.devices[d].rows, user)
  {
    assert DeviceOk(w, w.devices[d]);
  }

  /** The world shows the fleet again once one device's rows and the server's have changed in both. */
  lemma ShowsAgain(w: World, w': World, user: UserId, f: Fleet, f': Fleet, d: DeviceId, rows': Rows)
    requires Shows(w, user, f) && d in w.devices
    requires w'.devices == w.devices[d := Device(rows', None)]
    requires f'.server == ViewOfTable(w'.table, user)
    requires f'.locals == f.locals[d := ViewOfRows(rows', user)]
    ensures Shows(w', user, f')
  {
    forall e | e in w'.devices
      ensures Idle(w', e) && f'.locals[e] == ViewOfRows(w'.devices[e].rows, user)
    {
      assert e in w.devices;
    }
  }

  /** What an uninterrupted push and pull leave, seen from the account. */
  lemma RoundViews(w: World, user: UserId, f: Fleet, d: DeviceId, c: Time)
    requires Inv(w) && d in w.devices && Shows(w, user, f)
    ensures ViewOfTable(TableAfter(w.table, w.devices[d].rows, user), user) == Push(f.server, f.locals[d])
    ensures ViewOfRows(RowsAfter(w.table, w.devices[d].rows, user, c), user) == Pull(f.server, f.locals[d], user, c)
  {
    AccountsDoNotShare(w, d, user);
    AccountStepsAreLocal(w.table, w.devices[d].rows, user, c, user + 1);
  }

  lemma RoundShows(w: World, w': World, user: UserId, f: Fleet, d: DeviceId, c: Time)
    requires Inv(w) && d in w.devices && Shows(w, user, f)
    requires var rows := w.devices[d].rows;
             Leaves(w, w', d, TableAfter(w.table, rows, user), RowsAfter(w.table, rows, user, c))
    ensures Shows(w', user, Step(f, user, Visit(d, c)))
  {
    RoundViews(w, user, f, d, c);
    ShowsAgain(w, w', user, f, Step(f, user, Visit(d, c)), d, RowsAfter(w.table, w.devices[d].rows, user, c));
  }

  /** A completed sync is Send, Merge, Answer and Keep, for some order of reading the rows. */
  lemma VisitIsAWalk(w: World, user: UserId, f: Fleet, d: DeviceId, c: Time) returns (labels: seq<Label>)
    requires Inv(w) && d in w.devices && Shows(w, user, f)
    ensures Walk(w, labels) && Inv(End(w, labels)) && End(w, labels).owner == w.owner
    ensures Shows(End(w, labels), user, Step(f, user, Visit(d, c))) && FlightsKept(w, End(w, labels))
  {
    var rows := w.devices[d].rows;
    assert DeviceOk(w, w.devices[d]);
    var batch := DirtyListExists(rows, user);
    UpsertIsPush(w.table, rows, user, batch);
    UpsertKeepsKeys(w.table, user, batch);
    var after := TableAfter(w.table, rows, user);
    var updates := D.AnswerExists(after, user, c);
    var applied := IdSet(Upsert(w.table, user, batch).applied);
    PersistIsPull(w.table, rows, user, c, batch, updates, applied);
    var rows' := RowsAfter(w.table, rows, user, c);
    assert Y.SyncedBatch(w.table, [], rows, user, c, batch, updates, after, rows');
    var r := UnusedRequest(w);
    labels := RoundIsAWalk(w, d, user, r, c, batch, updates, after, rows');
    RoundShows(w, End(w, labels), user, f, d, c);
  }

  // ----- Requests given up on -----

  /** The batch lists exactly these entries, each once. */
  ghost predicate Lists(batch: seq<Entry>, view: ServerView) {
    && DistinctIds(batch)
    && (forall e | e in batch :: e.uuid in view && view[e.uuid] == e)
    && (forall id | id in view :: view[id] in batch && view[id].uuid == id)
  }

  ghost predicate IsLate(w: World, user: UserId, q: RequestId, l: U.Late) {
    && q in w.flights && w.flights[q].stage.Sent? && w.flights[q].user == user
    && Lists(w.flights[q].batch, l.batch)
  }

  /** Each request given up on and not served is one of the world's, not merged. */
  ghost predicate Carries(w: World, user: UserId, late: map<nat, U.Late>, ids: map<nat, RequestId>) {
    && (forall r | r in late :: r in ids && IsLate(w, user, ids[r], late[r]))
    && (forall r, q | r in late && q in late && r != q :: ids[r] != ids[q])
  }

  lemma CarriesStill(w: World, w': World, user: UserId, late: map<nat, U.Late>, ids: map<nat, RequestId>)
    requires Carries(w, user, late, ids) && FlightsKept(w, w')
    ensures Carries(w', user, late, ids)
  {
    forall r | r in late
      ensures IsLate(w', user, ids[r], late[r])
    {
      assert IsLate(w, user, ids[r], late[r]);
    }
  }

  lemma DirtyListLists(rows: Rows, user: UserId, batch: seq<Entry>)
    requires WellKeyed(rows) && IsDirtyList(rows, user, batch)
    ensures Lists(batch, U.DirtyView(ViewOfRows(rows, user)))
  {
  }

  /** A sync given up on is Send and GiveUp; the request stays. */
  lemma AbandonIsAWalk(w: World, user: UserId, s: U.State, d: DeviceId, r: nat, ids: map<nat, RequestId>)
    returns (labels: seq<Label>, ids': map<nat, RequestId>)
    requires Inv(w) && d in w.devices && Shows(w, user, s.fleet) && Carries(w, user, s.late, ids) && r !in s.late
    ensures Walk(w, labels) && Inv(End(w, labels)) && End(w, labels).owner == w.owner
    ensures Shows(End(w, labels), user, s.fleet)
    ensures Carries(End(w, labels), user, s.late[r := U.Late(d, U.DirtyView(s.fleet.locals[d]))], ids')
  {
    var rows := w.devices[d].rows;
    assert DeviceOk(w, w.devices[d]);
    var batch := DirtyListExists(rows, user);
    DirtyListLists(rows, user, batch);
    var q := UnusedRequest(w);
    UnservedSyncIsAWalk(w, d, user, q, 0, batch);
    labels := [Send(d, user, q, batch, 0)] + [GiveUp(d)];
    ids' := ids[r := q];
    RewriteIsIdle(w.devices, d);
    CarriesMore(w, End(w, labels), user, s.late, ids, r, q, U.Late(d, U.DirtyView(s.fleet.locals[d])));
  }

  lemma CarriesMore(w: World, w': World, user: UserId, late: map<nat, U.Late>, ids: map<nat, RequestId>,
                    r: nat, q: RequestId, l: U.Late)
    requires Carries(w, user, late, ids) && FlightsKept(w, w') && r !in late && q !in w.flights
        && IsLate(w', user, q, l)
    ensures Carries(w', user, late[r := l], ids[r := q])
  {
    CarriesStill(w, w', user, late, ids);
    forall x | x in late
      ensures ids[x] != q
    {
      assert IsLate(w, user, ids[x], late[x]);
    }
  }

  /** Merging a request given up on pushes the rows it carries. */
  lemma ServedTable(table: Table, user: UserId, batch: seq<Entry>, view: ServerView)
    requires Lists(batch, view)
    ensures Upsert(table, user, batch).Done?
    ensures ViewOfTable(Upsert(table, user, batch).table, user) == Push(ViewOfTable(table, user), U.AsRows(view, user))
  {
    var rows := U.AsRows(view, user);
    AsRowsIsList(user, batch, view);
    UpsertIsPush(table, rows, user, batch);
    AccountStepsAreLocal(table, rows, user, 0, user + 1);
  }

  lemma AsRowsIsList(user: UserId, batch: seq<Entry>, view: ServerView)
    requires Lists(batch, view)
    ensures var rows := U.AsRows(view, user);
            && WellKeyed(rows) && IsDirtyList(rows, user, batch) && ViewOfRows(rows, user) == rows
            && forall id | id in rows :: rows[id].user == user
  {
  }

  lemma ServeIsAStep(w: World, user: UserId, s: U.State, r: nat, ids: map<nat, RequestId>)
    requires Inv(w) && Shows(w, user, s.fleet) && Carries(w, user, s.late, ids) && r in s.late
    ensures Enabled(w, Merge(ids[r]))
    ensures var w' := Next(w, Merge(ids[r]));
            && Inv(w') && w'.owner == w.owner
            && Shows(w', user, U.Served(s.fleet, user, s.late[r].batch))
            && Carries(w', user, s.late - {r}, ids)
  {
    assert IsLate(w, user, ids[r], s.late[r]);
    ServedTable(w.table, user, w.flights[ids[r]].batch, s.late[r].batch);
    StepKeepsInv(w, Merge(ids[r]));
    forall x | x in s.late - {r}
      ensures IsLate(Next(w, Merge(ids[r])), user, ids[x], s.late[x])
    {
      assert IsLate(w, user, ids[x], s.late[x]);
    }
  }

  /** The label of an edit: Create, when the uuid is new to all accounts, or Modify. */
  function EditLabel(w: World, user: UserId, d: DeviceId, e: Entry): Label
    requires d in w.devices
  {
    if Holds(w.devices[d].rows, user, e.uuid) then Modify(d, user, e) else Create(d, user, e)
  }

  /** The device's own row one version up, or a version 1 of a uuid that is new to all accounts. */
  ghost predicate IsNext(w: World, f: Fleet, d: DeviceId, e: Entry)
    requires d in f.locals
  {
    if e.uuid in f.locals[d] then e.version == f.locals[d][e.uuid].entry.version + 1
    else e.version == 1 && e.uuid !in w.owner
  }

  lemma EditIsEnabled(w: World, user: UserId, f: Fleet, d: DeviceId, e: Entry)
    requires d in w.devices && Shows(w, user, f) && IsNext(w, f, d, e)
    ensures Enabled(w, EditLabel(w, user, d, e))
  {
    var rows := w.devices[d].rows;
    assert e.uuid in f.locals[d] <==> Holds(rows, user, e.uuid);
    assert e.uuid in f.locals[d] ==> f.locals[d][e.uuid] == rows[e.uuid];
  }

  lemma EditLeaves(w: World, user: UserId, d: DeviceId, e: Entry)
    requires Inv(w) && Idle(w, d) && Enabled(w, EditLabel(w, user, d, e))
    ensures var w' := Next(w, EditLabel(w, user, d, e));
            && w'.table == w.table
            && w'.devices == w.devices[d := Device(w.devices[d].rows[e.uuid := Row(e, true, user)], None)]
            && w'.owner == w.owner[e.uuid := user]
  {
    assert DeviceOk(w, w.devices[d]);
    if Holds(w.devices[d].rows, user, e.uuid) {
      RewriteIsIdle(w.owner, e.uuid);
    }
  }

  lemma EditIsAStep(w: World, user: UserId, f: Fleet, d: DeviceId, e: Entry)
    requires Inv(w) && d in w.devices && Shows(w, user, f) && IsNext(w, f, d, e)
    ensures Enabled(w, EditLabel(w, user, d, e))
    ensures var w' := Next(w, EditLabel(w, user, d, e));
            Inv(w') && Shows(w', user, U.Save(f, user, d, e)) && w'.owner == w.owner[e.uuid := user]
  {
    EditIsEnabled(w, user, f, d, e);
    StepKeepsInv(w, EditLabel(w, user, d, e));
    EditLeaves(w, user, d, e);
    SavedView(w.devices[d].rows, user, e);
    ShowsAgain(w, Next(w, EditLabel(w, user, d, e)), user, f, U.Save(f, user, d, e), d,
               w.devices[d].rows[e.uuid := Row(e, true, user)]);
  }

  lemma SavedView(rows: Rows, user: UserId, e: Entry)
    ensures ViewOfRows(rows[e.uuid := Row(e, true, user)], user) == ViewOfRows(rows, user)[e.uuid := Row(e, true, user)]
  {
  }

  /**
   Every action of serial use is a walk of the protocol, in any world that has other accounts too:
   afterwards the world shows the fleet, and carries the requests, that the action leaves.
   */
  lemma ActionIsAWalk(w: World, user: UserId, s: U.State, a: U.Action, ids: map<nat, RequestId>)
    returns (labels: seq<Label>, ids': map<nat, RequestId>)
    requires Inv(w) && Shows(w, user, s.fleet) && Carries(w, user, s.late, ids) && U.Enabled(s, a)
    requires a.Edit? && a.entry.uuid !in s.fleet.locals[a.device] ==> a.entry.uuid !in w.owner
    ensures Walk(w, labels) && Inv(End(w, labels)) && Shows(End(w, labels), user, U.Next(s, user, a).fleet)
    ensures Carries(End(w, labels), user, U.Next(s, user, a).late, ids')
    ensures End(w, labels).owner == if a.Edit? then w.owner[a.entry.uuid := user] else w.owner
  {
    ids' := ids;
    match a
    case Abandon(d, r) => labels, ids' := AbandonIsAWalk(w, user, s, d, r, ids);
    case Serve(r) =>
      ServeIsAStep(w, user, s, r, ids);
      WalkFirst(w, Merge(ids[r]), []);
      labels := [Merge(ids[r])] + [];
    case Edit(d, e) =>
      EditIsAStep(w, user, s.fleet, d, e);
      WalkFirst(w, EditLabel(w, user, d, e), []);
      labels := [EditLabel(w, user, d, e)] + [];
      CarriesStill(w, End(w, labels), user, s.late, ids);
    case _ =>
      labels := VisitIsAWalk(w, user, s.fleet, a.device, a.cursor);
      CarriesStill(w, End(w, labels), user, s.late, ids);
  }

  // ----- Whole runs -----

  /** Every uuid in use is somewhere in the account's fleet. */
  ghost predicate AllInUse(w: World, f: Fleet) {
    forall id | id in w.owner :: !U.Fresh(f, id)
  }

  lemma ActionKeepsAllInUse(w: World, w': World, user: UserId, s: U.State, a: U.Action)
    requires U.Enabled(s, a) && AllInUse(w, s.fleet)
    requires w'.owner == if a.Edit? then w.owner[a.entry.uuid := user] else w.owner
    ensures AllInUse(w', U.Next(s, user, a).fleet)
  {
    var f, f' := s.fleet, U.Next(s, user, a).fleet;
    forall id | id in w'.owner
      ensures !U.Fresh(f', id)
    {
      if a.Edit? && id == a.entry.uuid {
        assert id in f'.locals[a.device];
      } else {
        assert !U.Fresh(f, id);
        StaysInUse(s, user, a, id);
      }
    }
  }

  lemma StaysInUse(s: U.State, user: UserId, a: U.Action, id: Uuid)
    requires U.Enabled(s, a) && !U.Fresh(s.fleet, id)
    ensures !U.Fresh(U.Next(s, user, a).fleet, id)
  {
    var f, f' := s.fleet, U.Next(s, user, a).fleet;
    if id !in f.server {
      var d :| d in f.locals && id in f.locals[d];
      assert d in f'.locals && id in f'.locals[d];
    }
  }

  lemma {:induction false} DevicesJoin(devices: set<DeviceId>, user: UserId) returns (labels: seq<Label>)
    ensures Walk(INITIAL, labels)
    ensures var w := End(INITIAL, labels); w == INITIAL.(devices := map d | d in devices :: Device(map[], None))
  {
    if devices == {} {
      labels := [];
    } else {
      var d :| d in devices;
      labels := DevicesJoin(devices - {d}, user);
      WalkFurther(INITIAL, labels, Join(d));
      labels := labels + [Join(d)];
    }
  }

  /** Every state of every run of serial use is shown by a state that the protocol reaches from empty stores. */
  lemma {:induction false} SerialRunIsAWalk(user: UserId, devices: set<DeviceId>, states: seq<U.State>,
                                            actions: seq<U.Action>, i: nat)
    returns (labels: seq<Label>, ids: map<nat, RequestId>)
    requires U.Run(user, devices, states, actions) && i < |states|
    ensures Walk(INITIAL, labels)
    ensures var w := End(INITIAL, labels);
            && Inv(w) && Shows(w, user, states[i].fleet) && Carries(w, user, states[i].late, ids)
            && AllInUse(w, states[i].fleet)
  {
    if i == 0 {
      labels := DevicesJoin(devices, user);
      ids := map[];
      WalkKeepsInv(INITIAL, labels);
    } else {
      labels, ids := SerialRunIsAWalk(user, devices, states, actions, i - 1);
      var w, a := End(INITIAL, labels), actions[i - 1];
      var more, ids' := ActionIsAWalk(w, user, states[i - 1], a, ids);
      ids := ids';
      ActionKeepsAllInUse(w, End(w, more), user, states[i - 1], a);
      WalkAppend(INITIAL, labels, more);
      labels := labels + more;
    }
  }
}
