/**
 A sync call as the use case makes it, with every outcome it can have and with anything other devices
 do meanwhile, is a path of the protocol from whatever state it is made in. So what holds of every run
 of SyncProtocol holds of the program.
 */
module CodeFollowsProtocol {
  import opened Basics
  import opened Entries
  import opened LocalRows
  import opened ServerTable
  import opened SyncProtocol
  import L = LocalStore
  import Y = SyncService
  import R = SyncRound
  import G = Convergence

  // ----- What other devices do meanwhile -----

  /** A step that neither the device takes, nor the server for the device's request. */
  predicate Elsewhere(l: Label, d: DeviceId, r: RequestId) {
    match l
    case Join(_) => true
    case Create(x, _, _) => x != d
    case Modify(x, _, _) => x != d
    case Send(x, _, _, _, _) => x != d
    case Merge(q) => q != r
    case Answer(q, _) => q != r
    case Keep(x) => x != d
    case GiveUp(x) => x != d
  }

  /** The batches the server merges along a walk, in order. */
  ghost function Batches(w: World, labels: seq<Label>): seq<Batch>
    requires Walk(w, labels)
    decreases |labels|
  {
    if labels == [] then []
    else
      (if labels[0].Merge? then [Batch(w.flights[labels[0].request].user, w.flights[labels[0].request].batch)] else [])
      + Batches(Next(w, labels[0]), labels[1..])
  }

  ghost predicate Meanwhile(w: World, labels: seq<Label>, d: DeviceId, r: RequestId) {
    Walk(w, labels) && forall l | l in labels :: Elsewhere(l, d, r)
  }

  lemma StepElsewhere(w: World, l: Label, d: DeviceId, r: RequestId)
    requires Enabled(w, l) && Elsewhere(l, d, r) && d in w.devices && r in w.flights
    ensures d in Next(w, l).devices && Next(w, l).devices[d] == w.devices[d]
    ensures r in Next(w, l).flights && Next(w, l).flights[r] == w.flights[r]
  {
  }

  /** Whatever others do, the device and its request stay as they are, and the server runs the merged batches. */
  lemma {:induction false} MeanwhileSpares(w: World, labels: seq<Label>, d: DeviceId, r: RequestId)
    requires Inv(w) && Meanwhile(w, labels, d, r) && d in w.devices && r in w.flights
    ensures var w' := End(w, labels);
            && Inv(w') && w'.table == RunBatches(w.table, Batches(w, labels))
            && d in w'.devices && w'.devices[d] == w.devices[d]
            && r in w'.flights && w'.flights[r] == w.flights[r]
    decreases |labels|
  {
    if labels == [] {
    } else {
      var w1 := Next(w, labels[0]);
      StepKeepsInv(w, labels[0]);
      StepElsewhere(w, labels[0], d, r);
      MeanwhileSpares(w1, labels[1..], d, r);
      FirstBatchRuns(w, labels[0], Batches(w1, labels[1..]));
    }
  }

  lemma FirstBatchRuns(w: World, l: Label, rest: seq<Batch>)
    requires Enabled(w, l)
    ensures var first := if l.Merge? then [Batch(w.flights[l.request].user, w.flights[l.request].batch)] else [];
            RunBatches(w.table, first + rest) == RunBatches(Next(w, l).table, rest)
  {
    if l.Merge? {
      var b := Batch(w.flights[l.request].user, w.flights[l.request].batch);
      RunAppend(w.table, [b], rest);
      assert [b][..0] == [];
      assert RunBatches(w.table, []) == w.table;
    } else {
      assert [] + rest == rest;
    }
  }

  // ----- The parts of a sync call -----

  function PushLabels(d: DeviceId, u: UserId, r: RequestId, cursor: Time, batch: seq<Entry>): seq<Label> {
    [Send(d, u, r, batch, cursor)] + [Merge(r)]
  }

  /** The device's request is merged and unanswered, and the device waits for it. */
  ghost predicate Waits(w: World, w': World, d: DeviceId, u: UserId, r: RequestId, cursor: Time, batch: seq<Entry>)
    requires d in w.devices
  {
    && Inv(w')
    && w'.devices == w.devices[d := Device(w.devices[d].rows, Some(r))]
    && w'.owner == w.owner && w'.changes == w.changes
    && Upsert(w.table, u, batch).Done? && w'.table == Upsert(w.table, u, batch).table
    && r in w'.flights && w'.flights[r] == Flight(u, batch, cursor, Merged(Upsert(w.table, u, batch).applied))
  }

  lemma PushIsAWalk(w: World, d: DeviceId, u: UserId, r: RequestId, cursor: Time, batch: seq<Entry>)
    requires Inv(w) && Idle(w, d) && r !in w.flights && IsDirtyList(w.devices[d].rows, u, batch)
    ensures Walk(w, PushLabels(d, u, r, cursor, batch))
    ensures Waits(w, End(w, PushLabels(d, u, r, cursor, batch)), d, u, r, cursor, batch)
  {
    var send := Send(d, u, r, batch, cursor);
    UpsertExact(w.table, u, batch);
    StepKeepsInv(w, send);
    var w1 := Next(w, send);
    StepKeepsInv(w1, Merge(r));
    WalkFirst(w1, Merge(r), []);
    assert [Merge(r)] + [] == [Merge(r)];
    WalkFirst(w, send, [Merge(r)]);
  }

  /**
   The world after the device's command: this server table, these rows on the device, all else on
   devices as it was just before.
   */
  ghost predicate Leaves(w: World, w': World, d: DeviceId, table: Table, rows: Rows)
    requires d in w.devices
  {
    && Inv(w') && w'.table == table
    && w'.devices == w.devices[d := Device(rows, None)]
    && w'.owner == w.owner && w'.changes == w.changes
  }

  lemma GiveUpLeaves(w: World, d: DeviceId)
    requires Inv(w) && d in w.devices
    ensures Enabled(w, GiveUp(d)) && Leaves(w, Next(w, GiveUp(d)), d, w.table, w.devices[d].rows)
  {
    StepKeepsInv(w, GiveUp(d));
  }

  lemma KeepLeaves(w: World, d: DeviceId, r: RequestId)
    requires Inv(w) && d in w.devices && w.devices[d].waiting == Some(r)
    requires r in w.flights && w.flights[r].stage.Answered?
    ensures Enabled(w, Keep(d)) && Leaves(w, Next(w, Keep(d)), d, w.table, Kept(w.devices[d].rows, w.flights[r]))
  {
    StepKeepsInv(w, Keep(d));
  }

  lemma AnswerArrives(w: World, r: RequestId, applied: seq<Uuid>, updates: seq<Entry>)
    requires Inv(w) && r in w.flights && w.flights[r].stage == Merged(applied)
    requires IsAnswer(w.table, w.flights[r].user, w.flights[r].cursor, updates)
    ensures Enabled(w, Answer(r, updates))
    ensures var w' := Next(w, Answer(r, updates));
            && Inv(w') && w'.table == w.table && w'.devices == w.devices
            && w'.owner == w.owner && w'.changes == w.changes
            && r in w'.flights && w'.flights[r] == w.flights[r].(stage := Answered(applied, updates))
  {
    StepKeepsInv(w, Answer(r, updates));
  }

  lemma TwoFurther(w: World, labels: seq<Label>, a: Label, b: Label)
    requires Walk(w, labels) && Enabled(End(w, labels), a) && Enabled(Next(End(w, labels), a), b)
    ensures Walk(w, labels + [a] + [b]) && End(w, labels + [a] + [b]) == Next(Next(End(w, labels), a), b)
  {
    WalkFurther(w, labels, a);
    WalkFurther(w, labels + [a], b);
  }

  // ----- A whole call -----

  /** From the device's merged request, others do `mid`, and the server merges `between` for them. */
  ghost predicate Interposed(w: World, d: DeviceId, u: UserId, r: RequestId, cursor: Time, batch: seq<Entry>,
                             mid: seq<Label>, between: seq<Batch>)
  {
    && Walk(w, PushLabels(d, u, r, cursor, batch))
    && Meanwhile(End(w, PushLabels(d, u, r, cursor, batch)), mid, d, r)
    && Batches(End(w, PushLabels(d, u, r, cursor, batch)), mid) == between
  }

  /** The call up to its answer: the world is ready to answer the waiting device. */
  lemma ServedIsAWalk(w: World, d: DeviceId, u: UserId, r: RequestId, cursor: Time, batch: seq<Entry>,
                      mid: seq<Label>, between: seq<Batch>, after: Table)
    requires Inv(w) && Idle(w, d) && r !in w.flights && Interposed(w, d, u, r, cursor, batch, mid, between)
    requires Y.PushedBatch(w.table, between, w.devices[d].rows, u, batch, after)
    ensures Walk(w, PushLabels(d, u, r, cursor, batch) + mid)
    ensures var w' := End(w, PushLabels(d, u, r, cursor, batch) + mid);
            && Inv(w') && w'.table == after
            && d in w'.devices && w'.devices[d] == Device(w.devices[d].rows, Some(r))
            && r in w'.flights && w'.flights[r] == Flight(u, batch, cursor, Merged(Upsert(w.table, u, batch).applied))
  {
    var push := PushLabels(d, u, r, cursor, batch);
    PushIsAWalk(w, d, u, r, cursor, batch);
    MeanwhileSpares(End(w, push), mid, d, r);
    WalkAppend(w, push, mid);
  }

  /** A completed call: the push, what others do, the answer, and the merge. */
  lemma CompletedSyncIsAWalk(w: World, d: DeviceId, u: UserId, r: RequestId, cursor: Time,
                             batch: seq<Entry>, updates: seq<Entry>,
                             mid: seq<Label>, between: seq<Batch>, after: Table, rows': Rows)
    requires Inv(w) && Idle(w, d) && r !in w.flights && Interposed(w, d, u, r, cursor, batch, mid, between)
    requires Y.SyncedBatch(w.table, between, w.devices[d].rows, u, cursor, batch, updates, after, rows')
    ensures var served := PushLabels(d, u, r, cursor, batch) + mid;
            && Walk(w, served) && d in End(w, served).devices
            && Walk(w, served + [Answer(r, updates)] + [Keep(d)])
            && Leaves(End(w, served), End(w, served + [Answer(r, updates)] + [Keep(d)]), d, after, rows')
  {
    var served := PushLabels(d, u, r, cursor, batch) + mid;
    ServedIsAWalk(w, d, u, r, cursor, batch, mid, between, after);
    AnswerArrives(End(w, served), r, Upsert(w.table, u, batch).applied, updates);
    KeepLeaves(Next(End(w, served), Answer(r, updates)), d, r);
    TwoFurther(w, served, Answer(r, updates), Keep(d));
  }

  /** A call whose answer is lost: the device is left as it was, though the server has merged. */
  lemma UnansweredSyncIsAWalk(w: World, d: DeviceId, u: UserId, r: RequestId, cursor: Time, batch: seq<Entry>,
                              mid: seq<Label>, between: seq<Batch>, after: Table)
    requires Inv(w) && Idle(w, d) && r !in w.flights && Interposed(w, d, u, r, cursor, batch, mid, between)
    requires Y.PushedBatch(w.table, between, w.devices[d].rows, u, batch, after)
    ensures var served := PushLabels(d, u, r, cursor, batch) + mid;
            && Walk(w, served) && d in End(w, served).devices
            && Walk(w, served + [GiveUp(d)])
            && Leaves(End(w, served), End(w, served + [GiveUp(d)]), d, after, w.devices[d].rows)
  {
    var served := PushLabels(d, u, r, cursor, batch) + mid;
    ServedIsAWalk(w, d, u, r, cursor, batch, mid, between, after);
    GiveUpLeaves(End(w, served), d);
    WalkFurther(w, served, GiveUp(d));
  }

  /** A call that is answered and then not merged. */
  lemma UnmergedSyncIsAWalk(w: World, d: DeviceId, u: UserId, r: RequestId, cursor: Time,
                            batch: seq<Entry>, updates: seq<Entry>,
                            mid: seq<Label>, between: seq<Batch>, after: Table)
    requires Inv(w) && Idle(w, d) && r !in w.flights && Interposed(w, d, u, r, cursor, batch, mid, between)
    requires Y.PushedBatch(w.table, between, w.devices[d].rows, u, batch, after) && IsAnswer(after, u, cursor, updates)
    ensures var served := PushLabels(d, u, r, cursor, batch) + mid;
            && Walk(w, served) && d in End(w, served).devices
            && Walk(w, served + [Answer(r, updates)] + [GiveUp(d)])
            && Leaves(End(w, served), End(w, served + [Answer(r, updates)] + [GiveUp(d)]), d, after, w.devices[d].rows)
  {
    var served := PushLabels(d, u, r, cursor, batch) + mid;
    ServedIsAWalk(w, d, u, r, cursor, batch, mid, between, after);
    AnswerArrives(End(w, served), r, Upsert(w.table, u, batch).applied, updates);
    GiveUpLeaves(Next(End(w, served), Answer(r, updates)), d);
    TwoFurther(w, served, Answer(r, updates), GiveUp(d));
  }

  /** A request that is not served while the device waits; it may be served later. */
  lemma UnservedSyncIsAWalk(w: World, d: DeviceId, u: UserId, r: RequestId, cursor: Time, batch: seq<Entry>)
    requires Inv(w) && Idle(w, d) && r !in w.flights && IsDirtyList(w.devices[d].rows, u, batch)
    ensures var unserved := [Send(d, u, r, batch, cursor)] + [GiveUp(d)];
            && Walk(w, unserved) && Leaves(w, End(w, unserved), d, w.table, w.devices[d].rows)
            && End(w, unserved).flights == w.flights[r := Flight(u, batch, cursor, Sent)]
  {
    var send := Send(d, u, r, batch, cursor);
    StepKeepsInv(w, send);
    GiveUpLeaves(Next(w, send), d);
    WalkFirst(w, send, []);
    assert [send] + [] == [send];
    WalkFurther(w, [send], GiveUp(d));
  }

  /** The state others have left when the call comes to its end: all they did, and none of its own result. */
  ghost predicate OthersLeft(w: World, v: World, d: DeviceId, u: UserId, r: RequestId, cursor: Time, batch: seq<Entry>,
                             mid: seq<Label>, fate: Y.Fate)
    requires Walk(w, PushLabels(d, u, r, cursor, batch)) && Walk(End(w, PushLabels(d, u, r, cursor, batch)), mid)
  {
    v == if fate.RequestLost? then w else End(End(w, PushLabels(d, u, r, cursor, batch)), mid)
  }

  /**
   Every outcome SyncUseCase.Sync can have, whatever other devices and the server do between the
   server's two statements, requests begun meanwhile included, is a walk of the protocol that leaves
   the same server, the same device, and the others as they have left themselves.
   */
  lemma SyncIsAWalk(w: World, d: DeviceId, u: UserId, r: RequestId, cursor: Time,
                    batch: seq<Entry>, updates: seq<Entry>, mid: seq<Label>, between: seq<Batch>,
                    fate: Y.Fate, commits: bool, ok: bool, after: Table, rows': Rows) returns (labels: seq<Label>)
    requires Inv(w) && Idle(w, d) && r !in w.flights && Interposed(w, d, u, r, cursor, batch, mid, between)
    requires Y.SyncOutcomeOf(w.table, between, w.devices[d].rows, u, cursor, batch, updates,
                             fate, commits, ok, after, rows')
    ensures Walk(w, labels)
    ensures exists v :: OthersLeft(w, v, d, u, r, cursor, batch, mid, fate)
                        && d in v.devices && Leaves(v, End(w, labels), d, after, rows')
  {
    var push := PushLabels(d, u, r, cursor, batch);
    WalkAppend(w, push, mid);
    if fate.RequestLost? {
      UnservedSyncIsAWalk(w, d, u, r, cursor, batch);
      labels := [Send(d, u, r, batch, cursor)] + [GiveUp(d)];
      assert OthersLeft(w, w, d, u, r, cursor, batch, mid, fate);
    } else {
      if ok {
        CompletedSyncIsAWalk(w, d, u, r, cursor, batch, updates, mid, between, after, rows');
        labels := push + mid + [Answer(r, updates)] + [Keep(d)];
      } else {
        UnansweredSyncIsAWalk(w, d, u, r, cursor, batch, mid, between, after);
        labels := push + mid + [GiveUp(d)];
      }
      assert OthersLeft(w, End(w, push + mid), d, u, r, cursor, batch, mid, fate);
    }
  }

  /** So a run that comes to a call can be continued through it. */
  lemma SyncContinuesRun(worlds: seq<World>, labels: seq<Label>, d: DeviceId, u: UserId, r: RequestId, cursor: Time,
                         batch: seq<Entry>, updates: seq<Entry>, mid: seq<Label>, between: seq<Batch>,
                         fate: Y.Fate, commits: bool, ok: bool, after: Table, rows': Rows)
    returns (all: seq<World>, more: seq<Label>)
    requires Run(worlds, labels) && Idle(worlds[|labels|], d) && r !in worlds[|labels|].flights
    requires Interposed(worlds[|labels|], d, u, r, cursor, batch, mid, between)
    requires var w := worlds[|labels|];
             Y.SyncOutcomeOf(w.table, between, w.devices[d].rows, u, cursor, batch, updates,
                             fate, commits, ok, after, rows')
    ensures Run(all, labels + more) && worlds <= all
    ensures var w' := all[|labels + more|];
            w'.table == after && d in w'.devices && w'.devices[d] == Device(rows', None)
  {
    RunKeepsInv(worlds, labels, |labels|);
    more := SyncIsAWalk(worlds[|labels|], d, u, r, cursor, batch, updates, mid, between,
                        fate, commits, ok, after, rows');
    all := WalkExtendsRun(worlds, labels, more);
  }

  // ----- Calls that nothing interrupts -----

  lemma {:induction false} Above(ids: set<RequestId>) returns (r: RequestId)
    ensures forall q | q in ids :: q < r
  {
    if ids == {} {
      r := 0;
    } else {
      var top :| top in ids;
      var rest := Above(ids - {top});
      r := if top < rest then rest else top + 1;
      assert forall q | q in ids :: q == top || q in ids - {top};
    }
  }

  /** There is always an unused request id. */
  lemma UnusedRequest(w: World) returns (r: RequestId)
    ensures r !in w.flights
  {
    r := Above(w.flights.Keys);
  }

  lemma NothingInterposed(w: World, d: DeviceId, u: UserId, r: RequestId, cursor: Time, batch: seq<Entry>)
    requires Inv(w) && Idle(w, d) && r !in w.flights && IsDirtyList(w.devices[d].rows, u, batch)
    ensures Interposed(w, d, u, r, cursor, batch, [], [])
    ensures var push := PushLabels(d, u, r, cursor, batch) + [];
            Walk(w, push) && Waits(w, End(w, push), d, u, r, cursor, batch)
  {
    PushIsAWalk(w, d, u, r, cursor, batch);
    assert PushLabels(d, u, r, cursor, batch) + [] == PushLabels(d, u, r, cursor, batch);
  }

  /** All requests there were are still as they were. */
  ghost predicate FlightsKept(w: World, w': World) {
    forall q | q in w.flights :: q in w'.flights && w'.flights[q] == w.flights[q]
  }

  lemma {:induction false} WalkSparesFlight(w: World, labels: seq<Label>, q: RequestId)
    requires Walk(w, labels) && q in w.flights
    requires forall l | l in labels && (l.Merge? || l.Answer?) :: l.request != q
    ensures q in End(w, labels).flights && End(w, labels).flights[q] == w.flights[q]
    decreases |labels|
  {
    if labels == [] {
    } else {
      assert labels[0] in labels;
      WalkSparesFlight(Next(w, labels[0]), labels[1..], q);
    }
  }

  /** The whole round as a walk. */
  lemma RoundIsAWalk(w: World, d: DeviceId, u: UserId, r: RequestId, cursor: Time,
                     batch: seq<Entry>, updates: seq<Entry>, after: Table, rows': Rows) returns (labels: seq<Label>)
    requires Inv(w) && Idle(w, d) && r !in w.flights
    requires Y.SyncedBatch(w.table, [], w.devices[d].rows, u, cursor, batch, updates, after, rows')
    ensures Walk(w, labels) && Leaves(w, End(w, labels), d, after, rows') && FlightsKept(w, End(w, labels))
  {
    NothingInterposed(w, d, u, r, cursor, batch);
    CompletedSyncIsAWalk(w, d, u, r, cursor, batch, updates, [], [], after, rows');
    labels := PushLabels(d, u, r, cursor, batch) + [] + [Answer(r, updates)] + [Keep(d)];
    forall q | q in w.flights
      ensures q in End(w, labels).flights && End(w, labels).flights[q] == w.flights[q]
    {
      WalkSparesFlight(w, labels, q);
    }
  }

  /** Every reachable state meets what Convergence asks of an account's part of server and device. */
  lemma ReachableStatesAreBacked(worlds: seq<World>, labels: seq<Label>, i: nat, d: DeviceId, u: UserId)
    requires Run(worlds, labels) && i < |worlds| && d in worlds[i].devices
    ensures var table, rows := worlds[i].table, worlds[i].devices[d].rows;
            && WellKeyed(rows) && TableWellKeyed(table)
            && G.Backed(R.ViewOfTable(table, u), ViewOfRows(rows, u))
            && G.OwnedBy(ViewOfRows(rows, u), u)
            && G.Unshared(table, rows, u)
  {
    RunKeepsInv(worlds, labels, i);
    var w := worlds[i];
    var rows := w.devices[d].rows;
    assert DeviceOk(w, w.devices[d]);
    forall id | id in ViewOfRows(rows, u) && !rows[id].dirty
      ensures id in R.ViewOfTable(w.table, u) && AtLeast(R.ViewOfTable(w.table, u)[id], rows[id].entry)
    {
      assert Behind(w.table, u, rows[id].entry);
      R.ViewsAgree(w.table, rows, u, id);
    }
  }

  /**
   In every reachable state, whatever happened before, a sync that no other push interrupts makes the
   account's rows on the device equal to the server's, all clean, if and only if nothing the device
   lacks is stamped at or before its cursor.
   */
  lemma SyncConvergesIff(worlds: seq<World>, labels: seq<Label>, i: nat, d: DeviceId, u: UserId, cursor: Time,
                         after: Table, rows': Rows)
    requires Run(worlds, labels) && i < |worlds| && d in worlds[i].devices
    requires Y.Synced(worlds[i].table, [], worlds[i].devices[d].rows, u, cursor, after, rows')
    ensures G.Mirrors(R.ViewOfTable(after, u), ViewOfRows(rows', u), u)
       <==> G.NothingMissed(R.ViewOfTable(worlds[i].table, u), ViewOfRows(worlds[i].devices[d].rows, u), cursor)
  {
    ReachableStatesAreBacked(worlds, labels, i, d, u);
    var table, rows := worlds[i].table, worlds[i].devices[d].rows;
    Y.UninterruptedSyncIsRound(table, rows, u, cursor, after, rows');
    G.AccountStepsAreLocal(table, rows, u, cursor, u + 1);
    G.RoundMirrorsIff(R.ViewOfTable(table, u), ViewOfRows(rows, u), u, cursor);
  }

  // ----- A late stamp, reached -----

  /** Two devices, the first of which has created an entry. */
  function EarlyCreated(u: UserId, early: Entry): World {
    World(map[], map[0 := Device(map[early.uuid := Row(early, true, u)], None), 1 := Device(map[], None)], map[],
          map[early.uuid := u], {Change(0, u, early.uuid, early.version)})
  }

  lemma EarlyIsCreated(u: UserId, early: Entry)
    requires early.version == 1
    ensures Walk(INITIAL, [Join(0)] + [Join(1)] + [Create(0, u, early)])
    ensures End(INITIAL, [Join(0)] + [Join(1)] + [Create(0, u, early)]) == EarlyCreated(u, early)
    ensures Inv(EarlyCreated(u, early))
  {
    WalkFirst(INITIAL, Join(0), []);
    assert [Join(0)] + [] == [Join(0)];
    WalkFurther(INITIAL, [Join(0)], Join(1));
    WalkFurther(INITIAL, [Join(0)] + [Join(1)], Create(0, u, early));
    WalkKeepsInv(INITIAL, [Join(0)] + [Join(1)] + [Create(0, u, early)]);
    assert End(INITIAL, [Join(0)] + [Join(1)] + [Create(0, u, early)]).devices == EarlyCreated(u, early).devices;
  }

  /** A push of the only row, a dirty one, stores it and comes back clean, whatever the cursor. */
  lemma OnlyRowIsSynced(table: Table, u: UserId, e: Entry, cursor: Time) returns (updates: seq<Entry>)
    requires (u, e.uuid) !in table && forall k | k in table :: table[k].updatedAt <= cursor
    ensures var rows := map[e.uuid := Row(e, true, u)];
            Y.SyncedBatch(table, [], rows, u, cursor, [e], updates, table[(u, e.uuid) := e],
                map[e.uuid := Row(e, false, u)])
  {
    var rows := map[e.uuid := Row(e, true, u)];
    assert [e][..0] == [];
    assert Upsert(table, u, [e]) == Done(table[(u, e.uuid) := e], [e.uuid]);
    updates := if e.updatedAt > cursor then [e] else [];
    PersistAt(rows, u, updates, [e], IdSet([e.uuid]));
    var rows' := Persist(rows, u, updates, [e], IdSet([e.uuid]));
    assert rows'.Keys == {e.uuid} && rows'[e.uuid] == Row(e, false, u) by {
      assert e in updates ==> e.uuid in Ids(updates);
      assert updates == [] ==> Ids(updates) == {};
    }
    assert rows' == map[e.uuid := Row(e, false, u)];
  }

  /** Device 0 has synced its entry, and device 1 an older one after it. */
  ghost predicate LateArrived(w: World, u: UserId, early: Entry, late: Entry) {
    && w.table == map[(u, early.uuid) := early, (u, late.uuid) := late]
    && 0 in w.devices && w.devices[0] == Device(map[early.uuid := Row(early, false, u)], None)
  }

  lemma EarlyIsSynced(u: UserId, early: Entry) returns (labels: seq<Label>)
    requires early.version == 1
    ensures Walk(INITIAL, labels)
    ensures var w := End(INITIAL, labels);
            && Inv(w) && w.table == map[(u, early.uuid) := early] && w.owner == map[early.uuid := u]
            && w.devices == map[0 := Device(map[early.uuid := Row(early, false, u)], None), 1 := Device(map[], None)]
  {
    EarlyIsCreated(u, early);
    labels := [Join(0)] + [Join(1)] + [Create(0, u, early)];
    var w, c := EarlyCreated(u, early), early.updatedAt - early.updatedAt % NANOS_PER_SECOND;
    var updates := OnlyRowIsSynced(w.table, u, early, c);
    var sync := RoundIsAWalk(w, 0, u, 0, c, [early], updates, w.table[(u, early.uuid) := early],
                             map[early.uuid := Row(early, false, u)]);
    WalkAppend(INITIAL, labels, sync);
    labels := labels + sync;
  }

  /** Device 1, without rows, creates and pushes its entry. */
  lemma OnlyRowIsPushed(w: World, u: UserId, late: Entry) returns (labels: seq<Label>)
    requires Inv(w) && 0 in w.devices && 1 in w.devices && w.devices[1] == Device(map[], None)
    requires late.uuid !in w.owner && late.version == 1 && (u, late.uuid) !in w.table
    ensures Walk(w, labels)
    ensures var w' := End(w, labels);
            w'.table == w.table[(u, late.uuid) := late] && 0 in w'.devices && w'.devices[0] == w.devices[0]
  {
    var create := Create(1, u, late);
    StepKeepsInv(w, create);
    var w' := Next(w, create);
    var r := UnusedRequest(w');
    assert [late][..0] == [];
    assert Upsert(w.table, u, [late]) == Done(w.table[(u, late.uuid) := late], [late.uuid]);
    assert w'.devices[1].rows == map[late.uuid := Row(late, true, u)];
    var c := late.updatedAt - late.updatedAt % NANOS_PER_SECOND;
    var push := PushLabels(1, u, r, c, [late]);
    PushIsAWalk(w', 1, u, r, c, [late]);
    WalkFirst(w, create, push);
    labels := [create] + push;
  }

  lemma LateIsPushed(w: World, u: UserId, early: Entry, late: Entry) returns (labels: seq<Label>)
    requires Inv(w) && w.table == map[(u, early.uuid) := early] && w.owner == map[early.uuid := u]
    requires w.devices == map[0 := Device(map[early.uuid := Row(early, false, u)], None), 1 := Device(map[], None)]
    requires early.uuid != late.uuid && late.version == 1
    ensures Walk(w, labels) && LateArrived(End(w, labels), u, early, late)
  {
    labels := OnlyRowIsPushed(w, u, late);
  }

  /**
   The state of Convergence.LateStampIsMissed is reached by a run, for any two stamps. There an
   uninterrupted sync of device 0 leaves out the late entry exactly if its cursor is not before the
   entry's stamp; with the cursor GetLastUpdate gives when it can read its stamps, exactly if the late
   entry is stamped at or before the beginning of the early one's second.
   */
  lemma LateStampIsReached(u: UserId, early: Entry, late: Entry) returns (labels: seq<Label>)
    requires early.uuid != late.uuid && early.version == 1 && late.version == 1
    ensures Walk(INITIAL, labels) && LateArrived(End(INITIAL, labels), u, early, late)
    ensures var w := End(INITIAL, labels);
            && (forall cursor, after, rows' | Y.Synced(w.table, [], w.devices[0].rows, u, cursor, after, rows') ::
                  after == w.table && (late.uuid !in rows' <==> late.updatedAt <= cursor))
            && (forall cursor | L.IsLastUpdate(w.devices[0].rows, Some(u), cursor) ::
                  late.updatedAt <= cursor <==> late.updatedAt <= early.updatedAt - early.updatedAt % 1_000_000_000)
  {
    var synced := EarlyIsSynced(u, early);
    var late' := LateIsPushed(End(INITIAL, synced), u, early, late);
    WalkAppend(INITIAL, synced, late');
    labels := synced + late';
    WalkKeepsInv(INITIAL, labels);
    var w := End(INITIAL, labels);
    assert DeviceOk(w, w.devices[0]);
    forall cursor, after, rows' | Y.Synced(w.table, [], w.devices[0].rows, u, cursor, after, rows')
      ensures after == w.table && (late.uuid !in rows' <==> late.updatedAt <= cursor)
    {
      CleanRoundDelivers(w.table, w.devices[0].rows, u, cursor, late.uuid, after, rows');
    }
    forall cursor | L.IsLastUpdate(w.devices[0].rows, Some(u), cursor)
      ensures cursor == early.updatedAt - early.updatedAt % 1_000_000_000
    {
      CursorOfOneRow(u, early, cursor);
    }
  }

  /** A clean device pushes nothing, and receives a row it lacks exactly if the row is stamped after its cursor. */
  lemma CleanRoundDelivers(table: Table, rows: Rows, u: UserId, cursor: Time, id: Uuid, after: Table, rows': Rows)
    requires WellKeyed(rows) && TableWellKeyed(table) && forall x | x in rows :: !rows[x].dirty
    requires id !in rows && (u, id) in table
    requires Y.Synced(table, [], rows, u, cursor, after, rows')
    ensures after == table && (id in rows' <==> table[(u, id)].updatedAt > cursor)
  {
    Y.UninterruptedSyncIsRound(table, rows, u, cursor, after, rows');
    CleanPushesNothing(table, rows, u);
    R.RowsAfterAt(table, rows, u, cursor, id);
  }

  lemma CursorOfOneRow(u: UserId, e: Entry, cursor: Time)
    requires L.IsLastUpdate(map[e.uuid := Row(e, false, u)], Some(u), cursor)
    ensures cursor == e.updatedAt - e.updatedAt % 1_000_000_000
  {
    var rows := map[e.uuid := Row(e, false, u)];
    assert e.uuid in rows && L.Sees(Some(u), rows[e.uuid]);
  }

  lemma CleanPushesNothing(table: Table, rows: Rows, u: UserId)
    requires forall id | id in rows :: !rows[id].dirty
    ensures R.TableAfter(table, rows, u) == table
  {
    forall k
      ensures SameAt(R.TableAfter(table, rows, u), table, k)
    {
      R.TableAfterAt(table, rows, u, k);
    }
    SameEverywhere(R.TableAfter(table, rows, u), table);
  }
}
