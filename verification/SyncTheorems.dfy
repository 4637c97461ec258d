/** What the sync protocol guarantees in every run. */
module SyncTheorems {
  import opened Basics
  import opened Entries
  import opened ServerTable
  import opened LocalRows
  import opened SyncProtocol

  // ----- No row is ever lowered -----

  /**
   A device's row stays, under its account, and moves only up; a clean row changes only to a
   strictly higher version.
   */
  ghost predicate NotLowered(before: Rows, after: Rows) {
    forall id | id in before ::
      && id in after
      && after[id].user == before[id].user
      && after[id].entry.version >= before[id].entry.version
      && (!before[id].dirty ==> AtLeast(after[id].entry, before[id].entry))
  }

  /**
   In every run, with pushes interleaved anywhere and replies lost, PersistSyncResult never lowers
   a row, although saveEntry has no version guard.
   */
  lemma PersistNeverLowers(worlds: seq<World>, labels: seq<Label>, i: nat)
    requires Run(worlds, labels) && i < |labels| && labels[i].Keep?
    ensures var d := labels[i].device;
            && d in worlds[i].devices && d in worlds[i + 1].devices
            && NotLowered(worlds[i].devices[d].rows, worlds[i + 1].devices[d].rows)
  {
    RunKeepsInv(worlds, labels, i);
    var w, d := worlds[i], labels[i].device;
    var dev := w.devices[d];
    assert DeviceOk(w, dev);
    forall id | id in dev.rows
      ensures id in worlds[i + 1].devices[d].rows
      ensures var after, row := worlds[i + 1].devices[d].rows[id], dev.rows[id];
              && after.user == row.user && after.entry.version >= row.entry.version
              && (!row.dirty ==> AtLeast(after.entry, row.entry))
    {
      KeptAt(w, dev, w.flights[dev.waiting.value], id);
    }
  }

  /** In every reachable state the server backs every clean row of every device. */
  lemma CleanRowsAreBacked(worlds: seq<World>, labels: seq<Label>, i: nat, d: DeviceId, id: Uuid)
    requires Run(worlds, labels) && i < |worlds|
    requires d in worlds[i].devices && id in worlds[i].devices[d].rows && !worlds[i].devices[d].rows[id].dirty
    ensures var row, table := worlds[i].devices[d].rows[id], worlds[i].table;
            && (row.user, id) in table
            && table[(row.user, id)].version >= row.entry.version
            && (table[(row.user, id)].version == row.entry.version ==> table[(row.user, id)] == row.entry)
  {
    RunKeepsInv(worlds, labels, i);
    assert DeviceOk(worlds[i], worlds[i].devices[d]);
  }

  /** The server never drops a row and replaces it only by a strictly higher version. */
  lemma {:induction false} ServerOnlyGrows(worlds: seq<World>, labels: seq<Label>, i: nat, j: nat)
    requires Run(worlds, labels) && i <= j < |worlds|
    ensures Grows(worlds[i].table, worlds[j].table)
  {
    if i == j {
    } else {
      ServerOnlyGrows(worlds, labels, i, j - 1);
      var w, l := worlds[j - 1], labels[j - 1];
      if l.Merge? {
        UpsertGrows(w.table, w.flights[l.request].user, w.flights[l.request].batch);
      }
      GrowsTransitive(worlds[i].table, w.table, worlds[j].table);
    }
  }

  // ----- No edit vanishes -----

  lemma {:induction false} ChangesAreRemembered(worlds: seq<World>, labels: seq<Label>, i: nat, j: nat)
    requires Run(worlds, labels) && i <= j < |worlds|
    ensures worlds[i].changes <= worlds[j].changes
  {
    if i == j {
    } else {
      ChangesAreRemembered(worlds, labels, i, j - 1);
      assert Enabled(worlds[j - 1], labels[j - 1]) && worlds[j] == Next(worlds[j - 1], labels[j - 1]);
    }
  }

  /**
   For every change a device ever saves, in every later state of every run, its row is still dirty
   at that version or above, or the server has reached that version. Syncs may fail at any point.
   */
  lemma NoEditVanishes(worlds: seq<World>, labels: seq<Label>, i: nat, j: nat)
    requires Run(worlds, labels) && i < j < |worlds|
    requires labels[i].Create? || labels[i].Modify?
    ensures var d, u, e := labels[i].device, labels[i].user, labels[i].entry;
            var w := worlds[j];
            || Reached(w.table, u, e.uuid, e.version)
            || (&& d in w.devices && Holds(w.devices[d].rows, u, e.uuid)
                && w.devices[d].rows[e.uuid].dirty && w.devices[d].rows[e.uuid].entry.version >= e.version)
  {
    var c := Change(labels[i].device, labels[i].user, labels[i].entry.uuid, labels[i].entry.version);
    assert worlds[i + 1] == Next(worlds[i], labels[i]);
    assert c in worlds[i + 1].changes;
    ChangesAreRemembered(worlds, labels, i + 1, j);
    RunKeepsInv(worlds, labels, j);
    assert ChangeSafe(worlds[j], c);
  }

  // ----- Dirty flags -----

  /** The server accepted exactly this entry when it merged request `r` at step `m`. */
  ghost predicate AcceptedAt(worlds: seq<World>, labels: seq<Label>, m: nat, r: RequestId, u: UserId, e: Entry) {
    && m < |labels| && |worlds| == |labels| + 1
    && labels[m] == Merge(r)
    && Beats(worlds[m].table, u, e)
    && (u, e.uuid) in worlds[m + 1].table && worlds[m + 1].table[(u, e.uuid)] == e
  }

  predicate AnsweredWith(w: World, r: RequestId, e: Entry) {
    r in w.flights && w.flights[r].stage.Answered? && e in w.flights[r].stage.updates
  }

  /** A request that is past merging was merged at some step, with the batch and the applied list it now has. */
  lemma {:induction false} MergeHappened(worlds: seq<World>, labels: seq<Label>, i: nat, r: RequestId) returns (m: nat)
    requires Run(worlds, labels) && i < |worlds|
    requires r in worlds[i].flights && !worlds[i].flights[r].stage.Sent?
    ensures m < i && labels[m] == Merge(r)
    ensures r in worlds[m].flights && worlds[m].flights[r].stage.Sent?
    ensures var f, now := worlds[m].flights[r], worlds[i].flights[r];
            && f.user == now.user && f.batch == now.batch
            && Upsert(worlds[m].table, f.user, f.batch) == Done(worlds[m + 1].table, now.stage.applied)
  {
    var w, l := worlds[i - 1], labels[i - 1];
    assert Enabled(w, l) && worlds[i] == Next(w, l);
    if l == Merge(r) {
      m := i - 1;
    } else {
      OnlyMergeMerges(w, l, r);
      m := MergeHappened(worlds, labels, i - 1, r);
    }
  }

  lemma OnlyMergeMerges(w: World, l: Label, r: RequestId)
    requires Enabled(w, l) && l != Merge(r)
    requires r in Next(w, l).flights && !Next(w, l).flights[r].stage.Sent?
    ensures r in w.flights && !w.flights[r].stage.Sent?
    ensures var f, f' := w.flights[r], Next(w, l).flights[r];
            f.user == f'.user && f.batch == f'.batch && f.stage.applied == f'.stage.applied
  {
  }

  /**
   A sync clears a dirty flag only if the server accepted exactly that row while merging this very
   request, or the row was replaced by one this request was answered with, of the same version or
   above. All other dirty rows keep their content and stay dirty.
   */
  lemma DirtyClearedOnlyWhenSafe(worlds: seq<World>, labels: seq<Label>, i: nat, id: Uuid) returns (m: nat)
    requires Run(worlds, labels) && i < |labels| && labels[i].Keep?
    requires id in worlds[i].devices[labels[i].device].rows && worlds[i].devices[labels[i].device].rows[id].dirty
    ensures id in worlds[i + 1].devices[labels[i].device].rows
    ensures var d := labels[i].device;
            var row, after := worlds[i].devices[d].rows[id], worlds[i + 1].devices[d].rows[id];
            || after == row
            || (&& after == row.(dirty := false) && m < i
                && AcceptedAt(worlds, labels, m, worlds[i].devices[d].waiting.value, row.user, row.entry))
            || (&& after == Row(after.entry, false, row.user) && after.entry.version >= row.entry.version
                && AnsweredWith(worlds[i], worlds[i].devices[d].waiting.value, after.entry)
                && Behind(worlds[i].table, after.user, after.entry))
  {
    RunKeepsInv(worlds, labels, i);
    var w, d := worlds[i], labels[i].device;
    var dev, r := w.devices[d], w.devices[d].waiting.value;
    var f, row := w.flights[r], dev.rows[id];
    assert DeviceOk(w, dev);
    KeptAt(w, dev, f, id);
    m := MergeHappened(worlds, labels, i, r);
    PersistAt(dev.rows, f.user, f.stage.updates, f.batch, IdSet(f.stage.applied));
    if id in Ids(f.stage.updates) {
      var e :| e in f.stage.updates && e.uuid == id;
      assert worlds[i + 1].devices[d].rows[e.uuid] == Row(e, false, f.user);
    } else if row.user == f.user && id in f.stage.applied {
      assert row.entry in f.batch;
      UpsertExact(worlds[m].table, f.user, f.batch);
    }
  }

  // ----- What becomes of an edit's content -----

  /** The device still holds exactly this entry, waiting to be pushed. */
  predicate HeldDirty(w: World, d: DeviceId, u: UserId, e: Entry) {
    d in w.devices && e.uuid in w.devices[d].rows && w.devices[d].rows[e.uuid] == Row(e, true, u)
  }

  /** At some state after `i` and up to `j` the server's row was exactly this entry. */
  ghost predicate WasStored(worlds: seq<World>, i: nat, j: nat, u: UserId, e: Entry) {
    exists k :: i < k <= j < |worlds| && (u, e.uuid) in worlds[k].table && worlds[k].table[(u, e.uuid)] == e
  }

  /** After step `i` and before `j` its own device saved a later change of the entry. */
  ghost predicate WasSuperseded(labels: seq<Label>, i: nat, j: nat, d: DeviceId, u: UserId, e: Entry) {
    exists k :: i < k < j <= |labels|
                && labels[k].Modify? && labels[k].device == d && labels[k].user == u && labels[k].entry.uuid == e.uuid
                && labels[k].entry.version == e.version + 1
  }

  /** After step `i` and before `j` a request that carried exactly this entry met a stored version at or above it. */
  ghost predicate WasBeaten(worlds: seq<World>, labels: seq<Label>, i: nat, j: nat, u: UserId, e: Entry) {
    exists k :: i < k < j <= |labels| && j < |worlds| && BeatenAt(worlds[k], labels[k], u, e)
  }

  ghost predicate BeatenAt(w: World, l: Label, u: UserId, e: Entry) {
    && l.Merge? && l.request in w.flights
    && w.flights[l.request].user == u && e in w.flights[l.request].batch
    && Reached(w.table, u, e.uuid, e.version)
  }

  /** The four fates a saved entry can have met. */
  ghost predicate AccountedFor(worlds: seq<World>, labels: seq<Label>, i: nat, j: nat,
                               d: DeviceId, u: UserId, e: Entry)
  {
    || (j < |worlds| && HeldDirty(worlds[j], d, u, e))
    || WasStored(worlds, i, j, u, e)
    || WasSuperseded(labels, i, j, d, u, e)
    || WasBeaten(worlds, labels, i, j, u, e)
  }

  lemma {:induction false} FlightsStay(worlds: seq<World>, labels: seq<Label>, i: nat, j: nat, r: RequestId)
    requires Run(worlds, labels) && i <= j < |worlds| && r in worlds[i].flights
    ensures r in worlds[j].flights
  {
    if i == j {
    } else {
      FlightsStay(worlds, labels, i, j - 1, r);
      assert Enabled(worlds[j - 1], labels[j - 1]) && worlds[j] == Next(worlds[j - 1], labels[j - 1]);
    }
  }

  /** A device that was idle waits only for a request it has sent since. */
  lemma {:induction false} WaitsForNewer(worlds: seq<World>, labels: seq<Label>, i: nat, j: nat, d: DeviceId)
    requires Run(worlds, labels) && i <= j < |worlds| && Idle(worlds[i], d)
    requires d in worlds[j].devices && worlds[j].devices[d].waiting.Some?
    ensures worlds[j].devices[d].waiting.value !in worlds[i].flights
  {
    var w, l := worlds[j - 1], labels[j - 1];
    assert Enabled(w, l) && worlds[j] == Next(w, l);
    var r := worlds[j].devices[d].waiting.value;
    if l.Send? && l.device == d {
      if r in worlds[i].flights {
        FlightsStay(worlds, labels, i, j - 1, r);
      }
    } else {
      DevicesStay(worlds, labels, i, j - 1, d);
      WaitsForNewer(worlds, labels, i, j - 1, d);
    }
  }

  lemma {:induction false} DevicesStay(worlds: seq<World>, labels: seq<Label>, i: nat, j: nat, d: DeviceId)
    requires Run(worlds, labels) && i <= j < |worlds| && d in worlds[i].devices
    ensures d in worlds[j].devices
  {
    if i == j {
    } else {
      DevicesStay(worlds, labels, i, j - 1, d);
      assert Enabled(worlds[j - 1], labels[j - 1]) && worlds[j] == Next(worlds[j - 1], labels[j - 1]);
    }
  }

  /** A step that takes the held entry from the device is a later change of it or a merge of an answer. */
  lemma HeldUntil(w: World, l: Label, d: DeviceId, u: UserId, e: Entry)
    requires Inv(w) && Enabled(w, l) && HeldDirty(w, d, u, e) && !HeldDirty(Next(w, l), d, u, e)
    ensures || l == Keep(d)
            || (l.Modify? && l.device == d && l.user == u && l.entry.uuid == e.uuid && l.entry.version == e.version + 1)
  {
    assert DeviceOk(w, w.devices[d]);
  }

  /** When a merge takes it, the request had been merged, carrying the entry: it was stored or beaten there. */
  lemma MergedBeforeKept(worlds: seq<World>, labels: seq<Label>, i: nat, j: nat, d: DeviceId, u: UserId, e: Entry)
    requires Run(worlds, labels) && i < j < |labels| && Idle(worlds[i + 1], d)
    requires labels[j] == Keep(d) && HeldDirty(worlds[j], d, u, e) && !HeldDirty(worlds[j + 1], d, u, e)
    ensures WasStored(worlds, i, j + 1, u, e) || WasBeaten(worlds, labels, i, j + 1, u, e)
  {
    RunKeepsInv(worlds, labels, j);
    var w := worlds[j];
    assert Enabled(w, labels[j]) && worlds[j + 1] == Next(w, labels[j]);
    var dev, r := w.devices[d], w.devices[d].waiting.value;
    assert DeviceOk(w, dev);
    KeepTakesOwn(w, d, u, e);
    var m := MergeHappened(worlds, labels, j, r);
    WaitsForNewer(worlds, labels, i + 1, j, d);
    if m <= i {
      FlightsStay(worlds, labels, m, i + 1, r);
    }
    MergeStoresOrBeats(worlds[m], labels[m], worlds[m + 1], u, e);
    if BeatenAt(worlds[m], labels[m], u, e) {
      assert WasBeaten(worlds, labels, i, j + 1, u, e);
    } else {
      assert worlds[m + 1].table[(u, e.uuid)] == e;
      assert WasStored(worlds, i, j + 1, u, e);
    }
  }

  /** A merge that changes a held row is of a request of its account, which carried the row. */
  lemma KeepTakesOwn(w: World, d: DeviceId, u: UserId, e: Entry)
    requires Inv(w) && Enabled(w, Keep(d)) && HeldDirty(w, d, u, e) && !HeldDirty(Next(w, Keep(d)), d, u, e)
    ensures w.flights[w.devices[d].waiting.value].user == u && e in w.flights[w.devices[d].waiting.value].batch
  {
    var dev := w.devices[d];
    assert DeviceOk(w, dev);
    KeptAt(w, dev, w.flights[dev.waiting.value], e.uuid);
  }

  lemma MergeStoresOrBeats(w: World, l: Label, w': World, u: UserId, e: Entry)
    requires l.Merge? && l.request in w.flights && w.flights[l.request].user == u && e in w.flights[l.request].batch
    requires DistinctIds(w.flights[l.request].batch)
    requires Upsert(w.table, u, w.flights[l.request].batch).Done?
    requires w'.table == Upsert(w.table, u, w.flights[l.request].batch).table
    ensures BeatenAt(w, l, u, e) || ((u, e.uuid) in w'.table && w'.table[(u, e.uuid)] == e)
  {
    UpsertExact(w.table, u, w.flights[l.request].batch);
  }

  lemma SavedIsHeld(w: World, l: Label)
    requires Enabled(w, l) && (l.Create? || l.Modify?)
    ensures HeldDirty(Next(w, l), l.device, l.user, l.entry) && Idle(Next(w, l), l.device)
  {
  }

  /** Once stored, superseded or beaten, an entry has been so ever after. */
  lemma FatesStay(worlds: seq<World>, labels: seq<Label>, i: nat, j: nat, d: DeviceId, u: UserId, e: Entry)
    requires j < |labels| && |worlds| == |labels| + 1 && AccountedFor(worlds, labels, i, j, d, u, e)
    ensures HeldDirty(worlds[j], d, u, e) || AccountedFor(worlds, labels, i, j + 1, d, u, e)
  {
  }

  lemma LeavingIsAccountedFor(worlds: seq<World>, labels: seq<Label>, i: nat, j: nat, d: DeviceId, u: UserId, e: Entry)
    requires Run(worlds, labels) && i < j < |labels| && Idle(worlds[i + 1], d)
    requires HeldDirty(worlds[j], d, u, e)
    ensures AccountedFor(worlds, labels, i, j + 1, d, u, e)
  {
    assert Enabled(worlds[j], labels[j]) && worlds[j + 1] == Next(worlds[j], labels[j]);
    if !HeldDirty(worlds[j + 1], d, u, e) {
      RunKeepsInv(worlds, labels, j);
      HeldUntil(worlds[j], labels[j], d, u, e);
      if labels[j] == Keep(d) {
        MergedBeforeKept(worlds, labels, i, j, d, u, e);
      }
    }
  }

  /**
   What becomes of every edit, content and all. For every change a device ever saves, in every later
   state of every run, exactly that entry is still dirty on its device; or the server has stored
   exactly that entry since; or its own device has saved the next change of it since; or a request
   that carried it has met a stored version at or above its own since.
   */
  lemma {:induction false} EditIsAccountedFor(worlds: seq<World>, labels: seq<Label>, i: nat, j: nat)
    requires Run(worlds, labels) && i < j < |worlds|
    requires labels[i].Create? || labels[i].Modify?
    ensures AccountedFor(worlds, labels, i, j, labels[i].device, labels[i].user, labels[i].entry)
  {
    var d, u, e := labels[i].device, labels[i].user, labels[i].entry;
    SavedIsHeld(worlds[i], labels[i]);
    if j == i + 1 {
    } else {
      EditIsAccountedFor(worlds, labels, i, j - 1);
      FatesStay(worlds, labels, i, j - 1, d, u, e);
      if HeldDirty(worlds[j - 1], d, u, e) {
        LeavingIsAccountedFor(worlds, labels, i, j - 1, d, u, e);
      }
    }
  }

  // ----- Accounts do not interfere -----

  /** The account a step works for, if any. */
  ghost function ActsFor(w: World, l: Label): Option<UserId>
    requires Enabled(w, l)
  {
    match l
    case Create(_, u, _) => Some(u)
    case Modify(_, u, _) => Some(u)
    case Send(_, u, _, _, _) => Some(u)
    case Merge(r) => Some(w.flights[r].user)
    case Answer(r, _) => Some(w.flights[r].user)
    case Keep(d) => Some(w.flights[w.devices[d].waiting.value].user)
    case Join(_) => None
    case GiveUp(_) => None
  }

  /** The account's rows are the same on the server and on every device. */
  ghost predicate SameAccount(a: World, b: World, user: UserId) {
    && (forall id :: (user, id) in a.table <==> (user, id) in b.table)
    && (forall id | (user, id) in a.table :: a.table[(user, id)] == b.table[(user, id)])
    && (forall d | d in a.devices :: d in b.devices && SameRows(a.devices[d].rows, b.devices[d].rows, user))
  }

  ghost predicate SameRows(a: Rows, b: Rows, user: UserId) {
    forall id :: (Holds(a, user, id) <==> Holds(b, user, id)) && (Holds(a, user, id) ==> a[id] == b[id])
  }

  lemma StepSparesOthers(w: World, l: Label, other: UserId)
    requires Inv(w) && Enabled(w, l) && ActsFor(w, l) != Some(other)
    ensures SameAccount(w, Next(w, l), other)
  {
    var w' := Next(w, l);
    TableSparesOthers(w, l, other);
    forall d | d in w.devices
      ensures d in w'.devices && SameRows(w.devices[d].rows, w'.devices[d].rows, other)
    {
      RowsSpareOthers(w, l, d, other);
    }
  }

  lemma TableSparesOthers(w: World, l: Label, other: UserId)
    requires Enabled(w, l) && ActsFor(w, l) != Some(other)
    ensures var w' := Next(w, l);
            && (forall id :: (other, id) in w.table <==> (other, id) in w'.table)
            && (forall id | (other, id) in w.table :: w.table[(other, id)] == w'.table[(other, id)])
  {
    if l.Merge? {
      forall id
        ensures (other, id) in w.table <==> (other, id) in Next(w, l).table
        ensures (other, id) in w.table ==> w.table[(other, id)] == Next(w, l).table[(other, id)]
      {
        UpsertKeepsOtherUsers(w.table, w.flights[l.request].user, w.flights[l.request].batch, (other, id));
      }
    }
  }

  lemma RowsSpareOthers(w: World, l: Label, d: DeviceId, other: UserId)
    requires Inv(w) && Enabled(w, l) && ActsFor(w, l) != Some(other) && d in w.devices
    ensures d in Next(w, l).devices && SameRows(w.devices[d].rows, Next(w, l).devices[d].rows, other)
  {
    assert DeviceOk(w, w.devices[d]);
    if l == Keep(d) {
      KeepSparesOthers(w, d, other);
    }
  }

  lemma KeepSparesOthers(w: World, d: DeviceId, other: UserId)
    requires Inv(w) && Enabled(w, Keep(d)) && ActsFor(w, Keep(d)) != Some(other)
    ensures SameRows(w.devices[d].rows, Next(w, Keep(d)).devices[d].rows, other)
  {
    var dev := w.devices[d];
    var f := w.flights[dev.waiting.value];
    assert DeviceOk(w, dev);
    var kept := Kept(dev.rows, f);
    forall id
      ensures (Holds(dev.rows, other, id) <==> Holds(kept, other, id))
          && (Holds(dev.rows, other, id) ==> dev.rows[id] == kept[id])
    {
      KeptAt(w, dev, f, id);
      PersistAt(dev.rows, f.user, f.stage.updates, f.batch, IdSet(f.stage.applied));
      if id in kept && id !in dev.rows {
        var e :| e in f.stage.updates && e.uuid == id;
        assert kept[e.uuid] == Row(e, false, f.user);
      }
    }
  }

  /**
   While no step works for an account, its rows stay exactly as they are on the server and on every
   device, whatever the other accounts create, edit and sync, on the same devices or others.
   */
  lemma {:induction false} OtherAccountsUntouched(worlds: seq<World>, labels: seq<Label>, i: nat, j: nat, other: UserId)
    requires Run(worlds, labels) && i <= j < |worlds|
    requires forall k | i <= k < j :: Enabled(worlds[k], labels[k]) && ActsFor(worlds[k], labels[k]) != Some(other)
    ensures SameAccount(worlds[i], worlds[j], other)
  {
    if i == j {
    } else {
      OtherAccountsUntouched(worlds, labels, i, j - 1, other);
      RunKeepsInv(worlds, labels, j - 1);
      StepSparesOthers(worlds[j - 1], labels[j - 1], other);
      forall d | d in worlds[i].devices
        ensures d in worlds[j].devices && SameRows(worlds[i].devices[d].rows, worlds[j].devices[d].rows, other)
      {
        assert SameRows(worlds[i].devices[d].rows, worlds[j - 1].devices[d].rows, other);
        assert SameRows(worlds[j - 1].devices[d].rows, worlds[j].devices[d].rows, other);
      }
    }
  }
}
