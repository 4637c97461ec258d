/**
 Serial use of one account from many devices: an editing session begins with a completed sync and
 ends with one, sessions do not overlap, and every edit is stamped later than every stamp the
 server holds or may still receive from a request its own device gave up on. Syncs of other devices
 may fall anywhere. A device may give up on a sync at any time; the server may serve its request
 then, later, in any order, or never. Of the cursor only `CursorWithin` is used.
 */
module SerialUse {
  import opened Basics
  import opened Entries
  import opened LocalRows
  import opened SyncRound
  import opened Convergence

  /** A request whose device has given up on it: the dirty rows it carries. */
  datatype Late = Late(device: DeviceId, batch: ServerView)

  /** `late` holds such requests until they are served; `lost` records the devices that ever gave up. */
  datatype State = State(fleet: Fleet, holder: Option<DeviceId>, lost: set<DeviceId>, late: map<nat, Late>)

  datatype Action =
    | Begin(device: DeviceId, cursor: Time)
    | Edit(device: DeviceId, entry: Entry)
    | Finish(device: DeviceId, cursor: Time)
    | Refresh(device: DeviceId, cursor: Time)
    | Abandon(device: DeviceId, request: nat)
    | Serve(request: nat)

  function DirtyView(local: Rows): ServerView {
    map id | id in local && local[id].dirty :: local[id].entry
  }

  /** A request's rows as a device would hold them. */
  function AsRows(batch: ServerView, user: UserId): Rows {
    map id | id in batch :: Row(batch[id], true, user)
  }

  predicate Completes(a: Action) {
    a.Begin? || a.Finish? || a.Refresh?
  }

  ghost predicate Later(server: ServerView, t: Time) {
    t > 0 && forall id | id in server :: t > server[id].updatedAt
  }

  ghost predicate Fresh(f: Fleet, id: Uuid) {
    id !in f.server && forall d | d in f.locals :: id !in f.locals[d]
  }

  /** Later than all that the device's own requests, given up on and not yet served, still carry. */
  ghost predicate LaterThanLate(late: map<nat, Late>, d: DeviceId, t: Time) {
    forall r, id | r in late && late[r].device == d && id in late[r].batch :: t > late[r].batch[id].updatedAt
  }

  /** A new entry at version 1, or the device's own row one version up. */
  ghost predicate EditOk(s: State, d: DeviceId, e: Entry)
    requires d in s.fleet.locals
  {
    && Later(s.fleet.server, e.updatedAt) && LaterThanLate(s.late, d, e.updatedAt)
    && if e.uuid in s.fleet.locals[d] then e.version == s.fleet.locals[d][e.uuid].entry.version + 1
       else e.version == 1 && Fresh(s.fleet, e.uuid)
  }

  ghost predicate Enabled(s: State, a: Action) {
    match a
    case Begin(d, c) => d in s.fleet.locals && s.holder == None && CursorWithin(s.fleet.locals[d], c)
    case Edit(d, e) => d in s.fleet.locals && s.holder == Some(d) && EditOk(s, d, e)
    case Finish(d, c) => d in s.fleet.locals && s.holder == Some(d) && CursorWithin(s.fleet.locals[d], c)
    case Refresh(d, c) => d in s.fleet.locals && CursorWithin(s.fleet.locals[d], c)
    case Abandon(d, r) => d in s.fleet.locals && r !in s.late
    case Serve(r) => r in s.late
  }

  function Save(f: Fleet, user: UserId, d: DeviceId, e: Entry): Fleet
    requires d in f.locals
  {
    f.(locals := f.locals[d := f.locals[d][e.uuid := Row(e, true, user)]])
  }

  function Served(f: Fleet, user: UserId, batch: ServerView): Fleet {
    f.(server := Push(f.server, AsRows(batch, user)))
  }

  ghost function Next(s: State, user: UserId, a: Action): State
    requires Enabled(s, a)
  {
    match a
    case Begin(d, c) => s.(fleet := Step(s.fleet, user, Visit(d, c)), holder := Some(d))
    case Finish(d, c) => s.(fleet := Step(s.fleet, user, Visit(d, c)), holder := None)
    case Refresh(d, c) => s.(fleet := Step(s.fleet, user, Visit(d, c)))
    case Edit(d, e) => s.(fleet := Save(s.fleet, user, d, e))
    case Abandon(d, r) => s.(lost := s.lost + {d}, late := s.late[r := Late(d, DirtyView(s.fleet.locals[d]))])
    case Serve(r) => s.(fleet := Served(s.fleet, user, s.late[r].batch), late := s.late - {r})
  }

  /** Devices with no rows and an empty server. */
  function Start(devices: set<DeviceId>): State {
    State(Fleet(map[], map d | d in devices :: map[]), None, {}, map[])
  }

  /** `states` is a run of these devices: each state is left by the action at its index. */
  ghost predicate Run(user: UserId, devices: set<DeviceId>, states: seq<State>, actions: seq<Action>) {
    && |states| == |actions| + 1
    && states[0] == Start(devices)
    && forall i | 0 <= i < |actions| ::
         Enabled(states[i], actions[i]) && states[i + 1] == Next(states[i], user, actions[i])
  }

  // ----- The invariant -----

  /** The server has moved on from what the device holds, or not at all. */
  predicate Overtakes(server: Entry, held: Entry) {
    server == held || (server.version > held.version && server.updatedAt > held.updatedAt)
  }

  /** A device outside a session: behind or equal, and whatever it lacks is stamped after everything it holds. */
  ghost predicate Trails(server: ServerView, local: Rows) {
    && (forall id | id in local :: id in server && Overtakes(server[id], local[id].entry))
    && (forall id, held | id in server && held in local && !Current(server, local, id) ::
          server[id].updatedAt > local[held].entry.updatedAt)
  }

  predicate Current(server: ServerView, local: Rows, id: Uuid) {
    id in local && id in server && local[id].entry == server[id]
  }

  /** The device's own edit, not yet pushed. */
  ghost predicate Ahead(server: ServerView, local: Rows, id: Uuid) {
    && id in local && local[id].dirty
    && Later(server, local[id].entry.updatedAt)
    && (id in server ==> local[id].entry.version > server[id].version)
  }

  /** The device in session: it holds the server's rows, except where its own edits are newer. */
  ghost predicate LeadsServer(server: ServerView, local: Rows) {
    && (forall id | id in server :: id in local)
    && (forall id | id in local :: Current(server, local, id) || Ahead(server, local, id))
  }

  /** No dirty row has been pushed already. */
  ghost predicate Unpushed(server: ServerView, local: Rows) {
    forall id | id in local && local[id].dirty && id in server :: server[id].version < local[id].entry.version
  }

  ghost predicate Stamped(server: ServerView) {
    forall id | id in server :: server[id].updatedAt > 0
  }

  ghost predicate Plays(server: ServerView, local: Rows, user: UserId, inSession: bool, lossy: bool) {
    && OwnedBy(local, user)
    && (if inSession then LeadsServer(server, local) else Trails(server, local))
    && (!lossy ==> Unpushed(server, local))
  }

  // ----- Requests given up on -----

  /** The server would still take this row of the request. */
  predicate Open(server: ServerView, batch: ServerView, id: Uuid) {
    id in batch && (id in server ==> server[id].version < batch[id].version)
  }

  /** The server would take nothing of the request any more. */
  ghost predicate Closed(server: ServerView, batch: ServerView) {
    forall id | id in batch :: !Open(server, batch, id)
  }

  /** What the server would take is stamped later than all it has. */
  ghost predicate OpenLater(server: ServerView, batch: ServerView) {
    forall id | Open(server, batch, id) :: Later(server, batch[id].updatedAt)
  }

  /** What the server would take of the request, the device still holds, as it was sent or edited since. */
  ghost predicate HeldBy(server: ServerView, batch: ServerView, local: Rows) {
    forall id | Open(server, batch, id) ::
      && id in local && local[id].dirty
      && (local[id].entry == batch[id] || local[id].entry.version > batch[id].version)
  }

  /** This row of `other` is carried by `batch` as well, or stamped after all the server would take of `batch`. */
  ghost predicate CoversAt(server: ServerView, batch: ServerView, other: ServerView, id: Uuid)
    requires id in other
  {
    || (id in batch && batch[id].version >= other[id].version)
    || (forall x | Open(server, batch, x) :: other[id].updatedAt > batch[x].updatedAt)
  }

  /** So it is with all that the server would take of `other`. */
  ghost predicate Covers(server: ServerView, batch: ServerView, other: ServerView) {
    forall id | Open(server, other, id) :: CoversAt(server, batch, other, id)
  }

  /** A request the device in session has given up on. */
  ghost predicate HolderLate(server: ServerView, local: Rows, batch: ServerView) {
    HeldBy(server, batch, local) && OpenLater(server, batch) && Covers(server, batch, DirtyView(local))
  }

  ghost predicate LateOk(s: State, l: Late) {
    && l.device in s.fleet.locals && l.device in s.lost
    && if s.holder == Some(l.device) then HolderLate(s.fleet.server, s.fleet.locals[l.device], l.batch)
       else Closed(s.fleet.server, l.batch)
  }

  predicate InSession(s: State, r: nat) {
    r in s.late && s.holder == Some(s.late[r].device)
  }

  ghost predicate AllLateOk(s: State) {
    && (forall r | r in s.late :: LateOk(s, s.late[r]))
    && (forall r, q | InSession(s, r) && InSession(s, q) :: Covers(s.fleet.server, s.late[r].batch, s.late[q].batch))
  }

  ghost predicate RolesOk(s: State, user: UserId) {
    && Stamped(s.fleet.server)
    && (s.holder.Some? ==> s.holder.value in s.fleet.locals)
    && forall d | d in s.fleet.locals ::
        Plays(s.fleet.server, s.fleet.locals[d], user, s.holder == Some(d), d in s.lost)
  }

  ghost predicate Inv(s: State, user: UserId) {
    RolesOk(s, user) && AllLateOk(s)
  }

  /** The device's rows of the account are the server's entries, clean or not. */
  ghost predicate SameEntries(server: ServerView, local: Rows, user: UserId) {
    && local.Keys == server.Keys
    && forall id | id in server :: local[id].entry == server[id] && local[id].user == user
  }

  // ----- One sync -----

  /** A pushed row whose reply was lost: still dirty, and the cursor hides the server's copy of it. */
  ghost predicate StaysDirty(server: ServerView, local: Rows, c: Time, id: Uuid) {
    Current(server, local, id) && local[id].dirty && server[id].updatedAt <= c
  }

  /** In either role a completed sync ends in the server's entries; exactly the hidden pushed rows stay dirty. */
  lemma PlayerAgrees(server: ServerView, local: Rows, user: UserId, c: Time, inSession: bool, lossy: bool)
    requires Plays(server, local, user, inSession, lossy) && Stamped(server) && CursorWithin(local, c)
    ensures SameEntries(Push(server, local), Pull(server, local, user, c), user)
    ensures Mirrors(Push(server, local), Pull(server, local, user, c), user)
       <==> forall id | id in server :: !StaysDirty(server, local, c, id)
  {
    var pushed, pulled := Push(server, local), Pull(server, local, user, c);
    forall id
      ensures id in pulled <==> id in pushed
      ensures id in pushed ==> pulled[id].entry == pushed[id] && pulled[id].user == user
      ensures id in pushed ==> (pulled[id].dirty <==> StaysDirty(server, local, c, id))
    {
      PullAt(server, local, user, c, id);
      if id in server && server[id].updatedAt <= c {
        HiddenIsHeld(server, local, user, c, inSession, lossy, id);
      }
    }
    assert forall id | id in pushed :: pulled[id] == Row(pushed[id], pulled[id].dirty, user);
  }

  /** What the cursor hides, the device already holds, or is about to replace. */
  lemma HiddenIsHeld(server: ServerView, local: Rows, user: UserId, c: Time, inSession: bool, lossy: bool, id: Uuid)
    requires Plays(server, local, user, inSession, lossy) && Stamped(server) && CursorWithin(local, c)
    requires id in server && server[id].updatedAt <= c
    ensures Current(server, local, id) || Wins(server, local, id)
  {
    if inSession {
      assert Current(server, local, id) || Ahead(server, local, id);
    }
  }

  lemma TrailingPushesNothing(server: ServerView, local: Rows)
    requires Trails(server, local)
    ensures Push(server, local) == server
  {
    assert forall id | id in local :: Overtakes(server[id], local[id].entry);
    SettledPushesNothing(server, local);
  }

  /** A push of rows stamped later than all the server has keeps every trailing device trailing. */
  lemma PushKeepsTrailing(server: ServerView, pusher: Rows, local: Rows)
    requires forall id | Wins(server, pusher, id) :: Later(server, pusher[id].entry.updatedAt)
    requires Trails(server, local)
    ensures Trails(Push(server, pusher), local)
    ensures Unpushed(server, local) ==> Unpushed(Push(server, pusher), local)
  {
    var pushed := Push(server, pusher);
    forall id | id in local
      ensures id in pushed && Overtakes(pushed[id], local[id].entry)
    {
      assert Overtakes(server[id], local[id].entry);
    }
    forall id, held | id in pushed && held in local && !Current(pushed, local, id)
      ensures pushed[id].updatedAt > local[held].entry.updatedAt
    {
      if Wins(server, pusher, id) {
        assert server[held].updatedAt >= local[held].entry.updatedAt;
      } else {
        assert !Current(server, local, id);
      }
    }
    forall id | id in local && Unpushed(server, local)
      ensures !local[id].dirty
    {
      assert Overtakes(server[id], local[id].entry);
    }
  }

  lemma LeaderPushesLater(server: ServerView, leader: Rows)
    requires LeadsServer(server, leader)
    ensures forall id | Wins(server, leader, id) :: Later(server, leader[id].entry.updatedAt)
  {
    forall id | Wins(server, leader, id)
      ensures Ahead(server, leader, id)
    {
      assert Current(server, leader, id) || Ahead(server, leader, id);
    }
  }

  lemma PushKeepsStamps(server: ServerView, pusher: Rows)
    requires forall id | Wins(server, pusher, id) :: Later(server, pusher[id].entry.updatedAt)
    requires Stamped(server)
    ensures Stamped(Push(server, pusher))
  {
  }

  lemma AgreeingPlaysBothRoles(server: ServerView, local: Rows, user: UserId, inSession: bool, lossy: bool)
    requires SameEntries(server, local, user) && (!lossy ==> Mirrors(server, local, user))
    ensures Plays(server, local, user, inSession, lossy)
  {
    assert forall id | id in local :: Current(server, local, id);
  }

  // ----- Each action keeps the invariant -----

  /** A device's push keeps every other device's role. */
  lemma PushSparesOthers(s: State, user: UserId, d: DeviceId, e: DeviceId)
    requires RolesOk(s, user) && d in s.fleet.locals && e in s.fleet.locals && e != d
    ensures var server := Push(s.fleet.server, s.fleet.locals[d]);
            Plays(server, s.fleet.locals[e], user, s.holder == Some(e), e in s.lost) && Stamped(server)
  {
    if s.holder == Some(d) {
      LeaderPushesLater(s.fleet.server, s.fleet.locals[d]);
      PushKeepsTrailing(s.fleet.server, s.fleet.locals[d], s.fleet.locals[e]);
      PushKeepsStamps(s.fleet.server, s.fleet.locals[d]);
    } else {
      TrailingPushesNothing(s.fleet.server, s.fleet.locals[d]);
    }
  }

  ghost predicate Passes(before: Option<DeviceId>, after: Option<DeviceId>, d: DeviceId) {
    after == before || (before == None && after == Some(d)) || (before == Some(d) && after == None)
  }

  /** A completed sync of any device ends in agreement with the server and keeps every role. */
  lemma SyncKeepsRoles(s: State, user: UserId, d: DeviceId, c: Time, holder': Option<DeviceId>)
    requires RolesOk(s, user) && d in s.fleet.locals && CursorWithin(s.fleet.locals[d], c)
    requires Passes(s.holder, holder', d)
    ensures var f := Step(s.fleet, user, Visit(d, c));
            && d in f.locals && SameEntries(f.server, f.locals[d], user)
            && (Mirrors(f.server, f.locals[d], user)
                <==> forall id | id in s.fleet.server :: !StaysDirty(s.fleet.server, s.fleet.locals[d], c, id))
            && (d !in s.lost ==> Mirrors(f.server, f.locals[d], user))
            && RolesOk(s.(fleet := f, holder := holder'), user)
  {
    var f := Step(s.fleet, user, Visit(d, c));
    PlayerAgrees(s.fleet.server, s.fleet.locals[d], user, c, s.holder == Some(d), d in s.lost);
    AgreeingPlaysBothRoles(f.server, f.locals[d], user, holder' == Some(d), d in s.lost);
    OwnPushKeepsStamps(s, user, d);
    forall e | e in f.locals
      ensures Plays(f.server, f.locals[e], user, holder' == Some(e), e in s.lost)
    {
      if e != d {
        PushSparesOthers(s, user, d, e);
      }
    }
  }

  lemma OwnPushKeepsStamps(s: State, user: UserId, d: DeviceId)
    requires RolesOk(s, user) && d in s.fleet.locals
    ensures Stamped(Push(s.fleet.server, s.fleet.locals[d]))
  {
    if s.holder == Some(d) {
      LeaderPushesLater(s.fleet.server, s.fleet.locals[d]);
      PushKeepsStamps(s.fleet.server, s.fleet.locals[d]);
    } else {
      TrailingPushesNothing(s.fleet.server, s.fleet.locals[d]);
    }
  }

  /** A closed request stays closed as the server grows, and is in order for whoever holds the session. */
  lemma ClosedStays(server: ServerView, server': ServerView, batch: ServerView)
    requires Closed(server, batch)
    requires forall id | id in server :: id in server' && AtLeast(server'[id], server[id])
    ensures Closed(server', batch)
  {
    forall id | id in batch
      ensures !Open(server', batch, id)
    {
      assert !Open(server, batch, id);
    }
  }

  lemma ClosedIsInOrder(server: ServerView, local: Rows, batch: ServerView, other: ServerView)
    requires Closed(server, batch)
    ensures HolderLate(server, local, batch) && Covers(server, batch, other) && Covers(server, other, batch)
  {
    forall id
      ensures !Open(server, batch, id)
    {
    }
  }

  /** When the device in session completes a sync, all its requests are closed. */
  lemma OwnPushCloses(server: ServerView, local: Rows, batch: ServerView)
    requires HeldBy(server, batch, local)
    ensures Closed(Push(server, local), batch)
  {
    forall id | id in batch
      ensures !Open(Push(server, local), batch, id)
    {
      if Open(server, batch, id) {
        assert Wins(server, local, id);
      }
    }
  }

  lemma SyncStep(s: State, user: UserId, d: DeviceId, c: Time, holder': Option<DeviceId>)
    requires Inv(s, user) && d in s.fleet.locals && CursorWithin(s.fleet.locals[d], c) && Passes(s.holder, holder', d)
    ensures var f := Step(s.fleet, user, Visit(d, c)); AllLateOk(s.(fleet := f, holder := holder'))
  {
    var f := Step(s.fleet, user, Visit(d, c));
    var s' := s.(fleet := f, holder := holder');
    PushGrows(s.fleet.server, s.fleet.locals[d]);
    forall r | r in s.late
      ensures Closed(f.server, s.late[r].batch) || (s.holder == Some(s.late[r].device) && s.late[r].device != d)
      ensures LateOk(s', s.late[r])
    {
      LateAfterSync(s, user, d, c, holder', r);
    }
    forall r, q | InSession(s', r) && InSession(s', q)
      ensures Covers(f.server, s.late[r].batch, s.late[q].batch)
    {
      LateAfterSync(s, user, d, c, holder', r);
      LateAfterSync(s, user, d, c, holder', q);
      if Closed(f.server, s.late[r].batch) {
        ClosedIsInOrder(f.server, map[], s.late[r].batch, s.late[q].batch);
      } else {
        TrailingPushesNothing(s.fleet.server, s.fleet.locals[d]);
      }
    }
  }

  /** After a completed sync a request is closed, or belongs to another device's session, which is undisturbed. */
  lemma LateAfterSync(s: State, user: UserId, d: DeviceId, c: Time, holder': Option<DeviceId>, r: nat)
    requires Inv(s, user) && d in s.fleet.locals && CursorWithin(s.fleet.locals[d], c) && Passes(s.holder, holder', d)
    requires r in s.late
    ensures var f := Step(s.fleet, user, Visit(d, c));
            && (Closed(f.server, s.late[r].batch) || (s.holder == Some(s.late[r].device) && s.late[r].device != d))
            && LateOk(s.(fleet := f, holder := holder'), s.late[r])
  {
    var f, l := Step(s.fleet, user, Visit(d, c)), s.late[r];
    PushGrows(s.fleet.server, s.fleet.locals[d]);
    if s.holder != Some(l.device) {
      ClosedStays(s.fleet.server, f.server, l.batch);
    } else if l.device == d {
      OwnPushCloses(s.fleet.server, s.fleet.locals[d], l.batch);
    } else {
      TrailingPushesNothing(s.fleet.server, s.fleet.locals[d]);
    }
    if Closed(f.server, l.batch) {
      ClosedIsInOrder(f.server, f.locals[l.device], l.batch, l.batch);
    }
  }

  // ----- Giving up, and being served later -----

  lemma AbandonStep(s: State, user: UserId, d: DeviceId, r: nat)
    requires Inv(s, user) && Enabled(s, Abandon(d, r))
    ensures Inv(Next(s, user, Abandon(d, r)), user)
  {
    var s', server, local := Next(s, user, Abandon(d, r)), s.fleet.server, s.fleet.locals[d];
    var sent := DirtyView(local);
    if s.holder == Some(d) {
      SentIsInOrder(server, local);
    } else {
      forall id | id in sent
        ensures !Open(server, sent, id)
      {
        assert Overtakes(server[id], local[id].entry);
      }
    }
    forall q | InSession(s, q) && s.holder == Some(d)
      ensures Covers(server, sent, s.late[q].batch) && Covers(server, s.late[q].batch, sent)
    {
      assert LateOk(s, s.late[q]);
    }
  }

  /** What the device in session sends is in order, of itself. */
  lemma SentIsInOrder(server: ServerView, local: Rows)
    requires LeadsServer(server, local)
    ensures HolderLate(server, local, DirtyView(local)) && Covers(server, DirtyView(local), DirtyView(local))
  {
    forall id | Open(server, DirtyView(local), id)
      ensures Ahead(server, local, id)
    {
      assert Current(server, local, id) || Ahead(server, local, id);
    }
  }

  lemma ServingIsPushing(server: ServerView, batch: ServerView, user: UserId, id: Uuid)
    ensures Wins(server, AsRows(batch, user), id) <==> Open(server, batch, id)
    ensures var pushed := Push(server, AsRows(batch, user));
            && (id in pushed <==> id in server || id in batch)
            && (id in pushed ==> pushed[id] == if Open(server, batch, id) then batch[id] else server[id])
  {
  }

  /** A closed request changes nothing when it is served. */
  lemma ServingClosed(server: ServerView, batch: ServerView, user: UserId)
    requires Closed(server, batch)
    ensures Push(server, AsRows(batch, user)) == server
  {
    forall id
      ensures SameAt(Push(server, AsRows(batch, user)), server, id)
    {
      ServingIsPushing(server, batch, user, id);
    }
    SameEverywhere(Push(server, AsRows(batch, user)), server);
  }

  /** The device in session stays ahead when one of its earlier requests is served. */
  lemma ServingKeepsLeader(server: ServerView, local: Rows, batch: ServerView, user: UserId)
    requires LeadsServer(server, local) && HolderLate(server, local, batch)
    ensures LeadsServer(Push(server, AsRows(batch, user)), local)
  {
    var pushed := Push(server, AsRows(batch, user));
    forall id | id in pushed
      ensures id in local
    {
      ServingIsPushing(server, batch, user, id);
    }
    forall id | id in local
      ensures Current(pushed, local, id) || Ahead(pushed, local, id)
    {
      ServingIsPushing(server, batch, user, id);
      if Current(server, local, id) {
        assert !Open(server, batch, id);
      } else if !(Open(server, batch, id) && local[id].entry == batch[id]) {
        assert Ahead(server, local, id) && Open(server, DirtyView(local), id);
        LaterAfterServing(server, batch, user, local[id].entry.updatedAt);
      }
    }
  }

  /** A stamp later than the server's and than all it takes is later than the server's afterwards. */
  lemma LaterAfterServing(server: ServerView, batch: ServerView, user: UserId, t: Time)
    requires Later(server, t) && forall x | Open(server, batch, x) :: t > batch[x].updatedAt
    ensures Later(Push(server, AsRows(batch, user)), t)
  {
    forall id | id in Push(server, AsRows(batch, user))
      ensures t > Push(server, AsRows(batch, user))[id].updatedAt
    {
      ServingIsPushing(server, batch, user, id);
    }
  }

  /**
   What the server would still take after serving a request, it would have taken before, and it is
   not covered by it.
   */
  lemma OpenAfterServing(server: ServerView, batch: ServerView, user: UserId, other: ServerView, id: Uuid)
    requires Open(Push(server, AsRows(batch, user)), other, id)
    ensures Open(server, other, id) && !(id in batch && batch[id].version >= other[id].version)
  {
    ServingIsPushing(server, batch, user, id);
  }

  /** The device's other requests stay in order, and so does what it holds. */
  lemma ServingKeepsOrder(server: ServerView, local: Rows, batch: ServerView, user: UserId, other: ServerView)
    requires HolderLate(server, local, other) && OpenLater(server, batch) && Covers(server, batch, other)
    ensures HolderLate(Push(server, AsRows(batch, user)), local, other)
  {
    var pushed := Push(server, AsRows(batch, user));
    forall id | Open(pushed, other, id)
      ensures Open(server, other, id) && Later(pushed, other[id].updatedAt)
    {
      OpenAfterServing(server, batch, user, other, id);
      LaterAfterServing(server, batch, user, other[id].updatedAt);
    }
    ServingKeepsCovers(server, batch, user, other, DirtyView(local));
  }

  lemma ServingKeepsCovers(server: ServerView, batch: ServerView, user: UserId, a: ServerView, b: ServerView)
    requires Covers(server, a, b)
    ensures Covers(Push(server, AsRows(batch, user)), a, b)
  {
    var pushed := Push(server, AsRows(batch, user));
    forall id | Open(pushed, b, id)
      ensures CoversAt(pushed, a, b, id)
    {
      OpenAfterServing(server, batch, user, b, id);
      forall x | Open(pushed, a, x)
        ensures Open(server, a, x)
      {
        OpenAfterServing(server, batch, user, a, x);
      }
    }
  }

  lemma ServeStep(s: State, user: UserId, r: nat)
    requires Inv(s, user) && Enabled(s, Serve(r))
    ensures Inv(Next(s, user, Serve(r)), user)
  {
    var l := s.late[r];
    assert LateOk(s, l);
    if s.holder == Some(l.device) {
      ServeKeepsRoles(s, user, r);
      ServeKeepsLate(s, user, r);
    } else {
      ServingClosed(s.fleet.server, l.batch, user);
      assert Next(s, user, Serve(r)).fleet == s.fleet;
    }
  }

  lemma ServeKeepsRoles(s: State, user: UserId, r: nat)
    requires Inv(s, user) && Enabled(s, Serve(r)) && s.holder == Some(s.late[r].device)
    ensures RolesOk(Next(s, user, Serve(r)), user)
  {
    var l, s' := s.late[r], Next(s, user, Serve(r));
    var server, rows := s.fleet.server, AsRows(l.batch, user);
    assert LateOk(s, l);
    forall id | Wins(server, rows, id)
      ensures Later(server, rows[id].entry.updatedAt)
    {
      ServingIsPushing(server, l.batch, user, id);
    }
    PushKeepsStamps(server, rows);
    forall e | e in s'.fleet.locals
      ensures Plays(s'.fleet.server, s'.fleet.locals[e], user, s'.holder == Some(e), e in s'.lost)
    {
      if e == l.device {
        ServingKeepsLeader(server, s.fleet.locals[e], l.batch, user);
      } else {
        PushKeepsTrailing(server, rows, s.fleet.locals[e]);
      }
    }
  }

  lemma ServeKeepsLate(s: State, user: UserId, r: nat)
    requires Inv(s, user) && Enabled(s, Serve(r)) && s.holder == Some(s.late[r].device)
    ensures AllLateOk(Next(s, user, Serve(r)))
  {
    var l, s' := s.late[r], Next(s, user, Serve(r));
    var server := s.fleet.server;
    assert LateOk(s, l);
    PushGrows(server, AsRows(l.batch, user));
    forall q | q in s'.late
      ensures LateOk(s', s'.late[q])
    {
      assert LateOk(s, s.late[q]);
      if s.late[q].device == l.device {
        ServingKeepsOrder(server, s.fleet.locals[l.device], l.batch, user, s.late[q].batch);
      } else {
        ClosedStays(server, s'.fleet.server, s.late[q].batch);
      }
    }
    forall p, q | InSession(s', p) && InSession(s', q)
      ensures Covers(s'.fleet.server, s.late[p].batch, s.late[q].batch)
    {
      ServingKeepsCovers(server, l.batch, user, s.late[p].batch, s.late[q].batch);
    }
  }

  lemma EditStep(s: State, user: UserId, d: DeviceId, e: Entry)
    requires Inv(s, user) && Enabled(s, Edit(d, e))
    ensures Inv(Next(s, user, Edit(d, e)), user)
  {
    var s' := Next(s, user, Edit(d, e));
    var server, local := s.fleet.server, s.fleet.locals[d];
    EditKeepsLeader(server, local, e, user);
    forall x | x in s.fleet.locals && x != d
      ensures Plays(server, s.fleet.locals[x], user, s.holder == Some(x), x in s.lost)
    {
    }
    forall r | r in s'.late
      ensures LateOk(s', s'.late[r])
    {
      assert LateOk(s, s.late[r]);
      if s.late[r].device == d {
        EditKeepsOrder(server, local, e, user, s.late[r].batch);
      }
    }
  }

  lemma EditKeepsLeader(server: ServerView, local: Rows, e: Entry, user: UserId)
    requires LeadsServer(server, local) && Later(server, e.updatedAt)
    requires if e.uuid in local then e.version > local[e.uuid].entry.version else e.uuid !in server
    ensures LeadsServer(server, local[e.uuid := Row(e, true, user)])
  {
    var local' := local[e.uuid := Row(e, true, user)];
    forall id | id in local'
      ensures Current(server, local', id) || Ahead(server, local', id)
    {
      if id in local {
        assert Current(server, local, id) || Ahead(server, local, id);
      }
    }
  }

  lemma EditKeepsOrder(server: ServerView, local: Rows, e: Entry, user: UserId, batch: ServerView)
    requires HolderLate(server, local, batch)
    requires e.uuid in local ==> e.version > local[e.uuid].entry.version
    requires e.uuid !in local ==> e.uuid !in batch || !Open(server, batch, e.uuid)
    requires forall id | id in batch :: e.updatedAt > batch[id].updatedAt
    ensures HolderLate(server, local[e.uuid := Row(e, true, user)], batch)
  {
    var local' := local[e.uuid := Row(e, true, user)];
    forall id | Open(server, DirtyView(local'), id) && id != e.uuid
      ensures Open(server, DirtyView(local), id) && DirtyView(local)[id] == DirtyView(local')[id]
    {
    }
  }

  /**
   After the completed sync `a` its device holds exactly the server's entries. It equals the server,
   all clean, exactly if no row it had pushed before was hidden by the cursor, as when it never gave
   up on a sync.
   */
  ghost predicate Agreed(s: State, s': State, user: UserId, a: Action)
    requires Completes(a) && a.device in s.fleet.locals
  {
    var d, server, local := a.device, s.fleet.server, s.fleet.locals[a.device];
    && d in s'.fleet.locals
    && SameEntries(s'.fleet.server, s'.fleet.locals[d], user)
    && (Mirrors(s'.fleet.server, s'.fleet.locals[d], user)
        <==> forall id | id in server :: !StaysDirty(server, local, a.cursor, id))
    && (d !in s.lost ==> Mirrors(s'.fleet.server, s'.fleet.locals[d], user))
  }

  lemma StepConverges(s: State, user: UserId, a: Action)
    requires Inv(s, user) && Enabled(s, a)
    ensures var s' := Next(s, user, a);
            && Inv(s', user)
            && (Completes(a) ==> Agreed(s, s', user, a))
  {
    match a
    case Begin(d, c) => SyncKeepsRoles(s, user, d, c, Some(d)); SyncStep(s, user, d, c, Some(d));
    case Finish(d, c) => SyncKeepsRoles(s, user, d, c, None); SyncStep(s, user, d, c, None);
    case Refresh(d, c) => SyncKeepsRoles(s, user, d, c, s.holder); SyncStep(s, user, d, c, s.holder);
    case Edit(d, e) => EditStep(s, user, d, e);
    case Abandon(d, r) => AbandonStep(s, user, d, r);
    case Serve(r) => ServeStep(s, user, r);
  }

  lemma {:induction false} InvAt(user: UserId, devices: set<DeviceId>, states: seq<State>, actions: seq<Action>, i: nat)
    requires Run(user, devices, states, actions) && i < |states|
    ensures Inv(states[i], user)
  {
    if i == 0 {
    } else {
      InvAt(user, devices, states, actions, i - 1);
      StepConverges(states[i - 1], user, actions[i - 1]);
    }
  }

  /**
   Serial-use convergence. In every run from empty stores, right after each completed sync of a
   device it holds exactly the server's entries of the account, whatever requests given up on were
   served before, or are still to be served. All of them are clean exactly if the cursor hid no row
   the device had pushed before, and so if it has never given up on a sync.
   */
  lemma SerialUseConverges(user: UserId, devices: set<DeviceId>, states: seq<State>, actions: seq<Action>, i: nat)
    requires Run(user, devices, states, actions) && i < |actions| && Completes(actions[i])
    ensures actions[i].device in states[i].fleet.locals && Agreed(states[i], states[i + 1], user, actions[i])
  {
    InvAt(user, devices, states, actions, i);
    StepConverges(states[i], user, actions[i]);
  }
}
