/**
 When a sync round makes a device hold exactly what the server holds, stated for one account.
 `AccountStepsAreLocal` justifies looking at one account at a time.
 */
module Convergence {
  import opened Basics
  import opened Entries
  import opened LocalRows
  import opened SyncRound

  /** The device's rows of the account are the server's, all clean. */
  ghost predicate Mirrors(server: ServerView, local: Rows, user: UserId) {
    && local.Keys == server.Keys
    && forall id | id in server :: local[id] == Row(server[id], false, user)
  }

  /** Every clean row is on the server, at a higher version or identical. */
  ghost predicate Backed(server: ServerView, local: Rows) {
    forall id | id in local && !local[id].dirty :: id in server && AtLeast(server[id], local[id].entry)
  }

  ghost predicate OwnedBy(local: Rows, user: UserId) {
    forall id | id in local :: local[id].user == user
  }

  /** No uuid is used by the account on the server and by another account on the device. */
  ghost predicate Unshared(table: Table, rows: Rows, user: UserId) {
    forall id | id in rows && rows[id].user != user :: (user, id) !in table
  }

  /**
   A round of one account is Push and Pull on that account's part of server and device. The other
   accounts' rows stay as they are, on the device provided uuids are not shared between accounts.
   */
  lemma AccountStepsAreLocal(table: Table, rows: Rows, user: UserId, cursor: Time, other: UserId)
    requires other != user && Unshared(table, rows, user)
    ensures var t, r := TableAfter(table, rows, user), RowsAfter(table, rows, user, cursor);
            && ViewOfTable(t, user) == Push(ViewOfTable(table, user), ViewOfRows(rows, user))
            && ViewOfRows(r, user) == Pull(ViewOfTable(table, user), ViewOfRows(rows, user), user, cursor)
            && ViewOfTable(t, other) == ViewOfTable(table, other)
            && ViewOfRows(r, other) == ViewOfRows(rows, other)
  {
    var t, r := TableAfter(table, rows, user), RowsAfter(table, rows, user, cursor);
    var server, local := ViewOfTable(table, user), ViewOfRows(rows, user);
    forall id
      ensures SameAt(ViewOfTable(t, user), Push(server, local), id)
      ensures SameAt(ViewOfTable(t, other), ViewOfTable(table, other), id)
      ensures SameAt(ViewOfRows(r, user), Pull(server, local, user, cursor), id)
      ensures SameAt(ViewOfRows(r, other), ViewOfRows(rows, other), id)
    {
      ServerRoundAt(table, rows, user, other, id);
      DeviceRoundAt(table, rows, user, cursor, id);
      OtherRowsAt(table, rows, user, cursor, other, id);
    }
    SameEverywhere(ViewOfTable(t, user), Push(server, local));
    SameEverywhere(ViewOfTable(t, other), ViewOfTable(table, other));
    SameEverywhere(ViewOfRows(r, user), Pull(server, local, user, cursor));
    SameEverywhere(ViewOfRows(r, other), ViewOfRows(rows, other));
  }

  lemma ServerRoundAt(table: Table, rows: Rows, user: UserId, other: UserId, id: Uuid)
    requires other != user
    ensures var t := TableAfter(table, rows, user);
            && SameAt(ViewOfTable(t, user), Push(ViewOfTable(table, user), ViewOfRows(rows, user)), id)
            && SameAt(ViewOfTable(t, other), ViewOfTable(table, other), id)
  {
    var t := TableAfter(table, rows, user);
    ViewAfter(table, rows, user, id);
    ViewsAgree(t, rows, user, id);
    ViewsAgree(t, rows, other, id);
    ViewsAgree(table, rows, other, id);
    TableAfterAt(table, rows, user, (other, id));
  }

  lemma DeviceRoundAt(table: Table, rows: Rows, user: UserId, cursor: Time, id: Uuid)
    ensures var r := RowsAfter(table, rows, user, cursor);
            SameAt(ViewOfRows(r, user), Pull(ViewOfTable(table, user), ViewOfRows(rows, user), user, cursor), id)
  {
    var pulled := Pull(ViewOfTable(table, user), ViewOfRows(rows, user), user, cursor);
    PullAt(ViewOfTable(table, user), ViewOfRows(rows, user), user, cursor, id);
    assert id in pulled ==> pulled[id].user == user;
  }

  lemma OtherRowsAt(table: Table, rows: Rows, user: UserId, cursor: Time, other: UserId, id: Uuid)
    requires other != user && Unshared(table, rows, user)
    ensures SameAt(ViewOfRows(RowsAfter(table, rows, user, cursor), other), ViewOfRows(rows, other), id)
  {
    var pulled := Pull(ViewOfTable(table, user), ViewOfRows(rows, user), user, cursor);
    PullAt(ViewOfTable(table, user), ViewOfRows(rows, user), user, cursor, id);
    ViewsAgree(table, rows, user, id);
    if id in pulled {
      assert pulled[id].user == user;
      assert id in rows ==> rows[id].user == user;
    }
  }

  // ----- One round -----

  /**
   What a device can check before syncing: each server row stamped at or before its cursor is one
   it already holds, or one its own dirty row supersedes.
   */
  ghost predicate NothingMissed(server: ServerView, local: Rows, cursor: Time) {
    forall id | id in server && server[id].updatedAt <= cursor :: HasOrSupersedes(server, local, id)
  }

  predicate HasOrSupersedes(server: ServerView, local: Rows, id: Uuid)
    requires id in server
  {
    && id in local
    && if local[id].dirty then server[id].version < local[id].entry.version else local[id].entry == server[id]
  }

  /** The exact condition under which an uninterrupted round leaves the device equal to the server. */
  lemma RoundMirrorsIff(server: ServerView, local: Rows, user: UserId, cursor: Time)
    requires Backed(server, local) && OwnedBy(local, user)
    ensures Mirrors(Push(server, local), Pull(server, local, user, cursor), user)
        <==> NothingMissed(server, local, cursor)
  {
    var pushed, pulled := Push(server, local), Pull(server, local, user, cursor);
    if NothingMissed(server, local, cursor) {
      forall id
        ensures id in pulled <==> id in pushed
        ensures id in pushed ==> pulled[id] == Row(pushed[id], false, user)
      {
        PullAt(server, local, user, cursor, id);
      }
    } else {
      var id :| id in server && server[id].updatedAt <= cursor && !HasOrSupersedes(server, local, id);
      PullAt(server, local, user, cursor, id);
      assert pushed[id] == server[id];
      assert id !in pulled || pulled[id] != Row(pushed[id], false, user);
    }
  }

  ghost predicate AllAfter(server: ServerView, cursor: Time) {
    forall id | id in server :: server[id].updatedAt > cursor
  }

  /** Pull completeness: with a cursor below every stamp on the server the round ends in equality. */
  lemma PullIsComplete(table: Table, rows: Rows, user: UserId, cursor: Time)
    requires Backed(ViewOfTable(table, user), ViewOfRows(rows, user))
    requires AllAfter(ViewOfTable(table, user), cursor)
    requires Unshared(table, rows, user)
    ensures var t, r := TableAfter(table, rows, user), RowsAfter(table, rows, user, cursor);
            Mirrors(ViewOfTable(t, user), ViewOfRows(r, user), user)
  {
    AccountStepsAreLocal(table, rows, user, cursor, user + 1);
    RoundMirrorsIff(ViewOfTable(table, user), ViewOfRows(rows, user), user, cursor);
  }

  /**
   Unconditional convergence fails, and exactly when. A device whose latest row is stamped in the
   second that begins at its cursor does not receive an entry that reaches the server late and is
   stamped at or before that second's beginning, and receives any other. The round that leaves it out
   changes nothing, so neither does any round after it until the device's cursor changes.
   */
  lemma LateStampIsMissed(user: UserId, early: Entry, late: Entry, cursor: Time)
    requires early.uuid != late.uuid
    requires cursor % 1_000_000_000 == 0 && cursor <= early.updatedAt < cursor + 1_000_000_000
    ensures var server := map[early.uuid := early, late.uuid := late];
            var local := map[early.uuid := Row(early, false, user)];
            && Backed(server, local) && CursorWithin(local, cursor) && Push(server, local) == server
            && (late.uuid in Pull(server, local, user, cursor) <==> late.updatedAt > cursor)
            && (late.updatedAt <= early.updatedAt - early.updatedAt % 1_000_000_000 ==>
                  Pull(server, local, user, cursor) == local)
  {
    var server, local := map[early.uuid := early, late.uuid := late], map[early.uuid := Row(early, false, user)];
    assert early.uuid in local;
    SettledPushesNothing(server, local);
    forall id | late.updatedAt <= cursor
      ensures SameAt(Pull(server, local, user, cursor), local, id)
    {
      PullAt(server, local, user, cursor, id);
    }
    if late.updatedAt <= cursor {
      SameEverywhere(Pull(server, local, user, cursor), local);
    }
  }

  // ----- Rounds over all devices -----

  /** One account's part of the whole system. */
  datatype Fleet = Fleet(server: ServerView, locals: map<DeviceId, Rows>)

  datatype Visit = Visit(device: DeviceId, cursor: Time)

  function Step(f: Fleet, user: UserId, v: Visit): Fleet {
    if v.device in f.locals then
      Fleet(Push(f.server, f.locals[v.device]),
            f.locals[v.device := Pull(f.server, f.locals[v.device], user, v.cursor)])
    else f
  }

  function Tour(f: Fleet, user: UserId, visits: seq<Visit>): Fleet {
    if visits == [] then f else Step(Tour(f, user, visits[..|visits| - 1]), user, visits[|visits| - 1])
  }

  ghost predicate FleetOk(f: Fleet, user: UserId) {
    forall d | d in f.locals :: Backed(f.server, f.locals[d]) && OwnedBy(f.locals[d], user)
  }

  ghost predicate Visited(visits: seq<Visit>, d: DeviceId) {
    exists v :: v in visits && v.device == d
  }

  lemma PushGrows(server: ServerView, local: Rows)
    ensures forall id | id in server :: id in Push(server, local) && AtLeast(Push(server, local)[id], server[id])
  {
  }

  lemma PullOwned(server: ServerView, local: Rows, user: UserId, cursor: Time)
    requires OwnedBy(local, user)
    ensures OwnedBy(Pull(server, local, user, cursor), user)
  {
  }

  /** The server has reached the version of every dirty row: a push would change nothing. */
  ghost predicate Settled(server: ServerView, local: Rows) {
    forall id | id in local && local[id].dirty :: id in server && server[id].version >= local[id].entry.version
  }

  lemma SettledPushesNothing(server: ServerView, local: Rows)
    requires Settled(server, local)
    ensures Push(server, local) == server
  {
    forall id
      ensures SameAt(Push(server, local), server, id)
    {
    }
    SameEverywhere(Push(server, local), server);
  }

  /** Whatever its cursor, a round settles the device and keeps its clean rows backed. */
  lemma RoundSettles(server: ServerView, local: Rows, user: UserId, cursor: Time)
    requires Backed(server, local)
    ensures var pushed, pulled := Push(server, local), Pull(server, local, user, cursor);
            Settled(pushed, pulled) && Backed(pushed, pulled)
  {
    var pushed, pulled := Push(server, local), Pull(server, local, user, cursor);
    forall id | id in pulled
      ensures if pulled[id].dirty then id in pushed && pushed[id].version >= pulled[id].entry.version
              else id in pushed && AtLeast(pushed[id], pulled[id].entry)
    {
      PullAt(server, local, user, cursor, id);
    }
  }

  lemma GrowthKeepsSettled(server: ServerView, server': ServerView, local: Rows)
    requires forall id | id in server :: id in server' && AtLeast(server'[id], server[id])
    ensures Settled(server, local) ==> Settled(server', local)
    ensures Backed(server, local) ==> Backed(server', local)
  {
  }

  /** After a tour, with whatever cursors, every device it visited is settled. */
  lemma {:induction false} TourSettles(f: Fleet, user: UserId, visits: seq<Visit>)
    requires FleetOk(f, user)
    ensures var g := Tour(f, user, visits);
            && g.locals.Keys == f.locals.Keys
            && FleetOk(g, user)
            && forall d | d in g.locals && Visited(visits, d) :: Settled(g.server, g.locals[d])
  {
    if visits == [] {
    } else {
      var init, v := visits[..|visits| - 1], visits[|visits| - 1];
      assert visits == init + [v];
      TourSettles(f, user, init);
      var g, h := Tour(f, user, init), Tour(f, user, visits);
      if v.device in g.locals {
        PushGrows(g.server, g.locals[v.device]);
        RoundSettles(g.server, g.locals[v.device], user, v.cursor);
        PullOwned(g.server, g.locals[v.device], user, v.cursor);
      }
      forall d | d in h.locals
        ensures Backed(h.server, h.locals[d]) && OwnedBy(h.locals[d], user)
        ensures Visited(visits, d) ==> Settled(h.server, h.locals[d])
      {
        if d != v.device {
          assert Visited(visits, d) ==> Visited(init, d);
          GrowthKeepsSettled(g.server, h.server, g.locals[d]);
        }
      }
    }
  }

  /** A tour of settled devices leaves the server as it is. */
  lemma {:induction false} SettledTour(f: Fleet, user: UserId, visits: seq<Visit>)
    requires FleetOk(f, user) && forall d | d in f.locals :: Settled(f.server, f.locals[d])
    ensures var g := Tour(f, user, visits);
            && g.server == f.server
            && g.locals.Keys == f.locals.Keys
            && FleetOk(g, user)
            && forall d | d in g.locals :: Settled(g.server, g.locals[d])
  {
    if visits == [] {
    } else {
      var v := visits[|visits| - 1];
      SettledTour(f, user, visits[..|visits| - 1]);
      var g := Tour(f, user, visits[..|visits| - 1]);
      if v.device in g.locals {
        SettledPushesNothing(g.server, g.locals[v.device]);
        RoundSettles(g.server, g.locals[v.device], user, v.cursor);
        PullOwned(g.server, g.locals[v.device], user, v.cursor);
      }
    }
  }

  /** Visits of other devices leave a device's rows as they are. */
  lemma {:induction false} OtherVisitsSpare(f: Fleet, user: UserId, visits: seq<Visit>, k: nat, d: DeviceId)
    requires k <= |visits| && forall j | k <= j < |visits| :: visits[j].device != d
    ensures var g, h := Tour(f, user, visits[..k]), Tour(f, user, visits); SameAt(g.locals, h.locals, d)
  {
    if k == |visits| {
      assert visits[..k] == visits;
    } else {
      var init := visits[..|visits| - 1];
      assert init[..k] == visits[..k];
      OtherVisitsSpare(f, user, init, k, d);
    }
  }

  /** Visit `k` is the last one of a device of the fleet. */
  ghost predicate LastVisit(f: Fleet, visits: seq<Visit>, k: int) {
    && 0 <= k < |visits| && visits[k].device in f.locals
    && forall j | k < j < |visits| :: visits[j].device != visits[k].device
  }

  /** When visit `k` comes, the visited device lacks nothing that its cursor hides. */
  ghost predicate VisitMissesNothing(f: Fleet, user: UserId, visits: seq<Visit>, k: int)
    requires 0 <= k < |visits|
  {
    var g := Tour(f, user, visits[..k]);
    visits[k].device in g.locals && NothingMissed(g.server, g.locals[visits[k].device], visits[k].cursor)
  }

  /** After a tour of settled devices, a device equals the server exactly if its last visit missed nothing. */
  lemma LastVisitDecides(f: Fleet, user: UserId, visits: seq<Visit>, k: int)
    requires FleetOk(f, user) && forall d | d in f.locals :: Settled(f.server, f.locals[d])
    requires LastVisit(f, visits, k)
    ensures var g, d := Tour(f, user, visits), visits[k].device;
            d in g.locals && (Mirrors(g.server, g.locals[d], user) <==> VisitMissesNothing(f, user, visits, k))
  {
    var d := visits[k].device;
    var before, at := Tour(f, user, visits[..k]), Tour(f, user, visits[..k + 1]);
    SettledTour(f, user, visits[..k]);
    SettledTour(f, user, visits);
    assert visits[..k + 1][..k] == visits[..k];
    SettledPushesNothing(before.server, before.locals[d]);
    RoundMirrorsIff(before.server, before.locals[d], user, visits[k].cursor);
    OtherVisitsSpare(f, user, visits, k + 1, d);
    assert SameAt(at.locals, Tour(f, user, visits).locals, d);
  }

  /**
   Two rounds over all devices with no edits in between. Whatever the cursors of the first, after
   the second every device equals the server if and only if each one's last visit missed nothing.
   Then all devices are equal to each other.
   */
  lemma TwoToursMakeReplicasEqual(f: Fleet, user: UserId, first: seq<Visit>, second: seq<Visit>)
    requires FleetOk(f, user)
    requires forall d | d in f.locals :: Visited(first, d) && Visited(second, d)
    ensures var f1 := Tour(f, user, first);
            var g := Tour(f1, user, second);
            && g.locals.Keys == f.locals.Keys && g.server == f1.server
            && ((forall d | d in g.locals :: Mirrors(g.server, g.locals[d], user))
                <==> (forall k | LastVisit(f, second, k) :: VisitMissesNothing(f1, user, second, k)))
            && ((forall d | d in g.locals :: Mirrors(g.server, g.locals[d], user))
                ==> forall d, e | d in g.locals && e in g.locals :: g.locals[d] == g.locals[e])
  {
    TourSettles(f, user, first);
    var f1 := Tour(f, user, first);
    SettledTour(f1, user, second);
    var g := Tour(f1, user, second);
    forall k | LastVisit(f, second, k)
      ensures Mirrors(g.server, g.locals[second[k].device], user) <==> VisitMissesNothing(f1, user, second, k)
    {
      assert LastVisit(f1, second, k);
      LastVisitDecides(f1, user, second, k);
    }
    forall d | d in g.locals
      ensures exists k :: LastVisit(f, second, k) && second[k].device == d
    {
      LastVisitExists(f, second, d);
    }
    forall d, e | d in g.locals && e in g.locals && Mirrors(g.server, g.locals[d], user)
        && Mirrors(g.server, g.locals[e], user)
      ensures g.locals[d] == g.locals[e]
    {
      MirrorsAreEqual(g.server, g.locals[d], g.locals[e], user);
    }
  }

  lemma {:induction false} LastVisitExists(f: Fleet, visits: seq<Visit>, d: DeviceId)
    requires d in f.locals && Visited(visits, d)
    ensures exists k :: LastVisit(f, visits, k) && visits[k].device == d
  {
    var n := |visits| - 1;
    if visits[n].device == d {
      assert LastVisit(f, visits, n);
    } else {
      assert visits == visits[..n] + [visits[n]];
      assert Visited(visits[..n], d);
      LastVisitExists(f, visits[..n], d);
      var k :| LastVisit(f, visits[..n], k) && visits[..n][k].device == d;
      assert LastVisit(f, visits, k);
    }
  }

  /** A device that equals the server misses nothing at its next visit, whatever its cursor. */
  lemma MirrorMissesNothing(server: ServerView, local: Rows, user: UserId, cursor: Time)
    requires Mirrors(server, local, user)
    ensures NothingMissed(server, local, cursor)
    ensures Mirrors(Push(server, local), Pull(server, local, user, cursor), user)
  {
  }

  lemma MirrorsAreEqual(server: ServerView, a: Rows, b: Rows, user: UserId)
    requires Mirrors(server, a, user) && Mirrors(server, b, user)
    ensures a == b
  {
  }
}
