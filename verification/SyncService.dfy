/**
 A sync call end to end, as the program makes it: the client use case, the client stub, the server's
 handler, the server use case and the repositories (internal/client/usecase/sync.go,
 internal/client/repository/skeeper/client.go, internal/skeeper/delivery/delivery.go,
 internal/skeeper/usecase/usecase.go).
 */
module SyncService {
  import opened Basics
  import opened Entries
  import opened LocalRows
  import opened ServerTable
  import opened SyncRound
  import opened Wire
  import L = LocalStore
  import S = ServerStore

  datatype SyncError = LogInFirst | Unauthenticated | InvalidArgument | Internal | Transport | BadReply | PersistFailed

  /** What becomes of a call: delivered both ways, never served, or served with the reply lost. */
  datatype Fate = Delivered | RequestLost | ReplyLost

  datatype SyncResponse = SyncResponse(updates: seq<Entry>, applied: seq<Uuid>)

  datatype WireRequest = WireRequest(updates: seq<WireEntry>, lastSyncAt: Option<Time>)

  datatype WireResponse = WireResponse(updates: seq<WireEntry>, applied: seq<UuidText>)

  /** The server after it merged some reading of the dirty rows and then the pushes of others. */
  ghost predicate Pushed(before: Table, between: seq<Batch>, rows: Rows, user: UserId, after: Table) {
    exists batch :: PushedBatch(before, between, rows, user, batch, after)
  }

  ghost predicate PushedBatch(before: Table, between: seq<Batch>, rows: Rows, user: UserId, batch: seq<Entry>,
                              after: Table)
  {
    && IsDirtyList(rows, user, batch)
    && Upsert(before, user, batch).Done?
    && after == RunBatches(Upsert(before, user, batch).table, between)
  }

  /** Server and device after such a push, some answer of the server to the cursor, and PersistSyncResult. */
  ghost predicate Synced(before: Table, between: seq<Batch>, rows: Rows, user: UserId, cursor: Time, after: Table,
                         rows': Rows)
  {
    exists batch, updates :: SyncedBatch(before, between, rows, user, cursor, batch, updates, after, rows')
  }

  ghost predicate SyncedBatch(before: Table, between: seq<Batch>, rows: Rows, user: UserId, cursor: Time,
                              batch: seq<Entry>, updates: seq<Entry>, after: Table, rows': Rows) {
    && PushedBatch(before, between, rows, user, batch, after)
    && IsAnswer(after, user, cursor, updates)
    && rows' == Persist(rows, user, updates, batch, IdSet(Upsert(before, user, batch).applied))
  }

  /**
   Everything a sync call of a session can come to: the request is never served; it is served and the
   reply is lost, or the merge is not committed; or the device keeps the answer.
   */
  ghost predicate SyncOutcome(before: Table, between: seq<Batch>, rows: Rows, user: UserId, cursor: Time,
                              fate: Fate, commits: bool, ok: bool, after: Table, rows': Rows)
  {
    exists batch, updates ::
      SyncOutcomeOf(before, between, rows, user, cursor, batch, updates, fate, commits, ok, after, rows')
  }

  /** The same, by the list of dirty rows it sends and the answer it gets, if any. */
  ghost predicate SyncOutcomeOf(before: Table, between: seq<Batch>, rows: Rows, user: UserId, cursor: Time,
                                batch: seq<Entry>, updates: seq<Entry>,
                                fate: Fate, commits: bool, ok: bool, after: Table, rows': Rows)
  {
    && IsDirtyList(rows, user, batch)
    && (if fate.RequestLost? then after == before else PushedBatch(before, between, rows, user, batch, after))
    && (ok <==> fate.Delivered? && commits)
    && (if ok then SyncedBatch(before, between, rows, user, cursor, batch, updates, after, rows') else rows' == rows)
  }

  /** A sync that no other push interrupts is one round of SyncRound, in whatever order rows were read. */
  lemma UninterruptedSyncIsRound(before: Table, rows: Rows, user: UserId, cursor: Time, after: Table, rows': Rows)
    requires WellKeyed(rows) && TableWellKeyed(before)
    requires Synced(before, [], rows, user, cursor, after, rows')
    ensures after == TableAfter(before, rows, user) && rows' == RowsAfter(before, rows, user, cursor)
  {
    var batch, updates :| SyncedBatch(before, [], rows, user, cursor, batch, updates, after, rows');
    UpsertIsPush(before, rows, user, batch);
    PersistIsPull(before, rows, user, cursor, batch, updates, IdSet(Upsert(before, user, batch).applied));
  }

  /** A push alone, with its reply lost, leaves the server as the round would. */
  lemma UninterruptedPushIsRound(before: Table, rows: Rows, user: UserId, after: Table)
    requires WellKeyed(rows) && Pushed(before, [], rows, user, after)
    ensures after == TableAfter(before, rows, user)
  {
    var batch :| PushedBatch(before, [], rows, user, batch, after);
    UpsertIsPush(before, rows, user, batch);
  }

  /** What an uninterrupted call leaves, whatever becomes of it: the whole round, its push alone, or nothing. */
  lemma UninterruptedOutcome(before: Table, rows: Rows, user: UserId, cursor: Time,
                             fate: Fate, commits: bool, ok: bool, after: Table, rows': Rows)
    requires WellKeyed(rows) && TableWellKeyed(before)
    requires SyncOutcome(before, [], rows, user, cursor, fate, commits, ok, after, rows')
    ensures after == if fate.RequestLost? then before else TableAfter(before, rows, user)
    ensures rows' == if fate.Delivered? && commits then RowsAfter(before, rows, user, cursor) else rows
  {
    var batch, updates :|
      SyncOutcomeOf(before, [], rows, user, cursor, batch, updates, fate, commits, ok, after, rows');
    if ok {
      assert SyncedBatch(before, [], rows, user, cursor, batch, updates, after, rows');
      UninterruptedSyncIsRound(before, rows, user, cursor, after, rows');
    } else if !fate.RequestLost? {
      assert PushedBatch(before, [], rows, user, batch, after);
      UninterruptedPushIsRound(before, rows, user, after);
    }
  }

  class ServerUseCase {
    const repo: S.Repository

    constructor (repo: S.Repository)
      ensures this.repo == repo
    {
      this.repo := repo;
    }

    /**
     Merges the client's updates, then reads. `between` are the pushes of others that land between
     the two statements.
     */
    method Sync(user: Option<UserId>, updates: seq<Entry>, lastSyncAt: Time, between: seq<Batch>)
      returns (r: Result<SyncResponse, SyncError>)
      requires TableWellKeyed(repo.table)
      modifies repo`table
      ensures TableWellKeyed(repo.table)
      ensures user.None? ==> r == Err(Unauthenticated) && repo.table == old(repo.table)
      ensures user.Some? ==>
                match Upsert(old(repo.table), user.value, updates)
                case HitTwice => r == Err(Internal) && repo.table == old(repo.table)
                case Done(merged, applied) =>
                  && repo.table == RunBatches(merged, between)
                  && r.Ok? && r.value.applied == applied
                  && IsAnswer(repo.table, user.value, lastSyncAt, r.value.updates)
    {
      if user.None? {
        return Err(Unauthenticated);
      }
      UpsertKeepsKeys(repo.table, user.value, updates);
      var applied: seq<Uuid> := [];
      if |updates| > 0 {
        var merged := repo.UpsertEntries(user.value, updates);
        if merged.Err? {
          return Err(Internal);
        }
        applied := merged.value;
      }
      ghost var start := repo.table;
      for i := 0 to |between|
        invariant TableWellKeyed(repo.table) && repo.table == RunBatches(start, between[..i])
      {
        assert between[..i + 1][..i] == between[..i];
        UpsertKeepsKeys(repo.table, between[i].user, between[i].entries);
        var _ := repo.UpsertEntries(between[i].user, between[i].entries);
      }
      assert between[..|between|] == between;
      var found := repo.GetUpdatedAfter(user.value, lastSyncAt);
      return Ok(SyncResponse(found, applied));
    }

    /** The gRPC handler: a request with one bad uuid is rejected before any row changes. */
    method Handle(user: Option<UserId>, req: WireRequest, between: seq<Batch>, ghost sent: seq<Entry>)
      returns (r: Result<WireResponse, SyncError>, ghost response: SyncResponse)
      requires TableWellKeyed(repo.table)
      modifies repo`table
      ensures TableWellKeyed(repo.table)
      ensures (exists i :: 0 <= i < |req.updates| && req.updates[i].uuid.Garbled?) ==>
                r == Err(InvalidArgument) && repo.table == old(repo.table)
      ensures user.None? ==> r.Err? && repo.table == old(repo.table)
      ensures DecodesTo(req.updates, sent) && user.Some? ==>
                var since :=
                  if req.lastSyncAt.Some? then req.lastSyncAt.value else -62_135_596_800_000_000_000;
                match Upsert(old(repo.table), user.value, sent)
                case HitTwice => r.Err? && repo.table == old(repo.table)
                case Done(merged, applied) =>
                  && repo.table == RunBatches(merged, between)
                  && response.applied == applied
                  && IsAnswer(repo.table, user.value, since, response.updates)
                  && r.Ok? && DecodesTo(r.value.updates, response.updates)
                  && |r.value.applied| == |applied| && forall i | 0 <= i < |applied| ::
                      r.value.applied[i] == Text(applied[i])
    {
      response := SyncResponse([], []);
      var decoded := DecodeAll(req.updates);
      if decoded.Err? {
        GarbledDecodesToNothing(req.updates, sent);
        return Err(InvalidArgument), response;
      }
      if DecodesTo(req.updates, sent) {
        DecodingIsFunctional(req.updates, decoded.value, sent);
      }
      var result := Sync(user, decoded.value, req.lastSyncAt.GetOr(ZERO_TIME), between);
      if result.Err? {
        return Err(result.error), response;
      }
      response := result.value;
      var updates := EncodeAll(result.value.updates);
      var applied := EncodeIds(result.value.applied);
      return Ok(WireResponse(updates, applied)), response;
    }
  }

  lemma GarbledDecodesToNothing(ws: seq<WireEntry>, es: seq<Entry>)
    requires exists i :: 0 <= i < |ws| && ws[i].uuid.Garbled?
    ensures !DecodesTo(ws, es)
  {
    var i :| 0 <= i < |ws| && ws[i].uuid.Garbled?;
    assert |ws| == |es| ==> !StandsFor(ws[i], es[i]);
  }

  class SkeeperClient {
    const server: ServerUseCase

    constructor (server: ServerUseCase)
      ensures this.server == server
    {
      this.server := server;
    }

    /** Encodes, calls, decodes. What comes back is exactly what the server merged and read. */
    method Sync(user: Option<UserId>, entries: seq<Entry>, lastSyncAt: Time, fate: Fate, between: seq<Batch>)
      returns (r: Result<SyncResponse, SyncError>)
      requires TableWellKeyed(server.repo.table)
      modifies server.repo`table
      ensures TableWellKeyed(server.repo.table)
      ensures fate.RequestLost? || user.None? ==> r.Err? && server.repo.table == old(server.repo.table)
      ensures !fate.RequestLost? && user.Some? ==>
                match Upsert(old(server.repo.table), user.value, entries)
                case HitTwice => r.Err? && server.repo.table == old(server.repo.table)
                case Done(merged, applied) =>
                  && server.repo.table == RunBatches(merged, between)
                  && (r.Ok? <==> fate.Delivered?)
                  && (r.Ok? ==> r.value.applied == applied
                                && IsAnswer(server.repo.table, user.value, lastSyncAt, r.value.updates))
    {
      var updates := EncodeAll(entries);
      if fate.RequestLost? {
        return Err(Transport);
      }
      var reply, response := server.Handle(user, WireRequest(updates, Some(lastSyncAt)), between, entries);
      if reply.Err? {
        return Err(reply.error);
      }
      if fate.ReplyLost? {
        return Err(Transport);
      }
      var out := DecodeAll(reply.value.updates);
      if out.Err? {
        GarbledDecodesToNothing(reply.value.updates, response.updates);
        return Err(BadReply);
      }
      DecodingIsFunctional(reply.value.updates, out.value, response.updates);
      var applied := DecodeIds(reply.value.applied);
      if applied.Err? {
        return Err(BadReply);
      }
      assert applied.value == response.applied;
      return Ok(SyncResponse(out.value, applied.value));
    }
  }

  class SyncUseCase {
    const local: L.Repository
    const remote: SkeeperClient

    constructor (local: L.Repository, remote: SkeeperClient)
      ensures this.local == local && this.remote == remote
    {
      this.local, this.remote := local, remote;
    }

    /**
     Pushes dirty rows, pulls newer ones, and merges. The session's user id is that of its access
     token, which the server authenticates. On failure no row of the device changes, though the
     server may have merged.
     */
    method Sync(fate: Fate, between: seq<Batch>, commits: bool) returns (r: Result<(), SyncError>, cursor: Time)
      requires WellKeyed(local.rows) && TableWellKeyed(remote.server.repo.table)
      requires local.session.Some? ==> local.session.value.access.claim == local.session.value.user
      modifies local`rows, remote.server.repo`table
      ensures local.session.None? || local.session.value.user.None? ==>
                r == Err(LogInFirst) && local.rows == old(local.rows)
                    && remote.server.repo.table == old(remote.server.repo.table)
      ensures local.session.Some? && local.session.value.user.Some? ==>
                var table, server := old(remote.server.repo.table), remote.server.repo.table;
                var rows, u := old(local.rows), local.session.value.user.value;
                && L.IsLastUpdate(rows, Some(u), cursor) && CursorWithin(ViewOfRows(rows, u), cursor)
                && SyncOutcome(table, between, rows, u, cursor, fate, commits, r.Ok?, server, local.rows)
    {
      cursor := 0;
      if local.session.None? || local.session.value.user.None? {
        return Err(LogInFirst), cursor;
      }
      var u := local.session.value.user.value;
      ghost var table, rows := remote.server.repo.table, local.rows;
      var dirty := local.GetDirtyEntries(u);
      cursor := local.GetLastUpdate(Some(u));
      UpsertExact(table, u, dirty);
      var reply := remote.Sync(local.session.value.access.claim, dirty, cursor, fate, between);
      if reply.Err? {
        assert SyncOutcomeOf(table, between, rows, u, cursor, dirty, [], fate, commits, false,
                             remote.server.repo.table, local.rows);
        return Err(reply.error), cursor;
      }
      r := Merge(u, dirty, reply.value, commits);
      ghost var server := remote.server.repo.table;
      assert SyncOutcomeOf(table, between, rows, u, cursor, dirty, reply.value.updates, fate, commits, r.Ok?,
                           server, local.rows);
    }

    /** Builds the applied set and persists. */
    method Merge(u: UserId, dirty: seq<Entry>, reply: SyncResponse, commits: bool) returns (r: Result<(), SyncError>)
      modifies local`rows
      ensures if commits then r == Ok(())
          && local.rows == Persist(old(local.rows), u, reply.updates, dirty, IdSet(reply.applied))
              else r.Err? && local.rows == old(local.rows)
    {
      var applied := {};
      for i := 0 to |reply.applied|
        invariant applied == IdSet(reply.applied[..i])
      {
        assert reply.applied[..i + 1] == reply.applied[..i] + [reply.applied[i]];
        applied := applied + {reply.applied[i]};
      }
      assert reply.applied[..|reply.applied|] == reply.applied;
      var persisted := local.PersistSyncResult(u, reply.updates, dirty, applied, commits);
      return if persisted.Ok? then Ok(()) else Err(PersistFailed);
    }
  }
}
