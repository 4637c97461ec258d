/**
 Auther's token repository and the client's authentication use case as mutable objects
 (internal/auther/repository/postgres/postgres.go, internal/client/usecase/auth.go).
 */
module AuthService {
  import opened Basics
  import opened RefreshTokens
  import A = AuthSession
  import L = LocalStore

  /** The UNIQUE constraint on token_hash. */
  ghost predicate UniqueHashes(rows: TokenRows) {
    forall i, j | i in rows && j in rows && rows[i].hash == rows[j].hash :: i == j
  }

  class TokenRepository {
    var rows: TokenRows
    var nextId: nat

    constructor ()
      ensures rows == map[] && nextId == 0
    {
      rows, nextId := map[], 0;
    }

    function Snapshot(): Db
      reads this
    {
      Db(rows, nextId)
    }

    /** One transaction: delete the user's tokens, insert the new one. */
    method ReplaceUserRefreshTokens(user: UserId, pair: TokenPair) returns (r: Result<(), TokenError>)
      modifies this
      ensures (Snapshot(), r) == Replace(old(Snapshot()), user, pair)
    {
      var tx := Snapshot();
      tx := tx.(rows := DeleteUser(tx.rows, user));
      match Insert(tx, user, pair)
      case Err(e) => return Err(e);
      case Ok(inserted) =>
        rows, nextId := inserted.rows, inserted.nextId;
        return Ok(());
    }

    /** One transaction, statement by statement; returning an error without committing rolls back. */
    method RotateRefreshToken(token: Refresh, now: Time, m: Option<Minted>) returns (r: Result<TokenPair, TokenError>)
      requires UniqueHashes(rows)
      modifies this
      ensures (Snapshot(), r) == Rotate(old(Snapshot()), token, now, m)
    {
      var tx := Snapshot();
      var hash := HashOf(token);
      if !HashTaken(tx.rows, hash) {
        return Err(InvalidToken);
      }
      var id :| id in tx.rows && tx.rows[id].hash == hash;
      var row := tx.rows[id];
      if row.usedAt.Some? || row.expiresAt <= now {
        rows := DeleteUser(tx.rows, row.user);
        return Err(InvalidToken);
      }
      tx := tx.(rows := tx.rows[id := row.(usedAt := Some(now))]);
      if m.None? {
        return Err(MintFailed);
      }
      var pair := NewTokenPair(row.user, m.value);
      match Insert(tx, row.user, pair)
      case Err(e) => return Err(e);
      case Ok(inserted) =>
        rows, nextId := PruneUsed(inserted.rows, row.user), inserted.nextId;
        return Ok(pair);
    }
  }

  class AuthUseCase {
    const local: L.Repository
    const remote: TokenRepository

    constructor (local: L.Repository, remote: TokenRepository)
      ensures this.local == local && this.remote == remote
    {
      this.local, this.remote := local, remote;
    }

    /** `account` is the user whose password matched, if any; `m` what minting draws, if it succeeds. */
    method Login(account: Option<UserId>, m: Option<Minted>, fate: A.Fate) returns (r: Result<(), A.AuthError>)
      modifies local`session, remote
      ensures account.None? || m.None? ==>
                r == Err(A.SignInFailed) && local.session == old(local.session)
                && remote.Snapshot() == old(remote.Snapshot())
      ensures account.Some? && m.Some? ==>
                var o := A.Login(old(remote.Snapshot()), old(local.session), account.value, m.value, fate);
                && remote.Snapshot() == o.db && local.session == o.session
                && (r.Ok? <==> o.reply.Ok?) && (r.Err? ==> o.reply == Err(r.error))
      ensures r.Ok? ==> fate.Kept? && local.session == Some(A.SessionFor(account.value, m.value))
      ensures r.Err? ==> local.session == old(local.session)
      ensures r.Err? ==> r.error == A.SignInFailed || (r.error == A.SaveFailed && fate.SaveFails?)
    {
      if account.None? || m.None? || fate.Unserved? {
        return Err(A.SignInFailed);
      }
      var pair := NewTokenPair(account.value, m.value);
      var stored := remote.ReplaceUserRefreshTokens(account.value, pair);
      if stored.Err? || fate.ReplyLost? {
        return Err(A.SignInFailed);
      }
      match A.SessionOf(pair)
      case Err(e) => return Err(e);
      case Ok(session) =>
        if fate.SaveFails? {
          return Err(A.SaveFailed);
        }
        var _ := local.SaveSession(session);
        return Ok(());
    }

    /** Returns the stored token, or renews it when it is within a minute of expiry. */
    method GetValidToken(now: Time, served: Time, m: Option<Minted>, fate: A.Fate)
      returns (r: Result<Access, A.AuthError>)
      requires UniqueHashes(remote.rows)
      modifies local`session, remote
      ensures A.Outcome(remote.Snapshot(), local.session, r)
           == A.GetValidToken(old(remote.Snapshot()), old(local.session), now, served, m, fate)
    {
      if local.session.None? {
        return Err(A.NoSession);
      }
      var session := local.session.value;
      if session.expiresAt - now > A.MINUTE {
        return Ok(session.access);
      }
      if session.refreshExpiresAt != ZERO_TIME && session.refreshExpiresAt - now <= 0 {
        return Err(A.RefreshExpired);
      }
      if fate.Unserved? {
        return Err(A.RefreshFailed);
      }
      var pair := remote.RotateRefreshToken(session.refresh, served, m);
      if pair.Err? || fate.ReplyLost? {
        return Err(A.RefreshFailed);
      }
      match A.SessionOf(pair.value)
      case Err(e) => return Err(e);
      case Ok(renewed) =>
        if fate.SaveFails? {
          return Err(A.SaveFailed);
        }
        var _ := local.SaveSession(renewed);
        return Ok(renewed.access);
    }

    /** Clears the local session; the server's tokens stay. */
    method Logout()
      modifies local`session
      ensures local.session == None
    {
      local.ClearSession();
    }
  }
}
