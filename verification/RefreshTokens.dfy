/**
 Refresh-token rotation in auther (internal/auther/repository/postgres/postgres.go), the technique of
 section 10.4 of RFC 6749, as functions on the refresh_tokens table, and what serial runs of logins
 and exchanges guarantee. A token's hash is assumed to determine the token.
 */
module RefreshTokens {
  import opened Basics

  /** An opaque refresh secret. */
  datatype Refresh = Refresh(secret: nat)

  /** An access JWT, by its user id claim. */
  datatype Access = Access(claim: Option<UserId>, serial: nat)

  datatype TokenHash = HashOf(token: Refresh)

  datatype TokenPair = TokenPair(access: Access, accessExpires: Time, refresh: Refresh, refreshExpires: Time)

  datatype TokenRow = TokenRow(user: UserId, hash: TokenHash, expiresAt: Time, usedAt: Option<Time>)

  type TokenRows = map<nat, TokenRow>

  /** The table and its identity sequence. */
  datatype Db = Db(rows: TokenRows, nextId: nat)

  datatype TokenError = InvalidToken | MintFailed | DuplicateHash

  /** What minting draws, before it is bound to a user. */
  datatype Minted = Minted(serial: nat, accessExpires: Time, refresh: Refresh, refreshExpires: Time)

  function NewTokenPair(user: UserId, m: Minted): TokenPair {
    TokenPair(Access(Some(user), m.serial), m.accessExpires, m.refresh, m.refreshExpires)
  }

  // ----- Statements -----

  function DeleteUser(rows: TokenRows, user: UserId): TokenRows {
    map id | id in rows && rows[id].user != user :: rows[id]
  }

  function PruneUsed(rows: TokenRows, user: UserId): TokenRows {
    map id | id in rows && !(rows[id].user == user && rows[id].usedAt.Some?) :: rows[id]
  }

  predicate HashTaken(rows: TokenRows, hash: TokenHash) {
    exists id :: id in rows && rows[id].hash == hash
  }

  /** The UNIQUE constraint on token_hash refuses a hash that is already there. */
  function Insert(db: Db, user: UserId, pair: TokenPair): Result<Db, TokenError> {
    if HashTaken(db.rows, HashOf(pair.refresh)) then Err(DuplicateHash)
    else Ok(Db(db.rows[db.nextId := TokenRow(user, HashOf(pair.refresh), pair.refreshExpires, None)], db.nextId + 1))
  }

  /** ReplaceUserRefreshTokens; an error rolls back. */
  function Replace(db: Db, user: UserId, pair: TokenPair): (Db, Result<(), TokenError>) {
    match Insert(db.(rows := DeleteUser(db.rows, user)), user, pair)
    case Err(e) => (db, Err(e))
    case Ok(db') => (db', Ok(()))
  }

  ghost function RowWithHash(rows: TokenRows, hash: TokenHash): nat
    requires HashTaken(rows, hash)
  {
    var id :| id in rows && rows[id].hash == hash; id
  }

  /** RotateRefreshToken at server time `now`; `m` is what minting would draw, None if it fails. */
  ghost function Rotate(db: Db, token: Refresh, now: Time, m: Option<Minted>): (Db, Result<TokenPair, TokenError>) {
    if !HashTaken(db.rows, HashOf(token)) then (db, Err(InvalidToken))
    else
      var id := RowWithHash(db.rows, HashOf(token));
      var row := db.rows[id];
      if row.usedAt.Some? || row.expiresAt <= now then (db.(rows := DeleteUser(db.rows, row.user)), Err(InvalidToken))
      else if m.None? then (db, Err(MintFailed))
      else
        var pair := NewTokenPair(row.user, m.value);
        var marked := db.(rows := db.rows[id := row.(usedAt := Some(now))]);
        match Insert(marked, row.user, pair)
        case Err(e) => (db, Err(e))
        case Ok(db') => (db'.(rows := PruneUsed(db'.rows, row.user)), Ok(pair))
  }

  // ----- The table invariant -----

  /** At most one row per user, no row marked used, hashes unique, ids below the sequence. */
  ghost predicate Tidy(db: Db) {
    && (forall i, j | i in db.rows && j in db.rows && db.rows[i].user == db.rows[j].user :: i == j)
    && (forall i, j | i in db.rows && j in db.rows && db.rows[i].hash == db.rows[j].hash :: i == j)
    && (forall i | i in db.rows :: db.rows[i].usedAt == None && i < db.nextId)
  }

  /** The user's only row is for this token. */
  ghost predicate HasOnly(db: Db, user: UserId, token: Refresh, expiresAt: Time) {
    && (exists i :: i in db.rows && db.rows[i] == TokenRow(user, HashOf(token), expiresAt, None))
    && (forall i | i in db.rows && db.rows[i].user == user :: db.rows[i].hash == HashOf(token))
  }

  ghost predicate SameForOthers(db: Db, db': Db, user: UserId) {
    && (forall i | i in db.rows && db.rows[i].user != user :: i in db'.rows && db'.rows[i] == db.rows[i])
    && (forall i | i in db'.rows && db'.rows[i].user != user :: i in db.rows && db'.rows[i] == db.rows[i])
  }

  /** Login leaves the user with exactly the new token and no one else affected. */
  lemma ReplaceEffect(db: Db, user: UserId, pair: TokenPair)
    requires Tidy(db)
    ensures var (db', r) := Replace(db, user, pair);
            && Tidy(db') && SameForOthers(db, db', user)
            && (r.Ok? ==> HasOnly(db', user, pair.refresh, pair.refreshExpires))
            && (r.Err? ==> db' == db)
  {
    var (db', r) := Replace(db, user, pair);
    if r.Ok? {
      assert db'.rows[db.nextId] == TokenRow(user, HashOf(pair.refresh), pair.refreshExpires, None);
    }
  }

  /**
   An exchange, exactly: it fails and changes nothing without a row for the token; with an expired
   row it fails and revokes the user's tokens; otherwise it succeeds, provided minting does, and
   leaves the user with exactly the new token. No one else is affected.
   */
  lemma RotateEffect(db: Db, token: Refresh, now: Time, m: Option<Minted>)
    requires Tidy(db)
    ensures var (db', r) := Rotate(db, token, now, m);
            && Tidy(db')
            && (!HashTaken(db.rows, HashOf(token)) ==> db' == db && r == Err(InvalidToken))
            && (HashTaken(db.rows, HashOf(token)) ==>
                  var row := db.rows[RowWithHash(db.rows, HashOf(token))];
                  && SameForOthers(db, db', row.user)
                  && (row.expiresAt <= now ==>
                        r == Err(InvalidToken) && forall i | i in db'.rows :: db'.rows[i].user != row.user)
                  && (row.expiresAt > now && r.Err? ==> db' == db && r.error != InvalidToken)
                  && (row.expiresAt > now && m.Some? && !HashTaken(db.rows, HashOf(m.value.refresh)) ==> r.Ok?)
                  && (r.Ok? ==> m.Some? && r.value == NewTokenPair(row.user, m.value)
                                && HasOnly(db', row.user, m.value.refresh, m.value.refreshExpires)))
  {
    if HashTaken(db.rows, HashOf(token)) {
      var id := RowWithHash(db.rows, HashOf(token));
      if db.rows[id].expiresAt <= now {
        RevokeEffect(db, db.rows[id].user);
      } else if m.Some? {
        MarkKeepsHashes(db.rows, id, now, HashOf(m.value.refresh));
        if !HashTaken(db.rows, HashOf(m.value.refresh)) {
          SwapEffect(db, id, now, m.value);
        }
      }
    }
  }

  lemma RevokeEffect(db: Db, user: UserId)
    requires Tidy(db)
    ensures var db' := db.(rows := DeleteUser(db.rows, user));
            Tidy(db') && SameForOthers(db, db', user) && forall i | i in db'.rows :: db'.rows[i].user != user
  {
  }

  lemma MarkKeepsHashes(rows: TokenRows, id: nat, now: Time, hash: TokenHash)
    requires id in rows
    ensures HashTaken(rows[id := rows[id].(usedAt := Some(now))], hash) <==> HashTaken(rows, hash)
  {
    var marked := rows[id := rows[id].(usedAt := Some(now))];
    assert forall i | i in rows :: i in marked && marked[i].hash == rows[i].hash;
  }

  /** Mark, insert, prune: the user's one row is swapped for the new token's. */
  lemma SwapEffect(db: Db, id: nat, now: Time, m: Minted)
    requires Tidy(db) && id in db.rows && !HashTaken(db.rows, HashOf(m.refresh))
    ensures var row := db.rows[id];
            var marked := db.(rows := db.rows[id := row.(usedAt := Some(now))]);
            var inserted := Insert(marked, row.user, NewTokenPair(row.user, m));
            && inserted.Ok?
            && var db' := inserted.value.(rows := PruneUsed(inserted.value.rows, row.user));
               Tidy(db') && SameForOthers(db, db', row.user) && HasOnly(db', row.user, m.refresh, m.refreshExpires)
  {
    var row := db.rows[id];
    MarkKeepsHashes(db.rows, id, now, HashOf(m.refresh));
    var marked := db.(rows := db.rows[id := row.(usedAt := Some(now))]);
    var inserted := Insert(marked, row.user, NewTokenPair(row.user, m)).value;
    var swapped := TokenRow(row.user, HashOf(m.refresh), m.refreshExpires, None);
    SwappedRows(db, id, swapped, PruneUsed(inserted.rows, row.user));
  }

  /** `rows` is the table without row `id` and with `added` under the next id. */
  lemma SwappedRows(db: Db, id: nat, added: TokenRow, rows: TokenRows)
    requires Tidy(db) && id in db.rows && added.user == db.rows[id].user && added.usedAt == None
        && !HashTaken(db.rows, added.hash)
    requires forall i :: i in rows <==> i == db.nextId || (i in db.rows && i != id)
    requires rows[db.nextId] == added && forall i | i in db.rows && i != id :: rows[i] == db.rows[i]
    ensures var db' := Db(rows, db.nextId + 1);
            && Tidy(db') && SameForOthers(db, db', added.user)
            && HasOnly(db', added.user, added.hash.token, added.expiresAt)
  {
  }

  // ----- Serial runs -----

  type Issued = map<UserId, seq<Refresh>>

  /** `issued` lists each user's refresh tokens in order of issue; `exchanged` those exchanged successfully. */
  datatype State = State(db: Db, issued: Issued, exchanged: seq<Refresh>)

  const INITIAL: State := State(Db(map[], 0), map[], [])

  datatype Call = Login(user: UserId, m: Minted) | Exchange(token: Refresh, now: Time, minted: Option<Minted>)

  function IssuedTo(issued: Issued, user: UserId): seq<Refresh> {
    if user in issued then issued[user] else []
  }

  function Issue(issued: Issued, user: UserId, token: Refresh): Issued {
    issued[user := IssuedTo(issued, user) + [token]]
  }

  ghost function Next(s: State, c: Call): State {
    match c
    case Login(u, m) =>
      var (db, r) := Replace(s.db, u, NewTokenPair(u, m));
      if r.Ok? then State(db, Issue(s.issued, u, m.refresh), s.exchanged) else s
    case Exchange(token, now, m) =>
      var (db, r) := Rotate(s.db, token, now, m);
      if r.Err? then s.(db := db)
      else State(db, Issue(s.issued, r.value.access.claim.value, r.value.refresh), s.exchanged + [token])
  }

  ghost predicate Run(states: seq<State>, calls: seq<Call>) {
    && |states| == |calls| + 1
    && states[0] == INITIAL
    && forall i | 0 <= i < |calls| :: states[i + 1] == Next(states[i], calls[i])
  }

  /** In every serial run, whatever is minted, each user has at most one row and no committed row is used. */
  lemma {:induction false} TableStaysTidy(states: seq<State>, calls: seq<Call>, i: nat)
    requires Run(states, calls) && i < |states|
    ensures Tidy(states[i].db)
  {
    if i == 0 {
    } else {
      TableStaysTidy(states, calls, i - 1);
      match calls[i - 1]
      case Login(u, m) => ReplaceEffect(states[i - 1].db, u, NewTokenPair(u, m));
      case Exchange(token, now, m) => RotateEffect(states[i - 1].db, token, now, m);
    }
  }

  ghost predicate WasIssued(issued: Issued, token: Refresh) {
    exists u :: u in issued && token in issued[u]
  }

  /** Every mint draws a token never issued before. */
  ghost predicate FreshMints(states: seq<State>, calls: seq<Call>)
    requires |states| == |calls| + 1
  {
    forall i | 0 <= i < |calls| ::
      match calls[i]
      case Login(_, m) => !WasIssued(states[i].issued, m.refresh)
      case Exchange(_, _, m) => m.Some? ==> !WasIssued(states[i].issued, m.value.refresh)
  }

  /** No token is issued twice. */
  ghost predicate IssuedApart(issued: Issued) {
    forall u, v, i, j | u in issued && v in issued && 0 <= i < |issued[u]| && 0 <= j < |issued[v]|
                        && issued[u][i] == issued[v][j] :: u == v && i == j
  }

  /** A row in the table is for the newest token issued to its user. */
  ghost predicate RowsAreNewest(s: State) {
    forall i | i in s.db.rows ::
      var issued := IssuedTo(s.issued, s.db.rows[i].user);
      issued != [] && s.db.rows[i].hash == HashOf(issued[|issued| - 1])
  }

  /** Exchanged tokens were issued, are each in the list once, and have no row any more. */
  ghost predicate ExchangedOk(s: State) {
    && (forall i, j | 0 <= i < j < |s.exchanged| :: s.exchanged[i] != s.exchanged[j])
    && (forall t | t in s.exchanged :: WasIssued(s.issued, t) && !HashTaken(s.db.rows, HashOf(t)))
  }

  ghost predicate Inv(s: State) {
    Tidy(s.db) && IssuedApart(s.issued) && RowsAreNewest(s) && ExchangedOk(s)
  }

  lemma IssueKeepsApart(issued: Issued, u: UserId, token: Refresh)
    requires IssuedApart(issued) && !WasIssued(issued, token)
    ensures IssuedApart(Issue(issued, u, token))
    ensures forall t | WasIssued(issued, t) :: WasIssued(Issue(issued, u, token), t)
  {
    forall t | WasIssued(issued, t)
      ensures WasIssued(Issue(issued, u, token), t)
    {
      var v :| v in issued && t in issued[v];
      assert t in Issue(issued, u, token)[v];
    }
    forall v, i | v in issued && 0 <= i < |issued[v]|
      ensures issued[v][i] != token
    {
      assert issued[v][i] in issued[v];
    }
  }

  lemma LoginKeeps(s: State, u: UserId, m: Minted)
    requires Inv(s) && !WasIssued(s.issued, m.refresh)
    ensures Inv(Next(s, Login(u, m)))
  {
    var s' := Next(s, Login(u, m));
    ReplaceEffect(s.db, u, NewTokenPair(u, m));
    if Replace(s.db, u, NewTokenPair(u, m)).1.Ok? {
      IssueKeepsApart(s.issued, u, m.refresh);
      RowsFollowIssue(s, s', u, m.refresh, m.refreshExpires);
    }
  }

  /** When the newly issued token gets the user's only row, rows stay newest and exchanged tokens stay dead. */
  lemma RowsFollowIssue(s: State, s': State, u: UserId, token: Refresh, expiresAt: Time)
    requires RowsAreNewest(s) && !WasIssued(s.issued, token)
    requires s'.issued == Issue(s.issued, u, token)
    requires SameForOthers(s.db, s'.db, u) && HasOnly(s'.db, u, token, expiresAt)
    ensures RowsAreNewest(s')
    ensures forall t | WasIssued(s.issued, t) && !HashTaken(s.db.rows, HashOf(t)) :: !HashTaken(s'.db.rows, HashOf(t))
  {
  }

  lemma ExchangeKeeps(s: State, token: Refresh, now: Time, m: Option<Minted>)
    requires Inv(s) && (m.Some? ==> !WasIssued(s.issued, m.value.refresh))
    ensures Inv(Next(s, Exchange(token, now, m)))
  {
    RotateEffect(s.db, token, now, m);
    var (db, r) := Rotate(s.db, token, now, m);
    if r.Ok? {
      SuccessKeeps(s, Next(s, Exchange(token, now, m)), token, s.db.rows[RowWithHash(s.db.rows, HashOf(token))].user,
          m.value);
    } else {
      FailureOnlyRevokes(s.db, token, now, m);
      FewerRowsKeep(s, db);
    }
  }

  lemma SuccessKeeps(s: State, s': State, token: Refresh, u: UserId, m: Minted)
    requires Inv(s) && Tidy(s'.db) && HashTaken(s.db.rows, HashOf(token)) && !WasIssued(s.issued, m.refresh)
    requires u == s.db.rows[RowWithHash(s.db.rows, HashOf(token))].user
    requires SameForOthers(s.db, s'.db, u) && HasOnly(s'.db, u, m.refresh, m.refreshExpires)
    requires s'.issued == Issue(s.issued, u, m.refresh) && s'.exchanged == s.exchanged + [token]
    ensures Inv(s')
  {
    IssueKeepsApart(s.issued, u, m.refresh);
    RowsFollowIssue(s, s', u, m.refresh, m.refreshExpires);
    ExchangedDies(s, s', token, u, m);
    AppendKeepsExchanged(s, s', token);
  }

  lemma AppendKeepsExchanged(s: State, s': State, token: Refresh)
    requires ExchangedOk(s) && s'.exchanged == s.exchanged + [token] && token !in s.exchanged
    requires WasIssued(s'.issued, token) && !HashTaken(s'.db.rows, HashOf(token))
    requires forall t | WasIssued(s.issued, t) :: WasIssued(s'.issued, t)
    requires forall t | WasIssued(s.issued, t) && !HashTaken(s.db.rows, HashOf(t)) :: !HashTaken(s'.db.rows, HashOf(t))
    ensures ExchangedOk(s')
  {
  }

  lemma FailureOnlyRevokes(db: Db, token: Refresh, now: Time, m: Option<Minted>)
    requires Rotate(db, token, now, m).1.Err?
    ensures forall i | i in Rotate(db, token, now, m).0.rows ::
        i in db.rows && Rotate(db, token, now, m).0.rows[i] == db.rows[i]
  {
  }

  lemma FewerRowsKeep(s: State, db: Db)
    requires Inv(s) && Tidy(db)
    requires forall i | i in db.rows :: i in s.db.rows && db.rows[i] == s.db.rows[i]
    ensures Inv(s.(db := db))
  {
  }

  /** The exchanged token was the newest one of its user, and its row is gone. */
  lemma ExchangedDies(s: State, s': State, token: Refresh, u: UserId, m: Minted)
    requires Inv(s) && HashTaken(s.db.rows, HashOf(token)) && !WasIssued(s.issued, m.refresh)
    requires u == s.db.rows[RowWithHash(s.db.rows, HashOf(token))].user
    requires SameForOthers(s.db, s'.db, u) && HasOnly(s'.db, u, m.refresh, m.refreshExpires)
    ensures WasIssued(s.issued, token) && !HashTaken(s'.db.rows, HashOf(token)) && token !in s.exchanged
  {
    var id := RowWithHash(s.db.rows, HashOf(token));
    var issued := IssuedTo(s.issued, u);
    assert issued[|issued| - 1] == token;
    assert token in s.issued[u];
  }

  lemma {:induction false} RunKeepsInv(states: seq<State>, calls: seq<Call>, i: nat)
    requires Run(states, calls) && FreshMints(states, calls) && i < |states|
    ensures Inv(states[i])
  {
    if i == 0 {
    } else {
      RunKeepsInv(states, calls, i - 1);
      match calls[i - 1]
      case Login(u, m) => LoginKeeps(states[i - 1], u, m);
      case Exchange(token, now, m) => ExchangeKeeps(states[i - 1], token, now, m);
    }
  }

  /** Each refresh token is exchanged successfully at most once in the whole run. */
  lemma EachTokenExchangedOnce(states: seq<State>, calls: seq<Call>, i: nat, j: nat, token: Refresh)
    requires Run(states, calls) && FreshMints(states, calls) && i < j < |calls|
    requires calls[i].Exchange? && calls[i].token == token && calls[j].Exchange? && calls[j].token == token
    requires Rotate(states[i].db, token, calls[i].now, calls[i].minted).1.Ok?
    ensures Rotate(states[j].db, token, calls[j].now, calls[j].minted) == (states[j].db, Err(InvalidToken))
  {
    assert states[i + 1] == Next(states[i], calls[i]);
    assert token in states[i + 1].exchanged;
    ExchangedIsRemembered(states, calls, i + 1, j);
    RunKeepsInv(states, calls, j);
  }

  lemma {:induction false} ExchangedIsRemembered(states: seq<State>, calls: seq<Call>, i: nat, j: nat)
    requires Run(states, calls) && i <= j < |states|
    ensures forall t | t in states[i].exchanged :: t in states[j].exchanged
  {
    if i == j {
    } else {
      ExchangedIsRemembered(states, calls, i, j - 1);
    }
  }

  /** A token older than the newest one issued to its user always fails and leaves the table unchanged. */
  lemma OlderTokensAreDead(states: seq<State>, calls: seq<Call>, i: nat, u: UserId, k: nat, now: Time,
                           m: Option<Minted>)
    requires Run(states, calls) && FreshMints(states, calls) && i < |states|
    requires u in states[i].issued && k < |states[i].issued[u]| - 1
    ensures Rotate(states[i].db, states[i].issued[u][k], now, m) == (states[i].db, Err(InvalidToken))
  {
    RunKeepsInv(states, calls, i);
    var s, token := states[i], states[i].issued[u][k];
    forall id | id in s.db.rows
      ensures s.db.rows[id].hash != HashOf(token)
    {
      var issued := IssuedTo(s.issued, s.db.rows[id].user);
      assert s.db.rows[id].hash == HashOf(issued[|issued| - 1]);
    }
  }
}
