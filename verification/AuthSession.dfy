/**
 The client's stored sessions against auther's token table (internal/client/usecase/auth.go): any
 number of devices per account, requests and replies lost, saves failing, and two machines' clocks
 that need not agree.
 */
module AuthSession {
  import opened Basics
  import opened RefreshTokens

  const MINUTE: Time := 60 * NANOS_PER_SECOND

  datatype Session = Session(access: Access, refresh: Refresh, expiresAt: Time, refreshExpiresAt: Time,
                             user: Option<UserId>)

  datatype AuthError = NoSession | RefreshExpired | RefreshFailed | NoUserClaim | SignInFailed | SaveFailed

  /** What becomes of a call to auther: kept, or failing on the way there, on the way back, or when saving. */
  datatype Fate = Kept | Unserved | ReplyLost | SaveFails

  /** The session saved for a pair: the user id comes from the pair's own access token. */
  function SessionOf(pair: TokenPair): Result<Session, AuthError> {
    if pair.access.claim.None? then Err(NoUserClaim)
    else Ok(Session(pair.access, pair.refresh, pair.accessExpires, pair.refreshExpires, pair.access.claim))
  }

  /** GetValidToken before any remote call: a token, an error, or the need to refresh. */
  datatype Need = Use(token: Access) | Refuse(error: AuthError) | Renew(refresh: Refresh)

  function Consider(session: Option<Session>, now: Time): Need {
    match session
    case None => Refuse(NoSession)
    case Some(s) =>
      if s.expiresAt - now > MINUTE then Use(s.access)
      else if s.refreshExpiresAt != ZERO_TIME && s.refreshExpiresAt <= now then Refuse(RefreshExpired)
      else Renew(s.refresh)
  }

  datatype Outcome = Outcome(db: Db, session: Option<Session>, reply: Result<Access, AuthError>)

  /** The session of a pair that auther has issued, if it arrives and is saved. */
  function Receive(db: Db, session: Option<Session>, pair: TokenPair, fate: Fate, failed: AuthError): Outcome {
    if !fate.Kept? && !fate.SaveFails? then Outcome(db, session, Err(failed))
    else
      match SessionOf(pair)
      case Err(e) => Outcome(db, session, Err(e))
      case Ok(x) =>
        if fate.SaveFails? then Outcome(db, session, Err(SaveFailed)) else Outcome(db, Some(x), Ok(x.access))
  }

  /** GetValidToken at the client's time `now`; auther serves the exchange at its own time `served`. */
  ghost function GetValidToken(db: Db, session: Option<Session>, now: Time, served: Time, m: Option<Minted>, fate: Fate)
    : Outcome
  {
    match Consider(session, now)
    case Use(token) => Outcome(db, session, Ok(token))
    case Refuse(e) => Outcome(db, session, Err(e))
    case Renew(refresh) =>
      if fate.Unserved? then Outcome(db, session, Err(RefreshFailed))
      else
        match Rotate(db, refresh, served, m)
        case (db', Err(_)) => Outcome(db', session, Err(RefreshFailed))
        case (db', Ok(pair)) => Receive(db', session, pair, fate, RefreshFailed)
  }

  /** Login with accepted credentials of `user`. */
  function Login(db: Db, session: Option<Session>, user: UserId, m: Minted, fate: Fate): Outcome {
    if fate.Unserved? then Outcome(db, session, Err(SignInFailed))
    else
      var pair := NewTokenPair(user, m);
      match Replace(db, user, pair)
      case (db', Err(_)) => Outcome(db', session, Err(SignInFailed))
      case (db', Ok(_)) => Receive(db', session, pair, fate, SignInFailed)
  }

  // ----- Runs -----

  /** `clock` is the latest time auther has read while exchanging. */
  datatype State = State(db: Db, sessions: map<DeviceId, Session>, clock: Time)

  datatype Step =
    | SignIn(device: DeviceId, user: UserId, m: Minted, fate: Fate)
    | Token(device: DeviceId, now: Time, served: Time, mint: Option<Minted>, fate: Fate)
    | Logout(device: DeviceId)

  function SessionAt(s: State, d: DeviceId): Option<Session> {
    if d in s.sessions then Some(s.sessions[d]) else None
  }

  function SaveSession(s: State, d: DeviceId, session: Option<Session>): map<DeviceId, Session> {
    match session
    case None => s.sessions - {d}
    case Some(x) => s.sessions[d := x]
  }

  /** The drawn refresh token is in no row and in no stored session. */
  predicate FreshMint(s: State, m: Minted) {
    !HashTaken(s.db.rows, HashOf(m.refresh)) && forall d | d in s.sessions :: s.sessions[d].refresh != m.refresh
  }

  predicate Enabled(s: State, step: Step) {
    match step
    case SignIn(_, _, m, _) => FreshMint(s, m)
    case Token(_, _, _, m, _) => m.Some? ==> FreshMint(s, m.value)
    case Logout(_) => true
  }

  ghost function OutcomeOf(s: State, step: Step): Outcome
    requires !step.Logout?
  {
    match step
    case SignIn(d, u, m, fate) => Login(s.db, SessionAt(s, d), u, m, fate)
    case Token(d, now, served, m, fate) => GetValidToken(s.db, SessionAt(s, d), now, served, m, fate)
  }

  ghost function Next(s: State, step: Step): State {
    match step
    case Logout(d) => s.(sessions := s.sessions - {d})
    case SignIn(d, _, _, _) =>
      var o := OutcomeOf(s, step);
      s.(db := o.db, sessions := SaveSession(s, d, o.session))
    case Token(d, _, served, _, _) =>
      var o := OutcomeOf(s, step);
      s.(db := o.db, sessions := SaveSession(s, d, o.session), clock := if served > s.clock then served else s.clock)
  }

  ghost predicate Run(states: seq<State>, steps: seq<Step>) {
    && |states| == |steps| + 1
    && states[0].db == Db(map[], 0) && states[0].sessions == map[]
    && forall i | 0 <= i < |steps| :: Enabled(states[i], steps[i]) && states[i + 1] == Next(states[i], steps[i])
  }

  // ----- Sessions and the token table -----

  ghost predicate Live(db: Db, s: Session) {
    s.user.Some? && HasOnly(db, s.user.value, s.refresh, s.refreshExpiresAt)
  }

  /** The session carries its own token's user, and its refresh token is that user's only one or is gone. */
  ghost predicate SessionOk(db: Db, x: Session) {
    && x.user.Some? && x.access.claim == x.user
    && (Live(db, x) || !HashTaken(db.rows, HashOf(x.refresh)))
  }

  ghost predicate Inv(s: State) {
    Tidy(s.db) && forall d | d in s.sessions :: SessionOk(s.db, s.sessions[d])
  }

  /** `user` has no row left, or only one for a freshly drawn token. */
  ghost predicate OnlyDrawn(db: Db, db': Db, user: UserId, drawn: TokenHash) {
    && SameForOthers(db, db', user)
    && forall i | i in db'.rows && db'.rows[i].user == user :: db'.rows[i].hash == drawn
  }

  /** Such a change keeps every other session in order: it spares other users' and ends this user's. */
  lemma OthersStayOk(db: Db, db': Db, user: UserId, drawn: TokenHash, x: Session)
    requires SessionOk(db, x) && Tidy(db) && OnlyDrawn(db, db', user, drawn) && HashOf(x.refresh) != drawn
    ensures SessionOk(db', x)
    ensures x.user != Some(user) && Live(db, x) ==> Live(db', x)
  {
    if x.user != Some(user) && Live(db, x) {
      var i :| i in db.rows && db.rows[i] == TokenRow(x.user.value, HashOf(x.refresh), x.refreshExpiresAt, None);
      assert i in db'.rows;
    } else {
      assert forall i | i in db'.rows :: db'.rows[i].hash == drawn || i in db.rows;
    }
  }

  /** Replacing a user's tokens by a freshly drawn one. */
  lemma ReplaceFresh(db: Db, user: UserId, m: Minted)
    requires Tidy(db) && !HashTaken(db.rows, HashOf(m.refresh))
    ensures var (db', r) := Replace(db, user, NewTokenPair(user, m));
            && r.Ok? && Tidy(db') && OnlyDrawn(db, db', user, HashOf(m.refresh))
            && HasOnly(db', user, m.refresh, m.refreshExpires)
  {
    ReplaceEffect(db, user, NewTokenPair(user, m));
    assert Replace(db, user, NewTokenPair(user, m)).1.Ok?;
  }

  function SessionFor(user: UserId, m: Minted): Session {
    Session(Access(Some(user), m.serial), m.refresh, m.accessExpires, m.refreshExpires, Some(user))
  }

  /** What is kept of a pair issued to the user. */
  lemma ReceiveKeeps(db: Db, session: Option<Session>, user: UserId, m: Minted, fate: Fate, failed: AuthError)
    ensures var o := Receive(db, session, NewTokenPair(user, m), fate, failed);
            && o.db == db
            && (fate.Kept? ==> o.session == Some(SessionFor(user, m)) && o.reply == Ok(Access(Some(user), m.serial)))
            && (!fate.Kept? ==> o.session == session && o.reply.Err?)
  {
  }

  /** What a sign-in leaves: nothing changed, or the user's rows are the new token's. */
  lemma SignInEffect(s: State, step: Step)
    requires Tidy(s.db) && Enabled(s, step) && step.SignIn?
    ensures var o, drawn := OutcomeOf(s, step), HashOf(step.m.refresh);
            && Tidy(o.db)
            && (step.fate.Unserved? ==> o.db == s.db)
            && (!step.fate.Unserved? ==> OnlyDrawn(s.db, o.db, step.user, drawn))
            && (step.fate.Kept? ==> o.session == Some(SessionFor(step.user, step.m)) && Live(o.db, o.session.value))
            && (!step.fate.Kept? ==> o.session == SessionAt(s, step.device))
  {
    ReplaceFresh(s.db, step.user, step.m);
    ReceiveKeeps(Replace(s.db, step.user, NewTokenPair(step.user, step.m)).0, SessionAt(s, step.device), step.user,
                 step.m, step.fate, SignInFailed);
  }

  /** The row a live session's token finds is the user's, with the session's expiry. */
  lemma LiveRowIsFound(db: Db, x: Session)
    requires Tidy(db) && Live(db, x)
    ensures HashTaken(db.rows, HashOf(x.refresh))
    ensures db.rows[RowWithHash(db.rows, HashOf(x.refresh))]
        == TokenRow(x.user.value, HashOf(x.refresh), x.refreshExpiresAt, None)
  {
  }

  /** The stored access token is within a minute of expiry. */
  predicate Due(x: Session, now: Time) {
    x.expiresAt - now <= 60_000_000_000
  }

  /** The client sees the refresh expired; a zero expiry means it has none. */
  predicate ClientExpired(x: Session, now: Time) {
    x.refreshExpiresAt != -62_135_596_800_000_000_000 && x.refreshExpiresAt <= now
  }

  /** Auther accepts the exchange. */
  ghost predicate Accepts(db: Db, x: Session, served: Time, m: Option<Minted>) {
    Live(db, x) && x.refreshExpiresAt > served && m.Some?
  }

  /** What auther makes of a session's token when an exchange reaches it. */
  lemma ExchangeEffect(db: Db, x: Session, served: Time, m: Option<Minted>)
    requires Tidy(db) && SessionOk(db, x) && (m.Some? ==> !HashTaken(db.rows, HashOf(m.value.refresh)))
    ensures var (db', r) := Rotate(db, x.refresh, served, m);
            && Tidy(db')
            && (r.Ok? <==> Accepts(db, x, served, m))
            && (r.Ok? ==> r.value == NewTokenPair(x.user.value, m.value)
                          && OnlyDrawn(db, db', x.user.value, HashOf(m.value.refresh))
                          && HasOnly(db', x.user.value, m.value.refresh, m.value.refreshExpires))
            && (r.Err? && db' != db ==>
                  && Live(db, x) && x.refreshExpiresAt <= served && SameForOthers(db, db', x.user.value)
                  && forall i | i in db'.rows :: db'.rows[i].user != x.user.value)
  {
    RotateEffect(db, x.refresh, served, m);
    if Live(db, x) {
      LiveRowIsFound(db, x);
    }
  }

  /** The call fails, and why: no session, or renewal is due and refused, or its result is not kept. */
  ghost predicate Fails(db: Db, session: Option<Session>, now: Time, served: Time, m: Option<Minted>, fate: Fate) {
    session.None?
    || (Due(session.value, now)
        && (ClientExpired(session.value, now) || !Accepts(db, session.value, served, m) || !fate.Kept?))
  }

  /** What the caller is told: which of the causes came first. */
  ghost predicate FailsWith(error: AuthError, db: Db, session: Option<Session>, now: Time, served: Time,
                            m: Option<Minted>, fate: Fate)
  {
    match session
    case None => error == NoSession
    case Some(x) =>
      if ClientExpired(x, now) then error == RefreshExpired
      else if Accepts(db, x, served, m) && fate.SaveFails? then error == SaveFailed
      else error == RefreshFailed
  }

  /** The exchange as the client sees it. */
  lemma RenewResult(db: Db, x: Session, now: Time, served: Time, m: Option<Minted>, fate: Fate)
    requires Tidy(db) && SessionOk(db, x) && (m.Some? ==> !HashTaken(db.rows, HashOf(m.value.refresh)))
    requires Consider(Some(x), now).Renew?
    ensures var o := GetValidToken(db, Some(x), now, served, m, fate);
            && (o.reply.Ok? <==> Accepts(db, x, served, m) && fate.Kept?)
            && (o.reply.Err? ==> o.session == Some(x))
            && (o.reply.Err? ==> FailsWith(o.reply.error, db, Some(x), now, served, m, fate))
            && (o.reply.Ok? ==> Renewed(o, x, m.value))
  {
    ExchangeEffect(db, x, served, m);
    if Accepts(db, x, served, m) {
      ReceiveKeeps(Rotate(db, x.refresh, served, m).0, Some(x), x.user.value, m.value, fate, RefreshFailed);
    }
  }

  /** GetValidToken, exactly, in any state that meets the invariant. */
  lemma TokenResult(s: State, step: Step)
    requires Inv(s) && Enabled(s, step) && step.Token?
    ensures var o, x := OutcomeOf(s, step), SessionAt(s, step.device);
            && (o.reply.Err? <==> Fails(s.db, x, step.now, step.served, step.mint, step.fate))
            && (o.reply.Err? ==> o.session == x)
            && (o.reply.Err? ==> FailsWith(o.reply.error, s.db, x, step.now, step.served, step.mint, step.fate))
            && (o.reply.Ok? && !Due(x.value, step.now) ==>
                  o.reply.value == x.value.access && o.session == x && o.db == s.db)
            && (o.reply.Ok? && Due(x.value, step.now) ==> Renewed(o, x.value, step.mint.value))
  {
    var x := SessionAt(s, step.device);
    if x.Some? && Consider(x, step.now).Renew? {
      assert SessionOk(s.db, x.value);
      RenewResult(s.db, x.value, step.now, step.served, step.mint, step.fate);
    }
  }

  /** The reply and the saved session are what was minted for the same user, whose only refresh token it is. */
  ghost predicate Renewed(o: Outcome, x: Session, m: Minted) {
    && o.reply == Ok(Access(x.user, m.serial))
    && o.session == Some(Session(o.reply.value, m.refresh, m.accessExpires, m.refreshExpires, x.user))
    && Live(o.db, o.session.value)
  }

  // ----- Each step keeps the invariant -----

  lemma SignInKeeps(s: State, step: Step)
    requires Inv(s) && Enabled(s, step) && step.SignIn?
    ensures Inv(Next(s, step))
  {
    var s' := Next(s, step);
    SignInEffect(s, step);
    forall e | e in s'.sessions
      ensures SessionOk(s'.db, s'.sessions[e])
    {
      if e in s.sessions && s'.sessions[e] == s.sessions[e] && !step.fate.Unserved? {
        OthersStayOk(s.db, s'.db, step.user, HashOf(step.m.refresh), s.sessions[e]);
      }
    }
  }

  lemma TokenKeeps(s: State, step: Step)
    requires Inv(s) && Enabled(s, step) && step.Token?
    ensures Inv(Next(s, step))
  {
    var s' := Next(s, step);
    TokenResult(s, step);
    TokenTable(s, step);
    if s'.db != s.db {
      var x := s.sessions[step.device];
      assert SessionOk(s.db, x);
      ExchangeEffect(s.db, x, step.served, step.mint);
      forall e | e in s'.sessions
        ensures SessionOk(s'.db, s'.sessions[e])
      {
        if e in s.sessions && s'.sessions[e] == s.sessions[e] {
          ExchangeSpares(s.db, x, step.served, step.mint, s.sessions[e]);
        }
      }
    }
  }

  /** A session the exchange does not replace stays in order, and stays live unless it is the same user's. */
  lemma ExchangeSpares(db: Db, x: Session, served: Time, m: Option<Minted>, y: Session)
    requires Tidy(db) && SessionOk(db, x) && SessionOk(db, y)
    requires m.Some? ==> !HashTaken(db.rows, HashOf(m.value.refresh)) && y.refresh != m.value.refresh
    ensures var db' := Rotate(db, x.refresh, served, m).0;
            SessionOk(db', y) && (y.user != x.user && Live(db, y) ==> Live(db', y))
  {
    var db' := Rotate(db, x.refresh, served, m).0;
    ExchangeEffect(db, x, served, m);
    if Accepts(db, x, served, m) {
      OthersStayOk(db, db', x.user.value, HashOf(m.value.refresh), y);
    } else if db' != db {
      RevokedStayOk(db, db', x.user.value, y);
    }
  }

  /** A Token step changes the table only by its exchange. */
  lemma TokenTable(s: State, step: Step)
    requires step.Token?
    ensures var db' := Next(s, step).db;
            db' == s.db || (step.device in s.sessions
                            && db' == Rotate(s.db, s.sessions[step.device].refresh, step.served, step.mint).0)
  {
  }

  /** A user's rows are gone, and no one else's. */
  lemma RevokedStayOk(db: Db, db': Db, user: UserId, x: Session)
    requires SessionOk(db, x) && Tidy(db) && SameForOthers(db, db', user)
    requires forall i | i in db'.rows :: db'.rows[i].user != user
    ensures SessionOk(db', x)
    ensures x.user != Some(user) && Live(db, x) ==> Live(db', x)
  {
    OthersStayOk(db, db', user, HashOf(Refresh(x.refresh.secret + 1)), x);
  }

  lemma StepKeepsInv(s: State, step: Step)
    requires Inv(s) && Enabled(s, step)
    ensures Inv(Next(s, step))
  {
    match step
    case SignIn(_, _, _, _) => SignInKeeps(s, step);
    case Token(_, _, _, _, _) => TokenKeeps(s, step);
    case Logout(_) =>
  }

  lemma {:induction false} RunKeepsInv(states: seq<State>, steps: seq<Step>, i: nat)
    requires Run(states, steps) && i < |states|
    ensures Inv(states[i])
  {
    if i == 0 {
    } else {
      RunKeepsInv(states, steps, i - 1);
      StepKeepsInv(states[i - 1], steps[i - 1]);
    }
  }

  /**
   The exact outcome of GetValidToken at any point of any run. It fails if and only if there is no
   session, or the token needs renewing and: the refresh has expired on the client's clock or on
   auther's, or it is no longer the user's live token, or minting fails, or the result is lost. What
   it returns is the stored token, over a minute from expiry, or one minted and saved in this call.
   */
  lemma ValidTokenInEveryRun(states: seq<State>, steps: seq<Step>, i: nat)
    requires Run(states, steps) && i < |steps| && steps[i].Token?
    ensures var x, o, step := SessionAt(states[i], steps[i].device), OutcomeOf(states[i], steps[i]), steps[i];
            && (o.reply.Err? <==> Fails(states[i].db, x, step.now, step.served, step.mint, step.fate))
            && (o.reply.Err? ==> SessionAt(states[i + 1], step.device) == x)
            && (o.reply.Err? ==> FailsWith(o.reply.error, states[i].db, x, step.now, step.served, step.mint, step.fate))
            && (o.reply.Ok? && !Due(x.value, step.now) ==> o.reply.value == x.value.access)
            && (o.reply.Ok? && Due(x.value, step.now) ==>
                  Renewed(o, x.value, step.mint.value) && SessionAt(states[i + 1], step.device) == o.session)
  {
    RunKeepsInv(states, steps, i);
    TokenResult(states[i], steps[i]);
    assert states[i + 1] == Next(states[i], steps[i]);
  }

  // ----- An account used from one device -----

  /** The step signs the account in, or exchanges its token. */
  predicate ActsFor(s: State, step: Step, user: UserId) {
    match step
    case SignIn(_, u, _, _) => u == user
    case Token(d, _, _, _, _) => d in s.sessions && s.sessions[d].user == Some(user)
    case Logout(_) => false
  }

  /** Only this device works for the account, and what it is issued is kept. */
  predicate AtHome(s: State, step: Step, user: UserId, d: DeviceId) {
    ActsFor(s, step, user) ==> step.device == d && (step.fate.Kept? || step.fate.Unserved?)
  }

  /** The account's sessions are on the device, and live unless expired on auther's clock. */
  ghost predicate HomeOk(s: State, user: UserId, d: DeviceId) {
    forall e | e in s.sessions && s.sessions[e].user == Some(user) ::
      e == d && (s.sessions[e].refreshExpiresAt <= s.clock || Live(s.db, s.sessions[e]))
  }

  lemma StepKeepsHome(s: State, step: Step, user: UserId, d: DeviceId)
    requires Inv(s) && Enabled(s, step) && HomeOk(s, user, d) && AtHome(s, step, user, d)
    ensures HomeOk(Next(s, step), user, d)
  {
    match step
    case SignIn(_, _, _, _) => SignInKeepsHome(s, step, user, d);
    case Token(_, _, _, _, _) => TokenKeepsHome(s, step, user, d);
    case Logout(_) =>
  }

  lemma SignInKeepsHome(s: State, step: Step, user: UserId, d: DeviceId)
    requires Inv(s) && Enabled(s, step) && step.SignIn? && HomeOk(s, user, d) && AtHome(s, step, user, d)
    ensures HomeOk(Next(s, step), user, d)
  {
    var s' := Next(s, step);
    SignInEffect(s, step);
    forall e | e in s'.sessions && s'.sessions[e].user == Some(user)
      ensures e == d && (s'.sessions[e].refreshExpiresAt <= s'.clock || Live(s'.db, s'.sessions[e]))
    {
      if e in s.sessions && s'.sessions[e] == s.sessions[e] && !step.fate.Unserved? && step.user != user {
        OthersStayOk(s.db, s'.db, step.user, HashOf(step.m.refresh), s.sessions[e]);
      }
    }
  }

  lemma TokenKeepsHome(s: State, step: Step, user: UserId, d: DeviceId)
    requires Inv(s) && Enabled(s, step) && step.Token? && HomeOk(s, user, d) && AtHome(s, step, user, d)
    ensures HomeOk(Next(s, step), user, d)
  {
    var s' := Next(s, step);
    TokenResult(s, step);
    TokenTable(s, step);
    forall e | e in s'.sessions && s'.sessions[e].user == Some(user)
      ensures e == d && (s'.sessions[e].refreshExpiresAt <= s'.clock || Live(s'.db, s'.sessions[e]))
    {
      if s'.db != s.db {
        var x := s.sessions[step.device];
        assert SessionOk(s.db, x);
        ExchangeEffect(s.db, x, step.served, step.mint);
        if e in s.sessions && s'.sessions[e] == s.sessions[e] {
          ExchangeSpares(s.db, x, step.served, step.mint, s.sessions[e]);
        }
      }
    }
  }

  lemma {:induction false} RunKeepsHome(states: seq<State>, steps: seq<Step>, i: nat, user: UserId, d: DeviceId)
    requires Run(states, steps) && i < |states|
    requires forall k | 0 <= k < i :: AtHome(states[k], steps[k], user, d)
    ensures HomeOk(states[i], user, d)
  {
    if i == 0 {
    } else {
      RunKeepsHome(states, steps, i - 1, user, d);
      RunKeepsInv(states, steps, i - 1);
      StepKeepsHome(states[i - 1], steps[i - 1], user, d);
    }
  }

  /**
   In every run a stored session names its own token's user, and each user has at most one refresh
   token. When only one device has worked for the account so far, and kept what it was issued, its
   session holds the account's single live token, unless its refresh has expired at a time auther
   has read.
   */
  lemma SessionsStayInStep(states: seq<State>, steps: seq<Step>, i: nat, d: DeviceId)
    requires Run(states, steps) && i < |states| && d in states[i].sessions
    ensures var s, x := states[i], states[i].sessions[d];
            && x.user.Some? && x.access.claim == x.user
            && (forall k, l | k in s.db.rows && l in s.db.rows && s.db.rows[k].user == s.db.rows[l].user :: k == l)
            && ((forall k | 0 <= k < i :: AtHome(states[k], steps[k], x.user.value, d)) ==>
                  x.refreshExpiresAt > s.clock ==> HasOnly(s.db, x.user.value, x.refresh, x.refreshExpiresAt))
  {
    RunKeepsInv(states, steps, i);
    var x := states[i].sessions[d];
    assert SessionOk(states[i].db, x);
    if forall k | 0 <= k < i :: AtHome(states[k], steps[k], x.user.value, d) {
      RunKeepsHome(states, steps, i, x.user.value, d);
    }
  }

  /** Two devices of one account are out of step: signing in on the second ends the first one's session. */
  lemma SecondSignInEndsFirst(s: State, d: DeviceId, step: Step)
    requires Inv(s) && Enabled(s, step) && step.SignIn? && !step.fate.Unserved?
    requires d in s.sessions && d != step.device && s.sessions[d].user == Some(step.user)
    ensures d in Next(s, step).sessions && !Live(Next(s, step).db, Next(s, step).sessions[d])
  {
    SignInEffect(s, step);
  }
}
