/** The session protocol of internal/usecase/auth_usecase.go as a state machine: what each
    request does to the users, the cache and the blacklist. A request reads the clock once. */
module AuthSpec {
  import opened Ttl
  import opened Tokens

  const RESET_TTL: int := 900_000_000_000 // 15 minutes
  const VERSION_TTL: int := 7_776_000_000_000_000 // 90 days
  const MAX_PASSWORD := 72 // bytes; bcrypt refuses to hash more

  /** A bcrypt hash, which only the password it was made from matches. */
  datatype PasswordHash = Bcrypt(password: string)

  datatype User = User(email: string, password: PasswordHash)

  /** What the protocol stores under its three kinds of keys. */
  datatype Value = Session(subject: string, version: int) | Version(number: int) | Email(address: string)

  type Cache = map<string, Entry<Value>>

  function SessionKey(jti: string): string { "auth:refresh:" + jti }
  function ResetKey(ticket: string): string { "auth:reset:" + ticket }
  function VersionKey(subject: string): string { "auth:ver:" + subject }

  /** `issued` and `drawn` remember every token handed out and every random name used. */
  datatype State = State(users: map<string, User>, cache: Cache, revoked: map<string, int>,
                         issued: set<Token>, drawn: set<string>)

  /** Refresh tokens share the access tokens' secret, issuer and audience. */
  datatype Setup = Setup(jwt: Config, refreshExpiry: int) {
    function RefreshCfg(): Config { jwt.(expiry := refreshExpiry) }
  }

  datatype Response =
    | Pair(access: Token, refresh: Token, expiresIn: int)
    | InvalidCredentials
    | InvalidToken
    | Failed
    | Done
    | NoAccount
    | ResetIssued(ticket: string)
    | Passed(claims: Claims)
    | Unauthorized

  /** A Logout's further clock readings: it takes what is left of the access token's life, and the
      blacklist stamps the entry; it verifies the refresh token, and does the same for that. */
  datatype Readings = Readings(asked: int, stamped: int, checked: int, askedAgain: int, stampedAgain: int) {
    predicate Follow(now: int) {
      now <= asked <= stamped <= checked <= askedAgain <= stampedAgain
    }
  }

  /** SaveUser and RemoveUser are the user management around the protocol. Names drawn at
      random and the times of a Logout's readings are part of the request. */
  datatype Request =
    | Login(email: string, password: string, accessId: string, refreshId: string)
    | Refresh(token: Token, accessId: string, refreshId: string)
    | Logout(access: Token, refresh: Option<Token>, later: Readings)
    | ForgotPassword(email: string, ticket: string)
    | ResetPassword(ticket: string, password: string)
    | Authorize(bearer: Option<Token>)
    | SaveUser(id: string, user: User)
    | RemoveUser(id: string)

  ghost predicate UniqueEmails(users: map<string, User>) {
    forall a, b :: a in users && b in users && users[a].email == users[b].email ==> a == b
  }

  ghost function FindByEmail(users: map<string, User>, email: string): (r: Option<string>)
    ensures r.Some? ==> r.value in users && users[r.value].email == email
    ensures r.None? ==> forall id :: id in users ==> users[id].email != email
  {
    if exists id :: id in users && users[id].email == email
    then var id :| id in users && users[id].email == email; Some(id)
    else None
  }

  /** The user's live version counter; 0 when there is none. */
  function CurrentVersion(cache: Cache, subject: string, now: int): int {
    var found: Option<Value> := Lookup(cache, VersionKey(subject), now);
    match found
    case Some(Version(n)) => n
    case _ => 0
  }

  function Seconds(d: int): int {
    if d >= 0 then d / SECOND else -(-d / SECOND)
  }

  /** A pair's expires_in is the life of its access token. */
  ghost predicate ExpiresInHolds(cfg: Config, subject: string, now: int, jti: string)
    requires !WeakSecret(cfg)
  {
    var c := Sign(subject, "access", cfg, now, jti).value.claims;
    Seconds(cfg.expiry) * SECOND == c.expiresAt - c.issuedAt
  }

  /** It is, whatever the clock reads, exactly for expiries of a whole number of seconds but none. */
  lemma ExpiresInIff(cfg: Config, subject: string, jti: string)
    requires !WeakSecret(cfg)
    ensures (forall now: int :: ExpiresInHolds(cfg, subject, now, jti)) <==> cfg.expiry != 0 && cfg.expiry % SECOND == 0
  {
    if cfg.expiry == 0 {
      assert !ExpiresInHolds(cfg, subject, 0, jti);
    } else if cfg.expiry % SECOND != 0 {
      var rest := cfg.expiry % SECOND;
      var now := if cfg.expiry > 0 then SECOND - rest else 0;
      assert !ExpiresInHolds(cfg, subject, now, jti);
    }
  }

  function IssuePair(p: Setup, s: State, subject: string, now: int, accessId: string, refreshId: string)
    : (State, Response)
  {
    match (Sign(subject, "access", p.jwt, now, accessId), Sign(subject, "refresh", p.RefreshCfg(), now, refreshId))
    case (Some(access), Some(refresh)) =>
      var session := Session(subject, CurrentVersion(s.cache, subject, now));
      (s.(cache := s.cache[SessionKey(refreshId) := Stamp(session, p.refreshExpiry, now)],
          issued := s.issued + {access, refresh},
          drawn := s.drawn + {accessId, refreshId}),
       Pair(access, refresh, Seconds(p.jwt.expiry)))
    case _ => (s, Failed)
  }

  ghost function LoginStep(p: Setup, s: State, r: Request, now: int): (State, Response)
    requires r.Login?
  {
    match FindByEmail(s.users, r.email)
    case None => (s, InvalidCredentials)
    case Some(id) =>
      if s.users[id].password != Bcrypt(r.password) then (s, InvalidCredentials)
      else IssuePair(p, s, id, now, r.accessId, r.refreshId)
  }

  function RefreshStep(p: Setup, s: State, r: Request, now: int): (State, Response)
    requires r.Refresh?
  {
    var c := r.token.claims;
    if !Verifies(r.token, p.RefreshCfg(), now) then (s, InvalidToken)
    else
      var found: Option<Value> := Lookup(s.cache, SessionKey(c.id), now);
      match found
      case None => (s, InvalidToken)
      case Some(Session(subject, version)) =>
        if subject != c.subject then (s, InvalidToken)
        else
          var spent := s.(cache := s.cache - {SessionKey(c.id)});
          if version < CurrentVersion(s.cache, c.subject, now) then (spent, InvalidToken)
          else if c.subject !in s.users then (spent, InvalidToken)
          else IssuePair(p, spent, c.subject, now, r.accessId, r.refreshId)
      case Some(_) => (s, Failed)
  }

  /** Revoking lasts for what remained of the token's life at `asked`, from `stamped` on. */
  function Revoke(revoked: map<string, int>, c: Claims, asked: int, stamped: int): map<string, int> {
    if c.id != "" && c.expiresAt - asked > 0 then revoked[c.id := stamped + (c.expiresAt - asked)] else revoked
  }

  function LogoutStep(p: Setup, s: State, r: Request, now: int): (State, Response)
    requires r.Logout?
  {
    if !Verifies(r.access, p.jwt, now) then (s, InvalidToken)
    else
      var s1 := s.(revoked := Revoke(s.revoked, r.access.claims, r.later.asked, r.later.stamped));
      if r.refresh.None? || !Verifies(r.refresh.value, p.RefreshCfg(), r.later.checked) then (s1, Done)
      else
        var c := r.refresh.value.claims;
        (s1.(cache := s1.cache - {SessionKey(c.id)},
             revoked := Revoke(s1.revoked, c, r.later.askedAgain, r.later.stampedAgain)),
         Done)
  }

  ghost function ForgotStep(s: State, r: Request, now: int): (State, Response)
    requires r.ForgotPassword?
  {
    match FindByEmail(s.users, r.email)
    case None => (s, NoAccount)
    case Some(id) =>
      (s.(cache := s.cache[ResetKey(r.ticket) := Stamp(Email(s.users[id].email), RESET_TTL, now)],
          drawn := s.drawn + {r.ticket}),
       ResetIssued(r.ticket))
  }

  /** The user's version counter one higher, for another 90 days. */
  function Bumped(cache: Cache, id: string, now: int): Cache {
    cache[VersionKey(id) := Stamp(Version(CurrentVersion(cache, id, now) + 1), VERSION_TTL, now)]
  }

  ghost function ResetStep(s: State, r: Request, now: int): (State, Response)
    requires r.ResetPassword?
  {
    var found: Option<Value> := Lookup(s.cache, ResetKey(r.ticket), now);
    match found
    case None => (s, InvalidToken)
    case Some(Email(address)) =>
      (match FindByEmail(s.users, address)
       case None => (s, Failed)
       case Some(id) =>
         if |r.password| > MAX_PASSWORD then (s, Failed)
         else
           (s.(users := s.users[id := s.users[id].(password := Bcrypt(r.password))],
               cache := Bumped(s.cache - {ResetKey(r.ticket)}, id, now)),
            Done))
    case Some(_) => (s, Failed)
  }

  ghost function Step(p: Setup, s: State, r: Request, now: int): (State, Response) {
    match r
    case Login(_, _, _, _) => LoginStep(p, s, r, now)
    case Refresh(_, _, _) => RefreshStep(p, s, r, now)
    case Logout(_, _, _) => LogoutStep(p, s, r, now)
    case ForgotPassword(_, _) => ForgotStep(s, r, now)
    case ResetPassword(_, _) => ResetStep(s, r, now)
    case Authorize(bearer) =>
      (s, match Admitted(bearer, p.jwt, s.revoked, now) case Some(c) => Passed(c) case None => Unauthorized)
    case SaveUser(id, user) => (s.(users := s.users[id := user]), Done)
    case RemoveUser(id) => (s.(users := s.users - {id}), Done)
  }

  /** A request's readings of the clock follow each other. */
  predicate Timely(r: Request, now: int) {
    r.Logout? ==> r.later.Follow(now)
  }

  /** The last of them. */
  function LastReading(r: Request, now: int): int {
    if r.Logout? then r.later.stampedAgain else now
  }

  /** Tokens under the service's key are only those it handed out: they cannot be forged. */
  ghost predicate Honest(p: Setup, s: State, t: Token) {
    t.alg == HS256 && t.key == p.jwt.secret ==> t in s.issued
  }

  ghost predicate Fresh(s: State, name: string) { name != "" && name !in s.drawn }

  /** What the world guarantees about a request: random names are new, tokens are honest, and
      the unique index on emails holds. */
  ghost predicate Possible(p: Setup, s: State, r: Request) {
    match r
    case Login(_, _, accessId, refreshId) => Fresh(s, accessId) && Fresh(s, refreshId) && accessId != refreshId
    case Refresh(token, accessId, refreshId) =>
      Honest(p, s, token) && Fresh(s, accessId) && Fresh(s, refreshId) && accessId != refreshId
    case Logout(access, refresh, _) => Honest(p, s, access) && (refresh.Some? ==> Honest(p, s, refresh.value))
    case ForgotPassword(_, ticket) => Fresh(s, ticket)
    case ResetPassword(_, _) => true
    case Authorize(bearer) => bearer.Some? ==> Honest(p, s, bearer.value)
    case SaveUser(id, user) => forall other :: other in s.users && s.users[other].email == user.email ==> other == id
    case RemoveUser(_) => true
  }
}
