/** The use case itself (internal/usecase/auth_usecase.go), running on the in-process cache and
    blacklist: each method does what AuthSpec says its request does, whatever those stores have
    swept. */
module AuthUseCase {
  import opened Ttl
  import opened Tokens
  import opened AuthSpec
  import opened AuthRuns
  import Blacklist
  import Store = Cache

  /** The users table: a row per id, and a unique index on emails. */
  class UserRepo {
    var users: map<string, User>

    constructor (users: map<string, User>)
      ensures this.users == users
    {
      this.users := users;
    }

    method FindByEmail(email: string) returns (r: Option<string>)
      requires UniqueEmails(users)
      ensures r == AuthSpec.FindByEmail(users, email)
    {
      if id :| id in users && users[id].email == email {
        return Some(id);
      }
      r := None;
    }

    method Update(id: string, user: User)
      modifies this
      ensures users == old(users)[id := user]
    {
      users := users[id := user];
    }

    method Delete(id: string)
      modifies this
      ensures users == old(users) - {id}
    {
      users := users - {id};
    }
  }

  function AsSession(v: Value): Option<Value> { if v.Session? then Some(v) else None }
  function AsVersion(v: Value): Option<Value> { if v.Version? then Some(v) else None }
  function AsEmail(v: Value): Option<Value> { if v.Email? then Some(v) else None }

  class AuthUseCase {
    const userRepo: UserRepo
    const cacher: Store.Cacher<Value>
    const bl: Blacklist.MemoryBlacklist
    const setup: Setup
    ghost var issued: set<Token>
    ghost var drawn: set<string>

    ghost predicate Valid() reads this, userRepo, cacher, bl {
      cacher.Valid() && bl.Valid() && UniqueEmails(userRepo.users)
    }

    /** No store has read a later clock than `now`. */
    ghost predicate Ready(now: int) reads this, cacher, bl {
      cacher.clock <= now && bl.clock <= now
    }

    ghost function Abs(): State reads this, userRepo, cacher, bl {
      State(userRepo.users, cacher.ideal, bl.ideal, issued, drawn)
    }

    constructor (userRepo: UserRepo, cacher: Store.Cacher<Value>, bl: Blacklist.MemoryBlacklist, setup: Setup)
      requires cacher.Valid() && bl.Valid() && UniqueEmails(userRepo.users)
      ensures Valid() && this.userRepo == userRepo && this.cacher == cacher && this.bl == bl && this.setup == setup
      ensures Abs() == State(userRepo.users, cacher.ideal, bl.ideal, {}, {})
      ensures cacher.ideal == map[] && bl.ideal == map[] ==> Initial(Abs())
    {
      this.userRepo, this.cacher, this.bl, this.setup := userRepo, cacher, bl, setup;
      this.issued, this.drawn := {}, {};
    }

    method PasswordVersion(subject: string, now: int) returns (version: int)
      requires Valid() && Ready(now)
      modifies cacher
      ensures Valid() && Ready(now) && cacher.ideal == old(cacher.ideal)
      ensures version == CurrentVersion(cacher.ideal, subject, now)
    {
      var got := cacher.Get(VersionKey(subject), AsVersion, now);
      version := 0;
      if got.Hit? {
        version := got.value.number;
      }
    }

    method IssueTokenPair(subject: string, now: int, accessId: string, refreshId: string) returns (r: Response)
      requires Valid() && Ready(now)
      modifies this, cacher
      ensures Valid() && Ready(now)
      ensures (Abs(), r) == IssuePair(setup, old(Abs()), subject, now, accessId, refreshId)
    {
      var access := Sign(subject, "access", setup.jwt, now, accessId);
      if access.None? {
        return Failed;
      }
      var refresh := Sign(subject, "refresh", setup.RefreshCfg(), now, refreshId);
      if refresh.None? {
        return Failed;
      }
      var pwVersion := PasswordVersion(subject, now);
      var stored := cacher.Set(SessionKey(refreshId), Some(Session(subject, pwVersion)), setup.refreshExpiry, now, now);
      issued := issued + {access.value, refresh.value};
      drawn := drawn + {accessId, refreshId};
      r := Pair(access.value, refresh.value, Seconds(setup.jwt.expiry));
    }

    method Login(email: string, password: string, now: int, accessId: string, refreshId: string) returns (r: Response)
      requires Valid() && Ready(now)
      modifies this, cacher
      ensures Valid() && Ready(now)
      ensures (Abs(), r) == LoginStep(setup, old(Abs()), AuthSpec.Login(email, password, accessId, refreshId), now)
    {
      var id := userRepo.FindByEmail(email);
      if id.None? {
        return InvalidCredentials;
      }
      if userRepo.users[id.value].password != Bcrypt(password) {
        return InvalidCredentials;
      }
      r := IssueTokenPair(id.value, now, accessId, refreshId);
    }

    method Refresh(token: Token, now: int, accessId: string, refreshId: string) returns (r: Response)
      requires Valid() && Ready(now)
      modifies this, cacher
      ensures Valid() && Ready(now)
      ensures (Abs(), r) == RefreshStep(setup, old(Abs()), AuthSpec.Refresh(token, accessId, refreshId), now)
    {
      if !Verifies(token, setup.RefreshCfg(), now) {
        return InvalidToken;
      }
      var claims := token.claims;
      var sessionKey := SessionKey(claims.id);
      var got := cacher.Get(sessionKey, AsSession, now);
      if got.Miss? {
        return InvalidToken;
      }
      if got.Undecodable? {
        return Failed;
      }
      var session := got.value;
      if session.subject != claims.subject {
        return InvalidToken;
      }
      var currentVersion := PasswordVersion(claims.subject, now);
      if session.version < currentVersion {
        Forget(sessionKey);
        return InvalidToken;
      }
      Forget(sessionKey);
      if claims.subject !in userRepo.users {
        return InvalidToken;
      }
      r := IssueTokenPair(claims.subject, now, accessId, refreshId);
    }

    /** cacher.Del of one key. */
    method Forget(key: string)
      requires Valid()
      modifies cacher
      ensures Valid() && cacher.clock == old(cacher.clock) && cacher.ideal == old(cacher.ideal) - {key}
    {
      assert Store.KeySet([key]) == {key};
      cacher.Del([key]);
    }

    /** Reads the clock for what is left of the token's life, then again for the entry. */
    method RevokeClaims(claims: Claims, asked: int, stamped: int)
      requires Valid() && Ready(stamped) && asked <= stamped
      modifies bl
      ensures Valid() && Ready(stamped) && bl.ideal == Revoke(old(bl.ideal), claims, asked, stamped)
    {
      if claims.id != "" {
        var remaining := claims.expiresAt - asked;
        if remaining > 0 {
          var ok := bl.Revoke(claims.id, remaining, stamped);
        }
      }
    }

    method Logout(access: Token, refresh: Option<Token>, now: int, later: Readings) returns (r: Response)
      requires Valid() && Ready(now) && later.Follow(now)
      modifies cacher, bl
      ensures Valid() && Ready(later.stampedAgain)
      ensures (Abs(), r) == LogoutStep(setup, old(Abs()), AuthSpec.Logout(access, refresh, later), now)
    {
      if !Verifies(access, setup.jwt, now) {
        return InvalidToken;
      }
      RevokeClaims(access.claims, later.asked, later.stamped);
      if refresh.Some? {
        if Verifies(refresh.value, setup.RefreshCfg(), later.checked) {
          Forget(SessionKey(refresh.value.claims.id));
          RevokeClaims(refresh.value.claims, later.askedAgain, later.stampedAgain);
        }
      }
      r := Done;
    }

    method ForgotPassword(email: string, ticket: string, now: int) returns (r: Response)
      requires Valid() && Ready(now)
      modifies this, cacher
      ensures Valid() && Ready(now)
      ensures (Abs(), r) == ForgotStep(old(Abs()), AuthSpec.ForgotPassword(email, ticket), now)
    {
      var id := userRepo.FindByEmail(email);
      if id.None? {
        return NoAccount;
      }
      var stored := cacher.Set(ResetKey(ticket), Some(Email(userRepo.users[id.value].email)), RESET_TTL, now, now);
      drawn := drawn + {ticket};
      r := ResetIssued(ticket);
    }

    method ResetPassword(ticket: string, password: string, now: int) returns (r: Response)
      requires Valid() && Ready(now)
      modifies userRepo, cacher
      ensures Valid() && Ready(now)
      ensures (Abs(), r) == ResetStep(old(Abs()), AuthSpec.ResetPassword(ticket, password), now)
    {
      var got := cacher.Get(ResetKey(ticket), AsEmail, now);
      if got.Miss? {
        return InvalidToken;
      }
      if got.Undecodable? {
        return Failed;
      }
      var id := userRepo.FindByEmail(got.value.address);
      if id.None? {
        return Failed;
      }
      if |password| > MAX_PASSWORD {
        return Failed;
      }
      var user := userRepo.users[id.value].(password := Bcrypt(password));
      userRepo.Update(id.value, user);
      Forget(ResetKey(ticket));
      BumpVersion(id.value, now);
      r := Done;
    }

    /** The last step of a reset: no session recorded before is good any more. */
    method BumpVersion(id: string, now: int)
      requires Valid() && Ready(now)
      modifies cacher
      ensures Valid() && Ready(now) && cacher.ideal == Bumped(old(cacher.ideal), id, now)
    {
      ghost var after := Bumped(cacher.ideal, id, now);
      var currentVersion := PasswordVersion(id, now);
      var stored := cacher.Set(VersionKey(id), Some(Version(currentVersion + 1)), VERSION_TTL, now, now);
      assert cacher.ideal == after;
    }

    /** The run `h` has brought the service to where it is. */
    ghost predicate At(h: Run) reads this, userRepo, cacher, bl {
      h.Valid() && h.setup == setup && h.states[|h.events|] == Abs()
    }

    /** Serving one request after another is a run: starting from a new service, for which the
        empty run will do, each request extends it. */
    method Serve(ghost h: Run, q: Request, now: int) returns (a: Response, ghost h': Run)
      requires Valid() && Ready(now) && Timely(q, now) && h.EndsBy(now)
      requires At(h) && Possible(setup, Abs(), q)
      modifies this, userRepo, cacher, bl
      ensures Valid() && Ready(LastReading(q, now)) && h'.EndsBy(LastReading(q, now))
      ensures At(h') && h' == Served(h, q, now) && a == h'.answers[|h.events|]
    {
      ServedIsRun(h, q, now);
      h' := Served(h, q, now);
      match q {
        case Login(email, password, accessId, refreshId) => a := Login(email, password, now, accessId, refreshId);
        case Refresh(token, accessId, refreshId) => a := Refresh(token, now, accessId, refreshId);
        case Logout(access, refresh, later) => a := Logout(access, refresh, now, later);
        case ForgotPassword(email, ticket) => a := ForgotPassword(email, ticket, now);
        case ResetPassword(ticket, password) => a := ResetPassword(ticket, password, now);
        case Authorize(bearer) =>
          var claims := Middleware(bearer, setup.jwt, bl, now);
          a := match claims case Some(c) => Passed(c) case None => Unauthorized;
        case SaveUser(id, user) =>
          userRepo.Update(id, user);
          a := Done;
        case RemoveUser(id) =>
          userRepo.Delete(id);
          a := Done;
      }
    }
  }
}
