/** What each request of a serial run answers, and what a pair is, told from the users, the
    tokens handed out and the configuration. */
module AuthAnswers {
  import opened Ttl
  import opened Tokens
  import opened AuthSpec
  import opened AuthInvariant
  import opened AuthRuns
  import opened AuthReset

  // ----- what a pair is -----

  /** `t` is of this service, of this kind, and lives from `now` for `expiry`, or 24 hours if that is
      0, to the second. */
  ghost predicate IsToken(t: Token, p: Setup, kind: string, expiry: int, now: int) {
    && t.alg == HS256 && t.key == p.jwt.secret
    && t.claims.issuer == p.jwt.issuer && t.claims.audience == p.jwt.audience && t.claims.tokenType == kind
    && IsDate(t.claims.issuedAt, now) && IsDate(t.claims.notBefore, now)
    && IsDate(t.claims.expiresAt, now + if expiry == 0 then 24 * HOUR else expiry)
    && (forall later :: Verifies(t, p.jwt, later) <==> t.claims.notBefore <= later < t.claims.expiresAt)
  }

  /** `s` whole seconds are in `d`, towards zero. */
  ghost predicate WholeSeconds(s: int, d: int) {
    if d >= 0 then s * SECOND <= d < (s + 1) * SECOND else (s - 1) * SECOND < d <= s * SECOND
  }

  /** A pair: an access and a refresh token of one subject, each with its own lifetime and name; the
      access token's lifetime as reported; and the session stored for as long as configured. */
  ghost predicate IsPair(p: Setup, s: State, s': State, a: Response, now: int, accessId: string, refreshId: string)
    requires a.Pair?
  {
    var (subject, key) := (a.refresh.claims.subject, SessionKey(refreshId));
    && IsToken(a.access, p, "access", p.jwt.expiry, now) && IsToken(a.refresh, p, "refresh", p.refreshExpiry, now)
    && a.access.claims.subject == subject
    && a.access.claims.id == accessId && a.refresh.claims.id == refreshId
    && WholeSeconds(a.expiresIn, p.jwt.expiry)
    && (p.jwt.expiry != 0 && p.jwt.expiry % SECOND == 0 ==>
          a.expiresIn * SECOND == a.access.claims.expiresAt - a.access.claims.issuedAt)
    && s'.issued == s.issued + {a.access, a.refresh}
    && key in s'.cache
    && s'.cache[key].data == Session(subject, CurrentVersion(s.cache, subject, now))
    && s'.cache[key].expiresAt == if p.refreshExpiry > 0 then Some(now + p.refreshExpiry) else None
  }

  lemma IssueIsPair(p: Setup, s: State, subject: string, now: int, accessId: string, refreshId: string)
    requires !WeakSecret(p.jwt)
    ensures var (s', a) := IssuePair(p, s, subject, now, accessId, refreshId);
            && a.Pair? && a.refresh.claims.subject == subject && s'.users == s.users
            && IsPair(p, s, s', a, now, accessId, refreshId)
  {
  }

  /** In every run, whoever gets a pair gets this. After a Refresh its subject is the old token's. */
  lemma PairIs(r: Run, n: nat)
    requires r.Valid() && n < |r.events| && r.answers[n].Pair?
    ensures var q, a := r.events[n].request, r.answers[n];
            && (q.Login? || q.Refresh?)
            && IsPair(r.setup, r.states[n], r.states[n + 1], a, r.events[n].now, q.accessId, q.refreshId)
            && (q.Refresh? ==> a.access.claims.subject == q.token.claims.subject)
  {
    assert r.Serves(n);
    KeyFacts();
    var s, q, now := r.states[n], r.events[n].request, r.events[n].now;
    if q.Login? {
      IssueIsPair(r.setup, s, FindByEmail(s.users, q.email).value, now, q.accessId, q.refreshId);
    } else {
      var spent := s.(cache := s.cache - {SessionKey(q.token.claims.id)});
      IssueIsPair(r.setup, spent, q.token.claims.subject, now, q.accessId, q.refreshId);
    }
  }

  // ----- Login -----

  /** `id` has this address and this password. */
  ghost predicate HasAccount(users: map<string, User>, id: string, email: string, password: string) {
    id in users && users[id].email == email && users[id].password == Bcrypt(password)
  }

  /** Exactly when a Login returns a pair: somebody has this address and this password, and then the
      pair is for that user. Any other Login is refused and changes nothing. */
  lemma LoginSucceedsIff(r: Run, n: nat)
    requires r.Valid() && n < |r.events| && r.events[n].request.Login? && |r.setup.jwt.secret| >= 32
    ensures var users, q, a := r.states[n].users, r.events[n].request, r.answers[n];
            && (a.Pair? <==> exists id :: HasAccount(users, id, q.email, q.password))
            && (a.Pair? ==> HasAccount(users, a.refresh.claims.subject, q.email, q.password))
            && (!a.Pair? ==> a == InvalidCredentials && r.states[n + 1] == r.states[n])
  {
    assert r.Serves(n);
    InvAt(r, n);
    var s, q := r.states[n], r.events[n].request;
    var id := FindByEmail(s.users, q.email);
    if id.Some? {
      IssueIsPair(r.setup, s, id.value, r.events[n].now, q.accessId, q.refreshId);
      assert HasAccount(s.users, id.value, q.email, q.password) <==> s.users[id.value].password == Bcrypt(q.password);
    }
  }

  /** With a weak secret nobody gets in: no token is ever handed out. */
  lemma WeakSecretIssuesNothing(r: Run, n: nat)
    requires r.Valid() && n < |r.events| && |r.setup.jwt.secret| < 32
    ensures !r.answers[n].Pair? && !r.answers[n].Passed?
  {
    assert r.Serves(n);
  }

  // ----- the bearer check -----

  /** Every token handed out is one of a pair. */
  lemma {:induction false} IssuedInPair(r: Run, n: nat, t: Token) returns (j: nat)
    requires r.Valid() && n <= |r.events| && t in r.states[n].issued
    ensures j < n && r.answers[j].Pair? && (t == r.answers[j].access || t == r.answers[j].refresh)
  {
    assert r.Serves(n - 1);
    if t in r.states[n - 1].issued {
      j := IssuedInPair(r, n - 1, t);
    } else {
      j := n - 1;
    }
  }

  lemma IssuedVerifiesIff(r: Run, n: nat, t: Token)
    requires r.Valid() && n < |r.events| && t in r.states[n].issued
    ensures forall now :: r.events[n].now <= now ==> (Verifies(t, r.setup.jwt, now) <==> now < t.claims.expiresAt)
  {
    var j := IssuedInPair(r, n, t);
    PairIs(r, j);
    assert r.events[j].now <= r.events[n].now;
  }

  /** A good bearer token: the service handed it out, as an access token, it is within its life, and no
      successful Logout took it. */
  ghost predicate GoodBearer(r: Run, n: nat, t: Token)
    requires n < |r.events| == |r.states| - 1
  {
    && t in r.states[n].issued && t.claims.tokenType == "access"
    && r.events[n].now < t.claims.expiresAt && !LoggedOutBefore(r, t, n)
  }

  /** Exactly what the middleware lets through, of all bearers there are: good tokens, with their own
      claims. Everything else, no token included, is unauthorized. */
  lemma AdmittedIff(r: Run, n: nat)
    requires r.Valid() && n < |r.events| && r.events[n].request.Authorize?
    ensures var bearer := r.events[n].request.bearer;
            r.answers[n] == if bearer.Some? && GoodBearer(r, n, bearer.value) then Passed(bearer.value.claims)
                            else Unauthorized
    ensures r.states[n + 1] == r.states[n]
  {
    assert r.Serves(n);
    var bearer := r.events[n].request.bearer;
    if bearer.Some? && bearer.value in r.states[n].issued {
      IssuedVerifiesIff(r, n, bearer.value);
      IssuedAdmittedIff(r, bearer.value, n);
    }
  }

  /** A token without a type, from before there were any, passes as an access token; any type but
      "access" is refused. */
  lemma TypeDecides(t: Token, cfg: Config, revoked: map<string, int>, now: int)
    ensures var typed := t.(claims := t.claims.(tokenType := "access"));
            Admitted(Some(t), cfg, revoked, now).Some? <==>
              && (t.claims.tokenType == "" || t.claims.tokenType == "access")
              && Admitted(Some(typed), cfg, revoked, now).Some?
  {
  }

  // ----- the refusals of Logout, ForgotPassword and ResetPassword -----

  /** A Logout succeeds exactly with an access argument the service handed out, within its life; any
      other changes nothing. */
  lemma LogoutAnswers(r: Run, n: nat)
    requires r.Valid() && n < |r.events| && r.events[n].request.Logout?
    ensures var t := r.events[n].request.access;
            r.answers[n] == if t in r.states[n].issued && r.events[n].now < t.claims.expiresAt then Done
                            else InvalidToken
    ensures r.answers[n] != Done ==> r.states[n + 1] == r.states[n]
  {
    assert r.Serves(n);
    var t := r.events[n].request.access;
    if t in r.states[n].issued {
      IssuedVerifiesIff(r, n, t);
    }
  }

  /** A ticket is issued exactly when somebody has the address; otherwise nothing changes. */
  lemma ForgotAnswers(r: Run, n: nat)
    requires r.Valid() && n < |r.events| && r.events[n].request.ForgotPassword?
    ensures var users, q := r.states[n].users, r.events[n].request;
            r.answers[n] == if exists id :: id in users && users[id].email == q.email then ResetIssued(q.ticket)
                            else NoAccount
    ensures r.answers[n] == NoAccount ==> r.states[n + 1] == r.states[n]
  {
    assert r.Serves(n);
  }

  /** The ticket was issued, less than 15 minutes ago, and no reset has used it. */
  ghost predicate GoodTicket(r: Run, n: nat, j: nat, x: string, address: string)
    requires n < |r.events| == |r.answers|
  {
    TicketAt(r, j, x, address) && j < n && r.events[n].now < r.events[j].now + RESET_TTL && !UsedBetween(r, x, j, n)
  }

  /** A reset is refused as invalid exactly without a good ticket. With one it succeeds, or fails for
      want of a user or for too long a password. */
  lemma ResetAnswers(r: Run, n: nat)
    requires r.Valid() && n < |r.events| && r.events[n].request.ResetPassword?
    ensures var users, q := r.states[n].users, r.events[n].request;
            && (r.answers[n] == InvalidToken <==> !exists j, address :: GoodTicket(r, n, j, q.ticket, address))
            && (forall j, address :: GoodTicket(r, n, j, q.ticket, address) ==>
                  r.answers[n] == if FindByEmail(users, address).Some? && |q.password| <= MAX_PASSWORD then Done
                                  else Failed)
  {
    assert r.Serves(n);
    InvAt(r, n);
    var q, now := r.events[n].request, r.events[n].now;
    forall j, address | GoodTicket(r, n, j, q.ticket, address)
      ensures r.answers[n] == if FindByEmail(r.states[n].users, address).Some? && |q.password| <= MAX_PASSWORD then Done
                              else Failed
    {
      TicketFate(r, j, q.ticket, address, n);
    }
    if r.answers[n] != InvalidToken {
      var j, address := TicketOrigin(r, n, q.ticket);
      TicketFate(r, j, q.ticket, address, n);
      assert GoodTicket(r, n, j, q.ticket, address);
    }
  }
}
