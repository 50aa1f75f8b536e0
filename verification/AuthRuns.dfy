/** The session protocol over every serial run: exactly which refreshes succeed, and what a
    logout and a rotation leave behind. */
module AuthRuns {
  import opened Ttl
  import opened Tokens
  import opened AuthSpec
  import opened AuthInvariant

  datatype Event = Event(request: Request, now: int) {
    function Last(): int { LastReading(request, now) }
  }

  /** Requests served one at a time, from an empty cache and blacklist. */
  datatype Run = Run(setup: Setup, events: seq<Event>, states: seq<State>, answers: seq<Response>) {

    /** Event `i` is possible, and is served as the protocol says. */
    ghost predicate Serves(i: nat) {
      && i < |events| == |answers| && |states| == |events| + 1
      && Possible(setup, states[i], events[i].request) && Timely(events[i].request, events[i].now)
      && (states[i + 1], answers[i]) == Step(setup, states[i], events[i].request, events[i].now)
    }

    /** The clock has not passed `now`. */
    ghost predicate EndsBy(now: int) {
      forall i :: 0 <= i < |events| ==> events[i].Last() <= now
    }

    ghost predicate Valid() {
      && |states| == |events| + 1 && |answers| == |events|
      && Initial(states[0])
      && (forall i: nat :: i < |events| ==> Serves(i))
      && (forall i, j :: 0 <= i < j < |events| ==> events[i].now <= events[i].Last() <= events[j].now)
    }
  }

  ghost predicate Initial(s: State) {
    UniqueEmails(s.users) && s.cache == map[] && s.revoked == map[] && s.issued == {} && s.drawn == {}
  }

  lemma {:induction false} InvAt(r: Run, n: nat)
    requires r.Valid() && n <= |r.events|
    ensures Inv(r.setup, r.states[n])
  {
    if n > 0 {
      InvAt(r, n - 1);
      assert r.Serves(n - 1);
      StepKeepsInv(r.setup, r.states[n - 1], r.events[n - 1].request, r.events[n - 1].now);
    }
  }

  lemma {:induction false} IssuedGrows(r: Run, m: nat, n: nat)
    requires r.Valid() && m <= n <= |r.events|
    ensures r.states[m].issued <= r.states[n].issued && r.states[m].drawn <= r.states[n].drawn
  {
    if m < n {
      IssuedGrows(r, m, n - 1);
      assert r.Serves(n - 1);
    }
  }

  // ----- one refresh session -----

  /** Event `j` handed out the refresh token `t`. */
  ghost predicate IssuedAt(r: Run, j: nat, t: Token) {
    j < |r.events| == |r.answers| && r.answers[j].Pair? && r.answers[j].refresh == t
  }

  /** Request `q` presents `t` where its session is given up: to Refresh, or to a Logout that
      is let through as the refresh token. */
  ghost predicate Spends(p: Setup, q: Request, now: int, t: Token) {
    || (q.Refresh? && q.token == t)
    || (q.Logout? && q.refresh == Some(t) && Verifies(q.access, p.jwt, now))
  }

  ghost predicate SpentBetween(r: Run, t: Token, j: nat, n: nat)
    requires n <= |r.events|
  {
    exists i :: j < i < n && Spends(r.setup, r.events[i].request, r.events[i].now, t)
  }

  /** The version recorded when event `j` issued a pair for `subject`: the counter then. */
  ghost function VersionAt(r: Run, j: nat, subject: string): int
    requires j < |r.events| < |r.states|
  {
    CurrentVersion(r.states[j].cache, subject, r.events[j].now)
  }

  ghost predicate RefreshToken(p: Setup, s: State, t: Token) {
    t in s.issued && t.claims.tokenType == "refresh"
  }

  /** The entry a refresh token's session is stored as. */
  ghost predicate SessionEntry(s: State, t: Token, version: int) {
    && SessionKey(t.claims.id) in s.cache
    && s.cache[SessionKey(t.claims.id)].data == Session(t.claims.subject, version)
  }

  lemma IssueStores(p: Setup, s: State, q: Request, now: int)
    requires Inv(p, s) && Possible(p, s, q) && Step(p, s, q, now).1.Pair?
    ensures var (s', a) := Step(p, s, q, now);
            && !WeakSecret(p.jwt) && a.refresh in s'.issued && a.access in s'.issued
            && a.refresh.claims.tokenType == "refresh" && a.access.claims.tokenType == "access"
            && a.refresh.claims.issuer == p.jwt.issuer && a.refresh.claims.audience == p.jwt.audience
            && a.refresh.claims.id !in s.drawn
            && a.refresh.claims.notBefore == a.refresh.claims.issuedAt <= now
            && a.refresh.claims.expiresAt <= now + Lifetime(p.RefreshCfg())
            && SessionEntry(s', a.refresh, CurrentVersion(s.cache, a.refresh.claims.subject, now))
  {
    KeyFacts();
  }

  ghost predicate SameSession(s: State, s': State, t: Token) {
    var key := SessionKey(t.claims.id);
    (key in s'.cache <==> key in s.cache) && (key in s.cache ==> s'.cache[key] == s.cache[key])
  }

  lemma RefreshElsewhere(p: Setup, s: State, q: Request, now: int, t: Token)
    requires Inv(p, s) && Possible(p, s, q) && RefreshToken(p, s, t) && q.Refresh? && q.token != t
    ensures SameSession(s, RefreshStep(p, s, q, now).0, t)
  {
    KeyFacts();
  }

  /** A request that does not spend `t` leaves its session alone. */
  lemma SessionUntouched(p: Setup, s: State, q: Request, now: int, t: Token)
    requires Inv(p, s) && Possible(p, s, q) && RefreshToken(p, s, t)
    requires !Spends(p, q, now, t)
    ensures SameSession(s, Step(p, s, q, now).0, t)
  {
    if q.Refresh? {
      RefreshElsewhere(p, s, q, now, t);
    } else {
      KeyFacts();
    }
  }

  lemma SessionBackedBy(p: Setup, s: State, t: Token)
    requires Inv(p, s) && RefreshToken(p, s, t) && SessionKey(t.claims.id) in s.cache
    ensures Backs(t, s.cache[SessionKey(t.claims.id)])
  {
    var u :| u in s.issued && u.claims.id == t.claims.id && Backs(u, s.cache[SessionKey(t.claims.id)]);
    assert u == t;
  }

  /** A request that spends `t` while it verifies leaves no session. */
  lemma SessionSpent(p: Setup, s: State, q: Request, now: int, t: Token)
    requires Inv(p, s) && Possible(p, s, q) && RefreshToken(p, s, t)
    requires Spends(p, q, now, t) && Timely(q, now)
    requires Verifies(t, p.jwt, now) && Verifies(t, p.jwt, LastReading(q, now))
    ensures SessionKey(t.claims.id) !in Step(p, s, q, now).0.cache
  {
    KeyFacts();
    if SessionKey(t.claims.id) in s.cache {
      SessionBackedBy(p, s, t);
    }
  }

  lemma IssuedFacts(r: Run, j: nat, t: Token, n: nat)
    requires r.Valid() && IssuedAt(r, j, t) && j < n <= |r.events|
    ensures RefreshToken(r.setup, r.states[n], t) && !WeakSecret(r.setup.jwt)
    ensures forall now :: r.events[j].now <= now ==> (Verifies(t, r.setup.jwt, now) <==> now < t.claims.expiresAt)
    ensures t.claims.expiresAt <= r.events[j].now + Lifetime(r.setup.RefreshCfg())
    ensures SessionEntry(r.states[j + 1], t, VersionAt(r, j, t.claims.subject))
  {
    InvAt(r, j);
    assert r.Serves(j);
    IssueStores(r.setup, r.states[j], r.events[j].request, r.events[j].now);
    InvAt(r, j + 1);
    IssuedGrows(r, j + 1, n);
  }

  /** While a refresh token verifies, its session is stored, unchanged, until it is spent. */
  lemma {:induction false} SessionFate(r: Run, j: nat, t: Token, n: nat)
    requires r.Valid() && IssuedAt(r, j, t) && j < n <= |r.events|
    requires r.events[n - 1].Last() < t.claims.expiresAt || n == j + 1
    ensures SessionKey(t.claims.id) in r.states[n].cache <==> !SpentBetween(r, t, j, n)
    ensures !SpentBetween(r, t, j, n) ==> SessionEntry(r.states[n], t, VersionAt(r, j, t.claims.subject))
  {
    IssuedFacts(r, j, t, n);
    if n > j + 1 {
      IssuedFacts(r, j, t, n - 1);
      var s, e := r.states[n - 1], r.events[n - 1];
      InvAt(r, n - 1);
      assert r.Serves(n - 1);
      assert r.events[n - 2].Last() <= e.now <= e.Last() && r.events[j].now <= e.now;
      SessionFate(r, j, t, n - 1);
      if Spends(r.setup, e.request, e.now, t) {
        SessionSpent(r.setup, s, e.request, e.now, t);
      } else {
        SessionUntouched(r.setup, s, e.request, e.now, t);
        assert SpentBetween(r, t, j, n) ==> SpentBetween(r, t, j, n - 1);
      }
    }
  }

  lemma RefreshOutcome(p: Setup, s: State, q: Request, now: int)
    requires Inv(p, s) && Possible(p, s, q) && q.Refresh? && RefreshToken(p, s, q.token)
    ensures var (t, key) := (q.token, SessionKey(q.token.claims.id));
            && (RefreshStep(p, s, q, now).1.Pair? <==>
                  && Verifies(t, p.jwt, now) && t.claims.subject in s.users
                  && key in s.cache && s.cache[key].data.Session?
                  && CurrentVersion(s.cache, t.claims.subject, now) <= s.cache[key].data.version)
            && (!RefreshStep(p, s, q, now).1.Pair? ==> RefreshStep(p, s, q, now).1 == InvalidToken)
  {
    if SessionKey(q.token.claims.id) in s.cache {
      SessionBackedBy(p, s, q.token);
    }
  }

  /** Exactly when Refresh returns a pair: the token was handed out as a refresh token and is
      within its life, neither a Refresh nor a successful Logout had it before, its user is
      there, and the version counter has not passed the one recorded at issue. In particular
      no session ends before its token does. */
  lemma RefreshSucceedsIff(r: Run, j: nat, t: Token, n: nat)
    requires r.Valid() && IssuedAt(r, j, t) && j < n < |r.events|
    requires r.events[n].request.Refresh? && r.events[n].request.token == t
    ensures r.answers[n].Pair? <==>
            && r.events[n].now < t.claims.expiresAt
            && !SpentBetween(r, t, j, n)
            && t.claims.subject in r.states[n].users
            && VersionAt(r, n, t.claims.subject) <= VersionAt(r, j, t.claims.subject)
    ensures !r.answers[n].Pair? ==> r.answers[n] == InvalidToken
  {
    var now := r.events[n].now;
    InvAt(r, n);
    assert r.Serves(n);
    IssuedFacts(r, j, t, n);
    assert r.events[j].now <= now && r.events[n - 1].now <= now;
    RefreshOutcome(r.setup, r.states[n], r.events[n].request, now);
    if now < t.claims.expiresAt {
      SessionFate(r, j, t, n);
    }
  }

  /** A session appears only with the refresh token of a pair. */
  lemma SessionAppears(p: Setup, s: State, q: Request, now: int, jti: string)
    requires SessionKey(jti) in Step(p, s, q, now).0.cache && SessionKey(jti) !in s.cache
    ensures var a := Step(p, s, q, now).1; a.Pair? && a.refresh.claims.id == jti
  {
    KeyFacts();
  }

  /** Every session in the cache belongs to a refresh token some earlier event handed out. */
  lemma {:induction false} SessionOrigin(r: Run, n: nat, jti: string) returns (j: nat, t: Token)
    requires r.Valid() && n <= |r.events| && SessionKey(jti) in r.states[n].cache
    ensures j < n && IssuedAt(r, j, t) && t.claims.id == jti
  {
    assert r.Serves(n - 1);
    if SessionKey(jti) in r.states[n - 1].cache {
      j, t := SessionOrigin(r, n - 1, jti);
    } else {
      SessionAppears(r.setup, r.states[n - 1], r.events[n - 1].request, r.events[n - 1].now, jti);
      j, t := n - 1, r.answers[n - 1].refresh;
    }
  }

  /** Nothing else refreshes: whoever gets a pair from Refresh presented a refresh token handed
      out earlier. So an access token never refreshes, though Refresh looks at no token type,
      and its subject-mismatch and decoding branches are never taken. */
  lemma OnlyRefreshTokensRefresh(r: Run, n: nat) returns (j: nat)
    requires r.Valid() && n < |r.events| && r.events[n].request.Refresh?
    requires r.answers[n].Pair?
    ensures j < n && IssuedAt(r, j, r.events[n].request.token)
    ensures r.events[n].request.token.claims.tokenType == "refresh"
  {
    var t: Token;
    var token := r.events[n].request.token;
    InvAt(r, n);
    assert r.Serves(n);
    j, t := SessionOrigin(r, n, token.claims.id);
    IssuedFacts(r, j, t, n);
    assert t == token;
  }

  /** Every session key in the cache is the id of exactly one token handed out: a refresh token,
      of the same subject, that does not outlive the entry. */
  lemma SessionNamesOneToken(r: Run, n: nat, jti: string) returns (t: Token)
    requires r.Valid() && n <= |r.events| && SessionKey(jti) in r.states[n].cache
    ensures t in r.states[n].issued && t.claims.id == jti && Backs(t, r.states[n].cache[SessionKey(jti)])
    ensures forall u :: u in r.states[n].issued && u.claims.id == jti ==> u == t
  {
    InvAt(r, n);
    t :| t in r.states[n].issued && t.claims.id == jti && Backs(t, r.states[n].cache[SessionKey(jti)]);
  }

  /** The mismatch and decoding branches of Refresh are dead code. */
  lemma RefreshBranchesUnreachable(r: Run, n: nat)
    requires r.Valid() && n < |r.events| && r.events[n].request.Refresh?
    ensures r.answers[n] != Failed
    ensures var t := r.events[n].request.token;
            Verifies(t, r.setup.RefreshCfg(), r.events[n].now) && SessionKey(t.claims.id) in r.states[n].cache ==>
              && r.states[n].cache[SessionKey(t.claims.id)].data.Session?
              && r.states[n].cache[SessionKey(t.claims.id)].data.subject == t.claims.subject
  {
    var s, t := r.states[n], r.events[n].request.token;
    InvAt(r, n);
    assert r.Serves(n);
    if SessionKey(t.claims.id) in s.cache {
      var u :| u in s.issued && u.claims.id == t.claims.id && Backs(u, s.cache[SessionKey(t.claims.id)]);
    }
  }

  // ----- revocation -----

  /** A successful Logout took `t` as its access token, or as a refresh token that verified. */
  ghost predicate LoggedOut(p: Setup, q: Request, now: int, t: Token) {
    && q.Logout? && Verifies(q.access, p.jwt, now)
    && (q.access == t || (q.refresh == Some(t) && Verifies(t, p.jwt, q.later.checked)))
  }

  ghost predicate LoggedOutBefore(r: Run, t: Token, n: nat)
    requires n <= |r.events|
  {
    exists i :: 0 <= i < n && LoggedOut(r.setup, r.events[i].request, r.events[i].now, t)
  }

  lemma OnlyLogoutRevokes(p: Setup, s: State, q: Request, now: int)
    requires !q.Logout?
    ensures Step(p, s, q, now).0.revoked == s.revoked
  {
  }

  lemma LogoutRevokes(p: Setup, s: State, q: Request, now: int, t: Token)
    requires Inv(p, s) && Possible(p, s, q) && q.Logout? && q.later.Follow(now) && t in s.issued
    ensures var revoked := LogoutStep(p, s, q, now).0.revoked;
            && (t.claims.id in s.revoked ==> t.claims.id in revoked)
            && (t.claims.id in revoked ==> t.claims.id in s.revoked || LoggedOut(p, q, now, t))
            && (LoggedOut(p, q, now, t) ==> t.claims.id in revoked || t.claims.expiresAt <= q.later.stampedAgain)
  {
  }

  /** A token is on the blacklist only if a Logout took it, and then it is, unless it died while
      the Logout ran. */
  lemma {:induction false} RevokedIffLoggedOut(r: Run, t: Token, n: nat)
    requires r.Valid() && n <= |r.events| && t in r.states[n].issued
    ensures t.claims.id in r.states[n].revoked ==> LoggedOutBefore(r, t, n)
    ensures LoggedOutBefore(r, t, n) ==>
              t.claims.id in r.states[n].revoked || (n > 0 && t.claims.expiresAt <= r.events[n - 1].Last())
  {
    if n > 0 {
      var s, e := r.states[n - 1], r.events[n - 1];
      InvAt(r, n - 1);
      assert r.Serves(n - 1);
      if e.request.Logout? {
        LogoutRevokes(r.setup, s, e.request, e.now, t);
      } else {
        OnlyLogoutRevokes(r.setup, s, e.request, e.now);
      }
      if t in s.issued {
        RevokedIffLoggedOut(r, t, n - 1);
      } else {
        NotYetIssued(r, t, n - 1);
      }
    }
  }

  /** Nobody logs out with a token before it is handed out. */
  lemma {:induction false} NotYetIssued(r: Run, t: Token, n: nat)
    requires r.Valid() && n < |r.events| && t in r.states[n + 1].issued && t !in r.states[n].issued
    ensures !LoggedOutBefore(r, t, n) && t.claims.id !in r.states[n].revoked
  {
    InvAt(r, n);
    InvAt(r, n + 1);
    assert r.Serves(n);
    forall i | 0 <= i < n ensures !LoggedOut(r.setup, r.events[i].request, r.events[i].now, t) {
      IssuedGrows(r, i, n);
      assert r.Serves(i);
    }
    IssuedGrows(r, n, n + 1);
  }

  /** Exactly when the middleware lets an issued token through: it is an access token within its
      life that no successful Logout took. So revocation is permanent. */
  lemma IssuedAdmittedIff(r: Run, t: Token, n: nat)
    requires r.Valid() && n < |r.events| && t in r.states[n].issued
    requires r.events[n].request == Authorize(Some(t))
    ensures r.answers[n] == Passed(t.claims) <==>
            && t.claims.tokenType == "access"
            && Verifies(t, r.setup.jwt, r.events[n].now)
            && !LoggedOutBefore(r, t, n)
    ensures r.answers[n] != Passed(t.claims) ==> r.answers[n] == Unauthorized
  {
    InvAt(r, n);
    assert r.Serves(n);
    RevokedIffLoggedOut(r, t, n);
    TypesOfIssued(r, t, n);
  }

  lemma {:induction false} TypesOfIssued(r: Run, t: Token, n: nat)
    requires r.Valid() && n <= |r.events| && t in r.states[n].issued
    ensures t.claims.tokenType == "access" || t.claims.tokenType == "refresh"
  {
    assert r.Serves(n - 1);
    if t in r.states[n - 1].issued {
      TypesOfIssued(r, t, n - 1);
    }
  }

  /** After a successful Logout the access token is refused for good. */
  lemma RevocationIsPermanent(r: Run, t: Token, i: nat, n: nat)
    requires r.Valid() && i < n < |r.events|
    requires r.events[i].request.Logout? && r.events[i].request.access == t && r.answers[i] == Done
    requires r.events[n].request == Authorize(Some(t))
    ensures r.answers[n] == Unauthorized
  {
    assert r.Serves(i);
    IssuedGrows(r, i, n);
    assert LoggedOutBefore(r, t, n);
    IssuedAdmittedIff(r, t, n);
  }

  /** `more` is the run `r` with further events. */
  ghost predicate Continues(r: Run, more: Run) {
    && more.Valid() && more.setup == r.setup
    && r.events <= more.events && r.states <= more.states && r.answers <= more.answers
  }

  /** Serving one more request. */
  ghost function Served(r: Run, q: Request, now: int): Run
    requires |r.states| == |r.events| + 1
  {
    var (s, a) := Step(r.setup, r.states[|r.events|], q, now);
    Run(r.setup, r.events + [Event(q, now)], r.states + [s], r.answers + [a])
  }

  lemma ServedIsRun(r: Run, q: Request, now: int)
    requires r.Valid() && Possible(r.setup, r.states[|r.events|], q)
    requires r.EndsBy(now) && Timely(q, now)
    ensures Continues(r, Served(r, q, now)) && Served(r, q, now).EndsBy(LastReading(q, now))
  {
    var more := Served(r, q, now);
    forall i: nat | i < |more.events| ensures more.Serves(i) && more.events[i].now <= more.events[i].Last() {
      if i < |r.events| {
        assert r.Serves(i);
      }
    }
  }
}
