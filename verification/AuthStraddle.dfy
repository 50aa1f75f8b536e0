/** Two ways in which, for any user and configuration, a session gets past a password reset: a
    login that has checked the old password and not yet signed, and a stale read that deletes the
    reset's counter. */
module AuthStraddle {
  import opened Ttl
  import opened Tokens
  import opened AuthSpec
  import opened AuthInvariant
  import opened AuthDrive
  import opened AuthExamples
  import opened AuthConcurrent
  import I = AuthInterleaved

  /** `u` alone has this address. */
  ghost predicate Holds(users: map<string, User>, u: string, email: string) {
    u in users && users[u].email == email && forall id :: id in users && users[id].email == email ==> id == u
  }

  lemma HolderIsFound(users: map<string, User>, u: string, email: string)
    requires Holds(users, u, email)
    ensures FindByEmail(users, email) == Some(u)
  {
  }

  function WithPassword(users: map<string, User>, u: string, password: string): map<string, User>
    requires u in users
  {
    users[u := users[u].(password := Bcrypt(password))]
  }

  ghost predicate NewNames(s: World, names: (string, string)) {
    names.0 != names.1 && names.0 !in s.drawn && names.1 !in s.drawn
  }

  /** In a small cache: a user asks for a ticket and resets the password with it, without a break. */
  lemma ResetRuns(r: I.Run, ask: nat, reset: nat, u: string, email: string, password: string, v: int,
                  names: (string, string))
    returns (more: I.Run)
    requires r.Valid() && ask !in Last(r).jobs && reset !in Last(r).jobs && ask != reset
    requires Holds(Last(r).users, u, email) && |password| <= MAX_PASSWORD && CounterIs(Last(r), u, v)
    requires NewNames(Last(r), names) && |Last(r).m| < 1000 && ResetKey(names.0) !in Last(r).m
    ensures Continues(r, more)
    ensures var s, s' := Last(r), Last(more);
            && s'.users == WithPassword(s.users, u, password) && Holds(s'.users, u, email) && s'.clock == s.clock
            && s'.m == s.m[VersionKey(u) := Stamp(Version(v + 1), VERSION_TTL, s.clock)]
            && s'.jobs == s.jobs[ask := I.Ended(ResetIssued(names.0))][reset := I.Ended(Done)]
            && s'.requests == s.requests[ask := ForgotPassword(email, "")][reset := ResetPassword(names.0, password)]
            && s'.drawn == s.drawn + {names.0, names.1} && s'.released == s.released
  {
    KeyFacts();
    HolderIsFound(Last(r).users, u, email);
    var key := ResetKey(names.0);
    more := ForgotRuns(r, ask, email, u, names);
    assert Last(more).m == Last(r).m[key := Stamp(Email(email), RESET_TTL, Last(r).clock)];
    more := ResetUpToSaving(more, reset, names.0, email, u, password);
    more := SaveRuns(more, reset, names.0, u, Last(r).users[u].(password := Bcrypt(password)));
    assert Last(more).m == Last(r).m;
    more := BumpRuns(more, reset, u, v);
  }

  /** Nothing has happened yet, and `u` has an address. */
  ghost predicate Start(r: I.Run, u: string, email: string) {
    && r.Valid() && I.Initial(Last(r)) && Holds(Last(r).users, u, email)
    && !WeakSecret(r.setup.jwt) && r.setup.refreshExpiry >= SECOND
  }

  /** Such a start there is. */
  lemma AliceStarts() returns (r: I.Run)
    ensures Start(r, "u", "e") && Last(r).users["u"].password == Bcrypt("p")
  {
    r := I.Run(SETUP, [I.World(ALICE, map[], 0, map[], map[], {}, {}, {})], []);
  }

  /** A new session, recorded with the counter as it stands, refreshes. */
  lemma NewSessionRefreshes(r: I.Run, id: nat, t: Token, v: int) returns (more: I.Run)
    requires r.Valid() && id !in Last(r).jobs && Refreshable(r.setup, Last(r), t, v)
    ensures Continues(r, more) && GotPair(Last(more), id, t)
    ensures forall other :: other in Last(r).jobs ==>
              other in Last(more).jobs && Last(more).jobs[other] == Last(r).jobs[other]
  {
    more := RefreshUpToDel(r, id, t, v);
    more := RefreshFromDel(more, id, t.claims.id, t.claims.subject);
  }

  lemma NewTokenVerifies(p: Setup, subject: string, now: int, name: string)
    requires !WeakSecret(p.jwt) && p.refreshExpiry >= SECOND
    ensures Verifies(RefreshOf(p, subject, now, name), p.RefreshCfg(), now)
  {
  }

  const TICKET := ("k1", "k2")
  const TICKET2 := ("k3", "k4")
  const PAIR := ("a1", "r1")
  const PAIR2 := ("a2", "r2")

  // ----- a login that straddles the reset -----

  /** While a login waits at its signing, its user resets the password. */
  lemma ResetWhileLoginWaits(r: I.Run, u: string, email: string, old': string, new': string) returns (more: I.Run)
    requires Start(r, u, email) && Last(r).users[u].password == Bcrypt(old') && |new'| <= MAX_PASSWORD
    ensures Continues(r, more)
    ensures var s := Last(more);
            && s.jobs == map[0 := I.Signing(u), 1 := I.Ended(ResetIssued("k1")), 2 := I.Ended(Done)]
            && s.requests == map[0 := Login(email, old', "", ""), 1 := ForgotPassword(email, ""),
                                 2 := ResetPassword("k1", new')]
            && s.users == WithPassword(Last(r).users, u, new') && s.drawn == {"k1", "k2"}
            && s.m == map[VersionKey(u) := Stamp(Version(1), VERSION_TTL, s.clock)]
  {
    HolderIsFound(Last(r).users, u, email);
    more := LoginUpToSigning(r, 0, email, old', u);
    more := ResetRuns(more, 1, 2, u, email, new', 0, TICKET);
  }

  lemma WaitingLoginIssues(r: I.Run, u: string, names: (string, string)) returns (more: I.Run, t: Token)
    requires r.Valid() && 0 in Last(r).jobs && Last(r).jobs[0] == I.Signing(u) && NewNames(Last(r), names)
    requires !WeakSecret(r.setup.jwt) && r.setup.refreshExpiry >= SECOND && u in Last(r).users
    requires Last(r).m == map[VersionKey(u) := Stamp(Version(1), VERSION_TTL, Last(r).clock)]
    ensures Continues(r, more) && Refreshable(r.setup, Last(more), t, 1) && t.claims.subject == u
    ensures Last(more).jobs.Keys == Last(r).jobs.Keys
    ensures var job := Last(more).jobs[0]; job.Ended? && job.answer.Pair? && job.answer.refresh == t
  {
    KeyFacts();
    var s := Last(r);
    more := IssueRuns(r, 0, u, 1, names);
    t := RefreshOf(r.setup, u, s.clock, names.1);
    NewTokenVerifies(r.setup, u, s.clock, names.1);
    StoringKeepsCounter(s, Last(more), u, 1, names.1, Stamp(Session(u, 1), r.setup.refreshExpiry, s.clock));
  }

  /** When the reset has ended, the login has got no further than the check of the old password,
      and that password no longer matches. Yet it gets a pair, and a Refresh that arrives after
      all this is served. */
  lemma LoginStraddlesReset(start: I.Run, u: string, email: string, old': string, new': string)
    returns (before: I.Run, r: I.Run, t: Token)
    requires Start(start, u, email) && Last(start).users[u].password == Bcrypt(old')
    requires old' != new' && |new'| <= MAX_PASSWORD
    ensures Continues(start, before) && Continues(before, r) && t.claims.subject == u
    ensures var s := Last(before);
            && s.jobs == map[0 := I.Signing(u), 1 := I.Ended(ResetIssued("k1")), 2 := I.Ended(Done)]
            && s.requests == map[0 := Login(email, old', "", ""), 1 := ForgotPassword(email, ""),
                                 2 := ResetPassword("k1", new')]
            && u in s.users && s.users[u].password != Bcrypt(old')
    ensures var s := Last(r);
            && 0 in s.jobs && s.jobs[0].Ended? && s.jobs[0].answer.Pair? && s.jobs[0].answer.refresh == t
            && GotPair(s, 3, t)
  {
    before := ResetWhileLoginWaits(start, u, email, old', new');
    r, t := WaitingLoginIssues(before, u, PAIR);
    r := NewSessionRefreshes(r, 3, t, 1);
  }

  // ----- a stale read of the counter -----

  /** With the counter at 1, a login reads it and waits. */
  lemma LoginReadsCounter(r: I.Run, id: nat, u: string, email: string, password: string, names: (string, string))
    returns (more: I.Run)
    requires r.Valid() && id !in Last(r).jobs && Holds(Last(r).users, u, email) && !WeakSecret(r.setup.jwt)
    requires Last(r).users[u].password == Bcrypt(password) && NewNames(Last(r), names)
    requires VersionKey(u) in Last(r).m
    ensures Continues(r, more)
    ensures var s, s' := Last(r), Last(more);
            && id in s'.jobs && s'.jobs == s.jobs[id := s'.jobs[id]]
            && s'.jobs[id].Holding? && s'.jobs[id].key == VersionKey(u) && s'.jobs[id].e == s.m[VersionKey(u)]
            && s'.users == s.users && s'.clock == s.clock && s'.drawn == s.drawn + {names.0, names.1} && s'.m == s.m
  {
    HolderIsFound(Last(r).users, u, email);
    more := LoginUpToSigning(r, id, email, password, u);
    more := SignRuns(more, id, u, names);
    more := Think(more, id);
  }

  lemma FirstReset(r: I.Run, u: string, email: string, password: string, ticket: (string, string)) returns (more: I.Run)
    requires Start(r, u, email) && |password| <= MAX_PASSWORD && ticket.0 != ticket.1
    ensures Continues(r, more)
    ensures var s := Last(more);
            && s.jobs.Keys == {1, 2} && s.drawn == {ticket.0, ticket.1} && s.clock == Last(r).clock
            && Holds(s.users, u, email) && s.users[u].password == Bcrypt(password)
            && s.m == map[VersionKey(u) := Stamp(Version(1), VERSION_TTL, s.clock)]
  {
    more := ResetRuns(r, 1, 2, u, email, password, 0, ticket);
  }

  /** The user has reset her password once. A login copies the counter, and finds it dead 90 days
      later; there it stops. */
  lemma StaleReader(r: I.Run, u: string, email: string, password: string,
                    ticket: (string, string), pair: (string, string))
    returns (more: I.Run)
    requires Start(r, u, email) && |password| <= MAX_PASSWORD
    requires ticket.0 != ticket.1 && pair.0 != pair.1 && {ticket.0, ticket.1} !! {pair.0, pair.1}
    ensures Continues(r, more)
    ensures var s := Last(more);
            && s.jobs.Keys == {1, 2, 3} && s.jobs[3].Evicting? && s.jobs[3].key == VersionKey(u)
            && Holds(s.users, u, email) && s.users[u].password == Bcrypt(password)
            && s.drawn == {ticket.0, ticket.1, pair.0, pair.1}
            && s.m.Keys == {VersionKey(u)} && !s.m[VersionKey(u)].Live(s.clock)
  {
    more := FirstReset(r, u, email, password, ticket);
    more := LoginReadsCounter(more, 3, u, email, password, pair);
    more := HeldUntilDead(more, 3);
  }

  /** A login that finds the counter dead deletes it, and records version 0. */
  lemma LoginAfterExpiry(r: I.Run, id: nat, u: string, email: string, password: string, names: (string, string))
    returns (more: I.Run, t: Token)
    requires r.Valid() && id !in Last(r).jobs && Holds(Last(r).users, u, email) && !WeakSecret(r.setup.jwt)
    requires Last(r).users[u].password == Bcrypt(password) && NewNames(Last(r), names)
    requires Last(r).m.Keys == {VersionKey(u)} && !Last(r).m[VersionKey(u)].Live(Last(r).clock)
    ensures Continues(r, more) && t == RefreshOf(r.setup, u, Last(r).clock, names.1)
    ensures var s, s' := Last(r), Last(more);
            && id in s'.jobs && s'.jobs == s.jobs[id := s'.jobs[id]]
            && s'.jobs[id].Ended? && s'.jobs[id].answer.Pair? && s'.jobs[id].answer.refresh == t && t in s'.released
            && s'.users == s.users && s'.clock == s.clock && s'.drawn == s.drawn + {names.0, names.1}
            && s'.m == map[SessionKey(names.1) := Stamp(Session(u, 0), r.setup.refreshExpiry, s.clock)]
  {
    HolderIsFound(Last(r).users, u, email);
    more := LoginUpToSigning(r, id, email, password, u);
    more := SignRuns(more, id, u, names);
    more := DeadRead(more, id, VersionKey(u), Issuing(r.setup, u, Last(r).clock, names));
    assert Last(more).m == map[];
    t := RefreshOf(r.setup, u, Last(r).clock, names.1);
    more := PairStored(more, id, Issuing(r.setup, u, Last(r).clock, names), None);
  }

  lemma EvictedIsRefreshable(r: I.Run, u: string, name: string, o: nat) returns (more: I.Run)
    requires r.Valid() && o in Last(r).jobs && Last(r).jobs[o].Evicting? && Last(r).jobs[o].key == VersionKey(u)
    requires !WeakSecret(r.setup.jwt) && r.setup.refreshExpiry >= SECOND && u in Last(r).users
    requires RefreshOf(r.setup, u, Last(r).clock, name) in Last(r).released
    requires SessionKey(name) in Last(r).m
    requires Last(r).m[SessionKey(name)] == Stamp(Session(u, 0), r.setup.refreshExpiry, Last(r).clock)
    ensures Continues(r, more) && Refreshable(r.setup, Last(more), RefreshOf(r.setup, u, Last(r).clock, name), 0)
    ensures Last(more).jobs.Keys == Last(r).jobs.Keys
  {
    KeyFacts();
    NewTokenVerifies(r.setup, u, Last(r).clock, name);
    more := Act(r, o);
  }

  /** A stale reader, and a login that has come and gone since. */
  ghost predicate StaleAndLoggedIn(r: I.Run, u: string, email: string, t: Token) {
    && r.Valid() && !WeakSecret(r.setup.jwt) && r.setup.refreshExpiry >= SECOND
    && Last(r).jobs.Keys == {1, 2, 3, 4} && Holds(Last(r).users, u, email)
    && Last(r).jobs[3].Evicting? && Last(r).jobs[3].key == VersionKey(u)
    && Last(r).jobs[4].Ended? && Last(r).jobs[4].answer.Pair? && Last(r).jobs[4].answer.refresh == t
    && t in Last(r).released && t == RefreshOf(r.setup, u, Last(r).clock, t.claims.id)
    && Last(r).m == map[SessionKey(t.claims.id) := Stamp(Session(u, 0), r.setup.refreshExpiry, Last(r).clock)]
  }

  lemma StaleThenLogin(start: I.Run, u: string, email: string, password: string) returns (r: I.Run, t: Token)
    requires Start(start, u, email) && |password| <= MAX_PASSWORD
    ensures Continues(start, r) && StaleAndLoggedIn(r, u, email, t)
    ensures Last(r).drawn == {TICKET.0, TICKET.1, PAIR.0, PAIR.1, PAIR2.0, PAIR2.1}
  {
    r := StaleReader(start, u, email, password, TICKET, PAIR2);
    r, t := LoginAfterExpiry(r, 4, u, email, password, PAIR);
  }

  /** The user resets her password again, from start to end: the counter is at 1. */
  lemma ResetAgain(login: I.Run, u: string, email: string, t: Token, password: string) returns (reset: I.Run)
    requires StaleAndLoggedIn(login, u, email, t) && |password| <= MAX_PASSWORD && NewNames(Last(login), TICKET2)
    ensures Continues(login, reset)
    ensures var s := Last(reset);
            && s.jobs.Keys == {1, 2, 3, 4, 5, 6} && s.jobs[3] == Last(login).jobs[3] && s.jobs[6] == I.Ended(Done)
            && 6 in s.requests && s.requests[6] == ResetPassword(TICKET2.0, password)
            && CounterIs(s, u, 1) && u in s.users && s.clock == Last(login).clock && s.released == Last(login).released
            && SessionKey(t.claims.id) in s.m && s.m[SessionKey(t.claims.id)] == Last(login).m[SessionKey(t.claims.id)]
  {
    KeyFacts();
    reset := ResetRuns(login, 5, 6, u, email, password, 0, TICKET2);
  }

  /** The stale read goes on to delete it, and the token of the login that had ended before the
      reset began refreshes. */
  lemma StaleReadUndoesReset(start: I.Run, u: string, email: string, password: string)
    returns (login: I.Run, reset: I.Run, r: I.Run, t: Token)
    requires Start(start, u, email) && |password| <= MAX_PASSWORD
    ensures Continues(start, login) && Continues(login, reset) && Continues(reset, r)
    ensures StaleAndLoggedIn(login, u, email, t)
    ensures var s := Last(reset);
            && s.jobs.Keys == {1, 2, 3, 4, 5, 6} && s.jobs[6] == I.Ended(Done) && CounterIs(s, u, 1)
            && 6 in s.requests && s.requests[6] == ResetPassword(TICKET2.0, password)
    ensures GotPair(Last(r), 7, t)
  {
    login, t := StaleThenLogin(start, u, email, password);
    reset := ResetAgain(login, u, email, t, password);
    r := EvictedIsRefreshable(reset, u, t.claims.id, 3);
    r := NewSessionRefreshes(r, 7, t, 0);
  }
}
