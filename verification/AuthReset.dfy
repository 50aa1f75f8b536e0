/** Password resets over every serial run: which reset tickets work, and which refresh
    sessions a reset invalidates. */
module AuthReset {
  import opened Ttl
  import opened Tokens
  import opened AuthSpec
  import opened AuthInvariant
  import opened AuthRuns
  import opened AuthExamples

  // ----- reset tickets -----

  /** Event `j` handed out the reset ticket `x`, for a user who then had this address. */
  ghost predicate TicketAt(r: Run, j: nat, x: string, address: string) {
    && j < |r.events| == |r.answers| && r.answers[j] == ResetIssued(x)
    && r.events[j].request.ForgotPassword? && r.events[j].request.email == address
  }

  ghost predicate UsedBetween(r: Run, x: string, j: nat, n: nat)
    requires n <= |r.events| == |r.answers|
  {
    exists i :: j < i < n && r.events[i].request.ResetPassword? && r.events[i].request.ticket == x
                && r.answers[i] == Done
  }

  /** Only a successful reset with the ticket touches it. */
  lemma TicketStep(p: Setup, s: State, q: Request, now: int, x: string)
    requires Inv(p, s) && Possible(p, s, q) && x in s.drawn
    ensures var (s', a) := Step(p, s, q, now);
            if q.ResetPassword? && q.ticket == x && a == Done then ResetKey(x) !in s'.cache
            else (ResetKey(x) in s'.cache <==> ResetKey(x) in s.cache)
                 && (ResetKey(x) in s.cache ==> s'.cache[ResetKey(x)] == s.cache[ResetKey(x)])
  {
    KeyFacts();
  }

  lemma {:induction false} TicketFate(r: Run, j: nat, x: string, address: string, n: nat)
    requires r.Valid() && TicketAt(r, j, x, address) && j < n <= |r.events|
    ensures x in r.states[n].drawn
    ensures ResetKey(x) in r.states[n].cache <==> !UsedBetween(r, x, j, n)
    ensures ResetKey(x) in r.states[n].cache ==>
              r.states[n].cache[ResetKey(x)] == Entry(Email(address), Some(r.events[j].now + RESET_TTL))
  {
    assert r.Serves(n - 1);
    if n > j + 1 {
      TicketFate(r, j, x, address, n - 1);
      InvAt(r, n - 1);
      TicketStep(r.setup, r.states[n - 1], r.events[n - 1].request, r.events[n - 1].now, x);
      IssuedGrows(r, n - 1, n);
      assert UsedBetween(r, x, j, n - 1) ==> UsedBetween(r, x, j, n);
    }
  }

  /** Exactly when a reset succeeds: strictly within 15 minutes of the ForgotPassword that issued
      its ticket, the first time, with an acceptable password, while somebody holds the address
      the ticket was issued for; and it is that user's password which changes. */
  lemma ResetSucceedsIff(r: Run, j: nat, x: string, address: string, n: nat)
    requires r.Valid() && TicketAt(r, j, x, address) && j < n < |r.events|
    requires r.events[n].request.ResetPassword? && r.events[n].request.ticket == x
    ensures var holder, password := FindByEmail(r.states[n].users, address), r.events[n].request.password;
            && (r.answers[n] == Done <==>
                  && r.events[n].now < r.events[j].now + RESET_TTL
                  && !UsedBetween(r, x, j, n)
                  && holder.Some? && |password| <= MAX_PASSWORD)
            && (r.answers[n] == Done ==>
                  r.states[n + 1].users == r.states[n].users[holder.value :=
                    User(address, Bcrypt(password))])
            && (r.answers[n] != Done ==> r.states[n + 1] == r.states[n])
  {
    assert r.Serves(n);
    TicketFate(r, j, x, address, n);
  }

  lemma TicketAppears(p: Setup, s: State, q: Request, now: int, x: string)
    requires ResetKey(x) in Step(p, s, q, now).0.cache && ResetKey(x) !in s.cache
    ensures q.ForgotPassword? && Step(p, s, q, now).1 == ResetIssued(x)
  {
    KeyFacts();
  }

  /** No reset succeeds but with a ticket that was handed out. */
  lemma {:induction false} TicketOrigin(r: Run, n: nat, x: string) returns (j: nat, address: string)
    requires r.Valid() && n <= |r.events| && ResetKey(x) in r.states[n].cache
    ensures j < n && TicketAt(r, j, x, address)
  {
    assert r.Serves(n - 1);
    if ResetKey(x) in r.states[n - 1].cache {
      j, address := TicketOrigin(r, n - 1, x);
    } else {
      TicketAppears(r.setup, r.states[n - 1], r.events[n - 1].request, r.events[n - 1].now, x);
      j, address := n - 1, r.events[n - 1].request.email;
    }
  }

  /** Each ticket makes at most one reset succeed, less than 15 minutes after it was issued. */
  lemma ResetOnceAndInTime(r: Run, n: nat) returns (j: nat, address: string)
    requires r.Valid() && n < |r.events| && UsesTicket(r, n, r.events[n].request)
    ensures j < n && TicketAt(r, j, r.events[n].request.ticket, address)
    ensures r.events[n].now < r.events[j].now + RESET_TTL
    ensures forall i: nat :: i != n && i < |r.events| && UsesTicket(r, i, r.events[i].request) ==>
              r.events[i].request.ticket != r.events[n].request.ticket
  {
    var x := r.events[n].request.ticket;
    assert r.Serves(n);
    j, address := TicketOrigin(r, n, x);
    ResetSucceedsIff(r, j, x, address, n);
    forall i: nat | i != n && i < |r.events| && UsesTicket(r, i, r.events[i].request)
      ensures r.events[i].request.ticket != x
    {
      if r.events[i].request.ticket == x {
        if i <= j {
          NoUseBeforeIssue(r, j, x, i);
        } else if i > n {
          ResetSucceedsIff(r, j, x, address, i);
        }
      }
    }
  }

  /** Event `n`, serving `q`, is a successful reset. */
  ghost predicate UsesTicket(r: Run, n: nat, q: Request) {
    n < |r.events| == |r.answers| && r.events[n].request == q && q.ResetPassword? && r.answers[n] == Done
  }

  lemma NoUseBeforeIssue(r: Run, j: nat, x: string, i: nat)
    requires r.Valid() && j < |r.events| && r.answers[j] == ResetIssued(x) && i <= j
    requires r.events[i].request.ResetPassword? && r.events[i].request.ticket == x
    ensures r.answers[i] != Done
  {
    assert r.Serves(i) && r.Serves(j);
    InvAt(r, i);
    IssuedGrows(r, i, j);
  }

  // ----- the version counter -----

  /** Request `q` resets the password of user `u`. */
  ghost predicate Resets(s: State, q: Request, now: int, u: string) {
    && q.ResetPassword? && ResetStep(s, q, now).1 == Done
    && ResetKey(q.ticket) in s.cache && s.cache[ResetKey(q.ticket)].data.Email?
    && FindByEmail(s.users, s.cache[ResetKey(q.ticket)].data.address) == Some(u)
  }

  ghost predicate ResetAt(r: Run, k: nat, u: string) {
    k < |r.events| < |r.states| && Resets(r.states[k], r.events[k].request, r.events[k].now, u)
  }

  ghost predicate SameCounter(s: State, s': State, u: string) {
    var key := VersionKey(u);
    (key in s'.cache <==> key in s.cache) && (key in s.cache ==> s'.cache[key] == s.cache[key])
  }

  lemma ResetMovesCounter(p: Setup, s: State, q: Request, now: int, u: string)
    requires q.ResetPassword? && Resets(s, q, now, u)
    ensures var s' := ResetStep(s, q, now).0;
            && VersionKey(u) in s'.cache
            && s'.cache[VersionKey(u)] == Entry(Version(CurrentVersion(s.cache, u, now) + 1), Some(now + VERSION_TTL))
            && u in s'.users
  {
    KeyFacts();
  }

  lemma OtherResetsKeepCounter(s: State, q: Request, now: int, u: string)
    requires q.ResetPassword? && !Resets(s, q, now, u)
    ensures SameCounter(s, ResetStep(s, q, now).0, u)
  {
    KeyFacts();
  }

  lemma OthersKeepCounter(p: Setup, s: State, q: Request, now: int, u: string)
    requires Inv(p, s) && Possible(p, s, q) && !q.ResetPassword?
    ensures SameCounter(s, Step(p, s, q, now).0, u)
  {
    KeyFacts();
  }

  /** The counter moves only when its user's password is reset, and then by one. */
  lemma CounterStep(p: Setup, s: State, q: Request, now: int, u: string)
    requires Inv(p, s) && Possible(p, s, q)
    ensures var s', key := Step(p, s, q, now).0, VersionKey(u);
            if Resets(s, q, now, u) then
              key in s'.cache &&
              s'.cache[key] == Entry(Version(CurrentVersion(s.cache, u, now) + 1), Some(now + VERSION_TTL))
            else SameCounter(s, s', u)
  {
    if Resets(s, q, now, u) {
      ResetMovesCounter(p, s, q, now, u);
    } else if q.ResetPassword? {
      OtherResetsKeepCounter(s, q, now, u);
    } else {
      OthersKeepCounter(p, s, q, now, u);
    }
  }

  lemma CounterIsNatural(p: Setup, s: State, u: string, now: int)
    requires Inv(p, s)
    ensures CurrentVersion(s.cache, u, now) >= 0
    ensures CurrentVersion(s.cache, u, now) == 0 <==> !(VersionKey(u) in s.cache && s.cache[VersionKey(u)].Live(now))
  {
  }

  /** From a reset on, for as long as its counter was meant to last, the counter stays above what
      it was before the reset. */
  lemma {:induction false} CounterHolds(r: Run, k: nat, u: string, m: nat)
    requires r.Valid() && ResetAt(r, k, u) && k < m <= |r.events|
    requires r.events[m - 1].now < r.events[k].now + VERSION_TTL
    ensures var key, s := VersionKey(u), r.states[m];
            && key in s.cache && s.cache[key].data.Version?
            && s.cache[key].data.number > VersionAt(r, k, u)
            && s.cache[key].expiresAt.Some? && s.cache[key].expiresAt.value >= r.events[k].now + VERSION_TTL
            && (m == k + 1 ==> s.cache[key].data.number == VersionAt(r, k, u) + 1)
  {
    assert r.Serves(m - 1);
    InvAt(r, m - 1);
    CounterStep(r.setup, r.states[m - 1], r.events[m - 1].request, r.events[m - 1].now, u);
    if m > k + 1 {
      assert r.events[m - 2].now <= r.events[m - 1].now && r.events[k].now <= r.events[m - 1].now;
      CounterHolds(r, k, u, m - 1);
    }
  }

  /** Event `j` handed out `t`, and event `k`, later, reset its user's password. */
  ghost predicate IssuedThenReset(r: Run, j: nat, t: Token, k: nat) {
    r.Valid() && IssuedAt(r, j, t) && j < k && ResetAt(r, k, t.claims.subject)
  }

  /** A reset invalidates, for the rest of its life, every session that recorded a version the
      counter had not lost by the time of the reset, if the token dies before the new counter. */
  lemma ResetInvalidates(r: Run, j: nat, t: Token, k: nat, n: nat)
    requires IssuedThenReset(r, j, t, k) && k < n < |r.events|
    requires t.claims.expiresAt <= r.events[k].now + VERSION_TTL
    requires VersionAt(r, j, t.claims.subject) <= VersionAt(r, k, t.claims.subject)
    requires r.events[n].request.Refresh? && r.events[n].request.token == t
    ensures r.answers[n] == InvalidToken
  {
    var u, now := t.claims.subject, r.events[n].now;
    RefreshSucceedsIff(r, j, t, n);
    assert r.events[j].now <= r.events[k].now && r.events[n - 1].now <= now;
    if now < t.claims.expiresAt {
      CounterHolds(r, k, u, n);
    }
  }

  /** Tokens that live no longer than a counter always do. */
  lemma NinetyDaysSuffice(r: Run, j: nat, t: Token, k: nat)
    requires IssuedThenReset(r, j, t, k) && Lifetime(r.setup.RefreshCfg()) <= VERSION_TTL
    ensures t.claims.expiresAt <= r.events[k].now + VERSION_TTL
  {
    IssuedFacts(r, j, t, k);
    assert r.events[j].now <= r.events[k].now;
  }

  ghost predicate Presents(r: Run, n: nat, t: Token) {
    n < |r.events| && r.events[n].request.Refresh? && r.events[n].request.token == t
  }

  /** Whatever follows, no Refresh of `t` returns a pair. */
  ghost predicate RefusedForGood(r: Run, t: Token) {
    forall more: Run, n: nat | Continues(r, more) && |r.events| <= n && Presents(more, n, t) ::
      more.answers[n] == InvalidToken
  }

  ghost predicate NoResetAfter(r: Run, n: nat, u: string) {
    forall i: nat :: n <= i < |r.events| ==> !ResetAt(r, i, u)
  }

  /** Nor, at least, as long as the user's password is not reset again. */
  ghost predicate RefusedUntilReset(r: Run, t: Token) {
    forall more: Run, n: nat
      | Continues(r, more) && |r.events| <= n && Presents(more, n, t)
        && NoResetAfter(more, |r.events|, t.claims.subject) ::
      more.answers[n] == InvalidToken
  }

  /** The token is dead or its session spent; or the reset found the counter at the recorded
      version or above, and the counter it left outlives the token. */
  ghost predicate Invalidated(r: Run, j: nat, t: Token, k: nat)
    requires IssuedThenReset(r, j, t, k)
  {
    || SpentBetween(r, t, j, k)
    || t.claims.expiresAt <= r.events[k].now
    || (VersionAt(r, j, t.claims.subject) <= VersionAt(r, k, t.claims.subject)
        && t.claims.expiresAt <= r.events[k].now + VERSION_TTL)
  }

  lemma InvalidatedStays(r: Run, j: nat, t: Token, more: Run, n: nat)
    requires |r.events| > 0 && IssuedThenReset(r, j, t, |r.events| - 1) && Invalidated(r, j, t, |r.events| - 1)
    requires Continues(r, more) && |r.events| <= n && Presents(more, n, t)
    ensures more.answers[n] == InvalidToken
  {
    var k := |r.events| - 1;
    RefreshSucceedsIff(more, j, t, n);
    assert more.events[k].now <= more.events[n].now;
    if SpentBetween(r, t, j, k) {
      var i :| j < i < k && Spends(r.setup, r.events[i].request, r.events[i].now, t);
      assert Spends(more.setup, more.events[i].request, more.events[i].now, t);
    } else if r.events[k].now < t.claims.expiresAt {
      ResetInvalidates(more, j, t, k, n);
    }
  }

  lemma CounterLetsPast(r: Run, j: nat, t: Token, now: int)
    requires |r.events| > 0 && IssuedThenReset(r, j, t, |r.events| - 1)
    requires var u, k := t.claims.subject, |r.events| - 1;
             VersionAt(r, j, u) > VersionAt(r, k, u) || now >= r.events[k].now + VERSION_TTL
    ensures CurrentVersion(r.states[|r.events|].cache, t.claims.subject, now) <= VersionAt(r, j, t.claims.subject)
    ensures t.claims.subject in r.states[|r.events|].users
  {
    var u, k := t.claims.subject, |r.events| - 1;
    InvAt(r, j);
    assert r.Serves(k);
    ResetMovesCounter(r.setup, r.states[k], r.events[k].request, r.events[k].now, u);
    CounterIsNatural(r.setup, r.states[j], u, r.events[j].now);
  }

  /** Otherwise the token refreshes: at once if the recorded version is above the counter, and
      else when the counter has expired. */
  lemma NotInvalidated(r: Run, j: nat, t: Token) returns (more: Run)
    requires |r.events| > 0 && IssuedThenReset(r, j, t, |r.events| - 1) && !Invalidated(r, j, t, |r.events| - 1)
    ensures Continues(r, more) && |more.events| == |r.events| + 1 && NoResetAfter(more, |r.events|, t.claims.subject)
    ensures Presents(more, |r.events|, t) && more.answers[|r.events|].Pair?
  {
    var u, k := t.claims.subject, |r.events| - 1;
    var late := VersionAt(r, j, u) <= VersionAt(r, k, u);
    var now := if late then r.events[k].now + VERSION_TTL else r.events[k].now;
    var a, b := NamesRemain(r.states[k + 1].drawn);
    IssuedFacts(r, j, t, k + 1);
    CounterLetsPast(r, j, t, now);
    assert r.EndsBy(now);
    ServedIsRun(r, Refresh(t, a, b), now);
    more := Served(r, Refresh(t, a, b), now);
    RefreshSucceedsIff(more, j, t, k + 1);
  }

  /** Exactly when a reset ends a session for good, whatever the lifetimes; that there be no
      further reset makes no difference. */
  lemma ResetInvalidatesIff(r: Run, j: nat, t: Token)
    requires |r.events| > 0 && IssuedThenReset(r, j, t, |r.events| - 1)
    ensures RefusedForGood(r, t) <==> Invalidated(r, j, t, |r.events| - 1)
    ensures RefusedUntilReset(r, t) <==> Invalidated(r, j, t, |r.events| - 1)
  {
    if Invalidated(r, j, t, |r.events| - 1) {
      forall more: Run, n: nat | Continues(r, more) && |r.events| <= n && Presents(more, n, t)
        ensures more.answers[n] == InvalidToken
      {
        InvalidatedStays(r, j, t, more, n);
      }
    } else {
      var more := NotInvalidated(r, j, t);
      assert Presents(more, |r.events|, t);
    }
  }

  /** The condition holds when the user had no counter at issue... */
  lemma NoCounterAtIssue(r: Run, j: nat, t: Token, k: nat)
    requires IssuedThenReset(r, j, t, k)
    requires VersionAt(r, j, t.claims.subject) == 0
    ensures VersionAt(r, j, t.claims.subject) <= VersionAt(r, k, t.claims.subject)
  {
    InvAt(r, k);
    CounterIsNatural(r.setup, r.states[k], t.claims.subject, r.events[k].now);
  }

  /** ... and when the counter never expired between issue and reset. */
  ghost predicate CounterLive(r: Run, u: string, i: nat)
    requires r.Valid() && i < |r.events|
  {
    VersionKey(u) in r.states[i].cache && r.states[i].cache[VersionKey(u)].Live(r.events[i].now)
  }

  lemma {:induction false} CounterRisesWhileLive(r: Run, j: nat, u: string, k: nat)
    requires r.Valid() && j <= k < |r.events|
    requires forall i: nat :: j <= i <= k ==> CounterLive(r, u, i)
    ensures VersionAt(r, j, u) <= VersionAt(r, k, u)
  {
    if j < k {
      CounterRisesWhileLive(r, j, u, k - 1);
      assert r.Serves(k - 1) && CounterLive(r, u, k) && CounterLive(r, u, k - 1);
      InvAt(r, k - 1);
      InvAt(r, k);
      CounterStep(r.setup, r.states[k - 1], r.events[k - 1].request, r.events[k - 1].now, u);
    }
  }

  // ----- the condition is needed -----

  /** A user resets her password once; the counter is at 1 until it expires 90 days later. */
  lemma FirstReset() returns (r: Run)
    ensures r.Valid() && r.setup == SETUP && |r.events| == 2 && r.EndsBy(0)
    ensures var s := r.states[2];
            && s.users == map["u" := User("e", Bcrypt("q"))]
            && VersionKey("u") in s.cache && s.cache[VersionKey("u")] == Entry(Version(1), Some(VERSION_TTL))
            && s.drawn == {"x1"} && s.issued == {}
  {
    KeyFacts();
    r := Run(SETUP, [], [State(ALICE, map[], map[], {}, {})], []);
    AliceHasHerAddress(ALICE);
    var q1, q2 := ForgotPassword("e", "x1"), ResetPassword("x1", "q");
    ServedIsRun(r, q1, 0);
    r := Served(r, q1, 0);
    assert r.states[1] == State(ALICE, map[ResetKey("x1") := Entry(Email("e"), Some(RESET_TTL))], map[], {}, {"x1"});
    ServedIsRun(r, q2, 0);
    r := Served(r, q2, 0);
  }

  /** An hour before it expires she logs in: the session records version 1. */
  lemma LoginUnderCounter() returns (r: Run, t: Token)
    ensures r.Valid() && r.setup == SETUP && |r.events| == 3 && r.EndsBy(VERSION_TTL - HOUR)
    ensures IssuedAt(r, 2, t) && t.claims.subject == "u" && VersionAt(r, 2, "u") == 1
    ensures t.claims.expiresAt == VERSION_TTL - HOUR + 7 * 24 * HOUR
    ensures var s := r.states[3];
            && s.users == map["u" := User("e", Bcrypt("q"))]
            && VersionKey("u") in s.cache && s.cache[VersionKey("u")] == Entry(Version(1), Some(VERSION_TTL))
            && s.drawn == {"x1", "a1", "r1"} && t in s.issued
  {
    KeyFacts();
    r := FirstReset();
    AliceHasHerAddress(r.states[2].users);
    var q, now := Login("e", "q", "a1", "r1"), VERSION_TTL - HOUR;
    ServedIsRun(r, q, now);
    r := Served(r, q, now);
    t := r.answers[2].refresh;
  }

  /** When it has expired, her session records a version above the live counter, which is 0, and
      still refreshes. */
  lemma HigherVersionAccepted() returns (r: Run, t: Token)
    ensures r.Valid() && |r.events| == 4 && IssuedAt(r, 2, t) && Presents(r, 3, t)
    ensures VersionAt(r, 3, t.claims.subject) < VersionAt(r, 2, t.claims.subject) && r.answers[3].Pair?
  {
    r, t := LoginUnderCounter();
    ServedIsRun(r, Refresh(t, "a2", "r2"), VERSION_TTL);
    r := Served(r, Refresh(t, "a2", "r2"), VERSION_TTL);
    assert !SpentBetween(r, t, 2, 3);
    RefreshSucceedsIff(r, 2, t, 3);
  }

  /** Or she resets again then, and the counter starts over at 1. */
  lemma SecondReset() returns (r: Run, t: Token)
    ensures |r.events| == 5 && r.setup == SETUP && IssuedThenReset(r, 2, t, 4)
    ensures r.events[4].now == VERSION_TTL < t.claims.expiresAt && !SpentBetween(r, t, 2, 4)
    ensures VersionAt(r, 2, "u") == 1 && VersionAt(r, 4, "u") == 0 && t.claims.subject == "u"
  {
    KeyFacts();
    r, t := LoginUnderCounter();
    AliceHasHerAddress(r.states[3].users);
    var q1, q2 := ForgotPassword("e", "x2"), ResetPassword("x2", "q2");
    ServedIsRun(r, q1, VERSION_TTL);
    r := Served(r, q1, VERSION_TTL);
    assert r.states[4].users == r.states[3].users;
    assert r.states[4].cache[ResetKey("x2")] == Entry(Email("e"), Some(VERSION_TTL + RESET_TTL));
    ServedIsRun(r, q2, VERSION_TTL);
    r := Served(r, q2, VERSION_TTL);
  }

  /** So the session from before the second reset survives it. */
  lemma SessionSurvivesReset() returns (r: Run, t: Token)
    ensures IssuedThenReset(r, 2, t, 4) && |r.events| == 6 && Lifetime(r.setup.RefreshCfg()) <= VERSION_TTL
    ensures r.events[5].request.Refresh? && r.events[5].request.token == t && r.answers[5].Pair?
  {
    r, t := SecondReset();
    r := NotInvalidated(r, 2, t);
  }
}
