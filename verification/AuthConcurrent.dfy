/** What survives any interleaving of requests: a spent session never comes back, and an
    unspent one is never lost. */
module AuthConcurrent {
  import opened Ttl
  import opened Tokens
  import opened AuthSpec
  import opened AuthInvariant
  import opened AuthShapes
  import opened AuthDrive
  import opened AuthExamples
  import I = AuthInterleaved

  // ----- single reads -----

  /** A request that has ended stays as it ended. */
  lemma {:induction false} EndedForGood(r: I.Run, n: nat, id: nat, m: nat)
    requires r.Valid() && n <= m <= |r.acts|
    requires id in r.states[n].jobs && r.states[n].jobs[id].Ended?
    ensures id in r.states[m].jobs && r.states[m].jobs[id] == r.states[n].jobs[id]
  {
    if n < m {
      EndedForGood(r, n, id, m - 1);
      assert r.Takes(m - 1);
    }
  }

  /** Once a Del of a session has run, a Refresh that reads the session later fails, for good. */
  lemma ReadAfterDelFails(r: I.Run, n: nat, id: nat, name1: string, name2: string, t: Token, m: nat)
    requires r.Valid() && n < m <= |r.acts| && r.acts[n] == I.Go(id, name1, name2)
    requires id in r.states[n].jobs && r.states[n].jobs[id] == I.Reading(SessionKey(t.claims.id), I.ToRefresh(t))
    requires SessionKey(t.claims.id) in r.states[n].deleted
    ensures id in r.states[m].jobs && r.states[m].jobs[id] == I.Ended(InvalidToken)
  {
    assert r.Takes(n);
    I.AlwaysInv(r, n);
    EndedForGood(r, n + 1, id, m);
  }

  /** A Refresh finds no session only if the session was deleted or the token has expired. */
  lemma MissMeansSpentOrExpired(r: I.Run, n: nat, id: nat, t: Token)
    requires r.Valid() && n <= |r.acts| && id in r.states[n].jobs && t.claims.tokenType == "refresh"
    requires var s, job := r.states[n], r.states[n].jobs[id];
             || (job == I.Reading(SessionKey(t.claims.id), I.ToRefresh(t)) && job.key !in s.m)
             || job == I.Evicting(SessionKey(t.claims.id), I.ToRefresh(t))
    ensures SessionKey(t.claims.id) in r.states[n].deleted || t.claims.expiresAt <= r.states[n].clock
  {
    I.AlwaysInv(r, n);
    assert I.JobOk(r.setup, r.states[n], r.states[n].jobs[id]);
  }

  /** The session a Refresh reads is its own token's, a refresh token: under every interleaving
      access tokens do not refresh, and the mismatch and decoding branches are dead. */
  lemma SessionReadIsOwn(r: I.Run, n: nat, id: nat, t: Token, e: Entry<Value>)
    requires r.Valid() && n <= |r.acts| && id in r.states[n].jobs
    requires r.states[n].jobs[id] == I.Holding(SessionKey(t.claims.id), e, I.ToRefresh(t))
    ensures t in r.states[n].released && Backs(t, e)
  {
    var s := r.states[n];
    I.AlwaysInv(r, n);
    assert I.JobOk(r.setup, s, s.jobs[id]);
    assert I.EntryOk(s, t.claims.id, e);
  }

  // ----- whole requests -----

  ghost predicate Gone(s: World, t: Token) { SessionKey(t.claims.id) in s.deleted }

  /** `t` will not verify any more, if it ever did. */
  ghost predicate Dead(p: Setup, s: World, t: Token) {
    || WeakSecret(p.jwt) || t.alg != HS256 || t.key != p.jwt.secret
    || t.claims.issuer != p.jwt.issuer || t.claims.audience != p.jwt.audience
    || t.claims.expiresAt <= s.clock
  }

  /** The jobs a Refresh of `t` goes through: past its deletion, the session is gone. */
  ghost predicate RefreshStage(s: World, job: Job, t: Token) {
    match job
    case Arrived(q) => q.Refresh? && q.token == t
    case Reading(_, k) => RefreshCont(s, k, t)
    case Holding(_, _, k) => RefreshCont(s, k, t)
    case Evicting(_, k) => RefreshCont(s, k, t)
    case Deleting(key, next) => key == SessionKey(t.claims.id) && (next.FindUser? || next == I.Ended(InvalidToken))
    case FindUser(_) => Gone(s, t)
    case Signing(_) => Gone(s, t)
    case Stamping(_, _, _, next) => Gone(s, t) && next.Ended?
    case Putting(_, _, next) => Gone(s, t) && next.Ended?
    case Ended(a) => a.Pair? ==> Gone(s, t)
    case _ => false
  }

  ghost predicate RefreshCont(s: World, k: I.Cont, t: Token) {
    match k
    case ToRefresh(u) => u == t
    case ToRotate(u, _) => u == t
    case ToIssue(_, _, _) => Gone(s, t)
    case _ => false
  }

  /** The jobs a Logout with the refresh token `t` goes through. */
  ghost predicate LogoutStage(p: Setup, s: World, job: Job, t: Token) {
    match job
    case Arrived(q) => q.Logout? && q.refresh == Some(t) && I.Known(p, s, t)
    case LogoutRefresh(u) => u == t && I.Known(p, s, t)
    case Deleting(key, next) => key == SessionKey(t.claims.id) && next == I.Ended(Done)
    case Ended(a) => a == Done ==> Gone(s, t) || Dead(p, s, t)
    case _ => false
  }

  ghost predicate StageOk(p: Setup, s: World, q: Request, job: Job) {
    && (q.Refresh? ==> RefreshStage(s, job, q.token))
    && (q.Logout? && q.refresh.Some? ==> LogoutStage(p, s, job, q.refresh.value))
  }

  ghost predicate StagesOk(p: Setup, s: World) {
    s.requests.Keys == s.jobs.Keys && forall id :: id in s.jobs ==> StageOk(p, s, s.requests[id], s.jobs[id])
  }

  lemma StageNext(p: Setup, s: World, id: nat, name1: string, name2: string)
    requires I.CanGo(p, s, id, name1, name2) && StagesOk(p, s)
    ensures var s' := I.Run1(p, s, id, name1, name2); StageOk(p, s', s.requests[id], s'.jobs[id])
  {
    var s', q, job := I.Run1(p, s, id, name1, name2), s.requests[id], s.jobs[id];
    assert StageOk(p, s, q, job);
    if q.Refresh? {
      RefreshAdvances(p, s, s', job, q.token, name1, name2);
    }
  }

  lemma RefreshAdvances(p: Setup, s: World, s': World, job: Job, t: Token, name1: string, name2: string)
    requires RefreshStage(s, job, t) && s.deleted <= s'.deleted
    requires job.Deleting? ==> job.key in s'.deleted
    ensures RefreshStage(s', I.Next(p, s, job, name1, name2), t)
  {
  }

  lemma {:induction false} StagesAt(r: I.Run, n: nat)
    requires r.Valid() && n <= |r.acts|
    ensures StagesOk(r.setup, r.states[n])
  {
    if n > 0 {
      StagesAt(r, n - 1);
      assert r.Takes(n - 1);
      I.AlwaysInv(r, n - 1);
      StagesStep(r.setup, r.states[n - 1], r.acts[n - 1]);
    }
  }

  lemma StagesStep(p: Setup, s: World, a: I.Action)
    requires I.Inv(p, s) && I.Enabled(p, s, a) && StagesOk(p, s)
    ensures StagesOk(p, I.Advance(p, s, a))
  {
    var s' := I.Advance(p, s, a);
    forall id | id in s'.jobs ensures id in s'.requests && StageOk(p, s', s'.requests[id], s'.jobs[id]) {
      if a.Go? && id == a.id {
        StageNext(p, s, id, a.name1, a.name2);
      }
    }
  }

  /** Request `id` has given up the session of `t`: a Refresh of it that returned a pair, or a
      Logout that took it and succeeded. */
  ghost predicate GaveUp(s: World, id: nat, t: Token) {
    || GotPair(s, id, t)
    || (id in s.jobs && id in s.requests && s.requests[id].Logout? && s.requests[id].refresh == Some(t)
        && s.jobs[id] == I.Ended(Done))
  }

  ghost predicate Refreshes(s: World, id: nat, t: Token) {
    id in s.jobs && id in s.requests && s.requests[id].Refresh? && s.requests[id].token == t
  }

  /** A Refresh of `t` that arrived after that is on its way to fail. */
  ghost predicate Doomed(p: Setup, s: World, late: nat, t: Token) {
    && (Gone(s, t) || Dead(p, s, t))
    && (Refreshes(s, late, t) ==>
          var job := s.jobs[late];
          || (job.Arrived? && job.request == s.requests[late])
          || (job == I.Reading(SessionKey(t.claims.id), I.ToRefresh(t)) && Gone(s, t))
          || job == I.Ended(InvalidToken))
  }

  /** Under any interleaving, a Refresh that starts after a successful Refresh or Logout of the
      same token can only end in ErrInvalidToken. */
  lemma {:induction false} SpentIsSpent(r: I.Run, n: nat, done: nat, late: nat, t: Token, m: nat)
    requires r.Valid() && n <= m <= |r.acts|
    requires GaveUp(r.states[n], done, t) && late !in r.states[n].jobs
    ensures Doomed(r.setup, r.states[m], late, t)
    ensures Refreshes(r.states[m], late, t) && r.states[m].jobs[late].Ended? ==>
              r.states[m].jobs[late] == I.Ended(InvalidToken)
  {
    if n == m {
      StagesAt(r, n);
      assert StageOk(r.setup, r.states[n], r.states[n].requests[done], r.states[n].jobs[done]);
    } else {
      SpentIsSpent(r, n, done, late, t, m - 1);
      assert r.Takes(m - 1);
      I.AlwaysInv(r, m - 1);
      StagesAt(r, m - 1);
    }
  }

  // ----- two Refreshes of one token -----

  /** A Refresh that has read its session, and not failed. */
  predicate PastRead(job: Job) {
    || PastDel(job) || job.Deleting?
    || ((job.Holding? || job.Evicting?) && job.k.ToRefresh?)
    || ((job.Reading? || job.Holding? || job.Evicting?) && job.k.ToRotate?)
  }

  /** A Refresh that has deleted it, and not failed. */
  predicate PastDel(job: Job) {
    || job.FindUser? || job.Signing? || job.Stamping? || job.Putting?
    || ((job.Reading? || job.Holding? || job.Evicting?) && job.k.ToIssue?)
    || (job.Ended? && job.answer.Pair?)
  }

  /** Step `i` is the Del of a Refresh of `t` that goes on. */
  ghost predicate DelStep(r: I.Run, i: nat, id: nat, t: Token) {
    && r.Takes(i) && r.acts[i].Go? && r.acts[i].id == id && Refreshes(r.states[i], id, t)
    && r.states[i].jobs[id].Deleting? && r.states[i].jobs[id].key == SessionKey(t.claims.id)
  }

  /** Step `i` is where a Refresh of `t` reads its session. */
  ghost predicate ReadStep(r: I.Run, i: nat, id: nat, t: Token) {
    && r.Takes(i) && r.acts[i].Go? && r.acts[i].id == id && Refreshes(r.states[i], id, t)
    && r.states[i].jobs[id] == I.Reading(SessionKey(t.claims.id), I.ToRefresh(t))
  }

  /** A job of a Refresh that has just changed was changed by its own step. */
  lemma OwnStep(r: I.Run, n: nat, id: nat, t: Token)
    requires r.Valid() && n < |r.acts| && Refreshes(r.states[n + 1], id, t) && !r.states[n + 1].jobs[id].Arrived?
    ensures r.Takes(n) && Refreshes(r.states[n], id, t) && RefreshStage(r.states[n], r.states[n].jobs[id], t)
    ensures JobShape(r.states[n].jobs[id], r.states[n].clock)
    ensures r.states[n].jobs[id] == r.states[n + 1].jobs[id] ||
            (r.acts[n].Go? && r.acts[n].id == id && r.states[n + 1].jobs[id] ==
             I.Next(r.setup, r.states[n], r.states[n].jobs[id], r.acts[n].name1, r.acts[n].name2))
  {
    StagesAt(r, n);
    ShapedAt(r, n);
    assert r.Takes(n);
    assert StageOk(r.setup, r.states[n], r.states[n].requests[id], r.states[n].jobs[id]);
  }

  lemma {:induction false} DelOf(r: I.Run, n: nat, id: nat, t: Token) returns (i: nat)
    requires r.Valid() && n <= |r.acts| && Refreshes(r.states[n], id, t) && PastDel(r.states[n].jobs[id])
    ensures i < n && DelStep(r, i, id, t)
  {
    OwnStep(r, n - 1, id, t);
    if PastDel(r.states[n - 1].jobs[id]) {
      i := DelOf(r, n - 1, id, t);
    } else {
      i := n - 1;
    }
  }

  lemma {:induction false} ReadOf(r: I.Run, n: nat, id: nat, t: Token) returns (i: nat)
    requires r.Valid() && n <= |r.acts| && Refreshes(r.states[n], id, t) && PastRead(r.states[n].jobs[id])
    ensures i < n && ReadStep(r, i, id, t)
  {
    OwnStep(r, n - 1, id, t);
    if PastRead(r.states[n - 1].jobs[id]) {
      i := ReadOf(r, n - 1, id, t);
    } else {
      i := n - 1;
    }
  }

  lemma {:induction false} DeletedStays(r: I.Run, n: nat, m: nat, key: string)
    requires r.Valid() && n <= m <= |r.acts| && key in r.states[n].deleted
    ensures key in r.states[m].deleted
  {
    if n < m {
      DeletedStays(r, n, m - 1, key);
      assert r.Takes(m - 1);
    }
  }

  /** Only overlapping Refreshes of a token both get a pair: each reads the session before the
      other deletes it. */
  lemma BothPairsOverlap(r: I.Run, n: nat, a: nat, b: nat, t: Token)
    returns (readA: nat, delA: nat, readB: nat, delB: nat)
    requires r.Valid() && n <= |r.acts| && a != b && GotPair(r.states[n], a, t) && GotPair(r.states[n], b, t)
    ensures ReadStep(r, readA, a, t) && DelStep(r, delA, a, t) && ReadStep(r, readB, b, t) && DelStep(r, delB, b, t)
    ensures readA < delB < n && readB < delA < n
  {
    readA := ReadOf(r, n, a, t);
    readB := ReadOf(r, n, b, t);
    delA := DelOf(r, n, a, t);
    delB := DelOf(r, n, b, t);
    ReadBeforeDel(r, n, a, readA, b, delB, t);
    ReadBeforeDel(r, n, b, readB, a, delA, t);
  }

  ghost predicate GotPair(s: World, id: nat, t: Token) {
    Refreshes(s, id, t) && s.jobs[id].Ended? && s.jobs[id].answer.Pair?
  }

  lemma ReadBeforeDel(r: I.Run, n: nat, a: nat, readA: nat, b: nat, delB: nat, t: Token)
    requires r.Valid() && n <= |r.acts| && a != b && readA < n && delB < n && GotPair(r.states[n], a, t)
    requires ReadStep(r, readA, a, t) && DelStep(r, delB, b, t)
    ensures readA < delB
  {
    if delB < readA {
      DeletedStays(r, delB + 1, readA, SessionKey(t.claims.id));
      ReadAfterDelFails(r, readA, a, r.acts[readA].name1, r.acts[readA].name2, t, n);
    }
  }

  // ----- exactly when two can still both get a pair -----

  /** The Refresh has read its session and not deleted it, and cannot succeed any more: its copy has
      died, or the counter has refused it. */
  predicate Failing(s: World, job: Job) {
    || (job.Deleting? && job.next.Ended?)
    || (job.Evicting? && job.k.ToRefresh?)
    || (job.Holding? && job.k.ToRefresh? && !job.e.Live(s.clock))
  }

  ghost predicate Midway(r: I.Run, id: nat, t: Token) {
    r.Valid() && Refreshes(Last(r), id, t) && PastRead(Last(r).jobs[id]) && !PastDel(Last(r).jobs[id])
  }

  predicate Lost(s: World, job: Job) {
    Failing(s, job) || job == I.Ended(InvalidToken)
  }

  lemma {:induction false} LostForGood(r: I.Run, more: I.Run, n: nat, id: nat, t: Token)
    requires r.Valid() && Continues(r, more) && |r.acts| <= n <= |more.acts|
    requires Refreshes(Last(r), id, t) && Lost(Last(r), Last(r).jobs[id])
    ensures Refreshes(more.states[n], id, t) && Lost(more.states[n], more.states[n].jobs[id])
  {
    if n > |r.acts| {
      LostForGood(r, more, n - 1, id, t);
      assert more.Takes(n - 1);
      StagesAt(more, n - 1);
      var s := more.states[n - 1];
      assert StageOk(more.setup, s, s.requests[id], s.jobs[id]);
    }
  }

  /** Only the job of request `id` has moved, and that is still a Refresh of `t`. */
  ghost predicate OnlyMoved(s: World, s': World, id: nat, t: Token) {
    && Refreshes(s', id, t) && s'.jobs == s.jobs[id := s'.jobs[id]] && s'.requests == s.requests
  }

  /** Only with a strong secret does a Refresh come so far. */
  lemma MidwayIsSigned(r: I.Run, id: nat, t: Token)
    requires Midway(r, id, t)
    ensures !WeakSecret(r.setup.jwt)
  {
    var s, job := Last(r), Last(r).jobs[id];
    I.AlwaysInv(r, |r.acts|);
    StagesAt(r, |r.acts|);
    assert StageOk(r.setup, s, s.requests[id], job) && I.JobOk(r.setup, s, job);
    if job.Deleting? {
      assert I.Released(s, t.claims.id);
    }
  }

  /** It holds a live copy of its own session: it goes on to read the counter. */
  lemma PastItsCopy(r: I.Run, id: nat, t: Token) returns (more: I.Run)
    requires Midway(r, id, t) && !Failing(Last(r), Last(r).jobs[id])
    ensures Continues(r, more) && Midway(more, id, t) && OnlyMoved(Last(r), Last(more), id, t)
    ensures Last(more).clock == Last(r).clock
    ensures !Failing(Last(more), Last(more).jobs[id])
    ensures var job := Last(more).jobs[id]; !((job.Holding? || job.Evicting?) && job.k.ToRefresh?)
  {
    var s, job := Last(r), Last(r).jobs[id];
    more := r;
    if job.Holding? && job.k.ToRefresh? {
      StagesAt(r, |r.acts|);
      ShapedAt(r, |r.acts|);
      assert StageOk(r.setup, s, s.requests[id], job) && JobShape(job, s.clock);
      SessionReadIsOwn(r, |r.acts|, id, t, job.e);
      more := Think(r, id);
    }
  }

  /** Past its copy, it waits for the counter to expire if that would refuse it, and comes to its
      Del. */
  lemma WaitsOutCounter(r: I.Run, id: nat, t: Token) returns (more: I.Run)
    requires Midway(r, id, t) && !Failing(Last(r), Last(r).jobs[id])
    requires var job := Last(r).jobs[id]; !((job.Holding? || job.Evicting?) && job.k.ToRefresh?)
    ensures Continues(r, more) && OnlyMoved(Last(r), Last(more), id, t) && GoesOnFrom(Last(more), id, t)
  {
    var s, job := Last(r), Last(r).jobs[id];
    StagesAt(r, |r.acts|);
    ShapedAt(r, |r.acts|);
    assert StageOk(r.setup, s, s.requests[id], job) && JobShape(job, s.clock);
    more := r;
    if !job.Deleting? {
      var key := VersionKey(t.claims.subject);
      assert key in s.m ==> EntryShape(key, s.m[key], s.clock);
      more := ReadsNothing(r, id, key, job.k);
    }
  }

  /** At its Del, let past by the counter. */
  ghost predicate GoesOnFrom(s: World, id: nat, t: Token) {
    && Refreshes(s, id, t) && s.jobs[id].Deleting? && s.jobs[id].key == SessionKey(t.claims.id)
    && s.jobs[id].next.FindUser?
  }

  /** With the user there, or put back, it gets its pair. */
  lemma DelToPair(r: I.Run, id: nat, t: Token) returns (more: I.Run)
    requires r.Valid() && GoesOnFrom(Last(r), id, t) && !WeakSecret(r.setup.jwt)
    ensures Continues(r, more) && OnlyMoved(Last(r), Last(more), id, t) && GotPair(Last(more), id, t)
  {
    var subject := Last(r).jobs[id].next.subject;
    more := Extend(r, I.ChangeUsers(Last(r).users[subject := User("", Bcrypt(""))]));
    more := RefreshFromDel(more, id, t.claims.id, subject);
  }

  lemma BothGetPairs(r: I.Run, a: nat, b: nat, t: Token) returns (more: I.Run)
    requires a != b && Midway(r, a, t) && Midway(r, b, t)
    requires !Failing(Last(r), Last(r).jobs[a]) && !Failing(Last(r), Last(r).jobs[b])
    ensures Continues(r, more) && GotPair(Last(more), a, t) && GotPair(Last(more), b, t)
  {
    MidwayIsSigned(r, a, t);
    more := PastItsCopy(r, a, t);
    more := PastItsCopy(more, b, t);
    more := WaitsOutCounter(more, a, t);
    more := WaitsOutCounter(more, b, t);
    more := DelToPair(more, a, t);
    more := DelToPair(more, b, t);
  }

  ghost predicate BothCanPair(r: I.Run, a: nat, b: nat, t: Token)
    requires r.Valid()
  {
    exists more: I.Run :: Continues(r, more) && GotPair(Last(more), a, t) && GotPair(Last(more), b, t)
  }

  /** Two Refreshes of a token that have both read its session, and neither deleted it, can still
      both get a pair if and only if neither has a dead copy or has been refused by the counter. */
  lemma BothCanPairIff(r: I.Run, a: nat, b: nat, t: Token)
    requires a != b && Midway(r, a, t) && Midway(r, b, t)
    ensures BothCanPair(r, a, b, t) <==> !Failing(Last(r), Last(r).jobs[a]) && !Failing(Last(r), Last(r).jobs[b])
  {
    if !Failing(Last(r), Last(r).jobs[a]) && !Failing(Last(r), Last(r).jobs[b]) {
      var more := BothGetPairs(r, a, b, t);
    } else {
      var lost := if Failing(Last(r), Last(r).jobs[a]) then a else b;
      forall more: I.Run | Continues(r, more) ensures !GotPair(Last(more), lost, t) {
        LostForGood(r, more, |more.acts|, lost, t);
      }
    }
  }

  const NAMES: (string, string) := ("a1", "r1")

  /** A user logs in. */
  lemma AliceLogsIn() returns (r: I.Run, t: Token)
    ensures r.Valid() && r.setup == SETUP && Refreshable(SETUP, Last(r), t, 0) && Last(r).jobs.Keys == {0}
  {
    KeyFacts();
    AliceHasHerAddress(ALICE);
    r := I.Run(SETUP, [I.World(ALICE, map[], 0, map[], map[], {}, {}, {})], []);
    r := LoginUpToSigning(r, 0, "e", "p", "u");
    r := IssueRuns(r, 0, "u", 0, NAMES);
    t := RefreshOf(SETUP, "u", 0, "r1");
  }

  /** Such runs there are, so single use is strict only for requests served one at a time. */
  lemma TwoRefreshesCanBothSucceed() returns (r: I.Run, t: Token)
    ensures r.Valid() && GotPair(Last(r), 1, t) && GotPair(Last(r), 2, t)
  {
    r, t := AliceLogsIn();
    r := RefreshUpToDel(r, 1, t, 0);
    r := RefreshUpToDel(r, 2, t, 0);
    r := BothGetPairs(r, 1, 2, t);
  }
}
