/** Continuing a run of the interleaved protocol: requests taken step by step from where a run
    has got to. */
module AuthDrive {
  import opened Ttl
  import opened Tokens
  import opened AuthSpec
  import opened AuthInvariant
  import I = AuthInterleaved
  import Store = Cache

  type Job = I.Job
  type World = I.World

  ghost function Last(r: I.Run): World
    requires r.Valid()
  {
    r.states[|r.acts|]
  }

  /** `more` is the run `r` with further steps. */
  ghost predicate Continues(r: I.Run, more: I.Run) {
    more.Valid() && more.setup == r.setup && r.states <= more.states && r.acts <= more.acts
  }

  lemma Extend(r: I.Run, a: I.Action) returns (more: I.Run)
    requires r.Valid() && I.Enabled(r.setup, Last(r), a)
    ensures Continues(r, more) && Last(more) == I.Advance(r.setup, Last(r), a) && more.acts == r.acts + [a]
  {
    more := I.Run(r.setup, r.states + [I.Advance(r.setup, Last(r), a)], r.acts + [a]);
    forall i: nat | i < |more.acts| ensures more.Takes(i) {
      if i < |r.acts| {
        assert r.Takes(i);
      }
    }
  }

  /** A step that draws two names. */
  lemma Draw(r: I.Run, id: nat, names: (string, string)) returns (more: I.Run)
    requires r.Valid() && id in Last(r).jobs && !Last(r).jobs[id].Ended?
    requires names.0 != names.1 && names.0 !in Last(r).drawn && names.1 !in Last(r).drawn
    ensures Continues(r, more)
    ensures Last(more) == I.Run1(r.setup, Last(r), id, names.0, names.1)
  {
    more := Extend(r, I.Go(id, names.0, names.1));
  }

  /** A step that draws none. */
  lemma Act(r: I.Run, id: nat) returns (more: I.Run)
    requires r.Valid() && id in Last(r).jobs && !Last(r).jobs[id].Ended? && !I.Draws(Last(r).jobs[id])
    ensures Continues(r, more)
    ensures Last(more) == I.Run1(r.setup, Last(r), id, "", "")
  {
    var a, b := NamesRemain(Last(r).drawn);
    more := Extend(r, I.Go(id, a, b));
  }

  /** A step that changes nothing but its request's job. */
  lemma Think(r: I.Run, id: nat) returns (more: I.Run)
    requires r.Valid() && id in Last(r).jobs && !Last(r).jobs[id].Ended?
    requires var job := Last(r).jobs[id];
             !I.Draws(job) && !job.Saving? && !job.Evicting? && !job.Deleting? && !job.Putting?
    ensures Continues(r, more)
    ensures Last(more) == Last(r).(jobs := Last(r).jobs[id := I.Next(r.setup, Last(r), Last(r).jobs[id], "", "")])
  {
    more := Act(r, id);
  }

  lemma Wait(r: I.Run, now: int) returns (more: I.Run)
    requires r.Valid() && Last(r).clock <= now
    ensures Continues(r, more) && Last(more) == Last(r).(clock := now)
  {
    more := Extend(r, I.Tick(now));
  }

  // ----- reads and writes -----

  ghost predicate AtRead(r: I.Run, id: nat, key: string, k: I.Cont) {
    r.Valid() && id in Last(r).jobs && Last(r).jobs[id] == I.Reading(key, k)
  }

  /** A read of a live entry returns it. */
  lemma LiveRead(r: I.Run, id: nat, key: string, k: I.Cont) returns (more: I.Run)
    requires AtRead(r, id, key, k) && key in Last(r).m && Last(r).m[key].Live(Last(r).clock)
    ensures Continues(r, more)
    ensures Last(more) == Last(r).(jobs := Last(r).jobs[id := I.Resume(r.setup, k, Some(Last(r).m[key].data))])
  {
    more := Think(r, id);
    assert Last(more).jobs[id] == I.Holding(key, Last(r).m[key], k);
    more := Think(more, id);
  }

  /** A read of a dead entry deletes it and finds nothing. */
  lemma DeadRead(r: I.Run, id: nat, key: string, k: I.Cont) returns (more: I.Run)
    requires AtRead(r, id, key, k) && key in Last(r).m && !Last(r).m[key].Live(Last(r).clock)
    ensures Continues(r, more)
    ensures Last(more) == Last(r).(m := Last(r).m - {key}, jobs := Last(r).jobs[id := I.Resume(r.setup, k, None)])
  {
    more := Think(r, id);
    assert Last(more).jobs[id] == I.Holding(key, Last(r).m[key], k);
    more := Think(more, id);
    assert Last(more).jobs[id] == I.Evicting(key, k);
    more := Act(more, id);
  }

  /** Every read comes to an end. */
  lemma AnyRead(r: I.Run, id: nat, key: string, k: I.Cont) returns (more: I.Run, found: Option<Value>)
    requires AtRead(r, id, key, k)
    ensures Continues(r, more)
    ensures Last(more) == Last(r).(m := Last(more).m, jobs := Last(r).jobs[id := I.Resume(r.setup, k, found)])
  {
    if key !in Last(r).m {
      more := Think(r, id);
      found := None;
    } else if Last(r).m[key].Live(Last(r).clock) {
      more := LiveRead(r, id, key, k);
      found := Some(Last(r).m[key].data);
    } else {
      more := DeadRead(r, id, key, k);
      found := None;
    }
  }

  /** A copy that expires is looked at when it has. */
  lemma HeldUntilDead(r: I.Run, id: nat) returns (more: I.Run)
    requires r.Valid() && id in Last(r).jobs && Last(r).jobs[id].Holding? && Last(r).jobs[id].e.expiresAt.Some?
    ensures Continues(r, more)
    ensures var s, job := Last(r), Last(r).jobs[id];
            Last(more) == s.(clock := if job.e.Live(s.clock) then job.e.expiresAt.value else s.clock,
                             jobs := s.jobs[id := I.Evicting(job.key, job.k)])
  {
    var s, e := Last(r), Last(r).jobs[id].e;
    more := Wait(r, if e.Live(s.clock) then e.expiresAt.value else s.clock);
    more := Think(more, id);
  }

  /** A read in progress, wherever it has got to. */
  predicate InRead(job: Job, key: string, k: I.Cont) {
    (job.Reading? || job.Holding? || job.Evicting?) && job.key == key && job.k == k
  }

  /** A read of an entry that expires can be made to wait for that, and finds nothing. */
  lemma ReadsNothing(r: I.Run, id: nat, key: string, k: I.Cont) returns (more: I.Run)
    requires r.Valid() && id in Last(r).jobs && InRead(Last(r).jobs[id], key, k)
    requires key in Last(r).m ==> Last(r).m[key].expiresAt.Some?
    requires Last(r).jobs[id].Holding? ==> Last(r).jobs[id].e.expiresAt.Some?
    ensures Continues(r, more)
    ensures Last(more) == Last(r).(m := Last(more).m, clock := Last(more).clock,
                                   jobs := Last(r).jobs[id := I.Resume(r.setup, k, None)])
  {
    more := r;
    if Last(r).jobs[id].Reading? {
      more := Think(r, id);
      if key !in Last(r).m {
        return;
      }
    }
    if Last(more).jobs[id].Holding? {
      more := HeldUntilDead(more, id);
    }
    more := Act(more, id);
  }

  /** A write, from its look at the clock to its request's end, which hands out no token. */
  lemma StoreRuns(r: I.Run, id: nat, key: string, data: Value, ttl: int, answer: Response) returns (more: I.Run)
    requires r.Valid() && id in Last(r).jobs && Last(r).jobs[id] == I.Stamping(key, data, ttl, I.Ended(answer))
    requires !answer.Pair?
    ensures Continues(r, more)
    ensures Last(more) == Last(r).(m := Store.Put(Last(r).m, key, Stamp(data, ttl, Last(r).clock), Last(r).clock),
                                   jobs := Last(r).jobs[id := I.Ended(answer)])
  {
    more := Think(r, id);
    more := Act(more, id);
  }

  /** The user's counter stands at `v`; at 0 there is none. */
  ghost predicate CounterIs(s: World, subject: string, v: int) {
    if VersionKey(subject) in s.m
    then s.m[VersionKey(subject)].Live(s.clock) && s.m[VersionKey(subject)].data == Version(v)
    else v == 0
  }

  /** A read of the user's counter returns it. */
  lemma CounterRead(r: I.Run, id: nat, subject: string, v: int, k: I.Cont)
    returns (more: I.Run, found: Option<Value>)
    requires AtRead(r, id, VersionKey(subject), k) && CounterIs(Last(r), subject, v)
    ensures Continues(r, more) && I.Number(found) == v
    ensures Last(more) == Last(r).(jobs := Last(r).jobs[id := I.Resume(r.setup, k, found)])
  {
    if VersionKey(subject) in Last(r).m {
      more := LiveRead(r, id, VersionKey(subject), k);
      found := Some(Version(v));
    } else {
      more := Think(r, id);
      found := None;
    }
  }

  lemma StoringKeepsCounter(s: World, s': World, subject: string, v: int, jti: string, e: Entry<Value>)
    requires CounterIs(s, subject, v) && s'.clock == s.clock && s'.m == Store.Put(s.m, SessionKey(jti), e, s.clock)
    ensures CounterIs(s', subject, v)
  {
    KeyFacts();
  }

  // ----- pairs -----

  function AccessOf(p: Setup, subject: string, now: int, name: string): Token
    requires !WeakSecret(p.jwt)
  {
    Sign(subject, "access", p.jwt, now, name).value
  }

  function RefreshOf(p: Setup, subject: string, now: int, name: string): Token
    requires !WeakSecret(p.jwt)
  {
    Sign(subject, "refresh", p.RefreshCfg(), now, name).value
  }

  ghost predicate AtSigning(r: I.Run, id: nat, subject: string, names: (string, string)) {
    && r.Valid() && id in Last(r).jobs && Last(r).jobs[id] == I.Signing(subject) && !WeakSecret(r.setup.jwt)
    && names.0 != names.1 && names.0 !in Last(r).drawn && names.1 !in Last(r).drawn
  }

  function Issuing(p: Setup, subject: string, now: int, names: (string, string)): I.Cont
    requires !WeakSecret(p.jwt)
  {
    I.ToIssue(subject, AccessOf(p, subject, now, names.0), RefreshOf(p, subject, now, names.1))
  }

  lemma SignRuns(r: I.Run, id: nat, subject: string, names: (string, string)) returns (more: I.Run)
    requires AtSigning(r, id, subject, names)
    ensures Continues(r, more)
    ensures var s := Last(r);
            var job := I.Reading(VersionKey(subject), Issuing(r.setup, subject, s.clock, names));
            Last(more) == s.(jobs := s.jobs[id := job], drawn := s.drawn + {names.0, names.1})
  {
    more := Draw(r, id, names);
  }

  /** The session is stored, and the pair released. */
  lemma PairStored(r: I.Run, id: nat, k: I.Cont, found: Option<Value>) returns (more: I.Run)
    requires r.Valid() && id in Last(r).jobs && k.ToIssue? && Last(r).jobs[id] == I.Resume(r.setup, k, found)
    ensures Continues(r, more)
    ensures var s := Last(r);
            var e := Stamp(Session(k.subject, I.Number(found)), r.setup.refreshExpiry, s.clock);
            Last(more) == s.(m := Store.Put(s.m, SessionKey(k.refresh.claims.id), e, s.clock),
                             jobs := s.jobs[id := I.Ended(Pair(k.access, k.refresh, Seconds(r.setup.jwt.expiry)))],
                             released := s.released + {k.access, k.refresh})
  {
    more := Think(r, id);
    more := Act(more, id);
  }

  /** A pair is signed, its session stored with the counter as it stands, and the pair released. */
  lemma IssueRuns(r: I.Run, id: nat, subject: string, v: int, names: (string, string)) returns (more: I.Run)
    requires AtSigning(r, id, subject, names) && CounterIs(Last(r), subject, v)
    ensures Continues(r, more)
    ensures var s, s', p := Last(r), Last(more), r.setup;
            var a, t := AccessOf(p, subject, s.clock, names.0), RefreshOf(p, subject, s.clock, names.1);
            && s'.jobs == s.jobs[id := I.Ended(Pair(a, t, Seconds(p.jwt.expiry)))]
            && s'.m == Store.Put(s.m, SessionKey(names.1),
                                 Stamp(Session(subject, v), p.refreshExpiry, s.clock), s.clock)
            && s'.released == s.released + {a, t} && s'.drawn == s.drawn + {names.0, names.1}
            && s'.requests == s.requests && s'.users == s.users && s'.clock == s.clock
  {
    var found: Option<Value>;
    more := SignRuns(r, id, subject, names);
    more, found := CounterRead(more, id, subject, v, Issuing(r.setup, subject, Last(r).clock, names));
    more := PairStored(more, id, Issuing(r.setup, subject, Last(r).clock, names), found);
  }

  /** Whatever the counter, signing leads to a pair. */
  lemma PairRuns(r: I.Run, id: nat, subject: string) returns (more: I.Run)
    requires r.Valid() && id in Last(r).jobs && Last(r).jobs[id] == I.Signing(subject) && !WeakSecret(r.setup.jwt)
    ensures Continues(r, more)
    ensures var s, s' := Last(r), Last(more);
            && id in s'.jobs && s'.jobs == s.jobs[id := s'.jobs[id]] && s'.jobs[id].Ended? && s'.jobs[id].answer.Pair?
            && s'.requests == s.requests && s'.users == s.users
  {
    var a, b := NamesRemain(Last(r).drawn);
    var found: Option<Value>;
    more := SignRuns(r, id, subject, (a, b));
    more, found := AnyRead(more, id, VersionKey(subject), Issuing(r.setup, subject, Last(r).clock, (a, b)));
    more := PairStored(more, id, Issuing(r.setup, subject, Last(r).clock, (a, b)), found);
  }

  // ----- whole requests -----

  /** A login with the right password waits at its signing. */
  lemma LoginUpToSigning(r: I.Run, id: nat, email: string, password: string, u: string) returns (more: I.Run)
    requires r.Valid() && id !in Last(r).jobs
    requires FindByEmail(Last(r).users, email) == Some(u) && Last(r).users[u].password == Bcrypt(password)
    ensures Continues(r, more)
    ensures var s := Last(r);
            Last(more) == s.(jobs := s.jobs[id := I.Signing(u)],
                             requests := s.requests[id := Login(email, password, "", "")])
  {
    more := Extend(r, I.Arrive(id, Login(email, password, "", "")));
    more := Think(more, id);
  }

  /** A reset ticket is stored. */
  lemma ForgotRuns(r: I.Run, id: nat, email: string, u: string, names: (string, string)) returns (more: I.Run)
    requires r.Valid() && id !in Last(r).jobs && FindByEmail(Last(r).users, email) == Some(u)
    requires names.0 != names.1 && names.0 !in Last(r).drawn && names.1 !in Last(r).drawn
    ensures Continues(r, more)
    ensures var s := Last(r);
            Last(more) == s.(m := Store.Put(s.m, ResetKey(names.0), Stamp(Email(email), RESET_TTL, s.clock), s.clock),
                             jobs := s.jobs[id := I.Ended(ResetIssued(names.0))],
                             requests := s.requests[id := ForgotPassword(email, "")],
                             drawn := s.drawn + {names.0, names.1})
  {
    more := Extend(r, I.Arrive(id, ForgotPassword(email, "")));
    more := Draw(more, id, names);
    more := StoreRuns(more, id, ResetKey(names.0), Email(email), RESET_TTL, ResetIssued(names.0));
  }

  /** A reset with a live ticket has read the holder's row. */
  lemma ResetUpToSaving(r: I.Run, id: nat, ticket: string, address: string, u: string, password: string)
    returns (more: I.Run)
    requires r.Valid() && id !in Last(r).jobs && |password| <= MAX_PASSWORD
    requires ResetKey(ticket) in Last(r).m && Last(r).m[ResetKey(ticket)].Live(Last(r).clock)
    requires Last(r).m[ResetKey(ticket)].data == Email(address) && FindByEmail(Last(r).users, address) == Some(u)
    ensures Continues(r, more)
    ensures var s := Last(r);
            Last(more) == s.(jobs := s.jobs[id := I.Saving(ticket, u, s.users[u].(password := Bcrypt(password)))],
                             requests := s.requests[id := ResetPassword(ticket, password)])
  {
    more := Extend(r, I.Arrive(id, ResetPassword(ticket, password)));
    more := Think(more, id);
    more := LiveRead(more, id, ResetKey(ticket), I.ToReset(ticket, password));
    assert Last(more).jobs[id] == I.FindHolder(ticket, password, address);
    more := Think(more, id);
  }

  /** It saves the row and uses up the ticket. */
  lemma SaveRuns(r: I.Run, id: nat, ticket: string, u: string, user: User) returns (more: I.Run)
    requires r.Valid() && id in Last(r).jobs && Last(r).jobs[id] == I.Saving(ticket, u, user)
    ensures Continues(r, more)
    ensures var s := Last(r);
            Last(more) == s.(users := s.users[u := user], m := s.m - {ResetKey(ticket)},
                             jobs := s.jobs[id := I.Reading(VersionKey(u), I.ToBump(u))],
                             deleted := s.deleted + {ResetKey(ticket)})
  {
    more := Act(r, id);
    more := Act(more, id);
  }

  /** It bumps the counter. */
  lemma BumpRuns(r: I.Run, id: nat, u: string, v: int) returns (more: I.Run)
    requires AtRead(r, id, VersionKey(u), I.ToBump(u)) && CounterIs(Last(r), u, v)
    ensures Continues(r, more)
    ensures var s := Last(r);
            Last(more) == s.(m := Store.Put(s.m, VersionKey(u), Stamp(Version(v + 1), VERSION_TTL, s.clock), s.clock),
                             jobs := s.jobs[id := I.Ended(Done)])
  {
    var found: Option<Value>;
    more, found := CounterRead(r, id, u, v, I.ToBump(u));
    more := StoreRuns(more, id, VersionKey(u), Version(v + 1), VERSION_TTL, Done);
  }

  /** Whatever the counter, it ends well. */
  lemma BumpEnds(r: I.Run, id: nat, u: string) returns (more: I.Run)
    requires AtRead(r, id, VersionKey(u), I.ToBump(u))
    ensures Continues(r, more)
    ensures Last(more) == Last(r).(m := Last(more).m, jobs := Last(r).jobs[id := I.Ended(Done)])
  {
    var found: Option<Value>;
    more, found := AnyRead(r, id, VersionKey(u), I.ToBump(u));
    more := StoreRuns(more, id, VersionKey(u), Version(I.Number(found) + 1), VERSION_TTL, Done);
  }

  /** The session of `t` is stored, good, and recorded the counter as it now stands, `v`. */
  ghost predicate Refreshable(p: Setup, s: World, t: Token, v: int) {
    && t in s.released && Verifies(t, p.RefreshCfg(), s.clock) && !WeakSecret(p.jwt)
    && SessionKey(t.claims.id) in s.m && s.m[SessionKey(t.claims.id)].Live(s.clock)
    && s.m[SessionKey(t.claims.id)].data == Session(t.claims.subject, v)
    && CounterIs(s, t.claims.subject, v) && t.claims.subject in s.users
  }

  /** A Refresh runs up to its Del, and waits there. */
  lemma RefreshUpToDel(r: I.Run, id: nat, t: Token, v: int) returns (more: I.Run)
    requires r.Valid() && id !in Last(r).jobs && Refreshable(r.setup, Last(r), t, v)
    ensures Continues(r, more)
    ensures var job := I.Deleting(SessionKey(t.claims.id), I.FindUser(t.claims.subject));
            Last(more) == Last(r).(jobs := Last(r).jobs[id := job],
                                   requests := Last(r).requests[id := Refresh(t, "", "")])
  {
    more := Extend(r, I.Arrive(id, Refresh(t, "", "")));
    more := Think(more, id);
    assert Last(more).jobs[id] == I.Reading(SessionKey(t.claims.id), I.ToRefresh(t));
    more := LiveRead(more, id, SessionKey(t.claims.id), I.ToRefresh(t));
    var found: Option<Value>;
    more, found := CounterRead(more, id, t.claims.subject, v, I.ToRotate(t, v));
  }

  /** A Refresh about to delete its session, whose user is there. */
  ghost predicate AtDel(r: I.Run, id: nat, jti: string, subject: string) {
    && r.Valid() && id in Last(r).jobs && Last(r).jobs[id] == I.Deleting(SessionKey(jti), I.FindUser(subject))
    && subject in Last(r).users
  }

  /** From its Del on, a Refresh looks at no session any more. */
  lemma RefreshFromDel(r: I.Run, id: nat, jti: string, subject: string) returns (more: I.Run)
    requires AtDel(r, id, jti, subject) && !WeakSecret(r.setup.jwt)
    ensures Continues(r, more)
    ensures var s, s' := Last(r), Last(more);
            && id in s'.jobs && s'.jobs == s.jobs[id := s'.jobs[id]] && s'.jobs[id].Ended? && s'.jobs[id].answer.Pair?
            && s'.requests == s.requests && s'.users == s.users
  {
    more := Act(r, id);
    assert Last(more).jobs[id] == I.FindUser(subject);
    more := Think(more, id);
    more := PairRuns(more, id, subject);
  }
}
