/** The interleaved protocol with nothing in between is the serial one: a request that runs alone
    answers, and leaves behind, what AuthSpec says, whatever dead entries the cache still holds. */
module AuthSolo {
  import opened Ttl
  import opened Tokens
  import opened AuthSpec
  import opened AuthInvariant
  import opened AuthDrive
  import I = AuthInterleaved
  import Store = Cache

  /** The two models are in the same state: same users, same tokens handed out, and a cache that
      answers alike. */
  ghost predicate Agrees(w: World, s: State) {
    w.users == s.users && w.released == s.issued && Store.Refines("", w.m, s.cache, w.clock)
  }

  /** From `r` on, the run has only had steps of request `id`, and the clock stood still. */
  ghost predicate Alone(r: I.Run, more: I.Run, id: nat) {
    && r.Valid() && Continues(r, more) && Last(more).clock == Last(r).clock
    && forall i: nat :: |r.acts| <= i < |more.acts| ==>
         (more.acts[i].Go? || more.acts[i].Arrive?) && more.acts[i].id == id
  }

  lemma Further(r: I.Run, more: I.Run, most: I.Run, id: nat)
    requires Alone(r, more, id) && Alone(more, most, id)
    ensures Alone(r, most, id)
  {
    forall i: nat | |r.acts| <= i < |most.acts|
      ensures (most.acts[i].Go? || most.acts[i].Arrive?) && most.acts[i].id == id
    {
      if i < |more.acts| {
        assert most.acts[i] == more.acts[i];
      }
    }
  }

  /** Request `id` is at `job`, and the models agree. */
  ghost predicate At(r: I.Run, id: nat, job: Job, s: State) {
    r.Valid() && id in Last(r).jobs && Last(r).jobs[id] == job && Agrees(Last(r), s)
  }

  /** The request has ended, and the models still agree: in the answer and in the state. */
  ghost predicate EndsAs(r: I.Run, more: I.Run, id: nat, result: (State, Response)) {
    Alone(r, more, id) && At(more, id, I.Ended(result.1), result.0)
  }

  // ----- single steps -----

  /** One step of the request, with names at hand that it may draw. */
  lemma Steps(r: I.Run, id: nat, names: (string, string)) returns (more: I.Run)
    requires r.Valid() && id in Last(r).jobs && !Last(r).jobs[id].Ended? && New(Last(r), names)
    ensures Alone(r, more, id) && Last(more) == I.Run1(r.setup, Last(r), id, names.0, names.1)
  {
    more := Extend(r, I.Go(id, names.0, names.1));
  }

  ghost predicate New(w: World, names: (string, string)) {
    names.0 != names.1 && names.0 !in w.drawn && names.1 !in w.drawn
  }

  lemma Goes(r: I.Run, id: nat) returns (more: I.Run)
    requires r.Valid() && id in Last(r).jobs && !Last(r).jobs[id].Ended? && !I.Draws(Last(r).jobs[id])
    ensures Alone(r, more, id) && Last(more) == I.Run1(r.setup, Last(r), id, "", "")
  {
    var a, b := NamesRemain(Last(r).drawn);
    more := Steps(r, id, (a, b));
  }

  /** A step that only thinks. */
  lemma Thinks(r: I.Run, id: nat, job: Job, s: State) returns (more: I.Run)
    requires At(r, id, job, s) && !job.Ended? && !I.Draws(job)
    requires !job.Saving? && !job.Evicting? && !job.Deleting? && !job.Putting?
    ensures Alone(r, more, id) && At(more, id, I.Next(r.setup, Last(r), job, "", ""), s)
    ensures Last(more).drawn == Last(r).drawn && Last(more).m == Last(r).m
  {
    more := Goes(r, id);
  }

  /** A read answers what the serial model looks up. */
  lemma Reads(r: I.Run, id: nat, key: string, k: I.Cont, s: State) returns (more: I.Run)
    requires At(r, id, I.Reading(key, k), s)
    ensures Alone(r, more, id) && At(more, id, I.Resume(r.setup, k, Lookup(s.cache, key, Last(r).clock)), s)
    ensures Last(more).drawn == Last(r).drawn
  {
    var w := Last(r);
    assert Store.Prefixed("", key) == key;
    Store.EvictRefines("", w.m, s.cache, w.clock, key, w.clock);
    more := Thinks(r, id, I.Reading(key, k), s);
    if key in w.m {
      var e := w.m[key];
      var last := Thinks(more, id, I.Holding(key, e, k), s);
      Further(r, more, last, id);
      more := last;
      if !e.Live(w.clock) {
        last := Goes(more, id);
        assert Last(last).m == Store.Evict(w.m, key, w.clock);
        Further(r, more, last, id);
        more := last;
      }
    }
  }

  lemma OneKey(key: string)
    ensures Store.FullKeys("", [key]) == {key} && Store.KeySet([key]) == {key}
  {
    assert key in [key] && Store.Prefixed("", key) == key;
  }

  lemma Deletes(r: I.Run, id: nat, key: string, next: Job, s: State) returns (more: I.Run)
    requires At(r, id, I.Deleting(key, next), s)
    ensures Alone(r, more, id) && At(more, id, next, s.(cache := s.cache - {key})) && Last(more).drawn == Last(r).drawn
  {
    OneKey(key);
    Store.DeleteRefines("", Last(r).m, s.cache, Last(r).clock, [key]);
    more := Goes(r, id);
  }

  /** A write, which hands out the pair it ends with, if any. */
  lemma Stores(r: I.Run, id: nat, key: string, data: Value, ttl: int, a: Response, s: State) returns (more: I.Run)
    requires At(r, id, I.Stamping(key, data, ttl, I.Ended(a)), s)
    ensures Alone(r, more, id)
    ensures At(more, id, I.Ended(a),
               s.(cache := s.cache[key := Stamp(data, ttl, Last(r).clock)],
                  issued := if a.Pair? then s.issued + {a.access, a.refresh} else s.issued))
  {
    var w := Last(r);
    var e := Stamp(data, ttl, w.clock);
    assert Store.Prefixed("", key) == key;
    Store.PutRefines("", w.m, s.cache, w.clock, key, e, w.clock);
    var first := Thinks(r, id, I.Stamping(key, data, ttl, I.Ended(a)), s);
    more := Goes(first, id);
    Further(r, first, more, id);
  }

  lemma Arrives(r: I.Run, id: nat, q: Request, s: State) returns (more: I.Run)
    requires r.Valid() && id !in Last(r).jobs && I.Enabled(r.setup, Last(r), I.Arrive(id, q)) && Agrees(Last(r), s)
    ensures Alone(r, more, id) && At(more, id, I.Arrived(q), s) && Last(more).drawn == Last(r).drawn
  {
    more := Extend(r, I.Arrive(id, q));
  }

  // ----- the requests -----

  /** Signing and storing a pair. */
  lemma IssuesAlone(r: I.Run, id: nat, subject: string, names: (string, string), s: State) returns (more: I.Run)
    requires At(r, id, I.Signing(subject), s) && New(Last(r), names)
    ensures EndsAs(r, more, id, IssuePair(r.setup, s, subject, Last(r).clock, names.0, names.1))
  {
    more := Steps(r, id, names);
    if !WeakSecret(r.setup.jwt) {
      var k := Issuing(r.setup, subject, Last(r).clock, names);
      var read := Reads(more, id, VersionKey(subject), k, s);
      Further(r, more, read, id);
      var a := Pair(k.access, k.refresh, Seconds(r.setup.jwt.expiry));
      var version := CurrentVersion(s.cache, subject, Last(r).clock);
      more := Stores(read, id, SessionKey(names.1), Session(subject, version), r.setup.refreshExpiry, a, s);
      Further(r, read, more, id);
    }
  }

  lemma LoginAlone(r: I.Run, id: nat, q: Request, names: (string, string), s: State) returns (more: I.Run)
    requires At(r, id, I.Arrived(q), s) && q.Login? && New(Last(r), names)
    ensures EndsAs(r, more, id, LoginStep(r.setup, s, Named(q, names), Last(r).clock))
  {
    more := Thinks(r, id, I.Arrived(q), s);
    if Last(more).jobs[id].Signing? {
      var last := IssuesAlone(more, id, Last(more).jobs[id].subject, names, s);
      Further(r, more, last, id);
      more := last;
    }
  }

  lemma RefreshAlone(r: I.Run, id: nat, q: Request, names: (string, string), s: State) returns (more: I.Run)
    requires At(r, id, I.Arrived(q), s) && q.Refresh? && New(Last(r), names)
    ensures EndsAs(r, more, id, RefreshStep(r.setup, s, Named(q, names), Last(r).clock))
  {
    var t := q.token;
    more := Thinks(r, id, I.Arrived(q), s);
    if Last(more).jobs[id].Reading? {
      var last := Reads(more, id, SessionKey(t.claims.id), I.ToRefresh(t), s);
      Further(r, more, last, id);
      more := last;
    }
    if Last(more).jobs[id].Reading? {
      var last := RefreshAtCounter(more, id, t, Last(more).jobs[id].k.version, names, s);
      Further(r, more, last, id);
      more := last;
    }
  }

  lemma RefreshAtCounter(r: I.Run, id: nat, t: Token, version: int, names: (string, string), s: State)
    returns (more: I.Run)
    requires At(r, id, I.Reading(VersionKey(t.claims.subject), I.ToRotate(t, version)), s) && New(Last(r), names)
    ensures var spent, u := s.(cache := s.cache - {SessionKey(t.claims.id)}), t.claims.subject;
            EndsAs(r, more, id,
                   if version < CurrentVersion(s.cache, u, Last(r).clock) || u !in s.users then (spent, InvalidToken)
                   else IssuePair(r.setup, spent, u, Last(r).clock, names.0, names.1))
  {
    var spent, u := s.(cache := s.cache - {SessionKey(t.claims.id)}), t.claims.subject;
    var read := Reads(r, id, VersionKey(u), I.ToRotate(t, version), s);
    more := Deletes(read, id, SessionKey(t.claims.id), Last(read).jobs[id].next, s);
    Further(r, read, more, id);
    if Last(more).jobs[id].FindUser? {
      var last := FindsUserAlone(more, id, u, names, spent);
      Further(r, more, last, id);
      more := last;
    }
  }

  lemma FindsUserAlone(r: I.Run, id: nat, u: string, names: (string, string), s: State) returns (more: I.Run)
    requires At(r, id, I.FindUser(u), s) && New(Last(r), names)
    ensures EndsAs(r, more, id, if u !in s.users then (s, InvalidToken)
                                else IssuePair(r.setup, s, u, Last(r).clock, names.0, names.1))
  {
    more := Thinks(r, id, I.FindUser(u), s);
    if u in s.users {
      var last := IssuesAlone(more, id, u, names, s);
      Further(r, more, last, id);
      more := last;
    }
  }

  lemma LogoutAlone(r: I.Run, id: nat, q: Request, s: State) returns (more: I.Run)
    requires At(r, id, I.Arrived(q), s) && q.Logout?
    requires q.later == Readings(Last(r).clock, Last(r).clock, Last(r).clock, Last(r).clock, Last(r).clock)
    ensures EndsAs(r, more, id, LogoutStep(r.setup, s, q, Last(r).clock))
  {
    more := Thinks(r, id, I.Arrived(q), s);
    if Last(more).jobs[id].LogoutRefresh? {
      var t := q.refresh.value;
      var last := Thinks(more, id, I.LogoutRefresh(t), s);
      Further(r, more, last, id);
      more := last;
      if Last(more).jobs[id].Deleting? {
        last := Deletes(more, id, SessionKey(t.claims.id), I.Ended(Done), s);
        Further(r, more, last, id);
        more := last;
      }
    }
  }

  lemma ForgotAlone(r: I.Run, id: nat, q: Request, names: (string, string), s: State) returns (more: I.Run)
    requires At(r, id, I.Arrived(q), s) && q.ForgotPassword? && New(Last(r), names)
    ensures EndsAs(r, more, id, ForgotStep(s, Named(q, names), Last(r).clock))
  {
    more := Steps(r, id, names);
    if Last(more).jobs[id].Stamping? {
      var u := FindByEmail(s.users, q.email).value;
      var last := Stores(more, id, ResetKey(names.0), Email(s.users[u].email), RESET_TTL, ResetIssued(names.0), s);
      Further(r, more, last, id);
      more := last;
    }
  }

  lemma ResetAlone(r: I.Run, id: nat, q: Request, s: State) returns (more: I.Run)
    requires At(r, id, I.Arrived(q), s) && q.ResetPassword?
    ensures EndsAs(r, more, id, ResetStep(s, q, Last(r).clock))
  {
    var k := I.ToReset(q.ticket, q.password);
    var first := Thinks(r, id, I.Arrived(q), s);
    more := Reads(first, id, ResetKey(q.ticket), k, s);
    Further(r, first, more, id);
    if Last(more).jobs[id].FindHolder? {
      var address := Last(more).jobs[id].address;
      var last := Thinks(more, id, I.FindHolder(q.ticket, q.password, address), s);
      Further(r, more, last, id);
      more := last;
      if Last(more).jobs[id].Saving? {
        var u := FindByEmail(s.users, address).value;
        last := SavesAlone(more, id, q.ticket, u, s.users[u].(password := Bcrypt(q.password)), s);
        Further(r, more, last, id);
        more := last;
      }
    }
  }

  lemma SavesAlone(r: I.Run, id: nat, ticket: string, u: string, user: User, s: State) returns (more: I.Run)
    requires At(r, id, I.Saving(ticket, u, user), s)
    ensures EndsAs(r, more, id, (s.(users := s.users[u := user],
                                    cache := Bumped(s.cache - {ResetKey(ticket)}, u, Last(r).clock)), Done))
  {
    var bump := I.Reading(VersionKey(u), I.ToBump(u));
    var saved := s.(users := s.users[u := user]);
    var first := Goes(r, id);
    assert At(first, id, I.Deleting(ResetKey(ticket), bump), saved);
    more := Deletes(first, id, ResetKey(ticket), bump, saved);
    Further(r, first, more, id);
    var spent := saved.(cache := s.cache - {ResetKey(ticket)});
    var last := Reads(more, id, VersionKey(u), I.ToBump(u), spent);
    Further(r, more, last, id);
    var version := CurrentVersion(spent.cache, u, Last(r).clock) + 1;
    more := Stores(last, id, VersionKey(u), Version(version), VERSION_TTL, Done, spent);
    Further(r, last, more, id);
  }

  /** The request with the names it draws. */
  function Named(q: Request, names: (string, string)): Request {
    match q
    case Login(email, password, _, _) => Login(email, password, names.0, names.1)
    case Refresh(token, _, _) => Refresh(token, names.0, names.1)
    case ForgotPassword(email, _) => ForgotPassword(email, names.0)
    case _ => q
  }

  /** In every reachable state, with any other requests waiting at any point: a request that arrives
      and runs with nothing in between does exactly what the serial protocol says. */
  lemma AloneIsSerial(r: I.Run, id: nat, q: Request, names: (string, string), s: State) returns (more: I.Run)
    requires r.Valid() && id !in Last(r).jobs && I.Enabled(r.setup, Last(r), I.Arrive(id, q))
    requires Agrees(Last(r), s) && New(Last(r), names)
    requires q.Logout? ==>
               q.later == Readings(Last(r).clock, Last(r).clock, Last(r).clock, Last(r).clock, Last(r).clock)
    ensures EndsAs(r, more, id, Step(r.setup, s, Named(q, names), Last(r).clock))
  {
    var here := Arrives(r, id, q, s);
    match q {
      case Login(_, _, _, _) => more := LoginAlone(here, id, q, names, s);
      case Refresh(_, _, _) => more := RefreshAlone(here, id, q, names, s);
      case Logout(_, _, _) => more := LogoutAlone(here, id, q, s);
      case ForgotPassword(_, _) => more := ForgotAlone(here, id, q, names, s);
      case ResetPassword(_, _) => more := ResetAlone(here, id, q, s);
    }
    Further(r, here, more, id);
  }
}
