/** The session protocol with any number of requests in flight (internal/usecase/auth_usecase.go
    on internal/repository/memory/cache.go). Every access to the users or the cache is a step;
    a cache read is three (copy, compare with the clock, delete if dead) and a write is two
    (read the clock, store). */
module AuthInterleaved {
  import opened Ttl
  import opened Tokens
  import opened AuthSpec
  import opened AuthInvariant
  import Store = Cache

  /** What a request does with the answer of a cache read. */
  datatype Cont =
    | ToRefresh(token: Token)
    | ToRotate(token: Token, version: int)
    | ToIssue(subject: string, access: Token, refresh: Token)
    | ToReset(ticket: string, password: string)
    | ToBump(id: string)

  /** What a request does next. */
  datatype Job =
    | Arrived(request: Request)
    | LogoutRefresh(refresh: Token)
    | FindUser(subject: string)
    | Signing(subject: string)
    | FindHolder(ticket: string, password: string, address: string)
    | Saving(ticket: string, id: string, user: User)
    | Reading(key: string, k: Cont)
    | Holding(key: string, e: Entry<Value>, k: Cont)
    | Evicting(key: string, k: Cont)
    | Deleting(key: string, next: Job)
    | Stamping(key: string, data: Value, ttl: int, next: Job)
    | Putting(key: string, e: Entry<Value>, next: Job)
    | Ended(answer: Response)

  /** `deleted` remembers the keys a Del has run for, `released` the tokens handed out, `drawn`
      the random names used, and `requests` what each request was. */
  datatype World = World(users: map<string, User>, m: AuthSpec.Cache, clock: int, jobs: map<nat, Job>,
                         requests: map<nat, Request>, released: set<Token>, drawn: set<string>, deleted: set<string>)

  /** A step of a request may draw two random names. */
  datatype Action =
    | Tick(now: int)
    | Arrive(id: nat, request: Request)
    | Go(id: nat, name1: string, name2: string)
    | ChangeUsers(users: map<string, User>)

  ghost predicate Known(p: Setup, s: World, t: Token) {
    t.alg == HS256 && t.key == p.jwt.secret ==> t in s.released
  }

  ghost predicate Enabled(p: Setup, s: World, a: Action) {
    match a
    case Tick(now) => s.clock <= now
    case Arrive(id, q) =>
      && id !in s.jobs
      && (match q
          case Login(_, _, _, _) => true
          case Refresh(t, _, _) => Known(p, s, t)
          case Logout(access, refresh, _) => Known(p, s, access) && (refresh.Some? ==> Known(p, s, refresh.value))
          case ForgotPassword(_, _) => true
          case ResetPassword(_, _) => true
          case _ => false)
    case Go(id, name1, name2) =>
      && id in s.jobs && !s.jobs[id].Ended?
      && name1 != name2 && name1 !in s.drawn && name2 !in s.drawn
    case ChangeUsers(_) => true
  }

  /** The answer of a cache read arrives. */
  function Resume(p: Setup, k: Cont, found: Option<Value>): Job {
    match k
    case ToRefresh(t) =>
      (match found
       case None => Ended(InvalidToken)
       case Some(v) =>
         if !v.Session? then Ended(Failed)
         else if v.subject != t.claims.subject then Ended(InvalidToken)
         else Reading(VersionKey(t.claims.subject), ToRotate(t, v.version)))
    case ToRotate(t, version) =>
      Deleting(SessionKey(t.claims.id),
               if version < Number(found) then Ended(InvalidToken) else FindUser(t.claims.subject))
    case ToIssue(subject, access, refresh) =>
      Stamping(SessionKey(refresh.claims.id), Session(subject, Number(found)), p.refreshExpiry,
               Ended(Pair(access, refresh, Seconds(p.jwt.expiry))))
    case ToReset(ticket, password) =>
      (match found
       case None => Ended(InvalidToken)
       case Some(v) => if v.Email? then FindHolder(ticket, password, v.address) else Ended(Failed))
    case ToBump(id) =>
      Stamping(VersionKey(id), Version(Number(found) + 1), VERSION_TTL, Ended(Done))
  }

  function Number(found: Option<Value>): int {
    if found.Some? && found.value.Version? then found.value.number else 0
  }

  ghost function Start(p: Setup, s: World, q: Request, name: string): Job {
    match q
    case Login(email, password, _, _) =>
      var id := FindByEmail(s.users, email);
      if id.Some? && s.users[id.value].password == Bcrypt(password) then Signing(id.value)
      else Ended(InvalidCredentials)
    case Refresh(t, _, _) =>
      if Verifies(t, p.RefreshCfg(), s.clock) then Reading(SessionKey(t.claims.id), ToRefresh(t))
      else Ended(InvalidToken)
    case Logout(access, refresh, _) =>
      if !Verifies(access, p.jwt, s.clock) then Ended(InvalidToken)
      else if refresh.Some? then LogoutRefresh(refresh.value) else Ended(Done)
    case ForgotPassword(email, _) =>
      var id := FindByEmail(s.users, email);
      if id.None? then Ended(NoAccount)
      else Stamping(ResetKey(name), Email(s.users[id.value].email), RESET_TTL, Ended(ResetIssued(name)))
    case ResetPassword(ticket, password) => Reading(ResetKey(ticket), ToReset(ticket, password))
    case _ => Ended(Failed)
  }

  ghost function SignBoth(p: Setup, s: World, subject: string, name1: string, name2: string): Job {
    match (Sign(subject, "access", p.jwt, s.clock, name1), Sign(subject, "refresh", p.RefreshCfg(), s.clock, name2))
    case (Some(access), Some(refresh)) => Reading(VersionKey(subject), ToIssue(subject, access, refresh))
    case _ => Ended(Failed)
  }

  /** The row of the address's holder, with the new password. */
  ghost function FindHolderOf(s: World, ticket: string, password: string, address: string): Job {
    var id := FindByEmail(s.users, address);
    if id.None? || |password| > MAX_PASSWORD then Ended(Failed)
    else Saving(ticket, id.value, s.users[id.value].(password := Bcrypt(password)))
  }

  /** The request's next job. */
  ghost function Next(p: Setup, s: World, job: Job, name1: string, name2: string): Job {
    match job
    case Arrived(q) => Start(p, s, q, name1)
    case LogoutRefresh(t) =>
      if Verifies(t, p.RefreshCfg(), s.clock) then Deleting(SessionKey(t.claims.id), Ended(Done)) else Ended(Done)
    case FindUser(subject) => if subject in s.users then Signing(subject) else Ended(InvalidToken)
    case Signing(subject) => SignBoth(p, s, subject, name1, name2)
    case FindHolder(ticket, password, address) => FindHolderOf(s, ticket, password, address)
    case Saving(ticket, id, _) => Deleting(ResetKey(ticket), Reading(VersionKey(id), ToBump(id)))
    case Reading(key, k) => if key in s.m then Holding(key, s.m[key], k) else Resume(p, k, None)
    case Holding(key, e, k) => if e.Live(s.clock) then Resume(p, k, Some(e.data)) else Evicting(key, k)
    case Evicting(_, k) => Resume(p, k, None)
    case Deleting(_, next) => next
    case Stamping(key, data, ttl, next) => Putting(key, Stamp(data, ttl, s.clock), next)
    case Putting(_, _, next) => next
    case Ended(_) => job
  }

  /** The steps that use the random names offered to them. */
  predicate Draws(job: Job) {
    job.Signing? || (job.Arrived? && job.request.ForgotPassword?)
  }

  ghost function Run1(p: Setup, s: World, id: nat, name1: string, name2: string): World
    requires id in s.jobs
  {
    var job := s.jobs[id];
    World(if job.Saving? then s.users[job.id := job.user] else s.users,
          if job.Evicting? || job.Deleting? then s.m - {job.key}
          else if job.Putting? then Store.Put(s.m, job.key, job.e, s.clock) else s.m,
          s.clock,
          s.jobs[id := Next(p, s, job, name1, name2)],
          s.requests,
          if job.Putting? && job.next.Ended? && job.next.answer.Pair?
          then s.released + {job.next.answer.access, job.next.answer.refresh} else s.released,
          if Draws(job) then s.drawn + {name1, name2} else s.drawn,
          if job.Deleting? then s.deleted + {job.key} else s.deleted)
  }

  ghost function Advance(p: Setup, s: World, a: Action): World
    requires Enabled(p, s, a)
  {
    match a
    case Tick(now) => s.(clock := now)
    case Arrive(id, q) => s.(jobs := s.jobs[id := Arrived(q)], requests := s.requests[id := q])
    case Go(id, name1, name2) => Run1(p, s, id, name1, name2)
    case ChangeUsers(users) => s.(users := users)
  }

  ghost predicate Initial(s: World) {
    s.m == map[] && s.jobs == map[] && s.requests == map[] && s.released == {} && s.drawn == {} && s.deleted == {}
  }

  datatype Run = Run(setup: Setup, states: seq<World>, acts: seq<Action>) {
    ghost predicate Takes(i: nat) {
      i < |acts| && |states| == |acts| + 1
      && Enabled(setup, states[i], acts[i]) && states[i + 1] == Advance(setup, states[i], acts[i])
    }

    ghost predicate Valid() {
      && |states| == |acts| + 1 && Initial(states[0])
      && forall i: nat :: i < |acts| ==> Takes(i)
    }
  }

  // ----- what every step keeps -----

  ghost predicate Ours(p: Setup, s: World, t: Token) {
    && t.alg == HS256 && t.key == p.jwt.secret && !WeakSecret(p.jwt)
    && t.claims.id in s.drawn && t.claims.issuedAt <= s.clock && t.claims.notBefore <= s.clock
  }

  ghost predicate Released(s: World, jti: string) {
    exists t :: t in s.released && t.claims.id == jti
  }

  /** A job holds a pair it has signed and not yet stored. */
  predicate Carries(job: Job) {
    || ((job.Reading? || job.Holding? || job.Evicting?) && job.k.ToIssue?)
    || ((job.Stamping? || job.Putting?) && job.next.Ended? && job.next.answer.Pair?)
  }

  function Carried(job: Job): (Token, Token)
    requires Carries(job)
  {
    if job.Stamping? || job.Putting? then (job.next.answer.access, job.next.answer.refresh)
    else (job.k.access, job.k.refresh)
  }

  /** A pair nobody has seen: its names are in no released token, and its session was never
      stored nor deleted. */
  ghost predicate Unseen(p: Setup, s: World, pair: (Token, Token)) {
    && Ours(p, s, pair.0) && Ours(p, s, pair.1)
    && pair.0.claims.id != pair.1.claims.id
    && pair.1.claims.tokenType == "refresh" && pair.0.claims.tokenType == "access"
    && pair.1.claims.expiresAt <= s.clock + Lifetime(p.RefreshCfg())
    && !Released(s, pair.0.claims.id) && !Released(s, pair.1.claims.id)
    && SessionKey(pair.1.claims.id) !in s.m && SessionKey(pair.1.claims.id) !in s.deleted
  }

  ghost predicate IsSessionKey(key: string) { exists jti :: key == SessionKey(jti) }

  /** Tokens a request presents are not forged, and those it has verified are released. */
  ghost predicate PresentsOk(p: Setup, s: World, job: Job) {
    match job
    case Arrived(Refresh(t, _, _)) => Known(p, s, t)
    case Arrived(Logout(access, refresh, _)) => refresh.Some? ==> Known(p, s, refresh.value)
    case LogoutRefresh(t) => Known(p, s, t)
    case Reading(key, k) => ContOk(s, k)
    case Holding(key, e, k) => ContOk(s, k)
    case Evicting(key, k) => ContOk(s, k)
    case _ => true
  }

  ghost predicate ContOk(s: World, k: Cont) {
    match k
    case ToRefresh(t) => t in s.released
    case ToRotate(t, _) => t in s.released
    case ToIssue(subject, _, refresh) => subject == refresh.claims.subject
    case _ => true
  }

  /** Deletions and reads of sessions are of released tokens' sessions; writes of sessions carry
      their pair, and an entry about to be stored or just copied backs its token. */
  ghost predicate KeysOk(p: Setup, s: World, job: Job) {
    match job
    case Deleting(key, next) =>
      && (forall jti :: key == SessionKey(jti) ==> Released(s, jti))
      && (next.Ended? || next.FindUser? || (next.Reading? && next.k.ToBump? && !IsSessionKey(next.key)))
    case Reading(key, k) => IsSessionKey(key) ==> k.ToRefresh? && key == SessionKey(k.token.claims.id)
    case Holding(key, e, k) =>
      && (IsSessionKey(key) ==> k.ToRefresh? && key == SessionKey(k.token.claims.id))
      && (forall jti :: key == SessionKey(jti) ==> EntryOk(s, jti, e))
    case Evicting(key, k) =>
      && (IsSessionKey(key) ==> k.ToRefresh? && key == SessionKey(k.token.claims.id))
      && (forall jti :: key == SessionKey(jti) ==> Released(s, jti) && Expired(s, jti))
    case Stamping(key, data, ttl, next) =>
      && next.Ended?
      && (IsSessionKey(key) <==> Carries(job))
      && (Carries(job) ==> key == SessionKey(Carried(job).1.claims.id) && ttl == p.refreshExpiry
                            && data.Session? && data.subject == Carried(job).1.claims.subject)
    case Putting(key, e, next) =>
      && next.Ended?
      && (IsSessionKey(key) <==> Carries(job))
      && (Carries(job) ==> key == SessionKey(Carried(job).1.claims.id) && Backs(Carried(job).1, e))
    case _ => true
  }

  /** `e` is a session of the released refresh token named `jti`. */
  ghost predicate EntryOk(s: World, jti: string, e: Entry<Value>) {
    exists t :: t in s.released && t.claims.id == jti && Backs(t, e)
  }

  ghost predicate Expired(s: World, jti: string) {
    forall t :: t in s.released && t.claims.id == jti ==> t.claims.expiresAt <= s.clock
  }

  ghost predicate JobOk(p: Setup, s: World, job: Job) {
    PresentsOk(p, s, job) && KeysOk(p, s, job) && (Carries(job) ==> Unseen(p, s, Carried(job)))
  }

  ghost predicate ReleasedOk(p: Setup, s: World) {
    && (forall t :: t in s.released ==> Ours(p, s, t))
    && (forall t, u :: t in s.released && u in s.released && t.claims.id == u.claims.id ==> t == u)
  }

  ghost predicate JobsOk(p: Setup, s: World) {
    && (forall id :: id in s.jobs ==> JobOk(p, s, s.jobs[id]))
    && (forall a, b :: a in s.jobs && b in s.jobs && a != b ==> Disjoint(s.jobs[a], s.jobs[b]))
  }

  ghost predicate Disjoint(a: Job, b: Job) {
    Carries(a) && Carries(b) ==>
      var (x, y) := (Carried(a), Carried(b));
      {x.0.claims.id, x.1.claims.id} !! {y.0.claims.id, y.1.claims.id}
  }

  /** A stored session was never deleted and belongs to a released token; a deleted one to a
      released token; and the session of a released refresh token within its life is one or the
      other. */
  ghost predicate SessionsOk(s: World) {
    && (forall jti {:trigger SessionKey(jti)} :: SessionKey(jti) in s.m ==>
          SessionKey(jti) !in s.deleted && EntryOk(s, jti, s.m[SessionKey(jti)]))
    && (forall jti {:trigger SessionKey(jti)} :: SessionKey(jti) in s.deleted ==> Released(s, jti))
    && (forall t :: t in s.released && t.claims.tokenType == "refresh" && s.clock < t.claims.expiresAt ==>
          SessionKey(t.claims.id) in s.m || SessionKey(t.claims.id) in s.deleted)
  }

  ghost predicate Inv(p: Setup, s: World) {
    ReleasedOk(p, s) && JobsOk(p, s) && SessionsOk(s)
  }

  /** From `s` to `s'` the tokens released, the names and the clock only grow. */
  ghost predicate Later(s: World, s': World) {
    && s.released <= s'.released && s.drawn <= s'.drawn && s.clock <= s'.clock
    && (forall t :: t in s'.released && t !in s.released ==> !Released(s, t.claims.id))
  }

  lemma JobStaysOk(p: Setup, s: World, s': World, job: Job)
    requires JobOk(p, s, job) && Later(s, s')
    requires Carries(job) ==> Unseen(p, s', Carried(job))
    ensures JobOk(p, s', job)
  {
  }

  lemma ResumeOk(p: Setup, s: World, k: Cont, found: Option<Value>)
    requires ContOk(s, k) && (k.ToIssue? ==> Unseen(p, s, (k.access, k.refresh)))
    ensures JobOk(p, s, Resume(p, k, found))
  {
    KeyFacts();
  }

  // ----- one step of one request -----

  ghost predicate CanGo(p: Setup, s: World, id: nat, name1: string, name2: string) {
    Inv(p, s) && Enabled(p, s, Go(id, name1, name2))
  }

  lemma GoLater(p: Setup, s: World, id: nat, name1: string, name2: string)
    requires CanGo(p, s, id, name1, name2)
    ensures var s' := Run1(p, s, id, name1, name2); Later(s, s') && ReleasedOk(p, s')
  {
    assert JobOk(p, s, s.jobs[id]);
    GoReleased(p, s, id, name1, name2);
    ReleasedStaysOk(p, s, id, name1, name2);
  }

  lemma ReleasedStaysOk(p: Setup, s: World, id: nat, name1: string, name2: string)
    requires CanGo(p, s, id, name1, name2)
    ensures ReleasedOk(p, Run1(p, s, id, name1, name2))
  {
    GoReleased(p, s, id, name1, name2);
  }

  /** A step hands out nothing, or the pair its job carried. */
  lemma GoReleased(p: Setup, s: World, id: nat, name1: string, name2: string)
    requires CanGo(p, s, id, name1, name2)
    ensures var s' := Run1(p, s, id, name1, name2);
            || s'.released == s.released
            || (Carries(s.jobs[id]) && Unseen(p, s, Carried(s.jobs[id]))
                && s'.released == s.released + {Carried(s.jobs[id]).0, Carried(s.jobs[id]).1})
  {
    assert JobOk(p, s, s.jobs[id]);
  }

  /** What a step does to the session keys. */
  lemma GoSessionKeys(p: Setup, s: World, id: nat, name1: string, name2: string, jti: string)
    requires CanGo(p, s, id, name1, name2)
    ensures var s', job, key := Run1(p, s, id, name1, name2), s.jobs[id], SessionKey(jti);
            && (key in s'.m ==>
                  (key in s.m && s'.m[key] == s.m[key]) || (job.Putting? && job.key == key && s'.m[key] == job.e))
            && (key in s'.deleted ==> key in s.deleted || (job.Deleting? && job.key == key))
            && (key in s.deleted ==> key in s'.deleted)
            && (key in s.m && key !in s'.m ==> key in s'.deleted || Expired(s, jti))
  {
    var job := s.jobs[id];
    assert JobOk(p, s, job);
    if SessionKey(jti) in s.m {
      var t :| t in s.released && t.claims.id == jti && Backs(t, s.m[SessionKey(jti)]);
    }
  }

  lemma StoredBacks(p: Setup, s: World, id: nat, name1: string, name2: string, jti: string)
    requires CanGo(p, s, id, name1, name2) && s.jobs[id].Putting? && s.jobs[id].key == SessionKey(jti)
    ensures EntryOk(Run1(p, s, id, name1, name2), jti, s.jobs[id].e) && SessionKey(jti) !in s.deleted
  {
    KeyFacts();
    var job := s.jobs[id];
    assert JobOk(p, s, job) && IsSessionKey(job.key);
    assert Carried(job).1 in Run1(p, s, id, name1, name2).released;
  }

  lemma GoSessions(p: Setup, s: World, id: nat, name1: string, name2: string)
    requires CanGo(p, s, id, name1, name2)
    ensures SessionsOk(Run1(p, s, id, name1, name2))
  {
    var s', job := Run1(p, s, id, name1, name2), s.jobs[id];
    assert JobOk(p, s, job);
    GoLater(p, s, id, name1, name2);
    forall jti | SessionKey(jti) in s'.m
      ensures SessionKey(jti) !in s'.deleted && EntryOk(s', jti, s'.m[SessionKey(jti)])
    {
      GoSessionKeys(p, s, id, name1, name2, jti);
      if job.Putting? && job.key == SessionKey(jti) {
        StoredBacks(p, s, id, name1, name2, jti);
      }
    }
    forall jti | SessionKey(jti) in s'.deleted
      ensures Released(s', jti)
    {
      GoSessionKeys(p, s, id, name1, name2, jti);
    }
    forall t | t in s'.released && t.claims.tokenType == "refresh" && s'.clock < t.claims.expiresAt
      ensures SessionKey(t.claims.id) in s'.m || SessionKey(t.claims.id) in s'.deleted
    {
      GoSessionKeys(p, s, id, name1, name2, t.claims.id);
    }
  }

  /** The names a step releases are those of the pair it stores. */
  lemma ReleasedAfter(p: Setup, s: World, id: nat, name1: string, name2: string, jti: string)
    requires CanGo(p, s, id, name1, name2) && !Released(s, jti)
    ensures Released(Run1(p, s, id, name1, name2), jti) ==>
              && s.jobs[id].Putting? && Carries(s.jobs[id])
              && jti in {Carried(s.jobs[id]).0.claims.id, Carried(s.jobs[id]).1.claims.id}
  {
  }

  /** A pair not yet stored by the step stays unseen. */
  lemma UnseenStays(p: Setup, s: World, id: nat, name1: string, name2: string, other: nat)
    requires CanGo(p, s, id, name1, name2) && other in s.jobs && Carries(s.jobs[other])
    requires other == id ==> !s.jobs[id].Putting?
    ensures Unseen(p, Run1(p, s, id, name1, name2), Carried(s.jobs[other]))
  {
    var pair := Carried(s.jobs[other]);
    assert JobOk(p, s, s.jobs[other]);
    assert other != id ==> Disjoint(s.jobs[id], s.jobs[other]);
    ReleasedAfter(p, s, id, name1, name2, pair.0.claims.id);
    ReleasedAfter(p, s, id, name1, name2, pair.1.claims.id);
    UnstoredStays(p, s, id, name1, name2, other);
  }

  lemma UnstoredStays(p: Setup, s: World, id: nat, name1: string, name2: string, other: nat)
    requires CanGo(p, s, id, name1, name2) && other in s.jobs && Carries(s.jobs[other])
    requires other == id ==> !s.jobs[id].Putting?
    ensures var key, s' := SessionKey(Carried(s.jobs[other]).1.claims.id), Run1(p, s, id, name1, name2);
            key !in s'.m && key !in s'.deleted
  {
    KeyFacts();
    var job, jti := s.jobs[id], Carried(s.jobs[other]).1.claims.id;
    assert JobOk(p, s, job) && JobOk(p, s, s.jobs[other]);
    assert other != id ==> Disjoint(job, s.jobs[other]);
    GoSessionKeys(p, s, id, name1, name2, jti);
    assert job.Putting? && job.key == SessionKey(jti) ==> IsSessionKey(job.key);
  }

  /** The step changed no cache entry and released no token. */
  ghost predicate SameStores(s: World, s': World) {
    s'.m == s.m && s'.deleted == s.deleted && s'.released == s.released && s'.clock == s.clock && s.drawn <= s'.drawn
  }

  lemma StartOk(p: Setup, s: World, s': World, q: Request, name: string)
    requires PresentsOk(p, s, Arrived(q)) && SameStores(s, s')
    ensures JobOk(p, s', Start(p, s, q, name))
  {
    KeyFacts();
  }

  lemma SigningOk(p: Setup, s: World, s': World, subject: string, name1: string, name2: string)
    requires Inv(p, s) && SameStores(s, s') && {name1, name2} <= s'.drawn
    requires name1 != name2 && name1 !in s.drawn && name2 !in s.drawn
    ensures JobOk(p, s', SignBoth(p, s, subject, name1, name2))
  {
    KeyFacts();
    FreshIsUnreleased(p, s, name1);
    FreshIsUnreleased(p, s, name2);
  }

  lemma FreshIsUnreleased(p: Setup, s: World, name: string)
    requires Inv(p, s) && name !in s.drawn
    ensures !Released(s, name) && SessionKey(name) !in s.m && SessionKey(name) !in s.deleted
  {
    assert SessionKey(name) in s.m ==> EntryOk(s, name, s.m[SessionKey(name)]);
    assert SessionKey(name) in s.deleted ==> Released(s, name);
  }

  lemma HoldingOk(p: Setup, s: World, s': World, job: Job)
    requires Inv(p, s) && SameStores(s, s') && job.Reading? && job.key in s.m && JobOk(p, s, job)
    ensures JobOk(p, s', Holding(job.key, s.m[job.key], job.k))
  {
    forall jti | job.key == SessionKey(jti) ensures EntryOk(s', jti, s.m[job.key]) {
      assert EntryOk(s, jti, s.m[SessionKey(jti)]);
    }
  }

  lemma EvictingOk(p: Setup, s: World, s': World, job: Job)
    requires Inv(p, s) && SameStores(s, s') && job.Holding? && !job.e.Live(s.clock) && JobOk(p, s, job)
    ensures JobOk(p, s', Evicting(job.key, job.k))
  {
    forall jti | job.key == SessionKey(jti) ensures Released(s', jti) && Expired(s', jti) {
      var t :| t in s.released && t.claims.id == jti && Backs(t, job.e);
    }
  }

  lemma StampingOk(p: Setup, s: World, s': World, job: Job)
    requires Inv(p, s) && SameStores(s, s') && job.Stamping? && JobOk(p, s, job)
    ensures JobOk(p, s', Putting(job.key, Stamp(job.data, job.ttl, s.clock), job.next))
  {
  }

  lemma LocalNextOk(p: Setup, s: World, s': World, job: Job, name1: string, name2: string)
    requires Inv(p, s) && SameStores(s, s') && JobOk(p, s, job)
    requires job.Signing? ==> {name1, name2} <= s'.drawn
    requires name1 != name2 && name1 !in s.drawn && name2 !in s.drawn
    requires !job.Evicting? && !job.Deleting? && !job.Putting? && !job.Reading? && !job.Holding?
    ensures JobOk(p, s', Next(p, s, job, name1, name2))
  {
    match job {
      case Arrived(q) => StartOk(p, s, s', q, name1);
      case LogoutRefresh(t) => KeyFacts();
      case Signing(subject) => SigningOk(p, s, s', subject, name1, name2);
      case Saving(_, _, _) => KeyFacts();
      case Stamping(_, _, _, _) => StampingOk(p, s, s', job);
      case _ =>
    }
  }

  lemma ReadNextOk(p: Setup, s: World, s': World, job: Job, name1: string, name2: string)
    requires Inv(p, s) && SameStores(s, s') && JobOk(p, s, job)
    requires job.Reading? || job.Holding?
    ensures JobOk(p, s', Next(p, s, job, name1, name2))
  {
    if job.Reading? && job.key in s.m {
      HoldingOk(p, s, s', job);
    } else if job.Holding? && !job.e.Live(s.clock) {
      EvictingOk(p, s, s', job);
    } else {
      ResumeOk(p, s', job.k, if job.Reading? then None else Some(job.e.data));
    }
  }

  lemma EvictNextOk(p: Setup, s: World, id: nat, name1: string, name2: string)
    requires CanGo(p, s, id, name1, name2) && s.jobs[id].Evicting?
    ensures var s' := Run1(p, s, id, name1, name2); JobOk(p, s', s'.jobs[id])
  {
    var k := s.jobs[id].k;
    assert JobOk(p, s, s.jobs[id]);
    GoLater(p, s, id, name1, name2);
    if k.ToIssue? {
      UnseenStays(p, s, id, name1, name2, id);
    }
    ResumeOk(p, Run1(p, s, id, name1, name2), k, None);
  }

  /** A request's next job is in order. */
  lemma GoNextOk(p: Setup, s: World, id: nat, name1: string, name2: string)
    requires CanGo(p, s, id, name1, name2)
    ensures var s' := Run1(p, s, id, name1, name2); JobOk(p, s', s'.jobs[id])
  {
    var s', job := Run1(p, s, id, name1, name2), s.jobs[id];
    assert JobOk(p, s, job);
    if job.Reading? || job.Holding? {
      ReadNextOk(p, s, s', job, name1, name2);
    } else if job.Evicting? {
      EvictNextOk(p, s, id, name1, name2);
    } else if job.Deleting? {
      DeleteNextOk(p, s, id, name1, name2);
    } else if !job.Putting? {
      LocalNextOk(p, s, s', job, name1, name2);
    }
  }

  lemma DeleteNextOk(p: Setup, s: World, id: nat, name1: string, name2: string)
    requires CanGo(p, s, id, name1, name2) && s.jobs[id].Deleting?
    ensures var s' := Run1(p, s, id, name1, name2); JobOk(p, s', s'.jobs[id])
  {
    assert JobOk(p, s, s.jobs[id]);
  }

  lemma GoJobs(p: Setup, s: World, id: nat, name1: string, name2: string)
    requires CanGo(p, s, id, name1, name2)
    ensures JobsOk(p, Run1(p, s, id, name1, name2))
  {
    var s' := Run1(p, s, id, name1, name2);
    GoLater(p, s, id, name1, name2);
    forall other | other in s'.jobs ensures JobOk(p, s', s'.jobs[other]) {
      if other == id {
        GoNextOk(p, s, id, name1, name2);
      } else {
        assert JobOk(p, s, s.jobs[other]);
        if Carries(s.jobs[other]) {
          UnseenStays(p, s, id, name1, name2, other);
        }
        JobStaysOk(p, s, s', s.jobs[other]);
      }
    }
    forall a, b | a in s'.jobs && b in s'.jobs && a != b ensures Disjoint(s'.jobs[a], s'.jobs[b]) {
      assert Disjoint(s.jobs[a], s.jobs[b]);
      if a == id {
        StillDisjoint(p, s, id, name1, name2, b);
      } else if b == id {
        StillDisjoint(p, s, id, name1, name2, a);
      }
    }
  }

  /** A request carries the pair it carried, or one with new names. */
  lemma StillDisjoint(p: Setup, s: World, id: nat, name1: string, name2: string, other: nat)
    requires CanGo(p, s, id, name1, name2) && other in s.jobs && other != id
    ensures Disjoint(Run1(p, s, id, name1, name2).jobs[id], s.jobs[other])
    ensures Disjoint(s.jobs[other], Run1(p, s, id, name1, name2).jobs[id])
  {
    CarriesOn(p, s, s.jobs[id], name1, name2);
    assert JobOk(p, s, s.jobs[other]);
    assert Disjoint(s.jobs[id], s.jobs[other]);
  }

  lemma CarriesOn(p: Setup, s: World, job: Job, name1: string, name2: string)
    requires JobOk(p, s, job)
    ensures var next := Next(p, s, job, name1, name2);
            Carries(next) ==>
              || (Carries(job) && Carried(next) == Carried(job))
              || (job.Signing? && Carried(next).0.claims.id == name1 && Carried(next).1.claims.id == name2)
  {
  }

  lemma InvStep(p: Setup, s: World, a: Action)
    requires Inv(p, s) && Enabled(p, s, a)
    ensures Inv(p, Advance(p, s, a))
  {
    match a {
      case Go(id, name1, name2) =>
        GoLater(p, s, id, name1, name2);
        GoJobs(p, s, id, name1, name2);
        GoSessions(p, s, id, name1, name2);
      case Arrive(id, q) => ArriveOk(p, s, id, q);
      case Tick(now) => TickOk(p, s, now);
      case ChangeUsers(users) => UsersOk(p, s, users);
    }
  }

  lemma ArriveOk(p: Setup, s: World, id: nat, q: Request)
    requires Inv(p, s) && Enabled(p, s, Arrive(id, q))
    ensures Inv(p, Advance(p, s, Arrive(id, q)))
  {
    var s' := Advance(p, s, Arrive(id, q));
    forall other | other in s'.jobs ensures JobOk(p, s', s'.jobs[other]) {
      if other != id {
        assert JobOk(p, s, s.jobs[other]);
        JobStaysOk(p, s, s', s.jobs[other]);
      }
    }
    forall a, b | a in s'.jobs && b in s'.jobs && a != b ensures Disjoint(s'.jobs[a], s'.jobs[b]) {
      if a != id && b != id {
        assert Disjoint(s.jobs[a], s.jobs[b]);
      }
    }
  }

  lemma TickOk(p: Setup, s: World, now: int)
    requires Inv(p, s) && s.clock <= now
    ensures Inv(p, s.(clock := now))
  {
    var s' := s.(clock := now);
    forall other | other in s'.jobs ensures JobOk(p, s', s'.jobs[other]) {
      assert JobOk(p, s, s.jobs[other]);
      JobStaysOk(p, s, s', s.jobs[other]);
    }
  }

  lemma UsersOk(p: Setup, s: World, users: map<string, User>)
    requires Inv(p, s)
    ensures Inv(p, s.(users := users))
  {
    var s' := s.(users := users);
    forall other | other in s'.jobs ensures JobOk(p, s', s'.jobs[other]) {
      assert JobOk(p, s, s.jobs[other]);
      JobStaysOk(p, s, s', s.jobs[other]);
    }
  }

  lemma {:induction false} AlwaysInv(r: Run, n: nat)
    requires r.Valid() && n <= |r.acts|
    ensures Inv(r.setup, r.states[n])
  {
    if n > 0 {
      AlwaysInv(r, n - 1);
      assert r.Takes(n - 1);
      InvStep(r.setup, r.states[n - 1], r.acts[n - 1]);
    }
  }
}
