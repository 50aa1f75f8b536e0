/** Reset tickets with any number of requests in flight: single use holds for resets that do not
    overlap, and only for those. */
module AuthTickets {
  import opened Ttl
  import opened AuthSpec
  import opened AuthInvariant
  import opened AuthShapes
  import opened AuthDrive
  import opened AuthExamples
  import I = AuthInterleaved

  // ----- a ticket that is used up does not come back -----

  ghost predicate Stores(job: Job, x: string) {
    (job.Stamping? || job.Putting?) && job.key == ResetKey(x)
  }

  /** The job has found the ticket in the cache. */
  ghost predicate Found(job: Job, x: string) {
    || ((job.Holding? || job.Evicting? || job.Deleting?) && job.key == ResetKey(x))
    || ((job.FindHolder? || job.Saving?) && job.ticket == x)
  }

  /** While a ticket is still to be stored, nobody has found or deleted it; then it is stored until
      it is deleted, and not again. */
  ghost predicate TicketOk(s: I.World, x: string) {
    && (forall id :: id in s.jobs && (Stores(s.jobs[id], x) || Found(s.jobs[id], x)) ==> x in s.drawn)
    && (ResetKey(x) in s.m || ResetKey(x) in s.deleted ==> x in s.drawn)
    && (ResetKey(x) in s.m ==> ResetKey(x) !in s.deleted)
    && (forall id :: id in s.jobs && Stores(s.jobs[id], x) ==> ResetKey(x) !in s.m && ResetKey(x) !in s.deleted)
    && (forall a, b :: a in s.jobs && b in s.jobs && Stores(s.jobs[a], x) ==>
          !Found(s.jobs[b], x) && (Stores(s.jobs[b], x) ==> a == b))
  }

  lemma ResumeOfTicket(p: Setup, key: string, k: I.Cont, found: Option<Value>, x: string)
    requires ContShape(key, k)
    ensures !Stores(I.Resume(p, k, found), x)
    ensures Found(I.Resume(p, k, found), x) ==> key == ResetKey(x) && found.Some?
  {
    KeyFacts();
  }

  lemma StartOfTicket(p: Setup, s: I.World, q: Request, name: string, x: string)
    ensures Stores(I.Start(p, s, q, name), x) ==> q.ForgotPassword? && name == x
    ensures !Found(I.Start(p, s, q, name), x)
  {
    KeyFacts();
  }

  lemma NextOfTicket(p: Setup, s: I.World, id: nat, name1: string, name2: string, x: string)
    requires Shaped(s) && TicketOk(s, x) && id in s.jobs
    ensures var job, next := s.jobs[id], I.Next(p, s, s.jobs[id], name1, name2);
            && (Stores(next, x) ==> Stores(job, x) || (I.Draws(job) && name1 == x))
            && (Found(next, x) ==> Found(job, x) || ResetKey(x) in s.m)
            && (Stores(job, x) ==> !Found(next, x)) && (job.Putting? ==> !Stores(next, x))
  {
    KeyFacts();
    var job := s.jobs[id];
    assert JobShape(job, s.clock);
    match job {
      case Arrived(q) => StartOfTicket(p, s, q, name1, x);
      case Reading(key, k) => ResumeOfTicket(p, key, k, None, x);
      case Holding(key, e, k) => ResumeOfTicket(p, key, k, Some(e.data), x);
      case Evicting(key, k) => ResumeOfTicket(p, key, k, None, x);
      case _ =>
    }
  }

  lemma TicketStep(p: Setup, s: I.World, a: I.Action, x: string)
    requires Shaped(s) && TicketOk(s, x) && I.Enabled(p, s, a)
    ensures TicketOk(I.Advance(p, s, a), x)
  {
    if a.Go? {
      TicketGo(p, s, a.id, a.name1, a.name2, x);
    }
  }

  lemma TicketGo(p: Setup, s: I.World, id: nat, name1: string, name2: string, x: string)
    requires Shaped(s) && TicketOk(s, x) && I.Enabled(p, s, I.Go(id, name1, name2))
    ensures TicketOk(I.Run1(p, s, id, name1, name2), x)
  {
    var s', job := I.Run1(p, s, id, name1, name2), s.jobs[id];
    NextOfTicket(p, s, id, name1, name2, x);
    TicketKey(p, s, id, name1, name2, x);
    assert forall o :: o in s.jobs && o != id ==> s'.jobs[o] == s.jobs[o];
  }

  lemma TicketKey(p: Setup, s: I.World, id: nat, name1: string, name2: string, x: string)
    requires id in s.jobs
    ensures var s', job, key := I.Run1(p, s, id, name1, name2), s.jobs[id], ResetKey(x);
            && (key in s'.m ==> key in s.m || (job.Putting? && Stores(job, x)))
            && (key in s'.deleted <==> key in s.deleted || (job.Deleting? && job.key == key))
            && (job.Deleting? && job.key == key ==> key !in s'.m)
  {
  }

  lemma {:induction false} TicketAt(r: I.Run, n: nat, x: string)
    requires r.Valid() && n <= |r.acts|
    ensures TicketOk(r.states[n], x)
  {
    if n > 0 {
      TicketAt(r, n - 1, x);
      ShapedAt(r, n - 1);
      assert r.Takes(n - 1);
      TicketStep(r.setup, r.states[n - 1], r.acts[n - 1], x);
    }
  }

  // ----- the stages of a reset -----

  ghost predicate Gone(s: I.World, x: string) { ResetKey(x) in s.deleted }

  ghost predicate ResetStage(s: I.World, job: Job, x: string) {
    match job
    case Arrived(q) => q.ResetPassword? && q.ticket == x
    case Reading(_, k) => ResetCont(s, k, x)
    case Holding(_, _, k) => ResetCont(s, k, x)
    case Evicting(_, k) => ResetCont(s, k, x)
    case FindHolder(y, _, _) => y == x
    case Saving(y, _, _) => y == x
    case Deleting(key, next) => key == ResetKey(x) && next.Reading? && next.k.ToBump?
    case Stamping(_, _, _, next) => Gone(s, x) && next == I.Ended(Done)
    case Putting(_, _, next) => Gone(s, x) && next == I.Ended(Done)
    case Ended(a) => a == Done ==> Gone(s, x)
    case _ => false
  }

  ghost predicate ResetCont(s: I.World, k: I.Cont, x: string) {
    match k
    case ToReset(y, _) => y == x
    case ToBump(_) => Gone(s, x)
    case _ => false
  }

  ghost predicate ResetsWith(s: I.World, id: nat, x: string) {
    id in s.jobs && id in s.requests && s.requests[id].ResetPassword? && s.requests[id].ticket == x
  }

  ghost predicate StagesOk(s: I.World, x: string) {
    && s.requests.Keys == s.jobs.Keys
    && forall id :: ResetsWith(s, id, x) ==> ResetStage(s, s.jobs[id], x)
  }

  lemma ResetAdvances(p: Setup, s: I.World, s': I.World, job: Job, x: string, name1: string, name2: string)
    requires ResetStage(s, job, x) && s.deleted <= s'.deleted
    requires job.Deleting? ==> job.key in s'.deleted
    ensures ResetStage(s', I.Next(p, s, job, name1, name2), x)
  {
  }

  lemma StagesStep(p: Setup, s: I.World, a: I.Action, x: string)
    requires I.Enabled(p, s, a) && StagesOk(s, x)
    ensures StagesOk(I.Advance(p, s, a), x)
  {
    var s' := I.Advance(p, s, a);
    forall id | ResetsWith(s', id, x) ensures ResetStage(s', s'.jobs[id], x) {
      if a.Go? && id == a.id {
        ResetAdvances(p, s, s', s.jobs[id], x, a.name1, a.name2);
      } else if id in s.jobs {
        assert ResetStage(s, s.jobs[id], x);
      }
    }
  }

  lemma {:induction false} StagesAt(r: I.Run, n: nat, x: string)
    requires r.Valid() && n <= |r.acts|
    ensures StagesOk(r.states[n], x)
  {
    if n > 0 {
      StagesAt(r, n - 1, x);
      assert r.Takes(n - 1);
      StagesStep(r.setup, r.states[n - 1], r.acts[n - 1], x);
    }
  }

  // ----- two resets with one ticket -----

  /** A reset that has found its ticket, and not failed. */
  predicate PastRead(job: Job) {
    || PastDel(job) || job.FindHolder? || job.Saving? || job.Deleting?
    || ((job.Holding? || job.Evicting?) && job.k.ToReset?)
  }

  /** A reset that has used it up. */
  predicate PastDel(job: Job) {
    || job.Stamping? || job.Putting? || job == I.Ended(Done)
    || ((job.Reading? || job.Holding? || job.Evicting?) && job.k.ToBump?)
  }

  ghost predicate ReadStep(r: I.Run, i: nat, id: nat, x: string) {
    && r.Takes(i) && r.acts[i].Go? && r.acts[i].id == id && ResetsWith(r.states[i], id, x)
    && r.states[i].jobs[id].Reading? && r.states[i].jobs[id].key == ResetKey(x) && r.states[i].jobs[id].k.ToReset?
  }

  ghost predicate DelStep(r: I.Run, i: nat, id: nat, x: string) {
    && r.Takes(i) && r.acts[i].Go? && r.acts[i].id == id && ResetsWith(r.states[i], id, x)
    && r.states[i].jobs[id].Deleting? && r.states[i].jobs[id].key == ResetKey(x)
  }

  lemma OwnStep(r: I.Run, n: nat, id: nat, x: string)
    requires r.Valid() && n < |r.acts| && ResetsWith(r.states[n + 1], id, x) && !r.states[n + 1].jobs[id].Arrived?
    ensures r.Takes(n) && ResetsWith(r.states[n], id, x) && ResetStage(r.states[n], r.states[n].jobs[id], x)
    ensures JobShape(r.states[n].jobs[id], r.states[n].clock)
    ensures r.states[n].jobs[id] == r.states[n + 1].jobs[id] ||
            (r.acts[n].Go? && r.acts[n].id == id && r.states[n + 1].jobs[id] ==
             I.Next(r.setup, r.states[n], r.states[n].jobs[id], r.acts[n].name1, r.acts[n].name2))
  {
    StagesAt(r, n, x);
    ShapedAt(r, n);
    assert r.Takes(n);
  }

  lemma {:induction false} DelOf(r: I.Run, n: nat, id: nat, x: string) returns (i: nat)
    requires r.Valid() && n <= |r.acts| && ResetsWith(r.states[n], id, x) && PastDel(r.states[n].jobs[id])
    ensures i < n && DelStep(r, i, id, x)
  {
    OwnStep(r, n - 1, id, x);
    if PastDel(r.states[n - 1].jobs[id]) {
      i := DelOf(r, n - 1, id, x);
    } else {
      i := n - 1;
    }
  }

  lemma {:induction false} ReadOf(r: I.Run, n: nat, id: nat, x: string) returns (i: nat)
    requires r.Valid() && n <= |r.acts| && ResetsWith(r.states[n], id, x) && PastRead(r.states[n].jobs[id])
    ensures i < n && ReadStep(r, i, id, x)
  {
    OwnStep(r, n - 1, id, x);
    if PastRead(r.states[n - 1].jobs[id]) {
      i := ReadOf(r, n - 1, id, x);
    } else {
      i := n - 1;
    }
  }

  lemma {:induction false} UsedUpFails(r: I.Run, i: nat, id: nat, x: string, n: nat)
    requires r.Valid() && i < n <= |r.acts| && ReadStep(r, i, id, x) && Gone(r.states[i], x)
    ensures id in r.states[n].jobs && r.states[n].jobs[id] == I.Ended(InvalidToken)
  {
    assert r.Takes(n - 1);
    if n == i + 1 {
      TicketAt(r, i, x);
    } else {
      UsedUpFails(r, i, id, x, n - 1);
    }
  }

  lemma {:induction false} GoneStays(r: I.Run, n: nat, m: nat, x: string)
    requires r.Valid() && n <= m <= |r.acts| && Gone(r.states[n], x)
    ensures Gone(r.states[m], x)
  {
    if n < m {
      GoneStays(r, n, m - 1, x);
      assert r.Takes(m - 1);
    }
  }

  ghost predicate Succeeded(s: I.World, id: nat, x: string) {
    ResetsWith(s, id, x) && s.jobs[id] == I.Ended(Done)
  }

  lemma ReadBeforeDel(r: I.Run, n: nat, a: nat, readA: nat, b: nat, delB: nat, x: string)
    requires r.Valid() && n <= |r.acts| && a != b && readA < n && delB < n && Succeeded(r.states[n], a, x)
    requires ReadStep(r, readA, a, x) && DelStep(r, delB, b, x)
    ensures readA < delB
  {
    if delB < readA {
      GoneStays(r, delB + 1, readA, x);
      UsedUpFails(r, readA, a, x, n);
    }
  }

  /** Only overlapping resets both succeed with one ticket: each reads it before the other deletes
      it. */
  lemma BothSucceedOverlap(r: I.Run, n: nat, a: nat, b: nat, x: string)
    returns (readA: nat, delA: nat, readB: nat, delB: nat)
    requires r.Valid() && n <= |r.acts| && a != b && Succeeded(r.states[n], a, x) && Succeeded(r.states[n], b, x)
    ensures ReadStep(r, readA, a, x) && DelStep(r, delA, a, x) && ReadStep(r, readB, b, x) && DelStep(r, delB, b, x)
    ensures readA < delB < n && readB < delA < n
  {
    readA := ReadOf(r, n, a, x);
    readB := ReadOf(r, n, b, x);
    delA := DelOf(r, n, a, x);
    delB := DelOf(r, n, b, x);
    ReadBeforeDel(r, n, a, readA, b, delB, x);
    ReadBeforeDel(r, n, b, readB, a, delA, x);
  }

  // ----- exactly when two can still both succeed -----

  predicate TooLong(password: string) { |password| > MAX_PASSWORD }

  /** The reset has found its ticket and not used it up, and cannot succeed any more: its copy has
      died, or the password is too long for bcrypt. */
  predicate Failing(s: I.World, job: Job) {
    || (job.Evicting? && job.k.ToReset?)
    || (job.Holding? && job.k.ToReset? && (!job.e.Live(s.clock) || TooLong(job.k.password)))
    || (job.FindHolder? && TooLong(job.password))
  }

  ghost predicate Midway(r: I.Run, id: nat, x: string) {
    r.Valid() && ResetsWith(Last(r), id, x) && PastRead(Last(r).jobs[id]) && !PastDel(Last(r).jobs[id])
  }

  predicate Lost(s: I.World, job: Job) {
    Failing(s, job) || (job.Ended? && job.answer != Done)
  }

  lemma {:induction false} LostForGood(r: I.Run, more: I.Run, n: nat, id: nat, x: string)
    requires r.Valid() && Continues(r, more) && |r.acts| <= n <= |more.acts|
    requires ResetsWith(Last(r), id, x) && Lost(Last(r), Last(r).jobs[id])
    ensures ResetsWith(more.states[n], id, x) && Lost(more.states[n], more.states[n].jobs[id])
  {
    if n > |r.acts| {
      LostForGood(r, more, n - 1, id, x);
      assert more.Takes(n - 1);
    }
  }

  ghost predicate OnlyMoved(s: I.World, s': I.World, id: nat, x: string) {
    && ResetsWith(s', id, x) && s'.jobs == s.jobs[id := s'.jobs[id]] && s'.requests == s.requests
    && s'.clock == s.clock
  }

  /** With a live copy it goes on to look for the address's holder, and with one there, or put there,
      finds it. */
  lemma FindsHolder(r: I.Run, id: nat, x: string) returns (more: I.Run)
    requires Midway(r, id, x) && !Failing(Last(r), Last(r).jobs[id])
    ensures Continues(r, more) && OnlyMoved(Last(r), Last(more), id, x) && AtEnd(more, id, x)
  {
    var s, job := Last(r), Last(r).jobs[id];
    StagesAt(r, |r.acts|, x);
    ShapedAt(r, |r.acts|);
    assert ResetStage(s, job, x) && JobShape(job, s.clock);
    more := r;
    if job.Holding? {
      more := Think(r, id);
      assert Last(more).jobs[id].FindHolder? && Last(more).jobs[id].password == job.k.password;
    }
    if Last(more).jobs[id].FindHolder? {
      more := HolderPutThere(more, id, x);
    }
  }

  lemma HolderPutThere(r: I.Run, id: nat, x: string) returns (more: I.Run)
    requires r.Valid() && ResetsWith(Last(r), id, x) && Last(r).jobs[id].FindHolder?
    requires Last(r).jobs[id].ticket == x && !TooLong(Last(r).jobs[id].password)
    ensures Continues(r, more) && OnlyMoved(Last(r), Last(more), id, x) && AtEnd(more, id, x)
  {
    var address := Last(r).jobs[id].address;
    var users := Last(r).users["" := User(address, Bcrypt(""))];
    more := Extend(r, I.ChangeUsers(users));
    assert users[""].email == address;
    assert FindByEmail(users, address).Some?;
    more := Think(more, id);
  }

  /** A reset that has found its user, or saved the row. */
  ghost predicate AtEnd(r: I.Run, id: nat, x: string) {
    && r.Valid() && ResetsWith(Last(r), id, x)
    && match Last(r).jobs[id]
       case Saving(y, _, _) => y == x
       case Deleting(key, next) =>
         key == ResetKey(x) && next.Reading? && next.k.ToBump? && next.key == VersionKey(next.k.id)
       case _ => false
  }

  lemma ResetEnds(r: I.Run, id: nat, x: string) returns (more: I.Run)
    requires AtEnd(r, id, x)
    ensures Continues(r, more) && OnlyMoved(Last(r), Last(more), id, x) && Succeeded(Last(more), id, x)
  {
    more := r;
    if Last(more).jobs[id].Saving? {
      more := Act(more, id);
    }
    var u := Last(more).jobs[id].next.k.id;
    more := Act(more, id);
    more := BumpEnds(more, id, u);
  }

  lemma BothSucceed(r: I.Run, a: nat, b: nat, x: string) returns (more: I.Run)
    requires a != b && Midway(r, a, x) && Midway(r, b, x)
    requires !Failing(Last(r), Last(r).jobs[a]) && !Failing(Last(r), Last(r).jobs[b])
    ensures Continues(r, more) && Succeeded(Last(more), a, x) && Succeeded(Last(more), b, x)
  {
    more := FindsHolder(r, a, x);
    more := FindsHolder(more, b, x);
    more := ResetEnds(more, a, x);
    more := ResetEnds(more, b, x);
  }

  ghost predicate BothCanSucceed(r: I.Run, a: nat, b: nat, x: string)
    requires r.Valid()
  {
    exists more: I.Run :: Continues(r, more) && Succeeded(Last(more), a, x) && Succeeded(Last(more), b, x)
  }

  /** Two resets that have both found the ticket, and neither used it up, can still both succeed if
      and only if neither has a dead copy or too long a password. */
  lemma BothCanSucceedIff(r: I.Run, a: nat, b: nat, x: string)
    requires a != b && Midway(r, a, x) && Midway(r, b, x)
    ensures BothCanSucceed(r, a, b, x) <==> !Failing(Last(r), Last(r).jobs[a]) && !Failing(Last(r), Last(r).jobs[b])
  {
    if !Failing(Last(r), Last(r).jobs[a]) && !Failing(Last(r), Last(r).jobs[b]) {
      var more := BothSucceed(r, a, b, x);
    } else {
      var lost := if Failing(Last(r), Last(r).jobs[a]) then a else b;
      forall more: I.Run | Continues(r, more) ensures !Succeeded(Last(more), lost, x) {
        LostForGood(r, more, |more.acts|, lost, x);
      }
    }
  }

  /** Two resets with one ticket have both found the user. */
  lemma TwoAtSaving() returns (r: I.Run)
    ensures Midway(r, 1, "k1") && Midway(r, 2, "k1") && Last(r).jobs[1].Saving? && Last(r).jobs[2].Saving?
  {
    AliceHasHerAddress(ALICE);
    r := I.Run(SETUP, [I.World(ALICE, map[], 0, map[], map[], {}, {}, {})], []);
    r := ForgotRuns(r, 0, "e", "u", ("k1", "k2"));
    assert Last(r).m == map[ResetKey("k1") := Stamp(Email("e"), RESET_TTL, 0)];
    r := TwoFindTicket(r, "k1", "e", "u");
  }

  lemma TwoFindTicket(r: I.Run, x: string, address: string, u: string) returns (more: I.Run)
    requires r.Valid() && 1 !in Last(r).jobs && 2 !in Last(r).jobs
    requires ResetKey(x) in Last(r).m && Last(r).m[ResetKey(x)].Live(Last(r).clock)
    requires Last(r).m[ResetKey(x)].data == Email(address) && FindByEmail(Last(r).users, address) == Some(u)
    ensures Midway(more, 1, x) && Midway(more, 2, x) && Last(more).jobs[1].Saving? && Last(more).jobs[2].Saving?
  {
    more := ResetUpToSaving(r, 1, x, address, u, "new");
    more := ResetUpToSaving(more, 2, x, address, u, "newer");
  }

  /** So both can succeed, and a ticket is single-use only for requests served one at a time. */
  lemma TwoResetsCanBothSucceed() returns (r: I.Run, x: string)
    ensures r.Valid() && Succeeded(Last(r), 1, x) && Succeeded(Last(r), 2, x)
  {
    x := "k1";
    r := TwoAtSaving();
    r := BothSucceed(r, 1, 2, x);
  }

  // ----- in time -----

  /** Step `i` is where a ForgotPassword takes the time for the ticket it then stores. */
  ghost predicate StampStep(r: I.Run, i: nat, x: string) {
    && r.Takes(i) && r.acts[i].Go? && r.acts[i].id in r.states[i].jobs
    && var job := r.states[i].jobs[r.acts[i].id];
       job.Stamping? && job.key == ResetKey(x) && job.ttl == RESET_TTL && job.next == I.Ended(ResetIssued(x))
  }

  /** The entry is under the ticket's key, or on its way there or from there. */
  ghost predicate Occurs(s: I.World, x: string, e: Entry<Value>) {
    || (ResetKey(x) in s.m && s.m[ResetKey(x)] == e)
    || exists id :: id in s.jobs && CarriesEntry(s.jobs[id], x, e)
  }

  ghost predicate CarriesEntry(job: Job, x: string, e: Entry<Value>) {
    (job.Holding? || job.Putting?) && job.key == ResetKey(x) && job.e == e
  }

  lemma EntryBefore(p: Setup, s: I.World, id: nat, name1: string, name2: string, x: string, e: Entry<Value>)
    requires Shaped(s) && id in s.jobs && Occurs(I.Run1(p, s, id, name1, name2), x, e) && !Occurs(s, x, e)
    ensures var job := s.jobs[id];
            job.Stamping? && job.key == ResetKey(x) && job.ttl == RESET_TTL && job.next == I.Ended(ResetIssued(x))
            && e == Stamp(job.data, RESET_TTL, s.clock)
  {
    var s' := I.Run1(p, s, id, name1, name2);
    assert JobShape(s.jobs[id], s.clock);
    if ResetKey(x) in s'.m && s'.m[ResetKey(x)] == e {
      assert CarriesEntry(s.jobs[id], x, e);
    } else {
      var o :| o in s'.jobs && CarriesEntry(s'.jobs[o], x, e);
      assert o == id;
    }
  }

  lemma {:induction false} EntryOrigin(r: I.Run, n: nat, x: string, e: Entry<Value>) returns (i: nat)
    requires r.Valid() && n <= |r.acts| && Occurs(r.states[n], x, e)
    ensures i < n && StampStep(r, i, x) && e.expiresAt == Some(r.states[i].clock + RESET_TTL)
  {
    assert r.Takes(n - 1);
    if Occurs(r.states[n - 1], x, e) {
      i := EntryOrigin(r, n - 1, x, e);
    } else {
      i := n - 1;
      ShapedAt(r, i);
      EntryBefore(r.setup, r.states[i], r.acts[i].id, r.acts[i].name1, r.acts[i].name2, x, e);
    }
  }

  /** Step `c` is where a reset looks at its copy of the ticket, and finds it live. */
  ghost predicate CheckStep(r: I.Run, c: nat, id: nat, x: string) {
    && r.Takes(c) && r.acts[c].Go? && r.acts[c].id == id && ResetsWith(r.states[c], id, x)
    && r.states[c].jobs[id].Holding? && r.states[c].jobs[id].key == ResetKey(x) && r.states[c].jobs[id].k.ToReset?
    && r.states[c].jobs[id].e.Live(r.states[c].clock)
  }

  predicate PastCheck(job: Job) {
    PastDel(job) || job.FindHolder? || job.Saving? || job.Deleting?
  }

  lemma {:induction false} CheckOf(r: I.Run, n: nat, id: nat, x: string) returns (c: nat)
    requires r.Valid() && n <= |r.acts| && ResetsWith(r.states[n], id, x) && PastCheck(r.states[n].jobs[id])
    ensures c < n && CheckStep(r, c, id, x)
  {
    OwnStep(r, n - 1, id, x);
    if PastCheck(r.states[n - 1].jobs[id]) {
      c := CheckOf(r, n - 1, id, x);
    } else {
      c := n - 1;
    }
  }

  /** Under any interleaving, a reset that succeeds looked at its ticket strictly less than 15 minutes
      after the ForgotPassword that issued it took the time. */
  lemma SucceedsInTime(r: I.Run, n: nat, id: nat, x: string) returns (stamp: nat, check: nat)
    requires r.Valid() && n <= |r.acts| && Succeeded(r.states[n], id, x)
    ensures stamp < check < n && StampStep(r, stamp, x) && CheckStep(r, check, id, x)
    ensures r.states[check].clock < r.states[stamp].clock + RESET_TTL
  {
    check := CheckOf(r, n, id, x);
    assert CarriesEntry(r.states[check].jobs[id], x, r.states[check].jobs[id].e);
    stamp := EntryOrigin(r, check, x, r.states[check].jobs[id].e);
  }
}
