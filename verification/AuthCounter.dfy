/** When a password reset does end the sessions before it, with any number of requests in flight:
    everything hangs on the user's version counter, which stale reads and racing resets can
    remove or put back. */
module AuthCounter {
  import opened Ttl
  import opened Tokens
  import opened AuthSpec
  import opened AuthInvariant
  import opened AuthShapes
  import opened AuthDrive
  import I = AuthInterleaved

  // ----- exactly when the counter keeps a version out -----

  ghost predicate DiesBefore(e: Entry<Value>, d: int) {
    e.expiresAt.Some? && e.expiresAt.value < d
  }

  /** The entry keeps version `v` out up to the instant `d`. */
  ghost predicate KeepsOut(e: Entry<Value>, v: int, d: int) {
    e.data.Version? && e.data.number > v && !DiesBefore(e, d)
  }

  /** A job stands to remove the counter before `d`, or to set it to one that does not keep `v`
      out: a stale read about to delete it, or of an entry that dies sooner; a reset that has
      found, or is about to store, too low or too short-lived a counter. */
  ghost predicate Threatens(job: Job, u: string, v: int, d: int) {
    match job
    case Evicting(key, _) => key == VersionKey(u)
    case Holding(key, e, k) =>
      key == VersionKey(u) && (DiesBefore(e, d) || (k.ToBump? && I.Number(Some(e.data)) + 1 <= v))
    case Stamping(key, data, _, _) => key == VersionKey(u) && I.Number(Some(data)) <= v
    case Putting(key, e, _) => key == VersionKey(u) && !KeepsOut(e, v, d)
    case _ => false
  }

  /** The counter keeps `v` out up to `d`, and nothing under way will change that. */
  ghost predicate Shielded(s: World, u: string, v: int, d: int) {
    && VersionKey(u) in s.m && KeepsOut(s.m[VersionKey(u)], v, d)
    && forall id :: id in s.jobs ==> !Threatens(s.jobs[id], u, v, d)
  }

  lemma ResumedIsHarmless(p: Setup, key: string, k: I.Cont, found: Option<Value>, u: string, v: int, d: int)
    requires ContShape(key, k)
    requires key == VersionKey(u) && k.ToBump? ==> I.Number(found) + 1 > v
    ensures !Threatens(I.Resume(p, k, found), u, v, d)
  {
    KeyFacts();
  }

  lemma NextIsHarmless(p: Setup, s: World, id: nat, name1: string, name2: string, u: string, v: int, d: int)
    requires Shaped(s) && id in s.jobs && Shielded(s, u, v, d) && s.clock < d <= s.clock + VERSION_TTL
    ensures !Threatens(I.Next(p, s, s.jobs[id], name1, name2), u, v, d)
  {
    KeyFacts();
    var job := s.jobs[id];
    assert JobShape(job, s.clock) && !Threatens(job, u, v, d);
    match job {
      case Reading(key, k) =>
        if key !in s.m {
          ResumedIsHarmless(p, key, k, None, u, v, d);
        }
      case Holding(key, e, k) =>
        if e.Live(s.clock) {
          ResumedIsHarmless(p, key, k, Some(e.data), u, v, d);
        }
      case Evicting(key, k) => ResumedIsHarmless(p, key, k, None, u, v, d);
      case _ =>
    }
  }

  lemma ShieldStep(p: Setup, s: World, a: I.Action, u: string, v: int, d: int)
    requires Shaped(s) && I.Enabled(p, s, a) && Shielded(s, u, v, d)
    requires I.Advance(p, s, a).clock < d <= s.clock + VERSION_TTL
    ensures Shielded(I.Advance(p, s, a), u, v, d)
  {
    var s' := I.Advance(p, s, a);
    if a.Go? {
      NextIsHarmless(p, s, a.id, a.name1, a.name2, u, v, d);
    }
    forall id | id in s'.jobs ensures !Threatens(s'.jobs[id], u, v, d) {
      assert id in s.jobs ==> !Threatens(s.jobs[id], u, v, d);
    }
  }

  ghost function GoesOn(t: Token): Job {
    I.Deleting(SessionKey(t.claims.id), I.FindUser(t.claims.subject))
  }

  /** The Refresh is about to read the counter, or on its way to be refused by it. */
  ghost predicate Refused(s: World, id: nat, t: Token, v: int, d: int) {
    id in s.jobs &&
    match s.jobs[id]
    case Reading(key, k) => key == VersionKey(t.claims.subject) && k == I.ToRotate(t, v)
    case Holding(key, e, k) => k == I.ToRotate(t, v) && KeepsOut(e, v, d)
    case Deleting(_, next) => next == I.Ended(InvalidToken)
    case Ended(answer) => answer == InvalidToken
    case _ => false
  }

  /** Up to `d`, a counter that is shielded stays so. */
  lemma {:induction false} ShieldHolds(r: I.Run, more: I.Run, n: nat, u: string, v: int, d: int)
    requires r.Valid() && Continues(r, more) && |r.acts| <= n <= |more.acts|
    requires Shielded(Last(r), u, v, d) && more.states[n].clock < d <= Last(r).clock + VERSION_TTL
    ensures Shielded(more.states[n], u, v, d) && Last(r).clock <= more.states[n].clock
  {
    if n > |r.acts| {
      assert more.Takes(n - 1);
      ShieldHolds(r, more, n - 1, u, v, d);
      ShapedAt(more, n - 1);
      ShieldStep(more.setup, more.states[n - 1], more.acts[n - 1], u, v, d);
    }
  }

  lemma {:induction false} RefusalHolds(r: I.Run, more: I.Run, n: nat, id: nat, t: Token, v: int, d: int)
    requires r.Valid() && Continues(r, more) && |r.acts| <= n <= |more.acts|
    requires Shielded(Last(r), t.claims.subject, v, d) && Refused(Last(r), id, t, v, d)
    requires more.states[n].clock < d <= Last(r).clock + VERSION_TTL
    ensures Refused(more.states[n], id, t, v, d)
  {
    if n > |r.acts| {
      assert more.Takes(n - 1);
      RefusalHolds(r, more, n - 1, id, t, v, d);
      ShieldHolds(r, more, n - 1, t.claims.subject, v, d);
    }
  }

  /** However the run goes on, up to `d` the Refresh is not let past the counter. */
  ghost predicate KeptOut(r: I.Run, id: nat, t: Token, d: int) {
    forall more: I.Run | Continues(r, more) && Last(more).clock < d && id in Last(more).jobs ::
      Last(more).jobs[id] != GoesOn(t)
  }

  ghost predicate AboutToRead(r: I.Run, id: nat, t: Token, v: int) {
    AtRead(r, id, VersionKey(t.claims.subject), I.ToRotate(t, v))
  }

  /** A counter that is gone, too low, or dies before `d` lets the Refresh past. */
  lemma ReadPasses(r: I.Run, id: nat, t: Token, v: int, d: int) returns (more: I.Run)
    requires AboutToRead(r, id, t, v) && Last(r).clock < d
    requires VersionKey(t.claims.subject) in Last(r).m ==> !KeepsOut(Last(r).m[VersionKey(t.claims.subject)], v, d)
    ensures Continues(r, more) && Last(more).clock < d && id in Last(more).jobs && Last(more).jobs[id] == GoesOn(t)
  {
    var key, k, s := VersionKey(t.claims.subject), I.ToRotate(t, v), Last(r);
    ShapedAt(r, |r.acts|);
    assert JobShape(s.jobs[id], s.clock);
    if key !in s.m {
      more := Think(r, id);
    } else {
      var e := s.m[key];
      assert EntryShape(key, e, s.clock);
      if e.Live(s.clock) && e.data.number <= v {
        more := LiveRead(r, id, key, k);
      } else {
        more := Wait(r, if e.Live(s.clock) then e.expiresAt.value else s.clock);
        more := DeadRead(more, id, key, k);
      }
    }
  }

  lemma StaleReaderDeletes(r: I.Run, o: nat, u: string, d: int) returns (more: I.Run)
    requires r.Valid() && o in Last(r).jobs && Last(r).clock < d
    requires var job := Last(r).jobs[o];
             (job.Evicting? || (job.Holding? && DiesBefore(job.e, d))) && job.key == VersionKey(u)
    ensures Continues(r, more) && Last(more).clock < d && VersionKey(u) !in Last(more).m
    ensures forall id :: id in Last(r).jobs && id != o ==>
              id in Last(more).jobs && Last(more).jobs[id] == Last(r).jobs[id]
  {
    more := r;
    var job := Last(r).jobs[o];
    if job.Holding? {
      more := HeldUntilDead(r, o);
    }
    more := Act(more, o);
  }

  lemma BadCounterStored(r: I.Run, o: nat, u: string, v: int, d: int) returns (more: I.Run)
    requires r.Valid() && Shaped(Last(r)) && o in Last(r).jobs && Last(r).clock < d
    requires Threatens(Last(r).jobs[o], u, v, d)
    requires var job := Last(r).jobs[o];
             job.Stamping? || job.Putting? || (job.Holding? && !DiesBefore(job.e, d))
    ensures Continues(r, more) && Last(more).clock < d
    ensures VersionKey(u) in Last(more).m && !KeepsOut(Last(more).m[VersionKey(u)], v, d)
    ensures forall id :: id in Last(r).jobs && id != o ==>
              id in Last(more).jobs && Last(more).jobs[id] == Last(r).jobs[id]
  {
    more := r;
    assert JobShape(Last(r).jobs[o], Last(r).clock);
    KeyFacts();
    if Last(more).jobs[o].Holding? {
      more := Think(more, o);
      assert Last(more).jobs[o].Stamping? && Last(more).jobs[o].key == VersionKey(u);
    }
    if Last(more).jobs[o].Stamping? {
      more := Think(more, o);
    }
    assert Last(more).jobs[o].Putting? && !KeepsOut(Last(more).jobs[o].e, v, d);
    more := Act(more, o);
  }

  /** Without the shield, the run can go on to let the Refresh past the counter. */
  lemma UnshieldedPasses(r: I.Run, id: nat, t: Token, v: int, d: int) returns (more: I.Run)
    requires AboutToRead(r, id, t, v) && Last(r).clock < d && !Shielded(Last(r), t.claims.subject, v, d)
    ensures Continues(r, more) && Last(more).clock < d && id in Last(more).jobs && Last(more).jobs[id] == GoesOn(t)
  {
    var s, u := Last(r), t.claims.subject;
    more := r;
    ShapedAt(r, |r.acts|);
    if VersionKey(u) in s.m && KeepsOut(s.m[VersionKey(u)], v, d) {
      var o :| o in s.jobs && Threatens(s.jobs[o], u, v, d);
      if s.jobs[o].Evicting? || (s.jobs[o].Holding? && DiesBefore(s.jobs[o].e, d)) {
        more := StaleReaderDeletes(r, o, u, d);
      } else {
        more := BadCounterStored(r, o, u, v, d);
      }
    }
    more := ReadPasses(more, id, t, v, d);
  }

  /** Nothing is shielded for longer than a counter lives. */
  lemma ShieldEndsInTime(r: I.Run, u: string, v: int, d: int)
    requires r.Valid() && Shielded(Last(r), u, v, d)
    ensures d <= Last(r).clock + VERSION_TTL
  {
    ShapedAt(r, |r.acts|);
    assert EntryShape(VersionKey(u), Last(r).m[VersionKey(u)], Last(r).clock);
  }

  /** In every reachable state, and up to any instant: a Refresh about to read the counter is kept
      out, however the run goes on, if and only if the counter is above its session's version up to
      that instant and nothing under way threatens it. So nobody is kept out for longer than a
      counter lives. */
  lemma KeptOutIff(r: I.Run, id: nat, t: Token, v: int, d: int)
    requires AboutToRead(r, id, t, v) && Last(r).clock < d
    ensures KeptOut(r, id, t, d) <==> Shielded(Last(r), t.claims.subject, v, d)
  {
    if Shielded(Last(r), t.claims.subject, v, d) {
      ShieldEndsInTime(r, t.claims.subject, v, d);
      forall more: I.Run | Continues(r, more) && Last(more).clock < d && id in Last(more).jobs
        ensures Last(more).jobs[id] != GoesOn(t)
      {
        RefusalHolds(r, more, |more.acts|, id, t, v, d);
      }
    } else {
      var more := UnshieldedPasses(r, id, t, v, d);
    }
  }

  /** So when a reset stores its counter `c`, it keeps a session's version `v` out for the 90 days
      of that counter if and only if `v` is below `c` and nothing under way threatens it. */
  lemma ResetShieldsIff(r: I.Run, w: nat, u: string, c: int, d: int, next: Job, v: int) returns (after: I.Run)
    requires r.Valid() && w in Last(r).jobs && Last(r).clock < d
    requires Last(r).jobs[w] == I.Putting(VersionKey(u), Entry(Version(c), Some(d)), next)
    ensures Continues(r, after) && Last(after) == I.Run1(r.setup, Last(r), w, "", "")
    ensures d <= Last(after).clock + VERSION_TTL
    ensures Shielded(Last(after), u, v, d) <==>
              v < c && forall o :: o in Last(r).jobs && o != w ==> !Threatens(Last(r).jobs[o], u, v, d)
  {
    after := Act(r, w);
    ShapedAt(r, |r.acts|);
    assert JobShape(Last(r).jobs[w], Last(r).clock);
    assert forall o :: o in Last(r).jobs && o != w ==> Last(after).jobs[o] == Last(r).jobs[o];
    assert !Threatens(next, u, v, d);
  }

  // ----- a stored session, end to end -----

  /** The session of `t` is stored, live and recorded with version `v`, and `t` verifies. */
  ghost predicate Stored(p: Setup, s: World, t: Token, v: int) {
    && t in s.released && Verifies(t, p.RefreshCfg(), s.clock)
    && SessionKey(t.claims.id) in s.m && s.m[SessionKey(t.claims.id)].Live(s.clock)
    && s.m[SessionKey(t.claims.id)].data == Session(t.claims.subject, v)
  }

  /** A released token's session is not stored again: it stays as it is, or goes. */
  lemma SessionStays(p: Setup, s: World, a: I.Action, t: Token, v: int)
    requires I.Inv(p, s) && I.Enabled(p, s, a) && t in s.released
    requires RecordsIfStored(s, t, v)
    ensures RecordsIfStored(I.Advance(p, s, a), t, v) && t in I.Advance(p, s, a).released
  {
    if a.Go? {
      I.GoSessionKeys(p, s, a.id, a.name1, a.name2, t.claims.id);
      assert I.JobOk(p, s, s.jobs[a.id]);
      KeyFacts();
    }
  }

  ghost predicate RecordsIfStored(s: World, t: Token, v: int) {
    SessionKey(t.claims.id) in s.m ==> s.m[SessionKey(t.claims.id)].data == Session(t.claims.subject, v)
  }

  /** A Refresh of `t` that has not come to the counter yet, or is on its way to be refused. */
  ghost predicate WillBeRefused(s: World, id: nat, t: Token, v: int, d: int) {
    || Refused(s, id, t, v, d)
    || (id in s.jobs &&
        match s.jobs[id]
        case Arrived(q) => q.Refresh? && q.token == t
        case Reading(key, k) => key == SessionKey(t.claims.id) && k == I.ToRefresh(t)
        case Holding(key, e, k) => e.data == Session(t.claims.subject, v) && k == I.ToRefresh(t)
        case Evicting(key, k) => k == I.ToRefresh(t)
        case _ => false)
  }

  lemma WillBeRefusedStep(p: Setup, s: World, a: I.Action, id: nat, t: Token, v: int, d: int)
    requires I.Enabled(p, s, a) && Shielded(s, t.claims.subject, v, d) && RecordsIfStored(s, t, v) && s.clock < d
    requires WillBeRefused(s, id, t, v, d)
    ensures WillBeRefused(I.Advance(p, s, a), id, t, v, d)
  {
  }

  ghost predicate Presents(s: World, id: nat, t: Token) {
    id in s.jobs && id in s.requests && s.requests[id].Refresh? && s.requests[id].token == t
  }

  lemma {:induction false} LaterOnesRefused(r: I.Run, more: I.Run, n: nat, id: nat, t: Token, v: int, d: int)
    requires r.Valid() && Continues(r, more) && |r.acts| <= n <= |more.acts|
    requires t in Last(r).released && RecordsIfStored(Last(r), t, v) && Shielded(Last(r), t.claims.subject, v, d)
    requires id !in Last(r).jobs && more.states[n].clock < d <= Last(r).clock + VERSION_TTL
    ensures t in more.states[n].released && RecordsIfStored(more.states[n], t, v)
    ensures Presents(more.states[n], id, t) ==> WillBeRefused(more.states[n], id, t, v, d)
  {
    if n > |r.acts| {
      assert more.Takes(n - 1);
      LaterOnesRefused(r, more, n - 1, id, t, v, d);
      ShieldHolds(r, more, n - 1, t.claims.subject, v, d);
      I.AlwaysInv(more, n - 1);
      SessionStays(more.setup, more.states[n - 1], more.acts[n - 1], t, v);
      if Presents(more.states[n - 1], id, t) {
        WillBeRefusedStep(more.setup, more.states[n - 1], more.acts[n - 1], id, t, v, d);
      }
    }
  }

  /** However the run goes on, no Refresh of `t` that arrives from now on is let past the counter
      before `d`. */
  ghost predicate LaterOnesKeptOut(r: I.Run, t: Token, d: int)
    requires r.Valid()
  {
    forall more: I.Run, id: nat
      | Continues(r, more) && Last(more).clock < d && id !in Last(r).jobs && Presents(Last(more), id, t) ::
      Last(more).jobs[id] != GoesOn(t)
  }

  lemma {:induction false} NewId(ids: set<nat>) returns (id: nat)
    ensures forall x :: x in ids ==> x < id
  {
    id := 0;
    if ids != {} {
      var x :| x in ids;
      id := NewId(ids - {x});
      assert forall y :: y in ids ==> y == x || y in ids - {x};
      id := if x < id then id else x + 1;
    }
  }

  lemma {:induction false} PresentsForGood(r: I.Run, more: I.Run, n: nat, id: nat, t: Token)
    requires r.Valid() && Continues(r, more) && |r.acts| <= n <= |more.acts| && Presents(Last(r), id, t)
    ensures Presents(more.states[n], id, t)
  {
    if n > |r.acts| {
      PresentsForGood(r, more, n - 1, id, t);
      assert more.Takes(n - 1);
    }
  }

  /** A Refresh of the stored session comes to read the counter. */
  lemma RefreshArrives(r: I.Run, id: nat, t: Token, v: int) returns (more: I.Run)
    requires r.Valid() && Stored(r.setup, Last(r), t, v) && id !in Last(r).jobs
    ensures Continues(r, more) && AboutToRead(more, id, t, v) && Presents(Last(more), id, t)
    ensures Last(more).clock == Last(r).clock && Last(more).m == Last(r).m
    ensures Last(more).jobs == Last(r).jobs[id := I.Reading(VersionKey(t.claims.subject), I.ToRotate(t, v))]
  {
    more := Extend(r, I.Arrive(id, Refresh(t, "", "")));
    more := Think(more, id);
    assert Last(more).jobs[id] == I.Reading(SessionKey(t.claims.id), I.ToRefresh(t));
    more := LiveRead(more, id, SessionKey(t.claims.id), I.ToRefresh(t));
  }

  lemma SomeLaterOnePasses(r: I.Run, t: Token, v: int, d: int) returns (more: I.Run, id: nat)
    requires r.Valid() && Stored(r.setup, Last(r), t, v) && Last(r).clock < d
    requires !Shielded(Last(r), t.claims.subject, v, d)
    ensures Continues(r, more) && Last(more).clock < d && id !in Last(r).jobs && Presents(Last(more), id, t)
    ensures Last(more).jobs[id] == GoesOn(t)
  {
    id := NewId(Last(r).jobs.Keys);
    var here := RefreshArrives(r, id, t, v);
    assert forall o :: o in Last(r).jobs ==> Last(here).jobs[o] == Last(r).jobs[o];
    assert !Shielded(Last(here), t.claims.subject, v, d);
    more := UnshieldedPasses(here, id, t, v, d);
    PresentsForGood(here, more, |more.acts|, id, t);
  }

  /** In every reachable state with the session of `t` stored and good: no Refresh of `t` from now on
      gets past the counter before `d` if and only if the counter is above the session's version up
      to `d` and nothing under way threatens it. */
  lemma LaterOnesKeptOutIff(r: I.Run, t: Token, v: int, d: int)
    requires r.Valid() && Stored(r.setup, Last(r), t, v) && Last(r).clock < d
    ensures LaterOnesKeptOut(r, t, d) <==> Shielded(Last(r), t.claims.subject, v, d)
  {
    if Shielded(Last(r), t.claims.subject, v, d) {
      ShieldEndsInTime(r, t.claims.subject, v, d);
      forall more: I.Run, id: nat
        | Continues(r, more) && Last(more).clock < d && id !in Last(r).jobs && Presents(Last(more), id, t)
        ensures Last(more).jobs[id] != GoesOn(t)
      {
        LaterOnesRefused(r, more, |more.acts|, id, t, v, d);
      }
    } else {
      var more, id := SomeLaterOnePasses(r, t, v, d);
    }
  }

  // ----- by the order of the steps -----

  /** Step `i` writes or removes the user's counter. */
  ghost predicate Touches(r: I.Run, i: nat, u: string)
    requires r.Valid() && i < |r.acts|
  {
    var s, a := r.states[i], r.acts[i];
    a.Go? && a.id in s.jobs && (s.jobs[a.id].Evicting? || s.jobs[a.id].Putting?) && s.jobs[a.id].key == VersionKey(u)
  }

  ghost predicate Untouched(r: I.Run, a: nat, b: nat, u: string)
    requires r.Valid() && b <= |r.acts|
  {
    forall i: nat :: a <= i < b ==> !Touches(r, i, u)
  }

  /** Untouched, a counter stays as it is, except that a sweep may drop it once it is dead. */
  lemma {:induction false} CounterSame(r: I.Run, a: nat, b: nat, u: string)
    requires r.Valid() && a <= b <= |r.acts| && Untouched(r, a, b, u)
    ensures var key, s, s' := VersionKey(u), r.states[a], r.states[b];
            && s.clock <= s'.clock
            && (key in s'.m ==> key in s.m && s'.m[key] == s.m[key])
            && (key in s.m && s.m[key].Live(s'.clock) ==> key in s'.m)
  {
    if a < b {
      CounterSame(r, a, b - 1, u);
      assert r.Takes(b - 1) && !Touches(r, b - 1, u);
      ShapedAt(r, b - 1);
      var s, act := r.states[b - 1], r.acts[b - 1];
      assert act.Go? ==> JobShape(s.jobs[act.id], s.clock);
    }
  }

  /** A read of request `id`: it copies the entry at step `i`, and has its answer in state `m`. */
  ghost predicate Reads(r: I.Run, i: nat, m: nat, id: nat, key: string, k: I.Cont) {
    && i < m <= |r.acts| && r.Takes(i) && r.acts[i].Go? && r.acts[i].id == id
    && id in r.states[i].jobs && r.states[i].jobs[id] == I.Reading(key, k)
    && (forall l: nat :: i < l < m ==> InRead(r.states[l], id))
    && id in r.states[m].jobs && !InRead(r.states[m], id)
  }

  ghost predicate InRead(s: World, id: nat) {
    id in s.jobs && (s.jobs[id].Holding? || s.jobs[id].Evicting?)
  }

  lemma {:induction false} ReadProgress(r: I.Run, i: nat, m: nat, id: nat, key: string, k: I.Cont, l: nat)
    requires r.Valid() && Reads(r, i, m, id, key, k) && i < l < m
    ensures key in r.states[i].m && r.states[i].clock <= r.states[l].clock && InRead(r.states[l], id)
    ensures var s, e := r.states[l], r.states[i].m[key];
            s.jobs[id] == I.Holding(key, e, k) || (s.jobs[id] == I.Evicting(key, k) && !e.Live(s.clock))
  {
    assert r.Takes(l - 1) && InRead(r.states[l], id);
    if l > i + 1 {
      ReadProgress(r, i, m, id, key, k, l - 1);
    }
  }

  /** A read answers what it copied, unless that was dead when it looked; then it deleted it. */
  lemma ReadResult(r: I.Run, i: nat, m: nat, id: nat, key: string, k: I.Cont) returns (found: Option<Value>)
    requires r.Valid() && Reads(r, i, m, id, key, k)
    ensures r.states[m].jobs[id] == I.Resume(r.setup, k, found)
    ensures found.Some? ==> key in r.states[i].m && found.value == r.states[i].m[key].data
    ensures key in r.states[i].m && r.states[i].m[key].Live(r.states[m].clock) ==> found.Some?
    ensures found.None? && key in r.states[i].m ==>
              && i < m - 1 && r.acts[m - 1].Go? && r.acts[m - 1].id == id
              && id in r.states[m - 1].jobs && r.states[m - 1].jobs[id] == I.Evicting(key, k)
  {
    assert r.Takes(m - 1);
    found := None;
    if i < m - 1 {
      ReadProgress(r, i, m, id, key, k, m - 1);
      if r.states[m - 1].jobs[id].Holding? {
        found := Some(r.states[i].m[key].data);
      }
    }
  }

  /** Step `n` of request `w` stores the counter `c`, to last until `d`. */
  ghost predicate StoresCounter(r: I.Run, n: nat, w: nat, u: string, c: int, d: int) {
    && r.Takes(n) && r.acts[n].Go? && r.acts[n].id == w && w in r.states[n].jobs
    && r.states[n].jobs[w].Putting? && r.states[n].jobs[w].key == VersionKey(u)
    && r.states[n].jobs[w].e == Entry(Version(c), Some(d))
  }

  lemma ReadAfterStore(r: I.Run, n: nat, w: nat, u: string, c: int, d: int, i: nat, m: nat, id: nat, k: I.Cont)
    requires r.Valid() && StoresCounter(r, n, w, u, c, d) && n < i && Reads(r, i, m, id, VersionKey(u), k)
    requires Untouched(r, n + 1, i, u) && r.states[m].clock < d
    ensures r.states[m].jobs[id] == I.Resume(r.setup, k, Some(Version(c)))
  {
    ClockRises(r, i, m);
    CounterSame(r, n + 1, i, u);
    var found := ReadResult(r, i, m, id, VersionKey(u), k);
  }

  lemma {:induction false} ClockRises(r: I.Run, a: nat, b: nat)
    requires r.Valid() && a <= b <= |r.acts|
    ensures r.states[a].clock <= r.states[b].clock
  {
    if a < b {
      ClockRises(r, a, b - 1);
      assert r.Takes(b - 1);
    }
  }

  /** A Refresh that reads the counter a reset stored, before anything else touches it and while it
      lives, is let past if and only if its session recorded that version or a higher one. */
  lemma RefreshPassesIff(r: I.Run, n: nat, w: nat, u: string, c: int, d: int, i: nat, m: nat, id: nat, t: Token, v: int)
    requires r.Valid() && StoresCounter(r, n, w, u, c, d) && n < i && t.claims.subject == u
    requires Reads(r, i, m, id, VersionKey(u), I.ToRotate(t, v))
    requires Untouched(r, n + 1, i, u) && r.states[m].clock < d
    ensures r.states[m].jobs[id] == GoesOn(t) <==> v >= c
    ensures v < c ==> r.states[m].jobs[id] == I.Deleting(SessionKey(t.claims.id), I.Ended(InvalidToken))
  {
    ReadAfterStore(r, n, w, u, c, d, i, m, id, I.ToRotate(t, v));
  }

  lemma {:induction false} BumpStores(r: I.Run, a: nat, n: nat, w: nat, u: string, x: int)
    requires r.Valid() && a <= n <= |r.acts| && w in r.states[a].jobs
    requires r.states[a].jobs[w] == I.Stamping(VersionKey(u), Version(x), VERSION_TTL, I.Ended(Done))
    ensures w in r.states[n].jobs
    ensures var job := r.states[n].jobs[w];
            || job == r.states[a].jobs[w] || job == I.Ended(Done)
            || (job.Putting? && job.key == VersionKey(u) && job.e.data == Version(x) && job.next == I.Ended(Done))
  {
    if a < n {
      BumpStores(r, a, n - 1, w, u, x);
      assert r.Takes(n - 1);
    }
  }

  /** A reset reads the counter at step `a` and stores its own at step `n`, with nothing touching the
      counter between. A login that reads it after step `a` records a version the reset's counter
      lets past if and only if it reads after the reset has stored. */
  lemma LoginRecordsIff(r: I.Run, a: nat, b: nat, n: nat, w: nat, u: string, c: int, d: int,
                        i: nat, m: nat, id: nat, access: Token, t: Token)
    requires r.Valid() && Reads(r, a, b, w, VersionKey(u), I.ToBump(u)) && b <= n && StoresCounter(r, n, w, u, c, d)
    requires Reads(r, i, m, id, VersionKey(u), I.ToIssue(u, access, t)) && a < i
    requires Untouched(r, a, n, u)
    requires n < i ==> Untouched(r, n + 1, i, u) && r.states[m].clock < d
    ensures var job := r.states[m].jobs[id];
            job.Stamping? && job.data.Session? && job.data.subject == u && (job.data.version >= c <==> n < i)
  {
    if n < i {
      ReadAfterStore(r, n, w, u, c, d, i, m, id, I.ToIssue(u, access, t));
      StoredIsPositive(r, n, w, u, c, d);
    } else {
      assert i != n;
      StoresOneMore(r, a, b, n, w, u, c, d);
      CounterSame(r, a, i, u);
      var mine := ReadResult(r, i, m, id, VersionKey(u), I.ToIssue(u, access, t));
    }
  }

  lemma StoredIsPositive(r: I.Run, n: nat, w: nat, u: string, c: int, d: int)
    requires r.Valid() && StoresCounter(r, n, w, u, c, d)
    ensures c >= 1
  {
    ShapedAt(r, n);
    assert JobShape(r.states[n].jobs[w], r.states[n].clock);
  }

  /** A reset between whose read and store nothing touches the counter stores one more than it was. */
  lemma StoresOneMore(r: I.Run, a: nat, b: nat, n: nat, w: nat, u: string, c: int, d: int)
    requires r.Valid() && Reads(r, a, b, w, VersionKey(u), I.ToBump(u)) && b <= n && StoresCounter(r, n, w, u, c, d)
    requires Untouched(r, a, n, u)
    ensures c >= 1
    ensures VersionKey(u) in r.states[a].m ==>
              r.states[a].m[VersionKey(u)].data.Version? && c == r.states[a].m[VersionKey(u)].data.number + 1
    ensures VersionKey(u) !in r.states[a].m ==> c == 1
  {
    var key := VersionKey(u);
    StoredIsPositive(r, n, w, u, c, d);
    var found := ReadResult(r, a, b, w, key, I.ToBump(u));
    BumpStores(r, b, n, w, u, I.Number(found) + 1);
    if found.None? && key in r.states[a].m {
      assert Touches(r, b - 1, u);
      assert false;
    }
    ShapedAt(r, a);
    assert key in r.states[a].m ==> EntryShape(key, r.states[a].m[key], r.states[a].clock);
  }
}
