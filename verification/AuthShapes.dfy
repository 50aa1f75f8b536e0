/** What kind of key each job of a request works on, and what is stored under it, in every
    interleaving. */
module AuthShapes {
  import opened Ttl
  import opened AuthSpec
  import opened AuthInvariant
  import I = AuthInterleaved

  ghost predicate DataShape(key: string, data: Value) {
    && (forall u :: key == VersionKey(u) ==> data.Version? && data.number >= 1)
    && (forall jti :: key == SessionKey(jti) ==> data.Session? && data.version >= 0)
    && (forall x :: key == ResetKey(x) ==> data.Email?)
  }

  /** Counters live 90 days from some instant before `now`. */
  ghost predicate EntryShape(key: string, e: Entry<Value>, now: int) {
    && DataShape(key, e.data)
    && (forall u :: key == VersionKey(u) ==> e.expiresAt.Some? && e.expiresAt.value <= now + VERSION_TTL)
  }

  ghost predicate ContShape(key: string, k: I.Cont) {
    match k
    case ToRefresh(t) => key == SessionKey(t.claims.id)
    case ToRotate(t, version) => key == VersionKey(t.claims.subject) && version >= 0
    case ToIssue(subject, _, _) => key == VersionKey(subject)
    case ToReset(x, _) => key == ResetKey(x)
    case ToBump(u) => key == VersionKey(u)
  }

  ghost predicate JobShape(job: I.Job, now: int) {
    match job
    case Reading(key, k) => ContShape(key, k)
    case Holding(key, e, k) => ContShape(key, k) && EntryShape(key, e, now)
    case Evicting(key, k) => ContShape(key, k)
    case Deleting(key, next) =>
      && (forall u :: key != VersionKey(u))
      && (next.Ended? || next.FindUser? || (next.Reading? && next.k.ToBump? && ContShape(next.key, next.k)))
    case Stamping(key, data, ttl, next) =>
      && DataShape(key, data) && next.Ended?
      && (forall u :: key == VersionKey(u) ==> ttl == VERSION_TTL)
      && (forall x :: key == ResetKey(x) ==> ttl == RESET_TTL && next == I.Ended(ResetIssued(x)))
    case Putting(key, e, next) => EntryShape(key, e, now) && next.Ended?
    case _ => true
  }

  ghost predicate Shaped(s: I.World) {
    && (forall key :: key in s.m ==> EntryShape(key, s.m[key], s.clock))
    && (forall id :: id in s.jobs ==> JobShape(s.jobs[id], s.clock))
  }

  lemma ResumeShape(p: Setup, key: string, k: I.Cont, found: Option<Value>, now: int)
    requires ContShape(key, k) && (found.Some? ==> DataShape(key, found.value))
    ensures JobShape(I.Resume(p, k, found), now)
  {
    KeyFacts();
  }

  lemma StartShape(p: Setup, s: I.World, q: Request, name: string)
    ensures JobShape(I.Start(p, s, q, name), s.clock)
  {
    KeyFacts();
  }

  lemma NextShape(p: Setup, s: I.World, id: nat, name1: string, name2: string)
    requires Shaped(s) && id in s.jobs
    ensures JobShape(I.Next(p, s, s.jobs[id], name1, name2), s.clock)
  {
    KeyFacts();
    var job := s.jobs[id];
    assert JobShape(job, s.clock);
    match job {
      case Arrived(q) => StartShape(p, s, q, name1);
      case Reading(key, k) => ResumeShape(p, key, k, None, s.clock);
      case Holding(key, e, k) => ResumeShape(p, key, k, Some(e.data), s.clock);
      case Evicting(key, k) => ResumeShape(p, key, k, None, s.clock);
      case _ =>
    }
  }

  lemma ShapeStep(p: Setup, s: I.World, a: I.Action)
    requires Shaped(s) && I.Enabled(p, s, a)
    ensures Shaped(I.Advance(p, s, a))
  {
    var s' := I.Advance(p, s, a);
    if a.Go? {
      assert JobShape(s.jobs[a.id], s.clock);
      NextShape(p, s, a.id, a.name1, a.name2);
    }
    forall id | id in s'.jobs ensures JobShape(s'.jobs[id], s'.clock) {
      assert id in s.jobs ==> JobShape(s.jobs[id], s.clock);
    }
  }

  lemma {:induction false} ShapedAt(r: I.Run, n: nat)
    requires r.Valid() && n <= |r.acts|
    ensures Shaped(r.states[n])
  {
    if n > 0 {
      ShapedAt(r, n - 1);
      assert r.Takes(n - 1);
      ShapeStep(r.setup, r.states[n - 1], r.acts[n - 1]);
    }
  }
}
