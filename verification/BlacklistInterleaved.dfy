/** Revocation with any number of requests in flight (pkg/auth/memory_blacklist.go as Logout in
    internal/usecase/auth_usecase.go and pkg/auth/middleware.go use it).

    A Logout reads the clock to verify the token, again for what is left of its life, and a third
    time, before taking the lock, for the entry and a sweep. The middleware reads it to verify
    the token, and again under the lock. Between any two of these anything may happen. */
module BlacklistInterleaved {
  import opened Ttl
  import Blacklist

  /** A token is its id and its exp. */
  datatype Job =
    | Verified(jti: string, exp: int)
    | Asked(jti: string, exp: int, remaining: int)
    | Stamped(jti: string, exp: int, remaining: int, now: int)
    | LoggedOut(jti: string, exp: int)
    | Admitting(jti: string, exp: int)
    | Decided(jti: string, exp: int, admitted: bool)

  datatype State = State(m: map<string, int>, clock: int, jobs: map<nat, Job>)

  /** Logout and Admit are the requests whose token has just verified. */
  datatype Action =
    | Tick(now: int)
    | Logout(id: nat, jti: string, exp: int)
    | Admit(id: nat, jti: string, exp: int)
    | Go(id: nat)

  ghost predicate Enabled(life: map<string, int>, s: State, a: Action) {
    match a
    case Tick(now) => s.clock <= now
    case Logout(id, jti, exp) => id !in s.jobs && OfToken(life, jti, exp) && s.clock < exp
    case Admit(id, jti, exp) => id !in s.jobs && OfToken(life, jti, exp) && s.clock < exp
    case Go(id) => id in s.jobs && !s.jobs[id].LoggedOut? && !s.jobs[id].Decided?
  }

  /** Token ids are never empty, and each names one token: `life` gives its exp. */
  ghost predicate OfToken(life: map<string, int>, jti: string, exp: int) {
    jti != "" && jti in life && life[jti] == exp
  }

  function Revoked(m: map<string, int>, jti: string, ttl: int, now: int): map<string, int> {
    (if |m| >= Blacklist.SWEEP_THRESHOLD then Blacklist.Sweep(m, now) else m)[jti := now + ttl]
  }

  ghost function Step(s: State, a: Action): State
    requires a.Go? ==> a.id in s.jobs
  {
    match a
    case Tick(now) => s.(clock := now)
    case Logout(id, jti, exp) => s.(jobs := s.jobs[id := Verified(jti, exp)])
    case Admit(id, jti, exp) => s.(jobs := s.jobs[id := Admitting(jti, exp)])
    case Go(id) =>
      match s.jobs[id]
      case Verified(jti, exp) =>
        s.(jobs := s.jobs[id := if exp - s.clock > 0 then Asked(jti, exp, exp - s.clock) else LoggedOut(jti, exp)])
      case Asked(jti, exp, remaining) => s.(jobs := s.jobs[id := Stamped(jti, exp, remaining, s.clock)])
      case Stamped(jti, exp, remaining, now) =>
        s.(m := Revoked(s.m, jti, remaining, now), jobs := s.jobs[id := LoggedOut(jti, exp)])
      case Admitting(jti, exp) =>
        s.(m := if jti in s.m && s.m[jti] <= s.clock then s.m - {jti} else s.m,
           jobs := s.jobs[id := Decided(jti, exp, !Blacklist.Refused(s.m, jti, s.clock))])
      case _ => s
  }

  ghost predicate IsRun(life: map<string, int>, states: seq<State>, acts: seq<Action>) {
    && |states| == |acts| + 1
    && states[0].m == map[] && states[0].jobs == map[]
    && forall i :: 0 <= i < |acts| ==> Enabled(life, states[i], acts[i]) && states[i + 1] == Step(states[i], acts[i])
  }

  /** No entry ends before its token, and a token whose Logout is done has one or is dead. */
  ghost predicate Inv(life: map<string, int>, s: State) {
    && (forall jti :: jti in s.m ==> jti in life && life[jti] <= s.m[jti])
    && (forall id :: id in s.jobs ==> JobOk(life, s, s.jobs[id]))
  }

  ghost predicate JobOk(life: map<string, int>, s: State, job: Job) {
    && OfToken(life, job.jti, job.exp)
    && (job.Asked? ==> job.remaining > 0 && job.exp <= s.clock + job.remaining)
    && (job.Stamped? ==> job.remaining > 0 && job.exp <= job.now + job.remaining && job.now <= s.clock)
    && (job.LoggedOut? ==> job.jti in s.m || job.exp <= s.clock)
  }

  lemma JobStaysOk(life: map<string, int>, s: State, a: Action, job: Job)
    requires Inv(life, s) && Enabled(life, s, a) && JobOk(life, s, job)
    ensures JobOk(life, Step(s, a), job)
  {
    if a.Go? {
      assert JobOk(life, s, s.jobs[a.id]);
    }
  }

  lemma InvStep(life: map<string, int>, s: State, a: Action)
    requires Inv(life, s) && Enabled(life, s, a)
    ensures Inv(life, Step(s, a))
  {
    var s' := Step(s, a);
    if a.Go? {
      assert JobOk(life, s, s.jobs[a.id]);
    }
    forall id | id in s'.jobs ensures JobOk(life, s', s'.jobs[id]) {
      if id in s.jobs && s'.jobs[id] == s.jobs[id] {
        JobStaysOk(life, s, a, s.jobs[id]);
      }
    }
  }

  lemma {:induction false} AlwaysInv(life: map<string, int>, states: seq<State>, acts: seq<Action>, n: nat)
    requires IsRun(life, states, acts) && n <= |acts|
    ensures Inv(life, states[n])
  {
    if n > 0 {
      AlwaysInv(life, states, acts, n - 1);
      InvStep(life, states[n - 1], acts[n - 1]);
    }
  }

  lemma {:induction false} LoggedOutStays(life: map<string, int>, states: seq<State>, acts: seq<Action>,
                                          n: nat, m: nat, out: nat)
    requires IsRun(life, states, acts) && n <= m <= |acts|
    requires out in states[n].jobs && states[n].jobs[out].LoggedOut?
    ensures out in states[m].jobs && states[m].jobs[out] == states[n].jobs[out]
    ensures states[n].clock <= states[m].clock
  {
    if n < m {
      LoggedOutStays(life, states, acts, n, m - 1, out);
      assert states[m] == Step(states[m - 1], acts[m - 1]);
    }
  }

  /** Under any interleaving of Logouts, sweeps and checks: once a Logout of a token has ended, a
      request that looks at the blacklist while the token lives is refused. */
  lemma RevokedStaysRevoked(life: map<string, int>, states: seq<State>, acts: seq<Action>,
                            n: nat, m: nat, out: nat, id: nat)
    requires IsRun(life, states, acts) && n <= m < |acts| && acts[m] == Go(id)
    requires out in states[n].jobs && states[n].jobs[out].LoggedOut?
    requires states[m].jobs[id] == Admitting(states[n].jobs[out].jti, states[n].jobs[out].exp)
    requires states[m].clock < states[n].jobs[out].exp
    ensures states[m + 1].jobs[id] == Decided(states[n].jobs[out].jti, states[n].jobs[out].exp, false)
  {
    LoggedOutStays(life, states, acts, n, m, out);
    AlwaysInv(life, states, acts, m);
    assert JobOk(life, states[m], states[m].jobs[out]);
    assert states[m + 1] == Step(states[m], acts[m]);
  }

  // ----- exactly when a request gets through -----

  /** Step `i` writes an entry for `jti`. */
  ghost predicate Writes(states: seq<State>, acts: seq<Action>, i: nat, jti: string)
    requires i < |acts| == |states| - 1
  {
    acts[i].Go? && acts[i].id in states[i].jobs && states[i].jobs[acts[i].id].Stamped?
    && states[i].jobs[acts[i].id].jti == jti
  }

  /** The deadline the last Logout step for `jti` among the first `n` gave it, told from the steps
      alone: what was left of the token's life, counted from the last reading. */
  ghost function Deadline(states: seq<State>, acts: seq<Action>, jti: string, n: nat): Option<int>
    requires n <= |acts| == |states| - 1
  {
    if n == 0 then None
    else if Writes(states, acts, n - 1, jti) then
      var job := states[n - 1].jobs[acts[n - 1].id]; Some(job.now + job.remaining)
    else Deadline(states, acts, jti, n - 1)
  }

  /** Whatever was swept and pruned, the table has that deadline as long as it lies ahead, and never
      another. */
  lemma {:induction false} TableHasDeadline(life: map<string, int>, states: seq<State>, acts: seq<Action>,
                                            jti: string, n: nat)
    requires IsRun(life, states, acts) && n <= |acts|
    ensures var s, d := states[n], Deadline(states, acts, jti, n);
            && (jti in s.m ==> d == Some(s.m[jti]))
            && (d.Some? && s.clock < d.value ==> jti in s.m)
  {
    if n > 0 {
      TableHasDeadline(life, states, acts, jti, n - 1);
      AlwaysInv(life, states, acts, n - 1);
      assert states[n] == Step(states[n - 1], acts[n - 1]);
      if acts[n - 1].Go? {
        assert JobOk(life, states[n - 1], states[n - 1].jobs[acts[n - 1].id]);
      }
    }
  }

  /** No deadline comes before the end of its token. */
  lemma {:induction false} DeadlineOutlives(life: map<string, int>, states: seq<State>, acts: seq<Action>,
                                            jti: string, n: nat)
    requires IsRun(life, states, acts) && n <= |acts|
    ensures var d := Deadline(states, acts, jti, n); d.Some? ==> jti in life && life[jti] <= d.value
  {
    if n > 0 {
      DeadlineOutlives(life, states, acts, jti, n - 1);
      if Writes(states, acts, n - 1, jti) {
        AlwaysInv(life, states, acts, n - 1);
        assert JobOk(life, states[n - 1], states[n - 1].jobs[acts[n - 1].id]);
      }
    }
  }

  /** Exactly when a request that has verified its token gets through, under any interleaving: when
      no Logout has written an entry for the token, or the last one's deadline has passed at the
      look at the blacklist. With a token whose Logout has ended, that is never before its end. */
  lemma AdmittedIffOutlived(life: map<string, int>, states: seq<State>, acts: seq<Action>, m: nat, id: nat)
    requires IsRun(life, states, acts) && m < |acts| && acts[m] == Go(id) && states[m].jobs[id].Admitting?
    ensures var jti, exp := states[m].jobs[id].jti, states[m].jobs[id].exp;
            var d := Deadline(states, acts, jti, m);
            && states[m + 1].jobs[id] == Decided(jti, exp, d.None? || d.value <= states[m].clock)
            && (d.Some? ==> exp <= d.value)
            && (forall out :: out in states[m].jobs && states[m].jobs[out] == LoggedOut(jti, exp) ==>
                  d.Some? || exp <= states[m].clock)
  {
    var jti, exp := states[m].jobs[id].jti, states[m].jobs[id].exp;
    assert states[m + 1] == Step(states[m], acts[m]);
    TableHasDeadline(life, states, acts, jti, m);
    DeadlineOutlives(life, states, acts, jti, m);
    AlwaysInv(life, states, acts, m);
    assert JobOk(life, states[m], states[m].jobs[id]);
    forall out | out in states[m].jobs && states[m].jobs[out] == LoggedOut(jti, exp)
      ensures Deadline(states, acts, jti, m).Some? || exp <= states[m].clock
    {
      assert JobOk(life, states[m], states[m].jobs[out]);
    }
  }

  lemma Extend(life: map<string, int>, states: seq<State>, acts: seq<Action>, a: Action) returns (more: seq<State>)
    requires IsRun(life, states, acts) && Enabled(life, states[|acts|], a)
    ensures more == states + [Step(states[|acts|], a)] && IsRun(life, more, acts + [a])
  {
    more := states + [Step(states[|acts|], a)];
    var longer := acts + [a];
    forall i | 0 <= i < |longer|
      ensures Enabled(life, more[i], longer[i]) && more[i + 1] == Step(more[i], longer[i])
    {
      if i < |acts| {
        assert more[i] == states[i] && more[i + 1] == states[i + 1] && longer[i] == acts[i];
      }
    }
  }

  lemma LogsOut(jti: string, exp: int) returns (states: seq<State>, acts: seq<Action>)
    requires jti != "" && exp > 0
    ensures IsRun(map[jti := exp], states, acts) && |acts| == 4
    ensures states[4] == State(map[jti := exp], 0, map[0 := LoggedOut(jti, exp)])
  {
    var life := map[jti := exp];
    states, acts := [State(map[], 0, map[])], [];
    states := Extend(life, states, acts, Logout(0, jti, exp));
    acts := acts + [Logout(0, jti, exp)];
    states := Extend(life, states, acts, Go(0));
    acts := acts + [Go(0)];
    states := Extend(life, states, acts, Go(0));
    acts := acts + [Go(0)];
    assert states[|acts|].jobs == map[0 := Stamped(jti, exp, exp, 0)];
    states := Extend(life, states, acts, Go(0));
    acts := acts + [Go(0)];
  }

  /** That can happen: a request that verified a logged-out token just before its end, and looks at
      the blacklist just after, is let through. */
  lemma OutlivedIsAdmitted(jti: string, exp: int) returns (states: seq<State>, acts: seq<Action>)
    requires jti != "" && exp > 0
    ensures IsRun(map[jti := exp], states, acts) && |acts| == 7
    ensures 0 in states[4].jobs && states[4].jobs[0] == LoggedOut(jti, exp) && 1 !in states[4].jobs
    ensures 1 in states[7].jobs && states[7].jobs[1] == Decided(jti, exp, true)
  {
    var life := map[jti := exp];
    states, acts := LogsOut(jti, exp);
    states := Extend(life, states, acts, Admit(1, jti, exp));
    acts := acts + [Admit(1, jti, exp)];
    states := Extend(life, states, acts, Tick(exp));
    acts := acts + [Tick(exp)];
    states := Extend(life, states, acts, Go(1));
    acts := acts + [Go(1)];
  }
}
