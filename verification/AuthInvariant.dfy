/** What every request keeps true of the session protocol's state. */
module AuthInvariant {
  import opened Ttl
  import opened Tokens
  import opened AuthSpec

  /** The key families never collide, and within a family a key names one thing. */
  lemma KeyFacts()
    ensures forall a, b {:trigger SessionKey(a), SessionKey(b)} :: SessionKey(a) == SessionKey(b) ==> a == b
    ensures forall a, b {:trigger ResetKey(a), ResetKey(b)} :: ResetKey(a) == ResetKey(b) ==> a == b
    ensures forall a, b {:trigger VersionKey(a), VersionKey(b)} :: VersionKey(a) == VersionKey(b) ==> a == b
    ensures forall a, b {:trigger SessionKey(a), ResetKey(b)} :: SessionKey(a) != ResetKey(b)
    ensures forall a, b {:trigger SessionKey(a), VersionKey(b)} :: SessionKey(a) != VersionKey(b)
    ensures forall a, b {:trigger ResetKey(a), VersionKey(b)} :: ResetKey(a) != VersionKey(b)
  {
    forall a, b ensures SessionKey(a) == SessionKey(b) ==> a == b {
      SameSuffix("auth:refresh:", a, b);
    }
    forall a, b ensures ResetKey(a) == ResetKey(b) ==> a == b {
      SameSuffix("auth:reset:", a, b);
    }
    forall a, b ensures VersionKey(a) == VersionKey(b) ==> a == b {
      SameSuffix("auth:ver:", a, b);
    }
    forall a, b ensures SessionKey(a) != ResetKey(b) {
      assert SessionKey(a)[7] == 'f' && ResetKey(b)[7] == 's';
    }
    forall a, b ensures SessionKey(a) != VersionKey(b) {
      assert SessionKey(a)[5] == 'r' && VersionKey(b)[5] == 'v';
    }
    forall a, b ensures ResetKey(a) != VersionKey(b) {
      assert ResetKey(a)[5] == 'r' && VersionKey(b)[5] == 'v';
    }
  }

  lemma SameSuffix(prefix: string, a: string, b: string)
    ensures prefix + a == prefix + b ==> a == b
  {
    assert (prefix + a)[|prefix|..] == a && (prefix + b)[|prefix|..] == b;
  }

  lemma {:induction false} AllShorter(names: set<string>) returns (n: nat)
    ensures forall x :: x in names ==> |x| < n
  {
    n := 0;
    if names != {} {
      var x :| x in names;
      n := AllShorter(names - {x});
      n := if |x| < n then n else |x| + 1;
    }
  }

  /** There are always names not drawn yet. */
  lemma NamesRemain(drawn: set<string>) returns (a: string, b: string)
    ensures a != b && a != "" && b != "" && a !in drawn && b !in drawn
  {
    var n := AllShorter(drawn);
    a, b := seq(n + 1, i => 'a'), seq(n + 2, i => 'a');
    assert |a| != |b|;
  }

  /** `t` is the refresh token whose session `e` is. */
  ghost predicate Backs(t: Token, e: Entry<Value>) {
    && t.claims.tokenType == "refresh"
    && e.data.Session? && e.data.subject == t.claims.subject
    && (e.expiresAt.None? || t.claims.expiresAt <= e.expiresAt.value)
  }

  ghost predicate IssuedOk(p: Setup, s: State) {
    && (forall t :: t in s.issued ==> t.alg == HS256 && t.key == p.jwt.secret && t.claims.id in s.drawn)
    && (forall t, u :: t in s.issued && u in s.issued && t.claims.id == u.claims.id ==> t == u)
    && "" !in s.drawn
  }

  ghost predicate SessionsOk(s: State) {
    forall jti {:trigger SessionKey(jti)} :: SessionKey(jti) in s.cache ==>
      exists t :: t in s.issued && t.claims.id == jti && Backs(t, s.cache[SessionKey(jti)])
  }

  ghost predicate VersionsOk(s: State) {
    forall u {:trigger VersionKey(u)} :: VersionKey(u) in s.cache ==>
      s.cache[VersionKey(u)].data.Version? && s.cache[VersionKey(u)].data.number >= 1
  }

  ghost predicate ResetsOk(s: State) {
    forall x {:trigger ResetKey(x)} :: ResetKey(x) in s.cache ==>
      s.cache[ResetKey(x)].data.Email? && x in s.drawn
  }

  ghost predicate RevokedOk(s: State) {
    forall jti :: jti in s.revoked ==>
      exists t :: t in s.issued && t.claims.id == jti && t.claims.expiresAt <= s.revoked[jti]
  }

  ghost predicate Inv(p: Setup, s: State) {
    && IssuedOk(p, s) && SessionsOk(s) && VersionsOk(s) && ResetsOk(s) && RevokedOk(s)
    && UniqueEmails(s.users)
  }

  lemma DeleteKeepsInv(p: Setup, s: State, key: string)
    requires Inv(p, s)
    ensures Inv(p, s.(cache := s.cache - {key}))
  {
  }

  lemma IssueKeepsInv(p: Setup, s: State, subject: string, now: int, accessId: string, refreshId: string)
    requires Inv(p, s) && Fresh(s, accessId) && Fresh(s, refreshId) && accessId != refreshId
    ensures Inv(p, IssuePair(p, s, subject, now, accessId, refreshId).0)
  {
    var (s', a) := IssuePair(p, s, subject, now, accessId, refreshId);
    if a.Pair? {
      KeyFacts();
      assert a.refresh in s'.issued && Backs(a.refresh, s'.cache[SessionKey(refreshId)]);
    }
  }

  lemma RefreshKeepsInv(p: Setup, s: State, r: Request, now: int)
    requires Inv(p, s) && r.Refresh? && Possible(p, s, r)
    ensures Inv(p, RefreshStep(p, s, r, now).0)
  {
    var spent := s.(cache := s.cache - {SessionKey(r.token.claims.id)});
    DeleteKeepsInv(p, s, SessionKey(r.token.claims.id));
    IssueKeepsInv(p, spent, r.token.claims.subject, now, r.accessId, r.refreshId);
  }

  lemma LogoutKeepsInv(p: Setup, s: State, r: Request, now: int)
    requires Inv(p, s) && r.Logout? && r.later.Follow(now) && Possible(p, s, r)
    ensures Inv(p, LogoutStep(p, s, r, now).0)
  {
    if Verifies(r.access, p.jwt, now) {
      var s1 := s.(revoked := Revoke(s.revoked, r.access.claims, r.later.asked, r.later.stamped));
      assert Inv(p, s1);
      if r.refresh.Some? {
        DeleteKeepsInv(p, s1, SessionKey(r.refresh.value.claims.id));
      }
    }
  }

  lemma ForgotKeepsInv(p: Setup, s: State, r: Request, now: int)
    requires Inv(p, s) && r.ForgotPassword? && Possible(p, s, r)
    ensures Inv(p, ForgotStep(s, r, now).0)
  {
    KeyFacts();
  }

  lemma ResetKeepsInv(p: Setup, s: State, r: Request, now: int)
    requires Inv(p, s) && r.ResetPassword?
    ensures Inv(p, ResetStep(s, r, now).0)
  {
    KeyFacts();
    DeleteKeepsInv(p, s, ResetKey(r.ticket));
  }

  lemma StepKeepsInv(p: Setup, s: State, r: Request, now: int)
    requires Inv(p, s) && Possible(p, s, r) && Timely(r, now)
    ensures Inv(p, Step(p, s, r, now).0)
  {
    match r {
      case Login(email, _, accessId, refreshId) =>
        var id := FindByEmail(s.users, email);
        if id.Some? {
          IssueKeepsInv(p, s, id.value, now, accessId, refreshId);
        }
      case Refresh(_, _, _) => RefreshKeepsInv(p, s, r, now);
      case Logout(_, _, _) => LogoutKeepsInv(p, s, r, now);
      case ForgotPassword(_, _) => ForgotKeepsInv(p, s, r, now);
      case ResetPassword(_, _) => ResetKeepsInv(p, s, r, now);
      case _ =>
    }
  }
}
