/** Rotation chains over every serial run: a login starts a chain, and each Refresh replaces
    the chain's session by the next. */
module AuthChains {
  import opened AuthSpec
  import opened AuthInvariant
  import opened AuthRuns

  /** The login each refresh token descends from, by token id, after a request. */
  ghost function Trace(origins: map<string, string>, q: Request, a: Response): map<string, string> {
    if !a.Pair? then origins
    else if q.Refresh? && q.token.claims.id in origins then origins[a.refresh.claims.id := origins[q.token.claims.id]]
    else origins[a.refresh.claims.id := a.refresh.claims.id]
  }

  ghost function Origins(r: Run, n: nat): map<string, string>
    requires n <= |r.events| == |r.answers|
  {
    if n == 0 then map[] else Trace(Origins(r, n - 1), r.events[n - 1].request, r.answers[n - 1])
  }

  /** Sessions `a` and `b` are both stored, and descend from one login. */
  ghost predicate Together(s: State, origins: map<string, string>, a: string, b: string) {
    && SessionKey(a) in s.cache && SessionKey(b) in s.cache
    && a in origins && b in origins && origins[a] == origins[b]
  }

  /** Stored sessions are traced, no two to the same login, and only drawn names occur. */
  ghost predicate Apart(s: State, origins: map<string, string>) {
    && (forall jti {:trigger SessionKey(jti)} :: SessionKey(jti) in s.cache ==> jti in origins)
    && (forall a, b :: Together(s, origins, a, b) ==> a == b)
    && (forall jti :: jti in origins ==> jti in s.drawn && origins[jti] in s.drawn)
  }

  lemma SessionsShrink(p: Setup, s: State, q: Request, now: int)
    requires !Step(p, s, q, now).1.Pair?
    ensures forall jti {:trigger SessionKey(jti)} ::
              SessionKey(jti) in Step(p, s, q, now).0.cache ==> SessionKey(jti) in s.cache
    ensures s.drawn <= Step(p, s, q, now).0.drawn
  {
    KeyFacts();
  }

  /** What a pair does to the sessions: one new one, and after a Refresh one fewer. */
  lemma PairSessions(p: Setup, s: State, q: Request, now: int)
    requires Inv(p, s) && Possible(p, s, q) && Step(p, s, q, now).1.Pair?
    ensures var (s', a) := Step(p, s, q, now);
            var new' := a.refresh.claims.id;
            && new' !in s.drawn && new' in s'.drawn && s.drawn <= s'.drawn
            && (q.Refresh? ==> SessionKey(q.token.claims.id) in s.cache && q.token.claims.id != new')
            && forall jti {:trigger SessionKey(jti)} :: SessionKey(jti) in s'.cache <==>
                 jti == new' || (SessionKey(jti) in s.cache && !(q.Refresh? && q.token.claims.id == jti))
  {
    KeyFacts();
  }

  lemma ApartStep(p: Setup, s: State, q: Request, now: int, origins: map<string, string>)
    requires Inv(p, s) && Possible(p, s, q) && Apart(s, origins)
    ensures Apart(Step(p, s, q, now).0, Trace(origins, q, Step(p, s, q, now).1))
  {
    var (s', a) := Step(p, s, q, now);
    if a.Pair? {
      PairSessions(p, s, q, now);
      ApartPair(s, s', origins, q, a);
    } else {
      SessionsShrink(p, s, q, now);
      forall x, y | Together(s', origins, x, y) ensures x == y {
        assert Together(s, origins, x, y);
      }
    }
  }

  lemma ApartPair(s: State, s': State, origins: map<string, string>, q: Request, a: Response)
    requires Apart(s, origins) && a.Pair? && s.drawn <= s'.drawn
    requires a.refresh.claims.id !in s.drawn && a.refresh.claims.id in s'.drawn
    requires q.Refresh? ==> SessionKey(q.token.claims.id) in s.cache && q.token.claims.id != a.refresh.claims.id
    requires forall jti {:trigger SessionKey(jti)} :: SessionKey(jti) in s'.cache <==>
               jti == a.refresh.claims.id || (SessionKey(jti) in s.cache && !(q.Refresh? && q.token.claims.id == jti))
    ensures Apart(s', Trace(origins, q, a))
  {
    var new', origins' := a.refresh.claims.id, Trace(origins, q, a);
    forall x, y | Together(s', origins', x, y) ensures x == y {
      if x != new' && y != new' {
        assert Together(s, origins, x, y);
      } else if x != y {
        var old' := if x == new' then y else x;
        assert q.Refresh? ==> Together(s, origins, q.token.claims.id, old');
      }
    }
  }

  lemma {:induction false} ApartAt(r: Run, n: nat)
    requires r.Valid() && n <= |r.events|
    ensures Apart(r.states[n], Origins(r, n))
  {
    if n > 0 {
      ApartAt(r, n - 1);
      InvAt(r, n - 1);
      assert r.Serves(n - 1);
      var s, e := r.states[n - 1], r.events[n - 1];
      ApartStep(r.setup, s, e.request, e.now, Origins(r, n - 1));
      assert Origins(r, n) == Trace(Origins(r, n - 1), e.request, Step(r.setup, s, e.request, e.now).1);
    }
  }

  /** In every reachable state, each login's chain has at most one session stored. */
  lemma OneSessionPerChain(r: Run, n: nat, a: string, b: string)
    requires r.Valid() && n <= |r.events|
    requires SessionKey(a) in r.states[n].cache && SessionKey(b) in r.states[n].cache
    ensures a in Origins(r, n) && b in Origins(r, n)
    ensures Origins(r, n)[a] == Origins(r, n)[b] ==> a == b
  {
    ApartAt(r, n);
    assert Origins(r, n)[a] == Origins(r, n)[b] ==> Together(r.states[n], Origins(r, n), a, b);
  }

  /** The keys of `subject`'s live sessions. */
  ghost function LiveSessions(s: State, subject: string, now: int): set<string> {
    set k | k in s.cache && s.cache[k].Live(now) && s.cache[k].data.Session? && s.cache[k].data.subject == subject
  }

  /** A successful Refresh replaces one live session by another, so the number of live sessions
      of its subject, and the sessions of everybody else, stay as they are. */
  lemma RefreshConservesSessions(r: Run, n: nat, other: string)
    requires r.Valid() && n < |r.events| && r.events[n].request.Refresh? && r.answers[n].Pair?
    ensures var t, now := r.events[n].request.token, r.events[n].now;
            var u := t.claims.subject;
            var before, after := LiveSessions(r.states[n], u, now), LiveSessions(r.states[n + 1], u, now);
            && SessionKey(t.claims.id) in before && SessionKey(r.answers[n].refresh.claims.id) !in before
            && after == before - {SessionKey(t.claims.id)} + {SessionKey(r.answers[n].refresh.claims.id)}
            && |after| == |before|
            && (other != u ==> LiveSessions(r.states[n + 1], other, now) == LiveSessions(r.states[n], other, now))
  {
    assert r.Serves(n);
    InvAt(r, n);
    KeyFacts();
    var t, now := r.events[n].request.token, r.events[n].now;
    var u := t.claims.subject;
    var gone, new' := SessionKey(t.claims.id), SessionKey(r.answers[n].refresh.claims.id);
    var before, after := LiveSessions(r.states[n], u, now), LiveSessions(r.states[n + 1], u, now);
    assert new' !in r.states[n].cache;
    assert after == before - {gone} + {new'};
  }
}
