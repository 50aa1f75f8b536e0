/** The in-process token blacklist (pkg/auth/memory_blacklist.go): revoked token ids with
    the instant up to which each one is refused. */
module Blacklist {

  const SWEEP_THRESHOLD := 1024

  predicate Refused(table: map<string, int>, jti: string, now: int) {
    jti != "" && jti in table && now < table[jti]
  }

  function Sweep(table: map<string, int>, now: int): map<string, int> {
    map k | k in table && now < table[k] :: table[k]
  }

  /** `m` answers like the never-forgetting `ideal` at every instant from `t` on. */
  ghost predicate Refines(m: map<string, int>, ideal: map<string, int>, t: int) {
    && (forall k :: k in m ==> k in ideal && m[k] == ideal[k])
    && (forall k :: k in ideal && t < ideal[k] ==> k in m)
  }

  class MemoryBlacklist {
    var m: map<string, int>
    ghost var ideal: map<string, int>
    ghost var clock: int

    ghost predicate Valid() reads this {
      Refines(m, ideal, clock)
    }

    constructor (ghost start: int)
      ensures Valid() && m == map[] && ideal == map[] && clock == start
    {
      m, ideal, clock := map[], map[], start;
    }

    /** Refuses the empty id; otherwise records the deadline, replacing any earlier one.
        With a positive `ttl` the table ends within its threshold or free of garbage. */
    method Revoke(jti: string, ttl: int, now: int) returns (ok: bool)
      requires Valid() && clock <= now
      modifies this
      ensures Valid() && ok == (jti != "")
      ensures !ok ==> m == old(m) && ideal == old(ideal) && clock == old(clock)
      ensures ok ==> ideal == old(ideal)[jti := now + ttl] && clock == now
      ensures ok && ttl > 0 ==> |m| <= SWEEP_THRESHOLD || forall k :: k in m ==> now < m[k]
    {
      if jti == "" {
        return false;
      }
      if |m| >= SWEEP_THRESHOLD {
        SweepLocked(now);
      }
      ghost var swept := m;
      m := m[jti := now + ttl];
      assert m.Keys == swept.Keys + {jti};
      ideal, clock := ideal[jti := now + ttl], now;
      ok := true;
    }

    method SweepLocked(now: int)
      modifies this`m
      ensures m == Sweep(old(m), now)
    {
      ghost var before := m;
      var todo := m.Keys;
      while todo != {}
        invariant todo <= before.Keys
        invariant m == map k | k in before && (k in todo || now < before[k]) :: before[k]
        decreases todo
      {
        var k :| k in todo;
        if m[k] <= now {
          m := m - {k};
        }
        todo := todo - {k};
      }
    }

    /** Answers as if nothing had ever been swept. */
    method IsRevoked(jti: string, now: int) returns (revoked: bool)
      requires Valid() && clock <= now
      modifies this
      ensures Valid() && ideal == old(ideal) && clock == (if jti == "" then old(clock) else now)
      ensures revoked == Refused(ideal, jti, now) && (jti != "" && jti in m ==> now < m[jti])
    {
      if jti == "" {
        return false;
      }
      clock := now;
      if jti !in m {
        return false;
      }
      if m[jti] <= now {
        m := m - {jti};
        return false;
      }
      revoked := true;
    }
  }
}
