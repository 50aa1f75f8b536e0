/** The rate limiter whose counters live in Redis (pkg/ratelimit/redis.go), and when any
    number of its replicas behave as one MemoryLimiter.

    Redis is an atomic store with a millisecond clock in which a counter disappears at its
    deadline. */
module RedisLimit {
  import opened Ttl
  import opened RateLimit
  import Cache

  datatype Counter = Counter(count: int, deadline: int)

  /** What the script leaves under its key, given what was there. */
  function Increment(found: Option<Counter>, windowMs: int, nowMs: int): Counter {
    if found.Some? && nowMs < found.value.deadline then found.value.(count := found.value.count + 1)
    else Counter(1, nowMs + windowMs)
  }

  /** PTTL: the time left, or -2 for a key that is not there. */
  function Pttl(c: Counter, nowMs: int): int {
    if nowMs < c.deadline then c.deadline - nowMs else -2
  }

  function Judge(l: Limit, count: int, pttl: int): Result {
    if count > l.max then Result(false, 0, if pttl <= 0 then l.window else pttl * MILLISECOND)
    else Result(true, l.max - count, 0)
  }

  function Under(counters: map<string, Counter>, key: string): Option<Counter> {
    if key in counters then Some(counters[key]) else None
  }

  class RedisStore {
    var counters: map<string, Counter>

    constructor ()
      ensures counters == map[]
    {
      counters := map[];
    }

    /** The Lua script, which Redis runs as one step. A deadline that is not in the future
        removes the key, which then reads as absent. */
    method IncrWindow(key: string, windowMs: int, nowMs: int) returns (count: int, pttl: int)
      requires forall k :: k in counters ==> counters[k].count > 0
      modifies this
      ensures forall k :: k in counters ==> counters[k].count > 0
      ensures var c := Increment(Under(old(counters), key), windowMs, nowMs);
              counters == old(counters)[key := c] && count == c.count && pttl == Pttl(c, nowMs)
    {
      var deadline := 0;
      count := 0;
      if key in counters && nowMs < counters[key].deadline {
        count, deadline := counters[key].count, counters[key].deadline;
      }
      count := count + 1;
      if count == 1 {
        deadline := nowMs + windowMs;
      }
      counters := counters[key := Counter(count, deadline)];
      pttl := if nowMs < deadline then deadline - nowMs else -2;
    }
  }

  /** One replica: it holds no state of its own. */
  class RedisLimiter {
    const store: RedisStore
    const prefix: string
    const limit: Limit

    constructor (store: RedisStore, prefix: string, max: int, window: int)
      ensures this.store == store && limit == NewLimit(max, window)
      ensures this.prefix == (if prefix == "" then "ratelimit" else prefix)
    {
      this.store := store;
      this.limit := NewLimit(max, window);
      this.prefix := if prefix == "" then "ratelimit" else prefix;
    }

    method Allow(key: string, nowMs: int) returns (r: Result)
      requires forall k :: k in store.counters ==> store.counters[k].count > 0
      modifies store
      ensures forall k :: k in store.counters ==> store.counters[k].count > 0
      ensures var full := prefix + ":" + key;
              var c := Increment(Under(old(store.counters), full), limit.window / MILLISECOND, nowMs);
              store.counters == old(store.counters)[full := c] && r == Judge(limit, c.count, Pttl(c, nowMs))
    {
      var count, ttlMs := store.IncrWindow(prefix + ":" + key, limit.window / MILLISECOND, nowMs);
      if count > limit.max {
        var retryAfter := ttlMs * MILLISECOND;
        if ttlMs <= 0 {
          retryAfter := limit.window;
        }
        return Result(false, 0, retryAfter);
      }
      r := Result(true, limit.max - count, 0);
    }
  }

  // ----- runs -----

  /** The counters after the first `n` calls. Replicas hold no state and the script is atomic, so
      any interleaving of them is one such sequence. */
  function Counters(l: Limit, prefix: string, calls: seq<Call>, n: nat): map<string, Counter>
    requires n <= |calls|
  {
    if n == 0 then map[]
    else
      var before, c := Counters(l, prefix, calls, n - 1), calls[n - 1];
      var full := Cache.Prefixed(prefix, c.key);
      before[full := Increment(Under(before, full), l.window / MILLISECOND, c.now / MILLISECOND)]
  }

  function RedisAnswer(l: Limit, prefix: string, calls: seq<Call>, n: nat): Result
    requires n < |calls|
  {
    var nowMs := calls[n].now / MILLISECOND;
    var found := Under(Counters(l, prefix, calls, n), Cache.Prefixed(prefix, calls[n].key));
    var c := Increment(found, l.window / MILLISECOND, nowMs);
    Judge(l, c.count, Pttl(c, nowMs))
  }

  /** Every call reads a clock that ticks in whole milliseconds. */
  predicate MillisecondClock(calls: seq<Call>) {
    forall i :: 0 <= i < |calls| ==> calls[i].now % MILLISECOND == 0
  }

  lemma {:induction false} CountersAreWindows(l: Limit, prefix: string, calls: seq<Call>, key: string, n: nat)
    requires l.window % MILLISECOND == 0 && prefix != ""
    requires MillisecondClock(calls) && n <= |calls|
    ensures var found := Under(Counters(l, prefix, calls, n), Cache.Prefixed(prefix, key));
            var w := KeyWindow(l, calls, key, n);
            && (found.Some? <==> w.Some?)
            && (w.Some? ==> w.value == Window(found.value.count, found.value.deadline * MILLISECOND))
  {
    if n > 0 {
      CountersAreWindows(l, prefix, calls, key, n - 1);
      Cache.PrefixedInjective(prefix, key, calls[n - 1].key);
    }
  }

  lemma RedisAnswersAlike(l: Limit, prefix: string, calls: seq<Call>, n: nat)
    requires l.Valid() && l.window % MILLISECOND == 0 && prefix != ""
    requires MillisecondClock(calls) && InOrder(calls) && n < |calls|
    ensures RedisAnswer(l, prefix, calls, n) == Answer(l, calls, n)
  {
    CountersAreWindows(l, prefix, calls, calls[n].key, n);
    SweepTransparent(l, calls, n);
  }

  /** The two limiters give the same answers in every run. */
  ghost predicate Agree(l: Limit, prefix: string) {
    forall calls: seq<Call>, n: nat | MillisecondClock(calls) && InOrder(calls) && n < |calls| ::
      RedisAnswer(l, prefix, calls, n) == Answer(l, calls, n)
  }

  /** A full quota at once, then one more call when the truncated window has passed. */
  function Straggler(l: Limit): seq<Call>
    requires l.Valid()
  {
    seq(l.max + 1, i => Call("k", if i < l.max then 0 else l.window / MILLISECOND * MILLISECOND))
  }

  lemma {:induction false} StragglerCounts(l: Limit, prefix: string, n: nat)
    requires l.Valid() && prefix != "" && 0 < n <= l.max
    ensures KeyWindow(l, Straggler(l), "k", n) == Some(Window(n, l.window))
    ensures Cache.Prefixed(prefix, "k") in Counters(l, prefix, Straggler(l), n)
    ensures Counters(l, prefix, Straggler(l), n)[Cache.Prefixed(prefix, "k")].deadline == l.window / MILLISECOND
  {
    if n > 1 {
      StragglerCounts(l, prefix, n - 1);
    }
  }

  /** They agree exactly when the window is a whole number of milliseconds. */
  lemma RedisIsMemory(l: Limit, prefix: string)
    requires l.Valid() && prefix != ""
    ensures Agree(l, prefix) <==> l.window % MILLISECOND == 0
  {
    if l.window % MILLISECOND == 0 {
      forall calls: seq<Call>, n: nat | MillisecondClock(calls) && InOrder(calls) && n < |calls|
        ensures RedisAnswer(l, prefix, calls, n) == Answer(l, calls, n)
      {
        RedisAnswersAlike(l, prefix, calls, n);
      }
    } else {
      var calls := Straggler(l);
      StragglerCounts(l, prefix, l.max);
      SweepTransparent(l, calls, l.max);
      assert RedisAnswer(l, prefix, calls, l.max) != Answer(l, calls, l.max);
    }
  }
}
