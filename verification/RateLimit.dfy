/** The fixed-window rate limiter held in process memory (pkg/ratelimit/memory.go): it never
    tells a sweep, and what a caller can count on over any stretch of time. */
module RateLimit {
  import opened Ttl

  const SWEEP_THRESHOLD := 4096

  /** The window a key is in: how many calls it has counted, and when it ends. */
  datatype Window = Window(count: int, resetAt: int)

  datatype Result = Result(allowed: bool, remaining: int, retryAfter: int)

  /** A limit of `max` calls per `window` nanoseconds; the constructor leaves both positive. */
  datatype Limit = Limit(max: int, window: int) {
    predicate Valid() { max > 0 && window > 0 }
  }

  function NewLimit(max: int, window: int): (l: Limit)
    ensures l.Valid() && (max > 0 ==> l.max == max) && (window > 0 ==> l.window == window)
    ensures (max <= 0 ==> l.max == 100) && (window <= 0 ==> l.window == MINUTE)
  {
    Limit(if max <= 0 then 100 else max, if window <= 0 then MINUTE else window)
  }

  /** The window a call at `now` is counted in, given the one the key was in. */
  function Count(l: Limit, w: Option<Window>, now: int): Window {
    if w.Some? && now < w.value.resetAt then w.value.(count := w.value.count + 1)
    else Window(1, now + l.window)
  }

  function Verdict(l: Limit, w: Window, now: int): Result {
    if w.count > l.max then Result(false, 0, w.resetAt - now)
    else Result(true, l.max - w.count, 0)
  }

  function Find(m: map<string, Window>, key: string): Option<Window> {
    if key in m then Some(m[key]) else None
  }

  function DropEnded(m: map<string, Window>, now: int): map<string, Window> {
    map k | k in m && now < m[k].resetAt :: m[k]
  }

  function Swept(m: map<string, Window>, now: int): map<string, Window> {
    if |m| >= SWEEP_THRESHOLD then DropEnded(m, now) else m
  }

  class MemoryLimiter {
    const limit: Limit
    var m: map<string, Window>

    constructor (max: int, window: int)
      ensures limit == NewLimit(max, window) && m == map[]
    {
      limit := NewLimit(max, window);
      m := map[];
    }

    /** Counts the call and judges it; the table ends within its threshold or free of garbage. */
    method Allow(key: string, now: int) returns (r: Result)
      requires limit.Valid()
      modifies this
      ensures var w := Count(limit, Find(Swept(old(m), now), key), now);
              m == Swept(old(m), now)[key := w] && r == Verdict(limit, w, now)
      ensures |m| <= SWEEP_THRESHOLD || forall k :: k in m ==> now < m[k].resetAt
    {
      if |m| >= SWEEP_THRESHOLD {
        SweepLocked(now);
      }
      var w: Window;
      if key in m && now < m[key].resetAt {
        w := m[key];
      } else {
        w := Window(0, now + limit.window);
      }
      w := w.(count := w.count + 1);
      ghost var swept := m;
      m := m[key := w];
      assert m.Keys == swept.Keys + {key};
      if w.count > limit.max {
        return Result(false, 0, w.resetAt - now);
      }
      var remaining := limit.max - w.count;
      r := Result(true, remaining, 0);
    }

    method SweepLocked(now: int)
      modifies this`m
      ensures m == DropEnded(old(m), now)
    {
      ghost var before := m;
      var todo := m.Keys;
      while todo != {}
        invariant todo <= before.Keys
        invariant m == map k | k in before && (k in todo || now < before[k].resetAt) :: before[k]
        decreases todo
      {
        var k :| k in todo;
        if m[k].resetAt <= now {
          m := m - {k};
        }
        todo := todo - {k};
      }
    }
  }

  // ----- runs -----

  /** One Allow call, with the instant it read the clock. */
  datatype Call = Call(key: string, now: int)

  predicate InOrder(calls: seq<Call>) {
    forall i, j :: 0 <= i < j < |calls| ==> calls[i].now <= calls[j].now
  }

  /** The limiter's table after the first `n` calls. */
  function Table(l: Limit, calls: seq<Call>, n: nat): map<string, Window>
    requires n <= |calls|
  {
    if n == 0 then map[]
    else
      var c := calls[n - 1];
      var m := Swept(Table(l, calls, n - 1), c.now);
      m[c.key := Count(l, Find(m, c.key), c.now)]
  }

  /** What the limiter answers to call `n`. */
  function Answer(l: Limit, calls: seq<Call>, n: nat): Result
    requires n < |calls|
  {
    var c := calls[n];
    Verdict(l, Count(l, Find(Swept(Table(l, calls, n), c.now), c.key), c.now), c.now)
  }

  /** The window `key` is in after the first `n` calls, for a limiter that never sweeps. */
  function KeyWindow(l: Limit, calls: seq<Call>, key: string, n: nat): Option<Window>
    requires n <= |calls|
  {
    if n == 0 then None
    else
      var w := KeyWindow(l, calls, key, n - 1);
      if calls[n - 1].key == key then Some(Count(l, w, calls[n - 1].now)) else w
  }

  /** The swept table keeps every window that can still matter, and invents none. */
  lemma {:induction false} SweptTable(l: Limit, calls: seq<Call>, key: string, n: nat)
    requires InOrder(calls) && n <= |calls|
    ensures var w, v := Find(Table(l, calls, n), key), KeyWindow(l, calls, key, n);
            && (w.Some? ==> v == w)
            && (v.Some? && w.None? ==> n > 0 && v.value.resetAt <= calls[n - 1].now)
  {
    if n > 0 {
      SweptTable(l, calls, key, n - 1);
    }
  }

  /** Sweeping never changes an answer. */
  lemma SweepTransparent(l: Limit, calls: seq<Call>, n: nat)
    requires InOrder(calls) && n < |calls|
    ensures var c := calls[n];
            Answer(l, calls, n) == Verdict(l, Count(l, KeyWindow(l, calls, c.key, n), c.now), c.now)
  {
    SweptTable(l, calls, calls[n].key, n);
  }

  // ----- windows, told from the calls alone -----

  /** The last call of `key` before call `n`. */
  function Previous(calls: seq<Call>, key: string, n: nat): (p: Option<nat>)
    requires n <= |calls|
    ensures p.Some? ==> p.value < n && calls[p.value].key == key
    ensures forall i :: (if p.Some? then p.value + 1 else 0) <= i < n ==> calls[i].key != key
  {
    if n == 0 then None
    else if calls[n - 1].key == key then Some(n - 1)
    else Previous(calls, key, n - 1)
  }

  /** The call that opened the window of call `n`: windows last exactly `l.window`, and the
      first call of the key at or after the end of one opens the next. */
  function Opener(l: Limit, calls: seq<Call>, n: nat): (s: nat)
    requires n < |calls|
    ensures s <= n && calls[s].key == calls[n].key
  {
    match Previous(calls, calls[n].key, n)
    case None => n
    case Some(p) =>
      if calls[n].now < calls[Opener(l, calls, p)].now + l.window then Opener(l, calls, p) else n
  }

  /** The calls up to `n` in the same window as call `n`, itself included. */
  ghost function Peers(l: Limit, calls: seq<Call>, n: nat): set<nat>
    requires n < |calls|
  {
    set i: nat | i <= n && calls[i].key == calls[n].key && Opener(l, calls, i) == Opener(l, calls, n)
  }

  lemma {:induction false} PeersGrow(l: Limit, calls: seq<Call>, n: nat)
    requires n < |calls|
    ensures match Previous(calls, calls[n].key, n)
            case None => |Peers(l, calls, n)| == 1
            case Some(p) =>
              if Opener(l, calls, n) == Opener(l, calls, p) then |Peers(l, calls, n)| == |Peers(l, calls, p)| + 1
              else |Peers(l, calls, n)| == 1
  {
    match Previous(calls, calls[n].key, n)
    case None => assert Peers(l, calls, n) == {n};
    case Some(p) =>
      if Opener(l, calls, n) == Opener(l, calls, p) {
        assert Peers(l, calls, n) == Peers(l, calls, p) + {n};
      } else {
        assert Peers(l, calls, n) == {n};
      }
  }

  /** The window of the key's last call before `n`, told from the calls alone. */
  ghost function LastWindow(l: Limit, calls: seq<Call>, key: string, n: nat): Option<Window>
    requires n <= |calls|
  {
    match Previous(calls, key, n)
    case None => None
    case Some(p) => Some(Window(|Peers(l, calls, p)|, calls[Opener(l, calls, p)].now + l.window))
  }

  /** The never-sweeping limiter keeps exactly that window. */
  lemma {:induction false} WindowOfLastCall(l: Limit, calls: seq<Call>, key: string, n: nat)
    requires n <= |calls|
    ensures KeyWindow(l, calls, key, n) == LastWindow(l, calls, key, n)
  {
    if n > 0 {
      WindowOfLastCall(l, calls, key, n - 1);
      if calls[n - 1].key == key {
        WindowGrows(l, calls, n - 1);
      }
    }
  }

  lemma WindowGrows(l: Limit, calls: seq<Call>, n: nat)
    requires n < |calls|
    ensures Count(l, LastWindow(l, calls, calls[n].key, n), calls[n].now) ==
            Window(|Peers(l, calls, n)|, calls[Opener(l, calls, n)].now + l.window)
  {
    PeersGrow(l, calls, n);
  }

  /** Within each window exactly the first `max` calls are allowed, Remaining counts down from
      max - 1 to 0, and a refused caller is told the time left in the window. */
  lemma AnswerIsRank(l: Limit, calls: seq<Call>, n: nat)
    requires InOrder(calls) && n < |calls|
    ensures var rank := |Peers(l, calls, n)|;
            Answer(l, calls, n) ==
            if rank <= l.max then Result(true, l.max - rank, 0)
            else Result(false, 0, calls[Opener(l, calls, n)].now + l.window - calls[n].now)
  {
    SweepTransparent(l, calls, n);
    WindowOfLastCall(l, calls, calls[n].key, n);
    PeersGrow(l, calls, n);
  }

  /** A call before the end of an earlier call's window is in that window. */
  lemma {:induction false} SameWindow(l: Limit, calls: seq<Call>, n: nat, later: nat)
    requires InOrder(calls) && n <= later < |calls| && calls[n].key == calls[later].key
    requires calls[later].now < calls[Opener(l, calls, n)].now + l.window
    ensures Opener(l, calls, later) == Opener(l, calls, n)
    decreases later
  {
    if n < later {
      var p := Previous(calls, calls[later].key, later).value;
      SameWindow(l, calls, n, p);
    }
  }

  /** Waiting RetryAfter works: it is positive and at most a window, and the key's first call
      at or after now + RetryAfter is allowed, with a whole new quota. */
  lemma RetryAfterHonoured(l: Limit, calls: seq<Call>, n: nat, later: nat)
    requires l.Valid() && InOrder(calls) && n < later < |calls| && calls[n].key == calls[later].key
    requires !Answer(l, calls, n).allowed
    requires var due := calls[n].now + Answer(l, calls, n).retryAfter;
             && due <= calls[later].now
             && forall i :: n < i < later && calls[i].key == calls[n].key ==> calls[i].now < due
    ensures 0 < Answer(l, calls, n).retryAfter <= l.window
    ensures Answer(l, calls, later) == Result(true, l.max - 1, 0)
  {
    AnswerIsRank(l, calls, n);
    AnswerIsRank(l, calls, later);
    var p := Previous(calls, calls[later].key, later).value;
    OpenerCovers(l, calls, n);
    SameWindow(l, calls, n, p);
    PeersGrow(l, calls, later);
  }

  /** Every call falls inside its window. */
  lemma OpenerCovers(l: Limit, calls: seq<Call>, n: nat)
    requires l.Valid() && InOrder(calls) && n < |calls|
    ensures calls[Opener(l, calls, n)].now <= calls[n].now < calls[Opener(l, calls, n)].now + l.window
  {
  }

  // ----- any stretch of time -----

  /** How many of the first `n` calls, of `key` and at instants in [lo, hi), are allowed. */
  function AllowedIn(l: Limit, calls: seq<Call>, key: string, lo: int, hi: int, n: nat): nat
    requires n <= |calls|
  {
    if n == 0 then 0
    else
      var c := calls[n - 1];
      AllowedIn(l, calls, key, lo, hi, n - 1) +
      if c.key == key && lo <= c.now < hi && Answer(l, calls, n - 1).allowed then 1 else 0
  }

  /** What can have been allowed in [t, t + window) when the key is in window `w`. */
  function SinceBound(l: Limit, w: Option<Window>, t: int): int {
    if w.None? then 0
    else
      var since := w.value.resetAt - l.window;
      var counted := if w.value.count < l.max then w.value.count else l.max;
      if since < t then counted - 1
      else if since < t + l.window then l.max - 1 + counted
      else 2 * l.max - 1
  }

  lemma {:induction false} AllowedSince(l: Limit, calls: seq<Call>, key: string, t: int, n: nat)
    requires l.Valid() && InOrder(calls) && n <= |calls|
    ensures var w, a := KeyWindow(l, calls, key, n), AllowedIn(l, calls, key, t, t + l.window, n);
            && a <= SinceBound(l, w, t)
            && (w.Some? ==> w.value.count > 0 && n > 0 && w.value.resetAt - l.window <= calls[n - 1].now)
            && (n > 0 && calls[n - 1].now < t ==> a == 0)
  {
    if n > 0 {
      AllowedSince(l, calls, key, t, n - 1);
      SweepTransparent(l, calls, n - 1);
    }
  }

  /** Over any stretch as long as a window, at most 2 * max - 1 calls of a key are allowed. */
  lemma SlidingBound(l: Limit, calls: seq<Call>, key: string, t: int)
    requires l.Valid() && InOrder(calls)
    ensures AllowedIn(l, calls, key, t, t + l.window, |calls|) <= 2 * l.max - 1
  {
    AllowedSince(l, calls, key, t, |calls|);
  }

  /** One call opens a window, the rest of its quota comes just before the window ends, and a
      full quota just after. */
  function Surge(l: Limit, key: string): seq<Call>
    requires l.Valid()
  {
    seq(2 * l.max, i => Call(key, if i == 0 then 0 else if i < l.max then l.window - 1 else l.window))
  }

  lemma {:induction false} SurgeWindow(l: Limit, key: string, n: nat)
    requires l.Valid() && l.window >= 2 && 0 < n <= 2 * l.max
    ensures KeyWindow(l, Surge(l, key), key, n) ==
            Some(if n <= l.max then Window(n, l.window) else Window(n - l.max, 2 * l.window))
  {
    if n > 1 {
      SurgeWindow(l, key, n - 1);
    }
  }

  lemma {:induction false} SurgeAllowed(l: Limit, key: string, n: nat)
    requires l.Valid() && l.window >= 2 && 0 < n <= 2 * l.max && InOrder(Surge(l, key))
    ensures AllowedIn(l, Surge(l, key), key, l.window - 1, 2 * l.window - 1, n) == n - 1
  {
    SweepTransparent(l, Surge(l, key), n - 1);
    if n > 1 {
      SurgeAllowed(l, key, n - 1);
      SurgeWindow(l, key, n - 1);
    }
  }

  /** The bound is reached, for every quota and every window of at least two ticks. */
  lemma SlidingBoundReached(l: Limit, key: string)
    requires l.Valid() && l.window >= 2
    ensures var calls, t := Surge(l, key), l.window - 1;
            InOrder(calls) && AllowedIn(l, calls, key, t, t + l.window, |calls|) == 2 * l.max - 1
  {
    assert InOrder(Surge(l, key));
    SurgeAllowed(l, key, 2 * l.max);
  }
}
