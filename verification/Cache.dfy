/** The in-process cache (internal/repository/memory/cache.go) and its refinement of an
    unbounded map that forgets nothing. */
module Cache {
  import opened Ttl

  const SWEEP_THRESHOLD := 1024

  type Table<D> = map<string, Entry<D>>

  function Prefixed(ns: string, key: string): string {
    if ns == "" then key else ns + ":" + key
  }

  lemma PrefixedInjective(ns: string, a: string, b: string)
    ensures Prefixed(ns, a) == Prefixed(ns, b) ==> a == b
  {
    if ns != "" && Prefixed(ns, a) == Prefixed(ns, b) {
      var cut := |ns + ":"|;
      assert a == (ns + ":" + a)[cut..];
      assert b == (ns + ":" + b)[cut..];
    }
  }

  ghost predicate Meet(ns: string, ns': string) {
    exists a, b :: Prefixed(ns, a) == Prefixed(ns', b)
  }

  /** Two namespaces can share a name if and only if one, with its colon, begins the other with its
      own. In particular different ones without colons never do. */
  lemma NamespacesMeetIff(ns: string, ns': string)
    requires ns != "" && ns' != ""
    ensures Meet(ns, ns') <==> ns + ":" <= ns' + ":" || ns' + ":" <= ns + ":"
    ensures ':' !in ns && ':' !in ns' && Meet(ns, ns') ==> ns == ns'
  {
    var p, p' := ns + ":", ns' + ":";
    if p <= p' {
      assert Prefixed(ns, p'[|p|..]) == p' == Prefixed(ns', "");
    } else if p' <= p {
      assert Prefixed(ns', p[|p'|..]) == p == Prefixed(ns, "");
    }
    if Meet(ns, ns') {
      var a, b :| Prefixed(ns, a) == Prefixed(ns', b);
      var x := p + a;
      assert x == p' + b;
      assert p == x[..|p|] && p' == x[..|p'|];
      if ':' !in ns && ':' !in ns' {
        assert p[|ns|] == ':' && p'[|ns'|] == ':';
        assert x[|ns|] == ':' && x[|ns'|] == ':';
        assert forall i :: 0 <= i < |ns| ==> x[i] == ns[i];
        assert forall i :: 0 <= i < |ns'| ==> x[i] == ns'[i];
        assert |ns| == |ns'|;
        assert ns == x[..|ns|] && ns' == x[..|ns'|];
      }
    }
  }

  /** The table after a write of `e` whose sweep, if any, read the clock at `sweepNow`. */
  function Put<D>(m: Table<D>, full: string, e: Entry<D>, sweepNow: int): Table<D> {
    (if |m| >= SWEEP_THRESHOLD then Sweep(m, sweepNow) else m)[full := e]
  }

  /** The table after a read of `full` at `now`, which drops the entry when it is dead. */
  function Evict<D>(m: Table<D>, full: string, now: int): Table<D> {
    if full in m && !m[full].Live(now) then m - {full} else m
  }

  /** A dead entry does not stay under a key that was read. */
  predicate NoneDead<D>(m: Table<D>, full: string, now: int) {
    full in m ==> m[full].Live(now)
  }

  function FullKeys(ns: string, keys: seq<string>): set<string> {
    set k | k in keys :: Prefixed(ns, k)
  }

  function KeySet(keys: seq<string>): set<string> {
    set k | k in keys
  }

  lemma FullKeysGrow(ns: string, keys: seq<string>, i: nat)
    requires i < |keys|
    ensures FullKeys(ns, keys[..i + 1]) == FullKeys(ns, keys[..i]) + {Prefixed(ns, keys[i])}
  {
    assert keys[..i + 1] == keys[..i] + [keys[i]];
  }

  /** The cache `m` stands for the never-forgetting map `ideal` at every instant from `t` on:
      nothing in it is made up, and nothing live is missing from it. */
  ghost predicate Refines<D(!new)>(ns: string, m: Table<D>, ideal: Table<D>, t: int) {
    forall k: string {:trigger Prefixed(ns, k)} {:trigger k in ideal} ::
      && (Prefixed(ns, k) in m ==> k in ideal && m[Prefixed(ns, k)] == ideal[k])
      && (k in ideal && ideal[k].Live(t) ==> Prefixed(ns, k) in m)
  }

  lemma SweepRefines<D(!new)>(ns: string, m: Table<D>, ideal: Table<D>, t: int, now: int)
    requires Refines(ns, m, ideal, t) && t <= now
    ensures Refines(ns, Sweep(m, now), ideal, now)
  {
  }

  lemma PutRefines<D(!new)>(ns: string, m: Table<D>, ideal: Table<D>, t: int, key: string, e: Entry<D>, sweepNow: int)
    requires Refines(ns, m, ideal, t) && t <= sweepNow
    ensures Refines(ns, Put(m, Prefixed(ns, key), e, sweepNow), ideal[key := e], sweepNow)
  {
    SweepRefines(ns, m, ideal, t, sweepNow);
    var kept := if |m| >= SWEEP_THRESHOLD then Sweep(m, sweepNow) else m;
    assert Refines(ns, kept, ideal, sweepNow);
    var m', ideal' := kept[Prefixed(ns, key) := e], ideal[key := e];
    forall k: string
      ensures Prefixed(ns, k) in m' ==> k in ideal' && m'[Prefixed(ns, k)] == ideal'[k]
      ensures k in ideal' && ideal'[k].Live(sweepNow) ==> Prefixed(ns, k) in m'
    {
      PrefixedInjective(ns, k, key);
    }
  }

  lemma EvictRefines<D(!new)>(ns: string, m: Table<D>, ideal: Table<D>, t: int, key: string, now: int)
    requires Refines(ns, m, ideal, t) && t <= now
    ensures Refines(ns, Evict(m, Prefixed(ns, key), now), ideal, now)
    ensures Lookup(m, Prefixed(ns, key), now) == Lookup(ideal, key, now)
  {
    var m' := Evict(m, Prefixed(ns, key), now);
    forall k: string
      ensures k in ideal && ideal[k].Live(now) ==> Prefixed(ns, k) in m'
    {
      PrefixedInjective(ns, k, key);
    }
  }

  lemma DeleteRefines<D(!new)>(ns: string, m: Table<D>, ideal: Table<D>, t: int, keys: seq<string>)
    requires Refines(ns, m, ideal, t)
    ensures Refines(ns, m - FullKeys(ns, keys), ideal - KeySet(keys), t)
  {
    forall k: string
      ensures Prefixed(ns, k) in FullKeys(ns, keys) <==> k in keys
    {
      forall key | key in keys { PrefixedInjective(ns, k, key); }
    }
  }

  /** The answer of a typed read: the stored bytes may fail to decode into the destination. */
  datatype ReadResult<+T> = Hit(value: T) | Miss | Undecodable

  function Decoded<D, T>(found: Option<D>, decode: D -> Option<T>): ReadResult<T> {
    match found
    case None => Miss
    case Some(d) => match decode(d) case Some(v) => Hit(v) case None => Undecodable
  }

  /** One Cacher, used by one goroutine at a time. `ideal` and `clock` are its specification:
      the map a cache without memory bounds would hold, and the last clock reading. */
  class Cacher<D(!new)> {
    const ns: string
    var m: Table<D>
    ghost var ideal: Table<D>
    ghost var clock: int

    ghost predicate Valid() reads this {
      Refines(ns, m, ideal, clock)
    }

    constructor (ns: string, ghost start: int)
      ensures Valid() && this.ns == ns && m == map[] && ideal == map[] && clock == start
    {
      this.ns := ns;
      m, ideal, clock := map[], map[], start;
    }

    /** `encoded == None` is a value that does not marshal. The expiry is stamped at `now`,
        before the lock; a sweep reads the clock again, under the lock, at `sweepNow`. */
    method Set(key: string, encoded: Option<D>, ttl: int, now: int, sweepNow: int) returns (ok: bool)
      requires Valid() && clock <= now <= sweepNow
      modifies this
      ensures Valid() && ok == encoded.Some?
      ensures encoded.None? ==> m == old(m) && ideal == old(ideal) && clock == old(clock)
      ensures encoded.Some? ==>
                && m == Put(old(m), Prefixed(ns, key), Stamp(encoded.value, ttl, now), sweepNow)
                && ideal == old(ideal)[key := Stamp(encoded.value, ttl, now)]
                && clock == sweepNow
                && (|m| <= SWEEP_THRESHOLD || forall f :: f in m ==> m[f].Live(now))
    {
      match encoded
      case None =>
        ok := false;
      case Some(data) =>
        var e := Stamp(data, ttl, now);
        PutRefines(ns, m, ideal, clock, key, e, sweepNow);
        if |m| >= SWEEP_THRESHOLD {
          SweepLocked(sweepNow);
        }
        m := m[Prefixed(ns, key) := e];
        ideal, clock := ideal[key := e], sweepNow;
        ok := true;
    }

    method SweepLocked(now: int)
      modifies this`m
      ensures m == Sweep(old(m), now)
    {
      ghost var before := m;
      var todo := m.Keys;
      while todo != {}
        invariant todo <= before.Keys
        invariant m == map f | f in before && (f in todo || before[f].Live(now)) :: before[f]
        decreases todo
      {
        var f :| f in todo;
        if !m[f].Live(now) {
          m := m - {f};
        }
        todo := todo - {f};
      }
    }

    method Get<T>(key: string, decode: D -> Option<T>, now: int) returns (r: ReadResult<T>)
      requires Valid() && clock <= now
      modifies this
      ensures Valid() && clock == now && ideal == old(ideal)
      ensures m == Evict(old(m), Prefixed(ns, key), now) && NoneDead(m, Prefixed(ns, key), now)
      ensures r == Decoded(Lookup(ideal, key, now), decode)
    {
      EvictRefines(ns, m, ideal, clock, key, now);
      clock := now;
      var full := Prefixed(ns, key);
      if full !in m {
        return Miss;
      }
      var e := m[full];
      if !e.Live(now) {
        m := m - {full};
        return Miss;
      }
      match decode(e.data)
      case None => r := Undecodable;
      case Some(v) => r := Hit(v);
    }

    method Del(keys: seq<string>)
      requires Valid()
      modifies this
      ensures Valid() && clock == old(clock)
      ensures m == old(m) - FullKeys(ns, keys) && ideal == old(ideal) - KeySet(keys)
    {
      DeleteRefines(ns, m, ideal, clock, keys);
      ghost var before := m;
      ideal := ideal - KeySet(keys);
      for i := 0 to |keys|
        invariant m == before - FullKeys(ns, keys[..i])
        modifies this`m
      {
        FullKeysGrow(ns, keys, i);
        m := m - {Prefixed(ns, keys[i])};
      }
      assert keys[..|keys|] == keys;
    }

    method Exists(key: string, now: int) returns (found: bool)
      requires Valid() && clock <= now
      modifies this
      ensures Valid() && clock == now && ideal == old(ideal)
      ensures m == Evict(old(m), Prefixed(ns, key), now) && NoneDead(m, Prefixed(ns, key), now)
      ensures found == Lookup(ideal, key, now).Some?
    {
      EvictRefines(ns, m, ideal, clock, key, now);
      clock := now;
      var full := Prefixed(ns, key);
      if full !in m {
        return false;
      }
      if !m[full].Live(now) {
        m := m - {full};
        return false;
      }
      found := true;
    }
  }

  // ----- every sequence of calls -----

  datatype Call<+D> =
    | CallSet(key: string, encoded: Option<D>, ttl: int, now: int, sweepNow: int)
    | CallGet(key: string, now: int)
    | CallDel(keys: seq<string>)
    | CallExists(key: string, now: int)

  datatype Answer<+D> = Stored | NotStored | Found(data: D) | Missed | Deleted | Present(yes: bool)

  /** The last clock reading once `c` has run. */
  function After<D>(c: Call<D>, t: int): int {
    match c
    case CallSet(_, encoded, _, _, sweepNow) => if encoded.Some? then sweepNow else t
    case CallGet(_, now) => now
    case CallDel(_) => t
    case CallExists(_, now) => now
  }

  predicate NotBefore<D>(c: Call<D>, t: int) {
    match c
    case CallSet(_, _, _, now, sweepNow) => t <= now <= sweepNow
    case CallGet(_, now) => t <= now
    case CallDel(_) => true
    case CallExists(_, now) => t <= now
  }

  /** The clock never runs backwards from one reading to the next. */
  predicate InOrder<D>(calls: seq<Call<D>>, t: int) {
    calls == [] || (NotBefore(calls[0], t) && InOrder(calls[1..], After(calls[0], t)))
  }

  /** One call on the bounded cache: what the methods of Cacher do to `m`. */
  function BoundedStep<D>(ns: string, m: Table<D>, c: Call<D>): (Table<D>, Answer<D>) {
    match c
    case CallSet(key, encoded, ttl, now, sweepNow) =>
      if encoded.None? then (m, NotStored)
      else (Put(m, Prefixed(ns, key), Stamp(encoded.value, ttl, now), sweepNow), Stored)
    case CallGet(key, now) =>
      (Evict(m, Prefixed(ns, key), now),
       match Lookup(m, Prefixed(ns, key), now) case Some(d) => Found(d) case None => Missed)
    case CallDel(keys) => (m - FullKeys(ns, keys), Deleted)
    case CallExists(key, now) =>
      (Evict(m, Prefixed(ns, key), now), Present(Lookup(m, Prefixed(ns, key), now).Some?))
  }

  /** The same call on a map that only changes when told to. */
  function IdealStep<D>(ideal: Table<D>, c: Call<D>): (Table<D>, Answer<D>) {
    match c
    case CallSet(key, encoded, ttl, now, _) =>
      if encoded.None? then (ideal, NotStored) else (ideal[key := Stamp(encoded.value, ttl, now)], Stored)
    case CallGet(key, now) =>
      (ideal, match Lookup(ideal, key, now) case Some(d) => Found(d) case None => Missed)
    case CallDel(keys) => (ideal - KeySet(keys), Deleted)
    case CallExists(key, now) => (ideal, Present(Lookup(ideal, key, now).Some?))
  }

  function BoundedRun<D>(ns: string, m: Table<D>, calls: seq<Call<D>>): seq<Answer<D>>
    decreases |calls|
  {
    if calls == [] then []
    else var (m', a) := BoundedStep(ns, m, calls[0]); [a] + BoundedRun(ns, m', calls[1..])
  }

  function IdealRun<D>(ideal: Table<D>, calls: seq<Call<D>>): seq<Answer<D>>
    decreases |calls|
  {
    if calls == [] then []
    else var (ideal', a) := IdealStep(ideal, calls[0]); [a] + IdealRun(ideal', calls[1..])
  }

  lemma StepRefines<D(!new)>(ns: string, m: Table<D>, ideal: Table<D>, c: Call<D>, t: int)
    requires Refines(ns, m, ideal, t) && NotBefore(c, t)
    ensures Refines(ns, BoundedStep(ns, m, c).0, IdealStep(ideal, c).0, After(c, t))
    ensures BoundedStep(ns, m, c).1 == IdealStep(ideal, c).1
  {
    match c {
      case CallSet(key, encoded, ttl, now, sweepNow) =>
        if encoded.Some? {
          PutRefines(ns, m, ideal, t, key, Stamp(encoded.value, ttl, now), sweepNow);
        }
      case CallGet(key, now) => EvictRefines(ns, m, ideal, t, key, now);
      case CallDel(keys) => DeleteRefines(ns, m, ideal, t, keys);
      case CallExists(key, now) => EvictRefines(ns, m, ideal, t, key, now);
    }
  }

  /** No sequence of calls can tell the cache from a map that never forgets. */
  lemma {:induction false} SerialRefinement<D(!new)>(ns: string, m: Table<D>, ideal: Table<D>,
                                                     calls: seq<Call<D>>, t: int)
    requires Refines(ns, m, ideal, t) && InOrder(calls, t)
    ensures BoundedRun(ns, m, calls) == IdealRun(ideal, calls)
    decreases |calls|
  {
    if calls != [] {
      var c := calls[0];
      StepRefines(ns, m, ideal, c, t);
      SerialRefinement(ns, BoundedStep(ns, m, c).0, IdealStep(ideal, c).0, calls[1..], After(c, t));
    }
  }

  /** A fresh cache, whatever its namespace, answers like the never-forgetting map. */
  lemma FreshCacheIsIdeal<D(!new)>(ns: string, calls: seq<Call<D>>, t: int)
    requires InOrder(calls, t)
    ensures BoundedRun<D>(ns, map[], calls) == IdealRun<D>(map[], calls)
  {
    SerialRefinement<D>(ns, map[], map[], calls, t);
  }

  predicate Touches<D>(c: Call<D>, key: string) {
    (c.CallSet? && c.key == key && c.encoded.Some?) || (c.CallDel? && key in c.keys)
  }

  lemma {:induction false} IdealKeeps<D>(ideal: Table<D>, calls: seq<Call<D>>, key: string, now: int)
    requires forall i :: 0 <= i < |calls| ==> !Touches(calls[i], key)
    ensures var answers := IdealRun(ideal, calls + [CallGet(key, now)]);
            |answers| == |calls| + 1 && answers[|calls|] == IdealStep(ideal, CallGet(key, now)).1
    decreases |calls|
  {
    var run := calls + [CallGet(key, now)];
    if calls == [] {
      assert run == [CallGet(key, now)];
    } else {
      assert run[0] == calls[0] && run[1..] == calls[1..] + [CallGet(key, now)];
      IdealKeeps(IdealStep(ideal, calls[0]).0, calls[1..], key, now);
    }
  }

  /** A value is read back until its time to live has passed, and no longer, whatever is done to
      other keys in between and whatever was swept. */
  lemma ReadBack<D(!new)>(ns: string, m: Table<D>, ideal: Table<D>, t: int, key: string, data: D, ttl: int,
                          now: int, sweepNow: int, between: seq<Call<D>>, later: int)
    requires Refines(ns, m, ideal, t)
    requires var calls := [CallSet(key, Some(data), ttl, now, sweepNow)] + (between + [CallGet(key, later)]);
             InOrder(calls, t)
    requires forall i :: 0 <= i < |between| ==> !Touches(between[i], key)
    ensures var calls := [CallSet(key, Some(data), ttl, now, sweepNow)] + (between + [CallGet(key, later)]);
            var answers := BoundedRun(ns, m, calls);
            && |answers| == |calls|
            && answers[|calls| - 1] == if ttl <= 0 || later < now + ttl then Found(data) else Missed
  {
    var first, rest := CallSet(key, Some(data), ttl, now, sweepNow), between + [CallGet(key, later)];
    SerialRefinement(ns, m, ideal, [first] + rest, t);
    assert ([first] + rest)[1..] == rest;
    IdealKeeps(IdealStep(ideal, first).0, between, key, later);
  }
}
