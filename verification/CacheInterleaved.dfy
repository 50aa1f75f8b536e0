/** Cacher under any number of goroutines (internal/repository/memory/cache.go).

    A write holds the lock throughout, but a read is three steps: copy the entry under the
    read lock, compare it with the clock holding no lock, and delete a dead entry under the
    write lock without looking at it again. Between any two of these steps anything may
    happen. Keys are the prefixed ones; Exists takes the same steps as Get. */
module CacheInterleaved {
  import opened Ttl
  import opened Cache

  datatype Phase<+D> = Starting | Holding(e: Entry<D>) | Evicting

  datatype Reader<+D> = Reader(key: string, phase: Phase<D>)

  /** `ideal` changes only by Set and Del: it maps each key to its last Set not deleted since. */
  datatype State<D> = State(m: Table<D>, ideal: Table<D>, clock: int, readers: map<nat, Reader<D>>)

  datatype Action<+D> =
    | Tick(now: int)
    | Set(key: string, data: D, ttl: int, stamp: int)
    | Del(keys: set<string>)
    | Start(id: nat, key: string)
    | Read(id: nat)
    | Check(id: nat)
    | Delete(id: nat)

  ghost predicate In<D>(s: State<D>, id: nat, phase: Phase<D>, key: string) {
    id in s.readers && s.readers[id] == Reader(key, phase)
  }

  ghost predicate Enabled<D>(s: State<D>, a: Action<D>) {
    match a
    case Tick(now) => s.clock <= now
    case Set(_, _, _, stamp) => stamp <= s.clock
    case Del(_) => true
    case Start(id, _) => id !in s.readers
    case Read(id) => id in s.readers && s.readers[id].phase.Starting?
    case Check(id) => id in s.readers && s.readers[id].phase.Holding?
    case Delete(id) => id in s.readers && s.readers[id].phase.Evicting?
  }

  ghost function Step<D>(s: State<D>, a: Action<D>): State<D>
    requires Enabled(s, a)
  {
    match a
    case Tick(now) => s.(clock := now)
    case Set(key, data, ttl, stamp) =>
      var e := Stamp(data, ttl, stamp);
      s.(m := Put(s.m, key, e, s.clock), ideal := s.ideal[key := e])
    case Del(keys) => s.(m := s.m - keys, ideal := s.ideal - keys)
    case Start(id, key) => s.(readers := s.readers[id := Reader(key, Starting)])
    case Read(id) =>
      var key := s.readers[id].key;
      if key in s.m then s.(readers := s.readers[id := Reader(key, Holding(s.m[key]))])
      else s.(readers := s.readers - {id})
    case Check(id) =>
      if s.readers[id].phase.e.Live(s.clock) then s.(readers := s.readers - {id})
      else s.(readers := s.readers[id := Reader(s.readers[id].key, Evicting)])
    case Delete(id) => s.(m := s.m - {s.readers[id].key}, readers := s.readers - {id})
  }

  /** The value a read returns at action `a`, if `a` ends a read with a hit. */
  ghost function HitOf<D>(s: State<D>, a: Action<D>): Option<D>
    requires Enabled(s, a)
  {
    if a.Check? && s.readers[a.id].phase.e.Live(s.clock) then Some(s.readers[a.id].phase.e.data) else None
  }

  ghost function Init<D>(t: int): State<D> {
    State(map[], map[], t, map[])
  }

  /** The state after the first `n` actions of a run. */
  ghost predicate IsRun<D>(states: seq<State<D>>, acts: seq<Action<D>>) {
    && |states| == |acts| + 1
    && states[0] == Init(states[0].clock)
    && forall i :: 0 <= i < |acts| ==> Enabled(states[i], acts[i]) && states[i + 1] == Step(states[i], acts[i])
  }

  // ----- nothing is made up -----

  ghost predicate Contained<D>(s: State<D>) {
    forall k :: k in s.m ==> k in s.ideal && s.m[k] == s.ideal[k]
  }

  lemma ContainedStep<D>(s: State<D>, a: Action<D>)
    requires Enabled(s, a) && Contained(s)
    ensures Contained(Step(s, a))
  {
  }

  lemma {:induction false} AlwaysContained<D>(states: seq<State<D>>, acts: seq<Action<D>>, n: nat)
    requires IsRun(states, acts) && n <= |acts|
    ensures Contained(states[n])
  {
    if n > 0 {
      AlwaysContained(states, acts, n - 1);
      ContainedStep(states[n - 1], acts[n - 1]);
    }
  }

  /** An entry a reader holds is the one `ideal` had when the reader copied it. */
  lemma {:induction false} HeldSince<D>(states: seq<State<D>>, acts: seq<Action<D>>, n: nat, id: nat) returns (i: nat)
    requires IsRun(states, acts) && n <= |acts|
    requires id in states[n].readers && states[n].readers[id].phase.Holding?
    ensures i < n && acts[i] == Read(id)
    ensures id in states[i].readers && states[i].readers[id].key == states[n].readers[id].key
    ensures states[n].readers[id].key in states[i].m && states[n].readers[id].key in states[i].ideal
    ensures states[i].ideal[states[n].readers[id].key] == states[n].readers[id].phase.e
  {
    if acts[n - 1] == Read(id) {
      i := n - 1;
      AlwaysContained(states, acts, i);
    } else {
      assert states[n] == Step(states[n - 1], acts[n - 1]);
      i := HeldSince(states, acts, n - 1, id);
    }
  }

  /** Every hit returns the value of the last Set before the read step, not deleted by then,
      and not expired even now. */
  lemma HitIsLastSet<D>(states: seq<State<D>>, acts: seq<Action<D>>, n: nat) returns (i: nat)
    requires IsRun(states, acts) && n < |acts|
    requires HitOf(states[n], acts[n]).Some?
    ensures i < n && acts[i] == Read(acts[n].id) && acts[n].id in states[i].readers
    ensures var key := states[n].readers[acts[n].id].key;
            && states[i].readers[acts[n].id].key == key
            && key in states[i].ideal && states[i].ideal[key].Live(states[n].clock)
            && HitOf(states[n], acts[n]) == Some(states[i].ideal[key].data)
  {
    i := HeldSince(states, acts, n, acts[n].id);
  }

  /** A read that found an entry answers it exactly if it is still live at the check. */
  lemma HitIffStillLive<D>(states: seq<State<D>>, acts: seq<Action<D>>, n: nat) returns (i: nat)
    requires IsRun(states, acts) && n < |acts| && acts[n].Check?
    ensures i < n && acts[i] == Read(acts[n].id) && acts[n].id in states[i].readers
    ensures var key := states[i].readers[acts[n].id].key;
            && key in states[i].ideal && Lookup(states[i].m, key, states[n].clock) == HitOf(states[n], acts[n])
            && HitOf(states[n], acts[n]) == Lookup(states[i].ideal, key, states[n].clock)
  {
    i := HeldSince(states, acts, n, acts[n].id);
    AlwaysContained(states, acts, i);
  }

  // ----- when nothing live is lost -----

  /** No read of `key` is between its copy and its end. */
  ghost predicate Unobserved<D>(s: State<D>, key: string) {
    forall id :: id in s.readers && s.readers[id].key == key ==> s.readers[id].phase.Starting?
  }

  /** Every Set of `key` in the run finds it unobserved. */
  ghost predicate Quiet<D>(states: seq<State<D>>, acts: seq<Action<D>>, key: string)
    requires IsRun(states, acts)
  {
    forall i :: 0 <= i < |acts| && acts[i].Set? && acts[i].key == key ==> Unobserved(states[i], key)
  }

  ghost predicate Complete<D>(s: State<D>, key: string) {
    && (key in s.ideal && s.ideal[key].Live(s.clock) ==> key in s.m)
    && forall id :: id in s.readers && s.readers[id].key == key && key in s.ideal ==>
         && (s.readers[id].phase.Holding? ==> s.readers[id].phase.e == s.ideal[key])
         && (s.readers[id].phase.Evicting? ==> !s.ideal[key].Live(s.clock))
  }

  lemma CompleteStep<D>(s: State<D>, a: Action<D>, key: string)
    requires Enabled(s, a) && Contained(s) && Complete(s, key)
    requires a.Set? && a.key == key ==> Unobserved(s, key)
    ensures Complete(Step(s, a), key)
  {
  }

  /** With no Set inside a read of the same key, no interleaving ever loses a live value. */
  lemma {:induction false} QuietKeyNeverLost<D>(states: seq<State<D>>, acts: seq<Action<D>>, key: string, n: nat)
    requires IsRun(states, acts) && Quiet(states, acts, key) && n <= |acts|
    ensures Complete(states[n], key)
    ensures Lookup(states[n].m, key, states[n].clock) == Lookup(states[n].ideal, key, states[n].clock)
  {
    AlwaysContained(states, acts, n);
    if n > 0 {
      QuietKeyNeverLost(states, acts, key, n - 1);
      AlwaysContained(states, acts, n - 1);
      CompleteStep(states[n - 1], acts[n - 1], key);
    }
  }

  ghost predicate SetAtMostOnce<D>(acts: seq<Action<D>>, key: string) {
    forall i, j :: 0 <= i < j < |acts| && acts[i].Set? && acts[j].Set? && acts[i].key == key ==> acts[j].key != key
  }

  lemma {:induction false} NothingBeforeFirstSet<D>(states: seq<State<D>>, acts: seq<Action<D>>, key: string, n: nat)
    requires IsRun(states, acts) && n <= |acts|
    requires forall i :: 0 <= i < n && acts[i].Set? ==> acts[i].key != key
    ensures key !in states[n].m && Unobserved(states[n], key)
  {
    if n > 0 {
      NothingBeforeFirstSet(states, acts, key, n - 1);
      assert states[n] == Step(states[n - 1], acts[n - 1]);
    }
  }

  /** Refresh sessions and reset tokens are such keys: their names are drawn at random, once. */
  lemma SetOnceNeverLost<D>(states: seq<State<D>>, acts: seq<Action<D>>, key: string, n: nat)
    requires IsRun(states, acts) && SetAtMostOnce(acts, key) && n <= |acts|
    ensures Lookup(states[n].m, key, states[n].clock) == Lookup(states[n].ideal, key, states[n].clock)
  {
    forall i | 0 <= i < |acts| && acts[i].Set? && acts[i].key == key
      ensures Unobserved(states[i], key)
    {
      NothingBeforeFirstSet(states, acts, key, i);
    }
    QuietKeyNeverLost(states, acts, key, n);
  }

  lemma Extend<D>(states: seq<State<D>>, acts: seq<Action<D>>, a: Action<D>) returns (more: seq<State<D>>)
    requires IsRun(states, acts) && Enabled(states[|acts|], a)
    ensures more == states + [Step(states[|acts|], a)] && IsRun(more, acts + [a])
  {
    more := states + [Step(states[|acts|], a)];
    var longer := acts + [a];
    forall i | 0 <= i < |longer|
      ensures Enabled(more[i], longer[i]) && more[i + 1] == Step(more[i], longer[i])
    {
      if i < |acts| {
        assert more[i] == states[i] && more[i + 1] == states[i + 1] && longer[i] == acts[i];
      }
    }
  }

  // ----- exactly when a live value can be lost -----

  /** A reader stands to delete the value stored for `key` while it is live: it is about to, or
      it holds a copy of an earlier value that dies sooner. */
  ghost predicate Threatens<D>(s: State<D>, id: nat, key: string)
    requires key in s.ideal
  {
    && id in s.readers && s.readers[id].key == key
    && (s.readers[id].phase.Evicting?
        || (s.readers[id].phase.Holding? && DiesBefore(s.readers[id].phase.e, s.ideal[key])))
  }

  ghost predicate DiesBefore<D>(e: Entry<D>, f: Entry<D>) {
    e.expiresAt.Some? && (f.expiresAt.Some? ==> e.expiresAt.value < f.expiresAt.value)
  }

  ghost predicate Threatened<D>(s: State<D>, key: string) {
    key in s.ideal && exists id :: Threatens(s, id, key)
  }

  predicate Writes<D>(a: Action<D>, key: string) {
    (a.Set? && a.key == key) || (a.Del? && key in a.keys)
  }

  /** The run goes on, and leaves the value of `key` alone. */
  ghost predicate GoesOn<D>(states: seq<State<D>>, acts: seq<Action<D>>, more: seq<State<D>>,
                            all: seq<Action<D>>, key: string)
  {
    && IsRun(states, acts) && IsRun(more, all)
    && states <= more && acts <= all
    && forall i :: |acts| <= i < |all| ==> !Writes(all[i], key)
  }

  /** However the run goes on, until the next Set or Del of `key` its value is found as long as
      it is live. */
  ghost predicate NeverLost<D(!new)>(states: seq<State<D>>, acts: seq<Action<D>>, key: string) {
    forall more: seq<State<D>>, all: seq<Action<D>> | GoesOn(states, acts, more, all, key) ::
      var s := more[|all|]; Lookup(s.m, key, s.clock) == Lookup(s.ideal, key, s.clock)
  }

  lemma SafeStep<D>(s: State<D>, a: Action<D>, key: string)
    requires Enabled(s, a) && Contained(s) && !Writes(a, key)
    requires key in s.m && !Threatened(s, key)
    requires key in s.ideal && s.ideal[key].Live(Step(s, a).clock)
    ensures var s' := Step(s, a); key in s'.m && s'.ideal[key] == s.ideal[key] && !Threatened(s', key)
  {
    var s' := Step(s, a);
    assert s.ideal[key].Live(s.clock);
    assert !(a.Delete? && Threatens(s, a.id, key));
    forall id | id in s'.readers ensures !Threatens(s', id, key) {
      assert !Threatens(s, id, key);
    }
  }

  lemma {:induction false} SafeForLong<D>(states: seq<State<D>>, acts: seq<Action<D>>, more: seq<State<D>>,
                                          all: seq<Action<D>>, key: string, n: nat)
    requires GoesOn(states, acts, more, all, key) && |acts| <= n <= |all|
    requires var s := states[|acts|]; key in s.m && key in s.ideal && !Threatened(s, key)
    ensures key in more[n].ideal && more[n].ideal[key] == states[|acts|].ideal[key]
    ensures more[n].ideal[key].Live(more[n].clock) ==> key in more[n].m && !Threatened(more[n], key)
  {
    AlwaysContained(states, acts, |acts|);
    if n > |acts| {
      SafeForLong(states, acts, more, all, key, n - 1);
      AlwaysContained(more, all, n - 1);
      if more[n].ideal[key].Live(more[n].clock) {
        SafeStep(more[n - 1], all[n - 1], key);
      }
    }
  }

  /** A threat carried out: the clock reaches the death of the copy, and the reader deletes. */
  lemma ThreatKills<D(!new)>(states: seq<State<D>>, acts: seq<Action<D>>, key: string, id: nat)
    returns (more: seq<State<D>>, all: seq<Action<D>>)
    requires IsRun(states, acts)
    requires var s := states[|acts|]; key in s.ideal && s.ideal[key].Live(s.clock) && Threatens(s, id, key)
    ensures GoesOn(states, acts, more, all, key)
    ensures var s := more[|all|]; key !in s.m && key in s.ideal && s.ideal[key].Live(s.clock)
  {
    more, all := states, acts;
    var r := states[|acts|].readers[id];
    if r.phase.Holding? {
      var s := states[|acts|];
      var now := if s.clock <= r.phase.e.expiresAt.value then r.phase.e.expiresAt.value else s.clock;
      more := Extend(more, all, Tick(now));
      all := all + [Tick(now)];
      more := Extend(more, all, Check(id));
      all := all + [Check(id)];
    }
    assert more[|all|].readers[id] == Reader(key, Evicting);
    more := Extend(more, all, Delete(id));
    all := all + [Delete(id)];
  }

  /** In every reachable state, a live value that is still stored can be lost if and only if a
      reader threatens it. */
  lemma NeverLostIff<D(!new)>(states: seq<State<D>>, acts: seq<Action<D>>, key: string)
    requires IsRun(states, acts)
    requires var s := states[|acts|]; key in s.m && s.m[key].Live(s.clock)
    ensures NeverLost(states, acts, key) <==> !Threatened(states[|acts|], key)
  {
    var s := states[|acts|];
    AlwaysContained(states, acts, |acts|);
    if Threatened(s, key) {
      var id :| Threatens(s, id, key);
      var more, all := ThreatKills(states, acts, key, id);
      assert GoesOn(states, acts, more, all, key);
    } else {
      forall more: seq<State<D>>, all: seq<Action<D>> | GoesOn(states, acts, more, all, key)
        ensures var s := more[|all|]; Lookup(s.m, key, s.clock) == Lookup(s.ideal, key, s.clock)
      {
        SafeForLong(states, acts, more, all, key, |all|);
        AlwaysContained(more, all, |all|);
      }
    }
  }

  /** A reader can be about to delete an entry it saw dead. */
  lemma StaleReader(key: string) returns (states: seq<State<int>>, acts: seq<Action<int>>)
    ensures IsRun(states, acts)
    ensures states[|acts|] == State(map[key := Entry(1, Some(1))], map[key := Entry(1, Some(1))], 1,
                                    map[0 := Reader(key, Evicting)])
  {
    var e := Entry(1, Some(1));
    acts, states := [], [Init<int>(0)];
    states := Extend(states, acts, Set(key, 1, 1, 0));
    acts := acts + [Set(key, 1, 1, 0)];
    assert states[|acts|] == State(map[key := e], map[key := e], 0, map[]);
    states := Extend(states, acts, Start(0, key));
    acts := acts + [Start(0, key)];
    states := Extend(states, acts, Read(0));
    acts := acts + [Read(0)];
    assert states[|acts|] == State(map[key := e], map[key := e], 0, map[0 := Reader(key, Holding(e))]);
    states := Extend(states, acts, Tick(1));
    acts := acts + [Tick(1)];
    states := Extend(states, acts, Check(0));
    acts := acts + [Check(0)];
  }

  /** Without that, a live value can vanish: the delete of a stale read removes the new value. */
  lemma LiveValueLost(key: string) returns (states: seq<State<int>>, acts: seq<Action<int>>)
    ensures IsRun(states, acts)
    ensures var s := states[|acts|];
            Lookup(s.ideal, key, s.clock) == Some(2) && Lookup(s.m, key, s.clock) == None
  {
    states, acts := StaleReader(key);
    states := Extend(states, acts, Set(key, 2, 0, 1));
    acts := acts + [Set(key, 2, 0, 1)];
    states := Extend(states, acts, Delete(0));
    acts := acts + [Delete(0)];
  }
}
