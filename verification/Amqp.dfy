/** The shared, auto-reconnecting AMQP connection (pkg/messaging/rabbitmq/connection.go):
    the double-checked reconnect under any number of callers, with a broker that may drop
    the link at any moment. */
module Amqp {
  import opened Ttl

  /** The connections dialed so far are numbered from 0; `conn` is the field of the shared
      Connection, and `open` and `deaths` are the broker's side of the story. */
  datatype Pool = Pool(dialed: nat, open: set<nat>, conn: Option<nat>, deaths: nat)

  predicate Usable(p: Pool) {
    p.conn.Some? && p.conn.value in p.open
  }

  function Dialed(p: Pool): Pool {
    p.(dialed := p.dialed + 1, open := p.open + {p.dialed}, conn := Some(p.dialed))
  }

  function Died(p: Pool, id: nat): Pool {
    if id in p.open then p.(open := p.open - {id}, deaths := p.deaths + 1) else p
  }

  function ClosedDown(p: Pool): Pool {
    if Usable(p) then Died(p, p.conn.value) else p
  }

  function Reconnected(p: Pool, up: bool): Pool {
    if !Usable(p) && up then Dialed(p) else p
  }

  /** At most the current connection is open, and the books balance. */
  ghost predicate OneLive(p: Pool) {
    && p.conn.Some? && p.conn.value < p.dialed
    && (forall id :: id in p.open ==> p.conn == Some(id))
    && p.dialed == p.deaths + |p.open|
  }

  lemma OneLiveMeansAtMostOne(p: Pool)
    requires OneLive(p)
    ensures |p.open| <= 1
    ensures !Usable(p) ==> p.open == {}
  {
    if Usable(p) {
      assert p.open == {p.conn.value};
    }
  }

  lemma DiedKeepsOneLive(p: Pool, id: nat)
    requires OneLive(p)
    ensures OneLive(Died(p, id)) && (!Usable(p) ==> !Usable(Died(p, id)))
  {
  }

  lemma DialedIsOneLive(p: Pool)
    requires OneLive(p) && !Usable(p)
    ensures OneLive(Dialed(p)) && Dialed(p).open == {p.dialed}
  {
    OneLiveMeansAtMostOne(p);
  }

  /** The broker's side: the links one Connection has dialed, from 0 on, those still open, and how
      many have died. */
  class Broker {
    var dialed: nat
    var open: set<nat>
    var deaths: nat

    constructor ()
      ensures dialed == 0 && open == {} && deaths == 0
    {
      dialed, open, deaths := 0, {}, 0;
    }

    method Accept() returns (link: nat)
      modifies this
      ensures link == old(dialed) && dialed == link + 1 && open == old(open) + {link} && deaths == old(deaths)
    {
      link := dialed;
      dialed, open := dialed + 1, open + {link};
    }

    /** The link is closed, by either side. */
    method Drop(link: nat)
      requires link in open
      modifies this
      ensures dialed == old(dialed) && open == old(open) - {link} && deaths == old(deaths) + 1
    {
      open, deaths := open - {link}, deaths + 1;
    }
  }

  /** The shared connection, its critical sections each under the write lock; `up` tells whether a
      dial would get through. The concurrent model below splits Reconnect at its dial. */
  class Connection {
    const broker: Broker
    var conn: Option<nat>

    ghost function Abs(): Pool reads this, broker {
      Pool(broker.dialed, broker.open, conn, broker.deaths)
    }

    /** Before the first dial there is nothing; from then on nothing but the current link is open. */
    ghost predicate Valid() reads this, broker {
      if conn.None? then Abs() == Pool(0, {}, None, 0) else OneLive(Abs())
    }

    constructor (broker: Broker)
      requires broker.dialed == broker.deaths == 0 && broker.open == {}
      ensures Valid() && this.broker == broker && conn == None
    {
      this.broker, this.conn := broker, None;
    }

    /** No link at all is open. */
    method IsClosed() returns (closed: bool)
      requires Valid()
      ensures closed <==> broker.open == {}
    {
      closed := conn == None || conn.value !in broker.open;
    }

    /** With nothing open, a dial that gets through leaves exactly the new link open, and current. */
    method Dial(up: bool) returns (ok: bool)
      requires Valid() && broker.open == {}
      modifies this, broker
      ensures Valid() && ok == up && broker.deaths == old(broker.deaths)
      ensures ok ==> conn == Some(old(broker.dialed)) && broker.open == {conn.value}
      ensures broker.dialed == old(broker.dialed) + if ok then 1 else 0
      ensures !ok ==> Abs() == old(Abs())
    {
      if !up {
        return false;
      }
      var link := broker.Accept();
      conn := Some(link);
      ok := true;
    }

    /** On success exactly the current link is open. One that was open is kept: only without one is
        another dialed. */
    method Reconnect(up: bool) returns (ok: bool)
      requires Valid()
      modifies this, broker
      ensures Valid() && Abs() == Reconnected(old(Abs()), up)
      ensures ok <==> broker.open != {}
      ensures ok ==> conn.Some? && broker.open == {conn.value}
      ensures old(broker.open) != {} ==> Abs() == old(Abs())
      ensures broker.dialed - old(broker.dialed) == if old(broker.open) == {} && up then 1 else 0
    {
      var closed := IsClosed();
      if !closed {
        OneLiveMeansAtMostOne(Abs());
        return true;
      }
      ok := Dial(up);
    }

    /** Nothing is left open. */
    method Close()
      requires Valid()
      modifies broker
      ensures Valid() && Abs() == ClosedDown(old(Abs()))
      ensures broker.open == {} && broker.deaths == old(broker.deaths) + |old(broker.open)|
    {
      var closed := IsClosed();
      if !closed {
        OneLiveMeansAtMostOne(Abs());
        assert broker.open == {conn.value};
        broker.Drop(conn.value);
      }
    }
  }

  /** A Connection is handed out only when its first dial got through. */
  method NewConnection(up: bool) returns (r: Option<Connection>)
    ensures r.Some? == up
    ensures up ==> fresh(r.value) && r.value.Valid() && r.value.Abs() == INITIAL.pool
  {
    var broker := new Broker();
    var c := new Connection(broker);
    var ok := c.Dial(up);
    r := if ok then Some(c) else None;
  }

  // ----- any number of goroutines -----

  /** Where a goroutine is. Channel reads the field and tests what it read, perhaps reconnects
      under the lock and reads again, opens a channel, and when that fails reconnects and tries
      once more (`retry`). */
  datatype Pc =
    | Reading
    | Testing(seen: Option<nat>)
    | Waiting(retry: bool)
    | Checking(retry: bool)
    | Dialing(retry: bool)
    | Unlocking(retry: bool, ok: bool)
    | Rereading(retry: bool)
    | Opening(seen: Option<nat>, retry: bool)
    | Returned(channel: Option<nat>)
    | NilDereference
    | CloseWaiting | Closing | CloseUnlocking | CloseReturned

  predicate HoldsLock(pc: Pc) {
    pc.Checking? || pc.Dialing? || pc.Unlocking? || pc.Closing? || pc.CloseUnlocking?
  }

  datatype State = State(pool: Pool, writer: Option<nat>, pcs: map<nat, Pc>)

  /** `lucky` is what the network decides when a step dials or opens a channel. */
  datatype Action = CallChannel(id: nat) | CallClose(id: nat) | Go(id: nat, lucky: bool) | Drop(link: nat)

  ghost predicate Enabled(s: State, a: Action) {
    match a
    case CallChannel(id) => id !in s.pcs
    case CallClose(id) => id !in s.pcs
    case Drop(link) => link in s.pool.open
    case Go(id, lucky) =>
      id in s.pcs && CanGo(s, s.pcs[id], lucky)
  }

  /** Readers and writers wait for a writer; a channel opens only on an open connection, but may
      fail even there. */
  ghost predicate CanGo(s: State, pc: Pc, lucky: bool) {
    match pc
    case Reading => s.writer == None
    case Rereading(_) => s.writer == None
    case Waiting(_) => s.writer == None
    case CloseWaiting => s.writer == None
    case Opening(seen, _) => lucky ==> seen.Some? && seen.value in s.pool.open
    case Returned(_) => false
    case NilDereference => false
    case CloseReturned => false
    case _ => true
  }

  ghost function Next(s: State, pc: Pc, lucky: bool): Pc {
    match pc
    case Reading => Testing(s.pool.conn)
    case Testing(seen) => if seen.Some? && seen.value in s.pool.open then Opening(seen, false) else Waiting(false)
    case Waiting(retry) => Checking(retry)
    case Checking(retry) => if Usable(s.pool) then Unlocking(retry, true) else Dialing(retry)
    case Dialing(retry) => Unlocking(retry, lucky)
    case Unlocking(retry, ok) => if ok then Rereading(retry) else Returned(None)
    case Rereading(retry) => Opening(s.pool.conn, retry)
    case Opening(seen, retry) =>
      if seen.None? then NilDereference
      else if lucky then Returned(seen)
      else if retry then Returned(None) else Waiting(true)
    case CloseWaiting => Closing
    case Closing => CloseUnlocking
    case CloseUnlocking => CloseReturned
    case _ => pc
  }

  ghost function Step(s: State, a: Action): State
    requires Enabled(s, a)
  {
    match a
    case CallChannel(id) => s.(pcs := s.pcs[id := Reading])
    case CallClose(id) => s.(pcs := s.pcs[id := CloseWaiting])
    case Drop(link) => s.(pool := Died(s.pool, link))
    case Go(id, lucky) =>
      var pc := s.pcs[id];
      State(if pc.Dialing? && lucky then Dialed(s.pool) else if pc.Closing? then ClosedDown(s.pool) else s.pool,
            if pc.Waiting? || pc.CloseWaiting? then Some(id)
            else if pc.Unlocking? || pc.CloseUnlocking? then None else s.writer,
            s.pcs[id := Next(s, pc, lucky)])
  }

  /** NewConnection hands out a Connection only when its dial succeeded. */
  const INITIAL := State(Dialed(Pool(0, {}, None, 0)), None, map[])

  ghost predicate IsRun(states: seq<State>, acts: seq<Action>) {
    && |states| == |acts| + 1
    && states[0] == INITIAL
    && forall i :: 0 <= i < |acts| ==> Enabled(states[i], acts[i]) && states[i + 1] == Step(states[i], acts[i])
  }

  ghost predicate Inv(s: State) {
    && OneLive(s.pool)
    && (forall id :: id in s.pcs ==> PcOk(s, id, s.pcs[id]))
  }

  ghost predicate PcOk(s: State, id: nat, pc: Pc) {
    && (HoldsLock(pc) ==> s.writer == Some(id))
    && (pc.Dialing? ==> !Usable(s.pool))
    && (pc.Testing? || pc.Opening? ==> pc.seen.Some?)
    && pc != NilDereference
  }

  lemma PoolStaysOneLive(s: State, a: Action)
    requires Enabled(s, a) && Inv(s)
    ensures OneLive(Step(s, a).pool)
  {
    match a {
      case Drop(link) => DiedKeepsOneLive(s.pool, link);
      case Go(id, lucky) =>
        assert PcOk(s, id, s.pcs[id]);
        if s.pcs[id].Dialing? {
          DialedIsOneLive(s.pool);
        } else if s.pcs[id].Closing? && Usable(s.pool) {
          DiedKeepsOneLive(s.pool, s.pool.conn.value);
        }
      case _ =>
    }
  }

  /** A goroutine's step leaves the others in order: while one holds the lock, no other takes it or
      dials. */
  lemma OthersStayOk(s: State, id: nat, lucky: bool, other: nat)
    requires Enabled(s, Go(id, lucky)) && Inv(s) && other in s.pcs && other != id
    ensures PcOk(Step(s, Go(id, lucky)), other, s.pcs[other])
  {
    assert PcOk(s, id, s.pcs[id]) && PcOk(s, other, s.pcs[other]);
    if s.pcs[id].Closing? && Usable(s.pool) {
      DiedKeepsOneLive(s.pool, s.pool.conn.value);
    }
  }

  lemma MoverStaysOk(s: State, id: nat, lucky: bool)
    requires Enabled(s, Go(id, lucky)) && Inv(s)
    ensures PcOk(Step(s, Go(id, lucky)), id, Next(s, s.pcs[id], lucky))
  {
    assert PcOk(s, id, s.pcs[id]);
  }

  lemma InvStep(s: State, a: Action)
    requires Enabled(s, a) && Inv(s)
    ensures Inv(Step(s, a))
  {
    var s' := Step(s, a);
    PoolStaysOneLive(s, a);
    forall other | other in s'.pcs ensures PcOk(s', other, s'.pcs[other]) {
      if a.Go? {
        if other == a.id {
          MoverStaysOk(s, a.id, a.lucky);
        } else {
          OthersStayOk(s, a.id, a.lucky, other);
        }
      } else if other in s.pcs {
        assert PcOk(s, other, s.pcs[other]);
      }
    }
  }

  lemma {:induction false} AlwaysInv(states: seq<State>, acts: seq<Action>, n: nat)
    requires IsRun(states, acts) && n <= |acts|
    ensures Inv(states[n])
  {
    if n > 0 {
      AlwaysInv(states, acts, n - 1);
      InvStep(states[n - 1], acts[n - 1]);
    }
  }

  /** The critical section of reconnect, from its check to its unlocking, when nothing comes
      between: it does to the pool what Connection.Reconnect does, and nothing is open when it
      fails. */
  lemma SectionIsReconnect(s: State, id: nat, up: bool) returns (s': State)
    requires Inv(s) && id in s.pcs && s.pcs[id].Checking?
    ensures s' == Step(s, Go(id, up)) ||
            (Enabled(Step(s, Go(id, up)), Go(id, up)) && s' == Step(Step(s, Go(id, up)), Go(id, up)))
    ensures s'.pool == Reconnected(s.pool, up) && id in s'.pcs
    ensures s'.pcs[id] == Unlocking(s.pcs[id].retry, s'.pool.open != {})
  {
    OneLiveMeansAtMostOne(s.pool);
    s' := Step(s, Go(id, up));
    if s'.pcs[id].Dialing? {
      s' := Step(s', Go(id, up));
    }
  }

  /** In every interleaving, every connection ever dialed other than the current one is closed,
      and dials have not outnumbered deaths by more than one. */
  lemma SingleLiveConnection(states: seq<State>, acts: seq<Action>, n: nat)
    requires IsRun(states, acts) && n <= |acts|
    ensures var p := states[n].pool;
            && p.conn.Some?
            && (forall id :: id in p.open ==> p.conn == Some(id))
            && |p.open| <= 1
            && p.dialed <= 1 + p.deaths
  {
    AlwaysInv(states, acts, n);
    OneLiveMeansAtMostOne(states[n].pool);
  }

  /** A dial starts and ends with every earlier connection closed. */
  lemma DialsOnlyWhenAllDead(states: seq<State>, acts: seq<Action>, n: nat)
    requires IsRun(states, acts) && n < |acts|
    requires states[n + 1].pool.dialed != states[n].pool.dialed
    ensures states[n].pool.open == {} && states[n + 1].pool.open == {states[n].pool.dialed}
  {
    AlwaysInv(states, acts, n);
    OneLiveMeansAtMostOne(states[n].pool);
  }

  /** Channel never calls a method of a nil connection, and a channel it returns was opened on
      the current connection, alive at that step. */
  lemma ChannelsAreOnTheCurrentConnection(states: seq<State>, acts: seq<Action>, n: nat, id: nat)
    requires IsRun(states, acts) && n < |acts| && id in states[n + 1].pcs
    ensures states[n + 1].pcs[id] != NilDereference
    ensures var pc := states[n + 1].pcs[id];
            pc.Returned? && pc.channel.Some? && (id in states[n].pcs ==> states[n].pcs[id] != pc) ==>
              states[n].pool.conn == pc.channel && Usable(states[n].pool)
  {
    AlwaysInv(states, acts, n);
    AlwaysInv(states, acts, n + 1);
    assert Inv(states[n]);
  }

  /** The write lock excludes: two goroutines are never both inside a critical section. */
  lemma LockExcludes(states: seq<State>, acts: seq<Action>, n: nat, id: nat, other: nat)
    requires IsRun(states, acts) && n <= |acts|
    requires id in states[n].pcs && other in states[n].pcs
    requires HoldsLock(states[n].pcs[id]) && HoldsLock(states[n].pcs[other])
    ensures id == other
  {
    AlwaysInv(states, acts, n);
  }

  // ----- Channel does reconnect -----

  ghost predicate Does(states: seq<State>, acts: seq<Action>, i: nat, id: nat)
    requires |states| == |acts| + 1
  {
    i < |acts| && acts[i].Go? && acts[i].id == id && id in states[i].pcs
  }

  /** A goroutine stays where it is, moves by a step of its own, or has just called. */
  lemma Moved(states: seq<State>, acts: seq<Action>, n: nat, id: nat)
    requires IsRun(states, acts) && n < |acts| && id in states[n + 1].pcs
    ensures var pc := states[n + 1].pcs[id];
            || (id in states[n].pcs && states[n].pcs[id] == pc)
            || (Does(states, acts, n, id) && pc == Next(states[n], states[n].pcs[id], acts[n].lucky))
            || pc == Reading || pc == CloseWaiting
  {
    assert states[n + 1] == Step(states[n], acts[n]);
  }

  /** Step `i` is a dial by `id` that does not get through. */
  ghost predicate DialFails(states: seq<State>, acts: seq<Action>, i: nat, id: nat)
    requires |states| == |acts| + 1
  {
    Does(states, acts, i, id) && states[i].pcs[id].Dialing? && !acts[i].lucky
  }

  /** Step `i` is an attempt by `id` to open a channel, and fails. */
  ghost predicate OpenFails(states: seq<State>, acts: seq<Action>, i: nat, id: nat)
    requires |states| == |acts| + 1
  {
    Does(states, acts, i, id) && states[i].pcs[id].Opening? && !acts[i].lucky
  }

  /** After step `i`, goroutine `id` leaves the section of a reconnect that found or made the current
      link usable. */
  ghost predicate Reconnects(states: seq<State>, acts: seq<Action>, i: nat, id: nat)
    requires |states| == |acts| + 1
  {
    && Does(states, acts, i, id) && (states[i].pcs[id].Checking? || states[i].pcs[id].Dialing?)
    && i + 1 < |states| && Usable(states[i + 1].pool) && id in states[i + 1].pcs && states[i + 1].pcs[id].Unlocking?
  }

  /** Where a goroutine in its second attempt has got to: past its failed open, and, once it has the
      link again, past a reconnect. */
  ghost predicate Retrying(pc: Pc) {
    match pc
    case Waiting(retry) => retry
    case Checking(retry) => retry
    case Dialing(retry) => retry
    case Unlocking(retry, ok) => retry
    case Rereading(retry) => retry
    case Opening(_, retry) => retry
    case _ => false
  }

  lemma {:induction false} RetryAfterFailedOpen(states: seq<State>, acts: seq<Action>, n: nat, id: nat) returns (i: nat)
    requires IsRun(states, acts) && n <= |acts| && id in states[n].pcs && Retrying(states[n].pcs[id])
    ensures i < n && OpenFails(states, acts, i, id)
  {
    assert states[n] == Step(states[n - 1], acts[n - 1]);
    if id in states[n - 1].pcs && Retrying(states[n - 1].pcs[id]) {
      i := RetryAfterFailedOpen(states, acts, n - 1, id);
    } else {
      i := n - 1;
    }
  }

  predicate Reopening(pc: Pc) {
    pc == Unlocking(true, true) || pc == Rereading(true) || (pc.Opening? && pc.retry)
  }

  /** How a goroutine comes to open for the second time. */
  lemma ReopeningStep(s: State, id: nat, lucky: bool)
    requires Inv(s) && Enabled(s, Go(id, lucky)) && Reopening(Next(s, s.pcs[id], lucky)) && !Reopening(s.pcs[id])
    ensures s.pcs[id] in {Checking(true), Dialing(true)} && Usable(Step(s, Go(id, lucky)).pool)
    ensures Next(s, s.pcs[id], lucky).Unlocking?
  {
  }

  /** Since its failed open, a goroutine opening for the second time has reconnected. */
  lemma {:induction false} RetryAfterReconnect(states: seq<State>, acts: seq<Action>, n: nat, id: nat)
    returns (i: nat, k: nat)
    requires IsRun(states, acts) && n <= |acts| && id in states[n].pcs && Reopening(states[n].pcs[id])
    ensures i < k < n && OpenFails(states, acts, i, id) && Reconnects(states, acts, k, id)
  {
    Moved(states, acts, n - 1, id);
    if id in states[n - 1].pcs && Reopening(states[n - 1].pcs[id]) {
      i, k := RetryAfterReconnect(states, acts, n - 1, id);
    } else {
      k := n - 1;
      AlwaysInv(states, acts, k);
      assert Enabled(states[k], acts[k]) && states[n] == Step(states[k], acts[k]);
      ReopeningStep(states[k], id, acts[k].lucky);
      i := RetryAfterFailedOpen(states, acts, k, id);
    }
  }

  lemma {:induction false} UnlockAfterFailedDial(states: seq<State>, acts: seq<Action>, n: nat, id: nat)
    returns (i: nat)
    requires IsRun(states, acts) && n <= |acts| && id in states[n].pcs
    requires states[n].pcs[id].Unlocking? && !states[n].pcs[id].ok
    ensures i < n && DialFails(states, acts, i, id)
  {
    assert states[n] == Step(states[n - 1], acts[n - 1]);
    if id in states[n - 1].pcs && states[n - 1].pcs[id] == states[n].pcs[id] {
      i := UnlockAfterFailedDial(states, acts, n - 1, id);
    } else {
      i := n - 1;
    }
  }

  /** In every interleaving, Channel gives up only when a dial of its own has failed, or when it
      could open no channel twice, with a reconnect in between. */
  lemma GivesUpOnlyAfterTrying(states: seq<State>, acts: seq<Action>, n: nat, id: nat)
    returns (i: nat, k: nat)
    requires IsRun(states, acts) && Does(states, acts, n, id) && states[n + 1].pcs[id] == Returned(None)
    ensures i <= n
    ensures DialFails(states, acts, i, id) ||
            (i < k < n && OpenFails(states, acts, i, id) && Reconnects(states, acts, k, id)
             && OpenFails(states, acts, n, id))
  {
    k := 0;
    assert states[n + 1] == Step(states[n], acts[n]);
    if states[n].pcs[id].Unlocking? {
      i := UnlockAfterFailedDial(states, acts, n, id);
    } else {
      i, k := RetryAfterReconnect(states, acts, n, id);
    }
  }

  /** The run goes on with steps of `id` alone, and the broker willing. */
  ghost predicate Alone(s: State, states: seq<State>, acts: seq<Action>, id: nat) {
    && |states| == |acts| + 1 && states[0] == s
    && forall i :: 0 <= i < |acts| ==>
         (acts[i] == CallChannel(id) || acts[i] == Go(id, true)) && Enabled(states[i], acts[i])
         && states[i + 1] == Step(states[i], acts[i])
  }

  lemma GoOn(s: State, states: seq<State>, acts: seq<Action>, id: nat, a: Action)
    returns (more: seq<State>, all: seq<Action>)
    requires Alone(s, states, acts, id) && (a == CallChannel(id) || a == Go(id, true)) && Enabled(states[|acts|], a)
    ensures Alone(s, more, all, id) && |all| == |acts| + 1 && more[|all|] == Step(states[|acts|], a)
  {
    more, all := states + [Step(states[|acts|], a)], acts + [a];
    forall i | 0 <= i < |all|
      ensures (all[i] == CallChannel(id) || all[i] == Go(id, true)) && Enabled(more[i], all[i])
      ensures more[i + 1] == Step(more[i], all[i])
    {
      if i < |acts| {
        assert more[i] == states[i] && more[i + 1] == states[i + 1] && all[i] == acts[i];
      }
    }
  }

  /** From the lock on, with nothing usable: dial, unlock, read the field again. */
  lemma RedialsAlone(s: State, states: seq<State>, acts: seq<Action>, id: nat)
    returns (more: seq<State>, all: seq<Action>)
    requires Alone(s, states, acts, id) && var t := states[|acts|];
             id in t.pcs && t.pcs[id] == Waiting(false) && t.writer == None && !Usable(t.pool)
    ensures Alone(s, more, all, id)
    ensures var t, t' := states[|acts|], more[|all|];
            && t'.pool == Dialed(t.pool) && t'.writer == None && id in t'.pcs
            && t'.pcs[id] == Opening(Some(t.pool.dialed), false)
  {
    more, all := GoOn(s, states, acts, id, Go(id, true));
    more, all := GoOn(s, more, all, id, Go(id, true));
    more, all := GoOn(s, more, all, id, Go(id, true));
    more, all := GoOn(s, more, all, id, Go(id, true));
    more, all := GoOn(s, more, all, id, Go(id, true));
  }

  /** With nothing in between and a willing broker, Channel returns a channel on the current link: the
      open one if there is one, and otherwise one it has dialed. */
  lemma ChannelAloneSucceeds(s: State, id: nat) returns (states: seq<State>, acts: seq<Action>, link: nat)
    requires Inv(s) && id !in s.pcs && s.writer == None
    ensures Alone(s, states, acts, id)
    ensures var t := states[|acts|];
            && id in t.pcs && t.pcs[id] == Returned(Some(link)) && t.pool.conn == Some(link) && link in t.pool.open
            && t.pool.deaths == s.pool.deaths
            && t.pool.dialed == s.pool.dialed + (if s.pool.open == {} then 1 else 0)
            && (s.pool.open != {} ==> t.pool == s.pool)
  {
    OneLiveMeansAtMostOne(s.pool);
    states, acts := [s], [];
    states, acts := GoOn(s, states, acts, id, CallChannel(id));
    states, acts := GoOn(s, states, acts, id, Go(id, true));
    states, acts := GoOn(s, states, acts, id, Go(id, true));
    link := s.pool.conn.value;
    if !Usable(s.pool) {
      link := s.pool.dialed;
      states, acts := RedialsAlone(s, states, acts, id);
    }
    states, acts := GoOn(s, states, acts, id, Go(id, true));
  }

  /** A Close that has returned has left nothing open at some point of its call. */
  lemma {:induction false} CloseCloses(states: seq<State>, acts: seq<Action>, n: nat, id: nat) returns (i: nat)
    requires IsRun(states, acts) && n <= |acts| && id in states[n].pcs
    requires states[n].pcs[id].CloseUnlocking? || states[n].pcs[id].CloseReturned?
    ensures i < n && Does(states, acts, i, id) && states[i + 1].pool.open == {}
  {
    AlwaysInv(states, acts, n - 1);
    OneLiveMeansAtMostOne(states[n - 1].pool);
    assert states[n] == Step(states[n - 1], acts[n - 1]);
    if id in states[n - 1].pcs && (states[n - 1].pcs[id].CloseUnlocking? || states[n - 1].pcs[id].CloseReturned?) {
      i := CloseCloses(states, acts, n - 1, id);
    } else {
      i := n - 1;
    }
  }
}
