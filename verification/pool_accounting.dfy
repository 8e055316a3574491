/**
 The pool's per-endpoint counters and the freshness of pooled configurations,
 over every interleaving.
 */
module PoolAccounting {
  import opened PoolModel
  import opened PoolSystem
  import opened PoolInvariants
  import opened Sizes

  // ----------------------------------------------------------- configurations

  predicate Live(f: Flight) {
    f.phase.InFlight? || f.phase.Pooled?
  }

  ghost predicate FlightFresh(s: Sys, f: Flight) {
    Live(f) && !f.tainted ==>
      f.endpoint in s.pool.configs && SameProcess(f.cfg, s.pool.configs[f.endpoint])
  }

  ghost predicate ConfigsFresh(s: Sys) {
    forall i: nat :: i < |s.flights| ==> FlightFresh(s, s.flights[i])
  }

  lemma FreshEnter(s: Sys, lim: Limits, c: nat)
    requires Struct(s) && ConfigsFresh(s) && Enabled(s, Enter(c))
    ensures ConfigsFresh(ApplyEnter(s, lim, c))
  {
    if !s.pool.stopped {
      EnterAfterPurge(s, lim, c);
      var q := Purged(s, s.clients[c].key, s.clients[c].endpoint);
      assert ConfigsFresh(q);
      var t := ApplyEnter(s, lim, c);
      forall i: nat | i < |t.flights|
        ensures FlightFresh(t, t.flights[i])
      {
        if i < |q.flights| {
          assert t.flights[i] == q.flights[i] && FlightFresh(q, q.flights[i]);
        }
      }
    }
  }

  lemma FreshTeardown(s: Sys, t: Sys, endpoint: string)
    requires ConfigsFresh(s) && t.flights == Teardown(s.flights, endpoint)
    requires forall e :: e != endpoint && e in s.pool.configs ==>
      e in t.pool.configs && t.pool.configs[e] == s.pool.configs[e]
    ensures ConfigsFresh(t)
  {
    forall i: nat | i < |t.flights|
      ensures FlightFresh(t, t.flights[i])
    {
      assert t.flights[i] == TeardownOne(s.flights[i], endpoint) && FlightFresh(s, s.flights[i]);
    }
  }

  lemma FreshPhase(s: Sys, t: Sys, id: nat, phase: Phase)
    requires ConfigsFresh(s) && id < |s.flights| && t.flights == SetPhase(s.flights, id, phase)
    requires t.pool.configs == s.pool.configs
    requires phase.InFlight? || phase.Pooled? ==> Live(s.flights[id])
    ensures ConfigsFresh(t)
  {
    forall i: nat | i < |t.flights|
      ensures FlightFresh(t, t.flights[i])
    {
      assert FlightFresh(s, s.flights[i]);
    }
  }

  lemma FreshDiscard(s: Sys, t: Sys, key: string)
    requires Struct(s) && ConfigsFresh(s) && t.flights == Discard(s.flights, PooledAt(s.pool, key))
    requires t.pool.configs == s.pool.configs
    ensures ConfigsFresh(t)
  {
    if key in s.pool.sessions {
      FreshPhase(s, t, s.pool.sessions[key].id, Closing);
    }
  }

  lemma FreshRegister(s: Sys, t: Sys, endpoint: string, cfg: SpawnConfig)
    requires ConfigsFresh(s) && !NeedsTeardown(s.pool, endpoint, cfg)
    requires t.pool.configs == s.pool.configs[endpoint := cfg] && t.flights == s.flights
    ensures ConfigsFresh(t)
  {
    forall i: nat | i < |t.flights|
      ensures FlightFresh(t, t.flights[i])
    {
      assert FlightFresh(s, s.flights[i]);
    }
  }

  lemma FreshStep(s: Sys, lim: Limits, a: Action)
    requires Struct(s) && CloserMatch(s) && ConfigsFresh(s) && Enabled(s, a)
    ensures ConfigsFresh(Apply(s, lim, a))
  {
    var t := Apply(s, lim, a);
    match a
    case Enter(c) => FreshEnter(s, lim, c);
    case CreateFails(c, error) => FreshPhase(s, t, s.clients[c].flight, Failed(error));
    case CreateSucceeds(c) => FreshPhase(s, t, s.clients[c].flight, Pooled);
    case RegisterEndpoint(e, cfg) =>
      if NeedsTeardown(s.pool, e, cfg) {
        FreshTeardown(s, t, e);
      } else {
        FreshRegister(s, t, e, cfg);
      }
    case UnregisterEndpoint(e) => FreshTeardown(s, t, e);
    case InvalidateKey(k) => FreshDiscard(s, t, k);
    case ReapOne(k) => FreshDiscard(s, t, k);
    case CloseOwed(id) => FreshPhase(s, t, id, Closed);
    case CloseReturns(id) => FreshPhase(s, t, id, Closed);
    case StopTake(k) => if k in s.pool.sessions { FreshPhase(s, t, s.pool.sessions[k].id, Taken); }
    case StopDrop => FreshPhase(s, t, s.closer.current.value, Closed);
    case _ => assert t.flights == s.flights && t.pool.configs == s.pool.configs;
      assert forall i: nat :: i < |s.flights| ==> FlightFresh(s, s.flights[i]) ==> FlightFresh(t, t.flights[i]);
  }

  // ---------------------------------------------------------- endpoint counters

  /** Every key belongs to one endpoint, as callers derive keys from endpoints. */
  ghost predicate KeysOwned(s: Sys, owner: string -> string) {
    && (forall i: nat :: i < |s.flights| ==> s.flights[i].endpoint == owner(s.flights[i].key))
    && (forall c :: c in s.clients && !s.clients[c].Returned? ==> s.clients[c].endpoint == owner(s.clients[c].key))
  }

  ghost predicate CallOwned(a: Action, owner: string -> string) {
    a.Call? ==> a.endpoint == owner(a.key)
  }

  lemma ClientOwned(s: Sys, lim: Limits, a: Action, owner: string -> string, c: nat)
    requires KeysOwned(s, owner) && Enabled(s, a) && CallOwned(a, owner)
    requires c in Apply(s, lim, a).clients && !Apply(s, lim, a).clients[c].Returned?
    ensures Apply(s, lim, a).clients[c].endpoint == owner(Apply(s, lim, a).clients[c].key)
  {
    var t := Apply(s, lim, a);
    if c in s.clients && s.clients[c] == t.clients[c] {
    } else {
      assert a.Call? || a.Enter? || a.Wake?;
    }
  }

  lemma FlightOwned(s: Sys, lim: Limits, c: nat, owner: string -> string)
    requires KeysOwned(s, owner) && Enabled(s, Enter(c))
    ensures var t := ApplyEnter(s, lim, c);
      forall i: nat :: |s.flights| <= i < |t.flights| ==> t.flights[i].endpoint == owner(t.flights[i].key)
  {
  }

  lemma OwnedStep(s: Sys, lim: Limits, a: Action, owner: string -> string)
    requires Struct(s) && CloserMatch(s) && KeysOwned(s, owner) && Enabled(s, a) && CallOwned(a, owner)
    ensures KeysOwned(Apply(s, lim, a), owner)
  {
    var t := Apply(s, lim, a);
    ExtendsStep(s, lim, a);
    if a.Enter? {
      FlightOwned(s, lim, a.client, owner);
    } else {
      assert |t.flights| == |s.flights|;
    }
    forall i: nat | i < |t.flights|
      ensures t.flights[i].endpoint == owner(t.flights[i].key)
    {
      if i < |s.flights| {
        assert Continues(s.flights[i], t.flights[i]);
      }
    }
    forall c | c in t.clients && !t.clients[c].Returned?
      ensures t.clients[c].endpoint == owner(t.clients[c].key)
    {
      ClientOwned(s, lim, a, owner, c);
    }
  }

  /** A flight that holds one of its endpoint's slots. */
  ghost function SlotOf(endpoint: string): Flight -> bool {
    (f: Flight) => f.endpoint == endpoint && Live(f) && !f.tainted
  }

  ghost function LiveAt(endpoint: string): Flight -> bool {
    (f: Flight) => f.endpoint == endpoint && Live(f)
  }

  ghost function InFlightAt(endpoint: string): Flight -> bool {
    (f: Flight) => f.endpoint == endpoint && f.phase.InFlight?
  }

  /** An action that tears the endpoint's sessions down in state s. */
  ghost predicate TearsDown(s: Sys, a: Action, endpoint: string) {
    match a
    case RegisterEndpoint(e, cfg) => e == endpoint && NeedsTeardown(s.pool, e, cfg)
    case UnregisterEndpoint(e) => e == endpoint
    case _ => false
  }

  /** How far an endpoint's counter may be off: a teardown sets it anew, to the creations it runs across. */
  ghost function NextSlack(s: Sys, a: Action, endpoint: string, slack: nat): nat {
    if TearsDown(s, a, endpoint) then |Ids(s.flights, InFlightAt(endpoint))| else slack
  }

  /**
   Until the pool is stopped, the counter counts no more than the flights that hold
   a slot, and misses at most `slack` of the live ones.
   */
  ghost predicate CounterOk(s: Sys, lim: Limits, endpoint: string, slack: nat) {
    var count := CountOf(s.pool.epCount, endpoint);
    && count <= lim.maxPerEndpoint
    && (!s.pool.stopped ==>
          count <= |Ids(s.flights, SlotOf(endpoint))| && |Ids(s.flights, LiveAt(endpoint))| <= count + slack)
  }

  /** A live flight changes phase; the counter follows as `CancelSlot` or `ReleaseSlot` does. */
  lemma CounterPhase(s: Sys, t: Sys, lim: Limits, id: nat, phase: Phase, endpoint: string, slack: nat)
    requires CounterOk(s, lim, endpoint, slack) && id < |s.flights| && Live(s.flights[id])
    requires t.flights == SetPhase(s.flights, id, phase) && t.pool.stopped == s.pool.stopped
    requires phase.Pooled? ==> t.pool.epCount == s.pool.epCount
    requires phase.Failed? ==> t.pool.epCount == CancelSlot(s.pool.epCount, s.flights[id].endpoint)
    requires phase.Closing? ==> t.pool.epCount == ReleaseSlot(s.pool.epCount, s.flights[id].endpoint)
    requires phase.Pooled? || phase.Failed? || phase.Closing?
    ensures CounterOk(t, lim, endpoint, slack)
  {
    IdsUpdate(s.flights, id, t.flights[id], SlotOf(endpoint));
    IdsUpdate(s.flights, id, t.flights[id], LiveAt(endpoint));
  }

  /** A teardown frees all slots of its endpoint, leaves its creations live, and touches no other endpoint. */
  lemma SlotsTeardown(flights: seq<Flight>, torn: string, endpoint: string)
    ensures Ids(Teardown(flights, torn), SlotOf(endpoint)) ==
      if endpoint == torn then {} else Ids(flights, SlotOf(endpoint))
    ensures Ids(Teardown(flights, torn), LiveAt(endpoint)) ==
      if endpoint == torn then Ids(flights, InFlightAt(endpoint)) else Ids(flights, LiveAt(endpoint))
  {
    var after := Teardown(flights, torn);
    forall i: nat | i < |flights|
      ensures after[i] == TeardownOne(flights[i], torn)
    {
    }
  }

  lemma CounterTeardown(s: Sys, t: Sys, lim: Limits, torn: string, endpoint: string, slack: nat)
    requires CounterOk(s, lim, endpoint, slack) && t.flights == Teardown(s.flights, torn)
    requires t.pool.stopped == s.pool.stopped
    requires t.pool.epCount == s.pool.epCount - {torn}
    ensures CounterOk(t, lim, endpoint, if endpoint == torn then |Ids(s.flights, InFlightAt(endpoint))| else slack)
  {
    SlotsTeardown(s.flights, torn, endpoint);
  }

  lemma CounterDiscard(s: Sys, t: Sys, lim: Limits, key: string, endpoint: string, slack: nat)
    requires Struct(s) && CounterOk(s, lim, endpoint, slack)
    requires t.flights == Discard(s.flights, PooledAt(s.pool, key)) && t.pool.stopped == s.pool.stopped
    requires t.pool.epCount ==
      if key in s.pool.sessions then ReleaseSlot(s.pool.epCount, s.pool.sessions[key].endpoint) else s.pool.epCount
    ensures CounterOk(t, lim, endpoint, slack)
  {
    if key in s.pool.sessions {
      CounterPhase(s, t, lim, s.pool.sessions[key].id, Closing, endpoint, slack);
    }
  }

  /** Phases outside the live ones do not matter to the counters. */
  lemma CounterSettles(s: Sys, t: Sys, lim: Limits, id: nat, phase: Phase, endpoint: string, slack: nat)
    requires CounterOk(s, lim, endpoint, slack) && id < |s.flights|
    requires !Live(s.flights[id]) && !phase.InFlight? && !phase.Pooled?
    requires t.flights == SetPhase(s.flights, id, phase)
    requires t.pool.stopped == s.pool.stopped && t.pool.epCount == s.pool.epCount
    ensures CounterOk(t, lim, endpoint, slack)
  {
    assert Ids(t.flights, SlotOf(endpoint)) == Ids(s.flights, SlotOf(endpoint));
    assert Ids(t.flights, LiveAt(endpoint)) == Ids(s.flights, LiveAt(endpoint));
  }

  lemma CounterReserve(q: Sys, t: Sys, lim: Limits, f: Flight, endpoint: string, slack: nat)
    requires CounterOk(q, lim, endpoint, slack) && t.flights == q.flights + [f] && SlotOf(f.endpoint)(f)
    requires CountOf(q.pool.epCount, f.endpoint) < lim.maxPerEndpoint
    requires t.pool.epCount == q.pool.epCount[f.endpoint := CountOf(q.pool.epCount, f.endpoint) + 1]
    requires t.pool.stopped == q.pool.stopped
    ensures CounterOk(t, lim, endpoint, slack)
  {
    IdsAppend(q.flights, f, SlotOf(endpoint));
    IdsAppend(q.flights, f, LiveAt(endpoint));
  }

  lemma CounterPurged(
    s: Sys, lim: Limits, key: string, ep: string, owner: string -> string, endpoint: string, slack: nat)
    requires Struct(s) && KeysOwned(s, owner) && CounterOk(s, lim, endpoint, slack) && ep == owner(key)
    ensures CounterOk(Purged(s, key, ep), lim, endpoint, slack)
  {
    var q := Purged(s, key, ep);
    if q != s {
      var id := s.pool.sessions[key].id;
      assert s.flights[id].endpoint == ep;
      CounterDiscard(s, q, lim, key, endpoint, slack);
    }
  }

  lemma EnterEffect(s: Sys, lim: Limits, c: nat)
    requires Struct(s) && Enabled(s, Enter(c)) && !s.pool.stopped
    ensures
      var key, ep := s.clients[c].key, s.clients[c].endpoint;
      var q, t := Purged(s, key, ep), ApplyEnter(s, lim, c);
      || (t.flights == q.flights && t.pool == q.pool)
      || (&& ep in q.pool.configs
          && t.flights == q.flights + [Flight(key, ep, q.pool.configs[ep], c, InFlight, false)]
          && CountOf(q.pool.epCount, ep) < lim.maxPerEndpoint
          && t.pool.epCount == q.pool.epCount[ep := CountOf(q.pool.epCount, ep) + 1]
          && t.pool.stopped == q.pool.stopped)
  {
    EnterAfterPurge(s, lim, c);
  }

  lemma CounterEnter(s: Sys, lim: Limits, c: nat, owner: string -> string, endpoint: string, slack: nat)
    requires Struct(s) && KeysOwned(s, owner) && CounterOk(s, lim, endpoint, slack) && Enabled(s, Enter(c))
    ensures CounterOk(ApplyEnter(s, lim, c), lim, endpoint, slack)
  {
    var t := ApplyEnter(s, lim, c);
    if !s.pool.stopped {
      var key, ep := s.clients[c].key, s.clients[c].endpoint;
      EnterEffect(s, lim, c);
      CounterPurged(s, lim, key, ep, owner, endpoint, slack);
      var q := Purged(s, key, ep);
      if t.flights != q.flights {
        CounterReserve(q, t, lim, Flight(key, ep, q.pool.configs[ep], c, InFlight, false), endpoint, slack);
      } else {
        CounterSame(q, t, lim, endpoint, slack);
      }
    } else {
      CounterSame(s, t, lim, endpoint, slack);
    }
  }

  lemma CounterSame(s: Sys, t: Sys, lim: Limits, endpoint: string, slack: nat)
    requires CounterOk(s, lim, endpoint, slack) && t.flights == s.flights
    requires t.pool.epCount == s.pool.epCount && t.pool.stopped == s.pool.stopped
    ensures CounterOk(t, lim, endpoint, slack)
  {
  }

  lemma CounterLeaves(s: Sys, lim: Limits, a: Action, e: string, slack: nat)
    requires Struct(s) && CloserMatch(s) && CounterOk(s, lim, e, slack) && Enabled(s, a)
    requires !a.Call? && !a.Enter? && !a.CreateFails? && !a.CreateSucceeds? && !a.Wake?
    requires !a.RegisterEndpoint? && !a.UnregisterEndpoint?
    ensures CounterOk(Apply(s, lim, a), lim, e, slack)
  {
    var t := Apply(s, lim, a);
    match a
    case InvalidateKey(k) => CounterDiscard(s, t, lim, k, e, slack);
    case ReapOne(k) => CounterDiscard(s, t, lim, k, e, slack);
    case CloseOwed(id) => CounterSettles(s, t, lim, id, Closed, e, slack);
    case CloseReturns(id) => CounterSettles(s, t, lim, id, Closed, e, slack);
    case StopDrop => CounterSettles(s, t, lim, s.closer.current.value, Closed, e, slack);
    case _ =>
  }

  /** Every action keeps the counter right up to its slack, which only a teardown of the endpoint changes. */
  lemma CounterStep(s: Sys, lim: Limits, a: Action, owner: string -> string, e: string, slack: nat)
    requires Struct(s) && CloserMatch(s) && KeysOwned(s, owner) && CounterOk(s, lim, e, slack) && Enabled(s, a)
    ensures CounterOk(Apply(s, lim, a), lim, e, NextSlack(s, a, e, slack))
  {
    var t := Apply(s, lim, a);
    match a
    case Call(_, _, _) =>
    case Enter(c) => CounterEnter(s, lim, c, owner, e, slack);
    case CreateFails(c, error) => CounterPhase(s, t, lim, s.clients[c].flight, Failed(error), e, slack);
    case CreateSucceeds(c) => CounterPhase(s, t, lim, s.clients[c].flight, Pooled, e, slack);
    case Wake(_) =>
    case RegisterEndpoint(torn, cfg) =>
      if NeedsTeardown(s.pool, torn, cfg) {
        CounterTeardown(s, t, lim, torn, e, slack);
      }
    case UnregisterEndpoint(torn) => CounterTeardown(s, t, lim, torn, e, slack);
    case _ => CounterLeaves(s, lim, a, e, slack);
  }

  // ------------------------------------------------- creations a teardown ran across

  ghost function CrossedAt(endpoint: string): Flight -> bool {
    (f: Flight) => f.endpoint == endpoint && f.tainted
  }

  /** How many creations for the endpoint a teardown of the endpoint ever ran across. */
  ghost function Crossed(s: Sys, endpoint: string): nat {
    |Ids(s.flights, CrossedAt(endpoint))|
  }

  /** No creation for the endpoint ever had a teardown of the endpoint run across it. */
  ghost predicate NeverTorn(flights: seq<Flight>, endpoint: string) {
    forall i: nat :: i < |flights| && flights[i].endpoint == endpoint ==> !flights[i].tainted
  }

  /** The slack counts creations that are marked as crossed. */
  lemma SlackIsCrossed(s: Sys, lim: Limits, a: Action, e: string, slack: nat)
    requires Struct(s) && CloserMatch(s) && Enabled(s, a) && slack <= Crossed(s, e)
    ensures NextSlack(s, a, e, slack) <= Crossed(Apply(s, lim, a), e)
  {
    var t := Apply(s, lim, a);
    if TearsDown(s, a, e) {
      assert t.flights == Teardown(s.flights, e);
      CrossedByTeardown(s.flights, e);
      SubsetSize(Ids(s.flights, InFlightAt(e)), Ids(t.flights, CrossedAt(e)));
    } else {
      ExtendsStep(s, lim, a);
      forall i | i in Ids(s.flights, CrossedAt(e))
        ensures i in Ids(t.flights, CrossedAt(e))
      {
        assert Continues(s.flights[i], t.flights[i]);
      }
      SubsetSize(Ids(s.flights, CrossedAt(e)), Ids(t.flights, CrossedAt(e)));
    }
  }

  lemma CrossedByTeardown(flights: seq<Flight>, e: string)
    ensures Ids(flights, InFlightAt(e)) <= Ids(Teardown(flights, e), CrossedAt(e))
  {
    forall i | i in Ids(flights, InFlightAt(e))
      ensures i in Ids(Teardown(flights, e), CrossedAt(e))
    {
      assert Teardown(flights, e)[i] == TeardownOne(flights[i], e);
    }
  }
}
