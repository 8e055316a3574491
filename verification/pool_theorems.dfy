/**
 What the session pool guarantees in every run, and what it does not.
 */
module PoolTheorems {
  import opened Options
  import opened PoolModel
  import opened PoolSystem
  import opened PoolInvariants
  import opened PoolAccounting
  import opened Sizes

  ghost predicate Sound(s: Sys, lim: Limits) {
    Struct(s) && CloserMatch(s) && GlobalMatch(s, lim) && OutcomesMatch(s) && ConfigsFresh(s)
  }

  lemma SoundInitially(lim: Limits)
    ensures Sound(INITIAL, lim)
    ensures forall e :: CounterOk(INITIAL, lim, e, 0)
  {
    assert Ids(INITIAL.flights, Charged) == {};
    forall e
      ensures CounterOk(INITIAL, lim, e, 0)
    {
      assert Ids(INITIAL.flights, SlotOf(e)) == {};
      assert Ids(INITIAL.flights, LiveAt(e)) == {};
    }
  }

  lemma {:induction false} SoundRun(lim: Limits, states: seq<Sys>, actions: seq<Action>, i: nat)
    requires IsRun(lim, states, actions) && i < |states|
    ensures Sound(states[i], lim)
  {
    SoundInitially(lim);
    if i > 0 {
      SoundRun(lim, states, actions, i - 1);
      SoundStep(states[i - 1], lim, actions[i - 1]);
    }
  }

  lemma SoundStep(s: Sys, lim: Limits, a: Action)
    requires Sound(s, lim) && Enabled(s, a)
    ensures Sound(Apply(s, lim, a), lim)
  {
    StructStep(s, lim, a);
    CloserStep(s, lim, a);
    GlobalStep(s, lim, a);
    OutcomesStep(s, lim, a);
    FreshStep(s, lim, a);
  }

  /** The creations for the endpoint that were in flight at its last teardown before state i. */
  ghost function Slack(states: seq<Sys>, actions: seq<Action>, i: nat, endpoint: string): nat
    requires i <= |actions| && i < |states|
  {
    if i == 0 then 0
    else NextSlack(states[i - 1], actions[i - 1], endpoint, Slack(states, actions, i - 1, endpoint))
  }

  lemma {:induction false} OwnedRun(
    lim: Limits, states: seq<Sys>, actions: seq<Action>, i: nat, owner: string -> string)
    requires IsRun(lim, states, actions) && i < |states|
    requires forall j | 0 <= j < |actions| :: CallOwned(actions[j], owner)
    ensures KeysOwned(states[i], owner)
    ensures forall e :: CounterOk(states[i], lim, e, Slack(states, actions, i, e))
  {
    SoundInitially(lim);
    if i > 0 {
      OwnedRun(lim, states, actions, i - 1, owner);
      SoundRun(lim, states, actions, i - 1);
      OwnedStep(states[i - 1], lim, actions[i - 1], owner);
      forall e
        ensures CounterOk(states[i], lim, e, Slack(states, actions, i, e))
      {
        CounterStep(states[i - 1], lim, actions[i - 1], owner, e, Slack(states, actions, i - 1, e));
      }
    }
  }

  /**
   If action j - 1 was the last teardown of the endpoint, the slack is what was in
   flight then; without any it is zero.
   */
  lemma {:induction false} SlackIs(states: seq<Sys>, actions: seq<Action>, i: nat, endpoint: string, j: nat)
    requires i <= |actions| < |states| && j <= i
    requires forall m :: j <= m < i ==> !TearsDown(states[m], actions[m], endpoint)
    ensures j == 0 ==> Slack(states, actions, i, endpoint) == 0
    ensures j > 0 && TearsDown(states[j - 1], actions[j - 1], endpoint) ==>
      Slack(states, actions, i, endpoint) == |Ids(states[j - 1].flights, InFlightAt(endpoint))|
  {
    if j < i {
      SlackIs(states, actions, i - 1, endpoint, j);
    }
  }

  lemma {:induction false} SlackBound(lim: Limits, states: seq<Sys>, actions: seq<Action>, i: nat, endpoint: string)
    requires IsRun(lim, states, actions) && i < |states|
    ensures Slack(states, actions, i, endpoint) <= Crossed(states[i], endpoint)
  {
    if i > 0 {
      SlackBound(lim, states, actions, i - 1, endpoint);
      SoundRun(lim, states, actions, i - 1);
      SlackIsCrossed(states[i - 1], lim, actions[i - 1], endpoint, Slack(states, actions, i - 1, endpoint));
    }
  }

  // ------------------------------------------------- sizes of maps and of id sets

  ghost predicate IsPooled(f: Flight) {
    f.phase.Pooled?
  }

  ghost predicate IsInFlight(f: Flight) {
    f.phase.InFlight?
  }

  ghost predicate IsOwed(f: Flight) {
    f.phase.Owed?
  }

  ghost predicate IsTaken(f: Flight) {
    f.phase.Taken?
  }

  lemma PooledSize(s: Sys)
    requires SessionsMatch(s)
    ensures |s.pool.sessions| == |Ids(s.flights, IsPooled)|
  {
    var ids := map k | k in s.pool.sessions :: s.pool.sessions[k].id;
    assert ids.Keys == s.pool.sessions.Keys;
    forall i | i in Ids(s.flights, IsPooled)
      ensures i in ids.Values
    {
      assert ids[s.flights[i].key] == i;
    }
    assert ids.Values == Ids(s.flights, IsPooled);
    InjectiveSize(ids);
  }

  lemma CreatingSize(s: Sys)
    requires CreatingMatch(s)
    ensures |s.pool.creating| == |Ids(s.flights, IsInFlight)|
  {
    forall i | i in Ids(s.flights, IsInFlight)
      ensures i in s.pool.creating.Values
    {
      assert s.pool.creating[s.flights[i].key] == i;
    }
    assert s.pool.creating.Values == Ids(s.flights, IsInFlight);
    InjectiveSize(s.pool.creating);
  }

  // ------------------------------------------------------------- global capacity

  lemma ChargedSize(flights: seq<Flight>)
    ensures |Ids(flights, Charged)| ==
      |Ids(flights, IsPooled)| + |Ids(flights, IsInFlight)| + |Ids(flights, IsOwed)| + |Ids(flights, IsTaken)|
  {
    var live := Ids(flights, IsPooled) + Ids(flights, IsInFlight);
    var leaving := Ids(flights, IsOwed) + Ids(flights, IsTaken);
    assert Ids(flights, Charged) == live + leaving;
    assert live !! leaving;
    assert Ids(flights, IsPooled) !! Ids(flights, IsInFlight);
    assert Ids(flights, IsOwed) !! Ids(flights, IsTaken);
  }

  lemma AtMostOneTaken(s: Sys)
    requires CloserMatch(s)
    ensures |Ids(s.flights, IsTaken)| <= 1
  {
    if s.closer.Walking? && s.closer.current.Some? {
      assert Ids(s.flights, IsTaken) == {s.closer.current.value};
    } else {
      assert Ids(s.flights, IsTaken) == {};
    }
  }

  /**
   Conservation of process slots: the counter equals the pooled sessions, the
   creations in flight and the removed sessions whose decrement is still to come,
   so it stays between zero and the cap although those decrements run unlocked.
   */
  lemma GlobalConservation(lim: Limits, states: seq<Sys>, actions: seq<Action>, i: nat)
    requires IsRun(lim, states, actions) && i < |states|
    ensures var s := states[i];
      && s.pool.globalCount ==
           |s.pool.sessions| + |s.pool.creating| + |Ids(s.flights, IsOwed)| + |Ids(s.flights, IsTaken)|
      && |Ids(s.flights, IsTaken)| <= 1
      && 0 <= s.pool.globalCount <= lim.maxGlobal
  {
    SoundRun(lim, states, actions, i);
    var s := states[i];
    PooledSize(s);
    CreatingSize(s);
    ChargedSize(s.flights);
    AtMostOneTaken(s);
  }

  ghost predicate IsClosing(f: Flight) {
    f.phase.Closing?
  }

  ghost function Processes(s: Sys): set<nat> {
    set id: nat | id < |s.flights| && MayRun(s, id)
  }

  /**
   How many processes can be running: as many as the counter says, and on top of
   that only living ones that gave their slot back and are still being closed.
   */
  lemma RunningProcesses(lim: Limits, states: seq<Sys>, actions: seq<Action>, i: nat)
    requires IsRun(lim, states, actions) && i < |states|
    ensures var s := states[i];
      |Processes(s)| <= s.pool.globalCount + |Processes(s) * Ids(s.flights, IsClosing)|
    ensures states[i].pool.globalCount <= lim.maxGlobal
  {
    SoundRun(lim, states, actions, i);
    var s := states[i];
    var closing := Processes(s) * Ids(s.flights, IsClosing);
    assert Processes(s) - closing <= Ids(s.flights, Charged);
    SubsetSize(Processes(s) - closing, Ids(s.flights, Charged));
    assert Processes(s) == (Processes(s) - closing) + closing;
  }

  /** Only sessions of creations that were started can be known to be dead. */
  ghost predicate DeadStarted(s: Sys) {
    forall d :: d in s.dead ==> d < |s.flights|
  }

  lemma {:induction false} DeadStartedRun(lim: Limits, states: seq<Sys>, actions: seq<Action>, i: nat)
    requires IsRun(lim, states, actions) && i < |states|
    ensures DeadStarted(states[i])
  {
    if i > 0 {
      DeadStartedRun(lim, states, actions, i - 1);
      SoundRun(lim, states, actions, i - 1);
      ExtendsStep(states[i - 1], lim, actions[i - 1]);
      DeadStep(states[i - 1], lim, actions[i - 1]);
    }
  }

  lemma DeadStep(s: Sys, lim: Limits, a: Action)
    requires Struct(s) && CloserMatch(s) && Enabled(s, a)
    ensures s.dead <= Apply(s, lim, a).dead
    ensures forall d :: d in Apply(s, lim, a).dead ==> d in s.dead || d < |s.flights|
  {
  }

  /** A flight's process may be running later only if it may be running now. */
  ghost predicate Wanes(f: Flight, g: Flight) {
    f.phase.Failed? || f.phase.Closed? ==> g.phase.Failed? || g.phase.Closed?
  }

  ghost predicate AllWane(before: seq<Flight>, after: seq<Flight>) {
    |before| <= |after| && forall i: nat :: i < |before| ==> Wanes(before[i], after[i])
  }

  lemma WaneStep(s: Sys, lim: Limits, a: Action)
    requires Struct(s) && CloserMatch(s) && Enabled(s, a)
    ensures AllWane(s.flights, Apply(s, lim, a).flights)
  {
    var t := Apply(s, lim, a);
    match a
    case Enter(c) => WaneEnter(s, lim, c);
    case RegisterEndpoint(e, _) => WaneTeardown(s.flights, e);
    case UnregisterEndpoint(e) => WaneTeardown(s.flights, e);
    case _ =>
  }

  lemma WaneEnter(s: Sys, lim: Limits, c: nat)
    requires Struct(s) && Enabled(s, Enter(c))
    ensures AllWane(s.flights, ApplyEnter(s, lim, c).flights)
  {
    if !s.pool.stopped {
      EnterAfterPurge(s, lim, c);
      var q, t := Purged(s, s.clients[c].key, s.clients[c].endpoint), ApplyEnter(s, lim, c);
      assert forall i: nat :: i < |s.flights| ==> t.flights[i] == q.flights[i];
    }
  }

  lemma WaneTeardown(flights: seq<Flight>, e: string)
    ensures AllWane(flights, Teardown(flights, e))
  {
    forall i: nat | i < |flights|
      ensures Wanes(flights[i], Teardown(flights, e)[i])
    {
      assert Teardown(flights, e)[i] == TeardownOne(flights[i], e);
    }
  }

  /**
   When the number of processes grows, exactly: in a step that starts a creation,
   and then by that one.  A start breaks the cap on processes if and only if that
   many can be running before it.
   */
  lemma ProcessesGrowByStarts(lim: Limits, states: seq<Sys>, actions: seq<Action>, i: nat)
    requires IsRun(lim, states, actions) && i < |actions|
    ensures var s, t := states[i], states[i + 1];
      if |t.flights| == |s.flights| then Processes(t) <= Processes(s) && |Processes(t)| <= |Processes(s)|
      else
        && Processes(t) == Processes(s) + {|s.flights|} && |Processes(t)| == |Processes(s)| + 1
        && (|Processes(t)| > lim.maxGlobal <==> |Processes(s)| >= lim.maxGlobal)
  {
    var s, t, a := states[i], states[i + 1], actions[i];
    SoundRun(lim, states, actions, i);
    DeadStartedRun(lim, states, actions, i);
    WaneStep(s, lim, a);
    DeadStep(s, lim, a);
    forall p | p in Processes(t) && p < |s.flights|
      ensures p in Processes(s)
    {
      assert Wanes(s.flights[p], t.flights[p]);
    }
    if |t.flights| == |s.flights| {
      SubsetSize(Processes(t), Processes(s));
    } else {
      CreationStep(s, lim, a);
      StartKeepsProcesses(s, lim, a);
      assert Processes(t) == Processes(s) + {|s.flights|};
    }
  }

  lemma StartKeepsProcesses(s: Sys, lim: Limits, a: Action)
    requires Struct(s) && CloserMatch(s) && Enabled(s, a) && DeadStarted(s)
    requires |Apply(s, lim, a).flights| != |s.flights|
    ensures Processes(s) <= Processes(Apply(s, lim, a)) && |s.flights| in Processes(Apply(s, lim, a))
  {
    assert a.Enter?;
    var c, t := a.client, Apply(s, lim, a);
    EnterAfterPurge(s, lim, c);
    var q := Purged(s, s.clients[c].key, s.clients[c].endpoint);
    assert forall i: nat :: i < |s.flights| ==> t.flights[i] == q.flights[i];
    assert t.dead == s.dead;
  }

  /** Once the pool is stopped, the number of processes never grows. */
  lemma {:induction false} ProcessesWaneAfterStop(lim: Limits, states: seq<Sys>, actions: seq<Action>, i: nat, j: nat)
    requires IsRun(lim, states, actions) && i <= j < |states| && states[i].pool.stopped
    ensures Processes(states[j]) <= Processes(states[i]) && |Processes(states[j])| <= |Processes(states[i])|
    decreases j
  {
    if i < j {
      ProcessesWaneAfterStop(lim, states, actions, i, j - 1);
      NoCreationAfterStop(lim, states, actions, i, j - 1);
      NoCreationAfterStop(lim, states, actions, i, j);
      ProcessesGrowByStarts(lim, states, actions, j - 1);
    }
  }

  // ---------------------------------------------------------------- singleflight

  lemma OneLiveFlightPerKey(lim: Limits, states: seq<Sys>, actions: seq<Action>, i: nat, f: nat, g: nat)
    requires IsRun(lim, states, actions) && i < |states|
    requires f < |states[i].flights| && g < |states[i].flights|
    requires Live(states[i].flights[f]) && Live(states[i].flights[g])
    ensures states[i].flights[f].key == states[i].flights[g].key ==> f == g
    ensures states[i].pool.sessions.Keys !! states[i].pool.creating.Keys
  {
    SoundRun(lim, states, actions, i);
  }

  /** State s may start a creation that appears as the last flight of state t. */
  ghost predicate StartsOne(s: Sys, lim: Limits, t: Sys) {
    && |t.flights| == |s.flights| + 1
    && var f := t.flights[|s.flights|];
    && f.phase.InFlight? && !f.tainted && !s.pool.stopped
    && f.endpoint in s.pool.configs && f.cfg == s.pool.configs[f.endpoint]
    && f.key !in s.pool.creating
    && (f.key in s.pool.sessions ==> s.pool.sessions[f.key].id in s.dead)
    && t.pool.globalCount <= lim.maxGlobal
    && f.endpoint in t.pool.epCount && t.pool.epCount[f.endpoint] <= lim.maxPerEndpoint
  }

  lemma CreationStep(s: Sys, lim: Limits, a: Action)
    requires Struct(s) && CloserMatch(s) && Enabled(s, a)
    requires |s.flights| != |Apply(s, lim, a).flights|
    ensures StartsOne(s, lim, Apply(s, lim, a))
  {
    if a.Enter? && !s.pool.stopped {
      EnterAfterPurge(s, lim, a.client);
      assert |Purged(s, s.clients[a.client].key, s.clients[a.client].endpoint).flights| == |s.flights|;
    }
  }

  /**
   A step starts at most one creation, and only for a registered endpoint of a
   running pool, with its current settings, when the key is not being created
   and has no live pooled session; with it the flights that hold a slot, and the
   endpoint's counter, are still within the caps.
   */
  lemma CreationStartsOnlyWhenNeeded(lim: Limits, states: seq<Sys>, actions: seq<Action>, i: nat)
    requires IsRun(lim, states, actions) && i < |actions|
    requires |states[i].flights| != |states[i + 1].flights|
    ensures StartsOne(states[i], lim, states[i + 1])
  {
    SoundRun(lim, states, actions, i);
    CreationStep(states[i], lim, actions[i]);
  }

  /** Everyone who joined one creation is told the same. */
  lemma CallersAgree(lim: Limits, states: seq<Sys>, actions: seq<Action>, i: nat, c: nat, d: nat)
    requires IsRun(lim, states, actions) && i < |states|
    requires c in states[i].clients && states[i].clients[c].Returned?
    requires d in states[i].clients && states[i].clients[d].Returned?
    requires states[i].clients[c].via.Some? && states[i].clients[c].via == states[i].clients[d].via
    ensures states[i].clients[c].outcome == states[i].clients[d].outcome
    ensures states[i].clients[c].key == states[i].clients[d].key
    ensures states[i].clients[c].via.value < |states[i].flights|
    ensures var f := states[i].clients[c].via.value;
      match states[i].flights[f].phase
      case InFlight => false
      case Failed(error) => states[i].clients[c].outcome == CreateError(error)
      case _ => states[i].clients[c].outcome == Got(SessionOf(states[i], f))
  {
    SoundRun(lim, states, actions, i);
    assert OutcomeOk(states[i], states[i].clients[c]) && OutcomeOk(states[i], states[i].clients[d]);
  }

  /** A waiter that is woken retries only if the session it waited for is dead. */
  lemma WokenWaiter(lim: Limits, states: seq<Sys>, actions: seq<Action>, i: nat)
    requires IsRun(lim, states, actions) && i < |actions| && actions[i].Wake?
    ensures var c := actions[i].client;
      var before, after := states[i].clients[c], states[i + 1].clients[c];
      && before.Waiting? && before.flight < |states[i].flights|
      && states[i].flights[before.flight].key == before.key
      && (after.Entering? <==>
            !states[i].flights[before.flight].phase.Failed? && before.flight in states[i].dead)
      && (!after.Entering? ==>
            after.Returned? && after.via == Some(before.flight) && OutcomeOk(states[i + 1], after))
  {
    SoundRun(lim, states, actions, i);
    SoundRun(lim, states, actions, i + 1);
    assert OutcomeOk(states[i + 1], states[i + 1].clients[actions[i].client]);
  }

  // -------------------------------------------------------------- endpoint slots

  function PooledFor(s: Sys, endpoint: string): set<string> {
    set k | k in s.pool.sessions && s.pool.sessions[k].endpoint == endpoint
  }

  function CreatingFor(s: Sys, endpoint: string): set<string> {
    set k | k in s.pool.creating && s.pool.creating[k] < |s.flights|
            && s.flights[s.pool.creating[k]].endpoint == endpoint
  }

  /** An endpoint's live flights are its pooled sessions and creations. */
  lemma LiveSize(s: Sys, endpoint: string)
    requires Struct(s)
    ensures |Ids(s.flights, LiveAt(endpoint))| == |PooledFor(s, endpoint)| + |CreatingFor(s, endpoint)|
  {
    var m := map k | k in PooledFor(s, endpoint) + CreatingFor(s, endpoint) ::
      if k in s.pool.sessions then s.pool.sessions[k].id else s.pool.creating[k];
    assert m.Keys == PooledFor(s, endpoint) + CreatingFor(s, endpoint);
    forall i | i in Ids(s.flights, LiveAt(endpoint))
      ensures i in m.Values
    {
      assert m[s.flights[i].key] == i;
    }
    forall k | k in m
      ensures m[k] in Ids(s.flights, LiveAt(endpoint)) && s.flights[m[k]].key == k
    {
    }
    assert m.Values == Ids(s.flights, LiveAt(endpoint));
    InjectiveSize(m);
    assert |PooledFor(s, endpoint) + CreatingFor(s, endpoint)| == |PooledFor(s, endpoint)| + |CreatingFor(s, endpoint)|;
  }

  lemma SlotsAreLive(s: Sys, endpoint: string)
    ensures |Ids(s.flights, SlotOf(endpoint))| <= |Ids(s.flights, LiveAt(endpoint))|
  {
    SubsetSize(Ids(s.flights, SlotOf(endpoint)), Ids(s.flights, LiveAt(endpoint)));
  }

  /**
   Until the pool is stopped no endpoint slot leaks: the counter never exceeds
   the endpoint's pooled sessions plus creations.  These exceed the counter, and
   so the cap, by at most the number of creations that were in flight when the
   endpoint was last torn down; all of these are creations a teardown ran across,
   and if there never was one the counter is exact.
   */
  lemma EndpointAccounting(
    lim: Limits, states: seq<Sys>, actions: seq<Action>, i: nat, owner: string -> string, endpoint: string)
    requires IsRun(lim, states, actions) && i < |states| && !states[i].pool.stopped
    requires forall j | 0 <= j < |actions| :: CallOwned(actions[j], owner)
    ensures var s := states[i];
      var live := |PooledFor(s, endpoint)| + |CreatingFor(s, endpoint)|;
      var slack := Slack(states, actions, i, endpoint);
      && CountOf(s.pool.epCount, endpoint) <= live <= CountOf(s.pool.epCount, endpoint) + slack
      && live <= lim.maxPerEndpoint + slack
      && slack <= Crossed(s, endpoint)
      && (NeverTorn(s.flights, endpoint) ==>
            CountOf(s.pool.epCount, endpoint) == live <= lim.maxPerEndpoint)
  {
    SoundRun(lim, states, actions, i);
    OwnedRun(lim, states, actions, i, owner);
    LiveSize(states[i], endpoint);
    SlotsAreLive(states[i], endpoint);
    assert CounterOk(states[i], lim, endpoint, Slack(states, actions, i, endpoint));
    SlackBound(lim, states, actions, i, endpoint);
    if NeverTorn(states[i].flights, endpoint) {
      assert Ids(states[i].flights, CrossedAt(endpoint)) == {};
    }
  }

  /** With the endpoint id as the key an endpoint has one session or creation at most. */
  lemma OneSessionPerEndpoint(lim: Limits, states: seq<Sys>, actions: seq<Action>, i: nat, endpoint: string)
    requires IsRun(lim, states, actions) && i < |states|
    requires forall j | 0 <= j < |actions| :: CallOwned(actions[j], (key: string) => key)
    ensures |PooledFor(states[i], endpoint)| + |CreatingFor(states[i], endpoint)| <= 1
    ensures forall k :: k in states[i].pool.sessions ==> states[i].pool.sessions[k].endpoint == k
  {
    var owner := (key: string) => key;
    SoundRun(lim, states, actions, i);
    OwnedRun(lim, states, actions, i, owner);
    var s := states[i];
    LiveSize(s, endpoint);
    var live := Ids(s.flights, LiveAt(endpoint));
    if live != {} {
      var f :| f in live;
      forall g | g in live
        ensures g == f
      {
        assert s.flights[f].key == owner(s.flights[f].key) == endpoint;
        assert s.flights[g].key == owner(s.flights[g].key) == endpoint;
      }
      assert live == {f};
    }
    forall k | k in s.pool.sessions
      ensures s.pool.sessions[k].endpoint == k
    {
      var id := s.pool.sessions[k].id;
      assert s.flights[id].endpoint == owner(s.flights[id].key);
    }
  }

  // -------------------------------------------------------------- fresh settings

  /** Action a of state s tears the endpoint down while flight f is in flight. */
  ghost predicate TornInFlight(s: Sys, a: Action, f: nat, endpoint: string) {
    f < |s.flights| && s.flights[f].phase.InFlight? && TearsDown(s, a, endpoint)
  }

  lemma TaintStep(s: Sys, lim: Limits, a: Action, f: nat)
    requires Struct(s) && CloserMatch(s) && Enabled(s, a)
    requires f < |Apply(s, lim, a).flights| && Apply(s, lim, a).flights[f].tainted
    requires f < |s.flights| ==> !s.flights[f].tainted
    ensures f < |s.flights| && s.flights[f].phase.InFlight? && TearsDown(s, a, s.flights[f].endpoint)
  {
    if a.Enter? {
      EnterTaintsNothing(s, lim, a.client);
    }
  }

  lemma EnterTaintsNothing(s: Sys, lim: Limits, c: nat)
    requires Struct(s) && Enabled(s, Enter(c))
    ensures forall f: nat :: f < |ApplyEnter(s, lim, c).flights| && ApplyEnter(s, lim, c).flights[f].tainted ==>
      f < |s.flights| && s.flights[f].tainted
  {
    if !s.pool.stopped {
      EnterAfterPurge(s, lim, c);
    }
  }

  /** A tainted flight was in flight when a teardown of its endpoint ran. */
  lemma TaintExplained(lim: Limits, states: seq<Sys>, actions: seq<Action>, i: nat, f: nat)
    requires IsRun(lim, states, actions) && i < |states|
    requires f < |states[i].flights| && states[i].flights[f].tainted
    ensures exists j: nat :: j < i && TornInFlight(states[j], actions[j], f, states[i].flights[f].endpoint)
  {
    var j := TornBefore(lim, states, actions, i, f);
  }

  /** The action that tore the endpoint down. */
  lemma {:induction false} TornBefore(lim: Limits, states: seq<Sys>, actions: seq<Action>, i: nat, f: nat)
    returns (j: nat)
    requires IsRun(lim, states, actions) && i < |states|
    requires f < |states[i].flights| && states[i].flights[f].tainted
    ensures j < i && TornInFlight(states[j], actions[j], f, states[i].flights[f].endpoint)
  {
    j := i - 1;
    var s := states[j];
    SoundRun(lim, states, actions, j);
    ExtendsStep(s, lim, actions[j]);
    if f < |s.flights| {
      assert Continues(s.flights[f], states[i].flights[f]);
    }
    if f < |s.flights| && s.flights[f].tainted {
      j := TornBefore(lim, states, actions, j, f);
    } else {
      TaintStep(s, lim, actions[j], f);
    }
  }

  /**
   A pooled session runs under settings that a registration would not replace,
   or its creation was in flight when a teardown of its endpoint ran.
   */
  lemma PooledSettingsAreCurrent(lim: Limits, states: seq<Sys>, actions: seq<Action>, i: nat, key: string)
    requires IsRun(lim, states, actions) && i < |states| && key in states[i].pool.sessions
    ensures var s := states[i];
      var session := s.pool.sessions[key];
      || (session.endpoint in s.pool.configs && SameProcess(session.cfg, s.pool.configs[session.endpoint]))
      || (exists j: nat :: j < i && TornInFlight(states[j], actions[j], session.id, session.endpoint))
  {
    SoundRun(lim, states, actions, i);
    var id := states[i].pool.sessions[key].id;
    assert FlightFresh(states[i], states[i].flights[id]);
    if states[i].flights[id].tainted {
      TaintExplained(lim, states, actions, i, id);
    }
  }

  // -------------------------------------------------------------------- shutdown

  lemma StoppedStaysStopped(s: Sys, lim: Limits, a: Action)
    requires Struct(s) && CloserMatch(s) && Enabled(s, a) && s.pool.stopped
    ensures Apply(s, lim, a).pool.stopped && |Apply(s, lim, a).flights| == |s.flights|
  {
  }

  /** Once stopped, the pool starts no creation ever again. */
  lemma {:induction false} NoCreationAfterStop(lim: Limits, states: seq<Sys>, actions: seq<Action>, i: nat, j: nat)
    requires IsRun(lim, states, actions) && i <= j < |states| && states[i].pool.stopped
    ensures states[j].pool.stopped && |states[j].flights| == |states[i].flights|
    decreases j
  {
    if i < j {
      NoCreationAfterStop(lim, states, actions, i, j - 1);
      SoundRun(lim, states, actions, j - 1);
      StoppedStaysStopped(states[j - 1], lim, actions[j - 1]);
    }
  }

  lemma LateStep(s: Sys, lim: Limits, a: Action)
    requires Struct(s) && CloserMatch(s) && Enabled(s, a) && !a.StopList?
    ensures var t := Apply(s, lim, a);
      t.late == s.late && (t.closer.Walking? || t.closer.Finished? ==> s.closer.Walking? || s.closer.Finished?)
  {
  }

  /** `late` is the set of creations in flight when `CloseAll` listed the keys. */
  lemma {:induction false} LateExplained(lim: Limits, states: seq<Sys>, actions: seq<Action>, i: nat)
    requires IsRun(lim, states, actions) && i < |states|
    requires states[i].closer.Walking? || states[i].closer.Finished?
    ensures exists j: nat :: j < i && actions[j].StopList? && states[i].late == Creations(states[j].flights)
  {
    if i > 0 {
      SoundRun(lim, states, actions, i - 1);
      if actions[i - 1].StopList? {
        assert states[i].late == Creations(states[i - 1].flights);
      } else {
        LateStep(states[i - 1], lim, actions[i - 1]);
        LateExplained(lim, states, actions, i - 1);
      }
    }
  }

  ghost predicate OnlyFrom(s: Sys, creations: set<nat>) {
    && (forall k :: k in s.pool.sessions ==> s.pool.sessions[k].id in creations)
    && (creations == {} ==> s.pool.sessions == map[])
  }

  /**
   After `CloseAll` whatever is still pooled was being created while `CloseAll`
   listed the keys; if nothing was, the pool is empty for good.
   */
  lemma CloseAllLeavesOnlyLateCreations(lim: Limits, states: seq<Sys>, actions: seq<Action>, i: nat)
    requires IsRun(lim, states, actions) && i < |states| && states[i].closer.Finished?
    ensures exists j: nat :: j < i && actions[j].StopList? && OnlyFrom(states[i], Creations(states[j].flights))
  {
    SoundRun(lim, states, actions, i);
    LateExplained(lim, states, actions, i);
    var j: nat :| j < i && actions[j].StopList? && states[i].late == Creations(states[j].flights);
    assert forall k :: k in states[i].pool.sessions ==> states[i].pool.sessions[k].id in states[i].late;
    if states[i].late == {} {
      assert states[i].pool.sessions.Keys == {};
    }
    assert OnlyFrom(states[i], Creations(states[j].flights));
  }
}
