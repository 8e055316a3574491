/**
 What can still happen to the session pool from a state that a run reached: the
 exact conditions under which `CloseAll` empties the pool and pooled settings are
 current.
 */
module PoolContinuations {
  import opened Options
  import opened PoolModel
  import opened PoolSystem
  import opened PoolInvariants
  import opened PoolAccounting
  import opened PoolTheorems

  /** The actions can be taken one after the other from s, and lead to t. */
  ghost predicate Leads(lim: Limits, s: Sys, actions: seq<Action>, t: Sys)
    decreases |actions|
  {
    if actions == [] then t == s
    else Enabled(s, actions[0]) && Leads(lim, Apply(s, lim, actions[0]), actions[1..], t)
  }

  lemma First(lim: Limits, s: Sys, a: Action, rest: seq<Action>, t: Sys)
    requires Enabled(s, a) && Leads(lim, Apply(s, lim, a), rest, t)
    ensures Leads(lim, s, [a] + rest, t)
  {
    assert ([a] + rest)[1..] == rest;
  }

  /** Two actions in front of others. */
  lemma FirstTwo(lim: Limits, s: Sys, a: Action, b: Action, rest: seq<Action>, t: Sys)
    requires Enabled(s, a) && Enabled(Apply(s, lim, a), b)
    requires Leads(lim, Apply(Apply(s, lim, a), lim, b), rest, t)
    ensures Leads(lim, s, [a, b] + rest, t)
  {
    First(lim, Apply(s, lim, a), b, rest, t);
    First(lim, s, a, [b] + rest, t);
    assert [a] + ([b] + rest) == [a, b] + rest;
  }

  // -------------------------------------------------------------------- shutdown

  /** Once the pool is stopped, creations in flight and creations `CloseAll` may miss come from `open`. */
  ghost predicate OpenWithin(s: Sys, open: set<nat>) {
    && s.pool.stopped && Creations(s.flights) <= open
    && (s.closer.Walking? || s.closer.Finished? ==> s.late <= open)
  }

  lemma OpenStep(s: Sys, lim: Limits, a: Action, open: set<nat>)
    requires Sound(s, lim) && Enabled(s, a) && OpenWithin(s, open)
    ensures OpenWithin(Apply(s, lim, a), open)
  {
    var t := Apply(s, lim, a);
    StoppedStaysStopped(s, lim, a);
    ExtendsStep(s, lim, a);
    forall i | i in Creations(t.flights)
      ensures i in open
    {
      assert Continues(s.flights[i], t.flights[i]);
      NotRestarted(s, lim, a, i);
    }
    if !a.StopList? {
      LateStep(s, lim, a);
    }
  }

  /** A creation that is over stays over. */
  lemma NotRestarted(s: Sys, lim: Limits, a: Action, i: nat)
    requires Sound(s, lim) && Enabled(s, a) && i < |s.flights| && i < |Apply(s, lim, a).flights|
    requires Apply(s, lim, a).flights[i].phase.InFlight?
    ensures s.flights[i].phase.InFlight?
  {
    ExtendsStep(s, lim, a);
    assert Continues(s.flights[i], Apply(s, lim, a).flights[i]);
  }

  lemma {:induction false} OnlyOpenAreLeft(
    lim: Limits, s: Sys, actions: seq<Action>, t: Sys, open: set<nat>, key: string)
    requires Sound(s, lim) && OpenWithin(s, open) && Leads(lim, s, actions, t)
    requires t.closer.Finished? && key in t.pool.sessions
    ensures t.pool.sessions[key].id in open
    decreases |actions|
  {
    if actions == [] {
      assert t.pool.sessions[key].id in s.late;
    } else {
      SoundStep(s, lim, actions[0]);
      OpenStep(s, lim, actions[0], open);
      OnlyOpenAreLeft(lim, Apply(s, lim, actions[0]), actions[1..], t, open, key);
    }
  }

  ghost predicate Keeps(s: Sys, t: Sys, keys: set<string>) {
    forall k :: k in keys && k in s.pool.sessions ==> k in t.pool.sessions && t.pool.sessions[k] == s.pool.sessions[k]
  }

  /** One turn of `CloseAll`: a key of its list is taken, and a session found there closed. */
  lemma WalkOnce(lim: Limits, s: Sys, k: string, keys: set<string>) returns (turn: seq<Action>, t: Sys)
    requires Sound(s, lim) && s.closer.Walking? && s.closer.current.None? && k in s.closer.todo && k !in keys
    ensures Sound(t, lim) && t.closer == Walking(s.closer.todo - {k}, None) && Keeps(s, t, keys)
    ensures turn == [StopTake(k)] || turn == [StopTake(k), StopDrop]
    ensures Enabled(s, StopTake(k))
    ensures var u := Apply(s, lim, StopTake(k));
      if |turn| == 1 then t == u else Enabled(u, StopDrop) && t == Apply(u, lim, StopDrop)
  {
    var take := StopTake(k);
    TakeEffect(lim, s, take, keys);
    turn, t := [take], Apply(s, lim, take);
    if t.closer.current.Some? {
      var u := t;
      DropEnabled(u, lim);
      turn, t := turn + [StopDrop], Apply(u, lim, StopDrop);
      SoundStep(u, lim, StopDrop);
    }
  }

  lemma TakeEffect(lim: Limits, s: Sys, take: Action, keys: set<string>)
    requires Sound(s, lim) && s.closer.Walking? && s.closer.current.None?
    requires take.StopTake? && take.key in s.closer.todo && take.key !in keys
    ensures Enabled(s, take) && Sound(Apply(s, lim, take), lim) && Keeps(s, Apply(s, lim, take), keys)
    ensures Apply(s, lim, take).closer.Walking? && Apply(s, lim, take).closer.todo == s.closer.todo - {take.key}
  {
    SoundStep(s, lim, take);
  }

  lemma DropEnabled(s: Sys, lim: Limits)
    requires Sound(s, lim) && s.closer.Walking? && s.closer.current.Some?
    ensures Enabled(s, StopDrop)
    ensures Apply(s, lim, StopDrop).closer == Walking(s.closer.todo, None)
    ensures Apply(s, lim, StopDrop).pool.sessions == s.pool.sessions
  {
  }

  /** `CloseAll` is between two turns, and none of the keys is still on its list. */
  ghost predicate Between(s: Sys, lim: Limits, keys: set<string>) {
    Sound(s, lim) && s.closer.Walking? && s.closer.current.None? && keys !! s.closer.todo
  }

  /** `CloseAll` can walk to its end, past whatever is not on its list. */
  lemma {:induction false} WalkToTheEnd(lim: Limits, s: Sys, keys: set<string>) returns (actions: seq<Action>, t: Sys)
    requires Between(s, lim, keys)
    ensures Leads(lim, s, actions, t) && t.closer.Finished? && Keeps(s, t, keys)
    decreases |s.closer.todo|
  {
    if s.closer.todo == {} {
      actions, t := [StopFinish], Apply(s, lim, StopFinish);
      assert Leads(lim, t, [], t);
      First(lim, s, StopFinish, [], t);
    } else {
      var k :| k in s.closer.todo;
      var turn, v := WalkOnce(lim, s, k, keys);
      actions, t := WalkToTheEnd(lim, v, keys);
      if |turn| == 2 {
        First(lim, Apply(s, lim, StopTake(k)), StopDrop, actions, t);
        actions := [StopDrop] + actions;
      }
      First(lim, s, StopTake(k), actions, t);
      actions := [StopTake(k)] + actions;
    }
  }

  /** A creation in flight can succeed, and then its session is pooled. */
  lemma CanSucceed(s: Sys, lim: Limits, f: nat)
    requires Sound(s, lim) && f in Creations(s.flights)
    ensures Enabled(s, CreateSucceeds(s.flights[f].creator))
    ensures Holds(Apply(s, lim, CreateSucceeds(s.flights[f].creator)), s.flights[f].key, f)
  {
    assert s.clients[s.flights[f].creator] == Creating(s.flights[f].key, s.flights[f].endpoint, f);
  }

  /** The session of creation f can still be in the pool when `CloseAll` has finished. */
  ghost predicate CanBeLeft(lim: Limits, s: Sys, f: nat) {
    exists actions, t, key :: Leads(lim, s, actions, t) && t.closer.Finished? && Holds(t, key, f)
  }

  ghost predicate Holds(s: Sys, key: string, f: nat) {
    key in s.pool.sessions && s.pool.sessions[key].id == f
  }

  lemma ListEffect(s: Sys, lim: Limits, list: Action, f: nat)
    requires Sound(s, lim) && s.closer.Flagged? && f in Creations(s.flights) && list == StopList
    ensures var u := Apply(s, lim, list);
      Between(u, lim, {s.flights[f].key}) && u.flights == s.flights
  {
    SoundStep(s, lim, list);
  }

  /** A creation in flight can succeed right after the keys were listed. */
  lemma SucceedsLate(lim: Limits, s: Sys, f: nat) returns (list: Action, create: Action, t: Sys)
    requires Sound(s, lim) && s.closer.Flagged? && f in Creations(s.flights)
    ensures Enabled(s, list) && Enabled(Apply(s, lim, list), create)
    ensures t == Apply(Apply(s, lim, list), lim, create)
    ensures Between(t, lim, {s.flights[f].key}) && Holds(t, s.flights[f].key, f)
  {
    list, create := StopList, CreateSucceeds(s.flights[f].creator);
    var u := Apply(s, lim, list);
    ListEffect(s, lim, list, f);
    CanSucceed(u, lim, f);
    SoundStep(u, lim, create);
    t := Apply(u, lim, create);
  }

  lemma LeaveBehind(lim: Limits, s: Sys, f: nat)
    requires Sound(s, lim) && s.closer.Flagged? && f in Creations(s.flights)
    ensures CanBeLeft(lim, s, f)
  {
    var key := s.flights[f].key;
    var list, create, v := SucceedsLate(lim, s, f);
    var actions, t := WalkToTheEnd(lim, v, {key});
    FirstTwo(lim, s, list, create, actions, t);
    assert Holds(t, key, f);
    LeftBy(lim, s, [list, create] + actions, t, key, f);
  }

  lemma LeftBy(lim: Limits, s: Sys, actions: seq<Action>, t: Sys, key: string, f: nat)
    requires Leads(lim, s, actions, t) && t.closer.Finished? && Holds(t, key, f)
    ensures CanBeLeft(lim, s, f)
  {
  }

  /**
   What `CloseAll` can leave behind, exactly: from any state a run reaches in which
   the stop flag is set and the keys are about to be listed, a session can be in the
   pool after `CloseAll` if and only if its creation is in flight in that state.
   */
  lemma LeftBehindExactly(lim: Limits, states: seq<Sys>, actions: seq<Action>, i: nat, f: nat)
    requires IsRun(lim, states, actions) && i < |states| && states[i].closer.Flagged?
    ensures CanBeLeft(lim, states[i], f) <==> f in Creations(states[i].flights)
  {
    var s := states[i];
    SoundRun(lim, states, actions, i);
    if f in Creations(s.flights) {
      LeaveBehind(lim, s, f);
    }
    if CanBeLeft(lim, s, f) {
      var more, t, key :| Leads(lim, s, more, t) && t.closer.Finished? && Holds(t, key, f);
      OnlyOpenAreLeft(lim, s, more, t, Creations(s.flights), key);
    }
  }

  /** Whatever happens from s on, the pool is empty once `CloseAll` has finished. */
  ghost predicate EndsEmpty(lim: Limits, s: Sys) {
    forall actions, t :: Leads(lim, s, actions, t) && t.closer.Finished? ==> t.pool.sessions == map[]
  }

  /**
   `CloseAll` is sure to empty the pool if and only if no creation is in flight; this
   holds in every state between the setting of the flag and the listing of the keys.
   */
  lemma CloseAllEmptiesExactly(lim: Limits, states: seq<Sys>, actions: seq<Action>, i: nat)
    requires IsRun(lim, states, actions) && i < |states| && states[i].closer.Flagged?
    ensures EndsEmpty(lim, states[i]) <==> Creations(states[i].flights) == {}
  {
    var s := states[i];
    if f :| f in Creations(s.flights) {
      LeftBehindExactly(lim, states, actions, i, f);
      var more, t, key :| Leads(lim, s, more, t) && t.closer.Finished? && Holds(t, key, f);
      assert t.pool.sessions != map[];
    } else {
      forall more, t | Leads(lim, s, more, t) && t.closer.Finished?
        ensures t.pool.sessions == map[]
      {
        if key :| key in t.pool.sessions {
          assert Holds(t, key, t.pool.sessions[key].id);
          LeftBehindExactly(lim, states, actions, i, t.pool.sessions[key].id);
        }
      }
    }
  }

  /** `CloseAll` can finish from every state in which it has set the flag. */
  lemma CloseAllCanFinish(lim: Limits, states: seq<Sys>, actions: seq<Action>, i: nat)
    returns (more: seq<Action>, t: Sys)
    requires IsRun(lim, states, actions) && i < |states| && states[i].closer.Flagged?
    ensures Leads(lim, states[i], more, t) && t.closer.Finished?
  {
    var s := states[i];
    SoundRun(lim, states, actions, i);
    SoundStep(s, lim, StopList);
    var u := Apply(s, lim, StopList);
    more, t := WalkToTheEnd(lim, u, {});
    First(lim, s, StopList, more, t);
    more := [StopList] + more;
  }

  // -------------------------------------------------------------- fresh settings

  /** A message about the endpoint's settings. */
  predicate Speaks(a: Action, endpoint: string) {
    (a.RegisterEndpoint? && a.endpoint == endpoint) || (a.UnregisterEndpoint? && a.endpoint == endpoint)
  }

  /** The flight's settings are ones the registered settings would not replace. */
  ghost predicate Current(s: Sys, f: nat)
    requires f < |s.flights|
  {
    var e := s.flights[f].endpoint;
    e in s.pool.configs && SameProcess(s.flights[f].cfg, s.pool.configs[e])
  }

  /** A creation in flight, or a pooled session, that no teardown ran across. */
  ghost predicate Uncrossed(s: Sys, f: nat, endpoint: string) {
    f < |s.flights| && Live(s.flights[f]) && !s.flights[f].tainted && s.flights[f].endpoint == endpoint
  }

  /** A message leaves an uncrossed flight current if and only if it tears nothing down. */
  lemma MessageKeepsCurrent(s: Sys, lim: Limits, a: Action, f: nat, endpoint: string)
    requires Sound(s, lim) && Enabled(s, a) && Speaks(a, endpoint) && Uncrossed(s, f, endpoint)
    ensures f < |Apply(s, lim, a).flights|
    ensures Current(Apply(s, lim, a), f) <==> !TearsDown(s, a, endpoint)
  {
    assert FlightFresh(s, s.flights[f]);
    ExtendsStep(s, lim, a);
    assert Continues(s.flights[f], Apply(s, lim, a).flights[f]);
  }

  lemma CurrentKept(s: Sys, lim: Limits, a: Action, f: nat)
    requires Sound(s, lim) && Enabled(s, a) && f < |s.flights| && !Speaks(a, s.flights[f].endpoint)
    ensures f < |Apply(s, lim, a).flights|
    ensures Apply(s, lim, a).flights[f].endpoint == s.flights[f].endpoint
    ensures Current(Apply(s, lim, a), f) <==> Current(s, f)
  {
    ExtendsStep(s, lim, a);
    assert Continues(s.flights[f], Apply(s, lim, a).flights[f]);
    SettingsKept(s, lim, a, s.flights[f].endpoint);
  }

  lemma SettingsKept(s: Sys, lim: Limits, a: Action, endpoint: string)
    requires Sound(s, lim) && Enabled(s, a) && !Speaks(a, endpoint)
    ensures endpoint in Apply(s, lim, a).pool.configs <==> endpoint in s.pool.configs
    ensures endpoint in s.pool.configs ==> Apply(s, lim, a).pool.configs[endpoint] == s.pool.configs[endpoint]
  {
    if a.Enter? {
      EnterKeepsSettings(s, lim, a.client);
    }
  }

  lemma EnterKeepsSettings(s: Sys, lim: Limits, c: nat)
    requires Enabled(s, Enter(c))
    ensures ApplyEnter(s, lim, c).pool.configs == s.pool.configs
  {
  }

  /**
   When a creation, or the session it made, runs under current settings, exactly:
   with action j the last message about its endpoint, and the flight live and not
   crossed by a teardown before, it is current ever after if and only if that
   message tore nothing down.
   */
  lemma {:induction false} CurrentExactly(
    lim: Limits, states: seq<Sys>, actions: seq<Action>, j: nat, i: nat, f: nat, endpoint: string)
    requires IsRun(lim, states, actions) && j < i < |states|
    requires Uncrossed(states[j], f, endpoint) && Speaks(actions[j], endpoint)
    requires forall m :: j < m < i ==> !Speaks(actions[m], endpoint)
    ensures f < |states[i].flights| && states[i].flights[f].endpoint == endpoint
    ensures Current(states[i], f) <==> !TearsDown(states[j], actions[j], endpoint)
  {
    SoundRun(lim, states, actions, i - 1);
    if i == j + 1 {
      MessageKeepsCurrent(states[j], lim, actions[j], f, endpoint);
      ExtendsStep(states[j], lim, actions[j]);
      assert Continues(states[j].flights[f], states[i].flights[f]);
    } else {
      CurrentExactly(lim, states, actions, j, i - 1, f, endpoint);
      CurrentKept(states[i - 1], lim, actions[i - 1], f);
    }
  }

  /**
   Over any history, however often a teardown ran across its creation: a flight
   runs under current settings if and only if the last message about its endpoint
   is a registration of settings that a registration would not tell from its own.
   */
  lemma {:induction false} LastMessageDecides(
    lim: Limits, states: seq<Sys>, actions: seq<Action>, j: nat, i: nat, f: nat)
    requires IsRun(lim, states, actions) && j < i < |states| && f < |states[i].flights|
    requires Speaks(actions[j], states[i].flights[f].endpoint)
    requires forall m :: j < m < i ==> !Speaks(actions[m], states[i].flights[f].endpoint)
    ensures Current(states[i], f) <==>
      actions[j].RegisterEndpoint? && SameProcess(states[i].flights[f].cfg, actions[j].cfg)
  {
    SettingsAfter(lim, states, actions, j, i, states[i].flights[f].endpoint);
  }

  /** The last message about an endpoint decides what is registered for it. */
  lemma {:induction false} SettingsAfter(
    lim: Limits, states: seq<Sys>, actions: seq<Action>, j: nat, i: nat, endpoint: string)
    requires IsRun(lim, states, actions) && j < i < |states| && Speaks(actions[j], endpoint)
    requires forall m :: j < m < i ==> !Speaks(actions[m], endpoint)
    ensures endpoint in states[i].pool.configs <==> actions[j].RegisterEndpoint?
    ensures actions[j].RegisterEndpoint? ==> states[i].pool.configs[endpoint] == actions[j].cfg
  {
    if i > j + 1 {
      SettingsAfter(lim, states, actions, j, i - 1, endpoint);
      SoundRun(lim, states, actions, i - 1);
      SettingsKept(states[i - 1], lim, actions[i - 1], endpoint);
    }
  }

  /** There is such a message for every flight. */
  lemma {:induction false} EveryFlightHasAMessage(lim: Limits, states: seq<Sys>, actions: seq<Action>, i: nat, f: nat)
    returns (j: nat)
    requires IsRun(lim, states, actions) && i < |states| && f < |states[i].flights|
    ensures j < i && Speaks(actions[j], states[i].flights[f].endpoint)
    ensures forall m :: j < m < i ==> !Speaks(actions[m], states[i].flights[f].endpoint)
  {
    var e := states[i].flights[f].endpoint;
    j := i - 1;
    var s := states[j];
    SoundRun(lim, states, actions, j);
    if !Speaks(actions[j], e) {
      if f < |s.flights| {
        ExtendsStep(s, lim, actions[j]);
        assert Continues(s.flights[f], states[i].flights[f]);
        j := EveryFlightHasAMessage(lim, states, actions, j, f);
      } else {
        CreationStep(s, lim, actions[j]);
        j := LastMessage(lim, states, actions, j, e);
      }
    }
  }

  /** Whatever is registered was registered by a message. */
  lemma {:induction false} LastMessage(lim: Limits, states: seq<Sys>, actions: seq<Action>, i: nat, endpoint: string)
    returns (j: nat)
    requires IsRun(lim, states, actions) && i < |states| && endpoint in states[i].pool.configs
    ensures j < i && Speaks(actions[j], endpoint)
    ensures forall m :: j < m < i ==> !Speaks(actions[m], endpoint)
  {
    j := i - 1;
    if !Speaks(actions[j], endpoint) {
      SoundRun(lim, states, actions, j);
      SettingsKept(states[j], lim, actions[j], endpoint);
      j := LastMessage(lim, states, actions, j, endpoint);
    }
  }

  /**
   The same for what gets pooled: after any message about its endpoint a creation
   in flight can still succeed, and then the pooled session's settings are current
   if and only if the message tore nothing down.
   */
  lemma PooledAfterMessage(lim: Limits, states: seq<Sys>, actions: seq<Action>, i: nat, f: nat, a: Action)
    returns (t: Sys)
    requires IsRun(lim, states, actions) && i < |states|
    requires f in Creations(states[i].flights) && Uncrossed(states[i], f, states[i].flights[f].endpoint)
    requires Speaks(a, states[i].flights[f].endpoint)
    ensures Leads(lim, states[i], [a, CreateSucceeds(states[i].flights[f].creator)], t)
    ensures Holds(t, states[i].flights[f].key, f) && f < |t.flights|
    ensures Current(t, f) <==> !TearsDown(states[i], a, states[i].flights[f].endpoint)
  {
    var s := states[i];
    SoundRun(lim, states, actions, i);
    var endpoint, b := s.flights[f].endpoint, CreateSucceeds(s.flights[f].creator);
    t := SucceedsAfter(s, lim, a, f);
    MessageKeepsCurrent(s, lim, a, f, endpoint);
    assert Leads(lim, t, [], t);
    FirstTwo(lim, s, a, b, [], t);
    assert [a, b] + [] == [a, b];
  }

  /** A message about its settings does not stop a creation. */
  lemma SucceedsAfter(s: Sys, lim: Limits, a: Action, f: nat) returns (t: Sys)
    requires Sound(s, lim) && f in Creations(s.flights) && Speaks(a, s.flights[f].endpoint)
    ensures var b := CreateSucceeds(s.flights[f].creator);
      && Enabled(s, a) && Enabled(Apply(s, lim, a), b) && t == Apply(Apply(s, lim, a), lim, b)
    ensures Holds(t, s.flights[f].key, f) && f < |t.flights|
    ensures f < |Apply(s, lim, a).flights| && (Current(t, f) <==> Current(Apply(s, lim, a), f))
  {
    SoundStep(s, lim, a);
    StillCreating(s, lim, a, f);
    var u := Apply(s, lim, a);
    t := Succeeds(u, lim, f);
  }

  lemma Succeeds(s: Sys, lim: Limits, f: nat) returns (t: Sys)
    requires Sound(s, lim) && f in Creations(s.flights)
    ensures var b := CreateSucceeds(s.flights[f].creator);
      Enabled(s, b) && t == Apply(s, lim, b)
    ensures Holds(t, s.flights[f].key, f) && f < |t.flights| && (Current(t, f) <==> Current(s, f))
  {
    var b := CreateSucceeds(s.flights[f].creator);
    CanSucceed(s, lim, f);
    CurrentKept(s, lim, b, f);
    t := Apply(s, lim, b);
  }

  lemma StillCreating(s: Sys, lim: Limits, a: Action, f: nat)
    requires Sound(s, lim) && Enabled(s, a) && f in Creations(s.flights) && Speaks(a, s.flights[f].endpoint)
    ensures f in Creations(Apply(s, lim, a).flights)
    ensures var u := Apply(s, lim, a).flights[f];
      u.creator == s.flights[f].creator && u.key == s.flights[f].key && u.endpoint == s.flights[f].endpoint
  {
  }

  // ------------------------------------------------------------ negative counters

  /** A creation for the endpoint fails. */
  ghost predicate FailsFor(s: Sys, a: Action, endpoint: string) {
    a.CreateFails? && a.client in s.clients && s.clients[a.client].Creating? && s.clients[a.client].endpoint == endpoint
  }

  lemma EnterKeepsCountersNatural(s: Sys, lim: Limits, c: nat, e: string)
    requires Struct(s) && Enabled(s, Enter(c)) && CountOf(s.pool.epCount, e) >= 0
    ensures CountOf(ApplyEnter(s, lim, c).pool.epCount, e) >= 0
  {
    if !s.pool.stopped {
      EnterEffect(s, lim, c);
    }
  }

  /** A failed creation leaves the counter negative if and only if the counter was not positive before. */
  lemma FailureLeavesNegative(s: Sys, lim: Limits, a: Action, e: string)
    requires Enabled(s, a) && FailsFor(s, a, e)
    ensures CountOf(Apply(s, lim, a).pool.epCount, e) < 0 <==> CountOf(s.pool.epCount, e) <= 0
  {
  }

  /**
   When an endpoint's counter becomes negative, exactly: in the step in which a
   creation for the endpoint fails while the counter is zero.
   */
  lemma CounterTurnsNegative(lim: Limits, states: seq<Sys>, actions: seq<Action>, i: nat, e: string)
    requires IsRun(lim, states, actions) && i < |actions| && CountOf(states[i].pool.epCount, e) >= 0
    ensures CountOf(states[i + 1].pool.epCount, e) < 0 <==>
      FailsFor(states[i], actions[i], e) && CountOf(states[i].pool.epCount, e) == 0
  {
    SoundRun(lim, states, actions, i);
    if actions[i].Enter? {
      EnterKeepsCountersNatural(states[i], lim, actions[i].client, e);
    } else if FailsFor(states[i], actions[i], e) {
      FailureLeavesNegative(states[i], lim, actions[i], e);
    } else {
      OthersKeepCountersNatural(states[i], lim, actions[i], e);
    }
  }

  lemma OthersKeepCountersNatural(s: Sys, lim: Limits, a: Action, e: string)
    requires Struct(s) && Enabled(s, a) && !a.Enter? && !FailsFor(s, a, e) && CountOf(s.pool.epCount, e) >= 0
    ensures CountOf(Apply(s, lim, a).pool.epCount, e) >= 0
  {
  }

  /**
   The same along a run: after any message about its endpoint a creation in flight
   can still fail.  If no teardown ever ran across a creation for the endpoint
   before, that leaves the counter negative if and only if the message tears the
   endpoint down.
   */
  lemma FailedAfterMessage(
    lim: Limits, states: seq<Sys>, actions: seq<Action>, i: nat, f: nat, a: Action, error: string,
    owner: string -> string)
    returns (t: Sys)
    requires IsRun(lim, states, actions) && i < |states| && !states[i].pool.stopped
    requires forall j | 0 <= j < |actions| :: CallOwned(actions[j], owner)
    requires f in Creations(states[i].flights) && NeverTorn(states[i].flights, states[i].flights[f].endpoint)
    requires Speaks(a, states[i].flights[f].endpoint)
    ensures Leads(lim, states[i], [a, CreateFails(states[i].flights[f].creator, error)], t)
    ensures CountOf(t.pool.epCount, states[i].flights[f].endpoint) < 0 <==>
      TearsDown(states[i], a, states[i].flights[f].endpoint)
  {
    var s := states[i];
    var e, b := s.flights[f].endpoint, CreateFails(s.flights[f].creator, error);
    SoundRun(lim, states, actions, i);
    EndpointAccounting(lim, states, actions, i, owner, e);
    LiveSize(s, e);
    assert f in Ids(s.flights, LiveAt(e));
    assert CountOf(s.pool.epCount, e) >= 1;
    t := FailsAfter(s, lim, a, f, error);
    MessageAndCounter(s, lim, a, e);
    assert Leads(lim, t, [], t);
    FirstTwo(lim, s, a, b, [], t);
    assert [a, b] + [] == [a, b];
  }

  /** A message about an endpoint clears its counter if it tears it down, and else leaves it. */
  lemma MessageAndCounter(s: Sys, lim: Limits, a: Action, e: string)
    requires Enabled(s, a) && Speaks(a, e)
    ensures CountOf(Apply(s, lim, a).pool.epCount, e) == if TearsDown(s, a, e) then 0 else CountOf(s.pool.epCount, e)
  {
  }

  lemma FailsAfter(s: Sys, lim: Limits, a: Action, f: nat, error: string) returns (t: Sys)
    requires Sound(s, lim) && f in Creations(s.flights) && Speaks(a, s.flights[f].endpoint)
    ensures var b := CreateFails(s.flights[f].creator, error);
      && Enabled(s, a) && Enabled(Apply(s, lim, a), b) && t == Apply(Apply(s, lim, a), lim, b)
    ensures CountOf(t.pool.epCount, s.flights[f].endpoint) < 0 <==>
      CountOf(Apply(s, lim, a).pool.epCount, s.flights[f].endpoint) <= 0
  {
    SoundStep(s, lim, a);
    StillCreating(s, lim, a, f);
    var u, b := Apply(s, lim, a), CreateFails(s.flights[f].creator, error);
    CanFail(u, lim, f, error);
    FailureLeavesNegative(u, lim, b, s.flights[f].endpoint);
    t := Apply(u, lim, b);
  }

  lemma CanFail(s: Sys, lim: Limits, f: nat, error: string)
    requires Sound(s, lim) && f in Creations(s.flights)
    ensures var b := CreateFails(s.flights[f].creator, error);
      Enabled(s, b) && FailsFor(s, b, s.flights[f].endpoint)
  {
    assert s.clients[s.flights[f].creator] == Creating(s.flights[f].key, s.flights[f].endpoint, f);
  }
}
