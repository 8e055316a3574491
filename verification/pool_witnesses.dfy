/**
 Runs that show where the session pool's guarantees end.  Each lemma exhibits a
 run, action by action, for any settings.
 */
module PoolWitnesses {
  import opened Options
  import opened PoolModel
  import opened PoolSystem

  ghost predicate Reaches(lim: Limits, actions: seq<Action>, s: Sys) {
    exists states: seq<Sys> :: IsRun(lim, states, actions) && states[|actions|] == s
  }

  lemma Start(lim: Limits)
    ensures Reaches(lim, [], INITIAL)
  {
    assert IsRun(lim, [INITIAL], []);
  }

  lemma Then(lim: Limits, actions: seq<Action>, s: Sys, a: Action)
    requires Reaches(lim, actions, s) && Enabled(s, a)
    ensures Reaches(lim, actions + [a], Apply(s, lim, a))
  {
    var states: seq<Sys> :| IsRun(lim, states, actions) && states[|actions|] == s;
    var longer := states + [Apply(s, lim, a)];
    forall i | 0 <= i < |actions + [a]|
      ensures Enabled(longer[i], (actions + [a])[i]) && longer[i + 1] == Apply(longer[i], lim, (actions + [a])[i])
    {
      if i < |actions| {
        assert longer[i] == states[i] && longer[i + 1] == states[i + 1];
      }
    }
    assert IsRun(lim, longer, actions + [a]);
  }

  /** The state in which client 0 is creating the session of key for endpoint e. */
  ghost function OneCreating(key: string, e: string, cfg: SpawnConfig): Sys {
    Sys(PoolState(map[], map[key := 0], map[e := 1], map[e := cfg], 1, false),
        map[0 := Creating(key, e, 0)], [Flight(key, e, cfg, 0, InFlight, false)], {}, {}, Running, {})
  }

  ghost function CreateActions(key: string, e: string, cfg: SpawnConfig): seq<Action> {
    [RegisterEndpoint(e, cfg), Call(0, key, e), Enter(0)]
  }

  lemma ReachesCreating(lim: Limits, key: string, e: string, cfg: SpawnConfig)
    requires lim.maxGlobal >= 1 && lim.maxPerEndpoint >= 1
    ensures Reaches(lim, CreateActions(key, e, cfg), OneCreating(key, e, cfg))
  {
    Start(lim);
    Then(lim, [], INITIAL, RegisterEndpoint(e, cfg));
    var s1 := INITIAL.(pool := EMPTY_POOL.(configs := map[e := cfg]));
    assert Apply(INITIAL, lim, RegisterEndpoint(e, cfg)) == s1;
    Then(lim, [] + [RegisterEndpoint(e, cfg)], s1, Call(0, key, e));
    var s2 := s1.(clients := map[0 := Entering(key, e)]);
    Then(lim, [] + [RegisterEndpoint(e, cfg)] + [Call(0, key, e)], s2, Enter(0));
    assert Apply(s2, lim, Enter(0)) == OneCreating(key, e, cfg);
    assert [] + [RegisterEndpoint(e, cfg)] + [Call(0, key, e)] + [Enter(0)] == CreateActions(key, e, cfg);
  }

  /**
   A changed registration during a creation leaves a session with the old
   settings in the pool.
   */
  lemma StaleSettingsCanBePooled(lim: Limits, key: string, e: string, before: SpawnConfig, after: SpawnConfig)
    returns (actions: seq<Action>, end: Sys)
    requires lim.maxGlobal >= 1 && lim.maxPerEndpoint >= 1 && !SameProcess(before, after)
    ensures Reaches(lim, actions, end)
    ensures key in end.pool.sessions && end.pool.sessions[key] == Session(0, e, before)
    ensures e in end.pool.configs && end.pool.configs[e] == after
  {
    ReachesCreating(lim, key, e, before);
    var s, acts := OneCreating(key, e, before), CreateActions(key, e, before);
    Then(lim, acts, s, RegisterEndpoint(e, after));
    var t := Apply(s, lim, RegisterEndpoint(e, after));
    assert t.clients == s.clients && |t.flights| == 1;
    assert t.flights[0] == TeardownOne(s.flights[0], e);
    Then(lim, acts + [RegisterEndpoint(e, after)], t, CreateSucceeds(0));
    end := Apply(t, lim, CreateSucceeds(0));
    actions := acts + [RegisterEndpoint(e, after)] + [CreateSucceeds(0)];
  }

  /** A creation that ends after `CloseAll` leaves its session in the pool. */
  lemma CloseAllCanLeaveASession(lim: Limits, key: string, e: string, cfg: SpawnConfig)
    returns (actions: seq<Action>, end: Sys)
    requires lim.maxGlobal >= 1 && lim.maxPerEndpoint >= 1
    ensures Reaches(lim, actions, end) && end.closer.Finished? && key in end.pool.sessions
  {
    ReachesCreating(lim, key, e, cfg);
    var s, acts := OneCreating(key, e, cfg), CreateActions(key, e, cfg);
    Then(lim, acts, s, StopFlag);
    var t := Apply(s, lim, StopFlag);
    Then(lim, acts + [StopFlag], t, StopList);
    var u := Apply(t, lim, StopList);
    assert u.closer.todo == {};
    Then(lim, acts + [StopFlag] + [StopList], u, StopFinish);
    var v := Apply(u, lim, StopFinish);
    Then(lim, acts + [StopFlag] + [StopList] + [StopFinish], v, CreateSucceeds(0));
    end := Apply(v, lim, CreateSucceeds(0));
    actions := acts + [StopFlag] + [StopList] + [StopFinish] + [CreateSucceeds(0)];
  }

  /** The pool after the one session of OneCreating was pooled and then reaped. */
  ghost function OneReaped(key: string, e: string, cfg: SpawnConfig): Sys {
    Sys(PoolState(map[], map[], map[], map[e := cfg], 0, false),
        map[0 := Returned(key, Got(Session(0, e, cfg)), Some(0))],
        [Flight(key, e, cfg, 0, Closing, false)], {}, {}, Running, {})
  }

  lemma ReachesReaped(lim: Limits, key: string, e: string, cfg: SpawnConfig)
    requires lim.maxGlobal >= 1 && lim.maxPerEndpoint >= 1
    ensures Reaches(lim, CreateActions(key, e, cfg) + [CreateSucceeds(0)] + [ReapScan({key})] + [ReapOne(key)],
                    OneReaped(key, e, cfg))
  {
    ReachesCreating(lim, key, e, cfg);
    var s, acts := OneCreating(key, e, cfg), CreateActions(key, e, cfg);
    Then(lim, acts, s, CreateSucceeds(0));
    var t := Sys(PoolState(map[key := Session(0, e, cfg)], map[], map[e := 1], map[e := cfg], 1, false),
                 map[0 := Returned(key, Got(Session(0, e, cfg)), Some(0))],
                 [Flight(key, e, cfg, 0, Pooled, false)], {}, {}, Running, {});
    assert Apply(s, lim, CreateSucceeds(0)) == t;
    Then(lim, acts + [CreateSucceeds(0)], t, ReapScan({key}));
    var u := t.(reaping := {key});
    Then(lim, acts + [CreateSucceeds(0)] + [ReapScan({key})], u, ReapOne(key));
    assert Apply(u, lim, ReapOne(key)) == OneReaped(key, e, cfg);
  }

  /**
   A reaped session gives its global slot back before it is closed, so with a
   cap of one process two may be running.
   */
  lemma ReapingCanExceedTheProcessCap(lim: Limits, key: string, e: string, cfg: SpawnConfig)
    returns (actions: seq<Action>, end: Sys)
    requires lim.maxGlobal == 1 && lim.maxPerEndpoint >= 1
    ensures Reaches(lim, actions, end)
    ensures MayRun(end, 0) && MayRun(end, 1) && end.pool.globalCount == lim.maxGlobal
  {
    ReachesReaped(lim, key, e, cfg);
    var s := OneReaped(key, e, cfg);
    var acts := CreateActions(key, e, cfg) + [CreateSucceeds(0)] + [ReapScan({key})] + [ReapOne(key)];
    Then(lim, acts, s, Call(1, key, e));
    var t := s.(clients := s.clients[1 := Entering(key, e)]);
    Then(lim, acts + [Call(1, key, e)], t, Enter(1));
    end := Apply(t, lim, Enter(1));
    actions := acts + [Call(1, key, e)] + [Enter(1)];
  }

  /**
   A teardown across a creation forgets the endpoint's counter, so two keys of
   one endpoint can be created at once under a cap of one.
   */
  lemma TeardownCanExceedTheEndpointCap(lim: Limits, key: string, other: string, e: string, cfg: SpawnConfig)
    returns (actions: seq<Action>, end: Sys)
    requires lim.maxGlobal >= 2 && lim.maxPerEndpoint == 1 && key != other
    ensures Reaches(lim, actions, end)
    ensures |end.flights| == 2 && end.flights[0].phase.InFlight? && end.flights[1].phase.InFlight?
    ensures end.flights[0].endpoint == end.flights[1].endpoint == e
    ensures end.flights[0].tainted && !end.flights[1].tainted
  {
    ReachesCreating(lim, key, e, cfg);
    var s, acts := OneCreating(key, e, cfg), CreateActions(key, e, cfg);
    Then(lim, acts, s, UnregisterEndpoint(e));
    var t := Apply(s, lim, UnregisterEndpoint(e));
    assert t.flights[0] == TeardownOne(s.flights[0], e);
    assert t.pool.epCount == map[] && t.pool.sessions == map[];
    Then(lim, acts + [UnregisterEndpoint(e)], t, RegisterEndpoint(e, cfg));
    var u := Apply(t, lim, RegisterEndpoint(e, cfg));
    Then(lim, acts + [UnregisterEndpoint(e)] + [RegisterEndpoint(e, cfg)], u, Call(1, other, e));
    var v := Apply(u, lim, Call(1, other, e));
    Then(lim, acts + [UnregisterEndpoint(e)] + [RegisterEndpoint(e, cfg)] + [Call(1, other, e)], v, Enter(1));
    end := Apply(v, lim, Enter(1));
    actions := acts + [UnregisterEndpoint(e)] + [RegisterEndpoint(e, cfg)] + [Call(1, other, e)] + [Enter(1)];
  }

  /** The pool after a teardown ran across its only creation, which then failed. */
  ghost function OneFailed(key: string, e: string, cfg: SpawnConfig, error: string): Sys {
    Sys(PoolState(map[], map[], map[e := -1], map[], 0, false),
        map[0 := Returned(key, CreateError(error), Some(0))],
        [Flight(key, e, cfg, 0, Failed(error), true)], {}, {}, Running, {})
  }

  /** A creation that fails after such a teardown leaves the endpoint's counter at minus one. */
  lemma EndpointCounterCanBeNegative(lim: Limits, key: string, e: string, cfg: SpawnConfig, error: string)
    returns (actions: seq<Action>, end: Sys)
    requires lim.maxGlobal >= 1 && lim.maxPerEndpoint >= 1
    ensures Reaches(lim, actions, end) && end == OneFailed(key, e, cfg, error)
    ensures e in end.pool.epCount && end.pool.epCount[e] == -1
  {
    ReachesCreating(lim, key, e, cfg);
    var s, acts := OneCreating(key, e, cfg), CreateActions(key, e, cfg);
    Then(lim, acts, s, UnregisterEndpoint(e));
    var t := Apply(s, lim, UnregisterEndpoint(e));
    assert t.flights == [TeardownOne(s.flights[0], e)];
    assert t.clients == s.clients && t.pool.epCount == map[] && t.pool.sessions == map[] && t.pool.configs == map[];
    Then(lim, acts + [UnregisterEndpoint(e)], t, CreateFails(0, error));
    end := Apply(t, lim, CreateFails(0, error));
    assert end.pool.creating == map[];
    actions := acts + [UnregisterEndpoint(e)] + [CreateFails(0, error)];
  }

  /** From then on even a creation that nothing runs across drives it from zero to minus one when it fails. */
  lemma UncrossedFailureCanBeNegative(lim: Limits, key: string, e: string, cfg: SpawnConfig, error: string)
    returns (actions: seq<Action>, end: Sys)
    requires lim.maxGlobal >= 1 && lim.maxPerEndpoint >= 1
    ensures Reaches(lim, actions, end)
    ensures e in end.pool.epCount && end.pool.epCount[e] == -1
    ensures |end.flights| == 2 && end.flights[1].phase.Failed? && !end.flights[1].tainted
  {
    var acts, s := EndpointCounterCanBeNegative(lim, key, e, cfg, error);
    Then(lim, acts, s, RegisterEndpoint(e, cfg));
    var t := s.(pool := s.pool.(configs := map[e := cfg]));
    assert Apply(s, lim, RegisterEndpoint(e, cfg)) == t;
    Then(lim, acts + [RegisterEndpoint(e, cfg)], t, Call(1, key, e));
    var u := t.(clients := t.clients[1 := Entering(key, e)]);
    Then(lim, acts + [RegisterEndpoint(e, cfg)] + [Call(1, key, e)], u, Enter(1));
    var v := Apply(u, lim, Enter(1));
    assert v.flights == u.flights + [Flight(key, e, cfg, 1, InFlight, false)];
    assert v.pool.epCount[e] == 0 && v.clients[1] == Creating(key, e, 1);
    actions := acts + [RegisterEndpoint(e, cfg)] + [Call(1, key, e)] + [Enter(1)];
    Then(lim, actions, v, CreateFails(1, error));
    end := Apply(v, lim, CreateFails(1, error));
    actions := actions + [CreateFails(1, error)];
  }
}
