/**
 The session pool as an object.  One method per section that the original runs
 under the pool's mutex (or as one atomic update); each is proved to do to the
 fields what the function of the same purpose in `PoolModel` says.
 */
module Pools {
  import opened Options
  import opened PoolModel

  class Pool {
    var sessions: map<string, Session>
    var creating: map<string, nat>
    var epCount: map<string, int>
    var configs: map<string, SpawnConfig>
    var globalCount: int
    var stopped: bool
    const limits: Limits

    ghost function State(): PoolState
      reads this
    {
      PoolState(sessions, creating, epCount, configs, globalCount, stopped)
    }

    /** Limits that are not positive fall back to 8 per endpoint and 32 in all. */
    constructor (maxPerEndpoint: int, maxGlobal: int)
      ensures State() == EMPTY_POOL
      ensures limits.maxPerEndpoint == (if maxPerEndpoint > 0 then maxPerEndpoint else 8)
      ensures limits.maxGlobal == (if maxGlobal > 0 then maxGlobal else 32)
    {
      limits := Limits(if maxGlobal <= 0 then 32 else maxGlobal, if maxPerEndpoint <= 0 then 8 else maxPerEndpoint);
      sessions, creating, epCount, configs := map[], map[], map[], map[];
      globalCount, stopped := 0, false;
    }

    method RegisterEndpoint(endpoint: string, cfg: SpawnConfig) returns (toClose: set<Session>)
      modifies this
      ensures State() == Register(old(State()), endpoint, cfg)
      ensures toClose == old(sessions).Values - sessions.Values
    {
      var exists_ := endpoint in configs;
      var before := if exists_ then configs[endpoint] else cfg;
      configs := configs[endpoint := cfg];
      toClose := {};
      if exists_ {
        var changed := ConfigChanged(before, cfg);
        if changed {
          toClose := CloseEndpointSessionsLocked(endpoint);
        }
      }
    }

    method UnregisterEndpoint(endpoint: string) returns (toClose: set<Session>)
      modifies this
      ensures State() == Unregister(old(State()), endpoint)
      ensures toClose == old(sessions).Values - sessions.Values
    {
      configs := configs - {endpoint};
      toClose := CloseEndpointSessionsLocked(endpoint);
    }

    /**
     Collects and unpools the endpoint's sessions.  The caller's goroutine later
     closes each collected session and then calls `ReleaseGlobal` for it.
     */
    method CloseEndpointSessionsLocked(endpoint: string) returns (toClose: set<Session>)
      modifies this
      ensures State() == CloseEndpoint(old(State()), endpoint)
      ensures toClose == old(sessions).Values - sessions.Values
    {
      toClose := {};
      var todo := sessions.Keys;
      while todo != {}
        modifies `sessions
        invariant todo <= old(sessions).Keys
        invariant forall k :: k in sessions <==>
          k in old(sessions) && (k in todo || old(sessions)[k].endpoint != endpoint)
        invariant forall k :: k in sessions ==> sessions[k] == old(sessions)[k]
        invariant forall s :: s in toClose <==>
          s.endpoint == endpoint && exists k :: k in old(sessions) && k !in todo && old(sessions)[k] == s
        decreases todo
      {
        var key :| key in todo;
        assert key in sessions;
        var s := sessions[key];
        if s.endpoint == endpoint {
          toClose := toClose + {s};
          sessions := sessions - {key};
        }
        todo := todo - {key};
      }
      epCount := epCount - {endpoint};
    }

    /** `GetOrCreate` up to the point where it unlocks; see `PoolModel.Admit`. */
    method Admit(key: string, endpoint: string, dead: set<nat>, flight: nat)
      returns (decision: Decision, dropped: Option<Session>)
      modifies this
      ensures Admission(State(), decision, dropped) ==
        PoolModel.Admit(old(State()), limits, key, endpoint, dead, flight)
    {
      dropped := None;
      if stopped {
        return Stopped, None;
      }
      if key in sessions {
        if sessions[key].id !in dead {
          return Hit(sessions[key]), None;
        }
        dropped := RemoveSessionLocked(key, endpoint);
      }
      if key in creating {
        return Wait(creating[key]), dropped;
      }
      if globalCount >= limits.maxGlobal {
        return GlobalLimit, dropped;
      }
      if CountOf(epCount, endpoint) >= limits.maxPerEndpoint {
        return EndpointLimit, dropped;
      }
      if endpoint !in configs {
        return NotRegistered, dropped;
      }
      creating := creating[key := flight];
      epCount := epCount[endpoint := CountOf(epCount, endpoint) + 1];
      globalCount := globalCount + 1;
      decision := Reserved(configs[endpoint]);
    }

    /** `GetOrCreate` after the unlocked creation; `None` is a failed creation. */
    method Finish(key: string, endpoint: string, created: Option<Session>)
      modifies this
      ensures State() == match created
                         case None => FinishFailed(old(State()), key, endpoint)
                         case Some(s) => FinishCreated(old(State()), key, s)
    {
      creating := creating - {key};
      match created
      case None =>
        epCount := epCount[endpoint := CountOf(epCount, endpoint) - 1];
        if epCount[endpoint] == 0 {
          epCount := epCount - {endpoint};
          assert epCount == old(epCount) - {endpoint};
        }
        globalCount := globalCount - 1;
      case Some(s) =>
        sessions := sessions[key := s];
    }

    method RemoveSessionLocked(key: string, endpoint: string) returns (dropped: Option<Session>)
      modifies this
      ensures State() == RemoveSession(old(State()), key, endpoint)
      ensures dropped == if key in old(sessions) then Some(old(sessions)[key]) else None
    {
      dropped := None;
      if key in sessions {
        dropped := Some(sessions[key]);
        sessions := sessions - {key};
        epCount := epCount[endpoint := CountOf(epCount, endpoint) - 1];
        if epCount[endpoint] <= 0 {
          epCount := epCount - {endpoint};
          assert epCount == old(epCount) - {endpoint};
        }
        globalCount := globalCount - 1;
      }
    }

    method Invalidate(key: string) returns (dropped: Option<Session>)
      modifies this
      ensures State() == PoolModel.Invalidate(old(State()), key)
      ensures dropped == if key in old(sessions) then Some(old(sessions)[key]) else None
    {
      if key !in sessions {
        return None;
      }
      dropped := RemoveSessionLocked(key, sessions[key].endpoint);
    }

    /** The reaper's first locked section: which keys look dead or idle. */
    method ReapScan(dead: set<nat>, idle: set<nat>) returns (toClose: set<string>)
      ensures toClose == set k | k in sessions && sessions[k].id in dead + idle
    {
      toClose := {};
      var todo := sessions.Keys;
      while todo != {}
        invariant todo <= sessions.Keys
        invariant toClose == set k | k in sessions && k !in todo && sessions[k].id in dead + idle
        decreases todo
      {
        var key :| key in todo;
        if sessions[key].id in dead || sessions[key].id in idle {
          toClose := toClose + {key};
        }
        todo := todo - {key};
      }
    }

    /** The reaper's second locked section, once per key: the key is looked up again. */
    method ReapOne(key: string) returns (dropped: Option<Session>)
      modifies this
      ensures State() == PoolModel.Invalidate(old(State()), key)
      ensures dropped == if key in old(sessions) then Some(old(sessions)[key]) else None
    {
      if key !in sessions {
        return None;
      }
      dropped := Some(sessions[key]);
      var endpoint := sessions[key].endpoint;
      sessions := sessions - {key};
      epCount := epCount[endpoint := CountOf(epCount, endpoint) - 1];
      if epCount[endpoint] <= 0 {
        epCount := epCount - {endpoint};
        assert epCount == old(epCount) - {endpoint};
      }
      globalCount := globalCount - 1;
    }

    /** The unlocked decrement that follows closing a session. */
    method ReleaseGlobal()
      modifies `globalCount
      ensures State() == old(State()).(globalCount := old(globalCount) - 1)
    {
      globalCount := globalCount - 1;
    }

    /** `CloseAll`, first atomic store. */
    method Stop()
      modifies `stopped
      ensures State() == old(State()).(stopped := true)
    {
      stopped := true;
    }

    /** `CloseAll`, one turn of its loop up to the unlock. */
    method TakeForClose(key: string) returns (taken: Option<Session>)
      modifies `sessions
      ensures State() == old(State()).(sessions := old(sessions) - {key})
      ensures taken == if key in old(sessions) then Some(old(sessions)[key]) else None
    {
      taken := None;
      if key in sessions {
        taken := Some(sessions[key]);
        sessions := sessions - {key};
      }
    }

    /** `CloseAll`, last locked section. */
    method ClearCounts()
      modifies `epCount
      ensures State() == old(State()).(epCount := map[])
    {
      epCount := map[];
    }
  }
}
