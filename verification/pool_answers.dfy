/**
 What a caller of `GetOrCreate` is told, over the state it finds: for each answer
 the exact condition, in the order in which the conditions are looked at.
 */
module PoolAnswers {
  import opened Options
  import opened PoolModel
  import opened PoolSystem

  /** The key has a pooled session that is alive. */
  ghost predicate HasLive(p: PoolState, dead: set<nat>, key: string) {
    key in p.sessions && p.sessions[key].id !in dead
  }

  /** The key has a pooled session that is dead; the call drops it first. */
  ghost predicate HasDead(p: PoolState, dead: set<nat>, key: string) {
    key in p.sessions && p.sessions[key].id in dead
  }

  /** The process counter once a dead session is dropped. */
  ghost function GlobalThen(p: PoolState, dead: set<nat>, key: string): int {
    p.globalCount - (if HasDead(p, dead, key) then 1 else 0)
  }

  /** The endpoint's counter once a dead session is dropped; it is not let fall below zero. */
  ghost function CountThen(p: PoolState, dead: set<nat>, key: string, endpoint: string): int {
    var count := if endpoint in p.epCount then p.epCount[endpoint] else 0;
    if !HasDead(p, dead, key) then count
    else if count >= 1 then count - 1
    else 0
  }

  /** Nothing is there to return or to wait for. */
  ghost predicate MustCreate(p: PoolState, dead: set<nat>, key: string) {
    !p.stopped && !HasLive(p, dead, key) && key !in p.creating
  }

  /** The first locked section decides, exactly: each decision if and only if its condition holds. */
  lemma DecisionExactly(p: PoolState, lim: Limits, key: string, endpoint: string, dead: set<nat>, flight: nat)
    ensures var d := Admit(p, lim, key, endpoint, dead, flight).decision;
      var global, count := GlobalThen(p, dead, key), CountThen(p, dead, key, endpoint);
      var must := MustCreate(p, dead, key);
      && (d.Stopped? <==> p.stopped)
      && (d.Hit? <==> !p.stopped && HasLive(p, dead, key))
      && (d.Hit? ==> d.session == p.sessions[key])
      && (d.Wait? <==> !p.stopped && !HasLive(p, dead, key) && key in p.creating)
      && (d.Wait? ==> d.flight == p.creating[key])
      && (d.GlobalLimit? <==> must && global >= lim.maxGlobal)
      && (d.EndpointLimit? <==> must && global < lim.maxGlobal && count >= lim.maxPerEndpoint)
      && (d.NotRegistered? <==>
            must && global < lim.maxGlobal && count < lim.maxPerEndpoint && endpoint !in p.configs)
      && (d.Reserved? <==>
            must && global < lim.maxGlobal && count < lim.maxPerEndpoint && endpoint in p.configs)
      && (d.Reserved? ==> d.cfg == p.configs[endpoint])
  {
    if HasDead(p, dead, key) {
      DropIs(p, key, endpoint);
    }
  }

  /** What dropping a session leaves of the counters. */
  lemma DropIs(p: PoolState, key: string, endpoint: string)
    requires key in p.sessions
    ensures var q := RemoveSession(p, key, endpoint);
      && q.globalCount == p.globalCount - 1 && q.creating == p.creating && q.configs == p.configs
      && CountOf(q.epCount, endpoint) ==
           if CountOf(p.epCount, endpoint) >= 1 then CountOf(p.epCount, endpoint) - 1 else 0
  {
  }

  /** What the first locked section does to the pool, exactly. */
  lemma EffectExactly(p: PoolState, lim: Limits, key: string, endpoint: string, dead: set<nat>, flight: nat)
    ensures var r := Admit(p, lim, key, endpoint, dead, flight);
      var drops := !p.stopped && HasDead(p, dead, key);
      && r.dropped == (if drops then Some(p.sessions[key]) else None)
      && r.pool.sessions == (if drops then p.sessions - {key} else p.sessions)
      && r.pool.creating == (if r.decision.Reserved? then p.creating[key := flight] else p.creating)
      && r.pool.globalCount ==
           (if p.stopped then p.globalCount else GlobalThen(p, dead, key)) + (if r.decision.Reserved? then 1 else 0)
      && CountOf(r.pool.epCount, endpoint) ==
           (if p.stopped then CountOf(p.epCount, endpoint) else CountThen(p, dead, key, endpoint))
           + (if r.decision.Reserved? then 1 else 0)
      && (forall e :: e != endpoint ==> CountOf(r.pool.epCount, e) == CountOf(p.epCount, e))
      && r.pool.configs == p.configs && r.pool.stopped == p.stopped
  {
  }

  ghost predicate Refuses(me: Client, reason: Decision) {
    me.Returned? && me.outcome == Refused(reason) && me.via == None
  }

  /**
   When a caller is refused, with which reason, when it gets a session, when it waits
   and when it creates, exactly, in every step of every run in which it enters.
   */
  lemma AnswerExactly(lim: Limits, states: seq<Sys>, actions: seq<Action>, i: nat)
    requires IsRun(lim, states, actions) && i < |actions| && actions[i].Enter?
    ensures var s, c := states[i], actions[i].client;
      c in s.clients && s.clients[c].Entering? && c in states[i + 1].clients
    ensures var s, c := states[i], actions[i].client;
      var key, endpoint, me := s.clients[c].key, s.clients[c].endpoint, states[i + 1].clients[c];
      var p, dead := s.pool, s.dead;
      var global, count := GlobalThen(p, dead, key), CountThen(p, dead, key, endpoint);
      var must := MustCreate(p, dead, key);
      && me.key == key
      && (Refuses(me, Stopped) <==> p.stopped)
      && (me.Returned? && me.outcome.Got? <==> !p.stopped && HasLive(p, dead, key))
      && (me.Returned? && me.outcome.Got? ==> me.outcome.session == p.sessions[key] && me.via == None)
      && (me.Waiting? <==> !p.stopped && !HasLive(p, dead, key) && key in p.creating)
      && (me.Waiting? ==> me.flight == p.creating[key])
      && (Refuses(me, GlobalLimit) <==> must && global >= lim.maxGlobal)
      && (Refuses(me, EndpointLimit) <==> must && global < lim.maxGlobal && count >= lim.maxPerEndpoint)
      && (Refuses(me, NotRegistered) <==>
            must && global < lim.maxGlobal && count < lim.maxPerEndpoint && endpoint !in p.configs)
      && (me.Creating? <==>
            must && global < lim.maxGlobal && count < lim.maxPerEndpoint && endpoint in p.configs)
      && (me.Creating? ==> me.flight == |s.flights|)
  {
    var s, c := states[i], actions[i].client;
    assert Enabled(s, actions[i]) && states[i + 1] == ApplyEnter(s, lim, c);
    DecisionExactly(s.pool, lim, s.clients[c].key, s.clients[c].endpoint, s.dead, |s.flights|);
  }

  // -------------------------------------------------------- settings and removals

  /** Registering an endpoint again with another command, directory, arguments or environment. */
  ghost predicate Changes(p: PoolState, endpoint: string, cfg: SpawnConfig) {
    endpoint in p.configs
    && var before := p.configs[endpoint];
       || before.command != cfg.command || before.workDir != cfg.workDir
       || before.args != cfg.args || before.env != cfg.env
  }

  /** Of p's sessions q has exactly those that do not belong to the endpoint. */
  ghost predicate LosesEndpoint(p: PoolState, q: PoolState, endpoint: string) {
    && (forall k :: k in q.sessions <==> k in p.sessions && p.sessions[k].endpoint != endpoint)
    && (forall k :: k in q.sessions ==> q.sessions[k] == p.sessions[k])
    && endpoint !in q.epCount
    && (forall e :: e != endpoint ==> CountOf(q.epCount, e) == CountOf(p.epCount, e))
  }

  /**
   A registration replaces the settings, and tears the endpoint down if and only if
   it changes them; creations in flight and the process counter are left alone.
   */
  lemma RegisterExactly(p: PoolState, endpoint: string, cfg: SpawnConfig)
    ensures var q := Register(p, endpoint, cfg);
      && q.configs == p.configs[endpoint := cfg]
      && q.creating == p.creating && q.globalCount == p.globalCount && q.stopped == p.stopped
      && if Changes(p, endpoint, cfg) then LosesEndpoint(p, q, endpoint)
         else q.sessions == p.sessions && q.epCount == p.epCount
  {
  }

  /** A removal forgets the settings and tears the endpoint down. */
  lemma UnregisterExactly(p: PoolState, endpoint: string)
    ensures var q := Unregister(p, endpoint);
      && q.configs == p.configs - {endpoint} && LosesEndpoint(p, q, endpoint)
      && q.creating == p.creating && q.globalCount == p.globalCount && q.stopped == p.stopped
  {
  }

  /** Invalidating a key, or reaping it, drops its session and gives both its slots back; nothing else changes. */
  lemma InvalidateExactly(p: PoolState, key: string)
    ensures var q := Invalidate(p, key);
      && q.sessions == p.sessions - {key}
      && q.creating == p.creating && q.configs == p.configs && q.stopped == p.stopped
      && q.globalCount == (if key in p.sessions then p.globalCount - 1 else p.globalCount)
      && forall e :: CountOf(q.epCount, e) ==
           if key in p.sessions && p.sessions[key].endpoint == e
           then (if CountOf(p.epCount, e) >= 1 then CountOf(p.epCount, e) - 1 else 0)
           else CountOf(p.epCount, e)
  {
    if key !in p.sessions {
      assert p.sessions - {key} == p.sessions;
    }
  }

  /** The end of a creation: a failure gives both slots back, a success pools the session. */
  lemma FinishExactly(p: PoolState, key: string, endpoint: string, session: Session)
    ensures var q := FinishFailed(p, key, endpoint);
      && q.creating == p.creating - {key} && q.sessions == p.sessions && q.globalCount == p.globalCount - 1
      && CountOf(q.epCount, endpoint) == CountOf(p.epCount, endpoint) - 1
      && (forall e :: e != endpoint ==> CountOf(q.epCount, e) == CountOf(p.epCount, e))
    ensures var q := FinishCreated(p, key, session);
      && q.creating == p.creating - {key} && q.sessions == p.sessions[key := session]
      && q.globalCount == p.globalCount && q.epCount == p.epCount
  {
  }
}
