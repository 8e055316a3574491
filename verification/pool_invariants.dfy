/**
 What every action of the session pool keeps, for every interleaving.
 */
module PoolInvariants {
  import opened Options
  import opened PoolModel
  import opened PoolSystem

  // ---------------------------------------------------------------- structure

  /** The pooled map holds exactly the sessions of the pooled flights. */
  ghost predicate SessionsMatch(s: Sys) {
    && (forall k :: k in s.pool.sessions ==>
          var id := s.pool.sessions[k].id;
          id < |s.flights| && s.flights[id].phase.Pooled? && s.flights[id].key == k
          && s.pool.sessions[k] == SessionOf(s, id))
    && (forall i: nat :: i < |s.flights| && s.flights[i].phase.Pooled? ==>
          s.flights[i].key in s.pool.sessions && s.pool.sessions[s.flights[i].key].id == i)
  }

  /** The creating map holds exactly the flights in flight. */
  ghost predicate CreatingMatch(s: Sys) {
    && (forall k :: k in s.pool.creating ==>
          var id := s.pool.creating[k];
          id < |s.flights| && s.flights[id].phase.InFlight? && s.flights[id].key == k)
    && (forall i: nat :: i < |s.flights| && s.flights[i].phase.InFlight? ==>
          s.flights[i].key in s.pool.creating && s.pool.creating[s.flights[i].key] == i)
  }

  /** No key is pooled and being created at once. */
  ghost predicate Singleflight(s: Sys) {
    s.pool.sessions.Keys !! s.pool.creating.Keys
  }

  /** Each flight in flight has exactly one client creating it. */
  ghost predicate CreatorsMatch(s: Sys) {
    && (forall c :: c in s.clients && s.clients[c].Creating? ==>
          var me := s.clients[c];
          me.flight < |s.flights| && s.flights[me.flight].phase.InFlight?
          && s.flights[me.flight].creator == c && s.flights[me.flight].key == me.key
          && s.flights[me.flight].endpoint == me.endpoint)
    && (forall i: nat :: i < |s.flights| && s.flights[i].phase.InFlight? ==>
          var c := s.flights[i].creator;
          c in s.clients && s.clients[c] == Creating(s.flights[i].key, s.flights[i].endpoint, i))
  }

  ghost predicate WaitersMatch(s: Sys) {
    forall c :: c in s.clients && s.clients[c].Waiting? ==>
      s.clients[c].flight < |s.flights| && s.flights[s.clients[c].flight].key == s.clients[c].key
  }

  ghost predicate Struct(s: Sys) {
    SessionsMatch(s) && CreatingMatch(s) && Singleflight(s) && CreatorsMatch(s) && WaitersMatch(s)
  }

  // Struct reads only these four parts of a state.
  ghost predicate SameParts(s: Sys, t: Sys) {
    && s.pool.sessions == t.pool.sessions && s.pool.creating == t.pool.creating
    && s.flights == t.flights && s.clients == t.clients
  }

  /** A session that leaves the pool goes to a phase of its own. */
  ghost predicate Unpools(s: Sys, t: Sys, key: string, phase: Phase) {
    && !phase.InFlight? && !phase.Pooled?
    && t.pool.sessions == s.pool.sessions - {key}
    && t.pool.creating == s.pool.creating && t.clients == s.clients
    && t.flights == if key in s.pool.sessions then SetPhase(s.flights, s.pool.sessions[key].id, phase) else s.flights
  }

  lemma StructUnpools(s: Sys, t: Sys, key: string, phase: Phase)
    requires Struct(s) && Unpools(s, t, key, phase)
    ensures Struct(t)
  {
  }

  /** A flight that is neither in flight nor pooled changes phase again. */
  lemma StructSettles(s: Sys, t: Sys, id: nat, phase: Phase)
    requires Struct(s) && SameParts(s, t.(flights := s.flights))
    requires id < |s.flights| && !s.flights[id].phase.InFlight? && !s.flights[id].phase.Pooled?
    requires !phase.InFlight? && !phase.Pooled?
    requires t.flights == SetPhase(s.flights, id, phase)
    ensures Struct(t)
  {
  }

  /** Only one client moves, and it neither starts nor ends a creation. */
  lemma StructClient(s: Sys, t: Sys, c: nat, client: Client)
    requires Struct(s) && SameParts(s, t.(clients := s.clients)) && t.clients == s.clients[c := client]
    requires c in s.clients ==> !s.clients[c].Creating?
    requires !client.Creating?
    requires client.Waiting? ==> client.flight < |s.flights| && s.flights[client.flight].key == client.key
    ensures Struct(t)
  {
  }

  lemma TeardownSessions(s: Sys, t: Sys, endpoint: string)
    requires SessionsMatch(s)
    requires t.pool.sessions == CloseEndpoint(s.pool, endpoint).sessions
    requires t.flights == Teardown(s.flights, endpoint)
    ensures SessionsMatch(t)
  {
    forall i: nat | i < |s.flights|
      ensures t.flights[i] == TeardownOne(s.flights[i], endpoint)
    {
    }
    forall k | k in t.pool.sessions
      ensures t.flights[t.pool.sessions[k].id] == s.flights[s.pool.sessions[k].id]
    {
    }
  }

  lemma StructTeardown(s: Sys, t: Sys, endpoint: string)
    requires Struct(s) && t.clients == s.clients && t.pool.creating == s.pool.creating
    requires t.pool.sessions == CloseEndpoint(s.pool, endpoint).sessions
    requires t.flights == Teardown(s.flights, endpoint)
    ensures Struct(t)
  {
    forall i: nat | i < |s.flights|
      ensures t.flights[i].key == s.flights[i].key && t.flights[i].creator == s.flights[i].creator
      ensures t.flights[i].endpoint == s.flights[i].endpoint && t.flights[i].cfg == s.flights[i].cfg
      ensures t.flights[i].phase.InFlight? <==> s.flights[i].phase.InFlight?
      ensures t.flights[i].phase.Pooled? <==> s.flights[i].phase.Pooled? && s.flights[i].endpoint != endpoint
    {
    }
    TeardownSessions(s, t, endpoint);
    assert CreatingMatch(t);
    assert CreatorsMatch(t) && WaitersMatch(t) && Singleflight(t);
  }

  lemma StructReserve(s: Sys, t: Sys, c: nat, key: string, endpoint: string, cfg: SpawnConfig)
    requires Struct(s) && t.pool.sessions == s.pool.sessions
    requires key !in s.pool.sessions && key !in s.pool.creating
    requires c in s.clients && !s.clients[c].Creating?
    requires t.pool.creating == s.pool.creating[key := |s.flights|]
    requires t.clients == s.clients[c := Creating(key, endpoint, |s.flights|)]
    requires t.flights == s.flights + [Flight(key, endpoint, cfg, c, InFlight, false)]
    ensures Struct(t)
  {
    assert forall i: nat :: i < |s.flights| ==> t.flights[i] == s.flights[i];
    ReserveMaps(s, t, c, key, endpoint, cfg);
    assert CreatorsMatch(t) && WaitersMatch(t);
  }

  lemma ReserveMaps(s: Sys, t: Sys, c: nat, key: string, endpoint: string, cfg: SpawnConfig)
    requires Struct(s) && t.pool.sessions == s.pool.sessions
    requires key !in s.pool.sessions && key !in s.pool.creating
    requires t.pool.creating == s.pool.creating[key := |s.flights|]
    requires t.flights == s.flights + [Flight(key, endpoint, cfg, c, InFlight, false)]
    ensures SessionsMatch(t) && CreatingMatch(t) && Singleflight(t)
  {
    assert forall i: nat :: i < |s.flights| ==> t.flights[i] == s.flights[i];
  }

  lemma StructFinish(s: Sys, t: Sys, c: nat, client: Client, phase: Phase)
    requires Struct(s) && c in s.clients && s.clients[c].Creating?
    requires client.Returned? && t.clients == s.clients[c := client]
    requires t.pool.creating == s.pool.creating - {s.clients[c].key}
    requires !phase.InFlight?
    requires t.flights == SetPhase(s.flights, s.clients[c].flight, phase)
    requires t.pool.sessions ==
      if phase.Pooled? then s.pool.sessions[s.clients[c].key := SessionOf(s, s.clients[c].flight)] else s.pool.sessions
    ensures Struct(t)
  {
    FinishMaps(s, t, c, phase);
    var id, key := s.clients[c].flight, s.clients[c].key;
    assert s.pool.creating[key] == id;
    forall d | d in t.clients && t.clients[d].Creating?
      ensures t.clients[d].flight != id
    {
    }
  }

  lemma FinishMaps(s: Sys, t: Sys, c: nat, phase: Phase)
    requires Struct(s) && c in s.clients && s.clients[c].Creating?
    requires t.pool.creating == s.pool.creating - {s.clients[c].key}
    requires !phase.InFlight?
    requires t.flights == SetPhase(s.flights, s.clients[c].flight, phase)
    requires t.pool.sessions ==
      if phase.Pooled? then s.pool.sessions[s.clients[c].key := SessionOf(s, s.clients[c].flight)] else s.pool.sessions
    ensures SessionsMatch(t) && CreatingMatch(t) && Singleflight(t)
  {
    assert s.pool.creating[s.clients[c].key] == s.clients[c].flight;
  }

  /** The state after the part of `Enter` that discards a dead session. */
  ghost function Purged(s: Sys, key: string, endpoint: string): Sys {
    if key in s.pool.sessions && s.pool.sessions[key].id in s.dead
    then s.(pool := RemoveSession(s.pool, key, endpoint), flights := Discard(s.flights, PooledAt(s.pool, key)))
    else s
  }

  lemma StructPurged(s: Sys, key: string, endpoint: string)
    requires Struct(s)
    ensures Struct(Purged(s, key, endpoint))
  {
    if key in s.pool.sessions && s.pool.sessions[key].id in s.dead {
      StructUnpools(s, Purged(s, key, endpoint), key, Closing);
    }
  }

  /** `Enter` on a running pool: discard a dead session, then decide. */
  lemma EnterAfterPurge(s: Sys, lim: Limits, c: nat)
    requires Struct(s) && Enabled(s, Enter(c)) && !s.pool.stopped
    ensures
      var key, endpoint := s.clients[c].key, s.clients[c].endpoint;
      var q := Purged(s, key, endpoint);
      var r := Admit(s.pool, lim, key, endpoint, s.dead, |s.flights|);
      && q.flights == Discard(s.flights, r.dropped)
      && (match r.decision
          case Reserved(cfg) =>
            && key !in q.pool.sessions && key !in q.pool.creating
            && endpoint in q.pool.configs && cfg == q.pool.configs[endpoint]
            && q.pool.globalCount < lim.maxGlobal && CountOf(q.pool.epCount, endpoint) < lim.maxPerEndpoint
            && r.pool == q.pool.(creating := q.pool.creating[key := |s.flights|],
                                 epCount := q.pool.epCount[endpoint := CountOf(q.pool.epCount, endpoint) + 1],
                                 globalCount := q.pool.globalCount + 1)
          case Wait(f) => r.pool == q.pool && key in q.pool.creating && f == q.pool.creating[key]
          case Hit(session) => r.pool == q.pool && q == s && key in s.pool.sessions && session == s.pool.sessions[key]
          case _ => r.pool == q.pool)
  {
    var key, endpoint := s.clients[c].key, s.clients[c].endpoint;
    if key in s.pool.sessions && s.pool.sessions[key].id !in s.dead {
    } else {
      PurgedIs(s, key, endpoint);
    }
  }

  /** Discarding is what `Admit` does unless there is a live session. */
  lemma PurgedIs(s: Sys, key: string, endpoint: string)
    requires key in s.pool.sessions ==> s.pool.sessions[key].id in s.dead
    ensures Purged(s, key, endpoint).pool == RemoveSession(s.pool, key, endpoint)
    ensures Purged(s, key, endpoint).flights == Discard(s.flights, PooledAt(s.pool, key))
    ensures key !in RemoveSession(s.pool, key, endpoint).sessions
  {
  }

  lemma StructEnter(s: Sys, lim: Limits, c: nat)
    requires Struct(s) && Enabled(s, Enter(c))
    ensures Struct(ApplyEnter(s, lim, c))
  {
    var key, endpoint := s.clients[c].key, s.clients[c].endpoint;
    var t := ApplyEnter(s, lim, c);
    if s.pool.stopped {
      StructClient(s, t, c, t.clients[c]);
    } else {
      var q := Purged(s, key, endpoint);
      StructPurged(s, key, endpoint);
      EnterAfterPurge(s, lim, c);
      var r := Admit(s.pool, lim, key, endpoint, s.dead, |s.flights|);
      if r.decision.Reserved? {
        StructReserve(q, t, c, key, endpoint, r.decision.cfg);
      } else {
        StructClient(q, t, c, t.clients[c]);
      }
    }
  }

  /** The actions by which sessions leave, and those that change no part of the structure. */
  lemma StructLeaves(s: Sys, lim: Limits, a: Action)
    requires Struct(s) && CloserMatch(s) && Enabled(s, a)
    requires !a.Call? && !a.Enter? && !a.CreateFails? && !a.CreateSucceeds? && !a.Wake?
    requires !a.RegisterEndpoint? && !a.UnregisterEndpoint?
    ensures Struct(Apply(s, lim, a))
  {
    var t := Apply(s, lim, a);
    match a
    case InvalidateKey(k) => StructUnpools(s, t, k, Closing);
    case ReapOne(k) => StructUnpools(s, t, k, Closing);
    case CloseOwed(id) => StructSettles(s, t, id, Closed);
    case CloseReturns(id) => StructSettles(s, t, id, Closed);
    case StopTake(k) => StructUnpools(s, t, k, Taken);
    case StopDrop => StructSettles(s, t, s.closer.current.value, Closed);
    case ReapScan(_) | Die(_) | StopFlag | StopList | StopFinish => assert SameParts(s, t);
    case _ =>
  }

  lemma StructStep(s: Sys, lim: Limits, a: Action)
    requires Struct(s) && CloserMatch(s) && Enabled(s, a)
    ensures Struct(Apply(s, lim, a))
  {
    var t := Apply(s, lim, a);
    match a
    case Call(c, _, _) => StructClient(s, t, c, t.clients[c]);
    case Enter(c) => StructEnter(s, lim, c);
    case CreateFails(c, error) => StructFinish(s, t, c, t.clients[c], Failed(error));
    case CreateSucceeds(c) => StructFinish(s, t, c, t.clients[c], Pooled);
    case Wake(c) => StructClient(s, t, c, t.clients[c]);
    case RegisterEndpoint(e, cfg) => if NeedsTeardown(s.pool, e, cfg) { StructTeardown(s, t, e); }
    case UnregisterEndpoint(e) => StructTeardown(s, t, e);
    case _ => StructLeaves(s, lim, a);
  }

  // ------------------------------------------------------------------ CloseAll

  /**
   `CloseAll` holds at most one session at a time, and whatever is still pooled
   once it has listed the keys is either on the list or was in flight then.
   */
  ghost predicate CloserMatch(s: Sys) {
    && (s.pool.stopped <==> !s.closer.Running?)
    && (forall i: nat :: i < |s.flights| ==>
          (s.flights[i].phase.Taken? <==> s.closer.Walking? && s.closer.current == Some(i)))
    && (s.closer.Walking? && s.closer.current.Some? ==> s.closer.current.value < |s.flights|)
    && (s.closer.Walking? || s.closer.Finished? ==>
          forall i: nat :: i < |s.flights| ==>
            (s.flights[i].phase.InFlight? ==> i in s.late)
            && (s.flights[i].phase.Pooled? ==>
                  i in s.late || (s.closer.Walking? && s.flights[i].key in s.closer.todo)))
  }

  /** A step of the running system that `CloseAll` has no part in. */
  ghost predicate LeavesCloser(s: Sys, t: Sys) {
    && t.closer == s.closer && t.late == s.late && t.pool.stopped == s.pool.stopped
    && |t.flights| == |s.flights|
    && forall i: nat :: i < |s.flights| ==>
         && t.flights[i].key == s.flights[i].key
         && (t.flights[i].phase.Taken? <==> s.flights[i].phase.Taken?)
         && (t.flights[i].phase.InFlight? ==> s.flights[i].phase.InFlight?)
         && (t.flights[i].phase.Pooled? ==> s.flights[i].phase.Pooled? || s.flights[i].phase.InFlight?)
  }

  lemma CloserEnter(s: Sys, lim: Limits, c: nat)
    requires Struct(s) && CloserMatch(s) && Enabled(s, Enter(c))
    ensures CloserMatch(ApplyEnter(s, lim, c))
  {
    if !s.pool.stopped {
      EnterAfterPurge(s, lim, c);
      var q := Purged(s, s.clients[c].key, s.clients[c].endpoint);
      assert LeavesCloser(s, q);
      var t := ApplyEnter(s, lim, c);
      assert forall i: nat :: i < |q.flights| ==> t.flights[i] == q.flights[i];
    }
  }

  lemma CloserPhase(s: Sys, t: Sys, id: nat, phase: Phase)
    requires CloserMatch(s) && id < |s.flights| && t.flights == SetPhase(s.flights, id, phase)
    requires t.closer == s.closer && t.late == s.late && t.pool.stopped == s.pool.stopped
    requires !s.flights[id].phase.Taken? && !phase.Taken? && !phase.InFlight?
    requires phase.Pooled? ==> s.flights[id].phase.InFlight?
    ensures CloserMatch(t)
  {
    assert LeavesCloser(s, t);
  }

  lemma CloserTeardown(s: Sys, t: Sys, endpoint: string)
    requires CloserMatch(s) && t.flights == Teardown(s.flights, endpoint)
    requires t.closer == s.closer && t.late == s.late && t.pool.stopped == s.pool.stopped
    ensures CloserMatch(t)
  {
    forall i: nat | i < |s.flights|
      ensures t.flights[i] == TeardownOne(s.flights[i], endpoint)
    {
    }
    assert LeavesCloser(s, t);
  }

  lemma CloserDiscard(s: Sys, t: Sys, key: string)
    requires Struct(s) && CloserMatch(s) && t.flights == Discard(s.flights, PooledAt(s.pool, key))
    requires t.closer == s.closer && t.late == s.late && t.pool.stopped == s.pool.stopped
    ensures CloserMatch(t)
  {
    if key in s.pool.sessions {
      CloserPhase(s, t, s.pool.sessions[key].id, Closing);
    }
  }

  lemma CloserOwnStep(s: Sys, lim: Limits, a: Action)
    requires Struct(s) && CloserMatch(s) && Enabled(s, a)
    requires a.StopFlag? || a.StopList? || a.StopTake? || a.StopDrop? || a.StopFinish?
    ensures CloserMatch(Apply(s, lim, a))
  {
  }

  lemma CloserStep(s: Sys, lim: Limits, a: Action)
    requires Struct(s) && CloserMatch(s) && Enabled(s, a)
    ensures CloserMatch(Apply(s, lim, a))
  {
    var t := Apply(s, lim, a);
    match a
    case Enter(c) => CloserEnter(s, lim, c);
    case CreateFails(c, error) => CloserPhase(s, t, s.clients[c].flight, Failed(error));
    case CreateSucceeds(c) => CloserPhase(s, t, s.clients[c].flight, Pooled);
    case RegisterEndpoint(e, cfg) => if NeedsTeardown(s.pool, e, cfg) { CloserTeardown(s, t, e); }
    case UnregisterEndpoint(e) => CloserTeardown(s, t, e);
    case InvalidateKey(k) => CloserDiscard(s, t, k);
    case ReapOne(k) => CloserDiscard(s, t, k);
    case CloseOwed(id) => CloserPhase(s, t, id, Closed);
    case CloseReturns(id) => CloserPhase(s, t, id, Closed);
    case Call(_, _, _) =>
    case Wake(_) =>
    case ReapScan(_) =>
    case Die(_) =>
    case _ => CloserOwnStep(s, lim, a);
  }

  // ------------------------------------------------------------------ counting

  ghost function Ids(flights: seq<Flight>, p: Flight -> bool): set<nat> {
    set i: nat | i < |flights| && p(flights[i])
  }

  lemma IdsUpdate(flights: seq<Flight>, id: nat, f: Flight, p: Flight -> bool)
    requires id < |flights|
    ensures |Ids(flights[id := f], p)| ==
      |Ids(flights, p)| + (if p(f) then 1 else 0) - (if p(flights[id]) then 1 else 0)
  {
    var rest := Ids(flights, p) - {id};
    assert Ids(flights[id := f], p) == if p(f) then rest + {id} else rest;
    assert Ids(flights, p) == if p(flights[id]) then rest + {id} else rest;
  }

  lemma IdsAppend(flights: seq<Flight>, f: Flight, p: Flight -> bool)
    ensures |Ids(flights + [f], p)| == |Ids(flights, p)| + (if p(f) then 1 else 0)
  {
    assert Ids(flights + [f], p) == if p(f) then Ids(flights, p) + {|flights|} else Ids(flights, p);
  }

  /** Phases that hold one of the global process slots. */
  predicate Charged(f: Flight) {
    f.phase.InFlight? || f.phase.Pooled? || f.phase.Owed? || f.phase.Taken?
  }

  ghost predicate GlobalMatch(s: Sys, lim: Limits) {
    s.pool.globalCount == |Ids(s.flights, Charged)| <= lim.maxGlobal
  }

  /** One flight changes phase and the counter moves with it. */
  lemma GlobalPhase(s: Sys, t: Sys, lim: Limits, id: nat, phase: Phase)
    requires GlobalMatch(s, lim) && id < |s.flights| && t.flights == SetPhase(s.flights, id, phase)
    requires Charged(s.flights[id])
    requires t.pool.globalCount == s.pool.globalCount - (if Charged(t.flights[id]) then 0 else 1)
    ensures GlobalMatch(t, lim)
  {
    IdsUpdate(s.flights, id, t.flights[id], Charged);
  }

  lemma GlobalTeardown(s: Sys, t: Sys, lim: Limits, endpoint: string)
    requires GlobalMatch(s, lim) && t.flights == Teardown(s.flights, endpoint)
    requires t.pool.globalCount == s.pool.globalCount
    ensures GlobalMatch(t, lim)
  {
    assert Ids(t.flights, Charged) == Ids(s.flights, Charged);
  }

  lemma GlobalUnpools(s: Sys, t: Sys, lim: Limits, key: string)
    requires Struct(s) && GlobalMatch(s, lim)
    requires t.flights == Discard(s.flights, PooledAt(s.pool, key))
    requires t.pool.globalCount == s.pool.globalCount - (if key in s.pool.sessions then 1 else 0)
    ensures GlobalMatch(t, lim)
  {
    if key in s.pool.sessions {
      GlobalPhase(s, t, lim, s.pool.sessions[key].id, Closing);
    }
  }

  lemma GlobalEnter(s: Sys, lim: Limits, c: nat)
    requires Struct(s) && GlobalMatch(s, lim) && Enabled(s, Enter(c))
    ensures GlobalMatch(ApplyEnter(s, lim, c), lim)
  {
    if !s.pool.stopped {
      var key, endpoint := s.clients[c].key, s.clients[c].endpoint;
      EnterAfterPurge(s, lim, c);
      var q := Purged(s, key, endpoint);
      if q != s {
        GlobalUnpools(s, q, lim, key);
      }
      var t := ApplyEnter(s, lim, c);
      if Admit(s.pool, lim, key, endpoint, s.dead, |s.flights|).decision.Reserved? {
        IdsAppend(q.flights, t.flights[|q.flights|], Charged);
      }
    }
  }

  lemma GlobalLeaves(s: Sys, lim: Limits, a: Action)
    requires Struct(s) && CloserMatch(s) && GlobalMatch(s, lim) && Enabled(s, a)
    requires !a.Call? && !a.Enter? && !a.CreateFails? && !a.CreateSucceeds? && !a.Wake?
    requires !a.RegisterEndpoint? && !a.UnregisterEndpoint?
    ensures GlobalMatch(Apply(s, lim, a), lim)
  {
    var t := Apply(s, lim, a);
    match a
    case InvalidateKey(k) => GlobalUnpools(s, t, lim, k);
    case ReapOne(k) => GlobalUnpools(s, t, lim, k);
    case CloseOwed(id) => GlobalPhase(s, t, lim, id, Closed);
    case CloseReturns(id) => IdsUpdate(s.flights, id, t.flights[id], Charged);
    case StopTake(k) => if k in s.pool.sessions { GlobalPhase(s, t, lim, s.pool.sessions[k].id, Taken); }
    case StopDrop => GlobalPhase(s, t, lim, s.closer.current.value, Closed);
    case _ =>
  }

  lemma GlobalStep(s: Sys, lim: Limits, a: Action)
    requires Struct(s) && CloserMatch(s) && GlobalMatch(s, lim) && Enabled(s, a)
    ensures GlobalMatch(Apply(s, lim, a), lim)
  {
    var t := Apply(s, lim, a);
    match a
    case Call(_, _, _) =>
    case Enter(c) => GlobalEnter(s, lim, c);
    case CreateFails(c, error) => GlobalPhase(s, t, lim, s.clients[c].flight, Failed(error));
    case CreateSucceeds(c) => GlobalPhase(s, t, lim, s.clients[c].flight, Pooled);
    case Wake(_) =>
    case RegisterEndpoint(e, cfg) => if NeedsTeardown(s.pool, e, cfg) { GlobalTeardown(s, t, lim, e); }
    case UnregisterEndpoint(e) => GlobalTeardown(s, t, lim, e);
    case _ => GlobalLeaves(s, lim, a);
  }

  // ---------------------------------------------------------------- what callers get

  /** Nobody is handed anything but the result of the flight they waited on. */
  ghost predicate OutcomeOk(s: Sys, me: Client) {
    me.Returned? && me.via.Some? ==>
      var f := me.via.value;
      && f < |s.flights| && s.flights[f].key == me.key
      && (match s.flights[f].phase
          case InFlight => false
          case Failed(error) => me.outcome == CreateError(error)
          case _ => me.outcome == Got(SessionOf(s, f)))
  }

  ghost predicate OutcomesMatch(s: Sys) {
    forall c :: c in s.clients ==> OutcomeOk(s, s.clients[c])
  }

  /** Past flights keep what identifies them; a failure is final, so is a success. */
  ghost predicate Extends(before: seq<Flight>, after: seq<Flight>) {
    |before| <= |after| && forall i: nat :: i < |before| ==> Continues(before[i], after[i])
  }

  ghost predicate Continues(f: Flight, g: Flight) {
    && g.key == f.key && g.endpoint == f.endpoint && g.cfg == f.cfg && g.creator == f.creator
    && (f.tainted ==> g.tainted)
    && (f.phase.Failed? ==> g.phase == f.phase)
    && (!f.phase.Failed? && !f.phase.InFlight? ==> !g.phase.Failed? && !g.phase.InFlight?)
  }

  lemma ExtendsTeardown(flights: seq<Flight>, endpoint: string)
    ensures Extends(flights, Teardown(flights, endpoint))
  {
    forall i: nat | i < |flights|
      ensures Continues(flights[i], Teardown(flights, endpoint)[i])
    {
    }
  }

  lemma ExtendsEnter(s: Sys, lim: Limits, c: nat)
    requires Struct(s) && Enabled(s, Enter(c))
    ensures Extends(s.flights, ApplyEnter(s, lim, c).flights)
  {
    if !s.pool.stopped {
      EnterAfterPurge(s, lim, c);
      var q := Purged(s, s.clients[c].key, s.clients[c].endpoint);
      assert Extends(s.flights, q.flights);
      var t := ApplyEnter(s, lim, c);
      forall i: nat | i < |s.flights|
        ensures Continues(s.flights[i], t.flights[i])
      {
        assert t.flights[i] == q.flights[i];
      }
    }
  }

  lemma ExtendsPhase(flights: seq<Flight>, id: nat, phase: Phase)
    requires id < |flights| && !flights[id].phase.Failed?
    requires !flights[id].phase.InFlight? ==> !phase.Failed? && !phase.InFlight?
    ensures Extends(flights, SetPhase(flights, id, phase))
  {
  }

  lemma ExtendsDiscard(s: Sys, key: string)
    requires Struct(s)
    ensures Extends(s.flights, Discard(s.flights, PooledAt(s.pool, key)))
  {
    if key in s.pool.sessions {
      ExtendsPhase(s.flights, s.pool.sessions[key].id, Closing);
    }
  }

  lemma ExtendsStep(s: Sys, lim: Limits, a: Action)
    requires Struct(s) && CloserMatch(s) && Enabled(s, a)
    ensures Extends(s.flights, Apply(s, lim, a).flights)
  {
    match a
    case Enter(c) => ExtendsEnter(s, lim, c);
    case CreateFails(c, error) => ExtendsPhase(s.flights, s.clients[c].flight, Failed(error));
    case CreateSucceeds(c) => ExtendsPhase(s.flights, s.clients[c].flight, Pooled);
    case RegisterEndpoint(e, _) => ExtendsTeardown(s.flights, e);
    case UnregisterEndpoint(e) => ExtendsTeardown(s.flights, e);
    case InvalidateKey(key) => ExtendsDiscard(s, key);
    case ReapOne(key) => ExtendsDiscard(s, key);
    case CloseOwed(id) => ExtendsPhase(s.flights, id, Closed);
    case CloseReturns(id) => ExtendsPhase(s.flights, id, Closed);
    case StopTake(key) => if key in s.pool.sessions { ExtendsPhase(s.flights, s.pool.sessions[key].id, Taken); }
    case StopDrop => ExtendsPhase(s.flights, s.closer.current.value, Closed);
    case _ =>
  }

  lemma OutcomeKept(s: Sys, t: Sys, me: Client)
    requires OutcomeOk(s, me) && Extends(s.flights, t.flights)
    ensures OutcomeOk(t, me)
  {
    if me.Returned? && me.via.Some? {
      assert Continues(s.flights[me.via.value], t.flights[me.via.value]);
    }
  }

  lemma OutcomesStep(s: Sys, lim: Limits, a: Action)
    requires Struct(s) && CloserMatch(s) && OutcomesMatch(s) && Enabled(s, a)
    ensures OutcomesMatch(Apply(s, lim, a))
  {
    var t := Apply(s, lim, a);
    ExtendsStep(s, lim, a);
    forall c | c in t.clients
      ensures OutcomeOk(t, t.clients[c])
    {
      if c in s.clients && s.clients[c] == t.clients[c] {
        OutcomeKept(s, t, s.clients[c]);
      } else {
        NewOutcome(s, lim, a, c);
      }
    }
  }

  lemma NewOutcome(s: Sys, lim: Limits, a: Action, c: nat)
    requires Struct(s) && CloserMatch(s) && Enabled(s, a)
    requires c in Apply(s, lim, a).clients
    requires c in s.clients ==> s.clients[c] != Apply(s, lim, a).clients[c]
    ensures OutcomeOk(Apply(s, lim, a), Apply(s, lim, a).clients[c])
  {
  }
}
