/**
 All interleavings of the session pool.

 A state holds the pool's shared fields, what every caller of `GetOrCreate` is
 doing, the reaper's and `CloseAll`'s progress, and one record for every session
 creation (a *flight*) ever started.  An action is one locked section, one atomic
 update outside the lock, or one event of the outside world (a process dies, a
 creation ends, a close returns).  Any action whose guard holds may come next.
 */
module PoolSystem {
  import opened Options
  import opened PoolModel

  /**
   Where a creation, and the session it made, has got to.
     Owed    unpooled by an endpoint teardown; global slot not yet given back
     Taken   unpooled by `CloseAll`; global slot not yet given back
     Closing unpooled and slot given back; its close has not returned
   */
  datatype Phase = InFlight | Failed(error: string) | Pooled | Owed | Taken | Closing | Closed

  /**
   `tainted` records that a teardown of the endpoint ran while the creation was
   in flight.  Flight number, position in the sequence and session id agree.
   */
  datatype Flight = Flight(
    key: string,
    endpoint: string,
    cfg: SpawnConfig,
    creator: nat,
    phase: Phase,
    tainted: bool)

  datatype Outcome = Got(session: Session) | Refused(reason: Decision) | CreateError(error: string)

  datatype Client =
    | Entering(key: string, endpoint: string)
    | Creating(key: string, endpoint: string, flight: nat)
    | Waiting(key: string, endpoint: string, flight: nat)
    | Returned(key: string, outcome: Outcome, via: Option<nat>)

  /** Progress of `CloseAll`, which runs at most once. */
  datatype Closer =
    | Running
    | Flagged
    | Walking(todo: set<string>, current: Option<nat>)
    | Finished

  datatype Sys = Sys(
    pool: PoolState,
    clients: map<nat, Client>,
    flights: seq<Flight>,
    dead: set<nat>,
    reaping: set<string>,
    closer: Closer,
    late: set<nat>)  // creations in flight when `CloseAll` listed the keys

  const INITIAL := Sys(EMPTY_POOL, map[], [], {}, {}, Running, {})

  datatype Action =
    | Call(client: nat, key: string, endpoint: string)
    | Enter(client: nat)
    | CreateFails(client: nat, error: string)
    | CreateSucceeds(client: nat)
    | Wake(client: nat)
    | RegisterEndpoint(endpoint: string, cfg: SpawnConfig)
    | UnregisterEndpoint(endpoint: string)
    | InvalidateKey(key: string)
    | ReapScan(keys: set<string>)
    | ReapOne(key: string)
    | CloseOwed(id: nat)
    | Die(id: nat)
    | CloseReturns(id: nat)
    | StopFlag
    | StopList
    | StopTake(key: string)
    | StopDrop
    | StopFinish

  function SessionOf(s: Sys, id: nat): Session
    requires id < |s.flights|
  {
    Session(id, s.flights[id].endpoint, s.flights[id].cfg)
  }

  predicate Has(s: Sys, id: nat, phase: Phase) {
    id < |s.flights| && s.flights[id].phase == phase
  }

  /** Creations in flight now. */
  function Creations(flights: seq<Flight>): set<nat> {
    set i: nat | i < |flights| && flights[i].phase.InFlight?
  }

  /** Sessions whose process may be running. */
  ghost predicate MayRun(s: Sys, id: nat) {
    id < |s.flights| && id !in s.dead && !s.flights[id].phase.Failed? && !s.flights[id].phase.Closed?
  }

  predicate Enabled(s: Sys, a: Action) {
    match a
    case Call(c, _, _) => c in s.clients ==> s.clients[c].Returned?
    case Enter(c) => c in s.clients && s.clients[c].Entering?
    case CreateFails(c, _) =>
      c in s.clients && s.clients[c].Creating? && s.clients[c].flight < |s.flights|
    case CreateSucceeds(c) =>
      c in s.clients && s.clients[c].Creating? && s.clients[c].flight < |s.flights|
    case Wake(c) =>
      c in s.clients && s.clients[c].Waiting? && s.clients[c].flight < |s.flights|
      && !s.flights[s.clients[c].flight].phase.InFlight?
    case RegisterEndpoint(_, _) => true
    case UnregisterEndpoint(_) => true
    case InvalidateKey(_) => true
    case ReapScan(keys) =>
      // idleness depends on the clock: any key may qualify, a dead session must
      && s.reaping == {}
      && keys <= s.pool.sessions.Keys
      && (forall k :: k in s.pool.sessions && s.pool.sessions[k].id in s.dead ==> k in keys)
    case ReapOne(k) => k in s.reaping
    case CloseOwed(id) => Has(s, id, Owed)
    case Die(id) => id < |s.flights|
    case CloseReturns(id) => Has(s, id, Closing)
    case StopFlag => s.closer.Running?
    case StopList => s.closer.Flagged?
    case StopTake(k) => s.closer.Walking? && s.closer.current.None? && k in s.closer.todo
    case StopDrop => s.closer.Walking? && s.closer.current.Some? && s.closer.current.value < |s.flights|
    case StopFinish => s.closer.Walking? && s.closer.current.None? && s.closer.todo == {}
  }

  /** The flight's record with another phase. */
  function SetPhase(flights: seq<Flight>, id: nat, phase: Phase): seq<Flight> {
    if id < |flights| then flights[id := flights[id].(phase := phase)] else flights
  }

  /** An unpooled session is on its way to be closed. */
  function Discard(flights: seq<Flight>, dropped: Option<Session>): seq<Flight> {
    if dropped.Some? then SetPhase(flights, dropped.value.id, Closing) else flights
  }

  /** A teardown owes the pooled sessions' slots and taints creations in flight. */
  function TeardownOne(f: Flight, endpoint: string): Flight {
    if f.endpoint != endpoint then f
    else if f.phase.Pooled? then f.(phase := Owed)
    else if f.phase.InFlight? then f.(tainted := true)
    else f
  }

  function Teardown(flights: seq<Flight>, endpoint: string): seq<Flight> {
    seq(|flights|, i requires 0 <= i < |flights| => TeardownOne(flights[i], endpoint))
  }

  function PooledAt(p: PoolState, key: string): Option<Session> {
    if key in p.sessions then Some(p.sessions[key]) else None
  }

  ghost function ApplyEnter(s: Sys, lim: Limits, c: nat): Sys
    requires Enabled(s, Enter(c))
  {
    var key, endpoint := s.clients[c].key, s.clients[c].endpoint;
    var flight := |s.flights|;
    var r := Admit(s.pool, lim, key, endpoint, s.dead, flight);
    var flights := Discard(s.flights, r.dropped);
    match r.decision
    case Reserved(cfg) =>
      s.(pool := r.pool,
         clients := s.clients[c := Creating(key, endpoint, flight)],
         flights := flights + [Flight(key, endpoint, cfg, c, InFlight, false)])
    case Wait(f) =>
      s.(pool := r.pool, clients := s.clients[c := Waiting(key, endpoint, f)], flights := flights)
    case Hit(session) =>
      s.(pool := r.pool, clients := s.clients[c := Returned(key, Got(session), None)], flights := flights)
    case _ =>
      s.(pool := r.pool, clients := s.clients[c := Returned(key, Refused(r.decision), None)], flights := flights)
  }

  ghost function ApplyWake(s: Sys, c: nat): Sys
    requires Enabled(s, Wake(c))
  {
    var key, endpoint, f := s.clients[c].key, s.clients[c].endpoint, s.clients[c].flight;
    var next :=
      if s.flights[f].phase.Failed? then Returned(key, CreateError(s.flights[f].phase.error), Some(f))
      else if f !in s.dead then Returned(key, Got(SessionOf(s, f)), Some(f))
      else Entering(key, endpoint);
    s.(clients := s.clients[c := next])
  }

  ghost function Apply(s: Sys, lim: Limits, a: Action): Sys
    requires Enabled(s, a)
  {
    match a
    case Call(c, key, endpoint) =>
      s.(clients := s.clients[c := Entering(key, endpoint)])
    case Enter(c) =>
      ApplyEnter(s, lim, c)
    case CreateFails(c, error) =>
      var me := s.clients[c];
      s.(pool := FinishFailed(s.pool, me.key, me.endpoint),
         clients := s.clients[c := Returned(me.key, CreateError(error), Some(me.flight))],
         flights := SetPhase(s.flights, me.flight, Failed(error)))
    case CreateSucceeds(c) =>
      var me := s.clients[c];
      var session := SessionOf(s, me.flight);
      s.(pool := FinishCreated(s.pool, me.key, session),
         clients := s.clients[c := Returned(me.key, Got(session), Some(me.flight))],
         flights := SetPhase(s.flights, me.flight, Pooled))
    case Wake(c) =>
      ApplyWake(s, c)
    case RegisterEndpoint(endpoint, cfg) =>
      s.(pool := Register(s.pool, endpoint, cfg),
         flights := if NeedsTeardown(s.pool, endpoint, cfg) then Teardown(s.flights, endpoint) else s.flights)
    case UnregisterEndpoint(endpoint) =>
      s.(pool := Unregister(s.pool, endpoint), flights := Teardown(s.flights, endpoint))
    case InvalidateKey(key) =>
      s.(pool := Invalidate(s.pool, key), flights := Discard(s.flights, PooledAt(s.pool, key)))
    case ReapScan(keys) =>
      s.(reaping := keys)
    case ReapOne(key) =>
      s.(pool := Invalidate(s.pool, key),
         flights := Discard(s.flights, PooledAt(s.pool, key)),
         reaping := s.reaping - {key})
    case CloseOwed(id) =>
      s.(pool := s.pool.(globalCount := s.pool.globalCount - 1),
         flights := SetPhase(s.flights, id, Closed),
         dead := s.dead + {id})
    case Die(id) =>
      s.(dead := s.dead + {id})
    case CloseReturns(id) =>
      s.(flights := SetPhase(s.flights, id, Closed), dead := s.dead + {id})
    case StopFlag =>
      s.(pool := s.pool.(stopped := true), closer := Flagged)
    case StopList =>
      s.(closer := Walking(s.pool.sessions.Keys, None), late := Creations(s.flights))
    case StopTake(key) =>
      var taken := PooledAt(s.pool, key);
      s.(pool := s.pool.(sessions := s.pool.sessions - {key}),
         flights := if taken.Some? then SetPhase(s.flights, taken.value.id, Taken) else s.flights,
         closer := Walking(s.closer.todo - {key}, if taken.Some? then Some(taken.value.id) else None))
    case StopDrop =>
      var id := s.closer.current.value;
      s.(pool := s.pool.(globalCount := s.pool.globalCount - 1),
         flights := SetPhase(s.flights, id, Closed),
         dead := s.dead + {id},
         closer := s.closer.(current := None))
    case StopFinish =>
      s.(pool := s.pool.(epCount := map[]), closer := Finished)
  }

  /** A run: states joined by enabled actions, from the empty pool. */
  ghost predicate IsRun(lim: Limits, states: seq<Sys>, actions: seq<Action>) {
    && |states| == |actions| + 1
    && states[0] == INITIAL
    && forall i | 0 <= i < |actions| ::
         Enabled(states[i], actions[i]) && states[i + 1] == Apply(states[i], lim, actions[i])
  }
}
