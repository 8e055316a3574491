/**
 The session pool's shared state and the sections of code that run under its
 mutex, each as a function from the state before the section to the state after
 it.  `Pools.Pool` implements the sections on mutable fields; `PoolSystem`
 interleaves them.
 */
module PoolModel {
  import opened Options

  /** What is needed to start a subprocess. */
  datatype SpawnConfig = SpawnConfig(
    command: string,
    args: seq<string>,
    workDir: string,
    env: seq<string>,
    envPassthrough: seq<string>,
    familyKey: string,
    requiresEnvFile: bool,
    preflightEnv: seq<string>)

  /** The settings that decide whether running sessions must be replaced. */
  ghost predicate SameProcess(a: SpawnConfig, b: SpawnConfig) {
    a.command == b.command && a.workDir == b.workDir && a.args == b.args && a.env == b.env
  }

  /** Compares the settings field by field and element by element. */
  method ConfigChanged(a: SpawnConfig, b: SpawnConfig) returns (changed: bool)
    ensures changed <==> a.command != b.command || a.workDir != b.workDir || a.args != b.args || a.env != b.env
    ensures changed <==> !SameProcess(a, b)
  {
    if a.command != b.command {
      return true;
    }
    if a.workDir != b.workDir {
      return true;
    }
    if |a.args| != |b.args| {
      return true;
    }
    for i := 0 to |a.args|
      invariant a.args[..i] == b.args[..i]
    {
      if a.args[i] != b.args[i] {
        return true;
      }
    }
    if |a.env| != |b.env| {
      return true;
    }
    for i := 0 to |a.env|
      invariant a.env[..i] == b.env[..i]
    {
      if a.env[i] != b.env[i] {
        return true;
      }
    }
    assert a.args[..|a.args|] == a.args && b.args[..|a.args|] == b.args;
    assert a.env[..|a.env|] == a.env && b.env[..|a.env|] == b.env;
    return false;
  }

  /**
   A session as the pool sees it.  `id` is the number of the creation that made
   it; `endpoint` and `cfg` are what it was created for and with.
   */
  datatype Session = Session(id: nat, endpoint: string, cfg: SpawnConfig)

  datatype Limits = Limits(maxGlobal: nat, maxPerEndpoint: nat)

  datatype PoolState = PoolState(
    sessions: map<string, Session>,
    creating: map<string, nat>,
    epCount: map<string, int>,
    configs: map<string, SpawnConfig>,
    globalCount: int,
    stopped: bool)

  const EMPTY_POOL := PoolState(map[], map[], map[], map[], 0, false)

  /** Reading a missing counter yields zero. */
  function CountOf(counts: map<string, int>, endpoint: string): int {
    if endpoint in counts then counts[endpoint] else 0
  }

  /** Decrement that forgets counters that are not positive afterwards. */
  function ReleaseSlot(counts: map<string, int>, endpoint: string): map<string, int> {
    var n := CountOf(counts, endpoint) - 1;
    if n <= 0 then counts - {endpoint} else counts[endpoint := n]
  }

  /** Decrement after a failed creation: only an exact zero is forgotten. */
  function CancelSlot(counts: map<string, int>, endpoint: string): map<string, int> {
    var n := CountOf(counts, endpoint) - 1;
    if n == 0 then counts - {endpoint} else counts[endpoint := n]
  }

  /** Drop a pooled session and give its slots back at once. */
  function RemoveSession(p: PoolState, key: string, endpoint: string): PoolState {
    if key !in p.sessions then p
    else p.(sessions := p.sessions - {key},
            epCount := ReleaseSlot(p.epCount, endpoint),
            globalCount := p.globalCount - 1)
  }

  /** Drop every pooled session of an endpoint; the global slots stay taken. */
  function CloseEndpoint(p: PoolState, endpoint: string): PoolState {
    p.(sessions := map k | k in p.sessions && p.sessions[k].endpoint != endpoint :: p.sessions[k],
       epCount := p.epCount - {endpoint})
  }

  ghost predicate NeedsTeardown(p: PoolState, endpoint: string, cfg: SpawnConfig) {
    endpoint in p.configs && !SameProcess(p.configs[endpoint], cfg)
  }

  ghost function Register(p: PoolState, endpoint: string, cfg: SpawnConfig): PoolState {
    var q := p.(configs := p.configs[endpoint := cfg]);
    if NeedsTeardown(p, endpoint, cfg) then CloseEndpoint(q, endpoint) else q
  }

  function Unregister(p: PoolState, endpoint: string): PoolState {
    CloseEndpoint(p.(configs := p.configs - {endpoint}), endpoint)
  }

  function Invalidate(p: PoolState, key: string): PoolState {
    if key !in p.sessions then p else RemoveSession(p, key, p.sessions[key].endpoint)
  }

  /** What a caller of `GetOrCreate` is told by the first locked section. */
  datatype Decision =
    | Stopped
    | Hit(session: Session)
    | Wait(flight: nat)
    | GlobalLimit
    | EndpointLimit
    | NotRegistered
    | Reserved(cfg: SpawnConfig)

  datatype Admission = Admission(pool: PoolState, decision: Decision, dropped: Option<Session>)

  /**
   The first locked section of `GetOrCreate`.  `dead` says which sessions are no
   longer alive, `flight` is the number of the creation started if there is one.
   */
  function Admit(p: PoolState, lim: Limits, key: string, endpoint: string, dead: set<nat>, flight: nat): Admission {
    if p.stopped then
      Admission(p, Stopped, None)
    else if key in p.sessions && p.sessions[key].id !in dead then
      Admission(p, Hit(p.sessions[key]), None)
    else
      var dropped := if key in p.sessions then Some(p.sessions[key]) else None;
      var q := RemoveSession(p, key, endpoint);
      if key in q.creating then
        Admission(q, Wait(q.creating[key]), dropped)
      else if q.globalCount >= lim.maxGlobal then
        Admission(q, GlobalLimit, dropped)
      else if CountOf(q.epCount, endpoint) >= lim.maxPerEndpoint then
        Admission(q, EndpointLimit, dropped)
      else if endpoint !in q.configs then
        Admission(q, NotRegistered, dropped)
      else
        Admission(
          q.(creating := q.creating[key := flight],
             epCount := q.epCount[endpoint := CountOf(q.epCount, endpoint) + 1],
             globalCount := q.globalCount + 1),
          Reserved(q.configs[endpoint]),
          dropped)
  }

  /** The second locked section of `GetOrCreate` when the creation failed. */
  function FinishFailed(p: PoolState, key: string, endpoint: string): PoolState {
    p.(creating := p.creating - {key},
       epCount := CancelSlot(p.epCount, endpoint),
       globalCount := p.globalCount - 1)
  }

  /** The second locked section of `GetOrCreate` when the creation succeeded. */
  function FinishCreated(p: PoolState, key: string, session: Session): PoolState {
    p.(creating := p.creating - {key}, sessions := p.sessions[key := session])
  }
}
