/**
 The endpoint directory: which endpoints there are, which of them the session
 pool knows, and which of them have a bridge or a claimed listener; and what holds
 of it after any sequence of messages.
 */
module EndpointModel {
  import opened Options
  import opened PoolModel

  datatype Delivery = Forward | InProcess | Exec

  /** `exec` is what the payload parses to as settings for a subprocess, if it does. */
  datatype Config = Config(id: string, delivery: Delivery, exec: Option<SpawnConfig>)

  /**
   The state of one runtime object.  `claims` counts the listeners handed out so
   far; `gone` says that the runtime was removed from the directory.
   */
  datatype Runtime = Runtime(cfg: Config, bridged: bool, listening: bool, claims: nat, gone: bool)

  /** Runtimes are numbered in order of creation and never forgotten here: callers may still hold one. */
  datatype Dir = Dir(byID: map<string, nat>, runtimes: seq<Runtime>, configs: map<string, SpawnConfig>, installed: bool)

  const EMPTY_DIR := Dir(map[], [], map[], false)

  datatype Op =
    | Install
    | NewEndpoint(cfg: Config, rejected: bool)
    | CloseEndpoint(id: string)
    | Claim(runtime: nat)

  datatype Claimed = NotInProcess | AlreadyClaimed | Granted

  // ------------------------------------------------------------- one step at a time

  predicate Runs(cfg: Config) {
    cfg.delivery == Exec && cfg.exec.Some?
  }

  predicate InRange(d: Dir) {
    forall id :: id in d.byID ==> d.byID[id] < |d.runtimes|
  }

  /** Tells the pool about an endpoint, or makes it forget it. */
  function Sync(d: Dir, n: nat, cfg: Config): Dir
    requires n < |d.runtimes|
  {
    if !d.installed then d
    else if Runs(cfg) then
      d.(configs := d.configs[cfg.id := cfg.exec.value], runtimes := d.runtimes[n := d.runtimes[n].(bridged := true)])
    else
      d.(configs := d.configs - {cfg.id}, runtimes := d.runtimes[n := d.runtimes[n].(bridged := false)])
  }

  /** Puts a configuration into the directory: a known endpoint keeps its runtime. */
  function Enter(d: Dir, cfg: Config): Dir
    requires InRange(d)
  {
    if cfg.id in d.byID then
      var n := d.byID[cfg.id];
      d.(runtimes := d.runtimes[n := d.runtimes[n].(cfg := cfg)])
    else
      d.(byID := d.byID[cfg.id := |d.runtimes|], runtimes := d.runtimes + [Runtime(cfg, false, false, 0, false)])
  }

  function Upsert(d: Dir, cfg: Config): Dir
    requires InRange(d)
  {
    if cfg.id == "" then d
    else
      var e := Enter(d, cfg);
      Sync(e, e.byID[cfg.id], cfg)
  }

  function Forget(d: Dir, id: string): Dir {
    if d.installed then d.(configs := d.configs - {id}) else d
  }

  function Drop(d: Dir, id: string): Dir
    requires InRange(d) && id in d.byID
  {
    var n := d.byID[id];
    d.(byID := d.byID - {id}, runtimes := d.runtimes[n := Removed(d.runtimes[n])])
  }

  function Delete(d: Dir, id: string): Dir
    requires InRange(d)
  {
    if id == "" then d
    else if id in d.byID then Drop(Forget(d, id), id)
    else Forget(d, id)
  }

  function Removed(r: Runtime): Runtime {
    r.(bridged := false, listening := false, gone := true)
  }

  function ClaimResult(r: Runtime): Claimed {
    if r.cfg.delivery != InProcess then NotInProcess
    else if r.listening then AlreadyClaimed
    else Granted
  }

  function AfterClaim(r: Runtime): Runtime {
    if ClaimResult(r) == Granted then r.(listening := true, claims := r.claims + 1) else r
  }

  /** Claiming is the second half of `ClaimListener`: the runtime was looked up some time before. */
  function Apply(d: Dir, op: Op): (e: Dir)
    requires InRange(d)
    ensures InRange(e) && |d.runtimes| <= |e.runtimes|
  {
    match op
    case Install => d.(installed := true)
    case NewEndpoint(cfg, rejected) => if rejected then Delete(d, cfg.id) else Upsert(d, cfg)
    case CloseEndpoint(id) => Delete(d, id)
    case Claim(n) => if n < |d.runtimes| then d.(runtimes := d.runtimes[n := AfterClaim(d.runtimes[n])]) else d
  }

  function Run(ops: seq<Op>): (d: Dir)
    ensures InRange(d)
  {
    if ops == [] then EMPTY_DIR else Apply(Run(ops[..|ops| - 1]), ops[|ops| - 1])
  }

  // ---------------------------------------------------- what every message preserves

  /** Runtimes and table entries belong together one to one. */
  ghost predicate Linked(d: Dir) {
    && (forall id :: id in d.byID ==> id != "" && d.byID[id] < |d.runtimes|
                                      && d.runtimes[d.byID[id]].cfg.id == id && !d.runtimes[d.byID[id]].gone)
    && (forall n :: 0 <= n < |d.runtimes| && !d.runtimes[n].gone ==>
          d.runtimes[n].cfg.id in d.byID && d.byID[d.runtimes[n].cfg.id] == n)
  }

  /** The pool's configurations and the runtimes' bridges tell the same. */
  ghost predicate Agrees(d: Dir, id: string)
    requires InRange(d)
  {
    if id in d.configs then
      && id in d.byID && d.runtimes[d.byID[id]].bridged
      && d.runtimes[d.byID[id]].cfg.delivery == Exec
      && d.runtimes[d.byID[id]].cfg.exec == Some(d.configs[id])
    else
      id in d.byID ==> !d.runtimes[d.byID[id]].bridged
  }

  ghost predicate ClaimsMatch(r: Runtime) {
    if r.gone then !r.bridged && r.claims <= (if r.listening then 2 else 1)
    else r.claims == if r.listening then 1 else 0
  }

  ghost predicate Inv(d: Dir) {
    && InRange(d) && Linked(d)
    && (forall id :: id in d.configs || id in d.byID ==> Agrees(d, id))
    && (forall n :: 0 <= n < |d.runtimes| ==> ClaimsMatch(d.runtimes[n]))
    && (!d.installed ==> d.configs == map[])
  }

  lemma SyncAgrees(d: Dir, n: nat, cfg: Config, id: string)
    requires InRange(d) && Linked(d) && n < |d.runtimes| && d.runtimes[n].cfg == cfg && !d.runtimes[n].gone
    requires id == cfg.id || Agrees(d, id)
    requires !d.installed ==> d.configs == map[] && !d.runtimes[n].bridged
    ensures Agrees(Sync(d, n, cfg), id)
  {}

  lemma SyncStep(d: Dir, n: nat, cfg: Config)
    requires InRange(d) && Linked(d) && n < |d.runtimes| && d.runtimes[n].cfg == cfg && !d.runtimes[n].gone
    requires forall id :: (id in d.configs || id in d.byID) && id != cfg.id ==> Agrees(d, id)
    requires forall m :: 0 <= m < |d.runtimes| ==> ClaimsMatch(d.runtimes[m])
    requires !d.installed ==> d.configs == map[] && !d.runtimes[n].bridged
    ensures Inv(Sync(d, n, cfg))
  {
    var e := Sync(d, n, cfg);
    forall id | id in e.configs || id in e.byID
      ensures Agrees(e, id)
    {
      SyncAgrees(d, n, cfg, id);
    }
    SyncRuntimes(d, n, cfg);
  }

  lemma SyncRuntimes(d: Dir, n: nat, cfg: Config)
    requires InRange(d) && Linked(d) && n < |d.runtimes| && !d.runtimes[n].gone
    requires forall m :: 0 <= m < |d.runtimes| ==> ClaimsMatch(d.runtimes[m])
    ensures InRange(Sync(d, n, cfg)) && Linked(Sync(d, n, cfg))
    ensures forall m :: 0 <= m < |d.runtimes| ==> ClaimsMatch(Sync(d, n, cfg).runtimes[m])
  {}

  lemma UpsertStep(d: Dir, cfg: Config)
    requires Inv(d)
    ensures Inv(Upsert(d, cfg))
  {
    if cfg.id != "" {
      var e := Enter(d, cfg);
      forall id | (id in e.configs || id in e.byID) && id != cfg.id
        ensures Agrees(e, id)
      {
        assert Agrees(d, id);
      }
      if cfg.id in d.byID {
        assert Agrees(d, cfg.id);
      }
      SyncStep(e, e.byID[cfg.id], cfg);
    }
  }

  lemma DeleteStep(d: Dir, id: string)
    requires Inv(d)
    ensures Inv(Delete(d, id))
  {
    var e := Delete(d, id);
    forall other | other in e.configs || other in e.byID
      ensures Agrees(e, other)
    {
      assert Agrees(d, other);
    }
  }

  lemma ClaimStep(d: Dir, n: nat)
    requires Inv(d) && n < |d.runtimes|
    ensures Inv(Apply(d, Claim(n)))
  {
    var e := Apply(d, Claim(n));
    forall id | id in e.configs || id in e.byID
      ensures Agrees(e, id)
    {
      assert Agrees(d, id);
    }
  }

  lemma {:induction false} InvHolds(ops: seq<Op>)
    ensures Inv(Run(ops))
  {
    if ops != [] {
      var d, op := Run(ops[..|ops| - 1]), ops[|ops| - 1];
      InvHolds(ops[..|ops| - 1]);
      match op {
        case Install =>
          forall id | id in d.configs || id in d.byID
            ensures Agrees(Apply(d, op), id)
          {
            assert Agrees(d, id);
          }
        case NewEndpoint(cfg, rejected) =>
          if rejected {
            DeleteStep(d, cfg.id);
          } else {
            UpsertStep(d, cfg);
          }
        case CloseEndpoint(id) =>
          DeleteStep(d, id);
        case Claim(n) =>
          if n < |d.runtimes| {
            ClaimStep(d, n);
          }
      }
    }
  }

  // ---------------------------------------------------------------- the last message

  predicate About(op: Op, id: string) {
    (op.NewEndpoint? && op.cfg.id == id) || op == CloseEndpoint(id)
  }

  /** The newest message about an endpoint. */
  ghost predicate LastAbout(ops: seq<Op>, id: string, i: nat) {
    i < |ops| && About(ops[i], id) && forall j :: i < j < |ops| ==> !About(ops[j], id)
  }

  ghost predicate InstalledBefore(ops: seq<Op>, i: nat)
    requires i <= |ops|
  {
    Install in ops[..i]
  }

  /** What the directory says about one endpoint. */
  datatype Entry = Entry(listed: bool, cfg: Option<Config>, exec: Option<SpawnConfig>, bridged: bool)

  function EntryOf(d: Dir, id: string): Entry
    requires InRange(d)
  {
    Entry(id in d.byID,
          if id in d.byID then Some(d.runtimes[d.byID[id]].cfg) else None,
          if id in d.configs then Some(d.configs[id]) else None,
          id in d.byID && d.runtimes[d.byID[id]].bridged)
  }

  const ABSENT := Entry(false, None, None, false)

  /** What it has to say after a message about the endpoint. */
  function EntryAfter(op: Op, installed: bool): Entry
    requires op.NewEndpoint? || op.CloseEndpoint?
  {
    if op.CloseEndpoint? || op.rejected then ABSENT
    else if installed && op.cfg.delivery == Exec && op.cfg.exec.Some? then Entry(true, Some(op.cfg), op.cfg.exec, true)
    else Entry(true, Some(op.cfg), None, false)
  }

  lemma OthersUntouched(d: Dir, op: Op, id: string)
    requires Inv(d) && !About(op, id)
    ensures EntryOf(Apply(d, op), id) == EntryOf(d, id)
  {
    match op
    case Install =>
    case NewEndpoint(cfg, rejected) =>
      if rejected {
        DeleteTouchesOne(d, cfg.id, id);
      } else {
        UpsertTouchesOne(d, cfg, id);
      }
    case CloseEndpoint(other) => DeleteTouchesOne(d, other, id);
    case Claim(n) =>
  }

  lemma DeleteTouchesOne(d: Dir, other: string, id: string)
    requires Inv(d) && other != id
    ensures EntryOf(Delete(d, other), id) == EntryOf(d, id)
  {
    assert id in d.byID ==> d.runtimes[d.byID[id]].cfg.id == id;
  }

  lemma UpsertTouchesOne(d: Dir, cfg: Config, id: string)
    requires Inv(d) && cfg.id != id
    ensures EntryOf(Upsert(d, cfg), id) == EntryOf(d, id)
  {
    assert id in d.byID ==> d.runtimes[d.byID[id]].cfg.id == id;
  }

  lemma MessageDecides(d: Dir, op: Op, id: string)
    requires Inv(d) && id != "" && About(op, id)
    ensures EntryOf(Apply(d, op), id) == EntryAfter(op, d.installed)
  {
    if id in d.byID || id in d.configs {
      assert Agrees(d, id);
    }
  }

  lemma {:induction false} InstalledMeans(ops: seq<Op>)
    ensures Run(ops).installed <==> Install in ops
  {
    if ops != [] {
      InstalledMeans(ops[..|ops| - 1]);
      assert ops == ops[..|ops| - 1] + [ops[|ops| - 1]];
    }
  }

  /**
   The last message about an endpoint wins.  The endpoint is listed exactly if that
   message announced it; the pool knows it, and its bridge is set, exactly if
   moreover its delivery is exec, its payload parses, and the bridge was installed
   by then.  An endpoint announced before that stays without a bridge.
   */
  lemma {:induction false} LastMessageWins(ops: seq<Op>, id: string, i: nat)
    requires id != "" && LastAbout(ops, id, i)
    ensures EntryOf(Run(ops), id) == EntryAfter(ops[i], InstalledBefore(ops, i))
  {
    var n := |ops| - 1;
    var front := ops[..n];
    InvHolds(front);
    assert Run(ops) == Apply(Run(front), ops[n]);
    if i == n {
      MessageDecides(Run(front), ops[n], id);
      InstalledMeans(front);
    } else {
      OthersUntouched(Run(front), ops[n], id);
      assert forall j :: 0 <= j < n ==> front[j] == ops[j];
      LastMessageWins(front, id, i);
      assert front[..i] == ops[..i];
    }
  }

  /** Without any message about it, or with an empty name, an endpoint is absent. */
  lemma {:induction false} NoMessageNoEntry(ops: seq<Op>, id: string)
    requires id == "" || forall i :: 0 <= i < |ops| ==> !About(ops[i], id)
    ensures EntryOf(Run(ops), id) == ABSENT
  {
    if ops != [] {
      var n := |ops| - 1;
      NoMessageNoEntry(ops[..n], id);
      InvHolds(ops[..n]);
      InvHolds(ops);
      if id == "" {
        assert id !in Run(ops).byID;
        assert id in Run(ops).configs ==> Agrees(Run(ops), id);
      } else {
        OthersUntouched(Run(ops[..n]), ops[n], id);
      }
    }
  }

  // ------------------------------------------------------------------- the listeners

  /**
   While a runtime is in the directory at most one listener is handed out for it,
   whatever messages update it; and never more than one more after its removal.
   */
  lemma ListenerClaimedOnce(ops: seq<Op>, n: nat)
    requires n < |Run(ops).runtimes|
    ensures var r := Run(ops).runtimes[n];
      && (!r.gone ==> r.claims <= 1)
      && r.claims <= 2
  {
    InvHolds(ops);
    assert ClaimsMatch(Run(ops).runtimes[n]);
  }

  /**
   When a listener is handed out for the second time, exactly: the runtime was
   removed, delivers in process, and no listener was claimed since.
   */
  lemma SecondClaim(ops: seq<Op>, n: nat)
    requires n < |Run(ops).runtimes| && Run(ops).runtimes[n].claims == 1
    ensures n < |Run(ops + [Claim(n)]).runtimes|
    ensures var r := Run(ops).runtimes[n];
      Run(ops + [Claim(n)]).runtimes[n].claims == 2 <==> r.gone && !r.listening && r.cfg.delivery == InProcess
  {
    InvHolds(ops);
    assert ClaimsMatch(Run(ops).runtimes[n]);
    var d := Extend(ops, Claim(n));
    assert d.runtimes[n] == AfterClaim(Run(ops).runtimes[n]);
  }

  /** A removed runtime stays removed, and its bridge stays unset. */
  lemma GoneForGood(ops: seq<Op>, op: Op, n: nat)
    requires n < |Run(ops).runtimes| && Run(ops).runtimes[n].gone
    ensures var r := Run(ops + [op]).runtimes; n < |r| && r[n].gone && !r[n].bridged
  {
    InvHolds(ops);
    InvHolds(ops + [op]);
    var d := Extend(ops, op);
    StaysGone(Run(ops), op, n);
    assert ClaimsMatch(d.runtimes[n]);
  }

  lemma StaysGone(d: Dir, op: Op, n: nat)
    requires InRange(d) && Linked(d) && n < |d.runtimes| && d.runtimes[n].gone
    ensures Apply(d, op).runtimes[n].gone
  {
  }

  /** A caller that looked a runtime up before its removal can claim it a second time. */
  lemma ClaimedAgainAfterRemoval(id: string) returns (ops: seq<Op>)
    requires id != ""
    ensures ops == [NewEndpoint(Config(id, InProcess, None), false), Claim(0), CloseEndpoint(id), Claim(0)]
    ensures Run(ops).runtimes == [Runtime(Config(id, InProcess, None), false, true, 2, true)]
  {
    var cfg := Config(id, InProcess, None);
    ops := [];
    var d := Extend(ops, NewEndpoint(cfg, false));
    ops := ops + [NewEndpoint(cfg, false)];
    assert d.runtimes == [Runtime(cfg, false, false, 0, false)] && d.byID == map[id := 0];
    d := Extend(ops, Claim(0));
    ops := ops + [Claim(0)];
    assert d.runtimes == [Runtime(cfg, false, true, 1, false)] && d.byID == map[id := 0];
    d := Extend(ops, CloseEndpoint(id));
    ops := ops + [CloseEndpoint(id)];
    assert d.runtimes == [Runtime(cfg, false, false, 1, true)];
    d := Extend(ops, Claim(0));
    ops := ops + [Claim(0)];
  }

  lemma Extend(ops: seq<Op>, op: Op) returns (d: Dir)
    ensures d == Run(ops + [op]) == Apply(Run(ops), op)
  {
    d := Run(ops + [op]);
    assert (ops + [op])[..|ops|] == ops;
  }

  /**
   When a claim is granted and when a listener goes, exactly, for every operation: a
   runtime comes to hold a listener only by a claim on it while it delivers in
   process and holds none, and loses it only by a removal of its endpoint.
   */
  lemma ListenerExactly(ops: seq<Op>, op: Op, n: nat)
    requires n < |Run(ops).runtimes|
    ensures n < |Run(ops + [op]).runtimes|
    ensures var r, after := Run(ops).runtimes[n], Run(ops + [op]).runtimes[n];
      var granted := op == Claim(n) && r.cfg.delivery == InProcess && !r.listening;
      && (after.claims == r.claims + 1 <==> granted) && (after.claims == r.claims <==> !granted)
      && (granted ==> after.listening)
      && (r.listening && !after.listening <==> r.listening && !r.gone && Removes(op, r.cfg.id))
      && (!r.listening && after.listening <==> granted)
  {
    InvHolds(ops);
    var d := Extend(ops, op);
    ListenerStep(Run(ops), op, n);
  }

  predicate Removes(op: Op, id: string) {
    op == CloseEndpoint(id) || (op.NewEndpoint? && op.rejected && op.cfg.id == id)
  }

  lemma ListenerStep(d: Dir, op: Op, n: nat)
    requires Inv(d) && n < |d.runtimes|
    ensures var r, after := d.runtimes[n], Apply(d, op).runtimes[n];
      var granted := op == Claim(n) && r.cfg.delivery == InProcess && !r.listening;
      && after.claims == (if granted then r.claims + 1 else r.claims)
      && after.listening == (granted || (r.listening && (r.gone || !Removes(op, r.cfg.id))))
  {
    assert ClaimsMatch(d.runtimes[n]);
  }
}
