/**
 The endpoint manager and its runtimes as objects.  Every operation is proved to
 do to the objects what `EndpointModel` says.
 */
module EndpointManagers {
  import opened Options
  import opened Pools
  import Model = EndpointModel

  class Bridge {
    const pool: Pool

    constructor (pool: Pool)
      ensures this.pool == pool
    {
      this.pool := pool;
    }
  }

  class Runtime {
    var cfg: Model.Config
    var bridge: Bridge?
    var listener: Option<string>
    ghost var claims: nat
    ghost var gone: bool

    ghost function State(): Model.Runtime
      reads this
    {
      Model.Runtime(cfg, bridge != null, listener.Some?, claims, gone)
    }

    constructor (cfg: Model.Config)
      ensures State() == Model.Runtime(cfg, false, false, 0, false) && bridge == null
    {
      this.cfg, bridge, listener := cfg, null, None;
      claims, gone := 0, false;
    }

    /** Replaces the configuration; bridge and listener stay. */
    method Update(cfg: Model.Config)
      modifies this
      ensures State() == old(State()).(cfg := cfg) && bridge == old(bridge)
    {
      this.cfg := cfg;
    }

    method SetBridge(bridge: Bridge?)
      modifies this
      ensures State() == old(State()).(bridged := bridge != null) && this.bridge == bridge
    {
      this.bridge := bridge;
    }

    method ClaimListener() returns (out: Model.Claimed)
      modifies this
      ensures out == Model.ClaimResult(old(State()))
      ensures State() == Model.AfterClaim(old(State())) && bridge == old(bridge)
    {
      if cfg.delivery != Model.InProcess {
        return Model.NotInProcess;
      }
      if listener != None {
        return Model.AlreadyClaimed;
      }
      listener := Some(cfg.id);
      claims := claims + 1;
      out := Model.Granted;
    }

    /** Closes the listener. */
    method Close()
      modifies this
      ensures State() == old(State()).(listening := false) && bridge == old(bridge)
    {
      if listener.Some? {
        listener := None;
      }
    }

    /** What a removal does to the runtime. */
    method Retire()
      modifies this
      ensures State() == Model.Removed(old(State())) && bridge == null
    {
      SetBridge(null);
      Close();
      gone := true;
    }
  }

  class Manager {
    var byID: map<string, Runtime>
    var pool: Pool?
    var bridge: Bridge?
    ghost var all: seq<Runtime>
    ghost var dir: Model.Dir

    /** `dir` describes the objects: `all` are the runtimes made so far, in order. */
    ghost predicate Valid()
      reads this, all, pool
    {
      && (forall i, j :: 0 <= i < j < |all| ==> all[i] != all[j])
      && |dir.runtimes| == |all|
      && (forall i :: 0 <= i < |all| ==> dir.runtimes[i] == all[i].State())
      && dir.byID.Keys == byID.Keys
      && (forall id :: id in byID ==> dir.byID[id] < |all| && all[dir.byID[id]] == byID[id])
      && (forall i :: 0 <= i < |all| && all[i].bridge != null ==> all[i].bridge == bridge)
      && (bridge != null ==> bridge.pool == pool)
      && (dir.installed <==> pool != null) && (dir.installed <==> bridge != null)
      && dir.configs == (if pool == null then map[] else pool.configs)
    }

    constructor ()
      ensures Valid() && dir == Model.EMPTY_DIR
      ensures all == [] && pool == null
    {
      byID, pool, bridge := map[], null, null;
      all, dir := [], Model.EMPTY_DIR;
    }

    /** Makes pool and bridge on the first call, and does nothing later. */
    method EnsureExecBridge(maxPerEndpoint: int, maxGlobal: int)
      requires Valid()
      modifies this
      ensures Valid() && Model.InRange(old(dir)) && dir == Model.Apply(old(dir), Model.Install)
      ensures all == old(all) && byID == old(byID)
      ensures old(pool) != null ==> pool == old(pool)
      ensures pool != null && (old(pool) == null ==> fresh(pool))
    {
      if pool == null {
        var p := new Pool(maxPerEndpoint, maxGlobal);
        pool := p;
        bridge := new Bridge(p);
        dir := dir.(installed := true);
        assert pool.State().configs == map[];
      }
    }

    method Get(id: string) returns (r: Runtime?)
      requires Valid()
      ensures r == if id in byID then byID[id] else null
    {
      r := if id in byID then byID[id] else null;
    }

    method HandleNewEndpoint(cfg: Model.Config, rejected: bool)
      requires Valid()
      modifies this, all, pool
      ensures Valid() && Model.InRange(old(dir)) && dir == Model.Apply(old(dir), Model.NewEndpoint(cfg, rejected))
      ensures old(all) <= all && pool == old(pool) && fresh(all[|old(all)|..])
    {
      if rejected {
        Delete(cfg.id);
      } else {
        Upsert(cfg);
      }
    }

    method HandleCloseEndpoint(id: string)
      requires Valid()
      modifies this, all, pool
      ensures Valid() && Model.InRange(old(dir)) && dir == Model.Apply(old(dir), Model.CloseEndpoint(id))
      ensures all == old(all) && pool == old(pool)
    {
      if id == "" {
        return;
      }
      Delete(id);
    }

    method Upsert(cfg: Model.Config)
      requires Valid()
      modifies this, all, pool
      ensures Valid() && Model.InRange(old(dir)) && dir == Model.Upsert(old(dir), cfg)
      ensures old(all) <= all && pool == old(pool) && fresh(all[|old(all)|..])
    {
      if cfg.id == "" {
        return;
      }
      var rt := Enter(cfg);
      SyncExecLocked(rt, cfg, dir.byID[cfg.id]);
    }

    method Enter(cfg: Model.Config) returns (rt: Runtime)
      requires Valid()
      modifies this, all
      ensures Valid() && Model.InRange(old(dir)) && dir == Model.Enter(old(dir), cfg)
      ensures rt in old(all) || fresh(rt)
      ensures cfg.id in byID && rt == byID[cfg.id] && pool == old(pool) && bridge == old(bridge)
      ensures old(all) <= all && fresh(all[|old(all)|..])
    {
      if cfg.id in byID {
        rt := byID[cfg.id];
        rt.Update(cfg);
        dir := Model.Enter(dir, cfg);
      } else {
        rt := Create(cfg);
      }
    }

    method Create(cfg: Model.Config) returns (rt: Runtime)
      requires Valid() && cfg.id !in byID
      modifies this
      ensures Valid() && Model.InRange(old(dir)) && dir == Model.Enter(old(dir), cfg)
      ensures fresh(rt) && all == old(all) + [rt] && byID == old(byID)[cfg.id := rt]
      ensures pool == old(pool) && bridge == old(bridge)
    {
      rt := new Runtime(cfg);
      byID := byID[cfg.id := rt];
      all := all + [rt];
      dir := Model.Enter(dir, cfg);
    }

    method SyncExecLocked(rt: Runtime, cfg: Model.Config, ghost n: nat)
      requires Valid() && n < |all| && rt == all[n]
      modifies this`dir, rt, pool
      ensures Valid() && dir == Model.Sync(old(dir), n, cfg)
    {
      if pool == null || bridge == null {
        return;
      }
      if cfg.delivery != Model.Exec {
        var _ := pool.UnregisterEndpoint(cfg.id);
        rt.SetBridge(null);
      } else if cfg.exec == None {
        var _ := pool.UnregisterEndpoint(cfg.id);
        rt.SetBridge(null);
      } else {
        var _ := pool.RegisterEndpoint(cfg.id, cfg.exec.value);
        rt.SetBridge(bridge);
      }
      dir := Model.Sync(dir, n, cfg);
      assert pool.configs == pool.State().configs;
    }

    method Delete(id: string)
      requires Valid()
      modifies this, all, pool
      ensures Valid() && Model.InRange(old(dir)) && dir == Model.Delete(old(dir), id)
      ensures all == old(all) && pool == old(pool)
    {
      if id == "" {
        return;
      }
      if pool != null {
        var _ := pool.UnregisterEndpoint(id);
        assert pool.configs == pool.State().configs;
      }
      dir := Model.Forget(dir, id);
      if id in byID {
        Drop(id);
      }
    }

    method Drop(id: string)
      requires Valid() && id in byID
      modifies this, all
      ensures Valid() && Model.InRange(old(dir)) && dir == Model.Drop(old(dir), id)
      ensures all == old(all) && pool == old(pool)
    {
      byID[id].Retire();
      byID := byID - {id};
      dir := Model.Drop(dir, id);
    }

    /** Looks the runtime up, and then claims its listener. */
    method ClaimListener(id: string) returns (found: bool, out: Model.Claimed)
      requires Valid()
      modifies this`dir, all
      ensures Valid() && found == (id in old(byID))
      ensures found ==>
        && dir == Model.Apply(old(dir), Model.Claim(old(dir).byID[id]))
        && out == Model.ClaimResult(old(dir).runtimes[old(dir).byID[id]])
      ensures !found ==> dir == old(dir)
    {
      var rt := Get(id);
      if rt == null {
        return false, Model.NotInProcess;
      }
      ghost var n := dir.byID[id];
      out := rt.ClaimListener();
      found := true;
      dir := Model.Apply(dir, Model.Claim(n));
    }
  }
}
