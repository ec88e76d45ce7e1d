/** The registry and its handlers as the program runs them: maps and arrays updated in place under one lock. */
module Registry {
  import opened Common
  import opened Strings
  import S = RegistryState
  import T = RegistryTheorems
  import Restart
  import E = RegistryEffects

  class Balancer {
    var lsml: map<string, S.Metadata>
    var lscs: map<string, S.Count>
    var inboundServers: seq<string>
    var outboundServers: seq<string>

    ghost function Value(): S.State
      reads this
    {
      S.State(lsml, lscs, inboundServers, outboundServers)
    }

    constructor ()
      ensures Value() == S.Empty()
    {
      lsml, lscs, inboundServers, outboundServers := map[], map[], [], [];
    }

    /** One entry per scanned key; `None` for a key that could not be read or decoded. */
    method InitServerArrays(scan: seq<Option<S.Registration>>, now: int)
      modifies this
      ensures Value() == S.InitFrom(scan, now)
    {
      lsml, lscs, inboundServers, outboundServers := map[], map[], [], [];
      var i := 0;
      while i < |scan|
        invariant 0 <= i <= |scan|
        invariant Value() == S.InitFrom(scan[..i], now)
      {
        assert scan[..i + 1][..i] == scan[..i];
        if scan[i].Some? {
          var reg := scan[i].value;
          lsml := lsml[reg.name := S.Metadata(reg, S.DefaultHealth(now))];
          lscs := lscs[reg.name := S.MAX_INT];
          if reg.inboundEnabled {
            inboundServers := inboundServers + [reg.name];
          }
          if reg.outboundEnabled {
            outboundServers := outboundServers + [reg.name];
          }
        }
        i := i + 1;
      }
      assert scan[..i] == scan;
    }

    /** The first position of a name, or -1. */
    static method IndexIn(list: seq<string>, name: string) returns (idx: int)
      ensures -1 <= idx < |list|
      ensures idx >= 0 ==> list[idx] == name && name !in list[..idx]
      ensures idx == -1 <==> name !in list
    {
      idx := 0;
      while idx < |list|
        invariant 0 <= idx <= |list|
        invariant name !in list[..idx]
      {
        if list[idx] == name {
          return;
        }
        idx := idx + 1;
      }
      return -1;
    }

    static method SyncList(list: seq<string>, name: string, on: bool) returns (updated: seq<string>)
      ensures updated == S.Sync(list, name, on) && E.Placed(list, updated, name, on)
    {
      E.SyncPlaces(list, name, on);
      var idx := IndexIn(list, name);
      if on && idx == -1 {
        return list + [name];
      } else if !on && idx != -1 {
        E.RemoveAt(list, name, idx);
        return list[..idx] + list[idx + 1..];
      }
      if !on {
        E.RemoveNone(list, name);
      }
      return list;
    }

    method UpdateIOSL(name: string, inbound: bool, outbound: bool)
      modifies this`inboundServers, this`outboundServers
      ensures Value() == S.UpdateArrays(old(Value()), name, inbound, outbound)
    {
      inboundServers := SyncList(inboundServers, name, inbound);
      outboundServers := SyncList(outboundServers, name, outbound);
    }

    method RegisterServer(reg: S.Registration, now: int)
      modifies this
      ensures Value() == S.Register(old(Value()), reg, now)
    {
      var name := reg.name;
      if name in lsml {
        var existing := lsml[name];
        lsml := lsml[name := existing.(reg := reg.(name := existing.reg.name))];
      } else {
        lsml := lsml[name := S.Metadata(reg, S.DefaultHealth(now))];
        lscs := lscs[name := S.MAX_INT];
      }
      UpdateIOSL(name, reg.inboundEnabled, reg.outboundEnabled);
    }

    method UnregisterServer(name: string)
      modifies this
      ensures Value() == S.Unregister(old(Value()), name)
    {
      lsml := lsml - {name};
      lscs := lscs - {name};
      UpdateIOSL(name, false, false);
    }

    method ToggleServer(name: string, inbound: Option<bool>, outbound: Option<bool>) returns (found: bool)
      modifies this`lsml, this`inboundServers, this`outboundServers
      ensures found <==> name in old(lsml)
      ensures Value() == S.Toggle(old(Value()), name, inbound, outbound)
    {
      if name !in lsml {
        return false;
      }
      var reg := lsml[name].reg;
      if inbound.Some? {
        reg := reg.(inboundEnabled := inbound.value);
      }
      if outbound.Some? {
        reg := reg.(outboundEnabled := outbound.value);
      }
      lsml := lsml[name := lsml[name].(reg := reg)];
      UpdateIOSL(name, reg.inboundEnabled, reg.outboundEnabled);
      return true;
    }

    method FindLowestLoadContainer(inbound: bool) returns (result: S.RouteResult)
      modifies this`lscs
      ensures S.Routing(Value(), result) == S.Route(old(Value()), inbound)
    {
      var target := if inbound then inboundServers else outboundServers;
      if |target| == 0 {
        return S.NoContainers;
      }
      var minName, minVal := "", S.MAX_INT;
      var i := 0;
      while i < |target|
        invariant 0 <= i <= |target|
        invariant var best := S.Best(target[..i], lscs);
          if best.Some? then minName == target[best.value] && minVal == lscs[minName]
          else minName == "" && minVal == S.MAX_INT
      {
        assert target[..i + 1][..i] == target[..i];
        var name := target[i];
        if name in lscs && lscs[name] < minVal {
          minVal := lscs[name];
          minName := name;
        }
        i := i + 1;
      }
      assert target[..i] == target;
      if minName == "" || minVal == S.MAX_INT {
        return S.NoHealthy;
      }
      lscs := lscs[minName := lscs[minName] + 1];
      if minName !in lsml {
        return S.Missing(minName);
      }
      var server := lsml[minName];
      return S.Routed(server.(health := server.health.(currentCalls := lscs[minName])));
    }

    /** The name has this part, and the server is known and has a real count. */
    static ghost predicate Suits(s: S.State, part: string, n: string) {
      n in s.lsml && n in s.lscs && s.lscs[n] < 0x7FFF_FFFF_FFFF_FFFF && exists i: nat :: At(n, part, i)
    }

    /** `before` handed out the eligible server `n`, which `shown` describes, and became `after`. */
    static ghost predicate TakenByType(before: S.State, after: S.State, part: string, shown: S.Metadata, n: string) {
      && S.Eligible(before, part, n) && after == S.Bump(before, n) && shown == S.Shown(after, n)
      && Suits(before, part, n) && E.GivenCall(before, after, n, shown)
    }

    /** Meets the servers in an unspecified order and takes the first that qualifies. */
    method FindContainerByType(part: string) returns (result: Option<S.Metadata>)
      modifies this`lscs
      ensures result.None? ==> Value() == old(Value()) && forall n :: !Suits(old(Value()), part, n)
      ensures result.Some? ==> exists n :: TakenByType(old(Value()), Value(), part, result.value, n)
    {
      var rest := lsml.Keys;
      while rest != {}
        invariant Value() == old(Value())
        invariant forall n :: n in lsml && n !in rest ==> !Suits(Value(), part, n)
        decreases rest
      {
        var name :| name in rest;
        rest := rest - {name};
        E.EligibleIs(Value(), part, name);
        if name in lsml && Find(name, part).Some? && name in lscs && lscs[name] != S.MAX_INT {
          assert S.Eligible(old(Value()), part, name);
          lscs := lscs[name := lscs[name] + 1];
          var server := lsml[name];
          result := Some(server.(health := server.health.(currentCalls := lscs[name])));
          assert TakenByType(old(Value()), Value(), part, result.value, name);
          return;
        }
      }
      return None;
    }

    /** The first locked section of a health check: every server once, in an unspecified order. */
    method SnapshotTargets() returns (targets: seq<string>)
      ensures T.Enumerates(targets, lsml.Keys)
    {
      targets := [];
      var rest := lsml.Keys;
      while rest != {}
        invariant rest <= lsml.Keys
        invariant T.Enumerates(targets, lsml.Keys - rest)
        decreases rest
      {
        var name :| name in rest;
        rest := rest - {name};
        T.DistinctSnoc(targets, name);
        targets := targets + [name];
      }
    }

    /** The second locked section of a health check; the probes ran without the lock. */
    method ApplyHealthResults(names: seq<string>, probes: seq<S.Probe>)
      requires |names| == |probes|
      modifies this`lsml, this`lscs
      ensures Value() == S.ApplyProbes(old(Value()), names, probes)
    {
      var i := 0;
      while i < |names|
        invariant 0 <= i <= |names|
        invariant Value() == S.ApplyProbes(old(Value()), names[..i], probes[..i])
      {
        assert names[..i + 1][..i] == names[..i] && probes[..i + 1][..i] == probes[..i];
        var name := names[i];
        if name in lsml {
          match probes[i]
          case Failed(error, at) =>
            lsml := lsml[name := lsml[name].(health := S.Health("unhealthy", 0, 0, 0, 0, at, error))];
            lscs := lscs[name := S.MAX_INT];
          case Healthy(health) =>
            lsml := lsml[name := lsml[name].(health := health)];
            lscs := lscs[name := health.currentCalls];
        }
        i := i + 1;
      }
      assert names[..i] == names && probes[..i] == probes;
    }
  }

  class Handlers {
    const balancer: Balancer
    var redis: Restart.Redis

    ghost function Value(): Restart.Store
      reads this, balancer
    {
      Restart.Store(redis, balancer.Value())
    }

    constructor (balancer: Balancer, redis: Restart.Redis)
      ensures this.balancer == balancer && this.redis == redis
    {
      this.balancer, this.redis := balancer, redis;
    }

    method RegisterContainer(r: Restart.Request, readOk: bool, writeOk: bool) returns (status: int)
      requires r.RegisterRequest?
      modifies this, balancer
      ensures (status, Value()) == Restart.Handle(old(Value()), r, readOk, writeOk)
      ensures status == if writeOk then 200 else 503
      ensures !writeOk ==> redis == old(redis)
      ensures writeOk ==> r.name in redis && redis == old(redis)[r.name := redis[r.name]]
      ensures writeOk ==>
        E.StoredFor(redis[r.name], r, if readOk && r.name in old(redis) then Some(old(redis)[r.name]) else None)
    {
      var finalPort := r.port;
      if Restart.DockerInternal(r.host) {
        finalPort := Restart.DOCKER_PORT;
      }
      var inboundEnabled, outboundEnabled := false, false;
      if readOk && r.name in redis {
        inboundEnabled := redis[r.name].inboundEnabled;
        outboundEnabled := redis[r.name].outboundEnabled;
      }
      var reg := S.Registration(r.name, r.host, finalPort, r.aor, r.contactUri, inboundEnabled, outboundEnabled);
      if !writeOk {
        return 503;
      }
      redis := redis[r.name := reg];
      balancer.RegisterServer(reg, r.now);
      return 200;
    }

    method UnregisterContainer(name: string, deleteOk: bool) returns (status: int)
      modifies this, balancer
      ensures (status, Value()) == Restart.Handle(old(Value()), Restart.UnregisterRequest(name), true, deleteOk)
    {
      if name == "" {
        return 400;
      }
      if !deleteOk {
        return 503;
      }
      if name !in redis {
        return 404;
      }
      redis := redis - {name};
      balancer.UnregisterServer(name);
      return 200;
    }

    method ToggleContainer(name: string, inbound: Option<bool>, outbound: Option<bool>, readOk: bool, writeOk: bool)
      returns (status: int)
      modifies this, balancer
      ensures (status, Value())
           == Restart.Handle(old(Value()), Restart.ToggleRequest(name, inbound, outbound), readOk, writeOk)
    {
      if name == "" {
        return 400;
      }
      if !readOk || name !in redis {
        return 404;
      }
      var reg := redis[name];
      if inbound.Some? {
        reg := reg.(inboundEnabled := inbound.value);
      }
      if outbound.Some? {
        reg := reg.(outboundEnabled := outbound.value);
      }
      if writeOk {
        redis := redis[name := reg];
      }
      var _ := balancer.ToggleServer(name, inbound, outbound);
      return 200;
    }
  }
}
