/**
 The registration handlers over Redis (a map from container name to registration) and the
 in-memory registry, run one at a time (`Service` interleaves them).  The flags `readOk` and
 `writeOk` are the outcomes of the Redis calls; a failed write changes nothing in Redis.
 */
module Restart {
  import opened Common
  import opened RegistryState
  import opened RegistryTheorems

  const DOCKER_PORT := 8086

  type Redis = map<string, Registration>

  datatype Store = Store(redis: Redis, state: State)

  datatype Request =
    | RegisterRequest(name: string, host: string, port: int, aor: string, contactUri: string, now: int)
    | UnregisterRequest(name: string)
    | ToggleRequest(name: string, inbound: Option<bool>, outbound: Option<bool>)

  predicate DockerInternal(host: string) {
    "172." <= host || "10." <= host || "192.168." <= host
  }

  /** What a handler gets to see of a key. */
  function Look(redis: Redis, name: string, readOk: bool): Option<Registration> {
    if readOk && name in redis then Some(redis[name]) else None
  }

  /** What a registration stores: enabled flags survive a re-registration that finds them. */
  function Registered(r: Request, found: Option<Registration>): Registration
    requires r.RegisterRequest?
  {
    Registration(r.name, r.host, if DockerInternal(r.host) then DOCKER_PORT else r.port, r.aor, r.contactUri,
                 found.Some? && found.value.inboundEnabled, found.Some? && found.value.outboundEnabled)
  }

  /** One handler: the HTTP status and the new store. A toggle ignores a failed write. */
  function Handle(s: Store, r: Request, readOk: bool, writeOk: bool): (int, Store) {
    match r
    case RegisterRequest(name, _, _, _, _, now) =>
      if !writeOk then (503, s) else
        var reg := Registered(r, Look(s.redis, r.name, readOk));
        (200, Store(s.redis[name := reg], Register(s.state, reg, now)))
    case UnregisterRequest(name) =>
      if name == "" then (400, s)
      else if !writeOk then (503, s)
      else if name !in s.redis then (404, s)
      else (200, Store(s.redis - {name}, Unregister(s.state, name)))
    case ToggleRequest(name, inbound, outbound) =>
      if name == "" then (400, s)
      else if !readOk || name !in s.redis then (404, s)
      else
        (200, Store(if writeOk then s.redis[name := Toggled(s.redis[name], inbound, outbound)] else s.redis,
                    Toggle(s.state, name, inbound, outbound)))
  }

  /** Redis and memory hold the same registrations under the same names. */
  ghost predicate InSync(s: Store) {
    && s.redis.Keys == s.state.lsml.Keys
    && forall n :: n in s.redis ==> s.redis[n].name == n && s.state.lsml[n].reg == s.redis[n]
  }

  /** The one write nobody checks: a toggle that changes a flag while Redis refuses the update. */
  predicate LostToggle(s: Store, r: Request, readOk: bool, writeOk: bool) {
    && r.ToggleRequest? && r.name != "" && readOk && !writeOk && r.name in s.redis
    && Toggled(s.redis[r.name], r.inbound, r.outbound) != s.redis[r.name]
  }

  /** A handler keeps Redis and memory in step exactly when it is not such a toggle. */
  lemma HandleKeepsSync(s: Store, r: Request, readOk: bool, writeOk: bool)
    requires InSync(s)
    ensures InSync(Handle(s, r, readOk, writeOk).1) <==> !LostToggle(s, r, readOk, writeOk)
  {
    var t := Handle(s, r, readOk, writeOk).1;
    match r
    case RegisterRequest(name, _, _, _, _, _) =>
      assert t.redis.Keys == t.state.lsml.Keys;
    case UnregisterRequest(name) =>
      assert t.redis.Keys == t.state.lsml.Keys;
    case ToggleRequest(name, inbound, outbound) =>
      assert t.redis.Keys == t.state.lsml.Keys;
      if LostToggle(s, r, readOk, writeOk) {
        assert t.state.lsml[name].reg == Toggled(s.redis[name], inbound, outbound);
        assert t.redis[name] == s.redis[name];
      }
  }

  lemma HandleAgrees(s: Store, r: Request, readOk: bool, writeOk: bool)
    requires Agreement(s.state)
    ensures Agreement(Handle(s, r, readOk, writeOk).1.state)
  {
    match r
    case RegisterRequest(_, _, _, _, _, now) =>
      RegisterAgrees(s.state, Registered(r, Look(s.redis, r.name, readOk)), now);
    case UnregisterRequest(name) =>
      UnregisterAgrees(s.state, name);
    case ToggleRequest(name, inbound, outbound) =>
      ToggleAgrees(s.state, name, inbound, outbound);
  }

  datatype Call = Call(request: Request, readOk: bool, writeOk: bool)

  function HandleAll(s: Store, calls: seq<Call>): Store
    decreases |calls|
  {
    if calls == [] then s else
      HandleAll(Handle(s, calls[0].request, calls[0].readOk, calls[0].writeOk).1, calls[1..])
  }

  /** Every write that a toggle attempts succeeds. */
  predicate TogglesStored(calls: seq<Call>) {
    forall c :: c in calls && c.request.ToggleRequest? ==> c.writeOk
  }

  lemma {:induction false} HandleAllKeeps(s: Store, calls: seq<Call>)
    requires InSync(s) && Agreement(s.state) && TogglesStored(calls)
    ensures InSync(HandleAll(s, calls)) && Agreement(HandleAll(s, calls).state)
    decreases |calls|
  {
    if calls != [] {
      var c := calls[0];
      HandleKeepsSync(s, c.request, c.readOk, c.writeOk);
      HandleAgrees(s, c.request, c.readOk, c.writeOk);
      assert c in calls && forall d :: d in calls[1..] ==> d in calls;
      HandleAllKeeps(Handle(s, c.request, c.readOk, c.writeOk).1, calls[1..]);
    }
  }

  predicate Stores(redis: Redis, reg: Registration) {
    reg.name in redis && redis[reg.name] == reg
  }

  /** A scan of Redis: keys in any order, none twice; `None` is a read that failed. */
  predicate ScanFrom(scan: seq<Option<Registration>>, redis: Redis) {
    && (forall i :: 0 <= i < |scan| && scan[i].Some? ==> Stores(redis, scan[i].value))
    && (forall i, j :: 0 <= i < j < |scan| && scan[i].Some? ==> scan[i] != scan[j])
  }

  /** Every key was read. */
  predicate ScanOf(scan: seq<Option<Registration>>, redis: Redis) {
    ScanFrom(scan, redis) && forall n :: n in redis ==> Some(redis[n]) in scan
  }

  /** What a load knows of a name comes from the scan. */
  lemma {:induction false} LoadFound(scan: seq<Option<Registration>>, now: int, name: string)
    requires name in InitFrom(scan, now).lsml
    ensures Some(InitFrom(scan, now).lsml[name].reg) in scan
    ensures InitFrom(scan, now).lsml[name].health == Health("unknown", 0, 0, 0, 0, now, "")
  {
    var n := |scan| - 1;
    if scan[n].None? || name != scan[n].value.name {
      LoadFound(scan[..n], now, name);
      assert scan == scan[..n] + [scan[n]];
    } else {
      assert scan[n] == Some(InitFrom(scan, now).lsml[name].reg);
    }
  }

  /** Every entry of the scan is known after the load. */
  lemma {:induction false} LoadKnows(scan: seq<Option<Registration>>, now: int, i: nat)
    requires i < |scan| && scan[i].Some?
    ensures scan[i].value.name in InitFrom(scan, now).lsml
  {
    var n := |scan| - 1;
    if i < n {
      LoadKnows(scan[..n], now, i);
    }
  }

  /**
   From any agreeing start, after any handlers whose toggles reached Redis, a restart from a
   scan of Redis gives the same registrations and the same enabled servers, each once, starts
   every count at `MAX_INT`, and is such a start again.
   */
  lemma RestartIsTransparent(s: Store, calls: seq<Call>, scan: seq<Option<Registration>>, now: int)
    requires InSync(s) && Agreement(s.state) && TogglesStored(calls)
    requires ScanOf(scan, HandleAll(s, calls).redis)
    ensures var before, after := HandleAll(s, calls), InitFrom(scan, now);
      && InSync(Store(before.redis, after)) && Agreement(after)
      && after.lsml.Keys == before.state.lsml.Keys
      && (forall n :: n in after.lsml ==>
            && after.lsml[n].reg == before.state.lsml[n].reg
            && after.lsml[n].health == Health("unknown", 0, 0, 0, 0, now, "")
            && after.lscs[n] == MAX_INT)
      && (forall n :: n in after.inbound <==> n in before.state.inbound)
      && (forall n :: n in after.outbound <==> n in before.state.outbound)
  {
    var end, after := HandleAll(s, calls), InitFrom(scan, now);
    HandleAllKeeps(s, calls);
    ScanIsClean(scan, end.redis);
    InitExact(scan, now);
    LoadKeeps(scan, now);
    RestartRegistrations(scan, now, end.redis);
    assert after.lsml.Keys == end.redis.Keys;
    forall n | n in after.lsml
      ensures after.lsml[n].health == Health("unknown", 0, 0, 0, 0, now, "")
    {
      LoadFound(scan, now, n);
    }
    SameArrays(after, end.state);
  }

  lemma SameArrays(s: State, t: State)
    requires Agreement(s) && Agreement(t) && s.lsml.Keys == t.lsml.Keys
    requires forall n :: n in s.lsml ==> s.lsml[n].reg == t.lsml[n].reg
    ensures forall n :: n in s.inbound <==> n in t.inbound
    ensures forall n :: n in s.outbound <==> n in t.outbound
  {
  }

  lemma ScanIsClean(scan: seq<Option<Registration>>, redis: Redis)
    requires ScanFrom(scan, redis)
    ensures Clean(scan)
  {
    forall i, j | 0 <= i < j < |scan| && scan[i].Some? && scan[j].Some?
      ensures scan[i].value.name != scan[j].value.name
    {
      assert scan[i] != scan[j];
    }
  }

  predicate Keyed(redis: Redis) {
    forall n :: n in redis ==> redis[n].name == n
  }

  /** A restart knows exactly the keys that were read, as Redis holds them. */
  lemma RestartRegistrations(scan: seq<Option<Registration>>, now: int, redis: Redis)
    requires Keyed(redis) && ScanFrom(scan, redis)
    ensures var after := InitFrom(scan, now);
      && (forall n :: n in after.lsml <==> n in redis && Some(redis[n]) in scan)
      && (forall n :: n in after.lsml ==> after.lsml[n].reg == redis[n])
  {
    LoadKeeps(scan, now);
    var after := InitFrom(scan, now);
    forall n | n in after.lsml
      ensures n in redis && after.lsml[n].reg == redis[n] && Some(redis[n]) in scan
    {
      var reg := after.lsml[n].reg;
      LoadFound(scan, now, n);
      var i :| 0 <= i < |scan| && scan[i] == Some(reg);
      assert Stores(redis, scan[i].value);
    }
    forall n | n in redis && Some(redis[n]) in scan
      ensures n in after.lsml
    {
      var i :| 0 <= i < |scan| && scan[i] == Some(redis[n]);
      LoadKnows(scan, now, i);
    }
  }
}
