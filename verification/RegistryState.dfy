/**
 The load balancer's in-memory registry as functions on values: server metadata (LSML), call
 counts (LSCS, with `MAX_INT` for "unhealthy") and the two arrays of enabled servers.
 */
module RegistryState {
  import opened Common
  import opened Strings

  const MAX_INT: int := 0x7FFF_FFFF_FFFF_FFFF

  type Count = c: int | -0x8000_0000_0000_0000 <= c <= 0x7FFF_FFFF_FFFF_FFFF

  datatype Registration = Registration(
    name: string, host: string, port: int, aor: string, contactUri: string,
    inboundEnabled: bool, outboundEnabled: bool)

  datatype Health = Health(
    status: string, answeredCalls: Count, currentCalls: Count, maxCalls: Count,
    availableCapacity: Count, timestamp: int, error: string)

  datatype Metadata = Metadata(reg: Registration, health: Health)

  datatype State = State(
    lsml: map<string, Metadata>, lscs: map<string, Count>, inbound: seq<string>, outbound: seq<string>)

  datatype RouteResult =
    | Routed(server: Metadata)
    | NoContainers
    | NoHealthy
    | Missing(name: string)

  /** The outcome of probing one server. */
  datatype Probe = Failed(error: string, at: int) | Healthy(health: Health)

  function DefaultHealth(now: int): Health {
    Health("unknown", 0, 0, 0, 0, now, "")
  }

  function Empty(): State {
    State(map[], map[], [], [])
  }

  function Servers(s: State, inbound: bool): seq<string> {
    if inbound then s.inbound else s.outbound
  }

  // ---- initial load ----

  /** One scanned key; `None` is a read or a decoding error. */
  function Load(s: State, entry: Option<Registration>, now: int): State {
    if entry.None? then s else
      var reg := entry.value;
      State(s.lsml[reg.name := Metadata(reg, DefaultHealth(now))],
            s.lscs[reg.name := MAX_INT],
            if reg.inboundEnabled then s.inbound + [reg.name] else s.inbound,
            if reg.outboundEnabled then s.outbound + [reg.name] else s.outbound)
  }

  function InitFrom(scan: seq<Option<Registration>>, now: int): State {
    if scan == [] then Empty() else
      Load(InitFrom(scan[..|scan| - 1], now), scan[|scan| - 1], now)
  }

  // ---- registration ----

  function Remove(list: seq<string>, name: string): seq<string> {
    if list == [] then []
    else if list[0] == name then list[1..]
    else [list[0]] + Remove(list[1..], name)
  }

  /** Add a name that is on and absent, remove the first occurrence of one that is off. */
  function Sync(list: seq<string>, name: string, on: bool): seq<string> {
    if on && name !in list then list + [name]
    else if !on then Remove(list, name)
    else list
  }

  function UpdateArrays(s: State, name: string, inbound: bool, outbound: bool): State {
    s.(inbound := Sync(s.inbound, name, inbound), outbound := Sync(s.outbound, name, outbound))
  }

  /** A server that is already known keeps its name, health and call count. */
  function Register(s: State, reg: Registration, now: int): State {
    var name := reg.name;
    var stored :=
      if name in s.lsml then
        s.(lsml := s.lsml[name := s.lsml[name].(reg := reg.(name := s.lsml[name].reg.name))])
      else
        s.(lsml := s.lsml[name := Metadata(reg, DefaultHealth(now))], lscs := s.lscs[name := MAX_INT]);
    UpdateArrays(stored, name, reg.inboundEnabled, reg.outboundEnabled)
  }

  function Unregister(s: State, name: string): State {
    UpdateArrays(s.(lsml := s.lsml - {name}, lscs := s.lscs - {name}), name, false, false)
  }

  function Flag(current: bool, change: Option<bool>): bool {
    if change.Some? then change.value else current
  }

  function Toggled(reg: Registration, inbound: Option<bool>, outbound: Option<bool>): Registration {
    reg.(inboundEnabled := Flag(reg.inboundEnabled, inbound),
         outboundEnabled := Flag(reg.outboundEnabled, outbound))
  }

  /** An unknown server is an error and changes nothing. */
  function Toggle(s: State, name: string, inbound: Option<bool>, outbound: Option<bool>): State {
    if name !in s.lsml then s else
      var reg := Toggled(s.lsml[name].reg, inbound, outbound);
      UpdateArrays(s.(lsml := s.lsml[name := s.lsml[name].(reg := reg)]), name,
                   reg.inboundEnabled, reg.outboundEnabled)
  }

  // ---- routing ----

  /** Position `k` holds the first of the least loaded healthy servers among `names`. */
  predicate IsBest(names: seq<string>, lscs: map<string, Count>, k: nat) {
    && k < |names| && names[k] in lscs && lscs[names[k]] < MAX_INT
    && (forall i :: 0 <= i < |names| && names[i] in lscs ==> lscs[names[k]] <= lscs[names[i]])
    && (forall i :: 0 <= i < k && names[i] in lscs ==> lscs[names[k]] < lscs[names[i]])
  }

  function Best(names: seq<string>, lscs: map<string, Count>): (r: Option<nat>)
    ensures r.Some? ==> IsBest(names, lscs, r.value)
    ensures r.None? ==> forall n :: n in names && n in lscs ==> lscs[n] == MAX_INT
  {
    if names == [] then None else
      var last := |names| - 1;
      var before := Best(names[..last], lscs);
      assert names == names[..last] + [names[last]];
      if names[last] in lscs
         && lscs[names[last]] < (if before.Some? then lscs[names[before.value]] else MAX_INT)
      then Some(last) else before
  }

  function Bump(s: State, name: string): State
    requires name in s.lscs && s.lscs[name] < MAX_INT
  {
    s.(lscs := s.lscs[name := s.lscs[name] + 1])
  }

  function Shown(s: State, name: string): Metadata
    requires name in s.lsml && name in s.lscs
  {
    var meta := s.lsml[name];
    meta.(health := meta.health.(currentCalls := s.lscs[name]))
  }

  datatype Routing = Routing(state: State, result: RouteResult)

  /** The empty name doubles as "nothing found". */
  function Route(s: State, inbound: bool): Routing {
    var names := Servers(s, inbound);
    var best := Best(names, s.lscs);
    if names == [] then Routing(s, NoContainers)
    else if best.None? || names[best.value] == "" then Routing(s, NoHealthy)
    else
      var name := names[best.value];
      var bumped := Bump(s, name);
      Routing(bumped, if name in s.lsml then Routed(Shown(bumped, name)) else Missing(name))
  }

  /** Any such server may be the one `FindContainerByType` meets first. */
  predicate Eligible(s: State, part: string, name: string) {
    name in s.lsml && Find(name, part).Some? && name in s.lscs && s.lscs[name] != MAX_INT
  }

  // ---- health ----

  function ApplyProbe(s: State, name: string, probe: Probe): State {
    if name !in s.lsml then s else
      match probe
      case Failed(error, at) =>
        s.(lsml := s.lsml[name := s.lsml[name].(health := Health("unhealthy", 0, 0, 0, 0, at, error))],
           lscs := s.lscs[name := MAX_INT])
      case Healthy(health) =>
        s.(lsml := s.lsml[name := s.lsml[name].(health := health)],
           lscs := s.lscs[name := health.currentCalls])
  }

  function ApplyProbes(s: State, names: seq<string>, probes: seq<Probe>): State
    requires |names| == |probes|
  {
    if names == [] then s else
      var n := |names| - 1;
      ApplyProbe(ApplyProbes(s, names[..n], probes[..n]), names[n], probes[n])
  }

  // ---- agreement ----

  predicate Distinct(names: seq<string>) {
    forall i, j :: 0 <= i < j < |names| ==> names[i] != names[j]
  }

  /** Both maps know the same servers, and each array holds exactly the servers with its flag on, once. */
  ghost predicate Agreement(s: State) {
    && s.lsml.Keys == s.lscs.Keys
    && (forall n :: n in s.lsml ==> s.lsml[n].reg.name == n)
    && Distinct(s.inbound) && Distinct(s.outbound)
    && (forall n :: n in s.inbound <==> n in s.lsml && s.lsml[n].reg.inboundEnabled)
    && (forall n :: n in s.outbound <==> n in s.lsml && s.lsml[n].reg.outboundEnabled)
  }
}
