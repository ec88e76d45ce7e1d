/**
 What one registry operation and one handler leave, field by field, without the functions that
 compute it.
 */
module RegistryEffects {
  import opened Common
  import opened Strings
  import opened RegistryState
  import opened RegistryTheorems
  import opened Restart

  // ---- the arrays ----

  /** A name that is on stays where it is or comes last; one that is off is cut out. */
  predicate Placed(before: seq<string>, after: seq<string>, name: string, on: bool) {
    if on then after == (if name in before then before else before + [name])
    else if name !in before then after == before
    else exists i :: 0 <= i < |before| && before[i] == name && after == before[..i] + before[i + 1..]
  }

  lemma {:induction false} RemoveAt(list: seq<string>, name: string, idx: nat)
    requires idx < |list| && list[idx] == name && name !in list[..idx]
    ensures Remove(list, name) == list[..idx] + list[idx + 1..]
  {
    if idx > 0 {
      assert list[0] == list[..idx][0];
      assert list[1..][..idx - 1] == list[..idx][1..];
      RemoveAt(list[1..], name, idx - 1);
    }
  }

  lemma {:induction false} RemoveNone(list: seq<string>, name: string)
    requires name !in list
    ensures Remove(list, name) == list
  {
    if list != [] {
      RemoveNone(list[1..], name);
    }
  }

  /** The first place of a name. */
  function FirstOf(list: seq<string>, name: string): (i: nat)
    requires name in list
    ensures i < |list| && list[i] == name && name !in list[..i]
  {
    if list[0] == name then 0 else
      var i := FirstOf(list[1..], name);
      assert list[..i + 1] == [list[0]] + list[1..][..i];
      i + 1
  }

  lemma SyncPlaces(list: seq<string>, name: string, on: bool)
    ensures Placed(list, Sync(list, name, on), name, on)
  {
    if name in list {
      RemoveAt(list, name, FirstOf(list, name));
    } else {
      RemoveNone(list, name);
    }
  }

  // ---- one operation ----

  const NEVER_PROBED: int := 0x7FFF_FFFF_FFFF_FFFF

  /** Nothing about servers other than `name` changes in the two maps. */
  ghost predicate OnlyAbout(s: State, t: State, name: string) {
    && (forall n :: n != name ==> (n in t.lsml <==> n in s.lsml) && (n in t.lscs <==> n in s.lscs))
    && (forall n :: n != name && n in t.lsml ==> t.lsml[n] == s.lsml[n])
    && (forall n :: n != name && n in t.lscs ==> t.lscs[n] == s.lscs[n])
  }

  /** A known server keeps its health and count; a new one is unknown and takes no calls yet. */
  lemma RegisterEffect(s: State, reg: Registration, now: int)
    requires Agreement(s)
    ensures var t, n := Register(s, reg, now), reg.name;
      && OnlyAbout(s, t, n) && n in t.lsml && n in t.lscs && t.lsml[n].reg == reg
      && t.lsml[n].health == (if n in s.lsml then s.lsml[n].health else Health("unknown", 0, 0, 0, 0, now, ""))
      && t.lscs[n] == (if n in s.lscs then s.lscs[n] else NEVER_PROBED)
      && Placed(s.inbound, t.inbound, n, reg.inboundEnabled) && Placed(s.outbound, t.outbound, n, reg.outboundEnabled)
  {
    SyncPlaces(s.inbound, reg.name, reg.inboundEnabled);
    SyncPlaces(s.outbound, reg.name, reg.outboundEnabled);
  }

  lemma UnregisterEffect(s: State, name: string)
    ensures var t := Unregister(s, name);
      && OnlyAbout(s, t, name) && name !in t.lsml && name !in t.lscs
      && Placed(s.inbound, t.inbound, name, false) && Placed(s.outbound, t.outbound, name, false)
  {
    SyncPlaces(s.inbound, name, false);
    SyncPlaces(s.outbound, name, false);
  }

  /** Two registrations that differ at most in their flags. */
  predicate SameButFlags(a: Registration, b: Registration) {
    a.name == b.name && a.host == b.host && a.port == b.port && a.aor == b.aor && a.contactUri == b.contactUri
  }

  /** A flag that is given is set, one that is not stays. */
  predicate FlagsSet(before: Registration, after: Registration, inbound: Option<bool>, outbound: Option<bool>) {
    && SameButFlags(before, after)
    && (inbound == Some(true) ==> after.inboundEnabled) && (inbound == Some(false) ==> !after.inboundEnabled)
    && (inbound == None ==> after.inboundEnabled == before.inboundEnabled)
    && (outbound == Some(true) ==> after.outboundEnabled) && (outbound == Some(false) ==> !after.outboundEnabled)
    && (outbound == None ==> after.outboundEnabled == before.outboundEnabled)
  }

  lemma ToggledSets(reg: Registration, inbound: Option<bool>, outbound: Option<bool>)
    ensures FlagsSet(reg, Toggled(reg, inbound, outbound), inbound, outbound)
  {
  }

  lemma ToggleEffect(s: State, name: string, inbound: Option<bool>, outbound: Option<bool>)
    ensures var t := Toggle(s, name, inbound, outbound);
      if name !in s.lsml then t == s else
        && OnlyAbout(s, t, name) && t.lscs == s.lscs
        && name in t.lsml && t.lsml[name].health == s.lsml[name].health
        && FlagsSet(s.lsml[name].reg, t.lsml[name].reg, inbound, outbound)
        && Placed(s.inbound, t.inbound, name, t.lsml[name].reg.inboundEnabled)
        && Placed(s.outbound, t.outbound, name, t.lsml[name].reg.outboundEnabled)
  {
    if name in s.lsml {
      var reg := Toggled(s.lsml[name].reg, inbound, outbound);
      SyncPlaces(s.inbound, name, reg.inboundEnabled);
      SyncPlaces(s.outbound, name, reg.outboundEnabled);
    }
  }

  /** What a caller is shown of a server that was given a call, and what changes: its count, by one. */
  ghost predicate GivenCall(s: State, t: State, name: string, shown: Metadata) {
    && name in s.lsml && name in s.lscs && s.lscs[name] < NEVER_PROBED
    && t.lsml == s.lsml && t.inbound == s.inbound && t.outbound == s.outbound
    && OnlyAbout(s, t, name) && name in t.lscs && t.lscs[name] == s.lscs[name] + 1
    && shown.reg == s.lsml[name].reg && shown.health.currentCalls == s.lscs[name] + 1
    && shown.health.status == s.lsml[name].health.status && shown.health.error == s.lsml[name].health.error
    && shown.health.answeredCalls == s.lsml[name].health.answeredCalls
    && shown.health.maxCalls == s.lsml[name].health.maxCalls
    && shown.health.availableCapacity == s.lsml[name].health.availableCapacity
    && shown.health.timestamp == s.lsml[name].health.timestamp
  }

  /**
   A route gives the call to the first of the least loaded servers enabled for the direction, or to
   none, and then nothing changes.
   */
  lemma RouteEffect(s: State, inbound: bool)
    requires Agreement(s)
    ensures var r, names := Route(s, inbound), if inbound then s.inbound else s.outbound;
      match r.result
      case Routed(shown) =>
        exists k :: 0 <= k < |names| && GivenCall(s, r.state, names[k], shown)
          && (forall i :: 0 <= i < |names| && names[i] in s.lscs ==> s.lscs[names[k]] <= s.lscs[names[i]])
          && (forall i :: 0 <= i < k && names[i] in s.lscs ==> s.lscs[names[k]] < s.lscs[names[i]])
      case _ => r.state == s
  {
    RouteCases(s, inbound);
    var names, r := Servers(s, inbound), Route(s, inbound);
    if r.result.Routed? {
      var k := Best(names, s.lscs).value;
      assert names[k] in names;
      assert GivenCall(s, r.state, names[k], r.result.server);
    }
  }

  /** Part of the name, known, and with a real count. */
  lemma EligibleIs(s: State, part: string, name: string)
    ensures Eligible(s, part, name) <==>
      && name in s.lsml && name in s.lscs && s.lscs[name] < NEVER_PROBED
      && exists i: nat :: At(name, part, i)
  {
  }

  /** After a health check: what the probe of a server still known says, and nothing about the others. */
  predicate Probed(before: State, after: State, name: string, probe: Probe) {
    name in before.lsml ==>
      && name in after.lsml && name in after.lscs && after.lsml[name].reg == before.lsml[name].reg
      && match probe
         case Failed(error, at) =>
           after.lscs[name] == NEVER_PROBED && after.lsml[name].health == Health("unhealthy", 0, 0, 0, 0, at, error)
         case Healthy(health) =>
           after.lscs[name] == health.currentCalls && after.lsml[name].health == health
  }

  /** A server not probed is as before. */
  predicate Untouched(before: State, after: State, n: string) {
    && (n in before.lsml ==> n in after.lsml && after.lsml[n] == before.lsml[n])
    && (n in after.lscs <==> n in before.lscs) && (n in before.lscs ==> after.lscs[n] == before.lscs[n])
  }

  lemma ProbeEffect(s: State, name: string, probe: Probe)
    ensures var t := ApplyProbe(s, name, probe);
      && t.lsml.Keys == s.lsml.Keys && t.inbound == s.inbound && t.outbound == s.outbound
      && Probed(s, t, name, probe)
      && forall n :: n != name || n !in s.lsml ==> Untouched(s, t, n)
  {
  }

  lemma {:induction false} ProbesEffect(s: State, names: seq<string>, probes: seq<Probe>)
    requires |names| == |probes| && Distinct(names)
    ensures var t := ApplyProbes(s, names, probes);
      && t.lsml.Keys == s.lsml.Keys && t.inbound == s.inbound && t.outbound == s.outbound
      && (forall i :: 0 <= i < |names| ==> Probed(s, t, names[i], probes[i]))
      && (forall n :: n !in names || n !in s.lsml ==> Untouched(s, t, n))
  {
    if names != [] {
      var k := |names| - 1;
      var before, t := ApplyProbes(s, names[..k], probes[..k]), ApplyProbes(s, names, probes);
      ProbesEffect(s, names[..k], probes[..k]);
      ProbeEffect(before, names[k], probes[k]);
      assert names == names[..k] + [names[k]];
      forall i | 0 <= i < |names|
        ensures Probed(s, t, names[i], probes[i])
      {
        if i < k {
          assert names[..k][i] == names[i] && Probed(s, before, names[..k][i], probes[..k][i]);
          assert Untouched(before, t, names[i]);
        } else {
          StillKnown(s, before, names[..k], names[k]);
        }
      }
      forall n | n !in names || n !in s.lsml
        ensures Untouched(s, t, n)
      {
        assert Untouched(s, before, n) && Untouched(before, t, n);
      }
    }
  }

  /** A server not yet probed still has its registration. */
  lemma StillKnown(s: State, before: State, names: seq<string>, name: string)
    requires name !in names && forall n :: n !in names || n !in s.lsml ==> Untouched(s, before, n)
    ensures name in s.lsml ==> name in before.lsml && before.lsml[name] == s.lsml[name]
  {
    assert Untouched(s, before, name);
  }

  // ---- one handler ----

  predicate Begins(s: string, prefix: string) {
    |prefix| <= |s| && s[..|prefix|] == prefix
  }

  /** What a registration may store, given what it found under its key. */
  predicate StoredFor(reg: Registration, r: Request, found: Option<Registration>)
    requires r.RegisterRequest?
  {
    && reg.name == r.name && reg.host == r.host && reg.aor == r.aor && reg.contactUri == r.contactUri
    && (Begins(r.host, "172.") || Begins(r.host, "10.") || Begins(r.host, "192.168.") ==> reg.port == 8086)
    && (!Begins(r.host, "172.") && !Begins(r.host, "10.") && !Begins(r.host, "192.168.") ==> reg.port == r.port)
    && (found.Some? ==>
          reg.inboundEnabled == found.value.inboundEnabled && reg.outboundEnabled == found.value.outboundEnabled)
    && (found.None? ==> !reg.inboundEnabled && !reg.outboundEnabled)
  }

  lemma RegisteredFor(r: Request, found: Option<Registration>)
    requires r.RegisterRequest?
    ensures StoredFor(Registered(r, found), r, found)
  {
  }

  /** A registration is refused only if Redis refuses it; otherwise it is stored, its flags as they were. */
  lemma RegisterResult(s: Store, r: Request, readOk: bool, writeOk: bool)
    requires r.RegisterRequest? && Agreement(s.state)
    ensures var (status, t) := Handle(s, r, readOk, writeOk);
      if !writeOk then status == 503 && t == s else
        && status == 200 && r.name in t.redis && t.redis == s.redis[r.name := t.redis[r.name]]
        && StoredFor(t.redis[r.name], r, if readOk && r.name in s.redis then Some(s.redis[r.name]) else None)
        && r.name in t.state.lsml && t.state.lsml[r.name].reg == t.redis[r.name]
        && OnlyAbout(s.state, t.state, r.name)
  {
    if writeOk {
      var reg := Registered(r, Look(s.redis, r.name, readOk));
      RegisteredFor(r, Look(s.redis, r.name, readOk));
      RegisterEffect(s.state, reg, r.now);
    }
  }

  /** A server that registers again, its key being read, stays in the arrays it was in; a new one is in none. */
  lemma RegisterKeepsArrays(s: Store, r: Request, readOk: bool)
    requires r.RegisterRequest? && Agreement(s.state) && InSync(s)
    ensures var t := Handle(s, r, readOk, true).1;
      && (readOk && r.name in s.redis ==> t.state.inbound == s.state.inbound && t.state.outbound == s.state.outbound)
      && (!readOk || r.name !in s.redis ==> r.name !in t.state.inbound && r.name !in t.state.outbound)
      && (forall n :: n != r.name ==> (n in t.state.inbound <==> n in s.state.inbound))
      && (forall n :: n != r.name ==> (n in t.state.outbound <==> n in s.state.outbound))
  {
    var found := Look(s.redis, r.name, readOk);
    var reg := Registered(r, found);
    RegisteredFor(r, found);
    RegisterEffect(s.state, reg, r.now);
    RegisterAgrees(s.state, reg, r.now);
    HandleKeepsSync(s, r, readOk, true);
    if found.Some? {
      assert r.name in s.state.lsml && s.state.lsml[r.name].reg == found.value;
    }
  }

  /** A removal: every status has its reason, and only 200 changes anything. */
  lemma UnregisterResult(s: Store, name: string, deleteOk: bool)
    ensures var (status, t) := Handle(s, UnregisterRequest(name), true, deleteOk);
      if name == "" then status == 400 && t == s
      else if !deleteOk then status == 503 && t == s
      else if name !in s.redis then status == 404 && t == s
      else
        && status == 200 && t.redis == s.redis - {name} && name !in t.state.lsml && name !in t.state.lscs
        && OnlyAbout(s.state, t.state, name)
        && Placed(s.state.inbound, t.state.inbound, name, false)
        && Placed(s.state.outbound, t.state.outbound, name, false)
  {
    UnregisterEffect(s.state, name);
  }

  /** A toggle: the flags given, in Redis if it takes them, and in memory. */
  lemma ToggleResult(s: Store, name: string, inbound: Option<bool>, outbound: Option<bool>, readOk: bool, writeOk: bool)
    ensures var (status, t) := Handle(s, ToggleRequest(name, inbound, outbound), readOk, writeOk);
      if name == "" then status == 400 && t == s
      else if !readOk || name !in s.redis then status == 404 && t == s
      else
        && status == 200 && t.state == Toggle(s.state, name, inbound, outbound)
        && (!writeOk ==> t.redis == s.redis)
        && (writeOk ==> name in t.redis && t.redis == s.redis[name := t.redis[name]]
                        && FlagsSet(s.redis[name], t.redis[name], inbound, outbound))
  {
    if name in s.redis {
      ToggledSets(s.redis[name], inbound, outbound);
    }
  }
}
