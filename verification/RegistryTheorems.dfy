/**
 Every interleaving of registrations, toggles, routes and a health check whose probes run
 between a snapshot and its application: the structures agree, and the call counts are the
 ledger of what was applied and routed.
 */
module RegistryTheorems {
  import opened Common
  import opened RegistryState

  // ---- the arrays ----

  lemma {:induction false} RemoveIs(list: seq<string>, name: string)
    requires Distinct(list)
    ensures Distinct(Remove(list, name))
    ensures forall n :: n in Remove(list, name) <==> n in list && n != name
  {
    if list != [] {
      RemoveIs(list[1..], name);
      var rest := Remove(list[1..], name);
      assert list == [list[0]] + list[1..];
      assert list[0] !in list[1..];
      if list[0] != name {
        assert list[0] !in rest;
        assert Distinct([list[0]] + rest);
      }
    }
  }

  lemma SyncIs(list: seq<string>, name: string, on: bool)
    requires Distinct(list)
    ensures Distinct(Sync(list, name, on))
    ensures forall n :: n in Sync(list, name, on) <==> if n == name then on else n in list
  {
    RemoveIs(list, name);
  }

  lemma UpdateArraysAgrees(s: State, t: State, name: string, inbound: bool, outbound: bool)
    requires Agreement(s)
    requires t.inbound == s.inbound && t.outbound == s.outbound && t.lsml.Keys == t.lscs.Keys
    requires forall n :: n != name ==> (n in t.lsml <==> n in s.lsml)
    requires forall n :: n != name && n in t.lsml ==> t.lsml[n] == s.lsml[n]
    requires name in t.lsml ==>
               t.lsml[name].reg.name == name
               && t.lsml[name].reg.inboundEnabled == inbound && t.lsml[name].reg.outboundEnabled == outbound
    requires name !in t.lsml ==> !inbound && !outbound
    ensures Agreement(UpdateArrays(t, name, inbound, outbound))
  {
    SyncIs(s.inbound, name, inbound);
    SyncIs(s.outbound, name, outbound);
  }

  lemma RegisterAgrees(s: State, reg: Registration, now: int)
    requires Agreement(s)
    ensures Agreement(Register(s, reg, now))
  {
    var name := reg.name;
    var stored :=
      if name in s.lsml then
        s.(lsml := s.lsml[name := s.lsml[name].(reg := reg.(name := s.lsml[name].reg.name))])
      else
        s.(lsml := s.lsml[name := Metadata(reg, DefaultHealth(now))], lscs := s.lscs[name := MAX_INT]);
    assert stored.lsml.Keys == stored.lscs.Keys;
    UpdateArraysAgrees(s, stored, name, reg.inboundEnabled, reg.outboundEnabled);
  }

  lemma UnregisterAgrees(s: State, name: string)
    requires Agreement(s)
    ensures Agreement(Unregister(s, name))
  {
    var t := s.(lsml := s.lsml - {name}, lscs := s.lscs - {name});
    assert t.lsml.Keys == t.lscs.Keys;
    UpdateArraysAgrees(s, t, name, false, false);
  }

  lemma ToggleAgrees(s: State, name: string, inbound: Option<bool>, outbound: Option<bool>)
    requires Agreement(s)
    ensures Agreement(Toggle(s, name, inbound, outbound))
  {
    if name in s.lsml {
      var reg := Toggled(s.lsml[name].reg, inbound, outbound);
      var t := s.(lsml := s.lsml[name := s.lsml[name].(reg := reg)]);
      assert t.lsml.Keys == s.lsml.Keys;
      UpdateArraysAgrees(s, t, name, reg.inboundEnabled, reg.outboundEnabled);
    }
  }

  lemma BumpAgrees(s: State, name: string)
    requires Agreement(s) && name in s.lscs && s.lscs[name] < MAX_INT
    ensures Agreement(Bump(s, name))
  {
    assert Bump(s, name).lscs.Keys == s.lscs.Keys;
  }

  lemma ProbeAgrees(s: State, name: string, probe: Probe)
    requires Agreement(s)
    ensures Agreement(ApplyProbe(s, name, probe))
  {
    if name in s.lsml {
      var t := ApplyProbe(s, name, probe);
      assert t.lsml.Keys == s.lsml.Keys && t.lscs.Keys == s.lscs.Keys;
    }
  }

  lemma {:induction false} ProbesAgree(s: State, names: seq<string>, probes: seq<Probe>)
    requires Agreement(s) && |names| == |probes|
    ensures Agreement(ApplyProbes(s, names, probes))
  {
    if names != [] {
      var n := |names| - 1;
      ProbesAgree(s, names[..n], probes[..n]);
      ProbeAgrees(ApplyProbes(s, names[..n], probes[..n]), names[n], probes[n]);
    }
  }

  /**
   When a route fails: no array entry is healthy, or the one chosen has the empty name (which
   `Service` shows never to be in an array).
   */
  lemma RouteCases(s: State, inbound: bool)
    requires Agreement(s)
    ensures var names, r := Servers(s, inbound), Route(s, inbound);
      && !r.result.Missing?
      && (!r.result.Routed? <==>
            || (forall n :: n in names ==> s.lscs[n] == MAX_INT)
            || (exists k: nat :: IsBest(names, s.lscs, k) && names[k] == ""))
      && (!r.result.Routed? ==> r.state == s)
  {
    var names := Servers(s, inbound);
    var best := Best(names, s.lscs);
    if best.Some? {
      forall k: nat | IsBest(names, s.lscs, k)
        ensures k == best.value
      {
        assert names[k] in names && names[best.value] in names;
      }
      assert names[best.value] in names && names[best.value] in s.lsml;
    } else {
      assert forall n :: n in names ==> n in s.lscs;
    }
  }

  /** A successful route bumps a least loaded healthy server of the array. */
  lemma RoutePicks(s: State, inbound: bool)
    requires Agreement(s) && Route(s, inbound).result.Routed?
    ensures var name, names := Route(s, inbound).result.server.reg.name, Servers(s, inbound);
      && name in names && name in s.lscs && name in s.lsml && s.lscs[name] < MAX_INT
      && (forall m :: m in names ==> m in s.lscs && s.lscs[name] <= s.lscs[m])
      && Route(s, inbound).state == Bump(s, name)
  {
    var names := Servers(s, inbound);
    var k := Best(names, s.lscs).value;
    assert names[k] in names;
    forall m | m in names
      ensures m in s.lscs && s.lscs[names[k]] <= s.lscs[m]
    {
      var i :| 0 <= i < |names| && names[i] == m;
      assert IsBest(names, s.lscs, k);
    }
  }

  // ---- runs ----

  datatype Op =
    | OpRegister(reg: Registration, now: int)
    | OpUnregister(name: string)
    | OpToggle(name: string, inbound: Option<bool>, outbound: Option<bool>)
    | OpRoute(inboundCall: bool)
    | OpRouteByType(part: string, choice: string)
    | OpSnapshot(order: seq<string>)
    | OpApply(probes: seq<Probe>)

  /** What an operation reports that concerns the call counts. */
  datatype Note = Set(name: string, count: Count) | Counted(name: string) | Gone(name: string)

  datatype World = World(state: State, inflight: Option<seq<string>>, notes: seq<Note>)

  /** The names a snapshot may return: each server once, in any order. */
  predicate Enumerates(order: seq<string>, names: set<string>) {
    Distinct(order) && (forall n | n in order :: n in names) && (forall n | n in names :: n in order)
  }

  function ProbeNotes(s: State, names: seq<string>, probes: seq<Probe>): seq<Note>
    requires |names| == |probes|
  {
    if names == [] then [] else
      var n := |names| - 1;
      ProbeNotes(s, names[..n], probes[..n]) +
      if names[n] !in s.lsml then []
      else [Set(names[n], match probes[n] case Failed(_, _) => MAX_INT case Healthy(h) => h.currentCalls)]
  }

  /** One atomic step; an operation that is not enabled changes nothing. */
  function Step(w: World, op: Op): World {
    var s := w.state;
    match op
    case OpRegister(reg, now) =>
      w.(state := Register(s, reg, now),
         notes := w.notes + if reg.name in s.lsml then [] else [Set(reg.name, MAX_INT)])
    case OpUnregister(name) =>
      w.(state := Unregister(s, name), notes := w.notes + [Gone(name)])
    case OpToggle(name, inbound, outbound) =>
      w.(state := Toggle(s, name, inbound, outbound))
    case OpRoute(inboundCall) =>
      var r := Route(s, inboundCall);
      w.(state := r.state,
         notes := w.notes + if r.result.Routed? then [Counted(r.result.server.reg.name)] else [])
    case OpRouteByType(part, choice) =>
      if Eligible(s, part, choice) then w.(state := Bump(s, choice), notes := w.notes + [Counted(choice)]) else w
    case OpSnapshot(order) =>
      if w.inflight.None? && order != [] && Enumerates(order, s.lsml.Keys) then w.(inflight := Some(order)) else w
    case OpApply(probes) =>
      if w.inflight.Some? && |probes| == |w.inflight.value| then
        World(ApplyProbes(s, w.inflight.value, probes), None, w.notes + ProbeNotes(s, w.inflight.value, probes))
      else
        w
  }

  function Run(w: World, ops: seq<Op>): World
    decreases |ops|
  {
    if ops == [] then w else Run(Step(w, ops[0]), ops[1..])
  }

  /** The entry the notes say a server has: the last count set, and the routes counted since. */
  datatype Entry = Entry(base: int, routes: nat)

  function Ledger(notes: seq<Note>, name: string): Option<Entry> {
    if notes == [] then None else
      var before := Ledger(notes[..|notes| - 1], name);
      match notes[|notes| - 1]
      case Set(n, count) => if n == name then Some(Entry(count, 0)) else before
      case Gone(n) => if n == name then None else before
      case Counted(n) =>
        if n == name && before.Some? then Some(before.value.(routes := before.value.routes + 1)) else before
  }

  ghost predicate Balanced(lscs: map<string, Count>, notes: seq<Note>) {
    forall n :: var entry := Ledger(notes, n);
      && (n in lscs <==> entry.Some?)
      && (entry.Some? ==> lscs[n] == entry.value.base + entry.value.routes)
      && (entry.Some? && entry.value.base == MAX_INT ==> entry.value.routes == 0)
  }

  lemma NoteOne(lscs: map<string, Count>, notes: seq<Note>, note: Note)
    requires Balanced(lscs, notes)
    requires note.Counted? ==> note.name in lscs && lscs[note.name] < MAX_INT
    ensures match note
      case Set(n, c) => Balanced(lscs[n := c], notes + [note])
      case Gone(n) => Balanced(lscs - {n}, notes + [note])
      case Counted(n) => Balanced(lscs[n := lscs[n] + 1], notes + [note])
  {
    var after := match note
      case Set(n, c) => lscs[n := c]
      case Gone(n) => lscs - {n}
      case Counted(n) => lscs[n := lscs[n] + 1];
    assert (notes + [note])[..|notes|] == notes;
    forall n
      ensures var entry := Ledger(notes + [note], n);
        && (n in after <==> entry.Some?)
        && (entry.Some? ==> after[n] == entry.value.base + entry.value.routes)
        && (entry.Some? && entry.value.base == MAX_INT ==> entry.value.routes == 0)
    {
      var prior := Ledger(notes, n);
      assert n in lscs <==> prior.Some?;
    }
  }

  lemma {:induction false} ProbesBalance(s: State, names: seq<string>, probes: seq<Probe>, notes: seq<Note>)
    requires |names| == |probes| && Balanced(s.lscs, notes)
    ensures Balanced(ApplyProbes(s, names, probes).lscs, notes + ProbeNotes(s, names, probes))
    ensures ApplyProbes(s, names, probes).lsml.Keys == s.lsml.Keys
  {
    if names == [] {
      assert notes + [] == notes;
    } else {
      var n := |names| - 1;
      ProbesBalance(s, names[..n], probes[..n], notes);
      var before, noted := ApplyProbes(s, names[..n], probes[..n]), notes + ProbeNotes(s, names[..n], probes[..n]);
      if names[n] in s.lsml {
        var note := Set(names[n], match probes[n] case Failed(_, _) => MAX_INT case Healthy(h) => h.currentCalls);
        NoteOne(before.lscs, noted, note);
        assert notes + ProbeNotes(s, names, probes) == noted + [note];
        assert ApplyProbes(s, names, probes).lsml.Keys == before.lsml.Keys;
      } else {
        assert notes + ProbeNotes(s, names, probes) == noted;
      }
    }
  }

  lemma RouteBalance(s: State, inbound: bool, notes: seq<Note>)
    requires Agreement(s) && Balanced(s.lscs, notes)
    ensures var r := Route(s, inbound);
      && Agreement(r.state)
      && Balanced(r.state.lscs, notes + if r.result.Routed? then [Counted(r.result.server.reg.name)] else [])
  {
    RouteCases(s, inbound);
    var names, r := Servers(s, inbound), Route(s, inbound);
    if r.result.Routed? {
      var name := names[Best(names, s.lscs).value];
      assert name in names;
      BumpAgrees(s, name);
      NoteOne(s.lscs, notes, Counted(name));
    } else {
      assert notes + [] == notes;
    }
  }

  /** A registration, a removal or a toggle. */
  lemma ChangeKeeps(w: World, op: Op)
    requires Agreement(w.state) && Balanced(w.state.lscs, w.notes)
    requires op.OpRegister? || op.OpUnregister? || op.OpToggle?
    ensures Agreement(Step(w, op).state) && Balanced(Step(w, op).state.lscs, Step(w, op).notes)
  {
    var s := w.state;
    assert w.notes + [] == w.notes;
    match op
    case OpRegister(reg, now) =>
      RegisterAgrees(s, reg, now);
      if reg.name !in s.lsml {
        NoteOne(s.lscs, w.notes, Set(reg.name, MAX_INT));
      }
    case OpUnregister(name) =>
      UnregisterAgrees(s, name);
      NoteOne(s.lscs, w.notes, Gone(name));
    case OpToggle(name, inbound, outbound) =>
      ToggleAgrees(s, name, inbound, outbound);
  }

  lemma ByTypeKeeps(w: World, part: string, choice: string)
    requires Agreement(w.state) && Balanced(w.state.lscs, w.notes)
    ensures var v := Step(w, OpRouteByType(part, choice));
      Agreement(v.state) && Balanced(v.state.lscs, v.notes)
  {
    if Eligible(w.state, part, choice) {
      BumpAgrees(w.state, choice);
      NoteOne(w.state.lscs, w.notes, Counted(choice));
    }
  }

  lemma ApplyKeeps(w: World, probes: seq<Probe>)
    requires Agreement(w.state) && Balanced(w.state.lscs, w.notes)
    requires w.inflight.Some? && |probes| == |w.inflight.value|
    ensures var v := Step(w, OpApply(probes));
      Agreement(v.state) && Balanced(v.state.lscs, v.notes)
  {
    ProbesAgree(w.state, w.inflight.value, probes);
    ProbesBalance(w.state, w.inflight.value, probes, w.notes);
  }

  lemma StepKeeps(w: World, op: Op)
    requires Agreement(w.state) && Balanced(w.state.lscs, w.notes)
    ensures Agreement(Step(w, op).state) && Balanced(Step(w, op).state.lscs, Step(w, op).notes)
  {
    match op
    case OpRoute(inboundCall) => RouteBalance(w.state, inboundCall, w.notes);
    case OpRouteByType(part, choice) => ByTypeKeeps(w, part, choice);
    case OpSnapshot(_) =>
    case OpApply(probes) =>
      if w.inflight.Some? && |probes| == |w.inflight.value| {
        ApplyKeeps(w, probes);
      }
    case _ => ChangeKeeps(w, op);
  }

  /** From any agreeing, balanced start, every interleaving keeps both. */
  lemma {:induction false} RunKeeps(w: World, ops: seq<Op>)
    requires Agreement(w.state) && Balanced(w.state.lscs, w.notes)
    ensures Agreement(Run(w, ops).state) && Balanced(Run(w, ops).state.lscs, Run(w, ops).notes)
    decreases |ops|
  {
    if ops != [] {
      StepKeeps(w, ops[0]);
      RunKeeps(Step(w, ops[0]), ops[1..]);
    }
  }

  // ---- initial load ----

  /** No flagged entry shares its name with a later one. */
  predicate Clean(scan: seq<Option<Registration>>) {
    forall i, j :: 0 <= i < j < |scan| && scan[i].Some? && scan[j].Some? && scan[i].value.name == scan[j].value.name
      ==> !scan[i].value.inboundEnabled && !scan[i].value.outboundEnabled
  }

  predicate Flagged(scan: seq<Option<Registration>>, name: string, inbound: bool) {
    exists i :: 0 <= i < |scan| && scan[i].Some? && scan[i].value.name == name
                && (if inbound then scan[i].value.inboundEnabled else scan[i].value.outboundEnabled)
  }

  /** What every load gives, clean or not. */
  ghost predicate Loaded(scan: seq<Option<Registration>>, s: State) {
    && s.lsml.Keys == s.lscs.Keys
    && (forall n :: n in s.lsml ==> s.lsml[n].reg.name == n && s.lscs[n] == MAX_INT)
    && (forall n :: n in s.inbound <==> Flagged(scan, n, true))
    && (forall n :: n in s.outbound <==> Flagged(scan, n, false))
    && (forall n :: n in s.lsml && s.lsml[n].reg.inboundEnabled ==> n in s.inbound)
    && (forall n :: n in s.lsml && s.lsml[n].reg.outboundEnabled ==> n in s.outbound)
    && (forall n :: n in s.inbound || n in s.outbound ==> n in s.lsml)
  }

  lemma FlaggedSnoc(scan: seq<Option<Registration>>, e: Option<Registration>, name: string, inbound: bool)
    ensures Flagged(scan + [e], name, inbound) <==>
      || Flagged(scan, name, inbound)
      || (e.Some? && e.value.name == name && if inbound then e.value.inboundEnabled else e.value.outboundEnabled)
  {
    var all := scan + [e];
    forall i | 0 <= i < |scan|
      ensures all[i] == scan[i]
    {
    }
    if e.Some? && e.value.name == name && (if inbound then e.value.inboundEnabled else e.value.outboundEnabled) {
      assert all[|scan|] == e;
    }
    if Flagged(scan, name, inbound) {
      var i :| 0 <= i < |scan| && scan[i].Some? && scan[i].value.name == name
               && (if inbound then scan[i].value.inboundEnabled else scan[i].value.outboundEnabled);
      assert all[i] == scan[i];
    }
  }

  lemma {:induction false} LoadKeeps(scan: seq<Option<Registration>>, now: int)
    ensures Loaded(scan, InitFrom(scan, now))
  {
    if scan != [] {
      var n := |scan| - 1;
      assert scan == scan[..n] + [scan[n]];
      LoadKeeps(scan[..n], now);
      forall name, inbound
        ensures Flagged(scan, name, inbound) <==>
          || Flagged(scan[..n], name, inbound)
          || (scan[n].Some? && scan[n].value.name == name
              && if inbound then scan[n].value.inboundEnabled else scan[n].value.outboundEnabled)
      {
        FlaggedSnoc(scan[..n], scan[n], name, inbound);
      }
      LoadOne(scan[..n], scan[n], scan, InitFrom(scan[..n], now), now);
    }
  }

  lemma LoadOne(before: seq<Option<Registration>>, e: Option<Registration>, scan: seq<Option<Registration>>,
                s: State, now: int)
    requires Loaded(before, s)
    requires forall name, inbound :: Flagged(scan, name, inbound) <==>
      || Flagged(before, name, inbound)
      || (e.Some? && e.value.name == name && if inbound then e.value.inboundEnabled else e.value.outboundEnabled)
    ensures Loaded(scan, Load(s, e, now))
  {
    var t := Load(s, e, now);
    assert t.lsml.Keys == t.lscs.Keys;
  }

  /** A load makes the structures agree exactly when the scan is clean. */
  lemma {:induction false} InitExact(scan: seq<Option<Registration>>, now: int)
    ensures Agreement(InitFrom(scan, now)) <==> Clean(scan)
  {
    if scan != [] {
      var n := |scan| - 1;
      var before, e := scan[..n], scan[n];
      var s := InitFrom(before, now);
      assert scan == before + [e];
      InitExact(before, now);
      LoadKeeps(before, now);
      LoadKeeps(scan, now);
      CleanSnoc(before, e);
      if e.Some? {
        LoadAgrees(before, s, e.value, now);
      }
    }
  }

  lemma CleanSnoc(before: seq<Option<Registration>>, e: Option<Registration>)
    ensures Clean(before + [e]) <==>
      Clean(before) && (e.Some? ==> !Flagged(before, e.value.name, true) && !Flagged(before, e.value.name, false))
  {
    var scan := before + [e];
    assert forall i :: 0 <= i < |before| ==> scan[i] == before[i];
    if Clean(scan) && e.Some? {
      assert scan[|before|] == e;
    }
    if Clean(before) && (e.Some? ==> !Flagged(before, e.value.name, true) && !Flagged(before, e.value.name, false)) {
      forall i, j | 0 <= i < j < |scan| && scan[i].Some? && scan[j].Some? && scan[i].value.name == scan[j].value.name
        ensures !scan[i].value.inboundEnabled && !scan[i].value.outboundEnabled
      {
        assert scan[i] == before[i];
        if j < |before| {
          assert scan[j] == before[j];
        }
      }
    }
  }

  lemma DistinctSnoc(list: seq<string>, name: string)
    ensures Distinct(list + [name]) <==> Distinct(list) && name !in list
  {
    var all := list + [name];
    if Distinct(all) {
      assert all[|list|] == name;
      forall i, j | 0 <= i < j < |list|
        ensures list[i] != list[j]
      {
        assert all[i] != all[j];
      }
      forall i | 0 <= i < |list|
        ensures list[i] != name
      {
        assert all[i] != all[|list|];
      }
    }
  }

  predicate FlagOf(reg: Registration, inbound: bool) {
    if inbound then reg.inboundEnabled else reg.outboundEnabled
  }

  /** One array holds exactly the servers with its flag on. */
  ghost predicate Side(list: seq<string>, lsml: map<string, Metadata>, inbound: bool) {
    Distinct(list) && forall n :: n in list <==> n in lsml && FlagOf(lsml[n].reg, inbound)
  }

  lemma LoadSide(list: seq<string>, lsml: map<string, Metadata>, meta: Metadata, inbound: bool)
    requires forall n :: n in list ==> n in lsml
    requires forall n :: n in lsml && FlagOf(lsml[n].reg, inbound) ==> n in list
    ensures var name := meta.reg.name;
      var longer := if FlagOf(meta.reg, inbound) then list + [name] else list;
      Side(longer, lsml[name := meta], inbound) <==> Side(list, lsml, inbound) && name !in list
  {
    var name := meta.reg.name;
    var longer, after := list + [name], lsml[name := meta];
    DistinctSnoc(list, name);
    assert name in longer && (forall n :: n in list ==> n in longer);
    assert forall n :: n in longer ==> n == name || n in list;
    assert forall n :: n in list && n != name ==> n in after && after[n] == lsml[n];
    if FlagOf(meta.reg, inbound) && Side(longer, after, inbound) {
      forall n | n in list
        ensures n in lsml && FlagOf(lsml[n].reg, inbound)
      {
        assert n in longer && n != name;
      }
    }
    if !FlagOf(meta.reg, inbound) && Side(list, after, inbound) {
      assert name in after;
      assert name !in list;
      forall n | n in list
        ensures n in lsml && FlagOf(lsml[n].reg, inbound)
      {
        assert n in after;
      }
    }
  }

  lemma LoadAgrees(before: seq<Option<Registration>>, s: State, reg: Registration, now: int)
    requires Loaded(before, s)
    ensures Agreement(Load(s, Some(reg), now)) <==>
      Agreement(s) && !Flagged(before, reg.name, true) && !Flagged(before, reg.name, false)
  {
    var t := Load(s, Some(reg), now);
    assert t.lsml.Keys == t.lscs.Keys;
    LoadSide(s.inbound, s.lsml, Metadata(reg, DefaultHealth(now)), true);
    LoadSide(s.outbound, s.lsml, Metadata(reg, DefaultHealth(now)), false);
    SidesAgree(s);
    SidesAgree(t);
  }

  lemma SidesAgree(s: State)
    requires s.lsml.Keys == s.lscs.Keys && forall n :: n in s.lsml ==> s.lsml[n].reg.name == n
    ensures Agreement(s) <==> Side(s.inbound, s.lsml, true) && Side(s.outbound, s.lsml, false)
  {
  }

  function LoadNotes(scan: seq<Option<Registration>>): seq<Note> {
    if scan == [] then [] else
      var n := |scan| - 1;
      LoadNotes(scan[..n]) + if scan[n].Some? then [Set(scan[n].value.name, MAX_INT)] else []
  }

  function Started(scan: seq<Option<Registration>>, now: int): World {
    World(InitFrom(scan, now), None, LoadNotes(scan))
  }

  lemma {:induction false} LoadBalance(scan: seq<Option<Registration>>, now: int)
    ensures Balanced(InitFrom(scan, now).lscs, LoadNotes(scan))
  {
    if scan != [] {
      var n := |scan| - 1;
      LoadBalance(scan[..n], now);
      if scan[n].Some? {
        NoteOne(InitFrom(scan[..n], now).lscs, LoadNotes(scan[..n]), Set(scan[n].value.name, MAX_INT));
      } else {
        assert LoadNotes(scan) == LoadNotes(scan[..n]);
      }
    }
  }

  /**
   From a clean start, after any interleaving: the structures agree, and every count is the
   last one set (`MAX_INT` by a first registration or a failed probe) plus the routes since,
   of which there are none while it is `MAX_INT`.
   */
  lemma LedgerLaw(scan: seq<Option<Registration>>, now: int, ops: seq<Op>)
    requires Clean(scan)
    ensures var w := Run(Started(scan, now), ops);
      && Agreement(w.state)
      && forall n :: var entry := Ledger(w.notes, n);
           && (n in w.state.lscs <==> entry.Some?)
           && (entry.Some? ==> w.state.lscs[n] == entry.value.base + entry.value.routes)
           && (entry.Some? && entry.value.base == MAX_INT ==> entry.value.routes == 0)
  {
    InitExact(scan, now);
    LoadBalance(scan, now);
    RunKeeps(Started(scan, now), ops);
  }

  /** A route, if any, goes to an enabled server whose count is a real one, and adds one to it. */
  ghost predicate SafeRoute(w: World, inbound: bool) {
    var s, r := w.state, Route(w.state, inbound);
    if !r.result.Routed? then r.state == s else
      var n := r.result.server.reg.name;
      var entry := Ledger(w.notes, n);
      && entry.Some? && entry.value.base < MAX_INT
      && n in s.lscs && s.lscs[n] < MAX_INT && r.state == Bump(s, n)
      && n in s.lsml && FlagOf(s.lsml[n].reg, inbound)
  }

  lemma SafeRouteNow(w: World, inbound: bool)
    requires Agreement(w.state) && Balanced(w.state.lscs, w.notes)
    ensures SafeRoute(w, inbound)
  {
    RouteCases(w.state, inbound);
    if Route(w.state, inbound).result.Routed? {
      RoutePicks(w.state, inbound);
      var n := Route(w.state, inbound).result.server.reg.name;
      assert n in w.state.lscs <==> Ledger(w.notes, n).Some?;
    }
  }

  /** No route goes to a server whose count is `MAX_INT`, at any point of any run. */
  lemma NeverRoutesUnhealthy(scan: seq<Option<Registration>>, now: int, ops: seq<Op>, inbound: bool)
    requires Clean(scan)
    ensures SafeRoute(Run(Started(scan, now), ops), inbound)
  {
    InitExact(scan, now);
    LoadBalance(scan, now);
    RunKeeps(Started(scan, now), ops);
    SafeRouteNow(Run(Started(scan, now), ops), inbound);
  }
}
