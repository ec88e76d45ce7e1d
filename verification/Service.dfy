/**
 The load balancer as it serves: any number of registration handlers at once, routes, a health
 check, and restarts.  A handler's calls to Redis and its update of the in-memory registry are
 separate steps; nothing but the lock around the registry orders them against other handlers.
 */
module Service {
  import opened Common
  import opened RegistryState
  import opened Restart
  import T = RegistryTheorems

  /** A handler that has read its key and is about to write it. */
  datatype Handler =
    | Registering(reg: Registration, now: int)
    | Toggling(name: string, inbound: Option<bool>, outbound: Option<bool>, found: Registration)

  /** What a handler that is done with Redis still has to do in memory. */
  datatype Update =
    | Put(reg: Registration, now: int)
    | Drop(gone: string)
    | Change(name: string, inbound: Option<bool>, outbound: Option<bool>)

  /** `due` is in the order in which the handlers left Redis. */
  datatype System = System(redis: Redis, world: T.World, handlers: seq<Handler>, due: seq<Update>)

  datatype Action =
    | Get(request: Request, readOk: bool)  // a register or toggle reads its key
    | Set(index: nat, writeOk: bool)       // such a handler writes it
    | Delete(name: string, deleteOk: bool) // an unregister deletes its key
    | Apply(index: nat)                    // a handler's in-memory part
    | Other(op: T.Op)                      // a route, or a step of the health check
    | Reboot(scan: seq<Option<Registration>>, now: int)

  function Boot(): System {
    System(map[], T.World(Empty(), None, []), [], [])
  }

  function Without<T>(s: seq<T>, i: nat): seq<T>
    requires i < |s|
  {
    s[..i] + s[i + 1..]
  }

  /** A toggle that does not find its key is over. */
  function Begin(s: System, r: Request, readOk: bool): System {
    var found := Look(s.redis, r.name, readOk);
    match r
    case RegisterRequest(_, _, _, _, _, now) =>
      s.(handlers := s.handlers + [Registering(Registered(r, found), now)])
    case ToggleRequest(name, inbound, outbound) =>
      if name == "" || found.None? then s
      else s.(handlers := s.handlers + [Toggling(name, inbound, outbound, found.value)])
    case UnregisterRequest(_) => s
  }

  /** A registration whose write fails is over; a toggle does not look. */
  function Write(s: System, h: Handler, writeOk: bool): System {
    match h
    case Registering(reg, now) =>
      if writeOk then s.(redis := s.redis[reg.name := reg], due := s.due + [Put(reg, now)]) else s
    case Toggling(name, inbound, outbound, found) =>
      s.(redis := if writeOk then s.redis[name := Toggled(found, inbound, outbound)] else s.redis,
         due := s.due + [Change(name, inbound, outbound)])
  }

  function OpOf(u: Update): T.Op {
    match u
    case Put(reg, now) => T.OpRegister(reg, now)
    case Drop(name) => T.OpUnregister(name)
    case Change(name, inbound, outbound) => T.OpToggle(name, inbound, outbound)
  }

  predicate ServesCalls(op: T.Op) {
    op.OpRoute? || op.OpRouteByType? || op.OpSnapshot? || op.OpApply?
  }

  /** One step; an action that is not enabled changes nothing. */
  function Step(s: System, a: Action): System {
    match a
    case Get(request, readOk) => Begin(s, request, readOk)
    case Set(i, writeOk) =>
      if i >= |s.handlers| then s
      else Write(s.(handlers := Without(s.handlers, i)), s.handlers[i], writeOk)
    case Delete(name, deleteOk) =>
      if name == "" || !deleteOk || name !in s.redis then s
      else s.(redis := s.redis - {name}, due := s.due + [Drop(name)])
    case Apply(i) =>
      if i >= |s.due| then s
      else s.(world := T.Step(s.world, OpOf(s.due[i])), due := Without(s.due, i))
    case Other(op) => if ServesCalls(op) then s.(world := T.Step(s.world, op)) else s
    case Reboot(scan, now) =>
      if ScanFrom(scan, s.redis) then System(s.redis, T.Started(scan, now), [], []) else s
  }

  function Run(s: System, actions: seq<Action>): System
    decreases |actions|
  {
    if actions == [] then s else Run(Step(s, actions[0]), actions[1..])
  }

  // ---- what every step keeps ----

  predicate UnnamedIsOff(reg: Registration) {
    reg.name == "" ==> !reg.inboundEnabled && !reg.outboundEnabled
  }

  predicate HandlerOk(h: Handler) {
    match h
    case Registering(reg, _) => UnnamedIsOff(reg)
    case Toggling(name, _, _, found) => name != "" && found.name == name
  }

  predicate UpdateOk(u: Update) {
    match u
    case Put(reg, _) => UnnamedIsOff(reg)
    case Drop(_) => true
    case Change(name, _, _) => name != ""
  }

  /** The empty name is never enabled anywhere: it can be registered, but not toggled. */
  ghost predicate NoEmptyName(s: System) {
    && (forall n :: n in s.redis ==> UnnamedIsOff(s.redis[n]))
    && (forall n :: n in s.world.state.lsml ==> UnnamedIsOff(s.world.state.lsml[n].reg))
    && (forall h :: h in s.handlers ==> HandlerOk(h))
    && (forall u :: u in s.due ==> UpdateOk(u))
  }

  ghost predicate Inv(s: System) {
    && Keyed(s.redis) && NoEmptyName(s)
    && Agreement(s.world.state) && T.Balanced(s.world.state.lscs, s.world.notes)
  }

  /** The registrations in memory. */
  function Regs(s: State): map<string, Registration> {
    map n | n in s.lsml :: s.lsml[n].reg
  }

  /** What an update does to them. */
  function After(regs: Redis, u: Update): Redis {
    match u
    case Put(reg, _) => regs[reg.name := reg]
    case Drop(name) => regs - {name}
    case Change(name, inbound, outbound) =>
      if name in regs then regs[name := Toggled(regs[name], inbound, outbound)] else regs
  }

  lemma ApplyRegs(w: T.World, u: Update)
    requires Agreement(w.state)
    ensures Regs(T.Step(w, OpOf(u)).state) == After(Regs(w.state), u)
  {
  }

  lemma {:induction false} ProbesKeepRegs(s: State, names: seq<string>, probes: seq<Probe>)
    requires |names| == |probes|
    ensures Regs(ApplyProbes(s, names, probes)) == Regs(s)
  {
    if names != [] {
      var n := |names| - 1;
      ProbesKeepRegs(s, names[..n], probes[..n]);
    }
  }

  lemma ServingKeepsRegs(w: T.World, op: T.Op)
    requires ServesCalls(op)
    ensures Regs(T.Step(w, op).state) == Regs(w.state)
  {
    if op.OpApply? && w.inflight.Some? && |op.probes| == |w.inflight.value| {
      ProbesKeepRegs(w.state, w.inflight.value, op.probes);
    }
  }

  /** None of them is enabled under the empty name. */
  predicate AllOff(regs: Redis) {
    forall n :: n in regs ==> UnnamedIsOff(regs[n])
  }

  lemma RegsOff(s: State)
    ensures AllOff(Regs(s)) <==> forall n :: n in s.lsml ==> UnnamedIsOff(s.lsml[n].reg)
  {
    assert forall n :: n in s.lsml ==> n in Regs(s) && Regs(s)[n] == s.lsml[n].reg;
  }

  lemma WorldKeeps(s: System, op: T.Op)
    requires Inv(s) && AllOff(Regs(T.Step(s.world, op).state))
    ensures Inv(s.(world := T.Step(s.world, op)))
  {
    T.StepKeeps(s.world, op);
    RegsOff(T.Step(s.world, op).state);
  }

  lemma BeginKeeps(s: System, r: Request, readOk: bool)
    requires Inv(s)
    ensures Inv(Begin(s, r, readOk))
  {
    var t := Begin(s, r, readOk);
    forall h | h in t.handlers
      ensures HandlerOk(h)
    {
      assert h in s.handlers || h == t.handlers[|s.handlers|];
    }
  }

  lemma WriteKeeps(s: System, h: Handler, writeOk: bool)
    requires Inv(s) && HandlerOk(h)
    ensures Inv(Write(s, h, writeOk))
  {
    var t := Write(s, h, writeOk);
    forall u | u in t.due
      ensures UpdateOk(u)
    {
      assert u in s.due || u == t.due[|s.due|];
    }
  }

  lemma ApplyKeeps(s: System, i: nat)
    requires Inv(s) && i < |s.due|
    ensures Inv(Step(s, Apply(i)))
  {
    var u := s.due[i];
    assert u in s.due;
    ApplyRegs(s.world, u);
    RegsOff(s.world.state);
    WorldKeeps(s, OpOf(u));
  }

  lemma RebootKeeps(s: System, scan: seq<Option<Registration>>, now: int)
    requires Inv(s) && ScanFrom(scan, s.redis)
    ensures Inv(Step(s, Reboot(scan, now)))
  {
    ScanIsClean(scan, s.redis);
    T.InitExact(scan, now);
    T.LoadBalance(scan, now);
    RestartRegistrations(scan, now, s.redis);
  }

  lemma StepKeeps(s: System, a: Action)
    requires Inv(s)
    ensures Inv(Step(s, a))
  {
    match a
    case Get(request, readOk) => BeginKeeps(s, request, readOk);
    case Set(i, writeOk) =>
      if i < |s.handlers| {
        assert s.handlers[i] in s.handlers;
        WriteKeeps(s.(handlers := Without(s.handlers, i)), s.handlers[i], writeOk);
      }
    case Delete(name, deleteOk) =>
      var t := Step(s, a);
      forall u | u in t.due
        ensures UpdateOk(u)
      {
        assert u in s.due || u == Drop(name);
      }
    case Apply(i) =>
      if i < |s.due| {
        ApplyKeeps(s, i);
      }
    case Other(op) =>
      if ServesCalls(op) {
        ServingKeepsRegs(s.world, op);
        RegsOff(s.world.state);
        WorldKeeps(s, op);
      }
    case Reboot(scan, now) =>
      if ScanFrom(scan, s.redis) {
        RebootKeeps(s, scan, now);
      }
  }

  lemma {:induction false} RunKeeps(s: System, actions: seq<Action>)
    requires Inv(s)
    ensures Inv(Run(s, actions))
    decreases |actions|
  {
    if actions != [] {
      StepKeeps(s, actions[0]);
      RunKeeps(Step(s, actions[0]), actions[1..]);
    }
  }

  lemma BootInv()
    ensures Inv(Boot())
  {
  }

  // ---- routing in service ----

  /** Whatever handlers, health checks and restarts do, and whichever Redis calls fail: no array has the empty name. */
  lemma EmptyNameNeverServes(actions: seq<Action>)
    ensures var s := Run(Boot(), actions).world.state;
      "" !in s.inbound && "" !in s.outbound
  {
    BootInv();
    RunKeeps(Boot(), actions);
  }

  /** The server is registered, enabled for the direction, and its count is a real one. */
  predicate Available(s: State, n: string, inbound: bool) {
    n in s.lsml && T.FlagOf(s.lsml[n].reg, inbound) && n in s.lscs && s.lscs[n] < MAX_INT
  }

  lemma RouteFailsIn(s: State, inbound: bool)
    requires Agreement(s) && "" !in Servers(s, inbound)
    ensures !Route(s, inbound).result.Missing?
    ensures !Route(s, inbound).result.Routed? <==> forall n :: !Available(s, n, inbound)
    ensures !Route(s, inbound).result.Routed? ==> Route(s, inbound).state == s
  {
    T.RouteCases(s, inbound);
    var names := Servers(s, inbound);
    T.SidesAgree(s);
    forall n
      ensures Available(s, n, inbound) <==> n in names && s.lscs[n] != MAX_INT
    {
      assert n in names <==> n in s.lsml && T.FlagOf(s.lsml[n].reg, inbound);
      assert n in s.lsml <==> n in s.lscs;
    }
    forall k: nat | IsBest(names, s.lscs, k)
      ensures names[k] != ""
    {
      assert names[k] in names;
    }
  }

  /** At any moment a route fails exactly when no enabled server has a count below `MAX_INT`. */
  lemma RouteFailsIff(actions: seq<Action>, inbound: bool)
    ensures var s := Run(Boot(), actions).world.state;
      && !Route(s, inbound).result.Missing?
      && (!Route(s, inbound).result.Routed? <==> forall n :: !Available(s, n, inbound))
      && (!Route(s, inbound).result.Routed? ==> Route(s, inbound).state == s)
  {
    BootInv();
    RunKeeps(Boot(), actions);
    EmptyNameNeverServes(actions);
    RouteFailsIn(Run(Boot(), actions).world.state, inbound);
  }

  // ---- Redis and memory ----

  function Settled(regs: Redis, due: seq<Update>): Redis
    decreases |due|
  {
    if due == [] then regs else Settled(After(regs, due[0]), due[1..])
  }

  /** Memory will be what Redis is once every handler has done its part, in the order they left Redis. */
  ghost predicate InStep(s: System) {
    Settled(Regs(s.world.state), s.due) == s.redis
  }

  /** With no handler under way that is agreement of the two. */
  lemma InStepIsSync(s: System)
    requires Inv(s) && s.due == []
    ensures InStep(s) <==> InSync(Store(s.redis, s.world.state))
  {
    var regs := Regs(s.world.state);
    assert forall n :: n in s.world.state.lsml ==> n in regs && regs[n] == s.world.state.lsml[n].reg;
    assert regs.Keys == s.world.state.lsml.Keys;
  }

  lemma {:induction false} SettledSnoc(regs: Redis, due: seq<Update>, u: Update)
    ensures Settled(regs, due + [u]) == After(Settled(regs, due), u)
    decreases |due|
  {
    if due == [] {
      assert due + [u] == [u];
      assert Settled(After(regs, u), []) == After(regs, u);
    } else {
      assert (due + [u])[1..] == due[1..] + [u];
      SettledSnoc(After(regs, due[0]), due[1..], u);
    }
  }

  /**
   The steps outside memory that part the two: a toggle that stores what it read although the key
   has gone or holds something else to toggle by now; a toggle whose write fails although it
   changes a flag; a restart that misses a key.
   */
  predicate Diverges(s: System, a: Action) {
    match a
    case Set(i, writeOk) =>
      && i < |s.handlers| && s.handlers[i].Toggling?
      && var h := s.handlers[i];
         if writeOk then
           h.name !in s.redis
           || Toggled(h.found, h.inbound, h.outbound) != Toggled(s.redis[h.name], h.inbound, h.outbound)
         else
           h.name in s.redis && Toggled(s.redis[h.name], h.inbound, h.outbound) != s.redis[h.name]
    case Reboot(scan, _) => ScanFrom(scan, s.redis) && !ScanOf(scan, s.redis)
    case _ => false
  }

  lemma WriteExact(s: System, i: nat, writeOk: bool)
    requires InStep(s) && i < |s.handlers|
    ensures InStep(Step(s, Set(i, writeOk))) <==> !Diverges(s, Set(i, writeOk))
  {
    var t, h := Step(s, Set(i, writeOk)), s.handlers[i];
    if t.due != s.due {
      var u := t.due[|s.due|];
      SettledSnoc(Regs(s.world.state), s.due, u);
      assert InStep(t) <==> After(s.redis, u) == t.redis;
      if h.Toggling? {
        ChangeExact(s.redis, h, writeOk, t.redis);
      }
    }
  }

  lemma ChangeExact(redis: Redis, h: Handler, writeOk: bool, stored: Redis)
    requires h.Toggling?
    requires stored == if writeOk then redis[h.name := Toggled(h.found, h.inbound, h.outbound)] else redis
    ensures After(redis, Change(h.name, h.inbound, h.outbound)) == stored <==>
      if writeOk then
        h.name in redis
        && Toggled(h.found, h.inbound, h.outbound) == Toggled(redis[h.name], h.inbound, h.outbound)
      else
        h.name in redis ==> Toggled(redis[h.name], h.inbound, h.outbound) == redis[h.name]
  {
    var after := After(redis, Change(h.name, h.inbound, h.outbound));
    assert h.name in after <==> h.name in redis;
    if writeOk {
      assert h.name in stored && stored[h.name] == Toggled(h.found, h.inbound, h.outbound);
    }
  }

  lemma RebootExact(s: System, scan: seq<Option<Registration>>, now: int)
    requires Keyed(s.redis) && ScanFrom(scan, s.redis)
    ensures InStep(Step(s, Reboot(scan, now))) <==> ScanOf(scan, s.redis)
  {
    RestartRegistrations(scan, now, s.redis);
    var after := InitFrom(scan, now);
    var regs := Regs(after);
    assert forall n :: n in regs <==> n in s.redis && Some(s.redis[n]) in scan;
    assert Settled(regs, []) == regs;
    if ScanOf(scan, s.redis) {
      assert regs.Keys == s.redis.Keys;
    }
  }

  /** Every step but an in-memory part keeps the two in step exactly when it is none of those. */
  lemma StepExact(s: System, a: Action)
    requires Inv(s) && InStep(s) && !a.Apply?
    ensures InStep(Step(s, a)) <==> !Diverges(s, a)
  {
    match a
    case Set(i, writeOk) =>
      if i < |s.handlers| {
        WriteExact(s, i, writeOk);
      }
    case Delete(name, deleteOk) =>
      SettledSnoc(Regs(s.world.state), s.due, Drop(name));
    case Reboot(scan, now) =>
      if ScanFrom(scan, s.redis) {
        RebootExact(s, scan, now);
      }
    case Other(op) =>
      if ServesCalls(op) {
        ServingKeepsRegs(s.world, op);
      }
    case Get(_, _) =>
  }

  // ---- handlers overtaking each other ----

  function KeyOf(u: Update): string {
    match u
    case Put(reg, _) => reg.name
    case Drop(name) => name
    case Change(name, _, _) => name
  }

  predicate Differ(a: Option<bool>, b: Option<bool>) {
    a.Some? && b.Some? && a != b
  }

  /** Two updates of one server whose order matters. */
  predicate Clash(a: Update, b: Update) {
    && KeyOf(a) == KeyOf(b)
    && match (a, b)
       case (Put(r, _), Put(q, _)) => r != q
       case (Put(_, _), Drop(_)) => true
       case (Drop(_), Put(_, _)) => true
       case (Put(r, _), Change(_, i, o)) => Toggled(r, i, o) != r
       case (Change(_, i, o), Put(r, _)) => Toggled(r, i, o) != r
       case (Change(_, i, o), Change(_, j, p)) => Differ(i, j) || Differ(o, p)
       case _ => false
  }

  lemma TogglesCommute(reg: Registration, a: Update, b: Update)
    requires a.Change? && b.Change?
    ensures Toggled(Toggled(reg, a.inbound, a.outbound), b.inbound, b.outbound)
         == Toggled(Toggled(reg, b.inbound, b.outbound), a.inbound, a.outbound)
       <==> !Differ(a.inbound, b.inbound) && !Differ(a.outbound, b.outbound)
  {
  }

  /** The effect of an update on the one entry it is about. */
  function Cell(entry: Option<Registration>, u: Update): Option<Registration> {
    match u
    case Put(reg, _) => Some(reg)
    case Drop(_) => None
    case Change(_, inbound, outbound) =>
      if entry.Some? then Some(Toggled(entry.value, inbound, outbound)) else None
  }

  lemma AfterCell(regs: Redis, u: Update, n: string)
    ensures Look(After(regs, u), n, true) == if n == KeyOf(u) then Cell(Look(regs, n, true), u) else Look(regs, n, true)
  {
  }

  lemma SameEntries(p: Redis, q: Redis)
    requires forall n :: Look(p, n, true) == Look(q, n, true)
    ensures p == q
  {
    forall n
      ensures n in p <==> n in q
      ensures n in p ==> p[n] == q[n]
    {
      assert Look(p, n, true) == Look(q, n, true);
    }
  }

  lemma CellsCommute(entry: Option<Registration>, a: Update, b: Update)
    requires KeyOf(a) == KeyOf(b)
    ensures Cell(Cell(entry, a), b) == Cell(Cell(entry, b), a) <==>
      !Clash(a, b) || (a.Change? && b.Change? && entry.None?)
  {
    if a.Change? && b.Change? && entry.Some? {
      TogglesCommute(entry.value, a, b);
    }
  }

  /** Two updates can change places exactly when they do not clash (two toggles: or the server is unknown). */
  lemma CommuteExact(regs: Redis, a: Update, b: Update)
    ensures After(After(regs, a), b) == After(After(regs, b), a) <==>
      !Clash(a, b) || (a.Change? && b.Change? && KeyOf(a) !in regs)
  {
    var ab, ba := After(After(regs, a), b), After(After(regs, b), a);
    forall n
      ensures Look(ab, n, true) == if KeyOf(a) == KeyOf(b) == n then Cell(Cell(Look(regs, n, true), a), b)
                                   else Look(After(regs, if n == KeyOf(a) then a else b), n, true)
      ensures Look(ba, n, true) == if KeyOf(a) == KeyOf(b) == n then Cell(Cell(Look(regs, n, true), b), a)
                                   else Look(After(regs, if n == KeyOf(a) then a else b), n, true)
    {
      AfterCell(regs, a, n);
      AfterCell(regs, b, n);
      AfterCell(After(regs, a), b, n);
      AfterCell(After(regs, b), a, n);
    }
    if KeyOf(a) == KeyOf(b) {
      CellsCommute(Look(regs, KeyOf(a), true), a, b);
    }
    if KeyOf(a) != KeyOf(b) || Look(ab, KeyOf(a), true) == Look(ba, KeyOf(a), true) {
      SameEntries(ab, ba);
    }
  }

  /** An update that clashes with none before it may be applied first. */
  lemma {:induction false} SettledEarly(regs: Redis, before: seq<Update>, u: Update, rest: seq<Update>)
    requires forall b :: b in before ==> !Clash(b, u)
    ensures Settled(regs, before + [u] + rest) == Settled(After(regs, u), before + rest)
    decreases |before|
  {
    if before == [] {
      assert before + [u] + rest == [u] + rest && before + rest == rest;
    } else {
      var b := before[0];
      assert (before + [u] + rest)[1..] == before[1..] + [u] + rest;
      assert (before + rest)[1..] == before[1..] + rest;
      SettledEarly(After(regs, b), before[1..], u, rest);
      CommuteExact(regs, b, u);
    }
  }

  /** A handler's in-memory part comes in good order: it overtakes none that it clashes with. */
  predicate InOrder(s: System, a: Action) {
    a.Apply? && a.index < |s.due| ==> forall i :: 0 <= i < a.index ==> !Clash(s.due[i], s.due[a.index])
  }

  lemma ApplyInOrder(s: System, i: nat)
    requires Inv(s) && InStep(s) && i < |s.due| && InOrder(s, Apply(i))
    ensures InStep(Step(s, Apply(i)))
  {
    var regs, u := Regs(s.world.state), s.due[i];
    ApplyRegs(s.world, u);
    assert s.due == s.due[..i] + [u] + s.due[i + 1..];
    SettledEarly(regs, s.due[..i], u, s.due[i + 1..]);
  }

  /** Every toggle stores a fresh value, restarts are complete, and clashing handlers keep their order. */
  predicate Orderly(s: System, actions: seq<Action>)
    decreases |actions|
  {
    actions == [] || (!Diverges(s, actions[0]) && InOrder(s, actions[0]) && Orderly(Step(s, actions[0]), actions[1..]))
  }

  lemma {:induction false} OrderlyKeeps(s: System, actions: seq<Action>)
    requires Inv(s) && InStep(s) && Orderly(s, actions)
    ensures Inv(Run(s, actions)) && InStep(Run(s, actions))
    decreases |actions|
  {
    if actions != [] {
      var a := actions[0];
      StepKeeps(s, a);
      if a.Apply? {
        if a.index < |s.due| {
          ApplyInOrder(s, a.index);
        }
      } else {
        StepExact(s, a);
      }
      OrderlyKeeps(Step(s, a), actions[1..]);
    }
  }

  /** After any orderly interleaving of handlers, Redis and memory agree whenever no in-memory part is due. */
  lemma OrderlyInSync(actions: seq<Action>)
    requires Orderly(Boot(), actions) && Run(Boot(), actions).due == []
    ensures var s := Run(Boot(), actions);
      InSync(Store(s.redis, s.world.state))
  {
    BootInv();
    assert Regs(Boot().world.state) == map[];
    OrderlyKeeps(Boot(), actions);
    InStepIsSync(Run(Boot(), actions));
  }

  /**
   Two handlers between their Redis and in-memory parts, the later one first: they leave Redis and
   memory in sync exactly when they do not clash (two toggles: or the server is unknown).
   */
  lemma OvertakenExact(s: System)
    requires Inv(s) && InStep(s) && |s.due| == 2
    ensures var t := Step(Step(s, Apply(1)), Apply(0));
      var a, b := s.due[0], s.due[1];
      InSync(Store(t.redis, t.world.state)) <==>
        !Clash(a, b) || (a.Change? && b.Change? && KeyOf(a) !in s.world.state.lsml)
  {
    var a, b, regs := s.due[0], s.due[1], Regs(s.world.state);
    var s1 := Step(s, Apply(1));
    var t := Step(s1, Apply(0));
    StepKeeps(s, Apply(1));
    StepKeeps(s1, Apply(0));
    OvertakenRegs(s);
    CommuteExact(regs, a, b);
    InStepIsSync(t);
    assert Settled(Regs(t.world.state), []) == Regs(t.world.state);
  }

  lemma OvertakenRegs(s: System)
    requires Inv(s) && InStep(s) && |s.due| == 2
    ensures var t := Step(Step(s, Apply(1)), Apply(0));
      && t.due == [] && t.redis == s.redis
      && Regs(t.world.state) == After(After(Regs(s.world.state), s.due[1]), s.due[0])
      && s.redis == After(After(Regs(s.world.state), s.due[0]), s.due[1])
  {
    var a, b, regs := s.due[0], s.due[1], Regs(s.world.state);
    var s1 := Step(s, Apply(1));
    StepKeeps(s, Apply(1));
    ApplyRegs(s.world, b);
    assert s1.due == [a];
    ApplyRegs(s1.world, a);
    assert s.due == [a, b] && s.due[1..] == [b] && [b][1..] == [];
    assert Settled(regs, s.due) == Settled(After(regs, a), [b]) == Settled(After(After(regs, a), b), []);
  }

  // ---- what can go wrong, and one handler at a time ----

  /** Redis and memory agree and no handler is under way. */
  ghost predicate Quiet(s: System) {
    Inv(s) && s.handlers == [] && s.due == [] && InSync(Store(s.redis, s.world.state))
  }

  /** A server is registered again between the two parts of its removal, and then removed from memory. */
  function Overtaken(r: Request): seq<Action>
    requires r.RegisterRequest?
  {
    [Delete(r.name, true), Get(r, true), Set(0, true), Apply(1), Apply(0)]
  }

  lemma RunFive(s: System, a: Action, b: Action, c: Action, d: Action, e: Action)
    ensures Run(s, [a, b, c, d, e]) == Step(Step(Step(Step(Step(s, a), b), c), d), e)
  {
    var all := [a, b, c, d, e];
    assert all[1..] == [b, c, d, e] && all[1..][1..] == [c, d, e] && all[1..][1..][1..] == [d, e];
    assert all[1..][1..][1..][1..] == [e] && [e][1..] == [];
    RunTwo(Step(Step(Step(s, a), b), c), d, e);
    assert Run(s, all) == Run(Step(s, a), [b, c, d, e]);
    assert Run(Step(s, a), [b, c, d, e]) == Run(Step(Step(s, a), b), [c, d, e]);
  }

  lemma RunTwo(s: System, a: Action, b: Action)
    ensures Run(s, [a, b]) == Step(Step(s, a), b)
  {
    assert [a, b][1..] == [b] && [b][1..] == [];
    assert Run(Step(s, a), [b]) == Run(Step(Step(s, a), b), []);
  }

  /** Every Redis call succeeds, and at the end Redis has a server that memory has not. */
  lemma RegistrationLost(s: System, r: Request)
    requires Quiet(s) && r.RegisterRequest? && r.name != "" && r.name in s.redis
    ensures var t := Run(s, Overtaken(r));
      && t.handlers == [] && t.due == []
      && r.name in t.redis && r.name !in t.world.state.lsml
  {
    var n := r.name;
    RunFive(s, Delete(n, true), Get(r, true), Set(0, true), Apply(1), Apply(0));
    var s1 := Step(s, Delete(n, true));
    var s2 := Step(s1, Get(r, true));
    var s3 := Step(s2, Set(0, true));
    var reg := Registered(r, None);
    assert s2.handlers == [Registering(reg, r.now)];
    assert s3.due == [Drop(n), Put(reg, r.now)] && s3.handlers == [];
    var s4 := Step(s3, Apply(1));
    assert s4.due == [Drop(n)];
  }

  /** Both toggles read the key before either writes it. */
  function Toggles(n: string): seq<Action> {
    [Get(ToggleRequest(n, Some(true), None), true), Get(ToggleRequest(n, None, Some(true)), true),
     Set(0, true), Set(0, true)]
  }

  /** The second write takes the first toggle back, in Redis only. */
  lemma ToggleLost(s: System, n: string)
    requires Quiet(s) && n != "" && n in s.redis && !s.redis[n].inboundEnabled
    ensures var t := Run(s, Toggles(n) + [Apply(0), Apply(0)]);
      && t.handlers == [] && t.due == []
      && n in t.redis && !t.redis[n].inboundEnabled
      && n in t.world.state.lsml && t.world.state.lsml[n].reg.inboundEnabled
  {
    var a := Toggles(n);
    var found := s.redis[n];
    var s1 := Step(s, a[0]);
    var s2 := Step(s1, a[1]);
    var h1, h2 := Toggling(n, Some(true), None, found), Toggling(n, None, Some(true), found);
    assert s2.handlers == [h1, h2];
    var s3 := Step(s2, a[2]);
    assert s3.handlers == [h2];
    var s4 := Step(s3, a[3]);
    assert s4.due == [Change(n, Some(true), None), Change(n, None, Some(true))] && s4.handlers == [];
    var s5 := Step(s4, Apply(0));
    assert s5.due == [Change(n, None, Some(true))];
    RunAppend(s, a, [Apply(0), Apply(0)]);
    RunFour(s, a[0], a[1], a[2], a[3]);
    RunTwo(s4, Apply(0), Apply(0));
  }

  lemma RunFour(s: System, a: Action, b: Action, c: Action, d: Action)
    ensures Run(s, [a, b, c, d]) == Step(Step(Step(Step(s, a), b), c), d)
  {
    var all := [a, b, c, d];
    assert all[1..] == [b, c, d] && all[1..][1..] == [c, d];
    RunTwo(Step(Step(s, a), b), c, d);
    assert Run(s, all) == Run(Step(s, a), [b, c, d]);
  }

  lemma {:induction false} RunAppend(s: System, first: seq<Action>, second: seq<Action>)
    ensures Run(s, first + second) == Run(Run(s, first), second)
    decreases |first|
  {
    if first == [] {
      assert first + second == second;
    } else {
      assert (first + second)[1..] == first[1..] + second;
      RunAppend(Step(s, first[0]), first[1..], second);
    }
  }

  /** The steps of one handler. */
  function StepsOf(r: Request, readOk: bool, writeOk: bool): seq<Action> {
    if r.UnregisterRequest? then [Delete(r.name, writeOk), Apply(0)]
    else [Get(r, readOk), Set(0, writeOk), Apply(0)]
  }

  /** A handler whose steps nobody interrupts does what `Restart` says of it. */
  lemma HandlerAlone(s: System, r: Request, readOk: bool, writeOk: bool)
    requires s.handlers == [] && s.due == []
    ensures var t := Run(s, StepsOf(r, readOk, writeOk));
      && t.handlers == [] && t.due == []
      && Store(t.redis, t.world.state) == Handle(Store(s.redis, s.world.state), r, readOk, writeOk).1
  {
    if r.UnregisterRequest? {
      RunTwo(s, Delete(r.name, writeOk), Apply(0));
    } else {
      var a, b := Get(r, readOk), Set(0, writeOk);
      assert [a, b, Apply(0)][1..] == [b, Apply(0)];
      RunTwo(Step(s, a), b, Apply(0));
    }
  }
}
