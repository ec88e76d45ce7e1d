/** Greedy routing is optimal: no other way of placing the same calls has a lower maximum load. */
module Routing {
  import opened Common
  import opened RegistryState
  import opened RegistryTheorems

  /** `k` calls routed one after the other; `None` if one of them fails. */
  function RouteMany(s: State, inbound: bool, k: nat): Option<State> {
    if k == 0 then Some(s) else
      var before := RouteMany(s, inbound, k - 1);
      if before.None? then None else
        var r := Route(before.value, inbound);
        if r.result.Routed? then Some(r.state) else None
  }

  /** The servers of an array that are healthy at the start. */
  function HealthyOf(names: seq<string>, lscs: map<string, Count>): seq<string> {
    if names == [] then [] else
      var rest := HealthyOf(names[1..], lscs);
      if names[0] in lscs && lscs[names[0]] < MAX_INT then [names[0]] + rest else rest
  }

  function Sum(names: seq<string>, loads: map<string, int>): int
    requires forall n :: n in names ==> n in loads
  {
    if names == [] then 0 else loads[names[0]] + Sum(names[1..], loads)
  }

  lemma {:induction false} HealthyIs(names: seq<string>, lscs: map<string, Count>)
    requires Distinct(names)
    ensures Distinct(HealthyOf(names, lscs))
    ensures forall n :: n in HealthyOf(names, lscs) <==> n in names && n in lscs && lscs[n] < MAX_INT
  {
    if names != [] {
      HealthyIs(names[1..], lscs);
      assert names == [names[0]] + names[1..];
      assert names[0] !in names[1..];
    }
  }

  lemma {:induction false} SumBump(names: seq<string>, loads: map<string, int>, name: string)
    requires forall n :: n in names ==> n in loads
    requires Distinct(names) && name in names
    ensures Sum(names, loads[name := loads[name] + 1]) == Sum(names, loads) + 1
  {
    if names[0] == name {
      SumSame(names[1..], loads, name);
    } else {
      SumBump(names[1..], loads, name);
    }
  }

  lemma {:induction false} SumSame(names: seq<string>, loads: map<string, int>, name: string)
    requires forall n :: n in names ==> n in loads
    requires name in loads && name !in names
    ensures Sum(names, loads[name := loads[name] + 1]) == Sum(names, loads)
  {
    if names != [] {
      SumSame(names[1..], loads, name);
    }
  }

  lemma {:induction false} SumBelow(names: seq<string>, a: map<string, int>, b: map<string, int>)
    requires forall n :: n in names ==> n in a && n in b && a[n] <= b[n]
    ensures Sum(names, a) <= Sum(names, b)
    ensures (exists n :: n in names && a[n] < b[n]) ==> Sum(names, a) < Sum(names, b)
  {
    if names != [] {
      SumBelow(names[1..], a, b);
    }
  }

  function Loads(s: State): map<string, int> {
    map n | n in s.lscs :: s.lscs[n] as int
  }

  /** After some successful calls: all placed on the servers healthy at the start, and evenly. */
  ghost predicate Even(s: State, t: State, names: seq<string>, k: nat) {
    && t.lsml == s.lsml && t.inbound == s.inbound && t.outbound == s.outbound
    && t.lscs.Keys == s.lscs.Keys
    && (forall n :: n in names ==> n in s.lscs)
    && Sum(names, Loads(t)) == Sum(names, Loads(s)) + k
    && (forall n :: n in s.lscs ==> s.lscs[n] <= t.lscs[n])
    && (forall n :: n in s.lscs && n !in names ==> s.lscs[n] == t.lscs[n])
    && (forall n, m :: n in names && m in names && s.lscs[n] < t.lscs[n] ==> t.lscs[n] - 1 <= t.lscs[m])
  }

  lemma EvenStep(s: State, t: State, names: seq<string>, k: nat, name: string)
    requires Even(s, t, names, k) && Distinct(names) && name in names && t.lscs[name] < MAX_INT
    requires forall m :: m in names ==> t.lscs[name] <= t.lscs[m]
    ensures Even(s, Bump(t, name), names, k + 1)
  {
    SumBump(names, Loads(t), name);
    LoadsBump(t, name);
    assert Bump(t, name).lscs.Keys == t.lscs.Keys;
  }

  lemma LoadsBump(t: State, name: string)
    requires name in t.lscs && t.lscs[name] < MAX_INT
    ensures Loads(Bump(t, name)) == Loads(t)[name := Loads(t)[name] + 1]
  {
  }

  lemma {:induction false} RouteManyEven(s: State, inbound: bool, k: nat)
    requires Agreement(s) && RouteMany(s, inbound, k).Some?
    ensures Even(s, RouteMany(s, inbound, k).value, HealthyOf(Servers(s, inbound), s.lscs), k)
  {
    var names := HealthyOf(Servers(s, inbound), s.lscs);
    HealthyIs(Servers(s, inbound), s.lscs);
    if k > 0 {
      RouteManyEven(s, inbound, k - 1);
      var t := RouteMany(s, inbound, k - 1).value;
      assert Agreement(t);
      RoutePicks(t, inbound);
      EvenStep(s, t, names, k - 1, Route(t, inbound).result.server.reg.name);
    }
  }

  /** A server that received a call ends at most one above the least loaded one. */
  lemma RoutedNearMinimum(s: State, inbound: bool, k: nat, n: string, m: string)
    requires Agreement(s) && RouteMany(s, inbound, k).Some?
    requires n in HealthyOf(Servers(s, inbound), s.lscs) && m in HealthyOf(Servers(s, inbound), s.lscs)
    requires n in s.lscs && n in RouteMany(s, inbound, k).value.lscs && m in RouteMany(s, inbound, k).value.lscs
    ensures var t := RouteMany(s, inbound, k).value;
      s.lscs[n] < t.lscs[n] ==> t.lscs[n] as int <= t.lscs[m] as int + 1
  {
    RouteManyEven(s, inbound, k);
  }

  /**
   Take any other final loads `other` that give the same `k` calls to the servers enabled and
   healthy at the start: some server carries at least as much as any server does here.
   */
  lemma MinMaxOptimal(s: State, inbound: bool, k: nat, other: map<string, int>, n: string)
    requires Agreement(s) && RouteMany(s, inbound, k).Some?
    requires var names := HealthyOf(Servers(s, inbound), s.lscs);
      && n in names
      && (forall m :: m in names ==> m in s.lscs && m in other && s.lscs[m] <= other[m])
      && Sum(names, other) == Sum(names, Loads(s)) + k
    ensures var t := RouteMany(s, inbound, k).value;
      && n in t.lscs
      && exists m :: m in HealthyOf(Servers(s, inbound), s.lscs) && t.lscs[n] <= other[m]
  {
    RouteManyEven(s, inbound, k);
    var names, t := HealthyOf(Servers(s, inbound), s.lscs), RouteMany(s, inbound, k).value;
    if t.lscs[n] <= other[n] {
      return;
    }
    if forall m :: m in names ==> other[m] < t.lscs[n] {
      forall m | m in names
        ensures other[m] <= Loads(t)[m]
      {
        assert t.lscs[n] - 1 <= t.lscs[m];
      }
      assert other[n] < Loads(t)[n];
      SumBelow(names, other, Loads(t));
    }
  }
}
