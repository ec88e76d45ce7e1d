/**
 The upload pool as a state machine: one step is one section under the pool's mutex, one
 completed upload, or the store to the atomic `running` flag.  Jobs are named in the order
 they were submitted; an upload that throws counts as failed.
 */
module Uploads {
  import opened Common

  datatype Pc = Idle | Busy(job: nat) | Exited

  datatype Result = Result(job: nat, ok: bool)

  /**
   `started` (jobs in the order workers took them) and `mark` (how many jobs had been
   submitted at the first stop) are history; `results` lists the promises fulfilled.
   */
  datatype State = State(
    queue: seq<nat>, running: bool, workers: seq<Pc>,
    submitted: nat, started: seq<nat>, results: seq<Result>, mark: Option<nat>)

  datatype Action = Submit | Stop | Take(worker: nat) | Finish(worker: nat, ok: bool)

  function Init(n: nat): State {
    State([], true, seq(n, _ => Idle), 0, [], [], None)
  }

  /** One step; an action that is not enabled changes nothing. */
  function Step(s: State, a: Action): State {
    match a
    case Submit => s.(queue := s.queue + [s.submitted], submitted := s.submitted + 1)
    case Stop => s.(running := false, mark := if s.mark.Some? then s.mark else Some(s.submitted))
    case Take(w) =>
      if w >= |s.workers| || !s.workers[w].Idle? then s
      else if s.queue != [] then
        s.(queue := s.queue[1..], workers := s.workers[w := Busy(s.queue[0])], started := s.started + [s.queue[0]])
      else if !s.running then s.(workers := s.workers[w := Exited])
      else s
    case Finish(w, ok) =>
      if w >= |s.workers| || !s.workers[w].Busy? then s
      else s.(workers := s.workers[w := Idle], results := s.results + [Result(s.workers[w].job, ok)])
  }

  function Run(s: State, actions: seq<Action>): State
    decreases |actions|
  {
    if actions == [] then s else Run(Step(s, actions[0]), actions[1..])
  }

  function Held(pc: Pc, job: nat): nat {
    if pc == Busy(job) then 1 else 0
  }

  /** How many workers are busy with a job. */
  function InFlight(workers: seq<Pc>, job: nat): nat {
    if workers == [] then 0 else Held(workers[0], job) + InFlight(workers[1..], job)
  }

  /** How many results a job has. */
  function Resolved(results: seq<Result>, job: nat): nat {
    if results == [] then 0 else
      Resolved(results[..|results| - 1], job) + if results[|results| - 1].job == job then 1 else 0
  }

  /** Places a job is in. */
  function Places(s: State, job: nat): nat {
    multiset(s.queue)[job] + InFlight(s.workers, job) + Resolved(s.results, job)
  }

  /** Jobs in the order they were submitted. */
  function UpTo(n: nat): seq<nat> {
    seq(n, i => i)
  }

  ghost predicate Once(s: State) {
    forall j: nat :: Places(s, j) == if j < s.submitted then 1 else 0
  }

  /** Nobody leaves before the stop, nor while a job submitted before it waits. */
  ghost predicate Leaving(s: State) {
    && (!s.running <==> s.mark.Some?)
    && (s.mark.Some? ==> s.mark.value <= s.submitted)
    && (forall w :: 0 <= w < |s.workers| && s.workers[w].Exited? ==> !s.running && s.mark.value <= |s.started|)
  }

  ghost predicate Inv(s: State) {
    s.started + s.queue == UpTo(s.submitted) && Once(s) && Leaving(s)
  }

  lemma {:induction false} WorkerChanges(workers: seq<Pc>, w: nat, pc: Pc, job: nat)
    requires w < |workers|
    ensures InFlight(workers[w := pc], job) + Held(workers[w], job) == InFlight(workers, job) + Held(pc, job)
  {
    if w == 0 {
      assert workers[w := pc][1..] == workers[1..];
    } else {
      assert workers[w := pc][1..] == workers[1..][w - 1 := pc];
      WorkerChanges(workers[1..], w - 1, pc, job);
    }
  }

  lemma ResolvedSnoc(results: seq<Result>, r: Result, job: nat)
    ensures Resolved(results + [r], job) == Resolved(results, job) + if r.job == job then 1 else 0
  {
    assert (results + [r])[..|results|] == results;
  }

  /** A step moves jobs between places; only a submission adds one. */
  lemma StepPlaces(s: State, a: Action, job: nat)
    ensures Places(Step(s, a), job) == Places(s, job) + if a.Submit? && job == s.submitted then 1 else 0
  {
    match a
    case Submit =>
    case Stop =>
    case Take(w) =>
      if w < |s.workers| && s.workers[w].Idle? {
        if s.queue != [] {
          WorkerChanges(s.workers, w, Busy(s.queue[0]), job);
          assert s.queue == [s.queue[0]] + s.queue[1..];
        } else {
          WorkerChanges(s.workers, w, Exited, job);
        }
      }
    case Finish(w, ok) =>
      if w < |s.workers| && s.workers[w].Busy? {
        WorkerChanges(s.workers, w, Idle, job);
        ResolvedSnoc(s.results, Result(s.workers[w].job, ok), job);
      }
  }

  lemma StepOrder(s: State, a: Action)
    requires s.started + s.queue == UpTo(s.submitted)
    ensures Step(s, a).started + Step(s, a).queue == UpTo(Step(s, a).submitted)
  {
    var t := Step(s, a);
    if a.Submit? {
      assert t.started + t.queue == (s.started + s.queue) + [s.submitted];
      assert UpTo(t.submitted) == UpTo(s.submitted) + [s.submitted];
    } else {
      assert t.started + t.queue == s.started + s.queue;
    }
  }

  lemma StepLeaving(s: State, a: Action)
    requires s.started + s.queue == UpTo(s.submitted) && Leaving(s)
    ensures Leaving(Step(s, a))
  {
    assert |s.started + s.queue| == s.submitted;
  }

  lemma StepKeeps(s: State, a: Action)
    requires Inv(s)
    ensures Inv(Step(s, a))
  {
    forall job: nat
      ensures Places(Step(s, a), job) == Places(s, job) + if a.Submit? && job == s.submitted then 1 else 0
    {
      StepPlaces(s, a, job);
    }
    StepOrder(s, a);
    StepLeaving(s, a);
  }

  lemma {:induction false} RunKeeps(s: State, actions: seq<Action>)
    requires Inv(s)
    ensures Inv(Run(s, actions))
    decreases |actions|
  {
    if actions != [] {
      StepKeeps(s, actions[0]);
      RunKeeps(Step(s, actions[0]), actions[1..]);
    }
  }

  lemma {:induction false} NoneInFlight(workers: seq<Pc>, job: nat)
    requires forall w :: 0 <= w < |workers| ==> !workers[w].Busy?
    ensures InFlight(workers, job) == 0
  {
    if workers != [] {
      assert forall w :: 0 <= w < |workers[1..]| ==> !workers[1..][w].Busy?;
      NoneInFlight(workers[1..], job);
    }
  }

  lemma InitInv(n: nat)
    ensures Inv(Init(n))
  {
    forall job: nat
      ensures Places(Init(n), job) == 0
    {
      NoneInFlight(Init(n).workers, job);
    }
  }

  /** Every submitted job is, exactly once, queued, with a worker, or resolved; jobs start in submission order. */
  lemma NothingLost(n: nat, actions: seq<Action>)
    ensures var s := Run(Init(n), actions);
      && s.started + s.queue == UpTo(s.submitted)
      && (forall j: nat :: Places(s, j) == if j < s.submitted then 1 else 0)
  {
    InitInv(n);
    RunKeeps(Init(n), actions);
  }

  /**
   When every worker has exited, each job submitted before the stop has exactly one result
   and what is still queued was submitted after it; with no such submission the queue is
   empty and every job has its result.
   */
  lemma DrainedOnStop(n: nat, actions: seq<Action>)
    requires n > 0
    requires forall w :: 0 <= w < |Run(Init(n), actions).workers| ==> Run(Init(n), actions).workers[w].Exited?
    ensures var s := Run(Init(n), actions);
      && s.mark.Some?
      && (forall j: nat :: j < s.mark.value ==> Resolved(s.results, j) == 1)
      && (forall j :: j in s.queue ==> s.mark.value <= j)
      && (s.submitted == s.mark.value ==>
            s.queue == [] && forall j: nat :: Resolved(s.results, j) == if j < s.submitted then 1 else 0)
  {
    var s := Run(Init(n), actions);
    InitInv(n);
    RunKeeps(Init(n), actions);
    WorkersStay(Init(n), actions);
    assert s.workers[0].Exited?;
    var all := s.started + s.queue;
    forall j | j in s.queue
      ensures s.mark.value <= j
    {
      var i :| 0 <= i < |s.queue| && s.queue[i] == j;
      assert all[|s.started| + i] == j && UpTo(s.submitted)[|s.started| + i] == |s.started| + i;
    }
    forall j: nat
      ensures Resolved(s.results, j) == Places(s, j) - multiset(s.queue)[j]
    {
      NoneInFlight(s.workers, j);
    }
    forall j: nat | j < s.mark.value
      ensures Resolved(s.results, j) == 1
    {
      assert j !in s.queue;
    }
    assert |all| == s.submitted;
  }

  lemma {:induction false} WorkersStay(s: State, actions: seq<Action>)
    ensures |Run(s, actions).workers| == |s.workers|
    decreases |actions|
  {
    if actions != [] {
      WorkersStay(Step(s, actions[0]), actions[1..]);
    }
  }

  // ---- what the results say ----

  lemma {:induction false} RunSnoc(s: State, actions: seq<Action>, a: Action)
    ensures Run(s, actions + [a]) == Step(Run(s, actions), a)
    decreases |actions|
  {
    if actions == [] {
      assert actions + [a] == [a];
      assert Run(Step(s, a), []) == Step(s, a);
    } else {
      assert (actions + [a])[1..] == actions[1..] + [a];
      RunSnoc(Step(s, actions[0]), actions[1..], a);
    }
  }

  /** At position `k` of a run the worker busy with this job ends its upload this way. */
  predicate Ended(n: nat, actions: seq<Action>, k: nat, job: nat, ok: bool) {
    && k < |actions| && actions[k].Finish? && actions[k].ok == ok
    && var workers := Run(Init(n), actions[..k]).workers;
       actions[k].worker < |workers| && workers[actions[k].worker] == Busy(job)
  }

  /** A job's promise holds a result exactly if its upload ended that way. */
  lemma {:induction false} ResultIffEnded(n: nat, actions: seq<Action>, job: nat, ok: bool)
    ensures Result(job, ok) in Run(Init(n), actions).results <==> exists k: nat :: Ended(n, actions, k, job, ok)
    decreases |actions|
  {
    if actions != [] {
      var m := |actions| - 1;
      var before, a := actions[..m], actions[m];
      assert actions == before + [a];
      ResultIffEnded(n, before, job, ok);
      RunSnoc(Init(n), before, a);
      forall k: nat | k < m
        ensures Ended(n, actions, k, job, ok) <==> Ended(n, before, k, job, ok)
      {
        assert actions[..k] == before[..k];
      }
      LastResult(Run(Init(n), before), a, job, ok);
      assert Ended(n, actions, m, job, ok) <==>
        a.Finish? && a.ok == ok && a.worker < |Run(Init(n), before).workers|
        && Run(Init(n), before).workers[a.worker] == Busy(job);
      if Result(job, ok) in Run(Init(n), before).results {
        var k: nat :| Ended(n, before, k, job, ok);
        assert Ended(n, actions, k, job, ok);
      }
    }
  }

  lemma LastResult(s: State, a: Action, job: nat, ok: bool)
    ensures Result(job, ok) in Step(s, a).results <==>
      || Result(job, ok) in s.results
      || (a.Finish? && a.ok == ok && a.worker < |s.workers| && s.workers[a.worker] == Busy(job))
  {
  }
}
