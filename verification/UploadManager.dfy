/**
 The upload pool's own code against the state machine of its steps.  Before each of a worker's
 steps other threads may have run; `turns` says, step by step, what they did and how an upload
 ended.  The worker is paused when the turns run out.
 */
module UploadManager {
  import opened Common
  import opened Uploads

  datatype Outcome = Uploaded(ok: bool) | Threw

  datatype Turn = Turn(others: seq<Action>, outcome: Outcome)

  predicate FromOutside(actions: seq<Action>) {
    forall a :: a in actions ==> a.Submit? || a.Stop?
  }

  function Succeeded(outcome: Outcome): bool {
    outcome.Uploaded? && outcome.ok
  }

  /** The next step of a worker that has not left. */
  function Own(w: nat, pc: Pc, outcome: Outcome): Action
    requires !pc.Exited?
  {
    if pc.Idle? then Take(w) else Finish(w, Succeeded(outcome))
  }

  /** All steps after the given ones and a worker's turns: each time the others', then its own, until it leaves. */
  function Played(n: nat, trace: seq<Action>, w: nat, turns: seq<Turn>): seq<Action>
    requires w < n
    decreases |turns|
  {
    WorkersStay(Init(n), trace);
    var pc := Run(Init(n), trace).workers[w];
    if turns == [] || pc.Exited? then trace
    else Played(n, trace + turns[0].others + [Own(w, pc, turns[0].outcome)], w, turns[1..])
  }

  lemma PlayedStep(n: nat, trace: seq<Action>, w: nat, turns: seq<Turn>, next: nat)
    requires w < n && next < |turns|
    requires |Run(Init(n), trace).workers| == n && !Run(Init(n), trace).workers[w].Exited?
    ensures var pc := Run(Init(n), trace).workers[w];
      Played(n, trace, w, turns[next..])
      == Played(n, trace + turns[next].others + [Own(w, pc, turns[next].outcome)], w, turns[next + 1..])
  {
    assert turns[next..][0] == turns[next] && turns[next..][1..] == turns[next + 1..];
  }

  /** The others' steps of each turn, each time followed by one step of the worker's. */
  function Interleaved(turns: seq<Turn>, owns: seq<Action>): seq<Action>
    requires |owns| <= |turns|
  {
    if owns == [] then [] else turns[0].others + [owns[0]] + Interleaved(turns[1..], owns[1..])
  }

  /** The worker's steps of its turns. */
  function Owns(n: nat, trace: seq<Action>, w: nat, turns: seq<Turn>): (owns: seq<Action>)
    requires w < n
    ensures |owns| <= |turns|
    decreases |turns|
  {
    WorkersStay(Init(n), trace);
    var pc := Run(Init(n), trace).workers[w];
    if turns == [] || pc.Exited? then [] else
      var own := Own(w, pc, turns[0].outcome);
      [own] + Owns(n, trace + turns[0].others + [own], w, turns[1..])
  }

  /**
   A worker's turns add the others' steps and one of its own a turn, of no other worker; an upload
   ends well exactly if the turn says it was uploaded, and not if it failed or threw.
   */
  lemma {:induction false} PlayedTurns(n: nat, trace: seq<Action>, w: nat, turns: seq<Turn>)
    requires w < n
    ensures var owns := Owns(n, trace, w, turns);
      && Played(n, trace, w, turns) == trace + Interleaved(turns, owns)
      && forall k :: 0 <= k < |owns| ==>
           && !owns[k].Submit? && !owns[k].Stop? && owns[k].worker == w
           && (owns[k].Finish? ==> owns[k].ok == (turns[k].outcome == Uploaded(true)))
    decreases |turns|
  {
    WorkersStay(Init(n), trace);
    var pc := Run(Init(n), trace).workers[w];
    var owns := Owns(n, trace, w, turns);
    if turns == [] || pc.Exited? {
      assert trace + [] == trace;
    } else {
      var own := Own(w, pc, turns[0].outcome);
      var more := trace + turns[0].others + [own];
      PlayedTurns(n, more, w, turns[1..]);
      var rest := Interleaved(turns[1..], owns[1..]);
      assert owns[1..] == Owns(n, more, w, turns[1..]);
      assert more + rest == trace + (turns[0].others + [own] + rest);
    }
  }

  class Manager {
    const workers: nat
    var queue: seq<nat>
    var running: bool
    var submitted: nat
    /** The promises fulfilled. */
    var results: seq<Result>

    /** The steps taken so far. */
    ghost var trace: seq<Action>

    ghost function Machine(): State
      reads this
    {
      Run(Init(workers), trace)
    }

    /** The fields are those of the machine after the steps taken. */
    ghost predicate Valid()
      reads this
    {
      var m := Machine();
      && |m.workers| == workers && m.queue == queue && m.running == running
      && m.submitted == submitted && m.results == results
    }

    ghost function Pc(w: nat): Pc
      requires Valid() && w < workers
      reads this
    {
      Machine().workers[w]
    }

    constructor (workers: nat)
      ensures Valid() && this.workers == workers && trace == []
    {
      this.workers := workers;
      queue, running, submitted, results, trace := [], true, 0, [], [];
    }

    ghost method Record(a: Action)
      modifies this`trace
      ensures trace == old(trace) + [a] && Machine() == Step(old(Machine()), a)
    {
      RunSnoc(Init(workers), trace, a);
      trace := trace + [a];
    }

    /** Returns the name of the job; its promise is fulfilled by the result of that name. */
    method Submit() returns (job: nat)
      requires Valid()
      modifies this
      ensures Valid() && trace == old(trace) + [Action.Submit] && job == old(submitted)
      ensures submitted == job + 1 && queue == old(queue) + [job] && running == old(running) && results == old(results)
      ensures forall v: nat :: v < workers ==> Pc(v) == old(Pc(v))
    {
      Record(Action.Submit);
      job := submitted;
      queue := queue + [job];
      submitted := submitted + 1;
    }

    method Stop()
      requires Valid()
      modifies this
      ensures Valid() && trace == old(trace) + [Action.Stop] && !running
      ensures queue == old(queue) && submitted == old(submitted) && results == old(results)
      ensures forall v: nat :: v < workers ==> Pc(v) == old(Pc(v))
    {
      Record(Action.Stop);
      running := false;
    }

    /** The other threads run. */
    method Meanwhile(others: seq<Action>)
      requires Valid() && FromOutside(others)
      modifies this
      ensures Valid() && trace == old(trace) + others
      ensures forall v: nat :: v < workers ==> Pc(v) == old(Pc(v))
    {
      var i := 0;
      while i < |others|
        invariant 0 <= i <= |others| && Valid() && trace == old(trace) + others[..i]
        invariant forall v: nat :: v < workers ==> Pc(v) == old(Pc(v))
      {
        assert others[i] in others;
        assert others[..i + 1] == others[..i] + [others[i]];
        match others[i] {
          case Submit => var _ := Submit();
          case Stop => Stop();
        }
        i := i + 1;
      }
      assert others[..i] == others;
    }

    /** All steps there will be when worker `w` has used up its turns from `next` on. */
    ghost function All(w: nat, turns: seq<Turn>, next: nat): seq<Action>
      requires w < workers && next <= |turns|
      reads this
    {
      Played(workers, trace, w, turns[next..])
    }

    /** The same when the others have had their part of turn `next`, and `own` is to come. */
    ghost function AllFrom(own: Action, w: nat, turns: seq<Turn>, next: nat): seq<Action>
      requires w < workers && next < |turns|
      reads this
    {
      Played(workers, trace + [own], w, turns[next + 1..])
    }

    /** The others' part of a turn, just before worker `w` takes its own step. */
    method Await(w: nat, turns: seq<Turn>, next: nat)
      requires Valid() && w < workers && !Pc(w).Exited? && next < |turns|
      requires forall t :: t in turns ==> FromOutside(t.others)
      modifies this
      ensures Valid() && Pc(w) == old(Pc(w))
      ensures AllFrom(Own(w, Pc(w), turns[next].outcome), w, turns, next) == old(All(w, turns, next))
    {
      PlayedStep(workers, trace, w, turns, next);
      assert turns[next] in turns;
      Meanwhile(turns[next].others);
    }

    /** Waking up to an empty queue. */
    ghost method WakeInVain(w: nat)
      requires Valid() && w < workers && Pc(w) == Idle && queue == []
      modifies this`trace
      ensures Valid() && trace == old(trace) + [Take(w)] && Pc(w) == if running then Idle else Exited
    {
      Record(Take(w));
    }

    method Pop(w: nat) returns (job: nat)
      requires Valid() && w < workers && Pc(w) == Idle && queue != []
      modifies this`trace, this`queue
      ensures Valid() && trace == old(trace) + [Take(w)]
      ensures old(queue) == [job] + queue && Pc(w) == Busy(job)
    {
      Record(Take(w));
      job := queue[0];
      queue := queue[1..];
    }

    method Fulfil(w: nat, job: nat, ok: bool)
      requires Valid() && w < workers && Pc(w) == Busy(job)
      modifies this`trace, this`results
      ensures Valid() && trace == old(trace) + [Finish(w, ok)]
      ensures results == old(results) + [Result(job, ok)] && Pc(w) == Idle
    {
      Record(Finish(w, ok));
      results := results + [Result(job, ok)];
    }

    /** Waiting for a job or a stop, in the turn already begun; `woken` unless the turns ran out. */
    method Wait(w: nat, turns: seq<Turn>, from: nat) returns (next: nat, woken: bool)
      requires Valid() && w < workers && from < |turns| && Pc(w) == Idle
      requires forall t :: t in turns ==> FromOutside(t.others)
      modifies this
      ensures Valid() && Pc(w) == Idle && from <= next
      ensures if woken
              then next < |turns| && (queue != [] || !running)
                   && AllFrom(Take(w), w, turns, next) == old(AllFrom(Take(w), w, turns, from))
              else trace == old(AllFrom(Take(w), w, turns, from))
    {
      next := from;
      ghost var all := AllFrom(Take(w), w, turns, next);
      while queue == [] && running
        invariant Valid() && from <= next < |turns| && Pc(w) == Idle
        invariant AllFrom(Take(w), w, turns, next) == all
        decreases |turns| - next
      {
        WakeInVain(w);
        next := next + 1;
        if next == |turns| {
          return next, false;
        }
        Await(w, turns, next);
      }
      return next, true;
    }

    /** One job off a queue that is not empty, in the turn already begun, and its upload. */
    method RunJob(w: nat, turns: seq<Turn>, from: nat) returns (next: nat, paused: bool)
      requires Valid() && w < workers && from < |turns| && Pc(w) == Idle && queue != []
      requires forall t :: t in turns ==> FromOutside(t.others)
      modifies this
      ensures Valid() && from < next <= |turns|
      ensures All(w, turns, next) == old(AllFrom(Take(w), w, turns, from))
      ensures if paused then next == |turns| && !Pc(w).Exited? else Pc(w) == Idle
    {
      var job := Pop(w);
      next := from + 1;
      if next == |turns| {
        return next, true;
      }
      Await(w, turns, next);
      Fulfil(w, job, Succeeded(turns[next].outcome));
      return next + 1, false;
    }

    /**
     A worker's thread: its steps are those of the machine, one a turn; `exited` when it left its
     loop rather than being paused.
     */
    method ProcessJobs(w: nat, turns: seq<Turn>) returns (exited: bool)
      requires Valid() && w < workers && Pc(w) == Idle
      requires forall t :: t in turns ==> FromOutside(t.others)
      modifies this
      ensures Valid()
      ensures trace == Played(workers, old(trace), w, turns)
      ensures exited <==> Pc(w).Exited?
      ensures exited ==> !running && queue == []
    {
      ghost var all := All(w, turns, 0);
      assert turns[0..] == turns;
      var next := 0;
      while next < |turns|
        invariant Valid() && 0 <= next <= |turns| && Pc(w) == Idle && All(w, turns, next) == all
        decreases |turns| - next
      {
        Await(w, turns, next);
        var woken;
        next, woken := Wait(w, turns, next);
        if !woken {
          return false;
        }
        if queue == [] {
          WakeInVain(w);
          return true;
        }
        var paused;
        next, paused := RunJob(w, turns, next);
        if paused {
          return false;
        }
      }
      return false;
    }

    /** Whatever this code does, every job is queued, with a worker or resolved, once. */
    lemma KeepsJobs()
      requires Valid()
      ensures forall j: nat :: Places(Machine(), j) == if j < submitted then 1 else 0
      ensures Machine().queue == queue && Machine().results == results
    {
      NothingLost(workers, trace);
      assert Machine() == Run(Init(workers), trace);
    }
  }
}
