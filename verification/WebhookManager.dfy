/**
 The webhook manager's own code against the state machine of its steps: senders, `stop` and
 the worker's nested loops.  Before each of a worker's steps other threads may have run;
 `turns` says, step by step, what they did and how a POST ended.  The worker is paused when
 the turns run out.
 */
module WebhookManager {
  import opened Webhooks

  /** What senders and `stop` do before a worker's next step, and the answer if that step ends a POST. */
  datatype Turn = Turn(others: seq<Action>, ok: bool)

  predicate FromOutside(actions: seq<Action>) {
    forall a :: a in actions ==> a.Send? || a.Stop?
  }

  /** The next step of a worker that has not left. */
  function Own(w: nat, pc: Pc, ok: bool): Action
    requires !pc.Exited?
  {
    match pc
    case Top => Test(w)
    case Waiting => Take(w)
    case Guard(_, _, _) => Try(w)
    case Posting(_, _) => Answer(w, ok)
  }

  /** All steps after the given ones and a worker's turns: each time the others', then its own, until it leaves. */
  function Played(hash: string -> nat, n: nat, trace: seq<Action>, w: nat, turns: seq<Turn>): seq<Action>
    requires w < n
    decreases |turns|
  {
    var pc := Run(hash, Init(n), trace).shards[w].pc;
    if turns == [] || pc.Exited? then trace
    else Played(hash, n, trace + turns[0].others + [Own(w, pc, turns[0].ok)], w, turns[1..])
  }

  lemma PlayedStep(hash: string -> nat, n: nat, trace: seq<Action>, w: nat, turns: seq<Turn>, next: nat)
    requires w < n && next < |turns| && !Run(hash, Init(n), trace).shards[w].pc.Exited?
    ensures var pc := Run(hash, Init(n), trace).shards[w].pc;
      Played(hash, n, trace, w, turns[next..])
      == Played(hash, n, trace + turns[next].others + [Own(w, pc, turns[next].ok)], w, turns[next + 1..])
  {
    assert turns[next..][0] == turns[next] && turns[next..][1..] == turns[next + 1..];
  }

  /** The others' steps of each turn, each time followed by one step of the worker's. */
  function Interleaved(turns: seq<Turn>, owns: seq<Action>): seq<Action>
    requires |owns| <= |turns|
  {
    if owns == [] then [] else turns[0].others + [owns[0]] + Interleaved(turns[1..], owns[1..])
  }

  /** The worker's steps of its turns. */
  function Owns(hash: string -> nat, n: nat, trace: seq<Action>, w: nat, turns: seq<Turn>): (owns: seq<Action>)
    requires w < n
    ensures |owns| <= |turns|
    decreases |turns|
  {
    var pc := Run(hash, Init(n), trace).shards[w].pc;
    if turns == [] || pc.Exited? then [] else
      var own := Own(w, pc, turns[0].ok);
      [own] + Owns(hash, n, trace + turns[0].others + [own], w, turns[1..])
  }

  /**
   A worker's turns add the others' steps and one of its own a turn, of no other worker; the answer
   to a POST is the one the turn gives.
   */
  lemma {:induction false} PlayedTurns(hash: string -> nat, n: nat, trace: seq<Action>, w: nat, turns: seq<Turn>)
    requires w < n
    ensures var owns := Owns(hash, n, trace, w, turns);
      && Played(hash, n, trace, w, turns) == trace + Interleaved(turns, owns)
      && forall k :: 0 <= k < |owns| ==>
           && !owns[k].Send? && !owns[k].Stop? && owns[k].worker == w
           && (owns[k].Answer? ==> owns[k].ok == turns[k].ok)
    decreases |turns|
  {
    var pc := Run(hash, Init(n), trace).shards[w].pc;
    var owns := Owns(hash, n, trace, w, turns);
    if turns == [] || pc.Exited? {
      assert trace + [] == trace;
    } else {
      var own := Own(w, pc, turns[0].ok);
      var more := trace + turns[0].others + [own];
      PlayedTurns(hash, n, more, w, turns[1..]);
      var rest := Interleaved(turns[1..], owns[1..]);
      assert owns[1..] == Owns(hash, n, more, w, turns[1..]);
      assert more + rest == trace + (turns[0].others + [own] + rest);
    }
  }

  class Manager {
    const hash: string -> nat
    const workers: nat
    var sent: seq<Event>
    var running: bool
    var queues: seq<seq<nat>>
    /** What the receivers see: the event of each POST, and the events answered with success. */
    var posts: seq<nat>
    var succeeded: set<nat>

    /** The steps taken so far. */
    ghost var trace: seq<Action>

    ghost function Machine(): State
      requires workers > 0
      reads this
    {
      Run(hash, Init(workers), trace)
    }

    /** The fields are those of the machine after the steps taken. */
    ghost predicate Valid()
      reads this
    {
      && workers > 0 && |queues| == workers
      && var m := Machine();
         && |m.shards| == workers
         && m.sent == sent && m.running == running && m.log == posts && m.done == succeeded
         && forall v :: 0 <= v < workers ==> m.shards[v].queue == queues[v]
    }

    ghost function Pc(w: nat): Pc
      requires Valid() && w < workers
      reads this
    {
      Machine().shards[w].pc
    }

    constructor (hash: string -> nat, workers: nat)
      requires workers > 0
      ensures Valid() && this.workers == workers && this.hash == hash && trace == []
    {
      this.hash, this.workers := hash, workers;
      sent, running, queues, trace := [], true, seq(workers, _ => []), [];
      posts, succeeded := [], {};
    }

    ghost method Record(a: Action)
      requires workers > 0
      modifies this`trace
      ensures trace == old(trace) + [a]
      ensures |old(Machine()).shards| == workers
      ensures Machine() == Step(hash, old(Machine()), a)
    {
      RunSnoc(hash, Init(workers), trace, a);
      trace := trace + [a];
    }

    method Send(event: Event)
      requires Valid()
      modifies this
      ensures Valid() && trace == old(trace) + [Action.Send(event)]
      ensures sent == old(sent) + [event] && running == old(running)
      ensures var home := hash(event.call) % workers;
        |old(queues)| == workers && queues == old(queues)[home := old(queues)[home] + [|old(sent)|]]
      ensures posts == old(posts) && succeeded == old(succeeded)
      ensures forall v: nat :: v < workers ==> Pc(v) == old(Pc(v))
    {
      Record(Action.Send(event));
      var idx := hash(event.call) % workers;
      queues := queues[idx := queues[idx] + [|sent|]];
      sent := sent + [event];
    }

    method Stop()
      requires Valid()
      modifies this
      ensures Valid() && trace == old(trace) + [Action.Stop] && !running
      ensures sent == old(sent) && queues == old(queues) && posts == old(posts) && succeeded == old(succeeded)
      ensures forall v: nat :: v < workers ==> Pc(v) == old(Pc(v))
    {
      Record(Action.Stop);
      running := false;
    }

    /** The other threads run. */
    method Meanwhile(others: seq<Action>)
      requires Valid() && FromOutside(others)
      modifies this
      ensures Valid() && trace == old(trace) + others
      ensures posts == old(posts) && succeeded == old(succeeded) && (running ==> old(running))
      ensures forall v: nat :: v < workers ==> Pc(v) == old(Pc(v))
    {
      var i := 0;
      while i < |others|
        invariant 0 <= i <= |others| && Valid() && trace == old(trace) + others[..i]
        invariant posts == old(posts) && succeeded == old(succeeded) && (running ==> old(running))
        invariant forall v: nat :: v < workers ==> Pc(v) == old(Pc(v))
      {
        assert others[i] in others;
        assert others[..i + 1] == others[..i] + [others[i]];
        match others[i] {
          case Send(event) => Send(event);
          case Stop => Stop();
        }
        i := i + 1;
      }
      assert others[..i] == others;
    }

    /** All steps there will be when worker `w` has used up its turns from `next` on. */
    ghost function All(w: nat, turns: seq<Turn>, next: nat): seq<Action>
      requires w < workers && next <= |turns|
      reads this
    {
      Played(hash, workers, trace, w, turns[next..])
    }

    /** The same when the others have had their part of turn `next`, and `own` is to come. */
    ghost function AllFrom(own: Action, w: nat, turns: seq<Turn>, next: nat): seq<Action>
      requires w < workers && next < |turns|
      reads this
    {
      Played(hash, workers, trace + [own], w, turns[next + 1..])
    }

    /** The others' part of a turn, just before worker `w` takes its own step. */
    method Await(w: nat, turns: seq<Turn>, next: nat)
      requires Valid() && w < workers && !Pc(w).Exited? && next < |turns|
      requires forall t :: t in turns ==> FromOutside(t.others)
      modifies this
      ensures Valid() && Pc(w) == old(Pc(w))
      ensures posts == old(posts) && succeeded == old(succeeded) && (running ==> old(running))
      ensures AllFrom(Own(w, Pc(w), turns[next].ok), w, turns, next) == old(All(w, turns, next))
    {
      PlayedStep(hash, workers, trace, w, turns, next);
      assert turns[next] in turns;
      Meanwhile(turns[next].others);
    }

    // ---- a worker's own steps ----

    ghost method TestRunning(w: nat)
      requires Valid() && w < workers && Pc(w) == Top
      modifies this`trace
      ensures Valid() && trace == old(trace) + [Test(w)]
      ensures Pc(w) == if running then Waiting else Exited
    {
      Record(Test(w));
    }

    /** Waking up to an empty queue. */
    ghost method WakeInVain(w: nat)
      requires Valid() && w < workers && Pc(w) == Waiting && queues[w] == []
      modifies this`trace
      ensures Valid() && trace == old(trace) + [Take(w)]
      ensures Pc(w) == if running then Waiting else Exited
    {
      Record(Take(w));
    }

    method Pop(w: nat) returns (id: nat)
      requires Valid() && w < workers && Pc(w) == Waiting && queues[w] != []
      modifies this`trace, this`queues
      ensures Valid() && trace == old(trace) + [Take(w)]
      ensures id == old(queues)[w][0] && queues == old(queues)[w := old(queues)[w][1..]]
      ensures Pc(w) == if id < |sent| && sent[id].url != "" then Guard(id, 0, false) else Top
    {
      Record(Take(w));
      id := queues[w][0];
      queues := queues[w := queues[w][1..]];
    }

    method BeginPost(w: nat, id: nat, attempts: nat)
      requires Valid() && w < workers && Pc(w) == Guard(id, attempts, false) && attempts < MAX_RETRIES && running
      modifies this`trace, this`posts
      ensures Valid() && trace == old(trace) + [Try(w)] && posts == old(posts) + [id]
      ensures Pc(w) == Posting(id, attempts + 1)
    {
      Record(Try(w));
      posts := posts + [id];
    }

    method EndPost(w: nat, id: nat, attempts: nat, ok: bool)
      requires Valid() && w < workers && Pc(w) == Posting(id, attempts)
      modifies this`trace, this`succeeded
      ensures Valid() && trace == old(trace) + [Answer(w, ok)]
      ensures succeeded == if ok then old(succeeded) + {id} else old(succeeded)
      ensures Pc(w) == Guard(id, attempts, ok)
    {
      Record(Answer(w, ok));
      if ok {
        succeeded := succeeded + {id};
      }
    }

    ghost method LeaveRetries(w: nat, id: nat, attempts: nat, success: bool)
      requires Valid() && w < workers && Pc(w) == Guard(id, attempts, success)
      requires success || attempts >= MAX_RETRIES || !running
      modifies this`trace
      ensures Valid() && trace == old(trace) + [Try(w)] && Pc(w) == Top
    {
      Record(Try(w));
    }

    // ---- the loops ----

    /** One POST, up to the next test of the retry loop's guard. */
    method Attempt(w: nat, id: nat, attempts: nat, turns: seq<Turn>, from: nat)
      returns (next: nat, success: bool, paused: bool)
      requires Valid() && w < workers && from < |turns| && running
      requires forall t :: t in turns ==> FromOutside(t.others)
      requires Pc(w) == Guard(id, attempts, false) && attempts < MAX_RETRIES
      modifies this
      ensures Valid() && from < next <= |turns| && (paused <==> next == |turns|)
      ensures if paused
              then trace == old(AllFrom(Try(w), w, turns, from)) && !Pc(w).Exited?
              else Pc(w) == Guard(id, attempts + 1, success)
                   && AllFrom(Try(w), w, turns, next) == old(AllFrom(Try(w), w, turns, from))
                   && success == turns[from + 1].ok
      ensures posts == old(posts) + [id]
      ensures !paused ==> succeeded == if success then old(succeeded) + {id} else old(succeeded)
    {
      success, next := false, from + 1;
      BeginPost(w, id, attempts);
      if next == |turns| {
        return next, false, true;
      }
      Await(w, turns, next);
      success := turns[next].ok;
      EndPost(w, id, attempts + 1, success);
      next := next + 1;
      if next == |turns| {
        return next, success, true;
      }
      Await(w, turns, next);
      paused := false;
    }

    /** One item: at most three POSTs, stopping at success or when the manager stops. `next` counts turns used. */
    method Deliver(w: nat, id: nat, turns: seq<Turn>, from: nat) returns (next: nat, finished: bool)
      requires Valid() && w < workers && from <= |turns|
      requires forall t :: t in turns ==> FromOutside(t.others)
      requires Pc(w) == Guard(id, 0, false)
      modifies this
      ensures Valid() && from <= next <= |turns|
      ensures All(w, turns, next) == old(All(w, turns, from))
      ensures if finished then Pc(w) == Top else next == |turns| && !Pc(w).Exited?
      ensures |old(posts)| <= |posts| <= |old(posts)| + 3
      ensures posts == old(posts) + seq(|posts| - |old(posts)|, _ => id)
      ensures finished ==> id in succeeded || |posts| == |old(posts)| + 3 || !running
    {
      next := from;
      if next == |turns| {
        return next, false;
      }
      ghost var all := All(w, turns, next);
      Await(w, turns, next);
      var success, attempts := false, 0;
      while !success && attempts < MAX_RETRIES && running
        invariant Valid() && from <= next < |turns|
        invariant Pc(w) == Guard(id, attempts, success)
        invariant AllFrom(Try(w), w, turns, next) == all
        invariant attempts <= 3 && posts == old(posts) + seq(attempts, _ => id) && (success ==> id in succeeded)
        decreases MAX_RETRIES - attempts
      {
        var paused;
        next, success, paused := Attempt(w, id, attempts, turns, next);
        attempts := attempts + 1;
        if paused {
          return next, false;
        }
      }
      LeaveRetries(w, id, attempts, success);
      return next + 1, true;
    }

    /** Waiting for an item or a stop, in the turn already begun; `woken` unless the turns ran out. */
    method Wait(w: nat, turns: seq<Turn>, from: nat) returns (next: nat, woken: bool)
      requires Valid() && w < workers && from < |turns| && Pc(w) == Waiting
      requires forall t :: t in turns ==> FromOutside(t.others)
      modifies this
      ensures Valid() && Pc(w) == Waiting && from <= next
      ensures if woken
              then next < |turns| && (queues[w] != [] || !running)
                   && AllFrom(Take(w), w, turns, next) == old(AllFrom(Take(w), w, turns, from))
              else trace == old(AllFrom(Take(w), w, turns, from))
    {
      next := from;
      ghost var all := AllFrom(Take(w), w, turns, next);
      while queues[w] == [] && running
        invariant Valid() && from <= next < |turns| && Pc(w) == Waiting
        invariant AllFrom(Take(w), w, turns, next) == all
        decreases |turns| - next
      {
        WakeInVain(w);
        next := next + 1;
        if next == |turns| {
          return next, false;
        }
        Await(w, turns, next);
      }
      return next, true;
    }

    /** The next item off a queue that is not empty, in the turn already begun. */
    method TakeItem(w: nat, turns: seq<Turn>, from: nat) returns (next: nat, more: bool)
      requires Valid() && w < workers && from < |turns| && Pc(w) == Waiting && queues[w] != []
      requires forall t :: t in turns ==> FromOutside(t.others)
      modifies this
      ensures Valid() && from < next <= |turns|
      ensures All(w, turns, next) == old(AllFrom(Take(w), w, turns, from))
      ensures if more then Pc(w) == Top else next == |turns| && !Pc(w).Exited?
    {
      var id := Pop(w);
      next, more := from + 1, true;
      if id < |sent| && sent[id].url != "" {
        next, more := Deliver(w, id, turns, next);
      }
    }

    /** One turn of the outer loop after its guard: the wait and, unless stopped, one item. */
    method NextItem(w: nat, turns: seq<Turn>, from: nat) returns (next: nat, more: bool, exited: bool)
      requires Valid() && w < workers && from <= |turns| && Pc(w) == Waiting
      requires forall t :: t in turns ==> FromOutside(t.others)
      modifies this
      ensures Valid() && from <= next <= |turns|
      ensures All(w, turns, next) == old(All(w, turns, from))
      ensures exited <==> Pc(w).Exited?
      ensures if more then Pc(w) == Top else if exited then !running && queues[w] == [] else next == |turns|
    {
      next := from;
      if next == |turns| {
        return next, false, false;
      }
      Await(w, turns, next);
      var woken;
      next, woken := Wait(w, turns, next);
      if !woken {
        return |turns|, false, false;
      }
      if queues[w] == [] {
        WakeInVain(w);
        return next + 1, false, true;
      }
      next, more := TakeItem(w, turns, next);
      exited := false;
    }

    /**
     A worker's thread, from the top of its loop: its steps are those of the machine, one a turn;
     `exited` when it left rather than being paused.
     */
    method ProcessRequests(w: nat, turns: seq<Turn>) returns (exited: bool)
      requires Valid() && w < workers && Pc(w) == Top
      requires forall t :: t in turns ==> FromOutside(t.others)
      modifies this
      ensures Valid()
      ensures trace == Played(hash, workers, old(trace), w, turns)
      ensures exited <==> Pc(w).Exited?
      ensures exited ==> !running
    {
      ghost var all := All(w, turns, 0);
      assert turns[0..] == turns;
      if turns == [] {
        return false;
      }
      var next, more := 0, true;
      Await(w, turns, next);
      while running
        invariant Valid() && next < |turns| && Pc(w) == Top
        invariant AllFrom(Test(w), w, turns, next) == all
        decreases |turns| - next
      {
        TestRunning(w);
        next, more, exited := NextItem(w, turns, next + 1);
        if !more {
          return;
        }
        if next == |turns| {
          return false;
        }
        Await(w, turns, next);
      }
      TestRunning(w);
      return true;
    }

    predicate OneCall(a: nat, b: nat)
      reads this`sent
    {
      a < |sent| && b < |sent| && sent[a].call == sent[b].call
    }

    /** Whatever this code does, the POSTs it makes keep the order promised for each call. */
    lemma KeepsOrder()
      requires Valid()
      ensures forall id :: id in posts ==> id < |sent|
      ensures forall i, j :: 0 <= i < j < |posts| && OneCall(posts[i], posts[j]) ==> posts[i] <= posts[j]
      ensures forall id: nat :: Count(posts, id) <= MAX_RETRIES
      ensures forall id: nat, earlier: nat :: id in posts && earlier < id && OneCall(earlier, id) ==>
                sent[earlier].url == "" || earlier in succeeded || Count(posts, earlier) == MAX_RETRIES
    {
      OrderPerCall(hash, workers, trace);
      var s := Machine();
      assert s == Run(hash, Init(workers), trace);
      assert forall a: nat, b: nat :: OneCall(a, b) <==> SameCall(s, a, b);
    }
  }
}
