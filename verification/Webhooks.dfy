/**
 The sharded webhook queues as a state machine: one step is one section under a shard's mutex
 or one access to the atomic `running` flag.  Any number of senders, one worker a shard.
 Events are named by their position in the global order of `send`.

 A worker waits until its queue is non-empty or `running` is false; since `running` only ever
 goes from true to false, the two reads of it around the wait agree, and waking up, testing and
 popping are one step.
 */
module Webhooks {
  import opened Common

  const MAX_RETRIES := 3

  datatype Event = Event(call: string, url: string, json: string)

  datatype Pc =
    | Top                                           // about to test the outer loop's guard
    | Waiting                                       // about to wait on the queue
    | Guard(id: nat, attempts: nat, success: bool)  // about to test the retry loop's guard
    | Posting(id: nat, attempts: nat)               // a POST is in flight
    | Exited

  /** `popped` is history: what the worker has taken off the queue. */
  datatype Shard = Shard(queue: seq<nat>, pc: Pc, popped: seq<nat>)

  /** `log` lists the events of the POST attempts in the order they began, `done` the events that succeeded. */
  datatype State = State(sent: seq<Event>, running: bool, shards: seq<Shard>, log: seq<nat>, done: set<nat>)

  datatype Action =
    | Send(event: Event)
    | Stop
    | Test(worker: nat)
    | Take(worker: nat)
    | Try(worker: nat)
    | Answer(worker: nat, ok: bool)

  function Init(n: nat): State {
    State([], true, seq(n, _ => Shard([], Top, [])), [], {})
  }

  /** The shard of a call. */
  function Home(hash: string -> nat, n: nat, call: string): nat
    requires n > 0
  {
    hash(call) % n
  }

  function WithPc(s: State, w: nat, pc: Pc): State
    requires w < |s.shards|
  {
    s.(shards := s.shards[w := s.shards[w].(pc := pc)])
  }

  /** One step; an action that is not enabled changes nothing. */
  function Step(hash: string -> nat, s: State, a: Action): State
    requires |s.shards| > 0
  {
    if !a.Send? && !a.Stop? && a.worker >= |s.shards| then s else
      match a
      case Send(event) =>
        var w := Home(hash, |s.shards|, event.call);
        var shard := s.shards[w];
        s.(sent := s.sent + [event], shards := s.shards[w := shard.(queue := shard.queue + [|s.sent|])])
      case Stop => s.(running := false)
      case Test(w) =>
        if !s.shards[w].pc.Top? then s
        else WithPc(s, w, if s.running then Waiting else Exited)
      case Take(w) =>
        var shard := s.shards[w];
        if !shard.pc.Waiting? then s
        else if shard.queue != [] then
          var id := shard.queue[0];
          var pc := if id < |s.sent| && s.sent[id].url != "" then Guard(id, 0, false) else Top;
          s.(shards := s.shards[w := Shard(shard.queue[1..], pc, shard.popped + [id])])
        else if !s.running then WithPc(s, w, Exited)
        else s
      case Try(w) =>
        if !s.shards[w].pc.Guard? then s else
          var g := s.shards[w].pc;
          if !g.success && g.attempts < MAX_RETRIES && s.running
          then WithPc(s, w, Posting(g.id, g.attempts + 1)).(log := s.log + [g.id])
          else WithPc(s, w, Top)
      case Answer(w, ok) =>
        if !s.shards[w].pc.Posting? then s else
          var p := s.shards[w].pc;
          WithPc(s, w, Guard(p.id, p.attempts, ok)).(done := if ok then s.done + {p.id} else s.done)
  }

  function Run(hash: string -> nat, s: State, actions: seq<Action>): (t: State)
    requires |s.shards| > 0
    ensures |t.shards| == |s.shards|
    decreases |actions|
  {
    if actions == [] then s else Run(hash, Step(hash, s, actions[0]), actions[1..])
  }

  function Count(log: seq<nat>, id: nat): nat {
    if log == [] then 0 else Count(log[..|log| - 1], id) + if log[|log| - 1] == id then 1 else 0
  }

  /** The events of shard `w`, in the order they were sent. */
  function IdsOf(hash: string -> nat, n: nat, sent: seq<Event>, w: nat): seq<nat>
    requires n > 0
  {
    if sent == [] then [] else
      var last := |sent| - 1;
      IdsOf(hash, n, sent[..last], w) + if Home(hash, n, sent[last].call) == w then [last] else []
  }

  /** Nothing more is owed for this event. */
  predicate Settled(s: State, id: nat)
    requires id < |s.sent|
  {
    s.sent[id].url == "" || id in s.done || Count(s.log, id) == MAX_RETRIES
  }

  // ---- the invariant ----

  /** Every event of `ids` up to position `n` is settled. */
  predicate SettledUpTo(s: State, ids: seq<nat>, n: nat)
    requires n <= |ids|
  {
    forall i :: 0 <= i < n ==> ids[i] < |s.sent| && Settled(s, ids[i])
  }

  predicate Working(shard: Shard, id: nat) {
    shard.popped != [] && shard.popped[|shard.popped| - 1] == id
  }

  /** FIFO: what a worker took is a prefix of what was sent to its shard; all but the last is settled. */
  ghost predicate ShardOk(hash: string -> nat, s: State, w: nat)
    requires |s.shards| > 0 && w < |s.shards|
  {
    var shard := s.shards[w];
    var m := |shard.popped|;
    && shard.popped + shard.queue == IdsOf(hash, |s.shards|, s.sent, w)
    && SettledUpTo(s, shard.popped, if m == 0 then 0 else m - 1)
    && (match shard.pc
        case Top => s.running ==> SettledUpTo(s, shard.popped, m)
        case Waiting => SettledUpTo(s, shard.popped, m)
        case Guard(id, attempts, success) =>
          && Working(shard, id) && id < |s.sent| && s.sent[id].url != ""
          && Count(s.log, id) == attempts <= MAX_RETRIES && (success <==> id in s.done)
        case Posting(id, attempts) =>
          && Working(shard, id) && id < |s.sent| && s.sent[id].url != ""
          && Count(s.log, id) == attempts <= MAX_RETRIES && id !in s.done
        case Exited => !s.running)
  }

  /** Attempts are only made for events already taken, in shard order, at most three an event. */
  ghost predicate LogOk(hash: string -> nat, s: State)
    requires |s.shards| > 0
  {
    && (forall id :: id in s.log || id in s.done ==>
          id < |s.sent| && id in s.shards[Home(hash, |s.shards|, s.sent[id].call)].popped)
    && (forall id :: id in s.log ==> s.sent[id].url != "")
    && (forall id: nat :: Count(s.log, id) <= MAX_RETRIES)
    && (forall i, j :: 0 <= i < j < |s.log| && SameShard(hash, s, s.log[i], s.log[j]) ==> s.log[i] <= s.log[j])
  }

  predicate SameShard(hash: string -> nat, s: State, a: nat, b: nat)
    requires |s.shards| > 0
  {
    a < |s.sent| && b < |s.sent|
    && Home(hash, |s.shards|, s.sent[a].call) == Home(hash, |s.shards|, s.sent[b].call)
  }

  ghost predicate Inv(hash: string -> nat, s: State) {
    |s.shards| > 0 && LogOk(hash, s) && forall w :: 0 <= w < |s.shards| ==> ShardOk(hash, s, w)
  }

  // ---- helpers ----

  lemma {:induction false} IdsAre(hash: string -> nat, n: nat, sent: seq<Event>, w: nat)
    requires n > 0
    ensures var ids := IdsOf(hash, n, sent, w);
      && Increasing(ids)
      && (forall id :: id in ids <==> 0 <= id < |sent| && Home(hash, n, sent[id].call) == w)
  {
    if sent != [] {
      var last := |sent| - 1;
      IdsAre(hash, n, sent[..last], w);
      var before := IdsOf(hash, n, sent[..last], w);
      forall i | 0 <= i < |before|
        ensures before[i] < last
      {
        assert before[i] in before;
      }
    }
  }

  lemma {:induction false} CountIn(log: seq<nat>, id: nat)
    ensures Count(log, id) > 0 <==> id in log
  {
    if log != [] {
      var n := |log| - 1;
      CountIn(log[..n], id);
      assert log == log[..n] + [log[n]];
    }
  }

  lemma CountSnoc(log: seq<nat>, x: nat, id: nat)
    ensures Count(log + [x], id) == Count(log, id) + if x == id then 1 else 0
  {
    assert (log + [x])[..|log|] == log;
  }

  /** An event taken by worker `w` belongs to shard `w` and is at most the last one taken. */
  lemma TakenAre(hash: string -> nat, s: State, w: nat, id: nat)
    requires |s.shards| > 0 && w < |s.shards| && ShardOk(hash, s, w) && id in s.shards[w].popped
    ensures id < |s.sent| && Home(hash, |s.shards|, s.sent[id].call) == w
    ensures id <= s.shards[w].popped[|s.shards[w].popped| - 1]
  {
    var shard := s.shards[w];
    var ids := shard.popped + shard.queue;
    IdsAre(hash, |s.shards|, s.sent, w);
    var i :| 0 <= i < |shard.popped| && shard.popped[i] == id;
    assert ids[i] == id && id in ids;
    assert ids[|shard.popped| - 1] == shard.popped[|shard.popped| - 1];
  }

  /** A shard whose own state did not change stays in order when settled events stay settled. */
  lemma OtherShard(hash: string -> nat, s: State, t: State, v: nat)
    requires |s.shards| == |t.shards| > 0 && v < |s.shards| && ShardOk(hash, s, v)
    requires t.shards[v] == s.shards[v] && t.sent == s.sent
    requires t.running ==> s.running
    requires forall id :: id in s.shards[v].popped ==>
               Count(t.log, id) == Count(s.log, id) && (id in t.done <==> id in s.done)
    ensures ShardOk(hash, t, v)
  {
    var popped := s.shards[v].popped;
    forall i | 0 <= i < |popped|
      ensures popped[i] in popped
    {
    }
  }

  // ---- steps ----

  /** The event joins the queue of its own shard; settled events stay settled. */
  lemma SendShard(hash: string -> nat, s: State, event: Event, v: nat)
    requires |s.shards| > 0 && v < |s.shards| && ShardOk(hash, s, v)
    ensures ShardOk(hash, Step(hash, s, Send(event)), v)
  {
    var t := Step(hash, s, Send(event));
    var was, now := s.shards[v], t.shards[v];
    assert t.sent[..|s.sent|] == s.sent;
    assert now.popped == was.popped && now.pc == was.pc;
    assert (was.popped + was.queue) + [|s.sent|] == was.popped + (was.queue + [|s.sent|]);
    forall i | 0 <= i < |was.popped| && was.popped[i] < |s.sent|
      ensures Settled(s, was.popped[i]) ==> Settled(t, was.popped[i])
    {
      assert t.sent[was.popped[i]] == s.sent[was.popped[i]];
    }
  }

  lemma SendLog(hash: string -> nat, s: State, event: Event)
    requires |s.shards| > 0 && LogOk(hash, s)
    ensures LogOk(hash, Step(hash, s, Send(event)))
  {
    var t := Step(hash, s, Send(event));
    forall id | id in s.log || id in s.done
      ensures id < |t.sent| && t.sent[id] == s.sent[id]
      ensures id in t.shards[Home(hash, |t.shards|, t.sent[id].call)].popped
    {
      assert id < |s.sent| && t.sent[id] == s.sent[id];
      var v := Home(hash, |s.shards|, s.sent[id].call);
      assert t.shards[v].popped == s.shards[v].popped;
    }
    forall i, j | 0 <= i < j < |t.log| && SameShard(hash, t, t.log[i], t.log[j])
      ensures t.log[i] <= t.log[j]
    {
      assert s.log[i] in s.log && s.log[j] in s.log;
      assert SameShard(hash, s, s.log[i], s.log[j]);
    }
  }

  lemma SendKeeps(hash: string -> nat, s: State, event: Event)
    requires Inv(hash, s)
    ensures Inv(hash, Step(hash, s, Send(event)))
  {
    forall v | 0 <= v < |s.shards|
      ensures ShardOk(hash, Step(hash, s, Send(event)), v)
    {
      SendShard(hash, s, event, v);
    }
    SendLog(hash, s, event);
  }

  lemma PcKeeps(hash: string -> nat, s: State, w: nat, t: State)
    requires Inv(hash, s) && w < |s.shards|
    requires |t.shards| == |s.shards| && t == WithPc(s, w, t.shards[w].pc)
    requires ShardOk(hash, t, w)
    ensures Inv(hash, t)
  {
    forall v | 0 <= v < |t.shards|
      ensures ShardOk(hash, t, v)
    {
      if v != w {
        OtherShard(hash, s, t, v);
      }
    }
    SamePopped(hash, s, t);
  }

  lemma SamePopped(hash: string -> nat, s: State, t: State)
    requires |s.shards| == |t.shards| > 0 && LogOk(hash, s)
    requires t.sent == s.sent && t.log == s.log && t.done == s.done
    requires forall v :: 0 <= v < |s.shards| ==> s.shards[v].popped <= t.shards[v].popped
    ensures LogOk(hash, t)
  {
    forall id | id in t.log || id in t.done
      ensures id < |t.sent| && id in t.shards[Home(hash, |t.shards|, t.sent[id].call)].popped
    {
      var v := Home(hash, |s.shards|, s.sent[id].call);
      assert s.shards[v].popped <= t.shards[v].popped;
    }
    assert forall i, j :: 0 <= i < j < |s.log| && SameShard(hash, t, s.log[i], s.log[j]) ==>
      SameShard(hash, s, s.log[i], s.log[j]);
  }

  lemma TakeKeeps(hash: string -> nat, s: State, w: nat)
    requires Inv(hash, s) && w < |s.shards| && s.shards[w].pc.Waiting? && s.shards[w].queue != []
    ensures Inv(hash, Step(hash, s, Take(w)))
  {
    var t := Step(hash, s, Take(w));
    var was, now := s.shards[w], t.shards[w];
    var id := was.queue[0];
    var ids := was.popped + was.queue;
    assert now.popped + now.queue == ids;
    assert ShardOk(hash, s, w);
    IdsAre(hash, |s.shards|, s.sent, w);
    assert ids[|was.popped|] == id && id in ids;
    forall i | 0 <= i < |was.popped|
      ensures was.popped[i] < id
    {
      assert ids[i] == was.popped[i];
    }
    assert id !in was.popped;
    CountIn(s.log, id);
    assert SettledUpTo(t, now.popped, |now.popped| - 1);
    forall v | 0 <= v < |t.shards|
      ensures ShardOk(hash, t, v)
    {
      if v != w {
        OtherShard(hash, s, t, v);
      }
    }
    SamePopped(hash, s, t);
  }

  lemma TryKeeps(hash: string -> nat, s: State, w: nat)
    requires Inv(hash, s) && w < |s.shards| && s.shards[w].pc.Guard?
    requires !s.shards[w].pc.success && s.shards[w].pc.attempts < MAX_RETRIES && s.running
    ensures Inv(hash, Step(hash, s, Try(w)))
  {
    var t := Step(hash, s, Try(w));
    var id := s.shards[w].pc.id;
    assert ShardOk(hash, s, w);
    assert id in s.shards[w].popped;
    TakenAre(hash, s, w, id);
    forall k: nat
      ensures Count(t.log, k) == Count(s.log, k) + if k == id then 1 else 0
    {
      CountSnoc(s.log, id, k);
    }
    forall v | 0 <= v < |t.shards|
      ensures ShardOk(hash, t, v)
    {
      if v != w {
        forall k | k in s.shards[v].popped
          ensures k != id
        {
          TakenAre(hash, s, v, k);
        }
        OtherShard(hash, s, t, v);
      } else {
        TryOwnShard(hash, s, w, t);
      }
    }
    TryLog(hash, s, w, t);
  }

  lemma TryLog(hash: string -> nat, s: State, w: nat, t: State)
    requires |s.shards| > 0 && w < |s.shards| && LogOk(hash, s) && ShardOk(hash, s, w) && s.shards[w].pc.Guard?
    requires s.shards[w].pc.id in s.shards[w].popped
    requires !s.shards[w].pc.success && s.shards[w].pc.attempts < MAX_RETRIES && s.running
    requires t == Step(hash, s, Try(w))
    requires forall k: nat :: Count(t.log, k) == Count(s.log, k) + if k == s.shards[w].pc.id then 1 else 0
    ensures LogOk(hash, t)
  {
    var id := s.shards[w].pc.id;
    TakenAre(hash, s, w, id);
    assert t.log == s.log + [id];
    forall v | 0 <= v < |s.shards|
      ensures t.shards[v].popped == s.shards[v].popped
    {
    }
    forall i, j | 0 <= i < j < |t.log| && SameShard(hash, t, t.log[i], t.log[j])
      ensures t.log[i] <= t.log[j]
    {
      if j < |s.log| {
        assert SameShard(hash, s, s.log[i], s.log[j]);
      } else {
        assert s.log[i] in s.log;
        TakenAre(hash, s, w, s.log[i]);
      }
    }
  }

  lemma TryOwnShard(hash: string -> nat, s: State, w: nat, t: State)
    requires |s.shards| > 0 && w < |s.shards| && ShardOk(hash, s, w) && s.shards[w].pc.Guard?
    requires !s.shards[w].pc.success && s.shards[w].pc.attempts < MAX_RETRIES && s.running
    requires t == Step(hash, s, Try(w))
    requires forall k: nat :: Count(t.log, k) == Count(s.log, k) + if k == s.shards[w].pc.id then 1 else 0
    ensures ShardOk(hash, t, w)
  {
    var popped, id := s.shards[w].popped, s.shards[w].pc.id;
    assert t.shards[w].popped == popped && t.shards[w].queue == s.shards[w].queue;
    forall i | 0 <= i < |popped| - 1
      ensures popped[i] < |t.sent| && Settled(t, popped[i])
    {
      TakenBefore(hash, s, w, i);
      assert Settled(s, popped[i]) && Count(t.log, popped[i]) == Count(s.log, popped[i]);
    }
    assert SettledUpTo(t, popped, |popped| - 1);
  }

  /** What a worker took before the last event is smaller than it. */
  lemma TakenBefore(hash: string -> nat, s: State, w: nat, i: nat)
    requires |s.shards| > 0 && w < |s.shards| && ShardOk(hash, s, w) && i < |s.shards[w].popped| - 1
    ensures s.shards[w].popped[i] < s.shards[w].popped[|s.shards[w].popped| - 1]
  {
    var popped := s.shards[w].popped;
    var ids := popped + s.shards[w].queue;
    IdsAre(hash, |s.shards|, s.sent, w);
    assert ids[i] == popped[i] && ids[|popped| - 1] == popped[|popped| - 1];
  }

  lemma AnswerKeeps(hash: string -> nat, s: State, w: nat, ok: bool)
    requires Inv(hash, s) && w < |s.shards| && s.shards[w].pc.Posting?
    ensures Inv(hash, Step(hash, s, Answer(w, ok)))
  {
    var t := Step(hash, s, Answer(w, ok));
    var id := s.shards[w].pc.id;
    assert ShardOk(hash, s, w);
    assert id in s.shards[w].popped;
    TakenAre(hash, s, w, id);
    forall v | 0 <= v < |t.shards|
      ensures ShardOk(hash, t, v)
    {
      if v != w {
        forall k | k in s.shards[v].popped
          ensures k != id
        {
          TakenAre(hash, s, v, k);
        }
        OtherShard(hash, s, t, v);
      }
    }
    assert forall i, j :: 0 <= i < j < |s.log| && SameShard(hash, t, s.log[i], s.log[j]) ==>
      SameShard(hash, s, s.log[i], s.log[j]);
  }

  lemma StopKeeps(hash: string -> nat, s: State)
    requires Inv(hash, s)
    ensures Inv(hash, Step(hash, s, Stop))
  {
    var t := Step(hash, s, Stop);
    forall v | 0 <= v < |t.shards|
      ensures ShardOk(hash, t, v)
    {
      OtherShard(hash, s, t, v);
    }
    SamePopped(hash, s, t);
  }

  /** A worker's step that only moves its program counter. */
  lemma IdleKeeps(hash: string -> nat, s: State, a: Action)
    requires Inv(hash, s) && !a.Send? && !a.Stop? && a.worker < |s.shards|
    requires a.Test? || (a.Take? && s.shards[a.worker].queue == [])
             || (a.Try? && s.shards[a.worker].pc.Guard?
                 && (s.shards[a.worker].pc.success || s.shards[a.worker].pc.attempts >= MAX_RETRIES || !s.running))
    ensures Inv(hash, Step(hash, s, a))
  {
    var t := Step(hash, s, a);
    assert ShardOk(hash, s, a.worker);
    if t != s {
      PcKeeps(hash, s, a.worker, t);
    }
  }

  lemma StepKeeps(hash: string -> nat, s: State, a: Action)
    requires Inv(hash, s)
    ensures Inv(hash, Step(hash, s, a))
  {
    match a
    case Send(event) => SendKeeps(hash, s, event);
    case Stop => StopKeeps(hash, s);
    case Test(w) =>
      if w < |s.shards| {
        IdleKeeps(hash, s, a);
      }
    case Take(w) =>
      if w < |s.shards| && s.shards[w].pc.Waiting? {
        if s.shards[w].queue != [] {
          TakeKeeps(hash, s, w);
        } else {
          IdleKeeps(hash, s, a);
        }
      }
    case Try(w) =>
      if w < |s.shards| && s.shards[w].pc.Guard? {
        var g := s.shards[w].pc;
        if !g.success && g.attempts < MAX_RETRIES && s.running {
          TryKeeps(hash, s, w);
        } else {
          IdleKeeps(hash, s, a);
        }
      }
    case Answer(w, ok) =>
      if w < |s.shards| && s.shards[w].pc.Posting? {
        AnswerKeeps(hash, s, w, ok);
      }
  }

  lemma {:induction false} RunKeeps(hash: string -> nat, s: State, actions: seq<Action>)
    requires Inv(hash, s)
    ensures Inv(hash, Run(hash, s, actions))
    decreases |actions|
  {
    if actions != [] {
      StepKeeps(hash, s, actions[0]);
      RunKeeps(hash, Step(hash, s, actions[0]), actions[1..]);
    }
  }

  lemma InitInv(hash: string -> nat, n: nat)
    requires n > 0
    ensures Inv(hash, Init(n))
  {
  }

  // ---- the promises ----

  predicate SameCall(s: State, a: nat, b: nat) {
    a < |s.sent| && b < |s.sent| && s.sent[a].call == s.sent[b].call
  }

  /**
   Under every interleaving: the attempts for one call are in the order its events were sent,
   no event gets more than three, and an attempt for an event means that every earlier event
   of the call that has a URL succeeded or used all three.
   */
  lemma OrderPerCall(hash: string -> nat, n: nat, actions: seq<Action>)
    requires n > 0
    ensures var s := Run(hash, Init(n), actions);
      && (forall id :: id in s.log ==> id < |s.sent|)
      && (forall i, j :: 0 <= i < j < |s.log| && SameCall(s, s.log[i], s.log[j]) ==> s.log[i] <= s.log[j])
      && (forall id: nat :: Count(s.log, id) <= MAX_RETRIES)
      && (forall id, earlier :: id in s.log && earlier < id && SameCall(s, earlier, id) ==> Settled(s, earlier))
  {
    InitInv(hash, n);
    RunKeeps(hash, Init(n), actions);
    var s := Run(hash, Init(n), actions);
    forall i, j | 0 <= i < j < |s.log| && SameCall(s, s.log[i], s.log[j])
      ensures s.log[i] <= s.log[j]
    {
      assert s.log[i] in s.log && s.log[j] in s.log;
      assert SameShard(hash, s, s.log[i], s.log[j]);
    }
    forall id, earlier | id in s.log && earlier < id && SameCall(s, earlier, id)
      ensures Settled(s, earlier)
    {
      EarlierSettled(hash, s, id, earlier);
    }
  }

  lemma EarlierSettled(hash: string -> nat, s: State, id: nat, earlier: nat)
    requires Inv(hash, s) && id in s.log && earlier < id && id < |s.sent|
    requires s.sent[earlier].call == s.sent[id].call
    ensures Settled(s, earlier)
  {
    var w := Home(hash, |s.shards|, s.sent[id].call);
    var popped := s.shards[w].popped;
    var ids := popped + s.shards[w].queue;
    assert ShardOk(hash, s, w);
    IdsAre(hash, |s.shards|, s.sent, w);
    var k :| 0 <= k < |popped| && popped[k] == id;
    assert earlier in ids;
    var e :| 0 <= e < |ids| && ids[e] == earlier;
    assert ids[k] == id;
    assert e < k;
    assert popped[e] == earlier;
  }

  // ---- what the answers decide ----

  lemma {:induction false} RunSnoc(hash: string -> nat, s: State, actions: seq<Action>, a: Action)
    requires |s.shards| > 0
    ensures Run(hash, s, actions + [a]) == Step(hash, Run(hash, s, actions), a)
    decreases |actions|
  {
    if actions == [] {
      assert actions + [a] == [a];
      assert Run(hash, Step(hash, s, a), []) == Step(hash, s, a);
    } else {
      assert (actions + [a])[1..] == actions[1..] + [a];
      RunSnoc(hash, Step(hash, s, actions[0]), actions[1..], a);
    }
  }

  /** At position `k` of a run a worker whose POST for this event is in flight gets this answer. */
  predicate Answered(hash: string -> nat, n: nat, actions: seq<Action>, k: nat, id: nat, ok: bool)
    requires n > 0
  {
    && k < |actions| && actions[k].Answer? && actions[k].ok == ok && actions[k].worker < n
    && var pc := Run(hash, Init(n), actions[..k]).shards[actions[k].worker].pc;
       pc.Posting? && pc.id == id
  }

  lemma AnsweredSnoc(hash: string -> nat, n: nat, actions: seq<Action>, a: Action, k: nat, id: nat, ok: bool)
    requires n > 0 && k < |actions|
    ensures Answered(hash, n, actions + [a], k, id, ok) <==> Answered(hash, n, actions, k, id, ok)
  {
    assert (actions + [a])[..k] == actions[..k];
  }

  /** An event counts as delivered exactly if one of its POSTs was answered with success. */
  lemma {:induction false} DeliveredIffAnswered(hash: string -> nat, n: nat, actions: seq<Action>, id: nat)
    requires n > 0
    ensures id in Run(hash, Init(n), actions).done <==> exists k: nat :: Answered(hash, n, actions, k, id, true)
    decreases |actions|
  {
    if actions != [] {
      var m := |actions| - 1;
      var before, a := actions[..m], actions[m];
      assert actions == before + [a];
      DeliveredIffAnswered(hash, n, before, id);
      RunSnoc(hash, Init(n), before, a);
      forall k: nat | k < m
        ensures Answered(hash, n, actions, k, id, true) <==> Answered(hash, n, before, k, id, true)
      {
        AnsweredSnoc(hash, n, before, a, k, id, true);
      }
      LastAnswer(hash, Run(hash, Init(n), before), a, id);
      assert Answered(hash, n, actions, m, id, true) <==>
        a.Answer? && a.ok && a.worker < n
        && Run(hash, Init(n), before).shards[a.worker].pc.Posting?
        && Run(hash, Init(n), before).shards[a.worker].pc.id == id;
      if id in Run(hash, Init(n), before).done {
        var k: nat :| Answered(hash, n, before, k, id, true);
        assert Answered(hash, n, actions, k, id, true);
      }
    }
  }

  lemma LastAnswer(hash: string -> nat, s: State, a: Action, id: nat)
    requires |s.shards| > 0
    ensures id in Step(hash, s, a).done <==>
      || id in s.done
      || (a.Answer? && a.ok && a.worker < |s.shards| && s.shards[a.worker].pc.Posting?
          && s.shards[a.worker].pc.id == id)
  {
  }

  /** A delivered event gets no further POST. */
  lemma {:induction false} NoPostAfterSuccess(hash: string -> nat, s: State, actions: seq<Action>, id: nat)
    requires Inv(hash, s) && id in s.done
    ensures id in Run(hash, s, actions).done && Count(Run(hash, s, actions).log, id) == Count(s.log, id)
    decreases |actions|
  {
    if actions != [] {
      var t := Step(hash, s, actions[0]);
      StepKeeps(hash, s, actions[0]);
      if actions[0].Try? && actions[0].worker < |s.shards| {
        assert ShardOk(hash, s, actions[0].worker);
        if t.log != s.log {
          CountSnoc(s.log, s.shards[actions[0].worker].pc.id, id);
        }
      }
      NoPostAfterSuccess(hash, t, actions[1..], id);
    }
  }

  /** The worker is not in the middle of an event. */
  predicate Between(pc: Pc) {
    pc.Top? || pc.Waiting?
  }

  /**
   While the manager runs, a worker gives up on no event: of those it has taken, all but the one it is
   at, if any, had no URL, were delivered, or got three POSTs, none answered with success.
   */
  lemma NoEventGivenUp(hash: string -> nat, n: nat, actions: seq<Action>, w: nat, i: nat)
    requires n > 0 && w < n && Run(hash, Init(n), actions).running
    requires var shard := Run(hash, Init(n), actions).shards[w];
      i < |shard.popped| - (if Between(shard.pc) then 0 else 1)
    ensures var s := Run(hash, Init(n), actions);
      var id := s.shards[w].popped[i];
      && id < |s.sent|
      && (s.sent[id].url == ""
          || (exists k: nat :: Answered(hash, n, actions, k, id, true))
          || (Count(s.log, id) == 3 && forall k: nat :: !Answered(hash, n, actions, k, id, true)))
  {
    InitInv(hash, n);
    RunKeeps(hash, Init(n), actions);
    var s := Run(hash, Init(n), actions);
    assert ShardOk(hash, s, w);
    assert Settled(s, s.shards[w].popped[i]);
    DeliveredIffAnswered(hash, n, actions, s.shards[w].popped[i]);
  }

  /** An event waits in, or was taken from, the queue of the worker its call hashes to, in sending order. */
  lemma EventsStayHome(hash: string -> nat, n: nat, actions: seq<Action>, w: nat)
    requires n > 0 && w < n
    ensures var s := Run(hash, Init(n), actions);
      var all := s.shards[w].popped + s.shards[w].queue;
      && Increasing(all)
      && forall id: nat :: id in all <==> id < |s.sent| && hash(s.sent[id].call) % n == w
  {
    InitInv(hash, n);
    RunKeeps(hash, Init(n), actions);
    var s := Run(hash, Init(n), actions);
    assert ShardOk(hash, s, w);
    IdsAre(hash, n, s.sent, w);
  }
}
