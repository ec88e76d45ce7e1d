/**
 The promises of the recorder, for every run of timestamped frames and discards from a new
 recorder: nothing is lost unaccounted for, pairing is safe, the exact law of the user
 track, and a discard that cannot be told from a fresh start.
 */
module RecorderTheorems {
  import opened Common
  import opened RecorderState
  import opened RecorderHistory

  /** The frames of one stream handed in since the last discard, read off the inputs alone. */
  function FramesIn(inputs: seq<Input>, isAgent: bool): seq<Frame> {
    if inputs == [] then [] else
      var before, last := inputs[..|inputs| - 1], inputs[|inputs| - 1];
      match last
      case Discard => []
      case Add(agent, bytes, c) =>
        if bytes == [] || agent != isAgent then FramesIn(before, isAgent)
        else FramesIn(before, isAgent) + [Frame(Decode(bytes), c.stamped, Silent(Decode(bytes)))]
  }

  lemma {:induction false} RunSnoc(s: State, inputs: seq<Input>, x: Input)
    ensures Run(s, inputs + [x]) == Apply(Run(s, inputs), x)
    decreases |inputs|
  {
    if inputs == [] {
      assert inputs + [x] == [x];
      assert Run(Apply(s, x), []) == Apply(s, x);
    } else {
      assert (inputs + [x])[1..] == inputs[1..] + [x];
      RunSnoc(Apply(s, inputs[0]), inputs[1..], x);
    }
  }

  lemma AddFrameInputs(s: State, isAgent: bool, bytes: seq<Byte>, c: Clock)
    requires bytes != []
    ensures var t, f := AddFrame(s, isAgent, bytes, c), Frame(Decode(bytes), c.stamped, Silent(Decode(bytes)));
      && t.agentIn == (if isAgent then s.agentIn + [f] else s.agentIn)
      && t.userIn == (if isAgent then s.userIn else s.userIn + [f])
  {
    var accepted := Accepted(s, isAgent, bytes, c);
    EvictShrinks(accepted, isAgent);
    ProcessShrinks(Stored(s, isAgent, bytes, c));
  }

  lemma ApplyInputs(s: State, before: seq<Input>, x: Input)
    requires s.agentIn == FramesIn(before, true) && s.userIn == FramesIn(before, false)
    ensures var t := Apply(s, x);
      t.agentIn == FramesIn(before + [x], true) && t.userIn == FramesIn(before + [x], false)
  {
    assert (before + [x])[..|before|] == before;
    if x.Add? && x.bytes != [] {
      AddFrameInputs(s, x.isAgent, x.bytes, x.clock);
    }
  }

  lemma RunFromFresh(agentTick: int, userTick: int, inputs: seq<Input>, now: int)
    requires Timed(now, inputs)
    ensures Inv(Run(Fresh(agentTick, userTick), inputs), LastTick(now, inputs))
  {
    FreshInv(agentTick, userTick, now);
    RunKeeps(Fresh(agentTick, userTick), inputs, now);
  }

  lemma {:induction false} RunInputs(agentTick: int, userTick: int, inputs: seq<Input>)
    ensures var s := Run(Fresh(agentTick, userTick), inputs);
      s.agentIn == FramesIn(inputs, true) && s.userIn == FramesIn(inputs, false)
    decreases |inputs|
  {
    if inputs != [] {
      var before, last := inputs[..|inputs| - 1], inputs[|inputs| - 1];
      assert inputs == before + [last];
      RunInputs(agentTick, userTick, before);
      RunSnoc(Fresh(agentTick, userTick), before, last);
      ApplyInputs(Run(Fresh(agentTick, userTick), before), before, last);
    }
  }

  /**
   Every frame since the last discard is, in its stream's order, in exactly one logged event
   or still buffered; the mixed track is the sound of the log and nothing else.
   */
  lemma Conservation(agentTick: int, userTick: int, inputs: seq<Input>, now: int)
    requires Timed(now, inputs)
    ensures var s := Run(Fresh(agentTick, userTick), inputs);
      && FramesIn(inputs, true) == Agents(s.log) + s.agentBuffer
      && FramesIn(inputs, false) == Users(s.log) + s.userBuffer
      && s.audio == Sound(s.log)
      && |s.agentBuffer| <= MAX_BUFFER_SIZE && |s.userBuffer| <= MAX_BUFFER_SIZE
  {
    RunInputs(agentTick, userTick, inputs);
    RunFromFresh(agentTick, userTick, inputs, now);
  }

  /** Mixed frames are near; frames written alone are far from all the other stream still had to offer. */
  lemma PairingIsSafe(agentTick: int, userTick: int, inputs: seq<Input>, now: int)
    requires Timed(now, inputs)
    ensures var s := Run(Fresh(agentTick, userTick), inputs);
      && (forall k :: 0 <= k < |s.log| ==>
            Justified(s.log, k, FramesIn(inputs, true), FramesIn(inputs, false)))
      && (s.agentBuffer == [] || s.userBuffer == [])
  {
    RunInputs(agentTick, userTick, inputs);
    RunFromFresh(agentTick, userTick, inputs, now);
  }

  // ---- the user track ----

  /** Agent frames written alone while user frame `j` was in front. */
  function SkipsAt(log: seq<Event>, j: nat): nat {
    if log == [] then 0 else
      var before, e := log[..|log| - 1], log[|log| - 1];
      SkipsAt(before, j) + if e.AgentFar? && |Users(before)| == j then 1 else 0
  }

  /** User frame `j` left its buffer for the tracks. */
  predicate ConsumedAt(log: seq<Event>, j: nat) {
    exists k: nat :: k < |log| && ConsumesAt(log, k, j)
  }

  lemma {:induction false} UsersGrow(log: seq<Event>, k: nat)
    requires k < |log| && UserOf(log[k]) != []
    ensures |Users(log[..k])| < |Users(log)|
  {
    var n := |log| - 1;
    if k < n {
      assert log[..n][..k] == log[..k];
      UsersGrow(log[..n], k);
    } else {
      assert log[..k] == log[..n];
    }
  }

  /** A user frame is in the track once for being consumed and once for each agent frame skipped before it. */
  lemma {:induction false} MultiplicityLaw(log: seq<Event>, j: nat)
    ensures Copies(log, j) == SkipsAt(log, j) + if ConsumedAt(log, j) then 1 else 0
  {
    if log != [] {
      var n := |log| - 1;
      var before, e := log[..n], log[n];
      MultiplicityLaw(before, j);
      ConsumedBefore(log, j);
      if WritesUser(e) && |Users(before)| == j {
        assert ConsumedAt(log, j);
        if ConsumedAt(before, j) {
          var k: nat :| k < |before| && ConsumesAt(before, k, j);
          UsersGrow(before, k);
        }
      }
    }
  }

  predicate ConsumesAt(log: seq<Event>, k: nat, j: nat) {
    k < |log| && WritesUser(log[k]) && |Users(log[..k])| == j
  }

  lemma ConsumesBefore(log: seq<Event>, k: nat, j: nat)
    requires log != [] && k < |log| - 1
    ensures ConsumesAt(log, k, j) <==> ConsumesAt(log[..|log| - 1], k, j)
  {
    assert log[..|log| - 1][..k] == log[..k];
  }

  lemma ConsumedBefore(log: seq<Event>, j: nat)
    requires log != []
    ensures var n := |log| - 1;
      ConsumedAt(log, j) <==> ConsumedAt(log[..n], j) || (WritesUser(log[n]) && |Users(log[..n])| == j)
  {
    var n := |log| - 1;
    forall k: nat | k < n
      ensures ConsumesAt(log, k, j) <==> ConsumesAt(log[..n], k, j)
    {
      ConsumesBefore(log, k, j);
    }
    assert ConsumesAt(log, n, j) <==> WritesUser(log[n]) && |Users(log[..n])| == j;
  }

  /** The user track, exactly: the user frames in arrival order, each repeated in a row by the law above. */
  lemma UserTrack(agentTick: int, userTick: int, inputs: seq<Input>, now: int)
    requires Timed(now, inputs)
    ensures var s, users := Run(Fresh(agentTick, userTick), inputs), FramesIn(inputs, false);
      var counts := AllCopies(s.log, |users|);
      && s.userOnly == Spread(users, counts)
      && forall j :: 0 <= j < |users| ==>
           counts[j] == SkipsAt(s.log, j) + if ConsumedAt(s.log, j) then 1 else 0
  {
    RunInputs(agentTick, userTick, inputs);
    RunFromFresh(agentTick, userTick, inputs, now);
    var s, users := Run(Fresh(agentTick, userTick), inputs), FramesIn(inputs, false);
    forall j: nat | j < |users|
      ensures AllCopies(s.log, |users|)[j] == SkipsAt(s.log, j) + if ConsumedAt(s.log, j) then 1 else 0
    {
      MultiplicityLaw(s.log, j);
    }
  }

  /** One loud sample handed in at a given millisecond. */
  function Loud(isAgent: bool, ms: int): Input {
    var t := ms * TICKS_PER_MS;
    Add(isAgent, [100, 0], Clock(t, t, t))
  }

  /** User, agent, and the same again 100 ms later. */
  function SkipExample(): seq<Input> {
    [Loud(false, 0), Loud(true, 1), Loud(false, 100), Loud(true, 101)]
  }

  function LoudFrame(ms: int): Frame {
    Frame([100], ms * TICKS_PER_MS, false)
  }

  /** The recorder of the example after two and after three frames. */
  function AfterTwo(): State {
    State([LoudFrame(1)], [], [100], [100], 0, 0, true, true, TICKS_PER_MS, 0,
          [UserDirect(LoudFrame(0))], [LoudFrame(1)], [LoudFrame(0)])
  }

  function AfterThree(): State {
    State([], [LoudFrame(100)], [100, 100], [100, 100], 0, 0, true, true, TICKS_PER_MS, 100 * TICKS_PER_MS,
          [UserDirect(LoudFrame(0)), AgentFar(LoudFrame(1))], [LoudFrame(1)], [LoudFrame(0), LoudFrame(100)])
  }

  lemma LoudBytes()
    ensures Decode([100, 0]) == [100] && !Silent([100])
  {
    assert Abs([100][0]) > SILENCE_THRESHOLD;
  }

  lemma ExampleStepsOneTwo()
    ensures Apply(Apply(Fresh(0, 0), Loud(false, 0)), Loud(true, 1)) == AfterTwo()
  {
    LoudBytes();
    var f := LoudFrame(0);
    assert Stored(Fresh(0, 0), false, [100, 0], Clock(0, 0, 0))
        == Fresh(0, 0).(userBuffer := [f], userIn := [f], userActive := true);
    var s1 := Apply(Fresh(0, 0), Loud(false, 0));
    assert s1 == State([], [], [100], [100], 0, 0, false, true, 0, 0, [UserDirect(f)], [], [f]);
  }

  lemma ExampleStepThree()
    ensures Apply(AfterTwo(), Loud(false, 100)) == AfterThree()
  {
    LoudBytes();
    var t := 100 * TICKS_PER_MS;
    var f := LoudFrame(100);
    var s := Stored(AfterTwo(), false, [100, 0], Clock(t, t, t));
    assert s == AfterTwo().(userBuffer := [f], userIn := [LoudFrame(0), f], lastUser := t);
    assert MergeStep(s) == AfterThree();
  }

  lemma ExampleStepFour()
    ensures Apply(AfterThree(), Loud(true, 101)).userOnly == [100, 100, 100]
    ensures |Apply(AfterThree(), Loud(true, 101)).userIn| == 2
  {
    LoudBytes();
    var t := 101 * TICKS_PER_MS;
    var f := LoudFrame(101);
    var s := Stored(AfterThree(), true, [100, 0], Clock(t, t, t));
    assert s == AfterThree().(agentBuffer := [f], agentIn := [LoudFrame(1), f], lastAgent := t);
    assert MergeStep(s).userOnly == [100, 100, 100] && MergeStep(s).userBuffer == [];
  }

  lemma RunFour(s: State, a: Input, b: Input, c: Input, d: Input)
    ensures Run(s, [a, b, c, d]) == Apply(Apply(Apply(Apply(s, a), b), c), d)
  {
    assert [a, b, c, d] == [a, b, c] + [d] && [a, b, c] == [a, b] + [c] && [a, b] == [a] + [b];
    RunSnoc(s, [a, b, c], d);
    RunSnoc(s, [a, b], c);
    RunSnoc(s, [a], b);
    assert Run(s, [a]) == Run(Apply(s, a), []);
  }

  /** On this run the second user frame is written twice: two frames of one sample give three samples. */
  lemma WrittenTwice()
    ensures Timed(0, SkipExample())
    ensures |FramesIn(SkipExample(), false)| == 2
    ensures Run(Fresh(0, 0), SkipExample()).userOnly == [100, 100, 100]
  {
    var x := SkipExample();
    assert x[1..] == [x[1], x[2], x[3]] && x[1..][1..] == [x[2], x[3]] && x[1..][1..][1..] == [x[3]];
    assert Timed(100_000_000, [x[3]]) && Timed(1_000_000, [x[2], x[3]]);
    RunFour(Fresh(0, 0), x[0], x[1], x[2], x[3]);
    ExampleStepsOneTwo();
    ExampleStepThree();
    ExampleStepFour();
    RunInputs(0, 0, x);
  }

  // ---- discard ----

  /** Two recorders that differ only in clock readings no later operation will use. */
  predicate Alike(s: State, t: State) {
    && s.(lastAgent := 0, lastUser := 0) == t.(lastAgent := 0, lastUser := 0)
    && (s.agentActive ==> s.lastAgent == t.lastAgent)
  }

  function WithTicks(s: State, agentTick: int, userTick: int): State {
    s.(lastAgent := agentTick, lastUser := userTick)
  }

  lemma {:induction false} MergeIgnoresTicks(s: State, a: int, u: int)
    ensures Merge(WithTicks(s, a, u)) == WithTicks(Merge(s), a, u)
    decreases |s.agentBuffer| + |s.userBuffer|
  {
    if s.agentBuffer != [] && s.userBuffer != [] {
      assert MergeStep(WithTicks(s, a, u)) == WithTicks(MergeStep(s), a, u);
      MergeIgnoresTicks(MergeStep(s), a, u);
    }
  }

  lemma {:induction false} DrainsIgnoreTicks(s: State, a: int, u: int)
    ensures DrainAgent(WithTicks(s, a, u)) == WithTicks(DrainAgent(s), a, u)
    ensures DrainUser(WithTicks(s, a, u)) == WithTicks(DrainUser(s), a, u)
    decreases |s.agentBuffer| + |s.userBuffer|
  {
    if s.agentBuffer != [] {
      assert AgentDirectStep(WithTicks(s, a, u)) == WithTicks(AgentDirectStep(s), a, u);
      DrainsIgnoreTicks(AgentDirectStep(s), a, u);
    }
    if s.userBuffer != [] {
      assert UserDirectStep(WithTicks(s, a, u)) == WithTicks(UserDirectStep(s), a, u);
      DrainsIgnoreTicks(UserDirectStep(s), a, u);
    }
  }

  lemma {:induction false} EvictIgnoresTicks(s: State, isAgent: bool, a: int, u: int)
    ensures Evict(WithTicks(s, a, u), isAgent) == WithTicks(Evict(s, isAgent), a, u)
    decreases |s.agentBuffer| + |s.userBuffer|
  {
    if isAgent && |s.agentBuffer| > MAX_BUFFER_SIZE {
      EvictIgnoresTicks(EvictAgent(s), isAgent, a, u);
    } else if !isAgent && |s.userBuffer| > MAX_BUFFER_SIZE {
      EvictIgnoresTicks(EvictUser(s), isAgent, a, u);
    }
  }

  lemma AlikeTicks(s: State, t: State)
    requires s.(lastAgent := 0, lastUser := 0) == t.(lastAgent := 0, lastUser := 0)
    ensures t == WithTicks(s, t.lastAgent, t.lastUser)
  {
  }

  lemma ProcessIgnoresTicks(s: State, a: int, u: int)
    ensures Process(WithTicks(s, a, u)) == WithTicks(Process(s), a, u)
  {
    MergeIgnoresTicks(s, a, u);
    DrainsIgnoreTicks(s, a, u);
  }

  lemma StoredAlike(s: State, t: State, isAgent: bool, bytes: seq<Byte>, c: Clock)
    requires Alike(s, t)
    ensures Alike(Stored(s, isAgent, bytes, c), Stored(t, isAgent, bytes, c))
  {
    var s1, t1 := Accepted(s, isAgent, bytes, c), Accepted(t, isAgent, bytes, c);
    assert Alike(s1, t1);
    AlikeTicks(s1, t1);
    EvictIgnoresTicks(s1, isAgent, t1.lastAgent, t1.lastUser);
    EvictIgnoresTicks(s1, isAgent, s1.lastAgent, s1.lastUser);
    assert WithTicks(s1, s1.lastAgent, s1.lastUser) == s1;
    EvictShrinks(s1, isAgent);
  }

  lemma AddFrameAlike(s: State, t: State, isAgent: bool, bytes: seq<Byte>, c: Clock)
    requires Alike(s, t)
    ensures Alike(AddFrame(s, isAgent, bytes, c), AddFrame(t, isAgent, bytes, c))
  {
    if bytes != [] {
      var s2, t2 := Stored(s, isAgent, bytes, c), Stored(t, isAgent, bytes, c);
      StoredAlike(s, t, isAgent, bytes, c);
      AlikeTicks(s2, t2);
      ProcessIgnoresTicks(s2, t2.lastAgent, t2.lastUser);
      ProcessIgnoresTicks(s2, s2.lastAgent, s2.lastUser);
      assert WithTicks(s2, s2.lastAgent, s2.lastUser) == s2;
      ProcessShrinks(s2);
    }
  }

  lemma {:induction false} RunAlike(s: State, t: State, inputs: seq<Input>)
    requires Alike(s, t)
    ensures Alike(Run(s, inputs), Run(t, inputs))
    decreases |inputs|
  {
    if inputs != [] {
      if inputs[0].Add? {
        AddFrameAlike(s, t, inputs[0].isAgent, inputs[0].bytes, inputs[0].clock);
      }
      RunAlike(Apply(s, inputs[0]), Apply(t, inputs[0]), inputs[1..]);
    }
  }

  /**
   Whatever the recorder held, after a discard it produces, for every later run, the tracks
   and the history of a recorder created at any moment, although its clock readings survive.
   */
  lemma DiscardIsFreshStart(s: State, agentTick: int, userTick: int, inputs: seq<Input>)
    ensures var after, anew := Run(Clear(s), inputs), Run(Fresh(agentTick, userTick), inputs);
      && after.audio == anew.audio && after.userOnly == anew.userOnly
      && after.log == anew.log
      && after.agentBuffer == anew.agentBuffer && after.userBuffer == anew.userBuffer
  {
    RunAlike(Clear(s), Fresh(agentTick, userTick), inputs);
  }
}
