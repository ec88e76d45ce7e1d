/**
 What one `addFrame` writes and leaves, said without the loops: how two frames sound together,
 when a stream is active, and which frames go to which track in each of the four activity modes.
 */
module RecorderEffects {
  import opened Common
  import opened RecorderState
  import opened RecorderHistory
  import opened RecorderTheorems
  import opened RecorderCalls

  // ---- samples and times ----

  /** Two sounds together: sample by sample their sum, held within 16 bits, as long as the shorter. */
  predicate Together(agent: seq<Sample>, user: seq<Sample>, mixed: seq<Sample>) {
    && |mixed| == (if |agent| <= |user| then |agent| else |user|)
    && forall i :: 0 <= i < |mixed| ==>
         var sum := agent[i] as int + user[i] as int;
         mixed[i] == if sum > 0x7FFF then 0x7FFF else if sum < -0x8000 then -0x8000 else sum
  }

  lemma MixIs(agent: seq<Sample>, user: seq<Sample>)
    ensures Together(agent, user, Mix(agent, user))
  {
  }

  /** A frame is silent when no sample is louder than 50. */
  predicate Quiet(samples: seq<Sample>) {
    forall i :: 0 <= i < |samples| ==> -50 <= samples[i] <= 50
  }

  lemma SilentIs(samples: seq<Sample>)
    ensures Silent(samples) <==> Quiet(samples)
  {
    forall i | 0 <= i < |samples|
      ensures Abs(samples[i]) <= SILENCE_THRESHOLD <==> -50 <= samples[i] <= 50
    {
    }
  }

  /** Whole milliseconds, so the limit of 40 is passed from 41 ms on. */
  lemma FarIs(earlier: Frame, later: Frame)
    ensures FarAfter(earlier, later) <==> later.timestamp - earlier.timestamp >= 41_000_000
    ensures Near(earlier, later) <==> -41_000_000 < later.timestamp - earlier.timestamp < 41_000_000
  {
    MillisAbove(later.timestamp - earlier.timestamp, 40);
    MillisAbove(earlier.timestamp - later.timestamp, 40);
    MillisNegated(later.timestamp - earlier.timestamp);
  }

  lemma MillisAbove(ticks: int, limit: nat)
    ensures Millis(ticks) > limit <==> ticks >= (limit + 1) * 1_000_000
  {
  }

  lemma MillisNegated(ticks: int)
    ensures Millis(-ticks) == -Millis(ticks)
  {
  }

  // ---- activity ----

  /** Successive silent agent frames, this call included. */
  function SilentAfter(s: State, isAgent: bool, samples: seq<Sample>): nat {
    if !isAgent then s.agentSilence else if Quiet(samples) then s.agentSilence + 1 else 0
  }

  /** The loops leave everything but buffers, tracks and log alone. */
  lemma AddFrameFlags(s: State, isAgent: bool, bytes: seq<Byte>, c: Clock)
    requires bytes != []
    ensures Shrinks(Stored(s, isAgent, bytes, c), AddFrame(s, isAgent, bytes, c))
    ensures AddFrame(s, isAgent, bytes, c) == Process(Stored(s, isAgent, bytes, c))
  {
    ProcessShrinks(Stored(s, isAgent, bytes, c));
  }

  /**
   A frame makes its stream active.  The agent stream, and only it, becomes inactive: after more
   than 250 silent frames in a row, or 1001 ms after its last frame.
   */
  lemma ActivityLaw(s: State, isAgent: bool, bytes: seq<Byte>, c: Clock)
    requires bytes != []
    ensures var t := AddFrame(s, isAgent, bytes, c);
      && t.agentSilence == SilentAfter(s, isAgent, Decode(bytes))
      && t.userSilence == (if isAgent then s.userSilence else if Quiet(Decode(bytes)) then s.userSilence + 1 else 0)
      && t.lastAgent == (if isAgent then c.seen else s.lastAgent)
      && t.lastUser == (if isAgent then s.lastUser else c.seen)
      && (t.userActive <==> s.userActive || !isAgent)
      && (t.agentActive <==>
            (s.agentActive || isAgent) && t.agentSilence <= 250 && c.checked - t.lastAgent < 1_001_000_000)
  {
    var accepted := Accepted(s, isAgent, bytes, c);
    SilentIs(Decode(bytes));
    EvictShrinks(accepted, isAgent);
    MillisAbove(c.checked - accepted.lastAgent, 1000);
    AddFrameFlags(s, isAgent, bytes, c);
  }

  // ---- what a call writes ----

  /** The sound of frames one after the other. */
  function Joined(frames: seq<Frame>): seq<Sample> {
    if frames == [] then [] else Joined(frames[..|frames| - 1]) + frames[|frames| - 1].samples
  }

  lemma JoinedOne(f: Frame)
    ensures Joined([f]) == f.samples && Joined([]) == []
  {
    assert [f][..0] == [] && Joined([]) == [];
    assert [] + f.samples == f.samples;
  }

  lemma {:induction false} JoinedHead(frames: seq<Frame>)
    requires frames != []
    ensures Joined(frames) == frames[0].samples + Joined(frames[1..])
  {
    var n := |frames| - 1;
    if n > 0 {
      JoinedHead(frames[..n]);
      assert frames[1..][..n - 1] == frames[..n][1..];
      Assoc(frames[0].samples, Joined(frames[..n][1..]), frames[n].samples);
    } else {
      assert frames == [frames[0]] && frames[1..] == [];
      JoinedOne(frames[0]);
      assert frames[0].samples + [] == frames[0].samples;
    }
  }

  lemma {:induction false} DrainAgentWrites(s: State)
    ensures var t := DrainAgent(s);
      && t.audio == s.audio + Joined(s.agentBuffer) && t.userOnly == s.userOnly
      && t.agentBuffer == [] && t.userBuffer == s.userBuffer
    decreases |s.agentBuffer|
  {
    if s.agentBuffer != [] {
      JoinedHead(s.agentBuffer);
      DrainAgentWrites(AgentDirectStep(s));
      Assoc(s.audio, s.agentBuffer[0].samples, Joined(s.agentBuffer[1..]));
    } else {
      assert s.audio + [] == s.audio;
    }
  }

  lemma {:induction false} DrainUserWrites(s: State)
    ensures var t := DrainUser(s);
      && t.audio == s.audio + Joined(s.userBuffer) && t.userOnly == s.userOnly + Joined(s.userBuffer)
      && t.userBuffer == [] && t.agentBuffer == s.agentBuffer
    decreases |s.userBuffer|
  {
    if s.userBuffer != [] {
      JoinedHead(s.userBuffer);
      DrainUserWrites(UserDirectStep(s));
      Assoc(s.audio, s.userBuffer[0].samples, Joined(s.userBuffer[1..]));
      Assoc(s.userOnly, s.userBuffer[0].samples, Joined(s.userBuffer[1..]));
    } else {
      assert s.audio + [] == s.audio && s.userOnly + [] == s.userOnly;
    }
  }

  /** How many frames at the front are at least 41 ms older than `t`. */
  function Old(buffer: seq<Frame>, t: int): (n: nat)
    ensures n <= |buffer|
  {
    if buffer == [] || t - buffer[0].timestamp < 41_000_000 then 0 else 1 + Old(buffer[1..], t)
  }

  lemma OldFar(a: Frame, u: Frame)
    ensures Millis(u.timestamp - a.timestamp) > 2 * FRAME_DURATION_MS <==> u.timestamp - a.timestamp >= 41_000_000
  {
    MillisAbove(u.timestamp - a.timestamp, 40);
  }

  predicate Wrote(s: State, t: State, sound: seq<Sample>, userSound: seq<Sample>) {
    t.audio == s.audio + sound && t.userOnly == s.userOnly + userSound
  }

  lemma WroteNothing(s: State)
    ensures Wrote(s, s, [], [])
  {
    assert s.audio + [] == s.audio && s.userOnly + [] == s.userOnly;
  }

  /** What goes to the mixed track when a new frame meets `n` frames too old for it and the rest. */
  function Meeting(waiting: seq<Frame>, n: nat, f: Frame, agentIsNew: bool): seq<Sample>
    requires n <= |waiting|
  {
    Joined(waiting[..n]) +
    if n == |waiting| then []
    else if agentIsNew then Mix(f.samples, waiting[n].samples)
    else Mix(waiting[n].samples, f.samples)
  }

  /** What is left waiting of those frames. */
  function Remaining(waiting: seq<Frame>, n: nat): seq<Frame>
    requires n <= |waiting|
  {
    if n == |waiting| then [] else waiting[n + 1..]
  }

  lemma MeetingHead(waiting: seq<Frame>, n: nat, f: Frame, agentIsNew: bool)
    requires 0 < n <= |waiting|
    ensures Meeting(waiting, n, f, agentIsNew) == waiting[0].samples + Meeting(waiting[1..], n - 1, f, agentIsNew)
    ensures Remaining(waiting, n) == Remaining(waiting[1..], n - 1)
  {
    var front, rest := waiting[..n], waiting[1..];
    JoinedHead(front);
    assert front[1..] == rest[..n - 1] && front[0] == waiting[0];
    var tail := if n == |waiting| then [] else if agentIsNew then Mix(f.samples, waiting[n].samples)
                else Mix(waiting[n].samples, f.samples);
    assert Meeting(waiting, n, f, agentIsNew) == Joined(front) + tail;
    assert Meeting(rest, n - 1, f, agentIsNew) == Joined(rest[..n - 1]) + tail;
    Assoc(waiting[0].samples, Joined(rest[..n - 1]), tail);
  }

  lemma MeetingNone(waiting: seq<Frame>, f: Frame, agentIsNew: bool)
    ensures waiting == [] ==> Meeting(waiting, 0, f, agentIsNew) == []
    ensures waiting != [] ==>
      Meeting(waiting, 0, f, agentIsNew)
      == if agentIsNew then Mix(f.samples, waiting[0].samples) else Mix(waiting[0].samples, f.samples)
  {
    assert waiting[..0] == [];
  }

  lemma {:induction false} RepeatHead(samples: seq<Sample>, n: nat)
    ensures samples + Repeat(samples, n) == Repeat(samples, n + 1)
  {
    if n > 0 {
      RepeatHead(samples, n - 1);
      Assoc(samples, Repeat(samples, n - 1), samples);
    } else {
      assert samples + [] == [] + samples;
    }
  }

  /** How often the new user frame goes to the user track: once a turn. */
  function Turns(waiting: seq<Frame>, n: nat): nat
    requires n <= |waiting|
  {
    if n == |waiting| then n else n + 1
  }

  /** One turn of the merge loop when the agent front is the new frame. */
  lemma AgentTurn(s: State)
    requires s.agentBuffer != [] && s.userBuffer != []
    requires s.userBuffer[0].timestamp <= s.agentBuffer[0].timestamp
    ensures var a, u, t := s.agentBuffer[0], s.userBuffer[0], MergeStep(s);
      && t.userBuffer == s.userBuffer[1..] && t.userOnly == s.userOnly + u.samples
      && if a.timestamp - u.timestamp >= 41_000_000
         then t.audio == s.audio + u.samples && t.agentBuffer == s.agentBuffer
         else t.audio == s.audio + Mix(a.samples, u.samples) && t.agentBuffer == s.agentBuffer[1..]
  {
    OldFar(s.userBuffer[0], s.agentBuffer[0]);
  }

  /** One turn of the merge loop when the user front is the new frame. */
  lemma UserTurn(s: State)
    requires s.agentBuffer != [] && s.userBuffer != []
    requires s.agentBuffer[0].timestamp <= s.userBuffer[0].timestamp
    ensures var a, u, t := s.agentBuffer[0], s.userBuffer[0], MergeStep(s);
      && t.agentBuffer == s.agentBuffer[1..] && t.userOnly == s.userOnly + u.samples
      && if u.timestamp - a.timestamp >= 41_000_000
         then t.audio == s.audio + a.samples && t.userBuffer == s.userBuffer
         else t.audio == s.audio + Mix(a.samples, u.samples) && t.userBuffer == s.userBuffer[1..]
  {
    OldFar(s.agentBuffer[0], s.userBuffer[0]);
    MergeBehind(s);
  }

  /** What is there after a new user frame `u` met `waiting`. */
  predicate UserMet(s: State, t: State, waiting: seq<Frame>, n: nat, u: Frame)
    requires n <= |waiting|
  {
    && Wrote(s, t, Meeting(waiting, n, u, false), Repeat(u.samples, Turns(waiting, n)))
    && t.agentBuffer == Remaining(waiting, n)
    && t.userBuffer == if n == |waiting| then [u] else []
  }

  lemma UserMetLater(s: State, t: State, end: State, waiting: seq<Frame>, n: nat, u: Frame)
    requires 0 < n <= |waiting|
    requires Wrote(s, t, waiting[0].samples, u.samples) && UserMet(t, end, waiting[1..], n - 1, u)
    ensures UserMet(s, end, waiting, n, u)
  {
    MeetingHead(waiting, n, u, false);
    RepeatHead(u.samples, Turns(waiting[1..], n - 1));
    Assoc(s.audio, waiting[0].samples, Meeting(waiting[1..], n - 1, u, false));
    Assoc(s.userOnly, u.samples, Repeat(u.samples, Turns(waiting[1..], n - 1)));
  }

  lemma UserMetNone(s: State, waiting: seq<Frame>, u: Frame, t: State)
    requires waiting != [] && Wrote(s, t, Mix(waiting[0].samples, u.samples), u.samples)
    requires t.agentBuffer == waiting[1..] && t.userBuffer == []
    ensures UserMet(s, t, waiting, 0, u)
  {
    MeetingNone(waiting, u, false);
    assert Repeat(u.samples, 1) == Repeat(u.samples, 0) + u.samples;
    assert [] + u.samples == u.samples;
  }

  lemma UserMergeEnds(s: State)
    requires |s.userBuffer| == 1 && SortedUpTo(s.agentBuffer, s.userBuffer[0].timestamp)
    requires Old(s.agentBuffer, s.userBuffer[0].timestamp) == 0
    ensures UserMet(s, Merge(s), s.agentBuffer, 0, s.userBuffer[0])
  {
    var u, waiting := s.userBuffer[0], s.agentBuffer;
    if waiting == [] {
      MeetingNone(waiting, u, false);
      WroteNothing(s);
    } else {
      UserTurn(s);
      assert Merge(MergeStep(s)) == MergeStep(s);
      UserMetNone(s, waiting, u, MergeStep(s));
    }
  }

  lemma {:induction false} UserMergeWrites(s: State)
    requires |s.userBuffer| == 1 && SortedUpTo(s.agentBuffer, s.userBuffer[0].timestamp)
    ensures var u := s.userBuffer[0];
      UserMet(s, Merge(s), s.agentBuffer, Old(s.agentBuffer, u.timestamp), u)
    decreases |s.agentBuffer|
  {
    var u, waiting := s.userBuffer[0], s.agentBuffer;
    var n := Old(waiting, u.timestamp);
    if n == 0 {
      UserMergeEnds(s);
    } else {
      UserTurn(s);
      TailSorted(waiting, u.timestamp);
      UserMergeWrites(MergeStep(s));
      UserMetLater(s, MergeStep(s), Merge(MergeStep(s)), waiting, n, u);
    }
  }

  /** What is there after a new agent frame `a` met `waiting`. */
  predicate AgentMet(s: State, t: State, waiting: seq<Frame>, n: nat, a: Frame)
    requires n <= |waiting|
  {
    && Wrote(s, t, Meeting(waiting, n, a, true), Joined(waiting[..Turns(waiting, n)]))
    && t.userBuffer == Remaining(waiting, n)
    && t.agentBuffer == if n == |waiting| then [a] else []
  }

  lemma AgentMetLater(s: State, t: State, end: State, waiting: seq<Frame>, n: nat, a: Frame)
    requires 0 < n <= |waiting|
    requires Wrote(s, t, waiting[0].samples, waiting[0].samples) && AgentMet(t, end, waiting[1..], n - 1, a)
    ensures AgentMet(s, end, waiting, n, a)
  {
    var front := waiting[..Turns(waiting, n)];
    MeetingHead(waiting, n, a, true);
    JoinedHead(front);
    assert front[1..] == waiting[1..][..Turns(waiting[1..], n - 1)];
    Assoc(s.audio, waiting[0].samples, Meeting(waiting[1..], n - 1, a, true));
    Assoc(s.userOnly, waiting[0].samples, Joined(front[1..]));
  }

  lemma AgentMetNone(s: State, waiting: seq<Frame>, a: Frame, t: State)
    requires waiting != [] && Wrote(s, t, Mix(a.samples, waiting[0].samples), waiting[0].samples)
    requires t.userBuffer == waiting[1..] && t.agentBuffer == []
    ensures AgentMet(s, t, waiting, 0, a)
  {
    MeetingNone(waiting, a, true);
    assert waiting[..1] == [waiting[0]] && waiting[..1][..0] == [];
    assert [] + waiting[0].samples == waiting[0].samples;
  }

  lemma AgentMergeEnds(s: State)
    requires |s.agentBuffer| == 1 && SortedUpTo(s.userBuffer, s.agentBuffer[0].timestamp)
    requires Old(s.userBuffer, s.agentBuffer[0].timestamp) == 0
    ensures AgentMet(s, Merge(s), s.userBuffer, 0, s.agentBuffer[0])
  {
    var a, waiting := s.agentBuffer[0], s.userBuffer;
    if waiting == [] {
      MeetingNone(waiting, a, true);
      WroteNothing(s);
      assert waiting[..0] == [];
    } else {
      AgentTurn(s);
      assert Merge(MergeStep(s)) == MergeStep(s);
      AgentMetNone(s, waiting, a, MergeStep(s));
    }
  }

  lemma {:induction false} AgentMergeWrites(s: State)
    requires |s.agentBuffer| == 1 && SortedUpTo(s.userBuffer, s.agentBuffer[0].timestamp)
    ensures var a := s.agentBuffer[0];
      AgentMet(s, Merge(s), s.userBuffer, Old(s.userBuffer, a.timestamp), a)
    decreases |s.userBuffer|
  {
    var a, waiting := s.agentBuffer[0], s.userBuffer;
    var n := Old(waiting, a.timestamp);
    if n == 0 {
      AgentMergeEnds(s);
    } else {
      AgentTurn(s);
      TailSorted(waiting, a.timestamp);
      AgentMergeWrites(MergeStep(s));
      AgentMetLater(s, MergeStep(s), Merge(MergeStep(s)), waiting, n, a);
    }
  }

  /** The frames a buffer keeps: its newest 50. */
  function Newest(frames: seq<Frame>): seq<Frame> {
    if |frames| <= 50 then frames else frames[|frames| - 50..]
  }

  lemma NewestIs(buffer: seq<Frame>, f: Frame)
    requires |buffer| <= 50
    ensures Newest(buffer + [f]) == (if |buffer| == 50 then buffer[1..] else buffer) + [f]
  {
  }

  lemma StoredNewest(s: State, isAgent: bool, bytes: seq<Byte>, c: Clock)
    requires bytes != [] && |s.agentBuffer| <= MAX_BUFFER_SIZE && |s.userBuffer| <= MAX_BUFFER_SIZE
    ensures var p, f := Stored(s, isAgent, bytes, c), FrameOf(bytes, c);
      && p.audio == s.audio && p.userOnly == s.userOnly
      && p.agentBuffer == (if isAgent then Newest(s.agentBuffer + [f]) else s.agentBuffer)
      && p.userBuffer == (if isAgent then s.userBuffer else Newest(s.userBuffer + [f]))
  {
    StoredIs(s, isAgent, bytes, c);
    EvictWrites(Accepted(s, isAgent, bytes, c), isAgent);
    NewestIs(s.agentBuffer, FrameOf(bytes, c));
    NewestIs(s.userBuffer, FrameOf(bytes, c));
  }

  lemma {:induction false} EvictWrites(s: State, isAgent: bool)
    ensures Evict(s, isAgent).audio == s.audio && Evict(s, isAgent).userOnly == s.userOnly
    decreases |s.agentBuffer| + |s.userBuffer|
  {
    if isAgent && |s.agentBuffer| > MAX_BUFFER_SIZE {
      EvictWrites(EvictAgent(s), isAgent);
    } else if !isAgent && |s.userBuffer| > MAX_BUFFER_SIZE {
      EvictWrites(EvictUser(s), isAgent);
    }
  }

  /**
   A user frame.  Agent inactive: it goes out with the user frames waiting, to both tracks.  Agent
   active: it meets the agent frames waiting, going to the user track once a turn; if none waits,
   it waits itself.
   */
  lemma UserCallWrites(s: State, bytes: seq<Byte>, c: Clock, now: int)
    requires Inv(s, now) && bytes != [] && now <= c.stamped
    ensures var t, f := AddFrame(s, false, bytes, c), FrameOf(bytes, c);
      var n := Old(s.agentBuffer, c.stamped);
      if !t.agentActive then
        && Wrote(s, t, Joined(Newest(s.userBuffer + [f])), Joined(Newest(s.userBuffer + [f])))
        && t.userBuffer == [] && t.agentBuffer == s.agentBuffer
      else if s.agentBuffer == [] then
        Wrote(s, t, [], []) && t.userBuffer == Newest(s.userBuffer + [f]) && t.agentBuffer == []
      else
        UserMet(s, t, s.agentBuffer, n, f)
  {
    var p := Stored(s, false, bytes, c);
    AddFrameFlags(s, false, bytes, c);
    StoredReady(s, false, bytes, c, now);
    StoredNewest(s, false, bytes, c);
    StoredIs(s, false, bytes, c);
    WroteNothing(s);
    if !p.agentActive {
      DrainUserWrites(p);
    } else if s.agentBuffer != [] {
      UserMergeWrites(p);
    }
  }

  /**
   An agent frame.  No user frame has ever come: it goes out with the agent frames waiting, unless
   the agent is inactive after it.  Otherwise it meets the user frames waiting; with none, or with
   the agent inactive after it, it waits, in the latter case after the waiting user frames went out.
   */
  lemma AgentCallWrites(s: State, bytes: seq<Byte>, c: Clock, now: int)
    requires Inv(s, now) && bytes != [] && now <= c.stamped
    ensures var t, f := AddFrame(s, true, bytes, c), FrameOf(bytes, c);
      var n, kept := Old(s.userBuffer, c.stamped), Newest(s.agentBuffer + [f]);
      if !t.agentActive then
        && Wrote(s, t, Joined(s.userBuffer), Joined(s.userBuffer)) && t.userBuffer == [] && t.agentBuffer == kept
      else if !s.userActive then
        Wrote(s, t, Joined(kept), []) && t.agentBuffer == [] && t.userBuffer == []
      else if s.userBuffer == [] then
        Wrote(s, t, [], []) && t.agentBuffer == kept && t.userBuffer == []
      else
        AgentMet(s, t, s.userBuffer, n, f)
  {
    var p := Stored(s, true, bytes, c);
    AddFrameFlags(s, true, bytes, c);
    StoredReady(s, true, bytes, c, now);
    StoredNewest(s, true, bytes, c);
    StoredIs(s, true, bytes, c);
    WroteNothing(s);
    if p.agentActive && !p.userActive {
      DrainAgentWrites(p);
    } else if !p.agentActive && p.userActive {
      DrainUserWrites(p);
    } else if p.agentActive && s.userBuffer != [] {
      AgentMergeWrites(p);
    }
  }

  /** A stream that is active alone has nothing waiting after any call. */
  lemma AloneIsWritten(s: State, isAgent: bool, bytes: seq<Byte>, c: Clock, now: int)
    requires Inv(s, now) && bytes != [] && now <= c.stamped
    ensures var t := AddFrame(s, isAgent, bytes, c);
      && (t.agentActive && !t.userActive ==> t.agentBuffer == [])
      && (!t.agentActive && t.userActive ==> t.userBuffer == [])
  {
    ActivityLaw(s, isAgent, bytes, c);
    if isAgent {
      AgentCallWrites(s, bytes, c, now);
    } else {
      UserCallWrites(s, bytes, c, now);
    }
  }

  // ---- a stream on its own ----

  /** A frame of one stream. */
  predicate From(x: Input, isAgent: bool) {
    x.Add? && x.isAgent == isAgent
  }

  predicate Only(isAgent: bool, inputs: seq<Input>) {
    forall x :: x in inputs ==> From(x, isAgent)
  }

  /** The sound of the frames handed in. */
  function SoundIn(inputs: seq<Input>): seq<Sample> {
    if inputs == [] then [] else (if inputs[0].Add? then Decode(inputs[0].bytes) else []) + SoundIn(inputs[1..])
  }

  /** Silent frames in a row, after one more input of that stream. */
  function NextSilence(silence: nat, x: Input): nat {
    if x.Discard? || x.bytes == [] then silence else if Quiet(Decode(x.bytes)) then silence + 1 else 0
  }

  /**
   The stream is never silent for more than 250 frames in a row, `silence` before the first, and no
   call takes a second.
   */
  predicate StaysActive(silence: nat, inputs: seq<Input>)
    decreases |inputs|
  {
    if inputs == [] then true else
      var x := inputs[0];
      && NextSilence(silence, x) <= 250
      && (x.Add? ==> x.clock.checked - x.clock.seen < 1_001_000_000)
      && StaysActive(NextSilence(silence, x), inputs[1..])
  }

  lemma OneJoined(f: Frame)
    ensures Joined(Newest([] + [f])) == f.samples
  {
    assert [] + [f] == [f];
    JoinedOne(f);
  }

  lemma WroteTwice(s: State, t: State, u: State, a: seq<Sample>, b: seq<Sample>, c: seq<Sample>, d: seq<Sample>)
    requires Wrote(s, t, a, b) && Wrote(t, u, c, d)
    ensures Wrote(s, u, a + c, b + d)
  {
    Assoc(s.audio, a, c);
    Assoc(s.userOnly, b, d);
  }

  /** A recorder no user frame has reached, with nothing waiting. */
  ghost predicate NoUser(s: State, now: int) {
    Inv(s, now) && !s.userActive && s.agentBuffer == []
  }

  lemma AgentFrameAlone(s: State, bytes: seq<Byte>, c: Clock, now: int)
    requires NoUser(s, now) && bytes != [] && now <= c.stamped && c.checked - c.seen < 1_001_000_000
    requires (if Quiet(Decode(bytes)) then s.agentSilence + 1 else 0) <= 250
    ensures var t := AddFrame(s, true, bytes, c);
      && Wrote(s, t, Decode(bytes), []) && !t.userActive && t.agentBuffer == []
      && t.agentSilence == if Quiet(Decode(bytes)) then s.agentSilence + 1 else 0
  {
    ActivityLaw(s, true, bytes, c);
    AgentCallWrites(s, bytes, c, now);
    OneJoined(FrameOf(bytes, c));
  }

  lemma AgentAloneOne(s: State, x: Input, now: int)
    requires NoUser(s, now) && Timed(now, [x]) && From(x, true)
    requires NextSilence(s.agentSilence, x) <= 250 && x.clock.checked - x.clock.seen < 1_001_000_000
    ensures var t := Apply(s, x);
      && NoUser(t, LastTick(now, [x])) && Wrote(s, t, Decode(x.bytes), [])
      && t.agentSilence == NextSilence(s.agentSilence, x)
  {
    ApplyKeeps(s, x, now);
    if x.bytes == [] {
      NoFrame(s, x, now);
    } else {
      TimedOne(now, x);
      AgentFrameAlone(s, x.bytes, x.clock, now);
    }
  }

  /** A recorder whose agent is inactive, with no user frame waiting. */
  ghost predicate NoAgent(s: State, now: int) {
    Inv(s, now) && !s.agentActive && s.userBuffer == []
  }

  lemma UserFrameAlone(s: State, bytes: seq<Byte>, c: Clock, now: int)
    requires NoAgent(s, now) && bytes != [] && now <= c.stamped
    ensures var t := AddFrame(s, false, bytes, c);
      && Wrote(s, t, Decode(bytes), Decode(bytes)) && !t.agentActive
      && t.userBuffer == [] && t.agentBuffer == s.agentBuffer
  {
    ActivityLaw(s, false, bytes, c);
    UserCallWrites(s, bytes, c, now);
    OneJoined(FrameOf(bytes, c));
  }

  /** An empty frame does nothing. */
  lemma NoFrame(s: State, x: Input, now: int)
    requires x.Add? && x.bytes == []
    ensures Apply(s, x) == s && Decode(x.bytes) == [] && Wrote(s, s, [], [])
    ensures LastTick(now, [x]) == now
  {
    WroteNothing(s);
    assert [x][1..] == [] && LastTick(now, []) == now;
  }

  lemma TimedOne(now: int, x: Input)
    requires Timed(now, [x]) && x.Add? && x.bytes != []
    ensures now <= x.clock.stamped && LastTick(now, [x]) == x.clock.checked
  {
    assert [x][1..] == [];
    assert LastTick(x.clock.checked, []) == x.clock.checked;
  }

  lemma UserAloneOne(s: State, x: Input, now: int)
    requires NoAgent(s, now) && Timed(now, [x]) && From(x, false)
    ensures var t := Apply(s, x);
      && NoAgent(t, LastTick(now, [x])) && Wrote(s, t, Decode(x.bytes), Decode(x.bytes))
      && t.agentBuffer == s.agentBuffer
  {
    ApplyKeeps(s, x, now);
    if x.bytes == [] {
      NoFrame(s, x, now);
    } else {
      TimedOne(now, x);
      UserFrameAlone(s, x.bytes, x.clock, now);
    }
  }

  /**
   As long as no user frame has come, the frames of an active agent go straight to the mixed track,
   all of them and nothing else.
   */
  lemma {:induction false} AgentAlone(s: State, inputs: seq<Input>, now: int)
    requires NoUser(s, now) && Timed(now, inputs) && Only(true, inputs) && StaysActive(s.agentSilence, inputs)
    ensures Wrote(s, Run(s, inputs), SoundIn(inputs), []) && Run(s, inputs).agentBuffer == []
    decreases |inputs|
  {
    if inputs == [] {
      WroteNothing(s);
    } else {
      var x, rest := inputs[0], inputs[1..];
      assert x in inputs;
      TimedHead(now, inputs);
      AgentAloneOne(s, x, now);
      AgentAlone(Apply(s, x), rest, LastTick(now, [x]));
      WroteTwice(s, Apply(s, x), Run(Apply(s, x), rest), Decode(x.bytes), [], SoundIn(rest), []);
    }
  }

  /** While the agent is inactive, user frames go straight to both tracks. */
  lemma {:induction false} UserAlone(s: State, inputs: seq<Input>, now: int)
    requires NoAgent(s, now) && Timed(now, inputs) && Only(false, inputs)
    ensures Wrote(s, Run(s, inputs), SoundIn(inputs), SoundIn(inputs)) && Run(s, inputs).userBuffer == []
    ensures Run(s, inputs).agentBuffer == s.agentBuffer
    decreases |inputs|
  {
    if inputs == [] {
      WroteNothing(s);
    } else {
      var x, rest := inputs[0], inputs[1..];
      assert x in inputs;
      TimedHead(now, inputs);
      UserAloneOne(s, x, now);
      UserAlone(Apply(s, x), rest, LastTick(now, [x]));
      var now', later := Decode(x.bytes), SoundIn(rest);
      WroteTwice(s, Apply(s, x), Run(Apply(s, x), rest), now', now', later, later);
    }
  }
}
