/** The recorder as the program runs it: fields updated in place, loops over the buffers. */
module Recorder {
  import opened Common
  import opened RecorderState
  import E = RecorderEffects

  class AudioMixer {
    const samplesPerFrame: nat
    const mixBuffer: array<Sample>
    var agentBuffer: seq<Frame>
    var userBuffer: seq<Frame>
    var audioBuffer: seq<Sample>
    var userOnlyBuffer: seq<Sample>
    var agentSilenceCount: nat
    var userSilenceCount: nat
    var agentStreamActive: bool
    var userStreamActive: bool
    var lastAgentFrame: int
    var lastUserFrame: int

    // History since the last discard.
    ghost var log: seq<Event>
    ghost var agentIn: seq<Frame>
    ghost var userIn: seq<Frame>

    /** Buffered frames fit the scratch buffer. */
    ghost predicate Valid()
      reads this
    {
      && mixBuffer.Length == samplesPerFrame
      && (forall f :: f in agentBuffer ==> |f.samples| <= samplesPerFrame)
      && (forall f :: f in userBuffer ==> |f.samples| <= samplesPerFrame)
    }

    ghost function Value(): State
      reads this
    {
      State(agentBuffer, userBuffer, audioBuffer, userOnlyBuffer, agentSilenceCount, userSilenceCount,
            agentStreamActive, userStreamActive, lastAgentFrame, lastUserFrame, log, agentIn, userIn)
    }

    constructor (sampleRate: nat, agentTick: int, userTick: int)
      ensures Valid() && fresh(mixBuffer)
      ensures Value() == Fresh(agentTick, userTick)
      ensures samplesPerFrame == sampleRate * FRAME_DURATION_MS / 1000
    {
      var size: nat := sampleRate * FRAME_DURATION_MS / 1000;
      samplesPerFrame := size;
      mixBuffer := new Sample[size](_ => 0);
      agentBuffer, userBuffer, audioBuffer, userOnlyBuffer := [], [], [], [];
      agentSilenceCount, userSilenceCount := 0, 0;
      agentStreamActive, userStreamActive := false, false;
      lastAgentFrame, lastUserFrame := agentTick, userTick;
      log, agentIn, userIn := [], [], [];
    }

    static method IsFrameSilent(bytes: seq<Byte>) returns (silent: bool)
      ensures silent <==> E.Quiet(Decode(bytes))
      ensures silent <==> Silent(Decode(bytes))
    {
      E.SilentIs(Decode(bytes));
      if bytes == [] {
        return true;
      }
      var i := 0;
      while i < |bytes| / 2
        invariant 0 <= i <= |bytes| / 2
        invariant forall k :: 0 <= k < i ==> Abs(Decode(bytes)[k]) <= SILENCE_THRESHOLD
      {
        var sample := SampleOf(bytes[2 * i], bytes[2 * i + 1]);
        if Abs(sample) > SILENCE_THRESHOLD {
          assert Decode(bytes)[i] == sample;
          return false;
        }
        i := i + 1;
      }
      return true;
    }

    method CheckStreamActivity(now: int)
      modifies this`agentStreamActive
      ensures Value() == CheckActivity(old(Value()), now)
      ensures agentStreamActive <==>
        old(agentStreamActive) && agentSilenceCount <= 250 && now - lastAgentFrame < 1_001_000_000
    {
      E.MillisAbove(now - lastAgentFrame, 1000);
      if agentSilenceCount > MAX_SILENCE_FRAMES || Millis(now - lastAgentFrame) > 1000 {
        agentStreamActive := false;
      }
    }

    method WriteSingleStream(samples: seq<Sample>)
      modifies this`audioBuffer
      ensures audioBuffer == old(audioBuffer) + samples
    {
      audioBuffer := audioBuffer + samples;
    }

    method WriteUserOnlyStream(samples: seq<Sample>)
      modifies this`userOnlyBuffer
      ensures userOnlyBuffer == old(userOnlyBuffer) + samples
    {
      userOnlyBuffer := userOnlyBuffer + samples;
    }

    /** Whatever the scratch buffer held before, only the new mix is appended. */
    method MixFrames(agentSamples: seq<Sample>, userSamples: seq<Sample>)
      requires |agentSamples| <= mixBuffer.Length || |userSamples| <= mixBuffer.Length
      modifies this`audioBuffer, mixBuffer
      ensures audioBuffer == old(audioBuffer) + Mix(agentSamples, userSamples)
      ensures E.Together(agentSamples, userSamples, audioBuffer[|old(audioBuffer)|..])
    {
      E.MixIs(agentSamples, userSamples);
      var numSamples := Min(|agentSamples|, |userSamples|);
      var i := 0;
      while i < numSamples
        invariant 0 <= i <= numSamples
        invariant mixBuffer[..i] == Mix(agentSamples, userSamples)[..i]
        invariant audioBuffer == old(audioBuffer)
      {
        var agentSample: int, userSample: int := agentSamples[i], userSamples[i];
        mixBuffer[i] := Clamp(agentSample + userSample);
        assert mixBuffer[..i + 1] == mixBuffer[..i] + [mixBuffer[i]];
        i := i + 1;
      }
      audioBuffer := audioBuffer + mixBuffer[..numSamples];
      assert audioBuffer[|old(audioBuffer)|..] == Mix(agentSamples, userSamples);
    }

    method DrainAgentBuffer()
      requires Valid()
      modifies this`agentBuffer, this`audioBuffer, this`log
      ensures Valid() && Value() == DrainAgent(old(Value()))
    {
      while agentBuffer != []
        invariant Valid() && DrainAgent(Value()) == DrainAgent(old(Value()))
        decreases |agentBuffer|
      {
        ghost var before := Value();
        log := log + [AgentDirect(agentBuffer[0])];
        WriteSingleStream(agentBuffer[0].samples);
        agentBuffer := agentBuffer[1..];
        assert Value() == AgentDirectStep(before);
      }
    }

    method DrainUserBuffer()
      requires Valid()
      modifies this`userBuffer, this`audioBuffer, this`userOnlyBuffer, this`log
      ensures Valid() && Value() == DrainUser(old(Value()))
    {
      while userBuffer != []
        invariant Valid() && DrainUser(Value()) == DrainUser(old(Value()))
        decreases |userBuffer|
      {
        ghost var before := Value();
        log := log + [UserDirect(userBuffer[0])];
        WriteUserOnlyStream(userBuffer[0].samples);
        WriteSingleStream(userBuffer[0].samples);
        userBuffer := userBuffer[1..];
        assert Value() == UserDirectStep(before);
      }
    }

    /** One turn of the merge loop. */
    method MergeFronts()
      requires Valid() && agentBuffer != [] && userBuffer != []
      modifies this`agentBuffer, this`userBuffer, this`audioBuffer, this`userOnlyBuffer, this`log, mixBuffer
      ensures Valid() && Value() == MergeStep(old(Value()))
    {
      var agentFrame, userFrame := agentBuffer[0], userBuffer[0];
      WriteUserOnlyStream(userFrame.samples);
      var timeDiff := Millis(agentFrame.timestamp - userFrame.timestamp);
      if Abs(timeDiff) > 2 * FRAME_DURATION_MS {
        if timeDiff > 0 {
          WriteSingleStream(userFrame.samples);
          userBuffer := userBuffer[1..];
          log := log + [UserFar(userFrame)];
        } else {
          WriteSingleStream(agentFrame.samples);
          agentBuffer := agentBuffer[1..];
          log := log + [AgentFar(agentFrame)];
        }
        return;
      }
      MixFrames(agentFrame.samples, userFrame.samples);
      agentBuffer := agentBuffer[1..];
      userBuffer := userBuffer[1..];
      log := log + [Paired(agentFrame, userFrame)];
    }

    method MergeBuffers()
      requires Valid()
      modifies this`agentBuffer, this`userBuffer, this`audioBuffer, this`userOnlyBuffer, this`log, mixBuffer
      ensures Valid() && Value() == Merge(old(Value())) && (agentBuffer == [] || userBuffer == [])
    {
      while agentBuffer != [] && userBuffer != []
        invariant Valid() && Merge(Value()) == Merge(old(Value()))
        decreases |agentBuffer| + |userBuffer|
      {
        MergeFronts();
      }
    }

    method ProcessBuffers()
      requires Valid()
      modifies this`agentBuffer, this`userBuffer, this`audioBuffer, this`userOnlyBuffer, this`log, mixBuffer
      ensures Valid() && Value() == Process(old(Value()))
      ensures agentStreamActive && !userStreamActive ==>
        && audioBuffer == old(audioBuffer) + E.Joined(old(agentBuffer)) && agentBuffer == []
        && userOnlyBuffer == old(userOnlyBuffer) && userBuffer == old(userBuffer)
      ensures !agentStreamActive && userStreamActive ==>
        && audioBuffer == old(audioBuffer) + E.Joined(old(userBuffer)) && userBuffer == []
        && userOnlyBuffer == old(userOnlyBuffer) + E.Joined(old(userBuffer)) && agentBuffer == old(agentBuffer)
      ensures agentStreamActive == userStreamActive ==> agentBuffer == [] || userBuffer == []
    {
      E.DrainAgentWrites(Value());
      E.DrainUserWrites(Value());
      if agentStreamActive && !userStreamActive {
        DrainAgentBuffer();
        return;
      }
      if !agentStreamActive && userStreamActive {
        DrainUserBuffer();
        return;
      }
      MergeBuffers();
    }

    method UpdateCounters(isAgent: bool, isSilent: bool, now: int)
      modifies this`agentSilenceCount, this`userSilenceCount, this`lastAgentFrame, this`lastUserFrame,
               this`agentStreamActive, this`userStreamActive
      ensures Value() == NoteArrival(old(Value()), isAgent, isSilent, now)
    {
      if isAgent {
        agentSilenceCount := if isSilent then agentSilenceCount + 1 else 0;
        lastAgentFrame := now;
        agentStreamActive := true;
      } else {
        userSilenceCount := if isSilent then userSilenceCount + 1 else 0;
        lastUserFrame := now;
        userStreamActive := true;
      }
    }

    method PushAndEvict(frame: Frame, isAgent: bool)
      requires Valid() && |frame.samples| <= samplesPerFrame
      modifies this`agentBuffer, this`userBuffer, this`log, this`agentIn, this`userIn
      ensures Valid() && Value() == Evict(Push(old(Value()), isAgent, frame), isAgent)
    {
      if isAgent {
        agentBuffer, agentIn := agentBuffer + [frame], agentIn + [frame];
      } else {
        userBuffer, userIn := userBuffer + [frame], userIn + [frame];
      }
      assert Value() == Push(old(Value()), isAgent, frame);
      while (if isAgent then |agentBuffer| else |userBuffer|) > MAX_BUFFER_SIZE
        invariant Valid()
        invariant Evict(Value(), isAgent) == Evict(Push(old(Value()), isAgent, frame), isAgent)
        decreases |agentBuffer| + |userBuffer|
      {
        if isAgent {
          log, agentBuffer := log + [AgentEvicted(agentBuffer[0])], agentBuffer[1..];
        } else {
          log, userBuffer := log + [UserEvicted(userBuffer[0])], userBuffer[1..];
        }
      }
    }

    /** One frame, with the three clock readings the call takes. */
    method AddFrame(bytes: seq<Byte>, isAgent: bool, clock: Clock)
      requires Valid() && |bytes| % 2 == 0 && |bytes| / 2 <= samplesPerFrame
      modifies this, mixBuffer
      ensures Valid() && Value() == RecorderState.AddFrame(old(Value()), isAgent, bytes, clock)
      ensures bytes != [] ==>
        && (userStreamActive <==> old(userStreamActive) || !isAgent)
        && (agentStreamActive <==> (old(agentStreamActive) || isAgent) && agentSilenceCount <= 250
                                   && clock.checked - lastAgentFrame < 1_001_000_000)
        && agentSilenceCount == (if !isAgent then old(agentSilenceCount)
                                 else if E.Quiet(Decode(bytes)) then old(agentSilenceCount) + 1 else 0)
        && lastAgentFrame == if isAgent then clock.seen else old(lastAgentFrame)
      ensures agentStreamActive && !userStreamActive && bytes != [] ==> agentBuffer == []
      ensures !agentStreamActive && userStreamActive && bytes != [] ==> userBuffer == []
    {
      if bytes == [] {
        return;
      }
      E.ActivityLaw(Value(), isAgent, bytes, clock);
      var isSilent := IsFrameSilent(bytes);
      UpdateCounters(isAgent, isSilent, clock.seen);
      PushAndEvict(Frame(Decode(bytes), clock.stamped, isSilent), isAgent);
      CheckStreamActivity(clock.checked);
      ProcessBuffers();
    }

    method ResetCounters()
      modifies this`agentSilenceCount, this`userSilenceCount, this`agentStreamActive, this`userStreamActive
      ensures agentSilenceCount == userSilenceCount == 0
      ensures !agentStreamActive && !userStreamActive
    {
      agentSilenceCount, userSilenceCount := 0, 0;
      agentStreamActive, userStreamActive := false, false;
    }

    method ClearBuffers()
      requires Valid()
      modifies this`agentBuffer, this`userBuffer, this`audioBuffer, this`userOnlyBuffer,
               this`agentSilenceCount, this`userSilenceCount, this`agentStreamActive, this`userStreamActive,
               this`log, this`agentIn, this`userIn
      ensures Valid() && Value() == Clear(old(Value()))
      ensures agentBuffer == [] && userBuffer == [] && audioBuffer == [] && userOnlyBuffer == []
      ensures agentSilenceCount == userSilenceCount == 0 && !agentStreamActive && !userStreamActive
    {
      agentBuffer, agentIn := [], [];
      userBuffer, userIn := [], [];
      audioBuffer, userOnlyBuffer, log := [], [], [];
      ResetCounters();
    }
  }
}
