/** The playback side of the WebSocket handler: queue, carry-over and flags updated in place. */
module Playback {
  import opened Common
  import P = PlaybackState
  import E = PlaybackEffects

  class AudioQueue {
    const bytesPerFrame: nat
    var audioQueue: seq<P.Bytes>
    var partialFrame: P.Bytes
    var realTimeAudio: bool
    var logMisalignmentDone: bool
    var checkpointReceived: bool
    var clearAudioCalled: bool
    var pendingStreamId: string
    var pendingStreamName: string
    var connected: bool

    /** Only the history fields of this value count; `Value` overlays the real fields. */
    ghost var past: P.State

    ghost predicate Valid()
      reads this
    {
      |past.queued| == |audioQueue|
    }

    ghost function Value(): P.State
      reads this
    {
      past.(queue := audioQueue, partial := partialFrame, realTime := realTimeAudio,
            misalignedLogged := logMisalignmentDone, checkpoint := checkpointReceived,
            clearCalled := clearAudioCalled, pendingId := pendingStreamId,
            pendingName := pendingStreamName, connected := connected)
    }

    constructor (sampleRate: nat, realTime: bool)
      ensures Valid() && Value() == P.Init(realTime)
      ensures bytesPerFrame == sampleRate * 20 * 2 / 1000
    {
      bytesPerFrame := sampleRate * 20 * 2 / 1000;
      audioQueue, partialFrame, realTimeAudio, logMisalignmentDone := [], [], realTime, false;
      checkpointReceived, clearAudioCalled, pendingStreamId, pendingStreamName := false, false, "", "";
      connected := false;
      past := P.Init(realTime);
    }

    /** Push one frame under the overflow policy; `refused` ends the caller's loop. */
    method PushFrame(frame: P.Bytes) returns (refused: bool)
      modifies this`audioQueue
      ensures refused <==> !realTimeAudio && |old(audioQueue)| >= P.MAX_QUEUE_SIZE_DEFAULT
      ensures audioQueue ==
        if refused then old(audioQueue)
        else if realTimeAudio && |old(audioQueue)| >= P.MAX_QUEUE_SIZE_RUPTURE then old(audioQueue)[1..] + [frame]
        else old(audioQueue) + [frame]
    {
      if realTimeAudio {
        if |audioQueue| >= P.MAX_QUEUE_SIZE_RUPTURE {
          audioQueue := audioQueue[1..];
        }
        audioQueue := audioQueue + [frame];
        return false;
      }
      if |audioQueue| < P.MAX_QUEUE_SIZE_DEFAULT {
        audioQueue := audioQueue + [frame];
        return false;
      }
      return true;
    }

    /** The value with the carry-over read from `offset` on, as the cutting loop sees it. */
    ghost function From(offset: nat): P.State
      requires offset <= |partialFrame|
      reads this
    {
      Value().(partial := partialFrame[offset..])
    }

    /** One turn of the cutting loop: the frame at `offset`. */
    method CutOne(offset: nat) returns (refused: bool)
      requires Valid() && offset + bytesPerFrame <= |partialFrame|
      modifies this`audioQueue, this`past
      ensures Valid() && From(offset + bytesPerFrame) == P.CutFrame(bytesPerFrame, old(From(offset)))
      ensures refused <==> P.Full(old(From(offset))) && !realTimeAudio
    {
      var frame := partialFrame[offset..offset + bytesPerFrame];
      assert partialFrame[offset..][..bytesPerFrame] == frame;
      assert partialFrame[offset..][bytesPerFrame..] == partialFrame[offset + bytesPerFrame..];
      past := P.CutFrame(bytesPerFrame, From(offset));
      refused := PushFrame(frame);
    }

    /** Cut whole frames off the carry-over until too little is left or one is refused. */
    method CutFrames()
      requires Valid() && bytesPerFrame > 0
      modifies this`audioQueue, this`partialFrame, this`past
      ensures Valid() && Value() == P.Reframe(bytesPerFrame, old(Value()))
    {
      var offset, refused := 0, false;
      assert partialFrame[0..] == partialFrame;
      while !refused && |partialFrame| - offset >= bytesPerFrame
        invariant Valid() && 0 <= offset <= |partialFrame| && partialFrame == old(partialFrame)
        invariant refused ==> From(offset) == P.Reframe(bytesPerFrame, old(Value()))
        invariant !refused ==> P.Reframe(bytesPerFrame, From(offset)) == P.Reframe(bytesPerFrame, old(Value()))
        decreases !refused, |partialFrame| - offset
      {
        refused := CutOne(offset);
        offset := offset + bytesPerFrame;
      }
      partialFrame := partialFrame[offset..];
    }

    method EnqueueAudio(chunk: P.Bytes)
      requires Valid()
      modifies this`audioQueue, this`partialFrame, this`logMisalignmentDone, this`past
      ensures Valid() && Value() == P.EnqueueAudio(bytesPerFrame, old(Value()), chunk)
      ensures logMisalignmentDone <==>
        old(logMisalignmentDone)
        || (bytesPerFrame > 0 && (|chunk| - |chunk| % 2) % bytesPerFrame != 0)
    {
      if bytesPerFrame == 0 {
        return;
      }
      var pcm := if |chunk| % 2 == 1 then chunk[..|chunk| - 1] else chunk;
      if !logMisalignmentDone && |pcm| % bytesPerFrame != 0 {
        logMisalignmentDone := true;
      }
      partialFrame := partialFrame + pcm;
      past := past.(input := past.input + pcm, calls := past.calls + 1);
      CutFrames();
    }

    method ResetCheckpointState()
      modifies this`checkpointReceived, this`clearAudioCalled, this`pendingStreamName, this`pendingStreamId
      ensures Value() == P.ResetCheckpoint(old(Value()))
      ensures !checkpointReceived && !clearAudioCalled && pendingStreamName == "" && pendingStreamId == ""
    {
      checkpointReceived, clearAudioCalled := false, false;
      pendingStreamName, pendingStreamId := "", "";
    }

    method ClearAudioQueue()
      modifies this
      ensures Valid() && Value() == P.ClearQueue(old(Value()))
      ensures audioQueue == [] && partialFrame == [] && !logMisalignmentDone
      ensures !checkpointReceived && !clearAudioCalled && pendingStreamName == "" && pendingStreamId == ""
      ensures connected == old(connected) && realTimeAudio == old(realTimeAudio)
    {
      audioQueue, partialFrame, logMisalignmentDone := [], [], false;
      clearAudioCalled := true;
      past := P.ClearQueue(past);
      ResetCheckpointState();
    }

    /** `sent` is what goes out to the peer. */
    method SendPlayedStreamEvent() returns (sent: Option<(string, string)>)
      requires Valid()
      modifies this
      ensures Valid() && Value() == P.SendPlayedStream(old(Value()))
      ensures sent == if connected && old(pendingStreamId) != ""
                      then Some((old(pendingStreamId), old(pendingStreamName))) else None
      ensures sent.Some? ==> !checkpointReceived && pendingStreamId == ""
      ensures sent.None? ==> checkpointReceived == old(checkpointReceived) && pendingStreamId == old(pendingStreamId)
    {
      if !connected || pendingStreamId == "" {
        return None;
      }
      sent := Some((pendingStreamId, pendingStreamName));
      past := past.(acks := past.acks + [P.Ack(past.issued, past.wiped, pendingStreamId, pendingStreamName)]);
      ResetCheckpointState();
    }

    method GetAudioFrame() returns (frame: Option<P.Bytes>, sent: Option<(string, string)>)
      requires Valid()
      modifies this
      ensures Valid() && Value() == P.PopFrame(old(Value()))
      ensures frame == if old(audioQueue) == [] then None else Some(old(audioQueue)[0])
      ensures audioQueue == if old(audioQueue) == [] then [] else old(audioQueue)[1..]
      ensures sent.Some? <==> Value().acks != old(Value()).acks
      ensures sent.Some? <==>
        |old(audioQueue)| == 1 && old(checkpointReceived) && !old(clearAudioCalled)
        && old(connected) && old(pendingStreamId) != ""
      ensures sent.Some? ==> sent.value == (old(pendingStreamId), old(pendingStreamName))
      ensures if sent.Some? then !checkpointReceived && pendingStreamId == "" && pendingStreamName == ""
              else checkpointReceived == old(checkpointReceived) && pendingStreamId == old(pendingStreamId)
                   && pendingStreamName == old(pendingStreamName)
    {
      E.PopExact(Value());
      sent := None;
      if audioQueue == [] {
        return None, None;
      }
      frame := Some(audioQueue[0]);
      past := past.(queued := past.queued[1..], delivered := past.delivered + [past.queued[0]],
                    played := past.played + [audioQueue[0]]);
      audioQueue := audioQueue[1..];
      if checkpointReceived && audioQueue == [] && !clearAudioCalled {
        sent := SendPlayedStreamEvent();
      }
    }

    method OnCheckpoint(streamId: Option<string>, name: Option<string>)
      requires Valid()
      modifies this`checkpointReceived, this`pendingStreamId, this`pendingStreamName, this`past
      ensures Valid() && Value() == P.TakeCheckpoint(old(Value()), streamId, name)
      ensures checkpointReceived
      ensures pendingStreamId == if streamId.Some? then streamId.value else old(pendingStreamId)
      ensures pendingStreamName == if name.Some? then name.value else old(pendingStreamName)
    {
      checkpointReceived := true;
      if streamId.Some? {
        pendingStreamId := streamId.value;
      }
      if name.Some? {
        pendingStreamName := name.value;
      }
      past := past.(issued := past.issued + 1);
    }
  }
}
