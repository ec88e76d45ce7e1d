/**
 What the calls on the playback queue leave, said without the loop: the queue and the carry-over
 after a chunk in both modes, and when an acknowledgement must go out and what it says.
 */
module PlaybackEffects {
  import opened Common
  import opened PlaybackState
  import opened PlaybackTheorems

  // ---- a chunk ----

  /** The whole frames at the front of some bytes. */
  function Blocks(B: nat, bytes: Bytes): seq<Bytes>
    requires B > 0
  {
    if |bytes| < B then [] else [bytes[..B]] + Blocks(B, bytes[B..])
  }

  /** They are the consecutive stretches of `B` bytes, as many as there are. */
  lemma {:induction false} BlocksAre(B: nat, bytes: Bytes)
    requires B > 0
    ensures var n := |Blocks(B, bytes)|;
      && n * B <= |bytes| < (n + 1) * B
      && forall k :: 0 <= k < n ==> IsBlock(B, bytes, k, Blocks(B, bytes)[k])
  {
    if |bytes| >= B {
      var rest := bytes[B..];
      BlocksAre(B, rest);
      var n := |Blocks(B, rest)|;
      NextCut(B, n);
      NextCut(B, n + 1);
      forall k | 0 <= k < n + 1
        ensures IsBlock(B, bytes, k, Blocks(B, bytes)[k])
      {
        if k > 0 {
          assert IsBlock(B, rest, k - 1, Blocks(B, rest)[k - 1]);
          NextCut(B, k - 1);
          NextCut(B, k);
          assert rest[(k - 1) * B..k * B] == bytes[B + (k - 1) * B..B + k * B];
        }
      }
    }
  }

  /** The bytes behind the first `n` of them. */
  function Behind(B: nat, bytes: Bytes, n: nat): Bytes
    requires n * B <= |bytes|
  {
    bytes[n * B..]
  }

  lemma BehindNext(B: nat, bytes: Bytes, n: nat)
    requires B <= |bytes| && n * B <= |bytes| - B
    ensures (n + 1) * B <= |bytes| && Behind(B, bytes, n + 1) == Behind(B, bytes[B..], n)
  {
    NextCut(B, n);
  }

  /** The last of some frames. */
  function Last(frames: seq<Bytes>, n: nat): seq<Bytes> {
    if |frames| <= n then frames else frames[|frames| - n..]
  }

  function Max(a: nat, b: nat): nat {
    if a < b then b else a
  }

  /** One frame pushed under the real-time policy, and more to come. */
  lemma LastPushed(queue: seq<Bytes>, frame: Bytes, rest: seq<Bytes>)
    ensures var pushed := (if |queue| < 15 then queue else queue[1..]) + [frame];
      Last(pushed + rest, Max(15, |pushed|)) == Last(queue + ([frame] + rest), Max(15, |queue|))
  {
    if |queue| < 15 {
      assert queue + [frame] + rest == queue + ([frame] + rest);
    } else {
      assert queue[1..] + [frame] + rest == (queue + ([frame] + rest))[1..];
    }
  }

  lemma {:induction false} RealTimeQueue(B: nat, s: State)
    requires B > 0 && |s.queued| == |s.queue| && s.realTime
    ensures Reframe(B, s).queue == Last(s.queue + Blocks(B, s.partial), Max(15, |s.queue|))
    decreases |s.partial|
  {
    if |s.partial| >= B {
      RealTimeQueue(B, CutFrame(B, s));
      LastPushed(s.queue, s.partial[..B], Blocks(B, s.partial[B..]));
    } else {
      assert s.queue + [] == s.queue;
    }
  }

  lemma {:induction false} RealTimeRest(B: nat, s: State)
    requires B > 0 && |s.queued| == |s.queue| && s.realTime
    ensures var n := |Blocks(B, s.partial)|;
      n * B <= |s.partial| && Reframe(B, s).partial == Behind(B, s.partial, n)
    decreases |s.partial|
  {
    if |s.partial| >= B {
      RealTimeRest(B, CutFrame(B, s));
      BehindNext(B, s.partial, |Blocks(B, s.partial[B..])|);
    }
  }

  lemma {:induction false} ReframeDefault(B: nat, s: State)
    requires B > 0 && |s.queued| == |s.queue| && !s.realTime
    ensures var t, blocks := Reframe(B, s), Blocks(B, s.partial);
      var room := if |s.queue| < 3000 then 3000 - |s.queue| else 0;
      if |blocks| <= room then
        && t.queue == s.queue + blocks
        && |blocks| * B <= |s.partial| && t.partial == Behind(B, s.partial, |blocks|)
      else
        && t.queue == s.queue + blocks[..room]
        && (room + 1) * B <= |s.partial| && t.partial == Behind(B, s.partial, room + 1)
    decreases |s.partial|
  {
    BlocksAre(B, s.partial);
    if |s.partial| >= B {
      var rest := s.partial[B..];
      BlocksAre(B, rest);
      if |s.queue| < 3000 {
        DefaultTurn(B, s);
      } else {
        assert s.queue + Blocks(B, s.partial)[..0] == s.queue;
        BehindNext(B, s.partial, 0);
        assert Behind(B, rest, 0) == rest;
      }
    } else {
      assert s.queue + [] == s.queue;
    }
  }

  lemma {:induction false} DefaultTurn(B: nat, s: State)
    requires B > 0 && |s.queued| == |s.queue| < 3000 && !s.realTime && |s.partial| >= B
    ensures var t, blocks := Reframe(B, s), Blocks(B, s.partial);
      var room := 3000 - |s.queue|;
      if |blocks| <= room then
        && t.queue == s.queue + blocks
        && |blocks| * B <= |s.partial| && t.partial == Behind(B, s.partial, |blocks|)
      else
        && t.queue == s.queue + blocks[..room]
        && (room + 1) * B <= |s.partial| && t.partial == Behind(B, s.partial, room + 1)
    decreases |s.partial|, 0
  {
    var u, frame, rest := CutFrame(B, s), s.partial[..B], Blocks(B, s.partial[B..]);
    var room := 3000 - |s.queue|;
    ReframeDefault(B, u);
    assert Blocks(B, s.partial) == [frame] + rest;
    if |rest| <= room - 1 {
      assert u.queue + rest == s.queue + ([frame] + rest);
      BehindNext(B, s.partial, |rest|);
    } else {
      assert ([frame] + rest)[..room] == [frame] + rest[..room - 1];
      assert u.queue + rest[..room - 1] == s.queue + ([frame] + rest[..room - 1]);
      BehindNext(B, s.partial, room);
    }
  }

  /** The chunk without an odd last byte, behind the carry-over. */
  function Arrived(s: State, pcm: Bytes): Bytes {
    s.partial + pcm[..|pcm| - |pcm| % 2]
  }

  lemma EnqueueArrives(B: nat, s: State, pcm: Bytes)
    requires B > 0 && |s.queued| == |s.queue|
    ensures exists f: State ::
      && f.partial == Arrived(s, pcm) && f.queue == s.queue && f.queued == s.queued && f.realTime == s.realTime
      && EnqueueAudio(B, s, pcm) == Reframe(B, f)
  {
    var even := Trim(pcm);
    assert even == pcm[..|pcm| - |pcm| % 2];
    var noted := s.(misalignedLogged := s.misalignedLogged || |even| % B != 0, calls := s.calls + 1);
    var f := Feed(noted, even);
    assert EnqueueAudio(B, s, pcm) == Reframe(B, f);
  }

  /**
   Real-time mode keeps the newest: after a chunk the queue is the last 15 (or as many as it held)
   of what it held followed by the whole frames now there; the carry-over is the rest.
   */
  lemma EnqueueRealTime(B: nat, s: State, pcm: Bytes)
    requires B > 0 && |s.queued| == |s.queue| && s.realTime
    ensures var t, bytes := EnqueueAudio(B, s, pcm), Arrived(s, pcm);
      var blocks := Blocks(B, bytes);
      && t.queue == Last(s.queue + blocks, Max(15, |s.queue|))
      && |blocks| * B <= |bytes| && t.partial == Behind(B, bytes, |blocks|)
  {
    EnqueueArrives(B, s, pcm);
    var f: State :| f.partial == Arrived(s, pcm) && f.queue == s.queue && f.queued == s.queued
                    && f.realTime == s.realTime && EnqueueAudio(B, s, pcm) == Reframe(B, f);
    RealTimeQueue(B, f);
    RealTimeRest(B, f);
  }

  /**
   Default mode keeps the oldest: after a chunk the queue has been filled up to 3000 with the whole
   frames now there, in order; if they were too many, one more is lost and the others stay in the
   carry-over.
   */
  lemma EnqueueDefault(B: nat, s: State, pcm: Bytes)
    requires B > 0 && |s.queued| == |s.queue| && !s.realTime
    ensures var t, bytes := EnqueueAudio(B, s, pcm), Arrived(s, pcm);
      var blocks, room := Blocks(B, bytes), if |s.queue| < 3000 then 3000 - |s.queue| else 0;
      if |blocks| <= room then
        t.queue == s.queue + blocks && |blocks| * B <= |bytes| && t.partial == Behind(B, bytes, |blocks|)
      else
        && t.queue == s.queue + blocks[..room]
        && (room + 1) * B <= |bytes| && t.partial == Behind(B, bytes, room + 1)
  {
    EnqueueArrives(B, s, pcm);
    var f: State :| f.partial == Arrived(s, pcm) && f.queue == s.queue && f.queued == s.queued
                    && f.realTime == s.realTime && EnqueueAudio(B, s, pcm) == Reframe(B, f);
    ReframeDefault(B, f);
  }

  // ---- acknowledgements ----

  /** A pop of this queue must acknowledge: it takes the last frame, and the peer can be told. */
  predicate Due(s: State) {
    |s.queue| == 1 && s.checkpoint && !s.clearCalled && s.connected && s.pendingId != ""
  }

  /** A pop acknowledges exactly then, with the id and the name of the checkpoint, which is over. */
  lemma PopExact(s: State)
    requires |s.queued| == |s.queue|
    ensures var t := PopFrame(s);
      && t.queue == (if s.queue == [] then [] else s.queue[1..])
      && t.partial == s.partial && t.realTime == s.realTime && t.connected == s.connected
      && if Due(s) then
           && t.acks == s.acks + [Ack(s.issued, s.wiped, s.pendingId, s.pendingName)]
           && !t.checkpoint && !t.clearCalled && t.pendingId == "" && t.pendingName == ""
         else
           && t.acks == s.acks && t.checkpoint == s.checkpoint && t.clearCalled == s.clearCalled
           && t.pendingId == s.pendingId && t.pendingName == s.pendingName
  {
  }

  function Pops(n: nat): seq<Event> {
    seq(n, _ => Pop)
  }

  /** Popping on: nothing is acknowledged before the last frame, and that one acknowledges. */
  lemma {:induction false} PopsAcknowledge(B: nat, s: State, n: nat)
    requires |s.queued| == |s.queue| && 0 < |s.queue| && n <= |s.queue|
    requires s.checkpoint && !s.clearCalled && s.connected && s.pendingId != ""
    ensures var t := Run(B, s, Pops(n));
      t.acks == if n < |s.queue| then s.acks else s.acks + [Ack(s.issued, s.wiped, s.pendingId, s.pendingName)]
    decreases n
  {
    if n > 0 {
      PopExact(s);
      assert Pops(n)[1..] == Pops(n - 1);
      var t := PopFrame(s);
      assert t.issued == s.issued && t.wiped == s.wiped && |t.queued| == |t.queue|;
      if n < |s.queue| || n > 1 {
        PopsAcknowledge(B, t, n - 1);
      } else {
        assert Pops(0) == [];
      }
    }
  }

  /** Between events no clear is pending: `clearAudioQueue` ends by resetting its own flag. */
  lemma NotClearing(B: nat, realTime: bool, events: seq<Event>)
    ensures var s := Run(B, Init(realTime), events);
      !s.clearCalled && |s.queued| == |s.queue|
  {
    InitInv(B, realTime);
    RunKeeps(B, Init(realTime), events);
  }

  lemma CheckpointThenPops(B: nat, s: State, id: string, name: string, n: nat)
    requires |s.queued| == |s.queue| && 0 < |s.queue| && n <= |s.queue|
    requires !s.clearCalled && s.connected && id != ""
    ensures var t := Run(B, TakeCheckpoint(s, Some(id), Some(name)), Pops(n));
      t.acks == if n < |s.queue| then s.acks else s.acks + [Ack(s.issued + 1, s.wiped, id, name)]
  {
    PopsAcknowledge(B, TakeCheckpoint(s, Some(id), Some(name)), n);
  }

  /**
   In every run: a checkpoint with an id that arrives while frames are queued and the peer is
   connected is acknowledged, by its id and name, by the pop that takes the last of them and by none
   before, if nothing else happens in between.
   */
  lemma CheckpointIsAcknowledged(B: nat, realTime: bool, events: seq<Event>, id: string, name: string, n: nat)
    requires |Run(B, Init(realTime), events).queue| > 0 && id != ""
    requires Run(B, Init(realTime), events).connected && n <= |Run(B, Init(realTime), events).queue|
    ensures var s := Run(B, Init(realTime), events);
      var t := Run(B, Init(realTime), events + [Checkpoint(Some(id), Some(name))] + Pops(n));
      t.acks == if n < |s.queue| then s.acks else s.acks + [Ack(s.issued + 1, s.wiped, id, name)]
  {
    var e := Checkpoint(Some(id), Some(name));
    NotClearing(B, realTime, events);
    RunSnoc(B, Init(realTime), events, e);
    RunAppend(B, Init(realTime), events + [e], Pops(n));
    CheckpointThenPops(B, Run(B, Init(realTime), events), id, name, n);
  }

  lemma ApplyShape(B: nat, s: State, e: Event)
    requires |s.queued| == |s.queue|
    ensures |Apply(B, s, e).queued| == |Apply(B, s, e).queue|
  {
    RunSnoc(B, Apply(B, s, e), [], e);
  }

  lemma {:induction false} RunAppend(B: nat, s: State, first: seq<Event>, second: seq<Event>)
    requires |s.queued| == |s.queue|
    ensures |Run(B, s, first).queued| == |Run(B, s, first).queue|
    ensures Run(B, s, first + second) == Run(B, Run(B, s, first), second)
    decreases |first|
  {
    if first == [] {
      assert first + second == second;
    } else {
      assert (first + second)[1..] == first[1..] + second;
      ApplyShape(B, s, first[0]);
      RunAppend(B, Apply(B, s, first[0]), first[1..], second);
    }
  }
}
