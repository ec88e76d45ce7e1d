/**
 The playback queue and its checkpoint flag as functions on values.  `B` is the size of a
 20 ms frame in bytes.

 History fields: `input` is the stream received since the last clear and `cut` how many
 whole frames of it have been cut off; each cut frame is then queued, delivered, evicted
 (pushed out by a newer frame) or refused (queue full).  Frames are named by their position
 in the stream.  `issued` counts checkpoints over the whole run, `wiped` how many of them
 the last clear cancelled, `acks` the acknowledgements sent.
 */
module PlaybackState {
  import opened Common

  const MAX_QUEUE_SIZE_RUPTURE := 15
  const MAX_QUEUE_SIZE_DEFAULT := 3000

  type Bytes = seq<Byte>

  datatype Ack = Ack(serial: nat, wiped: nat, streamId: string, name: string)

  datatype State = State(
    queue: seq<Bytes>,
    partial: Bytes,
    realTime: bool,
    misalignedLogged: bool,
    checkpoint: bool,
    clearCalled: bool,
    pendingId: string,
    pendingName: string,
    connected: bool,
    input: Bytes,
    cut: nat,
    queued: seq<nat>,
    delivered: seq<nat>,
    played: seq<Bytes>,
    evicted: seq<nat>,
    refused: seq<nat>,
    calls: nat,
    issued: nat,
    wiped: nat,
    acks: seq<Ack>)

  datatype Event =
    | Enqueue(pcm: Bytes)
    | Pop
    | Clear
    | Checkpoint(streamId: Option<string>, name: Option<string>)
    | SetConnected(up: bool)
    | GoRealTime

  function Init(realTime: bool): State {
    State([], [], realTime, false, false, false, "", "", false, [], 0, [], [], [], [], [], 0, 0, 0, [])
  }

  /** 16-bit samples: an odd last byte is dropped. */
  function Trim(pcm: Bytes): Bytes {
    if |pcm| % 2 == 1 then pcm[..|pcm| - 1] else pcm
  }

  function Feed(s: State, pcm: Bytes): State {
    s.(partial := s.partial + pcm, input := s.input + pcm)
  }

  predicate Full(s: State) {
    |s.queue| >= (if s.realTime then MAX_QUEUE_SIZE_RUPTURE else MAX_QUEUE_SIZE_DEFAULT)
  }

  /** Cut one frame off the carry-over. */
  function CutFrame(B: nat, s: State): State
    requires |s.partial| >= B
    requires |s.queued| == |s.queue|
  {
    var frame := s.partial[..B];
    var rest := s.(partial := s.partial[B..], cut := s.cut + 1);
    if !Full(s) then
      rest.(queue := s.queue + [frame], queued := s.queued + [s.cut])
    else if s.realTime then
      rest.(queue := s.queue[1..] + [frame], queued := s.queued[1..] + [s.cut],
            evicted := s.evicted + [s.queued[0]])
    else
      rest.(refused := s.refused + [s.cut])
  }

  /** The cutting loop: it stops at the first frame refused. */
  function Reframe(B: nat, s: State): (t: State)
    requires B > 0 && |s.queued| == |s.queue|
    ensures |t.queued| == |t.queue|
    decreases |s.partial|
  {
    if |s.partial| < B then s
    else if Full(s) && !s.realTime then CutFrame(B, s)
    else Reframe(B, CutFrame(B, s))
  }

  function EnqueueAudio(B: nat, s: State, pcm: Bytes): State
    requires |s.queued| == |s.queue|
  {
    if B == 0 then s else
      var even := Trim(pcm);
      var noted := s.(misalignedLogged := s.misalignedLogged || |even| % B != 0, calls := s.calls + 1);
      Reframe(B, Feed(noted, even))
  }

  function ResetCheckpoint(s: State): State {
    s.(checkpoint := false, clearCalled := false, pendingName := "", pendingId := "")
  }

  function SendPlayedStream(s: State): State {
    if !s.connected || s.pendingId == "" then s
    else ResetCheckpoint(s.(acks := s.acks + [Ack(s.issued, s.wiped, s.pendingId, s.pendingName)]))
  }

  function PopFrame(s: State): State
    requires |s.queued| == |s.queue|
  {
    if s.queue == [] then s else
      var t := s.(queue := s.queue[1..], queued := s.queued[1..],
                  delivered := s.delivered + [s.queued[0]], played := s.played + [s.queue[0]]);
      if t.checkpoint && t.queue == [] && !t.clearCalled then SendPlayedStream(t) else t
  }

  function ClearQueue(s: State): State {
    ResetCheckpoint(s.(queue := [], partial := [], misalignedLogged := false, clearCalled := true,
                       input := [], cut := 0, queued := [], delivered := [], played := [],
                       evicted := [], refused := [], calls := 0, wiped := s.issued))
  }

  /** A checkpoint without an id or a name keeps the ones it finds. */
  function TakeCheckpoint(s: State, streamId: Option<string>, name: Option<string>): State {
    s.(checkpoint := true, issued := s.issued + 1,
       pendingId := if streamId.Some? then streamId.value else s.pendingId,
       pendingName := if name.Some? then name.value else s.pendingName)
  }

  function Apply(B: nat, s: State, e: Event): State
    requires |s.queued| == |s.queue|
  {
    match e
    case Enqueue(pcm) => EnqueueAudio(B, s, pcm)
    case Pop => PopFrame(s)
    case Clear => ClearQueue(s)
    case Checkpoint(id, name) => TakeCheckpoint(s, id, name)
    case SetConnected(up) => s.(connected := up)
    case GoRealTime => s.(realTime := true)
  }

  function Run(B: nat, s: State, events: seq<Event>): State
    requires |s.queued| == |s.queue|
    decreases |events|
  {
    if events == [] then s else Run(B, Apply(B, s, events[0]), events[1..])
  }
}
