/**
 The two-stream recorder as a function on values: what one timestamped frame, or a
 discard, does to the buffers, the activity flags and the two tracks.

 Times are ticks (nanoseconds) of one steady clock.  The fields `log`, `agentIn` and
 `userIn` are history: the frames accepted since the last discard, and what happened to
 each frame that has left a buffer.
 */
module RecorderState {
  import opened Common

  const MAX_BUFFER_SIZE := 50
  const MAX_SILENCE_FRAMES := 250
  const SILENCE_THRESHOLD := 50
  const FRAME_DURATION_MS := 20
  const TICKS_PER_MS := 1_000_000

  datatype Frame = Frame(samples: seq<Sample>, timestamp: int, isSilence: bool)

  /** How frames leave the buffers. */
  datatype Event =
    | Paired(agent: Frame, user: Frame)  // mixed with each other
    | AgentFar(agent: Frame)             // both active, agent front too old: written alone
    | UserFar(user: Frame)               // both active, user front too old: written alone
    | AgentDirect(agent: Frame)          // only the agent is active
    | UserDirect(user: Frame)            // only the user is active
    | AgentEvicted(agent: Frame)         // pushed out of a full buffer
    | UserEvicted(user: Frame)

  datatype State = State(
    agentBuffer: seq<Frame>,
    userBuffer: seq<Frame>,
    audio: seq<Sample>,
    userOnly: seq<Sample>,
    agentSilence: nat,
    userSilence: nat,
    agentActive: bool,
    userActive: bool,
    lastAgent: int,
    lastUser: int,
    log: seq<Event>,
    agentIn: seq<Frame>,
    userIn: seq<Frame>)

  /** The three readings of the clock one `addFrame` takes, in order. */
  datatype Clock = Clock(seen: int, stamped: int, checked: int)

  datatype Input =
    | Add(isAgent: bool, bytes: seq<Byte>, clock: Clock)
    | Discard

  function Fresh(agentTick: int, userTick: int): State {
    State([], [], [], [], 0, 0, false, false, agentTick, userTick, [], [], [])
  }

  /** `duration_cast` to milliseconds truncates toward zero. */
  function Millis(ticks: int): int {
    if ticks >= 0 then ticks / TICKS_PER_MS else -((-ticks) / TICKS_PER_MS)
  }

  function Abs(x: int): nat {
    if x < 0 then -x else x
  }

  predicate Silent(samples: seq<Sample>) {
    forall i | 0 <= i < |samples| :: Abs(samples[i]) <= SILENCE_THRESHOLD
  }

  function Clamp(x: int): Sample {
    if x < -0x8000 then -0x8000 else if x > 0x7FFF then 0x7FFF else x
  }

  function Min(a: int, b: int): int {
    if a < b then a else b
  }

  function MixSample(agent: int, user: int): Sample {
    Clamp(agent + user)
  }

  /** Sample-wise sum over the common length. */
  function Mix(agent: seq<Sample>, user: seq<Sample>): seq<Sample> {
    seq(Min(|agent|, |user|), i requires 0 <= i < Min(|agent|, |user|) => MixSample(agent[i], user[i]))
  }

  // ---- one frame leaving a buffer ----

  function AgentDirectStep(s: State): State
    requires s.agentBuffer != []
  {
    var a := s.agentBuffer[0];
    s.(agentBuffer := s.agentBuffer[1..], audio := s.audio + a.samples, log := s.log + [AgentDirect(a)])
  }

  function UserDirectStep(s: State): State
    requires s.userBuffer != []
  {
    var u := s.userBuffer[0];
    s.(userBuffer := s.userBuffer[1..], userOnly := s.userOnly + u.samples,
       audio := s.audio + u.samples, log := s.log + [UserDirect(u)])
  }

  /** One turn of the merge loop; the user front is written to the user track every turn. */
  function MergeStep(s: State): State
    requires s.agentBuffer != [] && s.userBuffer != []
  {
    var a, u := s.agentBuffer[0], s.userBuffer[0];
    var t := s.(userOnly := s.userOnly + u.samples);
    var diff := Millis(a.timestamp - u.timestamp);
    if Abs(diff) > 2 * FRAME_DURATION_MS then
      if diff > 0 then
        t.(userBuffer := s.userBuffer[1..], audio := s.audio + u.samples, log := s.log + [UserFar(u)])
      else
        t.(agentBuffer := s.agentBuffer[1..], audio := s.audio + a.samples, log := s.log + [AgentFar(a)])
    else
      t.(agentBuffer := s.agentBuffer[1..], userBuffer := s.userBuffer[1..],
         audio := s.audio + Mix(a.samples, u.samples), log := s.log + [Paired(a, u)])
  }

  // ---- the three loops ----

  function DrainAgent(s: State): State
    decreases |s.agentBuffer|
  {
    if s.agentBuffer == [] then s else DrainAgent(AgentDirectStep(s))
  }

  function DrainUser(s: State): State
    decreases |s.userBuffer|
  {
    if s.userBuffer == [] then s else DrainUser(UserDirectStep(s))
  }

  function Merge(s: State): State
    decreases |s.agentBuffer| + |s.userBuffer|
  {
    if s.agentBuffer == [] || s.userBuffer == [] then s else Merge(MergeStep(s))
  }

  function Process(s: State): State {
    if s.agentActive && !s.userActive then DrainAgent(s)
    else if !s.agentActive && s.userActive then DrainUser(s)
    else Merge(s)
  }

  // ---- one operation ----

  function NoteArrival(s: State, isAgent: bool, silent: bool, now: int): State {
    if isAgent then
      s.(agentSilence := if silent then s.agentSilence + 1 else 0, lastAgent := now, agentActive := true)
    else
      s.(userSilence := if silent then s.userSilence + 1 else 0, lastUser := now, userActive := true)
  }

  function Push(s: State, isAgent: bool, f: Frame): State {
    if isAgent then s.(agentBuffer := s.agentBuffer + [f], agentIn := s.agentIn + [f])
    else s.(userBuffer := s.userBuffer + [f], userIn := s.userIn + [f])
  }

  function EvictAgent(s: State): State
    requires s.agentBuffer != []
  {
    s.(agentBuffer := s.agentBuffer[1..], log := s.log + [AgentEvicted(s.agentBuffer[0])])
  }

  function EvictUser(s: State): State
    requires s.userBuffer != []
  {
    s.(userBuffer := s.userBuffer[1..], log := s.log + [UserEvicted(s.userBuffer[0])])
  }

  /** Frames beyond the cap leave from the front. */
  function Evict(s: State, isAgent: bool): State
    decreases |s.agentBuffer| + |s.userBuffer|
  {
    if isAgent && |s.agentBuffer| > MAX_BUFFER_SIZE then Evict(EvictAgent(s), isAgent)
    else if !isAgent && |s.userBuffer| > MAX_BUFFER_SIZE then Evict(EvictUser(s), isAgent)
    else s
  }

  function CheckActivity(s: State, now: int): State {
    if s.agentSilence > MAX_SILENCE_FRAMES || Millis(now - s.lastAgent) > 1000
    then s.(agentActive := false) else s
  }

  function AddFrame(s: State, isAgent: bool, bytes: seq<Byte>, clock: Clock): State {
    if bytes == [] then s else
      var samples := Decode(bytes);
      var silent := Silent(samples);
      var noted := NoteArrival(s, isAgent, silent, clock.seen);
      var pushed := Push(noted, isAgent, Frame(samples, clock.stamped, silent));
      Process(CheckActivity(Evict(pushed, isAgent), clock.checked))
  }

  function Clear(s: State): State {
    Fresh(s.lastAgent, s.lastUser)
  }

  function Apply(s: State, input: Input): State {
    match input
    case Add(isAgent, bytes, clock) => AddFrame(s, isAgent, bytes, clock)
    case Discard => Clear(s)
  }

  function Run(s: State, inputs: seq<Input>): State
    decreases |inputs|
  {
    if inputs == [] then s else Run(Apply(s, inputs[0]), inputs[1..])
  }

  // ---- reading a log ----

  function AgentOf(e: Event): seq<Frame> {
    match e
    case Paired(a, _) => [a]
    case AgentFar(a) => [a]
    case AgentDirect(a) => [a]
    case AgentEvicted(a) => [a]
    case _ => []
  }

  function UserOf(e: Event): seq<Frame> {
    match e
    case Paired(_, u) => [u]
    case UserFar(u) => [u]
    case UserDirect(u) => [u]
    case UserEvicted(u) => [u]
    case _ => []
  }

  /** What one event contributes to the mixed track. */
  function SoundOf(e: Event): seq<Sample> {
    match e
    case Paired(a, u) => Mix(a.samples, u.samples)
    case AgentFar(a) => a.samples
    case AgentDirect(a) => a.samples
    case UserFar(u) => u.samples
    case UserDirect(u) => u.samples
    case _ => []
  }

  function Agents(log: seq<Event>): seq<Frame> {
    if log == [] then [] else Agents(log[..|log| - 1]) + AgentOf(log[|log| - 1])
  }

  function Users(log: seq<Event>): seq<Frame> {
    if log == [] then [] else Users(log[..|log| - 1]) + UserOf(log[|log| - 1])
  }

  function Sound(log: seq<Event>): seq<Sample> {
    if log == [] then [] else Sound(log[..|log| - 1]) + SoundOf(log[|log| - 1])
  }

  /** Every operation's clock readings follow the readings before it. */
  predicate Timed(now: int, inputs: seq<Input>)
    decreases |inputs|
  {
    if inputs == [] then
      true
    else if inputs[0].Discard? || inputs[0].bytes == [] then
      Timed(now, inputs[1..])
    else
      var c := inputs[0].clock;
      && |inputs[0].bytes| % 2 == 0
      && now <= c.seen <= c.stamped <= c.checked
      && Timed(c.checked, inputs[1..])
  }
}
