/**
 What one `addFrame` does that its caller may not expect, as conditions on the recorder just
 before the call: when it writes a user frame once too often, when it loses a frame, and when it
 writes a frame after a later one.
 */
module RecorderCalls {
  import opened Common
  import opened RecorderState
  import opened RecorderHistory
  import opened RecorderTheorems

  // ---- the state the loops start from ----

  /** The agent stream stays active in a call whose last clock reading is `now`. */
  predicate AgentStays(s: State, now: int) {
    s.agentActive && s.agentSilence <= MAX_SILENCE_FRAMES && Millis(now - s.lastAgent) <= 1000
  }

  function FrameOf(bytes: seq<Byte>, c: Clock): Frame {
    Frame(Decode(bytes), c.stamped, Silent(Decode(bytes)))
  }

  predicate Full(s: State, isAgent: bool) {
    |if isAgent then s.agentBuffer else s.userBuffer| == MAX_BUFFER_SIZE
  }

  function Dropped(s: State, isAgent: bool): Event
    requires Full(s, isAgent)
  {
    if isAgent then AgentEvicted(s.agentBuffer[0]) else UserEvicted(s.userBuffer[0])
  }

  /** A full buffer loses its oldest frame, any other none. */
  lemma StoredIs(s: State, isAgent: bool, bytes: seq<Byte>, c: Clock)
    requires |s.agentBuffer| <= MAX_BUFFER_SIZE && |s.userBuffer| <= MAX_BUFFER_SIZE
    ensures var t, f := Stored(s, isAgent, bytes, c), FrameOf(bytes, c);
      && t.log == (if Full(s, isAgent) then s.log + [Dropped(s, isAgent)] else s.log)
      && (isAgent ==> t.userBuffer == s.userBuffer && t.userActive == s.userActive)
      && (isAgent ==> t.agentBuffer == (if Full(s, true) then s.agentBuffer[1..] else s.agentBuffer) + [f])
      && (!isAgent ==> t.agentBuffer == s.agentBuffer && t.userActive)
      && (!isAgent ==> t.userBuffer == (if Full(s, false) then s.userBuffer[1..] else s.userBuffer) + [f])
      && (!isAgent ==> (t.agentActive <==> AgentStays(s, c.checked)))
  {
    var p := Accepted(s, isAgent, bytes, c);
    if Full(s, isAgent) {
      var q := if isAgent then EvictAgent(p) else EvictUser(p);
      assert Evict(p, isAgent) == Evict(q, isAgent) == q;
    } else {
      assert Evict(p, isAgent) == p;
    }
  }

  predicate SortedUpTo(frames: seq<Frame>, t: int) {
    Sorted(frames) && forall f :: f in frames ==> f.timestamp <= t
  }

  lemma BuffersSorted(s: State, now: int)
    requires Accounted(s) && Stamped(s, now)
    ensures SortedUpTo(s.agentBuffer, now) && SortedUpTo(s.userBuffer, now)
  {
    SuffixSorted(Agents(s.log), s.agentBuffer, now);
    SuffixSorted(Users(s.log), s.userBuffer, now);
  }

  lemma SuffixSorted(before: seq<Frame>, buffer: seq<Frame>, now: int)
    requires SortedUpTo(before + buffer, now)
    ensures SortedUpTo(buffer, now)
  {
    var all := before + buffer;
    forall i | 0 <= i < |buffer|
      ensures buffer[i] == all[|before| + i] && buffer[i] in all
    {
    }
  }

  lemma TailSorted(frames: seq<Frame>, t: int)
    requires SortedUpTo(frames, t) && frames != []
    ensures SortedUpTo(frames[1..], t) && forall f :: f in frames[1..] ==> frames[0].timestamp <= f.timestamp
  {
  }

  /** What the loops find: sorted buffers, and where both hold frames one of them holds just the new one. */
  predicate Ready(s: State, isAgent: bool, t: int) {
    && SortedUpTo(s.agentBuffer, t) && SortedUpTo(s.userBuffer, t)
    && (s.userActive || (isAgent && s.userBuffer == []))
    && (s.agentBuffer != [] && s.userBuffer != [] ==>
          if isAgent then |s.agentBuffer| == 1 && s.agentBuffer[0].timestamp == t
          else |s.userBuffer| == 1 && s.userBuffer[0].timestamp == t)
  }

  lemma AnotherFrame(buffer: seq<Frame>, f: Frame, now: int)
    requires SortedUpTo(buffer, now) && now <= f.timestamp
    ensures SortedUpTo(buffer, f.timestamp) && SortedUpTo(buffer + [f], f.timestamp)
    ensures buffer != [] ==> SortedUpTo(buffer[1..] + [f], f.timestamp)
    ensures forall g :: g in buffer + [f] ==> g in buffer || g == f
  {
    if buffer != [] {
      TailSorted(buffer, now);
    }
  }

  lemma StoredReady(s: State, isAgent: bool, bytes: seq<Byte>, c: Clock, now: int)
    requires Inv(s, now) && bytes != [] && now <= c.stamped
    ensures Ready(Stored(s, isAgent, bytes, c), isAgent, c.stamped)
  {
    StoredIs(s, isAgent, bytes, c);
    BuffersSorted(s, now);
    AnotherFrame(s.agentBuffer, FrameOf(bytes, c), now);
    AnotherFrame(s.userBuffer, FrameOf(bytes, c), now);
    if !s.userActive {
      assert |s.userIn| == |Users(s.log)| + |s.userBuffer|;
    }
  }

  // ---- user frames written more than once ----

  /** How many frames at the front of an agent buffer are far before a user frame stamped `t`. */
  function FarBefore(buffer: seq<Frame>, t: int): nat {
    if buffer == [] || Millis(t - buffer[0].timestamp) <= 2 * FRAME_DURATION_MS then 0
    else 1 + FarBefore(buffer[1..], t)
  }

  /** Agent frames a call writes alone while its user frame waits in front. */
  function SkippedBy(s: State, x: Input): nat {
    if x.Add? && !x.isAgent && x.bytes != [] && AgentStays(s, x.clock.checked)
    then FarBefore(s.agentBuffer, x.clock.stamped) else 0
  }

  lemma SkipsSnoc(log: seq<Event>, e: Event)
    ensures AgentSkips(log + [e]) == AgentSkips(log) + if e.AgentFar? then 1 else 0
  {
    assert (log + [e])[..|log|] == log;
  }

  lemma {:induction false} DrainsSkipNone(s: State)
    ensures AgentSkips(DrainAgent(s).log) == AgentSkips(s.log)
    ensures AgentSkips(DrainUser(s).log) == AgentSkips(s.log)
    decreases |s.agentBuffer| + |s.userBuffer|
  {
    if s.agentBuffer != [] {
      SkipsSnoc(s.log, AgentDirect(s.agentBuffer[0]));
      DrainsSkipNone(AgentDirectStep(s));
    }
    if s.userBuffer != [] {
      SkipsSnoc(s.log, UserDirect(s.userBuffer[0]));
      DrainsSkipNone(UserDirectStep(s));
    }
  }

  /** One turn of the merge loop when the agent front is not the later one. */
  lemma MergeBehind(s: State)
    requires s.agentBuffer != [] && s.userBuffer != []
    requires s.agentBuffer[0].timestamp <= s.userBuffer[0].timestamp
    ensures var a, u, t := s.agentBuffer[0], s.userBuffer[0], MergeStep(s);
      && t.agentBuffer == s.agentBuffer[1..]
      && if Millis(u.timestamp - a.timestamp) > 2 * FRAME_DURATION_MS
         then t.log == s.log + [AgentFar(a)] && t.userBuffer == s.userBuffer
         else t.log == s.log + [Paired(a, u)] && t.userBuffer == s.userBuffer[1..]
  {
    var a, u := s.agentBuffer[0], s.userBuffer[0];
    assert Millis(a.timestamp - u.timestamp) == -Millis(u.timestamp - a.timestamp);
  }

  /** One turn of the merge loop when the agent front is not the earlier one. */
  lemma MergeAhead(s: State)
    requires s.agentBuffer != [] && s.userBuffer != []
    requires s.userBuffer[0].timestamp <= s.agentBuffer[0].timestamp
    ensures var a, u, t := s.agentBuffer[0], s.userBuffer[0], MergeStep(s);
      && t.userBuffer == s.userBuffer[1..]
      && ((t.log == s.log + [UserFar(u)] && t.agentBuffer == s.agentBuffer)
          || (t.log == s.log + [Paired(a, u)] && t.agentBuffer == s.agentBuffer[1..]))
  {
  }

  /** A new user frame meets the waiting agent frames. */
  lemma {:induction false} UserMergeSkips(s: State)
    requires |s.userBuffer| == 1 && SortedUpTo(s.agentBuffer, s.userBuffer[0].timestamp)
    ensures AgentSkips(Merge(s).log) == AgentSkips(s.log) + FarBefore(s.agentBuffer, s.userBuffer[0].timestamp)
    decreases |s.agentBuffer|
  {
    if s.agentBuffer != [] {
      MergeBehind(s);
      TailSorted(s.agentBuffer, s.userBuffer[0].timestamp);
      var t := MergeStep(s);
      SkipsSnoc(s.log, t.log[|s.log|]);
      if t.userBuffer != [] {
        UserMergeSkips(t);
      }
    }
  }

  /** A new agent frame meets the waiting user frames. */
  lemma {:induction false} AgentMergeSkips(s: State)
    requires |s.agentBuffer| == 1 && SortedUpTo(s.userBuffer, s.agentBuffer[0].timestamp)
    ensures AgentSkips(Merge(s).log) == AgentSkips(s.log)
    decreases |s.userBuffer|
  {
    if s.userBuffer != [] {
      MergeAhead(s);
      TailSorted(s.userBuffer, s.agentBuffer[0].timestamp);
      var t := MergeStep(s);
      SkipsSnoc(s.log, t.log[|s.log|]);
      if t.agentBuffer != [] {
        AgentMergeSkips(t);
      }
    }
  }

  lemma ProcessSkips(p: State, isAgent: bool, t: int)
    requires Ready(p, isAgent, t)
    ensures AgentSkips(Process(p).log) == AgentSkips(p.log) +
      if !isAgent && p.agentActive && p.userBuffer != [] then FarBefore(p.agentBuffer, t) else 0
  {
    DrainsSkipNone(p);
    if p.agentActive == p.userActive && p.agentBuffer != [] && p.userBuffer != [] {
      if isAgent {
        AgentMergeSkips(p);
      } else {
        UserMergeSkips(p);
      }
    }
  }

  /**
   A call skips agent frames exactly when it brings a user frame, the agent stays active, and
   agent frames wait that are more than 40 ms older; it skips those.
   */
  lemma AddFrameSkips(s: State, isAgent: bool, bytes: seq<Byte>, c: Clock, now: int)
    requires Inv(s, now) && bytes != [] && now <= c.stamped
    ensures AgentSkips(AddFrame(s, isAgent, bytes, c).log)
         == AgentSkips(s.log) + SkippedBy(s, Add(isAgent, bytes, c))
  {
    var p := Stored(s, isAgent, bytes, c);
    assert AddFrame(s, isAgent, bytes, c) == Process(p);
    StoredReady(s, isAgent, bytes, c, now);
    ProcessSkips(p, isAgent, c.stamped);
    StoredIs(s, isAgent, bytes, c);
    if Full(s, isAgent) {
      SkipsSnoc(s.log, Dropped(s, isAgent));
    }
  }

  /** Agent frames skipped since the last discard, call by call. */
  function Skipped(agentTick: int, userTick: int, inputs: seq<Input>): nat {
    if inputs == [] then 0 else
      var before, last := inputs[..|inputs| - 1], inputs[|inputs| - 1];
      if last.Discard? then 0
      else Skipped(agentTick, userTick, before) + SkippedBy(Run(Fresh(agentTick, userTick), before), last)
  }

  /** The last input of a timed run follows the readings before it. */
  lemma {:induction false} TimedSnoc(now: int, inputs: seq<Input>, x: Input)
    requires Timed(now, inputs + [x])
    ensures Timed(now, inputs)
    ensures x.Add? && x.bytes != [] ==>
      |x.bytes| % 2 == 0 && LastTick(now, inputs) <= x.clock.seen <= x.clock.stamped <= x.clock.checked
    decreases |inputs|
  {
    if inputs == [] {
      assert inputs + [x] == [x];
    } else {
      assert (inputs + [x])[1..] == inputs[1..] + [x];
      var quiet := inputs[0].Discard? || inputs[0].bytes == [];
      TimedSnoc(if quiet then now else inputs[0].clock.checked, inputs[1..], x);
    }
  }

  lemma {:induction false} SkipsCounted(agentTick: int, userTick: int, inputs: seq<Input>, now: int)
    requires Timed(now, inputs)
    ensures AgentSkips(Run(Fresh(agentTick, userTick), inputs).log) == Skipped(agentTick, userTick, inputs)
    decreases |inputs|
  {
    if inputs != [] {
      var before, x := inputs[..|inputs| - 1], inputs[|inputs| - 1];
      var s := Run(Fresh(agentTick, userTick), before);
      assert inputs == before + [x];
      TimedSnoc(now, before, x);
      SkipsCounted(agentTick, userTick, before, now);
      RunSnoc(Fresh(agentTick, userTick), before, x);
      RunFromFresh(agentTick, userTick, before, now);
      if x.Add? && x.bytes != [] {
        AddFrameSkips(s, x.isAgent, x.bytes, x.clock, LastTick(now, before));
      }
    }
  }

  /** The call finds an agent frame waiting that is far older than its user frame, and the agent active. */
  predicate Skips(s: State, x: Input) {
    && x.Add? && !x.isAgent && x.bytes != [] && AgentStays(s, x.clock.checked)
    && s.agentBuffer != [] && Millis(x.clock.stamped - s.agentBuffer[0].timestamp) > 2 * FRAME_DURATION_MS
  }

  /** No call since the last discard did. */
  predicate NoneSkips(agentTick: int, userTick: int, inputs: seq<Input>) {
    if inputs == [] then true else
      var before, last := inputs[..|inputs| - 1], inputs[|inputs| - 1];
      last.Discard?
      || (NoneSkips(agentTick, userTick, before) && !Skips(Run(Fresh(agentTick, userTick), before), last))
  }

  lemma {:induction false} NoneSkipsIsZero(agentTick: int, userTick: int, inputs: seq<Input>)
    ensures Skipped(agentTick, userTick, inputs) == 0 <==> NoneSkips(agentTick, userTick, inputs)
  {
    if inputs != [] {
      NoneSkipsIsZero(agentTick, userTick, inputs[..|inputs| - 1]);
    }
  }

  /**
   Each consumed user frame is written once, as intended, exactly when no user frame ever came,
   with the agent active, while an agent frame more than 40 ms older was waiting.
   */
  lemma OnceIffNoneSkips(agentTick: int, userTick: int, inputs: seq<Input>, now: int)
    requires Timed(now, inputs)
    ensures var s := Run(Fresh(agentTick, userTick), inputs);
      s.userOnly == OnceEach(s.log) <==> NoneSkips(agentTick, userTick, inputs)
  {
    RunFromFresh(agentTick, userTick, inputs, now);
    SkipsCounted(agentTick, userTick, inputs, now);
    NoneSkipsIsZero(agentTick, userTick, inputs);
  }

  // ---- frames lost ----

  function Evictions(log: seq<Event>): seq<Event> {
    if log == [] then [] else
      var before, e := log[..|log| - 1], log[|log| - 1];
      Evictions(before) + if e.AgentEvicted? || e.UserEvicted? then [e] else []
  }

  lemma EvictionsSnoc(log: seq<Event>, e: Event)
    ensures Evictions(log + [e]) == Evictions(log) + if e.AgentEvicted? || e.UserEvicted? then [e] else []
  {
    assert (log + [e])[..|log|] == log;
  }

  lemma {:induction false} MergeEvictsNone(s: State)
    ensures Evictions(Merge(s).log) == Evictions(s.log)
    decreases |s.agentBuffer| + |s.userBuffer|
  {
    if s.agentBuffer != [] && s.userBuffer != [] {
      EvictionsSnoc(s.log, Decision(s.agentBuffer[0], s.userBuffer[0]));
      MergeStepConsumes(s);
      MergeEvictsNone(MergeStep(s));
    }
  }

  lemma {:induction false} DrainsEvictNone(s: State)
    ensures Evictions(DrainAgent(s).log) == Evictions(s.log)
    ensures Evictions(DrainUser(s).log) == Evictions(s.log)
    decreases |s.agentBuffer| + |s.userBuffer|
  {
    if s.agentBuffer != [] {
      EvictionsSnoc(s.log, AgentDirect(s.agentBuffer[0]));
      DrainsEvictNone(AgentDirectStep(s));
    }
    if s.userBuffer != [] {
      EvictionsSnoc(s.log, UserDirect(s.userBuffer[0]));
      DrainsEvictNone(UserDirectStep(s));
    }
  }

  /** A call loses a frame exactly when its stream has 50 waiting, and then the oldest of them. */
  lemma EvictsIffFull(s: State, isAgent: bool, bytes: seq<Byte>, c: Clock, now: int)
    requires Inv(s, now) && bytes != []
    ensures Evictions(AddFrame(s, isAgent, bytes, c).log)
         == Evictions(s.log) + if Full(s, isAgent) then [Dropped(s, isAgent)] else []
  {
    var p := Stored(s, isAgent, bytes, c);
    assert AddFrame(s, isAgent, bytes, c) == Process(p);
    StoredIs(s, isAgent, bytes, c);
    if Full(s, isAgent) {
      EvictionsSnoc(s.log, Dropped(s, isAgent));
    }
    MergeEvictsNone(p);
    DrainsEvictNone(p);
  }

  // ---- the order of the mixed track ----

  predicate Written(e: Event) {
    !e.AgentEvicted? && !e.UserEvicted?
  }

  /** When the sound of an event began: the stamp of its earlier frame. */
  function Began(e: Event): int {
    match e
    case Paired(a, u) => Min(a.timestamp, u.timestamp)
    case AgentFar(a) => a.timestamp
    case AgentDirect(a) => a.timestamp
    case AgentEvicted(a) => a.timestamp
    case UserFar(u) => u.timestamp
    case UserDirect(u) => u.timestamp
    case UserEvicted(u) => u.timestamp
  }

  /** The mixed track is in the order of the clock. */
  predicate InOrder(log: seq<Event>) {
    forall i, j :: 0 <= i < j < |log| && Written(log[i]) && Written(log[j]) ==> Began(log[i]) <= Began(log[j])
  }

  /** Nothing written began after `t`. */
  predicate NoneAfter(log: seq<Event>, t: int) {
    forall e :: e in log && Written(e) ==> Began(e) <= t
  }

  lemma OrderSnoc(log: seq<Event>, e: Event)
    ensures InOrder(log + [e]) <==> InOrder(log) && (Written(e) ==> NoneAfter(log, Began(e)))
    ensures forall t :: NoneAfter(log + [e], t) <==> NoneAfter(log, t) && (Written(e) ==> Began(e) <= t)
  {
    var all := log + [e];
    assert forall f :: f in all <==> f in log || f == e;
    assert forall i :: 0 <= i < |log| ==> all[i] == log[i];
    if InOrder(all) {
      forall i, j | 0 <= i < j < |log| && Written(log[i]) && Written(log[j])
        ensures Began(log[i]) <= Began(log[j])
      {
        assert Began(all[i]) <= Began(all[j]);
      }
      if Written(e) {
        forall f | f in log && Written(f)
          ensures Began(f) <= Began(e)
        {
          var i :| 0 <= i < |log| && log[i] == f;
          assert Began(all[i]) <= Began(all[|log|]);
        }
      }
    }
  }

  /** No frame of a buffer has been overtaken: nothing written began after it. */
  predicate Current(buffer: seq<Frame>, log: seq<Event>) {
    forall f :: f in buffer ==> NoneAfter(log, f.timestamp)
  }

  lemma FrontCurrent(buffer: seq<Frame>, log: seq<Event>, t: int)
    requires SortedUpTo(buffer, t) && buffer != []
    ensures Current(buffer, log) <==> NoneAfter(log, buffer[0].timestamp)
  {
    assert buffer[0] in buffer;
  }

  /** Writing the front of a sorted buffer leaves the rest current. */
  lemma FrontWritten(buffer: seq<Frame>, log: seq<Event>, e: Event, t: int)
    requires SortedUpTo(buffer, t) && buffer != [] && Written(e) && Began(e) == buffer[0].timestamp
    requires NoneAfter(log, Began(e))
    ensures Current(buffer, log + [e]) && NoneAfter(log + [e], t)
  {
    OrderSnoc(log, e);
    TailSorted(buffer, t);
    assert buffer[0] in buffer;
    forall f | f in buffer
      ensures buffer[0].timestamp <= f.timestamp
    {
      assert f == buffer[0] || f in buffer[1..];
    }
  }

  lemma {:induction false} DrainUserOrder(s: State, now: int)
    requires SortedUpTo(s.userBuffer, now) && Current(s.userBuffer, s.log) && NoneAfter(s.log, now)
    ensures InOrder(DrainUser(s).log) <==> InOrder(s.log)
    ensures NoneAfter(DrainUser(s).log, now) && DrainUser(s).userBuffer == []
    decreases |s.userBuffer|
  {
    if s.userBuffer != [] {
      var e := UserDirect(s.userBuffer[0]);
      OrderSnoc(s.log, e);
      assert s.userBuffer[0] in s.userBuffer;
      FrontWritten(s.userBuffer, s.log, e, now);
      TailSorted(s.userBuffer, now);
      DrainUserOrder(UserDirectStep(s), now);
    }
  }

  lemma {:induction false} DrainAgentOrder(s: State, now: int)
    requires SortedUpTo(s.agentBuffer, now) && Current(s.agentBuffer, s.log) && NoneAfter(s.log, now)
    ensures InOrder(DrainAgent(s).log) <==> InOrder(s.log)
    ensures NoneAfter(DrainAgent(s).log, now) && DrainAgent(s).agentBuffer == []
    decreases |s.agentBuffer|
  {
    if s.agentBuffer != [] {
      var e := AgentDirect(s.agentBuffer[0]);
      OrderSnoc(s.log, e);
      assert s.agentBuffer[0] in s.agentBuffer;
      FrontWritten(s.agentBuffer, s.log, e, now);
      TailSorted(s.agentBuffer, now);
      DrainAgentOrder(AgentDirectStep(s), now);
    }
  }

  /** A new agent frame meets waiting user frames that nothing has overtaken. */
  lemma {:induction false} AgentMergeOrder(s: State, now: int)
    requires |s.agentBuffer| == 1 && SortedUpTo(s.userBuffer, s.agentBuffer[0].timestamp)
    requires s.agentBuffer[0].timestamp <= now && Current(s.userBuffer, s.log) && NoneAfter(s.log, now)
    ensures var t := Merge(s);
      (InOrder(t.log) <==> InOrder(s.log)) && Current(t.userBuffer, t.log) && NoneAfter(t.log, now)
    decreases |s.userBuffer|
  {
    if s.userBuffer != [] {
      MergeAhead(s);
      var t, top := MergeStep(s), s.agentBuffer[0].timestamp;
      var e := t.log[|s.log|];
      TailSorted(s.userBuffer, top);
      assert s.userBuffer[0] in s.userBuffer;
      OrderSnoc(s.log, e);
      FrontWritten(s.userBuffer, s.log, e, top);
      if t.agentBuffer != [] {
        AgentMergeOrder(t, now);
      }
    }
  }

  /** A new user frame meets waiting agent frames: order is kept exactly if they have not been overtaken. */
  lemma {:induction false} UserMergeOrder(s: State, now: int)
    requires |s.userBuffer| == 1 && SortedUpTo(s.agentBuffer, s.userBuffer[0].timestamp)
    requires s.userBuffer[0].timestamp <= now && NoneAfter(s.log, s.userBuffer[0].timestamp)
    ensures var t := Merge(s);
      && (InOrder(t.log) <==> InOrder(s.log) && Current(s.agentBuffer, s.log))
      && Current(t.userBuffer, t.log) && NoneAfter(t.log, now)
    decreases |s.agentBuffer|
  {
    if s.agentBuffer != [] {
      MergeBehind(s);
      var t, top := MergeStep(s), s.userBuffer[0].timestamp;
      var e := t.log[|s.log|];
      TailSorted(s.agentBuffer, top);
      assert s.agentBuffer[0] in s.agentBuffer;
      FrontCurrent(s.agentBuffer, s.log, top);
      OrderSnoc(s.log, e);
      if NoneAfter(s.log, Began(e)) {
        FrontWritten(s.agentBuffer, s.log, e, top);
      }
      if t.userBuffer != [] {
        UserMergeOrder(t, now);
      }
    }
  }

  /** Between calls only agent frames can have been overtaken, and only once a user frame has come. */
  ghost predicate OrderInv(s: State, now: int) {
    && NoneAfter(s.log, now) && Current(s.userBuffer, s.log)
    && (!s.userActive ==> Current(s.agentBuffer, s.log))
  }

  /** A user frame finds, with the agent active, a waiting agent frame older than something already written. */
  predicate WritesLate(s: State, x: Input) {
    && x.Add? && !x.isAgent && x.bytes != [] && AgentStays(s, x.clock.checked)
    && !Current(s.agentBuffer, s.log)
  }

  lemma StoredOrder(s: State, isAgent: bool, bytes: seq<Byte>, c: Clock, now: int)
    requires Inv(s, now) && OrderInv(s, now) && bytes != [] && now <= c.stamped
    ensures var p := Stored(s, isAgent, bytes, c);
      && (InOrder(p.log) <==> InOrder(s.log)) && NoneAfter(p.log, c.stamped) && Current(p.userBuffer, p.log)
      && (!p.userActive ==> Current(p.agentBuffer, p.log))
      && (!isAgent ==> (Current(p.agentBuffer, p.log) <==> Current(s.agentBuffer, s.log)))
  {
    StoredIs(s, isAgent, bytes, c);
    BuffersSorted(s, now);
    if Full(s, isAgent) {
      OrderSnoc(s.log, Dropped(s, isAgent));
    }
    AnotherFrame(s.agentBuffer, FrameOf(bytes, c), now);
    AnotherFrame(s.userBuffer, FrameOf(bytes, c), now);
  }

  lemma ProcessOrder(p: State, isAgent: bool, t: int, now: int)
    requires Ready(p, isAgent, t) && t <= now
    requires NoneAfter(p.log, t) && Current(p.userBuffer, p.log)
    requires !p.userActive ==> Current(p.agentBuffer, p.log)
    ensures InOrder(Process(p).log) <==>
      InOrder(p.log)
      && (!isAgent && p.agentActive && p.userBuffer != [] ==> Current(p.agentBuffer, p.log))
    ensures OrderInv(Process(p), now)
  {
    ProcessShrinks(p);
    if p.agentActive && !p.userActive {
      DrainAgentOrder(p, now);
    } else if !p.agentActive && p.userActive {
      DrainUserOrder(p, now);
    } else if p.agentBuffer != [] && p.userBuffer != [] {
      if isAgent {
        AgentMergeOrder(p, now);
      } else {
        UserMergeOrder(p, now);
      }
    }
  }

  /** A call puts something out of order in the mixed track exactly in that case. */
  lemma AddFrameOrder(s: State, isAgent: bool, bytes: seq<Byte>, c: Clock, now: int)
    requires Inv(s, now) && OrderInv(s, now) && bytes != [] && now <= c.stamped <= c.checked
    ensures var t := AddFrame(s, isAgent, bytes, c);
      && (InOrder(t.log) <==> InOrder(s.log) && !WritesLate(s, Add(isAgent, bytes, c)))
      && OrderInv(t, c.checked)
  {
    var p := Stored(s, isAgent, bytes, c);
    assert AddFrame(s, isAgent, bytes, c) == Process(p);
    StoredReady(s, isAgent, bytes, c, now);
    StoredOrder(s, isAgent, bytes, c, now);
    StoredIs(s, isAgent, bytes, c);
    ProcessOrder(p, isAgent, c.stamped, c.checked);
  }

  /** No call since the last discard did. */
  predicate NoneLate(agentTick: int, userTick: int, inputs: seq<Input>) {
    if inputs == [] then true else
      var before, last := inputs[..|inputs| - 1], inputs[|inputs| - 1];
      last.Discard?
      || (NoneLate(agentTick, userTick, before) && !WritesLate(Run(Fresh(agentTick, userTick), before), last))
  }

  /**
   The mixed track is in the order of the clock exactly when no user frame ever came, with the
   agent active, while a waiting agent frame was older than something already written.
   */
  lemma {:induction false} OrderedIffNoneLate(agentTick: int, userTick: int, inputs: seq<Input>, now: int)
    requires Timed(now, inputs)
    ensures var s := Run(Fresh(agentTick, userTick), inputs);
      && (InOrder(s.log) <==> NoneLate(agentTick, userTick, inputs))
      && OrderInv(s, LastTick(now, inputs))
    decreases |inputs|
  {
    if inputs != [] {
      var before, x := inputs[..|inputs| - 1], inputs[|inputs| - 1];
      var s := Run(Fresh(agentTick, userTick), before);
      assert inputs == before + [x];
      TimedSnoc(now, before, x);
      OrderedIffNoneLate(agentTick, userTick, before, now);
      RunSnoc(Fresh(agentTick, userTick), before, x);
      RunFromFresh(agentTick, userTick, before, now);
      LastTickSnoc(now, before, x);
      if x.Add? && x.bytes != [] {
        AddFrameOrder(s, x.isAgent, x.bytes, x.clock, LastTick(now, before));
      }
    }
  }

  lemma {:induction false} LastTickSnoc(now: int, inputs: seq<Input>, x: Input)
    ensures LastTick(now, inputs + [x])
         == if x.Discard? || x.bytes == [] then LastTick(now, inputs) else x.clock.checked
    decreases |inputs|
  {
    if inputs == [] {
      assert inputs + [x] == [x] && [x][1..] == [];
      assert LastTick(now, [x]) == LastTick(if x.Discard? || x.bytes == [] then now else x.clock.checked, []);
    } else {
      assert (inputs + [x])[1..] == inputs[1..] + [x];
      var quiet := inputs[0].Discard? || inputs[0].bytes == [];
      LastTickSnoc(if quiet then now else inputs[0].clock.checked, inputs[1..], x);
    }
  }

  /** User and agent, a user frame two seconds later, then agent and user again. */
  function LateExample(): seq<Input> {
    [Loud(false, 0), Loud(true, 1), Loud(false, 2000), Loud(true, 2001), Loud(false, 2002)]
  }

  /** After two seconds without an agent frame the user goes on alone; the old agent frame stays. */
  function UserAlone(): State {
    AfterTwo().(audio := [100, 100], userOnly := [100, 100], agentActive := false, lastUser := 2000 * TICKS_PER_MS,
                log := [UserDirect(LoudFrame(0)), UserDirect(LoudFrame(2000))],
                userIn := [LoudFrame(0), LoudFrame(2000)])
  }

  lemma UserGoesOn()
    ensures Apply(AfterTwo(), Loud(false, 2000)) == UserAlone()
  {
    LoudBytes();
    var t, f := 2000 * TICKS_PER_MS, LoudFrame(2000);
    var p := Stored(AfterTwo(), false, [100, 0], Clock(t, t, t));
    assert p == AfterTwo().(userBuffer := [f], userIn := [LoudFrame(0), f], lastUser := t, agentActive := false);
    assert UserDirectStep(p) == UserAlone();
  }

  lemma AgentComesBack()
    ensures var s := Apply(UserAlone(), Loud(true, 2001));
      && s.agentBuffer == [LoudFrame(1), LoudFrame(2001)] && s.log == UserAlone().log
      && s.agentActive && s.agentSilence == 0 && s.lastAgent == 2001 * TICKS_PER_MS
  {
    LoudBytes();
    var t, f := 2001 * TICKS_PER_MS, LoudFrame(2001);
    var p := Stored(UserAlone(), true, [100, 0], Clock(t, t, t));
    assert p == UserAlone().(agentBuffer := [LoudFrame(1), f], agentIn := [LoudFrame(1), f], lastAgent := t,
                             agentActive := true);
  }

  lemma LateTimed()
    ensures Timed(0, LateExample())
  {
    var x := LateExample();
    assert x[1..] == [x[1], x[2], x[3], x[4]] && x[1..][1..] == [x[2], x[3], x[4]];
    assert [x[2], x[3], x[4]][1..] == [x[3], x[4]] && [x[3], x[4]][1..] == [x[4]];
    assert Timed(2001 * TICKS_PER_MS, [x[4]]) && Timed(2000 * TICKS_PER_MS, [x[3], x[4]]);
    assert Timed(TICKS_PER_MS, [x[2], x[3], x[4]]);
  }

  lemma LateBefore()
    ensures Run(Fresh(0, 0), LateExample()[..4]) == Apply(UserAlone(), Loud(true, 2001))
  {
    var x := LateExample();
    assert x[..4] == [x[0], x[1], x[2], x[3]];
    RunFour(Fresh(0, 0), x[0], x[1], x[2], x[3]);
    ExampleStepsOneTwo();
    UserGoesOn();
  }

  lemma LastIsLate()
    ensures WritesLate(Apply(UserAlone(), Loud(true, 2001)), Loud(false, 2002))
  {
    AgentComesBack();
    var s := Apply(UserAlone(), Loud(true, 2001));
    assert s.log[1] == UserDirect(LoudFrame(2000)) && s.log[1] in s.log;
    assert s.agentBuffer[0] == LoudFrame(1) && s.agentBuffer[0] in s.agentBuffer;
    assert !NoneAfter(s.log, LoudFrame(1).timestamp);
  }

  /** On this run the agent's frame of the first second is written after the user's of the third. */
  lemma WrittenLate()
    ensures Timed(0, LateExample())
    ensures !InOrder(Run(Fresh(0, 0), LateExample()).log)
  {
    LateTimed();
    LateBefore();
    LastIsLate();
    LateCall(LateExample());
    OrderedIffNoneLate(0, 0, LateExample(), 0);
  }

  lemma LateCall(inputs: seq<Input>)
    requires inputs != [] && WritesLate(Run(Fresh(0, 0), inputs[..|inputs| - 1]), inputs[|inputs| - 1])
    ensures !NoneLate(0, 0, inputs)
  {
  }
}
