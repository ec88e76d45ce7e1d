/**
 What every run of the recorder keeps: the history accounts for every accepted frame, for
 both tracks, and for the timestamps that justified each decision of the merge loop.
 */
module RecorderHistory {
  import opened Common
  import opened RecorderState

  /** `later` was stamped more than two frame lengths (in whole milliseconds) after `earlier`. */
  predicate FarAfter(earlier: Frame, later: Frame) {
    Millis(later.timestamp - earlier.timestamp) > 2 * FRAME_DURATION_MS
  }

  predicate Near(a: Frame, u: Frame) {
    Abs(Millis(a.timestamp - u.timestamp)) <= 2 * FRAME_DURATION_MS
  }

  predicate Sorted(frames: seq<Frame>) {
    forall i, j :: 0 <= i < j < |frames| ==> frames[i].timestamp <= frames[j].timestamp
  }

  /**
   The decision at position `k` was right about the whole run: frames mixed are near each
   other, and a frame written alone by the merge loop is far before every frame of the other
   stream that was still buffered then or came later.
   */
  predicate Justified(log: seq<Event>, k: nat, agentIn: seq<Frame>, userIn: seq<Frame>)
    requires k < |log|
  {
    match log[k]
    case Paired(a, u) => Near(a, u)
    case AgentFar(a) =>
      var j := |Users(log[..k])|;
      j < |userIn| && forall i :: j <= i < |userIn| ==> FarAfter(a, userIn[i])
    case UserFar(u) =>
      var j := |Agents(log[..k])|;
      j < |agentIn| && forall i :: j <= i < |agentIn| ==> FarAfter(u, agentIn[i])
    case _ => true
  }

  predicate WritesUser(e: Event) {
    e.Paired? || e.UserFar? || e.UserDirect?
  }

  /** How often user frame `j` is in the user track: events that wrote it while it was in front. */
  function Copies(log: seq<Event>, j: nat): nat {
    if log == [] then 0 else
      var before, e := log[..|log| - 1], log[|log| - 1];
      Copies(before, j) + if |Users(before)| == j && (e.AgentFar? || WritesUser(e)) then 1 else 0
  }

  function Repeat(samples: seq<Sample>, n: nat): seq<Sample> {
    if n == 0 then [] else Repeat(samples, n - 1) + samples
  }

  function AllCopies(log: seq<Event>, n: nat): seq<nat> {
    seq(n, j requires 0 <= j < n => Copies(log, j))
  }

  /** The frames in order, each as often in a row as `counts` says. */
  function Spread(frames: seq<Frame>, counts: seq<nat>): seq<Sample>
    requires |frames| == |counts|
  {
    if frames == [] then [] else
      var n := |frames| - 1;
      Spread(frames[..n], counts[..n]) + Repeat(frames[n].samples, counts[n])
  }

  /** Agent frames the merge loop wrote alone, each while some user frame was in front. */
  function AgentSkips(log: seq<Event>): nat {
    if log == [] then 0 else
      AgentSkips(log[..|log| - 1]) + if log[|log| - 1].AgentFar? then 1 else 0
  }

  /** The user frames that reached the tracks, once each. */
  function OnceEach(log: seq<Event>): seq<Sample> {
    if log == [] then [] else
      var e := log[|log| - 1];
      OnceEach(log[..|log| - 1]) + if WritesUser(e) then e.user.samples else []
  }

  ghost predicate Overwritten(s: State) {
    && |s.userOnly| >= |OnceEach(s.log)| + AgentSkips(s.log)
    && (AgentSkips(s.log) == 0 ==> s.userOnly == OnceEach(s.log))
  }

  ghost predicate Accounted(s: State) {
    && s.agentIn == Agents(s.log) + s.agentBuffer
    && s.userIn == Users(s.log) + s.userBuffer
    && s.audio == Sound(s.log)
  }

  ghost predicate Tracked(s: State) {
    s.userOnly == Spread(s.userIn, AllCopies(s.log, |s.userIn|))
  }

  ghost predicate Decided(s: State) {
    forall k :: 0 <= k < |s.log| ==> Justified(s.log, k, s.agentIn, s.userIn)
  }

  ghost predicate Stamped(s: State, now: int) {
    && Sorted(s.agentIn) && Sorted(s.userIn)
    && (forall f :: f in s.agentIn || f in s.userIn ==> f.timestamp <= now && f.samples != [])
  }

  ghost predicate History(s: State, now: int) {
    Accounted(s) && Tracked(s) && Overwritten(s) && Decided(s) && Stamped(s, now)
  }

  /** What holds between operations. */
  ghost predicate Inv(s: State, now: int) {
    && History(s, now)
    && |s.agentBuffer| <= MAX_BUFFER_SIZE && |s.userBuffer| <= MAX_BUFFER_SIZE
    && (!s.userActive ==> s.userIn == [])
    && (s.agentBuffer == [] || s.userBuffer == [])
  }

  // ---- one event ----

  function UserSoundOf(e: Event, userBuffer: seq<Frame>): seq<Sample> {
    match e
    case Paired(_, u) => u.samples
    case UserFar(u) => u.samples
    case UserDirect(u) => u.samples
    case AgentFar(_) => if userBuffer == [] then [] else userBuffer[0].samples
    case _ => []
  }

  /** `e` takes its frames off the fronts of the buffers of `s`, which leaves `t`. */
  ghost predicate Consumes(s: State, e: Event, t: State) {
    && AgentOf(e) <= s.agentBuffer
    && UserOf(e) <= s.userBuffer
    && (match e
        case Paired(a, u) => Near(a, u)
        case AgentFar(a) => s.userBuffer != [] && FarAfter(a, s.userBuffer[0])
        case UserFar(u) => s.agentBuffer != [] && FarAfter(u, s.agentBuffer[0])
        case _ => true)
    && t == s.(agentBuffer := s.agentBuffer[|AgentOf(e)|..],
               userBuffer := s.userBuffer[|UserOf(e)|..],
               audio := s.audio + SoundOf(e),
               userOnly := s.userOnly + UserSoundOf(e, s.userBuffer),
               log := s.log + [e])
  }

  lemma LogSnoc(log: seq<Event>, e: Event)
    ensures Agents(log + [e]) == Agents(log) + AgentOf(e)
    ensures Users(log + [e]) == Users(log) + UserOf(e)
    ensures Sound(log + [e]) == Sound(log) + SoundOf(e)
  {
    assert (log + [e])[..|log|] == log;
  }

  lemma CopiesSnoc(log: seq<Event>, e: Event, j: nat)
    ensures Copies(log + [e], j)
         == Copies(log, j) + if |Users(log)| == j && (e.AgentFar? || WritesUser(e)) then 1 else 0
  {
    assert (log + [e])[..|log|] == log;
  }

  /** Frames that have not reached the front are not in the user track yet. */
  lemma {:induction false} NoCopiesAhead(log: seq<Event>, j: nat)
    requires j > |Users(log)|
    ensures Copies(log, j) == 0
  {
    if log != [] {
      NoCopiesAhead(log[..|log| - 1], j);
    }
  }

  lemma Assoc<T>(a: seq<T>, b: seq<T>, c: seq<T>)
    ensures (a + b) + c == a + (b + c)
  {
  }

  /** One more copy of frame `j`, when nothing after it has been written, goes at the end. */
  lemma {:induction false} SpreadBump(frames: seq<Frame>, counts: seq<nat>, j: nat)
    requires |frames| == |counts| && j < |frames|
    requires forall i :: j < i < |frames| ==> counts[i] == 0
    ensures Spread(frames, counts[j := counts[j] + 1]) == Spread(frames, counts) + frames[j].samples
  {
    var n := |frames| - 1;
    var more := counts[j := counts[j] + 1];
    if j < n {
      assert more[..n] == counts[..n][j := counts[j] + 1];
      SpreadBump(frames[..n], counts[..n], j);
    } else {
      assert more[..n] == counts[..n];
      Assoc(Spread(frames[..n], counts[..n]), Repeat(frames[n].samples, counts[n]), frames[n].samples);
    }
  }

  /** A frame that has just arrived is not in the track yet. */
  lemma SpreadArrival(frames: seq<Frame>, counts: seq<nat>, f: Frame)
    requires |frames| == |counts|
    ensures Spread(frames + [f], counts + [0]) == Spread(frames, counts)
  {
    assert (frames + [f])[..|frames|] == frames && (counts + [0])[..|frames|] == counts;
  }

  predicate Copied(log: seq<Event>, e: Event, j: nat) {
    |Users(log)| == j && (e.AgentFar? || WritesUser(e))
  }

  /** An event adds one copy of the user frame in front, or none. */
  lemma CopiesGrow(log: seq<Event>, e: Event, n: nat)
    ensures forall i: nat :: i < n ==>
      AllCopies(log + [e], n)[i] == AllCopies(log, n)[i] + if Copied(log, e, i) then 1 else 0
    ensures forall i :: |Users(log)| < i < n ==> AllCopies(log, n)[i] == 0
  {
    var after := log + [e];
    forall i: nat | i < n
      ensures Copies(after, i) == Copies(log, i) + if Copied(log, e, i) then 1 else 0
    {
      CopiesSnoc(log, e, i);
    }
    forall i: nat | |Users(log)| < i < n
      ensures Copies(log, i) == 0
    {
      NoCopiesAhead(log, i);
    }
  }

  lemma ConsumeTracked(s: State, e: Event, t: State)
    requires Accounted(s) && Tracked(s) && Consumes(s, e, t)
    ensures Tracked(t)
  {
    FrontsAreNext(s);
    var j, n := |Users(s.log)|, |s.userIn|;
    var counts, more := AllCopies(s.log, n), AllCopies(t.log, n);
    CopiesGrow(s.log, e, n);
    if e.AgentFar? || WritesUser(e) {
      assert more == counts[j := counts[j] + 1];
      SpreadBump(s.userIn, counts, j);
    } else {
      assert more == counts;
      assert s.userOnly + [] == s.userOnly;
    }
  }

  lemma ConsumeDecided(s: State, e: Event, t: State)
    requires Accounted(s) && Decided(s) && Sorted(s.agentIn) && Sorted(s.userIn) && Consumes(s, e, t)
    ensures Decided(t)
  {
    forall k | 0 <= k < |t.log|
      ensures Justified(t.log, k, t.agentIn, t.userIn)
    {
      assert t.log[..k] == s.log[..k];
      if k < |s.log| {
        assert Justified(s.log, k, s.agentIn, s.userIn);
      } else {
        assert s.log[..k] == s.log;
        FrontsAreNext(s);
      }
    }
  }

  lemma FrontsAreNext(s: State)
    requires Accounted(s)
    ensures s.userBuffer != [] ==> |Users(s.log)| < |s.userIn| && s.userIn[|Users(s.log)|] == s.userBuffer[0]
    ensures s.agentBuffer != [] ==> |Agents(s.log)| < |s.agentIn| && s.agentIn[|Agents(s.log)|] == s.agentBuffer[0]
  {
  }

  lemma ConsumeAccounted(s: State, e: Event, t: State)
    requires Accounted(s) && Consumes(s, e, t)
    ensures Accounted(t)
  {
    LogSnoc(s.log, e);
    Assoc(Agents(s.log), AgentOf(e), t.agentBuffer);
    Assoc(Users(s.log), UserOf(e), t.userBuffer);
    assert s.agentBuffer == AgentOf(e) + t.agentBuffer;
    assert s.userBuffer == UserOf(e) + t.userBuffer;
  }

  lemma ConsumeOverwritten(s: State, e: Event, t: State, now: int)
    requires Accounted(s) && Overwritten(s) && Stamped(s, now) && Consumes(s, e, t)
    ensures Overwritten(t)
  {
    assert t.log[..|s.log|] == s.log;
    FrontsAreNext(s);
    if e.AgentFar? {
      assert s.userBuffer[0] in s.userIn;
    }
    assert s.userOnly + [] == s.userOnly;
  }

  lemma ConsumeKeeps(s: State, e: Event, t: State, now: int)
    requires History(s, now) && Consumes(s, e, t)
    ensures History(t, now)
  {
    ConsumeAccounted(s, e, t);
    ConsumeTracked(s, e, t);
    ConsumeOverwritten(s, e, t, now);
    ConsumeDecided(s, e, t);
  }

  // ---- the loops ----

  /** The loops only take frames away; inputs, flags and clocks stay. */
  predicate Shrinks(s: State, t: State) {
    && |t.agentBuffer| <= |s.agentBuffer| && |t.userBuffer| <= |s.userBuffer|
    && t.agentIn == s.agentIn && t.userIn == s.userIn
    && t.agentActive == s.agentActive && t.userActive == s.userActive
    && t.agentSilence == s.agentSilence && t.userSilence == s.userSilence
    && t.lastAgent == s.lastAgent && t.lastUser == s.lastUser
  }

  lemma {:induction false} DrainsShrink(s: State)
    ensures Shrinks(s, DrainAgent(s)) && Shrinks(s, DrainUser(s))
    decreases |s.agentBuffer| + |s.userBuffer|
  {
    if s.agentBuffer != [] {
      DrainsShrink(AgentDirectStep(s));
    }
    if s.userBuffer != [] {
      DrainsShrink(UserDirectStep(s));
    }
  }

  lemma {:induction false} MergeShrinks(s: State)
    ensures Shrinks(s, Merge(s))
    decreases |s.agentBuffer| + |s.userBuffer|
  {
    if s.agentBuffer != [] && s.userBuffer != [] {
      MergeShrinks(MergeStep(s));
    }
  }

  lemma ProcessShrinks(s: State)
    ensures Shrinks(s, Process(s))
  {
    DrainsShrink(s);
    MergeShrinks(s);
  }

  lemma {:induction false} EvictShrinks(s: State, isAgent: bool)
    ensures Shrinks(s, Evict(s, isAgent))
    ensures isAgent ==> |Evict(s, isAgent).agentBuffer| <= MAX_BUFFER_SIZE
    ensures !isAgent ==> |Evict(s, isAgent).userBuffer| <= MAX_BUFFER_SIZE
    decreases |s.agentBuffer| + |s.userBuffer|
  {
    if isAgent && |s.agentBuffer| > MAX_BUFFER_SIZE {
      EvictShrinks(EvictAgent(s), isAgent);
    } else if !isAgent && |s.userBuffer| > MAX_BUFFER_SIZE {
      EvictShrinks(EvictUser(s), isAgent);
    }
  }

  /** What the merge loop does with the two fronts. */
  function Decision(a: Frame, u: Frame): Event {
    var diff := Millis(a.timestamp - u.timestamp);
    if Abs(diff) <= 2 * FRAME_DURATION_MS then Paired(a, u)
    else if diff > 0 then UserFar(u)
    else AgentFar(a)
  }

  lemma DecisionIsRight(a: Frame, u: Frame)
    ensures match Decision(a, u)
      case Paired(_, _) => Near(a, u)
      case AgentFar(_) => FarAfter(a, u)
      case _ => FarAfter(u, a)
  {
    assert Millis(a.timestamp - u.timestamp) == -Millis(u.timestamp - a.timestamp);
  }

  lemma MergeStepConsumes(s: State)
    requires s.agentBuffer != [] && s.userBuffer != []
    ensures Consumes(s, Decision(s.agentBuffer[0], s.userBuffer[0]), MergeStep(s))
  {
    DecisionIsRight(s.agentBuffer[0], s.userBuffer[0]);
  }

  lemma {:induction false} MergeKeeps(s: State, now: int)
    requires History(s, now)
    ensures History(Merge(s), now)
    ensures Merge(s).agentBuffer == [] || Merge(s).userBuffer == []
    decreases |s.agentBuffer| + |s.userBuffer|
  {
    if s.agentBuffer != [] && s.userBuffer != [] {
      MergeStepConsumes(s);
      ConsumeKeeps(s, Decision(s.agentBuffer[0], s.userBuffer[0]), MergeStep(s), now);
      MergeKeeps(MergeStep(s), now);
    }
  }

  lemma {:induction false} DrainAgentKeeps(s: State, now: int)
    requires History(s, now)
    ensures History(DrainAgent(s), now) && DrainAgent(s).agentBuffer == []
    decreases |s.agentBuffer|
  {
    if s.agentBuffer != [] {
      assert Consumes(s, AgentDirect(s.agentBuffer[0]), AgentDirectStep(s));
      ConsumeKeeps(s, AgentDirect(s.agentBuffer[0]), AgentDirectStep(s), now);
      DrainAgentKeeps(AgentDirectStep(s), now);
    }
  }

  lemma {:induction false} DrainUserKeeps(s: State, now: int)
    requires History(s, now)
    ensures History(DrainUser(s), now) && DrainUser(s).userBuffer == []
    decreases |s.userBuffer|
  {
    if s.userBuffer != [] {
      assert Consumes(s, UserDirect(s.userBuffer[0]), UserDirectStep(s));
      ConsumeKeeps(s, UserDirect(s.userBuffer[0]), UserDirectStep(s), now);
      DrainUserKeeps(UserDirectStep(s), now);
    }
  }

  lemma EvictAgentConsumes(s: State)
    requires s.agentBuffer != []
    ensures Consumes(s, AgentEvicted(s.agentBuffer[0]), EvictAgent(s))
  {
    assert s.audio + [] == s.audio && s.userOnly + [] == s.userOnly;
  }

  lemma EvictUserConsumes(s: State)
    requires s.userBuffer != []
    ensures Consumes(s, UserEvicted(s.userBuffer[0]), EvictUser(s))
  {
    assert s.audio + [] == s.audio && s.userOnly + [] == s.userOnly;
  }

  lemma {:induction false} EvictKeeps(s: State, isAgent: bool, now: int)
    requires History(s, now)
    ensures History(Evict(s, isAgent), now)
    decreases |s.agentBuffer| + |s.userBuffer|
  {
    if isAgent && |s.agentBuffer| > MAX_BUFFER_SIZE {
      EvictAgentConsumes(s);
      ConsumeKeeps(s, AgentEvicted(s.agentBuffer[0]), EvictAgent(s), now);
      EvictKeeps(EvictAgent(s), isAgent, now);
    } else if !isAgent && |s.userBuffer| > MAX_BUFFER_SIZE {
      EvictUserConsumes(s);
      ConsumeKeeps(s, UserEvicted(s.userBuffer[0]), EvictUser(s), now);
      EvictKeeps(EvictUser(s), isAgent, now);
    }
  }

  // ---- one operation, and runs ----

  /** A frame that arrives later is also far after every frame already written alone. */
  lemma ArrivalDecided(s: State, isAgent: bool, f: Frame)
    requires Decided(s) && Sorted(s.agentIn) && Sorted(s.userIn)
    requires forall g :: g in s.agentIn || g in s.userIn ==> g.timestamp <= f.timestamp
    ensures Decided(Push(s, isAgent, f))
  {
    var t := Push(s, isAgent, f);
    forall k | 0 <= k < |t.log|
      ensures Justified(t.log, k, t.agentIn, t.userIn)
    {
      assert Justified(s.log, k, s.agentIn, s.userIn);
      match s.log[k]
      case AgentFar(a) =>
        assert s.userIn[|Users(s.log[..k])|] in s.userIn;
      case UserFar(u) =>
        assert s.agentIn[|Agents(s.log[..k])|] in s.agentIn;
      case _ =>
    }
  }

  lemma ArrivalTracked(s: State, isAgent: bool, f: Frame)
    requires Accounted(s) && Tracked(s) && Decided(s)
    ensures Tracked(Push(s, isAgent, f))
  {
    if !isAgent {
      NotYetCopied(s.log, s.agentIn, s.userIn);
      OneMoreUser(s.log, s.userIn, f);
    }
  }

  lemma OneMoreUser(log: seq<Event>, frames: seq<Frame>, f: Frame)
    requires Copies(log, |frames|) == 0
    ensures Spread(frames + [f], AllCopies(log, |frames + [f]|)) == Spread(frames, AllCopies(log, |frames|))
  {
    var n := |frames|;
    assert AllCopies(log, n + 1) == AllCopies(log, n) + [0];
    SpreadArrival(frames, AllCopies(log, n), f);
  }

  /** The next user frame to arrive has no copies: whatever copies frame `j` needs it in front. */
  lemma {:induction false} NotYetCopied(log: seq<Event>, agentIn: seq<Frame>, userIn: seq<Frame>)
    requires Users(log) <= userIn
    requires forall k :: 0 <= k < |log| ==> Justified(log, k, agentIn, userIn)
    ensures Copies(log, |userIn|) == 0
  {
    if log != [] {
      var n := |log| - 1;
      forall k | 0 <= k < n
        ensures Justified(log[..n], k, agentIn, userIn)
      {
        assert log[..n][..k] == log[..k];
        assert Justified(log, k, agentIn, userIn);
      }
      assert Justified(log, n, agentIn, userIn);
      NotYetCopied(log[..n], agentIn, userIn);
    }
  }

  lemma ArrivalAccounted(s: State, isAgent: bool, f: Frame)
    requires Accounted(s)
    ensures Accounted(Push(s, isAgent, f))
  {
    Assoc(Agents(s.log), s.agentBuffer, [f]);
    Assoc(Users(s.log), s.userBuffer, [f]);
  }

  lemma ArrivalStamped(s: State, isAgent: bool, f: Frame, now: int)
    requires Stamped(s, now) && now <= f.timestamp && f.samples != []
    ensures Stamped(Push(s, isAgent, f), f.timestamp)
  {
    var t := Push(s, isAgent, f);
    forall g | g in t.agentIn || g in t.userIn
      ensures g.timestamp <= f.timestamp && g.samples != []
    {
      assert g == f || g in s.agentIn || g in s.userIn;
    }
    SortedSnoc(s.agentIn, f);
    SortedSnoc(s.userIn, f);
  }

  lemma SortedSnoc(frames: seq<Frame>, f: Frame)
    requires Sorted(frames) && forall g :: g in frames ==> g.timestamp <= f.timestamp
    ensures Sorted(frames + [f])
  {
  }

  lemma ArrivalKeeps(s: State, isAgent: bool, f: Frame, now: int)
    requires History(s, now) && now <= f.timestamp && f.samples != []
    ensures History(Push(s, isAgent, f), f.timestamp)
  {
    ArrivalAccounted(s, isAgent, f);
    ArrivalDecided(s, isAgent, f);
    ArrivalTracked(s, isAgent, f);
    ArrivalStamped(s, isAgent, f, now);
  }

  lemma ProcessKeeps(s: State, now: int)
    requires History(s, now) && (!s.userActive ==> s.userIn == [])
    ensures History(Process(s), now)
    ensures Process(s).agentBuffer == [] || Process(s).userBuffer == []
  {
    MergeKeeps(s, now);
    DrainAgentKeeps(s, now);
    DrainUserKeeps(s, now);
    if !s.userActive {
      NothingFrom(s);
    }
  }

  /** An inactive user stream has sent nothing. */
  lemma NothingFrom(s: State)
    requires Accounted(s) && s.userIn == []
    ensures s.userBuffer == [] && DrainAgent(s).userBuffer == []
  {
    assert |s.userIn| == |Users(s.log)| + |s.userBuffer|;
    DrainsShrink(s);
  }

  lemma NotedKeeps(s: State, isAgent: bool, silent: bool, tick: int, now: int)
    requires History(s, now)
    ensures History(NoteArrival(s, isAgent, silent, tick), now)
  {
  }

  lemma CheckedKeeps(s: State, stamped: int, now: int)
    requires History(s, stamped) && stamped <= now
    ensures History(CheckActivity(s, now), now)
  {
  }

  /** `addFrame` up to the push of the new frame. */
  function Accepted(s: State, isAgent: bool, bytes: seq<Byte>, c: Clock): State {
    var samples := Decode(bytes);
    var silent := Silent(samples);
    Push(NoteArrival(s, isAgent, silent, c.seen), isAgent, Frame(samples, c.stamped, silent))
  }

  /** `addFrame` up to the loops. */
  function Stored(s: State, isAgent: bool, bytes: seq<Byte>, c: Clock): State {
    CheckActivity(Evict(Accepted(s, isAgent, bytes, c), isAgent), c.checked)
  }

  lemma AcceptedKeeps(s: State, isAgent: bool, bytes: seq<Byte>, c: Clock, now: int)
    requires History(s, now) && |bytes| % 2 == 0 && bytes != [] && now <= c.stamped
    ensures History(Accepted(s, isAgent, bytes, c), c.stamped)
  {
    var samples := Decode(bytes);
    assert |samples| > 0;
    var silent := Silent(samples);
    NotedKeeps(s, isAgent, silent, c.seen, now);
    ArrivalKeeps(NoteArrival(s, isAgent, silent, c.seen), isAgent, Frame(samples, c.stamped, silent), now);
  }

  lemma StoredKeeps(s: State, isAgent: bool, bytes: seq<Byte>, c: Clock, now: int)
    requires History(s, now) && |bytes| % 2 == 0 && bytes != []
    requires now <= c.stamped <= c.checked
    ensures History(Stored(s, isAgent, bytes, c), c.checked)
  {
    AcceptedKeeps(s, isAgent, bytes, c, now);
    EvictKeeps(Accepted(s, isAgent, bytes, c), isAgent, c.stamped);
    CheckedKeeps(Evict(Accepted(s, isAgent, bytes, c), isAgent), c.stamped, c.checked);
  }

  lemma StoredShape(s: State, isAgent: bool, bytes: seq<Byte>, c: Clock)
    requires !s.userActive ==> s.userIn == []
    requires |s.agentBuffer| <= MAX_BUFFER_SIZE && |s.userBuffer| <= MAX_BUFFER_SIZE
    ensures var t := Stored(s, isAgent, bytes, c);
      && (!t.userActive ==> t.userIn == [])
      && |t.agentBuffer| <= MAX_BUFFER_SIZE && |t.userBuffer| <= MAX_BUFFER_SIZE
  {
    EvictShrinks(Accepted(s, isAgent, bytes, c), isAgent);
  }

  lemma AddFrameKeeps(s: State, isAgent: bool, bytes: seq<Byte>, c: Clock, now: int)
    requires Inv(s, now) && |bytes| % 2 == 0 && bytes != []
    requires now <= c.seen <= c.stamped <= c.checked
    ensures Inv(AddFrame(s, isAgent, bytes, c), c.checked)
  {
    StoredKeeps(s, isAgent, bytes, c, now);
    StoredShape(s, isAgent, bytes, c);
    ProcessKeeps(Stored(s, isAgent, bytes, c), c.checked);
    ProcessShrinks(Stored(s, isAgent, bytes, c));
    assert AddFrame(s, isAgent, bytes, c) == Process(Stored(s, isAgent, bytes, c));
  }

  /** The clock reading the run ends with. */
  function LastTick(now: int, inputs: seq<Input>): int
    decreases |inputs|
  {
    if inputs == [] then now
    else if inputs[0].Discard? || inputs[0].bytes == [] then LastTick(now, inputs[1..])
    else LastTick(inputs[0].clock.checked, inputs[1..])
  }

  lemma FreshInv(agentTick: int, userTick: int, now: int)
    ensures Inv(Fresh(agentTick, userTick), now)
  {
  }

  lemma ApplyKeeps(s: State, x: Input, now: int)
    requires Inv(s, now) && Timed(now, [x])
    ensures Inv(Apply(s, x), LastTick(now, [x]))
  {
    assert [x][1..] == [];
    match x
    case Discard => FreshInv(s.lastAgent, s.lastUser, now);
    case Add(isAgent, bytes, c) =>
      if bytes != [] {
        AddFrameKeeps(s, isAgent, bytes, c, now);
      }
  }

  /** A timed run is a timed input and a timed run after it. */
  lemma TimedHead(now: int, inputs: seq<Input>)
    requires Timed(now, inputs) && inputs != []
    ensures Timed(now, [inputs[0]]) && Timed(LastTick(now, [inputs[0]]), inputs[1..])
    ensures LastTick(now, inputs) == LastTick(LastTick(now, [inputs[0]]), inputs[1..])
  {
    assert [inputs[0]][1..] == [];
    assert forall t :: Timed(t, []) && LastTick(t, []) == t;
  }

  lemma {:induction false} RunKeeps(s: State, inputs: seq<Input>, now: int)
    requires Inv(s, now) && Timed(now, inputs)
    ensures Inv(Run(s, inputs), LastTick(now, inputs))
    decreases |inputs|
  {
    if inputs != [] {
      TimedHead(now, inputs);
      ApplyKeeps(s, inputs[0], now);
      RunKeeps(Apply(s, inputs[0]), inputs[1..], LastTick(now, [inputs[0]]));
    }
  }
}
