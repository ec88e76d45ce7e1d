/**
 Every run of the playback queue: delivered frames are aligned blocks of the received
 stream, every block has one fate, and an acknowledgement tells the truth.
 */
module PlaybackTheorems {
  import opened Common
  import opened PlaybackState

  /** The `k`-th frame-sized block of a stream. */
  function Block(B: nat, input: Bytes, k: nat): Bytes
    requires (k + 1) * B <= |input|
  {
    assert k * B <= (k + 1) * B;
    input[k * B..(k + 1) * B]
  }

  predicate IsBlock(B: nat, input: Bytes, k: nat, frame: Bytes) {
    (k + 1) * B <= |input| && frame == Block(B, input, k)
  }

  predicate AreBlocks(B: nat, input: Bytes, ks: seq<nat>, frames: seq<Bytes>) {
    |ks| == |frames| && forall i :: 0 <= i < |ks| ==> IsBlock(B, input, ks[i], frames[i])
  }

  function FatesOf(delivered: seq<nat>, queued: seq<nat>, evicted: seq<nat>, refused: seq<nat>): multiset<nat> {
    multiset(delivered) + multiset(queued) + multiset(evicted) + multiset(refused)
  }

  /** Where the blocks cut off have gone. */
  function Fates(s: State): multiset<nat> {
    FatesOf(s.delivered, s.queued, s.evicted, s.refused)
  }

  /** The carry-over is what follows the frames cut so far. */
  ghost predicate Aligned(B: nat, s: State) {
    && s.cut * B <= |s.input|
    && s.partial == s.input[s.cut * B..]
    && AreBlocks(B, s.input, s.queued, s.queue)
    && AreBlocks(B, s.input, s.delivered, s.played)
  }

  /** The numbers below `n`, once each. */
  ghost predicate EachOnce(m: multiset<nat>, n: nat) {
    forall k: nat :: m[k] == if k < n then 1 else 0
  }

  /** Frames leave in stream order, and every frame cut has exactly one fate. */
  ghost predicate OneFate(s: State) {
    && Increasing(s.delivered + s.queued)
    && (forall k :: k in s.delivered + s.queued ==> k < s.cut)
    && EachOnce(Fates(s), s.cut)
    && (forall e, q :: e in s.evicted && q in s.queued ==> e < q)
  }

  ghost predicate Refusals(B: nat, s: State) {
    && |s.refused| <= s.calls
    && (s.refused == [] && B > 0 ==> |s.partial| < B)
  }

  ghost predicate Acknowledged(s: State) {
    && !s.clearCalled
    && s.wiped <= s.issued
    && (s.checkpoint ==> s.wiped < s.issued && forall a :: a in s.acks ==> a.serial < s.issued)
    && (!s.checkpoint ==> s.pendingId == "" && s.pendingName == "")
    && (forall a :: a in s.acks ==> a.wiped < a.serial <= s.issued)
    && (forall i, j :: 0 <= i < j < |s.acks| ==> s.acks[i].serial < s.acks[j].serial)
  }

  ghost predicate Inv(B: nat, s: State) {
    Aligned(B, s) && OneFate(s) && Refusals(B, s) && Acknowledged(s)
  }

  // ---- cutting ----

  lemma NextCut(B: nat, n: nat)
    ensures (n + 1) * B == n * B + B
  {
  }

  lemma CutAligned(B: nat, s: State)
    requires Aligned(B, s) && |s.partial| >= B
    ensures Aligned(B, CutFrame(B, s))
  {
    NextCut(B, s.cut);
    var frame := s.partial[..B];
    SliceOf(s.input, s.cut * B, B);
    assert IsBlock(B, s.input, s.cut, frame);
    CutBlocks(B, s);
  }

  lemma SliceOf(input: Bytes, at: nat, B: nat)
    requires at + B <= |input|
    ensures input[at..][..B] == input[at..at + B] && input[at..][B..] == input[at + B..]
  {
  }

  lemma CutBlocks(B: nat, s: State)
    requires |s.queued| == |s.queue| && |s.partial| >= B
    requires AreBlocks(B, s.input, s.queued, s.queue) && IsBlock(B, s.input, s.cut, s.partial[..B])
    ensures AreBlocks(B, s.input, CutFrame(B, s).queued, CutFrame(B, s).queue)
  {
  }

  lemma PushIncreasing(ks: seq<nat>, n: nat)
    requires Increasing(ks) && forall k :: k in ks ==> k < n
    ensures Increasing(ks + [n])
  {
    forall i, j | 0 <= i < j < |ks + [n]|
      ensures (ks + [n])[i] < (ks + [n])[j]
    {
      assert ks[i] in ks;
    }
  }

  lemma DropIncreasing(a: seq<nat>, b: seq<nat>)
    requires Increasing(a + b) && b != []
    ensures Increasing(a + b[1..])
    ensures forall k :: k in b[1..] ==> b[0] < k && k in b
  {
    var all, rest := a + b, a + b[1..];
    forall i, j | 0 <= i < j < |rest|
      ensures rest[i] < rest[j]
    {
      var i', j' := if i < |a| then i else i + 1, if j < |a| then j else j + 1;
      assert rest[i] == all[i'] && rest[j] == all[j'];
    }
    forall k | k in b[1..]
      ensures b[0] < k && k in b
    {
      var i :| 0 <= i < |b[1..]| && b[1..][i] == k;
      assert all[|a|] == b[0] && all[|a| + 1 + i] == k && b[1 + i] == k;
    }
  }

  lemma CutOrder(B: nat, s: State)
    requires |s.queued| == |s.queue| && |s.partial| >= B && OneFate(s)
    ensures Increasing(CutFrame(B, s).delivered + CutFrame(B, s).queued)
    ensures forall k :: k in CutFrame(B, s).delivered + CutFrame(B, s).queued ==> k < s.cut + 1
  {
    var t := CutFrame(B, s);
    if !Full(s) {
      PushIncreasing(s.delivered + s.queued, s.cut);
      assert t.delivered + t.queued == (s.delivered + s.queued) + [s.cut];
    } else if s.realTime {
      DropIncreasing(s.delivered, s.queued);
      forall k | k in s.delivered + s.queued[1..]
        ensures k < s.cut
      {
        assert k in s.delivered + s.queued;
      }
      PushIncreasing(s.delivered + s.queued[1..], s.cut);
      assert t.delivered + t.queued == (s.delivered + s.queued[1..]) + [s.cut];
    }
  }

  lemma PushFate(d: seq<nat>, q: seq<nat>, e: seq<nat>, r: seq<nat>, k: nat)
    ensures FatesOf(d, q + [k], e, r) == FatesOf(d, q, e, r) + multiset{k}
    ensures FatesOf(d, q, e, r + [k]) == FatesOf(d, q, e, r) + multiset{k}
  {
  }

  lemma MoveFate(d: seq<nat>, q: seq<nat>, e: seq<nat>, r: seq<nat>)
    requires q != []
    ensures FatesOf(d, q[1..], e + [q[0]], r) == FatesOf(d, q, e, r)
    ensures FatesOf(d + [q[0]], q[1..], e, r) == FatesOf(d, q, e, r)
  {
    assert q == [q[0]] + q[1..];
  }

  lemma CutMultiset(B: nat, s: State)
    requires |s.queued| == |s.queue| && |s.partial| >= B
    ensures Fates(CutFrame(B, s)) == Fates(s) + multiset{s.cut}
  {
    if Full(s) && s.realTime {
      MoveFate(s.delivered, s.queued, s.evicted, s.refused);
      PushFate(s.delivered, s.queued[1..], s.evicted + [s.queued[0]], s.refused, s.cut);
    } else {
      PushFate(s.delivered, s.queued, s.evicted, s.refused, s.cut);
    }
  }

  /** Every frame that has a fate was cut. */
  lemma FateCut(s: State, k: nat)
    requires OneFate(s) && (k in s.evicted || k in s.queued || k in s.delivered || k in s.refused)
    ensures k < s.cut
  {
    assert Fates(s)[k] > 0;
  }

  lemma EvictedBefore(B: nat, s: State, e: nat, q: nat)
    requires |s.queued| == |s.queue| && |s.partial| >= B && OneFate(s)
    requires e in CutFrame(B, s).evicted && q in CutFrame(B, s).queued
    ensures e < q
  {
    if Full(s) && s.realTime {
      DropIncreasing(s.delivered, s.queued);
    }
    if e in s.evicted {
      FateCut(s, e);
    } else {
      FateCut(s, s.queued[0]);
    }
  }

  lemma OnceMore(m: multiset<nat>, n: nat)
    requires EachOnce(m, n)
    ensures EachOnce(m + multiset{n}, n + 1)
  {
  }

  lemma CutCounts(B: nat, s: State)
    requires |s.queued| == |s.queue| && |s.partial| >= B && EachOnce(Fates(s), s.cut)
    ensures CutFrame(B, s).cut == s.cut + 1 && EachOnce(Fates(CutFrame(B, s)), s.cut + 1)
  {
    CutMultiset(B, s);
    OnceMore(Fates(s), s.cut);
  }

  lemma CutFates(B: nat, s: State)
    requires |s.queued| == |s.queue| && |s.partial| >= B && OneFate(s)
    ensures OneFate(CutFrame(B, s))
  {
    CutOrder(B, s);
    CutCounts(B, s);
    forall e, q | e in CutFrame(B, s).evicted && q in CutFrame(B, s).queued
      ensures e < q
    {
      EvictedBefore(B, s, e, q);
    }
  }

  lemma CutRefusals(B: nat, s: State)
    requires |s.queued| == |s.queue| && |s.partial| >= B
    ensures var t := CutFrame(B, s);
      && t.calls == s.calls
      && (if Full(s) && !s.realTime then t.refused == s.refused + [s.cut] else t.refused == s.refused)
  {
  }

  lemma SameAcks(s: State, t: State)
    requires Acknowledged(s)
    requires t.clearCalled == s.clearCalled && t.wiped == s.wiped && t.issued == s.issued
    requires t.checkpoint == s.checkpoint && t.acks == s.acks
    requires t.pendingId == s.pendingId && t.pendingName == s.pendingName
    ensures Acknowledged(t)
  {
  }

  lemma {:induction false} ReframeKeeps(B: nat, s: State)
    requires B > 0 && Aligned(B, s) && OneFate(s)
    ensures Aligned(B, Reframe(B, s)) && OneFate(Reframe(B, s))
    decreases |s.partial|
  {
    if |s.partial| >= B {
      CutAligned(B, s);
      CutFates(B, s);
      if !(Full(s) && !s.realTime) {
        ReframeKeeps(B, CutFrame(B, s));
      }
    }
  }

  /** What the cutting loop leaves alone, and what it may lose. */
  lemma {:induction false} ReframeLosses(B: nat, s: State)
    requires B > 0 && |s.queued| == |s.queue|
    ensures var t := Reframe(B, s);
      && t == s.(queue := t.queue, partial := t.partial, cut := t.cut, queued := t.queued,
                 evicted := t.evicted, refused := t.refused)
      && (s.realTime ==> t.refused == s.refused)
      && (!s.realTime ==> t.evicted == s.evicted)
      && ((t.refused == s.refused && |t.partial| < B) || (exists k :: t.refused == s.refused + [k]))
    decreases |s.partial|
  {
    if |s.partial| >= B {
      CutRefusals(B, s);
      if !(Full(s) && !s.realTime) {
        ReframeLosses(B, CutFrame(B, s));
      }
    }
  }

  lemma FeedAligned(B: nat, s: State, pcm: Bytes)
    requires Aligned(B, s)
    ensures Aligned(B, Feed(s, pcm))
  {
    var t := Feed(s, pcm);
    assert t.partial == t.input[s.cut * B..];
    forall k: nat, frame | IsBlock(B, s.input, k, frame)
      ensures IsBlock(B, t.input, k, frame)
    {
      assert Block(B, t.input, k) == Block(B, s.input, k);
    }
  }

  /** A chunk as the cutting loop finds it. */
  function Fed(B: nat, s: State, pcm: Bytes): State
    requires B > 0
  {
    Feed(s.(misalignedLogged := s.misalignedLogged || |Trim(pcm)| % B != 0, calls := s.calls + 1), Trim(pcm))
  }

  lemma FedKeeps(B: nat, s: State, pcm: Bytes)
    requires B > 0 && Aligned(B, s) && OneFate(s)
    ensures Aligned(B, Fed(B, s, pcm)) && OneFate(Fed(B, s, pcm))
  {
    var noted := s.(misalignedLogged := s.misalignedLogged || |Trim(pcm)| % B != 0, calls := s.calls + 1);
    FeedAligned(B, noted, Trim(pcm));
    assert Fates(Fed(B, s, pcm)) == Fates(s);
  }

  lemma EnqueueRest(B: nat, s: State, pcm: Bytes)
    requires B > 0 && |s.queued| == |s.queue| && Refusals(B, s) && Acknowledged(s)
    ensures Refusals(B, EnqueueAudio(B, s, pcm)) && Acknowledged(EnqueueAudio(B, s, pcm))
  {
    ReframeLosses(B, Fed(B, s, pcm));
    SameAcks(s, EnqueueAudio(B, s, pcm));
  }

  lemma EnqueueKeeps(B: nat, s: State, pcm: Bytes)
    requires Inv(B, s)
    ensures Inv(B, EnqueueAudio(B, s, pcm))
  {
    if B > 0 {
      FedKeeps(B, s, pcm);
      ReframeKeeps(B, Fed(B, s, pcm));
      EnqueueRest(B, s, pcm);
    }
  }

  // ---- the other operations ----

  lemma PopFates(s: State, t: State)
    requires s.queue != [] && |s.queued| == |s.queue| && OneFate(s)
    requires t.queued == s.queued[1..] && t.delivered == s.delivered + [s.queued[0]]
    requires t.evicted == s.evicted && t.refused == s.refused && t.cut == s.cut
    ensures OneFate(t)
  {
    assert s.queued == [s.queued[0]] + s.queued[1..];
    assert t.delivered + t.queued == s.delivered + s.queued;
    MoveFate(s.delivered, s.queued, s.evicted, s.refused);
    assert Fates(t) == Fates(s);
    DropIncreasing(s.delivered, s.queued);
  }

  lemma PopAligned(B: nat, s: State, t: State)
    requires s.queue != [] && Aligned(B, s)
    requires t.queue == s.queue[1..] && t.queued == s.queued[1..]
    requires t.delivered == s.delivered + [s.queued[0]] && t.played == s.played + [s.queue[0]]
    requires t.input == s.input && t.partial == s.partial && t.cut == s.cut
    ensures Aligned(B, t)
  {
  }

  lemma SendAcknowledged(s: State)
    requires Acknowledged(s) && s.checkpoint
    ensures Acknowledged(SendPlayedStream(s))
  {
  }

  lemma PopKeeps(B: nat, s: State)
    requires Inv(B, s)
    ensures Inv(B, PopFrame(s))
  {
    if s.queue != [] {
      var t := s.(queue := s.queue[1..], queued := s.queued[1..],
                  delivered := s.delivered + [s.queued[0]], played := s.played + [s.queue[0]]);
      PopFates(s, PopFrame(s));
      PopAligned(B, s, PopFrame(s));
      SameAcks(s, t);
      if t.checkpoint {
        SendAcknowledged(t);
      }
    }
  }

  lemma ClearKeeps(B: nat, s: State)
    requires Acknowledged(s)
    ensures Inv(B, ClearQueue(s))
  {
    assert Fates(ClearQueue(s)) == multiset{};
  }

  lemma ApplyKeeps(B: nat, s: State, e: Event)
    requires Inv(B, s)
    ensures Inv(B, Apply(B, s, e))
  {
    match e
    case Enqueue(pcm) => EnqueueKeeps(B, s, pcm);
    case Pop => PopKeeps(B, s);
    case Clear => ClearKeeps(B, s);
    case _ =>
      assert Fates(Apply(B, s, e)) == Fates(s);
  }

  lemma {:induction false} RunKeeps(B: nat, s: State, events: seq<Event>)
    requires Inv(B, s)
    ensures Inv(B, Run(B, s, events))
    decreases |events|
  {
    if events != [] {
      ApplyKeeps(B, s, events[0]);
      RunKeeps(B, Apply(B, s, events[0]), events[1..]);
    }
  }

  lemma InitInv(B: nat, realTime: bool)
    ensures Inv(B, Init(realTime))
  {
    assert Fates(Init(realTime)) == multiset{};
  }

  // ---- the stream and its blocks ----

  /** The stream received since the last clear: the even-trimmed chunks, joined. */
  function StreamIn(B: nat, events: seq<Event>): Bytes {
    if events == [] then [] else
      var before := StreamIn(B, events[..|events| - 1]);
      match events[|events| - 1]
      case Enqueue(pcm) => if B == 0 then before else before + Trim(pcm)
      case Clear => []
      case _ => before
  }

  lemma {:induction false} RunSnoc(B: nat, s: State, events: seq<Event>, e: Event)
    requires |s.queued| == |s.queue|
    ensures |Run(B, s, events).queued| == |Run(B, s, events).queue|
    ensures Run(B, s, events + [e]) == Apply(B, Run(B, s, events), e)
    decreases |events|
  {
    if events == [] {
      assert events + [e] == [e];
      assert Run(B, Apply(B, s, e), []) == Apply(B, s, e);
    } else {
      assert (events + [e])[1..] == events[1..] + [e];
      RunSnoc(B, Apply(B, s, events[0]), events[1..], e);
    }
  }

  lemma ApplyStream(B: nat, s: State, e: Event)
    requires |s.queued| == |s.queue|
    ensures Apply(B, s, e).input ==
      if e.Enqueue? && B > 0 then s.input + Trim(e.pcm) else if e.Clear? then [] else s.input
  {
    if e.Enqueue? && B > 0 {
      EnqueueOnly(B, s, e.pcm);
    }
  }

  /** What an enqueue can change. */
  lemma EnqueueOnly(B: nat, s: State, pcm: Bytes)
    requires B > 0 && |s.queued| == |s.queue|
    ensures var t := EnqueueAudio(B, s, pcm);
      && t.input == s.input + Trim(pcm) && t.acks == s.acks && t.calls == s.calls + 1
      && (s.realTime ==> t.refused == s.refused)
      && (!s.realTime ==> t.evicted == s.evicted)
      && (t.refused == s.refused || (exists k :: t.refused == s.refused + [k]))
  {
    var noted := s.(misalignedLogged := s.misalignedLogged || |Trim(pcm)| % B != 0, calls := s.calls + 1);
    ReframeLosses(B, Feed(noted, Trim(pcm)));
  }

  lemma {:induction false} RunStream(B: nat, realTime: bool, events: seq<Event>)
    ensures Run(B, Init(realTime), events).input == StreamIn(B, events)
    decreases |events|
  {
    if events != [] {
      var before, e := events[..|events| - 1], events[|events| - 1];
      assert events == before + [e];
      RunStream(B, realTime, before);
      RunSnoc(B, Init(realTime), before, e);
      ApplyStream(B, Run(B, Init(realTime), before), e);
    }
  }

  /**
   In every run and both modes: the `i`-th frame delivered since the last clear is block
   `delivered[i]` of the stream, with strictly growing block numbers; each block cut off has
   exactly one fate; the rest of the stream is the carry-over.
   */
  lemma FrameAlignment(B: nat, realTime: bool, events: seq<Event>)
    ensures var s, stream := Run(B, Init(realTime), events), StreamIn(B, events);
      && AreBlocks(B, stream, s.delivered, s.played)
      && AreBlocks(B, stream, s.queued, s.queue)
      && Increasing(s.delivered + s.queued)
      && s.cut * B <= |stream| && s.partial == stream[s.cut * B..]
      && EachOnce(Fates(s), s.cut)
  {
    InitInv(B, realTime);
    RunKeeps(B, Init(realTime), events);
    RunStream(B, realTime, events);
  }

  /** One call refuses at most one block, and none in real-time mode, which only gives up the oldest queued blocks. */
  lemma LossesPerCall(B: nat, s: State, pcm: Bytes)
    requires Inv(B, s)
    ensures var t := EnqueueAudio(B, s, pcm);
      && (t.refused == s.refused || exists k :: t.refused == s.refused + [k])
      && (s.realTime ==> t.refused == s.refused)
      && (!s.realTime ==> t.evicted == s.evicted)
      && (forall e, q :: e in t.evicted && q in t.queued ==> e < q)
  {
    EnqueueKeeps(B, s, pcm);
    if B > 0 {
      EnqueueOnly(B, s, pcm);
    }
  }

  // ---- chunking ----

  /** Equal but for the call counter and the once-only log line. */
  predicate SameAudio(s: State, t: State) {
    s.(calls := 0, misalignedLogged := false) == t.(calls := 0, misalignedLogged := false)
  }

  function Noted(s: State, logged: bool, calls: nat): State {
    s.(misalignedLogged := logged, calls := calls)
  }

  lemma CutNoted(B: nat, s: State, logged: bool, calls: nat)
    requires |s.partial| >= B && |s.queued| == |s.queue|
    ensures CutFrame(B, Noted(s, logged, calls)) == Noted(CutFrame(B, s), logged, calls)
  {
    var n := Noted(s, logged, calls);
    assert n.partial == s.partial && n.queue == s.queue && n.queued == s.queued && Full(n) == Full(s);
    var rest := s.(partial := s.partial[B..], cut := s.cut + 1);
    if !Full(s) {
      assert CutFrame(B, s) == rest.(queue := s.queue + [s.partial[..B]], queued := s.queued + [s.cut]);
    } else if s.realTime {
    } else {
      assert CutFrame(B, s) == rest.(refused := s.refused + [s.cut]);
    }
  }

  lemma {:induction false} ReframeNoted(B: nat, s: State, logged: bool, calls: nat)
    requires B > 0 && |s.queued| == |s.queue|
    ensures Reframe(B, Noted(s, logged, calls)) == Noted(Reframe(B, s), logged, calls)
    decreases |s.partial|
  {
    if |s.partial| >= B {
      CutNoted(B, s, logged, calls);
      if !(Full(s) && !s.realTime) {
        ReframeNoted(B, CutFrame(B, s), logged, calls);
      }
    }
  }

  lemma CutFeed(B: nat, s: State, c: Bytes)
    requires |s.queued| == |s.queue| && |s.partial| >= B
    ensures CutFrame(B, Feed(s, c)) == Feed(CutFrame(B, s), c)
  {
    SplitLonger(s.partial, c, B);
    var fed := Feed(s, c);
    assert Full(fed) <==> Full(s);
    if Full(s) {
      if s.realTime {
        assert fed.queue[1..] == s.queue[1..] && fed.queued[1..] == s.queued[1..];
      }
    }
  }

  lemma SplitLonger(a: Bytes, c: Bytes, n: nat)
    requires n <= |a|
    ensures (a + c)[..n] == a[..n] && (a + c)[n..] == a[n..] + c
  {
  }

  /** More bytes after a cutting loop that refused nothing: as if they had been there before. */
  lemma {:induction false} ReframeThenFeed(B: nat, s: State, c: Bytes)
    requires B > 0 && |s.queued| == |s.queue|
    ensures Reframe(B, s).refused == s.refused ==>
              Reframe(B, Feed(Reframe(B, s), c)) == Reframe(B, Feed(s, c))
    ensures Reframe(B, s).refused != s.refused ==>
              !s.realTime && Full(Reframe(B, s)) && !Reframe(B, s).realTime
              && Reframe(B, Feed(s, c)) == Feed(Reframe(B, s), c)
    decreases |s.partial|
  {
    if |s.partial| >= B {
      CutFeed(B, s, c);
      CutRefusals(B, s);
      if !(Full(s) && !s.realTime) {
        ReframeThenFeed(B, CutFrame(B, s), c);
      }
    }
  }

  /** Free places in the default queue. */
  function Room(s: State): nat {
    if |s.queue| < MAX_QUEUE_SIZE_DEFAULT then MAX_QUEUE_SIZE_DEFAULT - |s.queue| else 0
  }

  /** The default loop refuses a frame exactly when there are more frames than room. */
  lemma {:induction false} RefusesIff(B: nat, s: State)
    requires B > 0 && |s.queued| == |s.queue| && !s.realTime
    ensures Reframe(B, s).refused != s.refused <==> |s.partial| >= (Room(s) + 1) * B
    ensures Reframe(B, s).refused != s.refused ==>
              |Reframe(B, s).partial| == |s.partial| - (Room(s) + 1) * B
    decreases |s.partial|
  {
    NextCut(B, Room(s));
    if |s.partial| >= B {
      CutRefusals(B, s);
      if !Full(s) {
        var t := CutFrame(B, s);
        assert Room(t) == Room(s) - 1;
        RefusesIff(B, t);
      }
    } else {
      assert Room(s) * B >= 0;
    }
  }

  lemma TrimJoin(c1: Bytes, c2: Bytes)
    requires |c1| % 2 == 0
    ensures Trim(c1 + c2) == c1 + Trim(c2)
  {
    if |c2| % 2 == 1 {
      assert (c1 + c2)[..|c1 + c2| - 1] == c1 + c2[..|c2| - 1];
    }
  }

  /** Both ways of handing over two chunks, with the bookkeeping of the calls set aside. */
  lemma OneWay(B: nat, s: State, c1: Bytes, c2: Bytes)
    requires B > 0 && |s.queued| == |s.queue| && |c1| % 2 == 0
    ensures SameAudio(EnqueueAudio(B, s, c1 + c2), Reframe(B, Feed(s, c1 + Trim(c2))))
    ensures Feed(Feed(s, c1), Trim(c2)) == Feed(s, c1 + Trim(c2))
  {
    TrimJoin(c1, c2);
    EnqueueNoted(B, s, c1 + c2);
    assert (s.partial + c1) + Trim(c2) == s.partial + (c1 + Trim(c2));
    assert (s.input + c1) + Trim(c2) == s.input + (c1 + Trim(c2));
  }

  lemma OtherWay(B: nat, s: State, c1: Bytes, c2: Bytes)
    requires B > 0 && |s.queued| == |s.queue| && |c1| % 2 == 0
    ensures SameAudio(EnqueueAudio(B, EnqueueAudio(B, s, c1), c2),
                      Reframe(B, Feed(Reframe(B, Feed(s, c1)), Trim(c2))))
  {
    EnqueueNoted(B, s, c1);
    var first := EnqueueAudio(B, s, c1);
    EnqueueNoted(B, first, c2);
    var r := Reframe(B, Feed(s, c1));
    FeedNoted(r, first.misalignedLogged, first.calls, Trim(c2));
    ReframeNoted(B, Feed(r, Trim(c2)), first.misalignedLogged, first.calls);
  }

  lemma FeedNoted(s: State, logged: bool, calls: nat, c: Bytes)
    ensures Feed(Noted(s, logged, calls), c) == Noted(Feed(s, c), logged, calls)
  {
  }

  lemma EnqueueNoted(B: nat, s: State, pcm: Bytes)
    requires B > 0 && |s.queued| == |s.queue|
    ensures var t := EnqueueAudio(B, s, pcm);
      && t == Noted(Reframe(B, Feed(s, Trim(pcm))), t.misalignedLogged, t.calls)
      && |t.queued| == |t.queue|
  {
    ReframeNoted(B, Feed(s, Trim(pcm)), s.misalignedLogged || |Trim(pcm)| % B != 0, s.calls + 1);
    ReframeLosses(B, Feed(Noted(s, s.misalignedLogged || |Trim(pcm)| % B != 0, s.calls + 1), Trim(pcm)));
  }

  /** In real-time mode the way a stream is cut into chunks never matters. */
  lemma ChunkingRealTime(B: nat, s: State, c1: Bytes, c2: Bytes)
    requires |s.queued| == |s.queue| && s.realTime && |c1| % 2 == 0
    ensures SameAudio(EnqueueAudio(B, EnqueueAudio(B, s, c1), c2), EnqueueAudio(B, s, c1 + c2))
  {
    if B > 0 {
      OneWay(B, s, c1, c2);
      OtherWay(B, s, c1, c2);
      ReframeThenFeed(B, Feed(s, c1), Trim(c2));
    }
  }

  /**
   In default mode two chunks leave the same queue and carry-over as their concatenation
   exactly when they do not both lose a frame: the first chunk overflows the queue and the
   bytes of the second complete yet another frame.
   */
  lemma ChunkingDefault(B: nat, s: State, c1: Bytes, c2: Bytes)
    requires B > 0 && |s.queued| == |s.queue| && !s.realTime && |c1| % 2 == 0
    ensures var one, two := EnqueueAudio(B, s, c1 + c2), EnqueueAudio(B, EnqueueAudio(B, s, c1), c2);
      var have := |s.partial| + |c1|;
      && (one.queue == two.queue && one.partial == two.partial <==>
            have < (Room(s) + 1) * B || have + |Trim(c2)| < (Room(s) + 2) * B)
      && (one.queue == two.queue && one.partial == two.partial ==> SameAudio(one, two))
  {
    OneWay(B, s, c1, c2);
    OtherWay(B, s, c1, c2);
    var fed := Feed(s, c1);
    ReframeThenFeed(B, fed, Trim(c2));
    RefusesIff(B, fed);
    NextCut(B, Room(s) + 1);
    var rest := Feed(Reframe(B, fed), Trim(c2));
    if Reframe(B, fed).refused != fed.refused {
      assert Reframe(B, rest) == if |rest.partial| < B then rest else CutFrame(B, rest);
    }
  }

  /** The chunks of a stream as enqueue events. */
  function Enqueues(chunks: seq<Bytes>): seq<Event> {
    seq(|chunks|, i requires 0 <= i < |chunks| => Enqueue(chunks[i]))
  }

  function Join(chunks: seq<Bytes>): Bytes {
    if chunks == [] then [] else Join(chunks[..|chunks| - 1]) + chunks[|chunks| - 1]
  }

  lemma SameAudioEnqueue(B: nat, s: State, t: State, pcm: Bytes)
    requires B > 0 && |s.queued| == |s.queue| && SameAudio(s, t)
    ensures SameAudio(EnqueueAudio(B, s, pcm), EnqueueAudio(B, t, pcm))
  {
    EnqueueNoted(B, s, pcm);
    EnqueueNoted(B, t, pcm);
    assert t == Noted(s, t.misalignedLogged, t.calls);
    ReframeNoted(B, Feed(s, Trim(pcm)), t.misalignedLogged, t.calls);
    assert Feed(t, Trim(pcm)) == Noted(Feed(s, Trim(pcm)), t.misalignedLogged, t.calls);
  }

  lemma {:induction false} JoinEven(chunks: seq<Bytes>)
    requires forall c :: c in chunks ==> |c| % 2 == 0
    ensures |Join(chunks)| % 2 == 0
  {
    if chunks != [] {
      JoinEven(chunks[..|chunks| - 1]);
    }
  }

  /** Real-time: after any chunks the queue and carry-over are those of the whole stream framed at once. */
  lemma {:induction false} FramedAtOnce(B: nat, s: State, chunks: seq<Bytes>)
    requires B > 0 && |s.queued| == |s.queue| && s.realTime && |s.partial| < B
    requires forall c :: c in chunks ==> |c| % 2 == 0
    ensures SameAudio(Run(B, s, Enqueues(chunks)), EnqueueAudio(B, s, Join(chunks)))
    decreases |chunks|
  {
    if chunks == [] {
      assert s.partial + [] == s.partial && s.input + [] == s.input;
    } else {
      var before, last := chunks[..|chunks| - 1], chunks[|chunks| - 1];
      assert Enqueues(chunks) == Enqueues(before) + [Enqueue(last)];
      FramedAtOnce(B, s, before);
      RunSnoc(B, s, Enqueues(before), Enqueue(last));
      SameAudioEnqueue(B, Run(B, s, Enqueues(before)), EnqueueAudio(B, s, Join(before)), last);
      JoinEven(before);
      ChunkingRealTime(B, s, Join(before), last);
    }
  }

  // ---- acknowledgements ----

  /**
   In every run: an acknowledgement is sent exactly by a pop that takes the only queued frame
   while a checkpoint with an id is pending and the peer is connected.  The checkpoint is the
   latest, no clear has cancelled it and it has not been acknowledged; all blocks cut so far
   have left, and only the carry-over is undelivered, less than a frame of it unless a block
   was refused.
   */
  lemma AckIsTruthful(B: nat, realTime: bool, events: seq<Event>, e: Event)
    ensures var s := Run(B, Init(realTime), events);
      |s.queued| == |s.queue| &&
      var t := Apply(B, s, e);
      && (t.acks != s.acks <==> e.Pop? && |s.queue| == 1 && s.checkpoint && s.pendingId != "" && s.connected)
      && (t.acks != s.acks ==>
        && e.Pop? && s.queue != [] && t.queue == []
        && t.acks == s.acks + [Ack(s.issued, s.wiped, s.pendingId, s.pendingName)]
        && s.wiped < s.issued && (forall a :: a in s.acks ==> a.serial < s.issued)
        && !t.checkpoint
        && (forall k: nat :: k < t.cut <==> k in t.delivered || k in t.evicted || k in t.refused)
        && t.cut * B <= |StreamIn(B, events + [e])|
        && t.partial == StreamIn(B, events + [e])[t.cut * B..]
        && (t.refused == [] && B > 0 ==> |t.partial| < B))
  {
    InitInv(B, realTime);
    RunKeeps(B, Init(realTime), events);
    RunSnoc(B, Init(realTime), events, e);
    RunStream(B, realTime, events + [e]);
    var s := Run(B, Init(realTime), events);
    var t := Apply(B, s, e);
    ApplyKeeps(B, s, e);
    if e.Enqueue? && B > 0 {
      EnqueueOnly(B, s, e.pcm);
    }
    if t.acks != s.acks {
      AllGone(t);
    }
  }

  lemma AllGone(t: State)
    requires OneFate(t) && t.queued == []
    ensures forall k: nat :: k < t.cut <==> k in t.delivered || k in t.evicted || k in t.refused
  {
    forall k: nat
      ensures k < t.cut <==> k in t.delivered || k in t.evicted || k in t.refused
    {
      assert Fates(t)[k] == multiset(t.delivered)[k] + multiset(t.evicted)[k] + multiset(t.refused)[k];
    }
  }

  /** Over a whole run no checkpoint is acknowledged twice and none that a clear had cancelled. */
  lemma AckOnce(B: nat, realTime: bool, events: seq<Event>)
    ensures var acks := Run(B, Init(realTime), events).acks;
      && (forall i, j :: 0 <= i < j < |acks| ==> acks[i].serial < acks[j].serial)
      && (forall a :: a in acks ==> a.wiped < a.serial)
  {
    InitInv(B, realTime);
    RunKeeps(B, Init(realTime), events);
  }
}
