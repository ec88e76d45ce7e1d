/** The ringing tone: loading it from a WAV file and cutting frames from it in an endless loop. */
module Ringing {
  import opened Common
  import opened Wav

  /** `n` samples of the loop, beginning at a position. */
  function Looped(tone: seq<Sample>, start: nat, n: nat): seq<Sample>
    requires tone != []
  {
    seq(n, i requires 0 <= i < n => tone[(start + i) % |tone|])
  }

  class RingingAudioProvider {
    var ringingBuffer: seq<Sample>
    var currentPosition: nat
    var loaded: bool

    predicate Ready()
      reads this
    {
      loaded && ringingBuffer != []
    }

    ghost predicate Valid()
      reads this
    {
      Ready() ==> currentPosition < |ringingBuffer|
    }

    constructor ()
      ensures Valid() && !loaded && ringingBuffer == [] && currentPosition == 0
    {
      ringingBuffer, currentPosition, loaded := [], 0, false;
    }

    /** `file` is the content of the tone for this rate, `None` if it cannot be opened. */
    method LoadRingingFile(sampleRate: int, file: Option<seq<Byte>>) returns (ok: bool)
      requires Valid()
      modifies this
      ensures Valid()
      ensures ok <==> (sampleRate == 8000 || sampleRate == 16000) && file.Some? && AfterHeader(file.value) != []
      ensures ok ==> Ready() && ringingBuffer == AfterHeader(file.value) && currentPosition == 0
      ensures !ok ==> loaded == old(loaded) && currentPosition == old(currentPosition)
      ensures !ok && (sampleRate == 8000 || sampleRate == 16000) && file.Some? ==> ringingBuffer == []
      ensures !ok && !((sampleRate == 8000 || sampleRate == 16000) && file.Some?) ==> unchanged(this)
    {
      if sampleRate != 8000 && sampleRate != 16000 {
        return false;
      }
      if file.None? {
        return false;
      }
      var bytes := file.value;
      var offset := HEADER_SIZE;
      ringingBuffer := [];
      while offset + 2 <= |bytes|
        invariant |bytes| >= HEADER_SIZE ==> HEADER_SIZE <= offset <= |bytes|
        invariant |bytes| < HEADER_SIZE ==> offset == HEADER_SIZE && ringingBuffer == []
        invariant |bytes| >= HEADER_SIZE ==>
          && offset == HEADER_SIZE + 2 * |ringingBuffer|
          && ringingBuffer == Decode(bytes[HEADER_SIZE..])[..|ringingBuffer|]
        invariant loaded == old(loaded) && currentPosition == old(currentPosition)
      {
        ringingBuffer := ringingBuffer + [SampleOf(bytes[offset], bytes[offset + 1])];
        offset := offset + 2;
      }
      assert ringingBuffer == AfterHeader(bytes);
      if ringingBuffer == [] {
        return false;
      }
      currentPosition, loaded := 0, true;
      return true;
    }

    method GetRingingFrame(frameSize: nat) returns (audio: seq<Byte>)
      requires Valid()
      modifies this`currentPosition
      ensures Valid()
      ensures !Ready() ==> audio == seq(frameSize, _ => 0) && currentPosition == old(currentPosition)
      ensures Ready() ==>
        && audio == Encode(Looped(ringingBuffer, old(currentPosition), frameSize / 2))
        && currentPosition == (old(currentPosition) + frameSize / 2) % |ringingBuffer|
    {
      if !loaded || ringingBuffer == [] {
        return seq(frameSize, _ => 0);
      }
      var samplesNeeded := frameSize / 2;
      audio := [];
      var i := 0;
      while i < samplesNeeded
        invariant 0 <= i <= samplesNeeded && Ready()
        invariant currentPosition == (old(currentPosition) + i) % |ringingBuffer|
        invariant audio == Encode(Looped(ringingBuffer, old(currentPosition), i))
      {
        var sample := ringingBuffer[currentPosition];
        LoopedGrows(ringingBuffer, old(currentPosition), i);
        EncodeSnoc(Looped(ringingBuffer, old(currentPosition), i), sample);
        audio := audio + [LowByte(sample)] + [HighByte(sample)];
        NextPosition(old(currentPosition) + i, |ringingBuffer|);
        currentPosition := currentPosition + 1;
        if currentPosition >= |ringingBuffer| {
          currentPosition := 0;
        }
        i := i + 1;
      }
    }

    method Reset()
      requires Valid()
      modifies this`currentPosition
      ensures Valid() && currentPosition == 0
    {
      currentPosition := 0;
    }
  }

  lemma Multiples(d: int, n: nat)
    ensures d >= 1 ==> d * n >= n
    ensures d <= -1 ==> d * n + n <= 0
  {
    if d >= 1 {
      assert (d - 1) * n >= 0;
    } else if d <= -1 {
      assert (-d - 1) * n >= 0;
    }
  }

  lemma ModOf(q: nat, r: nat, n: nat)
    requires r < n
    ensures (q * n + r) % n == r
  {
    var x := q * n + r;
    var q', r' := x / n, x % n;
    assert x == q' * n + r';
    assert (q - q') * n == r' - r;
    Multiples(q - q', n);
  }

  lemma AddMultiple(y: nat, q: nat, n: nat)
    requires n > 0
    ensures (q * n + y) % n == y % n
  {
    var q', r' := y / n, y % n;
    assert y == q' * n + r';
    assert q * n + y == (q + q') * n + r';
    ModOf(q + q', r', n);
  }

  lemma NextPosition(x: nat, n: nat)
    requires n > 0
    ensures (x + 1) % n == if x % n + 1 == n then 0 else x % n + 1
  {
    var q, r := x / n, x % n;
    assert x == q * n + r;
    if r + 1 == n {
      assert x + 1 == (q + 1) * n + 0;
      ModOf(q + 1, 0, n);
    } else {
      ModOf(q, r + 1, n);
    }
  }

  lemma LoopedGrows(tone: seq<Sample>, start: nat, i: nat)
    requires tone != []
    ensures Looped(tone, start, i + 1) == Looped(tone, start, i) + [tone[(start + i) % |tone|]]
  {
  }

  lemma EncodeSnoc(samples: seq<Sample>, s: Sample)
    ensures Encode(samples + [s]) == Encode(samples) + [LowByte(s)] + [HighByte(s)]
  {
  }

  lemma EncodeJoin(a: seq<Sample>, b: seq<Sample>)
    ensures Encode(a + b) == Encode(a) + Encode(b)
  {
    var joined, parts := Encode(a + b), Encode(a) + Encode(b);
    forall i | 0 <= i < |joined|
      ensures joined[i] == parts[i]
    {
      if i >= 2 * |a| {
        assert (i - 2 * |a|) / 2 == i / 2 - |a| && (i - 2 * |a|) % 2 == i % 2;
      }
    }
  }

  // ---- a run of frames ----

  /** The bytes of successive frames of the given sizes, from a position, as `GetRingingFrame` returns them. */
  function Frames(tone: seq<Sample>, position: nat, sizes: seq<nat>): seq<Byte>
    requires tone != []
    decreases |sizes|
  {
    if sizes == [] then [] else
      Encode(Looped(tone, position, sizes[0] / 2))
      + Frames(tone, (position + sizes[0] / 2) % |tone|, sizes[1..])
  }

  function SamplesIn(sizes: seq<nat>): nat {
    if sizes == [] then 0 else sizes[0] / 2 + SamplesIn(sizes[1..])
  }

  lemma PositionsAgree(tone: seq<Sample>, start: nat, n: nat)
    requires tone != []
    ensures Looped(tone, start % |tone|, n) == Looped(tone, start, n)
  {
    var a, b := Looped(tone, start % |tone|, n), Looped(tone, start, n);
    forall i | 0 <= i < n
      ensures a[i] == b[i]
    {
      ModShift(start, i, |tone|);
    }
  }

  lemma ModShift(x: nat, i: nat, n: nat)
    requires n > 0
    ensures (x % n + i) % n == (x + i) % n
  {
    var q, r := x / n, x % n;
    assert x == q * n + r;
    AddMultiple(r + i, q, n);
  }

  /**
   Whatever sizes the frames have, together they are the tone repeated: the `k`-th sample
   since the tone was loaded or reset is sample `k` modulo its length.
   */
  lemma {:induction false} FramesLoop(tone: seq<Sample>, start: nat, sizes: seq<nat>)
    requires tone != []
    ensures Frames(tone, start % |tone|, sizes) == Encode(Looped(tone, start, SamplesIn(sizes)))
    decreases |sizes|
  {
    if sizes != [] {
      var n := sizes[0] / 2;
      PositionsAgree(tone, start, n);
      ModShift(start, n, |tone|);
      FramesLoop(tone, start + n, sizes[1..]);
      var first, rest := Looped(tone, start, n), Looped(tone, start + n, SamplesIn(sizes[1..]));
      EncodeJoin(first, rest);
      assert first + rest == Looped(tone, start, SamplesIn(sizes));
    }
  }

  /** A recording written as a WAV file and loaded as the tone plays back as itself, over and over. */
  lemma RecordingRings(raw: seq<Sample>, sampleRate: nat, sizes: seq<nat>)
    requires 0 < |raw| < 0x8000_0000
    ensures AfterHeader(ToWav(raw, sampleRate)) == raw
    ensures Frames(raw, 0, sizes) == Encode(Looped(raw, 0, SamplesIn(sizes)))
  {
    RoundTripExact(raw, sampleRate);
    FramesLoop(raw, 0, sizes);
  }
}
