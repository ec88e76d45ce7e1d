/** Values shared by the models: bytes, 16-bit samples and their little-endian layout. */
module Common {
  type Byte = b: int | 0 <= b < 0x100
  type Sample = s: int | -0x8000 <= s < 0x8000

  datatype Option<+T> = None | Some(value: T)

  predicate Increasing(ks: seq<nat>) {
    forall i, j :: 0 <= i < j < |ks| ==> ks[i] < ks[j]
  }

  /** The two bytes of a sample; Euclidean `/` and `%` are the arithmetic shift and the mask. */
  function LowByte(s: Sample): Byte {
    s % 0x100
  }

  function HighByte(s: Sample): Byte {
    (s / 0x100) % 0x100
  }

  function SampleOf(low: Byte, high: Byte): Sample {
    var raw := low + 0x100 * high;
    if raw < 0x8000 then raw else raw - 0x10000
  }

  /** Samples are stored in two's complement, low byte first. */
  lemma TwosComplement(s: Sample, low: Byte, high: Byte)
    ensures LowByte(s) + 0x100 * HighByte(s) == if s >= 0 then s else s + 0x10000
    ensures SampleOf(low, high) == if high < 0x80 then low + 0x100 * high else low + 0x100 * high - 0x10000
  {
    var q: int := s / 0x100;
    assert s == 0x100 * q + s % 0x100;
    HighPart(q);
  }

  lemma SampleRoundTrip(s: Sample)
    ensures SampleOf(LowByte(s), HighByte(s)) == s
  {
    var high: int, low: int := s / 0x100, s % 0x100;
    assert s == 0x100 * high + low && -0x80 <= high < 0x80;
    HighPart(high);
  }

  lemma HighPart(high: int)
    requires -0x80 <= high < 0x80
    ensures high % 0x100 == if high < 0 then high + 0x100 else high
  {
  }

  /** Complete little-endian samples at the front of `bytes`; an odd last byte is ignored. */
  function Decode(bytes: seq<Byte>): seq<Sample> {
    seq(|bytes| / 2, i requires 0 <= i < |bytes| / 2 => SampleOf(bytes[2 * i], bytes[2 * i + 1]))
  }

  function Encode(samples: seq<Sample>): seq<Byte> {
    seq(2 * |samples|, i requires 0 <= i < 2 * |samples| =>
      if i % 2 == 0 then LowByte(samples[i / 2]) else HighByte(samples[i / 2]))
  }

  lemma EncodeAt(samples: seq<Sample>, i: nat)
    requires i < |samples|
    ensures Encode(samples)[2 * i] == LowByte(samples[i])
    ensures Encode(samples)[2 * i + 1] == HighByte(samples[i])
  {
    assert (2 * i) / 2 == i && (2 * i) % 2 == 0;
    assert (2 * i + 1) / 2 == i && (2 * i + 1) % 2 == 1;
  }

  lemma DecodeEncode(samples: seq<Sample>)
    ensures Decode(Encode(samples)) == samples
  {
    var back := Decode(Encode(samples));
    assert |back| == |samples|;
    forall i | 0 <= i < |samples|
      ensures back[i] == samples[i]
    {
      EncodeAt(samples, i);
      SampleRoundTrip(samples[i]);
    }
  }
}
