/** The WAV file a recording becomes, byte for byte, and its exact range. */
module Wav {
  import opened Common

  const HEADER_SIZE := 44
  const WORD: nat := 0x1_0000_0000

  function LittleEndian16(x: nat): seq<Byte> {
    [x % 0x100, (x / 0x100) % 0x100]
  }

  function LittleEndian32(x: nat): seq<Byte> {
    [x % 0x100, (x / 0x100) % 0x100, (x / 0x1_0000) % 0x100, (x / 0x100_0000) % 0x100]
  }

  function Read32(bytes: seq<Byte>, at: nat): nat
    requires at + 4 <= |bytes|
  {
    var b0: nat, b1: nat, b2: nat, b3: nat := bytes[at], bytes[at + 1], bytes[at + 2], bytes[at + 3];
    b0 + 0x100 * b1 + 0x1_0000 * b2 + 0x100_0000 * b3
  }

  /** The byte count as the header's 32-bit field holds it; the copy uses the same value. */
  function DataBytes(samples: nat): nat {
    (2 * samples) % WORD
  }

  function RiffSize(samples: nat): nat {
    (DataBytes(samples) + HEADER_SIZE - 8) % WORD
  }

  const RIFF: seq<Byte> := [0x52, 0x49, 0x46, 0x46]
  const WAVE: seq<Byte> := [0x57, 0x41, 0x56, 0x45]
  const FMT: seq<Byte> := [0x66, 0x6D, 0x74, 0x20]
  const DATA: seq<Byte> := [0x64, 0x61, 0x74, 0x61]

  function RiffPart(samples: nat): (p: seq<Byte>)
    ensures |p| == 12
  {
    RIFF + LittleEndian32(RiffSize(samples)) + WAVE
  }

  function FormatPart(rate: nat): (p: seq<Byte>)
    ensures |p| == 24
  {
    FMT + LittleEndian32(16) + (LittleEndian16(1) + LittleEndian16(1))
    + (LittleEndian32(rate) + LittleEndian32((2 * rate) % WORD)) + (LittleEndian16(2) + LittleEndian16(16))
  }

  function DataPart(samples: nat): (p: seq<Byte>)
    ensures |p| == 8
  {
    DATA + LittleEndian32(DataBytes(samples))
  }

  function Header(samples: nat, sampleRate: nat): (h: seq<Byte>)
    ensures |h| == HEADER_SIZE
  {
    RiffPart(samples) + FormatPart(sampleRate % WORD) + DataPart(samples)
  }

  /** The bytes copied behind the header. */
  function DataOf(raw: seq<Sample>): (data: seq<Byte>)
    ensures |data| == DataBytes(|raw|)
  {
    assert DataBytes(|raw|) <= |Encode(raw)|;
    Encode(raw)[..DataBytes(|raw|)]
  }

  function ToWav(raw: seq<Sample>, sampleRate: nat): seq<Byte> {
    Header(|raw|, sampleRate) + DataOf(raw)
  }

  /** Copy `bytes` into `buffer` from `start` on. */
  method CopyInto(buffer: array<Byte>, start: nat, bytes: seq<Byte>)
    requires start + |bytes| <= buffer.Length
    modifies buffer
    ensures buffer[..start] == old(buffer[..start])
    ensures buffer[start..start + |bytes|] == bytes
  {
    var i := 0;
    while i < |bytes|
      invariant 0 <= i <= |bytes|
      invariant buffer[..start] == old(buffer[..start])
      invariant buffer[start..start + i] == bytes[..i]
    {
      buffer[start + i] := bytes[i];
      assert buffer[start..start + i + 1] == buffer[start..start + i] + [bytes[i]];
      i := i + 1;
    }
  }

  method ConvertToWav(raw: seq<Sample>, sampleRate: nat) returns (wav: array<Byte>)
    ensures fresh(wav) && wav[..] == ToWav(raw, sampleRate)
  {
    var dataBytes := DataBytes(|raw|);
    wav := new Byte[HEADER_SIZE + dataBytes](_ => 0);
    var header := Header(|raw|, sampleRate);
    var data := DataOf(raw);
    CopyInto(wav, 0, header);
    assert wav[..HEADER_SIZE] == wav[0..0 + |header|] == header;
    CopyInto(wav, HEADER_SIZE, data);
    assert wav[..] == wav[..HEADER_SIZE] + wav[HEADER_SIZE..HEADER_SIZE + |data|];
    assert wav[..] == header + data;
  }

  lemma Read32Back(x: nat)
    requires x < WORD
    ensures Read32(LittleEndian32(x), 0) == x
  {
    var b0, r0 := x % 0x100, x / 0x100;
    var b1, r1 := r0 % 0x100, r0 / 0x100;
    assert x / 0x1_0000 == r1;
    assert x / 0x100_0000 == r1 / 0x100;
  }

  lemma SameRead(bytes: seq<Byte>, field: seq<Byte>, at: nat)
    requires |field| == 4 && at + 4 <= |bytes| && bytes[at..at + 4] == field
    ensures Read32(bytes, at) == Read32(field, 0)
  {
    assert bytes[at] == field[0] && bytes[at + 1] == field[1] && bytes[at + 2] == field[2] && bytes[at + 3] == field[3];
  }

  lemma HeaderParts(samples: nat, sampleRate: nat)
    ensures var h := Header(samples, sampleRate);
      h[..12] == RiffPart(samples) && h[12..36] == FormatPart(sampleRate % WORD) && h[36..44] == DataPart(samples)
  {
  }

  lemma HeaderFields(samples: nat, sampleRate: nat)
    ensures Read32(Header(samples, sampleRate), 4) == RiffSize(samples)
    ensures Read32(Header(samples, sampleRate), 40) == DataBytes(samples)
  {
    var h := Header(samples, sampleRate);
    HeaderParts(samples, sampleRate);
    Read32Back(RiffSize(samples));
    Read32Back(DataBytes(samples));
    assert h[4..8] == h[..12][4..8] == LittleEndian32(RiffSize(samples));
    assert h[40..44] == h[36..44][4..8] == LittleEndian32(DataBytes(samples));
    SameRead(h, LittleEndian32(RiffSize(samples)), 4);
    SameRead(h, LittleEndian32(DataBytes(samples)), 40);
  }

  lemma ReadInFront(front: seq<Byte>, rest: seq<Byte>, at: nat)
    requires at + 4 <= |front|
    ensures Read32(front + rest, at) == Read32(front, at)
  {
    var all := front + rest;
    assert all[at] == front[at] && all[at + 1] == front[at + 1];
    assert all[at + 2] == front[at + 2] && all[at + 3] == front[at + 3];
  }

  /** A header and its data: the size fields are read from the header. */
  lemma FieldsInFront(h: seq<Byte>, data: seq<Byte>)
    requires |h| == HEADER_SIZE
    ensures |h + data| == HEADER_SIZE + |data|
    ensures Read32(h + data, 4) == Read32(h, 4) && Read32(h + data, 40) == Read32(h, 40)
  {
    ReadInFront(h, data, 4);
    ReadInFront(h, data, 40);
  }

  lemma FileFields(raw: seq<Sample>, sampleRate: nat)
    ensures var wav := ToWav(raw, sampleRate);
      && |wav| == HEADER_SIZE + DataBytes(|raw|)
      && Read32(wav, 4) == RiffSize(|raw|) && Read32(wav, 40) == DataBytes(|raw|)
  {
    HeaderFields(|raw|, sampleRate);
    FieldsInFront(Header(|raw|, sampleRate), DataOf(raw));
  }

  /** Both size fields describe the file and its data exactly below 2^31 - 18 samples. */
  lemma SizesExact(raw: seq<Sample>, sampleRate: nat)
    ensures var wav := ToWav(raw, sampleRate);
      && |wav| >= HEADER_SIZE
      && (Read32(wav, 4) + 8 == |wav| && Read32(wav, 40) == 2 * |raw| <==> |raw| < 0x8000_0000 - 18)
  {
    FileFields(raw, sampleRate);
    SizeFields(|raw|);
  }

  lemma SizeFields(n: nat)
    ensures RiffSize(n) + 8 == HEADER_SIZE + DataBytes(n) && DataBytes(n) == 2 * n <==> n < 0x8000_0000 - 18
  {
  }

  function Read16(bytes: seq<Byte>, at: nat): nat
    requires at + 2 <= |bytes|
  {
    var b0: nat, b1: nat := bytes[at], bytes[at + 1];
    b0 + 0x100 * b1
  }

  lemma FormatFields(rate: nat)
    requires rate < WORD
    ensures var p := FormatPart(rate);
      && p[..4] == FMT && Read32(p, 4) == 16 && Read16(p, 8) == 1 && Read16(p, 10) == 1 && Read16(p, 22) == 16
      && Read32(p, 12) == rate && Read16(p, 20) == 2 && Read32(p, 16) == (2 * rate) % WORD
  {
    var p := FormatPart(rate);
    Read32Back(rate);
    Read32Back((2 * rate) % WORD);
    assert p[12..16] == LittleEndian32(rate) && p[16..20] == LittleEndian32((2 * rate) % WORD);
    SameRead(p, LittleEndian32(rate), 12);
    SameRead(p, LittleEndian32((2 * rate) % WORD), 16);
    assert p[4] == 16 && p[8] == 1 && p[10] == 1 && p[20] == 2 && p[22] == 16;
  }

  /** A reader finds the four tags, 16-bit mono PCM, the sample rate, and derived fields that match them. */
  lemma HeaderDescribes(samples: nat, sampleRate: nat)
    ensures var h := Header(samples, sampleRate);
      && h[..4] == RIFF && h[8..12] == WAVE && h[12..16] == FMT && h[36..40] == DATA
      && Read32(h, 16) == 16 && Read16(h, 20) == 1 && Read16(h, 22) == 1 && Read16(h, 34) == 16
      && Read32(h, 24) == sampleRate % WORD
      && Read16(h, 32) == Read16(h, 22) * (Read16(h, 34) / 8)
      && Read32(h, 28) == (Read32(h, 24) * Read16(h, 32)) % WORD
  {
    var h, p := Header(samples, sampleRate), FormatPart(sampleRate % WORD);
    HeaderParts(samples, sampleRate);
    FormatFields(sampleRate % WORD);
    assert h[..4] == h[..12][..4] && h[8..12] == h[..12][8..12] && h[36..40] == h[36..44][..4];
    assert h[12..16] == h[12..36][..4];
    assert forall i :: 0 <= i < 24 ==> h[12 + i] == h[12..36][i] == p[i];
    SameHeader(h, p);
  }

  lemma SameHeader(h: seq<Byte>, p: seq<Byte>)
    requires |h| == HEADER_SIZE && |p| == 24 && h[12..36] == p
    ensures Read32(h, 16) == Read32(p, 4) && Read32(h, 24) == Read32(p, 12) && Read32(h, 28) == Read32(p, 16)
    ensures Read16(h, 20) == Read16(p, 8) && Read16(h, 22) == Read16(p, 10)
    ensures Read16(h, 32) == Read16(p, 20) && Read16(h, 34) == Read16(p, 22)
  {
    assert h[16..20] == p[4..8] && h[24..28] == p[12..16] && h[28..32] == p[16..20];
    assert h[20..24] == p[8..12] && h[32..36] == p[20..24];
    assert h[16] == p[4] && h[17] == p[5] && h[18] == p[6] && h[19] == p[7];
    assert h[24] == p[12] && h[25] == p[13] && h[26] == p[14] && h[27] == p[15];
    assert h[28] == p[16] && h[29] == p[17] && h[30] == p[18] && h[31] == p[19];
    assert h[20] == p[8] && h[21] == p[9] && h[22] == p[10] && h[23] == p[11];
    assert h[32] == p[20] && h[33] == p[21] && h[34] == p[22] && h[35] == p[23];
  }

  lemma LittleEndianExamples()
    ensures LittleEndian32(6) == [6, 0, 0, 0] && LittleEndian32(42) == [42, 0, 0, 0]
    ensures LittleEndian32(16) == [16, 0, 0, 0] && LittleEndian32(16000) == [0x80, 0x3E, 0, 0]
    ensures LittleEndian32(32000) == [0, 0x7D, 0, 0]
    ensures LittleEndian16(1) == [1, 0] && LittleEndian16(2) == [2, 0] && LittleEndian16(16) == [16, 0]
  {
  }

  /** The header of three samples at 16 kHz, byte for byte. */
  lemma HeaderExample()
    ensures Header(3, 16000) ==
      [0x52, 0x49, 0x46, 0x46] + [42, 0, 0, 0] + [0x57, 0x41, 0x56, 0x45]
      + ([0x66, 0x6D, 0x74, 0x20] + [16, 0, 0, 0] + ([1, 0] + [1, 0])
         + ([0x80, 0x3E, 0, 0] + [0x00, 0x7D, 0, 0]) + ([2, 0] + [16, 0]))
      + ([0x64, 0x61, 0x74, 0x61] + [6, 0, 0, 0])
  {
    LittleEndianExamples();
    assert RiffSize(3) == 42 && DataBytes(3) == 6;
  }

  /** The samples a reader finds that skips the header and reads pairs of bytes. */
  function AfterHeader(file: seq<Byte>): seq<Sample> {
    if |file| < HEADER_SIZE then [] else Decode(file[HEADER_SIZE..])
  }

  lemma BehindHeader(raw: seq<Sample>, sampleRate: nat)
    ensures AfterHeader(ToWav(raw, sampleRate)) == Decode(DataOf(raw))
  {
    assert ToWav(raw, sampleRate)[HEADER_SIZE..] == DataOf(raw);
  }

  lemma WholeData(samples: nat)
    ensures samples < 0x8000_0000 ==> DataBytes(samples) == 2 * samples
    ensures DataBytes(samples) / 2 < 0x8000_0000
  {
  }

  /** Reading the file back gives the recording exactly below 2^31 samples. */
  lemma RoundTripExact(raw: seq<Sample>, sampleRate: nat)
    ensures AfterHeader(ToWav(raw, sampleRate)) == raw <==> |raw| < 0x8000_0000
  {
    BehindHeader(raw, sampleRate);
    WholeData(|raw|);
    if |raw| < 0x8000_0000 {
      assert DataOf(raw) == Encode(raw);
      DecodeEncode(raw);
    } else {
      assert |AfterHeader(ToWav(raw, sampleRate))| < 0x8000_0000;
    }
  }
}
