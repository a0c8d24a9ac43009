/**
 * The WAV encoder of the offline renderer: a canonical 44-byte RIFF/WAVE
 * header (PCM format, 16 bits per sample) followed by the samples of all
 * channels, interleaved frame by frame, as little-endian 16-bit integers.
 *
 * Samples are exact reals; `|0` on an in-range value is truncation toward zero.
 */
module Wav {

  newtype byte = x: int | 0 <= x < 256

  datatype Option<T> = None | Some(value: T)

  const TwoTo16: int := 0x1_0000
  const TwoTo32: int := 0x1_0000_0000

  // The four-character chunk tags, as the 32-bit constants written little-endian.
  const RiffTag: int := 0x46464952
  const WaveTag: int := 0x45564157
  const FmtTag: int := 0x20746d66
  const DataTag: int := 0x61746164

  const HeaderSize: nat := 44

  // ---- little-endian fields ----

  /** The two bytes DataView.setUint16 writes, little-endian; the value is taken modulo 2^16. */
  function LE16(v: int): (b: seq<byte>)
    ensures |b| == 2
  {
    var u := v % TwoTo16;
    [(u % 256) as byte, (u / 256) as byte]
  }

  /** The four bytes DataView.setUint32 writes, little-endian; the value is taken modulo 2^32. */
  function LE32(v: int): (b: seq<byte>)
    ensures |b| == 4
  {
    var u := v % TwoTo32;
    [(u % 256) as byte, (u / 256 % 256) as byte, (u / 0x1_0000 % 256) as byte, (u / 0x100_0000) as byte]
  }

  /** Reads an unsigned little-endian 16-bit field. */
  function U16At(b: seq<byte>, off: nat): int
    requires off + 2 <= |b|
  {
    b[off] as int + 256 * b[off + 1] as int
  }

  /** Reads an unsigned little-endian 32-bit field. */
  function U32At(b: seq<byte>, off: nat): int
    requires off + 4 <= |b|
  {
    b[off] as int + 0x100 * b[off + 1] as int + 0x1_0000 * b[off + 2] as int + 0x100_0000 * b[off + 3] as int
  }

  /** Reads a signed (two's complement) little-endian 16-bit field. */
  function I16At(b: seq<byte>, off: nat): int
    requires off + 2 <= |b|
  {
    var u := U16At(b, off);
    if u >= 0x8000 then u - TwoTo16 else u
  }

  lemma LE16RoundTrip(v: int)
    ensures U16At(LE16(v), 0) == v % TwoTo16
  {
  }

  lemma LE32RoundTrip(v: int)
    ensures U32At(LE32(v), 0) == v % TwoTo32
  {
    var u := v % TwoTo32;
    var b0, r0 := u % 256, u / 256;
    var b1, r1 := r0 % 256, r0 / 256;
    var b2, b3 := r1 % 256, r1 / 256;
    assert u == b0 + 256 * r0;
    assert r0 == b1 + 256 * r1;
    assert r1 == b2 + 256 * b3;
    assert u / 0x1_0000 == r1;
    assert u / 0x100_0000 == b3;
  }

  /** A value in the signed 16-bit range reads back unchanged. */
  lemma Int16RoundTrip(v: int)
    requires -0x8000 <= v < 0x8000
    ensures I16At(LE16(v), 0) == v
  {
    LE16RoundTrip(v);
  }

  /** The bytes of an ASCII string. */
  function Ascii(s: string): (b: seq<byte>)
    requires forall i :: 0 <= i < |s| ==> s[i] as int < 256
    ensures |b| == |s|
  {
    seq(|s|, i requires 0 <= i < |s| && forall j :: 0 <= j < |s| ==> s[j] as int < 256 => s[i] as int as byte)
  }

  /** The 32-bit tag constants, written little-endian, spell the chunk identifiers. */
  lemma TagsSpellIdentifiers()
    ensures LE32(RiffTag) == Ascii("RIFF")
    ensures LE32(WaveTag) == Ascii("WAVE")
    ensures LE32(FmtTag) == Ascii("fmt ")
    ensures LE32(DataTag) == Ascii("data")
  {
  }

  // ---- sample conversion ----

  /** Truncation toward zero, as `| 0` does for a value in the 32-bit range. */
  function TruncateToInt(x: real): (n: int)
    ensures -1.0 < x - n as real < 1.0
    ensures x >= 0.0 ==> 0 <= n && n as real <= x
    ensures x < 0.0 ==> n <= 0 && x <= n as real
  {
    if x >= 0.0 then x.Floor else -((-x).Floor)
  }

  /**
   * One sample as a 16-bit integer: clamp to [-1, 1], scale, truncate.
   * The test `0.5 + sample < 0` picks the scale 32768 only below -0.5.
   */
  function PcmSample(x: real): (v: int)
    ensures -0x8000 <= v <= 0x7fff
  {
    var clamped := if x > 1.0 then 1.0 else if x < -1.0 then -1.0 else x;
    var scaled := if 0.5 + clamped < 0.0 then clamped * 32768.0 else clamped * 32767.0;
    TruncateToInt(scaled)
  }

  /** Full scale maps to the ends of the 16-bit range, and silence to 0. */
  lemma PcmSampleRails(x: real)
    ensures x >= 1.0 ==> PcmSample(x) == 0x7fff
    ensures x <= -1.0 ==> PcmSample(x) == -0x8000
    ensures x == 0.0 ==> PcmSample(x) == 0
  {
  }

  /**
   * Because `0.5 + sample < 0` is tested instead of `sample < 0`, samples in
   * [-0.5, 0) are scaled by 32767: -0.5 becomes -16383 where scaling every
   * negative sample by 32768 would give -16384.
   */
  lemma PcmSampleScaleQuirk(x: real)
    requires -0.5 <= x < 0.0
    ensures PcmSample(x) == TruncateToInt(x * 32767.0)
    ensures PcmSample(-0.5) == -16383 && TruncateToInt(-0.5 * 32768.0) == -16384
  {
  }

  /** Conversion preserves order. */
  lemma PcmSampleMonotone(x: real, y: real)
    requires x <= y
    ensures PcmSample(x) <= PcmSample(y)
  {
    var cx := if x > 1.0 then 1.0 else if x < -1.0 then -1.0 else x;
    var cy := if y > 1.0 then 1.0 else if y < -1.0 then -1.0 else y;
    assert cx <= cy;
    var sx := if 0.5 + cx < 0.0 then cx * 32768.0 else cx * 32767.0;
    var sy := if 0.5 + cy < 0.0 then cy * 32768.0 else cy * 32767.0;
    assert sx <= sy;
    TruncateMonotone(sx, sy);
  }

  lemma TruncateMonotone(a: real, b: real)
    requires a <= b
    ensures TruncateToInt(a) <= TruncateToInt(b)
  {
    if a >= 0.0 {
    } else if b < 0.0 {
      assert -b <= -a;
      assert (-b).Floor <= (-a).Floor;
    }
  }

  // ---- the audio buffer and the file it becomes ----

  /** A rendered buffer: channel count, frames per channel, sample rate and the samples. */
  datatype AudioBuffer = AudioBuffer(numberOfChannels: nat, length: nat, sampleRate: nat, channelData: seq<seq<real>>)
  {
    /** Every channel holds exactly `length` samples. */
    predicate WellFormed()
    {
      |channelData| == numberOfChannels &&
      forall c :: 0 <= c < |channelData| ==> |channelData[c]| == length
    }
  }

  /** The RIFF container fields: identifier, size of the rest of the file, form type. */
  function RiffFields(length: int): (b: seq<byte>)
    ensures |b| == 12
  {
    LE32(RiffTag) + LE32(length - 8) + LE32(WaveTag)
  }

  /** The "fmt " chunk: 16-bit PCM with the given channel count and sample rate. */
  function FmtChunk(numChannels: int, sampleRate: int): (b: seq<byte>)
    ensures |b| == 24
  {
    LE32(FmtTag) + LE32(16) + LE16(1) + LE16(numChannels) +
    LE32(sampleRate) + LE32(sampleRate * 2 * numChannels) + LE16(numChannels * 2) + LE16(16)
  }

  /** The "data" chunk header: identifier and the number of sample bytes that follow. */
  function DataFields(length: int): (b: seq<byte>)
    ensures |b| == 8
  {
    LE32(DataTag) + LE32(length - HeaderSize)
  }

  /** The 44-byte header for a file of `length` bytes in all. */
  function Header(numChannels: int, sampleRate: int, length: int): (h: seq<byte>)
    ensures |h| == HeaderSize
  {
    RiffFields(length) + FmtChunk(numChannels, sampleRate) + DataFields(length)
  }

  /** Frame f: one sample of each channel, in channel order. */
  function Frame(channels: seq<seq<real>>, f: nat): (frame: seq<real>)
    requires forall c :: 0 <= c < |channels| ==> f < |channels[c]|
    ensures |frame| == |channels|
  {
    seq(|channels|, c requires 0 <= c < |channels| => channels[c][f])
  }

  /** The first n frames, one after the other. */
  function Interleave(channels: seq<seq<real>>, n: nat): seq<real>
    requires forall c :: 0 <= c < |channels| ==> n <= |channels[c]|
  {
    if n == 0 then [] else Interleave(channels, n - 1) + Frame(channels, n - 1)
  }

  /** The samples as consecutive little-endian 16-bit integers. */
  function EncodeSamples(xs: seq<real>): (b: seq<byte>)
  {
    if xs == [] then [] else EncodeSamples(xs[..|xs| - 1]) + LE16(PcmSample(xs[|xs| - 1]))
  }

  /** The whole file for a buffer. */
  function WavBytes(buffer: AudioBuffer): seq<byte>
    requires buffer.WellFormed()
  {
    var length := buffer.length * buffer.numberOfChannels * 2 + HeaderSize;
    Header(buffer.numberOfChannels, buffer.sampleRate, length) +
    EncodeSamples(Interleave(buffer.channelData, buffer.length))
  }

  // ---- the encoder ----

  /** The `setUint16` helper: writes a 16-bit field at the cursor and returns the advanced cursor. */
  method SetUint16(view: array<byte>, pos: nat, data: int) returns (next: nat)
    requires pos + 2 <= view.Length
    modifies view
    ensures next == pos + 2
    ensures view[..next] == old(view[..pos]) + LE16(data)
    ensures forall i :: next <= i < view.Length ==> view[i] == old(view[i])
  {
    var b := LE16(data);
    view[pos] := b[0];
    view[pos + 1] := b[1];
    next := pos + 2;
    assert view[..next] == view[..pos] + b;
  }

  /** The `setUint32` helper: writes a 32-bit field at the cursor and returns the advanced cursor. */
  method SetUint32(view: array<byte>, pos: nat, data: int) returns (next: nat)
    requires pos + 4 <= view.Length
    modifies view
    ensures next == pos + 4
    ensures view[..next] == old(view[..pos]) + LE32(data)
    ensures forall i :: next <= i < view.Length ==> view[i] == old(view[i])
  {
    var b := LE32(data);
    view[pos] := b[0];
    view[pos + 1] := b[1];
    view[pos + 2] := b[2];
    view[pos + 3] := b[3];
    next := pos + 4;
    assert view[..next] == view[..pos] + b;
  }

  /** DataView.setInt16 with little-endian order: the two's-complement bytes of a 16-bit value. */
  method SetInt16(view: array<byte>, pos: nat, value: int)
    requires pos + 2 <= view.Length
    modifies view
    ensures view[..pos + 2] == old(view[..pos]) + LE16(value)
    ensures forall i :: pos + 2 <= i < view.Length ==> view[i] == old(view[i])
  {
    var b := LE16(value);
    view[pos] := b[0];
    view[pos + 1] := b[1];
    assert view[..pos + 2] == view[..pos] + b;
  }

  /** The header part of the encoder: the RIFF, "fmt " and "data" fields, written from offset 0. */
  method WriteHeader(view: array<byte>, numOfChan: int, sampleRate: int, length: int) returns (pos: nat)
    requires view.Length >= HeaderSize
    modifies view
    ensures pos == HeaderSize
    ensures view[..pos] == Header(numOfChan, sampleRate, length)
    ensures forall i :: HeaderSize <= i < view.Length ==> view[i] == old(view[i])
  {
    pos := 0;
    assert view[..pos] == [];
    pos := WriteRiffFields(view, pos, length);
    pos := WriteFmtChunk(view, pos, numOfChan, sampleRate);
    pos := WriteDataFields(view, pos, length);
  }

  /** Writes `RiffFields` at the cursor. */
  method WriteRiffFields(view: array<byte>, pos: nat, length: int) returns (next: nat)
    requires pos + 12 <= view.Length
    modifies view
    ensures next == pos + 12
    ensures view[..next] == old(view[..pos]) + RiffFields(length)
    ensures forall i :: next <= i < view.Length ==> view[i] == old(view[i])
  {
    ghost var prefix := view[..pos];
    next := SetUint32(view, pos, RiffTag);
    next := SetUint32(view, next, length - 8);
    AppendAssoc(prefix, LE32(RiffTag), LE32(length - 8));
    next := SetUint32(view, next, WaveTag);
    AppendAssoc(prefix, LE32(RiffTag) + LE32(length - 8), LE32(WaveTag));
  }

  /** Writes `FmtChunk` at the cursor. */
  method WriteFmtChunk(view: array<byte>, pos: nat, numOfChan: int, sampleRate: int) returns (next: nat)
    requires pos + 24 <= view.Length
    modifies view
    ensures next == pos + 24
    ensures view[..next] == old(view[..pos]) + FmtChunk(numOfChan, sampleRate)
    ensures forall i :: next <= i < view.Length ==> view[i] == old(view[i])
  {
    // `written` is the part of the chunk written so far
    ghost var prefix := view[..pos];
    next := SetUint32(view, pos, FmtTag);
    ghost var written := LE32(FmtTag);
    next := SetUint32(view, next, 16);
    AppendAssoc(prefix, written, LE32(16));
    written := written + LE32(16);
    next := SetUint16(view, next, 1);
    AppendAssoc(prefix, written, LE16(1));
    written := written + LE16(1);
    next := SetUint16(view, next, numOfChan);
    AppendAssoc(prefix, written, LE16(numOfChan));
    written := written + LE16(numOfChan);
    next := SetUint32(view, next, sampleRate);
    AppendAssoc(prefix, written, LE32(sampleRate));
    written := written + LE32(sampleRate);
    next := SetUint32(view, next, sampleRate * 2 * numOfChan);
    AppendAssoc(prefix, written, LE32(sampleRate * 2 * numOfChan));
    written := written + LE32(sampleRate * 2 * numOfChan);
    next := SetUint16(view, next, numOfChan * 2);
    AppendAssoc(prefix, written, LE16(numOfChan * 2));
    written := written + LE16(numOfChan * 2);
    next := SetUint16(view, next, 16);
    AppendAssoc(prefix, written, LE16(16));
  }

  /** Writes `DataFields` at cursor 36, computing the size field from the cursor as the encoder does. */
  method WriteDataFields(view: array<byte>, pos: nat, length: int) returns (next: nat)
    requires pos == HeaderSize - 8 && HeaderSize <= view.Length
    modifies view
    ensures next == HeaderSize
    ensures view[..next] == old(view[..pos]) + DataFields(length)
    ensures forall i :: next <= i < view.Length ==> view[i] == old(view[i])
  {
    ghost var prefix := view[..pos];
    next := SetUint32(view, pos, DataTag);
    next := SetUint32(view, next, length - next - 4);
    AppendAssoc(prefix, LE32(DataTag), LE32(length - HeaderSize));
  }

  /** The inner loop of the encoder: the samples of frame `offset`, channel by channel, from the cursor on. */
  method WriteFrame(view: array<byte>, pos: nat, channels: seq<seq<real>>, offset: nat) returns (next: nat)
    requires forall c :: 0 <= c < |channels| ==> offset < |channels[c]|
    requires pos + 2 * |channels| <= view.Length
    modifies view
    ensures next == pos + 2 * |channels|
    ensures view[..next] == old(view[..pos]) + EncodeSamples(Frame(channels, offset))
    ensures forall i :: next <= i < view.Length ==> view[i] == old(view[i])
  {
    var numOfChan := |channels|;
    ghost var frame := Frame(channels, offset);
    ghost var prefix := view[..pos];
    next := pos;
    var i := 0;
    while i < numOfChan
      invariant 0 <= i <= numOfChan
      invariant next == pos + 2 * i
      invariant view[..next] == prefix + EncodeSamples(frame[..i])
      invariant forall j :: pos + 2 * numOfChan <= j < view.Length ==> view[j] == old(view[j])
    {
      var sample := PcmSample(channels[i][offset]);
      SetInt16(view, next, sample);
      AppendAssoc(prefix, EncodeSamples(frame[..i]), LE16(sample));
      assert frame[..i + 1] == frame[..i] + [channels[i][offset]];
      EncodeSnoc(frame[..i], channels[i][offset]);
      next := next + 2;
      i := i + 1;
    }
    assert frame[..i] == frame;
  }

  /**
   * Serialises a buffer as a WAV file: the header fields through a moving
   * cursor, then every frame's samples in channel order until the cursor
   * reaches the end of the file.
   */
  method AudioBufferToWav(buffer: AudioBuffer) returns (ab: array<byte>)
    requires buffer.WellFormed()
    ensures fresh(ab)
    ensures ab[..] == WavBytes(buffer)
  {
    var numOfChan := buffer.numberOfChannels;
    var length := buffer.length * numOfChan * 2 + HeaderSize;
    ab := new byte[length];
    var view := ab;
    var pos := WriteHeader(view, numOfChan, buffer.sampleRate, length);

    var channels: seq<seq<real>> := [];
    for i := 0 to buffer.numberOfChannels
      invariant channels == buffer.channelData[..i]
    {
      channels := channels + [buffer.channelData[i]];
    }
    assert channels == buffer.channelData;

    pos := WriteSamples(view, pos, channels, buffer.length);
  }

  /**
   * The sample loop of the encoder: frame after frame, from the end of the
   * header until the cursor reaches the end of the file.
   */
  method WriteSamples(view: array<byte>, start: nat, channels: seq<seq<real>>, frames: nat) returns (pos: nat)
    requires forall c :: 0 <= c < |channels| ==> |channels[c]| == frames
    requires start == HeaderSize
    requires view.Length == frames * |channels| * 2 + HeaderSize
    modifies view
    ensures pos == view.Length
    ensures view[..] == old(view[..HeaderSize]) + EncodeSamples(Interleave(channels, frames))
  {
    var numOfChan := |channels|;
    var length := view.Length;
    ghost var header := view[..HeaderSize];
    pos := start;
    var offset := 0;
    while pos < length
      invariant 0 <= offset <= frames
      invariant pos == HeaderSize + 2 * (offset * numOfChan)
      invariant pos <= length
      invariant view[..pos] == header + EncodeSamples(Interleave(channels, offset))
      decreases length - pos
    {
      FrameStep(offset, frames, numOfChan);
      EncodeNextFrame(channels, offset);
      AppendAssoc(header, EncodeSamples(Interleave(channels, offset)), EncodeSamples(Frame(channels, offset)));
      pos := WriteFrame(view, pos, channels, offset);
      offset := offset + 1;
    }
    assert Interleave(channels, offset) == Interleave(channels, frames) by {
      assert offset * numOfChan == frames * numOfChan;
      InterleaveLength(channels, offset);
      InterleaveLength(channels, frames);
      if numOfChan > 0 {
        MulEqCancel(offset, frames, numOfChan);
      }
    }
    assert view[..] == view[..pos];
  }

  // ---- lemmas about the specification ----

  lemma AppendAssoc(a: seq<byte>, b: seq<byte>, c: seq<byte>)
    ensures a + (b + c) == (a + b) + c
  {
  }

  lemma {:induction false} EncodeSnoc(xs: seq<real>, x: real)
    ensures EncodeSamples(xs + [x]) == EncodeSamples(xs) + LE16(PcmSample(x))
  {
    assert (xs + [x])[..|xs|] == xs;
  }

  lemma {:induction false} EncodeAppend(xs: seq<real>, ys: seq<real>)
    ensures EncodeSamples(xs + ys) == EncodeSamples(xs) + EncodeSamples(ys)
  {
    if ys == [] {
      assert xs + ys == xs;
    } else {
      var init := ys[..|ys| - 1];
      assert (xs + ys)[..|xs + ys| - 1] == xs + init;
      EncodeAppend(xs, init);
    }
  }

  lemma {:induction false} EncodeLength(xs: seq<real>)
    ensures |EncodeSamples(xs)| == 2 * |xs|
  {
    if xs != [] {
      EncodeLength(xs[..|xs| - 1]);
    }
  }

  lemma {:induction false} InterleaveLength(channels: seq<seq<real>>, n: nat)
    requires forall c :: 0 <= c < |channels| ==> n <= |channels[c]|
    ensures |Interleave(channels, n)| == n * |channels|
  {
    if n > 0 {
      InterleaveLength(channels, n - 1);
    }
  }

  lemma MulLessCancel(a: nat, b: nat, c: nat)
    requires a * c < b * c
    ensures a < b && c > 0
  {
    if a >= b {
      MulLeMono(b, a, c);
    }
  }

  /** The loop guard's arithmetic: another frame is due, and it fits in the file. */
  lemma FrameStep(offset: nat, frames: nat, numOfChan: nat)
    requires HeaderSize + 2 * (offset * numOfChan) < frames * numOfChan * 2 + HeaderSize
    ensures offset < frames && numOfChan > 0
    ensures HeaderSize + 2 * (offset * numOfChan) + 2 * numOfChan == HeaderSize + 2 * ((offset + 1) * numOfChan)
    ensures HeaderSize + 2 * ((offset + 1) * numOfChan) <= frames * numOfChan * 2 + HeaderSize
  {
    MulLessCancel(offset, frames, numOfChan);
    MulLeMono(offset + 1, frames, numOfChan);
  }

  lemma EncodeNextFrame(channels: seq<seq<real>>, k: nat)
    requires forall c :: 0 <= c < |channels| ==> k < |channels[c]|
    ensures EncodeSamples(Interleave(channels, k + 1)) == EncodeSamples(Interleave(channels, k)) + EncodeSamples(Frame(channels, k))
  {
    EncodeAppend(Interleave(channels, k), Frame(channels, k));
  }

  lemma MulEqCancel(a: nat, b: nat, c: nat)
    requires a * c == b * c && c > 0
    ensures a == b
  {
    if a < b {
      MulLessMono(a, b, c);
    } else if b < a {
      MulLessMono(b, a, c);
    }
  }

  lemma MulLessMono(a: nat, b: nat, c: nat)
    requires a < b && c > 0
    ensures a * c < b * c
  {
  }

  lemma MulLeMono(a: nat, b: nat, c: nat)
    requires a <= b
    ensures a * c <= b * c
  {
  }

  // ---- layout of the produced file ----

  /** The file is the 44-byte header plus two bytes per sample of every channel. */
  lemma WavLength(buffer: AudioBuffer)
    requires buffer.WellFormed()
    ensures |WavBytes(buffer)| == HeaderSize + buffer.length * buffer.numberOfChannels * 2
  {
    InterleaveLength(buffer.channelData, buffer.length);
    EncodeLength(Interleave(buffer.channelData, buffer.length));
  }

  /** The fields of the header, at their offsets. */
  lemma HeaderFields(numChannels: int, sampleRate: int, length: int)
    ensures var h := Header(numChannels, sampleRate, length);
      && h[0..4] == Ascii("RIFF")
      && U32At(h, 4) == (length - 8) % TwoTo32
      && h[8..12] == Ascii("WAVE")
      && h[12..16] == Ascii("fmt ")
      && U32At(h, 16) == 16
      && U16At(h, 20) == 1
      && U16At(h, 22) == numChannels % TwoTo16
      && U32At(h, 24) == sampleRate % TwoTo32
      && U32At(h, 28) == (sampleRate * 2 * numChannels) % TwoTo32
      && U16At(h, 32) == (numChannels * 2) % TwoTo16
      && U16At(h, 34) == 16
      && h[36..40] == Ascii("data")
      && U32At(h, 40) == (length - HeaderSize) % TwoTo32
  {
    var h := Header(numChannels, sampleRate, length);
    TagsSpellIdentifiers();
    LE32RoundTrip(length - 8);
    LE32RoundTrip(16);
    LE16RoundTrip(1);
    LE16RoundTrip(numChannels);
    LE32RoundTrip(sampleRate);
    LE32RoundTrip(sampleRate * 2 * numChannels);
    LE16RoundTrip(numChannels * 2);
    LE16RoundTrip(16);
    LE32RoundTrip(length - HeaderSize);
    assert h[0..4] == LE32(RiffTag);
    assert h[8..12] == LE32(WaveTag);
    assert h[12..16] == LE32(FmtTag);
    assert h[36..40] == LE32(DataTag);
  }

  /**
   * The header of the produced file: the chunk identifiers, a RIFF size of
   * length - 8, the PCM format fields and a data size of length - 44.
   */
  lemma WavHeaderFields(buffer: AudioBuffer)
    requires buffer.WellFormed()
    ensures var b := WavBytes(buffer);
      var numChannels := buffer.numberOfChannels;
      && |b| >= HeaderSize
      && b[0..4] == Ascii("RIFF")
      && U32At(b, 4) == (|b| - 8) % TwoTo32
      && b[8..12] == Ascii("WAVE")
      && b[12..16] == Ascii("fmt ")
      && U32At(b, 16) == 16
      && U16At(b, 20) == 1
      && U16At(b, 22) == numChannels % TwoTo16
      && U32At(b, 24) == buffer.sampleRate % TwoTo32
      && U32At(b, 28) == (buffer.sampleRate * 2 * numChannels) % TwoTo32
      && U16At(b, 32) == (numChannels * 2) % TwoTo16
      && U16At(b, 34) == 16
      && b[36..40] == Ascii("data")
      && U32At(b, 40) == (|b| - HeaderSize) % TwoTo32
  {
    var b := WavBytes(buffer);
    var length := buffer.length * buffer.numberOfChannels * 2 + HeaderSize;
    var h := Header(buffer.numberOfChannels, buffer.sampleRate, length);
    WavLength(buffer);
    HeaderFields(buffer.numberOfChannels, buffer.sampleRate, length);
    assert b[..HeaderSize] == h;
  }

  /** Sample k of a sequence is encoded at bytes 2k and 2k + 1. */
  lemma {:induction false} EncodeAt(xs: seq<real>, k: nat)
    requires k < |xs|
    ensures |EncodeSamples(xs)| == 2 * |xs|
    ensures EncodeSamples(xs)[2 * k..2 * k + 2] == LE16(PcmSample(xs[k]))
  {
    var init := xs[..|xs| - 1];
    EncodeLength(xs);
    EncodeLength(init);
    if k < |xs| - 1 {
      EncodeAt(init, k);
    }
  }

  /** Frame f, channel c sits at position f * channels + c of the interleaved samples. */
  lemma {:induction false} InterleaveAt(channels: seq<seq<real>>, n: nat, f: nat, c: nat)
    requires forall c' :: 0 <= c' < |channels| ==> n <= |channels[c']|
    requires f < n && c < |channels|
    ensures |Interleave(channels, n)| == n * |channels|
    ensures f * |channels| + c < n * |channels|
    ensures Interleave(channels, n)[f * |channels| + c] == channels[c][f]
  {
    var m := |channels|;
    InterleaveLength(channels, n);
    InterleaveLength(channels, n - 1);
    assert (n - 1) * m + m == n * m;
    if f < n - 1 {
      InterleaveAt(channels, n - 1, f, c);
    } else {
      assert f * m + c - (n - 1) * m == c;
    }
  }

  /**
   * Interleaving: the sample of channel c at frame f is the little-endian
   * 16-bit value of its conversion, at byte 44 + 2 (f * channels + c).
   */
  lemma WavSampleAt(buffer: AudioBuffer, f: nat, c: nat)
    requires buffer.WellFormed()
    requires f < buffer.length && c < buffer.numberOfChannels
    ensures HeaderSize + 2 * (f * buffer.numberOfChannels + c) + 2 <= |WavBytes(buffer)|
    ensures I16At(WavBytes(buffer), HeaderSize + 2 * (f * buffer.numberOfChannels + c)) == PcmSample(buffer.channelData[c][f])
  {
    var xs := Interleave(buffer.channelData, buffer.length);
    var k := f * buffer.numberOfChannels + c;
    InterleaveAt(buffer.channelData, buffer.length, f, c);
    EncodeAt(xs, k);
    var e := EncodeSamples(xs);
    var v := PcmSample(xs[k]);
    Int16RoundTrip(v);
    assert I16At(e, 2 * k) == v by {
      assert e[2 * k] == LE16(v)[0] && e[2 * k + 1] == LE16(v)[1];
    }
    ReadAfterHeader(Header(buffer.numberOfChannels, buffer.sampleRate, buffer.length * buffer.numberOfChannels * 2 + HeaderSize), e, 2 * k);
  }

  /** A field of the data chunk is read at its offset plus the header size. */
  lemma ReadAfterHeader(h: seq<byte>, e: seq<byte>, j: nat)
    requires |h| == HeaderSize && j + 2 <= |e|
    ensures I16At(h + e, HeaderSize + j) == I16At(e, j)
  {
    assert (h + e)[HeaderSize + j] == e[j];
    assert (h + e)[HeaderSize + j + 1] == e[j + 1];
  }

  /** Silence (for instance a gain of 0) encodes to a data chunk of zero bytes. */
  lemma {:induction false} SilenceEncodesToZeros(xs: seq<real>)
    requires forall i :: 0 <= i < |xs| ==> xs[i] == 0.0
    ensures forall k :: 0 <= k < |EncodeSamples(xs)| ==> EncodeSamples(xs)[k] == 0
  {
    if xs != [] {
      var init := xs[..|xs| - 1];
      SilenceEncodesToZeros(init);
      PcmSampleRails(xs[|xs| - 1]);
      var a, b := EncodeSamples(init), LE16(PcmSample(xs[|xs| - 1]));
      assert b == [0, 0];
      assert EncodeSamples(xs) == a + b;
      forall k | 0 <= k < |a + b|
        ensures (a + b)[k] == 0
      {
        if k < |a| {
          assert (a + b)[k] == a[k];
        } else {
          assert (a + b)[k] == b[k - |a|];
        }
      }
    }
  }

  // ---- reading the header back ----

  /** What a WAV header says about its file. */
  datatype WavInfo = WavInfo(numChannels: nat, sampleRate: nat, dataSize: nat)

  /**
   * Reads a canonical 16-bit PCM header: the identifiers, sizes that agree
   * with the byte count, and format fields that agree with each other.
   */
  function ParseHeader(b: seq<byte>): (r: Option<WavInfo>)
    ensures r.Some? ==> |b| == HeaderSize + r.value.dataSize
    ensures r.Some? ==> r.value.numChannels < TwoTo16 && r.value.sampleRate < TwoTo32
  {
    if |b| < HeaderSize then None
    else if b[0..4] != Ascii("RIFF") || U32At(b, 4) != |b| - 8 || b[8..12] != Ascii("WAVE") then None
    else if b[12..16] != Ascii("fmt ") || U32At(b, 16) != 16 || U16At(b, 20) != 1 || U16At(b, 34) != 16 then None
    else if b[36..40] != Ascii("data") || U32At(b, 40) != |b| - HeaderSize then None
    else
      var numChannels := U16At(b, 22);
      var sampleRate := U32At(b, 24);
      if U32At(b, 28) != sampleRate * 2 * numChannels || U16At(b, 32) != numChannels * 2 then None
      else Some(WavInfo(numChannels, sampleRate, U32At(b, 40)))
  }

  /**
   * Header round trip: parsing the produced file gives back the channel
   * count, the sample rate and 2 bytes per sample of data, as long as every
   * field fits its width.
   */
  lemma HeaderRoundTrip(buffer: AudioBuffer)
    requires buffer.WellFormed()
    requires buffer.numberOfChannels * 2 < TwoTo16
    requires buffer.sampleRate < TwoTo32
    requires buffer.sampleRate * 2 * buffer.numberOfChannels < TwoTo32
    requires HeaderSize + buffer.length * buffer.numberOfChannels * 2 < TwoTo32
    ensures ParseHeader(WavBytes(buffer)) ==
            Some(WavInfo(buffer.numberOfChannels, buffer.sampleRate, buffer.length * buffer.numberOfChannels * 2))
  {
    var b := WavBytes(buffer);
    var c, r := buffer.numberOfChannels, buffer.sampleRate;
    var dataSize := buffer.length * c * 2;
    WavLength(buffer);
    WavHeaderFields(buffer);
    assert |b| == HeaderSize + dataSize;
    ModSmall(|b| - 8, TwoTo32);
    ModSmall(dataSize, TwoTo32);
    ModSmall(c, TwoTo16);
    ModSmall(c * 2, TwoTo16);
    ModSmall(r, TwoTo32);
    MulNonNeg(r * 2, c);
    ModSmall(r * 2 * c, TwoTo32);
    assert U16At(b, 22) == c && U32At(b, 24) == r;
    assert U32At(b, 28) == r * 2 * c && U16At(b, 32) == c * 2;
    assert U32At(b, 40) == dataSize;
  }

  lemma MulNonNeg(a: nat, b: nat)
    ensures a * b >= 0
  {
  }

  lemma ModSmall(x: int, m: int)
    requires 0 <= x < m
    ensures x % m == x
  {
  }
}
