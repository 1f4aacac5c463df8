/** The RIFF/WAVE writer for 16 kHz mono recordings and the chunk-walking reader for what speech
    providers send back. */
module Wav {
  import Text

  type Byte = Text.Byte

  const WORD32 := 0x1_0000_0000

  const RIFF: seq<Byte> := [82, 73, 70, 70]
  const WAVE: seq<Byte> := [87, 65, 86, 69]
  const FMT: seq<Byte> := [102, 109, 116, 32]
  const DATA: seq<Byte> := [100, 97, 116, 97]

  // ── Little-endian words ───────────────────────────────────────────

  function U16(t: seq<Byte>, i: nat): (v: nat)
    requires i + 2 <= |t|
    ensures v < 65536
  {
    t[i] as int + 256 * t[i + 1] as int
  }

  function U32(t: seq<Byte>, i: nat): (v: nat)
    requires i + 4 <= |t|
    ensures v < WORD32
  {
    U16(t, i) + 65536 * U16(t, i + 2)
  }

  function Le16(v: nat): (r: seq<Byte>)
    requires v < 65536
    ensures |r| == 2 && U16(r, 0) == v
  {
    [v % 256, v / 256]
  }

  function Le32(v: nat): (r: seq<Byte>)
    requires v < WORD32
    ensures |r| == 4 && U32(r, 0) == v
  {
    Le16(v % 65536) + Le16(v / 65536)
  }

  /** Two's complement: the signed value of an unsigned one of `width` values. */
  function Signed(v: nat, width: nat): int
    requires v < width
  {
    if v < width / 2 then v else v - width
  }

  // ── Writer ────────────────────────────────────────────────────────

  function Clamp(f: real): real { if f < -1.0 then -1.0 else if f > 1.0 then 1.0 else f }

  /** Nearest integer, halves away from zero. */
  function Round(r: real): int { if r >= 0.0 then (r + 0.5).Floor else -((0.5 - r).Floor) }

  function Quantise(f: real): (q: int)
    ensures -32767 <= q <= 32767
  {
    Round(Clamp(f) * 32767.0)
  }

  function Quantised(x: seq<real>): (q: seq<int>)
    ensures |q| == |x|
  {
    seq(|x|, i requires 0 <= i < |x| => Quantise(x[i]))
  }

  function SampleBytes(q: seq<int>): (b: seq<Byte>)
    ensures |b| == 2 * |q|
  {
    if q == [] then [] else Le16(q[0] % 65536) + SampleBytes(q[1..])
  }

  /** The 32-bit size field of the data chunk. */
  function DataSize(n: nat): (s: nat)
    ensures s < WORD32
  {
    2 * n % WORD32
  }

  function RiffHeader(size: nat): (h: seq<Byte>)
    ensures |h| == 12 && h[..4] == RIFF && h[8..12] == WAVE
  {
    RIFF + Le32(size % WORD32) + WAVE
  }

  function FmtBody(): (b: seq<Byte>)
    ensures |b| == 16
    ensures U16(b, 0) == 1 && U16(b, 2) == 1 && U32(b, 4) == 16000 && U16(b, 14) == 16
  {
    Le16(1) + Le16(1) + Le32(16000) + Le32(32000) + Le16(2) + Le16(16)
  }

  function FmtChunk(): (c: seq<Byte>)
    ensures |c| == 24
  {
    FMT + Le32(16) + FmtBody()
  }

  function DataChunk(x: seq<real>): (c: seq<Byte>)
    ensures |c| == 8 + 2 * |x|
  {
    DATA + Le32(DataSize(|x|)) + SampleBytes(Quantised(x))
  }

  function EncodeWav(x: seq<real>): seq<Byte> { RiffHeader(36 + DataSize(|x|)) + FmtChunk() + DataChunk(x) }

  lemma {:induction false} SampleBytesAppend(q: seq<int>, v: int)
    ensures SampleBytes(q + [v]) == SampleBytes(q) + Le16(v % 65536)
  {
    if q == [] {
      assert q + [v] == [v] && [v][1..] == [];
    } else {
      assert (q + [v])[0] == q[0] && (q + [v])[1..] == q[1..] + [v];
      SampleBytesAppend(q[1..], v);
    }
  }

  method WriteHeader(dataBytes: nat) returns (wav: seq<Byte>)
    requires dataBytes < WORD32
    ensures wav == RiffHeader(36 + dataBytes) + FmtChunk() + (DATA + Le32(dataBytes))
  {
    hide Le16, Le32;
    wav := RIFF + Le32((36 + dataBytes) % WORD32) + WAVE;
    wav := wav + FMT + Le32(16) + Le16(1) + Le16(1) + Le32(16000) + Le32(32000) + Le16(2) + Le16(16);
    wav := wav + DATA + Le32(dataBytes);
  }

  method PcmFloat32ToWav(x: seq<real>) returns (wav: seq<Byte>)
    ensures wav == EncodeWav(x)
  {
    hide Quantise, Quantised, SampleBytes, DataSize, RiffHeader, FmtChunk, Le32, Le16;
    var dataBytes := DataSize(|x|);
    wav := WriteHeader(dataBytes);
    ghost var head := wav;
    var i := 0;
    NoSampleBytes();
    while i < |x|
      invariant 0 <= i <= |x|
      invariant wav == head + SampleBytes(Quantised(x)[..i])
    {
      var q := Quantise(x[i]);
      QuantisedAt(x, i);
      assert Quantised(x)[..i + 1] == Quantised(x)[..i] + [q];
      SampleBytesAppend(Quantised(x)[..i], q);
      LowAndHigh(q);
      wav := wav + [q % 256, q / 256 % 256];
      i := i + 1;
    }
    assert Quantised(x)[..i] == Quantised(x);
  }

  lemma QuantisedAt(x: seq<real>, i: nat)
    requires i < |x|
    ensures Quantised(x)[i] == Quantise(x[i])
  {
  }

  lemma NoSampleBytes()
    ensures SampleBytes([]) == []
  {
  }

  /** The low byte and the arithmetically shifted high byte of a sample. */
  lemma LowAndHigh(q: int)
    ensures Le16(q % 65536) == [q % 256, q / 256 % 256]
  {
    var h, l := q / 256, q % 256;
    assert q == 65536 * (h / 256) + 256 * (h % 256) + l;
    assert q % 65536 == 256 * (h % 256) + l;
  }

  // ── Reader ────────────────────────────────────────────────────────

  /** What the last usable fmt chunk said; `tag` is the format with the extensible wrapper removed. */
  datatype Format = Format(known: bool, tag: nat, channels: nat, rate: nat, bits: nat)

  const NO_FORMAT := Format(false, 0, 0, 0, 0)

  datatype Decoded = Decoded(samples: seq<int>, rate: nat)

  const NOTHING := Decoded([], 0)

  predicate IsPcm(f: Format) { f.tag == 1 && (f.bits == 8 || f.bits == 16 || f.bits == 24 || f.bits == 32) }

  predicate IsFloat(f: Format) { f.tag == 3 && f.bits == 32 }

  predicate Supported(f: Format) { (IsPcm(f) || IsFloat(f)) && 1 <= f.channels <= 8 }

  function FrameSize(f: Format): (n: nat)
    ensures Supported(f) ==> n >= 1
  {
    f.channels * (f.bits / 8)
  }

  /** One sample of one channel, scaled to 16 bits. */
  function ChannelSample(t: seq<Byte>, i: nat, bits: nat): (s: int)
    requires bits == 8 || bits == 16 || bits == 24 || bits == 32
    requires i + bits / 8 <= |t|
    ensures -32768 <= s <= 32767
  {
    if bits == 8 then (t[i] as int - 128) * 256
    else if bits == 16 then Signed(U16(t, i), 65536)
    else if bits == 24 then Signed(U16(t, i) + 65536 * t[i + 2] as int, 16777216) / 256
    else Signed(U32(t, i), WORD32) / 65536
  }

  function ChannelSum(t: seq<Byte>, i: nat, bits: nat, channels: nat): (s: int)
    requires bits == 8 || bits == 16 || bits == 24 || bits == 32
    requires i + channels * (bits / 8) <= |t|
    ensures -32768 * channels <= s <= 32767 * channels
  {
    if channels == 0 then 0
    else
      assert i + (channels - 1) * (bits / 8) + bits / 8 == i + channels * (bits / 8);
      ChannelSum(t, i, bits, channels - 1) + ChannelSample(t, i + (channels - 1) * (bits / 8), bits)
  }

  /** Division as the source does it, towards zero. */
  function Quotient(a: int, n: int): int
    requires n > 0
  {
    if a >= 0 then a / n else -(-a / n)
  }

  lemma QuotientInRange(a: int, n: int)
    requires n > 0 && -32768 * n <= a <= 32767 * n
    ensures -32768 <= Quotient(a, n) <= 32767
  {
    var k := Quotient(a, n);
    if a >= 0 { assert a / n * n <= a; } else { assert -a / n * n <= -a; }
  }

  /** The plain average of the channels: no clamping. */
  function Downmix(t: seq<Byte>, i: nat, f: Format): int
    requires IsPcm(f) && f.channels > 0 && i + FrameSize(f) <= |t|
  {
    Quotient(ChannelSum(t, i, f.bits, f.channels), f.channels)
  }

  /** `floatFrame` decodes an IEEE-754 frame. */
  function DecodeFrame(floatFrame: (seq<Byte>, nat) -> int, t: seq<Byte>, i: nat, f: Format): int
    requires Supported(f) && i + FrameSize(f) <= |t|
  {
    if IsFloat(f) then floatFrame(t[i..i + FrameSize(f)], f.channels) else Downmix(t, i, f)
  }

  function Frames(floatFrame: (seq<Byte>, nat) -> int, body: seq<Byte>, f: Format): seq<int>
    requires Supported(f)
  {
    if |body| < FrameSize(f) then []
    else [DecodeFrame(floatFrame, body, 0, f)] + Frames(floatFrame, body[FrameSize(f)..], f)
  }

  function Prefix(t: seq<Byte>, n: nat): (p: seq<Byte>)
    ensures |p| <= n && |p| <= |t|
  {
    if n <= |t| then t[..n] else t
  }

  function Rest(t: seq<Byte>, n: nat): (r: seq<Byte>)
    ensures n > 0 && t != [] ==> |r| < |t|
  {
    if n <= |t| then t[n..] else []
  }

  predicate UsableFmt(t: seq<Byte>): (usable: bool)
    requires |t| >= 8
    ensures usable ==> |t| >= 24
  {
    t[..4] == FMT && U32(t, 4) >= 16 && |t| >= 24
  }

  function ReadFmt(t: seq<Byte>): Format
    requires |t| >= 24
  {
    var tag := U16(t, 8);
    var extensible := tag == 0xFFFE && U32(t, 4) >= 40 && 8 + 26 <= |t|;
    Format(true, if extensible then U16(t, 32) else tag, U16(t, 10), U32(t, 12), U16(t, 22))
  }

  /** Bytes from one chunk to the next: header, body, and a pad byte after an odd body. */
  function ChunkLen(t: seq<Byte>): (n: nat)
    requires |t| >= 8
    ensures n >= 8
  {
    8 + U32(t, 4) + U32(t, 4) % 2
  }

  /** The chunk walk over what is left of the file. */
  function Walk(floatFrame: (seq<Byte>, nat) -> int, t: seq<Byte>, f: Format): Decoded
    decreases |t|
  {
    if |t| < 8 then NOTHING
    else if UsableFmt(t) then Walk(floatFrame, Rest(t, ChunkLen(t)), ReadFmt(t))
    else if t[..4] == DATA && f.known then
      if Supported(f) then Decoded(Frames(floatFrame, Prefix(t[8..], U32(t, 4)), f), f.rate) else NOTHING
    else Walk(floatFrame, Rest(t, ChunkLen(t)), f)
  }

  predicate IsWave(w: seq<Byte>) { |w| >= 44 && w[..4] == RIFF && w[8..12] == WAVE }

  function DecodeWav(floatFrame: (seq<Byte>, nat) -> int, w: seq<Byte>): Decoded {
    if IsWave(w) then Walk(floatFrame, w[12..], NO_FORMAT) else NOTHING
  }

  function ClampToI16(v: int): int { if v > 32767 then 32767 else if v < -32768 then -32768 else v }

  /** The clamp after the downmix never fires for integer samples. */
  method DecodePcmSample(t: seq<Byte>, p: nat, f: Format) returns (s: int)
    requires IsPcm(f) && f.channels > 0 && p + FrameSize(f) <= |t|
    ensures s == Downmix(t, p, f)
  {
    hide ChannelSample;
    var size := f.bits / 8;
    var acc, c := 0, 0;
    while c < f.channels
      invariant 0 <= c <= f.channels && p + c * size <= |t|
      invariant acc == ChannelSum(t, p, f.bits, c)
    {
      ChannelFits(p, c, f.channels, size, |t|);
      acc := acc + ChannelSample(t, p + c * size, f.bits);
      c := c + 1;
    }
    QuotientInRange(acc, f.channels);
    s := ClampToI16(Quotient(acc, f.channels));
  }

  lemma ChannelFits(p: nat, c: nat, channels: nat, size: nat, n: nat)
    requires c < channels && p + channels * size <= n
    ensures p + c * size + size == p + (c + 1) * size <= n
  {
    assert channels * size == (c + 1) * size + (channels - c - 1) * size;
  }

  /** The frame loop over one data chunk. */
  method DecodeFrames(floatFrame: (seq<Byte>, nat) -> int, t: seq<Byte>, f: Format) returns (out: seq<int>)
    requires Supported(f)
    ensures out == Frames(floatFrame, t, f)
  {
    hide Frames, DecodeFrame, Downmix, FrameSize;
    var size := FrameSize(f);
    out := [];
    var at := 0;
    assert t[0..] == t && out + Frames(floatFrame, t, f) == Frames(floatFrame, t, f);
    while at + size <= |t|
      invariant 0 <= at <= |t|
      invariant out + Frames(floatFrame, t[at..], f) == Frames(floatFrame, t, f)
      decreases |t| - at
    {
      FrameStep(floatFrame, t, at, f, out);
      var s := 0;
      if IsFloat(f) {
        s := floatFrame(t[at..at + size], f.channels);
      } else {
        s := DecodePcmSample(t, at, f);
      }
      FrameIs(floatFrame, t, at, f);
      out := out + [s];
      at := at + size;
    }
    FramesEnd(floatFrame, t[at..], f);
  }

  lemma FrameIs(floatFrame: (seq<Byte>, nat) -> int, t: seq<Byte>, at: nat, f: Format)
    requires Supported(f) && at + FrameSize(f) <= |t|
    ensures DecodeFrame(floatFrame, t, at, f) ==
      if IsFloat(f) then floatFrame(t[at..at + FrameSize(f)], f.channels) else Downmix(t, at, f)
  {
    hide Downmix;
  }

  lemma FramesEnd(floatFrame: (seq<Byte>, nat) -> int, t: seq<Byte>, f: Format)
    requires Supported(f) && |t| < FrameSize(f)
    ensures Frames(floatFrame, t, f) == []
  {
  }

  lemma ChannelSampleShift(t: seq<Byte>, at: nat, i: nat, bits: nat)
    requires bits == 8 || bits == 16 || bits == 24 || bits == 32
    requires at + i + bits / 8 <= |t|
    ensures ChannelSample(t, at + i, bits) == ChannelSample(t[at..], i, bits)
  {
    hide Signed;
    assert forall k :: i <= k < i + bits / 8 ==> t[at..][k] == t[at + k];
  }

  lemma {:induction false} ChannelSumShift(t: seq<Byte>, at: nat, bits: nat, channels: nat)
    requires bits == 8 || bits == 16 || bits == 24 || bits == 32
    requires at + channels * (bits / 8) <= |t|
    ensures ChannelSum(t, at, bits, channels) == ChannelSum(t[at..], 0, bits, channels)
  {
    hide ChannelSample;
    if channels > 0 {
      ChannelFits(at, channels - 1, channels, bits / 8, |t|);
      ChannelSumShift(t, at, bits, channels - 1);
      ChannelSampleShift(t, at, (channels - 1) * (bits / 8), bits);
    }
  }

  lemma FrameShift(floatFrame: (seq<Byte>, nat) -> int, t: seq<Byte>, at: nat, f: Format)
    requires Supported(f) && at + FrameSize(f) <= |t|
    ensures DecodeFrame(floatFrame, t[at..], 0, f) == DecodeFrame(floatFrame, t, at, f)
  {
    hide ChannelSum;
    assert t[at..][0..FrameSize(f)] == t[at..at + FrameSize(f)];
    if IsPcm(f) { ChannelSumShift(t, at, f.bits, f.channels); }
  }

  lemma FrameStep(floatFrame: (seq<Byte>, nat) -> int, t: seq<Byte>, at: nat, f: Format, done: seq<int>)
    requires Supported(f) && at + FrameSize(f) <= |t|
    ensures done + Frames(floatFrame, t[at..], f)
      == (done + [DecodeFrame(floatFrame, t, at, f)]) + Frames(floatFrame, t[at + FrameSize(f)..], f)
  {
    hide DecodeFrame, FrameSize;
    FrameShift(floatFrame, t, at, f);
    assert t[at..][FrameSize(f)..] == t[at + FrameSize(f)..];
  }

  lemma WalkStep(floatFrame: (seq<Byte>, nat) -> int, w: seq<Byte>, pos: nat, f: Format)
    requires pos + 8 <= |w|
    ensures var t := w[pos..];
      var next := Rest(w, pos + ChunkLen(t));
      Walk(floatFrame, t, f) ==
        if UsableFmt(t) then Walk(floatFrame, next, ReadFmt(t))
        else if t[..4] == DATA && f.known then
          (if Supported(f) then Decoded(Frames(floatFrame, Prefix(t[8..], U32(t, 4)), f), f.rate) else NOTHING)
        else Walk(floatFrame, next, f)
  {
    hide UsableFmt, ReadFmt, Frames, Supported, Prefix, U32;
    var t := w[pos..];
    assert Rest(t, ChunkLen(t)) == Rest(w, pos + ChunkLen(t));
  }

  lemma WalkEnds(floatFrame: (seq<Byte>, nat) -> int, t: seq<Byte>, f: Format)
    requires |t| < 8
    ensures Walk(floatFrame, t, f) == NOTHING
  {
  }

  /** The reader.  It stops on every input, and no read leaves the buffer. */
  method WavToPcmInt16(floatFrame: (seq<Byte>, nat) -> int, w: seq<Byte>) returns (d: Decoded)
    ensures d == DecodeWav(floatFrame, w)
  {
    hide Walk, UsableFmt, ReadFmt, Frames, Supported, Prefix;
    if !IsWave(w) { return NOTHING; }
    var pos, f := 12, NO_FORMAT;
    while pos + 8 <= |w|
      invariant Walk(floatFrame, Rest(w, pos), f) == Walk(floatFrame, w[12..], NO_FORMAT)
      decreases |w| - pos
    {
      var t := w[pos..];
      WalkStep(floatFrame, w, pos, f);
      if UsableFmt(t) {
        f := ReadFmtChunk(t);
      } else if t[..4] == DATA && f.known {
        if !Supported(f) { return NOTHING; }
        var out := DecodeFrames(floatFrame, Prefix(t[8..], U32(t, 4)), f);
        return Decoded(out, f.rate);
      }
      pos := pos + ChunkLen(t);
    }
    WalkEnds(floatFrame, Rest(w, pos), f);
    d := NOTHING;
  }

  method ReadFmtChunk(t: seq<Byte>) returns (f: Format)
    requires |t| >= 24
    ensures f == ReadFmt(t)
  {
    var format, channels, rate, bits := U16(t, 8), U16(t, 10), U32(t, 12), U16(t, 22);
    var actual := format;
    if format == 0xFFFE && U32(t, 4) >= 40 && 34 <= |t| { actual := U16(t, 32); }
    f := Format(true, actual, channels, rate, bits);
  }

  // ── Foreign chunks ────────────────────────────────────────────────

  datatype Chunk = Chunk(id: seq<Byte>, body: seq<Byte>)

  predicate Foreign(c: Chunk) { |c.id| == 4 && c.id != FMT && c.id != DATA && |c.body| < WORD32 }

  function ChunkBytes(c: Chunk): seq<Byte>
    requires Foreign(c)
  {
    c.id + Le32(|c.body|) + c.body + if |c.body| % 2 == 1 then [0] else []
  }

  function AllBytes(cs: seq<Chunk>): seq<Byte>
    requires forall i :: 0 <= i < |cs| ==> Foreign(cs[i])
  {
    if cs == [] then [] else ChunkBytes(cs[0]) + AllBytes(cs[1..])
  }

  lemma SkipForeign(floatFrame: (seq<Byte>, nat) -> int, c: Chunk, t: seq<Byte>, f: Format)
    requires Foreign(c)
    ensures Walk(floatFrame, ChunkBytes(c) + t, f) == Walk(floatFrame, t, f)
  {
    hide Frames, ReadFmt, Supported, Prefix, U32, Le32;
    var s := ChunkBytes(c) + t;
    assert s[..4] == c.id;
    assert s[4..8] == Le32(|c.body|);
    SliceU32(s, 4);
    assert Rest(s, |ChunkBytes(c)|) == t;
  }

  lemma SliceU32(s: seq<Byte>, i: nat)
    requires i + 4 <= |s|
    ensures U32(s, i) == U32(s[i..i + 4], 0)
  {
  }

  lemma {:induction false} SkipAllForeign(floatFrame: (seq<Byte>, nat) -> int, cs: seq<Chunk>, t: seq<Byte>, f: Format)
    requires forall i :: 0 <= i < |cs| ==> Foreign(cs[i])
    ensures Walk(floatFrame, AllBytes(cs) + t, f) == Walk(floatFrame, t, f)
  {
    hide Walk, Foreign, ChunkBytes;
    if cs == [] {
      assert AllBytes(cs) + t == t;
    } else {
      SkipForeign(floatFrame, cs[0], AllBytes(cs[1..]) + t, f);
      SkipAllForeign(floatFrame, cs[1..], t, f);
      assert AllBytes(cs) + t == ChunkBytes(cs[0]) + (AllBytes(cs[1..]) + t);
    }
  }

  // ── Round trip ────────────────────────────────────────────────────

  const MONO16 := Format(true, 1, 1, 16000, 16)

  lemma FmtIsRead(floatFrame: (seq<Byte>, nat) -> int, t: seq<Byte>, f: Format)
    ensures Walk(floatFrame, FmtChunk() + t, f) == Walk(floatFrame, t, MONO16)
  {
    hide Frames, Supported, Prefix, FmtBody, Le32, Le16, U32, U16;
    var s := FmtChunk() + t;
    assert s[..4] == FMT && s[4..8] == Le32(16) && s[8..24] == FmtBody();
    SliceU32(s, 4);
    FmtFields(s, 8);
    assert Rest(s, 24) == t;
  }

  lemma FmtFields(s: seq<Byte>, i: nat)
    requires i + 16 <= |s| && s[i..i + 16] == FmtBody()
    ensures U16(s, i) == 1 && U16(s, i + 2) == 1 && U32(s, i + 4) == 16000 && U16(s, i + 14) == 16
  {
    hide FmtBody;
    var b := s[i..i + 16];
    assert forall k :: 0 <= k < 16 ==> b[k] == s[i + k];
  }

  /** One 16-bit mono frame. */
  lemma MonoFrame(floatFrame: (seq<Byte>, nat) -> int, q: int, t: seq<Byte>)
    requires -32768 <= q <= 32767
    ensures DecodeFrame(floatFrame, Le16(q % 65536) + t, 0, MONO16) == q
  {
    var s := Le16(q % 65536) + t;
    assert s[0] == Le16(q % 65536)[0] && s[1] == Le16(q % 65536)[1];
    assert U16(s, 0) == q % 65536;
    assert ChannelSum(s, 0, 16, 1) == ChannelSum(s, 0, 16, 0) + ChannelSample(s, 0, 16);
  }

  lemma {:induction false} FramesOfSamples(floatFrame: (seq<Byte>, nat) -> int, q: seq<int>, n: nat)
    requires n <= |q| && forall i :: 0 <= i < |q| ==> -32768 <= q[i] <= 32767
    ensures Frames(floatFrame, Prefix(SampleBytes(q), 2 * n), MONO16) == q[..n]
  {
    hide DecodeFrame, Le16;
    var b := SampleBytes(q);
    if n == 0 {
      assert Prefix(b, 0) == [];
    } else {
      var p := Prefix(b, 2 * n);
      var tail := Prefix(SampleBytes(q[1..]), 2 * (n - 1));
      assert p == Le16(q[0] % 65536) + tail;
      MonoFrame(floatFrame, q[0], tail);
      FramesOfSamples(floatFrame, q[1..], n - 1);
      assert p[2..] == tail;
      assert q[..n] == [q[0]] + q[1..][..n - 1];
    }
  }

  /** The samples the 32-bit size field can account for: all of them below 2^31. */
  function Countable(x: seq<real>): (q: seq<int>)
    ensures |x| < 0x8000_0000 ==> q == Quantised(x)
  {
    var n := |x| % 0x8000_0000;
    assert |x| < 0x8000_0000 ==> Quantised(x)[..|x|] == Quantised(x);
    Quantised(x)[..n]
  }

  lemma DataIsRead(floatFrame: (seq<Byte>, nat) -> int, x: seq<real>)
    ensures Walk(floatFrame, DataChunk(x), MONO16) == Decoded(Countable(x), 16000)
  {
    hide Frames, SampleBytes, Quantised, Le32, U32;
    var t := DataChunk(x);
    assert t[..4] == DATA && t[4..8] == Le32(DataSize(|x|)) && t[8..] == SampleBytes(Quantised(x));
    SliceU32(t, 4);
    var n := |x| % 0x8000_0000;
    assert DataSize(|x|) == 2 * n;
    assert forall i :: 0 <= i < |x| ==> -32768 <= Quantised(x)[i] <= 32767 by { QuantisedInRange(x); }
    FramesOfSamples(floatFrame, Quantised(x), n);
  }

  lemma QuantisedInRange(x: seq<real>)
    ensures forall i :: 0 <= i < |x| ==> -32768 <= Quantised(x)[i] <= 32767
  {
  }

  /** The written file with chunks inserted before and after the fmt chunk. */
  function Interleaved(x: seq<real>, before: seq<Chunk>, after: seq<Chunk>): seq<Byte>
    requires (forall i :: 0 <= i < |before| ==> Foreign(before[i])) && forall i :: 0 <= i < |after| ==> Foreign(after[i])
  {
    RiffHeader(36 + DataSize(|x|)) + AllBytes(before) + FmtChunk() + AllBytes(after) + DataChunk(x)
  }

  /** Reading what was written, with any foreign chunks inserted before or after the fmt chunk, gives
      the quantised samples at 16 kHz, up to the 2^31 samples the size field can count. */
  lemma WavRoundTrip(floatFrame: (seq<Byte>, nat) -> int, x: seq<real>, before: seq<Chunk>, after: seq<Chunk>)
    requires forall i :: 0 <= i < |before| ==> Foreign(before[i])
    requires forall i :: 0 <= i < |after| ==> Foreign(after[i])
    ensures DecodeWav(floatFrame, Interleaved(x, before, after)) == Decoded(Countable(x), 16000)
  {
    hide Walk, RiffHeader, FmtChunk, DataChunk, AllBytes, Foreign;
    var h := RiffHeader(36 + DataSize(|x|));
    var b, a := AllBytes(before), AllBytes(after);
    var w := Interleaved(x, before, after);
    var t := b + (FmtChunk() + (a + DataChunk(x)));
    assert w == h + t;
    assert w[..4] == h[..4] && w[8..12] == h[8..12] && w[12..] == t;
    SkipAllForeign(floatFrame, before, FmtChunk() + (a + DataChunk(x)), NO_FORMAT);
    FmtIsRead(floatFrame, a + DataChunk(x), NO_FORMAT);
    SkipAllForeign(floatFrame, after, DataChunk(x), MONO16);
    DataIsRead(floatFrame, x);
  }

  /** The plain round trip is exact if and only if the recording has fewer than 2^31 samples. */
  lemma EncodeDecode(floatFrame: (seq<Byte>, nat) -> int, x: seq<real>)
    ensures DecodeWav(floatFrame, EncodeWav(x)) == Decoded(Quantised(x), 16000) <==> |x| < 0x8000_0000
  {
    hide DecodeWav, FmtChunk, DataChunk, RiffHeader, Quantised;
    WavRoundTrip(floatFrame, x, [], []);
    var h := RiffHeader(36 + DataSize(|x|));
    assert AllBytes([]) == [];
    assert Interleaved(x, [], []) == EncodeWav(x);
    if |x| >= 0x8000_0000 { assert |Countable(x)| != |Quantised(x)|; }
  }

  // ── What the samples mean ─────────────────────────────────────────

  /** The nearest integer, ties away from zero, of a value that fits. */
  lemma RoundIsNearest(r: real)
    ensures -0.5 <= Round(r) as real - r <= 0.5
    ensures r >= 0.0 ==> Round(r) >= 0 && Round(r) as real - r > -0.5
    ensures r <= 0.0 ==> Round(r) <= 0 && Round(r) as real - r < 0.5
  {
  }

  lemma RoundIsMonotone(a: real, b: real)
    requires a <= b
    ensures Round(a) <= Round(b)
  {
  }

  /** One sample as it is written: the nearest of the 16-bit values, ties away from zero, and silence
      between the two rails only. */
  predicate Writes(f: real, q: int) {
    && (f >= 1.0 ==> q == 32767)
    && (f <= -1.0 ==> q == -32767)
    && (-1.0 <= f <= 1.0 ==> -0.5 <= q as real - 32767.0 * f <= 0.5)
    && (f >= 0.0 ==> q >= 0) && (f <= 0.0 ==> q <= 0)
    && (0.0 <= f <= 1.0 && q as real < 32767.0 * f ==> 32767.0 * f - q as real < 0.5)
    && (-1.0 <= f <= 0.0 && q as real > 32767.0 * f ==> q as real - 32767.0 * f < 0.5)
  }

  lemma QuantiseWrites(f: real)
    ensures Writes(f, Quantise(f))
  {
    RoundIsNearest(Clamp(f) * 32767.0);
  }

  lemma QuantiseIsOdd(f: real)
    ensures Quantise(-f) == -Quantise(f)
  {
    assert Clamp(-f) == -Clamp(f);
  }

  lemma QuantiseIsMonotone(f: real, g: real)
    requires f <= g
    ensures Quantise(f) <= Quantise(g)
  {
    assert Clamp(f) <= Clamp(g);
    RoundIsMonotone(Clamp(f) * 32767.0, Clamp(g) * 32767.0);
  }

  /** A recording written and read back: every sample is the nearest 16-bit value of its input, the
      rails lie at 1.0 and -1.0, inverting the input inverts the sample, and louder is never quieter. */
  lemma DecodedIsNearest(floatFrame: (seq<Byte>, nat) -> int, x: seq<real>, i: nat, j: nat)
    requires |x| < 0x8000_0000 && i < |x| && j < |x|
    ensures var d := DecodeWav(floatFrame, EncodeWav(x));
      && d.rate == 16000 && |d.samples| == |x|
      && Writes(x[i], d.samples[i])
      && (x[j] == -x[i] ==> d.samples[j] == -d.samples[i])
      && (x[i] <= x[j] ==> d.samples[i] <= d.samples[j])
  {
    hide DecodeWav, EncodeWav, Quantise, Writes;
    EncodeDecode(floatFrame, x);
    QuantisedAt(x, i);
    QuantisedAt(x, j);
    QuantiseWrites(x[i]);
    QuantiseIsOdd(x[i]);
    if x[i] <= x[j] { QuantiseIsMonotone(x[i], x[j]); }
  }

  /** The sizes and rates in the header fit the file and each other. */
  lemma HeaderFits(x: seq<real>)
    requires |x| < 0x7FFF_FFEE
    ensures var w := EncodeWav(x);
      && |w| == 44 + 2 * |x| && U32(w, 4) == |w| - 8 && U32(w, 40) == |w| - 44
      && U16(w, 32) == U16(w, 22) * U16(w, 34) / 8 && U32(w, 28) == U32(w, 24) * U16(w, 32)
  {
    hide SampleBytes, Quantised, Le16, Le32, FmtBody, U16, U32;
    var w := EncodeWav(x);
    var h, f, d := RiffHeader(36 + DataSize(|x|)), FmtChunk(), DataChunk(x);
    assert w == h + f + d && |w| == 44 + 2 * |x|;
    assert h[4..8] == Le32(36 + 2 * |x|) && w[4..8] == h[4..8];
    assert d[4..8] == Le32(2 * |x|) && w[40..44] == d[4..8];
    SliceU32(w, 4);
    SliceU32(w, 40);
    assert f[8..24] == FmtBody() && w[20..36] == f[8..24];
    FmtRates(w, 20);
  }

  lemma FmtRates(s: seq<Byte>, i: nat)
    requires i + 16 <= |s| && s[i..i + 16] == FmtBody()
    ensures U16(s, i + 2) == 1 && U32(s, i + 4) == 16000 && U32(s, i + 8) == 32000
    ensures U16(s, i + 12) == 2 && U16(s, i + 14) == 16
  {
    hide Le16, Le32;
    var b := s[i..i + 16];
    assert forall k :: 0 <= k < 16 ==> b[k] == s[i + k];
    assert b[8..12] == Le32(32000) && b[12..14] == Le16(2);
    SliceU32(b, 8);
    assert b[12..14][0] == b[12] && b[12..14][1] == b[13];
  }

  /** The bytes of a sample of the given width: unsigned for 8 bits, else two's complement, low first. */
  function SampleOf(v: int, bits: nat): (b: seq<Byte>)
    requires bits == 8 || bits == 16 || bits == 24 || bits == 32
    requires match bits
      case 8 => -128 <= v < 128
      case 16 => -32768 <= v < 32768
      case 24 => -8388608 <= v < 8388608
      case _ => -2147483648 <= v < 2147483648
    ensures |b| == bits / 8
  {
    if bits == 8 then [v + 128]
    else if bits == 16 then Le16(v % 65536)
    else if bits == 24 then Le16(v % 16777216 % 65536) + [v % 16777216 / 65536]
    else Le32(v % WORD32)
  }

  /** A wide sample loses its low bits, a narrow one is scaled up. */
  lemma SampleIsScaled(v: int, bits: nat)
    requires bits == 8 || bits == 16 || bits == 24 || bits == 32
    requires match bits
      case 8 => -128 <= v < 128
      case 16 => -32768 <= v < 32768
      case 24 => -8388608 <= v < 8388608
      case _ => -2147483648 <= v < 2147483648
    ensures var s := ChannelSample(SampleOf(v, bits), 0, bits);
      match bits
      case 8 => s == 256 * v
      case 16 => s == v
      case 24 => 256 * s <= v < 256 * s + 256
      case _ => 65536 * s <= v < 65536 * s + 65536
  {
    hide ChannelSample, SampleOf;
    if bits == 8 { Scaled8(v); } else if bits == 16 { Scaled16(v); } else if bits == 24 { Scaled24(v); } else { Scaled32(v); }
  }

  lemma Scaled8(v: int)
    requires -128 <= v < 128
    ensures ChannelSample(SampleOf(v, 8), 0, 8) == 256 * v
  {
  }

  lemma Scaled16(v: int)
    requires -32768 <= v < 32768
    ensures ChannelSample(SampleOf(v, 16), 0, 16) == v
  {
    hide U16, Le16;
  }

  lemma Scaled24(v: int)
    requires -8388608 <= v < 8388608
    ensures var s := ChannelSample(SampleOf(v, 24), 0, 24); 256 * s <= v < 256 * s + 256
  {
    hide U16, Le16;
    var u := v % 16777216;
    var b := SampleOf(v, 24);
    assert b[0..2] == Le16(u % 65536) && b[2] as int == u / 65536;
    SliceU16(b, 0);
    assert U16(b, 0) + 65536 * b[2] as int == u;
    assert Signed(u, 16777216) == v;
  }

  lemma Scaled32(v: int)
    requires -2147483648 <= v < 2147483648
    ensures var s := ChannelSample(SampleOf(v, 32), 0, 32); 65536 * s <= v < 65536 * s + 65536
  {
    hide U32, Le32;
    assert U32(SampleOf(v, 32), 0) == v % WORD32;
    assert Signed(v % WORD32, WORD32) == v;
  }

  /** A stereo frame is the average of its two channels, rounded towards zero. */
  lemma StereoIsAveraged(floatFrame: (seq<Byte>, nat) -> int, l: int, r: int, rate: nat)
    requires -32768 <= l < 32768 && -32768 <= r < 32768
    ensures var q := DecodeFrame(floatFrame, SampleOf(l, 16) + SampleOf(r, 16), 0, Format(true, 1, 2, rate, 16));
      && (l + r >= 0 ==> 2 * q <= l + r <= 2 * q + 1)
      && (l + r <= 0 ==> 2 * q - 1 <= l + r <= 2 * q)
  {
    hide Le16;
    var t := SampleOf(l, 16) + SampleOf(r, 16);
    assert t[0..2] == Le16(l % 65536) && t[2..4] == Le16(r % 65536);
    assert t[0] == Le16(l % 65536)[0] && t[1] == Le16(l % 65536)[1];
    assert t[2] == Le16(r % 65536)[0] && t[3] == Le16(r % 65536)[1];
    assert U16(t, 0) == l % 65536 && U16(t, 2) == r % 65536;
    assert ChannelSum(t, 0, 16, 0) == 0;
    assert ChannelSum(t, 0, 16, 1) == l;
    assert ChannelSum(t, 0, 16, 2) == l + r;
  }

  /** A fmt chunk of the plain form, and of the extensible form with the tag in its sub-format. */
  function FmtOf(tag: nat, channels: nat, rate: nat, bits: nat, filler: seq<Byte>): seq<Byte>
    requires tag < 65536 && channels < 65536 && rate < WORD32 && bits < 65536 && |filler| == 6
  {
    FMT + Le32(16) + Le16(tag) + Le16(channels) + Le32(rate) + filler + Le16(bits)
  }

  function ExtensibleOf(tag: nat, channels: nat, rate: nat, bits: nat, filler: seq<Byte>, middle: seq<Byte>, tail: seq<Byte>)
    : seq<Byte>
    requires tag < 65536 && channels < 65536 && rate < WORD32 && bits < 65536 && |filler| == 6
    requires |middle| == 8 && |tail| == 14
  {
    FMT + Le32(40) + Le16(0xFFFE) + Le16(channels) + Le32(rate) + filler + Le16(bits) + middle + Le16(tag) + tail
  }

  lemma SliceU16(s: seq<Byte>, i: nat)
    requires i + 2 <= |s|
    ensures U16(s, i) == U16(s[i..i + 2], 0)
  {
  }

  /** Every field is found again, whatever the two derived fields hold. */
  lemma FmtReadsBack(tag: nat, channels: nat, rate: nat, bits: nat, filler: seq<Byte>, rest: seq<Byte>)
    requires tag < 65536 && tag != 0xFFFE && channels < 65536 && rate < WORD32 && bits < 65536 && |filler| == 6
    ensures ReadFmt(FmtOf(tag, channels, rate, bits, filler) + rest) == Format(true, tag, channels, rate, bits)
  {
    hide Le16, Le32, U16, U32;
    var t := FmtOf(tag, channels, rate, bits, filler) + rest;
    assert t[8..10] == Le16(tag) && t[10..12] == Le16(channels) && t[12..16] == Le32(rate) && t[22..24] == Le16(bits);
    SliceU16(t, 8);
    SliceU16(t, 10);
    SliceU32(t, 12);
    SliceU16(t, 22);
  }

  lemma ExtensibleReadsBack(tag: nat, channels: nat, rate: nat, bits: nat, filler: seq<Byte>, middle: seq<Byte>,
                            tail: seq<Byte>, rest: seq<Byte>)
    requires tag < 65536 && channels < 65536 && rate < WORD32 && bits < 65536 && |filler| == 6
    requires |middle| == 8 && |tail| == 14
    ensures var t := ExtensibleOf(tag, channels, rate, bits, filler, middle, tail) + rest;
      UsableFmt(t) && ReadFmt(t) == Format(true, tag, channels, rate, bits)
  {
    hide Le16, Le32, U16, U32;
    var t := ExtensibleOf(tag, channels, rate, bits, filler, middle, tail) + rest;
    assert t[..4] == FMT && t[4..8] == Le32(40);
    assert t[8..10] == Le16(0xFFFE) && t[10..12] == Le16(channels) && t[12..16] == Le32(rate) && t[22..24] == Le16(bits);
    assert t[32..34] == Le16(tag);
    SliceU32(t, 4);
    SliceU16(t, 8);
    SliceU16(t, 10);
    SliceU32(t, 12);
    SliceU16(t, 22);
    SliceU16(t, 32);
  }

  predicate Reads(b: seq<Byte>, s: string) { |b| == |s| && forall i :: 0 <= i < |s| ==> b[i] == s[i] as int }

  /** The four tags of a written file, where a reader looks for them. */
  lemma HeaderTags(x: seq<real>)
    ensures var w := EncodeWav(x);
      && |w| >= 44 && Reads(w[0..4], "RIFF") && Reads(w[8..12], "WAVE") && Reads(w[12..16], "fmt ")
      && Reads(w[36..40], "data")
  {
    hide SampleBytes, Quantised, Le32, FmtBody;
    var w := EncodeWav(x);
    var h, f, d := RiffHeader(36 + DataSize(|x|)), FmtChunk(), DataChunk(x);
    assert w == h + f + d;
    assert w[0..4] == h[0..4] == RIFF && w[8..12] == h[8..12] == WAVE;
    assert w[12..16] == f[..4] == FMT && w[36..40] == d[..4] == DATA;
  }

  /** The sample formats that are decoded: 8, 16, 24 and 32 bit integers and 32 bit floats, 1 to 8 channels. */
  predicate Decodable(tag: nat, channels: nat, bits: nat) {
    ((tag == 1 && bits in {8, 16, 24, 32}) || (tag == 3 && bits == 32)) && 1 <= channels <= 8
  }

  predicate Yields(d: Decoded, n: nat, f: Format) {
    if Decodable(f.tag, f.channels, f.bits) then d.rate == f.rate && Fills(|d.samples|, f.channels * (f.bits / 8), n)
    else d == Decoded([], 0)
  }

  /** `count` is how many pieces of `size` bytes `n` bytes hold. */
  predicate Fills(count: nat, size: nat, n: nat) { count * size <= n < count * size + size }

  /** A file in any other format gives nothing; else one sample for each whole frame of the data, at the
      rate the file names, whatever follows the data. */
  lemma FileDecodedIff(floatFrame: (seq<Byte>, nat) -> int, size: nat, tag: nat, channels: nat, rate: nat, bits: nat,
                       filler: seq<Byte>, body: seq<Byte>, tail: seq<Byte>)
    requires tag < 65536 && tag != 0xFFFE && channels < 65536 && rate < WORD32 && bits < 65536 && |filler| == 6
    requires |body| < WORD32 && size < WORD32
    ensures var w := RiffHeader(size) + FmtOf(tag, channels, rate, bits, filler) + (DATA + Le32(|body|) + body + tail);
      var d := DecodeWav(floatFrame, w);
      Yields(d, |body|, Format(true, tag, channels, rate, bits))
  {
    hide Walk, Le32, Le16, FmtOf, RiffHeader, Yields, DecodeWav;
    var data := DATA + Le32(|body|) + body + tail;
    var fmt := FmtOf(tag, channels, rate, bits, filler);
    assert RiffHeader(size) + fmt + data == RiffHeader(size) + (fmt + data);
    FmtIsTaken(floatFrame, tag, channels, rate, bits, filler, data);
    BodyIsWalked(floatFrame, size, fmt + data);
    DataDecodedIff(floatFrame, body, tail, Format(true, tag, channels, rate, bits));
  }

  lemma BodyIsWalked(floatFrame: (seq<Byte>, nat) -> int, size: nat, t: seq<Byte>)
    requires size < WORD32 && |t| >= 32
    ensures DecodeWav(floatFrame, RiffHeader(size) + t) == Walk(floatFrame, t, NO_FORMAT)
  {
    hide Walk, Le32;
    var h := RiffHeader(size);
    var w := h + t;
    assert w[..4] == h[..4] && w[8..12] == h[8..12] && w[12..] == t;
  }

  lemma FmtIsTaken(floatFrame: (seq<Byte>, nat) -> int, tag: nat, channels: nat, rate: nat, bits: nat, filler: seq<Byte>,
                   data: seq<Byte>)
    requires tag < 65536 && tag != 0xFFFE && channels < 65536 && rate < WORD32 && bits < 65536 && |filler| == 6
    ensures |FmtOf(tag, channels, rate, bits, filler)| == 24
    ensures Walk(floatFrame, FmtOf(tag, channels, rate, bits, filler) + data, NO_FORMAT)
         == Walk(floatFrame, data, Format(true, tag, channels, rate, bits))
  {
    hide Frames, Supported, Prefix, ReadFmt, U32, U16, Le16, Le32;
    var fmt := FmtOf(tag, channels, rate, bits, filler);
    var t := fmt + data;
    assert fmt[..4] == FMT && fmt[4..8] == Le32(16) && |fmt| == 24;
    assert t[..4] == fmt[..4] && t[4..8] == fmt[4..8] && t[24..] == data;
    SliceU32(t, 4);
    FmtReadsBack(tag, channels, rate, bits, filler, data);
    hide FmtOf, Walk;
    WalkFmt(floatFrame, t, NO_FORMAT);
  }

  lemma WalkFmt(floatFrame: (seq<Byte>, nat) -> int, t: seq<Byte>, f: Format)
    requires |t| >= 24 && t[..4] == FMT && U32(t, 4) == 16
    ensures Walk(floatFrame, t, f) == Walk(floatFrame, t[24..], ReadFmt(t))
  {
    hide Frames, Supported, Prefix, ReadFmt, U32;
    assert UsableFmt(t) && ChunkLen(t) == 24 && Rest(t, 24) == t[24..];
    hide UsableFmt, ChunkLen, Rest;
  }

  lemma DataDecodedIff(floatFrame: (seq<Byte>, nat) -> int, body: seq<Byte>, tail: seq<Byte>, f: Format)
    requires f.known && |body| < WORD32
    ensures var d := Walk(floatFrame, DATA + Le32(|body|) + body + tail, f);
      Yields(d, |body|, f)
  {
    hide Frames, Le32, U32;
    var t := DATA + Le32(|body|) + body + tail;
    assert t[..4] == DATA && t[4..8] == Le32(|body|) && t[8..][..|body|] == body;
    SliceU32(t, 4);
    if Supported(f) { FrameCount(floatFrame, body, f); }
  }

  lemma {:induction false} FrameCount(floatFrame: (seq<Byte>, nat) -> int, body: seq<Byte>, f: Format)
    requires Supported(f)
    ensures Fills(|Frames(floatFrame, body, f)|, FrameSize(f), |body|)
  {
    hide DecodeFrame, FrameSize, Supported;
    var n := FrameSize(f);
    if |body| >= n {
      FrameCount(floatFrame, body[n..], f);
      var k := |Frames(floatFrame, body[n..], f)|;
      assert (k + 1) * n == k * n + n;
    }
  }
}
