/**
 * The WAV file `asr_encode_wav` sends to the speech backend: a 44-byte
 * RIFF header for 16 kHz mono 16-bit PCM followed by the samples, each
 * float clamped to [-1, 1], scaled by 32767 and truncated toward zero.
 * Floats are modelled as reals: single-precision rounding is not modelled.
 */
module AsrWav {
  import opened Bytes
  import opened WavHeader
  import opened Seqs

  /** The C cast of a float to an integer type: truncation toward zero. */
  function TruncToward0(x: real): (v: int)
    ensures x >= 0.0 ==> v as real <= x < v as real + 1.0
    ensures x < 0.0 ==> v as real - 1.0 < x <= v as real
  {
    if x >= 0.0 then x.Floor else -((-x).Floor)
  }

  /** One sample as the encoder converts it: clamp to [-1, 1], scale by 32767, truncate. */
  function ToPcm(s: real): (v: int)
    ensures -32767 <= v <= 32767
    ensures s >= 1.0 ==> v == 32767
    ensures s <= -1.0 ==> v == -32767
  {
    var c := if s > 1.0 then 1.0 else if s < -1.0 then -1.0 else s;
    TruncToward0(c * 32767.0)
  }

  /** The conversion is symmetric around zero: truncation toward zero treats both signs alike. */
  lemma ToPcmOdd(s: real)
    ensures ToPcm(-s) == -ToPcm(s)
  {
  }

  /** The conversion keeps the order of the samples. */
  lemma ToPcmMonotone(s: real, t: real)
    requires s <= t
    ensures ToPcm(s) <= ToPcm(t)
  {
  }

  /** The converted samples. */
  function Pcm(samples: seq<real>): (pcm: seq<int>)
    ensures |pcm| == |samples| && IsInt16(pcm)
    ensures forall k :: 0 <= k < |samples| ==> pcm[k] == ToPcm(samples[k])
  {
    seq(|samples|, k requires 0 <= k < |samples| => ToPcm(samples[k]))
  }

  predicate IsInt16(pcm: seq<int>)
  {
    forall k :: 0 <= k < |pcm| ==> -0x8000 <= pcm[k] < 0x8000
  }

  /** The header for n samples: RIFF size = file size - 8, data size = 2n, PCM 1, mono, 16000 Hz, 32000 bytes/s, block 2, 16 bits. */
  function HeaderFor(n: nat): (h: seq<byte>)
    requires 44 + 2 * n < 0x8000_0000
    ensures |h| == 44
  {
    Riff + LE32(36 + 2 * n) + Wave
    + FmtTag + LE32(16) + LE16(1) + LE16(1) + LE32(16000) + LE32(32000) + LE16(2) + LE16(16)
    + DataTag + LE32(2 * n)
  }

  /** The PCM body: every sample as a little-endian signed 16-bit field. */
  function PcmBytes(pcm: seq<int>): (b: seq<byte>)
    requires IsInt16(pcm)
    ensures |b| == 2 * |pcm|
  {
    if |pcm| == 0 then [] else PcmBytes(pcm[..|pcm| - 1]) + S16(pcm[|pcm| - 1])
  }

  /** The whole file. */
  function Encoded(pcm: seq<int>): (w: seq<byte>)
    requires IsInt16(pcm) && 44 + 2 * |pcm| < 0x8000_0000
    ensures |w| == 44 + 2 * |pcm|
  {
    HeaderFor(|pcm|) + PcmBytes(pcm)
  }

  /** asr_encode_wav: the header fields, then the conversion loop. */
  method EncodeWav(samples: seq<real>) returns (buf: array<byte>)
    requires 44 + 2 * |samples| < 0x8000_0000
    ensures fresh(buf) && buf[..] == Encoded(Pcm(samples))
  {
    var n := |samples|;
    var dataBytes := n * 2;
    var fileSize := 44 + dataBytes;
    buf := new byte[fileSize];
    Write(buf, 0, HeaderFor(n));
    assert buf[..44] == HeaderFor(n);
    WriteSamples(buf, samples);
  }

  /** The loop that converts every sample and stores it after the 44 header bytes. */
  method WriteSamples(buf: array<byte>, samples: seq<real>)
    requires buf.Length == 44 + 2 * |samples|
    modifies buf
    ensures buf[..] == old(buf[..44]) + PcmBytes(Pcm(samples))
  {
    ghost var pcm := Pcm(samples);
    ghost var head := buf[..44];
    var i := 0;
    while i < |samples|
      invariant 0 <= i <= |samples|
      invariant buf[..44 + 2 * i] == head + PcmBytes(pcm[..i])
    {
      ghost var before := buf[..44 + 2 * i];
      var v := ToPcm(samples[i]);
      Write(buf, 44 + 2 * i, S16(v));
      assert buf[..44 + 2 * (i + 1)] == before + S16(pcm[i]);
      assert pcm[..i + 1][..i] == pcm[..i];
      i := i + 1;
    }
    assert pcm[..i] == pcm;
    assert buf[..] == buf[..44 + 2 * i];
  }

  /** Sample k of the body sits at byte 44 + 2k and reads back as itself. */
  lemma {:induction false} PcmRoundTrip(pcm: seq<int>, k: nat)
    requires IsInt16(pcm) && k < |pcm|
    ensures PcmBytes(pcm)[2 * k..2 * k + 2] == S16(pcm[k])
    decreases |pcm|
  {
    var init := pcm[..|pcm| - 1];
    if k < |pcm| - 1 {
      PcmRoundTrip(init, k);
      assert init[k] == pcm[k];
      assert PcmBytes(pcm)[2 * k..2 * k + 2] == PcmBytes(init)[2 * k..2 * k + 2];
    }
  }

  /** Every sample of the file reads back as the value written. */
  lemma SamplesRoundTrip(pcm: seq<int>, k: nat)
    requires IsInt16(pcm) && 44 + 2 * |pcm| < 0x8000_0000 && k < |pcm|
    ensures I16(Encoded(pcm), 44 + 2 * k) == pcm[k]
  {
    var w := Encoded(pcm);
    PcmRoundTrip(pcm, k);
    assert w[44 + 2 * k..44 + 2 * k + 2] == PcmBytes(pcm)[2 * k..2 * k + 2];
    I16OfS16(pcm[k], w, 44 + 2 * k);
  }

  /** The header's fields read back as the values asr_encode_wav writes. */
  lemma HeaderFields(n: nat)
    requires 44 + 2 * n < 0x8000_0000
    ensures var h := HeaderFor(n);
      && IsTag(h, 0, Riff) && IsTag(h, 8, Wave) && IsTag(h, 12, FmtTag) && IsTag(h, 36, DataTag)
      && I32(h, 4) == 36 + 2 * n && I32(h, 16) == 16 && I16(h, 20) == 1 && I16(h, 22) == 1
      && I32(h, 24) == 16000 && I32(h, 28) == 32000 && I16(h, 32) == 2 && I16(h, 34) == 16
      && I32(h, 40) == 2 * n
  {
    var h := HeaderFor(n);
    HeaderLayout(Riff, LE32(36 + 2 * n), Wave, FmtTag, LE32(16), LE16(1), LE16(1), LE32(16000), LE32(32000),
                 LE16(2), LE16(16), DataTag, LE32(2 * n));
    I32OfLE32(36 + 2 * n, h, 4);
    I32OfLE32(16, h, 16);
    I32OfLE32(16000, h, 24);
    I32OfLE32(32000, h, 28);
    I32OfLE32(2 * n, h, 40);
    U16OfLE16(1, h, 20);
    U16OfLE16(1, h, 22);
    U16OfLE16(2, h, 32);
    U16OfLE16(16, h, 34);
  }

  /** A file that starts with the header for n samples carries its fields. */
  lemma FileFields(w: seq<byte>, n: nat)
    requires 44 + 2 * n < 0x8000_0000 && |w| == 44 + 2 * n && w[..44] == HeaderFor(n)
    ensures && IsTag(w, 0, Riff) && IsTag(w, 8, Wave) && IsTag(w, 12, FmtTag) && IsTag(w, 36, DataTag)
      && !IsTag(w, 12, DataTag) && !IsTag(w, 36, FmtTag)
      && I32(w, 16) == 16 && I16(w, 20) == 1 && I16(w, 22) == 1
      && I32(w, 24) == 16000 && I16(w, 34) == 16 && I32(w, 40) == 2 * n
  {
    var h := HeaderFor(n);
    HeaderFields(n);
    assert w[0..4] == h[0..4] && w[8..12] == h[8..12] && w[12..16] == h[12..16] && w[36..40] == h[36..40];
    assert w[16..20] == h[16..20] && w[20..22] == h[20..22] && w[22..24] == h[22..24];
    assert w[24..28] == h[24..28] && w[34..36] == h[34..36] && w[40..44] == h[40..44];
  }

  /** The GUI's own header parser accepts what the client writes: the samples start at 44, all of them, at 16 kHz. */
  lemma EncodedParses(pcm: seq<int>)
    requires IsInt16(pcm) && 44 + 2 * |pcm| < 0x8000_0000
    ensures Parse(Encoded(pcm)) == Some(WavData(44, |pcm|, 16000))
    ensures ParseAsWritten(Encoded(pcm)) == Some(WavData(44, |pcm|, 16000))
  {
    var n := |pcm|;
    var w := Encoded(pcm);
    assert w[..44] == HeaderFor(n);
    FileFields(w, n);
    forall wr: bool ensures Scan(w, 12, None, wr) == Some(WavData(44, n, 16000)) {
      ScanEncoded(w, n, wr);
    }
  }

  /** The walk over an encoded file: the fmt chunk at 12, then the data chunk at 36. */
  lemma ScanEncoded(w: seq<byte>, n: nat, wr: bool)
    requires 44 + 2 * n < 0x8000_0000 && |w| == 44 + 2 * n
    requires && IsTag(w, 12, FmtTag) && IsTag(w, 36, DataTag) && !IsTag(w, 12, DataTag)
      && I32(w, 16) == 16 && I16(w, 20) == 1 && I16(w, 22) == 1
      && I32(w, 24) == 16000 && I16(w, 34) == 16 && I32(w, 40) == 2 * n
    ensures Scan(w, 12, None, wr) == Some(WavData(44, n, 16000))
  {
    var f := Format(1, 16000, 16);
    assert Scan(w, 36, Some(f), wr) == Some(WavData(44, n, 16000));
    assert Next(12, 16) == 36;
  }
}
