/**
 * The WAV helpers of the narrator script: `make_wav_header` packs a
 * 44-byte PCM header with `struct.pack` (which raises on a field out of
 * its unsigned range), `parse_wav` reads the format fields at fixed
 * offsets and the data chunk at the first `data` anywhere in the file,
 * and `make_silence` gives the zero bytes for a number of samples.  Every
 * exception (`ValueError`, `struct.error`) is None here.
 */
module TtsWav {
  import opened Bytes
  import opened WavHeader

  /** What parse_wav returns. */
  datatype WavInfo = WavInfo(sampleRate: int, bits: int, channels: int, pcm: seq<byte>)

  /** `sample_rate * n_channels * bits_per_sample // 8`; Python's floor division agrees with Dafny's for a positive divisor. */
  function ByteRate(sampleRate: int, bits: int, channels: int): int
  {
    sampleRate * channels * bits / 8
  }

  function BlockAlign(bits: int, channels: int): int
  {
    channels * bits / 8
  }

  predicate IsU16(v: int) { 0 <= v < 0x1_0000 }
  predicate IsU32(v: int) { 0 <= v < 0x1_0000_0000 }

  /** Every field fits its `struct.pack` format, so no pack raises. */
  predicate Packable(sampleRate: int, bits: int, channels: int, dataSize: int)
  {
    && IsU32(36 + dataSize) && IsU32(dataSize) && IsU16(channels) && IsU32(sampleRate)
    && IsU32(ByteRate(sampleRate, bits, channels)) && IsU16(BlockAlign(bits, channels)) && IsU16(bits)
  }

  /** The header layout: RIFF size, "WAVE", a 16-byte PCM fmt chunk, then the data chunk's tag and size. */
  function Header(sampleRate: int, bits: int, channels: int, dataSize: int): (h: seq<byte>)
    requires Packable(sampleRate, bits, channels, dataSize)
    ensures |h| == 44
  {
    Riff + LE32(36 + dataSize) + Wave
    + FmtTag + LE32(16) + LE16(1) + LE16(channels) + LE32(sampleRate)
    + LE32(ByteRate(sampleRate, bits, channels)) + LE16(BlockAlign(bits, channels)) + LE16(bits)
    + DataTag + LE32(dataSize)
  }

  /** make_wav_header: the header appended to field by field; None where a field does not pack. */
  method MakeWavHeader(sampleRate: int, bits: int, channels: int, dataSize: int) returns (r: Option<seq<byte>>)
    ensures r.Some? <==> Packable(sampleRate, bits, channels, dataSize)
    ensures r.Some? ==> r.value == Header(sampleRate, bits, channels, dataSize)
  {
    var byteRate := sampleRate * channels * bits / 8;
    var blockAlign := channels * bits / 8;
    var wavSize := 36 + dataSize;
    if !Packable(sampleRate, bits, channels, dataSize) {
      return None;
    }
    var header: seq<byte> := [];
    header := header + Riff;
    header := header + LE32(wavSize);
    header := header + Wave;
    header := header + FmtTag;
    header := header + LE32(16);
    header := header + LE16(1);
    header := header + LE16(channels);
    header := header + LE32(sampleRate);
    header := header + LE32(byteRate);
    header := header + LE16(blockAlign);
    header := header + LE16(bits);
    header := header + DataTag;
    header := header + LE32(dataSize);
    r := Some(header);
  }

  /** `wav_bytes.index(b'data')` from `from`: the first index of the tag, or -1 for the ValueError. */
  function FindData(w: seq<byte>, from: nat): (k: int)
    ensures k == -1 || (from <= k && IsTag(w, k, DataTag))
    ensures k == -1 ==> forall j :: from <= j ==> !IsTag(w, j, DataTag)
    ensures k >= 0 ==> forall j :: from <= j < k ==> !IsTag(w, j, DataTag)
    decreases |w| - from
  {
    if from + 4 > |w| then -1
    else if IsTag(w, from, DataTag) then from
    else FindData(w, from + 1)
  }

  /** A tag at k bounds the search from any earlier start; with no tag in between, the search finds k. */
  lemma {:induction false} FindDataAt(w: seq<byte>, from: nat, k: nat)
    requires from <= k && IsTag(w, k, DataTag)
    ensures 0 <= FindData(w, from) <= k
    ensures (forall j :: from <= j < k ==> !IsTag(w, j, DataTag)) ==> FindData(w, from) == k
    decreases k - from
  {
    if from < k && !IsTag(w, from, DataTag) {
      FindDataAt(w, from + 1, k);
    }
  }

  /**
   * parse_wav: None for a bad RIFF/WAVE magic, for a file too short for
   * the fields unpacked at 22, 24 and 34, without a `data` tag, or with no
   * room for its size field; otherwise the fields and the data bytes, the
   * slice clipped to the end of the file.
   */
  function ParseWav(w: seq<byte>): (r: Option<WavInfo>)
    ensures r.Some? ==> IsTag(w, 0, Riff) && IsTag(w, 8, Wave) && |w| >= 36
    ensures r.Some? ==> r.value.sampleRate == U32(w, 24) && r.value.channels == U16(w, 22) && r.value.bits == U16(w, 34)
  {
    if !IsTag(w, 0, Riff) || !IsTag(w, 8, Wave) || |w| < 36 then None
    else
      var idx := FindData(w, 0);
      if idx < 0 || idx + 8 > |w| then None
      else
        var size := U32(w, idx + 4);
        var stop := if idx + 8 + size <= |w| then idx + 8 + size else |w|;
        Some(WavInfo(U32(w, 24), U16(w, 34), U16(w, 22), w[idx + 8..stop]))
  }

  /** The header's fields read back as the values packed. */
  lemma HeaderFields(sampleRate: int, bits: int, channels: int, dataSize: int)
    requires Packable(sampleRate, bits, channels, dataSize)
    ensures var h := Header(sampleRate, bits, channels, dataSize);
      && IsTag(h, 0, Riff) && IsTag(h, 8, Wave) && IsTag(h, 12, FmtTag) && IsTag(h, 36, DataTag)
      && U32(h, 4) == 36 + dataSize && U32(h, 16) == 16 && U16(h, 20) == 1
      && U16(h, 22) == channels && U32(h, 24) == sampleRate
      && U32(h, 28) == ByteRate(sampleRate, bits, channels) && U16(h, 32) == BlockAlign(bits, channels)
      && U16(h, 34) == bits && U32(h, 40) == dataSize
  {
    var h := Header(sampleRate, bits, channels, dataSize);
    HeaderLayout(Riff, LE32(36 + dataSize), Wave, FmtTag, LE32(16), LE16(1), LE16(channels), LE32(sampleRate),
                 LE32(ByteRate(sampleRate, bits, channels)), LE16(BlockAlign(bits, channels)), LE16(bits),
                 DataTag, LE32(dataSize));
    U32OfLE32(36 + dataSize, h, 4);
    U32OfLE32(16, h, 16);
    U32OfLE32(sampleRate, h, 24);
    U32OfLE32(ByteRate(sampleRate, bits, channels), h, 28);
    U32OfLE32(dataSize, h, 40);
    U16OfLE16(1, h, 20);
    U16OfLE16(channels, h, 22);
    U16OfLE16(BlockAlign(bits, channels), h, 32);
    U16OfLE16(bits, h, 34);
  }

  /** The fields a parser reads survive appending the PCM bytes. */
  lemma FileFieldsKept(h: seq<byte>, pcm: seq<byte>, k: nat, n: nat)
    requires k + n <= |h|
    ensures (h + pcm)[k..k + n] == h[k..k + n]
  {
  }

  /**
   * Round trip: parsing a header followed by its PCM bytes gives the
   * header's fields and exactly those bytes back, provided no `data` tag
   * occurs in the header before its own at 36.
   */
  lemma ParseMade(sampleRate: int, bits: int, channels: int, pcm: seq<byte>)
    requires Packable(sampleRate, bits, channels, |pcm|)
    requires forall k :: 0 <= k < 36 ==> !IsTag(Header(sampleRate, bits, channels, |pcm|), k, DataTag)
    ensures ParseWav(Header(sampleRate, bits, channels, |pcm|) + pcm) == Some(WavInfo(sampleRate, bits, channels, pcm))
  {
    HeaderFields(sampleRate, bits, channels, |pcm|);
    ParseFollowed(Header(sampleRate, bits, channels, |pcm|), pcm, sampleRate, bits, channels);
  }

  /** Any 44 bytes with these fields and no earlier `data` tag, followed by the PCM bytes, parse back. */
  lemma ParseFollowed(h: seq<byte>, pcm: seq<byte>, sampleRate: int, bits: int, channels: int)
    requires |h| == 44 && IsTag(h, 0, Riff) && IsTag(h, 8, Wave) && IsTag(h, 36, DataTag)
    requires U16(h, 22) == channels && U32(h, 24) == sampleRate && U16(h, 34) == bits && U32(h, 40) == |pcm|
    requires forall k :: 0 <= k < 36 ==> !IsTag(h, k, DataTag)
    ensures ParseWav(h + pcm) == Some(WavInfo(sampleRate, bits, channels, pcm))
  {
    var w := h + pcm;
    FileFieldsKept(h, pcm, 0, 4);
    FileFieldsKept(h, pcm, 8, 4);
    FileFieldsKept(h, pcm, 36, 4);
    FileFieldsKept(h, pcm, 22, 2);
    FileFieldsKept(h, pcm, 24, 4);
    FileFieldsKept(h, pcm, 34, 2);
    FileFieldsKept(h, pcm, 40, 4);
    assert U32(w, 24) == U32(h, 24) && U16(w, 22) == U16(h, 22) && U16(w, 34) == U16(h, 34);
    assert U32(w, 40) == U32(h, 40);
    forall k | 0 <= k < 36 ensures !IsTag(w, k, DataTag) {
      assert !IsTag(h, k, DataTag);
      FileFieldsKept(h, pcm, k, 4);
    }
    FindDataAt(w, 0, 36);
    assert w[44..44 + |pcm|] == pcm;
  }

  /** A data tag packed into an earlier field, as the sample rate 0x61746164 does, is taken for the data chunk instead of the header's own. */
  lemma RateLooksLikeData(bits: int, channels: int, pcm: seq<byte>)
    requires Packable(0x6174_6164, bits, channels, |pcm|)
    ensures IsTag(Header(0x6174_6164, bits, channels, |pcm|), 24, DataTag)
    ensures FindData(Header(0x6174_6164, bits, channels, |pcm|) + pcm, 0) <= 24
  {
    HeaderFields(0x6174_6164, bits, channels, |pcm|);
    TagInRate(Header(0x6174_6164, bits, channels, |pcm|), pcm);
  }

  /** A header whose rate field reads as 0x61746164 holds the bytes `data` there. */
  lemma TagInRate(h: seq<byte>, pcm: seq<byte>)
    requires |h| == 44 && U32(h, 24) == 0x6174_6164
    ensures IsTag(h, 24, DataTag) && FindData(h + pcm, 0) <= 24
  {
    assert h[24] == 0x64 && h[25] == 0x61 && h[26] == 0x74 && h[27] == 0x61;
    assert h[24..28] == DataTag;
    FileFieldsKept(h, pcm, 24, 4);
    FindDataAt(h + pcm, 0, 24);
  }

  /** make_silence for n_samples samples: n_samples * n_channels * (bits // 8) zero bytes, none for a negative count. */
  function Silence(nSamples: int, bits: int, channels: int): (r: seq<byte>)
    ensures forall k :: 0 <= k < |r| ==> r[k] == 0
    ensures |r| == if nSamples * channels * (bits / 8) <= 0 then 0 else nSamples * channels * (bits / 8)
  {
    var n := nSamples * channels * (bits / 8);
    if n <= 0 then [] else seq(n, _ => 0)
  }

  /** For whole-byte sample widths the silence is a whole number of frames of the header's block size. */
  lemma SilenceFrames(nSamples: nat, bits: nat, channels: nat)
    requires bits % 8 == 0
    ensures |Silence(nSamples, bits, channels)| == nSamples * BlockAlign(bits, channels)
  {
    var b := bits / 8;
    assert bits == 8 * b;
    assert channels * bits == 8 * (channels * b);
    assert BlockAlign(bits, channels) == channels * b;
    assert nSamples * channels * b == nSamples * (channels * b);
  }
}
