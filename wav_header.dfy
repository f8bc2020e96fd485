/**
 * `wav_parse_header` of the GUI: it checks the RIFF/WAVE magic, walks the
 * chunk list for "fmt " and "data", accepts only 16-bit mono PCM and returns
 * where the samples start, how many there are and the sample rate.
 *
 * The chunk bound check `pos + 8 + chunk_size > wav_len` is computed in a
 * C `int`; the `wrapped` flag selects that 32-bit arithmetic (the code as written)
 * or exact arithmetic (the evidently intended check).
 */
module WavHeader {
  import opened Bytes

  datatype Format = Format(channels: int, sampleRate: int, bits: int)

  /** Where the PCM samples are: their byte offset, their count and the rate. */
  datatype WavData = WavData(pcmStart: nat, nSamples: int, sampleRate: int)

  /** The chunk and form tags, in ASCII. */
  const Riff: seq<byte> := [0x52, 0x49, 0x46, 0x46]  // "RIFF"
  const Wave: seq<byte> := [0x57, 0x41, 0x56, 0x45]  // "WAVE"
  const FmtTag: seq<byte> := [0x66, 0x6D, 0x74, 0x20]  // "fmt "
  const DataTag: seq<byte> := [0x64, 0x61, 0x74, 0x61]  // "data"

  /** Where each field of a 44-byte canonical header sits, whatever the fields hold. */
  lemma HeaderLayout<T>(p0: seq<T>, p1: seq<T>, p2: seq<T>, p3: seq<T>, p4: seq<T>, p5: seq<T>, p6: seq<T>,
                        p7: seq<T>, p8: seq<T>, p9: seq<T>, p10: seq<T>, p11: seq<T>, p12: seq<T>)
    requires |p0| == 4 && |p1| == 4 && |p2| == 4 && |p3| == 4 && |p4| == 4 && |p5| == 2 && |p6| == 2
    requires |p7| == 4 && |p8| == 4 && |p9| == 2 && |p10| == 2 && |p11| == 4 && |p12| == 4
    ensures var h := p0 + p1 + p2 + p3 + p4 + p5 + p6 + p7 + p8 + p9 + p10 + p11 + p12;
      && h[0..4] == p0 && h[4..8] == p1 && h[8..12] == p2 && h[12..16] == p3 && h[16..20] == p4
      && h[20..22] == p5 && h[22..24] == p6 && h[24..28] == p7 && h[28..32] == p8
      && h[32..34] == p9 && h[34..36] == p10 && h[36..40] == p11 && h[40..44] == p12
  {
  }

  /** The four-byte tag at i. */
  predicate IsTag(wav: seq<byte>, i: nat, tag: seq<byte>)
  {
    i + 4 <= |wav| && wav[i..i + 4] == tag
  }

  /** The data chunk at pos once a format is known: only 16-bit mono. */
  function DataChunk(f: Format, pos: int, size: int): Option<WavData>
    requires pos >= 0
  {
    if f.bits != 16 || f.channels != 1 then None
    else Some(WavData(pos + 8, size / 2, f.sampleRate))
  }

  /** The chunk walk from pos, with the format found so far. */
  function Scan(wav: seq<byte>, pos: nat, fmt: Option<Format>, wrapped: bool): Option<WavData>
    decreases |wav| - pos
  {
    if pos + 8 > |wav| then None
    else
      var size := I32(wav, pos + 4);
      var sum := pos + 8 + size;
      var bound := if wrapped then Int32(sum) else sum;
      if size < 0 || bound > |wav| then None
      else if sum > |wav| then
        // Reached only when the sum wrapped: a data chunk is returned
        // as it stands, any other chunk stops the walk here.
        if IsTag(wav, pos, DataTag) && fmt.Some? then DataChunk(fmt.value, pos, size) else None
      else if IsTag(wav, pos, FmtTag) && size >= 16 then
        if I16(wav, pos + 8) != 1 then None
        else
          var f := Format(I16(wav, pos + 10), I32(wav, pos + 12), I16(wav, pos + 22));
          Scan(wav, Next(pos, size), Some(f), wrapped)
      else if IsTag(wav, pos, DataTag) && fmt.Some? then DataChunk(fmt.value, pos, size)
      else Scan(wav, Next(pos, size), fmt, wrapped)
  }

  /** The next chunk: past the header and the body, rounded up to an even offset for an odd size. */
  function Next(pos: nat, size: nat): (n: nat)
    ensures pos + 8 + size <= n <= pos + 9 + size
  {
    pos + 8 + size + (if size % 2 == 1 then 1 else 0)
  }

  /** The header check and the chunk walk. */
  function ParseWith(wav: seq<byte>, wrapped: bool): Option<WavData>
  {
    if |wav| < 44 || !IsTag(wav, 0, Riff) || !IsTag(wav, 8, Wave) then None
    else Scan(wav, 12, None, wrapped)
  }

  /** wav_parse_header as written, with the bound check in 32-bit arithmetic. */
  function ParseAsWritten(wav: seq<byte>): Option<WavData>
  {
    ParseWith(wav, true)
  }

  /** wav_parse_header with an exact bound check. */
  function Parse(wav: seq<byte>): Option<WavData>
  {
    ParseWith(wav, false)
  }

  /** The walk as the GUI runs it; rc 0 on success. */
  method WavParseHeader(wav: seq<byte>) returns (rc: int, data: WavData)
    requires |wav| < 0x8000_0000
    ensures rc == 0 <==> ParseAsWritten(wav).Some?
    ensures rc == 0 ==> data == ParseAsWritten(wav).value
  {
    data := WavData(0, 0, 0);
    if |wav| < 44 || !IsTag(wav, 0, Riff) || !IsTag(wav, 8, Wave) { return -1, data; }
    var fmt: Option<Format> := None;
    var pos: nat := 12;
    while pos + 8 <= |wav|
      invariant Scan(wav, pos, fmt, true) == ParseAsWritten(wav)
      decreases |wav| - pos
    {
      var size := I32(wav, pos + 4);
      if size < 0 || Int32(pos + 8 + size) > |wav| { break; }
      var isData := IsTag(wav, pos, DataTag);
      if pos + 8 + size > |wav| {
        // the wrapped sum passed the check
        if isData && fmt.Some? {
          var r := DataChunk(fmt.value, pos, size);
          if r.None? { return -1, data; }
          return 0, r.value;
        }
        break;
      }
      if IsTag(wav, pos, FmtTag) && size >= 16 {
        if I16(wav, pos + 8) != 1 { return -1, data; }
        fmt := Some(Format(I16(wav, pos + 10), I32(wav, pos + 12), I16(wav, pos + 22)));
      } else if isData && fmt.Some? {
        if fmt.value.bits != 16 || fmt.value.channels != 1 { return -1, data; }
        return 0, WavData(pos + 8, size / 2, fmt.value.sampleRate);
      }
      pos := Next(pos, size);
    }
    return -1, data;
  }

  /** With the exact check, a returned sample region lies inside the buffer. */
  lemma {:induction false} ScanInBounds(wav: seq<byte>, pos: nat, fmt: Option<Format>)
    requires Scan(wav, pos, fmt, false).Some?
    ensures var d := Scan(wav, pos, fmt, false).value;
      pos + 8 <= d.pcmStart && 0 <= d.nSamples && d.pcmStart + 2 * d.nSamples <= |wav|
    decreases |wav| - pos
  {
    var size := I32(wav, pos + 4);
    if IsTag(wav, pos, FmtTag) && size >= 16 {
      var f := Format(I16(wav, pos + 10), I32(wav, pos + 12), I16(wav, pos + 22));
      ScanInBounds(wav, Next(pos, size), Some(f));
    } else if !(IsTag(wav, pos, DataTag) && fmt.Some?) {
      ScanInBounds(wav, Next(pos, size), fmt);
    }
  }

  /** On success the data region lies inside the buffer, after the 12-byte RIFF header and a chunk header. */
  lemma ParseInBounds(wav: seq<byte>)
    requires Parse(wav).Some?
    ensures var d := Parse(wav).value;
      20 <= d.pcmStart && 0 <= d.nSamples && d.pcmStart + 2 * d.nSamples <= |wav|
  {
    ScanInBounds(wav, 12, None);
  }

  /**
   * As written, a data chunk whose declared size wraps the int sum passes
   * the bound check: this 44-byte file claims 2^30 - 1 samples past its end.
   */
  lemma ParseOverflow()
    ensures var wav := OverflowFile();
      |wav| == 44 && Parse(wav).None?
      && ParseAsWritten(wav) == Some(WavData(44, 0x3FFF_FFFF, 16000))
      && 44 + 2 * 0x3FFF_FFFF > |wav|
  {
    var wav := OverflowFile();
    var f := Format(1, 16000, 16);
    assert I32(wav, 40) == 0x7FFF_FFFF;
    assert IsTag(wav, 36, DataTag);
    assert Scan(wav, 36, Some(f), false) == None;
    assert Scan(wav, 36, Some(f), true) == Some(WavData(44, 0x3FFF_FFFF, 16000));
    ScanFmt(wav);
  }

  lemma ScanFmt(wav: seq<byte>)
    requires wav == OverflowFile()
    ensures forall w :: Scan(wav, 12, None, w) == Scan(wav, 36, Some(Format(1, 16000, 16)), w)
    ensures IsTag(wav, 0, Riff) && IsTag(wav, 8, Wave)
  {
    assert IsTag(wav, 12, FmtTag) && !IsTag(wav, 12, DataTag);
    assert I32(wav, 16) == 16 && I16(wav, 20) == 1 && I16(wav, 22) == 1;
    assert I32(wav, 24) == 16000 && I16(wav, 34) == 16;
  }

  /** A RIFF/WAVE file with a 16-bit mono fmt chunk and a data chunk declaring 0x7FFFFFFF bytes. */
  function OverflowFile(): (wav: seq<byte>)
    ensures |wav| == 44
  {
    Riff + [36, 0, 0, 0] + Wave
    + FmtTag + [16, 0, 0, 0, 1, 0, 1, 0, 0x80, 0x3E, 0, 0, 0x00, 0x7D, 0, 0, 2, 0, 16, 0]
    + DataTag + [0xFF, 0xFF, 0xFF, 0x7F]
  }
}
