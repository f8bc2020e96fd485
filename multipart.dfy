/**
 * The multipart/form-data request body the speech client posts: the WAV file
 * part, the response format, the optional language and prompt, and the
 * closing delimiter (`asr_build_multipart`, `build_multipart_fmt`).  Every
 * text piece is one `snprintf` into the remaining room of a buffer sized
 * as the WAV plus 2048 bytes.
 */
module Multipart {
  import opened Bytes
  import opened CStrings

  /** The content of a C string: bytes without NUL. */
  predicate CText(s: seq<byte>)
  {
    forall k :: 0 <= k < |s| ==> s[k] != 0
  }

  /** The decimal digits of n, most significant first. */
  function Digits(n: nat): (d: seq<byte>)
    ensures 1 <= |d| && CText(d)
    ensures forall k :: 0 <= k < |d| ==> 0x30 <= d[k] <= 0x39
    decreases n
  {
    if n < 10 then [0x30 + n] else Digits(n / 10) + [0x30 + n % 10]
  }

  /** `%lld`: an optional minus sign, then the digits. */
  function Decimal(n: int): (d: seq<byte>)
    ensures CText(d)
  {
    if n < 0 then [0x2D] + Digits(-n) else Digits(n)
  }

  /** A number below 10^k has at most k digits. */
  lemma {:induction false} DigitsLength(n: nat, k: nat, p: nat)
    requires p == Pow10(k) && n < p
    ensures |Digits(n)| <= if k == 0 then 1 else k
    decreases k
  {
    if n >= 10 {
      assert k >= 2;
      Pow10Div(n, k);
      DigitsLength(n / 10, k - 1, Pow10(k - 1));
    }
  }

  function Pow10(k: nat): nat
  {
    if k == 0 then 1 else 10 * Pow10(k - 1)
  }

  lemma Pow10Div(n: nat, k: nat)
    requires k >= 1 && n < Pow10(k)
    ensures n / 10 < Pow10(k - 1)
  {
  }

  /** The boundary asr_build_multipart prints from the performance counter into a buffer of bndSize bytes. */
  function Boundary(ticks: int, bndSize: nat): (b: seq<byte>)
    requires bndSize >= 1
    ensures |b| < bndSize && CText(b)
  {
    Truncate(BoundaryPrefix + Decimal(ticks), bndSize)
  }

  lemma {:induction false} Pow10Add(a: nat, b: nat)
    ensures Pow10(a + b) == Pow10(a) * Pow10(b)
    decreases a
  {
    if a > 0 {
      Pow10Add(a - 1, b);
    }
  }

  /** A 64-bit counter prints in at most 20 characters, so a 64-byte buffer holds the whole boundary. */
  lemma BoundaryFits(ticks: int)
    requires -0x8000_0000_0000_0000 <= ticks < 0x8000_0000_0000_0000
    ensures Boundary(ticks, 64) == BoundaryPrefix + Decimal(ticks)
    ensures |Boundary(ticks, 64)| <= 33
  {
    assert Pow10(3) == 1000;
    Pow10Add(3, 3);
    Pow10Add(6, 6);
    Pow10Add(12, 6);
    Pow10Add(18, 1);
    assert Pow10(19) == 10_000_000_000_000_000_000;
    if ticks < 0 {
      DigitsLength(-ticks, 19, Pow10(19));
    } else {
      DigitsLength(ticks, 19, Pow10(19));
    }
  }

  // The pieces of the format strings, as ASCII bytes.
  const Dash: seq<byte> := [45, 45]  // `--`
  const Crlf: seq<byte> := [13, 10]  // `\r\n`
  const Quote: seq<byte> := [34]  // `"`
  const DispOpen: seq<byte> := [67, 111, 110, 116, 101, 110, 116, 45, 68, 105, 115, 112, 111, 115, 105, 116, 105, 111, 110, 58, 32, 102, 111, 114, 109, 45, 100, 97, 116, 97, 59, 32, 110, 97, 109, 101, 61, 34]  // `Content-Disposition: form-data; name="`
  const FileName: seq<byte> := [59, 32, 102, 105, 108, 101, 110, 97, 109, 101, 61, 34, 97, 117, 100, 105, 111, 46, 119, 97, 118, 34]  // `; filename="audio.wav"`
  const WavType: seq<byte> := [67, 111, 110, 116, 101, 110, 116, 45, 84, 121, 112, 101, 58, 32, 97, 117, 100, 105, 111, 47, 119, 97, 118]  // `Content-Type: audio/wav`
  const FileField: seq<byte> := [102, 105, 108, 101]  // `file`
  const FormatField: seq<byte> := [114, 101, 115, 112, 111, 110, 115, 101, 95, 102, 111, 114, 109, 97, 116]  // `response_format`
  const LanguageField: seq<byte> := [108, 97, 110, 103, 117, 97, 103, 101]  // `language`
  const PromptField: seq<byte> := [112, 114, 111, 109, 112, 116]  // `prompt`
  const VerboseJson: seq<byte> := [118, 101, 114, 98, 111, 115, 101, 95, 106, 115, 111, 110]  // `verbose_json`
  const BoundaryPrefix: seq<byte> := [45, 45, 45, 45, 65, 115, 114, 67, 108, 105, 101, 110, 116]  // `----AsrClient`

  /** The first snprintf: the file part's delimiter, disposition and content type, then the blank line. */
  function FileHead(b: seq<byte>): seq<byte>
  {
    Dash + b + Crlf + DispOpen + FileField + Quote + FileName + Crlf + WavType + Crlf + Crlf
  }

  /** The snprintf of a text field: delimiter, disposition with the field name, blank line, value, CRLF. */
  function TextField(b: seq<byte>, name: seq<byte>, v: seq<byte>): seq<byte>
  {
    Dash + b + Crlf + DispOpen + name + Quote + Crlf + Crlf + v + Crlf
  }

  /** The last snprintf: the closing delimiter. */
  function Closing(b: seq<byte>): seq<byte>
  {
    Dash + b + Dash + Crlf
  }

  /** The optional fields, present only when the string is not empty. */
  function Optional(b: seq<byte>, name: seq<byte>, v: seq<byte>): seq<byte>
  {
    if |v| > 0 then TextField(b, name, v) else []
  }

  /** The body build_multipart_fmt produces, piece by piece. */
  function Body(wav: seq<byte>, language: seq<byte>, prompt: seq<byte>, b: seq<byte>, format: seq<byte>): seq<byte>
  {
    FileHead(b) + wav + Crlf
    + TextField(b, FormatField, format)
    + Optional(b, LanguageField, language)
    + Optional(b, PromptField, prompt)
    + Closing(b)
  }

  // ----- multipart/form-data as section 5.1.1 of RFC 2046 defines it -----

  /** One body part: its header lines and its content. */
  datatype Part = Part(headers: seq<seq<byte>>, content: seq<byte>)

  /** Header lines, each ended by CRLF. */
  function HeaderLines(hs: seq<seq<byte>>): seq<byte>
  {
    if |hs| == 0 then [] else hs[0] + Crlf + HeaderLines(hs[1..])
  }

  /** A part: delimiter line, header lines, blank line, content, and the CRLF that ends it. */
  function PartBytes(b: seq<byte>, p: Part): seq<byte>
  {
    Dash + b + Crlf + HeaderLines(p.headers) + Crlf + p.content + Crlf
  }

  /** The parts in order, then the close delimiter. */
  function Encode(b: seq<byte>, ps: seq<Part>): seq<byte>
  {
    if |ps| == 0 then Dash + b + Dash + Crlf else PartBytes(b, ps[0]) + Encode(b, ps[1..])
  }

  function Disposition(name: seq<byte>): seq<byte>
  {
    DispOpen + name + Quote
  }

  function TextPart(name: seq<byte>, v: seq<byte>): Part
  {
    Part([Disposition(name)], v)
  }

  /** The file part: the WAV under the name `file` with its file name and content type. */
  function FilePart(wav: seq<byte>): Part
  {
    Part([Disposition(FileField) + FileName, WavType], wav)
  }

  /** The fields the client sends: the file, the format, and the non-empty language and prompt. */
  function FormParts(wav: seq<byte>, language: seq<byte>, prompt: seq<byte>, format: seq<byte>): seq<Part>
  {
    [FilePart(wav)] + ([TextPart(FormatField, format)]
      + (OptionalPart(LanguageField, language) + OptionalPart(PromptField, prompt)))
  }

  /** A text part present only when its value is not empty. */
  function OptionalPart(name: seq<byte>, v: seq<byte>): seq<Part>
  {
    if |v| > 0 then [TextPart(name, v)] else []
  }

  lemma TextFieldIsPart(b: seq<byte>, name: seq<byte>, v: seq<byte>)
    ensures TextField(b, name, v) == PartBytes(b, TextPart(name, v))
  {
    assert HeaderLines([Disposition(name)]) == Disposition(name) + Crlf;
  }

  lemma FileHeadIsPart(b: seq<byte>, wav: seq<byte>)
    ensures FileHead(b) + wav + Crlf
      == PartBytes(b, FilePart(wav))
  {
    var h1 := Disposition(FileField) + FileName;
    var hs := [h1, WavType];
    assert hs[1..] == [WavType];
    assert [WavType][1..] == [];
    assert HeaderLines([WavType]) == WavType + Crlf;
    assert HeaderLines(hs) == h1 + Crlf + HeaderLines([WavType]);
  }

  /** The client's body is exactly the multipart/form-data encoding of its fields under its boundary. */
  lemma BodyIsFormData(wav: seq<byte>, language: seq<byte>, prompt: seq<byte>, b: seq<byte>, format: seq<byte>)
    ensures Body(wav, language, prompt, b, format) == Encode(b, FormParts(wav, language, prompt, format))
  {
    var rp := TextPart(FormatField, format);
    var lp := OptionalPart(LanguageField, language);
    var pp := OptionalPart(PromptField, prompt);
    var l := Optional(b, LanguageField, language);
    var p := Optional(b, PromptField, prompt);
    var c := Closing(b);
    FileHeadIsPart(b, wav);
    TextFieldIsPart(b, FormatField, format);
    OptionalIsPart(b, PromptField, prompt, []);
    assert pp + [] == pp;
    assert Encode(b, pp) == p + c;
    OptionalIsPart(b, LanguageField, language, pp);
    assert Encode(b, lp + pp) == l + (p + c);
    EncodeOne(b, rp, lp + pp);
    EncodeOne(b, FilePart(wav), [rp] + (lp + pp));
    Regroup(FileHead(b) + wav + Crlf, TextField(b, FormatField, format), l, p, c);
  }

  lemma Regroup(a: seq<byte>, f: seq<byte>, l: seq<byte>, p: seq<byte>, c: seq<byte>)
    ensures a + f + l + p + c == a + (f + (l + (p + c)))
  {
  }

  lemma EncodeOne(b: seq<byte>, p: Part, rest: seq<Part>)
    ensures Encode(b, [p] + rest) == PartBytes(b, p) + Encode(b, rest)
  {
    assert ([p] + rest)[1..] == rest;
  }

  lemma OptionalIsPart(b: seq<byte>, name: seq<byte>, v: seq<byte>, rest: seq<Part>)
    ensures Encode(b, OptionalPart(name, v) + rest) == Optional(b, name, v) + Encode(b, rest)
  {
    if |v| > 0 {
      TextFieldIsPart(b, name, v);
      EncodeOne(b, TextPart(name, v), rest);
    } else {
      assert OptionalPart(name, v) + rest == rest;
    }
  }

  /** The WAV file sits unchanged right after the file part's header. */
  lemma WavEmbedded(wav: seq<byte>, language: seq<byte>, prompt: seq<byte>, b: seq<byte>, format: seq<byte>)
    ensures var body := Body(wav, language, prompt, b, format); var h := |FileHead(b)|;
      h + |wav| <= |body| && body[h..h + |wav|] == wav && body[..h] == FileHead(b)
  {
    var rest := Crlf + TextField(b, FormatField, format) + Optional(b, LanguageField, language)
      + Optional(b, PromptField, prompt) + Closing(b);
    var head := FileHead(b);
    assert Body(wav, language, prompt, b, format) == head + wav + rest;
    Middle(head, wav, rest);
  }

  lemma Middle(a: seq<byte>, m: seq<byte>, c: seq<byte>)
    ensures (a + m + c)[..|a|] == a && (a + m + c)[|a|..|a| + |m|] == m
  {
  }

  /** The body's length: the WAV, the values, and a fixed overhead of one boundary and some header text per part. */
  lemma BodyLength(wav: seq<byte>, language: seq<byte>, prompt: seq<byte>, b: seq<byte>, format: seq<byte>)
    ensures |Body(wav, language, prompt, b, format)|
      == |wav| + 3 * |b| + 170 + |format|
         + (if |language| > 0 then |b| + 57 + |language| else 0)
         + (if |prompt| > 0 then |b| + 55 + |prompt| else 0)
  {
  }

  // ----- the buffer writes -----

  /** One `snprintf` that fits: the text and its NUL are written at pos, and pos moves past the text. */
  method Emit(body: array<byte>, pos: nat, piece: seq<byte>, ghost written: seq<byte>) returns (next: nat)
    requires pos + |piece| < body.Length && body[..pos] == written
    modifies body
    ensures next == pos + |piece|
    ensures body[..next] == written + piece && body[next] == 0
  {
    Copy(body, pos, piece);
    next := pos + |piece|;
    body[next] := 0;
  }

  /** The `memcpy` of bytes into the buffer at pos. */
  method Copy(body: array<byte>, pos: nat, v: seq<byte>)
    requires pos + |v| <= body.Length
    modifies body
    ensures body[..pos + |v|] == old(body[..pos]) + v
  {
    var k := 0;
    while k < |v|
      invariant 0 <= k <= |v|
      invariant body[..pos + k] == old(body[..pos]) + v[..k]
    {
      body[pos + k] := v[k];
      assert v[..k + 1] == v[..k] + [v[k]];
      k := k + 1;
    }
  }

  /**
   * The appends of build_multipart_fmt into a buffer: the file part's
   * header, the WAV, CRLF, the format field, the language and prompt
   * fields when they are not empty, the closing delimiter.  Each `snprintf`
   * is given the remaining room; the body must fit with its final NUL,
   * otherwise the last text is cut and any later room computation wraps
   * around (undefined behaviour, not modelled).
   */
  method AppendAll(body: array<byte>, head: seq<byte>, wav: seq<byte>, fmt: seq<byte>,
                   lang: seq<byte>, prm: seq<byte>, close: seq<byte>)
    returns (size: nat)
    requires |head + wav + Crlf + fmt + lang + prm + close| < body.Length
    modifies body
    ensures size <= body.Length && body[..size] == head + wav + Crlf + fmt + lang + prm + close
  {
    var pos := Emit(body, 0, head, []);
    ghost var w := head;
    Copy(body, pos, wav);
    pos := pos + |wav|;
    w := w + wav;
    pos := Emit(body, pos, Crlf, w);
    w := w + Crlf;
    pos := Emit(body, pos, fmt, w);
    w := w + fmt;
    if |lang| > 0 {
      pos := Emit(body, pos, lang, w);
    }
    w := w + lang;
    if |prm| > 0 {
      pos := Emit(body, pos, prm, w);
    }
    w := w + prm;
    pos := Emit(body, pos, close, w);
    size := pos;
  }

  /** The pieces in the order build_multipart_fmt appends them. */
  method AppendBody(body: array<byte>, wav: seq<byte>, language: seq<byte>, prompt: seq<byte>, b: seq<byte>, format: seq<byte>)
    returns (size: nat)
    requires |Body(wav, language, prompt, b, format)| < body.Length
    modifies body
    ensures size <= body.Length && body[..size] == Body(wav, language, prompt, b, format)
  {
    size := AppendAll(body, FileHead(b), wav, TextField(b, FormatField, format),
      Optional(b, LanguageField, language), Optional(b, PromptField, prompt), Closing(b));
  }

  /** build_multipart_fmt: the boundary from the counter, a buffer of the WAV size plus 2048, the appends. */
  method BuildMultipartFmt(wav: seq<byte>, language: seq<byte>, prompt: seq<byte>, format: seq<byte>,
                           ticks: int, bndSize: nat)
    returns (body: array<byte>, size: nat, boundary: seq<byte>)
    requires bndSize >= 1
    requires |Body(wav, language, prompt, Boundary(ticks, bndSize), format)| < |wav| + 2048
    ensures boundary == Boundary(ticks, bndSize)
    ensures size <= body.Length && body[..size] == Body(wav, language, prompt, boundary, format)
  {
    boundary := Boundary(ticks, bndSize);
    var est := |wav| + 2048;
    body := new byte[est];
    size := AppendBody(body, wav, language, prompt, boundary, format);
  }

  /** asr_build_multipart: the same body with the format `verbose_json`. */
  method BuildMultipart(wav: seq<byte>, language: seq<byte>, prompt: seq<byte>, ticks: int, bndSize: nat)
    returns (body: array<byte>, size: nat, boundary: seq<byte>)
    requires bndSize >= 1
    requires |Body(wav, language, prompt, Boundary(ticks, bndSize), VerboseJson)| < |wav| + 2048
    ensures boundary == Boundary(ticks, bndSize)
    ensures size <= body.Length && body[..size] == Body(wav, language, prompt, boundary, VerboseJson)
  {
    body, size, boundary := BuildMultipartFmt(wav, language, prompt, VerboseJson, ticks, bndSize);
  }

  /**
   * The fixed 2048 bytes of slack do not cover a long prompt (the GUI keeps
   * up to 4095 bytes of it): with a 2000-byte prompt the body of any WAV no
   * longer fits the buffer, so the last `snprintf` is cut short, `pos`
   * passes `est` and the next room computation wraps around.
   */
  lemma PromptOverflow(wav: seq<byte>, ticks: int)
    ensures var prompt := seq(2000, _ => 0x61);
      |Body(wav, [], prompt, Boundary(ticks, 64), VerboseJson)| >= |wav| + 2048
  {
    var prompt: seq<byte> := seq(2000, _ => 0x61);
    BodyLength(wav, [], prompt, Boundary(ticks, 64), VerboseJson);
  }

  /** The buffer size that always suffices: the slack plus the lengths of the three strings. */
  function SizedEstimate(wavSize: nat, language: seq<byte>, prompt: seq<byte>, format: seq<byte>): nat
  {
    wavSize + 2048 + |language| + |prompt| + |format|
  }

  /** With a boundary from a 64-byte buffer the sized estimate always holds the body and its NUL. */
  lemma SizedFits(wav: seq<byte>, language: seq<byte>, prompt: seq<byte>, b: seq<byte>, format: seq<byte>)
    requires |b| < 64
    ensures |Body(wav, language, prompt, b, format)| < SizedEstimate(|wav|, language, prompt, format)
  {
    BodyLength(wav, language, prompt, b, format);
  }

  /** build_multipart_fmt with the sized estimate: no precondition on the lengths. */
  method BuildMultipartSized(wav: seq<byte>, language: seq<byte>, prompt: seq<byte>, format: seq<byte>, ticks: int)
    returns (body: array<byte>, size: nat, boundary: seq<byte>)
    ensures boundary == Boundary(ticks, 64)
    ensures size <= body.Length && body[..size] == Body(wav, language, prompt, boundary, format)
  {
    boundary := Boundary(ticks, 64);
    var est := SizedEstimate(|wav|, language, prompt, format);
    body := new byte[est];
    SizedFits(wav, language, prompt, boundary, format);
    size := AppendBody(body, wav, language, prompt, boundary, format);
  }
}
