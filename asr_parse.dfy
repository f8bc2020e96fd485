/**
 * `asr_parse_response`: the speech backend's JSON answer read with
 * `strstr`/`strchr`/`atoi` rather than a JSON parser.  The text value is
 * cut at its closing quote and unescaped; the `words` array yields one
 * timestamp per object, with `byte_offset` and `audio_ms` looked up inside
 * the object.  The perf fields are floats and are not modelled.
 */
module AsrParse {
  import opened Seqs
  import opened Bytes
  import opened CStrings
  import opened JsonText
  import opened AsrTypes

  /** The parsed result: the text (None when the key or its quote is missing), the stamps and the pass kind. */
  datatype Response = Response(text: Option<string>, stamps: seq<Stamp>, isFinal: bool)

  const TextKey: string := "\"text\""
  const WordsKey: string := "\"words\""
  const OffsetKey: string := "\"byte_offset\""
  const MsKey: string := "\"audio_ms\""

  // ----- the text value -----

  /**
   * The end scan as written: the first quote whose preceding byte is not a
   * backslash, or the terminator.  A value ending in an escaped backslash
   * therefore runs past its closing quote.
   */
  function QuoteEnd(s: string, k: nat): (e: nat)
    requires 1 <= k <= |s|
    ensures k <= e <= |s|
    ensures e < |s| ==> s[e] == '\0' || (s[e] == '"' && s[e - 1] != '\\')
    decreases |s| - k
  {
    if At(s, k) == '\0' || (s[k] == '"' && s[k - 1] != '\\') then k else QuoteEnd(s, k + 1)
  }

  /** The end of a JSON string body: the first quote that is not part of an escape pair. */
  function StringEnd(s: string, k: nat): (e: nat)
    requires k <= |s|
    ensures k <= e <= |s|
    ensures e < |s| ==> s[e] == '"' || s[e] == '\0'
    decreases |s| - k
  {
    if At(s, k) == '\0' || s[k] == '"' then k
    else if s[k] == '\\' && At(s, k + 1) != '\0' then StringEnd(s, k + 2)
    else StringEnd(s, k + 1)
  }

  /** The unescape loop over the cut value: a backslash with a byte after it is an escape, a final one is kept. */
  function UnescapeAt(raw: string, i: nat): (t: string)
    ensures |t| <= |raw| - i || i > |raw|
    decreases |raw| - i
  {
    if i >= |raw| then ""
    else if raw[i] == '\\' && i + 1 < |raw| then [Unescaped(raw[i + 1])] + UnescapeAt(raw, i + 2)
    else [raw[i]] + UnescapeAt(raw, i + 1)
  }

  /** Where the text value starts: just past the first quote after the `"text"` key. */
  function TextStart(json: string): (p: int)
    ensures p == -1 || 1 <= p <= |json|
  {
    var tp := Find(json, TextKey, 0);
    if tp < 0 then -1
    else
      var q := FindChar(json, '"', tp + 6);
      if q < 0 then -1 else q + 1
  }

  /** The text value, with the end scan as written or the escape-aware one. */
  function TextWith(json: string, asWritten: bool): Option<string>
  {
    var p := TextStart(json);
    if p < 0 then None
    else
      var e := if asWritten then QuoteEnd(json, p) else StringEnd(json, p);
      Some(UnescapeAt(json[p..e], 0))
  }

  // ----- the words array -----

  /** The count loop: the `{` from i up to the first `]` or the terminator. */
  function CountObjects(s: string, i: nat): nat
    decreases |s| - i
  {
    if At(s, i) == '\0' || s[i] == ']' then 0
    else (if s[i] == '{' then 1 else 0) + CountObjects(s, i + 1)
  }

  /** `atoi(strchr(p, ':') + 1)`: the number after the next colon; 0 when there is none. */
  function Field(s: string, p: nat): int
  {
    var c := FindChar(s, ':', p);
    if c < 0 then 0 else Atoi(s, c + 1)
  }

  /** A key's number when the key's first occurrence from o lies before the object's end e; 0 otherwise. */
  function KeyValue(s: string, key: string, o: nat, e: nat): int
  {
    var k := Find(s, key, o);
    if 0 <= k < e then Field(s, k + |key|) else 0
  }

  /** The stamp of the object from o to e. */
  function StampAt(s: string, o: nat, e: nat): Stamp
  {
    Stamp(KeyValue(s, OffsetKey, o, e), KeyValue(s, MsKey, o, e))
  }

  /** The zeroed entries of the `calloc`ed array. */
  function Zeros(n: nat): (z: seq<Stamp>)
    ensures |z| == n && forall k :: 0 <= k < n ==> z[k] == Stamp(0, 0)
  {
    seq(n, _ => Stamp(0, 0))
  }

  /** The next object from wp: its `{` and the first `}` after it, when both exist. */
  function NextObject(s: string, wp: nat): (r: Option<(nat, nat)>)
    ensures r.Some? ==> r.value.0 <= r.value.1 < |s| && s[r.value.0] == '{' && s[r.value.1] == '}'
  {
    var o := FindChar(s, '{', wp);
    if o < 0 then None
    else
      var e := FindChar(s, '}', o);
      if e < 0 then None else Some((o, e))
  }

  /** Entries i.. of the words loop from wp: one object per entry; a missing `{` or `}` leaves the rest zero. */
  function StampsFrom(s: string, wp: nat, i: nat, count: nat): (r: seq<Stamp>)
    requires i <= count
    ensures |r| == count - i
    decreases count - i
  {
    var next := NextObject(s, wp);
    if i == count then []
    else if next.None? then Zeros(count - i)
    else [StampAt(s, next.value.0, next.value.1)] + StampsFrom(s, next.value.1 + 1, i + 1, count)
  }

  /** Where the words array starts: its `[`, or -1. */
  function WordsStart(json: string): (w: int)
    ensures w == -1 || 0 <= w < |json|
  {
    var wa := Find(json, WordsKey, 0);
    if wa < 0 then -1 else FindChar(json, '[', wa)
  }

  /** The timestamps: one per `{` in the array, none without the key or its `[`. */
  function Words(json: string): (r: seq<Stamp>)
    ensures WordsStart(json) >= 0 ==> |r| == CountObjects(json, WordsStart(json))
  {
    var w := WordsStart(json);
    if w < 0 then [] else StampsFrom(json, w + 1, 0, CountObjects(json, w))
  }

  /** asr_parse_response as written. */
  function ParseAsWritten(json: string, isFinal: bool): Response
  {
    Response(TextWith(json, true), Words(json), isFinal)
  }

  /** asr_parse_response with the escape-aware end scan. */
  function Parse(json: string, isFinal: bool): Response
  {
    Response(TextWith(json, false), Words(json), isFinal)
  }

  // ----- the loops as they run -----

  /** The end scan loop. */
  method ScanEnd(json: string, start: nat) returns (e: nat)
    requires 1 <= start <= |json|
    ensures e == QuoteEnd(json, start)
  {
    e := start;
    while At(json, e) != '\0' && !(json[e] == '"' && json[e - 1] != '\\')
      invariant start <= e <= |json|
      invariant QuoteEnd(json, e) == QuoteEnd(json, start)
      decreases |json| - e
    {
      e := e + 1;
    }
  }

  /** The unescape loop over the tlen bytes of the value. */
  method UnescapeValue(raw: string) returns (t: string)
    ensures t == UnescapeAt(raw, 0)
  {
    t := "";
    var i := 0;
    while i < |raw|
      invariant 0 <= i <= |raw|
      invariant t + UnescapeAt(raw, i) == UnescapeAt(raw, 0)
      decreases |raw| - i
    {
      var c := raw[i];
      var next := i + 1;
      if raw[i] == '\\' && i + 1 < |raw| {
        c := Unescaped(raw[i + 1]);
        next := i + 2;
      }
      assert UnescapeAt(raw, i) == [c] + UnescapeAt(raw, next);
      Assoc(t, [c], UnescapeAt(raw, next));
      t := t + [c];
      i := next;
    }
  }

  /** The count loop. */
  method Count(json: string, w: nat) returns (count: nat)
    ensures count == CountObjects(json, w)
  {
    count := 0;
    var scan := w;
    while At(json, scan) != '\0' && json[scan] != ']'
      invariant count + CountObjects(json, scan) == CountObjects(json, w)
      decreases |json| - scan
    {
      if json[scan] == '{' {
        count := count + 1;
      }
      scan := scan + 1;
    }
  }

  /** The object loop: fills a zeroed array of count stamps, stopping early when an object is cut off. */
  method ReadObjects(json: string, w: nat, count: nat) returns (stamps: seq<Stamp>)
    ensures stamps == StampsFrom(json, w + 1, 0, count)
  {
    var filled: seq<Stamp> := [];
    var wp: nat := w + 1;
    var i := 0;
    while i < count
      invariant 0 <= i <= count && |filled| == i
      invariant filled + StampsFrom(json, wp, i, count) == StampsFrom(json, w + 1, 0, count)
      decreases count - i
    {
      var found, st, after := ReadNext(json, wp);
      if !found {
        // the entries the loop did not reach keep calloc's zeros
        StampsStop(json, wp, i, count);
        return filled + Zeros(count - i);
      }
      StampsStep(json, wp, i, count);
      Assoc(filled, [st], StampsFrom(json, after, i + 1, count));
      filled := filled + [st];
      wp := after;
      i := i + 1;
    }
    stamps := filled;
  }

  /** One trip of the object loop: the next `{` and its `}`, the stamp between and where the scan goes on; not found when either brace is missing. */
  method ReadNext(json: string, wp: nat) returns (found: bool, st: Stamp, after: nat)
    ensures found == NextObject(json, wp).Some?
    ensures found ==> st == StampAt(json, NextObject(json, wp).value.0, NextObject(json, wp).value.1)
    ensures found ==> after == NextObject(json, wp).value.1 + 1
  {
    found, st, after := false, Stamp(0, 0), wp;
    var o := FindChar(json, '{', wp);
    if o < 0 {
      return;
    }
    var e := FindChar(json, '}', o);
    if e < 0 {
      return;
    }
    found, st, after := true, StampAt(json, o, e), e + 1;
  }

  /** A missing object ends the words loop: the rest stay zero. */
  lemma StampsStop(s: string, wp: nat, i: nat, count: nat)
    requires i <= count && NextObject(s, wp).None?
    ensures StampsFrom(s, wp, i, count) == Zeros(count - i)
  {
  }

  /** One step of the words loop from wp. */
  lemma StampsStep(s: string, wp: nat, i: nat, count: nat)
    requires i < count && NextObject(s, wp).Some?
    ensures var next := NextObject(s, wp);
      StampsFrom(s, wp, i, count) == [StampAt(s, next.value.0, next.value.1)] + StampsFrom(s, next.value.1 + 1, i + 1, count)
  {
  }

  /** The text part: the value start, the end scan and the unescape. */
  method ReadText(json: string) returns (text: Option<string>)
    ensures text == TextWith(json, true)
  {
    text := None;
    var p := TextStart(json);
    if p >= 0 {
      var e := ScanEnd(json, p);
      var t := UnescapeValue(json[p..e]);
      text := Some(t);
    }
  }

  /** asr_parse_response: the text, then the words array. */
  method AsrParseResponse(json: string, isFinal: bool) returns (r: Response)
    ensures r == ParseAsWritten(json, isFinal)
  {
    var text := ReadText(json);
    var stamps := ReadWords(json);
    r := Response(text, stamps, isFinal);
  }

  /** The words part: the array start, the count loop and the object loop. */
  method ReadWords(json: string) returns (stamps: seq<Stamp>)
    ensures stamps == Words(json)
  {
    stamps := [];
    var w := WordsStart(json);
    if w >= 0 {
      var count := Count(json, w);
      if count > 0 {
        stamps := ReadObjects(json, w, count);
      }
    }
  }

  // ----- the text value read back -----

  /** The escape-aware scan stops at the quote that closes an escaped NUL-free value. */
  lemma {:induction false} StringEndEscape(s: string, i: nat, t: string)
    requires NoNul(t)
    requires i + |Escape(t)| < |s| && s[i..i + |Escape(t)|] == Escape(t) && s[i + |Escape(t)|] == '"'
    ensures StringEnd(s, i) == i + |Escape(t)|
    decreases |t|
  {
    if |t| > 0 {
      var e := EscapeChar(t[0]);
      var rest := Escape(t[1..]);
      assert Escape(t) == e + rest;
      SliceParts(s, i, e, rest);
      assert s[i] == s[i..i + |e|][0] == e[0];
      StringEndEscape(s, i + |e|, t[1..]);
      if NeedsEscape(t[0]) {
        assert s[i] == '\\' && s[i + 1] == EscapeLetter(t[0]) != '\0';
        assert StringEnd(s, i) == StringEnd(s, i + 2);
      } else {
        assert s[i] == t[0] && t[0] != '\0' && t[0] != '"' && t[0] != '\\';
        assert StringEnd(s, i) == StringEnd(s, i + 1);
      }
    }
  }

  /** Unescaping the escape of t gives t back. */
  lemma {:induction false} UnescapeAtEscape(raw: string, i: nat, t: string)
    requires i <= |raw| && raw[i..] == Escape(t)
    ensures UnescapeAt(raw, i) == t
    decreases |t|
  {
    if |t| > 0 {
      var e := EscapeChar(t[0]);
      assert Escape(t) == e + Escape(t[1..]);
      SuffixParts(raw, i, e, Escape(t[1..]));
      assert raw[i + 0] == e[0];
      if NeedsEscape(t[0]) {
        assert raw[i + 1] == e[1];
      }
      UnescapeAtEscape(raw, i + |e|, t[1..]);
    }
  }

  /** The opening of a response whose first member is the text: `{"text":"`. */
  const TextOpen: string := "{\"text\":\""

  /** After `{"text":"` the value starts at byte 9, whatever follows. */
  lemma TextStartOpen(rest: string)
    ensures TextStart(TextOpen + rest) == 9
  {
    var json := TextOpen + rest;
    assert json[..9] == TextOpen;
    assert json[0] == '{' && json[7] == ':' && json[8] == '"';
    assert json[1..7] == TextKey;
    assert !Occurs(json, TextKey, 0);
    assert Find(json, TextKey, 1) == 1;
    assert FindChar(json, '"', 8) == 8;
  }

  /** With the escape-aware scan, any NUL-free text the backend escapes is read back exactly. */
  lemma TextRoundTrip(t: string, rest: string)
    requires NoNul(t)
    ensures TextWith(TextOpen + Escape(t) + ['"'] + rest, false) == Some(t)
  {
    var e := Escape(t);
    var body := e + ['"'] + rest;
    var json := TextOpen + body;
    assert json == TextOpen + e + ['"'] + rest;
    TextStartOpen(body);
    assert json[9..] == body;
    assert body[..|e|] == e;
    assert json[9..9 + |e|] == e && json[9 + |e|] == '"';
    StringEndEscape(json, 9, t);
    UnescapeAtEscape(e, 0, t);
  }

  /**
   * The end scan as written is fooled by a value that ends in an escaped
   * backslash: `{"text":"C:\\"}` reads as `C:\"}` (the closing quote and
   * brace included), where the escape-aware scan gives `C:\`.
   */
  lemma TextEndCounterexample()
    ensures TextWith(TextOpen + "C:\\\\\"}", true) == Some("C:\\\"}")
  {
    var v := "C:\\\\\"}";
    var json := TextOpen + v;
    TextStartOpen(v);
    assert json[9..] == v;
    assert json[13] == '"' && json[14] == '}' && |json| == 15;
    assert QuoteEnd(json, 14) == 15;
    assert QuoteEnd(json, 9) == 15;
    assert json[9..15] == v;
    assert UnescapeAt(v, 4) == "\"}";
    assert UnescapeAt(v, 2) == "\\\"}";
    assert UnescapeAt(v, 0) == "C:\\\"}";
  }

  /** On the same input the escape-aware scan stops at the closing quote. */
  lemma TextEndEscapeAware()
    ensures TextWith(TextOpen + "C:\\\\\"}", false) == Some("C:\\")
  {
    var v := "C:\\\\\"}";
    var json := TextOpen + v;
    TextStartOpen(v);
    assert json[9..] == v;
    assert json[9] == 'C' && json[10] == ':' && json[11] == '\\' && json[12] == '\\';
    assert json[13] == '"' && |json| == 15;
    assert StringEnd(json, 11) == 13;
    assert StringEnd(json, 9) == 13;
    var cut := json[9..13];
    assert cut == v[..4] && |cut| == 4 && cut[2] == '\\' && cut[3] == '\\';
    assert UnescapeAt(cut, 2) == "\\";
    assert UnescapeAt(cut, 0) == "C:\\";
  }
}
