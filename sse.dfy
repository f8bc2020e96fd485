/**
 * The streaming transcription reader of the speech client
 * (`asr_transcribe_stream`, `sse_parse_token_event`): the response is a
 * Server-Sent Events stream (a subset of section 9.2 of the WHATWG HTML
 * Living Standard) read in chunks of any size.  Bytes collect into a
 * 4096-byte line buffer; a newline ends the line, one trailing carriage
 * return is dropped, and only `data: ` lines with a payload count.  A
 * payload holding the `"done"` key is kept for the final parse (the last
 * one wins); any other is a token event handed to the token callback.
 */
module SseEvents {
  import opened Bytes
  import opened CStrings
  import opened JsonText
  import opened AsrParse

  /** One token event as passed to the callback. */
  datatype Token = Token(text: string, audioMs: int, byteOffset: int)

  const TokenKey: string := "\"token\""
  const DoneKey: string := "\"done\""
  const DataPrefix: string := "data: "

  /** The sizes of `line_buf`, `done_buf` and the token text buffer. */
  const LineSize: int := 4096
  const DoneSize: int := 65536
  const TokenSize: int := 512

  // ----- sse_parse_token_event -----

  /** `atoi` of the number after the first occurrence of key; 0 when the key is absent. */
  function KeyNumber(json: string, key: string): (n: int)
    ensures (forall k :: !Occurs(json, key, k)) ==> n == 0
  {
    var p := Find(json, key, 0);
    if p < 0 then 0 else Field(json, p + |key|)
  }

  /**
   * A token event: None without a `"token"` key or without a quote after
   * it; otherwise the unescaped value, cut to cap - 1 bytes, and the two
   * numbers, each 0 when its key is missing.
   */
  function TokenEvent(json: string, cap: int): (r: Option<Token>)
    ensures r.None? <==> TokenStart(json) < 0
  {
    match TokenText(json, cap)
    case None => None
    case Some(t) => Some(Token(t, KeyNumber(json, MsKey), KeyNumber(json, OffsetKey)))
  }

  /** Where the token value starts: just past the first quote after the `"token"` key, or -1. */
  function TokenStart(json: string): (p: int)
    ensures p == -1 || 1 <= p <= |json|
  {
    var tp := Find(json, TokenKey, 0);
    if tp < 0 then -1
    else
      var q := FindChar(json, '"', tp + 7);
      if q < 0 then -1 else q + 1
  }

  /** The token value, unescaped into a buffer of cap bytes. */
  function TokenText(json: string, cap: int): (r: Option<string>)
    ensures r.None? <==> TokenStart(json) < 0
  {
    var p := TokenStart(json);
    if p < 0 then None else Some(UnescapeFrom(json, p, "", cap))
  }

  /** sse_parse_token_event: 1 and the fields for a token event, 0 otherwise. */
  method ParseTokenEvent(json: string, cap: int) returns (ok: bool, text: string, audioMs: int, byteOffset: int)
    ensures ok == TokenEvent(json, cap).Some?
    ensures ok ==> Token(text, audioMs, byteOffset) == TokenEvent(json, cap).value
  {
    ok, text, audioMs, byteOffset := false, "", 0, 0;
    var tp := Find(json, TokenKey, 0);
    if tp < 0 {
      return;
    }
    var q := FindChar(json, '"', tp + 7);
    if q < 0 {
      return;
    }
    text := UnescapeLoop(json, q + 1, cap);
    audioMs := KeyNumber(json, MsKey);
    byteOffset := KeyNumber(json, OffsetKey);
    ok := true;
  }

  /** Without a `"token"` key there is no token event; with one, there is one unless no quote follows the key. */
  lemma TokenEventKey(json: string, cap: int)
    ensures (forall k :: !Occurs(json, TokenKey, k)) ==> TokenEvent(json, cap).None?
    ensures TokenEvent(json, cap).Some? <==>
      (exists k :: Occurs(json, TokenKey, k)) && FindChar(json, '"', Find(json, TokenKey, 0) + 7) >= 0
  {
    FindFirst(json, TokenKey, 0);
  }

  /** The token text always fits its buffer: at most cap - 1 bytes. */
  lemma TokenBound(json: string, cap: int)
    requires cap >= 1 && TokenEvent(json, cap).Some?
    ensures |TokenEvent(json, cap).value.text| <= cap - 1
  {
    UnescapeBound(json, TokenStart(json), "", cap);
  }

  /** The opening of a token event: `{"token":"`. */
  const TokenOpen: string := "{\"token\":\""

  /** After `{"token":"` the token value starts at byte 10, whatever follows. */
  lemma TokenStartOpen(rest: string)
    ensures TokenStart(TokenOpen + rest) == 10
  {
    var json := TokenOpen + rest;
    assert json[..10] == TokenOpen;
    assert json[0] == '{' && json[8] == ':' && json[9] == '"';
    assert json[1..8] == TokenKey;
    assert !Occurs(json, TokenKey, 0);
    assert Find(json, TokenKey, 1) == 1;
    assert FindChar(json, '"', 9) == 9;
  }

  /** A value between a prefix and a quote sits right after the prefix. */
  lemma QuotedAfter(pre: string, e: string, rest: string)
    ensures var s := pre + (e + ['"'] + rest);
      |pre| + |e| < |s| && s[|pre|..|pre| + |e|] == e && s[|pre| + |e|] == '"'
  {
    var s := pre + (e + ['"'] + rest);
    assert s[|pre|..] == e + ['"'] + rest;
  }

  /** A NUL-free token the server escapes into an event is handed on exactly, when it fits the buffer. */
  lemma TokenRoundTrip(t: string, rest: string, cap: int)
    requires NoNul(t) && |t| < cap
    ensures TokenText(TokenOpen + (Escape(t) + ['"'] + rest), cap) == Some(t)
  {
    var e := Escape(t);
    TokenStartOpen(e + ['"'] + rest);
    QuotedAfter(TokenOpen, e, rest);
    TokenValueAt(TokenOpen + (e + ['"'] + rest), t, cap);
  }

  /** The escaped token in place at byte 10, closed by a quote, unescapes back to the token. */
  lemma TokenValueAt(json: string, t: string, cap: int)
    requires NoNul(t) && |t| < cap && TokenStart(json) == 10
    requires 10 + |Escape(t)| < |json| && json[10..10 + |Escape(t)|] == Escape(t) && json[10 + |Escape(t)|] == '"'
    ensures TokenText(json, cap) == Some(t)
  {
    UnescapeEscape(json, 10, t, "", cap);
    assert "" + t == t;
  }

  // ----- the line framing -----

  /** The reader's state: the line buffer's contents, the stored done payload and the tokens handed to the callback so far. */
  datatype Frame = Frame(line: string, done: Option<string>, tokens: seq<Token>)

  const Start: Frame := Frame([], None, [])

  /** The line without one trailing carriage return. */
  function StripCr(l: string): (r: string)
    ensures r == l || (l == r + ['\r'])
  {
    if |l| > 0 && l[|l| - 1] == '\r' then l[..|l| - 1] else l
  }

  /** The payload of a `data: ` line with at least one byte after the prefix. */
  function Payload(line: string): (p: Option<string>)
    ensures p.Some? ==> 0 < |p.value| && |p.value| + 6 <= |line|
  {
    var s := StripCr(line);
    if |s| > 6 && s[..6] == DataPrefix then Some(s[6..]) else None
  }

  predicate IsDone(payload: string)
  {
    Find(payload, DoneKey, 0) >= 0
  }

  /** What a complete line does: a done payload is stored if it fits, another payload goes to the callback if it is a token event. */
  function Dispatch(f: Frame, line: string, callback: bool): (g: Frame)
    ensures g.line == []
  {
    var g := f.(line := []);
    match Payload(line)
    case None => g
    case Some(p) =>
      if IsDone(p) then (if |p| < DoneSize - 1 then g.(done := Some(p)) else g)
      else if !callback then g
      else match TokenEvent(p, TokenSize)
        case None => g
        case Some(t) => g.(tokens := f.tokens + [t])
  }

  /** One byte of the stream: a newline ends the line; any other byte is kept while the buffer has room. */
  function Step(f: Frame, c: char, callback: bool): Frame
  {
    if c == '\n' then Dispatch(f, f.line, callback)
    else if |f.line| < LineSize - 1 then f.(line := f.line + [c])
    else f
  }

  /** The state after the bytes of s. */
  function Consume(f: Frame, s: string, callback: bool): Frame
    decreases |s|
  {
    if |s| == 0 then f else Step(Consume(f, s[..|s| - 1], callback), s[|s| - 1], callback)
  }

  /** Chunk boundaries do not matter: reading a then b is reading a + b. */
  lemma {:induction false} ConsumeAppend(f: Frame, a: string, b: string, callback: bool)
    ensures Consume(f, a + b, callback) == Consume(Consume(f, a, callback), b, callback)
    decreases |b|
  {
    if |b| == 0 {
      assert a + b == a;
    } else {
      ConsumeAppend(f, a, b[..|b| - 1], callback);
      assert (a + b)[..|a + b| - 1] == a + b[..|b| - 1];
    }
  }

  // ----- the stream read line by line -----

  /** The part of a line the buffer keeps: its first LineSize - 1 bytes. */
  function Kept(l: string): (k: string)
    ensures |k| < LineSize && k <= l
  {
    if |l| < LineSize then l else l[..LineSize - 1]
  }

  predicate NoNewline(l: string)
  {
    forall k :: 0 <= k < |l| ==> l[k] != '\n'
  }

  /** A stretch without newline only fills the line buffer, up to its capacity. */
  lemma {:induction false} ConsumeLine(f: Frame, l: string, callback: bool)
    requires NoNewline(l) && |f.line| < LineSize
    ensures Consume(f, l, callback) == f.(line := Kept(f.line + l))
    decreases |l|
  {
    if |l| == 0 {
      assert f.line + l == f.line;
    } else {
      var init := l[..|l| - 1];
      ConsumeLine(f, init, callback);
      assert f.line + l == (f.line + init) + [l[|l| - 1]];
    }
  }

  /** The stream of lines ls, each followed by a newline. */
  function LinesText(ls: seq<string>): string
  {
    if |ls| == 0 then "" else LinesText(ls[..|ls| - 1]) + ls[|ls| - 1] + "\n"
  }

  /** The stored done payload after one kept line: its payload when it is a done event that fits, d otherwise. */
  function DoneAfter(d: Option<string>, line: string): Option<string>
  {
    var p := Payload(line);
    if p.Some? && IsDone(p.value) && |p.value| < DoneSize - 1 then Some(p.value) else d
  }

  /** The callback calls of one kept line: none, or its token event when it is a data line but not a done event. */
  function LineTokens(line: string, callback: bool): seq<Token>
  {
    var p := Payload(line);
    var t := if callback && p.Some? && !IsDone(p.value) then TokenEvent(p.value, TokenSize) else None;
    if t.Some? then [t.value] else []
  }

  /** The done payload after lines ls: the last done line's payload, or d when there is none. */
  function LastDone(ls: seq<string>, d: Option<string>): Option<string>
  {
    if |ls| == 0 then d else DoneAfter(LastDone(ls[..|ls| - 1], d), Kept(ls[|ls| - 1]))
  }

  /** The tokens of lines ls: one per data line that is not a done event and parses as a token event, in order. */
  function TokensOf(ls: seq<string>, callback: bool): seq<Token>
  {
    if |ls| == 0 then [] else TokensOf(ls[..|ls| - 1], callback) + LineTokens(Kept(ls[|ls| - 1]), callback)
  }

  /** A complete line, split into its effect on the stored payload and on the callback. */
  lemma DispatchLine(f: Frame, line: string, callback: bool)
    ensures Dispatch(f, line, callback) == Frame([], DoneAfter(f.done, line), f.tokens + LineTokens(line, callback))
  {
  }

  predicate AllLines(ls: seq<string>)
  {
    forall i :: 0 <= i < |ls| ==> NoNewline(ls[i])
  }

  /** Reading whole lines leaves the buffer empty, the last done payload stored and the token events passed on. */
  lemma {:induction false} ReadWholeLines(ls: seq<string>, callback: bool)
    requires AllLines(ls)
    ensures Consume(Start, LinesText(ls), callback) == Frame([], LastDone(ls, None), TokensOf(ls, callback))
    decreases |ls|
  {
    if |ls| > 0 {
      var init := ls[..|ls| - 1];
      var l := ls[|ls| - 1];
      assert AllLines(init) by {
        forall i | 0 <= i < |init| ensures NoNewline(init[i]) {
          assert init[i] == ls[i];
        }
      }
      ReadWholeLines(init, callback);
      var g := Consume(Start, LinesText(init), callback);
      ConsumeAppend(Start, LinesText(init), l, callback);
      ConsumeLine(g, l, callback);
      ConsumeAppend(Start, LinesText(init) + l, "\n", callback);
      var h := g.(line := Kept(l));
      assert g.line + l == l;
      assert Consume(Start, LinesText(init) + l, callback) == h;
      assert "\n"[..0] == "";
      assert Consume(h, "\n", callback) == Step(h, '\n', callback);
      assert LinesText(ls) == LinesText(init) + l + "\n";
      DispatchLine(h, Kept(l), callback);
    }
  }

  /**
   * The whole stream, however it is chunked: the done payload is the last
   * done line's, the callback sees exactly the token lines in order, and an
   * unfinished last line only sits in the buffer.
   */
  lemma ReadStream(ls: seq<string>, tail: string, callback: bool)
    requires AllLines(ls) && NoNewline(tail)
    ensures var f := Consume(Start, LinesText(ls) + tail, callback);
      f.done == LastDone(ls, None) && f.tokens == TokensOf(ls, callback) && f.line == Kept(tail)
  {
    var g := Frame([], LastDone(ls, None), TokensOf(ls, callback));
    ReadWholeLines(ls, callback);
    ConsumeAppend(Start, LinesText(ls), tail, callback);
    ConsumeLine(g, tail, callback);
    assert g.line + tail == tail;
  }

  /** The size check on a done payload never drops one: a kept line is far shorter than the done buffer. */
  lemma DoneFits(l: string)
    requires Payload(Kept(l)).Some?
    ensures |Payload(Kept(l)).value| < DoneSize - 1
  {
  }

  /** A done payload is never a token event, and only a done payload replaces the stored one. */
  lemma DoneNotToken(f: Frame, line: string, callback: bool)
    requires Payload(line).Some? && IsDone(Payload(line).value)
    ensures Dispatch(f, line, callback).tokens == f.tokens
    ensures |Payload(line).value| < DoneSize - 1 ==> Dispatch(f, line, callback).done == Payload(line)
  {
  }

  /** The reader kept across chunks: `line_buf`/`line_pos`, `done_buf`/`got_done`, and the callback's calls so far. */
  class SseReader {
    var line: string
    var done: Option<string>
    var tokens: seq<Token>
    const callback: bool

    function State(): Frame
      reads this
    {
      Frame(line, done, tokens)
    }

    predicate Valid()
      reads this
    {
      |line| < LineSize
    }

    constructor (callback: bool)
      ensures Valid() && State() == Start && this.callback == callback
    {
      line := [];
      done := None;
      tokens := [];
      this.callback := callback;
    }

    /** One byte of a chunk. */
    method Push(c: char)
      requires Valid()
      modifies this
      ensures Valid() && State() == Step(old(State()), c, callback)
    {
      if c == '\n' {
        var s := line;
        if |s| > 0 && s[|s| - 1] == '\r' {
          s := s[..|s| - 1];
        }
        if |s| > 6 && s[..6] == DataPrefix {
          var payload := s[6..];
          if Find(payload, DoneKey, 0) >= 0 {
            if |payload| < DoneSize - 1 {
              done := Some(payload);
            }
          } else if callback {
            var ok, text, ams, boff := ParseTokenEvent(payload, TokenSize);
            if ok {
              tokens := tokens + [Token(text, ams, boff)];
            }
          }
        }
        line := [];
      } else if |line| < LineSize - 1 {
        line := line + [c];
      }
    }

    /** The bytes of one chunk read from the connection. */
    method Feed(chunk: string)
      requires Valid()
      modifies this
      ensures Valid() && State() == Consume(old(State()), chunk, callback)
    {
      var i := 0;
      while i < |chunk|
        invariant 0 <= i <= |chunk| && Valid()
        invariant State() == Consume(old(State()), chunk[..i], callback)
      {
        Push(chunk[i]);
        assert chunk[..i + 1][..i] == chunk[..i];
        i := i + 1;
      }
      assert chunk[..i] == chunk;
    }

    /** The end of the stream: a result only when a done event arrived, parsed from its payload. */
    method Finish(isFinal: bool) returns (r: Option<Response>)
      ensures r.Some? <==> done.Some?
      ensures r.Some? ==> r.value == ParseAsWritten(done.value, isFinal)
    {
      r := None;
      if done.Some? {
        var parsed := AsrParseResponse(done.value, isFinal);
        r := Some(parsed);
      }
    }
  }
}
