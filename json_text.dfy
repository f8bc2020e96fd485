/**
 * The JSON string escapes of the GUI's LLM client (a subset of section 7 of
 * RFC 8259): `json_escape`, which escapes `"`, `\`, newline, carriage return
 * and tab into a bounded buffer, and the unescape loop that reads a string
 * value back, here as part of `llm_parse_response`.  The same loop, char for
 * char, is the token reader of the SSE client (module SseEvents).
 */
module JsonText {
  import opened CStrings
  import opened Seqs

  predicate NeedsEscape(c: char)
  {
    c == '"' || c == '\\' || c == '\n' || c == '\r' || c == '\t'
  }

  /** The letter after the backslash. */
  function EscapeLetter(c: char): char
  {
    if c == '\n' then 'n' else if c == '\r' then 'r' else if c == '\t' then 't' else c
  }

  function EscapeChar(c: char): (e: string)
    ensures |e| == (if NeedsEscape(c) then 2 else 1)
  {
    if NeedsEscape(c) then ['\\', EscapeLetter(c)] else [c]
  }

  /** The JSON escape of a whole string, char by char. */
  function Escape(s: string): (e: string)
    ensures |s| <= |e| <= 2 * |s|
  {
    if |s| == 0 then "" else EscapeChar(s[0]) + Escape(s[1..])
  }

  lemma {:induction false} EscapeAppend(a: string, b: string)
    ensures Escape(a + b) == Escape(a) + Escape(b)
    decreases |a|
  {
    if |a| == 0 {
      assert a + b == b;
    } else {
      assert (a + b)[1..] == a[1..] + b;
      EscapeAppend(a[1..], b);
    }
  }

  lemma EscapeSnoc(a: string, c: char)
    ensures Escape(a + [c]) == Escape(a) + EscapeChar(c)
  {
    EscapeAppend(a, [c]);
    assert Escape([c]) == EscapeChar(c) + Escape([]);
  }

  /**
   * Where `json_escape` stops: at the end of the input, or at the first
   * prefix whose escape has reached dstSize - 2 bytes.
   */
  function EscapeStop(s: string, i: nat, dstSize: int): (k: nat)
    requires i <= |s|
    ensures i <= k <= |s|
    ensures k < |s| ==> |Escape(s[..k])| >= dstSize - 2
    ensures forall m :: i <= m < k ==> |Escape(s[..m])| < dstSize - 2
    decreases |s| - i
  {
    if i == |s| || |Escape(s[..i])| >= dstSize - 2 then i else EscapeStop(s, i + 1, dstSize)
  }

  /** json_escape: the escape of the longest prefix the loop admits, NUL-terminated in dstSize bytes. */
  method JsonEscape(src: string, dstSize: int) returns (dst: string, n: int)
    requires dstSize >= 1
    ensures dst == Escape(src[..EscapeStop(src, 0, dstSize)])
    ensures n == |dst| <= dstSize - 1
  {
    dst := "";
    var i := 0;
    while i < |src| && |dst| < dstSize - 2
      invariant i <= |src|
      invariant dst == Escape(src[..i]) && |dst| <= dstSize - 1
      invariant EscapeStop(src, i, dstSize) == EscapeStop(src, 0, dstSize)
    {
      // The loop guard leaves room for two bytes, so the source's inner
      // room checks before a two-byte escape never fire.
      var c := src[i];
      if c == '"' || c == '\\' {
        dst := dst + ['\\', c];
      } else if c == '\n' {
        dst := dst + ['\\', 'n'];
      } else if c == '\r' {
        dst := dst + ['\\', 'r'];
      } else if c == '\t' {
        dst := dst + ['\\', 't'];
      } else {
        dst := dst + [c];
      }
      EscapeSnoc(src[..i], c);
      assert src[..i + 1] == src[..i] + [c];
      i := i + 1;
    }
    n := |dst|;
  }

  /** Escape lengths grow with the prefix. */
  lemma {:induction false} EscapePrefixGrows(s: string, m: nat, k: nat)
    requires m <= k <= |s|
    ensures |Escape(s[..m])| + (k - m) <= |Escape(s[..k])|
    decreases k - m
  {
    if m < k {
      EscapePrefixGrows(s, m, k - 1);
      EscapeSnoc(s[..k - 1], s[k - 1]);
      assert s[..k] == s[..k - 1] + [s[k - 1]];
    }
  }

  /**
   * The whole input is escaped exactly when the escape of all but its last
   * char still leaves more than two bytes of room.
   */
  lemma EscapeComplete(s: string, dstSize: int)
    ensures Escape(s[..EscapeStop(s, 0, dstSize)]) == Escape(s)
      <==> |s| == 0 || |Escape(s[..|s| - 1])| < dstSize - 2
  {
    var k := EscapeStop(s, 0, dstSize);
    assert s[..|s|] == s;
    if k < |s| {
      EscapePrefixGrows(s, k, |s|);
      EscapePrefixGrows(s, k, |s| - 1);
    }
  }

  // ---------------------------------------------------------------------
  // Unescaping
  // ---------------------------------------------------------------------

  /** The char `\c` stands for: `\n`, `\r`, `\t` are controls; `\"`, `\\`, `\/` and any other keep the char after the backslash. */
  function Unescaped(c: char): char
  {
    if c == 'n' then '\n' else if c == 'r' then '\r' else if c == 't' then '\t' else c
  }

  /**
   * The copy loop from i: it stops at the terminator, at a bare quote, or
   * when cap - 1 bytes are written; a backslash followed by a byte is an
   * escape, a backslash at the very end is copied.
   */
  function UnescapeFrom(s: string, i: nat, out: string, cap: int): string
    decreases |s| - i
  {
    if At(s, i) == '\0' || At(s, i) == '"' || |out| >= cap - 1 then out
    else if s[i] == '\\' && At(s, i + 1) != '\0' then UnescapeFrom(s, i + 2, out + [Unescaped(s[i + 1])], cap)
    else UnescapeFrom(s, i + 1, out + [s[i]], cap)
  }

  /** The loop as it runs. */
  method UnescapeLoop(s: string, start: nat, cap: int) returns (out: string)
    ensures out == UnescapeFrom(s, start, "", cap)
  {
    out := "";
    var p := start;
    while At(s, p) != '\0' && At(s, p) != '"' && |out| < cap - 1
      invariant UnescapeFrom(s, p, out, cap) == UnescapeFrom(s, start, "", cap)
      decreases |s| - p
    {
      if s[p] == '\\' && At(s, p + 1) != '\0' {
        p := p + 1;
        var c := s[p];
        if c == '"' {
          out := out + ['"'];
        } else if c == '\\' {
          out := out + ['\\'];
        } else if c == 'n' {
          out := out + ['\n'];
        } else if c == 'r' {
          out := out + ['\r'];
        } else if c == 't' {
          out := out + ['\t'];
        } else {
          out := out + [c];
        }
      } else {
        out := out + [s[p]];
      }
      p := p + 1;
    }
  }

  /** The copy never exceeds cap - 1 bytes, and writes at most one byte per input byte. */
  lemma {:induction false} UnescapeBound(s: string, i: nat, out: string, cap: int)
    requires |out| <= cap - 1 || |out| == 0
    ensures |UnescapeFrom(s, i, out, cap)| <= if cap - 1 > |out| then cap - 1 else |out|
    ensures |UnescapeFrom(s, i, out, cap)| <= |out| + (if i <= |s| then |s| - i else 0)
    decreases |s| - i
  {
    if At(s, i) == '\0' || At(s, i) == '"' || |out| >= cap - 1 {
    } else if s[i] == '\\' && At(s, i + 1) != '\0' {
      UnescapeBound(s, i + 2, out + [Unescaped(s[i + 1])], cap);
    } else {
      UnescapeBound(s, i + 1, out + [s[i]], cap);
    }
  }

  /**
   * The loop maps each escape back: reading the escape of a NUL-free t
   * followed by a closing quote appends exactly t, given room for it.
   */
  lemma {:induction false} UnescapeEscape(s: string, i: nat, t: string, out: string, cap: int)
    requires NoNul(t)
    requires i + |Escape(t)| < |s| && s[i..i + |Escape(t)|] == Escape(t) && s[i + |Escape(t)|] == '"'
    requires |out| + |t| < cap
    ensures UnescapeFrom(s, i, out, cap) == out + t
    decreases |t|
  {
    if |t| == 0 {
      assert out + t == out;
    } else {
      var e := EscapeChar(t[0]);
      var rest := Escape(t[1..]);
      assert Escape(t) == e + rest;
      SliceParts(s, i, e, rest);
      UnescapeChar(s, i, t[0], out, cap);
      UnescapeEscape(s, i + |e|, t[1..], out + [t[0]], cap);
      HeadMoved(out, t);
    }
  }

  /** Reading the escape of one non-NUL char c appends c. */
  lemma UnescapeChar(s: string, i: nat, c: char, out: string, cap: int)
    requires c != '\0'
    requires i + |EscapeChar(c)| <= |s| && s[i..i + |EscapeChar(c)|] == EscapeChar(c)
    requires |out| < cap - 1
    ensures UnescapeFrom(s, i, out, cap) == UnescapeFrom(s, i + |EscapeChar(c)|, out + [c], cap)
  {
    assert s[i] == EscapeChar(c)[0];
    if NeedsEscape(c) {
      assert s[i + 1] == EscapeChar(c)[1];
    }
  }

  // ---------------------------------------------------------------------
  // llm_parse_response
  // ---------------------------------------------------------------------

  /** The blanks the parser skips after the colon: space, tab, newline, carriage return. */
  predicate IsJsonBlank(c: char)
  {
    c == ' ' || c == '\t' || c == '\n' || c == '\r'
  }

  function SkipBlanks(s: string, i: nat): (j: nat)
    ensures i <= j && (i < j ==> j <= |s|) && (j < |s| ==> !IsJsonBlank(s[j]))
    ensures forall k :: i <= k < j ==> IsJsonBlank(s[k])
    decreases |s| - i
  {
    if i < |s| && IsJsonBlank(s[i]) then SkipBlanks(s, i + 1) else i
  }

  /** Where the content value starts: the first non-blank after the colon of the first "content" key after "message". */
  function ContentValue(json: string): (p: int)
  {
    var msg := Find(json, "\"message\"", 0);
    if msg < 0 then -1
    else
      var key := Find(json, "\"content\"", msg);
      if key < 0 then -1
      else
        var colon := FindChar(json, ':', key + 9);
        if colon < 0 then -1
        else SkipBlanks(json, colon + 1)
  }

  /** llm_parse_response: the return code and the reply text; -1 for a reply without a string content. */
  function LlmParse(json: string, size: int): (r: (int, string))
    ensures r.0 == -1 ==> r.1 == ""
  {
    ValueAt(json, ContentValue(json), size)
  }

  /** The value llm_parse_response reads at p: null, a string, or neither. */
  function ValueAt(json: string, p: int, size: int): (r: (int, string))
    ensures r.0 == -1 ==> r.1 == ""
  {
    if p < 0 then (-1, "")
    else if At(json, p) == 'n' && p + 4 <= |json| && json[p..p + 4] == "null" then (0, "")
    else if At(json, p) != '"' then (-1, "")
    else
      var text := UnescapeFrom(json, p + 1, "", size);
      (|text|, text)
  }

  /** The key search and the blank skip of llm_parse_response; -1 where a strstr or strchr finds nothing. */
  method FindContent(json: string) returns (p: int)
    ensures p == ContentValue(json)
  {
    var msg := Find(json, "\"message\"", 0);
    if msg < 0 { return -1; }
    var key := Find(json, "\"content\"", msg);
    if key < 0 { return -1; }
    var colon := FindChar(json, ':', key + 9);
    if colon < 0 { return -1; }
    var q: nat := colon + 1;
    while q < |json| && IsJsonBlank(json[q])
      invariant SkipBlanks(json, q) == SkipBlanks(json, colon + 1)
      decreases |json| - q
    {
      q := q + 1;
    }
    p := q;
  }

  /** llm_parse_response as the GUI runs it. */
  method LlmParseResponse(json: string, size: int) returns (rc: int, buf: string)
    requires size >= 1
    ensures (rc, buf) == LlmParse(json, size)
  {
    var p := FindContent(json);
    if p < 0 { return -1, ""; }
    if At(json, p) == 'n' && p + 4 <= |json| && json[p..p + 4] == "null" {
      return 0, "";
    }
    if At(json, p) != '"' { return -1, ""; }
    buf := UnescapeLoop(json, p + 1, size);
    rc := |buf|;
  }

  /** A returned text always fits the buffer. */
  lemma LlmParseBound(json: string, size: int)
    requires size >= 1
    ensures LlmParse(json, size).0 == |LlmParse(json, size).1| || LlmParse(json, size).0 == -1
    ensures |LlmParse(json, size).1| <= size - 1
  {
    var p := ContentValue(json);
    if p >= 0 {
      UnescapeBound(json, p + 1, "", size);
    }
  }

  /**
   * Whenever the content value is a string written by json_escape, the
   * parser returns that text.
   */
  lemma LlmParseEscaped(json: string, t: string, size: int)
    requires NoNul(t) && |t| < size
    requires ContentValue(json) >= 0
    requires var p := ContentValue(json) + 1;
      p + |Escape(t)| < |json| && json[p - 1] == '"'
      && json[p..p + |Escape(t)|] == Escape(t) && json[p + |Escape(t)|] == '"'
    ensures LlmParse(json, size) == (|t|, t)
  {
    var p := ContentValue(json);
    UnescapeEscape(json, p + 1, t, "", size);
    assert "" + t == t;
    assert At(json, p) == '"';
    assert ValueAt(json, p, size) == (|t|, t);
  }

  /** A null content is an empty reply, not an error. */
  lemma LlmParseNull(json: string, size: int)
    requires ContentValue(json) >= 0
    requires var p := ContentValue(json); p + 4 <= |json| && json[p..p + 4] == "null"
    ensures LlmParse(json, size) == (0, "")
  {
    var p := ContentValue(json);
    assert json[p] == json[p..p + 4][0];
  }
}
