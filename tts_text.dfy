/**
 * The narrator script's text chunking: `split_sentences` trims the text,
 * collapses whitespace runs to one space and splits after every run of
 * `.`, `!`, `?` that a whitespace follows, except after the listed
 * abbreviations; `split_long_sentences` cuts a sentence longer than
 * max_chars at clause separators and packs the pieces greedily;
 * `merge_short_sentences` glues a short sentence to the next one; and
 * `chunk_text` runs the three in that order.  The regular expressions are
 * modelled by the leftmost-match scans they perform.  Lengths are counted
 * in code points, as Python's `len` counts them.
 */
module TtsText {
  import opened Seqs

  /** Python's `str.isspace`, which is also what `\s` matches in a str pattern. */
  predicate IsSpace(c: char)
  {
    || c == ' ' || ('\t' <= c <= '\r') || ('\U{1C}' <= c <= '\U{1F}') || c == '\U{85}' || c == '\U{A0}'
    || c == '\U{1680}' || ('\U{2000}' <= c <= '\U{200A}') || c == '\U{2028}' || c == '\U{2029}'
    || c == '\U{202F}' || c == '\U{205F}' || c == '\U{3000}'
  }

  predicate IsBlank(s: string)
  {
    forall k :: 0 <= k < |s| ==> IsSpace(s[k])
  }

  /** `' '.join(ss)`. */
  function Join(ss: seq<string>): string
  {
    if |ss| == 0 then "" else if |ss| == 1 then ss[0] else ss[0] + " " + Join(ss[1..])
  }

  /** Joining one more string puts a space before it. */
  lemma {:induction false} JoinSnoc(ss: seq<string>, s: string)
    requires |ss| > 0
    ensures Join(ss + [s]) == Join(ss) + " " + s
    decreases |ss|
  {
    if |ss| > 1 {
      JoinSnoc(ss[1..], s);
      assert (ss + [s])[1..] == ss[1..] + [s];
    }
  }

  /** Joining after a first string. */
  lemma JoinCons(s: string, ss: seq<string>)
    requires |ss| > 0
    ensures Join([s] + ss) == s + " " + Join(ss)
  {
    assert ([s] + ss)[1..] == ss;
  }

  // ----- whitespace -----

  /** The string without its leading whitespace. */
  function TrimLeft(s: string): (r: string)
    ensures |r| <= |s| && r == s[|s| - |r|..]
    ensures |r| > 0 ==> !IsSpace(r[0])
    ensures forall k :: 0 <= k < |s| - |r| ==> IsSpace(s[k])
    decreases |s|
  {
    if |s| > 0 && IsSpace(s[0]) then TrimLeft(s[1..]) else s
  }

  /** The string without its trailing whitespace. */
  function TrimRight(s: string): (r: string)
    ensures |r| <= |s| && r == s[..|r|]
    ensures |r| > 0 ==> !IsSpace(r[|r| - 1])
    ensures forall k :: |r| <= k < |s| ==> IsSpace(s[k])
    decreases |s|
  {
    if |s| > 0 && IsSpace(s[|s| - 1]) then TrimRight(s[..|s| - 1]) else s
  }

  /** `str.strip()`: empty exactly for blank strings, otherwise starting and ending with a non-space. */
  function Strip(s: string): (r: string)
    ensures |r| <= |s|
    ensures |r| == 0 <==> IsBlank(s)
    ensures |r| > 0 ==> !IsSpace(r[0]) && !IsSpace(r[|r| - 1])
  {
    var l := TrimLeft(s);
    var r := TrimRight(l);
    assert |r| > 0 ==> r[0] == l[0];
    assert |l| > 0 ==> |r| > 0 && !IsBlank(s) by {
      if |l| > 0 {
        assert !IsSpace(l[0]);
        assert s[|s| - |l|] == l[0];
      }
    }
    r
  }

  /** `re.sub(r'\s+', ' ', s)`: every whitespace run becomes one space. */
  function Collapse(s: string): (r: string)
    ensures |r| == 0 <==> |s| == 0
    ensures |s| > 0 && !IsSpace(s[0]) ==> r[0] == s[0]
    ensures |s| > 0 && IsSpace(s[0]) ==> r[0] == ' '
    decreases |s|
  {
    if |s| == 0 then ""
    else if IsSpace(s[0]) then " " + Collapse(TrimLeft(s))
    else [s[0]] + Collapse(s[1..])
  }

  /** The shape split_sentences works on: no whitespace at either end, and only single spaces inside. */
  predicate Normalized(t: string)
  {
    && (|t| > 0 ==> !IsSpace(t[0]) && !IsSpace(t[|t| - 1]))
    && forall k :: 0 <= k < |t| && IsSpace(t[k]) ==> t[k] == ' ' && k + 1 < |t| && !IsSpace(t[k + 1])
  }

  /** Every whitespace character is a space with a non-space after it, if anything follows. */
  predicate SingleSpaced(r: string)
  {
    forall k :: 0 <= k < |r| && IsSpace(r[k]) ==> r[k] == ' ' && (k + 1 < |r| ==> !IsSpace(r[k + 1]))
  }

  lemma SingleSpacedCons(c: char, r: string)
    requires SingleSpaced(r)
    requires IsSpace(c) ==> c == ' ' && (|r| > 0 ==> !IsSpace(r[0]))
    ensures SingleSpaced([c] + r)
  {
    var cr := [c] + r;
    forall k | 0 <= k < |cr| && IsSpace(cr[k]) ensures cr[k] == ' ' && (k + 1 < |cr| ==> !IsSpace(cr[k + 1])) {
      if k > 0 {
        assert cr[k] == r[k - 1];
        if k + 1 < |cr| {
          assert cr[k + 1] == r[k];
        }
      } else if k + 1 < |cr| {
        assert cr[1] == r[0];
      }
    }
  }

  /** The collapsed string has only single spaces. */
  lemma {:induction false} CollapseSpaces(s: string)
    ensures SingleSpaced(Collapse(s))
    decreases |s|
  {
    if |s| > 0 {
      if IsSpace(s[0]) {
        var d := TrimLeft(s);
        CollapseSpaces(d);
        SingleSpacedCons(' ', Collapse(d));
      } else {
        CollapseSpaces(s[1..]);
        SingleSpacedCons(s[0], Collapse(s[1..]));
      }
    }
  }

  /** A non-space last character survives collapsing. */
  lemma {:induction false} CollapseLast(s: string)
    requires |s| > 0 && !IsSpace(s[|s| - 1])
    ensures Collapse(s)[|Collapse(s)| - 1] == s[|s| - 1]
    decreases |s|
  {
    if IsSpace(s[0]) {
      var d := TrimLeft(s);
      assert |d| > 0 && d[|d| - 1] == s[|s| - 1];
      CollapseLast(d);
    } else if |s| > 1 {
      CollapseLast(s[1..]);
    }
  }

  /** `re.sub(r'\s+', ' ', text.strip())`. */
  function Normalize(text: string): (t: string)
    ensures |t| == 0 <==> IsBlank(text)
  {
    Collapse(Strip(text))
  }

  /** The normalized text has the shape the splitter relies on. */
  lemma NormalizeShape(text: string)
    ensures Normalized(Normalize(text))
  {
    var s := Strip(text);
    CollapseSpaces(s);
    if |s| > 0 {
      CollapseLast(s);
    }
  }

  // ----- split_sentences -----

  predicate IsPunct(c: char)
  {
    c == '.' || c == '!' || c == '?'
  }

  /** ASCII word characters, for the `\b` in front of each abbreviation. */
  predicate IsWordChar(c: char)
  {
    ('a' <= c <= 'z') || ('A' <= c <= 'Z') || ('0' <= c <= '9') || c == '_'
  }

  /** The abbreviations the negative lookbehinds exclude. */
  const Abbreviations: seq<string> := ["Mr", "Mrs", "Dr", "Ms", "St", "vs", "etc", "Inc", "Ltd"]

  /** The word w ends at p and starts at a word boundary. */
  predicate WordBefore(t: string, p: nat, w: string)
    requires p <= |t|
  {
    |w| <= p && t[p - |w|..p] == w && (p == |w| || !IsWordChar(t[p - |w| - 1]))
  }

  predicate AfterAbbreviation(t: string, p: nat)
    requires p <= |t|
  {
    exists i :: 0 <= i < |Abbreviations| && WordBefore(t, p, Abbreviations[i])
  }

  /** The end of the run of c-class characters from p. */
  function PunctEnd(t: string, p: nat): (q: nat)
    requires p <= |t|
    ensures p <= q <= |t| && (q < |t| ==> !IsPunct(t[q]))
    ensures forall k :: p <= k < q ==> IsPunct(t[k])
    decreases |t| - p
  {
    if p < |t| && IsPunct(t[p]) then PunctEnd(t, p + 1) else p
  }

  function SpaceEnd(t: string, p: nat): (q: nat)
    requires p <= |t|
    ensures p <= q <= |t| && (q < |t| ==> !IsSpace(t[q]))
    ensures forall k :: p <= k < q ==> IsSpace(t[k])
    decreases |t| - p
  {
    if p < |t| && IsSpace(t[p]) then SpaceEnd(t, p + 1) else p
  }

  /**
   * The sentence pattern matches at p: no abbreviation ends at p, and a
   * punctuation run starts there and is followed by whitespace.  A shorter
   * run is followed by punctuation, so only the whole run can match.
   */
  predicate SentenceEndAt(t: string, p: nat)
    requires p <= |t|
  {
    p < |t| && IsPunct(t[p]) && !AfterAbbreviation(t, p) && PunctEnd(t, p) < |t| && IsSpace(t[PunctEnd(t, p)])
  }

  /** `re.split` with the captured punctuation, scanning from p inside the segment that starts at seg. */
  function SplitFrom(t: string, seg: nat, p: nat): (parts: seq<string>)
    requires seg <= p <= |t|
    ensures |parts| % 2 == 1
    decreases |t| - p
  {
    if p == |t| then [t[seg..]]
    else if SentenceEndAt(t, p) then
      var q := PunctEnd(t, p);
      var r := SpaceEnd(t, q);
      [t[seg..p], t[p..q]] + SplitFrom(t, r, r)
    else SplitFrom(t, seg, p + 1)
  }

  /** `re.match(r'^[.!?]+$', s)`: `$` also matches before one final newline. */
  predicate IsPunctRun(s: string)
  {
    || (|s| > 0 && forall k :: 0 <= k < |s| ==> IsPunct(s[k]))
    || (|s| > 1 && s[|s| - 1] == '\n' && forall k :: 0 <= k < |s| - 1 ==> IsPunct(s[k]))
  }

  /** The reassembly loop: a text part followed by a punctuation part is one sentence; a lone non-blank part is one too. */
  function Assemble(parts: seq<string>): seq<string>
    decreases |parts|
  {
    if |parts| == 0 then []
    else if |parts| >= 2 && IsPunctRun(parts[1]) then [parts[0] + parts[1]] + Assemble(parts[2..])
    else (if IsBlank(parts[0]) then [] else [parts[0]]) + Assemble(parts[1..])
  }

  /** split_sentences as a value: empty for blank text. */
  function Sentences(text: string): seq<string>
  {
    var t := Normalize(text);
    if |t| == 0 then [] else Assemble(SplitFrom(t, 0, 0))
  }

  /** split_sentences: normalize, split, then reassemble with the while loop over the parts. */
  method SplitSentences(text: string) returns (sentences: seq<string>)
    ensures sentences == Sentences(text)
  {
    var t := Normalize(text);
    if |t| == 0 {
      return [];
    }
    sentences := ReassembleParts(SplitFrom(t, 0, 0));
  }

  /** The while loop of split_sentences, over the parts re.split returned. */
  method ReassembleParts(parts: seq<string>) returns (sentences: seq<string>)
    ensures sentences == Assemble(parts)
  {
    sentences := [];
    var i := 0;
    assert parts[0..] == parts;
    while i < |parts|
      invariant 0 <= i <= |parts|
      invariant sentences + Assemble(parts[i..]) == Assemble(parts)
    {
      AssembleAt(parts, i);
      if i + 1 < |parts| && IsPunctRun(parts[i + 1]) {
        var x := [parts[i] + parts[i + 1]];
        assert (sentences + x) + Assemble(parts[i + 2..]) == sentences + (x + Assemble(parts[i + 2..]));
        sentences := sentences + x;
        i := i + 2;
      } else {
        var x := if IsBlank(parts[i]) then [] else [parts[i]];
        assert (sentences + x) + Assemble(parts[i + 1..]) == sentences + (x + Assemble(parts[i + 1..]));
        sentences := sentences + x;
        i := i + 1;
      }
    }
    assert parts[i..] == [];
  }

  /** One step of the reassembly loop, at index i. */
  lemma AssembleAt(parts: seq<string>, i: nat)
    requires i < |parts|
    ensures i + 1 < |parts| && IsPunctRun(parts[i + 1]) ==>
      Assemble(parts[i..]) == [parts[i] + parts[i + 1]] + Assemble(parts[i + 2..])
    ensures !(i + 1 < |parts| && IsPunctRun(parts[i + 1])) ==>
      Assemble(parts[i..]) == (if IsBlank(parts[i]) then [] else [parts[i]]) + Assemble(parts[i + 1..])
  {
    var rest := parts[i..];
    assert rest[0] == parts[i];
    if i + 1 < |parts| {
      assert rest[1] == parts[i + 1];
      assert rest[2..] == parts[i + 2..];
    }
    assert rest[1..] == parts[i + 1..];
  }

  predicate EndsInPunct(s: string)
  {
    |s| > 0 && IsPunct(s[|s| - 1])
  }

  /** Every sentence but the last ends in punctuation. */
  predicate PunctClosed(ss: seq<string>)
  {
    forall k :: 0 <= k < |ss| - 1 ==> EndsInPunct(ss[k])
  }

  /** One more sentence in front: the join gains it and a space, and it ends in punctuation like the rest but the last. */
  lemma SentenceCons(x: string, ss: seq<string>)
    requires |ss| > 0
    requires PunctClosed(ss) && EndsInPunct(x)
    ensures Join([x] + ss) == x + " " + Join(ss)
    ensures PunctClosed([x] + ss)
  {
    JoinCons(x, ss);
    forall k | 1 <= k < |ss| ensures EndsInPunct(([x] + ss)[k]) {
      assert ([x] + ss)[k] == ss[k - 1];
    }
  }

  /**
   * From a segment that starts with a non-space, the sentences are not
   * empty, join back to the rest of the text, and each but the last ends
   * in the punctuation run that closed it.
   */
  lemma {:induction false} SplitJoin(t: string, seg: nat, p: nat)
    requires Normalized(t) && seg <= p <= |t| && seg < |t| && !IsSpace(t[seg])
    ensures |Assemble(SplitFrom(t, seg, p))| > 0
    ensures Join(Assemble(SplitFrom(t, seg, p))) == t[seg..]
    ensures PunctClosed(Assemble(SplitFrom(t, seg, p)))
    decreases |t| - p
  {
    var parts := SplitFrom(t, seg, p);
    if p == |t| {
      assert parts == [t[seg..]];
      assert !IsBlank(t[seg..]) by {
        assert t[seg..][0] == t[seg];
      }
      assert Assemble(parts) == [t[seg..]] + Assemble([]);
    } else if SentenceEndAt(t, p) {
      var q := PunctEnd(t, p);
      var r := q + 1;
      SentenceEndShape(t, seg, p);
      var rest := SplitFrom(t, r, r);
      assert parts == [t[seg..p], t[p..q]] + rest;
      assert parts[2..] == rest;
      SplitJoin(t, r, r);
      var ss := Assemble(rest);
      assert Assemble(parts) == [t[seg..p] + t[p..q]] + ss;
      SentenceCons(t[seg..q], ss);
    } else {
      SplitJoin(t, seg, p + 1);
    }
  }

  /** Where a sentence ends at p in normalized text: its punctuation run, one space, and a non-space after it. */
  lemma SentenceEndShape(t: string, seg: nat, p: nat)
    requires Normalized(t) && seg <= p < |t| && SentenceEndAt(t, p)
    ensures PunctEnd(t, p) + 1 < |t| && SpaceEnd(t, PunctEnd(t, p)) == PunctEnd(t, p) + 1
    ensures !IsSpace(t[PunctEnd(t, p) + 1])
    ensures IsPunctRun(t[p..PunctEnd(t, p)])
    ensures t[seg..p] + t[p..PunctEnd(t, p)] == t[seg..PunctEnd(t, p)]
    ensures EndsInPunct(t[seg..PunctEnd(t, p)])
    ensures t[seg..] == t[seg..PunctEnd(t, p)] + " " + t[PunctEnd(t, p) + 1..]
  {
    var q := PunctEnd(t, p);
    assert q + 1 < |t| && !IsSpace(t[q + 1]) && t[q] == ' ';
    var b := t[p..q];
    assert IsPunctRun(b) by {
      assert |b| > 0;
      forall k | 0 <= k < |b| ensures IsPunct(b[k]) {
        assert b[k] == t[p + k];
      }
    }
    assert t[seg..q][q - 1 - seg] == t[q - 1];
    SliceConcat(t, seg, p, q);
    SliceAt(t, seg, q);
    assert " " == [t[q]];
  }

  /**
   * split_sentences loses nothing but whitespace: the sentences joined by
   * spaces are the normalized text, every sentence but the last ends in
   * its punctuation run, and blank text gives no sentences.
   */
  lemma SentencesJoin(text: string)
    ensures Join(Sentences(text)) == Normalize(text)
    ensures PunctClosed(Sentences(text))
    ensures |Sentences(text)| == 0 <==> IsBlank(text)
  {
    var t := Normalize(text);
    NormalizeShape(text);
    if |t| > 0 {
      SplitJoin(t, 0, 0);
      assert t[0..] == t;
    }
  }

  /** An abbreviation never closes a sentence: no split happens right after `Mr`, `Dr`, `etc` and the others. */
  lemma NoSplitAfterAbbreviation(t: string, p: nat, i: nat)
    requires p <= |t| && i < |Abbreviations| && WordBefore(t, p, Abbreviations[i])
    ensures !SentenceEndAt(t, p)
  {
  }

  // ----- merge_short_sentences -----

  /** The merge loop's result after every sentence of ss: a short last entry absorbs the next sentence. */
  function Merge(ss: seq<string>, minChars: int): (m: seq<string>)
    ensures |m| <= |ss| && (|m| == 0 <==> |ss| == 0)
    decreases |ss|
  {
    if |ss| <= 1 then ss else MergeNext(Merge(ss[..|ss| - 1], minChars), ss[|ss| - 1], minChars)
  }

  /** One turn of the merge loop: a short last entry absorbs s, otherwise s is appended. */
  function MergeNext(m: seq<string>, s: string, minChars: int): (r: seq<string>)
    requires |m| > 0
    ensures 0 < |r| <= |m| + 1
  {
    if |m[|m| - 1]| < minChars then m[..|m| - 1] + [m[|m| - 1] + " " + s] else m + [s]
  }

  /** merge_short_sentences. */
  method MergeShortSentences(sentences: seq<string>, minChars: int) returns (merged: seq<string>)
    ensures merged == Merge(sentences, minChars)
  {
    if |sentences| == 0 {
      return [];
    }
    merged := [sentences[0]];
    var i := 1;
    while i < |sentences|
      invariant 1 <= i <= |sentences|
      invariant merged == Merge(sentences[..i], minChars)
    {
      var s := sentences[i];
      PrefixStep(sentences, i);
      assert Merge(sentences[..i + 1], minChars) == MergeNext(merged, s, minChars);
      if |merged[|merged| - 1]| < minChars {
        merged := merged[..|merged| - 1] + [merged[|merged| - 1] + " " + s];
      } else {
        merged := merged + [s];
      }
      i := i + 1;
    }
    assert sentences[..|sentences|] == sentences;
  }

  /** Growing the last string by a space and s grows the join the same way. */
  lemma JoinGrow(front: seq<string>, last: string, s: string)
    ensures Join(front + [last + " " + s]) == Join(front + [last]) + " " + s
  {
    if |front| > 0 {
      JoinSnoc(front, last);
      JoinSnoc(front, last + " " + s);
      var j := Join(front);
      assert j + " " + (last + " " + s) == (j + " " + last) + " " + s;
    } else {
      assert front + [last + " " + s] == [last + " " + s];
      assert front + [last] == [last];
    }
  }

  /** A merge turn adds s to the joined text after one space. */
  lemma MergeNextJoin(m: seq<string>, s: string, minChars: int)
    requires |m| > 0
    ensures Join(MergeNext(m, s, minChars)) == Join(m) + " " + s
  {
    if |m[|m| - 1]| < minChars {
      LastSplit(m);
      JoinGrow(m[..|m| - 1], m[|m| - 1], s);
    } else {
      JoinSnoc(m, s);
    }
  }

  /** Merging only moves the separating spaces around: the joined text is unchanged. */
  lemma {:induction false} MergeJoin(ss: seq<string>, minChars: int)
    ensures Join(Merge(ss, minChars)) == Join(ss)
    decreases |ss|
  {
    if |ss| > 1 {
      var init := ss[..|ss| - 1];
      var s := ss[|ss| - 1];
      MergeJoin(init, minChars);
      MergeNextJoin(Merge(init, minChars), s, minChars);
      LastSplit(ss);
      JoinSnoc(init, s);
    }
  }

  /** Every entry but the last has at least min_chars. */
  predicate LongEnough(m: seq<string>, minChars: int)
  {
    forall k :: 0 <= k < |m| - 1 ==> |m[k]| >= minChars
  }

  /** A merge turn keeps every entry but the last at min_chars or more. */
  lemma MergeNextLengths(m: seq<string>, s: string, minChars: int)
    requires |m| > 0 && LongEnough(m, minChars)
    ensures LongEnough(MergeNext(m, s, minChars), minChars)
  {
    var r := MergeNext(m, s, minChars);
    forall k | 0 <= k < |r| - 1 ensures |r[k]| >= minChars {
      assert r[k] == m[k];
    }
  }

  /** Every merged entry but the last has at least min_chars. */
  lemma {:induction false} MergeLengths(ss: seq<string>, minChars: int)
    ensures LongEnough(Merge(ss, minChars), minChars)
    decreases |ss|
  {
    if |ss| > 1 {
      MergeLengths(ss[..|ss| - 1], minChars);
      MergeNextLengths(Merge(ss[..|ss| - 1], minChars), ss[|ss| - 1], minChars);
    }
  }

  // ----- split_long_sentences -----

  /** The end of a clause separator at p (`,\s+`, `;\s+`, `:\s+` or `\s+--\s+`), or -1. */
  function SeparatorEnd(s: string, p: nat): (e: int)
    requires p <= |s|
    ensures e == -1 || p < e <= |s|
  {
    if p < |s| && (s[p] == ',' || s[p] == ';' || s[p] == ':') && p + 1 < |s| && IsSpace(s[p + 1]) then SpaceEnd(s, p + 1)
    else if p < |s| && IsSpace(s[p]) then
      var w := SpaceEnd(s, p);
      if w + 2 < |s| && s[w] == '-' && s[w + 1] == '-' && IsSpace(s[w + 2]) then SpaceEnd(s, w + 2) else -1
    else -1
  }

  /** `re.split` with the captured separators, scanning from p inside the clause that starts at seg. */
  function ClauseFrom(s: string, seg: nat, p: nat): (parts: seq<string>)
    requires seg <= p <= |s|
    decreases |s| - p
  {
    if p == |s| then [s[seg..]]
    else
      var e := SeparatorEnd(s, p);
      if e >= 0 then [s[seg..p], s[p..e]] + ClauseFrom(s, e, e) else ClauseFrom(s, seg, p + 1)
  }

  function Concat(ss: seq<string>): string
  {
    if |ss| == 0 then "" else Concat(ss[..|ss| - 1]) + ss[|ss| - 1]
  }

  lemma {:induction false} ConcatCons(s: string, ss: seq<string>)
    ensures Concat([s] + ss) == s + Concat(ss)
    decreases |ss|
  {
    if |ss| > 0 {
      ConcatCons(s, ss[..|ss| - 1]);
      assert ([s] + ss)[..|ss|] == [s] + ss[..|ss| - 1];
    }
  }

  /** The clause parts put back together are the sentence. */
  lemma {:induction false} ClausesConcat(s: string, seg: nat, p: nat)
    requires seg <= p <= |s|
    ensures Concat(ClauseFrom(s, seg, p)) == s[seg..]
    decreases |s| - p
  {
    if p == |s| {
      assert Concat([s[seg..]]) == Concat([]) + s[seg..];
    } else {
      var e := SeparatorEnd(s, p);
      if e >= 0 {
        var rest := ClauseFrom(s, e, e);
        var a, b := s[seg..p], s[p..e];
        assert ClauseFrom(s, seg, p) == [a, b] + rest;
        ClausesConcat(s, e, e);
        ConcatCons(b, rest);
        ConcatCons(a, [b] + rest);
        assert [a, b] == [a] + [b];
        Assoc([a], [b], rest);
        SliceRest(s, p, e);
        SliceRest(s, seg, p);
      } else {
        ClausesConcat(s, seg, p + 1);
      }
    }
  }

  /** The greedy packing's state: the groups closed so far and the one being filled. */
  datatype Packing = Packing(closed: seq<string>, current: string)

  /** One part packed: it closes the group being filled when both would exceed max_chars, else joins it. */
  function PackAdd(g: Packing, part: string, maxChars: int): Packing
  {
    if |g.current| + |part| > maxChars && g.current != "" then Packing(g.closed + [g.current], part)
    else Packing(g.closed, g.current + part)
  }

  /** The greedy packing over parts. */
  function Pack(parts: seq<string>, maxChars: int): Packing
    decreases |parts|
  {
    if |parts| == 0 then Packing([], "") else PackAdd(Pack(parts[..|parts| - 1], maxChars), parts[|parts| - 1], maxChars)
  }

  /** The pieces of one long sentence: the stripped groups, and the last one unless it is blank. */
  function LongPieces(s: string, maxChars: int): seq<string>
  {
    var g := Pack(ClauseFrom(s, 0, 0), maxChars);
    Stripped(g.closed) + (if IsBlank(g.current) then [] else [Strip(g.current)])
  }

  /** Every group stripped, in order. */
  function Stripped(ss: seq<string>): (r: seq<string>)
    ensures |r| == |ss|
    decreases |ss|
  {
    if |ss| == 0 then [] else Stripped(ss[..|ss| - 1]) + [Strip(ss[|ss| - 1])]
  }

  lemma StrippedSnoc(ss: seq<string>, x: string)
    ensures Stripped(ss + [x]) == Stripped(ss) + [Strip(x)]
  {
    assert (ss + [x])[..|ss|] == ss;
  }

  lemma {:induction false} StrippedAt(ss: seq<string>, k: nat)
    requires k < |ss|
    ensures Stripped(ss)[k] == Strip(ss[k])
    decreases |ss|
  {
    if k < |ss| - 1 {
      StrippedAt(ss[..|ss| - 1], k);
    }
  }

  /** What split_long_sentences makes of one sentence. */
  function Pieces(s: string, maxChars: int): seq<string>
  {
    if |s| <= maxChars then [s] else LongPieces(s, maxChars)
  }

  /** split_long_sentences as a value: the pieces of every sentence, in order. */
  function SplitLong(ss: seq<string>, maxChars: int): seq<string>
    decreases |ss|
  {
    if |ss| == 0 then [] else SplitLong(ss[..|ss| - 1], maxChars) + Pieces(ss[|ss| - 1], maxChars)
  }

  /** The clause loop of split_long_sentences for one long sentence. */
  method PackClauses(s: string, maxChars: int) returns (pieces: seq<string>)
    ensures pieces == LongPieces(s, maxChars)
  {
    var parts := ClauseFrom(s, 0, 0);
    pieces := [];
    ghost var closed: seq<string> := [];
    var current := "";
    var i := 0;
    while i < |parts|
      invariant 0 <= i <= |parts|
      invariant Pack(parts[..i], maxChars) == Packing(closed, current) && pieces == Stripped(closed)
    {
      var part := parts[i];
      PrefixStep(parts, i);
      assert Pack(parts[..i + 1], maxChars) == PackAdd(Packing(closed, current), part, maxChars);
      if |current| + |part| > maxChars && current != "" {
        StrippedSnoc(closed, current);
        pieces := pieces + [Strip(current)];
        closed := closed + [current];
        current := part;
      } else {
        current := current + part;
      }
      i := i + 1;
    }
    assert parts[..i] == parts;
    if !IsBlank(current) {
      pieces := pieces + [Strip(current)];
    }
  }

  /** split_long_sentences. */
  method SplitLongSentences(sentences: seq<string>, maxChars: int) returns (result: seq<string>)
    ensures result == SplitLong(sentences, maxChars)
  {
    result := [];
    var i := 0;
    while i < |sentences|
      invariant 0 <= i <= |sentences|
      invariant result == SplitLong(sentences[..i], maxChars)
    {
      var s := sentences[i];
      PrefixStep(sentences, i);
      if |s| <= maxChars {
        result := result + [s];
      } else {
        var pieces := PackClauses(s, maxChars);
        result := result + pieces;
      }
      i := i + 1;
    }
    assert sentences[..|sentences|] == sentences;
  }

  /** Sentences that fit pass through unchanged and in order. */
  lemma {:induction false} ShortUnchanged(ss: seq<string>, maxChars: int)
    requires forall k :: 0 <= k < |ss| ==> |ss[k]| <= maxChars
    ensures SplitLong(ss, maxChars) == ss
    decreases |ss|
  {
    if |ss| > 0 {
      ShortUnchanged(ss[..|ss| - 1], maxChars);
      LastSplit(ss);
    }
  }

  /** The packing loses nothing: the closed groups and the open one concatenate to the parts. */
  lemma {:induction false} PackConcat(parts: seq<string>, maxChars: int)
    ensures Concat(Pack(parts, maxChars).closed) + Pack(parts, maxChars).current == Concat(parts)
    decreases |parts|
  {
    if |parts| > 0 {
      var init := parts[..|parts| - 1];
      var part := parts[|parts| - 1];
      PackConcat(init, maxChars);
      var g := Pack(init, maxChars);
      if |g.current| + |part| > maxChars && g.current != "" {
        assert Concat(g.closed + [g.current]) == Concat(g.closed) + g.current by {
          assert (g.closed + [g.current])[..|g.closed|] == g.closed;
        }
      } else {
        Assoc(Concat(g.closed), g.current, part);
      }
    }
  }

  /** Each group fits max_chars unless it is a single part; the one being filled may also be empty. */
  lemma {:induction false} PackBound(parts: seq<string>, maxChars: int)
    ensures var g := Pack(parts, maxChars);
      && (g.current == "" || |g.current| <= maxChars || g.current in parts)
      && forall k :: 0 <= k < |g.closed| ==> |g.closed[k]| <= maxChars || g.closed[k] in parts
    decreases |parts|
  {
    if |parts| > 0 {
      var init := parts[..|parts| - 1];
      var part := parts[|parts| - 1];
      PackBound(init, maxChars);
      var g := Pack(init, maxChars);
      assert part in parts;
      assert forall x :: x in init ==> x in parts;
      if !(|g.current| + |part| > maxChars && g.current != "") && g.current == "" {
        assert g.current + part == part;
      }
    }
  }

  /** Every piece of a long sentence fits max_chars, unless it comes from a single clause part longer than that. */
  lemma LongPieceBound(s: string, maxChars: int, k: nat)
    requires k < |LongPieces(s, maxChars)|
    ensures var piece := LongPieces(s, maxChars)[k];
      |piece| <= maxChars || exists part :: part in ClauseFrom(s, 0, 0) && piece == Strip(part)
  {
    var parts := ClauseFrom(s, 0, 0);
    PackBound(parts, maxChars);
    var g := Pack(parts, maxChars);
    var pre := Stripped(g.closed);
    var last := if IsBlank(g.current) then [] else [Strip(g.current)];
    assert LongPieces(s, maxChars) == pre + last;
    ConcatIndex(pre, last, k);
    var x := if k < |g.closed| then g.closed[k] else g.current;
    if k < |g.closed| {
      StrippedAt(g.closed, k);
    }
    assert LongPieces(s, maxChars)[k] == Strip(x);
    assert |x| <= maxChars || x in parts;
  }

  /** The groups of a long sentence, before stripping, concatenate back to the sentence. */
  lemma LongGroupsConcat(s: string, maxChars: int)
    ensures Concat(Pack(ClauseFrom(s, 0, 0), maxChars).closed) + Pack(ClauseFrom(s, 0, 0), maxChars).current == s
  {
    ClausesConcat(s, 0, 0);
    PackConcat(ClauseFrom(s, 0, 0), maxChars);
  }

  // ----- chunk_text -----

  const MinChars: int := 40
  const MaxChars: int := 300

  /** chunk_text as a value. */
  function Chunks(text: string, minChars: int, maxChars: int): seq<string>
  {
    Merge(SplitLong(Sentences(text), maxChars), minChars)
  }

  /** chunk_text: split_sentences, then split_long_sentences, then merge_short_sentences. */
  method ChunkText(text: string, minChars: int, maxChars: int) returns (chunks: seq<string>)
    ensures chunks == Chunks(text, minChars, maxChars)
  {
    var sentences := SplitSentences(text);
    sentences := SplitLongSentences(sentences, maxChars);
    chunks := MergeShortSentences(sentences, minChars);
  }

  /** Blank text gives no chunks, and every chunk but the last has at least min_chars. */
  lemma ChunksShape(text: string, minChars: int, maxChars: int)
    ensures IsBlank(text) ==> Chunks(text, minChars, maxChars) == []
    ensures LongEnough(Chunks(text, minChars, maxChars), minChars)
  {
    var ss := SplitLong(Sentences(text), maxChars);
    if IsBlank(text) {
      assert Sentences(text) == [];
      assert ss == [];
    }
    MergeLengths(ss, minChars);
  }

  /** When no sentence is longer than max_chars, the chunks are the merged sentences and join back to the normalized text. */
  lemma ChunksOfShortText(text: string, minChars: int, maxChars: int)
    requires forall k :: 0 <= k < |Sentences(text)| ==> |Sentences(text)[k]| <= maxChars
    ensures Join(Chunks(text, minChars, maxChars)) == Normalize(text)
  {
    ShortUnchanged(Sentences(text), maxChars);
    MergeJoin(Sentences(text), minChars);
    SentencesJoin(text);
  }
}
