/**
 * The drill state of the pronunciation trainer: the sentence bank parser
 * (`drill_load_sentences`, over the lines the file yields), the positional
 * diff of a recognised sentence against its target (`drill_check`) and
 * the progress counters (`drill_record_attempt`).  Sentence texts are
 * strings whose chars stand for the bytes of their UTF-8 encoding.
 */
module Drill {
  import opened Bytes
  import opened CStrings
  import opened Utf8
  import opened DrillText

  const MaxSentences: int := 500
  const MaxText: int := 256

  datatype Sentence = Sentence(chinese: string, pinyin: string, english: string, hskLevel: int)

  datatype Progress = Progress(attempts: int, correct: int, streak: int)

  /** The last diff: the overall verdict, both code point sequences and the per-position verdicts. */
  datatype Diff = Diff(isMatch: bool, expected: seq<int>, actual: seq<int>, charMatch: seq<bool>)

  function Min(a: int, b: int): int { if a < b then a else b }

  // ---------------------------------------------------------------------
  // drill_load_sentences
  // ---------------------------------------------------------------------

  /** The line without its trailing newlines and carriage returns. */
  function TrimEol(s: string): (t: string)
    ensures t <= s && (|t| > 0 ==> t[|t| - 1] != '\n' && t[|t| - 1] != '\r')
    decreases |s|
  {
    if |s| > 0 && (s[|s| - 1] == '\n' || s[|s| - 1] == '\r') then TrimEol(s[..|s| - 1]) else s
  }

  /** The first index at or after i that is not a space. */
  function SkipSpaces(s: string, i: nat): (j: nat)
    ensures i <= j && (i <= |s| ==> j <= |s|)
    decreases |s| - i
  {
    if i < |s| && s[i] == ' ' then SkipSpaces(s, i + 1) else i
  }

  /** `_strnicmp(s + i, "HSK", 3) == 0`. */
  predicate HskAt(s: string, i: nat)
  {
    i + 3 <= |s|
    && (s[i] == 'H' || s[i] == 'h') && (s[i + 1] == 'S' || s[i + 1] == 's') && (s[i + 2] == 'K' || s[i + 2] == 'k')
  }

  function Clamp(v: int, lo: int, hi: int): (r: int)
    requires lo <= hi
    ensures lo <= r <= hi && (lo <= v <= hi ==> r == v)
  {
    if v < lo then lo else if v > hi then hi else v
  }

  /** The level a `#` line sets: the number after `HSK`, clamped to 1..6; other `#` lines keep the level. */
  function HeaderLevel(line: string, level: int): (r: int)
    ensures r == level || 1 <= r <= 6
  {
    var p := SkipSpaces(line, 1);
    if HskAt(line, p) then Clamp(Atoi(line, SkipSpaces(line, p + 3)), 1, 6) else level
  }

  /** The three `|`-separated fields of a line; the last keeps any further `|`. */
  function Fields(line: string): (r: Option<(string, string, string)>)
    ensures r.Some? ==> r.value.0 + "|" + r.value.1 + "|" + r.value.2 == line
    ensures r.Some? ==> '|' !in r.value.0 && '|' !in r.value.1
    ensures r.None? <==> forall k, m :: 0 <= k < m < |line| ==> !(line[k] == '|' && line[m] == '|')
  {
    var p1 := FindChar(line, '|', 0);
    if p1 < 0 then None
    else
      var p2 := FindChar(line, '|', p1 + 1);
      if p2 < 0 then None
      else
        assert line == line[..p1] + "|" + line[p1 + 1..p2] + "|" + line[p2 + 1..];
        Some((line[..p1], line[p1 + 1..p2], line[p2 + 1..]))
  }

  /** A line that yields a sentence: not empty, not a header, with two `|`. */
  predicate IsEntry(line: string)
  {
    |line| > 0 && line[0] != '#' && Fields(line).Some?
  }

  /** The sentence of an entry line, each field cut to MaxText - 1 bytes. */
  function Entry(line: string, level: int): Sentence
    requires IsEntry(line)
  {
    var f := Fields(line).value;
    Sentence(Truncate(f.0, MaxText), Truncate(f.1, MaxText), Truncate(f.2, MaxText), level)
  }

  /**
   * What one trimmed line does: an empty line nothing, a `#` line may set
   * the level, an entry line yields a sentence at the current level and any
   * other line is skipped.
   */
  function LineStep(line: string, level: int): (r: (int, Option<Sentence>))
    ensures r.1.Some? <==> IsEntry(line)
    ensures r.1.Some? ==> r == (level, Some(Entry(line, level)))
    ensures r.0 != level ==> |line| > 0 && line[0] == '#' && HskAt(line, SkipSpaces(line, 1)) && 1 <= r.0 <= 6
  {
    if |line| == 0 then (level, None)
    else if line[0] == '#' then (HeaderLevel(line, level), None)
    else if !IsEntry(line) then (level, None)
    else (level, Some(Entry(line, level)))
  }

  /** The load loop from line i, at the given level, onto the sentences loaded so far. */
  function LoadFrom(lines: seq<string>, i: nat, level: int, acc: seq<Sentence>): seq<Sentence>
    decreases |lines| - i
  {
    if i >= |lines| || |acc| >= MaxSentences then acc
    else
      var r := LineStep(TrimEol(lines[i]), level);
      LoadFrom(lines, i + 1, r.0, if r.1.Some? then acc + [r.1.value] else acc)
  }

  /** The sentence bank of a file: levels start at 1. */
  function Load(lines: seq<string>): seq<Sentence>
  {
    LoadFrom(lines, 0, 1, [])
  }

  /** The entry lines from i on. */
  function EntryCount(lines: seq<string>, i: nat): nat
    decreases |lines| - i
  {
    if i >= |lines| then 0 else (if IsEntry(TrimEol(lines[i])) then 1 else 0) + EntryCount(lines, i + 1)
  }

  predicate WellFormed(s: Sentence)
  {
    1 <= s.hskLevel <= 6 && |s.chinese| < MaxText && |s.pinyin| < MaxText && |s.english| < MaxText
  }

  predicate AllWellFormed(ss: seq<Sentence>)
  {
    forall k :: 0 <= k < |ss| ==> WellFormed(ss[k])
  }

  lemma SnocWellFormed(acc: seq<Sentence>, s: Sentence)
    requires AllWellFormed(acc) && WellFormed(s)
    ensures AllWellFormed(acc + [s])
  {
    forall k | 0 <= k < |acc| + 1 ensures WellFormed((acc + [s])[k]) {
      if k < |acc| {
        assert (acc + [s])[k] == acc[k];
      }
    }
  }

  /** The load loop only appends, one sentence per entry line until the bank is full. */
  lemma {:induction false} LoadFromCount(lines: seq<string>, i: nat, level: int, acc: seq<Sentence>)
    requires |acc| <= MaxSentences
    ensures acc <= LoadFrom(lines, i, level, acc)
    ensures |LoadFrom(lines, i, level, acc)| == Min(|acc| + EntryCount(lines, i), MaxSentences)
    decreases |lines| - i
  {
    if i < |lines| && |acc| < MaxSentences {
      var line := TrimEol(lines[i]);
      var r := LineStep(line, level);
      var acc' := if r.1.Some? then acc + [r.1.value] else acc;
      assert LoadFrom(lines, i, level, acc) == LoadFrom(lines, i + 1, r.0, acc');
      assert |acc'| + EntryCount(lines, i + 1) == |acc| + EntryCount(lines, i);
      LoadFromCount(lines, i + 1, r.0, acc');
    } else if i >= |lines| {
      assert EntryCount(lines, i) == 0;
    }
  }

  /** Every sentence the load loop appends is well formed: levels in 1..6, fields cut to fit. */
  lemma {:induction false} LoadFromWellFormed(lines: seq<string>, i: nat, level: int, acc: seq<Sentence>)
    requires 1 <= level <= 6 && AllWellFormed(acc)
    ensures AllWellFormed(LoadFrom(lines, i, level, acc))
    decreases |lines| - i
  {
    if i < |lines| && |acc| < MaxSentences {
      var line := TrimEol(lines[i]);
      var r := LineStep(line, level);
      var acc' := acc;
      if r.1.Some? {
        SnocWellFormed(acc, r.1.value);
        acc' := acc + [r.1.value];
      }
      assert LoadFrom(lines, i, level, acc) == LoadFrom(lines, i + 1, r.0, acc');
      LoadFromWellFormed(lines, i + 1, r.0, acc');
    }
  }

  /**
   * The bank holds one sentence per entry line, up to MaxSentences; every
   * level lies in 1..6 and every field keeps at most MaxText - 1 bytes.
   */
  lemma LoadFacts(lines: seq<string>)
    ensures |Load(lines)| == Min(EntryCount(lines, 0), MaxSentences)
    ensures AllWellFormed(Load(lines))
  {
    LoadFromCount(lines, 0, 1, []);
    LoadFromWellFormed(lines, 0, 1, []);
  }

  /** A file without entry lines loads nothing, which is what the -1 return reports. */
  lemma LoadEmptyIff(lines: seq<string>)
    ensures |Load(lines)| == 0 <==> EntryCount(lines, 0) == 0
  {
    LoadFacts(lines);
  }

  // ---------------------------------------------------------------------
  // drill_check
  // ---------------------------------------------------------------------

  /**
   * The positional diff of two code point sequences: per position whether
   * the two sound the same, positions from the shorter length on are misses.
   */
  function DiffOfCps(e: seq<int>, a: seq<int>): Diff
  {
    var n := Min(|e|, |a|);
    Diff(
      |e| == |a| && forall k :: 0 <= k < |e| ==> SameSound(e[k], a[k]),
      e, a,
      seq(MaxText, k requires 0 <= k < MaxText => k < n && SameSound(e[k], a[k])))
  }

  /** The diff of an answer against a target: the answer loses its strip code points at both ends first. */
  function DiffOf(expected: string, actual: string): Diff
  {
    DiffOfCps(Codepoints(OfChars(expected), 0, MaxText), Stripped(Codepoints(OfChars(actual), 0, MaxText)))
  }

  /** The verdict of a diff is the conjunction of its per-position verdicts and equal lengths. */
  lemma DiffCpsFacts(e: seq<int>, a: seq<int>)
    ensures var d := DiffOfCps(e, a);
      && d.expected == e && d.actual == a && |d.charMatch| == MaxText
      && (|e| <= MaxText ==> (d.isMatch <==> |e| == |a| && forall k :: 0 <= k < |e| ==> d.charMatch[k]))
      && (forall k :: 0 <= k < MaxText ==> (d.charMatch[k] <==> k < Min(|e|, |a|) && SameSound(e[k], a[k])))
  {
    var d := DiffOfCps(e, a);
    if |e| <= MaxText && |e| == |a| && forall k :: 0 <= k < |e| ==> d.charMatch[k] {
      forall k | 0 <= k < |e| ensures SameSound(e[k], a[k]) {
        assert d.charMatch[k];
      }
    }
  }

  /**
   * A diff is a match exactly when both sides have as many code points and
   * every position matches; no position past the shorter side matches, and
   * neither side holds more than MaxText code points.
   */
  lemma DiffFacts(expected: string, actual: string)
    ensures var d := DiffOf(expected, actual);
      && |d.charMatch| == MaxText && |d.expected| <= MaxText && |d.actual| <= MaxText
      && (d.isMatch <==> |d.expected| == |d.actual| && forall k :: 0 <= k < |d.expected| ==> d.charMatch[k])
      && forall k :: Min(|d.expected|, |d.actual|) <= k < MaxText ==> !d.charMatch[k]
  {
    var e := Codepoints(OfChars(expected), 0, MaxText);
    var a := Codepoints(OfChars(actual), 0, MaxText);
    StrippedSlice(a);
    DiffCpsFacts(e, Stripped(a));
  }

  /** A correct answer is its own perfect match. */
  lemma DiffSelf(s: string)
    requires forall k :: 0 <= k < |Codepoints(OfChars(s), 0, MaxText)| ==> !IsStripCp(Codepoints(OfChars(s), 0, MaxText)[k])
    ensures DiffOf(s, s).isMatch
  {
    var c := Codepoints(OfChars(s), 0, MaxText);
    assert StripStart(c, 0) == 0 || |c| == 0;
    assert StripEnd(c, StripStart(c, 0), |c|) == |c|;
    assert c[0..|c|] == c;
  }

  function Bump(p: Progress, correct: bool): Progress
  {
    Progress(p.attempts + 1, if correct then p.correct + 1 else p.correct, if correct then p.streak + 1 else 0)
  }

  predicate Consistent(p: Progress)
  {
    0 <= p.correct <= p.attempts && 0 <= p.streak
  }

  /** An attempt counts once; a correct one raises correct and the streak, a wrong one ends the streak. */
  lemma BumpFacts(p: Progress, correct: bool)
    requires Consistent(p)
    ensures Consistent(Bump(p, correct)) && Bump(p, correct).attempts == p.attempts + 1
    ensures Bump(p, correct).correct - p.correct == (if correct then 1 else 0)
    ensures correct ==> Bump(p, correct).streak == p.streak + 1
    ensures !correct ==> Bump(p, correct).streak == 0
  {
  }

  class DrillState {
    const sentences: array<Sentence>
    const progress: array<Progress>
    var numSentences: int
    var currentIdx: int
    var sessionAttempts: int
    var sessionCorrect: int
    var lastDiff: Diff
    var resultText: string
    var hasResult: bool
    var hskFilter: int

    predicate Valid()
      reads this
    {
      sentences.Length == MaxSentences && progress.Length == MaxSentences && 0 <= numSentences <= MaxSentences
    }

    /** Every counter pair keeps correct within attempts. */
    predicate Counted()
      reads this, progress
    {
      (forall i :: 0 <= i < progress.Length ==> Consistent(progress[i]))
      && 0 <= sessionCorrect <= sessionAttempts
    }

    /** The zeroed state drill_init starts from: no sentences, no current one, no filter. */
    constructor ()
      ensures Valid() && Counted() && fresh(sentences) && fresh(progress)
      ensures numSentences == 0 && currentIdx == -1 && hskFilter == 0 && !hasResult
      ensures sessionAttempts == 0 && sessionCorrect == 0
    {
      sentences := new Sentence[MaxSentences](_ => Sentence("", "", "", 0));
      progress := new Progress[MaxSentences](_ => Progress(0, 0, 0));
      numSentences := 0;
      currentIdx := -1;
      sessionAttempts := 0;
      sessionCorrect := 0;
      lastDiff := Diff(false, [], [], []);
      resultText := "";
      hasResult := false;
      hskFilter := 0;
    }

    /** drill_load_sentences over the lines of the file; 0 when something was loaded, -1 otherwise. */
    method LoadSentences(lines: seq<string>) returns (rc: int)
      requires Valid()
      modifies this, sentences
      ensures Valid() && numSentences == |Load(lines)| && sentences[..numSentences] == Load(lines)
      ensures rc == (if numSentences > 0 then 0 else -1)
      ensures currentIdx == old(currentIdx) && hskFilter == old(hskFilter) && hasResult == old(hasResult)
      ensures sessionAttempts == old(sessionAttempts) && sessionCorrect == old(sessionCorrect)
      ensures lastDiff == old(lastDiff) && resultText == old(resultText)
    {
      numSentences := LoadInto(lines, sentences);
      rc := if numSentences > 0 then 0 else -1;
    }

    /** The load loop: fills the array with the bank of the file and returns how many it holds. */
    static method LoadInto(lines: seq<string>, sentences: array<Sentence>) returns (n: int)
      requires sentences.Length == MaxSentences
      modifies sentences
      ensures 0 <= n <= MaxSentences && sentences[..n] == Load(lines)
    {
      var level := 1;
      n := 0;
      var i := 0;
      while i < |lines| && n < MaxSentences
        invariant i <= |lines| && 0 <= n <= MaxSentences
        invariant LoadFrom(lines, i, level, sentences[..n]) == Load(lines)
      {
        var next, entry := ParseLine(TrimEol(lines[i]), level);
        if entry.Some? {
          ghost var before := sentences[..n];
          sentences[n] := entry.value;
          n := n + 1;
          assert sentences[..n] == before + [entry.value];
        }
        level := next;
        i := i + 1;
      }
    }

    /** The body of the load loop for one trimmed line: the level after it and the sentence it yields. */
    static method ParseLine(line: string, level: int) returns (next: int, entry: Option<Sentence>)
      ensures (next, entry) == LineStep(line, level)
    {
      next, entry := level, None;
      if |line| == 0 { return; }
      if line[0] == '#' {
        var p := SkipSpaces(line, 1);
        if HskAt(line, p) {
          next := Clamp(Atoi(line, SkipSpaces(line, p + 3)), 1, 6);
        }
        return;
      }
      var p1 := FindChar(line, '|', 0);
      if p1 < 0 { return; }
      var p2 := FindChar(line, '|', p1 + 1);
      if p2 < 0 { return; }
      entry := Some(Sentence(Truncate(line[..p1], MaxText), Truncate(line[p1 + 1..p2], MaxText),
                             Truncate(line[p2 + 1..], MaxText), level));
    }

    /** drill_check: diffs the answer against the current sentence; 1 for a perfect match. */
    method Check(actual: string) returns (m: int)
      requires Valid()
      modifies this
      ensures Valid() && numSentences == old(numSentences) && currentIdx == old(currentIdx)
      ensures sessionAttempts == old(sessionAttempts) && sessionCorrect == old(sessionCorrect)
      ensures hskFilter == old(hskFilter)
      ensures !(0 <= currentIdx < numSentences) ==>
        m == 0 && lastDiff == old(lastDiff) && resultText == old(resultText) && hasResult == old(hasResult)
      ensures 0 <= currentIdx < numSentences ==>
        && lastDiff == DiffOf(sentences[currentIdx].chinese, actual)
        && m == (if lastDiff.isMatch then 1 else 0)
        && resultText == Truncate(actual, MaxText) && hasResult
    {
      if currentIdx < 0 || currentIdx >= numSentences { return 0; }
      lastDiff := DiffAnswer(sentences[currentIdx].chinese, actual);
      resultText := Truncate(actual, MaxText);
      hasResult := true;
      m := if lastDiff.isMatch then 1 else 0;
    }

    /** The diff drill_check fills: both texts decoded, the answer stripped, then compared. */
    static method DiffAnswer(expected: string, actual: string) returns (d: Diff)
      ensures d == DiffOf(expected, actual)
    {
      var ecps := new int[MaxText];
      var ne := Utf8ToCodepoints(OfChars(expected), ecps, MaxText);
      var acps := new int[MaxText];
      var na := Utf8ToCodepoints(OfChars(actual), acps, MaxText);
      na := StripCodepoints(acps, na);
      d := Compare(ecps[..ne], acps[..na]);
    }

    /** The comparison loops of drill_check over the two code point sequences. */
    static method Compare(e: seq<int>, a: seq<int>) returns (d: Diff)
      requires |e| <= MaxText && |a| <= MaxText
      ensures d == DiffOfCps(e, a)
    {
      var n := Min(|e|, |a|);
      var charMatch := new bool[MaxText](_ => false);
      var all := true;
      var i := 0;
      while i < n
        invariant 0 <= i <= n
        invariant forall k :: 0 <= k < MaxText ==> charMatch[k] == (k < i && SameSound(e[k], a[k]))
        invariant all <==> forall k :: 0 <= k < i ==> SameSound(e[k], a[k])
      {
        var h := HomophonesMatch(e[i], a[i]);
        charMatch[i] := h;
        if !h { all := false; }
        i := i + 1;
      }
      if |e| != |a| { all := false; }
      i := n;
      while i < |e|
        invariant n <= i
        invariant forall k :: 0 <= k < MaxText ==> charMatch[k] == (k < n && SameSound(e[k], a[k]))
      {
        charMatch[i] := false;
        i := i + 1;
      }
      d := Diff(all, e, a, charMatch[..]);
    }

    /** drill_record_attempt: counts an attempt on the current sentence, and in the session totals. */
    method RecordAttempt(correct: bool)
      requires Valid()
      modifies this, progress
      ensures Valid() && numSentences == old(numSentences) && currentIdx == old(currentIdx)
      ensures lastDiff == old(lastDiff) && resultText == old(resultText) && hasResult == old(hasResult)
      ensures hskFilter == old(hskFilter)
      ensures !(0 <= currentIdx < numSentences) ==>
        progress[..] == old(progress[..]) && sessionAttempts == old(sessionAttempts) && sessionCorrect == old(sessionCorrect)
      ensures 0 <= currentIdx < numSentences ==>
        && progress[..] == old(progress[..])[currentIdx := Bump(old(progress[currentIdx]), correct)]
        && sessionAttempts == old(sessionAttempts) + 1
        && sessionCorrect == old(sessionCorrect) + (if correct then 1 else 0)
      ensures old(Counted()) ==> Counted()
    {
      if currentIdx < 0 || currentIdx >= numSentences { return; }
      var p := progress[currentIdx];
      if correct {
        progress[currentIdx] := Progress(p.attempts + 1, p.correct + 1, p.streak + 1);
      } else {
        progress[currentIdx] := Progress(p.attempts + 1, p.correct, 0);
      }
      sessionAttempts := sessionAttempts + 1;
      if correct { sessionCorrect := sessionCorrect + 1; }
      if old(Counted()) {
        BumpFacts(p, correct);
        assert forall i :: 0 <= i < progress.Length ==> Consistent(progress[i]) by {
          forall i | 0 <= i < progress.Length ensures Consistent(progress[i]) {
            if i != currentIdx { assert progress[i] == old(progress[i]); }
          }
        }
      }
    }
  }
}
