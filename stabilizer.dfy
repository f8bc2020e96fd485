/**
 * One interim pass of the stabilisation engine, shared by the GUI client and
 * the headless simulator: align the new text with the retained tail of the
 * previous pass, choose a cut, commit the fragment before it, move the audio
 * window, and keep the rest as the new tail; or, when nothing is committed,
 * apply the divergence guard that decides whether the new text replaces the
 * retained tail.
 */
module Stabilizer {
  import opened Bytes
  import opened AsrTypes
  import opened Aligner
  import opened CommitSelector
  import opened WindowAdvance

  /** sizeof(g_prev_result): texts this long cannot be retained. */
  const PrevCap: nat := 16384
  /** sizeof(sentence): a committed fragment keeps at most 8191 bytes. */
  const SentenceCap: nat := 8192

  /** The part of the engine state a pass reads and writes. */
  datatype Tracker = Tracker(
    prev: string,            // g_prev_result: uncommitted tail of the last accepted pass
    stable: nat,             // g_stable_len
    committedSamples: int,   // g_committed_samples: start of the next audio window
    windowSamples: int,      // g_window_samples: length of the window last sent
    lastTranscribe: int,     // g_last_transcribe_samples: end of the window last sent
    unconfirmed: bool)       // g_common0_unconfirmed: one full divergence seen

  /** What a pass did: the new tracker, the fragment it committed ("" if none). */
  datatype Outcome = Outcome(tracker: Tracker, fragment: string, didCommit: bool)

  /** s without its trailing spaces. */
  function TrimRight(s: string): (t: string)
    ensures |t| <= |s| && t == s[..|t|]
    ensures |t| > 0 ==> t[|t| - 1] != ' '
    ensures forall k :: |t| <= k < |s| ==> s[k] == ' '
    decreases |s|
  {
    if |s| > 0 && s[|s| - 1] == ' ' then TrimRight(s[..|s| - 1]) else s
  }

  /** The length of the prefix of s left once its trailing spaces are dropped. */
  method TrimmedLength(s: string) returns (n: nat)
    ensures n == |TrimRight(s)|
  {
    n := |s|;
    while n > 0 && s[n - 1] == ' '
      invariant n <= |s|
      invariant TrimRight(s[..n]) == TrimRight(s)
    {
      assert s[..n][..n - 1] == s[..n - 1];
      n := n - 1;
    }
    assert s[..n] == TrimRight(s[..n]);
  }

  /** The bytes copied into `sentence`: at most SentenceCap - 1 of them. */
  function CommitLen(n: nat): (m: nat)
    ensures m <= n && m < SentenceCap
    ensures n < SentenceCap ==> m == n
  {
    if n >= SentenceCap then SentenceCap - 1 else n
  }

  /** The fragment committed by a cut at newStable. */
  function Fragment(a: string, stable: nat, newStable: nat): (f: string)
    requires stable <= newStable <= |a|
    ensures |f| < SentenceCap
  {
    TrimRight(a[stable .. stable + CommitLen(newStable - stable)])
  }

  /** The cut chosen for new text a against the tracker's retained tail. */
  function CutOf(t: Tracker, a: string): (ns: nat)
    ensures t.stable <= ns
    ensures ns > t.stable ==> ns <= |a|
  {
    SelectCommit(a, Common(a, t.prev), t.stable)
  }

  /** The interim-pass update of the engine. */
  function Reconcile(t: Tracker, p: Pass): Outcome
    requires |p.text| < PrevCap
  {
    var ns := CutOf(t, p.text);
    if ns > t.stable then Committed(t, p, ns) else Guarded(t, p.text, Common(p.text, t.prev))
  }

  /** A pass that cuts at ns: commit, advance the window, keep the tail. */
  function Committed(t: Tracker, p: Pass, ns: nat): Outcome
    requires t.stable < ns <= |p.text|
  {
    var a := p.text;
    var advance := Advance(p.stamps, t.windowSamples, ns, |a|);
    var tail := |a| - ns;
    Outcome(
      t.(prev := if 0 < tail < PrevCap then a[ns..] else "",
         stable := 0,
         committedSamples := Clamp(t.committedSamples, advance, t.lastTranscribe)),
      Fragment(a, t.stable, ns),
      true)
  }

  /** A pass that commits nothing: the divergence guard. */
  function Guarded(t: Tracker, a: string, common: nat): Outcome
  {
    if common == 0 && |t.prev| > 0 && t.stable == 0 && !t.unconfirmed then
      Outcome(t.(unconfirmed := true), "", false)
    else
      Outcome(t.(prev := a, unconfirmed := if common > 0 then false else t.unconfirmed), "", false)
  }

  /** The window advance as the engine computes it. */
  method AdvanceRun(ts: seq<Stamp>, window: int, ns: nat, len: nat) returns (advance: int)
    ensures advance == Advance(ts, window, ns, len)
  {
    advance := 0;
    if |ts| > 0 {
      var lastMs := LastLeadingMs(ts, ns);
      advance := Int32(lastMs * SampleRate / 1000);
    } else if len > 0 && window > 0 {
      advance := window * ns / len;
    }
  }

  /** The committing branch as the engine runs it. */
  method CommitRun(t: Tracker, p: Pass, ns: nat) returns (o: Outcome)
    requires t.stable < ns <= |p.text|
    ensures o == Committed(t, p, ns)
  {
    var a := p.text;
    var slen := ns - t.stable;
    if slen >= SentenceCap {
      slen := SentenceCap - 1;
    }
    var sentence := a[t.stable .. t.stable + slen];
    var n := TrimmedLength(sentence);
    var advance := AdvanceRun(p.stamps, t.windowSamples, ns, |a|);
    var committed := Int32(t.committedSamples + advance);
    if committed > t.lastTranscribe {
      committed := t.lastTranscribe;
    }
    assert committed == Clamp(t.committedSamples, advance, t.lastTranscribe);
    var tail := |a| - ns;
    var prev := "";
    if tail > 0 && tail < PrevCap {
      prev := a[ns..];
    }
    o := Outcome(t.(prev := prev, stable := 0, committedSamples := committed), sentence[..n], true);
  }

  /** The interim pass as the engine runs it, loop by loop. */
  method ReconcileRun(t: Tracker, p: Pass) returns (o: Outcome)
    requires |p.text| < PrevCap
    ensures o == Reconcile(t, p)
  {
    var a := p.text;
    var common := AlignCommon(a, t.prev);
    var ns := SelectCut(a, common, t.stable);
    if ns > t.stable {
      o := CommitRun(t, p, ns);
    } else {
      var full := common == 0 && |t.prev| > 0 && t.stable == 0;
      if full && !t.unconfirmed {
        o := Outcome(t.(unconfirmed := true), "", false);
      } else {
        var flag := t.unconfirmed;
        if common > 0 {
          flag := false;
        }
        o := Outcome(t.(prev := a, unconfirmed := flag), "", false);
      }
    }
  }

  // ---------------------------------------------------------------------
  // Properties
  // ---------------------------------------------------------------------

  /** A pass whose cut lies past the stable length takes the committing branch. */
  lemma ReconcileCommits(t: Tracker, p: Pass)
    requires |p.text| < PrevCap
    requires CutOf(t, p.text) > t.stable
    ensures Reconcile(t, p) == Committed(t, p, CutOf(t, p.text))
  {
  }

  /**
   * A committing pass: the fragment is the text from the old stable length
   * to the cut (at most 8191 bytes of it) less its trailing spaces, the tail
   * after the cut is retained, the stable length resets and the guard flag
   * is left alone.
   */
  lemma CommittedEffect(t: Tracker, p: Pass, ns: nat)
    requires t.stable < ns <= |p.text| < PrevCap
    ensures var o := Committed(t, p, ns);
      && o.didCommit
      && o.tracker.prev == p.text[ns..]
      && o.tracker.stable == 0
      && o.tracker.unconfirmed == t.unconfirmed
      && o.tracker.windowSamples == t.windowSamples
      && o.tracker.lastTranscribe == t.lastTranscribe
      && o.fragment == TrimRight(p.text[t.stable .. t.stable + CommitLen(ns - t.stable)])
      && (|o.fragment| > 0 ==> o.fragment[|o.fragment| - 1] != ' ')
  {
    var o := Committed(t, p, ns);
    assert o.fragment == Fragment(p.text, t.stable, ns);
    if |p.text| - ns == 0 {
      assert p.text[ns..] == "";
    } else {
      assert o.tracker.prev == p.text[ns..];
    }
  }

  /** Trimming a slice splits the text into the trimmed slice, spaces, and the rest. */
  lemma TrimSplit(a: string, lo: nat, hi: nat)
    requires lo <= hi <= |a|
    ensures var f := |TrimRight(a[lo..hi])|;
      && a[lo..] == TrimRight(a[lo..hi]) + a[lo + f .. hi] + a[hi..]
      && (forall k :: lo + f <= k < hi ==> a[k] == ' ')
  {
    var piece := a[lo..hi];
    var frag := TrimRight(piece);
    var f := |frag|;
    assert frag == a[lo .. lo + f];
    forall k | lo + f <= k < hi
      ensures a[k] == ' '
    {
      assert piece[k - lo] == a[k];
    }
    assert a[lo..] == a[lo .. lo + f] + a[lo + f .. hi] + a[hi..];
  }

  /**
   * Nothing is lost at a cut: the uncommitted text from the stable length
   * on is the committed fragment, a run of spaces, then the retained tail
   * (when the fragment was not truncated).
   */
  lemma CommittedSplitsText(t: Tracker, p: Pass, ns: nat)
    requires t.stable < ns <= |p.text| < PrevCap
    requires ns - t.stable < SentenceCap
    ensures var o := Committed(t, p, ns);
      && p.text[t.stable..] == o.fragment + p.text[t.stable + |o.fragment| .. ns] + o.tracker.prev
      && (forall k :: t.stable + |o.fragment| <= k < ns ==> p.text[k] == ' ')
  {
    CommittedEffect(t, p, ns);
    TrimSplit(p.text, t.stable, ns);
  }

  /** The window start, the window and every audio position keep the advanced start inside a C `int`. */
  predicate FitsInt(t: Tracker, p: Pass)
  {
    && 0 <= t.committedSamples <= t.lastTranscribe < 0x8000_0000
    && t.committedSamples + t.windowSamples < 0x8000_0000
    && forall k :: 0 <= k < |p.stamps| ==>
         0 <= p.stamps[k].audioMs && t.committedSamples + 16 * p.stamps[k].audioMs < 0x8000_0000
  }

  /**
   * The audio window after a commit: it never starts past the end of the
   * window last transcribed, and it does not move backwards while the
   * backend's audio positions are non-negative and small enough for the
   * engine's `int` arithmetic.
   */
  lemma CommittedMovesWindow(t: Tracker, p: Pass, ns: nat)
    requires t.stable < ns <= |p.text|
    ensures Committed(t, p, ns).tracker.committedSamples <= t.lastTranscribe
    ensures FitsInt(t, p) ==> t.committedSamples <= Committed(t, p, ns).tracker.committedSamples
  {
    if FitsInt(t, p) {
      ClampedAdvanceMonotone(p.stamps, t.windowSamples, ns, |p.text|, t.committedSamples, t.lastTranscribe);
    }
  }

  /**
   * The divergence guard.  A pass that commits nothing and shares no prefix
   * with a non-empty retained tail is the first full divergence: the tail is
   * kept and the flag is set.  Every other non-committing pass replaces the
   * tail; only a pass sharing a prefix clears the flag, so a second full
   * divergence in a row replaces the tail and leaves the flag set.  The
   * audio window and the stable length are untouched.
   */
  lemma DivergenceGuard(t: Tracker, p: Pass)
    requires |p.text| < PrevCap
    requires CutOf(t, p.text) == t.stable
    ensures var o := Reconcile(t, p); var common := Common(p.text, t.prev);
      && !o.didCommit && o.fragment == ""
      && o.tracker.stable == t.stable
      && o.tracker.committedSamples == t.committedSamples
      && o.tracker.windowSamples == t.windowSamples
      && o.tracker.lastTranscribe == t.lastTranscribe
      && (common == 0 && |t.prev| > 0 && t.stable == 0 && !t.unconfirmed
          ==> o.tracker.prev == t.prev && o.tracker.unconfirmed)
      && (!(common == 0 && |t.prev| > 0 && t.stable == 0 && !t.unconfirmed)
          ==> o.tracker.prev == p.text
              && (common > 0 ==> !o.tracker.unconfirmed)
              && (common == 0 ==> o.tracker.unconfirmed == t.unconfirmed))
  {
  }

  /** A pass commits only when its cut lies past the stable length, and never past its text. */
  lemma CommitOnlyPastStable(t: Tracker, p: Pass)
    requires |p.text| < PrevCap
    ensures Reconcile(t, p).didCommit <==> CutOf(t, p.text) > t.stable
    ensures Reconcile(t, p).didCommit ==> CutOf(t, p.text) <= |p.text|
    ensures !Reconcile(t, p).didCommit ==> Reconcile(t, p).fragment == ""
  {
  }
}
