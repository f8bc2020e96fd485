/**
 * How far the audio window moves after a commit.  With word timestamps the
 * window advances to the audio position of the last token of the leading run
 * of tokens that start before the cut; without them it advances in
 * proportion to the committed share of the text.  The committed sample
 * count is then clamped to the end of the window that was transcribed.
 *
 * The engine keeps the advance and the committed sample count in C `int`s:
 * the timestamp advance is narrowed from 64 bits and the sum wraps, both
 * written out here with `Int32`.
 */
module WindowAdvance {
  import opened Bytes
  import opened AsrTypes

  /** Samples per second of the recording (WHISPER_SAMPLE_RATE). */
  const SampleRate: int := 16000

  /**
   * The end of the leading run of tokens starting at index t that all begin
   * before byte `cut`.
   */
  function RunEnd(ts: seq<Stamp>, cut: int, t: nat): (n: nat)
    requires t <= |ts|
    ensures t <= n <= |ts|
    ensures forall k :: t <= k < n ==> ts[k].byteOffset < cut
    ensures n < |ts| ==> ts[n].byteOffset >= cut
    decreases |ts| - t
  {
    if t < |ts| && ts[t].byteOffset < cut then RunEnd(ts, cut, t + 1) else t
  }

  /** The number of leading tokens that start before the cut. */
  function LeadingRun(ts: seq<Stamp>, cut: int): (n: nat)
    ensures n <= |ts|
  {
    RunEnd(ts, cut, 0)
  }

  /** The timestamp loop: remember the audio position until a token starts at or after the cut. */
  function LeadFrom(ts: seq<Stamp>, cut: int, t: nat, last: int): int
    requires t <= |ts|
    decreases |ts| - t
  {
    if t < |ts| && ts[t].byteOffset < cut then LeadFrom(ts, cut, t + 1, ts[t].audioMs) else last
  }

  /** The audio position (ms) the window advances to, or 0 if no token starts before the cut. */
  function LeadMs(ts: seq<Stamp>, cut: int): int
  {
    LeadFrom(ts, cut, 0, 0)
  }

  /** The timestamp loop as the engine runs it. */
  method LastLeadingMs(ts: seq<Stamp>, cut: int) returns (lastMs: int)
    ensures lastMs == LeadMs(ts, cut)
  {
    lastMs := 0;
    var t := 0;
    while t < |ts|
      invariant t <= |ts|
      invariant LeadFrom(ts, cut, t, lastMs) == LeadMs(ts, cut)
    {
      if ts[t].byteOffset < cut {
        lastMs := ts[t].audioMs;
      } else {
        break;
      }
      t := t + 1;
    }
  }

  /** The first audio position (ms) whose advance, 16 samples per ms, no longer fits a C `int`. */
  const WrapMs: int := 0x800_0000

  /**
   * The advance in samples.  With timestamps the 64-bit product is a
   * multiple of 1000, so the division is exact, and the quotient is then
   * narrowed to an `int`.  Without them the dividend is non-negative, so
   * Dafny's division agrees with C's, and the quotient lies between 0 and
   * the window, which is an `int` already.
   */
  function Advance(ts: seq<Stamp>, window: int, newStable: nat, resultLen: nat): int
  {
    if |ts| > 0 then Int32(LeadMs(ts, newStable) * SampleRate / 1000)
    else if resultLen > 0 && window > 0 then window * newStable / resultLen
    else 0
  }

  /** g_committed_samples += advance in an `int`, then clamped to g_last_transcribe_samples. */
  function Clamp(committed: int, advance: int, limit: int): (c: int)
    ensures c <= limit
    ensures c == limit || c == Int32(committed + advance)
    ensures InInt(committed + advance) && committed + advance <= limit ==> c == committed + advance
    ensures InInt(committed + advance) && committed + advance > limit ==> c == limit
  {
    var sum := Int32(committed + advance);
    if sum > limit then limit else sum
  }

  // ---------------------------------------------------------------------
  // Properties
  // ---------------------------------------------------------------------

  lemma {:induction false} LeadFromIsLastOfRun(ts: seq<Stamp>, cut: int, t: nat, last: int)
    requires t <= |ts|
    ensures LeadFrom(ts, cut, t, last)
      == if RunEnd(ts, cut, t) == t then last else ts[RunEnd(ts, cut, t) - 1].audioMs
    decreases |ts| - t
  {
    if t < |ts| && ts[t].byteOffset < cut {
      LeadFromIsLastOfRun(ts, cut, t + 1, ts[t].audioMs);
    }
  }

  /**
   * The window advances to the audio position of the LAST token of the
   * leading run, not to the largest position among tokens before the cut.
   */
  lemma LeadMsIsLastOfRun(ts: seq<Stamp>, cut: int)
    ensures LeadMs(ts, cut)
      == if LeadingRun(ts, cut) == 0 then 0 else ts[LeadingRun(ts, cut) - 1].audioMs
  {
    LeadFromIsLastOfRun(ts, cut, 0, 0);
  }

  /**
   * With timestamps the advance is 16 samples per millisecond, narrowed to
   * an `int`; below WrapMs milliseconds either way it is exact.
   */
  lemma AdvanceFromStamps(ts: seq<Stamp>, window: int, newStable: nat, resultLen: nat)
    requires |ts| > 0
    ensures Advance(ts, window, newStable, resultLen) == Int32(16 * LeadMs(ts, newStable))
    ensures -WrapMs <= LeadMs(ts, newStable) < WrapMs
      ==> Advance(ts, window, newStable, resultLen) == 16 * LeadMs(ts, newStable)
  {
    var ms := LeadMs(ts, newStable);
    assert ms * SampleRate == (16 * ms) * 1000;
  }

  /** Without timestamps the advance is the committed share of the window. */
  lemma AdvanceProportional(window: int, newStable: nat, resultLen: nat)
    requires newStable <= resultLen
    ensures 0 <= Advance([], window, newStable, resultLen)
    ensures Advance([], window, newStable, resultLen) <= (if window > 0 then window else 0)
    ensures resultLen > 0 && window > 0 && newStable == resultLen
      ==> Advance([], window, newStable, resultLen) == window
  {
    if resultLen > 0 && window > 0 {
      MulMonotone(window, newStable, resultLen);
      DivBound(window * newStable, resultLen, window);
      if newStable == resultLen {
        DivExact(window, resultLen);
      }
    }
  }

  lemma MulMonotone(k: int, m: int, n: int)
    requires k >= 0 && 0 <= m <= n
    ensures 0 <= k * m <= k * n
  {
  }

  lemma DivBound(x: int, d: int, w: int)
    requires d > 0 && 0 <= x <= w * d
    ensures 0 <= x / d <= w
  {
  }

  lemma DivExact(w: int, d: int)
    requires d > 0
    ensures w * d / d == w
  {
    var q := w * d / d;
    var r := w * d % d;
    assert (w - q) * d == r;
    if q < w {
      MulMonotone(d, 1, w - q);
    } else if q > w {
      MulMonotone(d, 1, q - w);
    }
  }

  /** The window settles on no token position outside the range every stamp lies in. */
  lemma LeadMsWithin(ts: seq<Stamp>, cut: int, lo: int, hi: int)
    requires lo <= 0 <= hi
    requires forall k :: 0 <= k < |ts| ==> lo <= ts[k].audioMs <= hi
    ensures lo <= LeadMs(ts, cut) <= hi
  {
    LeadMsIsLastOfRun(ts, cut);
  }

  /** The advance is never negative when the backend's audio positions lie in [0, WrapMs). */
  lemma AdvanceNonNeg(ts: seq<Stamp>, window: int, newStable: nat, resultLen: nat)
    requires newStable <= resultLen
    requires forall k :: 0 <= k < |ts| ==> 0 <= ts[k].audioMs < WrapMs
    ensures Advance(ts, window, newStable, resultLen) >= 0
  {
    if |ts| > 0 {
      LeadMsWithin(ts, newStable, 0, WrapMs - 1);
      AdvanceFromStamps(ts, window, newStable, resultLen);
    } else {
      AdvanceProportional(window, newStable, resultLen);
    }
  }

  /**
   * While the committed offset, the window and every audio position keep
   * the sum inside an `int`, the clamped window start moves forward and
   * never past the limit.
   */
  lemma ClampedAdvanceMonotone(ts: seq<Stamp>, window: int, ns: nat, len: nat, committed: int, limit: int)
    requires ns <= len && 0 <= committed <= limit < 0x8000_0000 && committed + window < 0x8000_0000
    requires forall k :: 0 <= k < |ts| ==> 0 <= ts[k].audioMs && committed + 16 * ts[k].audioMs < 0x8000_0000
    ensures committed <= Clamp(committed, Advance(ts, window, ns, len), limit) <= limit
  {
    var adv := Advance(ts, window, ns, len);
    if |ts| > 0 {
      LeadMsIsLastOfRun(ts, ns);
      var ms := LeadMs(ts, ns);
      assert 0 <= ms && committed + 16 * ms < 0x8000_0000;
      AdvanceFromStamps(ts, window, ns, len);
      assert adv == 16 * ms;
    } else {
      AdvanceProportional(window, ns, len);
    }
    assert InInt(committed + adv);
  }

  // ---------------------------------------------------------------------
  // The narrowing cast wraps (the code as written and as intended)
  // ---------------------------------------------------------------------

  /**
   * A token at WrapMs milliseconds turns the advance into the most negative
   * `int`, and the window start jumps back by 2^31 samples, to a negative
   * offset into the recording.
   */
  lemma AdvanceWraps(window: int, newStable: nat, resultLen: nat, committed: int, limit: int)
    requires newStable >= 1 && 0 <= committed <= limit < 0x8000_0000
    ensures Advance([Stamp(0, WrapMs)], window, newStable, resultLen) == -0x8000_0000
    ensures Clamp(committed, Advance([Stamp(0, WrapMs)], window, newStable, resultLen), limit)
      == committed - 0x8000_0000 < 0
  {
    var ts := [Stamp(0, WrapMs)];
    assert RunEnd(ts, newStable, 1) == 1;
    assert LeadFrom(ts, newStable, 1, WrapMs) == WrapMs;
    assert LeadMs(ts, newStable) == WrapMs;
    AdvanceFromStamps(ts, window, newStable, resultLen);
  }

  /** The advance with the product kept in 64 bits, as the rest of the engine needs it. */
  function WideAdvance(ts: seq<Stamp>, window: int, newStable: nat, resultLen: nat): int
  {
    if |ts| > 0 then LeadMs(ts, newStable) * SampleRate / 1000
    else if resultLen > 0 && window > 0 then window * newStable / resultLen
    else 0
  }

  /** The window start moved by the wide advance and clamped to the limit. */
  function WideClamp(committed: int, advance: int, limit: int): int
  {
    if committed + advance > limit then limit else committed + advance
  }

  /**
   * With the wide advance the window start never moves back while the
   * backend's audio positions are non-negative, however large they are.
   */
  lemma WideWindowMonotone(ts: seq<Stamp>, window: int, ns: nat, len: nat, committed: int, limit: int)
    requires ns <= len && committed <= limit
    requires forall k :: 0 <= k < |ts| ==> 0 <= ts[k].audioMs
    ensures committed <= WideClamp(committed, WideAdvance(ts, window, ns, len), limit) <= limit
  {
    if |ts| > 0 {
      LeadMsIsLastOfRun(ts, ns);
      var ms := LeadMs(ts, ns);
      assert 0 <= ms;
      assert ms * SampleRate / 1000 == 16 * ms;
    } else {
      AdvanceProportional(window, ns, len);
    }
  }

  /** Wherever the sum fits an `int`, the engine's arithmetic is the wide one. */
  lemma ClampIsWide(ts: seq<Stamp>, window: int, ns: nat, len: nat, committed: int, limit: int)
    requires ns <= len && 0 <= committed <= limit < 0x8000_0000 && committed + window < 0x8000_0000
    requires forall k :: 0 <= k < |ts| ==> 0 <= ts[k].audioMs && committed + 16 * ts[k].audioMs < 0x8000_0000
    ensures Advance(ts, window, ns, len) == WideAdvance(ts, window, ns, len)
    ensures Clamp(committed, Advance(ts, window, ns, len), limit)
      == WideClamp(committed, WideAdvance(ts, window, ns, len), limit)
  {
    if |ts| > 0 {
      LeadMsIsLastOfRun(ts, ns);
      var ms := LeadMs(ts, ns);
      assert 0 <= ms && committed + 16 * ms < 0x8000_0000;
      AdvanceFromStamps(ts, window, ns, len);
      assert ms * SampleRate / 1000 == 16 * ms;
    } else {
      AdvanceProportional(window, ns, len);
    }
  }
}
