/**
 * Properties of the GUI engine's state machine: the scheduler never has two
 * passes in flight and never sends a window shorter than one second, the
 * committed transcript only grows, the audio window never passes the end
 * of the audio last sent, and every event keeps the engine's bounds.
 */
module EngineProps {
  import opened AsrTypes
  import opened Stabilizer
  import opened Engine
  import WindowAdvance

  // ---------------------------------------------------------------------
  // Scheduler
  // ---------------------------------------------------------------------

  /** While a pass is in flight a kick starts nothing; a final request is remembered. */
  lemma KickWhileBusyDefers(s: EngineState, isFinal: bool)
    requires s.transcribing
    ensures KickStep(s, isFinal).1 == Idle
    ensures KickStep(s, isFinal).0 == s.(wantFinal := s.wantFinal || isFinal)
    ensures isFinal ==> KickStep(s, isFinal).0.wantFinal
  {
  }

  /**
   * A pass is sent only from the idle state, for exactly the audio from the
   * committed offset to the end of the recording, and only when that is at
   * least one second; the engine is then busy with that window, and only
   * the window and the end of the last pass change in the tracker.
   */
  lemma KickSendsWholeLongWindow(s: EngineState, isFinal: bool)
    ensures var (s', act) := KickStep(s, isFinal);
      act.Send? ==>
        && !s.transcribing && s'.transcribing
        && act.samples >= MinSamples
        && act.start == s.tracker.committedSamples
        && act.start + act.samples == s.recorded
        && act.isFinal == isFinal && act.prompt == s.prompt
        && s'.tracker == s.tracker.(windowSamples := act.samples, lastTranscribe := s.recorded)
        && s'.finalized == s.finalized && s'.prompt == s.prompt
        && s'.recorded == s.recorded && s'.committedChars == s.committedChars
        && !s'.wantFinal
  {
  }

  /** From the idle state, a window of at least one second is always sent. */
  lemma KickFromIdleSends(s: EngineState, isFinal: bool)
    requires !s.transcribing && s.recorded - s.tracker.committedSamples >= MinSamples
    ensures KickStep(s, isFinal).1.Send?
  {
  }

  /**
   * A window shorter than one second is never sent: an interim request
   * does nothing, and a final request promotes the retained interim text
   * when there is one.
   */
  lemma KickShortWindow(s: EngineState, isFinal: bool)
    requires !s.transcribing && s.recorded - s.tracker.committedSamples < MinSamples
    ensures !KickStep(s, isFinal).1.Send?
    ensures KickStep(s, isFinal).0 == s.(wantFinal := false)
    ensures KickStep(s, isFinal).1.Promote? <==> isFinal && |s.tracker.prev| > 0
    ensures KickStep(s, isFinal).1.Promote? ==> KickStep(s, isFinal).1.text == s.tracker.prev
  {
  }

  /** The timer kicks an interim pass only after 3 s of new audio and 1 s in total. */
  lemma TickNeedsNewAudio(s: EngineState)
    ensures TickStep(s).1 != Idle ==>
      s.recorded - s.tracker.lastTranscribe >= IntervalSamples && s.recorded >= MinSamples
    ensures TickStep(s).1.Send? ==> !TickStep(s).1.isFinal
    ensures !TickStep(s).1.Promote?
  {
  }

  /** Stopping kicks a final pass if at least one second was recorded. */
  lemma StopKicksFinal(s: EngineState)
    ensures StopStep(s).1.Send? ==> StopStep(s).1.isFinal && s.recorded >= MinSamples
    ensures s.recorded < MinSamples ==> StopStep(s) == (s, Idle)
  {
  }

  // ---------------------------------------------------------------------
  // Pass completion
  // ---------------------------------------------------------------------

  /** A completion always ends the pass in flight, and only a deferred final request re-kicks. */
  lemma DoneEndsPass(s: EngineState, p: Pass)
    requires |p.text| < PrevCap && |s.finalized| < FinalizedCap
    ensures var (s', act) := DoneStep(s, p);
      && (act != Idle ==> !p.isFinal && s.wantFinal)
      && (act.Send? ==> act.isFinal && s'.transcribing)
      && (!act.Send? ==> !s'.transcribing)
      && (!p.isFinal && s.wantFinal ==> !s'.wantFinal)
  {
    var s1 := s.(transcribing := false);
    if p.isFinal && |p.text| > 0 {
      assert FinalStep(s1, p.text).wantFinal == s.wantFinal;
    } else if !p.isFinal && |p.text| > 0 {
      assert InterimStep(s1, p).wantFinal == s.wantFinal && !InterimStep(s1, p).transcribing;
    }
  }

  /** An empty result changes nothing but the in-flight flag (and a deferred final kick). */
  lemma EmptyPassKeepsState(s: EngineState, p: Pass)
    requires |p.text| == 0 && |s.finalized| < FinalizedCap
    ensures !s.wantFinal || p.isFinal ==> DoneStep(s, p) == (s.(transcribing := false), Idle)
  {
  }

  /**
   * A final pass commits the whole text past the stable length less its
   * trailing spaces, without any alignment; the retained tail and the audio
   * window are left as they were.
   */
  lemma FinalPassCommitsRest(s: EngineState, p: Pass)
    requires |p.text| < PrevCap && |s.finalized| < FinalizedCap
    requires p.isFinal && |p.text| > s.tracker.stable
    ensures DoneStep(s, p).1 == Idle
    ensures DoneStep(s, p).0.tracker == s.tracker && DoneStep(s, p).0.prompt == s.prompt
    ensures |TrimRight(p.text[s.tracker.stable..])| == 0 ==> DoneStep(s, p).0.finalized == s.finalized
    ensures 0 < |TrimRight(p.text[s.tracker.stable..])| < SentenceCap ==>
      DoneStep(s, p).0.finalized == AppendCommitted(s.finalized, TrimRight(p.text[s.tracker.stable..]))
  {
    var s1 := s.(transcribing := false);
    assert DoneStep(s, p) == (FinalStep(s1, p.text), Idle);
    FinalStepCommits(s1, p.text);
  }

  /** The committing half of a final pass, on the engine state alone. */
  lemma FinalStepCommits(s: EngineState, a: string)
    requires |s.finalized| < FinalizedCap && |a| > s.tracker.stable
    ensures FinalStep(s, a).tracker == s.tracker && FinalStep(s, a).prompt == s.prompt
    ensures |TrimRight(a[s.tracker.stable..])| == 0 ==> FinalStep(s, a).finalized == s.finalized
    ensures 0 < |TrimRight(a[s.tracker.stable..])| < SentenceCap ==>
      FinalStep(s, a).finalized == AppendCommitted(s.finalized, TrimRight(a[s.tracker.stable..]))
  {
    var stable := s.tracker.stable;
    var rest := TrimRight(a[stable..]);
    if 0 < |rest| < SentenceCap {
      assert CommitLen(|rest|) == |rest|;
      assert a[stable .. stable + |rest|] == rest;
      assert FinalStep(s, a).finalized == AppendCommitted(s.finalized, a[stable .. stable + |rest|]);
    }
  }

  /**
   * An interim pass appends exactly the fragment the stabiliser committed,
   * and that fragment (up to 4095 bytes) becomes the prompt.
   */
  lemma InterimPassCommitsFragment(s: EngineState, p: Pass)
    requires |p.text| < PrevCap && |s.finalized| < FinalizedCap
    requires !p.isFinal && |p.text| > 0
    ensures var (s', act) := DoneStep(s, p); var o := Reconcile(s.tracker, p);
      && s'.tracker == (if act.Send? then o.tracker.(windowSamples := act.samples, lastTranscribe := s.recorded)
                        else o.tracker)
      && s'.finalized == AppendCommitted(s.finalized, o.fragment)
      && (|o.fragment| > 0 ==> s'.prompt == PromptOf(o.fragment))
      && (|o.fragment| == 0 ==> s'.prompt == s.prompt)
  {
  }

  // ---------------------------------------------------------------------
  // The committed transcript
  // ---------------------------------------------------------------------

  /** The transcript is append-only: every completion extends it. */
  lemma DoneAppendOnly(s: EngineState, p: Pass)
    requires |p.text| < PrevCap && |s.finalized| < FinalizedCap
    ensures s.finalized <= DoneStep(s, p).0.finalized
    ensures |DoneStep(s, p).0.finalized| < FinalizedCap
  {
  }

  /** No other event touches the transcript, except a new recording that clears it. */
  lemma OtherEventsKeepTranscript(s: EngineState, isFinal: bool, count: int)
    ensures KickStep(s, isFinal).0.finalized == s.finalized
    ensures TickStep(s).0.finalized == s.finalized
    ensures StopStep(s).0.finalized == s.finalized
    ensures AddSamplesStep(s, count).finalized == s.finalized
    ensures ClearRingStep(s).finalized == s.finalized
  {
  }

  // ---------------------------------------------------------------------
  // The audio window and the engine's bounds
  // ---------------------------------------------------------------------

  /** The recording ledger: samples are appended until 120 s are recorded. */
  lemma AddSamplesLedger(s: EngineState, count: int)
    requires Inv(s) && count >= 0
    ensures AddSamplesStep(s, count).recorded == Min(s.recorded + count, MaxAudioSamples)
    ensures AddSamplesStep(s, count).recorded >= s.recorded
  {
  }

  /**
   * The audio positions (ms) below which the window start, at most 120 s
   * into the recording, advanced by 16 samples per ms still fits a C `int`
   * (about 37 hours).
   */
  const MaxStampMs: int := (0x8000_0000 - MaxAudioSamples) / 16

  /** Offsets into a recording of at most 120 s and stamps below MaxStampMs keep the window start inside an `int`. */
  lemma StampsFit(t: Tracker, p: Pass)
    requires 0 <= t.committedSamples <= t.lastTranscribe <= MaxAudioSamples
    requires t.windowSamples <= MaxAudioSamples
    requires forall k :: 0 <= k < |p.stamps| ==> 0 <= p.stamps[k].audioMs < MaxStampMs
    ensures FitsInt(t, p)
  {
  }

  /**
   * While the backend's audio positions are non-negative and below
   * MaxStampMs, and the window start and the window are offsets into the
   * recording, the window start never moves back.
   */
  lemma DoneWindowMonotone(s: EngineState, p: Pass)
    requires Inv(s) && |p.text| < PrevCap
    requires 0 <= s.tracker.committedSamples && s.tracker.windowSamples <= MaxAudioSamples
    requires forall k :: 0 <= k < |p.stamps| ==> 0 <= p.stamps[k].audioMs < MaxStampMs
    ensures DoneStep(s, p).0.tracker.committedSamples >= s.tracker.committedSamples
  {
    var s1 := s.(transcribing := false);
    if !p.isFinal && |p.text| > 0 {
      var ns := CutOf(s1.tracker, p.text);
      if ns > s1.tracker.stable {
        ReconcileCommits(s1.tracker, p);
        StampsFit(s1.tracker, p);
        CommittedMovesWindow(s1.tracker, p, ns);
      }
    }
  }

  /**
   * A new recording keeps every bound, whatever completions it drains
   * along the way.
   */
  lemma StartInv(s: EngineState, drained: seq<Pass>)
    requires Inv(s)
    requires forall k :: 0 <= k < |drained| ==> |drained[k].text| < PrevCap
    ensures Inv(StartStep(s, drained))
  {
    DrainInv(Reset(s), drained);
  }

  /**
   * Draining keeps every bound and, since no drained completion kicks a
   * pass, the end of the window last sent.
   */
  lemma {:induction false} DrainInv(s: EngineState, ps: seq<Pass>)
    requires Inv(s) && !s.wantFinal
    requires forall k :: 0 <= k < |ps| ==> |ps[k].text| < PrevCap
    ensures Inv(Drain(s, ps))
    ensures Drain(s, ps).tracker.lastTranscribe == s.tracker.lastTranscribe
    decreases |ps|
  {
    if |ps| > 0 {
      DoneInv(s, ps[0]);
      DoneQuiet(s, ps[0]);
      DoneKeepsWindowEnd(s, ps[0]);
      DrainInv(DoneStep(s, ps[0]).0, ps[1..]);
    }
  }

  /** A completion that kicks nothing leaves the end of the window last sent alone. */
  lemma DoneKeepsWindowEnd(s: EngineState, p: Pass)
    requires |p.text| < PrevCap && |s.finalized| < FinalizedCap && !s.wantFinal
    ensures DoneStep(s, p).0.tracker.lastTranscribe == s.tracker.lastTranscribe
  {
    var s1 := s.(transcribing := false);
    if !p.isFinal && |p.text| > 0 {
      var ns := CutOf(s1.tracker, p.text);
      if ns > s1.tracker.stable {
        ReconcileCommits(s1.tracker, p);
        CommittedEffect(s1.tracker, p, ns);
      } else {
        DivergenceGuard(s1.tracker, p);
      }
    }
  }

  /**
   * The final result of the previous recording, when its completion is
   * still queued, is the first text of the new transcript.
   */
  lemma StartKeepsDrainedFinal(s: EngineState, p: Pass)
    requires p.isFinal && 0 < |TrimRight(p.text)| && |p.text| < SentenceCap
    ensures StartStep(s, [p]).finalized == TrimRight(p.text)
  {
    var r := Reset(s);
    assert p.text[r.tracker.stable..] == p.text;
    FinalPassCommitsRest(r, p);
    assert Drain(r, [p]) == Drain(DoneStep(r, p).0, []);
  }

  lemma KickInv(s: EngineState, isFinal: bool)
    requires Inv(s)
    ensures Inv(KickStep(s, isFinal).0)
  {
  }

  lemma TickStopInv(s: EngineState)
    requires Inv(s)
    ensures Inv(TickStep(s).0) && Inv(StopStep(s).0)
  {
    KickInv(s, false);
    KickInv(s, true);
  }

  lemma AddSamplesInv(s: EngineState, count: int)
    requires Inv(s)
    ensures Inv(AddSamplesStep(s, count)) && Inv(ClearRingStep(s))
  {
  }

  /**
   * A completion keeps every bound: the transcript, the prompt and the
   * retained tail fit their buffers, and the window start stays at or
   * before the end of the audio last sent.
   */
  lemma DoneInv(s: EngineState, p: Pass)
    requires Inv(s) && |p.text| < PrevCap
    ensures Inv(DoneStep(s, p).0)
  {
    var s1 := s.(transcribing := false);
    var s2 :=
      if p.isFinal && |p.text| > 0 then FinalStep(s1, p.text)
      else if !p.isFinal && |p.text| > 0 then InterimStep(s1, p)
      else s1;
    if !p.isFinal && |p.text| > 0 {
      var ns := CutOf(s1.tracker, p.text);
      if ns > s1.tracker.stable {
        ReconcileCommits(s1.tracker, p);
        CommittedMovesWindow(s1.tracker, p, ns);
        CommittedEffect(s1.tracker, p, ns);
      }
    }
    assert Inv(s2);
    if !p.isFinal && s2.wantFinal {
      KickInv(s2, true);
    }
  }
}
