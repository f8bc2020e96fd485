/**
 * The stabilisation engine of the voice GUI client as a state machine over
 * the values of its globals, and the `Session` object that holds those
 * globals and updates them in place.
 *
 * Events, all handled one at a time on the UI thread:
 *   - `Start`: a recording starts and every engine global is reset;
 *   - `AddSamples`: the capture path appends samples to the recording;
 *   - `Tick`: the periodic timer kicks an interim pass when 3 s of new audio
 *     have arrived;
 *   - `Stop`: recording stops and a final pass is kicked;
 *   - `Done`: a pass completes (a worker result or a promoted interim).
 * A kick either sends a window of audio to the backend, promotes the last
 * interim text as the final result, or does nothing.
 */
module Engine {
  import opened AsrTypes
  import opened Stabilizer

  /** RETRANSCRIBE_MIN_SAMPLES: one second of audio. */
  const MinSamples: int := 16000
  /** RETRANSCRIBE_INTERVAL_SAMPLES: three seconds of audio. */
  const IntervalSamples: int := 48000
  /** MAX_AUDIO_SAMPLES: 120 seconds of audio. */
  const MaxAudioSamples: int := 1920000
  /** sizeof(g_finalized_text). */
  const FinalizedCap: nat := 8192
  /** sizeof(g_asr_prompt). */
  const PromptCap: nat := 4096

  /** What a kick does. */
  datatype Action =
    | Idle
      /** A pass over samples [start, start + samples) is handed to the worker. */
    | Send(start: int, samples: int, isFinal: bool, prompt: string)
      /** The retained interim text is posted back as a final result. */
    | Promote(text: string)

  datatype EngineState = EngineState(
    tracker: Tracker,        // the state a pass reconciles against
    recorded: int,           // g_recording_samples
    ringSamples: int,        // g_audio_samples: fill of the VAD ring buffer
    transcribing: bool,      // g_transcribing: a pass is in flight
    wantFinal: bool,         // g_want_final: a final pass was asked for meanwhile
    prompt: string,          // g_asr_prompt: bias text for the next pass
    finalized: string,       // g_finalized_text: the committed transcript
    committedChars: int)     // g_committed_chars

  /** The bounds the engine's buffers and counters keep. */
  predicate Inv(s: EngineState)
  {
    && |s.finalized| < FinalizedCap
    && |s.prompt| < PromptCap
    && |s.tracker.prev| < PrevCap
    && s.tracker.committedSamples <= s.tracker.lastTranscribe <= s.recorded
    && 0 <= s.ringSamples <= s.recorded <= MaxAudioSamples
  }

  function Min(x: int, y: int): int { if x <= y then x else y }

  /** The tracker of a fresh recording. */
  const NoTracker: Tracker := Tracker("", 0, 0, 0, 0, false)

  /**
   * start_recording.  The ring, the transcript and the tracker are reset;
   * then the completions still queued (`drained`, in queue order) are
   * dispatched to the completion handler; only then are the prompt, the
   * committed character count and the recording ledger cleared.  A pass
   * whose completion is not queued stays in flight.
   */
  function StartStep(s: EngineState, drained: seq<Pass>): (s': EngineState)
    requires forall k :: 0 <= k < |drained| ==> |drained[k].text| < PrevCap
    ensures s'.prompt == "" && s'.recorded == 0 && s'.ringSamples == 0 && s'.committedChars == 0
    ensures !s'.wantFinal && s'.transcribing == (s.transcribing && |drained| == 0)
    ensures |drained| == 0 ==> s'.finalized == "" && s'.tracker == NoTracker
  {
    Drain(Reset(s), drained).(prompt := "", committedChars := 0, recorded := 0)
  }

  /** The resets start_recording makes before it drains the queue. */
  function Reset(s: EngineState): EngineState
  {
    s.(tracker := NoTracker, ringSamples := 0, wantFinal := false, finalized := "")
  }

  /**
   * The queued completions dispatched in order.  With no final kick asked
   * for, none of them kicks a pass, and one dispatched completion is enough
   * to leave the engine idle.
   */
  function Drain(s: EngineState, ps: seq<Pass>): (s': EngineState)
    requires |s.finalized| < FinalizedCap && !s.wantFinal
    requires forall k :: 0 <= k < |ps| ==> |ps[k].text| < PrevCap
    ensures |s'.finalized| < FinalizedCap && !s'.wantFinal
    ensures s'.transcribing == (s.transcribing && |ps| == 0)
    ensures s'.ringSamples == s.ringSamples && s'.recorded == s.recorded
    ensures |ps| == 0 ==> s' == s
    decreases |ps|
  {
    if |ps| == 0 then s
    else
      DoneQuiet(s, ps[0]);
      Drain(DoneStep(s, ps[0]).0, ps[1..])
  }

  /** Draining dispatches the first queued completion, then the rest. */
  lemma DrainFirst(s: EngineState, ps: seq<Pass>)
    requires |s.finalized| < FinalizedCap && !s.wantFinal
    requires forall k :: 0 <= k < |ps| ==> |ps[k].text| < PrevCap
    requires |ps| > 0
    ensures |DoneStep(s, ps[0]).0.finalized| < FinalizedCap && !DoneStep(s, ps[0]).0.wantFinal
    ensures Drain(s, ps) == Drain(DoneStep(s, ps[0]).0, ps[1..])
  {
    DoneQuiet(s, ps[0]);
  }

  /**
   * A completion keeps the transcript inside its buffer and, when no final
   * kick was asked for, kicks nothing and leaves the engine idle.
   */
  lemma DoneQuiet(s: EngineState, p: Pass)
    requires |p.text| < PrevCap && |s.finalized| < FinalizedCap && !s.wantFinal
    ensures var (s', act) := DoneStep(s, p);
      |s'.finalized| < FinalizedCap && !s'.wantFinal && !s'.transcribing && act == Idle
      && s'.ringSamples == s.ringSamples && s'.recorded == s.recorded
  {
  }

  /** add_audio_samples: the samples the loop copies before the ring buffer is full. */
  function AddSamplesStep(s: EngineState, count: int): EngineState
  {
    var k := if count <= 0 || s.ringSamples >= MaxAudioSamples then 0
             else Min(count, MaxAudioSamples - s.ringSamples);
    s.(ringSamples := s.ringSamples + k,
       recorded := if s.recorded >= MaxAudioSamples then s.recorded else Min(s.recorded + k, MaxAudioSamples))
  }

  /** clear_audio_buffer, as the VAD path calls it: only the ring empties. */
  function ClearRingStep(s: EngineState): EngineState
  {
    s.(ringSamples := 0)
  }

  /** asr_kick_retranscribe. */
  function KickStep(s: EngineState, isFinal: bool): (EngineState, Action)
  {
    if s.transcribing then
      (s.(wantFinal := s.wantFinal || isFinal), Idle)
    else
      var s1 := s.(wantFinal := false);
      var start := s.tracker.committedSamples;
      var n := s.recorded - start;
      if n < MinSamples then
        if isFinal && |s.tracker.prev| > 0 then (s1, Promote(s.tracker.prev)) else (s1, Idle)
      else
        (s1.(tracker := s.tracker.(windowSamples := n, lastTranscribe := s.recorded),
             transcribing := true),
         Send(start, n, isFinal, s.prompt))
  }

  /** The periodic timer while recording. */
  function TickStep(s: EngineState): (EngineState, Action)
  {
    if s.recorded - s.tracker.lastTranscribe >= IntervalSamples && s.recorded >= MinSamples
    then KickStep(s, false)
    else (s, Idle)
  }

  /** stop_recording: the final pass over all remaining audio. */
  function StopStep(s: EngineState): (EngineState, Action)
  {
    if s.recorded >= MinSamples then KickStep(s, true) else (s, Idle)
  }

  /**
   * handle_transcribe_result: append a committed fragment to the transcript,
   * after one separating space unless the transcript is empty or already
   * ends in one, keeping at most FinalizedCap - 1 bytes.
   */
  function AppendCommitted(fin: string, text: string): (r: string)
    requires |fin| < FinalizedCap
    ensures |r| < FinalizedCap
    ensures fin <= r
    ensures |text| == 0 ==> r == fin
    ensures var sep := if |fin| > 0 && fin[|fin| - 1] != ' ' then " " else "";
      |text| > 0 && |fin| + |sep| + |text| < FinalizedCap ==> r == fin + sep + text
  {
    if |text| == 0 then fin
    else
      var f1 := if |fin| > 0 && fin[|fin| - 1] != ' ' && |fin| < FinalizedCap - 1 then fin + " " else fin;
      var room := FinalizedCap - 1 - |f1|;
      f1 + text[..Min(|text|, room)]
  }

  /** strncpy(g_asr_prompt, sentence, sizeof(g_asr_prompt) - 1). */
  function PromptOf(fragment: string): (r: string)
    ensures |r| < PromptCap && r <= fragment
    ensures |fragment| < PromptCap ==> r == fragment
  {
    fragment[..Min(|fragment|, PromptCap - 1)]
  }

  /** The final pass: commit everything past the stable length, minus trailing spaces. */
  function FinalStep(s: EngineState, a: string): EngineState
    requires |s.finalized| < FinalizedCap
  {
    var stable := s.tracker.stable;
    if |a| > stable then
      var tlen := |TrimRight(a[stable..])|;
      if tlen > 0 then
        var n := CommitLen(tlen);
        s.(finalized := AppendCommitted(s.finalized, a[stable .. stable + n]),
           committedChars := s.committedChars + n)
      else s
    else s
  }

  /** An interim pass: reconcile, then commit the fragment and bias the next pass with it. */
  function InterimStep(s: EngineState, p: Pass): EngineState
    requires |p.text| < PrevCap && |s.finalized| < FinalizedCap
  {
    Absorb(s, Reconcile(s.tracker, p))
  }

  /** Take over a pass's outcome: new tracker, and the fragment committed and used as the prompt. */
  function Absorb(s: EngineState, o: Outcome): EngineState
    requires |s.finalized| < FinalizedCap
  {
    if |o.fragment| > 0 then
      s.(tracker := o.tracker,
         finalized := AppendCommitted(s.finalized, o.fragment),
         prompt := PromptOf(o.fragment),
         committedChars := s.committedChars + |o.fragment|)
    else
      s.(tracker := o.tracker)
  }

  /** A final pass with text past the stable length commits that text, trimmed and cut to a sentence. */
  lemma FinalStepAppends(s: EngineState, a: string, text: string)
    requires |s.finalized| < FinalizedCap && |a| > s.tracker.stable
    requires 0 < |TrimRight(a[s.tracker.stable..])|
    requires text == a[s.tracker.stable .. s.tracker.stable + CommitLen(|TrimRight(a[s.tracker.stable..])|)]
    ensures FinalStep(s, a) == s.(finalized := AppendCommitted(s.finalized, text), committedChars := s.committedChars + |text|)
  {
  }

  /** The WM_TRANSCRIBE_DONE handler, with the deferred final kick at its end. */
  function DoneStep(s: EngineState, p: Pass): (EngineState, Action)
    requires |p.text| < PrevCap && |s.finalized| < FinalizedCap
  {
    var s1 := s.(transcribing := false);
    var s2 :=
      if p.isFinal && |p.text| > 0 then FinalStep(s1, p.text)
      else if !p.isFinal && |p.text| > 0 then InterimStep(s1, p)
      else s1;
    if !p.isFinal && s2.wantFinal then KickStep(s2, true) else (s2, Idle)
  }

  /** The engine's globals. */
  class Session {
    var prev: string
    var stable: nat
    var committedSamples: int
    var windowSamples: int
    var lastTranscribe: int
    var unconfirmed: bool
    var recorded: int
    var ringSamples: int
    var transcribing: bool
    var wantFinal: bool
    var prompt: string
    var finalized: string
    var committedChars: int

    function State(): EngineState
      reads this
    {
      EngineState(Tracker(prev, stable, committedSamples, windowSamples, lastTranscribe, unconfirmed),
                  recorded, ringSamples, transcribing, wantFinal, prompt, finalized, committedChars)
    }

    /** The globals' initial values. */
    constructor ()
      ensures State() == StartStep(State(), []) && !transcribing
    {
      prev, stable, committedSamples, windowSamples, lastTranscribe, unconfirmed := "", 0, 0, 0, 0, false;
      recorded, ringSamples, transcribing, wantFinal := 0, 0, false, false;
      prompt, finalized, committedChars := "", "", 0;
    }

    /** start_recording, dispatching the completions `drained` that are still queued. */
    method Start(drained: seq<Pass>)
      requires forall k :: 0 <= k < |drained| ==> |drained[k].text| < PrevCap
      modifies this
      ensures State() == StartStep(old(State()), drained)
    {
      ResetForStart();
      DrainQueue(drained);
      prompt, committedChars, recorded := "", 0, 0;
    }

    /** The resets start_recording makes before it drains the queue. */
    method ResetForStart()
      modifies this
      ensures State() == Reset(old(State()))
    {
      ringSamples, finalized := 0, "";
      SetTracker(NoTracker);
      wantFinal := false;
    }

    /** The drain loop of start_recording: each queued completion is dispatched in turn. */
    method DrainQueue(drained: seq<Pass>)
      requires |finalized| < FinalizedCap && !wantFinal
      requires forall k :: 0 <= k < |drained| ==> |drained[k].text| < PrevCap
      modifies this
      ensures State() == Drain(old(State()), drained)
    {
      assert drained[0..] == drained;
      var i := 0;
      while i < |drained|
        invariant 0 <= i <= |drained|
        invariant |finalized| < FinalizedCap && !wantFinal
        invariant Drain(State(), drained[i..]) == Drain(old(State()), drained)
      {
        DrainFirst(State(), drained[i..]);
        assert drained[i..][1..] == drained[i + 1..];
        var _ := Done(drained[i]);
        i := i + 1;
      }
    }

    method AddSamples(count: int)
      modifies this
      ensures State() == AddSamplesStep(old(State()), count)
    {
      var i := 0;
      while i < count && ringSamples < MaxAudioSamples
        invariant 0 <= i && (count > 0 ==> i <= count) && (count <= 0 ==> i == 0)
        invariant ringSamples == old(ringSamples) + i
        invariant old(ringSamples) < MaxAudioSamples ==> ringSamples <= MaxAudioSamples
        invariant i > 0 ==> old(ringSamples) < MaxAudioSamples
        invariant recorded == if old(recorded) >= MaxAudioSamples then old(recorded)
                              else Min(old(recorded) + i, MaxAudioSamples)
        invariant State() == old(State()).(ringSamples := ringSamples, recorded := recorded)
      {
        if ringSamples < MaxAudioSamples {
          ringSamples := ringSamples + 1;
        }
        if recorded < MaxAudioSamples {
          recorded := recorded + 1;
        }
        i := i + 1;
      }
      assert i == if count <= 0 || old(ringSamples) >= MaxAudioSamples then 0
                  else Min(count, MaxAudioSamples - old(ringSamples));
    }

    method ClearRing()
      modifies this
      ensures State() == ClearRingStep(old(State()))
    {
      ringSamples := 0;
    }

    method Kick(isFinal: bool) returns (act: Action)
      modifies this
      ensures (State(), act) == KickStep(old(State()), isFinal)
    {
      if transcribing {
        if isFinal {
          wantFinal := true;
        }
        return Idle;
      }
      wantFinal := false;
      var total := recorded;
      var start := committedSamples;
      var n := total - start;
      if n < MinSamples {
        if !isFinal {
          return Idle;
        }
        if |prev| > 0 {
          return Promote(prev);
        }
        return Idle;
      }
      windowSamples := n;
      lastTranscribe := total;
      transcribing := true;
      act := Send(start, n, isFinal, prompt);
    }

    method Tick() returns (act: Action)
      modifies this
      ensures (State(), act) == TickStep(old(State()))
    {
      act := Idle;
      if recorded - lastTranscribe >= IntervalSamples && recorded >= MinSamples {
        act := Kick(false);
      }
    }

    method Stop() returns (act: Action)
      modifies this
      ensures (State(), act) == StopStep(old(State()))
    {
      act := Idle;
      if recorded >= MinSamples {
        act := Kick(true);
      }
    }

    method HandleResult(text: string)
      requires |finalized| < FinalizedCap
      modifies this
      ensures State() == old(State()).(finalized := AppendCommitted(old(finalized), text))
    {
      if |text| > 0 {
        if |finalized| > 0 && finalized[|finalized| - 1] != ' ' {
          if |finalized| < FinalizedCap - 1 {
            finalized := finalized + " ";
          }
        }
        var spaceLeft := FinalizedCap - |finalized| - 1;
        var n := if |text| > spaceLeft then spaceLeft else |text|;
        finalized := finalized + text[..n];
      }
    }

    /** The final branch of the completion handler. */
    method FinalPass(a: string)
      requires |finalized| < FinalizedCap
      modifies this
      ensures State() == FinalStep(old(State()), a)
    {
      ghost var s0 := State();
      if |a| > stable {
        var tlen := TrimmedLength(a[stable..]);
        if tlen > 0 {
          if tlen >= SentenceCap {
            tlen := SentenceCap - 1;
          }
          var text := a[stable .. stable + tlen];
          FinalStepAppends(s0, a, text);
          HandleResult(text);
          ghost var s1 := State();
          committedChars := committedChars + tlen;
          assert State() == s1.(committedChars := s0.committedChars + tlen);
          assert State() == s0.(finalized := AppendCommitted(s0.finalized, text), committedChars := s0.committedChars + |text|);
        }
      }
    }

    /** The interim branch of the completion handler. */
    method InterimPass(p: Pass)
      requires |p.text| < PrevCap && |finalized| < FinalizedCap
      modifies this
      ensures State() == InterimStep(old(State()), p)
    {
      var o := ReconcileRun(State().tracker, p);
      Take(o);
    }

    /** Copy a tracker into the globals it stands for. */
    method SetTracker(t: Tracker)
      modifies this
      ensures State() == old(State()).(tracker := t)
    {
      prev, stable, committedSamples := t.prev, t.stable, t.committedSamples;
      windowSamples, lastTranscribe, unconfirmed := t.windowSamples, t.lastTranscribe, t.unconfirmed;
    }

    /** Copy an outcome into the globals. */
    method Take(o: Outcome)
      requires |finalized| < FinalizedCap
      modifies this
      ensures State() == Absorb(old(State()), o)
    {
      SetTracker(o.tracker);
      if |o.fragment| > 0 {
        HandleResult(o.fragment);
        committedChars := committedChars + |o.fragment|;
        prompt := o.fragment[..Min(|o.fragment|, PromptCap - 1)];
      }
    }

    method Done(p: Pass) returns (act: Action)
      requires |p.text| < PrevCap && |finalized| < FinalizedCap
      modifies this
      ensures (State(), act) == DoneStep(old(State()), p)
    {
      transcribing := false;
      if p.isFinal && |p.text| > 0 {
        FinalPass(p.text);
      } else if !p.isFinal && |p.text| > 0 {
        InterimPass(p);
      }
      act := Idle;
      if !p.isFinal && wantFinal {
        act := Kick(true);
      }
    }
  }
}
