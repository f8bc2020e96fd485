/**
 * The headless test program: `test_sim` replays a recording through the
 * same stabilisation algorithm as the GUI client under a simulated
 * scheduler, and `test_timestamps` checks the word timestamps of one pass.
 *
 * The simulated clock (floating-point seconds in the program) is kept in
 * samples; how long each pass took and what the backend answered are inputs
 * indexed by the pass number.
 */
module Headless {
  import opened Seqs
  import opened AsrTypes
  import opened Stabilizer
  import Engine

  /** SAMPLE_RATE * 1: the shortest window worth sending. */
  const MinSamples: int := 16000
  /** sizeof(prompt) in test_sim. */
  const PromptCap: nat := 8192

  /**
   * One run: the recording length and the kick interval in samples, the
   * backend's answers to passes 1, 2, ... in order, and the simulated time
   * each pass took, in samples.
   */
  datatype Config = Config(nSamples: int, interval: int, answers: seq<Pass>, durations: seq<nat>)

  /** The answer to pass k (1-based); past the script the backend returns nothing. */
  function Answer(cfg: Config, k: nat): Pass
  {
    if 0 < k <= |cfg.answers| then cfg.answers[k - 1] else Pass("", [], false)
  }

  /** How long pass k took; past the script, no time. */
  function Elapsed(cfg: Config, k: nat): nat
  {
    if 0 < k <= |cfg.durations| then cfg.durations[k - 1] else 0
  }

  /** What test_sim sends: the window and the prompt (it always asks for an interim pass). */
  datatype Request = Request(start: int, samples: int, prompt: string)

  /** The `[You]` lines test_sim prints. */
  datatype Line = Committed(text: string) | Final(text: string) | Promoted(text: string)

  /** The loop's state: the engine tracker, the prompt, the simulated clock and the pass count. */
  datatype Sim = Sim(tracker: Tracker, prompt: string, clock: int, passNum: nat)

  /** One trip round the loop: go on from a new state, or leave it. */
  datatype Step =
    | Next(sim: Sim, reqs: seq<Request>, lines: seq<Line>)
    | Halt(reqs: seq<Request>, lines: seq<Line>)

  const Initial: Sim := Sim(Tracker("", 0, 0, 0, 0, false), "", 0, 0)

  /** Every answer the backend gives fits the retained-text buffer. */
  predicate ServerFits(cfg: Config)
  {
    forall k :: 0 <= k < |cfg.answers| ==> |cfg.answers[k].text| < PrevCap
  }

  /** The loop keeps the window start at or before the end of the audio last sent. */
  predicate SimInv(st: Sim)
  {
    st.tracker.committedSamples <= st.tracker.lastTranscribe
  }

  /** The next kick point: one interval after the last one, or later if the last pass ran long. */
  function KickPoint(cfg: Config, st: Sim): int
  {
    var next := st.tracker.lastTranscribe + cfg.interval;
    if next < st.clock then st.clock else next
  }

  /** One iteration of test_sim's `while (1)`. */
  function SimStep(cfg: Config, st: Sim): Step
    requires ServerFits(cfg)
  {
    var kick := KickPoint(cfg, st);
    var isFinal := kick >= cfg.nSamples;
    var recording := if isFinal then cfg.nSamples else kick;
    var ws := recording - st.tracker.committedSamples;
    if ws < MinSamples && !isFinal then
      Next(st, [], [])
    else if ws < MinSamples then
      var t := st.tracker;
      Halt([], if |t.prev| > t.stable then [Promoted(t.prev[t.stable..])] else [])
    else
      SimPass(cfg, st, recording, isFinal)
  }

  /** A pass over the audio from the committed offset up to `recording`, and what follows its result. */
  function SimPass(cfg: Config, st: Sim, recording: int, isFinal: bool): Step
    requires ServerFits(cfg)
  {
    var start := st.tracker.committedSamples;
    var ws := recording - start;
    var passNum := st.passNum + 1;
    PassResult(st.prompt, st.tracker.(windowSamples := ws, lastTranscribe := recording), Request(start, ws, st.prompt),
               Answer(cfg, passNum), recording + Elapsed(cfg, passNum), passNum, isFinal)
  }

  /** What follows the answer r to the request req: the final lines, an unchanged retained text, or a reconciled pass. */
  function PassResult(prompt: string, t1: Tracker, req: Request, r: Pass, clock: int, passNum: nat, isFinal: bool): Step
    requires |r.text| < PrevCap
  {
    var a := r.text;
    if isFinal then
      Halt([req], if |a| > t1.stable then [Final(a[t1.stable..])] else [])
    else if |a| == 0 then
      Next(Sim(t1, prompt, clock, passNum), [req], [])
    else
      SimAbsorb(prompt, Reconcile(t1, r), clock, passNum, req)
  }

  /** Take over an interim outcome: a committed fragment is printed and becomes the prompt. */
  function SimAbsorb(prompt: string, o: Outcome, clock: int, passNum: nat, req: Request): Step
  {
    var said := if |o.fragment| > 0 then [Committed(o.fragment)] else [];
    var prompt' := if |o.fragment| > 0 then o.fragment[..Engine.Min(|o.fragment|, PromptCap - 1)] else prompt;
    Next(Sim(o.tracker, prompt', clock, passNum), [req], said)
  }

  /** With an interval of at least one second every iteration that goes on makes progress. */
  lemma SimStepProgress(cfg: Config, st: Sim)
    requires ServerFits(cfg) && cfg.interval >= MinSamples && SimInv(st)
    ensures SimStep(cfg, st).Next? ==>
      && st.tracker.lastTranscribe < SimStep(cfg, st).sim.tracker.lastTranscribe < cfg.nSamples
      && SimInv(SimStep(cfg, st).sim)
  {
    var kick := KickPoint(cfg, st);
    if kick < cfg.nSamples && kick - st.tracker.committedSamples >= MinSamples {
      var passNum := st.passNum + 1;
      var t1 := st.tracker.(windowSamples := kick - st.tracker.committedSamples, lastTranscribe := kick);
      var r := Answer(cfg, passNum);
      if |r.text| > 0 {
        var ns := CutOf(t1, r.text);
        if ns > t1.stable {
          ReconcileCommits(t1, r);
          CommittedMovesWindow(t1, r, ns);
        }
      }
    }
  }

  /** The whole run from a state: the requests sent and the lines printed. */
  function SimRun(cfg: Config, st: Sim): (seq<Request>, seq<Line>)
    requires ServerFits(cfg) && cfg.interval >= MinSamples && SimInv(st)
    decreases cfg.nSamples - st.tracker.lastTranscribe
  {
    SimStepProgress(cfg, st);
    match SimStep(cfg, st)
    case Halt(reqs, lines) => (reqs, lines)
    case Next(st', reqs, lines) =>
      var rest := SimRun(cfg, st');
      (reqs + rest.0, lines + rest.1)
  }

  /** test_sim's scheduling loop. */
  method Simulate(cfg: Config) returns (reqs: seq<Request>, lines: seq<Line>)
    requires ServerFits(cfg) && cfg.interval >= MinSamples
    ensures (reqs, lines) == SimRun(cfg, Initial)
  {
    var st := Initial;
    reqs, lines := [], [];
    assert reqs + SimRun(cfg, st).0 == SimRun(cfg, Initial).0;
    assert lines + SimRun(cfg, st).1 == SimRun(cfg, Initial).1;
    while true
      invariant SimInv(st)
      invariant reqs + SimRun(cfg, st).0 == SimRun(cfg, Initial).0
      invariant lines + SimRun(cfg, st).1 == SimRun(cfg, Initial).1
      decreases cfg.nSamples - st.tracker.lastTranscribe
    {
      SimStepProgress(cfg, st);
      var step := Trip(cfg, st);
      match step
      case Halt(r, l) =>
        assert SimRun(cfg, st) == (r, l);
        reqs, lines := reqs + r, lines + l;
        return;
      case Next(st', r, l) =>
        assert SimRun(cfg, st) == (r + SimRun(cfg, st').0, l + SimRun(cfg, st').1);
        Assoc(reqs, r, SimRun(cfg, st').0);
        Assoc(lines, l, SimRun(cfg, st').1);
        reqs, lines, st := reqs + r, lines + l, st';
    }
  }

  /** One trip round the loop: the kick point, then a pass, the final promotion, or waiting while the window is short. */
  method Trip(cfg: Config, st: Sim) returns (step: Step)
    requires ServerFits(cfg)
    ensures step == SimStep(cfg, st)
  {
    var nextKick := st.tracker.lastTranscribe + cfg.interval;
    if nextKick < st.clock {
      nextKick := st.clock;
    }
    var recording := nextKick;
    var isFinal := false;
    if recording >= cfg.nSamples {
      recording := cfg.nSamples;
      isFinal := true;
    }
    var ws := recording - st.tracker.committedSamples;
    if ws < MinSamples && !isFinal {
      step := Next(st, [], []);
    } else if ws < MinSamples {
      var t := st.tracker;
      step := Halt([], if |t.prev| > t.stable then [Promoted(t.prev[t.stable..])] else []);
    } else {
      SimStepIsPass(cfg, st);
      step := PassRun(cfg, st, recording, isFinal);
    }
  }

  /** One pass of the loop: send the window, wait for the answer and take it over. */
  method PassRun(cfg: Config, st: Sim, recording: int, isFinal: bool) returns (step: Step)
    requires ServerFits(cfg)
    ensures step == SimPass(cfg, st, recording, isFinal)
  {
    var start := st.tracker.committedSamples;
    var ws := recording - start;
    var passNum := st.passNum + 1;
    PassUnfold(cfg, st, recording, isFinal);
    step := TakeResult(st.prompt, st.tracker.(windowSamples := ws, lastTranscribe := recording), Request(start, ws, st.prompt),
                       Answer(cfg, passNum), recording + Elapsed(cfg, passNum), passNum, isFinal);
  }

  /** A pass is the answer to its request, taken over. */
  lemma PassUnfold(cfg: Config, st: Sim, recording: int, isFinal: bool)
    requires ServerFits(cfg)
    ensures SimPass(cfg, st, recording, isFinal) ==
      PassResult(st.prompt, st.tracker.(windowSamples := recording - st.tracker.committedSamples, lastTranscribe := recording),
                 Request(st.tracker.committedSamples, recording - st.tracker.committedSamples, st.prompt),
                 Answer(cfg, st.passNum + 1), recording + Elapsed(cfg, st.passNum + 1), st.passNum + 1, isFinal)
  {
  }

  /** The answer taken over: print the final text, or reconcile an interim one. */
  method TakeResult(prompt: string, t1: Tracker, req: Request, r: Pass, clock: int, passNum: nat, isFinal: bool) returns (step: Step)
    requires |r.text| < PrevCap
    ensures step == PassResult(prompt, t1, req, r, clock, passNum, isFinal)
  {
    if isFinal {
      step := Halt([req], if |r.text| > t1.stable then [Final(r.text[t1.stable..])] else []);
      return;
    }
    if |r.text| == 0 {
      step := Next(Sim(t1, prompt, clock, passNum), [req], []);
      return;
    }
    var o := ReconcileRun(t1, r);
    step := SimAbsorb(prompt, o, clock, passNum, req);
  }

  // ---------------------------------------------------------------------
  // Properties of test_sim
  // ---------------------------------------------------------------------

  /** Every window test_sim sends holds at least one second of audio. */
  lemma {:induction false} SimWindowsLong(cfg: Config, st: Sim)
    requires ServerFits(cfg) && cfg.interval >= MinSamples && SimInv(st)
    ensures forall q :: q in SimRun(cfg, st).0 ==> q.samples >= MinSamples
    decreases cfg.nSamples - st.tracker.lastTranscribe
  {
    SimStepProgress(cfg, st);
    match SimStep(cfg, st)
    case Halt(reqs, lines) =>
    case Next(st', reqs, lines) =>
      SimWindowsLong(cfg, st');
  }

  /**
   * Each iteration sends at most one pass: the audio from the committed
   * offset to the kick point (or to the end of the recording), with the
   * current prompt.
   */
  lemma SimSendsFromCommitted(cfg: Config, st: Sim)
    requires ServerFits(cfg)
    ensures var s := SimStep(cfg, st);
      var recording := Engine.Min(KickPoint(cfg, st), cfg.nSamples);
      |s.reqs| <= 1
      && (|s.reqs| == 1 ==>
            s.reqs[0] == Request(st.tracker.committedSamples, recording - st.tracker.committedSamples, st.prompt))
  {
  }

  /** A short final window sends nothing and prints the retained tail. */
  lemma SimShortFinalPromotes(cfg: Config, st: Sim)
    requires ServerFits(cfg)
    requires KickPoint(cfg, st) >= cfg.nSamples && cfg.nSamples - st.tracker.committedSamples < MinSamples
    ensures SimStep(cfg, st) == Halt([], if |st.tracker.prev| > st.tracker.stable
                                        then [Promoted(st.tracker.prev[st.tracker.stable..])] else [])
  {
  }

  /** The final pass prints the text past the stable length as it came, trailing spaces included. */
  lemma SimFinalUntrimmed(cfg: Config, st: Sim)
    requires ServerFits(cfg)
    requires KickPoint(cfg, st) >= cfg.nSamples && cfg.nSamples - st.tracker.committedSamples >= MinSamples
    ensures var a := Answer(cfg, st.passNum + 1).text;
      SimStep(cfg, st) == Halt([Request(st.tracker.committedSamples, cfg.nSamples - st.tracker.committedSamples, st.prompt)],
                               if |a| > st.tracker.stable then [Final(a[st.tracker.stable..])] else [])
  {
  }

  /**
   * An empty interim result leaves the retained text, the stable length,
   * the window start and the guard flag as they were.
   */
  lemma SimEmptyKeepsTracker(cfg: Config, st: Sim)
    requires ServerFits(cfg)
    requires KickPoint(cfg, st) < cfg.nSamples && KickPoint(cfg, st) - st.tracker.committedSamples >= MinSamples
    requires |Answer(cfg, st.passNum + 1).text| == 0
    ensures SimStep(cfg, st).Next?
    ensures var t := SimStep(cfg, st).sim.tracker;
      && t.prev == st.tracker.prev && t.stable == st.tracker.stable
      && t.committedSamples == st.tracker.committedSamples
      && t.unconfirmed == st.tracker.unconfirmed
      && t.lastTranscribe == KickPoint(cfg, st)
    ensures SimStep(cfg, st).lines == []
  {
  }

  /** Past the short-window checks, an iteration is a pass up to the kick point or the end of the recording. */
  lemma SimStepIsPass(cfg: Config, st: Sim)
    requires ServerFits(cfg)
    requires Engine.Min(KickPoint(cfg, st), cfg.nSamples) - st.tracker.committedSamples >= MinSamples
    ensures SimStep(cfg, st) == SimPass(cfg, st, Engine.Min(KickPoint(cfg, st), cfg.nSamples), KickPoint(cfg, st) >= cfg.nSamples)
  {
  }

  /**
   * test_sim reconciles an interim pass exactly as the GUI does: the same
   * new tracker, and it prints as committed exactly the fragment the GUI
   * appends to its transcript.
   */
  lemma SimMatchesGui(cfg: Config, st: Sim, g: Engine.EngineState)
    requires ServerFits(cfg)
    requires KickPoint(cfg, st) < cfg.nSamples && KickPoint(cfg, st) - st.tracker.committedSamples >= MinSamples
    requires |Answer(cfg, st.passNum + 1).text| > 0
    requires |g.finalized| < Engine.FinalizedCap
    requires g.tracker == st.tracker.(windowSamples := KickPoint(cfg, st) - st.tracker.committedSamples,
                                      lastTranscribe := KickPoint(cfg, st))
    ensures var p := Answer(cfg, st.passNum + 1); var o := Reconcile(g.tracker, p);
      && SimStep(cfg, st).Next?
      && SimStep(cfg, st).sim.tracker == Engine.InterimStep(g, p).tracker
      && SimStep(cfg, st).lines == (if |o.fragment| > 0 then [Committed(o.fragment)] else [])
      && Engine.InterimStep(g, p).finalized == Engine.AppendCommitted(g.finalized, o.fragment)
  {
    var kick := KickPoint(cfg, st);
    SimStepIsPass(cfg, st);
    assert Engine.Min(kick, cfg.nSamples) == kick;
    PassUnfold(cfg, st, kick, false);
    InterimMatchesGui(st.prompt, st.tracker.(windowSamples := kick - st.tracker.committedSamples, lastTranscribe := kick),
                      Request(st.tracker.committedSamples, kick - st.tracker.committedSamples, st.prompt),
                      Answer(cfg, st.passNum + 1), kick + Elapsed(cfg, st.passNum + 1), st.passNum + 1, g);
  }

  /** An interim answer is taken over as the GUI takes it over. */
  lemma InterimMatchesGui(prompt: string, t1: Tracker, req: Request, p: Pass, clock: int, passNum: nat, g: Engine.EngineState)
    requires 0 < |p.text| < PrevCap && |g.finalized| < Engine.FinalizedCap && g.tracker == t1
    ensures var s := PassResult(prompt, t1, req, p, clock, passNum, false); var o := Reconcile(t1, p);
      && s.Next?
      && s.sim.tracker == Engine.InterimStep(g, p).tracker
      && s.lines == (if |o.fragment| > 0 then [Committed(o.fragment)] else [])
      && Engine.InterimStep(g, p).finalized == Engine.AppendCommitted(g.finalized, o.fragment)
  {
    assert Engine.InterimStep(g, p) == Engine.Absorb(g, Reconcile(t1, p));
  }

  /**
   * With an interval below one second the loop cannot finish: from the
   * start of a recording longer than the interval, the first iteration
   * takes the `continue` branch and leaves every variable as it was.
   */
  lemma ShortIntervalSpins(cfg: Config)
    requires ServerFits(cfg)
    requires 0 <= cfg.interval < MinSamples && cfg.interval < cfg.nSamples
    ensures SimStep(cfg, Initial) == Next(Initial, [], [])
  {
  }

  // ---------------------------------------------------------------------
  // test_timestamps
  // ---------------------------------------------------------------------

  /** The reversals the loop flags: a position below its predecessor, when that one is non-negative. */
  function Reversals(ms: seq<int>, prevMs: int): (n: nat)
    ensures n <= |ms|
    decreases |ms|
  {
    if |ms| == 0 then 0
    else (if prevMs >= 0 && ms[0] < prevMs then 1 else 0) + Reversals(ms[1..], ms[0])
  }

  /** The same count read pairwise over the sequence. */
  function PairReversals(ms: seq<int>, i: nat): (n: nat)
    requires 0 < i <= |ms|
    decreases |ms| - i
  {
    if i == |ms| then 0
    else (if ms[i - 1] >= 0 && ms[i] < ms[i - 1] then 1 else 0) + PairReversals(ms, i + 1)
  }

  lemma {:induction false} ReversalsPairwise(ms: seq<int>, i: nat)
    requires 0 < i <= |ms|
    ensures Reversals(ms[i..], ms[i - 1]) == PairReversals(ms, i)
    decreases |ms| - i
  {
    if i < |ms| {
      assert ms[i..][1..] == ms[i + 1..];
      ReversalsPairwise(ms, i + 1);
    }
  }

  /**
   * non_monotonic counts the indices i > 0 whose position is below the one
   * before, provided that one is not negative; the first token never counts.
   */
  lemma ReversalCount(ms: seq<int>)
    requires |ms| > 0
    ensures Reversals(ms, -1) == PairReversals(ms, 1)
  {
    ReversalsPairwise(ms, 1);
  }

  /** A sequence with no reversal among non-negative positions is non-decreasing. */
  lemma {:induction false} NoReversalMonotone(ms: seq<int>, i: nat)
    requires 0 < i <= |ms|
    requires forall k :: 0 <= k < |ms| ==> ms[k] >= 0
    requires PairReversals(ms, i) == 0
    ensures forall k :: i <= k < |ms| ==> ms[k - 1] <= ms[k]
    decreases |ms| - i
  {
    if i < |ms| {
      NoReversalMonotone(ms, i + 1);
    }
  }

  /** The piece of text test_timestamps shows for a token: its start and length. */
  function Piece(textLen: nat, bo: int, nextBo: int): (r: (int, int))
    ensures r.1 >= 0 && r.1 < 128
    ensures r.0 + r.1 <= textLen
    ensures bo >= 0 ==> r.0 >= 0
  {
    var next := if nextBo > textLen then textLen else nextBo;
    var len0 := next - bo;
    var len1 := if len0 < 0 then 0 else len0;
    var start := if bo > textLen then textLen else bo;
    var len := if len1 >= 128 then 127 else len1;
    (start, len)
  }

  /** Where token k's text ends: the next token's offset, or the end of the text for the last token. */
  function NextOffset(text: string, ts: seq<Stamp>, k: nat): int
    requires k < |ts|
  {
    if k + 1 < |ts| then ts[k + 1].byteOffset else |text|
  }

  /**
   * The text test_timestamps shows for token k: a prefix of the text from
   * the token's offset, and exactly the bytes up to the next token's offset
   * when those lie in the text and number fewer than 128.
   */
  function PieceText(text: string, ts: seq<Stamp>, k: nat): (r: string)
    requires k < |ts| && ts[k].byteOffset >= 0
    ensures |r| < 128
    ensures ts[k].byteOffset <= |text| ==> r <= text[ts[k].byteOffset..]
    ensures ts[k].byteOffset <= NextOffset(text, ts, k) <= |text| && NextOffset(text, ts, k) - ts[k].byteOffset < 128 ==>
              r == text[ts[k].byteOffset .. NextOffset(text, ts, k)]
  {
    var p := Piece(|text|, ts[k].byteOffset, NextOffset(text, ts, k));
    text[p.0 .. p.0 + p.1]
  }

  /** The report loop of test_timestamps: every token's piece and the reversal count. */
  method TimestampReport(text: string, ts: seq<Stamp>) returns (pieces: seq<string>, nonMonotonic: nat)
    requires forall k :: 0 <= k < |ts| ==> ts[k].byteOffset >= 0
    ensures |pieces| == |ts|
    ensures forall k :: 0 <= k < |ts| ==> pieces[k] == PieceText(text, ts, k)
    ensures nonMonotonic == Reversals(seq(|ts|, k requires 0 <= k < |ts| => ts[k].audioMs), -1)
  {
    ghost var ms := seq(|ts|, k requires 0 <= k < |ts| => ts[k].audioMs);
    var prevMs := -1;
    nonMonotonic := 0;
    pieces := [];
    var i := 0;
    while i < |ts|
      invariant i <= |ts| && |pieces| == i
      invariant forall k :: 0 <= k < i ==> pieces[k] == PieceText(text, ts, k)
      invariant prevMs == if i == 0 then -1 else ms[i - 1]
      invariant nonMonotonic + Reversals(ms[i..], prevMs) == Reversals(ms, -1)
    {
      var bo := ts[i].byteOffset;
      var m := ts[i].audioMs;
      var nextBo := if i + 1 < |ts| then ts[i + 1].byteOffset else |text|;
      var pc := Piece(|text|, bo, nextBo);
      pieces := pieces + [text[pc.0 .. pc.0 + pc.1]];
      assert ms[i..][1..] == ms[i + 1..];
      if prevMs >= 0 && m < prevMs {
        nonMonotonic := nonMonotonic + 1;
      }
      prevMs := m;
      i := i + 1;
    }
  }
}
