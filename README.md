# Local voice clients: the verified core

This project models, in Dafny, the integer and byte logic of the local AI
voice clients. These clients record speech, send it to a local
speech-recognition server and turn the answers into text. They also feed
text to a local speech-synthesis server. Five parts are modelled:

- **The stabilisation engine of the voice GUI client.** A growing recording
  is transcribed again and again. Each new pass's text is aligned with the
  retained, not yet committed tail of the previous pass:
  - by a fuzzy prefix walk that ignores ASCII case and treats `-` as a space;
  - with a resync at the next sentence boundary.

  A commit point is chosen at the rightmost strong sentence mark, or
  failing that at a well-placed comma or semicolon. The fragment before it
  is appended to the transcript, and the audio window is moved past the
  words it covers. When nothing is committed, a divergence guard decides
  whether the new text replaces the tail. A scheduler keeps at most one
  pass in flight. It never sends less than one second of audio. It turns
  the stop request into a final pass, or promotes the last interim text.
  - The scans are loop methods proved against pure functions (`Aligner`,
    `CommitSelector`, `WindowAdvance`, `Stabilizer`).
  - The globals are a state machine (`Engine.EngineState`) and a class
    that updates them in place (`Engine.Session`).
  - The properties are proved over every event (`EngineProps`).
- **The headless simulator** (`Headless`). It replays a recording through
  the same computation under a simulated scheduler, and checks the
  monotonicity of word timestamps.
- **The GUI's helpers:**
  - the base64 decoder;
  - the JSON string escape and unescape of the language-model client;
  - the CJK stripper;
  - the WAV header parser;
  - the FNV-1a hash;
  - the bounded chat history;
  - the recording buffer append;
  - the pronunciation drill: its UTF-8 codec, code point stripping,
    homophone matching, positional diff, progress counters and sentence
    bank parser.
- **The shared speech client:**
  - the WAV file it sends;
  - the multipart/form-data request body (section 4 of RFC 7578, with the
    delimiters of section 5.1.1 of RFC 2046);
  - the verbose-JSON answer parser;
  - the Server-Sent Events reader of the streaming endpoint (a subset of
    section 9.2 of the WHATWG HTML Living Standard), which takes chunks of
    any size.
- **The narrator script's helpers:**
  - the text chunking: sentence split, long-sentence split and short-sentence
    merge;
  - its WAV header writer and parser.

How values are modelled:
- Text is a `string` in which each char stands for one byte. Byte buffers
  are `seq<byte>`. C `int` arithmetic that can leave its range is written
  out with `Bytes.Int32`: the WAV chunk bound and the window advance with
  its sum. Signed overflow, which C leaves undefined, is taken to wrap
  around as two's-complement hardware does.
- The backend's answers, the performance counter, the pass durations and
  the scripted server replies are parameters.
- Every source operation that loops or updates state is a method. Its
  contract ties it to a pure function, and lemmas state the properties of
  that function.

## Model

| member | source | states |
|---|---|---|
| Aligner.Fold | clients/voice-test-gui/src/main.c:4257-4260 | a byte folds to a space exactly when it is a space or a hyphen |
| Aligner.SkipSeps | clients/voice-test-gui/src/main.c:4264-4265 | the result is the first index at or after i that is not a space or hyphen, and every byte skipped is one |
| Aligner.Scan | clients/voice-test-gui/src/main.c:4255-4271 | the prefix walk never records a sync point before the one it started with nor past the end of the new text |
| Aligner.FuzzyPrefix | clients/voice-test-gui/src/main.c:4252-4271 | the fuzzy common prefix is a position inside the new text |
| Aligner.FindTerminator | clients/voice-test-gui/src/main.c:4276-4283 | the result is -1 exactly when no strong terminator followed by a space lies at or after `from`; otherwise it is two past the leftmost such terminator |
| Aligner.WalkPrefix | clients/voice-test-gui/src/main.c:4255-4271 | the walk loop computes the prefix walk `Scan` from the given positions |
| Aligner.SearchTerminator | clients/voice-test-gui/src/main.c:4286-4293 | the terminator search loop (run on either text) returns the leftmost restart point, or -1 |
| Aligner.AlignCommon | clients/voice-test-gui/src/main.c:4252-4320 | the aligner, fuzzy walk then sentence-boundary resync, returns `Common` of the two texts, never past the new text |
| Aligner.CommonBounds | clients/voice-test-gui/src/main.c:4315-4317 | resync can only lengthen the aligned prefix, and never past the new text |
| Aligner.ResyncOnlyWhen | clients/voice-test-gui/src/main.c:4274-4318 | resync replaces the fuzzy prefix only when the walk stopped inside both texts, both have a first strong terminator plus space at or after that point with the restart points inside the texts, and the re-aligned walk reaches 20 bytes past the restart point and beyond the old length |
| Aligner.SelfScan | clients/voice-test-gui/src/main.c:4255-4271 | a text walked against itself reaches its end if and only if its last byte is not a separator |
| Aligner.SelfAlign | clients/voice-test-gui/src/main.c:4255-4271 | a text aligned with itself gives its full length if and only if it is empty or does not end in a space or hyphen |
| Aligner.ScanFoldEqualRight | clients/voice-test-gui/src/main.c:4257-4268 | replacing the previous tail by a text equal to it under case folding and hyphen-as-space leaves the walk unchanged |
| Aligner.FoldEqualAlign | clients/voice-test-gui/src/main.c:4257-4268 | ASCII case and hyphen versus space never stop the match: against a fold-equal text the walk gives the same length as against the text itself, the full length when it does not end in a separator |
| Aligner.ScanShift | clients/voice-test-gui/src/main.c:4255-4271 | the walk depends only on the text from its positions on: a common prefix shifts its result by the prefix length |
| Aligner.SharedPrefixAlign | clients/voice-test-gui/src/main.c:4255-4271 | texts that share a prefix not ending in a separator align past it: the length is that prefix plus the alignment of the rests |
| Aligner.SepRunIsOneSyncPoint | clients/voice-test-gui/src/main.c:4261-4267 | runs of spaces and hyphens of any lengths on either side count as one sync point; when the next words disagree at once the aligned length is the index of the run |
| Aligner.SelfCommon | clients/voice-test-gui/src/main.c:4274-4318 | identical texts never trigger resync |
| CommitSelector.Boundary | clients/voice-test-gui/src/main.c:4357-4359 | the cut is one past the mark, or two past it exactly when a space follows the mark |
| CommitSelector.SelectCommit | clients/voice-test-gui/src/main.c:4348-4374 | the new stable length never moves below the old one, and a cut past it lies inside the text |
| CommitSelector.SelectCut | clients/voice-test-gui/src/main.c:4348-4374 | the backward selector loop computes `SelectCommit` |
| CommitSelector.SelectFromBounds | clients/voice-test-gui/src/main.c:4350-4371 | the backward scan never returns below the stable length or past the text |
| CommitSelector.SelectFromKeep | clients/voice-test-gui/src/main.c:4365-4373 | with no strong mark left to scan, the first clause cut recorded (the rightmost) is final |
| CommitSelector.RightmostStrongWins | clients/voice-test-gui/src/main.c:4350-4364 | the rightmost clean strong mark strictly after the stable length and inside the aligned region decides the cut, whatever clause marks lie to its right |
| CommitSelector.RightmostWeakFallback | clients/voice-test-gui/src/main.c:4365-4374 | with no strong mark, the rightmost clean clause mark leaving 30 new bytes before its cut and 15 aligned bytes after it decides the cut |
| CommitSelector.NoMarkNoCommit | clients/voice-test-gui/src/main.c:4348-4374 | with no qualifying mark of either kind the stable length stays where it was |
| WindowAdvance.RunEnd | clients/voice-test-gui/src/main.c:4406-4411 | the result ends the maximal run of tokens from t that all start before the cut |
| WindowAdvance.LeadingRun | clients/voice-test-gui/src/main.c:4406-4411 | the leading run has at most as many tokens as the pass |
| WindowAdvance.LastLeadingMs | clients/voice-test-gui/src/main.c:4404-4411 | the timestamp loop returns the audio position it leaves in `last_ms` |
| WindowAdvance.Clamp | clients/voice-test-gui/src/main.c:4425-4427 | the sum is formed in a C `int`; the committed count never passes the end of the audio last sent and is either that end or the wrapped sum; when the sum fits it is the sum or, past the end, the end |
| WindowAdvance.LeadFromIsLastOfRun | clients/voice-test-gui/src/main.c:4405-4411 | the loop's result is the audio position of the last token of the leading run, or its starting value when the run is empty |
| WindowAdvance.LeadMsIsLastOfRun | clients/voice-test-gui/src/main.c:4404-4411 | the window moves to the position of the LAST token of the leading run of tokens before the cut (0 when none), not the largest position before the cut |
| WindowAdvance.AdvanceFromStamps | clients/voice-test-gui/src/main.c:4404-4412 | with timestamps the advance is 16 samples per millisecond of that position narrowed to an `int`, and exactly 16 per ms below 2^27 ms |
| WindowAdvance.AdvanceProportional | clients/voice-test-gui/src/main.c:4421-4424 | without timestamps the advance lies between 0 and the window and is the whole window when the whole text is committed |
| WindowAdvance.LeadMsWithin | clients/voice-test-gui/src/main.c:4404-4411 | the window settles on 0 or on a position inside any range that holds every token's position |
| WindowAdvance.AdvanceNonNeg | clients/voice-test-gui/src/main.c:4403-4424 | the advance is never negative while the backend's audio positions lie in [0, 2^27) ms |
| WindowAdvance.ClampedAdvanceMonotone | clients/voice-test-gui/src/main.c:4401-4427 | while the committed offset, the window and 16 samples for every audio position keep the sum inside an `int`, the window start moves forward and never past the end of the audio last sent |
| WindowAdvance.AdvanceWraps | clients/voice-test-gui/src/main.c:4412-4427 | a token at 2^27 ms before the cut makes the advance the most negative `int`, and the window start moves back by 2^31 samples to a negative offset |
| WindowAdvance.WideWindowMonotone | clients/voice-test-gui/src/main.c:4401-4427 | with the advance and the sum kept in 64 bits the window start never moves back for non-negative audio positions, however large, and never passes the end of the audio last sent |
| WindowAdvance.ClampIsWide | clients/voice-test-gui/src/main.c:4401-4427 | wherever the sum fits an `int`, the engine's narrowed advance and sum equal the 64-bit ones |
| Stabilizer.TrimRight | clients/voice-test-gui/src/main.c:4391 | the result is the longest prefix that does not end in a space, and everything cut off is spaces |
| Stabilizer.TrimmedLength | clients/voice-test-gui/src/main.c:4391 | the trimming loop leaves the length of `TrimRight` |
| Stabilizer.CommitLen | clients/voice-test-gui/src/main.c:4387-4389 | the copied length never exceeds the request nor 8191 bytes, and is the request when that fits |
| Stabilizer.Fragment | clients/voice-test-gui/src/main.c:4386-4392 | a committed fragment always fits the 8192-byte sentence buffer |
| Stabilizer.CutOf | clients/voice-test-gui/src/main.c:4252-4374 | the chosen cut never lies below the stable length, and a cut past it lies inside the text |
| Stabilizer.AdvanceRun | clients/voice-test-gui/src/main.c:4401-4424 | the advance block computes `Advance`, with the `(int)` narrowing of the timestamp product |
| Stabilizer.CommitRun | clients/voice-test-gui/src/main.c:4385-4445 | the committing branch computes `Committed`: fragment, window move with the `int` sum and the clamp, and retained tail |
| Stabilizer.ReconcileRun | clients/voice-test-gui/src/main.c:4250-4477 | the interim-pass code, loop by loop, computes `Reconcile` |
| Stabilizer.ReconcileCommits | clients/voice-test-gui/src/main.c:4385 | a cut past the stable length takes the committing branch |
| Stabilizer.CommittedEffect | clients/voice-test-gui/src/main.c:4385-4445 | a commit emits the text from the old stable length to the cut (at most 8191 bytes) less its trailing spaces, retains the text after the cut, resets the stable length and leaves the guard flag alone |
| Stabilizer.TrimSplit | clients/voice-test-gui/src/main.c:4390-4391 | a trimmed slice, the spaces trimmed from it and the rest of the text make up the text again |
| Stabilizer.CommittedSplitsText | clients/voice-test-gui/src/main.c:4385-4443 | nothing is lost at a cut: the text from the stable length on is the committed fragment, then spaces, then the retained tail |
| Stabilizer.CommittedMovesWindow | clients/voice-test-gui/src/main.c:4425-4427 | after a commit the window never starts past the end of the audio last sent, and never moves back while the window start, the window and 16 samples for every audio position keep the sum inside an `int` |
| Stabilizer.DivergenceGuard | clients/voice-test-gui/src/main.c:4456-4476 | a non-committing pass with no shared prefix against a non-empty tail keeps the tail and sets the flag the first time; every other non-committing pass replaces the tail, and only a shared prefix clears the flag; window and stable length are untouched |
| Stabilizer.CommitOnlyPastStable | clients/voice-test-gui/src/main.c:4385-4445 | a pass commits if and only if its cut lies past the stable length, never past its text, and commits nothing otherwise |
| Engine.StartStep | clients/voice-test-gui/src/main.c:3554-3627 | a new recording ends with an empty prompt, committed count, ledger and ring and no final kick pending; the engine is busy afterwards exactly when a pass was in flight and no completion was drained; with nothing drained the transcript is empty and the tracker fresh |
| Engine.Drain | clients/voice-test-gui/src/main.c:3591-3603 | dispatching the queued completions after the reset keeps the transcript inside its buffer, asks for no final kick, leaves the ledger and the ring alone and leaves the engine idle once one is dispatched |
| Engine.DrainFirst | clients/voice-test-gui/src/main.c:3598-3603 | the drain dispatches the first queued completion and then the rest |
| Engine.DoneQuiet | clients/voice-test-gui/src/main.c:4174-4487 | with no final kick asked for, a completion kicks nothing, leaves the engine idle, keeps the transcript in its buffer and leaves the ledger and the ring alone |
| Engine.AppendCommitted | clients/voice-test-gui/src/main.c:3471-3482 | the transcript only grows and stays under 8192 bytes; an empty fragment changes nothing; a fragment that fits is appended after one space unless the transcript is empty or already ends in a space |
| Engine.PromptOf | clients/voice-test-gui/src/main.c:4397-4398 | the prompt is a prefix of the fragment under 4096 bytes, the whole fragment when it fits |
| Engine.Session.constructor | clients/voice-test-gui/src/main.c:3576-3584 | the globals start as a fresh recording leaves them, with no pass in flight |
| Engine.Session.Start | clients/voice-test-gui/src/main.c:3554-3627 | start_recording resets, drains and clears the globals as `StartStep` says, each drained completion going through the completion handler |
| Engine.Session.ResetForStart | clients/voice-test-gui/src/main.c:3561-3584 | the resets before the drain: ring, transcript and tracker emptied and no final kick pending |
| Engine.Session.DrainQueue | clients/voice-test-gui/src/main.c:3591-3603 | the drain loop dispatches each queued completion in turn, as `Drain` says |
| Engine.Session.AddSamples | clients/voice-test-gui/src/main.c:2172-2198 | add_audio_samples updates the globals as `AddSamplesStep` says |
| Engine.Session.ClearRing | clients/voice-test-gui/src/main.c:2211-2217 | clear_audio_buffer empties only the ring buffer |
| Engine.Session.Kick | clients/voice-test-gui/src/main.c:3388-3438 | asr_kick_retranscribe updates the globals and acts as `KickStep` says |
| Engine.Session.Tick | clients/voice-test-gui/src/main.c:4016-4021 | the timer updates the globals and acts as `TickStep` says |
| Engine.Session.Stop | clients/voice-test-gui/src/main.c:3687-3690 | stop_recording kicks as `StopStep` says |
| Engine.Session.HandleResult | clients/voice-test-gui/src/main.c:3465-3482 | handle_transcribe_result changes only the transcript, as `AppendCommitted` says |
| Engine.Session.FinalPass | clients/voice-test-gui/src/main.c:4229-4249 | the final branch updates the globals as `FinalStep` says |
| Engine.FinalStepAppends | clients/voice-test-gui/src/main.c:4229-4249 | a final pass with text past the stable length appends that text, trimmed and cut to one sentence buffer, and counts its bytes as committed |
| Engine.Session.InterimPass | clients/voice-test-gui/src/main.c:4250-4477 | the interim branch updates the globals as `InterimStep` says |
| Engine.Session.Take | clients/voice-test-gui/src/main.c:4385-4476 | the globals take over a pass outcome: its tracker, and its fragment appended and used as the prompt |
| Engine.Session.Done | clients/voice-test-gui/src/main.c:4174-4487 | the completion handler updates the globals and acts as `DoneStep` says |
| EngineProps.KickWhileBusyDefers | clients/voice-test-gui/src/main.c:3389-3392 | while a pass is in flight a kick starts nothing and only remembers a final request |
| EngineProps.KickSendsWholeLongWindow | clients/voice-test-gui/src/main.c:3394-3438 | a pass is sent only when idle, for exactly the audio from the committed offset to the end of the recording, at least one second of it, with the current prompt; the engine is then busy with that window; in the tracker only the window and its end change, and the transcript and the prompt are unchanged |
| EngineProps.KickFromIdleSends | clients/voice-test-gui/src/main.c:3394-3425 | from the idle state a window of at least one second is always sent |
| EngineProps.KickShortWindow | clients/voice-test-gui/src/main.c:3398-3411 | a window under one second is never sent: an interim kick does nothing and a final kick promotes the retained interim text if and only if there is one |
| EngineProps.TickNeedsNewAudio | clients/voice-test-gui/src/main.c:4016-4021 | the timer acts only after 3 s of new audio and 1 s in total, and only kicks interim passes |
| EngineProps.StopKicksFinal | clients/voice-test-gui/src/main.c:3687-3690 | stopping kicks a final pass, and does nothing when under one second was recorded |
| EngineProps.DoneEndsPass | clients/voice-test-gui/src/main.c:4174-4483 | a completion ends the pass in flight; only an interim completion with a deferred final request kicks again, and that kick is final |
| EngineProps.EmptyPassKeepsState | clients/voice-test-gui/src/main.c:4229-4250 | an empty result changes nothing but the in-flight flag |
| EngineProps.FinalPassCommitsRest | clients/voice-test-gui/src/main.c:4229-4244 | a final pass appends the text past the stable length less its trailing spaces, without alignment, and leaves the retained tail, the window and the prompt alone |
| EngineProps.FinalStepCommits | clients/voice-test-gui/src/main.c:4231-4244 | the committing half of the final branch: nothing is appended when only spaces lie past the stable length, the trimmed rest otherwise |
| EngineProps.InterimPassCommitsFragment | clients/voice-test-gui/src/main.c:4385-4399 | an interim pass appends exactly the fragment the stabiliser committed, and that fragment (up to 4095 bytes) becomes the prompt |
| EngineProps.DoneAppendOnly | clients/voice-test-gui/src/main.c:3471-3482 | the transcript is append-only across completions and stays under 8192 bytes |
| EngineProps.OtherEventsKeepTranscript | clients/voice-test-gui/src/main.c:3388-3438 | kicks, ticks, stop, capture and ring clearing never touch the transcript |
| EngineProps.AddSamplesLedger | clients/voice-test-gui/src/main.c:2179-2191 | the recording grows by the samples given until 120 s are recorded |
| EngineProps.DoneWindowMonotone | clients/voice-test-gui/src/main.c:4401-4427 | while the window start and the window are offsets into the recording and every audio position lies in [0, MaxStampMs) ms (about 37 hours), a completion never moves the window start back |
| EngineProps.StampsFit | clients/voice-test-gui/src/main.c:4412-4427 | offsets into a recording of at most 120 s and audio positions below MaxStampMs keep the window start, advanced, inside an `int` |
| EngineProps.StartInv | clients/voice-test-gui/src/main.c:3554-3627 | a new recording keeps the engine's bounds, whatever completions it drains |
| EngineProps.DrainInv | clients/voice-test-gui/src/main.c:3591-3603 | draining keeps the engine's bounds and the end of the window last sent |
| EngineProps.DoneKeepsWindowEnd | clients/voice-test-gui/src/main.c:4174-4487 | a completion that kicks nothing leaves the end of the window last sent alone |
| EngineProps.StartKeepsDrainedFinal | clients/voice-test-gui/src/main.c:3591-3603 | a final result still queued when a recording starts becomes the first text of the new transcript |
| EngineProps.KickInv | clients/voice-test-gui/src/main.c:3388-3438 | a kick keeps the engine's bounds |
| EngineProps.TickStopInv | clients/voice-test-gui/src/main.c:4016-4021 | the timer and stop keep the engine's bounds |
| EngineProps.AddSamplesInv | clients/voice-test-gui/src/main.c:2172-2217 | capture and ring clearing keep the engine's bounds |
| EngineProps.DoneInv | clients/voice-test-gui/src/main.c:4174-4487 | a completion keeps every bound: transcript, prompt and retained tail fit their buffers and the window start stays at or before the end of the audio last sent |
| Headless.SimStepProgress | clients/voice-test-headless/src/main.c:367-401 | with an interval of at least one second every iteration that goes on moves the last kick point forward, stays before the end of the recording and keeps the window start at or before it |
| Headless.Simulate | clients/voice-test-headless/src/main.c:340-633 | the scheduling loop sends the requests and prints the lines of the whole run `SimRun` |
| Headless.Trip | clients/voice-test-headless/src/main.c:367-398 | one iteration computes `SimStep`: the kick point, then the short-window checks or a pass |
| Headless.PassRun | clients/voice-test-headless/src/main.c:400-411 | a pass computes `SimPass`: the window from the committed offset is sent with the prompt |
| Headless.PassUnfold | clients/voice-test-headless/src/main.c:400-411 | a pass is the scripted answer to its request taken over, with the clock at the kick point plus the pass's duration |
| Headless.TakeResult | clients/voice-test-headless/src/main.c:413-625 | the answer is taken over as `PassResult`: a final pass prints and stops, an empty one changes nothing, an interim one is reconciled |
| Headless.SimWindowsLong | clients/voice-test-headless/src/main.c:380-398 | every window test_sim sends holds at least one second of audio |
| Headless.SimSendsFromCommitted | clients/voice-test-headless/src/main.c:368-406 | an iteration sends at most one request: the audio from the committed offset to the kick point or the end of the recording, with the current prompt |
| Headless.SimShortFinalPromotes | clients/voice-test-headless/src/main.c:387-398 | a short final window sends nothing, prints the retained tail past the stable length if there is one, and stops |
| Headless.SimFinalUntrimmed | clients/voice-test-headless/src/main.c:417-431 | the final pass prints the text past the stable length as it came, trailing spaces included, and stops |
| Headless.SimEmptyKeepsTracker | clients/voice-test-headless/src/main.c:433-439 | an empty interim answer prints nothing and leaves the retained text, stable length, window start and guard flag alone |
| Headless.SimStepIsPass | clients/voice-test-headless/src/main.c:373-402 | past the short-window checks an iteration is a pass up to the kick point or the end of the recording, final exactly at the end |
| Headless.SimMatchesGui | clients/voice-test-headless/src/main.c:441-625 | test_sim reconciles an interim pass as the GUI does: the same new tracker, and it prints as committed exactly the fragment the GUI appends to its transcript |
| Headless.InterimMatchesGui | clients/voice-test-headless/src/main.c:541-625 | an interim answer is taken over as the GUI's interim branch takes it over |
| Headless.ShortIntervalSpins | clients/voice-test-headless/src/main.c:367-386 | with an interval under one second the first iteration takes the `continue` branch and leaves every variable as it was, so the loop cannot finish |
| Headless.Reversals | clients/voice-test-headless/src/main.c:285-311 | no more reversals are counted than there are tokens |
| Headless.ReversalCount | clients/voice-test-headless/src/main.c:285-311 | the count is the number of indices i > 0 whose position is below that of token i - 1 when that position is non-negative |
| Headless.NoReversalMonotone | clients/voice-test-headless/src/main.c:316-317 | with non-negative positions, a count of 0 (PASS) means the positions never decrease |
| Headless.Piece | clients/voice-test-headless/src/main.c:293-303 | the piece shown for a token lies within the text, is under 128 bytes and, when the token's offset is non-negative, starts at a non-negative offset |
| Headless.TimestampReport | clients/voice-test-headless/src/main.c:285-317 | the report loop yields, for each token, the piece `PieceText`, and the reversal count `Reversals` of the audio positions |
| Headless.PieceText | clients/voice-test-headless/src/main.c:289-303 | a token's piece is under 128 bytes and a prefix of the text from the token's offset; it is exactly the bytes up to the next token's offset (or the end of the text, for the last token) when those lie in the text and number fewer than 128 |
| Drill.TrimEol | clients/voice-test-gui/src/drill.c:174-176 | the line keeps a prefix of itself that does not end in a newline or carriage return |
| Drill.SkipSpaces | clients/voice-test-gui/src/drill.c:184 | the result is an index at or after i, inside the line when i is |
| Drill.Clamp | clients/voice-test-gui/src/drill.c:189-190 | the level lies in 1..6 and is the value itself when that is in range |
| Drill.HeaderLevel | clients/voice-test-gui/src/drill.c:182-193 | a `#` line either keeps the level or sets one in 1..6 |
| Drill.Fields | clients/voice-test-gui/src/drill.c:196-201 | the line splits into fields exactly when it holds two `|`; joined by `|` the three fields give back the line, and the first two hold no `|` |
| Drill.LineStep | clients/voice-test-gui/src/drill.c:174-212 | a trimmed line yields a sentence exactly when it is an entry line, at the current level; only a `#` line naming HSK changes the level, to 1..6 |
| Drill.LoadFromCount | clients/voice-test-gui/src/drill.c:172-213 | the load loop only appends, one sentence per entry line, until the bank holds 500 |
| Drill.LoadFromWellFormed | clients/voice-test-gui/src/drill.c:203-210 | every sentence appended has a level in 1..6 and fields of at most 255 bytes |
| Drill.LoadFacts | clients/voice-test-gui/src/drill.c:163-217 | the bank holds min(entry lines, 500) sentences, all well formed |
| Drill.LoadEmptyIff | clients/voice-test-gui/src/drill.c:216 | nothing is loaded (and -1 returned) if and only if the file has no entry line |
| Drill.DiffCpsFacts | clients/voice-test-gui/src/drill.c:387-403 | the diff keeps both sequences; a position matches exactly when both sides have it and the two sound the same; the verdict is equal lengths and every position matching |
| Drill.DiffFacts | clients/voice-test-gui/src/drill.c:380-403 | a diff is a match exactly when both sides hold as many code points (at most 256) and every position matches; no position past the shorter side matches |
| Drill.DiffSelf | clients/voice-test-gui/src/drill.c:380-403 | an answer equal to the target, with no strip code point in it, is a perfect match |
| Drill.BumpFacts | clients/voice-test-gui/src/drill.c:417-424 | an attempt counts once; a correct one raises the correct count and the streak, a wrong one resets the streak; correct never exceeds attempts |
| Drill.DrillState.constructor | clients/voice-test-gui/src/drill.c:294-298 | the state starts with no sentences, no current sentence, no filter and zero session totals |
| Drill.DrillState.LoadSentences | clients/voice-test-gui/src/drill.c:163-217 | the array holds the bank `Load` of the file's lines, the return is 0 exactly when it is not empty, and nothing else changes |
| Drill.DrillState.Check | clients/voice-test-gui/src/drill.c:371-411 | without a current sentence nothing changes and 0 is returned; otherwise the last diff is `DiffOf` the target and the answer, 1 is returned exactly for a match, and the answer is kept cut to 255 bytes |
| Drill.DrillState.RecordAttempt | clients/voice-test-gui/src/drill.c:413-428 | without a current sentence nothing changes; otherwise only that sentence's counters are bumped and the session totals count the attempt |
| DrillText.StripStart | clients/voice-test-gui/src/drill.c:107 | the start moves past exactly the leading strip code points |
| DrillText.StripEnd | clients/voice-test-gui/src/drill.c:108 | the end moves before exactly the trailing strip code points, never below the start |
| DrillText.StrippedSlice | clients/voice-test-gui/src/drill.c:104-114 | the stripped sequence is a contiguous slice with only strip code points cut on either side, and starts and ends with a kept one |
| DrillText.StrippedIdempotent | clients/voice-test-gui/src/drill.c:104-114 | stripping twice strips nothing more |
| DrillText.ShiftDown | clients/voice-test-gui/src/drill.c:109-112 | the kept slice moves to the front and the rest of the array is untouched |
| DrillText.StripCodepoints | clients/voice-test-gui/src/drill.c:104-114 | strip_codepoints leaves `Stripped` of the first count code points in place and returns its length; the rest of the array is untouched |
| DrillText.TrimBounds | clients/voice-test-gui/src/drill.c:106-108 | the two scans bound exactly the stripped slice |
| DrillText.HomophonesMatch | clients/voice-test-gui/src/drill.c:147-159 | the table scan answers true exactly when the two are equal or share a homophone group |
| DrillText.SameSoundReflexive | clients/voice-test-gui/src/drill.c:149 | every character sounds like itself |
| DrillText.SameSoundSymmetric | clients/voice-test-gui/src/drill.c:150-157 | the relation does not depend on the order of its arguments |
| Utf8.LeadLength | clients/voice-test-gui/src/drill.c:16-39 | a lead byte announces at most 4 bytes |
| Utf8.NextCp | clients/voice-test-gui/src/drill.c:11-40 | at most 4 bytes are consumed, none exactly at the terminator, where the code point is 0 |
| Utf8.NextCpShape | clients/voice-test-gui/src/drill.c:16-39 | a multi-byte result is a whole sequence of the announced length; a byte that cannot lead or a lead without its continuations yields U+FFFD and consumes one byte |
| Utf8.Cont | clients/voice-test-gui/src/drill.c:52-64 | every byte after the lead is a continuation byte |
| Utf8.EncodeCp | clients/voice-test-gui/src/drill.c:43-66 | the encoding has 1, 2, 3 or 4 bytes below 0x80, 0x800, 0x10000, and above |
| Utf8.CpToUtf8 | clients/voice-test-gui/src/drill.c:43-66 | cp_to_utf8 writes `EncodeCp` at the start of the buffer, returns its length and leaves the rest alone |
| Utf8.DecodeEncode | clients/voice-test-gui/src/drill.c:11-66 | decoding what cp_to_utf8 wrote for a scalar value gives the value back and consumes exactly the bytes written |
| Utf8.Codepoints | clients/voice-test-gui/src/drill.c:69-81 | no more than max code points are decoded |
| Utf8.CodepointsStopAtNul | clients/voice-test-gui/src/drill.c:73 | decoding stops at the first NUL: only the C string counts |
| Utf8.Utf8ToCodepoints | clients/voice-test-gui/src/drill.c:69-81 | utf8_to_codepoints fills the array with `Codepoints` of the string and leaves the rest alone |
| Base64.DecodeValue | clients/voice-test-gui/src/main.c:555-572 | a symbol's value is -1 or one of the 64 sextet values |
| Base64.Symbol | clients/voice-test-gui/src/main.c:555-572 | the table inverts the RFC 4648 alphabet: every sextet's symbol decodes to it, and none is `=` |
| Base64.Triple | clients/voice-test-gui/src/main.c:591-593 | a group assembles a 24-bit value |
| Base64.GroupBytes | clients/voice-test-gui/src/main.c:594-596 | a group yields one to three bytes |
| Base64.Put | clients/voice-test-gui/src/main.c:594-596 | appends only extend the output and never past its allocated size |
| Base64.DecodeFrom | clients/voice-test-gui/src/main.c:585-597 | a successful group loop only extends the output, within the allocated size |
| Base64.Base64Decode | clients/voice-test-gui/src/main.c:574-600 | base64_decode returns `Decode` of its input |
| Base64.DecodeGroups | clients/voice-test-gui/src/main.c:584-599 | the group loop computes `DecodeFrom` from the start into the allocated size |
| Base64.DecodeGroup | clients/voice-test-gui/src/main.c:586-596 | one turn either fails the whole decode (an invalid first or second symbol) or continues from the next group with the capped appends done |
| Base64.PutGroup | clients/voice-test-gui/src/main.c:594-596 | the three guarded stores are one capped append of the group's bytes |
| Base64.DecodeBound | clients/voice-test-gui/src/main.c:579-581 | the output never exceeds three bytes per complete group less the padding |
| Base64.DecodeFromFails | clients/voice-test-gui/src/main.c:590 | from a group boundary the loop fails exactly when some later group starts with an invalid symbol |
| Base64.DecodeFailsExactly | clients/voice-test-gui/src/main.c:579-590 | NULL is returned exactly when the padded size announces no bytes or some group has an invalid first or second symbol |
| Base64.GroupRoundTrip | clients/voice-test-gui/src/main.c:591-596 | the sextets RFC 4648 encodes a group of one to three bytes into decode back to those bytes |
| Base64.DecodeFromEncode | clients/voice-test-gui/src/main.c:585-597 | the group loop over the symbols of an encoding appends exactly the encoded bytes when they fit |
| Base64.DecodeEncode | clients/voice-test-gui/src/main.c:574-600 | decoding the RFC 4648 encoding of non-empty bytes gives them back |
| Base64.EncodeOutSize | clients/voice-test-gui/src/main.c:576-579 | the size computed from the padding of an encoding is exactly the number of bytes it encodes |
| Base64.SextPad | clients/voice-test-gui/src/main.c:577-578 | the last group of an encoding has as many `=` positions as bytes it lacks |
| Base64.DecodeEmpty | clients/voice-test-gui/src/main.c:579-580 | the empty string decodes to NULL |
| JsonText.EscapeChar | clients/voice-test-gui/src/main.c:1553-1567 | an escaped char takes two bytes, any other one |
| JsonText.Escape | clients/voice-test-gui/src/main.c:1549-1571 | an escape is between one and two times as long as its input |
| JsonText.EscapeAppend | clients/voice-test-gui/src/main.c:1551-1568 | escaping is char by char: the escape of a concatenation is the concatenation of the escapes |
| JsonText.EscapeStop | clients/voice-test-gui/src/main.c:1551 | the loop stops at the end of the input or at the first prefix whose escape leaves no more than two bytes of room |
| JsonText.JsonEscape | clients/voice-test-gui/src/main.c:1549-1571 | json_escape writes the escape of the longest prefix its guard admits and returns its length, which leaves room for the terminator |
| JsonText.EscapePrefixGrows | clients/voice-test-gui/src/main.c:1551-1568 | each further input char adds at least one byte of escape |
| JsonText.EscapeComplete | clients/voice-test-gui/src/main.c:1551 | the whole input is escaped exactly when it is empty or the escape of all but its last char leaves more than two bytes of room |
| JsonText.UnescapeLoop | clients/voice-test-gui/src/main.c:1625-1643 | the copy loop computes `UnescapeFrom` |
| JsonText.UnescapeBound | clients/voice-test-gui/src/main.c:1626 | the copy never exceeds size - 1 bytes and writes at most one byte per input byte |
| JsonText.UnescapeEscape | clients/voice-test-gui/src/main.c:1626-1642 | reading back the escape of a NUL-free text followed by a closing quote yields exactly the text, given room |
| JsonText.UnescapeChar | clients/voice-test-gui/src/main.c:1627-1640 | the escape of one non-NUL char reads back as that char |
| JsonText.SkipBlanks | clients/voice-test-gui/src/main.c:1616 | the skip passes exactly the spaces, tabs, newlines and carriage returns |
| JsonText.LlmParse | clients/voice-test-gui/src/main.c:1606-1645 | an error return carries no text |
| JsonText.ValueAt | clients/voice-test-gui/src/main.c:1617-1644 | an error return carries no text |
| JsonText.FindContent | clients/voice-test-gui/src/main.c:1608-1616 | the key search and blank skip compute where the content value starts, -1 when a search fails |
| JsonText.LlmParseResponse | clients/voice-test-gui/src/main.c:1606-1645 | llm_parse_response returns `LlmParse` of its input |
| JsonText.LlmParseBound | clients/voice-test-gui/src/main.c:1626-1644 | a successful return is the length of the text, which fits the buffer with its terminator |
| JsonText.LlmParseEscaped | clients/voice-test-gui/src/main.c:1606-1645 | a content value written by json_escape as a quoted string parses back to the text it escaped |
| JsonText.LlmParseNull | clients/voice-test-gui/src/main.c:1617-1620 | a null content is an empty reply with return 0, not an error |
| LlmHistory.Stored | clients/voice-test-gui/src/main.c:1542-1545 | a stored message keeps a prefix of its role under 16 bytes and a prefix of its content under 4096 bytes |
| LlmHistory.Newest | clients/voice-test-gui/src/main.c:1535-1541 | the history holds the newest 20 messages: all of them when there are no more |
| LlmHistory.ReplayNewest | clients/voice-test-gui/src/main.c:1534-1546 | whatever sequence of appends arrives, the history holds the newest 20 messages of everything appended since it was last cleared |
| LlmHistory.NewestConcat | clients/voice-test-gui/src/main.c:1535-1540 | dropping the oldest messages early never changes which ones are newest later |
| LlmHistory.History.constructor | clients/voice-test-gui/src/main.c:1530-1532 | the history starts empty |
| LlmHistory.History.Clear | clients/voice-test-gui/src/main.c:1530-1532 | llm_history_clear empties the history |
| LlmHistory.History.DropOldest | clients/voice-test-gui/src/main.c:1535-1540 | the shift drops the oldest message of a full history and keeps the others in order |
| LlmHistory.History.Append | clients/voice-test-gui/src/main.c:1534-1546 | llm_history_append leaves the newest 20 of the old messages plus the new one, stored in its fixed fields |
| Fnv.FeedAppend | clients/voice-test-gui/src/main.c:984 | hashing a concatenation is hashing its parts in turn |
| Fnv.HashCString | clients/voice-test-gui/src/main.c:982-986 | fnv1a returns the FNV-1a hash of the bytes before the terminator, with 32-bit wrap-around |
| Fnv.KnownVectors | clients/voice-test-gui/src/main.c:983-984 | the offset basis and prime give the published hashes of "" (0x811C9DC5) and "a" (0xE40C292C) |
| CjkStrip.WholeWithin | clients/voice-test-gui/src/main.c:1870-1881 | a whole sequence lies inside the C string and decodes with the length its lead byte announces |
| CjkStrip.Skip | clients/voice-test-gui/src/main.c:1874-1889 | the first pass always moves forward, and never past the terminator |
| CjkStrip.Head | clients/voice-test-gui/src/main.c:1885-1888 | the bytes written for one step come from the bytes it passes and hold no NUL |
| CjkStrip.Filter | clients/voice-test-gui/src/main.c:1866-1891 | the first pass writes no more than it reads and no NUL |
| CjkStrip.FilterKept | clients/voice-test-gui/src/main.c:1866-1890 | the first pass yields whole sequences of code points outside U+3000..U+9FFF and U+FF00..U+FF60 only |
| CjkStrip.KeptFixed | clients/voice-test-gui/src/main.c:1866-1890 | text made of whole kept sequences passes the first pass unchanged |
| CjkStrip.FilterIdempotent | clients/voice-test-gui/src/main.c:1866-1891 | running the first pass again changes nothing |
| CjkStrip.AccDecodes | clients/voice-test-gui/src/main.c:1870-1880 | the decoding loop's accumulated value is the code point of the sequence |
| CjkStrip.DecodeAt | clients/voice-test-gui/src/main.c:1870-1881 | the step is valid exactly at a whole sequence, with its length and code point |
| CjkStrip.FilterStep | clients/voice-test-gui/src/main.c:1867-1889 | one step writes what it keeps after the bytes written so far and moves on |
| CjkStrip.FilterPass | clients/voice-test-gui/src/main.c:1864-1891 | the first pass writes `Filter` of the text and its terminator |
| CjkStrip.CollapseFrom | clients/voice-test-gui/src/main.c:1894-1905 | the second pass writes no more than it reads |
| CjkStrip.CollapseNoRuns | clients/voice-test-gui/src/main.c:1894-1905 | the second pass leaves no tab and no two spaces in a row |
| CjkStrip.CollapseKeepsText | clients/voice-test-gui/src/main.c:1899-1901 | the second pass keeps every byte that is not a space or tab, in order |
| CjkStrip.CollapseFixed | clients/voice-test-gui/src/main.c:1894-1905 | text without tabs or double spaces passes the second pass unchanged |
| CjkStrip.CollapseIdempotent | clients/voice-test-gui/src/main.c:1894-1905 | running the second pass again changes nothing |
| CjkStrip.CollapsePass | clients/voice-test-gui/src/main.c:1894-1905 | the in-place second pass leaves `Collapse` of the buffer and its terminator |
| CjkStrip.CollapseSolid | clients/voice-test-gui/src/main.c:1899-1901 | a run of bytes without blanks passes the second pass as it is |
| CjkStrip.CollapseNonZero | clients/voice-test-gui/src/main.c:1894-1905 | the second pass writes no zero byte into a text that has none |
| CjkStrip.CollapseKept | clients/voice-test-gui/src/main.c:1894-1905 | the second pass keeps whole kept sequences whole, so its output holds no CJK code point either |
| CjkStrip.StripCjk | clients/voice-test-gui/src/main.c:1858-1907 | strip_cjk returns a buffer of strlen + 1 bytes holding `StripCjkText` and its terminator |
| CjkStrip.StripCjkFacts | clients/voice-test-gui/src/main.c:1856-1857 | the result holds no CJK code point and is itself made of whole kept sequences, only blanks change between the passes, no tab or double space survives, and stripping the result again changes nothing |
| Bytes.Int32 | clients/voice-test-gui/src/main.c:891 | a C `int` holds a value in its 32-bit range, unchanged when it fits |
| WavHeader.Next | clients/voice-test-gui/src/main.c:908-909 | the next chunk starts after this chunk's header and body, plus one pad byte for an odd size |
| WavHeader.WavParseHeader | clients/voice-test-gui/src/main.c:878-912 | wav_parse_header returns 0 exactly when the as-written parse succeeds, with its sample region and rate |
| WavHeader.ScanInBounds | clients/voice-test-gui/src/main.c:888-910 | with an exact bound check a returned sample region lies inside the buffer |
| WavHeader.ParseInBounds | clients/voice-test-gui/src/main.c:880-912 | with an exact bound check a successful parse points inside the buffer, after the RIFF header and a chunk header |
| WavHeader.ParseOverflow | clients/voice-test-gui/src/main.c:891 | as written, a 44-byte file with a data chunk declaring 0x7FFFFFFF bytes is accepted with 0x3FFFFFFF samples past its end; the exact check rejects it |
| AsrParse.QuoteEnd | shared/asr_client.c:115-116 | the end scan as written stops at the terminator or at the first quote whose preceding byte is not a backslash |
| AsrParse.StringEnd | shared/asr_client.c:115-116 | the escape-aware end scan stops at a quote or the terminator |
| AsrParse.UnescapeAt | shared/asr_client.c:121-137 | the unescape loop writes at most one byte per byte of the cut value |
| AsrParse.TextStart | shared/asr_client.c:110-114 | the value starts just inside the text, or is missing (-1) |
| AsrParse.Zeros | shared/asr_client.c:169 | the calloc'ed array holds count zero stamps |
| AsrParse.NextObject | shared/asr_client.c:174-177 | a found object is a `{` and the first `}` after it, inside the reply |
| AsrParse.StampsFrom | shared/asr_client.c:173-188 | the object loop fills exactly the entries it was given |
| AsrParse.WordsStart | shared/asr_client.c:156-158 | the array starts inside the reply, or is missing (-1) |
| AsrParse.Words | shared/asr_client.c:156-192 | a words array yields exactly one stamp per `{` before its first `]` |
| AsrParse.ScanEnd | shared/asr_client.c:115-116 | the end scan loop computes `QuoteEnd` |
| AsrParse.UnescapeValue | shared/asr_client.c:121-137 | the unescape loop computes `UnescapeAt` |
| AsrParse.Count | shared/asr_client.c:161-166 | the count loop counts the `{` up to the first `]` or the terminator |
| AsrParse.ReadObjects | shared/asr_client.c:168-189 | the object loop yields `StampsFrom` the array start, leaving calloc's zeros where it stops early |
| AsrParse.ReadNext | shared/asr_client.c:174-187 | one trip finds the next object exactly when both braces exist, reads its stamp and moves past its `}` |
| AsrParse.StampsStop | shared/asr_client.c:175-177 | a missing brace ends the loop and the rest of the entries stay zero |
| AsrParse.StampsStep | shared/asr_client.c:174-187 | one trip of the loop reads one stamp and goes on after the object |
| AsrParse.ReadText | shared/asr_client.c:109-140 | the text part computes the as-written `TextWith` |
| AsrParse.AsrParseResponse | shared/asr_client.c:103-195 | asr_parse_response returns `ParseAsWritten` (text, stamps, pass kind) |
| AsrParse.ReadWords | shared/asr_client.c:155-192 | the words part computes `Words` |
| AsrParse.StringEndEscape | shared/asr_client.c:115-116 | the escape-aware scan stops exactly at the quote that closes an escaped NUL-free value |
| AsrParse.UnescapeAtEscape | shared/asr_client.c:121-137 | unescaping a JSON escape gives the text back |
| AsrParse.TextStartOpen | shared/asr_client.c:110-114 | after `{"text":"` the value starts at byte 9 |
| AsrParse.TextRoundTrip | shared/asr_client.c:109-140 | with the escape-aware end scan any NUL-free text the backend escapes is read back exactly |
| AsrParse.TextEndCounterexample | shared/asr_client.c:116 | as written, `{"text":"C:\\"}` reads as `C:\"}`: the scan runs past the closing quote |
| AsrParse.TextEndEscapeAware | shared/asr_client.c:116 | the escape-aware scan reads the same reply as `C:\` |
| AsrWav.TruncToward0 | shared/asr_client.c:47 | the cast truncates toward zero for both signs |
| AsrWav.ToPcm | shared/asr_client.c:44-47 | a converted sample lies in -32767..32767, at the ends for inputs beyond full scale |
| AsrWav.ToPcmOdd | shared/asr_client.c:44-47 | the conversion is symmetric around zero |
| AsrWav.ToPcmMonotone | shared/asr_client.c:44-47 | the conversion keeps the order of the samples |
| AsrWav.Pcm | shared/asr_client.c:43-48 | every sample is converted, in order, to a 16-bit value |
| AsrWav.HeaderFor | shared/asr_client.c:22-39 | the header is 44 bytes |
| AsrWav.PcmBytes | shared/asr_client.c:42-48 | the body has two bytes per sample |
| AsrWav.Encoded | shared/asr_client.c:16-52 | the file is 44 bytes plus two per sample |
| AsrWav.EncodeWav | shared/asr_client.c:16-52 | asr_encode_wav returns a fresh buffer holding `Encoded` of the converted samples |
| AsrWav.WriteSamples | shared/asr_client.c:42-48 | the conversion loop stores every converted sample after the 44 header bytes, which it leaves alone |
| AsrWav.PcmRoundTrip | shared/asr_client.c:42-47 | sample k of the body is its little-endian 16-bit field at byte 2k |
| AsrWav.SamplesRoundTrip | shared/asr_client.c:42-47 | every sample of the file reads back as the value written |
| AsrWav.HeaderFields | shared/asr_client.c:22-39 | the header's tags and fields read back as written: sizes 36 + 2n and 2n, PCM, mono, 16000 Hz, 32000 bytes/s, block 2, 16 bits |
| AsrWav.FileFields | shared/asr_client.c:22-39 | a file starting with that header carries its fields |
| AsrWav.EncodedParses | shared/asr_client.c:16-52 | the GUI's header parser, as written and with the exact check, accepts what the client writes: samples at 44, all of them, 16 kHz |
| AsrWav.ScanEncoded | shared/asr_client.c:28-39 | the chunk walk over an encoded file finds the fmt chunk at 12 and the data chunk at 36 |
| Multipart.Digits | shared/asr_client.c:61 | the decimal digits of a number are one or more ASCII digits |
| Multipart.Decimal | shared/asr_client.c:61 | `%lld` prints a C string without NUL |
| Multipart.DigitsLength | shared/asr_client.c:61 | a number below 10^k prints in at most k digits |
| Multipart.Boundary | shared/asr_client.c:58-61 | the boundary snprintf leaves a C string shorter than its buffer |
| Multipart.BoundaryFits | shared/asr_client.c:61 | any 64-bit counter value fits the 64-byte boundary buffer whole: `----AsrClient` and its decimal, at most 33 bytes |
| Multipart.TextFieldIsPart | shared/asr_client.c:80-93 | each text field's snprintf is one RFC 2046 body part: delimiter, disposition header, blank line, value, CRLF |
| Multipart.FileHeadIsPart | shared/asr_client.c:71-77 | the file part's header, the WAV and the CRLF after it form one body part with its file name and content type |
| Multipart.BodyIsFormData | shared/asr_client.c:198-238 | the body is exactly the multipart/form-data encoding (section 5.1.1 of RFC 2046) of the file, the format and the non-empty language and prompt, closed by the final delimiter |
| Multipart.OptionalIsPart | shared/asr_client.c:224-231 | an optional field is present only when its value is not empty |
| Multipart.WavEmbedded | shared/asr_client.c:214-218 | the WAV file sits unchanged right after the file part's header |
| Multipart.BodyLength | shared/asr_client.c:207-233 | the body's length is the WAV and the values plus a fixed overhead per part and per boundary |
| Multipart.Emit | shared/asr_client.c:212 | an snprintf that fits writes its text and NUL at pos and moves pos past the text |
| Multipart.Copy | shared/asr_client.c:217 | the memcpy places the WAV at pos |
| Multipart.AppendAll | shared/asr_client.c:214-233 | the appends leave exactly the pieces in order when the body fits |
| Multipart.AppendBody | shared/asr_client.c:214-233 | the appends leave exactly `Body` in the buffer when it fits |
| Multipart.BuildMultipartFmt | shared/asr_client.c:198-238 | build_multipart_fmt returns the boundary from the counter and a buffer holding `Body`, when that fits the WAV size plus 2048 |
| Multipart.BuildMultipart | shared/asr_client.c:54-101 | asr_build_multipart is the same body with the format `verbose_json` |
| Multipart.PromptOverflow | shared/asr_client.c:64-93 | with a 2000-byte prompt no WAV's body fits the WAV size plus 2048, so the last snprintf is cut short |
| Multipart.SizedFits | shared/asr_client.c:207 | a buffer of the slack plus the three strings' lengths always holds the body and its NUL |
| Multipart.BuildMultipartSized | shared/asr_client.c:198-238 | with that buffer size the body is built whole for any inputs |
| SseEvents.KeyNumber | shared/asr_client.c:273-279 | a number whose key is absent is 0 |
| SseEvents.TokenEvent | shared/asr_client.c:241-282 | there is a token event exactly when the value start is found |
| SseEvents.TokenStart | shared/asr_client.c:246-252 | the token value starts inside the payload, or is missing (-1) |
| SseEvents.TokenText | shared/asr_client.c:249-271 | the token text exists exactly when the value start is found |
| SseEvents.ParseTokenEvent | shared/asr_client.c:241-282 | sse_parse_token_event returns 1 exactly for a token event, with its text and numbers |
| SseEvents.TokenEventKey | shared/asr_client.c:246-251 | without a `"token"` key there is no token event; with one there is one exactly when a quote follows the key |
| SseEvents.TokenBound | shared/asr_client.c:254 | the token text fits its buffer with its terminator |
| SseEvents.TokenStartOpen | shared/asr_client.c:246-252 | after `{"token":"` the value starts at byte 10 |
| SseEvents.TokenRoundTrip | shared/asr_client.c:249-271 | a NUL-free token the server escapes into an event is handed on exactly, when it fits the buffer |
| SseEvents.TokenValueAt | shared/asr_client.c:253-271 | an escaped token at byte 10 closed by a quote unescapes back to the token |
| SseEvents.StripCr | shared/asr_client.c:457-459 | at most one trailing carriage return is dropped |
| SseEvents.Payload | shared/asr_client.c:461-463 | a payload is non-empty and follows the 6-byte `data: ` prefix |
| SseEvents.Dispatch | shared/asr_client.c:455-485 | a complete line always empties the line buffer |
| SseEvents.ConsumeAppend | shared/asr_client.c:441-491 | chunk boundaries do not matter: reading a then b is reading a + b |
| SseEvents.Kept | shared/asr_client.c:487-488 | the line buffer keeps a prefix of the line under 4096 bytes |
| SseEvents.ConsumeLine | shared/asr_client.c:486-489 | bytes without a newline only fill the line buffer, up to its capacity |
| SseEvents.DispatchLine | shared/asr_client.c:461-483 | a complete line changes the stored done payload and the callback's calls as its own kind says |
| SseEvents.ReadWholeLines | shared/asr_client.c:453-490 | reading whole lines leaves the buffer empty, the last done payload stored and the token events passed on in order |
| SseEvents.ReadStream | shared/asr_client.c:441-495 | however the stream is chunked, the done payload is the last done line's, the callback sees exactly the token lines in order, and an unfinished last line only sits in the buffer |
| SseEvents.DoneFits | shared/asr_client.c:467 | the size check on a done payload never drops one: a kept line is shorter than the done buffer |
| SseEvents.DoneNotToken | shared/asr_client.c:465-473 | a done payload is never passed to the callback and replaces the stored one |
| SseEvents.SseReader.constructor | shared/asr_client.c:435-439 | the reader starts with an empty line buffer, no done payload and no tokens |
| SseEvents.SseReader.Push | shared/asr_client.c:454-489 | one byte updates the reader as `Step` says |
| SseEvents.SseReader.Feed | shared/asr_client.c:453-490 | one chunk updates the reader as `Consume` says |
| SseEvents.SseReader.Finish | shared/asr_client.c:493-495 | the stream yields a result exactly when a done event arrived, parsed from its payload |
| TtsText.TrimLeft | clients/tts-narrator/tts_narrator.py:37 | the result is a suffix whose dropped prefix is all whitespace and which starts with a non-space |
| TtsText.TrimRight | clients/tts-narrator/tts_narrator.py:37 | the result is a prefix whose dropped suffix is all whitespace and which ends with a non-space |
| TtsText.Strip | clients/tts-narrator/tts_narrator.py:37 | `str.strip()` is empty exactly for blank text and otherwise starts and ends with a non-space |
| TtsText.Collapse | clients/tts-narrator/tts_narrator.py:37 | collapsing whitespace runs keeps emptiness and the first character, or turns a leading run into one space |
| TtsText.CollapseSpaces | clients/tts-narrator/tts_narrator.py:37 | after `re.sub(r'\s+', ' ', ...)` every whitespace is a single space followed by a non-space |
| TtsText.CollapseLast | clients/tts-narrator/tts_narrator.py:37 | a non-space last character survives collapsing |
| TtsText.Normalize | clients/tts-narrator/tts_narrator.py:37-40 | the normalized text is empty exactly when the input is blank, so blank text gives no sentences |
| TtsText.NormalizeShape | clients/tts-narrator/tts_narrator.py:37 | the normalized text has no whitespace at its ends and only single spaces inside |
| TtsText.PunctEnd | clients/tts-narrator/tts_narrator.py:45 | the end of the maximal `[.!?]+` run starting at p |
| TtsText.SpaceEnd | clients/tts-narrator/tts_narrator.py:45 | the end of the maximal `\s+` run starting at p |
| TtsText.SplitFrom | clients/tts-narrator/tts_narrator.py:47 | `re.split` with one capture group returns an odd number of parts: text, punctuation, ..., text |
| TtsText.SplitSentences | clients/tts-narrator/tts_narrator.py:30-61 | split_sentences computes `Sentences`: normalize, split, reassemble |
| TtsText.ReassembleParts | clients/tts-narrator/tts_narrator.py:50-59 | the while loop over the parts computes `Assemble` |
| TtsText.AssembleAt | clients/tts-narrator/tts_narrator.py:52-59 | one turn of the loop: a text part followed by a punctuation part makes one sentence and skips two; otherwise a non-blank part is kept alone |
| TtsText.SentenceCons | clients/tts-narrator/tts_narrator.py:54 | a sentence closed by punctuation put in front keeps every sentence but the last ended by punctuation |
| TtsText.SplitJoin | clients/tts-narrator/tts_narrator.py:47-59 | from a segment starting with a non-space the sentences are non-empty, join with spaces back to the rest of the text, and all but the last end in punctuation |
| TtsText.SentenceEndShape | clients/tts-narrator/tts_narrator.py:45 | in normalized text a sentence end is the punctuation run, exactly one space and a non-space |
| TtsText.SentencesJoin | clients/tts-narrator/tts_narrator.py:30-61 | split_sentences loses only whitespace: the sentences joined by spaces are the normalized text, each but the last ends in punctuation, and there are none exactly for blank text |
| TtsText.NoSplitAfterAbbreviation | clients/tts-narrator/tts_narrator.py:44-45 | no sentence ends right after `Mr`, `Mrs`, `Dr`, `Ms`, `St`, `vs`, `etc`, `Inc` or `Ltd` at a word boundary |
| TtsText.Merge | clients/tts-narrator/tts_narrator.py:64-75 | merging never adds entries and gives none exactly for no sentences |
| TtsText.MergeNext | clients/tts-narrator/tts_narrator.py:71-74 | one turn of the merge loop grows the list by at most one entry |
| TtsText.MergeShortSentences | clients/tts-narrator/tts_narrator.py:64-75 | merge_short_sentences computes `Merge` |
| TtsText.JoinGrow | clients/tts-narrator/tts_narrator.py:72 | growing the last entry by a space and s grows the joined text the same way |
| TtsText.MergeNextJoin | clients/tts-narrator/tts_narrator.py:71-74 | a merge turn adds one space and s to the joined text whichever branch it takes |
| TtsText.MergeJoin | clients/tts-narrator/tts_narrator.py:64-75 | merging keeps the text: the merged entries joined by spaces equal the sentences joined by spaces |
| TtsText.MergeNextLengths | clients/tts-narrator/tts_narrator.py:71-74 | a merge turn keeps every entry but the last at min_chars or longer |
| TtsText.MergeLengths | clients/tts-narrator/tts_narrator.py:64-75 | every merged entry but the last has at least min_chars characters |
| TtsText.SeparatorEnd | clients/tts-narrator/tts_narrator.py:87 | a clause separator found at p ends after p and inside the sentence |
| TtsText.ClausesConcat | clients/tts-narrator/tts_narrator.py:87 | the clause parts and separators concatenate back to the sentence |
| TtsText.Stripped | clients/tts-narrator/tts_narrator.py:91-96 | stripping every group keeps their number |
| TtsText.PackClauses | clients/tts-narrator/tts_narrator.py:87-96 | the packing loop for one long sentence computes `LongPieces` |
| TtsText.SplitLongSentences | clients/tts-narrator/tts_narrator.py:78-98 | split_long_sentences computes `SplitLong` |
| TtsText.ShortUnchanged | clients/tts-narrator/tts_narrator.py:82-84 | sentences of at most max_chars pass through unchanged and in order |
| TtsText.PackConcat | clients/tts-narrator/tts_narrator.py:88-94 | the greedy packing loses nothing: the groups concatenate to the parts |
| TtsText.PackBound | clients/tts-narrator/tts_narrator.py:88-94 | every group fits max_chars unless it is a single part on its own |
| TtsText.LongPieceBound | clients/tts-narrator/tts_narrator.py:87-96 | every piece of a long sentence fits max_chars unless it is one stripped clause part longer than that |
| TtsText.LongGroupsConcat | clients/tts-narrator/tts_narrator.py:87-94 | before stripping, the groups of a long sentence concatenate back to the sentence |
| TtsText.ChunkText | clients/tts-narrator/tts_narrator.py:101-106 | chunk_text computes `Chunks`: split, then split long, then merge short |
| TtsText.ChunksShape | clients/tts-narrator/tts_narrator.py:101-106 | blank text gives no chunks and every chunk but the last has at least min_chars |
| TtsText.ChunksOfShortText | clients/tts-narrator/tts_narrator.py:101-106 | when no sentence exceeds max_chars the chunks joined by spaces are the normalized text |
| TtsWav.Header | clients/tts-narrator/tts_narrator.py:148-168 | the header is 44 bytes |
| TtsWav.MakeWavHeader | clients/tts-narrator/tts_narrator.py:148-168 | make_wav_header succeeds exactly when every field fits its `struct.pack` format, and then returns `Header` |
| TtsWav.FindData | clients/tts-narrator/tts_narrator.py:141 | `bytes.index(b'data')` returns the first index of the tag, or fails when there is none |
| TtsWav.FindDataAt | clients/tts-narrator/tts_narrator.py:141 | a tag at k bounds the search, and is found when no tag comes before it |
| TtsWav.ParseWav | clients/tts-narrator/tts_narrator.py:131-145 | parse_wav succeeds only on RIFF/WAVE magic and a length covering the fields, and returns the rate, channels and bits read at 24, 22 and 34 |
| TtsWav.HeaderFields | clients/tts-narrator/tts_narrator.py:150-167 | every field of the header reads back as the value packed: the sizes, the PCM format, channels, rate, byte rate, block align, bits and the data size |
| TtsWav.ParseMade | clients/tts-narrator/tts_narrator.py:131-168 | parsing a made header followed by its PCM data gives the fields and exactly that data back, when no earlier field packs the bytes `data` |
| TtsWav.ParseFollowed | clients/tts-narrator/tts_narrator.py:131-145 | any 44-byte header with these fields and no earlier `data` tag, followed by the PCM data, parses back to them |
| TtsWav.RateLooksLikeData | clients/tts-narrator/tts_narrator.py:141 | the sample rate 0x61746164 packs the bytes `data` at 24, and the search stops there rather than at the data chunk |
| TtsWav.TagInRate | clients/tts-narrator/tts_narrator.py:136-141 | a rate field reading 0x61746164 is taken for the data tag |
| TtsWav.Silence | clients/tts-narrator/tts_narrator.py:171-175 | the silence is all zero bytes, n_samples * n_channels * (bits // 8) of them, none for a non-positive count |
| TtsWav.SilenceFrames | clients/tts-narrator/tts_narrator.py:171-175 | for whole-byte samples the silence is a whole number of frames of the header's block align |
| Bytes.CLength | clients/voice-test-gui/src/main.c:1860 | `strlen` counts the bytes before the first NUL, and the NUL stops it |
| Bytes.U16OfLE16 | shared/asr_client.c:24-39 | a 16-bit field written little-endian reads back as the value written |
| Bytes.U32OfLE32 | shared/asr_client.c:24-39 | a 32-bit field written little-endian reads back as the value written |
| Bytes.I16OfS16 | shared/asr_client.c:42-47 | a signed 16-bit sample stored in two's complement reads back as the value |
| Bytes.I32OfLE32 | shared/asr_client.c:24-39 | a 32-bit field below 2^31 reads back as the same signed value |
| CStrings.Find | shared/asr_client.c:110 | `strstr` returns -1 or an index at or after the start where the pattern occurs |
| CStrings.FindFirst | shared/asr_client.c:110 | `strstr` finds the first occurrence, and fails only when there is none |
| CStrings.FindChar | shared/asr_client.c:250 | `strchr` finds the first occurrence of the byte, and fails only when there is none |
| CStrings.Truncate | clients/voice-test-gui/src/drill.c:204-209 | `strncpy` into an n-byte field keeps the whole string when it fits and otherwise its first n - 1 bytes |

## Left out

- The Win32 window, painting, layout, clipboard and chat display, and all of `clients/voice-test-gui/src/drill_render.c`: these are UI code with no engine state.
- Threads and their synchronisation: the engine is modelled as events handled one at a time on the UI thread. `transcribing` and `wantFinal` stand for the only concurrency contract, which is one pass in flight.
- Network transport: the WinHTTP calls of `asr_transcribe` and `asr_transcribe_stream`, the language-model and pipe clients, and the narrator's `synthesize_chunk`. A backend answer is an input `Pass` value, and the chunks the connection yields are the arguments of `SseEvents.SseReader.Feed`.
- Allocation failures (`malloc`, `calloc`, `CreateThread`): every allocation is taken to succeed.
- Floating point:
  - the sample conversion of `add_audio_samples`, where the recording is a count of samples;
  - the energy and VAD code;
  - the perf fields and `atof` in `asr_parse_response` (`shared/asr_client.c:142-153`);
  - the narrator's seconds and the `make_silence` duration, where the number of samples is a parameter of `TtsWav.Silence`;
  - Python's `int()` of that float.
- AsrWav: the float-to-`short` PCM conversion uses real arithmetic, so single-precision rounding of `s * 32767.0f` is not modelled.
- Headless: the simulated clock is kept in samples instead of floating-point seconds.
- The pronunciation drill's weighted random selection (`drill_advance`) and its progress file load and save: they rely on `rand`, doubles and file I/O.
- Logging, WAV saving, the grouping disk cache, the registry and the system queries: these are I/O only.
- `llm_build_request_json` is not part of this model. Only the history it reads (`LlmHistory`) and the escape it uses (`JsonText.JsonEscape`) are modelled.
- The never-called `update_stability`, `find_stable_sentence_end` and `trim_whitespace`.
- The `result_len > 0 && g_stable_len == 0` branch of the final pass: `g_stable_len` is always 0 there (`clients/voice-test-gui/src/main.c:4245-4249`).
- The headless `break` at `clients/voice-test-headless/src/main.c:384` and the branch at 422, which cannot be reached.
- The drill-mode bypass of stabilisation and the token-streaming interim display: these are UI behaviour.
- Stabilizer.ReconcileRun: requires the pass text to be shorter than 16384 bytes, because the truncating copy into `g_prev_result` and `prev_result` is not modelled. This applies to every engine and headless member that takes a pass, through `PrevCap` and `Headless.ServerFits`.
- Headless.TimestampReport: requires every token's `byte_offset` to be non-negative. The server's value comes unchecked from `atoi` (`shared/asr_client.c:182`), and the report loop (`clients/voice-test-headless/src/main.c:288-301`) does not check it either. For a negative offset, `memcpy(piece, r->text + bo, piece_len)` reads before the start of the text. That out-of-bounds read is not modelled.
- The recording flag `g_is_recording`: the engine takes events in the order the source delivers them, which is `Start`, then `AddSamples` and `Tick`, then `Stop`. The model has no recording flag, so `Engine.TickStep` and `Engine.AddSamplesStep` also accept events after `Stop`. The source cannot deliver those: the timer acts only while recording (`clients/voice-test-gui/src/main.c:4010`), and `stop_recording` kills the timer and stops capture first (`clients/voice-test-gui/src/main.c:3676-3679`).
- The timer's `g_pending_stop` branch (`clients/voice-test-gui/src/main.c:4012-4014`): only the VAD auto-stop sets that flag (`clients/voice-test-gui/src/main.c:3543`), and the VAD is left out. A VAD auto-stop is modelled as the `Stop` event (`Engine.StopStep`, `Engine.Session.Stop`). In the source it goes through the same `stop_recording` as a button press.
- Headless.Simulate: requires an interval of at least one second, because a shorter one makes the loop spin without progress (see Findings).
- Multipart.BuildMultipartFmt: requires the body and its NUL to fit the WAV size plus 2048 bytes. Past that, the `snprintf` room computation wraps around, which is undefined behaviour. `Multipart.BuildMultipart` carries the same requirement.
- WavHeader.Scan: a chunk whose wrapped bound lets it through ends the walk unless it is a data chunk. The source still parses such a fmt chunk and goes on at a wrapped, negative `pos`, which reads outside the buffer; that continuation is not modelled.
- AsrWav.EncodeWav: requires the file size `44 + 2n` to fit a C `int`.
- Drill.DrillState.LoadSentences: the bank file is taken as the sequence of lines `fgets` yields. The splitting of a line longer than 1023 bytes into several lines is not modelled.
- AsrParse: a missing `:` after a timestamp key would make `strchr` return NULL and `atoi` read from address 1. Here that field reads as 0. `atoi` overflow beyond the `int` range is not modelled.
- `JsonText` and `AsrParse`: a NUL byte inside a JSON string cannot occur in a C string, so texts are taken NUL-free where the source relies on `strlen`.
- TtsText: the regular expressions are modelled by the leftmost-match scans they perform:
  - `\b` and the abbreviation lookbehinds use ASCII word characters only;
  - `\s` is Python's `str.isspace` for the listed characters;
  - lone surrogates are not considered.
- The narrator's `main()`: argument parsing, HTTP calls and writing the output file.

## Findings

| source | as written | input that shows it | evidently intended | confidence | as-written member | corrected member |
|---|---|---|---|---|---|---|
| clients/voice-test-gui/src/main.c:891 | the chunk bound `pos + 8 + chunk_size > wav_len` is computed in a 32-bit `int` and wraps | a 44-byte file whose data chunk declares 0x7FFFFFFF bytes is accepted, with samples past the end of the buffer | reject any chunk that does not fit the buffer | not executed | WavHeader.ParseOverflow | WavHeader.ParseInBounds |
| shared/asr_client.c:116 | the text value ends at the first `"` not preceded by `\`, so an escaped backslash before the closing quote is missed | `{"text":"C:\\"}` reads as `C:\"}` | end at the first quote not inside an escape pair | not executed | AsrParse.TextEndCounterexample | AsrParse.TextEndEscapeAware |
| shared/asr_client.c:207 | the body buffer is sized as the WAV plus 2048 bytes whatever the prompt's length | a 2000-byte prompt (the GUI keeps up to 4095) overflows it for any WAV | size the buffer by the strings it will hold | not executed | Multipart.PromptOverflow | Multipart.BuildMultipartSized |
| clients/voice-test-headless/src/main.c:383-386 | with an interval under one second the first iteration takes `continue` and changes nothing | an interval of 0.5 s on a recording longer than that | every iteration advances the simulated clock | not executed | Headless.ShortIntervalSpins | Headless.SimStepProgress |
| clients/voice-test-gui/src/main.c:4412-4427 | the timestamp advance `(int)((long long)last_ms * 16000 / 1000)` is narrowed to an `int` and added to the committed count in an `int`; the headless simulator has the same code at clients/voice-test-headless/src/main.c:569-574 | a backend token before the cut at 134217728 ms (2^27) gives an advance of -2^31, and the window start becomes negative, so the next kick copies from before the recording buffer (line 3415) | keep the advance and the sum in 64 bits and never move the window start back | not executed | WindowAdvance.AdvanceWraps | WindowAdvance.WideWindowMonotone |
