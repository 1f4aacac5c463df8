# A model of the VFR radio exchange

This project models how the plugin conducts a radio exchange: the controller's state machine with
its generation counter and snapshots, the push-to-talk session that speaks the answers and retries
failed speech synthesis, and the text, byte and table algorithms both depend on. It proves what those parts
promise each other.

| file | what it holds |
|---|---|
| AtcState.dfy | the state record, what counts as a semantic change, history, snapshot and restore |
| AtcPipeline.dfy | one pilot message through guards, template answer, strict check and hooks; the per-frame checks |
| AtcMachine.dfy | the same as a class that updates the record in place, proved equal to the functions |
| AtcLifecycle.dfy | what a new flight forgets, state names, how far the history reaches |
| AtcGuard.dfy | runs of all entry points: the counter, restore, invariants, readback recognition |
| AtcFrames.dfy | what frames leave behind: undo, the correction timer, histories the accessors misread |
| AtcObligation.dfy | the pending flag and the clearance text of an owed readback, and which steps part them |
| AtcLocks.dfy | the callsign lock, and which steps leave it set in IDLE |
| AtcReplay.dfy | replay, the refused restore, repeated strict readbacks |
| AtcAnswers.dfy | what an answer says and files: runway, callsign, destination, table entry, obligations |
| AtcRefusals.dfy | which guard answers when, and with what; what passes |
| Session.dfy, SessionRuns.dfy | the push-to-talk session, and its runs: retries, restore, termination, the ATIS abort |
| SessionPlayback.dfy, SessionPilot.dfy | while the controller is heard nobody talks over, while the pilot speaks nobody gets in |
| SessionGuard.dfy | both joined: sessions driven by the state machine, the unheard answer, the retry button |
| SpokenNumbers.dfy, SpokenRoundTrip.dfy, Icao.dfy | digits, frequencies and letters, printed and parsed |
| Bzf.dfy, Readback.dfy, DigitCoverage.dfy | readback compliance, its verdict field by field, and why raw digits are always found |
| Replace.dfy, Templates.dfy, Text.dfy | substring replacement, placeholder filling, byte strings and words |
| Base64.dfy, Wav.dfy | the byte codecs |
| FlightPhase.dfy, TrafficAdvisor.dfy, LandingSequence.dfy, Logbook.dfy, LogbookFlights.dfy, Repair.dfy | the smaller automata and algorithms |

Conventions. A `string` is a sequence of bytes, one `char` per byte, as in the program: an umlaut is two
elements. Times, distances and samples are `real`. Every method that updates state is proved equal to a
function of the old state; the theorems are about those functions. Settings, rule tables, templates and the
aircraft's situation are parameters of each step and may change from step to step. A session step is given the
desk that its state-machine steps lead to; SessionRuns only asks that this obeys the counter rule, and
SessionGuard shows that every run of the state machine does. Auxiliary fields (`log`,
`syntheses`, `restores`, `answered`, `emitted`, `acks`, `flights`, `paths`) record what happened and are never
read by an operation.

Where a claim of the program's comments does not hold as stated, the code is kept, a lemma names an input that
fails it, reached from start-up where the claim is about a state, and another gives the exact condition:

- A restore undoes exactly the transmission: it also undoes what frames did while the engine waited
  (AtcFrames.FrameBeforeExchangeIsUndone), and is exact if and only if none of them fired and the airborne flag is
  back (AtcFrames.UndoIsExact, AtcFrames.FrameUnseenIff, AtcFrames.FramesUnseenIff).
- A replay after a restore gives the same answer: not when the first attempt met an airport change en route
  (AtcReplay.ReplayDiffers), since the last airport seen is not in the snapshot; exactly then
  (AtcReplay.ReplayAtOnceIff, AtcReplay.ReplayAfterRestore).
- The early exit of `was_recently_in` relies on ordered timestamps. The language-model path hands `process()` the
  time the pilot spoke, which may lie before frames already run (AtcFrames.LateSpeechHidesLanding). It is harmless
  exactly on the histories of AtcState.EarlyExitExactIff; a forward clock guarantees one (AtcState.EarlyExitIsFullScan).
- A departure clearance after the landing closes the post-landing window: not while it is the current state
  (AtcFrames.CurrentDepartureIgnored); exactly then (AtcState.WindowExactIff).
- A repeat request replays the last transmission: not one answered by a guard (AtcReplay.GuardAnswerIsNotRepeated);
  AtcReplay.RepeatReplaysIff says what it replays instead.
- One synthesis at a time: leaving the ATIS frequency during synthesis lets a second one start
  (SessionRuns.StartUpToTwoInFlight), and no other step does (SessionRuns.AbortIffCanDouble).
- The correction timer measures one stay in a state: leaving for IDLE does not reset it
  (AtcFrames.TwoShortVisitsFire); visits add up exactly (AtcFrames.VisitsAddUp),
  and AtcFrames.NextVisitIff says what is carried over in every case.
- The clearance text goes when the readback expectation resolves or the airport changes: a due correction and an
  airport change leave it on file with nothing owed (AtcObligation.CorrectionOrphansClearance,
  AtcObligation.AirportOrphansClearance), where it still judges the next readback (AtcObligation.OrphanStillJudges);
  AtcObligation.StepPartsIff and AtcObligation.RunPartsIff give the exact steps.
- The callsign lock goes on every return to IDLE together with the runway: not after corrections, guard answers and
  airport changes (AtcLocks.CorrectionsStray, AtcLocks.AirportStrays); AtcLocks.StepStraysIff and
  AtcLocks.RunStraysIff give the exact steps.
- The callsign matcher reads "fünf" as a digit: it cuts the word at its two non-ASCII bytes first (Bzf.UmlautIsCut,
  Bzf.UmlautLosesCallsign), so exactly the ASCII table words are read (Bzf.NumeralIffAscii).
- German frequencies are read back: not with a one-digit fraction (SpokenRoundTrip.GermanShortFractionLost);
  exactly the others (SpokenRoundTrip.FrequencyRoundTrip).

Digit runs, ICAO codes and recordings round-trip if and only if they respect a length limit
(SpokenRoundTrip.DigitsRoundTrip, Icao.IcaoRoundTrip, Wav.EncodeDecode); the failing inputs are those outside it.

## Model

| member | source | states |
|---|---|---|
| AtcState.NameRoundTrip | src/atc/atc_state_machine.cpp:225-282 | reading a state name back gives the state, in both departure flows |
| AtcState.TransitionTo | src/atc/atc_state_machine.cpp:300-312 | the only path that changes the state: a move to the current state is no move, any other raises the counter and logs exactly one entry, and nothing else moves; the log invariants survive |
| AtcState.TailPush | src/atc/atc_state_machine.cpp:305-308 | pushing and popping the bounded history keeps it the tail of the full log |
| AtcState.SetWasAirborne | src/atc/atc_state_machine.cpp:319-329 | writing the value already there changes nothing at all, counter included; any other write moves the counter by one and touches nothing else |
| AtcState.SetDepartureType | src/atc/atc_state_machine.cpp:350-354 | the new type is set with the counter raised; every other field is as before |
| AtcState.SetFlightIntent | src/atc/atc_state_machine.cpp:539-553 | the declared intent is latched with the counter raised, a pattern flight has no destination, and nothing else is disturbed |
| AtcState.ReleaseLocks | src/atc/atc_state_machine.cpp:520-533 | runway and callsign locks are both gone and nothing else changes but the counter |
| AtcState.SetState | src/atc/atc_state_machine.cpp:520-533 | the forced state is reached with one log entry and all pipeline guarantees; IDLE releases both locks, any other state keeps them |
| AtcState.Init | src/atc/atc_state_machine.cpp:364-400 | start-up is one counted semantic step into a sound state, IDLE or TOWER_CONTACT; but for that state and the last tower response, which survives, the record is semantically fresh |
| AtcState.Reset | src/atc/atc_state_machine.cpp:402-439 | stop and reset are one counted semantic step into a sound state that is semantically a fresh record; the correction timer survives |
| AtcState.BeginFreshFlight | src/atc/atc_state_machine.cpp:441-456 | a reposition writes nothing at all if and only if the aircraft is airborne or the dialog is beyond GROUND_CONTACT |
| AtcState.RestoreIfGen | src/atc/atc_state_machine.cpp:1202-1218 | succeeds exactly on an unchanged counter, then gives the snapshot under a counter strictly above it, and otherwise writes nothing |
| AtcState.SortedScan | src/atc/atc_state_machine.cpp:1116-1127 | on ordered timestamps the early exit finds what a full scan finds |
| AtcState.EarlyExitIsFullScan | src/atc/atc_state_machine.cpp:1116-1127 | the same for the stored history of every sound state |
| AtcState.EarlyExitExactIff | src/atc/atc_state_machine.cpp:1116-1127 | for any history the early exit answers every query like a full scan if and only if each entry has one of its state after which nothing is older |
| AtcState.WindowExactIff | src/atc/atc_state_machine.cpp:1134-1157 | the post-landing window is open as intended except exactly while a departure clearance is current and the last past one came before the landing |
| AtcPipeline.FirstMatch | src/atc/atc_state_machine.cpp:1048-1058 | rule tables are scanned in order and the first applicable rule wins |
| AtcPipeline.Scan | src/atc/atc_state_machine.cpp:1048-1058 | the scan loop finds that first match |
| AtcPipeline.LeaveAirport | src/atc/flows/crosscountry_flow.cpp:104-117 | the airport-change reset reaches IDLE with no readback owed, no runway and the pattern flow, marks the log, and leaves the clearance on file and the callsign |
| AtcPipeline.ArrivalSetsClock | src/atc/flows/crosscountry_flow.cpp:79-87 | the check sets the clock itself, so setting it before makes no difference |
| AtcPipeline.Correct | src/atc/flows/ground_operations.cpp:370-389 | a correction moves back one stage, logs it, forgets a departure flow, says so, and touches nothing else; in a state without a stage before it nothing changes |
| AtcPipeline.ApplyStateReverts | src/atc/flows/ground_operations.cpp:391-412 | same for the re-clearance revert |
| AtcPipeline.AdvisoryFlow | src/atc/flows/ground_operations.cpp:447-487 | same for the Info and Unicom answers |
| AtcPipeline.ApplyFrequencyValidity | src/atc/flows/ground_operations.cpp:518-536 | same for the frequency-validity reset |
| AtcPipeline.ApplyFrequencyCorrections | src/atc/flows/ground_operations.cpp:538-571 | same for frequency-driven advancement |
| AtcPipeline.LateGuards | src/atc/flows/ground_operations.cpp:573-684 | same for idle redirects, preconditions, the departure reset and the initial-call check |
| AtcPipeline.MidGuards | src/atc/atc_state_machine.cpp:906-970 | same for all guards between the repeat request and the template lookup, in their order |
| AtcPipeline.Guards | src/atc/atc_state_machine.cpp:879-970 | no guard, answering or passing, touches the clearance on file or the last response; every semantic change is counted |
| AtcPipeline.Candidates | src/atc/atc_state_machine.cpp:580-600 | every obligation table starts with the callsign |
| AtcPipeline.ObligationsAreIssued | src/atc/atc_state_machine.cpp:633-658 | an element is owed if and only if it is a candidate for the request and was issued in this transmission |
| AtcPipeline.BuildClearance | src/atc/atc_state_machine.cpp:606-659 | every clearance obliges the pilot to read back the callsign |
| AtcPipeline.IssuedElements | src/atc/atc_state_machine.cpp:636-657 | the filter loop computes that set of obligations |
| AtcPipeline.BuildClearanceComponents | src/atc/atc_state_machine.cpp:606-659 | the field-by-field construction computes that clearance |
| AtcPipeline.Tracked | src/atc/atc_state_machine.cpp:732-758 | closing or arming the obligation keeps the log and soundness invariants |
| AtcPipeline.LockRunway | src/atc/atc_state_machine.cpp:760-772 | outside IDLE a runway is always locked afterwards |
| AtcPipeline.LockCallsign | src/atc/atc_state_machine.cpp:774-783 | outside IDLE an empty lock takes the callsign heard, a lock that is set stays; nothing else changes, the counter only with the lock |
| AtcPipeline.MoveOn | src/atc/atc_state_machine.cpp:785-807 | the answer state is reached, counted and logged; the departure flow is decided on entering DEPARTURE_CLEARED, cross-country exactly for a VFR departure, and forgotten on leaving it |
| AtcPipeline.CloseBooks | src/atc/atc_state_machine.cpp:732-820 | after all locks and releases a runway is locked if and only if the answer does not lead to IDLE |
| AtcPipeline.NoteResponse | src/atc/atc_state_machine.cpp:834-843 | exactly the spoken answers become the repeatable response |
| AtcPipeline.Hooks | src/atc/atc_state_machine.cpp:727-843 | after the hooks exactly what the answer demands is owed; a readback or leaving the frequency settles everything; the answer is on file for a repeat request |
| AtcPipeline.StillOwed | src/atc/atc_state_machine.cpp:1007-1016 | a rejected readback re-arms the obligation and changes nothing else |
| AtcPipeline.Respond | src/atc/atc_state_machine.cpp:972-1019 | answer, strict check and hooks keep the counter rule, the log and the callsign obligation |
| AtcPipeline.Dialogue | src/atc/atc_state_machine.cpp:847-1019 | the whole pipeline keeps them |
| AtcPipeline.ApplyCorrection | src/atc/atc_state_machine.cpp:1080-1097 | an auto-correction clears the owed readback, is counted, and leaves the clearance on file and the last response |
| AtcPipeline.TickCorrection | src/atc/atc_state_machine.cpp:1067-1100 | a rule fires exactly when the time on its timer, this frame included, reaches the delay; before that nothing semantic changes |
| AtcPipeline.EarlyReturnKeepsTimer | src/atc/atc_state_machine.cpp:1039-1046 | frames in IDLE, UNICOM_ACTIVE or a state without rules leave the timer as it was |
| AtcPipeline.MessageKeepsTimer | src/atc/atc_state_machine.cpp:847-1019 | so does a pilot message |
| AtcPipeline.Disregard | src/atc/atc_state_machine.cpp:467-504 | a disregard always counts, settles every obligation and the last response, and leads to IDLE on the ground, to the pattern near the airport, else en route; airborne it keeps the runway |
| AtcMachine.AtcStateMachine.TransitionTo | src/atc/atc_state_machine.cpp:300-312 | the push-and-pop loop on the history computes AtcState.TransitionTo |
| AtcMachine.AtcStateMachine.SetWasAirborne | src/atc/atc_state_machine.cpp:319-329 | early return on an equal value, else a counted write: the specified record |
| AtcMachine.AtcStateMachine.ReleaseLocks | src/atc/atc_state_machine.cpp:809-820 | the new record is the specified one |
| AtcMachine.AtcStateMachine.SetState | src/atc/atc_state_machine.cpp:520-533 | the new record is the specified one |
| AtcMachine.AtcStateMachine.Sweep | src/atc/atc_state_machine.cpp:373-388 | the common field sweep of the lifecycle calls clears everything but the last response and the correction timer |
| AtcMachine.AtcStateMachine.Init | src/atc/atc_state_machine.cpp:364-400 | start-up in place |
| AtcMachine.AtcStateMachine.Stop | src/atc/atc_state_machine.cpp:402-418 | stop in place |
| AtcMachine.AtcStateMachine.Reset | src/atc/atc_state_machine.cpp:420-439 | reset in place, the last airport included |
| AtcMachine.AtcStateMachine.BeginFreshFlight | src/atc/atc_state_machine.cpp:441-456 | the guarded reset in place |
| AtcMachine.AtcStateMachine.DisregardDialog | src/atc/atc_state_machine.cpp:467-504 | disregard in place |
| AtcMachine.AtcStateMachine.ApplyPostTransitionHooks | src/atc/atc_state_machine.cpp:727-843 | the sequence of hook statements computes AtcPipeline.Hooks |
| AtcMachine.AtcStateMachine.TrackReadback | src/atc/atc_state_machine.cpp:732-758 | the two readback branches and the leaving branch combine as specified |
| AtcMachine.AtcStateMachine.LockOnto | src/atc/atc_state_machine.cpp:760-783 | runway and callsign lock in place |
| AtcMachine.AtcStateMachine.MoveToAnswer | src/atc/atc_state_machine.cpp:785-807 | transition and departure flow in place |
| AtcMachine.AtcStateMachine.ApplyBzfStrictCheck | src/atc/atc_state_machine.cpp:669-721 | rejects exactly when the specified diff is not conformant, with the specified correction |
| AtcMachine.AtcStateMachine.RunRespond | src/atc/atc_state_machine.cpp:972-1019 | template answer, strict check and hooks in place |
| AtcMachine.AtcStateMachine.Transmit | src/atc/atc_state_machine.cpp:847-1019 | process(): the statements in their order compute AtcPipeline.Process |
| AtcMachine.AtcStateMachine.FindCorrection | src/atc/atc_state_machine.cpp:1048-1058 | the first rule whose phases contain the current one |
| AtcMachine.AtcStateMachine.AutoCorrect | src/atc/atc_state_machine.cpp:1035-1106 | one frame of auto-correction, early returns included |
| AtcMachine.AtcStateMachine.Tick | src/atc/atc_state_machine.cpp:1067-1100 | key change, timer and firing of one rule |
| AtcMachine.AtcStateMachine.Rectify | src/atc/atc_state_machine.cpp:1080-1097 | the correction itself in place |
| AtcMachine.AtcStateMachine.WasRecentlyIn | src/atc/atc_state_machine.cpp:1116-1127 | the backward loop with early exit; in a sound state it answers as a full scan would |
| AtcMachine.AtcStateMachine.AtAirportAfterLanding | src/atc/atc_state_machine.cpp:1134-1157 | true exactly on the ground with a landing state now, or in the history with no later past departure clearance; it answers as intended except exactly while a departure clearance is current after such a landing |
| AtcMachine.AtcStateMachine.RestoreSnapshotIfGen | src/atc/atc_state_machine.cpp:1202-1218 | the whole-record assignment computes AtcState.RestoreIfGen |
| AtcMachine.AtcStateMachine.AirportChanged | src/atc/flows/crosscountry_flow.cpp:79-117 | the airport tracker and reset in place |
| AtcMachine.AtcStateMachine.HandleNegativeCorrection | src/atc/flows/ground_operations.cpp:370-389 | in place as specified |
| AtcMachine.AtcStateMachine.StateReverts | src/atc/flows/ground_operations.cpp:391-412 | the rule loop in place as specified |
| AtcMachine.AtcStateMachine.HandleAdvisoryFlow | src/atc/flows/ground_operations.cpp:447-487 | in place as specified |
| AtcMachine.AtcStateMachine.FrequencyCorrections | src/atc/flows/ground_operations.cpp:518-571 | both frequency passes in place as specified |
| AtcMachine.AtcStateMachine.RunLateGuards | src/atc/flows/ground_operations.cpp:573-684 | in place as specified |
| AtcGuard.Latch | src/atc/engine.cpp:454-469 | the intent latch touches neither the clearance on file nor state or log |
| AtcGuard.ProcessAdvances | src/atc/atc_state_machine.cpp:847-1019 | process() never lowers the counter and raises it whenever a semantic field changes |
| AtcGuard.CorrectionAdvances | src/atc/atc_state_machine.cpp:1035-1106 | so does a frame of auto-correction |
| AtcGuard.StepAdvances | src/atc/atc_state_machine.cpp:59-79 | so does every entry point |
| AtcGuard.RunAdvances | src/atc/atc_state_machine.cpp:59-79 | over every interleaving of entry points the counter never falls and rises with every semantic change |
| AtcGuard.RestoreMeetsUnchanged | src/atc/atc_state_machine.cpp:1202-1218 | a restore succeeds, any number of steps after its counter was read, only if the machine is semantically unchanged since, and then equals the snapshot but for the counter; refused, it writes nothing |
| AtcGuard.RestoreDefeatsOthers | src/atc/atc_state_machine.cpp:1202-1215 | after a successful restore every guard read before it fails, however long one waits |
| AtcGuard.ArrivalSound | src/atc/flows/crosscountry_flow.cpp:79-117 | the airport check keeps the shape of the log and the callsign obligation, and a step that is not late its order |
| AtcGuard.ProcessSound | src/atc/atc_state_machine.cpp:847-1019 | so does process() |
| AtcGuard.CorrectionSound | src/atc/atc_state_machine.cpp:1035-1106 | so does auto-correction |
| AtcGuard.DisregardSound | src/atc/atc_state_machine.cpp:467-504 | so does disregard |
| AtcGuard.RestoreSound | src/atc/atc_state_machine.cpp:1202-1218 | a restored record is as sound as the snapshot |
| AtcGuard.StepKeeps | src/atc/atc_state_machine.cpp:59-79 | so does every entry point, from the record it goes out from |
| AtcGuard.StepSettled | src/atc/atc_state_machine.cpp:59-79 | every entry point, however late its time, keeps desk and snapshots in shape |
| AtcGuard.StepInTime | src/atc/atc_state_machine.cpp:59-79 | one that is not late keeps their timestamps in order |
| AtcGuard.RunSettled | src/atc/atc_state_machine.cpp:300-312 | over every run, late messages included: at most eight stored entries, the tail of all transitions, no repeated neighbour, and the callsign in every open obligation |
| AtcGuard.RunInTime | src/atc/atc_state_machine.cpp:300-312 | over every run with a forward clock the timestamps are in order |
| AtcGuard.ReachableIsSound | src/atc/atc_state_machine.cpp:86-180 | both from start-up, the order alone asking for a forward clock |
| AtcGuard.OwedReadbackIsRecognised | src/atc/engine.cpp:539-557 | in every reachable state, whatever times the messages carried, a complete readback of what is owed passes the recognition gate |
| AtcFrames.FrameLeaves | src/atc/atc_state_machine.cpp:1035-1106 | a frame that fires leaves a mark no frame takes back; any other leaves nothing but the airborne flag it carries |
| AtcFrames.FrameUnseenIff | src/atc/atc_state_machine.cpp:1035-1106 | one frame leaves the record semantically as it was exactly when its own guard holds: the flag is the present one; the airport did not change en route; no rule is due, or the due one leads to the present state with no readback owed |
| AtcFrames.FramesLeave | src/atc/atc_state_machine.cpp:59-79 | so does any run of frames |
| AtcFrames.FramesUnseenIff | src/atc/atc_state_machine.cpp:59-79 | a run of frames leaves the record semantically as it was if and only if no correction was due with an effect, no airport changed en route, and the airborne flag ended where it began |
| AtcFrames.UndoIsExact | src/atc/atc_session.cpp:445-451 | a restore that succeeds finds the machine as process() left it, and gives what it would be had the pilot not spoken, if and only if none of the frames run while the engine waited fired and the airborne flag is back |
| AtcFrames.DirectExchangeIsUndone | src/atc/engine.cpp:539-606 | on the direct path, where nothing runs in between, the exchange is undone exactly, latch included |
| AtcFrames.UnmovedCounterIsUndone | src/atc/atc_state_machine.cpp:1202-1218 | whatever ran in between: if the counter had not moved since the capture, the restore is exact |
| AtcFrames.FrameBeforeExchangeIsUndone | src/atc/atc_session.cpp:451-456 | an airborne flag set while the engine waits is lost, whatever was said and answered |
| AtcFrames.CaptureThenRestore | src/atc/atc_state_machine.cpp:1193-1218 | a capture, anything at all, and a restore with the current counter bring back the captured record under a counter nobody has seen |
| AtcFrames.StepKeepsTimer | src/atc/atc_state_machine.cpp:1035-1046 | every step but a restore and a correction frame in a state with rules leaves the correction timer alone |
| AtcFrames.RunKeepsTimer | src/atc/atc_state_machine.cpp:1035-1046 | so does every run of such steps |
| AtcFrames.VisitTicks | src/atc/atc_state_machine.cpp:1067-1100 | a frame that meets a rule fires it when the delay is over and else adds its time |
| AtcFrames.VisitsAddUp | src/atc/atc_state_machine.cpp:1071-1078 | time adds up over separate visits to a state, whatever happens between short of a restore or a frame in another state with rules: the second visit fires the rule if and only if both together lasted its delay |
| AtcFrames.NextVisitIff | src/atc/atc_state_machine.cpp:1060-1078 | from the last frame in a state with rules to the next visit, whatever happens short of a restore: the visit fires its rule if and only if its own time and what that frame carried over for the rule reach the delay |
| AtcFrames.VisitJudgedAlone | src/atc/atc_state_machine.cpp:1060-1075 | a frame under another key, or one for which the state has no matching rule, makes the next visit be judged alone |
| AtcFrames.TwoShortVisitsFire | src/atc/atc_state_machine.cpp:1071-1078 | two visits of six seconds with a minute in IDLE between them fire a rule with a delay of ten |
| AtcFrames.LandingIsHidden | src/atc/atc_state_machine.cpp:1116-1127 | a landing clearance ten seconds old is not found within thirty seconds behind an entry with an earlier time |
| AtcFrames.LateSpeechHidesLanding | src/atc/engine.cpp:701-720 | a run from start-up gives that history: the language-model path hands process() the time the pilot spoke, before frames already run |
| AtcFrames.CurrentDepartureIgnored | src/atc/atc_state_machine.cpp:1134-1157 | a run from start-up in which a departure clearance after the landing leaves the window open |
| AtcObligation.GuardsKeepPending | src/atc/atc_state_machine.cpp:879-970 | no guard touches anything but state, log, departure flow, airborne flag and counter: pending flag, clearance, both locks, declared intent and last response stay |
| AtcObligation.ArrivalPending | src/atc/flows/crosscountry_flow.cpp:104-117 | an airport change forgets that a readback is owed and keeps the clearance text |
| AtcObligation.CorrectionPending | src/atc/atc_state_machine.cpp:1080-1097 | so does a correction that is due, and no other frame of auto-correction |
| AtcObligation.SpeechPartsIff | src/atc/atc_state_machine.cpp:847-1019 | when a transmission leaves a clearance on file without a readback owed, or one owed without a text: exactly after an airport change that nothing in the answer settles or re-arms, or an answer that demands a readback and says nothing |
| AtcObligation.StepPartsIff | src/atc/atc_state_machine.cpp:125-129 | from a state in which a clearance is on file exactly while a readback is owed, a step leads out of it exactly if it is such a transmission, a due correction or an airport change while a readback is owed, or the restore of a snapshot that is out of it |
| AtcObligation.RunPartsIff | src/atc/atc_state_machine.cpp:125-129 | over any run the two agree in every state if and only if it has no such step |
| AtcObligation.TaxiIsCleared | src/atc/atc_state_machine.cpp:732-745 | the first taxi request after start-up leaves its clearance on file and the readback owed |
| AtcObligation.CorrectionOrphansClearance | src/atc/atc_state_machine.cpp:1080-1097 | a run from start-up in which a due correction leaves the clearance on file with nothing owed |
| AtcObligation.AirportOrphansClearance | src/atc/flows/crosscountry_flow.cpp:104-117 | a run from start-up in which an airport change does |
| AtcObligation.OrphanStillJudges | src/atc/atc_state_machine.cpp:669-721 | such a clearance still judges a strict readback: an incomplete one is rejected and owed again |
| AtcLocks.GuardsLeadTo | src/atc/atc_state_machine.cpp:879-970 | the state in which the guards leave the machine, guard by guard |
| AtcLocks.BooksLock | src/atc/atc_state_machine.cpp:760-820 | after the answer the callsign is free if it leads to IDLE, else the one locked before or the one just heard |
| AtcLocks.RespondLocks | src/atc/atc_state_machine.cpp:972-1019 | the same through strict check and tower-only advance, with the state reached |
| AtcLocks.SpeechStraysIff | src/atc/atc_state_machine.cpp:847-1019 | when a transmission ends in IDLE with a callsign locked: exactly when a guard or the strict check ends it there with a lock set, or its answer leads elsewhere, so that nothing is released, and IDLE is reached or kept all the same |
| AtcLocks.CorrectionStaysFree | src/atc/atc_state_machine.cpp:1080-1097 | an auto-correction to IDLE releases the lock |
| AtcLocks.StepStraysIff | src/atc/atc_state_machine.cpp:116-122 | from a state in which IDLE means no callsign is locked, a step leads out of it exactly if it is such a transmission, an airport change with a lock set, or the restore of a snapshot that is out of it |
| AtcLocks.RunStraysIff | src/atc/atc_state_machine.cpp:116-122 | over any run it holds in every state if and only if the run has no such step |
| AtcLocks.CorrectionsStray | src/atc/flows/ground_operations.cpp:370-389 | a run from start-up: a taxi request and two corrections end in IDLE with the callsign locked, and the next caller is addressed by it |
| AtcLocks.AirportStrays | src/atc/flows/crosscountry_flow.cpp:104-117 | an airport change releases the runway and keeps the callsign |
| AtcReplay.SameGuards | src/atc/atc_state_machine.cpp:879-970 | the guards read neither counter nor timestamps |
| AtcReplay.SameRespond | src/atc/atc_state_machine.cpp:972-1019 | neither do answer, strict check and hooks |
| AtcReplay.SameDialogue | src/atc/atc_state_machine.cpp:847-1019 | nor the whole dialogue |
| AtcReplay.SameProcess | src/atc/atc_state_machine.cpp:847-1019 | from desks equal up to counter and timestamps, process() gives the same response and the same state up to these, when both agree on the airport change |
| AtcReplay.DropShows | src/atc/flows/crosscountry_flow.cpp:79-117 | when one meets an airport change and the other does not, the resulting states differ |
| AtcReplay.ReplayIff | src/atc/atc_state_machine.cpp:847-1019 | so a replay agrees if and only if both desks agree on the airport change |
| AtcReplay.SameGate | src/atc/engine.cpp:454-557 | the intent latch and the readback gate read neither counter nor timestamps |
| AtcReplay.ExchangeIff | src/atc/engine.cpp:454-606 | the same condition for the whole exchange of the engine, latch and readback gate included |
| AtcReplay.ReplayAfterRestore | src/atc/atc_session.cpp:967-982 | captured before the latch and restored any time after the exchange, the transmission sent again is answered alike if and only if both runs agree on the airport change: the last airport is outside the snapshot |
| AtcReplay.ReplayAtOnceIff | src/atc/atc_session.cpp:967-982 | with nothing in between, if and only if the first run met no airport change |
| AtcReplay.ReplayDiffers | src/atc/flows/crosscountry_flow.cpp:79-117 | en route from one airport to the next the replay differs |
| AtcReplay.FramesKeepClearance | src/atc/atc_state_machine.cpp:1035-1106 | any number of correction, airport and airborne-flag frames keep clearance and last response on file |
| AtcReplay.ResponseOnFile | src/atc/atc_state_machine.cpp:834-843 | after a transmission the repeatable response is the new one exactly if it passed all guards and the strict check with text, otherwise the old one |
| AtcReplay.RepeatReplaysIff | src/atc/atc_state_machine.cpp:888-909 | a repeat right after a transmission returns its text if that passed all guards and the strict check, else what was on file before, which is the same text only by coincidence |
| AtcReplay.GuardAnswerIsNotRepeated | src/atc/flows/ground_operations.cpp:573-684 | the request for the missing position after the very first call cannot be repeated |
| AtcReplay.UnheardClearanceIsRepeated | src/atc/atc_state_machine.cpp:888-904 | after a refused restore the unheard clearance is still stored and a repeat request returns it verbatim, with state and owed readback unchanged unless that call meets a new airport |
| AtcReplay.RepeatAnswers | src/atc/atc_state_machine.cpp:888-909 | a repeat request returns the response on file and changes nothing but the clock |
| AtcReplay.RejectedRetry | src/atc/atc_state_machine.cpp:1007-1018 | a strict readback is accepted if and only if it is complete; rejected, it only re-arms the obligation |
| AtcReplay.IncompleteKeepsClearance | src/atc/atc_state_machine.cpp:847-1019 | an incomplete strict readback leaves the clearance on file through the whole pipeline |
| AtcReplay.ClearanceOutlivesAttempts | src/atc/atc_state_machine.cpp:1007-1018 | so do any number of them |
| AtcReplay.AcceptedIffComplete | src/atc/atc_state_machine.cpp:669-721 | after any number of incomplete readbacks the next one is judged against the original clearance and accepted if and only if complete |
| AtcAnswers.SlotsSpeakTheirValues | src/atc/atc_templates.cpp:167-179 | a filled template speaks in each slot that variable's value |
| AtcAnswers.EverySlotIsKnown | src/atc/flows/ground_operations.cpp:179-348 | every variable that answers and traffic calls may set has its slot filled |
| AtcAnswers.RunwaySpoken | src/atc/flows/ground_operations.cpp:90-100 | the runway spoken and filed is the one the pilot named, else the locked one, else the active one, else 28 |
| AtcAnswers.LockedRunwayIsSpoken | src/atc/flows/ground_operations.cpp:90-100 | over every run in which the lock is not released, each later answer to a message that names no runway speaks and files the runway locked at its beginning, whatever runway becomes active; a named one takes precedence |
| AtcAnswers.SpokenRunwayIsLocked | src/atc/atc_state_machine.cpp:760-772 | with nothing locked, an answer that is not held back and leads on locks exactly the runway it spoke |
| AtcAnswers.AbbreviationIsLastThree | src/atc/flows/ground_operations.cpp:45-70 | a callsign of more than three words is abbreviated to its last three |
| AtcAnswers.CallsignSpoken | src/atc/flows/ground_operations.cpp:72-88 | the tower addresses the locked callsign, else the one heard, else the configured one, in full in IDLE and by its last three words elsewhere, and files the same |
| AtcAnswers.LockedCallsignIsSpoken | src/atc/atc_state_machine.cpp:774-783 | over every run in which the callsign lock is not released, every later answer uses the callsign locked at its beginning, whatever is heard |
| AtcAnswers.IntentSpoken | src/atc/flows/ground_operations.cpp:179-348 | intention and course phrase name the destination of this message, else the declared one, else the one in the settings, or the pattern |
| AtcAnswers.DeclaredIntentIsSpoken | src/atc/engine.cpp:454-469 | a destination or a pattern flight declared once is what every later answer of the flight says to a message that names no destination |
| AtcAnswers.TemplateChosen | src/atc/atc_state_machine.cpp:972-982 | which table entry answers, with its wording, next state and readback demand: the tower-only one, the one of the intent, the one for an invalid intent, or "say again" |
| AtcAnswers.LandingOverlay | src/atc/flows/pattern_flow.cpp:140-199 | a landing clearance is held back for an occupied runway and else names number, type and leg of the traffic to follow; state and readback demand stay |
| AtcAnswers.ClearanceFiled | src/atc/atc_state_machine.cpp:580-659 | every value filed is the one spoken; runway, QNH and frequency are owed exactly for the requests that make them mandatory when the template contained them; a squawk never |
| AtcRefusals.IntentRoundTrip | src/atc/intent_parser.cpp:588-626 | every intent is read back from its key, but the generic initial call, which shares the tower's key |
| AtcRefusals.CorrectionTakesBackOne | src/atc/flows/ground_operations.cpp:351-389 | a correction takes back exactly one stage, on the same frequency and within arrival or departure; at the beginning there is none to take back |
| AtcRefusals.CorrectionIsNoted | src/atc/flows/ground_operations.cpp:370-389 | what a correction says, with and without a stage to take back |
| AtcRefusals.NothingToRepeat | src/atc/atc_state_machine.cpp:888-904 | a repeat request gets the last response with the readback still owed, or the callsign in use and that there is nothing to repeat; nothing changes |
| AtcRefusals.RevertsIff | src/atc/flows/ground_operations.cpp:391-412 | the first revert rule for state and intent takes the dialog back, and the departure flow if it says so; without one nothing changes |
| AtcRefusals.AirportIsLeft | src/atc/flows/crosscountry_flow.cpp:79-117 | en route past a new airport the dialog is over and the log says why; else only clock and airport move |
| AtcRefusals.AdvisoryAnswers | src/atc/flows/ground_operations.cpp:447-487 | Info and Unicom frequencies answer from the uncontrolled table with nothing to read back, before any other guard |
| AtcRefusals.AdvisoryText | src/atc/flows/ground_operations.cpp:447-487 | which entry of that table answers |
| AtcRefusals.LookupChooses | src/atc/atc_templates.cpp:91-125 | the table entry for an intent in a state, its fallbacks in order |
| AtcRefusals.HintPoints | src/atc/flows/ground_operations.cpp:489-516 | on an unknown frequency of a towered field the pilot is pointed to Ground for what Ground handles, else to the Tower |
| AtcRefusals.HintAnswers | src/atc/flows/ground_operations.cpp:489-516 | the hint is the answer, with nothing to read back and no change but a re-clearance revert |
| AtcRefusals.ValidityResets | src/atc/flows/ground_operations.cpp:518-536 | a state not valid on the tuned frequency falls back to IDLE, except en route, on an unknown frequency and on a tower-only tower |
| AtcRefusals.FrequencyAdvances | src/atc/flows/ground_operations.cpp:538-571 | the first frequency rule of the state that lists the frequency advances the dialog |
| AtcRefusals.RedirectAnswers | src/atc/flows/ground_operations.cpp:573-600 | in IDLE the first redirect for frequency and intent answers, unless it spares tower-only fields |
| AtcRefusals.ForbiddenIsRefused | src/atc/flows/ground_operations.cpp:602-633 | a request that flight phase or frequency do not allow is refused and changes nothing |
| AtcRefusals.RejectionIs | src/atc/flows/ground_operations.cpp:602-633 | with the phrase for the phase first, else the one of the frequency rule |
| AtcRefusals.AllowedPasses | src/atc/flows/ground_operations.cpp:645-684 | an allowed request passes unless it is an incomplete call to Ground under the German profile; a first call or taxi request on the ground ends the last flight |
| AtcRefusals.LenientReadbackSettles | src/atc/atc_state_machine.cpp:669-758 | outside strict mode every readback that passes the guards settles what was owed |
| AtcRefusals.AnswerOwes | src/atc/atc_state_machine.cpp:727-758 | an answer that leads to IDLE or en route settles what was owed, one that demands a readback puts its own clearance in its place, any other leaves it owed |
| AtcRefusals.OtherMessagesAreNotExamined | src/atc/atc_state_machine.cpp:669-721 | only readbacks are examined: any other message is answered as looked up |
| AtcRefusals.DeclaredCrossCountryDeparts | src/atc/atc_state_machine.cpp:858-876 | ready for departure means leaving the field exactly if a cross-country flight was declared |
| AtcRefusals.TowerOnlyAdvances | src/atc/atc_state_machine.cpp:822-832 | a tower-only field moves on from a state by itself exactly as its table says |
| AtcLifecycle.NewFlightForgets | src/atc/atc_state_machine.cpp:364-439 | a reset, a stop and a start leave nothing owed, locked, declared or remembered; only a start keeps the last response, only the new flight forgets the airport |
| AtcLifecycle.RepositionIff | src/atc/atc_state_machine.cpp:441-456 | a reposition is a reset exactly on the ground in IDLE or GROUND_CONTACT; at any other time nothing at all changes |
| AtcLifecycle.DisregardLeadsTo | src/atc/atc_state_machine.cpp:467-504 | a disregard on the ground gives everything up; in the air it keeps runway, callsign and flow and leads to the pattern within five miles of the airport or without a position, else en route; the log says why |
| AtcLifecycle.CorrectionLeadsTo | src/atc/atc_state_machine.cpp:1080-1097 | a correction that is due says so in the log, drops the pending flag, and releases both locks exactly if it leads to IDLE |
| AtcLifecycle.BareNameIsRead | src/atc/atc_state_machine.cpp:255-282 | a state is read by its bare name as well |
| AtcLifecycle.OnlyNamesAreRead | src/atc/atc_state_machine.cpp:255-282 | a name read as anything but IDLE is one of that state's names |
| AtcLifecycle.ArrivalWindow | src/atc/atc_state_machine.cpp:1134-1157 | the window after a landing is open exactly with a landing or touch-and-go clearance now, or in the history with no departure clearance after it |
| AtcLifecycle.LastEight | src/atc/atc_state_machine.cpp:300-312 | over every run the history holds the last eight transitions, or all if there were fewer |
| Session.AtcSession.DispatchGuardedTts | src/atc/atc_session.cpp:256-266 | the dispatch in place |
| Session.AtcSession.SpeakResponseGuarded | src/atc/atc_session.cpp:372-393 | the request stored, counters cleared, first dispatch |
| Session.AtcSession.GuardedCallback | src/atc/atc_session.cpp:268-355 | success, retry and give-up branches in place |
| Session.AtcSession.FreeSession | src/atc/atc_session.cpp:312-355 | the flag for the pilot is set, the chain is closed and the session idle |
| Session.AtcSession.EngageRevertGuard | src/atc/atc_session.cpp:312-355 | the give-up sequence in place |
| Session.AtcSession.SpeechCallback | src/atc/atc_session.cpp:205-230 | the unguarded callback with the ATIS retry bookkeeping in place |
| Session.AtcSession.DispatchPilotTranscript | src/atc/atc_session.cpp:404-456 | capture before the engine starts |
| Session.AtcSession.EngineCallback | src/atc/atc_session.cpp:454-484 | silence frees the session; otherwise the counter is read after process() and the answer is spoken |
| Session.AtcSession.OnPttPressed | src/atc/atc_session.cpp:523-560 | a press is refused unless idle and ready |
| Session.AtcSession.OnPttReleased | src/atc/atc_session.cpp:562-600 | a short recording is discarded |
| Session.AtcSession.OnTranscribed | src/atc/atc_session.cpp:645-663 | a failed transcription frees the session |
| Session.AtcSession.OnSubmitText | src/atc/atc_session.cpp:726-753 | typed text takes the same path |
| Session.AtcSession.RetryLastTransmission | src/atc/atc_session.cpp:967-982 | the retry button works only idle after a network error |
| Session.AtcSession.RunPlayback | src/atc/atc_session.cpp:759-777 | end of playback and the ATIS cooldown |
| Session.AtcSession.RunRetryTimer | src/atc/atc_session.cpp:779-792 | the retry timer fires once |
| Session.AtcSession.RunDialogFrame | src/atc/atc_session.cpp:755-848 | the frame up to the ATIS part, in its order |
| Session.AtcSession.RunAtisTuning | src/atc/atc_session.cpp:850-882 | the ATIS tuning timer and the abort |
| Session.AtcSession.UpdateFrame | src/atc/atc_session.cpp:755-955 | the whole frame |
| SessionRuns.InvInit | src/atc/atc_session.cpp:487-510 | the session invariant holds at start-up |
| SessionRuns.InvPoll | src/atc/atc_session.cpp:181-204 | an unguarded synthesis for a traffic call keeps it |
| SessionRuns.InvCallback | src/atc/atc_session.cpp:268-355 | every callback keeps the session invariant |
| SessionRuns.InvDialogFrame | src/atc/atc_session.cpp:755-848 | so does the dialog part of a frame |
| SessionRuns.InvTick | src/atc/atc_session.cpp:755-955 | so does a whole frame that aborts no synthesis |
| SessionRuns.InvNext | src/atc/atc_session.cpp:256-982 | so does every step |
| SessionRuns.InvNextIff | src/atc/atc_session.cpp:874-882 | a step keeps it if and only if it does not abort a synthesis |
| SessionRuns.InvThroughoutIff | src/atc/atc_session.cpp:256-982 | it holds in every state of a run if and only if nothing in the run is aborted |
| SessionRuns.InvRun | src/atc/atc_session.cpp:256-982 | so does every run without an ATIS abort during synthesis |
| SessionRuns.OneSynthesisInFlight | src/atc/atc_session.cpp:256-393 | from start-up at most one synthesis is in flight, at most three serve one answer, at most one restore is tried, and none while the chain is open |
| SessionRuns.OpenChainRejectsPilot | src/atc/atc_session.cpp:523-531 | while an answer is being spoken or retried, press, typed text and retry button change nothing |
| SessionRuns.RestoreOnlyAtTheEnd | src/atc/atc_session.cpp:293-355 | the restore is tried exactly on the last failure or a content block, and that ends the chain and frees the session |
| SessionRuns.RestoreIsAllOrNothing | src/atc/atc_session.cpp:323-324 | it finds the machine as the answer left it and puts the snapshot back, or leaves the machine alone |
| SessionRuns.TickRank | src/atc/atc_session.cpp:779-792 | a frame while waiting brings the chain closer to its end |
| SessionRuns.CallbackRank | src/atc/atc_session.cpp:268-355 | so does the awaited callback |
| SessionRuns.RankFalls | src/atc/atc_session.cpp:256-393 | no other step sets the chain back |
| SessionRuns.ChainEnds | src/atc/atc_session.cpp:256-393 | an open chain has used less than its rank: once callbacks arrive it ends |
| SessionRuns.FreshChainRank | src/atc/atc_session.cpp:103-104 | three callbacks and twice 180 frames at most |
| SessionRuns.DispatchCaptures | src/atc/atc_session.cpp:445-456 | what the engine callback holds is the record as it was before the transcript was handed over |
| SessionRuns.ThinkingRun | src/atc/atc_session.cpp:523-531 | while the engine thinks, that record and the transcript stay, whatever happens |
| SessionRuns.OpenRun | src/atc/atc_session.cpp:372-393 | while an answer is tried, its request stays |
| SessionRuns.FailureSeenFromDispatch | src/atc/atc_session.cpp:268-355 | seen from the dispatch: a failed answer leaves the machine as it was when the transcript was handed over, or, if anything semantic happened since the answer, as it is; the session is idle and still holds that transcript |
| SessionRuns.BoundIsAttained | src/atc/atc_session.cpp:103-104 | three failures from start-up use the bound up: 362 steps with the chain still open |
| SessionRuns.AfterAbort | src/atc/atc_session.cpp:874-882 | leaving the ATIS frequency during synthesis leaves the session idle, or already with a second synthesis, while the first is outstanding |
| SessionRuns.AbortIffCanDouble | src/atc/atc_session.cpp:874-882 | that is exactly the step after which some continuation puts two syntheses in flight |
| SessionRuns.AbortLetsTwoInFlight | src/atc/atc_session.cpp:874-882 | a typed message and its answer are such a continuation |
| SessionRuns.StartUpToTwoInFlight | src/atc/atc_session.cpp:850-900 | a run from start-up that gets there: two seconds on the ATIS frequency, one frame off it, a message and its answer |
| SessionGuard.ExchangeIsByMachine | src/atc/engine.cpp:454-606 | the synchronous path of the engine is two steps of the state machine |
| SessionGuard.MachineEventIsLegal | src/atc/atc_state_machine.cpp:59-79 | an event whose desk comes from the state machine obeys the counter rule |
| SessionGuard.DrivenSession | src/atc/atc_session.cpp:256-393 | so in every session driven by the state machine, without an abort, at most one synthesis is in flight, three serve an answer, one restore is tried |
| SessionGuard.UnheardIsUndoneOrRepeated | src/atc/atc_session.cpp:312-355 | an answer that passed guards and strict check and is never heard is either undone to the record before the transmission, or the clearance is still on file and a repeat request returns the text verbatim |
| SessionGuard.RetryStartsOver | src/atc/atc_session.cpp:967-982 | after a restored failure the retry button hands the engine the transcript that failed, from the record it was first handed from |
| SessionGuard.RetryAnswersAlike | src/atc/atc_session.cpp:967-982 | if the answer that failed was the direct one of the engine, the retry gives that very text and the same state if and only if both runs agree on the airport change |
| SessionPlayback.SpokenSounds | src/atc/atc_session.cpp:205-230 | an arrived synthesis leaves the session playing, with nothing in flight |
| SessionPlayback.NobodyTalksOver | src/atc/atc_session.cpp:759-777 | from the arrival on, while every frame has audio and the ATIS frequency is not left, the session stays playing; press, typed text and retry button change nothing and no synthesis starts, no call due and no broadcast either |
| SessionPlayback.SilenceFrees | src/atc/atc_session.cpp:759-777 | the first frame without audio makes the session ready before anything else is polled: a call due in that frame is spoken, else a broadcast that is due starts, else the pilot may speak |
| SessionPlayback.AtisSeries | src/atc/atc_session.cpp:205-230 | a failed broadcast is tried again 15 s later, the third time 120 s later; one that is heard starts the count afresh |
| SessionPilot.PressHasTheFloor | src/atc/atc_session.cpp:523-600 | from an accepted press on, whatever else happens, the recording goes on until the key is let go: no call, broadcast or typed text gets in; a short one then frees the session, a long one holds it for the transcript |
| SessionPilot.TranscriptIsHandedOver | src/atc/atc_session.cpp:404-456 | while a transcript is awaited nothing else gets in; if it cannot be had the session is free again, else the engine gets it with the record as it stands, it is kept for a retry, and both warning lights go out |
| SessionPilot.VoiceOrText | src/atc/atc_session.cpp:726-753 | speaking, typing and the retry button are three ways to the same state |
| SessionPilot.EngineHasSpoken | src/atc/atc_session.cpp:454-484 | an engine that has nothing to say frees the session; an answer is spoken with the record from before the transcript and the counter as the engine left it |
| SessionPilot.LightsIff | src/atc/atc_session.cpp:268-355 | the network light goes on exactly with the third failure of an answer, the other exactly with a blocked one; both go out exactly when a message is taken or an answer is tried or heard |
| SessionPilot.FailureWaits | src/atc/atc_session.cpp:293-310 | after the first and second failure the answer is tried again three seconds later, after the third the session is free |
| Text.SplitWords | src/atc/de_phraseology.cpp:608-641 | the tokenizer loop yields the maximal blank-free pieces |
| Text.WordsOfJoin | src/atc/de_phraseology.cpp:608-641 | splitting undoes joining with single blanks |
| SpokenNumbers.RunDigits | src/atc/de_phraseology.cpp:655-683 | a run is capped, one digit per word, and ends with trailing punctuation |
| SpokenNumbers.CollectRun | src/atc/de_phraseology.cpp:655-683 | a run shorter than the minimum counts as none |
| SpokenNumbers.CollectDigitRun | src/atc/de_phraseology.cpp:660-683 | the collector loop computes that run |
| SpokenNumbers.FrequencyAt | src/atc/de_phraseology.cpp:757-783 | a frequency consumes only digit words and the decimal word |
| SpokenNumbers.ProbeFrequency | src/atc/de_phraseology.cpp:757-783 | the probe computes it |
| SpokenNumbers.FrontToken | src/atc/de_phraseology.cpp:748-803 | every turn of the loop consumes at least one token and none beyond the end |
| SpokenNumbers.NextToken | src/atc/en_phraseology.cpp:531-576 | one turn of the loop: digits kept, then frequency, then plain run, then the word itself |
| SpokenNumbers.Emit | src/atc/de_phraseology.cpp:687-709 | the separator rule writes single blanks |
| SpokenNumbers.RenderTokens | src/atc/de_phraseology.cpp:740-804 | the loop over the token vector computes the parsed tokens, joined |
| SpokenNumbers.ParseSpokenNumber | src/atc/de_phraseology.cpp:740-804 | the parser computes ParseText |
| SpokenNumbers.GermanCoherent | src/atc/de_phraseology.cpp:569-583 | no German digit word is a keyword, no table word holds a digit |
| SpokenNumbers.EnglishCoherent | src/atc/en_phraseology.cpp:370-388 | the same for the English tables |
| SpokenNumbers.FrontShape | src/atc/de_phraseology.cpp:748-803 | what comes out of a turn is the input token or a number that is no digit word and no new anchor |
| SpokenNumbers.ParsedIsSettled | src/atc/de_phraseology.cpp:740-804 | the output holds no run long enough to be read again |
| SpokenNumbers.SettledIsFixed | src/atc/de_phraseology.cpp:740-804 | such a token sequence is left alone |
| SpokenNumbers.ParseIdempotent | src/atc/de_phraseology.cpp:740-804 | parsing twice is parsing once, for every text in both languages |
| SpokenRoundTrip.Ziffernweise | src/atc/de_phraseology.cpp:73-85 | the printer loop writes one word per digit |
| SpokenRoundTrip.GermanPrintable | src/atc/de_phraseology.cpp:569-583 | every German printed word is read as its digit |
| SpokenRoundTrip.EnglishPrintable | src/atc/en_phraseology.cpp:370-388 | every English printed word is read as its digit |
| SpokenRoundTrip.DigitsRoundTrip | src/atc/de_phraseology.cpp:785-796 | speaking digits and parsing them gives them back if and only if there are two to four |
| SpokenRoundTrip.AnchoredRoundTrip | src/atc/de_phraseology.cpp:711-723 | after an anchor keyword if and only if there are at most four |
| SpokenRoundTrip.ExpandFrequencies | src/atc/de_phraseology.cpp:286-311 | the frequency pass computes ExpandFrom |
| SpokenRoundTrip.ExpandIsolated | src/atc/de_phraseology.cpp:286-311 | an isolated frequency is spoken as its two groups around the decimal word |
| SpokenRoundTrip.FrequencyRoundTrip | src/atc/en_phraseology.cpp:523-577 | an isolated frequency of 2-3 and 1-3 digits survives speaking and parsing if and only if its fraction has the length the language demands |
| SpokenRoundTrip.GermanShortFractionLost | src/atc/de_phraseology.cpp:774 | a one-digit fraction is not read back in German |
| Icao.ExpandCallsign | src/atc/de_phraseology.cpp:956-977 | the spelling loop writes one word per letter or digit |
| Icao.ParseSpokenIcao | src/atc/de_phraseology.cpp:1002-1031 | the scan loop computes ScanIcao |
| Icao.TablesAreNato | src/atc/de_phraseology.cpp:979-1000 | both alphabets start every word with its own letter |
| Icao.IcaoRoundTrip | src/atc/de_phraseology.cpp:956-1031 | spelling a letter string, lower-casing and reading it gives the letters back if and only if there are three or four |
| SpokenRoundTrip.MarksAreCut | src/atc/en_phraseology.cpp:412-432 | marks after a word are kept apart from it; an English word may end in an apostrophe, a German one not |
| SpokenRoundTrip.GermanTable | src/atc/de_phraseology.cpp:569-583 | each digit in each of its spellings, umlauts and dialect forms written out, is read as that digit |
| SpokenRoundTrip.EnglishTable | src/atc/en_phraseology.cpp:370-388 | the same for English |
| SpokenRoundTrip.SpelledRoundTrip | src/atc/de_phraseology.cpp:785-796 | digits spoken in any choice of spellings are read back as exactly those digits if and only if there are two to four |
| SpokenRoundTrip.AnchoredSpelling | src/atc/de_phraseology.cpp:711-723 | after an anchor if and only if there are one to four |
| SpokenRoundTrip.GermanNumberIsRead | src/atc/de_phraseology.cpp:740-804 | for every string of two to four digits and every spelling of each the German parser gives those digits, alone and after "piste" and "qnh" |
| SpokenRoundTrip.EnglishNumberIsRead | src/atc/en_phraseology.cpp:523-577 | the same for English, alone and after "runway" and "qnh" |
| SpokenRoundTrip.SaidFrequency | src/atc/en_phraseology.cpp:531-576 | a frequency said in any spelling around the decimal word is read back if and only if its two parts have the lengths the language demands |
| SpokenRoundTrip.GermanFrequencyIsRead | src/atc/de_phraseology.cpp:757-783 | three digits, "komma" or "dezimal", and two or three digits, in any spelling, are read as that frequency |
| SpokenRoundTrip.EnglishFrequencyIsRead | src/atc/en_phraseology.cpp:531-560 | the same for English with "decimal" or "point" |
| SpokenRoundTrip.GermanTowerSays | src/atc/de_phraseology.cpp:73-85 | the digits as the German tower says them |
| SpokenRoundTrip.EnglishTowerSays | src/atc/en_phraseology.cpp:78-92 | the digits as the English tower says them |
| Icao.AlphabetIsRead | src/atc/de_phraseology.cpp:979-1000 | both languages read every word of the alphabet, with or without its dash, and the spellings "alpha" and "juliet" |
| Replace.Find | src/atc/atc_templates.cpp:173 | the first occurrence at or after a position |
| Replace.ReplaceInPlace | src/atc/atc_templates.cpp:172-176 | the in-place loop equals left-to-right replacement and ends even when the value is longer |
| Templates.FillTemplate | src/atc/atc_templates.cpp:167-179 | the loop over the keys computes Fill |
| Templates.FillOneKey | src/atc/atc_templates.cpp:171-176 | on a clean template one key replaces exactly its own slots |
| Templates.FillIsSubstitution | src/atc/atc_templates.cpp:167-179 | sequential filling equals simultaneous substitution |
| Templates.FillOrderIrrelevant | src/atc/atc_templates.cpp:167-179 | key order does not matter |
| Templates.NoPlaceholderLeft | src/atc/atc_templates.cpp:167-179 | no known placeholder is left |
| Templates.BracesInValuesInterfere | src/atc/atc_templates.cpp:167-179 | with braces in a value the order does matter |
| Bzf.NormalizeWhisperNatoVariants | src/atc/bzf_compliance.cpp:115-145 | the table loop and the tail fix compute NormalizeNato |
| Bzf.CanonStripped | src/atc/bzf_compliance.cpp:244-258 | the filter loop computes the canonical form |
| Bzf.CanonicalCallsign | src/atc/bzf_compliance.cpp:175-197 | both scan loops compute the canonical callsign |
| Bzf.WeldPieces | src/atc/bzf_compliance.cpp:181-195 | a piece ends at any byte that is no letter or digit, and those bytes vanish |
| Bzf.UmlautIsCut | src/atc/bzf_compliance.cpp:152-195 | the umlaut spelling of fuenf, a table entry, is cut at its non-ASCII bytes and comes out as fnf |
| Bzf.NumeralIffAscii | src/atc/bzf_compliance.cpp:152-195 | a word of the digit table becomes its numeral if and only if all its bytes are letters |
| Bzf.UmlautLosesCallsign | src/atc/bzf_compliance.cpp:215-240 | so a callsign ending in five is found in a transcript with the numeral or the ASCII spelling, not with the umlaut |
| Bzf.DiffReadbackLoop | src/atc/bzf_compliance.cpp:451-485 | the diff loop gives one verdict per required element, in order |
| Bzf.ConformantIsComplete | src/atc/bzf_compliance.cpp:451-497 | the diff is conformant, and nothing is missing, if and only if every required element was read back, whatever the value capture says |
| Bzf.CompletePassesGate | src/atc/bzf_compliance.cpp:499-519 | a complete readback of a clearance that lists the callsign passes the lenient gate |
| DigitCoverage.TokensAround | src/atc/de_phraseology.cpp:608-641 | the tokens that meet a letterless stretch hold all its digits in order |
| DigitCoverage.ParseAround | src/atc/de_phraseology.cpp:740-804 | number parsing leaves such a stretch in one piece, whatever surrounds it |
| DigitCoverage.MatchAvoids | src/atc/bzf_compliance.cpp:115-145 | no NATO pattern overlaps it |
| DigitCoverage.ReplaceAround | src/atc/bzf_compliance.cpp:134-140 | so replacing a pattern leaves it in place |
| DigitCoverage.VariantsAreWordy | src/atc/bzf_compliance.cpp:119-132 | every pattern of the table has a letter and no digit |
| DigitCoverage.CanonicalAround | src/atc/bzf_compliance.cpp:244-258 | canonicalisation keeps its digits together and in order |
| DigitCoverage.LetterlessCanonical | src/atc/bzf_compliance.cpp:244-258 | a letterless value is compared by its digits alone |
| DigitCoverage.SpokenDigitsAreCovered | src/atc/bzf_compliance.cpp:262-267 | a digit value said as numerals is covered however the transcript splits, welds or punctuates them and whatever surrounds them |
| Readback.ConformantIffFieldsSaid | src/atc/bzf_compliance.cpp:451-485 | a readback is conformant if and only if the callsign is said and, for each owed element, the canonical transcript contains the canonical value of its own clearance field: runway for runway, QNH for QNH, frequency for frequency, squawk for squawk |
| Readback.CompleteIffFieldsSaid | src/atc/bzf_compliance.cpp:323-337 | the same for completeness |
| Readback.UnowedIsIgnored | src/atc/bzf_compliance.cpp:451-485 | replacing a field that is not owed changes no diff entry and no verdict |
| Readback.DiffEntry | src/atc/bzf_compliance.cpp:451-485 | each entry names the owed element, expects the value of its field, and is ok, wrong or missing as that value was said, another stated, or nothing |
| Readback.GateIff | src/atc/bzf_compliance.cpp:487-519 | the recognition gate asks for the callsign and, if the clearance lists any, one of its facts |
| Readback.LastTwoWordsSuffice | src/atc/bzf_compliance.cpp:215-240 | of a callsign of three words or more the last two are enough |
| Readback.ShortCallsignIsNeeded | src/atc/bzf_compliance.cpp:215-240 | of a shorter one nothing less than all of it |
| Readback.CorrectionSays | src/atc/bzf_compliance.cpp:545-585 | the tower is silent on a conformant readback, asks for all of it when something is only left out, and else says the expected value of every field read back wrong |
| Readback.MisheardLetters | src/atc/bzf_compliance.cpp:115-145 | each transcription variant of a NATO letter is put right, before a blank, a comma and at the end |
| Base64.StepIsLocal | src/backends/mistral_tts.cpp:61-65 | bits shifted out of the 32-bit accumulator never matter |
| Base64.Base64Decode | src/backends/mistral_tts.cpp:50-69 | the loop computes the sextet-wise decoding with 0, 2, 4 or 6 bits pending |
| Base64.Shift | src/backends/mistral_tts.cpp:61-66 | six bits in, a byte out at eight |
| Base64.SextetsRoundTrip | src/backends/mistral_tts.cpp:50-69 | decoding inverts the encoder of RFC 4648, section 4, on sextets |
| Base64.DecodeEncoded | src/backends/mistral_tts.cpp:50-69 | and on text, whatever characters outside the alphabet are strewn in |
| Base64.DecodeSpacedEncoding | src/backends/mistral_tts.cpp:56-60 | in particular with or without padding and with whitespace anywhere |
| Base64.TableOne | src/backends/mistral_tts.cpp:36-48 | the alphabet of RFC 4648, table 1, character by character; decoding inverts it |
| Base64.EncodedInFours | src/backends/mistral_tts.cpp:50-69 | the reference encoder writes four characters for every three bytes begun |
| Wav.PcmFloat32ToWav | src/backends/openai_common.cpp:50-90 | the writer emits header, fmt and data chunk with the specified samples |
| Wav.QuotientInRange | src/backends/openai_common.cpp:145-147 | a truncated average of 16-bit values is a 16-bit value |
| Wav.DecodePcmSample | src/backends/openai_common.cpp:107-148 | the sample decoder returns the plain average for 8, 16, 24 and 32 bits and any channel count: its clamp never fires |
| Wav.DecodeFrames | src/backends/openai_common.cpp:252-260 | the frame loop decodes every whole frame of the chunk |
| Wav.ReadFmtChunk | src/backends/openai_common.cpp:213-231 | the fmt fields with the extensible wrapper removed |
| Wav.WavToPcmInt16 | src/backends/openai_common.cpp:171-273 | the chunk walk stops on every input, reads only inside the buffer, and computes DecodeWav |
| Wav.SkipAllForeign | src/backends/openai_common.cpp:264-268 | chunks of unknown kind, pad bytes included, do not matter at any chunk boundary |
| Wav.WavRoundTrip | src/backends/openai_common.cpp:50-273 | reading what was written, with foreign chunks inserted, gives the quantised samples at 16000 Hz up to the count the size field can hold |
| Wav.EncodeDecode | src/backends/openai_common.cpp:50-273 | the plain round trip is exact if and only if there are fewer than 2^31 samples |
| Wav.DecodedIsNearest | src/backends/openai_common.cpp:82-87 | written and read back, each sample is the integer nearest to 32767 times the value, 32767 above full scale and -32767 below, its sign kept; negating the recording negates it, and no larger value gives a smaller sample |
| Wav.HeaderFits | src/backends/openai_common.cpp:50-80 | both size fields, block size and byte rate agree with the bytes that follow |
| Wav.HeaderTags | src/backends/openai_common.cpp:50-80 | the four tags of a written file, character by character |
| Wav.SampleIsScaled | src/backends/openai_common.cpp:107-148 | a sample of 8 bits is scaled up, one of 16 kept, one of 24 or 32 loses its low bits |
| Wav.StereoIsAveraged | src/backends/openai_common.cpp:140-147 | a stereo frame is the average of its channels, rounded towards zero |
| Wav.FmtReadsBack | src/backends/openai_common.cpp:213-220 | tag, channels, rate and width written into a fmt chunk are read back |
| Wav.ExtensibleReadsBack | src/backends/openai_common.cpp:221-231 | and from the extensible form with the tag in its sub-format |
| Wav.FileDecodedIff | src/backends/openai_common.cpp:232-262 | 8, 16, 24 and 32 bit integers and 32 bit floats with 1 to 8 channels give one sample for each whole frame at the rate the file names; any other format gives nothing |
| FlightPhase.PhaseDetector.Update | src/atc/flight_phase.cpp:472-527 | the update computes Step, and sets the session flag exactly when the phase is airborne before or after |
| FlightPhase.LatchMeansFlight | src/atc/flight_phase.cpp:463-515 | in every state reached from the initial one, which reset restores, the latch is on if and only if the phase is airborne or the landing roll |
| FlightPhase.TakeoffRollNeedsGround | src/atc/flight_phase.cpp:361-370 | a takeoff roll never follows flight without PARKED or TAXI between |
| FlightPhase.TimerIsHeld | src/atc/flight_phase.cpp:485-503 | while a change is pending the timer is the unbroken time of the candidate |
| FlightPhase.ChangeIffHeld | src/atc/flight_phase.cpp:403-436 | a phase changes exactly when no hysteresis applies or the new raw phase was held for the required time |
| FlightPhase.BounceIsNoTakeoff | src/atc/flight_phase.cpp:39-54 | with the default configuration two hops of 0.4 s leave a take-off roll a take-off roll, half a second without touching ends it |
| FlightPhase.RawPhaseMeans | src/atc/flight_phase.cpp:361-399 | which phase an observation means, every branch with its threshold |
| FlightPhase.HoldingTimes | src/atc/flight_phase.cpp:403-436 | which change is held for how long before it is believed |
| FlightPhase.DepartingFlight | src/atc/flight_phase.cpp:361-436 | a flight from parking through taxi, take-off, climb and cruise shows exactly those phases with the default configuration |
| FlightPhase.ArrivingFlight | src/atc/flight_phase.cpp:361-436 | and one through pattern, final approach and landing roll back to parking these |
| TrafficAdvisor.AirborneIndex | src/atc/traffic_advisor.cpp:231-252 | the first target that is due |
| TrafficAdvisor.NearestDueIsCalled | src/atc/traffic_advisor.cpp:229-251 | on a snapshot sorted by distance the nearest due target is called out |
| TrafficAdvisor.StartKeeps | src/atc/engine.cpp:49-56 | the empty history the desk starts with is faithful |
| TrafficAdvisor.AdvisoryDesk.FindGround | src/atc/traffic_advisor.cpp:178-212 | the ground-conflict scan |
| TrafficAdvisor.AdvisoryDesk.FindAdvisory | src/atc/traffic_advisor.cpp:216-255 | ground conflicts first, then gates and the airborne scan |
| TrafficAdvisor.AdvisoryDesk.PollTrafficAdvisory | src/atc/engine.cpp:971-1020 | one poll in place; it reports a call exactly when one is recorded |
| TrafficAdvisor.AdvisoryDesk.HandlePilot | src/atc/traffic_dialog.cpp:75-132 | a reply ends the wait, and with the traffic in sight locks the target out |
| TrafficAdvisor.EvaluatedIsDue | src/atc/traffic_advisor.cpp:178-255 | whatever is called out has respected every cooldown on file |
| TrafficAdvisor.RunKeeps | src/atc/traffic_advisor.cpp:257-266 | the history keeps the latest times, and the emissions keep their distances |
| TrafficAdvisor.CalloutsAreSpaced | src/atc/traffic_advisor.cpp:178-255 | 15 s between any two callouts, 20 s before an airborne one, 30 s or 60 s before the same target again |
| TrafficAdvisor.VisualLockout | src/atc/traffic_advisor.cpp:243-246 | no airborne callout within 300 s of any visual acknowledgement of that target |
| TrafficAdvisor.SilentWhileAwaiting | src/atc/engine.cpp:975-978 | no callout while an acknowledgement is awaited |
| TrafficAdvisor.WindowBound | src/atc/traffic_advisor.cpp:178-255 | a window of length L holds at most floor(L/15)+1 callouts |
| TrafficAdvisor.GroundCallIff | src/atc/traffic_advisor.cpp:178-212 | a ground conflict is called out exactly while taxiing, 15 s after the last call, when some target is due by range, cone, phase and cooldown; the first such is named, with the verb for where it is and how fast |
| TrafficAdvisor.AirborneCallIff | src/atc/traffic_advisor.cpp:216-255 | failing that an airborne target is, exactly in contact with a controller and 20 s after the last call, when some target qualifies by phase, range, altitude and closing or crossing, has no ground cooldown and was not seen; the first such is named |
| TrafficAdvisor.GroundFirst | src/atc/traffic_advisor.cpp:216-230 | a ground conflict goes before everything else |
| TrafficAdvisor.AwaitedIff | src/atc/traffic_dialog.cpp:60-132 | over every run a reply is awaited exactly while the last airborne callout is unanswered, and it is about the target last called out |
| TrafficAdvisor.ReplyIsFiled | src/atc/traffic_dialog.cpp:75-132 | a reply ends the wait; with the traffic in sight it acknowledges that target at that time, else nothing is filed; an unawaited one changes nothing |
| LandingSequence.SortIsSorted | src/atc/landing_sequence.cpp:65-70 | the sorted list is in strict (distance, index) order with the same members |
| LandingSequence.CollectFinals | src/atc/landing_sequence.cpp:57-64 | the collecting loop |
| LandingSequence.FirstBehind | src/atc/landing_sequence.cpp:72-78 | everyone before the user is at most as far out, everyone behind is farther |
| LandingSequence.PrefixIsAhead | src/atc/landing_sequence.cpp:72-79 | the insertion index counts the targets ahead |
| LandingSequence.LeaderIsLast | src/atc/landing_sequence.cpp:81-83 | the target before it is the last of those |
| LandingSequence.UserKeepsOrder | src/atc/landing_sequence.cpp:72-79 | the order with the user inserted is still by distance |
| LandingSequence.FindOccupant | src/atc/landing_sequence.cpp:85-97 | the first blocking target, or none if there is none |
| LandingSequence.ComputeLandingSequence | src/atc/landing_sequence.cpp:44-100 | the position is one more than the number of targets on final no farther out, the leader is the farthest of those, the occupant the first target on the centreline that is on the ground, taking off or landed |
| Logbook.DecimalReads | src/core/cross_country_log.cpp:222-223 | a number is recovered from its decimal form |
| Logbook.CandidatesDiffer | src/core/cross_country_log.cpp:221-223 | the numbered names are all different |
| Logbook.PickFrom | src/core/cross_country_log.cpp:221-224 | the search ends in a free name or the file being renamed |
| Logbook.PickFlightPath | src/core/cross_country_log.cpp:215-225 | a flight never gets the name of an existing file |
| Logbook.FlightLog.PickPath | src/core/cross_country_log.cpp:221-224 | the search loop computes PickFlightPath |
| Logbook.FlightLog.Open | src/core/cross_country_log.cpp:228-252 | a flight opened in place |
| Logbook.FlightLog.Record | src/core/cross_country_log.cpp:331-345 | the transmission appended in place |
| Logbook.FlightLog.NoteDeparture | src/core/cross_country_log.cpp:333-345 | the initial-call verdict is frozen at the first airborne phase |
| Logbook.FlightLog.RenameForDestination | src/core/cross_country_log.cpp:347-358 | the rename in place |
| Logbook.FlightLog.WriteEntry | src/core/cross_country_log.cpp:309-362 | one write in place |
| Logbook.MoveIsSafe | src/core/cross_country_log.cpp:257-263 | a rename keeps every other flight and every earlier file |
| Logbook.WriteIsSafe | src/core/cross_country_log.cpp:309-362 | a write keeps all files sound and appends one transmission |
| Logbook.StartIsSound | src/core/cross_country_log.cpp:39-52 | before the first flight the log is sound and holds nothing |
| Logbook.NextIsSafe | src/core/cross_country_log.cpp:299-362 | a write, a new directory and a new flight all keep it sound, and only a write adds a transmission, exactly one |
| Logbook.LogbookIsComplete | src/core/cross_country_log.cpp:215-362 | over every run each transmission is in one flight, the flights in opening order give back the transmissions, every flight has its own file with exactly those, and no earlier file is touched |
| LogbookFlights.FlightOpensIff | src/core/cross_country_log.cpp:302-328 | over every run a transmission opens a flight exactly if it is the first, a new flight was asked for since the last one, or it is an initial call for departure from IDLE on the ground and the open flight has flown; any other joins the open flight |
| LogbookFlights.FilesTell | src/core/cross_country_log.cpp:331-358 | over every run the file of every flight tells of exactly its transmissions: the initial call is missing if and only if it took off from a controlled field before anybody called in, and its destination is the other field an inbound call named last |
| LogbookFlights.WriteTells | src/core/cross_country_log.cpp:309-362 | one write keeps that |
| LogbookFlights.NameIsFirstFree | src/core/cross_country_log.cpp:215-225 | a flight is named by time and airports, numbered from 2 where that name is taken, the first free number |
| LogbookFlights.SanitizeMeans | src/core/cross_country_log.cpp:119-128 | an airport name keeps capitals and digits, reads small letters as capitals, ignores everything else, and is UNKNOWN when nothing is left |
| Repair.ExtractDigitTokens | src/atc/engine.cpp:80-94 | the scan loop yields the maximal digit runs |
| Repair.TokensSplit | src/atc/engine.cpp:80-94 | a character that is no digit separates numbers |
| Repair.RunIsOneToken | src/atc/engine.cpp:80-94 | an unbroken run is one token |
| Repair.RepairInventsDigits | src/atc/engine.cpp:101-112 | a repair is refused exactly when it holds some number more often than the original |

## Left out

- AtcGuard.RunAdvances: the generation counter is unbounded; wrap-around of 64 bits is not modelled.
- Floating point is modelled by `real`: rounding of timers, distances and samples is not.
- IEEE-754 WAV frames: their decoding is the parameter `floatFrame`; the chunk walk around it is modelled.
- Stopping or re-initialising the session with callbacks still in flight: runs start at start-up.
- Worker threads, audio, network, speech and language models: they appear as callbacks with a result.
- Intent parsing and language-model routing: a step is given the parsed message; the readback gate, the intent latch
  and the number check of repairs are modelled.
- Traffic dialog wording, say-again streaks, profanity warnings: outside the snapshot and without effect on the record.
- The regular expressions that capture a stated value: the parameter `stated`; the verdict Ok does not depend on it.
- Conformance of the initial call: the missing elements are parameters, and so is the wording of the re-request.
- Geometry (distances, bearings, cones, leg labels): given as numbers and truth values on each target.
- Text passes other than digits, frequencies and spelling (runways, keywords, wind, altitudes, clock, umlauts, capitals):
  same shape as the frequency pass, and the full normaliser is not idempotent.
- The English ICAO parser lower-cases its key once more; its input is lower case already.
- Template variables that depend only on message and situation are the parameter `ambient`.
- Logbook.LogbookIsComplete: assumes that file operations succeed; the temporary file and the summary block are not modelled.
- The library sort in the landing sequence is a function; its order is strict, so its result is unique.
- LandingSequence.ComputeLandingSequence: distances to the threshold are given, not computed.
- JSON loading, settings dialogs, logging text, phraseology hints, ATIS text: lookups that would add only easy members.
