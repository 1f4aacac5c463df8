/** The push-to-talk session: one exchange at a time, speech synthesis with retries, the revert guard,
    and the ATIS side channel.  Every frame and every callback is one step of the flight loop. */
module Session {
  import opened AtcPipeline
  import S = AtcState

  datatype Ptt = Ready | Recording | Processing | Playing

  type Machine = S.Machine

  /** What a synthesis in flight was started for. */
  datatype Job = Dialog | Call | AtisBroadcast(com: nat)

  /** `Failed` covers an error and an empty result alike. */
  datatype SpeechResult = Spoken | Failed | ContentBlocked

  datatype Request = Request(text: string, snapshot: Machine, expected: nat, valid: bool)

  /** The session's variables, the desk they act on, and the callbacks still to come: `transcribing`,
      `thinking` (the snapshot the engine's callback holds) and `jobs`.  `syntheses`, `restores` and
      `answered` are auxiliary: syntheses started and restores tried since the last guarded answer,
      and the machine as that answer left it. */
  datatype State = State(
    ptt: Ptt,
    ttsPending: bool,
    failures: nat,
    retryTimer: real,
    networkError: bool,
    blocked: bool,
    request: Request,
    lastTranscript: string,
    atisPlaying: bool,
    atisCom: nat,
    atisCooldown: real,
    atisTuned: real,
    atisFailures: nat,
    desk: Desk,
    transcribing: bool,
    thinking: seq<Machine>,
    jobs: seq<Job>,
    syntheses: nat,
    restores: nat,
    answered: Machine)

  const MAX_TRIES := 3
  const RETRY_DELAY := 3.0
  const FRAME := 1.0 / 60.0
  const ATIS_COOLDOWN := 120.0
  const ATIS_TUNE_DELAY := 2.0
  const ATIS_TRIES := 3
  const ATIS_RETRY_DELAY := 15.0

  const NO_REQUEST := Request("", S.FRESH, 0, false)

  function Init(t: Desk): State {
    State(Ready, false, 0, 0.0, false, false, NO_REQUEST, "", false, 0, 0.0, 0.0, 0, t, false, [], [], 0, 0, t.m)
  }

  // ── Speaking ──────────────────────────────────────────────────────

  function DispatchGuarded(s: State): (t: State)
    ensures t.restores == s.restores && t.request == s.request
  {
    if !s.request.valid then s
    else s.(ptt := Playing, ttsPending := true, jobs := s.jobs + [Dialog], syntheses := s.syntheses + 1)
  }

  function SpeakGuarded(s: State, text: string, snapshot: Machine, expected: nat): State {
    DispatchGuarded(s.(request := Request(text, snapshot, expected, true), failures := 0, retryTimer := 0.0,
                       networkError := false, blocked := false,
                       syntheses := 0, restores := 0, answered := s.desk.m))
  }

  function Speak(s: State, job: Job): (t: State)
    ensures t.restores == s.restores && t.request == s.request
  {
    s.(ptt := Playing, ttsPending := true, jobs := s.jobs + [job])
  }

  /** The chain gives up: the revert guard is tried, the flight loop is free again. */
  function GiveUp(s: State, contentBlocked: bool): State {
    var (m, _) := S.RestoreIfGen(s.desk.m, s.request.snapshot, s.request.expected);
    s.(desk := s.desk.(m := m), restores := s.restores + 1,
       blocked := s.blocked || contentBlocked, networkError := s.networkError || !contentBlocked,
       failures := 0, retryTimer := 0.0, request := s.request.(valid := false), ptt := Ready)
  }

  function DialogDone(s: State, r: SpeechResult): State {
    var t := s.(ttsPending := false);
    match r
    case Spoken => t.(failures := 0, networkError := false, blocked := false, request := t.request.(valid := false))
    case ContentBlocked => GiveUp(t, true)
    case Failed =>
      if t.failures + 1 < MAX_TRIES then t.(failures := t.failures + 1, retryTimer := RETRY_DELAY)
      else GiveUp(t.(failures := t.failures + 1), false)
  }

  function SpeechDone(s: State, job: Job, r: SpeechResult): State {
    var t := s.(ttsPending := false);
    if r.Spoken? then (if job.AtisBroadcast? then t.(atisFailures := 0) else t)
    else
      var u := t.(ptt := Ready);
      if !job.AtisBroadcast? then u
      else if u.atisFailures + 1 < ATIS_TRIES then
        u.(atisPlaying := false, atisFailures := u.atisFailures + 1, atisCooldown := ATIS_RETRY_DELAY)
      else u.(atisPlaying := false, atisFailures := 0, atisCooldown := ATIS_COOLDOWN)
  }

  /** The callback of the `i`-th synthesis in flight. */
  function CallbackArrives(s: State, i: nat, r: SpeechResult): State
    requires i < |s.jobs|
  {
    var t := s.(jobs := s.jobs[..i] + s.jobs[i + 1..]);
    if s.jobs[i].Dialog? then DialogDone(t, r) else SpeechDone(t, s.jobs[i], r)
  }

  // ── Exchanges ─────────────────────────────────────────────────────

  /** The snapshot is taken, then the engine starts; `after` is the desk as it leaves it at once. */
  function DispatchTranscript(s: State, text: string, after: Desk): State {
    s.(lastTranscript := text, networkError := false, blocked := false,
       thinking := s.thinking + [s.desk.m], desk := after)
  }

  function EngineAnswers(s: State, after: Desk, text: string): State
    requires s.thinking != []
  {
    var snapshot := s.thinking[0];
    var t := s.(desk := after, thinking := s.thinking[1..]);
    if text == "" then t.(ptt := Ready) else SpeakGuarded(t, text, snapshot, t.desk.m.gen)
  }

  function PressPtt(s: State, radioAndBackendsReady: bool): State {
    if !s.ptt.Ready? || !radioAndBackendsReady then s else s.(ptt := Recording)
  }

  function ReleasePtt(s: State, longEnough: bool): State {
    if !s.ptt.Recording? then s
    else if !longEnough then s.(ptt := Ready)
    else s.(ptt := Processing, transcribing := true)
  }

  function Transcribed(s: State, success: bool, text: string, after: Desk): State {
    var t := s.(transcribing := false);
    if !success then t.(ptt := Ready) else DispatchTranscript(t, text, after)
  }

  function SubmitText(s: State, text: string, ready: bool, after: Desk): State {
    if !s.ptt.Ready? || text == "" || !ready then s
    else DispatchTranscript(s.(ptt := Processing), text, after)
  }

  function RetryLast(s: State, ttsReady: bool, after: Desk): State {
    if !s.ptt.Ready? || !s.networkError || s.lastTranscript == "" || !ttsReady then s
    else DispatchTranscript(s.(ptt := Processing), s.lastTranscript, after)
  }

  // ── Frames ────────────────────────────────────────────────────────

  /** What one frame sees.  `after`: the desk as the frame's checks leave it.  `call`: a go-around or traffic
      call due now, "" if none.  `tunedCom`: the powered radio tuned to ATIS, 0 if none. */
  datatype Frame = Frame(audioPlaying: bool, ttsReady: bool, after: Desk, call: string, tunedCom: nat)

  function EndPlayback(s: State, f: Frame): (t: State)
    ensures t.restores == s.restores && t.request == s.request
  {
    if s.ptt.Playing? && !s.ttsPending && !f.audioPlaying && s.retryTimer <= 0.0
    then s.(ptt := Ready, atisPlaying := false) else s
  }

  function TickRetry(s: State): (t: State)
    ensures t.restores == s.restores && t.request == s.request
  {
    if s.retryTimer <= 0.0 then s
    else if s.retryTimer - FRAME > 0.0 then s.(retryTimer := s.retryTimer - FRAME)
    else DispatchGuarded(s.(retryTimer := 0.0))
  }

  function TickCooldown(s: State): (t: State)
    ensures t.restores == s.restores && t.request == s.request
  {
    if s.atisCooldown > 0.0 then s.(atisCooldown := s.atisCooldown - FRAME) else s
  }

  function PollCalls(s: State, f: Frame): (t: State)
    ensures t.restores == s.restores && t.request == s.request
  {
    if s.ptt.Ready? && f.ttsReady && f.call != "" then Speak(s, Call) else s
  }

  function TuneAtis(s: State, f: Frame): (t: State)
    ensures t.restores == s.restores && t.request == s.request
  {
    if f.tunedCom != 0 then s.(atisTuned := s.atisTuned + FRAME) else s.(atisTuned := 0.0, atisFailures := 0)
  }

  function AbortAtis(s: State, f: Frame): (t: State)
    ensures t.restores == s.restores && t.request == s.request
  {
    if s.atisPlaying && f.tunedCom != s.atisCom then s.(atisPlaying := false, ptt := Ready) else s
  }

  function TriggerAtis(s: State, f: Frame): (t: State)
    ensures t.restores == s.restores && t.request == s.request
  {
    if s.ptt.Ready? && s.atisCooldown <= 0.0 && f.tunedCom != 0 && s.atisTuned >= ATIS_TUNE_DELAY && f.ttsReady then
      Speak(s.(atisPlaying := true, atisCom := f.tunedCom, atisCooldown := ATIS_COOLDOWN), AtisBroadcast(f.tunedCom))
    else s
  }

  /** The frame up to the ATIS part. */
  function DialogFrame(s: State, f: Frame): (t: State)
    ensures t.restores == s.restores && t.request == s.request
  {
    var t := TickRetry(TickCooldown(EndPlayback(s, f)));
    PollCalls(t.(desk := f.after), f)
  }

  function Update(s: State, f: Frame): (t: State)
    ensures t.restores == s.restores && t.request == s.request
  {
    TriggerAtis(AbortAtis(TuneAtis(DialogFrame(s, f), f), f), f)
  }

  // ── The session as the program runs it ────────────────────────────

  class AtcSession {
    var s: State

    constructor (t: Desk)
      ensures s == Init(t)
    {
      s := Init(t);
    }

    method DispatchGuardedTts()
      modifies this
      ensures s == DispatchGuarded(old(s))
    {
      if !s.request.valid { return; }
      s := s.(ptt := Playing, ttsPending := true);
      s := s.(jobs := s.jobs + [Dialog], syntheses := s.syntheses + 1);
    }

    method SpeakResponseGuarded(text: string, snapshot: Machine, expected: nat)
      modifies this
      ensures s == SpeakGuarded(old(s), text, snapshot, expected)
    {
      hide DispatchGuarded;
      s := s.(request := Request(text, snapshot, expected, true));
      s := s.(failures := 0, retryTimer := 0.0);
      s := s.(networkError := false, blocked := false);
      s := s.(syntheses := 0, restores := 0, answered := s.desk.m);
      DispatchGuardedTts();
    }

    method SpeakResponse(job: Job)
      modifies this
      ensures s == Speak(old(s), job)
    {
      s := s.(ptt := Playing);
      s := s.(ttsPending := true, jobs := s.jobs + [job]);
    }

    method GuardedCallback(r: SpeechResult)
      modifies this
      ensures s == DialogDone(old(s), r)
    {
      hide GiveUp;
      s := s.(ttsPending := false);
      if r.Spoken? {
        s := s.(failures := 0, networkError := false, blocked := false);
        s := s.(request := s.request.(valid := false));
        return;
      }
      if !r.ContentBlocked? {
        s := s.(failures := s.failures + 1);
        if s.failures < MAX_TRIES {
          s := s.(retryTimer := RETRY_DELAY);
          return;
        }
      }
      EngageRevertGuard(r.ContentBlocked?);
    }

    /** The flag for the pilot, and the flight loop free again. */
    method FreeSession(contentBlocked: bool)
      modifies this
      ensures s == old(s).(blocked := old(s).blocked || contentBlocked,
                           networkError := old(s).networkError || !contentBlocked,
                           failures := 0, retryTimer := 0.0, request := old(s).request.(valid := false), ptt := Ready)
    {
      if contentBlocked { s := s.(blocked := true); } else { s := s.(networkError := true); }
      s := s.(failures := 0, retryTimer := 0.0);
      s := s.(ptt := Ready, request := s.request.(valid := false));
    }

    method EngageRevertGuard(contentBlocked: bool)
      modifies this
      ensures s == GiveUp(old(s), contentBlocked)
    {
      hide S.RestoreIfGen, S.FRESH;
      var (m, restored) := S.RestoreIfGen(s.desk.m, s.request.snapshot, s.request.expected);
      s := s.(desk := s.desk.(m := m), restores := s.restores + 1);
      FreeSession(contentBlocked);
    }

    method SpeechCallback(job: Job, r: SpeechResult)
      modifies this
      ensures s == SpeechDone(old(s), job, r)
    {
      s := s.(ttsPending := false);
      if r.Spoken? {
        if job.AtisBroadcast? { s := s.(atisFailures := 0); }
        return;
      }
      s := s.(ptt := Ready);
      if job.AtisBroadcast? {
        s := s.(atisPlaying := false, atisFailures := s.atisFailures + 1);
        if s.atisFailures < ATIS_TRIES {
          s := s.(atisCooldown := ATIS_RETRY_DELAY);
        } else {
          s := s.(atisCooldown := ATIS_COOLDOWN, atisFailures := 0);
        }
      }
    }

    /** The engine is handed the transcript; `after` is the desk before it waits or answers. */
    method DispatchPilotTranscript(text: string, after: Desk)
      modifies this
      ensures s == DispatchTranscript(old(s), text, after)
    {
      s := s.(lastTranscript := text);
      s := s.(networkError := false, blocked := false);
      s := s.(thinking := s.thinking + [s.desk.m]);
      s := s.(desk := after);
    }

    method EngineCallback(after: Desk, text: string)
      requires s.thinking != []
      modifies this
      ensures s == EngineAnswers(old(s), after, text)
    {
      hide SpeakGuarded;
      var snapshot := s.thinking[0];
      s := s.(thinking := s.thinking[1..]);
      s := s.(desk := after);
      if text == "" {
        s := s.(ptt := Ready);
        return;
      }
      SpeakResponseGuarded(text, snapshot, s.desk.m.gen);
    }

    method OnPttPressed(radioAndBackendsReady: bool)
      modifies this
      ensures s == PressPtt(old(s), radioAndBackendsReady)
    {
      if !s.ptt.Ready? { return; }
      if !radioAndBackendsReady { return; }
      s := s.(ptt := Recording);
    }

    method OnPttReleased(longEnough: bool)
      modifies this
      ensures s == ReleasePtt(old(s), longEnough)
    {
      if !s.ptt.Recording? { return; }
      if !longEnough {
        s := s.(ptt := Ready);
        return;
      }
      s := s.(ptt := Processing);
      s := s.(transcribing := true);
    }

    method OnTranscribed(success: bool, text: string, after: Desk)
      modifies this
      ensures s == Transcribed(old(s), success, text, after)
    {
      hide DispatchTranscript;
      s := s.(transcribing := false);
      if !success {
        s := s.(ptt := Ready);
        return;
      }
      DispatchPilotTranscript(text, after);
    }

    method OnSubmitText(text: string, ready: bool, after: Desk)
      modifies this
      ensures s == SubmitText(old(s), text, ready, after)
    {
      hide DispatchTranscript;
      if !s.ptt.Ready? || text == "" || !ready { return; }
      s := s.(ptt := Processing);
      DispatchPilotTranscript(text, after);
    }

    method RetryLastTransmission(ttsReady: bool, after: Desk)
      modifies this
      ensures s == RetryLast(old(s), ttsReady, after)
    {
      hide DispatchTranscript;
      if !s.ptt.Ready? || !s.networkError || s.lastTranscript == "" || !ttsReady { return; }
      s := s.(ptt := Processing);
      DispatchPilotTranscript(s.lastTranscript, after);
    }

    method RunDialogFrame(f: Frame)
      modifies this
      ensures s == DialogFrame(old(s), f)
    {
      hide DispatchGuarded, Speak, TickRetry, EndPlayback, TickCooldown;
      RunPlayback(f);
      RunRetryTimer();
      s := s.(desk := f.after);
      if s.ptt.Ready? && f.ttsReady && f.call != "" { SpeakResponse(Call); }
    }

    method RunPlayback(f: Frame)
      modifies this
      ensures s == TickCooldown(EndPlayback(old(s), f))
    {
      if s.ptt.Playing? && !s.ttsPending && !f.audioPlaying && s.retryTimer <= 0.0 {
        if s.atisPlaying { s := s.(atisPlaying := false); }
        s := s.(ptt := Ready);
      }
      if s.atisCooldown > 0.0 { s := s.(atisCooldown := s.atisCooldown - FRAME); }
    }

    method RunRetryTimer()
      modifies this
      ensures s == TickRetry(old(s))
    {
      hide DispatchGuarded;
      if s.retryTimer > 0.0 {
        s := s.(retryTimer := s.retryTimer - FRAME);
        if s.retryTimer <= 0.0 {
          s := s.(retryTimer := 0.0);
          if s.request.valid { DispatchGuardedTts(); } else { NothingToDispatch(s); }
        }
      }
    }

    method RunAtisTuning(f: Frame)
      modifies this
      ensures s == AbortAtis(TuneAtis(old(s), f), f)
    {
      if f.tunedCom != 0 {
        s := s.(atisTuned := s.atisTuned + FRAME);
      } else {
        s := s.(atisTuned := 0.0, atisFailures := 0);
      }
      if s.atisPlaying && f.tunedCom != s.atisCom {
        s := s.(atisPlaying := false);
        s := s.(ptt := Ready);
      }
    }

    method UpdateFrame(f: Frame)
      modifies this
      ensures s == Update(old(s), f)
    {
      hide DialogFrame, Speak, TuneAtis, AbortAtis;
      RunDialogFrame(f);
      RunAtisTuning(f);
      if s.ptt.Ready? && s.atisCooldown <= 0.0 && f.tunedCom != 0 && s.atisTuned >= ATIS_TUNE_DELAY && f.ttsReady {
        s := s.(atisPlaying := true, atisCom := f.tunedCom, atisCooldown := ATIS_COOLDOWN);
        SpeakResponse(AtisBroadcast(f.tunedCom));
      }
    }
  }

  lemma NothingToDispatch(s: State)
    requires !s.request.valid
    ensures DispatchGuarded(s) == s
  {
  }
}
