/** The pilot's side of the session: who has the floor while a message is spoken, transcribed and handed
    over, and what the two warning lights mean. */
module SessionPilot {
  import opened Session
  import opened SessionRuns
  import P = AtcPipeline
  import S = AtcState

  // ── The floor ─────────────────────────────────────────────────────

  /** Nothing is spoken, tried or thought about. */
  predicate Quiet(s: State) {
    s.jobs == [] && s.thinking == [] && !s.request.valid && s.retryTimer == 0.0 && !s.ttsPending && !s.atisPlaying
  }

  /** The lights and the transcript kept for the retry button. */
  predicate SameLights(s: State, t: State) {
    t.networkError == s.networkError && t.blocked == s.blocked && t.lastTranscript == s.lastTranscript
  }

  /** Whenever the session is ready it is quiet. */
  lemma ReadyIsQuiet(s: State)
    requires Inv(s) && s.ptt.Ready?
    ensures Quiet(s) && !s.transcribing
  {
  }

  predicate Speaking(s: State) { s.ptt.Recording? && Quiet(s) && !s.transcribing }

  predicate Transcribing(s: State) { s.ptt.Processing? && Quiet(s) && s.transcribing }

  /** From the press on, nothing but letting go of the key ends the recording. */
  lemma RecordingKeeps(s: State, e: Event)
    requires Speaking(s) && !e.PttUp?
    ensures Speaking(Next(s, e)) && SameLights(s, Next(s, e))
  {
    hide Update;
    if e.Tick? { FrameIsQuiet(s, e.f); }
  }

  lemma TranscribingKeeps(s: State, e: Event)
    requires Transcribing(s) && !e.Heard?
    ensures Transcribing(Next(s, e)) && SameLights(s, Next(s, e))
  {
    hide Update;
    if e.Tick? { FrameIsQuiet(s, e.f); }
  }

  /** While the pilot has the floor a frame starts nothing. */
  lemma FrameIsQuiet(s: State, f: Frame)
    requires Quiet(s) && (s.ptt.Recording? || s.ptt.Processing?)
    ensures var t := Update(s, f);
      Quiet(t) && t.ptt == s.ptt && t.transcribing == s.transcribing && SameLights(s, t)
  {
    FrameKeepsLights(s, f);
    hide SameLights;
    var a := TickRetry(TickCooldown(EndPlayback(s, f)));
    assert Quiet(a) && a.ptt == s.ptt && a.transcribing == s.transcribing;
    assert DialogFrame(s, f) == a.(desk := f.after);
  }

  predicate Holding(es: seq<Event>) { forall i :: 0 <= i < |es| ==> !es[i].PttUp? }

  predicate Unheard(es: seq<Event>) { forall i :: 0 <= i < |es| ==> !es[i].Heard? }

  lemma {:induction false} SpeakingRun(s: State, es: seq<Event>)
    requires Speaking(s) && Holding(es)
    ensures Speaking(Run(s, es)) && SameLights(s, Run(s, es))
    decreases |es|
  {
    hide Next, Speaking;
    if es != [] {
      RecordingKeeps(s, es[0]);
      SpeakingRun(Next(s, es[0]), es[1..]);
    }
  }

  lemma {:induction false} TranscribingRun(s: State, es: seq<Event>)
    requires Transcribing(s) && Unheard(es)
    ensures Transcribing(Run(s, es)) && SameLights(s, Run(s, es))
    decreases |es|
  {
    hide Next, Transcribing;
    if es != [] {
      TranscribingKeeps(s, es[0]);
      TranscribingRun(Next(s, es[0]), es[1..]);
    }
  }

  /** A press that is accepted gives the pilot the floor until the key is let go, whatever else happens: no
      call, no broadcast and no typed text gets in.  A short recording changes nothing but frees the
      session; a long one holds it until the transcript is there. */
  lemma PressHasTheFloor(s: State, es: seq<Event>)
    requires s.ptt.Ready? && Quiet(s) && !s.transcribing && Holding(es)
    ensures Next(s, PttDown(false)) == s
    ensures var t := Run(Next(s, PttDown(true)), es);
      && Speaking(t) && SameLights(s, t)
      && Next(t, PttUp(false)) == t.(ptt := Ready)
      && Transcribing(Next(t, PttUp(true))) && SameLights(s, Next(t, PttUp(true)))
  {
    hide Run;
    SpeakingRun(Next(s, PttDown(true)), es);
  }

  /** A transcript that cannot be had frees the session; one that is there is handed to the engine with the
      record as it stands and kept for a retry, and both lights go out. */
  lemma TranscriptIsHandedOver(s: State, es: seq<Event>, text: string, after: P.Desk)
    requires Transcribing(s) && Unheard(es)
    ensures var t := Run(s, es);
      && Next(t, Heard(false, text, after)) == t.(ptt := Ready, transcribing := false)
      && (var n := Next(t, Heard(true, text, after));
          n.ptt.Processing? && n.thinking == [t.desk.m] && n.desk == after && n.lastTranscript == text
          && !n.networkError && !n.blocked && n.jobs == [] && !n.transcribing)
  {
    hide Run;
    TranscribingRun(s, es);
  }

  /** Speaking, typing and the retry button are three ways to say the same. */
  lemma VoiceOrText(s: State, text: string, after: P.Desk)
    requires s.ptt.Ready? && !s.transcribing
    ensures var voice := Next(Next(Next(s, PttDown(true)), PttUp(true)), Heard(true, text, after));
      && (Next(s, Typed(text, true, after)) == if text == "" then s else voice)
      && (text == s.lastTranscript != "" ==>
            Next(s, RetryButton(true, after)) == if s.networkError then voice else s)
  {
  }

  /** An engine that has nothing to say frees the session; an answer is spoken under the record from before
      the transcript and the counter as the engine left it. */
  lemma EngineHasSpoken(s: State, after: P.Desk, text: string)
    requires s.thinking != []
    ensures var t := EngineAnswers(s, after, text);
      && t.desk == after && t.thinking == s.thinking[1..]
      && (text == "" ==> t.ptt.Ready? && t.jobs == s.jobs && t.request == s.request)
      && (text != "" ==>
            && t.ptt.Playing? && t.jobs == s.jobs + [Dialog] && t.failures == 0
            && t.request == Request(text, s.thinking[0], after.m.gen, true))
  {
    hide SpeakGuarded;
    var t := s.(desk := after, thinking := s.thinking[1..]);
    AnswerIsTried(t, text, s.thinking[0], after.m.gen);
  }

  lemma AnswerIsTried(s: State, text: string, snapshot: S.Machine, expected: nat)
    ensures var t := SpeakGuarded(s, text, snapshot, expected);
      && t.desk == s.desk && t.thinking == s.thinking && t.ptt.Playing? && t.jobs == s.jobs + [Dialog] && t.failures == 0
      && t.request == Request(text, snapshot, expected, true)
  {
  }

  // ── The lights ────────────────────────────────────────────────────

  /** A callback of the answer in flight. */
  predicate AnswerReports(s: State, e: Event, r: SpeechResult) {
    e.Synthesized? && e.i < |s.jobs| && s.jobs[e.i].Dialog? && e.r == r
  }

  /** The pilot's message is taken, or an answer is tried or heard. */
  predicate Resumes(s: State, e: Event) {
    || (e.Heard? && s.transcribing && e.success)
    || (e.Typed? && s.ptt.Ready? && e.text != "" && e.ready)
    || (e.RetryButton? && s.ptt.Ready? && s.networkError && s.lastTranscript != "" && e.ttsReady)
    || (e.Answered? && s.thinking != [] && e.text != "")
    || AnswerReports(s, e, Spoken)
  }

  /** The network light goes on exactly with the third failure of an answer, the other with an answer that
      is blocked; both go out exactly when the exchange resumes. */
  lemma LightsIff(s: State, e: Event)
    ensures var t := Next(s, e);
      && (t.networkError <==> (AnswerReports(s, e, Failed) && s.failures >= 2) || (s.networkError && !Resumes(s, e)))
      && (t.blocked <==> AnswerReports(s, e, ContentBlocked) || (s.blocked && !Resumes(s, e)))
  {
    hide S.RestoreIfGen, Update, CallbackArrives, EngineAnswers, Transcribed, SubmitText, RetryLast;
    match e
    case Tick(f) => FrameKeepsLights(s, f);
    case Synthesized(i, r) => if i < |s.jobs| { ReportLights(s, i, r); }
    case Answered(after, text) => if s.thinking != [] { AnswerLights(s, after, text); }
    case Heard(success, text, after) => TakenLights(s, success, text, after);
    case Typed(text, ready, after) => TakenLights(s, ready, text, after);
    case RetryButton(ready, after) => TakenLights(s, ready, s.lastTranscript, after);
    case _ =>
  }

  lemma AnswerLights(s: State, after: P.Desk, text: string)
    requires s.thinking != []
    ensures var t := EngineAnswers(s, after, text);
      if text == "" then SameLights(s, t) else !t.networkError && !t.blocked
  {
  }

  /** The three ways a message is taken. */
  lemma TakenLights(s: State, ready: bool, text: string, after: P.Desk)
    ensures var t := Transcribed(s, ready, text, after); if ready then !t.networkError && !t.blocked else SameLights(s, t)
    ensures var t := SubmitText(s, text, ready, after);
      if s.ptt.Ready? && ready && text != "" then !t.networkError && !t.blocked else SameLights(s, t)
    ensures var t := RetryLast(s, ready, after);
      if s.ptt.Ready? && ready && s.networkError && s.lastTranscript != "" then !t.networkError && !t.blocked
      else SameLights(s, t)
  {
  }

  lemma FrameKeepsLights(s: State, f: Frame)
    ensures SameLights(s, Update(s, f))
  {
    hide DialogFrame, TuneAtis, AbortAtis, TriggerAtis;
    DialogKeepsLights(s, f);
    var t := TuneAtis(DialogFrame(s, f), f);
    AtisKeepsLights(DialogFrame(s, f), f);
    AtisKeepsLights(t, f);
    AtisKeepsLights(AbortAtis(t, f), f);
  }

  lemma DialogKeepsLights(s: State, f: Frame)
    ensures SameLights(s, DialogFrame(s, f))
  {
    hide EndPlayback, TickRetry, TickCooldown;
    TimersKeepLights(s, f);
    TimersKeepLights(EndPlayback(s, f), f);
    TimersKeepLights(TickCooldown(EndPlayback(s, f)), f);
  }

  lemma TimersKeepLights(s: State, f: Frame)
    ensures SameLights(s, EndPlayback(s, f)) && SameLights(s, TickCooldown(s)) && SameLights(s, TickRetry(s))
  {
  }

  lemma AtisKeepsLights(s: State, f: Frame)
    ensures SameLights(s, TuneAtis(s, f)) && SameLights(s, AbortAtis(s, f)) && SameLights(s, TriggerAtis(s, f))
  {
  }

  lemma ReportLights(s: State, i: nat, r: SpeechResult)
    requires i < |s.jobs|
    ensures var t := CallbackArrives(s, i, r);
      if s.jobs[i].Dialog? then
        && (t.networkError <==> (r.Failed? && s.failures >= 2) || (s.networkError && !r.Spoken?))
        && (t.blocked <==> r.ContentBlocked? || (s.blocked && !r.Spoken?))
      else SameLights(s, t)
  {
    hide S.RestoreIfGen;
  }

  /** After the first and the second failure the answer is tried again three seconds later. */
  lemma FailureWaits(s: State, i: nat)
    requires i < |s.jobs| && s.jobs[i].Dialog?
    ensures var t := Next(s, Synthesized(i, Failed));
      if s.failures < 2 then t.retryTimer == 3.0 && t.failures == s.failures + 1 && t.ptt == s.ptt && t.request == s.request
      else t.retryTimer == 0.0 && t.failures == 0 && t.ptt.Ready? && !t.request.valid
  {
    hide S.RestoreIfGen;
  }
}
