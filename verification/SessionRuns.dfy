/** The session over whole runs: one synthesis at a time, three tries, one restore, and an end. */
module SessionRuns {
  import P = AtcPipeline
  import opened Session
  import S = AtcState

  /** Everything the flight loop may hand to the session, callbacks included, and what others do to
      the state machine in between. */
  datatype Event =
    | PttDown(radioAndBackendsReady: bool)
    | PttUp(longEnough: bool)
    | Heard(success: bool, text: string, after: P.Desk)
    | Typed(text: string, ready: bool, after: P.Desk)
    | RetryButton(ttsReady: bool, after: P.Desk)
    | Answered(after: P.Desk, text: string)
    | Synthesized(i: nat, r: SpeechResult)
    | Tick(f: Frame)
    | Elsewhere(after: P.Desk)

  function Next(s: State, e: Event): State {
    match e
    case PttDown(ready) => PressPtt(s, ready)
    case PttUp(longEnough) => ReleasePtt(s, longEnough)
    case Heard(success, text, after) => if s.transcribing then Transcribed(s, success, text, after) else s
    case Typed(text, ready, after) => SubmitText(s, text, ready, after)
    case RetryButton(ready, after) => RetryLast(s, ready, after)
    case Answered(after, text) => if s.thinking != [] then EngineAnswers(s, after, text) else s
    case Synthesized(i, r) => if i < |s.jobs| then CallbackArrives(s, i, r) else s
    case Tick(f) => Update(s, f)
    case Elsewhere(after) => s.(desk := after)
  }

  function Run(s: State, es: seq<Event>): State
    decreases |es|
  {
    if es == [] then s else Run(Next(s, es[0]), es[1..])
  }

  /** The pilot leaves the ATIS frequency while the broadcast is still being synthesised. */
  predicate AbortsSynthesis(s: State, e: Event) {
    e.Tick? &&
    var t := TuneAtis(DialogFrame(s, e.f), e.f);
    t.ttsPending && t.atisPlaying && e.f.tunedCom != t.atisCom
  }

  /** What an event does to the desk obeys the counter rule, as every run of the state machine does
      (AtcGuard.RunAdvances). */
  predicate Legal(s: State, e: Event) {
    match e
    case Heard(_, _, after) => S.Advances(s.desk.m, after.m)
    case Typed(_, _, after) => S.Advances(s.desk.m, after.m)
    case RetryButton(_, after) => S.Advances(s.desk.m, after.m)
    case Answered(after, _) => S.Advances(s.desk.m, after.m)
    case Tick(f) => S.Advances(s.desk.m, f.after.m)
    case Elsewhere(after) => S.Advances(s.desk.m, after.m)
    case _ => true
  }

  /** A run without an abort of a synthesis. */
  predicate NoAbort(s: State, es: seq<Event>)
    decreases |es|
  {
    es == [] || (Legal(s, es[0]) && !AbortsSynthesis(s, es[0]) && NoAbort(Next(s, es[0]), es[1..]))
  }

  // ── The invariant ─────────────────────────────────────────────────

  function Count(b: bool): nat { if b then 1 else 0 }

  /** One callback at most is awaited, and the state says which. */
  predicate OneAtATime(s: State) {
    && |s.jobs| == Count(s.ttsPending)
    && (s.ttsPending ==> s.ptt.Playing?)
    && |s.thinking| + Count(s.transcribing) == Count(s.ptt.Processing?)
    && (s.atisPlaying ==> s.ptt.Playing? && !s.request.valid && (s.jobs != [] ==> s.jobs[0].AtisBroadcast?))
    && (s.jobs != [] && s.jobs[0].Dialog? <==> s.request.valid && s.ttsPending)
  }

  /** An open chain: every try but the running one has failed, fewer than three have, nothing has been
      restored yet, and nobody else can get in. */
  predicate OpenChain(s: State) {
    && s.ptt.Playing? && s.failures < MAX_TRIES && s.restores == 0
    && s.syntheses == s.failures + |s.jobs|
    && (if s.ttsPending then s.retryTimer == 0.0 else 0.0 < s.retryTimer <= RETRY_DELAY && s.failures > 0)
    && s.request.expected == s.answered.gen && S.Advances(s.answered, s.desk.m)
  }

  predicate Inv(s: State) {
    && OneAtATime(s)
    && (if s.request.valid then OpenChain(s) else s.retryTimer == 0.0)
    && s.syntheses <= MAX_TRIES && s.restores <= 1
  }

  lemma InvDesk(s: State, after: P.Desk)
    requires Inv(s) && S.Advances(s.desk.m, after.m)
    ensures Inv(s.(desk := after))
  {
    hide S.Semantic;
  }

  lemma InvDispatch(s: State, text: string, after: P.Desk)
    requires Inv(s.(ptt := Ready))
    ensures Inv(DispatchTranscript(s.(ptt := Processing), text, after))
  {
    hide S.Advances;
  }

  lemma InvAnswer(s: State, after: P.Desk, text: string)
    requires Inv(s) && s.thinking != []
    ensures Inv(EngineAnswers(s, after, text))
  {
  }

  lemma InvDialogDone(s: State, r: SpeechResult)
    requires Inv(s) && s.jobs == [Dialog]
    ensures Inv(DialogDone(s.(jobs := []), r))
  {
    hide S.Advances, S.RestoreIfGen;
  }

  lemma InvSpeechDone(s: State, r: SpeechResult)
    requires Inv(s) && |s.jobs| == 1 && !s.jobs[0].Dialog?
    ensures Inv(SpeechDone(s.(jobs := []), s.jobs[0], r))
  {
    hide S.Advances;
  }

  lemma InvCallback(s: State, i: nat, r: SpeechResult)
    requires Inv(s) && i < |s.jobs|
    ensures Inv(CallbackArrives(s, i, r))
  {
    hide S.Advances, DialogDone, SpeechDone, OpenChain;
    assert i == 0 && |s.jobs| == 1;
    assert s.jobs[..i] + s.jobs[i + 1..] == [];
    if s.jobs[0].Dialog? { InvDialogDone(s, r); } else { InvSpeechDone(s, r); }
  }

  lemma InvDialogFrame(s: State, f: Frame)
    requires Inv(s) && S.Advances(s.desk.m, f.after.m)
    ensures Inv(DialogFrame(s, f))
  {
    hide S.Advances;
    var a := EndPlayback(s, f);
    assert Inv(a);
    var b := TickCooldown(a);
    assert Inv(b);
    InvTickRetry(b);
    var c := TickRetry(b);
    InvDesk(c, f.after);
    InvPoll(c.(desk := f.after), f);
  }

  lemma InvTickRetry(s: State)
    requires Inv(s)
    ensures Inv(TickRetry(s))
  {
    hide S.Advances;
  }

  lemma InvPoll(s: State, f: Frame)
    requires Inv(s)
    ensures Inv(PollCalls(s, f))
  {
    hide S.Advances;
  }

  lemma InvAtis(s: State, f: Frame)
    requires Inv(s) && !(s.ttsPending && s.atisPlaying && f.tunedCom != s.atisCom)
    ensures Inv(TriggerAtis(AbortAtis(s, f), f))
  {
    hide S.Advances;
    var b := AbortAtis(s, f);
    assert Inv(b);
  }

  lemma InvTick(s: State, f: Frame)
    requires Inv(s) && S.Advances(s.desk.m, f.after.m) && !AbortsSynthesis(s, Tick(f))
    ensures Inv(Update(s, f))
  {
    hide DialogFrame, S.Advances, TriggerAtis, AbortAtis;
    InvDialogFrame(s, f);
    var a := TuneAtis(DialogFrame(s, f), f);
    assert Inv(a);
    InvAtis(a, f);
  }

  lemma InvNext(s: State, e: Event)
    requires Inv(s) && Legal(s, e) && !AbortsSynthesis(s, e)
    ensures Inv(Next(s, e))
  {
    hide AbortsSynthesis, Update, CallbackArrives, EngineAnswers, DispatchTranscript, S.Advances;
    match e
    case Heard(success, text, after) =>
      if s.transcribing {
        var t := s.(transcribing := false);
        assert Inv(t.(ptt := Ready));
        InvDispatch(t, text, after);
        assert t.(ptt := Processing) == t;
      }
    case Typed(text, ready, after) => if s.ptt.Ready? { assert s.(ptt := Ready) == s; InvDispatch(s, text, after); }
    case RetryButton(ready, after) => if s.ptt.Ready? { assert s.(ptt := Ready) == s; InvDispatch(s, s.lastTranscript, after); }
    case Answered(after, text) => if s.thinking != [] { InvAnswer(s, after, text); }
    case Synthesized(i, r) => if i < |s.jobs| { InvCallback(s, i, r); }
    case Tick(f) => InvTick(s, f);
    case Elsewhere(after) => InvDesk(s, after);
    case _ =>
  }

  /** In every run without an ATIS abort during synthesis. */
  lemma {:induction false} InvRun(s: State, es: seq<Event>)
    requires Inv(s) && NoAbort(s, es)
    ensures Inv(Run(s, es))
    decreases |es|
  {
    hide Inv, Next, AbortsSynthesis, Legal;
    if es != [] {
      InvNext(s, es[0]);
      InvRun(Next(s, es[0]), es[1..]);
    }
  }

  /** The session starts with nothing in flight. */
  lemma InvInit(t: P.Desk)
    ensures Inv(Init(t))
  {
    hide S.Advances;
  }

  /** From start-up: at most one synthesis in flight, at most three for one answer, at most one restore. */
  lemma OneSynthesisInFlight(t: P.Desk, es: seq<Event>)
    requires NoAbort(Init(t), es)
    ensures var s := Run(Init(t), es);
      |s.jobs| == Count(s.ttsPending) && s.syntheses <= MAX_TRIES && s.restores <= 1
      && (s.request.valid ==> s.restores == 0 && s.syntheses == s.failures + |s.jobs|)
  {
    hide Run, NoAbort, S.Advances;
    InvInit(t);
    InvRun(Init(t), es);
  }

  // ── What an open chain refuses, and how it ends ───────────────────

  /** While an answer is being spoken or retried, the pilot can start nothing. */
  lemma OpenChainRejectsPilot(s: State, ready: bool, text: string, after: P.Desk)
    requires Inv(s) && s.request.valid
    ensures PressPtt(s, ready) == s && SubmitText(s, text, ready, after) == s && RetryLast(s, ready, after) == s
  {
    hide S.Advances, DispatchTranscript;
  }

  predicate LastFailure(s: State, e: Event) {
    e.Synthesized? && e.i < |s.jobs| && s.jobs[e.i].Dialog?
    && (e.r.ContentBlocked? || (e.r.Failed? && s.failures + 1 == MAX_TRIES))
  }

  /** The restore is tried exactly when the chain fails for good, and that ends it. */
  lemma RestoreOnlyAtTheEnd(s: State, e: Event)
    requires Inv(s)
    ensures LastFailure(s, e) ==>
      var t := Next(s, e);
      t.restores == 1 && !t.request.valid && t.ptt.Ready? && t.jobs == [] && t.retryTimer == 0.0
      && (t.blocked <==> s.blocked || e.r.ContentBlocked?) && (t.networkError <==> s.networkError || e.r.Failed?)
    ensures !LastFailure(s, e) ==> Next(s, e).restores <= s.restores
  {
    hide S.Advances, S.RestoreIfGen, Update;
    match e
    case Synthesized(i, r) =>
      if i < |s.jobs| { assert s.jobs[..0] + s.jobs[1..] == []; }
    case _ =>
  }

  /** That restore either finds the machine exactly as the answer left it and puts the snapshot back,
      or refuses and leaves the machine alone. */
  lemma RestoreIsAllOrNothing(s: State, e: Event)
    requires Inv(s) && LastFailure(s, e)
    ensures var m, n := s.desk.m, Next(s, e).desk.m;
      if m.gen == s.answered.gen then
        S.Semantic(m) == S.Semantic(s.answered) && n == s.request.snapshot.(gen := m.gen + 1)
      else n == m
  {
  }

  // ── One conversation from dispatch to failure ─────────────────────

  /** The transcript goes to the engine, which answers after `waiting`; the answer is tried through
      `open`, and `last` is the callback with which it fails for good. */
  datatype Conversation = Conversation(dispatch: Event, waiting: seq<Event>, after: P.Desk, text: string,
                                       open: seq<Event>, last: Event)

  function Asked(s: State, c: Conversation): State { Next(s, c.dispatch) }
  function Waited(s: State, c: Conversation): State { Run(Asked(s, c), c.waiting) }
  function Speaking(s: State, c: Conversation): State { Next(Waited(s, c), Answered(c.after, c.text)) }
  function Failing(s: State, c: Conversation): State { Run(Speaking(s, c), c.open) }
  function Ended(s: State, c: Conversation): State { Next(Failing(s, c), c.last) }

  predicate NoAnswer(es: seq<Event>) { forall i :: 0 <= i < |es| ==> !es[i].Answered? }

  /** The same answer is still being tried after every one of the events. */
  predicate StaysOpen(s: State, es: seq<Event>)
    decreases |es|
  {
    s.request.valid && (es == [] || StaysOpen(Next(s, es[0]), es[1..]))
  }

  predicate Fails(s: State, c: Conversation) {
    && !c.dispatch.Answered? && s.thinking == [] && Asked(s, c).thinking != []
    && NoAbort(s, [c.dispatch])
    && NoAbort(Asked(s, c), c.waiting) && NoAnswer(c.waiting)
    && NoAbort(Waited(s, c), [Answered(c.after, c.text)]) && c.text != ""
    && NoAbort(Speaking(s, c), c.open) && StaysOpen(Speaking(s, c), c.open)
    && LastFailure(Failing(s, c), c.last)
  }

  lemma OneLegal(s: State, e: Event)
    requires NoAbort(s, [e])
    ensures Legal(s, e) && !AbortsSynthesis(s, e)
  {
    hide Legal, AbortsSynthesis, Next;
  }

  lemma DispatchCaptures(s: State, e: Event)
    requires Inv(s) && !e.Answered? && s.thinking == [] && Next(s, e).thinking != []
    ensures Next(s, e).thinking == [s.desk.m]
  {
    hide S.Advances, Update, CallbackArrives;
    match e
    case Tick(f) => UpdateThinks(s, f);
    case Synthesized(i, r) => if i < |s.jobs| { CallbackThinks(s, i, r); }
    case _ =>
  }

  /** Nothing but the speech side and the desk differs. */
  predicate Undisturbed(s: State, t: State) {
    t.thinking == s.thinking && t.lastTranscript == s.lastTranscript && t.answered == s.answered
  }

  lemma DialogFrameThinks(s: State, f: Frame)
    ensures Undisturbed(s, DialogFrame(s, f)) && DialogFrame(s, f).desk == f.after
  {
    var a := EndPlayback(s, f);
    assert Undisturbed(s, a);
    var b := TickCooldown(a);
    assert Undisturbed(s, b);
    RetryThinks(b);
    hide TickRetry, EndPlayback, TickCooldown, DispatchGuarded;
    var c := TickRetry(b).(desk := f.after);
    assert Undisturbed(s, c);
    PollThinks(c, f);
  }

  lemma RetryThinks(s: State)
    ensures Undisturbed(s, TickRetry(s))
  {
  }

  lemma PollThinks(s: State, f: Frame)
    ensures Undisturbed(s, PollCalls(s, f)) && PollCalls(s, f).desk == s.desk
  {
  }

  lemma UpdateThinks(s: State, f: Frame)
    ensures Undisturbed(s, Update(s, f)) && Update(s, f).desk == f.after
  {
    hide DialogFrame;
    DialogFrameThinks(s, f);
    var a := TuneAtis(DialogFrame(s, f), f);
    assert Undisturbed(s, a) && a.desk == f.after;
    var b := AbortAtis(a, f);
    assert Undisturbed(s, b) && b.desk == f.after;
  }

  lemma DialogThinks(s: State, r: SpeechResult)
    ensures var t := DialogDone(s, r); Undisturbed(s, t) && (t.request.valid ==> t.request == s.request && t.desk == s.desk)
  {
    hide S.RestoreIfGen;
  }

  lemma SpeechThinks(s: State, job: Job, r: SpeechResult)
    ensures var t := SpeechDone(s, job, r); Undisturbed(s, t) && t.request == s.request && t.desk == s.desk
  {
  }

  lemma CallbackThinks(s: State, i: nat, r: SpeechResult)
    requires i < |s.jobs|
    ensures var t := CallbackArrives(s, i, r);
      Undisturbed(s, t) && (t.request.valid ==> t.request == s.request && t.desk == s.desk)
  {
    hide DialogDone, SpeechDone;
    var t := s.(jobs := s.jobs[..i] + s.jobs[i + 1..]);
    DialogThinks(t, r);
    SpeechThinks(t, s.jobs[i], r);
  }

  /** While the engine thinks, no second transcript can be handed to it. */
  lemma ThinkingKeeps(s: State, e: Event)
    requires Inv(s) && s.thinking != [] && !e.Answered?
    ensures Next(s, e).thinking == s.thinking && Next(s, e).lastTranscript == s.lastTranscript
  {
    hide S.Advances, Update, CallbackArrives;
    match e
    case Tick(f) => UpdateThinks(s, f);
    case Synthesized(i, r) => if i < |s.jobs| { CallbackThinks(s, i, r); }
    case _ =>
  }

  lemma {:induction false} ThinkingRun(s: State, es: seq<Event>)
    requires Inv(s) && s.thinking != [] && NoAbort(s, es) && NoAnswer(es)
    ensures Inv(Run(s, es)) && Run(s, es).thinking == s.thinking && Run(s, es).lastTranscript == s.lastTranscript
    decreases |es|
  {
    hide Inv, Next, AbortsSynthesis, Legal;
    if es != [] {
      InvNext(s, es[0]);
      ThinkingKeeps(s, es[0]);
      ThinkingRun(Next(s, es[0]), es[1..]);
    }
  }

  /** While an answer is being tried, its request stands, and only frames and others move the desk. */
  lemma OpenKeeps(s: State, e: Event)
    requires Inv(s) && s.request.valid && Next(s, e).request.valid
    ensures var t := Next(s, e);
      && t.request == s.request && t.answered == s.answered && t.lastTranscript == s.lastTranscript
      && t.desk == (match e case Tick(f) => f.after case Elsewhere(after) => after case _ => s.desk)
  {
    hide S.Advances, Update, CallbackArrives;
    match e
    case Tick(f) => UpdateThinks(s, f);
    case Synthesized(i, r) => if i < |s.jobs| { CallbackThinks(s, i, r); }
    case _ =>
  }

  lemma {:induction false} OpenRun(s: State, es: seq<Event>)
    requires Inv(s) && NoAbort(s, es) && StaysOpen(s, es)
    ensures var t := Run(s, es);
      Inv(t) && t.request == s.request && t.answered == s.answered && t.lastTranscript == s.lastTranscript
    decreases |es|
  {
    hide Inv, Next, AbortsSynthesis, Legal;
    if es != [] {
      InvNext(s, es[0]);
      OpenKeeps(s, es[0]);
      OpenRun(Next(s, es[0]), es[1..]);
    }
  }

  lemma AnswerOpens(s: State, after: P.Desk, text: string)
    requires s.thinking != [] && text != ""
    ensures var t := Next(s, Answered(after, text));
      && t.request == Request(text, s.thinking[0], after.m.gen, true) && t.answered == after.m
      && t.desk == after && t.lastTranscript == s.lastTranscript
  {
  }

  lemma FailureGivesUp(s: State, e: Event)
    requires Inv(s) && LastFailure(s, e)
    ensures var t := Next(s, e);
      && t.desk == s.desk.(m := S.RestoreIfGen(s.desk.m, s.request.snapshot, s.request.expected).0)
      && t.lastTranscript == s.lastTranscript
  {
    hide S.RestoreIfGen, S.Advances;
  }

  lemma SpeakingIsOpen(s: State, c: Conversation)
    requires Inv(s) && Fails(s, c)
    ensures var t := Speaking(s, c);
      && Inv(t) && t.request == Request(c.text, s.desk.m, c.after.m.gen, true) && t.answered == c.after.m
      && t.desk == c.after && t.lastTranscript == Asked(s, c).lastTranscript
  {
    hide Inv, Next, Run, NoAbort, Legal, AbortsSynthesis, LastFailure, StaysOpen;
    OneLegal(s, c.dispatch);
    InvNext(s, c.dispatch);
    DispatchCaptures(s, c.dispatch);
    ThinkingRun(Asked(s, c), c.waiting);
    AnswerOpens(Waited(s, c), c.after, c.text);
    OneLegal(Waited(s, c), Answered(c.after, c.text));
    InvNext(Waited(s, c), Answered(c.after, c.text));
  }

  /** The failure of an answer, seen from its dispatch: if nothing semantic has happened since the
      engine answered, the machine is the one captured when the transcript was handed over; else it is
      left alone.  The session is idle and holds that very transcript for the retry button. */
  lemma FailureSeenFromDispatch(s: State, c: Conversation)
    requires Inv(s) && Fails(s, c)
    ensures var f, t := Failing(s, c), Ended(s, c);
      && (if f.desk.m.gen == c.after.m.gen
          then S.Semantic(f.desk.m) == S.Semantic(c.after.m) && t.desk.m == s.desk.m.(gen := f.desk.m.gen + 1)
          else t.desk.m == f.desk.m)
      && t.desk.lastAirport == f.desk.lastAirport
      && t.ptt.Ready? && !t.request.valid && t.lastTranscript == Asked(s, c).lastTranscript
      && (c.last.r.Failed? ==> t.networkError)
  {
    hide Inv, Next, Run, NoAbort, Legal, AbortsSynthesis, StaysOpen, Speaking;
    SpeakingIsOpen(s, c);
    OpenRun(Speaking(s, c), c.open);
    RestoreOnlyAtTheEnd(Failing(s, c), c.last);
    FailureGivesUp(Failing(s, c), c.last);
    OpenDesk(Failing(s, c), c.last);
  }

  lemma OpenDesk(s: State, e: Event)
    requires Inv(s) && LastFailure(s, e)
    ensures S.Advances(s.answered, s.desk.m)
  {
    hide S.Advances;
  }

  // ── Termination ───────────────────────────────────────────────────

  function Frames(t: real): int { -((-60.0 * t).Floor) }

  /** Callbacks and waiting frames an open chain has left. */
  function Rank(s: State): int {
    if !s.request.valid then 0
    else (2 - s.failures) * 181 + 1 + if s.ttsPending then 0 else Frames(s.retryTimer)
  }

  /** The awaited callback arrives, or a frame passes while waiting for the next try. */
  predicate Progress(s: State, e: Event) {
    s.request.valid && if s.ttsPending then e.Synthesized? && e.i < |s.jobs| else e.Tick?
  }

  lemma FramesFall(t: real)
    ensures Frames(RETRY_DELAY) == 180 && Frames(t - FRAME) == Frames(t) - 1
    ensures t > 0.0 ==> Frames(t) > 0
  {
    assert -60.0 * (t - FRAME) == -60.0 * t + 1.0;
    assert (-60.0 * t + 1.0).Floor == (-60.0 * t).Floor + 1;
    assert (-60.0 * RETRY_DELAY).Floor == -180;
  }

  lemma TickRank(s: State, f: Frame)
    requires Inv(s) && s.request.valid
    ensures var t := Update(s, f);
      t.request.valid && (if s.ttsPending then Rank(t) == Rank(s) else Rank(t) < Rank(s))
  {
    hide S.Advances, Frames, DialogFrame;
    FramesFall(s.retryTimer);
    DialogFrameRank(s, f);
  }

  /** A frame leaves an open chain as it is, but for the retry timer. */
  lemma DialogFrameRank(s: State, f: Frame)
    requires Inv(s) && s.request.valid
    ensures var t := DialogFrame(s, f);
      t.ptt.Playing? && !t.atisPlaying && t.failures == s.failures
      && (s.ttsPending ==> t.ttsPending)
      && (!s.ttsPending ==> if t.ttsPending then s.retryTimer > 0.0 else t.retryTimer == s.retryTimer - FRAME)
  {
    hide S.Advances;
  }

  lemma CallbackRank(s: State, i: nat, r: SpeechResult)
    requires Inv(s) && s.request.valid && i < |s.jobs|
    ensures CallbackArrives(s, i, r).request.valid ==> Rank(CallbackArrives(s, i, r)) < Rank(s)
  {
    hide S.Advances, S.RestoreIfGen, Frames;
    FramesFall(0.0);
  }

  lemma RankFalls(s: State, e: Event)
    requires Inv(s) && s.request.valid && Next(s, e).request.valid
    ensures Rank(Next(s, e)) <= Rank(s) - Count(Progress(s, e))
  {
    hide S.Advances, Update, CallbackArrives, Frames, DispatchTranscript;
    match e
    case Tick(f) => TickRank(s, f);
    case Synthesized(i, r) => if i < |s.jobs| { CallbackRank(s, i, r); }
    case _ =>
  }

  lemma RankPositive(s: State)
    requires Inv(s)
    ensures Rank(s) >= 0 && (s.request.valid ==> Rank(s) >= 1)
  {
    hide S.Advances;
    FramesFall(s.retryTimer);
  }

  function ProgressIn(s: State, es: seq<Event>): nat
    decreases |es|
  {
    if es == [] then 0 else Count(Progress(s, es[0])) + ProgressIn(Next(s, es[0]), es[1..])
  }

  /** A chain that is still open has used less than its rank: once the callbacks arrive it ends. */
  lemma {:induction false} ChainEnds(s: State, es: seq<Event>)
    requires Inv(s) && NoAbort(s, es) && StaysOpen(s, es)
    ensures ProgressIn(s, es) < Rank(s)
    decreases |es|
  {
    hide Inv, Next, AbortsSynthesis, Legal, Rank, Progress;
    RankPositive(s);
    if es != [] {
      InvNext(s, es[0]);
      RankFalls(s, es[0]);
      ChainEnds(Next(s, es[0]), es[1..]);
    }
  }

  /** A fresh answer takes at most three callbacks and twice 180 frames. */
  lemma FreshChainRank(s: State, text: string, snapshot: Machine, expected: nat)
    ensures Rank(SpeakGuarded(s, text, snapshot, expected)) == 363
  {
  }

  // ── A conversation that uses the bound up ─────────────────────────

  function Ticks(f: Frame, n: nat): seq<Event> { seq(n, i => Tick(f)) }

  /** The answer is being synthesised and nothing else is going on. */
  predicate Trying(s: State) {
    && s.ptt.Playing? && s.request.valid && s.ttsPending && s.jobs == [Dialog] && s.retryTimer == 0.0
    && s.thinking == [] && !s.transcribing && !s.atisPlaying && s.atisCooldown <= 0.0 && s.atisTuned == 0.0
    && s.atisFailures == 0
  }

  /** The same between two tries. */
  predicate Waiting(s: State) {
    && s.ptt.Playing? && s.request.valid && !s.ttsPending && s.jobs == [] && s.retryTimer > 0.0
    && s.thinking == [] && !s.transcribing && !s.atisPlaying && s.atisCooldown <= 0.0 && s.atisTuned == 0.0
    && s.atisFailures == 0
  }

  function Silence(t: P.Desk): Frame { Frame(false, true, t, "", 0) }

  lemma WaitTick(s: State)
    requires Waiting(s)
    ensures var t := Next(s, Tick(Silence(s.desk)));
      && t == (if s.retryTimer - FRAME > 0.0 then s.(retryTimer := s.retryTimer - FRAME)
               else s.(retryTimer := 0.0, ttsPending := true, jobs := [Dialog], syntheses := s.syntheses + 1))
      && Legal(s, Tick(Silence(s.desk))) && !AbortsSynthesis(s, Tick(Silence(s.desk)))
      && Progress(s, Tick(Silence(s.desk)))
  {
    assert s.jobs + [Dialog] == [Dialog];
  }

  /** A run of events, each of which is legal, aborts nothing, and keeps the chain open. */
  predicate Goes(s: State, es: seq<Event>) { NoAbort(s, es) && StaysOpen(s, es) && ProgressIn(s, es) == |es| }

  lemma GoesOne(s: State, e: Event, es: seq<Event>)
    requires s.request.valid && Legal(s, e) && !AbortsSynthesis(s, e) && Progress(s, e) && Goes(Next(s, e), es)
    ensures Goes(s, [e] + es) && Run(s, [e] + es) == Run(Next(s, e), es)
  {
    hide Next, Legal, AbortsSynthesis, Progress;
    assert ([e] + es)[1..] == es;
  }

  lemma GoesNowhere(s: State)
    requires s.request.valid
    ensures Goes(s, []) && Run(s, []) == s
  {
  }

  lemma {:induction false} WaitTicks(s: State, n: nat)
    requires Waiting(s) && n > 0 && s.retryTimer == n as real * FRAME
    ensures var es := Ticks(Silence(s.desk), n);
      Goes(s, es) && Run(s, es) == s.(retryTimer := 0.0, ttsPending := true, jobs := [Dialog], syntheses := s.syntheses + 1)
    decreases n
  {
    hide Next, Legal, AbortsSynthesis, Progress, Goes;
    var e := Tick(Silence(s.desk));
    WaitTick(s);
    assert Ticks(Silence(s.desk), n) == [e] + Ticks(Silence(s.desk), n - 1);
    if n == 1 {
      assert Ticks(Silence(s.desk), 0) == [];
      GoesNowhere(Next(s, e));
    } else {
      assert s.retryTimer - FRAME == (n - 1) as real * FRAME;
      WaitTicks(Next(s, e), n - 1);
    }
    GoesOne(s, e, Ticks(Silence(s.desk), n - 1));
  }

  lemma FailedTry(s: State)
    requires Trying(s) && s.failures < 2
    ensures var t := Next(s, Synthesized(0, Failed));
      && t == s.(jobs := [], ttsPending := false, failures := s.failures + 1, retryTimer := RETRY_DELAY)
      && Progress(s, Synthesized(0, Failed))
  {
    assert s.jobs[..0] + s.jobs[1..] == [];
  }

  /** One failed try and three seconds of waiting: 181 steps, and the next try runs. */
  lemma FailedRound(s: State)
    requires Trying(s) && s.failures < 2
    ensures var es := [Synthesized(0, Failed)] + Ticks(Silence(s.desk), 180);
      Goes(s, es) && Run(s, es) == s.(failures := s.failures + 1, syntheses := s.syntheses + 1)
  {
    hide Next, Progress, Goes;
    FailedTry(s);
    var t := Next(s, Synthesized(0, Failed));
    assert RETRY_DELAY == 180.0 * FRAME;
    WaitTicks(t, 180);
    assert Legal(s, Synthesized(0, Failed)) && !AbortsSynthesis(s, Synthesized(0, Failed));
    GoesOne(s, Synthesized(0, Failed), Ticks(Silence(s.desk), 180));
  }

  lemma {:induction false} GoesOn(s: State, a: seq<Event>, b: seq<Event>)
    requires Goes(s, a) && Goes(Run(s, a), b)
    ensures Goes(s, a + b) && Run(s, a + b) == Run(Run(s, a), b)
    decreases |a|
  {
    hide Next, Legal, AbortsSynthesis, Progress;
    if a == [] {
      assert a + b == b;
    } else {
      FewSteps(Next(s, a[0]), a[1..]);
      GoesOn(Next(s, a[0]), a[1..], b);
      assert a + b == [a[0]] + (a[1..] + b);
      GoesOne(s, a[0], a[1..] + b);
    }
  }

  lemma {:induction false} FewSteps(s: State, es: seq<Event>)
    ensures ProgressIn(s, es) <= |es|
    decreases |es|
  {
    hide Next, Progress;
    if es != [] { FewSteps(Next(s, es[0]), es[1..]); }
  }

  /** Two full rounds and a third failure. */
  function Doomed(t: P.Desk): Conversation {
    var round := [Synthesized(0, Failed)] + Ticks(Silence(t), 180);
    Conversation(Typed("Wind", true, t), [], t, "calm", round + round, Synthesized(0, Failed))
  }

  lemma DoomedStarts(t: P.Desk)
    ensures var s, c := Init(t), Doomed(t);
      && s.thinking == [] && Asked(s, c).thinking != [] && NoAbort(s, [c.dispatch])
      && NoAbort(Waited(s, c), [Answered(c.after, c.text)])
      && Trying(Speaking(s, c)) && Speaking(s, c).failures == 0 && Speaking(s, c).desk == t
  {
    var s, c := Init(t), Doomed(t);
    assert [c.dispatch][1..] == [] && [Answered(c.after, c.text)][1..] == [];
    assert Waited(s, c) == Asked(s, c);
  }

  /** From start-up a typed message whose answer fails three times: the chain stays open for 362
      callbacks and frames, one less than the rank of a fresh chain, and the next one ends it. */
  lemma BoundIsAttained(t: P.Desk)
    ensures var s, c := Init(t), Doomed(t);
      Fails(s, c) && ProgressIn(Speaking(s, c), c.open) == Rank(Speaking(s, c)) - 1
  {
    hide Next, Run, NoAbort, StaysOpen, ProgressIn;
    var s, c := Init(t), Doomed(t);
    DoomedStarts(t);
    var a := Speaking(s, c);
    FailedRound(a);
    var round := [Synthesized(0, Failed)] + Ticks(Silence(t), 180);
    var b := Run(a, round);
    FailedRound(b);
    GoesOn(a, round, round);
    assert |round + round| == 362;
    NothingToWaitFor(Asked(s, c));
  }

  lemma NothingToWaitFor(s: State)
    ensures NoAbort(s, []) && Run(s, []) == s
  {
  }

  // ── The abort that breaks it ──────────────────────────────────────

  /** An abort leaves the old synthesis running: either a second one starts in the same frame, or the
      session is idle with nobody waiting for an answer. */
  lemma AfterAbort(s: State, f: Frame)
    requires Inv(s) && S.Advances(s.desk.m, f.after.m) && AbortsSynthesis(s, Tick(f))
    ensures var t := Update(s, f);
      |t.jobs| == 2 || (|t.jobs| == 1 && t.ttsPending && t.ptt.Ready? && t.thinking == [])
  {
    hide DialogFrame, S.Advances;
    InvDialogFrame(s, f);
    var a := TuneAtis(DialogFrame(s, f), f);
    assert Inv(a);
  }

  /** The invariant survives a step if and only if the step does not abort a synthesis. */
  lemma InvNextIff(s: State, e: Event)
    requires Inv(s) && Legal(s, e)
    ensures Inv(Next(s, e)) <==> !AbortsSynthesis(s, e)
  {
    hide Next, AbortsSynthesis, Legal, S.Advances;
    if AbortsSynthesis(s, e) {
      AbortIsTick(s, e);
      AfterAbort(s, e.f);
    } else {
      InvNext(s, e);
    }
  }

  lemma AbortIsTick(s: State, e: Event)
    requires Legal(s, e) && AbortsSynthesis(s, e)
    ensures e.Tick? && Next(s, e) == Update(s, e.f) && S.Advances(s.desk.m, e.f.after.m)
  {
    hide Update, S.Advances;
  }

  predicate AllLegal(s: State, es: seq<Event>)
    decreases |es|
  {
    es == [] || (Legal(s, es[0]) && AllLegal(Next(s, es[0]), es[1..]))
  }

  predicate InvThroughout(s: State, es: seq<Event>)
    decreases |es|
  {
    Inv(s) && (es == [] || InvThroughout(Next(s, es[0]), es[1..]))
  }

  /** Over a whole run: the invariant holds in every state of it if and only if nothing is aborted. */
  lemma {:induction false} InvThroughoutIff(s: State, es: seq<Event>)
    requires Inv(s) && AllLegal(s, es)
    ensures InvThroughout(s, es) <==> NoAbort(s, es)
    decreases |es|
  {
    hide Inv, Next, AbortsSynthesis, Legal;
    if es != [] {
      InvNextIff(s, es[0]);
      if Inv(Next(s, es[0])) { InvThroughoutIff(Next(s, es[0]), es[1..]); }
    }
  }

  /** Some continuation, itself without an abort, has two syntheses in flight. */
  ghost predicate CanDouble(s: State) {
    exists es :: NoAbort(s, es) && |Run(s, es).jobs| >= 2
  }

  lemma SoundCannotDouble(s: State)
    requires Inv(s)
    ensures !CanDouble(s)
  {
    hide Run, NoAbort, S.Advances;
    forall es | NoAbort(s, es) ensures |Run(s, es).jobs| < 2 {
      InvRun(s, es);
    }
  }

  lemma TypedAndAnswered(s: State, d1: P.Desk, d2: P.Desk)
    requires s.ptt.Ready? && s.thinking == []
    ensures |Next(Next(s, Typed("Wind", true, d1)), Answered(d2, "calm")).jobs| == |s.jobs| + 1
  {
  }

  lemma RunTwo(s: State, e1: Event, e2: Event)
    requires Legal(s, e1) && Legal(Next(s, e1), e2) && !e1.Tick? && !e2.Tick?
    ensures Run(s, [e1, e2]) == Next(Next(s, e1), e2) && NoAbort(s, [e1, e2])
  {
    hide Next, Legal;
    assert [e1, e2][1..] == [e2] && [e2][1..] == [];
    var s1 := Next(s, e1);
    assert Run(s, [e1, e2]) == Run(s1, [e2]) == Run(Next(s1, e2), []);
    assert NoAbort(s1, [e2]);
  }

  lemma IdleCanDouble(s: State)
    requires s.ptt.Ready? && s.thinking == [] && |s.jobs| == 1
    ensures CanDouble(s)
  {
    hide Run, NoAbort, SpeakGuarded;
    var e1, e2 := Typed("Wind", true, s.desk), Answered(s.desk, "calm");
    RunTwo(s, e1, e2);
    TypedAndAnswered(s, s.desk, s.desk);
  }

  /** Leaving the ATIS frequency during synthesis is the one step that frees the session while a
      callback is outstanding: it is exactly the step after which a second synthesis can get in flight
      beside the first. */
  lemma AbortIffCanDouble(s: State, e: Event)
    requires Inv(s) && Legal(s, e)
    ensures AbortsSynthesis(s, e) <==> CanDouble(Next(s, e))
  {
    hide Inv, Next, AbortsSynthesis, Legal, Run, NoAbort, Update, S.Advances;
    if AbortsSynthesis(s, e) {
      AbortIsTick(s, e);
      AfterAbort(s, e.f);
      var t := Next(s, e);
      if |t.jobs| == 2 { AlreadyDouble(t); } else { IdleCanDouble(t); }
    } else {
      InvNext(s, e);
      SoundCannotDouble(Next(s, e));
    }
  }

  lemma AlreadyDouble(s: State)
    requires |s.jobs| == 2
    ensures CanDouble(s)
  {
    assert NoAbort(s, []) && Run(s, []) == s;
  }

  // ── A run from start-up that gets there ───────────────────────────

  /** Idle frames on the ATIS frequency only advance the tuning timer, until it has run for two seconds. */
  lemma IdleTick(s: State, f: Frame)
    requires s.ptt.Ready? && !s.atisPlaying && s.retryTimer <= 0.0 && s.atisCooldown <= 0.0
    requires f.tunedCom != 0 && f.call == "" && f.after == s.desk && s.atisTuned + FRAME < ATIS_TUNE_DELAY
    ensures Update(s, f) == s.(atisTuned := s.atisTuned + FRAME)
  {
  }

  lemma {:induction false} IdleTicks(s: State, f: Frame, n: nat)
    requires s.ptt.Ready? && !s.atisPlaying && s.retryTimer <= 0.0 && s.atisCooldown <= 0.0
    requires f.tunedCom != 0 && f.call == "" && f.after == s.desk && s.atisTuned + n as real * FRAME < ATIS_TUNE_DELAY
    ensures Run(s, Ticks(f, n)) == s.(atisTuned := s.atisTuned + n as real * FRAME)
    decreases n
  {
    hide Update;
    if n > 0 {
      IdleTick(s, f);
      TicksUpdate(s, f);
      assert Ticks(f, n)[1..] == Ticks(f, n - 1);
      IdleTicks(Next(s, Tick(f)), f, n - 1);
    }
  }

  lemma {:induction false} RunConcat(s: State, a: seq<Event>, b: seq<Event>)
    ensures Run(s, a + b) == Run(Run(s, a), b)
    decreases |a|
  {
    hide Next;
    if a == [] {
      assert a + b == b;
    } else {
      assert (a + b)[1..] == a[1..] + b;
      RunConcat(Next(s, a[0]), a[1..], b);
    }
  }

  lemma AtisStarts(s: State, f: Frame)
    requires Inv(s) && s.ptt.Ready? && s.atisCooldown <= 0.0 && s.atisTuned + FRAME >= ATIS_TUNE_DELAY
    requires f.tunedCom != 0 && f.ttsReady && f.call == ""
    ensures var t := Update(s, f);
      t.jobs == [AtisBroadcast(f.tunedCom)] && t.ttsPending && t.atisPlaying && t.atisCom == f.tunedCom
      && t.ptt.Playing? && t.thinking == [] && t.retryTimer == 0.0 && t.atisCooldown == ATIS_COOLDOWN
  {
    hide S.Advances;
  }

  lemma AtisAborted(s: State, away: Frame)
    requires s.ttsPending && s.atisPlaying && s.atisCom != 0 && s.ptt.Playing? && s.retryTimer == 0.0 && s.atisCooldown > 0.0
    requires away.tunedCom == 0
    ensures AbortsSynthesis(s, Tick(away))
    ensures var t := Update(s, away); t.jobs == s.jobs && t.ptt.Ready? && t.thinking == s.thinking
  {
  }

  lemma AbortLetsTwoInFlight(s: State, f: Frame, away: Frame, d1: P.Desk, d2: P.Desk)
    requires Inv(s) && s.ptt.Ready? && s.atisCooldown <= 0.0 && s.atisTuned + FRAME >= ATIS_TUNE_DELAY
    requires f.tunedCom != 0 && f.ttsReady && f.call == "" && away.tunedCom == 0
    ensures AbortsSynthesis(Update(s, f), Tick(away))
    ensures |Run(s, [Tick(f), Tick(away), Typed("Wind", true, d1), Answered(d2, "calm")]).jobs| == 2
  {
    hide Inv, Next, AbortsSynthesis, Update;
    AtisStarts(s, f);
    var a := Update(s, f);
    AtisAborted(a, away);
    TypedAndAnswered(Update(a, away), d1, d2);
    TicksUpdate(s, f);
    TicksUpdate(a, away);
    RunFour(s, Tick(f), Tick(away), Typed("Wind", true, d1), Answered(d2, "calm"));
  }

  /** From start-up: two seconds on an ATIS frequency, one frame off it, a typed message and its answer. */
  lemma StartUpToTwoInFlight(t: P.Desk)
    ensures var f, away := Frame(false, true, t, "", 1), Frame(false, true, t, "", 0);
      var es := Ticks(f, 119) + [Tick(f), Tick(away), Typed("Wind", true, t), Answered(t, "calm")];
      |Run(Init(t), es).jobs| == 2
  {
    hide Run, Update, Next, Inv;
    var f, away := Frame(false, true, t, "", 1), Frame(false, true, t, "", 0);
    IdleTicks(Init(t), f, 119);
    var s := Run(Init(t), Ticks(f, 119));
    InvTuned(t, 119.0 * FRAME);
    AbortLetsTwoInFlight(s, f, away, t, t);
    RunConcat(Init(t), Ticks(f, 119), [Tick(f), Tick(away), Typed("Wind", true, t), Answered(t, "calm")]);
  }

  lemma InvTuned(t: P.Desk, tuned: real)
    ensures Inv(Init(t).(atisTuned := tuned))
  {
    hide S.Advances;
  }

  lemma TicksUpdate(s: State, f: Frame)
    ensures Next(s, Tick(f)) == Update(s, f)
  {
    hide Update;
  }

  lemma RunFour(s: State, e1: Event, e2: Event, e3: Event, e4: Event)
    ensures Run(s, [e1, e2, e3, e4]) == Next(Next(Next(Next(s, e1), e2), e3), e4)
  {
    hide Next;
    assert [e1, e2, e3, e4][1..] == [e2, e3, e4] && [e2, e3, e4][1..] == [e3, e4] && [e3, e4][1..] == [e4] && [e4][1..] == [];
    var s1 := Next(s, e1);
    var s2 := Next(s1, e2);
    assert Run(s, [e1, e2, e3, e4]) == Run(s1, [e2, e3, e4]) == Run(s2, [e3, e4]) == Run(Next(s2, e3), [e4]);
  }
}
