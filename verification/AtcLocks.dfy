/** The callsign lock and IDLE: which steps leave a callsign locked there. */
module AtcLocks {
  import opened AtcState
  import opened AtcPipeline
  import opened AtcGuard
  import opened AtcFrames
  import opened AtcObligation
  import FlightPhase
  import Bzf

  /** Between dialogs nobody is locked. */
  predicate FreeInIdle(m: Machine) { m.state.Idle? ==> m.sessionCallsign == "" }

  // ── What the guards lead to ───────────────────────────────────────

  /** The state after the re-clearance reverts. */
  function RevertedTo(env: Env, m: Machine, msg: Message): State {
    var i := RevertIndex(env, m, msg);
    if i == |env.rules.reverts| then m.state else StateFromName(env.rules.reverts[i].revertTo)
  }

  /** The state after validity reset and frequency advancement. */
  function CorrectedTo(env: Env, m: Machine): State {
    var a := ApplyFrequencyValidity(env, m);
    var i := FreqCorrectionIndex(env, a);
    if i < |FreqCorrections(env, a)| then StateFromName(FreqCorrections(env, a)[i].nextState)
    else if FrequencyInvalid(env, m) then Idle
    else m.state
  }

  /** The state in which the guards leave the machine. */
  function GuardedTo(env: Env, m: Machine, msg: Message): State {
    if msg.intent.NegativeCorrection? then RevertTarget(m.state)
    else if msg.intent.RequestRepeat? then m.state
    else if OnInfo(env.ctx) then StateFromName(InfoTemplate(env, msg).nextState)
    else if OnUnicom(env.ctx) then Idle
    else if HintTemplate(env, msg) != "" then RevertedTo(env, m, msg)
    else CorrectedTo(env, ApplyStateReverts(env, m, msg))
  }

  lemma RevertsLeadTo(env: Env, m: Machine, msg: Message)
    ensures ApplyStateReverts(env, m, msg).state == RevertedTo(env, m, msg)
  {
    hide Evolves, TransitionTo, RevertIndex, StateFromName;
  }

  lemma FrequencyLeadsTo(env: Env, m: Machine)
    ensures ApplyFrequencyCorrections(env, ApplyFrequencyValidity(env, m)).state == CorrectedTo(env, m)
  {
    hide Evolves, TransitionTo, FreqCorrectionIndex, FreqCorrections, FrequencyInvalid, StateFromName, FreqReason;
  }

  lemma LateKeepsState(env: Env, m: Machine, msg: Message)
    ensures LateGuards(env, m, msg).m.state == m.state
  {
    hide Evolves, Say, Rejection, Enforced, RedirectIndex, SpokenCallsign;
  }

  lemma GuardsLeadTo(env: Env, m: Machine, msg: Message)
    ensures Guards(env, m, msg).m.state == GuardedTo(env, m, msg)
  {
    hide Say, Evolves, HintTemplate, StateFromName, Lookup, Correct, ApplyStateReverts, ApplyFrequencyCorrections,
         ApplyFrequencyValidity, LateGuards, RevertedTo, CorrectedTo, TransitionTo;
    RevertsLeadTo(env, m, msg);
    var a := ApplyStateReverts(env, m, msg);
    FrequencyLeadsTo(env, a);
    LateKeepsState(env, ApplyFrequencyCorrections(env, ApplyFrequencyValidity(env, a)), msg);
  }

  // ── The answer ────────────────────────────────────────────────────

  /** The callsign locked once the answer is out. */
  function LockedAfter(m: Machine, msg: Message, next: State): string {
    if next.Idle? then "" else if m.sessionCallsign == "" then msg.callsign else m.sessionCallsign
  }

  lemma BooksLock(env: Env, m: Machine, msg: Message, resp: Response, comp: Bzf.Clearance)
    requires Bzf.Callsign in comp.required
    ensures var n := CloseBooks(env, m, msg, resp, comp);
      && n.sessionCallsign == LockedAfter(m, msg, resp.nextState)
      && n.state == if resp.text == "" then m.state else resp.nextState
  {
    hide Evolves, MoveOn, TransitionTo, RunwayFor, IntentKey, Leaves;
  }

  /** The state after the answer: a tower-only field may advance from there by itself. */
  function AnsweredTo(env: Env, m: Machine, msg: Message): State {
    var a := CloseBooks(env, m, msg, Answer(env, m, msg), AnswerClearance(env, m, msg));
    var name := AdvanceName(env, a);
    if name == "" then a.state else StateFromName(name)
  }

  lemma RespondLocks(env: Env, m: Machine, msg: Message)
    ensures var n := Respond(env, m, msg).0;
      if StrictRejects(env, m, msg) then n.state == m.state && n.sessionCallsign == m.sessionCallsign
      else n.state == AnsweredTo(env, m, msg)
           && n.sessionCallsign == LockedAfter(m, msg, Answer(env, m, msg).nextState)
  {
    hide Evolves, Answer, AnswerClearance, Corrective, Diff, Bzf.Conformant, CloseBooks, AdvanceName, StateFromName,
         LockedAfter, TransitionTo;
    BooksLock(env, m, msg, Answer(env, m, msg), AnswerClearance(env, m, msg));
  }

  // ── Which steps leave a callsign locked in IDLE ───────────────────

  /** A transmission does if a guard ends it, or the strict check rejects it, in IDLE with a callsign
      locked, or if its answer leads elsewhere, so that nothing is released, and the state after it is
      IDLE all the same. */
  predicate SpeechStrays(env: Env, t: Desk, msg: Message, now: real) {
    var a, promoted := Arrival(env, t, now).m, Promote(t.m, msg);
    var v := Guards(env, a, promoted);
    if v.Answered? || StrictRejects(env, v.m, v.msg) then
      GuardedTo(env, a, promoted).Idle? && t.m.sessionCallsign != ""
    else
      var resp := Answer(env, v.m, v.msg);
      AnsweredTo(env, v.m, v.msg).Idle? && LockedAfter(v.m, v.msg, resp.nextState) != ""
  }

  predicate Strays(w: World, s: Step) {
    match s.act
    case Speak(env, msg) => SpeechStrays(env, w.desk, msg, s.at)
    case AirportFrame(nearest) => Dropped(w.desk, nearest) && w.desk.m.sessionCallsign != ""
    case Restore(slot, expected) =>
      slot < |w.snapshots| && expected == w.desk.m.gen && !FreeInIdle(w.snapshots[slot])
    case _ => false
  }

  lemma ArrivalKeepsLock(t: Desk, nearest: string, now: real)
    ensures var n := CheckAirportChange(t, nearest, now).m;
      n.sessionCallsign == t.m.sessionCallsign && n.state == if Dropped(t, nearest) then Idle else t.m.state
  {
    hide Evolves, LeaveAirport;
  }

  lemma SpeechStraysIff(env: Env, t: Desk, msg: Message, now: real)
    ensures FreeInIdle(Process(env, t, msg, now).0.m) <==> !SpeechStrays(env, t, msg, now)
  {
    hide Guards, Respond, StrictRejects, Answer, AnsweredTo, LockedAfter, GuardedTo, Evolves, CheckAirportChange, Promote;
    ArrivalKeepsLock(t, env.ctx.nearestAirport, now);
    var a, promoted := Arrival(env, t, now).m, Promote(t.m, msg);
    GuardsKeepPending(env, a, promoted);
    GuardsLeadTo(env, a, promoted);
    var v := Guards(env, a, promoted);
    if v.Passed? { RespondLocks(env, v.m, v.msg); }
  }

  /** A correction that leads to IDLE releases the lock. */
  lemma CorrectionStaysFree(rules: Rules, factor: real, m: Machine, phase: FlightPhase.Phase, dt: real, now: real)
    requires FreeInIdle(m)
    ensures FreeInIdle(CheckAutoCorrection(rules, factor, m, phase, dt, now))
  {
    hide CheckAutoCorrection, TickCorrection, CurrentName, Meets, Met;
    FrameTicks(rules, factor, m, phase, dt, now);
    if Meets(rules, m, phase) {
      TickStaysFree(m.(lastNow := now), Met(rules, m, phase), factor, dt);
    } else {
      var n := CheckAutoCorrection(rules, factor, m, phase, dt, now);
      assert Semantic(n).state == n.state && Semantic(n).sessionCallsign == n.sessionCallsign;
    }
  }

  lemma TickStaysFree(m: Machine, c: AutoCorrection, factor: real, dt: real)
    requires FreeInIdle(m)
    ensures FreeInIdle(TickCorrection(m, c, factor, dt))
  {
    hide Evolves, TransitionTo, CorrectionKey, Delay, TimeOn, StateFromName;
  }

  /** From a state in which IDLE means no callsign is locked, a step leads out of it exactly if it strays. */
  lemma StepStraysIff(w: World, s: Step)
    requires FreeInIdle(w.desk.m)
    ensures FreeInIdle(Do(w, s).desk.m) <==> !Strays(w, s)
  {
    hide Process, CheckAirportChange, CheckAutoCorrection, SpeechStrays, SetState, SetWasAirborne, Latch, Disregard, Evolves;
    var m := w.desk.m;
    match s.act
    case Speak(env, msg) => SpeechStraysIff(env, w.desk, msg, s.at);
    case CorrectionFrame(rules, factor, phase, dt) => CorrectionStaysFree(rules, factor, m, phase, dt, s.at);
    case AirportFrame(nearest) => ArrivalKeepsLock(w.desk, nearest, s.at);
    case LatchIntent(msg) => LatchKeepsLock(m, msg);
    case AirborneFlag(v) => FlagKeepsLock(m, v);
    case _ =>
  }

  lemma LatchKeepsLock(m: Machine, msg: Message)
    ensures Latch(m, msg).sessionCallsign == m.sessionCallsign && Latch(m, msg).state == m.state
  {
    hide Evolves;
  }

  lemma FlagKeepsLock(m: Machine, v: bool)
    ensures SetWasAirborne(m, v).sessionCallsign == m.sessionCallsign
  {
    hide Evolves;
  }

  predicate FreeThroughout(w: World, steps: seq<Step>)
    decreases |steps|
  {
    FreeInIdle(w.desk.m) && (steps == [] || FreeThroughout(Do(w, steps[0]), steps[1..]))
  }

  predicate StraysIn(w: World, steps: seq<Step>)
    decreases |steps|
  {
    steps != [] && (Strays(w, steps[0]) || StraysIn(Do(w, steps[0]), steps[1..]))
  }

  /** Over any run: IDLE means no callsign is locked in every state if and only if no step strays. */
  lemma {:induction false} RunStraysIff(w: World, steps: seq<Step>)
    requires FreeInIdle(w.desk.m)
    ensures FreeThroughout(w, steps) <==> !StraysIn(w, steps)
    decreases |steps|
  {
    hide Do, Strays, FreeInIdle;
    if steps != [] {
      StepStraysIff(w, steps[0]);
      if FreeInIdle(Do(w, steps[0]).desk.m) { RunStraysIff(Do(w, steps[0]), steps[1..]); }
    }
  }

  // ── Runs from start-up that do ────────────────────────────────────

  lemma TaxiLocks(now: real)
    ensures var m := Do(START, Step(Speak(APRON, TAXI), now)).desk.m;
      m.state.TaxiCleared? && m.sessionCallsign == "D-EABC"
  {
    TaxiIsCleared(now);
    hide Guards, Respond, Answer, StrictRejects;
    var m := FRESH.(lastNow := now);
    assert Arrival(APRON, START.desk, now) == Desk(m, "");
    assert Promote(FRESH, TAXI) == TAXI;
    ApronGuards(m);
    ApronAnswer(m);
    assert !StrictRejects(APRON, m, TAXI) by { TaxiIsNoReadback(m); }
    RespondLocks(APRON, m, TAXI);
  }

  lemma TaxiIsNoReadback(m: Machine)
    ensures !StrictRejects(APRON, m, TAXI)
  {
    hide Bzf.Conformant, Diff;
  }

  lemma CorrectionStepsBack(env: Env, w: World, msg: Message, at: real)
    requires msg.intent.NegativeCorrection? && !w.desk.m.state.EnRoute?
    ensures var n := Do(w, Step(Speak(env, msg), at)).desk.m;
      n.state == RevertTarget(w.desk.m.state) && n.sessionCallsign == w.desk.m.sessionCallsign
  {
    hide Guards, Respond, CheckAirportChange, Evolves;
    var t := w.desk;
    QuietArrival(t, env.ctx.nearestAirport, at);
    CorrectionAnswers(env, t.m.(lastNow := at), msg);
    assert Promote(t.m, msg) == msg;
  }

  /** A taxi request and two corrections end in IDLE with the callsign still locked: whoever calls next,
      and by whatever name, is addressed by it. */
  lemma CorrectionsStray(env: Env, first: Message, second: Message)
    requires first.intent.NegativeCorrection? && second.intent.NegativeCorrection?
    ensures var m := Run(START, [Step(Speak(APRON, TAXI), 0.0), Step(Speak(env, first), 10.0),
                                 Step(Speak(env, second), 20.0)]).desk.m;
      m.state.Idle? && m.sessionCallsign == "D-EABC"
      && forall next: Message :: Addressee(env, m, next) == "D-EABC"
  {
    hide Process;
    var s1, s2, s3 := Step(Speak(APRON, TAXI), 0.0), Step(Speak(env, first), 10.0), Step(Speak(env, second), 20.0);
    assert [s1, s2, s3][1..] == [s2, s3] && [s2, s3][1..] == [s3] && [s3][1..] == [];
    TaxiLocks(0.0);
    var w1 := Do(START, s1);
    CorrectionStepsBack(env, w1, first, 10.0);
    var w2 := Do(w1, s2);
    CorrectionStepsBack(env, w2, second, 20.0);
    assert Run(START, [s1, s2, s3]) == Run(w1, [s2, s3]) == Run(w2, [s3]) == Run(Do(w2, s3), []);
  }

  /** An airport change releases the runway and not the callsign. */
  lemma AirportStrays(w: World, nearest: string, at: real)
    requires Dropped(w.desk, nearest) && w.desk.m.sessionCallsign != ""
    ensures var m := Do(w, Step(AirportFrame(nearest), at)).desk.m;
      m.state.Idle? && m.assignedRunway == "" && m.sessionCallsign == w.desk.m.sessionCallsign
  {
    hide Evolves, LeaveAirport;
  }
}
