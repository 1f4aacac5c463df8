/** The two records of an owed readback, the pending flag and the clearance text, and when they part. */
module AtcObligation {
  import opened AtcState
  import opened AtcPipeline
  import opened AtcGuard
  import opened AtcFrames
  import opened Replace
  import Templates
  import FlightPhase
  import Bzf

  /** A clearance is on file exactly while a readback is owed. */
  predicate InStep(m: Machine) { m.readbackPending <==> m.clearanceText != "" }

  // ── What each stage does to the flag ──────────────────────────────

  predicate SamePending(m: Machine, n: Machine) {
    m.readbackPending == n.readbackPending && m.clearanceText == n.clearanceText
  }

  /** What a guard may change: the state with its log, the departure flow and the airborne flag. */
  predicate Untouched(m: Machine, n: Machine) {
    n.(gen := m.gen, state := m.state, history := m.history, log := m.log, departureType := m.departureType,
       wasAirborne := m.wasAirborne) == m
  }

  lemma RevertsKeepPending(env: Env, m: Machine, msg: Message)
    ensures Untouched(m, ApplyStateReverts(env, m, msg))
  {
    hide Evolves, TransitionTo, RevertIndex, StateFromName;
  }

  lemma FrequencyKeepsPending(env: Env, m: Machine)
    ensures Untouched(m, ApplyFrequencyCorrections(env, ApplyFrequencyValidity(env, m)))
  {
    hide Evolves, TransitionTo, FreqCorrectionIndex, FreqCorrections, FrequencyInvalid, StateFromName, FreqReason;
  }

  lemma AdvisoryKeepsPending(env: Env, m: Machine, msg: Message)
    requires OnInfo(env.ctx) || OnUnicom(env.ctx)
    ensures Untouched(m, AdvisoryFlow(env, m, msg).0)
  {
    hide Evolves, TransitionTo, Say, StateFromName, Lookup;
  }

  lemma LateKeepsPending(env: Env, m: Machine, msg: Message)
    ensures Untouched(m, LateGuards(env, m, msg).m)
  {
    hide Evolves, Say, Rejection, Enforced, RedirectIndex, SpokenCallsign;
  }

  /** No guard, answering or passing, touches an obligation, a lock or the declared intent. */
  lemma GuardsKeepPending(env: Env, m: Machine, msg: Message)
    ensures Untouched(m, Guards(env, m, msg).m)
  {
    hide Evolves, Say, HintTemplate, ApplyStateReverts, AdvisoryFlow, LateGuards, Correct,
         ApplyFrequencyCorrections, ApplyFrequencyValidity;
    if !msg.intent.NegativeCorrection? && !msg.intent.RequestRepeat? {
      RevertsKeepPending(env, m, msg);
      var a := ApplyStateReverts(env, m, msg);
      if OnInfo(env.ctx) || OnUnicom(env.ctx) {
        AdvisoryKeepsPending(env, a, msg);
      } else {
        FrequencyKeepsPending(env, a);
        LateKeepsPending(env, ApplyFrequencyCorrections(env, ApplyFrequencyValidity(env, a)), msg);
      }
    }
  }

  /** The airport change forgets that a readback is owed, and keeps the clearance. */
  lemma ArrivalPending(t: Desk, nearest: string, now: real)
    ensures var n := CheckAirportChange(t, nearest, now).m;
      n.clearanceText == t.m.clearanceText && n.readbackPending == (t.m.readbackPending && !Dropped(t, nearest))
  {
    hide Evolves, LeaveAirport;
  }

  lemma TickPending(m: Machine, c: AutoCorrection, factor: real, dt: real)
    ensures var n := TickCorrection(m, c, factor, dt);
      n.clearanceText == m.clearanceText
      && n.readbackPending == (m.readbackPending && TimeOn(m, c, dt) < Delay(c, factor))
  {
    hide ApplyCorrection, Delay, CorrectionKey, TimeOn, Evolves;
  }

  /** So does a correction that is due. */
  lemma CorrectionPending(rules: Rules, factor: real, m: Machine, phase: FlightPhase.Phase, dt: real, now: real)
    ensures var n := CheckAutoCorrection(rules, factor, m, phase, dt, now);
      n.clearanceText == m.clearanceText
      && n.readbackPending == (m.readbackPending && !Due(rules, factor, m, phase, dt))
  {
    hide CheckAutoCorrection, TickCorrection, CurrentName, Delay, CorrectionKey, CorrectionRules, CorrectionIndex, Meets, Met;
    FrameTicks(rules, factor, m, phase, dt, now);
    if Meets(rules, m, phase) {
      ClockIsNoRule(rules, m, phase, dt, now);
      var later := m.(lastNow := now);
      assert TimeOn(later, Met(rules, m, phase), dt) == TimeOn(m, Met(rules, m, phase), dt);
      TickPending(later, Met(rules, m, phase), factor, dt);
    } else {
      assert Semantic(CheckAutoCorrection(rules, factor, m, phase, dt, now)).readbackPending == m.readbackPending;
      assert Semantic(CheckAutoCorrection(rules, factor, m, phase, dt, now)).clearanceText == m.clearanceText;
    }
  }

  // ── Which steps part them ─────────────────────────────────────────

  /** A transmission parts the two if it meets an airport change while a readback is owed and is not
      itself a readback, a rejected one, a new clearance or a leave-taking; or if its answer demands a
      readback and says nothing. */
  predicate SpeechParts(env: Env, t: Desk, msg: Message, now: real) {
    var v := Guards(env, Arrival(env, t, now).m, Promote(t.m, msg));
    var lost := t.m.readbackPending && Dropped(t, env.ctx.nearestAirport);
    if v.Answered? then lost
    else if StrictRejects(env, v.m, v.msg) then false
    else
      var resp := Answer(env, v.m, v.msg);
      if v.msg.intent.Readback? || Leaves(resp.nextState) then false
      else if resp.requiresReadback then resp.text == ""
      else lost
  }

  predicate Parts(w: World, s: Step) {
    match s.act
    case Speak(env, msg) => SpeechParts(env, w.desk, msg, s.at)
    case CorrectionFrame(rules, factor, phase, dt) => w.desk.m.readbackPending && Due(rules, factor, w.desk.m, phase, dt)
    case AirportFrame(nearest) => w.desk.m.readbackPending && Dropped(w.desk, nearest)
    case Restore(slot, expected) =>
      slot < |w.snapshots| && expected == w.desk.m.gen && !InStep(w.snapshots[slot])
    case _ => false
  }

  lemma SpeechPartsIff(env: Env, t: Desk, msg: Message, now: real)
    requires InStep(t.m)
    ensures InStep(Process(env, t, msg, now).0.m) <==> !SpeechParts(env, t, msg, now)
  {
    hide Guards, StrictRejects, Answer, AnswerClearance, Corrective, Evolves, CheckAirportChange, Dropped, Hooks, Promote, Leaves;
    ArrivalPending(t, env.ctx.nearestAirport, now);
    var a := Arrival(env, t, now).m;
    GuardsKeepPending(env, a, Promote(t.m, msg));
    var v := Guards(env, a, Promote(t.m, msg));
    if v.Passed? { RespondPending(env, v.m, v.msg); }
  }

  lemma RespondPending(env: Env, m: Machine, msg: Message)
    ensures var n, resp := Respond(env, m, msg).0, Answer(env, m, msg);
      if StrictRejects(env, m, msg) then n.readbackPending && n.clearanceText == m.clearanceText != ""
      else if msg.intent.Readback? || Leaves(resp.nextState) then !n.readbackPending && n.clearanceText == ""
      else if resp.requiresReadback then n.readbackPending && n.clearanceText == resp.text
      else SamePending(m, n)
  {
    hide Answer, AnswerClearance, Corrective, Evolves, Hooks, Bzf.Conformant, Diff;
  }

  /** From a state in which flag and text agree, they agree after the step exactly if it is none of those. */
  lemma StepPartsIff(w: World, s: Step)
    requires InStep(w.desk.m)
    ensures InStep(Do(w, s).desk.m) <==> !Parts(w, s)
  {
    hide Process, CheckAirportChange, CheckAutoCorrection, Latch, SetState, SetWasAirborne, Init, Reset, Evolves,
         SpeechParts, Due, Dropped, WellShaped, Ordered, Disregard;
    var m := w.desk.m;
    match s.act
    case Speak(env, msg) => SpeechPartsIff(env, w.desk, msg, s.at);
    case CorrectionFrame(rules, factor, phase, dt) => CorrectionPending(rules, factor, m, phase, dt, s.at);
    case AirportFrame(nearest) => ArrivalPending(w.desk, nearest, s.at);
    case LatchIntent(msg) => LatchPending(m, msg);
    case Start(ready) => assert SamePending(FRESH, Init(m, ready)) by { FreshPending(m, ready); }
    case Halt => FreshPending(m, false);
    case NewFlight => FreshPending(m, false);
    case Repositioned(onGround) => FreshPending(m, false);
    case _ =>
  }

  lemma LatchPending(m: Machine, msg: Message)
    ensures SamePending(m, Latch(m, msg))
  {
    hide Evolves;
  }

  lemma FreshPending(m: Machine, ready: bool)
    ensures SamePending(FRESH, Init(m, ready)) && SamePending(FRESH, Reset(m)) && InStep(FRESH)
  {
  }

  predicate InStepThroughout(w: World, steps: seq<Step>)
    decreases |steps|
  {
    InStep(w.desk.m) && (steps == [] || InStepThroughout(Do(w, steps[0]), steps[1..]))
  }

  predicate PartsIn(w: World, steps: seq<Step>)
    decreases |steps|
  {
    steps != [] && (Parts(w, steps[0]) || PartsIn(Do(w, steps[0]), steps[1..]))
  }

  /** Over any run: flag and text agree in every state if and only if no step parts them. */
  lemma {:induction false} RunPartsIff(w: World, steps: seq<Step>)
    requires InStep(w.desk.m)
    ensures InStepThroughout(w, steps) <==> !PartsIn(w, steps)
    decreases |steps|
  {
    hide Do, Parts, InStep;
    if steps != [] {
      StepPartsIff(w, steps[0]);
      if InStep(Do(w, steps[0]).desk.m) { RunPartsIff(Do(w, steps[0]), steps[1..]); }
    }
  }

  // ── Runs from start-up in which they part ─────────────────────────

  /** A towered field with one template: a taxi request is cleared, to be read back. */
  const APRON := Env(Rules([], [], NoHint, map[], map[], map[], map[], map[], map[],
                           map[(true, "IDLE") := map["REQUEST_TAXI" := Template("Taxi.", "TAXI_CLEARED", true)]]),
                     Settings("DE", true, "", false, "", 1.0),
                     Context(true, false, true, Ground, "", "", false, 0.0, FlightPhase.Parked), map[], _ => "",
                     [], [], (cs, missing) => "", NoSequencing, (e, said) => "",
                     Bzf.Phrases("", "", "", e => ""))

  const TAXI := Message(RequestTaxi, "D-EABC", "", "", "")

  lemma {:induction false} FillPlain(text: string, vars: Templates.Vars, keys: seq<string>)
    requires Templates.NoBraces(text)
    ensures Templates.Fill(text, vars, keys) == text
    decreases |keys|
  {
    hide ReplaceAll;
    if keys != [] {
      if keys[0] in vars { PlainHasNoSlot(text, keys[0], vars[keys[0]]); }
      FillPlain(text, vars, keys[1..]);
    }
  }

  lemma PlainHasNoSlot(text: string, key: string, v: string)
    requires Templates.NoBraces(text)
    ensures ReplaceAll(text, Templates.Placeholder(key), v) == text
  {
    assert Templates.Placeholder(key)[0] == '{';
    Bzf.LackedIsNotFound(text, Templates.Placeholder(key), v);
  }

  lemma ApronLate(m: Machine)
    requires m.state.Idle? && !m.wasAirborne
    ensures LateGuards(APRON, m, TAXI) == Passed(m, TAXI)
  {
    hide Say, Evolves, SpokenCallsign;
    assert RedirectIndex(APRON, TAXI) == 0;
    assert Rejection(APRON, TAXI) == "";
  }

  lemma ApronGuards(m: Machine)
    requires m.state.Idle? && !m.wasAirborne
    ensures Guards(APRON, m, TAXI) == Passed(m, TAXI)
  {
    hide Say, Evolves, LateGuards, AdvisoryFlow;
    assert RevertIndex(APRON, m, TAXI) == 0;
    assert FreqCorrectionIndex(APRON, m) == 0;
    ApronLate(m);
  }

  lemma ApronAnswer(m: Machine)
    requires m.state.Idle?
    ensures Answer(APRON, m, TAXI) == Response("Taxi.", TaxiCleared, true)
  {
    hide BuildVars, Templates.Fill, VAR_KEYS;
    assert AnswerTemplate(APRON, m, TAXI) == Template("Taxi.", "TAXI_CLEARED", true);
    FillPlain("Taxi.", BuildVars(APRON, m, TAXI), VAR_KEYS);
    NameRoundTrip(m, TaxiCleared);
  }

  lemma ApronRespond(m: Machine)
    requires m.state.Idle?
    ensures var n := Respond(APRON, m, TAXI).0;
      n.state.TaxiCleared? && n.readbackPending && n.clearanceText == "Taxi."
  {
    hide Answer, AnswerClearance, Corrective, Evolves, CloseBooks, NoteResponse, TransitionTo;
    ApronAnswer(m);
  }

  /** The first taxi request after start-up leaves a clearance on file and its readback owed. */
  lemma TaxiIsCleared(now: real)
    ensures var m := Do(START, Step(Speak(APRON, TAXI), now)).desk.m;
      && m.state.TaxiCleared? && m.readbackPending && m.clearanceText == "Taxi." && InStep(m)
      && m.correctionTimer == 0.0
  {
    MessageKeepsTimer(APRON, START.desk, TAXI, now);
    hide Guards, Respond, LeaveAirport;
    var m := FRESH.(lastNow := now);
    assert Arrival(APRON, START.desk, now) == Desk(m, "");
    assert Promote(FRESH, TAXI) == TAXI;
    ApronGuards(m);
    ApronRespond(m);
  }

  /** A due correction in TAXI_CLEARED then leaves the clearance on file with nothing owed. */
  lemma CorrectionOrphansClearance(rules: Rules, c: AutoCorrection, phase: FlightPhase.Phase)
    requires TaxiRule(rules, c, phase)
    ensures var w := Do(START, Step(Speak(APRON, TAXI), 0.0));
      var m := Do(w, Step(CorrectionFrame(rules, 1.0, phase, 10.0), 10.0)).desk.m;
      !m.readbackPending && m.clearanceText == "Taxi."
  {
    hide Do, TaxiRule, Due;
    TaxiIsCleared(0.0);
    var w := Do(START, Step(Speak(APRON, TAXI), 0.0));
    TaxiIsDue(rules, c, phase, w.desk.m);
    CorrectionStep(w, rules, phase);
  }

  lemma TaxiIsDue(rules: Rules, c: AutoCorrection, phase: FlightPhase.Phase, m: Machine)
    requires TaxiRule(rules, c, phase) && m.state.TaxiCleared? && m.correctionTimer >= 0.0
    ensures Due(rules, 1.0, m, phase, 10.0)
  {
    assert CorrectionRules(rules, m) == [c];
  }

  lemma CorrectionStep(w: World, rules: Rules, phase: FlightPhase.Phase)
    requires Due(rules, 1.0, w.desk.m, phase, 10.0)
    ensures var m := Do(w, Step(CorrectionFrame(rules, 1.0, phase, 10.0), 10.0)).desk.m;
      !m.readbackPending && m.clearanceText == w.desk.m.clearanceText
  {
    hide Due, CheckAutoCorrection;
    CorrectionPending(rules, 1.0, w.desk.m, phase, 10.0, 10.0);
  }

  /** So does an airport change en route, although a forced state alone keeps both. */
  lemma AirportOrphansClearance()
    ensures var w := Run(START, [Step(Speak(APRON, TAXI), 0.0), Step(AirportFrame("EDDF"), 1.0),
                                 Step(ForceState(EnRoute), 2.0), Step(AirportFrame("EDFE"), 3.0)]);
      !w.desk.m.readbackPending && w.desk.m.clearanceText == "Taxi."
  {
    hide Process, CheckAirportChange, SetState;
    var s1, s2, s3, s4 := Step(Speak(APRON, TAXI), 0.0), Step(AirportFrame("EDDF"), 1.0),
                          Step(ForceState(EnRoute), 2.0), Step(AirportFrame("EDFE"), 3.0);
    RunFour(START, s1, s2, s3, s4);
    TaxiIsCleared(0.0);
    var w1 := Do(START, s1);
    QuietArrival(w1.desk, "EDDF", 1.0);
    var w2 := Do(w1, s2);
    AirportIsNoted(w1.desk, "EDDF", 1.0);
    var w3 := Do(w2, s3);
    assert Dropped(w3.desk, "EDFE");
    ArrivalPending(w3.desk, "EDFE", 3.0);
  }

  lemma AirportIsNoted(t: Desk, nearest: string, now: real)
    ensures CheckAirportChange(t, nearest, now).lastAirport == if nearest == "" then t.lastAirport else nearest
  {
    hide LeaveAirport;
  }

  /** A clearance on file with nothing owed still judges: an incomplete strict readback is rejected and
      owed again, a complete one settles both. */
  lemma OrphanStillJudges(env: Env, m: Machine, msg: Message)
    requires Examined(env, m, msg) && !m.readbackPending
    ensures var n := Respond(env, m, msg).0;
      InStep(n) && (n.readbackPending <==> !Bzf.Complete(m.clearance, msg.transcript))
  {
    hide Answer, AnswerClearance, Corrective, Evolves, Hooks, Bzf.Conformant, Bzf.Complete, Bzf.DiffReadback;
    RespondPending(env, m, msg);
    Bzf.ConformantIsComplete(env.stated, m.clearance, msg.transcript);
  }
}
