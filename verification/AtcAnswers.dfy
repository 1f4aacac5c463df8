/** What the tower's answer names: which runway, which callsign, which destination, which template, and
    which obligations it files, each traced to where it comes from over a whole run. */
module AtcAnswers {
  import opened AtcState
  import opened AtcPipeline
  import opened AtcGuard
  import opened AtcFrames
  import opened AtcObligation
  import opened Replace
  import Text
  import Templates
  import FlightPhase
  import Icao
  import SpokenNumbers
  import Bzf

  // ── Filling ───────────────────────────────────────────────────────

  /** A template whose variables are known and hold no braces speaks, in each slot, that slot's value. */
  lemma SlotsSpeakTheirValues(t: seq<Templates.Segment>, vars: Templates.Vars, i: nat)
    requires Templates.AllClean(t) && Templates.CleanValues(vars) && (forall k :: k in vars ==> k in VAR_KEYS)
    requires i < |t| && t[i].Slot? && t[i].key in vars
    ensures var s := Templates.Substitute(t, vars);
      Fill(Templates.Render(t), vars) == Templates.Render(s) && s[i] == Templates.Lit(vars[t[i].key])
  {
    hide VAR_KEYS, Templates.Fill, Templates.Render, Templates.CleanValues;
    Templates.FillOrderIrrelevant(t, vars, VAR_KEYS, VAR_KEYS);
  }

  /** Every variable that the answers and the traffic calls may set has its slot filled. */
  lemma EverySlotIsKnown(k: string)
    requires k in {"callsign", "runway", "qnh", "altimeter", "wind", "airport", "station", "position", "position_remark"}
      || k in {"frequency", "tower_frequency", "ground_frequency", "tower_handoff_phrase", "taxi_controller"}
      || k in {"intention", "vfr_course_phrase", "direction", "pattern_direction", "entry_vrp", "side", "atis_letter"}
      || k in {"aircraft_type", "aircraft_type_phrase", "altitude_info", "clock", "distance", "type"}
      || k in {"seq_number", "seq_position", "seq_type"}
    ensures k in VAR_KEYS
  {
  }

  // ── The runway ────────────────────────────────────────────────────

  /** The runway that an answer speaks, puts into the position phrase and files for the readback is the
      one the pilot named; else the locked one; else the active one; else 28. */
  lemma RunwaySpoken(env: Env, m: Machine, msg: Message)
    ensures var r, vars := AnswerClearance(env, m, msg).runway, BuildVars(env, m, msg);
      && "runway" in vars && vars["runway"] == r && vars["position"] == env.positionAt(r)
      && (msg.runway != "" ==> r == msg.runway)
      && (msg.runway == "" && m.assignedRunway != "" ==> r == m.assignedRunway)
      && (msg.runway == "" && m.assignedRunway == "" && env.ctx.activeRunway != "" ==> r == env.ctx.activeRunway)
      && (msg.runway == "" && m.assignedRunway == "" && env.ctx.activeRunway == "" ==> r == "28")
  {
    hide SpokenCallsign, Intention, CoursePhrase, AnswerTemplate, Obligations, IssuedFrequency, Candidates;
  }

  /** A guard that passes a message on may reinterpret it, and changes nothing else in it. */
  lemma GuardsKeepMessage(env: Env, m: Machine, msg: Message)
    requires Guards(env, m, msg).Passed?
    ensures var passed := Guards(env, m, msg).msg; passed == msg.(intent := passed.intent)
  {
    hide Say, Evolves, Rejection, Enforced, ApplyStateReverts, ApplyFrequencyValidity, ApplyFrequencyCorrections,
         AdvisoryFlow, HintTemplate, SetWasAirborne, RedirectIndex, SpokenCallsign, Correct;
  }

  lemma PromoteKeepsMessage(m: Machine, msg: Message)
    ensures var p := Promote(m, msg); p == msg.(intent := p.intent)
  {
  }

  /** After the answer is booked a locked runway stays until IDLE, an empty lock takes what was spoken. */
  lemma BooksRunway(env: Env, m: Machine, msg: Message)
    ensures var resp, comp := Answer(env, m, msg), AnswerClearance(env, m, msg);
      CloseBooks(env, m, msg, resp, comp).assignedRunway ==
        if resp.nextState.Idle? then "" else if m.assignedRunway != "" then m.assignedRunway else comp.runway
  {
    hide Evolves, MoveOn, TransitionTo, RunwayFor, IntentKey, Leaves, Answer, AnswerClearance, ReleaseLocks;
    var resp, comp := Answer(env, m, msg), AnswerClearance(env, m, msg);
    var a := Tracked(m, msg, resp, comp);
    assert a.assignedRunway == m.assignedRunway;
    if m.assignedRunway == "" { TakenRunway(env, a, m, msg); }
  }

  lemma TakenRunway(env: Env, a: Machine, m: Machine, msg: Message)
    requires a.assignedRunway == m.assignedRunway == ""
    ensures RunwayFor(env, a, msg) == AnswerClearance(env, m, msg).runway
  {
    hide SpokenCallsign, Intention, CoursePhrase, AnswerTemplate, Obligations, IssuedFrequency, Candidates;
  }

  // ── Locks over runs ───────────────────────────────────────────────

  /** The lock is as it was, or it has been released. */
  predicate Kept(before: string, after: string) { after == before || after == "" }

  /** Locks and intent, seen from outside. */
  predicate SameFlight(m: Machine, n: Machine) {
    && (m.assignedRunway != "" ==> Kept(m.assignedRunway, n.assignedRunway))
    && (m.sessionCallsign != "" ==> Kept(m.sessionCallsign, n.sessionCallsign))
    && n.intentDeclared == m.intentDeclared && n.intentCrossCountry == m.intentCrossCountry
    && n.intentDestination == m.intentDestination
  }

  lemma TrackedFrame(m: Machine, msg: Message, resp: Response, comp: Bzf.Clearance)
    requires Bzf.Callsign in comp.required
    ensures var n := Tracked(m, msg, resp, comp);
      n.(gen := m.gen, readbackPending := m.readbackPending, clearanceText := m.clearanceText, clearance := m.clearance) == m
  {
    hide Evolves;
  }

  lemma LockRunwayFrame(env: Env, m: Machine, msg: Message, next: State)
    ensures var n := LockRunway(env, m, msg, next);
      n.(gen := m.gen, assignedRunway := m.assignedRunway) == m
      && (m.assignedRunway != "" ==> n.assignedRunway == m.assignedRunway)
  {
    hide Evolves, RunwayFor;
  }

  lemma MoveOnFrame(m: Machine, msg: Message, next: State)
    ensures var n := MoveOn(m, msg, next);
      n.(gen := m.gen, state := m.state, history := m.history, log := m.log, departureType := m.departureType) == m
  {
    hide Evolves, IntentKey, DepartureAfter, TransitionTo;
  }

  lemma BooksKeepLocks(env: Env, m: Machine, msg: Message, resp: Response, comp: Bzf.Clearance)
    requires Bzf.Callsign in comp.required
    ensures SameFlight(m, CloseBooks(env, m, msg, resp, comp))
  {
    hide Evolves, KeepsClearance, Tracked, LockRunway, LockCallsign, MoveOn, ReleaseLocks, TransitionTo;
    var next := resp.nextState;
    TrackedFrame(m, msg, resp, comp);
    var a := Tracked(m, msg, resp, comp);
    LockRunwayFrame(env, a, msg, next);
    var b := LockRunway(env, a, msg, next);
    var c := LockCallsign(b, msg, next);
    MoveOnFrame(c, msg, next);
  }

  /** The advance of a tower-only field and the repeatable response touch neither lock nor intent. */
  lemma HooksAfterBooks(env: Env, m: Machine, msg: Message, resp: Response, comp: Bzf.Clearance)
    requires Bzf.Callsign in comp.required
    ensures var n, a := Hooks(env, m, msg, resp, comp).0, CloseBooks(env, m, msg, resp, comp);
      n.(gen := a.gen, state := a.state, history := a.history, log := a.log, towerResponse := a.towerResponse) == a
  {
    hide Evolves, KeepsClearance, CloseBooks, AdvanceName, StateFromName, TransitionTo, Tracked;
  }

  lemma RespondKeepsLocks(env: Env, m: Machine, msg: Message)
    ensures SameFlight(m, Respond(env, m, msg).0)
  {
    hide Evolves, KeepsClearance, Answer, AnswerClearance, Corrective, StrictRejects, Hooks, CloseBooks;
    var resp, comp := Answer(env, m, msg), AnswerClearance(env, m, msg);
    BooksKeepLocks(env, m, msg, resp, comp);
    HooksAfterBooks(env, m, msg, resp, comp);
  }

  lemma ArrivalKeepsFlight(t: Desk, nearest: string, now: real)
    ensures var n := CheckAirportChange(t, nearest, now).m;
      && n.assignedRunway == (if Dropped(t, nearest) then "" else t.m.assignedRunway)
      && n.sessionCallsign == t.m.sessionCallsign && n.intentDeclared == t.m.intentDeclared
      && n.intentCrossCountry == t.m.intentCrossCountry && n.intentDestination == t.m.intentDestination
  {
    hide Evolves, TransitionTo;
  }

  lemma SpeechKeepsFlight(env: Env, t: Desk, msg: Message, now: real)
    requires !Dropped(t, env.ctx.nearestAirport)
    ensures SameFlight(t.m, Process(env, t, msg, now).0.m)
  {
    hide Guards, Respond, CheckAirportChange, Promote, Dropped, Evolves;
    var a, promoted := Arrival(env, t, now).m, Promote(t.m, msg);
    ArrivalKeepsFlight(t, env.ctx.nearestAirport, now);
    GuardsKeepPending(env, a, promoted);
    var v := Guards(env, a, promoted);
    if v.Passed? { RespondKeepsLocks(env, v.m, v.msg); }
  }

  lemma CorrectionKeepsFlight(rules: Rules, factor: real, m: Machine, phase: FlightPhase.Phase, dt: real, now: real)
    ensures SameFlight(m, CheckAutoCorrection(rules, factor, m, phase, dt, now))
  {
    hide TickCorrection, CorrectionRules, CorrectionIndex, Uncorrected;
    var later := m.(lastNow := now);
    var cs, i := CorrectionRules(rules, later), CorrectionIndex(rules, later, phase);
    if i < |cs| { TickKeepsFlight(later, cs[i], factor, dt); }
  }

  lemma TickKeepsFlight(m: Machine, c: AutoCorrection, factor: real, dt: real)
    ensures SameFlight(m, TickCorrection(m, c, factor, dt))
  {
    hide Evolves, TransitionTo, CorrectionKey, Delay, TimeOn, StateFromName;
  }

  lemma DisregardKeepsFlight(ctx: Context, m: Machine, now: real)
    ensures SameFlight(m, Disregard(ctx, m, now))
  {
    hide Evolves, TransitionTo;
  }

  /** Steps of one flight: no reset, no restore, no new intent, no airport change en route. */
  predicate OfOneFlight(w: World, s: Step) {
    match s.act
    case Speak(env, _) => !Dropped(w.desk, env.ctx.nearestAirport)
    case AirportFrame(nearest) => !Dropped(w.desk, nearest)
    case LatchIntent(msg) => msg.destination == "" && !Contains(Text.LowerAll(msg.transcript), "platzrunde")
    case Start(_) => false
    case Halt => false
    case NewFlight => false
    case Repositioned(onGround) => !(onGround && (w.desk.m.state.Idle? || w.desk.m.state.GroundContact?))
    case Restore(_, _) => false
    case _ => true
  }

  lemma StepKeepsFlight(w: World, s: Step)
    requires OfOneFlight(w, s)
    ensures SameFlight(w.desk.m, Do(w, s).desk.m)
  {
    hide Process, CheckAirportChange, CheckAutoCorrection, SetState, SetWasAirborne, Disregard, Dropped, Contains, Evolves;
    var m := w.desk.m;
    match s.act
    case Speak(env, msg) => SpeechKeepsFlight(env, w.desk, msg, s.at);
    case CorrectionFrame(rules, factor, phase, dt) => CorrectionKeepsFlight(rules, factor, m, phase, dt, s.at);
    case AirportFrame(nearest) => ArrivalKeepsFlight(w.desk, nearest, s.at);
    case AirborneFlag(v) =>
    case DisregardPressed(ctx) => DisregardKeepsFlight(ctx, m, s.at);
    case ForceState(st) => ForceKeepsFlight(m, st);
    case _ =>
  }

  lemma ForceKeepsFlight(m: Machine, s: State)
    ensures SameFlight(m, SetState(m, s))
  {
    hide Evolves, TransitionTo;
  }

  /** A run of one flight in which the runway (the callsign) is never released. */
  predicate HoldsRunway(w: World, steps: seq<Step>)
    decreases |steps|
  {
    w.desk.m.assignedRunway != "" &&
    (steps == [] || (OfOneFlight(w, steps[0]) && HoldsRunway(Do(w, steps[0]), steps[1..])))
  }

  predicate HoldsCallsign(w: World, steps: seq<Step>)
    decreases |steps|
  {
    w.desk.m.sessionCallsign != "" &&
    (steps == [] || (OfOneFlight(w, steps[0]) && HoldsCallsign(Do(w, steps[0]), steps[1..])))
  }

  predicate OneFlight(w: World, steps: seq<Step>)
    decreases |steps|
  {
    steps == [] || (OfOneFlight(w, steps[0]) && OneFlight(Do(w, steps[0]), steps[1..]))
  }

  lemma {:induction false} RunwayStays(w: World, steps: seq<Step>)
    requires HoldsRunway(w, steps)
    ensures Run(w, steps).desk.m.assignedRunway == w.desk.m.assignedRunway != ""
    decreases |steps|
  {
    hide Do, OfOneFlight;
    if steps != [] {
      StepKeepsFlight(w, steps[0]);
      RunwayStays(Do(w, steps[0]), steps[1..]);
    }
  }

  lemma {:induction false} CallsignStays(w: World, steps: seq<Step>)
    requires HoldsCallsign(w, steps)
    ensures Run(w, steps).desk.m.sessionCallsign == w.desk.m.sessionCallsign != ""
    decreases |steps|
  {
    hide Do, OfOneFlight;
    if steps != [] {
      StepKeepsFlight(w, steps[0]);
      CallsignStays(Do(w, steps[0]), steps[1..]);
    }
  }

  lemma {:induction false} IntentStays(w: World, steps: seq<Step>)
    requires OneFlight(w, steps)
    ensures var m, n := w.desk.m, Run(w, steps).desk.m;
      n.intentDeclared == m.intentDeclared && n.intentCrossCountry == m.intentCrossCountry
      && n.intentDestination == m.intentDestination
    decreases |steps|
  {
    hide Do, OfOneFlight;
    if steps != [] {
      StepKeepsFlight(w, steps[0]);
      IntentStays(Do(w, steps[0]), steps[1..]);
    }
  }

  // ── What is said and filed then ───────────────────────────────────

  /** The answer to a message that passes the guards, and the machine and message it is made from. */
  predicate AnsweredFrom(env: Env, t: Desk, msg: Message, now: real, m: Machine, heard: Message) {
    && Guards(env, Arrival(env, t, now).m, Promote(t.m, msg)) == Passed(m, heard)
    && !StrictRejects(env, m, heard)
  }

  lemma AnsweredKeeps(env: Env, t: Desk, msg: Message, now: real, m: Machine, heard: Message)
    requires AnsweredFrom(env, t, msg, now, m, heard)
    ensures heard == msg.(intent := heard.intent)
    ensures m.assignedRunway == (if Dropped(t, env.ctx.nearestAirport) then "" else t.m.assignedRunway)
    ensures m.sessionCallsign == t.m.sessionCallsign && m.intentDeclared == t.m.intentDeclared
    ensures m.intentCrossCountry == t.m.intentCrossCountry && m.intentDestination == t.m.intentDestination
    ensures Process(env, t, msg, now).0.m == Hooks(env, m, heard, Answer(env, m, heard), AnswerClearance(env, m, heard)).0
    ensures Process(env, t, msg, now).1.text == Answer(env, m, heard).text
  {
    hide Guards, Hooks, Answer, AnswerClearance, CheckAirportChange, Promote, Dropped, Evolves, StrictRejects;
    ArrivalKeepsFlight(t, env.ctx.nearestAirport, now);
    GuardsKeepPending(env, Arrival(env, t, now).m, Promote(t.m, msg));
    GuardsKeepMessage(env, Arrival(env, t, now).m, Promote(t.m, msg));
    PromoteKeepsMessage(t.m, msg);
  }

  /** A runway once locked is the one every later answer speaks and files until it is released, whatever
      runway the wind makes active meanwhile, unless the pilot names another. */
  lemma LockedRunwayIsSpoken(w: World, steps: seq<Step>, env: Env, msg: Message, now: real, m: Machine, heard: Message)
    requires HoldsRunway(w, steps) && !Dropped(Run(w, steps).desk, env.ctx.nearestAirport)
    requires AnsweredFrom(env, Run(w, steps).desk, msg, now, m, heard)
    ensures var r := if msg.runway != "" then msg.runway else w.desk.m.assignedRunway;
      var n := Process(env, Run(w, steps).desk, msg, now).0.m;
      && BuildVars(env, m, heard)["runway"] == r && BuildVars(env, m, heard)["position"] == env.positionAt(r)
      && (Answer(env, m, heard).requiresReadback && !heard.intent.Readback? && !Leaves(Answer(env, m, heard).nextState)
          ==> n.clearance.runway == r)
  {
    hide Run, HoldsRunway, AnsweredFrom, Dropped, Process, Hooks, Answer, AnswerClearance, BuildVars;
    RunwayStays(w, steps);
    AnsweredKeeps(env, Run(w, steps).desk, msg, now, m, heard);
    RunwaySpoken(env, m, heard);
  }

  /** The runway an answer speaks is the one it locks, if none is locked and the dialog goes on. */
  lemma SpokenRunwayIsLocked(env: Env, t: Desk, msg: Message, now: real, m: Machine, heard: Message)
    requires AnsweredFrom(env, t, msg, now, m, heard)
    requires m.assignedRunway == "" && !Answer(env, m, heard).nextState.Idle?
    ensures var r, n := BuildVars(env, m, heard)["runway"], Process(env, t, msg, now).0.m;
      n.assignedRunway == r && r != ""
      && (msg.runway == "" && env.ctx.activeRunway != "" ==> r == env.ctx.activeRunway)
      && (msg.runway != "" ==> r == msg.runway)
  {
    hide AnsweredFrom, Process, Answer, AnswerClearance, BuildVars, CloseBooks, Evolves, KeepsClearance, Hooks, Dropped;
    AnsweredKeeps(env, t, msg, now, m, heard);
    RunwaySpoken(env, m, heard);
    BooksRunway(env, m, heard);
    HooksAfterBooks(env, m, heard, Answer(env, m, heard), AnswerClearance(env, m, heard));
  }

  // ── The callsign ──────────────────────────────────────────────────

  predicate NoSpace(w: string) { w != "" && forall i :: 0 <= i < |w| ==> w[i] != ' ' }

  predicate Plain(ws: seq<string>) { forall i :: 0 <= i < |ws| ==> NoSpace(ws[i]) }

  lemma {:induction false} SpaceWordsOfWord(word: string, w: string, rest: string)
    requires forall i :: 0 <= i < |w| ==> w[i] != ' '
    ensures SpaceWords(w + rest, word) == SpaceWords(rest, word + w)
    decreases |w|
  {
    if w == "" {
      assert w + rest == rest && word + w == word;
    } else {
      assert (w + rest)[0] == w[0] && (w + rest)[1..] == w[1..] + rest;
      SpaceWordsOfWord(word + [w[0]], w[1..], rest);
      assert word + [w[0]] + w[1..] == word + w;
    }
  }

  lemma {:induction false} SpaceWordsOfJoin(ws: seq<string>)
    requires Plain(ws)
    ensures SpaceWords(Text.Join(ws), "") == ws
  {
    if ws == [] {
    } else if |ws| == 1 {
      assert ws[0] + "" == ws[0] && "" + ws[0] == ws[0];
      SpaceWordsOfWord("", ws[0], "");
    } else {
      var rest := Text.Join(ws[1..]);
      assert Text.Join(ws) == ws[0] + (" " + rest) by { Text.JoinAppend([ws[0]], ws[1..]); assert ws == [ws[0]] + ws[1..]; }
      SpaceWordsOfWord("", ws[0], " " + rest);
      assert "" + ws[0] == ws[0] && (" " + rest)[1..] == rest;
      assert SpaceWords(" " + rest, ws[0]) == [ws[0]] + SpaceWords(rest, "");
      SpaceWordsOfJoin(ws[1..]);
    }
  }

  function LastThree(ws: seq<string>): seq<string> { if |ws| <= 3 then ws else ws[|ws| - 3..] }

  lemma AbbreviationIsLastThree(ws: seq<string>)
    requires Plain(ws)
    ensures Abbreviate(Text.Join(ws)) == Text.Join(LastThree(ws))
  {
    SpaceWordsOfJoin(ws);
  }

  /** The tower addresses the locked callsign, else the one just heard, else the configured one: in full
      on first contact, from then on by its last three words.  The same is filed for the readback. */
  lemma CallsignSpoken(env: Env, m: Machine, msg: Message, ws: seq<string>)
    requires Plain(ws)
    requires Text.Join(ws) == if m.sessionCallsign != "" then m.sessionCallsign
                              else if msg.callsign != "" then msg.callsign else env.settings.pilotCallsign
    ensures var spoken := Text.Join(if m.state.Idle? then ws else LastThree(ws));
      BuildVars(env, m, msg)["callsign"] == spoken && AnswerClearance(env, m, msg).callsign == spoken
  {
    hide Intention, CoursePhrase, AnswerTemplate, Obligations, IssuedFrequency, Candidates, RunwayFor, Abbreviate, Text.Join,
         LastThree;
    AbbreviationIsLastThree(ws);
  }

  /** A callsign once locked is the one every later answer uses until it is released, whatever is heard. */
  lemma LockedCallsignIsSpoken(w: World, steps: seq<Step>, env: Env, msg: Message, now: real, m: Machine, heard: Message,
                               ws: seq<string>)
    requires HoldsCallsign(w, steps) && Plain(ws) && w.desk.m.sessionCallsign == Text.Join(ws)
    requires AnsweredFrom(env, Run(w, steps).desk, msg, now, m, heard)
    ensures BuildVars(env, m, heard)["callsign"] == Text.Join(if m.state.Idle? then ws else LastThree(ws))
  {
    hide Run, HoldsCallsign, AnsweredFrom, Process, Hooks, Answer, AnswerClearance, BuildVars, LastThree, Text.Join;
    CallsignStays(w, steps);
    AnsweredKeeps(env, Run(w, steps).desk, msg, now, m, heard);
    CallsignSpoken(env, m, heard, ws);
  }

  // ── The flight intent ─────────────────────────────────────────────

  function Spelled(env: Env, dest: string): string {
    Text.Join(if env.settings.profile == "EN" then Icao.CallsignWords(Icao.ENGLISH_NATO, SpokenNumbers.English, dest)
              else Icao.CallsignWords(Icao.GERMAN_NATO, SpokenNumbers.German, dest))
  }

  /** The intention and the course phrase of a flight to `dest`, in the words of the profile. */
  predicate SaysDestination(env: Env, vars: Templates.Vars, dest: string)
    requires "intention" in vars && "vfr_course_phrase" in vars
  {
    var to := Spelled(env, dest);
    if dest == "" || to == "" then
      vars["intention"] == (if env.settings.profile == "DE" then "VFR Ueberlandflug" else "VFR cross country")
      && vars["vfr_course_phrase"] == ""
    else
      vars["intention"] == (if env.settings.profile == "DE" then "VFR nach " else "VFR to ") + to
      && vars["vfr_course_phrase"] == (if env.settings.profile == "DE" then ", Kurs nach " else ", course to ") + to
  }

  predicate SaysPattern(env: Env, vars: Templates.Vars)
    requires "intention" in vars && "vfr_course_phrase" in vars
  {
    vars["intention"] == (if env.settings.profile == "DE" then "VFR Platzrunde" else "VFR pattern")
    && vars["vfr_course_phrase"] == ""
  }

  /** The destination named in this message, else what was declared this flight, else the settings. */
  lemma IntentSpoken(env: Env, m: Machine, msg: Message)
    ensures var vars := BuildVars(env, m, msg);
      && "intention" in vars && "vfr_course_phrase" in vars
      && (msg.destination != "" ==> SaysDestination(env, vars, msg.destination))
      && (msg.destination == "" && m.intentDeclared && m.intentCrossCountry ==> SaysDestination(env, vars, m.intentDestination))
      && (msg.destination == "" && m.intentDeclared && !m.intentCrossCountry ==> SaysPattern(env, vars))
      && (msg.destination == "" && !m.intentDeclared && env.settings.crossCountry ==>
            SaysDestination(env, vars, env.settings.destination))
      && (msg.destination == "" && !m.intentDeclared && !env.settings.crossCountry ==> SaysPattern(env, vars))
  {
    hide SpokenCallsign, RunwayFor, Icao.CallsignWords, Text.Join;
  }

  /** A destination declared once is named by every later answer of the flight that names none itself; so
      is a pattern flight. */
  lemma DeclaredIntentIsSpoken(w: World, declared: Message, at: real, steps: seq<Step>, env: Env, msg: Message, now: real,
                               m: Machine, heard: Message)
    requires OneFlight(Do(w, Step(LatchIntent(declared), at)), steps) && msg.destination == ""
    requires AnsweredFrom(env, Run(Do(w, Step(LatchIntent(declared), at)), steps).desk, msg, now, m, heard)
    ensures var vars := BuildVars(env, m, heard);
      && "intention" in vars && "vfr_course_phrase" in vars
      && (declared.destination != "" ==> SaysDestination(env, vars, declared.destination))
      && (declared.destination == "" && Contains(Text.LowerAll(declared.transcript), "platzrunde") ==> SaysPattern(env, vars))
  {
    hide Run, OneFlight, AnsweredFrom, Process, Hooks, Answer, AnswerClearance, BuildVars, SaysDestination, SaysPattern,
         Contains, KeepsClearance;
    var v := Do(w, Step(LatchIntent(declared), at));
    IntentStays(v, steps);
    AnsweredKeeps(env, Run(v, steps).desk, msg, now, m, heard);
    IntentSpoken(env, m, heard);
  }

  // ── The template and the obligations ──────────────────────────────

  predicate Speaks(env: Env, m: Machine, msg: Message, resp: Response, tmpl: Template) {
    resp == Response(Say(env, m, msg, tmpl.response), StateFromName(tmpl.nextState), tmpl.requiresReadback)
  }

  /** Which entry of the towered table answers: on a tower-only field the one made for it, else the one
      of the intent, else the one for an intent invalid in this state; "say again" when there is none. */
  lemma TemplateChosen(env: Env, m: Machine, msg: Message)
    requires env.sequencing.NoSequencing?
    ensures var name, key, resp := CurrentName(m), IntentKey(msg.intent), Answer(env, m, msg);
      if (true, name) !in env.rules.templates then
        Speaks(env, m, msg, resp, Template("Say again, {callsign}.", "IDLE", false))
      else
        var entries := env.rules.templates[(true, name)];
        && (env.ctx.towerOnly && key + "_TOWER_ONLY" in entries ==> Speaks(env, m, msg, resp, entries[key + "_TOWER_ONLY"]))
        && (!(env.ctx.towerOnly && key + "_TOWER_ONLY" in entries) && key in entries ==> Speaks(env, m, msg, resp, entries[key]))
        && (!(env.ctx.towerOnly && key + "_TOWER_ONLY" in entries) && key !in entries && "_INVALID" in entries ==>
              Speaks(env, m, msg, resp, entries["_INVALID"]))
        && (!(env.ctx.towerOnly && key + "_TOWER_ONLY" in entries) && key !in entries && "_INVALID" !in entries ==>
              Speaks(env, m, msg, resp, Template("Say again, {callsign}.", "IDLE", false)))
  {
    hide BuildVars, Fill, StateFromName, CurrentName, IntentKey;
  }

  /** A landing clearance names the traffic to follow, or holds back for an occupied runway. */
  lemma LandingOverlay(env: Env, m: Machine, msg: Message)
    requires (true, "Pattern/LANDING_CLEARED") in env.rules.templates
    requires StateFromName(AnswerTemplate(env, m, msg).nextState).LandingCleared?
    ensures var entries, resp := env.rules.templates[(true, "Pattern/LANDING_CLEARED")], Answer(env, m, msg);
      && resp.nextState.LandingCleared? && resp.requiresReadback == AnswerTemplate(env, m, msg).requiresReadback
      && (env.sequencing.RunwayOccupied? && "continue_approach_traffic_runway" in entries
            && entries["continue_approach_traffic_runway"].response != "" ==>
          resp.text == Say(env, m, msg, entries["continue_approach_traffic_runway"].response))
      && (env.sequencing.Follow? && "number_to_land_follow" in entries && entries["number_to_land_follow"].response != "" ==>
          resp.text == Fill(entries["number_to_land_follow"].response,
            BuildVars(env, m, msg)["seq_number" := env.sequencing.number]["seq_type" := env.sequencing.kind]
              ["seq_position" := env.sequencing.leg]))
  {
    hide BuildVars, Fill, AnswerTemplate;
  }

  /** The clearance filed with an answer: every value is the one spoken, and what is owed is what the kind
      of request makes mandatory and this transmission contained. */
  lemma ClearanceFiled(env: Env, m: Machine, msg: Message)
    ensures var c, tmpl, vars := AnswerClearance(env, m, msg), AnswerTemplate(env, m, msg).response, BuildVars(env, m, msg);
      && c.callsign == Var(vars, "callsign") && c.qnh == Var(vars, "qnh") && c.squawk == Var(vars, "squawk")
      && Bzf.Callsign in c.required && Bzf.Squawk !in c.required
      && (Bzf.Runway in c.required <==>
            (msg.intent.RequestTaxi? || msg.intent.InitialCallInbound? || msg.intent.ReadyForDeparture?
             || msg.intent.ReadyForDepartureVfr? || msg.intent.RequestLanding? || msg.intent.RequestTouchAndGo?)
            && Contains(tmpl, "{runway}") && Var(vars, "runway") != "")
      && (Bzf.Qnh in c.required <==>
            (msg.intent.RequestTaxi? || msg.intent.InitialCallInbound?)
            && Contains(tmpl, "{qnh}") && Var(vars, "qnh") != "")
      && (Bzf.Frequency in c.required <==> msg.intent.RequestFrequency? && c.frequency != "")
      && c.frequency == (if Contains(tmpl, "{frequency}") then Var(vars, "frequency")
                         else if Contains(tmpl, "{tower_frequency}") then Var(vars, "tower_frequency")
                         else if Contains(tmpl, "{ground_frequency}") then Var(vars, "ground_frequency") else "")
  {
    hide BuildVars, AnswerTemplate, Contains, Obligations, Var;
    var tmpl, vars := AnswerTemplate(env, m, msg).response, BuildVars(env, m, msg);
    ObligationsAreIssued(vars, tmpl, Candidates(msg.intent), Bzf.Callsign);
    ObligationsAreIssued(vars, tmpl, Candidates(msg.intent), Bzf.Runway);
    ObligationsAreIssued(vars, tmpl, Candidates(msg.intent), Bzf.Qnh);
    ObligationsAreIssued(vars, tmpl, Candidates(msg.intent), Bzf.Frequency);
    ObligationsAreIssued(vars, tmpl, Candidates(msg.intent), Bzf.Squawk);
  }
}
