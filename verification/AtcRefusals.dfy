/** When the tower answers without reaching the template table: corrections, advisory frequencies, hints,
    redirects, phase and frequency preconditions, incomplete initial calls; and how intents are named. */
module AtcRefusals {
  import opened AtcState
  import opened AtcPipeline
  import FlightPhase

  // ── Names of intents ──────────────────────────────────────────────

  const INTENTS_BY_KEY: map<string, Intent> :=
    map["RADIO_CHECK" := RadioCheck, "INITIAL_CALL" := InitialCall, "INITIAL_CALL_GROUND" := InitialCallGround,
        "INITIAL_CALL_TOWER" := InitialCallTower, "INITIAL_CALL_INBOUND" := InitialCallInbound,
        "INITIAL_CALL_INBOUND_VRP" := InitialCallInboundVrp, "REQUEST_TAXI" := RequestTaxi,
        "REQUEST_TAXI_PARKING" := RequestTaxiParking, "READY_FOR_DEPARTURE" := ReadyForDeparture,
        "READY_FOR_DEPARTURE_VFR" := ReadyForDepartureVfr, "REPORT_POSITION" := ReportPosition,
        "REPORT_POSITION_DOWNWIND" := ReportDownwind, "REPORT_POSITION_BASE" := ReportBase,
        "REPORT_POSITION_FINAL" := ReportFinal, "REQUEST_LANDING" := RequestLanding,
        "REQUEST_TOUCH_AND_GO" := RequestTouchAndGo, "GO_AROUND" := GoAround, "RUNWAY_VACATED" := RunwayVacated,
        "READBACK" := Readback, "_READBACK" := Readback, "REQUEST_FREQUENCY" := RequestFrequency,
        "LEAVING_FREQUENCY" := LeavingFrequency, "UNABLE" := Unable, "SELF_ANNOUNCE" := SelfAnnounce,
        "SELF_ANNOUNCE_DEPARTURE" := SelfAnnounceDeparture, "INAPPROPRIATE_LANGUAGE" := InappropriateLanguage,
        "NEGATIVE_CORRECTION" := NegativeCorrection, "TRAFFIC_IN_SIGHT" := TrafficInSight,
        "TRAFFIC_NEGATIVE_CONTACT" := TrafficNegativeContact, "TRAFFIC_LOOKING" := TrafficLooking,
        "REQUEST_REPEAT" := RequestRepeat, "RMZ_ENTER" := RmzEnter, "RMZ_LEAVE" := RmzLeave]

  function IntentFromKey(key: string): Intent {
    if key in INTENTS_BY_KEY then INTENTS_BY_KEY[key] else UnknownIntent
  }

  predicate RoundTrips(i: Intent) { IntentFromKey(IntentKey(i)) == if i.InitialCall? then InitialCallTower else i }

  predicate Greeting(i: Intent) { i.RadioCheck? || i.InitialCall? || i.InitialCallGround? || i.InitialCallTower? }

  predicate Inbound(i: Intent) { i.InitialCallInbound? || i.InitialCallInboundVrp? || i.RequestTaxi? || i.RequestTaxiParking? }

  predicate Departing(i: Intent) { i.ReadyForDeparture? || i.ReadyForDepartureVfr? || i.ReportPosition? || i.ReportDownwind? }

  predicate Landing(i: Intent) { i.ReportBase? || i.ReportFinal? || i.RequestLanding? || i.RequestTouchAndGo? }

  predicate Leaving(i: Intent) { i.GoAround? || i.RunwayVacated? || i.Readback? || i.RequestFrequency? }

  predicate Announcing(i: Intent) { i.LeavingFrequency? || i.Unable? || i.SelfAnnounce? || i.SelfAnnounceDeparture? }

  predicate Correcting(i: Intent) { i.InappropriateLanguage? || i.NegativeCorrection? }

  predicate Watching(i: Intent) { i.TrafficInSight? || i.TrafficNegativeContact? }

  lemma GreetingRoundTrips(i: Intent)
    requires Greeting(i)
    ensures RoundTrips(i)
  {
  }

  lemma InboundRoundTrips(i: Intent)
    requires Inbound(i)
    ensures RoundTrips(i)
  {
  }

  lemma DepartingRoundTrips(i: Intent)
    requires Departing(i)
    ensures RoundTrips(i)
  {
  }

  lemma LandingRoundTrips(i: Intent)
    requires Landing(i)
    ensures RoundTrips(i)
  {
  }

  lemma LeavingRoundTrips(i: Intent)
    requires Leaving(i)
    ensures RoundTrips(i)
  {
  }

  lemma AnnouncingRoundTrips(i: Intent)
    requires Announcing(i)
    ensures RoundTrips(i)
  {
  }

  lemma CorrectingRoundTrips(i: Intent)
    requires Correcting(i)
    ensures RoundTrips(i)
  {
  }

  lemma WatchingRoundTrips(i: Intent)
    requires Watching(i)
    ensures RoundTrips(i)
  {
  }

  lemma OthersRoundTrip(i: Intent)
    requires !Greeting(i) && !Inbound(i) && !Departing(i) && !Landing(i) && !Leaving(i) && !Announcing(i)
    requires !Correcting(i) && !Watching(i)
    ensures RoundTrips(i)
  {
  }

  /** Keys and intents round-trip, but for the generic initial call, which shares the tower's key. */
  lemma IntentRoundTrip(i: Intent)
    ensures IntentFromKey(IntentKey(i)) == if i.InitialCall? then InitialCallTower else i
  {
    hide IntentKey, IntentFromKey, INTENTS_BY_KEY, Greeting, Inbound, Departing, Landing, Leaving, Announcing, Correcting,
         Watching;
    if Greeting(i) { GreetingRoundTrips(i); } else if Inbound(i) { InboundRoundTrips(i); }
    else if Departing(i) { DepartingRoundTrips(i); } else if Landing(i) { LandingRoundTrips(i); }
    else if Leaving(i) { LeavingRoundTrips(i); } else if Announcing(i) { AnnouncingRoundTrips(i); }
    else if Correcting(i) { CorrectingRoundTrips(i); } else if Watching(i) { WatchingRoundTrips(i); } else { OthersRoundTrip(i); }
  }

  // ── Corrections ───────────────────────────────────────────────────

  /** How far a dialog is from its beginning. */
  function Depth(s: State): nat {
    match s
    case GroundContact => 1
    case TowerContact => 1
    case TaxiCleared => 2
    case DepartureCleared => 2
    case PatternEntry => 2
    case LandingCleared => 3
    case TouchAndGoCleared => 3
    case _ => 0
  }

  /** A state of an arrival, as opposed to one of a departure. */
  predicate Arriving(s: State) { s.PatternEntry? || s.LandingCleared? || s.TouchAndGoCleared? }

  predicate OnGroundFrequency(s: State) { s.GroundContact? || s.TaxiCleared? }

  /** A correction takes back exactly one stage, on the same frequency and towards the same beginning;
      where there is none to take back the state stays. */
  lemma CorrectionTakesBackOne(env: Env, m: Machine, msg: Message)
    requires msg.intent.NegativeCorrection?
    ensures var v := Guards(env, m, msg);
      && v.Answered? && v.resp.nextState == v.m.state && !v.resp.requiresReadback
      && (Depth(m.state) == 0 ==> v.m == m)
      && (Depth(m.state) > 0 ==> Depth(v.m.state) == Depth(m.state) - 1)
      && (OnGroundFrequency(m.state) && Depth(m.state) > 1 ==> OnGroundFrequency(v.m.state))
      && (m.state.DepartureCleared? || m.state.PatternEntry? ==> v.m.state.TowerContact?)
      && (Depth(m.state) == 1 ==> v.m.state.Idle?)
      && (Arriving(m.state) && Depth(m.state) > 2 ==> Arriving(v.m.state))
  {
    hide Say, CorrectionText, Evolves;
  }

  /** What it says: the correction is noted where there was something to take back. */
  lemma CorrectionIsNoted(env: Env, m: Machine, msg: Message)
    requires msg.intent.NegativeCorrection?
    ensures Guards(env, m, msg).resp.text ==
      Say(env, m, msg, if Depth(m.state) == 0 then "{callsign}, roger, say intentions."
                       else "{callsign}, roger, correction noted, say intentions.")
  {
    hide Say, Evolves, Correct;
  }

  // ── Repeats and reverts ───────────────────────────────────────────

  /** A repeat request gets the last response, with the readback still owed; before the first one the caller
      is told so, by the callsign in use. */
  lemma NothingToRepeat(env: Env, m: Machine, msg: Message)
    requires msg.intent.RequestRepeat?
    ensures var v := Guards(env, m, msg);
      && v.Answered? && v.m == m && v.resp.nextState == m.state && v.resp.requiresReadback == m.readbackPending
      && (m.towerResponse != "" ==> v.resp.text == m.towerResponse)
      && (m.towerResponse == "" ==>
            v.resp.text == (if m.sessionCallsign != "" then m.sessionCallsign else if msg.callsign != "" then msg.callsign
                            else env.settings.pilotCallsign) + ", keine vorherige Anweisung zum Wiederholen.")
  {
  }

  /** The first revert rule for this state and intent takes the dialog back, and the departure flow with it
      if it says so; without one nothing changes. */
  lemma RevertsIff(env: Env, m: Machine, msg: Message)
    ensures var rs, n := env.rules.reverts, ApplyStateReverts(env, m, msg);
      && (forall i :: 0 <= i < |rs| && Reverts(rs, i, m, msg) ==>
            && n.state == StateFromName(rs[i].revertTo)
            && n.departureType == if rs[i].resetDeparture then Pattern else m.departureType)
      && ((forall i :: 0 <= i < |rs| ==> !Reverts(rs, i, m, msg)) ==> n == m)
  {
    hide Evolves, IntentKey, CurrentName;
    var rs, i := env.rules.reverts, RevertIndex(env, m, msg);
    if i < |rs| { assert Reverts(rs, i, m, msg); }
  }

  /** The i-th rule is the first for this state and intent. */
  predicate Reverts(rs: seq<Revert>, i: nat, m: Machine, msg: Message) {
    var name, key := CurrentName(m), IntentKey(msg.intent);
    && i < |rs| && rs[i].inState == name && key in rs[i].intents
    && forall k :: 0 <= k < i ==> rs[k].inState != name || key !in rs[k].intents
  }

  // ── Airports ──────────────────────────────────────────────────────

  /** En route past a new airport the dialog is over and the log says why; at any other time, and over the
      same airport, only the clock moves. */
  lemma AirportIsLeft(t: Desk, nearest: string, now: real)
    ensures var d := CheckAirportChange(t, nearest, now);
      && d.lastAirport == (if nearest == "" then t.lastAirport else nearest) && d.m.lastNow == now
      && if t.m.state.EnRoute? && nearest != "" && t.lastAirport != "" && nearest != t.lastAirport then
           && d.m.state.Idle? && !d.m.readbackPending && d.m.assignedRunway == "" && d.m.departureType.Pattern?
           && d.m.log == t.m.log + [HistoryEntry(EnRoute, "airport_change_en_route", now)]
         else d.m == t.m.(lastNow := now)
  {
    hide Evolves;
  }

  // ── Advisory frequencies ──────────────────────────────────────────

  /** Away from a tower nobody clears anything: the answer comes from the uncontrolled table, for the kind
      of service on the frequency, and nothing has to be read back. */
  lemma AdvisoryAnswers(env: Env, m: Machine, msg: Message)
    requires !msg.intent.NegativeCorrection? && !msg.intent.RequestRepeat?
    ensures var v := Guards(env, m, msg);
      && (v.Passed? ==> env.ctx.towered && !env.ctx.freq.Unicom? && !env.ctx.freq.Ctaf? && !env.ctx.freq.Radio?
                        && !env.ctx.freq.Info?)
      && (env.ctx.freq.Unicom? || env.ctx.freq.Ctaf? || env.ctx.freq.Radio? || env.ctx.freq.Info? || !env.ctx.towered ==>
            v.Answered? && !v.resp.requiresReadback)
  {
    hide Say, Evolves, ApplyStateReverts, AdvisoryFlow, HintTemplate, ApplyFrequencyValidity, ApplyFrequencyCorrections,
         LateGuards;
    AdvisoryOwesNothing(env, ApplyStateReverts(env, m, msg), msg);
  }

  lemma AdvisoryOwesNothing(env: Env, m: Machine, msg: Message)
    ensures OnInfo(env.ctx) || OnUnicom(env.ctx) ==> !AdvisoryFlow(env, m, msg).1.requiresReadback
  {
    hide Say, Evolves, TransitionTo;
  }

  /** The table entry for an intent in a state: on a tower-only field the one made for it, else the one of
      the intent, else the one for an invalid intent, else the fallback. */
  lemma LookupChooses(rules: Rules, towered: bool, name: string, key: string, towerOnly: bool)
    ensures var t := Lookup(rules, towered, name, key, towerOnly);
      if (towered, name) !in rules.templates then t == Template("Say again, {callsign}.", "IDLE", false)
      else
        var entries := rules.templates[(towered, name)];
        && (towerOnly && key + "_TOWER_ONLY" in entries ==> t == entries[key + "_TOWER_ONLY"])
        && (!(towerOnly && key + "_TOWER_ONLY" in entries) && key in entries ==> t == entries[key])
        && (!(towerOnly && key + "_TOWER_ONLY" in entries) && key !in entries && "_INVALID" in entries ==>
              t == entries["_INVALID"])
        && (!(towerOnly && key + "_TOWER_ONLY" in entries) && key !in entries && "_INVALID" !in entries ==>
              t == Template("Say again, {callsign}.", "IDLE", false))
  {
  }

  lemma AdvisoryText(env: Env, m: Machine, msg: Message)
    requires OnInfo(env.ctx) || OnUnicom(env.ctx)
    ensures var (n, resp), key := AdvisoryFlow(env, m, msg), IntentKey(msg.intent);
      && n.state == resp.nextState
      && (env.ctx.freq.Info? ==>
            resp.text == Say(env, m, msg, Lookup(env.rules, false, "INFO", key, false).response)
            && resp.nextState == StateFromName(Lookup(env.rules, false, "INFO", key, false).nextState))
      && (env.ctx.freq.Radio? ==> resp.text == Say(env, m, msg, Lookup(env.rules, false, "RADIO", key, false).response))
      && (!env.ctx.freq.Info? && !env.ctx.freq.Radio? ==>
            resp.text == Say(env, m, msg, Lookup(env.rules, false, "IDLE", key, false).response))
      && (!env.ctx.freq.Info? ==> resp.nextState.Idle?)
  {
    hide Say, Evolves, TransitionTo, Lookup, IntentKey;
  }

  // ── The wrong frequency ───────────────────────────────────────────

  /** On an unknown frequency of a towered field the pilot is pointed to Ground for what Ground handles,
      else to the Tower; a readback is not. */
  lemma HintPoints(env: Env, msg: Message)
    ensures var h := HintTemplate(env, msg);
      && (h != "" ==> env.ctx.freq.UnknownFreq? && env.ctx.towered && !msg.intent.Readback? && env.rules.hint.Hint?)
      && (env.ctx.freq.UnknownFreq? && env.ctx.towered && !msg.intent.Readback? && env.rules.hint.Hint? ==>
            if IntentKey(msg.intent) in env.rules.hint.groundIntents && !env.ctx.towerOnly
            then h == env.rules.hint.groundResponse else h == env.rules.hint.towerResponse)
  {
  }

  /** The hint is the answer, and nothing has to be read back. */
  lemma HintAnswers(env: Env, m: Machine, msg: Message)
    requires HintTemplate(env, msg) != "" && !msg.intent.NegativeCorrection? && !msg.intent.RequestRepeat?
    ensures var v := Guards(env, m, msg);
      && v.Answered? && v.m == ApplyStateReverts(env, m, msg)
      && v.resp == Response(Say(env, v.m, msg, HintTemplate(env, msg)), v.m.state, false)
  {
    hide Say, Evolves, ApplyStateReverts, AdvisoryFlow, LateGuards, ApplyFrequencyValidity, ApplyFrequencyCorrections;
    HintPoints(env, msg);
  }

  /** A state that is not valid on the tuned frequency falls back to IDLE: not en route, not on an unknown
      frequency, not on the tower of a tower-only field. */
  lemma ValidityResets(env: Env, m: Machine)
    ensures var n := ApplyFrequencyValidity(env, m);
      if !env.ctx.freq.UnknownFreq? && !(env.ctx.towerOnly && env.ctx.freq.Tower?) && !m.state.EnRoute?
         && env.ctx.freq in env.rules.validity && CurrentName(m) !in env.rules.validity[env.ctx.freq]
      then n.state.Idle? else n == m
  {
    hide Evolves, TransitionTo, CurrentName;
  }

  /** A frequency advances the dialog by the first rule of its state that lists it, except on the tower of
      a tower-only field. */
  lemma FrequencyAdvances(env: Env, m: Machine, i: nat)
    requires CurrentName(m) in env.rules.freqCorrections && i < |env.rules.freqCorrections[CurrentName(m)]|
    requires !(env.ctx.towerOnly && env.ctx.freq.Tower?)
    requires var rules := env.rules.freqCorrections[CurrentName(m)];
      env.ctx.freq in rules[i].frequencies && forall k :: 0 <= k < i ==> env.ctx.freq !in rules[k].frequencies
    ensures var rule, n := env.rules.freqCorrections[CurrentName(m)][i], ApplyFrequencyCorrections(env, m);
      var why := "freq_auto_correction:" + (if rule.log == "" then rule.name else rule.log);
      n.state == StateFromName(rule.nextState)
      && (n.state != m.state ==> n.log == m.log + [HistoryEntry(m.state, why, m.lastNow)])
  {
    hide Evolves, CurrentName, StateFromName;
    var rules := env.rules.freqCorrections[CurrentName(m)];
    assert FreqCorrections(env, m) == rules;
    assert FreqCorrectionIndex(env, m) == i;
  }

  lemma NoAdvanceOnTowerOnly(env: Env, m: Machine)
    requires env.ctx.towerOnly && env.ctx.freq.Tower?
    ensures ApplyFrequencyCorrections(env, ApplyFrequencyValidity(env, m)) == m
  {
    hide Evolves, TransitionTo, CurrentName;
  }

  // ── The late guards ───────────────────────────────────────────────

  /** In IDLE the first redirect for this frequency and intent answers, unless it is not meant for
      tower-only fields and this is one. */
  lemma RedirectAnswers(env: Env, m: Machine, msg: Message, i: nat)
    requires m.state.Idle? && i < |env.rules.redirects|
    requires Redirects(env.rules.redirects[i], env.ctx, IntentKey(msg.intent))
    requires forall k :: 0 <= k < i ==> !Redirects(env.rules.redirects[k], env.ctx, IntentKey(msg.intent))
    ensures LateGuards(env, m, msg) == Answered(m, Response(Say(env, m, msg, env.rules.redirects[i].response), Idle, false))
  {
    hide Say, Evolves, IntentKey;
    assert RedirectIndex(env, msg) == i;
  }

  predicate Redirects(r: Redirect, ctx: Context, key: string) {
    ctx.freq == r.freq && key in r.intents && (ctx.towerOnly ==> r.unlessFlag != "tower_only")
  }

  /** No redirect applies. */
  predicate NotRedirected(env: Env, m: Machine, msg: Message) {
    var rs := env.rules.redirects;
    !m.state.Idle? || forall k :: 0 <= k < |rs| ==> !Redirects(rs[k], env.ctx, IntentKey(msg.intent))
  }

  /** The first contact with the tower of a German tower-only field, on the ground before any flight, is
      the call to Ground; no other message is reinterpreted. */
  predicate GroundCallToTower(env: Env, m: Machine, msg: Message) {
    env.settings.profile == "DE" && env.ctx.towerOnly && env.ctx.onGround && m.state.Idle? && !m.wasAirborne
    && msg.intent.InitialCallTower?
  }

  function MeantAs(env: Env, m: Machine, msg: Message): Message {
    if GroundCallToTower(env, m, msg) then msg.(intent := InitialCallGround) else msg
  }

  /** The phrase for a phase that does not allow the request. */
  predicate PhasePhrase(pc: Precondition, phase: FlightPhase.Phase, text: string) {
    && (phase.Parked? && pc.parked != "" ==> text == pc.parked)
    && (FlightPhase.IsAirborne(phase) && pc.airborne != "" ==> text == pc.airborne)
    && (!(phase.Parked? && pc.parked != "") && !(FlightPhase.IsAirborne(phase) && pc.airborne != "") ==>
          text == if pc.ground != "" then pc.ground else if pc.parked != "" then pc.parked else "{callsign}, unable.")
  }

  predicate PhaseForbids(env: Env, key: string) {
    key in env.rules.preconditions && env.ctx.phase !in env.rules.preconditions[key].allowed
  }

  predicate FrequencyForbids(env: Env, key: string) {
    && key in env.rules.intentFrequency && !(env.ctx.towerOnly && env.ctx.freq.Tower?)
    && env.rules.intentFrequency[key].rejection != ""
    && (env.ctx.freq.Ground? ==> "GROUND" !in env.rules.intentFrequency[key].allowed)
    && (env.ctx.freq.Tower? ==> "TOWER" !in env.rules.intentFrequency[key].allowed)
    && (env.ctx.freq.Unicom? ==> "UNICOM" !in env.rules.intentFrequency[key].allowed)
    && (env.ctx.freq.Ctaf? ==> "CTAF" !in env.rules.intentFrequency[key].allowed)
    && (env.ctx.freq.Info? ==> "INFO" !in env.rules.intentFrequency[key].allowed)
    && (env.ctx.freq.Radio? ==> "RADIO" !in env.rules.intentFrequency[key].allowed)
  }

  lemma CollapseMeans(env: Env, m: Machine, msg: Message)
    ensures Collapse(env, m, msg) == MeantAs(env, m, msg)
  {
  }

  lemma RejectionIs(env: Env, msg: Message)
    ensures var key, r := IntentKey(msg.intent), Rejection(env, msg);
      && (PhaseForbids(env, key) ==> PhasePhrase(env.rules.preconditions[key], env.ctx.phase, r) && r != "")
      && (!PhaseForbids(env, key) && FrequencyForbids(env, key) ==> r == env.rules.intentFrequency[key].rejection != "")
      && (!PhaseForbids(env, key) && !FrequencyForbids(env, key) ==> r == "")
  {
    hide IntentKey;
  }

  /** A request that the flight phase does not allow is refused with the phrase for that phase; one that
      the frequency does not allow with the rule's phrase; the phase speaks first. */
  lemma ForbiddenIsRefused(env: Env, m: Machine, msg: Message)
    requires NotRedirected(env, m, msg)
    ensures var meant := MeantAs(env, m, msg);
      var key, v := IntentKey(meant.intent), LateGuards(env, m, msg);
      && (PhaseForbids(env, key) || FrequencyForbids(env, key) ==>
            v.Answered? && v.m == m && v.resp.nextState == m.state && !v.resp.requiresReadback)
      && (v.Passed? ==> v.msg == meant)
  {
    hide Say, Evolves, IntentKey, PhaseForbids, FrequencyForbids, Rejection, MeantAs, Enforced, SpokenCallsign, Collapse,
         PhasePhrase;
    NoRedirectIndex(env, m, msg);
    CollapseMeans(env, m, msg);
    RejectionIs(env, MeantAs(env, m, msg));
  }

  lemma NoRedirectIndex(env: Env, m: Machine, msg: Message)
    requires NotRedirected(env, m, msg)
    ensures !m.state.Idle? || RedirectIndex(env, msg) == |env.rules.redirects|
  {
    hide IntentKey;
    var ctx, key := env.ctx, IntentKey(msg.intent);
    assert forall r: Redirect :: RedirectApplies(r, ctx, key) <==> Redirects(r, ctx, key);
  }

  /** A request that is allowed passes, unless it is an incomplete call to Ground under the German profile:
      required elements are always asked for, recommended ones in strict mode.  A first call or taxi
      request on the ground ends the last flight. */
  lemma AllowedPasses(env: Env, m: Machine, msg: Message)
    requires NotRedirected(env, m, msg)
    requires var key := IntentKey(MeantAs(env, m, msg).intent); !PhaseForbids(env, key) && !FrequencyForbids(env, key)
    ensures var meant, v := MeantAs(env, m, msg), LateGuards(env, m, msg);
      var missing := env.missingRequired + if env.settings.strict then env.missingRecommended else [];
      && (v.Answered? <==> meant.intent.InitialCallGround? && env.settings.profile == "DE" && missing != [])
      && (v.Answered? ==> v.resp == Response(env.prompt(SpokenCallsign(env, v.m, meant), missing), m.state, false))
      && v.m.wasAirborne == (m.wasAirborne &&
           !(env.ctx.onGround && (meant.intent.RequestTaxi? || meant.intent.InitialCallGround?
                                  || meant.intent.InitialCallTower? || meant.intent.InitialCall?)))
  {
    hide Say, Evolves, IntentKey, PhaseForbids, FrequencyForbids, Rejection, MeantAs, SpokenCallsign, Collapse, PhasePhrase;
    NoRedirectIndex(env, m, msg);
    CollapseMeans(env, m, msg);
    RejectionIs(env, MeantAs(env, m, msg));
  }

  // ── Strictness and the departure flow ─────────────────────────────

  /** Only a readback, under the German profile, in strict mode, with a clearance on file is examined; any
      other readback that passes the guards is taken as it is and settles what was owed. */
  lemma LenientReadbackSettles(env: Env, m: Machine, msg: Message)
    requires msg.intent.Readback? && (env.settings.profile != "DE" || !env.settings.strict || m.clearanceText == "")
    ensures var n := Respond(env, m, msg).0; !n.readbackPending && n.clearanceText == ""
  {
    hide Answer, AnswerClearance, Corrective, Evolves, Hooks, Diff;
  }

  /** An answer to anything but a readback settles what was owed if it leads to IDLE or en route, else puts the
      clearance it asks to have read back in its place, else leaves it owed. */
  lemma AnswerOwes(env: Env, m: Machine, msg: Message)
    requires !msg.intent.Readback?
    ensures var a, n := Answer(env, m, msg), Respond(env, m, msg).0;
      && n.towerResponse == (if a.text != "" then a.text else m.towerResponse)
      && if a.nextState == Idle || a.nextState == EnRoute then
           !n.readbackPending && n.clearanceText == "" && n.clearance.required == []
         else if a.requiresReadback then
           n.readbackPending && n.clearanceText == a.text && n.clearance == AnswerClearance(env, m, msg)
         else
           n.readbackPending == m.readbackPending && n.clearanceText == m.clearanceText && n.clearance == m.clearance
  {
    hide Answer, AnswerClearance, Corrective, Evolves, Hooks, Diff;
  }

  lemma OtherMessagesAreNotExamined(env: Env, m: Machine, msg: Message)
    requires !msg.intent.Readback?
    ensures Respond(env, m, msg).1.text == Answer(env, m, msg).text
  {
    hide Answer, AnswerClearance, Corrective, Evolves, Hooks, Diff;
  }

  /** Ready for departure means leaving the field exactly if a cross-country flight was declared. */
  lemma DeclaredCrossCountryDeparts(m: Machine, msg: Message)
    ensures var p := Promote(m, msg);
      && (msg.intent.ReadyForDeparture? && m.intentDeclared && m.intentCrossCountry ==> p.intent.ReadyForDepartureVfr?)
      && (!(msg.intent.ReadyForDeparture? && m.intentDeclared && m.intentCrossCountry) ==> p == msg)
  {
  }

  /** A tower-only field moves on from a state by itself, if its table says so, and no other does. */
  lemma TowerOnlyAdvances(env: Env, m: Machine)
    ensures !env.ctx.towerOnly || CurrentName(m) !in env.rules.autoAdvance ==> AdvanceName(env, m) == ""
    ensures env.ctx.towerOnly && CurrentName(m) in env.rules.autoAdvance ==>
      AdvanceName(env, m) == env.rules.autoAdvance[CurrentName(m)]
  {
    hide CurrentName;
  }
}
