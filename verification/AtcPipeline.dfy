/** The message pipeline: guards in their fixed order, the template answer, the strict readback check
    and the post-transition hooks.  Rule tables, settings and the aircraft's situation are parameters. */
module AtcPipeline {
  import opened Text
  import opened Replace
  import opened AtcState
  import FlightPhase
  import Bzf
  import Templates
  import Icao
  import SpokenNumbers

  // ── Messages ──────────────────────────────────────────────────────

  datatype Intent =
    | UnknownIntent | RadioCheck | InitialCall | InitialCallGround | InitialCallTower
    | InitialCallInbound | InitialCallInboundVrp | RequestTaxi | RequestTaxiParking
    | ReadyForDeparture | ReadyForDepartureVfr | ReportPosition | ReportDownwind | ReportBase
    | ReportFinal | RequestLanding | RequestTouchAndGo | GoAround | RunwayVacated | Readback
    | RequestFrequency | LeavingFrequency | Unable | SelfAnnounce | SelfAnnounceDeparture
    | InappropriateLanguage | NegativeCorrection | TrafficInSight | TrafficNegativeContact
    | TrafficLooking | RequestRepeat | RmzEnter | RmzLeave

  function IntentKey(i: Intent): string {
    match i
    case UnknownIntent => "UNKNOWN"
    case RadioCheck => "RADIO_CHECK"
    case InitialCall => "INITIAL_CALL_TOWER"
    case InitialCallGround => "INITIAL_CALL_GROUND"
    case InitialCallTower => "INITIAL_CALL_TOWER"
    case InitialCallInbound => "INITIAL_CALL_INBOUND"
    case InitialCallInboundVrp => "INITIAL_CALL_INBOUND_VRP"
    case RequestTaxi => "REQUEST_TAXI"
    case RequestTaxiParking => "REQUEST_TAXI_PARKING"
    case ReadyForDeparture => "READY_FOR_DEPARTURE"
    case ReadyForDepartureVfr => "READY_FOR_DEPARTURE_VFR"
    case ReportPosition => "REPORT_POSITION"
    case ReportDownwind => "REPORT_POSITION_DOWNWIND"
    case ReportBase => "REPORT_POSITION_BASE"
    case ReportFinal => "REPORT_POSITION_FINAL"
    case RequestLanding => "REQUEST_LANDING"
    case RequestTouchAndGo => "REQUEST_TOUCH_AND_GO"
    case GoAround => "GO_AROUND"
    case RunwayVacated => "RUNWAY_VACATED"
    case Readback => "READBACK"
    case RequestFrequency => "REQUEST_FREQUENCY"
    case LeavingFrequency => "LEAVING_FREQUENCY"
    case Unable => "UNABLE"
    case SelfAnnounce => "SELF_ANNOUNCE"
    case SelfAnnounceDeparture => "SELF_ANNOUNCE_DEPARTURE"
    case InappropriateLanguage => "INAPPROPRIATE_LANGUAGE"
    case NegativeCorrection => "NEGATIVE_CORRECTION"
    case TrafficInSight => "TRAFFIC_IN_SIGHT"
    case TrafficNegativeContact => "TRAFFIC_NEGATIVE_CONTACT"
    case TrafficLooking => "TRAFFIC_LOOKING"
    case RequestRepeat => "REQUEST_REPEAT"
    case RmzEnter => "RMZ_ENTER"
    case RmzLeave => "RMZ_LEAVE"
  }

  datatype Message = Message(intent: Intent, callsign: string, runway: string, destination: string,
                             transcript: string)

  datatype Response = Response(text: string, nextState: State, requiresReadback: bool)

  // ── Rules, settings, situation ────────────────────────────────────

  datatype FreqType = UnknownFreq | Delivery | Ground | Tower | Unicom | Ctaf | Atis | Info | Radio

  datatype Revert = Revert(intents: seq<string>, inState: string, revertTo: string, resetDeparture: bool)
  datatype Redirect = Redirect(intents: seq<string>, freq: FreqType, unlessFlag: string, response: string)
  datatype Hint = NoHint | Hint(groundIntents: seq<string>, groundResponse: string, towerResponse: string)
  datatype FreqCorrection = FreqCorrection(name: string, frequencies: seq<FreqType>, nextState: string, log: string)
  datatype AutoCorrection = AutoCorrection(name: string, phases: seq<FlightPhase.Phase>, nextState: string, delay: real)
  datatype Precondition = Precondition(allowed: seq<FlightPhase.Phase>, parked: string, airborne: string, ground: string)
  datatype FreqRule = FreqRule(allowed: seq<string>, rejection: string)
  datatype Template = Template(response: string, nextState: string, requiresReadback: bool)

  datatype Rules = Rules(
    reverts: seq<Revert>,
    redirects: seq<Redirect>,
    hint: Hint,
    validity: map<FreqType, seq<string>>,
    freqCorrections: map<string, seq<FreqCorrection>>,
    autoCorrections: map<string, seq<AutoCorrection>>,
    preconditions: map<string, Precondition>,
    intentFrequency: map<string, FreqRule>,
    autoAdvance: map<string, string>,
    templates: map<(bool, string), map<string, Template>>)

  datatype Settings = Settings(profile: string, strict: bool, pilotCallsign: string,
                               crossCountry: bool, destination: string, correctionFactor: real)

  datatype Context = Context(onGround: bool, towerOnly: bool, towered: bool, freq: FreqType,
                             activeRunway: string, nearestAirport: string,
                             hasFix: bool, distanceNm: real, phase: FlightPhase.Phase)

  /** The landing-sequence verdict for the user (see LandingSequence). */
  datatype Sequencing = NoSequencing | RunwayOccupied | Follow(number: string, kind: string, leg: string)

  /** `ambient`: template variables that depend only on message and situation.  `positionAt`: the
      position phrase for a runway.  `conformance`: missing required and recommended elements of an
      initial call, `prompt` the re-request for them. */
  datatype Env = Env(rules: Rules, settings: Settings, ctx: Context, ambient: Templates.Vars,
                     positionAt: string -> string,
                     missingRequired: seq<string>, missingRecommended: seq<string>,
                     prompt: (string, seq<string>) -> string,
                     sequencing: Sequencing,
                     stated: (Bzf.Element, string) -> string, phrases: Bzf.Phrases)

  function German(env: Env): bool { env.settings.profile == "DE" }

  // ── Rule lookup ───────────────────────────────────────────────────

  /** Index of the first rule that applies; the length when none does. */
  function FirstMatch<T>(xs: seq<T>, p: T -> bool): (i: nat)
    ensures i <= |xs| && (i < |xs| ==> p(xs[i])) && forall k :: 0 <= k < i ==> !p(xs[k])
  {
    if xs == [] || p(xs[0]) then 0 else 1 + FirstMatch(xs[1..], p)
  }

  method Scan<T>(xs: seq<T>, p: T -> bool) returns (i: nat)
    ensures i == FirstMatch(xs, p)
  {
    i := 0;
    while i < |xs| && !p(xs[i])
      invariant i <= |xs| && forall k :: 0 <= k < i ==> !p(xs[k])
    {
      i := i + 1;
    }
  }

  const FALLBACK := Template("Say again, {callsign}.", "IDLE", false)

  function Lookup(rules: Rules, towered: bool, stateName: string, key: string, towerOnly: bool): Template {
    if (towered, stateName) !in rules.templates then FALLBACK
    else
      var entries := rules.templates[(towered, stateName)];
      var towerKey := key + "_TOWER_ONLY";
      var k := if towerOnly && towerKey in entries then towerKey
               else if key in entries then key else "_INVALID";
      if k in entries then entries[k] else FALLBACK
  }

  /** "" when the phase permits the intent, else the rejection to speak. */
  function PhaseRejection(rules: Rules, key: string, phase: FlightPhase.Phase): string {
    if key !in rules.preconditions then ""
    else
      var pc := rules.preconditions[key];
      if phase in pc.allowed then ""
      else if phase.Parked? && pc.parked != "" then pc.parked
      else if FlightPhase.IsAirborne(phase) && pc.airborne != "" then pc.airborne
      else if pc.ground != "" then pc.ground
      else if pc.parked != "" then pc.parked
      else "{callsign}, unable."
  }

  function FreqName(f: FreqType): string {
    match f
    case Ground => "GROUND"
    case Tower => "TOWER"
    case Unicom => "UNICOM"
    case Ctaf => "CTAF"
    case Info => "INFO"
    case Radio => "RADIO"
    case _ => ""
  }

  function FreqRejection(rules: Rules, key: string, f: FreqType): string {
    if key !in rules.intentFrequency then ""
    else if FreqName(f) != "" && FreqName(f) in rules.intentFrequency[key].allowed then ""
    else rules.intentFrequency[key].rejection
  }

  // ── Template variables ────────────────────────────────────────────

  /** The variable names in std::map order. */
  const VAR_KEYS :=
    ["aircraft_type", "aircraft_type_phrase", "airport", "altimeter", "altitude_info", "atis_letter",
     "callsign", "clock", "direction", "distance", "entry_vrp", "frequency", "ground_frequency",
     "intention", "pattern_direction", "position", "position_remark", "qnh", "runway", "seq_number",
     "seq_position", "seq_type", "side", "station", "taxi_controller", "tower_frequency",
     "tower_handoff_phrase", "type", "vfr_course_phrase", "wind"]

  function SpaceWords(s: string, word: string): seq<string> {
    if s == "" then (if word == "" then [] else [word])
    else if s[0] == ' ' then (if word == "" then [] else [word]) + SpaceWords(s[1..], "")
    else SpaceWords(s[1..], word + [s[0]])
  }

  function Abbreviate(cs: string): string {
    var words := SpaceWords(cs, "");
    if |words| <= 3 then cs else Join(words[|words| - 3..])
  }

  /** The callsign the tower addresses: the locked one, the one just heard, the configured one. */
  function Addressee(env: Env, m: Machine, msg: Message): string {
    if m.sessionCallsign != "" then m.sessionCallsign
    else if msg.callsign != "" then msg.callsign
    else env.settings.pilotCallsign
  }

  function SpokenCallsign(env: Env, m: Machine, msg: Message): string {
    if m.state.Idle? then Addressee(env, m, msg) else Abbreviate(Addressee(env, m, msg))
  }

  function RunwayFor(env: Env, m: Machine, msg: Message): string {
    if msg.runway != "" then msg.runway
    else if m.assignedRunway != "" then m.assignedRunway
    else if env.ctx.activeRunway != "" then env.ctx.activeRunway
    else "28"
  }

  function SpokenDestination(env: Env, dest: string): string {
    if dest == "" then ""
    else if env.settings.profile == "EN" then
      Join(Icao.CallsignWords(Icao.ENGLISH_NATO, SpokenNumbers.English, dest))
    else Join(Icao.CallsignWords(Icao.GERMAN_NATO, SpokenNumbers.German, dest))
  }

  /** Declared intent: this message, else what the pilot declared this flight, else the settings. */
  function FlightIntent(env: Env, m: Machine, msg: Message): (bool, string) {
    if msg.destination != "" then (true, msg.destination)
    else if m.intentDeclared then (m.intentCrossCountry, m.intentDestination)
    else (env.settings.crossCountry, env.settings.destination)
  }

  function Intention(env: Env, m: Machine, msg: Message): string {
    var (xc, dest) := FlightIntent(env, m, msg);
    var to := SpokenDestination(env, dest);
    if German(env) then
      if !xc then "VFR Platzrunde" else if to == "" then "VFR Ueberlandflug" else "VFR nach " + to
    else
      if !xc then "VFR pattern" else if to == "" then "VFR cross country" else "VFR to " + to
  }

  function CoursePhrase(env: Env, m: Machine, msg: Message): string {
    var (xc, dest) := FlightIntent(env, m, msg);
    var to := SpokenDestination(env, dest);
    if !xc || to == "" then "" else (if German(env) then ", Kurs nach " else ", course to ") + to
  }

  function BuildVars(env: Env, m: Machine, msg: Message): Templates.Vars {
    env.ambient["callsign" := SpokenCallsign(env, m, msg)]["runway" := RunwayFor(env, m, msg)]
      ["position" := env.positionAt(RunwayFor(env, m, msg))]
      ["intention" := Intention(env, m, msg)]["vfr_course_phrase" := CoursePhrase(env, m, msg)]
  }

  function Fill(text: string, vars: Templates.Vars): string { Templates.Fill(text, vars, VAR_KEYS) }

  function Say(env: Env, m: Machine, msg: Message, text: string): string { Fill(text, BuildVars(env, m, msg)) }

  // ── Airport change ────────────────────────────────────────────────

  datatype Desk = Desk(m: Machine, lastAirport: string)

  /** En route over a new airport: the old tower is gone. */
  predicate Dropped(t: Desk, nearest: string) {
    t.m.state.EnRoute? && nearest != "" && t.lastAirport != "" && nearest != t.lastAirport
  }

  const AIRPORT_CHANGE := "airport_change_en_route"

  function LeaveAirport(m: Machine): (n: Machine)
    ensures KeepsClearance(m, n) && n.state.Idle? && !n.readbackPending && n.gen > m.gen
    ensures n.assignedRunway == "" && n.departureType.Pattern? && n.sessionCallsign == m.sessionCallsign
    ensures n.log == if m.state.Idle? then m.log else m.log + [HistoryEntry(m.state, AIRPORT_CHANGE, m.lastNow)]
  {
    var a := TransitionTo(m, Idle, AIRPORT_CHANGE);
    var n := a.(gen := a.gen + 3, readbackPending := false, assignedRunway := "", departureType := Pattern);
    assert Evolves(a, n);
    EvolvesChain(m, a, n);
    n
  }

  function CheckAirportChange(t: Desk, nearest: string, now: real): Desk {
    var m := t.m.(lastNow := now);
    if nearest == "" then Desk(m, t.lastAirport)
    else Desk(if Dropped(t, nearest) then LeaveAirport(m) else m, nearest)
  }

  lemma ArrivalSetsClock(t: Desk, nearest: string, now: real)
    ensures CheckAirportChange(t.(m := t.m.(lastNow := now)), nearest, now) == CheckAirportChange(t, nearest, now)
  {
    hide LeaveAirport;
  }

  // ── Guards ────────────────────────────────────────────────────────

  /** A guard either answers the message, or passes it on, possibly rewritten. */
  datatype Verdict = Answered(m: Machine, resp: Response) | Passed(m: Machine, msg: Message)

  function Promote(m: Machine, msg: Message): Message {
    if msg.intent.ReadyForDeparture? && m.intentDeclared && m.intentCrossCountry
    then msg.(intent := ReadyForDepartureVfr) else msg
  }

  function RevertTarget(s: State): State {
    match s
    case DepartureCleared => TowerContact
    case TaxiCleared => GroundContact
    case LandingCleared => PatternEntry
    case TouchAndGoCleared => PatternEntry
    case PatternEntry => TowerContact
    case GroundContact => Idle
    case TowerContact => Idle
    case _ => s
  }

  const CORRECTION_NOTED := "{callsign}, roger, correction noted, say intentions."
  const SAY_INTENTIONS := "{callsign}, roger, say intentions."

  function CorrectionText(s: State): string { if RevertTarget(s) == s then SAY_INTENTIONS else CORRECTION_NOTED }

  function Correct(env: Env, m: Machine, msg: Message): (r: (Machine, Response))
    ensures KeepsClearance(m, r.0) && r.0.readbackPending == m.readbackPending
    ensures r.0.(gen := m.gen, state := m.state, history := m.history, log := m.log, departureType := m.departureType) == m
    ensures r.1 == Response(Say(env, m, msg, CorrectionText(m.state)), RevertTarget(m.state), false)
    ensures r.0.state == RevertTarget(m.state) && (RevertTarget(m.state) == m.state ==> r.0 == m)
    ensures RevertTarget(m.state) != m.state ==>
      r.0.log == m.log + [HistoryEntry(m.state, "negative_correction", m.lastNow)]
      && r.0.departureType == if m.state.DepartureCleared? then Pattern else m.departureType
  {
    hide Say, CorrectionText;
    var target := RevertTarget(m.state);
    if target == m.state then
      (m, Response(Say(env, m, msg, CorrectionText(m.state)), m.state, false))
    else
      var a := TransitionTo(m, target, "negative_correction");
      var n := if m.state.DepartureCleared? then SetDepartureType(a, Pattern) else a;
      EvolvesChain(m, a, n);
      (n, Response(Say(env, m, msg, CorrectionText(m.state)), n.state, false))
  }

  const NOTHING_TO_REPEAT := ", keine vorherige Anweisung zum Wiederholen."

  function Repeat(env: Env, m: Machine, msg: Message): Response {
    Response(if m.towerResponse != "" then m.towerResponse else Addressee(env, m, msg) + NOTHING_TO_REPEAT,
             m.state, m.readbackPending)
  }

  predicate RevertApplies(r: Revert, name: string, key: string) { r.inState == name && key in r.intents }

  function RevertIndex(env: Env, m: Machine, msg: Message): (i: nat)
    ensures i <= |env.rules.reverts|
  {
    FirstMatch(env.rules.reverts, r => RevertApplies(r, CurrentName(m), IntentKey(msg.intent)))
  }

  function ApplyStateReverts(env: Env, m: Machine, msg: Message): (n: Machine)
    ensures KeepsClearance(m, n)
  {
    var i := RevertIndex(env, m, msg);
    if i == |env.rules.reverts| then m
    else
      var r := env.rules.reverts[i];
      var a := TransitionTo(m, StateFromName(r.revertTo), "state_revert");
      var n := if r.resetDeparture then SetDepartureType(a, Pattern) else a;
      EvolvesChain(m, a, n);
      n
  }

  predicate OnUnicom(ctx: Context) { ctx.freq.Unicom? || ctx.freq.Ctaf? || ctx.freq.Radio? || !ctx.towered }

  predicate OnInfo(ctx: Context) { ctx.freq.Info? }

  function InfoTemplate(env: Env, msg: Message): Template {
    Lookup(env.rules, false, "INFO", IntentKey(msg.intent), false)
  }

  function UnicomTemplate(env: Env, msg: Message): Template {
    Lookup(env.rules, false, if env.ctx.freq.Radio? then "RADIO" else "IDLE", IntentKey(msg.intent), false)
  }

  function AdvisoryFlow(env: Env, m: Machine, msg: Message): (r: (Machine, Response))
    requires OnInfo(env.ctx) || OnUnicom(env.ctx)
    ensures KeepsClearance(m, r.0)
  {
    if OnInfo(env.ctx) then
      var tmpl := InfoTemplate(env, msg);
      var next := StateFromName(tmpl.nextState);
      (TransitionTo(m, next, "info_flow"), Response(Say(env, m, msg, tmpl.response), next, false))
    else
      (TransitionTo(m, Idle, "unicom_flow_idle"),
       Response(Say(env, m, msg, UnicomTemplate(env, msg).response), Idle, false))
  }

  /** The wrong-frequency hint; "" when it does not apply. */
  function HintTemplate(env: Env, msg: Message): string {
    if !env.ctx.freq.UnknownFreq? || !env.ctx.towered || msg.intent.Readback? || env.rules.hint.NoHint? then ""
    else if IntentKey(msg.intent) in env.rules.hint.groundIntents && !env.ctx.towerOnly
    then env.rules.hint.groundResponse else env.rules.hint.towerResponse
  }

  predicate TowerOnlyOnTower(ctx: Context) { ctx.towerOnly && ctx.freq.Tower? }

  predicate FrequencyInvalid(env: Env, m: Machine) {
    && !env.ctx.freq.UnknownFreq? && !TowerOnlyOnTower(env.ctx) && !m.state.EnRoute?
    && env.ctx.freq in env.rules.validity && CurrentName(m) !in env.rules.validity[env.ctx.freq]
  }

  function ApplyFrequencyValidity(env: Env, m: Machine): (n: Machine)
    ensures KeepsClearance(m, n)
  {
    if FrequencyInvalid(env, m) then TransitionTo(m, Idle, "freq_validity_reset") else m
  }

  function FreqCorrections(env: Env, m: Machine): seq<FreqCorrection> {
    if TowerOnlyOnTower(env.ctx) || CurrentName(m) !in env.rules.freqCorrections then []
    else env.rules.freqCorrections[CurrentName(m)]
  }

  function FreqCorrectionIndex(env: Env, m: Machine): (i: nat)
    ensures i <= |FreqCorrections(env, m)|
  {
    FirstMatch(FreqCorrections(env, m), (c: FreqCorrection) => env.ctx.freq in c.frequencies)
  }

  function FreqReason(c: FreqCorrection): string {
    "freq_auto_correction:" + if c.log == "" then c.name else c.log
  }

  function ApplyFrequencyCorrections(env: Env, m: Machine): (n: Machine)
    ensures KeepsClearance(m, n)
  {
    var rules := FreqCorrections(env, m);
    var i := FreqCorrectionIndex(env, m);
    if i == |rules| then m else TransitionTo(m, StateFromName(rules[i].nextState), FreqReason(rules[i]))
  }

  predicate RedirectApplies(r: Redirect, ctx: Context, key: string) {
    r.freq == ctx.freq && !(r.unlessFlag == "tower_only" && ctx.towerOnly) && key in r.intents
  }

  function RedirectIndex(env: Env, msg: Message): (i: nat)
    ensures i <= |env.rules.redirects|
  {
    FirstMatch(env.rules.redirects, r => RedirectApplies(r, env.ctx, IntentKey(msg.intent)))
  }

  function Collapse(env: Env, m: Machine, msg: Message): Message {
    if German(env) && env.ctx.towerOnly && env.ctx.onGround && m.state.Idle? && !m.wasAirborne
       && msg.intent.InitialCallTower?
    then msg.(intent := InitialCallGround) else msg
  }

  /** The phase rejection, else the frequency rejection, else "". */
  function Rejection(env: Env, msg: Message): string {
    var key := IntentKey(msg.intent);
    var byPhase := PhaseRejection(env.rules, key, env.ctx.phase);
    if byPhase != "" || TowerOnlyOnTower(env.ctx) then byPhase else FreqRejection(env.rules, key, env.ctx.freq)
  }

  predicate StartsDeparture(env: Env, msg: Message) {
    env.ctx.onGround && (msg.intent.RequestTaxi? || msg.intent.InitialCallGround?
                         || msg.intent.InitialCallTower? || msg.intent.InitialCall?)
  }

  function Enforced(env: Env): seq<string> {
    env.missingRequired + if env.settings.strict then env.missingRecommended else []
  }

  predicate Incomplete(env: Env, msg: Message) {
    msg.intent.InitialCallGround? && German(env) && Enforced(env) != []
  }

  /** Guards from the idle redirect on. */
  function LateGuards(env: Env, m: Machine, msg0: Message): (v: Verdict)
    ensures KeepsClearance(m, v.m)
  {
    var i := RedirectIndex(env, msg0);
    if m.state.Idle? && i < |env.rules.redirects| then
      Answered(m, Response(Say(env, m, msg0, env.rules.redirects[i].response), Idle, false))
    else
      var msg := Collapse(env, m, msg0);
      var rejection := Rejection(env, msg);
      if rejection != "" then Answered(m, Response(Say(env, m, msg, rejection), m.state, false))
      else
        var n := if StartsDeparture(env, msg) then SetWasAirborne(m, false) else m;
        if Incomplete(env, msg) then
          Answered(n, Response(env.prompt(SpokenCallsign(env, n, msg), Enforced(env)), n.state, false))
        else Passed(n, msg)
  }

  /** Guards from the state reverts on. */
  function MidGuards(env: Env, m: Machine, msg: Message): (v: Verdict)
    ensures KeepsClearance(m, v.m)
  {
    var a := ApplyStateReverts(env, m, msg);
    if OnInfo(env.ctx) || OnUnicom(env.ctx) then
      var (n, resp) := AdvisoryFlow(env, a, msg);
      EvolvesChain(m, a, n);
      Answered(n, resp)
    else if HintTemplate(env, msg) != "" then
      Answered(a, Response(Say(env, a, msg, HintTemplate(env, msg)), a.state, false))
    else
      var b := ApplyFrequencyValidity(env, a);
      var c := ApplyFrequencyCorrections(env, b);
      var v := LateGuards(env, c, msg);
      EvolvesChain(m, a, b);
      EvolvesChain(m, b, c);
      EvolvesChain(m, c, v.m);
      v
  }

  function Guards(env: Env, m: Machine, msg: Message): (v: Verdict)
    ensures KeepsClearance(m, v.m)
  {
    if msg.intent.NegativeCorrection? then
      var (n, resp) := Correct(env, m, msg);
      Answered(n, resp)
    else if msg.intent.RequestRepeat? then Answered(m, Repeat(env, m, msg))
    else MidGuards(env, m, msg)
  }

  // ── The clearance ─────────────────────────────────────────────────

  function Candidates(i: Intent): (es: seq<Bzf.Element>)
    ensures es != [] && es[0] == Bzf.Callsign
  {
    match i
    case RequestTaxi => [Bzf.Callsign, Bzf.Runway, Bzf.Qnh]
    case InitialCallInbound => [Bzf.Callsign, Bzf.Runway, Bzf.Qnh]
    case ReadyForDeparture => [Bzf.Callsign, Bzf.Runway]
    case ReadyForDepartureVfr => [Bzf.Callsign, Bzf.Runway]
    case RequestLanding => [Bzf.Callsign, Bzf.Runway]
    case RequestTouchAndGo => [Bzf.Callsign, Bzf.Runway]
    case RequestFrequency => [Bzf.Callsign, Bzf.Frequency]
    case _ => [Bzf.Callsign]
  }

  function Var(vars: Templates.Vars, k: string): string { if k in vars then vars[k] else "" }

  function IssuedFrequency(vars: Templates.Vars, tmpl: string): string {
    if Contains(tmpl, "{frequency}") then Var(vars, "frequency")
    else if Contains(tmpl, "{tower_frequency}") then Var(vars, "tower_frequency")
    else if Contains(tmpl, "{ground_frequency}") then Var(vars, "ground_frequency")
    else ""
  }

  /** Was the element spoken in this transmission, with a value? */
  predicate Issued(vars: Templates.Vars, tmpl: string, e: Bzf.Element) {
    match e
    case Callsign => true
    case Runway => Contains(tmpl, "{runway}") && Var(vars, "runway") != ""
    case Qnh => Contains(tmpl, "{qnh}") && Var(vars, "qnh") != ""
    case Frequency => IssuedFrequency(vars, tmpl) != ""
    case Squawk => Contains(tmpl, "{squawk}") && Var(vars, "squawk") != ""
  }

  function Obligations(vars: Templates.Vars, tmpl: string, es: seq<Bzf.Element>): seq<Bzf.Element> {
    if es == [] then []
    else (if Issued(vars, tmpl, es[0]) then [es[0]] else []) + Obligations(vars, tmpl, es[1..])
  }

  /** Exactly the candidates that were issued. */
  lemma {:induction false} ObligationsAreIssued(vars: Templates.Vars, tmpl: string, es: seq<Bzf.Element>, e: Bzf.Element)
    ensures e in Obligations(vars, tmpl, es) <==> e in es && Issued(vars, tmpl, e)
  {
    hide Issued;
    if es != [] { ObligationsAreIssued(vars, tmpl, es[1..], e); }
  }

  function BuildClearance(msg: Message, vars: Templates.Vars, tmpl: string): (c: Bzf.Clearance)
    ensures Bzf.Callsign in c.required
  {
    ObligationsAreIssued(vars, tmpl, Candidates(msg.intent), Bzf.Callsign);
    Bzf.Clearance(Var(vars, "callsign"), Var(vars, "runway"), Var(vars, "qnh"), IssuedFrequency(vars, tmpl),
                  Var(vars, "squawk"), Obligations(vars, tmpl, Candidates(msg.intent)))
  }

  method BuildClearanceComponents(msg: Message, vars: Templates.Vars, tmpl: string) returns (c: Bzf.Clearance)
    ensures c == BuildClearance(msg, vars, tmpl)
  {
    hide Contains, Var, Issued, Candidates, Obligations;
    var frequency := "";
    if Contains(tmpl, "{frequency}") {
      frequency := Var(vars, "frequency");
    } else if Contains(tmpl, "{tower_frequency}") {
      frequency := Var(vars, "tower_frequency");
    } else if Contains(tmpl, "{ground_frequency}") {
      frequency := Var(vars, "ground_frequency");
    }
    var required := IssuedElements(vars, tmpl, Candidates(msg.intent));
    c := Bzf.Clearance(Var(vars, "callsign"), Var(vars, "runway"), Var(vars, "qnh"), frequency,
                       Var(vars, "squawk"), required);
  }

  /** The candidates that this transmission issued, in table order. */
  method IssuedElements(vars: Templates.Vars, tmpl: string, es: seq<Bzf.Element>) returns (required: seq<Bzf.Element>)
    ensures required == Obligations(vars, tmpl, es)
  {
    hide Issued, Obligations;
    required := [];
    var i := 0;
    assert es[0..] == es && required + Obligations(vars, tmpl, es) == Obligations(vars, tmpl, es);
    while i < |es|
      invariant 0 <= i <= |es|
      invariant required + Obligations(vars, tmpl, es[i..]) == Obligations(vars, tmpl, es)
    {
      ObligationStep(vars, tmpl, es, i, required);
      if Issued(vars, tmpl, es[i]) { required := required + [es[i]]; }
      i := i + 1;
    }
    NoObligations(vars, tmpl);
    assert es[i..] == [];
  }

  lemma ObligationStep(vars: Templates.Vars, tmpl: string, es: seq<Bzf.Element>, i: nat, done: seq<Bzf.Element>)
    requires i < |es|
    ensures done + Obligations(vars, tmpl, es[i..])
      == (if Issued(vars, tmpl, es[i]) then done + [es[i]] else done) + Obligations(vars, tmpl, es[i + 1..])
  {
    hide Issued;
    assert es[i..][1..] == es[i + 1..];
  }

  lemma NoObligations(vars: Templates.Vars, tmpl: string)
    ensures Obligations(vars, tmpl, []) == []
  {
  }

  // ── The answer ────────────────────────────────────────────────────

  /** Landing-sequence overlay on a landing clearance. */
  function Overlay(env: Env, vars: Templates.Vars, resp: Response): Response {
    if !resp.nextState.LandingCleared? || env.sequencing.NoSequencing? then resp
    else
      var (key, vs) :=
        match env.sequencing
        case Follow(n, kind, leg) =>
          ("number_to_land_follow", vars["seq_number" := n]["seq_type" := kind]["seq_position" := leg])
        case _ => ("continue_approach_traffic_runway", vars);
      var tmpl := Lookup(env.rules, true, "Pattern/LANDING_CLEARED", key, false);
      if tmpl.response == "" then resp else resp.(text := Fill(tmpl.response, vs))
  }

  function AnswerTemplate(env: Env, m: Machine, msg: Message): Template {
    Lookup(env.rules, true, CurrentName(m), IntentKey(msg.intent), env.ctx.towerOnly)
  }

  function Answer(env: Env, m: Machine, msg: Message): Response {
    var tmpl := AnswerTemplate(env, m, msg);
    var vars := BuildVars(env, m, msg);
    Overlay(env, vars, Response(Fill(tmpl.response, vars), StateFromName(tmpl.nextState), tmpl.requiresReadback))
  }

  function AnswerClearance(env: Env, m: Machine, msg: Message): (c: Bzf.Clearance)
    ensures Bzf.Callsign in c.required
  {
    BuildClearance(msg, BuildVars(env, m, msg), AnswerTemplate(env, m, msg).response)
  }

  // ── Strict readback ───────────────────────────────────────────────

  function Diff(env: Env, m: Machine, msg: Message): seq<Bzf.FieldDiff> {
    Bzf.DiffReadback(env.stated, m.clearance, msg.transcript)
  }

  /** A readback is owed in earnest: strict mode, German profile, a clearance on file. */
  predicate Examined(env: Env, m: Machine, msg: Message) {
    German(env) && env.settings.strict && msg.intent.Readback? && m.clearanceText != ""
  }

  predicate StrictRejects(env: Env, m: Machine, msg: Message) {
    Examined(env, m, msg) && !Bzf.Conformant(Diff(env, m, msg))
  }

  function Corrective(env: Env, m: Machine, msg: Message): Response {
    Response(Bzf.BuildCorrection(env.phrases, Addressee(env, m, msg), Diff(env, m, msg)), m.state, true)
  }

  // ── Post-transition hooks ─────────────────────────────────────────

  function B(b: bool): nat { if b then 1 else 0 }

  predicate Leaves(s: State) { s.EnRoute? || s.Idle? }

  /** What is owed after the answer. */
  function Tracked(m: Machine, msg: Message, resp: Response, comp: Bzf.Clearance): (n: Machine)
    requires Bzf.Callsign in comp.required
    ensures Evolves(m, n) && n.state == m.state && n.towerResponse == m.towerResponse
  {
    var settle := msg.intent.Readback? || Leaves(resp.nextState);
    m.(gen := m.gen + B(msg.intent.Readback? || resp.requiresReadback) + B(Leaves(resp.nextState)),
       readbackPending := if settle then false else resp.requiresReadback || m.readbackPending,
       clearanceText := if settle then "" else if resp.requiresReadback then resp.text else m.clearanceText,
       clearance := if settle then Bzf.NO_CLEARANCE else if resp.requiresReadback then comp else m.clearance)
  }

  function LockRunway(env: Env, m: Machine, msg: Message, next: State): (n: Machine)
    ensures KeepsClearance(m, n) && n.state == m.state && n.readbackPending == m.readbackPending
    ensures !next.Idle? ==> n.assignedRunway != ""
  {
    if next.Idle? || m.assignedRunway != "" then m else Bump(m).(assignedRunway := RunwayFor(env, m, msg))
  }

  function LockCallsign(m: Machine, msg: Message, next: State): (n: Machine)
    ensures KeepsClearance(m, n) && n.state == m.state && n.readbackPending == m.readbackPending
    ensures n.assignedRunway == m.assignedRunway
    ensures n.sessionCallsign == if m.sessionCallsign == "" && !next.Idle? then msg.callsign else m.sessionCallsign
    ensures (n == m <==> n.gen == m.gen) && n.(gen := m.gen, sessionCallsign := m.sessionCallsign) == m
  {
    if next.Idle? || m.sessionCallsign != "" || msg.callsign == "" then m
    else Bump(m).(sessionCallsign := msg.callsign)
  }

  /** The departure flow is decided on entering DEPARTURE_CLEARED and forgotten on leaving it. */
  function DepartureAfter(m: Machine, msg: Message, next: State): DepartureType {
    if next.DepartureCleared? == m.state.DepartureCleared? then m.departureType
    else if next.DepartureCleared? && msg.intent.ReadyForDepartureVfr? then CrossCountry
    else Pattern
  }

  function MoveOn(m: Machine, msg: Message, next: State): (n: Machine)
    ensures KeepsClearance(m, n) && n.state == next && n.readbackPending == m.readbackPending
    ensures n.assignedRunway == m.assignedRunway && n.sessionCallsign == m.sessionCallsign
    ensures n.log == if next == m.state then m.log
                     else m.log + [HistoryEntry(m.state, "process:" + IntentKey(msg.intent), m.lastNow)]
    ensures next.DepartureCleared? == m.state.DepartureCleared? ==> n.departureType == m.departureType
    ensures next.DepartureCleared? && !m.state.DepartureCleared? ==>
      (n.departureType.CrossCountry? <==> msg.intent.ReadyForDepartureVfr?)
    ensures !next.DepartureCleared? && m.state.DepartureCleared? ==> n.departureType.Pattern?
  {
    var a := TransitionTo(m, next, "process:" + IntentKey(msg.intent));
    var n := a.(gen := a.gen + B(next.DepartureCleared? != m.state.DepartureCleared?),
                departureType := DepartureAfter(m, msg, next));
    assert Evolves(a, n) by { assert n.log == a.log && n.state == a.state; }
    assert n.log == a.log;
    EvolvesChain(m, a, n);
    n
  }

  /** The books after the answer, with the state moved. */
  function CloseBooks(env: Env, m: Machine, msg: Message, resp: Response, comp: Bzf.Clearance): (n: Machine)
    requires Bzf.Callsign in comp.required
    ensures Evolves(m, n) && SameClearance(Tracked(m, msg, resp, comp), n)
    ensures n.readbackPending == Tracked(m, msg, resp, comp).readbackPending
    ensures resp.text != "" ==> n.state == resp.nextState
    ensures n.assignedRunway == "" <==> resp.nextState.Idle?
  {
    var next := resp.nextState;
    var a := Tracked(m, msg, resp, comp);
    var b := LockRunway(env, a, msg, next);
    var c := LockCallsign(b, msg, next);
    var d := if resp.text == "" then c else MoveOn(c, msg, next);
    var n := if next.Idle? then ReleaseLocks(d) else d;
    EvolvesChain(m, a, b);
    EvolvesChain(a, b, c);
    EvolvesChain(a, c, d);
    EvolvesChain(a, d, n);
    EvolvesChain(m, a, n);
    n
  }

  /** Where a tower-only field moves on to by itself, if anywhere. */
  function AdvanceName(env: Env, m: Machine): string {
    if env.ctx.towerOnly && CurrentName(m) in env.rules.autoAdvance then env.rules.autoAdvance[CurrentName(m)] else ""
  }

  function NoteResponse(m: Machine, text: string): (n: Machine)
    ensures Evolves(m, n) && n.state == m.state && n.readbackPending == m.readbackPending
    ensures n.clearanceText == m.clearanceText && n.clearance == m.clearance
    ensures n.assignedRunway == m.assignedRunway
    ensures n.towerResponse == if text == "" then m.towerResponse else text
  {
    if text == "" then m else Bump(m).(towerResponse := text)
  }

  /** After the hooks: what is owed is exactly what the answer demanded, a readback or leaving the
      frequency settles everything, the runway is locked until IDLE, and the answer is the one that a
      repeat request will replay. */
  function Hooks(env: Env, m: Machine, msg: Message, resp: Response, comp: Bzf.Clearance): (r: (Machine, Response))
    requires Bzf.Callsign in comp.required
    ensures Evolves(m, r.0) && r.1.text == resp.text && r.1.requiresReadback == resp.requiresReadback
    ensures msg.intent.Readback? || Leaves(resp.nextState) ==>
      !r.0.readbackPending && r.0.clearanceText == "" && r.0.clearance == Bzf.NO_CLEARANCE
    ensures !msg.intent.Readback? && !Leaves(resp.nextState) && resp.requiresReadback ==>
      r.0.readbackPending && r.0.clearanceText == resp.text && r.0.clearance == comp
    ensures !msg.intent.Readback? && !Leaves(resp.nextState) && !resp.requiresReadback ==>
      r.0.readbackPending == m.readbackPending && r.0.clearanceText == m.clearanceText && r.0.clearance == m.clearance
    ensures r.0.towerResponse == if resp.text != "" then resp.text else m.towerResponse
    ensures resp.text != "" ==> r.1.nextState == r.0.state
    ensures r.0.assignedRunway == "" <==> resp.nextState.Idle?
  {
    var a := CloseBooks(env, m, msg, resp, comp);
    var name := AdvanceName(env, a);
    var target := if name == "" then a.state else StateFromName(name);
    var b := TransitionTo(a, target, "tower_only_auto_advance");
    var n := NoteResponse(b, resp.text);
    EvolvesChain(m, a, b);
    EvolvesChain(m, b, n);
    (n, if name == "" then resp else resp.(nextState := target))
  }

  // ── The pipeline ──────────────────────────────────────────────────

  /** The strict check on a rejected readback: still owed, nothing else. */
  function StillOwed(m: Machine): (n: Machine)
    requires m.clearanceText != ""
    ensures KeepsClearance(m, n) && n.readbackPending
    ensures n == m.(readbackPending := true, gen := m.gen + 1)
  {
    SetReadbackPending(m, true)
  }

  function Respond(env: Env, m: Machine, msg: Message): (r: (Machine, Response))
    ensures Evolves(m, r.0)
  {
    if StrictRejects(env, m, msg) then (StillOwed(m), Corrective(env, m, msg))
    else Hooks(env, m, msg, Answer(env, m, msg), AnswerClearance(env, m, msg))
  }

  function Dialogue(env: Env, m: Machine, msg: Message): (r: (Machine, Response))
    ensures Evolves(m, r.0)
  {
    match Guards(env, m, msg)
    case Answered(n, resp) => (n, resp)
    case Passed(n, msg') =>
      var r := Respond(env, n, msg');
      EvolvesChain(m, n, r.0);
      r
  }

  /** The state and message the dialogue starts from. */
  function Arrival(env: Env, t: Desk, now: real): Desk { CheckAirportChange(t, env.ctx.nearestAirport, now) }

  function Process(env: Env, t: Desk, msg: Message, now: real): (Desk, Response) {
    var a := Arrival(env, t, now);
    var (m, resp) := Dialogue(env, a.m, Promote(t.m, msg));
    (Desk(m, a.lastAirport), resp)
  }

  // ── Frames ────────────────────────────────────────────────────────

  function CorrectionRules(rules: Rules, m: Machine): seq<AutoCorrection> {
    if m.state.Idle? || m.state.UnicomActive? || CurrentName(m) !in rules.autoCorrections then []
    else rules.autoCorrections[CurrentName(m)]
  }

  function CorrectionIndex(rules: Rules, m: Machine, phase: FlightPhase.Phase): (i: nat)
    ensures i <= |CorrectionRules(rules, m)|
  {
    FirstMatch(CorrectionRules(rules, m), (c: AutoCorrection) => phase in c.phases)
  }

  function CorrectionKey(m: Machine, c: AutoCorrection): string { CurrentName(m) + ":" + c.name }

  /** The correction itself: the pending flag goes, the clearance on file stays. */
  function ApplyCorrection(m: Machine, c: AutoCorrection): (n: Machine)
    ensures KeepsClearance(m, n) && n.gen > m.gen
    ensures n.state == StateFromName(c.nextState) && !n.readbackPending
  {
    var next := StateFromName(c.nextState);
    var a := TransitionTo(m, next, "auto_correction:" + c.name);
    var n := a.(gen := a.gen + 1, readbackPending := false,
                assignedRunway := if next.Idle? then "" else a.assignedRunway,
                sessionCallsign := if next.Idle? then "" else a.sessionCallsign);
    EvolvesChain(m, a, n);
    n
  }

  function Delay(c: AutoCorrection, factor: real): real { c.delay * factor }

  /** Time on the rule's timer, this frame included. */
  function TimeOn(m: Machine, c: AutoCorrection, dt: real): real {
    (if CorrectionKey(m, c) == m.correctionKey then m.correctionTimer else 0.0) + dt
  }

  /** The timer of one rule advances, and fires the rule when the delay is over. */
  function TickCorrection(m: Machine, c: AutoCorrection, factor: real, dt: real): (n: Machine)
    ensures TimeOn(m, c, dt) >= Delay(c, factor) ==>
      n.gen > m.gen && n.state == StateFromName(c.nextState) && !n.readbackPending && SameClearance(m, n)
      && n.correctionKey == "" && n.correctionTimer == 0.0
    ensures TimeOn(m, c, dt) < Delay(c, factor) ==>
      Semantic(n) == Semantic(m) && n.gen == m.gen
      && n.correctionKey == CorrectionKey(m, c) && n.correctionTimer == TimeOn(m, c, dt)
  {
    var key := CorrectionKey(m, c);
    var ticked := m.(correctionKey := key, correctionTimer := TimeOn(m, c, dt));
    if ticked.correctionTimer >= Delay(c, factor) then
      ApplyCorrection(ticked, c).(correctionKey := "", correctionTimer := 0.0)
    else ticked
  }

  predicate Uncorrected(rules: Rules, m: Machine) {
    m.state.Idle? || m.state.UnicomActive? || CurrentName(m) !in rules.autoCorrections
  }

  /** One frame.  With no rule table for the state the timer is left as it is; with a table but no
      matching rule it is cleared. */
  function CheckAutoCorrection(rules: Rules, factor: real, m0: Machine, phase: FlightPhase.Phase, dt: real,
                               now: real): Machine
  {
    var m := m0.(lastNow := now);
    var cs := CorrectionRules(rules, m);
    var i := CorrectionIndex(rules, m, phase);
    if Uncorrected(rules, m) then m
    else if i == |cs| then m.(correctionKey := "", correctionTimer := 0.0)
    else TickCorrection(m, cs[i], factor, dt)
  }

  /** Frames in IDLE, UNICOM_ACTIVE or a state without rules leave the timer running as it was. */
  lemma EarlyReturnKeepsTimer(rules: Rules, factor: real, m: Machine, phase: FlightPhase.Phase, dt: real, now: real)
    requires Uncorrected(rules, m)
    ensures var n := CheckAutoCorrection(rules, factor, m, phase, dt, now);
      n == m.(lastNow := now)
  {
    hide TickCorrection, CorrectionRules, CorrectionIndex;
    assert CurrentName(m.(lastNow := now)) == CurrentName(m);
  }

  /** So does a pilot message. */
  lemma MessageKeepsTimer(env: Env, t: Desk, msg: Message, now: real)
    ensures var n := Process(env, t, msg, now).0.m;
      n.correctionKey == t.m.correctionKey && n.correctionTimer == t.m.correctionTimer
  {
    hide Dialogue, WellShaped, Ordered, ClearanceSound, Advances, LeaveAirport;
    var a := Arrival(env, t, now);
    assert Evolves(a.m, Dialogue(env, a.m, Promote(t.m, msg)).0);
  }

  lemma KeyIsNotEmpty(m: Machine, c: AutoCorrection)
    ensures CorrectionKey(m, c) != ""
  {
  }

  const DISREGARD_RADIUS_NM := 5.0

  function Disregard(ctx: Context, m0: Machine, now: real): (n: Machine)
    ensures n.gen > m0.gen
    ensures !n.readbackPending && n.clearanceText == "" && n.clearance == Bzf.NO_CLEARANCE && n.towerResponse == ""
    ensures n.state == if !FlightPhase.IsAirborne(ctx.phase) then Idle
                       else if ctx.hasFix && ctx.distanceNm > DISREGARD_RADIUS_NM then EnRoute else PatternEntry
    ensures if FlightPhase.IsAirborne(ctx.phase) then n.assignedRunway == m0.assignedRunway
            else n.assignedRunway == "" && n.sessionCallsign == ""
  {
    var m := m0.(gen := m0.gen + 1, lastNow := now, readbackPending := false, clearanceText := "",
                 clearance := Bzf.NO_CLEARANCE, towerResponse := "");
    if !FlightPhase.IsAirborne(ctx.phase) then
      TransitionTo(m, Idle, "disregard_on_ground").(assignedRunway := "", sessionCallsign := "", departureType := Pattern)
    else if !ctx.hasFix || ctx.distanceNm <= DISREGARD_RADIUS_NM then
      TransitionTo(m, PatternEntry, "disregard_airborne_near_airport")
    else
      TransitionTo(m, EnRoute, "disregard_airborne_transit")
  }
}
