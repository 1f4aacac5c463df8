/** What a new flight forgets, which names a state goes by, and how far the history reaches. */
module AtcLifecycle {
  import opened AtcState
  import opened AtcPipeline
  import opened AtcGuard
  import Bzf

  // ── A new flight ──────────────────────────────────────────────────

  /** Nothing is owed, locked, declared or remembered. */
  predicate Blank(m: Machine) {
    && !m.readbackPending && m.clearanceText == "" && m.clearance == Bzf.Clearance("", "", "", "", "", [])
    && m.assignedRunway == "" && m.sessionCallsign == "" && !m.wasAirborne && m.departureType.Pattern?
    && !m.intentDeclared && !m.intentCrossCountry && m.intentDestination == ""
  }

  /** A reset, a stop and a start leave a blank record under a higher counter; a reset forgets the airport
      too, and only a start keeps the last response. */
  lemma NewFlightForgets(w: World, at: real, ready: bool)
    ensures var d := Do(w, Step(NewFlight, at)).desk;
      Blank(d.m) && d.m.state.Idle? && d.m.history == [] && d.m.towerResponse == "" && d.lastAirport == ""
      && d.m.gen == w.desk.m.gen + 1
    ensures var d := Do(w, Step(Halt, at)).desk;
      Blank(d.m) && d.m.state.Idle? && d.m.history == [] && d.m.towerResponse == "" && d.lastAirport == w.desk.lastAirport
    ensures var d := Do(w, Step(Start(ready), at)).desk;
      Blank(d.m) && d.m.towerResponse == w.desk.m.towerResponse && d.lastAirport == w.desk.lastAirport
      && (if ready then d.m.state.TowerContact? else d.m.state.Idle?)
  {
    hide Evolves;
  }

  /** Being put somewhere else starts a new flight exactly on the ground before the first clearance; at
      any other time nothing at all changes. */
  lemma RepositionIff(w: World, onGround: bool, at: real)
    ensures var d := Do(w, Step(Repositioned(onGround), at)).desk;
      if onGround && (w.desk.m.state.Idle? || w.desk.m.state.GroundContact?) then d == Do(w, Step(NewFlight, at)).desk
      else d == w.desk
  {
    hide Evolves;
  }

  /** The log after a move, if it was one. */
  function Logged(m: Machine, next: State, reason: string): seq<HistoryEntry> {
    if next == m.state then m.log else m.log + [HistoryEntry(m.state, reason, m.lastNow)]
  }

  /** A disregard on the ground gives everything up; in the air it keeps runway, callsign and flow and joins
      the pattern within five miles of the airport, or with no position known, else goes on en route. */
  lemma DisregardLeadsTo(ctx: Context, m0: Machine, now: real)
    ensures var m, n := m0.(lastNow := now), Disregard(ctx, m0, now);
      if ctx.phase.Climb? || ctx.phase.PatternLeg? || ctx.phase.FinalApproach? || ctx.phase.Cruise? then
        && n.assignedRunway == m.assignedRunway && n.sessionCallsign == m.sessionCallsign && n.departureType == m.departureType
        && if ctx.hasFix && ctx.distanceNm > 5.0
           then n.state == EnRoute && n.log == Logged(m, EnRoute, "disregard_airborne_transit")
           else n.state == PatternEntry && n.log == Logged(m, PatternEntry, "disregard_airborne_near_airport")
      else
        && n.assignedRunway == "" && n.sessionCallsign == "" && n.departureType == Pattern
        && n.state == Idle && n.log == Logged(m, Idle, "disregard_on_ground")
  {
    hide Evolves;
  }

  /** A correction that is due says so in the log, drops the pending flag, and releases both locks exactly
      if it leads to IDLE. */
  lemma CorrectionLeadsTo(m: Machine, c: AutoCorrection)
    ensures var n, next := ApplyCorrection(m, c), StateFromName(c.nextState);
      && n.state == next && n.log == Logged(m, next, "auto_correction:" + c.name) && !n.readbackPending
      && n.assignedRunway == (if next == Idle then "" else m.assignedRunway)
      && n.sessionCallsign == (if next == Idle then "" else m.sessionCallsign)
      && n.departureType == m.departureType && n.wasAirborne == m.wasAirborne
  {
    hide Evolves, StateFromName;
  }

  // ── Names ─────────────────────────────────────────────────────────

  /** The name of a state without its flow. */
  function BareName(s: State): string {
    match s
    case DepartureCleared => "DEPARTURE_CLEARED"
    case PatternEntry => "PATTERN_ENTRY"
    case LandingCleared => "LANDING_CLEARED"
    case TouchAndGoCleared => "TOUCH_AND_GO_CLEARED"
    case EnRoute => "EN_ROUTE"
    case _ => StateName(FRESH, s)
  }

  /** A state goes by its bare name as well. */
  lemma BareNameIsRead(s: State)
    ensures StateFromName(BareName(s)) == s
  {
    NameRoundTrip(FRESH, s);
    var table := STATES_BY_NAME;
    assert "DEPARTURE_CLEARED" in table && "PATTERN_ENTRY" in table && "LANDING_CLEARED" in table;
    assert "TOUCH_AND_GO_CLEARED" in table && "EN_ROUTE" in table;
  }

  /** A name read as anything but IDLE is a name of that state. */
  lemma OnlyNamesAreRead(name: string)
    ensures var s := StateFromName(name);
      s.Idle? || name == BareName(s) || name == StateName(FRESH, s) || name == StateName(FRESH.(departureType := CrossCountry), s)
  {
  }

  // ── The history ───────────────────────────────────────────────────

  /** Over every run the history holds the last eight transitions, or all if there were fewer. */
  lemma LastEight(steps: seq<Step>)
    ensures var m := Run(START, steps).desk.m;
      && |m.history| == (if |m.log| < 8 then |m.log| else 8)
      && forall i :: 0 <= i < |m.history| ==> m.history[i] == m.log[|m.log| - |m.history| + i]
  {
    hide Run;
    ReachableIsSound(steps);
  }

  /** A landing or touch-and-go clearance, and no departure clearance, from `i` on. */
  ghost predicate LandingFrom(h: seq<HistoryEntry>, i: nat) {
    && i < |h| && (h[i].state == LandingCleared || h[i].state == TouchAndGoCleared)
    && forall k :: i <= k < |h| ==> h[k].state != DepartureCleared
  }

  /** The window after a landing: cleared to land or for touch-and-go now, or at some time among the last
      eight transitions after which no departure clearance has been left. */
  lemma ArrivalWindow(m: Machine)
    ensures LandedSince(m) <==>
      m.state == LandingCleared || m.state == TouchAndGoCleared || exists i: nat :: LandingFrom(m.history, i)
  {
    if i :| 0 <= i < |m.history| && IsLanding(m.history[i].state) &&
            forall k :: i < k < |m.history| ==> !m.history[k].state.DepartureCleared? {
      assert LandingFrom(m.history, i);
    }
    if i: nat :| LandingFrom(m.history, i) { assert IsLanding(m.history[i].state); }
  }
}
