/** The state machine as the program runs it: one record, updated in place, field by field.  Each
    method is proved equal to its function in AtcState or AtcPipeline. */
module AtcMachine {
  import opened AtcPipeline
  import S = AtcState
  import FlightPhase
  import Bzf

  type State = S.State
  type Machine = S.Machine

  class AtcStateMachine {
    var g: Machine
    var lastAirportId: string

    constructor ()
      ensures g == S.FRESH && lastAirportId == ""
    {
      g := S.FRESH;
      lastAirportId := "";
    }

    function Now(): Desk
      reads this
    {
      Desk(g, lastAirportId)
    }

    // ── Mutators ────────────────────────────────────────────────────

    method BumpGen()
      modifies this`g
      ensures g == S.Bump(old(g))
    {
      g := g.(gen := g.gen + 1);
    }

    method TransitionTo(next: State, reason: string)
      modifies this`g
      ensures g == S.TransitionTo(old(g), next, reason)
    {
      if next == g.state { return; }
      BumpGen();
      var entry := S.HistoryEntry(g.state, reason, g.lastNow);
      var h := g.history + [entry];
      while |h| > S.HISTORY_CAP
        invariant S.Tail(h, S.HISTORY_CAP) == S.Tail(g.history + [entry], S.HISTORY_CAP)
      {
        h := h[1..];
      }
      g := g.(history := h, log := g.log + [entry]);
      g := g.(state := next);
    }

    method SetReadbackPending(v: bool)
      modifies this`g
      ensures g == S.SetReadbackPending(old(g), v)
    {
      BumpGen();
      g := g.(readbackPending := v);
    }

    method SetWasAirborne(v: bool)
      modifies this`g
      ensures g == S.SetWasAirborne(old(g), v)
    {
      if g.wasAirborne == v { return; }
      BumpGen();
      g := g.(wasAirborne := v);
    }

    method SetDepartureType(t: S.DepartureType)
      modifies this`g
      ensures g == S.SetDepartureType(old(g), t)
    {
      BumpGen();
      g := g.(departureType := t);
    }

    method SetFlightIntentCrossCountry(destination: string)
      modifies this`g
      ensures g == S.SetFlightIntent(old(g), true, destination)
    {
      BumpGen();
      g := g.(intentDeclared := true, intentCrossCountry := true, intentDestination := destination);
    }

    method SetFlightIntentPattern()
      modifies this`g
      ensures g == S.SetFlightIntent(old(g), false, "")
    {
      BumpGen();
      g := g.(intentDeclared := true, intentCrossCountry := false, intentDestination := "");
    }

    method ReleaseLocks()
      modifies this`g
      ensures g == S.ReleaseLocks(old(g))
    {
      if g.assignedRunway != "" {
        BumpGen();
        g := g.(assignedRunway := "");
      }
      if g.sessionCallsign != "" {
        BumpGen();
        g := g.(sessionCallsign := "");
      }
    }

    method SetState(s: State)
      modifies this`g
      ensures g == S.SetState(old(g), s)
    {
      TransitionTo(s, "external_set_state");
      if s.Idle? { ReleaseLocks(); }
    }

    // ── Lifecycle ───────────────────────────────────────────────────

    method Sweep()
      modifies this`g
      ensures g == S.Reset(old(g)).(towerResponse := old(g.towerResponse))
    {
      BumpGen();
      g := g.(state := S.Idle, readbackPending := false, wasAirborne := false);
      g := g.(assignedRunway := "", sessionCallsign := "", departureType := S.Pattern);
      g := g.(intentDeclared := false, intentCrossCountry := false, intentDestination := "");
      g := g.(history := [], log := [], lastNow := 0.0);
      g := g.(clearanceText := "", clearance := Bzf.NO_CLEARANCE);
    }

    method Init(readyForTakeoff: bool)
      modifies this`g
      ensures g == S.Init(old(g), readyForTakeoff)
    {
      Sweep();
      if readyForTakeoff { g := g.(state := S.TowerContact); }
    }

    method Stop()
      modifies this`g
      ensures g == S.Reset(old(g))
    {
      Sweep();
      g := g.(towerResponse := "");
    }

    method Reset()
      modifies this
      ensures g == S.Reset(old(g)) && lastAirportId == ""
    {
      Sweep();
      lastAirportId := "";
      g := g.(towerResponse := "");
    }

    method BeginFreshFlight(onGround: bool)
      modifies this
      ensures g == S.BeginFreshFlight(old(g), onGround)
      ensures lastAirportId == if g == old(g) then old(lastAirportId) else ""
    {
      var betweenFlights := onGround && (g.state.Idle? || g.state.GroundContact?);
      if !betweenFlights { return; }
      Reset();
    }

    method DisregardDialog(ctx: Context, now: real)
      modifies this`g
      ensures g == Disregard(ctx, old(g), now)
    {
      hide S.TransitionTo;
      BumpGen();
      g := g.(lastNow := now);
      g := g.(readbackPending := false, clearanceText := "", clearance := Bzf.NO_CLEARANCE, towerResponse := "");
      if !FlightPhase.IsAirborne(ctx.phase) {
        TransitionTo(S.Idle, "disregard_on_ground");
        g := g.(assignedRunway := "", sessionCallsign := "", departureType := S.Pattern);
        return;
      }
      var near := !ctx.hasFix || ctx.distanceNm <= DISREGARD_RADIUS_NM;
      if near {
        TransitionTo(S.PatternEntry, "disregard_airborne_near_airport");
      } else {
        TransitionTo(S.EnRoute, "disregard_airborne_transit");
      }
    }

    // ── Guards that change state ────────────────────────────────────

    method AirportChanged(nearest: string, now: real)
      modifies this
      ensures Now() == CheckAirportChange(old(Now()), nearest, now)
    {
      g := g.(lastNow := now);
      if nearest == "" { return; }
      if !g.state.EnRoute? || lastAirportId == "" {
        lastAirportId := nearest;
        return;
      }
      if nearest == lastAirportId { return; }
      TransitionTo(S.Idle, AIRPORT_CHANGE);
      SetReadbackPending(false);
      BumpGen();
      g := g.(assignedRunway := "");
      SetDepartureType(S.Pattern);
      lastAirportId := nearest;
    }

    method HandleNegativeCorrection(env: Env, msg: Message) returns (resp: Response)
      modifies this`g
      ensures (g, resp) == Correct(env, old(g), msg)
    {
      hide Say, SAY_INTENTIONS, CORRECTION_NOTED;
      var prev := g;
      var target := RevertTarget(prev.state);
      if target != prev.state {
        TransitionTo(target, "negative_correction");
        if prev.state.DepartureCleared? { SetDepartureType(S.Pattern); }
        resp := Response(Say(env, prev, msg, CORRECTION_NOTED), g.state, false);
      } else {
        resp := Response(Say(env, prev, msg, SAY_INTENTIONS), g.state, false);
      }
    }

    method StateReverts(env: Env, msg: Message)
      modifies this`g
      ensures g == ApplyStateReverts(env, old(g), msg)
    {
      hide IntentKey;
      var m := g;
      var i := Scan(env.rules.reverts, r => RevertApplies(r, S.CurrentName(m), IntentKey(msg.intent)));
      assert i == RevertIndex(env, m, msg);
      if i == |env.rules.reverts| { return; }
      TransitionTo(S.StateFromName(env.rules.reverts[i].revertTo), "state_revert");
      if env.rules.reverts[i].resetDeparture { SetDepartureType(S.Pattern); }
    }

    method HandleAdvisoryFlow(env: Env, msg: Message) returns (resp: Response)
      requires OnInfo(env.ctx) || OnUnicom(env.ctx)
      modifies this`g
      ensures (g, resp) == AdvisoryFlow(env, old(g), msg)
    {
      hide Say, Lookup;
      var m := g;
      if env.ctx.freq.Info? {
        var tmpl := InfoTemplate(env, msg);
        resp := Response(Say(env, m, msg, tmpl.response), S.StateFromName(tmpl.nextState), false);
        TransitionTo(resp.nextState, "info_flow");
      } else {
        resp := Response(Say(env, m, msg, UnicomTemplate(env, msg).response), S.Idle, false);
        TransitionTo(S.Idle, "unicom_flow_idle");
      }
    }

    method FrequencyCorrections(env: Env)
      modifies this`g
      ensures g == ApplyFrequencyCorrections(env, ApplyFrequencyValidity(env, old(g)))
    {
      hide FreqReason, S.StateFromName;
      if FrequencyInvalid(env, g) { TransitionTo(S.Idle, "freq_validity_reset"); }
      var rules := FreqCorrections(env, g);
      var i := Scan(rules, (c: FreqCorrection) => env.ctx.freq in c.frequencies);
      assert i == FreqCorrectionIndex(env, g);
      if i < |rules| { TransitionTo(S.StateFromName(rules[i].nextState), FreqReason(rules[i])); }
    }

    /** Idle redirects, tower-only collapse, preconditions, departure reset, initial-call conformance. */
    method RunLateGuards(env: Env, msgIn: Message) returns (v: Verdict)
      modifies this`g
      ensures v == LateGuards(env, old(g), msgIn) && g == v.m
    {
      hide Say, Rejection, Collapse, SpokenCallsign, IntentKey;
      if g.state.Idle? {
        var i := Scan(env.rules.redirects, r => RedirectApplies(r, env.ctx, IntentKey(msgIn.intent)));
        assert i == RedirectIndex(env, msgIn);
        if i < |env.rules.redirects| {
          return Answered(g, Response(Say(env, g, msgIn, env.rules.redirects[i].response), S.Idle, false));
        }
      }
      var msg := Collapse(env, g, msgIn);
      var rejection := Rejection(env, msg);
      if rejection != "" { return Answered(g, Response(Say(env, g, msg, rejection), g.state, false)); }
      if StartsDeparture(env, msg) { SetWasAirborne(false); }
      if Incomplete(env, msg) {
        return Answered(g, Response(env.prompt(SpokenCallsign(env, g, msg), Enforced(env)), g.state, false));
      }
      v := Passed(g, msg);
    }

    // ── Hooks ───────────────────────────────────────────────────────

    method TrackReadback(msg: Message, answer: Response, comp: Bzf.Clearance)
      requires Bzf.Callsign in comp.required
      modifies this`g
      ensures g == Tracked(old(g), msg, answer, comp)
    {
      if msg.intent.Readback? {
        BumpGen();
        g := g.(readbackPending := false, clearanceText := "", clearance := Bzf.NO_CLEARANCE);
      } else if answer.requiresReadback {
        BumpGen();
        g := g.(readbackPending := true, clearanceText := answer.text, clearance := comp);
      }
      if answer.nextState.EnRoute? || answer.nextState.Idle? {
        BumpGen();
        g := g.(readbackPending := false, clearanceText := "", clearance := Bzf.NO_CLEARANCE);
      }
    }

    method LockOnto(env: Env, msg: Message, next: State)
      modifies this`g
      ensures g == LockCallsign(LockRunway(env, old(g), msg, next), msg, next)
    {
      if g.assignedRunway == "" && !next.Idle? {
        var rwy := if msg.runway != "" then msg.runway
                   else if env.ctx.activeRunway != "" then env.ctx.activeRunway else "28";
        BumpGen();
        g := g.(assignedRunway := rwy);
      }
      if g.sessionCallsign == "" && msg.callsign != "" && !next.Idle? {
        BumpGen();
        g := g.(sessionCallsign := msg.callsign);
      }
    }

    method MoveToAnswer(msg: Message, next: State)
      modifies this`g
      ensures g == MoveOn(old(g), msg, next)
    {
      hide IntentKey;
      var prev := g.state;
      TransitionTo(next, "process:" + IntentKey(msg.intent));
      if next.DepartureCleared? && !prev.DepartureCleared? {
        BumpGen();
        g := g.(departureType := if msg.intent.ReadyForDepartureVfr? then S.CrossCountry else S.Pattern);
      } else if prev.DepartureCleared? && !next.DepartureCleared? {
        BumpGen();
        g := g.(departureType := S.Pattern);
      }
    }

    method ApplyPostTransitionHooks(env: Env, msg: Message, answer: Response, comp: Bzf.Clearance) returns (resp: Response)
      requires Bzf.Callsign in comp.required
      modifies this`g
      ensures (g, resp) == Hooks(env, old(g), msg, answer, comp)
    {
      hide MoveOn, LockRunway, LockCallsign, Tracked, S.ReleaseLocks, S.StateFromName, S.CurrentName,
           S.Evolves, S.SameClearance;
      resp := answer;
      TrackReadback(msg, answer, comp);
      LockOnto(env, msg, answer.nextState);
      if answer.text != "" { MoveToAnswer(msg, answer.nextState); }
      if answer.nextState.Idle? { ReleaseLocks(); }
      if env.ctx.towerOnly {
        var name := AdvanceName(env, g);
        if name != "" {
          resp := resp.(nextState := S.StateFromName(name));
          TransitionTo(resp.nextState, "tower_only_auto_advance");
        }
      }
      if answer.text != "" {
        BumpGen();
        g := g.(towerResponse := answer.text);
      }
    }

    method ApplyBzfStrictCheck(env: Env, msg: Message) returns (rejected: bool, resp: Response)
      ensures rejected <==> StrictRejects(env, g, msg)
      ensures rejected ==> resp == Corrective(env, g, msg)
    {
      hide Bzf.DiffReadback, Bzf.BuildCorrection;
      resp := Response("", S.Idle, false);
      if !German(env) || !env.settings.strict || !msg.intent.Readback? || g.clearanceText == "" { return false, resp; }
      var diff := Bzf.DiffReadbackLoop(env.stated, g.clearance, msg.transcript);
      if Bzf.Conformant(diff) { return false, resp; }
      rejected := true;
      resp := Response(Bzf.BuildCorrection(env.phrases, Addressee(env, g, msg), diff), g.state, true);
    }

    // ── Entry points ────────────────────────────────────────────────

    method RunRespond(env: Env, msg: Message) returns (resp: Response)
      modifies this`g
      ensures (g, resp) == Respond(env, old(g), msg)
    {
      hide Hooks, Answer, BuildVars, StrictRejects, Corrective, BuildClearance, Lookup;
      var answer := Answer(env, g, msg);
      var comp := BuildClearanceComponents(msg, BuildVars(env, g, msg), AnswerTemplate(env, g, msg).response);
      var rejected, corrective := ApplyBzfStrictCheck(env, msg);
      if rejected {
        BumpGen();
        g := g.(readbackPending := true);
        return corrective;
      }
      resp := ApplyPostTransitionHooks(env, msg, answer, comp);
    }

    method Transmit(env: Env, msgIn: Message, now: real) returns (resp: Response)
      modifies this
      ensures (Now(), resp) == Process(env, old(Now()), msgIn, now)
    {
      hide CheckAirportChange, Correct, Repeat, ApplyStateReverts, AdvisoryFlow, HintTemplate, Say,
           ApplyFrequencyCorrections, ApplyFrequencyValidity, LateGuards, Respond;
      g := g.(lastNow := now);
      ArrivalSetsClock(old(Now()), env.ctx.nearestAirport, now);
      var msg := Promote(g, msgIn);
      AirportChanged(env.ctx.nearestAirport, now);
      if msg.intent.NegativeCorrection? {
        resp := HandleNegativeCorrection(env, msg);
        return;
      }
      if msg.intent.RequestRepeat? { return Repeat(env, g, msg); }
      StateReverts(env, msg);
      if OnInfo(env.ctx) || OnUnicom(env.ctx) {
        resp := HandleAdvisoryFlow(env, msg);
        return;
      }
      var hint := HintTemplate(env, msg);
      if hint != "" { return Response(Say(env, g, msg, hint), g.state, false); }
      FrequencyCorrections(env);
      var v := RunLateGuards(env, msg);
      if v.Answered? { return v.resp; }
      resp := RunRespond(env, v.msg);
    }

    method FindCorrection(rules: Rules, phase: FlightPhase.Phase) returns (i: nat)
      ensures i == CorrectionIndex(rules, g, phase)
    {
      hide CorrectionRules;
      i := Scan(CorrectionRules(rules, g), (c: AutoCorrection) => phase in c.phases);
    }

    method AutoCorrect(rules: Rules, factor: real, phase: FlightPhase.Phase, dt: real, now: real)
      modifies this`g
      ensures g == CheckAutoCorrection(rules, factor, old(g), phase, dt, now)
    {
      hide Uncorrected, CorrectionIndex, CorrectionRules, TickCorrection;
      g := g.(lastNow := now);
      if Uncorrected(rules, g) { return; }
      var cs := CorrectionRules(rules, g);
      var i := FindCorrection(rules, phase);
      if i == |cs| {
        g := g.(correctionKey := "", correctionTimer := 0.0);
        return;
      }
      Tick(cs[i], factor, dt);
    }

    method Tick(c: AutoCorrection, factor: real, dt: real)
      modifies this`g
      ensures g == TickCorrection(old(g), c, factor, dt)
    {
      hide CorrectionKey, ApplyCorrection, Delay, S.SameClearance;
      var key := CorrectionKey(g, c);
      if key != g.correctionKey { g := g.(correctionKey := key, correctionTimer := 0.0); }
      g := g.(correctionTimer := g.correctionTimer + dt);
      if g.correctionTimer >= Delay(c, factor) {
        Rectify(c);
        g := g.(correctionKey := "", correctionTimer := 0.0);
      }
    }

    method Rectify(c: AutoCorrection)
      modifies this`g
      ensures g == ApplyCorrection(old(g), c)
    {
      hide S.StateFromName;
      var next := S.StateFromName(c.nextState);
      TransitionTo(next, "auto_correction:" + c.name);
      BumpGen();
      g := g.(readbackPending := false);
      if next.Idle? { g := g.(assignedRunway := "", sessionCallsign := ""); }
    }

    // ── History accessors ───────────────────────────────────────────

    method WasRecentlyIn(s: State, maxAge: real, now: real) returns (r: bool)
      ensures r <==> g.state == s || S.ReachedBack(g.history, s, maxAge, now)
      ensures S.WellLogged(g) ==> (r <==> g.state == s || S.InWindow(g.history, s, maxAge, now))
    {
      if S.WellLogged(g) { S.EarlyExitIsFullScan(g, s, maxAge, now); }
      hide S.WellShaped, S.Ordered, S.InWindow;
      if g.state == s { return true; }
      var h := g.history;
      var i := |h|;
      while i > 0
        invariant 0 <= i <= |h|
        invariant forall k :: i <= k < |h| ==> now - h[k].at <= maxAge && h[k].state != s
      {
        if now - h[i - 1].at > maxAge { return false; }
        if h[i - 1].state == s { return true; }
        i := i - 1;
      }
      r := false;
    }

    method AtAirportAfterLanding(onGround: bool) returns (r: bool)
      ensures r <==> onGround && S.LandedSince(g)
      ensures (r <==> onGround && S.StillArrived(g)) <==> !(onGround && g.state.DepartureCleared? && S.LandedSince(g))
    {
      S.WindowExactIff(g);
      hide S.StillArrived;
      if !onGround { return false; }
      if S.IsLanding(g.state) { return true; }
      var h := g.history;
      var i := |h|;
      while i > 0
        invariant 0 <= i <= |h|
        invariant forall k :: i <= k < |h| ==> !h[k].state.DepartureCleared? && !S.IsLanding(h[k].state)
      {
        if h[i - 1].state.DepartureCleared? { return false; }
        if S.IsLanding(h[i - 1].state) { return true; }
        i := i - 1;
      }
      r := false;
    }

    // ── Snapshot and restore ────────────────────────────────────────

    method CaptureSnapshot() returns (snapshot: Machine)
      ensures snapshot == g
    {
      snapshot := g;
    }

    method RestoreSnapshotIfGen(snapshot: Machine, expected: nat) returns (restored: bool)
      modifies this`g
      ensures (g, restored) == S.RestoreIfGen(old(g), snapshot, expected)
    {
      if g.gen != expected { return false; }
      var newGen := g.gen + 1;
      g := snapshot;
      g := g.(gen := newGen);
      restored := true;
    }
  }
}
