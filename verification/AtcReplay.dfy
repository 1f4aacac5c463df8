/** What replaying a transmission gives, and what survives a refused restore. */
module AtcReplay {
  import opened AtcState
  import opened AtcPipeline
  import opened AtcGuard
  import opened AtcFrames
  import Bzf
  import FlightPhase
  import Templates

  // ── Replay ────────────────────────────────────────────────────────

  predicate SameLog(h: seq<HistoryEntry>, k: seq<HistoryEntry>) {
    |h| == |k| && forall i :: 0 <= i < |h| ==> h[i].state == k[i].state && h[i].reason == k[i].reason
  }

  /** Equal up to the counter and the timestamps. */
  predicate Same(a: Machine, b: Machine) {
    && SameLog(a.history, b.history) && SameLog(a.log, b.log)
    && a.(gen := 0, lastNow := 0.0, history := [], log := []) == b.(gen := 0, lastNow := 0.0, history := [], log := [])
  }

  lemma SamePush(h: seq<HistoryEntry>, k: seq<HistoryEntry>, e: HistoryEntry, f: HistoryEntry)
    requires SameLog(h, k) && e.state == f.state && e.reason == f.reason
    ensures SameLog(h + [e], k + [f]) && SameLog(Tail(h + [e], HISTORY_CAP), Tail(k + [f], HISTORY_CAP))
  {
  }

  lemma SameTransition(a: Machine, b: Machine, next: State, reason: string)
    requires Same(a, b)
    ensures Same(TransitionTo(a, next, reason), TransitionTo(b, next, reason))
  {
    hide Evolves, SameClearance, SameLog, Tail, KeepsClearance;
    var e, f := HistoryEntry(a.state, reason, a.lastNow), HistoryEntry(b.state, reason, b.lastNow);
    SamePush(a.history, b.history, e, f);
    SamePush(a.log, b.log, e, f);
  }

  lemma SameNames(a: Machine, b: Machine)
    requires Same(a, b)
    ensures CurrentName(a) == CurrentName(b)
  {
  }

  lemma SameVars(env: Env, a: Machine, b: Machine, msg: Message)
    requires Same(a, b)
    ensures BuildVars(env, a, msg) == BuildVars(env, b, msg)
    ensures SpokenCallsign(env, a, msg) == SpokenCallsign(env, b, msg)
    ensures forall text :: Say(env, a, msg, text) == Say(env, b, msg, text)
  {
    hide Abbreviate, SpokenDestination, Templates.Fill, SameLog, Intention, CoursePhrase;
    SameFields(a, b);
    assert FlightIntent(env, a, msg) == FlightIntent(env, b, msg);
    assert Intention(env, a, msg) == Intention(env, b, msg) && CoursePhrase(env, a, msg) == CoursePhrase(env, b, msg) by {
      SameIntention(env, a, b, msg);
    }
  }

  lemma SameIntention(env: Env, a: Machine, b: Machine, msg: Message)
    requires FlightIntent(env, a, msg) == FlightIntent(env, b, msg)
    ensures Intention(env, a, msg) == Intention(env, b, msg) && CoursePhrase(env, a, msg) == CoursePhrase(env, b, msg)
  {
    hide SpokenDestination, FlightIntent;
  }

  lemma SameFields(a: Machine, b: Machine)
    requires Same(a, b)
    ensures a.state == b.state && a.readbackPending == b.readbackPending && a.wasAirborne == b.wasAirborne
    ensures a.clearanceText == b.clearanceText && a.clearance == b.clearance && a.towerResponse == b.towerResponse
    ensures a.assignedRunway == b.assignedRunway && a.sessionCallsign == b.sessionCallsign
    ensures a.intentDeclared == b.intentDeclared && a.intentCrossCountry == b.intentCrossCountry
    ensures a.intentDestination == b.intentDestination && a.departureType == b.departureType
  {
  }

  lemma SameCorrect(env: Env, a: Machine, b: Machine, msg: Message)
    requires Same(a, b)
    ensures Same(Correct(env, a, msg).0, Correct(env, b, msg).0) && Correct(env, a, msg).1 == Correct(env, b, msg).1
  {
    hide Say, KeepsClearance, TransitionTo, Same, SetDepartureType, SAY_INTENTIONS, CORRECTION_NOTED;
    SameVars(env, a, b, msg);
    SameFields(a, b);
    var c, d := TransitionTo(a, RevertTarget(a.state), "negative_correction"), TransitionTo(b, RevertTarget(b.state), "negative_correction");
    SameTransition(a, b, RevertTarget(a.state), "negative_correction");
    SameDeparture(c, d);
    SameFields(c, d);
  }

  lemma SameDeparture(a: Machine, b: Machine)
    requires Same(a, b)
    ensures Same(SetDepartureType(a, Pattern), SetDepartureType(b, Pattern))
  {
    hide SameLog, KeepsClearance;
  }

  lemma SameReverts(env: Env, a: Machine, b: Machine, msg: Message)
    requires Same(a, b)
    ensures Same(ApplyStateReverts(env, a, msg), ApplyStateReverts(env, b, msg))
  {
    hide KeepsClearance, TransitionTo, CurrentName, StateFromName, FirstMatch, IntentKey;
    SameNames(a, b);
    var i := RevertIndex(env, a, msg);
    assert i == RevertIndex(env, b, msg);
    if i < |env.rules.reverts| {
      SameTransition(a, b, StateFromName(env.rules.reverts[i].revertTo), "state_revert");
    }
  }

  lemma SameAdvisory(env: Env, a: Machine, b: Machine, msg: Message)
    requires Same(a, b) && (OnInfo(env.ctx) || OnUnicom(env.ctx))
    ensures Same(AdvisoryFlow(env, a, msg).0, AdvisoryFlow(env, b, msg).0)
    ensures AdvisoryFlow(env, a, msg).1 == AdvisoryFlow(env, b, msg).1
  {
    hide Say, KeepsClearance, TransitionTo, StateFromName, Lookup;
    SameVars(env, a, b, msg);
    SameTransition(a, b, StateFromName(InfoTemplate(env, msg).nextState), "info_flow");
    SameTransition(a, b, Idle, "unicom_flow_idle");
  }

  lemma SameValidity(env: Env, a: Machine, b: Machine)
    requires Same(a, b)
    ensures Same(ApplyFrequencyValidity(env, a), ApplyFrequencyValidity(env, b))
  {
    hide KeepsClearance, TransitionTo, CurrentName;
    SameNames(a, b);
    SameTransition(a, b, Idle, "freq_validity_reset");
  }

  lemma SameCorrections(env: Env, a: Machine, b: Machine)
    requires Same(a, b)
    ensures FreqCorrections(env, a) == FreqCorrections(env, b)
    ensures Same(ApplyFrequencyCorrections(env, a), ApplyFrequencyCorrections(env, b))
  {
    hide KeepsClearance, TransitionTo, CurrentName, StateFromName, FirstMatch, FreqReason;
    SameNames(a, b);
    var rules := FreqCorrections(env, a);
    var i := FreqCorrectionIndex(env, a);
    assert i == FreqCorrectionIndex(env, b);
    if i < |rules| { SameTransition(a, b, StateFromName(rules[i].nextState), FreqReason(rules[i])); }
  }

  predicate SameVerdict(v: Verdict, u: Verdict) {
    Same(v.m, u.m) && (v.Answered? <==> u.Answered?)
    && (v.Answered? ==> v.resp == u.resp) && (v.Passed? ==> v.msg == u.msg)
  }

  lemma SameLate(env: Env, a: Machine, b: Machine, msg: Message)
    requires Same(a, b)
    ensures SameVerdict(LateGuards(env, a, msg), LateGuards(env, b, msg))
  {
    hide Say, KeepsClearance, SpokenCallsign, Rejection, RedirectIndex, SameLog, Enforced;
    SameFields(a, b);
    SameVars(env, a, b, msg);
    var late := Collapse(env, a, msg);
    assert late == Collapse(env, b, msg);
    SameVars(env, a, b, late);
    var c, d := SetWasAirborne(a, false), SetWasAirborne(b, false);
    assert Same(c, d);
    SameVars(env, c, d, late);
  }

  lemma SameGuards(env: Env, a: Machine, b: Machine, msg: Message)
    requires Same(a, b)
    ensures SameVerdict(Guards(env, a, msg), Guards(env, b, msg))
  {
    hide Say, KeepsClearance, Same, LateGuards, AdvisoryFlow, ApplyStateReverts, Correct, HintTemplate,
         ApplyFrequencyValidity, ApplyFrequencyCorrections;
    if msg.intent.NegativeCorrection? {
      SameCorrect(env, a, b, msg);
    } else if msg.intent.RequestRepeat? {
      SameFields(a, b);
    } else {
      SameReverts(env, a, b, msg);
      var a1, b1 := ApplyStateReverts(env, a, msg), ApplyStateReverts(env, b, msg);
      if OnInfo(env.ctx) || OnUnicom(env.ctx) {
        SameAdvisory(env, a1, b1, msg);
      } else {
        SameVars(env, a1, b1, msg);
        SameFields(a1, b1);
        SameValidity(env, a1, b1);
        var a2, b2 := ApplyFrequencyValidity(env, a1), ApplyFrequencyValidity(env, b1);
        SameCorrections(env, a2, b2);
        SameLate(env, ApplyFrequencyCorrections(env, a2), ApplyFrequencyCorrections(env, b2), msg);
      }
    }
  }

  lemma SameTracked(a: Machine, b: Machine, msg: Message, resp: Response, comp: Bzf.Clearance)
    requires Same(a, b) && Bzf.Callsign in comp.required
    ensures Same(Tracked(a, msg, resp, comp), Tracked(b, msg, resp, comp))
  {
    hide Evolves, SameLog;
  }

  lemma SameLocks(env: Env, a: Machine, b: Machine, msg: Message, next: State)
    requires Same(a, b)
    ensures Same(LockRunway(env, a, msg, next), LockRunway(env, b, msg, next))
    ensures Same(LockCallsign(a, msg, next), LockCallsign(b, msg, next))
  {
    hide KeepsClearance, SameLog;
  }

  lemma SameMove(a: Machine, b: Machine, msg: Message, next: State)
    requires Same(a, b)
    ensures Same(MoveOn(a, msg, next), MoveOn(b, msg, next))
  {
    hide KeepsClearance, SameLog, TransitionTo, IntentKey;
    SameTransition(a, b, next, "process:" + IntentKey(msg.intent));
  }

  lemma SameRelease(a: Machine, b: Machine)
    requires Same(a, b)
    ensures Same(ReleaseLocks(a), ReleaseLocks(b))
  {
    hide SameLog, KeepsClearance;
    var c := if a.assignedRunway == "" then a else Bump(a).(assignedRunway := "");
    var d := if b.assignedRunway == "" then b else Bump(b).(assignedRunway := "");
    assert Same(c, d);
  }

  lemma SameBooks(env: Env, a: Machine, b: Machine, msg: Message, resp: Response, comp: Bzf.Clearance)
    requires Same(a, b) && Bzf.Callsign in comp.required
    ensures Same(CloseBooks(env, a, msg, resp, comp), CloseBooks(env, b, msg, resp, comp))
  {
    hide KeepsClearance, Evolves, SameClearance, Same, Tracked, LockRunway, LockCallsign, MoveOn, ReleaseLocks;
    var next := resp.nextState;
    SameTracked(a, b, msg, resp, comp);
    var a1, b1 := Tracked(a, msg, resp, comp), Tracked(b, msg, resp, comp);
    SameLocks(env, a1, b1, msg, next);
    var a2, b2 := LockRunway(env, a1, msg, next), LockRunway(env, b1, msg, next);
    SameLocks(env, a2, b2, msg, next);
    var a3, b3 := LockCallsign(a2, msg, next), LockCallsign(b2, msg, next);
    SameMove(a3, b3, msg, next);
    SameRelease(a3, b3);
    SameRelease(MoveOn(a3, msg, next), MoveOn(b3, msg, next));
  }

  lemma SameHooks(env: Env, a: Machine, b: Machine, msg: Message, resp: Response, comp: Bzf.Clearance)
    requires Same(a, b) && Bzf.Callsign in comp.required
    ensures Same(Hooks(env, a, msg, resp, comp).0, Hooks(env, b, msg, resp, comp).0)
    ensures Hooks(env, a, msg, resp, comp).1 == Hooks(env, b, msg, resp, comp).1
  {
    hide Evolves, SameClearance, TransitionTo, SameLog, CloseBooks, CurrentName, StateFromName, Tracked, Leaves;
    SameBooks(env, a, b, msg, resp, comp);
    var a1, b1 := CloseBooks(env, a, msg, resp, comp), CloseBooks(env, b, msg, resp, comp);
    SameNames(a1, b1);
    SameFields(a1, b1);
    var name := AdvanceName(env, a1);
    var target := if name == "" then a1.state else StateFromName(name);
    SameTransition(a1, b1, target, "tower_only_auto_advance");
  }

  lemma SameRespond(env: Env, a: Machine, b: Machine, msg: Message)
    requires Same(a, b)
    ensures Same(Respond(env, a, msg).0, Respond(env, b, msg).0) && Respond(env, a, msg).1 == Respond(env, b, msg).1
  {
    hide Evolves, SameClearance, Hooks, SameLog, BuildVars, SpokenCallsign, CurrentName, Overlay, Fill, Lookup,
         StateFromName, Bzf.Conformant, Bzf.DiffReadback, Bzf.BuildCorrection, BuildClearance;
    SameFields(a, b);
    SameNames(a, b);
    SameVars(env, a, b, msg);
    assert Answer(env, a, msg) == Answer(env, b, msg);
    assert AnswerClearance(env, a, msg) == AnswerClearance(env, b, msg);
    SameHooks(env, a, b, msg, Answer(env, a, msg), AnswerClearance(env, a, msg));
    assert Diff(env, a, msg) == Diff(env, b, msg);
  }

  /** The dialogue reads neither the counter nor a timestamp. */
  lemma SameDialogue(env: Env, a: Machine, b: Machine, msg: Message)
    requires Same(a, b)
    ensures Same(Dialogue(env, a, msg).0, Dialogue(env, b, msg).0) && Dialogue(env, a, msg).1 == Dialogue(env, b, msg).1
  {
    hide Same, Guards, Respond;
    SameGuards(env, a, b, msg);
    var v, u := Guards(env, a, msg), Guards(env, b, msg);
    if v.Passed? { SameRespond(env, v.m, u.m, v.msg); }
  }

  lemma SameArrival(t: Desk, u: Desk, nearest: string, now: real, later: real)
    requires Same(t.m, u.m) && (Dropped(t, nearest) <==> Dropped(u, nearest))
    ensures Same(CheckAirportChange(t, nearest, now).m, CheckAirportChange(u, nearest, later).m)
  {
    hide TransitionTo, KeepsClearance;
    var a, b := t.m.(lastNow := now), u.m.(lastNow := later);
    assert Same(a, b);
    SameTransition(a, b, Idle, AIRPORT_CHANGE);
    assert Same(LeaveAirport(a), LeaveAirport(b));
  }

  lemma SameProcess(env: Env, t: Desk, u: Desk, msg: Message, now: real, later: real)
    requires Same(t.m, u.m) && (Dropped(t, env.ctx.nearestAirport) <==> Dropped(u, env.ctx.nearestAirport))
    ensures Same(Process(env, t, msg, now).0.m, Process(env, u, msg, later).0.m)
    ensures Process(env, t, msg, now).1 == Process(env, u, msg, later).1
  {
    hide Same, CheckAirportChange, Dialogue;
    SameFields(t.m, u.m);
    SameArrival(t, u, env.ctx.nearestAirport, now, later);
    SameDialogue(env, Arrival(env, t, now).m, Arrival(env, u, later).m, Promote(t.m, msg));
  }

  // ── When a replay differs ─────────────────────────────────────────

  /** Only earlier entries, and none of the new ones is an airport change. */
  predicate Quiet(m: Machine, n: Machine) {
    m.log <= n.log && forall i :: |m.log| <= i < |n.log| ==> n.log[i].reason != AIRPORT_CHANGE
  }

  lemma QuietChain(a: Machine, b: Machine, c: Machine)
    requires Quiet(a, b) && Quiet(b, c)
    ensures Quiet(a, c)
  {
  }

  lemma QuietMove(m: Machine, next: State, reason: string)
    requires reason != "" && reason[0] != 'a'
    ensures Quiet(m, TransitionTo(m, next, reason))
  {
    hide KeepsClearance, Evolves, SameClearance;
    assert AIRPORT_CHANGE[0] == 'a';
  }

  lemma QuietSame(m: Machine, n: Machine)
    requires m.log == n.log
    ensures Quiet(m, n)
  {
  }

  lemma QuietCorrect(env: Env, m: Machine, msg: Message)
    ensures Quiet(m, Correct(env, m, msg).0)
  {
    hide Say, KeepsClearance, TransitionTo, Quiet, SAY_INTENTIONS, CORRECTION_NOTED;
    QuietSame(m, m);
    var a := TransitionTo(m, RevertTarget(m.state), "negative_correction");
    QuietMove(m, RevertTarget(m.state), "negative_correction");
    QuietSame(a, SetDepartureType(a, Pattern));
    QuietChain(m, a, SetDepartureType(a, Pattern));
  }

  lemma QuietLate(env: Env, m: Machine, msg: Message)
    ensures Quiet(m, LateGuards(env, m, msg).m)
  {
    hide Say, KeepsClearance, Rejection, Enforced, RedirectIndex, SpokenCallsign, Quiet;
    QuietSame(m, LateGuards(env, m, msg).m);
  }

  lemma QuietAdvisory(env: Env, m: Machine, msg: Message)
    requires OnInfo(env.ctx) || OnUnicom(env.ctx)
    ensures Quiet(m, AdvisoryFlow(env, m, msg).0)
  {
    hide Say, KeepsClearance, TransitionTo, Quiet, StateFromName, Lookup;
    QuietMove(m, StateFromName(InfoTemplate(env, msg).nextState), "info_flow");
    QuietMove(m, Idle, "unicom_flow_idle");
  }

  lemma QuietGuards(env: Env, m: Machine, msg: Message)
    ensures Quiet(m, Guards(env, m, msg).m)
  {
    hide Say, KeepsClearance, Quiet, HintTemplate, ApplyStateReverts, AdvisoryFlow, LateGuards, Correct,
         ApplyFrequencyCorrections, ApplyFrequencyValidity;
    QuietSame(m, m);
    if msg.intent.NegativeCorrection? {
      QuietCorrect(env, m, msg);
    } else if !msg.intent.RequestRepeat? {
      QuietReverts(env, m, msg);
      var a := ApplyStateReverts(env, m, msg);
      if OnInfo(env.ctx) || OnUnicom(env.ctx) {
        QuietAdvisory(env, a, msg);
        QuietChain(m, a, AdvisoryFlow(env, a, msg).0);
      } else {
        QuietFrequency(env, a);
        var b := ApplyFrequencyCorrections(env, ApplyFrequencyValidity(env, a));
        QuietLate(env, b, msg);
        QuietChain(m, a, b);
        QuietChain(m, b, LateGuards(env, b, msg).m);
      }
    }
  }

  lemma QuietReverts(env: Env, m: Machine, msg: Message)
    ensures Quiet(m, ApplyStateReverts(env, m, msg))
  {
    hide KeepsClearance, TransitionTo, Quiet, RevertIndex, StateFromName;
    QuietSame(m, m);
    var i := RevertIndex(env, m, msg);
    if i < |env.rules.reverts| {
      var next := StateFromName(env.rules.reverts[i].revertTo);
      var a := TransitionTo(m, next, "state_revert");
      QuietMove(m, next, "state_revert");
      QuietSame(a, SetDepartureType(a, Pattern));
      QuietChain(m, a, SetDepartureType(a, Pattern));
    }
  }

  lemma QuietFrequency(env: Env, m: Machine)
    ensures Quiet(m, ApplyFrequencyCorrections(env, ApplyFrequencyValidity(env, m)))
  {
    hide KeepsClearance, TransitionTo, Quiet, FreqCorrectionIndex, FreqCorrections, FrequencyInvalid, StateFromName;
    QuietSame(m, m);
    var a := ApplyFrequencyValidity(env, m);
    QuietMove(m, Idle, "freq_validity_reset");
    QuietSame(a, a);
    var rules, i := FreqCorrections(env, a), FreqCorrectionIndex(env, a);
    if i < |rules| { QuietMove(a, StateFromName(rules[i].nextState), FreqReason(rules[i])); }
    QuietChain(m, a, ApplyFrequencyCorrections(env, a));
  }

  lemma QuietRespond(env: Env, m: Machine, msg: Message)
    ensures Quiet(m, Respond(env, m, msg).0)
  {
    hide Evolves, SameClearance, TransitionTo, Quiet, Bzf.Conformant, Diff, Answer, AnswerClearance, Corrective, Tracked,
         LockRunway, LockCallsign, StateFromName, AdvanceName;
    if StrictRejects(env, m, msg) {
      QuietSame(m, StillOwed(m));
    } else {
      var resp, comp := Answer(env, m, msg), AnswerClearance(env, m, msg);
      QuietBooks(env, m, msg, resp, comp);
      var a := CloseBooks(env, m, msg, resp, comp);
      var name := AdvanceName(env, a);
      var target := if name == "" then a.state else StateFromName(name);
      var b := TransitionTo(a, target, "tower_only_auto_advance");
      QuietMove(a, target, "tower_only_auto_advance");
      QuietSame(b, NoteResponse(b, resp.text));
      QuietChain(m, a, b);
      QuietChain(m, b, NoteResponse(b, resp.text));
    }
  }

  lemma QuietBooks(env: Env, m: Machine, msg: Message, resp: Response, comp: Bzf.Clearance)
    requires Bzf.Callsign in comp.required
    ensures Quiet(m, CloseBooks(env, m, msg, resp, comp))
  {
    hide Evolves, SameClearance, TransitionTo, Quiet, IntentKey, RunwayFor;
    var next := resp.nextState;
    var c := LockCallsign(LockRunway(env, Tracked(m, msg, resp, comp), msg, next), msg, next);
    QuietSame(m, c);
    var d := if resp.text == "" then c else MoveOn(c, msg, next);
    QuietMove(c, next, "process:" + IntentKey(msg.intent));
    QuietSame(TransitionTo(c, next, "process:" + IntentKey(msg.intent)), MoveOn(c, msg, next));
    QuietChain(c, TransitionTo(c, next, "process:" + IntentKey(msg.intent)), MoveOn(c, msg, next));
    QuietSame(c, c);
    QuietChain(m, c, d);
    QuietSame(d, ReleaseLocks(d));
    QuietChain(m, d, ReleaseLocks(d));
  }

  lemma QuietDialogue(env: Env, m: Machine, msg: Message)
    ensures Quiet(m, Dialogue(env, m, msg).0)
  {
    hide Quiet, Guards, Respond;
    QuietGuards(env, m, msg);
    var v := Guards(env, m, msg);
    if v.Passed? {
      QuietRespond(env, v.m, v.msg);
      QuietChain(m, v.m, Respond(env, v.m, v.msg).0);
    }
  }

  /** The airport drop leaves its mark in the log. */
  lemma DropShows(env: Env, t: Desk, u: Desk, msg: Message, now: real, later: real)
    requires Same(t.m, u.m) && Dropped(t, env.ctx.nearestAirport) && !Dropped(u, env.ctx.nearestAirport)
    ensures !Same(Process(env, t, msg, now).0.m, Process(env, u, msg, later).0.m)
  {
    hide Dialogue, KeepsClearance, Evolves;
    var a, b := Arrival(env, t, now).m, Arrival(env, u, later).m;
    QuietDialogue(env, a, Promote(t.m, msg));
    QuietDialogue(env, b, Promote(u.m, msg));
    var n := |t.m.log|;
    var c, d := Process(env, t, msg, now).0.m, Process(env, u, msg, later).0.m;
    assert |a.log| == n + 1 && a.log[n].reason == AIRPORT_CHANGE;
    assert c.log[n].reason == AIRPORT_CHANGE;
    assert |b.log| == n;
  }

  /** Replaying a transmission, at any time and from any desk that agrees up to counter and
      timestamps, gives the same response and the same state if and only if both desks agree on
      whether the airport-change reset fires. */
  lemma ReplayIff(env: Env, t: Desk, u: Desk, msg: Message, now: real, later: real)
    requires Same(t.m, u.m)
    ensures var (p, q) := (Process(env, t, msg, now), Process(env, u, msg, later));
      (p.1 == q.1 && Same(p.0.m, q.0.m)) <==> (Dropped(t, env.ctx.nearestAirport) <==> Dropped(u, env.ctx.nearestAirport))
  {
    hide Process, Same, Dropped;
    var near := env.ctx.nearestAirport;
    if Dropped(t, near) && !Dropped(u, near) {
      DropShows(env, t, u, msg, now, later);
    } else if !Dropped(t, near) && Dropped(u, near) {
      SameSym(t.m, u.m);
      DropShows(env, u, t, msg, later, now);
      SameSym(Process(env, t, msg, now).0.m, Process(env, u, msg, later).0.m);
    } else {
      SameProcess(env, t, u, msg, now, later);
    }
  }

  lemma SameSym(a: Machine, b: Machine)
    ensures Same(a, b) <==> Same(b, a)
  {
  }

  /** Neither do the latch and the readback gate. */
  lemma SameGate(env: Env, a: Machine, b: Machine, msg: Message)
    requires Same(a, b)
    ensures Same(Latch(a, msg), Latch(b, msg)) && Latch(a, msg).state == a.state
    ensures Recognise(env, Latch(a, msg), msg) == Recognise(env, Latch(b, msg), msg)
  {
    hide SameLog, Bzf.CoversCore, Bzf.MissingElements, KeepsClearance, WellShaped, Ordered;
  }

  /** The same for the whole exchange, which is what the retry button runs again. */
  lemma ExchangeIff(env: Env, t: Desk, u: Desk, msg: Message, now: real, later: real)
    requires Same(t.m, u.m)
    ensures var (p, q) := (Exchange(env, t, msg, now), Exchange(env, u, msg, later));
      (p.1 == q.1 && Same(p.0.m, q.0.m)) <==> (Dropped(t, env.ctx.nearestAirport) <==> Dropped(u, env.ctx.nearestAirport))
  {
    hide Process, Same, Latch, Recognise;
    SameGate(env, t.m, u.m, msg);
    SameFields(t.m, u.m);
    SameGate(env, u.m, t.m, msg) by { SameSym(t.m, u.m); }
    ReplayIff(env, Desk(Latch(t.m, msg), t.lastAirport), Desk(Latch(u.m, msg), u.lastAirport),
              Recognise(env, Latch(t.m, msg), msg), now, later);
  }

  /** The record is captured before the latch, the exchange runs, anything may follow, the restore
      succeeds: the transmission sent again is answered alike, and leads to the same state, if and only
      if both runs agree on the airport change, which the snapshot does not cover. */
  lemma ReplayAfterRestore(w: World, env: Env, msg: Message, now: real, meanwhile: seq<Step>, later: real)
    ensures var t, first := w.desk, Exchange(env, w.desk, msg, now);
      var end := Run(World(first.0, w.snapshots, now), meanwhile).desk;
      var (m, ok) := RestoreIfGen(end.m, t.m, first.0.m.gen);
      var second := Exchange(env, Desk(m, end.lastAirport), msg, later);
      ok ==> ((second.1 == first.1 && Same(second.0.m, first.0.m)) <==>
              (Dropped(t, env.ctx.nearestAirport) <==> Dropped(Desk(m, end.lastAirport), env.ctx.nearestAirport)))
  {
    hide Exchange, Same, Run, Dropped;
    var t, first := w.desk, Exchange(env, w.desk, msg, now);
    var end := Run(World(first.0, w.snapshots, now), meanwhile).desk;
    SameUpToGen(t.m, end.m.gen + 1);
    ExchangeIff(env, Desk(t.m.(gen := end.m.gen + 1), end.lastAirport), t, msg, later, now);
  }

  /** With nothing in between the condition is that the first run met no airport change. */
  lemma ReplayAtOnceIff(env: Env, t: Desk, msg: Message, now: real, later: real)
    ensures var first := Exchange(env, t, msg, now);
      var restored := Desk(RestoreIfGen(first.0.m, t.m, first.0.m.gen).0, first.0.lastAirport);
      var second := Exchange(env, restored, msg, later);
      (second.1 == first.1 && Same(second.0.m, first.0.m)) <==> !Dropped(t, env.ctx.nearestAirport)
  {
    hide Exchange, Same;
    var first := Exchange(env, t, msg, now);
    var restored := Desk(RestoreIfGen(first.0.m, t.m, first.0.m.gen).0, first.0.lastAirport);
    ExchangeSeesAirport(env, t, msg, now);
    assert !Dropped(restored, env.ctx.nearestAirport);
    SameUpToGen(t.m, first.0.m.gen + 1);
    ExchangeIff(env, restored, t, msg, later, now);
  }

  lemma ExchangeSeesAirport(env: Env, t: Desk, msg: Message, now: real)
    ensures Exchange(env, t, msg, now).0.lastAirport
      == if env.ctx.nearestAirport == "" then t.lastAirport else env.ctx.nearestAirport
  {
    hide Dialogue, Latch, Recognise, LeaveAirport;
  }

  /** En route from EDDF, the first transmission near EDFE meets an airport change, its replay does not. */
  lemma ReplayDiffers(env: Env, msg: Message, now: real, later: real)
    requires env.ctx.nearestAirport == "EDFE"
    ensures var t := Do(Do(START, Step(AirportFrame("EDDF"), 0.0)), Step(ForceState(EnRoute), 0.0)).desk;
      var first := Exchange(env, t, msg, now);
      var restored := Desk(RestoreIfGen(first.0.m, t.m, first.0.m.gen).0, first.0.lastAirport);
      var second := Exchange(env, restored, msg, later);
      !(second.1 == first.1 && Same(second.0.m, first.0.m))
  {
    hide Exchange, Same, SetState;
    var t := Do(Do(START, Step(AirportFrame("EDDF"), 0.0)), Step(ForceState(EnRoute), 0.0)).desk;
    assert Dropped(t, "EDFE");
    ReplayAtOnceIff(env, t, msg, now, later);
  }

  lemma SameUpToGen(m: Machine, gen: nat)
    ensures Same(m.(gen := gen), m)
  {
  }

  // ── A refused restore ─────────────────────────────────────────────

  lemma TickKeepsClearance(m: Machine, c: AutoCorrection, factor: real, dt: real)
    ensures SameClearance(m, TickCorrection(m, c, factor, dt))
  {
    hide ApplyCorrection, Delay, CorrectionKey, TimeOn, Evolves;
  }

  lemma CorrectionKeepsClearance(rules: Rules, factor: real, m: Machine, phase: FlightPhase.Phase, dt: real, now: real)
    ensures SameClearance(m, CheckAutoCorrection(rules, factor, m, phase, dt, now))
  {
    hide TickCorrection, CorrectionRules, CorrectionIndex, Uncorrected;
    var later := m.(lastNow := now);
    var cs, i := CorrectionRules(rules, later), CorrectionIndex(rules, later, phase);
    if i < |cs| { TickKeepsClearance(later, cs[i], factor, dt); }
  }

  lemma FrameKeepsClearance(w: World, s: Step)
    requires FrameOnly(s)
    ensures SameClearance(w.desk.m, Do(w, s).desk.m)
  {
    hide LeaveAirport, SetWasAirborne, CheckAutoCorrection, Evolves, Process, Latch, Disregard, SetState, Init, Reset;
    match s.act
    case CorrectionFrame(rules, factor, phase, dt) =>
      CorrectionKeepsClearance(rules, factor, w.desk.m, phase, dt, s.at);
    case _ =>
  }

  lemma {:induction false} FramesKeepClearance(w: World, frames: seq<Step>)
    requires AllFrames(frames)
    ensures SameClearance(w.desk.m, Run(w, frames).desk.m)
    decreases |frames|
  {
    hide Do, FrameOnly;
    if frames != [] {
      assert FrameOnly(frames[0]);
      FrameKeepsClearance(w, frames[0]);
      FramesKeepClearance(Do(w, frames[0]), frames[1..]);
    }
  }

  /** Which responses a repeat request will replay: those that passed every guard and the strict check. */
  predicate Heard(env: Env, t: Desk, msg: Message, now: real) {
    var v := Guards(env, Arrival(env, t, now).m, Promote(t.m, msg));
    v.Passed? && !StrictRejects(env, v.m, v.msg)
  }

  lemma ResponseOnFile(env: Env, t: Desk, msg: Message, now: real)
    ensures var (t', resp) := Process(env, t, msg, now);
      t'.m.towerResponse == if Heard(env, t, msg, now) && resp.text != "" then resp.text else t.m.towerResponse
  {
    hide Guards, StrictRejects, Answer, AnswerClearance, Corrective, Evolves, LeaveAirport, Hooks;
  }

  /** The restore was refused because frames moved the counter on.  The clearance nobody heard is still
      on file, and asking for it again returns it verbatim, with the state and the owed readback as they
      are unless that very call meets a new airport. */
  lemma UnheardClearanceIsRepeated(env: Env, t: Desk, msg: Message, now: real, frames: seq<Step>, snapshots: seq<Machine>,
                                   env2: Env, ask: Message, later: real)
    requires Heard(env, t, msg, now) && Process(env, t, msg, now).1.text != ""
    requires AllFrames(frames)
    requires ask.intent.RequestRepeat?
    ensures var (t1, resp) := Process(env, t, msg, now);
      var t2 := Run(World(t1, snapshots, now), frames).desk;
      var (t3, answer) := Process(env2, t2, ask, later);
      && t2.m.clearanceText == t1.m.clearanceText && t2.m.clearance == t1.m.clearance
      && answer.text == resp.text
      && (!Dropped(t2, env2.ctx.nearestAirport) ==>
            t3.m == t2.m.(lastNow := later) && answer.nextState == t2.m.state
            && answer.requiresReadback == t2.m.readbackPending)
  {
    hide Run, Process, FrameOnly, Heard;
    var (t1, resp) := Process(env, t, msg, now);
    ResponseOnFile(env, t, msg, now);
    FramesKeepClearance(World(t1, snapshots, now), frames);
    RepeatAnswers(env2, Run(World(t1, snapshots, now), frames).desk, ask, later);
  }

  lemma RepeatAnswers(env: Env, t: Desk, ask: Message, now: real)
    requires ask.intent.RequestRepeat? && t.m.towerResponse != ""
    ensures var (u, answer) := Process(env, t, ask, now);
      && answer.text == t.m.towerResponse
      && (!Dropped(t, env.ctx.nearestAirport) ==>
            u.m == t.m.(lastNow := now) && answer.nextState == t.m.state
            && answer.requiresReadback == t.m.readbackPending)
  {
    hide LeaveAirport, MidGuards, Correct, Addressee;
  }

  /** A repeat right after a transmission returns its text if it was heard, else the text that was on
      file before, which is the same only by coincidence. */
  lemma RepeatReplaysIff(env: Env, t: Desk, msg: Message, now: real, env2: Env, ask: Message, later: real)
    requires ask.intent.RequestRepeat?
    ensures var (t1, resp) := Process(env, t, msg, now);
      var answer := Process(env2, t1, ask, later).1;
      && (Heard(env, t, msg, now) && resp.text != "" ==> answer.text == resp.text)
      && (!(Heard(env, t, msg, now) && resp.text != "") && t.m.towerResponse != "" ==>
            (answer.text == resp.text <==> resp.text == t.m.towerResponse))
      && (!(Heard(env, t, msg, now) && resp.text != "") && t.m.towerResponse == "" ==>
            answer.text == Addressee(env2, t1.m, ask) + NOTHING_TO_REPEAT)
  {
    hide Process, Heard, Addressee;
    ResponseOnFile(env, t, msg, now);
    var t1 := Process(env, t, msg, now).0;
    if t1.m.towerResponse != "" { RepeatAnswers(env2, t1, ask, later); } else { NothingToRepeat(env2, t1, ask, later); }
  }

  lemma NothingToRepeat(env: Env, t: Desk, ask: Message, now: real)
    requires ask.intent.RequestRepeat? && t.m.towerResponse == ""
    ensures Process(env, t, ask, now).1.text == Addressee(env, t.m, ask) + NOTHING_TO_REPEAT
  {
    hide KeepsClearance, MidGuards, Correct, NOTHING_TO_REPEAT, Respond, Promote;
    var a := Arrival(env, t, now);
    assert a.m.towerResponse == "" && a.m.sessionCallsign == t.m.sessionCallsign by { ArrivalKeepsCallsign(t, env.ctx.nearestAirport, now); }
    assert Promote(t.m, ask) == ask by { RepeatIsNotPromoted(t.m, ask); }
  }

  lemma ArrivalKeepsCallsign(t: Desk, nearest: string, now: real)
    ensures var m := CheckAirportChange(t, nearest, now).m;
      m.towerResponse == t.m.towerResponse && m.sessionCallsign == t.m.sessionCallsign
  {
    hide LeaveAirport, Evolves;
  }

  lemma RepeatIsNotPromoted(m: Machine, ask: Message)
    requires ask.intent.RequestRepeat?
    ensures Promote(m, ask) == ask
  {
  }

  /** A towered field without any rule tables, its initial calls to be complete. */
  const BARE := Env(Rules([], [], NoHint, map[], map[], map[], map[], map[], map[], map[]),
                    Settings("DE", false, "", false, "", 1.0),
                    Context(true, false, true, Ground, "", "", false, 0.0, FlightPhase.Parked), map[], _ => "",
                    ["position"], [], (cs, missing) => "Erbitte Position", NoSequencing, (e, said) => "",
                    Bzf.Phrases("", "", "", e => ""))

  const CALL := Message(InitialCallGround, "", "", "", "")
  const ASK := Message(RequestRepeat, "", "", "", "")

  lemma BareLateGuards(m: Machine)
    requires m.state.Idle? && !m.wasAirborne
    ensures var v := LateGuards(BARE, m, CALL);
      v.Answered? && v.m == m && v.resp.text == "Erbitte Position"
  {
    hide Say, KeepsClearance, SpokenCallsign;
    assert RedirectIndex(BARE, CALL) == 0;
    assert Rejection(BARE, CALL) == "";
    assert Enforced(BARE) == ["position"];
  }

  lemma BareGuards(m: Machine)
    requires m.state.Idle? && !m.wasAirborne
    ensures var v := Guards(BARE, m, CALL);
      v.Answered? && v.m == m && v.resp.text == "Erbitte Position"
  {
    hide Say, KeepsClearance, SpokenCallsign, LateGuards, AdvisoryFlow;
    assert RevertIndex(BARE, m, CALL) == 0;
    assert FreqCorrectionIndex(BARE, m) == 0;
    BareLateGuards(m);
  }

  lemma BareCall(now: real)
    ensures var (t, resp) := Process(BARE, START.desk, CALL, now);
      t.m == FRESH.(lastNow := now) && resp.text == "Erbitte Position"
  {
    hide Guards, Respond, LeaveAirport, Evolves;
    BareGuards(FRESH.(lastNow := now));
    assert Arrival(BARE, START.desk, now) == Desk(FRESH.(lastNow := now), "");
    assert Promote(FRESH, CALL) == CALL;
  }

  /** The very first call lacks its position; the tower asks for it, and cannot repeat what it asked. */
  lemma GuardAnswerIsNotRepeated(now: real, later: real)
    ensures var (t, resp) := Process(BARE, START.desk, CALL, now);
      resp.text == "Erbitte Position" && Process(BARE, t, ASK, later).1.text == NOTHING_TO_REPEAT
  {
    hide NOTHING_TO_REPEAT, Process;
    BareCall(now);
    var t := Process(BARE, START.desk, CALL, now).0;
    NothingToRepeat(BARE, t, ASK, later);
    assert Addressee(BARE, t.m, ASK) == "";
    assert "" + NOTHING_TO_REPEAT == NOTHING_TO_REPEAT;
  }

  // ── Strict readback ───────────────────────────────────────────────

  datatype Attempt = Attempt(env: Env, msg: Message, at: real)

  predicate StrictReadback(a: Attempt) { German(a.env) && a.env.settings.strict && a.msg.intent.Readback? }

  function Attempts(t: Desk, tries: seq<Attempt>): Desk
    decreases |tries|
  {
    if tries == [] then t else Attempts(Process(tries[0].env, t, tries[0].msg, tries[0].at).0, tries[1..])
  }

  /** A rejected retry only re-arms the obligation, so the next one meets the same clearance. */
  lemma RejectedRetry(env: Env, m: Machine, msg: Message)
    requires Examined(env, m, msg)
    ensures var (n, resp) := Respond(env, m, msg);
      && (!Bzf.Complete(m.clearance, msg.transcript) ==>
            n == m.(readbackPending := true, gen := m.gen + 1) && resp.nextState == m.state && resp.requiresReadback)
      && (Bzf.Complete(m.clearance, msg.transcript) ==>
            !n.readbackPending && n.clearanceText == "" && n.clearance == Bzf.NO_CLEARANCE)
  {
    hide Hooks, Answer, AnswerClearance, Evolves, Bzf.DiffReadback, Bzf.Conformant, Bzf.Complete, Bzf.BuildCorrection;
    Bzf.ConformantIsComplete(env.stated, m.clearance, msg.transcript);
  }

  lemma ReadbackStaysReadback(env: Env, m: Machine, msg: Message)
    requires msg.intent.Readback?
    ensures var v := Guards(env, m, msg); v.Passed? ==> v.msg == msg
  {
    hide Say, KeepsClearance, Rejection, Enforced, ApplyStateReverts, ApplyFrequencyValidity, ApplyFrequencyCorrections,
         AdvisoryFlow, HintTemplate, SetWasAirborne, RedirectIndex, SpokenCallsign;
  }

  lemma IncompleteKeepsClearance(t: Desk, a: Attempt)
    requires StrictReadback(a) && t.m.clearanceText != "" && !Bzf.Complete(t.m.clearance, a.msg.transcript)
    ensures SameClearance(t.m, Process(a.env, t, a.msg, a.at).0.m)
  {
    hide Respond, Guards, LeaveAirport, Evolves, Bzf.Complete;
    var m := Arrival(a.env, t, a.at).m;
    assert SameClearance(t.m, m);
    assert Promote(t.m, a.msg) == a.msg;
    ReadbackStaysReadback(a.env, m, a.msg);
    var v := Guards(a.env, m, a.msg);
    if v.Passed? { RejectedRetry(a.env, v.m, a.msg); }
  }

  /** However often an incomplete readback is tried, whatever the guards answer in between, the
      clearance it is judged against and the response on file stay what they were. */
  lemma {:induction false} ClearanceOutlivesAttempts(t: Desk, tries: seq<Attempt>)
    requires t.m.clearanceText != ""
    requires forall i :: 0 <= i < |tries| ==>
      StrictReadback(tries[i]) && !Bzf.Complete(t.m.clearance, tries[i].msg.transcript)
    ensures SameClearance(t.m, Attempts(t, tries).m)
    decreases |tries|
  {
    hide Process, StrictReadback, Bzf.Complete;
    if tries != [] {
      IncompleteKeepsClearance(t, tries[0]);
      var u := Process(tries[0].env, t, tries[0].msg, tries[0].at).0;
      assert forall i :: 0 <= i < |tries| - 1 ==> tries[1..][i] == tries[i + 1];
      ClearanceOutlivesAttempts(u, tries[1..]);
    }
  }

  /** After any number of incomplete readbacks, the next one that passes the guards is accepted if and
      only if it is complete with respect to the original clearance. */
  lemma AcceptedIffComplete(t: Desk, tries: seq<Attempt>, last: Attempt)
    requires t.m.clearanceText != ""
    requires forall i :: 0 <= i < |tries| ==>
      StrictReadback(tries[i]) && !Bzf.Complete(t.m.clearance, tries[i].msg.transcript)
    requires StrictReadback(last)
    requires Guards(last.env, Arrival(last.env, Attempts(t, tries), last.at).m, last.msg).Passed?
    ensures var (u, resp) := Process(last.env, Attempts(t, tries), last.msg, last.at);
      && (Bzf.Complete(t.m.clearance, last.msg.transcript) ==> !u.m.readbackPending && u.m.clearanceText == "")
      && (!Bzf.Complete(t.m.clearance, last.msg.transcript) ==>
            u.m.readbackPending && u.m.clearanceText == t.m.clearanceText && resp.requiresReadback)
  {
    hide Respond, Guards, LeaveAirport, Evolves, Bzf.Complete, Attempts;
    ClearanceOutlivesAttempts(t, tries);
    var d := Attempts(t, tries);
    var m := Arrival(last.env, d, last.at).m;
    assert Promote(d.m, last.msg) == last.msg;
    ReadbackStaysReadback(last.env, m, last.msg);
    RejectedRetry(last.env, Guards(last.env, m, last.msg).m, last.msg);
  }
}
