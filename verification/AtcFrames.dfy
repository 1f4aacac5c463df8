/** What runs between the pilot's words and the answer: which frames leave their mark on the record,
    what a restore therefore undoes, how the correction timer fares, and what late timestamps hide. */
module AtcFrames {
  import opened AtcState
  import opened AtcPipeline
  import opened AtcGuard
  import FlightPhase

  // ── Frames ────────────────────────────────────────────────────────

  predicate FrameOnly(s: Step) { s.act.CorrectionFrame? || s.act.AirportFrame? || s.act.AirborneFlag? }

  predicate AllFrames(steps: seq<Step>) { forall i :: 0 <= i < |steps| ==> FrameOnly(steps[i]) }

  /** The rule a correction frame meets, if any: the state has a table and some phase list matches. */
  predicate Meets(rules: Rules, m: Machine, phase: FlightPhase.Phase) {
    !Uncorrected(rules, m) && CorrectionIndex(rules, m, phase) < |CorrectionRules(rules, m)|
  }

  function Met(rules: Rules, m: Machine, phase: FlightPhase.Phase): AutoCorrection
    requires Meets(rules, m, phase)
  {
    CorrectionRules(rules, m)[CorrectionIndex(rules, m, phase)]
  }

  /** The delay is over in this frame. */
  predicate Due(rules: Rules, factor: real, m: Machine, phase: FlightPhase.Phase, dt: real) {
    Meets(rules, m, phase) && TimeOn(m, Met(rules, m, phase), dt) >= Delay(Met(rules, m, phase), factor)
  }

  /** A correction or airport frame that leaves a mark: the rule is due and leads elsewhere or cancels
      an owed readback, or the airport changed en route. */
  predicate Fires(t: Desk, act: Action) {
    match act
    case CorrectionFrame(rules, factor, phase, dt) =>
      Due(rules, factor, t.m, phase, dt)
      && (StateFromName(Met(rules, t.m, phase).nextState) != t.m.state || t.m.readbackPending)
    case AirportFrame(nearest) => Dropped(t, nearest)
    case _ => false
  }

  function FlagAfter(b: bool, act: Action): bool { if act.AirborneFlag? then act.v else b }

  /** Progress that no frame takes back. */
  predicate Marks(m: Machine, n: Machine) {
    |m.log| < |n.log| || (|m.log| == |n.log| && m.readbackPending && !n.readbackPending)
  }

  lemma ClockIsNoRule(rules: Rules, m: Machine, phase: FlightPhase.Phase, dt: real, now: real)
    ensures CurrentName(m.(lastNow := now)) == CurrentName(m)
    ensures Uncorrected(rules, m.(lastNow := now)) == Uncorrected(rules, m)
    ensures CorrectionRules(rules, m.(lastNow := now)) == CorrectionRules(rules, m)
    ensures CorrectionIndex(rules, m.(lastNow := now), phase) == CorrectionIndex(rules, m, phase)
    ensures forall c :: CorrectionKey(m.(lastNow := now), c) == CorrectionKey(m, c)
    ensures forall c :: TimeOn(m.(lastNow := now), c, dt) == TimeOn(m, c, dt)
  {
  }

  /** A correction frame is one tick of the rule it meets. */
  lemma FrameTicks(rules: Rules, factor: real, m: Machine, phase: FlightPhase.Phase, dt: real, now: real)
    ensures var n := CheckAutoCorrection(rules, factor, m, phase, dt, now);
      && (Meets(rules, m, phase) ==> n == TickCorrection(m.(lastNow := now), Met(rules, m, phase), factor, dt))
      && (!Meets(rules, m, phase) ==> Semantic(n) == Semantic(m) && n.gen == m.gen)
  {
    hide CurrentName, CorrectionIndex, CorrectionRules, Uncorrected, TickCorrection, CorrectionKey, TimeOn;
    ClockIsNoRule(rules, m, phase, dt, now);
  }

  lemma CorrectionShows(m: Machine, c: AutoCorrection)
    ensures var n := ApplyCorrection(m, c);
      if StateFromName(c.nextState) != m.state || m.readbackPending then Marks(m, n) && n.wasAirborne == m.wasAirborne
      else m.state.Idle? || Semantic(n) == Semantic(m)
  {
    hide KeepsClearance, Evolves, SameClearance, WellShaped, Ordered, ClearanceSound, Advances, StateFromName, Tail, CurrentName;
    var next := StateFromName(c.nextState);
    var a := TransitionTo(m, next, "auto_correction:" + c.name);
    assert |a.log| == if next == m.state then |m.log| else |m.log| + 1;
    assert a.wasAirborne == m.wasAirborne;
  }

  /** What a rule that is due does to the record. */
  lemma FiringShows(m: Machine, c: AutoCorrection, factor: real, dt: real)
    requires TimeOn(m, c, dt) >= Delay(c, factor)
    ensures var n := TickCorrection(m, c, factor, dt);
      if StateFromName(c.nextState) != m.state || m.readbackPending then Marks(m, n) && n.wasAirborne == m.wasAirborne
      else m.state.Idle? || Semantic(n) == Semantic(m)
  {
    hide KeepsClearance, StateFromName, CorrectionKey, Delay, TimeOn, ApplyCorrection, SameClearance;
    var ticked := m.(correctionKey := CorrectionKey(m, c), correctionTimer := TimeOn(m, c, dt));
    CorrectionShows(ticked, c);
  }

  /** What one frame does: it leaves a mark if it fires, else nothing but the airborne flag it carries. */
  lemma FrameLeaves(w: World, s: Step)
    requires FrameOnly(s)
    ensures var m, n := w.desk.m, Do(w, s).desk.m;
      && (Fires(w.desk, s.act) ==> Marks(m, n))
      && (!Fires(w.desk, s.act) ==> Semantic(n) == Semantic(m).(wasAirborne := FlagAfter(m.wasAirborne, s.act)))
  {
    hide CheckAutoCorrection, Meets, Met, TickCorrection, StateFromName, CurrentName, TimeOn, Delay, Marks, SetWasAirborne,
         Process, Latch, Disregard, SetState, Init, Reset, KeepsClearance, SameClearance, LeaveAirport;
    var m := w.desk.m;
    match s.act
    case CorrectionFrame(rules, factor, phase, dt) => CorrectionFrameLeaves(rules, factor, m, phase, dt, s.at);
    case AirportFrame(nearest) => AirportFrameLeaves(w.desk, nearest, s.at);
    case AirborneFlag(v) =>
  }

  lemma AirportFrameLeaves(t: Desk, nearest: string, now: real)
    ensures var n := CheckAirportChange(t, nearest, now).m;
      && (Dropped(t, nearest) ==> Marks(t.m, n))
      && (!Dropped(t, nearest) ==> Semantic(n) == Semantic(t.m))
  {
    hide KeepsClearance, LeaveAirport;
  }

  lemma CorrectionFrameLeaves(rules: Rules, factor: real, m: Machine, phase: FlightPhase.Phase, dt: real, now: real)
    ensures var n := CheckAutoCorrection(rules, factor, m, phase, dt, now);
      if Due(rules, factor, m, phase, dt)
         && (StateFromName(Met(rules, m, phase).nextState) != m.state || m.readbackPending)
      then Marks(m, n) else Semantic(n) == Semantic(m)
  {
    hide CheckAutoCorrection, TickCorrection, StateFromName, CurrentName, Delay, SameClearance, CorrectionKey,
         CorrectionRules, CorrectionIndex;
    FrameTicks(rules, factor, m, phase, dt, now);
    if Meets(rules, m, phase) {
      var c := Met(rules, m, phase);
      assert TimeOn(m.(lastNow := now), c, dt) == TimeOn(m, c, dt) by { ClockIsNoRule(rules, m, phase, dt, now); }
      if TimeOn(m, c, dt) >= Delay(c, factor) { FiringShows(m.(lastNow := now), c, factor, dt); }
    }
  }

  /** One frame goes unseen exactly when its own guard holds. */
  lemma FrameUnseenIff(w: World, s: Step)
    requires FrameOnly(s)
    ensures Semantic(Do(w, s).desk.m) == Semantic(w.desk.m) <==>
      match s.act
      case AirborneFlag(v) => v == w.desk.m.wasAirborne
      case AirportFrame(nearest) => !Dropped(w.desk, nearest)
      case CorrectionFrame(rules, factor, phase, dt) =>
        !Due(rules, factor, w.desk.m, phase, dt)
        || (StateFromName(Met(rules, w.desk.m, phase).nextState) == w.desk.m.state && !w.desk.m.readbackPending)
      case _ => true
  {
    hide Do, Due, Met, StateFromName, Dropped;
    FrameLeaves(w, s);
    var m, n := w.desk.m, Do(w, s).desk.m;
    assert Semantic(n) == Semantic(m) ==>
      n.log == m.log && n.readbackPending == m.readbackPending && n.wasAirborne == m.wasAirborne;
    assert Semantic(m).wasAirborne == m.wasAirborne;
  }

  // ── Runs of frames ────────────────────────────────────────────────

  predicate FiresIn(w: World, steps: seq<Step>)
    decreases |steps|
  {
    steps != [] && (Fires(w.desk, steps[0].act) || FiresIn(Do(w, steps[0]), steps[1..]))
  }

  function FlagAfterAll(b: bool, steps: seq<Step>): bool
    decreases |steps|
  {
    if steps == [] then b else FlagAfterAll(FlagAfter(b, steps[0].act), steps[1..])
  }

  lemma {:induction false} FramesLeave(w: World, frames: seq<Step>)
    requires AllFrames(frames)
    ensures var m, n := w.desk.m, Run(w, frames).desk.m;
      && (FiresIn(w, frames) ==> Marks(m, n))
      && (!FiresIn(w, frames) ==> Semantic(n) == Semantic(m).(wasAirborne := FlagAfterAll(m.wasAirborne, frames)))
      && (|m.log| < |n.log| || (|m.log| == |n.log| && (n.readbackPending ==> m.readbackPending)))
    decreases |frames|
  {
    hide Do, Fires, FrameOnly, FlagAfter;
    if frames != [] {
      assert FrameOnly(frames[0]);
      FrameLeaves(w, frames[0]);
      FramesLeave(Do(w, frames[0]), frames[1..]);
    }
  }

  /** A run of frames leaves the record semantically as it was if and only if no correction and no
      airport change fired and the airborne flag ended where it began. */
  lemma FramesUnseenIff(w: World, frames: seq<Step>)
    requires AllFrames(frames)
    ensures Semantic(Run(w, frames).desk.m) == Semantic(w.desk.m) <==>
      !FiresIn(w, frames) && FlagAfterAll(w.desk.m.wasAirborne, frames) == w.desk.m.wasAirborne
  {
    hide Run, FiresIn, FlagAfterAll, FrameOnly;
    FramesLeave(w, frames);
    var m, n := w.desk.m, Run(w, frames).desk.m;
    assert Semantic(n) == Semantic(m) ==>
      n.log == m.log && n.readbackPending == m.readbackPending && n.wasAirborne == m.wasAirborne;
    assert Semantic(m).wasAirborne == m.wasAirborne;
  }

  // ── Undo ──────────────────────────────────────────────────────────

  /** The capture comes first, then the intent latch; on the language-model path frames follow before
      process() runs, on the direct path none.  `heard` is the message finally acted on.  A restore that
      succeeds, however much later, finds the machine as process() left it, and gives what it would be
      had the pilot not spoken if and only if none of those frames fired and the airborne flag is back. */
  lemma UndoIsExact(w: World, msg: Message, frames: seq<Step>, env: Env, heard: Message, now: real, later: seq<Step>)
    requires AllFrames(frames)
    ensures var waiting := Run(Do(w, Step(LatchIntent(msg), w.clock)), frames);
      var answered := Do(waiting, Step(Speak(env, heard), now));
      var end := Run(answered, later).desk.m;
      var silent := Run(w, frames).desk.m;
      var (m, ok) := RestoreIfGen(end, w.desk.m, answered.desk.m.gen);
      && (ok ==> Semantic(end) == Semantic(answered.desk.m))
      && (ok ==> (Semantic(m) == Semantic(silent) <==>
            !FiresIn(w, frames) && FlagAfterAll(w.desk.m.wasAirborne, frames) == w.desk.m.wasAirborne))
  {
    hide Run, Do, FiresIn, FlagAfterAll, FrameOnly;
    var waiting := Run(Do(w, Step(LatchIntent(msg), w.clock)), frames);
    var answered := Do(waiting, Step(Speak(env, heard), now));
    RunAdvances(answered, later);
    FramesUnseenIff(w, frames);
  }

  /** In particular on the direct path, where nothing runs in between, the exchange is undone exactly. */
  lemma DirectExchangeIsUndone(w: World, env: Env, msg: Message, now: real, later: seq<Step>)
    ensures var answered := Exchange(env, w.desk, msg, now).0;
      var end := Run(World(answered, w.snapshots, now), later).desk.m;
      var (m, ok) := RestoreIfGen(end, w.desk.m, answered.m.gen);
      ok ==> Semantic(end) == Semantic(answered.m) && Semantic(m) == Semantic(w.desk.m)
  {
    hide Run, Exchange;
    RunAdvances(World(Exchange(env, w.desk, msg, now).0, w.snapshots, now), later);
  }

  /** Whatever ran between: if the counter still stood at the captured value, the restore is exact. */
  lemma UnmovedCounterIsUndone(w: World, between: seq<Step>, env: Env, msg: Message, now: real, later: seq<Step>)
    requires Run(w, between).desk.m.gen == w.desk.m.gen
    ensures var before := Run(w, between);
      var answered := Do(before, Step(Speak(env, msg), now));
      var (m, ok) := RestoreIfGen(Run(answered, later).desk.m, w.desk.m, answered.desk.m.gen);
      ok ==> Semantic(m) == Semantic(before.desk.m)
  {
    hide Run, Do;
    RunAdvances(w, between);
  }

  /** An airborne flag set while the engine waits is lost, whatever was said and answered. */
  lemma FrameBeforeExchangeIsUndone(w: World, msg: Message, at: real, env: Env, heard: Message, now: real)
    requires !w.desk.m.wasAirborne
    ensures var waiting := Do(Do(w, Step(LatchIntent(msg), w.clock)), Step(AirborneFlag(true), at));
      var answered := Do(waiting, Step(Speak(env, heard), now)).desk.m;
      var (m, ok) := RestoreIfGen(answered, w.desk.m, answered.gen);
      waiting.desk.m.wasAirborne && ok && !m.wasAirborne
  {
    hide Process, Latch, KeepsClearance;
  }

  // ── Snapshots ─────────────────────────────────────────────────────

  lemma {:induction false} SnapshotsStay(w: World, steps: seq<Step>)
    ensures w.snapshots <= Run(w, steps).snapshots
    decreases |steps|
  {
    hide DeskAfter;
    if steps != [] { SnapshotsStay(Do(w, steps[0]), steps[1..]); }
  }

  /** A capture followed by anything at all and a restore with the current counter brings back the
      captured record, under a counter nobody has seen. */
  lemma CaptureThenRestore(w: World, at: real, steps: seq<Step>, now: real)
    ensures var v := Run(Do(w, Step(Capture, at)), steps);
      var m := Do(v, Step(Restore(|w.snapshots|, v.desk.m.gen), now)).desk.m;
      m.(gen := w.desk.m.gen) == w.desk.m && m.gen > v.desk.m.gen >= w.desk.m.gen
  {
    hide Run, RestoreIfGen;
    SnapshotsStay(Do(w, Step(Capture, at)), steps);
    RunAdvances(Do(w, Step(Capture, at)), steps);
  }

  // ── The correction timer over separate visits ─────────────────────

  /** Everything but a restore and a frame in a state with rules leaves key and timer alone: pilot
      messages, forced states, disregard, even stop and start. */
  predicate LeavesTimer(w: World, s: Step) {
    !s.act.Restore? && (s.act.CorrectionFrame? ==> Uncorrected(s.act.rules, w.desk.m))
  }

  predicate AllLeaveTimer(w: World, steps: seq<Step>)
    decreases |steps|
  {
    steps == [] || (LeavesTimer(w, steps[0]) && AllLeaveTimer(Do(w, steps[0]), steps[1..]))
  }

  predicate SameTimer(m: Machine, n: Machine) {
    m.correctionKey == n.correctionKey && m.correctionTimer == n.correctionTimer
  }

  lemma StepKeepsTimer(w: World, s: Step)
    requires LeavesTimer(w, s)
    ensures SameTimer(w.desk.m, Do(w, s).desk.m)
  {
    hide Process, CheckAirportChange, CheckAutoCorrection, Latch, SetState, SetWasAirborne, Init, Reset,
         WellShaped, Ordered, ClearanceSound, SameClearance, Advances;
    var m := w.desk.m;
    match s.act
    case Speak(env, msg) => MessageKeepsTimer(env, w.desk, msg, s.at);
    case CorrectionFrame(rules, factor, phase, dt) => EarlyReturnKeepsTimer(rules, factor, m, phase, dt, s.at);
    case AirportFrame(nearest) => ArrivalKeepsTimer(w.desk, nearest, s.at);
    case DisregardPressed(ctx) => DisregardKeepsTimer(ctx, m, s.at);
    case _ =>
  }

  lemma ArrivalKeepsTimer(t: Desk, nearest: string, now: real)
    ensures SameTimer(t.m, CheckAirportChange(t, nearest, now).m)
  {
    hide WellShaped, Ordered, ClearanceSound, SameClearance, Advances, LeaveAirport;
  }

  lemma DisregardKeepsTimer(ctx: Context, m: Machine, now: real)
    ensures SameTimer(m, Disregard(ctx, m, now))
  {
    hide WellShaped, Ordered, ClearanceSound, SameClearance, Advances, TransitionTo;
  }

  lemma {:induction false} RunKeepsTimer(w: World, steps: seq<Step>)
    requires AllLeaveTimer(w, steps)
    ensures SameTimer(w.desk.m, Run(w, steps).desk.m)
    decreases |steps|
  {
    hide Do, LeavesTimer;
    if steps != [] {
      StepKeepsTimer(w, steps[0]);
      RunKeepsTimer(Do(w, steps[0]), steps[1..]);
    }
  }

  /** Meets rule `c` under the given key. */
  predicate Visits(s: Step, m: Machine, c: AutoCorrection) {
    s.act.CorrectionFrame? && Meets(s.act.rules, m, s.act.phase) && Met(s.act.rules, m, s.act.phase) == c
  }

  lemma VisitTicks(w: World, s: Step, c: AutoCorrection)
    requires Visits(s, w.desk.m, c)
    ensures var n, due := Do(w, s).desk.m, TimeOn(w.desk.m, c, s.act.dt) >= Delay(c, s.act.factor);
      && (due ==> n.gen > w.desk.m.gen && n.state == StateFromName(c.nextState) && n.correctionKey == "")
      && (!due ==> n.gen == w.desk.m.gen && Semantic(n) == Semantic(w.desk.m)
                   && n.correctionKey == CorrectionKey(w.desk.m, c)
                   && n.correctionTimer == TimeOn(w.desk.m, c, s.act.dt))
  {
    hide CheckAutoCorrection, TickCorrection, CurrentName, Delay, SameClearance, CorrectionKey, CorrectionRules,
         CorrectionIndex, StateFromName, Meets, Met;
    var act, m := s.act, w.desk.m;
    FrameTicks(act.rules, act.factor, m, act.phase, act.dt, s.at);
    ClockIsNoRule(act.rules, m, act.phase, act.dt, s.at);
    var later := m.(lastNow := s.at);
    assert CorrectionKey(later, c) == CorrectionKey(m, c) && TimeOn(later, c, act.dt) == TimeOn(m, c, act.dt);
  }

  /** Time adds up over separate visits to the same state and rule, whatever the pilot and the program
      do in between short of a restore or a frame in another state with rules: the second visit fires
      the rule if and only if both together have lasted its delay. */
  lemma VisitsAddUp(w: World, first: Step, between: seq<Step>, second: Step, c: AutoCorrection)
    requires Visits(first, w.desk.m, c) && TimeOn(w.desk.m, c, first.act.dt) < Delay(c, first.act.factor)
    requires AllLeaveTimer(Do(w, first), between)
    requires var v := Run(Do(w, first), between).desk.m;
      Visits(second, v, c) && CorrectionKey(v, c) == CorrectionKey(w.desk.m, c)
    ensures var v := Run(Do(w, first), between);
      var n := Do(v, second).desk.m;
      && (n.gen > v.desk.m.gen <==> TimeOn(w.desk.m, c, first.act.dt) + second.act.dt >= Delay(c, second.act.factor))
      && (n.gen > v.desk.m.gen ==> n.state == StateFromName(c.nextState))
  {
    hide Run, Do, Visits, AllLeaveTimer, Delay, CorrectionKey, StateFromName;
    var v := Run(Do(w, first), between);
    VisitTicks(w, first, c);
    RunKeepsTimer(Do(w, first), between);
    VisitTicks(v, second, c);
  }

  /** With rules for the state but none for the phase the timer is cleared. */
  lemma NoRuleClears(w: World, s: Step)
    requires s.act.CorrectionFrame? && !Uncorrected(s.act.rules, w.desk.m) && !Meets(s.act.rules, w.desk.m, s.act.phase)
    ensures var n := Do(w, s).desk.m; n.correctionKey == "" && n.correctionTimer == 0.0
  {
    hide TickCorrection, CurrentName, CorrectionIndex, CorrectionRules, Uncorrected;
    ClockIsNoRule(s.act.rules, w.desk.m, s.act.phase, s.act.dt, s.at);
  }

  /** What a frame in a state with rules leaves on the timer for the rule with this key: its time, if it
      met that rule and did not fire it; nothing if it fired it, met another rule, or met none. */
  function Carried(m: Machine, s: Step, key: string): real
    requires s.act.CorrectionFrame?
  {
    var act := s.act;
    if !Meets(act.rules, m, act.phase) then 0.0
    else
      var c := Met(act.rules, m, act.phase);
      if CorrectionKey(m, c) == key && TimeOn(m, c, act.dt) < Delay(c, act.factor) then TimeOn(m, c, act.dt) else 0.0
  }

  lemma FrameCarries(w: World, s: Step, n: Machine, c: AutoCorrection, dt: real)
    requires s.act.CorrectionFrame? && !Uncorrected(s.act.rules, w.desk.m) && SameTimer(Do(w, s).desk.m, n)
    ensures TimeOn(n, c, dt) == Carried(w.desk.m, s, CorrectionKey(n, c)) + dt
  {
    hide Do, CorrectionKey, Delay, Met, Meets, Uncorrected;
    KeyIsNotEmpty(n, c);
    if Meets(s.act.rules, w.desk.m, s.act.phase) {
      VisitTicks(w, s, Met(s.act.rules, w.desk.m, s.act.phase));
    } else {
      NoRuleClears(w, s);
    }
  }

  /** Both sides at once: between the last frame in a state with rules and the next visit anything may
      happen short of a restore, and the visit fires its rule if and only if what that frame carried
      over and the visit's own time together reach the delay. */
  lemma NextVisitIff(w: World, first: Step, between: seq<Step>, second: Step, c: AutoCorrection)
    requires first.act.CorrectionFrame? && !Uncorrected(first.act.rules, w.desk.m)
    requires AllLeaveTimer(Do(w, first), between)
    requires Visits(second, Run(Do(w, first), between).desk.m, c)
    ensures var v := Run(Do(w, first), between);
      Do(v, second).desk.m.gen > v.desk.m.gen <==>
      Carried(w.desk.m, first, CorrectionKey(v.desk.m, c)) + second.act.dt >= Delay(c, second.act.factor)
  {
    hide Run, Do, Meets, Met, AllLeaveTimer, Delay, CorrectionKey, Uncorrected, Carried, TimeOn;
    var v := Run(Do(w, first), between);
    RunKeepsTimer(Do(w, first), between);
    FrameCarries(w, first, v.desk.m, c, second.act.dt);
    VisitTicks(v, second, c);
  }

  /** So after a frame under another key, or one that met no rule, the next visit is judged alone. */
  lemma VisitJudgedAlone(w: World, first: Step, between: seq<Step>, second: Step, c: AutoCorrection)
    requires first.act.CorrectionFrame? && !Uncorrected(first.act.rules, w.desk.m)
    requires AllLeaveTimer(Do(w, first), between)
    requires Visits(second, Run(Do(w, first), between).desk.m, c)
    requires Meets(first.act.rules, w.desk.m, first.act.phase) ==>
      CorrectionKey(w.desk.m, Met(first.act.rules, w.desk.m, first.act.phase))
        != CorrectionKey(Run(Do(w, first), between).desk.m, c)
    ensures var v := Run(Do(w, first), between);
      Do(v, second).desk.m.gen > v.desk.m.gen <==> second.act.dt >= Delay(c, second.act.factor)
  {
    hide Run, Do, Visits, AllLeaveTimer, Delay, CorrectionKey, Uncorrected, TimeOn, Meets, Met;
    NextVisitIff(w, first, between, second, c);
  }

  lemma ForcedState(w: World, s: State, at: real)
    requires s != w.desk.m.state
    ensures var v := Do(w, Step(ForceState(s), at));
      && v.desk.m.state == s && SameTimer(w.desk.m, v.desk.m) && v.desk.m.lastNow == w.desk.m.lastNow
      && v.desk.m.log == w.desk.m.log + [HistoryEntry(w.desk.m.state, "external_set_state", w.desk.m.lastNow)]
      && (|w.desk.m.history| < HISTORY_CAP ==>
            v.desk.m.history == w.desk.m.history + [HistoryEntry(w.desk.m.state, "external_set_state", w.desk.m.lastNow)])
  {
    hide SetState, ClearanceSound, SameClearance, Advances, Tail, WellShaped, Ordered;
    if |w.desk.m.history| < HISTORY_CAP { ShortHistory(w.desk.m, s); }
  }

  /** In TAXI_CLEARED the table below has exactly one rule to offer. */
  predicate TaxiRule(rules: Rules, c: AutoCorrection, phase: FlightPhase.Phase) {
    "TAXI_CLEARED" in rules.autoCorrections && rules.autoCorrections["TAXI_CLEARED"] == [c]
    && phase in c.phases && c.delay == 10.0
  }

  lemma TaxiVisit(rules: Rules, c: AutoCorrection, phase: FlightPhase.Phase, m: Machine, at: real)
    requires TaxiRule(rules, c, phase) && m.state.TaxiCleared?
    ensures Visits(Step(CorrectionFrame(rules, 1.0, phase, 6.0), at), m, c)
    ensures CorrectionKey(m, c) == "TAXI_CLEARED:" + c.name && Delay(c, 1.0) == 10.0
  {
    assert CurrentName(m) == "TAXI_CLEARED";
    assert CorrectionRules(rules, m) == [c];
  }

  /** A minute in IDLE, between one visit to TAXI_CLEARED and the next. */
  function Away(rules: Rules, phase: FlightPhase.Phase): seq<Step> {
    [Step(ForceState(Idle), 6.0), Step(CorrectionFrame(rules, 1.0, phase, 60.0), 66.0), Step(ForceState(TaxiCleared), 66.0)]
  }

  lemma AwayInIdle(w: World, rules: Rules, phase: FlightPhase.Phase)
    requires w.desk.m.state.TaxiCleared?
    ensures AllLeaveTimer(w, Away(rules, phase)) && Run(w, Away(rules, phase)).desk.m.state.TaxiCleared?
  {
    hide SetState, CheckAutoCorrection, CurrentName, CorrectionIndex, CorrectionRules;
    var s1, s2, s3 := Away(rules, phase)[0], Away(rules, phase)[1], Away(rules, phase)[2];
    assert [s1, s2, s3][1..] == [s2, s3] && [s2, s3][1..] == [s3] && [s3][1..] == [];
    var w1 := Do(w, s1);
    ForcedState(w, Idle, 6.0);
    EarlyReturnKeepsTimer(rules, 1.0, w1.desk.m, phase, 60.0, 66.0);
    var w2 := Do(w1, s2);
    assert w2.desk.m.state.Idle?;
    ForcedState(w2, TaxiCleared, 66.0);
    var w3 := Do(w2, s3);
    assert Run(w, [s1, s2, s3]) == Run(w1, [s2, s3]) == Run(w2, [s3]) == Run(w3, []) == w3;
    assert AllLeaveTimer(w2, [s3]) && AllLeaveTimer(w1, [s2, s3]);
  }

  /** Two visits of six seconds, a minute in IDLE between them, fire a rule with a delay of ten. */
  lemma TwoShortVisitsFire(rules: Rules, c: AutoCorrection, phase: FlightPhase.Phase)
    requires TaxiRule(rules, c, phase)
    ensures var visit := CorrectionFrame(rules, 1.0, phase, 6.0);
      var once := Do(Do(START, Step(ForceState(TaxiCleared), 0.0)), Step(visit, 6.0));
      var again := Run(once, Away(rules, phase));
      var m := Do(again, Step(visit, 72.0)).desk.m;
      once.desk.m.state.TaxiCleared? && m.gen > again.desk.m.gen && m.state == StateFromName(c.nextState)
  {
    hide Do, Run, StateFromName, TaxiRule, Visits, AllLeaveTimer, CorrectionKey, Delay, Away;
    var visit := CorrectionFrame(rules, 1.0, phase, 6.0);
    var taxi := Do(START, Step(ForceState(TaxiCleared), 0.0));
    ForcedState(START, TaxiCleared, 0.0);
    TaxiVisit(rules, c, phase, taxi.desk.m, 6.0);
    KeyIsNotEmpty(taxi.desk.m, c);
    VisitTicks(taxi, Step(visit, 6.0), c);
    var once := Do(taxi, Step(visit, 6.0));
    assert Semantic(once.desk.m).state == once.desk.m.state;
    AwayInIdle(once, rules, phase);
    var away := Away(rules, phase);
    TaxiVisit(rules, c, phase, Run(once, away).desk.m, 72.0);
    VisitsAddUp(taxi, Step(visit, 6.0), away, Step(visit, 72.0), c);
  }

  // ── Histories the accessors misread ───────────────────────────────

  const HIDING := [HistoryEntry(Idle, "external_set_state", 0.0), HistoryEntry(LandingCleared, "external_set_state", 100.0),
                   HistoryEntry(PatternEntry, "negative_correction", 10.0)]

  /** A landing clearance given ten seconds ago is hidden behind an entry that seems older. */
  lemma LandingIsHidden()
    ensures InWindow(HIDING, LandingCleared, 30.0, 110.0) && !ReachedBack(HIDING, LandingCleared, 30.0, 110.0)
    ensures !EarlyExitExact(HIDING)
  {
    assert HIDING[1].state == LandingCleared && 110.0 - HIDING[1].at <= 30.0;
    assert 110.0 - HIDING[2].at > 30.0;
  }

  /** The language-model path hands process() the time the pilot spoke, here long before a frame that
      has already run.  Whatever the rules, the settings and the situation, the record then answers
      that no landing clearance was given within thirty seconds, ten seconds after it was. */
  lemma LateSpeechHidesLanding(env: Env, msg: Message)
    requires msg.intent.NegativeCorrection?
    ensures var steps := [Step(ForceState(LandingCleared), 0.0), Step(AirportFrame("EDDF"), 100.0),
                          Step(ForceState(PatternEntry), 100.0), Step(Speak(env, msg), 10.0)];
      Run(START, steps).desk.m.history == HIDING
  {
    hide SetState, CheckAirportChange, Process, WellShaped, Ordered, CurrentName, SameTimer, HIDING;
    var s1, s2, s3, s4 := Step(ForceState(LandingCleared), 0.0), Step(AirportFrame("EDDF"), 100.0),
                          Step(ForceState(PatternEntry), 100.0), Step(Speak(env, msg), 10.0);
    ForcedState(START, LandingCleared, 0.0);
    var w1 := Do(START, s1);
    assert w1.desk.m.history == [HistoryEntry(Idle, "external_set_state", 0.0)];
    QuietArrival(w1.desk, "EDDF", 100.0);
    var w2 := Do(w1, s2);
    assert w2.desk.m == w1.desk.m.(lastNow := 100.0);
    ForcedState(w2, PatternEntry, 100.0);
    var w3 := Do(w2, s3);
    assert w3.desk.m.history
      == [HistoryEntry(Idle, "external_set_state", 0.0), HistoryEntry(LandingCleared, "external_set_state", 100.0)];
    SpokenCorrection(env, w3.desk, msg, 10.0);
    RunFour(START, s1, s2, s3, s4);
    HidingIs();
  }

  lemma HidingIs()
    ensures [HistoryEntry(Idle, "external_set_state", 0.0), HistoryEntry(LandingCleared, "external_set_state", 100.0)]
      + [HistoryEntry(PatternEntry, "negative_correction", 10.0)] == HIDING
  {
  }

  lemma RunFour(w: World, s1: Step, s2: Step, s3: Step, s4: Step)
    ensures Run(w, [s1, s2, s3, s4]) == Do(Do(Do(Do(w, s1), s2), s3), s4)
  {
    hide Do;
    assert [s1, s2, s3, s4][1..] == [s2, s3, s4] && [s2, s3, s4][1..] == [s3, s4];
    assert [s3, s4][1..] == [s4] && [s4][1..] == [];
    var w1 := Do(w, s1);
    var w2 := Do(w1, s2);
    assert Run(w, [s1, s2, s3, s4]) == Run(w1, [s2, s3, s4]) == Run(w2, [s3, s4]) == Run(Do(w2, s3), [s4]);
  }

  lemma QuietArrival(t: Desk, nearest: string, now: real)
    requires !t.m.state.EnRoute?
    ensures CheckAirportChange(t, nearest, now).m == t.m.(lastNow := now)
  {
    hide LeaveAirport;
  }

  lemma SpokenCorrection(env: Env, t: Desk, msg: Message, now: real)
    requires msg.intent.NegativeCorrection? && t.m.state.PatternEntry? && |t.m.history| < HISTORY_CAP
    ensures Process(env, t, msg, now).0.m.history
      == t.m.history + [HistoryEntry(PatternEntry, "negative_correction", now)]
  {
    hide Guards, Respond, Evolves, CheckAirportChange;
    var m := t.m.(lastNow := now);
    QuietArrival(t, env.ctx.nearestAirport, now);
    CorrectionAnswers(env, m, msg);
    CorrectionIsLogged(env, m, msg);
  }

  lemma CorrectionAnswers(env: Env, m: Machine, msg: Message)
    requires msg.intent.NegativeCorrection?
    ensures Guards(env, m, msg).Answered? && Guards(env, m, msg).m == Correct(env, m, msg).0
  {
    hide MidGuards, Correct, KeepsClearance;
  }

  lemma CorrectionIsLogged(env: Env, m: Machine, msg: Message)
    requires m.state.PatternEntry? && |m.history| < HISTORY_CAP
    ensures Correct(env, m, msg).0.history == m.history + [HistoryEntry(PatternEntry, "negative_correction", m.lastNow)]
  {
    hide Say, KeepsClearance, CorrectionText;
  }

  /** A departure clearance that is current does not close the post-landing window. */
  lemma CurrentDepartureIgnored()
    ensures var m := Do(Do(START, Step(ForceState(LandingCleared), 0.0)), Step(ForceState(DepartureCleared), 60.0)).desk.m;
      m.state.DepartureCleared? && LandedSince(m) && !StillArrived(m)
  {
    hide SetState, WellShaped, Ordered;
    ForcedState(START, LandingCleared, 0.0);
    var w := Do(START, Step(ForceState(LandingCleared), 0.0));
    ForcedState(w, DepartureCleared, 60.0);
    var m := Do(w, Step(ForceState(DepartureCleared), 60.0)).desk.m;
    assert m.history[1].state == LandingCleared && |m.history| == 2;
    WindowExactIff(m);
  }
}
