/** The revert guard over whole runs: what a restore can meet, what it undoes, what a replay gives,
    and what stays on file when it is refused. */
module AtcGuard {
  import opened Replace
  import opened AtcState
  import opened AtcPipeline
  import FlightPhase
  import Text
  import Bzf

  // ── One exchange of the engine ────────────────────────────────────

  /** The flight intent named in this utterance is remembered before anything is decided. */
  function Latch(m: Machine, msg: Message): (n: Machine)
    ensures KeepsClearance(m, n) && n.state == m.state && n.log == m.log
  {
    if msg.destination != "" then SetFlightIntent(m, true, msg.destination)
    else if Contains(Text.LowerAll(msg.transcript), "platzrunde") then SetFlightIntent(m, false, "")
    else m
  }

  /** While a readback is owed, an utterance that covers its core is a readback, whatever the parser
      took it for. */
  function Recognise(env: Env, m: Machine, msg: Message): Message {
    if m.readbackPending &&
       Bzf.CoversCore(m.clearance.required, Bzf.MissingElements(env.stated, m.clearance, msg.transcript))
    then msg.(intent := Readback) else msg
  }

  /** The engine's synchronous path: latch, readback gate, state machine. */
  function Exchange(env: Env, t: Desk, msg: Message, now: real): (Desk, Response) {
    var m := Latch(t.m, msg);
    Process(env, Desk(m, t.lastAirport), Recognise(env, m, msg), now)
  }

  // ── Runs ──────────────────────────────────────────────────────────

  /** Every entry point that may write the machine, and the guard's own two. */
  datatype Action =
    | Speak(env: Env, msg: Message)
    | LatchIntent(utterance: Message)
    | CorrectionFrame(rules: Rules, factor: real, phase: FlightPhase.Phase, dt: real)
    | AirportFrame(nearest: string)
    | AirborneFlag(v: bool)
    | DisregardPressed(ctx: Context)
    | ForceState(s: State)
    | Start(readyForTakeoff: bool)
    | Halt
    | NewFlight
    | Repositioned(onGround: bool)
    | Capture
    | Restore(slot: nat, expected: nat)

  datatype Step = Step(act: Action, at: real)

  /** The desk, the snapshots taken so far, and the time of the last step. */
  datatype World = World(desk: Desk, snapshots: seq<Machine>, clock: real)

  const START := World(Desk(FRESH, ""), [], 0.0)

  function DeskAfter(w: World, s: Step): Desk {
    var t := w.desk;
    match s.act
    case Speak(env, msg) => Process(env, t, msg, s.at).0
    case LatchIntent(msg) => Desk(Latch(t.m, msg), t.lastAirport)
    case CorrectionFrame(rules, factor, phase, dt) =>
      Desk(CheckAutoCorrection(rules, factor, t.m, phase, dt, s.at), t.lastAirport)
    case AirportFrame(nearest) => CheckAirportChange(t, nearest, s.at)
    case AirborneFlag(v) => Desk(SetWasAirborne(t.m, v), t.lastAirport)
    case DisregardPressed(ctx) => Desk(Disregard(ctx, t.m, s.at), t.lastAirport)
    case ForceState(st) => Desk(SetState(t.m, st), t.lastAirport)
    case Start(ready) => Desk(Init(t.m, ready), t.lastAirport)
    case Halt => Desk(Reset(t.m), t.lastAirport)
    case NewFlight => Desk(Reset(t.m), "")
    case Repositioned(onGround) =>
      var m := BeginFreshFlight(t.m, onGround);
      Desk(m, if m == t.m then t.lastAirport else "")
    case Capture => t
    case Restore(slot, expected) =>
      if slot < |w.snapshots| then Desk(RestoreIfGen(t.m, w.snapshots[slot], expected).0, t.lastAirport) else t
  }

  function Do(w: World, s: Step): World {
    World(DeskAfter(w, s), if s.act.Capture? then w.snapshots + [w.desk.m] else w.snapshots, s.at)
  }

  function Run(w: World, steps: seq<Step>): World
    decreases |steps|
  {
    if steps == [] then w else Run(Do(w, steps[0]), steps[1..])
  }

  // ── The counter ───────────────────────────────────────────────────

  lemma AdvancesChain(a: Machine, b: Machine, c: Machine)
    requires Advances(a, b) && Advances(b, c)
    ensures Advances(a, c)
  {
  }

  lemma ArrivalAdvances(t: Desk, nearest: string, now: real)
    ensures Advances(t.m, CheckAirportChange(t, nearest, now).m)
  {
  }

  lemma ProcessAdvances(env: Env, t: Desk, msg: Message, now: real)
    ensures Advances(t.m, Process(env, t, msg, now).0.m)
  {
    hide CheckAirportChange, Dialogue;
    var a := Arrival(env, t, now);
    ArrivalAdvances(t, env.ctx.nearestAirport, now);
    AdvancesChain(t.m, a.m, Dialogue(env, a.m, Promote(t.m, msg)).0);
  }

  lemma CorrectionAdvances(rules: Rules, factor: real, m: Machine, phase: FlightPhase.Phase, dt: real, now: real)
    ensures Advances(m, CheckAutoCorrection(rules, factor, m, phase, dt, now))
  {
    hide CorrectionKey, CorrectionIndex, CorrectionRules, Uncorrected, Delay, ApplyCorrection;
  }

  lemma StepAdvances(w: World, s: Step)
    ensures Advances(w.desk.m, Do(w, s).desk.m)
  {
    hide Process, CheckAirportChange, CheckAutoCorrection, Latch, Disregard, SetState, SetWasAirborne, Init, Reset;
    match s.act
    case Speak(env, msg) => ProcessAdvances(env, w.desk, msg, s.at);
    case AirportFrame(nearest) => ArrivalAdvances(w.desk, nearest, s.at);
    case CorrectionFrame(rules, factor, phase, dt) => CorrectionAdvances(rules, factor, w.desk.m, phase, dt, s.at);
    case _ =>
  }

  /** Over every run the counter never falls, and it rises whenever a semantic field changed. */
  lemma {:induction false} RunAdvances(w: World, steps: seq<Step>)
    ensures Advances(w.desk.m, Run(w, steps).desk.m)
    decreases |steps|
  {
    hide Do, Advances;
    if steps == [] {
      assert Advances(w.desk.m, w.desk.m) by { NothingAdvances(w.desk.m); }
    } else {
      StepAdvances(w, steps[0]);
      RunAdvances(Do(w, steps[0]), steps[1..]);
      AdvancesChain(w.desk.m, Do(w, steps[0]).desk.m, Run(w, steps).desk.m);
    }
  }

  lemma NothingAdvances(m: Machine)
    ensures Advances(m, m)
  {
  }

  /** A restore with a counter read at `w` succeeds, any number of steps later, only if the machine is
      semantically what it was then; it brings back the snapshot, and a refused one touches nothing. */
  lemma RestoreMeetsUnchanged(w: World, steps: seq<Step>, snapshot: Machine)
    ensures var before, after := w.desk.m, Run(w, steps).desk.m;
      var (m, ok) := RestoreIfGen(after, snapshot, before.gen);
      && (ok ==> Semantic(after) == Semantic(before) && Semantic(m) == Semantic(snapshot) && m.gen > before.gen)
      && (Semantic(after) != Semantic(before) ==> !ok)
      && (!ok ==> m == after)
  {
    hide Run;
    RunAdvances(w, steps);
  }

  /** A successful restore defeats every other guard whose counter was read before it, forever. */
  lemma RestoreDefeatsOthers(w: World, r: Step, later: seq<Step>, snapshot: Machine, expected: nat)
    requires r.act.Restore? && r.act.slot < |w.snapshots| && r.act.expected == w.desk.m.gen
    requires expected <= w.desk.m.gen
    ensures !RestoreIfGen(Run(Do(w, r), later).desk.m, snapshot, expected).1
  {
    hide Run;
    RunAdvances(Do(w, r), later);
  }

  // ── Invariants of every reachable state ───────────────────────────

  /** What holds whatever the clock does: the shape of the log, and the callsign in every obligation. */
  ghost predicate Settled(m: Machine) { WellShaped(m) && ClearanceSound(m) }

  /** What takes a clock that never goes back: the order of the log. */
  ghost predicate InTime(m: Machine, clock: real) { Ordered(m) && m.lastNow <= clock }

  ghost predicate AllSettled(w: World) {
    Settled(w.desk.m) && forall i :: 0 <= i < |w.snapshots| ==> Settled(w.snapshots[i])
  }

  ghost predicate AllInTime(w: World) {
    InTime(w.desk.m, w.clock) && 0.0 <= w.clock && forall i :: 0 <= i < |w.snapshots| ==> InTime(w.snapshots[i], w.clock)
  }

  /** Both invariants pass from one record to the next; the order only if the step is not late. */
  ghost predicate Keeps(m: Machine, n: Machine, now: real) {
    (Settled(m) ==> Settled(n)) && (InTime(m, now) ==> InTime(n, now))
  }

  /** The clock of a run never goes back. */
  predicate Timely(clock: real, steps: seq<Step>)
    decreases |steps|
  {
    steps == [] || (clock <= steps[0].at && Timely(steps[0].at, steps[1..]))
  }

  lemma KeepsChain(a: Machine, b: Machine, c: Machine, now: real)
    requires Keeps(a, b, now) && Keeps(b, c, now)
    ensures Keeps(a, c, now)
  {
    hide Settled, InTime;
  }

  /** Moving the clock forward is no transition. */
  lemma ClockKeeps(m: Machine, now: real)
    ensures Keeps(m, m.(lastNow := now), now)
  {
    hide Sorted, Tail;
    assert forall i :: 0 <= i < |m.log| ==> StateAfter(m, i) == StateAfter(m.(lastNow := now), i);
  }

  lemma EvolvesKeeps(m: Machine, n: Machine, now: real)
    requires Evolves(m, n)
    ensures Keeps(m, n, now)
  {
    hide WellShaped, Ordered, ClearanceSound;
  }

  /** Fields outside the log and the open obligation do not matter. */
  lemma OthersKeep(m: Machine, n: Machine, now: real)
    requires n.log == m.log && n.history == m.history && n.state == m.state && n.lastNow == m.lastNow
    requires ClearanceSound(m) ==> ClearanceSound(n)
    ensures Keeps(m, n, now)
  {
    hide Sorted, Tail;
    assert forall i :: 0 <= i < |m.log| ==> StateAfter(m, i) == StateAfter(n, i);
  }

  lemma ArrivalSound(t: Desk, nearest: string, now: real)
    ensures Keeps(t.m, CheckAirportChange(t, nearest, now).m, now)
  {
    hide Keeps, LeaveAirport;
    var m := t.m.(lastNow := now);
    ClockKeeps(t.m, now);
    EvolvesKeeps(m, LeaveAirport(m), now);
    KeepsChain(t.m, m, LeaveAirport(m), now);
  }

  lemma ProcessSound(env: Env, t: Desk, msg: Message, now: real)
    ensures Keeps(t.m, Process(env, t, msg, now).0.m, now)
  {
    hide Keeps, CheckAirportChange, Dialogue;
    var a := Arrival(env, t, now);
    ArrivalSound(t, env.ctx.nearestAirport, now);
    EvolvesKeeps(a.m, Dialogue(env, a.m, Promote(t.m, msg)).0, now);
    KeepsChain(t.m, a.m, Dialogue(env, a.m, Promote(t.m, msg)).0, now);
  }

  lemma TimerKeeps(m: Machine, key: string, timer: real, now: real)
    ensures Keeps(m, m.(correctionKey := key, correctionTimer := timer), now)
  {
    hide Keeps;
    OthersKeep(m, m.(correctionKey := key, correctionTimer := timer), now);
  }

  lemma TickSound(m: Machine, c: AutoCorrection, factor: real, dt: real, now: real)
    ensures Keeps(m, TickCorrection(m, c, factor, dt), now)
  {
    hide Keeps, CorrectionKey, Delay, ApplyCorrection, TimeOn, WellShaped, Ordered, SameClearance;
    var key, timer := CorrectionKey(m, c), TimeOn(m, c, dt);
    var ticked := m.(correctionKey := key, correctionTimer := timer);
    var fired := ApplyCorrection(ticked, c);
    TimerKeeps(m, key, timer, now);
    EvolvesKeeps(ticked, fired, now);
    TimerKeeps(fired, "", 0.0, now);
    KeepsChain(m, ticked, fired, now);
    KeepsChain(m, fired, fired.(correctionKey := "", correctionTimer := 0.0), now);
  }

  lemma CorrectionSound(rules: Rules, factor: real, t: Machine, phase: FlightPhase.Phase, dt: real, now: real)
    ensures Keeps(t, CheckAutoCorrection(rules, factor, t, phase, dt, now), now)
  {
    hide Keeps, CorrectionIndex, CorrectionRules, Uncorrected, TickCorrection;
    var m := t.(lastNow := now);
    var cs, i := CorrectionRules(rules, m), CorrectionIndex(rules, m, phase);
    ClockKeeps(t, now);
    TimerKeeps(m, "", 0.0, now);
    KeepsChain(t, m, m.(correctionKey := "", correctionTimer := 0.0), now);
    if i < |cs| {
      TickSound(m, cs[i], factor, dt, now);
      KeepsChain(t, m, TickCorrection(m, cs[i], factor, dt), now);
    }
  }

  lemma MoveKeeps(m: Machine, next: State, reason: string, now: real)
    ensures Keeps(m, TransitionTo(m, next, reason), now)
  {
    hide TransitionTo, Keeps, WellShaped, Ordered;
    EvolvesKeeps(m, TransitionTo(m, next, reason), now);
  }

  lemma DisregardSound(ctx: Context, t: Machine, now: real)
    ensures Keeps(t, Disregard(ctx, t, now), now)
  {
    hide Keeps, WellShaped, Ordered, TransitionTo, Evolves;
    var m := t.(gen := t.gen + 1, lastNow := now, readbackPending := false, clearanceText := "",
                clearance := Bzf.NO_CLEARANCE, towerResponse := "");
    ClockKeeps(t, now);
    OthersKeep(t.(lastNow := now), m, now);
    KeepsChain(t, t.(lastNow := now), m, now);
    MoveKeeps(m, PatternEntry, "disregard_airborne_near_airport", now);
    KeepsChain(t, m, TransitionTo(m, PatternEntry, "disregard_airborne_near_airport"), now);
    MoveKeeps(m, EnRoute, "disregard_airborne_transit", now);
    KeepsChain(t, m, TransitionTo(m, EnRoute, "disregard_airborne_transit"), now);
    var ground := TransitionTo(m, Idle, "disregard_on_ground");
    MoveKeeps(m, Idle, "disregard_on_ground", now);
    KeepsChain(t, m, ground, now);
    GroundKeeps(ground, now);
    KeepsChain(t, ground, ground.(assignedRunway := "", sessionCallsign := "", departureType := Pattern), now);
  }

  lemma GroundKeeps(m: Machine, now: real)
    ensures Keeps(m, m.(assignedRunway := "", sessionCallsign := "", departureType := Pattern), now)
  {
    hide Keeps;
    OthersKeep(m, m.(assignedRunway := "", sessionCallsign := "", departureType := Pattern), now);
  }

  /** A restored record is the snapshot, and as sound. */
  lemma RestoreSound(m: Machine, snapshot: Machine, expected: nat, now: real)
    ensures var r := RestoreIfGen(m, snapshot, expected); Keeps(if r.1 then snapshot else m, r.0, now)
  {
    hide Keeps;
    OthersKeep(snapshot, snapshot.(gen := m.gen + 1), now);
    OthersKeep(m, m, now);
  }

  lemma FreshSound(m: Machine, now: real)
    requires WellLogged(m) && ClearanceSound(m) && m.lastNow == 0.0
    ensures Settled(m) && (0.0 <= now ==> InTime(m, now))
  {
  }

  /** The one record a step goes out from: the snapshot for a restore that succeeds, else the present one. */
  function Origin(w: World, s: Step): Machine {
    if s.act.Restore? && s.act.slot < |w.snapshots| && w.desk.m.gen == s.act.expected then w.snapshots[s.act.slot]
    else w.desk.m
  }

  /** Every step keeps what its origin had; the lifecycle steps start afresh. */
  lemma StepKeeps(w: World, s: Step)
    ensures Settled(Origin(w, s)) ==> Settled(Do(w, s).desk.m)
    ensures InTime(Origin(w, s), s.at) && 0.0 <= s.at ==> InTime(Do(w, s).desk.m, s.at)
  {
    hide Settled, InTime, Process, CheckAirportChange, CheckAutoCorrection, Latch, Disregard, SetState, SetWasAirborne,
         WellShaped, Ordered, ClearanceSound;
    var m := w.desk.m;
    match s.act
    case Speak(env, msg) => ProcessSound(env, w.desk, msg, s.at);
    case LatchIntent(msg) => EvolvesKeeps(m, Latch(m, msg), s.at);
    case CorrectionFrame(rules, factor, phase, dt) => CorrectionSound(rules, factor, m, phase, dt, s.at);
    case AirportFrame(nearest) => ArrivalSound(w.desk, nearest, s.at);
    case AirborneFlag(v) => EvolvesKeeps(m, SetWasAirborne(m, v), s.at);
    case DisregardPressed(ctx) => DisregardSound(ctx, m, s.at);
    case ForceState(st) => EvolvesKeeps(m, SetState(m, st), s.at);
    case Start(ready) => FreshSound(Init(m, ready), s.at);
    case Halt => FreshSound(Reset(m), s.at);
    case NewFlight => FreshSound(Reset(m), s.at);
    case Repositioned(onGround) => FreshSound(Reset(m), s.at);
    case Capture =>
    case Restore(slot, expected) => if slot < |w.snapshots| { RestoreSound(m, w.snapshots[slot], expected, s.at); }
  }

  /** Every step, however late, keeps desk and snapshots settled. */
  lemma StepSettled(w: World, s: Step)
    requires AllSettled(w)
    ensures AllSettled(Do(w, s))
  {
    hide Settled, DeskAfter;
    StepKeeps(w, s);
  }

  lemma LaterInTime(m: Machine, clock: real, now: real)
    requires InTime(m, clock) && clock <= now
    ensures InTime(m, now)
  {
  }

  /** A step that is not late keeps them in time. */
  lemma StepInTime(w: World, s: Step)
    requires AllInTime(w) && w.clock <= s.at
    ensures AllInTime(Do(w, s))
  {
    hide InTime, DeskAfter;
    LaterInTime(w.desk.m, w.clock, s.at);
    forall i | 0 <= i < |w.snapshots| ensures InTime(w.snapshots[i], s.at) {
      LaterInTime(w.snapshots[i], w.clock, s.at);
    }
    StepKeeps(w, s);
  }

  /** Over every run, late messages included: at most eight stored entries, which are the tail of all
      transitions since the last reset; no transition to the same state; and every open readback
      obligation lists the callsign. */
  lemma {:induction false} RunSettled(w: World, steps: seq<Step>)
    requires AllSettled(w)
    ensures AllSettled(Run(w, steps))
    decreases |steps|
  {
    hide AllSettled, Do;
    if steps != [] {
      StepSettled(w, steps[0]);
      RunSettled(Do(w, steps[0]), steps[1..]);
    }
  }

  /** Over every run with a clock that never goes back the timestamps are in order besides. */
  lemma {:induction false} RunInTime(w: World, steps: seq<Step>)
    requires AllInTime(w) && Timely(w.clock, steps)
    ensures AllInTime(Run(w, steps))
    decreases |steps|
  {
    hide AllInTime, Do;
    if steps != [] {
      StepInTime(w, steps[0]);
      assert Do(w, steps[0]).clock == steps[0].at by { DoSetsClock(w, steps[0]); }
      RunInTime(Do(w, steps[0]), steps[1..]);
    }
  }

  lemma DoSetsClock(w: World, s: Step)
    ensures Do(w, s).clock == s.at
  {
  }

  lemma StartIsSound()
    ensures AllSettled(START) && AllInTime(START)
  {
  }

  /** In every reachable state. */
  lemma ReachableIsSound(steps: seq<Step>)
    ensures AllSettled(Run(START, steps))
    ensures Timely(0.0, steps) ==> AllInTime(Run(START, steps)) && WellLogged(Run(START, steps).desk.m)
  {
    hide Run, WellShaped, Ordered;
    StartIsSound();
    RunSettled(START, steps);
    if Timely(0.0, steps) { RunInTime(START, steps); }
  }

  /** In every reachable state a complete readback of what is owed is recognised as a readback. */
  lemma OwedReadbackIsRecognised(steps: seq<Step>, env: Env, msg: Message)
    requires var m := Run(START, steps).desk.m;
      m.readbackPending && Bzf.Complete(m.clearance, msg.transcript)
    ensures Recognise(env, Run(START, steps).desk.m, msg).intent.Readback?
  {
    hide Run, WellShaped, Bzf.Complete, Bzf.MissingElements, Bzf.CoversCore;
    ReachableIsSound(steps);
    var m := Run(START, steps).desk.m;
    Bzf.CompletePassesGate(env.stated, m.clearance, msg.transcript);
  }
}

