/** Flight-phase detection with hysteresis, and the airborne latch that tells a landing roll from a
    takeoff roll. */
module FlightPhase {

  datatype Phase =
    | Parked | Taxi | TakeoffRoll | Climb | PatternLeg | FinalApproach | LandingRoll | Cruise

  predicate IsAirborne(p: Phase) { p.Climb? || p.PatternLeg? || p.FinalApproach? || p.Cruise? }

  predicate IsOnGround(p: Phase) { p.Parked? || p.Taxi? || p.TakeoffRoll? || p.LandingRoll? }

  /** What the detector looks at.  Distances and headings are already computed; `aligned` says the
      active runway is known and the heading is within tolerance of it. */
  datatype Observation = Observation(onGround: bool, groundspeed: real, distanceNm: real, agl: real,
                                     verticalSpeed: real, aligned: bool)

  datatype Config = Config(taxiMin: real, rollMin: real, climbMin: real, patternMaxAgl: real,
                           nearNm: real, finalDescent: real, toAirborne: real, toLanding: real)

  const DEFAULTS := Config(5.0, 40.0, 300.0, 3000.0, 5.0, -200.0, 0.5, 0.3)

  datatype PhaseState = PhaseState(current: Phase, candidate: Phase, timer: real, wasAirborne: bool)

  const INITIAL := PhaseState(Parked, Parked, 0.0, false)

  function DetectRaw(cfg: Config, o: Observation, wasAirborne: bool): Phase {
    if o.onGround then
      if o.groundspeed >= cfg.rollMin then (if wasAirborne then LandingRoll else TakeoffRoll)
      else if o.groundspeed >= cfg.taxiMin then Taxi
      else Parked
    else if o.distanceNm < cfg.nearNm && o.agl < cfg.patternMaxAgl then
      if o.aligned && o.verticalSpeed < cfg.finalDescent then FinalApproach else PatternLeg
    else if o.verticalSpeed > cfg.climbMin then Climb
    else Cruise
  }

  predicate Jitters(from: Phase, to: Phase) {
    (from.PatternLeg? && to.FinalApproach?) || (from.FinalApproach? && to.PatternLeg?)
  }

  predicate NeedsHysteresis(from: Phase, to: Phase) {
    || (IsOnGround(from) && !IsOnGround(to))
    || (!IsOnGround(from) && to.LandingRoll?)
    || Jitters(from, to)
  }

  function HysteresisDuration(cfg: Config, from: Phase, to: Phase): real {
    if IsOnGround(from) && !IsOnGround(to) then cfg.toAirborne
    else if !IsOnGround(from) && to.LandingRoll? then cfg.toLanding
    else if Jitters(from, to) then 3.0
    else 0.0
  }

  /** The state after one frame with raw phase `raw`. */
  function Step(cfg: Config, s: PhaseState, raw: Phase, dt: real): PhaseState {
    var timer := (if raw == s.candidate then s.timer else 0.0) +
                 (if NeedsHysteresis(s.current, raw) then dt else 0.0);
    if raw == s.current then s.(candidate := raw, timer := 0.0)
    else if NeedsHysteresis(s.current, raw) && timer < HysteresisDuration(cfg, s.current, raw) then
      s.(candidate := raw, timer := timer)
    else
      PhaseState(raw, raw, timer,
                 IsAirborne(raw) || (s.wasAirborne && (raw.TakeoffRoll? || raw.LandingRoll?)))
  }

  class PhaseDetector {
    var s: PhaseState

    constructor ()
      ensures s == INITIAL
    {
      s := INITIAL;
    }

    method Reset()
      modifies this
      ensures s == INITIAL
    {
      s := INITIAL;
    }

    /** `flightSeen` says the session's airborne flag was set during the call. */
    method Update(cfg: Config, o: Observation, dt: real) returns (flightSeen: bool)
      modifies this
      ensures s == Step(cfg, old(s), DetectRaw(cfg, o, old(s.wasAirborne)), dt)
      ensures flightSeen <==> IsAirborne(old(s.current)) || IsAirborne(s.current)
    {
      var raw := DetectRaw(cfg, o, s.wasAirborne);
      flightSeen := IsAirborne(s.current);
      if raw == s.current {
        s := s.(candidate := raw, timer := 0.0);
        return;
      }
      if raw != s.candidate { s := s.(candidate := raw, timer := 0.0); }
      if NeedsHysteresis(s.current, raw) {
        s := s.(timer := s.timer + dt);
        if s.timer < HysteresisDuration(cfg, s.current, raw) { return; }
      }
      s := s.(current := raw);
      if IsAirborne(s.current) {
        s := s.(wasAirborne := true);
      } else if IsOnGround(s.current) && !s.current.TakeoffRoll? && !s.current.LandingRoll? {
        s := s.(wasAirborne := false);
      }
      if IsAirborne(s.current) { flightSeen := true; }
    }
  }

  // ── Runs ──────────────────────────────────────────────────────────

  datatype Frame = Frame(cfg: Config, o: Observation, dt: real)

  function Run(frames: seq<Frame>): PhaseState {
    if frames == [] then INITIAL
    else
      var s := Run(frames[..|frames| - 1]);
      var f := frames[|frames| - 1];
      Step(f.cfg, s, DetectRaw(f.cfg, f.o, s.wasAirborne), f.dt)
  }

  /** The raw phase of frame `i`. */
  function Raw(frames: seq<Frame>, i: nat): Phase
    requires i < |frames|
  {
    DetectRaw(frames[i].cfg, frames[i].o, Run(frames[..i]).wasAirborne)
  }

  /** Time covered by the unbroken stretch of frames with raw phase `p` at the end of the run. */
  function Held(frames: seq<Frame>, p: Phase): real {
    var n := |frames| - 1;
    if frames == [] || Raw(frames, n) != p then 0.0 else Held(frames[..n], p) + frames[n].dt
  }

  lemma RunStep(frames: seq<Frame>, f: Frame)
    ensures var s := Run(frames);
      && Run(frames + [f]) == Step(f.cfg, s, DetectRaw(f.cfg, f.o, s.wasAirborne), f.dt)
      && Raw(frames + [f], |frames|) == DetectRaw(f.cfg, f.o, s.wasAirborne)
      && forall p :: Held(frames + [f], p)
           == if Raw(frames + [f], |frames|) != p then 0.0 else Held(frames, p) + f.dt
  {
    var all := frames + [f];
    assert all[..|all| - 1] == frames && all[..|frames|] == frames && all[|frames|] == f;
  }

  /** The latch is exactly "in flight or rolling out", in every reachable state. */
  lemma {:induction false} LatchMeansFlight(frames: seq<Frame>)
    ensures var s := Run(frames); s.wasAirborne <==> IsAirborne(s.current) || s.current.LandingRoll?
  {
    if frames != [] { LatchMeansFlight(frames[..|frames| - 1]); }
  }

  predicate OnApron(frames: seq<Frame>, k: nat)
    requires k <= |frames|
  {
    Run(frames[..k]).current.Parked? || Run(frames[..k]).current.Taxi?
  }

  lemma IntoTakeoffRoll(frames: seq<Frame>)
    requires frames != [] && Run(frames).current.TakeoffRoll?
    ensures var n := |frames| - 1; OnApron(frames, n) || Run(frames[..n]).current.TakeoffRoll?
  {
    LatchMeansFlight(frames[..|frames| - 1]);
  }

  /** A takeoff roll after flight or rollout is separated from it by PARKED or TAXI. */
  lemma {:induction false} TakeoffRollNeedsGround(frames: seq<Frame>, i: nat)
    requires i <= |frames| && Run(frames).current.TakeoffRoll?
    requires IsAirborne(Run(frames[..i]).current) || Run(frames[..i]).current.LandingRoll?
    ensures exists k :: i < k < |frames| && OnApron(frames, k)
  {
    hide Run;
    assert frames[..|frames|] == frames;
    var n := |frames| - 1;
    var prev := frames[..n];
    IntoTakeoffRoll(frames);
    assert prev[..i] == frames[..i];
    if Run(prev).current.TakeoffRoll? {
      TakeoffRollNeedsGround(prev, i);
      var k :| i < k < n && OnApron(prev, k);
      assert prev[..k] == frames[..k];
      assert OnApron(frames, k);
    } else {
      assert i < n;
      assert OnApron(frames, n);
    }
  }

  /** While a change is pending, the timer is the time the candidate has been held without a break. */
  lemma {:induction false} TimerIsHeld(frames: seq<Frame>)
    ensures var s := Run(frames);
      && (frames != [] ==> s.candidate == Raw(frames, |frames| - 1))
      && (frames == [] ==> s.candidate == s.current)
      && (s.candidate != s.current ==>
            s.timer == Held(frames, s.candidate) && NeedsHysteresis(s.current, s.candidate))
  {
    if frames != [] {
      var n := |frames| - 1;
      var prev := frames[..n];
      TimerIsHeld(prev);
      var s := Run(prev);
      var raw := Raw(frames, n);
      HeldBreaks(prev, raw);
    }
  }

  /** A stretch of `p` is over as soon as some other raw phase is seen, and has not begun at start. */
  lemma HeldBreaks(frames: seq<Frame>, p: Phase)
    ensures frames == [] || Raw(frames, |frames| - 1) != p ==> Held(frames, p) == 0.0
  {
  }

  /** A frame with another raw phase changes the phase exactly when no hysteresis applies or that
      raw phase has been held, this frame included, for the required time. */
  lemma ChangeIffHeld(frames: seq<Frame>, f: Frame)
    ensures var s, s' := Run(frames), Run(frames + [f]);
      var raw := Raw(frames + [f], |frames|);
      && (s'.current == s.current || s'.current == raw)
      && (raw != s.current ==>
           (s'.current == raw <==>
              (NeedsHysteresis(s.current, raw) ==>
                 Held(frames + [f], raw) >= HysteresisDuration(f.cfg, s.current, raw))))
  {
    hide Run, Held, Raw, DetectRaw;
    RunStep(frames, f);
    TimerIsHeld(frames);
    HeldBreaks(frames, Raw(frames + [f], |frames|));
  }

  // ── A bounce ──────────────────────────────────────────────────────

  const ROLLING := Observation(true, 50.0, 1.0, 0.0, 0.0, true)
  const LIFTED := Observation(false, 60.0, 1.0, 10.0, 100.0, true)

  function Roll(dt: real): Frame { Frame(DEFAULTS, ROLLING, dt) }
  function Lift(dt: real): Frame { Frame(DEFAULTS, LIFTED, dt) }

  /** With the default configuration a take-off roll that leaves the ground twice for 0.4 s is still a
      take-off roll, though the aircraft was up for 0.8 s in all; another 0.1 s without touching makes
      it a flight. */
  lemma BounceIsNoTakeoff()
    ensures var bounced := [Roll(1.0), Lift(0.4), Roll(0.1), Lift(0.4)];
      Run(bounced).current.TakeoffRoll? && Run(bounced + [Lift(0.1)]).current.PatternLeg?
  {
    hide Run, Held, Raw;
    StartsParked();
    RunStep([], Roll(1.0));
    RunStep([Roll(1.0)], Lift(0.4));
    RunStep([Roll(1.0), Lift(0.4)], Roll(0.1));
    RunStep([Roll(1.0), Lift(0.4), Roll(0.1)], Lift(0.4));
    RunStep([Roll(1.0), Lift(0.4), Roll(0.1), Lift(0.4)], Lift(0.1));
    assert [] + [Roll(1.0)] == [Roll(1.0)];
    assert [Roll(1.0)] + [Lift(0.4)] == [Roll(1.0), Lift(0.4)];
    assert [Roll(1.0), Lift(0.4)] + [Roll(0.1)] == [Roll(1.0), Lift(0.4), Roll(0.1)];
    assert [Roll(1.0), Lift(0.4), Roll(0.1)] + [Lift(0.4)] == [Roll(1.0), Lift(0.4), Roll(0.1), Lift(0.4)];
  }

  lemma StartsParked()
    ensures Run([]) == INITIAL
  {
  }

  // ── What the phases mean ──────────────────────────────────────────

  /** On the ground only speed counts, and whether the aircraft has flown; in the air, first being close
      and low, then descending on the runway heading, else the climb. */
  lemma RawPhaseMeans(cfg: Config, o: Observation, flown: bool)
    requires cfg.taxiMin <= cfg.rollMin
    ensures var p := DetectRaw(cfg, o, flown);
      && (p.Parked? <==> o.onGround && o.groundspeed < cfg.taxiMin)
      && (p.Taxi? <==> o.onGround && cfg.taxiMin <= o.groundspeed < cfg.rollMin)
      && (p.TakeoffRoll? <==> o.onGround && o.groundspeed >= cfg.rollMin && !flown)
      && (p.LandingRoll? <==> o.onGround && o.groundspeed >= cfg.rollMin && flown)
      && (p.PatternLeg? || p.FinalApproach? <==> !o.onGround && o.distanceNm < cfg.nearNm && o.agl < cfg.patternMaxAgl)
      && (p.FinalApproach? ==> o.aligned && o.verticalSpeed < cfg.finalDescent)
      && (p.PatternLeg? ==> !(o.aligned && o.verticalSpeed < cfg.finalDescent))
      && (p.Climb? || p.Cruise? <==> !o.onGround && !(o.distanceNm < cfg.nearNm && o.agl < cfg.patternMaxAgl))
      && (p.Climb? ==> o.verticalSpeed > cfg.climbMin) && (p.Cruise? ==> o.verticalSpeed <= cfg.climbMin)
  {
  }

  /** What a change has to be held for: leaving the ground, a landing roll, and the flicker between
      pattern and final, which takes three seconds; every other change is immediate. */
  lemma HoldingTimes(cfg: Config, from: Phase, to: Phase)
    requires from != to
    ensures var ground := (p: Phase) => p.Parked? || p.Taxi? || p.TakeoffRoll? || p.LandingRoll?;
      && (ground(from) && !ground(to) ==> NeedsHysteresis(from, to) && HysteresisDuration(cfg, from, to) == cfg.toAirborne)
      && (!ground(from) && to.LandingRoll? ==> NeedsHysteresis(from, to) && HysteresisDuration(cfg, from, to) == cfg.toLanding)
      && ((from.PatternLeg? && to.FinalApproach?) || (from.FinalApproach? && to.PatternLeg?) ==>
            NeedsHysteresis(from, to) && HysteresisDuration(cfg, from, to) == 3.0)
      && (ground(from) && ground(to) ==> !NeedsHysteresis(from, to))
      && (!ground(from) && ground(to) && !to.LandingRoll? ==> !NeedsHysteresis(from, to))
      && (!ground(from) && !ground(to) && (from.Climb? || from.Cruise? || to.Climb? || to.Cruise?) ==> !NeedsHysteresis(from, to))
  {
  }

  function Seen(onGround: bool, speed: real, nm: real, agl: real, climb: real, dt: real): Frame {
    Frame(DEFAULTS, Observation(onGround, speed, nm, agl, climb, true), dt)
  }

  const OUTBOUND :=
    [Seen(true, 0.0, 0.0, 0.0, 0.0, 1.0), Seen(true, 10.0, 0.0, 0.0, 0.0, 1.0), Seen(true, 45.0, 0.0, 0.0, 0.0, 1.0)]
  const ALOFT := [Seen(false, 80.0, 1.0, 500.0, 700.0, 0.5), Seen(false, 100.0, 6.0, 3500.0, 700.0, 1.0),
                  Seen(false, 110.0, 9.0, 3500.0, 0.0, 1.0)]

  /** With the default configuration: parked, taxi, take-off roll, and half a second into the air the
      pattern, then climb and cruise. */
  lemma DepartingFlight()
    ensures Run(OUTBOUND[..1]).current.Parked? && Run(OUTBOUND[..2]).current.Taxi? && Run(OUTBOUND).current.TakeoffRoll?
    ensures Run(OUTBOUND + ALOFT[..1]).current.PatternLeg? && Run(OUTBOUND + ALOFT[..2]).current.Climb?
    ensures Run(OUTBOUND + ALOFT).current.Cruise? && Run(OUTBOUND + ALOFT).wasAirborne
  {
    hide Run, Held, Raw;
    StartsParked();
    var o1, o2 := OUTBOUND[..1], OUTBOUND[..2];
    assert [] + [OUTBOUND[0]] == o1 && o1 + [OUTBOUND[1]] == o2 && o2 + [OUTBOUND[2]] == OUTBOUND;
    RunStep([], OUTBOUND[0]);
    RunStep(o1, OUTBOUND[1]);
    RunStep(o2, OUTBOUND[2]);
    var a1, a2 := OUTBOUND + ALOFT[..1], OUTBOUND + ALOFT[..2];
    assert OUTBOUND + [ALOFT[0]] == a1 && a1 + [ALOFT[1]] == a2 && a2 + [ALOFT[2]] == OUTBOUND + ALOFT;
    RunStep(OUTBOUND, ALOFT[0]);
    RunStep(a1, ALOFT[1]);
    RunStep(a2, ALOFT[2]);
  }

  const INBOUND := [Seen(false, 90.0, 4.0, 1000.0, -300.0, 1.0), Seen(false, 70.0, 1.0, 200.0, -500.0, 1.0),
                    Seen(true, 55.0, 0.0, 0.0, 0.0, 0.2), Seen(true, 50.0, 0.0, 0.0, 0.0, 0.2),
                    Seen(true, 20.0, 0.0, 0.0, 0.0, 1.0), Seen(true, 0.0, 0.0, 0.0, 0.0, 1.0)]

  /** From cruise: final at once, the landing roll only after 0.3 s on the ground, then taxi and parked,
      and the latch is off. */
  lemma ArrivingFlight(frames: seq<Frame>)
    requires Run(frames).current.Cruise? && Run(frames).wasAirborne && Run(frames).candidate.Cruise? && Run(frames).timer == 0.0
    ensures Run(frames + INBOUND[..2]).current.FinalApproach? && Run(frames + INBOUND[..3]).current.FinalApproach?
    ensures Run(frames + INBOUND[..4]).current.LandingRoll? && Run(frames + INBOUND[..4]).wasAirborne
    ensures Run(frames + INBOUND[..5]).current.Taxi? && !Run(frames + INBOUND[..5]).wasAirborne
    ensures Run(frames + INBOUND).current.Parked?
  {
    hide Run, Held, Raw;
    var r1, r2, r3 := frames + INBOUND[..1], frames + INBOUND[..2], frames + INBOUND[..3];
    var r4, r5 := frames + INBOUND[..4], frames + INBOUND[..5];
    assert frames + [INBOUND[0]] == r1 && r1 + [INBOUND[1]] == r2 && r2 + [INBOUND[2]] == r3;
    assert r3 + [INBOUND[3]] == r4 && r4 + [INBOUND[4]] == r5 && r5 + [INBOUND[5]] == frames + INBOUND;
    RunStep(frames, INBOUND[0]);
    RunStep(r1, INBOUND[1]);
    RunStep(r2, INBOUND[2]);
    RunStep(r3, INBOUND[3]);
    RunStep(r4, INBOUND[4]);
    RunStep(r5, INBOUND[5]);
  }
}
