/** Unsolicited traffic advisories: which target is called out, and how often the pilot is disturbed. */
module TrafficAdvisor {
  import S = AtcState
  import P = AtcPipeline

  datatype TrafficPhase =
    | UnknownPhase | OnGround | Taxi | Takeoff | Climb | Cruise | Descend | Final | PatternLeg | Landed

  /** A target as seen by the user.  `closure` is positive when the range shrinks; `trackDiff` is the
      track difference in [0, 360); `low` means at most the ground-domain height; `inCone` that its
      predicted path crosses the cone ahead of the user. */
  datatype Target = Target(id: nat, phase: TrafficPhase, distanceNm: real, altDiffFt: real, clock: real,
                           low: bool, closure: real, trackDiff: real, groundspeed: real, inCone: bool)

  datatype User = User(state: S.State, onAtcFreq: bool, onGround: bool, taxiing: bool)

  const MIN_DISTANCE_NM := 2.0
  const MAX_DISTANCE_NM := 8.0
  const MAX_ALT_DIFF_FT := 1500.0
  const PER_TARGET := 60.0
  const GLOBAL := 20.0
  const VISUAL_LOCKOUT := 300.0
  const GROUND_GLOBAL := 15.0
  const GROUND_PER_TARGET := 30.0
  const GROUND_MAX_NM := 0.3
  const FAR_PAST := -1000000000.0

  datatype History = History(issued: map<nat, real>, acknowledged: map<nat, real>, lastGlobal: real)

  const NO_HISTORY := History(map[], map[], FAR_PAST)

  // ── Evaluation ────────────────────────────────────────────────────

  predicate InForwardArc(clock: real) { 9.0 <= clock <= 12.0 || 1.0 <= clock <= 3.0 }

  predicate Converging(t: Target) { 60.0 <= t.trackDiff <= 120.0 || 240.0 <= t.trackDiff <= 300.0 }

  predicate GatingPasses(u: User) { !u.state.Idle? && !u.state.UnicomActive? && u.onAtcFreq }

  predicate Qualifies(t: Target, u: User) {
    && MIN_DISTANCE_NM <= t.distanceNm <= MAX_DISTANCE_NM
    && -MAX_ALT_DIFF_FT <= t.altDiffFt <= MAX_ALT_DIFF_FT
    && InForwardArc(t.clock) && u.onGround == t.low
    && (t.closure > 0.0 || Converging(t))
  }

  predicate GroundQualifies(t: Target) {
    t.distanceNm < GROUND_MAX_NM && (t.phase.Taxi? || t.phase.Takeoff? || t.phase.Landed?) && t.inCone
  }

  /** Long enough since the time stored for the target, if any. */
  predicate Rested(times: map<nat, real>, id: nat, now: real, span: real) { id !in times || now - times[id] >= span }

  predicate GroundDue(t: Target, h: History, now: real) {
    GroundQualifies(t) && Rested(h.issued, t.id, now, GROUND_PER_TARGET)
  }

  predicate AirborneDue(t: Target, u: User, h: History, now: real) {
    Qualifies(t, u) && Rested(h.issued, t.id, now, PER_TARGET) && Rested(h.acknowledged, t.id, now, VISUAL_LOCKOUT)
  }

  function GroundTemplate(t: Target): string {
    if t.clock >= 11.0 || t.clock <= 1.0 then "taxi_hold_position"
    else if t.groundspeed >= 15.0 then "taxi_give_way"
    else "taxi_caution"
  }

  datatype Advisory = NoAdvisory | Advisory(id: nat, template: string, requiresAck: bool)

  function GroundConflict(ts: seq<Target>, u: User, h: History, now: real): Advisory {
    if !u.taxiing || now - h.lastGlobal < GROUND_GLOBAL then NoAdvisory
    else
      var i := P.FirstMatch(ts, (t: Target) => GroundDue(t, h, now));
      if i == |ts| then NoAdvisory else Advisory(ts[i].id, GroundTemplate(ts[i]), false)
  }

  function AirborneIndex(ts: seq<Target>, u: User, h: History, now: real): (i: nat)
    ensures i <= |ts| && (i < |ts| ==> AirborneDue(ts[i], u, h, now))
    ensures forall k :: 0 <= k < i ==> !AirborneDue(ts[k], u, h, now)
  {
    P.FirstMatch(ts, (t: Target) => AirborneDue(t, u, h, now))
  }

  function Evaluate(ts: seq<Target>, u: User, h: History, now: real): Advisory {
    var ground := GroundConflict(ts, u, h, now);
    if ground.Advisory? then ground
    else if !GatingPasses(u) || now - h.lastGlobal < GLOBAL then NoAdvisory
    else
      var i := AirborneIndex(ts, u, h, now);
      if i == |ts| then NoAdvisory else Advisory(ts[i].id, "traffic_advisory", true)
  }

  predicate ByDistance(ts: seq<Target>) { forall i, j :: 0 <= i < j < |ts| ==> ts[i].distanceNm <= ts[j].distanceNm }

  /** On a snapshot sorted by distance an airborne callout names the nearest target that is due. */
  lemma NearestDueIsCalled(ts: seq<Target>, u: User, h: History, now: real, i: nat)
    requires ByDistance(ts) && Evaluate(ts, u, h, now).Advisory? && Evaluate(ts, u, h, now).requiresAck
    requires i < |ts| && AirborneDue(ts[i], u, h, now)
    ensures exists k :: 0 <= k <= i && IsCalled(ts[k], ts, u, h, now) && ts[k].distanceNm <= ts[i].distanceNm
  {
    hide AirborneDue;
    var k := AirborneIndex(ts, u, h, now);
    assert k <= i;
    assert IsCalled(ts[k], ts, u, h, now);
  }

  predicate IsCalled(t: Target, ts: seq<Target>, u: User, h: History, now: real) {
    AirborneDue(t, u, h, now) && Evaluate(ts, u, h, now) == Advisory(t.id, "traffic_advisory", true)
  }

  // ── The desk ──────────────────────────────────────────────────────

  /** `emitted` and `acks` are auxiliary records of what was called out and acknowledged. */
  datatype Emission = Emission(id: nat, at: real, ground: bool)
  datatype Ack = Ack(id: nat, at: real)
  datatype Desk = Desk(history: History, awaiting: bool, pending: nat, emitted: seq<Emission>, acks: seq<Ack>)

  const EMPTY := Desk(NO_HISTORY, false, 0, [], [])

  function MarkEmitted(h: History, id: nat, now: real): History {
    h.(issued := h.issued[id := now], lastGlobal := now)
  }

  function MarkAcknowledged(h: History, id: nat, now: real): History {
    h.(acknowledged := h.acknowledged[id := now])
  }

  function Poll(d: Desk, ts: seq<Target>, u: User, now: real): Desk {
    var a := Evaluate(ts, u, d.history, now);
    if d.awaiting || a.NoAdvisory? then d
    else Desk(MarkEmitted(d.history, a.id, now), a.requiresAck, if a.requiresAck then a.id else d.pending,
              d.emitted + [Emission(a.id, now, !a.requiresAck)], d.acks)
  }

  datatype Reply = InSight | NotYet

  /** A reply ends the wait; one with the traffic in sight locks the target out. */
  function PilotReplies(d: Desk, r: Reply, now: real): Desk {
    if !d.awaiting then d
    else if r.NotYet? then d.(awaiting := false, pending := 0)
    else d.(history := MarkAcknowledged(d.history, d.pending, now), awaiting := false, pending := 0,
            acks := d.acks + [Ack(d.pending, now)])
  }

  class AdvisoryDesk {
    var d: Desk

    constructor ()
      ensures d == EMPTY
    {
      d := EMPTY;
    }

    method FindGround(ts: seq<Target>, u: User, now: real) returns (a: Advisory)
      ensures a == GroundConflict(ts, u, d.history, now)
    {
      hide GroundDue, GroundTemplate;
      if !u.taxiing { return NoAdvisory; }
      if now - d.history.lastGlobal < GROUND_GLOBAL { return NoAdvisory; }
      var h := d.history;
      var i := P.Scan(ts, (t: Target) => GroundDue(t, h, now));
      if i == |ts| { return NoAdvisory; }
      a := Advisory(ts[i].id, GroundTemplate(ts[i]), false);
    }

    method FindAdvisory(ts: seq<Target>, u: User, now: real) returns (a: Advisory)
      ensures a == Evaluate(ts, u, d.history, now)
    {
      hide AirborneDue, GroundConflict;
      a := FindGround(ts, u, now);
      if a.Advisory? { return; }
      if !GatingPasses(u) { return NoAdvisory; }
      if now - d.history.lastGlobal < GLOBAL { return NoAdvisory; }
      var h := d.history;
      var i := P.Scan(ts, (t: Target) => AirborneDue(t, u, h, now));
      if i == |ts| { return NoAdvisory; }
      a := Advisory(ts[i].id, "traffic_advisory", true);
    }

    method PollTrafficAdvisory(ts: seq<Target>, u: User, now: real) returns (called: bool)
      modifies this
      ensures d == Poll(old(d), ts, u, now)
      ensures called <==> |d.emitted| > |old(d).emitted|
    {
      hide Evaluate;
      if d.awaiting { return false; }
      var a := FindAdvisory(ts, u, now);
      if a.NoAdvisory? { return false; }
      d := d.(history := d.history.(issued := d.history.issued[a.id := now], lastGlobal := now));
      if a.requiresAck { d := d.(awaiting := true, pending := a.id); }
      d := d.(emitted := d.emitted + [Emission(a.id, now, !a.requiresAck)]);
      called := true;
    }

    method HandlePilot(r: Reply, now: real) returns (handled: bool)
      modifies this
      ensures d == PilotReplies(old(d), r, now) && handled == old(d).awaiting
    {
      if !d.awaiting { return false; }
      if r.InSight? {
        d := d.(history := d.history.(acknowledged := d.history.acknowledged[d.pending := now]),
                acks := d.acks + [Ack(d.pending, now)]);
      }
      d := d.(awaiting := false, pending := 0);
      handled := true;
    }
  }

  // ── Runs ──────────────────────────────────────────────────────────

  datatype Event = Frame(ts: seq<Target>, u: User) | Answer(r: Reply) | DialogReset

  datatype Step = Step(e: Event, at: real)

  function Next(d: Desk, s: Step): Desk {
    match s.e
    case Frame(ts, u) => Poll(d, ts, u, s.at)
    case Answer(r) => PilotReplies(d, r, s.at)
    case DialogReset => d.(awaiting := false, pending := 0)
  }

  /** The desk after the steps, oldest first. */
  function Run(steps: seq<Step>): Desk {
    if steps == [] then EMPTY else Next(Run(steps[..|steps| - 1]), steps[|steps| - 1])
  }

  /** The clock starts at zero and never goes back. */
  predicate Timely(steps: seq<Step>) {
    forall i :: 0 <= i < |steps| ==> 0.0 <= steps[i].at && (i > 0 ==> steps[i - 1].at <= steps[i].at)
  }

  /** What each emission keeps to its predecessors and to earlier acknowledgements. */
  predicate Spaced(es: seq<Emission>) {
    && (forall i, j :: 0 <= i < j < |es| ==>
          es[j].at - es[i].at >= (if es[j].ground then 15.0 else 20.0))
    && (forall i, j :: 0 <= i < j < |es| && es[i].id == es[j].id ==>
          es[j].at - es[i].at >= (if es[j].ground then 30.0 else 60.0))
  }

  /** The records in the history are those of the latest emission and acknowledgement. */
  predicate Faithful(d: Desk) {
    var es := d.emitted;
    && (es == [] ==> d.history.lastGlobal == FAR_PAST)
    && (es != [] ==> d.history.lastGlobal == es[|es| - 1].at)
    && (forall i :: 0 <= i < |es| ==> es[i].at <= d.history.lastGlobal)
    && (forall i :: 0 <= i < |es| ==> es[i].id in d.history.issued && es[i].at <= d.history.issued[es[i].id])
    && (forall i :: 0 <= i < |d.acks| ==>
          d.acks[i].id in d.history.acknowledged && d.acks[i].at <= d.history.acknowledged[d.acks[i].id])
  }

  /** Every time on file lies in the past. */
  predicate Past(d: Desk, now: real) {
    && d.history.lastGlobal <= now
    && (forall id :: id in d.history.issued ==> d.history.issued[id] <= now)
    && (forall id :: id in d.history.acknowledged ==> d.history.acknowledged[id] <= now)
  }

  lemma EvaluatedIsDue(ts: seq<Target>, u: User, h: History, now: real)
    ensures var a := Evaluate(ts, u, h, now);
      a.Advisory? ==>
        && now - h.lastGlobal >= (if a.requiresAck then GLOBAL else GROUND_GLOBAL)
        && Rested(h.issued, a.id, now, if a.requiresAck then PER_TARGET else GROUND_PER_TARGET)
        && (a.requiresAck ==> Rested(h.acknowledged, a.id, now, VISUAL_LOCKOUT))
  {
    hide Qualifies, GroundQualifies, GroundTemplate;
  }

  lemma PollKeeps(d: Desk, ts: seq<Target>, u: User, now: real)
    requires Faithful(d) && Spaced(d.emitted) && Past(d, now)
    ensures Faithful(Poll(d, ts, u, now)) && Spaced(Poll(d, ts, u, now).emitted) && Past(Poll(d, ts, u, now), now)
  {
    hide Evaluate;
    EvaluatedIsDue(ts, u, d.history, now);
  }

  lemma ReplyKeeps(d: Desk, r: Reply, now: real)
    requires Faithful(d) && Past(d, now)
    ensures Faithful(PilotReplies(d, r, now)) && Past(PilotReplies(d, r, now), now)
    ensures PilotReplies(d, r, now).emitted == d.emitted
  {
  }

  lemma {:induction false} RunKeeps(steps: seq<Step>)
    requires Timely(steps)
    ensures var d := Run(steps); Faithful(d) && Spaced(d.emitted)
    ensures Past(Run(steps), if steps == [] then 0.0 else steps[|steps| - 1].at)
  {
    hide Faithful, Spaced, Past, Poll, PilotReplies;
    if steps == [] {
      StartKeeps();
    } else {
      var n := |steps| - 1;
      var d, s := Run(steps[..n]), steps[n];
      RunKeeps(steps[..n]);
      PastLater(d, if n == 0 then 0.0 else steps[n - 1].at, s.at);
      match s.e
      case Frame(ts, u) => PollKeeps(d, ts, u, s.at);
      case Answer(r) => ReplyKeeps(d, r, s.at);
      case DialogReset => ResetKeeps(d, s.at);
    }
  }

  lemma StartKeeps()
    ensures Faithful(EMPTY) && Spaced(EMPTY.emitted) && Past(EMPTY, 0.0)
  {
  }

  lemma PastLater(d: Desk, then_: real, now: real)
    requires Past(d, then_) && then_ <= now
    ensures Past(d, now)
  {
  }

  lemma ResetKeeps(d: Desk, now: real)
    requires Faithful(d) && Past(d, now)
    ensures var e := d.(awaiting := false, pending := 0); Faithful(e) && Past(e, now) && e.emitted == d.emitted
  {
  }

  /** In every run: 15 s between any two callouts, 20 s before an airborne one, 30 s or 60 s before the
      same target is called again. */
  lemma CalloutsAreSpaced(steps: seq<Step>)
    requires Timely(steps)
    ensures Spaced(Run(steps).emitted)
  {
    RunKeeps(steps);
  }

  /** No airborne callout for a target within 300 s of any acknowledgement of it. */
  lemma VisualLockout(steps: seq<Step>, f: Step, i: nat)
    requires Timely(steps + [f]) && f.e.Frame? && i < |Run(steps).acks|
    requires var d := Run(steps);
      var e := Next(d, f);
      |e.emitted| > |d.emitted| && !e.emitted[|d.emitted|].ground && e.emitted[|d.emitted|].id == d.acks[i].id
    ensures f.at - Run(steps).acks[i].at >= 300.0
  {
    hide Run, Evaluate, Spaced, Past;
    assert forall k :: 0 <= k < |steps| ==> (steps + [f])[k] == steps[k];
    RunKeeps(steps);
    var d := Run(steps);
    EvaluatedIsDue(f.e.ts, f.e.u, d.history, f.at);
  }

  /** Nothing is called out while an acknowledgement is awaited. */
  lemma SilentWhileAwaiting(d: Desk, ts: seq<Target>, u: User, now: real)
    requires d.awaiting
    ensures Poll(d, ts, u, now) == d
  {
    hide Evaluate;
  }

  function Count(es: seq<Emission>, lo: real, hi: real): nat {
    if es == [] then 0
    else
      var n := |es| - 1;
      Count(es[..n], lo, hi) + if lo <= es[n].at <= hi then 1 else 0
  }

  lemma {:induction false} CountShrinks(es: seq<Emission>, lo: real, mid: real, hi: real)
    requires mid <= hi && forall i :: 0 <= i < |es| ==> es[i].at <= mid
    ensures Count(es, lo, hi) == Count(es, lo, mid)
  {
    if es != [] { CountShrinks(es[..|es| - 1], lo, mid, hi); }
  }

  lemma {:induction false} CountOutside(es: seq<Emission>, lo: real, hi: real)
    requires forall i :: 0 <= i < |es| ==> es[i].at < lo
    ensures Count(es, lo, hi) == 0
  {
    if es != [] { CountOutside(es[..|es| - 1], lo, hi); }
  }

  lemma SpacedPrefix(es: seq<Emission>, n: nat)
    requires n <= |es| && Spaced(es)
    ensures Spaced(es[..n])
  {
    assert forall i :: 0 <= i < n ==> es[..n][i] == es[i];
  }

  lemma {:induction false} SpacedCount(es: seq<Emission>, lo: real, hi: real)
    requires Spaced(es) && lo <= hi
    ensures Count(es, lo, hi) <= ((hi - lo) / 15.0).Floor + 1
  {
    hide Spaced;
    if es != [] {
      var n := |es| - 1;
      var rest, last := es[..n], es[n].at;
      SpacedPrefix(es, n);
      if lo <= last <= hi {
        LastGap(es);
        var mid := last - 15.0;
        CountShrinks(rest, lo, mid, hi);
        if mid < lo {
          CountOutside(rest, lo, hi);
        } else {
          SpacedCount(rest, lo, mid);
          assert (mid - lo) / 15.0 == (last - lo) / 15.0 - 1.0;
          assert (last - lo) / 15.0 <= (hi - lo) / 15.0;
        }
      } else {
        SpacedCount(rest, lo, hi);
      }
    }
  }

  lemma LastGap(es: seq<Emission>)
    requires es != [] && Spaced(es)
    ensures var n := |es| - 1; forall i :: 0 <= i < n ==> es[..n][i].at <= es[n].at - 15.0
  {
  }

  /** Any stretch of time of length L holds at most floor(L / 15) + 1 callouts. */
  lemma WindowBound(steps: seq<Step>, lo: real, hi: real)
    requires Timely(steps) && lo <= hi
    ensures Count(Run(steps).emitted, lo, hi) <= ((hi - lo) / 15.0).Floor + 1
  {
    RunKeeps(steps);
    SpacedCount(Run(steps).emitted, lo, hi);
  }

  // ── Who is called out ─────────────────────────────────────────────

  /** The conditions on the two aircraft, in numbers: 2 to 8 miles away, within 1500 ft, ahead of the wings,
      both airborne or both on the ground, and closing or crossing. */
  predicate Threatens(t: Target, u: User) {
    && 2.0 <= t.distanceNm && t.distanceNm <= 8.0 && t.altDiffFt <= 1500.0 && -t.altDiffFt <= 1500.0
    && ((t.clock >= 9.0 && t.clock <= 12.0) || (t.clock >= 1.0 && t.clock <= 3.0))
    && (u.onGround <==> t.low)
    && (t.closure > 0.0 || (t.trackDiff >= 60.0 && t.trackDiff <= 120.0) || (t.trackDiff >= 240.0 && t.trackDiff <= 300.0))
  }

  predicate LongAgo(times: map<nat, real>, id: nat, now: real, span: real) { id in times ==> now >= times[id] + span }

  predicate AirborneCallDue(t: Target, u: User, h: History, now: real) {
    Threatens(t, u) && LongAgo(h.issued, t.id, now, 60.0) && LongAgo(h.acknowledged, t.id, now, 300.0)
  }

  /** On the taxiway: a mover within 0.3 miles that will cross the cone ahead. */
  predicate GroundCallDue(t: Target, h: History, now: real) {
    && 0.3 > t.distanceNm && t.inCone && (t.phase.Taxi? || t.phase.Takeoff? || t.phase.Landed?)
    && LongAgo(h.issued, t.id, now, 30.0)
  }

  predicate InContact(u: User) { u.onAtcFreq && u.state != S.Idle && u.state != S.UnicomActive }

  lemma DueMeans(t: Target, u: User, h: History, now: real)
    ensures AirborneDue(t, u, h, now) <==> AirborneCallDue(t, u, h, now)
    ensures GroundDue(t, h, now) <==> GroundCallDue(t, h, now)
  {
  }

  /** The verb for a ground conflict: hold for a mover ahead, give way to a fast one from the side. */
  predicate GroundVerb(t: Target, template: string) {
    && (t.clock >= 11.0 || t.clock <= 1.0 ==> template == "taxi_hold_position")
    && (1.0 < t.clock < 11.0 && t.groundspeed >= 15.0 ==> template == "taxi_give_way")
    && (1.0 < t.clock < 11.0 && t.groundspeed < 15.0 ==> template == "taxi_caution")
  }

  predicate FirstGroundCall(ts: seq<Target>, h: History, now: real, i: nat) {
    i < |ts| && GroundCallDue(ts[i], h, now) && forall k :: 0 <= k < i ==> !GroundCallDue(ts[k], h, now)
  }

  predicate FirstAirborneCall(ts: seq<Target>, u: User, h: History, now: real, i: nat) {
    i < |ts| && AirborneCallDue(ts[i], u, h, now) && forall k :: 0 <= k < i ==> !AirborneCallDue(ts[k], u, h, now)
  }

  /** A ground conflict is called out exactly while taxiing, 15 s after the last call, when some mover is
      due; the first such is named, with the verb for where it is and how fast. */
  lemma GroundCallIff(ts: seq<Target>, u: User, h: History, now: real)
    ensures var a := GroundConflict(ts, u, h, now);
      && (a.Advisory? <==> u.taxiing && now >= h.lastGlobal + 15.0 && exists i :: 0 <= i < |ts| && GroundCallDue(ts[i], h, now))
      && forall i: nat :: a.Advisory? && FirstGroundCall(ts, h, now, i) ==>
           a.id == ts[i].id && !a.requiresAck && GroundVerb(ts[i], a.template)
  {
    hide GroundDue, GroundCallDue;
    forall i | 0 <= i < |ts| ensures GroundDue(ts[i], h, now) <==> GroundCallDue(ts[i], h, now) {
      DueMeans(ts[i], u, h, now);
    }
    var i := P.FirstMatch(ts, (t: Target) => GroundDue(t, h, now));
    if i < |ts| { assert GroundCallDue(ts[i], h, now); }
    forall k: nat | FirstGroundCall(ts, h, now, k) ensures k == i {
      assert !(k < i) && !(i < k);
    }
  }

  /** Where no ground conflict is called out, an airborne target is, exactly while in contact with a
      controller, 20 s after the last call, when some target is due; the first such is named. */
  lemma AirborneCallIff(ts: seq<Target>, u: User, h: History, now: real)
    requires GroundConflict(ts, u, h, now).NoAdvisory?
    ensures var a := Evaluate(ts, u, h, now);
      && (a.Advisory? <==>
            InContact(u) && now >= h.lastGlobal + 20.0 && exists i :: 0 <= i < |ts| && AirborneCallDue(ts[i], u, h, now))
      && forall i: nat :: a.Advisory? && FirstAirborneCall(ts, u, h, now, i) ==> a == Advisory(ts[i].id, "traffic_advisory", true)
  {
    hide AirborneDue, AirborneCallDue, GroundConflict;
    forall i | 0 <= i < |ts| ensures AirborneDue(ts[i], u, h, now) <==> AirborneCallDue(ts[i], u, h, now) {
      DueMeans(ts[i], u, h, now);
    }
    var i := AirborneIndex(ts, u, h, now);
    if i < |ts| { assert AirborneCallDue(ts[i], u, h, now); }
    forall k: nat | FirstAirborneCall(ts, u, h, now, k) ensures k == i {
      assert !(k < i) && !(i < k);
    }
  }

  /** A ground conflict goes before everything else. */
  lemma GroundFirst(ts: seq<Target>, u: User, h: History, now: real)
    ensures GroundConflict(ts, u, h, now).Advisory? ==> Evaluate(ts, u, h, now) == GroundConflict(ts, u, h, now)
  {
  }

  // ── Whose acknowledgement is awaited ──────────────────────────────

  /** The last step called out an airborne target. */
  predicate CallsAirborne(steps: seq<Step>) {
    steps != [] &&
    var before, es := Run(steps[..|steps| - 1]).emitted, Run(steps).emitted;
    |es| > |before| && !es[|es| - 1].ground
  }

  /** Since an airborne target was called out no reply came and nothing was reset. */
  predicate Unanswered(steps: seq<Step>) {
    steps != [] && steps[|steps| - 1].e.Frame? && (CallsAirborne(steps) || Unanswered(steps[..|steps| - 1]))
  }

  /** Over every run a reply is awaited exactly while the last airborne callout is unanswered, and it is
      the target of the last callout that it is about. */
  lemma {:induction false} AwaitedIff(steps: seq<Step>)
    ensures var d := Run(steps);
      && (d.awaiting <==> Unanswered(steps))
      && (d.awaiting ==> d.emitted != [] && !d.emitted[|d.emitted| - 1].ground && d.pending == d.emitted[|d.emitted| - 1].id)
  {
    hide Evaluate;
    if steps != [] { AwaitedIff(steps[..|steps| - 1]); }
  }

  /** A reply while one is awaited ends the wait, and with the traffic in sight acknowledges the target
      last called out, at that time; any other reply is not about traffic and changes nothing. */
  lemma ReplyIsFiled(steps: seq<Step>, r: Reply, at: real)
    ensures var d, n := Run(steps), Run(steps + [Step(Answer(r), at)]);
      && !n.awaiting && n.emitted == d.emitted
      && (!Unanswered(steps) ==> n == d)
      && (Unanswered(steps) ==> d.emitted != [])
      && (Unanswered(steps) && r.InSight? ==> n.acks == d.acks + [Ack(d.emitted[|d.emitted| - 1].id, at)])
      && (Unanswered(steps) && r.NotYet? ==> n.acks == d.acks && n.history == d.history)
  {
    hide Run, Unanswered;
    AwaitedIff(steps);
    NextOf(steps, Step(Answer(r), at));
  }

  lemma NextOf(steps: seq<Step>, s: Step)
    ensures Run(steps + [s]) == Next(Run(steps), s)
  {
    hide Next;
    assert (steps + [s])[..|steps|] == steps;
  }
}
