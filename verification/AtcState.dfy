/** The controller's state record, its generation counter and its primitive mutators.  Everything the
    revert guard later relies on is decided here: which writes count as semantic. */
module AtcState {
  import Bzf

  datatype State =
    | Idle | GroundContact | TaxiCleared | TowerContact | DepartureCleared | PatternEntry
    | LandingCleared | TouchAndGoCleared | UnicomActive | EnRoute

  datatype DepartureType = Pattern | CrossCountry

  datatype HistoryEntry = HistoryEntry(state: State, reason: string, at: real)

  const HISTORY_CAP := 8

  /** `log` is an auxiliary record of every transition since the last reset; no operation reads it. */
  datatype Machine = Machine(
    gen: nat,
    state: State,
    readbackPending: bool,
    wasAirborne: bool,
    assignedRunway: string,
    sessionCallsign: string,
    clearanceText: string,
    clearance: Bzf.Clearance,
    towerResponse: string,
    departureType: DepartureType,
    intentDeclared: bool,
    intentCrossCountry: bool,
    intentDestination: string,
    history: seq<HistoryEntry>,
    lastNow: real,
    correctionKey: string,
    correctionTimer: real,
    log: seq<HistoryEntry>)

  const FRESH := Machine(0, Idle, false, false, "", "", "", Bzf.NO_CLEARANCE, "", Pattern, false, false, "",
                         [], 0.0, "", 0.0, [])

  // ── State names ───────────────────────────────────────────────────

  function StateName(m: Machine, s: State): string {
    match s
    case Idle => "IDLE"
    case GroundContact => "GROUND_CONTACT"
    case TaxiCleared => "TAXI_CLEARED"
    case TowerContact => "TOWER_CONTACT"
    case DepartureCleared =>
      if m.departureType.CrossCountry? then "XC/DEPARTURE_CLEARED" else "Pattern/DEPARTURE_CLEARED"
    case PatternEntry => "Pattern/PATTERN_ENTRY"
    case LandingCleared => "Pattern/LANDING_CLEARED"
    case TouchAndGoCleared => "Pattern/TOUCH_AND_GO_CLEARED"
    case UnicomActive => "UNICOM_ACTIVE"
    case EnRoute => "XC/EN_ROUTE"
  }

  function CurrentName(m: Machine): string { StateName(m, m.state) }

  const STATES_BY_NAME: map<string, State> :=
    map["IDLE" := Idle, "GROUND_CONTACT" := GroundContact, "TAXI_CLEARED" := TaxiCleared,
        "TOWER_CONTACT" := TowerContact, "UNICOM_ACTIVE" := UnicomActive,
        "DEPARTURE_CLEARED" := DepartureCleared, "Pattern/DEPARTURE_CLEARED" := DepartureCleared,
        "XC/DEPARTURE_CLEARED" := DepartureCleared,
        "PATTERN_ENTRY" := PatternEntry, "Pattern/PATTERN_ENTRY" := PatternEntry,
        "LANDING_CLEARED" := LandingCleared, "Pattern/LANDING_CLEARED" := LandingCleared,
        "TOUCH_AND_GO_CLEARED" := TouchAndGoCleared, "Pattern/TOUCH_AND_GO_CLEARED" := TouchAndGoCleared,
        "EN_ROUTE" := EnRoute, "XC/EN_ROUTE" := EnRoute]

  /** An unknown name means IDLE. */
  function StateFromName(name: string): State {
    if name in STATES_BY_NAME then STATES_BY_NAME[name] else Idle
  }

  /** Names round-trip, whichever flow the departure belongs to. */
  lemma NameRoundTrip(m: Machine, s: State)
    ensures StateFromName(StateName(m, s)) == s
  {
    var table := STATES_BY_NAME;
    assert "IDLE" in table && "GROUND_CONTACT" in table && "TAXI_CLEARED" in table && "TOWER_CONTACT" in table;
    assert "UNICOM_ACTIVE" in table && "Pattern/DEPARTURE_CLEARED" in table && "XC/DEPARTURE_CLEARED" in table;
    assert "Pattern/PATTERN_ENTRY" in table && "Pattern/LANDING_CLEARED" in table;
    assert "Pattern/TOUCH_AND_GO_CLEARED" in table && "XC/EN_ROUTE" in table;
  }

  // ── What counts as semantic ───────────────────────────────────────

  /** The record without the counter and the per-frame heartbeat fields. */
  function Semantic(m: Machine): Machine {
    m.(gen := 0, lastNow := 0.0, correctionKey := "", correctionTimer := 0.0)
  }

  /** The counter never falls, and it rises whenever anything semantic changed. */
  predicate Advances(m: Machine, n: Machine) {
    m.gen <= n.gen && (m.gen == n.gen ==> Semantic(m) == Semantic(n))
  }

  // ── History ───────────────────────────────────────────────────────

  function Tail<T>(s: seq<T>, n: nat): (t: seq<T>)
    ensures |t| <= n && |t| <= |s| && t == s[|s| - |t|..]
  {
    if |s| <= n then s else s[|s| - n..]
  }

  lemma TailPush<T>(s: seq<T>, n: nat, x: T)
    requires n > 0
    ensures Tail(Tail(s, n) + [x], n) == Tail(s + [x], n)
  {
  }

  /** The state entered right after log entry `i`. */
  function StateAfter(m: Machine, i: nat): State
    requires i < |m.log|
  {
    if i + 1 < |m.log| then m.log[i + 1].state else m.state
  }

  predicate Sorted(h: seq<HistoryEntry>) { forall i, j :: 0 <= i <= j < |h| ==> h[i].at <= h[j].at }

  lemma SortedDrop(h: seq<HistoryEntry>, d: nat)
    requires d <= |h| && Sorted(h)
    ensures Sorted(h[d..])
  {
    assert forall i :: 0 <= i < |h| - d ==> h[d..][i] == h[d + i];
  }

  /** The stored history is the tail of the full log, and no transition is to the same state. */
  ghost predicate WellShaped(m: Machine) {
    m.history == Tail(m.log, HISTORY_CAP) && forall i :: 0 <= i < |m.log| ==> m.log[i].state != StateAfter(m, i)
  }

  /** The timestamps never fall, and none lies ahead of the clock. */
  ghost predicate Ordered(m: Machine) {
    Sorted(m.log) && forall i :: 0 <= i < |m.log| ==> m.log[i].at <= m.lastNow
  }

  ghost predicate WellLogged(m: Machine) { WellShaped(m) && Ordered(m) }

  /** Whatever obligation is open, its clearance lists the callsign. */
  predicate ClearanceSound(m: Machine) {
    m.readbackPending || m.clearanceText != "" ==> Bzf.Callsign in m.clearance.required
  }

  predicate SameClearance(m: Machine, n: Machine) {
    m.clearanceText == n.clearanceText && m.clearance == n.clearance && m.towerResponse == n.towerResponse
  }

  /** What every pipeline stage guarantees between its entry and exit states. */
  ghost predicate Evolves(m: Machine, n: Machine) {
    && Advances(m, n)
    && n.lastNow == m.lastNow && n.correctionKey == m.correctionKey && n.correctionTimer == m.correctionTimer
    && (WellShaped(m) ==> WellShaped(n))
    && (Ordered(m) ==> Ordered(n))
    && (ClearanceSound(m) ==> ClearanceSound(n))
  }

  /** A stage that also leaves the clearance on file and the last response alone. */
  ghost predicate KeepsClearance(m: Machine, n: Machine) { Evolves(m, n) && SameClearance(m, n) }

  lemma EvolvesChain(a: Machine, b: Machine, c: Machine)
    requires Evolves(a, b) && Evolves(b, c)
    ensures Evolves(a, c)
    ensures SameClearance(a, b) && SameClearance(b, c) ==> KeepsClearance(a, c)
  {
    hide WellShaped, Ordered, ClearanceSound;
  }

  // ── Primitive mutators ────────────────────────────────────────────

  function Bump(m: Machine): Machine { m.(gen := m.gen + 1) }

  /** The single path that changes the state: a move to the current state is no move at all. */
  function TransitionTo(m: Machine, next: State, reason: string): (n: Machine)
    ensures n.state == next
    ensures KeepsClearance(m, n)
    ensures n.(gen := m.gen, state := m.state, history := m.history, log := m.log) == m
    ensures n.log == if next == m.state then m.log else m.log + [HistoryEntry(m.state, reason, m.lastNow)]
  {
    if next == m.state then m
    else
      var entry := HistoryEntry(m.state, reason, m.lastNow);
      var n := Bump(m).(history := Tail(m.history + [entry], HISTORY_CAP), log := m.log + [entry], state := next);
      PushKeepsLog(m, entry, n);
      n
  }

  lemma PushKeepsLog(m: Machine, entry: HistoryEntry, n: Machine)
    requires entry.state == m.state && entry.at == m.lastNow && n.state != m.state && n.lastNow == m.lastNow
    requires n.log == m.log + [entry] && n.history == Tail(m.history + [entry], HISTORY_CAP)
    ensures WellShaped(m) ==> WellShaped(n)
    ensures Ordered(m) ==> Ordered(n)
  {
    if WellShaped(m) {
      TailPush(m.log, HISTORY_CAP, entry);
      forall i | 0 <= i < |n.log| ensures n.log[i].state != StateAfter(n, i) {
        if i < |m.log| { assert m.log[i].state != StateAfter(m, i); }
      }
    }
  }

  function SetReadbackPending(m: Machine, v: bool): Machine { Bump(m).(readbackPending := v) }

  /** Writing the value already there is no write: not even the counter moves. */
  function SetWasAirborne(m: Machine, v: bool): (n: Machine)
    ensures KeepsClearance(m, n) && n.state == m.state && n.wasAirborne == v && n.log == m.log
    ensures n == m <==> m.wasAirborne == v
    ensures n != m ==> n.gen == m.gen + 1 && n.(gen := m.gen, wasAirborne := m.wasAirborne) == m
  {
    if m.wasAirborne == v then m else Bump(m).(wasAirborne := v)
  }

  function SetDepartureType(m: Machine, t: DepartureType): (n: Machine)
    ensures KeepsClearance(m, n) && n.state == m.state && n.log == m.log
    ensures n.departureType == t && n.gen > m.gen && n.(gen := m.gen, departureType := m.departureType) == m
  {
    Bump(m).(departureType := t)
  }

  function SetFlightIntent(m: Machine, crossCountry: bool, destination: string): (n: Machine)
    ensures KeepsClearance(m, n) && n.state == m.state && n.log == m.log && n.gen > m.gen
    ensures n.intentDeclared && n.intentCrossCountry == crossCountry
    ensures n.intentDestination == if crossCountry then destination else ""
    ensures n.(gen := m.gen, intentDeclared := m.intentDeclared, intentCrossCountry := m.intentCrossCountry,
               intentDestination := m.intentDestination) == m
  {
    Bump(m).(intentDeclared := true, intentCrossCountry := crossCountry,
             intentDestination := if crossCountry then destination else "")
  }

  /** Both locks are released, as an answer that leads to IDLE and a forced IDLE do. */
  function ReleaseLocks(m: Machine): (n: Machine)
    ensures KeepsClearance(m, n) && n.state == m.state && n.log == m.log && n.readbackPending == m.readbackPending
    ensures n.assignedRunway == "" && n.sessionCallsign == ""
    ensures n.(gen := m.gen, assignedRunway := m.assignedRunway, sessionCallsign := m.sessionCallsign) == m
  {
    var a := if m.assignedRunway == "" then m else Bump(m).(assignedRunway := "");
    if a.sessionCallsign == "" then a else Bump(a).(sessionCallsign := "")
  }

  /** Direct state change from outside the pipeline. */
  function SetState(m: Machine, s: State): (n: Machine)
    ensures KeepsClearance(m, n) && n.state == s && n.readbackPending == m.readbackPending
    ensures n.log == if s == m.state then m.log else m.log + [HistoryEntry(m.state, "external_set_state", m.lastNow)]
    ensures s.Idle? ==> n.assignedRunway == "" && n.sessionCallsign == ""
    ensures !s.Idle? ==> n.assignedRunway == m.assignedRunway && n.sessionCallsign == m.sessionCallsign
  {
    var a := TransitionTo(m, s, "external_set_state");
    if s.Idle? then (EvolvesChain(m, a, ReleaseLocks(a)); ReleaseLocks(a)) else a
  }

  lemma ShortHistory(m: Machine, s: State)
    requires s != m.state && |m.history| < HISTORY_CAP
    ensures SetState(m, s).history == m.history + [HistoryEntry(m.state, "external_set_state", m.lastNow)]
  {
    hide WellShaped, Ordered, KeepsClearance;
  }

  // ── Lifecycle ─────────────────────────────────────────────────────

  /** Start-up.  The last tower response and the correction timer survive, unlike in the two resets. */
  function Init(m: Machine, readyForTakeoff: bool): (n: Machine)
    ensures Advances(m, n) && WellLogged(n) && ClearanceSound(n) && n.gen > m.gen
    ensures n.state == if readyForTakeoff then TowerContact else Idle
    ensures n.towerResponse == m.towerResponse && n.correctionKey == m.correctionKey && n.correctionTimer == m.correctionTimer
    ensures Semantic(n.(state := Idle, towerResponse := "")) == FRESH
  {
    FRESH.(gen := m.gen + 1, state := if readyForTakeoff then TowerContact else Idle,
           towerResponse := m.towerResponse,
           correctionKey := m.correctionKey, correctionTimer := m.correctionTimer)
  }

  /** Stop and reset: semantically a fresh record; the correction timer runs on. */
  function Reset(m: Machine): (n: Machine)
    ensures Advances(m, n) && WellLogged(n) && ClearanceSound(n) && n.gen > m.gen
    ensures Semantic(n) == FRESH && n.correctionKey == m.correctionKey && n.correctionTimer == m.correctionTimer
  {
    FRESH.(gen := m.gen + 1, correctionKey := m.correctionKey, correctionTimer := m.correctionTimer)
  }

  /** A reposition resets only between flights; otherwise nothing at all is written. */
  function BeginFreshFlight(m: Machine, onGround: bool): (n: Machine)
    ensures n == m || n == Reset(m)
    ensures n == m <==> !(onGround && (m.state.Idle? || m.state.GroundContact?))
  {
    if onGround && (m.state.Idle? || m.state.GroundContact?) then Reset(m) else m
  }

  // ── Snapshot and restore ──────────────────────────────────────────

  /** Restore refuses unless nothing semantic happened since `expected` was read. */
  function RestoreIfGen(m: Machine, snapshot: Machine, expected: nat): (r: (Machine, bool))
    ensures r.1 <==> m.gen == expected
    ensures !r.1 ==> r.0 == m
    ensures r.1 ==> r.0.gen > m.gen && r.0.(gen := snapshot.gen) == snapshot
  {
    if m.gen != expected then (m, false) else (snapshot.(gen := m.gen + 1), true)
  }

  // ── Reading the history ───────────────────────────────────────────

  /** Some stored entry for `s` has the window reach back to it and to everything after it. */
  ghost predicate ReachedBack(h: seq<HistoryEntry>, s: State, maxAge: real, now: real) {
    exists i :: 0 <= i < |h| && h[i].state == s && forall k :: i <= k < |h| ==> now - h[k].at <= maxAge
  }

  ghost predicate InWindow(h: seq<HistoryEntry>, s: State, maxAge: real, now: real) {
    exists i :: 0 <= i < |h| && h[i].state == s && now - h[i].at <= maxAge
  }

  lemma SortedScan(h: seq<HistoryEntry>, s: State, maxAge: real, now: real)
    requires Sorted(h)
    ensures ReachedBack(h, s, maxAge, now) <==> InWindow(h, s, maxAge, now)
  {
    if InWindow(h, s, maxAge, now) {
      var i :| 0 <= i < |h| && h[i].state == s && now - h[i].at <= maxAge;
      assert forall k :: i <= k < |h| ==> h[i].at <= h[k].at;
    }
  }

  /** On nondecreasing timestamps the early exit loses nothing. */
  lemma EarlyExitIsFullScan(m: Machine, s: State, maxAge: real, now: real)
    requires WellLogged(m)
    ensures ReachedBack(m.history, s, maxAge, now) <==> InWindow(m.history, s, maxAge, now)
  {
    hide ReachedBack, InWindow, Sorted;
    SortedDrop(m.log, |m.log| - |m.history|);
    SortedScan(m.history, s, maxAge, now);
  }

  /** The early exit answers every query as a full scan would. */
  ghost predicate EarlyExitExact(h: seq<HistoryEntry>) {
    forall s, maxAge, now :: ReachedBack(h, s, maxAge, now) <==> InWindow(h, s, maxAge, now)
  }

  /** No entry is hidden: for each there is one of its state after which nothing is older than it. */
  ghost predicate NothingHidden(h: seq<HistoryEntry>) {
    forall i :: 0 <= i < |h| ==> Shows(h, h[i].state, h[i].at)
  }

  ghost predicate Shows(h: seq<HistoryEntry>, s: State, at: real) {
    exists j :: 0 <= j < |h| && h[j].state == s && forall k :: j <= k < |h| ==> at <= h[k].at
  }

  /** The exact condition, for any history whatever. */
  lemma EarlyExitExactIff(h: seq<HistoryEntry>)
    ensures EarlyExitExact(h) <==> NothingHidden(h)
  {
    if EarlyExitExact(h) {
      forall i | 0 <= i < |h| ensures Shows(h, h[i].state, h[i].at) {
        assert InWindow(h, h[i].state, -h[i].at, 0.0);
        var j :| 0 <= j < |h| && h[j].state == h[i].state && forall k :: j <= k < |h| ==> 0.0 - h[k].at <= -h[i].at;
        assert forall k :: j <= k < |h| ==> h[i].at <= h[k].at;
      }
    }
    if NothingHidden(h) {
      forall s, maxAge, now | InWindow(h, s, maxAge, now) ensures ReachedBack(h, s, maxAge, now) {
        var i :| 0 <= i < |h| && h[i].state == s && now - h[i].at <= maxAge;
        assert Shows(h, h[i].state, h[i].at);
      }
    }
  }

  predicate IsLanding(s: State) { s.LandingCleared? || s.TouchAndGoCleared? }

  /** On the ground after a landing with no departure clearance among the past states since. */
  ghost predicate LandedSince(m: Machine) {
    IsLanding(m.state) ||
    exists i :: 0 <= i < |m.history| && IsLanding(m.history[i].state) &&
      forall k :: i < k < |m.history| ==> !m.history[k].state.DepartureCleared?
  }

  /** The states passed through, the current one last. */
  function StateAt(m: Machine, i: nat): State
    requires i <= |m.history|
  {
    if i < |m.history| then m.history[i].state else m.state
  }

  /** What the window is meant to be: a departure clearance after the last landing closes it, whether
      it is past or current. */
  ghost predicate StillArrived(m: Machine) {
    exists i :: 0 <= i <= |m.history| && IsLanding(StateAt(m, i)) &&
      forall k :: i < k <= |m.history| ==> !StateAt(m, k).DepartureCleared?
  }

  /** The current state is not consulted: exactly while a departure clearance is current and the last
      past one came before the landing, the window is open when it should be closed. */
  lemma WindowExactIff(m: Machine)
    ensures StillArrived(m) ==> LandedSince(m)
    ensures (LandedSince(m) <==> StillArrived(m)) <==> !(m.state.DepartureCleared? && LandedSince(m))
  {
    if StillArrived(m) {
      var i :| 0 <= i <= |m.history| && IsLanding(StateAt(m, i)) &&
        forall k :: i < k <= |m.history| ==> !StateAt(m, k).DepartureCleared?;
      assert forall k :: i < k < |m.history| ==> StateAt(m, k) == m.history[k].state;
      assert !m.state.DepartureCleared? by { assert StateAt(m, |m.history|) == m.state; }
    }
    if LandedSince(m) && !m.state.DepartureCleared? {
      if IsLanding(m.state) {
        assert IsLanding(StateAt(m, |m.history|));
      } else {
        var i :| 0 <= i < |m.history| && IsLanding(m.history[i].state) &&
          forall k :: i < k < |m.history| ==> !m.history[k].state.DepartureCleared?;
        assert IsLanding(StateAt(m, i));
      }
    }
  }
}
