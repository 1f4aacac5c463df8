/** The flight logbook: one file per flight, named after it, rewritten on every transmission. */
module Logbook {
  import opened Text

  /** What a transmission carries that the log looks at; `body` is the rest of its record. */
  datatype Entry = Entry(airport: string, state: string, phase: string, intent: string, frequency: string, body: string)

  /** A flight file: its transmissions and the two header fields that change after opening. */
  datatype Doc = Doc(entries: seq<Entry>, destination: string, missingInitialCall: bool)

  type Files = map<string, Doc>

  // ── File names ────────────────────────────────────────────────────

  function Decimal(n: nat): string {
    if n < 10 then [DigitChar(n)] else Decimal(n / 10) + [DigitChar(n % 10)]
  }

  function Number(s: string): nat
    requires AllDigits(s)
  {
    if s == "" then 0 else Number(s[..|s| - 1]) * 10 + DigitValue(s[|s| - 1])
  }

  lemma {:induction false} DecimalReads(n: nat)
    ensures AllDigits(Decimal(n)) && Number(Decimal(n)) == n
  {
    var s := Decimal(n);
    if n < 10 {
      assert s[..0] == "";
    } else {
      DecimalReads(n / 10);
      assert s[..|s| - 1] == Decimal(n / 10);
    }
  }

  const SUFFIX := ".json"

  /** The n-th name tried for a flight; the first has no number. */
  function Candidate(base: string, n: nat): string {
    if n < 2 then base + SUFFIX else base + "_" + Decimal(n) + SUFFIX
  }

  lemma CandidatesDiffer(base: string, m: nat, n: nat)
    requires 1 <= m < n
    ensures Candidate(base, m) != Candidate(base, n)
  {
    var c, d := Candidate(base, m), Candidate(base, n);
    DecimalReads(n);
    assert d[|base|..|d| - |SUFFIX|] == "_" + Decimal(n);
    if m < 2 {
      assert c[|base|..|c| - |SUFFIX|] == "";
    } else {
      DecimalReads(m);
      assert c[|base|..|c| - |SUFFIX|] == "_" + Decimal(m);
      assert ("_" + Decimal(m))[1..] == Decimal(m) && ("_" + Decimal(n))[1..] == Decimal(n);
    }
  }

  /** Existing names the search may still run into. */
  ghost function Ahead(names: set<string>, base: string, n: nat): set<string> {
    set p | p in names && exists k :: k >= n && p == Candidate(base, k)
  }

  lemma AheadShrinks(names: set<string>, base: string, n: nat)
    requires n >= 1 && Candidate(base, n) in names
    ensures |Ahead(names, base, n + 1)| < |Ahead(names, base, n)|
  {
    var here, next := Ahead(names, base, n), Ahead(names, base, n + 1);
    var c := Candidate(base, n);
    assert c in here;
    forall k | k >= n + 1
      ensures Candidate(base, k) != c
    {
      CandidatesDiffer(base, n, k);
    }
    assert next <= here - {c};
    SubsetCount(next, here - {c});
  }

  lemma {:induction false} SubsetCount(s: set<string>, t: set<string>)
    requires s <= t
    ensures |s| <= |t|
    decreases |s|
  {
    if s != {} {
      var x :| x in s;
      SubsetCount(s - {x}, t - {x});
    }
  }

  /** The first candidate from the n-th on that is free, or the file to be renamed itself. */
  function PickFrom(names: set<string>, base: string, ignore: string, n: nat): (p: string)
    requires n >= 1
    ensures p == ignore || p !in names
    decreases |Ahead(names, base, n)|
  {
    var c := Candidate(base, n);
    if c == ignore || c !in names then c
    else
      AheadShrinks(names, base, n);
      PickFrom(names, base, ignore, n + 1)
  }

  function SanitizeChar(c: char): string {
    if IsUpper(c) || IsDigit(c) then [c] else if IsLower(c) then [(c as int - 32) as char] else ""
  }

  function SanitizeAll(id: string): string {
    if id == "" then "" else SanitizeChar(id[0]) + SanitizeAll(id[1..])
  }

  function Sanitize(id: string): string {
    var s := SanitizeAll(id);
    if s == "" then "UNKNOWN" else s
  }

  // ── Classification of transmissions ───────────────────────────────

  predicate AirbornePhase(p: string) {
    p in {"TAKEOFF_ROLL", "CLIMB", "PATTERN", "FINAL_APPROACH", "LANDING_ROLL", "CRUISE"}
  }

  predicate GroundPhase(p: string) { p in {"PARKED", "TAXI"} }

  predicate DepartureCall(i: string) { i in {"INITIAL_CALL_GROUND", "INITIAL_CALL_TOWER", "INITIAL_CALL"} }

  predicate InboundCall(i: string) { i in {"INITIAL_CALL_INBOUND", "INITIAL_CALL_INBOUND_VRP"} }

  predicate Controlled(f: string) { f in {"Tower", "Ground", "Delivery", "Info", "Radio"} }

  // ── The log ───────────────────────────────────────────────────────

  /** `flights` and `paths` are auxiliary: the transmissions and the file of every flight so far. */
  datatype Log = Log(
    dir: string,
    forceNew: bool,
    isOpen: bool,
    wasAirborne: bool,
    departure: string,
    destination: string,
    stamp: string,
    sawInitialCall: bool,
    controlled: bool,
    doc: Doc,
    path: string,
    files: Files,
    flights: seq<seq<Entry>>,
    paths: seq<string>)

  const NO_DOC := Doc([], "", false)

  function Start(dir: string, files: Files): Log {
    Log(dir, false, false, false, "", "", "", false, false, NO_DOC, "", files, [], [])
  }

  function Base(l: Log): string {
    l.dir + "/" + l.stamp + "_" + if l.destination == "" then l.departure else l.departure + "-" + l.destination
  }

  function PickFlightPath(l: Log, ignore: string): (p: string)
    ensures p == ignore || p !in l.files
  {
    PickFrom(l.files.Keys, Base(l), ignore, 1)
  }

  predicate NeedsNew(l: Log, e: Entry) {
    !l.isOpen || l.forceNew ||
    (l.wasAirborne && e.state == "IDLE" && GroundPhase(e.phase) && DepartureCall(e.intent))
  }

  function OpenFlight(l: Log, e: Entry, stamp: string): Log {
    var m := l.(departure := Sanitize(e.airport), destination := "", stamp := stamp, sawInitialCall := false,
                controlled := Controlled(e.frequency), doc := NO_DOC);
    var path := PickFlightPath(m, "");
    m.(path := path, isOpen := true, wasAirborne := false, forceNew := false,
       flights := l.flights + [[]], paths := l.paths + [path])
  }

  /** The transmission appended, and the initial-call compliance frozen on the first airborne one. */
  function Append(l: Log, e: Entry): Log
    requires l.flights != []
  {
    var n := |l.flights| - 1;
    var saw := l.sawInitialCall || DepartureCall(e.intent) || InboundCall(e.intent);
    var controlled := if l.wasAirborne then l.controlled else l.controlled || Controlled(e.frequency);
    var airborne := AirbornePhase(e.phase);
    var missing := if !l.wasAirborne && airborne then controlled && !saw else l.doc.missingInitialCall;
    l.(doc := l.doc.(entries := l.doc.entries + [e], missingInitialCall := missing),
       sawInitialCall := saw, controlled := controlled, wasAirborne := l.wasAirborne || airborne,
       flights := l.flights[n := l.flights[n] + [e]])
  }

  predicate NamesDestination(l: Log, e: Entry) {
    var dest := Sanitize(e.airport);
    InboundCall(e.intent) && dest != "UNKNOWN" && dest != l.departure && dest != l.destination
  }

  /** std::rename: moves the file if it is there. */
  function Moved(files: Files, from: string, to: string): Files {
    if from !in files then files else (files - {from})[to := files[from]]
  }

  function FixDestination(l: Log, e: Entry): Log
    requires l.paths != []
  {
    if !NamesDestination(l, e) then l
    else
      var m := l.(destination := Sanitize(e.airport), doc := l.doc.(destination := e.airport));
      var path := PickFlightPath(m, m.path);
      if path == m.path then m
      else m.(files := Moved(m.files, m.path, path), path := path, paths := m.paths[|m.paths| - 1 := path])
  }

  function Flush(l: Log): Log { l.(files := l.files[l.path := l.doc]) }

  function Write(l: Log, e: Entry, stamp: string): Log
    requires l.isOpen ==> l.flights != [] && l.paths != []
  {
    var a := if NeedsNew(l, e) then OpenFlight(l, e, stamp) else l;
    Flush(FixDestination(Append(a, e), e))
  }

  class FlightLog {
    var l: Log

    constructor (dir: string, files: Files)
      ensures l == Start(dir, files)
    {
      l := Start(dir, files);
    }

    method SetDir(dir: string)
      modifies this
      ensures l == old(l).(dir := dir)
    {
      l := l.(dir := dir);
    }

    method BeginNewFlight()
      modifies this
      ensures l == old(l).(forceNew := true)
    {
      l := l.(forceNew := true);
    }

    /** The search loop over the numbered names; it ends because they are all different. */
    method PickPath(ignore: string) returns (candidate: string)
      ensures candidate == PickFlightPath(l, ignore)
    {
      hide Candidate, Ahead;
      var base := Base(l);
      candidate := Candidate(base, 1);
      CandidateNames(base);
      var n := 2;
      while candidate != ignore && candidate in l.files
        invariant n >= 2 && candidate == Candidate(base, n - 1)
        invariant PickFrom(l.files.Keys, base, ignore, n - 1) == PickFrom(l.files.Keys, base, ignore, 1)
        decreases |Ahead(l.files.Keys, base, n - 1)|
      {
        AheadShrinks(l.files.Keys, base, n - 1);
        CandidateNames(base);
        candidate := base + "_" + Decimal(n) + SUFFIX;
        n := n + 1;
      }
    }

    method Open(e: Entry, stamp: string)
      modifies this
      ensures l == OpenFlight(old(l), e, stamp)
    {
      hide PickFlightPath, Sanitize;
      l := l.(departure := Sanitize(e.airport), destination := "", stamp := stamp);
      l := l.(sawInitialCall := false, controlled := Controlled(e.frequency), doc := NO_DOC);
      var path := PickPath("");
      l := l.(path := path, isOpen := true, wasAirborne := false, forceNew := false);
      l := l.(flights := l.flights + [[]], paths := l.paths + [path]);
    }

    method Record(e: Entry)
      requires l.flights != []
      modifies this
      ensures l == Append(old(l), e)
    {
      hide AirbornePhase, Controlled, DepartureCall, InboundCall;
      var n := |l.flights| - 1;
      l := l.(doc := l.doc.(entries := l.doc.entries + [e]), flights := l.flights[n := l.flights[n] + [e]]);
      if DepartureCall(e.intent) || InboundCall(e.intent) { l := l.(sawInitialCall := true); }
      NoteDeparture(Controlled(e.frequency), AirbornePhase(e.phase));
    }

    /** The field counts until take-off, and the verdict is frozen at the first airborne phase. */
    method NoteDeparture(controlledField: bool, airborne: bool)
      modifies this
      ensures var controlled := if old(l).wasAirborne then old(l).controlled else old(l).controlled || controlledField;
        l == old(l).(controlled := controlled, wasAirborne := old(l).wasAirborne || airborne,
                     doc := old(l).doc.(missingInitialCall :=
                       if !old(l).wasAirborne && airborne then controlled && !old(l).sawInitialCall
                       else old(l).doc.missingInitialCall))
    {
      if !l.wasAirborne { l := l.(controlled := l.controlled || controlledField); }
      if !l.wasAirborne && airborne {
        l := l.(doc := l.doc.(missingInitialCall := l.controlled && !l.sawInitialCall));
      }
      if airborne { l := l.(wasAirborne := true); }
    }

    method RenameForDestination(e: Entry)
      requires l.paths != []
      modifies this
      ensures l == FixDestination(old(l), e)
    {
      hide PickFlightPath, Sanitize, InboundCall;
      var dest := Sanitize(e.airport);
      if !InboundCall(e.intent) || dest == "UNKNOWN" || dest == l.departure || dest == l.destination { return; }
      l := l.(destination := dest, doc := l.doc.(destination := e.airport));
      var path := PickPath(l.path);
      if path == l.path { return; }
      l := l.(files := Moved(l.files, l.path, path), path := path, paths := l.paths[|l.paths| - 1 := path]);
    }

    method WriteEntry(e: Entry, stamp: string)
      requires l.isOpen ==> l.flights != [] && l.paths != []
      modifies this
      ensures l == Write(old(l), e, stamp)
    {
      hide NeedsNew, FixDestination, Append;
      if NeedsNew(l, e) { Open(e, stamp); } else { StillOpen(l, e); }
      AppendKeepsPaths(l, e);
      Record(e);
      RenameForDestination(e);
      l := l.(files := l.files[l.path := l.doc]);
    }
  }

  lemma CandidateNames(base: string)
    ensures Candidate(base, 1) == base + SUFFIX
    ensures forall n :: n >= 2 ==> Candidate(base, n) == base + "_" + Decimal(n) + SUFFIX
  {
  }

  lemma AppendKeepsPaths(l: Log, e: Entry)
    requires l.flights != []
    ensures Append(l, e).paths == l.paths && Append(l, e).path == l.path && Append(l, e).files == l.files
  {
  }

  // ── Runs ──────────────────────────────────────────────────────────

  datatype Event = Transmission(e: Entry, stamp: string) | NewFlight | Directory(dir: string)

  /** What holds between events: every flight has its own file with exactly its transmissions, and the
      files that were there at the start are as they were. */
  ghost predicate Sound(l: Log, initial: Files) {
    && |l.flights| == |l.paths|
    && (forall i :: 0 <= i < |l.paths| ==>
          l.paths[i] in l.files && l.files[l.paths[i]].entries == l.flights[i] && l.paths[i] !in initial)
    && (forall i, j :: 0 <= i < j < |l.paths| ==> l.paths[i] != l.paths[j])
    && (forall p :: p in initial ==> p in l.files && l.files[p] == initial[p])
    && Current(l)
  }

  /** The open flight is the last one. */
  predicate Current(l: Log) {
    && (l.isOpen <==> l.paths != [])
    && (l.isOpen ==> |l.flights| == |l.paths| && l.path == l.paths[|l.paths| - 1]
                     && l.doc.entries == l.flights[|l.flights| - 1])
  }

  function Next(l: Log, ev: Event): Log
    requires Current(l)
  {
    match ev
    case Transmission(e, stamp) => Write(l, e, stamp)
    case NewFlight => l.(forceNew := true)
    case Directory(dir) => l.(dir := dir)
  }

  function Flatten(fs: seq<seq<Entry>>): seq<Entry> {
    if fs == [] then [] else Flatten(fs[..|fs| - 1]) + fs[|fs| - 1]
  }

  /** Everything but the current flight is safe while its file is being written. */
  ghost predicate OthersSound(l: Log, initial: Files) {
    var n := |l.paths| - 1;
    && |l.flights| == |l.paths| > 0 && Current(l)
    && (forall i :: 0 <= i < n ==>
          l.paths[i] in l.files && l.files[l.paths[i]].entries == l.flights[i] && l.paths[i] !in initial)
    && (forall i, j :: 0 <= i < j <= n ==> l.paths[i] != l.paths[j])
    && l.path !in initial
    && (forall p :: p in initial ==> p in l.files && l.files[p] == initial[p])
  }

  lemma OpenIsSafe(l: Log, e: Entry, stamp: string, initial: Files)
    requires Sound(l, initial)
    ensures OthersSound(OpenFlight(l, e, stamp), initial)
  {
    hide PickFlightPath, Sanitize, Controlled;
    var m := OpenFlight(l, e, stamp);
    NamedPath(l.(departure := Sanitize(e.airport), destination := "", stamp := stamp, sawInitialCall := false,
                 controlled := Controlled(e.frequency), doc := NO_DOC));
    assert m.path !in l.files;
  }

  /** A picked name is never the empty one, so an open flight's name is new. */
  lemma NamedPath(l: Log)
    ensures PickFlightPath(l, "") != ""
  {
    PickedIsCandidate(l.files.Keys, Base(l), "", 1);
  }

  lemma {:induction false} PickedIsCandidate(names: set<string>, base: string, ignore: string, n: nat)
    requires n >= 1
    ensures PickFrom(names, base, ignore, n) != ""
    decreases |Ahead(names, base, n)|
  {
    var c := Candidate(base, n);
    if c != ignore && c in names {
      AheadShrinks(names, base, n);
      PickedIsCandidate(names, base, ignore, n + 1);
    }
  }

  lemma AppendIsSafe(l: Log, e: Entry, initial: Files)
    requires OthersSound(l, initial)
    ensures OthersSound(Append(l, e), initial)
  {
    hide AirbornePhase, Controlled, DepartureCall, InboundCall;
  }

  lemma MoveIsSafe(l: Log, path: string, initial: Files)
    requires OthersSound(l, initial) && path !in l.files
    ensures OthersSound(l.(files := Moved(l.files, l.path, path), path := path,
                           paths := l.paths[|l.paths| - 1 := path]), initial)
  {
    var n := |l.paths| - 1;
    var m := l.(files := Moved(l.files, l.path, path), path := path, paths := l.paths[n := path]);
    forall i | 0 <= i < n
      ensures m.paths[i] != path && m.paths[i] in m.files && m.files[m.paths[i]].entries == m.flights[i]
    {
      assert l.paths[i] in l.files && l.paths[i] != l.paths[n];
    }
  }

  lemma RenameIsSafe(l: Log, e: Entry, initial: Files)
    requires OthersSound(l, initial)
    ensures OthersSound(FixDestination(l, e), initial)
    ensures FixDestination(l, e).flights == l.flights
  {
    hide PickFlightPath, Sanitize, NamesDestination, Moved, OthersSound;
    var m := l.(destination := Sanitize(e.airport), doc := l.doc.(destination := e.airport));
    DestinationIgnored(l, m, initial);
    var path := PickFlightPath(m, m.path);
    if path != m.path { MoveIsSafe(m, path, initial); }
  }

  lemma DestinationIgnored(l: Log, m: Log, initial: Files)
    requires OthersSound(l, initial)
    requires m == l.(destination := m.destination, doc := l.doc.(destination := m.doc.destination))
    ensures OthersSound(m, initial) && l.paths != []
  {
  }

  lemma FlushIsSafe(l: Log, initial: Files)
    requires OthersSound(l, initial)
    ensures Sound(Flush(l), initial)
  {
  }

  lemma SoundIsOthersSound(l: Log, initial: Files)
    requires Sound(l, initial) && l.isOpen
    ensures OthersSound(l, initial)
  {
  }

  lemma {:induction false} FlattenLast(fs: seq<seq<Entry>>, e: Entry)
    requires fs != []
    ensures Flatten(fs[|fs| - 1 := fs[|fs| - 1] + [e]]) == Flatten(fs) + [e]
  {
    var n := |fs| - 1;
    var gs := fs[n := fs[n] + [e]];
    assert gs[..n] == fs[..n];
    assert Flatten(fs[..n]) + (fs[n] + [e]) == Flatten(fs[..n]) + fs[n] + [e];
  }

  lemma FlattenOpened(fs: seq<seq<Entry>>)
    ensures Flatten(fs + [[]]) == Flatten(fs)
  {
    var gs := fs + [[]];
    assert gs[..|gs| - 1] == fs;
    assert Flatten(fs) + [] == Flatten(fs);
  }

  lemma WriteIsSafe(l: Log, e: Entry, stamp: string, initial: Files)
    requires Sound(l, initial)
    ensures Sound(Write(l, e, stamp), initial)
    ensures Flatten(Write(l, e, stamp).flights) == Flatten(l.flights) + [e]
  {
    hide OthersSound, Sound, OpenFlight, Append, FixDestination, Flush, NeedsNew;
    var a := if NeedsNew(l, e) then OpenFlight(l, e, stamp) else l;
    if NeedsNew(l, e) {
      OpenIsSafe(l, e, stamp, initial);
      OpenedFlights(l, e, stamp);
      FlattenOpened(l.flights);
    } else {
      StillOpen(l, e);
      SoundIsOthersSound(l, initial);
    }
    AppendIsSafe(a, e, initial);
    AppendedFlights(a, e, initial);
    FlattenLast(a.flights, e);
    var b := Append(a, e);
    RenameIsSafe(b, e, initial);
    FlushIsSafe(FixDestination(b, e), initial);
    FlushedFlights(FixDestination(b, e));
  }

  lemma OpenedFlights(l: Log, e: Entry, stamp: string)
    ensures OpenFlight(l, e, stamp).flights == l.flights + [[]]
  {
    hide PickFlightPath;
  }

  lemma StillOpen(l: Log, e: Entry)
    requires !NeedsNew(l, e)
    ensures l.isOpen && !l.forceNew
  {
  }

  lemma AppendedFlights(l: Log, e: Entry, initial: Files)
    requires OthersSound(l, initial)
    ensures l.flights != [] && Append(l, e).paths != []
    ensures Append(l, e).flights == l.flights[|l.flights| - 1 := l.flights[|l.flights| - 1] + [e]]
  {
  }

  lemma FlushedFlights(l: Log)
    ensures Flush(l).flights == l.flights
  {
  }

  /** The writes of a run, oldest first. */
  function Written(evs: seq<Event>): seq<Entry> {
    if evs == [] then []
    else
      var ev := evs[|evs| - 1];
      Written(evs[..|evs| - 1]) + if ev.Transmission? then [ev.e] else []
  }

  /** The states a run goes through, one longer than the run. */
  ghost predicate IsRun(ls: seq<Log>, evs: seq<Event>) {
    |ls| == |evs| + 1 && forall i :: 0 <= i < |evs| ==> Current(ls[i]) && ls[i + 1] == Next(ls[i], evs[i])
  }

  lemma NextIsSafe(l: Log, ev: Event, initial: Files)
    requires Sound(l, initial)
    ensures Sound(Next(l, ev), initial)
    ensures Flatten(Next(l, ev).flights) == Flatten(l.flights) + if ev.Transmission? then [ev.e] else []
  {
    hide Write, Flatten;
    match ev
    case Transmission(e, stamp) => WriteIsSafe(l, e, stamp, initial);
    case NewFlight => assert Flatten(l.flights) + [] == Flatten(l.flights);
    case Directory(dir) => assert Flatten(l.flights) + [] == Flatten(l.flights);
  }

  /** Over every run: each transmission is in exactly one flight, the flights in opening order give back
      the transmissions, each flight's file holds exactly its transmissions, no two flights share a
      file, and no file that was there before is touched. */
  lemma {:induction false} LogbookIsComplete(ls: seq<Log>, evs: seq<Event>, dir: string, initial: Files)
    requires IsRun(ls, evs) && ls[0] == Start(dir, initial)
    ensures Sound(ls[|evs|], initial) && Flatten(ls[|evs|].flights) == Written(evs)
  {
    if evs == [] {
      StartIsSound(dir, initial);
    } else {
      hide Sound, Next, Flatten;
      var n := |evs| - 1;
      LogbookIsComplete(ls[..n + 1], evs[..n], dir, initial);
      NextIsSafe(ls[n], evs[n], initial);
    }
  }

  lemma StartIsSound(dir: string, initial: Files)
    ensures Sound(Start(dir, initial), initial) && Flatten(Start(dir, initial).flights) == []
  {
  }
}
