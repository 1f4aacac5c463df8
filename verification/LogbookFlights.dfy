/** Which flight a transmission belongs to, and what the flight files say of their flights. */
module LogbookFlights {
  import opened Text
  import opened Logbook

  // ── What a flight's transmissions tell ────────────────────────────

  predicate Flying(e: Entry) {
    e.phase in {"TAKEOFF_ROLL", "CLIMB", "PATTERN", "FINAL_APPROACH", "LANDING_ROLL", "CRUISE"}
  }

  predicate CallsIn(e: Entry) {
    e.intent in {"INITIAL_CALL_GROUND", "INITIAL_CALL_TOWER", "INITIAL_CALL", "INITIAL_CALL_INBOUND",
                 "INITIAL_CALL_INBOUND_VRP"}
  }

  predicate Staffed(e: Entry) { e.frequency in {"Tower", "Ground", "Delivery", "Info", "Radio"} }

  /** An initial call for departure, made in IDLE on the ground. */
  predicate StartsOver(e: Entry) {
    && e.state == "IDLE" && e.phase in {"PARKED", "TAXI"}
    && e.intent in {"INITIAL_CALL_GROUND", "INITIAL_CALL_TOWER", "INITIAL_CALL"}
  }

  predicate HasFlown(es: seq<Entry>) { exists k :: 0 <= k < |es| && Flying(es[k]) }

  predicate CalledIn(es: seq<Entry>) { exists k :: 0 <= k < |es| && CallsIn(es[k]) }

  predicate WasStaffed(es: seq<Entry>) { exists k :: 0 <= k < |es| && Staffed(es[k]) }

  /** The transmissions up to the first one in the air, with it. */
  function UpToTakeoff(es: seq<Entry>): seq<Entry> {
    if es == [] then [] else if HasFlown(es[..|es| - 1]) then UpToTakeoff(es[..|es| - 1]) else es
  }

  /** The flight took off from a controlled field and nobody had called in by then. */
  predicate NobodyCalled(es: seq<Entry>) {
    HasFlown(es) && WasStaffed(UpToTakeoff(es)) && !CalledIn(UpToTakeoff(es))
  }

  /** The transmission is an inbound call for a field other than the one the flight left from. */
  predicate Heads(e: Entry, from: string) {
    && e.intent in {"INITIAL_CALL_INBOUND", "INITIAL_CALL_INBOUND_VRP"}
    && Sanitize(e.airport) != "UNKNOWN" && Sanitize(e.airport) != Sanitize(from)
  }

  /** The k-th transmission is the last that names another field. */
  predicate NamedLast(es: seq<Entry>, k: nat) {
    k < |es| && Heads(es[k], es[0].airport) && forall j :: k < j < |es| ==> !Heads(es[j], es[0].airport)
  }

  predicate NamesNone(es: seq<Entry>) { forall k :: 0 <= k < |es| ==> !Heads(es[k], es[0].airport) }

  /** A flight file tells its own story: whether nobody called in, and where the flight went. */
  ghost predicate Told(doc: Doc) {
    && (doc.missingInitialCall <==> NobodyCalled(doc.entries))
    && (NamesNone(doc.entries) ==> doc.destination == "")
    && forall k: nat :: NamedLast(doc.entries, k) ==> Sanitize(doc.destination) == Sanitize(doc.entries[k].airport)
  }

  // ── What the log remembers ────────────────────────────────────────

  /** The log's flags, told by the transmissions of the open flight. */
  predicate Tracks(l: Log, es: seq<Entry>) {
    && (l.wasAirborne <==> HasFlown(es))
    && (l.sawInitialCall <==> CalledIn(es))
    && (l.controlled <==> WasStaffed(UpToTakeoff(es)))
    && (l.doc.missingInitialCall <==> NobodyCalled(es))
  }

  /** The same of its two airports. */
  ghost predicate Bound(l: Log, es: seq<Entry>) {
    && es != [] && l.departure == Sanitize(es[0].airport)
    && (NamesNone(es) ==> l.destination == "" == l.doc.destination)
    && (l.destination != "" ==> l.destination == Sanitize(l.doc.destination))
    && (forall k: nat :: NamedLast(es, k) ==> l.destination == Sanitize(es[k].airport) == Sanitize(l.doc.destination))
  }

  lemma Extended(es: seq<Entry>, e: Entry)
    ensures HasFlown(es + [e]) <==> HasFlown(es) || Flying(e)
    ensures CalledIn(es + [e]) <==> CalledIn(es) || CallsIn(e)
    ensures WasStaffed(es + [e]) <==> WasStaffed(es) || Staffed(e)
    ensures UpToTakeoff(es + [e]) == if HasFlown(es) then UpToTakeoff(es) else es + [e]
  {
    hide Flying, CallsIn, Staffed;
    var fs := es + [e];
    assert fs[..|fs| - 1] == es && fs[|es|] == e;
    forall k | 0 <= k < |es| ensures fs[k] == es[k] {}
  }

  lemma {:induction false} GroundedIsWhole(es: seq<Entry>)
    ensures !HasFlown(es) ==> UpToTakeoff(es) == es
  {
    if es != [] && HasFlown(es[..|es| - 1]) {
      var k :| 0 <= k < |es| - 1 && Flying(es[..|es| - 1][k]);
      assert Flying(es[k]);
    }
  }

  /** A flight just opened counts its first transmission's field already. */
  predicate TracksSoFar(l: Log, es: seq<Entry>, e: Entry) {
    if es == [] then l.doc == NO_DOC && !l.wasAirborne && !l.sawInitialCall && l.controlled == Staffed(e)
    else Tracks(l, es)
  }

  lemma AppendTracks(l: Log, e: Entry)
    requires l.flights != [] && TracksSoFar(l, l.doc.entries, e)
    ensures Tracks(Append(l, e), l.doc.entries + [e])
    ensures var m := Append(l, e);
      && m.doc.entries == l.doc.entries + [e] && m.doc.destination == l.doc.destination
      && m.departure == l.departure && m.destination == l.destination && m.files == l.files && m.paths == l.paths
      && m.flights == l.flights[|l.flights| - 1 := l.flights[|l.flights| - 1] + [e]] && m.forceNew == l.forceNew
  {
    hide HasFlown, CalledIn, WasStaffed, UpToTakeoff;
    Extended(l.doc.entries, e);
    GroundedIsWhole(l.doc.entries);
    NothingSoFar();
  }

  lemma NothingSoFar()
    ensures !HasFlown([]) && !CalledIn([]) && !WasStaffed([]) && UpToTakeoff([]) == []
  {
  }

  lemma NeverNameless(id: string)
    ensures Sanitize(id) != "" && Sanitize("") == "UNKNOWN"
  {
  }

  lemma ExtendedNames(es: seq<Entry>, e: Entry, k: nat)
    requires es != []
    ensures NamesNone(es + [e]) <==> NamesNone(es) && !Heads(e, es[0].airport)
    ensures NamedLast(es + [e], k) <==>
      if Heads(e, es[0].airport) then k == |es| else NamedLast(es, k)
  {
    hide Heads;
    var fs := es + [e];
    assert fs[|es|] == e && fs[0] == es[0];
    forall j | 0 <= j < |es| ensures fs[j] == es[j] {}
  }

  lemma NamedIsIn(es: seq<Entry>, k: nat)
    ensures NamedLast(es, k) ==> k < |es|
    ensures NamedLast(es, k) ==> k < |es| && forall e :: (es + [e])[k] == es[k]
  {
  }

  lemma FirstNamesNone(e: Entry)
    ensures NamesNone([e]) && forall k: nat :: !NamedLast([e], k)
  {
    hide Sanitize;
  }

  ghost predicate BoundSoFar(l: Log, es: seq<Entry>, e: Entry) {
    if es == [] then l.departure == Sanitize(e.airport) && l.destination == "" == l.doc.destination else Bound(l, es)
  }

  lemma FixBound(l: Log, es: seq<Entry>, e: Entry)
    requires l.paths != [] && BoundSoFar(l, es, e)
    ensures Bound(FixDestination(l, e), es + [e])
  {
    hide PickFlightPath, Sanitize, Moved, NamesNone, NamedLast;
    NeverNameless(e.airport);
    if es == [] {
      assert es + [e] == [e];
      FirstNamesNone(e);
    } else {
      forall k: nat
        ensures NamesNone(es + [e]) <==> NamesNone(es) && !Heads(e, es[0].airport)
        ensures NamedLast(es + [e], k) <==> if Heads(e, es[0].airport) then k == |es| else NamedLast(es, k)
      {
        ExtendedNames(es, e, k);
      }
      var fs, m := es + [e], FixDestination(l, e);
      assert fs[|es|] == e && fs[0] == es[0];
      assert NamesDestination(l, e) <==> Heads(e, es[0].airport) && Sanitize(e.airport) != l.destination;
      forall k: nat ensures NamedLast(fs, k) ==> k < |fs| { NamedIsIn(fs, k); }
      forall k: nat | k < |fs| && NamedLast(fs, k)
        ensures m.destination == Sanitize(fs[k].airport) == Sanitize(m.doc.destination)
      {
        if !Heads(e, es[0].airport) { NamedIsIn(es, k); }
      }
    }
  }

  // ── Runs ──────────────────────────────────────────────────────────

  /** What holds between events beside soundness: the log remembers the open flight rightly, and every
      file written tells its own story. */
  ghost predicate Telling(l: Log, initial: Files) {
    && (l.isOpen ==> l.doc.entries != [] && Tracks(l, l.doc.entries) && Bound(l, l.doc.entries))
    && forall p :: p in l.files && p !in initial ==> Told(l.files[p])
  }

  lemma OpenTracks(l: Log, e: Entry, stamp: string)
    ensures var m := OpenFlight(l, e, stamp);
      && TracksSoFar(m, [], e) && BoundSoFar(m, [], e) && m.doc == NO_DOC && m.files == l.files && !m.forceNew
      && m.flights == l.flights + [[]] && m.paths != []
  {
    hide PickFlightPath, Sanitize;
  }

  /** A transmission opens a flight. */
  predicate Opens(l: Log, e: Entry) { !l.isOpen || l.forceNew || (HasFlown(l.doc.entries) && StartsOver(e)) }

  lemma OpensIff(l: Log, e: Entry)
    requires l.isOpen ==> Tracks(l, l.doc.entries)
    ensures NeedsNew(l, e) <==> Opens(l, e)
  {
    hide HasFlown, CalledIn, WasStaffed, UpToTakeoff;
  }

  lemma FixFrame(l: Log, e: Entry)
    requires l.paths != []
    ensures var m := FixDestination(l, e);
      && m.doc == l.doc.(destination := m.doc.destination) && m.flights == l.flights && m.forceNew == l.forceNew
      && m.wasAirborne == l.wasAirborne && m.sawInitialCall == l.sawInitialCall && m.controlled == l.controlled
      && forall p :: p in m.files && p != m.path ==> p in l.files && m.files[p] == l.files[p]
  {
    hide PickFlightPath, Sanitize, NamesDestination, Moved;
    if NamesDestination(l, e) {
      var m := l.(destination := Sanitize(e.airport), doc := l.doc.(destination := e.airport));
      MovedFrame(l.files, l.path, PickFlightPath(m, m.path));
    }
  }

  lemma MovedFrame(files: Files, from: string, to: string)
    ensures forall p :: p in Moved(files, from, to) && p != to ==> p in files && Moved(files, from, to)[p] == files[p]
  {
  }

  lemma StillBound(l: Log, m: Log, es: seq<Entry>, e: Entry)
    requires BoundSoFar(l, es, e) && m.departure == l.departure && m.destination == l.destination
    requires m.doc.destination == l.doc.destination
    ensures BoundSoFar(m, es, e)
  {
  }

  lemma StillTracks(l: Log, m: Log)
    requires Tracks(l, l.doc.entries) && m.doc.entries == l.doc.entries
    requires m.doc.missingInitialCall == l.doc.missingInitialCall && m.wasAirborne == l.wasAirborne
    requires m.sawInitialCall == l.sawInitialCall && m.controlled == l.controlled
    ensures Tracks(m, m.doc.entries)
  {
  }

  lemma Reopened(fs: seq<seq<Entry>>, e: Entry)
    ensures var gs := fs + [[]]; gs[|gs| - 1 := gs[|gs| - 1] + [e]] == fs + [[e]]
  {
    var gs := fs + [[]];
    assert gs[|gs| - 1] == [] && [] + [e] == [e];
  }

  lemma FlushKeeps(l: Log)
    ensures Tracks(Flush(l), l.doc.entries) == Tracks(l, l.doc.entries)
    ensures Bound(Flush(l), l.doc.entries) == Bound(l, l.doc.entries)
  {
  }

  lemma TracksAndBoundTell(l: Log)
    requires Tracks(l, l.doc.entries) && Bound(l, l.doc.entries)
    ensures Told(l.doc)
  {
    hide NobodyCalled, NamesNone, NamedLast, Sanitize;
  }

  /** One transmission: it opens a flight of its own or joins the open one, and what was kept is kept. */
  lemma WriteTells(l: Log, e: Entry, stamp: string, initial: Files)
    requires Sound(l, initial) && Telling(l, initial)
    ensures Telling(Write(l, e, stamp), initial) && !Write(l, e, stamp).forceNew
    ensures Write(l, e, stamp).flights ==
      if Opens(l, e) then l.flights + [[e]] else l.flights[|l.flights| - 1 := l.flights[|l.flights| - 1] + [e]]
  {
    hide OpenFlight, FixDestination, Append, Opens, NeedsNew, Tracks, Bound, Told;
    OpensIff(l, e);
    if Opens(l, e) { OpenTracks(l, e, stamp); } else { StillOpen(l, e); }
    var a := if NeedsNew(l, e) then OpenFlight(l, e, stamp) else l;
    AppendTracks(a, e);
    var b := Append(a, e);
    assert BoundSoFar(b, a.doc.entries, e) by { StillBound(a, b, a.doc.entries, e); }
    FixBound(b, a.doc.entries, e);
    FixFrame(b, e);
    var c := FixDestination(b, e);
    StillTracks(b, c);
    TracksAndBoundTell(c);
    FlushKeeps(c);
    if Opens(l, e) { Reopened(l.flights, e); }
  }

  /** A new flight was asked for since the last transmission. */
  predicate Asked(evs: seq<Event>) {
    evs != [] && (evs[|evs| - 1].NewFlight? || (evs[|evs| - 1].Directory? && Asked(evs[..|evs| - 1])))
  }

  lemma RunPrefix(ls: seq<Log>, evs: seq<Event>)
    requires IsRun(ls, evs) && evs != []
    ensures var n := |evs| - 1;
      IsRun(ls[..n + 1], evs[..n]) && ls[..n + 1][0] == ls[0] && Current(ls[n]) && ls[n + 1] == Next(ls[n], evs[n])
  {
    hide Next, Current;
  }

  lemma StepTells(l: Log, ev: Event, initial: Files)
    requires Sound(l, initial) && Telling(l, initial)
    ensures Telling(Next(l, ev), initial)
    ensures Next(l, ev).forceNew == (ev.NewFlight? || (ev.Directory? && l.forceNew))
  {
    hide Write, Tracks, Bound, Told;
    match ev {
      case Transmission(e, stamp) => WriteTells(l, e, stamp, initial);
      case _ => EventKeeps(l, ev);
    }
  }

  lemma {:induction false} RunTells(ls: seq<Log>, evs: seq<Event>, dir: string, initial: Files)
    requires IsRun(ls, evs) && ls[0] == Start(dir, initial)
    ensures Sound(ls[|evs|], initial) && Telling(ls[|evs|], initial) && ls[|evs|].forceNew == Asked(evs)
  {
    LogbookIsComplete(ls, evs, dir, initial);
    if evs != [] {
      hide IsRun, Sound, Next, Telling, Flatten, Written, Current;
      var n := |evs| - 1;
      RunPrefix(ls, evs);
      RunTells(ls[..n + 1], evs[..n], dir, initial);
      StepTells(ls[n], evs[n], initial);
    }
  }

  lemma EventKeeps(l: Log, ev: Event)
    requires !ev.Transmission? && Current(l)
    ensures Tracks(Next(l, ev), l.doc.entries) == Tracks(l, l.doc.entries)
    ensures Bound(Next(l, ev), l.doc.entries) == Bound(l, l.doc.entries)
  {
  }

  /** Over every run: a transmission opens a flight of its own exactly if it is the first, a new flight
      was asked for since the one before, or it is an initial call for departure from IDLE on the ground
      and the open flight has flown; any other joins the open flight. */
  lemma FlightOpensIff(ls: seq<Log>, evs: seq<Event>, e: Entry, stamp: string, dir: string, initial: Files)
    requires IsRun(ls, evs + [Transmission(e, stamp)]) && ls[0] == Start(dir, initial)
    ensures var n, fs := |evs|, ls[|evs|].flights;
      ls[n + 1].flights ==
        if fs == [] || Asked(evs) || (HasFlown(fs[|fs| - 1]) && StartsOver(e)) then fs + [[e]]
        else fs[|fs| - 1 := fs[|fs| - 1] + [e]]
  {
    hide Sound, Write, Telling, HasFlown, StartsOver, Asked;
    var all, n := evs + [Transmission(e, stamp)], |evs|;
    assert all[n] == Transmission(e, stamp) && all[..n] == evs;
    assert IsRun(ls[..n + 1], evs);
    RunTells(ls[..n + 1], evs, dir, initial);
    WriteTells(ls[n], e, stamp, initial);
    OpenIsLast(ls[n], initial);
  }

  lemma OpenIsLast(l: Log, initial: Files)
    requires Sound(l, initial)
    ensures l.isOpen <==> l.flights != []
    ensures l.isOpen ==> l.doc.entries == l.flights[|l.flights| - 1]
  {
  }

  /** Over every run, the file of every flight tells of exactly that flight: the initial call is missing
      if the aircraft took off from a controlled field before anybody called in, whatever is said after,
      and the destination is the field named last by an inbound call, if one was named. */
  lemma FilesTell(ls: seq<Log>, evs: seq<Event>, dir: string, initial: Files, i: nat)
    requires IsRun(ls, evs) && ls[0] == Start(dir, initial) && i < |ls[|evs|].paths|
    ensures var l := ls[|evs|];
      && l.paths[i] in l.files && i < |l.flights| && l.files[l.paths[i]].entries == l.flights[i]
      && Told(l.files[l.paths[i]])
  {
    hide Told, Tracks, Bound;
    RunTells(ls, evs, dir, initial);
  }

  // ── File names ────────────────────────────────────────────────────

  /** The first free name is taken: time and airports, then numbered from 2. */
  lemma NameIsFirstFree(l: Log, ignore: string)
    ensures exists n: nat ::
      (n >= 1 && PickFlightPath(l, ignore) == Named(l, n)
       && forall k :: 1 <= k < n ==> Named(l, k) in l.files && Named(l, k) != ignore)
  {
    hide Candidate, Base, Ahead;
    var n := FirstFree(l.files.Keys, Base(l), ignore, 1);
    forall k: nat | k >= 1 ensures Named(l, k) == Candidate(Base(l), k) { NamedIsCandidate(l, k); }
  }

  function Named(l: Log, n: nat): string {
    l.dir + "/" + l.stamp + "_" + l.departure + (if l.destination == "" then "" else "-" + l.destination) +
    (if n < 2 then "" else "_" + Decimal(n)) + ".json"
  }

  lemma NamedIsCandidate(l: Log, n: nat)
    ensures Named(l, n) == Candidate(Base(l), n)
  {
    var d := if l.destination == "" then "" else "-" + l.destination;
    assert l.departure + d == if l.destination == "" then l.departure else l.departure + "-" + l.destination;
    assert l.dir + "/" + l.stamp + "_" + l.departure + d == l.dir + "/" + l.stamp + "_" + (l.departure + d);
    assert Base(l) == l.dir + "/" + l.stamp + "_" + (l.departure + d);
    var m := if n < 2 then "" else "_" + Decimal(n);
    assert Candidate(Base(l), n) == Base(l) + m + ".json";
  }

  lemma {:induction false} FirstFree(names: set<string>, base: string, ignore: string, from: nat) returns (n: nat)
    requires from >= 1
    ensures n >= from && PickFrom(names, base, ignore, from) == Candidate(base, n)
    ensures forall k :: from <= k < n ==> Candidate(base, k) in names && Candidate(base, k) != ignore
    decreases |Ahead(names, base, from)|
  {
    hide Candidate, Ahead;
    n := from;
    if Candidate(base, from) != ignore && Candidate(base, from) in names {
      AheadShrinks(names, base, from);
      n := FirstFree(names, base, ignore, from + 1);
    }
  }

  /** A name keeps capitals and digits, reads small letters as capitals and ignores everything else. */
  lemma SanitizeMeans(a: string, c: char, b: string)
    ensures (forall i :: 0 <= i < |a| ==> IsUpper(a[i]) || IsDigit(a[i])) && a != "" ==> Sanitize(a) == a
    ensures !IsWordChar(c) ==> Sanitize(a + [c] + b) == Sanitize(a + b)
    ensures 'a' <= c <= 'z' ==> Sanitize(a + [c] + b) == Sanitize(a + [c - 'a' + 'A'] + b)
    ensures Sanitize("") == "UNKNOWN"
  {
    hide SanitizeAll, SanitizeChar;
    if a != "" && forall i :: 0 <= i < |a| ==> IsUpper(a[i]) || IsDigit(a[i]) { Sanitized(a); }
    Around(a, [c], b);
    Around(a, "", b);
    assert a + "" + b == a + b;
    One(c);
    if 'a' <= c <= 'z' {
      var d := c - 'a' + 'A';
      One(d);
      Around(a, [d], b);
    }
  }

  lemma One(c: char)
    ensures SanitizeAll([c]) == if IsUpper(c) || IsDigit(c) then [c] else if IsLower(c) then [c - 'a' + 'A'] else ""
    ensures SanitizeAll("") == ""
  {
    assert [c][1..] == "";
  }

  lemma Around(a: string, c: string, b: string)
    ensures SanitizeAll(a + c + b) == SanitizeAll(a) + SanitizeAll(c) + SanitizeAll(b)
  {
    SanitizeConcat(a + c, b);
    SanitizeConcat(a, c);
  }

  lemma {:induction false} Sanitized(a: string)
    requires forall i :: 0 <= i < |a| ==> IsUpper(a[i]) || IsDigit(a[i])
    ensures SanitizeAll(a) == a
  {
    if a != "" { Sanitized(a[1..]); }
  }

  lemma {:induction false} SanitizeConcat(a: string, b: string)
    ensures SanitizeAll(a + b) == SanitizeAll(a) + SanitizeAll(b)
  {
    if a == "" { assert a + b == b; } else {
      assert (a + b)[1..] == a[1..] + b;
      SanitizeConcat(a[1..], b);
    }
  }
}
