/** Readback compliance: what a clearance obliges the pilot to read back, how a transcript is
    matched against it, and the correction the tower speaks. */
module Bzf {
  import opened Text
  import opened SpokenNumbers
  import opened Replace

  datatype Element = Callsign | Runway | Qnh | Frequency | Squawk

  datatype Clearance = Clearance(callsign: string, runway: string, qnh: string,
                                 frequency: string, squawk: string, required: seq<Element>)

  const NO_CLEARANCE := Clearance("", "", "", "", "", [])

  datatype Status = Ok | Missing | Wrong

  datatype FieldDiff = FieldDiff(element: Element, status: Status, expected: string, stated: string)

  // ── Canonical text ────────────────────────────────────────────────

  /** Transcription variants of NATO letters and their canonical spelling, in source order. */
  const NATO_VARIANTS: seq<(string, string)> :=
    [("vector", "victor"), ("juliet ", "juliett "), ("juliet,", "juliett,"), ("wisky", "whiskey"),
     ("whiskee", "whiskey"), ("xray", "x-ray"), ("x ray", "x-ray"), ("alfa", "alpha")]

  const TAIL_VARIANT := " juliet"

  predicate Patterns(vs: seq<(string, string)>) { forall i :: 0 <= i < |vs| ==> vs[i].0 != "" }

  function ApplyVariants(s: string, vs: seq<(string, string)>): string
    requires Patterns(vs)
    decreases |vs|
  {
    if vs == [] then s else ApplyVariants(ReplaceAll(s, vs[0].0, vs[0].1), vs[1..])
  }

  function FixTail(s: string): string {
    var n := |TAIL_VARIANT|;
    if |s| >= n && s[|s| - n..] == TAIL_VARIANT then s[..|s| - n] + " juliett" else s
  }

  function NormalizeNato(s: string): string { FixTail(ApplyVariants(s, NATO_VARIANTS)) }

  method NormalizeWhisperNatoVariants(s: string) returns (lc: string)
    ensures lc == NormalizeNato(s)
  {
    hide ReplaceAll;
    lc := s;
    var i := 0;
    while i < |NATO_VARIANTS|
      invariant 0 <= i <= |NATO_VARIANTS|
      invariant ApplyVariants(lc, NATO_VARIANTS[i..]) == ApplyVariants(s, NATO_VARIANTS)
    {
      assert NATO_VARIANTS[i..][1..] == NATO_VARIANTS[i + 1..];
      lc := ReplaceInPlace(lc, NATO_VARIANTS[i].0, NATO_VARIANTS[i].1);
      i := i + 1;
    }
    lc := FixTail(lc);
  }

  /** Lower case, spoken digits to numerals, NATO variants unified, then letters and digits only. */
  function Canonical(s: string): string {
    Keep(NormalizeNato(LowerAll(ParseText(German, LowerAll(s)))), IsWordChar)
  }

  method CanonStripped(s: string) returns (stripped: string)
    ensures stripped == Canonical(s)
  {
    hide Keep, NormalizeNato;
    var out := ParseSpokenNumber(German, LowerAll(s));
    out := NormalizeWhisperNatoVariants(LowerAll(out));
    stripped := "";
    var i := 0;
    KeepNothing();
    while i < |out|
      invariant 0 <= i <= |out|
      invariant stripped == Keep(out[..i], IsWordChar)
    {
      assert out[..i + 1] == out[..i] + [out[i]];
      KeepConcat(out[..i], [out[i]], IsWordChar);
      KeepOne(out[i]);
      if IsWordChar(out[i]) { stripped := stripped + [out[i]]; }
      i := i + 1;
    }
    assert out[..i] == out;
  }

  lemma KeepNothing()
    ensures Keep("", IsWordChar) == ""
  {
  }

  lemma KeepOne(c: char)
    ensures Keep([c], IsWordChar) == if IsWordChar(c) then [c] else ""
  {
    assert [c][1..] == "";
  }

  predicate ValueCovered(canon: string, value: string) {
    Canonical(value) == "" || Contains(canon, Canonical(value))
  }

  // ── Callsigns ─────────────────────────────────────────────────────

  function AlnumEnd(s: string, i: nat): (j: nat)
    requires i <= |s|
    ensures i <= j <= |s|
    decreases |s| - i
  {
    if i < |s| && IsWordChar(s[i]) then AlnumEnd(s, i + 1) else i
  }

  /** The letter-and-digit pieces of `s` from `i` on, welded, each digit word as its numeral. */
  function WeldFrom(s: string, i: nat): string
    requires i <= |s|
    decreases |s| - i
  {
    if i == |s| then ""
    else if !IsWordChar(s[i]) then WeldFrom(s, i + 1)
    else
      var j := AlnumEnd(s, i + 1);
      Welded(s[i..j]) + WeldFrom(s, j)
  }

  function Welded(tok: string): string {
    if tok in German.values then [DigitChar(German.values[tok])] else tok
  }

  function CanonCallsign(s: string): string { WeldFrom(NormalizeNato(LowerAll(s)), 0) }

  /** Both scan loops of the source: to the next piece, and over it. */
  method CanonicalCallsign(s: string) returns (out: string)
    ensures out == CanonCallsign(s)
  {
    hide NormalizeNato, WeldFrom, IsWordChar;
    var t := NormalizeWhisperNatoVariants(LowerAll(s));
    out := "";
    var i := 0;
    assert out + WeldFrom(t, 0) == WeldFrom(t, 0);
    while i < |t|
      invariant 0 <= i <= |t|
      invariant out + WeldFrom(t, i) == WeldFrom(t, 0)
    {
      WeldStep(t, i, out);
      if !IsWordChar(t[i]) {
        i := i + 1;
      } else {
        var j := i + 1;
        while j < |t| && IsWordChar(t[j])
          invariant i < j <= |t| && AlnumEnd(t, i + 1) == AlnumEnd(t, j)
        {
          j := j + 1;
        }
        out := out + Welded(t[i..j]);
        i := j;
      }
    }
    WeldEnd(t);
  }

  lemma WeldStep(s: string, i: nat, done: string)
    requires i < |s|
    ensures done + WeldFrom(s, i) ==
      if !IsWordChar(s[i]) then done + WeldFrom(s, i + 1)
      else var j := AlnumEnd(s, i + 1); (done + Welded(s[i..j])) + WeldFrom(s, j)
  {
    hide IsWordChar, Welded;
  }

  lemma WeldEnd(s: string)
    ensures WeldFrom(s, |s|) == ""
  {
  }

  /** Last blank at or before `i`, or -1. */
  function LastBlank(s: string, i: int): (r: int)
    requires i < |s|
    ensures -1 <= r < |s|
  {
    if i < 0 then -1 else if s[i] == ' ' then i else LastBlank(s, i - 1)
  }

  /** The full callsign, or at least its last two words, must occur. */
  predicate HasCallsign(pilot: string, callsign: string) {
    var p, c := CanonCallsign(pilot), CanonCallsign(callsign);
    callsign == "" || c == "" || Contains(p, c) ||
    (var sp1 := LastBlank(callsign, |callsign| - 1);
     sp1 != -1 &&
     (var sp2 := LastBlank(callsign, if sp1 == 0 then |callsign| - 1 else sp1 - 1);
      var tail := CanonCallsign(callsign[if sp2 == -1 then 0 else sp2 + 1..]);
      tail != "" && Contains(p, tail)))
  }

  // ── The digit words of a callsign ─────────────────────────────────

  predicate AllWordChars(s: string) { forall i :: 0 <= i < |s| ==> IsWordChar(s[i]) }

  /** A letter of the pattern does not occur in `s`, or the pattern is too long for it. */
  predicate Lacks(s: string, p: string) { |s| < |p| || exists k :: 0 <= k < |p| && p[k] !in s }

  lemma LackedIsNowhere(s: string, p: string, r: nat)
    requires Lacks(s, p)
    ensures !At(s, p, r)
  {
  }

  lemma LackedIsNotFound(s: string, p: string, v: string)
    requires p != "" && Lacks(s, p)
    ensures ReplaceAll(s, p, v) == s
  {
    hide Lacks, At;
    forall r: nat ensures !At(s, p, r) { LackedIsNowhere(s, p, r); }
  }

  lemma {:induction false} LackedVariants(s: string, vs: seq<(string, string)>)
    requires Patterns(vs) && forall i :: 0 <= i < |vs| ==> Lacks(s, vs[i].0)
    ensures ApplyVariants(s, vs) == s
    decreases |vs|
  {
    hide Lacks, ReplaceAll;
    if vs != [] {
      LackedIsNotFound(s, vs[0].0, vs[0].1);
      LackedVariants(s, vs[1..]);
    }
  }

  /** Lower case already, and without the tell-tale letters of the NATO variants. */
  predicate Spared(s: string) {
    && (forall i :: 0 <= i < |s| ==> !IsUpper(s[i]))
    && (|s| < 6 || 't' !in s) && 'j' !in s && 'y' !in s && 'k' !in s && 'x' !in s
    && (|s| < 4 || 'a' !in s || 'l' !in s)
  }

  lemma SparedLacks(s: string, i: nat)
    requires Spared(s) && i < |NATO_VARIANTS|
    ensures Lacks(s, NATO_VARIANTS[i].0)
  {
    var vs := NATO_VARIANTS;
    assert vs[0].0[3] == 't' && vs[1].0[0] == 'j' && vs[2].0[0] == 'j' && vs[3].0[4] == 'y' && vs[4].0[4] == 'k';
    assert vs[5].0[0] == 'x' && vs[6].0[0] == 'x' && vs[7].0[0] == 'a' && vs[7].0[1] == 'l';
  }

  /** Such a text passes lower-casing and the NATO pass unchanged. */
  lemma SparedIsKept(s: string)
    requires Spared(s)
    ensures CanonCallsign(s) == WeldFrom(s, 0)
  {
    hide WeldFrom, Lacks, ReplaceAll;
    assert LowerAll(s) == s by { hide Spared; LowerKeeps(s); }
    forall i | 0 <= i < |NATO_VARIANTS| ensures Lacks(s, NATO_VARIANTS[i].0) { SparedLacks(s, i); }
    LackedVariants(s, NATO_VARIANTS);
    assert |s| >= |TAIL_VARIANT| ==> s[|s| - |TAIL_VARIANT|..][1] in s;
    assert TAIL_VARIANT[1] == 'j';
  }

  lemma LowerKeeps(s: string)
    requires Spared(s)
    ensures LowerAll(s) == s
  {
    assert forall i :: 0 <= i < |s| ==> Lower(s[i]) == s[i];
  }

  lemma AlnumEndAt(s: string, i: nat, j: nat)
    requires i <= j <= |s| && (forall k :: i <= k < j ==> IsWordChar(s[k])) && (j < |s| ==> !IsWordChar(s[j]))
    ensures AlnumEnd(s, i) == j
    decreases j - i
  {
    if i < j { AlnumEndAt(s, i + 1, j); }
  }

  /** One maximal piece is welded as a whole. */
  lemma PieceIsWelded(s: string, i: nat, j: nat)
    requires i < j <= |s| && (forall k :: i <= k < j ==> IsWordChar(s[k])) && (j < |s| ==> !IsWordChar(s[j]))
    ensures WeldFrom(s, i) == Welded(s[i..j]) + WeldFrom(s, j)
  {
    AlnumEndAt(s, i + 1, j);
  }

  lemma {:induction false} AlnumEndShift(pre: string, s: string, i: nat)
    requires i <= |s|
    ensures AlnumEnd(pre + s, |pre| + i) == |pre| + AlnumEnd(s, i)
    decreases |s| - i
  {
    if i < |s| && IsWordChar(s[i]) { AlnumEndShift(pre, s, i + 1); }
  }

  lemma {:induction false} WeldShift(pre: string, s: string, i: nat)
    requires i <= |s|
    ensures WeldFrom(pre + s, |pre| + i) == WeldFrom(s, i)
    decreases |s| - i
  {
    hide IsWordChar, Welded, AlnumEnd;
    var t, k := pre + s, |pre| + i;
    if i < |s| {
      assert t[k] == s[i];
      if IsWordChar(s[i]) {
        var j := AlnumEnd(s, i + 1);
        AlnumEndShift(pre, s, i + 1);
        assert t[k..|pre| + j] == s[i..j];
        WeldShift(pre, s, j);
      } else {
        WeldShift(pre, s, i + 1);
        assert WeldFrom(t, k) == WeldFrom(t, k + 1);
      }
    }
  }

  /** A letter or digit piece ends at any other byte, and those bytes vanish. */
  lemma {:induction false} WeldPieces(a: string, gap: string, rest: string)
    requires a != "" && AllWordChars(a) && gap != "" && forall i :: 0 <= i < |gap| ==> !IsWordChar(gap[i])
    ensures WeldFrom(a + gap + rest, 0) == Welded(a) + WeldFrom(rest, 0)
  {
    var s := a + gap + rest;
    PieceIsWelded(s, 0, |a|);
    assert s[0..|a|] == a && s == a + (gap + rest);
    WeldShift(a, gap + rest, 0);
    GapVanishes(gap, rest);
  }

  lemma {:induction false} GapVanishes(gap: string, rest: string)
    requires forall i :: 0 <= i < |gap| ==> !IsWordChar(gap[i])
    ensures WeldFrom(gap + rest, 0) == WeldFrom(rest, 0)
  {
    if gap == "" {
      assert gap + rest == rest;
    } else {
      assert gap + rest == [gap[0]] + (gap[1..] + rest);
      WeldShift([gap[0]], gap[1..] + rest, 0);
      GapVanishes(gap[1..], rest);
    }
  }

  lemma WeldOne(a: string)
    requires a != "" && AllWordChars(a)
    ensures WeldFrom(a, 0) == Welded(a)
  {
    PieceIsWelded(a, 0, |a|);
    assert a[0..|a|] == a;
  }

  const UE := "\U{C3}\U{BC}"
  const FUENF_UMLAUT := "f" + UE + "nf"

  lemma NotInTable()
    ensures Welded("f") == "f" && Welded("nf") == "nf" && Welded("echo") == "echo" && Welded("5") == "5"
    ensures Welded("fuenf") == "5"
  {
  }

  lemma UmlautWelds()
    ensures WeldFrom(FUENF_UMLAUT, 0) == "fnf"
  {
    hide WeldFrom, Welded;
    NotInTable();
    WeldPieces("f", UE, "nf");
    WeldOne("nf");
  }

  /** "fünf" is cut at its two non-ASCII bytes before the table is consulted. */
  lemma UmlautIsCut()
    ensures CanonCallsign(FUENF_UMLAUT) == "fnf" && FUENF_UMLAUT in German.values
  {
    hide CanonCallsign, WeldFrom;
    UmlautWelds();
    SparedIsKept(FUENF_UMLAUT);
    assert FUENF_UMLAUT == "f\U{C3}\U{BC}nf";
  }

  lemma TableWordsAreSpared(w: string)
    requires w in German.values
    ensures w != "" && Spared(w)
  {
    assert |w| <= 6 && (forall i :: 0 <= i < |w| ==> !IsUpper(w[i]) && w[i] != 'j' && w[i] != 'y' && w[i] != 'k' && w[i] != 'x');
  }

  lemma TableWordsAreAscii(w: string)
    requires w in German.values && w != FUENF_UMLAUT
    ensures AllWordChars(w)
  {
  }

  /** Exactly the table words made of letters alone become their numeral. */
  lemma NumeralIffAscii(w: string)
    requires w in German.values
    ensures CanonCallsign(w) == [DigitChar(German.values[w])] <==> AllWordChars(w)
  {
    hide CanonCallsign, WeldFrom, Spared;
    TableWordsAreSpared(w);
    if w != FUENF_UMLAUT { TableWordsAreAscii(w); }
    if AllWordChars(w) {
      SparedIsKept(w);
      WeldOne(w);
    } else {
      UmlautIsCut();
    }
  }

  lemma EchoFive(digit: string, numeral: string)
    requires digit != "" && AllWordChars(digit) && Spared("echo " + digit) && Welded(digit) == numeral
    ensures CanonCallsign("echo " + digit) == "echo" + numeral
  {
    hide CanonCallsign, WeldFrom, Welded, Spared;
    SparedIsKept("echo " + digit);
    assert "echo " + digit == "echo" + " " + digit;
    NotInTable();
    WeldPieces("echo", " ", digit);
    WeldOne(digit);
  }

  lemma EchoUmlaut()
    ensures CanonCallsign("echo " + FUENF_UMLAUT) == "echofnf"
  {
    hide CanonCallsign, WeldFrom, Welded;
    SparedIsKept("echo " + FUENF_UMLAUT);
    assert "echo " + FUENF_UMLAUT == "echo" + " " + FUENF_UMLAUT;
    NotInTable();
    UmlautWelds();
    WeldPieces("echo", " ", FUENF_UMLAUT);
  }

  lemma BlankInEcho()
    ensures LastBlank("echo fuenf", 9) == 4 && LastBlank("echo fuenf", 3) == -1
  {
    var s := "echo fuenf";
    assert LastBlank(s, 9) == LastBlank(s, 8) == LastBlank(s, 7) == LastBlank(s, 6) == LastBlank(s, 5) == LastBlank(s, 4);
    assert LastBlank(s, 3) == LastBlank(s, 2) == LastBlank(s, 1) == LastBlank(s, 0) == LastBlank(s, -1);
  }

  lemma FiveIsNowhere()
    ensures !Contains("echofnf", "echo5")
  {
    hide At;
    assert "echo5"[4] == '5';
    forall r: nat ensures !At("echofnf", "echo5", r) { LackedIsNowhere("echofnf", "echo5", r); }
  }

  /** A callsign ending in five is recognised by numeral and by ASCII spelling, not with an umlaut. */
  lemma UmlautLosesCallsign()
    ensures HasCallsign("echo 5", "echo fuenf") && HasCallsign("echo fuenf", "echo fuenf")
    ensures !HasCallsign("echo " + FUENF_UMLAUT, "echo fuenf")
  {
    hide CanonCallsign, Welded, Contains, LastBlank, FUENF_UMLAUT;
    NotInTable();
    EchoFive("fuenf", "5");
    EchoFive("5", "5");
    EchoUmlaut();
    BlankInEcho();
    assert "echo " + "fuenf" == "echo fuenf" && "echo " + "5" == "echo 5" && "echo" + "5" == "echo5";
    assert "echo fuenf"[0..] == "echo fuenf";
    ContainsAt("echo5", "echo5", 0);
    FiveIsNowhere();
  }

  // ── Diff ──────────────────────────────────────────────────────────

  function Expected(comp: Clearance, e: Element): string {
    match e
    case Callsign => comp.callsign
    case Runway => comp.runway
    case Qnh => comp.qnh
    case Frequency => comp.frequency
    case Squawk => comp.squawk
  }

  /** Whether one element was read back. */
  predicate ReadBack(comp: Clearance, transcript: string, e: Element) {
    if e == Callsign then HasCallsign(LowerAll(transcript), LowerAll(comp.callsign))
    else ValueCovered(Canonical(transcript), Expected(comp, e))
  }

  /** Verdict on one element.  `stated` captures the value of that type the pilot said, "" if none;
      it only separates an omitted value from a wrong one. */
  function DiffElement(stated: (Element, string) -> string, comp: Clearance, transcript: string,
                       e: Element): FieldDiff
  {
    if e == Callsign then
      FieldDiff(e, if ReadBack(comp, transcript, e) then Ok else Missing, "", "")
    else if ReadBack(comp, transcript, e) then FieldDiff(e, Ok, Expected(comp, e), "")
    else
      var said := stated(e, LowerAll(ParseText(German, LowerAll(transcript))));
      FieldDiff(e, if said == "" then Missing else Wrong, Expected(comp, e), said)
  }

  function DiffReadback(stated: (Element, string) -> string, comp: Clearance, transcript: string): (d: seq<FieldDiff>)
    ensures |d| == |comp.required|
  {
    seq(|comp.required|, i requires 0 <= i < |comp.required| =>
      DiffElement(stated, comp, transcript, comp.required[i]))
  }

  method DiffReadbackLoop(stated: (Element, string) -> string, comp: Clearance, transcript: string)
    returns (out: seq<FieldDiff>)
    ensures out == DiffReadback(stated, comp, transcript)
  {
    hide DiffElement;
    out := [];
    for i := 0 to |comp.required|
      invariant |out| == i
      invariant forall k :: 0 <= k < i ==> out[k] == DiffElement(stated, comp, transcript, comp.required[k])
    {
      out := out + [DiffElement(stated, comp, transcript, comp.required[i])];
    }
  }

  function NotOk(diff: seq<FieldDiff>): seq<Element> {
    if diff == [] then []
    else (if diff[0].status != Ok then [diff[0].element] else []) + NotOk(diff[1..])
  }

  function MissingElements(stated: (Element, string) -> string, comp: Clearance, transcript: string): seq<Element> {
    NotOk(DiffReadback(stated, comp, transcript))
  }

  predicate Conformant(diff: seq<FieldDiff>) { forall i :: 0 <= i < |diff| ==> diff[i].status == Ok }

  predicate Complete(comp: Clearance, transcript: string) {
    forall e :: e in comp.required ==> ReadBack(comp, transcript, e)
  }

  /** The strict verdict is exactly completeness, and it does not depend on the value capture. */
  lemma ConformantIsComplete(stated: (Element, string) -> string, comp: Clearance, transcript: string)
    ensures Conformant(DiffReadback(stated, comp, transcript)) <==> Complete(comp, transcript)
    ensures MissingElements(stated, comp, transcript) == [] <==> Complete(comp, transcript)
  {
    hide ReadBack;
    var d := DiffReadback(stated, comp, transcript);
    assert forall i :: 0 <= i < |d| ==> (d[i].status == Ok <==> ReadBack(comp, transcript, comp.required[i]));
    NotOkEmpty(d);
  }

  lemma {:induction false} NotOkEmpty(d: seq<FieldDiff>)
    ensures NotOk(d) == [] <==> Conformant(d)
  {
    if d != [] { NotOkEmpty(d[1..]); }
  }

  /** Recognition threshold: the callsign and, if the clearance has one, a fact element. */
  predicate CoversCore(required: seq<Element>, missing: seq<Element>) {
    && Callsign in required && Callsign !in missing
    && ((forall e :: e in required ==> e == Callsign) ||
        (exists e :: e in required && e != Callsign && e !in missing))
  }

  /** A complete readback of any clearance that lists the callsign is recognised as one. */
  lemma CompletePassesGate(stated: (Element, string) -> string, comp: Clearance, transcript: string)
    requires Callsign in comp.required && Complete(comp, transcript)
    ensures CoversCore(comp.required, MissingElements(stated, comp, transcript))
  {
    ConformantIsComplete(stated, comp, transcript);
  }

  // ── Correction ────────────────────────────────────────────────────

  /** The texts of the correction, looked up by key with the NfL wording as default. */
  datatype Phrases = Phrases(readBack: string, negativLead: string, readBackTail: string,
                             labelOf: Element -> string)

  const CALLSIGN_SLOT := "{callsign}"

  function WrongValues(p: Phrases, diff: seq<FieldDiff>, body: string): string
    decreases |diff|
  {
    if diff == [] then body
    else if diff[0].status != Wrong then WrongValues(p, diff[1..], body)
    else
      WrongValues(p, diff[1..],
        (if body == "" then body else body + ", ") + p.labelOf(diff[0].element) + " " + diff[0].expected)
  }

  function BuildCorrection(p: Phrases, callsign: string, diff: seq<FieldDiff>): string {
    if Conformant(diff) then ""
    else if forall i :: 0 <= i < |diff| ==> diff[i].status != Wrong then
      ReplaceAll(p.readBack, CALLSIGN_SLOT, callsign)
    else
      ReplaceAll(p.negativLead, CALLSIGN_SLOT, callsign) + " " + WrongValues(p, diff, "") + ", " + p.readBackTail
  }
}
