/** What a readback is judged by, field by field: which words of the transcript count, against which
    value of the clearance, and what the tower says when one is missing or wrong. */
module Readback {
  import opened Text
  import opened Replace
  import opened Bzf

  // ── The verdict in terms of the clearance ─────────────────────────

  /** The value, in canonical form, occurs in the transcript's; an empty one needs no reading back. */
  predicate Said(transcript: string, value: string) {
    Canonical(value) == "" || Contains(Canonical(transcript), Canonical(value))
  }

  /** Each obligation is met by its own field. */
  predicate FieldsSaid(comp: Clearance, transcript: string) {
    && (Callsign in comp.required ==> HasCallsign(LowerAll(transcript), LowerAll(comp.callsign)))
    && (Runway in comp.required ==> Said(transcript, comp.runway))
    && (Qnh in comp.required ==> Said(transcript, comp.qnh))
    && (Frequency in comp.required ==> Said(transcript, comp.frequency))
    && (Squawk in comp.required ==> Said(transcript, comp.squawk))
  }

  /** The strict verdict: conformant, and nothing missing, exactly if every obligation is met by its field. */
  lemma ConformantIffFieldsSaid(stated: (Element, string) -> string, comp: Clearance, transcript: string)
    ensures Conformant(DiffReadback(stated, comp, transcript)) <==> FieldsSaid(comp, transcript)
    ensures MissingElements(stated, comp, transcript) == [] <==> FieldsSaid(comp, transcript)
    ensures Complete(comp, transcript) <==> FieldsSaid(comp, transcript)
  {
    hide Canonical, Contains, HasCallsign, DiffReadback, Conformant, MissingElements;
    ConformantIsComplete(stated, comp, transcript);
    CompleteIffFieldsSaid(comp, transcript);
  }

  lemma CompleteIffFieldsSaid(comp: Clearance, transcript: string)
    ensures Complete(comp, transcript) <==> FieldsSaid(comp, transcript)
  {
    hide Canonical, Contains, HasCallsign;
    if Complete(comp, transcript) {
      forall e | e in comp.required ensures ReadBack(comp, transcript, e) {}
      assert Callsign in comp.required ==> ReadBack(comp, transcript, Callsign);
      assert Runway in comp.required ==> ReadBack(comp, transcript, Runway);
      assert Qnh in comp.required ==> ReadBack(comp, transcript, Qnh);
      assert Frequency in comp.required ==> ReadBack(comp, transcript, Frequency);
      assert Squawk in comp.required ==> ReadBack(comp, transcript, Squawk);
    }
  }

  /** The two clearances agree on every field that is owed. */
  predicate AgreeOnOwed(a: Clearance, b: Clearance) {
    && a.required == b.required
    && (Callsign in a.required ==> a.callsign == b.callsign)
    && (Runway in a.required ==> a.runway == b.runway)
    && (Qnh in a.required ==> a.qnh == b.qnh)
    && (Frequency in a.required ==> a.frequency == b.frequency)
    && (Squawk in a.required ==> a.squawk == b.squawk)
  }

  /** A field that is not owed never matters, for no diff entry and for no verdict. */
  lemma UnowedIsIgnored(stated: (Element, string) -> string, a: Clearance, b: Clearance, transcript: string)
    requires AgreeOnOwed(a, b)
    ensures DiffReadback(stated, a, transcript) == DiffReadback(stated, b, transcript)
    ensures Complete(a, transcript) <==> Complete(b, transcript)
  {
    hide Canonical, Contains, HasCallsign;
    var d, e := DiffReadback(stated, a, transcript), DiffReadback(stated, b, transcript);
    forall i | 0 <= i < |a.required| ensures d[i] == e[i] {
      assert a.required[i] in a.required;
    }
    ConformantIffFieldsSaid(stated, a, transcript);
    ConformantIffFieldsSaid(stated, b, transcript);
  }

  /** One entry of the diff: it names the owed element, the value the clearance gave it, and whether that
      was read back, left out, or replaced by another value. */
  lemma DiffEntry(stated: (Element, string) -> string, comp: Clearance, transcript: string, i: nat)
    requires i < |comp.required|
    ensures var f := DiffReadback(stated, comp, transcript)[i];
      && f.element == comp.required[i]
      && (f.element == Callsign ==> f.expected == "" && f.status != Wrong)
      && (f.element == Callsign ==> (f.status == Ok <==> HasCallsign(LowerAll(transcript), LowerAll(comp.callsign))))
      && (f.element == Runway ==> f.expected == comp.runway && (f.status == Ok <==> Said(transcript, comp.runway)))
      && (f.element == Qnh ==> f.expected == comp.qnh && (f.status == Ok <==> Said(transcript, comp.qnh)))
      && (f.element == Frequency ==> f.expected == comp.frequency && (f.status == Ok <==> Said(transcript, comp.frequency)))
      && (f.element == Squawk ==> f.expected == comp.squawk && (f.status == Ok <==> Said(transcript, comp.squawk)))
      && (f.status == Wrong <==> f.element != Callsign && f.status != Ok && f.stated != "")
      && (f.status == Ok ==> f.stated == "")
  {
    hide Canonical, Contains, HasCallsign;
  }

  // ── The lenient gate ──────────────────────────────────────────────

  /** Recognition asks for the callsign and, if the clearance lists any, one of its facts. */
  lemma GateIff(stated: (Element, string) -> string, comp: Clearance, transcript: string)
    ensures CoversCore(comp.required, MissingElements(stated, comp, transcript)) <==>
      && Callsign in comp.required && HasCallsign(LowerAll(transcript), LowerAll(comp.callsign))
      && ((forall e :: e in comp.required ==> e == Callsign) ||
          (Runway in comp.required && Said(transcript, comp.runway)) ||
          (Qnh in comp.required && Said(transcript, comp.qnh)) ||
          (Frequency in comp.required && Said(transcript, comp.frequency)) ||
          (Squawk in comp.required && Said(transcript, comp.squawk)))
  {
    hide Canonical, Contains, HasCallsign, MissingElements;
    forall e | e in comp.required
      ensures e in MissingElements(stated, comp, transcript) <==> !ReadBack(comp, transcript, e)
    {
      MissingIff(stated, comp, transcript, e);
    }
    FactIff(comp, transcript, MissingElements(stated, comp, transcript));
  }

  lemma FactIff(comp: Clearance, transcript: string, missing: seq<Element>)
    requires forall e :: e in comp.required ==> (e in missing <==> !ReadBack(comp, transcript, e))
    ensures (exists e :: e in comp.required && e != Callsign && e !in missing) <==>
      ((Runway in comp.required && Said(transcript, comp.runway)) ||
       (Qnh in comp.required && Said(transcript, comp.qnh)) ||
       (Frequency in comp.required && Said(transcript, comp.frequency)) ||
       (Squawk in comp.required && Said(transcript, comp.squawk)))
  {
    hide Canonical, Contains, HasCallsign;
    assert Runway in comp.required ==> (Runway !in missing <==> Said(transcript, comp.runway));
    assert Qnh in comp.required ==> (Qnh !in missing <==> Said(transcript, comp.qnh));
    assert Frequency in comp.required ==> (Frequency !in missing <==> Said(transcript, comp.frequency));
    assert Squawk in comp.required ==> (Squawk !in missing <==> Said(transcript, comp.squawk));
    if e :| e in comp.required && e != Callsign && e !in missing {
      assert e == Runway || e == Qnh || e == Frequency || e == Squawk;
    }
  }

  lemma MissingIff(stated: (Element, string) -> string, comp: Clearance, transcript: string, e: Element)
    requires e in comp.required
    ensures e in MissingElements(stated, comp, transcript) <==> !ReadBack(comp, transcript, e)
  {
    hide ReadBack;
    var d := DiffReadback(stated, comp, transcript);
    assert forall i :: 0 <= i < |d| ==>
      d[i].element == comp.required[i] && (d[i].status == Ok <==> ReadBack(comp, transcript, comp.required[i]));
    NotOkMember(d, e);
    var k :| 0 <= k < |comp.required| && comp.required[k] == e;
    assert d[k].element == e;
  }

  lemma {:induction false} NotOkMember(d: seq<FieldDiff>, e: Element)
    ensures e in NotOk(d) <==> exists i :: 0 <= i < |d| && d[i].element == e && d[i].status != Ok
  {
    if d != [] {
      NotOkMember(d[1..], e);
      if i :| 0 <= i < |d| - 1 && d[1..][i].element == e && d[1..][i].status != Ok {
        assert d[i + 1].element == e && d[i + 1].status != Ok;
      }
      if i :| 0 <= i < |d| && d[i].element == e && d[i].status != Ok {
        if i > 0 { assert d[1..][i - 1].element == e && d[1..][i - 1].status != Ok; }
      }
    }
  }

  // ── The callsign ──────────────────────────────────────────────────

  predicate NoSpace(s: string) { s != "" && forall i :: 0 <= i < |s| ==> s[i] != ' ' }

  lemma {:induction false} LastBlankAt(s: string, i: int, k: int)
    requires -1 <= k <= i < |s| && (k >= 0 ==> s[k] == ' ') && forall j :: k < j <= i ==> s[j] != ' '
    ensures LastBlank(s, i) == k
    decreases i - k
  {
    if k < i { LastBlankAt(s, i - 1, k); }
  }

  /** Of a callsign of three words or more the last two are enough, of a shorter one nothing less than
      all of it. */
  lemma LastTwoWordsSuffice(said: string, front: string, a: string, b: string)
    requires NoSpace(a) && NoSpace(b)
    ensures var callsign, p := front + " " + a + " " + b, CanonCallsign(said);
      HasCallsign(said, callsign) <==>
        CanonCallsign(callsign) == "" || Contains(p, CanonCallsign(callsign)) ||
        (CanonCallsign(a + " " + b) != "" && Contains(p, CanonCallsign(a + " " + b)))
  {
    hide CanonCallsign, Contains, LastBlank;
    var s := front + " " + a + " " + b;
    var sp2, sp1 := |front|, |front| + 1 + |a|;
    assert s[sp2] == ' ' && s[sp1] == ' ';
    assert forall j :: sp1 < j < |s| ==> s[j] == b[j - sp1 - 1];
    assert forall j :: sp2 < j < sp1 ==> s[j] == a[j - sp2 - 1];
    LastBlankAt(s, |s| - 1, sp1);
    LastBlankAt(s, sp1 - 1, sp2);
    assert s[sp2 + 1..] == a + " " + b;
  }

  lemma ShortCallsignIsNeeded(said: string, a: string, b: string)
    requires NoSpace(a) && NoSpace(b)
    ensures HasCallsign(said, a) <==> CanonCallsign(a) == "" || Contains(CanonCallsign(said), CanonCallsign(a))
    ensures HasCallsign(said, a + " " + b) <==>
      CanonCallsign(a + " " + b) == "" || Contains(CanonCallsign(said), CanonCallsign(a + " " + b))
  {
    hide CanonCallsign, Contains, LastBlank;
    LastBlankAt(a, |a| - 1, -1);
    var s := a + " " + b;
    var sp := |a|;
    assert forall j :: sp < j < |s| ==> s[j] == b[j - sp - 1];
    LastBlankAt(s, |s| - 1, sp);
    LastBlankAt(s, sp - 1, -1);
    assert s[0..] == s;
  }

  // ── The correction ────────────────────────────────────────────────

  lemma ContainsLonger(pre: string, s: string, post: string, p: string)
    requires Contains(s, p)
    ensures Contains(pre + s + post, p)
  {
    var i := Find(s, p, 0);
    var t := pre + s + post;
    assert t[|pre| + i..|pre| + i + |p|] == s[i..i + |p|];
    ContainsAt(t, p, |pre| + i);
  }

  function Value(p: Phrases, f: FieldDiff): string { p.labelOf(f.element) + " " + f.expected }

  lemma WrongStep(p: Phrases, diff: seq<FieldDiff>, body: string)
    requires diff != []
    ensures var v := Value(p, diff[0]);
      WrongValues(p, diff, body) == WrongValues(p, diff[1..],
        if diff[0].status != Wrong then body else if body == "" then v else body + ", " + v)
  {
    var name, expected := p.labelOf(diff[0].element), diff[0].expected;
    assert "" + name + " " + expected == name + " " + expected;
    assert (body + ", ") + name + " " + expected == body + ", " + (name + " " + expected);
  }

  /** What is said so far stays, and every wrong value follows. */
  lemma {:induction false} WrongValuesName(p: Phrases, diff: seq<FieldDiff>, body: string)
    ensures body <= WrongValues(p, diff, body)
    ensures forall i :: 0 <= i < |diff| && diff[i].status == Wrong ==> Contains(WrongValues(p, diff, body), Value(p, diff[i]))
    decreases |diff|
  {
    hide Contains, Value;
    if diff != [] {
      var v := Value(p, diff[0]);
      var next := if diff[0].status != Wrong then body else if body == "" then v else body + ", " + v;
      WrongStep(p, diff, body);
      WrongValuesName(p, diff[1..], next);
      var out := WrongValues(p, diff, body);
      forall i | 0 <= i < |diff| && diff[i].status == Wrong ensures Contains(out, Value(p, diff[i])) {
        if i == 0 {
          ValueEnds(body, v);
          assert out == next + out[|next|..];
          ContainsLonger("", next, out[|next|..], v);
          assert "" + next + out[|next|..] == out;
        } else {
          assert diff[1..][i - 1] == diff[i];
        }
      }
    }
  }

  lemma ValueEnds(body: string, v: string)
    ensures Contains(if body == "" then v else body + ", " + v, v)
  {
    var s := if body == "" then v else body + ", " + v;
    assert s[|s| - |v|..|s| - |v| + |v|] == v;
    ContainsAt(s, v, |s| - |v|);
  }

  /** The tower is silent on a conformant readback, asks for the whole of it when something is only left
      out, and otherwise says the value of every field that was read back wrong. */
  lemma CorrectionSays(p: Phrases, callsign: string, diff: seq<FieldDiff>)
    ensures (forall i :: 0 <= i < |diff| ==> diff[i].status == Ok) ==> BuildCorrection(p, callsign, diff) == ""
    ensures (exists i :: 0 <= i < |diff| && diff[i].status == Missing) && (forall i :: 0 <= i < |diff| ==> diff[i].status != Wrong)
      ==> BuildCorrection(p, callsign, diff) == ReplaceAll(p.readBack, "{callsign}", callsign)
    ensures forall i :: 0 <= i < |diff| && diff[i].status == Wrong ==>
      Contains(BuildCorrection(p, callsign, diff), p.labelOf(diff[i].element) + " " + diff[i].expected)
      && ReplaceAll(p.negativLead, "{callsign}", callsign) <= BuildCorrection(p, callsign, diff)
  {
    hide WrongValues, ReplaceAll, Contains;
    forall i | 0 <= i < |diff| && diff[i].status == Wrong
      ensures Contains(BuildCorrection(p, callsign, diff), p.labelOf(diff[i].element) + " " + diff[i].expected)
      ensures ReplaceAll(p.negativLead, "{callsign}", callsign) <= BuildCorrection(p, callsign, diff)
    {
      WrongValuesName(p, diff, "");
      var pre, post := ReplaceAll(p.negativLead, CALLSIGN_SLOT, callsign) + " ", ", " + p.readBackTail;
      ContainsLonger(pre, WrongValues(p, diff, ""), post, Value(p, diff[i]));
      assert diff[i].status != Ok;
      assert ReplaceAll(p.negativLead, CALLSIGN_SLOT, callsign) + " " + WrongValues(p, diff, "") + ", " + p.readBackTail
        == pre + WrongValues(p, diff, "") + post;
    }
  }

  // ── Misheard letters ──────────────────────────────────────────────

  ghost predicate Nowhere(s: string, p: string) { forall r: nat :: !At(s, p, r) }

  /** A pattern, met by no earlier one, is replaced by a text met by no later one. */
  lemma {:induction false} OneApplies(vs: seq<(string, string)>, i: nat)
    requires Patterns(vs) && i < |vs|
    requires forall k :: 0 <= k < i ==> Nowhere(vs[i].0, vs[k].0)
    requires forall k :: i < k < |vs| ==> Nowhere(vs[i].1, vs[k].0)
    ensures ApplyVariants(vs[i].0, vs) == vs[i].1
    decreases i
  {
    hide At;
    if i == 0 {
      PatternIsReplaced(vs[0].0, vs[0].1);
      NoneApplies(vs[1..], vs[0].1);
    } else {
      OneApplies(vs[1..], i - 1);
    }
  }

  lemma PatternIsReplaced(p: string, v: string)
    requires p != ""
    ensures ReplaceAll(p, p, v) == v
  {
    assert At(p, p, 0) && p[|p|..] == "" && p[..0] == "";
    assert ReplaceAll("", p, v) == "";
  }

  lemma {:induction false} NoneApplies(vs: seq<(string, string)>, s: string)
    requires Patterns(vs) && forall k :: 0 <= k < |vs| ==> Nowhere(s, vs[k].0)
    ensures ApplyVariants(s, vs) == s
    decreases |vs|
  {
    hide At;
    if vs != [] { NoneApplies(vs[1..], s); }
  }

  /** Where the letters of `p` stand against those of `s` from its r-th on, the js[r]-th differs. */
  lemma Differs(s: string, p: string, js: seq<nat>)
    requires |s| < |p| + |js| && forall r :: 0 <= r < |js| ==> js[r] < |p| && (r + js[r] < |s| ==> s[r + js[r]] != p[js[r]])
    ensures Nowhere(s, p)
  {
    forall r: nat ensures !At(s, p, r) {
      if r + |p| <= |s| { assert s[r..r + |p|][js[r]] == s[r + js[r]]; }
    }
  }

  /** The letters the recogniser mishears are put right, before a blank, a comma and at the end. */
  lemma MisheardLetters()
    ensures NormalizeNato("vector") == "victor"
    ensures NormalizeNato("juliet ") == "juliett "
    ensures NormalizeNato("juliet,") == "juliett,"
    ensures NormalizeNato("wisky") == "whiskey"
    ensures NormalizeNato("whiskee") == "whiskey"
    ensures NormalizeNato("xray") == "x-ray"
    ensures NormalizeNato("x ray") == "x-ray"
    ensures NormalizeNato("alfa") == "alpha"
    ensures NormalizeNato(" juliet") == " juliett"
  {
    hide NormalizeNato;
    Vector();
    JulietBlank();
    JulietComma();
    Wisky();
    Whiskee();
    Xray();
    SplitXray();
    Alfa();
    JulietLast();
  }

  lemma Vector()
    ensures NormalizeNato("vector") == "victor"
  {
    hide At, Find, ReplaceAll, ApplyVariants;
    Differs("victor", "juliet ", []);
    Differs("victor", "juliet,", []);
    Differs("victor", "wisky", [0, 0]);
    Differs("victor", "whiskee", []);
    Differs("victor", "xray", [0, 0, 0]);
    Differs("victor", "x ray", [0, 0]);
    Differs("victor", "alfa", [0, 0, 0]);
    OneApplies(NATO_VARIANTS, 0);
  }

  lemma JulietBlank()
    ensures NormalizeNato("juliet ") == "juliett "
  {
    hide At, Find, ReplaceAll, ApplyVariants;
    Differs("juliet ", "vector", [0, 0]);
    Differs("juliett ", "juliet,", [6, 0]);
    Differs("juliett ", "wisky", [0, 0, 0, 0]);
    Differs("juliett ", "whiskee", [0, 0]);
    Differs("juliett ", "xray", [0, 0, 0, 0, 0]);
    Differs("juliett ", "x ray", [0, 0, 0, 0]);
    Differs("juliett ", "alfa", [0, 0, 0, 0, 0]);
    OneApplies(NATO_VARIANTS, 1);
  }

  lemma JulietComma()
    ensures NormalizeNato("juliet,") == "juliett,"
  {
    hide At, Find, ReplaceAll, ApplyVariants;
    Differs("juliet,", "vector", [0, 0]);
    Differs("juliet,", "juliet ", [6]);
    Differs("juliett,", "wisky", [0, 0, 0, 0]);
    Differs("juliett,", "whiskee", [0, 0]);
    Differs("juliett,", "xray", [0, 0, 0, 0, 0]);
    Differs("juliett,", "x ray", [0, 0, 0, 0]);
    Differs("juliett,", "alfa", [0, 0, 0, 0, 0]);
    OneApplies(NATO_VARIANTS, 2);
  }

  lemma Wisky()
    ensures NormalizeNato("wisky") == "whiskey"
  {
    hide At, Find, ReplaceAll, ApplyVariants;
    Differs("wisky", "vector", []);
    Differs("wisky", "juliet ", []);
    Differs("wisky", "juliet,", []);
    Differs("whiskey", "whiskee", [6]);
    Differs("whiskey", "xray", [0, 0, 0, 0]);
    Differs("whiskey", "x ray", [0, 0, 0]);
    Differs("whiskey", "alfa", [0, 0, 0, 0]);
    OneApplies(NATO_VARIANTS, 3);
  }

  lemma Whiskee()
    ensures NormalizeNato("whiskee") == "whiskey"
  {
    hide At, Find, ReplaceAll, ApplyVariants;
    Differs("whiskee", "vector", [0, 0]);
    Differs("whiskee", "juliet ", [0]);
    Differs("whiskee", "juliet,", [0]);
    Differs("whiskee", "wisky", [1, 0, 0]);
    Differs("whiskey", "xray", [0, 0, 0, 0]);
    Differs("whiskey", "x ray", [0, 0, 0]);
    Differs("whiskey", "alfa", [0, 0, 0, 0]);
    OneApplies(NATO_VARIANTS, 4);
  }

  lemma Xray()
    ensures NormalizeNato("xray") == "x-ray"
  {
    hide At, Find, ReplaceAll, ApplyVariants;
    Differs("xray", "vector", []);
    Differs("xray", "juliet ", []);
    Differs("xray", "juliet,", []);
    Differs("xray", "wisky", []);
    Differs("xray", "whiskee", []);
    Differs("x-ray", "x ray", [1]);
    Differs("x-ray", "alfa", [0, 0]);
    OneApplies(NATO_VARIANTS, 5);
  }

  lemma SplitXray()
    ensures NormalizeNato("x ray") == "x-ray"
  {
    hide At, Find, ReplaceAll, ApplyVariants;
    Differs("x ray", "vector", []);
    Differs("x ray", "juliet ", []);
    Differs("x ray", "juliet,", []);
    Differs("x ray", "wisky", [0]);
    Differs("x ray", "whiskee", []);
    Differs("x ray", "xray", [1, 0]);
    Differs("x-ray", "alfa", [0, 0]);
    OneApplies(NATO_VARIANTS, 6);
  }

  lemma Alfa()
    ensures NormalizeNato("alfa") == "alpha"
  {
    hide At, Find, ReplaceAll, ApplyVariants;
    Differs("alfa", "vector", []);
    Differs("alfa", "juliet ", []);
    Differs("alfa", "juliet,", []);
    Differs("alfa", "wisky", []);
    Differs("alfa", "whiskee", []);
    Differs("alfa", "xray", [0]);
    Differs("alfa", "x ray", []);
    OneApplies(NATO_VARIANTS, 7);
  }

  lemma JulietLast()
    ensures NormalizeNato(" juliet") == " juliett"
  {
    hide At, Find, ReplaceAll, ApplyVariants;
    Differs(" juliet", "vector", [0, 0]);
    Differs(" juliet", "juliet ", [0]);
    Differs(" juliet", "juliet,", [0]);
    Differs(" juliet", "wisky", [0, 0, 0]);
    Differs(" juliet", "whiskee", [0]);
    Differs(" juliet", "xray", [0, 0, 0, 0]);
    Differs(" juliet", "x ray", [0, 0, 0]);
    Differs(" juliet", "alfa", [0, 0, 0, 0]);
    NoneApplies(NATO_VARIANTS, " juliet");
    TailFixed();
    hide FixTail;
  }

  lemma TailFixed()
    ensures FixTail(" juliet") == " juliett"
  {
    assert " juliet"[0..] == " juliet" && " juliet"[..0] == "";
  }
}
