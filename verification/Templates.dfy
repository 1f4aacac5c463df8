/** Placeholder filling.  std::map visits its keys in one fixed order; that order is the parameter
    `keys` here, and the results show it does not matter for brace-free values. */
module Templates {
  import opened Replace

  type Vars = map<string, string>

  function Placeholder(key: string): string { "{" + key + "}" }

  function Fill(text: string, vars: Vars, keys: seq<string>): string
    decreases |keys|
  {
    if keys == [] then text
    else
      var next := if keys[0] in vars then ReplaceAll(text, Placeholder(keys[0]), vars[keys[0]]) else text;
      Fill(next, vars, keys[1..])
  }

  method FillTemplate(tmpl: string, vars: Vars, keys: seq<string>) returns (result: string)
    ensures result == Fill(tmpl, vars, keys)
  {
    hide ReplaceAll;
    result := tmpl;
    var i := 0;
    while i < |keys|
      invariant 0 <= i <= |keys|
      invariant Fill(result, vars, keys[i..]) == Fill(tmpl, vars, keys)
    {
      assert keys[i..][1..] == keys[i + 1..];
      if keys[i] in vars { result := ReplaceInPlace(result, Placeholder(keys[i]), vars[keys[i]]); }
      i := i + 1;
    }
  }

  // ── Templates as segments ─────────────────────────────────────────

  datatype Segment = Lit(text: string) | Slot(key: string)

  predicate NoBraces(s: string) { forall i :: 0 <= i < |s| ==> s[i] != '{' && s[i] != '}' }

  predicate Clean(seg: Segment) {
    match seg case Lit(t) => NoBraces(t) case Slot(k) => NoBraces(k)
  }

  predicate AllClean(t: seq<Segment>) { forall i :: 0 <= i < |t| ==> Clean(t[i]) }

  function RenderSegment(seg: Segment): string {
    match seg case Lit(t) => t case Slot(k) => Placeholder(k)
  }

  function Render(t: seq<Segment>): string {
    if t == [] then "" else RenderSegment(t[0]) + Render(t[1..])
  }

  /** Every slot whose key has a value replaced by that value, all at once. */
  function Substitute(t: seq<Segment>, vars: Vars): (r: seq<Segment>)
    ensures |r| == |t|
  {
    seq(|t|, i requires 0 <= i < |t| =>
      if t[i].Slot? && t[i].key in vars then Lit(vars[t[i].key]) else t[i])
  }

  lemma Differs(s: string, p: string, i: nat, d: nat)
    requires d < |p| && i + d < |s| && s[i + d] != p[d]
    ensures !At(s, p, i)
  {
    assert i + |p| <= |s| ==> s[i..i + |p|][d] == s[i + d];
  }

  /** A brace-free segment that is not the slot itself holds no start of the slot's placeholder. */
  lemma NoStartInside(seg: Segment, rest: string, key: string, i: nat)
    requires Clean(seg) && NoBraces(key) && seg != Slot(key) && i < |RenderSegment(seg)|
    ensures !At(RenderSegment(seg) + rest, Placeholder(key), i)
  {
    var s, p := RenderSegment(seg) + rest, Placeholder(key);
    if seg.Lit? || i > 0 {
      Differs(s, p, i, 0);
    } else if |seg.key| < |key| {
      Differs(s, p, 0, |seg.key| + 1);
    } else if |key| < |seg.key| {
      Differs(s, p, 0, |key| + 1);
    } else {
      var d :| 0 <= d < |key| && seg.key[d] != key[d];
      Differs(s, p, 0, d + 1);
    }
  }

  lemma {:induction false} NoneUpTo(s: string, p: string, i: nat, n: nat)
    requires i <= n <= |s| && forall k :: i <= k < n ==> !At(s, p, k)
    ensures Find(s, p, i) == Find(s, p, n)
    decreases n - i
  {
    if i < n { NoneUpTo(s, p, i + 1, n); }
  }

  /** Text without a start of the pattern is copied. */
  lemma ReplaceSkips(pre: string, rest: string, p: string, v: string)
    requires p != "" && forall k :: 0 <= k < |pre| ==> !At(pre + rest, p, k)
    ensures ReplaceAll(pre + rest, p, v) == pre + ReplaceAll(rest, p, v)
  {
    hide Find, ReplaceAll;
    NoneUpTo(pre + rest, p, 0, |pre|);
    FindShift(pre, rest, p, 0);
    ReplaceStep(pre, rest, p, v);
    ReplaceStep("", pre + rest, p, v);
    var r := Find(rest, p, 0);
    if r != -1 {
      EditedAt(pre, rest, r, |p|);
      assert "" + (pre + rest[..r]) + v == pre + rest[..r] + v;
    }
  }

  lemma ReplaceHit(rest: string, p: string, v: string)
    requires p != ""
    ensures ReplaceAll(p + rest, p, v) == v + ReplaceAll(rest, p, v)
  {
    var s := p + rest;
    assert s[0..|p|] == p && s[|p|..] == rest && s[..0] == "";
    assert At(s, p, 0);
  }

  /** One pass of the filler substitutes exactly the slots of its key. */
  lemma {:induction false} FillOneKey(t: seq<Segment>, key: string, value: string)
    requires AllClean(t) && NoBraces(key)
    ensures ReplaceAll(Render(t), Placeholder(key), value) == Render(Substitute(t, map[key := value]))
  {
    hide ReplaceAll, Find;
    var p := Placeholder(key);
    var one := map[key := value];
    if t == [] {
      NothingToReplace(p, value);
    } else {
      var rest := Render(t[1..]);
      FillOneKey(t[1..], key, value);
      assert Substitute(t, one)[1..] == Substitute(t[1..], one);
      if t[0] == Slot(key) {
        ReplaceHit(rest, p, value);
      } else {
        forall k | 0 <= k < |RenderSegment(t[0])| ensures !At(RenderSegment(t[0]) + rest, p, k) {
          NoStartInside(t[0], rest, key, k);
        }
        ReplaceSkips(RenderSegment(t[0]), rest, p, value);
      }
    }
  }

  lemma NothingToReplace(p: string, v: string)
    requires p != ""
    ensures ReplaceAll("", p, v) == ""
  {
  }

  predicate CleanValues(vars: Vars) { forall k :: k in vars ==> NoBraces(k) && NoBraces(vars[k]) }

  function Restrict(vars: Vars, keys: seq<string>): Vars { map k | k in vars && k in keys :: vars[k] }

  /** Filling key by key is one simultaneous substitution of the keys visited. */
  lemma {:induction false} FillIsSubstitution(t: seq<Segment>, vars: Vars, keys: seq<string>)
    requires AllClean(t) && CleanValues(vars)
    ensures Fill(Render(t), vars, keys) == Render(Substitute(t, Restrict(vars, keys)))
    decreases |keys|
  {
    hide ReplaceAll, Render;
    if keys == [] {
      assert Substitute(t, Restrict(vars, keys)) == t;
    } else {
      var k := keys[0];
      var t' := if k in vars then Substitute(t, map[k := vars[k]]) else t;
      if k in vars { FillOneKey(t, k, vars[k]); }
      FillIsSubstitution(t', vars, keys[1..]);
      assert Substitute(t', Restrict(vars, keys[1..])) == Substitute(t, Restrict(vars, keys));
    }
  }

  predicate Covers(keys: seq<string>, vars: Vars) { forall k :: k in vars ==> k in keys }

  /** Any two orders that visit every key give the same text. */
  lemma FillOrderIrrelevant(t: seq<Segment>, vars: Vars, keys: seq<string>, other: seq<string>)
    requires AllClean(t) && CleanValues(vars) && Covers(keys, vars) && Covers(other, vars)
    ensures Fill(Render(t), vars, keys) == Fill(Render(t), vars, other) == Render(Substitute(t, vars))
  {
    FillIsSubstitution(t, vars, keys);
    FillIsSubstitution(t, vars, other);
    assert Restrict(vars, keys) == vars == Restrict(vars, other);
  }

  lemma AtInRest(head: string, rest: string, p: string, i: nat)
    requires |head| <= i
    ensures At(head + rest, p, i) <==> At(rest, p, i - |head|)
  {
    if i + |p| <= |head + rest| { assert (head + rest)[i..i + |p|] == rest[i - |head|..i - |head| + |p|]; }
  }

  lemma {:induction false} NoSlotNoPlaceholder(t: seq<Segment>, key: string, i: nat)
    requires AllClean(t) && NoBraces(key) && Slot(key) !in t
    ensures !At(Render(t), Placeholder(key), i)
    decreases |t|
  {
    if t != [] {
      var head, rest := RenderSegment(t[0]), Render(t[1..]);
      if i < |head| {
        NoStartInside(t[0], rest, key, i);
      } else {
        hide At, RenderSegment, Placeholder;
        NoSlotNoPlaceholder(t[1..], key, i - |head|);
        AtInRest(head, rest, Placeholder(key), i);
      }
    }
  }

  /** No known placeholder survives the filling. */
  lemma NoPlaceholderLeft(t: seq<Segment>, vars: Vars, keys: seq<string>, key: string)
    requires AllClean(t) && CleanValues(vars) && Covers(keys, vars) && key in vars
    ensures !Contains(Fill(Render(t), vars, keys), Placeholder(key))
  {
    hide Fill, Render, Find;
    FillOrderIrrelevant(t, vars, keys, keys);
    var out := Substitute(t, vars);
    forall i: nat ensures !At(Render(out), Placeholder(key), i) {
      NoSlotNoPlaceholder(out, key, i);
    }
  }

  /** With braces in a value the passes interfere: the value of one key is filled by the next. */
  lemma BracesInValuesInterfere()
    ensures var vars := map["a" := "{b}", "b" := "x"];
      && Fill("{a}", vars, ["a", "b"]) == "x"
      && Fill("{a}", vars, ["b", "a"]) == "{b}"
  {
    var vars := map["a" := "{b}", "b" := "x"];
    var pa, pb := Placeholder("a"), Placeholder("b");
    assert pa == "{a}" && pb == "{b}";
    ReplaceHit("", pa, "{b}");
    ReplaceHit("", pb, "x");
    NothingToReplace(pa, "{b}");
    NothingToReplace(pb, "x");
    assert pa + "" == pa && pb + "" == pb && "{b}" + "" == "{b}" && "x" + "" == "x";
    assert !At("{a}", pb, 0) && !At("{a}", pb, 1) && !At("{a}", pb, 2) && !At("{a}", pb, 3);
    assert ReplaceAll("{a}", pb, "x") == "{a}";
    assert ["a", "b"][1..] == ["b"] && ["b", "a"][1..] == ["a"] && ["a"][1..] == [] && ["b"][1..] == [];
    assert Fill("x", vars, []) == "x" && Fill("{b}", vars, []) == "{b}";
    assert Fill("{b}", vars, ["b"]) == Fill("x", vars, ["b"][1..]);
    assert Fill("{a}", vars, ["a"]) == Fill("{b}", vars, ["a"][1..]);
  }
}
