/** The digit printer and the frequency pass, and the round trips from digits to spoken words and
    back through the parser. */
module SpokenRoundTrip {
  import opened Text
  import opened SpokenNumbers

  // ── Printer ───────────────────────────────────────────────────────

  /** The spoken word of every digit in `s`; other characters are skipped. */
  function DigitTokens(lang: Lang, s: string): (ts: seq<string>)
    requires |lang.spoken| == 10
    ensures AllDigits(s) ==> |ts| == |s| && forall k :: 0 <= k < |s| ==> ts[k] == lang.spoken[DigitValue(s[k])]
  {
    if s == "" then []
    else (if IsDigit(s[0]) then [lang.spoken[DigitValue(s[0])]] else []) + DigitTokens(lang, s[1..])
  }

  function Speak(lang: Lang, s: string): string
    requires |lang.spoken| == 10
  {
    Join(DigitTokens(lang, s))
  }

  lemma {:induction false} DigitTokensConcat(lang: Lang, a: string, b: string)
    requires |lang.spoken| == 10
    ensures DigitTokens(lang, a + b) == DigitTokens(lang, a) + DigitTokens(lang, b)
  {
    if a == "" {
      assert a + b == b;
    } else {
      var head := if IsDigit(a[0]) then [lang.spoken[DigitValue(a[0])]] else [];
      assert (a + b)[0] == a[0] && (a + b)[1..] == a[1..] + b;
      assert DigitTokens(lang, a + b) == head + DigitTokens(lang, a[1..] + b);
      DigitTokensConcat(lang, a[1..], b);
      assert head + (DigitTokens(lang, a[1..]) + DigitTokens(lang, b)) == head + DigitTokens(lang, a[1..]) + DigitTokens(lang, b);
    }
  }

  method Ziffernweise(lang: Lang, digits: string) returns (out: string)
    requires |lang.spoken| == 10
    ensures out == Speak(lang, digits)
  {
    hide DigitTokens, Join;
    out := "";
    var first := true;
    var i := 0;
    SpeakNothing(lang);
    while i < |digits|
      invariant 0 <= i <= |digits|
      invariant first <==> DigitTokens(lang, digits[..i]) == []
      invariant out == Join(DigitTokens(lang, digits[..i]))
    {
      assert digits[..i + 1] == digits[..i] + [digits[i]];
      DigitTokensConcat(lang, digits[..i], [digits[i]]);
      SpeakOne(lang, digits[i]);
      if IsDigit(digits[i]) {
        var word := lang.spoken[DigitValue(digits[i])];
        if !first { JoinAppend(DigitTokens(lang, digits[..i]), [word]); out := out + " "; }
        else { assert DigitTokens(lang, digits[..i]) + [word] == [word]; }
        out := out + word;
        first := false;
      } else {
        assert DigitTokens(lang, digits[..i]) + [] == DigitTokens(lang, digits[..i]);
      }
      i := i + 1;
    }
    assert digits[..i] == digits;
  }

  lemma SpeakNothing(lang: Lang)
    requires |lang.spoken| == 10
    ensures DigitTokens(lang, "") == [] && Join([]) == ""
  {
  }

  lemma SpeakOne(lang: Lang, c: char)
    requires |lang.spoken| == 10
    ensures DigitTokens(lang, [c]) == if IsDigit(c) then [lang.spoken[DigitValue(c)]] else []
    ensures forall w: string :: Join([w]) == w
  {
    assert [c][1..] == "";
  }

  /** What the printer's words must satisfy for the parser to read them back. */
  predicate Readable(lang: Lang, w: string, d: nat) {
    && IsWord(w) && BodyLen(lang, w) == |w| && NoDigits(w)
    && LowerAll(w) in lang.values && lang.values[LowerAll(w)] == d
  }

  predicate Printable(lang: Lang) {
    && Coherent(lang) && |lang.spoken| == 10
    && (forall d :: 0 <= d < 10 ==> Readable(lang, lang.spoken[d], d))
    && IsWord(lang.decimalWord) && BodyLen(lang, lang.decimalWord) == |lang.decimalWord|
    && NoDigits(lang.decimalWord) && LowerAll(lang.decimalWord) in lang.decimals
  }

  lemma SpokenIsReadable(lang: Lang, w: string, d: Digit)
    requires IsWord(w) && (forall k :: 0 <= k < |w| ==> IsLower(w[k]))
    requires w in lang.values && lang.values[w] == d
    ensures Readable(lang, w, d)
  {
    assert BodyChar(lang, w[|w| - 1]);
    assert LowerAll(w) == w;
  }

  predicate LowerWord(w: string) { IsWord(w) && forall k :: 0 <= k < |w| ==> IsLower(w[k]) }

  lemma SpokenWordsAreLower()
    ensures forall d :: 0 <= d < 10 ==> LowerWord(GERMAN_SPOKEN[d])
    ensures forall d :: 0 <= d < 10 ==> LowerWord(ENGLISH_SPOKEN[d])
  {
  }

  lemma SpokenWordsAreValues()
    ensures forall d: Digit :: GERMAN_SPOKEN[d] in GERMAN_VALUES && GERMAN_VALUES[GERMAN_SPOKEN[d]] == d
    ensures forall d: Digit :: ENGLISH_SPOKEN[d] in ENGLISH_VALUES && ENGLISH_VALUES[ENGLISH_SPOKEN[d]] == d
  {
  }

  lemma GermanPrintable()
    ensures Printable(German)
  {
    GermanCoherent();
    SpokenWordsAreLower();
    SpokenWordsAreValues();
    forall d: Digit ensures Readable(German, German.spoken[d], d) {
      SpokenIsReadable(German, German.spoken[d], d);
    }
    assert LowerAll("Komma") == "komma";
    assert BodyChar(German, "Komma"[4]);
  }

  lemma EnglishPrintable()
    ensures Printable(English)
  {
    EnglishCoherent();
    SpokenWordsAreLower();
    SpokenWordsAreValues();
    forall d: Digit ensures Readable(English, English.spoken[d], d) {
      SpokenIsReadable(English, English.spoken[d], d);
    }
    assert LowerAll("decimal") == "decimal";
    assert BodyChar(English, "decimal"[6]);
  }

  // ── Plain runs ────────────────────────────────────────────────────

  /** A list of words that spells the digits of `s`, one each. */
  predicate Spells(lang: Lang, ws: seq<string>, s: string) {
    |ws| == |s| && AllDigits(s) && forall k :: 0 <= k < |s| ==> Readable(lang, ws[k], DigitValue(s[k]))
  }

  lemma PrintedSpells(lang: Lang, s: string)
    requires Printable(lang) && AllDigits(s)
    ensures Spells(lang, DigitTokens(lang, s), s)
  {
    hide Readable, Coherent;
  }

  /** A printed word read back: its digit, no trailing punctuation, no keyword. */
  lemma PrintedWord(lang: Lang, w: string, d: Digit)
    requires Coherent(lang) && Readable(lang, w, d)
    ensures IsDigitWord(lang, w) && lang.values[LcWord(lang, w)] == d && Trailing(lang, w) == ""
    ensures !HasDigit(lang, w) && !IsAnchor(lang, w) && LcWord(lang, w) !in lang.decimals
  {
    assert w[..|w|] == w;
  }

  lemma SpelledDigit(lang: Lang, ws: seq<string>, s: string, k: nat)
    requires Coherent(lang) && Spells(lang, ws, s) && k < |s|
    ensures var w := ws[k];
      && IsDigitWord(lang, w) && WordDigit(lang, w) == s[k]
      && Trailing(lang, w) == "" && !HasDigit(lang, w) && !IsAnchor(lang, w)
      && LcWord(lang, w) !in lang.decimals && IsWord(w) && NoDigits(w)
  {
    hide Coherent;
    PrintedWord(lang, ws[k], DigitValue(s[k]));
  }

  lemma TakeHead(s: string, max: nat)
    requires s != "" && max > 0
    ensures s == [s[0]] + s[1..] && (|s| > max ==> s[..max] == [s[0]] + s[1..][..max - 1])
  {
  }

  lemma SpellsRest(lang: Lang, ws: seq<string>, s: string)
    requires Spells(lang, ws, s) && s != ""
    ensures Spells(lang, ws[1..], s[1..])
  {
    hide Readable;
  }

  /** The collector reads spelled digits back, up to its cap. */
  lemma {:induction false} RunOfSpelled(lang: Lang, ws: seq<string>, s: string, more: seq<string>, max: nat)
    requires Coherent(lang) && Spells(lang, ws, s)
    requires more == [] || !IsDigitWord(lang, more[0])
    ensures RunDigits(lang, ws + more, max) == if |s| <= max then s else s[..max]
    decreases |s|
  {
    hide RunDigits, IsDigitWord, LcWord, Trailing, Coherent, Readable, Spells;
    SameLength(lang, ws, s);
    if s == "" {
      assert ws + more == more;
      if max == 0 { NoRun(lang, more); } else if more == [] { NoRunOfNothing(lang, max); } else { RunHead(lang, more, max); }
    } else if max == 0 {
      NoRun(lang, ws + more);
    } else {
      SpelledDigit(lang, ws, s, 0);
      assert (ws + more)[0] == ws[0] && (ws + more)[1..] == ws[1..] + more;
      RunHead(lang, ws + more, max);
      SpellsRest(lang, ws, s);
      RunOfSpelled(lang, ws[1..], s[1..], more, max - 1);
      TakeHead(s, max);
    }
  }

  lemma SameLength(lang: Lang, ws: seq<string>, s: string)
    requires Spells(lang, ws, s)
    ensures |ws| == |s| && AllDigits(s)
  {
  }

  lemma NoRun(lang: Lang, ts: seq<string>)
    ensures RunDigits(lang, ts, 0) == ""
  {
  }

  lemma NoRunOfNothing(lang: Lang, max: nat)
    ensures RunDigits(lang, [], max) == ""
  {
  }

  /** No frequency starts where no decimal word follows the digits. */
  lemma NoFrequencyInRun(lang: Lang, ws: seq<string>, s: string)
    requires Coherent(lang) && Spells(lang, ws, s)
    ensures FrequencyAt(lang, ws) == NoFreq
  {
    hide RunDigits, LcWord, Trailing, Coherent, Readable;
    var left := CollectRun(lang, ws, 2, 3);
    if left != "" && |left| < |ws| { SpelledDigit(lang, ws, s, |left|); }
  }

  lemma CollectedFromSpelled(lang: Lang, ws: seq<string>, s: string, min: nat)
    requires Coherent(lang) && Spells(lang, ws, s) && 1 <= min <= 4
    ensures CollectRun(lang, ws, min, 4) == if |s| < min then "" else if |s| <= 4 then s else s[..4]
  {
    hide RunDigits, Coherent, Spells;
    assert ws + [] == ws;
    RunOfSpelled(lang, ws, s, [], 4);
  }

  lemma FrontOfSpelled(lang: Lang, anchored: bool, ws: seq<string>, s: string)
    requires Coherent(lang) && Spells(lang, ws, s) && s != ""
    ensures FrontToken(lang, anchored, ws) ==
      if |s| == 1 && !anchored then (ws[0], 1)
      else if |s| <= 4 then (s, |s|) else (s[..4], 4)
  {
    hide FrontToken, CollectRun, HasDigit, FrequencyAt, LcWord, Trailing, Coherent, Readable, IsDigitWord, IsAnchor, Spells;
    SameLength(lang, ws, s);
    var run := if |s| <= 4 then s else s[..4];
    CollectedFromSpelled(lang, ws, s, if anchored then 1 else 2);
    NoFrequencyInRun(lang, ws, s);
    SpelledDigit(lang, ws, s, 0);
    PlainFront(lang, anchored, ws);
    if |s| > 1 || anchored {
      SpelledDigit(lang, ws, s, |run| - 1);
      assert run + "" == run;
    }
  }

  /** The parse of spelled digits: one token when the run fits, otherwise a number of four digits
      and at least one token more; a single digit without anchor stays a word. */
  lemma ParseOfSpelled(lang: Lang, anchored: bool, ws: seq<string>, s: string)
    requires Coherent(lang) && Spells(lang, ws, s) && s != ""
    ensures var out := ParseTokens(lang, anchored, ws);
      && (|s| <= 4 && (anchored || |s| > 1) ==> out == [s])
      && (|s| == 1 && !anchored ==> |ws| == 1 && out == [ws[0]])
      && (|s| > 4 ==> |out| > 1 && out[0] == s[..4])
  {
    hide FrontToken, Coherent, Spells, IsAnchor;
    SameLength(lang, ws, s);
    FrontOfSpelled(lang, anchored, ws, s);
    var used := FrontToken(lang, anchored, ws).1;
    if |s| <= 4 {
      assert ws[used..] == [];
    } else {
      assert ws[used..] != [];
    }
  }

  lemma SpelledWords(lang: Lang, ws: seq<string>, s: string)
    requires Coherent(lang) && Spells(lang, ws, s)
    ensures AllWords(ws)
  {
    hide Coherent, Spells;
    SameLength(lang, ws, s);
    forall w | w in ws ensures IsWord(w) {
      var k :| 0 <= k < |ws| && ws[k] == w;
      SpelledDigit(lang, ws, s, k);
    }
  }

  /** Free-standing digits survive being spelled, in whatever words the tables know, and parsed exactly
      when there are two to four of them: a lone digit stays a word and a longer run is cut after four. */
  lemma SpelledRoundTrip(lang: Lang, ws: seq<string>, s: string)
    requires Coherent(lang) && Spells(lang, ws, s) && s != ""
    ensures ParseText(lang, Join(ws)) == s <==> 2 <= |s| <= 4
  {
    hide ParseTokens, Coherent, Spells;
    SameLength(lang, ws, s);
    SpelledWords(lang, ws, s);
    WordsOfJoin(ws);
    ParseOfSpelled(lang, false, ws, s);
    var out := ParseTokens(lang, false, ws);
    if |s| == 1 {
      SpelledDigit(lang, ws, s, 0);
      assert IsDigit(s[0]) && !IsDigit(Join(out)[0]);
    } else if |s| > 4 {
      assert Join(out)[4] == ' ';
    }
  }

  /** So the printer's words come back. */
  lemma DigitsRoundTrip(lang: Lang, s: string)
    requires Printable(lang) && AllDigits(s) && s != ""
    ensures ParseText(lang, Speak(lang, s)) == s <==> 2 <= |s| <= 4
  {
    PrintedSpells(lang, s);
    SpelledRoundTrip(lang, DigitTokens(lang, s), s);
  }

  /** After an anchor keyword one digit is enough. */
  lemma AnchoredSpelling(lang: Lang, anchor: string, ws: seq<string>, s: string)
    requires Coherent(lang) && Spells(lang, ws, s) && s != ""
    requires IsWord(anchor) && IsAnchor(lang, anchor)
    ensures ParseText(lang, anchor + " " + Join(ws)) == anchor + " " + s <==> |s| <= 4
  {
    hide ParseTokens, Coherent, Spells, IsAnchor;
    SameLength(lang, ws, s);
    SpelledWords(lang, ws, s);
    var all := [anchor] + ws;
    assert Join(all) == anchor + " " + Join(ws) by { JoinAppend([anchor], ws); }
    WordsOfJoin(all);
    AnchorFirst(lang, anchor, ws);
    var rest := ParseTokens(lang, true, ws);
    ParseOfSpelled(lang, true, ws, s);
    JoinAppend([anchor], rest);
    if |s| > 4 {
      assert Join([anchor] + rest)[|anchor| + 1..][4] == ' ';
      assert (anchor + " " + s)[|anchor| + 1..] == s;
    }
  }

  lemma AnchoredRoundTrip(lang: Lang, anchor: string, s: string)
    requires Printable(lang) && AllDigits(s) && s != ""
    requires IsWord(anchor) && IsAnchor(lang, anchor)
    ensures ParseText(lang, anchor + " " + Speak(lang, s)) == anchor + " " + s <==> |s| <= 4
  {
    PrintedSpells(lang, s);
    AnchoredSpelling(lang, anchor, DigitTokens(lang, s), s);
  }

  lemma AnchorFirst(lang: Lang, anchor: string, ts: seq<string>)
    requires Coherent(lang) && IsAnchor(lang, anchor)
    ensures ParseTokens(lang, false, [anchor] + ts) == [anchor] + ParseTokens(lang, true, ts)
  {
    var all := [anchor] + ts;
    assert all[1..] == ts;
    FrontShape(lang, false, all);
  }

  // ── Frequencies ───────────────────────────────────────────────────

  function ScanDigits(s: string, pos: nat): (end: nat)
    requires pos <= |s|
    ensures pos <= end <= |s| && AllDigits(s[pos..end]) && (end < |s| ==> !IsDigit(s[end]))
    decreases |s| - pos
  {
    if pos < |s| && IsDigit(s[pos]) then
      var end := ScanDigits(s, pos + 1);
      assert s[pos..end] == [s[pos]] + s[pos + 1..end];
      end
    else pos
  }

  datatype Span = NoSpan | Span(dot: nat, end: nat)

  /** "NNN.NNN" at position `i`: 2-3 digits, a dot, 1-3 digits, word boundaries on both sides. */
  function FrequencySpan(s: string, i: nat): (f: Span)
    requires i < |s|
    ensures f.Span? ==> i < f.dot < f.end <= |s|
  {
    if !IsDigit(s[i]) || (i > 0 && IsWordChar(s[i - 1])) then NoSpan
    else
      var dot := ScanDigits(s, i);
      if !(2 <= dot - i <= 3) || dot >= |s| || s[dot] != '.' then NoSpan
      else
        var end := ScanDigits(s, dot + 1);
        if 1 <= end - (dot + 1) <= 3 && (end >= |s| || !IsWordChar(s[end])) then Span(dot, end) else NoSpan
  }

  function SpokenFrequency(lang: Lang, left: string, right: string): string
    requires |lang.spoken| == 10
  {
    Speak(lang, left) + " " + lang.decimalWord + " " + Speak(lang, right)
  }

  /** The frequency pass from position `i` on. */
  function ExpandFrom(lang: Lang, s: string, i: nat): string
    requires |lang.spoken| == 10 && i <= |s|
    decreases |s| - i
  {
    if i >= |s| then ""
    else
      var f := FrequencySpan(s, i);
      if f.Span? then SpokenFrequency(lang, s[i..f.dot], s[f.dot + 1..f.end]) + ExpandFrom(lang, s, f.end)
      else [s[i]] + ExpandFrom(lang, s, i + 1)
  }

  lemma ExpandStep(lang: Lang, s: string, i: nat)
    requires |lang.spoken| == 10 && i < |s|
    ensures var f := FrequencySpan(s, i);
      ExpandFrom(lang, s, i) ==
        if f.Span? then SpokenFrequency(lang, s[i..f.dot], s[f.dot + 1..f.end]) + ExpandFrom(lang, s, f.end)
        else [s[i]] + ExpandFrom(lang, s, i + 1)
  {
    hide SpokenFrequency, FrequencySpan;
  }

  lemma ExpandEnd(lang: Lang, s: string)
    requires |lang.spoken| == 10
    ensures ExpandFrom(lang, s, |s|) == ""
  {
  }

  method ExpandFrequencies(lang: Lang, s: string) returns (out: string)
    requires |lang.spoken| == 10
    ensures out == ExpandFrom(lang, s, 0)
  {
    hide Speak, ExpandFrom, FrequencySpan;
    out := "";
    var i := 0;
    ExpandEnd(lang, s);
    while i < |s|
      invariant 0 <= i <= |s|
      invariant out + ExpandFrom(lang, s, i) == ExpandFrom(lang, s, 0)
    {
      ExpandStep(lang, s, i);
      var f := FrequencySpan(s, i);
      if f.Span? {
        var left := Ziffernweise(lang, s[i..f.dot]);
        var right := Ziffernweise(lang, s[f.dot + 1..f.end]);
        out := out + (left + " " + lang.decimalWord + " " + right);
        i := f.end;
      } else {
        out := out + [s[i]];
        i := i + 1;
      }
    }
  }

  lemma {:induction false} ScanDigitsOf(s: string, pos: nat, end: nat)
    requires pos <= end <= |s| && AllDigits(s[pos..end]) && (end < |s| ==> !IsDigit(s[end]))
    ensures ScanDigits(s, pos) == end
    decreases end - pos
  {
    if pos < end {
      assert IsDigit(s[pos..end][0]);
      assert s[pos..end] == [s[pos]] + s[pos + 1..end];
      ScanDigitsOf(s, pos + 1, end);
    }
  }

  /** The span of an isolated frequency is the whole text. */
  lemma SpanOfIsolated(left: string, right: string)
    requires AllDigits(left) && AllDigits(right) && 2 <= |left| <= 3 && 1 <= |right| <= 3
    ensures FrequencySpan(left + "." + right, 0) == Span(|left|, |left| + 1 + |right|)
  {
    hide ScanDigits;
    var s := left + "." + right;
    assert s[0..|left|] == left && s[|left| + 1..|s|] == right;
    ScanDigitsOf(s, 0, |left|);
    ScanDigitsOf(s, |left| + 1, |s|);
    assert IsDigit(left[0]) && s[0] == left[0];
  }

  /** An isolated frequency is spoken half by half. */
  lemma ExpandIsolated(lang: Lang, left: string, right: string)
    requires |lang.spoken| == 10 && AllDigits(left) && AllDigits(right)
    requires 2 <= |left| <= 3 && 1 <= |right| <= 3
    ensures ExpandFrom(lang, left + "." + right, 0) == SpokenFrequency(lang, left, right)
  {
    hide SpokenFrequency, FrequencySpan, AllDigits, ExpandFrom;
    var s := left + "." + right;
    SpanOfIsolated(left, right);
    ExpandStep(lang, s, 0);
    ExpandEnd(lang, s);
    assert s[0..|left|] == left && s[|left| + 1..|s|] == right;
    assert SpokenFrequency(lang, left, right) + "" == SpokenFrequency(lang, left, right);
  }

  /** A word for the decimal point. */
  predicate Decimal(lang: Lang, w: string) {
    IsWord(w) && BodyLen(lang, w) == |w| && NoDigits(w) && LowerAll(w) in lang.decimals
  }

  lemma DecimalToken(lang: Lang, w: string)
    requires Coherent(lang) && Decimal(lang, w)
    ensures LcWord(lang, w) in lang.decimals && Trailing(lang, w) == "" && IsWord(w)
    ensures !IsDigitWord(lang, w) && !HasDigit(lang, w)
  {
    assert w[..|w|] == w;
  }

  /** A frequency said in words: both halves spelled, a decimal word between. */
  predicate SaysFrequency(lang: Lang, ts: seq<string>, left: string, right: string) {
    && 2 <= |left| <= 3 && 1 <= |right| <= 3 && |ts| == |left| + 1 + |right|
    && Spells(lang, ts[..|left|], left) && Decimal(lang, ts[|left|]) && Spells(lang, ts[|left| + 1..], right)
  }

  lemma FrequencyIsWords(lang: Lang, ts: seq<string>, left: string, right: string)
    requires Coherent(lang) && SaysFrequency(lang, ts, left, right)
    ensures AllWords(ts)
  {
    hide Coherent, Spells;
    var n := |left|;
    SpelledWords(lang, ts[..n], left);
    SpelledWords(lang, ts[n + 1..], right);
    assert ts == ts[..n] + [ts[n]] + ts[n + 1..];
  }

  lemma LeftOfFrequency(lang: Lang, ts: seq<string>, left: string, right: string, max: nat)
    requires Coherent(lang) && SaysFrequency(lang, ts, left, right) && |left| <= max
    ensures CollectRun(lang, ts, 2, max) == left
  {
    hide RunDigits, Coherent, Readable, Spells, Decimal, IsDigitWord;
    DecimalToken(lang, ts[|left|]);
    assert ts == ts[..|left|] + ts[|left|..];
    RunOfSpelled(lang, ts[..|left|], left, ts[|left|..], max);
  }

  lemma RightOfFrequency(lang: Lang, ws: seq<string>, right: string)
    requires Coherent(lang) && Spells(lang, ws, right) && 1 <= |right| <= 3
    ensures CollectRun(lang, ws, lang.minFraction, 3) == if |right| >= lang.minFraction then right else ""
  {
    hide RunDigits, Coherent, Spells;
    assert ws + [] == ws;
    RunOfSpelled(lang, ws, right, [], 3);
  }

  lemma FrequencyRead(lang: Lang, ts: seq<string>, left: string, right: string)
    requires Coherent(lang) && SaysFrequency(lang, ts, left, right)
    ensures FrequencyAt(lang, ts) == if |right| >= lang.minFraction then Freq(left, right) else NoFreq
  {
    hide RunDigits, CollectRun, LcWord, Trailing, Coherent, Readable, Spells, Decimal;
    LeftOfFrequency(lang, ts, left, right, 3);
    RightOfFrequency(lang, ts[|left| + 1..], right);
    SpelledDigit(lang, ts[..|left|], left, |left| - 1);
    DecimalToken(lang, ts[|left|]);
  }

  /** The first token parsed from a spoken frequency. */
  lemma FrequencyFront(lang: Lang, ts: seq<string>, left: string, right: string)
    requires Coherent(lang) && SaysFrequency(lang, ts, left, right)
    ensures FrontToken(lang, false, ts) ==
      if |right| >= lang.minFraction then (left + "." + right, |left| + 1 + |right|) else (left, |left|)
  {
    hide RunDigits, CollectRun, LcWord, Trailing, Coherent, Readable, Spells, Decimal, FrequencyAt, HasDigit;
    FrequencyRead(lang, ts, left, right);
    LeftOfFrequency(lang, ts, left, right, 4);
    SpelledDigit(lang, ts[..|left|], left, 0);
    SpelledDigit(lang, ts[..|left|], left, |left| - 1);
    SpelledDigit(lang, ts[|left| + 1..], right, |right| - 1);
    assert left + "" == left && left + "." + right + "" == left + "." + right;
  }

  lemma JoinStart(ws: seq<string>)
    requires ws != []
    ensures |ws| == 1 ==> Join(ws) == ws[0]
    ensures |ws| > 1 ==> |Join(ws)| > |ws[0]| && Join(ws)[|ws[0]|] == ' '
  {
  }

  lemma FrequencyParse(lang: Lang, ts: seq<string>, left: string, right: string)
    requires Coherent(lang) && SaysFrequency(lang, ts, left, right)
    ensures var out := ParseTokens(lang, false, ts);
      if |right| >= lang.minFraction then out == [left + "." + right] else |out| > 1 && out[0] == left
  {
    hide FrontToken, Coherent, Spells, Decimal, IsAnchor;
    FrequencyFront(lang, ts, left, right);
    var (token, used) := FrontToken(lang, false, ts);
    assert (ts[used..] == []) == (|right| >= lang.minFraction);
  }

  /** A frequency said in whatever words the tables know is read as one number exactly when its fraction
      is long enough for the parser. */
  lemma SaidFrequency(lang: Lang, ts: seq<string>, left: string, right: string)
    requires Coherent(lang) && SaysFrequency(lang, ts, left, right)
    ensures ParseText(lang, Join(ts)) == left + "." + right <==> |right| >= lang.minFraction
  {
    hide ParseTokens, Coherent, Spells, Decimal, Words, Join;
    FrequencyIsWords(lang, ts, left, right);
    WordsOfJoin(ts);
    FrequencyParse(lang, ts, left, right);
    var out := ParseTokens(lang, false, ts);
    assert (left + "." + right)[|left|] == '.';
    if |out| > 1 { JoinStart(out); } else { JoinStart([left + "." + right]); }
  }

  /** The tokens of a printed frequency. */
  function FrequencyTokens(lang: Lang, left: string, right: string): seq<string>
    requires |lang.spoken| == 10
  {
    DigitTokens(lang, left) + [lang.decimalWord] + DigitTokens(lang, right)
  }

  lemma PrintedFrequency(lang: Lang, left: string, right: string)
    requires Printable(lang) && AllDigits(left) && AllDigits(right)
    requires 2 <= |left| <= 3 && 1 <= |right| <= 3
    ensures SaysFrequency(lang, FrequencyTokens(lang, left, right), left, right)
    ensures Join(FrequencyTokens(lang, left, right)) == SpokenFrequency(lang, left, right)
  {
    hide Coherent, Readable, Spells;
    PrintedSpells(lang, left);
    PrintedSpells(lang, right);
    var ts := FrequencyTokens(lang, left, right);
    assert ts[..|left|] == DigitTokens(lang, left) && ts[|left| + 1..] == DigitTokens(lang, right);
    JoinAppend(DigitTokens(lang, left), [lang.decimalWord]);
    JoinAppend(DigitTokens(lang, left) + [lang.decimalWord], DigitTokens(lang, right));
  }

  /** An isolated frequency survives being printed and parsed exactly when its fraction is long
      enough for the parser: one digit suffices in English, German needs two. */
  lemma FrequencyRoundTrip(lang: Lang, left: string, right: string)
    requires Printable(lang) && AllDigits(left) && AllDigits(right)
    requires 2 <= |left| <= 3 && 1 <= |right| <= 3
    ensures ParseText(lang, ExpandFrom(lang, left + "." + right, 0)) == left + "." + right
       <==> |right| >= lang.minFraction
  {
    hide ParseText, ExpandFrom, SpokenFrequency, FrequencyTokens, Readable, SaysFrequency;
    ExpandIsolated(lang, left, right);
    PrintedFrequency(lang, left, right);
    SaidFrequency(lang, FrequencyTokens(lang, left, right), left, right);
  }

  /** The one-digit fraction German loses: "118.3" comes back as "118 Komma drei". */
  lemma GermanShortFractionLost()
    ensures ParseText(German, ExpandFrom(German, "118.3", 0)) != "118.3"
    ensures ParseText(English, ExpandFrom(English, "118.3", 0)) == "118.3"
  {
    hide Printable, ParseText, ExpandFrom;
    GermanPrintable();
    EnglishPrintable();
    assert "118" + "." + "3" == "118.3";
    FrequencyRoundTrip(German, "118", "3");
    FrequencyRoundTrip(English, "118", "3");
  }

  // ── Every spelling there is ───────────────────────────────────────

  const FUENF := "f\U{C3}\U{BC}nf"

  /** The German words for a digit. */
  predicate GermanSays(w: string, d: nat) {
    match d
    case 0 => w == "null"
    case 1 => w == "eins"
    case 2 => w == "zwo" || w == "zwei"
    case 3 => w == "drei"
    case 4 => w == "vier"
    case 5 => w == "fuenf" || w == FUENF
    case 6 => w == "sechs"
    case 7 => w == "sieben"
    case 8 => w == "acht"
    case 9 => w == "neun"
    case _ => false
  }

  predicate EnglishSays(w: string, d: nat) {
    match d
    case 0 => w == "zero" || w == "oh"
    case 1 => w == "one"
    case 2 => w == "two"
    case 3 => w == "tree" || w == "three"
    case 4 => w == "fower" || w == "four"
    case 5 => w == "fife" || w == "five"
    case 6 => w == "six"
    case 7 => w == "seven"
    case 8 => w == "eight"
    case 9 => w == "niner" || w == "nine"
    case _ => false
  }

  /** The tables hold these words and no others. */
  lemma GermanTable(w: string, d: Digit)
    ensures w in German.values && German.values[w] == d <==> GermanSays(w, d)
  {
  }

  lemma EnglishTable(w: string, d: Digit)
    ensures w in English.values && English.values[w] == d <==> EnglishSays(w, d)
  {
  }

  const GERMAN_KEYWORDS :=
    {"piste", "qnh", "steuerkurs", "runway", "frequenz", "wind", "auf", "in", "ueber", "nummer", "verkehr", "information"}
  const ENGLISH_KEYWORDS :=
    {"runway", "qnh", "heading", "frequency", "wind", "number", "contact", "climb", "descend", "squawk", "traffic",
     "information"}

  /** A word whose lower case is a plain word of letters, capitals and umlaut bytes apart. */
  lemma AnyCase(lang: Lang, w: string, lower: string)
    requires LowerAll(w) == lower && IsWord(lower) && NoDigits(lower) && IsWordChar(lower[|lower| - 1])
    ensures IsWord(w) && NoDigits(w) && BodyLen(lang, w) == |w|
    ensures LcWord(lang, w) == lower
  {
    assert forall i :: 0 <= i < |w| ==> lower[i] == Lower(w[i]);
    assert w[..|w|] == w;
  }

  lemma GermanWordShape(w: string, d: nat)
    requires GermanSays(w, d)
    ensures IsWord(w) && NoDigits(w) && IsWordChar(w[|w| - 1])
  {
  }

  lemma EnglishWordShape(w: string, d: nat)
    requires EnglishSays(w, d)
    ensures IsWord(w) && NoDigits(w) && IsWordChar(w[|w| - 1])
  {
  }

  lemma GermanReads(w: string, d: Digit)
    requires GermanSays(LowerAll(w), d)
    ensures Readable(German, w, d)
  {
    hide GermanSays, BodyLen, LcWord;
    GermanWordShape(LowerAll(w), d);
    AnyCase(German, w, LowerAll(w));
    GermanTable(LowerAll(w), d);
  }

  lemma EnglishReads(w: string, d: Digit)
    requires EnglishSays(LowerAll(w), d)
    ensures Readable(English, w, d)
  {
    hide EnglishSays, BodyLen, LcWord;
    EnglishWordShape(LowerAll(w), d);
    AnyCase(English, w, LowerAll(w));
    EnglishTable(LowerAll(w), d);
  }

  predicate InGerman(ws: seq<string>, s: string) {
    |ws| == |s| && AllDigits(s) && forall k :: 0 <= k < |s| ==> GermanSays(LowerAll(ws[k]), DigitValue(s[k]))
  }

  predicate InEnglish(ws: seq<string>, s: string) {
    |ws| == |s| && AllDigits(s) && forall k :: 0 <= k < |s| ==> EnglishSays(LowerAll(ws[k]), DigitValue(s[k]))
  }

  lemma GermanSpells(ws: seq<string>, s: string)
    requires InGerman(ws, s)
    ensures Spells(German, ws, s)
  {
    hide GermanSays, Readable;
    forall k | 0 <= k < |s| ensures Readable(German, ws[k], DigitValue(s[k])) { GermanReads(ws[k], DigitValue(s[k])); }
  }

  lemma EnglishSpells(ws: seq<string>, s: string)
    requires InEnglish(ws, s)
    ensures Spells(English, ws, s)
  {
    hide EnglishSays, Readable;
    forall k | 0 <= k < |s| ensures Readable(English, ws[k], DigitValue(s[k])) { EnglishReads(ws[k], DigitValue(s[k])); }
  }

  lemma GermanKeyword(a: string)
    ensures a in German.anchors <==> a in GERMAN_KEYWORDS
    ensures a in GERMAN_KEYWORDS ==> IsWord(a) && NoDigits(a) && IsWordChar(a[|a| - 1])
  {
  }

  lemma EnglishKeyword(a: string)
    ensures a in English.anchors <==> a in ENGLISH_KEYWORDS
    ensures a in ENGLISH_KEYWORDS ==> IsWord(a) && NoDigits(a) && IsWordChar(a[|a| - 1])
  {
  }

  /** Digits said in German, each in any of its words and in any case: two to four of them are read as
      the number, and after any of the keywords one to four. */
  lemma GermanNumberIsRead(ws: seq<string>, s: string, keyword: string)
    requires InGerman(ws, s) && s != "" && LowerAll(keyword) in GERMAN_KEYWORDS
    ensures ParseText(German, Join(ws)) == s <==> 2 <= |s| <= 4
    ensures ParseText(German, keyword + " " + Join(ws)) == keyword + " " + s <==> |s| <= 4
  {
    hide InGerman, Spells, Coherent, GERMAN_KEYWORDS, ParseText, Join, BodyLen;
    GermanSpells(ws, s);
    GermanCoherent();
    SpelledRoundTrip(German, ws, s);
    GermanKeyword(LowerAll(keyword));
    AnyCase(German, keyword, LowerAll(keyword));
    AnchoredSpelling(German, keyword, ws, s);
  }

  lemma EnglishNumberIsRead(ws: seq<string>, s: string, keyword: string)
    requires InEnglish(ws, s) && s != "" && LowerAll(keyword) in ENGLISH_KEYWORDS
    ensures ParseText(English, Join(ws)) == s <==> 2 <= |s| <= 4
    ensures ParseText(English, keyword + " " + Join(ws)) == keyword + " " + s <==> |s| <= 4
  {
    hide InEnglish, Spells, Coherent, ENGLISH_KEYWORDS, ParseText, Join, BodyLen;
    EnglishSpells(ws, s);
    EnglishCoherent();
    SpelledRoundTrip(English, ws, s);
    EnglishKeyword(LowerAll(keyword));
    AnyCase(English, keyword, LowerAll(keyword));
    AnchoredSpelling(English, keyword, ws, s);
  }

  /** Frequencies: German takes "komma" and two or three digits after it, English "decimal" or "point"
      and one to three. */
  lemma GermanFrequencyIsRead(lw: seq<string>, left: string, point: string, rw: seq<string>, right: string)
    requires InGerman(lw, left) && InGerman(rw, right) && 2 <= |left| <= 3 && 1 <= |right| <= 3
    requires LowerAll(point) == "komma"
    ensures ParseText(German, Join(lw + [point] + rw)) == left + "." + right <==> |right| >= 2
  {
    hide InGerman, Spells, Coherent, ParseText, Join, BodyLen;
    GermanSpells(lw, left);
    GermanSpells(rw, right);
    GermanCoherent();
    AnyCase(German, point, "komma");
    var ts := lw + [point] + rw;
    SameLength(German, lw, left);
    SameLength(German, rw, right);
    assert ts[..|left|] == lw && ts[|left| + 1..] == rw && ts[|left|] == point;
    SaidFrequency(German, ts, left, right);
  }

  lemma EnglishFrequencyIsRead(lw: seq<string>, left: string, point: string, rw: seq<string>, right: string)
    requires InEnglish(lw, left) && InEnglish(rw, right) && 2 <= |left| <= 3 && 1 <= |right| <= 3
    requires LowerAll(point) == "decimal" || LowerAll(point) == "point"
    ensures ParseText(English, Join(lw + [point] + rw)) == left + "." + right
  {
    hide InEnglish, Spells, Coherent, ParseText, Join, BodyLen;
    EnglishSpells(lw, left);
    EnglishSpells(rw, right);
    EnglishCoherent();
    AnyCase(English, point, LowerAll(point));
    var ts := lw + [point] + rw;
    SameLength(English, lw, left);
    SameLength(English, rw, right);
    assert ts[..|left|] == lw && ts[|left| + 1..] == rw && ts[|left|] == point;
    SaidFrequency(English, ts, left, right);
  }

  /** The words the tower itself says. */
  lemma GermanTowerSays()
    ensures DigitTokens(German, "0123456789")
      == ["null", "eins", "zwo", "drei", "vier", "fuenf", "sechs", "sieben", "acht", "neun"]
    ensures German.decimalWord == "Komma"
  {
    AllTenDigits();
  }

  lemma EnglishTowerSays()
    ensures DigitTokens(English, "0123456789")
      == ["zero", "one", "two", "tree", "four", "fife", "six", "seven", "eight", "niner"]
    ensures English.decimalWord == "decimal"
  {
    AllTenDigits();
  }

  lemma AllTenDigits()
    ensures var all := "0123456789"; AllDigits(all) && forall k :: 0 <= k < 10 ==> DigitValue(all[k]) == k
  {
  }

  // ── Punctuation ───────────────────────────────────────────────────

  /** Marks after a word are kept apart from it; an English word may end in an apostrophe, a German one not. */
  lemma MarksAreCut(body: string, marks: string)
    requires body != "" && IsWordChar(body[|body| - 1])
    requires forall k :: 0 <= k < |marks| ==> !IsWordChar(marks[k])
    ensures LcWord(German, body + marks) == LowerAll(body) && Trailing(German, body + marks) == marks
    ensures '\'' !in marks ==> LcWord(English, body + marks) == LowerAll(body) && Trailing(English, body + marks) == marks
    ensures LcWord(English, body + "'") == LowerAll(body + "'")
  {
    BodyEnds(German, body, marks);
    if '\'' !in marks { BodyEnds(English, body, marks); }
    BodyEnds(English, body + "'", "");
    assert body + "'" + "" == body + "'";
  }

  lemma BodyEnds(lang: Lang, body: string, marks: string)
    requires body != "" && BodyChar(lang, body[|body| - 1])
    requires forall k :: 0 <= k < |marks| ==> !BodyChar(lang, marks[k])
    ensures BodyLen(lang, body + marks) == |body| && (body + marks)[..|body|] == body && (body + marks)[|body|..] == marks
  {
    hide BodyChar;
    var s, n := body + marks, BodyLen(lang, body + marks);
    assert forall k :: |body| <= k < |s| ==> s[k] == marks[k - |body|];
    assert s[|body| - 1] == body[|body| - 1];
  }
}
