/** The spoken-number printer and parser of the German and English phraseology modules.
    Both source files carry the same functions over different word tables, so the tables are
    a `Lang` value.  A token is its raw text; body, trailing punctuation and lower-case word
    are functions of it. */
module SpokenNumbers {
  import opened Text

  type Digit = d: nat | d < 10

  /** One language's word tables.
      `spoken`: the word the printer uses for each digit.  `values`: every lower-case word the
      parser reads as a digit.  `anchors`: keywords after which a single spoken digit already
      counts as a number.  `decimals`: words the parser takes for the decimal point;
      `decimalWord` is the one the printer uses.  `minFraction`: fewest digits the parser accepts
      after it.  `apostrophe`: whether an apostrophe belongs to the word body. */
  datatype Lang = Lang(spoken: seq<string>, values: map<string, Digit>, anchors: set<string>,
                       decimals: set<string>, decimalWord: string, minFraction: nat,
                       apostrophe: bool)

  const GERMAN_VALUES: map<string, Digit> :=
    map["null" := 0, "eins" := 1, "zwo" := 2, "drei" := 3, "vier" := 4, "fuenf" := 5,
        "sechs" := 6, "sieben" := 7, "acht" := 8, "neun" := 9, "zwei" := 2,
        "f\U{C3}\U{BC}nf" := 5]
  const GERMAN_ANCHORS :=
    {"piste", "qnh", "steuerkurs", "runway", "frequenz", "wind",
     "auf", "in", "ueber", "nummer", "verkehr", "information"}
  const GERMAN_DECIMALS := {"komma"}
  const GERMAN_SPOKEN :=
    ["null", "eins", "zwo", "drei", "vier", "fuenf", "sechs", "sieben", "acht", "neun"]
  const German :=
    Lang(GERMAN_SPOKEN, GERMAN_VALUES, GERMAN_ANCHORS, GERMAN_DECIMALS, "Komma", 2, false)

  const ENGLISH_VALUES: map<string, Digit> :=
    map["zero" := 0, "one" := 1, "two" := 2, "tree" := 3, "fower" := 4, "fife" := 5, "six" := 6,
        "seven" := 7, "eight" := 8, "niner" := 9, "oh" := 0, "three" := 3, "four" := 4,
        "five" := 5, "nine" := 9]
  const ENGLISH_ANCHORS :=
    {"runway", "qnh", "heading", "frequency", "wind", "number",
     "contact", "climb", "descend", "squawk", "traffic", "information"}
  const ENGLISH_DECIMALS := {"decimal", "point"}
  const ENGLISH_SPOKEN :=
    ["zero", "one", "two", "tree", "four", "fife", "six", "seven", "eight", "niner"]
  const English :=
    Lang(ENGLISH_SPOKEN, ENGLISH_VALUES, ENGLISH_ANCHORS, ENGLISH_DECIMALS, "decimal", 1, true)

  // ── Tokens ────────────────────────────────────────────────────────

  predicate BodyChar(lang: Lang, c: char) {
    IsWordChar(c) || (lang.apostrophe && c == '\'')
  }

  function BodyLen(lang: Lang, raw: string): (n: nat)
    ensures n <= |raw|
    ensures n > 0 ==> BodyChar(lang, raw[n - 1])
    ensures forall k :: n <= k < |raw| ==> !BodyChar(lang, raw[k])
  {
    if raw == "" then 0
    else if BodyChar(lang, raw[|raw| - 1]) then |raw|
    else BodyLen(lang, raw[..|raw| - 1])
  }

  function LcWord(lang: Lang, raw: string): string { LowerAll(raw[..BodyLen(lang, raw)]) }

  function Trailing(lang: Lang, raw: string): string { raw[BodyLen(lang, raw)..] }

  predicate HasDigit(lang: Lang, raw: string) {
    exists i :: 0 <= i < BodyLen(lang, raw) && IsDigit(raw[i])
  }

  predicate IsAnchor(lang: Lang, raw: string) { LcWord(lang, raw) in lang.anchors }

  predicate IsDigitWord(lang: Lang, raw: string) { LcWord(lang, raw) in lang.values }

  /** The digit a digit word stands for. */
  function WordDigit(lang: Lang, raw: string): (c: char)
    requires IsDigitWord(lang, raw)
    ensures IsDigit(c)
  {
    DigitChar(lang.values[LcWord(lang, raw)])
  }

  // ── Digit runs ────────────────────────────────────────────────────

  /** Digits spelled by the tokens at the front of `ts`: at most `max`, one per token, and the
      run ends with a token that carries trailing punctuation. */
  function RunDigits(lang: Lang, ts: seq<string>, max: nat): (r: string)
    ensures |r| <= |ts| && |r| <= max && AllDigits(r)
    ensures forall k :: 0 <= k < |r| ==> IsDigitWord(lang, ts[k])
    ensures forall k :: 0 <= k < |r| - 1 ==> Trailing(lang, ts[k]) == ""
  {
    if ts == [] || max == 0 || !IsDigitWord(lang, ts[0]) then ""
    else
      var d := [WordDigit(lang, ts[0])];
      if Trailing(lang, ts[0]) != "" then d
      else
        var r := RunDigits(lang, ts[1..], max - 1);
        assert forall k :: 0 < k < |r| + 1 ==> ts[k] == ts[1..][k - 1];
        d + r
  }

  /** A run counts only when it is at least `min` long. */
  function CollectRun(lang: Lang, ts: seq<string>, min: nat, max: nat): (r: string)
    ensures r == "" || r == RunDigits(lang, ts, max)
    ensures (r == "" || |r| >= min) && |r| <= |ts| && AllDigits(r)
    ensures forall k :: 0 <= k < |r| ==> IsDigitWord(lang, ts[k])
  {
    var r := RunDigits(lang, ts, max);
    if |r| < min then "" else r
  }

  lemma RunHead(lang: Lang, ts: seq<string>, max: nat)
    requires ts != [] && max > 0
    ensures RunDigits(lang, ts, max) ==
      if !IsDigitWord(lang, ts[0]) then ""
      else if Trailing(lang, ts[0]) != "" then [WordDigit(lang, ts[0])]
      else [WordDigit(lang, ts[0])] + RunDigits(lang, ts[1..], max - 1)
  {
    hide BodyLen, LcWord, Trailing, IsDigitWord;
  }

  lemma RunStep(lang: Lang, tok: seq<string>, j: nat, max: nat)
    requires j < |tok| && max > 0
    ensures RunDigits(lang, tok[j..], max) ==
      if !IsDigitWord(lang, tok[j]) then ""
      else
        var d := [WordDigit(lang, tok[j])];
        if Trailing(lang, tok[j]) != "" then d else d + RunDigits(lang, tok[j + 1..], max - 1)
  {
    hide RunDigits, IsDigitWord, Trailing;
    RunHead(lang, tok[j..], max);
    assert tok[j..][0] == tok[j] && tok[j..][1..] == tok[j + 1..];
  }

  method CollectDigitRun(lang: Lang, tok: seq<string>, i: nat, min: nat, max: nat)
    returns (digits: string)
    requires i <= |tok|
    ensures digits == CollectRun(lang, tok[i..], min, max)
  {
    hide RunDigits, IsDigitWord, LcWord, Trailing;
    digits := "";
    var j := i;
    ghost var whole := RunDigits(lang, tok[i..], max);
    assert digits + whole == whole;
    while j < |tok| && |digits| < max
      invariant i <= j <= |tok| && |digits| == j - i <= max
      invariant digits + RunDigits(lang, tok[j..], max - |digits|) == whole
    {
      RunStep(lang, tok, j, max - |digits|);
      if !IsDigitWord(lang, tok[j]) { break; }
      var d := [WordDigit(lang, tok[j])];
      digits := digits + d;
      if Trailing(lang, tok[j]) != "" { break; }
      j := j + 1;
    }
    if |digits| < min { digits := ""; }
  }

  // ── The parser ────────────────────────────────────────────────────

  datatype Freq = NoFreq | Freq(left: string, right: string)

  /** A frequency at the front of `ts`: 2-3 digits, the decimal word, then enough digits. */
  function FrequencyAt(lang: Lang, ts: seq<string>): (f: Freq)
    ensures f.Freq? ==> |f.left| >= 2 && |f.right| >= 1 && |f.left| + 1 + |f.right| <= |ts|
    ensures f.Freq? ==> AllDigits(f.left) && AllDigits(f.right)
    ensures f.Freq? ==> IsDigitWord(lang, ts[0]) && IsDigitWord(lang, ts[|f.left| + |f.right|])
    ensures f.Freq? ==> forall k :: 0 <= k <= |f.left| + |f.right| ==>
      IsDigitWord(lang, ts[k]) || LcWord(lang, ts[k]) in lang.decimals
  {
    var left := CollectRun(lang, ts, 2, 3);
    if left == "" || Trailing(lang, ts[|left| - 1]) != "" || |left| >= |ts| then NoFreq
    else if LcWord(lang, ts[|left|]) !in lang.decimals || Trailing(lang, ts[|left|]) != "" then NoFreq
    else
      var right := CollectRun(lang, ts[|left| + 1..], lang.minFraction, 3);
      if right == "" then NoFreq else Freq(left, right)
  }

  /** What the parser emits for the tokens at the front of `ts`, and how many of them it uses.
      `anchored` says whether the token before `ts` is an anchor keyword. */
  function FrontToken(lang: Lang, anchored: bool, ts: seq<string>): (r: (string, nat))
    requires ts != []
    ensures 1 <= r.1 <= |ts|
  {
    var f := FrequencyAt(lang, ts);
    var run := CollectRun(lang, ts, if anchored then 1 else 2, 4);
    if HasDigit(lang, ts[0]) then (ts[0], 1)
    else if f.Freq? then
      var n := |f.left| + 1 + |f.right|;
      (f.left + "." + f.right + Trailing(lang, ts[n - 1]), n)
    else if run != "" then (run + Trailing(lang, ts[|run| - 1]), |run|)
    else (ts[0], 1)
  }

  lemma PlainFront(lang: Lang, anchored: bool, ts: seq<string>)
    requires ts != [] && !HasDigit(lang, ts[0]) && FrequencyAt(lang, ts) == NoFreq
    ensures var run := CollectRun(lang, ts, if anchored then 1 else 2, 4);
      FrontToken(lang, anchored, ts)
        == if run == "" then (ts[0], 1) else (run + Trailing(lang, ts[|run| - 1]), |run|)
  {
    hide HasDigit, FrequencyAt, CollectRun, Trailing;
  }

  function ParseTokens(lang: Lang, anchored: bool, ts: seq<string>): (out: seq<string>)
    decreases |ts|
  {
    if ts == [] then []
    else
      var (token, used) := FrontToken(lang, anchored, ts);
      [token] + ParseTokens(lang, IsAnchor(lang, ts[used - 1]), ts[used..])
  }

  function ParseText(lang: Lang, text: string): string {
    if Words(text) == [] then text else Join(ParseTokens(lang, false, Words(text)))
  }

  predicate AllWords(ts: seq<string>) { forall w :: w in ts ==> IsWord(w) }

  lemma TrailingIsBlankFree(lang: Lang, raw: string)
    requires NoBlanks(raw)
    ensures NoBlanks(Trailing(lang, raw))
  {
    var n := BodyLen(lang, raw);
    assert forall k :: 0 <= k < |raw| - n ==> raw[n..][k] == raw[n + k];
  }

  lemma FrontIsWord(lang: Lang, anchored: bool, ts: seq<string>)
    requires ts != [] && AllWords(ts)
    ensures IsWord(FrontToken(lang, anchored, ts).0)
  {
    hide RunDigits, FrequencyAt, CollectRun, HasDigit, BodyLen, Trailing;
    var used := FrontToken(lang, anchored, ts).1;
    assert ts[0] in ts && ts[used - 1] in ts;
    TrailingIsBlankFree(lang, ts[used - 1]);
  }

  lemma {:induction false} ParsedAreWords(lang: Lang, anchored: bool, ts: seq<string>)
    requires AllWords(ts)
    ensures AllWords(ParseTokens(lang, anchored, ts))
    decreases |ts|
  {
    if ts != [] {
      FrontIsWord(lang, anchored, ts);
      var used := FrontToken(lang, anchored, ts).1;
      ParsedAreWords(lang, IsAnchor(lang, ts[used - 1]), ts[used..]);
    }
  }

  /** Appending one token to the text built so far, with the source's separator rule. */
  method Emit(out: string, token: string) returns (res: string)
    requires out != "" ==> !IsBlank(out[|out| - 1])
    ensures res == if out == "" then token else out + " " + token
  {
    res := out;
    if res != "" && res[|res| - 1] != ' ' { res := res + " "; }
    res := res + token;
  }

  lemma EmitJoins(done: seq<string>, token: string)
    requires AllWords(done)
    ensures Join(done) != "" ==> !IsBlank(Join(done)[|Join(done)| - 1])
    ensures Join(done + [token]) == if Join(done) == "" then token else Join(done) + " " + token
  {
    if done == [] {
      assert done + [token] == [token];
    } else {
      JoinOfWords(done);
      JoinAppend(done, [token]);
    }
  }

  /** Is the token before position `i` an anchor keyword? */
  predicate AnchoredAt(lang: Lang, tok: seq<string>, i: nat)
    requires i <= |tok|
  {
    i > 0 && IsAnchor(lang, tok[i - 1])
  }

  /** The frequency probe at token `i`. */
  method ProbeFrequency(lang: Lang, tok: seq<string>, i: nat) returns (f: Freq)
    requires i < |tok|
    ensures f == FrequencyAt(lang, tok[i..])
  {
    hide RunDigits, BodyLen, LcWord, Trailing;
    f := NoFreq;
    var left := CollectDigitRun(lang, tok, i, 2, 3);
    if left == "" { return; }
    var after := i + |left|;
    if Trailing(lang, tok[after - 1]) == "" && after < |tok|
       && LcWord(lang, tok[after]) in lang.decimals && Trailing(lang, tok[after]) == "" {
      var right := CollectDigitRun(lang, tok, after + 1, lang.minFraction, 3);
      assert tok[i..][|left| + 1..] == tok[after + 1..];
      if right != "" { f := Freq(left, right); }
    }
  }

  /** One turn of the parser loop: the frequency probe, then the plain run, then fall-through. */
  method NextToken(lang: Lang, tok: seq<string>, i: nat) returns (token: string, used: nat)
    requires i < |tok|
    ensures (token, used) == FrontToken(lang, AnchoredAt(lang, tok, i), tok[i..])
  {
    hide RunDigits, FrequencyAt, BodyLen, LcWord, Trailing, HasDigit;
    if HasDigit(lang, tok[i]) { return tok[i], 1; }
    var f := ProbeFrequency(lang, tok, i);
    if f.Freq? {
      used := |f.left| + 1 + |f.right|;
      return f.left + "." + f.right + Trailing(lang, tok[i + used - 1]), used;
    }
    var run := CollectDigitRun(lang, tok, i, if AnchoredAt(lang, tok, i) then 1 else 2, 4);
    if run != "" { return run + Trailing(lang, tok[i + |run| - 1]), |run|; }
    return tok[i], 1;
  }

  /** What is still to be emitted once the tokens before `i` are done. */
  function Remaining(lang: Lang, tok: seq<string>, i: nat): seq<string>
    requires i <= |tok|
  {
    ParseTokens(lang, AnchoredAt(lang, tok, i), tok[i..])
  }

  lemma RemainingStep(lang: Lang, tok: seq<string>, i: nat)
    requires i < |tok|
    ensures var (token, used) := FrontToken(lang, AnchoredAt(lang, tok, i), tok[i..]);
      Remaining(lang, tok, i) == [token] + Remaining(lang, tok, i + used)
  {
    var used := FrontToken(lang, AnchoredAt(lang, tok, i), tok[i..]).1;
    assert tok[i..][used..] == tok[i + used..];
  }

  lemma RemainingBounds(lang: Lang, tok: seq<string>)
    ensures Remaining(lang, tok, 0) == ParseTokens(lang, false, tok)
    ensures Remaining(lang, tok, |tok|) == []
  {
    assert tok[0..] == tok;
  }

  /** The source's parser loop over the token vector. */
  method RenderTokens(lang: Lang, tok: seq<string>) returns (out: string)
    requires AllWords(tok)
    ensures out == Join(ParseTokens(lang, false, tok))
  {
    hide FrontToken, ParseTokens, Remaining;
    RemainingBounds(lang, tok);
    out := "";
    ghost var done: seq<string> := [];
    var i := 0;
    assert done + Remaining(lang, tok, 0) == Remaining(lang, tok, 0);
    while i < |tok|
      invariant 0 <= i <= |tok|
      invariant AllWords(done) && out == Join(done)
      invariant done + Remaining(lang, tok, i) == Remaining(lang, tok, 0)
    {
      FrontIsWord(lang, AnchoredAt(lang, tok, i), tok[i..]);
      RemainingStep(lang, tok, i);
      var token, used := NextToken(lang, tok, i);
      EmitJoins(done, token);
      out := Emit(out, token);
      assert done + Remaining(lang, tok, i) == done + [token] + Remaining(lang, tok, i + used);
      done := done + [token];
      i := i + used;
    }
    assert done + Remaining(lang, tok, i) == done;
  }

  method ParseSpokenNumber(lang: Lang, text: string) returns (out: string)
    ensures out == ParseText(lang, text)
  {
    if text == "" { return text; }
    var tok := SplitWords(text);
    if tok == [] { return text; }
    out := RenderTokens(lang, tok);
  }

  // ── Idempotence ───────────────────────────────────────────────────

  predicate NoDigits(w: string) { forall i :: 0 <= i < |w| ==> !IsDigit(w[i]) }

  /** What the proofs need of the tables; both languages have it. */
  predicate Coherent(lang: Lang) {
    && (forall w :: w in lang.values ==> NoDigits(w) && w !in lang.anchors && w !in lang.decimals)
    && (forall w :: w in lang.anchors ==> NoDigits(w))
    && (forall w :: w in lang.decimals ==> NoDigits(w))
    && 1 <= lang.minFraction <= 3
  }

  lemma GermanWords()
    ensures forall w :: w in GERMAN_VALUES ==> NoDigits(w)
    ensures forall w :: w in GERMAN_ANCHORS ==> NoDigits(w)
    ensures forall w :: w in GERMAN_DECIMALS ==> NoDigits(w)
  {
  }

  lemma GermanWordsNotAnchors()
    ensures forall w :: w in GERMAN_VALUES ==> w !in GERMAN_ANCHORS
  {
  }

  lemma GermanWordsNotDecimals()
    ensures forall w :: w in GERMAN_VALUES ==> w !in GERMAN_DECIMALS
  {
  }

  lemma GermanCoherent()
    ensures Coherent(German)
  {
    GermanWords();
    GermanWordsNotAnchors();
    GermanWordsNotDecimals();
  }

  lemma EnglishWords()
    ensures forall w :: w in ENGLISH_VALUES ==> NoDigits(w)
    ensures forall w :: w in ENGLISH_ANCHORS ==> NoDigits(w)
    ensures forall w :: w in ENGLISH_DECIMALS ==> NoDigits(w)
  {
  }

  lemma EnglishWordsNotAnchors()
    ensures forall w :: w in ENGLISH_VALUES ==> w !in ENGLISH_ANCHORS
  {
  }

  lemma EnglishWordsNotDecimals()
    ensures forall w :: w in ENGLISH_VALUES ==> w !in ENGLISH_DECIMALS
  {
  }

  lemma EnglishCoherent()
    ensures Coherent(English)
  {
    EnglishWords();
    EnglishWordsNotAnchors();
    EnglishWordsNotDecimals();
  }

  /** A token sequence the parser leaves alone: no run of spoken digits is long enough. */
  predicate Settled(lang: Lang, anchored: bool, ts: seq<string>)
    decreases |ts|
  {
    ts == [] ||
    (&& (HasDigit(lang, ts[0]) || |RunDigits(lang, ts, 2)| < (if anchored then 1 else 2))
     && Settled(lang, IsAnchor(lang, ts[0]), ts[1..]))
  }

  /** A run is cut by its cap and by nothing else. */
  lemma {:induction false} RunPrefix(lang: Lang, ts: seq<string>, m: nat, n: nat)
    requires m <= n
    ensures RunDigits(lang, ts, m) <= RunDigits(lang, ts, n)
    ensures |RunDigits(lang, ts, m)| < m ==> RunDigits(lang, ts, m) == RunDigits(lang, ts, n)
  {
    if ts != [] && m > 0 { RunPrefix(lang, ts[1..], m - 1, n - 1); }
  }

  lemma ShortRunIsKept(lang: Lang, anchored: bool, ts: seq<string>)
    requires ts != []
    requires HasDigit(lang, ts[0]) || |RunDigits(lang, ts, 2)| < if anchored then 1 else 2
    ensures FrontToken(lang, anchored, ts) == (ts[0], 1)
  {
    hide RunDigits, HasDigit;
    RunPrefix(lang, ts, 2, 3);
    RunPrefix(lang, ts, 2, 4);
  }

  lemma {:induction false} SettledIsFixed(lang: Lang, anchored: bool, ts: seq<string>)
    requires Settled(lang, anchored, ts)
    ensures ParseTokens(lang, anchored, ts) == ts
    decreases |ts|
  {
    hide FrontToken, RunDigits, HasDigit;
    if ts != [] {
      ShortRunIsKept(lang, anchored, ts);
      SettledIsFixed(lang, IsAnchor(lang, ts[0]), ts[1..]);
    }
  }

  /** A token that holds a digit is neither a digit word nor a keyword. */
  lemma DigitTokenIsPlain(lang: Lang, raw: string)
    requires Coherent(lang) && HasDigit(lang, raw)
    ensures !IsDigitWord(lang, raw) && !IsAnchor(lang, raw) && LcWord(lang, raw) !in lang.decimals
  {
    var i :| 0 <= i < BodyLen(lang, raw) && IsDigit(raw[i]);
    assert LcWord(lang, raw)[i] == raw[i];
    assert !NoDigits(LcWord(lang, raw));
  }

  /** Digits followed by a token's trailing punctuation have those digits as their body. */
  lemma NumberToken(lang: Lang, number: string, raw: string)
    requires number != "" && IsDigit(number[0]) && IsDigit(number[|number| - 1])
    ensures HasDigit(lang, number + Trailing(lang, raw))
    ensures Trailing(lang, number + Trailing(lang, raw)) == Trailing(lang, raw)
  {
    var t := number + Trailing(lang, raw);
    var n := BodyLen(lang, t);
    assert forall k :: 0 <= k < |Trailing(lang, raw)| ==> t[|number| + k] == Trailing(lang, raw)[k];
    assert n == |number| by { assert t[|number| - 1] == number[|number| - 1]; }
    assert IsDigit(t[0]);
  }

  /** A front token is either the input token itself or a number in digits. */
  lemma FrontShape(lang: Lang, anchored: bool, ts: seq<string>)
    requires Coherent(lang) && ts != []
    ensures var (token, used) := FrontToken(lang, anchored, ts);
      && (HasDigit(lang, token) || (token == ts[0] && used == 1))
      && IsAnchor(lang, token) == IsAnchor(lang, ts[used - 1])
      && (!IsDigitWord(lang, ts[0]) ==> token == ts[0] && used == 1)
  {
    hide RunDigits, FrequencyAt, HasDigit, BodyLen, LcWord, Trailing;
    var f := FrequencyAt(lang, ts);
    var run := CollectRun(lang, ts, if anchored then 1 else 2, 4);
    if HasDigit(lang, ts[0]) {
      DigitTokenIsPlain(lang, ts[0]);
    } else if f.Freq? {
      NumberToken(lang, f.left + "." + f.right, ts[|f.left| + |f.right|]);
      DigitTokenIsPlain(lang, FrontToken(lang, anchored, ts).0);
    } else if run != "" {
      NumberToken(lang, run, ts[|run| - 1]);
      DigitTokenIsPlain(lang, FrontToken(lang, anchored, ts).0);
    }
  }

  /** A digit word that comes out of the parser unchanged stays too short a run in the output. */
  lemma KeptWordStaysShort(lang: Lang, anchored: bool, ts: seq<string>, rest: seq<string>)
    requires Coherent(lang) && ts != [] && FrontToken(lang, anchored, ts) == (ts[0], 1)
    requires rest == ParseTokens(lang, IsAnchor(lang, ts[0]), ts[1..])
    requires !HasDigit(lang, ts[0])
    ensures |RunDigits(lang, [ts[0]] + rest, 2)| < if anchored then 1 else 2
  {
    hide FrequencyAt, HasDigit, BodyLen, LcWord, Trailing;
    var out := [ts[0]] + rest;
    assert out[1..] == rest;
    RunPrefix(lang, ts, 1, 4);
    RunPrefix(lang, ts, 2, 4);
    var run := CollectRun(lang, ts, if anchored then 1 else 2, 4);
    if run != "" { NumberToken(lang, run, ts[|run| - 1]); }
    if IsDigitWord(lang, ts[0]) {
      assert |RunDigits(lang, ts, 1)| == 1;
      assert !anchored;
      if Trailing(lang, ts[0]) == "" && rest != [] {
        FrontShape(lang, IsAnchor(lang, ts[0]), ts[1..]);
        assert !IsDigitWord(lang, ts[1]);
        assert rest[0] == ts[1];
      }
    }
  }

  /** The parser's output is settled. */
  lemma {:induction false} ParsedIsSettled(lang: Lang, anchored: bool, ts: seq<string>)
    requires Coherent(lang)
    ensures Settled(lang, anchored, ParseTokens(lang, anchored, ts))
    decreases |ts|
  {
    hide FrontToken, RunDigits, HasDigit, LcWord;
    if ts != [] {
      var (token, used) := FrontToken(lang, anchored, ts);
      FrontShape(lang, anchored, ts);
      var next := IsAnchor(lang, ts[used - 1]);
      var rest := ParseTokens(lang, next, ts[used..]);
      ParsedIsSettled(lang, next, ts[used..]);
      assert ([token] + rest)[1..] == rest;
      if !HasDigit(lang, token) { KeptWordStaysShort(lang, anchored, ts, rest); }
    }
  }

  /** Parsing twice is parsing once, for every text. */
  lemma ParseIdempotent(lang: Lang, text: string)
    requires Coherent(lang)
    ensures ParseText(lang, ParseText(lang, text)) == ParseText(lang, text)
  {
    var ws := Words(text);
    if ws != [] {
      var out := ParseTokens(lang, false, ws);
      ParsedAreWords(lang, false, ws);
      WordsOfJoin(out);
      ParsedIsSettled(lang, false, ws);
      SettledIsFixed(lang, false, out);
    }
  }
}
