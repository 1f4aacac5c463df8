/** Callsigns spoken letter by letter in the NATO alphabet, and ICAO codes read back from it. */
module Icao {
  import opened Text
  import opened SpokenNumbers

  const NATO_A_M := ["Alfa", "Bravo", "Charlie", "Delta", "Echo", "Foxtrot", "Golf",
                     "Hotel", "India", "Juliett", "Kilo", "Lima", "Mike"]
  const NATO_N_W := ["November", "Oscar", "Papa", "Quebec", "Romeo", "Sierra", "Tango",
                     "Uniform", "Victor", "Whiskey"]
  const NATO_X_Z_GERMAN := ["X-Ray", "Yankee", "Zulu"]
  const NATO_X_Z_ENGLISH := ["X-ray", "Yankee", "Zulu"]

  type Nato = n: seq<string> | |n| == 26 witness NATO_A_M + NATO_N_W + NATO_X_Z_GERMAN

  /** The tables differ only in the spelling of X. */
  const GERMAN_NATO: Nato := NATO_A_M + NATO_N_W + NATO_X_Z_GERMAN
  const ENGLISH_NATO: Nato := NATO_A_M + NATO_N_W + NATO_X_Z_ENGLISH

  function LetterIndex(c: char): (i: nat)
    requires IsAlpha(c)
    ensures i < 26
  {
    if IsUpper(c) then c as int - 'A' as int else c as int - 'a' as int
  }

  function Letter(i: nat): (c: char)
    requires i < 26
    ensures IsUpper(c) && LetterIndex(c) == i
  {
    ('A' as int + i) as char
  }

  // ── Printer ───────────────────────────────────────────────────────

  /** One spoken word per letter or digit; every other character is skipped. */
  function CallsignWords(nato: Nato, lang: Lang, raw: string): seq<string>
    requires |lang.spoken| == 10
  {
    if raw == "" then []
    else
      (if IsAlpha(raw[0]) then [nato[LetterIndex(raw[0])]]
       else if IsDigit(raw[0]) then [lang.spoken[DigitValue(raw[0])]]
       else []) + CallsignWords(nato, lang, raw[1..])
  }

  lemma {:induction false} CallsignWordsAppend(nato: Nato, lang: Lang, raw: string, c: char)
    requires |lang.spoken| == 10
    ensures CallsignWords(nato, lang, raw + [c]) == CallsignWords(nato, lang, raw) + CallsignWords(nato, lang, [c])
  {
    if raw == "" {
      assert raw + [c] == [c];
    } else {
      var rest := raw[1..];
      assert (raw + [c])[0] == raw[0] && (raw + [c])[1..] == rest + [c];
      CallsignWordsAppend(nato, lang, rest, c);
    }
  }

  lemma WordsOfChar(nato: Nato, lang: Lang, c: char)
    requires |lang.spoken| == 10
    ensures CallsignWords(nato, lang, [c]) ==
      if IsAlpha(c) then [nato[LetterIndex(c)]]
      else if IsDigit(c) then [lang.spoken[DigitValue(c)]] else []
  {
    assert [c][1..] == "";
  }

  lemma NothingToSpell(nato: Nato, lang: Lang)
    requires |lang.spoken| == 10
    ensures CallsignWords(nato, lang, "") == []
  {
  }

  method ExpandCallsign(nato: Nato, lang: Lang, raw: string) returns (out: string)
    requires |lang.spoken| == 10 && AllWords(nato) && AllWords(lang.spoken)
    ensures out == Join(CallsignWords(nato, lang, raw))
  {
    hide CallsignWords;
    out := "";
    ghost var done: seq<string> := [];
    var i := 0;
    NothingToSpell(nato, lang);
    while i < |raw|
      invariant 0 <= i <= |raw|
      invariant AllWords(done) && done == CallsignWords(nato, lang, raw[..i]) && out == Join(done)
    {
      var c := raw[i];
      assert raw[..i + 1] == raw[..i] + [c];
      CallsignWordsAppend(nato, lang, raw[..i], c);
      WordsOfChar(nato, lang, c);
      if IsWordChar(c) {
        var word := if IsAlpha(c) then nato[LetterIndex(c)] else lang.spoken[DigitValue(c)];
        if out != "" { JoinAppend(done, [word]); out := out + " "; }
        else { EmptyJoin(done); }
        out := out + word;
        done := done + [word];
      } else {
        assert done + [] == done;
      }
      i := i + 1;
    }
    assert raw[..i] == raw;
  }

  lemma EmptyJoin(ws: seq<string>)
    requires AllWords(ws) && Join(ws) == ""
    ensures ws == []
    ensures forall w: string :: Join(ws + [w]) == w
  {
    if ws != [] { JoinOfWords(ws); }
    assert forall w: string :: ws + [w] == [w];
  }

  // ── Parser ────────────────────────────────────────────────────────

  /** A spoken word without its dashes. */
  function Key(w: string): string { Keep(w, c => c != '-') }

  /** First table entry whose lower-case, dash-free spelling is `key`. */
  function FindLetter(nato: Nato, key: string, i: nat): (r: nat)
    requires i <= 26
    ensures i <= r <= 26
    ensures r < 26 ==> key == Key(LowerAll(nato[r]))
    ensures forall k :: i <= k < r ==> key != Key(LowerAll(nato[k]))
    decreases 26 - i
  {
    if i == 26 || key == Key(LowerAll(nato[i])) then i else FindLetter(nato, key, i + 1)
  }

  datatype MaybeLetter = NoLetter | ALetter(c: char)

  function WordToLetter(nato: Nato, w: string): MaybeLetter {
    var key := Key(w);
    var i := FindLetter(nato, key, 0);
    if i < 26 then ALetter(Letter(i))
    else if key == "alpha" then ALetter('A')
    else if key == "juliet" then ALetter('J')
    else NoLetter
  }

  predicate LetterOrDash(c: char) { IsAlpha(c) || c == '-' }

  /** Position of the first letter at or after `i`. */
  function SkipToLetter(s: string, i: nat): (j: nat)
    requires i <= |s|
    ensures i <= j <= |s| && (j < |s| ==> IsAlpha(s[j]))
    decreases |s| - i
  {
    if i < |s| && !IsAlpha(s[i]) then SkipToLetter(s, i + 1) else i
  }

  function WordEnd(s: string, i: nat): (j: nat)
    requires i <= |s|
    ensures i <= j <= |s| && (forall k :: i <= k < j ==> LetterOrDash(s[k]))
    ensures j < |s| ==> !LetterOrDash(s[j])
    decreases |s| - i
  {
    if i < |s| && LetterOrDash(s[i]) then WordEnd(s, i + 1) else i
  }

  function Finish(icao: string): string { if 3 <= |icao| <= 4 then icao else "" }

  /** The parser from position `i`, with the letters read so far. */
  function ScanIcao(nato: Nato, s: string, i: nat, icao: string): string
    requires i <= |s|
    decreases |s| - i
  {
    var start := SkipToLetter(s, i);
    if start == |s| then Finish(icao)
    else
      var end := WordEnd(s, start);
      match WordToLetter(nato, s[start..end])
      case NoLetter => if icao != "" then Finish(icao) else ""
      case ALetter(c) =>
        if |icao| + 1 > 4 then "" else ScanIcao(nato, s, end, icao + [c])
  }

  method ParseSpokenIcao(nato: Nato, words: string) returns (icao: string)
    ensures icao == ScanIcao(nato, words, 0, "")
  {
    icao := "";
    var i := 0;
    var started := false;
    while i < |words|
      invariant 0 <= i <= |words|
      invariant started <==> icao != ""
      invariant ScanIcao(nato, words, i, icao) == ScanIcao(nato, words, 0, "")
      decreases |words| - i
    {
      var start := SkipToLetter(words, i);
      i := WordEnd(words, start);
      if start == i { i := start; return Finish(icao); }
      var letter := WordToLetter(nato, words[start..i]);
      if letter == NoLetter {
        if started { return Finish(icao); }
        return "";
      }
      icao := icao + [letter.c];
      started := true;
      if |icao| > 4 { return ""; }
    }
    icao := Finish(icao);
  }

  // ── Round trip ────────────────────────────────────────────────────

  predicate NatoWord(w: string, i: nat)
    requires i < 26
  {
    && |w| >= 2 && w[0] == Letter(i) && (forall k :: 0 <= k < |w| ==> LetterOrDash(w[k]))
  }

  predicate NatoTable(nato: Nato) { forall i :: 0 <= i < 26 ==> NatoWord(nato[i], i) }

  lemma TablePart1()
    ensures forall i :: 0 <= i < 13 ==> NatoWord(NATO_A_M[i], i)
  {
  }

  lemma TablePart2()
    ensures forall i :: 0 <= i < 10 ==> NatoWord(NATO_N_W[i], 13 + i)
  {
  }

  lemma TablePart3()
    ensures forall i :: 0 <= i < 3 ==> NatoWord(NATO_X_Z_GERMAN[i], 23 + i)
    ensures forall i :: 0 <= i < 3 ==> NatoWord(NATO_X_Z_ENGLISH[i], 23 + i)
  {
  }

  lemma TablesAreNato()
    ensures NatoTable(GERMAN_NATO) && NatoTable(ENGLISH_NATO)
  {
    hide NatoWord;
    TablePart1();
    TablePart2();
    TablePart3();
  }

  /** The lower-case words found back at their own letter. */
  lemma LetterFound(nato: Nato, i: nat)
    requires NatoTable(nato) && i < 26
    ensures WordToLetter(nato, LowerAll(nato[i])) == ALetter(Letter(i))
  {
    hide Key, NatoWord;
    var key := Key(LowerAll(nato[i]));
    forall k | 0 <= k < i ensures Key(LowerAll(nato[k])) != key {
      KeyHead(nato[k], k);
      KeyHead(nato[i], i);
    }
    var r := FindLetter(nato, key, 0);
    assert key == Key(LowerAll(nato[i]));
  }

  lemma KeyHead(w: string, i: nat)
    requires i < 26 && NatoWord(w, i)
    ensures Key(LowerAll(w)) != "" && Key(LowerAll(w))[0] == Lower(Letter(i))
  {
    assert LowerAll(w)[0] == Lower(Letter(i));
  }

  lemma {:induction false} WordEndIs(s: string, i: nat, j: nat)
    requires i <= j <= |s| && (forall k :: i <= k < j ==> LetterOrDash(s[k]))
    requires j == |s| || !LetterOrDash(s[j])
    ensures WordEnd(s, i) == j
    decreases j - i
  {
    if i < j { WordEndIs(s, i + 1, j); }
  }

  lemma WordSpan(w: string, i: nat, post: string)
    requires i < 26 && NatoWord(w, i)
    requires post == "" || post[0] == ' '
    ensures SkipToLetter(LowerAll(w) + post, 0) == 0 && WordEnd(LowerAll(w) + post, 0) == |w|
  {
    var lw := LowerAll(w);
    assert forall k :: 0 <= k < |w| ==> (lw + post)[k] == lw[k] && LetterOrDash(lw[k]);
    assert post != "" ==> (lw + post)[|w|] == ' ';
    WordEndIs(lw + post, 0, |w|);
  }

  /** Scanning does not look behind its position. */
  lemma {:induction false} ScanShift(nato: Nato, pre: string, s: string, icao: string)
    ensures ScanIcao(nato, pre + s, |pre|, icao) == ScanIcao(nato, s, 0, icao)
  {
    ScanSuffix(nato, pre, s, 0, icao);
  }

  lemma {:induction false} SkipSuffix(pre: string, s: string, i: nat)
    requires i <= |s|
    ensures SkipToLetter(pre + s, |pre| + i) == |pre| + SkipToLetter(s, i)
    decreases |s| - i
  {
    if i < |s| { assert (pre + s)[|pre| + i] == s[i]; SkipSuffix(pre, s, i + 1); }
  }

  lemma {:induction false} EndSuffix(pre: string, s: string, i: nat)
    requires i <= |s|
    ensures WordEnd(pre + s, |pre| + i) == |pre| + WordEnd(s, i)
    decreases |s| - i
  {
    if i < |s| { assert (pre + s)[|pre| + i] == s[i]; EndSuffix(pre, s, i + 1); }
  }

  lemma SliceSuffix(pre: string, s: string, i: nat, j: nat)
    requires i <= j <= |s|
    ensures (pre + s)[|pre| + i..|pre| + j] == s[i..j]
  {
  }

  /** One turn of the scan. */
  lemma ScanTurn(nato: Nato, s: string, i: nat, icao: string)
    requires i <= |s|
    ensures var start := SkipToLetter(s, i);
      ScanIcao(nato, s, i, icao) ==
        if start == |s| then Finish(icao)
        else
          var end := WordEnd(s, start);
          var l := WordToLetter(nato, s[start..end]);
          if l.NoLetter? then (if icao != "" then Finish(icao) else "")
          else if |icao| + 1 > 4 then "" else ScanIcao(nato, s, end, icao + [l.c])
  {
    hide WordToLetter, SkipToLetter, WordEnd, Finish;
  }

  lemma {:induction false} ScanSuffix(nato: Nato, pre: string, s: string, i: nat, icao: string)
    requires i <= |s|
    ensures ScanIcao(nato, pre + s, |pre| + i, icao) == ScanIcao(nato, s, i, icao)
    decreases |s| - i
  {
    hide WordToLetter, SkipToLetter, WordEnd, Finish, ScanIcao;
    var t := pre + s;
    SkipSuffix(pre, s, i);
    ScanTurn(nato, s, i, icao);
    ScanTurn(nato, t, |pre| + i, icao);
    var start := SkipToLetter(s, i);
    if start < |s| {
      EndSuffix(pre, s, start);
      var end := WordEnd(s, start);
      SliceSuffix(pre, s, start, end);
      var l := WordToLetter(nato, s[start..end]);
      if l.ALetter? { ScanSuffix(nato, pre, s, end, icao + [l.c]); }
    }
  }

  predicate AllLetters(s: string) { forall i :: 0 <= i < |s| ==> IsAlpha(s[i]) }

  function UpperLetters(raw: string): (r: string)
    requires AllLetters(raw)
    ensures |r| == |raw|
  {
    seq(|raw|, k requires 0 <= k < |raw| => Letter(LetterIndex(raw[k])))
  }

  /** Spelling a code out and folding it to lower case, as the transcript arrives. */
  function Spoken(nato: Nato, lang: Lang, raw: string): string
    requires |lang.spoken| == 10
  {
    LowerAll(Join(CallsignWords(nato, lang, raw)))
  }

  lemma SpokenStep(nato: Nato, lang: Lang, raw: string)
    requires |lang.spoken| == 10 && AllLetters(raw) && raw != ""
    ensures var post := if |raw| == 1 then "" else " " + Spoken(nato, lang, raw[1..]);
      Spoken(nato, lang, raw) == LowerAll(nato[LetterIndex(raw[0])]) + post
  {
    var w := nato[LetterIndex(raw[0])];
    var ws := CallsignWords(nato, lang, raw);
    assert ws == [w] + CallsignWords(nato, lang, raw[1..]);
    if |raw| == 1 {
      assert raw[1..] == "" && ws == [w];
      assert LowerAll(w) + "" == LowerAll(w);
    } else {
      assert CallsignWords(nato, lang, raw[1..]) != [] by { assert IsAlpha(raw[1..][0]); }
      assert Join(ws) == w + " " + Join(ws[1..]) && ws[1..] == CallsignWords(nato, lang, raw[1..]);
      LowerConcat(w + " ", Join(ws[1..]));
      LowerConcat(w, " ");
      assert LowerAll(" ") == " ";
      assert LowerAll(w) + " " + LowerAll(Join(ws[1..])) == LowerAll(w) + (" " + LowerAll(Join(ws[1..])));
    }
  }

  lemma LowerConcat(a: string, b: string)
    ensures LowerAll(a + b) == LowerAll(a) + LowerAll(b)
  {
  }

  lemma ScanWord(nato: Nato, i: nat, post: string, icao: string)
    requires NatoTable(nato) && i < 26 && (post == "" || post[0] == ' ')
    ensures ScanIcao(nato, LowerAll(nato[i]) + post, 0, icao)
         == if |icao| >= 4 then "" else ScanIcao(nato, post, 0, icao + [Letter(i)])
  {
    hide WordToLetter, NatoWord, SkipToLetter, WordEnd;
    var word := LowerAll(nato[i]);
    var s := word + post;
    WordSpan(nato[i], i, post);
    LetterFound(nato, i);
    assert s[0..|word|] == word && |word| > 0 by { KeyHead(nato[i], i); }
    if |icao| < 4 { ScanShift(nato, word, post, icao + [Letter(i)]); }
  }

  lemma ScanBlank(nato: Nato, tail: string, icao: string)
    ensures ScanIcao(nato, " " + tail, 0, icao) == ScanIcao(nato, tail, 0, icao)
  {
    hide WordToLetter, WordEnd;
    ScanShift(nato, " ", tail, icao);
    assert (" " + tail)[0] == ' ';
    assert SkipToLetter(" " + tail, 0) == SkipToLetter(" " + tail, 1);
  }

  lemma ScanNothing(nato: Nato, icao: string)
    ensures ScanIcao(nato, "", 0, icao) == Finish(icao)
  {
  }

  /** Reading continues letter by letter; a fifth letter rejects the whole code. */
  lemma {:induction false} ScanSpoken(nato: Nato, lang: Lang, raw: string, icao: string)
    requires |lang.spoken| == 10 && NatoTable(nato) && AllLetters(raw) && |icao| <= 4
    ensures ScanIcao(nato, Spoken(nato, lang, raw), 0, icao)
         == if |icao| + |raw| > 4 then "" else Finish(icao + UpperLetters(raw))
    decreases |raw|
  {
    hide ScanIcao, NatoWord, CallsignWords, Finish;
    ScanNothing(nato, icao);
    if raw == "" {
      NothingToSpell(nato, lang);
      assert icao + UpperLetters(raw) == icao;
    } else {
      var i := LetterIndex(raw[0]);
      var rest := raw[1..];
      SpokenStep(nato, lang, raw);
      ScanWord(nato, i, if |raw| == 1 then "" else " " + Spoken(nato, lang, rest), icao);
      if |icao| < 4 {
        var icao' := icao + [Letter(i)];
        if |raw| == 1 { NothingToSpell(nato, lang); assert rest == ""; }
        else { ScanBlank(nato, Spoken(nato, lang, rest), icao'); }
        ScanSpoken(nato, lang, rest, icao');
        assert icao + UpperLetters(raw) == icao' + UpperLetters(rest);
      }
    }
  }

  /** Spelling any letters out, lower-casing and parsing gives back the code in capitals when it
      has three or four letters, and nothing otherwise. */
  lemma IcaoRoundTrip(nato: Nato, lang: Lang, raw: string)
    requires |lang.spoken| == 10 && NatoTable(nato) && AllLetters(raw)
    ensures ScanIcao(nato, Spoken(nato, lang, raw), 0, "")
         == if 3 <= |raw| <= 4 then UpperLetters(raw) else ""
  {
    ScanSpoken(nato, lang, raw, "");
    assert "" + UpperLetters(raw) == UpperLetters(raw);
  }

  // ── The words ─────────────────────────────────────────────────────

  predicate Names(nato: Nato, w: string, c: char) { WordToLetter(nato, w) == ALetter(c) }

  /** Both languages read every word of the alphabet, with or without its dash, and two common misspellings. */
  lemma AlphabetIsRead(nato: Nato)
    requires nato == GERMAN_NATO || nato == ENGLISH_NATO
    ensures
      && Names(nato, "alfa", 'A') && Names(nato, "bravo", 'B') && Names(nato, "charlie", 'C')
      && Names(nato, "delta", 'D') && Names(nato, "echo", 'E') && Names(nato, "foxtrot", 'F')
      && Names(nato, "golf", 'G') && Names(nato, "hotel", 'H') && Names(nato, "india", 'I')
      && Names(nato, "juliett", 'J') && Names(nato, "kilo", 'K') && Names(nato, "lima", 'L')
      && Names(nato, "mike", 'M')
    ensures
      && Names(nato, "november", 'N') && Names(nato, "oscar", 'O') && Names(nato, "papa", 'P')
      && Names(nato, "quebec", 'Q') && Names(nato, "romeo", 'R') && Names(nato, "sierra", 'S')
      && Names(nato, "tango", 'T') && Names(nato, "uniform", 'U') && Names(nato, "victor", 'V')
      && Names(nato, "whiskey", 'W') && Names(nato, "x-ray", 'X') && Names(nato, "yankee", 'Y')
      && Names(nato, "zulu", 'Z')
    ensures Names(nato, "xray", 'X') && Names(nato, "alpha", 'A') && Names(nato, "juliet", 'J')
  {
    hide WordToLetter, NatoTable;
    TablesAreNato();
    AlfaIsRead(nato);
    FoxtrotIsRead(nato);
    KiloIsRead(nato);
    PapaIsRead(nato);
    UniformIsRead(nato);
    VariantsAreRead(nato);
  }

  lemma WordIsRead(nato: Nato, i: nat, w: string)
    requires NatoTable(nato) && i < 26 && |w| == |nato[i]| && forall k :: 0 <= k < |w| ==> w[k] == Lower(nato[i][k])
    ensures Names(nato, w, Letter(i))
  {
    hide WordToLetter;
    LetterFound(nato, i);
    assert LowerAll(nato[i]) == w;
  }

  lemma AlfaIsRead(nato: Nato)
    requires NatoTable(nato) && (nato == GERMAN_NATO || nato == ENGLISH_NATO)
    ensures
      && Names(nato, "alfa", 'A') && Names(nato, "bravo", 'B') && Names(nato, "charlie", 'C')
      && Names(nato, "delta", 'D') && Names(nato, "echo", 'E')
  {
    hide Names, NatoTable;
    WordIsRead(nato, 0, "alfa");
    WordIsRead(nato, 1, "bravo");
    WordIsRead(nato, 2, "charlie");
    WordIsRead(nato, 3, "delta");
    WordIsRead(nato, 4, "echo");
  }

  lemma FoxtrotIsRead(nato: Nato)
    requires NatoTable(nato) && (nato == GERMAN_NATO || nato == ENGLISH_NATO)
    ensures
      && Names(nato, "foxtrot", 'F') && Names(nato, "golf", 'G') && Names(nato, "hotel", 'H')
      && Names(nato, "india", 'I') && Names(nato, "juliett", 'J')
  {
    hide Names, NatoTable;
    WordIsRead(nato, 5, "foxtrot");
    WordIsRead(nato, 6, "golf");
    WordIsRead(nato, 7, "hotel");
    WordIsRead(nato, 8, "india");
    WordIsRead(nato, 9, "juliett");
  }

  lemma KiloIsRead(nato: Nato)
    requires NatoTable(nato) && (nato == GERMAN_NATO || nato == ENGLISH_NATO)
    ensures
      && Names(nato, "kilo", 'K') && Names(nato, "lima", 'L') && Names(nato, "mike", 'M')
      && Names(nato, "november", 'N') && Names(nato, "oscar", 'O')
  {
    hide Names, NatoTable;
    WordIsRead(nato, 10, "kilo");
    WordIsRead(nato, 11, "lima");
    WordIsRead(nato, 12, "mike");
    WordIsRead(nato, 13, "november");
    WordIsRead(nato, 14, "oscar");
  }

  lemma PapaIsRead(nato: Nato)
    requires NatoTable(nato) && (nato == GERMAN_NATO || nato == ENGLISH_NATO)
    ensures
      && Names(nato, "papa", 'P') && Names(nato, "quebec", 'Q') && Names(nato, "romeo", 'R')
      && Names(nato, "sierra", 'S') && Names(nato, "tango", 'T')
  {
    hide Names, NatoTable;
    WordIsRead(nato, 15, "papa");
    WordIsRead(nato, 16, "quebec");
    WordIsRead(nato, 17, "romeo");
    WordIsRead(nato, 18, "sierra");
    WordIsRead(nato, 19, "tango");
  }

  lemma UniformIsRead(nato: Nato)
    requires NatoTable(nato) && (nato == GERMAN_NATO || nato == ENGLISH_NATO)
    ensures
      && Names(nato, "uniform", 'U') && Names(nato, "victor", 'V') && Names(nato, "whiskey", 'W')
      && Names(nato, "x-ray", 'X') && Names(nato, "yankee", 'Y') && Names(nato, "zulu", 'Z')
  {
    hide Names, NatoTable;
    WordIsRead(nato, 20, "uniform");
    WordIsRead(nato, 21, "victor");
    WordIsRead(nato, 22, "whiskey");
    WordIsRead(nato, 23, "x-ray");
    WordIsRead(nato, 24, "yankee");
    WordIsRead(nato, 25, "zulu");
  }

  /** A word that begins like the i-th table word, has no dash, and is another: in no table. */
  lemma OtherWord(nato: Nato, w: string, i: nat)
    requires NatoTable(nato) && i < 26 && w != "" && w[0] == Lower(Letter(i))
    requires Key(w) == w != Key(LowerAll(nato[i]))
    ensures FindLetter(nato, w, 0) == 26
  {
    hide Key, NatoWord;
    var r := FindLetter(nato, w, 0);
    if r < 26 { KeyHead(nato[r], r); }
  }

  lemma VariantsAreRead(nato: Nato)
    requires NatoTable(nato) && (nato == GERMAN_NATO || nato == ENGLISH_NATO)
    requires Names(nato, "x-ray", 'X')
    ensures Names(nato, "xray", 'X') && Names(nato, "alpha", 'A') && Names(nato, "juliet", 'J')
  {
    hide NatoTable, FindLetter, Key, Keep, LowerAll;
    Undashed();
    FirstWordLonger(nato);
    TenthWordShorter(nato);
    NoDash("juliet");
    NoDash("alpha");
    OtherWord(nato, "alpha", 0);
    OtherWord(nato, "juliet", 9);
  }

  lemma Undashed()
    ensures Key("x-ray") == Key("xray")
  {
    assert "x-ray"[1..][1..] == "xray"[1..];
  }

  lemma FirstWordLonger(nato: Nato)
    requires nato == GERMAN_NATO || nato == ENGLISH_NATO
    ensures Key(LowerAll(nato[0])) != "alpha"
  {
    assert nato[0] == "Alfa";
    KeyBound(LowerAll("Alfa"));
  }

  lemma TenthWordShorter(nato: Nato)
    requires nato == GERMAN_NATO || nato == ENGLISH_NATO
    ensures Key(LowerAll(nato[9])) != "juliet"
  {
    assert nato[9] == "Juliett";
    NoDash(LowerAll("Juliett"));
  }

  lemma {:induction false} NoDash(w: string)
    requires forall k :: 0 <= k < |w| ==> w[k] != '-'
    ensures Key(w) == w
  {
    if w != "" { NoDash(w[1..]); }
  }

  lemma {:induction false} KeyBound(w: string)
    ensures |Key(w)| <= |w|
  {
    if w != "" { KeyBound(w[1..]); }
  }
}
