/** A clearance value made of digits is found in every transcript that spells it in raw digits.
    Each canonicalisation pass is shown to leave a letterless stretch of the transcript, from its
    first digit to its last, in one piece. */
module DigitCoverage {
  import opened Text
  import opened SpokenNumbers
  import opened Replace
  import opened Bzf

  /** Only digits, blanks, punctuation and bytes outside ASCII letters. */
  predicate Letterless(s: string) { forall i :: 0 <= i < |s| ==> IsDigit(s[i]) || !IsWordChar(s[i]) }

  /** A letterless stretch that starts and ends with a digit. */
  predicate Core(m: string) { m != "" && Letterless(m) && IsDigit(m[0]) && IsDigit(m[|m| - 1]) }

  function Digits(s: string): string { Keep(s, IsDigit) }

  // ── Lower-casing ──────────────────────────────────────────────────

  lemma LowerAround(a: string, m: string, b: string)
    requires Letterless(m)
    ensures LowerAll(a + m + b) == LowerAll(a) + m + LowerAll(b)
  {
  }

  // ── Tokenizing ────────────────────────────────────────────────────

  predicate Wordless(s: string) { forall i :: 0 <= i < |s| ==> !IsWordChar(s[i]) }

  /** A token the number parser copies: it holds a digit, or no letter or digit at all. */
  predicate Inert(t: string) { HasDigit(German, t) || Wordless(t) }

  lemma DigitInToken(t: string, i: nat)
    requires i < |t| && IsDigit(t[i])
    ensures HasDigit(German, t)
  {
    assert BodyChar(German, t[i]);
  }

  lemma LetterlessIsInert(t: string)
    requires Letterless(t)
    ensures Inert(t)
  {
    if !Wordless(t) {
      var i :| 0 <= i < |t| && IsWordChar(t[i]);
      DigitInToken(t, i);
    }
  }

  lemma WordsFrom(s: string)
    requires s != "" && !IsBlank(s[0])
    ensures Words(s) == [s[..WordLen(s)]] + Words(s[WordLen(s)..]) && WordLen(s) > 0
  {
  }

  lemma KeepTail(m: string, n: nat)
    requires n <= |m|
    ensures Digits(m) == Digits(m[..n]) + Digits(m[n..])
  {
    assert m == m[..n] + m[n..];
    KeepConcat(m[..n], m[n..], IsDigit);
  }

  /** The tokens that meet a letterless stretch ending in a digit: all inert, and joined they
      spell the same digits. */
  lemma {:induction false} TokensOfStretch(m: string, b: string)
    returns (M: seq<string>, B: seq<string>, m': string, y: string)
    requires m != "" && Letterless(m) && IsDigit(m[|m| - 1])
    ensures Words(m + b) == M + B && M != [] && (forall t :: t in M ==> Inert(t))
    ensures Join(M) == m' + y && m' != "" && Letterless(m') && IsDigit(m'[|m'| - 1])
    ensures Digits(m') == Digits(m)
    ensures !IsBlank(m[0]) ==> m'[0] == m[0] && M[0] == (m + b)[..WordLen(m + b)]
    decreases |m|
  {
    hide Words, WordLen, Join, Keep, Inert;
    var s := m + b;
    if IsBlank(m[0]) {
      assert s[0..] == s && s[1..] == m[1..] + b;
      WordsSkip(s, 0);
      M, B, m', y := TokensOfStretch(m[1..], b);
      KeepTail(m, 1);
      DigitsOfBlank(m[..1]);
    } else {
      WordsFrom(s);
      var n := WordLen(s);
      if n >= |m| {
        M, B, m', y := [s[..n]], Words(s[n..]), m, b[..n - |m|];
        assert s[..n] == m + y;
        JoinOne(s[..n]);
        assert s[..n][|m| - 1] == m[|m| - 1];
        DigitInToken(s[..n], |m| - 1);
        InertByDigit(s[..n]);
      } else {
        assert s[..n] == m[..n] && s[n..] == m[n..] + b;
        var M1, B1, m1, y1 := TokensOfStretch(m[n..], b);
        M, B, m', y := [m[..n]] + M1, B1, m[..n] + " " + m1, y1;
        LetterlessIsInert(m[..n]);
        JoinAppend([m[..n]], M1);
        JoinOne(m[..n]);
        assert m[..n] + " " + (m1 + y1) == m' + y;
        KeepTail(m, n);
        KeepConcat(m[..n] + " ", m1, IsDigit);
        KeepConcat(m[..n], " ", IsDigit);
        DigitsOfBlank(" ");
      }
    }
  }

  lemma JoinOne(w: string)
    ensures Join([w]) == w
  {
  }

  lemma InertByDigit(t: string)
    requires HasDigit(German, t)
    ensures Inert(t)
  {
  }

  lemma DigitsOfBlank(s: string)
    requires |s| == 1 && !IsDigit(s[0])
    ensures Digits(s) == ""
  {
    assert Keep(s, IsDigit) == Keep(s[1..], IsDigit);
    assert s[1..] == "" && Keep("", IsDigit) == "";
  }

  lemma WordLenAfter(a: string, s: string)
    requires NoBlanks(a)
    ensures WordLen(a + s) == |a| + WordLen(s)
  {
    var n := WordLen(s);
    assert a + s == (a + s[..n]) + s[n..];
    WordLenOf(a + s[..n], s[n..]);
  }

  /** The core stretch follows text of the same word. */
  lemma TokensWelded(a: string, m: string, b: string)
    returns (M: seq<string>, B: seq<string>, x: string, m': string, y: string)
    requires Core(m) && NoBlanks(a)
    ensures Words(a + m + b) == M + B && M != [] && (forall t :: t in M ==> Inert(t))
    ensures HasDigit(German, M[0])
    ensures Join(M) == x + m' + y && Core(m') && Digits(m') == Digits(m)
  {
    hide Words, WordLen, Join, Keep, Inert, HasDigit, NoBlanks;
    var s := a + (m + b);
    var M0, B0, m0, y0 := TokensOfStretch(m, b);
    B, x, m', y := B0, a, m0, y0;
    M := [a + M0[0]] + M0[1..];
    WordsFrom(m + b);
    WeldedWords(a, m + b, M0[0], M0[1..] + B0);
    assert M0 + B0 == [M0[0]] + (M0[1..] + B0);
    assert M + B == [a + M0[0]] + (M0[1..] + B0);
    assert a + m + b == s;
    assert (a + M0[0])[|a|] == m[0];
    DigitInToken(a + M0[0], |a|);
    InertByDigit(a + M0[0]);
    JoinPrefixed(a, M0);
    assert a + (m0 + y0) == x + m' + y;
  }

  /** Text without blanks put before a word extends that word. */
  lemma WeldedWords(a: string, s: string, w: string, ws: seq<string>)
    requires NoBlanks(a) && s != "" && !IsBlank(s[0]) && Words(s) == [w] + ws
    ensures Words(a + s) == [a + w] + ws
  {
    hide Words, WordLen;
    WordsFrom(s);
    WordLenAfter(a, s);
    var n := WordLen(s);
    WordsFrom(a + s);
    assert (a + s)[..|a| + n] == a + s[..n] && (a + s)[|a| + n..] == s[n..];
    assert Words(s)[1..] == Words(s[n..]) && Words(s)[1..] == ws;
  }

  /** The tokens of a transcript around a core stretch. */
  lemma {:induction false} TokensAround(a: string, m: string, b: string)
    returns (A: seq<string>, M: seq<string>, B: seq<string>, x: string, m': string, y: string)
    requires Core(m)
    ensures Words(a + m + b) == A + M + B && M != [] && (forall t :: t in M ==> Inert(t))
    ensures HasDigit(German, M[0])
    ensures Join(M) == x + m' + y && Core(m') && Digits(m') == Digits(m)
    decreases |a|
  {
    hide Words, WordLen, Join, Keep, Inert, HasDigit;
    var s := a + m + b;
    if NoBlanks(a) {
      A := [];
      M, B, x, m', y := TokensWelded(a, m, b);
      assert A + M + B == M + B;
    } else {
      var i := WordLen(a);
      BlankInPrefix(a, m + b);
      assert s == a + (m + b);
      if i == 0 {
        assert s[0..] == s && s[1..] == a[1..] + m + b;
        WordsSkip(s, 0);
        A, M, B, x, m', y := TokensAround(a[1..], m, b);
      } else {
        WordsFrom(s);
        assert s[i..] == a[i..] + m + b;
        var A1;
        A1, M, B, x, m', y := TokensAround(a[i..], m, b);
        A := [s[..i]] + A1;
        assert [s[..i]] + (A1 + M + B) == A + M + B;
      }
    }
  }

  lemma JoinPrefixed(a: string, ws: seq<string>)
    requires ws != []
    ensures Join([a + ws[0]] + ws[1..]) == a + Join(ws)
  {
    var ps := [a + ws[0]] + ws[1..];
    assert ps[1..] == ws[1..];
  }

  lemma BlankInPrefix(a: string, s: string)
    requires !NoBlanks(a)
    ensures WordLen(a) < |a| && WordLen(a + s) == WordLen(a)
    ensures WordLen(a) == 0 <==> IsBlank(a[0])
  {
    var n := WordLen(a);
    assert forall k :: 0 <= k < n ==> a[..n][k] == a[k];
    assert a + s == a[..n] + (a[n..] + s);
    WordLenOf(a[..n], a[n..] + s);
  }

  // ── Number parsing ────────────────────────────────────────────────

  lemma InertIsCopied(anchored: bool, ts: seq<string>)
    requires ts != [] && Inert(ts[0])
    ensures FrontToken(German, anchored, ts) == (ts[0], 1)
  {
    hide RunDigits, HasDigit;
    if !HasDigit(German, ts[0]) {
      assert BodyLen(German, ts[0]) == 0;
      assert LcWord(German, ts[0]) == "";
      assert forall w :: w in German.values ==> w != "" by { ValuesAreWords(); }
      assert !IsDigitWord(German, ts[0]);
    }
  }

  lemma ValuesAreWords()
    ensures "" !in GERMAN_VALUES
  {
  }

  lemma {:induction false} PassInert(anchored: bool, M: seq<string>, B: seq<string>)
    returns (after: bool)
    requires forall t :: t in M ==> Inert(t)
    ensures ParseTokens(German, anchored, M + B) == M + ParseTokens(German, after, B)
    decreases |M|
  {
    hide FrontToken, Inert, IsAnchor;
    if M == [] {
      after := anchored;
      assert M + B == B;
    } else {
      var ts := M + B;
      InertIsCopied(anchored, ts);
      assert ts[1..] == M[1..] + B;
      after := PassInert(IsAnchor(German, ts[0]), M[1..], B);
      assert [M[0]] + (M[1..] + ParseTokens(German, after, B)) == M + ParseTokens(German, after, B);
    }
  }

  /** What is emitted before a token that holds a digit never reaches past it. */
  lemma FrontStopsBefore(anchored: bool, A: seq<string>, T: seq<string>)
    requires A != [] && T != [] && HasDigit(German, T[0])
    ensures FrontToken(German, anchored, A + T).1 <= |A|
  {
    hide RunDigits, FrequencyAt, CollectRun, HasDigit, LcWord, Trailing;
    GermanCoherent();
    DigitTokenIsPlain(German, T[0]);
    assert (A + T)[|A|] == T[0];
  }

  lemma {:induction false} PassPrefix(anchored: bool, A: seq<string>, T: seq<string>)
    returns (A': seq<string>, after: bool)
    requires T != [] && HasDigit(German, T[0])
    ensures ParseTokens(German, anchored, A + T) == A' + ParseTokens(German, after, T)
    decreases |A|
  {
    hide FrontToken, HasDigit, IsAnchor;
    if A == [] {
      A', after := [], anchored;
      assert A + T == T;
    } else {
      var ts := A + T;
      var (token, used) := FrontToken(German, anchored, ts);
      FrontStopsBefore(anchored, A, T);
      assert ts[used..] == A[used..] + T;
      var A1;
      A1, after := PassPrefix(IsAnchor(German, ts[used - 1]), A[used..], T);
      A' := [token] + A1;
      assert [token] + (A1 + ParseTokens(German, after, T)) == A' + ParseTokens(German, after, T);
    }
  }

  /** Joining three runs of tokens, the middle one non-empty. */
  lemma JoinThree(A: seq<string>, M: seq<string>, B: seq<string>)
    returns (l: string, r: string)
    requires M != []
    ensures Join(A + M + B) == l + Join(M) + r
  {
    hide Join;
    l := if A == [] then "" else Join(A) + " ";
    r := if B == [] then "" else " " + Join(B);
    if A == [] { assert A + M == M; } else { JoinAppend(A, M); }
    assert Join(A + M) == l + Join(M);
    if B == [] { assert A + M + B == A + M; } else { JoinAppend(A + M, B); }
  }

  /** The number parser keeps a core stretch in one piece, up to its blanks. */
  lemma ParseAround(a: string, m: string, b: string)
    returns (a': string, m': string, b': string)
    requires Core(m)
    ensures ParseText(German, a + m + b) == a' + m' + b'
    ensures Core(m') && Digits(m') == Digits(m)
  {
    hide Words, Join, ParseTokens, Inert, HasDigit, Core, Keep;
    var A, M, B, x, mm, y := TokensAround(a, m, b);
    var A1, mid := PassPrefix(false, A, M + B);
    var after := PassInert(mid, M, B);
    assert A + (M + B) == A + M + B;
    var B1 := ParseTokens(German, after, B);
    assert A1 + (M + B1) == A1 + M + B1;
    var l, r := JoinThree(A1, M, B1);
    a', m', b' := l + x, mm, y + r;
    assert l + (x + mm + y) + r == a' + m' + b';
  }

  // ── NATO variants ─────────────────────────────────────────────────

  /** A pattern with a letter and without digits. */
  predicate Wordy(p: string) { (exists i :: 0 <= i < |p| && IsAlpha(p[i])) && NoDigits(p) }

  /** Such a pattern never overlaps a core stretch. */
  lemma MatchAvoids(a: string, m: string, b: string, p: string, r: nat)
    requires Core(m) && Wordy(p) && At(a + m + b, p, r)
    ensures r + |p| <= |a| || |a| + |m| <= r
  {
    var s, end := a + m + b, |a| + |m| - 1;
    var i :| 0 <= i < |p| && IsAlpha(p[i]);
    assert forall k :: r <= k < r + |p| ==> s[k] == p[k - r] && !IsDigit(s[k]);
    assert forall k :: |a| <= k <= end ==> s[k] == m[k - |a|] && !IsAlpha(s[k]);
    assert IsDigit(s[|a|]) && IsDigit(s[end]);
    assert IsAlpha(s[r + i]);
  }

  lemma {:induction false} ReplaceAround(a: string, m: string, b: string, p: string, v: string)
    returns (a': string, b': string)
    requires Core(m) && Wordy(p) && p != ""
    ensures ReplaceAll(a + m + b, p, v) == a' + m + b'
    decreases |a|
  {
    hide Core, Wordy, Find;
    var s := a + m + b;
    var r := Find(s, p, 0);
    if r == -1 {
      a', b' := a, b;
    } else {
      MatchAvoids(a, m, b, p, r);
      var q := r + |p|;
      if q <= |a| {
        assert s[q..] == a[q..] + m + b && s[..r] == a[..r];
        var a1;
        a1, b' := ReplaceAround(a[q..], m, b, p, v);
        a' := a[..r] + v + a1;
        assert a[..r] + v + (a1 + m + b') == a' + m + b';
      } else {
        var tail := ReplaceAll(s[q..], p, v);
        var cut := r - |a| - |m|;
        a', b' := a, b[..cut] + v + tail;
        assert s[..r] == a + m + b[..cut];
        assert a + m + b[..cut] + v + tail == a' + m + b';
      }
    }
  }

  predicate AllWordy(vs: seq<(string, string)>) { forall i :: 0 <= i < |vs| ==> vs[i].0 != "" && Wordy(vs[i].0) }

  lemma VariantsAreWordy()
    ensures AllWordy(NATO_VARIANTS) && Wordy(TAIL_VARIANT)
  {
    assert forall i :: 0 <= i < |NATO_VARIANTS| ==> NoDigits(NATO_VARIANTS[i].0);
    assert forall i :: 0 <= i < |NATO_VARIANTS| ==> IsAlpha(NATO_VARIANTS[i].0[0]);
    assert IsAlpha(TAIL_VARIANT[1]);
  }

  lemma {:induction false} VariantsAround(a: string, m: string, b: string, vs: seq<(string, string)>)
    returns (a': string, b': string)
    requires Core(m) && AllWordy(vs)
    ensures ApplyVariants(a + m + b, vs) == a' + m + b'
    decreases |vs|
  {
    hide Core, Wordy, ReplaceAll;
    if vs == [] {
      a', b' := a, b;
    } else {
      var a1, b1 := ReplaceAround(a, m, b, vs[0].0, vs[0].1);
      a', b' := VariantsAround(a1, m, b1, vs[1..]);
    }
  }

  lemma TailAround(a: string, m: string, b: string)
    returns (b': string)
    requires Core(m)
    ensures FixTail(a + m + b) == a + m + b'
  {
    hide Wordy;
    VariantsAreWordy();
    var s := a + m + b;
    var n := |s| - |TAIL_VARIANT|;
    if n >= 0 && s[n..] == TAIL_VARIANT {
      assert s[n..] == s[n..n + |TAIL_VARIANT|] && At(s, TAIL_VARIANT, n);
      MatchAvoids(a, m, b, TAIL_VARIANT, n);
      assert s[..n] == a + m + b[..n - |a| - |m|];
      b' := b[..n - |a| - |m|] + " juliett";
    } else {
      b' := b;
    }
  }

  // ── The canonical form ────────────────────────────────────────────

  lemma LetterlessKeep(m: string)
    requires Letterless(m)
    ensures Keep(m, IsWordChar) == Digits(m)
  {
    KeepSame(m, IsWordChar, IsDigit);
  }

  /** Canonicalisation keeps the digits of a core stretch together and in order. */
  lemma CanonicalAround(a: string, m: string, b: string)
    returns (x: string, y: string)
    requires Core(m)
    ensures Canonical(a + m + b) == x + Digits(m) + y
  {
    hide ParseText, ApplyVariants, FixTail, Keep, Letterless, LowerAll;
    assert Letterless(m);
    LowerAround(a, m, b);
    var a1, m1, b1 := ParseAround(LowerAll(a), m, LowerAll(b));
    LowerAround(a1, m1, b1);
    VariantsAreWordy();
    var a2, b2 := VariantsAround(LowerAll(a1), m1, LowerAll(b1), NATO_VARIANTS);
    var b3 := TailAround(a2, m1, b2);
    KeepConcat(a2 + m1, b3, IsWordChar);
    KeepConcat(a2, m1, IsWordChar);
    LetterlessKeep(m1);
    x, y := Keep(a2, IsWordChar), Keep(b3, IsWordChar);
  }

  // ── A letterless value ────────────────────────────────────────────

  lemma {:induction false} LetterlessWords(v: string)
    requires Letterless(v)
    ensures Letterless(Join(Words(v))) && Digits(Join(Words(v))) == Digits(v)
    ensures forall t :: t in Words(v) ==> Inert(t)
    decreases |v|
  {
    hide WordLen, Keep, Inert;
    if v == "" {
    } else if IsBlank(v[0]) {
      assert v[0..] == v;
      WordsSkip(v, 0);
      LetterlessWords(v[1..]);
      KeepTail(v, 1);
      DigitsOfBlank(v[..1]);
    } else {
      WordsFrom(v);
      var n := WordLen(v);
      LetterlessWords(v[n..]);
      LetterlessIsInert(v[..n]);
      KeepTail(v, n);
      var rest := Words(v[n..]);
      assert Words(v)[1..] == rest;
      if rest != [] {
        KeepConcat(v[..n] + " ", Join(rest), IsDigit);
        KeepConcat(v[..n], " ", IsDigit);
        DigitsOfBlank(" ");
      } else {
        DigitsOfNothing();
      }
    }
  }

  lemma DigitsOfNothing()
    ensures Join([]) == "" && Digits("") == ""
  {
  }

  lemma NoMatchInLetterless(s: string, p: string)
    requires Letterless(s) && Wordy(p)
    ensures !Contains(s, p)
  {
    forall r: nat
      ensures !At(s, p, r)
    {
      LetterlessNotAt(s, p, r);
    }
  }

  lemma LetterlessNotAt(s: string, p: string, r: nat)
    requires Letterless(s) && Wordy(p)
    ensures !At(s, p, r)
  {
    if r + |p| <= |s| {
      var i :| 0 <= i < |p| && IsAlpha(p[i]);
      assert s[r..r + |p|][i] == s[r + i];
    }
  }

  lemma {:induction false} VariantsSkipLetterless(s: string, vs: seq<(string, string)>)
    requires Letterless(s) && AllWordy(vs)
    ensures ApplyVariants(s, vs) == s
    decreases |vs|
  {
    hide Letterless, Wordy, Find;
    if vs != [] {
      NoMatchInLetterless(s, vs[0].0);
      VariantsSkipLetterless(s, vs[1..]);
    }
  }

  lemma TailSkipsLetterless(s: string)
    requires Letterless(s)
    ensures FixTail(s) == s
  {
    var n := |s| - |TAIL_VARIANT|;
    if n >= 0 { assert s[n..][1] == s[n + 1] && IsAlpha(TAIL_VARIANT[1]); }
  }

  lemma LowerLetterless(s: string)
    requires Letterless(s)
    ensures LowerAll(s) == s
  {
  }

  /** A value without letters is compared by its digits alone. */
  lemma LetterlessCanonical(v: string)
    requires Letterless(v)
    ensures Canonical(v) == Digits(v)
  {
    hide Words, Join, ApplyVariants, FixTail, Keep, Letterless, LowerAll, Inert;
    var ws := Words(v);
    LowerLetterless(v);
    LetterlessWords(v);
    var after := PassInert(false, ws, []);
    assert ws + [] == ws;
    assert ParseTokens(German, after, []) == [];
    var t := ParseText(German, v);
    assert Letterless(t) && Digits(t) == Digits(v);
    LowerLetterless(t);
    VariantsAreWordy();
    VariantsSkipLetterless(t, NATO_VARIANTS);
    TailSkipsLetterless(t);
    LetterlessKeep(t);
  }

  lemma ContainsWider(x: string, s: string, y: string, p: string)
    requires Contains(s, p)
    ensures Contains(x + s + y, p)
  {
    var i := Find(s, p, 0);
    assert (x + s + y)[|x| + i..|x| + i + |p|] == s[i..i + |p|];
    ContainsAt(x + s + y, p, |x| + i);
  }

  /** A readback that says the value's digits as numerals, split and punctuated in any way and
      surrounded by any text, covers the value. */
  lemma SpokenDigitsAreCovered(pre: string, mid: string, post: string, value: string)
    requires Core(mid) && Letterless(value)
    requires Contains(Digits(mid), Digits(value))
    ensures ValueCovered(Canonical(pre + mid + post), value)
  {
    hide Core, Letterless, Keep, Canonical, Contains;
    LetterlessCanonical(value);
    var x, y := CanonicalAround(pre, mid, post);
    ContainsWider(x, Digits(mid), y, Digits(value));
  }
}
