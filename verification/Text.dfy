/** Byte-string helpers shared by the text passes.  A `string` here is a sequence of bytes, one
    `char` per byte, exactly as the source's std::string: a UTF-8 umlaut is two elements. */
module Text {

  type Byte = b: int | 0 <= b < 256

  predicate IsDigit(c: char) { '0' <= c <= '9' }
  predicate IsUpper(c: char) { 'A' <= c <= 'Z' }
  predicate IsLower(c: char) { 'a' <= c <= 'z' }
  predicate IsAlpha(c: char) { IsUpper(c) || IsLower(c) }
  predicate IsWordChar(c: char) { IsAlpha(c) || IsDigit(c) }
  predicate IsBlank(c: char) { c == ' ' || c == '\t' || c == '\n' }

  function Lower(c: char): char {
    if IsUpper(c) then (c as int + 32) as char else c
  }

  function LowerAll(s: string): (r: string)
    ensures |r| == |s|
  {
    seq(|s|, i requires 0 <= i < |s| => Lower(s[i]))
  }

  function DigitValue(c: char): nat
    requires IsDigit(c)
  {
    c as int - '0' as int
  }

  function DigitChar(d: nat): (c: char)
    requires d < 10
    ensures IsDigit(c) && DigitValue(c) == d
  {
    ('0' as int + d) as char
  }

  predicate AllDigits(s: string) {
    forall i :: 0 <= i < |s| ==> IsDigit(s[i])
  }

  /** The characters of `s` that satisfy `p`, in order. */
  function Keep(s: string, p: char -> bool): string {
    if s == "" then "" else (if p(s[0]) then [s[0]] else "") + Keep(s[1..], p)
  }

  lemma {:induction false} KeepConcat(a: string, b: string, p: char -> bool)
    ensures Keep(a + b, p) == Keep(a, p) + Keep(b, p)
  {
    if a == "" {
      assert a + b == b;
    } else {
      var head := if p(a[0]) then [a[0]] else "";
      assert (a + b)[0] == a[0] && (a + b)[1..] == a[1..] + b;
      assert Keep(a + b, p) == head + Keep(a[1..] + b, p);
      KeepConcat(a[1..], b, p);
      assert head + (Keep(a[1..], p) + Keep(b, p)) == (head + Keep(a[1..], p)) + Keep(b, p);
    }
  }

  lemma {:induction false} KeepSame(s: string, p: char -> bool, q: char -> bool)
    requires forall i :: 0 <= i < |s| ==> p(s[i]) == q(s[i])
    ensures Keep(s, p) == Keep(s, q)
  {
    if s != "" { KeepSame(s[1..], p, q); }
  }

  // ── Words separated by blanks ─────────────────────────────────────

  predicate NoBlanks(s: string) { forall i :: 0 <= i < |s| ==> !IsBlank(s[i]) }

  predicate IsWord(s: string) { s != "" && NoBlanks(s) }

  /** Length of the longest blank-free prefix. */
  function WordLen(s: string): (n: nat)
    ensures n <= |s| && NoBlanks(s[..n]) && (n < |s| ==> IsBlank(s[n]))
  {
    if s == "" || IsBlank(s[0]) then 0
    else
      var n := WordLen(s[1..]);
      assert forall i :: 0 < i < n + 1 ==> s[i] == s[1..][i - 1];
      n + 1
  }

  /** The maximal blank-free pieces of `s`, left to right. */
  function Words(s: string): (ws: seq<string>)
    ensures forall w :: w in ws ==> IsWord(w)
    decreases |s|
  {
    if s == "" then []
    else if IsBlank(s[0]) then Words(s[1..])
    else [s[..WordLen(s)]] + Words(s[WordLen(s)..])
  }

  /** The words put together again with one blank between them. */
  function Join(ws: seq<string>): string {
    if ws == [] then ""
    else if |ws| == 1 then ws[0]
    else ws[0] + " " + Join(ws[1..])
  }

  lemma {:induction false} JoinAppend(ws: seq<string>, more: seq<string>)
    requires ws != [] && more != []
    ensures Join(ws + more) == Join(ws) + " " + Join(more)
  {
    if |ws| == 1 {
      assert (ws + more)[1..] == more;
    } else {
      assert (ws + more)[1..] == ws[1..] + more;
      JoinAppend(ws[1..], more);
    }
  }

  lemma {:induction false} JoinOfWords(ws: seq<string>)
    requires ws != [] && forall w :: w in ws ==> IsWord(w)
    ensures Join(ws) != "" && !IsBlank(Join(ws)[0]) && !IsBlank(Join(ws)[|Join(ws)| - 1])
  {
    assert ws[0] in ws;
    if |ws| > 1 { JoinOfWords(ws[1..]); }
  }

  lemma {:induction false} WordLenOf(w: string, rest: string)
    requires NoBlanks(w) && (rest == "" || IsBlank(rest[0]))
    ensures WordLen(w + rest) == |w|
  {
    var s := w + rest;
    var n := WordLen(s);
    assert forall k :: 0 <= k < |w| ==> s[k] == w[k] && !IsBlank(s[k]);
    assert forall k :: 0 <= k < n ==> s[..n][k] == s[k];
    assert rest != "" ==> s[|w|] == rest[0];
  }

  /** Splitting undoes joining. */
  lemma {:induction false} WordsOfJoin(ws: seq<string>)
    requires forall w :: w in ws ==> IsWord(w)
    ensures Words(Join(ws)) == ws
  {
    if |ws| == 1 {
      assert ws[0] in ws;
      WordLenOf(ws[0], "");
      assert ws[0] + "" == ws[0];
      assert Words(ws[0][|ws[0]|..]) == [];
      assert Words(Join(ws)) == [ws[0][..|ws[0]|]] + [];
    } else if |ws| > 1 {
      var tail := " " + Join(ws[1..]);
      assert ws[0] in ws;
      WordLenOf(ws[0], tail);
      var s := ws[0] + tail;
      assert Join(ws) == s;
      assert s[..|ws[0]|] == ws[0] && s[|ws[0]|..] == tail;
      assert tail[1..] == Join(ws[1..]);
      WordsOfJoin(ws[1..]);
    }
  }

  lemma WordsSkip(s: string, i: nat)
    requires i < |s| && IsBlank(s[i])
    ensures Words(s[i..]) == Words(s[i + 1..])
  {
    assert s[i..][1..] == s[i + 1..];
  }

  lemma WordsTake(s: string, i: nat, j: nat)
    requires i < j <= |s| && NoBlanks(s[i..j]) && (j < |s| ==> IsBlank(s[j]))
    ensures Words(s[i..]) == [s[i..j]] + Words(s[j..])
  {
    WordLenOf(s[i..j], s[j..]);
    assert s[i..] == s[i..j] + s[j..];
    assert s[i..][..j - i] == s[i..j] && s[i..][j - i..] == s[j..];
    assert !IsBlank(s[i..j][0]);
  }

  /** The source's tokenizer loop, as used by both number parsers. */
  method SplitWords(s: string) returns (out: seq<string>)
    ensures out == Words(s)
  {
    hide Words;
    out := [];
    var i := 0;
    assert s[0..] == s && out + Words(s[0..]) == Words(s);
    while i < |s|
      invariant 0 <= i <= |s|
      invariant out + Words(s[i..]) == Words(s)
    {
      while i < |s| && IsBlank(s[i])
        invariant 0 <= i <= |s|
        invariant out + Words(s[i..]) == Words(s)
      {
        WordsSkip(s, i);
        i := i + 1;
      }
      if i >= |s| { break; }
      var start := i;
      while i < |s| && !IsBlank(s[i])
        invariant start <= i <= |s|
        invariant forall k :: start <= k < i ==> !IsBlank(s[k])
      {
        i := i + 1;
      }
      WordsTake(s, start, i);
      assert out + [s[start..i]] + Words(s[i..]) == out + Words(s[start..]);
      out := out + [s[start..i]];
    }
    NoWords();
    assert s[i..] == "" && out + Words(s[i..]) == out;
  }

  lemma NoWords()
    ensures Words("") == []
  {
  }
}
