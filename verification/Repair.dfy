/** The validator for transcript repairs proposed by the language model: no new numbers. */
module Repair {
  import opened Text

  function Flush(cur: string): seq<string> { if cur == "" then [] else [cur] }

  /** The maximal digit runs of `cur + s`, where `cur` are digits already read. */
  function Runs(s: string, cur: string): seq<string> {
    if s == "" then Flush(cur)
    else if IsDigit(s[0]) then Runs(s[1..], cur + [s[0]])
    else Flush(cur) + Runs(s[1..], "")
  }

  function DigitTokens(s: string): seq<string> { Runs(s, "") }

  lemma RunsStep(s: string, i: nat, cur: string, out: seq<string>)
    requires i < |s|
    ensures out + Runs(s[i..], cur) ==
      if IsDigit(s[i]) then out + Runs(s[i + 1..], cur + [s[i]])
      else if cur == "" then out + Runs(s[i + 1..], "")
      else (out + [cur]) + Runs(s[i + 1..], "")
  {
    assert s[i..][1..] == s[i + 1..];
  }

  method ExtractDigitTokens(s: string) returns (out: seq<string>)
    ensures out == DigitTokens(s)
  {
    hide Runs;
    out := [];
    var cur, i := "", 0;
    assert s[0..] == s && out + Runs(s, cur) == Runs(s, cur);
    while i < |s|
      invariant 0 <= i <= |s|
      invariant out + Runs(s[i..], cur) == Runs(s, "")
    {
      RunsStep(s, i, cur, out);
      if IsDigit(s[i]) {
        cur := cur + [s[i]];
      } else if cur != "" {
        out := out + [cur];
        cur := "";
      }
      i := i + 1;
    }
    assert s[i..] == "";
    RunsEnd(cur);
    if cur != "" { out := out + [cur]; }
  }

  lemma RunsEnd(cur: string)
    ensures Runs("", cur) == Flush(cur)
  {
  }

  /** Text that is not a digit separates numbers: the tokens of the two sides are independent. */
  lemma {:induction false} TokensSplit(a: string, c: char, b: string, cur: string)
    requires !IsDigit(c)
    ensures Runs(a + [c] + b, cur) == Runs(a, cur) + DigitTokens(b)
  {
    var s := a + [c] + b;
    if a == "" {
      assert s[0] == c && s[1..] == b;
    } else {
      assert s[0] == a[0] && s[1..] == a[1..] + [c] + b;
      if IsDigit(a[0]) {
        TokensSplit(a[1..], c, b, cur + [a[0]]);
      } else {
        TokensSplit(a[1..], c, b, "");
        assert Flush(cur) + (Runs(a[1..], "") + DigitTokens(b)) == Flush(cur) + Runs(a[1..], "") + DigitTokens(b);
      }
    }
  }

  /** An unbroken run of digits is one token. */
  lemma {:induction false} RunIsOneToken(d: string, cur: string)
    requires AllDigits(d)
    ensures Runs(d, cur) == Flush(cur + d)
  {
    if d == "" {
      assert cur + d == cur;
    } else {
      RunIsOneToken(d[1..], cur + [d[0]]);
      assert cur + [d[0]] + d[1..] == cur + d;
    }
  }

  function IndexOf(xs: seq<string>, x: string): (i: nat)
    ensures i <= |xs| && (i < |xs| <==> x in xs) && (i < |xs| ==> xs[i] == x)
  {
    if xs == [] || xs[0] == x then 0 else 1 + IndexOf(xs[1..], x)
  }

  /** The repair is refused exactly when it holds some number more often than the original did. */
  method RepairInventsDigits(original: string, repaired: string) returns (invents: bool)
    ensures invents <==> !(multiset(DigitTokens(repaired)) <= multiset(DigitTokens(original)))
  {
    hide DigitTokens;
    var left := ExtractDigitTokens(original);
    var rep := ExtractDigitTokens(repaired);
    ghost var all := multiset(left);
    var i := 0;
    while i < |rep|
      invariant 0 <= i <= |rep|
      invariant multiset(left) + multiset(rep[..i]) == all
    {
      assert rep[..i + 1] == rep[..i] + [rep[i]];
      var at := IndexOf(left, rep[i]);
      if at == |left| {
        CountInPrefix(rep, i, all);
        return true;
      }
      assert left == left[..at] + [left[at]] + left[at + 1..];
      left := left[..at] + left[at + 1..];
      i := i + 1;
    }
    assert rep[..i] == rep;
    invents := false;
  }

  /** A token already used up as often as the original has it is one too many. */
  lemma CountInPrefix(rep: seq<string>, i: nat, all: multiset<string>)
    requires i < |rep| && multiset(rep[..i])[rep[i]] == all[rep[i]]
    ensures !(multiset(rep) <= all)
  {
    assert rep == rep[..i] + [rep[i]] + rep[i + 1..];
  }
}
