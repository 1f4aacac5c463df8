/** The lenient base64 decoder against an encoder written from section 4 of RFC 4648. */
module Base64 {
  import opened Text

  type Sextet = v: int | 0 <= v < 64

  // ── Alphabet ──────────────────────────────────────────────────────

  predicate InAlphabet(c: char) { IsAlpha(c) || IsDigit(c) || c == '+' || c == '/' }

  predicate IsFiller(c: char) { c == '=' || c == ' ' || c == '\n' || c == '\r' || c == '\t' }

  /** The value of a character, -1 outside the alphabet. */
  function Value(c: char): (v: int)
    ensures v == -1 || 0 <= v < 64
    ensures v == -1 <==> !InAlphabet(c)
  {
    if IsUpper(c) then c as int - 'A' as int
    else if IsLower(c) then c as int - 'a' as int + 26
    else if IsDigit(c) then DigitValue(c) + 52
    else if c == '+' then 62
    else if c == '/' then 63
    else -1
  }

  /** The character of a value: table 1 of section 4. */
  function Letter(v: Sextet): (c: char)
    ensures Value(c) == v
  {
    if v < 26 then ('A' as int + v) as char
    else if v < 52 then ('a' as int + v - 26) as char
    else if v < 62 then DigitChar(v - 52)
    else if v == 62 then '+' else '/'
  }

  // ── Encoder ───────────────────────────────────────────────────────

  /** The sextets of a byte string: three bytes make four, a short last group is filled with zero bits. */
  function Sextets(b: seq<Byte>): seq<Sextet> {
    if b == [] then []
    else if |b| == 1 then [b[0] / 4, b[0] % 4 * 16]
    else if |b| == 2 then [b[0] / 4, b[0] % 4 * 16 + b[1] / 16, b[1] % 16 * 4]
    else [b[0] / 4, b[0] % 4 * 16 + b[1] / 16, b[1] % 16 * 4 + b[2] / 64, b[2] % 64] + Sextets(b[3..])
  }

  function Letters(vs: seq<Sextet>): (s: string)
    ensures |s| == |vs| && forall i :: 0 <= i < |s| ==> s[i] == Letter(vs[i])
  {
    seq(|vs|, i requires 0 <= i < |vs| => Letter(vs[i]))
  }

  function Padding(n: nat): string { if n % 3 == 1 then "==" else if n % 3 == 2 then "=" else "" }

  function Encode(b: seq<Byte>): string { Letters(Sextets(b)) + Padding(|b|) }

  // ── Decoder ───────────────────────────────────────────────────────

  function Pow2(bits: nat): nat
    requires bits <= 6
  {
    if bits == 0 then 1 else if bits == 2 then 4 else if bits == 4 then 16 else 64
  }

  predicate PendingBits(bits: nat) { bits == 0 || bits == 2 || bits == 4 || bits == 6 }

  /** Bytes still to come, with `pend` the value of the `bits` bits left over. */
  function DecodeFrom(pend: nat, bits: nat, vs: seq<Sextet>): seq<Byte>
    requires PendingBits(bits) && pend < Pow2(bits)
    decreases |vs|
  {
    if vs == [] then []
    else if bits == 0 then DecodeFrom(vs[0], 6, vs[1..])
    else
      var x := pend * 64 + vs[0];
      [x / Pow2(bits - 2)] + DecodeFrom(x % Pow2(bits - 2), bits - 2, vs[1..])
  }

  /** Values of the alphabet characters of `s`. */
  function Values(s: string): seq<Sextet> {
    if s == "" then [] else (if InAlphabet(s[0]) then [Value(s[0])] else []) + Values(s[1..])
  }

  lemma ValuesStep(s: string, i: nat)
    requires i < |s|
    ensures Values(s[i..]) == if InAlphabet(s[i]) then [Value(s[i])] + Values(s[i + 1..]) else Values(s[i + 1..])
  {
    assert s[i..][1..] == s[i + 1..];
  }

  // x and y agree in their low bits, and y has no others.

  lemma LowEight(x: int, y: int, q: int)
    requires x == 256 * q + y && 0 <= y < 256
    ensures x % 256 == y
  {
  }

  lemma LowTen(x: int, y: int, q: int)
    requires x == 1024 * q + y && 0 <= y < 1024
    ensures x / 4 % 256 == y / 4 && x % 4 == y % 4
  {
    assert x / 4 == 256 * q + y / 4;
    LowEight(x / 4, y / 4, q);
  }

  lemma LowTwelve(x: int, y: int, q: int)
    requires x == 4096 * q + y && 0 <= y < 4096
    ensures x / 16 % 256 == y / 16 && x % 16 == y % 16
  {
    assert x / 16 == 256 * q + y / 16;
    LowEight(x / 16, y / 16, q);
  }

  /** One accumulator step: bits shifted out at the top of the 32-bit word never matter. */
  lemma StepIsLocal(buf: int, bits: nat, v: Sextet)
    requires 0 <= buf < 0x1_0000_0000 && PendingBits(bits) && bits > 0
    ensures var x := buf * 64 % 0x1_0000_0000 + v;
      var y := buf % Pow2(bits) * 64 + v;
      && x / Pow2(bits - 2) % 256 == y / Pow2(bits - 2)
      && x % Pow2(bits - 2) == y % Pow2(bits - 2)
  {
    var x := buf * 64 % 0x1_0000_0000 + v;
    var k := buf * 64 / 0x1_0000_0000;
    assert x == buf * 64 - k * 0x1_0000_0000 + v;
    if bits == 2 {
      LowEight(x, buf % 4 * 64 + v, buf / 4 - k * 0x100_0000);
    } else if bits == 4 {
      LowTen(x, buf % 16 * 64 + v, buf / 16 - k * 0x40_0000);
    } else {
      LowTwelve(x, buf % 64 * 64 + v, buf / 64 - k * 0x10_0000);
    }
  }

  lemma DecodeStep(pend: nat, bits: nat, v: Sextet, vs: seq<Sextet>, done: seq<Byte>)
    requires PendingBits(bits) && pend < Pow2(bits)
    ensures done + DecodeFrom(pend, bits, [v] + vs) ==
      if bits == 0 then done + DecodeFrom(v, 6, vs)
      else
        var x := pend * 64 + v;
        (done + [x / Pow2(bits - 2)]) + DecodeFrom(x % Pow2(bits - 2), bits - 2, vs)
  {
    assert ([v] + vs)[1..] == vs;
  }

  lemma DecodeNothing(pend: nat, bits: nat)
    requires PendingBits(bits) && pend < Pow2(bits)
    ensures DecodeFrom(pend, bits, []) == []
  {
  }

  method Base64Decode(s: string) returns (out: seq<Byte>)
    ensures out == DecodeFrom(0, 0, Values(s))
  {
    hide DecodeFrom, Values, Value, InAlphabet, Pow2;
    out := [];
    var buf: int, bits: nat := 0, 0;
    var i := 0;
    assert s[0..] == s;
    PowersOfTwo();
    while i < |s|
      invariant 0 <= i <= |s| && 0 <= buf < 0x1_0000_0000 && PendingBits(bits) && Pow2(bits) > 0
      invariant out + DecodeFrom(buf % Pow2(bits), bits, Values(s[i..])) == DecodeFrom(0, 0, Values(s))
    {
      var c := s[i];
      ValuesStep(s, i);
      FillersAreOutside(c);
      i := i + 1;
      if IsFiller(c) { continue; }
      var v := Value(c);
      if v < 0 { continue; }
      DecodeStep(buf % Pow2(bits), bits, v, Values(s[i..]), out);
      buf, out, bits := Shift(buf, bits, v, out);
    }
    assert s[i..] == "";
    NoValues();
    DecodeNothing(buf % Pow2(bits), bits);
  }

  /** Six more bits into the accumulator, and a byte out as soon as there are eight. */
  method Shift(buf: int, bits: nat, v: Sextet, out: seq<Byte>) returns (buf': int, out': seq<Byte>, bits': nat)
    requires 0 <= buf < 0x1_0000_0000 && PendingBits(bits)
    ensures 0 <= buf' < 0x1_0000_0000 && PendingBits(bits') && Pow2(bits') > 0
    ensures bits == 0 ==> out' == out && bits' == 6 && buf' % Pow2(bits') == v
    ensures bits > 0 ==>
      var x := buf % Pow2(bits) * 64 + v;
      bits' == bits - 2 && buf' % Pow2(bits') == x % Pow2(bits') && out' == out + [x / Pow2(bits')]
  {
    if bits > 0 { StepIsLocal(buf, bits, v); }
    buf' := buf * 64 % 0x1_0000_0000 + v;
    bits' := bits + 6;
    out' := out;
    if bits' >= 8 {
      bits' := bits' - 8;
      out' := out' + [buf' / Pow2(bits') % 256];
    }
  }

  lemma PowersOfTwo()
    ensures Pow2(0) == 1 && Pow2(2) == 4 && Pow2(4) == 16 && Pow2(6) == 64
  {
  }

  lemma FillersAreOutside(c: char)
    ensures IsFiller(c) ==> !InAlphabet(c)
    ensures Value(c) < 0 <==> !InAlphabet(c)
  {
  }

  lemma NoValues()
    ensures Values("") == []
  {
  }

  // ── Round trip ────────────────────────────────────────────────────

  /** Two sextets give a byte and a remainder of four bits. */
  lemma DecodeFirst(v0: Sextet, v1: Sextet, a: Byte, r: nat, vs: seq<Sextet>)
    requires r < 16 && v0 * 64 + v1 == 16 * a + r
    ensures DecodeFrom(0, 0, [v0, v1] + vs) == [a] + DecodeFrom(r, 4, vs)
  {
    hide DecodeFrom;
    assert [v0, v1] + vs == [v0] + ([v1] + vs);
    DecodeStep(0, 0, v0, [v1] + vs, []);
    DecodeStep(v0, 6, v1, vs, []);
    assert (v0 * 64 + v1) / 16 == a && (v0 * 64 + v1) % 16 == r;
    assert [] + DecodeFrom(0, 0, [v0, v1] + vs) == DecodeFrom(0, 0, [v0, v1] + vs);
    assert [] + [a] == [a];
    assert [] + DecodeFrom(v0, 6, [v1] + vs) == [a] + DecodeFrom(r, 4, vs);
  }

  lemma DecodeSecond(r: nat, v2: Sextet, b: Byte, q: nat, vs: seq<Sextet>)
    requires r < 16 && q < 4 && r * 64 + v2 == 4 * b + q
    ensures DecodeFrom(r, 4, [v2] + vs) == [b] + DecodeFrom(q, 2, vs)
  {
    assert ([v2] + vs)[1..] == vs;
  }

  lemma DecodeThird(q: nat, v3: Sextet, c: Byte, vs: seq<Sextet>)
    requires q < 4 && q * 64 + v3 == c
    ensures DecodeFrom(q, 2, [v3] + vs) == [c] + DecodeFrom(0, 0, vs)
  {
    assert ([v3] + vs)[1..] == vs;
  }

  lemma DecodeGroup(a: Byte, b: Byte, c: Byte, vs: seq<Sextet>)
    ensures DecodeFrom(0, 0, [a / 4, a % 4 * 16 + b / 16, b % 16 * 4 + c / 64, c % 64] + vs)
      == [a, b, c] + DecodeFrom(0, 0, vs)
  {
    hide DecodeFrom;
    var v0, v1, v2, v3 := a / 4, a % 4 * 16 + b / 16, b % 16 * 4 + c / 64, c % 64;
    assert [v0, v1, v2, v3] + vs == [v0, v1] + ([v2] + ([v3] + vs));
    DecodeFirst(v0, v1, a, b / 16, [v2] + ([v3] + vs));
    DecodeSecond(b / 16, v2, b, c / 64, [v3] + vs);
    DecodeThird(c / 64, v3, c, vs);
    assert [a] + ([b] + ([c] + DecodeFrom(0, 0, vs))) == [a, b, c] + DecodeFrom(0, 0, vs);
  }

  lemma DecodeTwo(a: Byte)
    ensures DecodeFrom(0, 0, [a / 4, a % 4 * 16]) == [a]
  {
    var v0, v1 := a / 4, a % 4 * 16;
    DecodeFirst(v0, v1, a, 0, []);
    DecodeNothing(0, 4);
    assert [v0, v1] + [] == [v0, v1];
  }

  lemma DecodeThree(a: Byte, b: Byte)
    ensures DecodeFrom(0, 0, [a / 4, a % 4 * 16 + b / 16, b % 16 * 4]) == [a, b]
  {
    hide DecodeFrom;
    var v0, v1, v2 := a / 4, a % 4 * 16 + b / 16, b % 16 * 4;
    DecodeFirst(v0, v1, a, b / 16, [v2]);
    DecodeSecond(b / 16, v2, b, 0, []);
    DecodeNothing(0, 2);
    assert [v0, v1] + [v2] == [v0, v1, v2] && [v2] + [] == [v2];
  }

  lemma {:induction false} SextetsRoundTrip(b: seq<Byte>)
    ensures DecodeFrom(0, 0, Sextets(b)) == b
  {
    if |b| == 1 {
      DecodeTwo(b[0]);
    } else if |b| == 2 {
      DecodeThree(b[0], b[1]);
    } else if |b| > 2 {
      DecodeGroup(b[0], b[1], b[2], Sextets(b[3..]));
      SextetsRoundTrip(b[3..]);
      assert b == [b[0], b[1], b[2]] + b[3..];
    }
  }

  lemma {:induction false} ValuesOfKept(s: string)
    ensures Values(Keep(s, InAlphabet)) == Values(s)
  {
    if s != "" {
      ValuesOfKept(s[1..]);
      var rest := Keep(s[1..], InAlphabet);
      assert "" + rest == rest && [] + Values(s[1..]) == Values(s[1..]);
      if InAlphabet(s[0]) {
        var kept := [s[0]] + rest;
        assert kept[0] == s[0] && kept[1..] == rest;
        assert Values(kept) == [Value(s[0])] + Values(rest);
      }
    }
  }

  lemma {:induction false} ValuesOfLetters(vs: seq<Sextet>)
    ensures Values(Letters(vs)) == vs
  {
    if vs != [] {
      assert Letters(vs)[1..] == Letters(vs[1..]);
      ValuesOfLetters(vs[1..]);
    }
  }

  /** Decoding inverts encoding for every byte string, however the text was broken up, padded or
      littered with characters outside the alphabet. */
  lemma DecodeEncoded(b: seq<Byte>, s: string)
    requires Keep(s, InAlphabet) == Letters(Sextets(b))
    ensures DecodeFrom(0, 0, Values(s)) == b
  {
    ValuesOfKept(s);
    ValuesOfLetters(Sextets(b));
    SextetsRoundTrip(b);
  }

  predicate Blank(c: char) { c == ' ' || c == '\n' || c == '\r' || c == '\t' }

  /** In particular with or without padding, and with whitespace anywhere. */
  lemma DecodeSpacedEncoding(b: seq<Byte>, s: string)
    requires Keep(s, c => !Blank(c)) == Encode(b) || Keep(s, c => !Blank(c)) == Letters(Sextets(b))
    ensures DecodeFrom(0, 0, Values(s)) == b
  {
    var t := Keep(s, c => !Blank(c));
    KeepTwice(s, c => !Blank(c), InAlphabet);
    var l := Letters(Sextets(b));
    KeepAll(l);
    KeepConcat(l, Padding(|b|), InAlphabet);
    PaddingDropped(|b|);
    assert Keep(s, InAlphabet) == l;
    DecodeEncoded(b, s);
  }

  lemma {:induction false} KeepTwice(s: string, p: char -> bool, q: char -> bool)
    requires forall c :: q(c) ==> p(c)
    ensures Keep(Keep(s, p), q) == Keep(s, q)
  {
    if s != "" {
      KeepTwice(s[1..], p, q);
      var rest := Keep(s[1..], p);
      assert "" + rest == rest && "" + Keep(s[1..], q) == Keep(s[1..], q);
      if p(s[0]) {
        var kept := [s[0]] + rest;
        assert kept[0] == s[0] && kept[1..] == rest;
        assert Keep(kept, q) == (if q(s[0]) then [s[0]] else "") + Keep(rest, q);
      }
    }
  }

  lemma {:induction false} KeepAll(s: string)
    requires forall i :: 0 <= i < |s| ==> InAlphabet(s[i])
    ensures Keep(s, InAlphabet) == s
  {
    if s != "" { KeepAll(s[1..]); }
  }

  lemma PaddingDropped(n: nat)
    ensures Keep(Padding(n), InAlphabet) == ""
  {
    assert "=="[1..] == "=" && "="[1..] == "";
  }

  /** Table 1 of section 4, written out. */
  lemma TableOne(v: Sextet)
    ensures v < 26 ==> Letter(v) == "ABCDEFGHIJKLMNOPQRSTUVWXYZ"[v]
    ensures 26 <= v < 52 ==> Letter(v) == "abcdefghijklmnopqrstuvwxyz"[v - 26]
    ensures 52 <= v < 62 ==> Letter(v) == "0123456789"[v - 52]
    ensures v == 62 ==> Letter(v) == '+'
    ensures v == 63 ==> Letter(v) == '/'
  {
    if v < 26 { Capital(v); } else if v < 52 { Small(v - 26); }
  }

  lemma Capital(v: nat)
    requires v < 26
    ensures "ABCDEFGHIJKLMNOPQRSTUVWXYZ"[v] == 'A' + v as char
  {
  }

  lemma Small(v: nat)
    requires v < 26
    ensures "abcdefghijklmnopqrstuvwxyz"[v] == 'a' + v as char
  {
  }

  /** A text of n bytes has four characters for every three bytes begun. */
  lemma EncodedInFours(b: seq<Byte>)
    ensures |Encode(b)| == 4 * ((|b| + 2) / 3)
  {
    hide Sextets;
    SextetCount(b);
  }

  lemma {:induction false} SextetCount(b: seq<Byte>)
    ensures |Sextets(b)| == (4 * |b| + 2) / 3
  {
    if |b| > 2 { SextetCount(b[3..]); }
  }
}
