/** Substring search and the find-and-replace loop that the template filler, the NATO normaliser
    and the correction builder share. */
module Replace {

  predicate At(s: string, p: string, i: nat) { i + |p| <= |s| && s[i..i + |p|] == p }

  /** First occurrence of `p` at or after `i`, or -1. */
  function Find(s: string, p: string, i: nat): (r: int)
    requires i <= |s|
    ensures r == -1 || (i <= r && At(s, p, r))
    ensures forall k :: i <= k < (if r == -1 then |s| + 1 else r) ==> !At(s, p, k)
    decreases |s| - i
  {
    if At(s, p, i) then i else if i == |s| then -1 else Find(s, p, i + 1)
  }

  predicate Contains(s: string, p: string) { Find(s, p, 0) != -1 }

  lemma ContainsAt(s: string, p: string, i: nat)
    requires At(s, p, i)
    ensures Contains(s, p)
  {
  }

  /** `s` with every occurrence of `p`, found left to right, replaced by `v`. */
  function ReplaceAll(s: string, p: string, v: string): string
    requires p != ""
    decreases |s|
  {
    var r := Find(s, p, 0);
    if r == -1 then s else s[..r] + v + ReplaceAll(s[r + |p|..], p, v)
  }

  lemma {:induction false} FindShift(pre: string, s: string, p: string, i: nat)
    requires i <= |s|
    ensures Find(pre + s, p, |pre| + i) == if Find(s, p, i) == -1 then -1 else |pre| + Find(s, p, i)
    decreases |s| - i
  {
    if |pre| + i + |p| <= |pre + s| {
      assert (pre + s)[|pre| + i..|pre| + i + |p|] == s[i..i + |p|];
    }
    if !At(s, p, i) && i < |s| { FindShift(pre, s, p, i + 1); }
  }

  lemma ReplaceStep(done: string, s: string, p: string, v: string)
    requires p != ""
    ensures var r := Find(s, p, 0);
      if r == -1 then ReplaceAll(s, p, v) == s
      else done + ReplaceAll(s, p, v) == (done + s[..r] + v) + ReplaceAll(s[r + |p|..], p, v)
  {
    hide Find;
  }

  /** One edit: the first occurrence in `rest`, seen from the whole text `done + rest`. */
  lemma EditedAt(done: string, rest: string, r: nat, n: nat)
    requires r + n <= |rest|
    ensures (done + rest)[..|done| + r] == done + rest[..r]
    ensures (done + rest)[|done| + r + n..] == rest[r + n..]
  {
  }

  /** The source's loop: the text is edited in place and the search resumes after the value. */
  method ReplaceInPlace(s: string, p: string, v: string) returns (result: string)
    requires p != ""
    ensures result == ReplaceAll(s, p, v)
  {
    hide Find, ReplaceAll;
    result := s;
    ghost var done, rest := "", s;
    var pos := Find(result, p, 0);
    assert done + rest == rest && done + ReplaceAll(s, p, v) == ReplaceAll(s, p, v);
    while pos != -1
      invariant result == done + rest
      invariant done + ReplaceAll(rest, p, v) == ReplaceAll(s, p, v)
      invariant pos == if Find(rest, p, 0) == -1 then -1 else |done| + Find(rest, p, 0)
      decreases |rest|
    {
      ghost var r := Find(rest, p, 0);
      ReplaceStep(done, rest, p, v);
      EditedAt(done, rest, r, |p|);
      result := result[..pos] + v + result[pos + |p|..];
      done := done + rest[..r] + v;
      rest := rest[r + |p|..];
      assert |done| == pos + |v|;
      FindShift(done, rest, p, 0);
      pos := Find(result, p, pos + |v|);
    }
    ReplaceStep(done, rest, p, v);
  }
}
