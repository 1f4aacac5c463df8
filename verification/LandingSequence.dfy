/** The landing order: where the user stands among the traffic on final, whom to follow, and whether
    the runway is occupied. */
module LandingSequence {
  import opened TrafficAdvisor

  /** A target with its distance to the threshold, and whether it stands on the runway centerline
      within reach of the threshold. */
  datatype Traffic = Traffic(phase: TrafficPhase, dist: real, onCenterline: bool)

  datatype Entry = Entry(dist: real, idx: nat)

  datatype MaybeIndex = None | Some(i: nat)

  datatype Sequence = Sequence(position: nat, follow: MaybeIndex, occupant: MaybeIndex)

  predicate Less(a: Entry, b: Entry) { a.dist < b.dist || (a.dist == b.dist && a.idx < b.idx) }

  ghost predicate Sorted(es: seq<Entry>) { forall i, j :: 0 <= i < j < |es| ==> Less(es[i], es[j]) }

  predicate OnFinal(ts: seq<Traffic>, i: int) { 0 <= i < |ts| && ts[i].phase.Final? }

  /** On final and at most as far out as the user. */
  predicate Ahead(ts: seq<Traffic>, userDist: real, i: int) { OnFinal(ts, i) && ts[i].dist <= userDist }

  predicate Blocks(t: Traffic) { (t.phase.OnGround? || t.phase.Takeoff? || t.phase.Landed?) && t.onCenterline }

  // ── Sorting ───────────────────────────────────────────────────────

  function Insert(e: Entry, es: seq<Entry>): (r: seq<Entry>)
    ensures |r| == |es| + 1
  {
    if es == [] || Less(e, es[0]) then [e] + es else [es[0]] + Insert(e, es[1..])
  }

  /** The library sort under a strict order, whose result is unique. */
  function Sort(es: seq<Entry>): (r: seq<Entry>)
    ensures |r| == |es|
  {
    if es == [] then [] else Insert(es[|es| - 1], Sort(es[..|es| - 1]))
  }

  lemma {:induction false} InsertMembers(e: Entry, es: seq<Entry>, x: Entry)
    ensures x in Insert(e, es) <==> x == e || x in es
  {
    if es != [] && !Less(e, es[0]) {
      InsertMembers(e, es[1..], x);
      assert es == [es[0]] + es[1..];
    }
  }

  lemma {:induction false} InsertSorted(e: Entry, es: seq<Entry>)
    requires Sorted(es) && forall x :: x in es ==> x.idx != e.idx
    ensures Sorted(Insert(e, es))
  {
    if es != [] && !Less(e, es[0]) {
      InsertSorted(e, es[1..]);
      var r := Insert(e, es[1..]);
      forall i | 0 <= i < |r|
        ensures Less(es[0], r[i])
      {
        InsertMembers(e, es[1..], r[i]);
      }
    }
  }

  /** Entries of a list belong to distinct targets. */
  predicate Distinct(es: seq<Entry>) { forall i, j :: 0 <= i < j < |es| ==> es[i].idx != es[j].idx }

  lemma {:induction false} SortIsSorted(es: seq<Entry>)
    requires Distinct(es)
    ensures Sorted(Sort(es)) && forall x :: x in Sort(es) <==> x in es
  {
    if es != [] {
      var n := |es| - 1;
      var rest := es[..n];
      SortIsSorted(rest);
      assert es == rest + [es[n]];
      forall x
        ensures x in Sort(es) <==> x in es
      {
        InsertMembers(es[n], Sort(rest), x);
      }
      InsertSorted(es[n], Sort(rest));
    }
  }

  // ── Who is on final ───────────────────────────────────────────────

  function Finals(ts: seq<Traffic>, n: nat): seq<Entry>
    requires n <= |ts|
  {
    if n == 0 then []
    else Finals(ts, n - 1) + if ts[n - 1].phase.Final? then [Entry(ts[n - 1].dist, n - 1)] else []
  }

  predicate EntryOf(ts: seq<Traffic>, e: Entry) { OnFinal(ts, e.idx) && e.dist == ts[e.idx].dist }

  lemma {:induction false} FinalsMembers(ts: seq<Traffic>, n: nat, e: Entry)
    requires n <= |ts|
    ensures e in Finals(ts, n) <==> e.idx < n && EntryOf(ts, e)
  {
    if n > 0 { FinalsMembers(ts, n - 1, e); }
  }

  lemma {:induction false} FinalsDistinct(ts: seq<Traffic>, n: nat)
    requires n <= |ts|
    ensures Distinct(Finals(ts, n))
  {
    if n > 0 {
      FinalsDistinct(ts, n - 1);
      var es := Finals(ts, n - 1);
      forall i | 0 <= i < |es|
        ensures es[i].idx < n - 1
      {
        FinalsMembers(ts, n - 1, es[i]);
      }
    }
  }

  /** The sorted list: in order, one entry for each target on final. */
  ghost predicate LandingOrder(ts: seq<Traffic>, es: seq<Entry>) {
    Sorted(es) && Distinct(es) && forall e :: e in es <==> EntryOf(ts, e)
  }

  lemma FinalsInOrder(ts: seq<Traffic>)
    ensures LandingOrder(ts, Sort(Finals(ts, |ts|)))
  {
    hide Sorted, Distinct, Sort, Finals;
    var fs := Finals(ts, |ts|);
    FinalsDistinct(ts, |ts|);
    SortIsSorted(fs);
    SortedIsDistinct(Sort(fs), fs);
    forall e
      ensures e in Sort(fs) <==> EntryOf(ts, e)
    {
      FinalsMembers(ts, |ts|, e);
    }
  }

  /** Length of the prefix at most `d` away. */
  predicate SplitsAt(es: seq<Entry>, k: nat, d: real) {
    k <= |es| && (forall i :: 0 <= i < k ==> es[i].dist <= d) && (forall i :: k <= i < |es| ==> es[i].dist > d)
  }

  lemma {:induction false} IndicesCount(es: seq<Entry>, k: nat)
    requires k <= |es| && Distinct(es)
    ensures |set i | 0 <= i < k :: es[i].idx| == k
  {
    if k > 0 {
      IndicesCount(es, k - 1);
      var s, t := set i | 0 <= i < k - 1 :: es[i].idx, set i | 0 <= i < k :: es[i].idx;
      assert t == s + {es[k - 1].idx};
    }
  }

  lemma SortedIsDistinct(es: seq<Entry>, fs: seq<Entry>)
    requires Sorted(es) && Distinct(fs) && forall x :: x in es <==> x in fs
    ensures Distinct(es)
  {
    forall i, j | 0 <= i < j < |es|
      ensures es[i].idx != es[j].idx
    {
      assert Less(es[i], es[j]) && es[i] in fs && es[j] in fs;
    }
  }

  lemma AheadIsInPrefix(ts: seq<Traffic>, es: seq<Entry>, k: nat, userDist: real, i: nat)
    requires LandingOrder(ts, es) && SplitsAt(es, k, userDist)
    ensures Ahead(ts, userDist, i) <==> exists j :: 0 <= j < k && es[j].idx == i
  {
    hide Sorted, Distinct;
    if Ahead(ts, userDist, i) {
      var e := Entry(ts[i].dist, i);
      assert EntryOf(ts, e) && e in es;
      var j :| 0 <= j < |es| && es[j] == e;
      assert j < k;
    }
    if j :| 0 <= j < k && es[j].idx == i {
      assert es[j] in es;
    }
  }

  /** The prefix consists of exactly the targets ahead, so its length counts them. */
  lemma PrefixIsAhead(ts: seq<Traffic>, es: seq<Entry>, k: nat, userDist: real)
    requires LandingOrder(ts, es) && SplitsAt(es, k, userDist)
    ensures k == |set i | 0 <= i < |ts| && Ahead(ts, userDist, i)|
  {
    IndicesCount(es, k);
    var prefix := set i | 0 <= i < k :: es[i].idx;
    var ahead := set i | 0 <= i < |ts| && Ahead(ts, userDist, i);
    forall i: nat
      ensures i in prefix <==> i in ahead
    {
      AheadIsInPrefix(ts, es, k, userDist, i);
    }
    assert forall x :: x in ahead ==> x >= 0;
    assert prefix == ahead;
  }

  // ── The computation ───────────────────────────────────────────────

  method CollectFinals(ts: seq<Traffic>) returns (finals: seq<Entry>)
    ensures finals == Finals(ts, |ts|)
  {
    finals := [];
    for i := 0 to |ts|
      invariant finals == Finals(ts, i)
    {
      if ts[i].phase.Final? { finals := finals + [Entry(ts[i].dist, i)]; }
    }
  }

  method FindOccupant(ts: seq<Traffic>) returns (o: MaybeIndex)
    ensures o.None? <==> forall i :: 0 <= i < |ts| ==> !Blocks(ts[i])
    ensures o.Some? ==> o.i < |ts| && Blocks(ts[o.i]) && forall k :: 0 <= k < o.i ==> !Blocks(ts[k])
  {
    o := None;
    for i := 0 to |ts|
      invariant forall k :: 0 <= k < i ==> !Blocks(ts[k])
    {
      if Blocks(ts[i]) { return Some(i); }
    }
  }

  /** Position, leader and occupant: one plus the number of targets on final at most as far out as the
      user; the last of those in landing order; the first target that blocks the runway. */
  method ComputeLandingSequence(ts: seq<Traffic>, userDist: real) returns (r: Sequence)
    ensures r.position == 1 + |set i | 0 <= i < |ts| && Ahead(ts, userDist, i)|
    ensures r.follow.Some? <==> r.position >= 2
    ensures r.follow.Some? ==> Ahead(ts, userDist, r.follow.i)
    ensures r.follow.Some? ==> forall i :: 0 <= i < |ts| && Ahead(ts, userDist, i) ==>
      i == r.follow.i || Less(Entry(ts[i].dist, i), Entry(ts[r.follow.i].dist, r.follow.i))
    ensures r.occupant.None? <==> forall i :: 0 <= i < |ts| ==> !Blocks(ts[i])
    ensures r.occupant.Some? ==>
      r.occupant.i < |ts| && Blocks(ts[r.occupant.i]) && forall k :: 0 <= k < r.occupant.i ==> !Blocks(ts[k])
    ensures r.position == 1 + |set i | 0 <= i < |ts| && ts[i].phase.Final? && ts[i].dist <= userDist|
    ensures r.occupant.None? <==> forall i :: 0 <= i < |ts| && ts[i].onCenterline ==>
      !ts[i].phase.OnGround? && !ts[i].phase.Takeoff? && !ts[i].phase.Landed?
  {
    hide Finals, Sort, Ahead, Less, Sorted, Distinct, SplitsAt, EntryOf;
    var finals := CollectFinals(ts);
    finals := Sort(finals);
    FinalsInOrder(ts);
    var k := FirstBehind(finals, userDist);
    PrefixIsAhead(ts, finals, k, userDist);
    var follow := None;
    if k > 0 {
      follow := Some(finals[k - 1].idx);
      LeaderIsLast(ts, finals, k, userDist);
    }
    var occupant := FindOccupant(ts);
    r := Sequence(k + 1, follow, occupant);
    AheadMeans(ts, userDist);
  }

  lemma AheadMeans(ts: seq<Traffic>, userDist: real)
    ensures (set i | 0 <= i < |ts| && Ahead(ts, userDist, i))
         == set i | 0 <= i < |ts| && ts[i].phase.Final? && ts[i].dist <= userDist
  {
  }

  /** Where the user is inserted: nobody in front is farther out, everybody behind is. */
  method FirstBehind(finals: seq<Entry>, userDist: real) returns (k: nat)
    requires Sorted(finals)
    ensures SplitsAt(finals, k, userDist)
  {
    k := 0;
    while k < |finals| && finals[k].dist <= userDist
      invariant k <= |finals| && forall i :: 0 <= i < k ==> finals[i].dist <= userDist
    {
      k := k + 1;
    }
    if k < |finals| { assert forall i :: k < i < |finals| ==> Less(finals[k], finals[i]); }
  }

  lemma LeaderIsLast(ts: seq<Traffic>, es: seq<Entry>, k: nat, userDist: real)
    requires LandingOrder(ts, es) && 0 < k && SplitsAt(es, k, userDist)
    ensures Ahead(ts, userDist, es[k - 1].idx)
    ensures forall i :: 0 <= i < |ts| && Ahead(ts, userDist, i) ==>
      i == es[k - 1].idx || Less(Entry(ts[i].dist, i), Entry(ts[es[k - 1].idx].dist, es[k - 1].idx))
  {
    var last := es[k - 1];
    assert last in es && EntryOf(ts, last);
    forall i: nat | i < |ts| && Ahead(ts, userDist, i) && i != last.idx
      ensures Less(Entry(ts[i].dist, i), Entry(ts[last.idx].dist, last.idx))
    {
      AheadIsInPrefix(ts, es, k, userDist, i);
      var j :| 0 <= j < k && es[j].idx == i;
      assert es[j] in es && Less(es[j], last);
    }
  }

  /** With the user put in, the landing order is still in order of distance. */
  lemma UserKeepsOrder(es: seq<Entry>, k: nat, userDist: real, i: nat, j: nat)
    requires Sorted(es) && SplitsAt(es, k, userDist) && i < j <= |es|
    ensures var merged := es[..k] + [Entry(userDist, |es|)] + es[k..]; merged[i].dist <= merged[j].dist
  {
    var merged := es[..k] + [Entry(userDist, |es|)] + es[k..];
    assert forall n :: 0 <= n <= |es| ==> merged[n] == if n < k then es[n] else if n == k then Entry(userDist, |es|) else es[n - 1];
    assert forall a, b :: 0 <= a < b < |es| ==> Less(es[a], es[b]) && es[a].dist <= es[b].dist;
  }
}
