/** `assign_lanes`: greedy best-fit interval partitioning, and its optimality. */
module Lanes {
  import opened Common
  import opened Requests

  /** `ends[i]` is the moment lane `i` becomes free. */
  datatype Board = Board(lanes: seq<seq<Req>>, ends: seq<int>)

  ghost predicate Fits(ends: seq<int>, t: int, n: nat, best: Option<nat>)
    requires n <= |ends|
  {
    match best
    case None => forall j :: 0 <= j < n ==> ends[j] > t
    case Some(b) => b < n && ends[b] <= t && forall j :: 0 <= j < n && ends[j] <= t ==> ends[j] <= ends[b]
  }

  /** Among the first `n` lanes free at `t`, the first of those that became free latest. */
  function BestFit(ends: seq<int>, t: int, n: nat): (best: Option<nat>)
    requires n <= |ends|
    ensures Fits(ends, t, n, best)
  {
    if n == 0 then None
    else
      var b := BestFit(ends, t, n - 1);
      if ends[n - 1] <= t && (b.None? || ends[b.value] < ends[n - 1]) then Some(n - 1) else b
  }

  function Place(b: Board, r: Req): (res: Board)
    requires |b.lanes| == |b.ends|
    ensures |res.lanes| == |res.ends|
  {
    match BestFit(b.ends, r.start, |b.ends|)
    case Some(i) => Board(b.lanes[i := b.lanes[i] + [r]], b.ends[i := Max(r.end, r.start)])
    case None => Board(b.lanes + [[r]], b.ends + [Max(r.end, r.start)])
  }

  function Assign(v: seq<Req>): (b: Board)
    ensures |b.lanes| == |b.ends|
  {
    if v == [] then Board([], []) else Place(Assign(v[..|v| - 1]), v[|v| - 1])
  }

  /** What `assign_lanes` returns, as a function of the unsorted stream. */
  function LanesOf(reqs: seq<Req>): (lanes: seq<seq<Req>>) {
    Assign(SortByKey(reqs)).lanes
  }

  method FindLane(ends: seq<int>, t: int) returns (best: Option<nat>)
    ensures best == BestFit(ends, t, |ends|)
  {
    best := None;
    for i := 0 to |ends|
      invariant best == BestFit(ends, t, i)
    {
      if ends[i] <= t && (best.None? || ends[best.value] < ends[i]) {
        best := Some(i);
      }
    }
  }

  /** The body of the loop: extend the best lane or open one, and note when it becomes free. */
  method PlaceRequest(lanes: seq<seq<Req>>, ends: seq<int>, r: Req) returns (lanes': seq<seq<Req>>, ends': seq<int>)
    requires |lanes| == |ends|
    ensures Board(lanes', ends') == Place(Board(lanes, ends), r)
  {
    var best := FindLane(ends, r.start);
    match best
    case Some(i) =>
      ends' := ends[i := Max(r.end, r.start)];
      lanes' := lanes[i := lanes[i] + [r]];
    case None =>
      ends' := ends + [Max(r.end, r.start)];
      lanes' := lanes + [[r]];
  }

  method AssignLanes(reqs: seq<Req>) returns (lanes: seq<seq<Req>>)
    ensures lanes == LanesOf(reqs)
  {
    var v := SortRequests(reqs);
    lanes := [];
    var ends: seq<int> := [];
    for n := 0 to |v|
      invariant Board(lanes, ends) == Assign(v[..n])
    {
      AssignNext(v, n);
      lanes, ends := PlaceRequest(lanes, ends, v[n]);
    }
    assert v[..|v|] == v;
  }

  lemma AssignStep(v: seq<Req>, r: Req)
    ensures Assign(v + [r]) == Place(Assign(v), r)
  {
    assert (v + [r])[..|v|] == v;
  }

  lemma AssignNext(v: seq<Req>, n: nat)
    requires n < |v|
    ensures Assign(v[..n + 1]) == Place(Assign(v[..n]), v[n])
  {
    assert v[..n + 1][..n] == v[..n];
  }

  // ---- the partition ----

  function Bag(lanes: seq<seq<Req>>): (m: multiset<Req>) {
    if lanes == [] then multiset{} else Bag(lanes[..|lanes| - 1]) + multiset(lanes[|lanes| - 1])
  }

  lemma {:induction false} BagUpdate(lanes: seq<seq<Req>>, i: nat, r: Req)
    requires i < |lanes|
    ensures Bag(lanes[i := lanes[i] + [r]]) == Bag(lanes) + multiset{r}
  {
    var n := |lanes| - 1;
    var after := lanes[i := lanes[i] + [r]];
    if i == n {
      assert after[..n] == lanes[..n];
    } else {
      BagUpdate(lanes[..n], i, r);
      assert after[..n] == lanes[..n][i := lanes[..n][i] + [r]];
    }
  }

  lemma PlaceBag(b: Board, r: Req)
    requires |b.lanes| == |b.ends|
    ensures Bag(Place(b, r).lanes) == Bag(b.lanes) + multiset{r}
  {
    match BestFit(b.ends, r.start, |b.ends|)
    case Some(i) => BagUpdate(b.lanes, i, r);
    case None => assert (b.lanes + [[r]])[..|b.lanes|] == b.lanes;
  }

  lemma {:induction false} AssignBag(v: seq<Req>)
    ensures Bag(Assign(v).lanes) == multiset(v)
  {
    if v != [] {
      var front, r := v[..|v| - 1], v[|v| - 1];
      assert v == front + [r];
      AssignBag(front);
      PlaceBag(Assign(front), r);
    }
  }

  // ---- lanes carry no overlap ----

  /** Two requests cannot share a lane: neither is over when the other starts. */
  predicate Overlap(a: Req, b: Req) {
    a.start < b.end && b.start < a.end
  }

  ghost predicate Serial(lane: seq<Req>) {
    forall i, j :: 0 <= i < j < |lane| ==> lane[i].end <= lane[j].start
  }

  ghost predicate Tidy(b: Board) {
    && |b.lanes| == |b.ends|
    && forall k :: 0 <= k < |b.lanes| ==>
         b.lanes[k] != [] && Serial(b.lanes[k]) && b.ends[k] == b.lanes[k][|b.lanes[k]| - 1].end
  }

  lemma SerialAppend(lane: seq<Req>, r: Req)
    requires Serial(lane) && (lane != [] ==> lane[|lane| - 1].end <= r.start)
    ensures Serial(lane + [r])
  {
    forall i | 0 <= i < |lane|
      ensures lane[i].end <= r.start
    {
      if i < |lane| - 1 {
        assert lane[i].end <= lane[|lane| - 1].start;
      }
    }
  }

  lemma PlaceTidy(b: Board, r: Req)
    requires Tidy(b)
    ensures Tidy(Place(b, r))
  {
    var best := BestFit(b.ends, r.start, |b.ends|);
    if best.Some? {
      SerialAppend(b.lanes[best.value], r);
    } else {
      SerialAppend([], r);
    }
  }

  lemma {:induction false} AssignTidy(v: seq<Req>)
    ensures Tidy(Assign(v))
  {
    if v != [] {
      AssignTidy(v[..|v| - 1]);
      PlaceTidy(Assign(v[..|v| - 1]), v[|v| - 1]);
    }
  }

  // ---- the witness: as many pairwise overlapping requests as lanes ----

  ghost predicate Clique(c: seq<Req>) {
    forall i, j :: 0 <= i < j < |c| ==> Overlap(c[i], c[j])
  }

  ghost predicate Witness(v: seq<Req>, n: nat, c: seq<Req>) {
    |c| == n && multiset(c) <= multiset(v) && Clique(c)
  }

  function Tops(lanes: seq<seq<Req>>): (c: seq<Req>)
    requires forall k :: 0 <= k < |lanes| ==> lanes[k] != []
    ensures |c| == |lanes|
    ensures forall k :: 0 <= k < |lanes| ==> c[k] == lanes[k][|lanes[k]| - 1]
  {
    if lanes == [] then []
    else
      var last := lanes[|lanes| - 1];
      Tops(lanes[..|lanes| - 1]) + [last[|last| - 1]]
  }

  lemma {:induction false} TopsInBag(lanes: seq<seq<Req>>)
    requires forall k :: 0 <= k < |lanes| ==> lanes[k] != []
    ensures multiset(Tops(lanes)) <= Bag(lanes)
  {
    if lanes != [] {
      TopsInBag(lanes[..|lanes| - 1]);
      var last := lanes[|lanes| - 1];
      assert last[|last| - 1] in multiset(last);
      assert multiset{last[|last| - 1]} <= multiset(last);
    }
  }

  lemma RunningClique(c: seq<Req>, r: Req)
    requires forall k :: 0 <= k < |c| ==> c[k].start <= r.start < c[k].end && c[k].start < r.end
    ensures Clique(c + [r])
  {
  }

  lemma TopInBag(lanes: seq<seq<Req>>, k: nat)
    requires forall i :: 0 <= i < |lanes| ==> lanes[i] != []
    requires k < |lanes|
    ensures Tops(lanes)[k] in Bag(lanes)
  {
    TopsInBag(lanes);
    assert Tops(lanes)[k] in multiset(Tops(lanes));
  }

  /** When no lane is free for `r`, the requests on top of the lanes are still running. */
  lemma TopsRunning(b: Board, r: Req, k: nat)
    requires Tidy(b) && k < |b.lanes| && b.ends[k] > r.start
    requires forall x :: x in Bag(b.lanes) ==> KeyLe(x, r)
    ensures var x := Tops(b.lanes)[k]; x.start <= r.start < x.end && x.start < r.end
  {
    TopInBag(b.lanes, k);
    assert KeyLe(Tops(b.lanes)[k], r);
  }

  lemma FullBoardOverlaps(b: Board, r: Req)
    requires Tidy(b)
    requires forall x :: x in Bag(b.lanes) ==> KeyLe(x, r)
    requires forall k :: 0 <= k < |b.ends| ==> b.ends[k] > r.start
    ensures Clique(Tops(b.lanes) + [r])
    ensures multiset(Tops(b.lanes) + [r]) <= Bag(b.lanes) + multiset{r}
  {
    var c := Tops(b.lanes);
    forall k | 0 <= k < |c|
      ensures c[k].start <= r.start < c[k].end && c[k].start < r.end
    {
      TopsRunning(b, r, k);
    }
    RunningClique(c, r);
    TopsInBag(b.lanes);
  }

  lemma NewLaneWitness(b: Board, v: seq<Req>, r: Req) returns (c: seq<Req>)
    requires Tidy(b) && Bag(b.lanes) == multiset(v)
    requires forall x :: x in v ==> KeyLe(x, r)
    requires forall k :: 0 <= k < |b.ends| ==> b.ends[k] > r.start
    ensures Witness(v + [r], |b.lanes| + 1, c)
  {
    assert forall x :: x in multiset(v) ==> x in v;
    FullBoardOverlaps(b, r);
    c := Tops(b.lanes) + [r];
  }

  lemma {:induction false} CliqueExists(v: seq<Req>) returns (c: seq<Req>)
    requires Sorted(v)
    ensures Witness(v, |Assign(v).lanes|, c)
  {
    c := [];
    if v != [] {
      var front, r := v[..|v| - 1], v[|v| - 1];
      assert v == front + [r];
      assert forall i :: 0 <= i < |front| ==> KeyLe(v[i], v[|v| - 1]);
      var b := Assign(front);
      if BestFit(b.ends, r.start, |b.ends|).None? {
        AssignTidy(front);
        AssignBag(front);
        c := NewLaneWitness(b, front, r);
      } else {
        c := CliqueExists(front);
      }
    }
  }

  // ---- no partition does better ----

  /** A lane in which no two positions overlap. */
  ghost predicate OverlapFree(lane: seq<Req>) {
    forall i, j :: 0 <= i < j < |lane| ==> !Overlap(lane[i], lane[j])
  }

  lemma TwoPlaces(s: seq<Req>, x: Req, y: Req) returns (i: nat, j: nat)
    requires multiset{x, y} <= multiset(s)
    ensures i < |s| && j < |s| && i != j && s[i] == x && s[j] == y
  {
    assert x in multiset(s);
    i :| 0 <= i < |s| && s[i] == x;
    var rest := Without(s, i);
    assert multiset{x, y} == multiset{x} + multiset{y};
    assert y in multiset(rest);
    var k :| 0 <= k < |rest| && rest[k] == y;
    j := if k < i then k else k + 1;
  }

  lemma TwoElements(m: multiset<Req>) returns (x: Req, y: Req)
    requires |m| >= 2
    ensures multiset{x, y} <= m
  {
    x :| x in m;
    var rest := m - multiset{x};
    assert |rest| == |m| - 1;
    y :| y in rest;
  }

  /** A clique meets an overlap-free lane at most once. */
  lemma MeetsOnce(c: seq<Req>, lane: seq<Req>)
    requires Clique(c) && OverlapFree(lane)
    ensures |multiset(c) * multiset(lane)| <= 1
  {
    var m := multiset(c) * multiset(lane);
    if |m| >= 2 {
      var x, y := TwoElements(m);
      var i, j := TwoPlaces(c, x, y);
      var k, l := TwoPlaces(lane, x, y);
    }
  }

  lemma MeetSplits(m: multiset<Req>, a: multiset<Req>, b: multiset<Req>)
    ensures |m * (a + b)| <= |m * a| + |m * b|
  {
    var whole, parts := m * (a + b), (m * a) + (m * b);
    assert whole <= parts;
    assert parts == whole + (parts - whole);
    assert |whole + (parts - whole)| == |whole| + |parts - whole|;
  }

  lemma {:induction false} CliqueNeedsLanes(c: seq<Req>, lanes: seq<seq<Req>>)
    requires Clique(c)
    requires forall k :: 0 <= k < |lanes| ==> OverlapFree(lanes[k])
    ensures |multiset(c) * Bag(lanes)| <= |lanes|
  {
    if lanes != [] {
      var n := |lanes| - 1;
      CliqueNeedsLanes(c, lanes[..n]);
      MeetsOnce(c, lanes[n]);
      MeetSplits(multiset(c), Bag(lanes[..n]), multiset(lanes[n]));
    }
  }

  lemma SerialIsOverlapFree(lane: seq<Req>)
    requires Serial(lane)
    ensures OverlapFree(lane)
  {
  }

  /** `assign_lanes` redistributes exactly the given requests, runs each lane without overlap
      and in order, its lane count is the size of a set of pairwise overlapping requests, and
      no overlap-free partition of the same requests gets by with fewer lanes. */
  lemma LanesAreOptimal(reqs: seq<Req>)
    ensures Bag(LanesOf(reqs)) == multiset(reqs)
    ensures forall k :: 0 <= k < |LanesOf(reqs)| ==> LanesOf(reqs)[k] != [] && Serial(LanesOf(reqs)[k])
    ensures exists c :: |c| == |LanesOf(reqs)| && multiset(c) <= multiset(reqs) && Clique(c)
    ensures forall lanes: seq<seq<Req>> ::
              Bag(lanes) == multiset(reqs) && (forall k :: 0 <= k < |lanes| ==> OverlapFree(lanes[k]))
              ==> |LanesOf(reqs)| <= |lanes|
  {
    var v := SortByKey(reqs);
    SortSorts(reqs);
    AssignBag(v);
    AssignTidy(v);
    var c := CliqueExists(v);
    forall lanes: seq<seq<Req>> |
      Bag(lanes) == multiset(reqs) && (forall k :: 0 <= k < |lanes| ==> OverlapFree(lanes[k]))
      ensures |LanesOf(reqs)| <= |lanes|
    {
      CliqueNeedsLanes(c, lanes);
      assert multiset(c) * multiset(reqs) == multiset(c);
      assert |multiset(c)| == |c|;
    }
  }

  // ---- lane count and instantaneous concurrency ----

  function Select(v: seq<Req>, f: Req -> bool): (s: seq<Req>)
    ensures forall x :: multiset(s)[x] == if f(x) then multiset(v)[x] else 0
  {
    if v == [] then []
    else
      assert v == v[..|v| - 1] + [v[|v| - 1]];
      Select(v[..|v| - 1], f) + (if f(v[|v| - 1]) then [v[|v| - 1]] else [])
  }

  lemma SelectHoldsAll(v: seq<Req>, f: Req -> bool, c: seq<Req>)
    requires multiset(c) <= multiset(v) && forall x :: x in c ==> f(x)
    ensures |c| <= |Select(v, f)|
  {
    var s := Select(v, f);
    assert multiset(c) <= multiset(s) by {
      forall x | x in multiset(c)
        ensures multiset(c)[x] <= multiset(s)[x]
      {
        assert x in c;
      }
    }
    assert multiset(s) == multiset(c) + (multiset(s) - multiset(c));
    assert |multiset(c)| == |c| && |multiset(s)| == |s|;
  }

  lemma SelectIsPart(v: seq<Req>, f: Req -> bool)
    ensures multiset(Select(v, f)) <= multiset(v)
    ensures forall i :: 0 <= i < |Select(v, f)| ==> f(Select(v, f)[i])
  {
    var s := Select(v, f);
    forall i | 0 <= i < |s|
      ensures f(s[i])
    {
      assert s[i] in multiset(s);
    }
  }

  /** Requests in progress at `t`; one that starts and ends at the same instant never is. */
  function Live(reqs: seq<Req>, t: int): (s: seq<Req>) {
    Select(reqs, (r: Req) => r.start <= t < r.end)
  }

  function Surrounding(reqs: seq<Req>, t: int): (s: seq<Req>) {
    Select(reqs, (r: Req) => r.start < t < r.end)
  }

  ghost predicate IsPeak(reqs: seq<Req>, p: nat) {
    && (forall t :: |Live(reqs, t)| <= p)
    && exists t :: |Live(reqs, t)| == p
  }

  predicate Instant(r: Req) {
    r.start == r.end
  }

  lemma CliqueFitsLanes(reqs: seq<Req>, c: seq<Req>)
    requires Clique(c) && multiset(c) <= multiset(reqs)
    ensures |c| <= |LanesOf(reqs)|
  {
    LanesAreOptimal(reqs);
    var lanes := LanesOf(reqs);
    forall k | 0 <= k < |lanes|
      ensures OverlapFree(lanes[k])
    {
      SerialIsOverlapFree(lanes[k]);
    }
    CliqueNeedsLanes(c, lanes);
    assert multiset(c) * multiset(reqs) == multiset(c);
    assert |multiset(c)| == |c|;
  }

  lemma LiveFitsLanes(reqs: seq<Req>, t: int)
    ensures |Live(reqs, t)| <= |LanesOf(reqs)|
  {
    SelectIsPart(reqs, (r: Req) => r.start <= t < r.end);
    CliqueFitsLanes(reqs, Live(reqs, t));
  }

  /** A clique of requests that take time is in progress all at once. */
  lemma CommonInstant(reqs: seq<Req>, c: seq<Req>) returns (t: int)
    requires Clique(c) && multiset(c) <= multiset(reqs) && forall i :: 0 <= i < |c| ==> !Instant(c[i])
    ensures |c| <= |Live(reqs, t)|
  {
    t := LatestStart(c);
    SelectHoldsAll(reqs, (r: Req) => r.start <= t < r.end, c);
  }

  lemma {:induction false} LatestStart(c: seq<Req>) returns (t: int)
    requires Clique(c) && forall i :: 0 <= i < |c| ==> !Instant(c[i])
    ensures forall x :: x in c ==> x.start <= t < x.end
  {
    t := 0;
    if c != [] {
      var k := MaxStartIndex(c);
      t := c[k].start;
    }
  }

  lemma {:induction false} MaxStartIndex(c: seq<Req>) returns (k: nat)
    requires c != []
    ensures k < |c| && forall i :: 0 <= i < |c| ==> c[i].start <= c[k].start
  {
    k := 0;
    for n := 1 to |c|
      invariant k < n && forall i :: 0 <= i < n ==> c[i].start <= c[k].start
    {
      if c[k].start < c[n].start {
        k := n;
      }
    }
  }

  /** Dropping the only instantaneous member of a clique leaves requests that surround it. */
  lemma CliqueAround(reqs: seq<Req>, c: seq<Req>, i: nat)
    requires Clique(c) && multiset(c) <= multiset(reqs) && i < |c| && Instant(c[i])
    ensures |c| - 1 <= |Surrounding(reqs, c[i].start)|
  {
    var t, rest := c[i].start, Without(c, i);
    forall x | x in rest
      ensures x.start < t < x.end
    {
      var j :| 0 <= j < |rest| && rest[j] == x;
      assert x == c[if j < i then j else j + 1];
    }
    SelectHoldsAll(reqs, (r: Req) => r.start < t < r.end, rest);
  }

  lemma SurroundingIsLive(reqs: seq<Req>, t: int)
    ensures |Surrounding(reqs, t)| <= |Live(reqs, t)|
  {
    SelectIsPart(reqs, (r: Req) => r.start < t < r.end);
    SelectHoldsAll(reqs, (r: Req) => r.start <= t < r.end, Surrounding(reqs, t));
  }

  lemma InstantInsidePeak(reqs: seq<Req>, z: Req)
    requires z in reqs && Instant(z)
    ensures |Surrounding(reqs, z.start)| + 1 <= |LanesOf(reqs)|
  {
    var s := Surrounding(reqs, z.start);
    SelectIsPart(reqs, (r: Req) => r.start < z.start < r.end);
    var c := s + [z];
    assert multiset(c) <= multiset(reqs) by {
      assert multiset(c) == multiset(s) + multiset{z};
      assert z in multiset(reqs);
      assert z !in multiset(s);
    }
    CliqueFitsLanes(reqs, c);
  }

  /** "Lane count = peak instantaneous concurrency" is exact up to one lane, and fails exactly
      when an instantaneous request falls strictly inside a moment of peak concurrency. */
  lemma LaneCountVersusPeak(reqs: seq<Req>, p: nat)
    requires IsPeak(reqs, p)
    ensures p <= |LanesOf(reqs)| <= p + 1
    ensures |LanesOf(reqs)| == p <==> forall z :: z in reqs && Instant(z) ==> |Surrounding(reqs, z.start)| < p
  {
    var n := |LanesOf(reqs)|;
    var t :| |Live(reqs, t)| == p;
    LiveFitsLanes(reqs, t);
    LanesAreOptimal(reqs);
    var c: seq<Req> :| |c| == n && multiset(c) <= multiset(reqs) && Clique(c);
    if i: int :| 0 <= i < |c| && Instant(c[i]) {
      CliqueAround(reqs, c, i);
      SurroundingIsLive(reqs, c[i].start);
      assert c[i] in multiset(c);
      assert c[i] in reqs;
    } else {
      var _ := CommonInstant(reqs, c);
    }
    forall z | z in reqs && Instant(z)
      ensures n == p ==> |Surrounding(reqs, z.start)| < p
    {
      InstantInsidePeak(reqs, z);
    }
  }

  lemma SelectTwo(a: Req, b: Req, f: Req -> bool)
    ensures Select([a, b], f) == (if f(a) then [a] else []) + (if f(b) then [b] else [])
  {
    assert [a, b][..1] == [a] && [a][..0] == [];
    assert Select([a], f) == if f(a) then [a] else [];
  }

  lemma LiveOfTwo(long: Req, z: Req, t: int)
    requires Instant(z)
    ensures |Live([long, z], t)| == if long.start <= t < long.end then 1 else 0
  {
    SelectTwo(long, z, (r: Req) => r.start <= t < r.end);
  }

  lemma PeakOfTwo(long: Req, z: Req)
    requires Instant(z) && long.start < long.end
    ensures IsPeak([long, z], 1)
  {
    forall t
      ensures |Live([long, z], t)| <= 1
    {
      LiveOfTwo(long, z, t);
    }
    LiveOfTwo(long, z, long.start);
  }

  lemma SurroundingOfTwo(long: Req, z: Req)
    requires Instant(z) && long.start < z.start < long.end
    ensures |Surrounding([long, z], z.start)| == 1
  {
    SelectTwo(long, z, (r: Req) => r.start < z.start < r.end);
  }

  /** The comment fails on two requests: one at work and an instantaneous one in the middle of it never
      count as two at once, and still need two lanes. */
  lemma InstantNeedsItsOwnLane(long: Req, z: Req)
    requires Instant(z) && long.start < z.start < long.end
    ensures IsPeak([long, z], 1) && |LanesOf([long, z])| == 2
  {
    PeakOfTwo(long, z);
    SurroundingOfTwo(long, z);
    assert [long, z][1] == z;
    LaneCountVersusPeak([long, z], 1);
  }
}
