/** Laws of `sessionize`: conservation, separation, order independence, the periods as the
    connected components of "within gap of each other", and coarsening with the gap. */
module SessionLaws {
  import opened Common
  import opened Requests
  import opened Sessions

  // ---- conservation ----

  function RequestsIn(ss: seq<Session>): (n: nat) {
    if ss == [] then 0 else RequestsIn(ss[..|ss| - 1]) + ss[|ss| - 1].requests
  }

  function FaceIn(ss: seq<Session>): (f: int) {
    if ss == [] then 0 else FaceIn(ss[..|ss| - 1]) + ss[|ss| - 1].face
  }

  lemma {:induction false} CutConserves(v: seq<Req>, gap: int)
    ensures RequestsIn(Cut(v, gap)) == |v|
    ensures FaceIn(Cut(v, gap)) == FaceOf(v)
  {
    if v != [] {
      CutConserves(v[..|v| - 1], gap);
      var out, res := Cut(v[..|v| - 1], gap), Cut(v, gap);
      assert res[..|res| - 1] == if |res| == |out| then out[..|out| - 1] else out;
    }
  }

  // ---- order independence ----

  lemma SwapTies(out: seq<Session>, a: Req, b: Req, gap: nat)
    requires SameKey(a, b)
    ensures Extend(Extend(out, a, gap), b, gap) == Extend(Extend(out, b, gap), a, gap)
  {
    var oa, ob := Extend(out, a, gap), Extend(out, b, gap);
    assert oa[..|oa| - 1] == ob[..|ob| - 1];
  }

  lemma SwapLastTies(u: seq<Req>, a: Req, b: Req, gap: nat)
    requires SameKey(a, b)
    ensures Cut(u + [a] + [b], gap) == Cut(u + [b] + [a], gap)
  {
    CutStep(u, a, gap);
    CutStep(u + [a], b, gap);
    CutStep(u, b, gap);
    CutStep(u + [b], a, gap);
    SwapTies(Cut(u, gap), a, b, gap);
  }

  lemma {:induction false} MoveToEnd(w: seq<Req>, k: nat, gap: nat)
    requires k < |w|
    requires forall j :: k <= j < |w| ==> SameKey(w[j], w[k])
    ensures Cut(w, gap) == Cut(Without(w, k) + [w[k]], gap)
  {
    if k == |w| - 1 {
      assert Without(w, k) + [w[k]] == w;
    } else {
      var front, b := w[..|w| - 1], w[|w| - 1];
      var rest := Without(front, k);
      MoveToEnd(front, k, gap);
      assert w == front + [b];
      CutStep(front, b, gap);
      CutStep(rest + [w[k]], b, gap);
      SwapLastTies(rest, w[k], b, gap);
      WithoutStep(front, b, k);
    }
  }

  lemma {:induction false} CutIgnoresTies(v: seq<Req>, w: seq<Req>, gap: nat)
    requires Sorted(v) && Sorted(w) && multiset(v) == multiset(w)
    ensures Cut(v, gap) == Cut(w, gap)
  {
    if v == [] {
      assert |multiset(w)| == 0;
    } else {
      var k := TiesAfter(v, w);
      MoveToEnd(w, k, gap);
      WithoutSorted(w, k);
      CutIgnoresTies(v[..|v| - 1], Without(w, k), gap);
      CutStep(Without(w, k), w[k], gap);
    }
  }

  lemma {:induction false} SameStarts(v: seq<Req>, w: seq<Req>)
    requires Sorted(v) && Sorted(w) && multiset(v) == multiset(w)
    ensures |v| == |w| && forall i :: 0 <= i < |v| ==> v[i].start == w[i].start
  {
    assert |multiset(v)| == |v| && |multiset(w)| == |w|;
    if v != [] {
      var k := TiesAfter(v, w);
      WithoutSorted(w, k);
      SameStarts(v[..|v| - 1], Without(w, k));
    }
  }

  lemma {:induction false} RhythmFromStarts(v: seq<Req>, w: seq<Req>)
    requires |v| == |w| && forall i :: 0 <= i < |v| ==> v[i].start == w[i].start
    ensures Rhythm(v) == Rhythm(w)
  {
    if |v| >= 2 {
      RhythmFromStarts(v[..|v| - 1], w[..|w| - 1]);
    }
  }

  lemma SameGap(v: seq<Req>, w: seq<Req>, gap: Option<nat>)
    requires Rhythm(v) == Rhythm(w)
    ensures EffectiveGap(v, gap) == EffectiveGap(w, gap)
  {
  }

  /** `sessionize` takes its requests "in any order". */
  lemma OrderIndependent(a: seq<Req>, b: seq<Req>, gap: Option<nat>)
    requires multiset(a) == multiset(b)
    ensures Periods(a, gap) == Periods(b, gap)
  {
    var v, w := SortByKey(a), SortByKey(b);
    SortSorts(a);
    SortSorts(b);
    SameStarts(v, w);
    RhythmFromStarts(v, w);
    SameGap(v, w, gap);
    CutIgnoresTies(v, w, EffectiveGap(v, gap));
  }

  // ---- the adaptive gap is three medians ----

  function CountBelow(s: seq<int>, m: int): (n: nat) {
    if s == [] then 0 else CountBelow(s[..|s| - 1], m) + (if s[|s| - 1] < m then 1 else 0)
  }

  function CountAbove(s: seq<int>, m: int): (n: nat) {
    if s == [] then 0 else CountAbove(s[..|s| - 1], m) + (if s[|s| - 1] > m then 1 else 0)
  }

  ghost predicate Ascending(s: seq<int>) {
    forall i, j :: 0 <= i < j < |s| ==> s[i] <= s[j]
  }

  lemma {:induction false} InsertIntAscending(s: seq<int>, x: int)
    requires Ascending(s)
    ensures Ascending(InsertInt(s, x))
  {
    if s != [] && s[|s| - 1] > x {
      var front, top := s[..|s| - 1], s[|s| - 1];
      InsertIntAscending(front, x);
      var u := InsertInt(front, x);
      forall i | 0 <= i < |u|
        ensures u[i] <= top
      {
        assert u[i] in multiset(u);
        assert u[i] == x || u[i] in front;
      }
    }
  }

  lemma {:induction false} SortIntsAscending(s: seq<int>)
    ensures Ascending(SortInts(s))
  {
    if s != [] {
      SortIntsAscending(s[..|s| - 1]);
      InsertIntAscending(SortInts(s[..|s| - 1]), s[|s| - 1]);
    }
  }

  lemma CountStep(s: seq<int>, x: int, m: int)
    ensures CountBelow(s + [x], m) == CountBelow(s, m) + (if x < m then 1 else 0)
    ensures CountAbove(s + [x], m) == CountAbove(s, m) + (if x > m then 1 else 0)
  {
    assert (s + [x])[..|s|] == s;
  }

  lemma {:induction false} InsertIntCounts(s: seq<int>, x: int, m: int)
    ensures CountBelow(InsertInt(s, x), m) == CountBelow(s, m) + (if x < m then 1 else 0)
    ensures CountAbove(InsertInt(s, x), m) == CountAbove(s, m) + (if x > m then 1 else 0)
  {
    if s == [] || s[|s| - 1] <= x {
      CountStep(s, x, m);
    } else {
      var front, top := s[..|s| - 1], s[|s| - 1];
      InsertIntCounts(front, x, m);
      CountStep(InsertInt(front, x), top, m);
    }
  }

  lemma {:induction false} SortIntsCounts(s: seq<int>, m: int)
    ensures CountBelow(SortInts(s), m) == CountBelow(s, m) && CountAbove(SortInts(s), m) == CountAbove(s, m)
  {
    if s != [] {
      SortIntsCounts(s[..|s| - 1], m);
      InsertIntCounts(SortInts(s[..|s| - 1]), s[|s| - 1], m);
    }
  }

  lemma {:induction false} CountSplit(s: seq<int>, m: int, k: nat)
    requires k <= |s| && (forall i :: 0 <= i < |s| ==> if i < k then s[i] <= m else s[i] >= m)
    ensures CountBelow(s, m) <= k && CountAbove(s, m) <= |s| - k
  {
    if s != [] {
      var n := |s| - 1;
      CountSplit(s[..n], m, if k <= n then k else n);
    }
  }

  ghost predicate IsMedian(s: seq<int>, m: int) {
    m in s && 2 * CountBelow(s, m) <= |s| && 2 * CountAbove(s, m) < |s|
  }

  lemma MiddleCounts(t: seq<int>, k: nat)
    requires Ascending(t) && k < |t|
    ensures CountBelow(t, t[k]) <= k && CountAbove(t, t[k]) <= |t| - k - 1
  {
    CountSplit(t, t[k], k);
    CountSplit(t, t[k], k + 1);
  }

  lemma SameInts(s: seq<int>, t: seq<int>, x: int)
    requires multiset(s) == multiset(t) && x in t
    ensures x in s
  {
    assert x in multiset(t);
  }

  lemma MiddleIsMedian(s: seq<int>)
    requires s != []
    ensures IsMedian(s, SortInts(s)[|s| / 2])
  {
    var t, k := SortInts(s), |s| / 2;
    SortIntsAscending(s);
    SortIntsCounts(s, t[k]);
    MiddleCounts(t, k);
    SameInts(s, t, t[k]);
  }

  /** With three samples or more the gap is three times a value of the rhythm that at most half of
      the samples lie below and fewer than half above, clamped to five and thirty minutes. */
  lemma AutoGapFollowsMedian(v: seq<Req>)
    requires |Rhythm(v)| >= 3
    ensures exists m :: IsMedian(Rhythm(v), m) &&
              AutoGap(v) == (if 3 * m < GAP_MIN then GAP_MIN else if 3 * m > GAP_MAX then GAP_MAX else 3 * m)
  {
    MiddleIsMedian(Rhythm(v));
  }

  // ---- separation and coverage ----

  predicate Inside(s: Session, r: Req) {
    s.start <= r.start && r.end <= s.end
  }

  ghost predicate Apart(ss: seq<Session>, gap: int) {
    && (forall i :: 0 <= i < |ss| ==> ss[i].start <= ss[i].end)
    && forall i, j :: 0 <= i < j < |ss| ==> ss[j].start - ss[i].end > gap
  }

  lemma ExtendApart(out: seq<Session>, r: Req, gap: nat)
    requires Apart(out, gap)
    ensures Apart(Extend(out, r, gap), gap)
  {
  }

  lemma {:induction false} CutApart(v: seq<Req>, gap: nat)
    ensures Apart(Cut(v, gap), gap)
  {
    if v != [] {
      CutApart(v[..|v| - 1], gap);
      ExtendApart(Cut(v[..|v| - 1], gap), v[|v| - 1], gap);
    }
  }

  ghost predicate Covered(ss: seq<Session>, x: Req) {
    exists k :: 0 <= k < |ss| && Inside(ss[k], x)
  }

  lemma ExtendCovers(out: seq<Session>, r: Req, gap: nat, x: Req)
    requires Covered(out, x) || x == r
    requires out != [] ==> out[|out| - 1].start <= r.start
    ensures Covered(Extend(out, r, gap), x)
  {
    var res := Extend(out, r, gap);
    if x == r {
      assert Inside(res[|res| - 1], x);
    } else {
      var k :| 0 <= k < |out| && Inside(out[k], x);
      assert Inside(res[k], x);
    }
  }

  lemma {:induction false} CutCovers(v: seq<Req>, gap: nat, x: Req)
    requires Sorted(v) && x in v
    ensures Covered(Cut(v, gap), x)
  {
    var front, r := v[..|v| - 1], v[|v| - 1];
    assert v == front + [r];
    if front != [] {
      SortedPrefix(front, r);
      OpenPeriod(front, gap);
      assert KeyLe(front[|front| - 1], r);
    }
    if x in front {
      CutCovers(front, gap, x);
    }
    ExtendCovers(Cut(front, gap), r, gap, x);
  }

  /** Requests within `gap` of each other cannot sit in different periods. */
  lemma SameHome(ss: seq<Session>, gap: nat, i: nat, j: nat, a: Req, b: Req)
    requires Apart(ss, gap) && i < |ss| && j < |ss|
    requires Inside(ss[i], a) && Inside(ss[j], b) && Near(a, b, gap)
    ensures i == j
  {
  }

  // ---- periods are connected components ----

  predicate Near(a: Req, b: Req, gap: nat) {
    a.start - b.end <= gap && b.start - a.end <= gap
  }

  ghost predicate IsChain(bag: multiset<Req>, gap: nat, p: seq<Req>) {
    && (forall i :: 0 <= i < |p| ==> p[i] in bag)
    && forall i :: 0 <= i < |p| - 1 ==> Near(p[i], p[i + 1], gap)
  }

  ghost predicate ChainFromTo(bag: multiset<Req>, gap: nat, p: seq<Req>, a: Req, b: Req) {
    p != [] && p[0] == a && p[|p| - 1] == b && IsChain(bag, gap, p)
  }

  ghost predicate Linked(bag: multiset<Req>, gap: nat, a: Req, b: Req) {
    exists p :: ChainFromTo(bag, gap, p, a, b)
  }

  ghost predicate Together(ss: seq<Session>, a: Req, b: Req) {
    exists k :: 0 <= k < |ss| && Inside(ss[k], a) && Inside(ss[k], b)
  }

  lemma LinkedSymmetric(bag: multiset<Req>, gap: nat, a: Req, b: Req)
    requires Linked(bag, gap, a, b)
    ensures Linked(bag, gap, b, a)
  {
    var p :| ChainFromTo(bag, gap, p, a, b);
    var q := seq(|p|, i requires 0 <= i < |p| => p[|p| - 1 - i]);
    forall i | 0 <= i < |q| - 1
      ensures Near(q[i], q[i + 1], gap)
    {
      assert Near(p[|p| - 2 - i], p[|p| - 2 - i + 1], gap);
    }
    assert ChainFromTo(bag, gap, q, b, a);
  }

  lemma LinkedGrows(bag: multiset<Req>, more: multiset<Req>, gap: nat, a: Req, b: Req)
    requires Linked(bag, gap, a, b) && bag <= more
    ensures Linked(more, gap, a, b)
  {
    var p :| ChainFromTo(bag, gap, p, a, b);
    assert forall i :: 0 <= i < |p| ==> p[i] in bag;
    assert ChainFromTo(more, gap, p, a, b);
  }

  lemma LinkedExtend(bag: multiset<Req>, gap: nat, a: Req, q: Req, r: Req)
    requires Linked(bag, gap, a, q) && Near(q, r, gap) && r in bag
    ensures Linked(bag, gap, a, r)
  {
    var p :| ChainFromTo(bag, gap, p, a, q);
    var p' := p + [r];
    forall i | 0 <= i < |p'| - 1
      ensures Near(p'[i], p'[i + 1], gap)
    {
      if i < |p| - 1 {
        assert Near(p[i], p[i + 1], gap);
      }
    }
    assert ChainFromTo(bag, gap, p', a, r);
  }

  lemma LatestEndInLast(ss: seq<Session>, gap: nat, k: nat, q: Req)
    requires Apart(ss, gap) && k < |ss| && Inside(ss[k], q) && q.end == ss[|ss| - 1].end
    ensures k == |ss| - 1
  {
  }

  /** A request that joins the open period is linked to everything already in it. */
  lemma JoinLinks(front: seq<Req>, r: Req, gap: nat, a: Req)
    requires Sorted(front + [r]) && Joins(front, r, gap)
    requires a in front && Inside(Cut(front, gap)[|Cut(front, gap)| - 1], a)
    requires AllLinked(front, gap)
    ensures Linked(multiset(front + [r]), gap, a, r)
  {
    SortedPrefix(front, r);
    OpenPeriod(front, gap);
    CutApart(front, gap);
    var out := Cut(front, gap);
    var i :| 0 <= i < |front| && front[i].end == MaxEnd(front);
    var q := front[i];
    CutCovers(front, gap, q);
    var k :| 0 <= k < |out| && Inside(out[k], q);
    LatestEndInLast(out, gap, k, q);
    assert Together(out, a, q);
    LinkedGrows(multiset(front), multiset(front + [r]), gap, a, q);
    assert KeyLe(q, r);
    assert r in multiset(front + [r]);
    LinkedExtend(multiset(front + [r]), gap, a, q, r);
  }

  ghost predicate AllLinked(v: seq<Req>, gap: nat) {
    forall x, y :: x in v && y in v && Together(Cut(v, gap), x, y) ==> Linked(multiset(v), gap, x, y)
  }

  /** A request and the last one, when they share a period. */
  lemma LastLinked(front: seq<Req>, r: Req, gap: nat, x: Req)
    requires Sorted(front + [r]) && x in front && AllLinked(front, gap)
    requires Together(Cut(front + [r], gap), x, r) || Together(Cut(front + [r], gap), r, x)
    ensures Linked(multiset(front + [r]), gap, x, r) && Linked(multiset(front + [r]), gap, r, x)
  {
    TogetherWithLast(front, r, gap, x);
    JoinLinks(front, r, gap, x);
    LinkedSymmetric(multiset(front + [r]), gap, x, r);
  }

  lemma EarlierLinked(front: seq<Req>, r: Req, gap: nat, a: Req, b: Req)
    requires Sorted(front + [r]) && a in front && b in front && AllLinked(front, gap)
    requires Together(Cut(front + [r], gap), a, b)
    ensures Linked(multiset(front + [r]), gap, a, b)
  {
    TogetherEarlier(front, r, gap, a, b);
    LinkedGrows(multiset(front), multiset(front + [r]), gap, a, b);
  }

  lemma SelfLinked(v: seq<Req>, gap: nat, a: Req)
    requires a in v
    ensures Linked(multiset(v), gap, a, a)
  {
    assert a in multiset(v);
    assert ChainFromTo(multiset(v), gap, [a], a, a);
  }

  lemma {:induction false} TogetherLinked(v: seq<Req>, gap: nat)
    requires Sorted(v)
    ensures AllLinked(v, gap)
  {
    if v != [] {
      var front, r := v[..|v| - 1], v[|v| - 1];
      assert v == front + [r];
      SortedPrefix(front, r);
      TogetherLinked(front, gap);
      forall a, b | a in v && b in v && Together(Cut(v, gap), a, b)
        ensures Linked(multiset(v), gap, a, b)
      {
        if a == b {
          SelfLinked(v, gap, a);
        } else if a in front && b in front {
          EarlierLinked(front, r, gap, a, b);
        } else if a in front {
          LastLinked(front, r, gap, a);
        } else {
          LastLinked(front, r, gap, b);
        }
      }
    }
  }

  lemma TogetherEarlier(front: seq<Req>, r: Req, gap: nat, a: Req, b: Req)
    requires Sorted(front + [r]) && a in front && b in front
    requires Together(Cut(front + [r], gap), a, b)
    ensures Sorted(front) && Together(Cut(front, gap), a, b)
  {
    SortedPrefix(front, r);
    OpenPeriod(front, gap);
    CutStep(front, r, gap);
    ExtendTogether(Cut(front, gap), r, gap, a, b);
  }

  lemma ExtendTogether(out: seq<Session>, r: Req, gap: nat, a: Req, b: Req)
    requires out != [] && out[|out| - 1].start <= out[|out| - 1].end
    requires a.end <= out[|out| - 1].end && b.end <= out[|out| - 1].end
    requires Together(Extend(out, r, gap), a, b)
    ensures Together(out, a, b)
  {
    var res := Extend(out, r, gap);
    var k :| 0 <= k < |res| && Inside(res[k], a) && Inside(res[k], b);
    assert k < |out|;
    assert Inside(out[k], a) && Inside(out[k], b);
  }

  lemma TogetherWithLast(front: seq<Req>, r: Req, gap: nat, x: Req)
    requires Sorted(front + [r]) && x in front
    requires Together(Cut(front + [r], gap), x, r) || Together(Cut(front + [r], gap), r, x)
    ensures Joins(front, r, gap)
    ensures Cut(front, gap) != [] && Inside(Cut(front, gap)[|Cut(front, gap)| - 1], x)
  {
    SortedPrefix(front, r);
    OpenPeriod(front, gap);
    CutStep(front, r, gap);
    CutApart(front + [r], gap);
    assert KeyLe(front[|front| - 1], r);
    ExtendWithLast(Cut(front, gap), r, gap, x);
  }

  lemma ExtendWithLast(out: seq<Session>, r: Req, gap: nat, x: Req)
    requires out != [] && out[|out| - 1].start <= out[|out| - 1].end
    requires out[|out| - 1].start <= r.start && x.end <= out[|out| - 1].end
    requires Apart(Extend(out, r, gap), gap)
    requires Together(Extend(out, r, gap), x, r) || Together(Extend(out, r, gap), r, x)
    ensures r.start - out[|out| - 1].end <= gap && Inside(out[|out| - 1], x)
  {
    var res := Extend(out, r, gap);
    var k :| 0 <= k < |res| && Inside(res[k], x) && Inside(res[k], r);
    SameHome(res, gap, k, |res| - 1, r, r);
  }

  lemma NearTogether(v: seq<Req>, gap: nat, a: Req, b: Req)
    requires Sorted(v) && a in v && b in v && Near(a, b, gap)
    ensures Together(Cut(v, gap), a, b)
  {
    CutApart(v, gap);
    CutCovers(v, gap, a);
    CutCovers(v, gap, b);
    var ss := Cut(v, gap);
    var i :| 0 <= i < |ss| && Inside(ss[i], a);
    var j :| 0 <= j < |ss| && Inside(ss[j], b);
    SameHome(ss, gap, i, j, a, b);
  }

  lemma TogetherTransitive(ss: seq<Session>, gap: nat, a: Req, b: Req, c: Req)
    requires Apart(ss, gap) && Together(ss, a, b) && Together(ss, b, c)
    ensures Together(ss, a, c)
  {
    var i :| 0 <= i < |ss| && Inside(ss[i], a) && Inside(ss[i], b);
    var j :| 0 <= j < |ss| && Inside(ss[j], b) && Inside(ss[j], c);
    SameHome(ss, gap, i, j, b, b);
  }

  lemma {:induction false} ChainTogether(v: seq<Req>, gap: nat, p: seq<Req>)
    requires Sorted(v) && p != [] && IsChain(multiset(v), gap, p)
    ensures Together(Cut(v, gap), p[0], p[|p| - 1])
  {
    assert forall i :: 0 <= i < |p| ==> p[i] in multiset(v);
    if |p| == 1 {
      NearTogether(v, gap, p[0], p[0]);
    } else {
      var q := p[..|p| - 1];
      assert forall i :: 0 <= i < |q| ==> q[i] == p[i];
      ChainTogether(v, gap, q);
      assert Near(p[|p| - 2], p[|p| - 2 + 1], gap);
      NearTogether(v, gap, p[|p| - 2], p[|p| - 1]);
      CutApart(v, gap);
      TogetherTransitive(Cut(v, gap), gap, p[0], p[|p| - 2], p[|p| - 1]);
    }
  }

  /** Two requests share an online period exactly when a chain of requests, each within
      `gap` of the next, leads from one to the other. */
  lemma PeriodsAreComponents(reqs: seq<Req>, gap: nat, a: Req, b: Req)
    requires a in reqs && b in reqs
    ensures Together(Periods(reqs, Some(gap)), a, b) <==> Linked(multiset(reqs), gap, a, b)
  {
    var v := SortByKey(reqs);
    SortSorts(reqs);
    assert a in multiset(reqs) && b in multiset(reqs);
    assert a in v && b in v;
    if Together(Cut(v, gap), a, b) {
      TogetherLinked(v, gap);
    }
    if Linked(multiset(reqs), gap, a, b) {
      var p :| ChainFromTo(multiset(reqs), gap, p, a, b);
      ChainTogether(v, gap, p);
    }
  }

  /** Nothing is lost or counted twice, periods are more than `gap` apart, every request is in one. */
  lemma PeriodsConserve(reqs: seq<Req>, gap: nat)
    ensures RequestsIn(Periods(reqs, Some(gap))) == |reqs|
    ensures FaceIn(Periods(reqs, Some(gap))) == FaceOf(reqs)
    ensures Apart(Periods(reqs, Some(gap)), gap)
    ensures forall x :: x in reqs ==> Covered(Periods(reqs, Some(gap)), x)
  {
    var v := SortByKey(reqs);
    SortSorts(reqs);
    CutConserves(v, gap);
    assert |multiset(v)| == |v| && |multiset(reqs)| == |reqs|;
    SumPermutes(v, reqs, (r: Req) => r.face);
    CutApart(v, gap);
    forall x | x in reqs
      ensures Covered(Cut(v, gap), x)
    {
      assert x in multiset(reqs);
      CutCovers(v, gap, x);
    }
  }

  // ---- coarsening ----

  predicate Within(s: Session, t: Session) {
    t.start <= s.start && s.end <= t.end
  }

  ghost predicate Coarser(fine: seq<Session>, coarse: seq<Session>) {
    forall i :: 0 <= i < |fine| ==> exists j :: 0 <= j < |coarse| && Within(fine[i], coarse[j])
  }

  lemma {:induction false} CutCoarsens(v: seq<Req>, gap: nat, wide: nat)
    requires Sorted(v) && gap <= wide
    ensures Coarser(Cut(v, gap), Cut(v, wide))
    ensures v != [] ==> Cut(v, wide) != [] && Cut(v, gap) != []
                        && Within(Cut(v, gap)[|Cut(v, gap)| - 1], Cut(v, wide)[|Cut(v, wide)| - 1])
  {
    if v != [] {
      var front, r := v[..|v| - 1], v[|v| - 1];
      assert v == front + [r];
      SortedPrefix(front, r);
      CutCoarsens(front, gap, wide);
      if front != [] {
        OpenPeriod(front, gap);
        OpenPeriod(front, wide);
        assert KeyLe(front[|front| - 1], r);
      }
      ExtendCoarser(Cut(front, gap), Cut(front, wide), r, gap, wide);
    }
  }

  lemma ExtendCoarser(fine: seq<Session>, coarse: seq<Session>, r: Req, gap: nat, wide: nat)
    requires gap <= wide && Coarser(fine, coarse)
    requires fine == [] <==> coarse == []
    requires fine != [] ==>
               var f, c := fine[|fine| - 1], coarse[|coarse| - 1];
               Within(f, c) && f.end == c.end && f.start <= f.end && c.start <= r.start
    ensures Coarser(Extend(fine, r, gap), Extend(coarse, r, wide))
    ensures var f, c := Extend(fine, r, gap), Extend(coarse, r, wide); Within(f[|f| - 1], c[|c| - 1])
  {
    var f, c := Extend(fine, r, gap), Extend(coarse, r, wide);
    assert forall j :: 0 <= j < |coarse| ==> Within(coarse[j], c[j]);
    assert Within(f[|f| - 1], c[|c| - 1]);
    forall i | 0 <= i < |f|
      ensures exists j :: 0 <= j < |c| && Within(f[i], c[j])
    {
      if i < |f| - 1 {
        var j :| 0 <= j < |coarse| && Within(fine[i], coarse[j]);
        assert Within(f[i], c[j]);
      }
    }
  }

  lemma {:induction false} CutTotalsCoarsen(v: seq<Req>, gap: nat, wide: nat)
    requires Sorted(v) && gap <= wide
    ensures |Cut(v, wide)| <= |Cut(v, gap)|
    ensures Online(Cut(v, gap)) <= Online(Cut(v, wide))
  {
    if v != [] {
      var front, r := v[..|v| - 1], v[|v| - 1];
      assert v == front + [r];
      SortedPrefix(front, r);
      CutTotalsCoarsen(front, gap, wide);
      GrowthIsExact(front, r, gap);
      GrowthIsExact(front, r, wide);
    }
  }

  /** A larger gap never splits a period, never adds one and never shortens online time. */
  lemma WiderGapCoarsens(reqs: seq<Req>, gap: nat, wide: nat)
    requires gap <= wide
    ensures Coarser(Periods(reqs, Some(gap)), Periods(reqs, Some(wide)))
    ensures |Periods(reqs, Some(wide))| <= |Periods(reqs, Some(gap))|
    ensures Online(Periods(reqs, Some(gap))) <= Online(Periods(reqs, Some(wide)))
  {
    SortSorts(reqs);
    CutCoarsens(SortByKey(reqs), gap, wide);
    CutTotalsCoarsen(SortByKey(reqs), gap, wide);
  }

  // ---- the rhythm, by neighbouring starts ----

  /** How much later the next request starts. */
  function StepAt(v: seq<Req>, i: int): (ms: int)
    requires 0 <= i < |v| - 1
  {
    v[i + 1].start - v[i].start
  }

  /** The places where the next request starts exactly `t` later. */
  function StepsOf(v: seq<Req>, t: int): (places: set<int>) {
    set i | 0 <= i < |v| - 1 && StepAt(v, i) == t
  }

  lemma StepsGrow(v: seq<Req>, t: int)
    requires |v| >= 2
    ensures var n := |v| - 1; var front := v[..n];
            |StepsOf(v, t)| == |StepsOf(front, t)| + (if v[n].start - v[n - 1].start == t then 1 else 0)
  {
    var n := |v| - 1;
    var front := v[..n];
    assert forall i :: 0 <= i < n - 1 ==> StepAt(front, i) == StepAt(v, i);
    if StepAt(v, n - 1) == t {
      assert StepsOf(v, t) == StepsOf(front, t) + {n - 1};
    } else {
      assert StepsOf(v, t) == StepsOf(front, t);
    }
  }

  /** The samples are the steps between neighbouring starts that take some time and less than an hour, each
      as often as it occurs. */
  lemma {:induction false} RhythmCounts(v: seq<Req>, t: int)
    ensures multiset(Rhythm(v))[t] == if 0 < t < 3_600_000 then |StepsOf(v, t)| else 0
  {
    if |v| < 2 {
      assert StepsOf(v, t) == {};
    } else {
      var front, d := v[..|v| - 1], Max(v[|v| - 1].start - v[|v| - 2].start, 0);
      RhythmCounts(front, t);
      StepsGrow(v, t);
      assert multiset(Rhythm(front) + [d])[t] == multiset(Rhythm(front))[t] + (if d == t then 1 else 0);
    }
  }

  function Between(low: int, x: int, high: int): int {
    if x < low then low else if x > high then high else x
  }

  /** The gap that is used when none is given: ten minutes with fewer than three samples, otherwise three times
      a median of them, at least five and at most thirty minutes. The periods are those of that gap. */
  lemma AdaptiveGap(reqs: seq<Req>)
    ensures var v := SortByKey(reqs); var g := AutoGap(v);
            && Periods(reqs, None) == Periods(reqs, Some(g))
            && (|Rhythm(v)| < 3 ==> g == 600_000)
            && (|Rhythm(v)| >= 3 ==> exists m :: IsMedian(Rhythm(v), m) && g == Between(300_000, 3 * m, 1_800_000))
  {
    var v := SortByKey(reqs);
    if |Rhythm(v)| >= 3 {
      AutoGapFollowsMedian(v);
    }
  }

  // ---- periods are no longer than their requests ----

  ghost predicate Tight(s: Session, v: seq<Req>) {
    && (exists i :: 0 <= i < |v| && v[i].start == s.start)
    && exists i :: 0 <= i < |v| && v[i].end == s.end
  }

  lemma TightStays(s: Session, v: seq<Req>, r: Req)
    requires Tight(s, v)
    ensures Tight(s, v + [r])
  {
    var i :| 0 <= i < |v| && v[i].start == s.start;
    var j :| 0 <= j < |v| && v[j].end == s.end;
    assert (v + [r])[i] == v[i] && (v + [r])[j] == v[j];
  }

  lemma ExtendTight(out: seq<Session>, v: seq<Req>, r: Req, gap: nat, k: nat)
    requires (forall i :: 0 <= i < |out| ==> Tight(out[i], v)) && k < |Extend(out, r, gap)|
    ensures Tight(Extend(out, r, gap)[k], v + [r])
  {
    assert (v + [r])[|v|] == r;
    if k < |out| {
      TightStays(out[k], v, r);
      var i :| 0 <= i < |v + [r]| && (v + [r])[i].start == out[k].start;
      var j :| 0 <= j < |v + [r]| && (v + [r])[j].end == out[k].end;
    }
  }

  lemma {:induction false} CutTight(v: seq<Req>, gap: nat, k: nat)
    requires k < |Cut(v, gap)|
    ensures Tight(Cut(v, gap)[k], v)
  {
    if v != [] {
      var front, r := v[..|v| - 1], v[|v| - 1];
      assert v == front + [r];
      forall i | 0 <= i < |Cut(front, gap)|
        ensures Tight(Cut(front, gap)[i], front)
      {
        CutTight(front, gap, i);
      }
      ExtendTight(Cut(front, gap), front, r, gap, k);
    }
  }

  /** Every period starts with some request and ends with some request. */
  lemma PeriodsAreTight(reqs: seq<Req>, gap: nat, k: nat)
    requires k < |Periods(reqs, Some(gap))|
    ensures var s := Periods(reqs, Some(gap))[k];
            (exists a :: a in reqs && a.start == s.start) && exists b :: b in reqs && b.end == s.end
  {
    var v := SortByKey(reqs);
    CutTight(v, gap, k);
    var s := Cut(v, gap)[k];
    var i :| 0 <= i < |v| && v[i].start == s.start;
    var j :| 0 <= j < |v| && v[j].end == s.end;
    SameMembers(v, reqs);
    assert v[i] in v && v[j] in v;
  }
}
