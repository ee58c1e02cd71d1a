/** One analysed ledger row and the stable sort that both `sessionize` and
    `assign_lanes` start from. Times are integer milliseconds. */
module Requests {

  datatype RawReq = RawReq(start: int, end: int, key: string, model: string, status: nat, face: int)

  /** Rows come from `ReqFromRow`, which never lets a request end before it starts. */
  type Req = r: RawReq | r.start <= r.end witness RawReq(0, 0, "", "", 200, 0)

  function Max(a: int, b: int): int {
    if a < b then b else a
  }

  /** `ts` is the moment the row was booked, which is the end of the request. */
  function ReqFromRow(ts: int, latency: int, key: string, model: string, status: nat, face: int): (r: Req)
    ensures r.end == ts && Latency(r) == Max(latency, 0)
  {
    RawReq(ts - Max(latency, 0), ts, key, model, status, face)
  }

  function Latency(r: Req): (ms: nat) {
    Max(r.end - r.start, 0)
  }

  // ---- ordering by (start, end) ----

  predicate KeyLe(a: Req, b: Req) {
    a.start < b.start || (a.start == b.start && a.end <= b.end)
  }

  predicate SameKey(a: Req, b: Req) {
    a.start == b.start && a.end == b.end
  }

  ghost predicate Sorted(v: seq<Req>) {
    forall i, j :: 0 <= i < j < |v| ==> KeyLe(v[i], v[j])
  }

  function InsertByKey(s: seq<Req>, x: Req): (t: seq<Req>)
    ensures multiset(t) == multiset(s) + multiset{x}
  {
    if s == [] || KeyLe(s[|s| - 1], x) then s + [x]
    else
      assert s == s[..|s| - 1] + [s[|s| - 1]];
      InsertByKey(s[..|s| - 1], x) + [s[|s| - 1]]
  }

  lemma {:induction false} InsertSorted(s: seq<Req>, x: Req)
    requires Sorted(s)
    ensures Sorted(InsertByKey(s, x))
  {
    if s != [] && !KeyLe(s[|s| - 1], x) {
      var front, top := s[..|s| - 1], s[|s| - 1];
      InsertSorted(front, x);
      var t := InsertByKey(front, x);
      forall i | 0 <= i < |t|
        ensures KeyLe(t[i], top)
      {
        assert t[i] in multiset(t);
        assert t[i] in front || t[i] == x;
      }
    }
  }

  /** The stable sort by (start, end). */
  function SortByKey(v: seq<Req>): (s: seq<Req>)
    ensures multiset(s) == multiset(v)
  {
    if v == [] then []
    else
      assert v == v[..|v| - 1] + [v[|v| - 1]];
      InsertByKey(SortByKey(v[..|v| - 1]), v[|v| - 1])
  }

  lemma {:induction false} SortSorts(v: seq<Req>)
    ensures Sorted(SortByKey(v))
  {
    if v != [] {
      SortSorts(v[..|v| - 1]);
      InsertSorted(SortByKey(v[..|v| - 1]), v[|v| - 1]);
    }
  }

  lemma SortedPrefix(v: seq<Req>, r: Req)
    requires Sorted(v + [r])
    ensures Sorted(v)
    ensures forall x :: x in v ==> KeyLe(x, r)
  {
    assert forall i :: 0 <= i < |v| ==> (v + [r])[i] == v[i];
    assert (v + [r])[|v|] == r;
  }

  lemma InsertLast(s: seq<Req>, x: Req)
    requires forall y :: y in s ==> KeyLe(y, x)
    ensures InsertByKey(s, x) == s + [x]
  {
    if s != [] {
      assert s[|s| - 1] in s;
    }
  }

  lemma {:induction false} SortKeepsSorted(v: seq<Req>)
    requires Sorted(v)
    ensures SortByKey(v) == v
  {
    if v != [] {
      var front, x := v[..|v| - 1], v[|v| - 1];
      assert v == front + [x];
      SortedPrefix(front, x);
      SortKeepsSorted(front);
      InsertLast(front, x);
    }
  }

  /** The requests that tie with `x`, in the order listed. */
  function Ties(v: seq<Req>, x: Req): (ties: seq<Req>) {
    if v == [] then []
    else Ties(v[..|v| - 1], x) + (if SameKey(v[|v| - 1], x) then [v[|v| - 1]] else [])
  }

  lemma TiesStep(v: seq<Req>, r: Req, x: Req)
    ensures Ties(v + [r], x) == Ties(v, x) + (if SameKey(r, x) then [r] else [])
  {
    assert (v + [r])[..|v|] == v;
  }

  lemma {:induction false} InsertKeepsTies(s: seq<Req>, r: Req, x: Req)
    ensures Ties(InsertByKey(s, r), x) == Ties(s, x) + (if SameKey(r, x) then [r] else [])
  {
    if s == [] || KeyLe(s[|s| - 1], r) {
      TiesStep(s, r, x);
    } else {
      var front, top := s[..|s| - 1], s[|s| - 1];
      InsertKeepsTies(front, r, x);
      TiesStep(InsertByKey(front, r), top, x);
    }
  }

  /** Requests with equal keys keep their order. */
  lemma {:induction false} SortIsStable(v: seq<Req>, x: Req)
    ensures Ties(SortByKey(v), x) == Ties(v, x)
  {
    if v != [] {
      SortIsStable(v[..|v| - 1], x);
      InsertKeepsTies(SortByKey(v[..|v| - 1]), v[|v| - 1], x);
    }
  }

  method SortRequests(reqs: seq<Req>) returns (v: seq<Req>)
    ensures v == SortByKey(reqs) && Sorted(v) && multiset(v) == multiset(reqs)
    ensures forall x :: Ties(v, x) == Ties(reqs, x)
  {
    v := [];
    for i := 0 to |reqs|
      invariant v == SortByKey(reqs[..i])
    {
      assert reqs[..i + 1][..i] == reqs[..i];
      v := InsertByKey(v, reqs[i]);
    }
    assert reqs[..|reqs|] == reqs;
    SortSorts(reqs);
    forall x
      ensures Ties(v, x) == Ties(reqs, x)
    {
      SortIsStable(reqs, x);
    }
  }

  // ---- two sorted listings of the same bag differ only inside ties ----

  lemma LastOfSortedIsGreatest(v: seq<Req>, x: Req)
    requires Sorted(v) && x in v
    ensures KeyLe(x, v[|v| - 1])
  {
  }

  function Without(w: seq<Req>, k: nat): (u: seq<Req>)
    requires k < |w|
    ensures multiset(u) == multiset(w) - multiset{w[k]}
  {
    assert w == w[..k] + [w[k]] + w[k + 1..];
    w[..k] + w[k + 1..]
  }

  lemma WithoutStep(front: seq<Req>, b: Req, k: nat)
    requires k < |front|
    ensures (front + [b])[k] == front[k]
    ensures Without(front + [b], k) == Without(front, k) + [b]
  {
  }

  lemma WithoutSorted(w: seq<Req>, k: nat)
    requires k < |w| && Sorted(w)
    ensures Sorted(Without(w, k))
  {
    var u := Without(w, k);
    assert forall i :: 0 <= i < |u| ==> u[i] == w[if i < k then i else i + 1];
  }

  lemma DropLast(v: seq<Req>)
    requires v != []
    ensures multiset(v[..|v| - 1]) == multiset(v) - multiset{v[|v| - 1]}
  {
    assert v == v[..|v| - 1] + [v[|v| - 1]];
  }

  lemma SameMembers(v: seq<Req>, w: seq<Req>)
    requires multiset(v) == multiset(w)
    ensures forall x :: x in v <==> x in w
  {
    assert forall x :: x in v <==> x in multiset(v);
    assert forall x :: x in w <==> x in multiset(w);
  }

  /** The last element of one sorted listing can be found in the other with only ties after it. */
  lemma TiesAfter(v: seq<Req>, w: seq<Req>) returns (k: nat)
    requires v != [] && Sorted(v) && Sorted(w) && multiset(v) == multiset(w)
    ensures k < |w| && w[k] == v[|v| - 1]
    ensures forall j :: k <= j < |w| ==> SameKey(w[j], w[k])
    ensures multiset(Without(w, k)) == multiset(v[..|v| - 1])
  {
    var x := v[|v| - 1];
    SameMembers(v, w);
    DropLast(v);
    assert x in w;
    k :| 0 <= k < |w| && w[k] == x;
    forall j | k <= j < |w|
      ensures SameKey(w[j], x)
    {
      assert w[j] in w;
      LastOfSortedIsGreatest(v, w[j]);
    }
  }

  // ---- sums over a stream do not depend on its order ----

  function SumOf(v: seq<Req>, f: Req -> int): (total: int) {
    if v == [] then 0 else SumOf(v[..|v| - 1], f) + f(v[|v| - 1])
  }

  lemma SumStep(v: seq<Req>, r: Req, f: Req -> int)
    ensures SumOf(v + [r], f) == SumOf(v, f) + f(r)
  {
    assert (v + [r])[..|v|] == v;
  }

  lemma {:induction false} SumWithout(w: seq<Req>, k: nat, f: Req -> int)
    requires k < |w|
    ensures SumOf(w, f) == SumOf(Without(w, k), f) + f(w[k])
  {
    var front, b := w[..|w| - 1], w[|w| - 1];
    assert w == front + [b];
    SumStep(front, b, f);
    if k == |w| - 1 {
      assert Without(w, k) == front;
    } else {
      SumWithout(front, k, f);
      WithoutStep(front, b, k);
      SumStep(Without(front, k), b, f);
    }
  }

  lemma {:induction false} SumPermutes(v: seq<Req>, w: seq<Req>, f: Req -> int)
    requires multiset(v) == multiset(w)
    ensures SumOf(v, f) == SumOf(w, f)
  {
    if v == [] {
      assert |multiset(w)| == 0;
    } else {
      var x := v[|v| - 1];
      DropLast(v);
      SameMembers(v, w);
      assert x in w;
      var k :| 0 <= k < |w| && w[k] == x;
      SumPermutes(v[..|v| - 1], Without(w, k), f);
      SumWithout(w, k, f);
    }
  }

  function FaceOf(v: seq<Req>): (face: int) {
    SumOf(v, (r: Req) => r.face)
  }

  /** Total time the upstream was really working. */
  function BusyOf(v: seq<Req>): (ms: int) {
    SumOf(v, (r: Req) => Latency(r))
  }
}
