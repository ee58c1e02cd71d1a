/** `aggregate`: per dimension value, sum the use of every key that took part.
    A per-key table is a list of entries with distinct keys; the source walks it in key order,
    and every figure here is an exact sum or maximum, so the order does not matter. */
module Aggregates {
  import opened Common
  import opened Requests
  import opened Sessions
  import opened Lanes
  import opened LaneTime

  datatype Agg = Agg(requests: nat, errors: nat, face: int, busy: int, online: nat,
                     sessions: nat, laneTime: nat, peak: nat, users: nat)

  const NOTHING := Agg(0, 0, 0, 0, 0, 0, 0, 0, 0)

  datatype Entry = Entry(key: string, reqs: seq<Req>)

  type Table = seq<Entry>

  // ---- bucketing ----

  function PushEntry(p: Table, r: Req): (res: Table) {
    if p == [] then [Entry(r.key, [r])]
    else
      var last := p[|p| - 1];
      if last.key == r.key then p[..|p| - 1] + [Entry(last.key, last.reqs + [r])]
      else PushEntry(p[..|p| - 1], r) + [last]
  }

  function Bucket(b: map<string, Table>, d: string): (p: Table) {
    if d in b then b[d] else []
  }

  function Push(b: map<string, Table>, d: string, r: Req): (res: map<string, Table>) {
    b[d := PushEntry(Bucket(b, d), r)]
  }

  /** Every (dimension value, request) pair, in the order the nested loop visits them. */
  function Visits(reqs: seq<Req>, dim: Req -> seq<string>): (es: seq<(string, Req)>) {
    if reqs == [] then []
    else Visits(reqs[..|reqs| - 1], dim) + Tagged(dim(reqs[|reqs| - 1]), reqs[|reqs| - 1])
  }

  function Tagged(ds: seq<string>, r: Req): (es: seq<(string, Req)>) {
    if ds == [] then [] else Tagged(ds[..|ds| - 1], r) + [(ds[|ds| - 1], r)]
  }

  function Group(es: seq<(string, Req)>): (b: map<string, Table>) {
    if es == [] then map[] else Push(Group(es[..|es| - 1]), es[|es| - 1].0, es[|es| - 1].1)
  }

  lemma GroupStep(es: seq<(string, Req)>, d: string, r: Req)
    ensures Group(es + [(d, r)]) == Push(Group(es), d, r)
  {
    assert (es + [(d, r)])[..|es|] == es;
  }

  lemma TaggedStep(es: seq<(string, Req)>, ds: seq<string>, d: string, r: Req)
    ensures es + Tagged(ds + [d], r) == es + Tagged(ds, r) + [(d, r)]
  {
    assert (ds + [d])[..|ds|] == ds;
  }

  method PushTags(before: map<string, Table>, ds: seq<string>, r: Req, ghost es: seq<(string, Req)>)
    returns (b: map<string, Table>)
    requires before == Group(es)
    ensures b == Group(es + Tagged(ds, r))
  {
    b := before;
    assert es + Tagged([], r) == es;
    for j := 0 to |ds|
      invariant b == Group(es + Tagged(ds[..j], r))
    {
      assert ds[..j + 1] == ds[..j] + [ds[j]];
      TaggedStep(es, ds[..j], ds[j], r);
      GroupStep(es + Tagged(ds[..j], r), ds[j], r);
      b := Push(b, ds[j], r);
    }
    assert ds[..|ds|] == ds;
  }

  method FillBuckets(reqs: seq<Req>, dim: Req -> seq<string>) returns (b: map<string, Table>)
    ensures b == Group(Visits(reqs, dim))
  {
    b := map[];
    for i := 0 to |reqs|
      invariant b == Group(Visits(reqs[..i], dim))
    {
      assert reqs[..i + 1][..i] == reqs[..i];
      b := PushTags(b, dim(reqs[i]), reqs[i], Visits(reqs[..i], dim));
    }
    assert reqs[..|reqs|] == reqs;
  }

  // ---- one dimension value ----

  function Failed(r: Req): (n: nat) {
    if r.status == 200 then 0 else 1
  }

  function AddReq(a: Agg, r: Req): (res: Agg) {
    a.(requests := a.requests + 1, errors := a.errors + Failed(r), face := a.face + r.face, busy := a.busy + Latency(r))
  }

  function AddReqs(a: Agg, v: seq<Req>): (res: Agg) {
    if v == [] then a else AddReq(AddReqs(a, v[..|v| - 1]), v[|v| - 1])
  }

  function AddUse(a: Agg, u: KeyUse): (res: Agg) {
    a.(online := a.online + u.online, sessions := a.sessions + u.sessions,
       laneTime := a.laneTime + u.laneTime, peak := Max(a.peak, u.lanes))
  }

  function Total(p: Table, gap: Option<nat>): (a: Agg) {
    if p == [] then NOTHING
    else
      AddKey(Total(p[..|p| - 1], gap), p[|p| - 1].reqs, gap)
  }

  /** One key's requests, and its use of lanes and time. */
  function AddKey(a: Agg, v: seq<Req>, gap: Option<nat>): (res: Agg) {
    AddUse(AddReqs(a, v), UseOf(v, gap))
  }

  function Summary(p: Table, gap: Option<nat>): (a: Agg) {
    Total(p, gap).(users := |p|)
  }

  method SumRequests(a: Agg, v: seq<Req>) returns (res: Agg)
    ensures res == AddReqs(a, v)
  {
    res := a;
    for i := 0 to |v|
      invariant res == AddReqs(a, v[..i])
    {
      assert v[..i + 1][..i] == v[..i];
      res := AddReq(res, v[i]);
    }
    assert v[..|v|] == v;
  }

  lemma TotalNext(p: Table, i: nat, gap: Option<nat>)
    requires i < |p|
    ensures Total(p[..i + 1], gap) == AddKey(Total(p[..i], gap), p[i].reqs, gap)
  {
    assert p[..i + 1][..i] == p[..i];
  }

  method SumTable(p: Table, gap: Option<nat>) returns (a: Agg)
    ensures a == Summary(p, gap)
  {
    a := NOTHING;
    for i := 0 to |p|
      invariant a == Total(p[..i], gap)
    {
      TotalNext(p, i, gap);
      a := SumRequests(a, p[i].reqs);
      var u := KeyOnlineAndLanes(p[i].reqs, gap);
      a := AddUse(a, u);
    }
    assert p[..|p|] == p;
    a := a.(users := |p|);
  }

  function Summaries(b: map<string, Table>, gap: Option<nat>): (out: map<string, Agg>)
    ensures out.Keys == b.Keys
  {
    map d | d in b :: Summary(b[d], gap)
  }

  method SumOne(b: map<string, Table>, gap: Option<nat>, d: string) returns (a: Agg)
    requires d in b
    ensures a == Summaries(b, gap)[d]
  {
    a := SumTable(b[d], gap);
  }

  method SumTables(b: map<string, Table>, gap: Option<nat>) returns (out: map<string, Agg>)
    ensures out == Summaries(b, gap)
  {
    ghost var want := Summaries(b, gap);
    out := map[];
    var todo := b.Keys;
    while todo != {}
      invariant todo <= b.Keys && out.Keys == b.Keys - todo
      invariant forall d :: d in out ==> out[d] == want[d]
      decreases todo
    {
      var d :| d in todo;
      var a := SumOne(b, gap, d);
      out := out[d := a];
      todo := todo - {d};
    }
  }

  method Aggregate(reqs: seq<Req>, dim: Req -> seq<string>, gap: Option<nat>) returns (out: map<string, Agg>)
    ensures out == Summaries(Group(Visits(reqs, dim)), gap)
  {
    var b := FillBuckets(reqs, dim);
    out := SumTables(b, gap);
  }

  // ---- bounds that survive summing over keys ----

  /** Requests that did not end with status 200. */
  function ErrorsIn(v: seq<Req>): (n: nat) {
    if v == [] then 0 else ErrorsIn(v[..|v| - 1]) + (if v[|v| - 1].status != 200 then 1 else 0)
  }

  lemma {:induction false} AddReqsKeeps(a: Agg, v: seq<Req>)
    ensures var res := AddReqs(a, v);
            && res.requests == a.requests + |v|
            && res.face == a.face + FaceOf(v)
            && res.busy == a.busy + BusyOf(v)
            && res.errors == a.errors + ErrorsIn(v)
            && res == a.(requests := res.requests, errors := res.errors, face := res.face, busy := res.busy)
  {
    if v != [] {
      var front, r := v[..|v| - 1], v[|v| - 1];
      assert v == front + [r];
      AddReqsKeeps(a, front);
      SumStep(front, r, (r: Req) => r.face);
      SumStep(front, r, (r: Req) => Latency(r));
    }
  }

  lemma MulBound(peak: nat, lanes: nat, peak': nat, x: nat, y: nat)
    requires peak <= peak' && lanes <= peak'
    ensures peak * x + lanes * y <= peak' * (x + y)
  {
    assert peak' * (x + y) == peak' * x + peak' * y;
    MulMono(peak, peak', x);
    MulMono(lanes, peak', y);
  }

  lemma MulMono(a: nat, b: nat, x: nat)
    requires a <= b
    ensures a * x <= b * x
  {
    assert b * x - a * x == (b - a) * x;
  }

  predicate Bounded(a: Agg) {
    a.busy <= a.laneTime && a.online <= a.laneTime <= a.peak * a.online
  }

  lemma AddKeyBounded(a: Agg, v: seq<Req>, u: KeyUse)
    requires Bounded(a) && BusyOf(v) <= u.laneTime && u.online <= u.laneTime <= u.lanes * u.online
    ensures Bounded(AddUse(AddReqs(a, v), u))
  {
    AddReqsKeeps(a, v);
    MulBound(a.peak, u.lanes, Max(a.peak, u.lanes), a.online, u.online);
  }

  lemma {:induction false} TotalBounds(p: Table, gap: Option<nat>)
    ensures Bounded(Total(p, gap))
  {
    if p != [] {
      var last := p[|p| - 1].reqs;
      TotalBounds(p[..|p| - 1], gap);
      KeyUseBounds(last, gap);
      AddKeyBounded(Total(p[..|p| - 1], gap), last, UseOf(last, gap));
    }
  }

  function Hours(ms: int): real {
    ms as real / 3_600_000.0
  }

  function AvgConcurrency(a: Agg): (c: Option<real>) {
    if Hours(a.online) > 0.000001 then Some(Hours(a.laneTime) / Hours(a.online)) else None
  }

  lemma RatioBounds(online: int, lane: int, peak: int)
    requires 0 < online <= lane <= peak * online
    ensures 1.0 <= Hours(lane) / Hours(online) <= peak as real
  {
    var q := Hours(lane) / Hours(online);
    assert q * online as real == lane as real;
    assert (peak * online) as real == peak as real * online as real;
    assert (peak as real - q) * online as real >= 0.0;
    assert (q - 1.0) * online as real >= 0.0;
  }

  /** The reported average concurrency lies between 1 and the peak, over all keys together. */
  lemma AverageWithinPeak(p: Table, gap: Option<nat>)
    ensures var a := Summary(p, gap);
            && Bounded(a)
            && (AvgConcurrency(a).Some? ==> 1.0 <= AvgConcurrency(a).value <= a.peak as real)
  {
    TotalBounds(p, gap);
    var a := Total(p, gap);
    if Hours(a.online) > 0.000001 {
      RatioBounds(a.online, a.laneTime, a.peak);
    }
  }

  function LaneCounts(p: Table, gap: Option<nat>): (ns: seq<nat>)
    ensures |ns| == |p|
  {
    if p == [] then [] else LaneCounts(p[..|p| - 1], gap) + [UseOf(p[|p| - 1].reqs, gap).lanes]
  }

  /** `n` is the lane count of the last key. */
  lemma PeakStep(p: Table, gap: Option<nat>) returns (n: nat)
    requires p != []
    ensures Total(p, gap).peak == Max(Total(p[..|p| - 1], gap).peak, n)
    ensures LaneCounts(p, gap) == LaneCounts(p[..|p| - 1], gap) + [n]
  {
    n := UseOf(p[|p| - 1].reqs, gap).lanes;
    AddReqsKeeps(Total(p[..|p| - 1], gap), p[|p| - 1].reqs);
  }

  lemma MaxOfMore(ns: seq<nat>, n: nat, peak: nat)
    requires (forall x :: x in ns ==> x <= peak) && (if ns == [] then peak == 0 else peak in ns)
    ensures (forall x :: x in ns + [n] ==> x <= Max(peak, n)) && Max(peak, n) in ns + [n]
  {
  }

  /** The reported peak is the largest lane count of any key. */
  lemma {:induction false} PeakIsLargest(p: Table, gap: Option<nat>)
    ensures forall n :: n in LaneCounts(p, gap) ==> n <= Total(p, gap).peak
    ensures if p == [] then Total(p, gap).peak == 0 else Total(p, gap).peak in LaneCounts(p, gap)
  {
    if p != [] {
      var front := p[..|p| - 1];
      PeakIsLargest(front, gap);
      var n := PeakStep(p, gap);
      MaxOfMore(LaneCounts(front, gap), n, Total(front, gap).peak);
    }
  }

  // ---- conservation through the buckets ----

  /** Requests of `d`, once for each time `dim` names `d`. */
  function VisitsOf(es: seq<(string, Req)>, d: string): (v: seq<Req>) {
    if es == [] then []
    else VisitsOf(es[..|es| - 1], d) + (if es[|es| - 1].0 == d then [es[|es| - 1].1] else [])
  }

  function Keys(p: Table): (ks: set<string>) {
    if p == [] then {} else Keys(p[..|p| - 1]) + {p[|p| - 1].key}
  }

  ghost predicate DistinctKeys(p: Table) {
    p != [] ==> DistinctKeys(p[..|p| - 1]) && p[|p| - 1].key !in Keys(p[..|p| - 1])
  }

  ghost predicate OwnRequests(p: Table) {
    forall i, r :: 0 <= i < |p| && r in p[i].reqs ==> r.key == p[i].key
  }

  function All(p: Table): (m: multiset<Req>) {
    if p == [] then multiset{} else All(p[..|p| - 1]) + multiset(p[|p| - 1].reqs)
  }

  lemma {:induction false} PushEntryKeys(p: Table, r: Req)
    requires DistinctKeys(p)
    ensures DistinctKeys(PushEntry(p, r)) && Keys(PushEntry(p, r)) == Keys(p) + {r.key}
  {
    var res := PushEntry(p, r);
    if p != [] {
      var front := p[..|p| - 1];
      if p[|p| - 1].key == r.key {
        assert res[..|res| - 1] == front;
      } else {
        PushEntryKeys(front, r);
        assert res[..|res| - 1] == PushEntry(front, r);
      }
    }
  }

  lemma {:induction false} PushEntryKeeps(p: Table, r: Req)
    requires OwnRequests(p)
    ensures OwnRequests(PushEntry(p, r))
    ensures All(PushEntry(p, r)) == All(p) + multiset{r}
  {
    var res := PushEntry(p, r);
    if p != [] {
      var front, last := p[..|p| - 1], p[|p| - 1];
      if last.key == r.key {
        assert res[..|res| - 1] == front;
      } else {
        PushEntryKeeps(front, r);
        assert res[..|res| - 1] == PushEntry(front, r);
      }
    }
  }

  ghost predicate Filed(p: Table, v: seq<Req>) {
    DistinctKeys(p) && OwnRequests(p) && All(p) == multiset(v)
  }

  lemma PushFiled(p: Table, v: seq<Req>, r: Req)
    requires Filed(p, v)
    ensures Filed(PushEntry(p, r), v + [r])
  {
    PushEntryKeeps(p, r);
    PushEntryKeys(p, r);
  }

  lemma {:induction false} GroupFiles(es: seq<(string, Req)>, d: string)
    ensures Filed(Bucket(Group(es), d), VisitsOf(es, d))
  {
    if es != [] {
      var front, e := es[..|es| - 1], es[|es| - 1];
      GroupFiles(front, d);
      if e.0 == d {
        PushFiled(Bucket(Group(front), d), VisitsOf(front, d), e.1);
      } else {
        assert VisitsOf(es, d) == VisitsOf(front, d);
      }
    }
  }

  lemma {:induction false} TotalCounts(p: Table, gap: Option<nat>, v: seq<Req>)
    requires All(p) == multiset(v)
    ensures var a := Total(p, gap); a.requests == |v| && a.face == FaceOf(v) && a.busy == BusyOf(v)
  {
    var listed := Listed(p);
    ListedCounts(p, gap);
    assert |multiset(v)| == |v| && |multiset(listed)| == |listed|;
    SumPermutes(listed, v, (r: Req) => r.face);
    SumPermutes(listed, v, (r: Req) => Latency(r));
  }

  function Listed(p: Table): (v: seq<Req>)
    ensures multiset(v) == All(p)
  {
    if p == [] then [] else Listed(p[..|p| - 1]) + p[|p| - 1].reqs
  }

  lemma {:induction false} SumConcat(v: seq<Req>, w: seq<Req>, f: Req -> int)
    ensures SumOf(v + w, f) == SumOf(v, f) + SumOf(w, f)
  {
    if w == [] {
      assert v + w == v;
    } else {
      var front, r := w[..|w| - 1], w[|w| - 1];
      SumConcat(v, front, f);
      assert v + w == v + front + [r];
      SumStep(v + front, r, f);
    }
  }

  lemma {:induction false} ListedCounts(p: Table, gap: Option<nat>)
    ensures var a, v := Total(p, gap), Listed(p);
            a.requests == |v| && a.face == FaceOf(v) && a.busy == BusyOf(v)
  {
    if p != [] {
      var front, last := p[..|p| - 1], p[|p| - 1].reqs;
      ListedCounts(front, gap);
      AddReqsKeeps(Total(front, gap), last);
      SumConcat(Listed(front), last, (r: Req) => r.face);
      SumConcat(Listed(front), last, (r: Req) => Latency(r));
    }
  }

  /** No request is lost, doubled or filed under a foreign key: request count, face value and busy
      time of a dimension value are those of the requests tagged with it. */
  lemma AggregateConserves(reqs: seq<Req>, dim: Req -> seq<string>, d: string, gap: Option<nat>)
    ensures var p, v := Bucket(Group(Visits(reqs, dim)), d), VisitsOf(Visits(reqs, dim), d);
            var a := Summary(p, gap);
            && DistinctKeys(p) && OwnRequests(p) && a.users == |p|
            && a.requests == |v| && a.face == FaceOf(v) && a.busy == BusyOf(v)
  {
    var es := Visits(reqs, dim);
    GroupFiles(es, d);
    TotalCounts(Bucket(Group(es), d), gap, VisitsOf(es, d));
  }

  // ---- what the figures of a dimension value are ----

  /** How often a list names `d`. */
  function Named(ds: seq<string>, d: string): (n: nat) {
    if ds == [] then 0 else Named(ds[..|ds| - 1], d) + (if ds[|ds| - 1] == d then 1 else 0)
  }

  function Times(r: Req, n: nat): (v: seq<Req>) {
    if n == 0 then [] else Times(r, n - 1) + [r]
  }

  /** The requests tagged with `d`, in their order, each as often as it names `d`. */
  function TaggedWith(reqs: seq<Req>, dim: Req -> seq<string>, d: string): (v: seq<Req>) {
    if reqs == [] then []
    else TaggedWith(reqs[..|reqs| - 1], dim, d) + Times(reqs[|reqs| - 1], Named(dim(reqs[|reqs| - 1]), d))
  }

  lemma {:induction false} VisitsConcat(es: seq<(string, Req)>, fs: seq<(string, Req)>, d: string)
    ensures VisitsOf(es + fs, d) == VisitsOf(es, d) + VisitsOf(fs, d)
  {
    if fs == [] {
      assert es + fs == es;
    } else {
      VisitsConcat(es, fs[..|fs| - 1], d);
      assert (es + fs)[..|es + fs| - 1] == es + fs[..|fs| - 1];
    }
  }

  lemma {:induction false} TaggedTimes(ds: seq<string>, r: Req, d: string)
    ensures VisitsOf(Tagged(ds, r), d) == Times(r, Named(ds, d))
  {
    if ds != [] {
      TaggedTimes(ds[..|ds| - 1], r, d);
      VisitsConcat(Tagged(ds[..|ds| - 1], r), [(ds[|ds| - 1], r)], d);
      assert [(ds[|ds| - 1], r)][..0] == [];
      assert VisitsOf([(ds[|ds| - 1], r)], d) == if ds[|ds| - 1] == d then [r] else [];
    }
  }

  lemma {:induction false} VisitsAreTagged(reqs: seq<Req>, dim: Req -> seq<string>, d: string)
    ensures VisitsOf(Visits(reqs, dim), d) == TaggedWith(reqs, dim, d)
  {
    if reqs != [] {
      var front, r := reqs[..|reqs| - 1], reqs[|reqs| - 1];
      VisitsAreTagged(front, dim, d);
      VisitsConcat(Visits(front, dim), Tagged(dim(r), r), d);
      TaggedTimes(dim(r), r, d);
    }
  }

  function OfKey(v: seq<Req>, k: string): (w: seq<Req>) {
    if v == [] then [] else OfKey(v[..|v| - 1], k) + (if v[|v| - 1].key == k then [v[|v| - 1]] else [])
  }

  /** The keys that occur, each once. */
  function KeysIn(v: seq<Req>): (ks: seq<string>)
    ensures forall i, j :: 0 <= i < j < |ks| ==> ks[i] != ks[j]
    ensures forall k :: k in ks <==> exists i :: 0 <= i < |v| && v[i].key == k
  {
    if v == [] then []
    else
      var front, k := KeysIn(v[..|v| - 1]), v[|v| - 1].key;
      assert forall i :: 0 <= i < |v| - 1 ==> v[i] == v[..|v| - 1][i];
      if k in front then front else [k] + front
  }

  /** Entry `i` holds exactly the requests of key `i`, in their order. */
  ghost predicate Sorts(p: Table, v: seq<Req>) {
    && |p| == |KeysIn(v)|
    && forall i :: 0 <= i < |p| ==> p[i] == Entry(KeysIn(v)[i], OfKey(v, KeysIn(v)[i]))
  }

  lemma {:induction false} PushNew(p: Table, r: Req)
    requires forall i :: 0 <= i < |p| ==> p[i].key != r.key
    ensures PushEntry(p, r) == [Entry(r.key, [r])] + p
  {
    if p != [] {
      PushNew(p[..|p| - 1], r);
      assert p == p[..|p| - 1] + [p[|p| - 1]];
    }
  }

  lemma {:induction false} PushOld(p: Table, r: Req, i: nat)
    requires i < |p| && p[i].key == r.key && forall j :: i < j < |p| ==> p[j].key != r.key
    ensures PushEntry(p, r) == p[i := Entry(r.key, p[i].reqs + [r])]
  {
    var n := |p| - 1;
    if i < n {
      PushOld(p[..n], r, i);
      assert p[i := Entry(r.key, p[i].reqs + [r])] == p[..n][i := Entry(r.key, p[i].reqs + [r])] + [p[n]];
    }
  }

  lemma KeysStep(v: seq<Req>, r: Req)
    ensures KeysIn(v + [r]) == if r.key in KeysIn(v) then KeysIn(v) else [r.key] + KeysIn(v)
    ensures forall k :: OfKey(v + [r], k) == OfKey(v, k) + (if r.key == k then [r] else [])
  {
    assert (v + [r])[..|v|] == v;
  }

  lemma {:induction false} NoneOfKey(v: seq<Req>, k: string)
    requires forall i :: 0 <= i < |v| ==> v[i].key != k
    ensures OfKey(v, k) == []
  {
    if v != [] {
      NoneOfKey(v[..|v| - 1], k);
    }
  }

  lemma PushOldSorts(p: Table, v: seq<Req>, r: Req, i: nat)
    requires Sorts(p, v) && i < |p| && KeysIn(v)[i] == r.key
    ensures Sorts(PushEntry(p, r), v + [r])
  {
    KeysStep(v, r);
    PushOld(p, r, i);
  }

  lemma PushNewSorts(p: Table, v: seq<Req>, r: Req)
    requires Sorts(p, v) && r.key !in KeysIn(v)
    ensures Sorts(PushEntry(p, r), v + [r])
  {
    var ks := KeysIn(v);
    assert forall i :: 0 <= i < |p| ==> p[i].key == ks[i] && ks[i] in ks;
    KeysStep(v, r);
    PushNew(p, r);
    NoneOfKey(v, r.key);
  }

  lemma PushSorts(p: Table, v: seq<Req>, r: Req)
    requires Sorts(p, v)
    ensures Sorts(PushEntry(p, r), v + [r])
  {
    if r.key in KeysIn(v) {
      var i :| 0 <= i < |KeysIn(v)| && KeysIn(v)[i] == r.key;
      PushOldSorts(p, v, r, i);
    } else {
      PushNewSorts(p, v, r);
    }
  }

  lemma {:induction false} GroupSorts(es: seq<(string, Req)>, d: string)
    ensures Sorts(Bucket(Group(es), d), VisitsOf(es, d))
  {
    if es != [] {
      var front, e := es[..|es| - 1], es[|es| - 1];
      GroupSorts(front, d);
      if e.0 == d {
        PushSorts(Bucket(Group(front), d), VisitsOf(front, d), e.1);
      } else {
        assert VisitsOf(es, d) == VisitsOf(front, d);
      }
    }
  }

  // ---- sums over keys, from the requests alone ----

  /** Online time: the lengths of each key's periods. */
  function OnlineOver(v: seq<Req>, ks: seq<string>, gap: Option<nat>): (ms: nat) {
    if ks == [] then 0
    else OnlineOver(v, ks[..|ks| - 1], gap) + Online(Periods(OfKey(v, ks[|ks| - 1]), gap))
  }

  function PeriodsOver(v: seq<Req>, ks: seq<string>, gap: Option<nat>): (n: nat) {
    if ks == [] then 0
    else PeriodsOver(v, ks[..|ks| - 1], gap) + |Periods(OfKey(v, ks[|ks| - 1]), gap)|
  }

  /** Lane time: the lengths of the periods of each key's lanes, cut with the gap used for the key. */
  function LaneTimeOver(v: seq<Req>, ks: seq<string>, gap: Option<nat>): (ms: nat) {
    if ks == [] then 0
    else
      var w := OfKey(v, ks[|ks| - 1]);
      LaneTimeOver(v, ks[..|ks| - 1], gap) + TimeOf(LanesOf(w), EffectiveGap(SortByKey(w), gap))
  }

  lemma AddKeyMeans(a: Agg, w: seq<Req>, gap: Option<nat>)
    ensures var b := AddKey(a, w, gap);
            && b.online == a.online + Online(Periods(w, gap))
            && b.sessions == a.sessions + |Periods(w, gap)|
            && b.laneTime == a.laneTime + TimeOf(LanesOf(w), EffectiveGap(SortByKey(w), gap))
  {
    AddReqsKeeps(a, w);
  }

  lemma AddKeyErrors(a: Agg, w: seq<Req>, gap: Option<nat>)
    ensures AddKey(a, w, gap).errors == a.errors + ErrorsIn(w)
  {
    AddReqsKeeps(a, w);
  }

  /** The figures over keys, as sums over the requests alone. */
  ghost predicate SumsOver(a: Agg, v: seq<Req>, ks: seq<string>, gap: Option<nat>) {
    && a.online == OnlineOver(v, ks, gap) && a.sessions == PeriodsOver(v, ks, gap)
    && a.laneTime == LaneTimeOver(v, ks, gap)
  }

  lemma OverStep(v: seq<Req>, ks: seq<string>, k: string, gap: Option<nat>)
    ensures var w := OfKey(v, k);
            && OnlineOver(v, ks + [k], gap) == OnlineOver(v, ks, gap) + Online(Periods(w, gap))
            && PeriodsOver(v, ks + [k], gap) == PeriodsOver(v, ks, gap) + |Periods(w, gap)|
            && LaneTimeOver(v, ks + [k], gap)
               == LaneTimeOver(v, ks, gap) + TimeOf(LanesOf(w), EffectiveGap(SortByKey(w), gap))
  {
    assert (ks + [k])[..|ks|] == ks;
  }

  lemma SumsStep(a: Agg, v: seq<Req>, ks: seq<string>, k: string, gap: Option<nat>)
    requires SumsOver(a, v, ks, gap)
    ensures SumsOver(AddKey(a, OfKey(v, k), gap), v, ks + [k], gap)
  {
    AddKeyMeans(a, OfKey(v, k), gap);
    OverStep(v, ks, k, gap);
  }

  /** The table of the given keys. */
  function TableOf(v: seq<Req>, ks: seq<string>): (p: Table)
    ensures |p| == |ks| && forall i :: 0 <= i < |ks| ==> p[i] == Entry(ks[i], OfKey(v, ks[i]))
  {
    if ks == [] then [] else TableOf(v, ks[..|ks| - 1]) + [Entry(ks[|ks| - 1], OfKey(v, ks[|ks| - 1]))]
  }

  lemma TotalAppend(p: Table, k: string, w: seq<Req>, gap: Option<nat>)
    ensures Total(p + [Entry(k, w)], gap) == AddKey(Total(p, gap), w, gap)
  {
    assert (p + [Entry(k, w)])[..|p|] == p;
  }

  lemma {:induction false} TotalSums(v: seq<Req>, ks: seq<string>, gap: Option<nat>)
    ensures SumsOver(Total(TableOf(v, ks), gap), v, ks, gap)
  {
    if ks != [] {
      var front, k := ks[..|ks| - 1], ks[|ks| - 1];
      TotalSums(v, front, gap);
      SumsNext(v, front, k, gap);
      assert ks == front + [k];
    }
  }

  lemma SumsNext(v: seq<Req>, ks: seq<string>, k: string, gap: Option<nat>)
    requires SumsOver(Total(TableOf(v, ks), gap), v, ks, gap)
    ensures SumsOver(Total(TableOf(v, ks + [k]), gap), v, ks + [k], gap)
  {
    assert TableOf(v, ks + [k]) == TableOf(v, ks) + [Entry(k, OfKey(v, k))];
    TotalAppend(TableOf(v, ks), k, OfKey(v, k), gap);
    SumsStep(Total(TableOf(v, ks), gap), v, ks, k, gap);
  }

  lemma {:induction false} ErrorsConcat(v: seq<Req>, w: seq<Req>)
    ensures ErrorsIn(v + w) == ErrorsIn(v) + ErrorsIn(w)
  {
    if w == [] {
      assert v + w == v;
    } else {
      ErrorsConcat(v, w[..|w| - 1]);
      assert (v + w)[..|v + w| - 1] == v + w[..|w| - 1];
    }
  }

  lemma {:induction false} ErrorsAreSum(v: seq<Req>, f: Req -> int)
    requires forall r :: f(r) == if r.status != 200 then 1 else 0
    ensures ErrorsIn(v) == SumOf(v, f)
  {
    if v != [] {
      ErrorsAreSum(v[..|v| - 1], f);
    }
  }

  lemma ErrorsPermute(v: seq<Req>, w: seq<Req>)
    requires multiset(v) == multiset(w)
    ensures ErrorsIn(v) == ErrorsIn(w)
  {
    var f := (r: Req) => if r.status != 200 then 1 else 0;
    ErrorsAreSum(v, f);
    ErrorsAreSum(w, f);
    SumPermutes(v, w, f);
  }

  lemma {:induction false} TotalErrors(p: Table, gap: Option<nat>)
    ensures Total(p, gap).errors == ErrorsIn(Listed(p))
  {
    if p != [] {
      var front, last := p[..|p| - 1], p[|p| - 1].reqs;
      TotalErrors(front, gap);
      AddKeyErrors(Total(front, gap), last, gap);
      ErrorsConcat(Listed(front), last);
    }
  }

  lemma TableIsSorted(reqs: seq<Req>, dim: Req -> seq<string>, d: string)
    ensures var v := TaggedWith(reqs, dim, d); Bucket(Group(Visits(reqs, dim)), d) == TableOf(v, KeysIn(v))
    ensures All(Bucket(Group(Visits(reqs, dim)), d)) == multiset(TaggedWith(reqs, dim, d))
  {
    VisitsAreTagged(reqs, dim, d);
    GroupSorts(Visits(reqs, dim), d);
    GroupFiles(Visits(reqs, dim), d);
  }

  /** What every dimension value reports, from the requests tagged with it: online time, periods and lane
      time summed over its keys, how many keys there are, and how many requests failed. */
  lemma AggregateExact(reqs: seq<Req>, dim: Req -> seq<string>, d: string, gap: Option<nat>)
    ensures var a, v := Summary(Bucket(Group(Visits(reqs, dim)), d), gap), TaggedWith(reqs, dim, d);
            SumsOver(a, v, KeysIn(v), gap) && a.users == |KeysIn(v)| && a.errors == ErrorsIn(v)
  {
    var p, v := Bucket(Group(Visits(reqs, dim)), d), TaggedWith(reqs, dim, d);
    TableIsSorted(reqs, dim, d);
    TotalSums(v, KeysIn(v), gap);
    TotalErrors(p, gap);
    ErrorsPermute(Listed(p), v);
  }

  /** The average is reported from 4 ms of online time on, and times online time it is lane time. */
  lemma AverageExact(a: Agg)
    ensures AvgConcurrency(a).Some? <==> a.online >= 4
    ensures AvgConcurrency(a).Some? ==> AvgConcurrency(a).value * a.online as real == a.laneTime as real
  {
    if a.online >= 4 {
      var q := Hours(a.laneTime) / Hours(a.online);
      assert q * Hours(a.online) == Hours(a.laneTime);
    }
  }

  lemma {:induction false} LaneCountsOf(v: seq<Req>, ks: seq<string>, gap: Option<nat>)
    ensures forall i :: 0 <= i < |ks| ==> LaneCounts(TableOf(v, ks), gap)[i] == |LanesOf(OfKey(v, ks[i]))|
  {
    if ks != [] {
      LaneCountsOf(v, ks[..|ks| - 1], gap);
      assert TableOf(v, ks)[..|ks| - 1] == TableOf(v, ks[..|ks| - 1]);
    }
  }

  /** The largest lane count of any of the keys. */
  ghost predicate LargestLanes(peak: nat, v: seq<Req>, ks: seq<string>) {
    && (forall i :: 0 <= i < |ks| ==> |LanesOf(OfKey(v, ks[i]))| <= peak)
    && if ks == [] then peak == 0 else exists i :: 0 <= i < |ks| && peak == |LanesOf(OfKey(v, ks[i]))|
  }

  lemma PeakOfTable(v: seq<Req>, ks: seq<string>, gap: Option<nat>)
    ensures LargestLanes(Total(TableOf(v, ks), gap).peak, v, ks)
  {
    var ns, peak := LaneCounts(TableOf(v, ks), gap), Total(TableOf(v, ks), gap).peak;
    PeakIsLargest(TableOf(v, ks), gap);
    LaneCountsOf(v, ks, gap);
    LargestOf(v, ks, ns, peak);
  }

  lemma LargestOf(v: seq<Req>, ks: seq<string>, ns: seq<nat>, peak: nat)
    requires |ns| == |ks| && forall i :: 0 <= i < |ks| ==> ns[i] == |LanesOf(OfKey(v, ks[i]))|
    requires (forall n :: n in ns ==> n <= peak) && if ns == [] then peak == 0 else peak in ns
    ensures LargestLanes(peak, v, ks)
  {
    assert forall i :: 0 <= i < |ns| ==> ns[i] in ns;
  }

  /** The reported peak is the largest lane count of any key among the requests tagged with the value. */
  lemma PeakExact(reqs: seq<Req>, dim: Req -> seq<string>, d: string, gap: Option<nat>)
    ensures var a, v := Summary(Bucket(Group(Visits(reqs, dim)), d), gap), TaggedWith(reqs, dim, d);
            LargestLanes(a.peak, v, KeysIn(v))
  {
    TableIsSorted(reqs, dim, d);
    PeakOfTable(TaggedWith(reqs, dim, d), KeysIn(TaggedWith(reqs, dim, d)), gap);
  }
}
