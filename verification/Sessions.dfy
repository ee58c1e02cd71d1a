/** `sessionize`: cut one key's request stream into online periods. */
module Sessions {
  import opened Common
  import opened Requests

  datatype Session = Session(start: int, end: int, requests: nat, face: int)

  function Length(s: Session): (ms: nat) {
    Max(s.end - s.start, 0)
  }

  /** One turn of the loop: join the last period when the request starts within `gap`
      of its last activity, otherwise open a new one. */
  function Extend(out: seq<Session>, r: Req, gap: int): (res: seq<Session>) {
    var n := |out|;
    if n > 0 && r.start - Max(out[n - 1].end, out[n - 1].start) <= gap then
      var s := out[n - 1];
      out[..n - 1] + [Session(s.start, Max(s.end, r.end), s.requests + 1, s.face + r.face)]
    else
      out + [Session(r.start, Max(r.end, r.start), 1, r.face)]
  }

  /** The periods of a stream already in (start, end) order. */
  function Cut(v: seq<Req>, gap: int): (out: seq<Session>) {
    if v == [] then [] else Extend(Cut(v[..|v| - 1], gap), v[|v| - 1], gap)
  }

  function Online(ss: seq<Session>): (ms: nat) {
    if ss == [] then 0 else Online(ss[..|ss| - 1]) + Length(ss[|ss| - 1])
  }

  // ---- the adaptive gap ----

  const GAP_MIN := 300_000
  const GAP_MAX := 1_800_000
  const GAP_DEFAULT := 600_000
  const HOUR := 3_600_000

  /** Differences between neighbouring starts that lie strictly between 0 and one hour. */
  function Rhythm(v: seq<Req>): (gaps: seq<int>) {
    if |v| < 2 then []
    else
      var d := Max(v[|v| - 1].start - v[|v| - 2].start, 0);
      Rhythm(v[..|v| - 1]) + (if 0 < d < HOUR then [d] else [])
  }

  function InsertInt(s: seq<int>, x: int): (t: seq<int>)
    ensures |t| == |s| + 1 && multiset(t) == multiset(s) + multiset{x}
  {
    if s == [] || s[|s| - 1] <= x then s + [x]
    else
      assert s == s[..|s| - 1] + [s[|s| - 1]];
      InsertInt(s[..|s| - 1], x) + [s[|s| - 1]]
  }

  function SortInts(s: seq<int>): (t: seq<int>)
    ensures |t| == |s| && multiset(t) == multiset(s)
  {
    if s == [] then []
    else
      assert s == s[..|s| - 1] + [s[|s| - 1]];
      InsertInt(SortInts(s[..|s| - 1]), s[|s| - 1])
  }

  /** Three times the median rhythm, clamped; too few samples fall back to ten minutes. */
  function AutoGap(v: seq<Req>): (gap: int)
    ensures GAP_MIN <= gap <= GAP_MAX
  {
    var gaps := Rhythm(v);
    if |gaps| < 3 then GAP_DEFAULT
    else
      var g := 3 * SortInts(gaps)[|gaps| / 2];
      if g < GAP_MIN then GAP_MIN else if g > GAP_MAX then GAP_MAX else g
  }

  function EffectiveGap(v: seq<Req>, gap: Option<nat>): (g: nat) {
    if gap.Some? then gap.value else AutoGap(v)
  }

  /** What `sessionize` returns, as a function of the unsorted stream. */
  function Periods(reqs: seq<Req>, gap: Option<nat>): (out: seq<Session>) {
    var v := SortByKey(reqs);
    Cut(v, EffectiveGap(v, gap))
  }

  /** The body of the loop: the request joins the last period or opens one. */
  method JoinOrOpen(out: seq<Session>, r: Req, gap: int) returns (res: seq<Session>)
    ensures res == Extend(out, r, gap)
  {
    var n := |out|;
    if n > 0 && r.start - Max(out[n - 1].end, out[n - 1].start) <= gap {
      var s := out[n - 1];
      res := out[..n - 1] + [s.(end := Max(s.end, r.end), requests := s.requests + 1, face := s.face + r.face)];
    } else {
      res := out + [Session(r.start, Max(r.end, r.start), 1, r.face)];
    }
  }

  method CutPeriods(v: seq<Req>, gap: int) returns (out: seq<Session>)
    ensures out == Cut(v, gap)
  {
    out := [];
    for i := 0 to |v|
      invariant out == Cut(v[..i], gap)
    {
      assert v[..i + 1] == v[..i] + [v[i]];
      CutStep(v[..i], v[i], gap);
      out := JoinOrOpen(out, v[i], gap);
    }
    assert v[..|v|] == v;
  }

  method Sessionize(reqs: seq<Req>, gap: Option<nat>) returns (out: seq<Session>, used: nat)
    ensures used == EffectiveGap(SortByKey(reqs), gap)
    ensures out == Periods(reqs, gap)
  {
    var v := SortRequests(reqs);
    used := EffectiveGap(v, gap);
    out := CutPeriods(v, used);
  }

  // ---- what the fold keeps ----

  function MaxEnd(v: seq<Req>): (m: int)
    requires v != []
    ensures forall i :: 0 <= i < |v| ==> v[i].end <= m
    ensures exists i :: 0 <= i < |v| && v[i].end == m
  {
    if |v| == 1 then v[0].end
    else
      var m := MaxEnd(v[..|v| - 1]);
      assert forall i :: 0 <= i < |v| - 1 ==> v[i] == v[..|v| - 1][i];
      if m < v[|v| - 1].end then v[|v| - 1].end else m
  }

  lemma CutStep(v: seq<Req>, r: Req, gap: int)
    ensures Cut(v + [r], gap) == Extend(Cut(v, gap), r, gap)
  {
    assert (v + [r])[..|v|] == v;
  }

  lemma MaxEndStep(v: seq<Req>, r: Req)
    requires v != []
    ensures MaxEnd(v + [r]) == Max(MaxEnd(v), r.end)
  {
    assert (v + [r])[..|v|] == v;
  }

  lemma ExtendOpen(out: seq<Session>, r: Req, gap: nat)
    requires out != [] ==> out[|out| - 1].start <= out[|out| - 1].end && out[|out| - 1].start <= r.start
    ensures Extend(out, r, gap) != []
    ensures var s := Extend(out, r, gap)[|Extend(out, r, gap)| - 1];
            && s.end == (if out == [] then r.end else Max(out[|out| - 1].end, r.end))
            && s.start <= r.start && s.start <= s.end
  {
  }

  /** The open period of a sorted stream ends at the latest end seen and starts at some request. */
  lemma {:induction false} OpenPeriod(v: seq<Req>, gap: nat)
    requires v != [] && Sorted(v)
    ensures Cut(v, gap) != []
    ensures var s := Cut(v, gap)[|Cut(v, gap)| - 1];
            s.end == MaxEnd(v) && s.start <= v[|v| - 1].start && s.start <= s.end
  {
    var front, r := v[..|v| - 1], v[|v| - 1];
    assert v == front + [r];
    CutStep(front, r, gap);
    if front != [] {
      SortedPrefix(front, r);
      OpenPeriod(front, gap);
      MaxEndStep(front, r);
      assert KeyLe(front[|front| - 1], r);
    } else {
      assert Cut(front, gap) == [];
    }
    ExtendOpen(Cut(front, gap), r, gap);
  }

  lemma OnlineStep(ss: seq<Session>, s: Session)
    ensures Online(ss + [s]) == Online(ss) + Length(s)
  {
    assert (ss + [s])[..|ss|] == ss;
  }

  predicate Joins(v: seq<Req>, r: Req, gap: nat) {
    v != [] && r.start - MaxEnd(v) <= gap
  }

  /** How much one more request adds to the online time. */
  function Growth(v: seq<Req>, r: Req, gap: nat): (ms: int) {
    if Joins(v, r, gap) then Max(0, r.end - MaxEnd(v)) else r.end - r.start
  }

  lemma OnlineJoin(out: seq<Session>, s: Session)
    requires out != []
    ensures Online(out[..|out| - 1] + [s]) == Online(out) - Length(out[|out| - 1]) + Length(s)
  {
    OnlineStep(out[..|out| - 1], s);
  }

  lemma OnlineExtend(out: seq<Session>, r: Req, gap: nat)
    requires out != [] ==> out[|out| - 1].start <= out[|out| - 1].end
    ensures var n := |out|; var joins := n > 0 && r.start - out[n - 1].end <= gap;
            && Online(Extend(out, r, gap))
               == Online(out) + (if joins then Max(0, r.end - out[n - 1].end) else r.end - r.start)
            && |Extend(out, r, gap)| == n + (if joins then 0 else 1)
  {
    var n := |out|;
    if n > 0 && r.start - out[n - 1].end <= gap {
      var s := out[n - 1];
      OnlineJoin(out, Session(s.start, Max(s.end, r.end), s.requests + 1, s.face + r.face));
    } else {
      OnlineStep(out, Session(r.start, Max(r.end, r.start), 1, r.face));
    }
  }

  lemma GrowthIsExact(v: seq<Req>, r: Req, gap: nat)
    requires Sorted(v + [r])
    ensures Online(Cut(v + [r], gap)) == Online(Cut(v, gap)) + Growth(v, r, gap)
    ensures |Cut(v + [r], gap)| == |Cut(v, gap)| + (if Joins(v, r, gap) then 0 else 1)
  {
    CutStep(v, r, gap);
    if v != [] {
      SortedPrefix(v, r);
      OpenPeriod(v, gap);
    } else {
      assert Cut(v, gap) == [];
    }
    OnlineExtend(Cut(v, gap), r, gap);
  }
}
