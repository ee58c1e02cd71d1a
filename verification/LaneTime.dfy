/** `key_online_and_lanes`: online time against lane time for one key. */
module LaneTime {
  import opened Common
  import opened Requests
  import opened Sessions
  import opened Lanes

  /** Each lane is cut into its own periods with the gap of the whole stream. */
  function TimeOf(lanes: seq<seq<Req>>, gap: nat): (ms: nat) {
    if lanes == [] then 0
    else TimeOf(lanes[..|lanes| - 1], gap) + Online(Periods(lanes[|lanes| - 1], Some(gap)))
  }

  datatype KeyUse = KeyUse(online: nat, sessions: nat, laneTime: nat, lanes: nat)

  function UseOf(reqs: seq<Req>, gap: Option<nat>): (u: KeyUse) {
    var lanes := LanesOf(reqs);
    KeyUse(Online(Periods(reqs, gap)), |Periods(reqs, gap)|,
           TimeOf(lanes, EffectiveGap(SortByKey(reqs), gap)), |lanes|)
  }

  method SumOnline(ss: seq<Session>) returns (ms: nat)
    ensures ms == Online(ss)
  {
    ms := 0;
    for i := 0 to |ss|
      invariant ms == Online(ss[..i])
    {
      assert ss[..i + 1][..i] == ss[..i];
      ms := ms + Length(ss[i]);
    }
    assert ss[..|ss|] == ss;
  }

  lemma TimeAppend(lanes: seq<seq<Req>>, lane: seq<Req>, gap: nat)
    ensures TimeOf(lanes + [lane], gap) == TimeOf(lanes, gap) + Online(Periods(lane, Some(gap)))
  {
    assert (lanes + [lane])[..|lanes|] == lanes;
  }

  method SumLanes(lanes: seq<seq<Req>>, gap: nat) returns (ms: nat)
    ensures ms == TimeOf(lanes, gap)
  {
    ms := 0;
    for i := 0 to |lanes|
      invariant ms == TimeOf(lanes[..i], gap)
    {
      assert lanes[..i + 1] == lanes[..i] + [lanes[i]];
      TimeAppend(lanes[..i], lanes[i], gap);
      var ss, _ := Sessionize(lanes[i], Some(gap));
      var t := SumOnline(ss);
      ms := ms + t;
    }
    assert lanes[..|lanes|] == lanes;
  }

  method KeyOnlineAndLanes(reqs: seq<Req>, gap: Option<nat>) returns (u: KeyUse)
    ensures u == UseOf(reqs, gap)
  {
    var sessions, used := Sessionize(reqs, gap);
    var online := SumOnline(sessions);
    var lanes := AssignLanes(reqs);
    var laneTime := SumLanes(lanes, used);
    u := KeyUse(online, |sessions|, laneTime, |lanes|);
  }

  // ---- a serial lane needs no sorting ----

  lemma SerialPeriods(lane: seq<Req>, gap: nat)
    requires Serial(lane)
    ensures Sorted(lane) && Periods(lane, Some(gap)) == Cut(lane, gap)
  {
    SortKeepsSorted(lane);
  }

  lemma SerialLast(lane: seq<Req>)
    requires Serial(lane) && lane != []
    ensures MaxEnd(lane) == lane[|lane| - 1].end
  {
    var i :| 0 <= i < |lane| && lane[i].end == MaxEnd(lane);
    if i < |lane| - 1 {
      assert lane[i].end <= lane[|lane| - 1].start;
    }
  }

  // ---- effect of one placement ----

  function Sum(ts: seq<nat>): (n: nat) {
    if ts == [] then 0 else Sum(ts[..|ts| - 1]) + ts[|ts| - 1]
  }

  lemma {:induction false} SumUpdate(ts: seq<nat>, i: nat, t: nat)
    requires i < |ts|
    ensures Sum(ts[i := t]) == Sum(ts) - ts[i] + t
  {
    var n := |ts| - 1;
    if i == n {
      assert ts[i := t][..n] == ts[..n];
    } else {
      SumUpdate(ts[..n], i, t);
      assert ts[i := t][..n] == ts[..n][i := t];
    }
  }

  /** `ts` lists the online time of every lane. */
  ghost predicate Clocked(lanes: seq<seq<Req>>, gap: nat, ts: seq<nat>) {
    |ts| == |lanes| && forall i :: 0 <= i < |ts| ==> ts[i] == Online(Periods(lanes[i], Some(gap)))
  }

  lemma ClockLanes(lanes: seq<seq<Req>>, gap: nat) returns (ts: seq<nat>)
    ensures Clocked(lanes, gap, ts)
  {
    ts := seq(|lanes|, i requires 0 <= i < |lanes| => Online(Periods(lanes[i], Some(gap))));
  }

  lemma {:induction false} TimeIsSum(lanes: seq<seq<Req>>, gap: nat, ts: seq<nat>)
    requires Clocked(lanes, gap, ts)
    ensures TimeOf(lanes, gap) == Sum(ts)
  {
    if lanes != [] {
      TimeIsSum(lanes[..|lanes| - 1], gap, ts[..|ts| - 1]);
    }
  }

  lemma TimeUpdate(lanes: seq<seq<Req>>, i: nat, lane: seq<Req>, gap: nat)
    requires i < |lanes|
    ensures TimeOf(lanes[i := lane], gap)
            == TimeOf(lanes, gap) - Online(Periods(lanes[i], Some(gap))) + Online(Periods(lane, Some(gap)))
  {
    var ts := ClockLanes(lanes, gap);
    var t := Online(Periods(lane, Some(gap)));
    TimeIsSum(lanes, gap, ts);
    TimeIsSum(lanes[i := lane], gap, ts[i := t]);
    SumUpdate(ts, i, t);
  }

  /** The lane the next request goes to: a best-fit lane, or a fresh empty one. */
  function Target(b: Board, r: Req): (lane: seq<Req>)
    requires |b.lanes| == |b.ends|
  {
    match BestFit(b.ends, r.start, |b.ends|)
    case Some(i) => b.lanes[i]
    case None => []
  }

  lemma OnlineOfNothing(gap: nat)
    ensures Online(Periods([], Some(gap))) == 0
  {
  }

  /** Placing a request lengthens lane time by what it adds to its own lane. */
  lemma PlaceTime(b: Board, r: Req, gap: nat)
    requires Tidy(b)
    ensures Serial(Target(b, r) + [r])
    ensures TimeOf(Place(b, r).lanes, gap) == TimeOf(b.lanes, gap) + Growth(Target(b, r), r, gap)
  {
    var lane := Target(b, r);
    var best := BestFit(b.ends, r.start, |b.ends|);
    SerialAppend(lane, r);
    SerialPeriods(lane, gap);
    SerialPeriods(lane + [r], gap);
    GrowthIsExact(lane, r, gap);
    if best.Some? {
      TimeUpdate(b.lanes, best.value, lane + [r], gap);
    } else {
      OnlineOfNothing(gap);
      TimeAppend(b.lanes, [r], gap);
      assert lane + [r] == [r];
    }
  }

  // ---- busy time fits into lane time ----

  lemma LaneGrowthCoversLatency(b: Board, r: Req, gap: nat)
    requires Tidy(b)
    ensures Latency(r) <= Growth(Target(b, r), r, gap)
  {
    var lane := Target(b, r);
    if lane != [] {
      SerialLast(lane);
    }
  }

  lemma {:induction false} BusyFits(v: seq<Req>, gap: nat)
    ensures BusyOf(v) <= TimeOf(Assign(v).lanes, gap)
  {
    if v != [] {
      var front, r := v[..|v| - 1], v[|v| - 1];
      assert v == front + [r];
      BusyFits(front, gap);
      SumStep(front, r, (r: Req) => Latency(r));
      AssignTidy(front);
      AssignStep(front, r);
      PlaceTime(Assign(front), r, gap);
      LaneGrowthCoversLatency(Assign(front), r, gap);
    }
  }

  // ---- online time fits into lane time: this is where best fit matters ----

  ghost predicate EndsReach(ends: seq<int>, m: int) {
    && (forall k :: 0 <= k < |ends| ==> ends[k] <= m)
    && exists k :: 0 <= k < |ends| && ends[k] == m
  }

  lemma PlaceReach(b: Board, r: Req, m: int)
    requires |b.lanes| == |b.ends| && EndsReach(b.ends, m)
    ensures EndsReach(Place(b, r).ends, Max(m, r.end))
  {
    var ends := Place(b, r).ends;
    var k :| 0 <= k < |b.ends| && b.ends[k] == m;
    var i := match BestFit(b.ends, r.start, |b.ends|) case Some(j) => j case None => |b.ends|;
    assert ends[i] == r.end;
    assert k != i ==> ends[k] == m;
  }

  lemma FirstReach(r: Req)
    ensures EndsReach(Place(Board([], []), r).ends, r.end)
  {
    assert Place(Board([], []), r).ends[0] == r.end;
  }

  lemma {:induction false} AssignReach(v: seq<Req>)
    requires v != []
    ensures EndsReach(Assign(v).ends, MaxEnd(v))
  {
    var front, r := v[..|v| - 1], v[|v| - 1];
    if front == [] {
      FirstReach(r);
    } else {
      AssignReach(front);
      assert v == front + [r];
      MaxEndStep(front, r);
      PlaceReach(Assign(front), r, MaxEnd(front));
    }
  }

  /** A request that starts after everything ended goes to the lane that ended last. */
  lemma BestFitLatest(b: Board, r: Req, m: int)
    requires Tidy(b) && EndsReach(b.ends, m) && m <= r.start
    ensures Target(b, r) != [] && Serial(Target(b, r)) && MaxEnd(Target(b, r)) == m
  {
    var k :| 0 <= k < |b.ends| && b.ends[k] == m;
    SerialLast(Target(b, r));
  }

  /** The lane grows at least as much as the whole stream does. */
  lemma LaneGrowthCoversStream(v: seq<Req>, r: Req, gap: nat)
    ensures Growth(v, r, gap) <= Growth(Target(Assign(v), r), r, gap)
  {
    AssignTidy(v);
    LaneGrowthCoversLatency(Assign(v), r, gap);
    if v != [] && MaxEnd(v) <= r.start {
      AssignReach(v);
      BestFitLatest(Assign(v), r, MaxEnd(v));
    }
  }

  lemma {:induction false} OnlineFits(v: seq<Req>, gap: nat)
    requires Sorted(v)
    ensures Online(Cut(v, gap)) <= TimeOf(Assign(v).lanes, gap)
  {
    if v != [] {
      var front, r := v[..|v| - 1], v[|v| - 1];
      assert v == front + [r];
      SortedPrefix(front, r);
      OnlineFits(front, gap);
      GrowthIsExact(front, r, gap);
      AssignTidy(front);
      AssignStep(front, r);
      PlaceTime(Assign(front), r, gap);
      LaneGrowthCoversStream(front, r, gap);
    }
  }

  // ---- each lane is online no longer than the stream ----

  function OpenStart(v: seq<Req>, gap: nat): (t: int) {
    if Cut(v, gap) == [] then 0 else Cut(v, gap)[|Cut(v, gap)| - 1].start
  }

  /** A stream online for `all` until `last`, its open period begun at `open`, against a lane online for
      `on` until `end`: up to the lane's last activity the stream was online at least as long. */
  predicate Ahead(on: int, end: int, all: int, last: int, open: int, gap: nat) {
    && end <= last && on + last <= all + Max(end, open)
    && (end < open ==> end + gap < open)
  }

  ghost predicate Dominated(lane: seq<Req>, v: seq<Req>, gap: nat) {
    && lane != [] && v != []
    && Ahead(Online(Cut(lane, gap)), MaxEnd(lane), Online(Cut(v, gap)), MaxEnd(v), OpenStart(v, gap), gap)
  }

  lemma OpenStartStep(v: seq<Req>, r: Req, gap: nat)
    requires Sorted(v + [r])
    ensures OpenStart(v + [r], gap) == (if Joins(v, r, gap) then OpenStart(v, gap) else r.start)
    ensures v != [] ==> OpenStart(v, gap) <= MaxEnd(v) && OpenStart(v, gap) <= r.start
    ensures v != [] ==> MaxEnd(v) - OpenStart(v, gap) <= Online(Cut(v, gap))
  {
    CutStep(v, r, gap);
    if v != [] {
      SortedPrefix(v, r);
      OpenPeriod(v, gap);
      assert KeyLe(v[|v| - 1], r);
    }
  }

  lemma DominatedSkip(lane: seq<Req>, v: seq<Req>, r: Req, gap: nat)
    requires Sorted(v + [r]) && Dominated(lane, v, gap)
    ensures Dominated(lane, v + [r], gap)
  {
    GrowthIsExact(v, r, gap);
    MaxEndStep(v, r);
    OpenStartStep(v, r, gap);
  }

  /** What a request from `s` to `e` adds to a stream that last ended at `end`. */
  function Added(end: int, s: int, e: int, gap: nat): int {
    if s - end <= gap then Max(0, e - end) else e - s
  }

  lemma TakeAhead(on: int, end: int, all: int, last: int, open: int, gap: nat, s: int, e: int)
    requires Ahead(on, end, all, last, open, gap) && s <= e && open <= last && open <= s
    ensures Ahead(on + Added(end, s, e, gap), Max(end, e), all + Added(last, s, e, gap), Max(last, e),
                  if s - last <= gap then open else s, gap)
  {
  }

  lemma DominatedTake(lane: seq<Req>, v: seq<Req>, r: Req, gap: nat)
    requires Sorted(v + [r]) && Sorted(lane + [r]) && Dominated(lane, v, gap)
    ensures Dominated(lane + [r], v + [r], gap)
  {
    GrowthIsExact(v, r, gap);
    GrowthIsExact(lane, r, gap);
    MaxEndStep(v, r);
    MaxEndStep(lane, r);
    OpenStartStep(v, r, gap);
    TakeAhead(Online(Cut(lane, gap)), MaxEnd(lane), Online(Cut(v, gap)), MaxEnd(v), OpenStart(v, gap),
              gap, r.start, r.end);
  }

  lemma SingleStream(r: Req, gap: nat)
    ensures Online(Cut([r], gap)) == r.end - r.start && OpenStart([r], gap) == r.start && MaxEnd([r]) == r.end
  {
    assert [] + [r] == [r];
    GrowthIsExact([], r, gap);
    OpenStartStep([], r, gap);
  }

  lemma DominatedNew(v: seq<Req>, r: Req, gap: nat)
    requires Sorted(v + [r])
    ensures Dominated([r], v + [r], gap)
  {
    SingleStream(r, gap);
    if v == [] {
      assert v + [r] == [r];
    } else {
      GrowthIsExact(v, r, gap);
      OpenStartStep(v, r, gap);
      MaxEndStep(v, r);
    }
  }

  /** How placing a request changes lane `k`. */
  lemma LaneAfter(b: Board, r: Req, k: nat)
    requires Tidy(b) && k < |Place(b, r).lanes|
    ensures k <= |b.lanes|
    ensures Place(b, r).lanes[k] ==
            if k == |b.lanes| then [r]
            else if BestFit(b.ends, r.start, |b.ends|) == Some(k) then b.lanes[k] + [r] else b.lanes[k]
    ensures k < |b.lanes| && BestFit(b.ends, r.start, |b.ends|) == Some(k) ==> Sorted(b.lanes[k] + [r])
  {
    if k < |b.lanes| && BestFit(b.ends, r.start, |b.ends|) == Some(k) {
      SerialAppend(b.lanes[k], r);
      SerialPeriods(b.lanes[k] + [r], 0);
    }
  }

  lemma PlaceDominated(b: Board, v: seq<Req>, r: Req, gap: nat, k: nat)
    requires Tidy(b) && Sorted(v + [r]) && k < |Place(b, r).lanes|
    requires k < |b.lanes| ==> Dominated(b.lanes[k], v, gap)
    ensures Dominated(Place(b, r).lanes[k], v + [r], gap)
  {
    LaneAfter(b, r, k);
    if k == |b.lanes| {
      DominatedNew(v, r, gap);
    } else if BestFit(b.ends, r.start, |b.ends|) == Some(k) {
      DominatedTake(b.lanes[k], v, r, gap);
    } else {
      DominatedSkip(b.lanes[k], v, r, gap);
    }
  }

  lemma {:induction false} LanesDominated(v: seq<Req>, gap: nat, k: nat)
    requires Sorted(v) && k < |Assign(v).lanes|
    ensures Dominated(Assign(v).lanes[k], v, gap)
  {
    if v != [] {
      var front, r := v[..|v| - 1], v[|v| - 1];
      assert v == front + [r];
      AssignTidy(front);
      AssignStep(front, r);
      SortedPrefix(front, r);
      if k < |Assign(front).lanes| {
        LanesDominated(front, gap, k);
      }
      PlaceDominated(Assign(front), front, r, gap, k);
    }
  }

  lemma LaneWithinStream(v: seq<Req>, gap: nat, k: nat)
    requires Sorted(v) && k < |Assign(v).lanes|
    ensures Online(Periods(Assign(v).lanes[k], Some(gap))) <= Online(Cut(v, gap))
  {
    LanesDominated(v, gap, k);
    AssignTidy(v);
    SerialPeriods(Assign(v).lanes[k], gap);
    OpenPeriod(v, gap);
  }

  lemma {:induction false} TimeBound(lanes: seq<seq<Req>>, gap: nat, bound: nat)
    requires forall k :: 0 <= k < |lanes| ==> Online(Periods(lanes[k], Some(gap))) <= bound
    ensures TimeOf(lanes, gap) <= |lanes| * bound
  {
    if lanes != [] {
      TimeBound(lanes[..|lanes| - 1], gap, bound);
      assert |lanes| * bound == (|lanes| - 1) * bound + bound;
    }
  }

  /** busy <= lane time, and online <= lane time <= lanes x online, for every stream and gap. */
  lemma KeyUseBounds(reqs: seq<Req>, gap: Option<nat>)
    ensures var u := UseOf(reqs, gap);
            && BusyOf(reqs) <= u.laneTime
            && u.online <= u.laneTime <= u.lanes * u.online
  {
    var v := SortByKey(reqs);
    var g := EffectiveGap(v, gap);
    var lanes := LanesOf(reqs);
    SortSorts(reqs);
    SumPermutes(v, reqs, (r: Req) => Latency(r));
    BusyFits(v, g);
    OnlineFits(v, g);
    forall k | 0 <= k < |lanes|
      ensures Online(Periods(lanes[k], Some(g))) <= Online(Cut(v, g))
    {
      LaneWithinStream(v, g, k);
    }
    TimeBound(lanes, g, Online(Cut(v, g)));
  }
}
