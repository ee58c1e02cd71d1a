/** `TokenPacer`: the token bucket shared by all streams of one card. */
module Pacing {
  import opened Common

  const CAP_SECONDS := 5.0

  /** `sent` is the running total released so far, `started` the moment of the first call. */
  datatype Bucket = Bucket(sent: real, started: Option<real>)

  const FRESH := Bucket(0.0, None)

  function Origin(b: Bucket, now: real): (t: real) {
    if b.started.Some? then b.started.value else now
  }

  /** Idle time must not pile up credit: keep at most one second of burst. */
  function Resync(tps: real, b: Bucket, now: real): (sent: real) {
    var allowed := tps * (now - Origin(b, now) + 1.0);
    if b.sent < allowed - tps then allowed - tps else b.sent
  }

  function Next(tps: real, b: Bucket, now: real, tokens: real): (res: Bucket) {
    Bucket(Resync(tps, b, now) + tokens, Some(Origin(b, now)))
  }

  /** The wait the bucket asks for before the five second cap. */
  function Owed(tps: real, b: Bucket, now: real, tokens: real): (secs: real)
    requires tps > 0.0
  {
    var sent := Resync(tps, b, now) + tokens;
    var allowed := tps * (now - Origin(b, now) + 1.0);
    if sent <= allowed then 0.0 else (sent - allowed) / tps
  }

  function Capped(secs: real): (res: real) {
    if secs < CAP_SECONDS then secs else CAP_SECONDS
  }

  class TokenPacer {
    const tps: real
    var sent: real
    var started: Option<real>

    constructor (tps: nat)
      requires tps > 0
      ensures this.tps == tps as real && Bucket(sent, started) == FRESH
    {
      this.tps := tps as real;
      this.sent := 0.0;
      this.started := None;
    }

    method Admit(now: real, tokens: real) returns (wait: real)
      requires tps > 0.0
      modifies this
      ensures Bucket(sent, started) == Next(tps, old(Bucket(sent, started)), now, tokens)
      ensures wait == Capped(Owed(tps, old(Bucket(sent, started)), now, tokens))
    {
      if started.None? {
        started := Some(now);
      }
      var elapsed := now - started.value;
      var before := tps * (elapsed + 1.0);
      if sent < before - tps {
        sent := before - tps;
      }
      sent := sent + tokens;
      var allowed := tps * (elapsed + 1.0);
      if sent <= allowed {
        wait := 0.0;
      } else {
        wait := (sent - allowed) / tps;
        wait := if wait < CAP_SECONDS then wait else CAP_SECONDS;
      }
    }
  }

  // ---- runs ----

  datatype Call = Call(at: real, tokens: real)

  /** One frame of a run: when it was offered, the wait the bucket asked for, the running total. */
  datatype Frame = Frame(at: real, tokens: real, owed: real, total: real) {
    /** The moment the caller lets it go: call time plus the returned wait. */
    function Release(): (t: real) {
      at + Capped(owed)
    }

    /** The part of the wait that the cap forgives. */
    function Forgiven(): (secs: real) {
      owed - Capped(owed)
    }

    predicate Within(a: real, b: real) {
      a <= Release() <= b
    }
  }

  function After(tps: real, cs: seq<Call>): (b: Bucket) {
    if cs == [] then FRESH
    else
      var last := cs[|cs| - 1];
      Next(tps, After(tps, cs[..|cs| - 1]), last.at, last.tokens)
  }

  /** What the bucket makes of a run of calls. */
  function Trace(tps: real, cs: seq<Call>): (fs: seq<Frame>)
    requires tps > 0.0
    ensures |fs| == |cs| && forall i :: 0 <= i < |cs| ==> fs[i].at == cs[i].at && fs[i].tokens == cs[i].tokens
  {
    if cs == [] then []
    else
      var front, last := cs[..|cs| - 1], cs[|cs| - 1];
      var owed := Owed(tps, After(tps, front), last.at, last.tokens);
      Trace(tps, front) + [Frame(last.at, last.tokens, owed, After(tps, cs).sent)]
  }

  ghost predicate NoRefunds(cs: seq<Call>) {
    forall i :: 0 <= i < |cs| ==> cs[i].tokens >= 0.0
  }

  /** Tokens of the frames released within [a, b]. */
  function Released(fs: seq<Frame>, a: real, b: real): (tokens: real) {
    if fs == [] then 0.0
    else
      var last := fs[|fs| - 1];
      Released(fs[..|fs| - 1], a, b) + (if last.Within(a, b) then last.tokens else 0.0)
  }

  ghost predicate FirstIn(fs: seq<Frame>, a: real, b: real, f: nat) {
    && f < |fs| && fs[f].Within(a, b)
    && forall i :: 0 <= i < f ==> !fs[i].Within(a, b)
  }

  ghost predicate LastIn(fs: seq<Frame>, a: real, b: real, l: nat) {
    && l < |fs| && fs[l].Within(a, b)
    && forall i :: l < i < |fs| ==> !fs[i].Within(a, b)
  }

  function Burst(tps: real, tokens: real): (res: real) {
    if tps < tokens then tokens else tps
  }

  /** What a window of the given width may carry: tps per second, one burst (a second's worth, or the
      window's first frame if larger), and tps for each of `extra` seconds. */
  function Allowance(tps: real, width: real, first: real, extra: real): (tokens: real) {
    tps * width + Burst(tps, first) + tps * extra
  }

  // ---- facts about one frame ----

  lemma Scale(tps: real, x: real, y: real)
    requires tps > 0.0 && x <= y
    ensures tps * x <= tps * y
  {
    assert tps * (y - x) == tps * y - tps * x;
  }

  /** The total after a frame against the first call at `t0`: it never lags a whole second behind the
      clock, and the wait it asks for is what the clock needs to catch up with it. */
  ghost predicate Law(tps: real, t0: real, f: Frame) {
    && f.total - f.tokens >= tps * (f.at - t0)
    && f.owed >= 0.0 && f.total <= tps * (f.at - t0 + f.owed + 1.0)
    && (f.owed > 0.0 ==> f.total == tps * (f.at - t0 + f.owed + 1.0))
  }

  lemma {:induction false} StartedAtFirst(tps: real, cs: seq<Call>)
    requires cs != []
    ensures After(tps, cs).started == Some(cs[0].at)
  {
    if |cs| > 1 {
      StartedAtFirst(tps, cs[..|cs| - 1]);
    }
  }

  lemma WaitArithmetic(tps: real, s: real, e: real, w: real)
    requires tps > 0.0 && w == if s <= tps * (e + 1.0) then 0.0 else (s - tps * (e + 1.0)) / tps
    ensures w >= 0.0 && s <= tps * (e + w + 1.0)
    ensures w > 0.0 ==> s == tps * (e + w + 1.0)
  {
    if s > tps * (e + 1.0) {
      assert tps * w == s - tps * (e + 1.0);
      assert tps * (e + w + 1.0) == tps * (e + 1.0) + tps * w;
    }
  }

  /** One call to a bucket started at `t0`. */
  lemma CallFacts(tps: real, b: Bucket, t0: real, c: Call)
    requires tps > 0.0 && Origin(b, c.at) == t0
    ensures var f := Frame(c.at, c.tokens, Owed(tps, b, c.at, c.tokens), Next(tps, b, c.at, c.tokens).sent);
            Law(tps, t0, f) && f.total >= b.sent + f.tokens
  {
    var e, s := c.at - t0, Next(tps, b, c.at, c.tokens).sent;
    assert tps * (e + 1.0) - tps == tps * e;
    WaitArithmetic(tps, s, e, Owed(tps, b, c.at, c.tokens));
  }

  /** The newest frame obeys the law, and the total grows by the frame at least. */
  lemma StepFacts(tps: real, cs: seq<Call>)
    requires tps > 0.0 && cs != []
    ensures var f := Trace(tps, cs)[|cs| - 1];
            Law(tps, cs[0].at, f) && f.total >= After(tps, cs[..|cs| - 1]).sent + f.tokens
  {
    var b, c := After(tps, cs[..|cs| - 1]), cs[|cs| - 1];
    if |cs| > 1 {
      StartedAtFirst(tps, cs[..|cs| - 1]);
    }
    CallFacts(tps, b, cs[0].at, c);
    var sent := Next(tps, b, c.at, c.tokens).sent;
    assert Trace(tps, cs)[|cs| - 1] == Frame(c.at, c.tokens, Owed(tps, b, c.at, c.tokens), sent);
  }

  // ---- traces ----

  ghost predicate Growing(fs: seq<Frame>) {
    forall i :: 0 < i < |fs| ==> fs[i].total >= fs[i - 1].total + fs[i].tokens
  }

  lemma {:induction false} TraceGrows(tps: real, cs: seq<Call>)
    requires tps > 0.0 && cs != []
    ensures Growing(Trace(tps, cs)) && Trace(tps, cs)[|cs| - 1].total == After(tps, cs).sent
  {
    StepFacts(tps, cs);
    if |cs| > 1 {
      TraceGrows(tps, cs[..|cs| - 1]);
    }
  }

  lemma {:induction false} TraceIsLawful(tps: real, cs: seq<Call>, i: nat)
    requires tps > 0.0 && i < |cs|
    ensures Law(tps, cs[0].at, Trace(tps, cs)[i])
  {
    if i == |cs| - 1 {
      StepFacts(tps, cs);
    } else {
      TraceIsLawful(tps, cs[..|cs| - 1], i);
    }
  }

  /** A window without frames holds no tokens. */
  lemma {:induction false} EmptyWindow(fs: seq<Frame>, a: real, b: real)
    requires forall i :: 0 <= i < |fs| ==> !fs[i].Within(a, b)
    ensures Released(fs, a, b) == 0.0
  {
    if fs != [] {
      EmptyWindow(fs[..|fs| - 1], a, b);
    }
  }

  /** What a window holds fits between the totals before its first frame and after the run. */
  lemma {:induction false} WindowFits(fs: seq<Frame>, a: real, b: real, f: nat)
    requires Growing(fs) && FirstIn(fs, a, b, f) && forall i :: 0 <= i < |fs| ==> fs[i].tokens >= 0.0
    ensures Released(fs, a, b) <= fs[|fs| - 1].total - fs[f].total + fs[f].tokens
  {
    var front := fs[..|fs| - 1];
    if f == |fs| - 1 {
      EmptyWindow(front, a, b);
    } else {
      WindowFits(front, a, b, f);
    }
  }

  /** Frames after the window's last one add nothing to it. */
  lemma {:induction false} WindowEnds(fs: seq<Frame>, a: real, b: real, l: nat)
    requires LastIn(fs, a, b, l)
    ensures Released(fs, a, b) == Released(fs[..l + 1], a, b)
  {
    if l == |fs| - 1 {
      assert fs[..l + 1] == fs;
    } else {
      WindowEnds(fs[..|fs| - 1], a, b, l);
      assert fs[..|fs| - 1][..l + 1] == fs[..l + 1];
    }
  }

  lemma FirstWaiting(tps: real, d: real, free: real, e: real, total: real)
    requires tps > 0.0 && d + free <= e && total == tps * (e + 1.0)
    ensures total >= tps * (d + 1.0) + tps * free
  {
    Scale(tps, d + free + 1.0, e + 1.0);
    assert tps * (d + free + 1.0) == tps * (d + 1.0) + tps * free;
  }

  lemma FirstAtOnce(tps: real, d: real, e: real, before: real)
    requires tps > 0.0 && d <= e && before >= tps * e
    ensures before >= tps * (d + 1.0) - tps
  {
    Scale(tps, d, e);
    assert tps * (d + 1.0) == tps * d + tps;
  }

  /** The total after a frame released at `a` or later. */
  lemma FirstFrame(tps: real, t0: real, f: Frame, a: real)
    requires tps > 0.0 && Law(tps, t0, f) && a <= f.Release()
    ensures f.total >= tps * (a - t0 + 1.0) + tps * f.Forgiven() + f.tokens - Burst(tps, f.tokens)
  {
    var d, free := a - t0, f.Forgiven();
    if f.owed > 0.0 {
      FirstWaiting(tps, d, free, f.at - t0 + f.owed, f.total);
    } else {
      assert free == 0.0;
      FirstAtOnce(tps, d, f.at - t0, f.total - f.tokens);
    }
  }

  /** The total after a frame released at `b` or earlier. */
  lemma LastFrame(tps: real, t0: real, f: Frame, b: real)
    requires tps > 0.0 && Law(tps, t0, f) && f.Release() <= b
    ensures f.total <= tps * (b - t0 + 1.0) + tps * f.Forgiven()
  {
    Scale(tps, f.at - t0 + f.owed + 1.0, b - t0 + f.Forgiven() + 1.0);
    assert tps * (b - t0 + f.Forgiven() + 1.0) == tps * (b - t0 + 1.0) + tps * f.Forgiven();
  }

  lemma Difference(tps: real, x: real, y: real)
    ensures tps * x - tps * y == tps * (x - y)
  {
  }

  lemma FramesBound(tps: real, t0: real, first: Frame, last: Frame, a: real, b: real)
    requires tps > 0.0 && Law(tps, t0, first) && Law(tps, t0, last) && a <= first.Release() && last.Release() <= b
    ensures last.total - first.total + first.tokens <=
            Allowance(tps, b - a, first.tokens, last.Forgiven() - first.Forgiven())
  {
    FirstFrame(tps, t0, first, a);
    LastFrame(tps, t0, last, b);
    Difference(tps, b - t0 + 1.0, a - t0 + 1.0);
    Difference(tps, last.Forgiven(), first.Forgiven());
  }

  lemma WindowHolds(fs: seq<Frame>, a: real, b: real, f: nat, l: nat)
    requires Growing(fs) && FirstIn(fs, a, b, f) && LastIn(fs, a, b, l)
    requires forall i :: 0 <= i < |fs| ==> fs[i].tokens >= 0.0
    ensures Released(fs, a, b) <= fs[l].total - fs[f].total + fs[f].tokens
  {
    WindowEnds(fs, a, b, l);
    WindowFits(fs[..l + 1], a, b, f);
  }

  /** Everything the bound needs to know of a run that began at `t0`. */
  ghost predicate Paced(tps: real, t0: real, fs: seq<Frame>) {
    && Growing(fs) && (forall i :: 0 <= i < |fs| ==> fs[i].tokens >= 0.0)
    && forall i {:trigger Law(tps, t0, fs[i])} :: 0 <= i < |fs| ==> Law(tps, t0, fs[i])
  }

  lemma TraceIsPaced(tps: real, cs: seq<Call>)
    requires tps > 0.0 && cs != [] && NoRefunds(cs)
    ensures Paced(tps, cs[0].at, Trace(tps, cs))
  {
    TraceGrows(tps, cs);
    forall i | 0 <= i < |cs|
      ensures Law(tps, cs[0].at, Trace(tps, cs)[i])
    {
      TraceIsLawful(tps, cs, i);
    }
  }

  /** The window [a, b], with frame `f` its first, carries no more than that. */
  ghost predicate WithinRate(tps: real, fs: seq<Frame>, a: real, b: real, f: nat, extra: real)
    requires f < |fs|
  {
    Released(fs, a, b) <= Allowance(tps, b - a, fs[f].tokens, extra)
  }

  lemma PacedTotals(tps: real, t0: real, fs: seq<Frame>, first: Frame, last: Frame, a: real, b: real)
    requires tps > 0.0 && Paced(tps, t0, fs) && first in fs && last in fs && a <= first.Release() && last.Release() <= b
    ensures last.total - first.total + first.tokens <=
            Allowance(tps, b - a, first.tokens, last.Forgiven() - first.Forgiven())
  {
    assert Law(tps, t0, first) by {
      var i :| 0 <= i < |fs| && fs[i] == first;
      assert Law(tps, t0, fs[i]);
    }
    assert Law(tps, t0, last) by {
      var i :| 0 <= i < |fs| && fs[i] == last;
      assert Law(tps, t0, fs[i]);
    }
    FramesBound(tps, t0, first, last, a, b);
  }

  lemma PacedBound(tps: real, t0: real, fs: seq<Frame>, a: real, b: real, f: nat, l: nat)
    requires tps > 0.0 && Paced(tps, t0, fs) && FirstIn(fs, a, b, f) && LastIn(fs, a, b, l)
    ensures WithinRate(tps, fs, a, b, f, fs[l].Forgiven() - fs[f].Forgiven())
  {
    WindowHolds(fs, a, b, f, l);
    PacedTotals(tps, t0, fs, fs[f], fs[l], a, b);
  }

  lemma PacedPlainBound(tps: real, t0: real, fs: seq<Frame>, a: real, b: real, f: nat, l: nat)
    requires tps > 0.0 && Paced(tps, t0, fs) && FirstIn(fs, a, b, f) && LastIn(fs, a, b, l)
    requires fs[l].Forgiven() <= fs[f].Forgiven()
    ensures WithinRate(tps, fs, a, b, f, 0.0)
  {
    PacedBound(tps, t0, fs, a, b, f, l);
    Scale(tps, fs[l].Forgiven() - fs[f].Forgiven(), 0.0);
  }

  /** Rate bound, for every run and every window: the extra seconds are those by which what the cap
      forgives grew from the window's first frame to its last. */
  lemma RateBoundWithCap(tps: real, cs: seq<Call>, a: real, b: real, f: nat, l: nat)
    requires tps > 0.0 && NoRefunds(cs)
    requires FirstIn(Trace(tps, cs), a, b, f) && LastIn(Trace(tps, cs), a, b, l)
    ensures var fs := Trace(tps, cs); WithinRate(tps, fs, a, b, f, fs[l].Forgiven() - fs[f].Forgiven())
  {
    TraceIsPaced(tps, cs);
    PacedBound(tps, cs[0].at, Trace(tps, cs), a, b, f, l);
  }

  /** The plain bound holds in every window over which the cap's forgiveness does not grow; in
      particular when the wait of the window's last frame is not capped. */
  lemma RateBound(tps: real, cs: seq<Call>, a: real, b: real, f: nat, l: nat)
    requires tps > 0.0 && NoRefunds(cs)
    requires FirstIn(Trace(tps, cs), a, b, f) && LastIn(Trace(tps, cs), a, b, l)
    requires Trace(tps, cs)[l].Forgiven() <= Trace(tps, cs)[f].Forgiven()
    ensures WithinRate(tps, Trace(tps, cs), a, b, f, 0.0)
  {
    TraceIsPaced(tps, cs);
    PacedPlainBound(tps, cs[0].at, Trace(tps, cs), a, b, f, l);
  }

  // ---- the exact wait ----

  /** Tokens of the calls from `i` on. */
  function Since(cs: seq<Call>, i: nat): (tokens: real)
    requires i <= |cs|
  {
    if i == |cs| then 0.0 else Since(cs[..|cs| - 1], i) + cs[|cs| - 1].tokens
  }

  /** Where the running total would stand had the bucket been empty until call `i`. */
  function Reach(tps: real, cs: seq<Call>, i: nat): (total: real)
    requires i < |cs|
  {
    Floor(tps, cs[i].at - cs[0].at) + Since(cs, i)
  }

  function Floor(tps: real, e: real): (tokens: real) {
    tps * e
  }

  function Raised(total: real, floor: real): (res: real) {
    if total < floor then floor else total
  }

  lemma NextSent(tps: real, b: Bucket, t0: real, c: Call)
    requires Origin(b, c.at) == t0
    ensures Next(tps, b, c.at, c.tokens).sent == Raised(b.sent, Floor(tps, c.at - t0)) + c.tokens
  {
    var e := c.at - t0;
    assert tps * (e + 1.0) - tps == tps * e;
  }

  lemma SentStep(tps: real, cs: seq<Call>)
    requires cs != []
    ensures var n := |cs| - 1;
            After(tps, cs).sent == Raised(After(tps, cs[..n]).sent, Floor(tps, cs[n].at - cs[0].at)) + cs[n].tokens
  {
    var n := |cs| - 1;
    if n > 0 {
      StartedAtFirst(tps, cs[..n]);
    }
    NextSent(tps, After(tps, cs[..n]), cs[0].at, cs[n]);
  }

  lemma ReachStep(tps: real, cs: seq<Call>, i: nat)
    requires i < |cs|
    ensures var n := |cs| - 1;
            Reach(tps, cs, i) ==
            (if i < n then Reach(tps, cs[..n], i) else Floor(tps, cs[n].at - cs[0].at)) + cs[n].tokens
  {
    var n := |cs| - 1;
    if i == n {
      assert Since(cs[..n], n) == 0.0;
    }
  }

  /** The running total is the greatest of these, over all calls so far. */
  lemma {:induction false} TotalIsGreatest(tps: real, cs: seq<Call>) returns (m: nat)
    requires cs != []
    ensures m < |cs| && After(tps, cs).sent == Reach(tps, cs, m)
    ensures forall i :: 0 <= i < |cs| ==> Reach(tps, cs, i) <= After(tps, cs).sent
  {
    var n := |cs| - 1;
    SentStep(tps, cs);
    m := n;
    if n > 0 {
      var k := TotalIsGreatest(tps, cs[..n]);
      if After(tps, cs[..n]).sent >= Floor(tps, cs[n].at - cs[0].at) {
        m := k;
      }
    } else {
      assert Floor(tps, 0.0) == 0.0 && cs[..0] == [];
    }
    forall i | 0 <= i < |cs|
      ensures Reach(tps, cs, i) <= After(tps, cs).sent
    {
      ReachStep(tps, cs, i);
    }
    ReachStep(tps, cs, m);
  }

  /** What the calls from `i` to the last carry beyond tps per second and one second's worth. */
  function Excess(tps: real, cs: seq<Call>, i: nat): (tokens: real)
    requires i < |cs|
  {
    Since(cs, i) - tps * (cs[|cs| - 1].at - cs[i].at + 1.0)
  }

  lemma ExcessIsReach(tps: real, cs: seq<Call>, i: nat)
    requires i < |cs|
    ensures Excess(tps, cs, i) == Reach(tps, cs, i) - tps * (cs[|cs| - 1].at - cs[0].at + 1.0)
  {
    var x, y := cs[i].at - cs[0].at, cs[|cs| - 1].at - cs[i].at + 1.0;
    assert tps * x + tps * y == tps * (x + y);
  }

  /** `debt` is the greatest excess of any stretch of calls that ends with the last, or 0 when none has one. */
  ghost predicate GreatestExcess(tps: real, cs: seq<Call>, debt: real) {
    && debt >= 0.0 && (forall i :: 0 <= i < |cs| ==> Excess(tps, cs, i) <= debt)
    && (debt > 0.0 ==> exists i :: 0 <= i < |cs| && Excess(tps, cs, i) == debt)
  }

  function Over(tps: real, total: real, e: real): (tokens: real) {
    var over := total - tps * (e + 1.0);
    if over > 0.0 then over else 0.0
  }

  /** What the running total exceeds the clock's allowance by. */
  function Debt(tps: real, cs: seq<Call>): (tokens: real)
    requires cs != []
  {
    Over(tps, After(tps, cs).sent, cs[|cs| - 1].at - cs[0].at)
  }

  lemma DebtIsGreatest(tps: real, cs: seq<Call>)
    requires cs != []
    ensures GreatestExcess(tps, cs, Debt(tps, cs))
  {
    var m := TotalIsGreatest(tps, cs);
    forall i | 0 <= i < |cs|
      ensures Excess(tps, cs, i) <= Debt(tps, cs)
    {
      ExcessIsReach(tps, cs, i);
    }
    ExcessIsReach(tps, cs, m);
  }

  function Seconds(tps: real, tokens: real): (secs: real)
    requires tps > 0.0
  {
    tokens / tps
  }

  lemma OwedOf(tps: real, b: Bucket, t0: real, c: Call)
    requires tps > 0.0 && Origin(b, c.at) == t0
    ensures Owed(tps, b, c.at, c.tokens) == Seconds(tps, Over(tps, Next(tps, b, c.at, c.tokens).sent, c.at - t0))
  {
  }

  lemma OwedIsDebt(tps: real, cs: seq<Call>)
    requires tps > 0.0 && cs != []
    ensures Trace(tps, cs)[|cs| - 1].owed == Seconds(tps, Debt(tps, cs))
  {
    var n := |cs| - 1;
    if n > 0 {
      StartedAtFirst(tps, cs[..n]);
    }
    OwedOf(tps, After(tps, cs[..n]), cs[0].at, cs[n]);
  }

  lemma {:induction false} TracePrefix(tps: real, cs: seq<Call>, n: nat)
    requires tps > 0.0 && n < |cs|
    ensures Trace(tps, cs)[n] == Trace(tps, cs[..n + 1])[n]
  {
    if n < |cs| - 1 {
      TracePrefix(tps, cs[..|cs| - 1], n);
      assert cs[..|cs| - 1][..n + 1] == cs[..n + 1];
    } else {
      assert cs[..n + 1] == cs;
    }
  }

  /** When a frame offered at `at` with that debt is let go: after what the debt takes at tps, and after
      five seconds at the latest. */
  function LetGo(tps: real, at: real, debt: real): (t: real)
    requires tps > 0.0
  {
    at + if Seconds(tps, debt) < 5.0 then Seconds(tps, debt) else 5.0
  }

  /** In every run, frame `n` is let go exactly as late as the calls up to it demand: it waits for the
      greatest excess of any stretch of calls that ends with it. */
  lemma WaitExact(tps: real, cs: seq<Call>, n: nat) returns (debt: real)
    requires tps > 0.0 && n < |cs|
    ensures GreatestExcess(tps, cs[..n + 1], debt)
    ensures Trace(tps, cs)[n].Release() == LetGo(tps, cs[n].at, debt)
  {
    TracePrefix(tps, cs, n);
    DebtIsGreatest(tps, cs[..n + 1]);
    OwedIsDebt(tps, cs[..n + 1]);
    debt := Debt(tps, cs[..n + 1]);
  }

  lemma LetGoLater(tps: real, at: real, debt: real)
    requires tps > 0.0 && debt >= 0.0
    ensures LetGo(tps, at, debt) > at <==> debt > 0.0
  {
    assert debt == tps * (debt / tps);
    if debt / tps <= 0.0 {
      Scale(tps, debt / tps, 0.0);
    }
  }

  /** The calls from `i` on carry more than tps per second and one second's worth. */
  ghost predicate Strained(tps: real, cs: seq<Call>, i: int) {
    0 <= i < |cs| && Excess(tps, cs, i) > 0.0
  }

  ghost predicate AnyStrained(tps: real, cs: seq<Call>) {
    exists i :: Strained(tps, cs, i)
  }

  lemma DebtMeansStrain(tps: real, cs: seq<Call>, debt: real)
    requires GreatestExcess(tps, cs, debt)
    ensures debt > 0.0 <==> AnyStrained(tps, cs)
  {
    if debt > 0.0 {
      var i :| 0 <= i < |cs| && Excess(tps, cs, i) == debt;
      assert Strained(tps, cs, i);
    }
  }

  /** So it waits at all exactly when some stretch of calls carries more than its time allows. */
  lemma WaitsIff(tps: real, cs: seq<Call>, n: nat)
    requires tps > 0.0 && n < |cs|
    ensures Trace(tps, cs)[n].Release() > cs[n].at <==> AnyStrained(tps, cs[..n + 1])
  {
    var debt := WaitExact(tps, cs, n);
    LetGoLater(tps, cs[n].at, debt);
    DebtMeansStrain(tps, cs[..n + 1], debt);
  }

  // ---- what the cap costs ----

  /** The waits of two frames offered at the same moment. */
  lemma TwoAtOnce(tps: real, at: real, x: real, y: real)
    requires tps > 0.0 && x >= 0.0 && y >= 0.0
    ensures var fs := Trace(tps, [Call(at, x), Call(at, y)]);
            && fs[0].owed == (if x <= tps then 0.0 else (x - tps) / tps)
            && fs[1].owed == (if x + y <= tps then 0.0 else (x + y - tps) / tps)
  {
    var one, two := [Call(at, x)], [Call(at, x), Call(at, y)];
    assert two[..1] == one && one[..0] == [];
    assert After(tps, one) == Next(tps, FRESH, at, x);
    assert Trace(tps, one)[0].owed == Owed(tps, FRESH, at, x);
    assert Trace(tps, two)[0] == Trace(tps, one)[0];
  }

  lemma Ratio(tps: real, x: real, y: real)
    requires tps > 0.0
    ensures x / tps < y / tps <==> x < y
    ensures (6.0 * tps - tps) / tps == CAP_SECONDS
  {
    assert x == tps * (x / tps) && y == tps * (y / tps);
    if x / tps < y / tps {
      assert tps * (y / tps - x / tps) > 0.0;
    } else {
      Scale(tps, y / tps, x / tps);
    }
  }

  /** When the two leave together. */
  lemma LeaveTogether(tps: real, at: real, x: real, y: real)
    requires tps > 0.0 && x >= 0.0 && y >= 0.0
    ensures var fs := Trace(tps, [Call(at, x), Call(at, y)]);
            fs[0].Release() == fs[1].Release() <==> y == 0.0 || x + y <= tps || x >= 6.0 * tps
  {
    TwoAtOnce(tps, at, x, y);
    Ratio(tps, x - tps, 6.0 * tps - tps);
    Ratio(tps, x + y - tps, 6.0 * tps - tps);
    Ratio(tps, x - tps, x + y - tps);
    Ratio(tps, 0.0, x + y - tps);
  }

  lemma ReleasedTwo(f: Frame, g: Frame, a: real, b: real)
    ensures Released([f, g], a, b) ==
            (if f.Within(a, b) then f.tokens else 0.0) + (if g.Within(a, b) then g.tokens else 0.0)
  {
    assert [f, g][..1] == [f] && [f][..0] == [];
    assert Released([f], a, b) == if f.Within(a, b) then f.tokens else 0.0;
  }

  lemma ForgivenGrowth(tps: real, at: real, x: real, y: real)
    requires tps > 0.0 && x >= 6.0 * tps && y >= 0.0
    ensures var fs := Trace(tps, [Call(at, x), Call(at, y)]);
            tps * (fs[1].Forgiven() - fs[0].Forgiven()) == y
  {
    TwoAtOnce(tps, at, x, y);
    Ratio(tps, x - tps, 6.0 * tps - tps);
    Ratio(tps, x + y - tps, 6.0 * tps - tps);
    assert (x + y - tps) / tps - (x - tps) / tps == y / tps;
  }

  /** Exactly when the plain bound fails for two frames offered at once, for every rate and all sizes:
      the first one alone exhausts the cap and the second one carries anything. */
  lemma CapBreaksTheRate(tps: real, at: real, x: real, y: real)
    requires tps > 0.0 && x >= 0.0 && y >= 0.0
    ensures var fs := Trace(tps, [Call(at, x), Call(at, y)]); var r := fs[0].Release();
            && FirstIn(fs, r, r, 0)
            && (!WithinRate(tps, fs, r, r, 0, 0.0) <==> x >= 6.0 * tps && y > 0.0)
  {
    var fs := Trace(tps, [Call(at, x), Call(at, y)]);
    LeaveTogether(tps, at, x, y);
    assert fs == [fs[0], fs[1]];
    ReleasedTwo(fs[0], fs[1], fs[0].Release(), fs[0].Release());
  }

  /** And there the bound with the cap is met exactly. */
  lemma CapBoundIsTight(tps: real, at: real, x: real, y: real)
    requires tps > 0.0 && x >= 6.0 * tps && y >= 0.0
    ensures var fs := Trace(tps, [Call(at, x), Call(at, y)]); var r := fs[0].Release();
            && FirstIn(fs, r, r, 0) && LastIn(fs, r, r, 1)
            && Released(fs, r, r) == Allowance(tps, r - r, x, fs[1].Forgiven() - fs[0].Forgiven())
  {
    var fs := Trace(tps, [Call(at, x), Call(at, y)]);
    LeaveTogether(tps, at, x, y);
    assert fs == [fs[0], fs[1]];
    ReleasedTwo(fs[0], fs[1], fs[0].Release(), fs[0].Release());
    ForgivenGrowth(tps, at, x, y);
  }
}
