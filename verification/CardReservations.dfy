/** Quota cards: balance reservations from `admit` to settlement, as the atomic steps that
    concurrent requests interleave. Amounts are micro-dollars. */
module CardReservations {

  /** Where one request stands. `hold` is the amount it sets aside. */
  datatype Phase =
    | UsedRead(estimate: nat, seen: nat)   // admit has copied the card and with it the balance
    | HoldRead(hold: nat, seen: nat)       // has loaded the hold counter too; `seen` is their sum
    | Queued(hold: nat)                    // admitted, waiting for a lane
    | Live(hold: nat)                      // holds a permit
    | Settling(hold: nat)                  // settled flag set and hold returned, charge not booked yet
    | Charged(hold: nat, charge: nat)      // settled
    | Leaked(hold: nat)                    // gone from the queue without giving its hold back
    | Gone                                 // rejected, rolled back, or dropped without settling

  datatype Card = Card(face: nat, used: nat, hold: nat, reqs: seq<Phase>)

  datatype Step =
    | ReadUsed(estimate: nat)
    | ReadHold(id: nat)
    | Refuse(id: nat)                      // admit fails for another reason
    | AdmitAdd(id: nat)
    | TakeLane(id: nat)
    | Timeout(id: nat)
    | Cancel(id: nat)                      // the client disconnects while queued, dropping the future
    | SettleRelease(id: nat)
    | SettleCharge(id: nat, charge: nat)
    | Drop(id: nat)

  function Min(a: nat, b: nat): nat {
    if a < b then a else b
  }

  /** `fetch_sub` on an unsigned 64-bit counter. */
  function WrapSub(a: nat, b: nat): nat {
    if a >= b then a - b else (a - b) % 0x1_0000_0000_0000_0000
  }

  function SatSub(a: nat, b: nat): nat {
    if a >= b then a - b else 0
  }

  /** What is spent and what is set aside. */
  function Committed(c: Card): nat {
    c.used + c.hold
  }

  // ---- the steps ----

  function SetPhase(c: Card, id: nat, p: Phase): (res: Card)
    requires id < |c.reqs|
  {
    c.(reqs := c.reqs[id := p])
  }

  /** The decision of `admit`: rejected when nothing is left, else a hold of at most what is left. */
  function Decide(face: nat, seen: nat, estimate: nat): (p: Phase) {
    if seen >= face then Gone else HoldRead(Min(estimate, face - seen), seen)
  }

  /** One atomic step; a step whose request is in another phase changes nothing (a second
      settlement, for one). */
  function Take(c: Card, step: Step): (res: Card) {
    if step.ReadUsed? then c.(reqs := c.reqs + [UsedRead(step.estimate, c.used)])
    else if step.id >= |c.reqs| then c
    else
      var p := c.reqs[step.id];
      match step
      case ReadHold(id) =>
        if p.UsedRead? then SetPhase(c, id, Decide(c.face, p.seen + c.hold, p.estimate)) else c
      case Refuse(id) =>
        if p.UsedRead? || p.HoldRead? then SetPhase(c, id, Gone) else c
      case AdmitAdd(id) =>
        if p.HoldRead? then SetPhase(c, id, Queued(p.hold)).(hold := c.hold + p.hold) else c
      case TakeLane(id) =>
        if p.Queued? then SetPhase(c, id, Live(p.hold)) else c
      case Timeout(id) =>
        if p.Queued? then SetPhase(c, id, Gone).(hold := WrapSub(c.hold, p.hold)) else c
      case Cancel(id) =>
        if p.Queued? then SetPhase(c, id, Leaked(p.hold)) else c
      case SettleRelease(id) =>
        if p.Live? then SetPhase(c, id, Settling(p.hold)).(hold := SatSub(c.hold, p.hold)) else c
      case SettleCharge(id, charge) =>
        if p.Settling? then SetPhase(c, id, Charged(p.hold, charge)).(used := c.used + charge) else c
      case Drop(id) =>
        if p.Live? then SetPhase(c, id, Gone).(hold := SatSub(c.hold, p.hold)) else c
  }

  // ---- sums over requests ----

  function HeldBy(p: Phase): nat {
    if p.Queued? || p.Live? || p.Leaked? then p.hold else 0
  }

  function ChargedTo(p: Phase): nat {
    if p.Charged? then p.charge else 0
  }

  /** What settlement took beyond the amount set aside. */
  function Overrun(p: Phase): nat {
    if p.Charged? then SatSub(p.charge, p.hold) else 0
  }

  /** A hold already returned whose charge is still to come. */
  function InSettlement(p: Phase): nat {
    if p.Settling? then p.hold else 0
  }

  function LeakedBy(p: Phase): nat {
    if p.Leaked? then p.hold else 0
  }

  function Total(ps: seq<Phase>, f: Phase -> nat): (n: nat) {
    if ps == [] then 0 else Total(ps[..|ps| - 1], f) + f(ps[|ps| - 1])
  }

  function Sum(xs: seq<nat>): (n: nat) {
    if xs == [] then 0 else Sum(xs[..|xs| - 1]) + xs[|xs| - 1]
  }

  /** The committed amount with settlements in progress still counted. */
  function Virtual(c: Card): nat {
    Committed(c) + Total(c.reqs, InSettlement)
  }

  // ---- interference, counted from the schedule ----

  predicate Effective(c: Card, step: Step) {
    Take(c, step) != c
  }

  /** The charge a step books. */
  function Booked(c: Card, step: Step): nat {
    if step.SettleCharge? && Effective(c, step) then step.charge else 0
  }

  /** The hold a step adds, or the overrun it books. */
  function Grown(c: Card, step: Step): nat {
    if !Effective(c, step) then 0
    else if step.AdmitAdd? then Take(c, step).reqs[step.id].hold
    else if step.SettleCharge? then SatSub(step.charge, Take(c, step).reqs[step.id].hold)
    else 0
  }

  /** What a step adds to the interference with admission `i`: between its two reads the charges booked,
      at the second one the settlements in progress, and from then until it adds its own hold the holds
      added and the overruns booked by others. */
  function Disturbs(c: Card, step: Step, i: nat): nat
    requires i < |c.reqs|
  {
    var p := c.reqs[i];
    if p.UsedRead? then if step == ReadHold(i) then Total(c.reqs, InSettlement) else Booked(c, step)
    else if p.HoldRead? && step != AdmitAdd(i) then Grown(c, step)
    else 0
  }

  /** A card and, as history, the interference met by each request so far. */
  datatype Watched = Watched(card: Card, noise: seq<nat>)

  function Hear(c: Card, noise: seq<nat>, step: Step): (res: seq<nat>)
    requires |noise| == |c.reqs|
    ensures |res| == |Take(c, step).reqs|
  {
    seq(|noise|, i requires 0 <= i < |noise| => noise[i] + Disturbs(c, step, i))
    + (if step.ReadUsed? then [0] else [])
  }

  function Watch(w: Watched, step: Step): (res: Watched)
    requires |w.noise| == |w.card.reqs|
    ensures |res.noise| == |res.card.reqs|
  {
    Watched(Take(w.card, step), Hear(w.card, w.noise, step))
  }

  function Run(w: Watched, steps: seq<Step>): (res: Watched)
    requires |w.noise| == |w.card.reqs|
    ensures |res.noise| == |res.card.reqs|
  {
    if steps == [] then w else Watch(Run(w, steps[..|steps| - 1]), steps[|steps| - 1])
  }

  function NewCard(face: nat, used0: nat): (w: Watched) {
    Watched(Card(face, used0, 0, []), [])
  }

  // ---- sums under one step ----

  lemma {:induction false} TotalUpdate(ps: seq<Phase>, i: nat, p: Phase, f: Phase -> nat)
    requires i < |ps|
    ensures Total(ps[i := p], f) == Total(ps, f) - f(ps[i]) + f(p)
    ensures f(ps[i]) <= Total(ps, f)
  {
    var n := |ps| - 1;
    if i == n {
      assert ps[i := p][..n] == ps[..n];
    } else {
      TotalUpdate(ps[..n], i, p, f);
      assert ps[i := p][..n] == ps[..n][i := p];
    }
  }

  lemma {:induction false} SumUpdate(xs: seq<nat>, i: nat, x: nat)
    requires i < |xs|
    ensures Sum(xs[i := x]) == Sum(xs) - xs[i] + x && xs[i] <= Sum(xs)
  {
    var n := |xs| - 1;
    if i == n {
      assert xs[i := x][..n] == xs[..n];
    } else {
      SumUpdate(xs[..n], i, x);
      assert xs[i := x][..n] == xs[..n][i := x];
    }
  }

  /** How a step changes a sum over the requests. */
  lemma StepTotal(c: Card, step: Step, f: Phase -> nat)
    requires Effective(c, step)
    ensures var d := Take(c, step);
            if step.ReadUsed? then Total(d.reqs, f) == Total(c.reqs, f) + f(UsedRead(step.estimate, c.used))
            else && step.id < |c.reqs| == |d.reqs| && f(c.reqs[step.id]) <= Total(c.reqs, f)
                 && Total(d.reqs, f) == Total(c.reqs, f) - f(c.reqs[step.id]) + f(d.reqs[step.id])
  {
    var d := Take(c, step);
    if step.ReadUsed? {
      assert d.reqs[..|c.reqs|] == c.reqs;
    } else {
      TotalUpdate(c.reqs, step.id, d.reqs[step.id], f);
    }
  }

  // ---- exact accounting in every interleaving ----

  /** The hold counter is exactly the outstanding reservations, and the balance exactly the
      initial one plus each settled request's charge, once. */
  ghost predicate Accounted(c: Card, used0: nat) {
    c.hold == Total(c.reqs, HeldBy) && c.used == used0 + Total(c.reqs, ChargedTo)
  }

  lemma StepAccounted(c: Card, used0: nat, step: Step)
    requires Accounted(c, used0)
    ensures Accounted(Take(c, step), used0)
  {
    if Effective(c, step) {
      StepTotal(c, step, HeldBy);
      StepTotal(c, step, ChargedTo);
    }
  }

  lemma {:induction false} RunAccounted(w: Watched, used0: nat, steps: seq<Step>)
    requires |w.noise| == |w.card.reqs| && Accounted(w.card, used0)
    ensures Accounted(Run(w, steps).card, used0)
  {
    if steps != [] {
      RunAccounted(w, used0, steps[..|steps| - 1]);
      StepAccounted(Run(w, steps[..|steps| - 1]).card, used0, steps[|steps| - 1]);
    }
  }

  /** In every interleaving: the counter equals the outstanding holds, the balance each charge once,
      and no release can underflow. */
  lemma EveryRunAccounted(face: nat, used0: nat, steps: seq<Step>)
    ensures var c := Run(NewCard(face, used0), steps).card;
            && c.hold == Total(c.reqs, HeldBy)
            && c.used == used0 + Total(c.reqs, ChargedTo)
            && forall id :: 0 <= id < |c.reqs| ==> HeldBy(c.reqs[id]) <= c.hold
  {
    var c := Run(NewCard(face, used0), steps).card;
    RunAccounted(NewCard(face, used0), used0, steps);
    forall id | 0 <= id < |c.reqs|
      ensures HeldBy(c.reqs[id]) <= c.hold
    {
      TotalUpdate(c.reqs, id, c.reqs[id], HeldBy);
    }
  }

  predicate Closed(p: Phase) {
    p.Charged? || p.Leaked? || p.Gone?
  }

  /** A charge once booked, a reservation once given back and a hold once leaked stay that way. */
  lemma {:induction false} ChargedForGood(w: Watched, steps: seq<Step>, id: nat)
    requires |w.noise| == |w.card.reqs| && id < |w.card.reqs| && Closed(w.card.reqs[id])
    ensures var d := Run(w, steps).card; id < |d.reqs| && d.reqs[id] == w.card.reqs[id]
  {
    if steps != [] {
      ChargedForGood(w, steps[..|steps| - 1], id);
    }
  }

  // ---- overcommitment in every interleaving ----

  function Limit(face: nat, used0: nat): nat {
    if face < used0 then used0 else face
  }

  /** The part of an admitted hold that interference can have cost. */
  function Excess(p: Phase, noise: nat): nat {
    if p.UsedRead? || p.HoldRead? || p.Gone? then 0 else Min(p.hold, noise)
  }

  function Excesses(ps: seq<Phase>, noise: seq<nat>): (xs: seq<nat>)
    requires |noise| == |ps|
    ensures |xs| == |ps|
  {
    seq(|ps|, i requires 0 <= i < |ps| => Excess(ps[i], noise[i]))
  }

  /** What a pending admission read is out of date by no more than the interference it met. */
  ghost predicate InformedAt(c: Card, p: Phase, noise: nat) {
    && (p.UsedRead? ==> c.used == p.seen + noise)
    && (p.HoldRead? ==> Virtual(c) <= p.seen + noise && p.seen + p.hold <= c.face)
  }

  ghost predicate Informed(c: Card, noise: seq<nat>)
    requires |noise| == |c.reqs|
  {
    forall i :: 0 <= i < |c.reqs| ==> InformedAt(c, c.reqs[i], noise[i])
  }

  ghost predicate Bounded(c: Card, noise: seq<nat>, used0: nat)
    requires |noise| == |c.reqs|
  {
    Virtual(c) <= Limit(c.face, used0) + Total(c.reqs, Overrun) + Sum(Excesses(c.reqs, noise))
  }

  /** What a request contributes to the commitment, settlements in progress included. */
  function Stake(p: Phase): nat {
    HeldBy(p) + InSettlement(p) + ChargedTo(p)
  }

  lemma {:induction false} TotalStake(ps: seq<Phase>)
    ensures Total(ps, Stake) == Total(ps, HeldBy) + Total(ps, InSettlement) + Total(ps, ChargedTo)
  {
    if ps != [] {
      TotalStake(ps[..|ps| - 1]);
    }
  }

  lemma StakesMakeVirtual(c: Card, used0: nat)
    requires Accounted(c, used0)
    ensures Virtual(c) == used0 + Total(c.reqs, Stake)
  {
    TotalStake(c.reqs);
  }

  lemma StepVirtual(c: Card, used0: nat, step: Step)
    requires Accounted(c, used0) && Effective(c, step)
    ensures var d := Take(c, step);
            if step.ReadUsed? then Virtual(d) == Virtual(c)
            else && step.id < |c.reqs| == |d.reqs|
                 && Virtual(d) == Virtual(c) - Stake(c.reqs[step.id]) + Stake(d.reqs[step.id])
  {
    StepAccounted(c, used0, step);
    StakesMakeVirtual(c, used0);
    StakesMakeVirtual(Take(c, step), used0);
    StepTotal(c, step, Stake);
  }

  /** How far one step moves the balance and the commitment. */
  lemma StepGrowth(c: Card, used0: nat, step: Step)
    requires Accounted(c, used0)
    ensures var d := Take(c, step);
            d.face == c.face && d.used == c.used + Booked(c, step) && Virtual(d) <= Virtual(c) + Grown(c, step)
  {
    if Effective(c, step) {
      StepVirtual(c, used0, step);
    }
  }

  /** The second read: what it finds, with the interference so far, covers the whole commitment. */
  lemma ReadInforms(c: Card, noise: nat, id: nat)
    requires id < |c.reqs| && c.reqs[id].UsedRead? && InformedAt(c, c.reqs[id], noise)
    ensures var d := Take(c, ReadHold(id)); InformedAt(d, d.reqs[id], noise + Total(c.reqs, InSettlement))
  {
    if Effective(c, ReadHold(id)) {
      StepTotal(c, ReadHold(id), InSettlement);
    }
  }

  /** A pending admission moves by its own second read only, and is otherwise left as it is. */
  lemma PendingPhase(c: Card, step: Step, i: nat)
    requires i < |c.reqs|
    ensures var d := Take(c, step);
            && i < |d.reqs|
            && (d.reqs[i].UsedRead? || d.reqs[i].HoldRead? ==>
                  if c.reqs[i].UsedRead? then step == ReadHold(i) || d.reqs[i] == c.reqs[i]
                  else d.reqs[i] == c.reqs[i] && step != AdmitAdd(i))
  {
  }

  lemma InformedStep(c: Card, noise: seq<nat>, used0: nat, step: Step, i: nat)
    requires |noise| == |c.reqs| && Accounted(c, used0) && i < |c.reqs| && InformedAt(c, c.reqs[i], noise[i])
    ensures var d := Take(c, step); i < |d.reqs| && InformedAt(d, d.reqs[i], Hear(c, noise, step)[i])
  {
    PendingPhase(c, step, i);
    if step == ReadHold(i) && c.reqs[i].UsedRead? {
      ReadInforms(c, noise[i], i);
    } else {
      StepGrowth(c, used0, step);
    }
  }

  lemma StepInformed(c: Card, noise: seq<nat>, used0: nat, step: Step)
    requires |noise| == |c.reqs| && Accounted(c, used0) && Informed(c, noise)
    ensures Informed(Take(c, step), Hear(c, noise, step))
  {
    forall i | 0 <= i < |c.reqs|
      ensures var d := Take(c, step); i < |d.reqs| && InformedAt(d, d.reqs[i], Hear(c, noise, step)[i])
    {
      InformedStep(c, noise, used0, step, i);
    }
  }

  lemma ExcessOf(c: Card, noise: seq<nat>, step: Step, i: nat)
    requires |noise| == |c.reqs| && i < |c.reqs|
    ensures var d := Take(c, step);
            i < |d.reqs| && Excess(d.reqs[i], Hear(c, noise, step)[i]) ==
              (if !step.ReadUsed? && step.id == i then Excess(d.reqs[i], noise[i]) else Excess(c.reqs[i], noise[i]))
  {
  }

  /** A step changes the excess of its own request only. */
  lemma ExcessStep(c: Card, noise: seq<nat>, step: Step)
    requires |noise| == |c.reqs|
    ensures var d := Take(c, step); var xs := Excesses(c.reqs, noise); var ys := Excesses(d.reqs, Hear(c, noise, step));
            if step.ReadUsed? then ys == xs + [0]
            else if !Effective(c, step) then ys == xs
            else step.id < |xs| && ys == xs[step.id := Excess(d.reqs[step.id], noise[step.id])]
  {
    forall i | 0 <= i < |c.reqs|
      ensures var d := Take(c, step);
              i < |d.reqs| && Excess(d.reqs[i], Hear(c, noise, step)[i]) ==
                (if !step.ReadUsed? && step.id == i then Excess(d.reqs[i], noise[i]) else Excess(c.reqs[i], noise[i]))
    {
      ExcessOf(c, noise, step, i);
    }
  }

  lemma ExcessSum(c: Card, noise: seq<nat>, step: Step)
    requires |noise| == |c.reqs|
    ensures var d := Take(c, step);
            var before, after := Sum(Excesses(c.reqs, noise)), Sum(Excesses(d.reqs, Hear(c, noise, step)));
            if step.ReadUsed? || !Effective(c, step) then after == before
            else && step.id < |c.reqs| == |d.reqs|
                 && after == before - Excess(c.reqs[step.id], noise[step.id]) + Excess(d.reqs[step.id], noise[step.id])
  {
    var xs := Excesses(c.reqs, noise);
    ExcessStep(c, noise, step);
    if step.ReadUsed? {
      assert (xs + [0])[..|xs|] == xs;
    } else if Effective(c, step) {
      SumUpdate(xs, step.id, Excess(Take(c, step).reqs[step.id], noise[step.id]));
    }
  }

  /** Only adding a hold can raise a request's stake by more than its overrun and excess. */
  lemma MoveCovered(c: Card, step: Step, noise: nat)
    requires Effective(c, step) && !step.ReadUsed? && !step.AdmitAdd? && step.id < |c.reqs|
    ensures var p, q := c.reqs[step.id], Take(c, step).reqs[step.id];
            Stake(q) + Overrun(p) + Excess(p, noise) <= Stake(p) + Overrun(q) + Excess(q, noise)
  {
  }

  lemma AddCovered(c: Card, noise: nat, id: nat, bound: nat)
    requires id < |c.reqs| && c.reqs[id].HoldRead? && InformedAt(c, c.reqs[id], noise)
    requires c.face <= bound && Virtual(c) <= bound
    ensures Virtual(c) + c.reqs[id].hold <= bound + Min(c.reqs[id].hold, noise)
  {
  }

  lemma StepBounded(c: Card, noise: seq<nat>, used0: nat, step: Step)
    requires |noise| == |c.reqs| && Accounted(c, used0) && Informed(c, noise) && Bounded(c, noise, used0)
    ensures Bounded(Take(c, step), Hear(c, noise, step), used0)
  {
    ExcessSum(c, noise, step);
    if Effective(c, step) {
      StepVirtual(c, used0, step);
      StepTotal(c, step, Overrun);
      if step.AdmitAdd? {
        assert InformedAt(c, c.reqs[step.id], noise[step.id]);
        AddCovered(c, noise[step.id], step.id,
                   Limit(c.face, used0) + Total(c.reqs, Overrun) + Sum(Excesses(c.reqs, noise)));
      } else if !step.ReadUsed? {
        MoveCovered(c, step, noise[step.id]);
      }
    }
  }

  lemma {:induction false} RunBounded(w: Watched, used0: nat, steps: seq<Step>)
    requires |w.noise| == |w.card.reqs| && Accounted(w.card, used0)
    requires Informed(w.card, w.noise) && Bounded(w.card, w.noise, used0)
    ensures var v := Run(w, steps);
            Informed(v.card, v.noise) && Bounded(v.card, v.noise, used0) && v.card.face == w.card.face
  {
    if steps != [] {
      var front, step := steps[..|steps| - 1], steps[|steps| - 1];
      var v := Run(w, front);
      RunBounded(w, used0, front);
      RunAccounted(w, used0, front);
      StepInformed(v.card, v.noise, used0, step);
      StepBounded(v.card, v.noise, used0, step);
      StepGrowth(v.card, used0, step);
    }
  }

  /** In every interleaving, spent plus held exceeds the face value (or the balance at the start) by no
      more than the charges that outran their holds and, for each admitted request, the interference
      its admission met, at most its hold. */
  lemma EveryRunBounded(face: nat, used0: nat, steps: seq<Step>)
    ensures var w := Run(NewCard(face, used0), steps); var c := w.card;
            Committed(c) <= Limit(face, used0) + Total(c.reqs, Overrun) + Sum(Excesses(c.reqs, w.noise))
  {
    RunBounded(NewCard(face, used0), used0, steps);
  }

  // ---- without interference ----

  lemma {:induction false} ZeroSum(xs: seq<nat>)
    requires forall i :: 0 <= i < |xs| ==> xs[i] == 0
    ensures Sum(xs) == 0
  {
    if xs != [] {
      ZeroSum(xs[..|xs| - 1]);
    }
  }

  /** When no admitted request met interference, only overruns can exceed the face value. */
  lemma UndisturbedBound(face: nat, used0: nat, steps: seq<Step>)
    requires var w := Run(NewCard(face, used0), steps);
             forall i :: 0 <= i < |w.noise| ==> Excess(w.card.reqs[i], w.noise[i]) == 0
    ensures var c := Run(NewCard(face, used0), steps).card;
            Committed(c) <= Limit(face, used0) + Total(c.reqs, Overrun)
  {
    var w := Run(NewCard(face, used0), steps);
    EveryRunBounded(face, used0, steps);
    ZeroSum(Excesses(w.card.reqs, w.noise));
  }

  datatype Op =
    | Admit(estimate: nat)
    | TurnAway(estimate: nat)
    | Enter(id: nat)
    | GiveUp(id: nat)
    | Disconnect(id: nat)
    | Settle(id: nat, charge: nat)
    | Abandon(id: nat)

  /** The steps one operation takes when nothing comes between them. */
  function Steps(n: nat, op: Op): (steps: seq<Step>) {
    match op
    case Admit(est) => [ReadUsed(est), ReadHold(n), AdmitAdd(n)]
    case TurnAway(est) => [ReadUsed(est), ReadHold(n), Refuse(n)]
    case Enter(id) => [TakeLane(id)]
    case GiveUp(id) => [Timeout(id)]
    case Disconnect(id) => [Cancel(id)]
    case Settle(id, charge) => [SettleRelease(id), SettleCharge(id, charge)]
    case Abandon(id) => [Drop(id)]
  }

  /** The schedule of operations that do not interleave, on a new card. */
  function Serial(face: nat, used0: nat, ops: seq<Op>): (steps: seq<Step>) {
    if ops == [] then []
    else
      var front := Serial(face, used0, ops[..|ops| - 1]);
      front + Steps(|Run(NewCard(face, used0), front).card.reqs|, ops[|ops| - 1])
  }

  predicate Calm(p: Phase) {
    !p.UsedRead? && !p.HoldRead? && !p.Settling?
  }

  /** Nothing half done, and nothing was ever disturbed. */
  ghost predicate AllCalm(w: Watched) {
    && |w.noise| == |w.card.reqs|
    && forall i :: 0 <= i < |w.noise| ==> Calm(w.card.reqs[i]) && w.noise[i] == 0
  }

  lemma RunAppend(w: Watched, steps: seq<Step>, step: Step)
    requires |w.noise| == |w.card.reqs|
    ensures Run(w, steps + [step]) == Watch(Run(w, steps), step)
  {
    assert (steps + [step])[..|steps|] == steps;
  }

  lemma {:induction false} CalmTotals(ps: seq<Phase>)
    requires forall i :: 0 <= i < |ps| ==> Calm(ps[i])
    ensures Total(ps, InSettlement) == 0
  {
    if ps != [] {
      CalmTotals(ps[..|ps| - 1]);
    }
  }

  /** All but request `id` are calm, and so far nothing disturbed anyone. */
  ghost predicate CalmBut(w: Watched, id: nat) {
    && |w.noise| == |w.card.reqs|
    && forall i :: 0 <= i < |w.noise| ==> (i != id ==> Calm(w.card.reqs[i])) && w.noise[i] == 0
  }

  lemma OwnStepIsQuiet(w: Watched, id: nat, step: Step)
    requires CalmBut(w, id) && !step.ReadUsed? && step.id == id
    ensures CalmBut(Watch(w, step), id)
  {
    if step.ReadHold? && id < |w.card.reqs| && w.card.reqs[id].UsedRead? {
      InnerTotal(w.card.reqs, id);
    }
  }

  lemma InnerTotal(ps: seq<Phase>, id: nat)
    requires id < |ps| && !ps[id].Settling? && forall i :: 0 <= i < |ps| && i != id ==> Calm(ps[i])
    ensures Total(ps, InSettlement) == 0
  {
    TotalUpdate(ps, id, Gone, InSettlement);
    CalmTotals(ps[id := Gone]);
  }

  lemma FewSteps(w: Watched, a: Step, b: Step, c: Step)
    requires |w.noise| == |w.card.reqs|
    ensures Run(w, [a]) == Watch(w, a)
    ensures Run(w, [a, b]) == Watch(Watch(w, a), b)
    ensures Run(w, [a, b, c]) == Watch(Watch(Watch(w, a), b), c)
  {
    assert [] + [a] == [a] && [a] + [b] == [a, b] && [a, b] + [c] == [a, b, c];
    RunAppend(w, [], a);
    RunAppend(w, [a], b);
    RunAppend(w, [a, b], c);
  }

  lemma AdmissionCalm(w: Watched, est: nat, last: Step)
    requires AllCalm(w) && (last == AdmitAdd(|w.card.reqs|) || last == Refuse(|w.card.reqs|))
    ensures AllCalm(Run(w, [ReadUsed(est), ReadHold(|w.card.reqs|), last]))
  {
    var n := |w.card.reqs|;
    FewSteps(w, ReadUsed(est), ReadHold(n), last);
    var one := Watch(w, ReadUsed(est));
    var two := Watch(one, ReadHold(n));
    assert CalmBut(one, n) && one.card.reqs[n].UsedRead?;
    OwnStepIsQuiet(one, n, ReadHold(n));
    OwnStepIsQuiet(two, n, last);
  }

  lemma SettleCalm(w: Watched, id: nat, charge: nat)
    requires AllCalm(w)
    ensures AllCalm(Run(w, [SettleRelease(id), SettleCharge(id, charge)]))
  {
    FewSteps(w, SettleRelease(id), SettleCharge(id, charge), Drop(id));
    OwnStepIsQuiet(w, id, SettleRelease(id));
    OwnStepIsQuiet(Watch(w, SettleRelease(id)), id, SettleCharge(id, charge));
  }

  lemma OneStepCalm(w: Watched, step: Step)
    requires AllCalm(w) && (step.TakeLane? || step.Timeout? || step.Cancel? || step.Drop?)
    ensures AllCalm(Run(w, [step]))
  {
    FewSteps(w, step, step, step);
    OwnStepIsQuiet(w, step.id, step);
  }

  lemma OpCalm(w: Watched, op: Op)
    requires AllCalm(w)
    ensures AllCalm(Run(w, Steps(|w.card.reqs|, op)))
  {
    match op
    case Admit(est) => AdmissionCalm(w, est, AdmitAdd(|w.card.reqs|));
    case TurnAway(est) => AdmissionCalm(w, est, Refuse(|w.card.reqs|));
    case Settle(id, charge) => SettleCalm(w, id, charge);
    case Enter(id) => OneStepCalm(w, TakeLane(id));
    case GiveUp(id) => OneStepCalm(w, Timeout(id));
    case Disconnect(id) => OneStepCalm(w, Cancel(id));
    case Abandon(id) => OneStepCalm(w, Drop(id));
  }

  lemma {:induction false} RunConcat(w: Watched, a: seq<Step>, b: seq<Step>)
    requires |w.noise| == |w.card.reqs|
    ensures Run(w, a + b) == Run(Run(w, a), b)
  {
    if b == [] {
      assert a + b == a;
    } else {
      RunConcat(w, a, b[..|b| - 1]);
      assert a + b == (a + b[..|b| - 1]) + [b[|b| - 1]];
      RunAppend(w, a + b[..|b| - 1], b[|b| - 1]);
    }
  }

  lemma {:induction false} SerialCalm(face: nat, used0: nat, ops: seq<Op>)
    ensures AllCalm(Run(NewCard(face, used0), Serial(face, used0, ops)))
  {
    if ops != [] {
      var front := Serial(face, used0, ops[..|ops| - 1]);
      var w := Run(NewCard(face, used0), front);
      SerialCalm(face, used0, ops[..|ops| - 1]);
      RunConcat(NewCard(face, used0), front, Steps(|w.card.reqs|, ops[|ops| - 1]));
      OpCalm(w, ops[|ops| - 1]);
    }
  }

  /** Admissions and settlements that do not interleave meet no interference: what is spent plus what is
      held exceeds the face value by no more than the charges that outran their own holds. */
  lemma NeverOvercommitted(face: nat, used0: nat, ops: seq<Op>)
    ensures var c := Run(NewCard(face, used0), Serial(face, used0, ops)).card;
            Committed(c) <= Limit(face, used0) + Total(c.reqs, Overrun)
  {
    SerialCalm(face, used0, ops);
    UndisturbedBound(face, used0, Serial(face, used0, ops));
  }

  // ---- the windows ----

  /** Both reads of an admission, with nothing between them. */
  lemma BothReads(c: Card, est: nat)
    ensures Take(Take(c, ReadUsed(est)), ReadHold(|c.reqs|)) == c.(reqs := c.reqs + [Decide(c.face, Committed(c), est)])
  {
  }

  /** Two admissions that both read before either adds its hold stay within the face value exactly
      when one of them asks for nothing or both fit into the room each of them saw. */
  lemma RacingAdmissions(c: Card, e1: nat, e2: nat)
    requires Committed(c) < c.face
    ensures var n := |c.reqs|;
            var a := Take(Take(c, ReadUsed(e1)), ReadHold(n));
            var b := Take(Take(a, ReadUsed(e2)), ReadHold(n + 1));
            var d := Take(Take(b, AdmitAdd(n)), AdmitAdd(n + 1));
            var room := c.face - Committed(c);
            && Committed(d) == Committed(c) + Min(e1, room) + Min(e2, room)
            && (Committed(d) <= c.face <==> e1 == 0 || e2 == 0 || e1 + e2 <= room)
  {
    BothReads(c, e1);
    BothReads(Take(Take(c, ReadUsed(e1)), ReadHold(|c.reqs|)), e2);
  }

  /** What a settlement and an admission leave behind when the admission sees neither the hold nor the
      charge: it is decided on the commitment without the request being settled. */
  function Missed(c: Card, h: nat, charge: nat, est: nat): nat
    requires h <= Committed(c)
  {
    var p := Decide(c.face, Committed(c) - h, est);
    Committed(c) - h + charge + (if p.HoldRead? then p.hold else 0)
  }

  /** When that ends beyond the face value, in terms of the room left with the hold given back. */
  predicate Overcommits(face: nat, rest: nat, charge: nat, est: nat) {
    if rest < face then charge > 0 && est + charge > face - rest else rest + charge > face
  }

  lemma MissedOvercommits(c: Card, h: nat, charge: nat, est: nat)
    requires h <= Committed(c)
    ensures Missed(c, h, charge, est) > c.face <==> Overcommits(c.face, Committed(c) - h, charge, est)
  {
  }

  lemma HoldIsCounted(c: Card, used0: nat, id: nat)
    requires Accounted(c, used0) && id < |c.reqs| && c.reqs[id].Live?
    ensures c.reqs[id].hold <= c.hold
  {
    TotalUpdate(c.reqs, id, c.reqs[id], HeldBy);
  }

  /** An admission between a settlement's release and its charge, for every card, hold, charge and
      estimate: the card ends beyond its face value exactly when the two together overcommit what is
      left without the request being settled. */
  lemma RacingSettlement(c: Card, used0: nat, id: nat, charge: nat, est: nat)
    requires Accounted(c, used0) && id < |c.reqs| && c.reqs[id].Live?
    ensures var n, h := |c.reqs|, c.reqs[id].hold;
            var a := Take(c, SettleRelease(id));
            var b := Take(Take(Take(a, ReadUsed(est)), ReadHold(n)), AdmitAdd(n));
            var d := Take(b, SettleCharge(id, charge));
            && h <= Committed(c) && Committed(d) == Missed(c, h, charge, est)
            && (Committed(d) > c.face <==> Overcommits(c.face, Committed(c) - h, charge, est))
  {
    var h := c.reqs[id].hold;
    HoldIsCounted(c, used0, id);
    MissedOvercommits(c, h, charge, est);
    BothReads(Take(c, SettleRelease(id)), est);
  }

  /** A whole settlement between the two reads of an admission does exactly the same. */
  lemma SettlementBetweenReads(c: Card, used0: nat, id: nat, charge: nat, est: nat)
    requires Accounted(c, used0) && id < |c.reqs| && c.reqs[id].Live?
    ensures var n, h := |c.reqs|, c.reqs[id].hold;
            var a := Take(Take(Take(c, ReadUsed(est)), SettleRelease(id)), SettleCharge(id, charge));
            var d := Take(Take(a, ReadHold(n)), AdmitAdd(n));
            && h <= Committed(c) && Committed(d) == Missed(c, h, charge, est)
            && (Committed(d) > c.face <==> Overcommits(c.face, Committed(c) - h, charge, est))
  {
    var n, h := |c.reqs|, c.reqs[id].hold;
    HoldIsCounted(c, used0, id);
    MissedOvercommits(c, h, charge, est);
    var a := Take(Take(Take(c, ReadUsed(est)), SettleRelease(id)), SettleCharge(id, charge));
    assert a.reqs[n] == UsedRead(est, c.used) && a.hold == c.hold - h && a.used == c.used + charge;
  }

  // ---- holds that leak ----

  lemma {:induction false} LeakedIsHeld(ps: seq<Phase>)
    ensures Total(ps, LeakedBy) <= Total(ps, HeldBy)
  {
    if ps != [] {
      LeakedIsHeld(ps[..|ps| - 1]);
    }
  }

  /** A request that came after the card was locked is never admitted. */
  ghost predicate LockedOut(p: Phase, used: nat) {
    p.Gone? || (p.UsedRead? && p.seen >= used)
  }

  ghost predicate Locked(c: Card, from: nat, used: nat, leaked: nat) {
    && from <= |c.reqs| && used <= c.used && leaked <= Total(c.reqs, LeakedBy)
    && forall i :: from <= i < |c.reqs| ==> LockedOut(c.reqs[i], used)
  }

  lemma StepLocked(c: Card, used0: nat, step: Step, from: nat, used: nat, leaked: nat)
    requires Accounted(c, used0) && Locked(c, from, used, leaked) && used + leaked >= c.face
    ensures Locked(Take(c, step), from, used, leaked) && Take(c, step).face == c.face
  {
    LeakedIsHeld(c.reqs);
    if Effective(c, step) {
      StepTotal(c, step, LeakedBy);
    }
  }

  lemma {:induction false} StaysLocked(w: Watched, used0: nat, steps: seq<Step>)
    requires |w.noise| == |w.card.reqs| && Accounted(w.card, used0)
    requires w.card.used + Total(w.card.reqs, LeakedBy) >= w.card.face
    ensures var d := Run(w, steps).card;
            Locked(d, |w.card.reqs|, w.card.used, Total(w.card.reqs, LeakedBy)) && d.face == w.card.face
  {
    if steps != [] {
      var front := steps[..|steps| - 1];
      StaysLocked(w, used0, front);
      RunAccounted(w, used0, front);
      StepLocked(Run(w, front).card, used0, steps[|steps| - 1],
                 |w.card.reqs|, w.card.used, Total(w.card.reqs, LeakedBy));
    }
  }

  /** How a request can leave without a charge. */
  function Exit(p: Phase, id: nat): (step: Step) {
    match p
    case Queued(_) => Timeout(id)
    case Live(_) => Drop(id)
    case Settling(_) => SettleCharge(id, 0)
    case _ => Refuse(id)
  }

  /** The card with everyone below `n` out. */
  ghost predicate Drained(c: Card, d: Card, n: nat) {
    && d.face == c.face && d.used == c.used && |d.reqs| == |c.reqs|
    && Total(d.reqs, LeakedBy) == Total(c.reqs, LeakedBy)
    && (forall i :: 0 <= i < n && i < |d.reqs| ==> Closed(d.reqs[i]))
    && forall i :: n <= i < |d.reqs| ==> d.reqs[i] == c.reqs[i]
  }

  lemma ExitOne(c: Card, d: Card, n: nat)
    requires Drained(c, d, n) && n < |d.reqs|
    ensures Drained(c, Take(d, Exit(d.reqs[n], n)), n + 1)
  {
    var step := Exit(d.reqs[n], n);
    if Effective(d, step) {
      StepTotal(d, step, LeakedBy);
    }
  }

  function Drain(reqs: seq<Phase>, n: nat): (steps: seq<Step>)
    requires n <= |reqs|
  {
    if n == 0 then [] else Drain(reqs, n - 1) + [Exit(reqs[n - 1], n - 1)]
  }

  lemma DrainStep(c: Card, v: Watched, n: nat)
    requires |v.noise| == |v.card.reqs| && Drained(c, v.card, n) && n < |c.reqs|
    ensures Drained(c, Watch(v, Exit(c.reqs[n], n)).card, n + 1)
  {
    ExitOne(c, v.card, n);
  }

  lemma {:induction false} DrainWorks(w: Watched, n: nat)
    requires |w.noise| == |w.card.reqs| && n <= |w.card.reqs|
    ensures Drained(w.card, Run(w, Drain(w.card.reqs, n)).card, n)
  {
    if n > 0 {
      var front, exit := Drain(w.card.reqs, n - 1), Exit(w.card.reqs[n - 1], n - 1);
      DrainWorks(w, n - 1);
      assert Drain(w.card.reqs, n) == front + [exit];
      RunAppend(w, front, exit);
      DrainStep(w.card, Run(w, front), n - 1);
    }
  }

  lemma {:induction false} ClosedHoldsLeak(ps: seq<Phase>)
    requires forall i :: 0 <= i < |ps| ==> Closed(ps[i])
    ensures Total(ps, HeldBy) == Total(ps, LeakedBy)
  {
    if ps != [] {
      ClosedHoldsLeak(ps[..|ps| - 1]);
    }
  }

  predicate Admitted(p: Phase) {
    !p.UsedRead? && !p.HoldRead? && !p.Gone?
  }

  /** Some continuation admits a request that comes later. */
  ghost predicate CanAdmit(w: Watched, steps: seq<Step>, id: nat)
    requires |w.noise| == |w.card.reqs|
  {
    var d := Run(w, steps).card; |w.card.reqs| <= id < |d.reqs| && Admitted(d.reqs[id])
  }

  lemma RoomAdmits(v: Watched, est: nat)
    requires |v.noise| == |v.card.reqs| && Committed(v.card) < v.card.face
    ensures var n := |v.card.reqs|;
            var d := Run(v, [ReadUsed(est), ReadHold(n), AdmitAdd(n)]).card; n < |d.reqs| && Admitted(d.reqs[n])
  {
    FewSteps(v, ReadUsed(est), ReadHold(|v.card.reqs|), AdmitAdd(|v.card.reqs|));
    BothReads(v.card, est);
  }

  lemma DrainThenAdmit(w: Watched, used0: nat, est: nat) returns (steps: seq<Step>)
    requires |w.noise| == |w.card.reqs| && Accounted(w.card, used0)
    requires w.card.used + Total(w.card.reqs, LeakedBy) < w.card.face
    ensures CanAdmit(w, steps, |w.card.reqs|)
  {
    var n := |w.card.reqs|;
    var drain, admit := Drain(w.card.reqs, n), [ReadUsed(est), ReadHold(n), AdmitAdd(n)];
    DrainWorks(w, n);
    RunAccounted(w, used0, drain);
    var v := Run(w, drain);
    ClosedHoldsLeak(v.card.reqs);
    steps := drain + admit;
    RunConcat(w, drain, admit);
    RoomAdmits(v, est);
  }

  /** A client that disconnects while queued leaves its hold behind for good. A card can still admit
      requests, in whatever way it goes on, exactly while what leaked and what is spent stay below the
      face value. */
  lemma LeakLocksCard(w: Watched, used0: nat)
    requires |w.noise| == |w.card.reqs| && Accounted(w.card, used0)
    ensures (exists steps, id :: CanAdmit(w, steps, id)) <==>
            w.card.used + Total(w.card.reqs, LeakedBy) < w.card.face
  {
    if w.card.used + Total(w.card.reqs, LeakedBy) < w.card.face {
      var steps := DrainThenAdmit(w, used0, 0);
      assert CanAdmit(w, steps, |w.card.reqs|);
    } else {
      forall steps, id
        ensures !CanAdmit(w, steps, id)
      {
        StaysLocked(w, used0, steps);
      }
    }
  }

  /** One disconnect can be enough: a first request that waits and disconnects locks the card exactly
      when its estimate covers what was left. */
  lemma OneDisconnectLocks(face: nat, used0: nat, est: nat)
    requires used0 < face
    ensures var w := Run(NewCard(face, used0), [ReadUsed(est), ReadHold(0), AdmitAdd(0)] + [Cancel(0)]);
            (exists steps, id :: CanAdmit(w, steps, id)) <==> est < face - used0
  {
    var blank, admit := NewCard(face, used0), [ReadUsed(est), ReadHold(0), AdmitAdd(0)];
    FewSteps(blank, ReadUsed(est), ReadHold(0), AdmitAdd(0));
    BothReads(blank.card, est);
    RunAppend(blank, admit, Cancel(0));
    RunAccounted(blank, used0, admit + [Cancel(0)]);
    var w := Run(blank, admit + [Cancel(0)]);
    assert w.card.reqs == [Leaked(Min(est, face - used0))];
    assert w.card.reqs[..0] == [];
    LeakLocksCard(w, used0);
  }

  // ---- one request all the way ----

  /** The card after an admission that nothing disturbs. */
  lemma AdmittedCard(c: Card, est: nat)
    requires Committed(c) < c.face
    ensures var n, h := |c.reqs|, Min(est, c.face - Committed(c));
            Take(Take(Take(c, ReadUsed(est)), ReadHold(n)), AdmitAdd(n)) ==
            c.(hold := c.hold + h, reqs := c.reqs + [Queued(h)])
  {
    var n, h := |c.reqs|, Min(est, c.face - Committed(c));
    BothReads(c, est);
    assert (c.reqs + [HoldRead(h, Committed(c))])[n := Queued(h)] == c.reqs + [Queued(h)];
  }

  /** On any card with room a request is admitted with the smaller of its estimate and the room, gets a permit,
      and its settlement spends exactly the charge and leaves nothing of it held. */
  lemma RequestIsCharged(c: Card, est: nat, charge: nat)
    requires Committed(c) < c.face
    ensures var n, h := |c.reqs|, Min(est, c.face - Committed(c));
            var live := Take(Take(Take(Take(c, ReadUsed(est)), ReadHold(n)), AdmitAdd(n)), TakeLane(n));
            var d := Take(Take(live, SettleRelease(n)), SettleCharge(n, charge));
            && live == c.(hold := c.hold + h, reqs := c.reqs + [Live(h)])
            && d == c.(used := c.used + charge, reqs := c.reqs + [Charged(h, charge)])
  {
    var n, h := |c.reqs|, Min(est, c.face - Committed(c));
    AdmittedCard(c, est);
    assert (c.reqs + [Queued(h)])[n := Live(h)] == c.reqs + [Live(h)];
    assert (c.reqs + [Live(h)])[n := Settling(h)] == c.reqs + [Settling(h)];
    assert (c.reqs + [Settling(h)])[n := Charged(h, charge)] == c.reqs + [Charged(h, charge)];
  }

  /** A request that times out in the queue, or is dropped with its permit, leaves the card as it was; one
      that disconnects in the queue leaves its hold behind. */
  lemma RequestIsUndone(c: Card, est: nat)
    requires Committed(c) < c.face
    ensures var n, h := |c.reqs|, Min(est, c.face - Committed(c));
            var queued := Take(Take(Take(c, ReadUsed(est)), ReadHold(n)), AdmitAdd(n));
            && Take(queued, Timeout(n)) == c.(reqs := c.reqs + [Gone])
            && Take(Take(queued, TakeLane(n)), Drop(n)) == c.(reqs := c.reqs + [Gone])
            && Take(queued, Cancel(n)) == c.(hold := c.hold + h, reqs := c.reqs + [Leaked(h)])
  {
    var n, h := |c.reqs|, Min(est, c.face - Committed(c));
    AdmittedCard(c, est);
    assert (c.reqs + [Queued(h)])[n := Gone] == c.reqs + [Gone];
    assert (c.reqs + [Queued(h)])[n := Leaked(h)] == c.reqs + [Leaked(h)];
    assert (c.reqs + [Queued(h)])[n := Live(h)] == c.reqs + [Live(h)];
    assert (c.reqs + [Live(h)])[n := Gone] == c.reqs + [Gone];
  }

  /** And a card without room takes on nothing. */
  lemma FullCardRejects(c: Card, est: nat)
    requires Committed(c) >= c.face
    ensures var n := |c.reqs|;
            Take(Take(Take(c, ReadUsed(est)), ReadHold(n)), AdmitAdd(n)) == c.(reqs := c.reqs + [Gone])
  {
    BothReads(c, est);
  }
}
