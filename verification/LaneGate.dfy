/** `try_take_lane`: the compare-and-swap counter that admits requests to a card's lanes.
    Load and compare-exchange are separate steps; every request brings its own cap. */
module LaneGate {

  datatype Thread =
    | Outside
    | Loaded(seen: nat, cap: nat)  // has loaded the counter below its cap, exchange still to come
    | Inside(cap: nat)             // owns a lane

  datatype Gate = Gate(inFlight: nat, threads: seq<Thread>)

  datatype Step =
    | Load(id: nat, cap: nat)
    | Exchange(id: nat)
    | Leave(id: nat)

  predicate Exists(g: Gate, id: nat) {
    id < |g.threads|
  }

  /** `fetch_sub(1)` on an unsigned 64-bit counter. */
  function Minus1(n: nat): nat {
    if n > 0 then n - 1 else 0xFFFF_FFFF_FFFF_FFFF
  }

  /** A thread arrives with `Load` at index |threads|; a failed exchange sends it back to load. */
  function Take(g: Gate, step: Step): (res: Gate) {
    match step
    case Load(id, cap) =>
      var seen := if g.inFlight >= cap then Outside else Loaded(g.inFlight, cap);
      if id == |g.threads| then g.(threads := g.threads + [seen])
      else if Exists(g, id) && g.threads[id].Outside? then g.(threads := g.threads[id := seen])
      else g
    case Exchange(id) =>
      if Exists(g, id) && g.threads[id].Loaded? then
        var t := g.threads[id];
        if g.inFlight == t.seen then Gate(t.seen + 1, g.threads[id := Inside(t.cap)])
        else g.(threads := g.threads[id := Outside])
      else g
    case Leave(id) =>
      if Exists(g, id) && g.threads[id].Inside? then Gate(Minus1(g.inFlight), g.threads[id := Outside])
      else g
  }

  function Owners(ts: seq<Thread>): (n: nat) {
    if ts == [] then 0 else Owners(ts[..|ts| - 1]) + (if ts[|ts| - 1].Inside? then 1 else 0)
  }

  lemma {:induction false} OwnersUpdate(ts: seq<Thread>, i: nat, t: Thread)
    requires i < |ts|
    ensures Owners(ts[i := t]) == Owners(ts) - (if ts[i].Inside? then 1 else 0) + (if t.Inside? then 1 else 0)
    ensures ts[i].Inside? ==> Owners(ts) > 0
  {
    var n := |ts| - 1;
    if i == n {
      assert ts[i := t][..n] == ts[..n];
    } else {
      OwnersUpdate(ts[..n], i, t);
      assert ts[i := t][..n] == ts[..n][i := t];
    }
  }

  ghost predicate Counted(g: Gate) {
    g.inFlight == Owners(g.threads)
  }

  lemma StepCounted(g: Gate, step: Step)
    requires Counted(g)
    ensures Counted(Take(g, step))
  {
    if step.Load? && step.id == |g.threads| {
      var h := Take(g, step);
      assert h.threads[..|g.threads|] == g.threads;
    } else if Exists(g, step.id) {
      OwnersUpdate(g.threads, step.id, Take(g, step).threads[step.id]);
    }
  }

  /** Every state the gate goes through: before the run and after each step. */
  ghost predicate IsRun(run: seq<Gate>, steps: seq<Step>) {
    && |run| == |steps| + 1 && run[0] == Gate(0, [])
    && forall i :: 0 <= i < |steps| ==> run[i + 1] == Take(run[i], steps[i])
  }

  predicate Succeeds(g: Gate, step: Step) {
    step.Exchange? && Exists(g, step.id) && g.threads[step.id].Loaded? && g.inFlight == g.threads[step.id].seen
  }

  ghost predicate CapsWithin(steps: seq<Step>, max: nat) {
    forall i :: 0 <= i < |steps| && steps[i].Load? ==> steps[i].cap <= max
  }

  predicate LoadedBelow(t: Thread, max: nat) {
    t.Loaded? ==> t.seen < t.cap <= max
  }

  ghost predicate Sound(g: Gate, max: nat) {
    && Counted(g) && g.inFlight <= max
    && forall i :: 0 <= i < |g.threads| ==> LoadedBelow(g.threads[i], max)
  }

  lemma StepLoaded(g: Gate, step: Step, max: nat, i: nat)
    requires i < |Take(g, step).threads| && (step.Load? ==> step.cap <= max)
    requires i < |g.threads| ==> LoadedBelow(g.threads[i], max)
    ensures LoadedBelow(Take(g, step).threads[i], max)
  {
  }

  lemma StepSound(g: Gate, step: Step, max: nat)
    requires Sound(g, max) && (step.Load? ==> step.cap <= max)
    ensures Sound(Take(g, step), max)
    ensures Succeeds(g, step) ==> Take(g, step).inFlight <= g.threads[step.id].cap
  {
    StepCounted(g, step);
    if step.Leave? && Exists(g, step.id) {
      OwnersUpdate(g.threads, step.id, Outside);
    }
    forall i | 0 <= i < |Take(g, step).threads|
      ensures LoadedBelow(Take(g, step).threads[i], max)
    {
      StepLoaded(g, step, max, i);
    }
  }

  /** Over every interleaving the counter equals the number of owned lanes, no successful take
      pushes it past that taker's own cap, and it never passes the largest cap in use. */
  lemma {:induction false} EveryRunSound(run: seq<Gate>, steps: seq<Step>, max: nat, n: nat)
    requires IsRun(run, steps) && CapsWithin(steps, max) && n < |run|
    ensures run[n].inFlight == Owners(run[n].threads) && run[n].inFlight <= max
    ensures Sound(run[n], max)
    ensures n < |steps| && Succeeds(run[n], steps[n]) ==>
              run[n + 1].inFlight <= run[n].threads[steps[n].id].cap
  {
    if n > 0 {
      EveryRunSound(run, steps, max, n - 1);
      assert run[n - 1 + 1] == Take(run[n - 1], steps[n - 1]);
      StepSound(run[n - 1], steps[n - 1], max);
    }
    if n < |steps| {
      StepSound(run[n], steps[n], max);
    }
  }

  /** A newcomer that nobody disturbs takes a lane exactly when the counter is below its cap, and leaving
      gives the lane back. */
  lemma UndisturbedTake(g: Gate, cap: nat)
    ensures var n := |g.threads|; var h := Take(Take(g, Load(n, cap)), Exchange(n));
            && h == (if g.inFlight < cap then Gate(g.inFlight + 1, g.threads + [Inside(cap)])
                     else g.(threads := g.threads + [Outside]))
            && (g.inFlight < cap ==> Take(h, Leave(n)) == g.(threads := g.threads + [Outside]))
  {
    var n := |g.threads|;
    assert (g.threads + [Loaded(g.inFlight, cap)])[n := Inside(cap)] == g.threads + [Inside(cap)];
    assert (g.threads + [Inside(cap)])[n := Outside] == g.threads + [Outside];
  }

  /** And a take whose counter moved in between fails and may load again. */
  lemma DisturbedTakeRetries(g: Gate, id: nat, cap: nat)
    requires id < |g.threads| && g.threads[id].Loaded? && g.inFlight != g.threads[id].seen
    ensures var h := Take(Take(g, Exchange(id)), Load(id, cap));
            && h.inFlight == g.inFlight && |h.threads| == |g.threads|
            && h.threads[id] == if g.inFlight < cap then Loaded(g.inFlight, cap) else Outside
  {
  }
}
