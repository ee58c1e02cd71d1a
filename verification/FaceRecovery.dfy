/** The durable balance of a quota card: memory is authoritative, `cards.db` takes every new total,
    and `cards.json` is the fallback when that write fails. Loading takes the larger of the two. */
module FaceRecovery {
  import opened Common

  /** `queue` holds the totals still to be written to cards.db, `snaps` the totals collected for a
      rewrite of cards.json, both oldest first; `owing` counts failed writers yet to collect. */
  datatype Store = Store(memory: nat, db: Option<nat>, json: nat, queue: seq<nat>, snaps: seq<nat>, owing: nat)

  datatype Step =
    | Add(charge: nat)                    // settle_usd raises the balance under the card's lock
    | WriteDb(index: nat, ok: bool)       // and writes the new total after letting go of it
    | Collect(fallback: bool)             // save reads the balance, after a failed write or for another change
    | WriteJson(index: nat)               // and writes cards.json

  function Stored(s: Store): (v: nat) {
    var db := if s.db.Some? then s.db.value else 0;
    if db < s.json then s.json else db
  }

  /** How a restart finds cards.db, and whether its write-back reaches it. */
  datatype Load =
    | Full(writeBack: bool)
    | NoDatabase                          // it cannot be opened: cards.json alone
    | Unreadable(writeBack: bool)         // its rows cannot be read: taken for missing ones

  /** `ledger_sync_on_load`: the balance after a restart. Totals not yet written are lost. */
  function Reload(s: Store, load: Load): (res: Store)
    ensures res.queue == [] && res.snaps == [] && res.owing == 0
  {
    match load
    case Full(ok) =>
      var v := Stored(s);
      var stale := if s.db.Some? then s.db.value != v else s.json > 0;
      Store(v, if ok && stale then Some(v) else s.db, s.json, [], [], 0)
    case NoDatabase => Store(s.json, s.db, s.json, [], [], 0)
    case Unreadable(ok) => Store(s.json, if ok && s.json > 0 then Some(s.json) else s.db, s.json, [], [], 0)
  }

  function Without(q: seq<nat>, i: nat): (rest: seq<nat>)
    requires i < |q|
  {
    q[..i] + q[i + 1..]
  }

  function Take(s: Store, step: Step): (res: Store) {
    match step
    case Add(c) => s.(memory := s.memory + c, queue := s.queue + [s.memory + c])
    case WriteDb(i, ok) =>
      if i >= |s.queue| then s
      else if ok then s.(db := Some(s.queue[i]), queue := Without(s.queue, i))
      else s.(owing := s.owing + 1, queue := Without(s.queue, i))
    case Collect(fallback) =>
      if fallback && s.owing == 0 then s
      else s.(snaps := s.snaps + [s.memory], owing := if fallback then s.owing - 1 else s.owing)
    case WriteJson(i) =>
      if i >= |s.snaps| then s else s.(json := s.snaps[i], snaps := Without(s.snaps, i))
  }

  function Run(s: Store, steps: seq<Step>): (res: Store) {
    if steps == [] then s else Take(Run(s, steps[..|steps| - 1]), steps[|steps| - 1])
  }

  function Charges(steps: seq<Step>): (n: nat) {
    if steps == [] then 0
    else Charges(steps[..|steps| - 1]) + (if steps[|steps| - 1].Add? then steps[|steps| - 1].charge else 0)
  }

  /** Nothing under way, and a reload gives the balance. */
  ghost predicate Synced(s: Store) {
    s.queue == [] && s.snaps == [] && s.owing == 0 && Stored(s) == s.memory
  }

  // ---- the schedule alone: which charges each write carries ----

  /** The same machine without amounts: a total is named by the number of steps it accounts for. */
  datatype Books = Books(db: Option<nat>, json: Option<nat>, queue: seq<nat>, snaps: seq<nat>, owing: nat)

  function Booked(steps: seq<Step>): (b: Books) {
    if steps == [] then Books(None, None, [], [], 0)
    else
      var b := Booked(steps[..|steps| - 1]);
      match steps[|steps| - 1]
      case Add(_) => b.(queue := b.queue + [|steps|])
      case WriteDb(i, ok) =>
        if i >= |b.queue| then b
        else if ok then b.(db := Some(b.queue[i]), queue := Without(b.queue, i))
        else b.(owing := b.owing + 1, queue := Without(b.queue, i))
      case Collect(fallback) =>
        if fallback && b.owing == 0 then b
        else b.(snaps := b.snaps + [|steps|], owing := if fallback then b.owing - 1 else b.owing)
      case WriteJson(i) =>
        if i >= |b.snaps| then b else b.(json := Some(b.snaps[i]), snaps := Without(b.snaps, i))
  }

  /** No charge worth anything from step `n` on. */
  ghost predicate Quiet(steps: seq<Step>, n: nat) {
    forall i :: n <= i < |steps| && steps[i].Add? ==> steps[i].charge == 0
  }

  /** The last write of one of the stores carries every charge. */
  ghost predicate Kept(steps: seq<Step>) {
    var b := Booked(steps);
    || Quiet(steps, 0)
    || (b.db.Some? && Quiet(steps, b.db.value))
    || (b.json.Some? && Quiet(steps, b.json.value))
  }

  /** The last write of cards.json carries every charge, or there was neither a write nor a charge and
      the file was up to date. */
  ghost predicate JsonKept(s: Store, steps: seq<Step>) {
    var b := Booked(steps);
    if b.json.Some? then Quiet(steps, b.json.value) else s.json == s.memory && Quiet(steps, 0)
  }

  /** What a load needs to give the balance back. */
  ghost predicate KeptFor(s: Store, steps: seq<Step>, load: Load) {
    if load.Full? then Kept(steps) else JsonKept(s, steps)
  }

  // ---- amounts follow the schedule ----

  function Amount(s: Store, steps: seq<Step>, n: nat): (v: nat)
    requires n <= |steps|
  {
    s.memory + Charges(steps[..n])
  }

  ghost predicate Names(s: Store, steps: seq<Step>, names: seq<nat>, amounts: seq<nat>) {
    && |names| == |amounts|
    && forall i :: 0 <= i < |names| ==> names[i] <= |steps| && amounts[i] == Amount(s, steps, names[i])
  }

  ghost predicate Matches(s: Store, steps: seq<Step>) {
    var e, b := Run(s, steps), Booked(steps);
    && e.memory == Amount(s, steps, |steps|) && e.owing == b.owing
    && Names(s, steps, b.queue, e.queue) && Names(s, steps, b.snaps, e.snaps)
    && (b.db.Some? ==> b.db.value <= |steps|) && (b.json.Some? ==> b.json.value <= |steps|)
    && e.db == (if b.db.None? then s.db else Some(Amount(s, steps, b.db.value)))
    && e.json == if b.json.None? then s.json else Amount(s, steps, b.json.value)
  }

  lemma AmountKept(s: Store, steps: seq<Step>, n: nat)
    requires steps != [] && n < |steps|
    ensures Amount(s, steps[..|steps| - 1], n) == Amount(s, steps, n)
  {
    assert steps[..|steps| - 1][..n] == steps[..n];
  }

  lemma NamesKept(s: Store, steps: seq<Step>, names: seq<nat>, amounts: seq<nat>)
    requires steps != [] && Names(s, steps[..|steps| - 1], names, amounts)
    ensures Names(s, steps, names, amounts)
  {
    forall i | 0 <= i < |names|
      ensures amounts[i] == Amount(s, steps, names[i])
    {
      AmountKept(s, steps, names[i]);
    }
  }

  lemma NamesAppend(s: Store, steps: seq<Step>, names: seq<nat>, amounts: seq<nat>, n: nat)
    requires Names(s, steps, names, amounts) && n <= |steps|
    ensures Names(s, steps, names + [n], amounts + [Amount(s, steps, n)])
  {
  }

  lemma NamesWithout(s: Store, steps: seq<Step>, names: seq<nat>, amounts: seq<nat>, i: nat)
    requires Names(s, steps, names, amounts) && i < |names|
    ensures Names(s, steps, Without(names, i), Without(amounts, i))
  {
  }

  /** What was booked before the last step keeps its amount. */
  lemma MatchesKept(s: Store, steps: seq<Step>)
    requires steps != [] && Matches(s, steps[..|steps| - 1])
    ensures var front := steps[..|steps| - 1]; var e, b := Run(s, front), Booked(front);
            && Names(s, steps, b.queue, e.queue) && Names(s, steps, b.snaps, e.snaps)
            && (b.db.Some? ==> b.db.value < |steps| && e.db == Some(Amount(s, steps, b.db.value)))
            && (b.json.Some? ==> b.json.value < |steps| && e.json == Amount(s, steps, b.json.value))
            && e.memory == Amount(s, steps, |front|)
  {
    var front := steps[..|steps| - 1];
    var e, b := Run(s, front), Booked(front);
    NamesKept(s, steps, b.queue, e.queue);
    NamesKept(s, steps, b.snaps, e.snaps);
    AmountKept(s, steps, |front|);
    if b.db.Some? {
      AmountKept(s, steps, b.db.value);
    }
    if b.json.Some? {
      AmountKept(s, steps, b.json.value);
    }
  }

  lemma MatchesWrite(s: Store, steps: seq<Step>)
    requires steps != [] && Matches(s, steps[..|steps| - 1])
    requires steps[|steps| - 1].WriteDb? || steps[|steps| - 1].WriteJson?
    ensures Matches(s, steps)
  {
    var front, i := steps[..|steps| - 1], steps[|steps| - 1].index;
    var e, b := Run(s, front), Booked(front);
    assert steps[..|steps|] == steps;
    MatchesKept(s, steps);
    if steps[|steps| - 1].WriteDb? && i < |b.queue| {
      NamesWithout(s, steps, b.queue, e.queue, i);
    } else if steps[|steps| - 1].WriteJson? && i < |b.snaps| {
      NamesWithout(s, steps, b.snaps, e.snaps, i);
    }
  }

  lemma MatchesStep(s: Store, steps: seq<Step>)
    requires steps != [] && Matches(s, steps[..|steps| - 1])
    ensures Matches(s, steps)
  {
    var front, step := steps[..|steps| - 1], steps[|steps| - 1];
    if step.WriteDb? || step.WriteJson? {
      MatchesWrite(s, steps);
    } else {
      var e, b := Run(s, front), Booked(front);
      assert steps[..|steps|] == steps;
      MatchesKept(s, steps);
      NamesAppend(s, steps, b.queue, e.queue, |steps|);
      NamesAppend(s, steps, b.snaps, e.snaps, |steps|);
    }
  }

  lemma {:induction false} AmountsFollow(s: Store, steps: seq<Step>)
    requires s.queue == [] && s.snaps == [] && s.owing == 0
    ensures Matches(s, steps)
  {
    if steps != [] {
      AmountsFollow(s, steps[..|steps| - 1]);
      MatchesStep(s, steps);
    }
  }

  lemma {:induction false} ChargesGrow(steps: seq<Step>, n: nat)
    requires n <= |steps|
    ensures Charges(steps[..n]) <= Charges(steps)
    ensures Charges(steps[..n]) == Charges(steps) <==> Quiet(steps, n)
  {
    if n == |steps| {
      assert steps[..n] == steps;
    } else {
      var front := steps[..|steps| - 1];
      ChargesGrow(front, n);
      assert front[..n] == steps[..n];
      assert Quiet(steps, n) <==> Quiet(front, n) && (steps[|front|].Add? ==> steps[|front|].charge == 0);
    }
  }

  // ---- what a reload restores ----

  /** For every order of writes, every pattern of failures and at every moment: the stores never hold
      more than was charged; a load that reads both gives back all of it exactly when the last write of
      one of them carries every charge, and a load without the database exactly when that of cards.json does. */
  lemma ReloadExact(s: Store, steps: seq<Step>, load: Load)
    requires Synced(s)
    ensures var e := Run(s, steps); var back := Reload(e, load);
            && e.memory == s.memory + Charges(steps) && back.memory <= e.memory
            && (back.memory == e.memory <==> KeptFor(s, steps, load))
            && (load.Full? || back.memory == e.memory ==> Synced(back))
            && (load == Full(true) ==> back.db == Some(back.memory) || (back.db.None? && back.memory == 0))
  {
    var b := Booked(steps);
    AmountsFollow(s, steps);
    assert steps[..|steps|] == steps && steps[..0] == [];
    ChargesGrow(steps, 0);
    if b.db.Some? {
      ChargesGrow(steps, b.db.value);
    }
    if b.json.Some? {
      ChargesGrow(steps, b.json.value);
    }
  }

  /** One process life: its steps, then a restart. */
  datatype Life = Life(steps: seq<Step>, load: Load)

  function RunLives(s: Store, lives: seq<Life>): (res: Store) {
    if lives == [] then s
    else
      var life := lives[|lives| - 1];
      Reload(Run(RunLives(s, lives[..|lives| - 1]), life.steps), life.load)
  }

  function AllCharges(lives: seq<Life>): (n: nat) {
    if lives == [] then 0 else AllCharges(lives[..|lives| - 1]) + Charges(lives[|lives| - 1].steps)
  }

  /** After the first `n` lives the balance is the initial one plus every charge. */
  ghost predicate Restored(s: Store, lives: seq<Life>, n: nat)
    requires n <= |lives|
  {
    RunLives(s, lives[..n]).memory == s.memory + AllCharges(lives[..n])
  }

  /** Life `n` ends with its charges kept for the load that follows. */
  ghost predicate KeptIn(s: Store, lives: seq<Life>, n: nat)
    requires n < |lives|
  {
    KeptFor(RunLives(s, lives[..n]), lives[n].steps, lives[n].load)
  }

  ghost predicate Exact(s: Store, lives: seq<Life>, n: nat)
    requires n <= |lives|
  {
    Synced(RunLives(s, lives[..n])) && Restored(s, lives, n)
  }

  lemma LifeExact(s: Store, lives: seq<Life>, n: nat)
    requires n < |lives| && Exact(s, lives, n)
    ensures Exact(s, lives, n + 1) <==> KeptIn(s, lives, n)
    ensures Restored(s, lives, n + 1) <==> Exact(s, lives, n + 1)
  {
    assert lives[..n + 1][..n] == lives[..n];
    ReloadExact(RunLives(s, lives[..n]), lives[n].steps, lives[n].load);
  }

  lemma {:induction false} LivesExact(s: Store, lives: seq<Life>, n: nat)
    requires Synced(s) && n <= |lives|
    requires (forall i :: 0 <= i < n ==> KeptIn(s, lives, i)) || (forall k :: 0 <= k <= n ==> Restored(s, lives, k))
    ensures Exact(s, lives, n)
  {
    if n > 0 {
      LivesExact(s, lives, n - 1);
      LifeExact(s, lives, n - 1);
    } else {
      assert lives[..0] == [];
    }
  }

  /** Over any restarts, with cards.db found in any condition: after each of them the balance is the initial
      one plus every charge exactly when each life ended with its charges kept for the load that followed. */
  lemma RestartsExact(s: Store, lives: seq<Life>)
    requires Synced(s)
    ensures (forall k :: 0 <= k <= |lives| ==> Restored(s, lives, k)) <==>
            (forall i :: 0 <= i < |lives| ==> KeptIn(s, lives, i))
  {
    if forall i :: 0 <= i < |lives| ==> KeptIn(s, lives, i) {
      forall k | 0 <= k <= |lives|
        ensures Restored(s, lives, k)
      {
        LivesExact(s, lives, k);
      }
    }
    if forall k :: 0 <= k <= |lives| ==> Restored(s, lives, k) {
      forall i | 0 <= i < |lives|
        ensures KeptIn(s, lives, i)
      {
        LivesExact(s, lives, i);
        LivesExact(s, lives, i + 1);
        LifeExact(s, lives, i);
      }
    }
  }

  /** While cards.db can be read a loss is never made good: the last restart alone tells. */
  lemma {:induction false} LossesStay(s: Store, lives: seq<Life>)
    requires Synced(s) && forall i :: 0 <= i < |lives| ==> lives[i].load.Full?
    ensures var e := RunLives(s, lives);
            && Synced(e) && e.memory <= s.memory + AllCharges(lives)
            && (e.memory == s.memory + AllCharges(lives) <==>
                forall i :: 0 <= i < |lives| ==> Kept(lives[i].steps))
  {
    if lives != [] {
      var front, life := lives[..|lives| - 1], lives[|lives| - 1];
      LossesStay(s, front);
      ReloadExact(RunLives(s, front), life.steps, life.load);
      assert (forall i :: 0 <= i < |lives| ==> Kept(lives[i].steps)) <==>
             (forall i :: 0 <= i < |front| ==> Kept(front[i].steps)) && Kept(life.steps);
    }
  }

  /** A load that cannot open cards.db forgets what only it holds until a later load can; one that cannot
      read it also writes the smaller value over it, and then no load brings the rest back. */
  lemma UnreadableForgets(s: Store, ok: bool)
    requires Synced(s) && 0 < s.json < s.memory
    ensures Reload(s, NoDatabase).memory == Reload(s, Unreadable(true)).memory == s.json
    ensures Reload(Reload(s, NoDatabase), Full(ok)).memory == s.memory
    ensures Reload(Reload(s, Unreadable(true)), Full(ok)).memory == s.json
  {
  }

  // ---- writes in order ----

  /** The newest total is still to be written, to be collected, or held by a store. */
  ghost predicate Durable(s: Store) {
    if s.queue != [] then s.queue[|s.queue| - 1] == s.memory
    else || s.owing > 0 || s.db == Some(s.memory)
         || (if s.snaps != [] then s.snaps[|s.snaps| - 1] else s.json) == s.memory
  }

  ghost predicate InOrder(steps: seq<Step>) {
    forall i :: 0 <= i < |steps| ==> (steps[i].WriteDb? || steps[i].WriteJson?) ==> steps[i].index == 0
  }

  lemma StepDurable(s: Store, step: Step)
    requires Durable(s) && (step.WriteDb? || step.WriteJson? ==> step.index == 0)
    ensures Durable(Take(s, step))
  {
  }

  lemma {:induction false} RunDurable(s: Store, steps: seq<Step>)
    requires Durable(s) && InOrder(steps)
    ensures Durable(Run(s, steps))
  {
    if steps != [] {
      RunDurable(s, steps[..|steps| - 1]);
      StepDurable(Run(s, steps[..|steps| - 1]), steps[|steps| - 1]);
    }
  }

  ghost predicate Finished(s: Store) {
    s.queue == [] && s.snaps == [] && s.owing == 0
  }

  /** With writes in order, whatever pattern of database failures, a life whose writes are all
      through keeps its charges; so does every chain of such lives. */
  lemma RestartRestores(s: Store, steps: seq<Step>)
    requires Synced(s) && InOrder(steps) && Finished(Run(s, steps))
    ensures Kept(steps) && Stored(Run(s, steps)) == s.memory + Charges(steps)
  {
    ReloadExact(s, steps, Full(true));
    RunDurable(s, steps);
  }

  // ---- two charges ----

  lemma FourSteps(s: Store, a: Step, b: Step, c: Step, d: Step)
    ensures Run(s, [a, b, c, d]) == Take(Take(Take(Take(s, a), b), c), d)
  {
    assert [a, b, c, d][..3] == [a, b, c] && [a, b, c][..2] == [a, b] && [a, b][..1] == [a] && [a][..0] == [];
    assert Run(s, [a]) == Take(s, a);
    assert Run(s, [a, b]) == Take(Take(s, a), b);
    assert Run(s, [a, b, c]) == Take(Take(Take(s, a), b), c);
  }

  /** Two charges whose writes come in either order with any outcome, then the fallbacks: the later
      charge is lost exactly when the database takes both totals in the wrong order. */
  lemma SwappedWritesLoseACharge(s: Store, first: nat, second: nat, swapped: bool, ok: bool, ok': bool)
    requires Synced(s)
    ensures var mid := Run(s, [Add(first), Add(second), WriteDb(if swapped then 1 else 0, ok), WriteDb(0, ok')]);
            var e := Run(mid, [Collect(true), WriteJson(0), Collect(true), WriteJson(0)]);
            && Finished(e) && e.memory == s.memory + first + second
            && Stored(e) == e.memory - (if swapped && ok && ok' then second else 0)
  {
    var i := if swapped then 1 else 0;
    FourSteps(s, Add(first), Add(second), WriteDb(i, ok), WriteDb(0, ok'));
    var added := Take(Take(s, Add(first)), Add(second));
    assert added.queue == [s.memory + first, s.memory + first + second];
    var one := Take(added, WriteDb(i, ok));
    assert one.queue == [if swapped then s.memory + first else s.memory + first + second];
    var mid := Take(one, WriteDb(0, ok'));
    assert mid.queue == [];
    FourSteps(mid, Collect(true), WriteJson(0), Collect(true), WriteJson(0));
    var saved := Take(Take(mid, Collect(true)), WriteJson(0));
    assert saved.snaps == [];
  }
}
