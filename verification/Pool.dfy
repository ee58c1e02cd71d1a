/** The account pool: sticky and free acquisition, cooldown, and the quarantine of failing accounts.
    Times are seconds; the account set is fixed. */
module Pool {
  import opened Common

  const STICKY_TTL := 3600

  datatype Account = Account(id: string, enabled: bool)

  datatype Binding = Binding(account: string, expiry: nat)

  /** `free` holds the remaining semaphore permits of every account in `order`. */
  datatype State = State(
    order: seq<string>, free: map<string, nat>,
    disabled: map<string, bool>, coolUntil: map<string, nat>, noUsage: set<string>,
    sessions: map<string, Binding>,
    until: map<string, nat>, ineligible: set<string>, strikes: map<string, nat>,
    rr: nat)

  datatype Try = Got(id: string) | Empty | Busy

  function Ids(order: seq<string>): set<string> {
    set id | id in order
  }

  ghost predicate Quarantined(disabled: map<string, bool>, until: map<string, nat>) {
    forall id :: id in until ==> id in disabled && disabled[id]
  }

  /** Permits and switches exist for exactly the listed accounts, and only disabled ones are quarantined. */
  ghost predicate Valid(s: State) {
    s.free.Keys == Ids(s.order) && s.disabled.Keys == Ids(s.order) && Quarantined(s.disabled, s.until)
  }

  /** `is_slot_available`: enabled, not cooling, and not reported out of usage. */
  predicate Available(s: State, id: string, now: nat) {
    && !(id in s.disabled && s.disabled[id])
    && !(id in s.coolUntil && s.coolUntil[id] > now)
    && id !in s.noUsage
  }

  function FreeOf(s: State, id: string): nat {
    if id in s.free then s.free[id] else 0
  }

  function TakeOne(free: map<string, nat>, id: string): (res: map<string, nat>) {
    free[id := if id in free && free[id] > 0 then free[id] - 1 else 0]
  }

  function Permit(s: State, id: string): (res: State) {
    s.(free := TakeOne(s.free, id))
  }

  // ---- sticky lookup ----

  /** A binding that expired or whose account is gone is dropped on sight. */
  function Lookup(s: State, sid: string, now: nat): (r: (State, Option<string>)) {
    if sid !in s.sessions then (s, None)
    else
      var b := s.sessions[sid];
      if b.expiry <= now || b.account !in s.free then (s.(sessions := s.sessions - {sid}), None)
      else (s, Some(b.account))
  }

  // ---- free choice ----

  /** The most free permits among the first `n` accounts that are available. */
  function BestFree(s: State, now: nat, n: nat): (best: nat)
    requires n <= |s.order|
    ensures forall i :: 0 <= i < n && Available(s, s.order[i], now) ==> FreeOf(s, s.order[i]) <= best
    ensures best > 0 ==> exists i :: 0 <= i < n && Available(s, s.order[i], now) && FreeOf(s, s.order[i]) == best
  {
    if n == 0 then 0
    else
      var b, id := BestFree(s, now, n - 1), s.order[n - 1];
      if Available(s, id, now) && FreeOf(s, id) > b then FreeOf(s, id) else b
  }

  predicate Fits(s: State, now: nat, best: nat, id: string) {
    Available(s, id, now) && FreeOf(s, id) == best
  }

  function At(s: State, start: nat, k: nat): (id: string)
    requires s.order != []
    ensures id in s.order
  {
    s.order[(start + k) % |s.order|]
  }

  /** Round robin over the list from `start`: the first account with exactly the best free count. */
  function FirstFrom(s: State, now: nat, best: nat, start: nat, i: nat): (r: Option<string>)
    requires s.order != [] && i <= |s.order|
    ensures r.Some? ==> r.value in s.order && Fits(s, now, best, r.value)
    ensures r.None? ==> forall k :: i <= k < |s.order| ==> !Fits(s, now, best, At(s, start, k))
    decreases |s.order| - i
  {
    if i == |s.order| then None
    else
      var id := At(s, start, i);
      if Fits(s, now, best, id) then Some(id) else FirstFrom(s, now, best, start, i + 1)
  }

  /** Who may serve, and everything that governs it. */
  predicate SameStatus(s: State, t: State) {
    && t.order == s.order && t.disabled == s.disabled && t.coolUntil == s.coolUntil && t.noUsage == s.noUsage
    && t.until == s.until && t.ineligible == s.ineligible && t.strikes == s.strikes
  }

  /** Take a permit and, unless told to avoid stickiness, bind the session. */
  function Grant(s: State, id: string, sid: Option<string>, avoid: bool, now: nat): (res: State)
    ensures SameStatus(s, res)
  {
    var t := Permit(s, id);
    if sid.Some? && !avoid then t.(sessions := s.sessions[sid.value := Binding(id, now + STICKY_TTL)]) else t
  }

  /** The account a free acquisition takes. */
  function Choose(s: State, now: nat): (r: Option<string>)
    requires s.order != []
    ensures r.Some? ==> r.value in s.order && Available(s, r.value, now) && FreeOf(s, r.value) > 0
  {
    var best := BestFree(s, now, |s.order|);
    if best == 0 then None else FirstFrom(s, now, best, s.rr, 0)
  }

  /** Acquisition without a usable sticky account. */
  function FreeAcquire(s: State, sid: Option<string>, avoid: bool, now: nat): (r: (Try, State))
    ensures SameStatus(s, r.1)
  {
    if s.order == [] then (Empty, s)
    else
      var next := s.(rr := s.rr + 1);
      match Choose(s, now)
      case None => (Busy, next)
      case Some(id) => (Got(id), Grant(next, id, sid, avoid, now))
  }

  function TryAcquire(s: State, sid: Option<string>, avoid: bool, now: nat): (r: (Try, State))
    ensures SameStatus(s, r.1)
  {
    if sid.Some? && !avoid then
      var (t, sticky) := Lookup(s, sid.value, now);
      if sticky.Some? && Available(t, sticky.value, now) && FreeOf(t, sticky.value) > 0
      then (Got(sticky.value), Permit(t, sticky.value))
      else FreeAcquire(t, sid, avoid, now)
    else FreeAcquire(s, sid, avoid, now)
  }

  // ---- status changes ----

  function Quarantine(times: nat): (secs: nat)
    ensures 60 <= secs <= 1800
  {
    var n := if times < 1 then 1 else if times > 6 then 6 else times;
    var secs := 60 * [1, 2, 4, 8, 16, 32][n - 1];
    if secs < 1800 then secs else 1800
  }

  /** Each further strike doubles the quarantine, up to half an hour. */
  lemma QuarantineDoubles(times: nat)
    requires times >= 1
    ensures Quarantine(0) == Quarantine(1) == 60
    ensures Quarantine(times + 1) == if 2 * Quarantine(times) < 1800 then 2 * Quarantine(times) else 1800
  {
  }

  function Unbind(sessions: map<string, Binding>, id: string): (rest: map<string, Binding>) {
    map sid | sid in sessions && sessions[sid].account != id :: sessions[sid]
  }

  function StrikesOf(s: State, id: string): nat {
    if id in s.strikes then s.strikes[id] else 0
  }

  function AutoDisabled(s: State, id: string, now: nat): (res: State) {
    if id !in s.disabled then s
    else
      var times := StrikesOf(s, id) + 1;
      s.(disabled := s.disabled[id := true], strikes := s.strikes[id := times],
         until := s.until[id := now + Quarantine(times)], sessions := Unbind(s.sessions, id))
  }

  function WithEnabled(s: State, id: string, on: bool): (res: State) {
    if id !in s.disabled then s
    else
      s.(disabled := s.disabled[id := !on], until := s.until - {id},
         ineligible := if on then s.ineligible - {id} else s.ineligible)
  }

  function Toggled(s: State, id: string): (res: State) {
    if id !in s.disabled then s else WithEnabled(s, id, s.disabled[id])
  }

  function Ineligible(s: State, id: string): (res: State) {
    if id !in s.disabled then s
    else
      s.(disabled := s.disabled[id := true], until := s.until - {id}, ineligible := s.ineligible + {id},
         sessions := Unbind(s.sessions, id))
  }

  function Due(s: State, now: nat): (ids: set<string>) {
    set id | id in s.until && s.until[id] <= now
  }

  function Reaped(s: State, now: nat): (res: State) {
    var due := Due(s, now);
    s.(until := s.until - due,
       disabled := map id | id in s.disabled :: if id in due then false else s.disabled[id])
  }

  /** A finished request gives its permit back; a failed one also starts a cooldown. */
  function Released(s: State, id: string, cool: Option<nat>): (res: State) {
    if id !in s.free then s
    else
      var t := s.(free := s.free[id := s.free[id] + 1]);
      if cool.Some? then t.(coolUntil := t.coolUntil[id := cool.value]) else t
  }

  // ---- the pool object ----

  class AccountPool {
    const order: seq<string>
    var free: map<string, nat>
    var disabled: map<string, bool>
    var coolUntil: map<string, nat>
    var noUsage: set<string>
    var sessions: map<string, Binding>
    var until: map<string, nat>
    var ineligible: set<string>
    var strikes: map<string, nat>
    var rr: nat

    function Now(): (s: State)
      reads this
    {
      State(order, free, disabled, coolUntil, noUsage, sessions, until, ineligible, strikes, rr)
    }

    constructor (accounts: seq<Account>, capacity: nat)
      ensures Now() == Idle(accounts, capacity)
    {
      var ids: seq<string>, permits: map<string, nat>, off: map<string, bool> := [], map[], map[];
      for i := 0 to |accounts|
        invariant var s := Idle(accounts[..i], capacity);
                  ids == s.order && permits == s.free && off == s.disabled
      {
        var a := accounts[i];
        assert accounts[..i + 1][..i] == accounts[..i];
        off := off[a.id := !a.enabled];
        permits := permits[a.id := AtLeastOne(capacity)];
        ids := ids + [a.id];
      }
      assert accounts[..|accounts|] == accounts;
      order, free, disabled := ids, permits, off;
      coolUntil, noUsage, sessions, until := map[], {}, map[], map[];
      ineligible, strikes, rr := {}, map[], 0;
      IdleStatus(accounts, capacity);
    }

    method ScanBest(now: nat) returns (best: nat)
      ensures best == BestFree(Now(), now, |order|)
    {
      best := 0;
      for i := 0 to |order|
        invariant best == BestFree(Now(), now, i)
      {
        if Available(Now(), order[i], now) && FreeOf(Now(), order[i]) > best {
          best := FreeOf(Now(), order[i]);
        }
      }
    }

    method ScanFrom(now: nat, best: nat, start: nat) returns (r: Option<string>)
      requires order != []
      ensures r == FirstFrom(Now(), now, best, start, 0)
    {
      for i := 0 to |order|
        invariant FirstFrom(Now(), now, best, start, 0) == FirstFrom(Now(), now, best, start, i)
      {
        var id := order[(start + i) % |order|];
        assert id == At(Now(), start, i);
        if Available(Now(), id, now) && FreeOf(Now(), id) == best {
          return Some(id);
        }
      }
      r := None;
    }

    method GrantTo(id: string, sid: Option<string>, avoid: bool, now: nat)
      modifies this
      ensures Now() == Grant(old(Now()), id, sid, avoid, now)
    {
      if sid.Some? && !avoid {
        sessions := sessions[sid.value := Binding(id, now + STICKY_TTL)];
      }
      free := free[id := if id in free && free[id] > 0 then free[id] - 1 else 0];
    }

    method AcquireFree(sid: Option<string>, avoid: bool, now: nat) returns (r: Try)
      modifies this
      ensures (r, Now()) == FreeAcquire(old(Now()), sid, avoid, now)
    {
      if order == [] {
        return Empty;
      }
      var start := rr;
      var best := ScanBest(now);
      var found: Option<string> := None;
      if best > 0 {
        found := ScanFrom(now, best, start);
      }
      rr := rr + 1;
      if found.None? {
        return Busy;
      }
      GrantTo(found.value, sid, avoid, now);
      r := Got(found.value);
    }

    method Acquire(sid: Option<string>, avoid: bool, now: nat) returns (r: Try)
      modifies this
      ensures (r, Now()) == TryAcquire(old(Now()), sid, avoid, now)
    {
      if sid.Some? && !avoid && sid.value in sessions {
        var b := sessions[sid.value];
        if b.expiry <= now || b.account !in free {
          sessions := sessions - {sid.value};
        } else if Available(Now(), b.account, now) && free[b.account] > 0 {
          free := free[b.account := free[b.account] - 1];
          return Got(b.account);
        }
      }
      r := AcquireFree(sid, avoid, now);
    }

    method AutoDisable(id: string, now: nat) returns (done: bool)
      modifies this
      ensures Now() == AutoDisabled(old(Now()), id, now) && done == (id in old(disabled))
    {
      if id !in disabled {
        return false;
      }
      disabled := disabled[id := true];
      var times := (if id in strikes then strikes[id] else 0) + 1;
      strikes := strikes[id := times];
      until := until[id := now + Quarantine(times)];
      sessions := Unbind(sessions, id);
      done := true;
    }

    method SetEnabled(id: string, on: bool) returns (was: Option<bool>)
      modifies this
      ensures Now() == WithEnabled(old(Now()), id, on)
      ensures was == if id in old(disabled) then Some(old(disabled)[id]) else None
    {
      if id !in disabled {
        return None;
      }
      was := Some(disabled[id]);
      disabled := disabled[id := !on];
      until := until - {id};
      if on {
        ineligible := ineligible - {id};
      }
    }

    method ToggleAccount(id: string) returns (on: Option<bool>)
      modifies this
      ensures Now() == Toggled(old(Now()), id)
      ensures on == if id in old(disabled) then Some(old(disabled)[id]) else None
    {
      if id !in disabled {
        return None;
      }
      var enable := disabled[id];
      disabled := disabled[id := !disabled[id]];
      until := until - {id};
      if enable {
        ineligible := ineligible - {id};
      }
      on := Some(enable);
    }

    method MarkIneligible(id: string) returns (wasEnabled: bool)
      modifies this
      ensures Now() == Ineligible(old(Now()), id)
      ensures wasEnabled == (id in old(disabled) && !old(disabled)[id])
    {
      if id !in disabled {
        return false;
      }
      wasEnabled := !disabled[id];
      disabled := disabled[id := true];
      until := until - {id};
      ineligible := ineligible + {id};
      sessions := Unbind(sessions, id);
    }

    method ReapAutoDisabled(now: nat) returns (restored: set<string>)
      modifies this
      ensures Now() == Reaped(old(Now()), now)
      ensures restored == set id | id in Due(old(Now()), now) && id in old(disabled) && old(disabled)[id]
    {
      var due := set id | id in until && until[id] <= now;
      var todo := due;
      restored := {};
      ghost var done: set<string> := {};
      while todo != {}
        invariant todo <= due && done == due - todo
        invariant until == old(until) - done
        invariant disabled == map id | id in old(disabled) :: if id in done then false else old(disabled)[id]
        invariant restored == set id | id in done && id in old(disabled) && old(disabled)[id]
        invariant unchanged(`free) && unchanged(`coolUntil) && unchanged(`noUsage) && unchanged(`sessions)
        invariant unchanged(`ineligible) && unchanged(`strikes) && unchanged(`rr)
        decreases todo
      {
        var id :| id in todo;
        until := until - {id};
        if id in disabled && disabled[id] {
          disabled := disabled[id := false];
          restored := restored + {id};
        }
        todo := todo - {id};
        done := done + {id};
      }
      assert done == due;
    }
  }

  function AtLeastOne(n: nat): nat {
    if n < 1 then 1 else n
  }

  /** The pool as it starts: accounts switched off in the configuration are disabled. */
  function Idle(accounts: seq<Account>, capacity: nat): (s: State) {
    if accounts == [] then State([], map[], map[], map[], {}, map[], map[], {}, map[], 0)
    else
      var s, a := Idle(accounts[..|accounts| - 1], capacity), accounts[|accounts| - 1];
      s.(order := s.order + [a.id], free := s.free[a.id := AtLeastOne(capacity)],
         disabled := s.disabled[a.id := !a.enabled])
  }

  lemma {:induction false} IdleStatus(accounts: seq<Account>, capacity: nat)
    ensures var s := Idle(accounts, capacity);
            && s.coolUntil == map[] && s.noUsage == {} && s.sessions == map[] && s.until == map[]
            && s.ineligible == {} && s.strikes == map[] && s.rr == 0
  {
    if accounts != [] {
      IdleStatus(accounts[..|accounts| - 1], capacity);
    }
  }

  // ---- routing ----

  lemma FreeGrantIsAvailable(s: State, sid: Option<string>, avoid: bool, now: nat)
    ensures var (r, _) := FreeAcquire(s, sid, avoid, now);
            r.Got? ==> Available(s, r.id, now) && FreeOf(s, r.id) > 0
  {
  }

  lemma LookupKeepsStatus(s: State, sid: string, now: nat, id: string)
    ensures var (t, _) := Lookup(s, sid, now);
            (Available(t, id, now) <==> Available(s, id, now)) && FreeOf(t, id) == FreeOf(s, id)
  {
  }

  /** Whoever is granted is available and had a permit left. */
  lemma GrantedIsAvailable(s: State, sid: Option<string>, avoid: bool, now: nat)
    ensures var (r, _) := TryAcquire(s, sid, avoid, now);
            r.Got? ==> Available(s, r.id, now) && FreeOf(s, r.id) > 0
  {
    var (r, _) := TryAcquire(s, sid, avoid, now);
    if r.Got? {
      if sid.Some? && !avoid {
        FreeGrantIsAvailable(Lookup(s, sid.value, now).0, sid, avoid, now);
        LookupKeepsStatus(s, sid.value, now, r.id);
      } else {
        FreeGrantIsAvailable(s, sid, avoid, now);
      }
    }
  }

  /** Every place in the list comes up on the way round. */
  lemma WrapsAround(start: nat, i: nat, n: nat) returns (k: nat)
    requires i < n
    ensures k < n && (start + k) % n == i
  {
    var m, q := start % n, start / n;
    k := if i >= m then i - m else i - m + n;
    assert start == q * n + m;
    assert (q + 1) * n == q * n + n;
    ModOf(if i >= m then q else q + 1, n, i);
  }

  ghost predicate SomeoneFree(s: State, now: nat) {
    exists id :: id in s.order && Available(s, id, now) && FreeOf(s, id) > 0
  }

  /** A free acquisition succeeds exactly when some available account has a permit, and then takes
      one with the most permits left. */
  lemma FreeAcquireExact(s: State, sid: Option<string>, avoid: bool, now: nat)
    requires s.order != []
    ensures var (r, _) := FreeAcquire(s, sid, avoid, now);
            && (r.Got? <==> SomeoneFree(s, now))
            && (r.Got? ==> r.id in s.order && Available(s, r.id, now)
                           && forall id :: id in s.order && Available(s, id, now) ==> FreeOf(s, id) <= FreeOf(s, r.id))
  {
    var best := BestFree(s, now, |s.order|);
    forall id | id in s.order && Available(s, id, now)
      ensures FreeOf(s, id) <= best
    {
      var i :| 0 <= i < |s.order| && s.order[i] == id;
    }
    if best > 0 {
      var i :| 0 <= i < |s.order| && Available(s, s.order[i], now) && FreeOf(s, s.order[i]) == best;
      var k := WrapsAround(s.rr, i, |s.order|);
      assert At(s, s.rr, k) == s.order[i];
      assert Fits(s, now, best, At(s, s.rr, k));
    }
  }

  // ---- load balance ----

  datatype Visit = Visit(sid: Option<string>, avoid: bool, now: nat)

  function Serve(s: State, vs: seq<Visit>): (res: State) {
    if vs == [] then s
    else
      var v := vs[|vs| - 1];
      FreeAcquire(Serve(s, vs[..|vs| - 1]), v.sid, v.avoid, v.now).1
  }

  /** Availability at every visit is that of the accounts in `able`. */
  ghost predicate Steady(s: State, vs: seq<Visit>, able: set<string>) {
    forall i, id :: 0 <= i < |vs| && id in s.order ==> (Available(s, id, vs[i].now) <==> id in able)
  }

  ghost predicate Level(s: State, able: set<string>) {
    forall a, b :: a in s.order && a in able && b in s.order && b in able ==> FreeOf(s, a) <= FreeOf(s, b) + 1
  }

  lemma TakeMostLevel(s: State, t: State, able: set<string>, id: string)
    requires Level(s, able) && id in able && FreeOf(s, id) > 0
    requires t.order == s.order && t.free == s.free[id := FreeOf(s, id) - 1]
    requires forall a :: a in s.order && a in able ==> FreeOf(s, a) <= FreeOf(s, id)
    ensures Level(t, able)
  {
    assert forall a :: a != id ==> FreeOf(t, a) == FreeOf(s, a);
  }

  lemma SameFreeLevel(s: State, t: State, able: set<string>)
    requires Level(s, able) && t.order == s.order && t.free == s.free
    ensures Level(t, able)
  {
    assert forall a :: FreeOf(t, a) == FreeOf(s, a);
  }

  lemma AcquireTakesOne(s: State, sid: Option<string>, avoid: bool, now: nat)
    ensures var (r, t) := FreeAcquire(s, sid, avoid, now);
            t.free == if r.Got? then TakeOne(s.free, r.id) else s.free
  {
  }

  lemma ServeOneLevel(s: State, v: Visit, able: set<string>)
    requires Level(s, able) && forall id :: id in s.order ==> (Available(s, id, v.now) <==> id in able)
    ensures Level(FreeAcquire(s, v.sid, v.avoid, v.now).1, able)
  {
    var (r, t) := FreeAcquire(s, v.sid, v.avoid, v.now);
    AcquireTakesOne(s, v.sid, v.avoid, v.now);
    if r.Got? {
      FreeGrantIsAvailable(s, v.sid, v.avoid, v.now);
      FreeAcquireExact(s, v.sid, v.avoid, v.now);
      TakeMostLevel(s, t, able, r.id);
    } else {
      SameFreeLevel(s, t, able);
    }
  }

  /** From level loads and with unchanging status, any run of free acquisitions keeps the loads of the
      available accounts within one of each other. */
  lemma {:induction false} LoadsStayLevel(s: State, vs: seq<Visit>, able: set<string>)
    requires Level(s, able) && Steady(s, vs, able)
    ensures Level(Serve(s, vs), able) && SameStatus(s, Serve(s, vs))
  {
    if vs != [] {
      var front, v := vs[..|vs| - 1], vs[|vs| - 1];
      assert forall i :: 0 <= i < |front| ==> front[i] == vs[i];
      LoadsStayLevel(s, front, able);
      assert vs[|vs| - 1] == v;
      ServeOneLevel(Serve(s, front), v, able);
    }
  }

  lemma {:induction false} IdleIsFree(accounts: seq<Account>, capacity: nat)
    ensures var s := Idle(accounts, capacity);
            && s.free.Keys == Ids(s.order) && s.disabled.Keys == Ids(s.order)
            && forall id :: id in s.order ==> FreeOf(s, id) == AtLeastOne(capacity)
  {
    if accounts != [] {
      IdleIsFree(accounts[..|accounts| - 1], capacity);
    }
  }

  /** The pool starts valid, and accounts switched off in the configuration start shut. */
  lemma IdleIsValid(accounts: seq<Account>, capacity: nat)
    ensures var s := Idle(accounts, capacity);
            Valid(s) && forall id :: id in s.disabled && s.disabled[id] ==> Shut(s, id)
  {
    IdleIsFree(accounts, capacity);
    IdleStatus(accounts, capacity);
  }

  function Load(s: State, id: string, capacity: nat): int {
    AtLeastOne(capacity) - FreeOf(s, id)
  }

  /** From an idle pool, whichever of its accounts are able to serve. */
  lemma IdlePoolBalances(accounts: seq<Account>, capacity: nat, vs: seq<Visit>, able: set<string>, a: string, b: string)
    requires Steady(Idle(accounts, capacity), vs, able)
    requires a in Idle(accounts, capacity).order && a in able
    requires b in Idle(accounts, capacity).order && b in able
    ensures var s := Serve(Idle(accounts, capacity), vs);
            -1 <= Load(s, a, capacity) - Load(s, b, capacity) <= 1
  {
    IdleIsFree(accounts, capacity);
    LoadsStayLevel(Idle(accounts, capacity), vs, able);
  }

  // ---- quarantine ----

  datatype Op =
    | DoAcquire(sid: Option<string>, avoid: bool, now: nat)
    | DoRelease(id: string, cool: Option<nat>)
    | DoAutoDisable(id: string, now: nat)
    | DoEnable(id: string)
    | DoDisable(id: string)
    | DoToggle(id: string)
    | DoIneligible(id: string)
    | DoReap(now: nat)
    | DoQuota(id: string, out: bool)

  function Do(s: State, op: Op): (res: State) {
    match op
    case DoAcquire(sid, avoid, now) => TryAcquire(s, sid, avoid, now).1
    case DoRelease(id, cool) => Released(s, id, cool)
    case DoAutoDisable(id, now) => AutoDisabled(s, id, now)
    case DoEnable(id) => WithEnabled(s, id, true)
    case DoDisable(id) => WithEnabled(s, id, false)
    case DoToggle(id) => Toggled(s, id)
    case DoIneligible(id) => Ineligible(s, id)
    case DoReap(now) => Reaped(s, now)
    case DoQuota(id, out) => s.(noUsage := if out then s.noUsage + {id} else s.noUsage - {id})
  }

  function Run(s: State, ops: seq<Op>): (res: State) {
    if ops == [] then s else Do(Run(s, ops[..|ops| - 1]), ops[|ops| - 1])
  }

  /** Acquiring touches permits, sessions and the rotation only. */
  predicate SameGates(s: State, t: State) {
    SameStatus(s, t) && t.free.Keys == s.free.Keys
  }

  lemma FreeAcquireGates(s: State, sid: Option<string>, avoid: bool, now: nat)
    requires Valid(s)
    ensures SameGates(s, FreeAcquire(s, sid, avoid, now).1)
  {
    var (r, t) := FreeAcquire(s, sid, avoid, now);
    if r.Got? {
      FreeAcquireExact(s, sid, avoid, now);
      assert r.id in s.free;
    }
  }

  lemma PermitGates(s: State, id: string)
    requires id in s.free
    ensures SameGates(s, Permit(s, id))
  {
  }

  lemma LookupGates(s: State, sid: string, now: nat)
    requires Valid(s)
    ensures var (t, sticky) := Lookup(s, sid, now);
            Valid(t) && SameGates(s, t) && (sticky.Some? ==> sticky.value in t.free)
  {
  }

  lemma AcquireGates(s: State, sid: Option<string>, avoid: bool, now: nat)
    requires Valid(s)
    ensures SameGates(s, TryAcquire(s, sid, avoid, now).1)
  {
    if sid.Some? && !avoid {
      LookupGates(s, sid.value, now);
      var (t, sticky) := Lookup(s, sid.value, now);
      if sticky.Some? && Available(t, sticky.value, now) && FreeOf(t, sticky.value) > 0 {
        PermitGates(t, sticky.value);
      } else {
        FreeAcquireGates(t, sid, avoid, now);
      }
    } else {
      FreeAcquireGates(s, sid, avoid, now);
    }
  }

  lemma SwitchKeepsKeys(disabled: map<string, bool>, id: string, off: bool)
    requires id in disabled
    ensures disabled[id := off].Keys == disabled.Keys
  {
  }

  lemma SwitchQuarantined(disabled: map<string, bool>, until: map<string, nat>, id: string, off: bool, t: nat)
    requires Quarantined(disabled, until)
    ensures Quarantined(disabled[id := off], until - {id})
    ensures Quarantined(disabled[id := true], until[id := t])
  {
  }

  lemma SwitchValid(s: State, t: State, id: string, off: bool, deadline: nat)
    requires Valid(s) && id in s.disabled && t.order == s.order && t.free == s.free
    requires t.disabled == s.disabled[id := off]
    requires t.until == s.until - {id} || (off && t.until == s.until[id := deadline])
    ensures Valid(t)
  {
    SwitchKeepsKeys(s.disabled, id, off);
    SwitchQuarantined(s.disabled, s.until, id, off, deadline);
  }

  lemma ReapValid(s: State, now: nat)
    requires Valid(s)
    ensures Valid(Reaped(s, now))
  {
  }

  lemma ReleaseValid(s: State, id: string, cool: Option<nat>)
    requires Valid(s)
    ensures Valid(Released(s, id, cool))
  {
  }

  lemma AutoDisableValid(s: State, id: string, now: nat)
    requires Valid(s)
    ensures Valid(AutoDisabled(s, id, now))
  {
    if id in s.disabled {
      SwitchValid(s, AutoDisabled(s, id, now), id, true, now + Quarantine(StrikesOf(s, id) + 1));
    }
  }

  lemma EnableValid(s: State, id: string, on: bool)
    requires Valid(s)
    ensures Valid(WithEnabled(s, id, on))
  {
    if id in s.disabled {
      SwitchValid(s, WithEnabled(s, id, on), id, !on, 0);
    }
  }

  lemma IneligibleValid(s: State, id: string)
    requires Valid(s)
    ensures Valid(Ineligible(s, id))
  {
    if id in s.disabled {
      SwitchValid(s, Ineligible(s, id), id, true, 0);
    }
  }

  lemma DoValid(s: State, op: Op)
    requires Valid(s)
    ensures Valid(Do(s, op))
  {
    match op
    case DoAcquire(sid, avoid, now) => AcquireGates(s, sid, avoid, now);
    case DoAutoDisable(id, now) => AutoDisableValid(s, id, now);
    case DoEnable(id) => EnableValid(s, id, true);
    case DoDisable(id) => EnableValid(s, id, false);
    case DoToggle(id) => EnableValid(s, id, id in s.disabled && s.disabled[id]);
    case DoIneligible(id) => IneligibleValid(s, id);
    case DoReap(now) => ReapValid(s, now);
    case DoRelease(id, cool) => ReleaseValid(s, id, cool);
    case DoQuota(_, _) =>
  }

  /** A quarantine record always belongs to a disabled account. */
  lemma {:induction false} RunValid(s: State, ops: seq<Op>)
    requires Valid(s)
    ensures Valid(Run(s, ops))
  {
    if ops != [] {
      RunValid(s, ops[..|ops| - 1]);
      DoValid(Run(s, ops[..|ops| - 1]), ops[|ops| - 1]);
    }
  }

  /** Reaping restores exactly the accounts whose quarantine has run out, and no other. */
  lemma ReapRestores(s: State, now: nat, id: string)
    requires Valid(s) && id in s.disabled
    ensures var t := Reaped(s, now);
            && (id in s.until && s.until[id] <= now ==> !t.disabled[id] && id !in t.until)
            && (!(id in s.until && s.until[id] <= now) ==> t.disabled[id] == s.disabled[id])
  {
  }

  predicate Touches(op: Op, id: string) {
    (op.DoEnable? && op.id == id) || (op.DoToggle? && op.id == id) || (op.DoAutoDisable? && op.id == id)
  }

  /** Shut for good: disabled with no quarantine record to end it. */
  ghost predicate Shut(s: State, id: string) {
    id in s.disabled && s.disabled[id] && id !in s.until
  }

  // ---- when a disabled account comes back ----

  /** What becomes of one account: switched off or not, its strikes, and when its quarantine ends. */
  datatype Sentence = Sentence(off: bool, strikes: nat, deadline: Option<nat>)

  function SentenceOf(s: State, id: string): (t: Sentence) {
    Sentence(id in s.disabled && s.disabled[id], StrikesOf(s, id), if id in s.until then Some(s.until[id]) else None)
  }

  /** An automatic disable switches off and sets the deadline, every manual change clears it, and a
      reap that finds it passed switches on. */
  function Sentenced(t: Sentence, op: Op, id: string): (res: Sentence) {
    match op
    case DoAutoDisable(a, now) =>
      if a == id then Sentence(true, t.strikes + 1, Some(now + Quarantine(t.strikes + 1))) else t
    case DoEnable(a) => if a == id then Sentence(false, t.strikes, None) else t
    case DoDisable(a) => if a == id then Sentence(true, t.strikes, None) else t
    case DoIneligible(a) => if a == id then Sentence(true, t.strikes, None) else t
    case DoToggle(a) => if a == id then Sentence(!t.off, t.strikes, None) else t
    case DoReap(now) =>
      if t.deadline.Some? && t.deadline.value <= now then Sentence(false, t.strikes, None) else t
    case DoAcquire(_, _, _) | DoRelease(_, _) | DoQuota(_, _) => t
  }

  function Tracked(t: Sentence, ops: seq<Op>, id: string): (res: Sentence) {
    if ops == [] then t else Sentenced(Tracked(t, ops[..|ops| - 1], id), ops[|ops| - 1], id)
  }

  /** The operations that enable a disabled account: by hand, or a reap once its deadline has come. */
  predicate Reopens(t: Sentence, op: Op, id: string) {
    || ((op.DoEnable? || op.DoToggle?) && op.id == id)
    || (op.DoReap? && t.deadline.Some? && t.deadline.value <= op.now)
  }

  predicate Off(s: State, id: string) {
    SentenceOf(s, id).off
  }

  lemma AutoDisableTracked(s: State, op: Op, id: string)
    requires id in s.disabled && op.DoAutoDisable?
    ensures SentenceOf(Do(s, op), id) == Sentenced(SentenceOf(s, id), op, id)
  {
  }

  lemma EnableTracked(s: State, a: string, on: bool, id: string)
    requires id in s.disabled
    ensures SentenceOf(WithEnabled(s, a, on), id) ==
            if a == id then Sentence(!on, StrikesOf(s, id), None) else SentenceOf(s, id)
  {
  }

  lemma IneligibleTracked(s: State, a: string, id: string)
    requires id in s.disabled
    ensures SentenceOf(Ineligible(s, a), id) ==
            if a == id then Sentence(true, StrikesOf(s, id), None) else SentenceOf(s, id)
  {
  }

  lemma SwitchTracked(s: State, op: Op, id: string)
    requires id in s.disabled && (op.DoEnable? || op.DoDisable? || op.DoToggle? || op.DoIneligible?)
    ensures SentenceOf(Do(s, op), id) == Sentenced(SentenceOf(s, id), op, id)
  {
    match op
    case DoEnable(a) => EnableTracked(s, a, true, id);
    case DoDisable(a) => EnableTracked(s, a, false, id);
    case DoToggle(a) => EnableTracked(s, a, a in s.disabled && s.disabled[a], id);
    case DoIneligible(a) => IneligibleTracked(s, a, id);
  }

  lemma ReapTracked(s: State, op: Op, id: string)
    requires id in s.disabled && op.DoReap?
    ensures SentenceOf(Do(s, op), id) == Sentenced(SentenceOf(s, id), op, id)
  {
  }

  lemma UseTracked(s: State, op: Op, id: string)
    requires op.DoRelease? || op.DoQuota?
    ensures SentenceOf(Do(s, op), id) == Sentenced(SentenceOf(s, id), op, id)
  {
  }

  lemma AcquireTracked(s: State, op: Op, id: string)
    requires op.DoAcquire?
    ensures SentenceOf(Do(s, op), id) == Sentenced(SentenceOf(s, id), op, id)
  {
  }

  lemma DoTracked(s: State, op: Op, id: string)
    requires Valid(s) && id in s.disabled
    ensures SentenceOf(Do(s, op), id) == Sentenced(SentenceOf(s, id), op, id)
  {
    match op
    case DoAutoDisable(_, _) => AutoDisableTracked(s, op, id);
    case DoReap(_) => ReapTracked(s, op, id);
    case DoEnable(_) | DoDisable(_) | DoToggle(_) | DoIneligible(_) => SwitchTracked(s, op, id);
    case DoAcquire(_, _, _) => AcquireTracked(s, op, id);
    case DoRelease(_, _) | DoQuota(_, _) => UseTracked(s, op, id);
  }

  lemma DoKeepsAccounts(s: State, op: Op)
    requires Valid(s)
    ensures Do(s, op).disabled.Keys == s.disabled.Keys
  {
    DoValid(s, op);
  }

  lemma {:induction false} RunKeepsAccounts(s: State, ops: seq<Op>)
    requires Valid(s)
    ensures Run(s, ops).disabled.Keys == s.disabled.Keys
  {
    if ops != [] {
      RunKeepsAccounts(s, ops[..|ops| - 1]);
      RunValid(s, ops[..|ops| - 1]);
      DoKeepsAccounts(Run(s, ops[..|ops| - 1]), ops[|ops| - 1]);
    }
  }

  lemma {:induction false} RunTracked(s: State, ops: seq<Op>, id: string)
    requires Valid(s) && id in s.disabled
    ensures SentenceOf(Run(s, ops), id) == Tracked(SentenceOf(s, id), ops, id)
  {
    if ops != [] {
      RunTracked(s, ops[..|ops| - 1], id);
      RunKeepsAccounts(s, ops[..|ops| - 1]);
      RunValid(s, ops[..|ops| - 1]);
      DoTracked(Run(s, ops[..|ops| - 1]), ops[|ops| - 1], id);
    }
  }

  lemma TrackedStep(t: Sentence, ops: seq<Op>, id: string, i: nat)
    requires i < |ops| && Tracked(t, ops[..i], id).off
    ensures Tracked(t, ops[..i + 1], id).off <==> !Reopens(Tracked(t, ops[..i], id), ops[i], id)
  {
    assert ops[..i + 1][..i] == ops[..i];
  }

  /** One step of a run on an account that is off before it. */
  lemma OffStep(s: State, ops: seq<Op>, id: string, i: nat)
    requires Valid(s) && id in s.disabled && i < |ops| && Off(Run(s, ops[..i]), id)
    ensures Off(Run(s, ops[..i + 1]), id) <==> !Reopens(Tracked(SentenceOf(s, id), ops[..i], id), ops[i], id)
  {
    RunTracked(s, ops[..i], id);
    RunTracked(s, ops[..i + 1], id);
    TrackedStep(SentenceOf(s, id), ops, id, i);
  }

  lemma {:induction false} OffUpTo(s: State, ops: seq<Op>, id: string, n: nat)
    requires Valid(s) && Off(s, id) && n <= |ops|
    requires forall i :: 0 <= i < n ==> !Reopens(Tracked(SentenceOf(s, id), ops[..i], id), ops[i], id)
    ensures Off(Run(s, ops[..n]), id)
  {
    if n > 0 {
      OffUpTo(s, ops, id, n - 1);
      OffStep(s, ops, id, n - 1);
    }
  }

  /** A disabled account stays disabled throughout a run exactly when nothing in the run enables or toggles
      it and no reap comes at or after the deadline that the run's automatic disables have set. */
  lemma StaysDisabled(s: State, ops: seq<Op>, id: string)
    requires Valid(s) && Off(s, id)
    ensures (forall k :: 0 <= k <= |ops| ==> Off(Run(s, ops[..k]), id)) <==>
            (forall i :: 0 <= i < |ops| ==> !Reopens(Tracked(SentenceOf(s, id), ops[..i], id), ops[i], id))
  {
    if forall i :: 0 <= i < |ops| ==> !Reopens(Tracked(SentenceOf(s, id), ops[..i], id), ops[i], id) {
      forall k | 0 <= k <= |ops|
        ensures Off(Run(s, ops[..k]), id)
      {
        OffUpTo(s, ops, id, k);
      }
    }
    if forall k :: 0 <= k <= |ops| ==> Off(Run(s, ops[..k]), id) {
      forall i | 0 <= i < |ops|
        ensures !Reopens(Tracked(SentenceOf(s, id), ops[..i], id), ops[i], id)
      {
        assert Off(Run(s, ops[..i]), id) && Off(Run(s, ops[..i + 1]), id);
        OffStep(s, ops, id, i);
      }
    }
  }

  /** In particular after a manual disable or a mark as ineligible, in any state: with the strikes it
      has and no deadline to begin with. */
  lemma ManualStaysDisabled(s: State, how: Op, ops: seq<Op>, id: string)
    requires Valid(s) && id in s.disabled && (how == DoDisable(id) || how == DoIneligible(id))
    ensures var t := Sentence(true, StrikesOf(s, id), None);
            (forall k :: 0 <= k <= |ops| ==> Off(Run(Do(s, how), ops[..k]), id)) <==>
            (forall i :: 0 <= i < |ops| ==> !Reopens(Tracked(t, ops[..i], id), ops[i], id))
  {
    DoValid(s, how);
    DoTracked(s, how, id);
    StaysDisabled(Do(s, how), ops, id);
  }

  /** While a run keeps it disabled no request is routed to it, sticky or free. */
  lemma DisabledIsNeverGranted(s: State, ops: seq<Op>, id: string, sid: Option<string>, avoid: bool, now: nat)
    requires Valid(s) && Off(s, id)
    requires forall i :: 0 <= i < |ops| ==> !Reopens(Tracked(SentenceOf(s, id), ops[..i], id), ops[i], id)
    ensures TryAcquire(Run(s, ops), sid, avoid, now).0 != Got(id)
  {
    OffUpTo(s, ops, id, |ops|);
    assert ops[..|ops|] == ops;
    GrantedIsAvailable(Run(s, ops), sid, avoid, now);
  }

  lemma DoKeepsShut(s: State, op: Op, id: string)
    requires Valid(s) && Shut(s, id) && !Touches(op, id)
    ensures Shut(Do(s, op), id)
  {
    DoTracked(s, op, id);
    DoKeepsAccounts(s, op);
  }

  lemma {:induction false} StaysShut(s: State, ops: seq<Op>, id: string)
    requires Valid(s) && Shut(s, id) && forall i :: 0 <= i < |ops| ==> !Touches(ops[i], id)
    ensures Shut(Run(s, ops), id)
  {
    if ops != [] {
      StaysShut(s, ops[..|ops| - 1], id);
      RunValid(s, ops[..|ops| - 1]);
      DoKeepsShut(Run(s, ops[..|ops| - 1]), ops[|ops| - 1], id);
    }
  }

  /** So a shut account never serves in a run without enabling, toggling or auto-disabling it. */
  lemma ShutIsNeverGranted(s: State, ops: seq<Op>, id: string, sid: Option<string>, avoid: bool, now: nat)
    requires Valid(s) && Shut(s, id) && forall i :: 0 <= i < |ops| ==> !Touches(ops[i], id)
    ensures Shut(Run(s, ops), id) && TryAcquire(Run(s, ops), sid, avoid, now).0 != Got(id)
  {
    StaysShut(s, ops, id);
    GrantedIsAvailable(Run(s, ops), sid, avoid, now);
  }

  predicate Interrupts(op: Op, id: string, deadline: nat) {
    || Touches(op, id)
    || (op.DoDisable? && op.id == id) || (op.DoIneligible? && op.id == id)
    || (op.DoReap? && op.now >= deadline)
  }

  ghost predicate Serving(s: State, id: string, deadline: nat) {
    id in s.disabled && s.disabled[id] && id in s.until && s.until[id] == deadline
  }

  lemma DoKeepsServing(s: State, op: Op, id: string, deadline: nat)
    requires Valid(s) && Serving(s, id, deadline) && !Interrupts(op, id, deadline)
    ensures Serving(Do(s, op), id, deadline)
  {
    DoTracked(s, op, id);
    DoKeepsAccounts(s, op);
  }

  lemma {:induction false} KeepsServing(s: State, ops: seq<Op>, id: string, deadline: nat)
    requires Valid(s) && Serving(s, id, deadline)
    requires forall i :: 0 <= i < |ops| ==> !Interrupts(ops[i], id, deadline)
    ensures Valid(Run(s, ops)) && Serving(Run(s, ops), id, deadline)
  {
    if ops != [] {
      KeepsServing(s, ops[..|ops| - 1], id, deadline);
      DoValid(Run(s, ops[..|ops| - 1]), ops[|ops| - 1]);
      DoKeepsServing(Run(s, ops[..|ops| - 1]), ops[|ops| - 1], id, deadline);
    }
  }

  /** An auto-disabled account is out for its whole quarantine, whatever else happens, and the first
      reap at or after the deadline brings it back. */
  lemma QuarantineRuns(s: State, id: string, now: nat, ops: seq<Op>, reap: nat)
    requires Valid(s) && id in s.disabled
    requires var d := now + Quarantine(StrikesOf(s, id) + 1);
             d <= reap && forall i :: 0 <= i < |ops| ==> !Interrupts(ops[i], id, d)
    ensures var t := Run(AutoDisabled(s, id, now), ops);
            && id in t.disabled && t.disabled[id]
            && !Reaped(t, reap).disabled[id] && id !in Reaped(t, reap).until
  {
    var u, d := AutoDisabled(s, id, now), now + Quarantine(StrikesOf(s, id) + 1);
    AutoDisableValid(s, id, now);
    KeepsServing(u, ops, id, d);
    ReapRestores(Run(u, ops), reap, id);
  }

  /** Auto-disabling an ineligible account lets the reaper bring it back: the first reap enables it
      exactly when it comes at or after the end of the quarantine. */
  lemma AutoDisableRevivesIneligible(s: State, id: string, now: nat, reap: nat)
    requires Valid(s) && id in s.disabled
    ensures var u := Reaped(AutoDisabled(Ineligible(s, id), id, now), reap);
            && id in u.ineligible && id in u.disabled
            && (!u.disabled[id] <==> reap >= now + Quarantine(StrikesOf(s, id) + 1))
  {
    IneligibleValid(s, id);
    AutoDisableValid(Ineligible(s, id), id, now);
    ReapRestores(AutoDisabled(Ineligible(s, id), id, now), reap, id);
  }

  // ---- routing in terms of the pool's own tables ----

  /** Enabled, past any cooldown, not out of usage, with a permit left. */
  predicate Fit(s: State, id: string, now: nat) {
    && id in s.free && s.free[id] > 0
    && (id in s.disabled ==> !s.disabled[id])
    && (id in s.coolUntil ==> s.coolUntil[id] <= now)
    && id !in s.noUsage
  }

  /** Nobody who is disabled, cooling, out of usage or without a permit is ever granted. */
  lemma GrantedIsFit(s: State, sid: Option<string>, avoid: bool, now: nat)
    ensures var (r, _) := TryAcquire(s, sid, avoid, now); r.Got? ==> Fit(s, r.id, now)
  {
    GrantedIsAvailable(s, sid, avoid, now);
  }

  /** A free acquisition finds an account exactly when a fit one is listed. */
  lemma FreeGrantIff(s: State, sid: Option<string>, avoid: bool, now: nat)
    requires s.order != []
    ensures FreeAcquire(s, sid, avoid, now).0.Got? <==> exists id :: id in s.order && Fit(s, id, now)
  {
    FreeAcquireExact(s, sid, avoid, now);
    if SomeoneFree(s, now) {
      var id :| id in s.order && Available(s, id, now) && FreeOf(s, id) > 0;
      assert Fit(s, id, now);
    }
    if id :| id in s.order && Fit(s, id, now) {
      assert Available(s, id, now) && FreeOf(s, id) > 0;
    }
  }

  /** A live binding to a fit account wins, whoever else is free: it takes one permit and nothing more. */
  lemma StickyWins(s: State, sid: string, now: nat)
    requires sid in s.sessions && s.sessions[sid].expiry > now && Fit(s, s.sessions[sid].account, now)
    ensures var id := s.sessions[sid].account;
            TryAcquire(s, Some(sid), false, now) == (Got(id), s.(free := s.free[id := s.free[id] - 1]))
  {
  }

  /** Otherwise the choice is free: a binding that expired or lost its account is dropped first, and one to
      an account that is not fit stays until it is replaced. */
  lemma OtherwiseFree(s: State, sid: Option<string>, avoid: bool, now: nat)
    ensures sid.None? || avoid ==> TryAcquire(s, sid, avoid, now) == FreeAcquire(s, sid, avoid, now)
    ensures sid.Some? && !avoid && sid.value in s.sessions ==>
              var b := s.sessions[sid.value];
              && (b.expiry <= now || b.account !in s.free ==>
                    TryAcquire(s, sid, avoid, now) ==
                    FreeAcquire(s.(sessions := s.sessions - {sid.value}), sid, avoid, now))
              && (b.expiry > now && b.account in s.free && !Fit(s, b.account, now) ==>
                    TryAcquire(s, sid, avoid, now) == FreeAcquire(s, sid, avoid, now))
  {
  }

  /** A free grant takes one permit, advances the rotation and, unless stickiness is avoided, binds the
      session for an hour. */
  lemma FreeGrantMeans(s: State, sid: Option<string>, avoid: bool, now: nat)
    requires FreeAcquire(s, sid, avoid, now).0.Got?
    ensures var (r, t) := FreeAcquire(s, sid, avoid, now);
            && r.id in s.free && t.free == s.free[r.id := s.free[r.id] - 1] && t.rr == s.rr + 1
            && t.sessions == (if sid.Some? && !avoid then s.sessions[sid.value := Binding(r.id, now + 3600)]
                              else s.sessions)
  {
    FreeGrantIsAvailable(s, sid, avoid, now);
  }

  /** So within the hour the session comes back to the same account as long as that is fit. */
  lemma SessionComesBack(s: State, sid: string, now: nat, later: nat, t: State)
    requires FreeAcquire(s, Some(sid), false, now).0.Got? && later < now + 3600
    requires t.sessions == FreeAcquire(s, Some(sid), false, now).1.sessions
    requires Fit(t, FreeAcquire(s, Some(sid), false, now).0.id, later)
    ensures TryAcquire(t, Some(sid), false, later).0 == FreeAcquire(s, Some(sid), false, now).0
  {
    FreeGrantMeans(s, Some(sid), false, now);
    StickyWins(t, sid, later);
  }

  lemma {:induction false} FirstFromIsFirst(s: State, now: nat, best: nat, start: nat, i: nat) returns (k: nat)
    requires s.order != [] && i <= |s.order| && FirstFrom(s, now, best, start, i).Some?
    ensures i <= k < |s.order| && Some(At(s, start, k)) == FirstFrom(s, now, best, start, i)
    ensures forall j :: i <= j < k ==> !Fits(s, now, best, At(s, start, j))
    decreases |s.order| - i
  {
    k := i;
    if !Fits(s, now, best, At(s, start, i)) {
      k := FirstFromIsFirst(s, now, best, start, i + 1);
    }
  }

  /** Among the accounts with the most permits left the rotation decides: the first one from its place on. */
  lemma RotationDecides(s: State, now: nat) returns (k: nat)
    requires s.order != [] && Choose(s, now).Some?
    ensures k < |s.order| && Choose(s, now) == Some(s.order[(s.rr + k) % |s.order|])
    ensures forall j :: 0 <= j < k ==>
              !(Fit(s, At(s, s.rr, j), now) && s.free[At(s, s.rr, j)] == FreeOf(s, Choose(s, now).value))
  {
    var best := BestFree(s, now, |s.order|);
    k := FirstFromIsFirst(s, now, best, s.rr, 0);
    assert Fits(s, now, best, Choose(s, now).value);
  }

  // ---- giving back ----

  /** A release gives the permit back; a failed one also keeps the account from being granted until the
      cooldown is over. */
  lemma ReleaseMeans(s: State, id: string, cool: Option<nat>, sid: Option<string>, avoid: bool, now: nat)
    requires id in s.free
    ensures var t := Released(s, id, cool);
            && t.free == s.free[id := s.free[id] + 1] && t.sessions == s.sessions && t.disabled == s.disabled
            && (cool.Some? && now < cool.value ==> TryAcquire(t, sid, avoid, now).0 != Got(id))
  {
    GrantedIsFit(Released(s, id, cool), sid, avoid, now);
  }

  /** An acquisition and its release leave every permit where it was. */
  lemma AcquireThenRelease(s: State, sid: Option<string>, avoid: bool, now: nat)
    requires FreeAcquire(s, sid, avoid, now).0.Got?
    ensures var (r, t) := FreeAcquire(s, sid, avoid, now); Released(t, r.id, None).free == s.free
  {
    FreeGrantMeans(s, sid, avoid, now);
    var (r, t) := FreeAcquire(s, sid, avoid, now);
    FreeGrantIsAvailable(s, sid, avoid, now);
  }

  /** Taking an account out unbinds exactly its own sessions; enabling it lifts its mark, disabling keeps it. */
  lemma OutMeansUnbound(s: State, id: string, now: nat, sid: string)
    requires id in s.disabled
    ensures sid in AutoDisabled(s, id, now).sessions <==> sid in s.sessions && s.sessions[sid].account != id
    ensures sid in Ineligible(s, id).sessions <==> sid in s.sessions && s.sessions[sid].account != id
    ensures id in Ineligible(s, id).ineligible && id !in WithEnabled(s, id, true).ineligible
    ensures WithEnabled(s, id, false).ineligible == s.ineligible
  {
  }
}
