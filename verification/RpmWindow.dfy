/** `RpmTracker`: requests in the last 60 seconds, kept in 60 reusable words per key. A word packs the
    second in its high and the count in its low 32 bits. */
module RpmWindow {
  import opened Common

  function Slot(t: nat): (i: nat)
    ensures i < 60
  {
    t % 60
  }

  type Words = w: seq<nat> | |w| == 60 witness Zeros(60)

  function Zeros(n: nat): (w: seq<nat>)
    ensures |w| == n && forall i :: 0 <= i < n ==> w[i] == 0
  {
    if n == 0 then [] else Zeros(n - 1) + [0]
  }

  const ZEROS: Words := Zeros(60)

  /** `sec << 32 | cnt`; a count of 2^32 no longer fits and sets the lowest bit of the second. */
  function Pack(sec: nat, cnt: nat): (w: nat) {
    if cnt < 0x1_0000_0000 then sec * 0x1_0000_0000 + cnt
    else if sec % 2 == 0 then (sec + 1) * 0x1_0000_0000
    else sec * 0x1_0000_0000
  }

  function Second(w: nat): nat {
    w / 0x1_0000_0000
  }

  function Tally(w: nat): nat {
    w % 0x1_0000_0000
  }

  function Bump(ws: Words, now: nat): (res: Words) {
    var i, sec := Slot(now), now % 0x1_0000_0000;
    ws[i := if Second(ws[i]) == sec then Pack(sec, Tally(ws[i]) + 1) else Pack(sec, 1)]
  }

  /** What one word adds to the reading at `now`; a second in the future counts as current. */
  function Share(w: nat, now: nat): nat {
    var age := if now >= Second(w) then now - Second(w) else 0;
    if age < 60 then Tally(w) else 0
  }

  function Reading(ws: seq<nat>, now: nat): (n: nat) {
    if ws == [] then 0 else Reading(ws[..|ws| - 1], now) + Share(ws[|ws| - 1], now)
  }

  class RpmTracker {
    var buckets: map<string, Words>

    constructor ()
      ensures buckets == map[]
    {
      buckets := map[];
    }

    method Hit(key: string, now: nat)
      modifies this
      ensures buckets == old(buckets)[key := Bump(if key in old(buckets) then old(buckets)[key] else ZEROS, now)]
    {
      var ws: Words := if key in buckets then buckets[key] else ZEROS;
      var i, packed := Slot(now), now % 0x1_0000_0000;
      var cur := ws[i];
      var next := if Second(cur) == packed then Pack(packed, Tally(cur) + 1) else Pack(packed, 1);
      buckets := buckets[key := ws[i := next]];
    }

    method Rpm(key: string, now: nat) returns (total: nat)
      ensures total == if key in buckets then Reading(buckets[key], now) else 0
    {
      if key !in buckets {
        return 0;
      }
      var ws := buckets[key];
      total := 0;
      for i := 0 to 60
        invariant total == Reading(ws[..i], now)
      {
        assert ws[..i + 1][..i] == ws[..i];
        total := total + Share(ws[i], now);
      }
      assert ws[..60] == ws;
    }
  }

  // ---- the log it stands for ----

  function After(log: seq<nat>): (ws: Words) {
    if log == [] then ZEROS else Bump(After(log[..|log| - 1]), log[|log| - 1])
  }

  function HitsAt(log: seq<nat>, t: nat): (n: nat) {
    if log == [] then 0 else HitsAt(log[..|log| - 1], t) + (if log[|log| - 1] == t then 1 else 0)
  }

  /** Logged hits less than 60 seconds old at `now`, in slots below `slot`. */
  function Recent(log: seq<nat>, now: nat, slot: nat): (n: nat) {
    if log == [] then 0
    else
      var t := log[|log| - 1];
      Recent(log[..|log| - 1], now, slot) + (if now - 60 < t && Slot(t) < slot then 1 else 0)
  }

  /** Seconds and counts fit their halves of a word. */
  ghost predicate Fits(log: seq<nat>) {
    && (forall i :: 0 <= i < |log| ==> log[i] < 0x1_0000_0000)
    && forall t :: HitsAt(log, t) < 0x1_0000_0000
  }

  lemma FitsPrefix(log: seq<nat>)
    requires Fits(log) && log != []
    ensures Fits(log[..|log| - 1])
  {
    var front := log[..|log| - 1];
    forall t: nat
      ensures HitsAt(front, t) < 0x1_0000_0000
    {
      assert HitsAt(front, t) <= HitsAt(log, t);
    }
  }

  // ---- what the words hold, in any order of hits ----

  /** The second a slot was last hit in, and how often since it was last hit in another one. */
  function Latest(log: seq<nat>, slot: nat): (t: Option<(nat, nat)>)
    ensures t.Some? ==> t.value.0 in log && Slot(t.value.0) == slot && 0 < t.value.1 <= HitsAt(log, t.value.0)
    ensures t.None? ==> forall i :: 0 <= i < |log| ==> Slot(log[i]) != slot
  {
    if log == [] then None
    else
      var last := log[|log| - 1];
      var before := Latest(log[..|log| - 1], slot);
      if Slot(last) != slot then before
      else if before.Some? && before.value.0 == last then Some((last, before.value.1 + 1))
      else Some((last, 1))
  }

  function Expected(log: seq<nat>, slot: nat): nat {
    match Latest(log, slot)
    case None => 0
    case Some(t) => t.0 * 0x1_0000_0000 + t.1
  }

  lemma UnpackWord(sec: nat, cnt: nat)
    requires cnt < 0x1_0000_0000
    ensures Second(sec * 0x1_0000_0000 + cnt) == sec && Tally(sec * 0x1_0000_0000 + cnt) == cnt
  {
  }

  /** The word the newest hit lands in. */
  lemma HitSlot(log: seq<nat>, w: nat)
    requires Fits(log) && log != []
    requires w == Expected(log[..|log| - 1], Slot(log[|log| - 1]))
    ensures var now := log[|log| - 1];
            (if Second(w) == now then Pack(now, Tally(w) + 1) else Pack(now, 1)) == Expected(log, Slot(now))
  {
    var front, now := log[..|log| - 1], log[|log| - 1];
    FitsPrefix(log);
    match Latest(front, Slot(now))
    case None => UnpackWord(0, 0);
    case Some(t) =>
      assert HitsAt(front, t.0) < 0x1_0000_0000 && HitsAt(log, now) < 0x1_0000_0000;
      UnpackWord(t.0, t.1);
  }

  lemma BumpSlot(ws: Words, now: nat, slot: nat)
    requires now < 0x1_0000_0000 && slot < 60
    ensures Bump(ws, now)[slot] ==
            if slot != Slot(now) then ws[slot]
            else if Second(ws[slot]) == now then Pack(now, Tally(ws[slot]) + 1) else Pack(now, 1)
  {
  }

  /** Whatever the order, a word holds its slot's last second and the hits since it took over. */
  lemma {:induction false} WordsMatchLog(log: seq<nat>, slot: nat)
    requires Fits(log) && slot < 60
    ensures After(log)[slot] == Expected(log, slot)
  {
    if log != [] {
      var front, now := log[..|log| - 1], log[|log| - 1];
      FitsPrefix(log);
      WordsMatchLog(front, slot);
      BumpSlot(After(front), now, slot);
      if slot == Slot(now) {
        HitSlot(log, After(front)[slot]);
      }
    }
  }

  // ---- one slot against the log ----

  /** Hit `j` restarts the word that was still counting the recent hit `i`. */
  predicate Wipes(log: seq<nat>, now: nat, i: int, j: int) {
    0 <= i < j < |log| && now - 60 < log[i] && Slot(log[i]) == Slot(log[j]) && log[i] != log[j]
  }

  ghost predicate Clean(log: seq<nat>, now: nat, slot: nat) {
    forall i, j :: Wipes(log, now, i, j) ==> Slot(log[i]) != slot
  }

  function RecentIn(log: seq<nat>, now: nat, slot: nat): (n: nat) {
    if log == [] then 0
    else
      var t := log[|log| - 1];
      RecentIn(log[..|log| - 1], now, slot) + (if now - 60 < t && Slot(t) == slot then 1 else 0)
  }

  lemma {:induction false} RecentInPositive(log: seq<nat>, now: nat, slot: nat)
    ensures RecentIn(log, now, slot) > 0 <==>
            exists i :: 0 <= i < |log| && now - 60 < log[i] && Slot(log[i]) == slot
  {
    if log != [] {
      var front := log[..|log| - 1];
      RecentInPositive(front, now, slot);
      assert forall i :: 0 <= i < |front| ==> front[i] == log[i];
    }
  }

  /** In a clean slot every recent hit is of the slot's last second. */
  lemma CleanIsLatest(log: seq<nat>, now: nat, slot: nat, i: nat)
    requires Clean(log, now, slot) && i < |log| && now - 60 < log[i] && Slot(log[i]) == slot
    ensures Latest(log, slot).Some? && Latest(log, slot).value.0 == log[i]
  {
    var j := LatestIndex(log, slot);
    assert log[j] != log[i] ==> Wipes(log, now, i, j);
  }

  lemma {:induction false} LatestIndex(log: seq<nat>, slot: nat) returns (j: nat)
    requires Latest(log, slot).Some?
    ensures j < |log| && log[j] == Latest(log, slot).value.0
    ensures forall i :: j < i < |log| ==> Slot(log[i]) != slot
  {
    j := |log| - 1;
    if Slot(log[j]) != slot {
      j := LatestIndex(log[..|log| - 1], slot);
    }
  }

  lemma CleanPrefix(log: seq<nat>, now: nat, slot: nat)
    requires log != [] && Clean(log, now, slot)
    ensures Clean(log[..|log| - 1], now, slot)
  {
    var front := log[..|log| - 1];
    forall i, j | Wipes(front, now, i, j)
      ensures Slot(front[i]) != slot
    {
      assert Wipes(log, now, i, j);
    }
  }

  /** A slot stays clean exactly when the newest hit continues what was recent in it. */
  lemma CleanStep(log: seq<nat>, now: nat, slot: nat)
    requires log != [] && Clean(log[..|log| - 1], now, slot)
    ensures var n := |log| - 1;
            Clean(log, now, slot) <==>
            (|| Slot(log[n]) != slot
             || forall i :: 0 <= i < n && now - 60 < log[i] && Slot(log[i]) == slot ==> log[i] == log[n])
  {
    var n := |log| - 1;
    var front := log[..n];
    forall i, j | Wipes(log, now, i, j) && j < n
      ensures Slot(log[i]) != slot
    {
      assert Wipes(front, now, i, j);
    }
    if Clean(log, now, slot) {
      forall i | 0 <= i < n && now - 60 < log[i] && Slot(log[i]) == slot && Slot(log[n]) == slot
        ensures log[i] == log[n]
      {
        assert log[i] != log[n] ==> Wipes(log, now, i, n);
      }
    }
  }

  /** A slot never adds more than its recent hits, and adds all of them exactly when it is clean. */
  lemma {:induction false} SlotShare(log: seq<nat>, now: nat, slot: nat)
    requires Fits(log) && slot < 60
    ensures var share := Share(Expected(log, slot), now); var all := RecentIn(log, now, slot);
            share <= all && (share == all <==> Clean(log, now, slot))
  {
    if log == [] {
      UnpackWord(0, 0);
    } else {
      FitsPrefix(log);
      SlotShare(log[..|log| - 1], now, slot);
      SlotStep(log, now, slot);
    }
  }

  lemma ShareOf(log: seq<nat>, now: nat, slot: nat)
    requires Fits(log)
    ensures Share(Expected(log, slot), now) ==
            match Latest(log, slot) case None => 0 case Some(t) => if now - 60 < t.0 then t.1 else 0
  {
    match Latest(log, slot)
    case None => UnpackWord(0, 0);
    case Some(t) =>
      assert HitsAt(log, t.0) < 0x1_0000_0000;
      UnpackWord(t.0, t.1);
  }

  lemma SlotStep(log: seq<nat>, now: nat, slot: nat)
    requires Fits(log) && log != [] && Fits(log[..|log| - 1])
    requires var front := log[..|log| - 1];
             var share := Share(Expected(front, slot), now); var all := RecentIn(front, now, slot);
             share <= all && (share == all <==> Clean(front, now, slot))
    ensures var share := Share(Expected(log, slot), now); var all := RecentIn(log, now, slot);
            share <= all && (share == all <==> Clean(log, now, slot))
  {
    var front, last := log[..|log| - 1], log[|log| - 1];
    ShareOf(front, now, slot);
    ShareOf(log, now, slot);
    RecentInPositive(front, now, slot);
    if Clean(front, now, slot) {
      CleanStep(log, now, slot);
      forall i | 0 <= i < |front| && now - 60 < front[i] && Slot(front[i]) == slot
        ensures Latest(front, slot).Some? && Latest(front, slot).value.0 == front[i]
      {
        CleanIsLatest(front, now, slot, i);
      }
    } else if Clean(log, now, slot) {
      CleanPrefix(log, now, slot);
    }
  }

  // ---- all slots ----

  lemma {:induction false} RecentBelow(log: seq<nat>, now: nat, slot: nat)
    ensures Recent(log, now, slot + 1) == Recent(log, now, slot) + RecentIn(log, now, slot)
  {
    if log != [] {
      RecentBelow(log[..|log| - 1], now, slot);
    }
  }

  lemma {:induction false} NoSlots(log: seq<nat>, now: nat)
    ensures Recent(log, now, 0) == 0
  {
    if log != [] {
      NoSlots(log[..|log| - 1], now);
    }
  }

  lemma {:induction false} ReadingCounts(log: seq<nat>, now: nat, n: nat)
    requires Fits(log) && n <= 60
    ensures var got := Reading(After(log)[..n], now); var all := Recent(log, now, n);
            got <= all && (got == all <==> forall slot: nat :: slot < n ==> Clean(log, now, slot))
  {
    if n == 0 {
      NoSlots(log, now);
    } else {
      ReadingCounts(log, now, n - 1);
      assert After(log)[..n][..n - 1] == After(log)[..n - 1];
      WordsMatchLog(log, n - 1);
      SlotShare(log, now, n - 1);
      RecentBelow(log, now, n - 1);
    }
  }

  /** For every history in any order: the reading never exceeds the number of hits of the last 60
      seconds, and equals it exactly when no recent hit is followed by a hit of another second in its slot. */
  lemma ReadingExact(log: seq<nat>, now: nat)
    requires Fits(log)
    ensures var got := Reading(After(log), now); var all := Recent(log, now, 60);
            got <= all && (got == all <==> forall i, j :: !Wipes(log, now, i, j))
  {
    ReadingCounts(log, now, 60);
    assert After(log)[..60] == After(log);
    if forall slot: nat :: slot < 60 ==> Clean(log, now, slot) {
      forall i, j
        ensures !Wipes(log, now, i, j)
      {
        assert Wipes(log, now, i, j) ==> !Clean(log, now, Slot(log[i]));
      }
    }
  }

  /** In particular the 60 reused words read exactly the hits logged in (now - 60, now] when hits
      commit in time order. */
  lemma ReadingIsSlidingWindow(log: seq<nat>, now: nat)
    requires Fits(log) && (forall i, j :: 0 <= i < j < |log| ==> log[i] <= log[j])
    requires forall i :: 0 <= i < |log| ==> log[i] <= now
    ensures Reading(After(log), now) == Recent(log, now, 60)
  {
    ReadingExact(log, now);
    forall i, j
      ensures !Wipes(log, now, i, j)
    {
      if Wipes(log, now, i, j) {
        SameSlotApart(log[j], log[i]);
        assert false;
      }
    }
  }

  lemma SameSlotApart(s: nat, t: nat)
    requires t <= s && Slot(s) == Slot(t)
    ensures s == t || s - t >= 60
  {
  }

  /** Hit `j` commits after the recent hit `i` of its slot although it is whole minutes older. */
  predicate Late(log: seq<nat>, now: nat, i: int, j: int) {
    0 <= i < j < |log| && now - 60 < log[i] && Slot(log[i]) == Slot(log[j]) && log[j] + 60 <= log[i]
  }

  /** With no hit ahead of the reader's clock, the reading falls short exactly when a late hit wiped a word. */
  lemma LateHitWipesSlot(log: seq<nat>, now: nat)
    requires Fits(log) && forall i :: 0 <= i < |log| ==> log[i] <= now
    ensures Reading(After(log), now) < Recent(log, now, 60) <==>
            exists i, j :: Late(log, now, i, j)
  {
    ReadingExact(log, now);
    forall i, j | Wipes(log, now, i, j)
      ensures Late(log, now, i, j)
    {
      if log[i] <= log[j] {
        SameSlotApart(log[j], log[i]);
      } else {
        SameSlotApart(log[i], log[j]);
      }
    }
    assert forall i, j :: Late(log, now, i, j) ==> Wipes(log, now, i, j);
  }
}
