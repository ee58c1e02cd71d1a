/** Model names and their variants: `strip_variant_suffix`, `family_base` and the smart routing of a
    family name to one of its upstream variants. The suffix table is a parameter; `VARIANTS` is the
    one the gateway uses. */
module Routing {
  import opened Common

  predicate EndsWith(s: string, t: string) {
    |t| <= |s| && s[|s| - |t|..] == t
  }

  predicate StartsWith(s: string, t: string) {
    |t| <= |s| && s[..|t|] == t
  }

  // ---- variant suffixes ----

  /** In matching order; a suffix is a dash followed by one of these. */
  const VARIANTS := ["fast", "extra-high", "minimal", "medium", "xhigh", "high", "low", "max", "none", "thinking"]

  /** A suffix may be taken off only when something remains. */
  predicate Cuts(m: string, v: string) {
    EndsWith(m, "-" + v) && |m| > |v| + 1
  }

  function Trunk(m: string, v: string): (base: string)
    requires Cuts(m, v)
    ensures m == base + "-" + v && base != ""
  {
    var base := m[..|m| - |v| - 1];
    assert m == base + m[|m| - |v| - 1..];
    base
  }

  /** Take off the first suffix of the table that fits. */
  function Strip(m: string, vs: seq<string>): (r: string)
    ensures r != m ==> r != "" && |r| < |m|
  {
    if vs == [] then m
    else if Cuts(m, vs[0]) then Trunk(m, vs[0])
    else Strip(m, vs[1..])
  }

  method StripVariantSuffix(m: string, vs: seq<string>) returns (r: string)
    ensures r == Strip(m, vs)
  {
    for i := 0 to |vs|
      invariant Strip(m, vs) == Strip(m, vs[i..])
    {
      assert vs[i..][1..] == vs[i + 1..];
      if Cuts(m, vs[i]) {
        return Trunk(m, vs[i]);
      }
    }
    r := m;
  }

  /** The family: strip until nothing more comes off. */
  function FamilyBase(m: string, vs: seq<string>): (base: string)
    ensures Strip(base, vs) == base
    ensures m != "" ==> base != ""
    ensures |base| <= |m|
    decreases |m|
  {
    if Strip(m, vs) == m then m else FamilyBase(Strip(m, vs), vs)
  }

  method FamilyBaseLoop(model: string, vs: seq<string>) returns (m: string)
    ensures m == FamilyBase(model, vs)
  {
    m := model;
    while true
      invariant FamilyBase(m, vs) == FamilyBase(model, vs)
      decreases |m|
    {
      var s := StripVariantSuffix(m, vs);
      if s == m {
        return;
      }
      m := s;
    }
  }

  // ---- routing ----

  datatype Level = Low | Medium | High | Max

  /** What a request and the registry contribute. `tier` is a family's default, `None` for automatic;
      `top` stands for the largest float. */
  datatype Context = Context(
    variants: seq<string>, upstream: seq<string>, explicit: Option<Level>, heuristic: Level,
    tier: string -> Option<Level>, blocked: (string, Level) -> bool,
    prices: Option<map<string, real>>, top: real)

  function Candidates(l: Level): seq<string> {
    match l
    case Max => ["max", "xhigh", "extra-high", "high"]
    case High => ["high", "medium", "low", "xhigh"]
    case Medium => ["medium", "low", "high"]
    case Low => ["low", "minimal", "none", "medium"]
  }

  predicate IsVariant(u: string, base: string, vs: seq<string>) {
    StartsWith(u, base + "-") && FamilyBase(u, vs) == base
  }

  predicate HasVariants(base: string, c: Context) {
    exists u :: u in c.upstream && IsVariant(u, base, c.variants)
  }

  /** The family a name routes in: its own, or the one behind the `cursor-` prefix. */
  function Family(base: string, c: Context): string {
    if !HasVariants(base, c) && HasVariants("cursor-" + base, c) then "cursor-" + base else base
  }

  function RuleName(base: string): string {
    if StartsWith(base, "cursor-") then base[7..] else base
  }

  /** The explicit level, else the family's default; a blocked level gives way to an unblocked default. */
  function LevelFor(c: Context, rule: string): (r: Option<Level>)
    ensures r.Some? ==> !c.blocked(rule, r.value)
  {
    var level := if c.explicit.Some? then c.explicit else c.tier(rule);
    if level.Some? && c.blocked(rule, level.value) then
      var fallback := c.tier(rule);
      if fallback.Some? && !c.blocked(rule, fallback.value) then fallback else None
    else level
  }

  /** The i-th candidate is offered and none before it. */
  ghost predicate FirstOffered(base: string, cands: seq<string>, upstream: seq<string>, i: int) {
    && 0 <= i < |cands| && base + "-" + cands[i] in upstream
    && forall j :: 0 <= j < i ==> base + "-" + cands[j] !in upstream
  }

  function Pick(base: string, cands: seq<string>, upstream: seq<string>): (r: Option<string>)
    ensures r.Some? ==> r.value in upstream && exists v :: v in cands && r.value == base + "-" + v
    ensures r.Some? ==> exists i :: FirstOffered(base, cands, upstream, i) && r.value == base + "-" + cands[i]
    ensures r.None? ==> forall v :: v in cands ==> base + "-" + v !in upstream
  {
    if cands == [] then None
    else if base + "-" + cands[0] in upstream then
      assert FirstOffered(base, cands, upstream, 0);
      Some(base + "-" + cands[0])
    else
      assert forall v :: v in cands[1..] ==> v in cands;
      var r := Pick(base, cands[1..], upstream);
      assert r.Some? ==> exists i :: FirstOffered(base, cands, upstream, i) && r.value == base + "-" + cands[i] by {
        if r.Some? {
          var i :| FirstOffered(base, cands[1..], upstream, i) && r.value == base + "-" + cands[1..][i];
          assert FirstOffered(base, cands, upstream, i + 1);
        }
      }
      r
  }

  predicate Priced(u: string, base: string, vs: seq<string>, prices: map<string, real>) {
    u in prices && prices[u] > 0.0 && FamilyBase(u, vs) == base
  }

  /** The first cheapest member of the family among those with a positive price. */
  function Cheapest(base: string, upstream: seq<string>, vs: seq<string>, prices: map<string, real>)
    : (r: Option<string>)
    ensures r.Some? ==> r.value in upstream && Priced(r.value, base, vs, prices)
    ensures r.Some? ==> forall u :: u in upstream && Priced(u, base, vs, prices) ==> prices[r.value] <= prices[u]
    ensures r.None? ==> forall u :: u in upstream ==> !Priced(u, base, vs, prices)
  {
    if upstream == [] then None
    else
      var n := |upstream| - 1;
      assert upstream == upstream[..n] + [upstream[n]];
      var r, u := Cheapest(base, upstream[..n], vs, prices), upstream[n];
      if Priced(u, base, vs, prices) && (r.None? || prices[u] < prices[r.value]) then Some(u) else r
  }

  function ByLevel(c: Context, base: string, level: Option<Level>): (r: Option<string>) {
    if level.Some? then Pick(base, Candidates(level.value), c.upstream)
    else
      var cheapest := if c.prices.Some? then Cheapest(base, c.upstream, c.variants, c.prices.value) else None;
      if cheapest.Some? then cheapest else Pick(base, Candidates(c.heuristic), c.upstream)
  }

  function OrFast(c: Context, base: string, r: Option<string>): (res: Option<string>) {
    if r.None? && base + "-fast" in c.upstream then Some(base + "-fast") else r
  }

  /** The text after `base-`, if the name starts with it. */
  function Suffix(u: string, base: string): (s: Option<string>) {
    if StartsWith(u, base + "-") then Some(u[|base| + 1..]) else None
  }

  /** The closing search for a cheaper name of the same family and suffix, over the first `n` names. */
  function Reprice(c: Context, base: string, prices: map<string, real>, resolved: string, n: nat): (best: string)
    requires n <= |c.upstream|
  {
    if n == 0 then resolved
    else
      var best, u := Reprice(c, base, prices, resolved, n - 1), c.upstream[n - 1];
      var limit := if best in prices then prices[best] else c.top;
      if u != resolved && Suffix(resolved, base) == Suffix(u, base) && Priced(u, base, c.variants, prices)
         && prices[u] < limit
      then u else best
  }

  /** Routing inside a family before the closing price search. */
  function Chosen(c: Context, base: string): (r: Option<string>) {
    OrFast(c, base, ByLevel(c, base, LevelFor(c, RuleName(base))))
  }

  /** Routing inside a family that has upstream variants. */
  function Route(c: Context, base: string): (r: Option<string>) {
    var level := LevelFor(c, RuleName(base));
    var r := Chosen(c, base);
    if level.Some? && r.Some? && c.prices.Some? then
      Some(Reprice(c, base, c.prices.value, r.value, |c.upstream|))
    else r
  }

  /** A `-fast` name whose rest is a family name stands for that family. */
  predicate FoldedFast(model: string, vs: seq<string>) {
    EndsWith(model, "-fast") && FamilyBase(model[..|model| - 5], vs) == model[..|model| - 5]
  }

  function Resolve(model: string, c: Context): (r: Option<string>)
    decreases |model|
  {
    if c.upstream == [] || model in c.upstream then None
    else if FoldedFast(model, c.variants) then
      match Resolve(model[..|model| - 5], c)
      case None => None
      case Some(r) => Some(if r + "-fast" in c.upstream then r + "-fast" else r)
    else if FamilyBase(model, c.variants) != model then None
    else if !HasVariants(Family(model, c), c) then None
    else Route(c, Family(model, c))
  }

  // ---- the closing price search never changes the answer ----

  lemma SameSuffixSameName(base: string, a: string, b: string)
    requires Suffix(a, base).Some? && Suffix(a, base) == Suffix(b, base)
    ensures a == b
  {
    assert a == a[..|base| + 1] + a[|base| + 1..];
    assert b == b[..|base| + 1] + b[|base| + 1..];
  }

  /** Inside one family equal suffixes mean equal names, so the search finds no other name. */
  lemma {:induction false} RepriceIsIdle(c: Context, base: string, prices: map<string, real>, resolved: string, n: nat)
    requires n <= |c.upstream| && Suffix(resolved, base).Some?
    ensures Reprice(c, base, prices, resolved, n) == resolved
  {
    if n > 0 {
      RepriceIsIdle(c, base, prices, resolved, n - 1);
      if Suffix(resolved, base) == Suffix(c.upstream[n - 1], base) {
        SameSuffixSameName(base, resolved, c.upstream[n - 1]);
      }
    }
  }

  // ---- suffixes undo what the picker appends ----

  predicate Dashless(s: string) {
    forall i :: 0 <= i < |s| ==> s[i] != '-'
  }

  /** All the proofs need to know of the suffix table. */
  ghost predicate GoodTable(vs: seq<string>) {
    && |vs| >= 2 && vs[0] == "fast" && vs[1] == "extra-high"
    && (forall v :: v in vs && v != "extra-high" ==> Dashless(v))
    && "high" in vs
    && forall l, v :: v in Candidates(l) ==> v in vs
  }

  lemma DashlessWords()
    ensures Dashless("fast") && Dashless("minimal") && Dashless("medium") && Dashless("xhigh") && Dashless("high")
    ensures Dashless("low") && Dashless("max") && Dashless("none") && Dashless("thinking")
  {
  }

  lemma GatewayTable()
    ensures GoodTable(VARIANTS)
  {
    DashlessWords();
    forall v | v in VARIANTS && v != "extra-high"
      ensures Dashless(v)
    {
      var i :| 0 <= i < |VARIANTS| && VARIANTS[i] == v;
    }
    assert VARIANTS[5] == "high";
    forall l: Level, v: string | v in Candidates(l)
      ensures v in VARIANTS
    {
      CandidateListed(l, v);
    }
  }

  lemma CandidateListed(l: Level, v: string)
    requires v in Candidates(l)
    ensures v in VARIANTS
  {
    assert VARIANTS[1] == "extra-high" && VARIANTS[2] == "minimal" && VARIANTS[3] == "medium";
    assert VARIANTS[4] == "xhigh" && VARIANTS[5] == "high" && VARIANTS[6] == "low";
    assert VARIANTS[7] == "max" && VARIANTS[8] == "none";
  }

  lemma DashPlace(b: string, c: string, d: string)
    requires Dashless(c) && Dashless(d) && EndsWith(b + "-" + c, "-" + d)
    ensures |c| == |d|
  {
    var s, t := b + "-" + c, "-" + d;
    assert forall i :: 0 <= i < |t| ==> s[|s| - |t| + i] == t[i];
    assert s[|b|] == '-';
    assert s[|s| - |t|] == '-';
  }

  lemma OneDashSuffix(b: string, c: string, d: string)
    requires Dashless(c) && Dashless(d) && EndsWith(b + "-" + c, "-" + d)
    ensures c == d
  {
    DashPlace(b, c, d);
    var s := b + "-" + c;
    assert c == s[|s| - |c|..] == ("-" + d)[1..] == d;
  }

  lemma ExtraHighEndsHigh(s: string)
    requires EndsWith(s, "-extra-high")
    ensures EndsWith(s, "-high")
  {
    assert s[|s| - 5..] == s[|s| - 11..][6..];
  }

  lemma HighOfExtra(b: string)
    ensures EndsWith(b + "-high", "-extra-high") <==> EndsWith(b, "-extra")
  {
    var s := b + "-high";
    if |b| >= 6 {
      assert s[|s| - 11..] == b[|b| - 6..] + "-high";
      assert b[|b| - 6..] == s[|s| - 11..][..6];
    }
  }

  /** A base that swallows `-high` into `-extra-high`. */
  predicate Ambiguous(b: string) {
    EndsWith(b, "-extra") && |b| > 6
  }

  lemma {:induction false} StripOnly(m: string, vs: seq<string>, v: string)
    requires v in vs && Cuts(m, v) && forall w :: w in vs && Cuts(m, w) ==> w == v
    ensures Strip(m, vs) == Trunk(m, v)
  {
    if vs[0] != v {
      assert vs[0] in vs;
      StripOnly(m, vs[1..], v);
    }
  }

  lemma AppendCuts(b: string, v: string)
    requires b != ""
    ensures Cuts(b + "-" + v, v) && Trunk(b + "-" + v, v) == b
  {
    assert b + "-" + v == b + ("-" + v);
  }

  lemma OnlyOwnSuffix(b: string, v: string, w: string, vs: seq<string>)
    requires GoodTable(vs) && v in vs && w in vs && v != "extra-high" && Cuts(b + "-" + v, w)
    requires !(v == "high" && Ambiguous(b))
    ensures w == v
  {
    if w == "extra-high" {
      ExtraHighEndsHigh(b + "-" + v);
      OneDashSuffix(b, v, "high");
      HighOfExtra(b);
    } else {
      OneDashSuffix(b, v, w);
    }
  }

  lemma StripUndoes(b: string, v: string, vs: seq<string>)
    requires GoodTable(vs) && b != "" && v in vs && v != "extra-high" && !(v == "high" && Ambiguous(b))
    ensures Strip(b + "-" + v, vs) == b
  {
    AppendCuts(b, v);
    forall w | w in vs && Cuts(b + "-" + v, w)
      ensures w == v
    {
      OnlyOwnSuffix(b, v, w, vs);
    }
    StripOnly(b + "-" + v, vs, v);
  }

  lemma NotFast(s: string)
    requires EndsWith(s, "-extra-high")
    ensures !Cuts(s, "fast")
  {
    assert s[|s| - 11..][10] == s[|s| - 1];
    assert "-extra-high"[10] == 'h';
    assert s[|s| - 5..][4] == s[|s| - 1];
    assert ("-" + "fast")[4] == 't';
  }

  lemma StripExtraHigh(b: string, vs: seq<string>)
    requires GoodTable(vs) && b != ""
    ensures Strip(b + "-extra-high", vs) == b
  {
    var s := b + "-extra-high";
    assert s == b + "-" + "extra-high";
    AppendCuts(b, "extra-high");
    NotFast(s);
  }

  function Shortened(b: string): (m: string)
    requires Ambiguous(b)
  {
    b[..|b| - 6]
  }

  lemma StripAmbiguous(b: string, vs: seq<string>)
    requires GoodTable(vs) && Ambiguous(b)
    ensures Strip(b + "-high", vs) == Shortened(b)
  {
    var rest := b[..|b| - 6];
    assert b == rest + "-extra";
    assert b + "-high" == rest + "-extra-high";
    StripExtraHigh(rest, vs);
  }

  lemma FamilyOfPick(b: string, v: string, vs: seq<string>)
    requires GoodTable(vs) && b != "" && Strip(b, vs) == b && v in vs
    ensures FamilyBase(b + "-" + v, vs) ==
            if v == "high" && Ambiguous(b) then FamilyBase(Shortened(b), vs) else b
  {
    if v == "extra-high" {
      assert b + "-" + v == b + "-extra-high";
      StripExtraHigh(b, vs);
    } else if v == "high" && Ambiguous(b) {
      assert b + "-" + v == b + "-high";
      StripAmbiguous(b, vs);
    } else {
      StripUndoes(b, v, vs);
    }
  }

  lemma FastKeepsFamily(r: string, vs: seq<string>)
    requires GoodTable(vs) && r != ""
    ensures FamilyBase(r + "-fast", vs) == FamilyBase(r, vs)
  {
    AppendCuts(r, "fast");
    assert r + "-fast" == r + "-" + "fast";
  }

  // ---- soundness ----

  lemma VariantsMeanFamily(base: string, c: Context)
    requires HasVariants(base, c)
    ensures base != "" && Strip(base, c.variants) == base
  {
    var u :| u in c.upstream && IsVariant(u, base, c.variants);
  }

  /** How a routed name came about: built from a suffix of the table, or taken as a family member. */
  ghost predicate Built(r: string, base: string, vs: seq<string>) {
    exists v :: v in vs && r == base + "-" + v
  }

  lemma PickIsBuilt(c: Context, base: string, l: Level)
    requires GoodTable(c.variants)
    ensures var r := Pick(base, Candidates(l), c.upstream); r.Some? ==> Built(r.value, base, c.variants)
  {
    var r := Pick(base, Candidates(l), c.upstream);
    if r.Some? {
      var v :| v in Candidates(l) && r.value == base + "-" + v;
    }
  }

  lemma PickedName(c: Context, base: string, level: Option<Level>)
    requires GoodTable(c.variants)
    ensures var r := OrFast(c, base, ByLevel(c, base, level));
            r.Some? ==> && r.value in c.upstream
                        && (|| Built(r.value, base, c.variants)
                            || (level.None? && FamilyBase(r.value, c.variants) == base))
  {
    PickIsBuilt(c, base, if level.Some? then level.value else c.heuristic);
    if ByLevel(c, base, level).None? {
      assert base + "-fast" == base + "-" + "fast" && "fast" in c.variants;
    }
  }

  lemma BuiltHasSuffix(r: string, base: string, vs: seq<string>)
    requires Built(r, base, vs)
    ensures Suffix(r, base).Some? && r != ""
  {
    var v :| v in vs && r == base + "-" + v;
    assert r[..|base| + 1] == base + "-";
  }

  // ---- the family of a routed name ----

  lemma TailOf(base: string, v: string)
    ensures base + "-" + v == base + "-high" <==> v == "high"
  {
    assert (base + "-" + v)[|base| + 1..] == v;
    assert (base + "-high")[|base| + 1..] == "high";
    assert base + "-" + "high" == base + "-high";
  }

  /** Of the level's tiers, `-high` is the first one the family offers. */
  ghost predicate HighFirst(c: Context, base: string, l: Level) {
    exists i :: FirstOffered(base, Candidates(l), c.upstream, i) && Candidates(l)[i] == "high"
  }

  ghost predicate AnyPriced(c: Context, base: string) {
    c.prices.Some? && exists u :: u in c.upstream && Priced(u, base, c.variants, c.prices.value)
  }

  /** The requests that leave a family ending in `-extra`: those that end up at its `-high`, by their
      level or, when neither a level nor a price decides, by the heuristic one. */
  ghost predicate LosesName(c: Context, base: string) {
    var level := LevelFor(c, RuleName(base));
    && Ambiguous(base)
    && if level.Some? then HighFirst(c, base, level.value)
       else !AnyPriced(c, base) && HighFirst(c, base, c.heuristic)
  }

  lemma PickHigh(c: Context, base: string, l: Level)
    ensures Pick(base, Candidates(l), c.upstream) == Some(base + "-high") <==> HighFirst(c, base, l)
  {
    var r := Pick(base, Candidates(l), c.upstream);
    if r.Some? {
      var i :| FirstOffered(base, Candidates(l), c.upstream, i) && r.value == base + "-" + Candidates(l)[i];
      TailOf(base, Candidates(l)[i]);
      if HighFirst(c, base, l) {
        var j :| FirstOffered(base, Candidates(l), c.upstream, j) && Candidates(l)[j] == "high";
        assert i == j;
      }
    }
  }

  lemma RouteIsChosen(c: Context, base: string)
    requires GoodTable(c.variants)
    ensures Route(c, base) == Chosen(c, base)
  {
    var level := LevelFor(c, RuleName(base));
    PickedName(c, base, level);
    if level.Some? && Chosen(c, base).Some? {
      BuiltHasSuffix(Chosen(c, base).value, base, c.variants);
      if c.prices.Some? {
        RepriceIsIdle(c, base, c.prices.value, Chosen(c, base).value, |c.upstream|);
      }
    }
  }

  lemma BuiltFamily(r: string, base: string, vs: seq<string>)
    requires GoodTable(vs) && base != "" && Strip(base, vs) == base && Built(r, base, vs)
    ensures FamilyBase(r, vs) ==
            if r == base + "-high" && Ambiguous(base) then FamilyBase(Shortened(base), vs) else base
  {
    var v :| v in vs && r == base + "-" + v;
    FamilyOfPick(base, v, vs);
    TailOf(base, v);
  }

  /** The `-high` of such a family never counts as one of its members. */
  lemma HighIsOutside(base: string, vs: seq<string>)
    requires GoodTable(vs) && Ambiguous(base) && Strip(base, vs) == base
    ensures FamilyBase(base + "-high", vs) == FamilyBase(Shortened(base), vs) != base
  {
    assert base + "-" + "high" == base + "-high";
    FamilyOfPick(base, "high", vs);
  }

  lemma ChosenHigh(c: Context, base: string)
    requires GoodTable(c.variants) && Ambiguous(base) && Strip(base, c.variants) == base
    ensures Chosen(c, base) == Some(base + "-high") <==> LosesName(c, base)
  {
    var level := LevelFor(c, RuleName(base));
    TailOf(base, "fast");
    assert base + "-" + "fast" == base + "-fast";
    HighIsOutside(base, c.variants);
    PickHigh(c, base, if level.Some? then level.value else c.heuristic);
  }

  /** A routed name exists upstream, and its family is the one routed in unless the request is one of
      those that lose the name; then it is the family of the name without `-extra`. */
  lemma RouteIsSound(c: Context, base: string)
    requires GoodTable(c.variants) && HasVariants(base, c)
    ensures var r := Route(c, base);
            r.Some? ==> && r.value in c.upstream && r.value != ""
                        && FamilyBase(r.value, c.variants) ==
                           if LosesName(c, base) then FamilyBase(Shortened(base), c.variants) else base
  {
    VariantsMeanFamily(base, c);
    RouteIsChosen(c, base);
    PickedName(c, base, LevelFor(c, RuleName(base)));
    var r := Chosen(c, base);
    if r.Some? {
      if Ambiguous(base) {
        ChosenHigh(c, base);
        HighIsOutside(base, c.variants);
      }
      if Built(r.value, base, c.variants) {
        BuiltHasSuffix(r.value, base, c.variants);
        BuiltFamily(r.value, base, c.variants);
      }
    }
  }

  /** Exactly when a family loses its name: for every request, in terms of what it asks for and what
      the family offers. */
  lemma ExtraLosesItsName(c: Context, base: string)
    requires GoodTable(c.variants) && HasVariants(base, c)
    ensures (Route(c, base).Some? && FamilyBase(Route(c, base).value, c.variants) != base) <==> LosesName(c, base)
    ensures LosesName(c, base) ==> Route(c, base) == Some(base + "-high")
  {
    VariantsMeanFamily(base, c);
    RouteIsSound(c, base);
    RouteIsChosen(c, base);
    if Ambiguous(base) {
      ChosenHigh(c, base);
      HighIsOutside(base, c.variants);
    }
  }

  /** The family name a request asks for: folded `-fast` names ask for the family before it. */
  function Asked(model: string, vs: seq<string>): (base: string)
    decreases |model|
  {
    if FoldedFast(model, vs) then Asked(model[..|model| - 5], vs) else model
  }

  /** Every routed name exists upstream and routing it again leaves it alone. Its family is the one
      asked for, or its `cursor-` twin when only that has variants, except for exactly the requests
      that make a family ending in `-extra` lose its name. */
  lemma {:induction false} RoutingIsSound(model: string, c: Context)
    requires GoodTable(c.variants)
    ensures var r := Resolve(model, c); var base := Family(Asked(model, c.variants), c);
            r.Some? ==> && r.value in c.upstream && r.value != "" && Resolve(r.value, c).None?
                        && FamilyBase(r.value, c.variants) ==
                           (if LosesName(c, base) then FamilyBase(Shortened(base), c.variants) else base)
                        && (FamilyBase(r.value, c.variants) == base <==> !LosesName(c, base))
    decreases |model|
  {
    var r := Resolve(model, c);
    if r.Some? {
      if FoldedFast(model, c.variants) {
        RoutingIsSound(model[..|model| - 5], c);
        FastKeepsFamily(Resolve(model[..|model| - 5], c).value, c.variants);
      } else {
        RouteIsSound(c, Family(model, c));
        ExtraLosesItsName(c, Family(model, c));
      }
    }
  }

  // ---- the exact answer, tier names written out ----

  function TierName(l: Level): string {
    match l
    case Low => "low"
    case Medium => "medium"
    case High => "high"
    case Max => "max"
  }

  predicate Offered(base: string, tier: string, upstream: seq<string>) {
    base + "-" + tier in upstream
  }

  /** The first of four tiers that is offered. */
  function FirstOf(base: string, upstream: seq<string>, a: string, b: string, c: string, d: string): Option<string> {
    if Offered(base, a, upstream) then Some(base + "-" + a)
    else if Offered(base, b, upstream) then Some(base + "-" + b)
    else if Offered(base, c, upstream) then Some(base + "-" + c)
    else if Offered(base, d, upstream) then Some(base + "-" + d)
    else None
  }

  lemma PickFour(base: string, upstream: seq<string>, a: string, b: string, c: string, d: string)
    ensures Pick(base, [a, b, c, d], upstream) == FirstOf(base, upstream, a, b, c, d)
    ensures Pick(base, [a, b, c, d], upstream).Some? <==>
            Offered(base, a, upstream) || Offered(base, b, upstream)
            || Offered(base, c, upstream) || Offered(base, d, upstream)
  {
    assert [a, b, c, d][1..] == [b, c, d] && [b, c, d][1..] == [c, d] && [c, d][1..] == [d] && [d][1..] == [];
    assert Pick(base, [d], upstream) == if Offered(base, d, upstream) then Some(base + "-" + d) else None;
    assert Pick(base, [c, d], upstream) ==
           if Offered(base, c, upstream) then Some(base + "-" + c) else Pick(base, [d], upstream);
    assert Pick(base, [b, c, d], upstream) ==
           if Offered(base, b, upstream) then Some(base + "-" + b) else Pick(base, [c, d], upstream);
  }

  lemma PickThree(base: string, upstream: seq<string>, a: string, b: string, c: string)
    ensures Pick(base, [a, b, c], upstream) == FirstOf(base, upstream, a, b, c, c)
    ensures Pick(base, [a, b, c], upstream).Some? <==>
            Offered(base, a, upstream) || Offered(base, b, upstream) || Offered(base, c, upstream)
  {
    assert [a, b, c][1..] == [b, c] && [b, c][1..] == [c] && [c][1..] == [];
    assert Pick(base, [c], upstream) == if Offered(base, c, upstream) then Some(base + "-" + c) else None;
    assert Pick(base, [b, c], upstream) ==
           if Offered(base, b, upstream) then Some(base + "-" + b) else Pick(base, [c], upstream);
  }

  /** Each level asks for its own tier first and falls back in its own order. */
  lemma LevelOrder(base: string, upstream: seq<string>)
    ensures Pick(base, Candidates(Low), upstream) == FirstOf(base, upstream, "low", "minimal", "none", "medium")
    ensures Pick(base, Candidates(Medium), upstream) == FirstOf(base, upstream, "medium", "low", "high", "high")
    ensures Pick(base, Candidates(High), upstream) == FirstOf(base, upstream, "high", "medium", "low", "xhigh")
    ensures Pick(base, Candidates(Max), upstream) == FirstOf(base, upstream, "max", "xhigh", "extra-high", "high")
  {
    PickFour(base, upstream, "low", "minimal", "none", "medium");
    PickThree(base, upstream, "medium", "low", "high");
    PickFour(base, upstream, "high", "medium", "low", "xhigh");
    PickFour(base, upstream, "max", "xhigh", "extra-high", "high");
  }

  /** The level that decides: the one asked for unless it is blocked, else the default unless that is. */
  lemma LevelDecided(c: Context, rule: string)
    ensures forall l :: c.explicit == Some(l) && !c.blocked(rule, l) ==> LevelFor(c, rule) == Some(l)
    ensures (c.explicit.Some? ==> c.blocked(rule, c.explicit.value)) ==>
              LevelFor(c, rule) ==
              if c.tier(rule).Some? && !c.blocked(rule, c.tier(rule).value) then c.tier(rule) else None
  {
  }

  /** Neither the request nor the family's default settles on a level that is not blocked. */
  predicate Undecided(c: Context, rule: string) {
    && (c.explicit.Some? ==> c.blocked(rule, c.explicit.value))
    && (c.tier(rule).Some? ==> c.blocked(rule, c.tier(rule).value))
  }

  /** A bare family name that upstream knows only by its variants. */
  predicate Routable(model: string, c: Context) {
    && c.upstream != [] && model !in c.upstream && FamilyBase(model, c.variants) == model
    && HasVariants(Family(model, c), c)
  }

  lemma RoutableResolves(model: string, c: Context)
    requires GoodTable(c.variants) && !FoldedFast(model, c.variants)
    ensures Resolve(model, c) == if Routable(model, c) then Chosen(c, Family(model, c)) else None
  {
    if Routable(model, c) {
      RouteIsChosen(c, Family(model, c));
    }
  }

  lemma OwnTierFirst(base: string, upstream: seq<string>, l: Level)
    requires Offered(base, TierName(l), upstream)
    ensures Pick(base, Candidates(l), upstream) == Some(base + "-" + TierName(l))
  {
    LevelOrder(base, upstream);
  }

  /** An explicit level that is not blocked and whose own tier is offered gives exactly that tier. */
  lemma ExplicitLevelDecides(model: string, c: Context, l: Level)
    requires GoodTable(c.variants) && !FoldedFast(model, c.variants) && Routable(model, c)
    requires var base := Family(model, c);
             c.explicit == Some(l) && !c.blocked(RuleName(base), l) && Offered(base, TierName(l), c.upstream)
    ensures Resolve(model, c) == Some(Family(model, c) + "-" + TierName(l))
  {
    RoutableResolves(model, c);
    LevelDecided(c, RuleName(Family(model, c)));
    OwnTierFirst(Family(model, c), c.upstream, l);
  }

  /** Without one, the family's default level decides in the same way. */
  lemma DefaultLevelDecides(model: string, c: Context, l: Level)
    requires GoodTable(c.variants) && !FoldedFast(model, c.variants) && Routable(model, c)
    requires var base, rule := Family(model, c), RuleName(Family(model, c));
             && (c.explicit.Some? ==> c.blocked(rule, c.explicit.value))
             && c.tier(rule) == Some(l) && !c.blocked(rule, l) && Offered(base, TierName(l), c.upstream)
    ensures Resolve(model, c) == Some(Family(model, c) + "-" + TierName(l))
  {
    RoutableResolves(model, c);
    LevelDecided(c, RuleName(Family(model, c)));
    OwnTierFirst(Family(model, c), c.upstream, l);
  }

  /** Without either, the cheapest priced member of the family does. */
  lemma PriceDecides(model: string, c: Context)
    requires GoodTable(c.variants) && !FoldedFast(model, c.variants) && Routable(model, c)
    requires Undecided(c, RuleName(Family(model, c))) && AnyPriced(c, Family(model, c))
    ensures var r, base := Resolve(model, c), Family(model, c);
            && r.Some? && r.value in c.upstream && Priced(r.value, base, c.variants, c.prices.value)
            && forall u :: u in c.upstream && Priced(u, base, c.variants, c.prices.value) ==>
                 c.prices.value[r.value] <= c.prices.value[u]
  {
    RoutableResolves(model, c);
    LevelDecided(c, RuleName(Family(model, c)));
  }

  /** And without a price the heuristic level. */
  lemma HeuristicDecides(model: string, c: Context)
    requires GoodTable(c.variants) && !FoldedFast(model, c.variants) && Routable(model, c)
    requires Undecided(c, RuleName(Family(model, c))) && !AnyPriced(c, Family(model, c))
    requires Offered(Family(model, c), TierName(c.heuristic), c.upstream)
    ensures Resolve(model, c) == Some(Family(model, c) + "-" + TierName(c.heuristic))
  {
    RoutableResolves(model, c);
    LevelDecided(c, RuleName(Family(model, c)));
    OwnTierFirst(Family(model, c), c.upstream, c.heuristic);
  }

  /** Whether the family offers anything a level can fall back on. */
  predicate Serves(base: string, upstream: seq<string>, l: Level) {
    match l
    case Low => Offered(base, "low", upstream) || Offered(base, "minimal", upstream)
                || Offered(base, "none", upstream) || Offered(base, "medium", upstream)
    case Medium => Offered(base, "medium", upstream) || Offered(base, "low", upstream)
                   || Offered(base, "high", upstream)
    case High => Offered(base, "high", upstream) || Offered(base, "medium", upstream)
                 || Offered(base, "low", upstream) || Offered(base, "xhigh", upstream)
    case Max => Offered(base, "max", upstream) || Offered(base, "xhigh", upstream)
                || Offered(base, "extra-high", upstream) || Offered(base, "high", upstream)
  }

  lemma ServesIff(base: string, upstream: seq<string>, l: Level)
    ensures Pick(base, Candidates(l), upstream).Some? <==> Serves(base, upstream, l)
  {
    match l
    case Low => PickFour(base, upstream, "low", "minimal", "none", "medium");
    case Medium => PickThree(base, upstream, "medium", "low", "high");
    case High => PickFour(base, upstream, "high", "medium", "low", "xhigh");
    case Max => PickFour(base, upstream, "max", "xhigh", "extra-high", "high");
  }

  /** What a family with the given level needs to answer at all. */
  ghost predicate Answerable(c: Context, base: string) {
    var level := LevelFor(c, RuleName(base));
    || Offered(base, "fast", c.upstream)
    || (if level.Some? then Serves(base, c.upstream, level.value)
        else AnyPriced(c, base) || Serves(base, c.upstream, c.heuristic))
  }

  lemma ChosenIff(c: Context, base: string)
    ensures Chosen(c, base).Some? <==> Answerable(c, base)
  {
    var level := LevelFor(c, RuleName(base));
    assert base + "-" + "fast" == base + "-fast";
    ServesIff(base, c.upstream, if level.Some? then level.value else c.heuristic);
  }

  /** Exactly when a name is routed: a routable family name that can be answered; and a folded `-fast` name
      exactly when the name before it is, to the `-fast` form of its answer where that is offered. */
  lemma {:induction false} ResolvedIff(model: string, c: Context)
    requires GoodTable(c.variants)
    ensures !FoldedFast(model, c.variants) ==>
              (Resolve(model, c).Some? <==> Routable(model, c) && Answerable(c, Family(model, c)))
    ensures FoldedFast(model, c.variants) && c.upstream != [] && model !in c.upstream ==>
              var plain := Resolve(model[..|model| - 5], c);
              Resolve(model, c) ==
              if plain.Some? && plain.value + "-fast" in c.upstream then Some(plain.value + "-fast") else plain
  {
    if !FoldedFast(model, c.variants) {
      RoutableResolves(model, c);
      ChosenIff(c, Family(model, c));
    }
  }

  /** Routing stays in the family asked for when that has variants, goes to its `cursor-` twin when only that
      has, and looks up the rules under the name asked for either way. */
  lemma FamilyAsked(model: string, c: Context)
    requires GoodTable(c.variants) && !FoldedFast(model, c.variants) && Resolve(model, c).Some?
    ensures var r := Resolve(model, c).value; var base := Family(model, c);
            && (HasVariants(model, c) ==> base == model)
            && (!HasVariants(model, c) ==> HasVariants("cursor-" + model, c) && base == "cursor-" + model)
            && (!LosesName(c, base) ==> FamilyBase(r, c.variants) == base)
            && (|model| < 7 || model[..7] != "cursor-" ==> RuleName(base) == model)
  {
    RoutingIsSound(model, c);
    ResolvedIff(model, c);
    assert ("cursor-" + model)[..7] == "cursor-" && ("cursor-" + model)[7..] == model;
  }
}
