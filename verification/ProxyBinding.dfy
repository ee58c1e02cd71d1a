/** Which proxy node an account leaves through: rules, candidate filtering with capacity limits, and
    the binding table. The configuration is fixed; no account pins a node. */
module ProxyBinding {
  import opened Common

  datatype Mode = Hash | RoundRobin | LeastAccounts | Exclusive

  datatype Node = Node(id: string, enabled: bool, maxAccounts: nat, region: string, tags: seq<string>)

  datatype Rule = Rule(enabled: bool, prefix: string, accountTags: seq<string>, proxyTags: seq<string>,
                       region: string, mode: Mode, priority: int)

  datatype Config = Config(enabled: bool, requireProxy: bool, defaultMode: Mode, failThreshold: nat,
                           nodes: seq<Node>, rules: seq<Rule>)

  /** Consecutive probe failures per node, the binding table, and the round-robin counter. */
  datatype State = State(fails: map<string, nat>, bindings: map<string, string>, rr: nat)

  datatype Answer = Direct | Through(node: Node) | Refused

  // ---- capacity ----

  /** How many accounts a node may carry under a mode; `None` is no limit. */
  function CapFor(n: Node, mode: Mode): (cap: Option<nat>) {
    if mode.Exclusive? then Some(if n.maxAccounts == 0 then 1 else n.maxAccounts)
    else if n.maxAccounts == 0 then None
    else Some(n.maxAccounts)
  }

  function BoundTo(bindings: map<string, string>, id: string): (accounts: set<string>) {
    set a | a in bindings && bindings[a] == id
  }

  function BoundCount(bindings: map<string, string>, id: string): nat {
    |BoundTo(bindings, id)|
  }

  function Healthy(c: Config, s: State, id: string): bool {
    id in s.fails ==> s.fails[id] < c.failThreshold
  }

  predicate AnyShared(a: seq<string>, b: seq<string>) {
    exists t :: t in a && t in b
  }

  predicate Eligible(c: Config, s: State, n: Node, tags: seq<string>, region: string, mode: Mode) {
    && n.enabled && Healthy(c, s, n.id)
    && (region == "" || n.region == region)
    && (tags == [] || AnyShared(tags, n.tags))
    && (CapFor(n, mode).Some? ==> BoundCount(s.bindings, n.id) < CapFor(n, mode).value)
  }

  function Candidates(c: Config, s: State, nodes: seq<Node>, tags: seq<string>, region: string, mode: Mode)
    : (ns: seq<Node>)
    ensures forall n :: n in ns ==> n in nodes && Eligible(c, s, n, tags, region, mode)
    ensures forall n :: n in nodes && Eligible(c, s, n, tags, region, mode) ==> n in ns
  {
    if nodes == [] then []
    else
      var k := |nodes| - 1;
      assert nodes == nodes[..k] + [nodes[k]];
      Candidates(c, s, nodes[..k], tags, region, mode)
      + (if Eligible(c, s, nodes[k], tags, region, mode) then [nodes[k]] else [])
  }

  /** The first node with the fewest bound accounts. */
  function Least(s: State, ns: seq<Node>): (n: Node)
    requires ns != []
    ensures n in ns && forall m :: m in ns ==> BoundCount(s.bindings, n.id) <= BoundCount(s.bindings, m.id)
  {
    if |ns| == 1 then ns[0]
    else
      var k := |ns| - 1;
      assert ns == ns[..k] + [ns[k]];
      var best := Least(s, ns[..k]);
      if BoundCount(s.bindings, ns[k].id) < BoundCount(s.bindings, best.id) then ns[k] else best
  }

  /** `hash` stands for the process's string hasher. */
  function Pick(s: State, account: string, ns: seq<Node>, mode: Mode, hash: string -> nat): (r: Option<Node>)
    ensures r.Some? <==> ns != []
    ensures r.Some? ==> r.value in ns
  {
    if ns == [] then None
    else
      match mode
      case Hash => Some(ns[hash(account) % |ns|])
      case RoundRobin => Some(ns[s.rr % |ns|])
      case LeastAccounts | Exclusive => Some(Least(s, ns))
  }

  function StartsWith(s: string, t: string): bool {
    |t| <= |s| && s[..|t|] == t
  }

  predicate Applies(r: Rule, account: string, tags: seq<string>) {
    && r.enabled
    && (r.prefix == "" || StartsWith(account, r.prefix))
    && (r.accountTags == [] || AnyShared(r.accountTags, tags))
  }

  // ---- rules by falling priority ----

  function InsertRule(rs: seq<Rule>, r: Rule): (res: seq<Rule>)
    ensures forall x :: x in res <==> x in rs || x == r
  {
    if rs == [] || rs[|rs| - 1].priority >= r.priority then rs + [r]
    else
      var k := |rs| - 1;
      assert rs == rs[..k] + [rs[k]];
      InsertRule(rs[..k], r) + [rs[k]]
  }

  function ByPriority(rs: seq<Rule>): (res: seq<Rule>)
    ensures forall x :: x in res <==> x in rs
  {
    if rs == [] then []
    else
      var k := |rs| - 1;
      assert rs == rs[..k] + [rs[k]];
      InsertRule(ByPriority(rs[..k]), rs[k])
  }

  datatype Choice = Choice(node: Node, mode: Mode)

  /** The first applicable rule with a candidate decides, then the default mode over all nodes. */
  function Assign(c: Config, s: State, account: string, tags: seq<string>, rules: seq<Rule>, hash: string -> nat)
    : (r: Option<Choice>)
    ensures r.Some? ==> r.value.node in c.nodes
    ensures r.Some? ==> r.value.node.enabled && Healthy(c, s, r.value.node.id)
    ensures r.Some? ==> var cap := CapFor(r.value.node, r.value.mode);
                        cap.Some? ==> BoundCount(s.bindings, r.value.node.id) < cap.value
    ensures r.Some? ==> r.value.mode == c.defaultMode || exists x :: x in rules && x.enabled && r.value.mode == x.mode
  {
    if rules == [] then
      var n := Pick(s, account, Candidates(c, s, c.nodes, [], "", c.defaultMode), c.defaultMode, hash);
      if n.Some? then Some(Choice(n.value, c.defaultMode)) else None
    else
      var rule := rules[0];
      var n := if Applies(rule, account, tags)
               then Pick(s, account, Candidates(c, s, c.nodes, rule.proxyTags, rule.region, rule.mode), rule.mode, hash)
               else None;
      if n.Some? then
        assert rule in rules;
        Some(Choice(n.value, rule.mode))
      else
        assert forall x :: x in rules[1..] ==> x in rules;
        Assign(c, s, account, tags, rules[1..], hash)
  }

  // ---- resolve ----

  function FindNode(nodes: seq<Node>, id: string): (r: Option<Node>)
    ensures r.Some? ==> r.value in nodes && r.value.id == id && r.value.enabled
    ensures r.None? ==> forall n :: n in nodes ==> !(n.id == id && n.enabled)
  {
    if nodes == [] then None
    else if nodes[0].id == id && nodes[0].enabled then Some(nodes[0])
    else
      assert forall n :: n in nodes ==> n == nodes[0] || n in nodes[1..];
      FindNode(nodes[1..], id)
  }

  /** The node an account is bound to, as long as it is enabled and healthy. */
  function Held(c: Config, s: State, account: string): (r: Option<Node>) {
    if account !in s.bindings then None
    else
      var n := FindNode(c.nodes, s.bindings[account]);
      if n.Some? && Healthy(c, s, n.value.id) then n else None
  }

  function Resolve(c: Config, s: State, account: string, tags: seq<string>, hash: string -> nat): (r: (Answer, State)) {
    if !c.enabled then (Direct, s)
    else if Held(c, s, account).Some? then (Through(Held(c, s, account).value), s)
    else
      var t := s.(bindings := s.bindings - {account});
      match Assign(c, t, account, tags, ByPriority(c.rules), hash)
      case Some(ch) =>
        (Through(ch.node),
         t.(bindings := t.bindings[account := ch.node.id], rr := if ch.mode.RoundRobin? then t.rr + 1 else t.rr))
      case None => (if c.requireProxy then Refused else Direct, t)
  }

  /** `sync_runtime` gives every configured node a failure count. */
  function NoFails(nodes: seq<Node>): (fails: map<string, nat>)
    ensures forall n :: n in nodes ==> n.id in fails
    ensures forall id :: id in fails ==> fails[id] == 0
  {
    if nodes == [] then map[]
    else
      assert nodes == nodes[..|nodes| - 1] + [nodes[|nodes| - 1]];
      NoFails(nodes[..|nodes| - 1])[nodes[|nodes| - 1].id := 0]
  }

  function Fresh(c: Config): (s: State) {
    State(NoFails(c.nodes), map[], 0)
  }

  function Probed(s: State, id: string, ok: bool): (res: State) {
    var fails := if ok then 0 else (if id in s.fails then s.fails[id] else 0) + 1;
    s.(fails := s.fails[id := fails])
  }

  class ProxyPool {
    const cfg: Config
    const hash: string -> nat
    var fails: map<string, nat>
    var bindings: map<string, string>
    var rr: nat

    constructor (cfg: Config, hash: string -> nat)
      ensures this.cfg == cfg && this.hash == hash && Now() == Fresh(cfg)
    {
      var none: map<string, nat> := map[];
      for i := 0 to |cfg.nodes|
        invariant none == NoFails(cfg.nodes[..i])
      {
        assert cfg.nodes[..i + 1][..i] == cfg.nodes[..i];
        none := none[cfg.nodes[i].id := 0];
      }
      assert cfg.nodes[..|cfg.nodes|] == cfg.nodes;
      this.cfg, this.hash := cfg, hash;
      fails, bindings, rr := none, map[], 0;
    }

    function Now(): (s: State)
      reads this
    {
      State(fails, bindings, rr)
    }

    method ResolveUnpinned(account: string, tags: seq<string>) returns (r: Answer)
      modifies this
      ensures (r, Now()) == Resolve(cfg, old(Now()), account, tags, hash)
    {
      if !cfg.enabled {
        return Direct;
      }
      if account in bindings {
        var n := FindNode(cfg.nodes, bindings[account]);
        if n.Some? && Healthy(cfg, Now(), n.value.id) {
          return Through(n.value);
        }
      }
      bindings := bindings - {account};
      var choice := Assign(cfg, Now(), account, tags, ByPriority(cfg.rules), hash);
      match choice
      case Some(ch) =>
        if ch.mode.RoundRobin? {
          rr := rr + 1;
        }
        bindings := bindings[account := ch.node.id];
        r := Through(ch.node);
      case None =>
        r := if cfg.requireProxy then Refused else Direct;
    }

    method RecordProbe(id: string, ok: bool)
      modifies this
      ensures Now() == Probed(old(Now()), id, ok) && bindings == old(bindings)
      ensures ok ==> (Healthy(cfg, Now(), id) <==> cfg.failThreshold > 0)
      ensures !ok && !old(Healthy(cfg, Now(), id)) ==> !Healthy(cfg, Now(), id)
      ensures forall other :: other != id ==> Healthy(cfg, Now(), other) == old(Healthy(cfg, Now(), other))
    {
      fails := fails[id := if ok then 0 else (if id in fails then fails[id] else 0) + 1];
    }
  }

  // ---- capacity over every run ----

  datatype Op =
    | DoResolve(account: string, tags: seq<string>)
    | DoProbe(id: string, ok: bool)
    | DoUnbind(account: string)

  function Do(c: Config, s: State, op: Op, hash: string -> nat): (res: State) {
    match op
    case DoResolve(a, tags) => Resolve(c, s, a, tags, hash).1
    case DoProbe(id, ok) => Probed(s, id, ok)
    case DoUnbind(a) => s.(bindings := s.bindings - {a})
  }

  function Run(c: Config, s: State, ops: seq<Op>, hash: string -> nat): (res: State) {
    if ops == [] then s else Do(c, Run(c, s, ops[..|ops| - 1], hash), ops[|ops| - 1], hash)
  }

  /** Entries that share an id also share their limit. */
  ghost predicate OneLimitPerId(c: Config) {
    forall n, m :: n in c.nodes && m in c.nodes && n.id == m.id ==> n.maxAccounts == m.maxAccounts
  }

  ghost predicate AllExclusive(c: Config) {
    c.defaultMode.Exclusive? && forall r :: r in c.rules && r.enabled ==> r.mode.Exclusive?
  }

  /** What a node may carry whichever rule put the accounts there. */
  ghost function Limit(c: Config, n: Node): Option<nat> {
    if n.maxAccounts > 0 then Some(n.maxAccounts) else if AllExclusive(c) then Some(1) else None
  }

  ghost predicate WithinLimits(c: Config, s: State) {
    forall n :: n in c.nodes && Limit(c, n).Some? ==> BoundCount(s.bindings, n.id) <= Limit(c, n).value
  }

  lemma UnbindCount(bindings: map<string, string>, account: string, id: string)
    ensures BoundCount(bindings - {account}, id) <= BoundCount(bindings, id)
  {
    var a, b := BoundTo(bindings - {account}, id), BoundTo(bindings, id);
    assert b == a + (b - a);
  }

  lemma BindCount(bindings: map<string, string>, account: string, node: string, id: string)
    requires account !in bindings
    ensures BoundCount(bindings[account := node], id) == BoundCount(bindings, id) + (if id == node then 1 else 0)
  {
    var a, b := BoundTo(bindings[account := node], id), BoundTo(bindings, id);
    if id == node {
      assert a == b + {account};
    } else {
      assert a == b;
    }
  }

  lemma UnbindWithin(c: Config, s: State, account: string)
    requires WithinLimits(c, s)
    ensures WithinLimits(c, s.(bindings := s.bindings - {account}))
  {
    forall n | n in c.nodes && Limit(c, n).Some?
      ensures BoundCount(s.bindings - {account}, n.id) <= Limit(c, n).value
    {
      UnbindCount(s.bindings, account, n.id);
    }
  }

  /** Every chosen mode enforces at least the node's own limit. */
  lemma ChoiceUnderLimit(c: Config, s: State, account: string, tags: seq<string>, hash: string -> nat)
    ensures var r := Assign(c, s, account, tags, ByPriority(c.rules), hash);
            r.Some? && Limit(c, r.value.node).Some? ==>
              BoundCount(s.bindings, r.value.node.id) < Limit(c, r.value.node).value
  {
  }

  lemma ResolveWithin(c: Config, s: State, account: string, tags: seq<string>, hash: string -> nat)
    requires OneLimitPerId(c) && WithinLimits(c, s)
    ensures WithinLimits(c, Resolve(c, s, account, tags, hash).1)
  {
    var t := s.(bindings := s.bindings - {account});
    UnbindWithin(c, s, account);
    var r := Assign(c, t, account, tags, ByPriority(c.rules), hash);
    if r.Some? {
      ChoiceUnderLimit(c, t, account, tags, hash);
      forall n | n in c.nodes && Limit(c, n).Some?
        ensures BoundCount(t.bindings[account := r.value.node.id], n.id) <= Limit(c, n).value
      {
        BindCount(t.bindings, account, r.value.node.id, n.id);
      }
    }
  }

  /** Over any run of resolves, probe results and unbindings no node exceeds its limit. */
  lemma {:induction false} CapacityKept(c: Config, s: State, ops: seq<Op>, hash: string -> nat)
    requires OneLimitPerId(c) && WithinLimits(c, s)
    ensures WithinLimits(c, Run(c, s, ops, hash))
  {
    if ops != [] {
      var t, op := Run(c, s, ops[..|ops| - 1], hash), ops[|ops| - 1];
      CapacityKept(c, s, ops[..|ops| - 1], hash);
      match op
      case DoResolve(a, tags) => ResolveWithin(c, t, a, tags, hash);
      case DoProbe(id, ok) =>
      case DoUnbind(a) => UnbindWithin(c, t, a);
    }
  }

  /** In particular from the start, when nothing is bound. */
  lemma CapacityFromStart(c: Config, ops: seq<Op>, hash: string -> nat)
    requires OneLimitPerId(c)
    ensures WithinLimits(c, Run(c, Fresh(c), ops, hash))
  {
    forall n | n in c.nodes && Limit(c, n).Some?
      ensures BoundCount(map[], n.id) <= Limit(c, n).value
    {
      assert BoundTo(map[], n.id) == {};
    }
    CapacityKept(c, Fresh(c), ops, hash);
  }

  // ---- resolves that interleave ----

  /** A resolve that has seen a node below its limit and has not bound the account yet. */
  datatype Pending = Pending(account: string, node: string)

  datatype Race = Race(bindings: map<string, string>, pending: seq<Pending>)

  datatype Move =
    | Pass(account: string, node: Node, mode: Mode)   // the capacity check of the node that will be chosen
    | Bind(i: nat)
    | Release(account: string)                        // a dropped or removed binding

  /** A mode that some resolve can choose a node under. */
  ghost predicate InUse(c: Config, mode: Mode) {
    mode == c.defaultMode || exists r :: r in c.rules && r.enabled && mode == r.mode
  }

  ghost predicate Passes(c: Config, r: Race, node: Node, mode: Mode) {
    && node in c.nodes && InUse(c, mode)
    && (CapFor(node, mode).Some? ==> BoundCount(r.bindings, node.id) < CapFor(node, mode).value)
  }

  ghost function Next(c: Config, r: Race, m: Move): (res: Race) {
    match m
    case Pass(a, n, mode) => if Passes(c, r, n, mode) then r.(pending := r.pending + [Pending(a, n.id)]) else r
    case Bind(i) =>
      if i >= |r.pending| then r
      else
        var p := r.pending[i];
        Race(r.bindings[p.account := p.node], r.pending[..i] + r.pending[i + 1..])
    case Release(a) => r.(bindings := r.bindings - {a})
  }

  ghost function Racing(c: Config, r: Race, ms: seq<Move>): (res: Race) {
    if ms == [] then r else Next(c, Racing(c, r, ms[..|ms| - 1]), ms[|ms| - 1])
  }

  /** How many resolves are between check and binding on a node. */
  function Waiting(ps: seq<Pending>, id: string): (n: nat) {
    if ps == [] then 0 else Waiting(ps[..|ps| - 1], id) + (if ps[|ps| - 1].node == id then 1 else 0)
  }

  /** The most that ever were at once. */
  ghost function PeakWaiting(c: Config, r: Race, ms: seq<Move>, id: string): (n: nat) {
    var now := Waiting(Racing(c, r, ms).pending, id);
    if ms == [] then now
    else
      var before := PeakWaiting(c, r, ms[..|ms| - 1], id);
      if before < now then now else before
  }

  /** The choice of a sequential resolve passes. */
  lemma AssignPasses(c: Config, s: State, account: string, tags: seq<string>, hash: string -> nat)
    ensures var r := Assign(c, s, account, tags, ByPriority(c.rules), hash);
            r.Some? ==> Passes(c, Race(s.bindings, []), r.value.node, r.value.mode)
  {
  }

  lemma {:induction false} WaitingWithout(ps: seq<Pending>, i: nat, id: string)
    requires i < |ps|
    ensures Waiting(ps[..i] + ps[i + 1..], id) == Waiting(ps, id) - (if ps[i].node == id then 1 else 0)
  {
    var n := |ps| - 1;
    if i == n {
      assert ps[..i] + ps[i + 1..] == ps[..n];
    } else {
      WaitingWithout(ps[..n], i, id);
      var rest := ps[..i] + ps[i + 1..];
      assert rest[..n - 1] == ps[..n][..i] + ps[..n][i + 1..];
    }
  }

  lemma RebindCount(bindings: map<string, string>, account: string, node: string, id: string)
    ensures BoundCount(bindings[account := node], id) <= BoundCount(bindings, id) + (if id == node then 1 else 0)
  {
    UnbindCount(bindings, account, id);
    BindCount(bindings - {account}, account, node, id);
    assert bindings[account := node] == (bindings - {account})[account := node];
  }

  lemma PassUnderLimit(c: Config, r: Race, node: Node, mode: Mode)
    requires Passes(c, r, node, mode) && Limit(c, node).Some?
    ensures BoundCount(r.bindings, node.id) < Limit(c, node).value
  {
  }

  lemma MoveCount(c: Config, r: Race, m: Move, n: Node)
    requires OneLimitPerId(c) && n in c.nodes && Limit(c, n).Some?
    ensures var d := Next(c, r, m);
            var load, load' := BoundCount(r.bindings, n.id) + Waiting(r.pending, n.id),
                               BoundCount(d.bindings, n.id) + Waiting(d.pending, n.id);
            load' <= load || (0 < Waiting(d.pending, n.id) && load' < Limit(c, n).value + Waiting(d.pending, n.id))
  {
    match m
    case Pass(a, node, mode) =>
      if Passes(c, r, node, mode) {
        assert (r.pending + [Pending(a, node.id)])[..|r.pending|] == r.pending;
        if node.id == n.id && Limit(c, node).Some? {
          PassUnderLimit(c, r, node, mode);
        }
      }
    case Bind(i) =>
      if i < |r.pending| {
        RebindCount(r.bindings, r.pending[i].account, r.pending[i].node, n.id);
        WaitingWithout(r.pending, i, n.id);
      }
    case Release(a) => UnbindCount(r.bindings, a, n.id);
  }

  /** When resolves interleave, a node can pass its limit by no more than the resolves that were ever
      between check and binding on it at once, less one. */
  lemma {:induction false} RacingCapacity(c: Config, ms: seq<Move>, n: Node)
    requires OneLimitPerId(c) && n in c.nodes && Limit(c, n).Some?
    ensures var start := Race(map[], []); var r := Racing(c, start, ms); var peak := PeakWaiting(c, start, ms, n.id);
            BoundCount(r.bindings, n.id) + Waiting(r.pending, n.id) <=
            if peak == 0 then 0 else Limit(c, n).value + peak - 1
  {
    if ms == [] {
      assert BoundTo(map[], n.id) == {};
    } else {
      var r := Racing(c, Race(map[], []), ms[..|ms| - 1]);
      RacingCapacity(c, ms[..|ms| - 1], n);
      MoveCount(c, r, ms[|ms| - 1], n);
    }
  }

  /** And it does: two resolves that both check a node with one place left, whatever its limit. */
  lemma TwoResolvesOvershoot(c: Config, r: Race, n: Node, mode: Mode, a: string, b: string)
    requires r.pending == [] && a != b && a !in r.bindings && b !in r.bindings
    requires n in c.nodes && InUse(c, mode) && CapFor(n, mode) == Some(BoundCount(r.bindings, n.id) + 1)
    ensures var d := Next(c, Next(c, Next(c, Next(c, r, Pass(a, n, mode)), Pass(b, n, mode)), Bind(0)), Bind(0));
            d.pending == [] && BoundCount(d.bindings, n.id) == CapFor(n, mode).value + 1
  {
    var two := Next(c, Next(c, r, Pass(a, n, mode)), Pass(b, n, mode));
    assert two == Race(r.bindings, [Pending(a, n.id), Pending(b, n.id)]);
    BindCount(r.bindings, a, n.id, n.id);
    BindCount(r.bindings[a := n.id], b, n.id, n.id);
  }

  // ---- probes ----

  /** Bad probes of a node since its last good one. */
  function BadProbes(ops: seq<Op>, id: string): (n: nat) {
    if ops == [] then 0
    else
      var before, op := BadProbes(ops[..|ops| - 1], id), ops[|ops| - 1];
      if op.DoProbe? && op.id == id then (if op.ok then 0 else before + 1) else before
  }

  lemma {:induction false} FailsAreBadProbes(c: Config, ops: seq<Op>, hash: string -> nat, id: string)
    requires id in NoFails(c.nodes)
    ensures var s := Run(c, Fresh(c), ops, hash); id in s.fails && s.fails[id] == BadProbes(ops, id)
  {
    if ops != [] {
      FailsAreBadProbes(c, ops[..|ops| - 1], hash, id);
    }
  }

  lemma AnswerIsUp(c: Config, s: State, account: string, tags: seq<string>, hash: string -> nat)
    ensures var r := Resolve(c, s, account, tags, hash).0;
            r.Through? ==> r.node in c.nodes && r.node.enabled && Healthy(c, s, r.node.id)
  {
  }

  /** Over any run: a configured node counts as healthy exactly while fewer bad probes than the threshold
      followed its last good one, and only such a node is ever answered with. So the threshold's worth of
      bad probes takes a node out, one good probe brings it back, and a threshold of 0 takes all out. */
  lemma ProbesDecide(c: Config, ops: seq<Op>, hash: string -> nat, n: Node, account: string, tags: seq<string>)
    requires n in c.nodes
    ensures var s := Run(c, Fresh(c), ops, hash); var r := Resolve(c, s, account, tags, hash).0;
            && (Healthy(c, s, n.id) <==> BadProbes(ops, n.id) < c.failThreshold)
            && (r.Through? ==> r.node in c.nodes && r.node.enabled && BadProbes(ops, r.node.id) < c.failThreshold)
  {
    var s := Run(c, Fresh(c), ops, hash);
    FailsAreBadProbes(c, ops, hash, n.id);
    AnswerIsUp(c, s, account, tags, hash);
    var r := Resolve(c, s, account, tags, hash).0;
    if r.Through? {
      FailsAreBadProbes(c, ops, hash, r.node.id);
    }
  }

  /** A bound account holds on to its node exactly while that is enabled and its probes allow it. */
  lemma BoundFollowsProbes(c: Config, ops: seq<Op>, hash: string -> nat, account: string)
    requires account in Run(c, Fresh(c), ops, hash).bindings
    ensures var s := Run(c, Fresh(c), ops, hash); var id := s.bindings[account];
            Held(c, s, account).Some? <==>
            (exists n :: n in c.nodes && n.id == id && n.enabled) && BadProbes(ops, id) < c.failThreshold
  {
    var s := Run(c, Fresh(c), ops, hash);
    var id := s.bindings[account];
    if exists n :: n in c.nodes && n.id == id && n.enabled {
      FailsAreBadProbes(c, ops, hash, id);
    }
  }

  // ---- an account keeps its node ----

  /** Before each of its own resolves the account's node is enabled and healthy, and nobody unbinds it. */
  ghost predicate NodeStaysUp(c: Config, s: State, ops: seq<Op>, hash: string -> nat, account: string) {
    forall i :: 0 <= i < |ops| ==>
      && (ops[i].DoUnbind? ==> ops[i].account != account)
      && (ops[i].DoResolve? && ops[i].account == account ==> Held(c, Run(c, s, ops[..i], hash), account).Some?)
  }

  lemma DoKeepsBinding(c: Config, s: State, op: Op, hash: string -> nat, account: string)
    requires account in s.bindings
    requires op.DoUnbind? ==> op.account != account
    requires op.DoResolve? && op.account == account ==> Held(c, s, account).Some?
    ensures account in Do(c, s, op, hash).bindings && Do(c, s, op, hash).bindings[account] == s.bindings[account]
  {
  }

  lemma {:induction false} AccountKeepsNode(c: Config, s: State, ops: seq<Op>, hash: string -> nat, account: string)
    requires account in s.bindings && NodeStaysUp(c, s, ops, hash, account)
    ensures var t := Run(c, s, ops, hash); account in t.bindings && t.bindings[account] == s.bindings[account]
  {
    if ops != [] {
      var front := ops[..|ops| - 1];
      assert forall i :: 0 <= i < |front| ==> front[..i] == ops[..i];
      AccountKeepsNode(c, s, front, hash, account);
      assert ops[..|ops| - 1] == front;
      DoKeepsBinding(c, Run(c, s, front, hash), ops[|ops| - 1], hash, account);
    }
  }

  /** And resolving it answers with that node. */
  lemma HeldNodeAnswers(c: Config, s: State, account: string, tags: seq<string>, hash: string -> nat)
    requires c.enabled && Held(c, s, account).Some?
    ensures var (r, t) := Resolve(c, s, account, tags, hash);
            t == s && r.Through? && r.node.id == s.bindings[account] && r.node.enabled && Healthy(c, s, r.node.id)
  {
  }

  // ---- what decides an assignment ----

  ghost predicate Falling(rs: seq<Rule>) {
    forall i, j :: 0 <= i < j < |rs| ==> rs[i].priority >= rs[j].priority
  }

  lemma {:induction false} InsertFalling(rs: seq<Rule>, r: Rule)
    requires Falling(rs)
    ensures Falling(InsertRule(rs, r))
  {
    if rs != [] && rs[|rs| - 1].priority < r.priority {
      var k := |rs| - 1;
      var res := InsertRule(rs[..k], r);
      InsertFalling(rs[..k], r);
      forall i | 0 <= i < |res|
        ensures res[i].priority >= rs[k].priority
      {
        assert res[i] in res;
      }
    }
  }

  lemma {:induction false} ByPriorityFalls(rs: seq<Rule>)
    ensures Falling(ByPriority(rs))
  {
    if rs != [] {
      ByPriorityFalls(rs[..|rs| - 1]);
      InsertFalling(ByPriority(rs[..|rs| - 1]), rs[|rs| - 1]);
    }
  }

  /** A node may serve under these tags, this region and this mode: it is configured, enabled and healthy, in the
      region if one is given, shares a tag if any are given, and is below the mode's cap. */
  ghost predicate MayServe(c: Config, s: State, n: Node, tags: seq<string>, region: string, mode: Mode) {
    && n in c.nodes && n.enabled
    && (n.id in s.fails ==> s.fails[n.id] < c.failThreshold)
    && (region != "" ==> n.region == region)
    && (tags != [] ==> exists t :: t in tags && t in n.tags)
    && (mode.Exclusive? && n.maxAccounts == 0 ==> BoundCount(s.bindings, n.id) < 1)
    && (n.maxAccounts > 0 ==> BoundCount(s.bindings, n.id) < n.maxAccounts)
  }

  lemma MayServeIff(c: Config, s: State, n: Node, tags: seq<string>, region: string, mode: Mode)
    ensures MayServe(c, s, n, tags, region, mode) <==> n in c.nodes && Eligible(c, s, n, tags, region, mode)
  {
  }

  /** The rule speaks for the account and some node may serve under it. */
  ghost predicate Usable(c: Config, s: State, r: Rule, account: string, tags: seq<string>) {
    && r.enabled && (r.prefix != "" ==> |r.prefix| <= |account| && account[..|r.prefix|] == r.prefix)
    && (r.accountTags != [] ==> exists t :: t in r.accountTags && t in tags)
    && exists n :: MayServe(c, s, n, r.proxyTags, r.region, r.mode)
  }

  lemma PickServes(c: Config, s: State, account: string, tags: seq<string>, region: string, mode: Mode,
                   hash: string -> nat)
    ensures var n := Pick(s, account, Candidates(c, s, c.nodes, tags, region, mode), mode, hash);
            && (n.Some? <==> exists m :: MayServe(c, s, m, tags, region, mode))
            && (n.Some? ==> MayServe(c, s, n.value, tags, region, mode))
  {
    var ns := Candidates(c, s, c.nodes, tags, region, mode);
    if ns != [] {
      var n := Pick(s, account, ns, mode, hash);
      MayServeIff(c, s, n.value, tags, region, mode);
    }
    if m :| MayServe(c, s, m, tags, region, mode) {
      MayServeIff(c, s, m, tags, region, mode);
      assert m in ns;
    }
  }

  /** Rule `i` of the list decides: it is usable, none before it is, and the choice is one of its nodes. */
  ghost predicate DecidedBy(c: Config, s: State, account: string, tags: seq<string>, rules: seq<Rule>, i: int,
                            ch: Choice) {
    && 0 <= i < |rules| && Usable(c, s, rules[i], account, tags)
    && (forall j :: 0 <= j < i ==> !Usable(c, s, rules[j], account, tags))
    && ch.mode == rules[i].mode && MayServe(c, s, ch.node, rules[i].proxyTags, rules[i].region, ch.mode)
  }

  ghost predicate NoneUsable(c: Config, s: State, account: string, tags: seq<string>, rules: seq<Rule>) {
    forall i :: 0 <= i < |rules| ==> !Usable(c, s, rules[i], account, tags)
  }

  lemma FirstRule(c: Config, s: State, account: string, tags: seq<string>, r: Rule, hash: string -> nat)
    ensures var n := Pick(s, account, Candidates(c, s, c.nodes, r.proxyTags, r.region, r.mode), r.mode, hash);
            && (Usable(c, s, r, account, tags) <==> Applies(r, account, tags) && n.Some?)
            && (n.Some? ==> MayServe(c, s, n.value, r.proxyTags, r.region, r.mode))
  {
    PickServes(c, s, account, r.proxyTags, r.region, r.mode, hash);
  }

  lemma {:induction false} AssignDecided(c: Config, s: State, account: string, tags: seq<string>, rules: seq<Rule>,
                                         hash: string -> nat)
    ensures var r := Assign(c, s, account, tags, rules, hash);
            if NoneUsable(c, s, account, tags, rules) then
              && (r.Some? <==> exists n :: MayServe(c, s, n, [], "", c.defaultMode))
              && (r.Some? ==> r.value.mode == c.defaultMode && MayServe(c, s, r.value.node, [], "", c.defaultMode))
            else r.Some? && exists i :: DecidedBy(c, s, account, tags, rules, i, r.value)
  {
    if rules == [] {
      PickServes(c, s, account, [], "", c.defaultMode, hash);
    } else {
      var rest := rules[1..];
      FirstRule(c, s, account, tags, rules[0], hash);
      AssignDecided(c, s, account, tags, rest, hash);
      var r := Assign(c, s, account, tags, rules, hash);
      if Usable(c, s, rules[0], account, tags) {
        assert DecidedBy(c, s, account, tags, rules, 0, r.value);
      } else if !NoneUsable(c, s, account, tags, rest) {
        var i :| DecidedBy(c, s, account, tags, rest, i, r.value);
        assert DecidedBy(c, s, account, tags, rules, i + 1, r.value);
      } else {
        assert forall i :: 0 < i < |rules| ==> rules[i] == rest[i - 1];
      }
    }
  }

  /** A usable rule of the highest priority decides, and the node chosen may serve under it; without one the
      default mode over all nodes does. */
  lemma RulesDecide(c: Config, s: State, account: string, tags: seq<string>, hash: string -> nat)
    ensures var ch := Assign(c, s, account, tags, ByPriority(c.rules), hash);
            if exists r :: r in c.rules && Usable(c, s, r, account, tags) then
              ch.Some? && exists r :: && r in c.rules && Usable(c, s, r, account, tags) && ch.value.mode == r.mode
                                      && MayServe(c, s, ch.value.node, r.proxyTags, r.region, r.mode)
                                      && Foremost(c, s, account, tags, r)
            else
              && (ch.Some? <==> exists n :: MayServe(c, s, n, [], "", c.defaultMode))
              && (ch.Some? ==> ch.value.mode == c.defaultMode && MayServe(c, s, ch.value.node, [], "", c.defaultMode))
  {
    var rules := ByPriority(c.rules);
    var ch := Assign(c, s, account, tags, rules, hash);
    AssignDecided(c, s, account, tags, rules, hash);
    if NoneUsable(c, s, account, tags, rules) {
      forall r | r in c.rules
        ensures !Usable(c, s, r, account, tags)
      {
        assert r in rules;
        var i :| 0 <= i < |rules| && rules[i] == r;
      }
    } else {
      var i :| DecidedBy(c, s, account, tags, rules, i, ch.value);
      assert rules[i] in rules;
      FirstIsForemost(c, s, account, tags, i);
    }
  }

  /** No usable rule has a higher priority. */
  ghost predicate Foremost(c: Config, s: State, account: string, tags: seq<string>, r: Rule) {
    forall x :: x in c.rules && Usable(c, s, x, account, tags) ==> x.priority <= r.priority
  }

  lemma FirstIsForemost(c: Config, s: State, account: string, tags: seq<string>, i: nat)
    requires i < |ByPriority(c.rules)|
    requires forall j :: 0 <= j < i ==> !Usable(c, s, ByPriority(c.rules)[j], account, tags)
    ensures Foremost(c, s, account, tags, ByPriority(c.rules)[i])
  {
    var rules := ByPriority(c.rules);
    ByPriorityFalls(c.rules);
    forall x | x in c.rules && Usable(c, s, x, account, tags)
      ensures x.priority <= rules[i].priority
    {
      assert x in rules;
      var k :| 0 <= k < |rules| && rules[k] == x;
    }
  }

  /** What a resolve answers and leaves behind. Without the pool everything goes direct. An account that does
      not hold a node loses its binding and is bound to the node assigned; with none it goes direct, or is
      refused where a proxy is required. Other accounts' bindings and the probes' counts stay. */
  lemma ResolveMeans(c: Config, s: State, account: string, tags: seq<string>, hash: string -> nat)
    ensures var (r, t) := Resolve(c, s, account, tags, hash);
            var free := s.(bindings := s.bindings - {account});
            var ch := Assign(c, free, account, tags, ByPriority(c.rules), hash);
            && t.fails == s.fails
            && (!c.enabled ==> r == Direct && t == s)
            && (c.enabled && Held(c, s, account).None? && ch.None? ==>
                  t == free && r == if c.requireProxy then Refused else Direct)
            && (c.enabled && Held(c, s, account).None? && ch.Some? ==>
                  r == Through(ch.value.node) && t.bindings == s.bindings[account := ch.value.node.id])
            && (forall other :: other != account && other in s.bindings ==>
                  other in t.bindings && t.bindings[other] == s.bindings[other])
  {
    var free := s.(bindings := s.bindings - {account});
    var ch := Assign(c, free, account, tags, ByPriority(c.rules), hash);
    if ch.Some? {
      assert free.bindings[account := ch.value.node.id] == s.bindings[account := ch.value.node.id];
    }
  }

  /** Hashing depends on the account alone, the rotation moves on by one node, and the other modes take a
      node with the fewest accounts. */
  lemma ModesMean(s: State, t: State, account: string, ns: seq<Node>, hash: string -> nat)
    requires ns != []
    ensures Pick(s, account, ns, Hash, hash) == Pick(t, account, ns, Hash, hash)
    ensures var i := s.rr % |ns|;
            && Pick(s, account, ns, RoundRobin, hash) == Some(ns[i])
            && Pick(s.(rr := s.rr + 1), account, ns, RoundRobin, hash) == Some(ns[if i + 1 < |ns| then i + 1 else 0])
    ensures forall mode, m :: (mode == LeastAccounts || mode == Exclusive) && m in ns ==>
              BoundCount(s.bindings, Pick(s, account, ns, mode, hash).value.id) <= BoundCount(s.bindings, m.id)
  {
    NextPlace(s.rr, |ns|);
  }

  lemma NextPlace(rr: nat, n: nat)
    requires n > 0
    ensures (rr + 1) % n == if rr % n + 1 < n then rr % n + 1 else 0
  {
    var q, i := rr / n, rr % n;
    assert rr == q * n + i;
    if i + 1 < n {
      ModOf(q, n, i + 1);
    } else {
      assert (q + 1) * n == q * n + n;
      ModOf(q + 1, n, 0);
    }
  }
}
