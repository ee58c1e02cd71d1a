/** Anthropic turns to Chat messages (`anthropic_to_openai_chat`) to Cursor messages
    (`openai_messages_to_cursor`). JSON values are carried as text. */
module Dialects {
  import opened Common

  datatype Call = Call(id: string, name: string, args: string)

  // ---- Chat ----

  /** `images` is non-empty exactly for content that has image parts. */
  datatype Chat = Chat(role: string, text: string, images: seq<string>, calls: seq<Call>,
                       callId: string, name: Option<string>)

  function Say(role: string, text: string): (m: Chat) {
    Chat(role, text, [], [], "", None)
  }

  predicate IsTool(m: Chat) {
    m.role == "tool"
  }

  // ---- Cursor ----

  datatype Part = Part(callId: string, toolName: string, result: string)

  datatype Cursor =
    | SystemMsg(text: string)
    | UserMsg(text: string)
    | UserParts(text: string, images: seq<string>)
    | AssistantMsg(said: Option<string>, calls: seq<Call>)
    | ToolMsg(parts: seq<Part>)

  /** `names` remembers which tool a call id stands for; `pending` gathers consecutive results. */
  datatype Translation = Translation(out: seq<Cursor>, names: map<string, string>, pending: seq<Part>)

  function Flush(t: Translation): (res: Translation) {
    if t.pending == [] then t else t.(out := t.out + [ToolMsg(t.pending)], pending := [])
  }

  /** A call without an id gets one derived from the tool's name. */
  function WithId(c: Call, hash: string -> string): (res: Call) {
    if c.id == "" then c.(id := hash(c.name)) else c
  }

  function WithIds(cs: seq<Call>, hash: string -> string): (res: seq<Call>)
    ensures |res| == |cs| && forall i :: 0 <= i < |cs| ==> res[i] == WithId(cs[i], hash)
  {
    if cs == [] then [] else WithIds(cs[..|cs| - 1], hash) + [WithId(cs[|cs| - 1], hash)]
  }

  function Learn(names: map<string, string>, cs: seq<Call>): (res: map<string, string>) {
    if cs == [] then names else Learn(names, cs[..|cs| - 1])[cs[|cs| - 1].id := cs[|cs| - 1].name]
  }

  function PartOf(names: map<string, string>, m: Chat): (p: Part) {
    Part(m.callId,
         if m.name.Some? then m.name.value else if m.callId in names then names[m.callId] else "",
         m.text)
  }

  /** The Cursor form of a message that is not a tool result. */
  function Spoken(m: Chat, hash: string -> string): (c: Cursor)
    ensures !c.ToolMsg?
  {
    if m.role == "assistant" then
      AssistantMsg(if m.text != "" || m.calls == [] then Some(m.text) else None, WithIds(m.calls, hash))
    else if m.role == "system" || m.role == "developer" then SystemMsg(m.text)
    else if m.images == [] then UserMsg(m.text)
    else UserParts(m.text, m.images)
  }

  function NamesAfter(names: map<string, string>, m: Chat, hash: string -> string): (res: map<string, string>) {
    if m.role == "assistant" then Learn(names, WithIds(m.calls, hash)) else names
  }

  function Step(t: Translation, m: Chat, hash: string -> string): (res: Translation) {
    if IsTool(m) then t.(pending := t.pending + [PartOf(t.names, m)])
    else
      var f := Flush(t);
      f.(out := f.out + [Spoken(m, hash)], names := NamesAfter(f.names, m, hash))
  }

  function Fold(t: Translation, ms: seq<Chat>, hash: string -> string): (res: Translation) {
    if ms == [] then t else Step(Fold(t, ms[..|ms| - 1], hash), ms[|ms| - 1], hash)
  }

  const EMPTY := Translation([], map[], [])

  function ToCursor(ms: seq<Chat>, hash: string -> string): (out: seq<Cursor>) {
    Flush(Fold(EMPTY, ms, hash)).out
  }

  method MessagesToCursor(ms: seq<Chat>, hash: string -> string) returns (out: seq<Cursor>)
    ensures out == ToCursor(ms, hash)
  {
    out := [];
    var names: map<string, string> := map[];
    var pending: seq<Part> := [];
    for i := 0 to |ms|
      invariant Translation(out, names, pending) == Fold(EMPTY, ms[..i], hash)
    {
      var m := ms[i];
      assert ms[..i + 1][..i] == ms[..i];
      if IsTool(m) {
        pending := pending + [PartOf(names, m)];
      } else {
        if pending != [] {
          out := out + [ToolMsg(pending)];
          pending := [];
        }
        names := NamesAfter(names, m, hash);
        out := out + [Spoken(m, hash)];
      }
    }
    assert ms[..|ms|] == ms;
    if pending != [] {
      out := out + [ToolMsg(pending)];
    }
  }

  // ---- TOOL messages are never adjacent and never empty ----

  ghost predicate ToolsApart(out: seq<Cursor>) {
    && (forall i :: 0 <= i < |out| && out[i].ToolMsg? ==> out[i].parts != [])
    && forall i :: 0 <= i < |out| - 1 ==> !(out[i].ToolMsg? && out[i + 1].ToolMsg?)
  }

  ghost predicate Settled(out: seq<Cursor>) {
    ToolsApart(out) && (out != [] ==> !out[|out| - 1].ToolMsg?)
  }

  lemma {:induction false} FoldSettled(ms: seq<Chat>, hash: string -> string)
    ensures Settled(Fold(EMPTY, ms, hash).out)
  {
    if ms != [] {
      FoldSettled(ms[..|ms| - 1], hash);
    }
  }

  lemma ToolMessagesApart(ms: seq<Chat>, hash: string -> string)
    ensures ToolsApart(ToCursor(ms, hash))
  {
    FoldSettled(ms, hash);
  }

  // ---- expanding TOOL messages gives the Chat order back ----

  datatype Item = Result(part: Part) | Other(msg: Cursor)

  function ResultItems(ps: seq<Part>): (items: seq<Item>)
    ensures |items| == |ps|
  {
    if ps == [] then [] else ResultItems(ps[..|ps| - 1]) + [Result(ps[|ps| - 1])]
  }

  function Expand(out: seq<Cursor>): (items: seq<Item>) {
    if out == [] then []
    else
      var c := out[|out| - 1];
      Expand(out[..|out| - 1]) + (if c.ToolMsg? then ResultItems(c.parts) else [Other(c)])
  }

  function Names(ms: seq<Chat>, hash: string -> string): (names: map<string, string>) {
    if ms == [] then map[] else
    var m := ms[|ms| - 1];
    if IsTool(m) then Names(ms[..|ms| - 1], hash) else NamesAfter(Names(ms[..|ms| - 1], hash), m, hash)
  }

  /** Each message on its own, tool results named by the calls made before them. */
  function OneByOne(ms: seq<Chat>, hash: string -> string): (items: seq<Item>)
    ensures |items| == |ms|
  {
    if ms == [] then []
    else
      var front, m := ms[..|ms| - 1], ms[|ms| - 1];
      OneByOne(front, hash) + [if IsTool(m) then Result(PartOf(Names(front, hash), m)) else Other(Spoken(m, hash))]
  }

  lemma ExpandStep(out: seq<Cursor>, c: Cursor)
    ensures Expand(out + [c]) == Expand(out) + (if c.ToolMsg? then ResultItems(c.parts) else [Other(c)])
  {
    assert (out + [c])[..|out|] == out;
  }

  lemma ResultStep(ps: seq<Part>, p: Part)
    ensures ResultItems(ps + [p]) == ResultItems(ps) + [Result(p)]
  {
    assert (ps + [p])[..|ps|] == ps;
  }

  lemma FlushExpands(t: Translation)
    ensures Expand(Flush(t).out) == Expand(t.out) + ResultItems(t.pending)
  {
    if t.pending != [] {
      ExpandStep(t.out, ToolMsg(t.pending));
    }
  }

  /** The items of a translation in progress. */
  function ItemsOf(t: Translation): (items: seq<Item>) {
    Expand(t.out) + ResultItems(t.pending)
  }

  lemma ToolExpands(t: Translation, p: Part)
    ensures ItemsOf(t.(pending := t.pending + [p])) == ItemsOf(t) + [Result(p)]
  {
    ResultStep(t.pending, p);
    Assoc(Expand(t.out), ResultItems(t.pending), [Result(p)]);
  }

  lemma SpokenExpands(t: Translation, c: Cursor, names: map<string, string>)
    requires !c.ToolMsg?
    ensures ItemsOf(Translation(Flush(t).out + [c], names, [])) == ItemsOf(t) + [Other(c)]
  {
    FlushExpands(t);
    ExpandStep(Flush(t).out, c);
    assert ResultItems([]) == [];
  }

  lemma StepExpands(t: Translation, m: Chat, hash: string -> string)
    ensures ItemsOf(Step(t, m, hash)) ==
            ItemsOf(t) + [if IsTool(m) then Result(PartOf(t.names, m)) else Other(Spoken(m, hash))]
  {
    if IsTool(m) {
      ToolExpands(t, PartOf(t.names, m));
    } else {
      SpokenExpands(t, Spoken(m, hash), NamesAfter(t.names, m, hash));
      assert Step(t, m, hash) == Translation(Flush(t).out + [Spoken(m, hash)], NamesAfter(t.names, m, hash), []);
    }
  }

  lemma {:induction false} FoldExpands(ms: seq<Chat>, hash: string -> string)
    ensures var t := Fold(EMPTY, ms, hash); t.names == Names(ms, hash) && ItemsOf(t) == OneByOne(ms, hash)
  {
    if ms != [] {
      FoldExpands(ms[..|ms| - 1], hash);
      StepExpands(Fold(EMPTY, ms[..|ms| - 1], hash), ms[|ms| - 1], hash);
    }
  }

  /** Nothing is lost or reordered: one item per Chat message, in the Chat order. */
  lemma ExpandRestoresOrder(ms: seq<Chat>, hash: string -> string)
    ensures Expand(ToCursor(ms, hash)) == OneByOne(ms, hash)
  {
    FoldExpands(ms, hash);
    FlushExpands(Fold(EMPTY, ms, hash));
  }

  // ---- Anthropic ----

  datatype Block = TextBlock(text: string) | ToolUse(call: Call) | ToolResult(callId: string, text: string) | OtherBlock

  datatype Body = Plain(text: string) | Blocks(blocks: seq<Block>) | Absent

  datatype Turn = Turn(role: string, body: Body)

  function Bits(bs: seq<Block>): (r: seq<string>) {
    if bs == [] then []
    else Bits(bs[..|bs| - 1]) + (if bs[|bs| - 1].TextBlock? then [bs[|bs| - 1].text] else [])
  }

  function Uses(bs: seq<Block>): (r: seq<Call>) {
    if bs == [] then []
    else Uses(bs[..|bs| - 1]) + (if bs[|bs| - 1].ToolUse? then [bs[|bs| - 1].call] else [])
  }

  function Results(bs: seq<Block>): (r: seq<Chat>)
    ensures forall m :: m in r ==> IsTool(m)
  {
    if bs == [] then []
    else
      var b := bs[|bs| - 1];
      Results(bs[..|bs| - 1]) + (if b.ToolResult? then [Chat("tool", b.text, [], [], b.callId, None)] else [])
  }

  function Join(bits: seq<string>): (s: string) {
    if bits == [] then "" else if |bits| == 1 then bits[0] else Join(bits[..|bits| - 1]) + "\n" + bits[|bits| - 1]
  }

  /** Tool results go before the turn's own text, whatever order the blocks came in. */
  function ChatOf(t: Turn): (ms: seq<Chat>) {
    match t.body
    case Plain(s) => [Say(t.role, s)]
    case Absent => [Say(t.role, "")]
    case Blocks(bs) =>
      if t.role == "assistant" && Uses(bs) != [] then
        [Say("assistant", Join(Bits(bs))).(calls := Uses(bs))] + Results(bs)
      else
        Results(bs) + (if Bits(bs) == [] then [] else [Say(t.role, Join(Bits(bs)))])
  }

  function FlatMap<A, B>(s: seq<A>, f: A -> seq<B>): (r: seq<B>) {
    if s == [] then [] else FlatMap(s[..|s| - 1], f) + f(s[|s| - 1])
  }

  function ChatsOf(ts: seq<Turn>): (ms: seq<Chat>) {
    FlatMap(ts, ChatOf)
  }

  function AnthropicToChat(system: string, ts: seq<Turn>): (ms: seq<Chat>) {
    (if system == "" then [] else [Say("system", system)]) + ChatsOf(ts)
  }

  method SplitBlocks(bs: seq<Block>) returns (bits: seq<string>, uses: seq<Call>, results: seq<Chat>)
    ensures bits == Bits(bs) && uses == Uses(bs) && results == Results(bs)
  {
    bits, uses, results := [], [], [];
    for i := 0 to |bs|
      invariant bits == Bits(bs[..i]) && uses == Uses(bs[..i]) && results == Results(bs[..i])
    {
      assert bs[..i + 1][..i] == bs[..i];
      match bs[i]
      case TextBlock(t) => bits := bits + [t];
      case ToolUse(c) => uses := uses + [c];
      case ToolResult(id, t) => results := results + [Chat("tool", t, [], [], id, None)];
      case OtherBlock =>
    }
    assert bs[..|bs|] == bs;
  }

  method TurnToChat(t: Turn) returns (ms: seq<Chat>)
    ensures ms == ChatOf(t)
  {
    match t.body
    case Plain(s) => ms := [Say(t.role, s)];
    case Absent => ms := [Say(t.role, "")];
    case Blocks(bs) =>
      var bits, uses, results := SplitBlocks(bs);
      if t.role == "assistant" && uses != [] {
        ms := [Say("assistant", Join(bits)).(calls := uses)] + results;
      } else {
        ms := results;
        if bits != [] {
          ms := ms + [Say(t.role, Join(bits))];
        }
      }
  }

  method TurnsToChat(system: string, ts: seq<Turn>) returns (ms: seq<Chat>)
    ensures ms == AnthropicToChat(system, ts)
  {
    ms := [];
    for i := 0 to |ts|
      invariant ms == FlatMap(ts[..i], ChatOf)
    {
      assert ts[..i + 1] == ts[..i] + [ts[i]];
      FlatMapStep(ts[..i], ts[i], ChatOf);
      var more := TurnToChat(ts[i]);
      ms := ms + more;
    }
    assert ts[..|ts|] == ts;
    ms := (if system == "" then [] else [Say("system", system)]) + ms;
  }

  lemma FlatMapStep<A, B>(s: seq<A>, x: A, f: A -> seq<B>)
    ensures FlatMap(s + [x], f) == FlatMap(s, f) + f(x)
  {
    assert (s + [x])[..|s|] == s;
  }

  lemma {:induction false} FlatMapConcat<A, B>(a: seq<A>, b: seq<A>, f: A -> seq<B>)
    ensures FlatMap(a + b, f) == FlatMap(a, f) + FlatMap(b, f)
  {
    if b == [] {
      assert a + b == a;
    } else {
      var front, x := b[..|b| - 1], b[|b| - 1];
      FlatMapConcat(a, front, f);
      assert a + b == (a + front) + [x];
      FlatMapStep(a + front, x, f);
      Assoc(FlatMap(a, f), FlatMap(front, f), f(x));
    }
  }

  lemma FlatMapHead<A, B>(s: seq<A>, f: A -> seq<B>)
    requires s != []
    ensures FlatMap(s, f) == f(s[0]) + FlatMap(s[1..], f)
  {
    assert s == [s[0]] + s[1..];
    FlatMapConcat([s[0]], s[1..], f);
    assert [s[0]][..0] == [];
  }

  lemma FlatMapTwo<A, B>(s: seq<A>, f: A -> seq<B>)
    requires |s| >= 2
    ensures FlatMap(s, f) == f(s[0]) + (f(s[1]) + FlatMap(s[2..], f))
  {
    FlatMapHead(s, f);
    FlatMapHead(s[1..], f);
    assert s[1..][1..] == s[2..];
  }

  lemma Regroup<T>(a: seq<T>, b: seq<T>, c: seq<T>, d: seq<T>)
    ensures a + (b + (c + d)) == a + b + c + d && a + (b + c + d) == (a + b) + c + d
  {
  }

  lemma FlatMapSplit<A, B>(s: seq<A>, j: nat, f: A -> seq<B>)
    requires 0 < j < |s|
    ensures FlatMap(s, f) == FlatMap(s[..j - 1], f) + f(s[j - 1]) + f(s[j]) + FlatMap(s[j + 1..], f)
  {
    var tail := s[j - 1..];
    assert s == s[..j - 1] + tail;
    FlatMapConcat(s[..j - 1], tail, f);
    FlatMapTwo(tail, f);
    assert tail[2..] == s[j + 1..] && tail[0] == s[j - 1] && tail[1] == s[j];
    Regroup(FlatMap(s[..j - 1], f), f(s[j - 1]), f(s[j]), FlatMap(s[j + 1..], f));
  }

  // ---- tool results stay next to their calls ----

  predicate Calling(t: Turn) {
    t.role == "assistant" && t.body.Blocks? && Uses(t.body.blocks) != []
  }

  predicate Answering(t: Turn) {
    t.body.Blocks? && Results(t.body.blocks) != []
  }

  /** Only user and assistant turns, and tool results only in a user turn right after the calls. */
  ghost predicate WellFormed(ts: seq<Turn>) {
    && (forall i :: 0 <= i < |ts| ==> ts[i].role == "user" || ts[i].role == "assistant")
    && forall i :: 0 <= i < |ts| && Answering(ts[i]) ==> ts[i].role == "user" && i > 0 && Calling(ts[i - 1])
  }

  lemma {:induction false} FoldConcat(t: Translation, a: seq<Chat>, b: seq<Chat>, hash: string -> string)
    ensures Fold(t, a + b, hash) == Fold(Fold(t, a, hash), b, hash)
  {
    if b == [] {
      assert a + b == a;
    } else {
      var front := b[..|b| - 1];
      FoldConcat(t, a, front, hash);
      assert (a + b)[..|a + b| - 1] == a + front && (a + b)[|a + b| - 1] == b[|b| - 1];
    }
  }

  lemma {:induction false} FoldGrows(t: Translation, ms: seq<Chat>, hash: string -> string)
    ensures t.out <= Fold(t, ms, hash).out
  {
    if ms != [] {
      FoldGrows(t, ms[..|ms| - 1], hash);
    }
  }

  function Parts(names: map<string, string>, rs: seq<Chat>): (ps: seq<Part>)
    ensures |ps| == |rs| && forall i :: 0 <= i < |rs| ==> ps[i] == PartOf(names, rs[i])
  {
    if rs == [] then [] else Parts(names, rs[..|rs| - 1]) + [PartOf(names, rs[|rs| - 1])]
  }

  lemma {:induction false} FoldResults(t: Translation, rs: seq<Chat>, hash: string -> string)
    requires forall m :: m in rs ==> IsTool(m)
    ensures Fold(t, rs, hash) == t.(pending := t.pending + Parts(t.names, rs))
  {
    if rs != [] {
      FoldResults(t, rs[..|rs| - 1], hash);
      assert rs[|rs| - 1] in rs;
    } else {
      assert t.pending + [] == t.pending;
    }
  }

  /** Once results are pending, the next message that is not a result, or the end, emits them. */
  lemma PendingEmitted(t: Translation, rest: seq<Chat>, hash: string -> string)
    requires t.pending != [] && (rest == [] || !IsTool(rest[0]))
    ensures t.out + [ToolMsg(t.pending)] <= Flush(Fold(t, rest, hash)).out
  {
    if rest != [] {
      assert rest == [rest[0]] + rest[1..];
      FoldConcat(t, [rest[0]], rest[1..], hash);
      assert [rest[0]][..0] == [];
      FoldGrows(Step(t, rest[0], hash), rest[1..], hash);
    }
  }

  /** A history whose first turn answers nothing starts with a message that is no tool result. */
  lemma {:induction false} StartsSpoken(ts: seq<Turn>)
    requires forall i :: 0 <= i < |ts| ==> ts[i].role == "user" || ts[i].role == "assistant"
    requires forall i :: 1 <= i < |ts| && Answering(ts[i]) ==> Calling(ts[i - 1])
    requires ts != [] ==> !Answering(ts[0])
    ensures ChatsOf(ts) == [] || !IsTool(ChatsOf(ts)[0])
  {
    if ts != [] {
      FlatMapHead(ts, ChatOf);
      if ChatOf(ts[0]) == [] {
        StartsSpoken(ts[1..]);
      }
    }
  }

  /** What follows the results of an answering turn. */
  function AfterResults(ts: seq<Turn>, j: nat): (rest: seq<Chat>)
    requires j < |ts| && ts[j].body.Blocks?
  {
    var bits := Bits(ts[j].body.blocks);
    (if bits == [] then [] else [Say(ts[j].role, Join(bits))]) + ChatsOf(ts[j + 1..])
  }

  lemma RestSpoken(ts: seq<Turn>, j: nat)
    requires WellFormed(ts) && j < |ts| && ts[j].body.Blocks? && ts[j].role == "user"
    ensures AfterResults(ts, j) == [] || !IsTool(AfterResults(ts, j)[0])
  {
    var tail := ts[j + 1..];
    forall i | 1 <= i < |tail| && Answering(tail[i])
      ensures Calling(tail[i - 1])
    {
      assert tail[i] == ts[j + 1 + i] && tail[i - 1] == ts[j + 1 + i - 1];
    }
    StartsSpoken(tail);
  }

  function CallingChat(t: Turn): (m: Chat)
    requires Calling(t)
  {
    Say("assistant", Join(Bits(t.body.blocks))).(calls := Uses(t.body.blocks))
  }

  lemma CallingChats(t: Turn)
    requires Calling(t) && !Answering(t)
    ensures ChatOf(t) == [CallingChat(t)]
  {
  }

  lemma AnsweringChats(ts: seq<Turn>, j: nat)
    requires j < |ts| && ts[j].role == "user" && ts[j].body.Blocks?
    ensures ChatOf(ts[j]) + ChatsOf(ts[j + 1..]) == Results(ts[j].body.blocks) + AfterResults(ts, j)
  {
    var bits := Bits(ts[j].body.blocks);
    Assoc(Results(ts[j].body.blocks), if bits == [] then [] else [Say(ts[j].role, Join(bits))], ChatsOf(ts[j + 1..]));
  }

  lemma HistorySplits(ts: seq<Turn>, j: nat)
    requires WellFormed(ts) && 0 < j < |ts| && Answering(ts[j])
    ensures Calling(ts[j - 1])
    ensures ChatsOf(ts) == ChatsOf(ts[..j - 1]) + [CallingChat(ts[j - 1])]
                           + (Results(ts[j].body.blocks) + AfterResults(ts, j))
  {
    assert Calling(ts[j - 1]);
    FlatMapSplit(ts, j, ChatOf);
    CallingChats(ts[j - 1]);
    AnsweringChats(ts, j);
    Assoc(ChatsOf(ts[..j - 1]) + [CallingChat(ts[j - 1])], ChatOf(ts[j]), ChatsOf(ts[j + 1..]));
  }

  lemma StepOut(t: Translation, m: Chat, hash: string -> string)
    requires !IsTool(m)
    ensures var t1 := Step(t, m, hash);
            t1.pending == [] && t1.out == Flush(t).out + [Spoken(m, hash)] && t1.names == NamesAfter(t.names, m, hash)
  {
  }

  lemma FoldStep(t: Translation, ms: seq<Chat>, m: Chat, hash: string -> string)
    ensures Fold(t, ms + [m], hash) == Step(Fold(t, ms, hash), m, hash)
  {
    assert (ms + [m])[..|ms|] == ms;
  }

  /** Results that follow an assistant message and precede a spoken one become its TOOL message. */
  lemma ResultsEmitted(pre: seq<Chat>, m: Chat, rs: seq<Chat>, rest: seq<Chat>, hash: string -> string)
    requires m.role == "assistant" && rs != [] && (forall r :: r in rs ==> IsTool(r))
    requires rest == [] || !IsTool(rest[0])
    ensures var t := Fold(EMPTY, pre, hash);
            Flush(t).out + [Spoken(m, hash)] + [ToolMsg(Parts(NamesAfter(t.names, m, hash), rs))]
            <= ToCursor(pre + [m] + (rs + rest), hash)
  {
    var t := Fold(EMPTY, pre, hash);
    var t1 := Step(t, m, hash);
    StepOut(t, m, hash);
    FoldStep(EMPTY, pre, m, hash);
    FoldConcat(EMPTY, pre + [m], rs + rest, hash);
    FoldConcat(t1, rs, rest, hash);
    FoldResults(t1, rs, hash);
    var ps := Parts(t1.names, rs);
    assert [] + ps == ps;
    PendingEmitted(t1.(pending := ps), rest, hash);
  }

  /** The translation of everything before turn `j` and its system prompt. */
  function Before(system: string, ts: seq<Turn>, j: nat, hash: string -> string): (t: Translation)
    requires j <= |ts|
  {
    Fold(EMPTY, AnthropicToChat(system, ts[..j]), hash)
  }

  /** In any well-formed history, an answering user turn becomes one TOOL message directly after the
      ASSISTANT message it answers, holding exactly its results in order; text in the same turn
      comes later, wherever its blocks stood. */
  lemma ResultsFollowCalls(system: string, ts: seq<Turn>, j: nat, hash: string -> string)
    requires WellFormed(ts) && j < |ts| && Answering(ts[j])
    ensures j > 0 && Calling(ts[j - 1])
    ensures var m, t := CallingChat(ts[j - 1]), Before(system, ts, j - 1, hash);
            var parts := Parts(NamesAfter(t.names, m, hash), Results(ts[j].body.blocks));
            Flush(t).out + [Spoken(m, hash)] + [ToolMsg(parts)] <= ToCursor(AnthropicToChat(system, ts), hash)
  {
    assert Calling(ts[j - 1]);
    HistorySplits(ts, j);
    RestSpoken(ts, j);
    var m, pre := CallingChat(ts[j - 1]), AnthropicToChat(system, ts[..j - 1]);
    ResultsEmitted(pre, m, Results(ts[j].body.blocks), AfterResults(ts, j), hash);
    var first := if system == "" then [] else [Say("system", system)];
    Regroup(first, ChatsOf(ts[..j - 1]), [m], Results(ts[j].body.blocks) + AfterResults(ts, j));
  }

  /** The name shown with a result is that of the call it answers. */
  lemma {:induction false} LearnedName(names: map<string, string>, cs: seq<Call>, k: nat)
    requires k < |cs| && forall i :: k < i < |cs| ==> cs[i].id != cs[k].id
    ensures cs[k].id in Learn(names, cs) && Learn(names, cs)[cs[k].id] == cs[k].name
  {
    if k < |cs| - 1 {
      LearnedName(names, cs[..|cs| - 1], k);
    }
  }

  lemma ResultNamesItsTool(names: map<string, string>, calls: seq<Call>, hash: string -> string, k: nat, m: Chat)
    requires k < |calls| && calls[k].id != "" && m.callId == calls[k].id && m.name.None?
    requires forall i :: k < i < |calls| ==> WithId(calls[i], hash).id != calls[k].id
    ensures PartOf(Learn(names, WithIds(calls, hash)), m) == Part(calls[k].id, calls[k].name, m.text)
  {
    LearnedName(names, WithIds(calls, hash), k);
  }

  lemma TwoAfter(front: seq<Cursor>, a: Cursor, b: Cursor, out: seq<Cursor>)
    requires front + [a] + [b] <= out
    ensures |front| + 1 < |out| && out[|front|] == a && out[|front| + 1] == b
  {
    assert (front + [a] + [b])[|front|] == a && (front + [a] + [b])[|front| + 1] == b;
  }

  lemma {:induction false} LearnAvoids(names: map<string, string>, cs: seq<Call>, id: string)
    requires id !in names && forall i :: 0 <= i < |cs| ==> cs[i].id != id
    ensures id !in Learn(names, cs)
  {
    if cs != [] {
      LearnAvoids(names, cs[..|cs| - 1], id);
    }
  }

  /** No call is ever remembered under the empty id. */
  lemma {:induction false} NoEmptyName(ms: seq<Chat>, hash: string -> string)
    requires forall n :: hash(n) != ""
    ensures "" !in Fold(EMPTY, ms, hash).names
  {
    if ms != [] {
      NoEmptyName(ms[..|ms| - 1], hash);
      LearnAvoids(Fold(EMPTY, ms[..|ms| - 1], hash).names, WithIds(ms[|ms| - 1].calls, hash), "");
    }
  }

  /** The id answered by result `r` is that of call `k`, and of no later call. */
  ghost predicate Answers(r: Chat, calls: seq<Call>, k: nat, hash: string -> string) {
    && k < |calls| && r.callId == calls[k].id && r.name.None?
    && forall n :: k < n < |calls| ==> WithId(calls[n], hash).id != calls[k].id
  }

  lemma PartNamed(names: map<string, string>, calls: seq<Call>, r: Chat, k: nat, hash: string -> string)
    requires Answers(r, calls, k, hash) && "" !in names && forall c :: c in calls ==> WithId(c, hash).id != ""
    ensures PartOf(Learn(names, WithIds(calls, hash)), r) ==
            Part(calls[k].id, if calls[k].id == "" then "" else calls[k].name, r.text)
  {
    if calls[k].id == "" {
      LearnAvoids(names, WithIds(calls, hash), "");
    } else {
      ResultNamesItsTool(names, calls, hash, k, r);
    }
  }

  lemma PartsNamed(t: Translation, m: Chat, rs: seq<Chat>, i: nat, k: nat, hash: string -> string)
    requires m.role == "assistant" && i < |rs| && Answers(rs[i], m.calls, k, hash)
    requires "" !in t.names && forall n :: hash(n) != ""
    ensures Parts(NamesAfter(t.names, m, hash), rs)[i] ==
            Part(m.calls[k].id, if m.calls[k].id == "" then "" else m.calls[k].name, rs[i].text)
  {
    PartNamed(t.names, m.calls, rs[i], k, hash);
  }

  lemma AnswerPlaced(system: string, ts: seq<Turn>, j: nat, hash: string -> string) returns (p: nat)
    requires WellFormed(ts) && 0 < j < |ts| && Answering(ts[j]) && Calling(ts[j - 1])
    ensures var out := ToCursor(AnthropicToChat(system, ts), hash);
            var names := NamesAfter(Before(system, ts, j - 1, hash).names, CallingChat(ts[j - 1]), hash);
            && p + 1 < |out| && out[p] == Spoken(CallingChat(ts[j - 1]), hash)
            && out[p + 1] == ToolMsg(Parts(names, Results(ts[j].body.blocks)))
  {
    var m, t := CallingChat(ts[j - 1]), Before(system, ts, j - 1, hash);
    ResultsFollowCalls(system, ts, j, hash);
    TwoAfter(Flush(t).out, Spoken(m, hash), ToolMsg(Parts(NamesAfter(t.names, m, hash), Results(ts[j].body.blocks))),
             ToCursor(AnthropicToChat(system, ts), hash));
    p := |Flush(t).out|;
  }

  lemma CallingSpeaks(t: Turn, hash: string -> string)
    requires Calling(t)
    ensures Speaks(Spoken(CallingChat(t), hash), Join(Bits(t.body.blocks)), Uses(t.body.blocks), hash)
  {
  }

  /** Put together: in a well-formed history the i-th result of an answering turn is the i-th part of the
      TOOL message right after the ASSISTANT message with the text and the calls of the turn it answers. It
      has the id of the call it answers, and the call's name unless that id is empty. */
  lemma AnswerCarriesName(system: string, ts: seq<Turn>, j: nat, i: nat, k: nat, hash: string -> string)
    returns (p: nat)
    requires WellFormed(ts) && 0 < j < |ts| && Answering(ts[j]) && Calling(ts[j - 1])
    requires i < |Results(ts[j].body.blocks)| && forall n :: hash(n) != ""
    requires Answers(Results(ts[j].body.blocks)[i], Uses(ts[j - 1].body.blocks), k, hash)
    ensures var out := ToCursor(AnthropicToChat(system, ts), hash);
            var call, rs := Uses(ts[j - 1].body.blocks)[k], Results(ts[j].body.blocks);
            && p + 1 < |out| && out[p + 1].ToolMsg?
            && Speaks(out[p], Join(Bits(ts[j - 1].body.blocks)), Uses(ts[j - 1].body.blocks), hash)
            && |out[p + 1].parts| == |rs|
            && out[p + 1].parts[i] == Part(call.id, if call.id == "" then "" else call.name, rs[i].text)
  {
    p := AnswerPlaced(system, ts, j, hash);
    CallingSpeaks(ts[j - 1], hash);
    NoEmptyName(AnthropicToChat(system, ts[..j - 1]), hash);
    PartsNamed(Before(system, ts, j - 1, hash), CallingChat(ts[j - 1]), Results(ts[j].body.blocks), i, k, hash);
  }

  /** So a history whose call has a name and no id loses that name: exactly the empty id does it. */
  lemma EmptyIdLosesTheName(system: string, ts: seq<Turn>, j: nat, i: nat, k: nat, hash: string -> string)
    requires WellFormed(ts) && 0 < j < |ts| && Answering(ts[j]) && Calling(ts[j - 1])
    requires i < |Results(ts[j].body.blocks)| && forall n :: hash(n) != ""
    requires Answers(Results(ts[j].body.blocks)[i], Uses(ts[j - 1].body.blocks), k, hash)
    requires Uses(ts[j - 1].body.blocks)[k].name != ""
    ensures var out := ToCursor(AnthropicToChat(system, ts), hash); var call := Uses(ts[j - 1].body.blocks)[k];
            exists p :: && 0 <= p < |out| - 1
                        && Speaks(out[p], Join(Bits(ts[j - 1].body.blocks)), Uses(ts[j - 1].body.blocks), hash)
                        && out[p + 1].ToolMsg? && i < |out[p + 1].parts|
                        && (out[p + 1].parts[i].toolName == call.name <==> call.id != "")
                        && (out[p + 1].parts[i].toolName == "" <==> call.id == "")
  {
    var p := AnswerCarriesName(system, ts, j, i, k, hash);
  }

  // ---- what the messages say ----

  /** An ASSISTANT message with this text and exactly these calls: in order, with their names and
      arguments, and with their ids where they have one. The text is left out only beside calls. */
  ghost predicate Speaks(c: Cursor, text: string, calls: seq<Call>, hash: string -> string) {
    && c.AssistantMsg?
    && c.said == (if text == "" && calls != [] then None else Some(text))
    && |c.calls| == |calls|
    && forall k :: 0 <= k < |calls| ==>
         && c.calls[k].name == calls[k].name && c.calls[k].args == calls[k].args
         && c.calls[k].id == if calls[k].id != "" then calls[k].id else hash(calls[k].name)
  }

  /** A SYSTEM message for the system's roles, a USER message for any other. */
  ghost predicate Says(c: Cursor, role: string, text: string, images: seq<string>) {
    if role == "system" || role == "developer" then c.SystemMsg? && c.text == text
    else if images == [] then c.UserMsg? && c.text == text
    else c.UserParts? && c.text == text && c.images == images
  }

  ghost predicate Renders(c: Cursor, m: Chat, hash: string -> string) {
    if m.role == "assistant" then Speaks(c, m.text, m.calls, hash) else Says(c, m.role, m.text, m.images)
  }

  /** An item that shows a Chat message: what it said, or a tool result with its id and text. */
  ghost predicate Shows(item: Item, m: Chat, hash: string -> string) {
    if IsTool(m) then
      && item.Result? && item.part.callId == m.callId && item.part.result == m.text
      && (m.name.Some? ==> item.part.toolName == m.name.value)
    else item.Other? && Renders(item.msg, m, hash)
  }

  lemma SpokenRenders(m: Chat, hash: string -> string)
    requires !IsTool(m)
    ensures Renders(Spoken(m, hash), m, hash)
  {
  }

  lemma {:induction false} OneByOneAt(ms: seq<Chat>, hash: string -> string, i: nat)
    requires i < |ms|
    ensures Shows(OneByOne(ms, hash)[i], ms[i], hash)
  {
    if i < |ms| - 1 {
      OneByOneAt(ms[..|ms| - 1], hash, i);
    } else if !IsTool(ms[i]) {
      SpokenRenders(ms[i], hash);
    }
  }

  /** Item `n` of the translation shows `m`. */
  ghost predicate ItemShows(ms: seq<Chat>, n: nat, m: Chat, hash: string -> string) {
    var items := Expand(ToCursor(ms, hash)); n < |items| && Shows(items[n], m, hash)
  }

  /** Every Chat message arrives in its place, and nothing else does. */
  lemma EveryMessageArrives(ms: seq<Chat>, hash: string -> string, i: nat)
    requires i < |ms|
    ensures |Expand(ToCursor(ms, hash))| == |ms| && ItemShows(ms, i, ms[i], hash)
  {
    ExpandRestoresOrder(ms, hash);
    OneByOneAt(ms, hash, i);
  }

  // ---- what a turn says ----

  lemma {:induction false} BitsFallApart(a: seq<Block>, b: seq<Block>)
    ensures Bits(a + b) == Bits(a) + Bits(b)
  {
    if b == [] {
      assert a + b == a;
    } else {
      BitsFallApart(a, b[..|b| - 1]);
      assert (a + b)[..|a + b| - 1] == a + b[..|b| - 1];
    }
  }

  lemma {:induction false} UsesFallApart(a: seq<Block>, b: seq<Block>)
    ensures Uses(a + b) == Uses(a) + Uses(b)
  {
    if b == [] {
      assert a + b == a;
    } else {
      UsesFallApart(a, b[..|b| - 1]);
      assert (a + b)[..|a + b| - 1] == a + b[..|b| - 1];
    }
  }

  lemma {:induction false} ResultsFallApart(a: seq<Block>, b: seq<Block>)
    ensures Results(a + b) == Results(a) + Results(b)
  {
    if b == [] {
      assert a + b == a;
    } else {
      ResultsFallApart(a, b[..|b| - 1]);
      assert (a + b)[..|a + b| - 1] == a + b[..|b| - 1];
    }
  }

  /** Blocks fall apart into texts, calls and results independently of each other and in order. */
  lemma BlocksFallApart(a: seq<Block>, b: Block, c: seq<Block>)
    ensures Bits(a + [b] + c) == Bits(a) + (if b.TextBlock? then [b.text] else []) + Bits(c)
    ensures Uses(a + [b] + c) == Uses(a) + (if b.ToolUse? then [b.call] else []) + Uses(c)
    ensures Results(a + [b] + c) ==
            Results(a) + (if b.ToolResult? then [Chat("tool", b.text, [], [], b.callId, None)] else []) + Results(c)
  {
    BitsFallApart(a, [b]);
    BitsFallApart(a + [b], c);
    UsesFallApart(a, [b]);
    UsesFallApart(a + [b], c);
    ResultsFallApart(a, [b]);
    ResultsFallApart(a + [b], c);
    OneBlock(b);
  }

  lemma OneBlock(b: Block)
    ensures Bits([b]) == if b.TextBlock? then [b.text] else []
    ensures Uses([b]) == if b.ToolUse? then [b.call] else []
    ensures Results([b]) == if b.ToolResult? then [Chat("tool", b.text, [], [], b.callId, None)] else []
  {
    assert [b][..0] == [];
  }

  /** Texts are joined by line breaks. */
  lemma {:induction false} JoinFallsApart(a: seq<string>, b: seq<string>)
    requires a != [] && b != []
    ensures Join(a + b) == Join(a) + "\n" + Join(b)
  {
    assert (a + b)[..|a + b| - 1] == a + b[..|b| - 1];
    if |b| == 1 {
      assert a + b[..0] == a;
    } else {
      JoinFallsApart(a, b[..|b| - 1]);
    }
  }

  lemma TurnPlaced(system: string, ts: seq<Turn>, j: nat)
    requires j < |ts|
    ensures var n, ms := |AnthropicToChat(system, ts[..j])|, AnthropicToChat(system, ts);
            n + |ChatOf(ts[j])| <= |ms| && ms[n..n + |ChatOf(ts[j])|] == ChatOf(ts[j])
  {
    var first := if system == "" then [] else [Say("system", system)];
    assert ts == ts[..j] + ts[j..];
    FlatMapConcat(ts[..j], ts[j..], ChatOf);
    FlatMapHead(ts[j..], ChatOf);
    var pre, mid, post := first + ChatsOf(ts[..j]), ChatOf(ts[j]), ChatsOf(ts[j..][1..]);
    assert AnthropicToChat(system, ts) == pre + (mid + post);
    Placed(pre, mid, post);
  }

  lemma Placed<T>(pre: seq<T>, mid: seq<T>, post: seq<T>)
    ensures (pre + (mid + post))[|pre|..|pre| + |mid|] == mid
  {
  }

  /** The item a history's turn `j` starts at. */
  function StartOf(system: string, ts: seq<Turn>, j: nat): nat
    requires j <= |ts|
  {
    |AnthropicToChat(system, ts[..j])|
  }

  /** The i-th item of turn `j`. */
  ghost predicate TurnShows(system: string, ts: seq<Turn>, j: nat, i: nat, m: Chat, hash: string -> string)
    requires j < |ts|
  {
    ItemShows(AnthropicToChat(system, ts), StartOf(system, ts, j) + i, m, hash)
  }

  lemma Picked<T>(s: seq<T>, n: nat, mid: seq<T>, i: nat)
    requires n + |mid| <= |s| && s[n..n + |mid|] == mid && i < |mid|
    ensures s[n + i] == mid[i]
  {
    assert s[n..n + |mid|][i] == s[n + i];
  }

  lemma MessagePlaced(system: string, ts: seq<Turn>, j: nat, i: nat, n: nat)
    requires j < |ts| && i < |ChatOf(ts[j])| && n == StartOf(system, ts, j) + i
    ensures n < |AnthropicToChat(system, ts)| && AnthropicToChat(system, ts)[n] == ChatOf(ts[j])[i]
  {
    TurnPlaced(system, ts, j);
    Picked(AnthropicToChat(system, ts), StartOf(system, ts, j), ChatOf(ts[j]), i);
  }

  lemma ItemOf(ms: seq<Chat>, n: nat, m: Chat, hash: string -> string)
    requires n < |ms| && ms[n] == m
    ensures ItemShows(ms, n, m, hash)
  {
    EveryMessageArrives(ms, hash, n);
  }

  lemma TurnItem(system: string, ts: seq<Turn>, j: nat, i: nat, hash: string -> string)
    requires j < |ts| && i < |ChatOf(ts[j])|
    ensures TurnShows(system, ts, j, i, ChatOf(ts[j])[i], hash)
  {
    var n := StartOf(system, ts, j) + i;
    MessagePlaced(system, ts, j, i, n);
    ItemOf(AnthropicToChat(system, ts), n, ChatOf(ts[j])[i], hash);
  }

  /** A system prompt becomes the first message, a SYSTEM message with its text. */
  lemma SystemArrives(system: string, ts: seq<Turn>, hash: string -> string)
    requires system != ""
    ensures var items := Expand(ToCursor(AnthropicToChat(system, ts), hash));
            |items| > 0 && items[0] == Other(SystemMsg(system))
  {
    EveryMessageArrives(AnthropicToChat(system, ts), hash, 0);
  }

  /** A turn of plain text arrives as one message of its role with that text and no calls; a turn without
      content arrives empty. */
  lemma PlainTurnArrives(system: string, ts: seq<Turn>, j: nat, hash: string -> string)
    requires j < |ts| && !ts[j].body.Blocks? && ts[j].role != "tool"
    ensures TurnShows(system, ts, j, 0, Say(ts[j].role, if ts[j].body.Plain? then ts[j].body.text else ""), hash)
  {
    TurnItem(system, ts, j, 0, hash);
  }

  /** An assistant turn with calls arrives as one ASSISTANT message: its texts joined, and exactly its calls. */
  lemma CallsArrive(system: string, ts: seq<Turn>, j: nat, hash: string -> string)
    requires j < |ts| && Calling(ts[j])
    ensures var items, n := Expand(ToCursor(AnthropicToChat(system, ts), hash)), StartOf(system, ts, j);
            && n < |items| && items[n].Other?
            && Speaks(items[n].msg, Join(Bits(ts[j].body.blocks)), Uses(ts[j].body.blocks), hash)
  {
    TurnItem(system, ts, j, 0, hash);
  }

  /** Any other turn of blocks arrives as its results, in order. */
  lemma ResultsArrive(system: string, ts: seq<Turn>, j: nat, i: nat, hash: string -> string)
    requires j < |ts| && ts[j].body.Blocks? && !Calling(ts[j]) && i < |Results(ts[j].body.blocks)|
    ensures TurnShows(system, ts, j, i, Results(ts[j].body.blocks)[i], hash)
  {
    TurnItem(system, ts, j, i, hash);
  }

  /** And then, if it has any text, as one message of its role with its texts joined. */
  lemma TextArrives(system: string, ts: seq<Turn>, j: nat, hash: string -> string)
    requires j < |ts| && ts[j].body.Blocks? && !Calling(ts[j]) && Bits(ts[j].body.blocks) != []
    ensures TurnShows(system, ts, j, |Results(ts[j].body.blocks)|, Say(ts[j].role, Join(Bits(ts[j].body.blocks))), hash)
  {
    TurnItem(system, ts, j, |Results(ts[j].body.blocks)|, hash);
  }
}
