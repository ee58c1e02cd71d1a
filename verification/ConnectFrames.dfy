/** Connect frames: `[flags:1][length:4 big-endian][payload]`, printed by `connect_envelope` and
    decoded incrementally by `FrameStream`. Gzip and JSON are parameters. */
module ConnectFrames {
  import opened Common

  type byte = x: int | 0 <= x < 256

  const MAX_FRAME_BYTES := 16 * 1024 * 1024
  const MAX_STREAM_BUF := MAX_FRAME_BYTES + 64 * 1024

  /** The two decoders the stream calls out to. */
  datatype Codec<!V> = Codec(gunzip: seq<byte> -> Result<seq<byte>>, json: seq<byte> -> Result<V>)

  datatype Fault =
    | TooLong(size: nat)
    | BadGzip(message: string)
    | BadJson(message: string)
    | BufferFull(have: nat, chunk: nat)
    | Partial
    | Network(message: string)

  datatype Poll<+V> = Item(value: V) | Failed(fault: Fault) | End | Pending

  /** What the transport hands over when asked for more; a used-up body has ended cleanly. */
  datatype Event = Chunk(data: seq<byte>) | Broken(message: string) | Wait

  // ---- printing ----

  function Be32(n: nat): (b: seq<byte>)
    ensures |b| == 4
  {
    [n / 0x100_0000 % 256, n / 0x1_0000 % 256, n / 0x100 % 256, n % 256]
  }

  function FromBe32(b: seq<byte>): (n: nat)
    requires |b| == 4
  {
    (b[0] as int) * 0x100_0000 + (b[1] as int) * 0x1_0000 + (b[2] as int) * 0x100 + b[3] as int
  }

  /** The length field is the payload length cut to 32 bits. */
  function Envelope(payload: seq<byte>, flags: byte): (out: seq<byte>)
    ensures |out| == 5 + |payload|
  {
    [flags] + Be32(|payload| % 0x1_0000_0000) + payload
  }

  lemma Be32RoundTrip(n: nat)
    requires n < 0x1_0000_0000
    ensures FromBe32(Be32(n)) == n
  {
    var a, b, c := n / 0x100_0000, n / 0x1_0000, n / 0x100;
    assert c == n / 256 && b == c / 256 && a == b / 256;
  }

  // ---- reading one frame ----

  datatype Outcome<+V> = Value(value: V) | Bad(fault: Fault) | Stop | Skip

  datatype Head<+V> = Short | Long(size: nat) | Whole(size: nat, outcome: Outcome<V>)

  function Interpret<V>(c: Codec<V>, flags: byte, payload: seq<byte>): (o: Outcome<V>) {
    var plain := if flags % 2 == 1 then c.gunzip(payload) else Ok(payload);
    match plain
    case Err(e) => Bad(BadGzip(e))
    case Ok(p) =>
      if p != [] then
        match c.json(p)
        case Ok(v) => Value(v)
        case Err(e) => Bad(BadJson(e))
      else if flags / 2 % 2 == 1 then Stop
      else Skip
  }

  function ReadHead<V>(c: Codec<V>, buf: seq<byte>): (h: Head<V>)
    ensures h.Whole? ==> 5 <= h.size <= |buf|
    ensures h.Short? ==> |buf| < 5 + MAX_FRAME_BYTES
  {
    if |buf| < 5 then Short
    else
      var n := FromBe32(buf[1..5]);
      if n > MAX_FRAME_BYTES then Long(n)
      else if |buf| < 5 + n then Short
      else Whole(5 + n, Interpret(c, buf[0], buf[5..5 + n]))
  }

  // ---- the stream ----

  datatype Polled<+V> = Polled(result: Poll<V>, buf: seq<byte>, body: seq<Event>)

  /** One `poll_next`: drain the buffer first, read more only when no whole frame is there. */
  function PollOnce<V>(c: Codec<V>, buf: seq<byte>, body: seq<Event>): (p: Polled<V>)
    ensures !Terminal(p.result) ==>
              |p.body| < |body| || (|p.body| == |body| && |p.buf| < |buf|)
    decreases |body|, |buf|
  {
    match ReadHead(c, buf)
    case Long(n) => Polled(Failed(TooLong(n)), buf, body)
    case Whole(size, o) => (
      match o
      case Value(v) => Polled(Item(v), buf[size..], body)
      case Bad(f) => Polled(Failed(f), buf[size..], body)
      case Stop => Polled(End, buf[size..], body)
      case Skip => PollOnce(c, buf[size..], body))
    case Short =>
      if body == [] then Polled(if buf == [] then End else Failed(Partial), buf, body)
      else
        match body[0]
        case Wait => Polled(Pending, buf, body[1..])
        case Broken(m) => Polled(Failed(Network(m)), buf, body[1..])
        case Chunk(d) =>
          if |buf| + |d| > MAX_STREAM_BUF then Polled(Failed(BufferFull(|buf|, |d|)), buf, body[1..])
          else PollOnce(c, buf + d, body[1..])
  }

  /** Nothing more can be decoded after these. A bad payload is not among them: its frame is consumed. */
  predicate Terminal<V>(p: Poll<V>) {
    match p
    case End => true
    case Failed(f) => !f.BadGzip? && !f.BadJson?
    case _ => false
  }

  class FrameStream<V> {
    const codec: Codec<V>
    var buf: seq<byte>
    var body: seq<Event>

    constructor (codec: Codec<V>, body: seq<Event>)
      ensures this.codec == codec && buf == [] && this.body == body
    {
      this.codec := codec;
      this.buf := [];
      this.body := body;
    }

    method PollNext() returns (r: Poll<V>)
      modifies this
      ensures Polled(r, buf, body) == PollOnce(codec, old(buf), old(body))
    {
      while true
        invariant PollOnce(codec, buf, body) == PollOnce(codec, old(buf), old(body))
        decreases |body|, |buf|
      {
        match ReadHead(codec, buf)
        case Long(n) =>
          return Failed(TooLong(n));
        case Whole(size, o) =>
          buf := buf[size..];
          match o {
            case Value(v) => return Item(v);
            case Bad(f) => return Failed(f);
            case Stop => return End;
            case Skip =>
          }
        case Short =>
          if body == [] {
            return if buf == [] then End else Failed(Partial);
          }
          var event := body[0];
          body := body[1..];
          match event {
            case Wait => return Pending;
            case Broken(m) => return Failed(Network(m));
            case Chunk(d) =>
              if |buf| + |d| > MAX_STREAM_BUF {
                return Failed(BufferFull(|buf|, |d|));
              }
              buf := buf + d;
          }
      }
    }
  }

  /** Everything a consumer sees by polling until nothing more can come. */
  function Run<V>(c: Codec<V>, buf: seq<byte>, body: seq<Event>): (out: seq<Poll<V>>)
    decreases |body|, |buf|
  {
    var p := PollOnce(c, buf, body);
    if Terminal(p.result) then [p.result]
    else if p.result.Pending? then Run(c, p.buf, p.body)
    else [p.result] + Run(c, p.buf, p.body)
  }

  // ---- the reference: decode one byte string, no buffering ----

  /** `cut` is the transport error that ended the bytes, `None` a clean end. */
  function Decode<V>(c: Codec<V>, bytes: seq<byte>, cut: Option<string>): (out: seq<Poll<V>>)
    decreases |bytes|
  {
    match ReadHead(c, bytes)
    case Long(n) => [Failed(TooLong(n))]
    case Whole(size, o) => (
      match o
      case Value(v) => [Item(v)] + Decode(c, bytes[size..], cut)
      case Bad(f) => [Failed(f)] + Decode(c, bytes[size..], cut)
      case Stop => [End]
      case Skip => Decode(c, bytes[size..], cut))
    case Short =>
      if cut.Some? then [Failed(Network(cut.value))]
      else if bytes == [] then [End]
      else [Failed(Partial)]
  }

  function BytesOf(body: seq<Event>): (b: seq<byte>) {
    if body == [] || body[0].Broken? then []
    else (if body[0].Chunk? then body[0].data else []) + BytesOf(body[1..])
  }

  function CutOf(body: seq<Event>): (cut: Option<string>) {
    if body == [] then None
    else if body[0].Broken? then Some(body[0].message)
    else CutOf(body[1..])
  }

  /** The largest chunk for which a full frame in progress still leaves room. */
  const SAFE_CHUNK := MAX_STREAM_BUF - MAX_FRAME_BYTES - 4

  ghost predicate SafeChunks(body: seq<Event>) {
    forall e :: e in body && e.Chunk? ==> |e.data| <= SAFE_CHUNK
  }

  lemma HeadStable<V>(c: Codec<V>, buf: seq<byte>, more: seq<byte>)
    requires !ReadHead(c, buf).Short?
    ensures ReadHead(c, buf + more) == ReadHead(c, buf)
  {
    assert (buf + more)[1..5] == buf[1..5];
    var n := FromBe32(buf[1..5]);
    if n <= MAX_FRAME_BYTES {
      assert (buf + more)[5..5 + n] == buf[5..5 + n];
    }
  }

  /** What a consumer still has to see once a poll has answered. */
  function Onward<V>(c: Codec<V>, p: Polled<V>): (out: seq<Poll<V>>) {
    if Terminal(p.result) then [p.result]
    else if p.result.Pending? then Decode(c, p.buf + BytesOf(p.body), CutOf(p.body))
    else [p.result] + Decode(c, p.buf + BytesOf(p.body), CutOf(p.body))
  }

  ghost predicate Agrees<V>(c: Codec<V>, buf: seq<byte>, body: seq<Event>) {
    var p := PollOnce(c, buf, body);
    && SafeChunks(p.body)
    && !(p.result.Failed? && p.result.fault.BufferFull?)
    && Decode(c, buf + BytesOf(body), CutOf(body)) == Onward(c, p)
  }

  lemma AgreesOnFrame<V>(c: Codec<V>, buf: seq<byte>, body: seq<Event>)
    requires SafeChunks(body) && !ReadHead(c, buf).Short?
    requires ReadHead(c, buf).Whole? && ReadHead(c, buf).outcome.Skip? ==>
               Agrees(c, buf[ReadHead(c, buf).size..], body)
    ensures Agrees(c, buf, body)
  {
    var more, h := BytesOf(body), ReadHead(c, buf);
    HeadStable(c, buf, more);
    if h.Whole? {
      assert (buf + more)[h.size..] == buf[h.size..] + more;
      InterpretFaults(c, buf[0], buf[5..h.size]);
    }
  }

  lemma InterpretFaults<V>(c: Codec<V>, flags: byte, payload: seq<byte>)
    ensures var o := Interpret(c, flags, payload); o.Bad? ==> o.fault.BadGzip? || o.fault.BadJson?
  {
  }

  lemma AgreesOnChunk<V>(c: Codec<V>, buf: seq<byte>, d: seq<byte>, rest: seq<Event>)
    requires ReadHead(c, buf).Short? && |d| <= SAFE_CHUNK && Agrees(c, buf + d, rest)
    ensures Agrees(c, buf, [Chunk(d)] + rest)
  {
    var body := [Chunk(d)] + rest;
    assert body[1..] == rest;
    Assoc(buf, d, BytesOf(rest));
  }

  lemma AgreesOnOther<V>(c: Codec<V>, buf: seq<byte>, e: Event, rest: seq<Event>)
    requires ReadHead(c, buf).Short? && !e.Chunk? && SafeChunks(rest)
    ensures Agrees(c, buf, [e] + rest)
  {
    var body := [e] + rest;
    assert body[1..] == rest;
    assert BytesOf(body) == if e.Broken? then [] else [] + BytesOf(rest);
    assert buf + [] == buf && [] + BytesOf(rest) == BytesOf(rest);
  }

  /** One poll does to the remaining bytes exactly what the reference does. */
  lemma {:induction false} PollAgrees<V>(c: Codec<V>, buf: seq<byte>, body: seq<Event>)
    requires SafeChunks(body)
    ensures Agrees(c, buf, body)
    decreases |body|, |buf|
  {
    var h := ReadHead(c, buf);
    if !h.Short? {
      if h.Whole? && h.outcome.Skip? {
        PollAgrees(c, buf[h.size..], body);
      }
      AgreesOnFrame(c, buf, body);
    } else if body == [] {
      assert buf + BytesOf(body) == buf;
    } else {
      assert body == [body[0]] + body[1..] && body[0] in body;
      if body[0].Chunk? {
        PollAgrees(c, buf + body[0].data, body[1..]);
        AgreesOnChunk(c, buf, body[0].data, body[1..]);
      } else {
        AgreesOnOther(c, buf, body[0], body[1..]);
      }
    }
  }

  /** Chunk boundaries and waits do not matter: polling decodes the concatenated bytes, and the
      buffer limit never strikes, whenever no chunk is longer than 65,532 bytes. */
  lemma {:induction false} ChunkingIsInvisible<V>(c: Codec<V>, buf: seq<byte>, body: seq<Event>)
    requires SafeChunks(body)
    ensures Run(c, buf, body) == Decode(c, buf + BytesOf(body), CutOf(body))
    ensures forall r :: r in Run(c, buf, body) ==> !(r.Failed? && r.fault.BufferFull?)
    decreases |body|, |buf|
  {
    PollAgrees(c, buf, body);
    var p := PollOnce(c, buf, body);
    if !Terminal(p.result) {
      ChunkingIsInvisible(c, p.buf, p.body);
    }
  }

  lemma SameBytesSameItems<V>(c: Codec<V>, one: seq<Event>, two: seq<Event>)
    requires SafeChunks(one) && SafeChunks(two)
    requires BytesOf(one) == BytesOf(two) && CutOf(one) == CutOf(two)
    ensures Run(c, [], one) == Run(c, [], two)
  {
    ChunkingIsInvisible(c, [], one);
    ChunkingIsInvisible(c, [], two);
  }

  lemma ChunkOverflows<V>(c: Codec<V>, buf: seq<byte>, chunk: seq<byte>)
    requires ReadHead(c, buf).Short? && |buf| + |chunk| > MAX_STREAM_BUF
    ensures PollOnce(c, buf, [Chunk(chunk)]).result == Failed(BufferFull(|buf|, |chunk|))
  {
  }

  ghost predicate OnlyChunks(body: seq<Event>) {
    forall e :: e in body ==> e.Chunk?
  }

  lemma CollectsOne<V>(c: Codec<V>, buf: seq<byte>, body: seq<Event>)
    requires body != [] && body[0].Chunk? && ReadHead(c, buf).Short? && |buf| + |body[0].data| <= MAX_STREAM_BUF
    ensures PollOnce(c, buf, body) == PollOnce(c, buf + body[0].data, body[1..])
  {
  }

  /** While no frame is complete a poll only collects chunks. */
  lemma {:induction false} Collects<V>(c: Codec<V>, buf: seq<byte>, body: seq<Event>, rest: seq<Event>)
    requires OnlyChunks(body) && ReadHead(c, buf + BytesOf(body)).Short?
    requires |buf| + |BytesOf(body)| <= MAX_STREAM_BUF
    ensures PollOnce(c, buf, body + rest) == PollOnce(c, buf + BytesOf(body), rest)
    decreases |body|
  {
    if body == [] {
      assert body + rest == rest && buf + [] == buf;
    } else {
      assert body == [body[0]] + body[1..] && body[0] in body;
      var d, more := body[0].data, BytesOf(body[1..]);
      assert buf + (d + more) == (buf + d) + more;
      if !ReadHead(c, buf).Short? {
        HeadStable(c, buf, d + more);
      }
      assert (body + rest)[1..] == body[1..] + rest;
      CollectsOne(c, buf, body + rest);
      Collects(c, buf + d, body[1..], rest);
    }
  }

  /** The bytes in chunks of one. */
  function Bytewise(bytes: seq<byte>): (body: seq<Event>)
    ensures OnlyChunks(body) && SafeChunks(body) && BytesOf(body) == bytes
  {
    if bytes == [] then []
    else
      assert bytes == [bytes[0]] + bytes[1..];
      [Chunk([bytes[0]])] + Bytewise(bytes[1..])
  }

  /** A frame of the largest size, one byte short of complete. */
  lemma AlmostWhole<V>(c: Codec<V>) returns (head: seq<byte>)
    ensures |head| == MAX_FRAME_BYTES + 4 && ReadHead(c, head).Short?
  {
    head := [0, 1, 0, 0, 0] + seq(MAX_FRAME_BYTES - 1, _ => 0);
    assert head[1..5] == [1, 0, 0, 0];
  }

  lemma RunStops<V>(c: Codec<V>, buf: seq<byte>, body: seq<Event>)
    requires Terminal(PollOnce(c, buf, body).result)
    ensures Run(c, buf, body) == [PollOnce(c, buf, body).result]
  {
  }

  /** 65,532 is exact: for every longer chunk there is a stream of safe chunks that it makes fail. */
  lemma LongerChunksFail<V>(c: Codec<V>, chunk: seq<byte>)
    requires |chunk| > SAFE_CHUNK
    ensures exists body :: SafeChunks(body) &&
              Run(c, [], body + [Chunk(chunk)]) == [Failed(BufferFull(MAX_FRAME_BYTES + 4, |chunk|))]
  {
    var head := AlmostWhole(c);
    var body := Bytewise(head);
    assert [] + head == head;
    Collects(c, [], body, [Chunk(chunk)]);
    ChunkOverflows(c, head, chunk);
    RunStops(c, [], body + [Chunk(chunk)]);
  }

  // ---- round trip ----

  /** A frame as it is sent: the bytes it carries, whether they are compressed, whether it is the last. */
  datatype Frame = Frame(data: seq<byte>, packed: bool, last: bool)

  function Flags(f: Frame): byte {
    (if f.packed then 1 else 0) + (if f.last then 2 else 0)
  }

  /** What it holds, or why it cannot be unpacked. */
  function Content<V>(c: Codec<V>, f: Frame): (r: Result<seq<byte>>) {
    if f.packed then c.gunzip(f.data) else Ok(f.data)
  }

  function Wire(frames: seq<Frame>): (b: seq<byte>) {
    if frames == [] then [] else Envelope(frames[0].data, Flags(frames[0])) + Wire(frames[1..])
  }

  /** What one payload turns into. */
  function Delivered<V>(c: Codec<V>, payload: seq<byte>): (r: Poll<V>) {
    match c.json(payload)
    case Ok(v) => Item(v)
    case Err(e) => Failed(BadJson(e))
  }

  /** What frames mean before `rest`: every non-empty content in order, an error for each corrupt one; an
      empty last frame ends the stream, other empty ones vanish. */
  function Meant<V>(c: Codec<V>, frames: seq<Frame>, rest: seq<Poll<V>>): (out: seq<Poll<V>>) {
    if frames == [] then rest
    else
      match Content(c, frames[0])
      case Err(e) => [Failed(BadGzip(e))] + Meant(c, frames[1..], rest)
      case Ok(p) =>
        if p != [] then [Delivered(c, p)] + Meant(c, frames[1..], rest)
        else if frames[0].last then [End]
        else Meant(c, frames[1..], rest)
  }

  ghost predicate Sendable(frames: seq<Frame>) {
    forall i :: 0 <= i < |frames| ==> |frames[i].data| <= MAX_FRAME_BYTES
  }

  lemma Middle(first: byte, field: seq<byte>, rest: seq<byte>)
    ensures var buf := [first] + field + rest; buf[0] == first && buf[1..1 + |field|] == field
  {
    assert ([first] + field)[1..] == field;
    assert ([first] + field + rest)[..1 + |field|] == [first] + field;
  }

  lemma EnvelopeShape(payload: seq<byte>, flags: byte, rest: seq<byte>, size: seq<byte>)
    requires |payload| <= MAX_FRAME_BYTES && size == Be32(|payload|)
    ensures Envelope(payload, flags) + rest == [flags] + size + (payload + rest)
  {
    assert Envelope(payload, flags) == [flags] + size + payload;
  }

  lemma EnvelopeHead(payload: seq<byte>, flags: byte, rest: seq<byte>)
    requires |payload| <= MAX_FRAME_BYTES
    ensures var buf := Envelope(payload, flags) + rest; buf[0] == flags && buf[1..5] == Be32(|payload|)
  {
    EnvelopeShape(payload, flags, rest, Be32(|payload|));
    Middle(flags, Be32(|payload|), payload + rest);
  }

  lemma EnvelopeParts(payload: seq<byte>, flags: byte, rest: seq<byte>)
    ensures var buf := Envelope(payload, flags) + rest; var end := 5 + |payload|;
            buf[5..end] == payload && buf[end..] == rest
  {
    var head := [flags] + Be32(|payload| % 0x1_0000_0000);
    assert |head| == 5;
    assert Envelope(payload, flags) + rest == head + payload + rest;
  }

  lemma ReadEnvelope<V>(c: Codec<V>, payload: seq<byte>, flags: byte, rest: seq<byte>)
    requires |payload| <= MAX_FRAME_BYTES
    ensures ReadHead(c, Envelope(payload, flags) + rest) == Whole(5 + |payload|, Interpret(c, flags, payload))
  {
    Be32RoundTrip(|payload|);
    EnvelopeHead(payload, flags, rest);
    EnvelopeParts(payload, flags, rest);
  }

  lemma InterpretFrame<V>(c: Codec<V>, f: Frame)
    ensures var o := Interpret(c, Flags(f), f.data);
            if Content(c, f).Err? then o == Bad(BadGzip(Content(c, f).message))
            else if Content(c, f).value == [] then o == if f.last then Stop else Skip
            else if Delivered(c, Content(c, f).value).Item? then o == Value(Delivered(c, Content(c, f).value).value)
            else Delivered(c, Content(c, f).value).Failed? && o == Bad(Delivered(c, Content(c, f).value).fault)
  {
  }

  /** One whole frame at the head of the bytes. */
  lemma DecodeWhole<V>(c: Codec<V>, bytes: seq<byte>, size: nat, o: Outcome<V>, cut: Option<string>)
    requires ReadHead(c, bytes) == Whole(size, o)
    ensures Decode(c, bytes, cut) ==
            if o.Value? then [Item(o.value)] + Decode(c, bytes[size..], cut)
            else if o.Bad? then [Failed(o.fault)] + Decode(c, bytes[size..], cut)
            else if o.Stop? then [End]
            else Decode(c, bytes[size..], cut)
  {
  }

  lemma DecodeFrame<V>(c: Codec<V>, f: Frame, rest: seq<byte>, cut: Option<string>)
    requires |f.data| <= MAX_FRAME_BYTES
    ensures Decode(c, Envelope(f.data, Flags(f)) + rest, cut) == Meant(c, [f], Decode(c, rest, cut))
  {
    ReadEnvelope(c, f.data, Flags(f), rest);
    EnvelopeParts(f.data, Flags(f), rest);
    InterpretFrame(c, f);
    DecodeWhole(c, Envelope(f.data, Flags(f)) + rest, 5 + |f.data|, Interpret(c, Flags(f), f.data), cut);
    MeantOne(c, f, Decode(c, rest, cut));
  }

  lemma MeantOne<V>(c: Codec<V>, f: Frame, rest: seq<Poll<V>>)
    ensures Meant(c, [f], rest) ==
            if Content(c, f).Err? then [Failed(BadGzip(Content(c, f).message))] + rest
            else if Content(c, f).value != [] then [Delivered(c, Content(c, f).value)] + rest
            else if f.last then [End]
            else rest
  {
    assert [f][1..] == [];
  }

  lemma MeantStep<V>(c: Codec<V>, frames: seq<Frame>, rest: seq<Poll<V>>)
    requires frames != []
    ensures Meant(c, frames, rest) == Meant(c, [frames[0]], Meant(c, frames[1..], rest))
  {
    MeantOne(c, frames[0], Meant(c, frames[1..], rest));
  }

  /** Frames are decoded one by one, whatever follows them. */
  lemma {:induction false} DecodeWire<V>(c: Codec<V>, frames: seq<Frame>, rest: seq<byte>, cut: Option<string>)
    requires Sendable(frames)
    ensures Decode(c, Wire(frames) + rest, cut) == Meant(c, frames, Decode(c, rest, cut))
  {
    if frames == [] {
      assert [] + rest == rest;
    } else {
      var f, more := frames[0], Wire(frames[1..]);
      Assoc(Envelope(f.data, Flags(f)), more, rest);
      DecodeFrame(c, f, more + rest, cut);
      DecodeWire(c, frames[1..], rest, cut);
      MeantStep(c, frames, Decode(c, rest, cut));
    }
  }

  /** Printed envelopes, compressed or not, corrupt ones among them, come back one by one and in order, however
      the bytes were chunked, and then whatever the rest of the body gives. */
  lemma BodyMeans<V>(c: Codec<V>, frames: seq<Frame>, rest: seq<byte>, body: seq<Event>)
    requires Sendable(frames) && SafeChunks(body) && BytesOf(body) == Wire(frames) + rest
    ensures Run(c, [], body) == Meant(c, frames, Decode(c, rest, CutOf(body)))
  {
    DecodeWire(c, frames, rest, CutOf(body));
    assert [] + BytesOf(body) == BytesOf(body);
    ChunkingIsInvisible(c, [], body);
  }

  /** A complete body ends with the end of the stream. */
  lemma EnvelopesRoundTrip<V>(c: Codec<V>, frames: seq<Frame>, body: seq<Event>)
    requires Sendable(frames) && SafeChunks(body) && BytesOf(body) == Wire(frames) && CutOf(body).None?
    ensures Run(c, [], body) == Meant(c, frames, [End])
  {
    assert Wire(frames) + [] == Wire(frames);
    BodyMeans(c, frames, [], body);
  }

  lemma PartOfEnvelope<V>(c: Codec<V>, f: Frame, k: nat)
    requires |f.data| <= MAX_FRAME_BYTES && k < |Envelope(f.data, Flags(f))|
    ensures ReadHead(c, Envelope(f.data, Flags(f))[..k]).Short?
  {
    var whole := Envelope(f.data, Flags(f));
    assert whole + [] == whole && whole[..k] + whole[k..] == whole;
    ReadEnvelope(c, f.data, Flags(f), []);
    if !ReadHead(c, whole[..k]).Short? {
      HeadStable(c, whole[..k], whole[k..]);
    }
  }

  /** A body that breaks off inside a frame ends in the error for a partial frame, or in the transport's own
      error if that is what ended it; every frame before it has arrived. */
  lemma TruncatedBodyFails<V>(c: Codec<V>, frames: seq<Frame>, f: Frame, k: nat, body: seq<Event>)
    requires Sendable(frames) && |f.data| <= MAX_FRAME_BYTES && 0 < k < |Envelope(f.data, Flags(f))|
    requires SafeChunks(body) && BytesOf(body) == Wire(frames) + Envelope(f.data, Flags(f))[..k]
    ensures Run(c, [], body) ==
            Meant(c, frames, [Failed(if CutOf(body).Some? then Network(CutOf(body).value) else Partial)])
  {
    PartOfEnvelope(c, f, k);
    BodyMeans(c, frames, Envelope(f.data, Flags(f))[..k], body);
  }

  lemma OversizedHead<V>(c: Codec<V>, data: seq<byte>, flags: byte)
    requires MAX_FRAME_BYTES < |data| < 0x1_0000_0000
    ensures ReadHead(c, Envelope(data, flags)) == Long(|data|)
  {
    Be32RoundTrip(|data|);
    Middle(flags, Be32(|data|), data);
  }

  /** A frame that announces more than 16 MiB ends the stream with an error that names its size. */
  lemma OversizedFrameFails<V>(c: Codec<V>, frames: seq<Frame>, data: seq<byte>, flags: byte, body: seq<Event>)
    requires Sendable(frames) && MAX_FRAME_BYTES < |data| < 0x1_0000_0000
    requires SafeChunks(body) && BytesOf(body) == Wire(frames) + Envelope(data, flags)
    ensures Run(c, [], body) == Meant(c, frames, [Failed(TooLong(|data|))])
  {
    OversizedHead(c, data, flags);
    BodyMeans(c, frames, Envelope(data, flags), body);
  }

  function Plain(payloads: seq<seq<byte>>): (frames: seq<Frame>)
    ensures |frames| == |payloads| && forall i :: 0 <= i < |payloads| ==> frames[i] == Frame(payloads[i], false, false)
  {
    if payloads == [] then [] else [Frame(payloads[0], false, false)] + Plain(payloads[1..])
  }

  lemma {:induction false} PlainMeaning<V>(c: Codec<V>, payloads: seq<seq<byte>>)
    requires forall i :: 0 <= i < |payloads| ==> payloads[i] != []
    ensures var out := Meant(c, Plain(payloads), [End]);
            && |out| == |payloads| + 1 && out[|payloads|] == End
            && forall i :: 0 <= i < |payloads| ==> out[i] == Delivered(c, payloads[i])
  {
    if payloads != [] {
      PlainMeaning(c, payloads[1..]);
      assert Plain(payloads)[1..] == Plain(payloads[1..]);
    }
  }

  /** Plain non-empty payloads up to 16 MiB, printed and sent in any safe chunks, give exactly one
      result each, in order, and then the end. */
  lemma PlainPayloadsAllArrive<V>(c: Codec<V>, payloads: seq<seq<byte>>, body: seq<Event>)
    requires forall i :: 0 <= i < |payloads| ==> 0 < |payloads[i]| <= MAX_FRAME_BYTES
    requires SafeChunks(body) && BytesOf(body) == Wire(Plain(payloads)) && CutOf(body).None?
    ensures var out := Run(c, [], body);
            && |out| == |payloads| + 1 && out[|payloads|] == End
            && forall i :: 0 <= i < |payloads| ==> out[i] == Delivered(c, payloads[i])
  {
    EnvelopesRoundTrip(c, Plain(payloads), body);
    PlainMeaning(c, payloads);
  }
}
