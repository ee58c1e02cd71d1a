/** The billing ledger: request threads count and queue records, one writer thread batches them into
    a table keyed by `req_id`, and flush requests are answered once everything before them is settled.
    Every atomic counter update and every send or receive is a step of its own. */
module LedgerWriter {
  import opened Common

  const BATCH := 500

  datatype Rec = Rec(reqId: string, row: string)

  /** A flush carries its place in the history of sends as its identity. */
  datatype Msg = Record(rec: Rec) | Flush(id: nat) | Checkpoint

  datatype Outcome = Written | Ignored | Failed

  datatype Settled = Settled(rec: Rec, outcome: Outcome)

  /** Where the writer thread is. */
  datatype Writer =
    | Collecting
    | AddWritten(rows: nat, dups: nat)
    | AddIgnored(dups: nat, n: nat)
    | AddFailed(n: nat)
    | SubPending(n: nat)
    | Acking
    | Dead

  /** `refusing` recorders found the channel closed and still count as pending; `uncounted` ones have
      left that counter and not yet reached the failed one. `sent`, `settled`, `calls` and `refused`
      record history; the rest is the program's state. */
  datatype Ledger = Ledger(
    pending: nat, written: nat, ignored: nat, failed: nat,
    sending: seq<Rec>, refusing: nat, uncounted: nat, queue: seq<Msg>,
    writer: Writer, batch: seq<Rec>, acks: seq<nat>, acked: set<nat>, table: seq<Rec>,
    sent: seq<Msg>, settled: seq<Settled>, calls: nat, refused: nat)

  datatype Step =
    | Begin(rec: Rec)        // record(): pending += 1
    | Send(i: nat)           // record(): tx.send, or its failure
    | Unpend                 // record() after a failed send: pending -= 1
    | CountRefused           // record() after that: failed += 1
    | SendFlush
    | SendCheckpoint
    | Receive
    | WriteBatch(ok: bool)
    | Count                  // the next counter update after a batch
    | Ack                    // answer the next waiting flush, or go back to collecting
    | Crash                  // the writer thread is gone

  // ---- the table ----

  predicate Has(table: seq<Rec>, id: string) {
    exists r :: r in table && r.reqId == id
  }

  /** INSERT OR IGNORE under the UNIQUE constraint on req_id. */
  function Insert(table: seq<Rec>, r: Rec): (res: seq<Rec>) {
    if Has(table, r.reqId) then table else table + [r]
  }

  function InsertAll(table: seq<Rec>, batch: seq<Rec>): (res: seq<Rec>) {
    if batch == [] then table else Insert(InsertAll(table, batch[..|batch| - 1]), batch[|batch| - 1])
  }

  function Outcomes(table: seq<Rec>, batch: seq<Rec>): (out: seq<Settled>)
    ensures |out| == |batch|
  {
    if batch == [] then []
    else
      var r := batch[|batch| - 1];
      var before := InsertAll(table, batch[..|batch| - 1]);
      Outcomes(table, batch[..|batch| - 1]) + [Settled(r, if Has(before, r.reqId) then Ignored else Written)]
  }

  function Failures(batch: seq<Rec>): (out: seq<Settled>)
    ensures |out| == |batch|
  {
    if batch == [] then [] else Failures(batch[..|batch| - 1]) + [Settled(batch[|batch| - 1], Failed)]
  }

  function Tally(out: seq<Settled>, o: Outcome): (n: nat) {
    if out == [] then 0 else Tally(out[..|out| - 1], o) + (if out[|out| - 1].outcome == o then 1 else 0)
  }

  lemma TallyStep(out: seq<Settled>, s: Settled, o: Outcome)
    ensures Tally(out + [s], o) == Tally(out, o) + (if s.outcome == o then 1 else 0)
  {
    assert (out + [s])[..|out|] == out;
  }

  lemma BatchStep(table: seq<Rec>, batch: seq<Rec>, r: Rec)
    ensures InsertAll(table, batch + [r]) == Insert(InsertAll(table, batch), r)
    ensures Outcomes(table, batch + [r])
            == Outcomes(table, batch) + [Settled(r, if Has(InsertAll(table, batch), r.reqId) then Ignored else Written)]
    ensures Failures(batch + [r]) == Failures(batch) + [Settled(r, Failed)]
  {
    assert (batch + [r])[..|batch|] == batch;
  }

  /** One transaction over the batch, counting the rows the constraint turned away. */
  method WriteRows(table: seq<Rec>, batch: seq<Rec>) returns (res: seq<Rec>, dups: nat)
    ensures res == InsertAll(table, batch)
    ensures dups == Tally(Outcomes(table, batch), Ignored)
  {
    res, dups := table, 0;
    for i := 0 to |batch|
      invariant res == InsertAll(table, batch[..i])
      invariant dups == Tally(Outcomes(table, batch[..i]), Ignored)
    {
      var r := batch[i];
      assert batch[..i + 1] == batch[..i] + [r];
      BatchStep(table, batch[..i], r);
      TallyStep(Outcomes(table, batch[..i]), Settled(r, if Has(res, r.reqId) then Ignored else Written), Ignored);
      if Has(res, r.reqId) {
        dups := dups + 1;
      } else {
        res := res + [r];
      }
    }
    assert batch[..|batch|] == batch;
  }

  // ---- the steps ----

  function WrapSub(a: nat, b: nat): nat {
    if a >= b then a - b else (a - b) % 0x1_0000_0000_0000_0000
  }

  function Remove(s: seq<Rec>, i: nat): (t: seq<Rec>)
    requires i < |s|
  {
    s[..i] + s[i + 1..]
  }

  function Queue(l: Ledger, m: Msg): (res: Ledger) {
    l.(queue := l.queue + [m], sent := l.sent + [m])
  }

  function ReceiveStep(l: Ledger): (res: Ledger)
    requires l.queue != []
  {
    var rest := l.(queue := l.queue[1..]);
    match l.queue[0]
    case Record(r) => rest.(batch := l.batch + [r])
    case Flush(id) => rest.(acks := l.acks + [id])
    case Checkpoint => rest
  }

  function WriteStep(l: Ledger, ok: bool): (res: Ledger) {
    if l.batch == [] then l.(writer := Acking)
    else if ok then
      var out := Outcomes(l.table, l.batch);
      l.(table := InsertAll(l.table, l.batch), settled := l.settled + out, batch := [],
         writer := AddWritten(Tally(out, Written), Tally(out, Ignored)))
    else l.(settled := l.settled + Failures(l.batch), batch := [], writer := AddFailed(|l.batch|))
  }

  function CountStep(l: Ledger): (res: Ledger) {
    match l.writer
    case AddWritten(f, d) => l.(written := l.written + f, writer := AddIgnored(d, f + d))
    case AddIgnored(d, n) => l.(ignored := l.ignored + d, writer := SubPending(n))
    case AddFailed(n) => l.(failed := l.failed + n, writer := SubPending(n))
    case SubPending(n) => l.(pending := WrapSub(l.pending, n), writer := Acking)
    case _ => l
  }

  function Take(l: Ledger, step: Step): (res: Ledger) {
    match step
    case Begin(r) => l.(calls := l.calls + 1, pending := l.pending + 1, sending := l.sending + [r])
    case Send(i) =>
      if i >= |l.sending| then l
      else if l.writer.Dead? then
        l.(sending := Remove(l.sending, i), refusing := l.refusing + 1)
      else Queue(l.(sending := Remove(l.sending, i)), Record(l.sending[i]))
    case Unpend =>
      if l.refusing == 0 then l
      else l.(refusing := l.refusing - 1, pending := WrapSub(l.pending, 1), uncounted := l.uncounted + 1)
    case CountRefused =>
      if l.uncounted == 0 then l
      else l.(uncounted := l.uncounted - 1, failed := l.failed + 1, refused := l.refused + 1)
    case SendFlush => if l.writer.Dead? then l else Queue(l, Flush(|l.sent|))
    case SendCheckpoint => if l.writer.Dead? then l else Queue(l, Checkpoint)
    case Receive => if l.writer.Collecting? && l.queue != [] && |l.batch| < BATCH then ReceiveStep(l) else l
    case WriteBatch(ok) => if l.writer.Collecting? then WriteStep(l, ok) else l
    case Count => CountStep(l)
    case Ack =>
      if !l.writer.Acking? then l
      else if l.acks == [] then l.(writer := Collecting)
      else l.(acked := l.acked + {l.acks[0]}, acks := l.acks[1..])
    case Crash => if l.writer.Collecting? then l.(writer := Dead) else l
  }

  predicate IsSend(step: Step) {
    step.Send? || step.SendFlush? || step.SendCheckpoint?
  }

  function Open(table: seq<Rec>): (l: Ledger) {
    Ledger(0, 0, 0, 0, [], 0, 0, [], Collecting, [], [], {}, table, [], [], 0, 0)
  }

  function Run(l: Ledger, steps: seq<Step>): (res: Ledger) {
    if steps == [] then l else Take(Run(l, steps[..|steps| - 1]), steps[|steps| - 1])
  }

  // ---- counters ----

  function RecordsIn(q: seq<Msg>): (rs: seq<Rec>) {
    if q == [] then []
    else RecordsIn(q[..|q| - 1]) + (if q[|q| - 1].Record? then [q[|q| - 1].rec] else [])
  }

  lemma RecordsStep(q: seq<Msg>, m: Msg)
    ensures RecordsIn(q + [m]) == RecordsIn(q) + (if m.Record? then [m.rec] else [])
  {
    assert (q + [m])[..|q|] == q;
  }

  lemma {:induction false} RecordsHead(q: seq<Msg>)
    requires q != []
    ensures RecordsIn(q) == (if q[0].Record? then [q[0].rec] else []) + RecordsIn(q[1..])
  {
    if |q| == 1 {
      assert q[..0] == [] && q[1..] == [];
    } else {
      var front, m := q[..|q| - 1], q[|q| - 1];
      RecordsHead(front);
      assert q[1..] == front[1..] + [m];
      RecordsStep(front[1..], m);
    }
  }

  /** Records whose outcome is known but still counted as pending. */
  function InHand(w: Writer): nat {
    match w
    case AddWritten(f, d) => f + d
    case AddIgnored(d, n) => n
    case AddFailed(n) => n
    case SubPending(n) => n
    case _ => 0
  }

  function LagWritten(w: Writer): nat {
    if w.AddWritten? then w.rows else 0
  }

  function LagIgnored(w: Writer): nat {
    if w.AddWritten? || w.AddIgnored? then w.dups else 0
  }

  function LagFailed(w: Writer): nat {
    if w.AddFailed? then w.n else 0
  }

  ghost predicate Balanced(l: Ledger) {
    && l.pending == |l.sending| + l.refusing + |RecordsIn(l.queue)| + |l.batch| + InHand(l.writer)
    && l.calls == |l.sending| + l.refusing + l.uncounted + |RecordsIn(l.queue)| + |l.batch| + |l.settled| + l.refused
    && l.written + LagWritten(l.writer) == Tally(l.settled, Written)
    && l.ignored + LagIgnored(l.writer) == Tally(l.settled, Ignored)
    && l.failed + LagFailed(l.writer) == Tally(l.settled, Failed) + l.refused
    && |l.batch| <= BATCH && (l.refusing + l.uncounted > 0 ==> l.writer.Dead?)
  }

  lemma {:induction false} TallyConcat(a: seq<Settled>, b: seq<Settled>, o: Outcome)
    ensures Tally(a + b, o) == Tally(a, o) + Tally(b, o)
  {
    if b == [] {
      assert a + b == a;
    } else {
      TallyConcat(a, b[..|b| - 1], o);
      assert (a + b)[..|a + b| - 1] == a + b[..|b| - 1];
    }
  }

  lemma {:induction false} TallyAll(out: seq<Settled>)
    ensures Tally(out, Written) + Tally(out, Ignored) + Tally(out, Failed) == |out|
  {
    if out != [] {
      TallyAll(out[..|out| - 1]);
    }
  }

  lemma {:induction false} BatchTally(table: seq<Rec>, batch: seq<Rec>)
    ensures Tally(Outcomes(table, batch), Failed) == 0
    ensures Tally(Failures(batch), Failed) == |batch|
    ensures Tally(Failures(batch), Written) == 0 && Tally(Failures(batch), Ignored) == 0
  {
    if batch != [] {
      BatchTally(table, batch[..|batch| - 1]);
      var n := |batch| - 1;
      assert Outcomes(table, batch)[..n] == Outcomes(table, batch[..n]);
      assert Failures(batch)[..n] == Failures(batch[..n]);
    }
  }

  lemma SettledTally(settled: seq<Settled>, out: seq<Settled>)
    ensures forall o :: Tally(settled + out, o) == Tally(settled, o) + Tally(out, o)
    ensures Tally(out, Written) + Tally(out, Ignored) + Tally(out, Failed) == |out|
  {
    forall o
      ensures Tally(settled + out, o) == Tally(settled, o) + Tally(out, o)
    {
      TallyConcat(settled, out, o);
    }
    TallyAll(out);
  }

  lemma WriteBalanced(l: Ledger, ok: bool)
    requires Balanced(l) && l.writer.Collecting?
    ensures Balanced(WriteStep(l, ok))
  {
    var out := if ok then Outcomes(l.table, l.batch) else Failures(l.batch);
    BatchTally(l.table, l.batch);
    SettledTally(l.settled, out);
    if l.batch != [] {
      SettleBalanced(l, WriteStep(l, ok), out);
    }
  }

  /** The batch moves to the settled records, and the writer still has to count it. */
  lemma SettleBalanced(l: Ledger, m: Ledger, out: seq<Settled>)
    requires Balanced(l) && l.writer.Collecting? && |out| == |l.batch|
    requires m == l.(table := m.table, settled := l.settled + out, batch := [], writer := m.writer)
    requires forall o :: Tally(l.settled + out, o) == Tally(l.settled, o) + Tally(out, o)
    requires InHand(m.writer) == |out| && LagWritten(m.writer) == Tally(out, Written)
    requires LagIgnored(m.writer) == Tally(out, Ignored) && LagFailed(m.writer) == Tally(out, Failed)
    requires !m.writer.Dead?
    ensures Balanced(m)
  {
  }

  lemma QueueBalanced(l: Ledger, m: Msg, r: seq<Rec>)
    requires Balanced(l.(sending := r + l.sending)) && |r| == (if m.Record? then 1 else 0)
    ensures Balanced(Queue(l, m))
  {
    RecordsStep(l.queue, m);
  }

  lemma SendBalanced(l: Ledger, i: nat)
    requires Balanced(l)
    ensures Balanced(Take(l, Send(i)))
  {
    if i < |l.sending| && !l.writer.Dead? {
      QueueBalanced(l.(sending := Remove(l.sending, i)), Record(l.sending[i]), [l.sending[i]]);
    }
  }

  lemma ReceiveBalanced(l: Ledger)
    requires Balanced(l)
    ensures Balanced(Take(l, Receive))
  {
    if l.queue != [] {
      RecordsHead(l.queue);
    }
  }

  lemma CountBalanced(l: Ledger)
    requires Balanced(l)
    ensures Balanced(CountStep(l))
  {
  }

  lemma SmallStepBalanced(l: Ledger, step: Step)
    requires Balanced(l) && (step.Begin? || step.Ack? || step.Crash? || step.Unpend? || step.CountRefused?)
    ensures Balanced(Take(l, step))
  {
  }

  lemma FlushBalanced(l: Ledger, step: Step)
    requires Balanced(l) && (step.SendFlush? || step.SendCheckpoint?)
    ensures Balanced(Take(l, step))
  {
    assert l.(sending := [] + l.sending) == l;
    QueueBalanced(l, if step.SendFlush? then Flush(|l.sent|) else Checkpoint, []);
  }

  lemma StepBalanced(l: Ledger, step: Step)
    requires Balanced(l)
    ensures Balanced(Take(l, step))
  {
    match step
    case Send(i) => SendBalanced(l, i);
    case SendFlush | SendCheckpoint => FlushBalanced(l, step);
    case Receive => ReceiveBalanced(l);
    case WriteBatch(ok) =>
      if l.writer.Collecting? {
        WriteBalanced(l, ok);
      }
    case Count => CountBalanced(l);
    case Begin(_) | Ack | Crash | Unpend | CountRefused => SmallStepBalanced(l, step);
  }

  // ---- history ----

  function RecsOf(out: seq<Settled>): (rs: seq<Rec>)
    ensures |rs| == |out|
  {
    if out == [] then [] else RecsOf(out[..|out| - 1]) + [out[|out| - 1].rec]
  }

  lemma {:induction false} RecsConcat(a: seq<Settled>, b: seq<Settled>)
    ensures RecsOf(a + b) == RecsOf(a) + RecsOf(b)
  {
    if b == [] {
      assert a + b == a;
    } else {
      RecsConcat(a, b[..|b| - 1]);
      assert (a + b)[..|a + b| - 1] == a + b[..|b| - 1];
    }
  }

  lemma RecsStep(out: seq<Settled>, s: Settled)
    ensures RecsOf(out + [s]) == RecsOf(out) + [s.rec]
  {
    assert (out + [s])[..|out|] == out;
  }

  lemma {:induction false} BatchRecs(table: seq<Rec>, batch: seq<Rec>)
    ensures RecsOf(Outcomes(table, batch)) == batch && RecsOf(Failures(batch)) == batch
  {
    if batch != [] {
      var front, r := batch[..|batch| - 1], batch[|batch| - 1];
      assert batch == front + [r];
      BatchRecs(table, front);
      BatchStep(table, front, r);
      RecsStep(Outcomes(table, front), Settled(r, if Has(InsertAll(table, front), r.reqId) then Ignored else Written));
      RecsStep(Failures(front), Settled(r, Failed));
    }
  }

  /** How many messages the writer has taken off the channel. */
  function Popped(l: Ledger): int {
    |l.sent| - |l.queue|
  }

  /** Settled records, then the batch, then the queue, are the records sent, in order. */
  ghost predicate Fifo(l: Ledger) {
    && 0 <= Popped(l) && l.queue == l.sent[Popped(l)..]
    && RecsOf(l.settled) + l.batch == RecordsIn(l.sent[..Popped(l)])
  }

  lemma ReceiveFifo(l: Ledger)
    requires Fifo(l) && l.queue != []
    ensures Fifo(ReceiveStep(l))
  {
    var k := Popped(l);
    assert l.sent[k] == l.queue[0];
    assert l.sent[..k + 1] == l.sent[..k] + [l.sent[k]];
    RecordsStep(l.sent[..k], l.sent[k]);
    var m := ReceiveStep(l);
    assert Popped(m) == k + 1;
    if l.queue[0].Record? {
      assert RecsOf(l.settled) + (l.batch + [l.queue[0].rec]) == (RecsOf(l.settled) + l.batch) + [l.queue[0].rec];
    }
  }

  lemma WriteFifo(l: Ledger, ok: bool)
    requires Fifo(l)
    ensures Fifo(WriteStep(l, ok))
  {
    var out := if ok then Outcomes(l.table, l.batch) else Failures(l.batch);
    BatchRecs(l.table, l.batch);
    RecsConcat(l.settled, out);
    assert RecsOf(l.settled + out) + [] == RecsOf(l.settled + out);
  }

  lemma QueueFifo(l: Ledger, m: Msg)
    requires Fifo(l)
    ensures Fifo(Queue(l, m))
  {
    var k := Popped(l);
    assert (l.sent + [m])[..k] == l.sent[..k];
  }

  lemma SendFifo(l: Ledger, step: Step)
    requires Fifo(l) && IsSend(step)
    ensures Fifo(Take(l, step))
  {
    match step
    case Send(i) =>
      if i < |l.sending| && !l.writer.Dead? {
        QueueFifo(l.(sending := Remove(l.sending, i)), Record(l.sending[i]));
      }
    case SendFlush => QueueFifo(l, Flush(|l.sent|));
    case SendCheckpoint => QueueFifo(l, Checkpoint);
  }

  lemma WriterFifo(l: Ledger, step: Step)
    requires Fifo(l) && (step.Receive? || step.WriteBatch?)
    ensures Fifo(Take(l, step))
  {
    if step.WriteBatch? {
      WriteFifo(l, step.ok);
    } else if l.queue != [] {
      ReceiveFifo(l);
    }
  }

  lemma OtherFifo(l: Ledger, step: Step)
    requires Fifo(l) && !IsSend(step) && !step.Receive? && !step.WriteBatch?
    ensures Fifo(Take(l, step))
  {
    var m := Take(l, step);
    assert m.sent == l.sent && m.queue == l.queue && m.settled == l.settled && m.batch == l.batch;
  }

  lemma StepFifo(l: Ledger, step: Step)
    requires Fifo(l)
    ensures Fifo(Take(l, step))
  {
    if IsSend(step) {
      SendFifo(l, step);
    } else if step.Receive? || step.WriteBatch? {
      WriterFifo(l, step);
    } else {
      OtherFifo(l, step);
    }
  }

  // ---- flush acknowledgements ----

  ghost predicate FlushAt(l: Ledger, id: nat) {
    id < Popped(l) && l.sent[id] == Flush(id)
  }

  /** Records the writer has counted by their outcome. */
  function Counted(l: Ledger): int {
    l.written + l.ignored + l.failed - l.refused
  }

  /** Flushes name their place; only received ones wait for an answer, and those answered have
      every record sent before them settled and counted. */
  ghost predicate FlushesKept(l: Ledger) {
    && 0 <= Popped(l)
    && (forall k :: 0 <= k < |l.sent| && l.sent[k].Flush? ==> l.sent[k].id == k)
    && (forall id :: id in l.acks ==> FlushAt(l, id))
    && (forall id :: id in l.acked ==>
          FlushAt(l, id) && |RecordsIn(l.sent[..id])| <= |l.settled| && |RecordsIn(l.sent[..id])| <= Counted(l))
    && (l.writer.Collecting? || l.writer.Dead? || l.batch == [])
  }

  lemma {:induction false} RecordsMono(q: seq<Msg>, i: nat, j: nat)
    requires i <= j <= |q|
    ensures RecordsIn(q[..i]) <= RecordsIn(q[..j])
  {
    if i < j {
      RecordsMono(q, i, j - 1);
      assert q[..j] == q[..j - 1] + [q[j - 1]];
      RecordsStep(q[..j - 1], q[j - 1]);
    }
  }

  lemma QueueFlushes(l: Ledger, m: Msg)
    requires FlushesKept(l) && (m.Flush? ==> m.id == |l.sent|)
    ensures FlushesKept(Queue(l, m))
  {
    var k := Queue(l, m);
    assert Popped(k) == Popped(l);
    forall id | id in l.acked
      ensures FlushAt(k, id) && |RecordsIn(k.sent[..id])| <= |k.settled| && |RecordsIn(k.sent[..id])| <= Counted(k)
    {
      assert FlushAt(l, id);
      assert k.sent[..id] == l.sent[..id];
    }
    forall id | id in l.acks
      ensures FlushAt(k, id)
    {
      assert FlushAt(l, id);
    }
  }

  lemma ReceiveFlushes(l: Ledger)
    requires FlushesKept(l) && Fifo(l) && l.queue != [] && l.writer.Collecting?
    ensures FlushesKept(ReceiveStep(l))
  {
    var k, m := Popped(l), ReceiveStep(l);
    assert l.sent[k] == l.queue[0];
    assert Popped(m) == k + 1;
    forall id | id in m.acks
      ensures FlushAt(m, id)
    {
      if id in l.acks {
        assert FlushAt(l, id);
      }
    }
    forall id | id in l.acked
      ensures FlushAt(m, id)
    {
      assert FlushAt(l, id);
    }
  }

  lemma AckFlushes(l: Ledger)
    requires FlushesKept(l) && Fifo(l) && Balanced(l) && l.writer.Acking?
    ensures FlushesKept(Take(l, Ack))
  {
    TallyAll(l.settled);
    if l.acks != [] {
      var id := l.acks[0];
      assert FlushAt(l, id);
      RecordsMono(l.sent, id, Popped(l));
    }
    var m := Take(l, Ack);
    assert forall k :: k in m.acks ==> k in l.acks;
    assert forall k :: FlushAt(l, k) ==> FlushAt(m, k);
  }

  lemma SendFlushes(l: Ledger, step: Step)
    requires FlushesKept(l) && IsSend(step)
    ensures FlushesKept(Take(l, step))
  {
    match step
    case Send(i) =>
      if i < |l.sending| && !l.writer.Dead? {
        QueueFlushes(l.(sending := Remove(l.sending, i)), Record(l.sending[i]));
      }
    case SendFlush => QueueFlushes(l, Flush(|l.sent|));
    case SendCheckpoint => QueueFlushes(l, Checkpoint);
  }

  lemma OtherFlushes(l: Ledger, step: Step)
    requires FlushesKept(l) && !IsSend(step) && !step.Receive? && !step.Ack?
    ensures FlushesKept(Take(l, step))
  {
    SameFlushes(l, Take(l, step));
  }

  lemma StepFlushes(l: Ledger, step: Step)
    requires FlushesKept(l) && Fifo(l) && Balanced(l)
    ensures FlushesKept(Take(l, step))
  {
    if IsSend(step) {
      SendFlushes(l, step);
    } else if step.Receive? {
      if l.queue != [] && l.writer.Collecting? {
        ReceiveFlushes(l);
      }
    } else if step.Ack? {
      if l.writer.Acking? {
        AckFlushes(l);
      }
    } else {
      OtherFlushes(l, step);
    }
  }

  lemma SameFlushes(l: Ledger, m: Ledger)
    requires FlushesKept(l)
    requires m.sent == l.sent && m.queue == l.queue && m.acks == l.acks && m.acked == l.acked
    requires |l.settled| <= |m.settled| && Counted(l) <= Counted(m)
    requires m.writer.Collecting? || m.writer.Dead? || m.batch == []
    ensures FlushesKept(m)
  {
    assert forall id :: FlushAt(l, id) ==> FlushAt(m, id);
  }

  // ---- the table ----

  function FreshOf(out: seq<Settled>): (rs: seq<Rec>) {
    if out == [] then []
    else FreshOf(out[..|out| - 1]) + (if out[|out| - 1].outcome.Written? then [out[|out| - 1].rec] else [])
  }

  ghost predicate UniqueIds(table: seq<Rec>) {
    forall i, j :: 0 <= i < j < |table| ==> table[i].reqId != table[j].reqId
  }

  lemma {:induction false} FreshConcat(a: seq<Settled>, b: seq<Settled>)
    ensures FreshOf(a + b) == FreshOf(a) + FreshOf(b)
  {
    if b == [] {
      assert a + b == a;
    } else {
      FreshConcat(a, b[..|b| - 1]);
      assert (a + b)[..|a + b| - 1] == a + b[..|b| - 1];
    }
  }

  lemma InsertUnique(table: seq<Rec>, r: Rec)
    requires UniqueIds(table)
    ensures UniqueIds(Insert(table, r))
  {
    assert forall i :: 0 <= i < |table| ==> table[i] in table;
  }

  lemma {:induction false} BatchUnique(table: seq<Rec>, batch: seq<Rec>)
    requires UniqueIds(table)
    ensures UniqueIds(InsertAll(table, batch))
  {
    if batch != [] {
      BatchUnique(table, batch[..|batch| - 1]);
      InsertUnique(InsertAll(table, batch[..|batch| - 1]), batch[|batch| - 1]);
    }
  }

  lemma FreshStep(out: seq<Settled>, s: Settled)
    ensures FreshOf(out + [s]) == FreshOf(out) + (if s.outcome.Written? then [s.rec] else [])
  {
    assert (out + [s])[..|out|] == out;
  }

  lemma {:induction false} BatchRows(table: seq<Rec>, batch: seq<Rec>)
    ensures InsertAll(table, batch) == table + FreshOf(Outcomes(table, batch))
    ensures FreshOf(Failures(batch)) == []
  {
    if batch != [] {
      var front, r := batch[..|batch| - 1], batch[|batch| - 1];
      assert batch == front + [r];
      BatchRows(table, front);
      BatchStep(table, front, r);
      FreshStep(Outcomes(table, front), Settled(r, if Has(InsertAll(table, front), r.reqId) then Ignored else Written));
      FreshStep(Failures(front), Settled(r, Failed));
      Assoc(table, FreshOf(Outcomes(table, front)), [r]);
    }
  }

  /** The table is what was there plus exactly the records settled as written, in that order. */
  ghost predicate Rows(l: Ledger, table0: seq<Rec>) {
    UniqueIds(l.table) && l.table == table0 + FreshOf(l.settled)
  }

  lemma WriteRowsKept(l: Ledger, ok: bool, table0: seq<Rec>)
    requires Rows(l, table0)
    ensures Rows(WriteStep(l, ok), table0)
  {
    var out := if ok then Outcomes(l.table, l.batch) else Failures(l.batch);
    BatchRows(l.table, l.batch);
    BatchUnique(l.table, l.batch);
    FreshConcat(l.settled, out);
    Assoc(table0, FreshOf(l.settled), FreshOf(out));
  }

  lemma StepRows(l: Ledger, step: Step, table0: seq<Rec>)
    requires Rows(l, table0)
    ensures Rows(Take(l, step), table0)
  {
    if step.WriteBatch? {
      WriteRowsKept(l, step.ok, table0);
    }
  }

  /** Whatever was written or ignored has a row. */
  ghost predicate Present(l: Ledger) {
    forall s :: s in l.settled && !s.outcome.Failed? ==> Has(l.table, s.rec.reqId)
  }

  lemma {:induction false} BatchKeepsRows(table: seq<Rec>, batch: seq<Rec>, id: string)
    requires Has(table, id)
    ensures Has(InsertAll(table, batch), id)
  {
    if batch != [] {
      BatchKeepsRows(table, batch[..|batch| - 1], id);
      InsertHas(InsertAll(table, batch[..|batch| - 1]), batch[|batch| - 1], id);
    }
  }

  lemma InsertHas(table: seq<Rec>, r: Rec, id: string)
    requires Has(table, id) || id == r.reqId
    ensures Has(Insert(table, r), id)
  {
    if !Has(table, r.reqId) {
      assert r in table + [r];
      assert forall x :: x in table ==> x in table + [r];
    }
  }

  lemma {:induction false} BatchPresent(table: seq<Rec>, batch: seq<Rec>, s: Settled)
    requires s in Outcomes(table, batch)
    ensures Has(InsertAll(table, batch), s.rec.reqId)
  {
    var n := |batch| - 1;
    var before := InsertAll(table, batch[..n]);
    if s in Outcomes(table, batch[..n]) {
      BatchPresent(table, batch[..n], s);
    }
    InsertHas(before, batch[n], s.rec.reqId);
  }

  lemma {:induction false} FailuresFail(batch: seq<Rec>, s: Settled)
    requires s in Failures(batch)
    ensures s.outcome == Failed
  {
    if s in Failures(batch[..|batch| - 1]) {
      FailuresFail(batch[..|batch| - 1], s);
    }
  }

  lemma WritePresent(l: Ledger, ok: bool)
    requires Present(l)
    ensures Present(WriteStep(l, ok))
  {
    var m := WriteStep(l, ok);
    forall s | s in m.settled && !s.outcome.Failed?
      ensures Has(m.table, s.rec.reqId)
    {
      if s in l.settled {
        BatchKeepsRows(l.table, l.batch, s.rec.reqId);
      } else if ok {
        BatchPresent(l.table, l.batch, s);
      } else {
        FailuresFail(l.batch, s);
      }
    }
  }

  lemma StepPresent(l: Ledger, step: Step)
    requires Present(l)
    ensures Present(Take(l, step))
  {
    if step.WriteBatch? {
      WritePresent(l, step.ok);
    }
  }

  // ---- over every run ----

  ghost predicate Sound(l: Ledger, table0: seq<Rec>) {
    Balanced(l) && Fifo(l) && FlushesKept(l) && Rows(l, table0) && Present(l)
  }

  lemma {:induction false} EveryRunSound(table0: seq<Rec>, steps: seq<Step>)
    requires UniqueIds(table0)
    ensures Sound(Run(Open(table0), steps), table0)
  {
    if steps == [] {
      assert table0 + [] == table0;
    } else {
      var l, step := Run(Open(table0), steps[..|steps| - 1]), steps[|steps| - 1];
      EveryRunSound(table0, steps[..|steps| - 1]);
      StepBalanced(l, step);
      StepFifo(l, step);
      StepFlushes(l, step);
      StepRows(l, step, table0);
      StepPresent(l, step);
    }
  }

  predicate BetweenBatches(l: Ledger) {
    l.writer.Collecting? || l.writer.Acking? || l.writer.Dead?
  }

  /** Records the writer has counted by outcome and not yet taken off the pending counter. */
  function CountedTwice(w: Writer): int {
    InHand(w) - LagWritten(w) - LagIgnored(w) - LagFailed(w)
  }

  /** At every moment the four counters miss exactly the recorders between the two updates of a refused
      send, and count twice exactly the records of the batch being counted. So between batches, with no
      refusal half done, every record() call is counted once, also after the writer died. */
  lemma EveryCallCountedOnce(table0: seq<Rec>, steps: seq<Step>)
    requires UniqueIds(table0)
    ensures var l := Run(Open(table0), steps);
            && l.pending + l.written + l.ignored + l.failed + l.uncounted == l.calls + CountedTwice(l.writer)
            && (BetweenBatches(l) ==> CountedTwice(l.writer) == 0)
            && (l.uncounted > 0 ==> l.writer.Dead?)
  {
    EveryRunSound(table0, steps);
    TallyAll(Run(Open(table0), steps).settled);
  }

  /** One row per req_id, one written count per new row, and every ignored record's id is present. */
  lemma TableIsExact(table0: seq<Rec>, steps: seq<Step>)
    requires UniqueIds(table0)
    ensures var l := Run(Open(table0), steps);
            && UniqueIds(l.table) && l.table == table0 + FreshOf(l.settled)
            && (BetweenBatches(l) ==> |l.table| == |table0| + l.written)
            && forall s :: s in l.settled && !s.outcome.Failed? ==> Has(l.table, s.rec.reqId)
  {
    EveryRunSound(table0, steps);
    var l := Run(Open(table0), steps);
    FreshCount(l.settled);
  }

  lemma {:induction false} FreshCount(out: seq<Settled>)
    ensures |FreshOf(out)| == Tally(out, Written)
  {
    if out != [] {
      FreshCount(out[..|out| - 1]);
    }
  }

  /** An answered flush means that every record queued before it was written, ignored or failed, and that
      the counters already include it, apart from the sends they count as refused. */
  lemma FlushMeansSettled(table0: seq<Rec>, steps: seq<Step>, id: nat)
    requires UniqueIds(table0)
    requires id in Run(Open(table0), steps).acked
    ensures var l := Run(Open(table0), steps);
            && id < |l.sent| && l.sent[id] == Flush(id)
            && RecordsIn(l.sent[..id]) <= RecsOf(l.settled)
            && |RecordsIn(l.sent[..id])| + l.refused <= l.written + l.ignored + l.failed
  {
    EveryRunSound(table0, steps);
    var l := Run(Open(table0), steps);
    assert FlushAt(l, id);
    RecordsMono(l.sent, id, Popped(l));
    assert RecordsIn(l.sent[..id]) <= RecsOf(l.settled) + l.batch;
  }

  // ---- what a transaction's outcome means ----

  /** The step is a write of a batch that fails. */
  predicate Loses(l: Ledger, step: Step) {
    step == WriteBatch(false) && l.writer.Collecting?
  }

  /** Records in batches whose write failed, over a run. */
  function LostIn(l: Ledger, steps: seq<Step>): (n: nat) {
    if steps == [] then 0
    else
      var before := Run(l, steps[..|steps| - 1]);
      LostIn(l, steps[..|steps| - 1]) + (if Loses(before, steps[|steps| - 1]) then |before.batch| else 0)
  }

  lemma WriteLoses(l: Ledger, ok: bool)
    ensures Tally(WriteStep(l, ok).settled, Failed) == Tally(l.settled, Failed) + (if ok then 0 else |l.batch|)
  {
    BatchTally(l.table, l.batch);
    TallyConcat(l.settled, Outcomes(l.table, l.batch), Failed);
    TallyConcat(l.settled, Failures(l.batch), Failed);
  }

  lemma StepLoses(l: Ledger, step: Step)
    ensures Tally(Take(l, step).settled, Failed) == Tally(l.settled, Failed) + (if Loses(l, step) then |l.batch| else 0)
  {
    if step.WriteBatch? {
      WriteLoses(l, step.ok);
    }
  }

  lemma {:induction false} RunLoses(l: Ledger, steps: seq<Step>)
    ensures Tally(Run(l, steps).settled, Failed) == Tally(l.settled, Failed) + LostIn(l, steps)
  {
    if steps != [] {
      RunLoses(l, steps[..|steps| - 1]);
      StepLoses(Run(l, steps[..|steps| - 1]), steps[|steps| - 1]);
    }
  }

  /** The failed counter is exactly the records of batches whose write failed, as far as the writer has
      counted them, and the sends that were refused. */
  lemma FailedExact(table0: seq<Rec>, steps: seq<Step>)
    requires UniqueIds(table0)
    ensures var l := Run(Open(table0), steps);
            && l.failed + LagFailed(l.writer) == LostIn(Open(table0), steps) + l.refused
            && (BetweenBatches(l) ==> l.failed == LostIn(Open(table0), steps) + l.refused)
  {
    EveryRunSound(table0, steps);
    RunLoses(Open(table0), steps);
  }

  lemma GoodWrite(l: Ledger)
    ensures var m := WriteStep(l, true);
            && (forall r :: r in l.batch ==> Has(m.table, r.reqId))
            && forall k :: |l.settled| <= k < |m.settled| ==> !m.settled[k].outcome.Failed?
  {
    WritesAll(l.table, l.batch);
  }

  lemma BadWrite(l: Ledger)
    ensures var m := WriteStep(l, false);
            m.table == l.table && forall k :: |l.settled| <= k < |m.settled| ==> m.settled[k].outcome.Failed?
  {
    forall s | s in Failures(l.batch)
      ensures s.outcome.Failed?
    {
      FailuresFail(l.batch, s);
    }
  }

  lemma WriteSettles(l: Ledger, ok: bool)
    ensures var m := WriteStep(l, ok); RecsOf(m.settled) == RecsOf(l.settled) + l.batch && l.settled <= m.settled
  {
    BatchRecs(l.table, l.batch);
    RecsConcat(l.settled, if ok then Outcomes(l.table, l.batch) else Failures(l.batch));
    assert RecsOf(l.settled) + [] == RecsOf(l.settled);
  }

  /** A successful write gives every record of the batch a row and settles none as failed; a failed one
      leaves the table alone and settles the whole batch as failed. */
  lemma WriteMeans(l: Ledger, ok: bool)
    requires l.writer.Collecting?
    ensures var m := Take(l, WriteBatch(ok)); var n := |l.settled|;
            && RecsOf(m.settled) == RecsOf(l.settled) + l.batch && l.settled <= m.settled
            && (ok ==> forall r :: r in l.batch ==> Has(m.table, r.reqId))
            && (!ok ==> m.table == l.table)
            && forall k :: n <= k < |m.settled| ==> m.settled[k].outcome.Failed? == !ok
  {
    WriteSettles(l, ok);
    if ok {
      GoodWrite(l);
    } else {
      BadWrite(l);
    }
  }

  lemma {:induction false} WritesAll(table: seq<Rec>, batch: seq<Rec>)
    ensures forall r :: r in batch ==> Has(InsertAll(table, batch), r.reqId)
    ensures forall k :: 0 <= k < |batch| ==> !Outcomes(table, batch)[k].outcome.Failed?
  {
    if batch != [] {
      var front, last := batch[..|batch| - 1], batch[|batch| - 1];
      WritesAll(table, front);
      forall r | r in batch
        ensures Has(InsertAll(table, batch), r.reqId)
      {
        assert r in front || r == last;
        InsertHas(InsertAll(table, front), last, r.reqId);
      }
    }
  }

  // ---- a run without failures ----

  ghost predicate Smooth(steps: seq<Step>) {
    forall i :: 0 <= i < |steps| ==> steps[i] != WriteBatch(false) && !steps[i].Crash?
  }

  ghost predicate Unhurt(l: Ledger) {
    !l.writer.Dead? && l.refused == 0 && l.refusing == 0 && l.uncounted == 0
  }

  lemma SmoothStep(l: Ledger, step: Step)
    requires Unhurt(l) && !step.Crash?
    ensures Unhurt(Take(l, step))
  {
  }

  lemma {:induction false} SmoothRun(l: Ledger, steps: seq<Step>)
    requires Unhurt(l) && Smooth(steps)
    ensures LostIn(l, steps) == 0 && Unhurt(Run(l, steps))
  {
    if steps != [] {
      SmoothRun(l, steps[..|steps| - 1]);
      SmoothStep(Run(l, steps[..|steps| - 1]), steps[|steps| - 1]);
    }
  }

  lemma {:induction false} NoneFailed(out: seq<Settled>, s: Settled)
    requires Tally(out, Failed) == 0 && s in out
    ensures !s.outcome.Failed?
  {
    if s != out[|out| - 1] {
      NoneFailed(out[..|out| - 1], s);
    }
  }

  lemma {:induction false} RecOf(out: seq<Settled>, r: Rec) returns (s: Settled)
    requires r in RecsOf(out)
    ensures s in out && s.rec == r
  {
    if out[|out| - 1].rec == r {
      s := out[|out| - 1];
    } else {
      s := RecOf(out[..|out| - 1], r);
    }
  }

  /** Without a failed write and without a crash nothing is ever counted as failed, and every record sent
      before an answered flush has a row. */
  lemma SmoothFlushMeansRows(table0: seq<Rec>, steps: seq<Step>, id: nat, r: Rec)
    requires UniqueIds(table0) && Smooth(steps)
    ensures var l := Run(Open(table0), steps);
            && l.failed == 0
            && (id in l.acked && id <= |l.sent| && r in RecordsIn(l.sent[..id]) ==> Has(l.table, r.reqId))
  {
    var l := Run(Open(table0), steps);
    EveryRunSound(table0, steps);
    SmoothRun(Open(table0), steps);
    FailedExact(table0, steps);
    RunLoses(Open(table0), steps);
    if id in l.acked && id <= |l.sent| && r in RecordsIn(l.sent[..id]) {
      FlushMeansSettled(table0, steps, id);
      assert r in RecsOf(l.settled);
      var s := RecOf(l.settled, r);
      NoneFailed(l.settled, s);
    }
  }

  // ---- one record all the way ----

  lemma TwoMore(l: Ledger, steps: seq<Step>, a: Step, b: Step)
    ensures Run(l, steps + [a, b]) == Take(Take(Run(l, steps), a), b)
  {
    assert (steps + [a, b])[..|steps| + 1] == steps + [a];
    assert (steps + [a])[..|steps|] == steps;
  }

  lemma Arrived(table0: seq<Rec>, r: Rec)
    ensures var l := Run(Open(table0), [Begin(r), Send(0)] + [SendFlush, Receive]);
            l == Open(table0).(calls := 1, pending := 1, queue := [Flush(1)], batch := [r],
                               sent := [Record(r), Flush(1)])
  {
    TwoMore(Open(table0), [], Begin(r), Send(0));
    assert [] + [Begin(r), Send(0)] == [Begin(r), Send(0)];
    TwoMore(Open(table0), [Begin(r), Send(0)], SendFlush, Receive);
    var l := Take(Take(Open(table0), Begin(r)), Send(0));
    assert l.sending == [] && l.queue == [Record(r)];
  }

  lemma OneOutcome(table: seq<Rec>, r: Rec)
    ensures InsertAll(table, [r]) == Insert(table, r)
    ensures Outcomes(table, [r]) == [Settled(r, if Has(table, r.reqId) then Ignored else Written)]
  {
    BatchStep(table, [], r);
    assert [] + [r] == [r];
  }

  lemma OneTally(s: Settled, o: Outcome)
    ensures Tally([s], o) == if s.outcome == o then 1 else 0
  {
    TallyStep([], s, o);
    assert [] + [s] == [s];
  }

  /** The writer takes up the flush and writes the one record it has. */
  lemma OneWritten(l: Ledger, r: Rec, id: nat)
    requires l.writer.Collecting? && l.queue == [Flush(id)] && l.batch == [r] && l.acks == []
    ensures var m := Take(Take(l, Receive), WriteBatch(true)); var known := Has(l.table, r.reqId);
            && m.writer == AddWritten(if known then 0 else 1, if known then 1 else 0)
            && m.table == Insert(l.table, r) && m.acks == [id]
            && m.pending == l.pending && m.written == l.written && m.ignored == l.ignored && m.failed == l.failed
            && m.acked == l.acked
  {
    var mid := Take(l, Receive);
    assert mid.acks == [id] && mid.batch == [r];
    OneOutcome(l.table, r);
    var s := Settled(r, if Has(l.table, r.reqId) then Ignored else Written);
    OneTally(s, Written);
    OneTally(s, Ignored);
  }

  /** And then counts it and answers. */
  lemma OneCounted(l: Ledger, f: nat, d: nat, id: nat)
    requires l.writer == AddWritten(f, d) && l.acks == [id] && l.pending == f + d
    ensures var m := Take(Take(Take(Take(l, Count), Count), Count), Ack);
            && m.written == l.written + f && m.ignored == l.ignored + d && m.failed == l.failed && m.pending == 0
            && m.table == l.table && m.acked == l.acked + {id} && m.acks == []
  {
    var counted := Take(Take(Take(l, Count), Count), Count);
    assert counted.writer == Acking && counted.acks == [id];
  }

  /** The steps of one recorder and one flush, and of the writer that serves them. */
  function WholeWay(r: Rec): seq<Step> {
    [Begin(r), Send(0)] + [SendFlush, Receive] + [Receive, WriteBatch(true)] + [Count, Count] + [Count, Ack]
  }

  /** A record goes all the way: into the table unless its id is there, counted once, off the pending
      counter, and the flush behind it answered. */
  lemma RecordArrives(table0: seq<Rec>, r: Rec)
    ensures var l := Run(Open(table0), WholeWay(r));
            && l.table == Insert(table0, r) && l.acked == {1} && l.acks == []
            && l.pending == 0 && l.failed == 0
            && l.written == (if Has(table0, r.reqId) then 0 else 1) && l.ignored == 1 - l.written
  {
    var o, four := Open(table0), [Begin(r), Send(0)] + [SendFlush, Receive];
    var six := four + [Receive, WriteBatch(true)];
    Arrived(table0, r);
    TwoMore(o, four, Receive, WriteBatch(true));
    TwoMore(o, six, Count, Count);
    TwoMore(o, six + [Count, Count], Count, Ack);
    var known := Has(table0, r.reqId);
    OneWritten(Run(o, four), r, 1);
    OneCounted(Run(o, six), if known then 0 else 1, if known then 1 else 0, 1);
  }
}
