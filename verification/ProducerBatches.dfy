/**
 A batch of records on its way to the broker and the futures of its records (producer/producer_batch.py,
 producer/future.py). `E` are the exceptions; a record's future is the list of completions it has received.
 */
module ProducerBatches {
  import opened Wrappers

  datatype FinalState = Aborted | Failed | Succeeded

  datatype Error = IllegalState

  /** What the produce future is completed with. */
  datatype ProduceResult<!E> = ProduceResult(baseOffset: int, timestamp: Option<int>, exceptions: Option<nat -> E>)

  datatype Record = Record(batchIndex: nat, timestamp: int)

  datatype Outcome<E> = Acked(offset: int, timestamp: int) | Raised(error: E)

  datatype Batch<!E> = Batch(
    records: seq<Record>,
    finalState: Option<FinalState>,
    produced: Option<ProduceResult<E>>,
    futures: seq<seq<Outcome<E>>>)

  function EmptyBatch<E>(): Batch<E> { Batch([], None, None, []) }

  // ---------- one record ----------

  /** `_produce_success` */
  function OutcomeOf<E>(r: Record, p: ProduceResult<E>): Outcome<E> {
    if p.exceptions.Some? then Raised(p.exceptions.value(r.batchIndex))
    else
      Acked(if p.baseOffset != -1 then p.baseOffset + r.batchIndex else p.baseOffset,
            if p.timestamp.Some? && p.timestamp.value != -1 then p.timestamp.value else r.timestamp)
  }

  // ---------- the batch ----------

  /** A record future registers with the produce future: if that is complete already, the callback runs at once. */
  function Append<E>(b: Batch<E>, timestamp: int): Batch<E> {
    var r := Record(|b.records|, timestamp);
    b.(records := b.records + [r],
       futures := b.futures + [if b.produced.Some? then [OutcomeOf(r, b.produced.value)] else []])
  }

  function CompleteFuture<E>(b: Batch<E>, p: ProduceResult<E>): Batch<E>
    requires |b.futures| == |b.records|
  {
    b.(produced := Some(p),
       futures := seq(|b.futures|, i requires 0 <= i < |b.futures| => b.futures[i] + [OutcomeOf(b.records[i], p)]))
  }

  datatype Op<!E> =
    | TryAppend(timestamp: int, fits: bool)
    | Abort(exception: E)
    | Complete(baseOffset: int, logAppendTime: Option<int>)
    | CompleteExceptionally(exceptions: nat -> E)

  function FinalStateOf<E>(op: Op<E>): FinalState
    requires !op.TryAppend?
  {
    if op.Abort? then Aborted else if op.Complete? then Succeeded else Failed
  }

  function ResultOf<E>(op: Op<E>): ProduceResult<E>
    requires !op.TryAppend?
  {
    match op
    case Abort(e) => ProduceResult(-1, Some(-1), Some(_ => e))
    case Complete(base, time) => ProduceResult(base, time, None)
    case CompleteExceptionally(f) => ProduceResult(-1, None, Some(f))
  }

  /** Only the first terminal call does anything. */
  function Do<E>(b: Batch<E>, op: Op<E>): Batch<E>
    requires |b.futures| == |b.records|
  {
    match op
    case TryAppend(timestamp, fits) => if fits then Append(b, timestamp) else b
    case _ => if b.finalState.None? then CompleteFuture(b.(finalState := Some(FinalStateOf(op))), ResultOf(op)) else b
  }

  function After<E>(b: Batch<E>, ops: seq<Op<E>>): (r: Batch<E>)
    requires |b.futures| == |b.records|
    ensures |r.futures| == |r.records|
    decreases |ops|
  {
    if ops == [] then b else After(Do(b, ops[0]), ops[1..])
  }

  // ---------- theorems ----------

  ghost predicate Inv<E>(b: Batch<E>) {
    && |b.futures| == |b.records|
    && (b.finalState.None? <==> b.produced.None?)
    && (b.produced.Some? ==> (b.produced.value.exceptions.Some? <==> b.finalState.value != Succeeded))
    && (forall i :: 0 <= i < |b.records| ==>
          && b.records[i].batchIndex == i
          && b.futures[i] == if b.produced.Some? then [OutcomeOf(b.records[i], b.produced.value)] else [])
  }

  lemma {:induction false} RunKeepsInv<E>(b: Batch<E>, ops: seq<Op<E>>)
    requires Inv(b)
    ensures Inv(After(b, ops))
    decreases |ops|
  {
    if ops != [] { RunKeepsInv(Do(b, ops[0]), ops[1..]); }
  }

  /** Once set, the final state, what the batch was completed with, and every future that is complete stay as they are. */
  lemma {:induction false} FinalStateIsFinal<E>(b: Batch<E>, ops: seq<Op<E>>)
    requires Inv(b) && b.finalState.Some?
    ensures var r := After(b, ops);
      r.finalState == b.finalState && r.produced == b.produced && b.futures <= r.futures && b.records <= r.records
    decreases |ops|
  {
    if ops != [] {
      assert b.futures <= Do(b, ops[0]).futures && b.records <= Do(b, ops[0]).records;
      assert Inv(Do(b, ops[0]));
      FinalStateIsFinal(Do(b, ops[0]), ops[1..]);
    }
  }

  predicate Appends<E>(ops: seq<Op<E>>) { forall i :: 0 <= i < |ops| ==> ops[i].TryAppend? }

  lemma {:induction false} StillOpen<E>(b: Batch<E>, ops: seq<Op<E>>)
    requires Inv(b) && b.finalState.None? && Appends(ops)
    ensures After(b, ops).finalState.None? && Inv(After(b, ops))
    decreases |ops|
  {
    if ops != [] { StillOpen(Do(b, ops[0]), ops[1..]); }
  }

  lemma {:induction false} AfterConcat<E>(b: Batch<E>, x: seq<Op<E>>, y: seq<Op<E>>)
    requires |b.futures| == |b.records|
    ensures After(b, x + y) == After(After(b, x), y)
    decreases |x|
  {
    if x == [] {
      assert x + y == y;
    } else {
      assert (x + y)[1..] == x[1..] + y;
      AfterConcat(Do(b, x[0]), x[1..], y);
    }
  }

  /**
   Whatever comes before and after it, the first terminal call decides: the final state is its own, and every
   record, appended before or after it, is completed exactly once, with an exception iff that state is
   ABORTED or FAILED, and otherwise with consecutive offsets from the base (or with -1 for base -1) and the
   broker's time if it gave one.
   */
  lemma FirstTerminalCallDecides<E>(before: seq<Op<E>>, op: Op<E>, later: seq<Op<E>>, i: nat)
    requires Appends(before) && !op.TryAppend?
    requires i < |After(EmptyBatch<E>(), before + [op] + later).records|
    ensures var b := After(EmptyBatch<E>(), before + [op] + later);
      && b.finalState == Some(if op.Abort? then Aborted else if op.Complete? then Succeeded else Failed)
      && b.produced.Some? && (!op.Complete? ==> b.produced.value.baseOffset == -1)
      && |b.futures[i]| == 1
      && (b.futures[i][0].Raised? <==> b.finalState.value in {Aborted, Failed})
      && match op
         case Abort(e) => b.futures[i][0] == Raised(e)
         case CompleteExceptionally(f) => b.futures[i][0] == Raised(f(i))
         case Complete(base, time) =>
           && b.futures[i][0].offset == (if base == -1 then -1 else base + i)
           && b.futures[i][0].timestamp == if time.None? || time == Some(-1) then b.records[i].timestamp else time.value
  {
    var open := After(EmptyBatch<E>(), before);
    StillOpen(EmptyBatch<E>(), before);
    AfterConcat(EmptyBatch<E>(), before, [op] + later);
    assert before + ([op] + later) == before + [op] + later;
    assert ([op] + later)[1..] == later;
    var closed := Do(open, op);
    assert After(open, [op] + later) == After(closed, later);
    assert Inv(closed);
    RunKeepsInv(closed, later);
    FinalStateIsFinal(closed, later);
  }

  /** The times of the records that fit, in the order in which they were tried. */
  function Fitting<E>(ops: seq<Op<E>>): seq<int>
    decreases |ops|
  {
    if ops == [] then []
    else (if ops[0].TryAppend? && ops[0].fits then [ops[0].timestamp] else []) + Fitting(ops[1..])
  }

  /** The records of a batch are those that fitted, each with its index and its time, whatever else happens to the batch. */
  lemma {:induction false} RecordsAreThoseThatFit<E>(b: Batch<E>, ops: seq<Op<E>>, i: nat)
    requires Inv(b)
    ensures var r := After(b, ops).records;
      && |r| == |b.records| + |Fitting(ops)| && b.records <= r
      && (i < |Fitting(ops)| ==> r[|b.records| + i] == Record(|b.records| + i, Fitting(ops)[i]))
    decreases |ops|
  {
    if ops != [] {
      var c := Do(b, ops[0]);
      OneMayFit(b, ops[0]);
      hide Inv, Do;
      var n := |c.records| - |b.records|;
      RecordsAreThoseThatFit(c, ops[1..], if i < n then 0 else i - n);
      assert i < n ==> c.records[|b.records| + i] == Record(|b.records| + i, ops[0].timestamp);
    }
  }

  lemma OneMayFit<E>(b: Batch<E>, op: Op<E>)
    requires Inv(b)
    ensures var c := Do(b, op);
      Inv(c) && c.records == if op.TryAppend? && op.fits then b.records + [Record(|b.records|, op.timestamp)] else b.records
  {
  }

  /** Until then nothing is complete. */
  lemma NothingCompletesBefore<E>(ops: seq<Op<E>>, i: nat)
    requires Appends(ops) && i < |After(EmptyBatch<E>(), ops).records|
    ensures After(EmptyBatch<E>(), ops).futures[i] == []
  {
    StillOpen(EmptyBatch<E>(), ops);
  }

  // ---------- the object ----------

  class ProducerBatch<!E> {
    var records: seq<Record>
    var maxRecordSize: nat
    var lastAppend: int
    var attempts: nat
    var lastAttempt: int
    var retrying: bool
    var finalState: Option<FinalState>
    var produced: Option<ProduceResult<E>>
    var futures: seq<seq<Outcome<E>>>

    constructor (now: int)
      ensures View() == EmptyBatch() && attempts == 0 && !retrying && maxRecordSize == 0
    {
      records, maxRecordSize, lastAppend, attempts, lastAttempt, retrying := [], 0, now, 0, now, false;
      finalState, produced, futures := None, None, [];
    }

    function View(): Batch<E>
      reads this
    {
      Batch(records, finalState, produced, futures)
    }

    /** `metadata` is the size of the record as appended, None when the records take no more. */
    method TryAppend(timestamp: int, metadata: Option<nat>, now: int) returns (future: Option<nat>)
      requires Inv(View())
      modifies this
      ensures Inv(View()) && View() == Do(old(View()), Op.TryAppend(timestamp, metadata.Some?))
      ensures future == if metadata.Some? then Some(|old(records)|) else None
      ensures metadata.Some? ==> maxRecordSize >= metadata.value && maxRecordSize >= old(maxRecordSize) && lastAppend == now
      ensures maxRecordSize == old(maxRecordSize) || metadata == Some(maxRecordSize)
      ensures attempts == old(attempts) && retrying == old(retrying) && lastAttempt == old(lastAttempt)
    {
      if metadata.None? { return None; }
      var r := Record(|records|, timestamp);
      maxRecordSize := if maxRecordSize > metadata.value then maxRecordSize else metadata.value;
      lastAppend := now;
      records := records + [r];
      futures := futures + [[]];
      if produced.Some? { futures := futures[r.batchIndex := futures[r.batchIndex] + [OutcomeOf(r, produced.value)]]; }
      return Some(r.batchIndex);
    }

    method Abort(exception: E) returns (r: Result<(), Error>)
      requires Inv(View())
      modifies this
      ensures Inv(View()) && View() == Do(old(View()), Op.Abort(exception))
      ensures r.Err? <==> old(finalState).Some?
    {
      if finalState.Some? { return Err(IllegalState); }
      finalState := Some(Aborted);
      r := CompleteProduceFuture(ProduceResult(-1, Some(-1), Some(_ => exception)));
    }

    /** True iff this call completes the batch; calls after a success raise, calls after a failure are ignored. */
    method Done(terminal: Op<E>) returns (r: Result<bool, Error>)
      requires Inv(View()) && (terminal.Complete? || terminal.CompleteExceptionally?)
      modifies this
      ensures Inv(View()) && View() == Do(old(View()), terminal)
      ensures r == if old(finalState).None? then Ok(true)
                   else if old(finalState).value == Succeeded then Err(IllegalState) else Ok(false)
    {
      var newState := if terminal.Complete? then Succeeded else Failed;
      if finalState.None? {
        finalState := Some(newState);
        var done := CompleteProduceFuture(ResultOf(terminal));
        if done.Err? { return Err(IllegalState); }
        return Ok(true);
      }
      if finalState.value == Succeeded { return Err(IllegalState); }
      return Ok(false);
    }

    /** The callbacks of the record futures run in the order of registration. */
    method CompleteProduceFuture(p: ProduceResult<E>) returns (r: Result<(), Error>)
      requires |futures| == |records|
      modifies this`produced, this`futures
      ensures r.Err? <==> old(produced).Some?
      ensures View() == if r.Ok? then CompleteFuture(old(View()), p) else old(View())
    {
      if produced.Some? { return Err(IllegalState); }
      produced := Some(p);
      for i := 0 to |records|
        invariant |futures| == |records| && produced == Some(p)
        invariant forall k :: 0 <= k < i ==> futures[k] == old(futures)[k] + [OutcomeOf(records[k], p)]
        invariant forall k :: i <= k < |futures| ==> futures[k] == old(futures)[k]
      {
        futures := futures[i := futures[i] + [OutcomeOf(records[i], p)]];
      }
      return Ok(());
    }

    method Retry(now: int)
      modifies this`retrying, this`attempts, this`lastAttempt, this`lastAppend
      ensures retrying && attempts == old(attempts) + 1 && lastAttempt == now && lastAppend == now && View() == old(View())
    {
      retrying := true;
      attempts := attempts + 1;
      lastAttempt, lastAppend := now, now;
    }
  }
}
