/**
 The one-pass filter of `RecordFilter` against what "committed" means in the whole log.

 A data batch lies in an aborted transaction when the next end marker of its producer, looking ahead
 in the log, is an abort marker. The filter never looks ahead: it has the broker's list of aborted
 transactions and the markers that went by. The theorem says the two agree on every slice of every
 well-formed log, for the list in any order.
 */
module ReadCommitted {
  import opened Wrappers
  import opened RecordFilter
  import opened Offsets

  // ---------- the log, and what it means for a batch to be aborted ----------

  ghost predicate WellFormedBatch(b: Batch) {
    && b.magic == 2 && b.baseOffset <= b.lastOffset
    && (b.IsControl() || b.transactional ==> b.HasProducerId())
    && (forall i :: 0 <= i < |b.records| ==> b.baseOffset <= b.records[i].offset <= b.lastOffset)
    && (forall i, j :: 0 <= i < j < |b.records| ==> b.records[i].offset < b.records[j].offset)
  }

  ghost predicate WellFormedLog(log: seq<Batch>) {
    && (forall i :: 0 <= i < |log| ==> WellFormedBatch(log[i]))
    && (forall i, j :: 0 <= i < j < |log| ==> log[i].lastOffset < log[j].baseOffset)
  }

  ghost predicate Sound(log: seq<Batch>) {
    forall i :: 0 <= i < |log| ==> log[i].crcOk && SoundRecords(log[i].records)
  }

  ghost predicate SoundRecords(records: seq<Record>) {
    forall i :: 0 <= i < |records| ==> records[i].crcOk && records[i].readable
  }

  predicate EndsTxnOf(b: Batch, producer: int) { b.IsControl() && b.producerId == producer }

  /** No end marker of `producer` in log[i..j]. */
  ghost predicate Unended(log: seq<Batch>, producer: int, i: int, j: int)
    requires 0 <= i && j <= |log|
  {
    forall k :: i <= k < j ==> !EndsTxnOf(log[k], producer)
  }

  /** The batch at `m` is the abort marker of the transaction that the data batch at `s` belongs to. */
  ghost predicate AbortedBy(log: seq<Batch>, s: int, m: int) {
    && 0 <= s < m < |log|
    && !log[s].IsControl() && log[m].marker == AbortMarker
    && log[m].producerId == log[s].producerId && log[s].producerId > -1
    && Unended(log, log[s].producerId, s + 1, m)
  }

  ghost predicate InAbortedTxn(log: seq<Batch>, i: int)
    requires 0 <= i < |log|
  {
    log[i].transactional && exists m :: AbortedBy(log, i, m)
  }

  ghost predicate Shown(log: seq<Batch>, i: int, iso: Isolation)
    requires 0 <= i < |log|
  {
    !log[i].IsControl() && !(iso == ReadCommitted && InAbortedTxn(log, i))
  }

  /** The records a reader of log[k..hi] is meant to see. */
  ghost function Visible(log: seq<Batch>, k: nat, hi: nat, iso: Isolation): seq<Record>
    requires k <= hi <= |log|
    decreases hi - k
  {
    if k == hi then []
    else (if Shown(log, k, iso) then log[k].records else []) + Visible(log, k + 1, hi, iso)
  }

  // ---------- the broker's list ----------

  /** No batch of the log holds `offset` behind its first: it is the base of a batch, there or compacted away. */
  ghost predicate IsBase(log: seq<Batch>, offset: int) {
    forall j :: 0 <= j < |log| ==> offset <= log[j].baseOffset || log[j].lastOffset < offset
  }

  /** The producer's transactions that ended before index i did so before `offset`. */
  ghost predicate EndedBefore(log: seq<Batch>, producer: int, offset: int, i: int)
    requires i <= |log|
  {
    forall j :: 0 <= j < i && EndsTxnOf(log[j], producer) ==> log[j].lastOffset < offset
  }

  /**
   Entry `t` names the aborted transaction that the marker at m >= k ends. Its first batch, and even all its
   data, may be gone from the log.
   */
  ghost predicate Names(log: seq<Batch>, t: Txn, k: int, m: int) {
    && 0 <= k <= m < |log| && log[m].marker == AbortMarker && log[m].producerId == t.producerId
    && IsBase(log, t.firstOffset) && t.firstOffset <= log[m].baseOffset
    && EndedBefore(log, t.producerId, t.firstOffset, m)
  }

  /** Data batch `i` lies in the transaction that entry `t` names. */
  ghost predicate Reaches(log: seq<Batch>, t: Txn, i: int) {
    && 0 <= i < |log| && log[i].producerId == t.producerId && t.firstOffset <= log[i].baseOffset
    && EndedBefore(log, t.producerId, t.firstOffset, i)
  }

  /** The list that comes with log[lo..hi]: the aborted transactions that overlap it, in any order. */
  ghost predicate AbortIndex(log: seq<Batch>, lo: nat, hi: nat, txns: seq<Txn>)
    requires lo <= hi <= |log|
  {
    && (forall t :: t in txns ==> exists m :: Names(log, t, lo, m))
    && (forall i :: lo <= i < hi && InAbortedTxn(log, i) ==> exists t :: t in txns && Reaches(log, t, i))
  }

  // ---------- the invariant of the pass ----------

  /** The next end marker of the producer from k on is the abort marker at m. */
  ghost predicate OpenAborted(log: seq<Batch>, producer: int, k: int, m: int) {
    && 0 <= k <= m < |log| && log[m].marker == AbortMarker && log[m].producerId == producer
    && Unended(log, producer, k, m)
  }

  ghost predicate MarkerAfter(log: seq<Batch>, t: Txn, k: int, j: int) {
    0 <= j < k && j < |log| && EndsTxnOf(log[j], t.producerId) && t.firstOffset <= log[j].baseOffset
  }

  ghost predicate Ended(log: seq<Batch>, t: Txn, k: int) { exists j :: MarkerAfter(log, t, k, j) }

  /** Before log[k]: which transactions the queue, the set and the markers gone by account for. */
  ghost predicate Inv(log: seq<Batch>, k: nat, hi: nat, txns: seq<Txn>, queue: seq<Txn>, aborted: set<int>)
    requires k <= hi <= |log|
  {
    && Ascending(queue)
    && (forall t :: t in queue ==> exists m :: Names(log, t, k, m))
    && (forall p :: p in aborted ==> exists m :: OpenAborted(log, p, k, m))
    && (forall t :: t in txns ==> t in queue || t.producerId in aborted || Ended(log, t, k))
    && (forall t, j :: t in txns && t !in queue && k <= j < hi ==> t.firstOffset <= log[j].baseOffset)
  }

  lemma {:induction false} ConsumeUpToSplits(queue: seq<Txn>, aborted: set<int>, offset: int)
    requires Ascending(queue)
    ensures var (q, a) := ConsumeUpTo(queue, aborted, offset);
      && Ascending(q) && aborted <= a
      && (forall t :: t in q <==> t in queue && t.firstOffset > offset)
      && (forall t :: t in queue && t.firstOffset <= offset ==> t.producerId in a)
      && (forall p :: p in a ==> p in aborted || exists t :: t in queue && t.firstOffset <= offset && t.producerId == p)
    decreases |queue|
  {
    if queue != [] {
      assert queue == [queue[0]] + queue[1..];
      if queue[0].firstOffset <= offset {
        ConsumeUpToSplits(queue[1..], aborted + {queue[0].producerId}, offset);
      } else {
        assert forall t :: t in queue ==> t.firstOffset > offset;
      }
    }
  }

  /** An entry that the offsets up to log[k] have reached names a transaction that is open there. */
  lemma NamedIsOpen(log: seq<Batch>, t: Txn, k: nat, m: int)
    requires WellFormedLog(log) && k < |log| && Names(log, t, k, m) && t.firstOffset <= log[k].lastOffset
    ensures OpenAborted(log, t.producerId, k, m)
  {
    forall j | k <= j < m ensures !EndsTxnOf(log[j], t.producerId) {
      assert j > k ==> log[k].lastOffset < log[j].baseOffset;
    }
  }

  /** After the queue has been consumed up to log[k], the set holds only producers of open aborted transactions. */
  lemma SetAfterConsume(log: seq<Batch>, k: nat, hi: nat, txns: seq<Txn>, queue: seq<Txn>, aborted: set<int>)
    requires WellFormedLog(log) && k < hi <= |log| && Inv(log, k, hi, txns, queue, aborted)
    ensures forall p :: p in ConsumeUpTo(queue, aborted, log[k].lastOffset).1 ==> exists m :: OpenAborted(log, p, k, m)
  {
    ConsumeUpToSplits(queue, aborted, log[k].lastOffset);
    forall p | p in ConsumeUpTo(queue, aborted, log[k].lastOffset).1 && p !in aborted
      ensures exists m :: OpenAborted(log, p, k, m)
    {
      var t :| t in queue && t.firstOffset <= log[k].lastOffset && t.producerId == p;
      var m :| Names(log, t, k, m);
      NamedIsOpen(log, t, k, m);
    }
  }

  lemma NoMarkerSince(log: seq<Batch>, t: Txn, i: int)
    requires WellFormedLog(log) && Reaches(log, t, i)
    ensures !Ended(log, t, i)
  {
    assert forall j :: 0 <= j < |log| ==> WellFormedBatch(log[j]);
  }

  /** An aborted data batch finds its producer in the set. */
  lemma AbortedIsInSet(log: seq<Batch>, lo: nat, k: nat, hi: nat, txns: seq<Txn>, queue: seq<Txn>, aborted: set<int>)
    requires WellFormedLog(log) && lo <= k < hi <= |log| && AbortIndex(log, lo, hi, txns)
    requires Inv(log, k, hi, txns, queue, aborted)
    requires InAbortedTxn(log, k)
    ensures log[k].producerId in ConsumeUpTo(queue, aborted, log[k].lastOffset).1
  {
    ConsumeUpToSplits(queue, aborted, log[k].lastOffset);
    var t :| t in txns && Reaches(log, t, k);
    NoMarkerSince(log, t, k);
    assert WellFormedBatch(log[k]);
    assert t.firstOffset <= log[k].lastOffset;
  }

  /** A transactional data batch that finds its producer in the set is aborted. */
  lemma InSetIsAborted(log: seq<Batch>, k: nat, hi: nat, txns: seq<Txn>, queue: seq<Txn>, aborted: set<int>)
    requires WellFormedLog(log) && k < hi <= |log| && Inv(log, k, hi, txns, queue, aborted)
    requires !log[k].IsControl() && log[k].transactional
    requires log[k].producerId in ConsumeUpTo(queue, aborted, log[k].lastOffset).1
    ensures InAbortedTxn(log, k)
  {
    var p := log[k].producerId;
    SetAfterConsume(log, k, hi, txns, queue, aborted);
    var m :| OpenAborted(log, p, k, m);
    assert WellFormedBatch(log[k]);
    assert AbortedBy(log, k, m);
  }

  /** Entries still queued after log[k] name transactions that end behind it. */
  lemma QueueStep(log: seq<Batch>, k: nat, hi: nat, txns: seq<Txn>, g: Gen, next: nat)
    requires WellFormedLog(log) && k < hi <= |log| && next == k + 1
    requires Inv(log, k, hi, txns, g.txns, g.aborted)
    ensures var h := AfterHeader(g, log[k], ReadCommitted);
      Ascending(h.txns) && forall t :: t in h.txns ==> t in g.txns && exists m :: Names(log, t, next, m)
  {
    ConsumeUpToSplits(g.txns, g.aborted, log[k].lastOffset);
    var h := AfterHeader(g, log[k], ReadCommitted);
    forall t | t in h.txns ensures exists m :: Names(log, t, next, m) {
      assert t in g.txns;
      var m :| Names(log, t, k, m);
      assert WellFormedBatch(log[k]);
      assert m != k;
      assert Names(log, t, next, m);
    }
  }

  /** A producer that stays in the set is open behind log[k] too. */
  lemma SetStep(log: seq<Batch>, k: nat, hi: nat, txns: seq<Txn>, g: Gen, next: nat)
    requires WellFormedLog(log) && k < hi <= |log| && next == k + 1
    requires Inv(log, k, hi, txns, g.txns, g.aborted)
    ensures forall p :: p in AfterHeader(g, log[k], ReadCommitted).aborted ==> exists m :: OpenAborted(log, p, next, m)
  {
    SetAfterConsume(log, k, hi, txns, g.txns, g.aborted);
    assert WellFormedBatch(log[k]);
    forall p | p in AfterHeader(g, log[k], ReadCommitted).aborted ensures exists m :: OpenAborted(log, p, next, m) {
      var m :| OpenAborted(log, p, k, m);
      assert OpenAborted(log, p, next, m);
    }
  }

  /** Every entry of the list is still queued, in the set, or past its end marker. */
  lemma AccountStep(log: seq<Batch>, k: nat, hi: nat, txns: seq<Txn>, g: Gen, t: Txn)
    requires WellFormedLog(log) && k < hi <= |log|
    requires Inv(log, k, hi, txns, g.txns, g.aborted) && t in txns
    requires var h := AfterHeader(g, log[k], ReadCommitted); t !in h.txns && t.producerId !in h.aborted
    ensures Ended(log, t, k + 1)
  {
    if Ended(log, t, k) {
      var j :| MarkerAfter(log, t, k, j);
      assert MarkerAfter(log, t, k + 1, j);
    } else {
      ConsumeUpToSplits(g.txns, g.aborted, log[k].lastOffset);
      assert t.firstOffset <= log[k].baseOffset by {
        if t in g.txns { NamedBefore(log, k, t); }
      }
      assert MarkerAfter(log, t, k + 1, k);
    }
  }

  lemma NamedBefore(log: seq<Batch>, k: nat, t: Txn)
    requires WellFormedLog(log) && k < |log| && t.firstOffset <= log[k].lastOffset
    requires exists m :: Names(log, t, k, m)
    ensures t.firstOffset <= log[k].baseOffset
  {
    var m :| Names(log, t, k, m);
    assert IsBase(log, t.firstOffset);
  }

  /** Handling the header of log[k] re-establishes the invariant for k + 1. */
  lemma InvStep(log: seq<Batch>, lo: nat, k: nat, hi: nat, txns: seq<Txn>, g: Gen)
    requires WellFormedLog(log) && lo <= k < hi <= |log| && AbortIndex(log, lo, hi, txns)
    requires Inv(log, k, hi, txns, g.txns, g.aborted)
    ensures var h := AfterHeader(g, log[k], ReadCommitted); Inv(log, k + 1, hi, txns, h.txns, h.aborted)
  {
    QueueStep(log, k, hi, txns, g, k + 1);
    SetStep(log, k, hi, txns, g, k + 1);
    var h := AfterHeader(g, log[k], ReadCommitted);
    forall t | t in txns && t !in h.txns && t.producerId !in h.aborted { AccountStep(log, k, hi, txns, g, t); }
    ConsumeUpToSplits(g.txns, g.aborted, log[k].lastOffset);
  }

  // ---------- the whole pass ----------

  /** What the bare generator still yields, how it stops, and its final frame. */
  datatype Run = Run(records: seq<Record>, end: Yield, final: Gen)

  function Prepend(s: seq<Record>, r: Run): Run { r.(records := s + r.records) }

  ghost function Raw(g: Gen, iso: Isolation, checkCrcs: bool): Run
    decreases GenSize(g)
  {
    var (y, h) := Resume(g, iso, checkCrcs);
    if y.Item? then Prepend([y.record], Raw(h, iso, checkCrcs)) else Run([], y, h)
  }

  function NextAfter(current: seq<Record>, next: int): int {
    if current == [] then next else current[|current| - 1].offset + 1
  }

  /** How many of the records are unpacked before one raises. */
  function Unpackable(s: seq<Record>, checkCrcs: bool): (n: nat)
    ensures n <= |s| && (n < |s| ==> RecordFault(s[n], checkCrcs).Some?)
  {
    if s == [] || RecordFault(s[0], checkCrcs).Some? then 0 else 1 + Unpackable(s[1..], checkCrcs)
  }

  /** A batch that is not skipped is yielded record by record; `z` is the frame after the last one that does not raise. */
  lemma {:induction false} RawOfCurrent(g: Gen, z: Gen, iso: Isolation, checkCrcs: bool)
    requires var n := Unpackable(g.current, checkCrcs);
      z == g.(current := g.current[n..], next := NextAfter(g.current[..n], g.next))
    ensures var n := Unpackable(g.current, checkCrcs);
      && Raw(g, iso, checkCrcs) == Prepend(g.current[..n], Raw(z, iso, checkCrcs))
      && (n < |g.current| ==> Raw(z, iso, checkCrcs) == Run([], Raise(RecordFault(g.current[n], checkCrcs).value), z))
    decreases |g.current|
  {
    var n := Unpackable(g.current, checkCrcs);
    assert n > 0 ==> RecordFault(g.current[0], checkCrcs).None? && Unpackable(g.current[1..], checkCrcs) == n - 1;
    hide Raw, RecordFault, Unpackable;
    if n == 0 {
      assert z == g && g.current[..0] == [];
      if g.current != [] { RawStops(g, iso, checkCrcs); }
      PrependNothing(Raw(g, iso, checkCrcs));
    } else {
      var h := RawOfFirst(g, iso, checkCrcs);
      FirstAndRest(g.current, g.next, n);
      RawOfCurrent(h, z, iso, checkCrcs);
      PrependTwice([g.current[0]], h.current[..n - 1], Raw(z, iso, checkCrcs));
    }
  }

  lemma FirstAndRest(s: seq<Record>, next: int, n: nat)
    requires 0 < n <= |s|
    ensures s[1..][n - 1..] == s[n..] && s[..n] == [s[0]] + s[1..][..n - 1] && (n < |s| ==> s[1..][n - 1] == s[n])
    ensures NextAfter(s[..n], next) == NextAfter(s[1..][..n - 1], s[0].offset + 1)
  {
  }

  lemma RawStops(g: Gen, iso: Isolation, checkCrcs: bool)
    requires g.current != [] && RecordFault(g.current[0], checkCrcs).Some?
    ensures Raw(g, iso, checkCrcs) == Run([], Raise(RecordFault(g.current[0], checkCrcs).value), g)
  {
  }

  lemma PrependNothing(r: Run)
    ensures Prepend([], r) == r
  {
    assert [] + r.records == r.records;
  }

  lemma PrependTwice(s: seq<Record>, t: seq<Record>, r: Run)
    ensures Prepend(s, Prepend(t, r)) == Prepend(s + t, r)
  {
    assert s + (t + r.records) == s + t + r.records;
  }

  lemma RawOfFirst(g: Gen, iso: Isolation, checkCrcs: bool) returns (h: Gen)
    requires g.current != [] && RecordFault(g.current[0], checkCrcs).None?
    ensures h == g.(current := g.current[1..], next := g.current[0].offset + 1)
    ensures Raw(g, iso, checkCrcs) == Prepend([g.current[0]], Raw(h, iso, checkCrcs))
  {
    h := g.(current := g.current[1..], next := g.current[0].offset + 1);
  }

  /** A batch whose own checksum does not raise leads straight into its records or past it. */
  lemma RawOfBatch(g: Gen, iso: Isolation, checkCrcs: bool) returns (n: Gen)
    requires g.current == [] && g.batches != [] && (checkCrcs ==> g.batches[0].crcOk)
    ensures var b := g.batches[0]; var h := AfterHeader(g.(batches := g.batches[1..], last := Some(b)), b, iso);
      n == if Skips(h, b, iso) then h.(next := b.NextOffset()) else h.(current := b.records)
    ensures Raw(g, iso, checkCrcs) == Raw(n, iso, checkCrcs)
  {
    var b := g.batches[0];
    var h := AfterHeader(g.(batches := g.batches[1..], last := Some(b)), b, iso);
    n := if Skips(h, b, iso) then h.(next := b.NextOffset()) else h.(current := b.records);
    assert Resume(g, iso, checkCrcs) == Resume(n, iso, checkCrcs);
  }

  ghost predicate Ready(log: seq<Batch>, lo: nat, k: nat, hi: nat, iso: Isolation, txns: seq<Txn>, g: Gen)
    requires lo <= k <= hi <= |log|
  {
    && g.batches == log[k..hi] && g.current == []
    && g.last == (if k == lo then None else Some(log[k - 1]))
    && (iso == ReadCommitted ==> AbortIndex(log, lo, hi, txns) && Inv(log, k, hi, txns, g.txns, g.aborted))
  }

  /** The header of log[k] leads to the declarative decision. */
  lemma SkipsIffHidden(log: seq<Batch>, lo: nat, k: nat, hi: nat, iso: Isolation, txns: seq<Txn>, g: Gen)
    requires WellFormedLog(log) && lo <= k < hi <= |log|
    requires Ready(log, lo, k, hi, iso, txns, g)
    ensures Skips(AfterHeader(g, log[k], iso), log[k], iso) <==> !Shown(log, k, iso)
  {
    var b := log[k];
    if iso == ReadCommitted && !b.IsControl() && b.transactional {
      if InAbortedTxn(log, k) { AbortedIsInSet(log, lo, k, hi, txns, g.txns, g.aborted); }
      else if Skips(AfterHeader(g, b, iso), b, iso) { InSetIsAborted(log, k, hi, txns, g.txns, g.aborted); }
    }
  }

  lemma ReadyStep(log: seq<Batch>, lo: nat, k: nat, hi: nat, iso: Isolation, txns: seq<Txn>, g: Gen, n: Gen)
    requires WellFormedLog(log) && lo <= k < hi <= |log|
    requires Ready(log, lo, k, hi, iso, txns, g)
    requires var h := AfterHeader(g, log[k], iso);
      n == g.(batches := g.batches[1..], last := Some(log[k]), current := [],
              txns := h.txns, aborted := h.aborted, next := n.next)
    ensures Ready(log, lo, k + 1, hi, iso, txns, n)
  {
    if iso == ReadCommitted { InvStep(log, lo, k, hi, txns, g); }
  }

  // ---------- where the pass raises ----------

  predicate CleanRecords(s: seq<Record>, checkCrcs: bool) { forall i :: 0 <= i < |s| ==> s[i].readable && (checkCrcs ==> s[i].crcOk) }

  /** The exception of the first of the records that raises when it is unpacked. */
  function FaultIn(s: seq<Record>, checkCrcs: bool): Option<Fault> {
    if s == [] then None
    else if checkCrcs && !s[0].crcOk then Some(RecordCrc(s[0].offset))
    else if !s[0].readable then Some(Unreadable(s[0].offset))
    else FaultIn(s[1..], checkCrcs)
  }

  /** Nothing of the batch raises: hidden batches are not unpacked. */
  ghost predicate CleanBatch(log: seq<Batch>, i: int, iso: Isolation, checkCrcs: bool)
    requires 0 <= i < |log|
  {
    (checkCrcs ==> log[i].crcOk) && (Shown(log, i, iso) ==> CleanRecords(log[i].records, checkCrcs))
  }

  ghost predicate Clean(log: seq<Batch>, lo: int, hi: int, iso: Isolation, checkCrcs: bool)
    requires 0 <= lo && hi <= |log|
  {
    forall i :: lo <= i < hi ==> CleanBatch(log, i, iso, checkCrcs)
  }

  /** The first fault of the slice: of a checksum, or of a record that is to be shown. */
  ghost function FaultOf(log: seq<Batch>, k: nat, hi: nat, iso: Isolation, checkCrcs: bool): Option<Fault>
    requires k <= hi <= |log|
    decreases hi - k
  {
    if k == hi then None
    else if checkCrcs && !log[k].crcOk then Some(BatchCrc(log[k].baseOffset))
    else if Shown(log, k, iso) && FaultIn(log[k].records, checkCrcs).Some? then FaultIn(log[k].records, checkCrcs)
    else FaultOf(log, k + 1, hi, iso, checkCrcs)
  }

  lemma {:induction false} UnpackableUpToFault(s: seq<Record>, checkCrcs: bool)
    ensures var n := Unpackable(s, checkCrcs);
      FaultIn(s, checkCrcs) == if n < |s| then RecordFault(s[n], checkCrcs) else None
  {
    if s != [] { UnpackableUpToFault(s[1..], checkCrcs); }
  }

  lemma {:induction false} NoFaultIffClean(s: seq<Record>, checkCrcs: bool)
    ensures FaultIn(s, checkCrcs).None? <==> CleanRecords(s, checkCrcs)
  {
    if s != [] {
      NoFaultIffClean(s[1..], checkCrcs);
      if CleanRecords(s[1..], checkCrcs) && s[0].readable && (checkCrcs ==> s[0].crcOk) {
        forall i | 0 <= i < |s| ensures s[i].readable && (checkCrcs ==> s[i].crcOk) { assert i > 0 ==> s[i] == s[1..][i - 1]; }
      }
    }
  }

  lemma {:induction false} NoneRaisesIffClean(log: seq<Batch>, k: nat, hi: nat, iso: Isolation, checkCrcs: bool)
    requires k <= hi <= |log|
    ensures FaultOf(log, k, hi, iso, checkCrcs).None? <==> Clean(log, k, hi, iso, checkCrcs)
    decreases hi - k
  {
    if k < hi {
      NoFaultIffClean(log[k].records, checkCrcs);
      NoneRaisesIffClean(log, k + 1, hi, iso, checkCrcs);
      CleanStep(log, k, hi, iso, checkCrcs);
      hide Clean;
    }
  }

  lemma FaultStep(log: seq<Batch>, k: nat, hi: nat, iso: Isolation, checkCrcs: bool)
    requires k < hi <= |log| && (checkCrcs ==> log[k].crcOk)
    ensures FaultOf(log, k, hi, iso, checkCrcs) ==
              if Shown(log, k, iso) && FaultIn(log[k].records, checkCrcs).Some? then FaultIn(log[k].records, checkCrcs)
              else FaultOf(log, k + 1, hi, iso, checkCrcs)
  {
  }

  /** `records` are those of `v` below the offset `next`. */
  ghost predicate CutAt(v: seq<Record>, records: seq<Record>, next: int) {
    && records <= v
    && (forall i :: 0 <= i < |records| ==> v[i].offset < next)
    && (forall i :: |records| <= i < |v| ==> next <= v[i].offset)
  }

  /** What a pass from `next` on may have come to: all of it; or, if it raised, what lies below where it stopped. */
  ghost predicate Passed(log: seq<Batch>, k: nat, hi: nat, iso: Isolation, checkCrcs: bool, next: int, run: Run)
    requires k <= hi <= |log|
  {
    var v, end := Visible(log, k, hi, iso), run.final.next;
    && !run.end.Item?
    && run.end == EndOf(FaultOf(log, k, hi, iso, checkCrcs))
    && (run.end.Stop? ==> run.records == v)
    && (run.end.Raise? ==> k < hi && ((run.records == [] && end == next) || (CutAt(v, run.records, end) && end <= log[hi - 1].NextOffset())))
    && (run.end.Raise? && next <= log[k].baseOffset ==> next <= end)
  }

  function EndOf(fault: Option<Fault>): Yield { if fault.Some? then Raise(fault.value) else Stop }

  /** A cut inside the records before `v`. */
  lemma CutInside(records: seq<Record>, v: seq<Record>, n: nat)
    requires Increasing(records) && 0 < n < |records|
    requires forall i, j :: 0 <= i < |records| && 0 <= j < |v| ==> records[i].offset < v[j].offset
    ensures CutAt(records + v, records[..n], records[n - 1].offset + 1)
  {
    var w := records + v;
    forall i | n <= i < |w| ensures records[n - 1].offset < w[i].offset {
      assert w[i] == if i < |records| then records[i] else v[i - |records|];
    }
  }

  /** A cut behind them. */
  lemma CutBehind(records: seq<Record>, v: seq<Record>, kept: seq<Record>, next: int)
    requires CutAt(v, kept, next) && forall i :: 0 <= i < |records| ==> records[i].offset < next
    ensures CutAt(records + v, records + kept, next)
  {
    var w, n := records + v, |records| + |kept|;
    forall i | n <= i < |w| ensures next <= w[i].offset { assert w[i] == v[i - |records|]; }
    forall i | 0 <= i < n ensures w[i].offset < next { assert w[i] == if i < |records| then records[i] else v[i - |records|]; }
    assert w[..n] == records + kept;
  }

  predicate AllBehind(s: seq<Record>, offset: int) { forall i :: 0 <= i < |s| ==> offset < s[i].offset }

  /** A batch's records end before those that are visible behind it. */
  lemma BatchThenVisible(log: seq<Batch>, k: nat, hi: nat, iso: Isolation)
    requires WellFormedLog(log) && k < hi <= |log|
    ensures Increasing(log[k].records) && log[k].lastOffset <= log[hi - 1].lastOffset
    ensures k + 1 < hi ==> log[k].NextOffset() <= log[k + 1].baseOffset
    ensures forall i :: 0 <= i < |log[k].records| ==> log[k].baseOffset <= log[k].records[i].offset <= log[k].lastOffset
    ensures AllBehind(Visible(log, k + 1, hi, iso), log[k].lastOffset)
    ensures Visible(log, k, hi, iso) == (if Shown(log, k, iso) then log[k].records else []) + Visible(log, k + 1, hi, iso)
  {
    assert WellFormedBatch(log[k]);
    VisibleIncreases(log, k + 1, hi, iso);
  }

  /** A batch that is skipped. */
  lemma PassedOver(log: seq<Batch>, k: nat, hi: nat, iso: Isolation, checkCrcs: bool, next: int, run: Run)
    requires WellFormedLog(log) && k < hi <= |log| && !Shown(log, k, iso) && (checkCrcs ==> log[k].crcOk)
    requires Passed(log, k + 1, hi, iso, checkCrcs, log[k].NextOffset(), run)
    ensures Passed(log, k, hi, iso, checkCrcs, next, run)
  {
    BatchThenVisible(log, k, hi, iso);
    FaultStep(log, k, hi, iso, checkCrcs);
    hide Visible, FaultOf, FaultIn, Shown, WellFormedLog, Increasing, CutAt;
    var v := Visible(log, k + 1, hi, iso);
    assert [] + v == v;
    if run.end.Raise? && !CutAt(v, run.records, run.final.next) { CutNone(v, run.final.next); }
  }

  lemma CleanStep(log: seq<Batch>, k: nat, hi: nat, iso: Isolation, checkCrcs: bool)
    requires k < hi <= |log|
    ensures Clean(log, k, hi, iso, checkCrcs) <==> CleanBatch(log, k, iso, checkCrcs) && Clean(log, k + 1, hi, iso, checkCrcs)
    ensures !Shown(log, k, iso) && (checkCrcs ==> log[k].crcOk) ==> CleanBatch(log, k, iso, checkCrcs)
  {
  }

  /** A batch that is unpacked to its end; `rest` is the pass behind it. */
  lemma PassedThrough(log: seq<Batch>, k: nat, hi: nat, iso: Isolation, checkCrcs: bool, next: int, rest: Run)
    requires WellFormedLog(log) && k < hi <= |log| && Shown(log, k, iso)
    requires (checkCrcs ==> log[k].crcOk) && FaultIn(log[k].records, checkCrcs).None?
    requires Passed(log, k + 1, hi, iso, checkCrcs, NextAfter(log[k].records, next), rest)
    ensures Passed(log, k, hi, iso, checkCrcs, next, Prepend(log[k].records, rest))
  {
    BatchThenVisible(log, k, hi, iso);
    FaultStep(log, k, hi, iso, checkCrcs);
    hide Visible, FaultOf, FaultIn, Shown, WellFormedLog, Increasing, CutAt;
    var records, v := log[k].records, Visible(log, k + 1, hi, iso);
    if records == [] {
      PrependNothing(rest);
      assert records + v == v;
    } else if rest.end.Raise? {
      if CutAt(v, rest.records, rest.final.next) {
        CutBehind(records, v, rest.records, rest.final.next);
      } else {
        CutNone(v, rest.final.next);
        CutBehind(records, v, [], rest.final.next);
      }
    }
  }

  lemma CutNone(v: seq<Record>, next: int)
    requires forall i :: 0 <= i < |v| ==> next <= v[i].offset
    ensures CutAt(v, [], next)
  {
  }

  /** A batch in which the n-th record raises. */
  lemma PassedInto(log: seq<Batch>, k: nat, hi: nat, iso: Isolation, checkCrcs: bool, next: int, n: nat, run: Run)
    requires WellFormedLog(log) && k < hi <= |log| && Shown(log, k, iso)
    requires (checkCrcs ==> log[k].crcOk) && FaultIn(log[k].records, checkCrcs).Some?
    requires n < |log[k].records| && run.records == log[k].records[..n] && run.end == EndOf(FaultIn(log[k].records, checkCrcs))
    requires run.final.next == NextAfter(log[k].records[..n], next)
    ensures Passed(log, k, hi, iso, checkCrcs, next, run)
  {
    BatchThenVisible(log, k, hi, iso);
    FaultStep(log, k, hi, iso, checkCrcs);
    hide Visible, FaultOf, FaultIn, Shown, WellFormedLog, Increasing, CutAt;
    if n > 0 { CutInside(log[k].records, Visible(log, k + 1, hi, iso), n); }
  }

  /** A batch whose checksum raises. */
  lemma PassedNone(log: seq<Batch>, k: nat, hi: nat, iso: Isolation, checkCrcs: bool, run: Run)
    requires k < hi <= |log| && checkCrcs && !log[k].crcOk && run.records == [] && run.end == Raise(BatchCrc(log[k].baseOffset))
    ensures Passed(log, k, hi, iso, checkCrcs, run.final.next, run)
  {
    hide Visible;
  }

  lemma {:induction false} RawIsVisible(log: seq<Batch>, lo: nat, k: nat, hi: nat, iso: Isolation, checkCrcs: bool,
                                        txns: seq<Txn>, g: Gen)
    requires WellFormedLog(log) && lo <= k <= hi <= |log|
    requires Ready(log, lo, k, hi, iso, txns, g)
    ensures var run := Raw(g, iso, checkCrcs);
      && Passed(log, k, hi, iso, checkCrcs, g.next, run)
      && (run.end.Stop? ==> run.final.next == if lo < hi then log[hi - 1].NextOffset() else g.next)
    decreases hi - k, 1
  {
    hide Passed, Shown;
    if k == hi {
      NothingPassed(log, hi, iso, checkCrcs, g);
    } else if checkCrcs && !log[k].crcOk {
      PassedNone(log, k, hi, iso, checkCrcs, Raw(g, iso, checkCrcs));
    } else {
      if Shown(log, k, iso) { RawThroughBatch(log, lo, k, hi, iso, checkCrcs, txns, g); }
      else { RawOverBatch(log, lo, k, hi, iso, checkCrcs, txns, g); }
    }
  }

  lemma NothingPassed(log: seq<Batch>, hi: nat, iso: Isolation, checkCrcs: bool, g: Gen)
    requires hi <= |log| && g.current == [] && g.batches == []
    ensures Passed(log, hi, hi, iso, checkCrcs, g.next, Raw(g, iso, checkCrcs))
  {
  }

  lemma {:induction false} RawOverBatch(log: seq<Batch>, lo: nat, k: nat, hi: nat, iso: Isolation, checkCrcs: bool,
                                        txns: seq<Txn>, g: Gen)
    requires WellFormedLog(log) && lo <= k < hi <= |log|
    requires Ready(log, lo, k, hi, iso, txns, g) && (checkCrcs ==> log[k].crcOk)
    requires !Shown(log, k, iso)
    ensures var run := Raw(g, iso, checkCrcs);
      && Passed(log, k, hi, iso, checkCrcs, g.next, run)
      && (run.end.Stop? ==> run.final.next == log[hi - 1].NextOffset())
    decreases hi - k, 0
  {
    SkipsIffHidden(log, lo, k, hi, iso, txns, g);
    var n := RawOfBatch(g, iso, checkCrcs);
    assert log[k..hi][1..] == log[k + 1..hi];
    hide Passed, Shown, Raw;
    ReadyStep(log, lo, k, hi, iso, txns, g, n);
    hide Ready, WellFormedLog, AfterHeader;
    RawIsVisible(log, lo, k + 1, hi, iso, checkCrcs, txns, n);
    PassedOver(log, k, hi, iso, checkCrcs, g.next, Raw(n, iso, checkCrcs));
  }

  /** A batch that is not skipped, up to its end or to the first record that raises. */
  lemma RawOfShown(g: Gen, iso: Isolation, checkCrcs: bool) returns (z: Gen)
    requires g.current == [] && g.batches != [] && (checkCrcs ==> g.batches[0].crcOk)
    requires !Skips(AfterHeader(g, g.batches[0], iso), g.batches[0], iso)
    ensures var b := g.batches[0]; var h, n := AfterHeader(g, b, iso), Unpackable(b.records, checkCrcs);
      && z == g.(batches := g.batches[1..], last := Some(b), current := b.records[n..], txns := h.txns, aborted := h.aborted,
                 next := NextAfter(b.records[..n], g.next))
      && Raw(g, iso, checkCrcs) == Prepend(b.records[..n], Raw(z, iso, checkCrcs))
      && (n < |b.records| ==> Raw(z, iso, checkCrcs) == Run([], Raise(RecordFault(b.records[n], checkCrcs).value), z))
  {
    var b := g.batches[0];
    var n := RawOfBatch(g, iso, checkCrcs);
    var m := Unpackable(b.records, checkCrcs);
    z := n.(current := b.records[m..], next := NextAfter(b.records[..m], g.next));
    hide Raw, Unpackable;
    RawOfCurrent(n, z, iso, checkCrcs);
  }

  lemma {:induction false} RawThroughBatch(log: seq<Batch>, lo: nat, k: nat, hi: nat, iso: Isolation, checkCrcs: bool,
                                           txns: seq<Txn>, g: Gen)
    requires WellFormedLog(log) && lo <= k < hi <= |log|
    requires Ready(log, lo, k, hi, iso, txns, g) && (checkCrcs ==> log[k].crcOk)
    requires Shown(log, k, iso)
    ensures var run := Raw(g, iso, checkCrcs);
      && Passed(log, k, hi, iso, checkCrcs, g.next, run)
      && (run.end.Stop? ==> run.final.next == log[hi - 1].NextOffset())
    decreases hi - k, 0
  {
    SkipsIffHidden(log, lo, k, hi, iso, txns, g);
    assert log[k..hi][1..] == log[k + 1..hi];
    hide Passed, Shown, FaultIn, Raw, Unpackable, Skips;
    var records := log[k].records;
    var z := RawOfShown(g, iso, checkCrcs);
    var m := Unpackable(records, checkCrcs);
    UnpackableUpToFault(records, checkCrcs);
    if m < |records| {
      hide Ready, WellFormedLog, AfterHeader;
      assert records[..m] + [] == records[..m];
      PassedInto(log, k, hi, iso, checkCrcs, g.next, m, Raw(g, iso, checkCrcs));
    } else {
      assert records[..m] == records && z.current == [];
      ReadyStep(log, lo, k, hi, iso, txns, g, z);
      hide Ready, WellFormedLog, AfterHeader;
      RawIsVisible(log, lo, k + 1, hi, iso, checkCrcs, txns, z);
      PassedThrough(log, k, hi, iso, checkCrcs, g.next, Raw(z, iso, checkCrcs));
    }
  }

  // ---------- dropwhile ----------

  lemma {:induction false} RestIsDroppedRaw(p: Part)
    requires p.status == Live
    ensures var run := Raw(p.gen, p.iso, p.checkCrcs);
      && Rest(p).records == (if p.dropping then DropBelow(run.records, p.fetchOffset) else run.records)
      && Rest(p).end == run.end && Rest(p).part.gen == run.final
    decreases GenSize(p.gen)
  {
    var (y, g) := Resume(p.gen, p.iso, p.checkCrcs);
    if y.Item? {
      var records := Raw(g, p.iso, p.checkCrcs).records;
      assert ([y.record] + records)[1..] == records;
      if p.dropping && y.record.offset < p.fetchOffset {
        RestIsDroppedRaw(p.(gen := g));
        assert Next(p) == Next(p.(gen := g));
      } else {
        RestIsDroppedRaw(p.(gen := g, dropping := false));
      }
    }
  }

  lemma {:induction false} VisibleIncreases(log: seq<Batch>, k: nat, hi: nat, iso: Isolation)
    requires WellFormedLog(log) && k <= hi <= |log|
    ensures Increasing(Visible(log, k, hi, iso))
    ensures forall i :: 0 <= i < |Visible(log, k, hi, iso)| ==> k < hi && log[k].baseOffset <= Visible(log, k, hi, iso)[i].offset
    decreases hi - k
  {
    if k < hi { VisibleIncreases(log, k + 1, hi, iso); }
  }

  /** What a reader from `fetchOffset` on gets of what a pass came to. */
  ghost predicate Filtered(log: seq<Batch>, lo: nat, hi: nat, iso: Isolation, checkCrcs: bool, fetchOffset: int, s: Stream)
    requires lo <= hi <= |log|
  {
    var v, next := Visible(log, lo, hi, iso), s.part.gen.next;
    && s.end == EndOf(FaultOf(log, lo, hi, iso, checkCrcs)) && (s.end == Stop <==> Clean(log, lo, hi, iso, checkCrcs))
    && (s.end == Stop ==>
         && s.records == AtOrAfter(v, fetchOffset) && s.part.status == Drained
         && next == if lo < hi then log[hi - 1].NextOffset() else fetchOffset)
    && (s.end != Stop ==>
         && s.end.Raise? && s.part.status == Dead && lo < hi
         && (s.records != [] ==> s.records == Between(v, fetchOffset, next) && fetchOffset <= next <= log[hi - 1].NextOffset()))
  }

  lemma CutIsBetween(v: seq<Record>, records: seq<Record>, lo: int, hi: int)
    requires CutAt(v, records, hi)
    ensures AtOrAfter(records, lo) == Between(v, lo, hi)
    ensures AtOrAfter(records, lo) != [] ==> lo <= hi
  {
    var behind := v[|records|..];
    assert v == records + behind;
    BetweenConcat(records, behind, lo, hi);
    BetweenIsAtOrAfter(records, lo, hi);
    NoneBetween(behind, lo, hi);
    Associates(Between(records, lo, hi), [], []);
    if AtOrAfter(records, lo) != [] { WithinBounds(records, lo, hi, 0); }
    hide Between, AtOrAfter;
  }

  lemma CutIncreases(v: seq<Record>, records: seq<Record>, next: int)
    requires Increasing(v) && CutAt(v, records, next)
    ensures Increasing(records)
  {
  }

  /** What lies below the fetch offset is dropped from the pass. */
  lemma DroppedIsFiltered(log: seq<Batch>, lo: nat, hi: nat, iso: Isolation, checkCrcs: bool, fetchOffset: int, run: Run, s: Stream)
    requires WellFormedLog(log) && lo <= hi <= |log| && Passed(log, lo, hi, iso, checkCrcs, fetchOffset, run)
    requires s.records == DropBelow(run.records, fetchOffset) && s.end == run.end && s.part.gen == run.final
    requires s.part.status == if s.end.Stop? then Drained else Dead
    requires s.end.Stop? ==> s.part.gen.next == if lo < hi then log[hi - 1].NextOffset() else fetchOffset
    ensures Filtered(log, lo, hi, iso, checkCrcs, fetchOffset, s)
  {
    var v := Visible(log, lo, hi, iso);
    VisibleIncreases(log, lo, hi, iso);
    NoneRaisesIffClean(log, lo, hi, iso, checkCrcs);
    hide Visible, FaultOf, Clean, AtOrAfter, Between, CutAt, Increasing;
    if run.end.Stop? {
      DropBelowIsAtOrAfter(v, fetchOffset);
    } else if CutAt(v, run.records, run.final.next) {
      CutIncreases(v, run.records, run.final.next);
      DropBelowIsAtOrAfter(run.records, fetchOffset);
      CutIsBetween(v, run.records, fetchOffset, run.final.next);
    }
  }

  /**
   For every slice of every well-formed log and its abort list in any order: the filter raises exactly if the checksum
   of a batch or a record of a visible batch does, and then with the first such fault. If not, it gives exactly the
   visible records at or after the fetch offset, in order, and ends drained with the position just past the last batch of
   the slice. If it does, what it has given by then are exactly those that lie below the position.
   */
  lemma FilterIsExact(log: seq<Batch>, lo: nat, hi: nat, iso: Isolation, checkCrcs: bool, txns: seq<Txn>, fetchOffset: int)
    requires WellFormedLog(log) && lo <= hi <= |log|
    requires iso == ReadCommitted ==> AbortIndex(log, lo, hi, txns)
    ensures Filtered(log, lo, hi, iso, checkCrcs, fetchOffset, Rest(Opened(fetchOffset, log[lo..hi], iso, checkCrcs, txns)))
  {
    var p := Opened(fetchOffset, log[lo..hi], iso, checkCrcs, txns);
    SortedTxnsSorts(txns);
    forall t ensures t in p.gen.txns <==> t in txns {
      assert t in multiset(p.gen.txns) <==> t in multiset(txns);
    }
    RawIsVisible(log, lo, lo, hi, iso, checkCrcs, txns, p.gen);
    RestIsDroppedRaw(p);
    RestEnds(p);
    hide Visible, Raw, Rest, Passed, Filtered, DropBelow, AbortIndex, FaultOf;
    DroppedIsFiltered(log, lo, hi, iso, checkCrcs, fetchOffset, Raw(p.gen, iso, checkCrcs), Rest(p));
  }

  /** When every checksum is right and every record can be read, nothing raises. */
  lemma SoundIsClean(log: seq<Batch>, lo: nat, hi: nat, iso: Isolation, checkCrcs: bool)
    requires Sound(log) && lo <= hi <= |log|
    ensures Clean(log, lo, hi, iso, checkCrcs)
  {
  }

  // ---------- batches of before version 2 ----------

  /** No offsets are passed over, nobody's transactions are known, and no batch is a control batch. */
  predicate Old(batches: seq<Batch>) {
    forall i :: 0 <= i < |batches| ==> batches[i].magic < 2 && batches[i].crcOk && SoundOld(batches[i].records)
  }

  predicate SoundOld(records: seq<Record>) { forall i :: 0 <= i < |records| ==> records[i].crcOk && records[i].readable }

  function AllRecords(batches: seq<Batch>): seq<Record> {
    if batches == [] then [] else batches[0].records + AllRecords(batches[1..])
  }

  lemma {:induction false} RawOfOld(g: Gen, iso: Isolation, checkCrcs: bool)
    requires g.current == [] && Old(g.batches) && (g.last.Some? ==> g.last.value.magic < 2)
    ensures var run := Raw(g, iso, checkCrcs); var all := AllRecords(g.batches);
      run.records == all && run.end == Stop && run.final.next == NextAfter(all, g.next)
    decreases |g.batches|
  {
    if g.batches != [] {
      var b := g.batches[0];
      var z := RawOfShown(g, iso, checkCrcs);
      NoFaultIffClean(b.records, checkCrcs);
      UnpackableUpToFault(b.records, checkCrcs);
      assert b.records[..|b.records|] == b.records;
      RawOfOld(z, iso, checkCrcs);
      LastOfBoth(b.records, AllRecords(g.batches[1..]), g.next);
      hide Raw, Unpackable, FaultIn;
    }
  }

  lemma LastOfBoth(s: seq<Record>, t: seq<Record>, next: int)
    ensures NextAfter(s + t, next) == NextAfter(t, NextAfter(s, next))
  {
  }

  /** Whatever the isolation level, all their records are given, from the first that is not below the fetch offset on. */
  lemma OldBatchesPassThrough(fetchOffset: int, batches: seq<Batch>, iso: Isolation, checkCrcs: bool, txns: seq<Txn>)
    requires Old(batches)
    ensures var s := Rest(Opened(fetchOffset, batches, iso, checkCrcs, txns)); var all := AllRecords(batches);
      s.records == DropBelow(all, fetchOffset) && s.end == Stop && s.part.gen.next == NextAfter(all, fetchOffset)
  {
    var p := Opened(fetchOffset, batches, iso, checkCrcs, txns);
    RawOfOld(p.gen, iso, checkCrcs);
    RestIsDroppedRaw(p);
  }
}
