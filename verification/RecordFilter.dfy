/**
 The streaming record filter of one fetched partition (`PartitionRecords` in fetcher.py).

 A generator unpacks batches one at a time, drops control batches and, under read_committed, the
 batches of aborted transactions; `take` pulls a bounded number of records out of it. This module says
 what one resumption of the generator does, as functions on values; the class in PartitionRecords.dfy is
 proved to compute them, and ReadCommitted.dfy compares the one-pass filter with a definition of "lies in
 an aborted transaction" that looks ahead in the log for the end marker.
 */
module RecordFilter {
  import opened Wrappers

  datatype Isolation = ReadUncommitted | ReadCommitted

  datatype Marker = NoMarker | CommitMarker | AbortMarker

  /** `readable` is false when parsing or deserialising the record raises. */
  datatype Record = Record(offset: int, value: string, crcOk: bool, readable: bool)

  datatype Batch = Batch(magic: int, baseOffset: int, lastOffset: int, producerId: int,
                         transactional: bool, marker: Marker, crcOk: bool, records: seq<Record>)
  {
    predicate IsControl() { marker != NoMarker }
    predicate HasProducerId() { producerId > -1 }
    function NextOffset(): int { lastOffset + 1 }
  }

  datatype Txn = Txn(producerId: int, firstOffset: int)

  /** NotIterable is the TypeError of taking from a part that has been drained. */
  datatype Fault = BatchCrc(baseOffset: int) | RecordCrc(offset: int) | Unreadable(offset: int) | NotIterable

  // ---------- the generator, as a value ----------

  /** The frame of the suspended generator together with the fields that it updates. */
  datatype Gen = Gen(batches: seq<Batch>, current: seq<Record>, last: Option<Batch>,
                     txns: seq<Txn>, aborted: set<int>, next: int)

  datatype Yield = Item(record: Record) | Stop | Raise(fault: Fault)

  function ConsumeUpTo(txns: seq<Txn>, aborted: set<int>, offset: int): (seq<Txn>, set<int>)
  {
    if |txns| > 0 && txns[0].firstOffset <= offset
    then ConsumeUpTo(txns[1..], aborted + {txns[0].producerId}, offset)
    else (txns, aborted)
  }

  predicate Filters(b: Batch, iso: Isolation) {
    b.magic == 2 && iso == ReadCommitted && b.HasProducerId()
  }

  /** The queue and the aborted-producer set once the header of `b` has been handled. */
  function AfterHeader(g: Gen, b: Batch, iso: Isolation): (r: Gen)
    ensures r == g.(txns := r.txns, aborted := r.aborted)
  {
    if Filters(b, iso) then
      var (txns, aborted) := ConsumeUpTo(g.txns, g.aborted, b.lastOffset);
      g.(txns := txns, aborted := if b.marker == AbortMarker then aborted - {b.producerId} else aborted)
    else g
  }

  predicate Skips(g: Gen, b: Batch, iso: Isolation) {
    b.magic == 2 && (b.IsControl() || (Filters(b, iso) && b.transactional && b.producerId in g.aborted))
  }

  function RecordFault(r: Record, checkCrcs: bool): Option<Fault> {
    if checkCrcs && !r.crcOk then Some(RecordCrc(r.offset))
    else if !r.readable then Some(Unreadable(r.offset))
    else None
  }

  function Size(batches: seq<Batch>): nat {
    if batches == [] then 0 else 1 + |batches[0].records| + Size(batches[1..])
  }

  function GenSize(g: Gen): nat { |g.current| + Size(g.batches) }

  /** Run the generator to its next yield, its end or its first exception. */
  function Resume(g: Gen, iso: Isolation, checkCrcs: bool): (r: (Yield, Gen))
    ensures r.0.Item? ==> GenSize(r.1) < GenSize(g)
    decreases |g.batches|
  {
    if g.current != [] then
      var fault := RecordFault(g.current[0], checkCrcs);
      if fault.Some? then (Raise(fault.value), g)
      else (Item(g.current[0]), g.(current := g.current[1..], next := g.current[0].offset + 1))
    else if g.batches == [] then
      (Stop, if g.last.Some? && g.last.value.magic == 2 then g.(next := g.last.value.NextOffset()) else g)
    else
      var b := g.batches[0];
      if checkCrcs && !b.crcOk then (Raise(BatchCrc(b.baseOffset)), g.(last := Some(b)))
      else
        var h := AfterHeader(g.(batches := g.batches[1..], last := Some(b)), b, iso);
        if Skips(h, b, iso) then Resume(h.(next := b.NextOffset()), iso, checkCrcs)
        else Resume(h.(current := b.records), iso, checkCrcs)
  }

  // ---------- PartitionRecords, as a value ----------

  /** Live: can be resumed. Dead: the generator raised, but the iterator is still set. */
  datatype Status = Live | Dead | Drained

  datatype Part = Part(fetchOffset: int, iso: Isolation, checkCrcs: bool,
                       gen: Gen, dropping: bool, status: Status, pending: Option<Fault>)

  function Drain(p: Part): Part {
    if p.status == Drained then p else p.(status := Drained, pending := None)
  }

  /** One step of `dropwhile(_maybe_skip_record, generator)`. */
  function Next(p: Part): (r: (Yield, Part))
    ensures r.0.Item? ==> GenSize(r.1.gen) < GenSize(p.gen)
    decreases GenSize(p.gen)
  {
    if p.status != Live then (Stop, p)
    else
      var (y, g) := Resume(p.gen, p.iso, p.checkCrcs);
      match y
      case Item(r) =>
        if p.dropping && r.offset < p.fetchOffset then Next(p.(gen := g))
        else (y, p.(gen := g, dropping := false))
      case Stop => (y, Drain(p.(gen := g)))
      case Raise(f) => (y, p.(gen := g, status := Dead))
  }

  datatype Taken = Took(records: seq<Record>, part: Part) | Threw(fault: Fault, part: Part)

  /** `list.extend(islice(record_iterator, 0, n))` after `acc` has been collected. */
  function Pull(p: Part, n: nat, acc: seq<Record>): Taken
    decreases n
  {
    if n == 0 then Took(acc, p)
    else
      var (y, q) := Next(p);
      match y
      case Item(r) => Pull(q, n - 1, acc + [r])
      case Stop => Took(acc, q)
      case Raise(f) => if acc == [] then Threw(f, q) else Took(acc, q.(pending := Some(f)))
  }

  function Take(p: Part, n: nat): Taken {
    if p.pending.Some? then Threw(p.pending.value, p.(pending := None))
    else if p.status == Drained then Threw(NotIterable, p)
    else Pull(p, n, [])
  }

  // ---------- sorting the aborted-transaction list ----------

  function Insert(t: Txn, s: seq<Txn>): seq<Txn> {
    if s == [] || t.firstOffset < s[0].firstOffset then [t] + s else [s[0]] + Insert(t, s[1..])
  }

  function SortedTxns(s: seq<Txn>): seq<Txn> {
    if s == [] then [] else Insert(s[|s| - 1], SortedTxns(s[..|s| - 1]))
  }

  predicate Ascending(s: seq<Txn>) {
    forall i, j :: 0 <= i < j < |s| ==> s[i].firstOffset <= s[j].firstOffset
  }

  lemma {:induction false} InsertKeepsElements(t: Txn, s: seq<Txn>)
    ensures multiset(Insert(t, s)) == multiset(s) + multiset{t}
  {
    if s != [] && s[0].firstOffset <= t.firstOffset {
      InsertKeepsElements(t, s[1..]);
      assert s == [s[0]] + s[1..];
    }
  }

  lemma {:induction false} InsertKeeps(t: Txn, s: seq<Txn>)
    requires Ascending(s)
    ensures Ascending(Insert(t, s)) && multiset(Insert(t, s)) == multiset(s) + multiset{t}
  {
    InsertKeepsElements(t, s);
    if s != [] && s[0].firstOffset <= t.firstOffset {
      InsertKeeps(t, s[1..]);
      var r := Insert(t, s[1..]);
      forall k | 0 <= k < |r| ensures s[0].firstOffset <= r[k].firstOffset {
        assert r[k] in multiset(r);
      }
    }
  }

  /** `sorted(..., key=first_offset)` keeps every entry and puts them in order. */
  lemma {:induction false} SortedTxnsSorts(s: seq<Txn>)
    ensures Ascending(SortedTxns(s)) && multiset(SortedTxns(s)) == multiset(s)
  {
    if s != [] {
      SortedTxnsSorts(s[..|s| - 1]);
      InsertKeeps(s[|s| - 1], SortedTxns(s[..|s| - 1]));
      assert s == s[..|s| - 1] + [s[|s| - 1]];
    }
  }

  function Opened(fetchOffset: int, batches: seq<Batch>, iso: Isolation, checkCrcs: bool, txns: seq<Txn>): Part {
    Part(fetchOffset, iso, checkCrcs,
         Gen(batches, [], None, SortedTxns(txns), {}, fetchOffset), true, Live, None)
  }

  // ---------- takes partition the stream ----------

  /** Everything the iterator still has to give, and the state in which it ends. */
  datatype Stream = Stream(records: seq<Record>, end: Yield, part: Part)

  ghost function Rest(p: Part): (s: Stream)
    ensures !s.end.Item?
    decreases GenSize(p.gen)
  {
    var (y, q) := Next(p);
    if y.Item? then var s := Rest(q); s.(records := [y.record] + s.records) else Stream([], y, q)
  }

  /** A pull of n, when n are left, hands out exactly the next n records and leaves the others. */
  lemma {:induction false} PullHandsOutPrefix(p: Part, n: nat, acc: seq<Record>)
    requires p.pending == None && n <= |Rest(p).records|
    ensures var all := Rest(p); var r := Pull(p, n, acc);
      && r.Took? && r.records == acc + all.records[..n] && r.part.pending == None
      && Rest(r.part) == Stream(all.records[n..], all.end, all.part)
    decreases n
  {
    var all := Rest(p).records;
    if n == 0 {
      assert acc + all[..0] == acc && all[0..] == all;
    } else {
      var (y, q) := Next(p);
      NextKeepsPending(p);
      var rest := Rest(q).records;
      assert y.Item? && all == [y.record] + rest;
      PullHandsOutPrefix(q, n - 1, acc + [y.record]);
      assert acc + [y.record] + rest[..n - 1] == acc + all[..n];
      assert rest[n - 1..] == all[n..];
    }
  }

  /** What a pull of more than is left gives: everything, then the end or the stored exception. */
  function Outcome(all: Stream, acc: seq<Record>): Taken
    requires !all.end.Item?
  {
    var records := acc + all.records;
    if all.end.Stop? then Took(records, all.part)
    else if records == [] then Threw(all.end.fault, all.part)
    else Took(records, all.part.(pending := Some(all.end.fault)))
  }

  lemma {:induction false} PullHandsOutAll(p: Part, n: nat, acc: seq<Record>)
    requires p.pending == None && n > |Rest(p).records|
    ensures Pull(p, n, acc) == Outcome(Rest(p), acc)
    decreases n
  {
    var (y, q) := Next(p);
    if y.Item? {
      NextKeepsPending(p);
      PullHandsOutAll(q, n - 1, acc + [y.record]);
      assert acc + [y.record] + Rest(q).records == acc + Rest(p).records;
    } else {
      assert acc + [] == acc;
    }
  }

  lemma NextKeepsPending(p: Part)
    requires p.pending == None
    ensures Next(p).1.pending == None
    decreases GenSize(p.gen)
  {
  }

  /** Records collected by taking with the given batch sizes until a take comes back short. */
  ghost function TakeAll(p: Part, sizes: seq<nat>): seq<Record>
    decreases |sizes|
  {
    if sizes == [] then [] else
    var t := Take(p, sizes[0]);
    if t.Threw? then [] else t.records + TakeAll(t.part, sizes[1..])
  }

  function Sum(sizes: seq<nat>): nat { if sizes == [] then 0 else sizes[0] + Sum(sizes[1..]) }

  function Upto(s: seq<Record>, n: nat): seq<Record> { if n <= |s| then s[..n] else s }

  lemma UptoSplits(s: seq<Record>, n: nat, m: nat)
    requires n <= |s|
    ensures s[..n] + Upto(s[n..], m) == Upto(s, n + m)
  {
  }

  /**
   One take hands out the next n records, or all that are left; an exception met on the way is stored for the
   next take when there were records, and raised at once when there were none.
   */
  lemma TakeHandsOutPrefix(p: Part, all: Stream, n: nat)
    requires p.pending == None && p.status == Live && all == Rest(p)
    ensures var t := Take(p, n);
      if n <= |all.records| then
        && t.Took? && t.records == all.records[..n] && t.part.status == Live && t.part.pending == None
        && Rest(t.part) == all.(records := all.records[n..])
      else if all.end.Stop? then t == Took(all.records, all.part) && t.part.status == Drained
      else if all.records == [] then t == Threw(all.end.fault, all.part) && t.part.status == Dead
      else t == Took(all.records, all.part.(pending := Some(all.end.fault))) && t.part.status == Dead
  {
    if n <= |all.records| {
      PullHandsOutPrefix(p, n, []);
      PullStatus(p, n, []);
    } else {
      PullHandsOutAll(p, n, []);
      RestEnds(p);
      assert [] + all.records == all.records;
    }
  }

  /** However the takes are sized, and whether the stream stops or raises, together they hand out a prefix of it, in order. */
  lemma {:induction false} TakesPartitionTheStream(p: Part, all: Stream, sizes: seq<nat>)
    requires p.pending == None && p.status == Live && all == Rest(p)
    ensures TakeAll(p, sizes) == Upto(all.records, Sum(sizes))
    decreases |sizes|
  {
    if sizes != [] {
      TakeHandsOutPrefix(p, all, sizes[0]);
      RestEnds(p);
      var t := Take(p, sizes[0]);
      if sizes[0] <= |all.records| {
        TakesPartitionTheStream(t.part, all.(records := all.records[sizes[0]..]), sizes[1..]);
        UptoSplits(all.records, sizes[0], Sum(sizes[1..]));
      } else {
        if t.Took? && t.part.pending == None { StoppedTakesNothing(t.part, sizes[1..]); }
        assert t.Took? ==> TakeAll(t.part, sizes[1..]) == [] && all.records + [] == all.records;
      }
    }
  }

  lemma {:induction false} PullStatus(p: Part, n: nat, acc: seq<Record>)
    requires p.pending == None && p.status == Live && n <= |Rest(p).records|
    ensures Pull(p, n, acc).Took? && Pull(p, n, acc).part.status == Live
    decreases n
  {
    if n > 0 {
      NextStatus(p);
      NextKeepsPending(p);
      PullStatus(Next(p).1, n - 1, acc + [Next(p).0.record]);
    }
  }

  lemma {:induction false} RestEnds(p: Part)
    requires p.pending == None && p.status == Live
    ensures Rest(p).part.pending == None
    ensures Rest(p).part.status == if Rest(p).end.Stop? then Drained else Dead
    decreases GenSize(p.gen)
  {
    NextKeepsPending(p);
    NextStatus(p);
    if Next(p).0.Item? { RestEnds(Next(p).1); }
  }

  lemma NextStatus(p: Part)
    requires p.status == Live
    ensures var (y, q) := Next(p);
      (y.Item? ==> q.status == Live) && (y.Stop? ==> q.status == Drained) && (y.Raise? ==> q.status == Dead)
    decreases GenSize(p.gen)
  {
  }

  /** A stored exception is raised by the next take, and by that one only. */
  lemma StoredIsRaisedOnce(p: Part, n: nat)
    requires p.pending.Some?
    ensures Take(p, n) == Threw(p.pending.value, p.(pending := None))
    ensures p.status == Dead ==> Take(Take(p, n).part, n) == Took([], Take(p, n).part)
  {
    var q := Take(p, n).part;
    assert p.status == Dead ==> Next(q) == (Stop, q);
  }

  /** Draining ends a part: nothing is stored, and a take raises a TypeError. */
  lemma DrainedIsDone(p: Part, n: nat)
    requires p.status == Drained ==> p.pending == None
    ensures var q := Drain(p); q == p.(status := Drained, pending := None) && Take(q, n) == Threw(NotIterable, q)
  {
  }

  /** With nothing stored, a dead part gives nothing for ever, and a drained one raises a TypeError. */
  lemma {:induction false} StoppedTakesNothing(p: Part, sizes: seq<nat>)
    requires p.pending == None && p.status != Live
    ensures TakeAll(p, sizes) == []
    ensures forall n: nat :: Take(p, n) == if p.status == Dead then Took([], p) else Threw(NotIterable, p)
    decreases |sizes|
  {
    assert p.status == Dead ==> Next(p) == (Stop, p);
    if sizes != [] && p.status == Dead { StoppedTakesNothing(p, sizes[1..]); }
  }
}
