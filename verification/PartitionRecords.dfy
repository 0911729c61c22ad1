/** `PartitionRecords` as the mutable object it is, proved to compute the functions of `RecordFilter`. */
module PartitionRecords {
  import opened Wrappers
  import opened Structs
  import opened RecordFilter

  class PartitionRecords {
    const topicPartition: TopicPartition
    const fetchOffset: int
    const isolation: Isolation
    const checkCrcs: bool

    var nextFetchOffset: int
    var abortedProducerIds: set<int>
    var abortedTransactions: seq<Txn>
    var status: Status
    var nextInlineException: Option<Fault>

    // The suspended generator: batches not read yet, records left of the batch being iterated, the
    // batch read last, and whether `dropwhile` is still dropping.
    var batches: seq<Batch>
    var current: seq<Record>
    var lastBatch: Option<Batch>
    var dropping: bool

    function GenView(): Gen
      reads this
    {
      Gen(batches, current, lastBatch, abortedTransactions, abortedProducerIds, nextFetchOffset)
    }

    function View(): Part
      reads this
    {
      Part(fetchOffset, isolation, checkCrcs, GenView(), dropping, status, nextInlineException)
    }

    constructor (tp: TopicPartition, fetchOffset: int, batches: seq<Batch>, isolation: Isolation, checkCrcs: bool,
                 txns: seq<Txn>)
      ensures View() == Opened(fetchOffset, batches, isolation, checkCrcs, txns) && topicPartition == tp
    {
      topicPartition := tp;
      this.fetchOffset, this.isolation, this.checkCrcs := fetchOffset, isolation, checkCrcs;
      nextFetchOffset, abortedProducerIds, abortedTransactions := fetchOffset, {}, SortedTxns(txns);
      status, nextInlineException := Live, None;
      this.batches, current, lastBatch, dropping := batches, [], None, true;
    }

    method DrainRecords()
      modifies this
      ensures View() == Drain(old(View()))
    {
      if status != Drained {
        status := Drained;
        nextInlineException := None;
      }
    }

    method ConsumeAbortedTransactionsUpTo(offset: int)
      modifies this`abortedTransactions, this`abortedProducerIds
      ensures (abortedTransactions, abortedProducerIds)
           == ConsumeUpTo(old(abortedTransactions), old(abortedProducerIds), offset)
    {
      while |abortedTransactions| > 0 && abortedTransactions[0].firstOffset <= offset
        invariant ConsumeUpTo(abortedTransactions, abortedProducerIds, offset)
               == ConsumeUpTo(old(abortedTransactions), old(abortedProducerIds), offset)
        decreases |abortedTransactions|
      {
        abortedProducerIds := abortedProducerIds + {abortedTransactions[0].producerId};
        abortedTransactions := abortedTransactions[1..];
      }
    }

    /** The header part of the loop body of `_unpack_records`; true when the batch is to be skipped. */
    method HandleHeader(batch: Batch) returns (skip: bool)
      modifies this`abortedTransactions, this`abortedProducerIds
      ensures var h := AfterHeader(old(GenView()), batch, isolation);
        GenView() == h && skip == Skips(h, batch, isolation)
    {
      skip := false;
      if batch.magic == 2 {
        if isolation == ReadCommitted && batch.HasProducerId() {
          ConsumeAbortedTransactionsUpTo(batch.lastOffset);
          if batch.marker == AbortMarker {
            abortedProducerIds := abortedProducerIds - {batch.producerId};
          } else if batch.transactional && batch.producerId in abortedProducerIds {
            skip := true;
            return;
          }
        }
        if batch.IsControl() {
          skip := true;
        }
      }
    }

    /** Resume `_unpack_records` until it yields, ends (and drains) or raises (and is dead). */
    method UnpackRecords() returns (y: Yield)
      requires status == Live
      modifies this
      ensures var (r, g) := Resume(old(GenView()), isolation, checkCrcs);
        && y == r
        && View() == match r
                     case Item(_) => old(View()).(gen := g)
                     case Stop => Drain(old(View()).(gen := g))
                     case Raise(_) => old(View()).(gen := g, status := Dead)
    {
      while current == [] && batches != []
        invariant Resume(GenView(), isolation, checkCrcs) == Resume(old(GenView()), isolation, checkCrcs)
        invariant View() == old(View()).(gen := GenView())
        decreases |batches|
      {
        var batch := batches[0];
        lastBatch := Some(batch);
        if checkCrcs && !batch.crcOk {
          status := Dead;
          return Raise(BatchCrc(batch.baseOffset));
        }
        batches := batches[1..];
        var skip := HandleHeader(batch);
        if skip {
          nextFetchOffset := batch.NextOffset();
        } else {
          current := batch.records;
        }
      }
      y := YieldRecord();
    }

    /** The end of the generator, or the next record of the batch. */
    method YieldRecord() returns (y: Yield)
      requires status == Live && (current == [] ==> batches == [])
      modifies this
      ensures var (r, g) := Resume(old(GenView()), isolation, checkCrcs);
        && y == r
        && View() == match r
                     case Item(_) => old(View()).(gen := g)
                     case Stop => Drain(old(View()).(gen := g))
                     case Raise(_) => old(View()).(gen := g, status := Dead)
    {
      if current == [] {
        if lastBatch.Some? && lastBatch.value.magic == 2 {
          nextFetchOffset := lastBatch.value.NextOffset();
        }
        DrainRecords();
        return Stop;
      }
      var record := current[0];
      if checkCrcs && !record.crcOk {
        status := Dead;
        return Raise(RecordCrc(record.offset));
      }
      if !record.readable {
        status := Dead;
        return Raise(Unreadable(record.offset));
      }
      nextFetchOffset := record.offset + 1;
      current := current[1..];
      return Item(record);
    }

    /** `next()` of the `dropwhile` iterator. */
    method NextRecord() returns (y: Yield)
      modifies this
      ensures (y, View()) == Next(old(View()))
    {
      if status != Live { return Stop; }
      y := UnpackRecords();
      while y.Item? && dropping && y.record.offset < fetchOffset
        invariant y.Item? ==> status == Live
        invariant Next(old(View())) == if y.Item? && dropping && y.record.offset < fetchOffset then Next(View())
                                       else (y, if y.Item? then View().(dropping := false) else View())
        decreases y.Item?, GenSize(GenView())
      {
        y := UnpackRecords();
      }
      if y.Item? { dropping := false; }
    }

    method TakeRecords(n: nat) returns (r: Result<seq<Record>, Fault>)
      modifies this
      ensures match Take(old(View()), n)
        case Took(records, p) => r == Ok(records) && View() == p
        case Threw(f, p) => r == Err(f) && View() == p
    {
      if nextInlineException.Some? {
        var e := nextInlineException.value;
        nextInlineException := None;
        return Err(e);
      }
      if status == Drained { return Err(NotIterable); }
      var records := [];
      var left: nat := n;
      while left > 0
        invariant left <= n
        invariant Pull(View(), left, records) == Pull(old(View()), n, [])
        decreases left
      {
        var y := NextRecord();
        match y {
          case Item(record) => records := records + [record];
          case Stop => return Ok(records);
          case Raise(f) =>
            if records == [] { return Err(f); }
            nextInlineException := Some(f);
            return Ok(records);
        }
        left := left - 1;
      }
      return Ok(records);
    }
  }
}
