/**
 What comes of a fetched response (fetcher.py): when it is dropped, when it raises, when it is opened, and what a poll
 then hands out. A partition that is paused gets nothing.
 */
module FetchOutcomes {
  import opened Wrappers
  import opened Structs
  import opened RecordFilter
  import opened Offsets
  import opened ReadCommitted
  import opened Subscriptions
  import opened FetchLoop
  import D = DeliveryOrder
  import E = DeliveryComplete

  // ---------- one response ----------

  /** The partition is assigned, not paused, and has a position. */
  predicate Wanted(a: Assignment, tp: TopicPartition) { tp in a && !a[tp].paused && a[tp].position.Some? }

  predicate AtPosition(a: Assignment, c: Completed) { c.tp in a && a[c.tp].position == Some(c.fetchOffset) }

  /** Bytes came, but not one whole batch: the position would never move. */
  predicate NoWholeBatch(c: Completed) { c.batches == [] && c.partialBytes }

  /**
   A response is dropped, unless its partition is wanted. Authorization failures and unknown errors raise. Answers to an
   old position are dropped; an offset out of range resets the position, or raises if there is no policy; a response
   without a whole batch raises; any other without error is opened at the position, with the list of aborted transactions.
   */
  lemma ParseMeans(a: Assignment, c: Completed, cfg: Config)
    ensures var (b, r) := Parse(a, c, cfg);
      if !Wanted(a, c.tp) then b == a && r == Ok(None)
      else match c.error
        case TopicAuthorizationFailed => b == a && r == Err(Unauthorized)
        case OtherError(code) => b == a && r == Err(Unexpected(code))
        case StaleMetadata => b == a && r == Ok(None)
        case Retriable => b == a && r == Ok(None)
        case OffsetOutOfRange =>
          if !AtPosition(a, c) then b == a && r == Ok(None)
          else if cfg.defaultReset.None? then b == a && r == Err(OutOfRange)
          else r == Ok(None) && Resets(a, c.tp, cfg.defaultReset.value, b)
        case NoError =>
          if !AtPosition(a, c) then b == a && r == Ok(None)
          else if NoWholeBatch(c) then b == a && r == Err(if c.version < 3 then RecordTooLarge else NoProgress)
          else OpensAt(c, cfg, r) && NotesHighwater(a, c, b)
  {
    SortedTxnsSorts(if c.version >= 4 then c.txns else []);
  }

  predicate Resets(a: Assignment, tp: TopicPartition, strategy: int, b: Assignment)
    requires tp in a
  {
    b == a[tp := a[tp].(position := None, resetStrategy := Some(strategy), nextAllowedRetryTime := None)]
  }

  predicate NotesHighwater(a: Assignment, c: Completed, b: Assignment)
    requires c.tp in a
  {
    if c.highwater < 0 then b == a else b == a[c.tp := a[c.tp].(highwater := Some(c.highwater))]
  }

  /** Nothing has been read of it yet; its transactions wait in order, those of the list from version 4 on, and none below. */
  predicate OpensAt(c: Completed, cfg: Config, r: Result<Option<Open>, FetchException>) {
    && r.Ok? && r.value.Some? && r.value.value.tp == c.tp
    && var p := r.value.value.part;
       && p == Part(c.fetchOffset, cfg.iso, cfg.checkCrcs, Gen(c.batches, [], None, p.gen.txns, {}, c.fetchOffset), true, Live, None)
       && Ascending(p.gen.txns) && multiset(p.gen.txns) == multiset(if c.version >= 4 then c.txns else [])
  }

  // ---------- one append ----------

  /**
   Nothing comes of a drained part. One that is not wanted, or not at the position, is drained. One in line is taken from,
   and the position moves to the next offset unless the caller moves it itself; if nothing was handed out, it moves anyway.
   */
  lemma AppendMeans(a: Assignment, o: Open, n: nat, update: bool)
    ensures var r := Append(a, o, n, update);
      && r.open.tp == o.tp
      && if o.part.status == Drained then r == Appended(a, o, Ok([]))
         else if !(Wanted(a, o.tp) && a[o.tp].position == Some(o.part.gen.next)) then
           r == Appended(a, Open(o.tp, o.part.(status := Drained, pending := None)), Ok([]))
         else
           var t := Take(o.part, n);
           && r.open.part == t.part
           && (t.Threw? ==> r.assignment == a && r.result == Err(t.fault))
           && (t.Took? ==> r.result == Ok(t.records))
           && (t.Took? ==> r.assignment == if update || |t.records| == 0 then a[o.tp := a[o.tp].(position := Some(t.part.gen.next))] else a)
  {
    hide Take;
  }

  // ---------- paused partitions ----------

  /** Nothing has happened to the partition, and nothing of it has been handed out. */
  predicate LeftAlone(a: Assignment, b: Assignment, got: seq<Delivery>, tp: TopicPartition) {
    && (tp in a <==> tp in b) && (tp in a ==> b[tp] == a[tp])
    && forall i :: 0 <= i < |got| ==> got[i].tp != tp
  }

  lemma IterationLeavesAlone(a: Assignment, f: Fetch, got: seq<Delivery>, n: nat, cfg: Config, tp: TopicPartition)
    requires !Wanted(a, tp) && LeftAlone(a, f.assignment, got, tp)
    ensures var r := Iterate(f, n, true, cfg);
      && (r.Went? ==> LeftAlone(a, r.fetch.assignment, got + r.got, tp))
      && (r.Raised? ==> LeftAlone(a, r.fetch.assignment, got, tp))
  {
    if !IsLive(f.next) {
      if f.completed != [] { ParseMeans(f.assignment, f.completed[0], cfg); }
      hide Parse;
    } else {
      hide Take;
    }
  }

  /** A partition that is paused, unassigned or without a position gets nothing from a poll, and stays as it is. */
  lemma UnwantedGetsNothing(f: Fetch, max: nat, cfg: Config, tp: TopicPartition)
    requires ComesBack(f) && !Wanted(f.assignment, tp)
    ensures var p := Poll(f, max, true, cfg);
      LeftAlone(f.assignment, p.fetch.assignment, if p.result.Ok? then p.result.value else [], tp)
  {
    ghost var keeps := (g: Fetch, got: seq<Delivery>) => LeftAlone(f.assignment, g.assignment, got, tp);
    forall g, got, n | keeps(g, got) && n > 0 && SensibleFetch(g) && !Stuck(g)
      ensures D.IterationKeeps(keeps, g, got, n, cfg)
    {
      IterationLeavesAlone(f.assignment, g, got, n, cfg, tp);
    }
    if !RaisesStored(f) { D.LoopInduction(keeps, f.(stored := None), [], max, cfg); }
    hide Loop, Iterate;
  }

  // ---------- exceptions ----------

  /**
   An exception kept from the last poll is raised if its partition is still wanted at the same offset, and forgotten
   otherwise. One that a poll comes upon is raised if it has no records to hand out, and kept for the next if it has.
   */
  lemma PollRaises(f: Fetch, max: nat, cfg: Config)
    requires ComesBack(f)
    ensures var p := Poll(f, max, true, cfg);
      if f.stored.Some? && Wanted(f.assignment, f.stored.value.tp)
         && f.assignment[f.stored.value.tp].position == Some(f.stored.value.offset)
      then p == Polled(f.(stored := None), Err(f.stored.value.exc))
      else
        var r := Loop(f.(stored := None), [], max, true, cfg);
        if r.raised.Some? && r.got == [] then p == Polled(r.fetch.(stored := None), Err(r.raised.value.exc))
        else p == Polled(r.fetch.(stored := r.raised), Ok(r.got))
  {
    if !RaisesStored(f) { StoredStays(f.(stored := None), [], max, cfg); }
    hide Loop;
  }

  lemma {:induction false} StoredStays(f: Fetch, got: seq<Delivery>, n: nat, cfg: Config)
    requires SensibleFetch(f) && !Stuck(f)
    ensures Loop(f, got, n, true, cfg).fetch.stored == f.stored
    decreases |f.completed|, Rank(f.next), n
  {
    hide Loop, Parse, Append, Stuck, SensibleFetch;
    if n == 0 {
      LoopIsOver(f, got, true, cfg);
    } else {
      LoopTurns(f, got, n, true, cfg);
      var r := Iterate(f, n, true, cfg);
      if r.Went? { StoredStays(r.fetch, got + r.got, n - |r.got|, cfg); }
    }
  }

  /** The partition that a record could not be unpacked of is wanted, at the offset that the exception names. */
  lemma {:induction false} LoopRaisesInPlace(f: Fetch, got: seq<Delivery>, n: nat, cfg: Config)
    requires SensibleFetch(f) && !Stuck(f)
    ensures var r := Loop(f, got, n, true, cfg);
      r.raised.Some? && r.raised.value.exc.Unpacking? ==>
        Wanted(r.fetch.assignment, r.raised.value.tp) && r.fetch.assignment[r.raised.value.tp].position == Some(r.raised.value.offset)
    decreases |f.completed|, Rank(f.next), n
  {
    if n == 0 {
      LoopIsOver(f, got, true, cfg);
    } else {
      LoopTurns(f, got, n, true, cfg);
      var r := Iterate(f, n, true, cfg);
      if r.Went? { LoopRaisesInPlace(r.fetch, got + r.got, n - |r.got|, cfg); }
    }
  }

  /** When a record cannot be unpacked behind others, these are handed out, and the very next poll raises. */
  lemma UnpackingIsRaisedNext(f: Fetch, max: nat, more: nat, cfg: Config)
    requires ComesBack(f)
    requires var p := Poll(f, max, true, cfg); p.fetch.stored.Some? && p.fetch.stored.value.exc.Unpacking? && SensibleFetch(p.fetch)
    ensures var p := Poll(f, max, true, cfg);
      && p.result.Ok? && p.result.value != [] && ComesBack(p.fetch)
      && Poll(p.fetch, more, true, cfg) == Polled(p.fetch.(stored := None), Err(p.fetch.stored.value.exc))
  {
    var p := Poll(f, max, true, cfg);
    PollRaises(f, max, cfg);
    if !RaisesStored(f) { LoopRaisesInPlace(f.(stored := None), [], max, cfg); }
    assert RaisesStored(p.fetch);
    PollRaises(p.fetch, more, cfg);
    hide Loop, Poll;
  }

  // ---------- what a poll hands out ----------

  function Least(m: nat, n: nat): nat { if m < n then m else n }

  /** The offset behind the n-th record, or where the part ends. */
  function PositionAfter(records: seq<Record>, n: nat, end: int): int {
    if 0 < n <= |records| then records[n - 1].offset + 1 else end
  }

  /** The poll is about one part, that is open and in line. */
  ghost predicate OneInLine(f: Fetch) {
    && f.completed == [] && f.next.Some? && InLine(f.assignment, f.next.value)
    && f.next.value.part.status == Live && f.next.value.part.pending == None && Rest(f.next.value.part).end == Stop
  }

  ghost function Moved(f: Fetch, max: nat): Assignment
    requires OneInLine(f)
  {
    var tp, all := f.next.value.tp, Rest(f.next.value.part);
    f.assignment[tp := f.assignment[tp].(position := Some(PositionAfter(all.records, max, all.part.gen.next)))]
  }

  lemma FirstIteration(f: Fetch, max: nat, cfg: Config)
    requires max > 0 && OneInLine(f)
    ensures var all := Rest(f.next.value.part); var r := Iterate(f, max, true, cfg);
      && r.Went? && r.got == Tag(f.next.value.tp, all.records[..Least(max, |all.records|)])
      && r.fetch.assignment == Moved(f, max) && r.fetch.completed == [] && r.fetch.stored == f.stored
      && (max > |all.records| ==> !IsLive(r.fetch.next))
  {
    var p := f.next.value.part;
    var all := Rest(p);
    TakeHandsOutPrefix(p, all, max);
    if max <= |all.records| { E.PullEndsBehind(p, max, []); } else { assert all.records[..|all.records|] == all.records; }
    assert Take(p, max) == Pull(p, max, []);
    hide Rest, Pull, Take;
  }

  /**
   A poll of one part that is open and in line hands out its next records, as many as are asked for and left, and moves
   the position behind them, or to the end of the part if it asked for more.
   */
  lemma PollTakes(f: Fetch, max: nat, cfg: Config)
    requires max > 0 && !RaisesStored(f) && OneInLine(f)
    ensures ComesBack(f)
    ensures var all := Rest(f.next.value.part); var p := Poll(f, max, true, cfg);
      && p.result == Ok(Tag(f.next.value.tp, all.records[..Least(max, |all.records|)]))
      && p.fetch.assignment == Moved(f, max) && p.fetch.stored == None
  {
    var g := f.(stored := None);
    var all := Rest(f.next.value.part);
    assert OneInLine(g) && Moved(g, max) == Moved(f, max);
    FirstIteration(g, max, cfg);
    LoopTurns(g, [], max, true, cfg);
    var r := Iterate(g, max, true, cfg);
    assert [] + r.got == r.got;
    hide Rest, Loop, Iterate, Moved;
    if max <= |all.records| {
      LoopIsOver(r.fetch, r.got, true, cfg);
    } else {
      NothingLeft(r.fetch, r.got, max - |r.got|, cfg);
    }
    PollRaises(f, max, cfg);
  }

  lemma NothingLeft(f: Fetch, got: seq<Delivery>, n: nat, cfg: Config)
    requires SensibleFetch(f) && !Stuck(f) && !IsLive(f.next) && f.completed == []
    ensures Loop(f, got, n, true, cfg) == Looped(f, got, None)
  {
  }

  function Opening(f: Fetch, c: Completed, cfg: Config): Fetch {
    var (a, r) := Parse(f.assignment, c, cfg);
    f.(assignment := a, completed := [], next := if r.Ok? then r.value else None)
  }

  /** The poll is about one response, at the position of a wanted partition. */
  ghost predicate OneAtPosition(f: Fetch, c: Completed) {
    && SensibleFetch(f) && !IsLive(f.next) && f.completed == [c] && f.stored == None
    && Wanted(f.assignment, c.tp) && AtPosition(f.assignment, c) && c.error.NoError? && !NoWholeBatch(c)
  }

  lemma OpeningIs(f: Fetch, c: Completed, cfg: Config)
    requires OneAtPosition(f, c)
    ensures var g := Opening(f, c, cfg);
      && g.next == Some(Open(c.tp, Opened(c.fetchOffset, c.batches, cfg.iso, cfg.checkCrcs, AbortedOf(c))))
      && g.completed == f.completed[1..] == [] && g.stored == None && InLine(g.assignment, g.next.value)
      && Parse(f.assignment, c, cfg) == (g.assignment, Ok(g.next))
  {
  }

  /** A response that is opened is what the poll is then about. */
  lemma OpeningGoesOn(f: Fetch, c: Completed, max: nat, cfg: Config)
    requires max > 0 && OneAtPosition(f, c)
    ensures ComesBack(f)
    ensures var g := Opening(f, c, cfg); SensibleFetch(g) && !Stuck(g) && Poll(f, max, true, cfg) == Poll(g, max, true, cfg)
  {
    var g := Opening(f, c, cfg);
    OpeningIs(f, c, cfg);
    OneTurn(f, g, max, cfg);
    hide Parse, Opening, Loop, SortedTxns, Iterate;
    var none: seq<Delivery> := [];
    assert none + none == none;
    LoopTurns(f, none, max, true, cfg);
    PollRaises(f, max, cfg);
    PollRaises(g, max, cfg);
    assert f.(stored := None) == f && g.(stored := None) == g;
  }

  lemma OneTurn(f: Fetch, g: Fetch, max: nat, cfg: Config)
    requires !IsLive(f.next) && f.completed != [] && g.completed == f.completed[1..] && g.stored == f.stored
    requires Parse(f.assignment, f.completed[0], cfg) == (g.assignment, Ok(g.next))
    ensures Iterate(f, max, true, cfg) == Went(g, [])
  {
    hide Parse;
  }

  /** What is left of a response that has just been opened. */
  lemma ResponseShows(log: seq<Batch>, c: Completed, cfg: Config) returns (end: int)
    requires WellFormedLog(log) && Sound(log) && E.Answers(log, c, cfg.iso) && c.error.NoError?
    ensures end == if c.batches == [] then c.fetchOffset else c.batches[|c.batches| - 1].NextOffset()
    ensures var rest := Rest(Opened(c.fetchOffset, c.batches, cfg.iso, cfg.checkCrcs, AbortedOf(c)));
      rest.end == Stop && rest.records == Between(E.Seen(log, cfg.iso), c.fetchOffset, end) && rest.part.gen.next == end
  {
    var lo: nat, hi: nat :| E.SliceOf(log, c, cfg.iso, lo, hi);
    assert c.batches == log[lo..hi] && (cfg.iso == ReadCommitted ==> AbortIndex(log, lo, hi, AbortedOf(c)));
    assert lo < hi ==> c.batches[|c.batches| - 1] == log[hi - 1];
    hide Rest, Visible, Sound, Clean, AbortIndex, Opened, Between, AtOrAfter;
    FilterIsExact(log, lo, hi, cfg.iso, cfg.checkCrcs, AbortedOf(c), c.fetchOffset);
    SoundIsClean(log, lo, hi, cfg.iso, cfg.checkCrcs);
    end := if c.batches == [] then c.fetchOffset else c.batches[|c.batches| - 1].NextOffset();
    if lo < hi {
      E.SliceIsBetween(log, lo, hi, cfg.iso, c.fetchOffset, end);
    } else {
      NoneBetween(E.Seen(log, cfg.iso), c.fetchOffset, c.fetchOffset);
      assert Visible(log, lo, hi, cfg.iso) == [] && AtOrAfter([], c.fetchOffset) == [] by { NothingVisible(log, lo, cfg.iso, c.fetchOffset); }
    }
  }

  lemma NothingVisible(log: seq<Batch>, k: nat, iso: Isolation, offset: int)
    requires k <= |log|
    ensures Visible(log, k, k, iso) == [] && AtOrAfter([], offset) == []
  {
  }

  /**
   A response at the position of a wanted partition, of a log that can be read: a poll hands out the first records that
   the log shows from the position to the end of the response, as many as are asked for and there, and moves the position
   behind them, or to the end of the response if it asked for more.
   */
  lemma ResponseIsDelivered(f: Fetch, c: Completed, log: seq<Batch>, max: nat, cfg: Config)
    requires WellFormedLog(log) && Sound(log) && E.Answers(log, c, cfg.iso) && max > 0 && OneAtPosition(f, c)
    ensures ComesBack(f)
    ensures
      var end := if c.batches == [] then c.fetchOffset else c.batches[|c.batches| - 1].NextOffset();
      var seen := Between(E.Seen(log, cfg.iso), c.fetchOffset, end);
      var p := Poll(f, max, true, cfg);
      && p.result == Ok(Tag(c.tp, seen[..Least(max, |seen|)]))
      && c.tp in p.fetch.assignment && p.fetch.assignment[c.tp].position == Some(PositionAfter(seen, max, end))
  {
    OpeningGoesOn(f, c, max, cfg);
    OpeningIs(f, c, cfg);
    var end := ResponseShows(log, c, cfg);
    hide Rest, Loop, Poll, Parse, Opening, SortedTxns, Between, ComesBack, WellFormedLog, Sound;
    PollTakes(Opening(f, c, cfg), max, cfg);
  }
}
