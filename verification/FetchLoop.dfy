/**
 What one call of `fetched_records` does (fetcher.py), as functions on values: parse the next completed
 fetch or take from the live partition, until enough records were taken, nothing is left or an
 exception is raised. The class in Fetcher.dfy is proved to compute these functions.
 */
module FetchLoop {
  import opened Wrappers
  import opened Structs
  import opened RecordFilter
  import opened Subscriptions

  datatype FetchError = NoError | StaleMetadata | OffsetOutOfRange | TopicAuthorizationFailed | Retriable | OtherError(code: int)

  datatype FetchException =
    | RecordTooLarge | NoProgress | OutOfRange | Unauthorized | Unexpected(code: int) | Unpacking(fault: Fault)

  /** A response for one partition, not parsed yet. `partialBytes`: bytes left that hold no whole batch. */
  datatype Completed = Completed(tp: TopicPartition, fetchOffset: int, version: int, error: FetchError, highwater: int,
                                 batches: seq<Batch>, partialBytes: bool, txns: seq<Txn>)

  datatype Config = Config(iso: Isolation, checkCrcs: bool, defaultReset: Option<int>)

  datatype Open = Open(tp: TopicPartition, part: Part)

  datatype Stored = Stored(tp: TopicPartition, offset: int, exc: FetchException)

  datatype Fetch = Fetch(assignment: Assignment, completed: seq<Completed>, next: Option<Open>, stored: Option<Stored>)

  datatype Delivery = Delivery(tp: TopicPartition, record: Record)

  predicate IsLive(next: Option<Open>) { next.Some? && next.value.part.status != Drained }

  // ---------- _parse_fetched_data ----------

  function AbortedOf(c: Completed): seq<Txn> { if c.version >= 4 then c.txns else [] }

  function Parse(a: Assignment, c: Completed, cfg: Config): (Assignment, Result<Option<Open>, FetchException>) {
    if !Fetchable(a, c.tp) then (a, Ok(None))
    else match c.error
      case NoError =>
        if a[c.tp].position != Some(c.fetchOffset) then (a, Ok(None))
        else if c.batches == [] && c.partialBytes then (a, Err(if c.version < 3 then RecordTooLarge else NoProgress))
        else
          (if c.highwater >= 0 then a[c.tp := a[c.tp].(highwater := Some(c.highwater))] else a,
           Ok(Some(Open(c.tp, Opened(c.fetchOffset, c.batches, cfg.iso, cfg.checkCrcs, AbortedOf(c))))))
      case OffsetOutOfRange =>
        if a[c.tp].position != Some(c.fetchOffset) then (a, Ok(None))
        else if cfg.defaultReset.Some? then (a[c.tp := ResetTo(a[c.tp], cfg.defaultReset.value)], Ok(None))
        else (a, Err(OutOfRange))
      case TopicAuthorizationFailed => (a, Err(Unauthorized))
      case StaleMetadata => (a, Ok(None))
      case Retriable => (a, Ok(None))
      case OtherError(code) => (a, Err(Unexpected(code)))
  }

  // ---------- _append ----------

  predicate InLine(a: Assignment, o: Open) {
    Fetchable(a, o.tp) && a[o.tp].position == Some(o.part.gen.next)
  }

  datatype Appended = Appended(assignment: Assignment, open: Open, result: Result<seq<Record>, Fault>)

  function Append(a: Assignment, o: Open, n: nat, update: bool): Appended {
    if o.part.status == Drained then Appended(a, o, Ok([]))
    else if !InLine(a, o) then Appended(a, o.(part := Drain(o.part)), Ok([]))
    else match Take(o.part, n)
      case Threw(f, p) => Appended(a, o.(part := p), Err(f))
      case Took(records, p) =>
        Appended(if update || records == [] then a[o.tp := a[o.tp].(position := Some(p.gen.next))] else a,
                 o.(part := p), Ok(records))
  }

  // ---------- the records drained so far, by partition ----------

  function Of(m: map<TopicPartition, seq<Record>>, tp: TopicPartition): seq<Record> {
    if tp in m then m[tp] else []
  }

  function Extend(m: map<TopicPartition, seq<Record>>, got: seq<Delivery>): map<TopicPartition, seq<Record>>
  {
    if got == [] then m
    else
      var rest := Extend(m, got[..|got| - 1]);
      var d := got[|got| - 1];
      rest[d.tp := Of(rest, d.tp) + [d.record]]
  }

  function Tag(tp: TopicPartition, records: seq<Record>): (r: seq<Delivery>)
    ensures |r| == |records| && forall i :: 0 <= i < |r| ==> r[i] == Delivery(tp, records[i])
  {
    seq(|records|, i requires 0 <= i < |records| => Delivery(tp, records[i]))
  }

  /** Handing out records of one partition changes the entry of that partition, if there are any. */
  lemma {:induction false} TaggedIs(m: map<TopicPartition, seq<Record>>, tp: TopicPartition, records: seq<Record>)
    ensures Extend(m, Tag(tp, records)) == if records == [] then m else m[tp := Of(m, tp) + records]
    decreases |records|
  {
    if records != [] {
      var init := records[..|records| - 1];
      assert Tag(tp, records)[..|records| - 1] == Tag(tp, init);
      TaggedIs(m, tp, init);
      assert Of(m, tp) + init + [records[|records| - 1]] == Of(m, tp) + records;
      assert init == [] ==> Of(m, tp) + [records[|records| - 1]] == Of(m, tp) + records;
    }
  }

  lemma TaggedLands(m: map<TopicPartition, seq<Record>>, tp: TopicPartition, records: seq<Record>)
    ensures var r := Extend(m, Tag(tp, records));
      Of(r, tp) == Of(m, tp) + records && forall q :: q != tp ==> Of(r, q) == Of(m, q)
  {
    TaggedIs(m, tp, records);
    assert Of(m, tp) + [] == Of(m, tp);
  }

  lemma {:induction false} ExtendTwice(m: map<TopicPartition, seq<Record>>, got: seq<Delivery>, more: seq<Delivery>)
    ensures Extend(m, got + more) == Extend(Extend(m, got), more)
    decreases |more|
  {
    if more == [] {
      assert got + more == got;
    } else {
      ExtendTwice(m, got, more[..|more| - 1]);
      assert (got + more)[..|got + more| - 1] == got + more[..|more| - 1];
    }
  }

  // ---------- one iteration of the loop ----------

  datatype Iterated =
    | Broke
    | Went(fetch: Fetch, got: seq<Delivery>)
    | Raised(fetch: Fetch, stored: Stored)

  function Iterate(f: Fetch, n: nat, update: bool, cfg: Config): Iterated {
    if !IsLive(f.next) then
      if f.completed == [] then Broke
      else
        var c := f.completed[0];
        var (a, r) := Parse(f.assignment, c, cfg);
        var g := f.(assignment := a, completed := f.completed[1..]);
        match r
        case Err(e) => Raised(g, Stored(c.tp, c.fetchOffset, e))
        case Ok(next) => Went(g.(next := next), [])
    else
      var o := f.next.value;
      var r := Append(f.assignment, o, n, update);
      var g := f.(assignment := r.assignment, next := Some(r.open));
      match r.result
      case Err(fault) => Raised(g, Stored(o.tp, o.part.gen.next, Unpacking(fault)))
      case Ok(records) => Went(g, Tag(o.tp, records))
  }

  // ---------- when the loop comes to an end ----------

  /** The live partition has a dead generator, nothing stored, and is next in line. */
  predicate Stuck(f: Fetch) {
    && f.next.Some? && f.next.value.part.status == Dead && f.next.value.part.pending == None
    && InLine(f.assignment, f.next.value)
  }

  function Rank(next: Option<Open>): nat { if IsLive(next) then 1 else 0 }

  lemma {:induction false} PullTakesAtMost(p: Part, n: nat, acc: seq<Record>)
    ensures Pull(p, n, acc).Took? ==> acc <= Pull(p, n, acc).records && |Pull(p, n, acc).records| <= |acc| + n
    decreases n
  {
    if n > 0 && Next(p).0.Item? { PullTakesAtMost(Next(p).1, n - 1, acc + [Next(p).0.record]); }
  }

  /** An empty take that raised nothing has drained the partition, unless the generator was dead. */
  lemma EmptyTakeDrains(p: Part, n: nat)
    requires n > 0 && Take(p, n) == Took([], Take(p, n).part) && p.status != Drained
    ensures (p.status == Dead && p.pending == None) || Take(p, n).part.status == Drained
  {
    if p.pending == None && Next(p).0.Item? { PullTakesAtMost(Next(p).1, n - 1, [] + [Next(p).0.record]); }
    if p.status == Live { NextStatus(p); }
  }

  /** Only a dead part with something stored, and only a live one, is left behind by the loop. */
  ghost predicate Sensible(p: Part) {
    && (p.status == Live ==> p.pending == None)
    && (p.pending.Some? ==> p.status == Dead)
  }

  /** A take keeps this, and a take that raised nothing leaves no dead generator with nothing stored. */
  lemma {:induction false} PullStaysSensible(p: Part, n: nat, acc: seq<Record>)
    requires p.status == Live && p.pending == None
    ensures var t := Pull(p, n, acc);
      Sensible(t.part) && (t.Took? && t.part.status == Dead ==> t.part.pending.Some?)
    decreases n
  {
    if n > 0 {
      NextStatus(p);
      NextKeepsPending(p);
      if Next(p).0.Item? { PullStaysSensible(Next(p).1, n - 1, acc + [Next(p).0.record]); }
    }
  }

  lemma TakeStaysSensible(p: Part, n: nat)
    requires Sensible(p) && p.status != Drained
    ensures var t := Take(p, n);
      && Sensible(t.part)
      && (t.Took? && t.part.status == Dead ==> t.part.pending.Some? || t.part == p)
  {
    if p.status == Live { PullStaysSensible(p, n, []); }
  }

  ghost predicate SensibleFetch(f: Fetch) { f.next.Some? ==> Sensible(f.next.value.part) }

  /**
   An iteration that goes on comes closer to the end: a completed fetch is gone, or the live partition
   is drained, or records were taken. It never leads into a stuck state.
   */
  lemma IterationAdvances(f: Fetch, n: nat, update: bool, cfg: Config)
    requires n > 0 && SensibleFetch(f) && !Stuck(f) && Iterate(f, n, update, cfg).Went?
    ensures var r := Iterate(f, n, update, cfg); var g := r.fetch;
      && |r.got| <= n && SensibleFetch(g) && !Stuck(g)
      && (|g.completed| < |f.completed|
          || (|g.completed| == |f.completed| && Rank(g.next) < Rank(f.next))
          || (|g.completed| == |f.completed| && Rank(g.next) == Rank(f.next) && |r.got| > 0))
  {
    if IsLive(f.next) {
      var o := f.next.value;
      if InLine(f.assignment, o) && o.part.pending == None {
        PullTakesAtMost(o.part, n, []);
        TakeStaysSensible(o.part, n);
        if Take(o.part, n) == Took([], Take(o.part, n).part) { EmptyTakeDrains(o.part, n); }
      }
    }
  }

  datatype Looped = Looped(fetch: Fetch, got: seq<Delivery>, raised: Option<Stored>)

  /** The whole loop. A stuck state is where the source's loop does not come back. */
  function Loop(f: Fetch, got: seq<Delivery>, n: nat, update: bool, cfg: Config): Looped
    requires SensibleFetch(f) && !Stuck(f)
    decreases |f.completed|, Rank(f.next), n
  {
    if n == 0 then Looped(f, got, None)
    else match Iterate(f, n, update, cfg)
      case Broke => Looped(f, got, None)
      case Raised(g, e) => Looped(g, got, Some(e))
      case Went(g, more) =>
        IterationAdvances(f, n, update, cfg);
        Loop(g, got + more, n - |more|, update, cfg)
  }

  /** The loop, one iteration at a time. */
  lemma LoopTurns(f: Fetch, got: seq<Delivery>, n: nat, update: bool, cfg: Config)
    requires SensibleFetch(f) && !Stuck(f) && n > 0
    ensures var all := Loop(f, got, n, update, cfg);
      match Iterate(f, n, update, cfg)
      case Broke => all == Looped(f, got, None)
      case Raised(g, e) => all == Looped(g, got, Some(e))
      case Went(g, more) =>
        && |more| <= n && SensibleFetch(g) && !Stuck(g)
        && all == Loop(g, got + more, n - |more|, update, cfg)
        && (|g.completed| < |f.completed|
            || (|g.completed| == |f.completed| && Rank(g.next) < Rank(f.next))
            || (|g.completed| == |f.completed| && Rank(g.next) == Rank(f.next) && |more| > 0))
  {
    if Iterate(f, n, update, cfg).Went? { IterationAdvances(f, n, update, cfg); }
  }

  lemma LoopIsOver(f: Fetch, got: seq<Delivery>, update: bool, cfg: Config)
    requires SensibleFetch(f) && !Stuck(f)
    ensures Loop(f, got, 0, update, cfg) == Looped(f, got, None)
  {
  }

  // ---------- fetched_records ----------

  datatype Polled = Polled(fetch: Fetch, result: Result<seq<Delivery>, FetchException>)

  /** The exception kept from the last call is raised only while its partition is still where it was. */
  predicate RaisesStored(f: Fetch) {
    f.stored.Some? && Fetchable(f.assignment, f.stored.value.tp)
    && f.assignment[f.stored.value.tp].position == Some(f.stored.value.offset)
  }

  /** A call comes back: it raises at once, or its loop ends. */
  ghost predicate ComesBack(f: Fetch) { SensibleFetch(f) && (RaisesStored(f) || !Stuck(f)) }

  function Poll(f: Fetch, max: nat, update: bool, cfg: Config): Polled
    requires ComesBack(f)
  {
    var g := f.(stored := None);
    if RaisesStored(f) then Polled(g, Err(f.stored.value.exc))
    else
      var r := Loop(g, [], max, update, cfg);
      if r.raised == None then Polled(r.fetch, Ok(r.got))
      else if r.got == [] then Polled(r.fetch, Err(r.raised.value.exc))
      else Polled(r.fetch.(stored := r.raised), Ok(r.got))
  }

  // ---------- when a call comes back ----------

  /** State of the loop after k iterations, for any start; `Over` once it has left the loop. */
  datatype Turn = Running(fetch: Fetch, left: nat) | Over

  function Turns(f: Fetch, n: nat, update: bool, cfg: Config, k: nat): Turn
    decreases k
  {
    if n == 0 then Over
    else if k == 0 then Running(f, n)
    else match Iterate(f, n, update, cfg)
      case Went(g, more) => if |more| <= n then Turns(g, n - |more|, update, cfg, k - 1) else Over
      case _ => Over
  }

  lemma {:induction false} StuckTurnsForever(f: Fetch, n: nat, update: bool, cfg: Config, k: nat)
    requires Stuck(f) && n > 0
    ensures Turns(f, n, update, cfg, k) == Running(f, n)
    decreases k
  {
    if k > 0 {
      var o := f.next.value;
      assert Next(o.part) == (Stop, o.part);
      assert f.assignment[o.tp := f.assignment[o.tp].(position := Some(o.part.gen.next))] == f.assignment;
      assert Iterate(f, n, update, cfg) == Went(f, []);
      StuckTurnsForever(f, n, update, cfg, k - 1);
    }
  }

  lemma {:induction false} TurnsEnd(f: Fetch, n: nat, update: bool, cfg: Config) returns (k: nat)
    requires SensibleFetch(f) && !Stuck(f)
    ensures Turns(f, n, update, cfg, k) == Over
    decreases |f.completed|, Rank(f.next), n
  {
    k := 0;
    if n > 0 {
      var r := Iterate(f, n, update, cfg);
      if r.Went? {
        IterationAdvances(f, n, update, cfg);
        k := TurnsEnd(r.fetch, n - |r.got|, update, cfg);
      }
      k := k + 1;
    }
  }

  /**
   The loop comes to an end if and only if it does not start on a dead generator that is next in line.
   A generator dies by raising; when the exception came with no records it leaves this state behind.
   */
  lemma LoopEndsIffNotStuck(f: Fetch, n: nat, update: bool, cfg: Config)
    requires SensibleFetch(f) && n > 0
    ensures (exists k: nat :: Turns(f, n, update, cfg, k) == Over) <==> !Stuck(f)
  {
    if Stuck(f) {
      forall k: nat ensures Turns(f, n, update, cfg, k) != Over { StuckTurnsForever(f, n, update, cfg, k); }
    } else {
      var k := TurnsEnd(f, n, update, cfg);
    }
  }

  /** A partition whose one record cannot be read, fetched at that record. */
  function PoisonedFetch(tp: TopicPartition): Fetch {
    var bad := Batch(2, 5, 5, -1, false, NoMarker, true, [Record(5, "", true, false)]);
    Fetch(map[tp := Untracked.(position := Some(5))], [Completed(tp, 5, 10, NoError, -1, [bad], false, [])], None, None)
  }

  /** One unreadable record is enough to get there: the first call raises, and a second never returns. */
  lemma OneFaultGetsStuck(tp: TopicPartition)
    ensures var r := Poll(PoisonedFetch(tp), 500, true, Config(ReadUncommitted, true, None));
      r.result == Err(Unpacking(RecordFilter.Unreadable(5))) && Stuck(r.fetch)
  {
    var cfg := Config(ReadUncommitted, true, None);
    var f := PoisonedFetch(tp);
    var bad := f.completed[0].batches[0];
    var p := Opened(5, [bad], ReadUncommitted, true, []);
    var g := Fetch(f.assignment, [], Some(Open(tp, p)), None);
    assert Iterate(f, 500, true, cfg) == Went(g, []);
    var read := p.gen.(batches := [], last := Some(bad), current := bad.records);
    assert [bad][1..] == [];
    assert AfterHeader(p.gen.(batches := [], last := Some(bad)), bad, ReadUncommitted) == p.gen.(batches := [], last := Some(bad));
    assert Resume(p.gen, ReadUncommitted, true) == Resume(read, ReadUncommitted, true) == (Raise(RecordFilter.Unreadable(5)), read);
    var dead := p.(gen := read, status := Dead);
    assert Next(p) == (Raise(RecordFilter.Unreadable(5)), dead);
    assert Take(p, 500) == Threw(RecordFilter.Unreadable(5), dead);
    var h := g.(next := Some(Open(tp, dead)));
    assert Iterate(g, 500, true, cfg) == Raised(h, Stored(tp, 5, Unpacking(RecordFilter.Unreadable(5))));
    assert Loop(g, [] + [], 500, true, cfg) == Looped(h, [] + [], Some(Stored(tp, 5, Unpacking(RecordFilter.Unreadable(5)))));
    assert Loop(f, [], 500, true, cfg) == Loop(g, [] + [], 500, true, cfg);
  }

  /** A call hands out at most `max` records. */
  lemma {:induction false} LoopIsBounded(f: Fetch, got: seq<Delivery>, n: nat, update: bool, cfg: Config)
    requires SensibleFetch(f) && !Stuck(f)
    ensures got <= Loop(f, got, n, update, cfg).got && |Loop(f, got, n, update, cfg).got| <= |got| + n
    decreases |f.completed|, Rank(f.next), n
  {
    hide Loop, Iterate, Stuck, SensibleFetch;
    if n == 0 {
      LoopIsOver(f, got, update, cfg);
    } else {
      LoopTurns(f, got, n, update, cfg);
      var r := Iterate(f, n, update, cfg);
      if r.Went? { LoopIsBounded(r.fetch, got + r.got, n - |r.got|, update, cfg); }
    }
  }

  lemma PollIsBounded(f: Fetch, max: nat, update: bool, cfg: Config)
    requires ComesBack(f)
    ensures Poll(f, max, update, cfg).result.Ok? ==> |Poll(f, max, update, cfg).result.value| <= max
  {
    if !RaisesStored(f) { LoopIsBounded(f.(stored := None), [], max, update, cfg); }
  }
}
