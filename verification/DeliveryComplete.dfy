/**
 Completeness of delivery: when every response is a slice of one log per partition, what was handed out for a
 partition since it was positioned is exactly what a reader of that log is meant to see between there and the
 position, whatever responses arrive, in whatever order and however often.
 */
module DeliveryComplete {
  import opened Wrappers
  import opened Structs
  import opened RecordFilter
  import opened Offsets
  import opened ReadCommitted
  import opened Subscriptions
  import opened FetchLoop
  import D = DeliveryOrder

  // ---------- a slice of the log ----------

  /** What a reader of the whole log is meant to see. */
  ghost function Seen(log: seq<Batch>, iso: Isolation): seq<Record> { Visible(log, 0, |log|, iso) }

  lemma {:induction false} VisibleSplits(log: seq<Batch>, lo: nat, mid: nat, hi: nat, iso: Isolation)
    requires lo <= mid <= hi <= |log|
    ensures Visible(log, lo, hi, iso) == Visible(log, lo, mid, iso) + Visible(log, mid, hi, iso)
    decreases mid - lo
  {
    if lo < mid {
      VisibleSplits(log, lo + 1, mid, hi, iso);
      Associates(if Shown(log, lo, iso) then log[lo].records else [], Visible(log, lo + 1, mid, iso), Visible(log, mid, hi, iso));
    } else {
      Associates([], Visible(log, mid, hi, iso), []);
    }
  }

  lemma {:induction false} VisibleEnds(log: seq<Batch>, lo: nat, hi: nat, iso: Isolation, offset: int)
    requires WellFormedLog(log) && lo <= hi <= |log|
    requires forall j :: lo <= j < hi ==> log[j].lastOffset < offset
    ensures forall i :: 0 <= i < |Visible(log, lo, hi, iso)| ==> Visible(log, lo, hi, iso)[i].offset < offset
    decreases hi - lo
  {
    if lo < hi { VisibleEnds(log, lo + 1, hi, iso, offset); }
  }

  /** A slice that starts no later than `from` shows what the whole log shows between `from` and any offset up to its end. */
  lemma SliceIsBetween(log: seq<Batch>, lo: nat, hi: nat, iso: Isolation, from: int, to: int)
    requires WellFormedLog(log) && lo < hi <= |log|
    requires forall j :: 0 <= j < lo ==> log[j].lastOffset < from
    ensures var slice, end := Visible(log, lo, hi, iso), log[hi - 1].NextOffset();
      && (to <= end ==> Between(slice, from, to) == Between(Seen(log, iso), from, to))
      && AtOrAfter(slice, from) == Between(Seen(log, iso), from, end)
  {
    var end := log[hi - 1].NextOffset();
    SliceUpTo(log, lo, hi, iso, from, end);
    if to <= end { SliceUpTo(log, lo, hi, iso, from, to); }
    VisibleEnds(log, lo, hi, iso, end);
    hide Visible, Between, AtOrAfter;
    BetweenIsAtOrAfter(Visible(log, lo, hi, iso), from, end);
  }

  lemma SliceUpTo(log: seq<Batch>, lo: nat, hi: nat, iso: Isolation, from: int, to: int)
    requires WellFormedLog(log) && lo < hi <= |log| && to <= log[hi - 1].NextOffset()
    requires forall j :: 0 <= j < lo ==> log[j].lastOffset < from
    ensures Between(Visible(log, lo, hi, iso), from, to) == Between(Seen(log, iso), from, to)
  {
    var before, slice, behind := Visible(log, 0, lo, iso), Visible(log, lo, hi, iso), Visible(log, hi, |log|, iso);
    VisibleSplits(log, 0, lo, hi, iso);
    VisibleSplits(log, 0, hi, |log|, iso);
    VisibleEnds(log, 0, lo, iso, from);
    VisibleIncreases(log, hi, |log|, iso);
    hide Visible, Between;
    NoneBetween(before, from, to);
    NoneBetween(behind, from, to);
    BetweenConcat(before, slice, from, to);
    BetweenConcat(before + slice, behind, from, to);
    Associates([], Between(slice, from, to), []);
  }

  // ---------- a part of the log that is being taken ----------

  /** Versions below 4 carry no list; a response of theirs may hold nothing of an aborted transaction. */
  ghost predicate ListsAborted(log: seq<Batch>, lo: nat, hi: nat, c: Completed)
    requires lo <= hi <= |log|
  {
    if c.version >= 4 then AbortIndex(log, lo, hi, c.txns) else AbortIndex(log, lo, hi, [])
  }

  ghost predicate SliceOf(log: seq<Batch>, c: Completed, iso: Isolation, lo: int, hi: int) {
    && 0 <= lo <= hi <= |log| && c.batches == log[lo..hi]
    && (iso == ReadCommitted ==> ListsAborted(log, lo, hi, c))
    && (forall j :: 0 <= j < lo ==> log[j].lastOffset < c.fetchOffset)
    && (lo < hi ==> c.fetchOffset <= log[hi - 1].NextOffset())
  }

  /** The response, if it carries no error, is a slice of the log that starts no later than the fetch offset and reaches it. */
  ghost predicate Answers(log: seq<Batch>, c: Completed, iso: Isolation) {
    c.error.NoError? ==> exists lo, hi :: SliceOf(log, c, iso, lo, hi)
  }

  /** What is left to take is what the log shows from the next offset to where the rest stops, at the end or at an exception. */
  ghost predicate Covers(p: Part, log: seq<Batch>, iso: Isolation) {
    var rest, end := Rest(p), Rest(p).part.gen.next;
    rest.end.Stop? || rest.records != [] ==> p.gen.next <= end && rest.records == Between(Seen(log, iso), p.gen.next, end)
  }

  /** Of a log that can be read without exception nothing raises. */
  ghost predicate Exact(p: Part, log: seq<Batch>, iso: Isolation) {
    && (p.status == Live ==> p.pending == None && Covers(p, log, iso))
    && (Sound(log) ==> p.status != Dead && p.pending == None && (p.status == Live ==> Rest(p).end.Stop?))
  }

  lemma OpenedIsExact(log: seq<Batch>, c: Completed, cfg: Config)
    requires WellFormedLog(log) && c.error.NoError? && Answers(log, c, cfg.iso)
    ensures Exact(Opened(c.fetchOffset, c.batches, cfg.iso, cfg.checkCrcs, AbortedOf(c)), log, cfg.iso)
  {
    var lo: nat, hi: nat :| SliceOf(log, c, cfg.iso, lo, hi);
    var p := Opened(c.fetchOffset, c.batches, cfg.iso, cfg.checkCrcs, AbortedOf(c));
    FilterIsExact(log, lo, hi, cfg.iso, cfg.checkCrcs, AbortedOf(c), c.fetchOffset);
    if Sound(log) { SoundIsClean(log, lo, hi, cfg.iso, cfg.checkCrcs); }
    hide Rest, Visible, Sound, Clean;
    if lo < hi { SliceIsBetween(log, lo, hi, cfg.iso, c.fetchOffset, Rest(p).part.gen.next); }
    else { NoneBetween(Seen(log, cfg.iso), c.fetchOffset, c.fetchOffset); }
  }

  lemma {:induction false} ResumeEndsBehind(g: Gen, iso: Isolation, checkCrcs: bool)
    ensures var (y, h) := Resume(g, iso, checkCrcs); y.Item? ==> h.next == y.record.offset + 1
    decreases |g.batches|
  {
    if g.current == [] && g.batches != [] && !(checkCrcs && !g.batches[0].crcOk) {
      var b := g.batches[0];
      var h := AfterHeader(g.(batches := g.batches[1..], last := Some(b)), b, iso);
      ResumeEndsBehind(if Skips(h, b, iso) then h.(next := b.NextOffset()) else h.(current := b.records), iso, checkCrcs);
    }
  }

  lemma {:induction false} NextEndsBehind(p: Part)
    requires p.status == Live
    ensures var (y, q) := Next(p); y.Item? ==> q.gen.next == y.record.offset + 1
    decreases GenSize(p.gen)
  {
    var (y, g) := Resume(p.gen, p.iso, p.checkCrcs);
    ResumeEndsBehind(p.gen, p.iso, p.checkCrcs);
    if y.Item? && p.dropping && y.record.offset < p.fetchOffset { NextEndsBehind(p.(gen := g)); }
  }

  lemma {:induction false} PullEndsBehind(p: Part, n: nat, acc: seq<Record>)
    requires p.status == Live && p.pending == None && 0 < n <= |Rest(p).records|
    ensures Pull(p, n, acc).part.gen.next == Rest(p).records[n - 1].offset + 1
    decreases n
  {
    NextEndsBehind(p);
    NextKeepsPending(p);
    NextStatus(p);
    if n > 1 { PullEndsBehind(Next(p).1, n - 1, acc + [Next(p).0.record]); }
  }

  /** A take hands out what the log shows from the old next offset up to the new one. */
  lemma TakeIsExact(p: Part, n: nat, log: seq<Batch>, iso: Isolation)
    requires WellFormedLog(log) && Exact(p, log, iso) && p.status == Live
    ensures var t := Take(p, n);
      && Exact(t.part, log, iso) && (Sound(log) ==> t.Took?)
      && (t.Took? ==> p.gen.next <= t.part.gen.next && t.records == Between(Seen(log, iso), p.gen.next, t.part.gen.next))
  {
    assert Take(p, n) == Pull(p, n, []) && Pull(p, 0, []) == Took([], p);
    hide Rest, Visible, Between, Take, Pull, Sound;
    TakeHandsOutPrefix(p, Rest(p), n);
    RestEnds(p);
    if n == 0 {
      assert Rest(p).records[..0] == [] && Rest(p).records[0..] == Rest(p).records;
      NoneBetween(Seen(log, iso), p.gen.next, p.gen.next);
    } else if n <= |Rest(p).records| {
      PartTaken(p, n, log, iso);
    }
  }

  /** A take that leaves some, or just takes the last. */
  lemma PartTaken(p: Part, n: nat, log: seq<Batch>, iso: Isolation)
    requires WellFormedLog(log) && Exact(p, log, iso) && p.status == Live && 0 < n <= |Rest(p).records|
    ensures var t := Take(p, n);
      && t.Took? && Exact(t.part, log, iso) && p.gen.next <= t.part.gen.next
      && t.records == Between(Seen(log, iso), p.gen.next, t.part.gen.next)
  {
    assert Take(p, n) == Pull(p, n, []);
    hide Rest, Visible, Between, Take, Pull, Sound;
    TakeHandsOutPrefix(p, Rest(p), n);
    PullEndsBehind(p, n, []);
    VisibleIncreases(log, 0, |log|, iso);
    BetweenSplits(Seen(log, iso), p.gen.next, Rest(p).part.gen.next, n);
    hide WellFormedLog, Increasing;
  }

  /** A dead part with nothing stored gives nothing, and one with something stored raises it. */
  lemma DeadTakeIsExact(p: Part, n: nat, log: seq<Batch>, iso: Isolation)
    requires Exact(p, log, iso) && p.status == Dead
    ensures var t := Take(p, n);
      && Exact(t.part, log, iso) && t.part.status == Dead && t.part.gen == p.gen
      && (t.Took? ==> t.records == [] && Between(Seen(log, iso), p.gen.next, p.gen.next) == [])
  {
    NoneBetween(Seen(log, iso), p.gen.next, p.gen.next);
    assert n > 0 ==> Next(p) == (Stop, p);
    hide Rest, Visible, Between;
  }

  // ---------- the consumer over a whole run ----------

  type Logs = TopicPartition -> seq<Batch>

  ghost predicate GoodLogs(logs: Logs) { forall tp :: WellFormedLog(logs(tp)) }

  /** Nothing in the logs raises when it is unpacked. */
  ghost predicate SoundLogs(logs: Logs) { forall tp :: Sound(logs(tp)) }

  /** Since the partition was positioned at `base`, exactly what its log shows up to the position was delivered. */
  ghost predicate ExactlyDelivered(t: Tracked, delivered: seq<Record>, base: Option<int>, log: seq<Batch>, iso: Isolation) {
    t.position.Some? ==>
      base.Some? && base.value <= t.position.value && delivered == Between(Seen(log, iso), base.value, t.position.value)
  }

  ghost predicate DeliveredExactly(a: Assignment, delivered: map<TopicPartition, seq<Record>>, base: map<TopicPartition, int>,
                                   logs: Logs, iso: Isolation) {
    forall tp :: tp in a ==> ExactlyDelivered(a[tp], Of(delivered, tp), D.BaseOf(base, tp), logs(tp), iso)
  }

  ghost predicate FetchExact(f: Fetch, logs: Logs, iso: Isolation) {
    && (forall i :: 0 <= i < |f.completed| ==> Answers(logs(f.completed[i].tp), f.completed[i], iso))
    && (f.next.Some? ==> Exact(f.next.value.part, logs(f.next.value.tp), iso))
  }

  ghost predicate Inv(w: D.World, logs: Logs, iso: Isolation) {
    FetchExact(w.fetch, logs, iso) && DeliveredExactly(w.fetch.assignment, w.delivered, w.base, logs, iso)
  }

  /** Every position stays, or is given up. */
  ghost predicate NoneMoved(a: Assignment, b: Assignment) {
    a.Keys == b.Keys && forall tp :: tp in a ==> b[tp].position == a[tp].position || b[tp].position == None
  }

  lemma NoneMovedKeeps(a: Assignment, b: Assignment, delivered: map<TopicPartition, seq<Record>>, base: map<TopicPartition, int>,
                       logs: Logs, iso: Isolation)
    requires DeliveredExactly(a, delivered, base, logs, iso) && NoneMoved(a, b)
    ensures DeliveredExactly(b, delivered, base, logs, iso)
  {
  }

  lemma ParseIsExact(a: Assignment, c: Completed, cfg: Config, logs: Logs)
    requires GoodLogs(logs) && Answers(logs(c.tp), c, cfg.iso)
    ensures var (b, r) := Parse(a, c, cfg);
      NoneMoved(a, b) && (r.Ok? && r.value.Some? ==> r.value.value.tp == c.tp && Exact(r.value.value.part, logs(c.tp), cfg.iso))
  {
    if c.error.NoError? { OpenedIsExact(logs(c.tp), c, cfg); }
    hide Exact, Answers;
  }

  lemma ParseKeepsInv(w: D.World, n: nat, cfg: Config, logs: Logs)
    requires GoodLogs(logs) && Inv(w, logs, cfg.iso) && !IsLive(w.fetch.next) && w.fetch.completed != []
    ensures var r := Iterate(w.fetch, n, true, cfg);
      && Inv(w.(fetch := r.fetch), logs, cfg.iso)
      && (r.Went? ==> r.got == [] && Extend(w.delivered, r.got) == w.delivered)
  {
    var c := w.fetch.completed[0];
    ParseIsExact(w.fetch.assignment, c, cfg, logs);
    NoneMovedKeeps(w.fetch.assignment, Parse(w.fetch.assignment, c, cfg).0, w.delivered, w.base, logs, cfg.iso);
    hide DeliveredExactly, Exact, Answers, Parse;
  }

  ghost predicate MovesOver(a: Assignment, tp: TopicPartition, to: int, b: Assignment, records: seq<Record>, log: seq<Batch>, iso: Isolation) {
    && tp in a && a[tp].position.Some? && a[tp].position.value <= to
    && b == a[tp := a[tp].(position := Some(to))]
    && records == Between(Seen(log, iso), a[tp].position.value, to)
  }

  /** The position moves over exactly the records that are handed out, and stays at an exception. */
  lemma AppendIsExact(a: Assignment, o: Open, n: nat, log: seq<Batch>, iso: Isolation)
    requires WellFormedLog(log) && Exact(o.part, log, iso)
    ensures var r := Append(a, o, n, true);
      && r.open.tp == o.tp && Exact(r.open.part, log, iso)
      && ((r.assignment == a && (r.result.Ok? ==> r.result.value == []))
          || (r.result.Ok? && MovesOver(a, o.tp, r.open.part.gen.next, r.assignment, r.result.value, log, iso)))
  {
    if InLine(a, o) {
      if o.part.status == Live { TakeIsExact(o.part, n, log, iso); }
      else if o.part.status == Dead { DeadTakeIsExact(o.part, n, log, iso); }
    }
    hide Rest, Between, Take, Sound, Visible;
  }

  lemma MovingKeeps(w: D.World, tp: TopicPartition, to: int, b: Assignment, records: seq<Record>, logs: Logs, iso: Isolation)
    requires GoodLogs(logs) && DeliveredExactly(w.fetch.assignment, w.delivered, w.base, logs, iso)
    requires MovesOver(w.fetch.assignment, tp, to, b, records, logs(tp), iso)
    ensures DeliveredExactly(b, Extend(w.delivered, Tag(tp, records)), w.base, logs, iso)
  {
    TaggedLands(w.delivered, tp, records);
    VisibleIncreases(logs(tp), 0, |logs(tp)|, iso);
    assert ExactlyDelivered(w.fetch.assignment[tp], Of(w.delivered, tp), D.BaseOf(w.base, tp), logs(tp), iso);
    BetweenJoins(Seen(logs(tp), iso), w.base[tp], w.fetch.assignment[tp].position.value, to);
    hide Extend, Tag, Between, Visible;
  }

  lemma AppendKeepsInv(w: D.World, n: nat, cfg: Config, logs: Logs)
    requires GoodLogs(logs) && Inv(w, logs, cfg.iso) && IsLive(w.fetch.next)
    ensures var r := Iterate(w.fetch, n, true, cfg);
      && (r.Went? ==> Inv(D.World(r.fetch, Extend(w.delivered, r.got), w.base), logs, cfg.iso))
      && (r.Raised? ==> Inv(w.(fetch := r.fetch), logs, cfg.iso))
  {
    var a, o := w.fetch.assignment, w.fetch.next.value;
    AppendIsExact(a, o, n, logs(o.tp), cfg.iso);
    var r := Append(a, o, n, true);
    if r.result.Ok? {
      if r.assignment == a && r.result.value == [] {
        assert Extend(w.delivered, Tag(o.tp, [])) == w.delivered by { TaggedIs(w.delivered, o.tp, []); }
      } else {
        MovingKeeps(w, o.tp, r.open.part.gen.next, r.assignment, r.result.value, logs, cfg.iso);
      }
    }
    hide DeliveredExactly, Exact, Answers, Append, MovesOver, Extend;
  }

  ghost predicate TurnKeepsInv(w: D.World, turn: Iterated, got: seq<Delivery>, logs: Logs, iso: Isolation) {
    && (turn.Went? ==> Inv(D.World(turn.fetch, Extend(w.delivered, got + turn.got), w.base), logs, iso))
    && (turn.Raised? ==> Inv(D.World(turn.fetch, Extend(w.delivered, got), w.base), logs, iso))
  }

  lemma IterationKeepsInv(w: D.World, f: Fetch, got: seq<Delivery>, n: nat, cfg: Config, logs: Logs)
    requires GoodLogs(logs) && Inv(D.World(f, Extend(w.delivered, got), w.base), logs, cfg.iso)
    ensures TurnKeepsInv(w, Iterate(f, n, true, cfg), got, logs, cfg.iso)
  {
    hide Inv;
    var now := D.World(f, Extend(w.delivered, got), w.base);
    if IsLive(f.next) { AppendKeepsInv(now, n, cfg, logs); }
    else if f.completed != [] { ParseKeepsInv(now, n, cfg, logs); }
    var r := Iterate(f, n, true, cfg);
    if r.Went? { ExtendTwice(w.delivered, got, r.got); }
  }

  lemma LoopKeepsInv(w: D.World, max: nat, cfg: Config, logs: Logs)
    requires GoodLogs(logs) && Inv(w, logs, cfg.iso) && SensibleFetch(w.fetch) && !Stuck(w.fetch)
    ensures var r := Loop(w.fetch, [], max, true, cfg); Inv(D.World(r.fetch, Extend(w.delivered, r.got), w.base), logs, cfg.iso)
  {
    ghost var keeps := (f: Fetch, got: seq<Delivery>) => Inv(D.World(f, Extend(w.delivered, got), w.base), logs, cfg.iso);
    forall f, got, n | keeps(f, got) && n > 0 && SensibleFetch(f) && !Stuck(f)
      ensures D.IterationKeeps(keeps, f, got, n, cfg)
    {
      IterationKeepsInv(w, f, got, n, cfg, logs);
    }
    D.LoopInduction(keeps, w.fetch, [], max, cfg);
  }

  lemma PollKeepsInv(w: D.World, max: nat, cfg: Config, logs: Logs)
    requires GoodLogs(logs) && Inv(w, logs, cfg.iso) && ComesBack(w.fetch)
    ensures var p := Poll(w.fetch, max, true, cfg);
      Inv(D.World(p.fetch, if p.result.Ok? then Extend(w.delivered, p.result.value) else w.delivered, w.base), logs, cfg.iso)
  {
    var f := w.fetch.(stored := None);
    StoredDoesNotMatter(w, None, logs, cfg.iso);
    if !RaisesStored(w.fetch) {
      LoopKeepsInv(w.(fetch := f), max, cfg, logs);
      var r := Loop(f, [], max, true, cfg);
      var stored := D.PollIsLoop(w.fetch, max, cfg);
      StoredDoesNotMatter(D.World(r.fetch, Extend(w.delivered, r.got), w.base), stored, logs, cfg.iso);
    }
  }

  lemma StoredDoesNotMatter(w: D.World, stored: Option<Stored>, logs: Logs, iso: Isolation)
    requires Inv(w, logs, iso)
    ensures Inv(w.(fetch := w.fetch.(stored := stored)), logs, iso)
  {
  }

  lemma PositioningKeepsInv(w: D.World, e: D.Event, cfg: Config, logs: Logs)
    requires Inv(w, logs, cfg.iso) && D.Enabled(w, e) && (e.Seeks? || e.ResetRequested? || e.Pauses? || e.MissingReset?)
    ensures Inv(D.Do(w, e, cfg), logs, cfg.iso)
  {
    if e.Seeks? { NoneBetween(Seen(logs(e.tp), cfg.iso), e.offset, e.offset); }
    hide Between, Exact, Answers, Visible;
    if !e.Seeks? {
      NoneMovedKeeps(w.fetch.assignment, D.Do(w, e, cfg).fetch.assignment, w.delivered, w.base, logs, cfg.iso);
      hide DeliveredExactly;
    }
  }

  lemma AssigningKeepsInv(w: D.World, e: D.Event, cfg: Config, logs: Logs)
    requires Inv(w, logs, cfg.iso) && D.Enabled(w, e) && (e.UserAssigns? || e.GroupAssigns?)
    ensures Inv(D.Do(w, e, cfg), logs, cfg.iso)
  {
    hide Between, Exact, Answers;
  }

  lemma ArrivingKeepsInv(w: D.World, e: D.Event, cfg: Config, logs: Logs)
    requires Inv(w, logs, cfg.iso) && D.Enabled(w, e) && e.Arrives? && Answers(logs(e.completed.tp), e.completed, cfg.iso)
    ensures Inv(D.Do(w, e, cfg), logs, cfg.iso)
  {
    hide Exact, Answers, DeliveredExactly;
  }

  lemma EventKeepsInv(w: D.World, e: D.Event, cfg: Config, logs: Logs)
    requires GoodLogs(logs) && Inv(w, logs, cfg.iso) && D.Enabled(w, e) && FromLogs(e, logs, cfg.iso)
    ensures Inv(D.Do(w, e, cfg), logs, cfg.iso)
  {
    hide Inv;
    if e.Polls? { PollKeepsInv(w, e.max, cfg, logs); }
    else if e.Arrives? { ArrivingKeepsInv(w, e, cfg, logs); }
    else if e.UserAssigns? || e.GroupAssigns? { AssigningKeepsInv(w, e, cfg, logs); }
    else { PositioningKeepsInv(w, e, cfg, logs); }
  }

  /** A response that arrives is one to a fetch from the logs. */
  ghost predicate FromLogs(e: D.Event, logs: Logs, iso: Isolation) {
    e.Arrives? ==> Answers(logs(e.completed.tp), e.completed, iso)
  }

  lemma {:induction false} RunKeepsInv(w: D.World, events: seq<D.Event>, cfg: Config, logs: Logs)
    requires GoodLogs(logs) && Inv(w, logs, cfg.iso) && D.Run(w, events, cfg)
    requires forall i :: 0 <= i < |events| ==> FromLogs(events[i], logs, cfg.iso)
    ensures Inv(D.After(w, events, cfg), logs, cfg.iso)
    decreases |events|
  {
    hide Inv, FromLogs, D.Enabled, D.Do;
    if events != [] {
      EventKeepsInv(w, events[0], cfg, logs);
      RunKeepsInv(D.Do(w, events[0], cfg), events[1..], cfg, logs);
    }
  }

  /**
   After any run of polls, seeks, resets, pauses, reassignments and responses, each a slice of the partition's log that
   starts no later than its fetch offset, with records and batches that raise when they are unpacked or not: what was
   delivered for a positioned partition is exactly what its log shows
   from the offset it was positioned at up to its position. Nothing is lost, repeated or shown that should not be.
   */
  lemma DeliversExactly(events: seq<D.Event>, cfg: Config, logs: Logs, tp: TopicPartition)
    requires GoodLogs(logs) && D.Run(D.Start, events, cfg)
    requires forall i :: 0 <= i < |events| ==> FromLogs(events[i], logs, cfg.iso)
    requires var a := D.After(D.Start, events, cfg).fetch.assignment; tp in a && a[tp].position.Some?
    ensures var w := D.After(D.Start, events, cfg);
      && tp in w.base && w.base[tp] <= w.fetch.assignment[tp].position.value
      && Of(w.delivered, tp) == Between(Seen(logs(tp), cfg.iso), w.base[tp], w.fetch.assignment[tp].position.value)
  {
    RunKeepsInv(D.Start, events, cfg, logs);
    var w := D.After(D.Start, events, cfg);
    assert ExactlyDelivered(w.fetch.assignment[tp], Of(w.delivered, tp), D.BaseOf(w.base, tp), logs(tp), cfg.iso);
  }

  lemma ExactIsSensible(f: Fetch, logs: Logs, iso: Isolation)
    requires FetchExact(f, logs, iso) && SoundLogs(logs)
    ensures SensibleFetch(f) && !Stuck(f)
  {
    hide Sound, Covers, Rest, Answers;
  }

  /** When nothing in the logs raises, the loop of a poll never starts where it would not come back. */
  lemma SoundLogsNeverStick(events: seq<D.Event>, cfg: Config, logs: Logs)
    requires GoodLogs(logs) && SoundLogs(logs) && D.Run(D.Start, events, cfg)
    requires forall i :: 0 <= i < |events| ==> FromLogs(events[i], logs, cfg.iso)
    ensures var f := D.After(D.Start, events, cfg).fetch; SensibleFetch(f) && !Stuck(f)
  {
    assert Inv(D.Start, logs, cfg.iso);
    hide D.Enabled, D.Do, FetchExact, Stuck, SensibleFetch, SoundLogs, DeliveredExactly;
    RunKeepsInv(D.Start, events, cfg, logs);
    ExactIsSensible(D.After(D.Start, events, cfg).fetch, logs, cfg.iso);
  }
}
