/**
 Order of delivery: between seeks, resets and reassignments the records handed out for a partition have
 strictly increasing offsets from its position on, and the position never goes back, whatever responses
 arrive, in whatever order and however often.
 */
module DeliveryOrder {
  import opened Wrappers
  import opened Structs
  import opened RecordFilter
  import opened Offsets
  import opened Subscriptions
  import opened FetchLoop

  // ---------- what a broker's response is relied on for ----------

  ghost predicate Within(s: seq<Record>, lo: int, hi: int) {
    forall i :: 0 <= i < |s| ==> lo <= s[i].offset < hi
  }

  ghost predicate OrderedBatches(bs: seq<Batch>) {
    && (forall i :: 0 <= i < |bs| ==> bs[i].baseOffset <= bs[i].lastOffset && Increasing(bs[i].records)
                                      && Within(bs[i].records, bs[i].baseOffset, bs[i].NextOffset()))
    && (forall i, j :: 0 <= i < j < |bs| ==> bs[i].lastOffset < bs[j].baseOffset)
  }

  /** Where reading the batch to its end leaves the fetch offset. */
  ghost predicate EndsAtOrPast(b: Batch, offset: int) {
    if b.magic == 2 then b.NextOffset() >= offset
    else b.records != [] && b.records[|b.records| - 1].offset + 1 >= offset
  }

  ghost predicate WellFormed(c: Completed) {
    OrderedBatches(c.batches) && (c.batches != [] ==> EndsAtOrPast(c.batches[|c.batches| - 1], c.fetchOffset))
  }

  // ---------- the generator ----------

  ghost predicate Ordered(g: Gen) {
    && Increasing(g.current) && OrderedBatches(g.batches)
    && (forall i, j :: 0 <= i < |g.current| && 0 <= j < |g.batches| ==> g.current[i].offset < g.batches[j].baseOffset)
    && (g.last.Some? ==>
         && (forall i :: 0 <= i < |g.current| ==> g.current[i].offset < g.last.value.NextOffset())
         && (forall j :: 0 <= j < |g.batches| ==> g.last.value.lastOffset < g.batches[j].baseOffset))
  }

  ghost predicate From(g: Gen, lo: int) {
    && (forall i :: 0 <= i < |g.current| ==> lo <= g.current[i].offset)
    && (forall j :: 0 <= j < |g.batches| ==> lo <= g.batches[j].baseOffset)
    && (g.last.Some? ==> lo <= g.last.value.NextOffset())
  }

  /** The fetch offset at the end of the generator will be at least `offset`. */
  ghost predicate Reaches(g: Gen, offset: int) {
    if g.batches != [] then EndsAtOrPast(g.batches[|g.batches| - 1], offset)
    else if g.last.Some? && g.last.value.magic == 2 then g.last.value.NextOffset() >= offset
    else if g.current != [] then g.current[|g.current| - 1].offset + 1 >= offset
    else g.next >= offset
  }

  /** Reading the header of the next batch, into its records or past it. */
  lemma BatchKeepsOrder(g: Gen, n: Gen)
    requires Ordered(g) && g.current == [] && g.batches != []
    requires n.batches == g.batches[1..] && n.last == Some(g.batches[0])
    requires (n.current == [] && n.next == g.batches[0].NextOffset()) || (n.current == g.batches[0].records && n.next == g.next)
    ensures Ordered(n)
    ensures From(g, g.next) ==> From(n, n.next) && g.next <= n.next
  {
    assert forall j :: 0 <= j < |n.batches| ==> n.batches[j] == g.batches[j + 1];
  }

  /** Yielding the next record of the batch being read. */
  lemma RecordKeepsOrder(g: Gen, n: Gen)
    requires Ordered(g) && g.current != []
    requires n == g.(current := g.current[1..], next := g.current[0].offset + 1)
    ensures Ordered(n) && From(n, n.next)
  {
    assert forall i :: 0 <= i < |n.current| ==> n.current[i] == g.current[i + 1];
  }

  lemma {:induction false} ResumeKeepsOrder(g: Gen, iso: Isolation, checkCrcs: bool)
    requires Ordered(g)
    ensures var (y, h) := Resume(g, iso, checkCrcs);
      && (y.Item? ==> Ordered(h) && From(h, h.next) && h.next == y.record.offset + 1)
      && (From(g, g.next) ==> h.next >= g.next && (y.Item? ==> y.record.offset >= g.next))
    decreases |g.batches|
  {
    if g.current != [] {
      RecordKeepsOrder(g, g.(current := g.current[1..], next := g.current[0].offset + 1));
    } else if g.batches != [] {
      var b := g.batches[0];
      if !(checkCrcs && !b.crcOk) {
        var h := AfterHeader(g.(batches := g.batches[1..], last := Some(b)), b, iso);
        var n := if Skips(h, b, iso) then h.(next := b.NextOffset()) else h.(current := b.records);
        BatchKeepsOrder(g, n);
        ResumeKeepsOrder(n, iso, checkCrcs);
      }
    }
  }

  lemma {:induction false} ResumeKeepsReach(g: Gen, iso: Isolation, checkCrcs: bool, offset: int)
    requires Reaches(g, offset)
    ensures var (y, h) := Resume(g, iso, checkCrcs);
      (y.Item? ==> Reaches(h, offset)) && (y.Stop? ==> h.next >= offset)
    decreases |g.batches|
  {
    if g.current == [] && g.batches != [] {
      var b := g.batches[0];
      if !(checkCrcs && !b.crcOk) {
        var h := AfterHeader(g.(batches := g.batches[1..], last := Some(b)), b, iso);
        ResumeKeepsReach(if Skips(h, b, iso) then h.(next := b.NextOffset()) else h.(current := b.records), iso, checkCrcs, offset);
      }
    }
  }

  // ---------- the partition between takes ----------

  ghost predicate Good(p: Part) {
    && (p.status == Live && p.dropping ==> Ordered(p.gen) && p.gen.next == p.fetchOffset && Reaches(p.gen, p.fetchOffset))
    && (p.status == Live && !p.dropping ==> Ordered(p.gen) && From(p.gen, p.gen.next))
  }

  lemma {:induction false} NextKeepsGood(p: Part)
    requires p.status == Live && Ordered(p.gen)
    requires if p.dropping then Reaches(p.gen, p.fetchOffset) else From(p.gen, p.gen.next)
    ensures var (y, q) := Next(p); var lo := if p.dropping then p.fetchOffset else p.gen.next;
      && (y.Item? ==> lo <= y.record.offset && q.gen.next == y.record.offset + 1 && Good(q) && !q.dropping && q.status == Live)
      && (y.Stop? ==> lo <= q.gen.next && q.status == Drained)
      && (y.Raise? ==> (!p.dropping ==> lo <= q.gen.next) && q.status == Dead)
    decreases GenSize(p.gen)
  {
    hide Resume, Ordered, From, Reaches;
    var (y, g) := Resume(p.gen, p.iso, p.checkCrcs);
    ResumeKeepsOrder(p.gen, p.iso, p.checkCrcs);
    if p.dropping {
      ResumeKeepsReach(p.gen, p.iso, p.checkCrcs, p.fetchOffset);
      if y.Item? && y.record.offset < p.fetchOffset { NextKeepsGood(p.(gen := g)); }
    }
  }

  /** What a pull collected on top of `acc`: in order, from the old fetch offset up to the new one. */
  lemma {:induction false} PullIsOrdered(p: Part, n: nat, acc: seq<Record>, lo: int)
    requires Good(p) && p.status == Live && (acc != [] ==> !p.dropping)
    requires Increasing(acc) && Within(acc, lo, p.gen.next) && lo <= p.gen.next
    ensures var t := Pull(p, n, acc);
      && Good(t.part)
      && (t.Took? ==> Increasing(t.records) && Within(t.records, lo, t.part.gen.next) && p.gen.next <= t.part.gen.next)
    decreases n
  {
    if n > 0 {
      NextKeepsGood(p);
      var (y, q) := Next(p);
      if y.Item? { PullIsOrdered(q, n - 1, acc + [y.record], lo); }
    }
  }

  lemma TakeIsOrdered(p: Part, n: nat)
    requires Good(p)
    ensures var t := Take(p, n);
      && Good(t.part)
      && (t.Took? ==> Increasing(t.records) && Within(t.records, p.gen.next, t.part.gen.next) && p.gen.next <= t.part.gen.next)
  {
    if p.status == Live { PullIsOrdered(p, n, [], p.gen.next); }
  }

  // ---------- the consumer over a whole run ----------

  /** `delivered` holds what was handed out per partition since `base`, its last seek or assignment. */
  datatype World = World(fetch: Fetch, delivered: map<TopicPartition, seq<Record>>, base: map<TopicPartition, int>)

  ghost predicate PartitionInv(t: Tracked, delivered: seq<Record>, base: Option<int>) {
    && t.OneOfThree() && Increasing(delivered)
    && (t.position.Some? ==> base.Some? && base.value <= t.position.value && Within(delivered, base.value, t.position.value))
  }

  function BaseOf(base: map<TopicPartition, int>, tp: TopicPartition): Option<int> {
    if tp in base then Some(base[tp]) else None
  }

  ghost predicate FetchInv(f: Fetch) {
    && SensibleFetch(f)
    && (forall i :: 0 <= i < |f.completed| ==> WellFormed(f.completed[i]))
    && (f.next.Some? ==> Good(f.next.value.part))
  }

  ghost predicate DeliveredInv(a: Assignment, delivered: map<TopicPartition, seq<Record>>, base: map<TopicPartition, int>) {
    && (forall tp :: tp in a ==> PartitionInv(a[tp], Of(delivered, tp), BaseOf(base, tp)))
  }

  ghost predicate Inv(w: World) {
    FetchInv(w.fetch) && DeliveredInv(w.fetch.assignment, w.delivered, w.base)
  }

  /** No position is lower than it was, unless it was given up. */
  ghost predicate Forward(a: Assignment, b: Assignment) {
    && a.Keys == b.Keys
    && (forall tp :: tp in a && a[tp].position.Some? && b[tp].position.Some? ==>
          a[tp].position.value <= b[tp].position.value)
    && (forall tp :: tp in a && a[tp].position == None ==> b[tp].position == None)
  }

  /** Parsing leaves every position alone, or gives one up; what it opens is good. */
  lemma ParseStep(a: Assignment, c: Completed, cfg: Config)
    requires WellFormed(c)
    ensures var (b, r) := Parse(a, c, cfg);
      && b.Keys == a.Keys
      && (forall tp :: tp in a ==> b[tp].OneOfThree() == a[tp].OneOfThree() || b[tp].OneOfThree())
      && (forall tp :: tp in a ==> b[tp].position == a[tp].position || b[tp].position == None)
      && (r.Ok? && r.value.Some? ==> Good(r.value.value.part) && Sensible(r.value.value.part))
  {
  }

  /** Appending moves at most one position, forward over exactly the records it hands out. */
  lemma AppendStep(a: Assignment, o: Open, n: nat)
    requires Good(o.part) && Sensible(o.part)
    ensures var r := Append(a, o, n, true);
      && Good(r.open.part) && Sensible(r.open.part)
      && (r.result.Err? || r.assignment == a ==> r.assignment == a && (r.result.Ok? ==> r.result.value == []))
      && (r.assignment != a ==>
            && r.result.Ok? && Fetchable(a, o.tp)
            && var from, to := a[o.tp].position.value, r.open.part.gen.next;
            && r.assignment == a[o.tp := a[o.tp].(position := Some(to))]
            && from <= to && Increasing(r.result.value) && Within(r.result.value, from, to))
  {
    if o.part.status != Drained && InLine(a, o) {
      TakeIsOrdered(o.part, n);
      TakeStaysSensible(o.part, n);
      assert a[o.tp := a[o.tp]] == a;
      var t := Take(o.part, n);
      if t.Took? && t.records != [] { assert o.part.gen.next <= t.records[0].offset < t.part.gen.next; }
    }
  }

  lemma IncreasingConcat(s: seq<Record>, t: seq<Record>, lo: int, mid: int, hi: int)
    requires Increasing(s) && Increasing(t) && Within(s, lo, mid) && Within(t, mid, hi) && lo <= mid <= hi
    ensures Increasing(s + t) && Within(s + t, lo, hi)
  {
  }

  /** Records from the old position up to the new one may be handed out. */
  lemma DeliveryKeepsInv(w: World, tp: TopicPartition, records: seq<Record>, to: int)
    requires DeliveredInv(w.fetch.assignment, w.delivered, w.base) && Fetchable(w.fetch.assignment, tp)
    requires var from := w.fetch.assignment[tp].position.value;
      from <= to && Increasing(records) && Within(records, from, to)
    ensures var a := w.fetch.assignment;
      var b := a[tp := a[tp].(position := Some(to))];
      DeliveredInv(b, Extend(w.delivered, Tag(tp, records)), w.base) && Forward(a, b)
  {
    TaggedLands(w.delivered, tp, records);
    IncreasingConcat(Of(w.delivered, tp), records, w.base[tp], w.fetch.assignment[tp].position.value, to);
  }

  lemma AppendKeepsInv(w: World, n: nat, cfg: Config)
    requires Inv(w) && IsLive(w.fetch.next)
    ensures var r := Iterate(w.fetch, n, true, cfg);
      && Forward(w.fetch.assignment, r.fetch.assignment)
      && (r.Went? ==> Inv(World(r.fetch, Extend(w.delivered, r.got), w.base)))
      && (r.Raised? ==> Inv(w.(fetch := r.fetch)))
  {
    var a, o := w.fetch.assignment, w.fetch.next.value;
    AppendStep(a, o, n);
    var r := Append(a, o, n, true);
    if r.assignment != a {
      DeliveryKeepsInv(w, o.tp, r.result.value, r.open.part.gen.next);
    }
  }

  lemma ParseKeepsInv(w: World, n: nat, cfg: Config)
    requires Inv(w) && !IsLive(w.fetch.next) && w.fetch.completed != []
    ensures var r := Iterate(w.fetch, n, true, cfg);
      && Inv(w.(fetch := r.fetch)) && Forward(w.fetch.assignment, r.fetch.assignment)
      && (r.Went? ==> r.got == [] && Extend(w.delivered, r.got) == w.delivered)
  {
    ParseStep(w.fetch.assignment, w.fetch.completed[0], cfg);
  }

  /** One iteration of the loop keeps everything, and adds what it hands out at the end. */
  lemma IterationKeepsInv(w: World, n: nat, cfg: Config)
    requires Inv(w)
    ensures var r := Iterate(w.fetch, n, true, cfg);
      && (r.Went? ==> Inv(World(r.fetch, Extend(w.delivered, r.got), w.base)) && Forward(w.fetch.assignment, r.fetch.assignment))
      && (r.Raised? ==> Inv(w.(fetch := r.fetch)) && Forward(w.fetch.assignment, r.fetch.assignment))
  {
    if IsLive(w.fetch.next) {
      AppendKeepsInv(w, n, cfg);
    } else if w.fetch.completed != [] {
      ParseKeepsInv(w, n, cfg);
    }
  }

  lemma ForwardTwice(a: Assignment, b: Assignment, c: Assignment)
    requires Forward(a, b) && Forward(b, c)
    ensures Forward(a, c)
  {
  }

  /** What one iteration keeps, for the records collected so far, the whole loop keeps. */
  lemma {:induction false} LoopInduction(keeps: (Fetch, seq<Delivery>) -> bool, f: Fetch, got: seq<Delivery>, n: nat, cfg: Config)
    requires SensibleFetch(f) && !Stuck(f) && keeps(f, got)
    requires forall g, gs, k :: keeps(g, gs) && k > 0 && SensibleFetch(g) && !Stuck(g) ==> IterationKeeps(keeps, g, gs, k, cfg)
    ensures var r := Loop(f, got, n, true, cfg); keeps(r.fetch, r.got)
    decreases |f.completed|, Rank(f.next), n
  {
    if n > 0 {
      assert IterationKeeps(keeps, f, got, n, cfg);
      var r := Iterate(f, n, true, cfg);
      if r.Went? {
        IterationAdvances(f, n, true, cfg);
        LoopInduction(keeps, r.fetch, got + r.got, n - |r.got|, cfg);
      }
    }
  }

  predicate IterationKeeps(keeps: (Fetch, seq<Delivery>) -> bool, f: Fetch, got: seq<Delivery>, n: nat, cfg: Config) {
    match Iterate(f, n, true, cfg)
    case Broke => true
    case Went(g, more) => keeps(g, got + more)
    case Raised(g, _) => keeps(g, got)
  }

  /** `f` with `got` on top of what `w` had delivered: still good, and no position moved back. */
  ghost predicate Later(w: World, f: Fetch, got: seq<Delivery>) {
    Inv(World(f, Extend(w.delivered, got), w.base)) && Forward(w.fetch.assignment, f.assignment)
  }

  lemma IterationKeepsLater(w: World, f: Fetch, got: seq<Delivery>, n: nat, cfg: Config)
    requires Later(w, f, got) && n > 0
    ensures match Iterate(f, n, true, cfg)
      case Broke => true
      case Went(g, more) => Later(w, g, got + more)
      case Raised(g, _) => Later(w, g, got)
  {
    IterationKeepsInv(World(f, Extend(w.delivered, got), w.base), n, cfg);
    var r := Iterate(f, n, true, cfg);
    if !r.Broke? { ForwardTwice(w.fetch.assignment, f.assignment, r.fetch.assignment); }
    if r.Went? { ExtendTwice(w.delivered, got, r.got); }
  }

  // ---------- runs ----------

  datatype Event =
    | Polls(max: nat)
    | Arrives(completed: Completed)
    | Seeks(tp: TopicPartition, offset: int)
    | ResetRequested(tp: TopicPartition, strategy: int)
    | Pauses(tp: TopicPartition, paused: bool)
    | UserAssigns(partitions: set<TopicPartition>)
    | GroupAssigns(partitions: set<TopicPartition>)
    | MissingReset(strategy: int)

  ghost predicate Enabled(w: World, e: Event) {
    match e
    case Polls(max) => max > 0 && ComesBack(w.fetch)
    case Arrives(c) => WellFormed(c)
    case _ => true
  }

  ghost function Do(w: World, e: Event, cfg: Config): World
    requires Enabled(w, e)
  {
    var a := w.fetch.assignment;
    match e
    case Polls(max) =>
      var r := Poll(w.fetch, max, true, cfg);
      World(r.fetch, if r.result.Ok? then Extend(w.delivered, r.result.value) else w.delivered, w.base)
    case Arrives(c) => w.(fetch := w.fetch.(completed := w.fetch.completed + [c]))
    case Seeks(tp, offset) =>
      if tp !in a then w
      else World(w.fetch.(assignment := a[tp := SeekTo(a[tp], offset)]), w.delivered[tp := []], w.base[tp := offset])
    case ResetRequested(tp, strategy) =>
      if tp !in a then w else w.(fetch := w.fetch.(assignment := a[tp := ResetTo(a[tp], strategy)]))
    case Pauses(tp, paused) =>
      if tp !in a then w else w.(fetch := w.fetch.(assignment := a[tp := a[tp].(paused := paused)]))
    case UserAssigns(tps) =>
      w.(fetch := w.fetch.(assignment := map tp | tp in tps :: if tp in a then a[tp] else Untracked),
         delivered := map tp | tp in tps && tp in a :: Of(w.delivered, tp))
    case GroupAssigns(tps) =>
      w.(fetch := w.fetch.(assignment := map tp | tp in tps :: Untracked), delivered := map[])
    case MissingReset(strategy) =>
      w.(fetch := w.fetch.(assignment := map tp | tp in a :: if a[tp].IsMissingPosition() then ResetTo(a[tp], strategy) else a[tp]))
  }

  lemma LoopKeepsLater(w: World, max: nat, cfg: Config)
    requires Inv(w) && !Stuck(w.fetch)
    ensures var r := Loop(w.fetch, [], max, true, cfg); Later(w, r.fetch, r.got)
  {
    ghost var keeps := (f: Fetch, got: seq<Delivery>) => Later(w, f, got);
    forall f, got, n | keeps(f, got) && n > 0 && SensibleFetch(f) && !Stuck(f)
      ensures IterationKeeps(keeps, f, got, n, cfg)
    {
      IterationKeepsLater(w, f, got, n, cfg);
    }
    LoopInduction(keeps, w.fetch, [], max, cfg);
  }

  lemma PollIsLoop(f: Fetch, max: nat, cfg: Config) returns (stored: Option<Stored>)
    requires ComesBack(f)
    ensures var p := Poll(f, max, true, cfg);
      if RaisesStored(f) then p == Polled(f.(stored := None), Err(f.stored.value.exc))
      else
        var r := Loop(f.(stored := None), [], max, true, cfg);
        p.fetch == r.fetch.(stored := stored) && if p.result.Ok? then p.result.value == r.got else r.got == []
  {
    stored := Poll(f, max, true, cfg).fetch.stored;
  }

  lemma StoredIsNotLookedAt(w: World, got: seq<Delivery>, f: Fetch, stored: Option<Stored>)
    requires Later(w, f, got)
    ensures Later(w, f.(stored := stored), got)
  {
  }

  lemma PollKeepsInv(w: World, max: nat, cfg: Config)
    requires Inv(w) && ComesBack(w.fetch)
    ensures var p := Poll(w.fetch, max, true, cfg); Later(w, p.fetch, if p.result.Ok? then p.result.value else [])
  {
    assert Later(w, w.fetch, []);
    StoredIsNotLookedAt(w, [], w.fetch, None);
    var f := w.fetch.(stored := None);
    if !RaisesStored(w.fetch) {
      LoopKeepsLater(w.(fetch := f), max, cfg);
      var r := Loop(f, [], max, true, cfg);
      var stored := PollIsLoop(w.fetch, max, cfg);
      StoredIsNotLookedAt(w, r.got, r.fetch, stored);
    }
  }

  lemma PollingKeepsInv(w: World, e: Event, cfg: Config)
    requires Inv(w) && Enabled(w, e) && e.Polls?
    ensures Inv(Do(w, e, cfg))
  {
    PollKeepsInv(w, e.max, cfg);
  }

  lemma ArrivingKeepsInv(w: World, e: Event, cfg: Config)
    requires Inv(w) && Enabled(w, e) && e.Arrives?
    ensures Inv(Do(w, e, cfg))
  {
  }

  lemma PositioningKeepsInv(w: World, e: Event, cfg: Config)
    requires Inv(w) && Enabled(w, e) && (e.Seeks? || e.ResetRequested? || e.Pauses?)
    ensures Inv(Do(w, e, cfg))
  {
    var a := w.fetch.assignment;
    if e.tp in a {
      FetchInvIgnores(w.fetch, Do(w, e, cfg).fetch);
      hide FetchInv, PartitionInv;
      match e
      case Seeks(tp, offset) => SoughtIsOrdered(a[tp], offset);
      case ResetRequested(tp, strategy) => UnmovedIsOrdered(a[tp], ResetTo(a[tp], strategy), Of(w.delivered, tp), BaseOf(w.base, tp));
      case Pauses(tp, paused) => UnmovedIsOrdered(a[tp], a[tp].(paused := paused), Of(w.delivered, tp), BaseOf(w.base, tp));
    }
  }

  lemma FetchInvIgnores(f: Fetch, g: Fetch)
    requires FetchInv(f) && g.completed == f.completed && g.next == f.next
    ensures FetchInv(g)
  {
  }

  lemma SoughtIsOrdered(t: Tracked, offset: int)
    ensures PartitionInv(SeekTo(t, offset), [], Some(offset))
  {
  }

  lemma UnmovedIsOrdered(t: Tracked, u: Tracked, delivered: seq<Record>, base: Option<int>)
    requires PartitionInv(t, delivered, base) && (u.position == t.position || u.position == None) && u.OneOfThree()
    ensures PartitionInv(u, delivered, base)
  {
  }

  lemma AssigningKeepsInv(w: World, e: Event, cfg: Config)
    requires Inv(w) && Enabled(w, e) && (e.UserAssigns? || e.GroupAssigns? || e.MissingReset?)
    ensures Inv(Do(w, e, cfg))
  {
  }

  lemma EventKeepsInv(w: World, e: Event, cfg: Config)
    requires Inv(w) && Enabled(w, e)
    ensures Inv(Do(w, e, cfg))
  {
    if e.Polls? { PollingKeepsInv(w, e, cfg); }
    else if e.Arrives? { ArrivingKeepsInv(w, e, cfg); }
    else if e.Seeks? || e.ResetRequested? || e.Pauses? { PositioningKeepsInv(w, e, cfg); }
    else { AssigningKeepsInv(w, e, cfg); }
  }

  ghost predicate Run(w: World, events: seq<Event>, cfg: Config)
    decreases |events|
  {
    events != [] ==> Enabled(w, events[0]) && Run(Do(w, events[0], cfg), events[1..], cfg)
  }

  ghost function After(w: World, events: seq<Event>, cfg: Config): World
    requires Run(w, events, cfg)
    decreases |events|
  {
    if events == [] then w else After(Do(w, events[0], cfg), events[1..], cfg)
  }

  const Start := World(Fetch(map[], [], None, None), map[], map[])

  lemma {:induction false} RunKeepsInv(w: World, events: seq<Event>, cfg: Config)
    requires Inv(w) && Run(w, events, cfg)
    ensures Inv(After(w, events, cfg))
    decreases |events|
  {
    if events != [] {
      EventKeepsInv(w, events[0], cfg);
      RunKeepsInv(Do(w, events[0], cfg), events[1..], cfg);
    }
  }

  /**
   After any run of polls, seeks, resets, pauses, reassignments and well-formed responses: what was
   delivered for a partition since it was last positioned is strictly increasing, starts at or after the
   offset it was positioned at and ends before its position; and a partition is never both positioned and
   awaiting a reset.
   */
  lemma DeliversInOrder(events: seq<Event>, cfg: Config, tp: TopicPartition)
    requires Run(Start, events, cfg) && tp in After(Start, events, cfg).fetch.assignment
    ensures var w := After(Start, events, cfg); var t := w.fetch.assignment[tp];
      && Increasing(Of(w.delivered, tp)) && t.OneOfThree()
      && (t.position.Some? ==> tp in w.base && Within(Of(w.delivered, tp), w.base[tp], t.position.value))
  {
    RunKeepsInv(Start, events, cfg);
  }

  /** A poll never moves a position back, and never gives a position to a partition without one. */
  lemma PollMovesForward(events: seq<Event>, max: nat, cfg: Config)
    requires Run(Start, events, cfg) && Enabled(After(Start, events, cfg), Polls(max))
    ensures var w := After(Start, events, cfg);
      Forward(w.fetch.assignment, Do(w, Polls(max), cfg).fetch.assignment)
  {
    RunKeepsInv(Start, events, cfg);
    PollKeepsInv(After(Start, events, cfg), max, cfg);
  }
}
