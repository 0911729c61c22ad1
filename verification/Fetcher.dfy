/** `Fetcher.fetched_records`, `_append` and `_parse_fetched_data`, proved to compute the functions of `FetchLoop`. */
module Fetcher {
  import opened Wrappers
  import opened Structs
  import opened RecordFilter
  import opened PartitionRecords
  import opened Subscriptions
  import opened FetchLoop

  /** How one iteration from `was` ended up: the state it leaves, what it adds to `drained`, and what it raises. */
  ghost predicate TurnIs(turn: Iterated, was: Fetch, now: Fetch, drained: map<TopicPartition, seq<Record>>,
                         drained': map<TopicPartition, seq<Record>>, count: nat, raised: Option<Stored>)
  {
    match turn
    case Broke => raised == None && now == was && drained' == drained
    case Raised(f, e) => raised == Some(e) && now == f && drained' == drained
    case Went(f, got) => raised == None && now == f && drained' == Extend(drained, got) && count == |got|
  }

  class Fetcher {
    const config: Config
    const subscriptions: SubscriptionState
    var completedFetches: seq<Completed>
    var nextPartitionRecords: PartitionRecords?
    var nextInLineException: Option<Stored>

    function NextView(): Option<Open>
      reads this, nextPartitionRecords
    {
      if nextPartitionRecords == null then None
      else Some(Open(nextPartitionRecords.topicPartition, nextPartitionRecords.View()))
    }

    function View(): Fetch
      reads this, subscriptions, subscriptions.assignment.Values, nextPartitionRecords
    {
      Fetch(subscriptions.View(), completedFetches, NextView(), nextInLineException)
    }

    constructor (subscriptions: SubscriptionState, config: Config)
      ensures View() == Fetch(subscriptions.View(), [], None, None)
      ensures this.subscriptions == subscriptions && this.config == config
    {
      this.subscriptions, this.config := subscriptions, config;
      completedFetches, nextPartitionRecords, nextInLineException := [], null, None;
    }

    method ParseFetchedData(c: Completed) returns (r: Result<PartitionRecords?, FetchException>)
      requires subscriptions.Valid()
      modifies subscriptions.assignment.Values
      ensures subscriptions.Valid()
      ensures var (a, parsed) := Parse(old(subscriptions.View()), c, config);
        && subscriptions.View() == a
        && match parsed
           case Err(e) => r == Err(e)
           case Ok(None) => r == Ok(null)
           case Ok(Some(o)) =>
             r.Ok? && r.value != null && fresh(r.value) && Open(r.value.topicPartition, r.value.View()) == o
    {
      var tp := c.tp;
      if !subscriptions.IsFetchable(tp) { return Ok(null); }
      var state := subscriptions.assignment[tp];
      match c.error {
        case NoError =>
          if state.position != Some(c.fetchOffset) { return Ok(null); }
          var aborted := if c.version >= 4 then c.txns else [];
          var records := new PartitionRecords(tp, c.fetchOffset, c.batches, config.iso, config.checkCrcs, aborted);
          if c.batches == [] && c.partialBytes {
            return Err(if c.version < 3 then RecordTooLarge else NoProgress);
          }
          if c.highwater >= 0 { state.highwater := Some(c.highwater); }
          return Ok(records);
        case OffsetOutOfRange =>
          if state.position != Some(c.fetchOffset) { return Ok(null); }
          if config.defaultReset == None { return Err(OutOfRange); }
          var _ := subscriptions.RequestOffsetReset(tp, config.defaultReset.value);
          return Ok(null);
        case TopicAuthorizationFailed => return Err(Unauthorized);
        case StaleMetadata => return Ok(null);
        case Retriable => return Ok(null);
        case OtherError(code) => return Err(Unexpected(code));
      }
    }

    method AddTo(drained: map<TopicPartition, seq<Record>>, tp: TopicPartition, records: seq<Record>)
      returns (drained': map<TopicPartition, seq<Record>>)
      ensures drained' == Extend(drained, Tag(tp, records))
    {
      TaggedIs(drained, tp, records);
      drained' := if records != [] then drained[tp := Of(drained, tp) + records] else drained;
    }

    /** The records of a partition in line, and its new position. */
    method TakeInLine(part: PartitionRecords, n: nat, updateOffsets: bool) returns (r: Result<seq<Record>, Fault>)
      requires subscriptions.Valid() && part.status != Drained
      requires InLine(subscriptions.View(), Open(part.topicPartition, part.View()))
      modifies part, subscriptions.assignment.Values
      ensures subscriptions.Valid()
      ensures var s := Append(old(subscriptions.View()), Open(part.topicPartition, old(part.View())), n, updateOffsets);
        subscriptions.View() == s.assignment && part.View() == s.open.part && r == s.result
    {
      r := part.TakeRecords(n);
      if r.Ok? && (updateOffsets || r.value == []) {
        subscriptions.assignment[part.topicPartition].SetPosition(part.nextFetchOffset);
      }
    }

    /** What was appended, or the exception of the take; `drained` is only extended by records there are. */
    method AppendRecords(drained: map<TopicPartition, seq<Record>>, part: PartitionRecords, n: nat, updateOffsets: bool)
      returns (drained': map<TopicPartition, seq<Record>>, r: Result<nat, Fault>)
      requires subscriptions.Valid()
      modifies part, subscriptions.assignment.Values
      ensures subscriptions.Valid()
      ensures var s := Append(old(subscriptions.View()), Open(part.topicPartition, old(part.View())), n, updateOffsets);
        && subscriptions.View() == s.assignment && part.View() == s.open.part
        && (s.result.Err? ==> r == Err(s.result.error) && drained' == drained)
        && (s.result.Ok? ==> r == Ok(|s.result.value|) && drained' == Extend(drained, Tag(part.topicPartition, s.result.value)))
    {
      hide Extend, Tag;
      var tp := part.topicPartition;
      TaggedIs(drained, tp, []);
      drained' := drained;
      if part.status == Drained { return drained, Ok(0); }
      if subscriptions.IsFetchable(tp) && subscriptions.assignment[tp].position == Some(part.nextFetchOffset) {
        var taken := TakeInLine(part, n, updateOffsets);
        if taken.Err? { return drained, Err(taken.error); }
        drained' := AddTo(drained, tp, taken.value);
        return drained', Ok(|taken.value|);
      }
      part.DrainRecords();
      return drained, Ok(0);
    }

    /** The half of the loop body that parses the next completed fetch. */
    method ParseNext() returns (raised: Option<Stored>)
      requires subscriptions.Valid() && !IsLive(NextView()) && completedFetches != []
      modifies this`completedFetches, this`nextPartitionRecords, subscriptions.assignment.Values
      ensures subscriptions.Valid()
      ensures nextPartitionRecords == old(nextPartitionRecords) || nextPartitionRecords == null || fresh(nextPartitionRecords)
      ensures var c := old(completedFetches[0]); var (a, parsed) := Parse(old(subscriptions.View()), c, config);
        && subscriptions.View() == a && completedFetches == old(completedFetches[1..])
        && match parsed
           case Err(e) => raised == Some(Stored(c.tp, c.fetchOffset, e)) && nextPartitionRecords == old(nextPartitionRecords)
           case Ok(next) => raised == None && NextView() == next
    {
      var completion := completedFetches[0];
      completedFetches := completedFetches[1..];
      var parsed := ParseFetchedData(completion);
      if parsed.Err? { return Some(Stored(completion.tp, completion.fetchOffset, parsed.error)); }
      nextPartitionRecords := parsed.value;
      return None;
    }

    /** The other half, that takes from the partition being drained. */
    method TakeNext(drained: map<TopicPartition, seq<Record>>, remaining: nat, updateOffsets: bool)
      returns (drained': map<TopicPartition, seq<Record>>, count: nat, raised: Option<Stored>)
      requires subscriptions.Valid() && nextPartitionRecords != null && nextPartitionRecords.status != Drained
      modifies subscriptions.assignment.Values, nextPartitionRecords
      ensures subscriptions.Valid()
      ensures var turn := Iterate(old(View()), remaining, updateOffsets, config);
        TurnIs(turn, old(View()), View(), drained, drained', count, raised) && (raised.Some? <==> !turn.Went?)
    {
      hide Extend;
      var tp, offset := nextPartitionRecords.topicPartition, nextPartitionRecords.nextFetchOffset;
      var appended;
      drained', appended := AppendRecords(drained, nextPartitionRecords, remaining, updateOffsets);
      assert old(View()).next == Some(Open(tp, old(nextPartitionRecords.View()))) && offset == old(nextPartitionRecords.View()).gen.next;
      assert View() == old(View()).(assignment := subscriptions.View(), next := NextView());
      if appended.Err? { return drained, 0, Some(Stored(tp, offset, Unpacking(appended.error))); }
      return drained', appended.value, None;
    }

    /** The body of the loop of `fetched_records`: one parse, or one append to `drained`. */
    method RunIteration(drained: map<TopicPartition, seq<Record>>, remaining: nat, updateOffsets: bool)
      returns (drained': map<TopicPartition, seq<Record>>, count: nat, done: bool, raised: Option<Stored>)
      requires remaining > 0 && subscriptions.Valid()
      modifies this`completedFetches, this`nextPartitionRecords, subscriptions.assignment.Values, nextPartitionRecords
      ensures subscriptions.Valid()
      ensures nextPartitionRecords == old(nextPartitionRecords) || nextPartitionRecords == null || fresh(nextPartitionRecords)
      ensures var turn := Iterate(old(View()), remaining, updateOffsets, config);
        TurnIs(turn, old(View()), View(), drained, drained', count, raised) && (done <==> !turn.Went?)
    {
      assert Extend(drained, []) == drained;
      hide Parse, Append, Extend;
      drained', count, done, raised := drained, 0, false, None;
      if nextPartitionRecords == null || nextPartitionRecords.status == Drained {
        if completedFetches == [] { return drained, 0, true, None; }
        raised := ParseNext();
      } else {
        drained', count, raised := TakeNext(drained, remaining, updateOffsets);
      }
      done := raised.Some?;
    }

    /** The loop of `fetched_records`, up to its end or to an exception. */
    method DrainFetches(maxRecords: nat, updateOffsets: bool)
      returns (drained: map<TopicPartition, seq<Record>>, raised: Option<Stored>, ghost got: seq<Delivery>)
      requires subscriptions.Valid() && SensibleFetch(View()) && !Stuck(View())
      modifies this`completedFetches, this`nextPartitionRecords, subscriptions.assignment.Values, nextPartitionRecords
      ensures subscriptions.Valid() && drained == Extend(map[], got)
      ensures Loop(old(View()), [], maxRecords, updateOffsets, config) == Looped(View(), got, raised)
    {
      hide Iterate, Loop;
      drained, raised, got := map[], None, [];
      var remaining: nat := maxRecords;
      var done := false;
      ghost var view := View();
      ghost var all := Loop(view, [], maxRecords, updateOffsets, config);
      while remaining > 0 && !done
        invariant subscriptions.Valid() && view == View()
        invariant nextPartitionRecords == old(nextPartitionRecords) || nextPartitionRecords == null || fresh(nextPartitionRecords)
        invariant drained == Extend(map[], got)
        invariant !done ==> SensibleFetch(view) && !Stuck(view) && raised == None
        invariant done ==> all == Looped(view, got, raised)
        invariant !done ==> all == Loop(view, got, remaining, updateOffsets, config)
        decreases !done, |view.completed|, Rank(view.next), remaining
      {
        ghost var turn := Iterate(view, remaining, updateOffsets, config);
        LoopTurns(view, got, remaining, updateOffsets, config);
        var count;
        drained, count, done, raised := RunIteration(drained, remaining, updateOffsets);
        view := View();
        if !done {
          ExtendTwice(map[], got, turn.got);
          got := got + turn.got;
          remaining := remaining - count;
        }
      }
      if !done { LoopIsOver(view, got, updateOffsets, config); }
    }

    /** Take the exception kept from the last call; it is raised if its partition is still where it was. */
    method TakeStoredException() returns (raised: Option<FetchException>)
      modifies this`nextInLineException
      ensures View() == old(View()).(stored := None)
      ensures raised == if RaisesStored(old(View())) then Some(old(View()).stored.value.exc) else None
    {
      if nextInLineException == None { return None; }
      var stored := nextInLineException.value;
      nextInLineException := None;
      if subscriptions.IsFetchable(stored.tp) && subscriptions.assignment[stored.tp].position == Some(stored.offset) {
        return Some(stored.exc);
      }
      return None;
    }

    method FetchedRecords(maxRecords: nat, updateOffsets: bool)
      returns (r: Result<map<TopicPartition, seq<Record>>, FetchException>, partial: bool)
      requires maxRecords > 0 && subscriptions.Valid()
      requires ComesBack(View())
      modifies this, subscriptions.assignment.Values, nextPartitionRecords
      ensures subscriptions.Valid()
      ensures var p := Poll(old(View()), maxRecords, updateOffsets, config);
        && View() == p.fetch
        && (p.result.Err? ==> r == Err(p.result.error))
        && (p.result.Ok? ==> r == Ok(Extend(map[], p.result.value)) && partial == (completedFetches != []))
    {
      hide Loop, Extend, RaisesStored;
      var stored := TakeStoredException();
      if stored.Some? { return Err(stored.value), false; }
      var drained, raised, got := DrainFetches(maxRecords, updateOffsets);
      EmptyIffNothingGot(got);
      if raised.Some? {
        if drained == map[] { return Err(raised.value.exc), false; }
        nextInLineException := raised;
      }
      return Ok(drained), completedFetches != [];
    }
  }

  lemma EmptyIffNothingGot(got: seq<Delivery>)
    ensures Extend(map[], got) == map[] <==> got == []
  {
    if got != [] { assert got[|got| - 1].tp in Extend(map[], got); }
  }
}
