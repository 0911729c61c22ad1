/**
 The client half of incremental fetch sessions (`FetchSessionHandler` in fetcher.py) against a broker
 that rebuilds the session from the deltas it is sent.

 `build_next` moves `session_partitions` to the wanted map and sends only the difference; the broker
 applies differences to its own copy. The main theorem says that the two copies and the two epochs
 agree in every run, whatever is lost, answered with an error, evicted or processed late.
 */
module FetchSession {
  import opened Structs

  datatype PartitionInfo = PartitionInfo(leaderEpoch: int, offset: int, maxBytes: int)

  type Partitions = map<TopicPartition, PartitionInfo>

  // ---------- metadata ----------

  const MAX_EPOCH := 2147483647
  const INVALID_SESSION_ID := 0
  const THROTTLED_SESSION_ID := -1
  const INITIAL_EPOCH := 0
  const FINAL_EPOCH := -1

  datatype FetchMetadata = FetchMetadata(sessionId: int, epoch: int)
  {
    predicate IsFull() { epoch == INITIAL_EPOCH || epoch == FINAL_EPOCH }

    function NextCloseExisting(): FetchMetadata { FetchMetadata(sessionId, INITIAL_EPOCH) }

    function NextIncremental(): FetchMetadata { FetchMetadata(sessionId, NextEpoch(epoch)) }
  }

  const INITIAL := FetchMetadata(INVALID_SESSION_ID, INITIAL_EPOCH)

  function NextEpoch(prev: int): int {
    if prev < 0 then FINAL_EPOCH else if prev == MAX_EPOCH then 1 else prev + 1
  }

  function NewIncremental(sessionId: int): FetchMetadata { FetchMetadata(sessionId, NextEpoch(INITIAL_EPOCH)) }

  // ---------- the handler, as functions ----------

  datatype Client = Client(metadata: FetchMetadata, partitions: Partitions)

  datatype Request = Request(toSend: Partitions, toForget: set<TopicPartition>, metadata: FetchMetadata)

  datatype ErrorCode = NoError | FetchSessionIdNotFound | OtherError(code: int)

  datatype Response = Response(error: ErrorCode, sessionId: int, tps: set<TopicPartition>)

  /** Added or altered partitions: what an incremental request has to name. */
  function Changed(prev: Partitions, next: Partitions): Partitions {
    map tp | tp in next && !(tp in prev && prev[tp] == next[tp]) :: next[tp]
  }

  function BuildNext(c: Client, next: Partitions): (Client, Request) {
    if c.metadata.IsFull() then (Client(c.metadata, next), Request(next, {}, c.metadata))
    else (Client(c.metadata, next),
          Request(Changed(c.partitions, next), c.partitions.Keys - next.Keys, c.metadata))
  }

  function HandleResponse(c: Client, r: Response): (Client, bool) {
    if r.error != NoError then
      (c.(metadata := if r.error == FetchSessionIdNotFound then INITIAL else c.metadata.NextCloseExisting()), false)
    else if c.metadata.IsFull() then
      if r.tps != c.partitions.Keys then (c.(metadata := INITIAL), false)
      else if r.sessionId == INVALID_SESSION_ID then (c.(metadata := INITIAL), true)
      else if r.sessionId == THROTTLED_SESSION_ID then (c, true)
      else (c.(metadata := NewIncremental(r.sessionId)), true)
    else
      if r.tps - c.partitions.Keys != {} then (c.(metadata := c.metadata.NextCloseExisting()), false)
      else if r.sessionId == INVALID_SESSION_ID then (c.(metadata := INITIAL), true)
      else if r.sessionId == THROTTLED_SESSION_ID then (c, true)
      else (c.(metadata := c.metadata.NextIncremental()), true)
  }

  function HandleError(c: Client): Client { c.(metadata := c.metadata.NextCloseExisting()) }

  /** Adding, removing and altering partition by partition ends in the wanted map. */
  lemma MovesRebuild(prev: Partitions, next: Partitions)
    ensures var added := map tp | tp in next.Keys - prev.Keys :: next[tp];
      var common := map tp | tp in next.Keys * prev.Keys :: next[tp];
      ((prev + added) - (prev.Keys - next.Keys)) + common == next
  {
  }

  // ---------- the handler, as the object it is ----------

  class FetchSessionHandler {
    var nextMetadata: FetchMetadata
    var sessionPartitions: Partitions

    function View(): Client
      reads this
    {
      Client(nextMetadata, sessionPartitions)
    }

    constructor ()
      ensures View() == Client(INITIAL, map[])
    {
      nextMetadata, sessionPartitions := INITIAL, map[];
    }

    method AddPartitions(added: set<TopicPartition>, nextPartitions: Partitions)
      requires added <= nextPartitions.Keys
      modifies this`sessionPartitions
      ensures sessionPartitions == old(sessionPartitions) + (map tp | tp in added :: nextPartitions[tp])
    {
      var todo := added;
      while todo != {}
        invariant todo <= added
        invariant sessionPartitions == old(sessionPartitions) + (map tp | tp in added - todo :: nextPartitions[tp])
      {
        var tp :| tp in todo;
        sessionPartitions := sessionPartitions[tp := nextPartitions[tp]];
        todo := todo - {tp};
      }
      assert added - todo == added;
    }

    method RemovePartitions(removed: set<TopicPartition>)
      modifies this`sessionPartitions
      ensures sessionPartitions == old(sessionPartitions) - removed
    {
      var todo := removed;
      while todo != {}
        invariant todo <= removed
        invariant sessionPartitions == old(sessionPartitions) - (removed - todo)
      {
        var tp :| tp in todo;
        sessionPartitions := sessionPartitions - {tp};
        todo := todo - {tp};
      }
      assert removed - todo == removed;
    }

    method AlterPartitions(common: set<TopicPartition>, nextPartitions: Partitions) returns (altered: set<TopicPartition>)
      requires common <= nextPartitions.Keys && common <= sessionPartitions.Keys
      modifies this`sessionPartitions
      ensures sessionPartitions == old(sessionPartitions) + (map tp | tp in common :: nextPartitions[tp])
      ensures altered == set tp | tp in common && old(sessionPartitions)[tp] != nextPartitions[tp]
    {
      altered := {};
      var todo := common;
      while todo != {}
        invariant todo <= common
        invariant sessionPartitions == old(sessionPartitions) + (map tp | tp in common - todo :: nextPartitions[tp])
        invariant altered == set tp | tp in common - todo && old(sessionPartitions)[tp] != nextPartitions[tp]
      {
        var tp :| tp in todo;
        if nextPartitions[tp] != sessionPartitions[tp] {
          sessionPartitions := sessionPartitions[tp := nextPartitions[tp]];
          altered := altered + {tp};
        }
        todo := todo - {tp};
      }
      assert common - todo == common;
    }

    method BuildNextRequest(nextPartitions: Partitions) returns (request: Request)
      modifies this`sessionPartitions
      ensures (View(), request) == BuildNext(old(View()), nextPartitions)
    {
      if nextMetadata.IsFull() {
        sessionPartitions := nextPartitions;
        return Request(nextPartitions, {}, nextMetadata);
      }
      var prevTps, nextTps := sessionPartitions.Keys, nextPartitions.Keys;
      var added := nextTps - prevTps;
      AddPartitions(added, nextPartitions);
      var removed := prevTps - nextTps;
      RemovePartitions(removed);
      var altered := AlterPartitions(nextTps * prevTps, nextPartitions);
      MovesRebuild(old(sessionPartitions), nextPartitions);
      var toSend := map tp | tp in nextPartitions && tp in added + altered :: nextPartitions[tp];
      assert toSend == Changed(old(sessionPartitions), nextPartitions);
      return Request(toSend, removed, nextMetadata);
    }

    method HandleFetchResponse(response: Response) returns (accepted: bool)
      modifies this`nextMetadata
      ensures (View(), accepted) == HandleResponse(old(View()), response)
    {
      if response.error != NoError {
        nextMetadata := if response.error == FetchSessionIdNotFound then INITIAL else nextMetadata.NextCloseExisting();
        return false;
      }
      var sessionTps := sessionPartitions.Keys;
      if nextMetadata.IsFull() {
        if response.tps != sessionTps {
          nextMetadata := INITIAL;
          return false;
        } else if response.sessionId == INVALID_SESSION_ID {
          nextMetadata := INITIAL;
        } else if response.sessionId != THROTTLED_SESSION_ID {
          nextMetadata := NewIncremental(response.sessionId);
        }
        return true;
      }
      if response.tps - sessionTps != {} {
        nextMetadata := nextMetadata.NextCloseExisting();
        return false;
      } else if response.sessionId == INVALID_SESSION_ID {
        nextMetadata := INITIAL;
      } else if response.sessionId != THROTTLED_SESSION_ID {
        nextMetadata := nextMetadata.NextIncremental();
      }
      return true;
    }

    method HandleFetchError()
      modifies this`nextMetadata
      ensures View() == HandleError(old(View()))
    {
      nextMetadata := nextMetadata.NextCloseExisting();
    }
  }

  // ---------- the broker ----------

  // Its rules are those of KIP-227: epoch 0 asks for a new session and -1 for none, both with all partitions; session 0
  // in an answer says that there is none, and -1 that the request was throttled.

  datatype Session = Session(partitions: Partitions, epoch: int)

  function Apply(held: Partitions, r: Request): Partitions { (held - r.toForget) + r.toSend }

  predicate EmptyDelta(r: Request) { r.toSend == map[] && r.toForget == {} }

  datatype Broker = Broker(sessions: map<int, Session>, used: set<int>)

  /** The epoch that a broker expects after `epoch` (KIP-227): the next positive 32-bit integer. */
  function Successor(epoch: int): int { 1 + epoch % 2147483647 }

  function Without(b: Broker, id: int): Broker { b.(sessions := b.sessions - {id}) }

  /** How a broker may take a full request: it drops the named session and may open a new one. */
  ghost predicate TakesFull(b: Broker, r: Request, b': Broker, resp: Response) {
    var b1 := Without(b, r.metadata.sessionId);
    || (resp.error != NoError && (b' == b || b' == b1))
    || (b' == b && resp == Response(NoError, -1, {}))
    || (b' == b1 && resp == Response(NoError, 0, r.toSend.Keys))
    || (&& r.metadata.epoch == 0 && resp.sessionId > 0 && resp.sessionId !in b.used
        && resp == Response(NoError, resp.sessionId, r.toSend.Keys)
        && b' == Broker(b1.sessions[resp.sessionId := Session(r.toSend, 1)], b.used + {resp.sessionId}))
  }

  /**
   How a broker may take an incremental request. A throttled answer leaves the session as it was; it is
   admitted here only when the request carried no change (see ThrottleKeepsSyncIffNoChange).
   */
  ghost predicate TakesIncremental(b: Broker, r: Request, b': Broker, resp: Response) {
    var id := r.metadata.sessionId;
    if id !in b.sessions then b' == b && resp.error == FetchSessionIdNotFound
    else if b.sessions[id].epoch != r.metadata.epoch then b' == b && resp.error.OtherError?
    else
      var held := Apply(b.sessions[id].partitions, r);
      var b1 := b.(sessions := b.sessions[id := Session(held, Successor(b.sessions[id].epoch))]);
      || (resp.error.OtherError? && (b' == b || b' == b1))
      || (EmptyDelta(r) && b' == b && resp == Response(NoError, -1, {}))
      || (resp.error == NoError && resp.tps <= held.Keys && resp.sessionId == id && b' == b1)
      || (resp.error == NoError && resp.tps <= held.Keys && resp.sessionId == 0 && b' == Without(b, id))
  }

  ghost predicate Takes(b: Broker, r: Request, b': Broker, resp: Response) {
    if r.metadata.epoch in {0, -1} then TakesFull(b, r, b', resp) else TakesIncremental(b, r, b', resp)
  }

  // ---------- client and broker together ----------

  datatype Wire = Idle | Sent(request: Request) | Replied(request: Request, response: Response)

  /** `strays`: requests the client has given up on, which the broker may still process at any time. */
  datatype System = System(client: Client, broker: Broker, wire: Wire,
                           fetchOffsets: map<TopicPartition, int>, strays: set<Request>)

  datatype Step =
    | Build(next: Partitions)
    | BrokerTakes(broker: Broker, response: Response)
    | Deliver
    | Fail
    | StrayTaken(stray: Request, broker: Broker, response: Response)
    | Evict(id: int)

  ghost predicate Enabled(s: System, a: Step) {
    match a
    case Build(_) => s.wire.Idle?
    case BrokerTakes(b, resp) => s.wire.Sent? && Takes(s.broker, s.wire.request, b, resp)
    case Deliver => s.wire.Replied?
    case Fail => !s.wire.Idle?
    case StrayTaken(r, b, resp) => r in s.strays && Takes(s.broker, r, b, resp)
    case Evict(_) => true
  }

  function Do(s: System, a: Step): System {
    match a
    case Build(next) =>
      var (c, r) := BuildNext(s.client, next);
      s.(client := c, wire := Sent(r), fetchOffsets := map tp | tp in next :: next[tp].offset)
    case BrokerTakes(b, resp) => if s.wire.Sent? then s.(broker := b, wire := Replied(s.wire.request, resp)) else s
    case Deliver => if s.wire.Replied? then s.(client := HandleResponse(s.client, s.wire.response).0, wire := Idle) else s
    case Fail => if s.wire.Idle? then s else s.(client := HandleError(s.client), wire := Idle, strays := s.strays + {s.wire.request})
    case StrayTaken(_, b, _) => s.(broker := b)
    case Evict(id) => s.(broker := Without(s.broker, id))
  }

  ghost predicate Start(s: System) {
    s.client == Client(INITIAL, map[]) && s.broker == Broker(map[], {}) && s.wire == Idle && s.strays == {}
  }

  ghost predicate Run(s: System, steps: seq<Step>)
    decreases |steps|
  {
    steps != [] ==> Enabled(s, steps[0]) && Run(Do(s, steps[0]), steps[1..])
  }

  function After(s: System, steps: seq<Step>): System
    decreases |steps|
  {
    if steps == [] then s else After(Do(s, steps[0]), steps[1..])
  }

  // ---------- the invariant ----------

  ghost predicate Known(b: Broker, id: int) { id == INVALID_SESSION_ID || (id > 0 && id in b.used) }

  /** The broker's copy of session `id`, if it still has one, is this. */
  ghost predicate Holds(b: Broker, id: int, partitions: Partitions, epoch: int) {
    id in b.sessions ==> b.sessions[id] == Session(partitions, epoch)
  }

  ghost predicate StraysAvoid(s: System, id: int) {
    forall r :: r in s.strays ==> r.metadata.sessionId != id
  }

  /** What an incremental client and the broker owe each other at each stage of an exchange. */
  ghost predicate InSync(s: System) {
    var c := s.client;
    var id := c.metadata.sessionId;
    match s.wire
    case Idle =>
      !c.metadata.IsFull() ==> StraysAvoid(s, id) && Holds(s.broker, id, c.partitions, c.metadata.epoch)
    case Sent(r) =>
      && r.metadata == c.metadata
      && (c.metadata.IsFull() ==> r.toSend == c.partitions)
      && (!c.metadata.IsFull() ==>
           StraysAvoid(s, id) && (id in s.broker.sessions ==>
             s.broker.sessions[id].epoch == c.metadata.epoch && Apply(s.broker.sessions[id].partitions, r) == c.partitions))
    case Replied(r, resp) =>
      && r.metadata == c.metadata
      && (resp.error == NoError && resp.sessionId > 0 ==>
           var after := if c.metadata.IsFull() then NewIncremental(resp.sessionId) else c.metadata.NextIncremental();
           && after.sessionId == resp.sessionId && Known(s.broker, resp.sessionId)
           && StraysAvoid(s, resp.sessionId) && Holds(s.broker, resp.sessionId, c.partitions, after.epoch))
      && (!c.metadata.IsFull() && resp.error == NoError && resp.sessionId == THROTTLED_SESSION_ID ==>
           StraysAvoid(s, id) && Holds(s.broker, id, c.partitions, c.metadata.epoch))
      && (resp.error == NoError ==> resp.sessionId >= -1)
  }

  ghost predicate Inv(s: System) {
    && (forall id :: id in s.broker.sessions ==> id > 0 && id in s.broker.used)
    && Known(s.broker, s.client.metadata.sessionId)
    && 0 <= s.client.metadata.epoch <= MAX_EPOCH
    && (!s.client.metadata.IsFull() ==> s.client.metadata.sessionId > 0)
    && (forall r :: r in s.strays ==> Known(s.broker, r.metadata.sessionId))
    && (!s.wire.Idle? ==> s.fetchOffsets.Keys == s.client.partitions.Keys)
    && InSync(s)
  }

  lemma DeltaRebuilds(prev: Partitions, next: Partitions, m: FetchMetadata)
    ensures Apply(prev, Request(Changed(prev, next), prev.Keys - next.Keys, m)) == next
  {
  }

  /** No request that takes a broker from `prev` to `next` names fewer partitions. */
  lemma DeltaIsLeast(prev: Partitions, next: Partitions, r: Request)
    requires Apply(prev, r) == next
    ensures Changed(prev, next).Keys <= r.toSend.Keys && prev.Keys - next.Keys <= r.toForget
    ensures Changed(prev, next).Keys * (prev.Keys - next.Keys) == {}
  {
  }

  /** Epochs go round from 1 to the greatest 32-bit integer; the one that closes a session stays. */
  lemma EpochsFollow(epoch: int)
    requires -1 <= epoch <= 2147483647
    ensures NextEpoch(epoch) == if epoch == -1 then -1 else Successor(epoch)
  {
  }

  predicate AsksForAll(c: Client) { c.metadata.epoch == 0 || c.metadata.epoch == -1 }

  /**
   What the next request is after a response: one for everything without a session, if the broker has lost or closed
   it; one for everything that closes the session, if the response was an error or named a partition too many; and
   otherwise the difference, with the next epoch, or the same one again if the request was throttled.
   */
  lemma NextRequest(c: Client, r: Response, next: Partitions)
    requires -1 <= c.metadata.epoch <= 2147483647
    ensures var (d, accepted) := HandleResponse(c, r); var q := BuildNext(d, next).1;
      && d.partitions == c.partitions
      && (accepted <==> r.error == NoError && if AsksForAll(c) then r.tps == c.partitions.Keys else r.tps <= c.partitions.Keys)
      && q.metadata ==
           (if !accepted then FetchMetadata(if r.error == FetchSessionIdNotFound || (r.error == NoError && AsksForAll(c)) then 0
                                            else c.metadata.sessionId, 0)
            else if r.sessionId == 0 then FetchMetadata(0, 0)
            else if r.sessionId == -1 then c.metadata
            else if AsksForAll(c) then FetchMetadata(r.sessionId, 1)
            else FetchMetadata(c.metadata.sessionId, Successor(c.metadata.epoch)))
      && (q.metadata.epoch <= 0 ==> q.toSend == next && q.toForget == {})
      && (q.metadata.epoch > 0 ==> Apply(c.partitions, q) == next)
  {
    var d := HandleResponse(c, r).0;
    DeltaRebuilds(c.partitions, next, d.metadata);
    assert r.tps - c.partitions.Keys == {} <==> r.tps <= c.partitions.Keys by { NoneExtra(r.tps, c.partitions.Keys); }
  }

  lemma NoneExtra(s: set<TopicPartition>, t: set<TopicPartition>)
    ensures s - t == {} <==> s <= t
  {
    if s - t == {} { forall x | x in s ensures x in t { assert x !in s - t; } }
  }

  /** A request that came to nothing is followed by one for everything, that closes the session. */
  lemma NextRequestAfterError(c: Client, next: Partitions)
    ensures BuildNext(HandleError(c), next) == (Client(FetchMetadata(c.metadata.sessionId, 0), next),
                                                Request(next, {}, FetchMetadata(c.metadata.sessionId, 0)))
  {
  }

  lemma BuildKeepsInv(s: System, next: Partitions)
    requires Inv(s) && s.wire.Idle?
    ensures Inv(Do(s, Build(next)))
  {
    DeltaRebuilds(s.client.partitions, next, s.client.metadata);
  }

  lemma FullTakenKeepsInv(s: System, b: Broker, resp: Response)
    requires Inv(s) && s.wire.Sent? && s.client.metadata.IsFull() && TakesFull(s.broker, s.wire.request, b, resp)
    ensures Inv(Do(s, BrokerTakes(b, resp)))
  {
  }

  lemma IncrementalTakenKeepsInv(s: System, b: Broker, resp: Response)
    requires Inv(s) && s.wire.Sent? && !s.client.metadata.IsFull() && TakesIncremental(s.broker, s.wire.request, b, resp)
    ensures Inv(Do(s, BrokerTakes(b, resp)))
  {
    var r := s.wire.request;
    if EmptyDelta(r) && r.metadata.sessionId in s.broker.sessions {
      var held := s.broker.sessions[r.metadata.sessionId].partitions;
      assert (held - {}) + map[] == held;
    }
  }

  lemma DeliverKeepsInv(s: System)
    requires Inv(s) && s.wire.Replied?
    ensures Inv(Do(s, Deliver))
  {
  }

  lemma FailKeepsInv(s: System)
    requires Inv(s) && !s.wire.Idle?
    ensures Inv(Do(s, Fail))
  {
  }

  /** A stray touches only the session it names, or opens one nobody knows. */
  lemma StrayIsHarmless(s: System, r: Request, b: Broker, resp: Response)
    requires Inv(s) && r in s.strays && Takes(s.broker, r, b, resp)
    ensures s.broker.used <= b.used
    ensures forall id :: id in b.sessions && id in s.broker.used && id != r.metadata.sessionId ==>
              id in s.broker.sessions && b.sessions[id] == s.broker.sessions[id]
    ensures Inv(Do(s, StrayTaken(r, b, resp)))
  {
  }

  lemma StepKeepsInv(s: System, a: Step)
    requires Inv(s) && Enabled(s, a)
    ensures Inv(Do(s, a))
  {
    match a
    case Build(next) => BuildKeepsInv(s, next);
    case BrokerTakes(b, resp) =>
      if s.client.metadata.IsFull() { FullTakenKeepsInv(s, b, resp); } else { IncrementalTakenKeepsInv(s, b, resp); }
    case Deliver => DeliverKeepsInv(s);
    case Fail => FailKeepsInv(s);
    case StrayTaken(r, b, resp) => StrayIsHarmless(s, r, b, resp);
    case Evict(id) =>
  }

  lemma {:induction false} InvHolds(s: System, steps: seq<Step>)
    requires Inv(s) && Run(s, steps)
    ensures Inv(After(s, steps))
    decreases |steps|
  {
    if steps != [] {
      StepKeepsInv(s, steps[0]);
      InvHolds(Do(s, steps[0]), steps[1..]);
    }
  }

  /**
   In every run, whenever the client is between requests and incremental, and the broker still has that
   session, the broker's map is `session_partitions` and the broker waits for exactly the client's epoch.
   */
  lemma Replicated(s: System, steps: seq<Step>)
    requires Start(s) && Run(s, steps)
    ensures var t := After(s, steps); var m := t.client.metadata;
      t.wire.Idle? && !m.IsFull() && m.sessionId in t.broker.sessions ==>
        t.broker.sessions[m.sessionId] == Session(t.client.partitions, m.epoch) && 1 <= m.epoch <= MAX_EPOCH
  {
    InvHolds(s, steps);
  }

  /** How many responses of the run have continued the session that the client ends up in. */
  function Continued(s: System, steps: seq<Step>): nat
    decreases |steps|
  {
    if steps == [] then 0
    else
      var n := Continued(s, steps[..|steps| - 1]);
      var t := After(s, steps[..|steps| - 1]);
      Counted(t, steps[|steps| - 1], n)
  }

  function Counted(t: System, a: Step, n: nat): nat {
    if a.Deliver? && t.wire.Replied? && t.wire.response.error == NoError && t.wire.response.sessionId > 0
    then (if AsksForAll(t.client) then 0 else n + 1)
    else n
  }

  lemma EpochStep(t: System, a: Step, n: nat)
    requires Inv(t) && Enabled(t, a) && (!AsksForAll(t.client) ==> t.client.metadata.epoch == 1 + n % 2147483647)
    ensures var c := Do(t, a).client; !AsksForAll(c) ==> c.metadata.epoch == 1 + Counted(t, a, n) % 2147483647
  {
    NextModulo(n);
  }

  lemma NextModulo(n: nat)
    ensures (n + 1) % 2147483647 == if n % 2147483647 == 2147483646 then 0 else n % 2147483647 + 1
  {
  }

  lemma {:induction false} AfterLast(s: System, steps: seq<Step>)
    requires steps != [] && Run(s, steps)
    ensures var front := steps[..|steps| - 1];
      Run(s, front) && Enabled(After(s, front), steps[|steps| - 1]) && After(s, steps) == Do(After(s, front), steps[|steps| - 1])
    decreases |steps|
  {
    hide Enabled, Do;
    if |steps| > 1 {
      AfterLast(Do(s, steps[0]), steps[1..]);
      assert steps[1..][..|steps| - 2] == steps[..|steps| - 1][1..];
    } else {
      assert steps[..0] == [] && steps[1..] == [];
    }
  }

  /** In every run, the epoch of an incremental client counts the responses that have continued its session, round the end of 32 bits. */
  lemma {:induction false} EpochCounts(s: System, steps: seq<Step>)
    requires Start(s) && Run(s, steps)
    ensures !AsksForAll(After(s, steps).client) ==> After(s, steps).client.metadata.epoch == 1 + Continued(s, steps) % 2147483647
    decreases |steps|
  {
    assert Inv(s);
    hide Enabled, Inv;
    if steps != [] {
      var front, last := steps[..|steps| - 1], steps[|steps| - 1];
      AfterLast(s, steps);
      EpochCounts(s, front);
      InvHolds(s, front);
      EpochStep(After(s, front), last, Continued(s, front));
    } else {
      assert After(s, steps) == s;
    }
  }

  /** In every run, any response the handler accepts names only partitions that have a fetch offset. */
  lemma AcceptedPartitionsHaveOffsets(s: System, steps: seq<Step>, resp: Response)
    requires Start(s) && Run(s, steps) && !After(s, steps).wire.Idle?
    requires HandleResponse(After(s, steps).client, resp).1
    ensures resp.tps <= After(s, steps).fetchOffsets.Keys
  {
    InvHolds(s, steps);
    var keys := After(s, steps).client.partitions.Keys;
    assert resp.tps - keys == {} ==> resp.tps <= keys by {
      forall tp | resp.tps - keys == {} && tp in resp.tps ensures tp in keys { assert tp !in resp.tps - keys; }
    }
  }

  /**
   A throttled answer to an incremental request keeps the epoch although `session_partitions` has moved:
   afterwards the two sides agree if and only if the request carried no change.
   */
  lemma ThrottleKeepsSyncIffNoChange(s: System, next: Partitions)
    requires Inv(s) && s.wire.Idle? && !s.client.metadata.IsFull()
    requires s.client.metadata.sessionId in s.broker.sessions
    ensures var sent := Do(s, Build(next));
      var throttled := HandleResponse(sent.client, Response(NoError, THROTTLED_SESSION_ID, {})).0;
      s.broker.sessions[s.client.metadata.sessionId] == Session(throttled.partitions, throttled.metadata.epoch)
      <==> EmptyDelta(sent.wire.request)
  {
    var prev := s.client.partitions;
    if Changed(prev, next) == map[] && prev.Keys - next.Keys == {} {
      DeltaRebuilds(prev, next, s.client.metadata);
      assert (prev - {}) + map[] == prev;
    }
    if prev == next {
      assert prev.Keys - next.Keys == {};
      assert Changed(prev, next) == map[];
    }
  }

  /**
   A run to an incremental session, after which a throttled answer to a request with a change leaves the broker
   without the partition that the client believes it has.
   */
  lemma ThrottledChangeDiverges(s: System, tp: TopicPartition, info: PartitionInfo) returns (steps: seq<Step>)
    requires Start(s)
    ensures Run(s, steps)
    ensures var t := After(s, steps); var id := t.client.metadata.sessionId; var sent := Do(t, Build(map[tp := info]));
      && t.wire.Idle? && !t.client.metadata.IsFull() && id in t.broker.sessions && !EmptyDelta(sent.wire.request)
      && var throttled := HandleResponse(sent.client, Response(NoError, THROTTLED_SESSION_ID, {}));
         throttled.1 && tp in throttled.0.partitions && tp !in t.broker.sessions[id].partitions
  {
    var granted := Broker(map[7 := Session(map[], 1)], {7});
    var resp := Response(NoError, 7, {});
    steps := [Build(map[]), BrokerTakes(granted, resp), Deliver];
    var s1 := Do(s, Build(map[]));
    assert s1.wire == Sent(Request(map[], {}, INITIAL)) && s1.client == Client(INITIAL, map[]);
    assert Without(s1.broker, INVALID_SESSION_ID) == s1.broker;
    assert TakesFull(s1.broker, s1.wire.request, granted, resp);
    var s2 := Do(s1, BrokerTakes(granted, resp));
    var s3 := Do(s2, Deliver);
    var tail, last := [BrokerTakes(granted, resp), Deliver], [Deliver];
    assert steps[1..] == tail && tail[1..] == last && last[1..] == [];
    assert Run(s2, last) && After(s2, last) == After(s3, []) == s3;
    assert Run(s1, tail) && After(s1, tail) == s3;
    assert Run(s, steps) && After(s, steps) == s3;
    assert s3.client == Client(FetchMetadata(7, 1), map[]);
    assert tp in Changed(map[], map[tp := info]);
  }
}
