/**
 The partition index of the cluster metadata (cluster.py): for each partition its leader, and for each broker
 the partitions it leads, built in one pass over a metadata response.
 */
module ClusterIndex {
  import opened Wrappers
  import opened Structs

  /** A leader of -1 is unavailable; partitions added by hand may have none at all. */
  datatype Partition = Partition(topic: string, partition: int, leader: Option<int>)

  datatype TopicError = NoError | TopicAuthorizationFailed | OtherError

  datatype PartitionData = PartitionData(partition: int, leader: int)

  datatype TopicData = TopicData(error: TopicError, topic: string, isInternal: bool, partitions: seq<PartitionData>)

  datatype Response = Response(hasBrokers: bool, topics: seq<TopicData>)

  datatype Index = Index(partitions: map<string, map<int, Partition>>, byBroker: map<int, set<TopicPartition>>)

  const Empty := Index(map[], map[])

  // ---------- queries ----------

  function LeaderFor(x: Index, tp: TopicPartition): Option<Option<int>> {
    if tp.topic !in x.partitions then None
    else if tp.partition !in x.partitions[tp.topic] then None
    else Some(x.partitions[tp.topic][tp.partition].leader)
  }

  function PartitionsFor(x: Index, broker: int): Option<set<TopicPartition>> {
    if broker in x.byBroker then Some(x.byBroker[broker]) else None
  }

  predicate Leads(x: Index, broker: int, tp: TopicPartition) {
    PartitionsFor(x, broker).Some? && tp in PartitionsFor(x, broker).value
  }

  predicate HasLeader(x: Index, tp: TopicPartition, broker: int) { LeaderFor(x, tp) == Some(Some(broker)) }

  /** The two queries agree on every partition and every broker but -1. */
  ghost predicate Agree(x: Index) {
    forall tp, b :: b != -1 ==> (Leads(x, b, tp) <==> HasLeader(x, tp, b))
  }

  // ---------- building ----------

  function Enter(byBroker: map<int, set<TopicPartition>>, leader: Option<int>, tp: TopicPartition): map<int, set<TopicPartition>> {
    if leader.None? || leader.value == -1 then byBroker
    else byBroker[leader.value := (if leader.value in byBroker then byBroker[leader.value] else {}) + {tp}]
  }

  function AddPartition(x: Index, p: Partition): Index
    requires p.topic in x.partitions
  {
    Index(x.partitions[p.topic := x.partitions[p.topic][p.partition := p]],
          Enter(x.byBroker, p.leader, TopicPartition(p.topic, p.partition)))
  }

  function AddListed(x: Index, topic: string, ps: seq<PartitionData>): (r: Index)
    requires topic in x.partitions
    ensures topic in r.partitions
    decreases |ps|
  {
    if ps == [] then x
    else AddPartition(AddListed(x, topic, ps[..|ps| - 1]), Partition(topic, ps[|ps| - 1].partition, Some(ps[|ps| - 1].leader)))
  }

  function AddTopic(x: Index, t: TopicData): Index {
    if t.error == NoError then AddListed(x.(partitions := x.partitions[t.topic := map[]]), t.topic, t.partitions) else x
  }

  function AddTopics(x: Index, ts: seq<TopicData>): Index
    decreases |ts|
  {
    if ts == [] then x else AddTopic(AddTopics(x, ts[..|ts| - 1]), ts[|ts| - 1])
  }

  function Built(ts: seq<TopicData>): Index { AddTopics(Empty, ts) }

  /** `with_partitions`: None is the KeyError of an unknown topic. */
  function WithAdded(x: Index, ps: seq<Partition>): Option<Index>
    decreases |ps|
  {
    if ps == [] then Some(x)
    else
      match WithAdded(x, ps[..|ps| - 1])
      case None => None
      case Some(y) => if ps[|ps| - 1].topic in y.partitions then Some(AddPartition(y, ps[|ps| - 1])) else None
  }

  // ---------- what has been entered ----------

  predicate ListedAt(ts: seq<TopicData>, i: nat, j: nat, tp: TopicPartition, b: int) {
    && i < |ts| && ts[i].error == NoError && ts[i].topic == tp.topic
    && j < |ts[i].partitions| && ts[i].partitions[j] == PartitionData(tp.partition, b)
  }

  /** Some entry of the response gives the partition this leader. */
  ghost predicate Listed(ts: seq<TopicData>, tp: TopicPartition, b: int) { exists i: nat, j: nat :: ListedAt(ts, i, j, tp, b) }

  predicate ListedIn(ps: seq<PartitionData>, partition: int, b: int) { PartitionData(partition, b) in ps }

  lemma AddPartitionMeans(x: Index, p: Partition, tp: TopicPartition, b: int)
    requires p.topic in x.partitions
    ensures var y, here := AddPartition(x, p), tp == TopicPartition(p.topic, p.partition);
      && LeaderFor(y, tp) == (if here then Some(p.leader) else LeaderFor(x, tp))
      && (b != -1 ==> (Leads(y, b, tp) <==> Leads(x, b, tp) || (here && p.leader == Some(b))))
  {
  }

  /** Entering the partitions of one topic. */
  lemma {:induction false} AddListedMeans(x: Index, topic: string, ps: seq<PartitionData>, tp: TopicPartition, b: int)
    requires topic in x.partitions && b != -1
    ensures var y := AddListed(x, topic, ps);
      && (Leads(y, b, tp) <==> Leads(x, b, tp) || (tp.topic == topic && ListedIn(ps, tp.partition, b)))
      && (HasLeader(y, tp, b) ==> HasLeader(x, tp, b) || (tp.topic == topic && ListedIn(ps, tp.partition, b)))
      && (tp.topic != topic ==> LeaderFor(y, tp) == LeaderFor(x, tp))
    decreases |ps|
  {
    if ps != [] {
      var front, last := ps[..|ps| - 1], ps[|ps| - 1];
      AddListedMeans(x, topic, front, tp, b);
      AddPartitionMeans(AddListed(x, topic, front), Partition(topic, last.partition, Some(last.leader)), tp, b);
      assert ps == front + [last];
      hide AddPartition, LeaderFor, Leads;
    }
  }

  /** What the index holds after any response: the brokers' sets hold everything listed, the leaders only things listed. */
  lemma {:induction false} BuiltMeans(ts: seq<TopicData>, tp: TopicPartition, b: int)
    requires b != -1
    ensures Leads(Built(ts), b, tp) <==> Listed(ts, tp, b)
    ensures HasLeader(Built(ts), tp, b) ==> Listed(ts, tp, b)
    decreases |ts|
  {
    if ts != [] {
      var front, t := ts[..|ts| - 1], ts[|ts| - 1];
      BuiltMeans(front, tp, b);
      ListedSnoc(front, t, tp, b);
      assert ts == front + [t];
      var x := Built(front);
      if t.error == NoError { AddListedMeans(x.(partitions := x.partitions[t.topic := map[]]), t.topic, t.partitions, tp, b); }
    }
  }

  lemma ListedSnoc(ts: seq<TopicData>, t: TopicData, tp: TopicPartition, b: int)
    ensures Listed(ts + [t], tp, b) <==>
      Listed(ts, tp, b) || (t.error == NoError && t.topic == tp.topic && ListedIn(t.partitions, tp.partition, b))
  {
    var all := ts + [t];
    if i: nat, j: nat :| ListedAt(all, i, j, tp, b) {
      if i < |ts| { assert ListedAt(ts, i, j, tp, b); }
    }
    if i: nat, j: nat :| ListedAt(ts, i, j, tp, b) { assert ListedAt(all, i, j, tp, b); }
    if t.error == NoError && t.topic == tp.topic && ListedIn(t.partitions, tp.partition, b) {
      var j: nat :| j < |t.partitions| && t.partitions[j] == PartitionData(tp.partition, b);
      assert ListedAt(all, |ts|, j, tp, b);
    }
  }

  // ---------- main theorems ----------

  /** The last leader that a topic's entry lists for a partition. */
  function LastIn(ps: seq<PartitionData>, partition: int): Option<int> {
    if ps == [] then None
    else if ps[|ps| - 1].partition == partition then Some(ps[|ps| - 1].leader)
    else LastIn(ps[..|ps| - 1], partition)
  }

  /** The leader that counts for a partition: in the last good entry of its topic, the last entry of the partition. */
  function Final(ts: seq<TopicData>, tp: TopicPartition): Option<int> {
    if ts == [] then None
    else
      var t := ts[|ts| - 1];
      if t.error == NoError && t.topic == tp.topic then LastIn(t.partitions, tp.partition) else Final(ts[..|ts| - 1], tp)
  }

  lemma {:induction false} AddListedLeaves(x: Index, topic: string, ps: seq<PartitionData>, tp: TopicPartition)
    requires topic in x.partitions
    ensures LeaderFor(AddListed(x, topic, ps), tp) ==
      if tp.topic == topic && LastIn(ps, tp.partition).Some? then Some(LastIn(ps, tp.partition)) else LeaderFor(x, tp)
    decreases |ps|
  {
    if ps != [] {
      var front, last := ps[..|ps| - 1], ps[|ps| - 1];
      AddListedLeaves(x, topic, front, tp);
      AddPartitionMeans(AddListed(x, topic, front), Partition(topic, last.partition, Some(last.leader)), tp, 0);
      hide AddPartition, LeaderFor, Leads;
    }
  }

  lemma {:induction false} FinalIsLeader(ts: seq<TopicData>, tp: TopicPartition)
    ensures LeaderFor(Built(ts), tp) == if Final(ts, tp).Some? then Some(Final(ts, tp)) else None
    decreases |ts|
  {
    if ts != [] {
      var front, t := ts[..|ts| - 1], ts[|ts| - 1];
      FinalIsLeader(front, tp);
      var x := Built(front);
      if t.error == NoError { AddListedLeaves(x.(partitions := x.partitions[t.topic := map[]]), t.topic, t.partitions, tp); }
    }
  }

  /**
   After any response the two queries agree if and only if every leader listed for a partition is the one that
   counts: the last in the last good entry of its topic. So no partition or topic may be repeated with another
   leader, or without the partition.
   */
  lemma AgreeIffListedLeadersStand(ts: seq<TopicData>)
    ensures Agree(Built(ts)) <==> forall tp, b :: b != -1 && Listed(ts, tp, b) ==> Final(ts, tp) == Some(b)
  {
    forall tp, b | b != -1
      ensures Leads(Built(ts), b, tp) <==> Listed(ts, tp, b)
      ensures HasLeader(Built(ts), tp, b) <==> Final(ts, tp) == Some(b)
      ensures HasLeader(Built(ts), tp, b) ==> Listed(ts, tp, b)
    {
      BuiltMeans(ts, tp, b);
      FinalIsLeader(ts, tp);
    }
    hide Built, Listed, HasLeader, Leads, Final;
  }

  /** A topic listed twice, its partition with another leader: the first broker keeps a partition that it does not lead. */
  lemma RepeatedTopicDisagrees(first: int, second: int)
    requires first != second && first != -1
    ensures var t := (b: int) => TopicData(NoError, "t", false, [PartitionData(0, b)]);
      var x := Built([t(first), t(second)]);
      && !Agree(x)
      && Leads(x, first, TopicPartition("t", 0)) && HasLeader(x, TopicPartition("t", 0), second)
  {
    var a, b := TopicData(NoError, "t", false, [PartitionData(0, first)]), TopicData(NoError, "t", false, [PartitionData(0, second)]);
    var ts, tp := [a, b], TopicPartition("t", 0);
    assert ListedAt(ts, 0, 0, tp, first);
    BuiltMeans(ts, tp, first);
    FinalIsLeader(ts, tp);
    assert Final(ts, tp) == LastIn([PartitionData(0, second)], 0) == Some(second);
    hide Built, LeaderFor, Leads, Final, Listed;
  }

  /** The same within one topic. */
  lemma RepeatedPartitionDisagrees(first: int, second: int)
    requires first != second && first != -1
    ensures var x := Built([TopicData(NoError, "t", false, [PartitionData(0, first), PartitionData(0, second)])]);
      && !Agree(x)
      && Leads(x, first, TopicPartition("t", 0)) && HasLeader(x, TopicPartition("t", 0), second)
  {
    var ps := [PartitionData(0, first), PartitionData(0, second)];
    var ts, tp := [TopicData(NoError, "t", false, ps)], TopicPartition("t", 0);
    assert ListedAt(ts, 0, 0, tp, first);
    BuiltMeans(ts, tp, first);
    FinalIsLeader(ts, tp);
    assert Final(ts, tp) == LastIn(ps, 0) == Some(second);
    hide Built, LeaderFor, Leads, Final, Listed;
  }

  predicate DistinctTopics(ts: seq<TopicData>) { forall i, j :: 0 <= i < j < |ts| ==> ts[i].topic != ts[j].topic }

  predicate DistinctPartitions(ps: seq<PartitionData>) { forall i, j :: 0 <= i < j < |ps| ==> ps[i].partition != ps[j].partition }

  predicate WellFormed(ts: seq<TopicData>) {
    DistinctTopics(ts) && forall i :: 0 <= i < |ts| ==> DistinctPartitions(ts[i].partitions)
  }

  lemma {:induction false} LastOfDistinct(ps: seq<PartitionData>, k: nat)
    requires DistinctPartitions(ps) && k < |ps|
    ensures LastIn(ps, ps[k].partition) == Some(ps[k].leader)
    decreases |ps|
  {
    if k < |ps| - 1 { LastOfDistinct(ps[..|ps| - 1], k); }
  }

  lemma {:induction false} FinalOfDistinct(ts: seq<TopicData>, i: nat, j: nat, tp: TopicPartition, b: int)
    requires WellFormed(ts) && ListedAt(ts, i, j, tp, b)
    ensures Final(ts, tp) == Some(b)
    decreases |ts|
  {
    if i == |ts| - 1 {
      LastOfDistinct(ts[i].partitions, j);
    } else {
      assert ts[i].topic != ts[|ts| - 1].topic;
      FinalOfDistinct(ts[..|ts| - 1], i, j, tp, b);
    }
  }

  /** After a response with distinct topics and partitions: a partition is a broker's iff the broker is its leader. */
  lemma UpdateAgrees(ts: seq<TopicData>)
    requires WellFormed(ts)
    ensures Agree(Built(ts))
  {
    AgreeIffListedLeadersStand(ts);
    forall tp, b | b != -1 && Listed(ts, tp, b) ensures Final(ts, tp) == Some(b) {
      var i: nat, j: nat :| ListedAt(ts, i, j, tp, b);
      FinalOfDistinct(ts, i, j, tp, b);
    }
  }

  /** A partition added by hand keeps the agreement if and only if it does not take the partition from another broker. */
  lemma AddKeepsIffNoOtherLeader(x: Index, p: Partition)
    requires Agree(x) && p.topic in x.partitions
    ensures var before := LeaderFor(x, TopicPartition(p.topic, p.partition));
      Agree(AddPartition(x, p)) <==>
        (before.Some? && before.value.Some? && before.value != Some(-1) ==> p.leader == before.value)
  {
    var tp, y := TopicPartition(p.topic, p.partition), AddPartition(x, p);
    var before := LeaderFor(x, tp);
    forall q, b | b != -1
      ensures LeaderFor(y, q) == (if q == tp then Some(p.leader) else LeaderFor(x, q))
      ensures Leads(y, b, q) <==> Leads(x, b, q) || (q == tp && p.leader == Some(b))
    {
      AddPartitionMeans(x, p, q, b);
    }
    hide AddPartition, LeaderFor, Leads;
    if before.Some? && before.value.Some? && before.value != Some(-1) && p.leader != before.value {
      var b := before.value.value;
      assert HasLeader(x, tp, b);
      assert Leads(y, b, tp) && !HasLeader(y, tp, b);
    }
  }

  /** Partitions that are new, of known topics, and distinct. */
  predicate AreNew(x: Index, ps: seq<Partition>) {
    && (forall i :: 0 <= i < |ps| ==>
          ps[i].topic in x.partitions && LeaderFor(x, TopicPartition(ps[i].topic, ps[i].partition)).None?)
    && (forall i, j :: 0 <= i < j < |ps| ==> (ps[i].topic, ps[i].partition) != (ps[j].topic, ps[j].partition))
  }

  /** Adding new partitions of known topics keeps the agreement. */
  lemma {:induction false} WithPartitionsAgrees(x: Index, ps: seq<Partition>)
    requires Agree(x) && AreNew(x, ps)
    ensures WithAdded(x, ps).Some? && Agree(WithAdded(x, ps).value)
    ensures WithAdded(x, ps).value.partitions.Keys == x.partitions.Keys
    ensures forall tp :: (forall i :: 0 <= i < |ps| ==> tp != TopicPartition(ps[i].topic, ps[i].partition)) ==>
              LeaderFor(WithAdded(x, ps).value, tp) == LeaderFor(x, tp)
    decreases |ps|
  {
    if ps != [] {
      var front, p := ps[..|ps| - 1], ps[|ps| - 1];
      WithPartitionsAgrees(x, front);
      var y, here := WithAdded(x, front).value, TopicPartition(p.topic, p.partition);
      assert forall i :: 0 <= i < |front| ==> here != TopicPartition(front[i].topic, front[i].partition);
      assert LeaderFor(y, here).None?;
      AddKeepsIffNoOtherLeader(y, p);
      forall tp | tp != here ensures LeaderFor(AddPartition(y, p), tp) == LeaderFor(y, tp) { AddPartitionMeans(y, p, tp, 0); }
      assert forall i :: 0 <= i < |front| ==> front[i] == ps[i];
    }
  }

  predicate AddedAt(ps: seq<Partition>, i: nat, tp: TopicPartition) { i < |ps| && ps[i].topic == tp.topic && ps[i].partition == tp.partition }

  /** What `with_partitions` adds for the partition, the last if there are several. */
  function LastAdded(ps: seq<Partition>, tp: TopicPartition): Option<Partition>
    decreases |ps|
  {
    if ps == [] then None
    else if AddedAt(ps, |ps| - 1, tp) then Some(ps[|ps| - 1])
    else LastAdded(ps[..|ps| - 1], tp)
  }

  ghost predicate AddsLeader(ps: seq<Partition>, tp: TopicPartition, b: int) { exists i: nat :: AddedAt(ps, i, tp) && ps[i].leader == Some(b) }

  /**
   Adding partitions raises just when the topic of one is unknown; otherwise each partition has the leader that is added
   for it last, every broker has the partitions it is added for besides those it had, and nothing else changes.
   */
  lemma {:induction false} WithAddedMeans(x: Index, ps: seq<Partition>, tp: TopicPartition, b: int)
    ensures WithAdded(x, ps).None? <==> exists i :: 0 <= i < |ps| && ps[i].topic !in x.partitions
    ensures WithAdded(x, ps).Some? ==>
      var y := WithAdded(x, ps).value;
      && y.partitions.Keys == x.partitions.Keys
      && LeaderFor(y, tp) == (if LastAdded(ps, tp).Some? then Some(LastAdded(ps, tp).value.leader) else LeaderFor(x, tp))
      && (Leads(y, b, tp) <==> Leads(x, b, tp) || (b != -1 && AddsLeader(ps, tp, b)))
    decreases |ps|
  {
    if ps != [] {
      var front, p := ps[..|ps| - 1], ps[|ps| - 1];
      WithAddedMeans(x, front, tp, b);
      assert forall i :: 0 <= i < |front| ==> front[i] == ps[i];
      assert forall i: nat :: AddedAt(ps, i, tp) <==> AddedAt(front, i, tp) || (i == |front| && AddedAt(ps, |front|, tp));
      if WithAdded(x, front).Some? && p.topic in x.partitions {
        AddPartitionMeans(WithAdded(x, front).value, p, tp, b);
        AddsLeaderLast(front, p, tp, b);
      }
      assert front + [p] == ps;
      hide AddPartition, LeaderFor, Leads, AddsLeader;
    }
  }

  lemma AddsLeaderLast(front: seq<Partition>, p: Partition, tp: TopicPartition, b: int)
    ensures AddsLeader(front + [p], tp, b) <==>
              AddsLeader(front, tp, b) || (TopicPartition(p.topic, p.partition) == tp && p.leader == Some(b))
  {
    var ps := front + [p];
    if AddsLeader(front, tp, b) {
      var i: nat :| AddedAt(front, i, tp) && front[i].leader == Some(b);
      assert AddedAt(ps, i, tp) && ps[i].leader == Some(b);
    }
    if TopicPartition(p.topic, p.partition) == tp && p.leader == Some(b) {
      assert AddedAt(ps, |front|, tp) && ps[|front|].leader == Some(b);
    }
  }

  // ---------- the object ----------

  lemma AddListedNothing(x: Index, topic: string)
    requires topic in x.partitions
    ensures AddListed(x, topic, []) == x
  {
  }

  lemma AddListedSnoc(x: Index, topic: string, ps: seq<PartitionData>, j: nat)
    requires topic in x.partitions && j < |ps|
    ensures AddListed(x, topic, ps[..j + 1])
         == AddPartition(AddListed(x, topic, ps[..j]), Partition(topic, ps[j].partition, Some(ps[j].leader)))
  {
    assert ps[..j + 1][..j] == ps[..j] && ps[..j + 1][j] == ps[j];
  }

  class ClusterMetadata {
    var partitions: map<string, map<int, Partition>>
    var brokerPartitions: map<int, set<TopicPartition>>
    var unauthorizedTopics: set<string>
    var internalTopics: set<string>
    var needAllTopicMetadata: bool

    constructor ()
      ensures View() == Empty && unauthorizedTopics == {} && internalTopics == {} && !needAllTopicMetadata
    {
      partitions, brokerPartitions, unauthorizedTopics, internalTopics, needAllTopicMetadata := map[], map[], {}, {}, false;
    }

    function View(): Index
      reads this
    {
      Index(partitions, brokerPartitions)
    }

    /** A response without brokers is ignored. */
    method UpdateMetadata(r: Response)
      modifies this
      ensures r.hasBrokers ==> View() == Built(r.topics)
      ensures r.hasBrokers ==> internalTopics == set t | t in r.topics && t.isInternal :: t.topic
      ensures r.hasBrokers && needAllTopicMetadata ==> unauthorizedTopics == {}
      ensures r.hasBrokers && !needAllTopicMetadata ==>
                unauthorizedTopics == set t | t in r.topics && t.error == TopicAuthorizationFailed :: t.topic
      ensures !r.hasBrokers ==> View() == old(View()) && unauthorizedTopics == old(unauthorizedTopics) && internalTopics == old(internalTopics)
      ensures needAllTopicMetadata == old(needAllTopicMetadata)
    {
      if !r.hasBrokers { return; }
      var x := Empty;
      var unauthorized: set<string>, internals: set<string> := {}, {};
      for i := 0 to |r.topics|
        invariant x == Built(r.topics[..i])
        invariant internals == set t | t in r.topics[..i] && t.isInternal :: t.topic
        invariant unauthorized ==
          if needAllTopicMetadata then {} else set t | t in r.topics[..i] && t.error == TopicAuthorizationFailed :: t.topic
        invariant needAllTopicMetadata == old(needAllTopicMetadata) && View() == old(View())
      {
        var t := r.topics[i];
        assert r.topics[..i + 1] == r.topics[..i] + [t] && r.topics[..i + 1][..i] == r.topics[..i];
        if t.isInternal { internals := internals + {t.topic}; }
        if t.error == NoError {
          x := EnterTopic(x, t);
        } else if !needAllTopicMetadata && t.error == TopicAuthorizationFailed {
          unauthorized := unauthorized + {t.topic};
        }
      }
      assert r.topics[..|r.topics|] == r.topics;
      partitions, brokerPartitions := x.partitions, x.byBroker;
      unauthorizedTopics, internalTopics := unauthorized, internals;
    }

    /** The inner loop, over the partitions of one topic. */
    static method EnterTopic(x: Index, t: TopicData) returns (y: Index)
      requires t.error == NoError
      ensures y == AddTopic(x, t)
    {
      hide AddListed;
      var partitions, byBroker := x.partitions[t.topic := map[]], x.byBroker;
      ghost var start := Index(partitions, byBroker);
      AddListedNothing(start, t.topic);
      for j := 0 to |t.partitions|
        invariant t.topic in partitions && Index(partitions, byBroker) == AddListed(start, t.topic, t.partitions[..j])
      {
        var d := t.partitions[j];
        AddListedSnoc(start, t.topic, t.partitions, j);
        partitions := partitions[t.topic := partitions[t.topic][d.partition := Partition(t.topic, d.partition, Some(d.leader))]];
        if d.leader != -1 {
          var led := if d.leader in byBroker then byBroker[d.leader] else {};
          byBroker := byBroker[d.leader := led + {TopicPartition(t.topic, d.partition)}];
        }
      }
      assert t.partitions[..|t.partitions|] == t.partitions && t.partitions[..0] == [];
      return Index(partitions, byBroker);
    }

    /** A copy with partitions added; an unknown topic raises a KeyError, and this object is not touched. */
    method WithPartitions(added: seq<Partition>) returns (r: Option<ClusterMetadata>)
      ensures r.Some? ==> fresh(r.value) && WithAdded(View(), added) == Some(r.value.View()) &&
                          r.value.unauthorizedTopics == unauthorizedTopics && r.value.internalTopics == internalTopics &&
                          !r.value.needAllTopicMetadata
      ensures r.None? ==> WithAdded(View(), added).None?
    {
      var copy := new ClusterMetadata();
      copy.partitions, copy.brokerPartitions := partitions, brokerPartitions;
      copy.unauthorizedTopics, copy.internalTopics := unauthorizedTopics, internalTopics;
      for i := 0 to |added|
        invariant WithAdded(View(), added[..i]) == Some(copy.View())
        invariant copy.unauthorizedTopics == unauthorizedTopics && copy.internalTopics == internalTopics && !copy.needAllTopicMetadata
      {
        var p := added[i];
        assert added[..i + 1][..i] == added[..i] && added[..i + 1][i] == p;
        if p.topic !in copy.partitions {
          StaysNone(View(), added, i + 1);
          return None;
        }
        copy.partitions := copy.partitions[p.topic := copy.partitions[p.topic][p.partition := p]];
        if p.leader.Some? && p.leader.value != -1 {
          var b := p.leader.value;
          var led := if b in copy.brokerPartitions then copy.brokerPartitions[b] else {};
          copy.brokerPartitions := copy.brokerPartitions[b := led + {TopicPartition(p.topic, p.partition)}];
        }
      }
      assert added[..|added|] == added;
      return Some(copy);
    }

    static lemma {:induction false} StaysNone(x: Index, ps: seq<Partition>, i: nat)
      requires i <= |ps| && WithAdded(x, ps[..i]).None?
      ensures WithAdded(x, ps).None?
      decreases |ps| - i
    {
      if i < |ps| {
        assert ps[..i + 1][..i] == ps[..i];
        StaysNone(x, ps, i + 1);
      } else {
        assert ps[..i] == ps;
      }
    }
  }
}
