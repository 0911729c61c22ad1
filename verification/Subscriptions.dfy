/** Assigned partitions and their positions (subscription_state.py). */
module Subscriptions {
  import opened Wrappers
  import opened Structs

  /** The state of one assigned partition; offsets stand for `OffsetAndMetadata`. */
  datatype Tracked = Tracked(paused: bool, resetStrategy: Option<int>, position: Option<int>,
                             highwater: Option<int>, nextAllowedRetryTime: Option<int>)
  {
    predicate HasValidPosition() { position.Some? }
    predicate AwaitingReset() { resetStrategy.Some? }
    predicate IsMissingPosition() { !HasValidPosition() && !AwaitingReset() }
    predicate IsFetchable() { !paused && HasValidPosition() }
    /** Valid, awaiting reset and missing exclude each other and leave nothing out. */
    predicate OneOfThree() { !(HasValidPosition() && AwaitingReset()) }
  }

  const Untracked := Tracked(false, None, None, None, None)

  type Assignment = map<TopicPartition, Tracked>

  function ResetTo(t: Tracked, strategy: int): Tracked {
    t.(resetStrategy := Some(strategy), position := None, nextAllowedRetryTime := None)
  }

  function ResetMissing(t: Tracked, policy: Option<int>): Tracked {
    if t.IsMissingPosition() && policy.Some? then ResetTo(t, policy.value) else t
  }

  function SeekTo(t: Tracked, offset: int): Tracked {
    t.(position := Some(offset), resetStrategy := None, nextAllowedRetryTime := None)
  }

  predicate Fetchable(a: Assignment, tp: TopicPartition) { tp in a && a[tp].IsFetchable() }

  /** Asking for a reset takes the position away, and any wait for a retry; pausing and the high watermark stay. */
  lemma ResetMeans(t: Tracked, strategy: int)
    ensures ResetTo(t, strategy) == Tracked(t.paused, Some(strategy), None, t.highwater, None)
    ensures ResetTo(t, strategy).AwaitingReset() && !ResetTo(t, strategy).IsFetchable() && !ResetTo(t, strategy).IsMissingPosition()
  {
  }

  /** Seeking gives a position, and ends a reset and any wait for a retry. */
  lemma SeekMeans(t: Tracked, offset: int)
    ensures SeekTo(t, offset) == Tracked(t.paused, None, Some(offset), t.highwater, None)
    ensures SeekTo(t, offset).HasValidPosition() && (SeekTo(t, offset).IsFetchable() <==> !t.paused)
  {
  }

  /** A partition that is assigned anew is not paused, misses its position, and is not fetchable. */
  lemma NewIsMissing()
    ensures Untracked == Tracked(false, None, None, None, None) && Untracked.IsMissingPosition() && !Untracked.IsFetchable()
  {
  }

  /** Valid, awaiting reset and missing are all there is, and exclude each other once both flags are not set together. */
  lemma ExactlyOne(t: Tracked)
    ensures t.IsMissingPosition() <==> t.position == None && t.resetStrategy == None
    ensures t.OneOfThree() <==> !(t.position.Some? && t.resetStrategy.Some?)
    ensures t.IsFetchable() <==> t.position.Some? && !t.paused
  {
  }

  /** With a policy nothing is left missing, and what is not missing is not touched. */
  lemma NothingIsLeftMissing(t: Tracked, policy: Option<int>)
    ensures policy.Some? ==> !ResetMissing(t, policy).IsMissingPosition()
    ensures policy.Some? && t.position == None && t.resetStrategy == None ==> ResetMissing(t, policy).resetStrategy == policy
    ensures t.position.Some? || t.resetStrategy.Some? || policy.None? ==> ResetMissing(t, policy) == t
  {
  }

  class TopicPartitionState {
    var paused: bool
    var resetStrategy: Option<int>
    var position: Option<int>
    var highwater: Option<int>
    var dropPendingRecordBatch: bool
    var nextAllowedRetryTime: Option<int>

    function View(): Tracked
      reads this
    {
      Tracked(paused, resetStrategy, position, highwater, nextAllowedRetryTime)
    }

    constructor ()
      ensures View() == Untracked && !dropPendingRecordBatch
    {
      paused, resetStrategy, position, highwater := false, None, None, None;
      dropPendingRecordBatch, nextAllowedRetryTime := false, None;
    }

    /** The `position` property: assigning asks for a valid position. */
    method SetPosition(offset: int)
      requires position.Some?
      modifies this`position
      ensures View() == old(View()).(position := Some(offset))
    {
      position := Some(offset);
    }

    method Reset(strategy: int)
      modifies this`resetStrategy, this`position, this`nextAllowedRetryTime
      ensures View() == ResetTo(old(View()), strategy)
    {
      resetStrategy, position, nextAllowedRetryTime := Some(strategy), None, None;
    }

    method Seek(offset: int)
      modifies this
      ensures View() == SeekTo(old(View()), offset) && dropPendingRecordBatch
    {
      position, resetStrategy := Some(offset), None;
      dropPendingRecordBatch, nextAllowedRetryTime := true, None;
    }

    method SetPaused(value: bool)
      modifies this`paused
      ensures View() == old(View()).(paused := value)
    {
      paused := value;
    }
  }

  class SubscriptionState {
    var assignment: map<TopicPartition, TopicPartitionState>
    var userAssignment: set<TopicPartition>
    const defaultResetStrategy: Option<int>

    /** Each partition has a state object of its own. */
    ghost predicate Valid()
      reads this
    {
      forall p, q :: p in assignment && q in assignment && p != q ==> assignment[p] != assignment[q]
    }

    function View(): Assignment
      reads this, assignment.Values
    {
      map tp | tp in assignment :: assignment[tp].View()
    }

    constructor (defaultResetStrategy: Option<int>)
      ensures Valid() && View() == map[] && userAssignment == {}
      ensures this.defaultResetStrategy == defaultResetStrategy
    {
      assignment, userAssignment := map[], {};
      this.defaultResetStrategy := defaultResetStrategy;
    }

    predicate IsFetchable(tp: TopicPartition)
      reads this, assignment.Values
      ensures IsFetchable(tp) == Fetchable(View(), tp)
    {
      tp in assignment && !assignment[tp].paused && assignment[tp].position.Some?
    }

    /** False stands for the KeyError of an unassigned partition. */
    method Seek(tp: TopicPartition, offset: int) returns (ok: bool)
      requires Valid()
      modifies assignment.Values
      ensures Valid() && ok == (tp in old(View()))
      ensures View() == if ok then old(View())[tp := SeekTo(old(View())[tp], offset)] else old(View())
    {
      if tp !in assignment { return false; }
      assignment[tp].Seek(offset);
      return true;
    }

    method RequestOffsetReset(tp: TopicPartition, strategy: int) returns (ok: bool)
      requires Valid()
      modifies assignment.Values
      ensures Valid() && ok == (tp in old(View()))
      ensures View() == if ok then old(View())[tp := ResetTo(old(View())[tp], strategy)] else old(View())
    {
      if tp !in assignment { return false; }
      assignment[tp].Reset(strategy);
      return true;
    }

    method SetPaused(tp: TopicPartition, value: bool) returns (ok: bool)
      requires Valid()
      modifies assignment.Values
      ensures Valid() && ok == (tp in old(View()))
      ensures View() == if ok then old(View())[tp := old(View())[tp].(paused := value)] else old(View())
    {
      if tp !in assignment { return false; }
      assignment[tp].SetPaused(value);
      return true;
    }

    /** A user assignment keeps the state of the partitions that stay; an unchanged one does nothing. */
    method AssignFromUser(partitions: set<TopicPartition>)
      requires Valid()
      modifies this
      ensures Valid() && userAssignment == partitions
      ensures View() == if old(userAssignment) == partitions then old(View())
                        else map tp | tp in partitions :: if tp in old(View()) then old(View())[tp] else Untracked
    {
      if userAssignment != partitions {
        userAssignment := partitions;
        SetAssignment(partitions, assignment);
      }
    }

    /** An assignment from the group starts every partition afresh. */
    method AssignFromSubscribed(partitions: set<TopicPartition>)
      requires Valid()
      modifies this`assignment
      ensures Valid() && View() == map tp | tp in partitions :: Untracked
    {
      SetAssignment(partitions, map[]);
    }

    method Unsubscribe()
      modifies this
      ensures Valid() && View() == map[] && userAssignment == {}
    {
      assignment, userAssignment := map[], {};
    }

    method SetAssignment(partitions: set<TopicPartition>, kept: map<TopicPartition, TopicPartitionState>)
      requires forall p, q :: p in kept && q in kept && p != q ==> kept[p] != kept[q]
      modifies this`assignment
      ensures Valid() && assignment.Keys == partitions
      ensures View() == map tp | tp in partitions :: if tp in kept then old(kept[tp].View()) else Untracked
    {
      assignment := map[];
      var todo := partitions;
      while todo != {}
        invariant todo <= partitions && assignment.Keys == partitions - todo
        invariant forall tp :: tp in assignment ==>
          if tp in kept then assignment[tp] == kept[tp]
          else fresh(assignment[tp]) && assignment[tp].View() == Untracked
        invariant Valid()
      {
        var tp :| tp in todo;
        if tp in kept {
          assignment := assignment[tp := kept[tp]];
        } else {
          var state := new TopicPartitionState();
          assignment := assignment[tp := state];
        }
        todo := todo - {tp};
      }
    }

    /** `reset_missing_positions`: every missing position awaits a reset, unless there is no policy. */
    method ResetMissingPositions() returns (unresettable: set<TopicPartition>)
      requires Valid()
      modifies assignment.Values
      ensures Valid() && assignment == old(assignment)
      ensures var missing := set tp | tp in old(View()) && old(View())[tp].IsMissingPosition();
        unresettable == if defaultResetStrategy == None then missing else {}
      ensures View() == map tp | tp in old(View()) :: ResetMissing(old(View())[tp], defaultResetStrategy)
    {
      unresettable := {};
      var todo := assignment.Keys;
      ghost var was := View();
      while todo != {}
        invariant todo <= assignment.Keys
        invariant forall tp :: tp in todo ==> assignment[tp].View() == was[tp]
        invariant forall tp :: tp in assignment.Keys - todo ==> assignment[tp].View() == ResetMissing(was[tp], defaultResetStrategy)
        invariant forall tp :: tp in unresettable <==>
          tp in assignment.Keys - todo && was[tp].IsMissingPosition() && defaultResetStrategy == None
      {
        var tp :| tp in todo;
        var refused := ResetIfMissing(tp);
        if refused { unresettable := unresettable + {tp}; }
        todo := todo - {tp};
      }
    }

    /** A missing position is reset; it is refused if there is no policy. */
    method ResetIfMissing(tp: TopicPartition) returns (refused: bool)
      requires tp in assignment
      modifies assignment[tp]
      ensures refused == (old(assignment[tp].View()).IsMissingPosition() && defaultResetStrategy == None)
      ensures assignment[tp].View() == ResetMissing(old(assignment[tp].View()), defaultResetStrategy)
    {
      var state := assignment[tp];
      refused := false;
      if state.position == None && state.resetStrategy == None {
        if defaultResetStrategy == None { return true; }
        state.Reset(defaultResetStrategy.value);
      }
    }
  }
}
