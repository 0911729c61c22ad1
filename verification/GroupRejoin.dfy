/**
 Whether a member that has fallen out of its group asks to join again (coordinator/base.py). `reset_generation`
 asks for it by setting `rejoin_needed`; `join_group` clears the flag when a join has succeeded, without the lock.
 */
module GroupRejoin {
  import opened Wrappers
  import opened GroupMembership
  import opened GroupSafety

  /** The member is out of the group, and nothing asks for a rejoin. */
  predicate Forgotten(s: State) { s.state.Unjoined? && !s.rejoinNeeded }

  /** `need_rejoin` as the base class has it: the flag. */
  predicate AsksFlag(s: State, a: Step) { a.TestRejoin? ==> a.needed == s.rejoinNeeded }

  predicate RunAsksFlag(s: State, steps: seq<Step>)
    requires Run(s, steps)
    decreases |steps|
  {
    steps != [] ==> AsksFlag(s, steps[0]) && RunAsksFlag(Do(s, steps[0]), steps[1..])
  }

  /** Inside the loop, and while a rebalance is under way, the flag stays set. */
  predicate FlagInv(s: State) {
    s.rejoining || s.pc in {Loop, EnsuringCoordinator, Preparing, Clearing} ==> s.rejoinNeeded
  }

  // ---------- what the handlers do to the flag ----------

  /** The flag is not taken back, and the member is not forgotten if it was not. */
  predicate Minds(s: State, t: State) { (s.rejoinNeeded ==> t.rejoinNeeded) && (Forgotten(t) ==> Forgotten(s)) }

  /** A future that may fail is one that a rejoin is asked for. */
  predicate Guarded(s: State, f: nat) { IsPending(s, f) ==> s.rejoinNeeded }

  lemma FailsMinds(s: State, t: State, f: nat)
    requires Minds(s, t) && Guarded(s, f) && t.futures == s.futures
    ensures Minds(s, FutureFails(t, f))
  {
  }

  lemma EffectsMind(s: State, b: bool)
    ensures Minds(s, s) && Minds(s, CoordinatorDead(s)) && Minds(s, DeadIf(s, b)) && Minds(s, RequestRejoin(s)) && Minds(s, ResetGeneration(s))
    ensures Minds(s, ResetGeneration(RequestRejoin(s))) && Minds(s, CoordinatorDead(RequestRejoin(s)))
  {
  }

  lemma JoinHandlerMinds(s: State, f: nat, reply: Reply, sync: Attempt)
    requires CanSend(s, sync) && Guarded(s, f)
    ensures Minds(s, HandleJoinGroup(s, f, reply, sync))
  {
    EffectsMind(s, reply.RequestFailed? && reply.marksDead);
    hide FutureFails, Send, Minds, Guarded;
    match reply
    case NoError => JoinedMinds(s, f, sync);
    case UnknownMemberId => FailsMinds(s, ResetGeneration(s), f);
    case MemberIdRequired => FailsMinds(s, ResetGeneration(s), f);
    case CoordinatorUnavailable => FailsMinds(s, CoordinatorDead(s), f);
    case RequestFailed(dead) => FailsMinds(s, DeadIf(s, dead), f);
    case _ => FailsMinds(s, s, f);
  }

  lemma JoinedMinds(s: State, f: nat, sync: Attempt)
    requires CanSend(s, sync) && Guarded(s, f)
    ensures Minds(s, HandleJoinGroup(s, f, NoError, sync))
  {
    StillCanSend(s, f, sync);
    var t := if s.state != Rebalancing then FutureFails(s, f) else s;
    var u := Send(t, sync, SyncGroup(f));
    assert u.futures == t.futures && u.state == t.state && u.rejoinNeeded == t.rejoinNeeded;
  }

  lemma SyncHandlerMinds(s: State, f: nat, reply: Reply)
    requires Guarded(s, f)
    ensures Minds(s, HandleSyncGroup(s, f, reply))
  {
    EffectsMind(s, reply.RequestFailed? && reply.marksDead);
    if reply.NoError? { SucceedsMinds(s, f); }
    hide FutureFails, FutureSucceeds, Minds, Guarded;
    match reply
    case NoError =>
    case RequestFailed(dead) => FailsMinds(s, DeadIf(s, dead), f);
    case UnknownMemberId => FailsMinds(s, ResetGeneration(RequestRejoin(s)), f);
    case IllegalGeneration => FailsMinds(s, ResetGeneration(RequestRejoin(s)), f);
    case CoordinatorUnavailable => FailsMinds(s, CoordinatorDead(RequestRejoin(s)), f);
    case _ => FailsMinds(s, RequestRejoin(s), f);
  }

  lemma SucceedsMinds(s: State, f: nat)
    ensures Minds(s, FutureSucceeds(s, f))
  {
  }

  lemma OtherHandlersMind(s: State, t: nat, reply: Reply)
    ensures Minds(s, HandleHeartbeat(s, t, reply)) && Minds(s, HandleOther(s, reply))
  {
  }

  lemma HandlerMinds(s: State, id: nat, sync: Attempt)
    requires Inv(s) && FlagInv(s) && Enabled(s, Handle(id, sync))
    ensures Minds(s, HandleReply(s, id, sync))
  {
    var x, t := s.exchanges[id], s.(exchanges := s.exchanges - {id});
    forall f: nat ensures Guarded(t, f) { assert IsPending(s, f) ==> s.joinFuture == Some(f); }
    assert CanSend(t, sync) && (Minds(t, HandleReply(s, id, sync)) ==> Minds(s, HandleReply(s, id, sync)));
    hide Inv, HandleJoinGroup, HandleSyncGroup, HandleHeartbeat, HandleOther, Minds, Guarded;
    EffectsMind(t, false);
    match x.request
    case JoinGroup(f) => JoinHandlerMinds(t, f, x.reply.value, sync);
    case SyncGroup(f) => SyncHandlerMinds(t, f, x.reply.value);
    case Heartbeat(h) => OtherHandlersMind(t, h, x.reply.value);
    case OffsetCommit => OtherHandlersMind(t, 0, x.reply.value);
    case LeaveGroup =>
  }

  // ---------- runs ----------

  lemma StepKeepsFlag(s: State, a: Step)
    requires Inv(s) && FlagInv(s) && Enabled(s, a) && AsksFlag(s, a)
    ensures FlagInv(Do(s, a))
  {
    hide HandleReply, NothingInFlight, FuturesInv, HeartbeatInv, HistoryInv, ThreadsInv, Send;
    match a
    case Handle(id, sync) =>
      HandlerMinds(s, id, sync);
      HandlerIsTame(s, id, sync);
    case InitiateJoin(x) => SendMinds(s.(state := Rebalancing), x, JoinGroup(|s.futures|));
    case SendCommit(x) => SendMinds(s, x, OffsetCommit);
    case SendHeartbeat(x) => SendMinds(s, x, Heartbeat(s.beat.thread));
    case MaybeLeave(x, _) => SendMinds(s, x, LeaveGroup);
    case PollExpires(x, _) => SendMinds(s, x, LeaveGroup);
    case _ =>
  }

  lemma SendMinds(s: State, a: Attempt, r: Request)
    requires CanSend(s, a)
    ensures var t := Send(s, a, r); t.state == s.state && t.rejoinNeeded == s.rejoinNeeded && t.rejoining == s.rejoining && t.pc == s.pc
  {
  }

  /** Only clearing the flag of a member that is out of the group forgets it. */
  lemma StepForgets(s: State, a: Step)
    requires Inv(s) && FlagInv(s) && Enabled(s, a) && !Forgotten(s)
    ensures Forgotten(Do(s, a)) <==> a.ClearRejoin? && s.state.Unjoined?
  {
    hide HandleReply, NothingInFlight, FuturesInv, HeartbeatInv, HistoryInv, ThreadsInv, Send;
    match a
    case Handle(id, sync) => HandlerMinds(s, id, sync);
    case InitiateJoin(x) => SendMinds(s.(state := Rebalancing), x, JoinGroup(|s.futures|));
    case SendCommit(x) => SendMinds(s, x, OffsetCommit);
    case SendHeartbeat(x) => SendMinds(s, x, Heartbeat(s.beat.thread));
    case MaybeLeave(x, _) => SendMinds(s, x, LeaveGroup);
    case PollExpires(x, _) => SendMinds(s, x, LeaveGroup);
    case _ =>
  }

  predicate EverForgotten(s: State, steps: seq<Step>)
    requires Run(s, steps)
    decreases |steps|
  {
    Forgotten(s) || (steps != [] && EverForgotten(Do(s, steps[0]), steps[1..]))
  }

  /** The flag is cleared at some point at which the member has fallen out of the group again. */
  predicate ClearsUnjoined(s: State, steps: seq<Step>)
    requires Run(s, steps)
    decreases |steps|
  {
    steps != [] && ((steps[0].ClearRejoin? && s.state.Unjoined?) || ClearsUnjoined(Do(s, steps[0]), steps[1..]))
  }

  lemma {:induction false} RunForgets(s: State, steps: seq<Step>)
    requires Inv(s) && FlagInv(s) && !Forgotten(s) && Run(s, steps) && RunAsksFlag(s, steps)
    ensures EverForgotten(s, steps) <==> ClearsUnjoined(s, steps)
    decreases |steps|
  {
    hide Inv, FlagInv, Forgotten, Enabled, Do, AsksFlag;
    if steps != [] {
      StepForgets(s, steps[0]);
      var t := Do(s, steps[0]);
      if Forgotten(t) {
        assert EverForgotten(t, steps[1..]);
      } else {
        StepKeepsInv(s, steps[0]);
        StepKeepsFlag(s, steps[0]);
        RunForgets(t, steps[1..]);
      }
    }
  }

  /**
   In any run in which `need_rejoin` answers by the flag: the member is at some point out of the group without
   a rejoin being asked for if and only if at some point `join_group` clears the flag although the member has fallen
   out of the group again since the join succeeded.
   */
  lemma ForgottenIffClearedUnjoined(steps: seq<Step>)
    requires Run(Start, steps) && RunAsksFlag(Start, steps)
    ensures EverForgotten(Start, steps) <==> ClearsUnjoined(Start, steps)
  {
    StartInv();
    RunForgets(Start, steps);
  }

  /** The run: a heartbeat finds the member unknown between the success of the join and the clearing of the flag. */
  lemma ResetIsForgotten() returns (steps: seq<Step>)
    ensures Run(Start, steps)
    ensures After(Start, steps) == State(Unjoined, false, false, None, [Succeeded], Some(7), [Thread(true, false, true)], Some(0), Waiting,
                                         Outside, map[], [Prepared, Completed(false)])
    ensures Forgotten(After(Start, steps))
  {
    hide Run, After;
    steps := ResetBeforeClearing();
    steps := Then(steps, BeatWaits);
    steps := Then(steps, ClearRejoin);
    steps := Then(steps, CompleteReturns(false));
  }

  lemma HeartbeatBeforeClearing() returns (steps: seq<Step>)
    ensures Run(Start, steps)
    ensures After(Start, steps) == State(Stable, true, false, None, [Succeeded], Some(7), [Thread(true, false, true)], Some(0), Waiting,
                                         Clearing, map[2 := Exchange(7, Heartbeat(0), None)], [Prepared])
  {
    hide Run, After;
    steps := JoinSucceeds();
    steps := Then(steps, Collect);
    steps := Then(steps, Judge);
    steps := Then(steps, BeatStarts(0));
    steps := Then(steps, SendHeartbeat(Sent(2)));
  }

  lemma ResetBeforeClearing() returns (steps: seq<Step>)
    ensures Run(Start, steps)
    ensures After(Start, steps) == State(Unjoined, true, false, None, [Succeeded], Some(7), [Thread(true, false, true)], Some(0), Polling(0),
                                         Clearing, map[], [Prepared])
  {
    hide Run, After;
    steps := HeartbeatBeforeClearing();
    steps := Then(steps, BeatStarts(0));
    steps := Then(steps, Receive(2, UnknownMemberId));
    steps := Then(steps, Handle(2, NotSent(false)));
  }

  // ---------- nothing brings it back ----------

  predicate Idle(s: State) { Forgotten(s) && s.pc.Outside? && s.beat.Waiting? && s.exchanges == map[] }

  /** Someone else speaks up: a change of the subscription, a commit that is answered, or leaving the group for good. */
  predicate Wakes(a: Step) { a.RejoinRequested? || a.SendCommit? || a.MaybeLeave? }

  lemma {:induction false} StaysForgotten(s: State, steps: seq<Step>)
    requires Idle(s) && Run(s, steps) && RunAsksFlag(s, steps) && forall i :: 0 <= i < |steps| ==> !Wakes(steps[i])
    ensures Idle(After(s, steps))
    decreases |steps|
  {
    if steps != [] {
      assert !Wakes(steps[0]);
      assert Idle(Do(s, steps[0])) by { hide Run, RunAsksFlag; }
      hide Idle, Do, Enabled;
      StaysForgotten(Do(s, steps[0]), steps[1..]);
    }
  }
}
