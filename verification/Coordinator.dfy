/**
 The coordinator object (coordinator/base.py): the loop of `join_group`, one round of a heartbeat thread, and the
 response handlers, on fields. Between any two accesses the other threads may do whatever module GroupMembership
 allows; what they do, and how time passes, is a parameter. The ghost field `trace` records the steps taken, so
 what module GroupSafety proves of every run is true of this code.
 */
module Coordinator {
  import opened Wrappers
  import G = GroupMembership
  import opened GroupMembership
  import opened GroupSafety

  ghost predicate Took(s: State, t: State, ran: seq<Step>) { Run(s, ran) && After(s, ran) == t }

  lemma {:induction false} TookTwice(s: State, t: State, u: State, x: seq<Step>, y: seq<Step>)
    requires Took(s, t, x) && Took(t, u, y)
    ensures Took(s, u, x + y)
    decreases |x|
  {
    hide Enabled, Do;
    if x == [] {
      assert x + y == y;
    } else {
      assert (x + y)[1..] == x[1..] + y;
      TookTwice(Do(s, x[0]), t, u, x[1..], y);
    }
  }

  lemma TookStep(s: State, t: State, x: seq<Step>, a: Step)
    requires Took(s, t, x) && Inv(t) && Enabled(t, a)
    ensures Took(s, Do(t, a), x + [a]) && Inv(Do(t, a))
  {
    StepKeepsInv(t, a);
    hide Enabled, Do, Inv;
    assert [a][1..] == [] && Took(Do(t, a), Do(t, a), []);
    assert Took(t, Do(t, a), [a]);
    TookTwice(s, t, Do(t, a), x, [a]);
  }

  predicate IsForeground(a: Step) {
    || a.StartHeartbeatThread? || a.PollHeartbeat? || a.TestRejoin? || a.CoordinatorReady? || a.PrepareReturns? || a.DisableHeartbeat?
    || a.TestCoordinator? || a.CountInFlight? || a.DrainAgain? || a.InitiateJoin? || a.Collect? || a.Judge? || a.ClearRejoin?
    || a.CompleteReturns? || a.Abandon? || a.MaybeLeave? || a.LeaveEnds?
  }

  predicate AllOthers(steps: seq<Step>) { forall i :: 0 <= i < |steps| ==> !IsForeground(steps[i]) }

  /** The steps of the heartbeat thread that is inside its section. */
  predicate IsBeat(a: Step) {
    a.BeatWaits? || a.SessionExpires? || a.PollExpires? || a.BeatLeft? || a.SendHeartbeat? || a.BeatFails?
  }

  /** What only the foreground thread changes. */
  predicate SamePlace(s: State, t: State) {
    t.pc == s.pc && t.rejoining == s.rejoining && t.joinFuture == s.joinFuture && t.history == s.history && |t.futures| == |s.futures|
  }

  predicate SameBeat(s: State, t: State) { t.beat == s.beat && |t.threads| >= |s.threads| }

  lemma SendStays(s: State, a: Attempt, r: Request)
    requires CanSend(s, a)
    ensures SamePlace(s, Send(s, a, r)) && SameBeat(s, Send(s, a, r)) && Send(s, a, r).threads == s.threads
  {
  }

  lemma OthersKeepPlace(s: State, a: Step)
    requires Enabled(s, a) && !IsForeground(a)
    ensures SamePlace(s, Do(s, a))
  {
    hide NothingInFlight, HandleReply, Send;
    match a
    case Handle(id, sync) => HandlerIsTame(s, id, sync);
    case SendCommit(x) => SendStays(s, x, OffsetCommit);
    case SendHeartbeat(x) => SendStays(s, x, Heartbeat(s.beat.thread));
    case PollExpires(x, _) => SendStays(s, x, LeaveGroup);
    case _ =>
  }

  lemma OthersKeepBeat(s: State, a: Step)
    requires Enabled(s, a) && !IsBeat(a) && !s.beat.Waiting?
    ensures SameBeat(s, Do(s, a))
  {
    hide NothingInFlight, HandleReply, Send;
    match a
    case Handle(id, sync) => HandlerIsTame(s, id, sync);
    case SendCommit(x) => SendStays(s, x, OffsetCommit);
    case _ =>
  }

  lemma {:induction false} RunIsPrefixClosed(s: State, steps: seq<Step>, k: nat)
    requires Run(s, steps) && k < |steps|
    ensures Run(s, steps[..k]) && Enabled(After(s, steps[..k]), steps[k])
    decreases k
  {
    hide Enabled, Do;
    if k > 0 {
      assert steps[..k][1..] == steps[1..][..k - 1];
      RunIsPrefixClosed(Do(s, steps[0]), steps[1..], k - 1);
    }
  }

  // ---------- what the environment decides ----------

  /** A call into the client or the subclass: what other threads do meanwhile, and whether it times out or raises. */
  datatype Call = Call(others: seq<Step>, fails: bool)

  /** One pass of the loop that waits for the coordinator's requests to drain. */
  datatype DrainPass = DrainPass(before: seq<Step>, between: seq<Step>, poll: Call)

  datatype Error = RejoinAtOnce | NotRetriable | Retriable

  /** One pass of the loop of `join_group`. */
  datatype Round = Round(
    before: seq<Step>,
    needed: bool,
    ready: Call,
    prepare: Call,
    fence: seq<Step>,
    drain: seq<DrainPass>,
    initiate: seq<Step>,
    attempt: Attempt,
    await: seq<Step>,
    clear: seq<Step>,
    complete: Call,
    error: Error,
    expired: bool)

  /** Unfinished: the schedule ended while the thread was waiting. */
  datatype JoinResult = NotNeeded | Joined | CompleteRaised | TimedOut | Raised | Unfinished

  /** How one stage of a round leaves the loop: it goes on to the next stage, to the next round, or ends the call. */
  datatype Stage = Next | Again | Over(result: JoinResult)

  /** What a heartbeat thread finds in one round, after its poll. */
  datatype Beating = Beating(
    poll: Call,
    connected: bool,
    sessionExpired: bool,
    pollExpired: bool,
    due: bool,
    attempt: Attempt,
    hasMemberId: bool,
    leave: Call)

  /** The step that ends a section whose poll has left this coordinator known. */
  predicate EndsAs(coordinator: Option<nat>, round: Beating, last: Step) {
    if round.poll.fails then last == BeatFails
    else if coordinator.None? || !round.connected then last == BeatWaits
    else if round.sessionExpired then last == SessionExpires
    else if round.pollExpired then last == (if round.leave.fails then BeatFails else BeatLeft)
    else if round.due then last.SendHeartbeat?
    else last == BeatWaits
  }

  /** Without a coordinator nothing can be sent. */
  function Possible(s: State, a: Attempt): Attempt { if CanSend(s, a) then a else NotSent(false) }

  /** The callbacks that a call of `join_group` has run, if it has not come to `_on_join_complete`. */
  function PreparedSince(was: bool, now: bool): seq<Event> { if now && !was then [Prepared] else [] }

  lemma MayGiveUp(s: State)
    requires s.pc in {EnsuringCoordinator, Preparing, DrainPolling}
    ensures Enabled(s, Abandon)
  {
  }

  lemma PlaceIsNotLookedAt(s: State, pc: Pc)
    ensures NothingInFlight(s.(pc := pc)) <==> NothingInFlight(s)
  {
  }

  lemma JudgingIsRejoining(s: State)
    requires Inv(s) && s.pc.Judging?
    ensures s.rejoining
  {
  }

  lemma AwaitedExists(s: State)
    requires Inv(s) && s.pc.Awaiting?
    ensures s.pc.future < |s.futures| && s.joinFuture == Some(s.pc.future)
  {
  }

  class BaseCoordinator {
    var state: MemberState
    var rejoinNeeded: bool
    var rejoining: bool
    var joinFuture: Option<nat>
    var futures: seq<Outcome>
    var coordinator: Option<nat>
    var threads: seq<Thread>
    var current: Option<nat>
    var beat: Beat
    var pc: Pc
    var exchanges: map<nat, Exchange>
    var history: seq<Event>
    ghost var trace: seq<Step>

    ghost predicate Valid()
      reads this
    {
      Took(Start, View(), trace) && Inv(View())
    }

    constructor ()
      ensures Valid() && trace == []
    {
      state, rejoinNeeded, rejoining, joinFuture, futures, coordinator := Unjoined, true, false, None, [], None;
      threads, current, beat, pc, exchanges, history, trace := [], None, Waiting, Outside, map[], [], [];
      new;
      StartInv();
    }

    function View(): State
      reads this
    {
      State(state, rejoinNeeded, rejoining, joinFuture, futures, coordinator, threads, current, beat, pc, exchanges, history)
    }

    ghost method Log(before: State, a: Step)
      requires Took(Start, before, trace) && Inv(before) && Enabled(before, a) && View() == Do(before, a)
      modifies this`trace
      ensures Valid() && trace == old(trace) + [a]
    {
      hide Inv, Enabled, Do, Took;
      TookStep(Start, before, trace, a);
      trace := trace + [a];
    }

    // ---------- response handlers ----------

    method CoordinatorDead()
      modifies this`coordinator
      ensures View() == G.CoordinatorDead(old(View()))
    {
      coordinator := None;
    }

    method RequestRejoin()
      modifies this`rejoinNeeded
      ensures View() == G.RequestRejoin(old(View()))
    {
      rejoinNeeded := true;
    }

    method ResetGeneration()
      modifies this`rejoinNeeded, this`state
      ensures View() == G.ResetGeneration(old(View()))
    {
      rejoinNeeded := true;
      state := Unjoined;
    }

    /** `enable` or `disable` on the coordinator's own heartbeat thread. */
    method SetEnabled(enabled: bool)
      modifies this`threads
      ensures threads == WithCurrent(old(View()), enabled)
    {
      if current.Some? && current.value < |threads| {
        threads := threads[current.value := threads[current.value].(enabled := enabled)];
      }
    }

    /** Completing the join future runs the callbacks it was given; completing it twice is dropped. */
    method Fail(f: nat)
      modifies this`futures, this`state
      ensures View() == FutureFails(old(View()), f)
    {
      if f < |futures| && futures[f] == Pending {
        futures := futures[f := Failed];
        state := Unjoined;
      }
    }

    method Succeed(f: nat)
      modifies this`futures, this`state, this`threads
      ensures View() == FutureSucceeds(old(View()), f)
    {
      if f < |futures| && futures[f] == Pending {
        futures := futures[f := Succeeded];
        state := Stable;
        SetEnabled(true);
      }
    }

    method Send(a: Attempt, r: Request)
      requires CanSend(View(), a)
      modifies this`exchanges, this`coordinator
      ensures View() == G.Send(old(View()), a, r)
    {
      match a {
        case Sent(id) => exchanges := exchanges[id := Exchange(coordinator.value, r, None)];
        case NotSent(dead) => if dead { CoordinatorDead(); }
      }
    }

    /** `_send_join_group_request`: the future it returns may have failed already, and then fails its callbacks at once. */
    method SendJoinGroupRequest(a: Attempt) returns (f: nat)
      requires CanSend(View(), a)
      modifies this`exchanges, this`coordinator, this`futures
      ensures f == |old(futures)| && futures == old(futures) + [if a.Sent? then Pending else Failed]
      ensures View() == G.Send(old(View()), a, Request.JoinGroup(f)).(futures := futures)
    {
      f := |futures|;
      Send(a, Request.JoinGroup(f));
      futures := futures + [if a.Sent? then Pending else Failed];
    }

    method HandleJoinGroupResponse(f: nat, reply: Reply, sync: Attempt)
      requires CanSend(View(), sync)
      modifies this`state, this`rejoinNeeded, this`futures, this`exchanges, this`coordinator
      ensures View() == HandleJoinGroup(old(View()), f, reply, sync)
    {
      match reply {
        case NoError =>
          if state != Rebalancing { Fail(f); }
          Send(sync, SyncGroup(f));
          if sync.NotSent? { Fail(f); }
        case UnknownMemberId =>
          ResetGeneration();
          Fail(f);
        case MemberIdRequired =>
          ResetGeneration();
          Fail(f);
        case CoordinatorUnavailable =>
          CoordinatorDead();
          Fail(f);
        case RequestFailed(dead) =>
          if dead { CoordinatorDead(); }
          Fail(f);
        case _ => Fail(f);
      }
    }

    method HandleSyncGroupResponse(f: nat, reply: Reply)
      modifies this`state, this`rejoinNeeded, this`futures, this`threads, this`coordinator
      ensures View() == HandleSyncGroup(old(View()), f, reply)
    {
      match reply {
        case NoError => Succeed(f);
        case RequestFailed(dead) =>
          if dead { CoordinatorDead(); }
          Fail(f);
        case UnknownMemberId =>
          RequestRejoin();
          ResetGeneration();
          Fail(f);
        case IllegalGeneration =>
          RequestRejoin();
          ResetGeneration();
          Fail(f);
        case CoordinatorUnavailable =>
          RequestRejoin();
          CoordinatorDead();
          Fail(f);
        case _ =>
          RequestRejoin();
          Fail(f);
      }
    }

    /** The errors of heartbeats and commits. */
    method HandleOtherResponse(reply: Reply)
      modifies this`state, this`rejoinNeeded, this`coordinator
      ensures View() == HandleOther(old(View()), reply)
    {
      match reply {
        case CoordinatorUnavailable => CoordinatorDead();
        case RequestFailed(dead) => if dead { CoordinatorDead(); }
        case RebalanceInProgress => RequestRejoin();
        case IllegalGeneration => ResetGeneration();
        case UnknownMemberId => ResetGeneration();
        case _ =>
      }
    }

    method HandleHeartbeatResponse(t: nat, reply: Reply)
      modifies this`state, this`rejoinNeeded, this`coordinator, this`threads
      ensures View() == HandleHeartbeat(old(View()), t, reply)
    {
      if reply.Fenced? {
        if t < |threads| { threads := threads[t := threads[t].(failed := true, enabled := false)]; }
      } else {
        HandleOtherResponse(reply);
      }
    }

    /** A response, or the failure of its request, reaches its handler. */
    method Handle(id: nat, sync: Attempt)
      requires Valid() && Enabled(View(), Step.Handle(id, sync))
      modifies this
      ensures Valid() && View() == Do(old(View()), Step.Handle(id, sync)) && trace == old(trace) + [Step.Handle(id, sync)]
    {
      hide Inv, Took, HandleJoinGroup, HandleSyncGroup, HandleHeartbeat, HandleOther;
      var x := exchanges[id];
      exchanges := exchanges - {id};
      match x.request {
        case JoinGroup(f) => HandleJoinGroupResponse(f, x.reply.value, sync);
        case SyncGroup(f) => HandleSyncGroupResponse(f, x.reply.value);
        case LeaveGroup =>
        case Heartbeat(t) => HandleHeartbeatResponse(t, x.reply.value);
        case OffsetCommit => HandleOtherResponse(x.reply.value);
      }
      Log(old(View()), Step.Handle(id, sync));
    }

    // ---------- other threads ----------

    method Become(t: State)
      modifies this
      ensures View() == t && trace == old(trace)
    {
      state, rejoinNeeded, rejoining, joinFuture := t.state, t.rejoinNeeded, t.rejoining, t.joinFuture;
      futures, coordinator := t.futures, t.coordinator;
      threads, current, beat, pc, exchanges, history := t.threads, t.current, t.beat, t.pc, t.exchanges, t.history;
    }

    /** A step of a thread other than the one that is followed. */
    method Perform(a: Step)
      requires Valid() && Enabled(View(), a)
      modifies this
      ensures Valid() && View() == Do(old(View()), a) && trace == old(trace) + [a]
    {
      hide Inv, Took, Enabled, Do;
      if a.Handle? {
        Handle(a.id, a.sync);
      } else {
        Become(Do(View(), a));
        Log(old(View()), a);
      }
    }

    /** While the foreground thread waits or is between two accesses: what is possible of the script. */
    method OthersRun(script: seq<Step>)
      requires Valid()
      modifies this
      ensures Valid() && old(trace) <= trace && SamePlace(old(View()), View())
      ensures AllOthers(trace[|old(trace)|..]) && (trace == old(trace) ==> View() == old(View()))
    {
      hide Enabled, Do, Took, Inv, IsForeground;
      for i := 0 to |script|
        invariant Valid() && old(trace) <= trace && SamePlace(old(View()), View())
        invariant AllOthers(trace[|old(trace)|..]) && (trace == old(trace) ==> View() == old(View()))
      {
        if Enabled(View(), script[i]) && !IsForeground(script[i]) {
          OthersKeepPlace(View(), script[i]);
          Perform(script[i]);
        }
      }
    }

    /** While a heartbeat thread polls inside its section. */
    method OthersPoll(script: seq<Step>)
      requires Valid() && !beat.Waiting?
      modifies this
      ensures Valid() && old(trace) <= trace && SameBeat(old(View()), View())
    {
      hide Enabled, Do, Took, Inv, IsBeat;
      for i := 0 to |script|
        invariant Valid() && old(trace) <= trace && SameBeat(old(View()), View())
      {
        if Enabled(View(), script[i]) && !IsBeat(script[i]) {
          OthersKeepBeat(View(), script[i]);
          Perform(script[i]);
        }
      }
    }

    // ---------- the foreground thread ----------

    /** Where a stage leaves the foreground thread. */
    predicate Placed(stage: Stage, next: bool, ends: set<JoinResult>)
      reads this`pc
    {
      match stage
      case Next => next
      case Again => pc.Loop?
      case Over(r) => r.Unfinished? || (r in ends && pc.Outside?)
    }

    /** The call returns or raises where it is allowed to. */
    method GiveUp()
      requires Valid() && Enabled(View(), Abandon)
      modifies this`pc, this`trace
      ensures Valid() && trace == old(trace) + [Abandon] && pc.Outside?
    {
      hide Inv, Took;
      pc := Outside;
      Log(old(View()), Abandon);
    }

    /** `ensure_coordinator_ready`, from the test of `need_rejoin` on. */
    method EnsureCoordinatorReady(ready: Call) returns (stage: Stage)
      requires Valid() && pc.EnsuringCoordinator?
      modifies this
      ensures Valid() && old(trace) <= trace && history == old(history) && rejoining == old(rejoining)
      ensures stage != Again && Placed(stage, pc == (if rejoining then Draining else Preparing), {TimedOut})
    {
      hide Inv, Took;
      OthersRun(ready.others);
      if ready.fails {
        GiveUp();
        return Over(TimedOut);
      }
      if coordinator.None? || !beat.Waiting? { return Over(Unfinished); }
      ghost var before := View();
      pc := if rejoining then Draining else Preparing;
      Log(before, CoordinatorReady);
      return Next;
    }

    /** `_on_join_prepare`, and the fence around the heartbeat thread behind it. */
    method PrepareAndFence(prepare: Call, fence: seq<Step>) returns (stage: Stage)
      requires Valid() && pc.Preparing? && !rejoining
      modifies this
      ensures Valid() && old(trace) <= trace
      ensures history == old(history) + PreparedSince(false, rejoining)
      ensures stage != Again && Placed(stage, pc.Draining? && rejoining, {Raised})
    {
      hide Inv, Took;
      OthersRun(prepare.others);
      if prepare.fails {
        GiveUp();
        return Over(Raised);
      }
      PrepareReturned();
      OthersRun(fence);
      if !beat.Waiting? { return Over(Unfinished); }
      DisableHeartbeatThread();
      return Next;
    }

    method PrepareReturned()
      requires Valid() && pc.Preparing?
      modifies this`rejoining, this`pc, this`history, this`trace
      ensures Valid() && trace == old(trace) + [PrepareReturns]
      ensures rejoining && pc.Fencing? && history == old(history) + [Prepared]
    {
      hide Inv, Took;
      rejoining, pc, history := true, Fencing, history + [Prepared];
      Log(old(View()), PrepareReturns);
    }

    method DisableHeartbeatThread()
      requires Valid() && pc.Fencing? && beat.Waiting?
      modifies this`threads, this`pc, this`trace
      ensures Valid() && trace == old(trace) + [DisableHeartbeat]
      ensures threads == WithCurrent(old(View()), false) && pc.Draining?
    {
      hide Inv, Took;
      SetEnabled(false);
      pc := Draining;
      Log(old(View()), DisableHeartbeat);
    }

    /** The loop that waits until nothing is in flight to the coordinator. */
    method DrainRequests(drain: seq<DrainPass>) returns (stage: Stage)
      requires Valid() && pc.Draining?
      modifies this
      ensures Valid() && old(trace) <= trace && history == old(history) && rejoining == old(rejoining)
      ensures Placed(stage, pc.Initiating?, {TimedOut}) && (stage == Next ==> NothingInFlight(View()))
    {
      hide Inv, Took, NothingInFlight;
      for i := 0 to |drain|
        invariant Valid() && old(trace) <= trace && history == old(history) && rejoining == old(rejoining)
        invariant pc.Draining?
      {
        stage := DrainOnce(drain[i]);
        if stage != Next || pc.Initiating? { return; }
      }
      return Over(Unfinished);
    }

    method DrainOnce(pass: DrainPass) returns (stage: Stage)
      requires Valid() && pc.Draining?
      modifies this
      ensures Valid() && old(trace) <= trace && history == old(history) && rejoining == old(rejoining)
      ensures stage != Over(Unfinished) && Placed(stage, pc.Initiating? || pc.Draining?, {TimedOut})
      ensures stage == Next && pc.Initiating? ==> NothingInFlight(View())
    {
      hide Inv, Took, NothingInFlight, Enabled;
      OthersRun(pass.before);
      LookForCoordinator();
      if pc.Loop? { return Again; }
      OthersRun(pass.between);
      CountRequests();
      if pc.Initiating? { return Next; }
      OthersRun(pass.poll.others);
      if pass.poll.fails {
        assert Enabled(View(), Abandon) by { MayGiveUp(View()); }
        GiveUp();
        return Over(TimedOut);
      }
      GoRound();
      return Next;
    }

    method GoRound()
      requires Valid() && pc.DrainPolling?
      modifies this`pc, this`trace
      ensures Valid() && trace == old(trace) + [DrainAgain] && pc.Draining?
    {
      hide Inv, Took;
      pc := Draining;
      Log(old(View()), DrainAgain);
    }

    method LookForCoordinator()
      requires Valid() && pc.Draining?
      modifies this`pc, this`trace
      ensures Valid() && trace == old(trace) + [TestCoordinator]
      ensures pc == if coordinator.Some? then Counting else Loop
    {
      hide Inv, Took;
      pc := if coordinator.Some? then Counting else Loop;
      Log(old(View()), TestCoordinator);
    }

    method CountRequests()
      requires Valid() && pc.Counting?
      modifies this`pc, this`trace
      ensures Valid() && trace == old(trace) + [CountInFlight]
      ensures pc == if NothingInFlight(View()) then Initiating else DrainPolling
    {
      PlaceIsNotLookedAt(View(), if NothingInFlight(View()) then Initiating else DrainPolling);
      hide Inv, Took, NothingInFlight;
      pc := if NothingInFlight(View()) then Initiating else DrainPolling;
      Log(old(View()), CountInFlight);
    }

    /** `_initiate_join_group`: the pending join is come back to; otherwise a JoinGroup is sent. */
    method InitiateJoinGroup(before: seq<Step>, attempt: Attempt) returns (stage: Stage)
      requires Valid() && pc.Initiating?
      modifies this
      ensures Valid() && old(trace) <= trace && history == old(history) && rejoining == old(rejoining)
      ensures stage != Again && Placed(stage, pc.Awaiting?, {})
    {
      hide Inv, Took;
      OthersRun(before);
      if !beat.Waiting? { return Over(Unfinished); }
      SendOrResume(Possible(View(), attempt));
      return Next;
    }

    method SendOrResume(a: Attempt)
      requires Valid() && pc.Initiating? && beat.Waiting? && CanSend(View(), a)
      modifies this`state, this`futures, this`joinFuture, this`pc, this`exchanges, this`coordinator, this`trace
      ensures Valid() && trace == old(trace) + [InitiateJoin(a)]
      ensures pc.Awaiting? && joinFuture == Some(pc.future) && (old(joinFuture).Some? ==> joinFuture == old(joinFuture))
      ensures |futures| == |old(futures)| + if old(joinFuture).Some? then 0 else 1
    {
      hide Inv, Took;
      if joinFuture.None? {
        state := Rebalancing;
        var f := SendJoinGroupRequest(a);
        joinFuture := Some(f);
        if futures[f] == Failed { state := Unjoined; }
      }
      pc := Awaiting(joinFuture.value);
      Log(old(View()), InitiateJoin(a));
    }

    /** The poll for the join future; once it is done it is forgotten. */
    method AwaitJoin(await: seq<Step>, expired: bool) returns (stage: Stage)
      requires Valid() && pc.Awaiting?
      modifies this
      ensures Valid() && old(trace) <= trace && history == old(history) && rejoining == old(rejoining)
      ensures stage != Again && Placed(stage, pc.Judging? && joinFuture.None?, {TimedOut})
      ensures stage == Next ==> pc.future < |futures| && !futures[pc.future].Pending?
    {
      hide Inv, Took;
      OthersRun(await);
      AwaitedExists(View());
      if futures[pc.future].Pending? {
        if !expired { return Over(Unfinished); }
        GiveUp();
        return Over(TimedOut);
      }
      if !beat.Waiting? { return Over(Unfinished); }
      ResetJoinGroupFuture();
      return Next;
    }

    method ResetJoinGroupFuture()
      requires Valid() && pc.Awaiting? && pc.future < |futures| && !futures[pc.future].Pending? && beat.Waiting?
      modifies this`joinFuture, this`pc, this`trace
      ensures Valid() && trace == old(trace) + [Collect]
      ensures joinFuture.None? && pc == Judging(old(pc.future))
    {
      hide Inv, Took;
      joinFuture, pc := None, Judging(pc.future);
      Log(old(View()), Collect);
    }

    /** What follows a join that succeeded; what the others do in between may ask for a rejoin again. */
    method CompleteJoin(clear: seq<Step>, complete: Call) returns (r: JoinResult, ghost x: seq<Step>, ghost y: seq<Step>)
      requires Valid() && pc.Judging? && pc.future < |futures| && futures[pc.future].Succeeded? && joinFuture.None?
      modifies this
      ensures Valid() && old(trace) <= trace && pc.Outside? && !rejoining && joinFuture.None?
      ensures history == old(history) + [Completed(complete.fails)]
      ensures r == if complete.fails then CompleteRaised else Joined
      ensures trace == old(trace) + [Judge] + x + [ClearRejoin] + y + [CompleteReturns(complete.fails)]
      ensures AllOthers(x) && AllOthers(y) && (y == [] ==> !rejoinNeeded)
    {
      hide Inv, Took, IsForeground, AllOthers;
      JudgeSuccess();
      ghost var judged := trace;
      OthersRun(clear);
      x := trace[|judged|..];
      ClearRejoinNeeded();
      ghost var cleared := trace;
      OthersRun(complete.others);
      y := trace[|cleared|..];
      CompleteReturned(complete.fails);
      r := if complete.fails then CompleteRaised else Joined;
    }

    method JudgeSuccess()
      requires Valid() && pc.Judging? && pc.future < |futures| && futures[pc.future].Succeeded?
      modifies this`rejoining, this`pc, this`trace
      ensures Valid() && trace == old(trace) + [Judge]
      ensures !rejoining && pc.Clearing?
    {
      hide Inv, Took;
      rejoining, pc := false, Clearing;
      Log(old(View()), Judge);
    }

    method ClearRejoinNeeded()
      requires Valid() && pc.Clearing?
      modifies this`rejoinNeeded, this`pc, this`trace
      ensures Valid() && trace == old(trace) + [ClearRejoin]
      ensures !rejoinNeeded && pc.Completing?
    {
      hide Inv, Took;
      rejoinNeeded, pc := false, Completing;
      Log(old(View()), ClearRejoin);
    }

    method CompleteReturned(raised: bool)
      requires Valid() && pc.Completing?
      modifies this`pc, this`history, this`trace
      ensures Valid() && trace == old(trace) + [CompleteReturns(raised)]
      ensures pc.Outside? && history == old(history) + [Completed(raised)]
    {
      hide Inv, Took;
      pc, history := Outside, history + [Completed(raised)];
      Log(old(View()), CompleteReturns(raised));
    }

    /** What follows a join that failed. */
    method JoinFailed(error: Error, expired: bool) returns (stage: Stage)
      requires Valid() && pc.Judging? && pc.future < |futures| && futures[pc.future].Failed?
      modifies this
      ensures Valid() && old(trace) <= trace && history == old(history) && rejoining == old(rejoining)
      ensures stage != Next && stage != Over(Unfinished) && Placed(stage, false, {Raised, TimedOut})
    {
      hide Inv, Took;
      var ends := error.NotRetriable? || (error.Retriable? && expired);
      pc := if ends then Outside else Loop;
      Log(old(View()), if ends then Abandon else Judge);
      return if !ends then Again else if error.NotRetriable? then Over(Raised) else Over(TimedOut);
    }

    /** The callbacks run since the history was `before`, with `was` telling whether a rebalance was under way. */
    predicate Keeps(before: seq<Event>, was: bool)
      reads this`history, this`rejoining
    {
      (was ==> rejoining) && history == before + PreparedSince(was, rejoining)
    }

    /** The join is over: `_on_join_complete` was the last callback to be called. */
    predicate IsOver(before: seq<Event>, was: bool, raised: bool)
      reads this`history, this`rejoining, this`joinFuture
    {
      !rejoining && joinFuture.None? && history == before + PreparedSince(was, true) + [Completed(raised)]
    }

    /** The first half of a round, up to the point at which nothing is in flight to the coordinator. */
    method MakeReady(round: Round) returns (stage: Stage)
      requires Valid() && pc.EnsuringCoordinator?
      modifies this
      ensures Valid() && old(trace) <= trace && Keeps(old(history), old(rejoining))
      ensures Placed(stage, pc.Initiating?, {TimedOut, Raised})
    {
      hide Inv, Took;
      stage := EnsureCoordinatorReady(round.ready);
      if stage != Next { return; }
      if !rejoining {
        stage := PrepareAndFence(round.prepare, round.fence);
        if stage != Next { return; }
      }
      stage := DrainRequests(round.drain);
    }

    method JoinOnce(round: Round) returns (stage: Stage)
      requires Valid() && pc.EnsuringCoordinator?
      modifies this
      ensures Valid() && old(trace) <= trace
      ensures stage != Next && Placed(stage, false, {Joined, CompleteRaised, TimedOut, Raised})
      ensures if stage == Over(Joined) || stage == Over(CompleteRaised) then IsOver(old(history), old(rejoining), stage.result.CompleteRaised?)
              else Keeps(old(history), old(rejoining))
    {
      hide Inv, Took;
      stage := MakeReady(round);
      if stage != Next { return; }
      stage := InitiateJoinGroup(round.initiate, round.attempt);
      if stage != Next { return; }
      stage := AwaitJoin(round.await, round.expired);
      if stage != Next { return; }
      JudgingIsRejoining(View());
      if futures[pc.future].Succeeded? {
        assert history == old(history) + PreparedSince(old(rejoining), true);
        var r, _, _ := CompleteJoin(round.clear, round.complete);
        return Over(r);
      }
      stage := JoinFailed(round.error, round.expired);
    }

    /**
     `join_group`. However often its loop goes round, `_on_join_prepare` returns at most once, and only if no
     rebalance was under way at the call; `_on_join_complete` is called exactly when the answer is Joined or it raised
     itself, and then the rebalance is over and no join is left pending.
     */
    method JoinGroup(rounds: seq<Round>) returns (r: JoinResult)
      requires Valid() && pc.Outside?
      modifies this
      ensures Valid() && old(trace) <= trace && (r.Unfinished? || pc.Outside?)
      ensures if r.Joined? || r.CompleteRaised? then IsOver(old(history), old(rejoining), r.CompleteRaised?)
              else Keeps(old(history), old(rejoining))
    {
      hide Inv, Took;
      for i := 0 to |rounds|
        invariant Valid() && old(trace) <= trace && (pc.Loop? || (i == 0 && pc.Outside?))
        invariant Keeps(old(history), old(rejoining))
      {
        OthersRun(rounds[i].before);
        TestNeedRejoin(rounds[i].needed);
        if pc.Outside? { return NotNeeded; }
        var stage := JoinOnce(rounds[i]);
        if stage.Over? { return stage.result; }
      }
      return Unfinished;
    }

    method TestNeedRejoin(needed: bool)
      requires Valid() && (pc.Loop? || pc.Outside?)
      modifies this`pc, this`trace
      ensures Valid() && trace == old(trace) + [TestRejoin(needed)]
      ensures pc == if needed then EnsuringCoordinator else Outside
    {
      hide Inv, Took;
      pc := if needed then EnsuringCoordinator else Outside;
      Log(old(View()), TestRejoin(needed));
    }

    // ---------- a heartbeat thread ----------

    /**
     `_run_once` of thread `t`. A disabled thread does nothing; one that finds the group not STABLE disables itself;
     any other goes through one section. What ends it depends on the state behind its poll, which the steps `polled`
     lead to: only a thread that is connected, within its session and poll timeouts and due tries to send a heartbeat.
     */
    method RunOnce(t: nat, round: Beating) returns (ghost polled: seq<Step>)
      requires Valid() && t < |threads| && threads[t].alive && beat.Waiting? && !pc.LeavingGroup?
      modifies this
      ensures Valid() && beat.Waiting?
      ensures if !old(threads[t].enabled) then trace == old(trace)
              else if !old(state).Stable? then
                trace == old(trace) + [BeatStarts(t)] && threads == old(threads)[t := old(threads[t]).(enabled := false)]
              else
                && old(trace) + [BeatStarts(t)] <= polled && polled < trace && Run(Start, polled)
                && EndsAs(After(Start, polled).coordinator, round, trace[|trace| - 1])
    {
      hide Inv, Took, EndsAs;
      polled := trace;
      if !threads[t].enabled { return; }
      BeginBeat(t);
      if beat.Polling? {
        OthersPoll(round.poll.others);
        polled := trace;
        ValidIsRun();
        EndBeat(t, round);
      }
    }

    lemma ValidIsRun()
      requires Valid()
      ensures Run(Start, trace) && After(Start, trace) == View()
    {
      hide Run, After, Inv;
    }

    method BeginBeat(t: nat)
      requires Valid() && Enabled(View(), BeatStarts(t))
      modifies this`threads, this`beat, this`trace
      ensures Valid() && trace == old(trace) + [BeatStarts(t)]
      ensures if state.Stable? then beat == Polling(t) && threads == old(threads)
              else beat.Waiting? && threads == old(threads)[t := old(threads[t]).(enabled := false)]
    {
      hide Inv, Took;
      if state != Stable { threads := threads[t := threads[t].(enabled := false)]; }
      else { beat := Polling(t); }
      Log(old(View()), BeatStarts(t));
    }

    /** What follows the poll. */
    method EndBeat(t: nat, round: Beating)
      requires Valid() && t < |threads| && beat == Polling(t)
      modifies this
      ensures Valid() && beat.Waiting? && old(trace) < trace && EndsAs(old(coordinator), round, trace[|trace| - 1])
    {
      hide Inv, Took;
      if round.poll.fails {
        ThreadEnds();
      } else if coordinator.None? || !round.connected || !(round.sessionExpired || round.pollExpired || round.due) {
        WaitForNext();
      } else if round.sessionExpired {
        GiveUpCoordinator();
      } else if round.pollExpired {
        LeaveFromBeat(t, round);
      } else {
        SendHeartbeatRequest(t, Possible(View(), round.attempt));
      }
    }

    method WaitForNext()
      requires Valid() && beat.Polling?
      modifies this`beat, this`trace
      ensures Valid() && beat.Waiting? && trace == old(trace) + [BeatWaits]
    {
      hide Inv, Took;
      beat := Waiting;
      Log(old(View()), BeatWaits);
    }

    method GiveUpCoordinator()
      requires Valid() && beat.Polling?
      modifies this`coordinator, this`beat, this`trace
      ensures Valid() && beat.Waiting? && coordinator.None? && trace == old(trace) + [SessionExpires]
    {
      hide Inv, Took;
      CoordinatorDead();
      beat := Waiting;
      Log(old(View()), SessionExpires);
    }

    method SendHeartbeatRequest(t: nat, a: Attempt)
      requires Valid() && beat == Polling(t) && CanSend(View(), a)
      modifies this`exchanges, this`coordinator, this`beat, this`trace
      ensures Valid() && beat.Waiting? && trace == old(trace) + [SendHeartbeat(a)]
    {
      hide Inv, Took;
      Send(a, Request.Heartbeat(t));
      beat := Waiting;
      Log(old(View()), SendHeartbeat(a));
    }

    /** `maybe_leave_group`, called by the heartbeat thread. */
    method LeaveFromBeat(t: nat, round: Beating)
      requires Valid() && t < |threads| && beat == Polling(t)
      modifies this
      ensures Valid() && beat.Waiting? && old(trace) < trace
      ensures trace[|trace| - 1] == if round.leave.fails then BeatFails else BeatLeft
    {
      hide Inv, Took;
      SendLeaveGroup(t, Possible(View(), round.attempt), round.hasMemberId);
      OthersPoll(round.leave.others);
      if round.leave.fails { ThreadEnds(); } else { ForgetGroup(); }
    }

    /** An exception leaves `_run_once`, and ends the thread. */
    method ThreadEnds()
      requires Valid() && !beat.Waiting? && beat.thread < |threads|
      modifies this`threads, this`beat, this`trace
      ensures Valid() && beat.Waiting? && trace == old(trace) + [BeatFails]
      ensures threads == old(threads)[old(beat).thread := old(threads[beat.thread]).(failed := true, alive := false)]
    {
      hide Inv, Took;
      threads, beat := threads[beat.thread := threads[beat.thread].(failed := true, alive := false)], Waiting;
      Log(old(View()), BeatFails);
    }

    method SendLeaveGroup(t: nat, a: Attempt, hasMemberId: bool)
      requires Valid() && beat == Polling(t) && CanSend(View(), a)
      modifies this`exchanges, this`coordinator, this`beat, this`trace
      ensures Valid() && beat == Leaving(t) && trace == old(trace) + [PollExpires(a, hasMemberId)]
    {
      hide Inv, Took;
      if coordinator.Some? && !state.Unjoined? && hasMemberId { Send(a, LeaveGroup); }
      beat := Leaving(t);
      Log(old(View()), PollExpires(a, hasMemberId));
    }

    method ForgetGroup()
      requires Valid() && beat.Leaving?
      modifies this`rejoinNeeded, this`state, this`beat, this`trace
      ensures Valid() && beat.Waiting? && trace == old(trace) + [BeatLeft]
    {
      hide Inv, Took;
      ResetGeneration();
      beat := Waiting;
      Log(old(View()), BeatLeft);
    }
  }

  /** Whatever the object has been through: when a JoinGroup went out, the state was as GroupSafety promises. */
  lemma JoinGroupsInTraceAreFenced(c: BaseCoordinator, k: nat, id: nat)
    requires c.Valid() && k < |c.trace|
    ensures Run(Start, c.trace[..k]) && Enabled(After(Start, c.trace[..k]), c.trace[k])
    ensures var s, a := After(Start, c.trace[..k]), c.trace[k];
      Sends(s, a, id) && Do(s, a).exchanges[id].request.JoinGroup? ==>
        && (forall x :: x in s.exchanges ==> !s.exchanges[x].request.JoinGroup?)
        && CurrentOff(s)
        && (AllOff(s) <==> NoOrphans(s))
  {
    RunIsPrefixClosed(Start, c.trace, k);
    var s, a := After(Start, c.trace[..k]), c.trace[k];
    if Sends(s, a, id) && Do(s, a).exchanges[id].request.JoinGroup? {
      JoinGroupIsFenced(c.trace[..k], a, id);
    }
    hide Run, After, Do, Enabled;
  }
}
