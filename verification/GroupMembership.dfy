/**
 Group membership (coordinator/base.py): the foreground thread in `join_group`, the heartbeat threads in
 `_run_once`, the requests to the coordinator and their response handlers, as one state machine. A step
 is what one thread does without another being able to observe the middle: a section under the
 coordinator's lock, one response handler, or one access to a field. A heartbeat thread that has failed
 can be dropped by `poll_heartbeat` and live on; every thread ever started is therefore kept.
 */
module GroupMembership {
  import opened Wrappers

  datatype MemberState = Unjoined | Rebalancing | Stable

  datatype Outcome = Pending | Succeeded | Failed

  /** JoinGroup and SyncGroup carry the join future that their response completes. */
  datatype Request = JoinGroup(future: nat) | SyncGroup(future: nat) | Heartbeat(thread: nat) | LeaveGroup | OffsetCommit

  datatype Reply =
    | NoError
    | LoadInProgress
    | UnknownMemberId
    | CoordinatorUnavailable
    | MemberIdRequired
    | RebalanceInProgress
    | IllegalGeneration
    | Fenced
    | Refused
    | RequestFailed(marksDead: bool)

  /** A request sent to `node`: in flight until a reply (or the failure of the connection) is there to be handled. */
  datatype Exchange = Exchange(node: nat, request: Request, reply: Option<Reply>)

  /** `alive`: its loop is still running. */
  datatype Thread = Thread(enabled: bool, failed: bool, alive: bool)

  /** The heartbeat thread inside its locked section, polling or leaving the group; Waiting if there is none. */
  datatype Beat = Waiting | Polling(thread: nat) | Leaving(thread: nat)

  /** Where the foreground thread is. */
  datatype Pc =
    | Outside
    | Loop
    | EnsuringCoordinator
    | Preparing
    | Fencing
    | Draining
    | Counting
    | DrainPolling
    | Initiating
    | Awaiting(future: nat)
    | Judging(future: nat)
    | Clearing
    | Completing
    | LeavingGroup

  /** What the subclass sees: `_on_join_prepare` returning, and `_on_join_complete` called. */
  datatype Event = Prepared | Completed(raised: bool)

  datatype State = State(
    state: MemberState,
    rejoinNeeded: bool,
    rejoining: bool,
    joinFuture: Option<nat>,
    futures: seq<Outcome>,
    coordinator: Option<nat>,
    threads: seq<Thread>,
    current: Option<nat>,
    beat: Beat,
    pc: Pc,
    exchanges: map<nat, Exchange>,
    history: seq<Event>)

  /** How an attempt to send ends: queued on the connection, or failed at once. */
  datatype Attempt = Sent(id: nat) | NotSent(marksDead: bool)

  datatype Step =
    | StartHeartbeatThread
    | PollHeartbeat
    | TestRejoin(needed: bool)
    | CoordinatorReady
    | PrepareReturns
    | DisableHeartbeat
    | TestCoordinator
    | CountInFlight
    | DrainAgain
    | InitiateJoin(attempt: Attempt)
    | Collect
    | Judge
    | ClearRejoin
    | CompleteReturns(raised: bool)
    | Abandon
    | MaybeLeave(attempt: Attempt, hasMemberId: bool)
    | LeaveEnds
    | SendCommit(attempt: Attempt)
    | Receive(id: nat, reply: Reply)
    | Handle(id: nat, sync: Attempt)
    | CoordinatorFound(node: nat)
    | CoordinatorLost
    | RejoinRequested
    | BeatStarts(thread: nat)
    | BeatWaits
    | SessionExpires
    | PollExpires(attempt: Attempt, hasMemberId: bool)
    | BeatLeft
    | SendHeartbeat(attempt: Attempt)
    | BeatFails

  // ---------- effects ----------

  function CoordinatorDead(s: State): State { s.(coordinator := None) }

  function DeadIf(s: State, b: bool): State { if b then CoordinatorDead(s) else s }

  function RequestRejoin(s: State): State { s.(rejoinNeeded := true) }

  function ResetGeneration(s: State): State { s.(rejoinNeeded := true, state := Unjoined) }

  /** `enable` or `disable` on the coordinator's own heartbeat thread, if it has one. */
  function WithCurrent(s: State, enabled: bool): seq<Thread> {
    if s.current.Some? && s.current.value < |s.threads| then
      s.threads[s.current.value := s.threads[s.current.value].(enabled := enabled)]
    else s.threads
  }

  /** Completing a future twice trips an assertion, which the callback machinery logs and drops. */
  function FutureFails(s: State, f: nat): State {
    if f < |s.futures| && s.futures[f] == Pending then s.(futures := s.futures[f := Failed], state := Unjoined) else s
  }

  function FutureSucceeds(s: State, f: nat): State {
    if f < |s.futures| && s.futures[f] == Pending then
      s.(futures := s.futures[f := Succeeded], state := Stable,
         threads := WithCurrent(s, true))
    else s
  }

  predicate CanSend(s: State, a: Attempt) {
    a.Sent? ==> s.coordinator.Some? && a.id !in s.exchanges
  }

  function Send(s: State, a: Attempt, r: Request): State
    requires CanSend(s, a)
  {
    match a
    case Sent(id) => s.(exchanges := s.exchanges[id := Exchange(s.coordinator.value, r, None)])
    case NotSent(dead) => DeadIf(s, dead)
  }

  function InitiateJoinGroup(s: State, a: Attempt): State
    requires CanSend(s, a)
  {
    if s.joinFuture.Some? then s.(pc := Awaiting(s.joinFuture.value))
    else
      var f := |s.futures|;
      var t := Send(s.(state := Rebalancing), a, JoinGroup(f));
      if a.Sent? then t.(futures := t.futures + [Pending], joinFuture := Some(f), pc := Awaiting(f))
      else t.(futures := t.futures + [Failed], joinFuture := Some(f), pc := Awaiting(f), state := Unjoined)
  }

  /** A join that comes back after leaving the group fails the future, and sends SyncGroup all the same. */
  function HandleJoinGroup(s: State, f: nat, reply: Reply, sync: Attempt): State
    requires CanSend(s, sync)
  {
    match reply
    case NoError =>
      var t := if s.state != Rebalancing then FutureFails(s, f) else s;
      var u := Send(t, sync, SyncGroup(f));
      if sync.Sent? then u else FutureFails(u, f)
    case UnknownMemberId => FutureFails(ResetGeneration(s), f)
    case MemberIdRequired => FutureFails(ResetGeneration(s), f)
    case CoordinatorUnavailable => FutureFails(CoordinatorDead(s), f)
    case RequestFailed(dead) => FutureFails(DeadIf(s, dead), f)
    case LoadInProgress => FutureFails(s, f)
    case RebalanceInProgress => FutureFails(s, f)
    case IllegalGeneration => FutureFails(s, f)
    case Fenced => FutureFails(s, f)
    case Refused => FutureFails(s, f)
  }

  function HandleSyncGroup(s: State, f: nat, reply: Reply): State {
    match reply
    case NoError => FutureSucceeds(s, f)
    case RequestFailed(dead) => FutureFails(DeadIf(s, dead), f)
    case UnknownMemberId => FutureFails(ResetGeneration(RequestRejoin(s)), f)
    case IllegalGeneration => FutureFails(ResetGeneration(RequestRejoin(s)), f)
    case CoordinatorUnavailable => FutureFails(CoordinatorDead(RequestRejoin(s)), f)
    case LoadInProgress => FutureFails(RequestRejoin(s), f)
    case MemberIdRequired => FutureFails(RequestRejoin(s), f)
    case RebalanceInProgress => FutureFails(RequestRejoin(s), f)
    case Fenced => FutureFails(RequestRejoin(s), f)
    case Refused => FutureFails(RequestRejoin(s), f)
  }

  /** The errors that heartbeats and commits treat alike. */
  function HandleOther(s: State, reply: Reply): State {
    match reply
    case CoordinatorUnavailable => CoordinatorDead(s)
    case RequestFailed(dead) => DeadIf(s, dead)
    case RebalanceInProgress => RequestRejoin(s)
    case IllegalGeneration => ResetGeneration(s)
    case UnknownMemberId => ResetGeneration(s)
    case _ => s
  }

  /** The thread that sent a heartbeat that is fenced fails and disables itself, and goes on running. */
  function HandleHeartbeat(s: State, t: nat, reply: Reply): State {
    if reply.Fenced? then
      if t < |s.threads| then s.(threads := s.threads[t := s.threads[t].(failed := true, enabled := false)]) else s
    else HandleOther(s, reply)
  }

  function HandleReply(s: State, id: nat, sync: Attempt): State
    requires id in s.exchanges && s.exchanges[id].reply.Some?
    requires CanSend(s, sync)
  {
    var x, t := s.exchanges[id], s.(exchanges := s.exchanges - {id});
    match x.request
    case JoinGroup(f) => HandleJoinGroup(t, f, x.reply.value, sync)
    case SyncGroup(f) => HandleSyncGroup(t, f, x.reply.value)
    case LeaveGroup => t
    case Heartbeat(thread) => HandleHeartbeat(t, thread, x.reply.value)
    case OffsetCommit => HandleOther(t, x.reply.value)
  }

  // ---------- steps ----------

  /** `in_flight_request_count` of the coordinator; of all nodes when there is no coordinator. */
  predicate NothingInFlight(s: State) {
    forall id :: id in s.exchanges && s.exchanges[id].reply.None? ==>
      s.coordinator.Some? && s.exchanges[id].node != s.coordinator.value
  }

  /** The coordinator's lock is free for the foreground thread. */
  predicate LockFree(s: State) { s.beat.Waiting? }

  /** Some thread is inside the client's `poll`, or the foreground thread is in the application's hands. */
  predicate Polls(s: State) {
    || !s.beat.Waiting?
    || s.pc in {Outside, EnsuringCoordinator, Preparing, DrainPolling, Completing, LeavingGroup}
    || s.pc.Awaiting?
  }

  predicate Leaves(s: State, hasMemberId: bool) { s.coordinator.Some? && !s.state.Unjoined? && hasMemberId }

  predicate Enabled(s: State, a: Step) {
    match a
    case StartHeartbeatThread => s.pc.Outside? && LockFree(s)
    case PollHeartbeat => s.pc.Outside? && LockFree(s)
    case TestRejoin(needed) => s.pc.Outside? || s.pc.Loop?
    case CoordinatorReady => s.pc.EnsuringCoordinator? && s.coordinator.Some? && LockFree(s)
    case PrepareReturns => s.pc.Preparing?
    case DisableHeartbeat => s.pc.Fencing? && LockFree(s)
    case TestCoordinator => s.pc.Draining?
    case CountInFlight => s.pc.Counting?
    case DrainAgain => s.pc.DrainPolling?
    case InitiateJoin(attempt) => s.pc.Initiating? && LockFree(s) && CanSend(s, attempt)
    case Collect => s.pc.Awaiting? && s.pc.future < |s.futures| && !s.futures[s.pc.future].Pending? && LockFree(s)
    case Judge => s.pc.Judging? && s.pc.future < |s.futures|
    case ClearRejoin => s.pc.Clearing?
    case CompleteReturns(raised) => s.pc.Completing?
    case Abandon =>
      || s.pc in {EnsuringCoordinator, Preparing, DrainPolling}
      || s.pc.Awaiting?
      || (s.pc.Judging? && s.pc.future < |s.futures| && s.futures[s.pc.future].Failed?)
    case MaybeLeave(attempt, hasMemberId) => s.pc.Outside? && LockFree(s) && CanSend(s, attempt)
    case LeaveEnds => s.pc.LeavingGroup?
    case SendCommit(attempt) => Polls(s) && CanSend(s, attempt)
    case Receive(id, reply) => Polls(s) && id in s.exchanges && s.exchanges[id].reply.None?
    case Handle(id, sync) => Polls(s) && id in s.exchanges && s.exchanges[id].reply.Some? && CanSend(s, sync)
    case CoordinatorFound(node) => Polls(s)
    case CoordinatorLost => true
    case RejoinRequested => true
    case BeatStarts(t) => t < |s.threads| && s.threads[t].enabled && s.threads[t].alive && s.beat.Waiting? && !s.pc.LeavingGroup?
    case BeatWaits => s.beat.Polling?
    case SessionExpires => s.beat.Polling?
    case PollExpires(attempt, hasMemberId) => s.beat.Polling? && CanSend(s, attempt)
    case BeatLeft => s.beat.Leaving?
    case SendHeartbeat(attempt) => s.beat.Polling? && CanSend(s, attempt)
    case BeatFails => !s.beat.Waiting? && s.beat.thread < |s.threads|
  }

  function Do(s: State, a: Step): State
    requires Enabled(s, a)
  {
    match a
    case StartHeartbeatThread =>
      if s.current.None? then s.(threads := s.threads + [Thread(false, false, true)], current := Some(|s.threads|)) else s
    case PollHeartbeat =>
      if s.current.Some? && s.current.value < |s.threads| && s.threads[s.current.value].failed then s.(current := None) else s
    case TestRejoin(needed) => s.(pc := if needed then EnsuringCoordinator else Outside)
    case CoordinatorReady => s.(pc := if s.rejoining then Draining else Preparing)
    case PrepareReturns => s.(rejoining := true, pc := Fencing, history := s.history + [Prepared])
    case DisableHeartbeat => s.(threads := WithCurrent(s, false), pc := Draining)
    case TestCoordinator => s.(pc := if s.coordinator.Some? then Counting else Loop)
    case CountInFlight => s.(pc := if NothingInFlight(s) then Initiating else DrainPolling)
    case DrainAgain => s.(pc := Draining)
    case InitiateJoin(attempt) => InitiateJoinGroup(s, attempt)
    case Collect => s.(joinFuture := None, pc := Judging(s.pc.future))
    case Judge => if s.futures[s.pc.future].Succeeded? then s.(rejoining := false, pc := Clearing) else s.(pc := Loop)
    case ClearRejoin => s.(rejoinNeeded := false, pc := Completing)
    case CompleteReturns(raised) => s.(pc := Outside, history := s.history + [Completed(raised)])
    case Abandon => s.(pc := Outside)
    case MaybeLeave(attempt, hasMemberId) =>
      (if Leaves(s, hasMemberId) then Send(s, attempt, LeaveGroup) else s).(pc := LeavingGroup)
    case LeaveEnds => ResetGeneration(s).(pc := Outside)
    case SendCommit(attempt) => Send(s, attempt, OffsetCommit)
    case Receive(id, reply) => s.(exchanges := s.exchanges[id := s.exchanges[id].(reply := Some(reply))])
    case Handle(id, sync) => HandleReply(s, id, sync)
    case CoordinatorFound(node) => s.(coordinator := Some(node))
    case CoordinatorLost => CoordinatorDead(s)
    case RejoinRequested => RequestRejoin(s)
    case BeatStarts(t) =>
      if s.state.Stable? then s.(beat := Polling(t)) else s.(threads := s.threads[t := s.threads[t].(enabled := false)])
    case BeatWaits => s.(beat := Waiting)
    case SessionExpires => CoordinatorDead(s).(beat := Waiting)
    case PollExpires(attempt, hasMemberId) =>
      (if Leaves(s, hasMemberId) then Send(s, attempt, LeaveGroup) else s).(beat := Leaving(s.beat.thread))
    case BeatLeft => ResetGeneration(s).(beat := Waiting)
    case SendHeartbeat(attempt) => Send(s, attempt, Heartbeat(s.beat.thread)).(beat := Waiting)
    case BeatFails =>
      s.(beat := Waiting, threads := s.threads[s.beat.thread := s.threads[s.beat.thread].(failed := true, alive := false)])
  }

  const Start := State(Unjoined, true, false, None, [], None, [], None, Waiting, Outside, map[], [])

  predicate Run(s: State, steps: seq<Step>)
    decreases |steps|
  {
    steps != [] ==> Enabled(s, steps[0]) && Run(Do(s, steps[0]), steps[1..])
  }

  function After(s: State, steps: seq<Step>): State
    requires Run(s, steps)
    decreases |steps|
  {
    if steps == [] then s else After(Do(s, steps[0]), steps[1..])
  }

  // ---------- the invariant ----------

  /** The coordinator's own heartbeat thread, if there is one, is disabled and not inside its section. */
  predicate CurrentOff(s: State) {
    s.current.Some? && s.current.value < |s.threads| ==>
      !s.threads[s.current.value].enabled && (!s.beat.Waiting? ==> s.beat.thread != s.current.value)
  }

  predicate IsPending(s: State, f: nat) { f < |s.futures| && s.futures[f].Pending? }

  /** An exchange that can still complete its join future. */
  predicate Live(s: State, id: nat) {
    && id in s.exchanges
    && (s.exchanges[id].request.JoinGroup? || s.exchanges[id].request.SyncGroup?)
    && IsPending(s, s.exchanges[id].request.future)
  }

  /** Only the join future is pending, at most one exchange can complete it, and every JoinGroup is one. */
  ghost predicate FuturesInv(s: State) {
    && (forall f: nat :: IsPending(s, f) ==> s.joinFuture == Some(f))
    && (s.joinFuture.Some? ==> s.joinFuture.value < |s.futures|)
    && (forall id :: id in s.exchanges && s.exchanges[id].request.JoinGroup? ==> Live(s, id))
    && (forall id :: id in s.exchanges && s.exchanges[id].request.SyncGroup? ==>
          s.exchanges[id].request.future < |s.futures|)
    && (forall id, id' :: Live(s, id) && Live(s, id') ==> id == id')
  }

  predicate Succeeding(s: State, f: nat) { f < |s.futures| && s.futures[f].Succeeded? }

  /** The join has succeeded and the foreground thread has yet to take note. */
  predicate Joined(s: State) {
    (s.joinFuture.Some? && Succeeding(s, s.joinFuture.value)) || (s.pc.Judging? && Succeeding(s, s.pc.future))
  }

  predicate Joining(s: State) { s.joinFuture.Some? && IsPending(s, s.joinFuture.value) }

  /**
   The inductive core: from the fence to the success of the join the coordinator's own heartbeat thread is off,
   and while a join is pending the group is not STABLE and no heartbeat thread at all is inside its section.
   */
  predicate HeartbeatInv(s: State) {
    && (s.rejoining && s.pc != Fencing && !Joined(s) ==> CurrentOff(s))
    && (Joining(s) ==> s.beat.Waiting? && !s.state.Stable?)
  }

  predicate ThreadsInv(s: State) {
    && (s.current.Some? ==> s.current.value < |s.threads|)
    && (!s.beat.Waiting? ==> s.beat.thread < |s.threads|)
  }

  predicate PcInv(s: State) {
    && (s.joinFuture.Some? ==> s.rejoining)
    && (s.pc in {Preparing, Clearing, Completing} ==> !s.rejoining)
    && (s.pc == Fencing ==> s.rejoining && s.joinFuture.None?)
    && (s.pc in {Draining, Counting, DrainPolling, Initiating} ==> s.rejoining)
    && (s.pc.Awaiting? ==> s.joinFuture == Some(s.pc.future))
    && (s.pc.Judging? ==> s.rejoining && s.joinFuture.None? && s.pc.future < |s.futures|)
  }

  predicate Alternates(h: seq<Event>) { forall i :: 0 <= i < |h| ==> (h[i].Prepared? <==> i % 2 == 0) }

  predicate HistoryInv(s: State) {
    Alternates(s.history) && (|s.history| % 2 == 1 <==> s.rejoining || s.pc in {Clearing, Completing})
  }

  ghost predicate Inv(s: State) { FuturesInv(s) && ThreadsInv(s) && HeartbeatInv(s) && PcInv(s) && HistoryInv(s) }

  // ---------- what each effect keeps ----------

  ghost predicate NoneLive(s: State) { forall id :: !Live(s, id) }

  /** The future may be completed: the exchange that does it is no longer among the exchanges. */
  ghost predicate Releases(s: State, f: nat) { Inv(s) && (IsPending(s, f) ==> NoneLive(s)) }

  lemma SameExchanges(s: State, t: State)
    requires t.exchanges == s.exchanges && t.futures == s.futures
    ensures forall id :: Live(t, id) <==> Live(s, id)
  {
  }

  lemma TakenOut(s: State, id: nat)
    requires Inv(s) && id in s.exchanges
    ensures var t := s.(exchanges := s.exchanges - {id});
      Inv(t) && (Live(s, id) ==> NoneLive(t))
  {
    var t := s.(exchanges := s.exchanges - {id});
    forall x | Live(t, x) ensures Live(s, x) {}
  }

  lemma DeadKeeps(s: State, b: bool)
    requires Inv(s)
    ensures Inv(DeadIf(s, b)) && Inv(CoordinatorDead(s))
    ensures forall f: nat :: Releases(s, f) ==> Releases(DeadIf(s, b), f) && Releases(CoordinatorDead(s), f)
  {
    SameExchanges(s, DeadIf(s, b));
    SameExchanges(s, CoordinatorDead(s));
  }

  lemma RejoinKeeps(s: State)
    requires Inv(s)
    ensures Inv(RequestRejoin(s)) && Inv(ResetGeneration(s))
    ensures forall f: nat :: Releases(s, f) ==> Releases(RequestRejoin(s), f) && Releases(ResetGeneration(s), f)
  {
    SameExchanges(s, RequestRejoin(s));
    SameExchanges(s, ResetGeneration(s));
  }

  lemma FailsKeeps(s: State, f: nat)
    requires Releases(s, f)
    ensures Releases(FutureFails(s, f), f) && Inv(FutureFails(s, f))
  {
    var t := FutureFails(s, f);
    forall x | Live(t, x) ensures Live(s, x) {}
  }

  lemma SucceedsKeeps(s: State, f: nat)
    requires Releases(s, f)
    ensures Inv(FutureSucceeds(s, f))
  {
    var t := FutureSucceeds(s, f);
    assert IsPending(s, f) ==> s.joinFuture == Some(f);
    forall x | Live(t, x) ensures Live(s, x) {}
  }

  lemma SendKeeps(s: State, a: Attempt, r: Request)
    requires Inv(s) && CanSend(s, a)
    requires !r.JoinGroup? && (r.SyncGroup? ==> r.future < |s.futures| && Releases(s, r.future))
    ensures Inv(Send(s, a, r)) && (a.NotSent? && r.SyncGroup? ==> Releases(Send(s, a, r), r.future))
  {
    var t := Send(s, a, r);
    match a
    case Sent(id) =>
      forall x | Live(t, x) ensures x == id || Live(s, x) {}
    case NotSent(dead) => DeadKeeps(s, dead);
  }

  lemma OnlyTheNewJoinIsLive(s: State, a: Attempt)
    requires FuturesInv(s) && s.joinFuture.None? && CanSend(s, a)
    ensures NoneLive(s) && FuturesInv(InitiateJoinGroup(s, a))
  {
    var t := InitiateJoinGroup(s, a);
    assert NoneLive(s);
    forall x | Live(t, x) ensures a.Sent? && x == a.id { assert !Live(s, x); }
    assert forall x, y :: Live(t, x) && Live(t, y) ==> x == y;
  }

  lemma InitiateKeeps(s: State, a: Attempt)
    requires Inv(s) && Enabled(s, InitiateJoin(a))
    ensures Inv(InitiateJoinGroup(s, a))
  {
    hide FuturesInv;
    if s.joinFuture.None? { OnlyTheNewJoinIsLive(s, a); }
    SameExchanges(s, s);
    assert s.joinFuture.Some? ==> FuturesInv(InitiateJoinGroup(s, a)) by { PcKeepsFutures(s, InitiateJoinGroup(s, a).pc); }
  }

  /** Steps that move only the foreground thread, its flag or its callbacks. */
  lemma PcKeepsFutures(s: State, pc: Pc)
    requires FuturesInv(s)
    ensures FuturesInv(s.(pc := pc))
  {
    SameExchanges(s, s.(pc := pc));
  }

  lemma HandleJoinKeeps(s: State, f: nat, reply: Reply, sync: Attempt)
    requires Releases(s, f) && f < |s.futures| && CanSend(s, sync)
    ensures Inv(HandleJoinGroup(s, f, reply, sync))
  {
    RejoinKeeps(s);
    DeadKeeps(s, reply.RequestFailed? && reply.marksDead);
    FailsKeeps(s, f);
    hide Inv, NoneLive, Live, Send, Releases;
    match reply
    case NoError =>
      var t := if s.state != Rebalancing then FutureFails(s, f) else s;
      assert Releases(t, f);
      SendKeeps(t, sync, SyncGroup(f));
      if sync.NotSent? { FailsKeeps(Send(t, sync, SyncGroup(f)), f); }
    case UnknownMemberId => FailsKeeps(ResetGeneration(s), f);
    case MemberIdRequired => FailsKeeps(ResetGeneration(s), f);
    case CoordinatorUnavailable => FailsKeeps(CoordinatorDead(s), f);
    case RequestFailed(dead) => FailsKeeps(DeadIf(s, dead), f);
    case _ =>
  }

  lemma HandleSyncKeeps(s: State, f: nat, reply: Reply)
    requires Releases(s, f)
    ensures Inv(HandleSyncGroup(s, f, reply))
  {
    assert Inv(s);
    hide Inv, Releases, FutureFails, FutureSucceeds, RequestRejoin, ResetGeneration, CoordinatorDead, DeadIf;
    RejoinKeeps(s);
    var r := RequestRejoin(s);
    match reply
    case NoError => SucceedsKeeps(s, f);
    case RequestFailed(dead) => DeadKeeps(s, dead); FailsKeeps(DeadIf(s, dead), f);
    case UnknownMemberId => RejoinKeeps(r); FailsKeeps(ResetGeneration(r), f);
    case IllegalGeneration => RejoinKeeps(r); FailsKeeps(ResetGeneration(r), f);
    case CoordinatorUnavailable => DeadKeeps(r, true); FailsKeeps(CoordinatorDead(r), f);
    case _ => FailsKeeps(r, f);
  }

  lemma Completes(s: State, id: nat)
    requires Inv(s) && id in s.exchanges && (s.exchanges[id].request.JoinGroup? || s.exchanges[id].request.SyncGroup?)
    ensures s.exchanges[id].request.future < |s.futures|
    ensures Releases(s.(exchanges := s.exchanges - {id}), s.exchanges[id].request.future)
  {
    TakenOut(s, id);
    assert s.exchanges[id].request.JoinGroup? ==> Live(s, id);
    assert IsPending(s, s.exchanges[id].request.future) ==> Live(s, id);
  }

  lemma HandleKeeps(s: State, id: nat, sync: Attempt)
    requires Inv(s) && Enabled(s, Handle(id, sync))
    ensures Inv(HandleReply(s, id, sync))
  {
    hide Inv, Releases, HandleJoinGroup, HandleSyncGroup, HandleHeartbeat, HandleOther;
    var x, t := s.exchanges[id], s.(exchanges := s.exchanges - {id});
    TakenOut(s, id);
    match x.request
    case JoinGroup(f) =>
      Completes(s, id);
      HandleJoinKeeps(t, f, x.reply.value, sync);
    case SyncGroup(f) =>
      Completes(s, id);
      HandleSyncKeeps(t, f, x.reply.value);
    case Heartbeat(thread) => HandleHeartbeatKeeps(t, thread, x.reply.value);
    case OffsetCommit => HandleOtherKeeps(t, x.reply.value);
    case LeaveGroup =>
  }

  lemma HandleOtherKeeps(s: State, reply: Reply)
    requires Inv(s)
    ensures Inv(HandleOther(s, reply))
  {
    RejoinKeeps(s);
    DeadKeeps(s, reply.RequestFailed? && reply.marksDead);
    hide Inv;
  }

  lemma HandleHeartbeatKeeps(s: State, t: nat, reply: Reply)
    requires Inv(s)
    ensures Inv(HandleHeartbeat(s, t, reply))
  {
    hide Inv;
    if !reply.Fenced? { HandleOtherKeeps(s, reply); }
    else if t < |s.threads| { OneDisabledKeeps(s, t, true); }
  }

  lemma SameFutures(s: State, t: State)
    requires FuturesInv(s) && t.exchanges == s.exchanges && t.futures == s.futures
    requires t.joinFuture == s.joinFuture || (t.joinFuture.None? && !IsPending(s, s.joinFuture.value))
    ensures FuturesInv(t)
  {
    SameExchanges(s, t);
  }

  /** The steps by which the foreground thread moves on alone. */
  lemma ForegroundKeeps(s: State, a: Step)
    requires Inv(s) && Enabled(s, a)
    requires a.TestRejoin? || a.CoordinatorReady? || a.PrepareReturns? || a.DisableHeartbeat? || a.TestCoordinator?
          || a.CountInFlight? || a.DrainAgain? || a.Collect? || a.Judge? || a.ClearRejoin? || a.CompleteReturns? || a.Abandon?
    ensures Inv(Do(s, a))
  {
    if a.PrepareReturns? || a.DisableHeartbeat? || a.Collect? || a.Judge? || a.ClearRejoin? || a.CompleteReturns? {
      ChangesKeep(s, a);
    } else {
      SameFutures(s, Do(s, a));
      hide FuturesInv, NothingInFlight, Alternates;
    }
  }

  /** Those that change more than where it is. */
  lemma ChangesKeep(s: State, a: Step)
    requires Inv(s) && Enabled(s, a)
    requires a.PrepareReturns? || a.DisableHeartbeat? || a.Collect? || a.Judge? || a.ClearRejoin? || a.CompleteReturns?
    ensures Inv(Do(s, a))
  {
    SameFutures(s, Do(s, a));
    hide FuturesInv, NothingInFlight;
  }

  /** Starting and dropping heartbeat threads. */
  lemma ThreadsKeep(s: State, a: Step)
    requires Inv(s) && Enabled(s, a) && (a.StartHeartbeatThread? || a.PollHeartbeat? || a.BeatFails?)
    ensures Inv(Do(s, a))
  {
    SameFutures(s, Do(s, a));
    hide FuturesInv, Alternates, NothingInFlight;
  }

  lemma OneDisabledKeeps(s: State, t: nat, failed: bool)
    requires Inv(s) && t < |s.threads|
    ensures Inv(s.(threads := s.threads[t := s.threads[t].(enabled := false, failed := failed)]))
  {
    SameFutures(s, s.(threads := s.threads[t := s.threads[t].(enabled := false, failed := failed)]));
    hide FuturesInv, Alternates;
  }

  lemma EntersKeeps(s: State, t: nat)
    requires Inv(s) && s.state.Stable? && s.beat.Waiting? && t < |s.threads| && s.threads[t].enabled
    ensures Inv(s.(beat := Polling(t)))
  {
    SameFutures(s, s.(beat := Polling(t)));
    hide FuturesInv, Alternates;
  }

  /** A heartbeat thread enters its section or finds the group not STABLE. */
  lemma BeatKeeps(s: State, t: nat)
    requires Inv(s) && Enabled(s, BeatStarts(t))
    ensures Inv(Do(s, BeatStarts(t)))
  {
    hide Inv;
    if s.state.Stable? { EntersKeeps(s, t); } else { OneDisabledKeeps(s, t, s.threads[t].failed); }
  }

  lemma NoticeKeeps(s: State, a: Step)
    requires Inv(s) && Enabled(s, a)
    requires a.SessionExpires? || a.BeatLeft? || a.LeaveEnds? || a.CoordinatorFound? || a.CoordinatorLost? || a.RejoinRequested?
    ensures Inv(Do(s, a))
  {
    SameFutures(s, Do(s, a));
    hide FuturesInv, Alternates;
  }

  lemma ReceiveKeeps(s: State, id: nat, reply: Reply)
    requires Inv(s) && Enabled(s, Receive(id, reply))
    ensures Inv(Do(s, Receive(id, reply)))
  {
    var t := Do(s, Receive(id, reply));
    forall x ensures Live(t, x) <==> Live(s, x) {}
  }

  lemma MovesOn(s: State, beat: Beat, pc: Pc)
    requires Inv(s)
    requires beat.Waiting? || (!s.beat.Waiting? && beat.thread == s.beat.thread)
    requires pc == s.pc || (s.pc.Outside? && pc.LeavingGroup?)
    ensures Inv(s.(beat := beat, pc := pc))
  {
    SameFutures(s, s.(beat := beat, pc := pc));
    hide FuturesInv, Alternates;
  }

  lemma SendKeepsPlace(s: State, a: Attempt, r: Request)
    requires CanSend(s, a)
    ensures Send(s, a, r).pc == s.pc && Send(s, a, r).beat == s.beat
  {
  }

  lemma CommitKeeps(s: State, a: Attempt)
    requires Inv(s) && Enabled(s, SendCommit(a))
    ensures Inv(Do(s, SendCommit(a)))
  {
    SendKeeps(s, a, OffsetCommit);
  }

  lemma HeartbeatKeeps(s: State, a: Attempt)
    requires Inv(s) && Enabled(s, SendHeartbeat(a))
    ensures Inv(Do(s, SendHeartbeat(a)))
  {
    var r := Heartbeat(s.beat.thread);
    SendKeeps(s, a, r);
    SendKeepsPlace(s, a, r);
    hide Inv, Send;
    MovesOn(Send(s, a, r), Waiting, s.pc);
  }

  lemma SomethingSent(s: State, a: Attempt, sends: bool)
    requires Inv(s) && CanSend(s, a)
    ensures var t := if sends then Send(s, a, LeaveGroup) else s;
      Inv(t) && t.pc == s.pc && t.beat == s.beat
  {
    SendKeeps(s, a, LeaveGroup);
  }

  lemma LeaveKeeps(s: State, a: Attempt, hasMemberId: bool)
    requires Inv(s) && Enabled(s, MaybeLeave(a, hasMemberId))
    ensures Inv(Do(s, MaybeLeave(a, hasMemberId)))
  {
    SomethingSent(s, a, Leaves(s, hasMemberId));
    hide Inv, Send;
    MovesOn(if Leaves(s, hasMemberId) then Send(s, a, LeaveGroup) else s, s.beat, LeavingGroup);
  }

  lemma PollExpiresKeeps(s: State, a: Attempt, hasMemberId: bool)
    requires Inv(s) && Enabled(s, PollExpires(a, hasMemberId))
    ensures Inv(Do(s, PollExpires(a, hasMemberId)))
  {
    SomethingSent(s, a, Leaves(s, hasMemberId));
    hide Inv, Send;
    MovesOn(if Leaves(s, hasMemberId) then Send(s, a, LeaveGroup) else s, Leaving(s.beat.thread), s.pc);
  }

  lemma StepKeepsInv(s: State, a: Step)
    requires Inv(s) && Enabled(s, a)
    ensures Inv(Do(s, a))
  {
    hide Inv;
    match a
    case InitiateJoin(attempt) => InitiateKeeps(s, attempt);
    case Handle(id, sync) => HandleKeeps(s, id, sync);
    case Receive(id, reply) => ReceiveKeeps(s, id, reply);
    case MaybeLeave(attempt, hasMemberId) => LeaveKeeps(s, attempt, hasMemberId);
    case PollExpires(attempt, hasMemberId) => PollExpiresKeeps(s, attempt, hasMemberId);
    case SendCommit(attempt) => CommitKeeps(s, attempt);
    case SendHeartbeat(attempt) => HeartbeatKeeps(s, attempt);
    case StartHeartbeatThread => ThreadsKeep(s, a);
    case PollHeartbeat => ThreadsKeep(s, a);
    case LeaveEnds => NoticeKeeps(s, a);
    case CoordinatorFound(_) => NoticeKeeps(s, a);
    case CoordinatorLost => NoticeKeeps(s, a);
    case RejoinRequested => NoticeKeeps(s, a);
    case BeatStarts(t) => BeatKeeps(s, t);
    case BeatWaits => MovesOn(s, Waiting, s.pc);
    case SessionExpires => NoticeKeeps(s, a);
    case BeatLeft => NoticeKeeps(s, a);
    case BeatFails => ThreadsKeep(s, a);
    case _ => ForegroundKeeps(s, a);
  }

  lemma {:induction false} RunKeepsInv(s: State, steps: seq<Step>)
    requires Inv(s) && Run(s, steps)
    ensures Inv(After(s, steps))
    decreases |steps|
  {
    hide Inv, Enabled, Do;
    if steps != [] {
      StepKeepsInv(s, steps[0]);
      RunKeepsInv(Do(s, steps[0]), steps[1..]);
    }
  }

  lemma StartInv()
    ensures Inv(Start)
  {
  }

}
