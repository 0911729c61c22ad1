/**
 What the coordinator's answers must cause, by kind of request and answer, whatever handler deals with them
 (coordinator/base.py and coordinator/consumer.py): who asks for a rejoin, who has fallen out of the group, who has lost
 the coordinator, and how a join ends.
 */
module GroupAnswers {
  import opened Wrappers
  import opened GroupMembership
  import opened GroupSafety

  predicate Member(r: Request) { r.Heartbeat? || r.OffsetCommit? }

  /** The answer says that this generation of the group is over, or that the member is not in it. */
  predicate AsksRejoin(r: Request, a: Reply) {
    || (Member(r) && (a.RebalanceInProgress? || a.IllegalGeneration? || a.UnknownMemberId?))
    || (r.JoinGroup? && (a.UnknownMemberId? || a.MemberIdRequired?))
    || (r.SyncGroup? && !a.NoError? && !a.RequestFailed?)
  }

  predicate FallsOut(r: Request, a: Reply) {
    || ((Member(r) || r.SyncGroup?) && (a.IllegalGeneration? || a.UnknownMemberId?))
    || (r.JoinGroup? && (a.UnknownMemberId? || a.MemberIdRequired?))
  }

  predicate LosesCoordinator(r: Request, a: Reply) {
    !r.LeaveGroup? && (a.CoordinatorUnavailable? || (a.RequestFailed? && a.marksDead))
  }

  /** The answer completes the join future of its request, if that still waits. */
  predicate Ends(s: State, r: Request) { (r.JoinGroup? || r.SyncGroup?) && IsPending(s, r.future) }

  predicate Has(s: State, t: Option<nat>) { t.Some? && t.value < |s.threads| }

  /** A join that succeeds enables the coordinator's own thread; a fenced heartbeat ends the beating of the one that sent it. */
  function ThreadsAfter(s: State, r: Request, a: Reply): seq<Thread> {
    if r.SyncGroup? && a.NoError? && Ends(s, r) && Has(s, s.current) then
      s.threads[s.current.value := s.threads[s.current.value].(enabled := true)]
    else if r.Heartbeat? && a.Fenced? && r.thread < |s.threads| then
      s.threads[r.thread := s.threads[r.thread].(enabled := false, failed := true)]
    else s.threads
  }

  /** `t` differs from `s` in just what answer `a` to request `r` causes. */
  predicate Caused(s: State, r: Request, a: Reply, t: State) {
    && (t.rejoinNeeded <==> s.rejoinNeeded || AsksRejoin(r, a))
    && t.coordinator == (if LosesCoordinator(r, a) then None else s.coordinator)
    && t.state == (if FallsOut(r, a) then Unjoined
                   else if Ends(s, r) then (if a.NoError? then Stable else Unjoined)
                   else s.state)
    && t.futures == (if Ends(s, r) then s.futures[r.future := if a.NoError? then Succeeded else Failed] else s.futures)
    && t.threads == ThreadsAfter(s, r, a)
    && t == s.(rejoinNeeded := t.rejoinNeeded, coordinator := t.coordinator, state := t.state, futures := t.futures, threads := t.threads)
  }

  lemma SyncAnswerMeans(s: State, f: nat, a: Reply)
    ensures Caused(s, SyncGroup(f), a, HandleSyncGroup(s, f, a))
  {
  }

  lemma JoinErrorMeans(s: State, f: nat, a: Reply, sync: Attempt)
    requires CanSend(s, sync) && !a.NoError?
    ensures Caused(s, JoinGroup(f), a, HandleJoinGroup(s, f, a, sync))
  {
  }

  lemma HeartbeatAnswerMeans(s: State, t: nat, a: Reply)
    ensures Caused(s, Heartbeat(t), a, HandleHeartbeat(s, t, a))
  {
  }

  lemma CommitAnswerMeans(s: State, a: Reply)
    ensures Caused(s, OffsetCommit, a, HandleOther(s, a))
  {
  }

  function Over(s: State, id: nat): State { s.(exchanges := s.exchanges - {id}) }

  /** Every answer but that of a JoinGroup that is granted: the exchange is over, and the answer has its effect. */
  lemma AnswerMeans(s: State, id: nat, sync: Attempt)
    requires Enabled(s, Handle(id, sync))
    requires !(s.exchanges[id].request.JoinGroup? && s.exchanges[id].reply == Some(NoError))
    ensures Caused(Over(s, id), s.exchanges[id].request, s.exchanges[id].reply.value, Do(s, Handle(id, sync)))
  {
    var r, a, u := s.exchanges[id].request, s.exchanges[id].reply.value, Over(s, id);
    assert CanSend(u, sync);
    hide HandleJoinGroup, HandleSyncGroup, HandleHeartbeat, HandleOther, Caused;
    match r
    case JoinGroup(f) => JoinErrorMeans(u, f, a, sync);
    case SyncGroup(f) => SyncAnswerMeans(u, f, a);
    case Heartbeat(t) => HeartbeatAnswerMeans(u, t, a);
    case OffsetCommit => CommitAnswerMeans(u, a);
    case LeaveGroup => assert Caused(u, LeaveGroup, a, u) by { NothingCaused(u, a); }
  }

  lemma NothingCaused(s: State, a: Reply)
    ensures Caused(s, LeaveGroup, a, s)
  {
  }

  /**
   A JoinGroup that is granted leads to a SyncGroup for the same future, whether the member still wants to join or not;
   the future fails if it does not, or if the SyncGroup cannot be sent.
   */
  lemma GrantedJoinMeans(s: State, id: nat, sync: Attempt)
    requires Enabled(s, Handle(id, sync)) && s.exchanges[id].request.JoinGroup? && s.exchanges[id].reply == Some(NoError)
    ensures Granted(Over(s, id), s.exchanges[id].request.future, sync, Do(s, Handle(id, sync)))
  {
    var f, u := s.exchanges[id].request.future, Over(s, id);
    assert CanSend(u, sync);
    assert Do(s, Handle(id, sync)) == HandleJoinGroup(u, f, NoError, sync);
    GrantMeans(u, f, sync);
    hide HandleJoinGroup, Granted;
  }

  predicate Granted(s: State, f: nat, sync: Attempt, t: State)
    requires CanSend(s, sync)
  {
    var fails := IsPending(s, f) && (!s.state.Rebalancing? || sync.NotSent?);
    && t.exchanges == (if sync.Sent? then s.exchanges[sync.id := Exchange(s.coordinator.value, SyncGroup(f), None)] else s.exchanges)
    && t.coordinator == (if sync.NotSent? && sync.marksDead then None else s.coordinator)
    && t.state == (if fails then Unjoined else s.state)
    && t.futures == (if fails then s.futures[f := Failed] else s.futures)
    && t == s.(exchanges := t.exchanges, coordinator := t.coordinator, state := t.state, futures := t.futures)
  }

  lemma GrantMeans(s: State, f: nat, sync: Attempt)
    requires CanSend(s, sync)
    ensures Granted(s, f, sync, HandleJoinGroup(s, f, NoError, sync))
  {
  }

  // ---------- what is sent, and what happens without an answer ----------

  /** `t` differs from `s` in just that the request is on its way to the coordinator, or that the coordinator is lost in trying. */
  predicate Tried(s: State, a: Attempt, r: Request, t: State) {
    if a.Sent? then s.coordinator.Some? && t == s.(exchanges := s.exchanges[a.id := Exchange(s.coordinator.value, r, None)])
    else t == s.(coordinator := if a.marksDead then None else s.coordinator)
  }

  /** A member that is in the group, and has an id, says that it leaves; any other leaves in silence. */
  predicate SaysGoodbye(s: State, hasMemberId: bool) { s.coordinator.Some? && s.state != Unjoined && hasMemberId }

  predicate Outside(s: State, t: State) {
    && t.state == Unjoined
    && t.rejoinNeeded
    && t == s.(state := Unjoined, rejoinNeeded := true, pc := t.pc, beat := t.beat)
  }

  /** A rebalance that is under way is come back to; otherwise a JoinGroup is tried, with a future of its own. */
  lemma JoinStarts(s: State, a: Attempt)
    requires Enabled(s, InitiateJoin(a))
    ensures var t, f := Do(s, InitiateJoin(a)), |s.futures|;
      if s.joinFuture.Some? then t == s.(pc := Awaiting(s.joinFuture.value))
      else Tried(s.(state := if a.Sent? then Rebalancing else Unjoined, futures := s.futures + [if a.Sent? then Pending else Failed],
                    joinFuture := Some(f), pc := Awaiting(f)), a, JoinGroup(f), t)
  {
  }

  /** Leaving, in the foreground or because a heartbeat thread finds that the application has not polled. */
  lemma LeavingMeans(s: State, a: Attempt, hasMemberId: bool)
    requires CanSend(s, a)
    ensures Enabled(s, MaybeLeave(a, hasMemberId)) ==>
      var t := Do(s, MaybeLeave(a, hasMemberId)); var u := s.(pc := LeavingGroup);
      if SaysGoodbye(s, hasMemberId) then Tried(u, a, LeaveGroup, t) else t == u
    ensures Enabled(s, PollExpires(a, hasMemberId)) ==>
      var t := Do(s, PollExpires(a, hasMemberId)); var u := s.(beat := Leaving(s.beat.thread));
      if SaysGoodbye(s, hasMemberId) then Tried(u, a, LeaveGroup, t) else t == u
  {
  }

  /** Who has left is UNJOINED, and wants to join again. */
  lemma HavingLeftMeans(s: State)
    ensures Enabled(s, LeaveEnds) ==> Outside(s, Do(s, LeaveEnds)) && Do(s, LeaveEnds).pc.Outside? && Do(s, LeaveEnds).beat == s.beat
    ensures Enabled(s, BeatLeft) ==> Outside(s, Do(s, BeatLeft)) && Do(s, BeatLeft).beat.Waiting? && Do(s, BeatLeft).pc == s.pc
  {
  }

  predicate Off(t: Thread, u: Thread) { u == t.(enabled := false) }

  /** One round of a heartbeat thread: it starts only if enabled, and switches itself off unless the group is STABLE. */
  lemma BeatStartsMean(s: State, t: nat)
    requires Enabled(s, BeatStarts(t))
    ensures s.threads[t].enabled && s.threads[t].alive
    ensures var u := Do(s, BeatStarts(t));
      if s.state == Stable then u == s.(beat := Polling(t))
      else |u.threads| == |s.threads| && Off(s.threads[t], u.threads[t]) && u == s.(threads := s.threads[t := u.threads[t]])
  {
  }

  /** It may end with a heartbeat that is tried. */
  lemma HeartbeatIsTried(s: State, a: Attempt)
    requires Enabled(s, SendHeartbeat(a))
    ensures Tried(s.(beat := Waiting), a, Heartbeat(s.beat.thread), Do(s, SendHeartbeat(a)))
  {
  }

  /** Or without one, with the coordinator given up, or with the end of the thread. */
  lemma BeatEndsMean(s: State)
    ensures Enabled(s, BeatWaits) ==> Do(s, BeatWaits) == s.(beat := Waiting)
    ensures Enabled(s, SessionExpires) ==> Do(s, SessionExpires) == s.(beat := Waiting, coordinator := None)
    ensures Enabled(s, BeatFails) ==>
      var u := Do(s, BeatFails);
      u == s.(beat := Waiting, threads := s.threads[s.beat.thread := Thread(s.threads[s.beat.thread].enabled, true, false)])
  {
  }

  /** Threads are started switched off, and only if there is none; one that has failed is let go of; joining switches the own one off. */
  lemma ThreadsMean(s: State)
    ensures Enabled(s, StartHeartbeatThread) ==>
      Do(s, StartHeartbeatThread) ==
        if s.current.Some? then s else s.(threads := s.threads + [Thread(false, false, true)], current := Some(|s.threads|))
    ensures Enabled(s, PollHeartbeat) ==>
      Do(s, PollHeartbeat) == if Has(s, s.current) && s.threads[s.current.value].failed then s.(current := None) else s
    ensures Enabled(s, DisableHeartbeat) ==>
      var u := Do(s, DisableHeartbeat);
      u == s.(pc := Draining, threads := if Has(s, s.current)
                                         then s.threads[s.current.value := s.threads[s.current.value].(enabled := false)] else s.threads)
  {
  }

  /** The coordinator that is found is used, one that is lost is not, and a change of the subscription asks for a rejoin. */
  lemma NewsMeans(s: State, node: nat, a: Attempt)
    ensures Enabled(s, CoordinatorFound(node)) ==> Do(s, CoordinatorFound(node)) == s.(coordinator := Some(node))
    ensures Do(s, CoordinatorLost) == s.(coordinator := None) && Do(s, RejoinRequested) == s.(rejoinNeeded := true)
    ensures Enabled(s, SendCommit(a)) ==> Tried(s, a, OffsetCommit, Do(s, SendCommit(a)))
  {
  }

  // ---------- over runs ----------

  lemma FlagStays(s: State, a: Step)
    requires Enabled(s, a) && !a.ClearRejoin? && s.rejoinNeeded
    ensures Do(s, a).rejoinNeeded
  {
    hide NothingInFlight, HandleReply;
    if a.Handle? {
      if s.exchanges[a.id].request.JoinGroup? && s.exchanges[a.id].reply == Some(NoError) { GrantedJoinMeans(s, a.id, a.sync); }
      else { AnswerMeans(s, a.id, a.sync); }
    }
  }

  lemma {:induction false} FlagStaysInRuns(s: State, steps: seq<Step>)
    requires Run(s, steps) && s.rejoinNeeded && forall i :: 0 <= i < |steps| ==> !steps[i].ClearRejoin?
    ensures After(s, steps).rejoinNeeded
    decreases |steps|
  {
    hide Enabled, Do;
    if steps != [] {
      assert !steps[0].ClearRejoin?;
      FlagStays(s, steps[0]);
      FlagStaysInRuns(Do(s, steps[0]), steps[1..]);
    }
  }

  /**
   In any run: once an answer that asks for a rejoin has been handled, a rejoin is asked for until the flag is cleared;
   if it says that the member is not in the group, the member is UNJOINED; and if it says that the coordinator is not one,
   no coordinator is known.
   */
  lemma AnswersTakeEffect(steps: seq<Step>, id: nat, sync: Attempt, more: seq<Step>)
    requires Run(Start, steps) && Enabled(After(Start, steps), Handle(id, sync))
    requires Run(Do(After(Start, steps), Handle(id, sync)), more) && forall i :: 0 <= i < |more| ==> !more[i].ClearRejoin?
    ensures var s, t := After(Start, steps), Do(After(Start, steps), Handle(id, sync));
      var r, a := s.exchanges[id].request, s.exchanges[id].reply.value;
      && (AsksRejoin(r, a) ==> After(t, more).rejoinNeeded)
      && (FallsOut(r, a) ==> t.state.Unjoined?)
      && (LosesCoordinator(r, a) ==> t.coordinator.None?)
      && (t.rejoinNeeded && !s.rejoinNeeded ==> AsksRejoin(r, a))
  {
    var s, t := After(Start, steps), Do(After(Start, steps), Handle(id, sync));
    if s.exchanges[id].request.JoinGroup? && s.exchanges[id].reply == Some(NoError) { GrantedJoinMeans(s, id, sync); }
    else { AnswerMeans(s, id, sync); }
    hide Enabled, Do, Run, After;
    if t.rejoinNeeded { FlagStaysInRuns(t, more); }
  }
}
