/**
 What every run of the group membership protocol keeps: when a JoinGroup and a heartbeat are sent, the order of the
 subclass's callbacks, and that a join future completes once.
 */
module GroupSafety {
  import opened Wrappers
  import opened GroupMembership

  // ---------- what is sent ----------
  /** A step that puts a request of the given kind on the wire. */
  predicate Sends(s: State, a: Step, id: nat)
    requires Enabled(s, a)
  {
    id !in s.exchanges && id in Do(s, a).exchanges
  }

  /** A heartbeat thread that the coordinator has dropped and that goes on heartbeating. */
  predicate Orphan(s: State, t: nat) {
    t < |s.threads| && s.current != Some(t) && s.threads[t].enabled && s.threads[t].alive
  }

  ghost predicate NoOrphans(s: State) { forall t: nat :: !Orphan(s, t) }

  /** Every heartbeat thread that runs is disabled, and outside its section. */
  ghost predicate AllOff(s: State) {
    s.beat.Waiting? && forall t: nat :: t < |s.threads| && s.threads[t].alive ==> !s.threads[t].enabled
  }

  /** `poll_heartbeat` drops a thread that has failed while it is enabled and running. */
  predicate Drops(s: State, a: Step) {
    && a.PollHeartbeat? && s.current.Some? && s.current.value < |s.threads|
    && s.threads[s.current.value].failed && s.threads[s.current.value].enabled && s.threads[s.current.value].alive
  }

  predicate NeverDrops(s: State, steps: seq<Step>)
    requires Run(s, steps)
    decreases |steps|
  {
    steps != [] ==> !Drops(s, steps[0]) && NeverDrops(Do(s, steps[0]), steps[1..])
  }

  /**
   In every run, whenever a JoinGroup is sent: no JoinGroup sent before is in flight, or answered and waiting for
   its handler, at any node; every earlier join future is complete; the coordinator's own heartbeat thread is
   off. All heartbeat threads are off if and only if there is no orphan; and if no running thread has ever been
   dropped, there is none, and nothing is in flight to the coordinator.
   */
  lemma JoinGroupIsFenced(steps: seq<Step>, a: Step, id: nat)
    requires Run(Start, steps) && Enabled(After(Start, steps), a) && Sends(After(Start, steps), a, id)
    requires Do(After(Start, steps), a).exchanges[id].request.JoinGroup?
    ensures var s := After(Start, steps);
      && (forall x :: x in s.exchanges ==> !s.exchanges[x].request.JoinGroup?)
      && (forall f :: 0 <= f < |s.futures| ==> !s.futures[f].Pending?)
      && CurrentOff(s)
      && (AllOff(s) <==> NoOrphans(s))
      && (NeverDrops(Start, steps) ==>
           AllOff(s) && forall x :: x in s.exchanges && s.exchanges[x].reply.None? ==>
             s.exchanges[x].node != Do(s, a).exchanges[id].node)
  {
    StartInv();
    RunKeepsInv(Start, steps);
    if NeverDrops(Start, steps) { RunKeepsAlone(Start, steps); }
    JoinStepIsFenced(After(Start, steps), a, id);
  }

  lemma JoinStepIsFenced(s: State, a: Step, id: nat)
    requires Inv(s) && Enabled(s, a) && Sends(s, a, id) && Do(s, a).exchanges[id].request.JoinGroup?
    ensures forall x :: x in s.exchanges ==> !s.exchanges[x].request.JoinGroup?
    ensures forall f :: 0 <= f < |s.futures| ==> !s.futures[f].Pending?
    ensures CurrentOff(s) && (AllOff(s) <==> NoOrphans(s))
    ensures Alone(s) ==> NoOrphans(s) && forall x :: x in s.exchanges && s.exchanges[x].reply.None? ==>
              s.exchanges[x].node != Do(s, a).exchanges[id].node
  {
    SenderOf(s, a, id);
    hide HandleReply, Alternates;
    forall f: nat | f < |s.futures| ensures !s.futures[f].Pending? { assert !IsPending(s, f); }
    forall x | x in s.exchanges ensures !s.exchanges[x].request.JoinGroup? { assert !Live(s, x); }
    if NoOrphans(s) {
      forall t: nat | t < |s.threads| && s.threads[t].alive ensures !s.threads[t].enabled { assert !Orphan(s, t); }
    }
  }

  // ---------- as long as no running thread is dropped ----------

  /** Nothing reaches the coordinator between the drained check and the sending. */
  predicate Drained(s: State) {
    s.pc == Initiating && s.joinFuture.None? && s.coordinator.Some? ==> NothingInFlight(s)
  }

  ghost predicate Alone(s: State) {
    && NoOrphans(s) && Drained(s)
    && (!s.beat.Waiting? ==> s.current == Some(s.beat.thread))
  }

  /** While the foreground thread is about to send, with no orphan about, no thread polls. */
  lemma NobodyPolls(s: State)
    requires Inv(s) && Alone(s) && s.pc == Initiating && s.joinFuture.None?
    ensures !Polls(s)
  {
  }

  /** A handler enables no thread but the coordinator's own, brings none back to life, and moves nobody; it calls no callback. */
  predicate Tame(s: State, t: State) {
    && |s.threads| == |t.threads|
    && (forall i :: 0 <= i < |s.threads| ==>
          && (t.threads[i].alive ==> s.threads[i].alive)
          && (t.threads[i].enabled ==> s.threads[i].enabled || s.current == Some(i)))
    && t.current == s.current && t.beat == s.beat && t.pc == s.pc && t.joinFuture == s.joinFuture
    && t.rejoining == s.rejoining && t.history == s.history && |t.futures| == |s.futures|
  }

  lemma TameTwice(s: State, t: State, u: State)
    requires Tame(s, t) && Tame(t, u)
    ensures Tame(s, u)
  {
  }

  lemma EffectsAreTame(s: State, f: nat, b: bool)
    ensures Tame(s, FutureFails(s, f)) && Tame(s, FutureSucceeds(s, f))
    ensures Tame(s, CoordinatorDead(s)) && Tame(s, DeadIf(s, b)) && Tame(s, RequestRejoin(s)) && Tame(s, ResetGeneration(s))
  {
  }

  lemma FailsTame(s: State, t: State, f: nat)
    requires Tame(s, t)
    ensures Tame(s, FutureFails(t, f))
  {
    EffectsAreTame(t, f, false);
    hide Tame, FutureFails;
    TameTwice(s, t, FutureFails(t, f));
  }

  lemma SendIsTame(s: State, t: State, a: Attempt, r: Request)
    requires Tame(s, t) && CanSend(t, a)
    ensures Tame(s, Send(t, a, r))
  {
  }

  lemma JoinHandlerIsTame(s: State, f: nat, reply: Reply, sync: Attempt)
    requires CanSend(s, sync)
    ensures Tame(s, HandleJoinGroup(s, f, reply, sync))
  {
    hide Tame, FutureFails, Send;
    var dead := reply.RequestFailed? && reply.marksDead;
    EffectsAreTame(s, f, dead);
    FailsTame(s, ResetGeneration(s), f);
    FailsTame(s, CoordinatorDead(s), f);
    FailsTame(s, DeadIf(s, dead), f);
    if reply.NoError? {
      var t := if s.state != Rebalancing then FutureFails(s, f) else s;
      ItselfIsTame(s);
      StillCanSend(s, f, sync);
      SendIsTame(s, t, sync, SyncGroup(f));
      FailsTame(s, Send(t, sync, SyncGroup(f)), f);
    }
  }

  lemma ItselfIsTame(s: State)
    ensures Tame(s, s)
  {
  }

  lemma StillCanSend(s: State, f: nat, a: Attempt)
    requires CanSend(s, a)
    ensures CanSend(FutureFails(s, f), a)
  {
  }

  lemma SyncHandlerIsTame(s: State, f: nat, reply: Reply)
    ensures Tame(s, HandleSyncGroup(s, f, reply))
  {
    hide Tame, FutureFails, FutureSucceeds;
    var dead := reply.RequestFailed? && reply.marksDead;
    EffectsAreTame(s, f, dead);
    EffectsAreTame(RequestRejoin(s), f, dead);
    TameTwice(s, RequestRejoin(s), ResetGeneration(RequestRejoin(s)));
    TameTwice(s, RequestRejoin(s), CoordinatorDead(RequestRejoin(s)));
    FailsTame(s, DeadIf(s, dead), f);
    FailsTame(s, RequestRejoin(s), f);
    FailsTame(s, ResetGeneration(RequestRejoin(s)), f);
    FailsTame(s, CoordinatorDead(RequestRejoin(s)), f);
  }

  lemma OtherHandlersAreTame(s: State, t: nat, reply: Reply)
    ensures Tame(s, HandleHeartbeat(s, t, reply)) && Tame(s, HandleOther(s, reply))
  {
  }

  lemma HandlerIsTame(s: State, id: nat, sync: Attempt)
    requires Enabled(s, Handle(id, sync))
    ensures Tame(s, HandleReply(s, id, sync))
  {
    hide HandleJoinGroup, HandleSyncGroup, HandleHeartbeat, HandleOther;
    var x, t := s.exchanges[id], s.(exchanges := s.exchanges - {id});
    ItselfIsTame(s);
    assert CanSend(t, sync);
    match x.request
    case JoinGroup(f) => JoinHandlerIsTame(t, f, x.reply.value, sync);
    case SyncGroup(f) => SyncHandlerIsTame(t, f, x.reply.value);
    case Heartbeat(h) => OtherHandlersAreTame(t, h, x.reply.value);
    case OffsetCommit => OtherHandlersAreTame(t, 0, x.reply.value);
    case LeaveGroup =>
  }

  lemma TameKeepsAlone(s: State, t: State)
    requires Alone(s) && Tame(s, t) && (s.pc == Initiating && s.joinFuture.None? ==> Drained(t))
    ensures Alone(t)
  {
    forall i: nat ensures !Orphan(t, i) { assert !Orphan(s, i); }
  }

  lemma HandleKeepsAlone(s: State, id: nat, sync: Attempt)
    requires Inv(s) && Alone(s) && Enabled(s, Handle(id, sync))
    ensures Alone(HandleReply(s, id, sync))
  {
    if s.pc == Initiating && s.joinFuture.None? { NobodyPolls(s); }
    HandlerIsTame(s, id, sync);
    hide HandleReply, Inv;
    TameKeepsAlone(s, HandleReply(s, id, sync));
  }

  /** Sending while the foreground thread is not about to send. */
  lemma SendKeepsAlone(s: State, a: Attempt, r: Request, beat: Beat, pc: Pc)
    requires Alone(s) && CanSend(s, a) && pc != Initiating
    requires beat.Waiting? || (!s.beat.Waiting? && beat.thread == s.beat.thread)
    ensures Alone(Send(s, a, r).(beat := beat, pc := pc)) && Alone(s.(beat := beat, pc := pc))
  {
    var t, u := Send(s, a, r).(beat := beat, pc := pc), s.(beat := beat, pc := pc);
    forall i: nat ensures !Orphan(t, i) && !Orphan(u, i) { assert !Orphan(s, i); }
  }

  lemma SendingKeepsAlone(s: State, a: Step)
    requires Inv(s) && Alone(s) && Enabled(s, a)
    requires a.SendCommit? || a.SendHeartbeat? || a.MaybeLeave? || a.PollExpires?
    ensures Alone(Do(s, a))
  {
    if s.pc == Initiating {
      if s.joinFuture.None? { NobodyPolls(s); }
      hide Inv;
      InitiatingSendsLater(s, a);
    } else {
      hide Inv, Alone, Send;
      match a
      case SendCommit(t) => SendKeepsPlace(s, t, OffsetCommit); SendKeepsAlone(s, t, OffsetCommit, s.beat, s.pc);
      case SendHeartbeat(t) => SendKeepsAlone(s, t, Heartbeat(s.beat.thread), Waiting, s.pc); SendKeepsPlace(s, t, Heartbeat(s.beat.thread));
      case MaybeLeave(t, _) => SendKeepsAlone(s, t, LeaveGroup, s.beat, LeavingGroup); SendKeepsPlace(s, t, LeaveGroup);
      case PollExpires(t, _) => SendKeepsAlone(s, t, LeaveGroup, Leaving(s.beat.thread), s.pc); SendKeepsPlace(s, t, LeaveGroup);
      case _ =>
    }
  }

  /** With a join future to come back to, it does not matter what is in flight. */
  lemma InitiatingSendsLater(s: State, a: Step)
    requires Alone(s) && Enabled(s, a) && s.pc == Initiating && (s.joinFuture.None? ==> !Polls(s))
    requires a.SendCommit? || a.SendHeartbeat? || a.MaybeLeave? || a.PollExpires?
    ensures Alone(Do(s, a))
  {
    var t := Do(s, a);
    assert s.joinFuture.Some? && t.joinFuture == s.joinFuture && t.threads == s.threads && t.current == s.current;
    forall i: nat ensures !Orphan(t, i) { assert !Orphan(s, i); }
    hide NothingInFlight;
  }

  lemma ThreadsKeepAlone(s: State, a: Step)
    requires Inv(s) && Alone(s) && Enabled(s, a) && !Drops(s, a)
    requires a.StartHeartbeatThread? || a.PollHeartbeat? || a.BeatFails? || a.DisableHeartbeat?
    ensures Alone(Do(s, a))
  {
    forall i: nat ensures !Orphan(Do(s, a), i) { assert !Orphan(s, i); }
    hide FuturesInv, Alternates, NothingInFlight, HeartbeatInv, HistoryInv;
  }

  lemma BeatKeepsAlone(s: State, a: Step)
    requires Alone(s) && Enabled(s, a) && (a.BeatStarts? || a.BeatWaits?)
    ensures Alone(Do(s, a))
  {
    hide NothingInFlight;
    if a.BeatStarts? {
      assert !Orphan(s, a.thread);
      if s.state.Stable? { OneBeatsAlone(s, Polling(a.thread)); } else { OneLessAlone(s, a.thread); }
    } else {
      OneBeatsAlone(s, Waiting);
    }
  }

  lemma OneBeatsAlone(s: State, beat: Beat)
    requires Alone(s) && (beat.Waiting? || s.current == Some(beat.thread))
    ensures Alone(s.(beat := beat))
  {
    forall i: nat ensures !Orphan(s.(beat := beat), i) { assert !Orphan(s, i); }
    hide NothingInFlight;
  }

  lemma OneLessAlone(s: State, t: nat)
    requires Alone(s) && t < |s.threads|
    ensures Alone(s.(threads := s.threads[t := s.threads[t].(enabled := false)]))
  {
    var u := s.(threads := s.threads[t := s.threads[t].(enabled := false)]);
    forall i: nat ensures !Orphan(u, i) { assert !Orphan(s, i); }
    hide NothingInFlight;
  }

  lemma OthersKeepAlone(s: State, a: Step)
    requires Inv(s) && Alone(s) && Enabled(s, a)
    requires !(a.SendCommit? || a.SendHeartbeat? || a.MaybeLeave? || a.PollExpires? || a.Handle? || a.InitiateJoin?)
    requires !(a.StartHeartbeatThread? || a.PollHeartbeat? || a.BeatStarts? || a.BeatWaits? || a.BeatFails? || a.DisableHeartbeat?)
    ensures Alone(Do(s, a))
  {
    if s.pc == Initiating && s.joinFuture.None? { NobodyPolls(s); }
    forall i: nat ensures !Orphan(Do(s, a), i) { assert !Orphan(s, i); }
    hide FuturesInv, Alternates;
  }

  lemma InitiateKeepsAlone(s: State, attempt: Attempt)
    requires Inv(s) && Alone(s) && Enabled(s, InitiateJoin(attempt))
    ensures Alone(Do(s, InitiateJoin(attempt)))
  {
    forall i: nat ensures !Orphan(Do(s, InitiateJoin(attempt)), i) { assert !Orphan(s, i); }
    hide FuturesInv, Alternates, NothingInFlight;
  }

  lemma StepKeepsAlone(s: State, a: Step)
    requires Inv(s) && Alone(s) && Enabled(s, a) && !Drops(s, a)
    ensures Alone(Do(s, a))
  {
    hide Inv, Alone, HandleReply;
    if a.Handle? { HandleKeepsAlone(s, a.id, a.sync); }
    else if a.InitiateJoin? { InitiateKeepsAlone(s, a.attempt); }
    else if a.SendCommit? || a.SendHeartbeat? || a.MaybeLeave? || a.PollExpires? { SendingKeepsAlone(s, a); }
    else if a.BeatStarts? || a.BeatWaits? { BeatKeepsAlone(s, a); }
    else if a.StartHeartbeatThread? || a.PollHeartbeat? || a.BeatFails? || a.DisableHeartbeat? { ThreadsKeepAlone(s, a); }
    else { OthersKeepAlone(s, a); }
  }

  lemma {:induction false} RunKeepsAlone(s: State, steps: seq<Step>)
    requires Inv(s) && Alone(s) && Run(s, steps) && NeverDrops(s, steps)
    ensures Alone(After(s, steps))
    decreases |steps|
  {
    hide Inv, Alone, Enabled, Do, Drops;
    if steps != [] {
      StepKeepsInv(s, steps[0]);
      StepKeepsAlone(s, steps[0]);
      RunKeepsAlone(Do(s, steps[0]), steps[1..]);
    }
  }

  // ---------- who sends ----------

  lemma FutureEffectsSendNothing(s: State, f: nat)
    ensures FutureFails(s, f).exchanges == s.exchanges && FutureSucceeds(s, f).exchanges == s.exchanges
  {
  }

  lemma JoinHandlerSendsSync(s: State, f: nat, reply: Reply, sync: Attempt, x: nat)
    requires CanSend(s, sync) && x in HandleJoinGroup(s, f, reply, sync).exchanges
    ensures x in s.exchanges || HandleJoinGroup(s, f, reply, sync).exchanges[x].request == SyncGroup(f)
  {
    FutureEffectsSendNothing(s, f);
    FutureEffectsSendNothing(ResetGeneration(s), f);
    FutureEffectsSendNothing(CoordinatorDead(s), f);
    FutureEffectsSendNothing(DeadIf(s, reply.RequestFailed? && reply.marksDead), f);
    var t := if s.state != Rebalancing then FutureFails(s, f) else s;
    assert CanSend(t, sync);
    FutureEffectsSendNothing(Send(t, sync, SyncGroup(f)), f);
    hide FutureFails;
  }

  lemma SyncHandlerSendsNothing(s: State, f: nat, reply: Reply)
    ensures HandleSyncGroup(s, f, reply).exchanges == s.exchanges
  {
  }

  lemma HandlerSendsSync(s: State, id: nat, sync: Attempt, x: nat)
    requires id in s.exchanges && s.exchanges[id].reply.Some? && CanSend(s, sync)
    requires x !in s.exchanges && x in HandleReply(s, id, sync).exchanges
    ensures HandleReply(s, id, sync).exchanges[x].request.SyncGroup?
  {
    var e, t := s.exchanges[id], s.(exchanges := s.exchanges - {id});
    hide HandleJoinGroup, HandleSyncGroup;
    match e.request
    case JoinGroup(f) => JoinHandlerSendsSync(t, f, e.reply.value, sync, x);
    case SyncGroup(f) => SyncHandlerSendsNothing(t, f, e.reply.value);
    case _ =>
  }

  /** Who sends what. */
  lemma SenderOf(s: State, a: Step, id: nat)
    requires Enabled(s, a) && Sends(s, a, id)
    ensures var r := Do(s, a).exchanges[id].request;
      && (r.JoinGroup? ==> a == InitiateJoin(Sent(id)) && s.joinFuture.None? && s.pc.Initiating? &&
                           Do(s, a).exchanges[id].node == s.coordinator.value)
      && (r.Heartbeat? ==> a.SendHeartbeat? && s.beat.Polling?)
  {
    hide NothingInFlight, HandleReply;
    if a.Handle? { HandlerSendsSync(s, a.id, a.sync, id); }
  }

  /** In every run, a heartbeat is sent only when no join is under way. */
  lemma HeartbeatAvoidsJoin(steps: seq<Step>, a: Step, id: nat)
    requires Run(Start, steps) && Enabled(After(Start, steps), a) && Sends(After(Start, steps), a, id)
    requires Do(After(Start, steps), a).exchanges[id].request.Heartbeat?
    ensures var s := After(Start, steps);
      && (forall f :: 0 <= f < |s.futures| ==> !s.futures[f].Pending?)
      && (forall x :: x in s.exchanges ==> !s.exchanges[x].request.JoinGroup?)
  {
    StartInv();
    RunKeepsInv(Start, steps);
    HeartbeatStepAvoidsJoin(After(Start, steps), a, id);
  }

  lemma HeartbeatStepAvoidsJoin(s: State, a: Step, id: nat)
    requires Inv(s) && Enabled(s, a) && Sends(s, a, id) && Do(s, a).exchanges[id].request.Heartbeat?
    ensures forall f :: 0 <= f < |s.futures| ==> !s.futures[f].Pending?
    ensures forall x :: x in s.exchanges ==> !s.exchanges[x].request.JoinGroup?
  {
    SenderOf(s, a, id);
    hide Do, Alternates, Enabled, Sends;
    forall f: nat | f < |s.futures| ensures !s.futures[f].Pending? { assert !IsPending(s, f); }
    forall x | x in s.exchanges ensures !s.exchanges[x].request.JoinGroup? { assert !Live(s, x); }
  }

  /**
   In every run, the calls of `_on_join_prepare` that return and the calls of `_on_join_complete` alternate, the
   former first. A prepare that raises or times out is no event, and is called again.
   */
  lemma CallbacksAlternate(steps: seq<Step>)
    requires Run(Start, steps)
    ensures Alternates(After(Start, steps).history)
  {
    StartInv();
    RunKeepsInv(Start, steps);
  }

  /** The calls that did not raise. */
  function Returned(h: seq<Event>): seq<Event> {
    if h == [] then []
    else Returned(h[..|h| - 1]) + if h[|h| - 1] == Completed(true) then [] else [h[|h| - 1]]
  }

  lemma PrefixAlternates(a: seq<Event>, b: seq<Event>)
    requires a <= b && Alternates(b)
    ensures Alternates(a)
  {
  }

  lemma ReturnedSnoc(h: seq<Event>, e: Event)
    ensures Returned(h + [e]) == if e == Completed(true) then Returned(h) else Returned(h) + [e]
  {
    assert (h + [e])[..|h|] == h;
  }

  /** When only the last two calls are in question. */
  lemma LastTwo(h: seq<Event>, x: Event, y: Event)
    requires Alternates(h + [x] + [y]) && Returned(h) == h
    ensures Alternates(Returned(h + [x] + [y])) <==> x != Completed(true)
  {
    hide Returned;
    ReturnedSnoc(h, x);
    ReturnedSnoc(h + [x], y);
    var a, b := h + [x] + [y], h + [y];
    assert a[|h|] == x && a[|h| + 1] == y;
    assert b[|h|] == y;
    PrefixAlternates(h + [x], a);
  }

  lemma {:induction false} NoneRaised(h: seq<Event>)
    requires forall i :: 0 <= i < |h| ==> h[i] != Completed(true)
    ensures Returned(h) == h
  {
    if h != [] { NoneRaised(h[..|h| - 1]); }
  }

  lemma {:induction false} RaisedEarlier(h: seq<Event>, i: nat)
    requires Alternates(h) && i < |h| - 1 && h[i] == Completed(true)
    requires forall j :: 0 <= j < i ==> h[j] != Completed(true)
    ensures !Alternates(Returned(h))
    decreases |h|
  {
    hide Returned;
    var front, last := h[..|h| - 1], h[|h| - 1];
    assert h == front + [last];
    PrefixAlternates(front, h);
    if i == |h| - 2 {
      NoneRaised(front[..i]);
      assert h == front[..i] + [h[i]] + [last];
      LastTwo(front[..i], h[i], last);
    } else {
      RaisedEarlier(front, i);
      ReturnedSnoc(front, last);
      if Alternates(Returned(h)) { PrefixAlternates(Returned(front), Returned(h)); }
    }
  }

  lemma {:induction false} FirstRaised(h: seq<Event>, i: nat) returns (k: nat)
    requires i < |h| && h[i] == Completed(true)
    ensures k <= i && h[k] == Completed(true) && forall j :: 0 <= j < k ==> h[j] != Completed(true)
  {
    k := 0;
    while h[k] != Completed(true)
      invariant k <= i && forall j :: 0 <= j < k ==> h[j] != Completed(true)
      decreases i - k
    {
      k := k + 1;
    }
  }

  /**
   A `_on_join_complete` that raises is not repeated: the calls that return alternate if and only if
   none raised before the last one.
   */
  lemma ReturnedAlternateIffNoneRaised(h: seq<Event>)
    requires Alternates(h)
    ensures Alternates(Returned(h)) <==> forall i :: 0 <= i < |h| - 1 ==> h[i] != Completed(true)
  {
    hide Returned;
    if i :| 0 <= i < |h| - 1 && h[i] == Completed(true) {
      var k := FirstRaised(h, i);
      RaisedEarlier(h, k);
    } else if h == [] {
      NoneRaised(h);
    } else {
      var front, last := h[..|h| - 1], h[|h| - 1];
      assert h == front + [last];
      NoneRaised(front);
      ReturnedSnoc(front, last);
    }
  }

  lemma {:induction false} Extend(s: State, steps: seq<Step>, a: Step)
    requires Run(s, steps) && Enabled(After(s, steps), a)
    ensures Run(s, steps + [a]) && After(s, steps + [a]) == Do(After(s, steps), a)
    decreases |steps|
  {
    hide Enabled, Do;
    if steps == [] {
      assert steps + [a] == [a];
      assert Run(Do(s, a), []) && After(s, [a]) == After(Do(s, a), []);
    } else {
      Extend(Do(s, steps[0]), steps[1..], a);
      assert (steps + [a])[1..] == steps[1..] + [a];
    }
  }

  lemma Then(steps: seq<Step>, a: Step) returns (more: seq<Step>)
    requires Run(Start, steps) && Enabled(After(Start, steps), a)
    ensures Run(Start, more) && After(Start, more) == Do(After(Start, steps), a)
  {
    Extend(Start, steps, a);
    more := steps + [a];
  }

  lemma HeartbeatIsFenced() returns (steps: seq<Step>)
    ensures Run(Start, steps)
    ensures After(Start, steps) == State(Unjoined, true, true, None, [], Some(7), [Thread(false, false, true)], Some(0), Waiting,
                                         Draining, map[], [Prepared])
  {
    hide Run, After;
    steps := [];
    Begin();
    steps := Then(steps, StartHeartbeatThread);
    steps := Then(steps, TestRejoin(true));
    steps := Then(steps, CoordinatorFound(7));
    steps := Then(steps, CoordinatorReady);
    steps := Then(steps, PrepareReturns);
    steps := Then(steps, DisableHeartbeat);
  }

  lemma Begin()
    ensures Run(Start, []) && After(Start, []) == Start
  {
  }

  /** The first JoinGroup. */
  lemma JoinIsSent() returns (steps: seq<Step>)
    ensures Run(Start, steps)
    ensures After(Start, steps) == State(Rebalancing, true, true, Some(0), [Pending], Some(7), [Thread(false, false, true)], Some(0), Waiting,
                                         Awaiting(0), map[0 := Exchange(7, JoinGroup(0), None)], [Prepared])
  {
    hide Run, After;
    steps := HeartbeatIsFenced();
    steps := Then(steps, TestCoordinator);
    steps := Then(steps, CountInFlight);
    steps := Then(steps, InitiateJoin(Sent(0)));
  }

  /** It succeeds, and SyncGroup after it: the heartbeat thread is on again. */
  lemma JoinSucceeds() returns (steps: seq<Step>)
    ensures Run(Start, steps)
    ensures After(Start, steps) == State(Stable, true, true, Some(0), [Succeeded], Some(7), [Thread(true, false, true)], Some(0), Waiting,
                                         Awaiting(0), map[], [Prepared])
  {
    hide Run, After;
    steps := JoinIsSent();
    steps := Then(steps, Receive(0, NoError));
    steps := Then(steps, Handle(0, Sent(1)));
    steps := Then(steps, Receive(1, NoError));
    steps := Then(steps, Handle(1, NotSent(false)));
  }

  lemma JoinCompletes(raised: bool) returns (steps: seq<Step>)
    ensures Run(Start, steps)
    ensures After(Start, steps) == State(Stable, false, false, None, [Succeeded], Some(7), [Thread(true, false, true)], Some(0), Waiting,
                                         Outside, map[], [Prepared, Completed(raised)])
  {
    hide Run, After;
    steps := JoinSucceeds();
    steps := Then(steps, Collect);
    steps := Then(steps, Judge);
    steps := Then(steps, ClearRejoin);
    steps := Then(steps, CompleteReturns(raised));
  }

  /** `_on_join_complete` raises; the next rejoin prepares again, so that the completed calls do not alternate. */
  lemma RaisingBreaksAlternation() returns (steps: seq<Step>)
    ensures Run(Start, steps) && After(Start, steps).history == [Prepared, Completed(true), Prepared]
    ensures !Alternates(Returned(After(Start, steps).history))
  {
    hide Run, After, Returned;
    steps := JoinCompletes(true);
    steps := Then(steps, RejoinRequested);
    steps := Then(steps, TestRejoin(true));
    steps := Then(steps, CoordinatorReady);
    steps := Then(steps, PrepareReturns);
    var h := After(Start, steps).history;
    CallbacksAlternate(steps);
    ReturnedAlternateIffNoneRaised(h);
    assert h[1] == Completed(true);
  }

  // ---------- a thread that is dropped while it runs ----------

  const Twice := [Prepared, Completed(false), Prepared]

  lemma HeartbeatIsSent() returns (steps: seq<Step>)
    ensures Run(Start, steps)
    ensures After(Start, steps) == State(Stable, false, false, None, [Succeeded], Some(7), [Thread(true, false, true)], Some(0), Waiting,
                                         Outside, map[2 := Exchange(7, Heartbeat(0), None)], [Prepared, Completed(false)])
  {
    hide Run, After;
    steps := JoinCompletes(false);
    steps := Then(steps, BeatStarts(0));
    steps := Then(steps, SendHeartbeat(Sent(2)));
  }

  lemma SecondJoinPrepares() returns (steps: seq<Step>)
    ensures Run(Start, steps)
    ensures After(Start, steps) == State(Stable, true, true, None, [Succeeded], Some(7), [Thread(true, false, true)], Some(0), Waiting,
                                         Fencing, map[2 := Exchange(7, Heartbeat(0), None)], Twice)
  {
    hide Run, After;
    steps := HeartbeatIsSent();
    steps := Then(steps, RejoinRequested);
    steps := Then(steps, TestRejoin(true));
    steps := Then(steps, CoordinatorReady);
    steps := Then(steps, PrepareReturns);
  }

  /** A second join is under way when a heartbeat of the first thread is in flight. */
  lemma HeartbeatInFlight() returns (steps: seq<Step>)
    ensures Run(Start, steps)
    ensures After(Start, steps) == State(Stable, true, true, None, [Succeeded], Some(7), [Thread(false, false, true)], Some(0), Waiting,
                                         DrainPolling, map[2 := Exchange(7, Heartbeat(0), None)], Twice)
  {
    hide Run, After;
    steps := SecondJoinPrepares();
    steps := Then(steps, DisableHeartbeat);
    steps := Then(steps, TestCoordinator);
    assert InFlight(After(Start, steps), 2);
    steps := Then(steps, CountInFlight);
  }

  predicate InFlight(s: State, id: nat) { id in s.exchanges && s.exchanges[id].reply.None? }

  /** It is fenced: the thread has failed and is disabled, and still runs. */
  lemma FencedReplyIsHandled() returns (steps: seq<Step>)
    ensures Run(Start, steps)
    ensures After(Start, steps) == State(Stable, true, true, None, [Succeeded], Some(7), [Thread(false, true, true)], Some(0), Waiting,
                                         DrainPolling, map[], Twice)
  {
    hide Run, After;
    steps := HeartbeatInFlight();
    steps := Then(steps, Receive(2, Fenced));
    steps := Then(steps, Handle(2, NotSent(false)));
  }

  lemma HeartbeatComesBackFenced() returns (steps: seq<Step>)
    ensures Run(Start, steps)
    ensures After(Start, steps) == State(Stable, true, true, None, [Succeeded], Some(7), [Thread(false, true, true)], Some(0), Waiting,
                                         Initiating, map[], Twice)
  {
    hide Run, After;
    steps := FencedReplyIsHandled();
    steps := Then(steps, DrainAgain);
    steps := Then(steps, TestCoordinator);
    steps := Then(steps, CountInFlight);
  }

  lemma FencedJoinIsAnswered() returns (steps: seq<Step>)
    ensures Run(Start, steps)
    ensures After(Start, steps) == State(Rebalancing, true, true, Some(1), [Succeeded, Pending], Some(7), [Thread(false, true, true)], Some(0),
                                         Waiting, Awaiting(1), map[3 := Exchange(7, JoinGroup(1), Some(NoError))], Twice)
  {
    hide Run, After;
    steps := HeartbeatComesBackFenced();
    steps := Then(steps, InitiateJoin(Sent(3)));
    steps := Then(steps, Receive(3, NoError));
  }

  lemma FencedJoinIsSent() returns (steps: seq<Step>)
    ensures Run(Start, steps)
    ensures After(Start, steps) == State(Rebalancing, true, true, Some(1), [Succeeded, Pending], Some(7), [Thread(false, true, true)], Some(0),
                                         Waiting, Awaiting(1), map[4 := Exchange(7, SyncGroup(1), None)], Twice)
  {
    hide Run, After;
    steps := FencedJoinIsAnswered();
    steps := Then(steps, Handle(3, Sent(4)));
  }

  /** The join succeeds all the same, and enables the failed thread. */
  lemma FailedThreadIsEnabled() returns (steps: seq<Step>)
    ensures Run(Start, steps)
    ensures After(Start, steps) == State(Stable, true, true, Some(1), [Succeeded, Succeeded], Some(7), [Thread(true, true, true)], Some(0),
                                         Waiting, Awaiting(1), map[], Twice)
  {
    hide Run, After;
    steps := FencedJoinIsSent();
    steps := Then(steps, Receive(4, NoError));
    steps := Then(steps, Handle(4, NotSent(false)));
  }

  /** `poll_heartbeat` drops it, and the next call starts a second thread. */
  lemma ThreadIsDropped() returns (steps: seq<Step>)
    ensures Run(Start, steps)
    ensures After(Start, steps) == State(Stable, false, false, None, [Succeeded, Succeeded], Some(7),
                                         [Thread(true, true, true), Thread(false, false, true)], Some(1), Waiting,
                                         Outside, map[], Twice + [Completed(false)])
  {
    hide Run, After;
    steps := FailedThreadIsEnabled();
    steps := Then(steps, Collect);
    steps := Then(steps, Judge);
    steps := Then(steps, ClearRejoin);
    steps := Then(steps, CompleteReturns(false));
    steps := Then(steps, PollHeartbeat);
    steps := Then(steps, StartHeartbeatThread);
  }

  /** The next join disables the second thread. */
  lemma OtherThreadIsDisabled() returns (steps: seq<Step>)
    ensures Run(Start, steps)
    ensures After(Start, steps) == State(Stable, true, true, None, [Succeeded, Succeeded], Some(7),
                                         [Thread(true, true, true), Thread(false, false, true)], Some(1), Waiting,
                                         Draining, map[], Twice + [Completed(false), Prepared])
  {
    hide Run, After;
    steps := ThreadIsDropped();
    steps := Then(steps, RejoinRequested);
    steps := Then(steps, TestRejoin(true));
    steps := Then(steps, CoordinatorReady);
    steps := Then(steps, PrepareReturns);
    steps := Then(steps, DisableHeartbeat);
  }

  lemma OrphanBeats() returns (steps: seq<Step>)
    ensures Run(Start, steps)
    ensures After(Start, steps) == State(Stable, true, true, None, [Succeeded, Succeeded], Some(7),
                                         [Thread(true, true, true), Thread(false, false, true)], Some(1), Waiting,
                                         Initiating, map[5 := Exchange(7, Heartbeat(0), None)], Twice + [Completed(false), Prepared])
  {
    hide Run, After;
    steps := OtherThreadIsDisabled();
    steps := Then(steps, TestCoordinator);
    steps := Then(steps, CountInFlight);
    steps := Then(steps, BeatStarts(0));
    steps := Then(steps, SendHeartbeat(Sent(5)));
  }

  /**
   The run in which a JoinGroup is sent although a heartbeat thread is enabled, and while its heartbeat is in flight
   to the coordinator: the first thread's heartbeat is fenced, a join enables it, `poll_heartbeat` drops it, and it
   beats once more between the drained check and the JoinGroup of the next join.
   */
  lemma OrphanDisturbsJoin() returns (steps: seq<Step>)
    ensures Run(Start, steps)
    ensures var s, a := After(Start, steps), InitiateJoin(Sent(6));
      && Enabled(s, a) && Sends(s, a, 6) && Do(s, a).exchanges[6] == Exchange(7, JoinGroup(2), None)
      && Orphan(s, 0) && !AllOff(s)
      && s.exchanges == map[5 := Exchange(7, Heartbeat(0), None)]
  {
    steps := OrphanBeats();
    hide Run, After;
  }

  // ---------- exactly when the drained check is enough ----------

  lemma {:induction false} FreshId(ids: set<nat>) returns (id: nat)
    ensures id !in ids
  {
    id := 0;
    var seen: set<nat> := {};
    while id in ids
      invariant seen <= ids && forall i: nat :: i in seen <==> i < id
      decreases ids - seen
    {
      seen := seen + {id};
      id := id + 1;
    }
  }

  predicate NoInitiate(steps: seq<Step>) { forall i :: 0 <= i < |steps| ==> !steps[i].InitiateJoin? }

  /** Whatever the others do before the JoinGroup is sent, nothing is in flight to the coordinator then. */
  ghost predicate StaysDrained(s: State) {
    forall more :: Run(s, more) && NoInitiate(more) ==> Drained(After(s, more))
  }

  /** No thread can do anything that matters until the JoinGroup is sent. */
  ghost predicate Still(s: State) { s.beat.Waiting? && (s.state.Stable? ==> NoOrphans(s)) }

  ghost predicate About(s: State) { s.pc == Initiating && s.joinFuture.None? && Drained(s) }

  lemma StillStep(s: State, a: Step)
    requires Inv(s) && About(s) && Still(s) && Enabled(s, a) && !a.InitiateJoin?
    ensures About(Do(s, a)) && Still(Do(s, a))
  {
    assert a.BeatStarts? || a.CoordinatorLost? || a.RejoinRequested?;
    if a.BeatStarts? { assert s.state.Stable? ==> !Orphan(s, a.thread); }
    forall i: nat ensures Orphan(Do(s, a), i) ==> Orphan(s, i) {}
    hide FuturesInv, Alternates;
  }

  lemma {:induction false} StillStaysDrained(s: State, more: seq<Step>)
    requires Inv(s) && About(s) && Still(s) && Run(s, more) && NoInitiate(more)
    ensures About(After(s, more))
    decreases |more|
  {
    hide Inv, Still, Enabled, Do;
    if more != [] {
      assert !more[0].InitiateJoin?;
      StepKeepsInv(s, more[0]);
      StillStep(s, more[0]);
      StillStaysDrained(Do(s, more[0]), more[1..]);
    }
  }

  /** The JoinGroup can be sent from here. */
  ghost predicate MaySend(s: State) { s.joinFuture.None? && exists id :: Enabled(s, InitiateJoin(Sent(id))) }

  lemma MaySendIff(s: State)
    ensures MaySend(s) <==> s.joinFuture.None? && s.pc == Initiating && s.beat.Waiting? && s.coordinator.Some?
  {
    var id := FreshId(s.exchanges.Keys);
    assert s.pc == Initiating && s.beat.Waiting? && s.coordinator.Some? ==> Enabled(s, InitiateJoin(Sent(id)));
  }

  /** However the run goes on, the JoinGroup goes out with nothing in flight to the coordinator. */
  ghost predicate GoesOutAlone(s: State) {
    forall more :: Run(s, more) && NoInitiate(more) && MaySend(After(s, more)) ==> NothingInFlight(After(s, more))
  }

  /** After `more` the JoinGroup can be sent although something is in flight to the coordinator. */
  ghost predicate Disturbs(s: State, more: seq<Step>) {
    Run(s, more) && NoInitiate(more) && MaySend(After(s, more)) && !NothingInFlight(After(s, more))
  }

  lemma DisturbsLater(s: State, a: Step, more: seq<Step>)
    requires Enabled(s, a) && !a.InitiateJoin? && Disturbs(Do(s, a), more)
    ensures Disturbs(s, [a] + more)
  {
    hide Enabled, Do, NothingInFlight, MaySend;
    assert ([a] + more)[1..] == more;
  }

  lemma DisturbsNow(s: State)
    requires MaySend(s) && !NothingInFlight(s)
    ensures Disturbs(s, [])
  {
    hide NothingInFlight, MaySend;
  }

  /** A thread that polls inside its section can send a heartbeat and leave the section. */
  lemma PollingDisturbs(s: State) returns (more: seq<Step>)
    requires s.pc == Initiating && s.joinFuture.None? && s.coordinator.Some? && s.beat.Polling?
    ensures Disturbs(s, more)
  {
    var id := FreshId(s.exchanges.Keys);
    var a := SendHeartbeat(Sent(id));
    var t := Do(s, a);
    assert t.exchanges[id] == Exchange(t.coordinator.value, Heartbeat(s.beat.thread), None);
    MaySendIff(t);
    hide MaySend;
    DisturbsNow(t);
    DisturbsLater(s, a, []);
    more := [a];
    assert [a] + [] == more;
  }

  /** One that leaves the group can have a commit sent during its poll. */
  lemma LeavingDisturbs(s: State) returns (more: seq<Step>)
    requires s.pc == Initiating && s.joinFuture.None? && s.coordinator.Some? && s.beat.Leaving?
    ensures Disturbs(s, more)
  {
    var id := FreshId(s.exchanges.Keys);
    var a := SendCommit(Sent(id));
    var t := Do(s, a);
    var u := Do(t, BeatLeft);
    assert u.exchanges[id] == Exchange(u.coordinator.value, OffsetCommit, None);
    MaySendIff(u);
    hide MaySend;
    DisturbsNow(u);
    DisturbsLater(t, BeatLeft, []);
    DisturbsLater(s, a, [BeatLeft]);
    more := [a] + [BeatLeft];
    assert [BeatLeft] + [] == [BeatLeft];
  }

  /** Inside its section a thread may find a coordinator first. */
  lemma SectionDisturbs(s: State) returns (more: seq<Step>)
    requires s.pc == Initiating && s.joinFuture.None? && !s.beat.Waiting?
    ensures Disturbs(s, more)
  {
    var a := CoordinatorFound(0);
    var t := if s.coordinator.None? then Do(s, a) else s;
    assert Enabled(s, a);
    var rest;
    if t.beat.Polling? { rest := PollingDisturbs(t); } else { rest := LeavingDisturbs(t); }
    hide Disturbs, Do, Enabled;
    if s.coordinator.None? { DisturbsLater(s, a, rest); }
    more := if s.coordinator.None? then [a] + rest else rest;
  }

  lemma OrphanDisturbs(s: State, o: nat) returns (more: seq<Step>)
    requires s.pc == Initiating && s.joinFuture.None? && s.beat.Waiting? && s.state.Stable? && Orphan(s, o)
    ensures Disturbs(s, more)
  {
    var a := BeatStarts(o);
    var rest := SectionDisturbs(Do(s, a));
    more := [a] + rest;
    assert Enabled(s, a);
    hide Disturbs, Do;
    DisturbsLater(s, a, rest);
  }

  lemma UnlessStillDisturbed(s: State) returns (more: seq<Step>)
    requires s.pc == Initiating && s.joinFuture.None? && !Still(s)
    ensures Disturbs(s, more)
  {
    hide Disturbs;
    if !s.beat.Waiting? {
      more := SectionDisturbs(s);
    } else {
      var o: nat :| Orphan(s, o);
      more := OrphanDisturbs(s, o);
    }
  }

  /**
   In any run, while the foreground thread is about to send a JoinGroup, up to the very step that sends it: it is
   bound to go out with nothing in flight to the coordinator if and only if nothing is in flight to a known
   coordinator now, no heartbeat thread is inside its section and, should the group be STABLE, there is no orphan.
   */
  lemma JoinGroupGoesOutAloneIff(steps: seq<Step>)
    requires Run(Start, steps) && After(Start, steps).pc == Initiating && After(Start, steps).joinFuture.None?
    ensures var s := After(Start, steps);
      GoesOutAlone(s) <==> (s.coordinator.Some? ==> NothingInFlight(s)) && Still(s)
  {
    StartInv();
    RunKeepsInv(Start, steps);
    var s := After(Start, steps);
    hide Inv, NothingInFlight;
    if !Still(s) {
      var more := UnlessStillDisturbed(s);
    } else if Drained(s) {
      forall more | Run(s, more) && NoInitiate(more) && MaySend(After(s, more)) ensures NothingInFlight(After(s, more)) {
        StillStaysDrained(s, more);
        MaySendIff(After(s, more));
      }
    } else {
      MaySendIff(s);
      DisturbsNow(s);
    }
  }

  /**
   In any run, when the foreground thread has found nothing in flight to a known coordinator and goes to send a
   JoinGroup: nothing can come to be in flight before it is sent if and only if no heartbeat thread is inside its
   section and, should the group be STABLE, there is no orphan.
   */
  lemma DrainedCheckIsEnoughIffStill(steps: seq<Step>)
    requires Run(Start, steps) && About(After(Start, steps)) && After(Start, steps).coordinator.Some?
    ensures StaysDrained(After(Start, steps)) <==> Still(After(Start, steps))
  {
    StartInv();
    RunKeepsInv(Start, steps);
    var s := After(Start, steps);
    hide Inv, NothingInFlight;
    if Still(s) {
      forall more | Run(s, more) && NoInitiate(more) ensures Drained(After(s, more)) { StillStaysDrained(s, more); }
    } else {
      var more := UnlessStillDisturbed(s);
      MaySendIff(After(s, more));
    }
  }

  // ---------- futures ----------

  predicate Settled(s: State, t: State, f: nat) { f < |t.futures| && f < |s.futures| && t.futures[f] == s.futures[f] }

  lemma EffectsSettle(s: State, f: nat, g: nat)
    requires f < |s.futures| && !s.futures[f].Pending?
    ensures Settled(s, FutureFails(s, g), f) && Settled(s, FutureSucceeds(s, g), f)
  {
  }

  lemma FailsSettled(s: State, t: State, f: nat, g: nat)
    requires f < |s.futures| && !s.futures[f].Pending? && Settled(s, t, f)
    ensures Settled(s, FutureFails(t, g), f)
  {
  }

  lemma JoinHandlerSettles(s: State, f: nat, g: nat, reply: Reply, sync: Attempt)
    requires f < |s.futures| && !s.futures[f].Pending? && CanSend(s, sync)
    ensures Settled(s, HandleJoinGroup(s, g, reply, sync), f)
  {
    hide FutureFails, FutureSucceeds, Send;
    EffectsSettle(s, f, g);
    match reply
    case NoError => JoinedSettles(s, f, g, sync);
    case UnknownMemberId => FailsSettled(s, ResetGeneration(s), f, g);
    case MemberIdRequired => FailsSettled(s, ResetGeneration(s), f, g);
    case CoordinatorUnavailable => FailsSettled(s, CoordinatorDead(s), f, g);
    case RequestFailed(dead) => FailsSettled(s, DeadIf(s, dead), f, g);
    case _ =>
  }

  lemma JoinedSettles(s: State, f: nat, g: nat, sync: Attempt)
    requires f < |s.futures| && !s.futures[f].Pending? && CanSend(s, sync)
    ensures Settled(s, HandleJoinGroup(s, g, NoError, sync), f)
  {
    var t := if s.state != Rebalancing then FutureFails(s, g) else s;
    StillCanSend(s, g, sync);
    EffectsSettle(s, f, g);
    hide FutureFails, FutureSucceeds;
    SendSettles(t, sync, SyncGroup(g));
    FailsSettled(s, Send(t, sync, SyncGroup(g)), f, g);
    hide Send;
  }

  lemma SendSettles(s: State, a: Attempt, r: Request)
    requires CanSend(s, a)
    ensures Send(s, a, r).futures == s.futures
  {
  }

  lemma SyncHandlerSettles(s: State, f: nat, g: nat, reply: Reply)
    requires f < |s.futures| && !s.futures[f].Pending?
    ensures Settled(s, HandleSyncGroup(s, g, reply), f)
  {
  }

  lemma HandlerSettles(s: State, f: nat, id: nat, sync: Attempt)
    requires f < |s.futures| && !s.futures[f].Pending? && Enabled(s, Handle(id, sync))
    ensures Settled(s, HandleReply(s, id, sync), f)
  {
    var x, t := s.exchanges[id], s.(exchanges := s.exchanges - {id});
    hide HandleJoinGroup, HandleSyncGroup;
    match x.request
    case JoinGroup(g) => JoinHandlerSettles(t, f, g, x.reply.value, sync);
    case SyncGroup(g) => SyncHandlerSettles(t, f, g, x.reply.value);
    case _ =>
  }

  lemma StepSettles(s: State, a: Step, f: nat)
    requires Enabled(s, a) && f < |s.futures| && !s.futures[f].Pending?
    ensures Settled(s, Do(s, a), f)
  {
    hide HandleReply, NothingInFlight;
    if a.Handle? { HandlerSettles(s, f, a.id, a.sync); }
  }

  /** A join future completes once: later responses for it, such as that of a SyncGroup sent after it failed, change nothing. */
  lemma {:induction false} OutcomeIsFinal(s: State, steps: seq<Step>, f: nat)
    requires Run(s, steps) && f < |s.futures| && !s.futures[f].Pending?
    ensures f < |After(s, steps).futures| && After(s, steps).futures[f] == s.futures[f]
    decreases |steps|
  {
    hide Enabled, Do;
    if steps != [] {
      StepSettles(s, steps[0], f);
      OutcomeIsFinal(Do(s, steps[0]), steps[1..], f);
    }
  }
}
