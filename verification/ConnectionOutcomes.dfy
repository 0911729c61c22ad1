/**
 What becomes of requests (conn.py): when they are sent and when refused, when they time out, and what a connection
 that closes does to them.
 */
module ConnectionOutcomes {
  import opened Wrappers
  import opened Bytes
  import opened Protocol
  import opened Connection

  // ---------- closing ----------

  /** The connection has closed: every future in flight has failed with `e`, and nothing else has happened to any. */
  ghost predicate ClosedWith(c: Conn, d: Conn, e: Error) {
    && d.state.Disconnected? && d.inFlight == map[] && d.parser == Parser([], None, []) && d.correlationId == 0
    && |d.futures| == |c.futures| && d.handed == c.handed && d.throttleTime == c.throttleTime
    && forall f :: 0 <= f < |c.futures| ==> d.futures[f] == if Flying(c, f) then c.futures[f] + [Failed(e)] else c.futures[f]
  }

  lemma CloseMeans(c: Conn, error: Option<Error>)
    ensures if c.state.Disconnected? then Close(c, error) == c
            else ClosedWith(c, Close(c, error), if error.Some? then error.value else Cancelled)
  {
  }

  // ---------- sending ----------

  /** The new future has failed with `e`; nothing was sent. */
  predicate RefusedWith(c: Conn, d: Conn, e: Error) { d == c.(futures := c.futures + [[Failed(e)]]) }

  predicate IsThrottled(c: Conn, now: int) { c.throttleTime.Some? && now < c.throttleTime.value }

  /** A throttle that is over is forgotten when it is asked for. */
  function Awake(c: Conn, now: int): Conn { if IsThrottled(c, now) then c else c.(throttleTime := None) }

  /** The request is on its way under the next id, and its future waits if there is to be a response. */
  predicate OnItsWay(c: Conn, d: Conn, m: Sending, deadline: int) {
    var id, f := (c.correlationId + 1) % 0x8000_0000, |c.futures|;
    && d.correlationId == id && d.state == c.state && d.handed == c.handed
    && d.futures == c.futures + [if m.expectResponse then [] else [Succeeded]]
    && d.inFlight == (if m.expectResponse then c.inFlight[id := Entry(f, deadline)] else c.inFlight)
    && d.parser == c.parser.(inFlight := c.parser.inFlight + if m.expectResponse then [id] else [])
    && d.throttleTime == c.throttleTime
  }

  function Deadline(m: Sending, now: int, config: Config): int {
    now + if m.timeoutMs == 0 then config.requestTimeoutMs else m.timeoutMs
  }

  /** `send` refuses on a connection that is not up, while it is throttled, or at the maximum; it sends otherwise. */
  lemma SendMeans(c: Conn, m: Sending, now: int, config: Config)
    ensures Unthrottled(c, now) == Awake(c, now)
    ensures Admits(c, now, config) <==> c.state.Connected? && !IsThrottled(c, now) && |c.inFlight| < config.maxInFlight
    ensures var d := Send(c, m, now, config);
      if !c.state.Connected? then RefusedWith(c, d, if c.state.Disconnected? then ConnectionError else NodeNotReady)
      else if IsThrottled(c, now) then RefusedWith(c, d, ThrottlingQuotaExceeded)
      else if |c.inFlight| >= config.maxInFlight then RefusedWith(Awake(c, now), d, TooManyInFlightRequests)
      else if m.blocking && m.writeFails then d.state.Disconnected? && |d.futures| == |c.futures| + 1
      else OnItsWay(Awake(c, now), d, m, Deadline(m, now, config))
  {
    assert c.parser.inFlight + [] == c.parser.inFlight;
  }

  // ---------- receiving ----------

  /** The end of the wait that a response asks for: no wait at all, the old one where the broker throttles, or the later of the two. */
  function WaitsUntil(c: Conn, ms: nat, now: int, config: Config): Option<int> {
    if ms == 0 then None
    else if !config.clientThrottles then c.throttleTime
    else if c.throttleTime.Some? && c.throttleTime.value > now + ms then c.throttleTime
    else Some(now + ms)
  }

  /** After a response that asks to wait for `ms`, `send` refuses until the wait is over, and no longer. */
  lemma ThrottleMeans(c: Conn, ms: nat, now: int, later: int, m: Sending, config: Config)
    requires now >= 0 && c.state.Connected?
    ensures var d, until := MaybeThrottle(c, ms, now, config), WaitsUntil(c, ms, now, config);
      && d == c.(throttleTime := d.throttleTime)
      && if until.Some? && later < until.value then RefusedWith(d, Send(d, m, later, config), ThrottlingQuotaExceeded)
         else if |c.inFlight| < config.maxInFlight && !(m.blocking && m.writeFails)
         then OnItsWay(Awake(d, later), Send(d, m, later, config), m, Deadline(m, later, config))
         else true
  {
    SendMeans(MaybeThrottle(c, ms, now, config), m, later, config);
  }

  /** Something in flight is past its time. */
  predicate Overdue(c: Conn, now: int) { exists id :: id in c.inFlight && now >= c.inFlight[id].timeoutAt }

  /** `recv` finds no response: it may not read, or what it reads completes none. */
  ghost predicate NothingReceived(c: Conn, input: Input, p: Parsing) {
    Readable(c.parser) &&
    (CanSendRecv(c) ==>
       input.Data? && var fed := Feed(c.parser, input.bytes, p.judge); fed.fault.None? && fed.responses == [])
  }

  lemma QuietRecvMeans(c: Conn, input: Input, p: Parsing, now: int, config: Config)
    requires Inv(c) && NothingReceived(c, input, p)
    ensures var d := Recv(c, input, p, now, config);
      if Overdue(c, now) then ClosedWith(c, d, RequestTimedOut) else d == c.(parser := d.parser)
  {
    if CanSendRecv(c) {
      var e := c.(parser := Feed(c.parser, input.bytes, p.judge).parser);
      assert forall f :: Flying(e, f) <==> Flying(c, f);
      CloseMeans(e, Some(RequestTimedOut));
    } else {
      CloseMeans(c, Some(RequestTimedOut));
    }
    hide Feed, Close;
  }

  /** A connection that may not be read from, a socket error, a broken protocol and an unknown id. */
  lemma FailedRecvMeans(c: Conn, input: Input, p: Parsing, now: int, config: Config)
    requires Inv(c) && CanSendRecv(c)
    ensures var d := Recv(c, input, p, now, config);
      && (input.SocketError? ==> ClosedWith(c, d, ConnectionError))
      && (input.Data? ==> var fed := Feed(c.parser, input.bytes, p.judge);
           && (fed.fault == Some(ProtocolFault) ==> ClosedWith(c, d, ProtocolError))
           && (fed.fault == Some(ValueFault) ==> d == c.(parser := fed.parser)))
  {
    CloseMeans(c, Some(ConnectionError));
    if input.Data? {
      var e := c.(parser := Feed(c.parser, input.bytes, p.judge).parser);
      assert forall f :: Flying(e, f) <==> Flying(c, f);
      CloseMeans(e, Some(ProtocolError));
    }
    hide Feed, Close;
  }

  // ---------- timeouts, over runs ----------

  lemma {:induction false} AfterLast(c: Conn, ops: seq<Op>, config: Config)
    requires ops != [] && Run(c, ops, config)
    ensures var front := ops[..|ops| - 1];
      && Run(c, front, config) && Enabled(After(c, front, config), ops[|ops| - 1])
      && After(c, ops, config) == Do(After(c, front, config), ops[|ops| - 1], config)
    decreases |ops|
  {
    hide Enabled, Do;
    if |ops| > 1 {
      AfterLast(Do(c, ops[0], config), ops[1..], config);
      assert ops[1..][..|ops| - 2] == ops[..|ops| - 1][1..];
    } else {
      assert ops[..0] == [] && ops[1..] == [];
    }
  }

  /** For each future, when the request that it stands for was sent, and how long it has: its own timeout, or the configured one. */
  ghost function Deadlines(ops: seq<Op>, config: Config): map<nat, int>
    requires Run(Fresh, ops, config)
    decreases |ops|
  {
    if ops == [] then map[]
    else
      AfterLast(Fresh, ops, config);
      var front := ops[..|ops| - 1];
      WithDeadline(Deadlines(front, config), |After(Fresh, front, config).futures|, ops[|ops| - 1], config)
  }

  function WithDeadline(deadlines: map<nat, int>, f: nat, op: Op, config: Config): map<nat, int> {
    match op
    case SendRequest(m, sent) => deadlines[f := sent + if m.timeoutMs == 0 then config.requestTimeoutMs else m.timeoutMs]
    case SendInternally(m, sent) => deadlines[f := sent + if m.timeoutMs == 0 then config.requestTimeoutMs else m.timeoutMs]
    case _ => deadlines
  }

  ghost predicate Timed(c: Conn, deadlines: map<nat, int>) {
    forall id :: id in c.inFlight ==>
      c.inFlight[id].future in deadlines && c.inFlight[id].timeoutAt == deadlines[c.inFlight[id].future]
  }

  lemma {:induction false} PoppingLeaves(c: Conn, rs: seq<Response>, before: seq<nat>, throttle: Response -> nat, now: int, config: Config)
    ensures var d := PopAll(c, rs, before, throttle, now, config);
      forall id :: id in d.inFlight ==> id in c.inFlight && d.inFlight[id] == c.inFlight[id]
    decreases |rs|
  {
    if rs != [] && rs[0].id in c.inFlight {
      var d := c.(inFlight := c.inFlight - {rs[0].id}, handed := c.handed + [c.inFlight[rs[0].id].future]);
      PoppingLeaves(MaybeThrottle(d, throttle(rs[0]), now, config), rs[1..], before, throttle, now, config);
    }
  }

  /** What is in flight after a step was so before, or is the request just sent. */
  lemma StepKeepsTimed(c: Conn, op: Op, config: Config, deadlines: map<nat, int>)
    requires Inv(c) && Enabled(c, op) && Timed(c, deadlines)
    ensures Timed(Do(c, op, config), WithDeadline(deadlines, |c.futures|, op, config))
  {
    hide Feed, PopAll;
    if op.Receive? && op.input.Data? {
      var fed := Feed(c.parser, op.input.bytes, op.p.judge);
      PoppingLeaves(c.(parser := fed.parser), fed.responses, c.handed, op.p.throttle, op.now, config);
    }
  }

  lemma {:induction false} RunsAreTimed(ops: seq<Op>, config: Config)
    requires Run(Fresh, ops, config)
    ensures Timed(After(Fresh, ops, config), Deadlines(ops, config)) && Inv(After(Fresh, ops, config))
    decreases |ops|
  {
    RunKeeps(Fresh, ops, config);
    if ops != [] {
      AfterLast(Fresh, ops, config);
      var front := ops[..|ops| - 1];
      RunsAreTimed(front, config);
      hide Enabled, Do, Inv, Timed;
      StepKeepsTimed(After(Fresh, front, config), ops[|ops| - 1], config, Deadlines(front, config));
    }
  }

  /** The deadline of something in flight has come. */
  ghost predicate Late(c: Conn, deadlines: map<nat, int>, now: int) {
    exists f :: f in deadlines && Flying(c, f) && now >= deadlines[f]
  }

  lemma LateIsOverdue(c: Conn, deadlines: map<nat, int>, now: int)
    requires Timed(c, deadlines)
    ensures Late(c, deadlines, now) <==> Overdue(c, now)
  {
    if id :| id in c.inFlight && now >= c.inFlight[id].timeoutAt { assert Flying(c, c.inFlight[id].future); }
  }

  /**
   In any run, when `recv` gets no response, or the timeouts are looked at: if the deadline of a request in flight has
   come, the connection closes and everything in flight fails with a timeout; otherwise everything stays in flight.
   */
  lemma TimesOutIff(ops: seq<Op>, config: Config, input: Input, p: Parsing, now: int)
    requires Run(Fresh, ops, config) && NothingReceived(After(Fresh, ops, config), input, p)
    ensures var c := After(Fresh, ops, config);
      var d, e := Do(c, Receive(input, p, now), config), Do(c, CheckTimeouts(now), config);
      if Late(c, Deadlines(ops, config), now) then ClosedWith(c, d, RequestTimedOut) && ClosedWith(c, e, RequestTimedOut)
      else d == c.(parser := d.parser) && e == c
  {
    RunsAreTimed(ops, config);
    var c := After(Fresh, ops, config);
    LateIsOverdue(c, Deadlines(ops, config), now);
    QuietRecvMeans(c, input, p, now, config);
    CloseMeans(c, Some(RequestTimedOut));
    hide Feed, Close, Run, After, Deadlines;
  }
}
