/**
 Requests, responses and their futures on one broker connection (conn.py), together with the client's queue
 of responses whose futures it has still to complete (client_async.py). Times are in milliseconds.
 */
module Connection {
  import opened Wrappers
  import opened Bytes
  import opened Protocol

  datatype ConnectionState =
    Disconnected | Connecting | Handshake | Authenticating | ApiVersionsSend | ApiVersionsRecv | Connected

  datatype Error =
    | Cancelled
    | ConnectionError
    | ProtocolError
    | RequestTimedOut
    | NodeNotReady
    | ThrottlingQuotaExceeded
    | TooManyInFlightRequests

  datatype Outcome = Succeeded | Failed(error: Error)

  datatype Entry = Entry(future: nat, timeoutAt: int)

  datatype Config = Config(maxInFlight: nat, requestTimeoutMs: nat, clientThrottles: bool)

  /** `futures[f]` are the completions future f has received; `handed` are the futures `recv` has returned. */
  datatype Conn = Conn(
    state: ConnectionState,
    inFlight: map<nat, Entry>,
    parser: Parser,
    correlationId: nat,
    throttleTime: Option<int>,
    futures: seq<seq<Outcome>>,
    handed: seq<nat>)

  const Fresh := Conn(Disconnected, map[], Parser([], None, []), 0, None, [], [])

  predicate CanSendRecv(c: Conn) { c.state in {Connected, Authenticating, ApiVersionsSend, ApiVersionsRecv} }

  predicate IsConnecting(c: Conn) { !c.state.Connected? && !c.state.Disconnected? }

  // ---------- futures ----------

  function Complete(c: Conn, f: nat, o: Outcome): Conn
    requires f < |c.futures|
  {
    c.(futures := c.futures[f := c.futures[f] + [o]])
  }

  function Refused(c: Conn, e: Error): Conn { c.(futures := c.futures + [[Failed(e)]]) }

  ghost predicate Flying(c: Conn, f: nat) { exists id :: id in c.inFlight && c.inFlight[id].future == f }

  // ---------- close, send, recv ----------

  ghost function FailFlying(c: Conn, e: Error): seq<seq<Outcome>> {
    seq(|c.futures|, f requires 0 <= f < |c.futures| => if Flying(c, f) then c.futures[f] + [Failed(e)] else c.futures[f])
  }

  ghost function Close(c: Conn, error: Option<Error>): Conn {
    if c.state.Disconnected? then c
    else c.(state := Disconnected, inFlight := map[], parser := Parser([], None, []), correlationId := 0,
            futures := FailFlying(c, if error.Some? then error.value else Cancelled))
  }

  function ThrottleDelay(c: Conn, now: int): nat {
    if c.throttleTime.Some? && c.throttleTime.value > now then c.throttleTime.value - now else 0
  }

  /** Asking for the delay forgets a throttle that is over. */
  function Unthrottled(c: Conn, now: int): Conn { if ThrottleDelay(c, now) == 0 then c.(throttleTime := None) else c }

  datatype Sending = Sending(message: seq<Byte>, expectResponse: bool, timeoutMs: nat, blocking: bool, writeFails: bool)

  ghost function SendNow(c: Conn, m: Sending, now: int, config: Config): Conn {
    if !CanSendRecv(c) then Refused(c, NodeNotReady)
    else
      var d := Queued(c, m, now, config);
      if m.blocking && m.writeFails then Close(d, Some(ConnectionError)) else d
  }

  /** The request has its id and its future, and its frame waits to be written. */
  function Queued(c: Conn, m: Sending, now: int, config: Config): Conn {
    var id, f := NextId(c.correlationId), |c.futures|;
    var timeoutAt := now + if m.timeoutMs == 0 then config.requestTimeoutMs else m.timeoutMs;
    if m.expectResponse
    then c.(correlationId := id, parser := c.parser.(inFlight := c.parser.inFlight + [id]),
            inFlight := c.inFlight[id := Entry(f, timeoutAt)], futures := c.futures + [[]])
    else c.(correlationId := id, futures := c.futures + [[Succeeded]])
  }

  /** The guards of `send`. */
  predicate Admits(c: Conn, now: int, config: Config) {
    c.state.Connected? && ThrottleDelay(c, now) == 0 && |c.inFlight| < config.maxInFlight
  }

  ghost function Send(c: Conn, m: Sending, now: int, config: Config): Conn {
    if IsConnecting(c) then Refused(c, NodeNotReady)
    else if !c.state.Connected? then Refused(c, ConnectionError)
    else if ThrottleDelay(c, now) > 0 then Refused(c, ThrottlingQuotaExceeded)
    else if |c.inFlight| >= config.maxInFlight then Refused(Unthrottled(c, now), TooManyInFlightRequests)
    else SendNow(Unthrottled(c, now), m, now, config)
  }

  datatype Input = Data(bytes: seq<Byte>) | SocketError

  predicate TimedOut(c: Conn, now: int) { exists id :: id in c.inFlight && c.inFlight[id].timeoutAt <= now }

  function MaybeThrottle(c: Conn, ms: nat, now: int, config: Config): Conn {
    if ms == 0 then c.(throttleTime := None)
    else if config.clientThrottles then
      var t := if c.throttleTime.Some? then c.throttleTime.value else 0;
      c.(throttleTime := Some(if now + ms > t then now + ms else t))
    else c
  }

  /** An unknown id closes the connection, and what has been popped by then is returned to nobody. */
  ghost function PopAll(c: Conn, rs: seq<Response>, before: seq<nat>, throttle: Response -> nat, now: int, config: Config): Conn
    decreases |rs|
  {
    if rs == [] then c
    else if rs[0].id !in c.inFlight then Close(c, Some(ConnectionError)).(handed := before)
    else
      var f := c.inFlight[rs[0].id].future;
      var d := c.(inFlight := c.inFlight - {rs[0].id}, handed := c.handed + [f]);
      PopAll(MaybeThrottle(d, throttle(rs[0]), now, config), rs[1..], before, throttle, now, config)
  }

  datatype Parsing = Parsing(judge: Judge, throttle: Response -> nat)

  /** A ValueError from the parser leaves `recv` at once; everything else is handled. */
  ghost function Recv(c: Conn, input: Input, p: Parsing, now: int, config: Config): Conn
    requires Readable(c.parser)
  {
    if !CanSendRecv(c) then
      if TimedOut(c, now) then Close(c, Some(RequestTimedOut)) else c
    else match input
      case SocketError => Close(c, Some(ConnectionError))
      case Data(bytes) => Absorb(c, Feed(c.parser, bytes, p.judge), p, now, config)
  }

  /** What `recv` does with the outcome of parsing. */
  ghost function Absorb(c: Conn, fed: Fed, p: Parsing, now: int, config: Config): Conn {
    var d := c.(parser := fed.parser);
    match fed.fault
    case Some(ProtocolFault) => Close(d, Some(ProtocolError))
    case Some(ValueFault) => d
    case None =>
      if fed.responses == [] && TimedOut(d, now) then Close(d, Some(RequestTimedOut))
      else PopAll(d, fed.responses, d.handed, p.throttle, now, config)
  }

  // ---------- runs ----------

  datatype Op =
    | Connect(to: ConnectionState)
    | SendRequest(m: Sending, now: int)
    | SendInternally(m: Sending, now: int)
    | Receive(input: Input, p: Parsing, now: int)
    | CheckTimeouts(now: int)
    | CloseConnection(error: Option<Error>)
    | FireNext

  /** A correlation id may not come round again while its request is in flight: the source asserts it. */
  predicate Enabled(c: Conn, op: Op) {
    match op
    case Connect(to) => if c.state.Disconnected? then to.Connecting? else IsConnecting(c) && !to.Disconnected?
    case SendRequest(_, _) => NextId(c.correlationId) !in c.inFlight
    case SendInternally(_, _) => NextId(c.correlationId) !in c.inFlight
    case Receive(_, _, _) => Readable(c.parser)
    case CheckTimeouts(_) => true
    case CloseConnection(_) => true
    case FireNext => c.handed != [] && c.handed[0] < |c.futures|
  }

  ghost function Do(c: Conn, op: Op, config: Config): Conn
    requires Enabled(c, op)
  {
    match op
    case Connect(to) => c.(state := to)
    case SendRequest(m, now) => Send(c, m, now, config)
    case SendInternally(m, now) => SendNow(c, m, now, config)
    case Receive(input, p, now) => Recv(c, input, p, now, config)
    case CheckTimeouts(now) => if TimedOut(c, now) then Close(c, Some(RequestTimedOut)) else c
    case CloseConnection(error) => Close(c, error)
    case FireNext => Complete(c, c.handed[0], Succeeded).(handed := c.handed[1..])
  }

  ghost predicate Run(c: Conn, ops: seq<Op>, config: Config)
    decreases |ops|
  {
    ops != [] ==> Enabled(c, ops[0]) && Run(Do(c, ops[0], config), ops[1..], config)
  }

  ghost function After(c: Conn, ops: seq<Op>, config: Config): Conn
    requires Run(c, ops, config)
    decreases |ops|
  {
    if ops == [] then c else After(Do(c, ops[0], config), ops[1..], config)
  }

  // ---------- the invariant ----------

  predicate Distinct(s: seq<nat>) { forall i, j :: 0 <= i < j < |s| ==> s[i] != s[j] }

  /** The two records of what is in flight agree: the parser never answers an unknown id. */
  predicate ParserInv(c: Conn) {
    && Readable(c.parser) && Distinct(c.parser.inFlight)
    && (forall i :: 0 <= i < |c.parser.inFlight| ==> c.parser.inFlight[i] in c.inFlight)
    && (c.state.Disconnected? ==> c.inFlight == map[])
  }

  /** Each future is in flight once, or handed out once, or completed once. */
  ghost predicate FutureInv(c: Conn) {
    && (forall id :: id in c.inFlight ==> c.inFlight[id].future < |c.futures|)
    && (forall x, y :: x in c.inFlight && y in c.inFlight && c.inFlight[x].future == c.inFlight[y].future ==> x == y)
    && Distinct(c.handed)
    && (forall i :: 0 <= i < |c.handed| ==> c.handed[i] < |c.futures| && !Flying(c, c.handed[i]))
    && (forall f :: 0 <= f < |c.futures| ==> |c.futures[f]| == if Flying(c, f) || f in c.handed then 0 else 1)
  }

  ghost predicate Inv(c: Conn) { ParserInv(c) && FutureInv(c) }

  lemma CloseKeeps(c: Conn, error: Option<Error>)
    requires Inv(c)
    ensures Inv(Close(c, error))
  {
  }

  /** A future that is complete from the start. */
  lemma CompleteFromStartKeeps(c: Conn, o: Outcome)
    requires Inv(c)
    ensures Inv(c.(futures := c.futures + [[o]]))
  {
    var d := c.(futures := c.futures + [[o]]);
    assert forall f :: Flying(d, f) <==> Flying(c, f);
    assert !Flying(c, |c.futures|);
  }

  lemma OnTheWay(c: Conn, id: nat, timeoutAt: int)
    requires Inv(c) && id !in c.inFlight && !c.state.Disconnected?
    ensures var d := c.(inFlight := c.inFlight[id := Entry(|c.futures|, timeoutAt)], futures := c.futures + [[]],
                        parser := c.parser.(inFlight := c.parser.inFlight + [id]));
      Inv(d)
  {
    var d := c.(inFlight := c.inFlight[id := Entry(|c.futures|, timeoutAt)], futures := c.futures + [[]],
                parser := c.parser.(inFlight := c.parser.inFlight + [id]));
    forall f: nat ensures Flying(d, f) <==> Flying(c, f) || f == |c.futures| {
      assert d.inFlight[id].future == |c.futures|;
      if x :| x in c.inFlight && c.inFlight[x].future == f { assert d.inFlight[x].future == f; }
    }
    assert !Flying(c, |c.futures|);
  }

  /** Inv does not depend on these. */
  lemma Irrelevant(c: Conn, d: Conn)
    requires Inv(c) && d == c.(correlationId := d.correlationId, throttleTime := d.throttleTime, state := d.state, parser := d.parser)
    requires Readable(c.parser) ==> Readable(d.parser)
    requires d.parser.inFlight == c.parser.inFlight && (d.state.Disconnected? ==> c.state.Disconnected?)
    ensures Inv(d)
  {
    assert forall f :: Flying(d, f) <==> Flying(c, f);
  }

  lemma SendNowKeeps(c: Conn, m: Sending, now: int, config: Config)
    requires Inv(c) && NextId(c.correlationId) !in c.inFlight
    ensures Inv(SendNow(c, m, now, config))
  {
    hide Inv, Close;
    var id, timeoutAt := NextId(c.correlationId), now + if m.timeoutMs == 0 then config.requestTimeoutMs else m.timeoutMs;
    CompleteFromStartKeeps(c, Failed(NodeNotReady));
    if CanSendRecv(c) {
      CompleteFromStartKeeps(c, Succeeded);
      OnTheWay(c, id, timeoutAt);
      var e := if m.expectResponse
               then c.(inFlight := c.inFlight[id := Entry(|c.futures|, timeoutAt)], futures := c.futures + [[]],
                       parser := c.parser.(inFlight := c.parser.inFlight + [id]))
               else c.(futures := c.futures + [[Succeeded]]);
      var d := e.(correlationId := id);
      Irrelevant(e, d);
      CloseKeeps(d, Some(ConnectionError));
    }
  }

  lemma SendKeeps(c: Conn, m: Sending, now: int, config: Config)
    requires Inv(c) && NextId(c.correlationId) !in c.inFlight
    ensures Inv(Send(c, m, now, config))
  {
    hide Inv, SendNow;
    forall e ensures Inv(Refused(c, e)) { CompleteFromStartKeeps(c, Failed(e)); }
    var d := Unthrottled(c, now);
    Irrelevant(c, d);
    CompleteFromStartKeeps(d, Failed(TooManyInFlightRequests));
    SendNowKeeps(d, m, now, config);
  }

  lemma PoppedKeeps(c: Conn, id: nat)
    requires Inv(c) && id in c.inFlight && id !in c.parser.inFlight
    ensures Inv(c.(inFlight := c.inFlight - {id}, handed := c.handed + [c.inFlight[id].future]))
  {
    var f := c.inFlight[id].future;
    var d := c.(inFlight := c.inFlight - {id}, handed := c.handed + [f]);
    assert Flying(c, f);
    forall g: nat ensures Flying(d, g) <==> Flying(c, g) && g != f {
      if x :| x in c.inFlight && c.inFlight[x].future == g && g != f { assert x in d.inFlight; }
    }
  }

  /** The responses are for requests that the connection has in flight and the parser no longer has. */
  predicate Known(c: Conn, rs: seq<Response>) {
    && (forall i :: 0 <= i < |rs| ==> rs[i].id in c.inFlight && rs[i].id !in c.parser.inFlight)
    && (forall i, j :: 0 <= i < j < |rs| ==> rs[i].id != rs[j].id)
  }

  lemma {:induction false} PopAllKeeps(c: Conn, rs: seq<Response>, before: seq<nat>, throttle: Response -> nat, now: int, config: Config)
    requires Inv(c) && Known(c, rs)
    ensures Inv(PopAll(c, rs, before, throttle, now, config))
    ensures var d := PopAll(c, rs, before, throttle, now, config);
      && d.state == c.state
      && |d.handed| == |c.handed| + |rs| && c.handed <= d.handed
      && (forall i :: 0 <= i < |rs| ==> d.handed[|c.handed| + i] == c.inFlight[rs[i].id].future)
    decreases |rs|
  {
    hide Inv;
    if rs != [] {
      var id := rs[0].id;
      var d := c.(inFlight := c.inFlight - {id}, handed := c.handed + [c.inFlight[id].future]);
      var e := MaybeThrottle(d, throttle(rs[0]), now, config);
      PoppedKeeps(c, id);
      Irrelevant(d, e);
      PopAllKeeps(e, rs[1..], before, throttle, now, config);
      var z := PopAll(e, rs[1..], before, throttle, now, config);
      assert d.handed <= z.handed;
      forall i | 0 <= i < |rs| ensures z.handed[|c.handed| + i] == c.inFlight[rs[i].id].future {
        if i > 0 {
          assert rs[1..][i - 1] == rs[i];
          assert z.handed[|e.handed| + (i - 1)] == e.inFlight[rs[1..][i - 1].id].future;
        } else {
          assert z.handed[|c.handed|] == d.handed[|c.handed|];
        }
      }
    }
  }

  /** What the parser hands over is known, because it keeps the same ids in the order of sending. */
  lemma FedIsKnown(c: Conn, bytes: seq<Byte>, judge: Judge)
    requires Inv(c)
    ensures var fed := Feed(c.parser, bytes, judge);
      Inv(c.(parser := fed.parser)) && (fed.fault.None? ==> Known(c.(parser := fed.parser), fed.responses))
  {
    hide FutureInv, Feed;
    AnswersInOrder(c.parser, bytes, judge);
    var fed := Feed(c.parser, bytes, judge);
    var d := c.(parser := fed.parser);
    SuffixDistinct(fed.parser.inFlight, c.parser.inFlight);
    assert FutureInv(d) by { SameFutures(c, d); }
    if fed.fault.None? {
      var n := |fed.responses|;
      forall i | 0 <= i < n ensures fed.responses[i].id in c.inFlight && fed.responses[i].id !in fed.parser.inFlight {
        assert fed.responses[i].id == c.parser.inFlight[i];
      }
      assert forall i, j :: 0 <= i < j < n ==> fed.responses[i].id != fed.responses[j].id;
    }
  }

  lemma SameFutures(c: Conn, d: Conn)
    requires FutureInv(c) && d == c.(parser := d.parser)
    ensures FutureInv(d)
  {
    assert forall f :: Flying(d, f) <==> Flying(c, f);
  }

  lemma SuffixDistinct(t: seq<nat>, s: seq<nat>)
    requires IsSuffix(t, s) && Distinct(s)
    ensures Distinct(t)
    ensures forall i :: 0 <= i < |t| ==> t[i] in s
    ensures forall i :: 0 <= i < |s| - |t| ==> s[i] !in t
  {
  }

  lemma RecvKeeps(c: Conn, input: Input, p: Parsing, now: int, config: Config)
    requires Inv(c)
    ensures Inv(Recv(c, input, p, now, config))
  {
    assert Readable(c.parser);
    hide Inv, Close, Feed, Readable, Absorb;
    CloseKeeps(c, Some(RequestTimedOut));
    CloseKeeps(c, Some(ConnectionError));
    if input.Data? {
      FedIsKnown(c, input.bytes, p.judge);
      AbsorbKeeps(c, Feed(c.parser, input.bytes, p.judge), p, now, config);
    }
  }

  lemma AbsorbKeeps(c: Conn, fed: Fed, p: Parsing, now: int, config: Config)
    requires Inv(c.(parser := fed.parser)) && (fed.fault.None? ==> Known(c.(parser := fed.parser), fed.responses))
    ensures Inv(Absorb(c, fed, p, now, config))
  {
    hide Inv, Close, PopAll, Known;
    var d := c.(parser := fed.parser);
    CloseKeeps(d, Some(ProtocolError));
    CloseKeeps(d, Some(RequestTimedOut));
    if fed.fault.None? { PopAllKeeps(d, fed.responses, d.handed, p.throttle, now, config); }
  }

  lemma FireKeeps(c: Conn)
    requires Inv(c) && c.handed != []
    ensures c.handed[0] < |c.futures| && Inv(Complete(c, c.handed[0], Succeeded).(handed := c.handed[1..]))
  {
    var f := c.handed[0];
    var d := Complete(c, f, Succeeded).(handed := c.handed[1..]);
    assert !Flying(c, f);
    assert forall g :: Flying(d, g) <==> Flying(c, g);
    forall g: nat ensures g in d.handed <==> g in c.handed && g != f {
      if g in c.handed && g != f { var i :| 0 <= i < |c.handed| && c.handed[i] == g; assert d.handed[i - 1] == g; }
    }
  }

  lemma StepKeeps(c: Conn, op: Op, config: Config)
    requires Inv(c) && Enabled(c, op)
    ensures Inv(Do(c, op, config))
  {
    hide Inv, Send, SendNow, Recv, Close;
    match op
    case Connect(to) => Irrelevant(c, c.(state := to));
    case SendRequest(m, now) => SendKeeps(c, m, now, config);
    case SendInternally(m, now) => SendNowKeeps(c, m, now, config);
    case Receive(input, p, now) => RecvKeeps(c, input, p, now, config);
    case CheckTimeouts(now) => CloseKeeps(c, Some(RequestTimedOut));
    case CloseConnection(error) => CloseKeeps(c, error);
    case FireNext => FireKeeps(c);
  }

  lemma {:induction false} RunKeeps(c: Conn, ops: seq<Op>, config: Config)
    requires Inv(c) && Run(c, ops, config)
    ensures Inv(After(c, ops, config))
    decreases |ops|
  {
    hide Inv, Do, Enabled;
    if ops != [] {
      StepKeeps(c, ops[0], config);
      RunKeeps(Do(c, ops[0], config), ops[1..], config);
    }
  }

  // ---------- main theorems ----------

  /**
   After any sequence of operations each future is exactly one of in flight, handed out and completed; it
   has been completed at most once; and nothing is in flight on a disconnected connection.
   */
  lemma ExactlyOnePlace(ops: seq<Op>, config: Config, f: nat)
    requires Run(Fresh, ops, config) && f < |After(Fresh, ops, config).futures|
    ensures var c := After(Fresh, ops, config);
      && |c.futures[f]| <= 1
      && (Flying(c, f) ==> f !in c.handed && c.futures[f] == [])
      && (f in c.handed ==> c.futures[f] == [])
      && (Flying(c, f) || f in c.handed || c.futures[f] != [])
      && (c.state.Disconnected? ==> c.inFlight == map[] && !Flying(c, f))
  {
    RunKeeps(Fresh, ops, config);
  }

  /** In any run, `recv` on good data returns one future per response, that of the oldest requests, in order. */
  lemma RecvHandsOutOldest(ops: seq<Op>, config: Config, bytes: seq<Byte>, p: Parsing, now: int)
    requires Run(Fresh, ops, config)
    requires Delivers(After(Fresh, ops, config), bytes, p)
    ensures HandsOutOldest(After(Fresh, ops, config), bytes, p, now, config)
  {
    RunKeeps(Fresh, ops, config);
    RecvStepHandsOut(After(Fresh, ops, config), bytes, p, now, config);
  }

  /** However often a response could not be decoded before, `recv` can go on. */
  lemma RecvIsAlwaysPossible(ops: seq<Op>, config: Config, input: Input, p: Parsing, now: int)
    requires Run(Fresh, ops, config)
    ensures Enabled(After(Fresh, ops, config), Receive(input, p, now))
  {
    RunKeeps(Fresh, ops, config);
  }

  ghost predicate Delivers(c: Conn, bytes: seq<Byte>, p: Parsing) {
    Readable(c.parser) && CanSendRecv(c) && Feed(c.parser, bytes, p.judge).fault.None? && Feed(c.parser, bytes, p.judge).responses != []
  }

  ghost predicate HandsOutOldest(c: Conn, bytes: seq<Byte>, p: Parsing, now: int, config: Config)
    requires Readable(c.parser)
  {
    var rs, d := Feed(c.parser, bytes, p.judge).responses, Recv(c, Data(bytes), p, now, config);
    && |rs| <= |c.parser.inFlight| && d.state == c.state
    && |d.handed| == |c.handed| + |rs| && c.handed <= d.handed
    && (forall i :: 0 <= i < |rs| ==>
          c.parser.inFlight[i] in c.inFlight && d.handed[|c.handed| + i] == c.inFlight[c.parser.inFlight[i]].future)
  }

  lemma RecvStepHandsOut(c: Conn, bytes: seq<Byte>, p: Parsing, now: int, config: Config)
    requires Inv(c) && Delivers(c, bytes, p)
    ensures HandsOutOldest(c, bytes, p, now, config)
  {
    hide Feed, PopAll, Close, FutureInv;
    FedIsKnown(c, bytes, p.judge);
    AnswersInOrder(c.parser, bytes, p.judge);
    var fed := Feed(c.parser, bytes, p.judge);
    PopAllKeeps(c.(parser := fed.parser), fed.responses, c.handed, p.throttle, now, config);
    hide Inv;
    forall i | 0 <= i < |fed.responses| ensures c.parser.inFlight[i] in c.inFlight { assert fed.responses[i].id == c.parser.inFlight[i]; }
  }

  /** How many of the operations send regardless of the maximum, as the handshakes do. */
  function Internal(ops: seq<Op>): nat
    decreases |ops|
  {
    if ops == [] then 0 else (if ops[0].SendInternally? then 1 else 0) + Internal(ops[1..])
  }

  lemma {:induction false} PoppingShrinks(c: Conn, rs: seq<Response>, before: seq<nat>, throttle: Response -> nat, now: int, config: Config)
    ensures |PopAll(c, rs, before, throttle, now, config).inFlight| <= |c.inFlight|
    decreases |rs|
  {
    if rs != [] && rs[0].id in c.inFlight {
      var id, f := rs[0].id, c.inFlight[rs[0].id].future;
      var d := c.(inFlight := c.inFlight - {id}, handed := c.handed + [f]);
      assert d.inFlight.Keys == c.inFlight.Keys - {id} && |d.inFlight| == |c.inFlight| - 1;
      PoppingShrinks(MaybeThrottle(d, throttle(rs[0]), now, config), rs[1..], before, throttle, now, config);
    }
  }

  lemma SendingGrowsByOne(c: Conn, m: Sending, now: int, config: Config)
    ensures |SendNow(c, m, now, config).inFlight| <= |c.inFlight| + 1
  {
    var id := NextId(c.correlationId);
    var one := Entry(|c.futures|, now + if m.timeoutMs == 0 then config.requestTimeoutMs else m.timeoutMs);
    assert c.inFlight[id := one].Keys == c.inFlight.Keys + {id};
  }

  lemma StepRespectsMaximum(c: Conn, op: Op, config: Config, k: nat)
    requires Enabled(c, op) && |c.inFlight| <= config.maxInFlight + k
    ensures |Do(c, op, config).inFlight| <= config.maxInFlight + k + if op.SendInternally? then 1 else 0
  {
    hide Feed, PopAll, SendNow;
    match op
    case SendRequest(m, now) => SendingGrowsByOne(Unthrottled(c, now), m, now, config);
    case SendInternally(m, now) => SendingGrowsByOne(c, m, now, config);
    case Receive(input, p, now) =>
      if input.Data? {
        var fed := Feed(c.parser, input.bytes, p.judge);
        PoppingShrinks(c.(parser := fed.parser), fed.responses, c.handed, p.throttle, now, config);
      }
    case _ =>
  }

  /** In any run, no more requests are in flight than the maximum and those that were sent regardless of it. */
  lemma {:induction false} InFlightIsBounded(c: Conn, ops: seq<Op>, config: Config, k: nat)
    requires Run(c, ops, config) && |c.inFlight| <= config.maxInFlight + k
    ensures |After(c, ops, config).inFlight| <= config.maxInFlight + k + Internal(ops)
    decreases |ops|
  {
    hide Enabled, Do;
    if ops != [] {
      StepRespectsMaximum(c, ops[0], config, k);
      InFlightIsBounded(Do(c, ops[0], config), ops[1..], config, k + if ops[0].SendInternally? then 1 else 0);
    }
  }

  /** Whatever is sent, received, closed and timed out: `send` alone never takes the number in flight above the maximum. */
  lemma SendRespectsMaximum(ops: seq<Op>, config: Config)
    requires Run(Fresh, ops, config)
    ensures |After(Fresh, ops, config).inFlight| <= config.maxInFlight + Internal(ops)
    ensures (forall i :: 0 <= i < |ops| ==> !ops[i].SendInternally?) ==> |After(Fresh, ops, config).inFlight| <= config.maxInFlight
  {
    InFlightIsBounded(Fresh, ops, config, 0);
    if forall i :: 0 <= i < |ops| ==> !ops[i].SendInternally? { NoneInternal(ops); }
  }

  lemma {:induction false} NoneInternal(ops: seq<Op>)
    requires forall i :: 0 <= i < |ops| ==> !ops[i].SendInternally?
    ensures Internal(ops) == 0
    decreases |ops|
  {
    if ops != [] {
      assert !ops[0].SendInternally?;
      NoneInternal(ops[1..]);
    }
  }

  ghost predicate Lost(c: Conn, f: nat) { f < |c.futures| && c.futures[f] == [] && f !in c.handed && !Flying(c, f) }

  lemma {:induction false} PoppedIsLost(c: Conn, rs: seq<Response>, before: seq<nat>, throttle: Response -> nat, now: int,
                                       config: Config, k: nat) returns (f: nat)
    requires Inv(c) && before <= c.handed && !c.state.Disconnected? && (k > 0 || |before| < |c.handed|)
    requires k < |rs| && rs[k].id !in c.inFlight && Known(c, rs[..k])
    ensures Lost(PopAll(c, rs, before, throttle, now, config), f)
    decreases k
  {
    hide Inv, Close;
    if k == 0 {
      f := ClosedIsLost(c, before);
    } else {
      var id := rs[0].id;
      assert rs[..k][0] == rs[0];
      var d := c.(inFlight := c.inFlight - {id}, handed := c.handed + [c.inFlight[id].future]);
      var e := MaybeThrottle(d, throttle(rs[0]), now, config);
      PoppedKeeps(c, id);
      Irrelevant(d, e);
      assert Known(e, rs[1..][..k - 1]) by {
        assert rs[..k][1..] == rs[1..][..k - 1];
      }
      f := PoppedIsLost(e, rs[1..], before, throttle, now, config, k - 1);
    }
  }

  lemma ClosedIsLost(c: Conn, before: seq<nat>) returns (f: nat)
    requires Inv(c) && before <= c.handed && |before| < |c.handed| && !c.state.Disconnected?
    ensures Lost(Close(c, Some(ConnectionError)).(handed := before), f)
  {
    f := c.handed[|before|];
    assert f in c.handed;
  }

  /**
   Against a parser out of step, where response k is the first with an unknown id: `recv` closes the connection,
   and every future is accounted for if and only if nothing had been popped before (k = 0).
   */
  lemma UnknownIdLosesWhatWasPopped(c: Conn, rs: seq<Response>, throttle: Response -> nat, now: int, config: Config, k: nat)
    requires Inv(c) && !c.state.Disconnected? && k < |rs| && rs[k].id !in c.inFlight && Known(c, rs[..k])
    ensures (forall f: nat :: !Lost(PopAll(c, rs, c.handed, throttle, now, config), f)) <==> k == 0
  {
    if k > 0 {
      var f := PoppedIsLost(c, rs, c.handed, throttle, now, config, k);
    } else {
      CloseKeeps(c, Some(ConnectionError));
    }
  }
}
