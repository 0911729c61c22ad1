/**
 The connection object (conn.py) over the functions of module Connection. The queue of handed-out futures
 belongs to the client: here it is what `Recv` returns.
 */
module BrokerConnections {
  import opened Wrappers
  import opened Bytes
  import opened Protocol
  import opened Connection

  class BrokerConnection {
    const config: Config
    var state: ConnectionState
    var inFlight: map<nat, Entry>
    var protocol: KafkaProtocol
    var throttleTime: Option<int>
    var futures: seq<seq<Outcome>>
    /** All bytes that blocking sends have written to the socket. */
    var wire: seq<Byte>

    constructor (config: Config)
      ensures Valid() && View() == Fresh && fresh(protocol) && this.config == config
      ensures protocol.bytesToSend == [] && wire == []
    {
      this.config, state, inFlight, throttleTime, futures, wire := config, Disconnected, map[], None, [], [];
      protocol := new KafkaProtocol();
    }

    function View(): Conn
      reads this, protocol
    {
      Conn(state, inFlight, protocol.View(), protocol.correlationId, throttleTime, futures, [])
    }

    /** Every request in flight has a future of its own, and the parser can go on. */
    ghost predicate Valid()
      reads this, protocol
    {
      && Readable(protocol.View())
      && (forall id :: id in inFlight ==> inFlight[id].future < |futures|)
      && (forall x, y :: x in inFlight && y in inFlight && inFlight[x].future == inFlight[y].future ==> x == y)
    }

    method Close(error: Option<Error>)
      requires Valid()
      modifies this
      ensures Valid() && View() == Connection.Close(old(View()), error) && wire == old(wire)
      ensures protocol == old(protocol) || fresh(protocol)
    {
      if state.Disconnected? { return; }
      ghost var before := View();
      protocol := new KafkaProtocol();
      var ifrs := inFlight;
      inFlight, state := map[], Disconnected;
      FailRequests(before, ifrs, if error.Some? then error.value else Cancelled);
    }

    /** The loop of `close` over the requests that were in flight. */
    method FailRequests(ghost before: Conn, ifrs: map<nat, Entry>, e: Error)
      requires ifrs == before.inFlight && futures == before.futures
      requires forall id :: id in ifrs ==> ifrs[id].future < |futures|
      requires forall x, y :: x in ifrs && y in ifrs && ifrs[x].future == ifrs[y].future ==> x == y
      modifies this`futures
      ensures futures == FailFlying(before, e)
    {
      var left := ifrs;
      NoneDone(before);
      AllDone(before);
      hide Done;
      while left != map[]
        invariant forall id :: id in left ==> id in before.inFlight && left[id] == before.inFlight[id]
        invariant |futures| == |before.futures|
        invariant forall f :: 0 <= f < |futures| ==>
          futures[f] == if Done(before, left, f) then before.futures[f] + [Failed(e)] else before.futures[f]
        decreases |left|
      {
        var id :| id in left;
        var f := left[id].future;
        OneLess(before, left, id);
        futures := futures[f := futures[f] + [Failed(e)]];
        left := left - {id};
      }
    }

    static lemma NoneDone(before: Conn)
      ensures forall f :: !Done(before, before.inFlight, f)
    {
    }

    static lemma AllDone(before: Conn)
      ensures forall f :: Done(before, map[], f) <==> Flying(before, f)
    {
    }

    /** The future has been failed: its request has left `left`. */
    static ghost predicate Done(before: Conn, left: map<nat, Entry>, f: nat) {
      exists id :: id in before.inFlight && id !in left && before.inFlight[id].future == f
    }

    static lemma OneLess(before: Conn, left: map<nat, Entry>, id: nat)
      requires forall x :: x in left ==> x in before.inFlight && left[x] == before.inFlight[x]
      requires id in left
      requires forall x, y :: x in before.inFlight && y in before.inFlight && before.inFlight[x].future == before.inFlight[y].future ==> x == y
      ensures !Done(before, left, left[id].future)
      ensures forall f :: Done(before, left - {id}, f) <==> Done(before, left, f) || f == left[id].future
      ensures |left - {id}| < |left|
    {
      var less := left - {id};
      assert less.Keys == left.Keys - {id};
      forall f: nat ensures Done(before, less, f) <==> Done(before, left, f) || f == left[id].future {
        if Done(before, left, f) {
          var x :| x in before.inFlight && x !in left && before.inFlight[x].future == f;
          assert x !in less;
        }
        assert id in before.inFlight && id !in less;
      }
    }

    method CanSendMore(now: int) returns (yes: bool)
      modifies this`throttleTime
      ensures View() == Unthrottled(old(View()), now)
      ensures yes == (ThrottleDelay(old(View()), now) == 0 && |inFlight| < config.maxInFlight)
    {
      if throttleTime.Some? {
        if throttleTime.value - now > 0 { return false; }
        throttleTime := None;
      }
      return |inFlight| < config.maxInFlight;
    }

    /** Where the frame of a request goes: behind those that wait, or with them onto the wire. A write that fails may put part of them there. */
    ghost predicate FrameGoesOut(m: Sending, waited: seq<seq<Byte>>, written: seq<Byte>)
      requires |m.message| < TWO_TO_31
      reads this, protocol
    {
      var frames := waited + [Frame(m.message)];
      if !m.blocking then protocol.bytesToSend == frames && wire == written
      else !m.writeFails ==> protocol.bytesToSend == [] && wire == written + Joined(frames)
    }

    method SendNow(m: Sending, now: int) returns (future: nat)
      requires Valid() && NextId(protocol.correlationId) !in inFlight && |m.message| < TWO_TO_31
      modifies this, protocol
      ensures Valid() && View() == Connection.SendNow(old(View()), m, now, config)
      ensures future == |old(futures)|
      ensures protocol == old(protocol) || fresh(protocol)
      ensures if CanSendRecv(old(View())) then FrameGoesOut(m, old(protocol.bytesToSend), old(wire))
              else protocol.bytesToSend == old(protocol.bytesToSend) && wire == old(wire)
    {
      hide Connection.Close;
      future := |futures|;
      if !CanSendRecv(View()) {
        futures := futures + [[Failed(NodeNotReady)]];
        return;
      }
      hide Queued;
      QueueRequest(m, now);
      if m.blocking { var _ := SendPendingRequests(m.writeFails); }
    }

    /** The section under the lock. */
    method QueueRequest(m: Sending, now: int)
      requires Valid() && NextId(protocol.correlationId) !in inFlight && |m.message| < TWO_TO_31 && CanSendRecv(View())
      modifies this`inFlight, this`futures, protocol
      ensures Valid() && View() == Queued(old(View()), m, now, config) && CanSendRecv(View())
      ensures protocol.bytesToSend == old(protocol.bytesToSend) + [Frame(m.message)]
    {
      var future := |futures|;
      ghost var before := View();
      var id := protocol.SendRequest(m.message, m.expectResponse);
      if m.expectResponse {
        futures := futures + [[]];
        inFlight := inFlight[id := Entry(future, now + if m.timeoutMs == 0 then config.requestTimeoutMs else m.timeoutMs)];
      } else {
        futures := futures + [[Succeeded]];
      }
      assert before.parser.inFlight + [] == before.parser.inFlight;
    }

    /** Everything that waits is written; a failing write closes the connection. */
    method SendPendingRequests(fails: bool) returns (ok: bool)
      requires Valid()
      modifies this, protocol
      ensures Valid() && ok == (CanSendRecv(old(View())) && !fails)
      ensures View() == if CanSendRecv(old(View())) && fails then Connection.Close(old(View()), Some(ConnectionError)) else old(View())
      ensures ok ==> protocol.bytesToSend == [] && wire == old(wire) + Joined(old(protocol.bytesToSend))
      ensures !CanSendRecv(old(View())) ==> protocol.bytesToSend == old(protocol.bytesToSend) && wire == old(wire)
      ensures protocol == old(protocol) || (fails && fresh(protocol))
    {
      hide Connection.Close;
      if !CanSendRecv(View()) { return false; }
      var data := protocol.SendBytes();
      if fails {
        Close(Some(ConnectionError));
        return false;
      }
      wire := wire + data;
      return true;
    }

    method Send(m: Sending, now: int) returns (future: nat)
      requires Valid() && NextId(protocol.correlationId) !in inFlight && |m.message| < TWO_TO_31
      modifies this, protocol
      ensures Valid() && View() == Connection.Send(old(View()), m, now, config)
      ensures future == |old(futures)|
      ensures protocol == old(protocol) || fresh(protocol)
      ensures if Admits(old(View()), now, config) then FrameGoesOut(m, old(protocol.bytesToSend), old(wire))
              else protocol.bytesToSend == old(protocol.bytesToSend) && wire == old(wire)
    {
      hide Connection.SendNow;
      future := |futures|;
      if IsConnecting(View()) {
        futures := futures + [[Failed(NodeNotReady)]];
        return;
      }
      if !state.Connected? {
        futures := futures + [[Failed(ConnectionError)]];
        return;
      }
      var more := CanSendMore(now);
      if !more {
        var throttled := throttleTime.Some? && throttleTime.value - now > 0;
        futures := futures + [[Failed(if throttled then ThrottlingQuotaExceeded else TooManyInFlightRequests)]];
        return;
      }
      future := SendNow(m, now);
    }

    method MaybeThrottle(ms: nat, now: int)
      modifies this`throttleTime
      ensures View() == Connection.MaybeThrottle(old(View()), ms, now, config)
    {
      if ms == 0 {
        throttleTime := None;
      } else if config.clientThrottles {
        var t := if throttleTime.Some? then throttleTime.value else 0;
        throttleTime := Some(if now + ms > t then now + ms else t);
      }
    }

    /** The loop over the responses of one call; `ok` says that no id was unknown. */
    method PopFutures(rs: seq<Response>, throttle: Response -> nat, now: int) returns (handed: seq<nat>)
      requires Valid()
      modifies this
      ensures Valid() && View().(handed := handed) == PopAll(old(View()), rs, [], throttle, now, config)
      ensures protocol == old(protocol) || fresh(protocol)
    {
      hide Connection.Close, Connection.MaybeThrottle;
      handed := [];
      ghost var goal := PopAll(View(), rs, [], throttle, now, config);
      for i := 0 to |rs|
        invariant Valid() && protocol == old(protocol) && protocol.View() == old(protocol.View())
        invariant goal == PopAll(View().(handed := handed), rs[i..], [], throttle, now, config)
      {
        assert rs[i..][0] == rs[i] && rs[i..][1..] == rs[i + 1..];
        if rs[i].id !in inFlight {
          ghost var c := View();
          CloseIgnoresHanded(c, handed);
          Close(Some(ConnectionError));
          return [];
        }
        var f := inFlight[rs[i].id].future;
        ghost var d := View().(inFlight := inFlight - {rs[i].id}, handed := handed + [f]);
        inFlight := inFlight - {rs[i].id};
        ThrottleIgnoresHanded(View(), handed + [f], throttle(rs[i]), now, config);
        MaybeThrottle(throttle(rs[i]), now);
        handed := handed + [f];
      }
    }

    static lemma CloseIgnoresHanded(c: Conn, h: seq<nat>)
      ensures Connection.Close(c.(handed := h), Some(ConnectionError)).(handed := [])
           == Connection.Close(c, Some(ConnectionError)).(handed := [])
    {
      assert forall f :: Flying(c.(handed := h), f) <==> Flying(c, f);
    }

    static lemma ThrottleIgnoresHanded(c: Conn, h: seq<nat>, ms: nat, now: int, config: Config)
      ensures Connection.MaybeThrottle(c.(handed := h), ms, now, config) == Connection.MaybeThrottle(c, ms, now, config).(handed := h)
      ensures Connection.MaybeThrottle(c, ms, now, config).parser == c.parser
    {
    }

    method RequestsTimedOut(now: int) returns (yes: bool)
      ensures yes == TimedOut(View(), now)
    {
      return exists id :: id in inFlight && inFlight[id].timeoutAt <= now;
    }

    /** `raised` is a ValueError of the parser leaving `recv`. */
    method Recv(input: Input, p: Parsing, now: int) returns (handed: seq<nat>, raised: bool)
      requires Valid()
      modifies this, protocol
      ensures Valid() && View().(handed := handed) == Connection.Recv(old(View()), input, p, now, config)
      ensures protocol == old(protocol) || fresh(protocol)
    {
      hide Connection.Close, PopAll, Feed;
      handed, raised := [], false;
      if !CanSendRecv(View()) {
        var late := RequestsTimedOut(now);
        if late { Close(Some(RequestTimedOut)); }
        return;
      }
      match input {
        case SocketError => Close(Some(ConnectionError));
        case Data(bytes) =>
          var read := protocol.ReceiveBytes(bytes, p.judge);
          match read {
            case Err(ProtocolFault) => Close(Some(ProtocolError));
            case Err(ValueFault) => raised := true;
            case Ok(responses) =>
              var late := RequestsTimedOut(now);
              if responses == [] && late {
                Close(Some(RequestTimedOut));
              } else {
                handed := PopFutures(responses, p.throttle, now);
              }
          }
      }
    }
  }
}
