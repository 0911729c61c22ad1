/**
 The network protocol of one connection (protocol/parser.py): requests get correlation ids and are framed
 by their length; the bytes that come back, in whatever chunks, are cut into frames, which answer the
 requests in the order of sending. Decoding a response body is a parameter.
 */
module Protocol {
  import opened Wrappers
  import opened Bytes

  const MAX_ID := TWO_TO_31

  /** KafkaProtocolError (of which CorrelationIdError is one) is caught by the connection, ValueError is not. */
  datatype Fault = ProtocolFault | ValueFault

  datatype Response = Response(id: nat, payload: seq<Byte>)

  /** What checking the header and decoding the body of a response to request `id` raise, if anything. */
  type Judge = (nat, seq<Byte>) -> Option<Fault>

  datatype Buffer = Buffer(total: nat, staged: seq<Byte>)

  /** Between frames, or inside a frame of known length; `inFlight` are the requests that await a response. */
  datatype Parser = Parser(header: seq<Byte>, payload: Option<Buffer>, inFlight: seq<nat>)

  datatype Fed = Fed(parser: Parser, responses: seq<Response>, fault: Option<Fault>)

  predicate Resting(p: Parser) {
    match p.payload
    case None => |p.header| < 4
    case Some(b) => |p.header| == 4 && |b.staged| < b.total
  }

  /** The header of a frame that raised is still there; the next bytes are read as a frame of that length. */
  predicate Full(p: Parser) { p.payload.None? && |p.header| == 4 }

  predicate Readable(p: Parser) { Resting(p) || Full(p) }

  // ---------- one byte at a time ----------

  function Answer(p: Parser, payload: seq<Byte>, judge: Judge): (r: Fed)
    ensures |p.header| == 4 ==> Readable(r.parser) && (r.fault.None? ==> Resting(r.parser))
  {
    var q := p.(payload := None);
    if p.inFlight == [] then Fed(q, [], Some(ProtocolFault))
    else
      var id := p.inFlight[0];
      var r := q.(inFlight := p.inFlight[1..]);
      match judge(id, payload)
      case Some(f) => Fed(r, [], Some(f))
      case None => Fed(r.(header := []), [Response(id, payload)], None)
  }

  function Begin(p: Parser, judge: Judge): (r: Fed)
    requires |p.header| == 4
    ensures p.payload.None? ==> Readable(r.parser) && (r.fault.None? ==> Resting(r.parser))
  {
    var n := DecodeInt32(p.header);
    if n < 0 then Fed(p, [], Some(ValueFault))
    else if n == 0 then Answer(p, [], judge)
    else Fed(p.(payload := Some(Buffer(n, []))), [], None)
  }

  function Step(p: Parser, b: Byte, judge: Judge): (r: Fed)
    requires Resting(p)
    ensures Readable(r.parser) && (r.fault.None? ==> Resting(r.parser))
  {
    match p.payload
    case None =>
      var q := p.(header := p.header + [b]);
      if |q.header| < 4 then Fed(q, [], None) else Begin(q, judge)
    case Some(buf) =>
      var staged := buf.staged + [b];
      if |staged| == buf.total then Answer(p, staged, judge)
      else Fed(p.(payload := Some(Buffer(buf.total, staged))), [], None)
  }

  function Behind(responses: seq<Response>, f: Fed): Fed { f.(responses := responses + f.responses) }

  /** The bytes one after the other, up to the first fault. */
  function Feed(p: Parser, data: seq<Byte>, judge: Judge): (r: Fed)
    requires Readable(p)
    ensures Readable(r.parser) && (Resting(p) && r.fault.None? ==> Resting(r.parser))
    decreases |data|, if Full(p) then 1 else 0
  {
    if data == [] then Fed(p, [], None)
    else if Full(p) then
      var s := Begin(p, judge);
      if s.fault.Some? then s else Behind(s.responses, Feed(s.parser, data, judge))
    else
      var s := Step(p, data[0], judge);
      if s.fault.Some? then s else Behind(s.responses, Feed(s.parser, data[1..], judge))
  }

  /** Feeding two chunks in turn. */
  function Then(f: Fed, data: seq<Byte>, judge: Judge): Fed
    requires f.fault.None? ==> Readable(f.parser)
  {
    if f.fault.Some? then f else Behind(f.responses, Feed(f.parser, data, judge))
  }

  /** However the bytes are cut into chunks, the responses and the state of the parser are the same. */
  lemma {:induction false} ChunksDoNotMatter(p: Parser, a: seq<Byte>, b: seq<Byte>, judge: Judge)
    requires Readable(p)
    ensures var whole, parts := Feed(p, a + b, judge), Then(Feed(p, a, judge), b, judge);
      && whole.parser == parts.parser && whole.fault == parts.fault
      && (whole.fault.None? ==> whole.responses == parts.responses)
    decreases |a|, if Full(p) then 1 else 0
  {
    hide Step, Begin;
    if a == [] {
      assert a + b == b;
    } else if Full(p) {
      var s := Begin(p, judge);
      if s.fault.None? { ChunksDoNotMatter(s.parser, a, b, judge); }
    } else {
      var s := Step(p, a[0], judge);
      assert (a + b)[1..] == a[1..] + b;
      if s.fault.None? { ChunksDoNotMatter(s.parser, a[1..], b, judge); }
    }
  }

  predicate IsSuffix(t: seq<nat>, s: seq<nat>) { |t| <= |s| && t == s[|s| - |t|..] }

  /** The responses answer the oldest requests, in order, and the others stay in flight. */
  predicate Answered(before: seq<nat>, f: Fed) {
    && IsSuffix(f.parser.inFlight, before)
    && (f.fault.None? ==> |f.responses| == |before| - |f.parser.inFlight| &&
                          forall i :: 0 <= i < |f.responses| ==> f.responses[i].id == before[i])
  }

  lemma StepAnswers(p: Parser, b: Byte, judge: Judge)
    requires Resting(p)
    ensures Answered(p.inFlight, Step(p, b, judge))
  {
    hide Answer, Answered, DecodeInt32;
    NothingAnswered(p);
    NothingAnswered(p.(header := p.header + [b]));
    AnswerAnswers(p.(header := p.header + [b]), [], judge);
    if p.payload.Some? {
      var staged := p.payload.value.staged + [b];
      NothingAnswered(p.(payload := Some(Buffer(p.payload.value.total, staged))));
      AnswerAnswers(p, staged, judge);
    } else if |p.header| == 3 {
      BeginAnswers(p.(header := p.header + [b]), judge);
    }
  }

  lemma BeginAnswers(p: Parser, judge: Judge)
    requires |p.header| == 4
    ensures Answered(p.inFlight, Begin(p, judge))
  {
    hide Answer, DecodeInt32;
    AnswerAnswers(p, [], judge);
  }

  lemma AnswerAnswers(p: Parser, payload: seq<Byte>, judge: Judge)
    ensures Answered(p.inFlight, Answer(p, payload, judge))
  {
  }

  lemma AnsweredThen(before: seq<nat>, s: Fed, f: Fed)
    requires Answered(before, s) && s.fault.None? && Answered(s.parser.inFlight, f)
    ensures Answered(before, Behind(s.responses, f))
  {
  }

  lemma {:induction false} AnswersInOrder(p: Parser, data: seq<Byte>, judge: Judge)
    requires Readable(p)
    ensures Answered(p.inFlight, Feed(p, data, judge))
    decreases |data|, if Full(p) then 1 else 0
  {
    hide Step, Begin, Answered;
    if data == [] {
      NothingAnswered(p);
    } else if Full(p) {
      var s := Begin(p, judge);
      BeginAnswers(p, judge);
      if s.fault.None? {
        AnswersInOrder(s.parser, data, judge);
        AnsweredThen(p.inFlight, s, Feed(s.parser, data, judge));
      }
    } else {
      var s := Step(p, data[0], judge);
      StepAnswers(p, data[0], judge);
      if s.fault.None? {
        AnswersInOrder(s.parser, data[1..], judge);
        AnsweredThen(p.inFlight, s, Feed(s.parser, data[1..], judge));
      }
    }
  }

  lemma NothingAnswered(p: Parser)
    ensures Answered(p.inFlight, Fed(p, [], None))
  {
  }

  // ---------- framing ----------

  predicate Frameable(m: seq<Byte>) { |m| < TWO_TO_31 }

  function Frame(m: seq<Byte>): seq<Byte>
    requires |m| < TWO_TO_31
  {
    EncodeInt32(|m|) + m
  }

  function Frames(ms: seq<seq<Byte>>): seq<Byte>
    requires forall i :: 0 <= i < |ms| ==> Frameable(ms[i])
  {
    if ms == [] then [] else assert Frameable(ms[0]); Frame(ms[0]) + Frames(ms[1..])
  }

  /** Bytes that complete neither a header nor a frame. */
  lemma {:induction false} FeedPart(p: Parser, part: seq<Byte>, rest: seq<Byte>, judge: Judge)
    requires Resting(p)
    requires if p.payload.None? then |p.header| + |part| < 4 else |p.payload.value.staged| + |part| < p.payload.value.total
    ensures var q := if p.payload.None? then p.(header := p.header + part)
                     else p.(payload := Some(Buffer(p.payload.value.total, p.payload.value.staged + part)));
      Resting(q) && Feed(p, part + rest, judge) == Feed(q, rest, judge)
    decreases |part|
  {
    hide Answer, Begin;
    if part == [] {
      assert part + rest == rest;
      assert p.header + part == p.header;
      assert p.payload.Some? ==> p.payload.value.staged + part == p.payload.value.staged;
    } else {
      var s := Step(p, part[0], judge);
      assert (part + rest)[1..] == part[1..] + rest;
      FeedPart(s.parser, part[1..], rest, judge);
      assert p.header + part == (p.header + [part[0]]) + part[1..];
      assert p.payload.Some? ==> p.payload.value.staged + part == (p.payload.value.staged + [part[0]]) + part[1..];
      var f := Feed(s.parser, part[1..] + rest, judge);
      assert Behind([], f) == f;
    }
  }

  /** Bytes that complete the header. */
  lemma FeedHeader(p: Parser, part: seq<Byte>, rest: seq<Byte>, judge: Judge)
    requires Resting(p) && p.payload.None? && part != [] && |p.header| + |part| == 4
    ensures Feed(p, part + rest, judge) == Then(Begin(p.(header := p.header + part), judge), rest, judge)
  {
    var front, last := part[..|part| - 1], part[|part| - 1];
    assert part + rest == front + ([last] + rest);
    assert p.header + part == (p.header + front) + [last];
    FeedPart(p, front, [last] + rest, judge);
    assert ([last] + rest)[1..] == rest;
  }

  /** Bytes that complete the frame. */
  lemma FeedFrame(p: Parser, part: seq<Byte>, rest: seq<Byte>, judge: Judge)
    requires Resting(p) && p.payload.Some? && part != [] && |p.payload.value.staged| + |part| == p.payload.value.total
    ensures Feed(p, part + rest, judge) == Then(Answer(p, p.payload.value.staged + part, judge), rest, judge)
  {
    var front, last := part[..|part| - 1], part[|part| - 1];
    assert part + rest == front + ([last] + rest);
    assert p.payload.value.staged + part == (p.payload.value.staged + front) + [last];
    FeedPart(p, front, [last] + rest, judge);
    assert ([last] + rest)[1..] == rest;
  }

  predicate Accepts(judge: Judge, ids: seq<nat>, ms: seq<seq<Byte>>)
    requires |ms| <= |ids|
  {
    forall i :: 0 <= i < |ms| ==> judge(ids[i], ms[i]).None?
  }

  function Answers(ids: seq<nat>, ms: seq<seq<Byte>>): seq<Response>
    requires |ms| <= |ids|
  {
    seq(|ms|, i requires 0 <= i < |ms| => Response(ids[i], ms[i]))
  }

  /** One frame, from rest to rest. */
  lemma FeedOneFrame(ids: seq<nat>, m: seq<Byte>, rest: seq<Byte>, judge: Judge)
    requires Frameable(m) && ids != [] && judge(ids[0], m).None?
    ensures Feed(Parser([], None, ids), Frame(m) + rest, judge)
         == Behind([Response(ids[0], m)], Feed(Parser([], None, ids[1..]), rest, judge))
  {
    hide Feed, Frame;
    FeedOneFrameAnswers(ids, m, rest, judge);
  }

  /** Whatever is made of a frame, it is read up to its end: its length is followed by as many bytes, none of them if it is zero. */
  lemma FeedOneFrameAnswers(ids: seq<nat>, m: seq<Byte>, rest: seq<Byte>, judge: Judge)
    requires Frameable(m)
    ensures Feed(Parser([], None, ids), Frame(m) + rest, judge)
         == Then(Answer(Parser(EncodeInt32(|m|), None, ids), m, judge), rest, judge)
  {
    hide DecodeInt32, EncodeInt32, Feed, Answer;
    var p, size := Parser([], None, ids), EncodeInt32(|m|);
    DecodeEncodeInt32(|m|);
    assert Frame(m) + rest == size + (m + rest);
    assert [] + size == size;
    FeedHeader(p, size, m + rest, judge);
    if m == [] {
      assert m + rest == rest;
    } else {
      var q := Parser(size, Some(Buffer(|m|, [])), ids);
      assert [] + m == m;
      FeedFrame(q, m, rest, judge);
      AnswerClosesPayload(q, m, judge);
      Unchanged(Feed(q, m + rest, judge));
    }
  }

  /**
   A frame that is not accepted ends the reading with its fault: nothing of it is handed out, the request that it was for
   is no longer in flight, and what follows is left. Without a request in flight it is a fault of the protocol.
   */
  lemma FrameIsRefused(ids: seq<nat>, m: seq<Byte>, rest: seq<Byte>, judge: Judge, f: Fault)
    requires Frameable(m) && if ids == [] then f == ProtocolFault else judge(ids[0], m) == Some(f)
    ensures Feed(Parser([], None, ids), Frame(m) + rest, judge)
         == Fed(Parser(EncodeInt32(|m|), None, if ids == [] then [] else ids[1..]), [], Some(f))
  {
    hide Feed, Frame, EncodeInt32;
    FeedOneFrameAnswers(ids, m, rest, judge);
  }

  /** What is framed on one side is read on the other, frame by frame, each answering the oldest request left. */
  lemma {:induction false} FramesAreRead(ids: seq<nat>, ms: seq<seq<Byte>>, rest: seq<Byte>, judge: Judge)
    requires |ms| <= |ids| && (forall i :: 0 <= i < |ms| ==> Frameable(ms[i])) && Accepts(judge, ids, ms)
    ensures Feed(Parser([], None, ids), Frames(ms) + rest, judge)
         == Behind(Answers(ids, ms), Feed(Parser([], None, ids[|ms|..]), rest, judge))
    decreases |ms|
  {
    hide Feed, Frame;
    if ms == [] {
      assert [] + rest == rest && ids[0..] == ids;
      var f := Feed(Parser([], None, ids), rest, judge);
      assert Behind([], f) == f;
    } else {
      assert Frameable(ms[0]);
      var tail := Frames(ms[1..]) + rest;
      assert Frames(ms) + rest == Frame(ms[0]) + tail;
      FeedOneFrame(ids, ms[0], tail, judge);
      FramesAreRead(ids[1..], ms[1..], rest, judge);
      assert ids[1..][|ms| - 1..] == ids[|ms|..];
      assert Answers(ids, ms) == [Response(ids[0], ms[0])] + Answers(ids[1..], ms[1..]);
    }
  }

  // ---------- the parser object ----------

  lemma NoMore(judge: Judge)
    ensures forall p :: Readable(p) ==> Feed(p, [], judge) == Fed(p, [], None)
  {
  }

  lemma AnswerClosesPayload(p: Parser, payload: seq<Byte>, judge: Judge)
    ensures Answer(p, payload, judge) == Answer(p.(payload := None), payload, judge)
  {
  }

  lemma Unchanged(f: Fed)
    ensures Behind([], f) == f
  {
  }

  /** With the header of a refused frame left over, nothing of the data is taken for it. */
  lemma FeedFull(p: Parser, data: seq<Byte>, judge: Judge)
    requires Full(p) && data != []
    ensures Feed(p, data, judge) == Then(Begin(p, judge), data, judge)
  {
  }

  /** After a negative length, every further call with data raises again. */
  lemma NegativeLengthSticks(p: Parser, data: seq<Byte>, judge: Judge)
    requires Full(p) && DecodeInt32(p.header) < 0 && data != []
    ensures Feed(p, data, judge) == Fed(p, [], Some(ValueFault))
  {
    hide DecodeInt32;
  }

  /**
   After a frame whose decoding raised, as many bytes as it had are taken for the next payload, although they begin
   with the header of the next frame; what follows them is read from there.
   */
  lemma LeftoverHeaderIsUsedAgain(p: Parser, part: seq<Byte>, rest: seq<Byte>, judge: Judge)
    requires Full(p) && DecodeInt32(p.header) == |part| && part != []
    ensures Feed(p, part + rest, judge) == Then(Answer(p, part, judge), rest, judge)
  {
    hide DecodeInt32, Answer, Feed;
    var q := p.(payload := Some(Buffer(|part|, [])));
    FeedFull(p, part + rest, judge);
    FeedFrame(q, part, rest, judge);
    AnswerClosesPayload(q, part, judge);
    assert [] + part == part;
    Unchanged(Feed(q, part + rest, judge));
  }

  predicate IsEmptyFrame(p: Parser) { |p.header| == 4 && p.payload == Some(Buffer(0, [])) }

  lemma FrameIsAnswered(p: Parser, part: seq<Byte>, data: seq<Byte>, judge: Judge)
    requires Resting(p) || IsEmptyFrame(p)
    requires p.payload.Some? && |p.payload.value.staged| + |part| == p.payload.value.total
    ensures Rest(p, part + data, judge) == Then(Answer(p.(payload := None), p.payload.value.staged + part, judge), data, judge)
  {
    if part == [] {
      assert part + data == data && [] + part == [];
    } else {
      FeedFrame(p, part, data, judge);
    }
  }

  /** In the middle of the loop's body: a frame of length 0 is complete as soon as its header is. */
  function Rest(p: Parser, data: seq<Byte>, judge: Judge): Fed
    requires Resting(p) || IsEmptyFrame(p)
  {
    if Resting(p) then Feed(p, data, judge) else Then(Answer(p, [], judge), data, judge)
  }

  function NextId(id: nat): nat { (id + 1) % MAX_ID }

  class KafkaProtocol {
    var correlationId: nat
    var header: seq<Byte>
    var receiving: bool
    var size: nat
    var rbuffer: seq<Byte>
    var inFlight: seq<nat>
    var bytesToSend: seq<seq<Byte>>

    constructor ()
      ensures View() == Parser([], None, []) && correlationId == 0 && bytesToSend == []
    {
      correlationId, header, receiving, size, rbuffer, inFlight, bytesToSend := 0, [], false, 0, [], [], [];
    }

    function View(): Parser
      reads this
    {
      Parser(header, if receiving then Some(Buffer(size, rbuffer)) else None, inFlight)
    }

    /** `message` is the encoded request with its header. */
    method SendRequest(message: seq<Byte>, expectResponse: bool) returns (id: nat)
      requires |message| < TWO_TO_31
      modifies this
      ensures id == NextId(old(correlationId)) == correlationId
      ensures View() == old(View()).(inFlight := old(inFlight) + if expectResponse then [id] else [])
      ensures bytesToSend == old(bytesToSend) + [Frame(message)]
    {
      correlationId := (correlationId + 1) % MAX_ID;
      id := correlationId;
      bytesToSend := bytesToSend + [EncodeInt32(|message|) + message];
      if expectResponse { inFlight := inFlight + [id]; }
    }

    method ProcessResponse(payload: seq<Byte>, judge: Judge) returns (r: Result<Response, Fault>)
      requires !receiving
      modifies this`inFlight
      ensures var a := Answer(old(View()), payload, judge);
        && a.parser == Parser(if r.Ok? then [] else header, None, inFlight)
        && match r
           case Ok(v) => a.fault.None? && a.responses == [v]
           case Err(f) => a.fault == Some(f) && a.responses == []
    {
      if inFlight == [] { return Err(ProtocolFault); }
      var id := inFlight[0];
      inFlight := inFlight[1..];
      match judge(id, payload) {
        case Some(f) => return Err(f);
        case None => return Ok(Response(id, payload));
      }
    }

    /** The first half of the loop's body: the header, as far as the data goes. */
    method ReadHeader(data: seq<Byte>, start: nat, judge: Judge) returns (i: nat, fault: Option<Fault>)
      requires Readable(View()) && !receiving && start < |data|
      modifies this`header, this`receiving, this`size, this`rbuffer
      ensures Readable(View()) || IsEmptyFrame(View())
      ensures fault.None? ==> Resting(View()) || IsEmptyFrame(View())
      ensures fault.None? ==> (if Full(old(View())) then i == start && receiving else start < i <= |data|)
      ensures Feed(old(View()), data[start..], judge)
           == if fault.Some? then Fed(View(), [], fault) else Rest(View(), data[i..], judge)
    {
      hide Feed, Answer, DecodeInt32;
      var n := |data|;
      var bytesToRead := if 4 - |header| < n - start then 4 - |header| else n - start;
      ghost var before := View();
      ghost var part, rest := data[start..start + bytesToRead], data[start + bytesToRead..];
      assert data[start..] == part + rest;
      header := header + data[start..start + bytesToRead];
      i, fault := start + bytesToRead, None;
      if |header| == 4 {
        if Full(before) {
          assert rest == data[start..] && header == before.header;
          FeedFull(before, rest, judge);
        } else {
          FeedHeader(before, part, rest, judge);
        }
        var nbytes := DecodeInt32(header);
        if nbytes < 0 { return i, Some(ValueFault); }
        size, rbuffer, receiving := nbytes, [], true;
        Unchanged(Rest(View(), rest, judge));
        AnswerClosesPayload(View(), [], judge);
      } else {
        FeedPart(before, part, rest, judge);
      }
    }

    /** The second half: the payload, as far as the data goes, and the response once it is complete. */
    method ReadPayload(data: seq<Byte>, start: nat, judge: Judge) returns (i: nat, r: Result<seq<Response>, Fault>)
      requires receiving && (Resting(View()) || IsEmptyFrame(View())) && start <= |data|
      modifies this`header, this`receiving, this`rbuffer, this`inFlight
      ensures Readable(View())
      ensures r.Ok? ==> Resting(View()) && start <= i <= |data| && (!receiving || i == |data|)
      ensures Rest(old(View()), data[start..], judge)
           == if r.Ok? then Behind(r.value, Feed(View(), data[i..], judge)) else Fed(View(), [], Some(r.error))
    {
      hide Feed, Answer, DecodeInt32;
      var n := |data|;
      var bytesToRead := if size - |rbuffer| < n - start then size - |rbuffer| else n - start;
      ghost var before := View();
      ghost var part, rest := data[start..start + bytesToRead], data[start + bytesToRead..];
      assert data[start..] == part + rest;
      rbuffer := rbuffer + data[start..start + bytesToRead];
      i := start + bytesToRead;
      if |rbuffer| != size {
        FeedPart(before, part, rest, judge);
        Unchanged(Feed(View(), rest, judge));
        return i, Ok([]);
      }
      FrameIsAnswered(before, part, rest, judge);
      receiving := false;
      var resp := ProcessResponse(rbuffer, judge);
      if resp.Err? { return i, Err(resp.error); }
      header, receiving, rbuffer := [], false, [];
      return i, Ok([resp.value]);
    }

    /** Any amount of data, also after a fault; a fault loses the responses decoded before it in the same call. */
    method ReceiveBytes(data: seq<Byte>, judge: Judge) returns (r: Result<seq<Response>, Fault>)
      requires Readable(View())
      modifies this
      ensures Readable(View())
      ensures View() == Feed(old(View()), data, judge).parser
      ensures var fed := Feed(old(View()), data, judge);
        r == if fed.fault.Some? then Err(fed.fault.value) else Ok(fed.responses)
      ensures correlationId == old(correlationId) && bytesToSend == old(bytesToSend)
    {
      hide Feed, Answer, DecodeInt32;
      var i, n := 0, |data|;
      var responses := [];
      ghost var whole := Feed(View(), data, judge);
      NoMore(judge);
      assert data[0..] == data;
      while i < n
        invariant 0 <= i <= n && Readable(View())
        invariant whole == Behind(responses, Feed(View(), data[i..], judge))
        invariant correlationId == old(correlationId) && bytesToSend == old(bytesToSend)
        decreases n - i, Full(View()), receiving
      {
        if !receiving {
          var fault;
          i, fault := ReadHeader(data, i, judge);
          if fault.Some? { return Err(fault.value); }
        }
        if receiving {
          var read;
          i, read := ReadPayload(data, i, judge);
          if read.Err? { return Err(read.error); }
          responses := responses + read.value;
          if receiving { break; }
        }
      }
      assert data[i..] == [] && responses + [] == responses;
      assert whole == Fed(View(), responses, None);
      return Ok(responses);
    }

    method SendBytes() returns (data: seq<Byte>)
      modifies this`bytesToSend
      ensures data == Joined(old(bytesToSend)) && bytesToSend == []
    {
      data := Joined(bytesToSend);
      bytesToSend := [];
    }
  }

  function Joined(parts: seq<seq<Byte>>): seq<Byte> { if parts == [] then [] else parts[0] + Joined(parts[1..]) }

  /** What is queued and written is what the other side reads frame by frame. */
  lemma {:induction false} JoinedIsFrames(ms: seq<seq<Byte>>, queue: seq<seq<Byte>>)
    requires |queue| == |ms| && forall i :: 0 <= i < |ms| ==> Frameable(ms[i]) && queue[i] == Frame(ms[i])
    ensures Joined(queue) == Frames(ms)
    decreases |ms|
  {
    hide Frame;
    if ms != [] { JoinedIsFrames(ms[1..], queue[1..]); }
  }
}
