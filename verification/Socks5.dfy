/**
 The SOCKS5 handshake of `Socks5Wrapper` (socks5_wrapper.py): a resumable state machine over a non-blocking
 socket, proved to come to the verdict that the proxy's bytes determine, however they are chunked.
 */
module Socks5 {
  import opened Wrappers
  import opened Bytes

  datatype State =
    | Disconnected
    | Connecting
    | NegotiatePropose
    | Negotiating
    | Authenticating
    | RequestSubmit
    | Requesting
    | ReadAddress
    | Complete

  /** The target as `connect_ex` is given it: a name for remote lookup, or a packed address of its family. */
  datatype Target = Domain(name: seq<Byte>) | Ipv4(address: seq<Byte>) | Ipv6(address: seq<Byte>) | UnknownFamily

  datatype Config = Config(username: Option<seq<Byte>>, password: Option<seq<Byte>>, target: Target, port: nat)

  predicate ValidConfig(c: Config) {
    && c.port < 0x1_0000
    && (c.target.Ipv4? ==> |c.target.address| == 4)
    && (c.target.Ipv6? ==> |c.target.address| == 16)
  }

  /** All the bytes the proxy sends, and whether it closes the connection behind them. */
  datatype Stream = Stream(bytes: seq<Byte>, closes: bool)

  /** How the handshake ends: the bytes of the stream taken, and all the bytes sent. */
  datatype Verdict =
    | Waiting
    | Refused(consumed: nat, sent: seq<Byte>)
    | Raised(consumed: nat, sent: seq<Byte>)
    | Done(consumed: nat, sent: seq<Byte>)

  // ---------- messages ----------

  predicate OffersPassword(c: Config) { c.username.Some? && c.username.value != [] && c.password.Some? && c.password.value != [] }

  function Greeting(c: Config): seq<Byte> { [5, 1, if OffersPassword(c) then 2 else 0] }

  /** A length is packed as a signed byte: above 127 it raises, as do missing credentials. */
  function Auth(c: Config): Option<seq<Byte>> {
    if c.username.None? || c.password.None? || |c.username.value| > 127 || |c.password.value| > 127 then None
    else Some([1, |c.username.value|] + c.username.value + [|c.password.value|] + c.password.value)
  }

  function Port(p: nat): (r: seq<Byte>)
    requires p < 0x1_0000
    ensures |r| == 2
  {
    [p / 256, p % 256]
  }

  function Request(c: Config): Option<seq<Byte>>
    requires ValidConfig(c) && !c.target.UnknownFamily?
  {
    match c.target
    case Domain(name) => if |name| > 127 then None else Some([5, 1, 0, 3] + [|name|] + name + Port(c.port))
    case Ipv4(a) => Some([5, 1, 0, 1] + a + Port(c.port))
    case Ipv6(a) => Some([5, 1, 0, 4] + a + Port(c.port))
  }

  // ---------- the verdict, on the whole stream ----------

  /** n bytes from pos; fewer only where the stream ends; None when they never come. */
  function Take(s: Stream, pos: nat, n: nat): Option<seq<Byte>>
    requires pos <= |s.bytes|
  {
    if pos + n <= |s.bytes| then Some(s.bytes[pos..pos + n])
    else if s.closes then Some(s.bytes[pos..])
    else None
  }

  function FromNegotiating(c: Config, s: Stream, pos: nat, out: seq<Byte>): Verdict
    requires ValidConfig(c) && pos <= |s.bytes|
  {
    match Take(s, pos, 2)
    case None => Waiting
    case Some(b) =>
      if !([5] <= b) then Refused(pos + |b|, out)
      else if b == [5, 0] then FromSubmit(c, s, pos + 2, out)
      else if b == [5, 2] then
        match Auth(c)
        case None => Raised(pos + 2, out)
        case Some(auth) => FromAuthenticating(c, s, pos + 2, out + auth)
      else Refused(pos + |b|, out)
  }

  function FromAuthenticating(c: Config, s: Stream, pos: nat, out: seq<Byte>): Verdict
    requires ValidConfig(c) && pos <= |s.bytes|
  {
    match Take(s, pos, 2)
    case None => Waiting
    case Some(b) => if b == [1, 0] then FromSubmit(c, s, pos + 2, out) else Refused(pos + |b|, out)
  }

  function FromSubmit(c: Config, s: Stream, pos: nat, out: seq<Byte>): Verdict
    requires ValidConfig(c) && pos <= |s.bytes|
  {
    if c.target.UnknownFamily? then Refused(pos, out)
    else
      match Request(c)
      case None => Raised(pos, out)
      case Some(request) => FromRequesting(c, s, pos, out + request)
  }

  function FromRequesting(c: Config, s: Stream, pos: nat, out: seq<Byte>): Verdict
    requires ValidConfig(c) && pos <= |s.bytes|
  {
    match Take(s, pos, 2)
    case None => Waiting
    case Some(b) => if b == [5, 0] then FromReadAddress(s, pos + 2, out) else Refused(pos + |b|, out)
  }

  /** The address type is only looked at, then read with what follows; type 5 stands where RFC 1928 has 4. */
  function FromReadAddress(s: Stream, pos: nat, out: seq<Byte>): Verdict
    requires pos <= |s.bytes|
  {
    match Take(s, pos, 2)
    case None => Waiting
    case Some(b) =>
      if b == [0, 1] || b == [0, 5] then
        match Take(s, pos, if b == [0, 1] then 8 else 20)
        case None => Waiting
        case Some(a) => Done(pos + |a|, out)
      else Refused(pos, out)
  }

  function TheVerdict(c: Config, s: Stream): Verdict
    requires ValidConfig(c)
  {
    FromNegotiating(c, s, 0, Greeting(c))
  }

  /** The verdict from any point of the handshake: `pos` bytes have been taken, `out` has been sent or waits in the buffer. */
  function From(state: State, c: Config, s: Stream, pos: nat, out: seq<Byte>): Verdict
    requires ValidConfig(c) && pos <= |s.bytes|
  {
    match state
    case Disconnected => FromNegotiating(c, s, pos, out + Greeting(c))
    case Connecting => FromNegotiating(c, s, pos, out + Greeting(c))
    case NegotiatePropose => FromNegotiating(c, s, pos, out + Greeting(c))
    case Negotiating => FromNegotiating(c, s, pos, out)
    case Authenticating => FromAuthenticating(c, s, pos, out)
    case RequestSubmit => FromSubmit(c, s, pos, out)
    case Requesting => FromRequesting(c, s, pos, out)
    case ReadAddress => FromReadAddress(s, pos, out)
    case Complete => Done(pos, out)
  }

  /** Each reply read to its end moves on by two bytes at least. */
  lemma TakesTwo(c: Config, s: Stream, pos: nat)
    requires ValidConfig(c) && pos <= |s.bytes|
    ensures forall out :: AtLeast(FromReadAddress(s, pos, out), pos + 2) && AtLeast(FromRequesting(c, s, pos, out), pos + 2)
    ensures forall out :: AtLeast(FromSubmit(c, s, pos, out), pos + 2) && AtLeast(FromAuthenticating(c, s, pos, out), pos + 2)
    ensures forall out :: AtLeast(FromNegotiating(c, s, pos, out), pos + 2)
  {
  }

  predicate AtLeast(v: Verdict, n: nat) { v.Done? ==> n <= v.consumed }

  // ---------- what the verdict means ----------

  /** What the proxy says up to the address when it chooses method m and agrees to everything. */
  function Agreement(m: nat): seq<Byte> { if m == 2 then [5, 2, 1, 0, 5, 0] else [5, 0, 5, 0] }

  /** All that the client sends when the proxy chooses method m. */
  function AllSent(c: Config, m: nat): seq<Byte>
    requires ValidConfig(c) && Willing(c, m)
  {
    Greeting(c) + (if m == 2 then Auth(c).value else []) + Request(c).value
  }

  predicate Willing(c: Config, m: nat)
    requires ValidConfig(c)
  {
    (m == 0 || (m == 2 && Auth(c).Some?)) && !c.target.UnknownFamily? && Request(c).Some?
  }

  /** The address and port behind it: 4 + 2 bytes for type 1, 16 + 2 for what the code calls type 5. */
  function ReplyLength(head: seq<Byte>): nat { if head == [0, 1] then 8 else 20 }

  /** The handshake succeeds: method m is agreed on, the reply is `n` bytes long, all of it there unless the proxy hung up in it. */
  ghost predicate Succeeds(c: Config, s: Stream, m: nat, n: nat, out: seq<Byte>)
    requires ValidConfig(c)
  {
    var k := |Agreement(m)|;
    && Willing(c, m) && out == AllSent(c, m)
    && Agreement(m) <= s.bytes && k + 2 <= |s.bytes|
    && s.bytes[k..k + 2] in {[0, 1], [0, 5]}
    && var whole := k + ReplyLength(s.bytes[k..k + 2]);
       if whole <= |s.bytes| then n == whole else s.closes && n == |s.bytes|
  }

  lemma AddressMeans(s: Stream, pos: nat, out: seq<Byte>, n: nat)
    requires pos <= |s.bytes|
    ensures FromReadAddress(s, pos, out) == Done(n, out) <==>
      && pos + 2 <= |s.bytes| && s.bytes[pos..pos + 2] in {[0, 1], [0, 5]}
      && var whole := pos + ReplyLength(s.bytes[pos..pos + 2]);
         if whole <= |s.bytes| then n == whole else s.closes && n == |s.bytes|
    ensures FromReadAddress(s, pos, out).Done? ==> FromReadAddress(s, pos, out).sent == out
  {
  }

  lemma RequestMeans(c: Config, s: Stream, pos: nat, out: seq<Byte>, n: nat, all: seq<Byte>)
    requires ValidConfig(c) && pos <= |s.bytes|
    ensures FromSubmit(c, s, pos, out) == Done(n, all) <==>
      && !c.target.UnknownFamily? && Request(c).Some? && all == out + Request(c).value
      && pos + 2 <= |s.bytes| && s.bytes[pos..pos + 2] == [5, 0] && FromReadAddress(s, pos + 2, all) == Done(n, all)
  {
    hide FromReadAddress, Request;
    if !c.target.UnknownFamily? && Request(c).Some? && pos + 2 <= |s.bytes| {
      AddressMeans(s, pos + 2, out + Request(c).value, n);
    }
    if pos + 2 > |s.bytes| && s.closes { assert |s.bytes[pos..]| < 2; }
  }

  lemma AgreementSplits(b: seq<Byte>)
    ensures Agreement(0) <= b <==> |b| >= 4 && b[0..2] == [5, 0] && b[2..4] == [5, 0]
    ensures Agreement(2) <= b <==> |b| >= 6 && b[0..2] == [5, 2] && b[2..4] == [1, 0] && b[4..6] == [5, 0]
  {
    if |b| >= 4 && b[0..2] == [5, 0] && b[2..4] == [5, 0] { assert b[..4] == b[0..2] + b[2..4]; }
    if |b| >= 6 && b[0..2] == [5, 2] && b[2..4] == [1, 0] && b[4..6] == [5, 0] { assert b[..6] == b[0..2] + b[2..4] + b[4..6]; }
  }

  /**
   The handshake ends in COMPLETE if and only if the proxy agreed throughout. Then greeting, authentication (iff
   chosen) and request have been sent once each, in this order, and the replies have been taken to the last
   byte; fewer bytes have been taken only when the proxy closed the connection inside the address.
   */
  lemma CompleteIffAgreed(c: Config, s: Stream, n: nat, out: seq<Byte>)
    requires ValidConfig(c)
    ensures TheVerdict(c, s) == Done(n, out) <==> Succeeds(c, s, 0, n, out) || Succeeds(c, s, 2, n, out)
  {
    hide FromSubmit, Auth, Request, FromReadAddress;
    AgreementSplits(s.bytes);
    var b := if |s.bytes| >= 2 then s.bytes[0..2] else s.bytes[0..];
    if b == [5, 0] {
      assert Greeting(c) + [] == Greeting(c);
      SubmitMeans(c, s, 0, 2, Greeting(c), n, out);
    } else if b == [5, 2] {
      if Auth(c).Some? && |s.bytes| >= 4 && s.bytes[2..4] == [1, 0] {
        SubmitMeans(c, s, 2, 4, Greeting(c) + Auth(c).value, n, out);
      }
      if |s.bytes| < 4 { assert |s.bytes[2..]| < 2; }
    }
  }

  lemma SubmitMeans(c: Config, s: Stream, m: nat, pos: nat, opening: seq<Byte>, n: nat, out: seq<Byte>)
    requires ValidConfig(c) && pos <= |s.bytes| && pos + 2 == |Agreement(m)| && (m == 0 || (m == 2 && Auth(c).Some?))
    requires opening == Greeting(c) + (if m == 2 then Auth(c).value else [])
    requires Agreement(m) <= s.bytes <==> pos + 2 <= |s.bytes| && s.bytes[pos..pos + 2] == [5, 0]
    ensures FromSubmit(c, s, pos, opening) == Done(n, out) <==> Succeeds(c, s, m, n, out)
  {
    hide FromReadAddress, FromSubmit, Auth, Request;
    RequestMeans(c, s, pos, opening, n, out);
    if pos + 2 <= |s.bytes| { AddressMeans(s, pos + 2, out, n); }
  }

  /** A proxy that hangs up behind the address type: the handshake completes on a reply that is cut short. */
  lemma ShortReplyCompletes()
    ensures var c := Config(None, None, Ipv4([10, 0, 0, 1]), 80);
      TheVerdict(c, Stream([5, 0, 5, 0, 0, 1], true)) == Done(6, [5, 1, 0] + [5, 1, 0, 1, 10, 0, 0, 1, 0, 80])
  {
    var c, s := Config(None, None, Ipv4([10, 0, 0, 1]), 80), Stream([5, 0, 5, 0, 0, 1], true);
    var out := [5, 1, 0] + [5, 1, 0, 1, 10, 0, 0, 1, 0, 80];
    assert AllSent(c, 0) == out;
    assert s.bytes[..4] == Agreement(0) && s.bytes[4..6] == [0, 1];
    assert Succeeds(c, s, 0, 6, out);
    CompleteIffAgreed(c, s, 6, out);
  }

  // ---------- the bytes behind the replies ----------

  lemma TakeAgain(b: seq<Byte>, more: seq<Byte>, closes: bool, pos: nat, n: nat)
    requires pos <= |b| && Take(Stream(b, false), pos, n).Some?
    ensures Take(Stream(b + more, closes), pos, n) == Take(Stream(b, false), pos, n)
  {
    assert (b + more)[pos..pos + n] == b[pos..pos + n];
  }

  lemma AddressAgain(b: seq<Byte>, more: seq<Byte>, closes: bool, pos: nat, out: seq<Byte>)
    requires pos <= |b|
    ensures !FromReadAddress(Stream(b, false), pos, out).Waiting? ==>
              FromReadAddress(Stream(b + more, closes), pos, out) == FromReadAddress(Stream(b, false), pos, out)
  {
    if pos + 2 <= |b| { TakeAgain(b, more, closes, pos, 2); }
    if pos + 8 <= |b| { TakeAgain(b, more, closes, pos, 8); }
    if pos + 20 <= |b| { TakeAgain(b, more, closes, pos, 20); }
  }

  lemma RequestAgain(c: Config, b: seq<Byte>, more: seq<Byte>, closes: bool, pos: nat, out: seq<Byte>)
    requires ValidConfig(c) && pos <= |b|
    ensures !FromSubmit(c, Stream(b, false), pos, out).Waiting? ==>
              FromSubmit(c, Stream(b + more, closes), pos, out) == FromSubmit(c, Stream(b, false), pos, out)
  {
    hide FromReadAddress, Request;
    if pos + 2 <= |b| {
      TakeAgain(b, more, closes, pos, 2);
      if !c.target.UnknownFamily? && Request(c).Some? { AddressAgain(b, more, closes, pos + 2, out + Request(c).value); }
    }
  }

  /** Once the bytes received so far decide, nothing that follows them matters. */
  lemma MoreBytesDoNotMatter(c: Config, b: seq<Byte>, more: seq<Byte>, closes: bool)
    requires ValidConfig(c) && !TheVerdict(c, Stream(b, false)).Waiting?
    ensures TheVerdict(c, Stream(b + more, closes)) == TheVerdict(c, Stream(b, false))
  {
    hide FromSubmit, Auth;
    TakeAgain(b, more, closes, 0, 2);
    RequestAgain(c, b, more, closes, 2, Greeting(c));
    if |b| >= 4 {
      TakeAgain(b, more, closes, 2, 2);
      if Auth(c).Some? { RequestAgain(c, b, more, closes, 4, Greeting(c) + Auth(c).value); }
    }
  }

  /** The end of the reply to an agreement on method m. */
  function ReplyEnd(s: Stream, m: nat): nat
    requires |Agreement(m)| + 2 <= |s.bytes|
  {
    var k := |Agreement(m)|;
    k + ReplyLength(s.bytes[k..k + 2])
  }

  /**
   A handshake that succeeds has taken just the bytes that decide it, and not one more, if and only if it has
   taken the whole reply: the only other case is a reply cut short by the end of the stream.
   */
  lemma NotOneByteMore(c: Config, s: Stream, m: nat, n: nat, out: seq<Byte>)
    requires ValidConfig(c) && Succeeds(c, s, m, n, out)
    ensures n <= |s.bytes| && n <= ReplyEnd(s, m)
    ensures TheVerdict(c, Stream(s.bytes[..n], false)) == Done(n, out) <==> n == ReplyEnd(s, m)
  {
    hide TheVerdict, AllSent, Willing;
    var t, k := Stream(s.bytes[..n], false), |Agreement(m)|;
    assert n >= k + 2;
    SlicesStay(s.bytes, k, n);
    CompleteIffAgreed(c, t, n, out);
    if n == ReplyEnd(s, m) {
      assert Agreement(m) == t.bytes[..k] && Agreement(m) <= t.bytes;
      assert Succeeds(c, t, m, n, out);
    }
    MethodIsSecond(c, s, m, n, out);
    if Succeeds(c, t, 0, n, out) { MethodIsSecond(c, t, 0, n, out); }
    if Succeeds(c, t, 2, n, out) { MethodIsSecond(c, t, 2, n, out); }
    assert t.bytes[1] == s.bytes[1] == m;
    assert TheVerdict(c, t) == Done(n, out) ==> Succeeds(c, t, m, n, out);
    assert Succeeds(c, t, m, n, out) ==> n == ReplyEnd(s, m);
  }

  lemma SlicesStay(b: seq<Byte>, k: nat, n: nat)
    requires k + 2 <= n <= |b|
    ensures b[..n][k..k + 2] == b[k..k + 2] && b[..n][..k] == b[..k]
  {
  }

  lemma MethodIsSecond(c: Config, s: Stream, m: nat, n: nat, out: seq<Byte>)
    requires ValidConfig(c) && Succeeds(c, s, m, n, out)
    ensures s.bytes[1] == m
  {
    assert s.bytes[1] == Agreement(m)[1];
  }

  /** Section 6 of RFC 1928 has address type 4 for IPv6; the code refuses it. */
  lemma TypeFourIsRefused(c: Config, s: Stream, m: nat)
    requires ValidConfig(c) && Willing(c, m) && Agreement(m) + [0, 4] <= s.bytes
    ensures TheVerdict(c, s).Refused?
  {
    hide Request, Auth;
    var k := |Agreement(m)|;
    assert Agreement(m) == s.bytes[..k] && s.bytes[k..k + 2] == [0, 4] by {
      assert (Agreement(m) + [0, 4])[k..] == s.bytes[k..k + 2];
    }
    AgreementSplits(s.bytes);
  }

  // ---------- the proxy's side ----------

  /** What a proxy reads off the bytes sent to it, by sections 3 and 4 of RFC 1928 and section 2 of RFC 1929. */
  datatype Reading = Reading(methods: seq<Byte>, credentials: Option<(seq<Byte>, seq<Byte>)>, target: Target, port: nat, rest: seq<Byte>)

  function ReadGreeting(b: seq<Byte>): Option<(seq<Byte>, seq<Byte>)> {
    if |b| < 2 || b[0] != 5 then None
    else
      var n: nat := b[1];
      if |b| < 2 + n then None else Some((b[2..2 + n], b[2 + n..]))
  }

  function ReadAuth(b: seq<Byte>): Option<(seq<Byte>, seq<Byte>, seq<Byte>)> {
    if |b| < 2 || b[0] != 1 then None
    else
      var u: nat := b[1];
      if |b| < 3 + u then None
      else
        var p: nat := b[2 + u];
        if |b| < 3 + u + p then None else Some((b[2..2 + u], b[3 + u..3 + u + p], b[3 + u + p..]))
  }

  function ReadRequest(b: seq<Byte>): Option<(Target, nat, seq<Byte>)> {
    if |b| < 5 || b[0] != 5 || b[1] != 1 || b[2] != 0 then None
    else
      var at := if b[3] == 3 then 5 else 4;
      var n: nat := if b[3] == 3 then b[4] else if b[3] == 1 then 4 else 16;
      if b[3] !in {1, 3, 4} || |b| < at + n + 2 then None
      else
        var a := b[at..at + n];
        var target := if b[3] == 3 then Domain(a) else if b[3] == 1 then Ipv4(a) else Ipv6(a);
        Some((target, b[at + n] as nat * 256 + b[at + n + 1], b[at + n + 2..]))
  }

  /** The proxy asks for credentials iff it chose method 2. */
  function Read(b: seq<Byte>, m: nat): Option<Reading> {
    match ReadGreeting(b)
    case None => None
    case Some(g) =>
      var auth := if m == 2 then ReadAuth(g.1) else Some(([], [], g.1));
      match auth
      case None => None
      case Some(a) => match ReadRequest(a.2)
        case None => None
        case Some(r) => Some(Reading(g.0, if m == 2 then Some((a.0, a.1)) else None, r.0, r.1, r.2))
  }

  lemma GreetingIsRead(c: Config, rest: seq<Byte>)
    ensures ReadGreeting(Greeting(c) + rest) == Some(([if OffersPassword(c) then 2 else 0], rest))
  {
    var b := Greeting(c) + rest;
    assert b[2..3] == [if OffersPassword(c) then 2 else 0] && b[3..] == rest;
  }

  lemma AuthIsRead(c: Config, rest: seq<Byte>)
    requires Auth(c).Some?
    ensures ReadAuth(Auth(c).value + rest) == Some((c.username.value, c.password.value, rest))
  {
    var u, p := c.username.value, c.password.value;
    var b := Auth(c).value + rest;
    assert b == [1, |u|] + (u + ([|p|] + (p + rest)));
    assert b[2..2 + |u|] == u && b[2 + |u|] == |p|;
    assert b[3 + |u|..] == p + rest;
    assert b[3 + |u|..3 + |u| + |p|] == p && b[3 + |u| + |p|..] == rest;
  }

  lemma RequestIsRead(c: Config)
    requires ValidConfig(c) && !c.target.UnknownFamily? && Request(c).Some?
    ensures ReadRequest(Request(c).value) == Some((c.target, c.port, []))
  {
    var b := Request(c).value;
    match c.target
    case Domain(name) =>
      assert b == [5, 1, 0, 3, |name|] + name + Port(c.port);
      assert b[5..5 + |name|] == name && b[5 + |name|..] == Port(c.port);
      assert b[3] == 3 && b[4] == |name| && b[5 + |name| + 2..] == [];
      assert b[5 + |name|] == c.port / 256 && b[5 + |name| + 1] == c.port % 256;
    case Ipv4(a) => assert b[4..8] == a && b[8..] == Port(c.port) && b[3] == 1 && b[10..] == [];
    case Ipv6(a) => assert b[4..20] == a && b[20..] == Port(c.port) && b[3] == 4 && b[22..] == [];
  }

  /** A proxy that follows the RFCs reads exactly the offer, the credentials and the target, and nothing is left over. */
  lemma ProxyReadsAllSent(c: Config, m: nat)
    requires ValidConfig(c) && Willing(c, m)
    ensures Read(AllSent(c, m), m) ==
      Some(Reading([if OffersPassword(c) then 2 else 0],
                   if m == 2 then Some((c.username.value, c.password.value)) else None, c.target, c.port, []))
  {
    hide Request, Auth, ReadAuth, ReadRequest, ReadGreeting, Greeting;
    var request := Request(c).value;
    RequestIsRead(c);
    if m == 2 {
      AuthIsRead(c, request);
      assert AllSent(c, m) == Greeting(c) + (Auth(c).value + request);
      GreetingIsRead(c, Auth(c).value + request);
    } else {
      assert AllSent(c, m) == Greeting(c) + request;
      GreetingIsRead(c, request);
    }
  }

  // ---------- the socket ----------

  /** What the next system call does: makes progress by at most n bytes, blocks, or (connecting) fails. */
  datatype Io = Ready(n: nat) | Block | ConnectError

  class Socket {
    const stream: Stream
    var cursor: nat
    var sent: seq<Byte>
    var script: seq<Io>
    var closed: bool

    constructor (stream: Stream, script: seq<Io>)
      ensures this.stream == stream && this.script == script && cursor == 0 && sent == [] && !closed
    {
      this.stream, cursor, sent, this.script, closed := stream, 0, [], script, false;
    }

    method NextIo() returns (io: Io)
      modifies this`script
    {
      if script == [] { return Block; }
      io := script[0];
      script := script[1..];
    }

    method Connect() returns (io: Io)
      modifies this`script
    {
      io := NextIo();
    }

    /** None is EWOULDBLOCK. */
    method Send(data: seq<Byte>) returns (n: Option<nat>)
      requires data != []
      modifies this`script, this`sent
      ensures match n
        case None => sent == old(sent)
        case Some(k) => 0 < k <= |data| && sent == old(sent) + data[..k]
    {
      var io := NextIo();
      if !io.Ready? { return None; }
      var k := if io.n == 0 then 1 else if io.n > |data| then |data| else io.n;
      sent := sent + data[..k];
      return Some(k);
    }

    method Recv(most: nat) returns (data: Option<seq<Byte>>)
      requires most > 0 && cursor <= |stream.bytes|
      modifies this`script, this`cursor
      ensures cursor <= |stream.bytes|
      ensures match data
        case None => cursor == old(cursor)
        case Some(d) => |d| <= most && cursor == old(cursor) + |d| && d == stream.bytes[old(cursor)..cursor] &&
                        (d == [] ==> stream.closes && cursor == |stream.bytes|)
    {
      var io := NextIo();
      var left := |stream.bytes| - cursor;
      if !io.Ready? || (left == 0 && !stream.closes) { return None; }
      var k := if io.n == 0 then 1 else io.n;
      k := if k > most then most else k;
      k := if k > left then left else k;
      data := Some(stream.bytes[cursor..cursor + k]);
      cursor := cursor + k;
    }

    method Close()
      modifies this`closed
      ensures closed
    {
      closed := true;
    }
  }

  // ---------- the wrapper ----------

  datatype Result = Connected | Refuses | InProgress | ConnectFailed | WouldBlock | Raises

  lemma SlicesJoin(s: seq<Byte>, a: nat, b: nat, c: nat)
    requires a <= b <= c <= |s|
    ensures s[a..b] + s[b..c] == s[a..c]
  {
  }

  /** What stands between `pos` and `cursor` answers for the next n bytes, if there are as many or no more will come. */
  lemma TakenFromBuffer(s: Stream, pos: nat, cursor: nat, n: nat)
    requires pos <= cursor <= |s.bytes| && (cursor - pos < n ==> cursor == |s.bytes| && s.closes)
    ensures var b := s.bytes[pos..cursor]; Take(s, pos, n) == Some(if n <= |b| then b[..n] else b)
  {
    var b := s.bytes[pos..cursor];
    if n <= |b| {
      var t, u := b[..n], s.bytes[pos..pos + n];
      assert |t| == |u| && forall i :: 0 <= i < n ==> t[i] == u[i];
      assert t == u;
    } else {
      assert b == s.bytes[pos..];
    }
  }

  class Socks5Wrapper {
    const config: Config
    const sock: Socket
    var state: State
    var bufferIn: seq<Byte>
    var bufferOut: seq<Byte>

    constructor (config: Config, sock: Socket)
      requires ValidConfig(config) && sock.cursor == 0 && sock.sent == []
      ensures this.config == config && this.sock == sock
      ensures Valid() && state == Disconnected
    {
      this.config, this.sock, state, bufferIn, bufferOut := config, sock, Disconnected, [], [];
      new;
      hide FromNegotiating;
      assert sock.sent + [] + Greeting(config) == Greeting(config);
    }

    function Consumed(): int
      reads this, sock
    {
      sock.cursor - |bufferIn|
    }

    ghost predicate Buffered()
      reads this, sock
    {
      && ValidConfig(config) && |bufferIn| <= sock.cursor <= |sock.stream.bytes|
      && bufferIn == sock.stream.bytes[Consumed()..sock.cursor]
    }

    /** No more has been taken off the socket than the stage asks for. */
    predicate Bounded()
      reads this
    {
      match state
      case Negotiating | Authenticating | Requesting => |bufferIn| <= 2
      case ReadAddress => |bufferIn| <= if [0, 1] <= bufferIn then 8 else if [0, 5] <= bufferIn then 20 else 2
      case _ => bufferIn == []
    }

    /** What is still to come leads to the verdict of the whole stream. */
    ghost predicate Valid()
      reads this, sock
    {
      && Buffered() && Bounded()
      && From(state, config, sock.stream, Consumed(), sock.sent + bufferOut) == TheVerdict(config, sock.stream)
      && (state in {Disconnected, Connecting, NegotiatePropose, RequestSubmit, ReadAddress, Complete} ==> bufferOut == [])
    }

    method FlushBuf() returns (blocked: bool)
      modifies this`bufferOut, sock`sent, sock`script
      ensures sock.sent + bufferOut == old(sock.sent + bufferOut)
      ensures !blocked ==> bufferOut == []
    {
      while bufferOut != []
        invariant sock.sent + bufferOut == old(sock.sent + bufferOut)
        decreases |bufferOut|
      {
        ghost var before := sock.sent + bufferOut;
        var n := sock.Send(bufferOut);
        if n.None? { return true; }
        assert before == (sock.sent + bufferOut[n.value..]);
        bufferOut := bufferOut[n.value..];
      }
      return false;
    }

    /**
     Fewer than `datalen` bytes only at the end of the stream; None is EWOULDBLOCK, what has arrived stays buffered.
     No more is received than is missing.
     */
    method PeekBuf(datalen: nat) returns (data: Option<seq<Byte>>)
      requires Buffered()
      modifies this`bufferIn, sock`cursor, sock`script
      ensures Buffered() && Consumed() == old(Consumed())
      ensures data.Some? ==> data == Take(sock.stream, Consumed(), datalen) && data.value <= bufferIn
      ensures old(bufferIn) <= bufferIn && (|bufferIn| <= datalen || bufferIn == old(bufferIn))
      ensures data.Some? && |bufferIn| <= datalen ==> data.value == bufferIn
    {
      while true
        invariant Buffered() && Consumed() == old(Consumed())
        invariant old(bufferIn) <= bufferIn && (|bufferIn| <= datalen || bufferIn == old(bufferIn))
        decreases datalen - |bufferIn|
      {
        if datalen - |bufferIn| <= 0 { break; }
        var d := sock.Recv(datalen - |bufferIn|);
        if d.None? { return None; }
        if d.value == [] { break; }
        SlicesJoin(sock.stream.bytes, Consumed() - |d.value|, sock.cursor - |d.value|, sock.cursor);
        bufferIn := bufferIn + d.value;
      }
      assert datalen > |bufferIn| ==> sock.cursor == |sock.stream.bytes| && sock.stream.closes;
      data := Some(if datalen <= |bufferIn| then bufferIn[..datalen] else bufferIn);
      TakenFromBuffer(sock.stream, Consumed(), sock.cursor, datalen);
    }

    method ReadBuf(datalen: nat) returns (data: Option<seq<Byte>>)
      requires Buffered()
      modifies this`bufferIn, sock`cursor, sock`script
      ensures Buffered()
      ensures data.None? ==> Consumed() == old(Consumed())
      ensures data.Some? ==> data == Take(sock.stream, old(Consumed()), datalen) && Consumed() == old(Consumed()) + |data.value|
      ensures |old(bufferIn)| <= datalen ==> |bufferIn| <= datalen && (data.Some? ==> bufferIn == [])
      ensures data.None? ==> old(bufferIn) <= bufferIn
    {
      data := PeekBuf(datalen);
      if data.Some? { bufferIn := bufferIn[|data.value|..]; }
    }

    method Refuse() returns (r: Result)
      modifies this`state, sock`closed
      ensures r == Refuses && sock.closed && state == Disconnected
    {
      state := Disconnected;
      sock.Close();
      return Refuses;
    }

    /** The packed messages wait in the buffer; nothing is left there from before. */
    method Propose()
      requires Valid() && state == NegotiatePropose
      modifies this`state, this`bufferOut
      ensures Valid() && state == Negotiating
    {
      hide FromNegotiating;
      assert sock.sent + [] + Greeting(config) == sock.sent + Greeting(config);
      bufferOut := [5, 1, if OffersPassword(config) then 2 else 0];
      state := Negotiating;
    }

    /** What a call that returns `r` leaves behind: the verdict on the whole stream, or a point to resume from. */
    ghost predicate Settles(r: Result)
      reads this, sock
    {
      && Buffered() && (state == Complete <==> r == Connected) && (sock.closed <==> r == Refuses)
      && var verdict := TheVerdict(config, sock.stream);
         match r
         case Connected => Valid() && bufferIn == [] && verdict == Done(sock.cursor, sock.sent)
         case Refuses => verdict == Refused(Consumed(), sock.sent)
         case Raises => verdict == Raised(Consumed(), sock.sent)
         case _ => Valid()
    }

    /** Each of the following runs one stage; None means that the stage is done and `connect_ex` goes on. */
    method Negotiate() returns (r: Option<Result>)
      requires Valid() && !sock.closed && state == Negotiating
      modifies this`state, this`bufferIn, this`bufferOut, sock`sent, sock`cursor, sock`script, sock`closed
      ensures match r
        case Some(x) => Settles(x)
        case None => Valid() && !sock.closed && state in {Authenticating, RequestSubmit}
    {
      hide FromAuthenticating, FromSubmit, Take;
      var blocked := FlushBuf();
      if blocked { return Some(WouldBlock); }
      var buf := ReadBuf(2);
      if buf.None? { return Some(WouldBlock); }
      assert sock.sent + [] == sock.sent;
      if !([5] <= buf.value) {
        var x := Refuse();
        return Some(x);
      }
      if buf.value == [5, 0] {
        state := RequestSubmit;
      } else if buf.value == [5, 2] {
        var auth := Auth(config);
        if auth.None? { return Some(Raises); }
        bufferOut := auth.value;
        state := Authenticating;
      } else {
        var x := Refuse();
        return Some(x);
      }
      return None;
    }

    method Authenticate() returns (r: Option<Result>)
      requires Valid() && !sock.closed && state == Authenticating
      modifies this`state, this`bufferIn, this`bufferOut, sock`sent, sock`cursor, sock`script, sock`closed
      ensures match r
        case Some(x) => Settles(x)
        case None => Valid() && !sock.closed && state == RequestSubmit
    {
      hide FromNegotiating, FromSubmit, Take;
      var blocked := FlushBuf();
      if blocked { return Some(WouldBlock); }
      var buf := ReadBuf(2);
      if buf.None? { return Some(WouldBlock); }
      assert sock.sent + [] == sock.sent;
      if buf.value == [1, 0] {
        state := RequestSubmit;
        return None;
      }
      var x := Refuse();
      return Some(x);
    }

    method Submit() returns (r: Option<Result>)
      requires Valid() && !sock.closed && state == RequestSubmit
      modifies this`state, this`bufferOut, sock`closed
      ensures match r
        case Some(x) => Settles(x)
        case None => Valid() && !sock.closed && state == Requesting
    {
      hide FromNegotiating, FromRequesting;
      assert sock.sent + [] == sock.sent;
      if config.target.UnknownFamily? {
        var x := Refuse();
        return Some(x);
      }
      var request := Request(config);
      if request.None? { return Some(Raises); }
      bufferOut := request.value;
      state := Requesting;
      return None;
    }

    method AwaitReply() returns (r: Option<Result>)
      requires Valid() && !sock.closed && state == Requesting
      modifies this`state, this`bufferIn, this`bufferOut, sock`sent, sock`cursor, sock`script, sock`closed
      ensures match r
        case Some(x) => Settles(x)
        case None => Valid() && !sock.closed && state == ReadAddress
    {
      hide FromNegotiating, FromReadAddress, Take;
      var blocked := FlushBuf();
      if blocked { return Some(WouldBlock); }
      var buf := ReadBuf(2);
      if buf.None? { return Some(WouldBlock); }
      assert sock.sent + [] == sock.sent;
      if buf.value == [5, 0] {
        state := ReadAddress;
        return None;
      }
      var x := Refuse();
      return Some(x);
    }

    method ClearAddress() returns (r: Option<Result>)
      requires Valid() && !sock.closed && state == ReadAddress
      modifies this`state, this`bufferIn, sock`cursor, sock`script, sock`closed
      ensures match r
        case Some(x) => Settles(x)
        case None => Valid() && !sock.closed && state == Complete
    {
      hide FromNegotiating, Take, TheVerdict;
      assert sock.sent + [] == sock.sent;
      var buf := PeekBuf(2);
      if buf.None? { return Some(WouldBlock); }
      if buf.value == [0, 1] || buf.value == [0, 5] {
        r := SkipAddress(buf.value);
        return;
      }
      var x := Refuse();
      return Some(x);
    }

    /** The address and the port behind an address type that has been looked at. */
    method SkipAddress(addressType: seq<Byte>) returns (r: Option<Result>)
      requires Valid() && !sock.closed && state == ReadAddress
      requires (addressType == [0, 1] || addressType == [0, 5]) && addressType <= bufferIn
      requires Take(sock.stream, Consumed(), 2) == Some(addressType)
      modifies this`state, this`bufferIn, sock`cursor, sock`script
      ensures match r
        case Some(x) => Settles(x)
        case None => Valid() && !sock.closed && state == Complete
    {
      hide FromNegotiating, Take, TheVerdict;
      assert sock.sent + [] == sock.sent;
      var address := ReadBuf(if addressType == [0, 1] then 2 + 4 + 2 else 2 + 16 + 2);
      if address.None? { return Some(WouldBlock); }
      state := Complete;
      return None;
    }

    /** However a call ends: a handshake that is to succeed has taken no byte off the socket that is not one of its own. */
    lemma TakesOnlyItsOwn(r: Result)
      requires Settles(r)
      ensures TheVerdict(config, sock.stream).Done? ==> sock.cursor <= TheVerdict(config, sock.stream).consumed
    {
      if Valid() { NothingReadAhead(); }
      hide Valid, TheVerdict;
    }

    lemma NothingReadAhead()
      requires Valid()
      ensures TheVerdict(config, sock.stream).Done? ==> sock.cursor <= TheVerdict(config, sock.stream).consumed
    {
      if state != ReadAddress { TakesTwo(config, sock.stream, Consumed()); }
      hide TheVerdict, FromNegotiating, FromAuthenticating, FromSubmit, FromRequesting;
    }

    lemma CompleteSettles()
      requires Valid() && !sock.closed && state == Complete
      ensures Settles(Connected)
    {
      assert sock.sent + [] == sock.sent;
    }

    /**
     One call, from whatever point the calls before have reached. The handshake succeeds or is refused with
     exactly the bytes sent and taken that the verdict on the whole stream says.
     */
    method ConnectEx() returns (r: Result)
      requires Valid() && !sock.closed
      modifies this`state, this`bufferIn, this`bufferOut, sock`sent, sock`cursor, sock`script, sock`closed
      ensures Settles(r)
    {
      hide FromNegotiating, FromAuthenticating, FromSubmit, FromRequesting, FromReadAddress, TheVerdict;
      if state == Disconnected { state := Connecting; }
      if state == Connecting {
        var io := sock.Connect();
        match io {
          case Ready(_) => state := NegotiatePropose;
          case Block => return InProgress;
          case ConnectError => return ConnectFailed;
        }
      }
      if state == NegotiatePropose { Propose(); }
      hide Settles, Valid;
      if state == Negotiating {
        var stop := Negotiate();
        if stop.Some? { return stop.value; }
      }
      if state == Authenticating {
        var stop := Authenticate();
        if stop.Some? { return stop.value; }
      }
      if state == RequestSubmit {
        var stop := Submit();
        if stop.Some? { return stop.value; }
      }
      if state == Requesting {
        var stop := AwaitReply();
        if stop.Some? { return stop.value; }
      }
      if state == ReadAddress {
        var stop := ClearAddress();
        if stop.Some? { return stop.value; }
      }
      CompleteSettles();
      return Connected;
    }
  }
}
