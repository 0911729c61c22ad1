/**
 When the SOCKS5 handshake does not complete (socks5_wrapper.py): what makes it raise, what makes it refuse the proxy, and
 when it goes on waiting. Together with Socks5.CompleteIffAgreed this says how every handshake ends.
 */
module Socks5Outcomes {
  import opened Wrappers
  import opened Bytes
  import opened Socks5

  predicate Given(word: Option<seq<Byte>>) { word.Some? && word.value != [] }

  /** Lengths are packed as signed bytes. */
  predicate Packable(word: Option<seq<Byte>>) { word.Some? && |word.value| <= 127 }

  predicate CanAuthenticate(c: Config) { Packable(c.username) && Packable(c.password) }

  predicate CanRequest(c: Config) { c.target.Domain? ==> |c.target.name| <= 127 }

  /** A password is offered just if both words are given and not empty; what is packed has to fit. */
  lemma MessagesMean(c: Config)
    requires ValidConfig(c)
    ensures Greeting(c) == (if Given(c.username) && Given(c.password) then [5, 1, 2] else [5, 1, 0])
    ensures Auth(c).Some? <==> CanAuthenticate(c)
    ensures !c.target.UnknownFamily? ==> (Request(c).Some? <==> CanRequest(c))
    ensures forall m: nat :: Willing(c, m) <==> (m == 0 || (m == 2 && CanAuthenticate(c))) && !c.target.UnknownFamily? && CanRequest(c)
  {
  }

  /** A reply of two bytes is there, or the stream has ended. */
  predicate Arrived(s: Stream, pos: nat) { pos <= |s.bytes| && (pos + 2 <= |s.bytes| || s.closes) }

  predicate Replies(s: Stream, pos: nat, a: int, b: int) { pos + 2 <= |s.bytes| && s.bytes[pos] == a && s.bytes[pos + 1] == b }

  /** How far the replies go that agree on a method, and accept the credentials if it asks for them. */
  function Agreed(c: Config, s: Stream): Option<nat> {
    if Replies(s, 0, 5, 0) then Some(2)
    else if Replies(s, 0, 5, 2) && CanAuthenticate(c) && Replies(s, 2, 1, 0) then Some(4)
    else None
  }

  /** A message cannot be packed: the credentials that the proxy asks for, or the name of the target. */
  predicate CannotPack(c: Config, s: Stream) {
    || (Replies(s, 0, 5, 2) && !CanAuthenticate(c))
    || (Agreed(c, s).Some? && !c.target.UnknownFamily? && !CanRequest(c))
  }

  /** The proxy offers no method that is known, does not accept the credentials, or does not grant the request with a known address type. */
  predicate Declined(c: Config, s: Stream) {
    || (Arrived(s, 0) && !Replies(s, 0, 5, 0) && !Replies(s, 0, 5, 2))
    || (Replies(s, 0, 5, 2) && CanAuthenticate(c) && Arrived(s, 2) && !Replies(s, 2, 1, 0))
    || (Agreed(c, s).Some? && c.target.UnknownFamily?)
    || (Agreed(c, s).Some? && CanRequest(c) && DeclinedFrom(s, Agreed(c, s).value))
  }

  predicate DeclinedFrom(s: Stream, pos: nat) {
    || (Arrived(s, pos) && !Replies(s, pos, 5, 0))
    || (Replies(s, pos, 5, 0) && Arrived(s, pos + 2) && !Replies(s, pos + 2, 0, 1) && !Replies(s, pos + 2, 0, 5))
  }

  lemma TakesReply(s: Stream, pos: nat)
    requires pos <= |s.bytes|
    ensures Take(s, pos, 2).Some? <==> Arrived(s, pos)
    ensures forall a: Byte, b: Byte :: Take(s, pos, 2) == Some([a, b]) <==> Replies(s, pos, a, b)
  {
    if pos + 2 <= |s.bytes| {
      var t := s.bytes[pos..pos + 2];
      assert t == [t[0], t[1]];
      forall a: Byte, b: Byte ensures t == [a, b] <==> t[0] == a && t[1] == b {}
    } else {
      assert |s.bytes[pos..]| < 2;
    }
  }

  lemma SubmitEnds(c: Config, s: Stream, pos: nat, out: seq<Byte>)
    requires ValidConfig(c) && pos <= |s.bytes|
    ensures var v := FromSubmit(c, s, pos, out);
      && (v.Raised? <==> !c.target.UnknownFamily? && !CanRequest(c))
      && (v.Refused? <==> c.target.UnknownFamily? || (CanRequest(c) && DeclinedFrom(s, pos)))
  {
    MessagesMean(c);
    TakesReply(s, pos);
    if pos + 2 <= |s.bytes| { TakesReply(s, pos + 2); }
    hide Request, Take;
  }

  /** The handshake raises just if a message cannot be packed, and refuses the proxy just if it has declined. */
  lemma EndsIff(c: Config, s: Stream)
    requires ValidConfig(c)
    ensures TheVerdict(c, s).Raised? <==> CannotPack(c, s)
    ensures TheVerdict(c, s).Refused? <==> Declined(c, s)
  {
    MessagesMean(c);
    TakesReply(s, 0);
    if |s.bytes| >= 2 {
      TakesReply(s, 2);
      SubmitEnds(c, s, 2, Greeting(c));
      if Auth(c).Some? && |s.bytes| >= 4 { SubmitEnds(c, s, 4, Greeting(c) + Auth(c).value); }
    }
    hide FromSubmit, Auth, Take, DeclinedFrom, Greeting, Willing;
  }
}
