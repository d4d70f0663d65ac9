/** The SOCKS5 handshake, sections 3 to 6 of RFC 1928, without authentication. */
module Socks {
  import opened Words
  import opened Wrappers
  import opened Streams

  datatype Outcome =
    | Tunnel
    | WrongVersion(version: Byte)
    | NoMethod
    | DomainTooLong
    | WrongReplyVersion(version: Byte)
    | Refused(code: Byte)
    | UnknownAddressType(atyp: Byte)
    | IoError

  const GREETING: Bytes := [5, 1, 0]

  function Request(host: Bytes, port: U16): Bytes
    requires |host| <= 255
  {
    [5, 1, 0, 3, |host|] + host + BigEndian(port)
  }

  // What the handshake makes of the server's bytes: the outcome and what is left unread.
  datatype Result = Result(outcome: Outcome, left: Bytes)

  function SkipBound(s: Bytes, n: nat): Result {
    if n <= |s| then Result(Tunnel, s[n..]) else Result(IoError, [])
  }

  // The reply to the request, from its version byte on.
  function ReplyResult(s: Bytes): Result {
    if |s| < 4 then Result(IoError, [])
    else if s[0] != 5 then Result(WrongReplyVersion(s[0]), s[4..])
    else if s[1] != 0 then Result(Refused(s[1]), s[4..])
    else if s[3] == 1 then SkipBound(s[4..], 6)
    else if s[3] == 3 then
      if |s| < 5 then Result(IoError, [])
      else
        var n: nat := s[4];
        SkipBound(s[5..], n + 2)
    else if s[3] == 4 then SkipBound(s[4..], 18)
    else Result(UnknownAddressType(s[3]), s[4..])
  }

  function HandshakeResult(s: Bytes, host: Bytes): Result {
    if |s| < 2 then Result(IoError, [])
    else if s[0] != 5 then Result(WrongVersion(s[0]), s[2..])
    else if s[1] == 0xFF then Result(NoMethod, s[2..])
    else if |host| > 255 then Result(DomainTooLong, s[2..])
    else ReplyResult(s[2..])
  }

  // The same when only `accepts` writes succeed: the greeting is one, the request, if it comes to that, the next.
  function ResultWithWrites(s: Bytes, host: Bytes, accepts: nat): Result {
    if accepts == 0 then Result(IoError, s)
    else if accepts == 1 && RequestSent(s, host) then Result(IoError, s[2..])
    else HandshakeResult(s, host)
  }

  // The client writes its request only once a method is chosen and the host fits.
  predicate RequestSent(s: Bytes, host: Bytes) {
    |s| >= 2 && s[0] == 5 && s[1] != 0xFF && |host| <= 255
  }

  // What the client has sent: each message whole, but for the one whose write failed.
  ghost predicate SentBy(s: Bytes, host: Bytes, port: U16, accepts: nat, before: Bytes, after: Bytes) {
    if accepts == 0 then IsPartOf(GREETING, before, after)
    else if !RequestSent(s, host) then after == before + GREETING
    else if accepts == 1 then IsPartOf(Request(host, port), before + GREETING, after)
    else after == before + GREETING + Request(host, port)
  }

  method Socks5Handshake(stream: ServerStream, host: Bytes, port: U16) returns (outcome: Outcome)
    modifies stream
    ensures Result(outcome, stream.incoming) ==
      ResultWithWrites(old(stream.incoming), host, old(stream.accepts))
    ensures SentBy(old(stream.incoming), host, port, old(stream.accepts), old(stream.sent), stream.sent)
  {
    hide ReplyResult, Request, IsPartOf;
    var ok := stream.WriteAll(GREETING);
    if !ok {
      return IoError;
    }
    var method_ := stream.ReadExact(2);
    if method_ == None {
      return IoError;
    }
    if method_.value[0] != 5 {
      return WrongVersion(method_.value[0]);
    }
    if method_.value[1] == 0xFF {
      return NoMethod;
    }
    if |host| > 255 {
      return DomainTooLong;
    }
    ok := stream.WriteAll(Request(host, port));
    if !ok {
      return IoError;
    }
    outcome := ReadReply(stream);
  }

  method ReadReply(stream: ServerStream) returns (outcome: Outcome)
    modifies stream`incoming
    ensures Result(outcome, stream.incoming) == ReplyResult(old(stream.incoming))
  {
    var header := stream.ReadExact(4);
    if header == None {
      return IoError;
    }
    if header.value[0] != 5 {
      return WrongReplyVersion(header.value[0]);
    }
    if header.value[1] != 0 {
      return Refused(header.value[1]);
    }
    var skip: Option<Bytes>;
    match header.value[3] {
      case 1 =>
        skip := stream.ReadExact(6);
      case 3 =>
        var length := stream.ReadExact(1);
        if length == None {
          return IoError;
        }
        assert stream.incoming == old(stream.incoming)[5..];
        var n: nat := length.value[0];
        skip := stream.ReadExact(n + 2);
      case 4 =>
        skip := stream.ReadExact(18);
      case _ =>
        return UnknownAddressType(header.value[3]);
    }
    outcome := if skip == None then IoError else Tunnel;
  }

  // ---- The request, read by a server ----

  // Section 4 of RFC 1928: a CONNECT request for a domain name; what follows it stays unread.
  function ParseRequest(s: Bytes): Option<(Bytes, U16, Bytes)> {
    if |s| < 5 || s[..4] != [5, 1, 0, 3] then None
    else
      var n: nat := s[4];
      if |s| < 7 + n then None
      else Some((s[5..5 + n], FromBigEndian(s[5 + n], s[6 + n]), s[7 + n..]))
  }

  /** A server reads back exactly the host and port, whatever bytes follow the request. */
  lemma RequestRoundTrip(host: Bytes, port: U16, more: Bytes)
    requires |host| <= 255
    ensures ParseRequest(Request(host, port) + more) == Some((host, port, more))
  {
    var s := Request(host, port) + more;
    assert s[..4] == [5, 1, 0, 3] && s[4] == |host|;
    assert s[5..5 + |host|] == host;
    assert s[5 + |host|] == BigEndian(port)[0] && s[6 + |host|] == BigEndian(port)[1];
    assert s[7 + |host|..] == more;
  }

  /** No request is the beginning of another: host and port are the only reading. */
  lemma RequestUnique(h1: Bytes, p1: U16, h2: Bytes, p2: U16, more1: Bytes, more2: Bytes)
    requires |h1| <= 255 && |h2| <= 255
    requires Request(h1, p1) + more1 == Request(h2, p2) + more2
    ensures h1 == h2 && p1 == p2 && more1 == more2
  {
    RequestRoundTrip(h1, p1, more1);
    RequestRoundTrip(h2, p2, more2);
  }

  // ---- The server's side ----

  // Section 5 of RFC 1928.
  datatype Address = IPv4(octets: Bytes) | Domain(name: Bytes) | IPv6(octets: Bytes)

  ghost predicate WellFormed(a: Address) {
    match a
    case IPv4(octets) => |octets| == 4
    case Domain(name) => |name| <= 255
    case IPv6(octets) => |octets| == 16
  }

  ghost function EncodeAddress(a: Address): Bytes
    requires WellFormed(a)
  {
    match a
    case IPv4(octets) => [1] + octets
    case Domain(name) => [3, |name|] + name
    case IPv6(octets) => [4] + octets
  }

  // A method choice, then a success reply, then the tunnel.
  ghost function ServerBytes(chosen: Byte, reserved: Byte, bound: Address, port: Bytes, tunnel: Bytes): Bytes
    requires WellFormed(bound) && |port| == 2
  {
    [5, chosen] + ([5, 0, reserved] + (EncodeAddress(bound) + (port + tunnel)))
  }

  lemma AddressSkipped(reserved: Byte, bound: Address, port: Bytes, tunnel: Bytes)
    requires WellFormed(bound) && |port| == 2
    ensures ReplyResult([5, 0, reserved] + (EncodeAddress(bound) + (port + tunnel))) == Result(Tunnel, tunnel)
  {
    var start: Bytes := [5, 0, reserved];
    match bound
    case IPv4(octets) =>
      Regroup(start, [1], octets, port + tunnel);
      BoundSkipped(start + [1], octets, port, tunnel);
    case Domain(name) =>
      Regroup(start, [3, |name|], name, port + tunnel);
      BoundSkipped(start + [3, |name|], name, port, tunnel);
    case IPv6(octets) =>
      Regroup(start, [4], octets, port + tunnel);
      BoundSkipped(start + [4], octets, port, tunnel);
  }

  lemma Regroup(a: Bytes, b: Bytes, c: Bytes, d: Bytes)
    ensures a + ((b + c) + d) == (a + b) + (c + d)
  {
  }

  lemma BoundSkipped(head: Bytes, address: Bytes, port: Bytes, tunnel: Bytes)
    requires |port| == 2
    ensures var s := head + (address + (port + tunnel));
      && (forall i :: 0 <= i < |head| ==> s[i] == head[i])
      && SkipBound(s[|head|..], |address| + 2) == Result(Tunnel, tunnel)
  {
    var s := head + (address + (port + tunnel));
    assert s[|head|..] == (address + port) + tunnel;
  }

  // A bound address of n bytes and its port, cut out of what follows the first h bytes.
  lemma BoundCut(s: Bytes, h: nat, n: nat)
    requires h + n + 2 <= |s|
    ensures s == s[..h] + (s[h..h + n] + (s[h + n..h + n + 2] + s[h + n + 2..]))
    ensures SkipBound(s[h..], n + 2) == Result(Tunnel, s[h + n + 2..])
  {
    assert s[h..][n + 2..] == s[h + n + 2..];
    var t := s[h + n..];
    assert t == s[h + n..h + n + 2] + s[h + n + 2..];
    assert s[h..] == s[h..h + n] + t;
  }

  lemma FixedAddressFound(s: Bytes, n: nat)
    requires |s| >= 4 && s[0] == 5 && s[1] == 0 && 4 + n + 2 <= |s|
    ensures s == [5, 0, s[2]] + (([s[3]] + s[4..4 + n]) + (s[4 + n..6 + n] + s[6 + n..]))
    ensures SkipBound(s[4..], n + 2) == Result(Tunnel, s[6 + n..])
  {
    BoundCut(s, 4, n);
    assert s[..4] == [5, 0, s[2]] + [s[3]];
    Regroup([5, 0, s[2]], [s[3]], s[4..4 + n], s[4 + n..6 + n] + s[6 + n..]);
  }

  lemma DomainFound(s: Bytes, n: nat)
    requires |s| >= 5 && s[0] == 5 && s[1] == 0 && s[3] == 3 && s[4] == n && 5 + n + 2 <= |s|
    ensures s == [5, 0, s[2]] + (([3, s[4]] + s[5..5 + n]) + (s[5 + n..7 + n] + s[7 + n..]))
    ensures SkipBound(s[5..], n + 2) == Result(Tunnel, s[7 + n..])
  {
    BoundCut(s, 5, n);
    assert s[..5] == [5, 0, s[2]] + [3, s[4]];
    Regroup([5, 0, s[2]], [3, s[4]], s[5..5 + n], s[5 + n..7 + n] + s[7 + n..]);
  }

  lemma AddressFound(s: Bytes) returns (reserved: Byte, bound: Address, port: Bytes, tunnel: Bytes)
    requires ReplyResult(s).outcome == Tunnel
    ensures WellFormed(bound) && |port| == 2
    ensures s == [5, 0, reserved] + (EncodeAddress(bound) + (port + tunnel))
    ensures ReplyResult(s).left == tunnel
  {
    reserved := s[2];
    if s[3] == 1 {
      FixedAddressFound(s, 4);
      bound, port, tunnel := IPv4(s[4..8]), s[8..10], s[10..];
    } else if s[3] == 3 {
      var n: nat := s[4];
      DomainFound(s, n);
      bound, port, tunnel := Domain(s[5..5 + n]), s[5 + n..7 + n], s[7 + n..];
    } else {
      FixedAddressFound(s, 16);
      bound, port, tunnel := IPv6(s[4..20]), s[20..22], s[22..];
    }
  }

  // Any method choice but 0xFF, a success reply, and the tunnel.
  ghost predicate IsServerStream(s: Bytes, tunnel: Bytes) {
    exists chosen: Byte, reserved: Byte, bound, port ::
      chosen != 0xFF && WellFormed(bound) && |port| == 2 && s == ServerBytes(chosen, reserved, bound, port, tunnel)
  }

  lemma SuccessReplyExactly(s: Bytes, host: Bytes, tunnel: Bytes)
    requires |host| <= 255
    ensures HandshakeResult(s, host) == Result(Tunnel, tunnel) <==> IsServerStream(s, tunnel)
    ensures IsServerStream(s, tunnel) ==> RequestSent(s, host)
  {
    if HandshakeResult(s, host) == Result(Tunnel, tunnel) {
      var reserved, bound, port, t := AddressFound(s[2..]);
      assert s == [5, s[1]] + s[2..];
      assert s == ServerBytes(s[1], reserved, bound, port, tunnel);
    }
    forall chosen: Byte, reserved: Byte, bound, port |
      chosen != 0xFF && WellFormed(bound) && |port| == 2 && s == ServerBytes(chosen, reserved, bound, port, tunnel)
      ensures HandshakeResult(s, host) == Result(Tunnel, tunnel)
    {
      assert s[2..] == [5, 0, reserved] + (EncodeAddress(bound) + (port + tunnel));
      AddressSkipped(reserved, bound, port, tunnel);
    }
  }

  /**
   For a host that fits, the handshake succeeds exactly when both its writes do and the stream is made
   of any method choice but 0xFF, a success reply with an IPv4, domain or IPv6 address, and tunnel data,
   and it leaves exactly the tunnel data unread.
   */
  lemma SucceedsExactly(s: Bytes, host: Bytes, accepts: nat, tunnel: Bytes)
    requires |host| <= 255
    ensures ResultWithWrites(s, host, accepts) == Result(Tunnel, tunnel) <==>
      accepts >= 2 && IsServerStream(s, tunnel)
  {
    SuccessReplyExactly(s, host, tunnel);
  }

  /** Once the outcome is anything but an I/O error, more server bytes change neither it nor what was consumed. */
  lemma OutcomeIsPrefixStable(s: Bytes, more: Bytes, host: Bytes, accepts: nat)
    requires ResultWithWrites(s, host, accepts).outcome != IoError
    ensures ResultWithWrites(s + more, host, accepts) ==
      Result(ResultWithWrites(s, host, accepts).outcome, ResultWithWrites(s, host, accepts).left + more)
  {
    assert (s + more)[2..] == s[2..] + more;
    if RequestSent(s, host) {
      ReplyIsPrefixStable(s[2..], more);
    }
  }

  lemma SkipIsPrefixStable(s: Bytes, more: Bytes, h: nat, n: nat)
    requires h <= |s| && SkipBound(s[h..], n).outcome == Tunnel
    ensures SkipBound((s + more)[h..], n) == Result(Tunnel, SkipBound(s[h..], n).left + more)
  {
    assert (s + more)[h..] == s[h..] + more;
    assert (s[h..] + more)[n..] == s[h..][n..] + more;
  }

  lemma ReplyIsPrefixStable(s: Bytes, more: Bytes)
    requires ReplyResult(s).outcome != IoError
    ensures ReplyResult(s + more) == Result(ReplyResult(s).outcome, ReplyResult(s).left + more)
  {
    var t := s + more;
    assert t[0] == s[0] && t[1] == s[1] && t[3] == s[3];
    assert t[4..] == s[4..] + more;
    if s[0] == 5 && s[1] == 0 {
      if s[3] == 3 {
        var n: nat := s[4];
        assert t[4] == s[4];
        SkipIsPrefixStable(s, more, 5, n + 2);
      } else if s[3] == 1 {
        SkipIsPrefixStable(s, more, 4, 6);
      } else if s[3] == 4 {
        SkipIsPrefixStable(s, more, 4, 18);
      }
    }
  }

  // ---- The other outcomes ----

  /** Every refusal in terms of the server's bytes, with what it leaves unread. */
  lemma RefusalsExactly(version: Byte, chosen: Byte, more: Bytes, host: Bytes)
    ensures version != 5 ==> HandshakeResult([version, chosen] + more, host) == Result(WrongVersion(version), more)
    ensures HandshakeResult([5, 255] + more, host) == Result(NoMethod, more)
    ensures chosen != 255 && |host| > 255 ==>
      HandshakeResult([5, chosen] + more, host) == Result(DomainTooLong, more)
  {
    assert ([version, chosen] + more)[2..] == more;
    assert ([5, 255] + more)[2..] == more;
    assert ([5, chosen] + more)[2..] == more;
  }

  lemma ReplyRefusalsExactly(chosen: Byte, version: Byte, code: Byte, reserved: Byte, atyp: Byte, more: Bytes, host: Bytes)
    requires chosen != 255 && |host| <= 255
    ensures version != 5 ==>
      HandshakeResult([5, chosen, version, code, reserved, atyp] + more, host) == Result(WrongReplyVersion(version), more)
    ensures code != 0 ==>
      HandshakeResult([5, chosen, 5, code, reserved, atyp] + more, host) == Result(Refused(code), more)
    ensures atyp != 1 && atyp != 3 && atyp != 4 ==>
      HandshakeResult([5, chosen, 5, 0, reserved, atyp] + more, host) == Result(UnknownAddressType(atyp), more)
  {
    ReplyRefusal(chosen, [version, code, reserved, atyp], more);
    ReplyRefusal(chosen, [5, code, reserved, atyp], more);
    ReplyRefusal(chosen, [5, 0, reserved, atyp], more);
  }

  lemma ReplyRefusal(chosen: Byte, head: Bytes, more: Bytes)
    requires |head| == 4
    ensures ([5, chosen, head[0], head[1], head[2], head[3]] + more)[2..] == head + more
    ensures (head + more)[4..] == more && forall i :: 0 <= i < 4 ==> (head + more)[i] == head[i]
  {
  }

  /** The request is written exactly after a method choice other than 0xFF, for a host that fits. */
  lemma RequestSentExactly(version: Byte, chosen: Byte, more: Bytes, host: Bytes)
    ensures RequestSent([version, chosen] + more, host) <==> version == 5 && chosen != 255 && |host| <= 255
    ensures !RequestSent([version], host) && !RequestSent([], host)
  {
  }

  // A server that stops within its method choice or its reply's first four bytes.
  lemma TooShortIsIoError(s: Bytes, host: Bytes)
    requires |s| < 2 || (RequestSent(s, host) && |s| < 6)
    ensures HandshakeResult(s, host) == Result(IoError, [])
  {
  }

  // ---- The greeting, read by a server ----

  // Section 3 of RFC 1928: the methods a client offers.
  function ParseGreeting(s: Bytes): Option<(Bytes, Bytes)> {
    if |s| < 2 || s[0] != 5 then None
    else
      var n: nat := s[1];
      if |s| < 2 + n then None else Some((s[2..2 + n], s[2 + n..]))
  }

  /** The greeting offers exactly the method "no authentication required". */
  lemma GreetingOffersNoAuthentication(more: Bytes)
    ensures ParseGreeting(GREETING + more) == Some(([0], more))
  {
    assert (GREETING + more)[2..3] == [0] && (GREETING + more)[3..] == more;
  }
}
