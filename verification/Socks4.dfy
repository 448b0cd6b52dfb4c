/** The SOCKS4 and SOCKS4a handshake request of `local/socks/socks4.rs`. */
module Socks4 {
  import opened Prelude
  import opened Wire

  const VERSION: u8 := 4
  const NUL: u8 := 0

  datatype Command = Connect | Bind

  datatype Error =
    | UnexpectedEof
    | AddressHostInvalidEncoding
    | UnsupportedSocksVersion(version: u8)

  /** The four bytes of an IPv4 address, or the name of a host. */
  datatype Address =
    | SocketAddress(ip: Bytes, port: u16)
    | DomainNameAddress(host: Utf8, port: u16)

  datatype HandshakeRequest = HandshakeRequest(cd: Command, dst: Address, userId: Bytes) {
    predicate Valid() {
      dst.SocketAddress? ==> |dst.ip| == 4
    }
  }

  function CommandByte(c: Command): u8 {
    match c
    case Connect => 1
    case Bind => 2
  }

  function CommandOf(code: u8): Option<Command> {
    match code
    case 1 => Some(Connect)
    case 2 => Some(Bind)
    case _ => None
  }

  /** Stands in the address field for a host name: 0.0.0.255. */
  const PLACEHOLDER: Bytes := [0, 0, 0, 0xFF]

  /** Addresses 0.0.0.x with x not 0 announce a host name. */
  predicate AnnouncesHost(ip: Bytes)
    requires |ip| == 4
  {
    ip[0] == 0 && ip[1] == 0 && ip[2] == 0 && ip[3] != 0
  }

  function Write(h: HandshakeRequest): Bytes
    requires h.Valid()
  {
    match h.dst
    case SocketAddress(ip, port) =>
      [VERSION, CommandByte(h.cd)] + BigEndian(port, 2) + ip + (h.userId + [NUL])
    case DomainNameAddress(host, port) =>
      [VERSION, CommandByte(h.cd)] + BigEndian(port, 2) + PLACEHOLDER + (h.userId + [NUL]) + (host + [NUL])
  }

  function SerializedLen(h: HandshakeRequest): nat {
    1 + 1 + 2 + 4 + |h.userId| + 1 + if h.dst.DomainNameAddress? then |h.dst.host| + 1 else 0
  }

  /** What `read_until` leaves: the bytes before the first NUL and the bytes after it, if there is one. */
  function UntilNul(b: Bytes): (r: Option<(Bytes, Bytes)>)
    ensures r.Some? ==> b == r.value.0 + [NUL] + r.value.1 && NUL !in r.value.0
    ensures r.None? ==> NUL !in b
  {
    if b == [] then None
    else if b[0] == NUL then Some(([], b[1..]))
    else
      match UntilNul(b[1..])
      case None => None
      case Some((before, after)) => Some(([b[0]] + before, after))
  }

  function Read(b: Bytes): Result<(HandshakeRequest, Bytes), Error> {
    if |b| < 8 then Err(UnexpectedEof)
    else if b[0] != VERSION then Err(UnsupportedSocksVersion(b[0]))
    else
      match CommandOf(b[1])
      case None => Err(UnsupportedSocksVersion(b[1]))
      case Some(cd) =>
        var port, ip := Port(b[2..4]), b[4..8];
        match UntilNul(b[8..])
        case None => Err(UnexpectedEof)
        case Some((userId, more)) =>
          if !AnnouncesHost(ip) then Ok((HandshakeRequest(cd, SocketAddress(ip, port), userId), more))
          else
            match UntilNul(more)
            case None => Err(UnexpectedEof)
            case Some((host, rest)) =>
              if ValidUtf8(host) then Ok((HandshakeRequest(cd, DomainNameAddress(host, port), userId), rest))
              else Err(AddressHostInvalidEncoding)
  }

  /** What the format can carry. */
  predicate Carried(h: HandshakeRequest)
    requires h.Valid()
  {
    && NUL !in h.userId
    && (match h.dst
        case SocketAddress(ip, _) => !AnnouncesHost(ip)
        case DomainNameAddress(host, _) => NUL !in host)
  }

  lemma {:induction false} UntilFirstNul(before: Bytes, after: Bytes)
    requires NUL !in before
    ensures UntilNul(before + [NUL] + after) == Some((before, after))
  {
    var b := before + [NUL] + after;
    if before == [] {
      assert b[1..] == after;
    } else {
      UntilFirstNul(before[1..], after);
      assert b[1..] == before[1..] + [NUL] + after;
      assert before == [before[0]] + before[1..];
    }
  }

  /** Any message that starts as `Write` does is read by its parts. */
  lemma ReadsParts(cd: Command, port: u16, ip: Bytes, tail: Bytes)
    requires |ip| == 4
    ensures var b := [VERSION, CommandByte(cd)] + BigEndian(port, 2) + ip + tail;
      && b[2..4] == BigEndian(port, 2) && b[4..8] == ip && b[8..] == tail
      && Port(b[2..4]) == port && CommandOf(b[1]) == Some(cd) && b[0] == VERSION && |b| >= 8
  {
    var b := [VERSION, CommandByte(cd)] + BigEndian(port, 2) + ip + tail;
    hide BigEndian, Port;
    NumbersReadBack(port, 0, 0);
    assert b[2..4] == BigEndian(port, 2);
  }

  lemma CarriedReadsBack(h: HandshakeRequest, rest: Bytes)
    requires h.Valid() && Carried(h)
    ensures Read(Write(h) + rest) == Ok((h, rest))
  {
    hide BigEndian, Port, ValidUtf8;
    match h.dst
    case SocketAddress(ip, port) =>
      var tail := h.userId + [NUL] + rest;
      assert Write(h) + rest == [VERSION, CommandByte(h.cd)] + BigEndian(port, 2) + ip + tail;
      ReadsParts(h.cd, port, ip, tail);
      UntilFirstNul(h.userId, rest);
    case DomainNameAddress(host, port) =>
      var more := host + [NUL] + rest;
      var tail := h.userId + [NUL] + more;
      assert Write(h) + rest == [VERSION, CommandByte(h.cd)] + BigEndian(port, 2) + PLACEHOLDER + tail;
      ReadsParts(h.cd, port, PLACEHOLDER, tail);
      UntilFirstNul(h.userId, more);
      UntilFirstNul(host, rest);
  }

  /** Whatever is read has a form the format can carry. */
  lemma ReadIsCarried(b: Bytes)
    requires Read(b).Ok?
    ensures Read(b).value.0.Valid() && Carried(Read(b).value.0)
  {
    hide Port, ValidUtf8;
  }

  lemma WrittenLength(h: HandshakeRequest)
    requires h.Valid()
    ensures |Write(h)| == SerializedLen(h)
  {
    hide BigEndian;
  }

  /** Printing and then parsing, whatever bytes follow, gives the request and exactly those bytes if and only
      if neither the user id nor the host contains NUL and an IPv4 destination is not 0.0.0.x with x not 0. */
  lemma HandshakeReadsBack(h: HandshakeRequest, rest: Bytes)
    requires h.Valid()
    ensures |Write(h)| == SerializedLen(h)
    ensures Read(Write(h) + rest) == Ok((h, rest)) <==> Carried(h)
  {
    WrittenLength(h);
    hide Read, Write;
    if Carried(h) {
      CarriedReadsBack(h, rest);
    }
    if Read(Write(h) + rest) == Ok((h, rest)) {
      ReadIsCarried(Write(h) + rest);
    }
  }

  // ------------------------------------------------------------------ reader and writer

  /** `read_until`: appends the bytes up to and including the first NUL, or all bytes if there is none. */
  method ReadUntilNul(r: Reader) returns (data: Bytes)
    modifies r
    ensures UntilNul(old(r.rest)).Some? ==>
      data == UntilNul(old(r.rest)).value.0 + [NUL] && r.rest == UntilNul(old(r.rest)).value.1
    ensures UntilNul(old(r.rest)).None? ==> data == old(r.rest)
  {
    data := [];
    ghost var b := r.rest;
    while r.rest != []
      invariant b == data + r.rest && NUL !in data
      decreases |r.rest|
    {
      var next := r.rest[0];
      r.rest := r.rest[1..];
      if next == NUL {
        assert b == data + [NUL] + r.rest;
        UntilFirstNul(data, r.rest);
        data := data + [NUL];
        return;
      }
      data := data + [next];
    }
    assert b == data;
  }

  method ReadFrom(r: Reader) returns (result: Result<HandshakeRequest, Error>)
    modifies r
    ensures result.Ok? ==> Read(old(r.rest)) == Ok((result.value, r.rest))
    ensures result.Err? ==> Read(old(r.rest)) == Err(result.error)
  {
    hide Port, ValidUtf8;
    ghost var b := r.rest;
    var buf := r.ReadExact(8);
    if buf.None? {
      return Err(UnexpectedEof);
    }
    if buf.value[0] != VERSION {
      return Err(UnsupportedSocksVersion(buf.value[0]));
    }
    var command := CommandOf(buf.value[1]);
    if command.None? {
      return Err(UnsupportedSocksVersion(buf.value[1]));
    }
    assert buf.value[2..4] == b[2..4] && buf.value[4..8] == b[4..8];
    var port, ip := Port(buf.value[2..4]), buf.value[4..8];
    var userId := ReadUntilNul(r);
    if userId == [] || userId[|userId| - 1] != NUL {
      return Err(UnexpectedEof);
    }
    userId := userId[..|userId| - 1];
    if AnnouncesHost(ip) {
      var host := ReadUntilNul(r);
      if host == [] || host[|host| - 1] != NUL {
        return Err(UnexpectedEof);
      }
      host := host[..|host| - 1];
      if !ValidUtf8(host) {
        return Err(AddressHostInvalidEncoding);
      }
      return Ok(HandshakeRequest(command.value, DomainNameAddress(host, port), userId));
    }
    return Ok(HandshakeRequest(command.value, SocketAddress(ip, port), userId));
  }

  method WriteTo(h: HandshakeRequest, buf: Buffer)
    requires h.Valid()
    modifies buf
    ensures buf.bytes == old(buf.bytes) + Write(h)
  {
    hide BigEndian;
    ghost var start := buf.bytes;
    buf.Put([VERSION, CommandByte(h.cd)]);
    buf.Put(BigEndian(h.dst.port, 2));
    buf.Put(if h.dst.SocketAddress? then h.dst.ip else PLACEHOLDER);
    buf.Put(h.userId + [NUL]);
    if h.dst.DomainNameAddress? {
      buf.Put(h.dst.host + [NUL]);
    }
    assert buf.bytes == start + Write(h);
  }
}
