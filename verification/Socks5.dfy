/** SOCKS5 messages (RFC 1928, RFC 1929) of `relay/socks5.rs`. */
module Socks5 {
  import opened Prelude
  import opened Net
  import opened Wire

  const VERSION: u8 := 0x05
  const ADDR_TYPE_IPV4: u8 := 0x01
  const ADDR_TYPE_DOMAIN_NAME: u8 := 0x03
  const ADDR_TYPE_IPV6: u8 := 0x04
  const PASSWD_VERSION: u8 := 0x01

  datatype Error =
    | UnexpectedEof
    | InvalidBuf
    | AddressTypeNotSupported(atyp: u8)
    | AddressDomainInvalidEncoding
    | UnsupportedSocksVersion(version: u8)
    | UnsupportedCommand(command: u8)
    | UnsupportedPasswdAuthVersion(version: u8)
    | PasswdAuthInvalidRequest

  datatype Address =
    | V4Address(v4: u32, port: u16)
    | V6Address(v6: u128, port: u16, flow: u32, scope: u32)
    | DomainNameAddress(name: Utf8, port: u16)

  /** A value and the bytes after it. */
  type Read<T> = Result<(T, Bytes), Error>

  // ------------------------------------------------------------------ addresses

  /** What the writer asserts of a domain name. */
  predicate Writable(a: Address) {
    a.DomainNameAddress? ==> |a.name| <= 0xFF
  }

  /** Flow information and scope are not on the wire. */
  predicate Plain(a: Address) {
    a.V6Address? ==> a.flow == 0 && a.scope == 0
  }

  function WriteAddress(a: Address): Bytes
    requires Writable(a)
  {
    match a
    case V4Address(v4, port) => [ADDR_TYPE_IPV4] + BigEndian(v4, 4) + BigEndian(port, 2)
    case V6Address(v6, port, _, _) => [ADDR_TYPE_IPV6] + BigEndian(v6, 16) + BigEndian(port, 2)
    case DomainNameAddress(name, port) => [ADDR_TYPE_DOMAIN_NAME, |name|] + name + BigEndian(port, 2)
  }

  function SerializedLen(a: Address): nat {
    match a
    case V4Address(_, _) => 1 + 4 + 2
    case V6Address(_, _, _, _) => 1 + 8 * 2 + 2
    case DomainNameAddress(name, _) => 1 + 1 + |name| + 2
  }

  /** Reading from a stream. */
  function ReadAddress(b: Bytes): Read<Address> {
    if |b| < 1 then Err(UnexpectedEof)
    else if b[0] == ADDR_TYPE_IPV4 then
      if |b| < 7 then Err(UnexpectedEof)
      else Ok((V4Address(Ipv4(b[1..5]), Port(b[5..7])), b[7..]))
    else if b[0] == ADDR_TYPE_IPV6 then
      if |b| < 19 then Err(UnexpectedEof)
      else Ok((V6Address(Ipv6(b[1..17]), Port(b[17..19]), 0, 0), b[19..]))
    else if b[0] == ADDR_TYPE_DOMAIN_NAME then
      if |b| < 2 || |b| < 2 + b[1] as nat + 2 then Err(UnexpectedEof)
      else
        var n := 2 + b[1] as nat;
        if ValidUtf8(b[2..n]) then Ok((DomainNameAddress(b[2..n], Port(b[n..n + 2])), b[n + 2..]))
        else Err(AddressDomainInvalidEncoding)
    else Err(AddressTypeNotSupported(b[0]))
  }

  /** Reading from a cursor. The domain branch checks that the name is there but not the port after it, and
      panics without it. */
  datatype CursorRead = Returned(read: Read<Address>) | Panicked

  function ReadCursor(b: Bytes): CursorRead {
    if |b| < 2 then Returned(Err(InvalidBuf))
    else if b[0] == ADDR_TYPE_IPV4 then
      if |b| < 7 then Returned(Err(InvalidBuf))
      else Returned(Ok((V4Address(Ipv4(b[1..5]), Port(b[5..7])), b[7..])))
    else if b[0] == ADDR_TYPE_IPV6 then
      if |b| < 19 then Returned(Err(InvalidBuf))
      else Returned(Ok((V6Address(Ipv6(b[1..17]), Port(b[17..19]), 0, 0), b[19..])))
    else if b[0] == ADDR_TYPE_DOMAIN_NAME then
      var n := 2 + b[1] as nat;
      if |b| < n then Returned(Err(AddressDomainInvalidEncoding))
      else if |b| < n + 2 then Panicked
      else if ValidUtf8(b[2..n]) then Returned(Ok((DomainNameAddress(b[2..n], Port(b[n..n + 2])), b[n + 2..])))
      else Returned(Err(AddressDomainInvalidEncoding))
    else Returned(Err(AddressTypeNotSupported(b[0])))
  }

  /** The address a reader can give back: without flow information and scope. */
  function Stripped(a: Address): Address {
    if a.V6Address? then a.(flow := 0, scope := 0) else a
  }

  lemma ReadsV4(x: Bytes, p: Bytes, rest: Bytes)
    requires |x| == 4 && |p| == 2
    ensures ReadAddress([ADDR_TYPE_IPV4] + x + p + rest) == Ok((V4Address(Ipv4(x), Port(p)), rest))
  {
    var b := [ADDR_TYPE_IPV4] + x + p + rest;
    hide Port, Ipv4, Ipv6, ValidUtf8;
    assert b[1..5] == x && b[5..7] == p && b[7..] == rest;
  }

  lemma ReadsV6(x: Bytes, p: Bytes, rest: Bytes)
    requires |x| == 16 && |p| == 2
    ensures ReadAddress([ADDR_TYPE_IPV6] + x + p + rest) == Ok((V6Address(Ipv6(x), Port(p), 0, 0), rest))
  {
    var b := [ADDR_TYPE_IPV6] + x + p + rest;
    hide Port, Ipv4, Ipv6, ValidUtf8;
    assert b[1..17] == x && b[17..19] == p && b[19..] == rest;
  }

  lemma ReadsDomain(name: Utf8, p: Bytes, rest: Bytes)
    requires |name| <= 0xFF && |p| == 2
    ensures ReadAddress([ADDR_TYPE_DOMAIN_NAME, |name|] + name + p + rest) ==
      Ok((DomainNameAddress(name, Port(p)), rest))
  {
    var b := [ADDR_TYPE_DOMAIN_NAME, |name|] + name + p + rest;
    var n := 2 + |name|;
    hide Port, Ipv4, Ipv6, ValidUtf8;
    assert b[1] == |name|;
    assert b[2..n] == name && b[n..n + 2] == p && b[n + 2..] == rest;
  }

  /** Writing and then reading, whatever bytes follow, gives the address without its flow information and
      scope, and exactly those bytes. */
  lemma AddressReadsBack(a: Address, rest: Bytes)
    requires Writable(a)
    ensures |WriteAddress(a)| == SerializedLen(a)
    ensures ReadAddress(WriteAddress(a) + rest) == Ok((Stripped(a), rest))
    ensures ReadAddress(WriteAddress(a) + rest) == Ok((a, rest)) <==> Plain(a)
  {
    hide BigEndian, Port, Ipv4, Ipv6, ValidUtf8, ReadAddress;
    match a
    case V4Address(v4, port) =>
      NumbersReadBack(port, v4, 0);
      ReadsV4(BigEndian(v4, 4), BigEndian(port, 2), rest);
    case V6Address(v6, port, _, _) =>
      NumbersReadBack(port, 0, v6);
      ReadsV6(BigEndian(v6, 16), BigEndian(port, 2), rest);
    case DomainNameAddress(name, port) =>
      NumbersReadBack(port, 0, 0);
      ReadsDomain(name, BigEndian(port, 2), rest);
  }

  lemma Pieces(b: Bytes, i: nat, j: nat, k: nat)
    requires i <= j <= k <= |b|
    ensures b == b[..i] + b[i..j] + b[j..k] + b[k..]
  {
  }

  /** Whatever is read successfully writes back to the bytes that were consumed. */
  lemma AddressWritesBack(b: Bytes)
    requires ReadAddress(b).Ok?
    ensures var (a, rest) := ReadAddress(b).value;
      Writable(a) && Plain(a) && WriteAddress(a) + rest == b
  {
    hide BigEndian, Port, Ipv4, Ipv6, ValidUtf8;
    if b[0] == ADDR_TYPE_IPV4 {
      Ipv4WritesBack(b[1..5]);
      PortWritesBack(b[5..7]);
      Pieces(b, 1, 5, 7);
      assert b[..1] == [b[0]];
    } else if b[0] == ADDR_TYPE_IPV6 {
      Ipv6WritesBack(b[1..17]);
      PortWritesBack(b[17..19]);
      Pieces(b, 1, 17, 19);
      assert b[..1] == [b[0]];
    } else {
      var n := 2 + b[1] as nat;
      PortWritesBack(b[n..n + 2]);
      Pieces(b, 2, n, n + 2);
      assert b[..2] == [b[0], b[1]];
    }
  }

  /** The cursor reads an address exactly when the stream does, and the same one. */
  lemma CursorAgrees(b: Bytes, a: Address, rest: Bytes)
    ensures ReadCursor(b) == Returned(Ok((a, rest))) <==> ReadAddress(b) == Ok((a, rest))
  {
    hide Port, Ipv4, Ipv6, ValidUtf8;
  }

  /** The cursor panics exactly on a domain address cut after its name and before the end of its port, where
      the stream reports the end of input. */
  lemma CursorPanicsIff(b: Bytes)
    ensures ReadCursor(b) == Panicked <==>
      |b| >= 2 && b[0] == ADDR_TYPE_DOMAIN_NAME && 2 + b[1] as nat <= |b| < 2 + b[1] as nat + 2
    ensures ReadCursor(b) == Panicked ==> ReadAddress(b) == Err(UnexpectedEof)
  {
    hide Port, Ipv4, Ipv6, ValidUtf8;
  }

  // ------------------------------------------------------------------ commands and replies

  datatype Command = TcpConnect | TcpBind | UdpAssociate

  function CommandByte(c: Command): u8 {
    match c
    case TcpConnect => 0x01
    case TcpBind => 0x02
    case UdpAssociate => 0x03
  }

  function CommandOf(code: u8): Option<Command> {
    match code
    case 0x01 => Some(TcpConnect)
    case 0x02 => Some(TcpBind)
    case 0x03 => Some(UdpAssociate)
    case _ => None
  }

  datatype Reply =
    | Succeeded | GeneralFailure | ConnectionNotAllowed | NetworkUnreachable | HostUnreachable
    | ConnectionRefused | TtlExpired | CommandNotSupported | ReplyAddressTypeNotSupported
    | OtherReply(code: u8)

  function ReplyByte(r: Reply): u8 {
    match r
    case Succeeded => 0x00
    case GeneralFailure => 0x01
    case ConnectionNotAllowed => 0x02
    case NetworkUnreachable => 0x03
    case HostUnreachable => 0x04
    case ConnectionRefused => 0x05
    case TtlExpired => 0x06
    case CommandNotSupported => 0x07
    case ReplyAddressTypeNotSupported => 0x08
    case OtherReply(code) => code
  }

  function ReplyOf(code: u8): Reply {
    match code
    case 0x00 => Succeeded
    case 0x01 => GeneralFailure
    case 0x02 => ConnectionNotAllowed
    case 0x03 => NetworkUnreachable
    case 0x04 => HostUnreachable
    case 0x05 => ConnectionRefused
    case 0x06 => TtlExpired
    case 0x07 => CommandNotSupported
    case 0x08 => ReplyAddressTypeNotSupported
    case _ => OtherReply(code)
  }

  /** The reply is named, or has a code no name stands for: reading its code gives it back. */
  predicate Canonical(r: Reply) {
    r.OtherReply? ==> r.code > 0x08
  }

  // ------------------------------------------------------------------ messages

  datatype TcpRequestHeader = TcpRequestHeader(command: Command, address: Address)
  datatype TcpResponseHeader = TcpResponseHeader(reply: Reply, address: Address)
  datatype UdpAssociateHeader = UdpAssociateHeader(frag: u8, address: Address)
  datatype HandshakeRequest = HandshakeRequest(methods: Bytes)
  datatype PasswdAuthRequest = PasswdAuthRequest(uname: Bytes, passwd: Bytes)

  function WriteTcpRequest(h: TcpRequestHeader): Bytes
    requires Writable(h.address)
  {
    [VERSION, CommandByte(h.command), 0x00] + WriteAddress(h.address)
  }

  function ReadTcpRequest(b: Bytes): Read<TcpRequestHeader> {
    if |b| < 3 then Err(UnexpectedEof)
    else if b[0] != VERSION then Err(UnsupportedSocksVersion(b[0]))
    else
      match CommandOf(b[1])
      case None => Err(UnsupportedCommand(b[1]))
      case Some(command) =>
        match ReadAddress(b[3..])
        case Err(e) => Err(e)
        case Ok((address, rest)) => Ok((TcpRequestHeader(command, address), rest))
  }

  function WriteTcpResponse(h: TcpResponseHeader): Bytes
    requires Writable(h.address)
  {
    [VERSION, ReplyByte(h.reply), 0x00] + WriteAddress(h.address)
  }

  function ReadTcpResponse(b: Bytes): Read<TcpResponseHeader> {
    if |b| < 3 then Err(UnexpectedEof)
    else if b[0] != VERSION then Err(UnsupportedSocksVersion(b[0]))
    else
      match ReadAddress(b[3..])
      case Err(e) => Err(e)
      case Ok((address, rest)) => Ok((TcpResponseHeader(ReplyOf(b[1]), address), rest))
  }

  function WriteUdpHeader(h: UdpAssociateHeader): Bytes
    requires Writable(h.address)
  {
    [0x00, 0x00, h.frag] + WriteAddress(h.address)
  }

  function ReadUdpHeader(b: Bytes): Read<UdpAssociateHeader> {
    if |b| < 3 then Err(UnexpectedEof)
    else
      match ReadAddress(b[3..])
      case Err(e) => Err(e)
      case Ok((address, rest)) => Ok((UdpAssociateHeader(b[2], address), rest))
  }

  /** A length as one byte, `as u8`. */
  function LengthByte(n: nat): u8 {
    n % 0x100
  }

  function WriteHandshake(h: HandshakeRequest): Bytes {
    [VERSION, LengthByte(|h.methods|)] + h.methods
  }

  function ReadHandshake(b: Bytes): Read<HandshakeRequest> {
    if |b| < 2 then Err(UnexpectedEof)
    else if b[0] != VERSION then Err(UnsupportedSocksVersion(b[0]))
    else if |b| < 2 + b[1] as nat then Err(UnexpectedEof)
    else Ok((HandshakeRequest(b[2..2 + b[1] as nat]), b[2 + b[1] as nat..]))
  }

  function WritePasswd(h: PasswdAuthRequest): Bytes {
    [PASSWD_VERSION, LengthByte(|h.uname|)] + h.uname + [LengthByte(|h.passwd|)] + h.passwd
  }

  function ReadPasswd(b: Bytes): Read<PasswdAuthRequest> {
    if |b| < 1 then Err(UnexpectedEof)
    else if b[0] != PASSWD_VERSION then Err(UnsupportedPasswdAuthVersion(b[0]))
    else if |b| < 2 then Err(UnexpectedEof)
    else if b[1] == 0 then Err(PasswdAuthInvalidRequest)
    else
      var n := 2 + b[1] as nat;
      if |b| < n + 1 then Err(UnexpectedEof)
      else if b[n] == 0 then Err(PasswdAuthInvalidRequest)
      else if |b| < n + 1 + b[n] as nat then Err(UnexpectedEof)
      else Ok((PasswdAuthRequest(b[2..n], b[n + 1..n + 1 + b[n] as nat]), b[n + 1 + b[n] as nat..]))
  }

  // ------------------------------------------------------------------ print, then parse

  lemma TcpRequestReadsBack(h: TcpRequestHeader, rest: Bytes)
    requires Writable(h.address)
    ensures |WriteTcpRequest(h)| == SerializedLen(h.address) + 3
    ensures ReadTcpRequest(WriteTcpRequest(h) + rest) == Ok((h.(address := Stripped(h.address)), rest))
    ensures ReadTcpRequest(WriteTcpRequest(h) + rest) == Ok((h, rest)) <==> Plain(h.address)
  {
    hide WriteAddress, ReadAddress;
    AddressReadsBack(h.address, rest);
    assert (WriteTcpRequest(h) + rest)[3..] == WriteAddress(h.address) + rest;
  }

  /** A request that is read writes back to the same bytes with the reserved one zeroed. */
  lemma TcpRequestWritesBack(b: Bytes)
    requires ReadTcpRequest(b).Ok?
    ensures var (h, rest) := ReadTcpRequest(b).value;
      Writable(h.address) && WriteTcpRequest(h) + rest == b[2 := 0x00]
  {
    hide WriteAddress, ReadAddress, Writable, Plain;
    AddressWritesBack(b[3..]);
    assert b == [b[0], b[1], b[2]] + b[3..];
  }

  lemma TcpResponseReadsBack(h: TcpResponseHeader, rest: Bytes)
    requires Writable(h.address)
    ensures |WriteTcpResponse(h)| == SerializedLen(h.address) + 3
    ensures ReadTcpResponse(WriteTcpResponse(h) + rest) == Ok((h, rest)) <==> Plain(h.address) && Canonical(h.reply)
  {
    hide WriteAddress, ReadAddress;
    AddressReadsBack(h.address, rest);
    assert (WriteTcpResponse(h) + rest)[3..] == WriteAddress(h.address) + rest;
  }

  lemma UdpHeaderReadsBack(h: UdpAssociateHeader, rest: Bytes)
    requires Writable(h.address)
    ensures |WriteUdpHeader(h)| == SerializedLen(h.address) + 3
    ensures ReadUdpHeader(WriteUdpHeader(h) + rest) == Ok((h, rest)) <==> Plain(h.address)
  {
    hide WriteAddress, ReadAddress;
    AddressReadsBack(h.address, rest);
    assert (WriteUdpHeader(h) + rest)[3..] == WriteAddress(h.address) + rest;
  }

  /** A handshake reads back exactly when its method count fits in the length byte. */
  lemma HandshakeReadsBack(h: HandshakeRequest, rest: Bytes)
    ensures |WriteHandshake(h)| == 2 + |h.methods|
    ensures ReadHandshake(WriteHandshake(h) + rest) == Ok((h, rest)) <==> |h.methods| <= 0xFF
  {
    var b := WriteHandshake(h) + rest;
    if |h.methods| <= 0xFF {
      assert b[2..2 + |h.methods|] == h.methods && b[2 + |h.methods|..] == rest;
    }
  }

  /** A password request reads back exactly when both fields have between 1 and 255 bytes, which is what its
      constructor asserts. */
  lemma PasswdReadsBack(h: PasswdAuthRequest, rest: Bytes)
    ensures |WritePasswd(h)| == 1 + 1 + |h.uname| + 1 + |h.passwd|
    ensures ReadPasswd(WritePasswd(h) + rest) == Ok((h, rest)) <==>
      1 <= |h.uname| <= 0xFF && 1 <= |h.passwd| <= 0xFF
  {
    var b := WritePasswd(h) + rest;
    var n := 2 + |h.uname|;
    assert b[n] == LengthByte(|h.passwd|);
    if 1 <= |h.uname| <= 0xFF && 1 <= |h.passwd| <= 0xFF {
      assert b[2..n] == h.uname && b[n + 1..n + 1 + |h.passwd|] == h.passwd && b[n + 1 + |h.passwd|..] == rest;
    }
  }

  // ------------------------------------------------------------------ readers and writers

  /** The `n` bytes at `i`, cut after `k` of them, and what comes after them. */
  lemma SliceRest(b: Bytes, i: nat, n: nat, k: nat)
    requires i + n <= |b| && k <= n
    ensures b[i..][..n] == b[i..i + n] && b[i..][n..] == b[i + n..]
    ensures b[i..i + n][..k] == b[i..i + k] && b[i..i + n][k..] == b[i + k..i + n]
  {
  }

  method ReadAddressFrom(r: Reader) returns (result: Result<Address, Error>)
    modifies r
    ensures result.Ok? <==> ReadAddress(old(r.rest)).Ok?
    ensures result.Ok? ==> ReadAddress(old(r.rest)) == Ok((result.value, r.rest))
    ensures result.Err? ==> ReadAddress(old(r.rest)) == Err(result.error)
  {
    ghost var b := r.rest;
    var atyp := r.ReadExact(1);
    if atyp.None? {
      return Err(UnexpectedEof);
    }
    if atyp.value[0] == ADDR_TYPE_IPV4 {
      var buf := r.ReadExact(6);
      if buf.None? {
        return Err(UnexpectedEof);
      }
      SliceRest(b, 1, 6, 4);
      return Ok(V4Address(Ipv4(buf.value[..4]), Port(buf.value[4..])));
    } else if atyp.value[0] == ADDR_TYPE_IPV6 {
      var buf := r.ReadExact(18);
      if buf.None? {
        return Err(UnexpectedEof);
      }
      SliceRest(b, 1, 18, 16);
      return Ok(V6Address(Ipv6(buf.value[..16]), Port(buf.value[16..]), 0, 0));
    } else if atyp.value[0] == ADDR_TYPE_DOMAIN_NAME {
      var lengthBuf := r.ReadExact(1);
      if lengthBuf.None? {
        return Err(UnexpectedEof);
      }
      var length: nat := lengthBuf.value[0];
      var raw := r.ReadExact(length + 2);
      if raw.None? {
        return Err(UnexpectedEof);
      }
      SliceRest(b, 1, 1, 0);
      SliceRest(b, 2, length + 2, length);
      if !ValidUtf8(raw.value[..length]) {
        return Err(AddressDomainInvalidEncoding);
      }
      return Ok(DomainNameAddress(raw.value[..length], Port(raw.value[length..])));
    } else {
      return Err(AddressTypeNotSupported(atyp.value[0]));
    }
  }

  method ReadAddressCursor(cur: Reader) returns (result: CursorRead)
    modifies cur
    ensures result == ReadCursor(old(cur.rest))
    ensures result.Returned? && result.read.Ok? ==> cur.rest == result.read.value.1
  {
    ghost var b := cur.rest;
    if |cur.rest| < 2 {
      return Returned(Err(InvalidBuf));
    }
    var atyp := cur.Take(1);
    if atyp[0] == ADDR_TYPE_IPV4 {
      if |cur.rest| < 4 + 2 {
        return Returned(Err(InvalidBuf));
      }
      var addr := cur.Take(4);
      var port := cur.Take(2);
      SliceRest(b, 1, 4, 0);
      SliceRest(b, 5, 2, 0);
      return Returned(Ok((V4Address(Ipv4(addr), Port(port)), cur.rest)));
    } else if atyp[0] == ADDR_TYPE_IPV6 {
      if |cur.rest| < 16 + 2 {
        return Returned(Err(InvalidBuf));
      }
      var addr := cur.Take(16);
      var port := cur.Take(2);
      SliceRest(b, 1, 16, 0);
      SliceRest(b, 17, 2, 0);
      return Returned(Ok((V6Address(Ipv6(addr), Port(port), 0, 0), cur.rest)));
    } else if atyp[0] == ADDR_TYPE_DOMAIN_NAME {
      var length := cur.Take(1);
      if |cur.rest| < length[0] {
        return Returned(Err(AddressDomainInvalidEncoding));
      }
      var buf := cur.Take(length[0]);
      if |cur.rest| < 2 {
        return Panicked;
      }
      var port := cur.Take(2);
      SliceRest(b, 1, 1, 0);
      SliceRest(b, 2, b[1], 0);
      SliceRest(b, 2 + b[1] as nat, 2, 0);
      if !ValidUtf8(buf) {
        return Returned(Err(AddressDomainInvalidEncoding));
      }
      return Returned(Ok((DomainNameAddress(buf, Port(port)), cur.rest)));
    } else {
      return Returned(Err(AddressTypeNotSupported(atyp[0])));
    }
  }

  method WriteAddressTo(a: Address, buf: Buffer)
    requires Writable(a)
    modifies buf
    ensures buf.bytes == old(buf.bytes) + WriteAddress(a)
  {
    hide BigEndian, ValidUtf8;
    match a {
      case V4Address(v4, port) =>
        PutThree(buf, [ADDR_TYPE_IPV4], BigEndian(v4, 4), BigEndian(port, 2));
      case V6Address(v6, port, _, _) =>
        PutThree(buf, [ADDR_TYPE_IPV6], BigEndian(v6, 16), BigEndian(port, 2));
      case DomainNameAddress(name, port) =>
        PutThree(buf, [ADDR_TYPE_DOMAIN_NAME, |name|], name, BigEndian(port, 2));
    }
  }

  /** Kind (with the length of a name), host and port. */
  method PutThree(buf: Buffer, kind: Bytes, host: Bytes, port: Bytes)
    modifies buf
    ensures buf.bytes == old(buf.bytes) + (kind + host + port)
  {
    buf.Put(kind);
    buf.Put(host);
    buf.Put(port);
    assert old(buf.bytes) + kind + host + port == old(buf.bytes) + (kind + host + port);
  }

  method ReadTcpRequestFrom(r: Reader) returns (result: Result<TcpRequestHeader, Error>)
    modifies r
    ensures result.Ok? ==> ReadTcpRequest(old(r.rest)) == Ok((result.value, r.rest))
    ensures result.Err? ==> ReadTcpRequest(old(r.rest)) == Err(result.error)
  {
    hide ReadAddress;
    var buf := r.ReadExact(3);
    if buf.None? {
      return Err(UnexpectedEof);
    }
    var ver := buf.value[0];
    if ver != VERSION {
      return Err(UnsupportedSocksVersion(ver));
    }
    var command := CommandOf(buf.value[1]);
    if command.None? {
      return Err(UnsupportedCommand(buf.value[1]));
    }
    var address := ReadAddressFrom(r);
    if address.Err? {
      return Err(address.error);
    }
    return Ok(TcpRequestHeader(command.value, address.value));
  }

  method ReadPasswdFrom(r: Reader) returns (result: Result<PasswdAuthRequest, Error>)
    modifies r
    ensures result.Ok? ==> ReadPasswd(old(r.rest)) == Ok((result.value, r.rest))
    ensures result.Err? ==> ReadPasswd(old(r.rest)) == Err(result.error)
  {
    ghost var b := r.rest;
    var ver := r.ReadExact(1);
    if ver.None? {
      return Err(UnexpectedEof);
    }
    if ver.value[0] != PASSWD_VERSION {
      return Err(UnsupportedPasswdAuthVersion(ver.value[0]));
    }
    var ulen := r.ReadExact(1);
    if ulen.None? {
      return Err(UnexpectedEof);
    }
    if ulen.value[0] == 0 {
      return Err(PasswdAuthInvalidRequest);
    }
    var n := 2 + b[1] as nat;
    var uname := r.ReadExact(ulen.value[0]);
    if uname.None? {
      return Err(UnexpectedEof);
    }
    var plen := r.ReadExact(1);
    if plen.None? {
      return Err(UnexpectedEof);
    }
    if plen.value[0] == 0 {
      return Err(PasswdAuthInvalidRequest);
    }
    var passwd := r.ReadExact(plen.value[0]);
    if passwd.None? {
      return Err(UnexpectedEof);
    }
    assert uname.value == b[2..n] && passwd.value == b[n + 1..n + 1 + b[n] as nat];
    return Ok(PasswdAuthRequest(uname.value, passwd.value));
  }

  method ReadTcpResponseFrom(r: Reader) returns (result: Result<TcpResponseHeader, Error>)
    modifies r
    ensures result.Ok? ==> ReadTcpResponse(old(r.rest)) == Ok((result.value, r.rest))
    ensures result.Err? ==> ReadTcpResponse(old(r.rest)) == Err(result.error)
  {
    hide ReadAddress, ReplyOf;
    var buf := r.ReadExact(3);
    if buf.None? {
      return Err(UnexpectedEof);
    }
    if buf.value[0] != VERSION {
      return Err(UnsupportedSocksVersion(buf.value[0]));
    }
    var address := ReadAddressFrom(r);
    if address.Err? {
      return Err(address.error);
    }
    return Ok(TcpResponseHeader(ReplyOf(buf.value[1]), address.value));
  }

  method ReadUdpHeaderFrom(r: Reader) returns (result: Result<UdpAssociateHeader, Error>)
    modifies r
    ensures result.Ok? ==> ReadUdpHeader(old(r.rest)) == Ok((result.value, r.rest))
    ensures result.Err? ==> ReadUdpHeader(old(r.rest)) == Err(result.error)
  {
    hide ReadAddress;
    var buf := r.ReadExact(3);
    if buf.None? {
      return Err(UnexpectedEof);
    }
    var address := ReadAddressFrom(r);
    if address.Err? {
      return Err(address.error);
    }
    return Ok(UdpAssociateHeader(buf.value[2], address.value));
  }

  method ReadHandshakeFrom(r: Reader) returns (result: Result<HandshakeRequest, Error>)
    modifies r
    ensures result.Ok? ==> ReadHandshake(old(r.rest)) == Ok((result.value, r.rest))
    ensures result.Err? ==> ReadHandshake(old(r.rest)) == Err(result.error)
  {
    ghost var b := r.rest;
    var buf := r.ReadExact(2);
    if buf.None? {
      return Err(UnexpectedEof);
    }
    if buf.value[0] != VERSION {
      return Err(UnsupportedSocksVersion(buf.value[0]));
    }
    var methods := r.ReadExact(buf.value[1]);
    if methods.None? {
      return Err(UnexpectedEof);
    }
    assert methods.value == b[2..2 + b[1] as nat];
    return Ok(HandshakeRequest(methods.value));
  }

  /** The three bytes before the address, and the address. */
  method WriteWithAddress(first: Bytes, a: Address, buf: Buffer)
    requires Writable(a)
    modifies buf
    ensures buf.bytes == old(buf.bytes) + (first + WriteAddress(a))
  {
    hide WriteAddress;
    buf.Put(first);
    WriteAddressTo(a, buf);
    assert old(buf.bytes) + first + WriteAddress(a) == old(buf.bytes) + (first + WriteAddress(a));
  }

  method WriteTcpRequestTo(h: TcpRequestHeader, buf: Buffer)
    requires Writable(h.address)
    modifies buf
    ensures buf.bytes == old(buf.bytes) + WriteTcpRequest(h)
  {
    WriteWithAddress([VERSION, CommandByte(h.command), 0x00], h.address, buf);
  }

  method WriteTcpResponseTo(h: TcpResponseHeader, buf: Buffer)
    requires Writable(h.address)
    modifies buf
    ensures buf.bytes == old(buf.bytes) + WriteTcpResponse(h)
  {
    WriteWithAddress([VERSION, ReplyByte(h.reply), 0x00], h.address, buf);
  }

  method WriteUdpHeaderTo(h: UdpAssociateHeader, buf: Buffer)
    requires Writable(h.address)
    modifies buf
    ensures buf.bytes == old(buf.bytes) + WriteUdpHeader(h)
  {
    WriteWithAddress([0x00, 0x00, h.frag], h.address, buf);
  }

  method WriteHandshakeTo(h: HandshakeRequest, buf: Buffer)
    modifies buf
    ensures buf.bytes == old(buf.bytes) + WriteHandshake(h)
  {
    buf.Put([VERSION, LengthByte(|h.methods|)]);
    buf.Put(h.methods);
  }

  method WritePasswdTo(h: PasswdAuthRequest, buf: Buffer)
    modifies buf
    ensures buf.bytes == old(buf.bytes) + WritePasswd(h)
  {
    buf.Put([PASSWD_VERSION]);
    buf.Put([LengthByte(|h.uname|)]);
    buf.Put(h.uname);
    buf.Put([LengthByte(|h.passwd|)]);
    buf.Put(h.passwd);
    assert [PASSWD_VERSION] + [LengthByte(|h.uname|)] == [PASSWD_VERSION, LengthByte(|h.uname|)];
  }
}
