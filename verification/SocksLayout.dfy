/** The SOCKS messages byte by byte: RFC 1928, RFC 1929 and SOCKS4/4a. */
module SocksLayout {
  import opened Numbers
  import opened Prelude
  import opened Wire
  import S4 = Socks4
  import S5 = Socks5

  /** A port takes two bytes, the more significant first; an IPv4 address four. */
  lemma NumberBytes(p0: u8, p1: u8, b0: u8, b1: u8, b2: u8, b3: u8)
    ensures BigEndian(p0 * 256 + p1, 2) == [p0, p1]
    ensures BigEndian(((b0 * 256 + b1) * 256 + b2) * 256 + b3, 4) == [b0, b1, b2, b3]
  {
    hide Digits, Value;
    var port, host: seq<nat> := [p0, p1], [b0, b1, b2, b3];
    ValueOfTwo(port, 256);
    ValueOfFour(host, 256);
    DigitsOfValue(port, 256);
    DigitsOfValue(host, 256);
  }

  // ------------------------------------------------------------------ SOCKS5

  lemma Ipv4AddressLayout(b0: u8, b1: u8, b2: u8, b3: u8, p0: u8, p1: u8)
    ensures S5.WriteAddress(S5.V4Address(((b0 * 256 + b1) * 256 + b2) * 256 + b3, p0 * 256 + p1)) ==
      [1, b0, b1, b2, b3, p0, p1]
  {
    hide BigEndian;
    NumberBytes(p0, p1, b0, b1, b2, b3);
  }

  lemma Ipv6AddressLayout(host: Bytes, p0: u8, p1: u8, flow: u32, scope: u32)
    requires |host| == 16
    ensures S5.WriteAddress(S5.V6Address(Ipv6(host), p0 * 256 + p1, flow, scope)) == [4] + host + [p0, p1]
  {
    hide BigEndian, Ipv6;
    NumberBytes(p0, p1, 0, 0, 0, 0);
    Ipv6WritesBack(host);
  }

  lemma DomainLayout(name: Utf8, p0: u8, p1: u8)
    requires |name| <= 255
    ensures S5.WriteAddress(S5.DomainNameAddress(name, p0 * 256 + p1)) == [3, |name|] + name + [p0, p1]
  {
    hide BigEndian, ValidUtf8;
    NumberBytes(p0, p1, 0, 0, 0, 0);
  }

  /** Why an address is not read. */
  lemma AddressErrors(b: Bytes)
    ensures S5.ReadAddress(b) == Err(S5.UnexpectedEof) <==>
      || b == [] || (b[0] == 1 && |b| < 7) || (b[0] == 4 && |b| < 19)
      || (b[0] == 3 && (|b| < 2 || |b| < 4 + b[1] as nat))
    ensures forall t :: S5.ReadAddress(b) == Err(S5.AddressTypeNotSupported(t)) <==>
      b != [] && b[0] == t && t != 1 && t != 3 && t != 4
    ensures S5.ReadAddress(b) == Err(S5.AddressDomainInvalidEncoding) <==>
      |b| >= 4 && b[0] == 3 && |b| >= 4 + b[1] as nat && !ValidUtf8(b[2..2 + b[1] as nat])
  {
    hide Port, Ipv4, Ipv6, ValidUtf8;
  }

  /** Why a cursor gives no address. */
  lemma CursorErrors(b: Bytes)
    ensures S5.ReadCursor(b) == S5.Returned(Err(S5.InvalidBuf)) <==>
      |b| < 2 || (b[0] == 1 && |b| < 7) || (b[0] == 4 && |b| < 19)
    ensures forall t :: S5.ReadCursor(b) == S5.Returned(Err(S5.AddressTypeNotSupported(t))) <==>
      |b| >= 2 && b[0] == t && t != 1 && t != 3 && t != 4
    ensures S5.ReadCursor(b) == S5.Returned(Err(S5.AddressDomainInvalidEncoding)) <==>
      |b| >= 2 && b[0] == 3 &&
        (|b| < 2 + b[1] as nat || (|b| >= 4 + b[1] as nat && !ValidUtf8(b[2..2 + b[1] as nat])))
  {
    hide Port, Ipv4, Ipv6, ValidUtf8;
  }

  /** The codes of commands, and what other codes give. */
  lemma CommandCodes(code: u8)
    ensures S5.CommandByte(S5.TcpConnect) == 1 && S5.CommandByte(S5.TcpBind) == 2
    ensures S5.CommandByte(S5.UdpAssociate) == 3
    ensures S5.CommandOf(code) ==
      if code == 1 then Some(S5.TcpConnect) else if code == 2 then Some(S5.TcpBind)
      else if code == 3 then Some(S5.UdpAssociate) else None
  {
  }

  /** The named replies in the order of their codes. */
  function NamedReplies(): seq<S5.Reply> {
    [S5.Succeeded, S5.GeneralFailure, S5.ConnectionNotAllowed, S5.NetworkUnreachable, S5.HostUnreachable,
     S5.ConnectionRefused, S5.TtlExpired, S5.CommandNotSupported, S5.ReplyAddressTypeNotSupported]
  }

  lemma ReplyCodes(code: u8)
    ensures code < 9 ==> S5.ReplyByte(NamedReplies()[code]) == code && S5.ReplyOf(code) == NamedReplies()[code]
    ensures S5.ReplyByte(S5.OtherReply(code)) == code && (code >= 9 ==> S5.ReplyOf(code) == S5.OtherReply(code))
  {
  }

  /** The bytes before the address, or before the fields, of every SOCKS5 message. */
  lemma MessageLayout(c: S5.Command, r: S5.Reply, frag: u8, a: S5.Address)
    requires S5.Writable(a)
    ensures S5.WriteTcpRequest(S5.TcpRequestHeader(c, a)) == [5, S5.CommandByte(c), 0] + S5.WriteAddress(a)
    ensures S5.WriteTcpResponse(S5.TcpResponseHeader(r, a)) == [5, S5.ReplyByte(r), 0] + S5.WriteAddress(a)
    ensures S5.WriteUdpHeader(S5.UdpAssociateHeader(frag, a)) == [0, 0, frag] + S5.WriteAddress(a)
  {
  }

  lemma FieldLayout(methods: Bytes, uname: Bytes, passwd: Bytes)
    ensures S5.WriteHandshake(S5.HandshakeRequest(methods)) == [5, |methods| % 256] + methods
    ensures S5.WritePasswd(S5.PasswdAuthRequest(uname, passwd)) ==
      [1, |uname| % 256] + uname + [|passwd| % 256] + passwd
  {
  }

  /** Why a header is not read, before its address is looked at. */
  lemma HeaderErrors(b: Bytes)
    ensures |b| < 3 ==> S5.ReadTcpRequest(b) == Err(S5.UnexpectedEof)
    ensures |b| < 3 ==> S5.ReadTcpResponse(b) == Err(S5.UnexpectedEof)
    ensures |b| < 3 ==> S5.ReadUdpHeader(b) == Err(S5.UnexpectedEof)
    ensures |b| >= 3 && b[0] != 5 ==> S5.ReadTcpRequest(b) == Err(S5.UnsupportedSocksVersion(b[0]))
    ensures |b| >= 3 && b[0] != 5 ==> S5.ReadTcpResponse(b) == Err(S5.UnsupportedSocksVersion(b[0]))
    ensures |b| >= 3 && b[0] == 5 && !(1 <= b[1] <= 3) ==>
      S5.ReadTcpRequest(b) == Err(S5.UnsupportedCommand(b[1]))
    ensures |b| >= 3 && b[0] == 5 && 1 <= b[1] <= 3 && S5.ReadAddress(b[3..]).Err? ==>
      S5.ReadTcpRequest(b) == Err(S5.ReadAddress(b[3..]).error)
    ensures |b| >= 3 && b[0] == 5 && S5.ReadAddress(b[3..]).Err? ==>
      S5.ReadTcpResponse(b) == Err(S5.ReadAddress(b[3..]).error)
    ensures |b| >= 3 && S5.ReadAddress(b[3..]).Err? ==> S5.ReadUdpHeader(b) == Err(S5.ReadAddress(b[3..]).error)
  {
    hide S5.ReadAddress;
  }

  /** Why a method list or a password request is not read. */
  lemma FieldErrors(b: Bytes)
    ensures S5.ReadHandshake(b) == Err(S5.UnexpectedEof) <==> |b| < 2 || (b[0] == 5 && |b| < 2 + b[1] as nat)
    ensures |b| >= 2 && b[0] != 5 ==> S5.ReadHandshake(b) == Err(S5.UnsupportedSocksVersion(b[0]))
    ensures b != [] && b[0] != 1 ==> S5.ReadPasswd(b) == Err(S5.UnsupportedPasswdAuthVersion(b[0]))
    ensures S5.ReadPasswd(b) == Err(S5.PasswdAuthInvalidRequest) <==>
      |b| >= 2 && b[0] == 1 && (b[1] == 0 || (|b| >= 3 + b[1] as nat && b[2 + b[1] as nat] == 0))
    ensures S5.ReadPasswd(b) == Err(S5.UnexpectedEof) <==>
      || b == []
      || (&& b[0] == 1
          && (|| |b| < 2
              || (b[1] != 0 &&
                  (|| |b| < 3 + b[1] as nat
                   || (b[2 + b[1] as nat] != 0 && |b| < 3 + b[1] as nat + b[2 + b[1] as nat] as nat)))))
  {
  }

  // ------------------------------------------------------------------ SOCKS4

  /** A request to an IPv4 address, and one to a named host. */
  lemma Socks4Layout(c: S4.Command, ip: Bytes, host: Utf8, p0: u8, p1: u8, userId: Bytes)
    requires |ip| == 4
    ensures var code: u8 := if c.Connect? then 1 else 2;
      && S4.Write(S4.HandshakeRequest(c, S4.SocketAddress(ip, p0 * 256 + p1), userId)) ==
         [4, code, p0, p1] + ip + userId + [0]
      && S4.Write(S4.HandshakeRequest(c, S4.DomainNameAddress(host, p0 * 256 + p1), userId)) ==
         [4, code, p0, p1, 0, 0, 0, 255] + userId + [0] + host + [0]
  {
    hide BigEndian, ValidUtf8;
    NumberBytes(p0, p1, 0, 0, 0, 0);
  }

  /** A request that is read: its command, its port, and a host exactly if the address is 0.0.0.x with x not 0. */
  lemma Socks4Kinds(b: Bytes)
    requires S4.Read(b).Ok?
    ensures |b| >= 8 && b[0] == 4
    ensures var h := S4.Read(b).value.0;
      && (h.cd.Connect? <==> b[1] == 1) && (h.cd.Bind? <==> b[1] == 2)
      && h.dst.port == b[2] as nat * 256 + b[3] as nat
      && (h.dst.DomainNameAddress? <==> b[4] == b[5] == b[6] == 0 && b[7] != 0)
      && (h.dst.SocketAddress? ==> h.dst.ip == b[4..8])
  {
    var port: seq<nat> := b[2..4];
    ValueOfTwo(port, 256);
    hide ValidUtf8, Value, S4.UntilNul;
  }

  /** Why a request is not read. */
  lemma Socks4Errors(b: Bytes)
    ensures |b| < 8 ==> S4.Read(b) == Err(S4.UnexpectedEof)
    ensures |b| >= 8 && b[0] != 4 ==> S4.Read(b) == Err(S4.UnsupportedSocksVersion(b[0]))
    ensures |b| >= 8 && b[0] == 4 && b[1] != 1 && b[1] != 2 ==> S4.Read(b) == Err(S4.UnsupportedSocksVersion(b[1]))
    ensures |b| >= 8 && b[0] == 4 && (b[1] == 1 || b[1] == 2) && 0 !in b[8..] ==>
      S4.Read(b) == Err(S4.UnexpectedEof)
  {
    hide Port, ValidUtf8;
  }
}
