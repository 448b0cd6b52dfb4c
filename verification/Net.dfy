/** IP addresses and socket addresses. */
module Net {
  import opened Prelude

  const U128_MAX: int := 0xFFFF_FFFF_FFFF_FFFF_FFFF_FFFF_FFFF_FFFF

  type u128 = x: int | 0 <= x <= U128_MAX

  /** First IPv6 address of the block that carries IPv4 addresses, `::ffff:0:0/96`. */
  const MAPPED_BASE: int := 0xFFFF_0000_0000

  datatype IpAddr = V4(v4: u32) | V6(v6: u128)

  datatype SocketAddr = SocketAddr(ip: IpAddr, port: u16)

  function ToIpv6Mapped(a: u32): u128 {
    MAPPED_BASE + a
  }

  function ToIpv4Mapped(a: u128): Option<u32> {
    if MAPPED_BASE <= a <= MAPPED_BASE + U32_MAX then Some(a - MAPPED_BASE) else None
  }
}
