/** Byte strings on the wire: big-endian numbers, UTF-8 text, readers and buffers. */
module Wire {
  import opened Prelude
  import opened Net
  import opened Numbers

  type Bytes = seq<u8>

  // ------------------------------------------------------------------ numbers

  /** The `n` bytes of a number, the most significant first. */
  function BigEndian(v: nat, n: nat): (b: Bytes)
    ensures |b| == n
  {
    Digits(v, 256, n)
  }

  function Port(b: Bytes): u16
    requires |b| == 2
  {
    PowersOfBytes();
    ValueBounded(b, 256);
    Value(b, 256)
  }

  function Ipv4(b: Bytes): u32
    requires |b| == 4
  {
    PowersOfBytes();
    ValueBounded(b, 256);
    Value(b, 256)
  }

  function Ipv6(b: Bytes): u128
    requires |b| == 16
  {
    PowersOfBytes();
    ValueBounded(b, 256);
    Value(b, 256)
  }

  lemma NumbersReadBack(port: u16, v4: u32, v6: u128)
    ensures Port(BigEndian(port, 2)) == port
    ensures Ipv4(BigEndian(v4, 4)) == v4
    ensures Ipv6(BigEndian(v6, 16)) == v6
  {
    hide Digits, Value, Power;
    PowersOfBytes();
    ValueOfDigits(port, 256, 2);
    ValueOfDigits(v4, 256, 4);
    ValueOfDigits(v6, 256, 16);
  }

  lemma PortWritesBack(b: Bytes)
    requires |b| == 2
    ensures BigEndian(Port(b), 2) == b
  {
    hide Digits, Value;
    DigitsOfValue(b, 256);
  }

  lemma Ipv4WritesBack(b: Bytes)
    requires |b| == 4
    ensures BigEndian(Ipv4(b), 4) == b
  {
    hide Digits, Value;
    DigitsOfValue(b, 256);
  }

  lemma Ipv6WritesBack(b: Bytes)
    requires |b| == 16
    ensures BigEndian(Ipv6(b), 16) == b
  {
    hide Digits, Value;
    DigitsOfValue(b, 256);
  }

  // ------------------------------------------------------------------ text

  predicate Continues(b: u8, low: u8, high: u8) {
    low <= b <= high
  }

  /** Well-formed UTF-8, section 3.9 of the Unicode Standard, table of well-formed byte sequences. */
  predicate ValidUtf8(b: Bytes) {
    if b == [] then true
    else if b[0] <= 0x7F then ValidUtf8(b[1..])
    else if 0xC2 <= b[0] <= 0xDF then |b| > 1 && Continues(b[1], 0x80, 0xBF) && ValidUtf8(b[2..])
    else if 0xE0 <= b[0] <= 0xEF then
      && |b| > 2
      && Continues(b[1], if b[0] == 0xE0 then 0xA0 else 0x80, if b[0] == 0xED then 0x9F else 0xBF)
      && Continues(b[2], 0x80, 0xBF)
      && ValidUtf8(b[3..])
    else if 0xF0 <= b[0] <= 0xF4 then
      && |b| > 3
      && Continues(b[1], if b[0] == 0xF0 then 0x90 else 0x80, if b[0] == 0xF4 then 0x8F else 0xBF)
      && Continues(b[2], 0x80, 0xBF) && Continues(b[3], 0x80, 0xBF)
      && ValidUtf8(b[4..])
    else false
  }

  /** A Rust string, by its bytes. */
  type Utf8 = b: Bytes | ValidUtf8(b)

  // ------------------------------------------------------------------ readers and buffers

  /** A byte stream, or a cursor over bytes, with what is left to read. */
  class Reader {
    var rest: Bytes

    constructor (data: Bytes)
      ensures rest == data
    {
      rest := data;
    }

    /** `read_exact`: the next `n` bytes, or nothing if the stream ends before. */
    method ReadExact(n: nat) returns (data: Option<Bytes>)
      modifies this
      ensures data.Some? <==> n <= |old(rest)|
      ensures data.Some? ==> data.value == old(rest)[..n] && rest == old(rest)[n..]
    {
      if n > |rest| {
        rest := [];
        return None;
      }
      data := Some(rest[..n]);
      rest := rest[n..];
    }

    /** `get_u8` and its kind, which panic unless enough bytes remain. */
    method Take(n: nat) returns (data: Bytes)
      requires n <= |rest|
      modifies this
      ensures data == old(rest)[..n] && rest == old(rest)[n..]
    {
      data := rest[..n];
      rest := rest[n..];
    }
  }

  class Buffer {
    var bytes: Bytes

    constructor ()
      ensures bytes == []
    {
      bytes := [];
    }

    method Put(data: Bytes)
      modifies this
      ensures bytes == old(bytes) + data
    {
      bytes := bytes + data;
    }
  }
}
