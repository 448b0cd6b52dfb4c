/** Reverse names in `should_forward_by_ptr_name`, `local/dns/server.rs`. */
module PtrNames {
  import opened Prelude
  import opened Net
  import opened Numbers
  import opened DomainNames
  import opened Acl

  /** A label of a queried name; `Opaque` stands for bytes that are not UTF-8. */
  datatype Label = Text(text: string) | Opaque

  /** The labels of a name, the most specific first. */
  type Name = seq<Label>

  /** The `k`-th label from the end; missing labels read as zero. */
  function FromEnd(name: Name, k: nat): string {
    if k < |name| then
      match name[|name| - 1 - k]
      case Text(text) => text
      case Opaque => "*"
    else "0"
  }

  // ------------------------------------------------------------------ numbers

  function DigitOf(c: char): nat {
    if '0' <= c <= '9' then c as int - '0' as int
    else if 'a' <= c <= 'f' then 10 + (c as int - 'a' as int)
    else if 'A' <= c <= 'F' then 10 + (c as int - 'A' as int)
    else 99
  }

  function DigitChar(d: nat): char
    requires d < 16
  {
    if d < 10 then ('0' as int + d) as char else ('a' as int + (d - 10)) as char
  }

  function ReadDigits(s: string, radix: nat): (r: Option<seq<nat>>)
    ensures r.Some? ==> |r.value| == |s|
  {
    if s == "" then Some([])
    else
      var d := DigitOf(s[|s| - 1]);
      match ReadDigits(s[..|s| - 1], radix)
      case Some(init) => if d < radix then Some(init + [d]) else None
      case None => None
  }

  /** Rust's parsing of an unsigned integer: an optional plus sign, at least one digit, no overflow. */
  function ParseUnsigned(s: string, radix: nat, max: nat): (r: Option<nat>)
    ensures r.Some? ==> r.value <= max
  {
    var digits := if |s| > 1 && s[0] == '+' then s[1..] else s;
    if digits == "" then None
    else
      match ReadDigits(digits, radix)
      case Some(ds) => if Value(ds, radix) <= max then Some(Value(ds, radix)) else None
      case None => None
  }

  // ------------------------------------------------------------------ decoding a name

  function ReadOctets(name: Name, n: nat): (r: Option<seq<nat>>)
    ensures r.Some? ==> |r.value| == n && forall i | 0 <= i < n :: r.value[i] < 256
  {
    if n == 0 then Some([])
    else
      match ReadOctets(name, n - 1)
      case None => None
      case Some(init) =>
        match ParseUnsigned(FromEnd(name, n + 1), 10, 255)
        case None => None
        case Some(octet) => Some(init + [octet])
  }

  function SegmentText(name: Name, i: nat): string {
    FromEnd(name, 4 * i + 2) + FromEnd(name, 4 * i + 3) + FromEnd(name, 4 * i + 4) + FromEnd(name, 4 * i + 5)
  }

  function ReadSegments(name: Name, n: nat): (r: Option<seq<nat>>)
    ensures r.Some? ==> |r.value| == n && forall i | 0 <= i < n :: r.value[i] < 65536
  {
    if n == 0 then Some([])
    else
      match ReadSegments(name, n - 1)
      case None => None
      case Some(init) =>
        match ParseUnsigned(SegmentText(name, n - 1), 16, 65535)
        case None => None
        case Some(segment) => Some(init + [segment])
  }

  /** The address a name spells, if it spells one. */
  function Decoded(name: Name): Option<IpAddr> {
    if Lower(FromEnd(name, 0)) != "arpa" then None
    else if Lower(FromEnd(name, 1)) == "in-addr" then
      match ReadOctets(name, 4)
      case None => None
      case Some(octets) =>
        ValueBounded(octets, 256);
        PowersOfSizes();
        Some(V4(Value(octets, 256)))
    else if Lower(FromEnd(name, 1)) == "ip6" then
      match ReadSegments(name, 8)
      case None => None
      case Some(segments) =>
        ValueBounded(segments, 65536);
        PowersOfSizes();
        Some(V6(Value(segments, 65536)))
    else None
  }

  predicate ShouldForward(acl: AccessControl, name: Name) {
    match Decoded(name)
    case Some(ip) => acl.CheckIpInProxyList(ip)
    case None => acl.IsDefaultInProxyList()
  }

  // ------------------------------------------------------------------ reverse names

  /** The digits of `a` with all but the first `k` replaced by zeros. */
  function TopDigits(a: nat, base: nat, n: nat, k: nat): (ds: seq<nat>)
    requires base > 0 && k <= n
    ensures |ds| == n && forall i | 0 <= i < n :: ds[i] < base
  {
    Digits(a, base, n)[..k] + seq(n - k, _ => 0)
  }

  /** `a` with its last `m` digits cleared. */
  function Cleared(a: nat, base: nat, m: nat): nat
    requires base > 0
  {
    Quotient(a, Power(base, m)) * Power(base, m)
  }

  lemma DivideTwice(a: nat, b: nat, p: nat)
    requires b > 0 && p > 0 && p * b > 0
    ensures Quotient(Quotient(a, b), p) == Quotient(a, p * b)
  {
    var c := Quotient(a, b);
    var q, s, r := Quotient(c, p), Remainder(c, p), Remainder(a, b);
    Decompose(a, b);
    Decompose(c, p);
    hide Quotient, Remainder;
    NestedSum(q, p, s, b, r);
    QuotientUnique(a, p * b, q, s * b + r);
  }

  lemma ClearedStep(a: nat, base: nat, m: nat)
    requires base > 0
    ensures Cleared(a, base, m + 1) == Cleared(Quotient(a, base), base, m) * base
  {
    hide Quotient;
    DivideTwice(a, base, Power(base, m));
    Associate(Quotient(a, Power(base, m) * base), Power(base, m), base);
  }

  lemma Associate(x: int, y: int, z: int)
    ensures x * (y * z) == x * y * z
  {
  }

  /** The value of the leading digits of `a`, zero-filled, is `a` with its other digits cleared. */
  lemma {:induction false} ValueOfTop(a: nat, base: nat, n: nat, k: nat)
    requires base > 0 && k <= n && a < Power(base, n)
    ensures Value(TopDigits(a, base, n, k), base) == Cleared(a, base, n - k)
    decreases n
  {
    hide Quotient, Remainder;
    if k == n {
      ValueOfDigits(a, base, n);
      assert TopDigits(a, base, n, n) == Digits(a, base, n);
      ClearedNothing(a, base);
    } else {
      QuotientBelow(a, base, Power(base, n - 1));
      var ds, b := TopDigits(a, base, n, k), Quotient(a, base);
      assert ds[..n - 1] == TopDigits(b, base, n - 1, k) && ds[n - 1] == 0;
      hide TopDigits, Cleared, Digits;
      ValueOfTop(b, base, n - 1, k);
      ClearedStep(a, base, n - 1 - k);
    }
  }

  lemma ClearedNothing(a: nat, base: nat)
    requires base > 0
    ensures Cleared(a, base, 0) == a
  {
    assert Power(base, 0) == 1;
  }

  /** Decimal digits of a number below 256, without leading zeros. */
  function DecimalText(n: nat): string
    requires n < 256
  {
    (if n < 10 then "" else DecimalText(n / 10)) + [DigitChar(n % 10)]
  }

  lemma DigitCharReads(d: nat)
    requires d < 16
    ensures DigitOf(DigitChar(d)) == d && DigitChar(d) != '+'
  {
  }

  lemma {:induction false} DecimalReads(n: nat)
    requires n < 256
    ensures DecimalText(n) != "" && DecimalText(n)[0] != '+'
    ensures ReadDigits(DecimalText(n), 10).Some? && Value(ReadDigits(DecimalText(n), 10).value, 10) == n
  {
    DigitCharReads(n % 10);
    var s := DecimalText(n);
    if n < 10 {
      assert s == [DigitChar(n)] && s[..0] == "";
    } else {
      DecimalReads(n / 10);
      assert s[..|s| - 1] == DecimalText(n / 10);
    }
  }

  /** The name spells the first `k` octets of an IPv4 address, and nothing less specific is missing. */
  predicate SpellsV4(name: Name, a: u32, k: nat)
    requires k <= 4
  {
    && Lower(FromEnd(name, 0)) == "arpa" && Lower(FromEnd(name, 1)) == "in-addr"
    && (forall i | 0 <= i < k :: FromEnd(name, i + 2) == DecimalText(Digits(a, 256, 4)[i]))
    && (k < 4 ==> |name| <= k + 2)
  }

  /** The name spells the first `k` hexadecimal digits of an IPv6 address. */
  predicate SpellsV6(name: Name, a: u128, k: nat)
    requires k <= 32
  {
    && Lower(FromEnd(name, 0)) == "arpa" && Lower(FromEnd(name, 1)) == "ip6"
    && (forall i | 0 <= i < k :: IsNibble(FromEnd(name, i + 2), Digits(a, 16, 32)[i]))
    && (k < 32 ==> |name| <= k + 2)
  }

  predicate IsNibble(text: string, d: nat) {
    |text| == 1 && DigitOf(text[0]) == d
  }

  lemma OctetLabel(name: Name, a: u32, k: nat, i: nat)
    requires k <= 4 && i < 4 && SpellsV4(name, a, k)
    ensures FromEnd(name, i + 2) == DecimalText(TopDigits(a, 256, 4, k)[i])
  {
    assert DecimalText(0) == "0";
    hide DecimalText, Digits, Lower;
    if i < k {
      assert FromEnd(name, i + 2) == DecimalText(Digits(a, 256, 4)[i]);
    }
  }

  lemma OctetParses(octet: nat)
    requires octet < 256
    ensures ParseUnsigned(DecimalText(octet), 10, 255) == Some(octet)
  {
    hide DecimalText, ReadDigits, Value;
    DecimalReads(octet);
  }

  lemma {:induction false} OctetsRead(name: Name, a: u32, k: nat, n: nat)
    requires k <= 4 && n <= 4 && SpellsV4(name, a, k)
    ensures ReadOctets(name, n) == Some(TopDigits(a, 256, 4, k)[..n])
  {
    hide *;
    var ds := TopDigits(a, 256, 4, k);
    if n == 0 {
      NothingRead(name);
    } else {
      OctetsRead(name, a, k, n - 1);
      OctetLabel(name, a, k, n - 1);
      OctetParses(ds[n - 1]);
      assert ds[..n] == ds[..n - 1] + [ds[n - 1]];
      NextOctet(name, n - 1, ds[..n - 1], ds[n - 1]);
    }
  }

  lemma NothingRead(name: Name)
    ensures ReadOctets(name, 0) == Some([]) && ReadSegments(name, 0) == Some([])
    ensures Value([], 16) == Value([], 65536) == 0
  {
  }

  lemma NextOctet(name: Name, n: nat, init: seq<nat>, octet: nat)
    requires ReadOctets(name, n) == Some(init) && ParseUnsigned(FromEnd(name, n + 2), 10, 255) == Some(octet)
    ensures ReadOctets(name, n + 1) == Some(init + [octet])
  {
    hide ParseUnsigned, FromEnd;
  }

  lemma DecodesOctets(name: Name, octets: seq<nat>)
    requires Lower(FromEnd(name, 0)) == "arpa" && Lower(FromEnd(name, 1)) == "in-addr"
    requires ReadOctets(name, 4) == Some(octets)
    ensures Decoded(name).Some? && Decoded(name).value.V4? && Decoded(name).value.v4 == Value(octets, 256)
  {
    hide Lower, FromEnd, ReadOctets, ReadSegments, Value, Power;
  }

  lemma DecodesSegments(name: Name, segments: seq<nat>)
    requires Lower(FromEnd(name, 0)) == "arpa" && Lower(FromEnd(name, 1)) == "ip6"
    requires ReadSegments(name, 8) == Some(segments)
    ensures Decoded(name).Some? && Decoded(name).value.V6? && Decoded(name).value.v6 == Value(segments, 65536)
  {
    hide Lower, FromEnd, ReadOctets, ReadSegments, Value, Power;
  }

  lemma DecodedV4(name: Name, a: u32, k: nat)
    requires k <= 4 && SpellsV4(name, a, k)
    ensures Decoded(name).Some? && Decoded(name).value.V4?
    ensures Decoded(name).value.v4 == Cleared(a, 256, 4 - k)
  {
    hide Decoded, TopDigits, Digits, Power, Value, ReadOctets, ReadSegments, Cleared, DecimalText, Lower, FromEnd;
    var ds := TopDigits(a, 256, 4, k);
    OctetsRead(name, a, k, 4);
    assert ds[..4] == ds;
    DecodesOctets(name, ds);
    PowersOfSizes();
    ValueOfTop(a, 256, 4, k);
  }

  /** A reverse IPv4 name decides as its address; with low-order labels missing, as the network address. */
  lemma PtrV4Inverts(acl: AccessControl, name: Name, a: u32, k: nat)
    requires k <= 4 && SpellsV4(name, a, k)
    ensures Cleared(a, 256, 4 - k) <= U32_MAX
    ensures ShouldForward(acl, name) == acl.CheckIpInProxyList(V4(Cleared(a, 256, 4 - k)))
    ensures k == 4 ==> ShouldForward(acl, name) == acl.CheckIpInProxyList(V4(a))
  {
    hide Decoded, SpellsV4, Cleared;
    DecodedV4(name, a, k);
    ClearedNothing(a, 256);
  }

  /** The nibble the decoder reads at position `j` of the address. */
  lemma NibbleRead(name: Name, a: u128, k: nat, j: nat)
    requires k <= 32 && j < 32 && SpellsV6(name, a, k)
    ensures IsNibble(FromEnd(name, j + 2), TopDigits(a, 16, 32, k)[j])
  {
    if j < k {
      assert IsNibble(FromEnd(name, j + 2), Digits(a, 16, 32)[j]);
    }
  }

  lemma {:induction false} DigitsRead(s: string, ds: seq<nat>, radix: nat)
    requires |s| == |ds| && forall i | 0 <= i < |s| :: DigitOf(s[i]) == ds[i] < radix
    ensures ReadDigits(s, radix) == Some(ds)
  {
    hide DigitOf;
    if s != "" {
      var n := |s| - 1;
      DigitsRead(s[..n], ds[..n], radix);
      assert ds == ds[..n] + [ds[n]];
    }
  }

  lemma PowerOf16()
    ensures Power(16, 4) == 65536
  {
  }

  lemma FourNibbles(s: string, ds: seq<nat>)
    requires |s| == 4 == |ds| && forall i | 0 <= i < 4 :: DigitOf(s[i]) == ds[i] < 16
    ensures ParseUnsigned(s, 16, 65535) == Some(Value(ds, 16))
  {
    assert DigitOf(s[0]) < 16;
    assert s[0] != '+';
    hide DigitOf, Value, Power, ReadDigits;
    DigitsRead(s, ds, 16);
    ValueBounded(ds, 16);
    PowerOf16();
  }

  lemma SegmentParses(name: Name, a: u128, k: nat, m: nat)
    requires k <= 32 && m < 8 && SpellsV6(name, a, k)
    ensures ParseUnsigned(SegmentText(name, m), 16, 65535) == Some(Value(TopDigits(a, 16, 32, k)[4 * m..4 * m + 4], 16))
  {
    hide TopDigits, SpellsV6, FromEnd, ParseUnsigned, Value, DigitOf;
    NibbleRead(name, a, k, 4 * m);
    NibbleRead(name, a, k, 4 * m + 1);
    NibbleRead(name, a, k, 4 * m + 2);
    NibbleRead(name, a, k, 4 * m + 3);
    FourNibbles(SegmentText(name, m), TopDigits(a, 16, 32, k)[4 * m..4 * m + 4]);
  }

  /** Reading `n` segments reads the first `4 * n` nibbles. */
  lemma {:induction false} SegmentsRead(name: Name, a: u128, k: nat, n: nat)
    requires k <= 32 && n <= 8 && SpellsV6(name, a, k)
    ensures ReadSegments(name, n).Some?
    ensures Value(ReadSegments(name, n).value, 65536) == Value(TopDigits(a, 16, 32, k)[..4 * n], 16)
  {
    hide *;
    var ds := TopDigits(a, 16, 32, k);
    if n == 0 {
      NothingRead(name);
    } else {
      var m := n - 1;
      SegmentsRead(name, a, k, m);
      SegmentParses(name, a, k, m);
      var segments, segment := ReadSegments(name, m).value, ds[4 * m..4 * m + 4];
      assert ds[..4 * n] == ds[..4 * m] + segment;
      NextSegment(name, m, segments, Value(segment, 16));
      SegmentAppended(segments, ds[..4 * m], segment);
    }
  }

  lemma NextSegment(name: Name, n: nat, init: seq<nat>, segment: nat)
    requires ReadSegments(name, n) == Some(init) && ParseUnsigned(SegmentText(name, n), 16, 65535) == Some(segment)
    ensures ReadSegments(name, n + 1) == Some(init + [segment])
  {
    hide ParseUnsigned, SegmentText;
  }

  lemma SegmentAppended(segments: seq<nat>, nibbles: seq<nat>, segment: seq<nat>)
    requires Value(segments, 65536) == Value(nibbles, 16) && |segment| == 4
    ensures Value(segments + [Value(segment, 16)], 65536) == Value(nibbles + segment, 16)
  {
    PowerOf16();
    ValueAppend(nibbles, segment, 16);
    var all := segments + [Value(segment, 16)];
    assert all[..|all| - 1] == segments;
    hide Power;
  }

  /** A reverse IPv6 name decides as its address; with low-order labels missing, as the network address. */
  lemma PtrV6Inverts(acl: AccessControl, name: Name, a: u128, k: nat)
    requires k <= 32 && SpellsV6(name, a, k)
    ensures Cleared(a, 16, 32 - k) <= U128_MAX
    ensures ShouldForward(acl, name) == acl.CheckIpInProxyList(V6(Cleared(a, 16, 32 - k)))
    ensures k == 32 ==> ShouldForward(acl, name) == acl.CheckIpInProxyList(V6(a))
  {
    hide Decoded, SpellsV6, Cleared;
    DecodedV6(name, a, k);
    ClearedNothing(a, 16);
  }

  lemma DecodedV6(name: Name, a: u128, k: nat)
    requires k <= 32 && SpellsV6(name, a, k)
    ensures Decoded(name).Some? && Decoded(name).value.V6?
    ensures Decoded(name).value.v6 == Cleared(a, 16, 32 - k)
  {
    hide Decoded, TopDigits, Digits, Power, Value, ReadOctets, ReadSegments, Cleared, Lower, FromEnd, IsNibble;
    var ds := TopDigits(a, 16, 32, k);
    SegmentsRead(name, a, k, 8);
    assert ds[..32] == ds;
    DecodesSegments(name, ReadSegments(name, 8).value);
    PowersOfSizes();
    ValueOfTop(a, 16, 32, k);
  }

  /** The reverse name of an IPv4 address cut to its first `k` octets. */
  function PtrNameV4(a: u32, k: nat): Name
    requires k <= 4
  {
    seq(k, i requires 0 <= i < k => Text(DecimalText(Digits(a, 256, 4)[k - 1 - i]))) + [Text("in-addr"), Text("arpa")]
  }

  /** The reverse name of an IPv6 address cut to its first `k` hexadecimal digits. */
  function PtrNameV6(a: u128, k: nat): Name
    requires k <= 32
  {
    seq(k, i requires 0 <= i < k => Text([DigitChar(Digits(a, 16, 32)[k - 1 - i])])) + [Text("ip6"), Text("arpa")]
  }

  lemma LowerConstants()
    ensures Lower("arpa") == "arpa" && Lower("in-addr") == "in-addr" && Lower("ip6") == "ip6"
  {
  }

  /** Reverse names spell their addresses, also below further labels when the address is complete. */
  lemma PtrNameSpellsV4(more: Name, a: u32, k: nat)
    requires k <= 4 && (k < 4 ==> more == [])
    ensures SpellsV4(more + PtrNameV4(a, k), a, k)
  {
    hide Lower, Digits, DecimalText, ParseUnsigned;
    LowerConstants();
    var name := more + PtrNameV4(a, k);
    forall i | 0 <= i < k
      ensures FromEnd(name, i + 2) == DecimalText(Digits(a, 256, 4)[i])
    {
      assert name[|name| - 1 - (i + 2)] == PtrNameV4(a, k)[k - 1 - i];
    }
  }

  lemma PtrNameSpellsV6(more: Name, a: u128, k: nat)
    requires k <= 32 && (k < 32 ==> more == [])
    ensures SpellsV6(more + PtrNameV6(a, k), a, k)
  {
    hide Lower, Digits, DigitChar, DigitOf, ParseUnsigned;
    LowerConstants();
    var name := more + PtrNameV6(a, k);
    forall i | 0 <= i < k
      ensures IsNibble(FromEnd(name, i + 2), Digits(a, 16, 32)[i])
    {
      DigitCharReads(Digits(a, 16, 32)[i]);
    }
  }

  // ------------------------------------------------------------------ every other name

  /** What each character is worth as a digit: hexadecimal digits of either case, and nothing else. */
  lemma DigitExact(c: char)
    ensures '0' <= c <= '9' ==> DigitOf(c) == c as int - 48
    ensures 'a' <= c <= 'f' ==> DigitOf(c) == c as int - 87
    ensures 'A' <= c <= 'F' ==> DigitOf(c) == c as int - 55
    ensures DigitOf(c) < 16 <==> '0' <= c <= '9' || 'a' <= c <= 'f' || 'A' <= c <= 'F'
  {
  }

  /** A text without its plus sign. */
  function Unsigned(s: string): string {
    if |s| > 1 && s[0] == '+' then s[1..] else s
  }

  function DigitsOf(s: string): seq<nat> {
    seq(|s|, i requires 0 <= i < |s| => DigitOf(s[i]))
  }

  predicate IsNumber(s: string, radix: nat, max: nat) {
    var t := Unsigned(s);
    t != "" && AllDigits(t, radix) && Value(DigitsOf(t), radix) <= max
  }

  lemma DigitsSnoc(s: string, c: char, radix: nat)
    ensures DigitsOf(s + [c]) == DigitsOf(s) + [DigitOf(c)]
    ensures AllDigits(s + [c], radix) <==> AllDigits(s, radix) && DigitOf(c) < radix
  {
    hide DigitOf;
    var t := s + [c];
    assert forall i | 0 <= i < |s| :: t[i] == s[i];
    assert t[|s|] == c;
  }

  predicate AllDigits(s: string, radix: nat) {
    forall i | 0 <= i < |s| :: DigitOf(s[i]) < radix
  }

  lemma {:induction false} ReadDigitsExact(s: string, radix: nat)
    ensures ReadDigits(s, radix) == if AllDigits(s, radix) then Some(DigitsOf(s)) else None
  {
    if s == "" {
      assert DigitsOf("") == [];
    } else {
      hide DigitOf, AllDigits, DigitsOf;
      var n := |s| - 1;
      ReadDigitsExact(s[..n], radix);
      DigitsSnoc(s[..n], s[n], radix);
      assert s == s[..n] + [s[n]];
    }
  }

  /** A text parses exactly if it is digits, after a plus sign or not, of a number that fits, and as that number. */
  lemma ParseExact(s: string, radix: nat, max: nat)
    ensures ParseUnsigned(s, radix, max) ==
      if IsNumber(s, radix, max) then Some(Value(DigitsOf(Unsigned(s)), radix)) else None
  {
    hide ReadDigits, Value, DigitOf;
    ReadDigitsExact(Unsigned(s), radix);
  }

  /** The name ends in `suffix.arpa`, in any case. */
  predicate EndsIn(name: Name, suffix: string) {
    var n := |name|;
    && n >= 1 && name[n - 1].Text? && Lower(name[n - 1].text) == "arpa"
    && n >= 2 && name[n - 2].Text? && Lower(name[n - 2].text) == suffix
  }

  /** The `i`-th label before that suffix, the nearest first; a missing one is zero. */
  function Before(name: Name, i: nat): Label {
    if i + 3 <= |name| then name[|name| - 3 - i] else Text("0")
  }

  predicate IsOctet(part: Label) {
    part.Text? && IsNumber(part.text, 10, 255)
  }

  /** The labels `4 * i` to `4 * i + 3` are text that spells, put together, a hexadecimal number of 16 bits. */
  predicate IsSegment(name: Name, i: nat) {
    && (forall j | 4 * i <= j < 4 * i + 4 :: Before(name, j).Text?)
    && IsNumber(
         Before(name, 4 * i).text + Before(name, 4 * i + 1).text + Before(name, 4 * i + 2).text +
         Before(name, 4 * i + 3).text, 16, 65535)
  }

  lemma BeforeFromEnd(name: Name, i: nat)
    ensures FromEnd(name, i + 2) == if Before(name, i).Text? then Before(name, i).text else "*"
  {
  }

  lemma SuffixFromEnd(name: Name, suffix: string)
    requires suffix == "in-addr" || suffix == "ip6"
    ensures Lower(FromEnd(name, 0)) == "arpa" && Lower(FromEnd(name, 1)) == suffix <==> EndsIn(name, suffix)
  {
    NoSuffix("*");
    NoSuffix("0");
    hide Lower;
  }

  lemma NoSuffix(s: string)
    requires |s| == 1
    ensures Lower(s) != "arpa" && Lower(s) != "in-addr" && Lower(s) != "ip6"
  {
  }

  lemma {:induction false} NoOctets(name: Name, k: nat, n: nat)
    requires k <= n && ReadOctets(name, k).None?
    ensures ReadOctets(name, n).None?
  {
    hide ParseUnsigned, FromEnd;
    if k < n {
      NoOctets(name, k, n - 1);
    }
  }

  lemma {:induction false} NoSegments(name: Name, k: nat, n: nat)
    requires k <= n && ReadSegments(name, k).None?
    ensures ReadSegments(name, n).None?
  {
    hide ParseUnsigned, SegmentText;
    if k < n {
      NoSegments(name, k, n - 1);
    }
  }

  lemma OctetRead(name: Name, i: nat)
    ensures ParseUnsigned(FromEnd(name, i + 2), 10, 255).Some? <==> IsOctet(Before(name, i))
  {
    hide Value;
    BeforeFromEnd(name, i);
    ParseExact(FromEnd(name, i + 2), 10, 255);
    assert Unsigned("*")[0] == '*';
  }

  lemma OpaqueSpoils(s: string, i: nat)
    requires i < |s| && s[i] == '*'
    ensures !IsNumber(s, 16, 65535)
  {
    hide Value;
    var t := Unsigned(s);
    assert t == s || i > 0;
    assert '*' == if t == s then t[i] else t[i - 1];
    assert '*' in t && DigitOf('*') == 99;
  }

  lemma SegmentRead(name: Name, i: nat)
    ensures ParseUnsigned(SegmentText(name, i), 16, 65535).Some? <==> IsSegment(name, i)
  {
    hide IsNumber, ParseUnsigned, FromEnd, Before;
    ParseExact(SegmentText(name, i), 16, 65535);
    BeforeFromEnd(name, 4 * i);
    BeforeFromEnd(name, 4 * i + 1);
    BeforeFromEnd(name, 4 * i + 2);
    BeforeFromEnd(name, 4 * i + 3);
    if j :| 4 * i <= j < 4 * i + 4 && Before(name, j).Opaque? {
      OpaqueSpoilsText(
        FromEnd(name, 4 * i + 2), FromEnd(name, 4 * i + 3), FromEnd(name, 4 * i + 4), FromEnd(name, 4 * i + 5));
    }
  }

  lemma OpaqueSpoilsText(a: string, b: string, c: string, d: string)
    requires a == "*" || b == "*" || c == "*" || d == "*"
    ensures !IsNumber(a + b + c + d, 16, 65535)
  {
    hide IsNumber;
    var at := if a == "*" then 0 else if b == "*" then |a| else if c == "*" then |a| + |b| else |a| + |b| + |c|;
    OpaqueSpoils(a + b + c + d, at);
  }

  lemma NoAddress(name: Name)
    requires !(EndsIn(name, "in-addr") && forall i | 0 <= i < 4 :: IsOctet(Before(name, i)))
    requires !(EndsIn(name, "ip6") && forall i | 0 <= i < 8 :: IsSegment(name, i))
    ensures Decoded(name).None?
  {
    hide EndsIn, IsOctet, IsSegment, FromEnd, Before, ParseUnsigned, SegmentText, Lower, Value;
    SuffixFromEnd(name, "in-addr");
    SuffixFromEnd(name, "ip6");
    if EndsIn(name, "in-addr") {
      var i :| 0 <= i < 4 && !IsOctet(Before(name, i));
      OctetRead(name, i);
      NoOctets(name, i + 1, 4);
    } else if EndsIn(name, "ip6") {
      var i :| 0 <= i < 8 && !IsSegment(name, i);
      SegmentRead(name, i);
      NoSegments(name, i + 1, 8);
    }
  }

  /** A name that is no reverse name, because of its suffix or of a label that is no number, gets the default:
      forwarded in black-list mode only. */
  lemma OtherNamesByMode(acl: AccessControl, name: Name)
    requires !(EndsIn(name, "in-addr") && forall i | 0 <= i < 4 :: IsOctet(Before(name, i)))
    requires !(EndsIn(name, "ip6") && forall i | 0 <= i < 8 :: IsSegment(name, i))
    ensures ShouldForward(acl, name) <==> acl.mode == BlackList
  {
    NoAddress(name);
    hide Decoded;
  }

  function OctetOf(part: Label): nat {
    if part.Text? then Value(DigitsOf(Unsigned(part.text)), 10) else 0
  }

  lemma {:induction false} OctetsOf(name: Name, n: nat)
    requires forall i | 0 <= i < n :: IsOctet(Before(name, i))
    ensures ReadOctets(name, n).Some?
    ensures forall i | 0 <= i < n :: ReadOctets(name, n).value[i] == OctetOf(Before(name, i))
  {
    hide IsOctet, Before, FromEnd, ParseUnsigned, OctetOf;
    if n > 0 {
      OctetsOf(name, n - 1);
      OctetIs(name, n - 1);
    }
  }

  lemma OctetIs(name: Name, i: nat)
    requires IsOctet(Before(name, i))
    ensures ParseUnsigned(FromEnd(name, i + 2), 10, 255) == Some(OctetOf(Before(name, i)))
  {
    hide Value;
    BeforeFromEnd(name, i);
    ParseExact(FromEnd(name, i + 2), 10, 255);
  }

  /** A name in `in-addr.arpa` whose four labels are octets, however they are written, decides as their address. */
  lemma OctetsDecide(acl: AccessControl, name: Name)
    requires EndsIn(name, "in-addr") && forall i | 0 <= i < 4 :: IsOctet(Before(name, i))
    ensures var b, c, d, e :=
        OctetOf(Before(name, 0)), OctetOf(Before(name, 1)), OctetOf(Before(name, 2)), OctetOf(Before(name, 3));
      var a := ((b * 256 + c) * 256 + d) * 256 + e;
      a <= U32_MAX && ShouldForward(acl, name) == acl.CheckIpInProxyList(V4(a))
  {
    hide EndsIn, IsOctet, FromEnd, Before, OctetOf, Lower, ReadOctets, ReadSegments;
    SuffixFromEnd(name, "in-addr");
    OctetsOf(name, 4);
    var octets := ReadOctets(name, 4).value;
    DecodesOctets(name, octets);
    ValueOfFour(octets, 256);
  }

  /** The number the `i`-th group of four labels spells. */
  function SegmentOf(name: Name, i: nat): nat {
    if IsSegment(name, i) then
      Value(DigitsOf(Unsigned(
        Before(name, 4 * i).text + Before(name, 4 * i + 1).text + Before(name, 4 * i + 2).text +
        Before(name, 4 * i + 3).text)), 16)
    else 0
  }

  lemma SegmentIs(name: Name, i: nat)
    requires IsSegment(name, i)
    ensures ParseUnsigned(SegmentText(name, i), 16, 65535) == Some(SegmentOf(name, i))
  {
    hide IsNumber, ParseUnsigned, Value;
    ParseExact(SegmentText(name, i), 16, 65535);
    BeforeFromEnd(name, 4 * i);
    BeforeFromEnd(name, 4 * i + 1);
    BeforeFromEnd(name, 4 * i + 2);
    BeforeFromEnd(name, 4 * i + 3);
  }

  lemma {:induction false} SegmentsOf(name: Name, n: nat)
    requires forall i | 0 <= i < n :: IsSegment(name, i)
    ensures ReadSegments(name, n).Some?
    ensures forall i | 0 <= i < n :: ReadSegments(name, n).value[i] == SegmentOf(name, i)
  {
    hide IsSegment, SegmentText, ParseUnsigned, SegmentOf;
    if n > 0 {
      SegmentsOf(name, n - 1);
      SegmentIs(name, n - 1);
    }
  }

  /** A name in `ip6.arpa` whose eight groups of four labels are 16-bit numbers decides as their address. */
  lemma SegmentsDecide(acl: AccessControl, name: Name, segments: seq<nat>)
    requires EndsIn(name, "ip6") && |segments| == 8
    requires forall i | 0 <= i < 8 :: IsSegment(name, i) && segments[i] == SegmentOf(name, i)
    ensures Value(segments, 65536) <= U128_MAX
    ensures ShouldForward(acl, name) == acl.CheckIpInProxyList(V6(Value(segments, 65536)))
  {
    hide EndsIn, IsSegment, FromEnd, SegmentOf, Lower, ReadOctets, ReadSegments, Value;
    SuffixFromEnd(name, "ip6");
    SegmentsOf(name, 8);
    assert ReadSegments(name, 8).value == segments;
    DecodesSegments(name, segments);
  }

  // ------------------------------------------------------------------ the decision procedure

  method ShouldForwardByPtrName(acl: AccessControl, name: Name) returns (forward: bool)
    ensures forward == ShouldForward(acl, name)
  {
    hide ParseUnsigned, FromEnd, SegmentText, Value, Power, Lower;
    if Lower(FromEnd(name, 0)) != "arpa" {
      return acl.IsDefaultInProxyList();
    }
    var kind := Lower(FromEnd(name, 1));
    if kind == "in-addr" {
      var octets := new nat[4];
      for i := 0 to 4
        invariant ReadOctets(name, i) == Some(octets[..i])
      {
        var octet := ParseUnsigned(FromEnd(name, i + 2), 10, 255);
        if octet.None? {
          NoOctets(name, i + 1, 4);
          return acl.IsDefaultInProxyList();
        }
        octets[i] := octet.value;
        assert octets[..i + 1] == octets[..i] + [octet.value];
      }
      ValueBounded(octets[..], 256);
      PowersOfSizes();
      assert octets[..4] == octets[..];
      return acl.CheckIpInProxyList(V4(Value(octets[..], 256)));
    } else if kind == "ip6" {
      var segments := new nat[8];
      for i := 0 to 8
        invariant ReadSegments(name, i) == Some(segments[..i])
      {
        var segment := ParseUnsigned(SegmentText(name, i), 16, 65535);
        if segment.None? {
          NoSegments(name, i + 1, 8);
          return acl.IsDefaultInProxyList();
        }
        segments[i] := segment.value;
        assert segments[..i + 1] == segments[..i] + [segment.value];
      }
      ValueBounded(segments[..], 65536);
      PowersOfSizes();
      assert segments[..8] == segments[..];
      return acl.CheckIpInProxyList(V6(Value(segments[..], 65536)));
    } else {
      return acl.IsDefaultInProxyList();
    }
  }
}
