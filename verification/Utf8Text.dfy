/** Which byte strings are text: the table behind `ValidUtf8` admits exactly the encodings of Unicode scalar values. */
module Utf8Text {
  import opened Numbers
  import opened Prelude
  import opened Wire

  /** A code point that is no surrogate. */
  predicate IsScalar(cp: nat) {
    cp <= 0x10FFFF && !(0xD800 <= cp <= 0xDFFF)
  }

  /** The UTF-8 form of a code point, section 3 of RFC 3629. */
  function Encode(cp: nat): Bytes
    requires cp <= 0x10FFFF
  {
    if cp < 0x80 then [cp]
    else if cp < 0x800 then [0xC0 + cp / 64, 0x80 + cp % 64]
    else if cp < 0x1_0000 then [0xE0 + cp / 4096, 0x80 + cp / 64 % 64, 0x80 + cp % 64]
    else [0xF0 + cp / 262144, 0x80 + cp / 4096 % 64, 0x80 + cp / 64 % 64, 0x80 + cp % 64]
  }

  function EncodeAll(text: seq<nat>): Bytes
    requires forall i | 0 <= i < |text| :: IsScalar(text[i])
  {
    if text == [] then []
    else
      assert IsScalar(text[0]);
      Encode(text[0]) + EncodeAll(text[1..])
  }

  /** A code point's first byte tells the length of its form, and the bytes are in the ranges of the table. */
  lemma EncodedInTable(cp: nat)
    requires IsScalar(cp)
    ensures var b := Encode(cp);
      if cp < 0x80 then |b| == 1 && b[0] <= 0x7F
      else if cp < 0x800 then |b| == 2 && 0xC2 <= b[0] <= 0xDF && 0x80 <= b[1] <= 0xBF
      else if cp < 0x1_0000 then
        && |b| == 3 && 0xE0 <= b[0] <= 0xEF && 0x80 <= b[1] <= 0xBF && 0x80 <= b[2] <= 0xBF
        && (b[0] == 0xE0 ==> b[1] >= 0xA0) && (b[0] == 0xED ==> b[1] <= 0x9F)
      else
        && |b| == 4 && 0xF0 <= b[0] <= 0xF4 && 0x80 <= b[1] <= 0xBF && 0x80 <= b[2] <= 0xBF && 0x80 <= b[3] <= 0xBF
        && (b[0] == 0xF0 ==> b[1] >= 0x90) && (b[0] == 0xF4 ==> b[1] <= 0x8F)
  {
  }

  lemma EncodedIsValid(cp: nat, rest: Bytes)
    requires IsScalar(cp)
    ensures ValidUtf8(Encode(cp) + rest) <==> ValidUtf8(rest)
  {
    var form := Encode(cp);
    EncodedInTable(cp);
    hide Encode, IsScalar;
    var b := form + rest;
    assert forall i | 0 <= i < |form| :: b[i] == form[i];
    assert b[|form|..] == rest;
  }

  lemma DivMod(a: nat, x: nat, d: nat)
    requires x < d
    ensures d > 0 && (a * d + x) / d == a && (a * d + x) % d == x
  {
    SplitLast(a, x, d);
  }

  lemma TwoBytes(a: nat, x: nat)
    requires 0xC2 <= a <= 0xDF && 0x80 <= x <= 0xBF
    ensures var cp := (a - 0xC0) * 64 + (x - 0x80);
      IsScalar(cp) && Encode(cp) == [a, x]
  {
    DivMod(a - 0xC0, x - 0x80, 64);
  }

  lemma ThreeBytes(a: nat, x: nat, y: nat)
    requires 0xE0 <= a <= 0xEF && 0x80 <= x <= 0xBF && 0x80 <= y <= 0xBF
    requires (a == 0xE0 ==> x >= 0xA0) && (a == 0xED ==> x <= 0x9F)
    ensures var cp := ((a - 0xE0) * 64 + (x - 0x80)) * 64 + (y - 0x80);
      IsScalar(cp) && Encode(cp) == [a, x, y]
  {
    var high := (a - 0xE0) * 64 + (x - 0x80);
    var cp := high * 64 + (y - 0x80);
    DivMod(high, y - 0x80, 64);
    DivMod(a - 0xE0, x - 0x80, 64);
    DivMod(a - 0xE0, (x - 0x80) * 64 + (y - 0x80), 4096);
  }

  lemma FourBytes(a: nat, x: nat, y: nat, z: nat)
    requires 0xF0 <= a <= 0xF4 && 0x80 <= x <= 0xBF && 0x80 <= y <= 0xBF && 0x80 <= z <= 0xBF
    requires (a == 0xF0 ==> x >= 0x90) && (a == 0xF4 ==> x <= 0x8F)
    ensures var cp := (((a - 0xF0) * 64 + (x - 0x80)) * 64 + (y - 0x80)) * 64 + (z - 0x80);
      IsScalar(cp) && Encode(cp) == [a, x, y, z]
  {
    var top := (a - 0xF0) * 64 + (x - 0x80);
    var high := top * 64 + (y - 0x80);
    DivMod(high, z - 0x80, 64);
    DivMod(top, y - 0x80, 64);
    DivMod(a - 0xF0, x - 0x80, 64);
    DivMod(top, (y - 0x80) * 64 + (z - 0x80), 4096);
    DivMod(a - 0xF0, (x - 0x80) * 4096 + (y - 0x80) * 64 + (z - 0x80), 262144);
  }

  /** Text begins with bytes in the ranges of the table. */
  lemma TableOf(b: Bytes)
    requires b != [] && ValidUtf8(b)
    ensures
      || b[0] <= 0x7F
      || (0xC2 <= b[0] <= 0xDF && |b| > 1 && 0x80 <= b[1] <= 0xBF)
      || (&& 0xE0 <= b[0] <= 0xEF && |b| > 2 && 0x80 <= b[1] <= 0xBF && 0x80 <= b[2] <= 0xBF
          && (b[0] == 0xE0 ==> b[1] >= 0xA0) && (b[0] == 0xED ==> b[1] <= 0x9F))
      || (&& 0xF0 <= b[0] <= 0xF4 && |b| > 3 && 0x80 <= b[1] <= 0xBF && 0x80 <= b[2] <= 0xBF && 0x80 <= b[3] <= 0xBF
          && (b[0] == 0xF0 ==> b[1] >= 0x90) && (b[0] == 0xF4 ==> b[1] <= 0x8F))
  {
  }

  /** Text begins with the form of some scalar value. */
  lemma FirstDecodes(b: Bytes) returns (cp: nat)
    requires b != [] && ValidUtf8(b)
    ensures IsScalar(cp) && |Encode(cp)| <= |b| && b == Encode(cp) + b[|Encode(cp)|..]
  {
    TableOf(b);
    hide ValidUtf8;
    var a: nat := b[0];
    if a <= 0x7F {
      cp := a;
      assert b == [b[0]] + b[1..];
    } else {
      hide Encode, IsScalar;
      var x: nat := b[1];
      if a <= 0xDF {
        cp := (a - 0xC0) * 64 + (x - 0x80);
        TwoBytes(a, x);
        assert b == [b[0], b[1]] + b[2..];
      } else if a <= 0xEF {
        var y: nat := b[2];
        cp := ((a - 0xE0) * 64 + (x - 0x80)) * 64 + (y - 0x80);
        ThreeBytes(a, x, y);
        assert b == [b[0], b[1], b[2]] + b[3..];
      } else {
        var y: nat, z: nat := b[2], b[3];
        cp := (((a - 0xF0) * 64 + (x - 0x80)) * 64 + (y - 0x80)) * 64 + (z - 0x80);
        FourBytes(a, x, y, z);
        assert b == [b[0], b[1], b[2], b[3]] + b[4..];
      }
    }
  }

  lemma {:induction false} TextDecodes(b: Bytes) returns (text: seq<nat>)
    requires ValidUtf8(b)
    ensures (forall i | 0 <= i < |text| :: IsScalar(text[i])) && EncodeAll(text) == b
  {
    if b == [] {
      text := [];
    } else {
      var cp := FirstDecodes(b);
      var rest := b[|Encode(cp)|..];
      EncodedIsValid(cp, rest);
      hide ValidUtf8, Encode;
      var more := TextDecodes(rest);
      text := [cp] + more;
      assert text[1..] == more;
    }
  }

  lemma {:induction false} EncodedTextIsValid(text: seq<nat>)
    requires forall i | 0 <= i < |text| :: IsScalar(text[i])
    ensures ValidUtf8(EncodeAll(text))
  {
    if text != [] {
      EncodedIsValid(text[0], EncodeAll(text[1..]));
      hide ValidUtf8, Encode;
      EncodedTextIsValid(text[1..]);
    }
  }

  /** Bytes are text exactly if they are the forms of some scalar values put together. */
  lemma ValidUtf8Exact(b: Bytes)
    ensures ValidUtf8(b) <==> exists text :: (forall i | 0 <= i < |text| :: IsScalar(text[i])) && EncodeAll(text) == b
  {
    if ValidUtf8(b) {
      var text := TextDecodes(b);
    }
    forall text | (forall i | 0 <= i < |text| :: IsScalar(text[i])) && EncodeAll(text) == b
      ensures ValidUtf8(b)
    {
      EncodedTextIsValid(text);
    }
  }
}
