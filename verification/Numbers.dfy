/** Numbers as digits in a base, the most significant first. */
module Numbers {
  import opened Prelude
  import opened Net

  /** Value of a list of digits, the most significant first. */
  function Value(digits: seq<nat>, base: nat): nat {
    if digits == [] then 0 else Value(digits[..|digits| - 1], base) * base + digits[|digits| - 1]
  }

  lemma NextDigit(v: nat, p: nat, d: nat, base: nat)
    requires v < p && d < base
    ensures v * base + d < p * base
  {
    assert (v + 1) * base <= p * base;
  }

  lemma {:induction false} ValueBounded(digits: seq<nat>, base: nat)
    requires base > 0 && forall i | 0 <= i < |digits| :: digits[i] < base
    ensures Value(digits, base) < Power(base, |digits|)
  {
    if digits != [] {
      var n := |digits| - 1;
      ValueBounded(digits[..n], base);
      NextDigit(Value(digits[..n], base), Power(base, n), digits[n], base);
    }
  }

  function Power(base: nat, n: nat): (p: nat)
    ensures base > 0 ==> p > 0
  {
    if n == 0 then 1
    else
      var p := Power(base, n - 1);
      assert base > 0 ==> p * base >= base;
      p * base
  }

  lemma PowersOfSizes()
    ensures Power(256, 4) == U32_MAX + 1
    ensures Power(65536, 8) == U128_MAX + 1
    ensures Power(16, 32) == U128_MAX + 1
  {
    assert Power(65536, 4) == 0x1_0000_0000_0000_0000;
    assert Power(16, 8) == 0x1_0000_0000;
    assert Power(16, 16) == 0x1_0000_0000_0000_0000;
    assert Power(16, 24) == 0x1_0000_0000_0000_0000_0000_0000;
  }

  function Quotient(a: nat, d: nat): (q: nat)
    requires d > 0
  {
    a / d
  }

  function Remainder(a: nat, d: nat): (r: nat)
    requires d > 0
    ensures r < d
  {
    a % d
  }

  /** The `n` digits of `a` in a base, the most significant first. */
  function Digits(a: nat, base: nat, n: nat): (ds: seq<nat>)
    requires base > 0
    ensures |ds| == n && forall i | 0 <= i < n :: ds[i] < base
    decreases n
  {
    if n == 0 then [] else Digits(Quotient(a, base), base, n - 1) + [Remainder(a, base)]
  }

  lemma MultipleIsLarge(x: int, d: int)
    requires d > 0
    ensures x >= 1 ==> x * d >= d
    ensures x <= -1 ==> x * d <= -d
  {
  }

  lemma QuotientUnique(a: nat, d: nat, q: nat, r: nat)
    requires d > 0 && a == q * d + r && r < d
    ensures Quotient(a, d) == q
  {
    MultipleIsLarge(a / d - q, d);
    assert (a / d - q) * d == r - a % d;
  }

  lemma Decompose(a: nat, d: nat)
    requires d > 0
    ensures a == Quotient(a, d) * d + Remainder(a, d)
  {
  }

  lemma Distribute(x: int, y: int, z: int)
    ensures (x + y) * z == x * z + y * z
  {
  }

  lemma Regroup(x: int, y: int, z: int)
    ensures (x * y) * z == x * (y * z)
  {
  }

  lemma NestedSum(q: nat, p: nat, s: nat, b: nat, r: nat)
    requires b > 0 && s < p && r < b
    ensures (q * p + s) * b + r == q * (p * b) + (s * b + r)
    ensures s * b + r < p * b
  {
    NextDigit(s, p, r, b);
    Distribute(q * p, s, b);
    Regroup(q, p, b);
  }

  lemma QuotientBelow(a: nat, base: nat, p: nat)
    requires base > 0 && a < p * base
    ensures Quotient(a, base) < p
  {
    Decompose(a, base);
    var q := Quotient(a, base);
    hide Quotient;
    MultipleIsLarge(q - p + 1, base);
    assert (q - p + 1) * base == q * base - p * base + base;
  }

  /** The value of all digits of `a` is `a`. */
  lemma {:induction false} ValueOfDigits(a: nat, base: nat, n: nat)
    requires base > 0 && a < Power(base, n)
    ensures Value(Digits(a, base, n), base) == a
    decreases n
  {
    hide Quotient, Remainder;
    if n > 0 {
      QuotientBelow(a, base, Power(base, n - 1));
      ValueOfDigits(Quotient(a, base), base, n - 1);
      Decompose(a, base);
      assert Digits(a, base, n)[..n - 1] == Digits(Quotient(a, base), base, n - 1);
    }
  }

  lemma {:induction false} ValueAppend(x: seq<nat>, y: seq<nat>, base: nat)
    ensures Value(x + y, base) == Value(x, base) * Power(base, |y|) + Value(y, base)
  {
    if y == [] {
      assert x + y == x;
    } else {
      var init, last := y[..|y| - 1], y[|y| - 1];
      ValueAppend(x, init, base);
      assert (x + y)[..|x + y| - 1] == x + init;
      Distribute(Value(x, base) * Power(base, |init|), Value(init, base), base);
      Regroup(Value(x, base), Power(base, |init|), base);
    }
  }

  lemma SplitLast(v: nat, d: nat, base: nat)
    requires base > 0 && d < base
    ensures Quotient(v * base + d, base) == v && Remainder(v * base + d, base) == d
  {
    QuotientUnique(v * base + d, base, v, d);
    Decompose(v * base + d, base);
  }

  /** The digits of the value of a list of digits are the list. */
  lemma {:induction false} DigitsOfValue(ds: seq<nat>, base: nat)
    requires base > 0 && forall i | 0 <= i < |ds| :: ds[i] < base
    ensures Digits(Value(ds, base), base, |ds|) == ds
  {
    hide Quotient, Remainder;
    if ds != [] {
      var n := |ds| - 1;
      DigitsOfValue(ds[..n], base);
      SplitLast(Value(ds[..n], base), ds[n], base);
      assert ds == ds[..n] + [ds[n]];
    }
  }

  lemma PowersOfBytes()
    ensures Power(256, 2) == U16_MAX + 1
    ensures Power(256, 4) == U32_MAX + 1
    ensures Power(256, 16) == U128_MAX + 1
  {
    assert Power(256, 8) == 0x1_0000_0000_0000_0000;
    assert Power(256, 12) == 0x1_0000_0000_0000_0000_0000_0000;
  }

  lemma ValueOfTwo(ds: seq<nat>, base: nat)
    requires |ds| == 2
    ensures Value(ds, base) == ds[0] * base + ds[1]
  {
    assert ds[..1] == [ds[0]] && [ds[0]][..0] == [];
    assert Value([ds[0]], base) == ds[0];
  }

  lemma ValueOfFour(ds: seq<nat>, base: nat)
    requires |ds| == 4
    ensures Value(ds, base) == ((ds[0] * base + ds[1]) * base + ds[2]) * base + ds[3]
  {
    assert ds[..3][..2] == ds[..2] && ds[..2][..1] == [ds[0]];
    assert Value([ds[0]], base) == ds[0];
    assert Value(ds[..2], base) == ds[0] * base + ds[1];
    assert Value(ds[..3], base) == (ds[0] * base + ds[1]) * base + ds[2];
  }
}
