/** Machine words as integers: bit tests, bitwise or, and powers of two. */
module Words {

  function Pow2(n: nat): (p: nat)
    ensures p > 0
  {
    if n == 0 then 1 else 2 * Pow2(n - 1)
  }

  /** Whether bit `k` of `w` is set. */
  predicate Bit(w: nat, k: nat) {
    if k == 0 then w % 2 == 1 else Bit(w / 2, k - 1)
  }

  /** Bitwise or. */
  function Or(a: nat, b: nat): nat {
    if a == 0 then b
    else if b == 0 then a
    else (if a % 2 == 1 || b % 2 == 1 then 1 else 0) + 2 * Or(a / 2, b / 2)
  }

  lemma {:induction false} BitOfZero(k: nat)
    ensures !Bit(0, k)
  {
    if k > 0 {
      BitOfZero(k - 1);
    }
  }

  lemma {:induction false} BitOfPow2(n: nat, k: nat)
    ensures Bit(Pow2(n), k) <==> k == n
  {
    if n == 0 {
      if k > 0 {
        BitOfZero(k - 1);
      }
    } else if k > 0 {
      BitOfPow2(n - 1, k - 1);
    }
  }

  lemma {:induction false} BitOfOr(a: nat, b: nat, k: nat)
    ensures Bit(Or(a, b), k) <==> Bit(a, k) || Bit(b, k)
  {
    BitOfZero(k);
    if a != 0 && b != 0 && k > 0 {
      BitOfOr(a / 2, b / 2, k - 1);
    }
  }

  /** Setting a bit leaves a word unchanged exactly when the bit was already set. */
  lemma {:induction false} OrPow2Same(w: nat, k: nat)
    ensures Or(w, Pow2(k)) == w <==> Bit(w, k)
  {
    if w == 0 {
      BitOfZero(k);
    } else if k > 0 {
      OrPow2Same(w / 2, k - 1);
    }
  }

  /** A bitwise or of two `n`-bit words is an `n`-bit word. */
  lemma {:induction false} OrWidth(a: nat, b: nat, n: nat)
    requires a < Pow2(n) && b < Pow2(n)
    ensures Or(a, b) < Pow2(n)
  {
    if a != 0 && b != 0 {
      OrWidth(a / 2, b / 2, n - 1);
    }
  }

  lemma {:induction false} Pow2Grows(m: nat, n: nat)
    requires m < n
    ensures Pow2(m) < Pow2(n)
  {
    if m + 1 < n {
      Pow2Grows(m, n - 1);
    }
  }

  lemma Pow2Is64()
    ensures Pow2(64) == 0x1_0000_0000_0000_0000
  {
    assert Pow2(8) == 0x100;
    assert Pow2(16) == 0x1_0000;
    assert Pow2(24) == 0x100_0000;
    assert Pow2(32) == 0x1_0000_0000;
    assert Pow2(40) == 0x100_0000_0000;
    assert Pow2(48) == 0x1_0000_0000_0000;
    assert Pow2(56) == 0x100_0000_0000_0000;
  }
}
