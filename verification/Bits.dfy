/** Binary words as natural numbers, one bit at a time. */
module Bits {

  const TWO32: nat := 0x1_0000_0000

  function Bit(w: nat, k: nat): bool {
    if k == 0 then w % 2 == 1 else Bit(w / 2, k - 1)
  }

  /** What `bts` stores: bit `k` on, the others as they were. */
  function SetBit(w: nat, k: nat): nat {
    if k == 0 then (if w % 2 == 1 then w else w + 1)
    else 2 * SetBit(w / 2, k - 1) + w % 2
  }

  function Ones(w: nat): nat {
    if w == 0 then 0 else w % 2 + Ones(w / 2)
  }

  function Pow2(n: nat): nat {
    if n == 0 then 1 else 2 * Pow2(n - 1)
  }

  lemma {:induction false} SetBitBits(w: nat, k: nat, j: nat)
    ensures Bit(SetBit(w, k), j) <==> j == k || Bit(w, j)
  {
    var r := SetBit(w, k);
    if k == 0 {
      assert r / 2 == w / 2;
    } else {
      assert r / 2 == SetBit(w / 2, k - 1) && r % 2 == w % 2;
      if j > 0 { SetBitBits(w / 2, k - 1, j - 1); }
    }
  }

  lemma {:induction false} SetBitFits(w: nat, k: nat, n: nat)
    requires k < n && w < Pow2(n)
    ensures SetBit(w, k) < Pow2(n)
  {
    var half := Pow2(n - 1);
    assert Pow2(n) == 2 * half && w / 2 < half;
    if k > 0 {
      SetBitFits(w / 2, k - 1, n - 1);
    } else {
      assert w % 2 == 0 ==> w + 1 < 2 * half;
    }
  }

  lemma OnesSplit(w: nat)
    ensures Ones(w) == w % 2 + Ones(w / 2)
  {
  }

  lemma {:induction false} SetBitOnes(w: nat, k: nat)
    ensures Ones(SetBit(w, k)) == Ones(w) + if Bit(w, k) then 0 else 1
  {
    var r := SetBit(w, k);
    if k == 0 {
      assert r / 2 == w / 2;
    } else {
      SetBitOnes(w / 2, k - 1);
      assert r / 2 == SetBit(w / 2, k - 1) && r % 2 == w % 2;
      OnesSplit(w);
      OnesSplit(r);
    }
  }

  lemma {:induction false} NoBitsInZero(k: nat)
    ensures !Bit(0, k)
  {
    if k > 0 { NoBitsInZero(k - 1); }
  }

  /** Bit `k` of a long is bit `k` of its low half or bit `k - 32` of its high half. */
  lemma {:induction false} LongBit(low: nat, high: nat, n: nat, k: nat)
    requires low < Pow2(n)
    ensures Bit(low + Pow2(n) * high, k) == if k < n then Bit(low, k) else Bit(high, k - n)
  {
    if n > 0 {
      var w := low + Pow2(n) * high;
      assert Pow2(n) * high == 2 * (Pow2(n - 1) * high);
      assert w / 2 == low / 2 + Pow2(n - 1) * high && w % 2 == low % 2;
      if k > 0 { LongBit(low / 2, high, n - 1, k - 1); }
    }
  }

  lemma Pow32()
    ensures Pow2(32) == TWO32
  {
    assert Pow2(8) == 256;
    assert Pow2(16) == 65536;
    assert Pow2(24) == 0x100_0000;
  }

  // ---------------------------------------------------------------- bitwise operators

  /** a | b */
  function Or(a: nat, b: nat): nat
    decreases a + b
  {
    if a == 0 && b == 0 then 0
    else 2 * Or(a / 2, b / 2) + if a % 2 == 1 || b % 2 == 1 then 1 else 0
  }

  /** ~b & a */
  function AndNot(a: nat, b: nat): nat {
    if a == 0 then 0
    else 2 * AndNot(a / 2, b / 2) + if a % 2 == 1 && b % 2 == 0 then 1 else 0
  }

  lemma {:induction false} OrBits(a: nat, b: nat, k: nat)
    ensures Bit(Or(a, b), k) <==> Bit(a, k) || Bit(b, k)
    decreases k
  {
    if a == 0 && b == 0 {
      NoBitsInZero(k);
    } else if k > 0 {
      OrBits(a / 2, b / 2, k - 1);
    }
  }

  lemma {:induction false} AndNotBits(a: nat, b: nat, k: nat)
    ensures Bit(AndNot(a, b), k) <==> Bit(a, k) && !Bit(b, k)
    decreases k
  {
    if a == 0 {
      NoBitsInZero(k);
    } else if k > 0 {
      AndNotBits(a / 2, b / 2, k - 1);
    }
  }

  lemma {:induction false} OrFits(a: nat, b: nat, n: nat)
    requires a < Pow2(n) && b < Pow2(n)
    ensures Or(a, b) < Pow2(n)
  {
    if n > 0 && (a != 0 || b != 0) { OrFits(a / 2, b / 2, n - 1); }
  }

  lemma {:induction false} AndNotFits(a: nat, b: nat)
    ensures AndNot(a, b) <= a
  {
    if a != 0 { AndNotFits(a / 2, b / 2); }
  }

  lemma {:induction false} NoHighBits(w: nat, n: nat, k: nat)
    requires w < Pow2(n) && n <= k
    ensures !Bit(w, k)
  {
    if n == 0 {
      NoBitsInZero(k);
    } else {
      NoHighBits(w / 2, n - 1, k - 1);
    }
  }

  /** A word is the set of its bits. */
  lemma {:induction false} SameBitsSameWord(a: nat, b: nat)
    requires forall k: nat :: Bit(a, k) <==> Bit(b, k)
    ensures a == b
    decreases a + b
  {
    assert Bit(a, 0) <==> Bit(b, 0);
    if a != 0 || b != 0 {
      forall k: nat ensures Bit(a / 2, k) <==> Bit(b / 2, k) {
        assert Bit(a, k + 1) <==> Bit(b, k + 1);
      }
      SameBitsSameWord(a / 2, b / 2);
    }
  }
}
