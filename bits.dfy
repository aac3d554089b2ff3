/** Binary arithmetic on natural numbers: the bit operations that the hypercube
    routing performs on node addresses (`1 << i`, `x ^ y`, bit tests), defined by
    recursion on binary digits, with the facts about them that the routing
    proofs use. */
module Bits {

  /** 2^i, the value of `1 << i`. */
  function Pow2(i: nat): (p: nat)
    ensures p > i
  {
    if i == 0 then 1 else 2 * Pow2(i - 1)
  }

  /** Bit i of x, as 0 or 1. */
  function Bit(x: nat, i: nat): (b: nat)
    ensures b <= 1
  {
    if i == 0 then x % 2 else Bit(x / 2, i - 1)
  }

  /** Bitwise exclusive or, `x ^ y`. */
  function Xor(x: nat, y: nat): nat
    decreases x + y
  {
    if x == 0 && y == 0 then 0
    else 2 * Xor(x / 2, y / 2) + (if x % 2 == y % 2 then 0 else 1)
  }

  /** The value of the k lowest bits of x (x with every bit at or above k cleared). */
  function Low(x: nat, k: nat): nat
  {
    if k == 0 then 0 else 2 * Low(x / 2, k - 1) + x % 2
  }

  /** Number of binary digits of x: the least k with x < 2^k. */
  function BitLength(x: nat): nat
  {
    if x == 0 then 0 else 1 + BitLength(x / 2)
  }

  /** Number of set bits of x. */
  function Popcount(x: nat): nat
  {
    if x == 0 then 0 else x % 2 + Popcount(x / 2)
  }

  lemma Pow2Sixteen()
    ensures Pow2(16) == 0x1_0000
  {
    assert Pow2(4) == 16;
    assert Pow2(8) == 256;
    assert Pow2(12) == 4096;
  }

  lemma {:induction false} Pow2Monotone(i: nat, j: nat)
    requires i <= j
    ensures Pow2(i) <= Pow2(j)
    decreases j
  {
    if i < j {
      Pow2Monotone(i, j - 1);
    }
  }

  /** `Xor` read off at its lowest bit; also true when both arguments are 0. */
  lemma XorUnfold(x: nat, y: nat)
    ensures Xor(x, y) == 2 * Xor(x / 2, y / 2) + (if x % 2 == y % 2 then 0 else 1)
  {
  }

  lemma {:induction false} XorZero(x: nat)
    ensures Xor(x, 0) == x
    decreases x
  {
    if x != 0 {
      XorZero(x / 2);
    }
  }

  lemma {:induction false} XorSelf(x: nat)
    ensures Xor(x, x) == 0
    decreases x
  {
    if x != 0 {
      XorSelf(x / 2);
    }
  }

  /** Bit i of `x ^ y` is set exactly when x and y differ at bit i. */
  lemma {:induction false} BitOfXor(x: nat, y: nat, i: nat)
    ensures Bit(Xor(x, y), i) == (if Bit(x, i) == Bit(y, i) then 0 else 1)
    decreases i
  {
    XorUnfold(x, y);
    if i > 0 {
      BitOfXor(x / 2, y / 2, i - 1);
    }
  }

  /** `x ^ (1 << i)` flips bit i of x: it adds 2^i when the bit is clear and
      subtracts 2^i when it is set. */
  lemma {:induction false} XorPow2(x: nat, i: nat)
    ensures Xor(x, Pow2(i)) == if Bit(x, i) == 0 then x + Pow2(i) else x - Pow2(i)
    decreases i
  {
    XorUnfold(x, Pow2(i));
    if i == 0 {
      XorZero(x / 2);
    } else {
      var h := Pow2(i - 1);
      assert Pow2(i) / 2 == h && Pow2(i) % 2 == 0;
      assert Bit(x, i) == Bit(x / 2, i - 1);
      XorPow2(x / 2, i - 1);
      assert x == 2 * (x / 2) + x % 2;
    }
  }

  /** Flipping bit i of x brings it strictly closer to d, in the order of the
      value of `x ^ d`, exactly when x and d differ at bit i. */
  lemma {:induction false} FlipCloserIff(x: nat, d: nat, i: nat)
    ensures Xor(Xor(x, Pow2(i)), d) < Xor(x, d) <==> Bit(x, i) != Bit(d, i)
    decreases i
  {
    var y := Xor(x, Pow2(i));
    XorUnfold(x, Pow2(i));
    XorUnfold(y, d);
    XorUnfold(x, d);
    if i == 0 {
      XorZero(x / 2);
      assert y / 2 == x / 2 && y % 2 != x % 2;
    } else {
      assert y / 2 == Xor(x / 2, Pow2(i - 1)) && y % 2 == x % 2;
      FlipCloserIff(x / 2, d / 2, i - 1);
    }
  }

  /** Two numbers below 2^k have their xor below 2^k. */
  lemma {:induction false} XorBound(x: nat, y: nat, k: nat)
    requires x < Pow2(k) && y < Pow2(k)
    ensures Xor(x, y) < Pow2(k)
    decreases k
  {
    XorUnfold(x, y);
    if k == 0 {
    } else {
      XorBound(x / 2, y / 2, k - 1);
    }
  }

  /** Bits at or above the bit length are clear. */
  lemma {:induction false} BitAbove(x: nat, i: nat)
    requires x < Pow2(i)
    ensures Bit(x, i) == 0
    decreases i
  {
    if i > 0 {
      BitAbove(x / 2, i - 1);
    }
  }

  /** A set bit at position i means the number is at least 2^i. */
  lemma BitSetBound(x: nat, i: nat)
    requires Bit(x, i) == 1
    ensures Pow2(i) <= x
  {
    if x < Pow2(i) {
      BitAbove(x, i);
    }
  }

  /** The loop guard `i <= log2(x)` over integers: 2^i <= x exactly when i is
      below the bit length of x. */
  lemma {:induction false} Pow2BelowIff(x: nat, i: nat)
    ensures Pow2(i) <= x <==> i < BitLength(x)
    decreases i
  {
    if i > 0 && x > 0 {
      Pow2BelowIff(x / 2, i - 1);
    }
  }

  lemma BitLengthBound(x: nat)
    ensures x < Pow2(BitLength(x))
  {
    Pow2BelowIff(x, BitLength(x));
  }

  /** Numbers below 2^k that agree on all bits below k are equal. */
  lemma {:induction false} BitsDetermine(x: nat, y: nat, k: nat)
    requires x < Pow2(k) && y < Pow2(k)
    requires forall i: nat :: i < k ==> Bit(x, i) == Bit(y, i)
    ensures x == y
    decreases k
  {
    if k > 0 {
      assert Bit(x, 0) == Bit(y, 0);
      forall i: nat | i < k - 1
        ensures Bit(x / 2, i) == Bit(y / 2, i)
      {
        assert Bit(x, i + 1) == Bit(y, i + 1);
      }
      BitsDetermine(x / 2, y / 2, k - 1);
    }
  }

  /** The k low bits of x form a number below 2^k and at most x. */
  lemma {:induction false} LowBound(x: nat, k: nat)
    ensures Low(x, k) < Pow2(k) && Low(x, k) <= x
    decreases k
  {
    if k > 0 {
      LowBound(x / 2, k - 1);
    }
  }

  /** Taking the low bits of a number that already fits in k bits changes nothing. */
  lemma {:induction false} LowFull(x: nat, k: nat)
    requires x < Pow2(k)
    ensures Low(x, k) == x
    decreases k
  {
    if k > 0 {
      LowFull(x / 2, k - 1);
    }
  }

  /** Bit i of `Low(x, k)` is bit i of x below k and clear from k up. */
  lemma {:induction false} BitOfLow(x: nat, k: nat, i: nat)
    ensures Bit(Low(x, k), i) == if i < k then Bit(x, i) else 0
    decreases k
  {
    if k == 0 {
      BitAbove(0, i);
    } else if i > 0 {
      BitOfLow(x / 2, k - 1, i - 1);
    }
  }

  /** Extending the low part by bit k adds 2^k exactly when bit k is set. */
  lemma {:induction false} LowStep(x: nat, k: nat)
    ensures Low(x, k + 1) == if Bit(x, k) == 1 then Low(x, k) + Pow2(k) else Low(x, k)
    decreases k
  {
    if k > 0 {
      LowStep(x / 2, k - 1);
    }
  }

  /** Setting a bit above every set bit adds one to the popcount. */
  lemma {:induction false} PopcountAddHigh(x: nat, k: nat)
    requires x < Pow2(k)
    ensures Popcount(x + Pow2(k)) == Popcount(x) + 1
    decreases k
  {
    if k > 0 {
      assert (x + Pow2(k)) / 2 == x / 2 + Pow2(k - 1);
      PopcountAddHigh(x / 2, k - 1);
    }
  }

  lemma {:induction false} PopcountPow2(i: nat)
    ensures Popcount(Pow2(i)) == 1
  {
    PopcountAddHigh(0, i);
  }

  /** A number with p set bits is at least 2^p - 1. */
  lemma {:induction false} Pow2PopcountBound(x: nat)
    ensures Pow2(Popcount(x)) <= x + 1
    decreases x
  {
    if x > 0 {
      Pow2PopcountBound(x / 2);
    }
  }

  /** Adding 2^i to a number whose bit i is clear changes exactly that bit:
      the xor of the two is 2^i. */
  lemma {:induction false} XorAddBit(x: nat, i: nat)
    requires Bit(x, i) == 0
    ensures Xor(x, x + Pow2(i)) == Pow2(i)
    decreases i
  {
    XorUnfold(x, x + Pow2(i));
    if i == 0 {
      XorSelf(x / 2);
    } else {
      assert (x + Pow2(i)) / 2 == x / 2 + Pow2(i - 1);
      XorAddBit(x / 2, i - 1);
    }
  }
}
