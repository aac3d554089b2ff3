/** The routing rule of the hypercube task, stated independently of the code
    that runs it: the canonical route from node 0 to a destination, and the
    hop a node chooses toward a destination. */
module HypercubeRoute {
  import opened Bits

  /** The route through the k lowest dimensions: 0 followed by the value of
      the j lowest bits of d for every j <= k at which a set bit of d is
      reached, lowest first. */
  function Prefixes(d: nat, k: nat): seq<nat>
  {
    if k == 0 then [0]
    else Prefixes(d, k - 1) + (if Bit(d, k - 1) == 1 then [Low(d, k)] else [])
  }

  /** The canonical route from node 0 to dest: the prefix accumulation of the
      set bits of dest. A destination of 0 or below yields `[0]`. */
  function Route(dest: int): seq<nat>
  {
    if dest <= 0 then [0] else Prefixes(dest, BitLength(dest))
  }

  /** The hop that node r chooses toward d in an n-node network, searching the
      dimensions i from `from` on while 2^i < n: r with the first bit at which it
      differs from d flipped, or -1 when r and d agree on every searched bit. */
  function NextHopFrom(r: nat, d: nat, n: nat, from: nat): (h: int)
    ensures h >= -1
    decreases n - from
  {
    if Pow2(from) >= n then -1
    else if Bit(r, from) != Bit(d, from) then Xor(r, Pow2(from))
    else NextHopFrom(r, d, n, from + 1)
  }

  function NextHop(r: nat, d: nat, n: nat): int
  {
    NextHopFrom(r, d, n, 0)
  }

  /** Two nodes are linked in the hypercube when their addresses differ in
      exactly one bit. */
  predicate Adjacent(a: nat, b: nat)
  {
    Popcount(Xor(a, b)) == 1
  }

  // ---------------------------------------------------------------------
  // The shape of the route
  // ---------------------------------------------------------------------

  /** The route through the k lowest dimensions starts at 0, ends at the value
      of the k lowest bits of d, has one entry more than those bits have set
      bits, and no entry exceeds its last. */
  lemma {:induction false} PrefixesEnds(d: nat, k: nat)
    ensures |Prefixes(d, k)| == Popcount(Low(d, k)) + 1
    ensures Prefixes(d, k)[0] == 0
    ensures Prefixes(d, k)[|Prefixes(d, k)| - 1] == Low(d, k)
    ensures forall j :: 0 <= j < |Prefixes(d, k)| ==> Prefixes(d, k)[j] <= Low(d, k)
    decreases k
  {
    if k > 0 {
      PrefixesEnds(d, k - 1);
      LowStep(d, k - 1);
      LowBound(d, k - 1);
      var p := Prefixes(d, k - 1);
      if Bit(d, k - 1) == 1 {
        assert Prefixes(d, k) == p + [Low(d, k)];
        PopcountAddHigh(Low(d, k - 1), k - 1);
      } else {
        assert Prefixes(d, k) == p;
      }
    }
  }

  /** Route entries through the k lowest dimensions strictly climb. */
  lemma {:induction false} PrefixesIncreasing(d: nat, k: nat)
    ensures forall a, b :: 0 <= a < b < |Prefixes(d, k)| ==> Prefixes(d, k)[a] < Prefixes(d, k)[b]
    decreases k
  {
    if k > 0 {
      PrefixesIncreasing(d, k - 1);
      if Bit(d, k - 1) == 1 {
        var p := Prefixes(d, k - 1);
        PrefixesEnds(d, k - 1);
        LowStep(d, k - 1);
        assert forall a :: 0 <= a < |p| ==> p[a] < Low(d, k);
      }
    }
  }

  /** Each step of the route through the k lowest dimensions flips exactly one bit. */
  lemma {:induction false} PrefixesAdjacent(d: nat, k: nat)
    ensures forall j :: 0 <= j < |Prefixes(d, k)| - 1 ==> Adjacent(Prefixes(d, k)[j], Prefixes(d, k)[j + 1])
    decreases k
  {
    if k > 0 {
      PrefixesAdjacent(d, k - 1);
      var p := Prefixes(d, k - 1);
      if Bit(d, k - 1) == 1 {
        var q := p + [Low(d, k)];
        assert Prefixes(d, k) == q;
        PrefixesEnds(d, k - 1);
        SetBitAdjacent(d, k - 1);
        assert Adjacent(q[|p| - 1], q[|p|]);
        forall j | 0 <= j < |q| - 1
          ensures Adjacent(q[j], q[j + 1])
        {
          if j < |p| - 1 {
            assert q[j] == p[j] && q[j + 1] == p[j + 1];
          }
        }
      } else {
        assert Prefixes(d, k) == p;
      }
    }
  }

  /** Taking one more low bit of d, when that bit is set, moves to a neighbour. */
  lemma SetBitAdjacent(d: nat, k: nat)
    requires Bit(d, k) == 1
    ensures Adjacent(Low(d, k), Low(d, k + 1))
  {
    var low := Low(d, k);
    LowStep(d, k);
    LowBound(d, k);
    BitAbove(low, k);
    XorAddBit(low, k);
    PopcountPow2(k);
  }

  /** Once the k low bits hold all of d, further dimensions add nothing. */
  lemma {:induction false} PrefixesStable(d: nat, k: nat, m: nat)
    requires Low(d, k) == d && k <= m
    ensures Prefixes(d, m) == Prefixes(d, k)
    decreases m
  {
    if k < m {
      PrefixesStable(d, k, m - 1);
      LowBound(d, k);
      Pow2Monotone(k, m - 1);
      BitAbove(d, m - 1);
    }
  }

  lemma RouteIsFullPrefixes(dest: nat)
    requires dest > 0
    ensures Route(dest) == Prefixes(dest, BitLength(dest))
    ensures Low(dest, BitLength(dest)) == dest
  {
    BitLengthBound(dest);
    LowFull(dest, BitLength(dest));
  }

  /** `calculate_path(dest)` starts at 0 and ends at dest; for dest <= 0 it is [0]. */
  lemma RouteEnds(dest: int)
    ensures |Route(dest)| >= 1 && Route(dest)[0] == 0
    ensures Route(dest)[|Route(dest)| - 1] == if dest > 0 then dest else 0
    ensures dest <= 0 ==> Route(dest) == [0]
  {
    if dest > 0 {
      RouteIsFullPrefixes(dest);
      PrefixesEnds(dest, BitLength(dest));
    }
  }

  /** The route has popcount(dest) + 1 entries: one hop per set bit of dest,
      which is the Hamming distance from 0 to dest. */
  lemma RouteLength(dest: nat)
    ensures |Route(dest)| == Popcount(dest) + 1
  {
    if dest > 0 {
      RouteIsFullPrefixes(dest);
      PrefixesEnds(dest, BitLength(dest));
    }
  }

  /** Consecutive route entries are hypercube neighbours. */
  lemma RouteAdjacent(dest: int)
    ensures forall j :: 0 <= j < |Route(dest)| - 1 ==> Adjacent(Route(dest)[j], Route(dest)[j + 1])
  {
    if dest > 0 {
      PrefixesAdjacent(dest, BitLength(dest));
    }
  }

  /** Route entries strictly increase and none exceeds dest. */
  lemma RouteIncreasing(dest: nat)
    ensures forall a, b :: 0 <= a < b < |Route(dest)| ==> Route(dest)[a] < Route(dest)[b]
    ensures forall j :: 0 <= j < |Route(dest)| ==> Route(dest)[j] <= dest
  {
    if dest > 0 {
      RouteIsFullPrefixes(dest);
      PrefixesEnds(dest, BitLength(dest));
      PrefixesIncreasing(dest, BitLength(dest));
    }
  }

  /** The route fits the output buffer of `floor(log2(n)) + 1` slots that the
      tests allocate, for any destination below n. */
  lemma RouteFits(dest: nat, n: nat)
    requires dest < n
    ensures |Route(dest)| <= BitLength(n)
  {
    RouteLength(dest);
    Pow2PopcountBound(dest);
    Pow2BelowIff(n, Popcount(dest));
  }

  /** The expected paths the tests check. */
  lemma RouteExamples()
    ensures Route(0) == [0]
    ensures Route(1) == [0, 1]
    ensures Route(2) == [0, 2]
    ensures Route(3) == [0, 1, 3]
    ensures Route(4) == [0, 4]
    ensures Route(5) == [0, 1, 5]
    ensures Route(7) == [0, 1, 3, 7]
    ensures Route(14) == [0, 2, 6, 14]
    ensures Route(29) == [0, 1, 5, 13, 29]
  {
    RouteSmall();
    RouteSeven();
    RouteFourteen();
    RouteTwentyNine();
  }

  lemma RouteSmall()
    ensures Route(1) == [0, 1]
    ensures Route(2) == [0, 2]
    ensures Route(4) == [0, 4]
  {
    assert BitLength(1) == 1;
    assert BitLength(2) == 2;
    assert BitLength(4) == 3;
    assert Prefixes(2, 1) == [0];
    assert Prefixes(4, 2) == [0];
  }

  lemma RouteSeven()
    ensures Route(3) == [0, 1, 3]
    ensures Route(5) == [0, 1, 5]
    ensures Route(7) == [0, 1, 3, 7]
  {
    assert BitLength(3) == 2;
    assert BitLength(5) == 3;
    assert BitLength(7) == 3;
    assert Prefixes(5, 2) == [0, 1];
    assert Prefixes(7, 2) == [0, 1, 3];
  }

  lemma RouteFourteen()
    ensures Route(14) == [0, 2, 6, 14]
  {
    assert BitLength(14) == 4;
    assert Prefixes(14, 1) == [0];
    assert Prefixes(14, 2) == [0, 2];
    assert Prefixes(14, 3) == [0, 2, 6];
  }

  lemma RouteTwentyNine()
    ensures Route(29) == [0, 1, 5, 13, 29]
  {
    assert BitLength(29) == 5;
    assert Prefixes(29, 1) == [0, 1];
    assert Prefixes(29, 2) == [0, 1];
    assert Prefixes(29, 3) == [0, 1, 5];
    assert Prefixes(29, 4) == [0, 1, 5, 13];
  }

  // ---------------------------------------------------------------------
  // The hop rule
  // ---------------------------------------------------------------------

  /** The search skips dimensions at which r and d agree. */
  lemma {:induction false} NextHopSkipsAgreeing(r: nat, d: nat, n: nat, i: nat, j: nat)
    requires i <= j && Pow2(j) < n
    requires forall t: nat :: i <= t < j ==> Bit(r, t) == Bit(d, t)
    ensures NextHopFrom(r, d, n, i) == NextHopFrom(r, d, n, j)
    decreases j - i
  {
    if i < j {
      Pow2Monotone(i, j);
      NextHopSkipsAgreeing(r, d, n, i + 1, j);
    }
  }

  /** r and d agree on every bit in [i, t). */
  ghost predicate AgreeBetween(r: nat, d: nat, i: nat, t: nat)
  {
    forall u: nat :: i <= u < t ==> Bit(r, u) == Bit(d, u)
  }

  /** The search reports -1 exactly when r and d agree on every searched bit;
      otherwise it flips the first bit at which they differ. */
  lemma {:induction false} NextHopFromSpec(r: nat, d: nat, n: nat, i: nat)
    ensures NextHopFrom(r, d, n, i) == -1 <==>
              forall t: nat :: i <= t && Pow2(t) < n ==> Bit(r, t) == Bit(d, t)
    ensures NextHopFrom(r, d, n, i) != -1 ==>
              exists t: nat :: i <= t && Pow2(t) < n && Bit(r, t) != Bit(d, t)
                               && AgreeBetween(r, d, i, t) && NextHopFrom(r, d, n, i) == Xor(r, Pow2(t))
    decreases n - i
  {
    if Pow2(i) >= n {
      forall t: nat | i <= t
        ensures Pow2(t) >= n
      {
        Pow2Monotone(i, t);
      }
    } else if Bit(r, i) == Bit(d, i) {
      NextHopFromSpec(r, d, n, i + 1);
      assert NextHopFrom(r, d, n, i) == NextHopFrom(r, d, n, i + 1);
      if NextHopFrom(r, d, n, i + 1) == -1 {
        forall t: nat | i <= t && Pow2(t) < n
          ensures Bit(r, t) == Bit(d, t)
        {
          if t > i {
            assert i + 1 <= t;
          }
        }
      } else {
        var t: nat :| i + 1 <= t && Pow2(t) < n && Bit(r, t) != Bit(d, t)
                      && AgreeBetween(r, d, i + 1, t) && NextHopFrom(r, d, n, i + 1) == Xor(r, Pow2(t));
        assert AgreeBetween(r, d, i, t);
      }
    } else {
      assert NextHopFrom(r, d, n, i) == Xor(r, Pow2(i));
      assert AgreeBetween(r, d, i, i);
    }
  }

  /** Flipping one bit of r gives a neighbour of r. */
  lemma FlipAdjacent(r: nat, t: nat)
    ensures Adjacent(r, Xor(r, Pow2(t)))
  {
    XorPow2(r, t);
    PopcountPow2(t);
    if Bit(r, t) == 0 {
      XorAddBit(r, t);
    } else {
      var s := r - Pow2(t);
      assert Bit(s, t) == 0 by {
        BitOfXor(r, Pow2(t), t);
        Pow2Bit(t);
      }
      XorAddBit(s, t);
      XorCommute(s, r);
    }
  }

  /** Two addresses below n that agree on every bit i with 2^i < n are equal. */
  lemma AgreeBelowSizeEqual(r: nat, d: nat, n: nat)
    requires r < n && d < n
    requires forall t: nat :: Pow2(t) < n ==> Bit(r, t) == Bit(d, t)
    ensures r == d
  {
    var k := BitLength(n - 1);
    forall i: nat | i < k
      ensures Bit(r, i) == Bit(d, i)
    {
      Pow2BelowIff(n - 1, i);
    }
    BitLengthBound(n - 1);
    BitsDetermine(r, d, k);
  }

  /** `getNextId` at node r toward d, both below n, yields -1 exactly when r is
      d; otherwise it yields a neighbour of r that is strictly closer to d in
      the order of the value of `x ^ d`. */
  lemma NextHopSpec(r: nat, d: nat, n: nat)
    requires r < n && d < n
    ensures NextHop(r, d, n) == -1 <==> r == d
    ensures r != d ==> NextHop(r, d, n) >= 0
    ensures r != d ==> Xor(NextHop(r, d, n), d) < Xor(r, d)
    ensures r != d ==> Adjacent(r, NextHop(r, d, n))
  {
    NextHopFromSpec(r, d, n, 0);
    if NextHop(r, d, n) == -1 {
      AgreeBelowSizeEqual(r, d, n);
    } else {
      var t: nat :| Pow2(t) < n && Bit(r, t) != Bit(d, t) && NextHop(r, d, n) == Xor(r, Pow2(t));
      FlipCloserIff(r, d, t);
      FlipAdjacent(r, t);
    }
  }

  lemma {:induction false} Pow2Bit(t: nat)
    ensures Bit(Pow2(t), t) == 1
    decreases t
  {
    if t > 0 {
      Pow2Bit(t - 1);
    }
  }

  lemma {:induction false} XorCommute(x: nat, y: nat)
    ensures Xor(x, y) == Xor(y, x)
    decreases x + y
  {
    if x != 0 || y != 0 {
      XorCommute(x / 2, y / 2);
    }
  }

  /** Along the route, the hop rule moves to the next route entry. If the k
      low bits of d are not yet all of d, the node holding them hops to the
      value of the j low bits for the first set bit j - 1 >= k, and the route
      through j dimensions is the route through k dimensions plus that node. */
  lemma {:induction false} NextHopAlongRoute(d: nat, n: nat, k: nat)
    requires 0 < d < n
    requires Low(d, k) != d
    ensures exists j :: k < j <= BitLength(d) && NextHop(Low(d, k), d, n) == Low(d, j)
                        && Low(d, j) > 0 && Prefixes(d, j) == Prefixes(d, k) + [Low(d, j)]
    decreases BitLength(d) - k
  {
    var r := Low(d, k);
    assert k < BitLength(d) by {
      if k >= BitLength(d) {
        BitLengthBound(d);
        Pow2Monotone(BitLength(d), k);
        LowFull(d, k);
      }
    }
    LowStep(d, k);
    if Bit(d, k) == 1 {
      BitSetBound(d, k);
      forall t: nat | 0 <= t < k
        ensures Bit(r, t) == Bit(d, t)
      {
        BitOfLow(d, k, t);
      }
      NextHopSkipsAgreeing(r, d, n, 0, k);
      BitOfLow(d, k, k);
      XorPow2(r, k);
      assert NextHop(r, d, n) == Low(d, k + 1);
      assert Prefixes(d, k + 1) == Prefixes(d, k) + [Low(d, k + 1)];
    } else {
      NextHopAlongRoute(d, n, k + 1);
    }
  }
}
