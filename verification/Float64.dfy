/**
  Rounding to binary64 (sections 4.3.1 and 5.4.1 of IEEE 754-2019): round to
  nearest, ties to even, of a positive real whose magnitude is in the normal
  range, which is where every quotient and product of the program lies.
*/
module Float64 {

  const TWO_TO_THE_52: int := 0x10_0000_0000_0000
  const TWO_TO_THE_53: int := 0x20_0000_0000_0000
  const P52: real := 4503599627370496.0
  const P53: real := 9007199254740992.0

  function RoundHalfEven(x: real): int {
    var f := x.Floor;
    var d := x - f as real;
    if d < 0.5 then f else if d > 0.5 then f + 1 else if f % 2 == 0 then f else f + 1
  }

  /** Doublings or halvings until a number has 53 bits before the point, at most. */
  function Distance(x: real): nat
    requires x > 0.0
  {
    if x < P52 then FloorNat(P52 / x) else if x >= P53 then FloorNat(x / P52) else 0
  }

  function FloorNat(x: real): nat
    requires x >= 0.0
  {
    x.Floor
  }

  lemma DistanceShrinks(x: real)
    requires x > 0.0
    ensures x < P52 ==> Distance(2.0 * x) < Distance(x)
    ensures x >= P53 ==> Distance(x / 2.0) < Distance(x)
  {
    if x < P52 {
      var y := P52 / x;
      assert y * x == P52;
      assert y > 1.0;
      assert P52 / (2.0 * x) == y / 2.0;
      if 2.0 * x < P52 {
        assert y > 2.0;
        assert (y / 2.0).Floor < y.Floor;
      }
    } else if x >= P53 {
      var y := x / P52;
      assert y >= 2.0;
      assert x / 2.0 / P52 == y / 2.0;
      assert (y / 2.0).Floor < y.Floor;
    }
  }

  function Round(x: real): (r: real)
    requires x > 0.0
    ensures r > 0.0
    decreases Distance(x)
  {
    DistanceShrinks(x);
    if x < P52 then Round(2.0 * x) / 2.0
    else if x >= P53 then 2.0 * Round(x / 2.0)
    else RoundHalfEven(x) as real
  }

  function Abs(x: real): real { if x < 0.0 then -x else x }

  /** With 53 bits before the point no integer is nearer, and of two as near the even one is taken. */
  lemma RoundNearestEven(x: real, k: int)
    requires P52 <= x < P53
    ensures var r := RoundHalfEven(x);
            && Round(x) == r as real && Abs(r as real - x) <= Abs(k as real - x)
            && (k != r && Abs(r as real - x) == Abs(k as real - x) ==> r % 2 == 0)
  {
    HalfEvenIsNearest(x, k);
    hide RoundHalfEven;
  }

  lemma HalfEvenIsNearest(x: real, k: int)
    ensures var r := RoundHalfEven(x);
            && Abs(r as real - x) <= Abs(k as real - x)
            && (k != r && Abs(r as real - x) == Abs(k as real - x) ==> r % 2 == 0)
  {
    var f := x.Floor;
    if k <= f {
      assert Abs(k as real - x) == x - k as real;
    } else {
      assert k >= f + 1;
      assert Abs(k as real - x) == k as real - x;
    }
  }

  /** The relative error is at most 2^-53. */
  lemma {:induction false} RoundError(x: real)
    requires x > 0.0
    ensures -x <= (Round(x) - x) * P53 <= x
    decreases Distance(x)
  {
    DistanceShrinks(x);
    if x < P52 {
      RoundError(2.0 * x);
    } else if x >= P53 {
      RoundError(x / 2.0);
    }
  }

  /** Integers up to 2^53 are representable. */
  lemma {:induction false} RoundInteger(k: int)
    requires 0 < k <= TWO_TO_THE_53
    ensures Round(k as real) == k as real
    decreases Distance(k as real)
  {
    var x := k as real;
    DistanceShrinks(x);
    if x < P52 {
      assert 2.0 * x == (2 * k) as real;
      RoundInteger(2 * k);
    } else if x >= P53 {
      assert x / 2.0 == TWO_TO_THE_52 as real;
      RoundInteger(TWO_TO_THE_52);
    }
  }

  lemma {:induction false} RoundBelow(x: real)
    requires 0.0 < x < P52
    ensures Round(x) <= P52
    decreases Distance(x)
  {
    DistanceShrinks(x);
    if 2.0 * x < P52 { RoundBelow(2.0 * x); }
  }

  lemma {:induction false} RoundAbove(x: real)
    requires x >= P52
    ensures Round(x) >= P52 && (x >= P53 ==> Round(x) >= P53)
    decreases Distance(x)
  {
    DistanceShrinks(x);
    if x >= P53 { RoundAbove(x / 2.0); }
  }

  lemma HalfEvenMonotone(x: real, y: real)
    requires x <= y
    ensures RoundHalfEven(x) <= RoundHalfEven(y)
  {
    assert x.Floor <= y.Floor;
  }

  lemma RoundMonotoneAcross(x: real, y: real)
    requires 0.0 < x <= y && (x < P52 <= y || (P52 <= x < P53))
    ensures Round(x) <= Round(y)
  {
    RoundAbove(y);
    if x < P52 {
      RoundBelow(x);
    } else if y < P53 {
      HalfEvenMonotone(x, y);
    }
  }

  lemma {:induction false} RoundMonotone(x: real, y: real)
    requires 0.0 < x <= y
    ensures Round(x) <= Round(y)
    decreases Distance(x)
  {
    DistanceShrinks(x);
    if y < P52 {
      RoundMonotone(2.0 * x, 2.0 * y);
      RoundDoubles(x);
      RoundDoubles(y);
    } else if x >= P53 {
      RoundMonotone(x / 2.0, y / 2.0);
      RoundDoubles(x / 2.0);
      RoundDoubles(y / 2.0);
    } else {
      RoundMonotoneAcross(x, y);
    }
  }

  lemma RoundDoubles(x: real)
    requires x > 0.0
    ensures Round(2.0 * x) == 2.0 * Round(x)
  {
  }

  function Pow2(n: nat): int { if n == 0 then 1 else 2 * Pow2(n - 1) }

  lemma {:induction false} PowAdds(m: nat, n: nat)
    ensures Pow2(m + n) == Pow2(m) * Pow2(n)
  {
    if m > 0 {
      PowAdds(m - 1, n);
    }
  }

  function Scaled(x: real, n: nat): (r: real)
    ensures x > 0.0 ==> r > 0.0
  {
    if n == 0 then x else 2.0 * Scaled(x, n - 1)
  }

  /** Rounding commutes with scaling by powers of two. */
  lemma {:induction false} RoundScaled(x: real, n: nat)
    requires x > 0.0
    ensures Round(Scaled(x, n)) == Scaled(Round(x), n)
  {
    if n > 0 {
      RoundScaled(x, n - 1);
      RoundDoubles(Scaled(x, n - 1));
    }
  }

  lemma {:induction false} ScaledIsProduct(x: real, n: nat)
    ensures Scaled(x, n) == x * Pow2(n) as real
  {
    if n > 0 {
      ScaledIsProduct(x, n - 1);
      var p := Pow2(n - 1) as real;
      assert Pow2(n) as real == 2.0 * p;
      assert x * (2.0 * p) == 2.0 * (x * p);
    }
  }

  lemma PowersOfTwo(x: real)
    ensures Scaled(x, 6) == x * 64.0 && Scaled(x, 7) == x * 128.0 && Scaled(x, 52) == x * P52
  {
    ScaledIsProduct(x, 6);
    ScaledIsProduct(x, 7);
    ScaledIsProduct(x, 52);
    assert Pow2(6) == 64 && Pow2(7) == 128;
    PowAdds(13, 13);
    PowAdds(26, 26);
    assert Pow2(13) == 8192;
  }

  lemma ScaledBy53(x: real)
    ensures Scaled(x, 53) == x * P53
  {
    PowersOfTwo(x);
    assert Scaled(x, 53) == 2.0 * Scaled(x, 52);
  }

  lemma ScaledBy46(x: real)
    ensures Scaled(x, 46) == x * 70368744177664.0
  {
    ScaledIsProduct(x, 46);
    PowAdds(23, 23);
    PowAdds(12, 11);
    assert Pow2(12) == 4096 && Pow2(11) == 2048;
  }

  /** Up to 2^53 the error is at most one half. */
  lemma {:induction false} RoundHalf(x: real)
    requires 0.0 < x <= P53
    ensures -0.5 <= Round(x) - x <= 0.5
    decreases Distance(x)
  {
    DistanceShrinks(x);
    if x < P52 {
      RoundHalf(2.0 * x);
    } else if x == P53 {
      RoundInteger(TWO_TO_THE_53);
    }
  }

  /** Below 2^53 over 2^n it is at most half of 2^-n: half a unit in the last place. */
  lemma RoundHalfUnit(x: real, n: nat)
    requires x > 0.0 && Scaled(x, n) <= P53
    ensures -0.5 <= Scaled(Round(x), n) - Scaled(x, n) <= 0.5
  {
    RoundHalf(Scaled(x, n));
    RoundScaled(x, n);
  }
}
