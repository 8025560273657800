/** When the computed fleet percentage is the documented ceiling, exactly. */
module FleetPctExact {
  import opened Arithmetic
  import opened Float64
  import opened FleetPct

  /** The whole percentages k for which 100 times the float of k/100 rounds above k. */
  const BUMPED: set<int> := {7, 14, 28, 55, 56}

  /** The two roundings of the code push 100 x upward. */
  predicate Bumps(x: real)
    requires x > 0.0
  {
    Round(Round(x) * 100.0) > 100.0 * x
  }

  lemma BumpsScaled(x: real, n: nat)
    requires x > 0.0
    ensures Bumps(Scaled(x, n)) <==> Bumps(x)
  {
    if n > 0 {
      BumpsScaled(x, n - 1);
      var y := Scaled(x, n - 1);
      RoundDoubles(y);
      RoundDoubles(Round(y) * 100.0);
      assert Round(2.0 * y) * 100.0 == 2.0 * (Round(y) * 100.0);
    }
  }

  // ---- c/100 for c from 100 to 199, in integers ----

  /** What rounding c/100 to 53 bits adds to 100 of its last units, as 2^52 is 96 modulo 100. */
  function Excess(c: int): int {
    var r := 96 * c % 100;
    if r > 50 then 100 - r else -r
  }

  lemma RoundHundredth(c: int)
    requires 100 <= c < 200
    ensures Round(c as real * P52 / 100.0) * 100.0 == c as real * P52 + Excess(c) as real
  {
    var y := c as real * P52 / 100.0;
    var r := 96 * c % 100;
    var q := 96 * c / 100;
    var f := 45035996273704 * c + q;
    assert 96 * c == 100 * q + r;
    assert r % 4 == 0;
    assert y == f as real + r as real / 100.0;
    assert y.Floor == f;
    assert P52 <= y < P53;
    assert Round(y) == (if r > 50 then f + 1 else f) as real;
  }

  lemma RoundNearInteger(c: int, d: int)
    requires 100 <= c < 200 && -50 <= d <= 50
    ensures var w := c as real * P52 + d as real;
            w > 0.0 && (Round(w) > c as real * P52 <==> c < 128 && d > 32)
  {
    if d <= 0 {
      var w := c as real * P52 + d as real;
      RoundMonotone(w, c as real * P52);
      RoundInteger(c);
      RoundScaled(c as real, 52);
      PowersOfTwo(c as real);
      PowersOfTwo(Round(c as real));
    } else if c < 128 {
      RoundFractionOf64(c, d);
    } else {
      RoundFractionOf128(c, d);
    }
  }

  /** A fraction over an even 53-bit integer goes up exactly when it is more than a half. */
  lemma RoundOverEven(k: int, f: real)
    requires TWO_TO_THE_52 <= k < TWO_TO_THE_53 && k % 2 == 0 && 0.0 < f < 1.0
    ensures Round(k as real + f) == if f <= 0.5 then k as real else k as real + 1.0
  {
    var v := k as real + f;
    assert v.Floor == k;
    assert P52 <= v < P53;
  }

  /** Below 2^59 the last unit is 64. */
  lemma RoundFractionOf64(c: int, d: int)
    requires 100 <= c < 128 && 0 < d <= 50
    ensures Round(c as real * P52 + d as real) > c as real * P52 <==> d > 32
  {
    var k, f := c * 70368744177664, d as real / 64.0;
    RoundOverEven(k, f);
    hide Round;
    PowersOfTwo(k as real + f);
    RoundScaled(k as real + f, 6);
    PowersOfTwo(Round(k as real + f));
  }

  /** From there on it is 128. */
  lemma RoundFractionOf128(c: int, d: int)
    requires 128 <= c < 200 && 0 < d <= 50
    ensures Round(c as real * P52 + d as real) <= c as real * P52
  {
    var k, f := c * 35184372088832, d as real / 128.0;
    RoundOverEven(k, f);
    hide Round;
    PowersOfTwo(k as real + f);
    RoundScaled(k as real + f, 7);
    PowersOfTwo(Round(k as real + f));
  }

  lemma BumpsHundredth(c: int)
    requires 100 <= c < 200
    ensures Bumps(c as real / 100.0) <==> c < 128 && Excess(c) > 32
  {
    var x := c as real / 100.0;
    BumpsScaled(x, 52);
    PowersOfTwo(x);
    RoundHundredth(c);
    RoundNearInteger(c, Excess(c));
  }

  // ---- k/100 for k from 1 to 100 ----

  /** k doubled until it is at least 100. */
  function Doubled(k: int): int
    requires 0 < k < 200
    decreases 200 - k
  {
    if k >= 100 then k else Doubled(2 * k)
  }

  lemma {:induction false} BumpsDoubled(k: int)
    requires 0 < k < 200
    ensures 100 <= Doubled(k) < 200
    ensures Bumps(k as real / 100.0) <==> Bumps(Doubled(k) as real / 100.0)
    decreases 200 - k
  {
    if k < 100 {
      BumpsScaled(k as real / 100.0, 1);
      assert Scaled(k as real / 100.0, 1) == (2 * k) as real / 100.0 by {
        assert Scaled(k as real / 100.0, 0) == k as real / 100.0;
      }
      BumpsDoubled(2 * k);
    }
  }

  lemma ExcessRange(c: int)
    requires 100 <= c < 200
    ensures c < 128 && Excess(c) > 32 <==> 109 <= c <= 112
  {
  }

  lemma DoubledOf(k: int)
    requires 0 < k <= 100
    ensures 109 <= Doubled(k) <= 112 <==> k in BUMPED
  {
    assert k >= 50 ==> Doubled(k) == if k >= 100 then k else 2 * k;
    assert 25 <= k < 50 ==> Doubled(k) == Doubled(2 * k) == 4 * k;
    assert 13 <= k < 25 ==> Doubled(k) == Doubled(2 * k) == Doubled(4 * k) == 8 * k;
    assert 7 <= k < 13 ==> Doubled(k) == Doubled(2 * k) == Doubled(4 * k) == Doubled(8 * k) == 16 * k;
    assert k < 7 ==>
        Doubled(k) == if k == 3 || k == 6 then 192 else if k == 5 then 160 else 128;
  }

  lemma BumpsWhole(k: int)
    requires 0 < k <= 100
    ensures Bumps(k as real / 100.0) <==> k in BUMPED
  {
    BumpsDoubled(k);
    BumpsHundredth(Doubled(k));
    ExcessRange(Doubled(k));
    DoubledOf(k);
  }

  /**
    The result is the documented ceiling exactly unless 100 i / n is one of five
    whole numbers; then it is one too high.
  */
  lemma FleetPctIsCeilingIff(i: int, n: int, wild: int)
    requires 0 < i && 0 < n <= MAX_INVENTORY && InIntRange(i, n)
    ensures var bumped := 100 * i % n == 0 && 100 * i / n in BUMPED;
            && (ComputeFleetPct(i, n, wild) == Min(100, CeilPct(i, n)) <==> !bumped)
            && (bumped ==> ComputeFleetPct(i, n, wild) == CeilPct(i, n) + 1)
  {
    CeilDiv(100 * i, n);
    FleetPctBounds(i, n, wild);
    if i > n {
      OverfullReports100(i, n, wild);
    } else {
      FloatPctError(i, n);
      CeilFromError(FloatPct(i, n), i, n);
      assert Ceil(FloatPct(i, n)) > 0;
      if 100 * i % n == 0 {
        var k := 100 * i / n;
        MulOrder(100, k, n);
        MulOrder(0, k, n);
        WholeQuotient(i, n, k);
        BumpsWhole(k);
      }
    }
  }

  lemma WholeQuotient(i: int, n: int, k: int)
    requires 0 < i <= n <= MAX_INVENTORY && 100 * i == k * n && 0 < k
    ensures FloatPct(i, n) == Round(Round(k as real / 100.0) * 100.0)
  {
    RoundInteger(i);
    RoundInteger(n);
    assert k as real / 100.0 * n as real == (k * n) as real / 100.0;
    assert k as real / 100.0 == i as real / n as real;
  }

  /** The smallest input that shows the difference: 7 of 100 gives 8. */
  lemma SevenOfAHundred(wild: int)
    ensures ComputeFleetPct(7, 100, wild) == 8 && CeilPct(7, 100) == 7
  {
    RatioInRange(7, 100);
    FleetPctIsCeilingIff(7, 100, wild);
  }

  /** Twice that ratio already leaves the int range: the platform's value is reported, a negative one unclamped. */
  lemma TwiceTheRatioIsOutOfRange(wild: int)
    ensures !InIntRange(2 * MAX_RATIO, 1) && ComputeFleetPct(2 * MAX_RATIO, 1, wild) == Min(100, wild)
  {
    var i := 2 * MAX_RATIO;
    RoundInteger(1);
    RoundInteger(100);
    RoundInteger(32);
    RoundInteger(3200);
    RoundScaled(32.0, 52);
    RoundScaled(3200.0, 52);
    PowersOfTwo(32.0);
    PowersOfTwo(3200.0);
    assert Round(i as real) == i as real;
    assert Round(i as real) / Round(1 as real) == i as real;
    assert FloatPct(i, 1) == 3200.0 * P52;
  }

  /** The bound on the inventory is sharp to 24 units: there 65578731416116 of 79010519778453 gives 83, not 84. */
  lemma UnderReportsPast(wild: int)
    ensures MAX_INVENTORY + 24 == 79010519778453
    ensures ComputeFleetPct(65578731416116, 79010519778453, wild) == 83
    ensures CeilPct(65578731416116, 79010519778453) == 84
  {
    var i, n := 65578731416116, 79010519778453;
    RoundInteger(i);
    RoundInteger(n);
    RatioInRange(i, n);
    RoundedQuotient(i as real / n as real);
    RoundedPercentage(7475975381435024.0 / P53);
    assert FloatPct(i, n) == 83.0;
  }

  /** That quotient lies just over the 53-bit fraction it rounds to. */
  lemma RoundedQuotient(x: real)
    requires x == 65578731416116.0 / 79010519778453.0
    ensures Round(x) == 7475975381435024.0 / P53
  {
    var y := x * P53;
    assert y == 7475975381435024.0 + 39505259889200.0 / 79010519778453.0;
    assert y.Floor == 7475975381435024;
    assert Round(y) == 7475975381435024.0;
    RoundScaled(x, 53);
    ScaledBy53(x);
    ScaledBy53(Round(x));
  }

  /** And a hundred times that fraction is halfway over 83, a tie that goes to 83. */
  lemma RoundedPercentage(q: real)
    requires q == 7475975381435024.0 / P53
    ensures Round(q * 100.0) == 83.0
  {
    var w := q * 100.0;
    var v := w * 70368744177664.0;
    assert v == 5840605766746112.0 + 0.5;
    assert v.Floor == 5840605766746112;
    assert Round(v) == 5840605766746112.0;
    RoundScaled(w, 46);
    ScaledBy46(w);
    ScaledBy46(Round(w));
  }
}
