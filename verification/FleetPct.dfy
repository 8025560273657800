/** The fleet percentage and its rounding (internal/blast/reach.go). */
module FleetPct {
  import opened Arithmetic
  import opened Float64

  /** math.Ceil. */
  function Ceil(x: real): int { -((-x).Floor) }

  const TWO_TO_THE_63: int := 0x8000_0000_0000_0000

  /** Go leaves the conversion of an out-of-range float to the platform: it gives `wild`. */
  function ToInt64(c: int, wild: int): int {
    if -TWO_TO_THE_63 <= c < TWO_TO_THE_63 then c else wild
  }

  function FloatPct(instances: int, inventory: int): (p: real)
    requires instances > 0 && inventory > 0
    ensures p > 0.0
  {
    Round(Round(Round(instances as real) / Round(inventory as real)) * 100.0)
  }

  function ComputeFleetPct(instances: int, inventory: int, wild: int): int {
    if instances <= 0 then 0
    else if inventory <= 0 then 100
    else
      var pct := ToInt64(Ceil(FloatPct(instances, inventory)), wild);
      if pct > 100 then 100 else pct
  }

  /** The documented value: the exact ceiling, clamped. */
  function CeilPct(instances: int, inventory: int): int
    requires inventory > 0
  {
    (100 * instances + inventory - 1) / inventory
  }

  function Min(a: int, b: int): int { if a <= b then a else b }

  const MAX_INVENTORY: int := 79010519778429        // 2^54 / 228, somewhat above 2^46
  const MAX_RATIO: int := 0x100_0000_0000_0000      // 2^56 times the inventory still converts to an int

  // ---- the conversion is in range ----

  lemma DivMonotone(a: real, b: real, c: real, d: real)
    requires 0.0 < a <= c && 0.0 < d <= b
    ensures 0.0 < a / b <= c / d
  {
    var u, v := a / b, c / d;
    assert u * b == a && v * d == c;
    MulOrderReal(v, u, d);
    MulOrderReal(b, d, u);
  }

  /** Every step is monotone, so the whole is. */
  lemma FloatPctMonotone(i: int, n: int, i': int, n': int)
    requires 0 < i <= i' && 0 < n' <= n
    ensures FloatPct(i, n) <= FloatPct(i', n')
  {
    RoundMonotone(i as real, i' as real);
    RoundMonotone(n' as real, n as real);
    DivMonotone(Round(i as real), Round(n as real), Round(i' as real), Round(n' as real));
    var q, q' := Round(i as real) / Round(n as real), Round(i' as real) / Round(n' as real);
    RoundMonotone(q, q');
    RoundMonotone(Round(q) * 100.0, Round(q') * 100.0);
  }

  lemma CeilMonotone(x: real, y: real)
    requires x <= y
    ensures Ceil(x) <= Ceil(y)
  {
  }

  /** The ceiling fits an int, so that the conversion is the one the language defines. */
  predicate InIntRange(i: int, n: int) {
    i > 0 && n > 0 ==> Ceil(FloatPct(i, n)) < TWO_TO_THE_63
  }

  /** The result is the clamped ceiling, whatever the platform, exactly when the ceiling fits an int. */
  lemma ClampedCeilingIffInRange(i: int, n: int)
    requires 0 < i && 0 < n
    ensures InIntRange(i, n) <==> forall wild :: ComputeFleetPct(i, n, wild) == Min(100, Ceil(FloatPct(i, n)))
    ensures !InIntRange(i, n) ==> forall wild :: ComputeFleetPct(i, n, wild) == Min(100, wild)
  {
    assert Ceil(FloatPct(i, n)) > 0;
    if !InIntRange(i, n) {
      assert ComputeFleetPct(i, n, 0) == 0;
    }
  }

  lemma ScaledBy56(x: real)
    ensures Scaled(x, 56) == x * MAX_RATIO as real
  {
    ScaledIsProduct(x, 56);
    PowAdds(14, 14);
    PowAdds(28, 28);
    assert Pow2(14) == 16384;
  }

  lemma QuotientAtMost(a: real, b: real, c: real)
    requires b > 0.0 && a <= c * b
    ensures a / b <= c
  {
    var q := a / b;
    assert q * b == a;
    MulOrderReal(c, q, b);
  }

  /** It fits while the set is at most 2^56 times the inventory. */
  lemma RatioInRange(i: int, n: int)
    requires 0 < n && i <= MAX_RATIO * n
    ensures InIntRange(i, n)
  {
    if i > 0 {
      var y := Round(n as real);
      ScaledBy56(n as real);
      ScaledBy56(y);
      assert (MAX_RATIO * n) as real == n as real * MAX_RATIO as real;
      RoundMonotone(i as real, (MAX_RATIO * n) as real);
      RoundScaled(n as real, 56);
      var q := Round(i as real) / y;
      QuotientAtMost(Round(i as real), y, MAX_RATIO as real);
      DivMonotone(Round(i as real), y, Round(i as real), y);
      PowerRounds(q);
    }
  }

  lemma PowerRounds(q: real)
    requires 0.0 < q <= MAX_RATIO as real
    ensures Ceil(Round(Round(q) * 100.0)) <= 100 * MAX_RATIO
  {
    RoundInteger(1);
    RoundInteger(100);
    ScaledBy56(1.0);
    ScaledBy56(100.0);
    RoundScaled(1.0, 56);
    RoundScaled(100.0, 56);
    RoundMonotone(q, MAX_RATIO as real);
    RoundMonotone(Round(q) * 100.0, 100.0 * MAX_RATIO as real);
    CeilMonotone(Round(Round(q) * 100.0), 100.0 * MAX_RATIO as real);
  }

  /** More instances never report less, more inventory never reports more, while the result is in range. */
  lemma FleetPctMonotone(i: int, n: int, i': int, n': int, wild: int)
    requires i <= i' && 0 < n' <= n && InIntRange(i', n')
    ensures ComputeFleetPct(i, n, wild) <= ComputeFleetPct(i', n', wild)
  {
    if i > 0 {
      FloatPctMonotone(i, n, i', n');
      CeilMonotone(FloatPct(i, n), FloatPct(i', n'));
    } else if i' > 0 {
      assert Ceil(FloatPct(i', n')) > 0;
    }
  }

  /** A non-positive inventory reports 100 of any non-empty set, no less than any positive one; an empty one 0. */
  lemma UnknownInventoryIsMaximal(i: int, n: int, unknown: int, wild: int)
    requires unknown <= 0 < n && InIntRange(i, n)
    ensures ComputeFleetPct(i, n, wild) <= ComputeFleetPct(i, unknown, wild)
    ensures i > 0 ==> ComputeFleetPct(i, unknown, wild) == 100 && ComputeFleetPct(i, n, wild) > 0
    ensures i <= 0 ==> ComputeFleetPct(i, unknown, wild) == 0 && ComputeFleetPct(i, n, wild) == 0
  {
    if i > 0 { assert Ceil(FloatPct(i, n)) > 0; }
  }

  // ---- the error of the computed percentage ----

  /** Two roundings move a percentage by at most 228 parts of 2^54: half a unit of the quotient and of the product. */
  lemma PctError(x: real, q: real, p: real)
    requires 0.0 < x <= 1.0 && q == Round(x) && p == Round(q * 100.0)
    ensures -228.0 <= (p - 100.0 * x) * 18014398509481984.0 <= 228.0
  {
    hide Round;
    RoundInteger(1);
    RoundMonotone(x, 1.0);
    ScaledBy53(x);
    ScaledBy53(q);
    RoundHalfUnit(x, 53);
    ScaledBy46(q * 100.0);
    ScaledBy46(p);
    RoundHalfUnit(q * 100.0, 46);
  }

  function Times(a: real, b: real): real { a * b }

  lemma TimesDistributes(p: real, x: real, b: real)
    ensures Times(p - 100.0 * x, b) == Times(p, b) - 100.0 * Times(x, b)
  {
  }

  lemma SmallTimes(e: real, b: real)
    requires -228.0 <= e * 18014398509481984.0 <= 228.0 && 0.0 < b <= MAX_INVENTORY as real
    ensures -1.0 < Times(e, b) < 1.0
  {
    if e > 0.0 {
      MulOrderReal(0.0, e, b);
      MulOrderReal(MAX_INVENTORY as real, b, e);
    } else if e < 0.0 {
      MulOrderReal(e, 0.0, b);
      MulOrderReal(MAX_INVENTORY as real, b, -e);
    }
  }

  lemma QuotientOf(a: real, b: real) returns (x: real)
    requires 0.0 < a <= b
    ensures x == a / b && Times(x, b) == a && 0.0 < x <= 1.0
  {
    x := a / b;
    DivMonotone(a, b, b, b);
  }

  /** Within one n-th of the exact percentage, strictly, while the set is within the inventory. */
  lemma FloatPctError(i: int, n: int)
    requires 0 < i <= n <= MAX_INVENTORY
    ensures -1.0 < Times(FloatPct(i, n), n as real) - (100 * i) as real < 1.0
  {
    RoundInteger(i);
    RoundInteger(n);
    var x := QuotientOf(i as real, n as real);
    var p := FloatPct(i, n);
    PctError(x, Round(x), p);
    SmallTimes(p - 100.0 * x, n as real);
    TimesDistributes(p, x, n as real);
  }

  lemma MulOrderReal(a: real, b: real, n: real)
    requires n > 0.0
    ensures a < b <==> a * n < b * n
  {
  }

  lemma CeilDiv(a: int, n: int)
    requires a > 0 && n > 0
    ensures var k := (a + n - 1) / n;
            && (k - 1) * n < a <= k * n
            && (a % n == 0 ==> k == a / n && a == k * n)
            && (a % n != 0 ==> a < k * n)
  {
    var k, q := (a + n - 1) / n, a / n;
    assert a + n - 1 == k * n + (a + n - 1) % n;
    assert (k - 1) * n == k * n - n;
    assert a == q * n + a % n;
    assert (q + 1) * n == q * n + n;
    MulOrder(q, k, n);
    MulOrder(k, q + 1, n);
    MulOrder(k - 1, q, n);
  }

  lemma CeilFromError(p: real, i: int, n: int)
    requires 0 < i <= n && -1.0 < Times(p, n as real) - (100 * i) as real < 1.0
    ensures CeilPct(i, n) <= Ceil(p) <= CeilPct(i, n) + 1
    ensures (100 * i) % n != 0 ==> Ceil(p) == CeilPct(i, n)
    ensures (100 * i) % n == 0 ==>
              CeilPct(i, n) == 100 * i / n && (Ceil(p) == CeilPct(i, n) <==> p <= (100 * i / n) as real)
  {
    var k := CeilPct(i, n);
    var b := n as real;
    CeilDiv(100 * i, n);
    CompareToInteger(p, k - 1, n);
    CompareToInteger(p, k, n);
    CompareToInteger(p, k + 1, n);
    assert (k + 1) * n == k * n + n;
    CeilIs(p, k);
    CeilIs(p, k + 1);
  }

  lemma CompareToInteger(p: real, k: int, n: int)
    requires n > 0
    ensures p < k as real <==> Times(p, n as real) < (k * n) as real
    ensures p > k as real <==> Times(p, n as real) > (k * n) as real
  {
    MulOrderReal(p, k as real, n as real);
    MulOrderReal(k as real, p, n as real);
    assert k as real * n as real == (k * n) as real;
  }

  lemma CeilIs(p: real, c: int)
    ensures Ceil(p) <= c <==> p <= c as real
    ensures Ceil(p) >= c <==> p > (c - 1) as real
  {
  }

  /** A set larger than its inventory reports 100. */
  lemma OverfullReports100(i: int, n: int, wild: int)
    requires 0 < n < i && InIntRange(i, n)
    ensures ComputeFleetPct(i, n, wild) == 100 && CeilPct(i, n) > 100
  {
    hide Round;
    FloatPctMonotone(n, n, i, n);
    RoundInteger(1);
    RoundInteger(100);
    assert Round(n as real) / Round(n as real) == 1.0;
    assert FloatPct(n, n) == 100.0;
    hide FloatPct, RoundHalfEven;
    CeilMonotone(100.0, FloatPct(i, n));
    CeilDiv(100 * i, n);
    MulOrder(100, CeilPct(i, n), n);
  }

  /** The result never under-reports the exact clamped ceiling and is at most one above it. */
  lemma FleetPctBounds(i: int, n: int, wild: int)
    requires 0 < i && 0 < n <= MAX_INVENTORY && InIntRange(i, n)
    ensures Min(100, CeilPct(i, n)) <= ComputeFleetPct(i, n, wild) <= Min(100, CeilPct(i, n) + 1)
  {
    if i > n {
      OverfullReports100(i, n, wild);
    } else {
      FloatPctError(i, n);
      CeilFromError(FloatPct(i, n), i, n);
      assert Ceil(FloatPct(i, n)) > 0;
    }
  }

  // ---- any inventory ----

  /** The quotient of two rounded integers is near the exact one. */
  lemma QuotientError(i: int, n: int, x: real, y: real)
    requires 0 < i <= n && x == i as real / n as real && y == Round(i as real) / Round(n as real)
    ensures 0.0 < y <= 1.0 && x <= 1.0 && -4.0 <= (y - x) * P53 <= 4.0
  {
    hide Round;
    RoundError(i as real);
    RoundError(n as real);
    RoundMonotone(i as real, n as real);
    QuotientOfNear(i as real, n as real, Round(i as real), Round(n as real), x, y);
  }

  lemma QuotientOfNear(a: real, b: real, ra: real, rb: real, x: real, y: real)
    requires 0.0 < a <= b && 0.0 < ra <= rb && x == a / b && y == ra / rb
    requires -a <= (ra - a) * P53 <= a && -b <= (rb - b) * P53 <= b
    ensures 0.0 < y <= 1.0 && x <= 1.0 && -4.0 <= (y - x) * P53 <= 4.0
  {
    DivMonotone(a, b, a, b);
    DivMonotone(ra, rb, ra, rb);
    QuotientAtMost(a, b, 1.0);
    QuotientAtMost(ra, rb, 1.0);
    Expand(x, y, a, b, ra, rb);
    SpreadOf(x, (rb - b) * P53, b);
    CancelFactor((y - x) * P53, rb, b, (ra - a) * P53, x * ((rb - b) * P53));
  }

  lemma Expand(x: real, y: real, a: real, b: real, ra: real, rb: real)
    requires b > 0.0 && rb > 0.0 && x == a / b && y == ra / rb
    ensures (y - x) * P53 * rb == (ra - a) * P53 - x * ((rb - b) * P53)
  {
    assert x * b == a && y * rb == ra;
    assert (y - x) * rb == y * rb - x * rb;
    assert x * (rb - b) == x * rb - x * b;
    ScaleFirst(y - x, rb);
    ScaleFirst(rb - b, x);
  }

  lemma ScaleFirst(u: real, v: real)
    ensures u * P53 * v == u * v * P53 && v * (u * P53) == v * u * P53
  {
  }

  lemma CancelFactor(d: real, rb: real, b: real, e1: real, e2: real)
    requires rb > 0.0 && b <= 2.0 * rb && -b <= e1 <= b && -b <= e2 <= b && d * rb == e1 - e2
    ensures -4.0 <= d <= 4.0
  {
    TimesOrder(4.0, d, rb);
    TimesOrder(d, -4.0, rb);
    assert Times(d, rb) == e1 - e2;
    assert Times(4.0, rb) == 4.0 * rb && Times(-4.0, rb) == -4.0 * rb;
    hide Times;
  }

  lemma TimesOrder(a: real, b: real, n: real)
    requires n > 0.0
    ensures a < b <==> Times(a, n) < Times(b, n)
  {
    MulOrderReal(a, b, n);
  }

  /** A fraction of an error within b stays within b. */
  lemma SpreadOf(x: real, e: real, b: real)
    requires 0.0 < x <= 1.0 && -b <= e <= b
    ensures -b <= x * e <= b
  {
    if e > 0.0 {
      FractionOf(x, e);
    } else if e < 0.0 {
      FractionOf(x, -e);
      assert x * -e == -(x * e);
    } else {
      assert x * e == 0.0;
    }
  }

  lemma FractionOf(x: real, e: real)
    requires 0.0 < x <= 1.0 && e > 0.0
    ensures 0.0 < x * e <= e
  {
    TimesOrder(0.0, x, e);
    TimesOrder(1.0, x, e);
    assert Times(0.0, e) == 0.0 && Times(1.0, e) == e && Times(x, e) == x * e;
    hide Times;
  }

  /** Whatever the inventory, the computed percentage is off by less than one. */
  lemma PctErrorAny(i: int, n: int)
    requires 0 < i <= n
    ensures -1.0 < FloatPct(i, n) - 100.0 * (i as real / n as real) < 1.0
  {
    var x, y := i as real / n as real, Round(i as real) / Round(n as real);
    QuotientError(i, n, x, y);
    RoundError(y);
    RoundError(Round(y) * 100.0);
  }

  lemma NearFromError(p: real, i: int, n: int)
    requires 0 < i <= n && -1.0 < p - 100.0 * (i as real / n as real) < 1.0
    ensures CeilPct(i, n) - 1 <= Ceil(p) <= CeilPct(i, n) + 1
  {
    var x, k := 100.0 * (i as real / n as real), CeilPct(i, n);
    CeilDiv(100 * i, n);
    assert Times(x, n as real) == (100 * i) as real by { assert i as real / n as real * n as real == i as real; }
    CompareToInteger(x, k - 1, n);
    CompareToInteger(x, k, n);
    CeilIs(p, k - 1);
    CeilIs(p, k + 1);
  }

  /** So it is never more than one off the exact clamped ceiling, for any inventory. */
  lemma FleetPctNear(i: int, n: int, wild: int)
    requires 0 < i && 0 < n && InIntRange(i, n)
    ensures Min(100, CeilPct(i, n)) - 1 <= ComputeFleetPct(i, n, wild) <= Min(100, CeilPct(i, n) + 1)
  {
    if i > n {
      OverfullReports100(i, n, wild);
    } else {
      PctErrorAny(i, n);
      NearFromError(FloatPct(i, n), i, n);
      assert Ceil(FloatPct(i, n)) > 0;
    }
  }
}
