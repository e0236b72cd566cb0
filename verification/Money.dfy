/**
 Half-even rounding and basis points on int64 amounts.  Integers are unbounded
 in Dafny, so the 64-bit wrap-around of each operation is written out.
 */
module Money {
  import opened Int64

  const SCALE := 10000

  // ---------- the mathematics ----------

  /** q is a nearest integer to n/d, and an even one when two are equally near. */
  predicate IsNearestEven(n: int, d: int, q: int)
    requires d != 0
  {
    2 * Abs(n - q * d) < Abs(d) || (2 * Abs(n - q * d) == Abs(d) && q % 2 == 0)
  }

  function NearestMagnitude(m: nat, d: int): (q: nat)
    requires 0 < d
  {
    var q, r := m / d, m % d;
    if 2 * r > d || (2 * r == d && q % 2 == 1) then q + 1 else q
  }

  function Nearest(n: int, d: int): int
    requires d != 0
  {
    var q: int := NearestMagnitude(Abs(n), Abs(d));
    if (n < 0) == (d < 0) then q else -q
  }

  lemma MagnitudeIsNearest(m: nat, d: int)
    requires 0 < d
    ensures IsNearestEven(m, d, NearestMagnitude(m, d))
  {
    var q, r := m / d, m % d;
    assert m == q * d + r && 0 <= r < d;
    assert m - (q + 1) * d == r - d;
  }

  lemma FlipSigns(n: int, d: int, q: int)
    requires d != 0
    ensures IsNearestEven(n, d, q) <==> IsNearestEven(-n, -d, q)
    ensures IsNearestEven(n, d, q) <==> IsNearestEven(-n, d, -q)
  {
    assert (-n) - q * (-d) == -(n - q * d);
    assert (-n) - (-q) * d == -(n - q * d);
  }

  lemma NearestIsNearest(n: int, d: int)
    requires d != 0
    ensures IsNearestEven(n, d, Nearest(n, d))
  {
    MagnitudeIsNearest(Abs(n), Abs(d));
    var q: int := NearestMagnitude(Abs(n), Abs(d));
    FlipSigns(n, d, q);
    FlipSigns(n, d, -q);
    FlipSigns(-n, d, q);
  }

  lemma ProductIsNonNegative(a: nat, b: nat)
    ensures a * b >= 0
  {
  }

  /** At distance one the products differ by the divisor; further apart they differ by at least twice as much. */
  lemma ProductGap(a: int, b: int, d: int)
    requires 0 < d && a < b
    ensures b * d - a * d >= d
    ensures a + 1 < b ==> b * d - a * d >= 2 * d
  {
    var k := b - a - 1;
    ProductIsNonNegative(k, d);
    assert b * d == a * d + k * d + d;
    if k > 0 {
      ProductIsNonNegative(k - 1, d);
      assert k * d == (k - 1) * d + d;
    }
  }

  lemma NearestOrder(n1: int, n2: int, d: int, q1: int, q2: int)
    requires 0 < d && n1 <= n2 && IsNearestEven(n1, d, q1) && IsNearestEven(n2, d, q2)
    ensures q1 <= q2
  {
    if q2 < q1 {
      ProductGap(q2, q1, d);
    }
  }

  /** There is only one nearest integer with ties to even. */
  lemma NearestIsUnique(n: int, d: int, q: int)
    requires d != 0 && IsNearestEven(n, d, q)
    ensures q == Nearest(n, d)
  {
    NearestIsNearest(n, d);
    var p := Nearest(n, d);
    if d < 0 {
      FlipSigns(n, d, q);
      FlipSigns(n, d, p);
      NearestOrder(-n, -n, -d, p, q);
      NearestOrder(-n, -n, -d, q, p);
    } else {
      NearestOrder(n, n, d, p, q);
      NearestOrder(n, n, d, q, p);
    }
  }

  /** Odd in both arguments. */
  lemma NearestIsOdd(n: int, d: int)
    requires d != 0
    ensures Nearest(-n, d) == -Nearest(n, d) == Nearest(n, -d)
  {
    NearestIsNearest(n, d);
    FlipSigns(n, d, Nearest(n, d));
    FlipSigns(n, -d, -Nearest(n, d));
    FlipSigns(-n, d, -Nearest(n, d));
    NearestIsUnique(-n, d, -Nearest(n, d));
    NearestIsUnique(n, -d, -Nearest(n, d));
  }

  lemma NearestIsMonotone(n1: int, n2: int, d: int)
    requires 0 < d && n1 <= n2
    ensures Nearest(n1, d) <= Nearest(n2, d)
  {
    NearestIsNearest(n1, d);
    NearestIsNearest(n2, d);
    NearestOrder(n1, n2, d, Nearest(n1, d), Nearest(n2, d));
  }

  // ---------- the code ----------

  function RoundedMagnitude(m: int, d: int): int
    requires d != 0
  {
    var q, twice := GoDiv(m, d), Wrap(2 * GoRem(m, d));
    if twice > d || (twice == d && GoRem(q, 2) == 1) then Wrap(q + 1) else q
  }

  /** RoundHalfEvenDiv with every int64 operation wrapping. */
  function RoundedValue(n: int, d: int): int
    requires Fits(n) && Fits(d)
  {
    if d == 0 then 0
    else
      if d < 0 then RoundedSigned(Wrap(-n), Wrap(-d)) else RoundedSigned(n, d)
  }

  method RoundHalfEvenDiv(numerator: int, denominator: int) returns (r: int)
    requires Fits(numerator) && Fits(denominator)
    ensures r == RoundedValue(numerator, denominator)
    ensures denominator == 0 ==> r == 0
    ensures denominator != 0 ==>
      (IsNearestEven(numerator, denominator, r) <==> RoundsExactly(numerator, denominator))
  {
    if denominator == 0 {
      return 0;
    }
    RoundIsExactIff(numerator, denominator);
    var n, d := numerator, denominator;
    if d < 0 {
      n, d := Wrap(-n), Wrap(-d);
    }
    r := RoundSigned(n, d);
  }

  /** RoundHalfEvenDiv once the denominator's sign is settled. */
  function RoundedSigned(n: int, d: int): int
    requires d != 0
  {
    if n < 0 then Wrap(-RoundedMagnitude(Wrap(-n), d)) else RoundedMagnitude(n, d)
  }

  method RoundSigned(n: int, d: int) returns (r: int)
    requires d != 0
    ensures r == RoundedSigned(n, d)
  {
    var negative := n < 0;
    var magnitude := n;
    if negative {
      magnitude := Wrap(-magnitude);
    }
    r := RoundMagnitude(magnitude, d);
    if negative {
      r := Wrap(-r);
    }
  }

  /** The tail of RoundHalfEvenDiv, on the magnitude. */
  method RoundMagnitude(magnitude: int, d: int) returns (rounded: int)
    requires d != 0
    ensures rounded == RoundedMagnitude(magnitude, d)
  {
    var quotient := GoDiv(magnitude, d);
    var remainder := GoRem(magnitude, d);
    var twice := Wrap(2 * remainder);
    rounded := quotient;
    if twice > d || (twice == d && GoRem(quotient, 2) == 1) {
      rounded := Wrap(quotient + 1);
    }
  }

  lemma QuotientBounds(m: nat, d: int)
    requires 0 < d
    ensures 0 <= m / d <= m && 0 <= m % d < d && m % d <= m
    ensures m % d != 0 && d != 1 ==> m / d < m
  {
    var q, r := m / d, m % d;
    assert m == q * d + r && 0 <= r < d;
    assert q >= 0 by {
      if q < 0 {
        ProductGap(q, 0, d);
      }
    }
    ProductIsNonNegative(q, d - 1);
    assert q * d == q * (d - 1) + q;
  }

  lemma MagnitudeIsExactIff(m: nat, d: int)
    requires m <= MAX && 0 < d <= MAX
    ensures RoundedMagnitude(m, d) == NearestMagnitude(m, d) <==> m % d < HALF
    ensures d <= HALF ==> m % d < HALF
    ensures 0 <= RoundedMagnitude(m, d) <= MAX
  {
    QuotientBounds(m, d);
  }

  /** The nearest integer to m/d is the quotient rounded down. */
  predicate RoundsDown(m: nat, d: int)
    requires 0 < d
  {
    2 * (m % d) < d || (2 * (m % d) == d && (m / d) % 2 == 0)
  }

  /**
   When the code is right.  Negating -2^63 and doubling a remainder from 2^62
   on wrap; some inputs survive that.
   */
  predicate RoundsExactly(n: int, d: int)
    requires d != 0
  {
    if d == MIN then MIN < n && HALF <= Abs(n)
    else if n == MIN then d == 1 || (d < -1 && RoundsDown(-MIN, -d))
    else Abs(n) % Abs(d) < HALF
  }

  /** For every int64 input with a non-zero denominator: the result is right exactly under this condition. */
  lemma RoundIsExactIff(n: int, d: int)
    requires Fits(n) && Fits(d) && d != 0
    ensures RoundedValue(n, d) == Nearest(n, d) <==> RoundsExactly(n, d)
    ensures IsNearestEven(n, d, RoundedValue(n, d)) <==> RoundsExactly(n, d)
    ensures MIN < n && Abs(d) <= HALF ==> RoundedValue(n, d) == Nearest(n, d)
  {
    if d == MIN {
      MinDenominatorIsExactIff(n);
    } else if n == MIN {
      MinNumeratorIsExactIff(d);
    } else {
      SymmetricIsExactIff(n, d);
    }
    NearestIsNearest(n, d);
    if IsNearestEven(n, d, RoundedValue(n, d)) {
      NearestIsUnique(n, d, RoundedValue(n, d));
    }
  }

  lemma SymmetricIsExactIff(n: int, d: int)
    requires MIN < n <= MAX && MIN < d <= MAX && d != 0
    ensures RoundedValue(n, d) == Nearest(n, d) <==> Abs(n) % Abs(d) < HALF
    ensures Abs(d) <= HALF ==> RoundedValue(n, d) == Nearest(n, d)
  {
    MagnitudeIsExactIff(Abs(n), Abs(d));
    RoundedBySign(n, d);
  }

  /** The denominator whose negation wraps stays negative, and the comparison with the doubled remainder goes wrong. */
  lemma MinDenominatorIsExactIff(n: int)
    requires Fits(n)
    ensures RoundedValue(n, MIN) == Nearest(n, MIN) <==> MIN < n && HALF <= Abs(n)
  {
    if n == MIN {
      MinOverMin();
    } else {
      SmallOverMin(Abs(n));
      SignOverMin(n);
    }
  }

  lemma MinOverMin()
    ensures RoundedValue(MIN, MIN) == -2 && Nearest(MIN, MIN) == 1
  {
    SelfQuotient(-MIN);
    MagnitudeOfWhole(MIN);
    assert Wrap(-MIN) == MIN;
    assert RoundedValue(MIN, MIN) == RoundedSigned(MIN, MIN);
  }

  lemma MagnitudeOfWhole(d: int)
    requires d < 0
    ensures RoundedMagnitude(d, d) == 2
  {
    SelfQuotient(-d);
    assert GoDiv(d, d) == 1 && GoRem(d, d) == 0;
  }

  lemma SelfQuotient(d: int)
    requires 0 < d
    ensures d / d == 1 && d % d == 0
  {
  }

  lemma SignOverMin(n: int)
    requires MIN < n <= MAX && 0 <= RoundedMagnitude(Abs(n), MIN) <= 1
    ensures RoundedValue(n, MIN) == if n > 0 then -RoundedMagnitude(Abs(n), MIN) else RoundedMagnitude(Abs(n), MIN)
  {
    assert Wrap(-MIN) == MIN;
    assert RoundedValue(n, MIN) == RoundedSigned(-n, MIN);
    SignedByMagnitude(-n, MIN, RoundedMagnitude(Abs(n), MIN));
  }

  lemma SmallOverMin(m: nat)
    requires m <= MAX
    ensures m / -MIN == 0 && m % -MIN == m
    ensures RoundedMagnitude(m, MIN) == if m == HALF then 0 else 1
    ensures NearestMagnitude(m, -MIN) == if m <= HALF then 0 else 1
  {
  }

  lemma RoundedBySign(n: int, d: int)
    requires MIN < n <= MAX && MIN < d <= MAX && d != 0
    requires 0 <= RoundedMagnitude(Abs(n), Abs(d)) <= MAX
    ensures RoundedValue(n, d) == RoundedMagnitude(Abs(n), Abs(d)) * (if (n < 0) == (d < 0) then 1 else -1)
      || (n == 0 && RoundedValue(n, d) == RoundedMagnitude(Abs(n), Abs(d)))
  {
    if d < 0 {
      SignedByMagnitude(-n, -d, RoundedMagnitude(Abs(n), Abs(d)));
      assert RoundedValue(n, d) == RoundedSigned(-n, -d);
    } else {
      SignedByMagnitude(n, d, RoundedMagnitude(Abs(n), Abs(d)));
    }
  }

  lemma SignedByMagnitude(n: int, d: int, magnitude: int)
    requires MIN < n <= MAX && d != 0 && 0 <= magnitude <= MAX && magnitude == RoundedMagnitude(Abs(n), d)
    ensures RoundedSigned(n, d) == if n < 0 then -magnitude else magnitude
  {
    assert n < 0 ==> Wrap(-n) == Abs(n);
  }

  /**
   The numerator whose negation wraps loses its sign and is truncated: right
   for the denominator 1, where the sign comes back, and for a denominator
   below -1 when rounding down is right.
   */
  lemma MinNumeratorIsExactIff(d: int)
    requires MIN < d <= MAX && d != 0
    ensures RoundedValue(MIN, d) == Wrap(-MIN / Abs(d))
    ensures RoundedValue(MIN, d) == Nearest(MIN, d) <==> d == 1 || (d < -1 && RoundsDown(-MIN, -d))
  {
    QuotientBounds(-MIN, Abs(d));
    if Abs(d) > HALF {
      QuotientOfTwice(Abs(d));
    }
    MinTruncates(d);
    if 1 < Abs(d) {
      DividesOnce(Abs(d));
    }
  }

  lemma MinTruncates(d: int)
    requires MIN < d <= MAX && d != 0
    requires Abs(d) <= HALF || -MIN % Abs(d) < HALF
    ensures RoundedValue(MIN, d) == Wrap(-MIN / Abs(d))
  {
    QuotientBounds(-MIN, Abs(d));
    assert -HALF <= GoRem(MIN, Abs(d)) <= 0;
  }

  lemma QuotientOfTwice(d: int)
    requires HALF < d <= MAX
    ensures -MIN / d == 1 && -MIN % d == -MIN - d
  {
  }

  lemma DividesOnce(d: int)
    requires 1 < d <= MAX
    ensures 1 <= -MIN / d <= HALF
  {
    QuotientBounds(-MIN, d);
    var q, r := -MIN / d, -MIN % d;
    assert -MIN == q * d + r && 0 <= r < d;
    ProductIsNonNegative(q, d - 2);
    assert q * d == q * (d - 2) + 2 * q;
    assert q != 0;
  }

  // ---------- basis points ----------

  function ApplyBasisPoints(cents: int, bp: int): int {
    RoundedValue(Wrap(cents * bp), SCALE)
  }

  function BasisPointsOf(cents: int, total: int): int
    requires Fits(total)
  {
    if total == 0 then 0 else RoundedValue(Wrap(cents * SCALE), total)
  }

  /** When the product fits, each of the two is the half-even division exactly where the division itself is right. */
  lemma BasisPointsAreExact(cents: int, bp: int, total: int)
    requires Fits(total)
    ensures Fits(cents * bp) ==> (ApplyBasisPoints(cents, bp) == Nearest(cents * bp, SCALE) <==> MIN < cents * bp)
    ensures total != 0 && Fits(cents * SCALE) ==>
      (BasisPointsOf(cents, total) == Nearest(cents * SCALE, total) <==> RoundsExactly(cents * SCALE, total))
  {
    if Fits(cents * bp) {
      RoundIsExactIff(cents * bp, SCALE);
    }
    if total != 0 && Fits(cents * SCALE) {
      RoundIsExactIff(cents * SCALE, total);
    }
  }

  ghost predicate RoundTrips(total: int, bp: int)
    requires total != 0
  {
    Nearest(Nearest(total * bp, SCALE) * SCALE, total) == bp
  }

  /** Taking bp of a total of at least 10000 cents and asking back gives bp, for every bp. */
  lemma LargeTotalsRoundTrip(total: int, bp: int)
    requires SCALE <= Abs(total)
    ensures RoundTrips(total, bp)
  {
    var x := Nearest(total * bp, SCALE);
    NearestIsNearest(total * bp, SCALE);
    if Abs(total) == SCALE {
      var s := if total < 0 then -bp else bp;
      assert total * bp == s * SCALE;
      NearestIsUnique(total * bp, SCALE, s);
      NearestToMultiple(x * SCALE, total, bp, total * bp);
    } else {
      NearestToMultiple(x * SCALE, total, bp, total * bp);
    }
    NearestIsUnique(x * SCALE, total, bp);
  }

  /** What is closer to a multiple of d than half of d has that multiple as its nearest one. */
  lemma NearestToMultiple(n: int, d: int, q: int, multiple: int)
    requires d != 0 && multiple == d * q && 2 * Abs(n - multiple) < Abs(d)
    ensures IsNearestEven(n, d, q)
  {
    assert q * d == multiple;
  }

  lemma ProductOrder(a: nat, b: nat, c: nat)
    requires b <= c
    ensures 0 <= a * b <= a * c
  {
    ProductIsNonNegative(a, b);
    ProductIsNonNegative(a, c - b);
    assert a * c == a * b + a * (c - b);
  }

  /** A share between 0 and 100% lies between nothing and the whole. */
  lemma ShareBounds(total: int, bp: nat)
    requires bp <= SCALE
    ensures Abs(total * bp) <= Abs(total) * SCALE && Abs(Nearest(total * bp, SCALE)) <= Abs(total)
  {
    var t := Abs(total);
    NearestIsUnique(0, SCALE, 0);
    NearestIsUnique(t * SCALE, SCALE, t);
    ProductOrder(t, bp, SCALE);
    NearestIsMonotone(0, t * bp, SCALE);
    NearestIsMonotone(t * bp, t * SCALE, SCALE);
    NearestIsOdd(t * bp, SCALE);
    assert total * bp == if total < 0 then -(t * bp) else t * bp;
  }

  /** For int64 totals and products that fit, bp comes back exactly when the second division is right. */
  lemma CentsRoundTrip(total: int, bp: int)
    requires Fits(total) && SCALE <= Abs(total)
    requires MIN < total * bp <= MAX && Fits(Nearest(total * bp, SCALE) * SCALE)
    ensures BasisPointsOf(ApplyBasisPoints(total, bp), total) == bp
       <==> RoundsExactly(Nearest(total * bp, SCALE) * SCALE, total)
    ensures Abs(total) <= HALF && MIN < Nearest(total * bp, SCALE) * SCALE ==>
      BasisPointsOf(ApplyBasisPoints(total, bp), total) == bp
  {
    var x := Nearest(total * bp, SCALE);
    BasisPointsAreExact(total, bp, total);
    LargeTotalsRoundTrip(total, bp);
    RoundIsExactIff(x * SCALE, total);
  }

  /** A total of more than 2^62 cents for which no product overflows and the share is lost all the same. */
  lemma HugeTotalLosesShare()
    ensures var total := HALF + 2097;
      && MIN < total * 1 <= MAX && Fits(Nearest(total * 1, SCALE) * SCALE)
      && BasisPointsOf(ApplyBasisPoints(total, 1), total) == 0
  {
    var total := HALF + 2097;
    NearestIsUnique(total * 1, SCALE, 461168601842739);
    assert IsNearestEven(total * 1, SCALE, 461168601842739);
  }

  /** Shares between 0 and 100% need only that the whole in basis points fits. */
  lemma SharesRoundTrip(total: int, bp: int)
    requires 0 <= bp <= SCALE <= Abs(total) && Abs(total) * SCALE <= MAX
    ensures BasisPointsOf(ApplyBasisPoints(total, bp), total) == bp
  {
    ShareBounds(total, bp);
    CentsRoundTrip(total, bp);
  }

  /** If every bp up to n comes back, the amounts of 0..n bp are n + 1 different integers in order. */
  lemma {:induction false} DistinctAmounts(total: int, n: nat)
    requires 0 < total && forall bp | 0 <= bp <= n :: RoundTrips(total, bp)
    ensures Nearest(total * n, SCALE) >= n
  {
    if n == 0 {
      NearestIsUnique(0, SCALE, 0);
    } else {
      DistinctAmounts(total, n - 1);
      assert total * (n - 1) <= total * n;
      NearestIsMonotone(total * (n - 1), total * n, SCALE);
      assert RoundTrips(total, n) && RoundTrips(total, n - 1);
    }
  }

  lemma RoundTripsOfNegative(total: int, bp: int)
    requires total != 0
    ensures RoundTrips(total, bp) <==> RoundTrips(-total, bp)
  {
    var x := Nearest(total * bp, SCALE);
    assert (-total) * bp == -(total * bp);
    NearestIsOdd(total * bp, SCALE);
    NearestIsOdd(x * SCALE, total);
    assert (-x) * SCALE == -(x * SCALE);
    NearestIsOdd(x * SCALE, -total);
  }

  /** 10000 cents is the exact threshold: below it some share between 0 and 100% does not come back. */
  lemma RoundTripThreshold(total: int)
    requires total != 0
    ensures (forall bp | 0 <= bp <= SCALE :: RoundTrips(total, bp)) <==> SCALE <= Abs(total)
  {
    if SCALE <= Abs(total) {
      forall bp | 0 <= bp <= SCALE
        ensures RoundTrips(total, bp)
      {
        LargeTotalsRoundTrip(total, bp);
      }
    } else if forall bp | 0 <= bp <= SCALE :: RoundTrips(total, bp) {
      forall bp | 0 <= bp <= SCALE
        ensures RoundTrips(Abs(total), bp)
      {
        RoundTripsOfNegative(total, bp);
      }
      DistinctAmounts(Abs(total), SCALE);
      NearestIsUnique(Abs(total) * SCALE, SCALE, Abs(total));
    }
  }

  function Sum(xs: seq<int>): int {
    if xs == [] then 0 else Sum(xs[..|xs| - 1]) + xs[|xs| - 1]
  }

  /** The parts ApplyBasisPoints cuts a total into. */
  function Shares(total: int, bps: seq<int>): seq<int> {
    if bps == [] then [] else Shares(total, bps[..|bps| - 1]) + [ApplyBasisPoints(total, bps[|bps| - 1])]
  }

  /** Taking bp basis points of the total does not overflow. */
  predicate PartFits(total: int, bp: int) {
    MIN < total * bp <= MAX
  }

  predicate NearShare(total: int, bp: int, x: int) {
    2 * Abs(total * bp - x * SCALE) <= SCALE
  }

  /** Splitting a total over k shares of 10000 bp in all loses or gains at most k/2 cents. */
  lemma SplitDrift(total: int, bps: seq<int>)
    requires Sum(bps) == SCALE && forall bp | bp in bps :: PartFits(total, bp)
    ensures 2 * Abs(Sum(Shares(total, bps)) - total) <= |bps|
  {
    SharesAreNear(total, bps);
    PartialDrift(total, bps, Shares(total, bps));
  }

  lemma {:induction false} SharesAreNear(total: int, bps: seq<int>)
    requires forall bp | bp in bps :: PartFits(total, bp)
    ensures |Shares(total, bps)| == |bps|
    ensures forall i | 0 <= i < |bps| :: NearShare(total, bps[i], Shares(total, bps)[i])
  {
    if bps != [] {
      assert bps[|bps| - 1] in bps;
      SharesAreNear(total, bps[..|bps| - 1]);
      ShareIsNear(total, bps[|bps| - 1]);
    }
  }

  lemma ShareIsNear(total: int, bp: int)
    requires PartFits(total, bp)
    ensures NearShare(total, bp, ApplyBasisPoints(total, bp))
  {
    BasisPointsAreExact(total, bp, 0);
    NearestIsNearest(total * bp, SCALE);
  }

  lemma {:induction false} PartialDrift(total: int, bps: seq<int>, shares: seq<int>)
    requires |shares| == |bps| && forall i | 0 <= i < |bps| :: NearShare(total, bps[i], shares[i])
    ensures 2 * Abs(SCALE * Sum(shares) - total * Sum(bps)) <= SCALE * |bps|
  {
    if bps != [] {
      var n := |bps| - 1;
      PartialDrift(total, bps[..n], shares[..n]);
      assert NearShare(total, bps[n], shares[n]);
      DriftOfOneMore(total, Sum(shares[..n]), shares[n], Sum(bps[..n]), bps[n], n);
    }
  }

  lemma DriftOfOneMore(total: int, sum: int, x: int, parts: int, last: int, k: nat)
    requires 2 * Abs(SCALE * sum - total * parts) <= SCALE * k && NearShare(total, last, x)
    ensures 2 * Abs(SCALE * (sum + x) - total * (parts + last)) <= SCALE * (k + 1)
  {
    Distribute(total, parts, last);
    DriftsAdd(sum, x, total * parts, total * last, k);
  }

  lemma Distribute(a: int, b: int, c: int)
    ensures a * (b + c) == a * b + a * c
  {
  }

  lemma DriftsAdd(sum: int, x: int, exact: int, share: int, k: nat)
    requires 2 * Abs(SCALE * sum - exact) <= SCALE * k && 2 * Abs(share - x * SCALE) <= SCALE
    ensures 2 * Abs(SCALE * (sum + x) - (exact + share)) <= SCALE * (k + 1)
  {
  }
}
