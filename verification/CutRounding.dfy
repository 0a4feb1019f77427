/** Exactly when float64 rounding moves the P50 or the P90 cut off the true
    percentile: it depends on what the division by 100 rounded away. */
module CutRounding {
  import opened CutPoints

  /** How often x must be doubled so that x / 100 has 53 significant bits. */
  function ShiftOf(x: nat): (s: nat)
    requires 0 < x < TWO_53 * 100
    ensures TWO_52 * 100 <= Pow2(s) * x < TWO_53 * 100
    decreases TWO_53 * 100 - x
  {
    if x >= TWO_52 * 100 then 0
    else
      Twice(Pow2(ShiftOf(2 * x)), x);
      1 + ShiftOf(2 * x)
  }

  /** n at that scale, and the significand of float64(n) / 100. */
  function Numerator(n: nat): (w: nat)
    requires 0 < n <= MAX_POINTS
    ensures TWO_52 * 100 <= w < TWO_53 * 100
  {
    Pow2(ShiftOf(n)) * n
  }

  function Significand(n: nat): nat
    requires 0 < n <= MAX_POINTS
  {
    HalfEven(Numerator(n), 100)
  }

  /** What the division rounded away, in hundredths of its last place. */
  function Lost(n: nat): int
    requires 0 < n <= MAX_POINTS
  {
    Numerator(n) - 100 * Significand(n)
  }

  /** The product by p falls short of an integer by more than half of its last
      place, so that the second rounding cannot make up for the first. */
  predicate FallsShort(n: nat, p: nat, unit: nat) {
    && n > 0 && n <= MAX_POINTS && p * n % 100 == 0
    && p * Significand(n) < TWO_53 * unit && p * Lost(n) > 50 * unit
  }

  /** A factor, with the weight of the product's last place in the lower of the
      two binades that the product can lie in. */
  predicate IsFactor(p: nat, unit: nat) {
    (p == 50 && unit == 32) || (p == 90 && unit == 64)
  }

  lemma EvenRounding(num: nat, den: nat, w: nat)
    requires den > 0 && w % 2 == 0
    ensures 2 * num >= 2 * (w * den) - den ==> HalfEven(num, den) >= w
    ensures 2 * num < 2 * (w * den) - den ==> HalfEven(num, den) < w
  {
    var h := HalfEven(num, den);
    if 2 * num < 2 * (w * den) - den {
      if h >= w {
        MulMonotone(w, h, den);
      }
    } else if 2 * num <= 2 * (w * den) + den {
      HalfEvenPicksEven(num, den, w);
    } else if h < w {
      MulMonotone(h, w, den);
    }
  }

  lemma FloorAtLeast(z: Rat, k: nat)
    requires z.Ok()
    ensures Floor(z) >= k <==> z.num >= k * z.den
  {
    Euclid(z.num, z.den);
    if Floor(z) >= k {
      MulMonotone(k, Floor(z), z.den);
    } else {
      MulMonotone(Floor(z) + 1, k, z.den);
      Distribute(Floor(z), 1, z.den);
    }
  }

  lemma {:induction false} PowSplit(a: nat, b: nat)
    ensures Pow2(a + b) == Pow2(b) * Pow2(a)
    decreases b
  {
    if b > 0 {
      PowSplit(a, b - 1);
      assert Pow2(a + b) == 2 * Pow2(a + (b - 1));
      Associate(2, Pow2(b - 1), Pow2(a));
    }
  }

  lemma {:induction false} PowGrows(a: nat, b: nat)
    requires a <= b
    ensures Pow2(a) <= Pow2(b)
    decreases b - a
  {
    if a < b {
      PowPositive(a);
      PowGrows(a + 1, b);
    }
  }

  /** Up to 2^40 points are scaled up by more than 2^8. */
  lemma ShiftIsLarge(n: nat)
    requires 0 < n <= MAX_POINTS
    ensures ShiftOf(n) >= 9
  {
    var s := ShiftOf(n);
    if s <= 8 {
      PowGrows(s, 8);
      assert Pow2(8) == 256 by {
        assert Pow2(4) == 16;
        PowSplit(4, 4);
      }
      MulMonotone(Pow2(s), 256, n);
    }
  }

  /** x is short of t * (k * P), where t is the weight of its last place: it
      is rounded to at least k * P exactly when it is at most half of t short. */
  lemma ProductRounds(k: nat, P: nat, t: nat, x: nat, short: int)
    requires P > 0 && t > 0 && P % 2 == 0 && x == t * (k * P) - short
    ensures HalfEven(P * x, t * P) >= k * P <==> 2 * short <= t
  {
    var w := k * P;
    EvenTimes(k, P);
    Associate(P, t, w);
    SpreadShort(P, t, w, short);
    if 2 * short <= t {
      MulMonotone(2 * short, t, P);
      EvenRounding(P * x, t * P, w);
    } else {
      MulMonotone(t + 1, 2 * short, P);
      Distribute(t, 1, P);
      EvenRounding(P * x, t * P, w);
    }
  }

  lemma EvenTimes(k: nat, P: nat)
    requires P % 2 == 0
    ensures (k * P) % 2 == 0
  {
    var h := P / 2;
    Twice(h, k);
    assert k * P == 2 * (h * k);
  }

  lemma SpreadShort(P: nat, t: nat, w: nat, short: int)
    ensures 2 * (P * (t * w - short)) == 2 * (w * (t * P)) - (2 * short) * P
  {
  }

  function Times(a: nat, b: nat): nat {
    a * b
  }

  lemma ScaledProduct(n: nat, p: nat, e: nat)
    requires 0 < n <= MAX_POINTS && e <= ShiftOf(n)
    requires TWO_52 * Pow2(e) <= p * Significand(n) < TWO_53 * Pow2(e)
    ensures Pow2(ShiftOf(n) - e) > 0 && Times(Pow2(e), Pow2(ShiftOf(n) - e)) > 0
    ensures var P := Pow2(ShiftOf(n) - e);
      Scaled(n, p) == Rat(HalfEven(Times(P, p * Significand(n)), Times(Pow2(e), P)), P)
  {
    var s := ShiftOf(n);
    PowPositive(s);
    PowPositive(s - e);
    PowSplit(s - e, e);
    RangeTimes(Pow2(e), p * Significand(n), Pow2(s - e));
    ScaledBy(n, p, s, Significand(n), s - e);
  }

  /** How far the product is below the integer, in units of the scaled numerator. */
  lemma Shortfall(n: nat, p: nat, k: nat)
    requires 0 < n <= MAX_POINTS && p * n == 100 * k
    ensures 100 * (k * Pow2(ShiftOf(n)) - p * Significand(n)) == p * Lost(n)
  {
    var f, m := Pow2(ShiftOf(n)), Significand(n);
    var whole: int := 100 * m;
    Distribute(f * n, -whole, p);
    Associate(p, f, n);
    Associate(f, p, n);
    Associate(f, 100, k);
    Associate(p, 100, m);
  }

  lemma LostIsSmall(n: nat)
    requires 0 < n <= MAX_POINTS
    ensures -50 <= Lost(n) <= 50
    ensures TWO_52 <= Significand(n) <= TWO_53
  {
  }

  function Binade(n: nat, p: nat, unit: nat): nat
    requires 0 < n <= MAX_POINTS && IsFactor(p, unit)
  {
    (if unit == 32 then 5 else 6) + (if p * Significand(n) < TWO_53 * unit then 0 else 1)
  }

  lemma BinadeFits(n: nat, p: nat, unit: nat)
    requires 0 < n <= MAX_POINTS && IsFactor(p, unit)
    ensures var t := Pow2(Binade(n, p, unit));
      && t == (if p * Significand(n) < TWO_53 * unit then unit else 2 * unit)
      && TWO_52 * t <= p * Significand(n) < TWO_53 * t
  {
    LostIsSmall(n);
    assert Pow2(4) == 16 && Pow2(5) == 2 * Pow2(4) && Pow2(6) == 2 * Pow2(5) && Pow2(7) == 2 * Pow2(6);
  }

  lemma EvenPower(a: nat)
    requires a > 0
    ensures Pow2(a) > 0 && Pow2(a) % 2 == 0
  {
    PowPositive(a);
  }

  lemma ReachedAtScale(n: nat, p: nat, e: nat, k: nat, short: int)
    requires 0 < n <= MAX_POINTS && e < ShiftOf(n)
    requires TWO_52 * Pow2(e) <= p * Significand(n) < TWO_53 * Pow2(e)
    requires short == k * Pow2(ShiftOf(n)) - p * Significand(n)
    ensures Floor(Scaled(n, p)) >= k <==> 2 * short <= Pow2(e)
  {
    var P, t := Pow2(ShiftOf(n) - e), Pow2(e);
    EvenPower(ShiftOf(n) - e);
    PowPositive(e);
    PowSplit(ShiftOf(n) - e, e);
    Rescale(k, t, P);
    ScaledProduct(n, p, e);
    ProductRounds(k, P, t, p * Significand(n), short);
    FloorAtLeast(Scaled(n, p), k);
  }

  /** When 100 divides p * n, the product reaches the integer exactly when it
      does not fall short. */
  lemma MultipleIsReached(n: nat, p: nat, unit: nat, k: nat)
    requires 0 < n <= MAX_POINTS && IsFactor(p, unit) && p * n == 100 * k
    ensures Floor(Scaled(n, p)) >= k <==> !FallsShort(n, p, unit)
  {
    var e := Binade(n, p, unit);
    var short := k * Pow2(ShiftOf(n)) - p * Significand(n);
    BinadeFits(n, p, unit);
    ShiftIsLarge(n);
    ReachedAtScale(n, p, e, k, short);
    Shortfall(n, p, k);
    LostIsSmall(n);
    ShortByHalf(p, unit, Pow2(e), Lost(n), short);
    Hundreds(p * n, k);
  }

  lemma Hundreds(x: int, k: int)
    requires x == 100 * k
    ensures x % 100 == 0
  {
  }

  lemma Rescale(k: nat, t: nat, P: nat)
    ensures k * (t * P) == t * (k * P)
  {
  }

  lemma ShortByHalf(p: nat, unit: nat, t: nat, lost: int, short: int)
    requires IsFactor(p, unit) && (t == unit || t == 2 * unit)
    requires -50 <= lost <= 50 && 100 * short == p * lost
    ensures 2 * short <= t <==> !(t == unit && p * lost > 50 * unit)
  {
  }

  /** The P50 and the P90 cut are the true percentile exactly when the product
      does not fall short; otherwise they are one too low. */
  lemma CutIsExactUnless(n: nat, p: nat, unit: nat)
    requires n <= MAX_POINTS && IsFactor(p, unit)
    ensures Floor(Scaled(n, p)) == p * n / 100 - if FallsShort(n, p, unit) then 1 else 0
  {
    NearFloor(n, p);
    if n > 0 && p * n % 100 == 0 {
      MultipleIsReached(n, p, unit, p * n / 100);
    }
    if n == 0 {
      ExactHundreds(n, p, 0);
      FloorIs(Scaled(n, p), 0);
    }
  }

  /** For every number of points: the P50 cut is exact if and only if float64
      division of n by 100 does not fall short, and the same for P90. */
  lemma MiddleCutsExactly(n: nat)
    requires n <= MAX_POINTS
    ensures Cut50(n) == 50 * n / 100 <==> !FallsShort(n, 50, 32)
    ensures Cut90(n) == 90 * n / 100 <==> !FallsShort(n, 90, 64)
  {
    CutIsExactUnless(n, 50, 32);
    CutIsExactUnless(n, 90, 64);
  }
}
