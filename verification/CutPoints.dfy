/** The positions at which the latency analysis cuts the sorted points, with
    the rounding of float64 division and multiplication (IEEE 754-2019,
    section 4.3.1: to nearest, ties to even, 53 significant bits). Values are
    non-negative and far from overflow and from the subnormal range. */
module CutPoints {
  const TWO_52: int := 0x10_0000_0000_0000
  const TWO_53: int := 0x20_0000_0000_0000

  /** A non-negative rational; every float64 is one. */
  datatype Rat = Rat(num: nat, den: nat) {
    predicate Ok() {
      den > 0
    }
  }

  lemma Distribute(a: int, b: int, c: int)
    ensures (a + b) * c == a * c + b * c
  {
  }

  lemma Twice(a: int, b: int)
    ensures (2 * a) * b == 2 * (a * b) == a * (2 * b)
  {
  }

  lemma Euclid(a: nat, b: nat)
    requires b > 0
    ensures a == (a / b) * b + a % b && 0 <= a % b < b
  {
  }

  /** The nearest integer to num / den, ties to even. */
  function HalfEven(num: nat, den: nat): (m: nat)
    requires den > 0
    ensures 2 * (m * den) <= 2 * num + den && 2 * num <= 2 * (m * den) + den
  {
    Euclid(num, den);
    Distribute(num / den, 1, den);
    if 2 * (num % den) < den || (2 * (num % den) == den && num / den % 2 == 0) then num / den else num / den + 1
  }

  /** x rounded to 53 significant bits: scaled by powers of two until it lies
      between 2^52 and 2^53, rounded to an integer, and scaled back. */
  function Round(x: Rat): (r: Rat)
    requires x.Ok()
    ensures r.Ok()
    decreases x.num > 0 && x.num < TWO_52 * x.den,
              if x.num < TWO_52 * x.den then TWO_52 * x.den - x.num else x.num - TWO_52 * x.den
  {
    if x.num == 0 then Rat(0, 1)
    else if x.num < TWO_52 * x.den then
      var h := Round(Rat(2 * x.num, x.den));
      Rat(h.num, 2 * h.den)
    else if x.num >= TWO_53 * x.den then
      var h := Round(Rat(x.num, 2 * x.den));
      Rat(2 * h.num, h.den)
    else Rat(HalfEven(x.num, x.den), 1)
  }

  /** r is within one part in 2^53 of x. */
  ghost predicate Near(r: Rat, x: Rat) {
    -(x.num * r.den) <= (r.num * x.den - x.num * r.den) * TWO_53 <= x.num * r.den
  }

  lemma {:induction false} RoundIsNear(x: Rat)
    requires x.Ok()
    ensures Near(Round(x), x)
    decreases x.num > 0 && x.num < TWO_52 * x.den,
              if x.num < TWO_52 * x.den then TWO_52 * x.den - x.num else x.num - TWO_52 * x.den
  {
    if x.num == 0 {
    } else if x.num < TWO_52 * x.den {
      var y := Rat(2 * x.num, x.den);
      var h := Round(y);
      RoundIsNear(y);
      Twice(x.num, h.den);
    } else if x.num >= TWO_53 * x.den {
      var y := Rat(x.num, 2 * x.den);
      var h := Round(y);
      RoundIsNear(y);
      Twice(h.num, x.den);
    } else {
      var m := HalfEven(x.num, x.den);
      assert TWO_53 * x.den <= 2 * x.num;
    }
  }

  lemma DivExact(a: nat, b: nat, k: nat)
    requires b > 0 && a == k * b
    ensures a / b == k && a % b == 0
  {
    Euclid(a, b);
    MulZero(a / b - k, b, a % b);
    Distribute(a / b, -(k as int), b);
  }

  lemma MulZero(d: int, b: nat, r: nat)
    requires 0 <= r < b
    ensures d * b + r == 0 ==> d == 0 && r == 0
  {
    if d >= 1 {
      Distribute(1, d - 1, b);
    } else if d <= -1 {
      Distribute(-1, d + 1, b);
    }
  }

  lemma MulMonotone(a: int, b: int, c: nat)
    requires a <= b
    ensures a * c <= b * c
  {
  }

  /** An integer below 2^53 is a float64, so rounding leaves it alone. */
  lemma {:induction false} RoundKeepsIntegers(x: Rat, k: nat)
    requires x.Ok() && x.num == k * x.den && k < TWO_53
    ensures Round(x).num == k * Round(x).den
    decreases TWO_53 - k
  {
    if k == 0 {
    } else if k < TWO_52 {
      MulMonotone(k + 1, TWO_52, x.den);
      Distribute(k, 1, x.den);
      MulMonotone(1, k, x.den);
      var y := Rat(2 * x.num, x.den);
      Twice(k, x.den);
      RoundKeepsIntegers(y, 2 * k);
      Twice(k, Round(y).den);
    } else {
      MulMonotone(TWO_52, k, x.den);
      MulMonotone(k + 1, TWO_53, x.den);
      Distribute(k, 1, x.den);
      DivExact(x.num, x.den, k);
    }
  }

  /** float64(n) / 100 * p. */
  function Scaled(n: nat, p: nat): (z: Rat)
    ensures z.Ok()
  {
    var q := Round(Rat(n, 100));
    Round(Rat(p * q.num, q.den))
  }

  function Floor(x: Rat): nat
    requires x.Ok()
  {
    x.num / x.den
  }

  function Ceil(x: Rat): nat
    requires x.Ok()
  {
    (x.num + x.den - 1) / x.den
  }

  function Cut10(n: nat): nat { Ceil(Scaled(n, 10)) }
  function Cut50(n: nat): nat { Floor(Scaled(n, 50)) }
  function Cut90(n: nat): nat { Floor(Scaled(n, 90)) }
  function Cut99(n: nat): nat { Floor(Scaled(n, 99)) }

  const MAX_POINTS: int := 0x100_0000_0000

  /** z differs from that many hundredths by at most 1/1600. */
  ghost predicate Close(z: Rat, hundredths: nat) {
    var diff := 100 * z.num - hundredths * z.den;
    16 * diff <= z.den && -16 * diff <= z.den
  }

  /** Two roundings move the product by less than a sixteenth of a hundredth. */
  lemma ScaledIsClose(n: nat, p: nat)
    requires 0 < p <= 99 && n <= MAX_POINTS
    ensures Close(Scaled(n, p), p * n)
  {
    var q, z := Round(Rat(n, 100)), Scaled(n, p);
    RoundIsNear(Rat(n, 100));
    RoundIsNear(Rat(p * q.num, q.den));
    var e1, e2 := 100 * q.num - n * q.den, z.num * q.den - p * q.num * z.den;
    assert e1 == q.num * 100 - n * q.den;
    TwoRoundings(n, p, q.num, q.den, z.num, z.den, e1, e2);
  }

  lemma ScaleError(e: int, w: int, f: nat)
    requires -w <= e * TWO_53 <= w
    ensures -(w * f) <= (e * f) * TWO_53 <= w * f
  {
    MulMonotone(-w, e * TWO_53, f);
    MulMonotone(e * TWO_53, w, f);
  }

  lemma Expand(n: int, p: int, a: int, b: int, c: int, d: int)
    ensures (100 * c - (p * n) * d) * b
         == 100 * (c * b - p * a * d) + (100 * a - n * b) * (p * d)
    ensures (100 * a) * (p * d) == 100 * (p * a * d)
    ensures (n * b) * (p * d) == (p * n) * (b * d)
  {
    assert (100 * a - n * b) * (p * d) == (100 * a) * (p * d) - (n * b) * (p * d);
    assert (p * a * d) == a * (p * d);
    assert ((p * n) * d) * b == (n * b) * (p * d);
  }

  /** a/b is n/100 and c/d is p*a/b, each rounded once. */
  lemma TwoRoundings(n: nat, p: nat, a: nat, b: nat, c: nat, d: nat, e1: int, e2: int)
    requires 0 < p <= 99 && n <= MAX_POINTS && b > 0 && d > 0
    requires e1 == 100 * a - n * b && e2 == c * b - p * a * d
    requires -(n * b) <= e1 * TWO_53 <= n * b
    requires -(p * a * d) <= e2 * TWO_53 <= p * a * d
    ensures Close(Rat(c, d), p * n)
  {
    var x := 100 * c - (p * n) * d;
    ErrorTimesDen(n, p, a, b, c, d, e1, e2, x);
    CancelFactor(16 * x, d, b);
    CancelFactor(-16 * x, d, b);
  }

  lemma ErrorTimesDen(n: nat, p: nat, a: nat, b: nat, c: nat, d: nat, e1: int, e2: int, x: int)
    requires 0 < p <= 99 && n <= MAX_POINTS && b > 0 && d > 0
    requires e1 == 100 * a - n * b && e2 == c * b - p * a * d && x == 100 * c - (p * n) * d
    requires -(n * b) <= e1 * TWO_53 <= n * b
    requires -(p * a * d) <= e2 * TWO_53 <= p * a * d
    ensures (16 * x) * b <= b * d && (-16 * x) * b <= b * d
  {
    Expand(n, p, a, b, c, d);
    ScaleError(e1, n * b, p * d);
    Larger(a, n * b, p * d);
    Budget(n, p, b * d);
    Conclude(x * b, e2, e1 * (p * d), p * a * d, (p * n) * (b * d), b * d);
    Sixteen(x, b);
  }

  lemma Sixteen(x: int, b: int)
    ensures (16 * x) * b == 16 * (x * b) && (-16 * x) * b == -16 * (x * b)
  {
  }

  lemma Larger(a: nat, w: nat, f: nat)
    requires (100 * a - w) * TWO_53 <= w
    ensures (100 * a) * f <= 2 * (w * f)
  {
    MulMonotone(100 * a, 2 * w, f);
    Twice(w, f);
  }

  lemma Budget(n: nat, p: nat, bd: nat)
    requires 0 < p <= 99 && n <= MAX_POINTS
    ensures 48 * ((p * n) * bd) <= TWO_53 * bd
  {
    MulMonotone(p, 99, n);
    MulMonotone(48 * (p * n), TWO_53, bd);
  }

  lemma Conclude(xb: int, e2: int, e1pd: int, g: int, u: int, bd: int)
    requires xb == 100 * e2 + e1pd && -g <= e2 * TWO_53 <= g && -u <= e1pd * TWO_53 <= u
    requires 100 * g <= 2 * u && 48 * u <= TWO_53 * bd
    ensures 16 * xb <= bd && -16 * xb <= bd
  {
  }

  lemma CancelFactor(x: int, d: int, b: nat)
    requires b > 0 && x * b <= b * d
    ensures x <= d
  {
    if x > d {
      MulMonotone(d + 1, x, b);
      Distribute(d, 1, b);
    }
  }

  lemma ZeroTimes(k: int, d: int)
    ensures k == 0 ==> k * d == 0
  {
  }

  lemma Associate(a: int, b: int, c: int)
    ensures a * (b * c) == (a * b) * c
  {
  }

  lemma FloorIs(z: Rat, k: nat)
    requires z.Ok() && k * z.den <= z.num < (k + 1) * z.den
    ensures Floor(z) == k
  {
    Euclid(z.num, z.den);
    Distribute(k, 1, z.den);
    Distribute(z.num / z.den, -(k as int), z.den);
    MulZero(z.num / z.den - k, z.den, 0);
    if z.num / z.den > k {
      MulMonotone(k + 1, z.num / z.den, z.den);
    } else if z.num / z.den < k {
      MulMonotone(z.num / z.den + 1, k, z.den);
      Distribute(z.num / z.den, 1, z.den);
    }
  }

  lemma CeilIs(z: Rat, k: nat)
    requires z.Ok() && z.num <= k * z.den && (k > 0 ==> (k - 1) * z.den < z.num)
    ensures Ceil(z) == k
  {
    if k > 0 {
      Distribute(k, -1, z.den);
    }
    Distribute(k, 1, z.den);
    FloorIs(Rat(z.num + z.den - 1, z.den), k);
  }

  /** A value this close to e hundredths has the exact floor and ceiling unless
      e hundredths is an integer; then it may fall just below or just above. */
  lemma CloseCuts(z: Rat, e: nat)
    requires z.Ok() && Close(z, e)
    ensures e % 100 != 0 ==> Floor(z) == e / 100 && Ceil(z) == e / 100 + 1
    ensures e % 100 == 0 ==> e / 100 - 1 <= Floor(z) <= e / 100 <= Ceil(z) <= e / 100 + 1
  {
    var k, r, d := e / 100, e % 100, z.den;
    assert e == 100 * k + r;
    Distribute(100 * k, r, d);
    assert (100 * k) * d == 100 * (k * d);
    Distribute(k, 1, d);
    ZeroTimes(k, d);
    if k > 0 {
      Distribute(k, -1, d);
    }
    if r != 0 {
      MulMonotone(1, r, d);
      MulMonotone(r, 99, d);
      FloorIs(z, k);
      CeilIs(z, k + 1);
    } else if z.num < k * d {
      FloorIs(z, k - 1);
      CeilIs(z, k);
    } else if z.num == k * d {
      FloorIs(z, k);
      CeilIs(z, k);
    } else {
      FloorIs(z, k);
      CeilIs(z, k + 1);
    }
  }

  lemma TimesBoth(p: nat, k: nat, a: nat, b: nat)
    requires a == k * b
    ensures p * a == (p * k) * b
  {
    Associate(p, k, b);
  }

  lemma RoundMultiple(p: nat, k: nat, q: Rat)
    requires q.Ok() && q.num == k * q.den && p * k < TWO_53
    ensures Round(Rat(p * q.num, q.den)).num == (p * k) * Round(Rat(p * q.num, q.den)).den
  {
    TimesBoth(p, k, q.num, q.den);
    RoundKeepsIntegers(Rat(p * q.num, q.den), p * k);
  }

  /** When 100 divides n, both roundings are exact. */
  lemma ExactHundreds(n: nat, p: nat, k: nat)
    requires 0 < p <= 99 && n <= MAX_POINTS && n == 100 * k
    ensures Scaled(n, p).num == (p * k) * Scaled(n, p).den
  {
    RoundKeepsIntegers(Rat(n, 100), k);
    MulMonotone(p, 99, k);
    RoundMultiple(p, k, Round(Rat(n, 100)));
  }

  lemma FloorOfMultiple(z: Rat, k: nat)
    requires z.Ok() && z.num == k * z.den
    ensures Floor(z) == k
  {
    Distribute(k, 1, z.den);
    FloorIs(z, k);
  }

  lemma Cut99OfHundreds(n: nat, k: nat)
    requires n <= MAX_POINTS && n == 100 * k
    ensures Cut99(n) == 99 * k
  {
    ExactHundreds(n, 99, k);
    FloorOfMultiple(Scaled(n, 99), 99 * k);
  }

  lemma WorstPercent(n: nat)
    ensures n - 99 * n / 100 == (n + 99) / 100
  {
    var k, r := n / 100, n % 100;
    assert n == 100 * k + r;
    assert 99 * n == 100 * (99 * k + r) - r;
  }

  lemma NotHundreds(n: nat, e: nat)
    requires e == 99 * n && n % 100 != 0
    ensures e % 100 != 0
  {
    var k := n - e / 100;
    assert e % 100 == 0 ==> n == 100 * k;
  }

  lemma Cut99OfOthers(n: nat)
    requires n <= MAX_POINTS && n % 100 != 0
    ensures Cut99(n) == 99 * n / 100
  {
    ScaledIsClose(n, 99);
    NotHundreds(n, 99 * n);
    CloseCuts(Scaled(n, 99), 99 * n);
  }

  /** The P99 cut is always exact: its bucket holds exactly ceil(n / 100)
      points, the worst one percent, and is never empty for n >= 1. */
  lemma Cut99IsExact(n: nat)
    requires n <= MAX_POINTS
    ensures Cut99(n) == 99 * n / 100
    ensures n - Cut99(n) == (n + 99) / 100
  {
    WorstPercent(n);
    if n % 100 == 0 {
      Cut99OfHundreds(n, n / 100);
    } else {
      Cut99OfOthers(n);
    }
  }

  function Pow2(k: nat): nat {
    if k == 0 then 1 else 2 * Pow2(k - 1)
  }

  /** Rounding by scaling up k times at once. */
  lemma {:induction false} RoundScaled(x: Rat, k: nat)
    requires x.Ok() && TWO_52 * x.den <= Pow2(k) * x.num < TWO_53 * x.den
    ensures Round(x) == Rat(HalfEven(Pow2(k) * x.num, x.den), Pow2(k))
    decreases k
  {
    if k > 0 {
      var y := Rat(2 * x.num, x.den);
      Twice(Pow2(k - 1), x.num);
      assert Pow2(k) * x.num == Pow2(k - 1) * y.num;
      PowPositive(k - 1);
      MulMonotone(1, Pow2(k - 1), y.num);
      assert 2 * x.num < TWO_53 * x.den;
      RoundScaled(y, k - 1);
    }
  }

  lemma {:induction false} PowPositive(k: nat)
    ensures Pow2(k) >= 1
  {
    if k > 0 {
      PowPositive(k - 1);
    }
  }

  lemma PowTen(k: nat)
    ensures Pow2(k + 10) == 1024 * Pow2(k)
  {
    assert Pow2(k + 10) == 4 * Pow2(k + 8);
    assert Pow2(k + 8) == 4 * Pow2(k + 6);
    assert Pow2(k + 6) == 4 * Pow2(k + 4);
    assert Pow2(k + 4) == 4 * Pow2(k + 2);
  }

  lemma PowersUsed()
    ensures Pow2(48) == 0x1_0000_0000_0000 && Pow2(52) == TWO_52 && Pow2(53) == TWO_53
    ensures Pow2(58) == 0x400_0000_0000_0000
  {
    PowTen(2);
    PowTen(12);
    PowTen(22);
    PowTen(32);
    PowTen(42);
    PowTen(8);
    PowTen(18);
    PowTen(28);
    PowTen(38);
    PowTen(48);
    assert Pow2(2) == 4 && Pow2(8) == 256;
    assert Pow2(53) == 2 * Pow2(52);
  }

  /** Both roundings of Scaled(n, p), given how far each scales up. */
  lemma ScaledBy(n: nat, p: nat, k1: nat, m: nat, k2: nat)
    requires TWO_52 * 100 <= Pow2(k1) * n < TWO_53 * 100 && m == HalfEven(Pow2(k1) * n, 100)
    requires TWO_52 * Pow2(k1) <= Pow2(k2) * (p * m) < TWO_53 * Pow2(k1)
    ensures Pow2(k1) > 0
    ensures Scaled(n, p) == Rat(HalfEven(Pow2(k2) * (p * m), Pow2(k1)), Pow2(k2))
  {
    PowPositive(k1);
    RoundScaled(Rat(n, 100), k1);
    RoundScaled(Rat(p * m, Pow2(k1)), k2);
  }

  /** With 58 points the P50 cut is 28, one below half of them. */
  lemma Cut50OfFiftyEight(n: nat)
    requires n == 58
    ensures Cut50(n) == 28
  {
    PowersUsed();
    ScaledBy(n, 50, 53, 5224175567749775, 48);
    FloorIs(Scaled(n, 50), 28);
  }

  lemma RoundsDown(num: nat, den: nat, q: nat, r: nat)
    requires num == q * den + r && 2 * r < den
    ensures HalfEven(num, den) == q
  {
    var h := HalfEven(num, den);
    if h > q {
      MulMonotone(q + 1, h, den);
      Distribute(q, 1, den);
    } else if h < q {
      MulMonotone(h + 1, q, den);
      Distribute(h, 1, den);
    }
  }

  /** With 70 points the P90 cut is 62, one below nine tenths of them. */
  lemma Cut90OfSeventy(n: nat)
    requires n == 70
    ensures Cut90(n) == 62
  {
    PowersUsed();
    assert Pow2(47) == 0x8000_0000_0000 by {
      assert Pow2(48) == 2 * Pow2(47);
    }
    var m := 6305039478318694;
    assert 90 * m == 567453553048682460;
    assert Pow2(47) * (90 * m) == 8866461766385663 * Pow2(53) + 28 * Pow2(47);
    assert HalfEven(Pow2(53) * n, 100) == m;
    ScaledBy(n, 90, 53, m, 47);
    RoundsDown(Pow2(47) * (90 * m), Pow2(53), 8866461766385663, 28 * Pow2(47));
    FloorIs(Scaled(n, 90), 62);
  }

  /** With two points the P50 cut is 1, as it should be. */
  lemma Cut50OfTwo(n: nat)
    requires n == 2
    ensures Cut50(n) == 1
  {
    PowersUsed();
    ScaledBy(n, 50, 58, 5764607523034235, 52);
    FloorIs(Scaled(n, 50), 1);
  }

  // The P10 cut

  lemma NoPoints(n: nat)
    requires n == 0
    ensures Cut10(n) == 0
  {
    ExactHundreds(n, 10, 0);
    CeilIs(Scaled(n, 10), 0);
  }

  /** Within half of an even integer, ties included, rounding picks it. */
  lemma HalfEvenPicksEven(num: nat, den: nat, k: nat)
    requires den > 0 && k % 2 == 0
    requires 2 * (k * den) - den <= 2 * num <= 2 * (k * den) + den
    ensures HalfEven(num, den) == k
  {
    var q := num / den;
    Euclid(num, den);
    Distribute(k, 1, den);
    Distribute(k, -1, den);
    if q > k {
      MulMonotone(k + 1, q, den);
    } else if q < k {
      MulMonotone(q, k - 1, den);
      if q < k - 1 {
        MulMonotone(q + 1, k - 1, den);
        Distribute(q, 1, den);
      }
    }
  }

  /** The scale at which k has 53 significant bits. */
  lemma {:induction false} Normalise(k: nat) returns (s: nat)
    requires 1 <= k < TWO_53
    ensures TWO_52 <= Pow2(s) * k < TWO_53
    ensures k < TWO_52 ==> (Pow2(s) * k) % 2 == 0
    decreases TWO_53 - k
  {
    if k >= TWO_52 {
      s := 0;
    } else {
      var s' := Normalise(2 * k);
      Twice(Pow2(s'), k);
      s := s' + 1;
    }
  }

  lemma TenthBounds(K: nat, t: nat, m: nat)
    requires TWO_52 <= K < TWO_53 && t == if 8 * K >= 10 * TWO_52 then 8 else 16
    requires m == HalfEven(10 * (t * K), 100)
    ensures 2 * (t * K) - t <= 2 * (10 * m) <= 2 * (t * K) + t
    ensures TWO_52 * t <= 10 * m < TWO_53 * t
  {
    if t == 8 {
      assert 10 * m - 8 * K == 2 * (5 * m - 4 * K);
    }
  }

  /** One tenth of t * K, rounded to m, gives K back when multiplied by ten and
      rounded again; ten is 8 + 2, which leaves at worst a tie. */
  lemma TenthAndBack(K: nat, t: nat, m: nat, P: nat)
    requires TWO_52 <= K < TWO_53 && K % 2 == 0 && P > 0
    requires t == if 8 * K >= 10 * TWO_52 then 8 else 16
    requires m == HalfEven(10 * (t * K), 100)
    ensures TWO_52 * (t * P) <= P * (10 * m) < TWO_53 * (t * P)
    ensures HalfEven(P * (10 * m), t * P) == K
  {
    TenthBounds(K, t, m);
    TimesPower(K, t, 10 * m, P);
    HalfEvenPicksEven(P * (10 * m), t * P, K);
  }

  lemma TimesPower(K: nat, t: nat, x: nat, P: nat)
    requires P > 0
    requires 2 * (t * K) - t <= 2 * x <= 2 * (t * K) + t && TWO_52 * t <= x < TWO_53 * t
    ensures TWO_52 * (t * P) <= P * x < TWO_53 * (t * P)
    ensures 2 * (K * (t * P)) - t * P <= 2 * (P * x) <= 2 * (K * (t * P)) + t * P
  {
    RangeTimes(t, x, P);
    TieTimes(t * K, t, x, P);
    Associate(K, t, P);
  }

  lemma RangeTimes(t: nat, x: nat, P: nat)
    requires P > 0 && TWO_52 * t <= x < TWO_53 * t
    ensures TWO_52 * (t * P) <= P * x < TWO_53 * (t * P)
  {
    MulMonotone(TWO_52 * t, x, P);
    MulMonotone(x + 1, TWO_53 * t, P);
    Distribute(x, 1, P);
    Associate(TWO_52, t, P);
    Associate(TWO_53, t, P);
  }

  lemma TieTimes(a: int, t: nat, x: int, P: nat)
    requires 2 * a - t <= 2 * x <= 2 * a + t
    ensures 2 * (a * P) - t * P <= 2 * (P * x) <= 2 * (a * P) + t * P
  {
    MulMonotone(2 * a - t, 2 * x, P);
    MulMonotone(2 * x, 2 * a + t, P);
    Twice(x, P);
    Spread(a, t, P);
  }

  lemma Spread(a: int, t: int, P: int)
    ensures (2 * a - t) * P == 2 * (a * P) - t * P
    ensures (2 * a + t) * P == 2 * (a * P) + t * P
  {
  }

  lemma TenthExact(n: nat, k: nat)
    requires n == 10 * k && 1 <= k && n <= MAX_POINTS
    ensures Cut10(n) == k
  {
    var s := Normalise(k);
    var P := Pow2(s);
    var K := P * k;
    PowPositive(s);
    var e := if 8 * K >= 10 * TWO_52 then 3 else 4;
    var t := Pow2(e);
    assert Pow2(3) == 8 && Pow2(4) == 16;
    PowAdd(s, e);
    var m := HalfEven(10 * (t * K), 100);
    assert Pow2(s + e) * n == 10 * (t * K) by {
      Rearrange(P, t, k);
    }
    TenthAndBack(K, t, m, P);
    ScaledBy(n, 10, s + e, m, s);
    assert Scaled(n, 10) == Rat(K, P);
    Distribute(k, -1, P);
    CeilIs(Rat(K, P), k);
  }

  lemma Rearrange(P: nat, t: nat, k: nat)
    ensures (t * P) * (10 * k) == 10 * (t * (P * k))
  {
    Associate(t, P, k);
  }

  lemma {:induction false} PowAdd(a: nat, b: nat)
    requires b == 3 || b == 4
    ensures Pow2(a + b) == Pow2(b) * Pow2(a)
  {
    assert Pow2(a + 2) == 4 * Pow2(a);
    assert Pow2(a + 3) == 2 * Pow2(a + 2);
    assert Pow2(a + 4) == 2 * Pow2(a + 3);
    assert Pow2(3) == 8 && Pow2(4) == 16;
  }

  lemma TenthRounded(n: nat, k: nat, r: nat)
    requires n == 10 * k + r && 1 <= r <= 9 && n <= MAX_POINTS
    ensures Cut10(n) == k + 1
  {
    ScaledIsClose(n, 10);
    assert (10 * n) / 100 == k && (10 * n) % 100 == 10 * r;
    CloseCuts(Scaled(n, 10), 10 * n);
  }

  /** Rounding never moves the P10 cut: it is always the exact ceiling of n / 10. */
  lemma Cut10IsExact(n: nat)
    requires n <= MAX_POINTS
    ensures Cut10(n) == (n + 9) / 10
  {
    if n == 0 {
      NoPoints(n);
    } else if n % 10 == 0 {
      TenthExact(n, n / 10);
    } else {
      TenthRounded(n, n / 10, n % 10);
    }
  }

  // All cuts together

  lemma NearFloor(n: nat, p: nat)
    requires 0 < p <= 99 && n <= MAX_POINTS
    ensures (p * n) % 100 != 0 ==> Floor(Scaled(n, p)) == (p * n) / 100
    ensures (p * n) / 100 - 1 <= Floor(Scaled(n, p)) <= (p * n) / 100
  {
    ScaledIsClose(n, p);
    CloseCuts(Scaled(n, p), p * n);
  }

  /** The P10 and P99 cuts are exact; the P50 and P90 cuts are exact whenever
      100 does not divide p * n, and at most one too low otherwise. */
  lemma CutsAreNear(n: nat)
    requires n <= MAX_POINTS
    ensures Cut10(n) == (n + 9) / 10
    ensures 50 * n / 100 - 1 <= Cut50(n) <= 50 * n / 100
    ensures 50 * n % 100 != 0 ==> Cut50(n) == 50 * n / 100
    ensures 90 * n / 100 - 1 <= Cut90(n) <= 90 * n / 100
    ensures 90 * n % 100 != 0 ==> Cut90(n) == 90 * n / 100
    ensures Cut99(n) == 99 * n / 100
  {
    Cut10IsExact(n);
    NearFloor(n, 50);
    NearFloor(n, 90);
    Cut99IsExact(n);
  }

  lemma OrderOfNearCuts(n: nat, c10: int, c50: int, c90: int)
    requires n > 2 && c10 == (n + 9) / 10
    requires 50 * n / 100 - 1 <= c50 <= 50 * n / 100 && (50 * n % 100 != 0 ==> c50 == 50 * n / 100)
    requires 90 * n / 100 - 1 <= c90 <= 90 * n / 100 && (90 * n % 100 != 0 ==> c90 == 90 * n / 100)
    ensures c10 <= c50 <= c90 <= 99 * n / 100 && c10 < n
  {
  }

  lemma OrderOfSmallCuts(n: nat, c10: int, c50: int, c90: int)
    requires n <= 2 && c10 == (n + 9) / 10 && 0 <= c50 <= 50 * n / 100 && 0 <= c90 <= 90 * n / 100
    requires n == 2 ==> c50 == 1 && (90 * n % 100 != 0 ==> c90 == 90 * n / 100)
    ensures c10 == (if n == 0 then 0 else 1) && c50 == c90 == 99 * n / 100 == if n == 2 then 1 else 0
  {
  }

  /** The buckets nest, P10 around P50 around P90 around P99, for every number
      of points but one: with a single point the P10 cut is 1 and its bucket is
      empty while the P50 bucket is not. */
  lemma CutsNestUnlessSingle(n: nat)
    requires n <= MAX_POINTS
    ensures n != 1 <==> Cut10(n) <= Cut50(n)
    ensures Cut50(n) <= Cut90(n) <= Cut99(n) <= n
    ensures n == 1 ==> Cut10(n) == 1 && Cut50(n) == 0
    ensures n > 1 ==> Cut10(n) < n
  {
    CutsAreNear(n);
    if n > 2 {
      OrderOfNearCuts(n, Cut10(n), Cut50(n), Cut90(n));
    } else if n == 2 {
      Cut50OfTwo(n);
      OrderOfSmallCuts(n, Cut10(n), Cut50(n), Cut90(n));
    } else {
      OrderOfSmallCuts(n, Cut10(n), Cut50(n), Cut90(n));
    }
  }
}
