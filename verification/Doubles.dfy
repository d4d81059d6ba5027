/**
 C `double` on the usual platforms: the binary64 format of IEEE 754, as the reals it stands for. An infinity is
 written as the power of two just beyond the format, and zero has no sign here.
 */
module Doubles {

  function Pow2(e: int): (p: real)
    ensures p > 0.0
    decreases if e < 0 then -e else e
  {
    if e == 0 then 1.0 else if e > 0 then 2.0 * Pow2(e - 1) else Pow2(e + 1) / 2.0
  }

  const MANTISSA := 0x20_0000_0000_0000  // 2 to the 53rd
  const MIN_EXP := -1074
  const MAX_EXP := 971

  function Infinity(): real { Pow2(1024) }

  /** What is no number at all is written as the next power of two. */
  function NotANumber(): real { Pow2(1025) }

  function Abs(x: real): real { if x < 0.0 then -x else x }

  /** The finite doubles. */
  ghost predicate Representable(x: real) {
    exists m: int, e: int :: MIN_EXP <= e <= MAX_EXP && -MANTISSA < m < MANTISSA && x == Scaled(m, e)
  }

  function Scaled(m: int, e: int): real { m as real * Pow2(e) }

  /** The nearest integer, the even one of two. */
  function NearestEven(q: real): int {
    var f := q.Floor;
    if q - f as real < 0.5 then f else if q - f as real > 0.5 then f + 1 else if f % 2 == 0 then f else f + 1
  }

  /** The exponent of the grid on which doubles of this size lie. */
  function GridFrom(v: real, e: int): (g: int)
    requires MIN_EXP <= e <= MAX_EXP
    ensures e <= g <= MAX_EXP
    ensures v < Pow2(53 + g) || g == MAX_EXP
    ensures g > e ==> v >= Pow2(52 + g)
    decreases MAX_EXP - e
  {
    if v < Pow2(53 + e) || e == MAX_EXP then e else GridFrom(v, e + 1)
  }

  function Grid(v: real): (g: int)
    ensures MIN_EXP <= g <= MAX_EXP
    ensures v < Pow2(53 + g) || g == MAX_EXP
    ensures g > MIN_EXP ==> v >= Pow2(52 + g)
  {
    GridFrom(v, MIN_EXP)
  }

  function OnGrid(v: real, e: int): real { Scaled(NearestEven(v / Pow2(e)), e) }

  function RoundUnsigned(v: real): real
    requires v >= 0.0
  {
    var r := OnGrid(v, Grid(v));
    if r > Infinity() then Infinity() else r
  }

  /** To the nearest double, ties to even; an infinity when the result is out of range. */
  function Round(v: real): real {
    if v < 0.0 then -RoundUnsigned(-v) else RoundUnsigned(v)
  }

  // ----- powers of two -----

  lemma Pow2Step(e: int)
    ensures Pow2(e + 1) == 2.0 * Pow2(e)
  {
  }

  lemma {:induction false} Pow2Grows(a: int, b: int)
    requires a <= b
    ensures Pow2(a) <= Pow2(b)
    decreases b - a
  {
    if a < b {
      Pow2Grows(a, b - 1);
      Pow2Step(b - 1);
    }
  }

  /** What lies on a grid lies on every finer one. */
  lemma {:induction false} Finer(m: int, e: int, k: int) returns (n: int)
    requires k <= e
    ensures Scaled(m, e) == Scaled(n, k)
    ensures m >= 0 ==> n >= 0
    decreases e - k
  {
    if k == e {
      n := m;
    } else {
      Pow2Step(e - 1);
      assert Scaled(m, e) == Scaled(2 * m, e - 1) by {
        Doubling(m as real, Pow2(e - 1));
      }
      n := Finer(2 * m, e - 1, k);
    }
  }

  lemma Doubling(m: real, p: real)
    ensures m * (2.0 * p) == (2.0 * m) * p
  {
  }

  lemma ScaledLess(m: int, n: int, e: int)
    requires m < n
    ensures Scaled(m, e) < Scaled(n, e)
  {
  }

  /** 2 to the 53rd, step by step. */
  lemma {:induction false} PowerIs(k: nat, n: int, e: int)
    requires k <= 53 && n == Power(k)
    ensures Scaled(n, e) == Pow2(k + e)
  {
    if k > 0 {
      var half := Power(k - 1);
      PowerIs(k - 1, half, e);
      Pow2Step(k - 1 + e);
      assert n as real == 2.0 * half as real;
      hide Pow2, Power;
      Doubling(half as real, Pow2(e));
    }
  }

  function Power(k: nat): int { if k == 0 then 1 else 2 * Power(k - 1) }

  lemma MantissaIs(e: int)
    ensures Scaled(MANTISSA, e) == Pow2(53 + e) && Scaled(MANTISSA / 2, e) == Pow2(52 + e)
  {
    Powers();
    PowerIs(53, MANTISSA, e);
    PowerIs(52, MANTISSA / 2, e);
  }

  lemma Powers()
    ensures Power(53) == MANTISSA && Power(52) == MANTISSA / 2
  {
    assert Power(10) == 0x400;
    assert Power(20) == 0x10_0000;
    assert Power(30) == 0x4000_0000;
    assert Power(40) == 0x100_0000_0000;
    assert Power(50) == 0x4_0000_0000_0000;
  }

  // ----- rounding -----

  lemma NearestMonotone(q: real, r: real)
    requires q <= r
    ensures NearestEven(q) <= NearestEven(r)
  {
  }

  lemma NearestOfInt(m: int)
    ensures NearestEven(m as real) == m
  {
  }

  lemma Divided(m: int, e: int)
    ensures Scaled(m, e) / Pow2(e) == m as real
  {
  }

  lemma Quotients(v: real, w: real, p: real)
    requires v <= w && p > 0.0
    ensures v / p <= w / p
  {
  }

  /** Rounding on one grid keeps order with the points of that grid. */
  lemma RoundOnGrid(v: real, e: int, m: int)
    ensures v <= Scaled(m, e) ==> OnGrid(v, e) <= Scaled(m, e)
    ensures v >= Scaled(m, e) ==> OnGrid(v, e) >= Scaled(m, e)
  {
    Divided(m, e);
    NearestOfInt(m);
    var n := NearestEven(v / Pow2(e));
    if v <= Scaled(m, e) {
      Quotients(v, Scaled(m, e), Pow2(e));
      NearestMonotone(v / Pow2(e), m as real);
      if n < m { ScaledLess(n, m, e); }
    }
    if v >= Scaled(m, e) {
      Quotients(Scaled(m, e), v, Pow2(e));
      NearestMonotone(m as real, v / Pow2(e));
      if m < n { ScaledLess(m, n, e); }
    }
  }

  lemma SameGrid(v: real, w: real, e: int)
    requires v <= w
    ensures OnGrid(v, e) <= OnGrid(w, e)
  {
    var m, n := NearestEven(v / Pow2(e)), NearestEven(w / Pow2(e));
    Quotients(v, w, Pow2(e));
    NearestMonotone(v / Pow2(e), w / Pow2(e));
    hide NearestEven, Pow2;
    if m < n { ScaledLess(m, n, e); }
  }

  lemma CoarserGrid(v: real, d: int, w: real, e: int)
    requires d < e && v < Pow2(53 + d) && Pow2(52 + e) <= w
    ensures OnGrid(v, d) <= OnGrid(w, e)
  {
    MantissaIs(d);
    MantissaIs(e);
    Pow2Grows(53 + d, 52 + e);
    hide OnGrid, Scaled, Pow2;
    RoundOnGrid(v, d, MANTISSA);
    RoundOnGrid(w, e, MANTISSA / 2);
  }

  lemma GridsOrdered(v: real, w: real)
    requires v <= w
    ensures Grid(v) <= Grid(w)
  {
    var d, e := Grid(v), Grid(w);
    if e < d {
      hide Grid, Pow2;
      Pow2Grows(53 + e, 52 + d);
      assert false;
    }
  }

  lemma OnGridMonotone(v: real, w: real)
    requires 0.0 <= v <= w
    ensures 0.0 <= OnGrid(v, Grid(v)) <= OnGrid(w, Grid(w))
  {
    var d, e := Grid(v), Grid(w);
    RoundOnGrid(v, d, 0);
    assert Scaled(0, d) == 0.0;
    GridsOrdered(v, w);
    hide OnGrid, Grid, Scaled, Pow2;
    if d == e {
      SameGrid(v, w, d);
    } else {
      CoarserGrid(v, d, w, e);
    }
  }

  lemma RoundUnsignedMonotone(v: real, w: real)
    requires 0.0 <= v <= w
    ensures 0.0 <= RoundUnsigned(v) <= RoundUnsigned(w)
  {
    OnGridMonotone(v, w);
    hide OnGrid, Grid, Pow2;
  }

  /** Rounding never changes the order of two numbers. */
  lemma RoundMonotone(v: real, w: real)
    requires v <= w
    ensures Round(v) <= Round(w)
  {
    hide RoundUnsigned;
    if 0.0 <= v {
      RoundUnsignedMonotone(v, w);
    } else if w < 0.0 {
      RoundUnsignedMonotone(-w, -v);
    } else {
      RoundUnsignedMonotone(0.0, -v);
      RoundUnsignedMonotone(0.0, w);
    }
  }

  lemma NonNegative(m: int, e: int)
    ensures Scaled(m, e) >= 0.0 <==> m >= 0
  {
  }

  lemma Negated(m: int, e: int)
    ensures Scaled(-m, e) == -Scaled(m, e)
  {
  }

  /** A double is not changed by rounding. */
  lemma RoundKeeps(x: real)
    requires Representable(x)
    ensures Round(x) == x && Abs(x) < Infinity()
  {
    var m: int, e: int :| MIN_EXP <= e <= MAX_EXP && -MANTISSA < m < MANTISSA && x == Scaled(m, e);
    RoundScaled(m, e);
  }

  lemma RoundScaled(m: int, e: int)
    requires MIN_EXP <= e <= MAX_EXP && -MANTISSA < m < MANTISSA
    ensures Round(Scaled(m, e)) == Scaled(m, e) && Abs(Scaled(m, e)) < Infinity()
  {
    NonNegative(m, e);
    Negated(m, e);
    hide RoundUnsigned, Scaled, Infinity, Pow2;
    if m >= 0 {
      RoundUnsignedKeeps(m, e);
    } else {
      RoundUnsignedKeeps(-m, e);
    }
  }

  lemma RoundUnsignedKeeps(m: int, e: int)
    requires MIN_EXP <= e <= MAX_EXP && 0 <= m < MANTISSA
    ensures Scaled(m, e) >= 0.0 && RoundUnsigned(Scaled(m, e)) == Scaled(m, e) < Infinity()
  {
    var x := Scaled(m, e);
    NonNegative(m, e);
    ScaledLess(m, MANTISSA, e);
    MantissaIs(e);
    var g := Grid(x);
    if g > e { Pow2Grows(53 + e, 52 + g); }
    var n := Finer(m, e, g);
    Divided(n, g);
    NearestOfInt(n);
    Pow2Grows(53 + e, 1024);
  }

  lemma NearestIs(q: real)
    ensures var n, f := NearestEven(q), q.Floor;
            || (n == f && q - f as real <= 0.5)
            || (n == f + 1 && q - f as real >= 0.5)
    ensures q.Floor as real <= q < q.Floor as real + 1.0
  {
  }

  lemma NearestIsNearest(q: real, k: int)
    ensures Abs(NearestEven(q) as real - q) <= Abs(k as real - q)
  {
    NearestIs(q);
    var f := q.Floor;
    var low, high := f as real, (f + 1) as real;
    assert high == low + 1.0;
    hide NearestEven;
    if k <= f {
      assert k as real <= low;
    } else {
      assert k as real >= high;
    }
  }

  lemma AbsScaled(a: real, p: real)
    requires p > 0.0
    ensures Abs(a * p) == Abs(a) * p
  {
    if a < 0.0 {
      assert a * p < 0.0;
    } else {
      assert a * p >= 0.0;
    }
  }

  /** One distance, scaled. */
  lemma Spread(m: real, v: real, p: real)
    requires p > 0.0
    ensures Abs(m * p - v) == Abs(m - v / p) * p
  {
    var d, q := m - v / p, v / p;
    assert q * p == v;
    assert m * p - v == d * p by { Distribute(m, q, p); }
    AbsScaled(d, p);
  }

  lemma Distribute(m: real, q: real, p: real)
    ensures (m - q) * p == m * p - q * p
  {
  }

  lemma ScaleNearest(v: real, p: real, m: real, k: real)
    requires p > 0.0 && Abs(m - v / p) <= Abs(k - v / p)
    ensures Abs(m * p - v) <= Abs(k * p - v)
  {
    Spread(m, v, p);
    Spread(k, v, p);
    ScaledOrder(Abs(m - v / p), Abs(k - v / p), p, Abs(m * p - v), Abs(k * p - v));
  }

  lemma ScaledOrder(a: real, b: real, p: real, x: real, y: real)
    requires a <= b && p > 0.0 && x == a * p && y == b * p
    ensures x <= y
  {
  }

  lemma GridNearest(v: real, e: int, k: int)
    ensures Abs(OnGrid(v, e) - v) <= Abs(Scaled(k, e) - v)
  {
    var p := Pow2(e);
    hide *;
    GridPoints(v, e, k);
    NearestIsNearest(v / p, k);
    PointNearest(v, p, NearestEven(v / p), k, OnGrid(v, e), Scaled(k, e));
  }

  lemma PointNearest(v: real, p: real, m: int, k: int, x: real, y: real)
    requires p > 0.0 && x == m as real * p && y == k as real * p && Abs(m as real - v / p) <= Abs(k as real - v / p)
    ensures Abs(x - v) <= Abs(y - v)
  {
    ScaleNearest(v, p, m as real, k as real);
  }

  lemma GridPoints(v: real, e: int, k: int)
    ensures OnGrid(v, e) == NearestEven(v / Pow2(e)) as real * Pow2(e) && Scaled(k, e) == k as real * Pow2(e)
  {
    hide NearestEven, Pow2;
  }

  /** The result of rounding is a double, or an infinity. */
  lemma RoundUnsignedIsDouble(v: real)
    requires v >= 0.0
    ensures var x := RoundUnsigned(v); x == Infinity() || (Representable(x) && x == OnGrid(v, Grid(v)))
  {
    var g := Grid(v);
    var m := NearestEven(v / Pow2(g));
    MantissaIs(g);
    MantissaIs(g + 1);
    RoundOnGrid(v, g, MANTISSA);
    RoundOnGrid(v, g, 0);
    assert OnGrid(v, g) == Scaled(m, g) && Scaled(0, g) == 0.0;
    NonNegative(m, g);
    hide NearestEven, Grid, Pow2, OnGrid;
    if m > MANTISSA {
      ScaledLess(MANTISSA, m, g);
    } else if m < MANTISSA {
      assert Representable(Scaled(m, g));
      ScaledLess(m, MANTISSA, g);
      BelowInfinity(g);
    } else if g < MAX_EXP {
      assert Representable(Scaled(MANTISSA / 2, g + 1));
      BelowInfinity(g);
    }
  }

  lemma BelowInfinity(g: int)
    requires g <= MAX_EXP
    ensures Pow2(53 + g) <= Infinity()
  {
    Pow2Grows(53 + g, 1024);
  }

  lemma RoundUnsignedNearest(v: real, y: real)
    requires v >= 0.0 && Representable(y) && RoundUnsigned(v) != Infinity()
    ensures Abs(RoundUnsigned(v) - v) <= Abs(y - v)
  {
    RoundUnsignedIsDouble(v);
    var m: int, e: int :| MIN_EXP <= e <= MAX_EXP && -MANTISSA < m < MANTISSA && y == Scaled(m, e);
    hide RoundUnsigned, OnGrid, Grid, Pow2, Scaled, Abs;
    GridNearestOfAll(v, m, e);
  }

  lemma GridNearestOfAll(v: real, m: int, e: int)
    requires v >= 0.0 && MIN_EXP <= e <= MAX_EXP && m < MANTISSA
    ensures Abs(OnGrid(v, Grid(v)) - v) <= Abs(Scaled(m, e) - v)
  {
    var g := Grid(v);
    if m < 0 {
      NonNegative(m, e);
      assert Scaled(0, g) == 0.0;
      hide *;
      BelowZero(v, Scaled(m, e));
      GridNearest(v, g, 0);
    } else if g <= e {
      hide *;
      var n := Finer(m, e, g);
      GridNearest(v, g, n);
    } else {
      CoarseGrid(v, m, e);
      hide Scaled, Pow2, Grid, OnGrid;
      GridNearest(v, g, MANTISSA / 2);
    }
  }

  lemma BelowZero(v: real, x: real)
    requires x <= 0.0 <= v
    ensures Abs(0.0 - v) <= Abs(x - v)
  {
  }

  /** On a coarser grid its smallest full mantissa lies between. */
  lemma CoarseGrid(v: real, m: int, e: int)
    requires v >= 0.0 && MIN_EXP <= e <= MAX_EXP && m < MANTISSA && Grid(v) > e
    ensures Scaled(m, e) <= Scaled(MANTISSA / 2, Grid(v)) <= v
  {
    var g := Grid(v);
    ScaledLess(m, MANTISSA, e);
    MantissaIs(e);
    MantissaIs(g);
    hide Scaled, Pow2, OnGrid;
    Pow2Grows(53 + e, 52 + g);
  }

  /** Rounding gives a double no further away than any other, or an infinity. */
  lemma RoundIsNearest(v: real, y: real)
    requires Representable(y)
    ensures Abs(Round(v)) == Infinity() || (Representable(Round(v)) && Abs(Round(v) - v) <= Abs(y - v))
  {
    hide RoundUnsigned, Representable, Infinity;
    if v >= 0.0 {
      RoundUnsignedIsDouble(v);
      if RoundUnsigned(v) != Infinity() { RoundUnsignedNearest(v, y); }
      RoundUnsignedMonotone(0.0, v);
    } else {
      RoundUnsignedIsDouble(-v);
      NegatedIsDouble(RoundUnsigned(-v));
      NegatedIsDouble(y);
      if RoundUnsigned(-v) != Infinity() { RoundUnsignedNearest(-v, -y); }
      RoundUnsignedMonotone(0.0, -v);
    }
  }

  lemma NegatedIsDouble(x: real)
    ensures Representable(x) ==> Representable(-x)
  {
    if Representable(x) {
      var m: int, e: int :| MIN_EXP <= e <= MAX_EXP && -MANTISSA < m < MANTISSA && x == Scaled(m, e);
      Negated(m, e);
      assert -x == Scaled(-m, e);
    }
  }

  // ----- comparison -----

  const EPSILON: real := 0.0000001

  /**
   Not `fabs(x - y) >= DOUBLE_EPSILON`, with the difference and the constant rounded as the program has them; a
   comparison with what is no number is never true.
   */
  predicate Near(x: real, y: real) {
    x == NotANumber() || y == NotANumber() || Abs(Round(x - y)) < Round(EPSILON)
  }

  lemma NearSelf(x: real)
    ensures Near(x, x)
  {
    EpsilonRange();
    RoundScaled(0, 0);
    assert Scaled(0, 0) == 0.0;
    hide Round;
  }

  /** The rounded constant lies between 13 and 14 steps of a grid of doubles. */
  lemma EpsilonRange()
    ensures Scaled(13, -27) <= Round(EPSILON) <= Scaled(14, -27) && 0.0 < Scaled(13, -27)
  {
    RoundScaled(13, -27);
    RoundScaled(14, -27);
    TwentySeven();
    hide Round, Scaled;
    RoundMonotone(Scaled(13, -27), EPSILON);
    RoundMonotone(EPSILON, Scaled(14, -27));
  }

  lemma TwentySeven()
    ensures Pow2(-27) == 1.0 / 134217728.0
    ensures 0.0 < Scaled(13, -27) < EPSILON < Scaled(14, -27)
  {
    assert Pow2(-10) == 1.0 / 1024.0;
    assert Pow2(-20) == 1.0 / 1048576.0;
  }
}
