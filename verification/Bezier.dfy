/** Inverting a cubic Bezier curve by bisection. */
module Bezier {

  /** A coordinate of the curve whose end points are 0 and 1 and whose inner control points are a and b. */
  function F(a: real, b: real, t: real): real {
    t * (3.0 * (1.0 - t) * (a * (1.0 - t) + b * t) + t * t)
  }

  /** The polynomial that F rearranges: the Bernstein form with the control values 0, a, b and 1. */
  lemma CurveIsBernstein(a: real, b: real, t: real)
    ensures var n := 1.0 - t; F(a, b, t) == 3.0 * a * n * n * t + 3.0 * b * n * t * t + t * t * t
  {
    var n := 1.0 - t;
    assert 3.0 * n * (a * n + b * t) == 3.0 * a * n * n + 3.0 * b * n * t;
    assert t * (3.0 * a * n * n + 3.0 * b * n * t + t * t) == 3.0 * a * n * n * t + 3.0 * b * n * t * t + t * t * t;
  }

  function Abs(x: real): real {
    if x < 0.0 then -x else x
  }

  lemma AbsIsDistance(x: real)
    ensures Abs(x) >= 0.0 && (Abs(x) == x || Abs(x) == -x)
  {
  }

  const TOLERANCE := 0.00001

  // ----- how fast the curve can move -----

  /** No chord of the curve over [0, 1] is steeper than this. */
  function Slope(a: real, b: real): real {
    if 0.0 <= a <= 1.0 && 0.0 <= b <= 1.0 then 3.0 else 3.0 + 3.0 * Abs(a) + 3.0 * Abs(b)
  }

  /** With p = s + t and m = s*s + s*t + t*t, the slope of the chord from s to t. */
  function Chord(a: real, b: real, p: real, m: real): real {
    m + a * (3.0 * (1.0 - 2.0 * p + m)) + b * (3.0 * (p - m))
  }

  lemma ChordSlope(a: real, b: real, s: real, t: real)
    ensures F(a, b, t) - F(a, b, s) == (t - s) * Chord(a, b, s + t, s * s + s * t + t * t)
  {
  }

  lemma Square(x: real)
    ensures x * x >= 0.0
  {
  }

  lemma SquareOfDifference(x: real, y: real)
    ensures x * x - 2.0 * (x * y) + y * y >= 0.0
  {
  }

  lemma SquareOfSum(s: real, t: real)
    ensures (s + t) * (s + t) == s * s + 2.0 * (s * t) + t * t
  {
  }

  /** The same facts with the products s*s, s*t and t*t named u, v and w. */
  lemma UnitSquareLinear(s: real, t: real, u: real, v: real, w: real)
    requires 0.0 <= u <= s <= 1.0 && 0.0 <= w <= t <= 1.0 && 0.0 <= v <= s && v <= t
    requires u - 2.0 * v + w >= 0.0
    requires u + 2.0 * v + w - 2.0 * (s + t) + 1.0 >= 0.0
    requires 9.0 * (u + 2.0 * v + w) - 24.0 * (s + t) + 16.0 >= 0.0
    ensures InUnitSquare(s + t, u + v + w)
  {
  }

  /** What the sum p and the symmetric form m of two points of [0, 1] satisfy. */
  predicate InUnitSquare(p: real, m: real) {
    && 0.0 <= p <= 2.0 && 0.0 <= m <= 3.0 && 2.0 * m <= 3.0 * p
    && 4.0 * m >= 6.0 * p - 3.0 && 12.0 * m >= 24.0 * p - 16.0
  }

  lemma UnitSquare(s: real, t: real)
    requires 0.0 <= s <= 1.0 && 0.0 <= t <= 1.0
    ensures InUnitSquare(s + t, s * s + s * t + t * t)
  {
    hide InUnitSquare;
    ProductsInUnit(s, t);
    SquareOfDifference(s, t);
    SumInUnit(s, t);
    UnitSquareLinear(s, t, s * s, s * t, t * t);
  }

  lemma ProductsInUnit(s: real, t: real)
    requires 0.0 <= s <= 1.0 && 0.0 <= t <= 1.0
    ensures 0.0 <= s * s <= s && 0.0 <= t * t <= t && 0.0 <= s * t <= s && s * t <= t
  {
  }

  lemma SumInUnit(s: real, t: real)
    ensures s * s + 2.0 * (s * t) + t * t - 2.0 * (s + t) + 1.0 >= 0.0
    ensures 9.0 * (s * s + 2.0 * (s * t) + t * t) - 24.0 * (s + t) + 16.0 >= 0.0
  {
    var p := s + t;
    SquareOfSum(s, t);
    SquareOfDifference(p, 1.0);
    Square(3.0 * p - 4.0);
    assert (3.0 * p - 4.0) * (3.0 * p - 4.0) == 9.0 * (p * p) - 24.0 * p + 16.0;
  }

  lemma Scale(a: real, x: real)
    requires 0.0 <= a <= 1.0
    ensures a * x <= if x > 0.0 then x else 0.0
  {
  }

  lemma ScaleAbs(a: real, x: real)
    requires -1.0 <= x <= 1.0
    ensures a * x <= Abs(a)
  {
  }

  lemma ChordBound(a: real, b: real, p: real, m: real)
    requires InUnitSquare(p, m)
    ensures Chord(a, b, p, m) <= Slope(a, b)
  {
    var u, v := 1.0 - 2.0 * p + m, p - m;
    if 0.0 <= a <= 1.0 && 0.0 <= b <= 1.0 {
      Scale(a, 3.0 * u);
      Scale(b, 3.0 * v);
    } else {
      ScaleAbs(a, u);
      ScaleAbs(b, v);
      assert a * (3.0 * u) == 3.0 * (a * u);
      assert b * (3.0 * v) == 3.0 * (b * v);
    }
  }

  lemma ChordBoundBelow(a: real, b: real, p: real, m: real)
    requires InUnitSquare(p, m)
    ensures -Slope(a, b) <= Chord(a, b, p, m)
  {
    var u, v := 1.0 - 2.0 * p + m, p - m;
    if 0.0 <= a <= 1.0 && 0.0 <= b <= 1.0 {
      Scale(a, -3.0 * u);
      Scale(b, -3.0 * v);
      assert a * (-3.0 * u) == -(a * (3.0 * u));
      assert b * (-3.0 * v) == -(b * (3.0 * v));
    } else {
      ScaleAbs(a, -u);
      ScaleAbs(b, -v);
      assert a * (3.0 * u) == -(3.0 * (a * -u));
      assert b * (3.0 * v) == -(3.0 * (b * -v));
    }
  }

  lemma ScaleBy(d: real, x: real, y: real)
    requires 0.0 <= d && x <= y
    ensures d * x <= y * d
  {
  }

  /** The curve is Lipschitz on [0, 1], and 3-Lipschitz when its control points lie in [0, 1]. */
  lemma Lipschitz(a: real, b: real, s: real, t: real)
    requires 0.0 <= s <= t <= 1.0
    ensures Abs(F(a, b, t) - F(a, b, s)) <= Slope(a, b) * (t - s)
  {
    hide F, Chord, Slope;
    var p, m := s + t, s * s + s * t + t * t;
    ChordSlope(a, b, s, t);
    UnitSquare(s, t);
    ChordBound(a, b, p, m);
    ChordBoundBelow(a, b, p, m);
    ScaleBy(t - s, Chord(a, b, p, m), Slope(a, b));
    ScaleBy(t - s, -Chord(a, b, p, m), Slope(a, b));
  }

  lemma EndPoints(a: real, b: real)
    ensures F(a, b, 0.0) == 0.0 && F(a, b, 1.0) == 1.0
  {
  }

  // ----- how many halvings are enough -----

  function Pow2(n: nat): (r: real)
    ensures r >= 1.0
  {
    if n == 0 then 1.0 else 2.0 * Pow2(n - 1)
  }

  /** After n halvings of [0, 1] the curve cannot move by the tolerance within half an interval. */
  predicate Enough(a: real, b: real, n: nat) {
    Slope(a, b) < TOLERANCE * Pow2(n)
  }

  lemma Pow2Grows(n: nat)
    ensures Pow2(n) > n as real
  {
  }

  /** A number of halvings that is enough for any control points. */
  function Limit(a: real, b: real): (n: nat)
    ensures n > 0
  {
    (Slope(a, b) / TOLERANCE).Floor + 1
  }

  lemma LimitIsEnough(a: real, b: real)
    ensures Enough(a, b, Limit(a, b))
  {
    var n := Limit(a, b);
    Pow2Grows(n);
    assert Slope(a, b) / TOLERANCE < n as real;
    assert Slope(a, b) == (Slope(a, b) / TOLERANCE) * TOLERANCE;
  }

  lemma NineteenIsEnough(a: real, b: real)
    requires 0.0 <= a <= 1.0 && 0.0 <= b <= 1.0
    ensures Enough(a, b, 19)
  {
    assert Pow2(5) == 32.0;
    assert Pow2(10) == 1024.0 by { assert Pow2(8) == 256.0; }
    assert Pow2(15) == 32768.0 by { assert Pow2(13) == 8192.0; }
    assert Pow2(19) == 524288.0 by { assert Pow2(17) == 131072.0; }
  }

  lemma PowZero()
    ensures Pow2(0) == 1.0
  {
  }

  lemma Halve(left: real, right: real, n: nat)
    requires (right - left) * Pow2(n) == 1.0
    ensures (right - left) * Pow2(n + 1) == 2.0
    ensures var mid := (left + right) / 2.0;
            (mid - left) * Pow2(n + 1) == 1.0 && (right - mid) * Pow2(n + 1) == 1.0
  {
  }

  lemma HalfIsClose(slope: real, half: real, pow: real, below: real, middle: real, above: real, x: real)
    requires half * pow == 1.0 && slope < TOLERANCE * pow && half > 0.0 && pow > 0.0
    requires below <= x <= above
    requires middle - below <= slope * half && above - middle <= slope * half
    ensures Abs(x - middle) < TOLERANCE
  {
    var bound := TOLERANCE * pow;
    assert slope * half < bound * half;
    assert bound * half == TOLERANCE * (half * pow);
    assert TOLERANCE * (half * pow) == TOLERANCE * 1.0;
    assert x - middle <= slope * half;
    assert middle - x <= slope * half;
    assert slope * half < TOLERANCE;
  }

  /** The middle of a bracketing interval of width 2/Pow2(n) misses x by less than the tolerance if n is enough. */
  lemma MiddleIsClose(a: real, b: real, left: real, right: real, x: real, n: nat)
    requires 0.0 <= left < right <= 1.0 && F(a, b, left) <= x <= F(a, b, right)
    requires (right - left) * Pow2(n) == 2.0 && Enough(a, b, n)
    ensures Abs(x - F(a, b, (left + right) / 2.0)) < TOLERANCE
  {
    hide F;
    var mid := (left + right) / 2.0;
    Lipschitz(a, b, left, mid);
    Lipschitz(a, b, mid, right);
    assert right - mid == mid - left;
    HalfIsClose(Slope(a, b), mid - left, Pow2(n), F(a, b, left), F(a, b, mid), F(a, b, right), x);
  }

  /** The parameter at which the bisection of [left, right] comes close enough to x, in at most `turns` turns. */
  function Bisect(a: real, b: real, x: real, left: real, right: real, turns: nat): real
    decreases turns
  {
    var mid := (left + right) / 2.0;
    if Abs(x - F(a, b, mid)) < TOLERANCE || turns == 0 then mid
    else if F(a, b, mid) < x then Bisect(a, b, x, mid, right, turns - 1)
    else Bisect(a, b, x, left, mid, turns - 1)
  }

  /** The height of the curve (a1, b1)-(a2, b2) above x. */
  function Height(a1: real, b1: real, a2: real, b2: real, x: real): real {
    if a1 == b1 && a2 == b2 then x else F(b1, b2, Bisect(a1, a2, x, 0.0, 1.0, Limit(a1, a2)))
  }

  lemma {:induction false} BisectIsClose(a: real, b: real, x: real, left: real, right: real, done: nat)
    requires 0.0 <= left < right <= 1.0 && F(a, b, left) <= x <= F(a, b, right)
    requires (right - left) * Pow2(done) == 1.0 && done < Limit(a, b)
    ensures var at := Bisect(a, b, x, left, right, Limit(a, b) - done);
            left < at < right && Abs(x - F(a, b, at)) < TOLERANCE
    decreases Limit(a, b) - done
  {
    hide F, Pow2, Enough, Slope, Limit;
    var mid := (left + right) / 2.0;
    Halve(left, right, done);
    if done + 1 == Limit(a, b) {
      LimitIsEnough(a, b);
      MiddleIsClose(a, b, left, right, x, done + 1);
    } else if Abs(x - F(a, b, mid)) < TOLERANCE {
    } else if F(a, b, mid) < x {
      BisectIsClose(a, b, x, mid, right, done + 1);
    } else {
      BisectIsClose(a, b, x, left, mid, done + 1);
    }
  }

  /** The height is that of a point of the curve whose horizontal distance from x is below the tolerance. */
  lemma HeightIsOnCurve(a1: real, b1: real, a2: real, b2: real, x: real) returns (at: real)
    requires 0.0 <= x <= 1.0
    ensures 0.0 < at < 1.0 && Abs(x - F(a1, a2, at)) < 0.00001
    ensures Height(a1, b1, a2, b2, x) == if a1 == b1 && a2 == b2 then x else F(b1, b2, at)
  {
    hide F, Enough, Slope, Limit;
    EndPoints(a1, a2);
    PowZero();
    BisectIsClose(a1, a2, x, 0.0, 1.0, 0);
    at := Bisect(a1, a2, x, 0.0, 1.0, Limit(a1, a2));
  }

  /** The bisection always ends, and within 19 turns when the x-control points lie in [0, 1]. */
  method BinarySearchCubic(a1: real, b1: real, a2: real, b2: real, x: real) returns (y: real, ghost turns: nat)
    requires 0.0 <= x <= 1.0
    ensures y == Height(a1, b1, a2, b2, x)
    ensures 0.0 <= a1 <= 1.0 && 0.0 <= a2 <= 1.0 ==> turns <= 19
  {
    hide F, Pow2, Enough, Slope, Limit;
    turns := 0;
    if a1 == b1 && a2 == b2 {
      return x, turns;
    }
    var left, right := 0.0, 1.0;
    assert (right - left) * Pow2(turns) == 1.0 by { assert Pow2(0) == 1.0 by { PowZero(); } }
    EndPoints(a1, a2);
    ghost var limit := Limit(a1, a2);
    ghost var unit := 0.0 <= a1 <= 1.0 && 0.0 <= a2 <= 1.0;
    LimitIsEnough(a1, a2);
    if unit { NineteenIsEnough(a1, a2); }
    while left < right
      invariant 0.0 <= left < right <= 1.0
      invariant F(a1, a2, left) <= x <= F(a1, a2, right)
      invariant (right - left) * Pow2(turns) == 1.0
      invariant turns < limit && (unit ==> turns < 19)
      invariant Bisect(a1, a2, x, 0.0, 1.0, limit) == Bisect(a1, a2, x, left, right, limit - turns)
      decreases limit - turns
    {
      var mid := (left + right) / 2.0;
      var estimate := F(a1, a2, mid);
      Halve(left, right, turns);
      if turns + 1 == limit {
        MiddleIsClose(a1, a2, left, right, x, limit);
      }
      if unit && turns + 1 == 19 {
        MiddleIsClose(a1, a2, left, right, x, 19);
      }
      turns := turns + 1;
      if Abs(x - estimate) < TOLERANCE {
        return F(b1, b2, mid), turns;
      }
      if estimate < x {
        left := mid;
      } else {
        right := mid;
      }
    }
    assert false;
    y := 0.0;
  }
}
