/** A spatial easing curve, approximated by a polyline and looked up by the distance travelled along it. */
module ArcLength {
  import opened Wrappers

  function Cubic(a: real, b: real, c: real, d: real, t: real): real {
    if t <= 0.0 then a
    else if t >= 1.0 then d
    else
      var nt := 1.0 - t;
      nt * (a * nt * nt + 3.0 * t * (b * nt + c * t)) + d * t * t * t
  }

  /** The polynomial that Cubic rearranges. */
  lemma CubicIsBernstein(a: real, b: real, c: real, d: real, t: real)
    requires 0.0 <= t <= 1.0
    ensures var n := 1.0 - t;
            Cubic(a, b, c, d, t) == a * n * n * n + 3.0 * b * n * n * t + 3.0 * c * n * t * t + d * t * t * t
  {
  }

  /** The four control points of the curve: the tangents are relative to the end points. */
  datatype Control = Control(start: seq<real>, tout: seq<real>, tin: seq<real>, end: seq<real>)

  ghost predicate HasDof(c: Control, dof: nat) {
    |c.start| >= dof && |c.tout| >= dof && |c.tin| >= dof && |c.end| >= dof
  }

  function Coordinate(c: Control, j: nat, t: real): real
    requires j < |c.start| && j < |c.tout| && j < |c.tin| && j < |c.end|
  {
    Cubic(c.start[j], c.start[j] + c.tout[j], c.end[j] + c.tin[j], c.end[j], t)
  }

  /** A coordinate of the curve with these end points, and with tangents relative to them, in Bernstein form. */
  lemma CoordinateIsBernstein(c: Control, j: nat, t: real)
    requires j < |c.start| && j < |c.tout| && j < |c.tin| && j < |c.end| && 0.0 <= t <= 1.0
    ensures var p0, p1, p2, p3 := c.start[j], c.start[j] + c.tout[j], c.end[j] + c.tin[j], c.end[j];
            var n := 1.0 - t;
            Coordinate(c, j, t) == p0 * n * n * n + 3.0 * p1 * n * n * t + 3.0 * p2 * n * t * t + p3 * t * t * t
  {
    hide Cubic;
    var p0, p1, p2, p3 := c.start[j], c.start[j] + c.tout[j], c.end[j] + c.tin[j], c.end[j];
    assert Coordinate(c, j, t) == Cubic(p0, p1, p2, p3, t);
    CubicIsBernstein(p0, p1, p2, p3, t);
  }

  /**
   * `dof` coordinates for each point of the polyline, and the length of the polyline up to each point but the first.
   */
  datatype Table = Table(dof: nat, data: seq<real>, cumulative: seq<real>)

  /** The place of coordinate j of point i. */
  function Slot(i: nat, j: nat, dof: nat): nat {
    i * dof + j
  }

  lemma SlotIsInside(i: nat, j: nat, n: nat, dof: nat)
    requires i < n && j < dof
    ensures Slot(i, j, dof) < n * dof
    ensures Slot(i + 1, j, dof) == Slot(i, j, dof) + dof
  {
    assert (i + 1) * dof <= n * dof;
  }

  ghost predicate Stored(t: Table) {
    && t.dof >= 1 && |t.cumulative| >= 1
    && |t.data| == (|t.cumulative| + 1) * t.dof
    && t.cumulative[0] >= 0.0
    && forall i, j :: 0 <= i <= j < |t.cumulative| ==> t.cumulative[i] <= t.cumulative[j]
  }

  function Total(t: Table): real
    requires |t.cumulative| >= 1
  {
    t.cumulative[|t.cumulative| - 1]
  }

  /** The length of the polyline before segment k. */
  function Before(t: Table, k: nat): real
    requires k <= |t.cumulative|
  {
    if k == 0 then 0.0 else t.cumulative[k - 1]
  }

  /** Coordinate c of point i. */
  function At(t: Table, i: nat, c: nat): real
    requires |t.data| == (|t.cumulative| + 1) * t.dof && i <= |t.cumulative| && c < t.dof
  {
    SlotIsInside(i, c, |t.cumulative| + 1, t.dof);
    t.data[Slot(i, c, t.dof)]
  }

  // ----- building the table -----

  ghost predicate SquareRoot(root: real -> real) {
    forall x :: x >= 0.0 ==> root(x) >= 0.0 && root(x) * root(x) == x
  }

  function Square(x: real): (r: real)
    ensures r >= 0.0
  {
    if x < 0.0 then assert x * x == (-x) * (-x); x * x else x * x
  }

  predicate HasPoints(data: seq<real>, n: nat, dof: nat) {
    |data| == n * dof
  }

  /** The squared distance between points i and i + 1, over the first j coordinates. */
  function SumSquares(data: seq<real>, dof: nat, n: nat, i: nat, j: nat): (r: real)
    requires HasPoints(data, n, dof) && i + 1 < n && j <= dof
    ensures r >= 0.0
  {
    if j == 0 then 0.0
    else
      SlotIsInside(i, j - 1, n, dof);
      SlotIsInside(i + 1, j - 1, n, dof);
      SumSquares(data, dof, n, i, j - 1) + Square(data[Slot(i + 1, j - 1, dof)] - data[Slot(i, j - 1, dof)])
  }

  /** The distance between points i and i + 1. */
  function Distance(data: seq<real>, dof: nat, n: nat, i: nat, root: real -> real): real
    requires HasPoints(data, n, dof) && i + 1 < n
  {
    root(SumSquares(data, dof, n, i, dof))
  }

  /** The first n points are samples of the curve, at equal steps of its parameter. */
  ghost predicate Sampled(data: seq<real>, c: Control, dof: nat, divisions: nat, n: nat)
    requires divisions >= 2 && HasDof(c, dof)
  {
    && HasPoints(data, n, dof)
    && forall i: nat, j: nat {:trigger Slot(i, j, dof)} :: i < n && j < dof ==>
         Slot(i, j, dof) < |data| && data[Slot(i, j, dof)] == Coordinate(c, j, i as real / (divisions - 1) as real)
  }

  /** The length of the polyline from the first point to point i. */
  function Length(data: seq<real>, dof: nat, n: nat, i: nat, root: real -> real): real
    requires HasPoints(data, n, dof) && i < n
  {
    if i == 0 then 0.0 else Length(data, dof, n, i - 1, root) + Distance(data, dof, n, i - 1, root)
  }

  ghost predicate Measured(data: seq<real>, cumulative: seq<real>, dof: nat, n: nat, root: real -> real)
    requires HasPoints(data, n, dof) && |cumulative| < n
  {
    forall k: nat :: k < |cumulative| ==> cumulative[k] == Length(data, dof, n, k + 1, root)
  }

  /** One point of the polyline. */
  method SamplePoint(c: Control, dof: nat, t: real) returns (point: seq<real>)
    requires HasDof(c, dof)
    ensures |point| == dof && forall j :: 0 <= j < dof ==> point[j] == Coordinate(c, j, t)
  {
    point := [];
    for j := 0 to dof
      invariant |point| == j && forall m :: 0 <= m < j ==> point[m] == Coordinate(c, m, t)
    {
      point := point + [Coordinate(c, j, t)];
    }
  }

  lemma OneMoreSample(data: seq<real>, point: seq<real>, c: Control, dof: nat, divisions: nat, n: nat)
    requires divisions >= 2 && HasDof(c, dof) && Sampled(data, c, dof, divisions, n)
    requires |point| == dof
    requires forall j :: 0 <= j < dof ==> point[j] == Coordinate(c, j, n as real / (divisions - 1) as real)
    ensures Sampled(data + point, c, dof, divisions, n + 1)
  {
  }

  method SamplePoints(c: Control, dof: nat, divisions: nat) returns (data: seq<real>)
    requires dof >= 1 && divisions >= 2 && HasDof(c, dof)
    ensures Sampled(data, c, dof, divisions, divisions)
  {
    data := [];
    for i := 0 to divisions
      invariant Sampled(data, c, dof, divisions, i)
    {
      var point := SamplePoint(c, dof, i as real / (divisions - 1) as real);
      OneMoreSample(data, point, c, dof, divisions, i);
      data := data + point;
    }
  }

  method SegmentLength(data: seq<real>, dof: nat, n: nat, i: nat, root: real -> real) returns (length: real)
    requires HasPoints(data, n, dof) && i + 1 < n
    ensures length == Distance(data, dof, n, i, root)
  {
    var sumSquares := 0.0;
    for j := 0 to dof
      invariant sumSquares == SumSquares(data, dof, n, i, j)
    {
      SlotIsInside(i, j, n, dof);
      SlotIsInside(i + 1, j, n, dof);
      var delta := data[i * dof + j + dof] - data[i * dof + j];
      sumSquares := sumSquares + Square(delta);
    }
    length := root(sumSquares);
  }

  lemma {:induction false} LengthGrows(data: seq<real>, dof: nat, n: nat, i: nat, j: nat, root: real -> real)
    requires HasPoints(data, n, dof) && i <= j < n && SquareRoot(root)
    ensures 0.0 <= Length(data, dof, n, i, root) <= Length(data, dof, n, j, root)
    decreases j
  {
    if j > 0 {
      LengthGrows(data, dof, n, if i < j then i else j - 1, j - 1, root);
      assert Distance(data, dof, n, j - 1, root) >= 0.0;
    }
  }

  method Accumulate(data: seq<real>, dof: nat, n: nat, root: real -> real) returns (cumulative: seq<real>)
    requires HasPoints(data, n, dof) && n >= 1
    ensures |cumulative| == n - 1 && Measured(data, cumulative, dof, n, root)
  {
    hide HasPoints;
    cumulative := [];
    var cumulativeLength := 0.0;
    for i := 0 to n - 1
      invariant |cumulative| == i
      invariant cumulativeLength == Length(data, dof, n, i, root)
      invariant Measured(data, cumulative, dof, n, root)
    {
      var length := SegmentLength(data, dof, n, i, root);
      cumulativeLength := cumulativeLength + length;
      cumulative := cumulative + [cumulativeLength];
    }
  }

  /** EasingApproximation::getOrCreate, without its cache. */
  method Create(dof: nat, c: Control, divisions: nat, root: real -> real) returns (t: Table)
    requires dof >= 1 && divisions >= 2 && HasDof(c, dof) && SquareRoot(root)
    ensures t.dof == dof && |t.cumulative| == divisions - 1 && Stored(t)
    ensures Sampled(t.data, c, dof, divisions, divisions)
    ensures Measured(t.data, t.cumulative, dof, divisions, root)
  {
    var data := SamplePoints(c, dof, divisions);
    var cumulative := Accumulate(data, dof, divisions, root);
    forall k, m | 0 <= k <= m < |cumulative| ensures 0.0 <= cumulative[k] <= cumulative[m] {
      LengthGrows(data, dof, divisions, k + 1, m + 1, root);
    }
    t := Table(dof, data, cumulative);
  }

  // ----- what the lengths are -----

  /** How far a segment of the polyline goes in each coordinate. */
  function Differences(t: Table, k: nat): (r: seq<real>)
    requires |t.data| == (|t.cumulative| + 1) * t.dof && k < |t.cumulative|
    ensures |r| == t.dof
  {
    seq(t.dof, j requires 0 <= j < t.dof => At(t, k + 1, j) - At(t, k, j))
  }

  function SumOfSquares(s: seq<real>): real {
    if s == [] then 0.0 else SumOfSquares(s[..|s| - 1]) + s[|s| - 1] * s[|s| - 1]
  }

  lemma {:induction false} SumSquaresIs(t: Table, k: nat, j: nat)
    requires |t.data| == (|t.cumulative| + 1) * t.dof && k < |t.cumulative| && j <= t.dof
    ensures HasPoints(t.data, |t.cumulative| + 1, t.dof)
    ensures SumSquares(t.data, t.dof, |t.cumulative| + 1, k, j) == SumOfSquares(Differences(t, k)[..j])
  {
    hide Slot, Square;
    if j > 0 {
      SumSquaresIs(t, k, j - 1);
      SlotIsInside(k, j - 1, |t.cumulative| + 1, t.dof);
      SlotIsInside(k + 1, j - 1, |t.cumulative| + 1, t.dof);
      var d := Differences(t, k);
      assert d[..j][..j - 1] == d[..j - 1];
      SquareIs(d[j - 1]);
    }
  }

  lemma SquareIs(x: real)
    ensures Square(x) == x * x
  {
  }

  /** The length of each segment is that of the line between its points: its square is the sum of those squares. */
  lemma LengthIsEuclidean(t: Table, root: real -> real, k: nat)
    requires |t.data| == (|t.cumulative| + 1) * t.dof && k < |t.cumulative| && SquareRoot(root)
    requires Measured(t.data, t.cumulative, t.dof, |t.cumulative| + 1, root)
    ensures var length := t.cumulative[k] - Before(t, k);
            length >= 0.0 && length * length == SumOfSquares(Differences(t, k))
  {
    hide SumSquares, SumOfSquares;
    var n := |t.cumulative| + 1;
    SumSquaresIs(t, k, t.dof);
    assert Differences(t, k)[..t.dof] == Differences(t, k);
    var length := Distance(t.data, t.dof, n, k, root);
    assert Length(t.data, t.dof, n, 0, root) == 0.0;
    assert Before(t, k) == Length(t.data, t.dof, n, k, root);
    assert t.cumulative[k] - Before(t, k) == length;
  }

  // ----- looking up a position -----

  /** std::lower_bound: the first entry that is not less than x. */
  function LowerBound(s: seq<real>, x: real): (i: nat)
    ensures i <= |s|
    ensures forall k :: 0 <= k < i ==> s[k] < x
    ensures i < |s| ==> s[i] >= x
  {
    if s == [] || s[0] >= x then 0 else 1 + LowerBound(s[1..], x)
  }

  function Fraction(start: real, target: real, stop: real): (f: real)
    requires start != stop
  {
    (target - start) / (stop - start)
  }

  function Interpolate(start: real, end: real, fraction: real): real {
    start + (end - start) * fraction
  }

  function TargetLength(percentage: real, total: real): real {
    percentage * total
  }

  /** None stands for a value that is not a number. */
  function GetPosition(t: Table, percentage: real, coordinate: nat): Option<real>
    requires Stored(t) && coordinate < t.dof
  {
    if percentage <= 0.0 then Some(At(t, 0, coordinate))
    else if percentage >= 1.0 then Some(At(t, |t.cumulative|, coordinate))
    else
      var targetLength := TargetLength(percentage, Total(t));
      var k := LowerBound(t.cumulative, targetLength);
      if k == |t.cumulative| then Some(At(t, |t.cumulative|, coordinate))
      else
        var startLength := Before(t, k);
        if t.cumulative[k] == startLength then None
        else
          var fraction := Fraction(startLength, targetLength, t.cumulative[k]);
          Some(Interpolate(At(t, k, coordinate), At(t, k + 1, coordinate), fraction))
  }

  lemma FractionIsInside(start: real, target: real, stop: real)
    requires start < target <= stop
    ensures 0.0 < Fraction(start, target, stop) <= 1.0
    ensures Interpolate(start, stop, Fraction(start, target, stop)) == target
  {
    var d := stop - start;
    assert (target - start) / d * d == target - start;
  }

  lemma ShareIsInside(p: real, total: real)
    requires 0.0 < p < 1.0 && total > 0.0
    ensures 0.0 < p * total < total
  {
  }

  lemma TargetIsInside(p: real, total: real)
    requires 0.0 < p < 1.0 && total > 0.0
    ensures 0.0 < TargetLength(p, total) < total
  {
    ShareIsInside(p, total);
    var x := p * total;
    assert x < total;
    assert x == TargetLength(p, total);
  }

  lemma SegmentOf(t: Table, target: real)
    requires Stored(t) && 0.0 < target < Total(t)
    ensures var k := LowerBound(t.cumulative, target);
            k < |t.cumulative| && Before(t, k) < target <= t.cumulative[k]
  {
  }

  lemma InterpolateIs(start: real, end: real, fraction: real)
    ensures Interpolate(start, end, fraction) == start + (end - start) * fraction
  {
  }

  lemma TargetIs(p: real, total: real)
    ensures TargetLength(p, total) == p * total
  {
  }

  lemma PositionIsInSegment(t: Table, p: real) returns (k: nat, fraction: real)
    requires Stored(t) && Total(t) > 0.0 && 0.0 < p < 1.0
    ensures k < |t.cumulative| && 0.0 < fraction <= 1.0
    ensures Interpolate(Before(t, k), t.cumulative[k], fraction) == TargetLength(p, Total(t))
    ensures forall c: nat :: c < t.dof ==>
              GetPosition(t, p, c) == Some(Interpolate(At(t, k, c), At(t, k + 1, c), fraction))
  {
    hide At, Interpolate, Fraction, LowerBound, TargetLength;
    var target := TargetLength(p, Total(t));
    TargetIsInside(p, Total(t));
    SegmentOf(t, target);
    k := LowerBound(t.cumulative, target);
    FractionIsInside(Before(t, k), target, t.cumulative[k]);
    fraction := Fraction(Before(t, k), target, t.cumulative[k]);
  }

  /** On the line from one value to another, x is at this fraction of the way. */
  ghost predicate Between(start: real, end: real, fraction: real, x: real) {
    x - start == (end - start) * fraction
  }

  lemma InterpolateIsBetween(start: real, end: real, fraction: real)
    ensures Between(start, end, fraction, Interpolate(start, end, fraction))
  {
  }

  /**
   * On a polyline of positive length, the point at a fraction p of the way lies on one of its segments,
   * in all its coordinates at once, where the length travelled is p times the total.
   */
  lemma PositionIsOnPolyline(t: Table, p: real) returns (k: nat, fraction: real, length: real)
    requires Stored(t) && Total(t) > 0.0 && 0.0 < p < 1.0
    ensures length == p * Total(t)
    ensures k < |t.cumulative| && 0.0 < fraction <= 1.0
    ensures Between(Before(t, k), t.cumulative[k], fraction, length)
    ensures forall c: nat :: c < t.dof ==>
              GetPosition(t, p, c).Some? && Between(At(t, k, c), At(t, k + 1, c), fraction, GetPosition(t, p, c).value)
  {
    hide At, Interpolate, Between, GetPosition;
    k, fraction := PositionIsInSegment(t, p);
    length := TargetLength(p, Total(t));
    InterpolateIsBetween(Before(t, k), t.cumulative[k], fraction);
    forall c: nat | c < t.dof
      ensures Between(At(t, k, c), At(t, k + 1, c), fraction, Interpolate(At(t, k, c), At(t, k + 1, c), fraction))
    {
      InterpolateIsBetween(At(t, k, c), At(t, k + 1, c), fraction);
    }
  }

  /** From the ends on, it is the first point and the last one. */
  lemma PositionAtEnds(t: Table, p: real, c: nat)
    requires Stored(t) && c < t.dof && |t.data| >= t.dof
    ensures p <= 0.0 ==> GetPosition(t, p, c) == Some(t.data[c])
    ensures p >= 1.0 ==> GetPosition(t, p, c) == Some(t.data[|t.data| - t.dof + c])
  {
  }

  /** The look-up divides by zero exactly on a polyline without length, strictly between its ends. */
  lemma NotANumberIff(t: Table, p: real, c: nat)
    requires Stored(t) && c < t.dof
    ensures GetPosition(t, p, c).None? <==> 0.0 < p < 1.0 && Total(t) == 0.0
  {
  }

  // ----- curves without length -----

  /** All four control points are the same point. */
  ghost predicate Still(c: Control, dof: nat)
    requires HasDof(c, dof)
  {
    forall j :: 0 <= j < dof ==> c.start[j] == c.end[j] && c.tout[j] == 0.0 && c.tin[j] == 0.0
  }

  lemma ProductIsZero(x: real, y: real)
    requires x * y == 0.0
    ensures x == 0.0 || y == 0.0
  {
  }

  lemma SquareIsZero(x: real, y: real)
    requires y == x * x
    ensures y == 0.0 <==> x == 0.0
  {
    if y == 0.0 { ProductIsZero(x, x); }
  }

  lemma RootOfZero(root: real -> real, x: real)
    requires SquareRoot(root) && x >= 0.0
    ensures root(x) == 0.0 <==> x == 0.0
  {
    var r := root(x);
    SquareIsZero(r, x);
  }

  lemma SquareOfZero(x: real)
    ensures Square(x) == 0.0 <==> x == 0.0
  {
    var y := x * x;
    SquareIsZero(x, y);
    assert Square(x) == y;
  }

  /** Points i and i + 1 agree in the first j coordinates. */
  ghost predicate SamePoint(data: seq<real>, dof: nat, n: nat, i: nat, j: nat)
    requires HasPoints(data, n, dof) && i + 1 < n && j <= dof
  {
    forall m: nat {:trigger Slot(i, m, dof)} :: m < j ==>
      Slot(i, m, dof) < |data| && Slot(i + 1, m, dof) < |data| && data[Slot(i + 1, m, dof)] == data[Slot(i, m, dof)]
  }

  lemma {:induction false} SumIsZeroIff(data: seq<real>, dof: nat, n: nat, i: nat, j: nat)
    requires HasPoints(data, n, dof) && i + 1 < n && j <= dof
    ensures SumSquares(data, dof, n, i, j) == 0.0 <==> SamePoint(data, dof, n, i, j)
  {
    hide Square, Slot;
    if j > 0 {
      SumIsZeroIff(data, dof, n, i, j - 1);
      SlotIsInside(i, j - 1, n, dof);
      SlotIsInside(i + 1, j - 1, n, dof);
      SquareOfZero(data[Slot(i + 1, j - 1, dof)] - data[Slot(i, j - 1, dof)]);
    }
  }

  lemma {:induction false} LengthIsZeroIff(data: seq<real>, dof: nat, n: nat, i: nat, root: real -> real)
    requires HasPoints(data, n, dof) && i < n && SquareRoot(root)
    ensures Length(data, dof, n, i, root) == 0.0 <==> forall k :: 0 <= k < i ==> SamePoint(data, dof, n, k, dof)
  {
    hide SamePoint, SumSquares;
    if i > 0 {
      LengthIsZeroIff(data, dof, n, i - 1, root);
      LengthGrows(data, dof, n, i - 1, i - 1, root);
      SumIsZeroIff(data, dof, n, i - 1, dof);
      RootOfZero(root, SumSquares(data, dof, n, i - 1, dof));
    }
  }

  lemma {:induction false} AllSamePoint(data: seq<real>, dof: nat, n: nat, i: nat, j: nat)
    requires HasPoints(data, n, dof) && i < n && j < dof
    requires forall k :: 0 <= k < i ==> SamePoint(data, dof, n, k, dof)
    ensures Slot(i, j, dof) < |data| && Slot(0, j, dof) < |data| && data[Slot(i, j, dof)] == data[Slot(0, j, dof)]
  {
    hide Slot;
    SlotIsInside(i, j, n, dof);
    SlotIsInside(0, j, n, dof);
    if i > 0 {
      AllSamePoint(data, dof, n, i - 1, j);
      assert SamePoint(data, dof, n, i - 1, dof);
    }
  }

  lemma StillCubic(a: real, t: real)
    ensures Cubic(a, a, a, a, t) == a
  {
  }

  /** The table of a curve that is sampled at 51 points has no length exactly when the curve stays at one point. */
  lemma TotalIsZeroIff(t: Table, c: Control, root: real -> real)
    requires Stored(t) && |t.cumulative| == 50 && HasDof(c, t.dof) && SquareRoot(root)
    requires Sampled(t.data, c, t.dof, 51, 51) && Measured(t.data, t.cumulative, t.dof, 51, root)
    ensures Total(t) == 0.0 <==> Still(c, t.dof)
  {
    hide Coordinate, Slot, SamePoint, Length;
    LengthIsZeroIff(t.data, t.dof, 51, 50, root);
    if Total(t) == 0.0 {
      forall j: nat | j < t.dof ensures c.start[j] == c.end[j] && c.tout[j] == 0.0 && c.tin[j] == 0.0 {
        AllSamePoint(t.data, t.dof, 51, 10, j);
        AllSamePoint(t.data, t.dof, 51, 25, j);
        AllSamePoint(t.data, t.dof, 51, 50, j);
        SampledStandsStill(c, j);
      }
    }
    if Still(c, t.dof) {
      forall k: nat | k < 50 ensures SamePoint(t.data, t.dof, 51, k, t.dof) {
        StillSamples(t, c, k);
      }
    }
  }

  lemma SampledStandsStill(c: Control, j: nat)
    requires j < |c.start| && j < |c.tout| && j < |c.tin| && j < |c.end|
    requires var x := Coordinate(c, j, 0.0);
             && Coordinate(c, j, 10 as real / 50 as real) == x && Coordinate(c, j, 25 as real / 50 as real) == x
             && Coordinate(c, j, 50 as real / 50 as real) == x
    ensures c.start[j] == c.end[j] && c.tout[j] == 0.0 && c.tin[j] == 0.0
  {
  }

  lemma StillSamples(t: Table, c: Control, k: nat)
    requires k < 50 && HasDof(c, t.dof) && Still(c, t.dof) && Sampled(t.data, c, t.dof, 51, 51)
    ensures SamePoint(t.data, t.dof, 51, k, t.dof)
  {
    hide Slot;
    forall m: nat | m < t.dof
      ensures Slot(k, m, t.dof) < |t.data| && Slot(k + 1, m, t.dof) < |t.data|
      ensures t.data[Slot(k + 1, m, t.dof)] == t.data[Slot(k, m, t.dof)]
    {
      StillCubic(c.start[m], k as real / 50.0);
      StillCubic(c.start[m], (k + 1) as real / 50.0);
    }
  }
}
