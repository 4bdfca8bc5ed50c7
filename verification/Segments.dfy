/** Easing curves: a list of segments whose parameters lie in one flat list of numbers. */
module Segments {
  import opened Wrappers
  import Bezier
  import ArcLength

  datatype Kind = End | Linear | Curve | SEnd | SCurve
  datatype Segment = Segment(kind: Kind, offset: nat)
  datatype Path = Path(segments: seq<Segment>, points: seq<real>)

  /** A cast to int: the part before the point. */
  function Truncate(x: real): (n: int)
    ensures if x >= 0.0 then n as real <= x < (n + 1) as real else (n - 1) as real < x <= n as real
  {
    if x >= 0.0 then x.Floor else -((-x).Floor)
  }

  function Dof(p: Path): nat
    requires |p.points| >= 1
  {
    var n := Truncate(p.points[0]);
    if n < 0 then -n else n
  }

  function Index(p: Path): int
    requires |p.points| >= 2
  {
    Truncate(p.points[1])
  }

  /** How many numbers a segment has, if a point of a spatial one has `dof` coordinates. */
  function Size(kind: Kind, dof: nat): nat {
    match kind
    case End | Linear => 2
    case Curve => 6
    case SEnd => 1 + dof
    case SCurve => 5 + 3 * dof
  }

  /** How many numbers a segment occupies. */
  function Stride(p: Path, kind: Kind): nat
    requires |p.points| >= 1
  {
    Size(kind, Dof(p))
  }

  predicate Spatial(k: Kind) {
    k.SEnd? || k.SCurve?
  }

  predicate Terminal(k: Kind) {
    k.End? || k.SEnd?
  }

  /** Each segment ends where the next one starts; only the last has no extent. */
  ghost predicate Fits(p: Path, i: nat)
    requires i < |p.segments| && |p.points| >= 4
  {
    var s := p.segments[i];
    && s.offset + Stride(p, s.kind) <= |p.points|
    && (Terminal(s.kind) <==> i + 1 == |p.segments|)
    && (Spatial(s.kind) <==> Spatial(p.segments[0].kind))
    && (Spatial(s.kind) ==> 0 <= Index(p) < Dof(p))
    && (i + 1 < |p.segments| ==> p.segments[i + 1].offset == s.offset + Stride(p, s.kind))
  }

  ghost predicate Tiled(p: Path) {
    |p.segments| > 1 && |p.points| >= 4 && forall i :: 0 <= i < |p.segments| ==> Fits(p, i)
  }

  function StartTime(p: Path, i: nat): real
    requires Tiled(p) && i < |p.segments|
  {
    assert Fits(p, i);
    p.points[p.segments[i].offset]
  }

  ghost predicate LaidOut(p: Path) {
    Tiled(p) && forall i, j :: 0 <= i < j < |p.segments| ==> StartTime(p, i) < StartTime(p, j)
  }

  function StartValue(p: Path, i: nat): real
    requires Tiled(p) && i < |p.segments|
  {
    assert Fits(p, i);
    var s := p.segments[i];
    if Spatial(s.kind) then p.points[s.offset + 1 + Index(p)] else p.points[s.offset + 1]
  }

  /** The time at which segment i ends: read from the numbers that follow those of the segment. */
  function EndTime(p: Path, i: nat): real
    requires Tiled(p) && i + 1 < |p.segments|
  {
    assert Fits(p, i) && Fits(p, i + 1);
    var s := p.segments[i];
    match s.kind
    case Linear => p.points[s.offset + 2]
    case Curve => p.points[s.offset + 6]
    case SCurve => p.points[s.offset + 5 + 3 * Dof(p)]
    case End | SEnd => assert false; 0.0
  }

  function EndValue(p: Path, i: nat): real
    requires Tiled(p) && i + 1 < |p.segments|
  {
    assert Fits(p, i) && Fits(p, i + 1);
    var s := p.segments[i];
    match s.kind
    case Linear => p.points[s.offset + 3]
    case Curve => p.points[s.offset + 7]
    case SCurve => p.points[s.offset + 6 + 3 * Dof(p) + Index(p)]
    case End | SEnd => assert false; 0.0
  }

  lemma EndsAtNextStart(p: Path, i: nat)
    requires Tiled(p) && i + 1 < |p.segments|
    ensures EndTime(p, i) == StartTime(p, i + 1) && EndValue(p, i) == StartValue(p, i + 1)
  {
    assert Fits(p, i) && Fits(p, i + 1);
  }

  // ----- finding the segment of a time -----

  /** A linear scan for the last segment, from i on, that starts at or before t. */
  function Scan(p: Path, t: real, i: nat): (k: nat)
    requires LaidOut(p) && i < |p.segments|
    ensures i <= k < |p.segments|
    decreases |p.segments| - i
  {
    if i + 1 < |p.segments| && StartTime(p, i + 1) <= t then Scan(p, t, i + 1) else i
  }

  /** The scan stops at the one segment whose times surround t. */
  lemma ScanIsUnique(p: Path, t: real, i: nat, k: nat)
    requires LaidOut(p) && i <= k < |p.segments|
    requires StartTime(p, k) <= t
    requires k + 1 < |p.segments| ==> t < StartTime(p, k + 1)
    ensures Scan(p, t, i) == k
    decreases k - i
  {
    if i < k {
      ScanIsUnique(p, t, i + 1, k);
    }
  }

  lemma ScanSurrounds(p: Path, t: real, i: nat)
    requires LaidOut(p) && i < |p.segments| && StartTime(p, i) <= t
    ensures var k := Scan(p, t, i);
            && StartTime(p, k) <= t
            && (k + 1 < |p.segments| ==> t < StartTime(p, k + 1))
    decreases |p.segments| - i
  {
    if i + 1 < |p.segments| && StartTime(p, i + 1) <= t {
      ScanSurrounds(p, t, i + 1);
    }
  }

  /** The binary search of calcInternal finds what the linear scan finds. */
  method FindSegment(p: Path, t: real) returns (it: nat)
    requires LaidOut(p)
    requires StartTime(p, 0) <= t
    ensures it == Scan(p, t, 0)
  {
    it := 0;
    var len := |p.segments|;
    while len > 1
      invariant 1 <= len && it + len <= |p.segments|
      invariant StartTime(p, it) <= t
      invariant it + len < |p.segments| ==> t < StartTime(p, it + len)
      decreases len
    {
      var step := len / 2;
      var mid := it + step;
      if t < StartTime(p, mid) {
        len := step;
      } else {
        it := mid;
        len := len - step;
      }
    }
    ScanIsUnique(p, t, 0, it);
  }

  // ----- the value at a time -----

  const EASING_POINTS := 51

  /** The curve that a spatial segment follows: its far end is read from the numbers of the next segment. */
  function Control(p: Path, i: nat): (c: ArcLength.Control)
    requires Tiled(p) && i + 1 < |p.segments| && p.segments[i].kind.SCurve?
    ensures ArcLength.HasDof(c, Dof(p))
  {
    assert Fits(p, i) && Fits(p, i + 1);
    var at, dof := p.segments[i].offset, Dof(p);
    ArcLength.Control(p.points[at + 1..at + 1 + dof], p.points[at + 1 + dof..at + 1 + 2 * dof],
                      p.points[at + 1 + 2 * dof..at + 1 + 3 * dof], p.points[at + 6 + 3 * dof..at + 6 + 4 * dof])
  }

  /** Where its coordinates are. */
  lemma ControlAt(p: Path, i: nat, j: nat)
    requires Tiled(p) && i + 1 < |p.segments| && p.segments[i].kind.SCurve? && j < Dof(p)
    ensures var c, at, next, dof := Control(p, i), p.segments[i].offset, p.segments[i + 1].offset, Dof(p);
            && at + 3 * dof + j < |p.points| && next + 1 + j < |p.points|
            && c.start[j] == p.points[at + 1 + j] && c.tout[j] == p.points[at + 1 + dof + j]
            && c.tin[j] == p.points[at + 1 + 2 * dof + j] && c.end[j] == p.points[next + 1 + j]
  {
    hide Dof, Index;
    assert Fits(p, i) && Fits(p, i + 1);
  }

  /** Every spatial segment has a polyline of its own shape. */
  ghost predicate HasTables(p: Path, tables: seq<ArcLength.Table>) {
    Tiled(p) && |tables| == |p.segments| &&
    forall i :: 0 <= i < |tables| && p.segments[i].kind.SCurve? ==>
        ArcLength.Stored(tables[i]) && tables[i].dof == Dof(p)
  }

  /** The polyline is the one that samples the curve of segment i. */
  ghost predicate Approximates(p: Path, i: nat, t: ArcLength.Table, root: real -> real)
    requires Tiled(p) && i < |p.segments| && p.segments[i].kind.SCurve?
  {
    assert Fits(p, i);
    && t.dof == Dof(p) && ArcLength.Stored(t) && |t.cumulative| == EASING_POINTS - 1
    && ArcLength.Sampled(t.data, Control(p, i), t.dof, EASING_POINTS, EASING_POINTS)
    && ArcLength.Measured(t.data, t.cumulative, t.dof, EASING_POINTS, root)
  }

  /** CoreEasing::ensureApproximation, for every segment. */
  method EnsureApproximations(p: Path, root: real -> real) returns (tables: seq<ArcLength.Table>)
    requires Tiled(p) && ArcLength.SquareRoot(root)
    ensures HasTables(p, tables)
    ensures forall i :: 0 <= i < |tables| && p.segments[i].kind.SCurve? ==> Approximates(p, i, tables[i], root)
  {
    hide Approximates;
    tables := [];
    for i := 0 to |p.segments|
      invariant |tables| == i
      invariant forall k :: 0 <= k < i && p.segments[k].kind.SCurve? ==>
                  Approximates(p, k, tables[k], root)
    {
      assert Fits(p, i);
      if p.segments[i].kind.SCurve? {
        var t := Approximate(p, i, root);
        tables := tables + [t];
      } else {
        tables := tables + [ArcLength.Table(1, [], [])];
      }
    }
    ApproximationsAreTables(p, tables, root);
  }

  lemma ApproximationsAreTables(p: Path, tables: seq<ArcLength.Table>, root: real -> real)
    requires Tiled(p) && |tables| == |p.segments|
    requires forall i :: 0 <= i < |tables| && p.segments[i].kind.SCurve? ==> Approximates(p, i, tables[i], root)
    ensures HasTables(p, tables)
  {
  }

  method Approximate(p: Path, i: nat, root: real -> real) returns (t: ArcLength.Table)
    requires Tiled(p) && i + 1 < |p.segments| && p.segments[i].kind.SCurve? && ArcLength.SquareRoot(root)
    ensures Approximates(p, i, t, root)
  {
    assert Fits(p, i);
    t := ArcLength.Create(Dof(p), Control(p, i), EASING_POINTS, root);
  }

  ghost predicate InSegment(p: Path, k: nat, t: real)
    requires Tiled(p)
  {
    k < |p.segments| && StartTime(p, k) <= t && (k + 1 < |p.segments| ==> t < StartTime(p, k + 1))
  }

  lemma QuotientIsBelowOne(x: real, y: real)
    requires 0.0 <= x < y
    ensures 0.0 <= x / y < 1.0 && (x / y) * y == x
  {
  }

  /** How far t is through segment k. */
  function LocalTime(p: Path, k: nat, t: real): (dt: real)
    requires LaidOut(p) && k + 1 < |p.segments| && InSegment(p, k, t)
    ensures 0.0 <= dt < 1.0
    ensures dt * (EndTime(p, k) - StartTime(p, k)) == t - StartTime(p, k)
    ensures StartTime(p, k) < EndTime(p, k)
  {
    EndsAtNextStart(p, k);
    QuotientIsBelowOne(t - StartTime(p, k), EndTime(p, k) - StartTime(p, k));
    (t - StartTime(p, k)) / (EndTime(p, k) - StartTime(p, k))
  }

  function Timing(p: Path, at: nat, t: real): real
    requires at + 4 <= |p.points|
  {
    Bezier.Height(p.points[at], p.points[at + 1], p.points[at + 2], p.points[at + 3], t)
  }

  function Line(v1: real, v2: real, t1: real, t2: real, t: real): real
    requires t1 < t2
  {
    v1 + (v2 - v1) * (t - t1) / (t2 - t1)
  }

  function Ease(v1: real, v2: real, y: real): real {
    v1 + (v2 - v1) * y
  }

  lemma EaseIsProportional(v1: real, v2: real, y: real)
    ensures Ease(v1, v2, y) - v1 == (v2 - v1) * y
  {
  }

  lemma LineIsProportional(v1: real, v2: real, t1: real, t2: real, t: real)
    requires t1 < t2
    ensures (Line(v1, v2, t1, t2, t) - v1) * (t2 - t1) == (v2 - v1) * (t - t1)
    ensures Line(v1, v2, t1, t2, t1) == v1
  {
  }

  function ValueIn(p: Path, tables: seq<ArcLength.Table>, k: nat, t: real): Option<real>
    requires LaidOut(p) && HasTables(p, tables) && InSegment(p, k, t)
  {
    assert Fits(p, k);
    var s := p.segments[k];
    match s.kind
    case End | SEnd => Some(StartValue(p, k))
    case Linear =>
      var v1, v2 := StartValue(p, k), EndValue(p, k);
      EndsAtNextStart(p, k);
      Some(Line(v1, v2, StartTime(p, k), EndTime(p, k), t))
    case Curve =>
      var v1, v2 := StartValue(p, k), EndValue(p, k);
      Some(Ease(v1, v2, Timing(p, s.offset + 2, LocalTime(p, k, t))))
    case SCurve =>
      var percentage := Timing(p, s.offset + 1 + 3 * Dof(p), LocalTime(p, k, t));
      ArcLength.GetPosition(tables[k], percentage, Index(p))
  }

  function Value(p: Path, tables: seq<ArcLength.Table>, t: real): Option<real>
    requires LaidOut(p) && HasTables(p, tables)
  {
    if t <= StartTime(p, 0) then Some(StartValue(p, 0))
    else
      ScanSurrounds(p, t, 0);
      ValueIn(p, tables, Scan(p, t, 0), t)
  }

  method Solve(p: Path, at: nat, x: real) returns (y: real)
    requires at + 4 <= |p.points| && 0.0 <= x <= 1.0
    ensures y == Timing(p, at, x)
  {
    ghost var turns;
    y, turns := Bezier.BinarySearchCubic(p.points[at], p.points[at + 1], p.points[at + 2], p.points[at + 3], x);
  }

  /** The second switch of CoreEasing::calcInternal. */
  method CalcIn(p: Path, tables: seq<ArcLength.Table>, it: nat, t: real) returns (value: Option<real>)
    requires LaidOut(p) && HasTables(p, tables) && InSegment(p, it, t)
    ensures value == ValueIn(p, tables, it, t)
  {
    hide Line, Timing, Ease;
    assert Fits(p, it);
    var s := p.segments[it];
    if it + 1 == |p.segments| {
      return Some(StartValue(p, it));
    }
    EndsAtNextStart(p, it);
    var t1, v1, t2, v2 := StartTime(p, it), StartValue(p, it), EndTime(p, it), EndValue(p, it);
    if s.kind.Linear? {
      return Some(Line(v1, v2, t1, t2, t));
    }
    var dt := LocalTime(p, it, t);
    if s.kind.Curve? {
      var y := Solve(p, s.offset + 2, dt);
      return Some(Ease(v1, v2, y));
    }
    var percentage := Solve(p, s.offset + 1 + 3 * Dof(p), dt);
    value := ArcLength.GetPosition(tables[it], percentage, Index(p));
  }

  /**
   * CoreEasing::calcInternal.  The first switch falls through: for a curve that is not spatial it tests the time twice.
   */
  method CalcInternal(p: Path, tables: seq<ArcLength.Table>, t: real) returns (value: Option<real>)
    requires LaidOut(p) && HasTables(p, tables)
    ensures value == Value(p, tables, t)
  {
    if !Spatial(p.segments[0].kind) {
      if t <= StartTime(p, 0) {
        return Some(StartValue(p, 0));
      }
    }
    if t <= StartTime(p, 0) {
      return Some(StartValue(p, 0));
    }
    var it := FindSegment(p, t);
    ScanSurrounds(p, t, 0);
    value := CalcIn(p, tables, it, t);
  }

  /**
   * Before its first point a curve stays at the value of that point, and from its last point on at the value of
   * that one.
   */
  lemma StaysOutside(p: Path, tables: seq<ArcLength.Table>, t: real)
    requires LaidOut(p) && HasTables(p, tables)
    ensures t <= StartTime(p, 0) ==> Value(p, tables, t) == Some(StartValue(p, 0))
    ensures var last := |p.segments| - 1;
            t >= StartTime(p, last) ==> Value(p, tables, t) == Some(StartValue(p, last))
  {
    var last := |p.segments| - 1;
    assert StartTime(p, 0) < StartTime(p, last);
    assert Fits(p, last);
    if t >= StartTime(p, last) {
      ScanIsUnique(p, t, 0, last);
    }
  }

  /** A curve takes the value of each point at which a straight segment or the end starts. */
  lemma PassesThroughPoints(p: Path, tables: seq<ArcLength.Table>, k: nat)
    requires LaidOut(p) && HasTables(p, tables) && k < |p.segments|
    requires k == 0 || p.segments[k].kind.Linear? || Terminal(p.segments[k].kind)
    ensures Value(p, tables, StartTime(p, k)) == Some(StartValue(p, k))
  {
    hide Line, Timing, Ease;
    var t := StartTime(p, k);
    assert Fits(p, k);
    if k > 0 {
      assert StartTime(p, 0) < t;
      ScanIsUnique(p, t, 0, k);
      if k + 1 < |p.segments| {
        EndsAtNextStart(p, k);
        LineIsProportional(StartValue(p, k), EndValue(p, k), t, EndTime(p, k), t);
      }
    }
  }

  /** A curve from (0, 0) to (1, 1). */
  ghost predicate UnitCurve(p: Path) {
    && LaidOut(p) && StartTime(p, 0) == 0.0 && StartValue(p, 0) == 0.0
    && StartTime(p, |p.segments| - 1) == 1.0 && StartValue(p, |p.segments| - 1) == 1.0
  }

  /** Such a curve has these values exactly, whatever lies between. */
  lemma UnitCurveEnds(p: Path, tables: seq<ArcLength.Table>)
    requires UnitCurve(p) && HasTables(p, tables)
    ensures Value(p, tables, 0.0) == Some(0.0) && Value(p, tables, 1.0) == Some(1.0)
  {
    StaysOutside(p, tables, 0.0);
    StaysOutside(p, tables, 1.0);
  }

  /** On a straight segment the value is between those of the two ends, in proportion to the time. */
  lemma StraightInBetween(p: Path, tables: seq<ArcLength.Table>, k: nat, t: real)
    requires LaidOut(p) && HasTables(p, tables) && k + 1 < |p.segments| && p.segments[k].kind.Linear?
    requires StartTime(p, k) < t < StartTime(p, k + 1)
    ensures Value(p, tables, t).Some?
    ensures (Value(p, tables, t).value - StartValue(p, k)) * (StartTime(p, k + 1) - StartTime(p, k))
            == (StartValue(p, k + 1) - StartValue(p, k)) * (t - StartTime(p, k))
  {
    assert k > 0 ==> StartTime(p, 0) < StartTime(p, k);
    ScanIsUnique(p, t, 0, k);
    EndsAtNextStart(p, k);
    LineIsProportional(StartValue(p, k), StartValue(p, k + 1), StartTime(p, k), StartTime(p, k + 1), t);
  }

  /**
   * On a curve the value lies between those of the two ends as the height of its Bezier curve says, at a point of that
   * curve close to the local time.
   */
  lemma CurveInBetween(p: Path, tables: seq<ArcLength.Table>, k: nat, t: real) returns (at: real)
    requires LaidOut(p) && HasTables(p, tables) && k + 1 < |p.segments| && p.segments[k].kind.Curve?
    requires StartTime(p, k) < t < StartTime(p, k + 1)
    ensures Fits(p, k) && 0.0 < at < 1.0 && Value(p, tables, t).Some?
    ensures var c := p.segments[k].offset + 2;
            var y := if p.points[c] == p.points[c + 1] && p.points[c + 2] == p.points[c + 3] then LocalTime(p, k, t)
                     else Bezier.F(p.points[c + 1], p.points[c + 3], at);
            && Value(p, tables, t).value - StartValue(p, k) == (StartValue(p, k + 1) - StartValue(p, k)) * y
            && Bezier.Abs(LocalTime(p, k, t) - Bezier.F(p.points[c], p.points[c + 2], at)) < 0.00001
  {
    hide Line, Ease, Bezier.F, Bezier.Bisect;
    assert Fits(p, k);
    assert k > 0 ==> StartTime(p, 0) < StartTime(p, k);
    ScanIsUnique(p, t, 0, k);
    EndsAtNextStart(p, k);
    var c := p.segments[k].offset + 2;
    at := Bezier.HeightIsOnCurve(p.points[c], p.points[c + 1], p.points[c + 2], p.points[c + 3], LocalTime(p, k, t));
    EaseIsProportional(StartValue(p, k), StartValue(p, k + 1), Timing(p, c, LocalTime(p, k, t)));
  }

  // ----- spatial segments -----

  /** The percentage of its curve that a spatial segment has travelled at a time. */
  function Percentage(p: Path, k: nat, t: real): real
    requires LaidOut(p) && k + 1 < |p.segments| && p.segments[k].kind.SCurve? && InSegment(p, k, t)
  {
    assert Fits(p, k);
    Timing(p, p.segments[k].offset + 1 + 3 * Dof(p), LocalTime(p, k, t))
  }

  ghost predicate Approximated(p: Path, tables: seq<ArcLength.Table>, root: real -> real) {
    && HasTables(p, tables) && ArcLength.SquareRoot(root)
    && forall i :: 0 <= i < |tables| && p.segments[i].kind.SCurve? ==> Approximates(p, i, tables[i], root)
  }

  lemma ValueOfSpatial(p: Path, tables: seq<ArcLength.Table>, k: nat, t: real)
    requires LaidOut(p) && HasTables(p, tables) && k + 1 < |p.segments| && p.segments[k].kind.SCurve?
    requires InSegment(p, k, t) && StartTime(p, 0) < t
    ensures 0 <= Index(p) < Dof(p) == tables[k].dof && ArcLength.Stored(tables[k])
    ensures Value(p, tables, t) == ArcLength.GetPosition(tables[k], Percentage(p, k, t), Index(p))
  {
    hide Timing, Line, Ease, ArcLength.GetPosition;
    assert Fits(p, k);
    ScanIsUnique(p, t, 0, k);
  }

  /** The points of the table are samples of the segment's curve. */
  lemma TableIsSampled(p: Path, tables: seq<ArcLength.Table>, root: real -> real, k: nat, i: nat, j: nat)
    requires Approximated(p, tables, root) && k + 1 < |p.segments| && p.segments[k].kind.SCurve?
    requires i < EASING_POINTS && j < Dof(p)
    ensures ArcLength.Stored(tables[k]) && |tables[k].cumulative| == EASING_POINTS - 1 && tables[k].dof == Dof(p)
    ensures ArcLength.At(tables[k], i, j)
              == ArcLength.Coordinate(Control(p, k), j, i as real / 50.0)
  {
  }

  /** The polyline of a segment whose curve does not stay at one point has a length. */
  lemma MovingHasLength(p: Path, tables: seq<ArcLength.Table>, root: real -> real, k: nat)
    requires Approximated(p, tables, root) && k + 1 < |p.segments| && p.segments[k].kind.SCurve?
    requires !ArcLength.Still(Control(p, k), Dof(p))
    ensures ArcLength.Stored(tables[k]) && ArcLength.Total(tables[k]) > 0.0
  {
    assert Approximates(p, k, tables[k], root);
    ArcLength.TotalIsZeroIff(tables[k], Control(p, k), root);
  }

  /** The percentage is the height of a point of the segment's timing curve, close to the local time. */
  lemma PercentageIsOnCurve(p: Path, k: nat, t: real) returns (at: real)
    requires LaidOut(p) && k + 1 < |p.segments| && p.segments[k].kind.SCurve? && InSegment(p, k, t)
    ensures Fits(p, k) && 0.0 < at < 1.0
    ensures var c := p.segments[k].offset + 1 + 3 * Dof(p);
            && Bezier.Abs(LocalTime(p, k, t) - Bezier.F(p.points[c], p.points[c + 2], at)) < 0.00001
            && Percentage(p, k, t) ==
               if p.points[c] == p.points[c + 1] && p.points[c + 2] == p.points[c + 3] then LocalTime(p, k, t)
               else Bezier.F(p.points[c + 1], p.points[c + 3], at)
  {
    hide Bezier.F, Bezier.Height;
    assert Fits(p, k);
    var c := p.segments[k].offset + 1 + 3 * Dof(p);
    at := Bezier.HeightIsOnCurve(p.points[c], p.points[c + 1], p.points[c + 2], p.points[c + 3], LocalTime(p, k, t));
  }

  /**
   * On a spatial segment whose curve does not stay at one point, the value is the selected coordinate of a point of the
   * polyline through 51 samples of that curve.  The length travelled there is the percentage times the total.
   */
  lemma SpatialInBetween(p: Path, tables: seq<ArcLength.Table>, root: real -> real, k: nat, t: real)
    returns (i: nat, fraction: real, length: real)
    requires LaidOut(p) && Approximated(p, tables, root) && k + 1 < |p.segments| && p.segments[k].kind.SCurve?
    requires InSegment(p, k, t) && StartTime(p, 0) < t
    requires 0.0 < Percentage(p, k, t) < 1.0 && !ArcLength.Still(Control(p, k), Dof(p))
    ensures ArcLength.Stored(tables[k])
    ensures i < |tables[k].cumulative| == EASING_POINTS - 1 && 0.0 < fraction <= 1.0 && 0 <= Index(p) < Dof(p)
    ensures Value(p, tables, t).Some?
    ensures var c := Control(p, k);
            ArcLength.Between(ArcLength.Coordinate(c, Index(p), i as real / 50.0),
                              ArcLength.Coordinate(c, Index(p), (i + 1) as real / 50.0),
                              fraction, Value(p, tables, t).value)
    ensures ArcLength.Between(ArcLength.Before(tables[k], i), tables[k].cumulative[i], fraction, length)
    ensures length == Percentage(p, k, t) * ArcLength.Total(tables[k])
  {
    hide ArcLength.GetPosition, ArcLength.At, ArcLength.Between, ArcLength.Coordinate, Percentage;
    hide Value, ArcLength.Before, ArcLength.Stored, Approximates, ArcLength.Still, ArcLength.HasDof;
    ValueOfSpatial(p, tables, k, t);
    MovingHasLength(p, tables, root, k);
    i, fraction, length := ArcLength.PositionIsOnPolyline(tables[k], Percentage(p, k, t));
    TableIsSampled(p, tables, root, k, 0, Index(p));
    TableIsSampled(p, tables, root, k, i, Index(p));
    TableIsSampled(p, tables, root, k, i + 1, Index(p));
  }

  lemma CoordinateAtEnds(c: ArcLength.Control, j: nat)
    requires ArcLength.HasDof(c, j + 1)
    ensures ArcLength.Coordinate(c, j, 0.0) == c.start[j] && ArcLength.Coordinate(c, j, 1.0) == c.end[j]
  {
  }

  /** The first and the last sample of the polyline. */
  lemma TableEnds(p: Path, tables: seq<ArcLength.Table>, root: real -> real, k: nat, j: nat)
    requires Approximated(p, tables, root) && k + 1 < |p.segments| && p.segments[k].kind.SCurve? && j < Dof(p)
    ensures ArcLength.Stored(tables[k]) && tables[k].dof == Dof(p)
    ensures |tables[k].data| >= tables[k].dof && |Control(p, k).start| > j && |Control(p, k).end| > j
    ensures tables[k].data[j] == Control(p, k).start[j]
    ensures tables[k].data[|tables[k].data| - tables[k].dof + j] == Control(p, k).end[j]
  {
    hide ArcLength.Coordinate, Approximates;
    TableIsSampled(p, tables, root, k, 0, j);
    TableIsSampled(p, tables, root, k, 50, j);
    CoordinateAtEnds(Control(p, k), j);
    assert 50 as real / 50.0 == 1.0;
  }

  /** Where the timing of a spatial segment is at or beyond an end, the value is that of this end. */
  lemma SpatialAtEnds(p: Path, tables: seq<ArcLength.Table>, root: real -> real, k: nat, t: real)
    requires LaidOut(p) && Approximated(p, tables, root) && k + 1 < |p.segments| && p.segments[k].kind.SCurve?
    requires InSegment(p, k, t) && StartTime(p, 0) < t
    ensures Percentage(p, k, t) <= 0.0 ==> Value(p, tables, t) == Some(StartValue(p, k))
    ensures Percentage(p, k, t) >= 1.0 ==> Value(p, tables, t) == Some(StartValue(p, k + 1))
  {
    hide Value, Percentage, ArcLength.GetPosition, Approximates, ArcLength.Stored;
    assert Fits(p, k) && Fits(p, k + 1);
    ValueOfSpatial(p, tables, k, t);
    TableEnds(p, tables, root, k, Index(p));
    ArcLength.PositionAtEnds(tables[k], Percentage(p, k, t), Index(p));
  }

  /**
   * When the value of a curve is not a number: exactly strictly inside a spatial segment whose curve stays at one
   * point, at a time that its timing curve maps strictly between 0 and 1.
   */
  lemma ValueIsNotANumberIff(p: Path, tables: seq<ArcLength.Table>, root: real -> real, t: real)
    requires LaidOut(p) && Approximated(p, tables, root)
    ensures Value(p, tables, t).None? <==>
            && StartTime(p, 0) < t
            && var k := Scan(p, t, 0);
               && k + 1 < |p.segments| && p.segments[k].kind.SCurve? && InSegment(p, k, t)
               && 0.0 < Percentage(p, k, t) < 1.0 && ArcLength.Still(Control(p, k), Dof(p))
  {
    hide Line, Ease, Timing, ArcLength.GetPosition;
    if StartTime(p, 0) < t {
      ScanSurrounds(p, t, 0);
      var k := Scan(p, t, 0);
      assert Fits(p, k);
      if p.segments[k].kind.SCurve? {
        assert Approximates(p, k, tables[k], root);
        ValueOfSpatial(p, tables, k, t);
        ArcLength.NotANumberIff(tables[k], Percentage(p, k, t), Index(p));
        ArcLength.TotalIsZeroIff(tables[k], Control(p, k), root);
      }
    }
  }

  /** "spatial(2,0) scurve(0,5,7,0,0,0,0,0,0,1,1) send(1,5,7)": a curve in the plane that stays at (5, 7). */
  function StandingStill(): Path {
    Path([Segment(SCurve, 2), Segment(SEnd, 13)],
         [2.0, 0.0, 0.0, 5.0, 7.0, 0.0, 0.0, 0.0, 0.0, 0.0, 0.0, 1.0, 1.0, 1.0, 5.0, 7.0])
  }

  lemma StandingStillIsLaidOut()
    ensures var p := StandingStill();
            LaidOut(p) && Fits(p, 0) && StartTime(p, 0) == 0.0 && StartTime(p, 1) == 1.0 && Dof(p) == 2 && Index(p) == 0
  {
    var p := StandingStill();
    assert Fits(p, 0) && Fits(p, 1);
  }

  lemma StandingStillStays()
    requires LaidOut(StandingStill()) && InSegment(StandingStill(), 0, 0.5)
    ensures var p := StandingStill();
            && Percentage(p, 0, 0.5) == 0.5 && ArcLength.Still(Control(p, 0), Dof(p))
  {
    var p := StandingStill();
    StandingStillIsLaidOut();
    EndsAtNextStart(p, 0);
    hide Dof, Index, ArcLength.Still, Control;
    StandingStillControl();
    assert LocalTime(p, 0, 0.5) == 0.5;
  }

  lemma StandingStillControl()
    requires Tiled(StandingStill()) && Fits(StandingStill(), 0) && Dof(StandingStill()) == 2
    ensures ArcLength.Still(Control(StandingStill(), 0), 2)
  {
    hide Dof, Index;
    var q, c := StandingStill().points, Control(StandingStill(), 0);
    assert c.start == q[3..5] && c.tout == q[5..7] && c.tin == q[7..9] && c.end == q[14..16];
  }

  /** With the table that is built for it, its value half way is not a number. */
  method StandingStillIsNotANumber(root: real -> real) returns (tables: seq<ArcLength.Table>, value: Option<real>)
    requires ArcLength.SquareRoot(root)
    ensures LaidOut(StandingStill()) && Approximated(StandingStill(), tables, root)
    ensures value == Value(StandingStill(), tables, 0.5) == None
  {
    hide Percentage, ArcLength.Still, Value, Approximates, Control, ArcLength.Stored;
    var p := StandingStill();
    StandingStillIsLaidOut();
    tables := EnsureApproximations(p, root);
    value := CalcInternal(p, tables, 0.5);
    ScanIsUnique(p, 0.5, 0, 0);
    StandingStillStays();
    ValueIsNotANumberIff(p, tables, root, 0.5);
  }

  // ----- the memo of the last value -----

  /** The smallest positive normal 32-bit float, 2 to the power -126. */
  const MAGIC := 1.0 / 85070591730234615865843651857942052864.0

  lemma {:induction false} PowersMultiply(m: nat, n: nat)
    ensures Bezier.Pow2(m + n) == Bezier.Pow2(m) * Bezier.Pow2(n)
  {
    if m > 0 { PowersMultiply(m - 1, n); }
  }

  lemma PowerOfSeven()
    ensures Bezier.Pow2(7) == 128.0
  {
  }

  lemma MagicIsSmallest()
    ensures MAGIC * Bezier.Pow2(126) == 1.0
  {
    hide Bezier.Pow2;
    PowerOfSeven();
    PowersMultiply(7, 7);
    assert Bezier.Pow2(14) == 16384.0;
    PowersMultiply(14, 14);
    assert Bezier.Pow2(28) == 268435456.0;
    PowersMultiply(28, 14);
    assert Bezier.Pow2(42) == 4398046511104.0;
    PowersMultiply(42, 42);
    assert Bezier.Pow2(84) == 19342813113834066795298816.0;
    PowersMultiply(84, 42);
  }

  /** What the last of a series of calls answers. */
  ghost function Answer(p: Path, tables: seq<ArcLength.Table>, calls: seq<real>): Option<real>
    requires LaidOut(p) && HasTables(p, tables) && calls != []
  {
    if forall t :: t in calls ==> t == MAGIC then Some(0.0) else Value(p, tables, calls[|calls| - 1])
  }

  class CoreEasing {
    const path: Path
    const tables: seq<ArcLength.Table>
    var lastTime: real
    var lastValue: Option<real>
    /** The times asked for so far. */
    ghost var calls: seq<real>

    ghost predicate Valid()
      reads this
    {
      && LaidOut(path) && HasTables(path, tables)
      && lastTime == (if calls == [] then MAGIC else calls[|calls| - 1])
      && lastValue == (if calls == [] then Some(0.0) else Answer(path, tables, calls))
    }

    constructor (p: Path, approximations: seq<ArcLength.Table>)
      requires LaidOut(p) && HasTables(p, approximations)
      ensures Valid() && path == p && tables == approximations && calls == []
    {
      path := p;
      tables := approximations;
      lastTime := MAGIC;
      lastValue := Some(0.0);
      calls := [];
    }

    method Calc(t: real) returns (value: Option<real>)
      requires Valid()
      modifies this
      ensures Valid() && calls == old(calls) + [t]
      ensures value == Answer(path, tables, calls)
    {
      ghost var last, before := |calls| - 1, calls;
      calls := calls + [t];
      if t == lastTime {
        assert last >= 0 ==> before[last] == t && forall x :: x in calls <==> x in before;
        return lastValue;
      }
      lastTime := t;
      lastValue := CalcInternal(path, tables, t);
      assert if t == MAGIC then before[last] in before && before[last] in calls else t in calls;
      value := lastValue;
    }
  }

  /** The memo answers wrongly exactly when only its initial time has been asked for and the curve is not 0 there. */
  lemma MemoIsWrongIff(p: Path, tables: seq<ArcLength.Table>, calls: seq<real>)
    requires LaidOut(p) && HasTables(p, tables) && calls != []
    ensures Answer(p, tables, calls) != Value(p, tables, calls[|calls| - 1]) <==>
            (forall t :: t in calls ==> t == MAGIC) && Value(p, tables, MAGIC) != Some(0.0)
  {
    assert calls[|calls| - 1] in calls;
  }

  /** A curve that is 5 throughout answers 0 to a first call at the initial time. */
  lemma MemoCanBeWrong() returns (p: Path, tables: seq<ArcLength.Table>)
    ensures LaidOut(p) && HasTables(p, tables)
    ensures Value(p, tables, MAGIC) == Some(5.0) && Answer(p, tables, [MAGIC]) == Some(0.0)
  {
    p := Path([Segment(Linear, 0), Segment(End, 2)], [0.0, 5.0, 1.0, 5.0]);
    assert Fits(p, 0) && Fits(p, 1);
    tables := seq(2, _ => ArcLength.Table(1, [], []));
    StraightInBetween(p, tables, 0, MAGIC);
  }
}
