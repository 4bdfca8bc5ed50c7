/** How a grid sequence divides its cross axis between the children of one course. */
module Grid {

  datatype Dimension = Absolute(value: real) | Relative(value: real) | Auto

  function Min(x: real, y: real): real {
    if y < x then y else x
  }

  function Max(x: real, y: real): real {
    if x < y then y else x
  }

  function Floor(x: real): real {
    x.Floor as real
  }

  /** std::round: halves go away from zero. */
  function Round(x: real): real {
    if x >= 0.0 then Floor(x + 0.5) else -Floor(-x + 0.5)
  }

  /** The mark of an entry that still has to be sized. */
  const UNSIZED := -1.0

  function Sum(s: seq<real>): real {
    if s == [] then 0.0 else s[0] + Sum(s[1..])
  }

  function Percent(value: real, size: real): real {
    value / 100.0 * size
  }

  // ----- the first pass -----

  function SizeOf(d: Dimension, crossSize: real, crossIsAuto: bool, budget: real): real {
    if d.Absolute? then d.value
    else if crossIsAuto then 0.0
    else if d.Relative? then Min(Floor(Percent(d.value, crossSize)), budget)
    else UNSIZED
  }

  function Spend(budget: real, size: real): real {
    if size >= 0.0 then budget - size else budget
  }

  function Sizes(dims: seq<Dimension>, crossSize: real, crossIsAuto: bool, budget: real): (r: seq<real>)
    ensures |r| == |dims|
  {
    if dims == [] then []
    else
      var size := SizeOf(dims[0], crossSize, crossIsAuto, budget);
      [size] + Sizes(dims[1..], crossSize, crossIsAuto, Spend(budget, size))
  }

  function Left(sizes: seq<real>, budget: real): real {
    if sizes == [] then budget else Left(sizes[1..], Spend(budget, sizes[0]))
  }

  function Counted(d: Dimension, crossIsAuto: bool): nat {
    if d.Auto? && !crossIsAuto then 1 else 0
  }

  function Autos(dims: seq<Dimension>, crossIsAuto: bool): nat {
    if dims == [] then 0 else Counted(dims[0], crossIsAuto) + Autos(dims[1..], crossIsAuto)
  }

  // ----- filling in -----

  function Share(budget: real, n: nat): real
    requires n > 0
  {
    Max(0.0, Round(budget / n as real))
  }

  /** n shares of a budget, each taken from what the ones before it leave. */
  function Shares(budget: real, n: nat): (r: seq<real>)
    ensures |r| == n
  {
    if n == 0 then [] else [Share(budget, n)] + Shares(budget - Share(budget, n), n - 1)
  }

  /** The first n unsized entries get the shares. */
  function Fill(sizes: seq<real>, budget: real, n: nat): (r: seq<real>)
    ensures |r| == |sizes|
  {
    if sizes == [] then []
    else if sizes[0] == UNSIZED && n > 0 then
      [Share(budget, n)] + Fill(sizes[1..], budget - Share(budget, n), n - 1)
    else [sizes[0]] + Fill(sizes[1..], budget, n)
  }

  // ----- fair division -----

  /** q is the whole part of the average of b over n entries; r is what q for each entry leaves. */
  predicate Average(b: real, n: nat, q: int, r: real) {
    q >= 0 && b == (q * n) as real + r && 0.0 <= r < n as real
  }

  /** Multiplying by m keeps the order; the products are named. */
  lemma ScaledTo(x: real, y: real, m: real, a: real, b: real)
    requires m > 0.0 && x * m == a && y * m == b
    ensures x < y <==> a < b
  {
  }

  lemma ShareOfAverage(b: real, n: nat, q: int, r: real)
    requires n > 0 && Average(b, n, q, r)
    ensures b / n as real == q as real + r / n as real
    ensures 0.0 <= r / n as real < 1.0
    ensures r / n as real < 0.5 <==> 2.0 * r < n as real
  {
    var m, x := n as real, r / n as real;
    assert x * m == r;
    ScaledTo(x, 0.0, m, r, 0.0);
    ScaledTo(x, 0.5, m, r, 0.5 * m);
    ScaledTo(x, 1.0, m, r, m);
    assert (q * n) as real == q as real * m;
    assert (q as real + x) * m == b;
  }

  lemma RoundUp(q: int, x: real)
    requires q >= 0 && 0.0 <= x < 1.0
    ensures Max(0.0, Round(q as real + x)) == (if x < 0.5 then q else q + 1) as real
  {
    if x < 0.5 {
      assert (q as real + x + 0.5).Floor == q;
    } else {
      assert (q as real + x + 0.5).Floor == q + 1;
    }
  }

  /** A share is the whole part of the average, or one more when the rest is at least half an entry each. */
  lemma ShareIsNear(b: real, n: nat, q: int, r: real)
    requires n > 0 && Average(b, n, q, r)
    ensures Share(b, n) == (if 2.0 * r < n as real then q else q + 1) as real
    ensures n > 1 ==> Average(b - Share(b, n), n - 1, q, if 2.0 * r < n as real then r else r - 1.0)
  {
    ShareOfAverage(b, n, q, r);
    RoundUp(q, r / n as real);
    assert q * (n - 1) == q * n - q;
  }

  lemma LastShare(b: real, q: int, r: real)
    requires Average(b, 1, q, r)
    ensures b - 0.5 <= Share(b, 1) <= b + 0.5
    ensures Whole(r) ==> Share(b, 1) == b
  {
    ShareIsNear(b, 1, q, r);
  }

  predicate Whole(x: real) {
    x == Floor(x)
  }

  lemma WholeBefore(x: real)
    ensures Whole(x) ==> Whole(x - 1.0)
  {
  }

  /**
   * Every share is the whole part of the average or one more; together they are as close to the budget as
   * whole numbers can be.
   */
  lemma {:induction false} SharesAreFair(b: real, n: nat, q: int, r: real)
    requires n > 0 && Average(b, n, q, r)
    ensures forall i :: 0 <= i < n ==> Shares(b, n)[i] == q as real || Shares(b, n)[i] == (q + 1) as real
    ensures b - 0.5 <= Sum(Shares(b, n)) <= b + 0.5
    ensures Whole(r) ==> Sum(Shares(b, n)) == b
    decreases n
  {
    hide Share, Average, Whole;
    ShareIsNear(b, n, q, r);
    var s := Share(b, n);
    assert Shares(b, n)[1..] == Shares(b - s, n - 1);
    if n == 1 {
      LastShare(b, q, r);
      assert Shares(b - s, 0) == [];
    } else {
      assert Whole(r) ==> Whole(r - 1.0) by { WholeBefore(r); }
      SharesAreFair(b - s, n - 1, q, if 2.0 * r < n as real then r else r - 1.0);
    }
  }

  /** Such an average exists for every budget that is not negative. */
  lemma AverageOf(b: real, n: nat) returns (q: int, r: real)
    requires n > 0 && b >= 0.0
    ensures Average(b, n, q, r) && q == (b / n as real).Floor
    ensures Whole(b) ==> Whole(r)
  {
    var m := n as real;
    var x := b / m;
    q := x.Floor;
    r := (x - q as real) * m;
    assert x * m == b;
    var y := x - q as real;
    ScaledTo(y, 1.0, m, r, m);
    ScaledTo(y, 0.0, m, r, 0.0);
    assert (q * n) as real == q as real * m;
    if Whole(b) {
      assert r == (b.Floor - q * n) as real;
    }
  }

  /** Entries without a budget get nothing. */
  lemma {:induction false} SharesOfNothing(b: real, n: nat)
    requires b <= 0.0
    ensures forall i :: 0 <= i < n ==> Shares(b, n)[i] == 0.0
  {
    if n > 0 {
      assert b / n as real <= 0.0;
      assert Share(b, n) == 0.0;
      SharesOfNothing(b, n - 1);
    }
  }

  // ----- the whole allocation -----

  function Repeat(x: real, n: nat): (r: seq<real>)
    ensures |r| == n && forall i :: 0 <= i < n ==> r[i] == x
  {
    if n == 0 then [] else [x] + Repeat(x, n - 1)
  }

  function Copies(budget: real, size: real): nat
    requires size > 0.0 && budget >= 0.0
  {
    assert budget / size >= 0.0;
    (budget / size).Floor
  }

  /** A single entry with a size of its own is repeated to fill the course; otherwise the autos are filled in. */
  function Adjusted(dims: seq<Dimension>, crossSize: real, crossIsAuto: bool): seq<real>
    requires dims != []
  {
    var sizes := Sizes(dims, crossSize, crossIsAuto, crossSize);
    var budget := Left(sizes, crossSize);
    if |dims| == 1 && !dims[0].Auto? && sizes[0] > 0.0 && budget >= 0.0 then
      sizes + Repeat(sizes[0], Copies(budget, sizes[0]))
    else
      Fill(sizes, budget, Autos(dims, crossIsAuto))
  }

  function TransSize(d: Dimension, transSize: real): real {
    match d
    case Absolute(value) => value
    case Relative(value) => Percent(value, transSize)
    case Auto => transSize
  }

  lemma SizesStep(dims: seq<Dimension>, i: nat, crossSize: real, crossIsAuto: bool, budget: real)
    requires i < |dims|
    ensures var size := SizeOf(dims[i], crossSize, crossIsAuto, budget);
            var rest := Sizes(dims[i + 1..], crossSize, crossIsAuto, Spend(budget, size));
            && Sizes(dims[i..], crossSize, crossIsAuto, budget) == [size] + rest
            && Left([size] + rest, budget) == Left(rest, Spend(budget, size))
    ensures Autos(dims[i..], crossIsAuto) == Counted(dims[i], crossIsAuto) + Autos(dims[i + 1..], crossIsAuto)
  {
  }

  lemma FillStep(sizes: seq<real>, i: nat, budget: real, n: nat)
    requires i < |sizes|
    ensures Fill(sizes[i..], budget, n) ==
            if sizes[i] == UNSIZED && n > 0
                then [Share(budget, n)] + Fill(sizes[i + 1..], budget - Share(budget, n), n - 1)
            else [sizes[i]] + Fill(sizes[i + 1..], budget, n)
  {
  }

  /** One turn of the first loop: the size of an entry, and whether it is to be filled in. */
  method EntrySize(d: Dimension, crossSize: real, crossIsAuto: bool, budget: real)
    returns (adjustedSize: real, autos: nat)
    ensures adjustedSize == SizeOf(d, crossSize, crossIsAuto, budget) && autos == Counted(d, crossIsAuto)
  {
    hide Percent, Floor;
    adjustedSize, autos := UNSIZED, 0;
    if d.Absolute? {
      adjustedSize := d.value;
    } else if crossIsAuto {
      adjustedSize := 0.0;
    } else if d.Relative? {
      adjustedSize := Min(Floor(Percent(d.value, crossSize)), budget);
    } else if d.Auto? {
      autos := 1;
    }
  }

  method FirstPass(dims: seq<Dimension>, crossSize: real, crossIsAuto: bool)
    returns (sizes: seq<real>, budget: real, numAutos: nat)
    ensures sizes == Sizes(dims, crossSize, crossIsAuto, crossSize)
    ensures budget == Left(sizes, crossSize) && numAutos == Autos(dims, crossIsAuto)
  {
    hide Sizes, Left, Autos, SizeOf, Counted;
    sizes, budget, numAutos := [], crossSize, 0;
    ghost var all := Sizes(dims, crossSize, crossIsAuto, crossSize);
    assert dims[0..] == dims;
    for i := 0 to |dims|
      invariant all == sizes + Sizes(dims[i..], crossSize, crossIsAuto, budget)
      invariant Left(all, crossSize) == Left(Sizes(dims[i..], crossSize, crossIsAuto, budget), budget)
      invariant Autos(dims, crossIsAuto) == numAutos + Autos(dims[i..], crossIsAuto)
    {
      SizesStep(dims, i, crossSize, crossIsAuto, budget);
      var adjustedSize, autos := EntrySize(dims[i], crossSize, crossIsAuto, budget);
      numAutos := numAutos + autos;
      sizes := sizes + [adjustedSize];
      if adjustedSize >= 0.0 {
        budget := budget - adjustedSize;
      }
    }
    NothingIsLeft(crossSize, crossIsAuto, budget);
  }

  lemma NothingIsLeft(crossSize: real, crossIsAuto: bool, budget: real)
    ensures Sizes([], crossSize, crossIsAuto, budget) == [] && Left([], budget) == budget && Autos([], crossIsAuto) == 0
    ensures Fill([], budget, 0) == []
  {
  }

  lemma ShareIs(budget: real, n: nat)
    requires n > 0
    ensures Share(budget, n) == Max(0.0, Round(budget / n as real))
  {
  }

  method FillInAutos(before: seq<real>, autoSizeBudget: real, autos: nat) returns (sizes: seq<real>)
    ensures sizes == Fill(before, autoSizeBudget, autos)
  {
    hide Share, Fill;
    sizes := before;
    var budget, numAutos := autoSizeBudget, autos;
    for i := 0 to |before|
      invariant |sizes| == |before| && sizes[i..] == before[i..]
      invariant Fill(before, autoSizeBudget, autos) == sizes[..i] + Fill(before[i..], budget, numAutos)
    {
      FillStep(before, i, budget, numAutos);
      assert sizes[i] == sizes[i..][0] == before[i..][0] == before[i];
      if sizes[i] == UNSIZED && numAutos > 0 {
        var sizePerComponent := Share(budget, numAutos);
        sizes := sizes[i := sizePerComponent];
        budget := budget - sizePerComponent;
        numAutos := numAutos - 1;
      }
      assert sizes[..i + 1] == sizes[..i] + [sizes[i]];
    }
    NoneToFill(budget, numAutos);
  }

  lemma NoneToFill(budget: real, n: nat)
    ensures Fill([], budget, n) == []
  {
  }

  method AdjustChildDimensions(trans: Dimension, transSize: real, dims: seq<Dimension>,
                               crossSize: real, crossIsAuto: bool)
    returns (adjustedTrans: real, sizes: seq<real>)
    requires dims != []
    ensures adjustedTrans == TransSize(trans, transSize)
    ensures sizes == Adjusted(dims, crossSize, crossIsAuto)
  {
    if trans.Absolute? {
      adjustedTrans := trans.value;
    } else if trans.Relative? {
      adjustedTrans := Percent(trans.value, transSize);
    } else {
      adjustedTrans := transSize;
    }
    var budget, numAutos;
    sizes, budget, numAutos := FirstPass(dims, crossSize, crossIsAuto);
    if |dims| == 1 && !dims[0].Auto? {
      NothingToFill(sizes, budget);
      var size := sizes[0];
      if size > 0.0 && budget >= 0.0 {
        sizes := sizes + Repeat(size, Copies(budget, size));
      }
    }
    if numAutos > 0 {
      sizes := FillInAutos(sizes, budget, numAutos);
    } else {
      NothingToFill(sizes, budget);
    }
  }

  lemma NothingToFill(sizes: seq<real>, budget: real)
    ensures Fill(sizes, budget, 0) == sizes
  {
  }

  // ----- what the allocation promises -----

  /** The sum of the entries that are not marked. */
  function Sized(sizes: seq<real>): real {
    if sizes == [] then 0.0 else (if sizes[0] == UNSIZED then 0.0 else sizes[0]) + Sized(sizes[1..])
  }

  function Unsized(sizes: seq<real>): nat {
    if sizes == [] then 0 else (if sizes[0] == UNSIZED then 1 else 0) + Unsized(sizes[1..])
  }

  /** When all marked entries are filled, they get the shares, and the others stay. */
  lemma {:induction false} FillAddsShares(sizes: seq<real>, budget: real, n: nat)
    requires Unsized(sizes) == n
    ensures Sum(Fill(sizes, budget, n)) == Sized(sizes) + Sum(Shares(budget, n))
    ensures forall i :: 0 <= i < |sizes| && sizes[i] != UNSIZED ==> Fill(sizes, budget, n)[i] == sizes[i]
    ensures forall i :: 0 <= i < |sizes| && sizes[i] == UNSIZED ==> Fill(sizes, budget, n)[i] in Shares(budget, n)
  {
    hide Share;
    if sizes != [] {
      var all, rest := Fill(sizes, budget, n), sizes[1..];
      if sizes[0] == UNSIZED {
        var s := Share(budget, n);
        FillAddsShares(rest, budget - s, n - 1);
        assert all[1..] == Fill(rest, budget - s, n - 1);
        assert Shares(budget, n)[0] == s && Shares(budget, n)[1..] == Shares(budget - s, n - 1);
        forall i | 0 <= i < |sizes| && sizes[i] == UNSIZED ensures all[i] in Shares(budget, n) {
          if i > 0 { assert rest[i - 1] == sizes[i] && all[i] == all[1..][i - 1]; }
        }
      } else {
        FillAddsShares(rest, budget, n);
        assert all[1..] == Fill(rest, budget, n);
        forall i | 0 <= i < |sizes| && sizes[i] == UNSIZED ensures all[i] in Shares(budget, n) {
          assert rest[i - 1] == sizes[i] && all[i] == all[1..][i - 1];
        }
      }
    }
  }

  /** Entries that are a share of the cross axis, or automatic. */
  predicate Fluid(dims: seq<Dimension>) {
    forall i :: 0 <= i < |dims| ==> !dims[i].Absolute? && (dims[i].Relative? ==> dims[i].value >= 0.0)
  }

  lemma PercentIsPositive(value: real, size: real)
    requires value >= 0.0 && size >= 0.0
    ensures Floor(Percent(value, size)) >= 0.0
  {
  }

  /** Relative sizes alone never exceed the cross size; what they leave is the budget of the autos. */
  lemma {:induction false} RelativesFit(dims: seq<Dimension>, crossSize: real, budget: real)
    requires Fluid(dims) && crossSize >= 0.0 && budget >= 0.0
    ensures var sizes := Sizes(dims, crossSize, false, budget);
            && Left(sizes, budget) >= 0.0 && Sized(sizes) + Left(sizes, budget) == budget
            && Unsized(sizes) == Autos(dims, false)
            && (Whole(budget) ==> Whole(Left(sizes, budget)))
            && forall i :: 0 <= i < |dims| ==> if dims[i].Auto? then sizes[i] == UNSIZED else 0.0 <= sizes[i]
  {
    if dims != [] {
      var size := SizeOf(dims[0], crossSize, false, budget);
      var rest := Sizes(dims[1..], crossSize, false, Spend(budget, size));
      assert ([size] + rest)[1..] == rest;
      if dims[0].Relative? {
        PercentIsPositive(dims[0].value, crossSize);
        assert 0.0 <= size <= budget;
        assert Whole(budget) ==> Whole(budget - size) by { WholeDifference(budget, Percent(dims[0].value, crossSize)); }
      }
      RelativesFit(dims[1..], crossSize, Spend(budget, size));
    }
  }

  lemma WholeDifference(budget: real, x: real)
    ensures Whole(budget) ==> Whole(budget - Min(Floor(x), budget))
  {
    if Whole(budget) {
      assert budget - Floor(x) == (budget.Floor - x.Floor) as real;
    }
  }

  /**
   * A course of relative and automatic entries: every auto gets the whole part of an equal share or one more,
   * the others keep the size they asked for, and together they fill the cross axis to within half a unit,
   * exactly when it is a whole number.
   */
  lemma CourseIsFilled(dims: seq<Dimension>, crossSize: real)
    requires dims != [] && Fluid(dims) && crossSize >= 0.0 && Autos(dims, false) > 0
    ensures var sizes, n := Adjusted(dims, crossSize, false), Autos(dims, false);
            var asked := Sizes(dims, crossSize, false, crossSize);
            var q := (Left(asked, crossSize) / n as real).Floor as real;
            && |sizes| == |dims|
            && (forall i :: 0 <= i < |dims| ==>
                if dims[i].Auto? then sizes[i] == q || sizes[i] == q + 1.0 else sizes[i] == asked[i])
            && crossSize - 0.5 <= Sum(sizes) <= crossSize + 0.5
            && (Whole(crossSize) ==> Sum(sizes) == crossSize)
  {
    hide Sizes, Left, Fill, Shares, Sum, Average, Whole, Share;
    var n := Autos(dims, false);
    var asked := Sizes(dims, crossSize, false, crossSize);
    var budget := Left(asked, crossSize);
    RelativesFit(dims, crossSize, crossSize);
    SomeAuto(dims);
    var q, r := AverageOf(budget, n);
    SharesAreFair(budget, n, q, r);
    FillAddsShares(asked, budget, n);
    var sizes := Fill(asked, budget, n);
    forall i | 0 <= i < |dims| && dims[i].Auto? ensures sizes[i] == q as real || sizes[i] == q as real + 1.0 {
      assert sizes[i] in Shares(budget, n);
    }
  }

  lemma SomeAuto(dims: seq<Dimension>)
    ensures |dims| == 1 && Autos(dims, false) > 0 ==> dims[0].Auto?
  {
    AutoExists(dims);
  }

  /** Once the budget is spent, the autos get nothing. */
  lemma NothingIsLeftForAutos(dims: seq<Dimension>, crossSize: real)
    requires |dims| > 1 && Left(Sizes(dims, crossSize, false, crossSize), crossSize) <= 0.0
    requires Unsized(Sizes(dims, crossSize, false, crossSize)) == Autos(dims, false)
    ensures forall i :: 0 <= i < |dims| && Sizes(dims, crossSize, false, crossSize)[i] == UNSIZED ==>
              Adjusted(dims, crossSize, false)[i] == 0.0
  {
    hide Sizes, Left, Fill, Shares, Share;
    var asked := Sizes(dims, crossSize, false, crossSize);
    SharesOfNothing(Left(asked, crossSize), Autos(dims, false));
    FillAddsShares(asked, Left(asked, crossSize), Autos(dims, false));
  }

  // ----- when the mark is mistaken -----

  /** An entry that asked for a size of its own came out as the mark, before some auto. */
  ghost predicate Clash(dims: seq<Dimension>, sizes: seq<real>)
    requires |sizes| == |dims|
  {
    exists i, j :: 0 <= i < j < |dims| && !dims[i].Auto? && sizes[i] == UNSIZED && dims[j].Auto?
  }

  ghost predicate Keeps(dims: seq<Dimension>, before: seq<real>, after: seq<real>)
    requires |before| == |after| == |dims|
  {
    forall i :: 0 <= i < |dims| ==> if dims[i].Auto? then after[i] >= 0.0 else after[i] == before[i]
  }

  ghost predicate Marks(dims: seq<Dimension>, sizes: seq<real>) {
    |sizes| == |dims| && forall i :: 0 <= i < |dims| && dims[i].Auto? ==> sizes[i] == UNSIZED
  }

  lemma ClashTail(dims: seq<Dimension>, sizes: seq<real>)
    requires dims != [] && |sizes| == |dims|
    ensures Clash(dims, sizes) <==>
            || (!dims[0].Auto? && sizes[0] == UNSIZED && Autos(dims[1..], false) > 0)
            || Clash(dims[1..], sizes[1..])
  {
    AutoExists(dims[1..]);
    if Clash(dims, sizes) {
      var i, j :| 0 <= i < j < |dims| && !dims[i].Auto? && sizes[i] == UNSIZED && dims[j].Auto?;
      assert dims[1..][j - 1].Auto?;
      if i > 0 {
        assert !dims[1..][i - 1].Auto? && sizes[1..][i - 1] == UNSIZED;
      }
    }
    if !dims[0].Auto? && sizes[0] == UNSIZED && Autos(dims[1..], false) > 0 {
      var j :| 0 <= j < |dims[1..]| && dims[1..][j].Auto?;
      assert dims[j + 1].Auto?;
    }
    if Clash(dims[1..], sizes[1..]) {
      var i, j :| 0 <= i < j < |dims[1..]| && !dims[1..][i].Auto? && sizes[1..][i] == UNSIZED && dims[1..][j].Auto?;
      assert dims[i + 1] == dims[1..][i] && sizes[i + 1] == sizes[1..][i] && dims[j + 1] == dims[1..][j];
    }
  }

  lemma {:induction false} AutoExists(dims: seq<Dimension>)
    ensures Autos(dims, false) > 0 <==> exists j :: 0 <= j < |dims| && dims[j].Auto?
  {
    if dims != [] {
      AutoExists(dims[1..]);
      if j :| 0 <= j < |dims[1..]| && dims[1..][j].Auto? {
        assert dims[j + 1].Auto?;
      }
      if j :| 0 < j < |dims| && dims[j].Auto? {
        assert dims[1..][j - 1].Auto?;
      }
    }
  }

  lemma KeepsTail(dims: seq<Dimension>, before: seq<real>, after: seq<real>)
    requires dims != [] && |before| == |after| == |dims|
    ensures Keeps(dims, before, after) <==>
            && (if dims[0].Auto? then after[0] >= 0.0 else after[0] == before[0])
            && Keeps(dims[1..], before[1..], after[1..])
  {
  }

  /** Filling in respects what was asked for exactly when no size came out as the mark before an auto. */
  lemma {:induction false} FillKeepsIff(dims: seq<Dimension>, sizes: seq<real>, budget: real)
    requires Marks(dims, sizes)
    ensures Keeps(dims, sizes, Fill(sizes, budget, Autos(dims, false))) <==> !Clash(dims, sizes)
    decreases |dims|
  {
    hide Share, Keeps, Clash;
    var n := Autos(dims, false);
    var after := Fill(sizes, budget, n);
    if dims == [] {
      EmptyKeeps();
    } else {
      ClashTail(dims, sizes);
      KeepsTail(dims, sizes, after);
      if dims[0].Auto? || !(sizes[0] == UNSIZED && n > 0) {
        var left := if dims[0].Auto? then budget - Share(budget, n) else budget;
        assert Marks(dims[1..], sizes[1..]);
        if dims[0].Auto? { ShareIs(budget, n); }
        FillKeepsIff(dims[1..], sizes[1..], left);
        assert after[1..] == Fill(sizes[1..], left, Autos(dims[1..], false));
      } else {
        ShareIs(budget, n);
        assert after[0] >= 0.0;
      }
    }
  }

  lemma EmptyKeeps()
    ensures Keeps([], [], []) && !Clash([], [])
  {
  }

  // ----- the same, in terms of the entries -----

  /**
   * What is left of the cross axis before entry i: the sizes of the entries before it have been taken off, if not
   * negative.
   */
  function BudgetAt(dims: seq<Dimension>, crossSize: real, i: nat, budget: real): real
    requires i <= |dims|
  {
    if i == 0 then budget
    else BudgetAt(dims[1..], crossSize, i - 1, Spend(budget, SizeOf(dims[0], crossSize, false, budget)))
  }

  lemma {:induction false} SizeAt(dims: seq<Dimension>, crossSize: real, i: nat, budget: real)
    requires i < |dims|
    ensures Sizes(dims, crossSize, false, budget)[i]
              == SizeOf(dims[i], crossSize, false, BudgetAt(dims, crossSize, i, budget))
  {
    hide SizeOf;
    if i > 0 {
      SizeAt(dims[1..], crossSize, i - 1, Spend(budget, SizeOf(dims[0], crossSize, false, budget)));
    }
  }

  /** The sizes of the first n entries together, without those that are negative. */
  function Taken(sizes: seq<real>, n: nat): real
    requires n <= |sizes|
  {
    if n == 0 then 0.0 else Taken(sizes, n - 1) + if sizes[n - 1] >= 0.0 then sizes[n - 1] else 0.0
  }

  lemma {:induction false} TakenOfRest(sizes: seq<real>, n: nat)
    requires sizes != [] && n < |sizes|
    ensures Taken(sizes, n + 1) == (if sizes[0] >= 0.0 then sizes[0] else 0.0) + Taken(sizes[1..], n)
  {
    if n > 0 { TakenOfRest(sizes, n - 1); }
  }

  /** The largest whole number up to that percentage of the cross size, or what is left if that is less. */
  ghost predicate IsPercentage(size: real, percentage: real, crossSize: real, left: real) {
    && size <= left && 100.0 * size <= percentage * crossSize
    && (size == left || (Whole(size) && percentage * crossSize < 100.0 * (size + 1.0)))
  }

  /** What the first pass gives to entry i, in terms of the entry and of what the ones before it have taken. */
  ghost predicate AskedFor(d: Dimension, crossSize: real, crossIsAuto: bool, left: real, size: real) {
    match d
    case Absolute(value) => size == value
    case Relative(value) => if crossIsAuto then size == 0.0 else IsPercentage(size, value, crossSize, left)
    case Auto => size == if crossIsAuto then 0.0 else -1.0
  }

  lemma FloorIsPercentage(value: real, crossSize: real, left: real)
    ensures IsPercentage(Min(Floor(Percent(value, crossSize)), left), value, crossSize, left)
  {
    var x := Percent(value, crossSize);
    assert 100.0 * x == value * crossSize;
    assert Floor(x) <= x < Floor(x) + 1.0;
    assert Whole(Floor(x));
  }

  lemma SizeIsAskedFor(d: Dimension, crossSize: real, crossIsAuto: bool, left: real)
    ensures AskedFor(d, crossSize, crossIsAuto, left, SizeOf(d, crossSize, crossIsAuto, left))
  {
    if d.Relative? { FloorIsPercentage(d.value, crossSize, left); }
  }

  /** The first pass, entry by entry. */
  lemma {:induction false} SizesAreAskedFor(dims: seq<Dimension>, crossSize: real, crossIsAuto: bool, budget: real,
      i: nat)
    requires i < |dims|
    ensures var sizes := Sizes(dims, crossSize, crossIsAuto, budget);
            AskedFor(dims[i], crossSize, crossIsAuto, budget - Taken(sizes, i), sizes[i])
  {
    hide AskedFor, SizeOf;
    var sizes := Sizes(dims, crossSize, crossIsAuto, budget);
    SizeIsAskedFor(dims[0], crossSize, crossIsAuto, budget);
    if i > 0 {
      var left := Spend(budget, sizes[0]);
      SizesAreAskedFor(dims[1..], crossSize, crossIsAuto, left, i - 1);
      TakenOfRest(sizes, i - 1);
      assert sizes[1..] == Sizes(dims[1..], crossSize, crossIsAuto, left);
      assert left - Taken(sizes[1..], i - 1) == budget - Taken(sizes, i);
    }
  }

  lemma {:induction false} LeftIsUntaken(sizes: seq<real>, budget: real)
    ensures Left(sizes, budget) == budget - Taken(sizes, |sizes|)
  {
    if sizes != [] {
      LeftIsUntaken(sizes[1..], Spend(budget, sizes[0]));
      TakenOfRest(sizes, |sizes| - 1);
    }
  }

  /** Along the scrolling direction a percentage is not rounded, and auto takes everything. */
  lemma TransSizeIs(d: Dimension, transSize: real)
    ensures match d
            case Absolute(value) => TransSize(d, transSize) == value
            case Relative(value) => 100.0 * TransSize(d, transSize) == value * transSize
            case Auto => TransSize(d, transSize) == transSize
  {
  }

  /** Entry i asks for a size that is the mark. */
  predicate AsksForMark(dims: seq<Dimension>, crossSize: real, i: nat)
    requires i < |dims|
  {
    match dims[i]
    case Absolute(value) => value == UNSIZED
    case Relative(value) => Min(Floor(Percent(value, crossSize)), BudgetAt(dims, crossSize, i, crossSize)) == UNSIZED
    case Auto => false
  }

  ghost predicate MarkBeforeAuto(dims: seq<Dimension>, crossSize: real) {
    exists i, j :: 0 <= i < j < |dims| && AsksForMark(dims, crossSize, i) && dims[j].Auto?
  }

  lemma ClashIsMarkBeforeAuto(dims: seq<Dimension>, crossSize: real)
    ensures Marks(dims, Sizes(dims, crossSize, false, crossSize))
    ensures Clash(dims, Sizes(dims, crossSize, false, crossSize)) <==> MarkBeforeAuto(dims, crossSize)
  {
    var sizes := Sizes(dims, crossSize, false, crossSize);
    forall i | 0 <= i < |dims|
      ensures dims[i].Auto? ==> sizes[i] == UNSIZED
      ensures !dims[i].Auto? && sizes[i] == UNSIZED <==> AsksForMark(dims, crossSize, i)
    {
      SizeAt(dims, crossSize, i, crossSize);
      MarkOfSize(dims[i], crossSize, BudgetAt(dims, crossSize, i, crossSize));
    }
    if Clash(dims, sizes) {
      var i, j :| 0 <= i < j < |dims| && !dims[i].Auto? && sizes[i] == UNSIZED && dims[j].Auto?;
      assert AsksForMark(dims, crossSize, i);
    }
    if i, j :| 0 <= i < j < |dims| && AsksForMark(dims, crossSize, i) && dims[j].Auto? {
      assert !dims[i].Auto? && sizes[i] == UNSIZED;
    }
  }

  lemma MarkOfSize(d: Dimension, crossSize: real, budget: real)
    ensures SizeOf(d, crossSize, false, budget) ==
            match d
            case Absolute(value) => value
            case Relative(value) => Min(Floor(Percent(value, crossSize)), budget)
            case Auto => UNSIZED
  {
  }

  /**
   * The allocation gives every entry with a size of its own that size, and every auto a size, if and only if no entry
   * before an auto asks for a size of -1.
   */
  lemma AllocationKeepsIff(dims: seq<Dimension>, crossSize: real)
    requires dims != []
    ensures |Adjusted(dims, crossSize, false)| >= |dims|
    ensures Keeps(dims, Sizes(dims, crossSize, false, crossSize), Adjusted(dims, crossSize, false)[..|dims|])
            <==> !MarkBeforeAuto(dims, crossSize)
  {
    hide Sizes, Fill, Left, Keeps, Clash, AsksForMark, Share;
    var sizes := Sizes(dims, crossSize, false, crossSize);
    var budget, n := Left(sizes, crossSize), Autos(dims, false);
    ClashIsMarkBeforeAuto(dims, crossSize);
    FillKeepsIff(dims, sizes, budget);
    if |dims| == 1 && !dims[0].Auto? {
      NoAutos(dims);
      NothingToFill(sizes, budget);
    }
    var all := Adjusted(dims, crossSize, false);
    assert all[..|dims|] == Fill(sizes, budget, n);
  }

  lemma NoAutos(dims: seq<Dimension>)
    requires |dims| == 1 && !dims[0].Auto?
    ensures Autos(dims, false) == 0
  {
  }

  /** Where no entry is negative, only a relative entry that finds the axis overdrawn by exactly 1 asks for the mark. */
  lemma OverdrawnByOne(dims: seq<Dimension>, crossSize: real, i: nat)
    requires i < |dims| && crossSize >= 0.0 && (dims[i].Auto? || dims[i].value >= 0.0)
    ensures AsksForMark(dims, crossSize, i) <==> dims[i].Relative? && BudgetAt(dims, crossSize, i, crossSize) == -1.0
  {
  }

  /** A size that is one more than the cross axis turns a relative size into the mark, and an auto stays negative. */
  lemma MarkCanBeMistaken()
    ensures Adjusted([Absolute(101.0), Relative(50.0), Auto], 100.0, false) == [101.0, 0.0, -1.0]
  {
  }

  // ----- a single entry -----

  lemma QuotientIs(x: real, y: real, q: real)
    requires y > 0.0 && q * y == x
    ensures x / y == q
  {
  }

  /** A single size is repeated as often as it fits. */
  lemma SingleIsRepeated(d: Dimension, crossSize: real, crossIsAuto: bool)
    requires !d.Auto?
    requires var size := SizeOf(d, crossSize, crossIsAuto, crossSize); 0.0 < size <= crossSize
    ensures var size := SizeOf(d, crossSize, crossIsAuto, crossSize);
            && Adjusted([d], crossSize, crossIsAuto) == Repeat(size, (crossSize / size).Floor)
  {
    var size := SizeOf(d, crossSize, crossIsAuto, crossSize);
    var budget := crossSize - size;
    SizesStep([d], 0, crossSize, crossIsAuto, crossSize);
    assert [d][0..] == [d] && [d][1..] == [];
    assert Sizes([d], crossSize, crossIsAuto, crossSize) == [size];
    assert Left([size], crossSize) == budget;
    QuotientIs(crossSize, size, crossSize / size);
    QuotientIs(budget, size, crossSize / size - 1.0);
    assert Copies(budget, size) == (crossSize / size).Floor - 1;
    assert [size] + Repeat(size, Copies(budget, size)) == Repeat(size, Copies(budget, size) + 1);
  }

  /** A single entry with a size of its own that fits into the cross axis. */
  predicate IsRepeated(dims: seq<Dimension>, crossSize: real, crossIsAuto: bool) {
    |dims| == 1 && !dims[0].Auto? && 0.0 < Sizes(dims, crossSize, crossIsAuto, crossSize)[0] <= crossSize
  }

  /** How many children a course has: one for each entry, unless a single one is repeated. */
  lemma LengthOfCourse(dims: seq<Dimension>, crossSize: real, crossIsAuto: bool)
    requires dims != []
    ensures !IsRepeated(dims, crossSize, crossIsAuto) ==> |Adjusted(dims, crossSize, crossIsAuto)| == |dims|
    ensures IsRepeated(dims, crossSize, crossIsAuto) ==>
              var size := Sizes(dims, crossSize, crossIsAuto, crossSize)[0];
              |Adjusted(dims, crossSize, crossIsAuto)| == (crossSize / size).Floor
  {
    if |dims| == 1 {
      var size := SizeOf(dims[0], crossSize, crossIsAuto, crossSize);
      assert dims == [dims[0]] && dims[1..] == [];
      assert Sizes(dims, crossSize, crossIsAuto, crossSize) == [size];
      LeftOfOne(size, crossSize);
      if IsRepeated(dims, crossSize, crossIsAuto) {
        SingleIsRepeated(dims[0], crossSize, crossIsAuto);
      }
    }
  }

  lemma LeftOfOne(size: real, crossSize: real)
    ensures Left([size], crossSize) == if size >= 0.0 then crossSize - size else crossSize
  {
  }

  /** Where the cross size is automatic there are no autos to fill in, and the sizes stay those of the first pass. */
  lemma AutomaticCrossSize(dims: seq<Dimension>, crossSize: real)
    requires dims != [] && !IsRepeated(dims, crossSize, true)
    ensures Adjusted(dims, crossSize, true) == Sizes(dims, crossSize, true, crossSize)
  {
    var sizes := Sizes(dims, crossSize, true, crossSize);
    NoneCounted(dims);
    NothingToFill(sizes, Left(sizes, crossSize));
    if |dims| == 1 {
      assert dims[1..] == [] && sizes == [SizeOf(dims[0], crossSize, true, crossSize)];
      LeftOfOne(sizes[0], crossSize);
    }
  }

  lemma {:induction false} NoneCounted(dims: seq<Dimension>)
    ensures Autos(dims, true) == 0
  {
    if dims != [] { NoneCounted(dims[1..]); }
  }

  // ----- the size of a child -----

  datatype Size = Size(width: real, height: real)

  class GridSequence {
    const horizontal: bool
    var widths: seq<real>
    var heights: seq<real>
    var itemsPerCourse: nat

    /** The sizes across the scrolling direction vary within a course; along it there is one. */
    ghost predicate Valid()
      reads this
    {
      && itemsPerCourse > 0
      && (if horizontal then |widths| == 1 && |heights| == itemsPerCourse
          else |heights| == 1 && |widths| == itemsPerCourse)
    }

    constructor (h: bool)
      ensures horizontal == h
    {
      horizontal := h;
      widths, heights, itemsPerCourse := [], [], 0;
    }

    /** calculateAbsoluteChildSizes and calculateItemsPerCourse. */
    method Calculate(childWidths: seq<Dimension>, gridWidth: real,
                     childHeights: seq<Dimension>, gridHeight: real, crossIsAuto: bool)
      requires childWidths != [] && childHeights != []
      modifies this
      ensures Valid()
      ensures horizontal ==>
                widths == [TransSize(childWidths[0], gridWidth)]
                    && heights == Adjusted(childHeights, gridHeight, crossIsAuto)
      ensures !horizontal ==>
                heights == [TransSize(childHeights[0], gridHeight)]
                    && widths == Adjusted(childWidths, gridWidth, crossIsAuto)
    {
      if horizontal {
        var first, second := AdjustChildDimensions(childWidths[0], gridWidth, childHeights, gridHeight, crossIsAuto);
        widths := [first];
        heights := second;
      } else {
        var first, second := AdjustChildDimensions(childHeights[0], gridHeight, childWidths, gridWidth, crossIsAuto);
        heights := [first];
        widths := second;
      }
      itemsPerCourse := if horizontal then |heights| else |widths|;
    }

    /** The size of a child depends only on its place in its course. */
    method GetChildSize(index: nat, ghost course: nat, ghost place: nat) returns (size: Size)
      requires Valid() && place < itemsPerCourse && index == course * itemsPerCourse + place
      ensures size == if horizontal then Size(widths[0], heights[place]) else Size(widths[place], heights[0])
    {
      PlaceInCourse(index, itemsPerCourse, course, place);
      var curRow := if horizontal then index % itemsPerCourse else index / itemsPerCourse;
      var hIdx := if |heights| - 1 < curRow then |heights| - 1 else curRow;
      var curColumn := if horizontal then index / itemsPerCourse else index % itemsPerCourse;
      var wIdx := if |widths| - 1 < curColumn then |widths| - 1 else curColumn;
      size := Size(widths[wIdx], heights[hIdx]);
    }
  }

  lemma AtLeast(k: int, n: nat)
    requires k >= 1
    ensures k * n >= n
  {
  }

  lemma PlaceInCourse(index: nat, n: nat, course: nat, place: nat)
    requires place < n && index == course * n + place
    ensures index % n == place && index / n == course
  {
    var q, r := index / n, index % n;
    assert index == q * n + r;
    if q < course {
      AtLeast(course - q, n);
    } else if q > course {
      AtLeast(q - course, n);
    }
  }
}
