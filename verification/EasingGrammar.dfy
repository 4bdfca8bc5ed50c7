/** The actions of the easing grammar: what is accepted, and that it is laid out as the calculation needs it. */
module EasingGrammar {
  import opened Wrappers
  import opened Segments
  import ArcLength
  import Bezier

  // ----- lists of segments -----

  /** A segment as it is written: "line(...)", "curve(...)", "end(...)", "scurve(...)" or "send(...)". */
  datatype Piece = Piece(kind: Kind, numbers: seq<real>)

  /** What is written before the pieces: nothing, or "spatial(...)" with these numbers. */
  type Head = Option<seq<real>>

  function HeadNumbers(head: Head): seq<real> {
    if head.Some? then head.value else []
  }

  /** The coordinates of a point, as far as a list of numbers tells. */
  function DofOf(numbers: seq<real>): nat {
    if numbers == [] then 0
    else
      var n := Truncate(numbers[0]);
      if n < 0 then -n else n
  }

  /** "spatial(n, i)": points have n coordinates, at least two, and i selects one of them. */
  predicate Selects(numbers: seq<real>) {
    && |numbers| == 2 && Truncate(numbers[0]) >= 2
    && 0 <= Truncate(numbers[1]) < Truncate(numbers[0])
  }

  predicate IsInner(spatial: bool, kind: Kind) {
    if spatial then kind.SCurve? else kind.Linear? || kind.Curve?
  }

  predicate IsLast(spatial: bool, kind: Kind) {
    if spatial then kind.SEnd? else kind.End?
  }

  predicate HasSize(head: Head, piece: Piece) {
    |piece.numbers| == Size(piece.kind, DofOf(HeadNumbers(head)))
  }

  /** The first n pieces are inner ones of the right size, at increasing times. */
  ghost predicate Inner(head: Head, pieces: seq<Piece>, n: nat)
    requires n <= |pieces|
  {
    && (forall i :: 0 <= i < n ==> IsInner(head.Some?, pieces[i].kind) && HasSize(head, pieces[i]))
    && Increasing(pieces, n)
  }

  ghost predicate Increasing(pieces: seq<Piece>, n: nat)
    requires n <= |pieces|
  {
    && (forall i :: 0 <= i < n ==> |pieces[i].numbers| > 0)
    && forall i, j :: 0 <= i < j < n ==> pieces[i].numbers[0] < pieces[j].numbers[0]
  }

  /** One or more inner pieces and an end, of the right sizes and at increasing times. */
  ghost predicate Accepted(head: Head, pieces: seq<Piece>) {
    var n := |pieces|;
    && (head.Some? ==> Selects(head.value))
    && n >= 2 && Inner(head, pieces, n - 1) && Increasing(pieces, n)
    && IsLast(head.Some?, pieces[n - 1].kind) && HasSize(head, pieces[n - 1])
  }

  /** The numbers of the head and of the first n pieces, one after the other. */
  function Numbers(head: Head, pieces: seq<Piece>, n: nat): seq<real>
    requires n <= |pieces|
  {
    if n == 0 then HeadNumbers(head) else Numbers(head, pieces, n - 1) + pieces[n - 1].numbers
  }

  /** The first n pieces, each with the place of its numbers. */
  function Places(head: Head, pieces: seq<Piece>, n: nat): (r: seq<Segment>)
    requires n <= |pieces|
    ensures |r| == n
    ensures forall i :: 0 <= i < n ==> r[i] == Segment(pieces[i].kind, |Numbers(head, pieces, i)|)
  {
    if n == 0 then []
    else Places(head, pieces, n - 1) + [Segment(pieces[n - 1].kind, |Numbers(head, pieces, n - 1)|)]
  }

  function Made(head: Head, pieces: seq<Piece>): Path {
    Path(Places(head, pieces, |pieces|), Numbers(head, pieces, |pieces|))
  }

  lemma {:induction false} NumbersExtend(head: Head, pieces: seq<Piece>, i: nat, n: nat)
    requires i <= n <= |pieces|
    ensures |Numbers(head, pieces, i)| <= |Numbers(head, pieces, n)|
    ensures Numbers(head, pieces, n)[..|Numbers(head, pieces, i)|] == Numbers(head, pieces, i)
    decreases n - i
  {
    if i < n {
      NumbersExtend(head, pieces, i, n - 1);
    }
  }

  /** The numbers begin with those of the head, and after a piece there are some. */
  lemma HeadIsFirst(head: Head, pieces: seq<Piece>, n: nat)
    requires n <= |pieces|
    ensures HeadNumbers(head) <= Numbers(head, pieces, n)
    ensures HeadNumbers(head) != [] ==> DofOf(Numbers(head, pieces, n)) == DofOf(HeadNumbers(head))
    ensures n > 0 && pieces[0].numbers != [] ==> Numbers(head, pieces, n) != []
  {
    NumbersExtend(head, pieces, 0, n);
    if n > 0 { NumbersExtend(head, pieces, 1, n); }
  }

  lemma OneMoreIncreases(pieces: seq<Piece>, i: nat)
    requires i < |pieces| && Increasing(pieces, i)
    ensures i > 0 ==> |pieces[i - 1].numbers| > 0
    ensures Increasing(pieces, i + 1) <==>
              |pieces[i].numbers| > 0 && (i > 0 ==> pieces[i - 1].numbers[0] < pieces[i].numbers[0])
    ensures i > 0 ==> pieces[0].numbers != []
  {
  }

  lemma SizeOf(head: Head, piece: Piece, numbers: seq<real>)
    requires Spatial(piece.kind) ==> DofOf(numbers) == DofOf(HeadNumbers(head))
    ensures HasSize(head, piece) <==> |piece.numbers| == Size(piece.kind, DofOf(numbers))
    ensures HasSize(head, piece) ==> piece.numbers != []
  {
  }

  lemma BeforeFirst(head: Head, pieces: seq<Piece>)
    ensures Inner(head, pieces, 0)
    ensures Accepted(head, pieces) ==> |pieces| >= 2 && (head.Some? ==> Selects(head.value))
  {
  }

  lemma AcceptedAt(head: Head, pieces: seq<Piece>, i: nat)
    requires Accepted(head, pieces) && i < |pieces|
    ensures HasSize(head, pieces[i]) && Increasing(pieces, i + 1)
    ensures IsInner(head.Some?, pieces[i].kind) <==> i + 1 < |pieces|
    ensures IsLast(head.Some?, pieces[i].kind) <==> i + 1 == |pieces|
  {
  }

  lemma AllTaken(head: Head, pieces: seq<Piece>)
    requires (head.Some? ==> Selects(head.value)) && |pieces| >= 2
    requires Inner(head, pieces, |pieces| - 1) && Increasing(pieces, |pieces|)
    requires IsLast(head.Some?, pieces[|pieces| - 1].kind) && HasSize(head, pieces[|pieces| - 1])
    ensures Accepted(head, pieces)
  {
  }

  lemma SpatialInner(spatial: bool, kind: Kind)
    requires IsInner(spatial, kind) || IsLast(spatial, kind)
    ensures Spatial(kind) <==> spatial
  {
  }

  /** easing_state, with the actions of the grammar; a failed parse goes on in the original, and is then dropped. */
  class EasingState {
    var lastTime: real
    var startIndex: nat
    var segments: seq<Segment>
    var args: seq<real>

    constructor ()
      ensures lastTime == 0.0 && startIndex == 0 && segments == [] && args == []
    {
      lastTime, startIndex, segments, args := 0.0, 0, [], [];
    }

    /** The action of each number. */
    method Read(numbers: seq<real>)
      modifies this`args
      ensures args == old(args) + numbers
    {
      for i := 0 to |numbers|
        invariant args == old(args) + numbers[..i]
      {
        args := args + [numbers[i]];
      }
    }

    method Spatial() returns (ok: bool)
      ensures ok <==> Selects(args)
    {
      if |args| != 2 {
        return false;
      }
      var dof := Truncate(args[0]);
      if dof < 2 {
        return false;
      }
      var index := Truncate(args[1]);
      ok := !(index < 0 || index >= dof);
    }

    /** The action of a word such as "line". */
    method Begin()
      modifies this`startIndex
      ensures startIndex == |args|
    {
      startIndex := |args|;
    }

    /** The action of a whole segment.  Whether it is the first is told by the index, or by the segments so far. */
    method Finish(kind: Kind) returns (ok: bool)
      requires startIndex <= |args| && (Segments.Spatial(kind) ==> args != [])
      modifies this`lastTime, this`segments
      ensures var first := if Segments.Spatial(kind) then old(segments) == [] else startIndex == 0;
              ok <==> && |args| - startIndex == Size(kind, DofOf(args))
                      && (first || args[startIndex] > old(lastTime))
      ensures ok ==> segments == old(segments) + [Segment(kind, startIndex)] && lastTime == args[startIndex]
      ensures !ok ==> segments == old(segments) && lastTime == old(lastTime)
    {
      var argCount := |args| - startIndex;
      if argCount != Size(kind, DofOf(args)) {
        return false;
      }
      var time := args[startIndex];
      var later := if Segments.Spatial(kind) then segments != [] else startIndex > 0;
      if time <= lastTime && later {
        return false;
      }
      lastTime := time;
      segments := segments + [Segment(kind, startIndex)];
      ok := true;
    }

    method Start(head: Head, ghost pieces: seq<Piece>) returns (ok: bool)
      requires startIndex == 0 && segments == [] && args == []
      modifies this
      ensures ok <==> (head.Some? ==> Selects(head.value))
      ensures ok ==> At(head, pieces, 0)
    {
      ok := true;
      if head.Some? {
        Read(head.value);
        assert args == head.value;
        ok := Spatial();
      }
    }

    /** The pieces before the first that is not an inner one. */
    method TakeInner(head: Head, pieces: seq<Piece>) returns (i: nat, ok: bool)
      requires At(head, pieces, 0)
      modifies this
      ensures i <= |pieces|
      ensures ok ==> && At(head, pieces, i) && Inner(head, pieces, i)
                     && (i < |pieces| ==> !IsInner(head.Some?, pieces[i].kind))
      ensures Accepted(head, pieces) ==> ok && i + 1 == |pieces|
    {
      hide Increasing, HasSize, IsInner, IsLast, Selects, Size, At, Accepted;
      BeforeFirst(head, pieces);
      i := 0;
      while i < |pieces| && IsInner(head.Some?, pieces[i].kind)
        invariant i <= |pieces| && At(head, pieces, i) && Inner(head, pieces, i)
        invariant Accepted(head, pieces) ==> i < |pieces|
      {
        if Accepted(head, pieces) { AcceptedAt(head, pieces, i); }
        SpatialInner(head.Some?, pieces[i].kind);
        ok := Take(head, pieces, i, pieces[i]);
        if !ok {
          return;
        }
        i := i + 1;
      }
      if Accepted(head, pieces) { AcceptedAt(head, pieces, i); }
      ok := true;
    }

    /** One segment, from its word to its closing bracket. */
    method Take(ghost head: Head, ghost pieces: seq<Piece>, ghost i: nat, piece: Piece) returns (ok: bool)
      requires i < |pieces| && piece == pieces[i] && At(head, pieces, i)
      requires Segments.Spatial(piece.kind) <==> head.Some?
      modifies this
      ensures ok <==> HasSize(head, piece) && Increasing(pieces, i + 1)
      ensures ok ==> At(head, pieces, i + 1)
    {
      hide Increasing, HasSize, Size, DofOf;
      HeadIsFirst(head, pieces, i);
      HeadIsFirst(head, pieces, i + 1);
      OneMoreIncreases(pieces, i);
      Begin();
      Read(piece.numbers);
      SizeOf(head, piece, args);
      assert args == Numbers(head, pieces, i + 1);
      ok := Finish(piece.kind);
    }

    /** The state after the first n pieces. */
    ghost predicate At(head: Head, pieces: seq<Piece>, n: nat)
      requires n <= |pieces|
      reads this
    {
      && (head.Some? ==> Selects(head.value)) && Increasing(pieces, n)
      && args == Numbers(head, pieces, n) && segments == Places(head, pieces, n)
      && (n > 0 ==> lastTime == pieces[n - 1].numbers[0])
    }
  }

  /** "(line | curve)+ end", or "spatial scurve+ send". */
  method ParsePieces(head: Head, pieces: seq<Piece>) returns (r: Option<Path>)
    ensures r == if Accepted(head, pieces) then Some(Made(head, pieces)) else None
  {
    hide Increasing, HasSize, IsInner, IsLast, Selects, Inner, Accepted, Numbers, Places;
    BeforeFirst(head, pieces);
    var state := new EasingState();
    var ok := state.Start(head, pieces);
    if !ok {
      return None;
    }
    var i;
    i, ok := state.TakeInner(head, pieces);
    if !ok {
      return None;
    }
    if Accepted(head, pieces) { AcceptedAt(head, pieces, i); }
    if i == 0 || i == |pieces| || !IsLast(head.Some?, pieces[i].kind) {
      return None;
    }
    SpatialInner(head.Some?, pieces[i].kind);
    ok := state.Take(head, pieces, i, pieces[i]);
    if !ok || i + 1 < |pieces| {
      return None;
    }
    AllTaken(head, pieces);
    r := Some(Path(state.segments, state.args));
  }

  /** Where the numbers of a piece are. */
  lemma PlaceOf(head: Head, pieces: seq<Piece>, i: nat)
    requires i < |pieces|
    ensures var p, at := Made(head, pieces), |Numbers(head, pieces, i)|;
            && p.segments[i] == Segment(pieces[i].kind, at)
            && at + |pieces[i].numbers| <= |p.points| && p.points[at..at + |pieces[i].numbers|] == pieces[i].numbers
            && |Numbers(head, pieces, i + 1)| == at + |pieces[i].numbers|
            && HeadNumbers(head) <= p.points
  {
    NumbersExtend(head, pieces, i, i + 1);
    NumbersExtend(head, pieces, i + 1, |pieces|);
    NumbersExtend(head, pieces, 0, |pieces|);
  }

  /** The head tells the coordinates of the points of the path. */
  lemma HeadIsKept(head: Head, pieces: seq<Piece>)
    requires Accepted(head, pieces)
    ensures var p := Made(head, pieces);
            && |p.points| >= 4
            && (head.Some? ==> Dof(p) == DofOf(HeadNumbers(head)) && 0 <= Index(p) < Dof(p))
  {
    hide Places;
    var n := |pieces|;
    HeadIsFirst(head, pieces, n);
    AcceptedAt(head, pieces, 0);
    AcceptedAt(head, pieces, 1);
    NumbersExtend(head, pieces, 2, n);
    assert |Numbers(head, pieces, 2)| == |HeadNumbers(head)| + |pieces[0].numbers| + |pieces[1].numbers| by {
      assert |Numbers(head, pieces, 1)| == |Numbers(head, pieces, 0)| + |pieces[0].numbers|;
    }
  }

  lemma AcceptedFits(head: Head, pieces: seq<Piece>, i: nat)
    requires Accepted(head, pieces) && i < |pieces|
    ensures |Made(head, pieces).points| >= 4 && Fits(Made(head, pieces), i)
  {
    hide Accepted, Inner, Increasing, Dof, DofOf, Index, Numbers, Places;
    HeadIsKept(head, pieces);
    AcceptedAt(head, pieces, 0);
    AcceptedAt(head, pieces, i);
    PlaceOf(head, pieces, 0);
    PlaceOf(head, pieces, i);
    if i + 1 < |pieces| { PlaceOf(head, pieces, i + 1); }
  }

  /** Whatever the grammar accepts is laid out as the calculation needs it, with the times as they are written. */
  lemma AcceptedIsLaidOut(head: Head, pieces: seq<Piece>)
    requires Accepted(head, pieces)
    ensures LaidOut(Made(head, pieces))
    ensures forall i :: 0 <= i < |pieces| ==> StartTime(Made(head, pieces), i) == pieces[i].numbers[0]
  {
    hide Numbers, Places, Fits, HasSize;
    var p := Made(head, pieces);
    HeadIsKept(head, pieces);
    forall i | 0 <= i < |pieces| ensures Fits(p, i) {
      AcceptedFits(head, pieces, i);
    }
    forall i | 0 <= i < |pieces| ensures StartTime(p, i) == pieces[i].numbers[0] {
      PlaceOf(head, pieces, i);
      assert p.points[p.segments[i].offset..p.segments[i].offset + |pieces[i].numbers|][0] == StartTime(p, i);
    }
  }

  /** The coordinate of a point that "spatial" selects, or the only one. */
  function Selected(head: Head): int {
    if head.Some? && |head.value| == 2 then Truncate(head.value[1]) else 0
  }

  /** Every number of a piece is where the path has it. */
  lemma NumbersAreInPlace(head: Head, pieces: seq<Piece>, i: nat, j: nat)
    requires i < |pieces| && j < |pieces[i].numbers|
    ensures var p := Made(head, pieces);
            p.segments[i].offset + j < |p.points| && p.points[p.segments[i].offset + j] == pieces[i].numbers[j]
  {
    hide Numbers;
    PlaceOf(head, pieces, i);
    var p, at := Made(head, pieces), |Numbers(head, pieces, i)|;
    assert p.points[at..at + |pieces[i].numbers|][j] == p.points[at + j];
  }

  /** What a segment's value is: the number after its time, or the selected one of a spatial segment. */
  lemma ValuesAreWritten(head: Head, pieces: seq<Piece>, i: nat)
    requires Accepted(head, pieces) && i < |pieces|
    ensures LaidOut(Made(head, pieces)) && 0 <= Selected(head) && 1 + Selected(head) < |pieces[i].numbers|
    ensures StartValue(Made(head, pieces), i) == pieces[i].numbers[1 + Selected(head)]
  {
    hide Numbers, Places, Inner, Increasing, Accepted, Dof, DofOf, Made;
    AcceptedIsLaidOut(head, pieces);
    AcceptedFits(head, pieces, i);
    SelectedIsInside(head, pieces, i);
    NumbersAreInPlace(head, pieces, i, 1 + Selected(head));
  }

  lemma SelectedIsInside(head: Head, pieces: seq<Piece>, i: nat)
    requires Accepted(head, pieces) && i < |pieces|
    ensures var p := Made(head, pieces);
            && |p.points| >= 4 && 0 <= Selected(head) && 1 + Selected(head) < |pieces[i].numbers|
            && p.segments[i].kind == pieces[i].kind && (Spatial(pieces[i].kind) <==> head.Some?)
            && (head.Some? ==> Index(p) == Selected(head) && Dof(p) == Truncate(head.value[0]))
  {
    hide Numbers, Inner, Increasing;
    HeadIsKept(head, pieces);
    HeadIsFirst(head, pieces, |pieces|);
    AcceptedAt(head, pieces, i);
    SpatialInner(head.Some?, pieces[i].kind);
    PlaceOf(head, pieces, i);
  }

  /**
   * The curve of a spatial segment as it is written: after the time come the coordinates of its start, those of the
   * tangent that leaves it and those of the tangent that arrives; its end is the start of the next segment.
   */
  lemma ControlIsWritten(head: Head, pieces: seq<Piece>, i: nat, j: nat)
    requires Accepted(head, pieces) && head.Some? && i + 1 < |pieces| && j < Truncate(head.value[0])
    ensures var p, n, dof := Made(head, pieces), pieces[i].numbers, Truncate(head.value[0]);
            && LaidOut(p) && p.segments[i].kind.SCurve? && Dof(p) == dof
            && |n| == 5 + 3 * dof && |pieces[i + 1].numbers| > j + 1
            && Control(p, i).start[j] == n[1 + j] && Control(p, i).tout[j] == n[1 + dof + j]
            && Control(p, i).tin[j] == n[1 + 2 * dof + j] && Control(p, i).end[j] == pieces[i + 1].numbers[1 + j]
  {
    hide Numbers, Places, Inner, Increasing, Accepted, Control, Dof, Fits;
    PieceSize(head, pieces, i);
    PieceSize(head, pieces, i + 1);
    var dof := Truncate(head.value[0]);
    AcceptedIsLaidOut(head, pieces);
    SelectedIsInside(head, pieces, i);
    SelectedIsInside(head, pieces, i + 1);
    ControlAt(Made(head, pieces), i, j);
    NumbersAreInPlace(head, pieces, i, 1 + j);
    NumbersAreInPlace(head, pieces, i, 1 + dof + j);
    NumbersAreInPlace(head, pieces, i, 1 + 2 * dof + j);
    NumbersAreInPlace(head, pieces, i + 1, 1 + j);
  }

  lemma PieceSize(head: Head, pieces: seq<Piece>, i: nat)
    requires Accepted(head, pieces) && head.Some? && i < |pieces|
    ensures |head.value| == 2
    ensures |pieces[i].numbers| == if i + 1 < |pieces| then 5 + 3 * Truncate(head.value[0])
              else 1 + Truncate(head.value[0])
    ensures pieces[i].kind == if i + 1 < |pieces| then SCurve else SEnd
  {
    AcceptedAt(head, pieces, i);
  }

  // ----- writing a curve down -----

  /** The segments of a curve use all its numbers: those of "spatial", if there are any, and then their own. */
  ghost predicate Whole(p: Path)
    requires Tiled(p)
  {
    var first, last := p.segments[0], p.segments[|p.segments| - 1];
    && first.offset == (if Spatial(first.kind) then 2 else 0)
    && (Spatial(first.kind) ==> Truncate(p.points[0]) >= 2)
    && last.offset + Stride(p, last.kind) == |p.points|
  }

  function HeadOf(p: Path): Head
    requires Tiled(p)
  {
    if Spatial(p.segments[0].kind) then Some(p.points[..2]) else None
  }

  function PieceOf(p: Path, i: nat): Piece
    requires Tiled(p) && i < |p.segments|
  {
    assert Fits(p, i);
    var s := p.segments[i];
    Piece(s.kind, p.points[s.offset..s.offset + Stride(p, s.kind)])
  }

  function PiecesOf(p: Path): seq<Piece>
    requires Tiled(p)
  {
    seq(|p.segments|, i requires 0 <= i < |p.segments| => PieceOf(p, i))
  }

  lemma {:induction false} NumbersOf(p: Path, i: nat)
    requires Tiled(p) && Whole(p) && i < |p.segments|
    ensures Fits(p, i) && Numbers(HeadOf(p), PiecesOf(p), i) == p.points[..p.segments[i].offset]
    ensures |Numbers(HeadOf(p), PiecesOf(p), i)| == p.segments[i].offset
  {
    hide Stride;
    assert Fits(p, i);
    if i > 0 {
      NumbersOf(p, i - 1);
    }
  }

  lemma PieceFits(p: Path, i: nat)
    requires LaidOut(p) && Whole(p) && i < |p.segments|
    ensures var head, piece := HeadOf(p), PieceOf(p, i);
            && HasSize(head, piece) && (head.Some? ==> Selects(head.value))
            && (if i + 1 < |p.segments| then IsInner(head.Some?, piece.kind) else IsLast(head.Some?, piece.kind))
            && piece.numbers != [] && piece.numbers[0] == StartTime(p, i)
  {
    assert Fits(p, 0) && Fits(p, i);
  }

  /** Every such curve can be written down, and is what the grammar makes of that. */
  lemma LaidOutIsAccepted(p: Path)
    requires LaidOut(p) && Whole(p)
    ensures Accepted(HeadOf(p), PiecesOf(p)) && Made(HeadOf(p), PiecesOf(p)) == p
  {
    hide Stride, Numbers, HasSize, Fits, Selects, IsInner, IsLast;
    var head, pieces, n := HeadOf(p), PiecesOf(p), |p.segments|;
    assert head.Some? ==> Selects(head.value) by { PieceFits(p, 0); }
    forall i: nat | i < n
      ensures HasSize(head, pieces[i]) && pieces[i].numbers != [] && pieces[i].numbers[0] == StartTime(p, i)
      ensures if i + 1 < n then IsInner(head.Some?, pieces[i].kind) else IsLast(head.Some?, pieces[i].kind)
    {
      PieceFits(p, i);
    }
    AllNumbersOf(p);
    forall i | 0 <= i < n ensures Places(head, pieces, n)[i] == p.segments[i] {
      NumbersOf(p, i);
    }
  }

  lemma AllNumbersOf(p: Path)
    requires Tiled(p) && Whole(p)
    ensures Numbers(HeadOf(p), PiecesOf(p), |p.segments|) == p.points
  {
    hide Stride;
    var last := |p.segments| - 1;
    NumbersOf(p, last);
    assert Fits(p, last);
  }

  /** What is accepted makes such a curve, and can be read back from it. */
  lemma AcceptedIsReadBack(head: Head, pieces: seq<Piece>)
    requires Accepted(head, pieces)
    ensures var p := Made(head, pieces);
            LaidOut(p) && Whole(p) && HeadOf(p) == head && PiecesOf(p) == pieces
  {
    hide Numbers, Places, Fits, Inner, Increasing;
    var p, n := Made(head, pieces), |pieces|;
    AcceptedIsLaidOut(head, pieces);
    forall i: nat | i < n ensures PieceOf(p, i) == pieces[i] {
      PieceIsReadBack(head, pieces, i);
    }
    AcceptedIsWhole(head, pieces);
  }

  lemma PieceIsReadBack(head: Head, pieces: seq<Piece>, i: nat)
    requires Accepted(head, pieces) && Tiled(Made(head, pieces)) && i < |pieces|
    ensures PieceOf(Made(head, pieces), i) == pieces[i]
    ensures Stride(Made(head, pieces), pieces[i].kind) == |pieces[i].numbers|
  {
    hide Numbers, Places, Inner, Increasing, Accepted, Dof, DofOf, Index;
    assert Fits(Made(head, pieces), i);
    HeadIsKept(head, pieces);
    AcceptedAt(head, pieces, i);
    PlaceOf(head, pieces, i);
  }

  lemma AcceptedIsWhole(head: Head, pieces: seq<Piece>)
    requires Accepted(head, pieces) && Tiled(Made(head, pieces))
    ensures Whole(Made(head, pieces)) && HeadOf(Made(head, pieces)) == head
  {
    hide Fits, Inner, Increasing, Accepted, Stride, HasSize;
    var p, n := Made(head, pieces), |pieces|;
    HeadIsRead(head, pieces);
    AcceptedAt(head, pieces, 0);
    SpatialInner(head.Some?, pieces[0].kind);
    PieceIsReadBack(head, pieces, n - 1);
    assert |p.points| == |Numbers(head, pieces, n - 1)| + |pieces[n - 1].numbers|;
  }

  /** The numbers of the head come first. */
  lemma HeadIsRead(head: Head, pieces: seq<Piece>)
    requires Accepted(head, pieces)
    ensures head.Some? ==> Selects(head.value) && head.value == Made(head, pieces).points[..2]
  {
    hide Inner, Increasing, HasSize, IsLast;
    HeadIsFirst(head, pieces, |pieces|);
  }

  // ----- path(...) and cubic-bezier(...) -----

  function TimeOf(args: seq<real>, i: nat): real
    requires 2 * i < |args|
  {
    args[2 * i]
  }

  /** The first n times of a path are strictly between 0 and 1, and increase. */
  ghost predicate Ordered(args: seq<real>, n: nat)
    requires 2 * n <= |args|
  {
    && (forall i :: 0 <= i < n ==> 0.0 < TimeOf(args, i) < 1.0)
    && forall i, j :: 0 <= i < j < n ==> TimeOf(args, i) < TimeOf(args, j)
  }

  /** Segment i of a path starts at its point i. */
  ghost predicate StraightTo(segments: seq<Segment>, n: nat) {
    |segments| == n && forall i :: 0 <= i < n ==> segments[i] == Segment(Linear, 2 * i)
  }

  /** The parser's action for "path(...)": it accepts exactly the lists of points in order. */
  method ParsePath(numbers: seq<real>) returns (r: Result<Path, string>)
    ensures r.Ok? <==> |numbers| % 2 == 0 && Ordered(numbers, |numbers| / 2)
    ensures r.Ok? ==> r.value.points == [0.0, 0.0] + numbers + [1.0, 1.0]
    ensures r.Ok? ==> var n := |numbers| / 2 + 1;
              && |r.value.segments| == n + 1 && StraightTo(r.value.segments[..n], n)
              && r.value.segments[n] == Segment(End, 2 * n)
  {
    var segments := [Segment(Linear, 0)];
    var args := [0.0, 0.0] + numbers;
    if |numbers| % 2 == 1 {
      return Err("Path easing function needs an even number of arguments");
    }
    var lastTime := 0.0;
    var offset := 2;
    ghost var i, n := 0, |numbers| / 2;
    while offset < |args|
      invariant i <= n && offset == 2 * i + 2
      invariant StraightTo(segments, i + 1)
      invariant lastTime == if i == 0 then 0.0 else TimeOf(numbers, i - 1)
      invariant Ordered(numbers, i)
    {
      var time := args[offset];
      assert time == TimeOf(numbers, i);
      if time <= lastTime || time >= 1.0 {
        return Err("Path easing function needs ordered array of segments");
      }
      lastTime := time;
      segments := segments + [Segment(Linear, offset)];
      offset := offset + 2;
      i := i + 1;
    }
    segments := segments + [Segment(End, |args|)];
    args := args + [1.0, 1.0];
    r := Ok(Path(segments, args));
  }

  /** What the parser accepts is laid out; it starts at (0, 0) and ends at (1, 1). */
  lemma ParsedPathIsLaidOut(numbers: seq<real>, p: Path)
    requires |numbers| % 2 == 0 && Ordered(numbers, |numbers| / 2)
    requires p.points == [0.0, 0.0] + numbers + [1.0, 1.0]
    requires var n := |numbers| / 2 + 1;
             |p.segments| == n + 1 && StraightTo(p.segments[..n], n) && p.segments[n] == Segment(End, 2 * n)
    ensures UnitCurve(p) && HasTables(p, seq(|p.segments|, _ => ArcLength.Table(1, [], [])))
  {
    var n := |numbers| / 2 + 1;
    forall i | 0 <= i < |p.segments| ensures p.segments[i] == Segment(if i < n then Linear else End, 2 * i) {
      assert i < n ==> p.segments[i] == p.segments[..n][i];
    }
    assert forall i :: 0 <= i < |p.segments| ==> Fits(p, i);
    forall i | 0 <= i < |p.segments|
      ensures StartTime(p, i) == if i == 0 then 0.0 else if i == n then 1.0 else TimeOf(numbers, i - 1)
    {
      assert Fits(p, i);
    }
  }

  /** "cubic-bezier(a, b, c, d)" */
  function CubicBezier(a: real, b: real, c: real, d: real): Path {
    Path([Segment(Curve, 0), Segment(End, 6)], [0.0, 0.0, a, b, c, d, 1.0, 1.0])
  }

  /** The parser's action for it: exactly four numbers are accepted. */
  method ParseCubicBezier(numbers: seq<real>) returns (r: Option<Path>)
    ensures r == if |numbers| == 4 then Some(CubicBezier(numbers[0], numbers[1], numbers[2], numbers[3])) else None
  {
    var segments := [Segment(Curve, 0)];
    var args := [0.0, 0.0] + numbers;
    if |args| - 2 != 4 {
      return None;
    }
    segments := segments + [Segment(End, |args|)];
    args := args + [1.0, 1.0];
    ghost var made := CubicBezier(numbers[0], numbers[1], numbers[2], numbers[3]);
    assert segments == made.segments && args == made.points;
    r := Some(Path(segments, args));
  }

  lemma CubicBezierIsLaidOut(a: real, b: real, c: real, d: real)
    ensures UnitCurve(CubicBezier(a, b, c, d))
  {
  }

  /**
   * The value of a cubic-bezier curve inside is the height of a point of the curve with the control points (a, b) and
   * (c, d) that is close to the time.
   */
  lemma CubicBezierInside(a: real, b: real, c: real, d: real, tables: seq<ArcLength.Table>, t: real)
    returns (at: real)
    requires HasTables(CubicBezier(a, b, c, d), tables) && 0.0 < t < 1.0
    ensures LaidOut(CubicBezier(a, b, c, d)) && 0.0 < at < 1.0
    ensures Bezier.Abs(t - Bezier.F(a, c, at)) < 0.00001
    ensures Value(CubicBezier(a, b, c, d), tables, t) == Some(if a == b && c == d then t else Bezier.F(b, d, at))
  {
    hide Bezier.F, Value, LocalTime;
    var p := CubicBezier(a, b, c, d);
    CubicBezierIsLaidOut(a, b, c, d);
    at := CurveInBetween(p, tables, 0, t);
    EndsAtNextStart(p, 0);
    assert LocalTime(p, 0, t) * 1.0 == t;
  }

  /** A path runs through its points at their times. */
  lemma PathPoints(numbers: seq<real>, p: Path, i: nat)
    requires |numbers| % 2 == 0 && Ordered(numbers, |numbers| / 2) && 2 * i < |numbers|
    requires p.points == [0.0, 0.0] + numbers + [1.0, 1.0]
    requires var n := |numbers| / 2 + 1;
             |p.segments| == n + 1 && StraightTo(p.segments[..n], n) && p.segments[n] == Segment(End, 2 * n)
    ensures LaidOut(p)
    ensures StartTime(p, i + 1) == numbers[2 * i] && StartValue(p, i + 1) == numbers[2 * i + 1]
  {
    var n := |numbers| / 2 + 1;
    ParsedPathIsLaidOut(numbers, p);
    assert p.segments[i + 1] == p.segments[..n][i + 1];
    assert Fits(p, i + 1);
  }
}
