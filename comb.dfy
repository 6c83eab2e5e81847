/**
 * A honeycomb (CHoneyComb in src/honeycomb.cpp): seven cells, one in the
 * centre and six around it, laid out from the comb's position and cell size,
 * and drawn one after the other.
 */
module Comb {
  import opened Wrappers
  import opened HexConfig
  import opened Hexagon
  import opened Cells

  /** A quarter turn of v about c that takes "up" (smaller y) to "right". */
  function QuarterTurn(c: Point, v: Point): Point {
    Point(c.x - (v.y - c.y), c.y + (v.x - c.x))
  }

  /**
   * Where RecalcPositions puts the seven cells of a comb at p with the given
   * cell size: the centre, then right, bottom-right, bottom-left, left,
   * top-left and top-right, stepping by half the comb width across and by the
   * comb's hexagon half-width up and down.
   */
  function Layout(p: Point, cellSize: real): (ps: seq<Point>)
    ensures |ps| == MaxCells
  {
    var combSize := cellSize * CellCombRatio;
    var halfWidth := combSize / 2.0;
    var rise := HalfWidth(combSize);
    [ p,
      Point(p.x + halfWidth, p.y),
      Point(p.x + halfWidth / 2.0, p.y + rise),
      Point(p.x - halfWidth / 2.0, p.y + rise),
      Point(p.x - halfWidth, p.y),
      Point(p.x - halfWidth / 2.0, p.y - rise),
      Point(p.x + halfWidth / 2.0, p.y - rise) ]
  }

  /** The point-up hexagon with the size of the whole comb, centred on the comb. */
  function CombOutline(p: Point, cellSize: real): (vs: seq<Point>)
    ensures |vs| == NumHexVerts
  {
    HexVertices(p, cellSize * CellCombRatio)
  }

  /**
   * The ring of cells is the comb-sized hexagon turned a quarter turn about
   * the centre: ring cell k + 1 sits on vertex k of that hexagon, turned.
   */
  lemma LayoutIsTurnedHexagon(p: Point, cellSize: real)
    ensures Layout(p, cellSize)[0] == p
    ensures forall k :: 0 <= k < NumHexVerts ==>
      Layout(p, cellSize)[k + 1] == QuarterTurn(p, CombOutline(p, cellSize)[k])
  {
  }

  /** Opposite ring cells are reflections of each other through the centre cell. */
  lemma LayoutRingCentrallySymmetric(p: Point, cellSize: real)
    ensures forall k :: 1 <= k <= NumHexVerts / 2 ==>
      Layout(p, cellSize)[k].x + Layout(p, cellSize)[k + NumHexVerts / 2].x == 2.0 * p.x &&
      Layout(p, cellSize)[k].y + Layout(p, cellSize)[k + NumHexVerts / 2].y == 2.0 * p.y
  {
  }

  /** The comb ratio in closed form. */
  lemma CombSteps(cellSize: real)
    ensures cellSize * CellCombRatio == 1.71875 * cellSize
    ensures HalfWidth(cellSize * CellCombRatio) == 0.7425 * cellSize
  {
    RatioSteps(cellSize * CellCombRatio);
  }

  /**
   * For a positive cell size the seven laid-out positions are pairwise
   * distinct, and every ring cell is at least half a cell size away from the
   * centre along one of the axes.
   */
  lemma LayoutSpread(p: Point, cellSize: real)
    requires 0.0 < cellSize
    ensures forall i, j :: 0 <= i < j < MaxCells ==> Layout(p, cellSize)[i] != Layout(p, cellSize)[j]
    ensures forall k :: 1 <= k < MaxCells ==>
      var q := Layout(p, cellSize)[k];
      cellSize / 2.0 <= q.x - p.x || q.x - p.x <= -cellSize / 2.0 ||
      cellSize / 2.0 <= q.y - p.y || q.y - p.y <= -cellSize / 2.0
  {
    CombSteps(cellSize);
  }

  /**
   * The cell states after RecalcPositions: nothing changes unless the cell
   * size is positive; then every cell takes the cell size and is moved to its
   * laid-out position, which SetPosition ignores where it is the null point.
   */
  function Recalc(states: seq<CellState>, p: Point, cellSize: real): (r: seq<CellState>)
    requires |states| == MaxCells
    ensures |r| == MaxCells
  {
    if 0.0 < cellSize then
      var layout := Layout(p, cellSize);
      seq(MaxCells, k requires 0 <= k < MaxCells => Placed(Resized(states[k], cellSize), layout[k]))
    else
      states
  }

  /** The cell states once the first n cells have been recalculated. */
  function RecalcPrefix(states: seq<CellState>, p: Point, cellSize: real, n: nat): (r: seq<CellState>)
    requires |states| == MaxCells
  {
    seq(MaxCells, k requires 0 <= k < MaxCells =>
      if k < n then Placed(Resized(states[k], cellSize), Layout(p, cellSize)[k]) else states[k])
  }

  /** Recalculating no cell changes nothing; recalculating all of them is Recalc. */
  lemma RecalcPrefixEnds(states: seq<CellState>, p: Point, cellSize: real)
    requires |states| == MaxCells && 0.0 < cellSize
    ensures RecalcPrefix(states, p, cellSize, 0) == states
    ensures RecalcPrefix(states, p, cellSize, MaxCells) == Recalc(states, p, cellSize)
  {
  }

  /**
   * What recalculation does to each cell: for a non-positive size, nothing;
   * otherwise it sets the size, moves the cell to its laid-out position
   * unless that is the null point, and keeps the colour.
   */
  lemma RecalcMeaning(states: seq<CellState>, p: Point, cellSize: real)
    requires |states| == MaxCells
    ensures !(0.0 < cellSize) ==> Recalc(states, p, cellSize) == states
    ensures forall k :: 0 <= k < MaxCells ==> Recalc(states, p, cellSize)[k].color == states[k].color
    ensures 0.0 < cellSize ==> forall k :: 0 <= k < MaxCells ==>
      Recalc(states, p, cellSize)[k].size == cellSize &&
      Recalc(states, p, cellSize)[k].position ==
        (if IsNull(Layout(p, cellSize)[k]) then states[k].position else Layout(p, cellSize)[k])
  {
  }

  /** Recalculating twice with the same settings is the same as recalculating once. */
  lemma RecalcIdempotent(states: seq<CellState>, p: Point, cellSize: real)
    requires |states| == MaxCells
    ensures Recalc(Recalc(states, p, cellSize), p, cellSize) == Recalc(states, p, cellSize)
  {
  }

  /**
   * With a positive cell size and no laid-out position at the null point, the
   * last recalculation decides every size and position, whatever came before;
   * only the colours survive from the earlier states.
   */
  lemma RecalcLastWins(states: seq<CellState>, p1: Point, size1: real, p2: Point, size2: real)
    requires |states| == MaxCells
    requires 0.0 < size2 && forall k :: 0 <= k < MaxCells ==> !IsNull(Layout(p2, size2)[k])
    ensures Recalc(Recalc(states, p1, size1), p2, size2) == Recalc(states, p2, size2)
    ensures forall k :: 0 <= k < MaxCells ==>
      Recalc(states, p2, size2)[k] == CellState(size2, Layout(p2, size2)[k], states[k].color)
  {
  }

  /**
   * The outcome of drawing the cells in order, stopping at the first one that
   * fails: whether all succeeded, and the drawings handed to the painter.
   */
  function DrawCells(states: seq<CellState>): (r: (bool, seq<Drawing>))
    ensures |r.1| <= |states|
    ensures r.0 ==> |r.1| == |states|
  {
    if states == [] then (true, [])
    else
      var (ok, drawn) := DrawCells(states[..|states| - 1]);
      if !ok then (false, drawn)
      else
        match Render(true, states[|states| - 1])
        case Some(d) => (true, drawn + [d])
        case None => (false, drawn)
  }

  /**
   * Drawing succeeds exactly when every cell is drawable; the drawings are
   * those of the cells before the first failure, in order, and when drawing
   * fails the next cell is the one that could not be drawn.
   */
  lemma {:induction false} DrawCellsMeaning(states: seq<CellState>)
    ensures DrawCells(states).0 <==> forall k :: 0 <= k < |states| ==> Drawable(states[k])
    ensures |DrawCells(states).1| <= |states|
    ensures forall k :: 0 <= k < |DrawCells(states).1| ==>
      Render(true, states[k]) == Some(DrawCells(states).1[k])
    ensures DrawCells(states).0 ==> |DrawCells(states).1| == |states|
    ensures !DrawCells(states).0 ==>
      |DrawCells(states).1| < |states| && !Drawable(states[|DrawCells(states).1|])
  {
    if states != [] {
      var prefix := states[..|states| - 1];
      DrawCellsMeaning(prefix);
      var (ok, drawn) := DrawCells(prefix);
      if ok {
        RenderMeaning(true, states[|states| - 1]);
      }
      forall k | 0 <= k < |states| - 1
        ensures prefix[k] == states[k]
      {
      }
    }
  }

  /** Once drawing has failed on a prefix, the later cells are never drawn. */
  lemma {:induction false} FailureSticks(states: seq<CellState>, i: nat)
    requires i <= |states| && !DrawCells(states[..i]).0
    ensures DrawCells(states) == DrawCells(states[..i])
    decreases |states| - i
  {
    if i < |states| {
      var next := states[..i + 1];
      assert next[..i] == states[..i];
      assert !DrawCells(next).0;
      FailureSticks(states, i + 1);
    } else {
      assert states[..i] == states;
    }
  }

  /**
   * The outcome of CHoneyComb::Draw: without a painter or with a
   * non-positive cell size nothing is drawn and the result is still success;
   * otherwise the cells are drawn in order until one fails. The guard on the
   * cell size is Honeycomb.IsInitialized.
   */
  function CombRender(hasPainter: bool, cellSize: real, states: seq<CellState>): (r: (bool, seq<Drawing>))
    ensures !r.0 ==> hasPainter && 0.0 < cellSize
    ensures |r.1| <= |states|
  {
    if hasPainter && 0.0 < cellSize then DrawCells(states) else (true, [])
  }

  /**
   * Without a painter or with a non-positive cell size the comb reports
   * success and draws nothing; otherwise it succeeds exactly when every cell
   * is drawable, and then it draws all of them.
   */
  lemma CombRenderMeaning(hasPainter: bool, cellSize: real, states: seq<CellState>)
    ensures !(hasPainter && 0.0 < cellSize) ==> CombRender(hasPainter, cellSize, states) == (true, [])
    ensures hasPainter && 0.0 < cellSize ==>
      (CombRender(hasPainter, cellSize, states).0 <==> forall k :: 0 <= k < |states| ==> Drawable(states[k]))
    ensures CombRender(hasPainter, cellSize, states).0 ==>
      |CombRender(hasPainter, cellSize, states).1| == (if hasPainter && 0.0 < cellSize then |states| else 0)
  {
    DrawCellsMeaning(states);
  }

  /**
   * The loop condition of CHoneyComb::Draw as written, before it visits the
   * cell at index i: the cell pointer, which only ever moves forward, is never
   * null, so the loop goes on exactly while the last draw succeeded.
   */
  predicate AsWrittenLoopContinues(states: seq<CellState>, i: nat)
    requires i <= |states|
  {
    DrawCells(states[..i]).0
  }

  /**
   * As written, a comb whose seven cells all draw does not stop after the
   * last cell: the loop condition still holds at index MaxCells, one past the
   * end of the cell array.
   */
  lemma AsWrittenDrawRunsPastLastCell(states: seq<CellState>)
    requires |states| == MaxCells && forall k :: 0 <= k < MaxCells ==> Drawable(states[k])
    ensures AsWrittenLoopContinues(states, MaxCells)
  {
    assert states[..MaxCells] == states;
    DrawCellsMeaning(states);
  }

  /**
   * A recalculated comb with a painter draws all seven cells: each one is the
   * point-up hexagon of the cell size at its laid-out position, in the cell's
   * own colour.
   */
  lemma LaidOutCombDrawsEveryCell(states: seq<CellState>, p: Point, cellSize: real)
    requires |states| == MaxCells
    requires 0.0 < cellSize && forall k :: 0 <= k < MaxCells ==> !IsNull(Layout(p, cellSize)[k])
    ensures CombRender(true, cellSize, Recalc(states, p, cellSize)).0
    ensures CombRender(true, cellSize, Recalc(states, p, cellSize)).1 ==
      seq(MaxCells, k requires 0 <= k < MaxCells =>
        Drawing(HexVertices(Layout(p, cellSize)[k], cellSize), CellFill(states[k].color)))
  {
    var laid := Recalc(states, p, cellSize);
    RecalcLastWins(states, p, cellSize, p, cellSize);
    DrawCellsMeaning(laid);
    var drawn := DrawCells(laid).1;
    forall k | 0 <= k < MaxCells
      ensures drawn[k] == Drawing(HexVertices(Layout(p, cellSize)[k], cellSize), CellFill(states[k].color))
    {
      assert Render(true, laid[k]) == Some(drawn[k]);
    }
  }

  /** A pixel at least half a size away from a centre along an axis misses. */
  lemma FarPixelMisses(c: Point, size: real, pt: PixelPoint)
    requires size / 2.0 <= pt.x as real - c.x || pt.x as real - c.x <= -size / 2.0 ||
             size / 2.0 <= pt.y as real - c.y || pt.y as real - c.y <= -size / 2.0
    ensures !InInscribedCircle(c, size, pt)
  {
    if InInscribedCircle(c, size, pt) {
      HitWithinHorizontalExtent(c, size, pt);
      HitWithinVerticalExtent(c, size, pt);
    }
  }

  /**
   * In a laid-out comb whose position is a pixel, that pixel hits the centre
   * cell and none of the six ring cells.
   */
  lemma CentrePixelHitsOnlyCentreCell(pt: PixelPoint, cellSize: real)
    requires !IsNullPixel(pt) && 0.0 < cellSize
    ensures InInscribedCircle(Layout(PixelCentre(pt), cellSize)[0], cellSize, pt)
    ensures forall k :: 1 <= k < MaxCells ==>
      !InInscribedCircle(Layout(PixelCentre(pt), cellSize)[k], cellSize, pt)
  {
    var p := PixelCentre(pt);
    CentreHits(p, cellSize, pt);
    LayoutSpread(p, cellSize);
    forall k | 1 <= k < MaxCells
      ensures !InInscribedCircle(Layout(p, cellSize)[k], cellSize, pt)
    {
      FarPixelMisses(Layout(p, cellSize)[k], cellSize, pt);
    }
  }

  /**
   * Neighbouring hit regions overlap: in the demo comb at (384, 384) with cell
   * size 256, the pixel (494, 384) hits both the centre cell and the right
   * cell.
   */
  lemma NeighbourHitRegionsOverlap()
    ensures InInscribedCircle(Layout(Point(384.0, 384.0), 256.0)[0], 256.0, PixelPoint(494, 384))
    ensures InInscribedCircle(Layout(Point(384.0, 384.0), 256.0)[1], 256.0, PixelPoint(494, 384))
  {
    CombSteps(256.0);
  }

  class Honeycomb {
    var cellSize: real
    var position: Point
    /** The seven cells, centre first; the array itself is never replaced. */
    const cells: array<Cell>
    ghost const Repr: set<Cell>

    /** Seven distinct cells, which make up the footprint Repr. */
    ghost predicate Valid()
      reads this, cells
    {
      cells.Length == MaxCells &&
      (forall i, j :: 0 <= i < j < MaxCells ==> cells[i] != cells[j]) &&
      Repr == {cells[0], cells[1], cells[2], cells[3], cells[4], cells[5], cells[6]}
    }

    /** The states of the seven cells, centre first. */
    ghost function States(): (s: seq<CellState>)
      reads this, cells, Repr
      requires Valid()
      ensures |s| == MaxCells
    {
      [cells[0].State(), cells[1].State(), cells[2].State(), cells[3].State(),
       cells[4].State(), cells[5].State(), cells[6].State()]
    }

    /** The cell array of CHoneyComb(): seven distinct fresh cells in their default state. */
    static method NewCells() returns (a: array<Cell>)
      ensures fresh(a) && a.Length == MaxCells
      ensures forall i, j :: 0 <= i < j < MaxCells ==> a[i] != a[j]
      ensures forall i :: 0 <= i < MaxCells ==> fresh(a[i]) && a[i].State() == DefaultState
    {
      var c0 := new Cell();
      var c1 := new Cell();
      var c2 := new Cell();
      var c3 := new Cell();
      var c4 := new Cell();
      var c5 := new Cell();
      var c6 := new Cell();
      ghost var cs := [c0, c1, c2, c3, c4, c5, c6];
      assert forall i :: 0 <= i < MaxCells ==> cs[i].State() == DefaultState;
      a := new Cell[] [c0, c1, c2, c3, c4, c5, c6];
      assert a[..] == cs;
    }

    /** CHoneyComb(): size 0, the null position and seven default cells. */
    constructor ()
      ensures Valid() && fresh(Repr)
      ensures cellSize == 0.0 && position == Point(0.0, 0.0)
      ensures States() == seq(MaxCells, _ => DefaultState)
    {
      cellSize := 0.0;
      position := Point(0.0, 0.0);
      var a := NewCells();
      cells := a;
      Repr := {a[0], a[1], a[2], a[3], a[4], a[5], a[6]};
    }

    /** operator[]: the cell at an index, or the last cell for any index past the end. */
    function At(i: nat): (c: Cell)
      reads this, cells
      requires Valid()
      ensures c in Repr
      ensures i < MaxCells ==> c == cells[i]
      ensures MaxCells <= i ==> c == cells[MaxCells - 1]
    {
      if i < MaxCells then cells[i] else cells[MaxCells - 1]
    }

    /** IsInitialized: the cell array always exists here, so this is a positive cell size. */
    predicate IsInitialized()
      reads this
    {
      0.0 < cellSize
    }

    /**
     * One step of RecalcPositions: SetSize then SetPosition on cell k, which
     * extends the recalculated prefix of the cells by one.
     */
    method ResizeAndPlace(k: nat, p: Point, ghost s0: seq<CellState>)
      requires Valid() && k < MaxCells && |s0| == MaxCells && 0.0 < cellSize
      requires p == Layout(position, cellSize)[k]
      requires States() == RecalcPrefix(s0, position, cellSize, k)
      modifies cells[k]
      ensures Valid()
      ensures States() == RecalcPrefix(s0, position, cellSize, k + 1)
    {
      ghost var before := States();
      cells[k].SetSize(cellSize);
      cells[k].SetPosition(p);
      assert States() == before[k := Placed(Resized(before[k], cellSize), p)];
    }

    /**
     * RecalcPositions: for an initialised comb, walk a pen point from the
     * comb's position around the ring and give each cell the cell size and
     * its position.
     */
    method RecalcPositions()
      requires Valid()
      modifies Repr
      ensures Valid()
      ensures States() == Recalc(old(States()), position, cellSize)
      ensures !IsInitialized() ==> States() == old(States())
    {
      if IsInitialized() {
        var combSize := cellSize * CellCombRatio;
        var halfWidth := combSize / 2.0;
        var x := position.x;
        var y := position.y;
        ghost var s0 := States();
        RatioSteps(combSize);
        RecalcPrefixEnds(s0, position, cellSize);

        // Centre cell.
        ResizeAndPlace(0, Point(x, y), s0);

        // Right cell.
        x := x + halfWidth;
        ResizeAndPlace(1, Point(x, y), s0);

        // Bottom-right cell.
        x := x - halfWidth / 2.0;
        y := y + (combSize * HexLongShort) * HexHalfWidth;
        ResizeAndPlace(2, Point(x, y), s0);

        // Bottom-left cell.
        x := x - halfWidth;
        ResizeAndPlace(3, Point(x, y), s0);

        // Left cell.
        x := x - halfWidth / 2.0;
        y := y - (combSize * HexLongShort) * HexHalfWidth;
        ResizeAndPlace(4, Point(x, y), s0);

        // Top-left cell.
        x := x + halfWidth / 2.0;
        y := y - (combSize * HexLongShort) * HexHalfWidth;
        ResizeAndPlace(5, Point(x, y), s0);

        // Top-right cell.
        x := x + halfWidth;
        ResizeAndPlace(6, Point(x, y), s0);
      }
    }

    /** SetCellSize: store the size, then recalculate the layout. */
    method SetCellSize(newSize: real)
      requires Valid()
      modifies this, Repr
      ensures Valid()
      ensures cellSize == newSize && position == old(position)
      ensures States() == Recalc(old(States()), position, newSize)
    {
      cellSize := newSize;
      RecalcPositions();
    }

    /** SetPosition: store the position (even the null point), then recalculate the layout. */
    method SetPosition(newPosition: Point)
      requires Valid()
      modifies this, Repr
      ensures Valid()
      ensures position == newPosition && cellSize == old(cellSize)
      ensures States() == Recalc(old(States()), newPosition, cellSize)
    {
      position := newPosition;
      RecalcPositions();
    }

    /**
     * Draw: with a painter and an initialised comb, draw the cells in order
     * and stop at the first one that fails; report success otherwise.
     */
    method Draw(hasPainter: bool := false) returns (ok: bool, drawn: seq<Drawing>)
      requires Valid()
      ensures (ok, drawn) == CombRender(hasPainter, cellSize, States())
      ensures !(hasPainter && IsInitialized()) ==> ok && drawn == []
      ensures hasPainter && IsInitialized() ==>
        (ok <==> forall k :: 0 <= k < MaxCells ==> Drawable(States()[k]))
      ensures ok && hasPainter && IsInitialized() ==>
        |drawn| == MaxCells && forall k :: 0 <= k < MaxCells ==> Render(true, States()[k]) == Some(drawn[k])
    {
      ok := true;
      drawn := [];
      if hasPainter && IsInitialized() {
        ghost var s := States();
        var i := 0;
        while i < MaxCells && ok
          invariant 0 <= i <= MaxCells
          invariant (ok, drawn) == DrawCells(s[..i])
        {
          var r := cells[i].Draw(hasPainter);
          assert s[i] == cells[i].State();
          assert s[..i + 1][..i] == s[..i];
          ok := r.Some?;
          if ok {
            drawn := drawn + [r.value];
          }
          i := i + 1;
        }
        DrawCellsMeaning(s);
        if i < MaxCells {
          FailureSticks(s, i);
        } else {
          assert s[..i] == s;
        }
      }
    }
  }
}
