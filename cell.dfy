/**
 * One honeycomb cell (CCell in src/honeycomb.cpp): a size, a centre position
 * and a fill colour, updated in place by its setters, drawn as a point-up
 * hexagon and hit-tested against its inscribed circle.
 *
 * The state of a cell is also given as a value, CellState, so that the
 * honeycomb can state what its operations do to all seven cells at once.
 */
module Cells {
  import opened Wrappers
  import opened HexConfig
  import opened Hexagon

  /** The three fields of a cell as a value. */
  datatype CellState = CellState(size: real, position: Point, color: CellColor)

  /** A default-constructed cell: size 0, the null position, white. */
  const DefaultState: CellState := CellState(0.0, Point(0.0, 0.0), White)

  /** The cell after SetSize: any size is stored, even a non-positive one. */
  function Resized(st: CellState, size: real): (r: CellState)
    ensures r.size == size && r.position == st.position && r.color == st.color
  {
    st.(size := size)
  }

  /**
   * The cell after SetPosition or SetCenter: the null point is ignored, any
   * other point becomes the new centre.
   */
  function Placed(st: CellState, p: Point): (r: CellState)
    ensures r.size == st.size && r.color == st.color
    ensures r.position == (if IsNull(p) then st.position else p)
  {
    if IsNull(p) then st else st.(position := p)
  }

  /** The cell after SetColor. */
  function Recoloured(st: CellState, c: CellColor): (r: CellState)
    ensures r.size == st.size && r.position == st.position && r.color == c
  {
    st.(color := c)
  }

  /** Whether the cell draws at all. */
  predicate Drawable(st: CellState) {
    !IsNull(st.position) && 0.0 < st.size
  }

  /**
   * What Draw hands to the painter: nothing when there is no painter or the
   * geometry is invalid (null position or non-positive size), otherwise the
   * six vertices and the fill of the cell's colour.
   */
  function Render(hasPainter: bool, st: CellState): (r: Option<Drawing>)
    ensures r.Some? ==> |r.value.vertices| == NumHexVerts
    ensures r.Some? ==> r.value.vertices[0] == Point(st.position.x, st.position.y - st.size / 2.0)
  {
    if hasPainter && Drawable(st) then
      Some(Drawing(HexVertices(st.position, st.size), CellFill(st.color)))
    else
      None
  }

  /**
   * A cell draws exactly when there is a painter and its geometry is valid,
   * and then it draws a point-up hexagon of its size centred on its position
   * (the vertices average to the centre) in the fill of its colour, which
   * determines the colour.
   */
  lemma RenderMeaning(hasPainter: bool, st: CellState)
    ensures Render(hasPainter, st).Some? <==> hasPainter && Drawable(st)
    ensures Render(hasPainter, st).Some? ==>
      var d := Render(hasPainter, st).value;
      |d.vertices| == NumHexVerts &&
      SumPoints(d.vertices) == Point(6.0 * st.position.x, 6.0 * st.position.y) &&
      d.vertices[3].y - d.vertices[0].y == st.size &&
      (forall k :: 1 <= k < NumHexVerts ==> d.vertices[0].y < d.vertices[k].y) &&
      d.fill == CellFill(st.color) &&
      (forall c: CellColor :: d.fill == CellFill(c) ==> c == st.color)
  {
    if hasPainter && Drawable(st) {
      HexCentroidIsCentre(st.position, st.size);
      HexPointUp(st.position, st.size);
      forall c: CellColor | CellFill(c) == CellFill(st.color) {
        CellFillInjective(c, st.color);
      }
    }
  }

  /** Setting a position twice is the same as setting it once. */
  lemma PlacedIdempotent(st: CellState, p: Point)
    ensures Placed(Placed(st, p), p) == Placed(st, p)
  {
  }

  /** Once a cell has a position, no call of SetPosition makes it null again. */
  lemma PlacedKeepsNonNull(st: CellState, p: Point)
    requires !IsNull(st.position)
    ensures !IsNull(Placed(st, p).position)
  {
  }

  /**
   * The three setters act on separate fields: a size change and a position
   * change commute, and so do a colour change and either of them.
   */
  lemma SettersCommute(st: CellState, size: real, p: Point, c: CellColor)
    ensures Placed(Resized(st, size), p) == Resized(Placed(st, p), size)
    ensures Recoloured(Resized(st, size), c) == Resized(Recoloured(st, c), size)
    ensures Recoloured(Placed(st, p), c) == Placed(Recoloured(st, c), p)
  {
  }

  class Cell {
    var size: real
    var position: Point
    var color: CellColor

    /** The three fields as a value. */
    function State(): CellState
      reads this
    {
      CellState(size, position, color)
    }

    /** CCell(): size 0, the null position, white. */
    constructor ()
      ensures State() == DefaultState
    {
      size := 0.0;
      position := Point(0.0, 0.0);
      color := White;
    }

    /** CCell(const CCell&): a copy of the other cell's fields. */
    constructor Copy(other: Cell)
      ensures State() == other.State()
    {
      size := other.size;
      position := other.position;
      color := other.color;
    }

    /** operator=: take the other cell's fields; assigning a cell to itself changes nothing. */
    method Assign(other: Cell)
      modifies this
      ensures State() == old(other.State())
    {
      if this != other {
        size := other.size;
        position := other.position;
        color := other.color;
      }
    }

    method SetSize(newSize: real)
      modifies this
      ensures State() == Resized(old(State()), newSize)
    {
      size := newSize;
    }

    /** SetCenter: the same update as SetPosition. */
    method SetCenter(center: Point)
      modifies this
      ensures State() == Placed(old(State()), center)
    {
      if !IsNull(center) {
        position := center;
      }
    }

    method SetPosition(newPosition: Point)
      modifies this
      ensures State() == Placed(old(State()), newPosition)
    {
      if !IsNull(newPosition) {
        position := newPosition;
      }
    }

    /** SetColor, whose argument defaults to white. */
    method SetColor(c: CellColor := White)
      modifies this
      ensures State() == Recoloured(old(State()), c)
    {
      color := c;
    }

    /**
     * Draw: with a painter and valid geometry, walk the outline clockwise from
     * the top vertex, moving a pen point by the hexagon's ratios, and fill it
     * with the cell's colour.
     */
    method Draw(hasPainter: bool := false) returns (r: Option<Drawing>)
      ensures r == Render(hasPainter, State())
    {
      if !hasPainter {
        return None;
      }
      if IsNull(position) || !(size > 0.0) {
        return None;
      }
      var halfHeight := size / 2.0;
      var pts := new Point[NumHexVerts](_ => Point(0.0, 0.0));

      var x := position.x;
      var y := position.y - halfHeight;
      pts[0] := Point(x, y);

      // Top-right vertex.
      x := x + (size * HexLongShort) * HexHalfWidth;
      y := y + size * HexShortStart;
      pts[1] := Point(x, y);

      // Bottom-right vertex.
      y := y + size * HexLongShort;
      pts[2] := Point(x, y);

      // Bottom vertex.
      x := x - (size * HexLongShort) * HexHalfWidth;
      y := y + size * HexShortStart;
      pts[3] := Point(x, y);

      // Bottom-left vertex.
      x := x - (size * HexLongShort) * HexHalfWidth;
      y := y - size * HexShortStart;
      pts[4] := Point(x, y);

      // Top-left vertex.
      y := y - size * HexLongShort;
      pts[5] := Point(x, y);

      RatioSteps(size);
      assert pts[..] == HexVertices(position, size);
      r := Some(Drawing(pts[..], CellFill(color)));
    }

    /**
     * PointInHex: whether a pixel lies strictly inside the circle inscribed in
     * the cell. A hit is never the null pixel, needs a positive size, and lies
     * strictly between the top and bottom vertices.
     */
    function PointInHex(pt: PixelPoint): (hit: bool)
      reads this
      ensures hit ==> !IsNullPixel(pt) && 0.0 < size
      ensures hit ==> position.y - size / 2.0 < pt.y as real < position.y + size / 2.0
    {
      var hit := InInscribedCircle(position, size, pt);
      if hit then
        HitWithinVerticalExtent(position, size, pt);
        hit
      else
        hit
    }
  }
}
