/**
 * The geometry of one honeycomb cell (the pure computations of CCell in
 * src/honeycomb.cpp): its six vertices, its fill colour and its hit test.
 *
 * Coordinates are reals; the source's single-precision rounding is not
 * modelled.
 */
module Hexagon {
  import opened HexConfig

  /** A point with real coordinates (QPointF). */
  datatype Point = Point(x: real, y: real)

  /** A point with integer coordinates, as passed to the hit test (QPoint). */
  datatype PixelPoint = PixelPoint(x: int, y: int)

  /** The pixel as a real point. */
  function PixelCentre(pt: PixelPoint): Point {
    Point(pt.x as real, pt.y as real)
  }

  /** The origin doubles as the "no position" sentinel (isNull, taken as exact). */
  predicate IsNull(p: Point) {
    p.x == 0.0 && p.y == 0.0
  }

  predicate IsNullPixel(p: PixelPoint) {
    p.x == 0 && p.y == 0
  }

  /** An RGB triple as given to QColor. */
  datatype Rgb = Rgb(red: int, green: int, blue: int)

  /** What one successful cell draw hands to the painter: the polygon and its fill. */
  datatype Drawing = Drawing(vertices: seq<Point>, fill: Rgb)

  /** Horizontal distance from the centre to the side vertices. */
  function HalfWidth(size: real): real {
    size * HexLongShort * HexHalfWidth
  }

  /**
   * The six vertices of a point-up cell, clockwise from the top, in closed
   * form: top, top-right, bottom-right, bottom, bottom-left, top-left.
   */
  function HexVertices(c: Point, size: real): (vs: seq<Point>)
    ensures |vs| == NumHexVerts
  {
    var w := HalfWidth(size);
    [ Point(c.x, c.y - size / 2.0),
      Point(c.x + w, c.y - size / 4.0),
      Point(c.x + w, c.y + size / 4.0),
      Point(c.x, c.y + size / 2.0),
      Point(c.x - w, c.y + size / 4.0),
      Point(c.x - w, c.y - size / 4.0) ]
  }

  /** The ratio steps the source moves by, in closed form. */
  lemma RatioSteps(size: real)
    ensures size * HexShortStart == size / 4.0
    ensures size * HexLongShort == size / 2.0
    ensures (size * HexLongShort) * HexHalfWidth == HalfWidth(size)
  {
  }

  function SumPoints(ps: seq<Point>): Point {
    if ps == [] then Point(0.0, 0.0)
    else
      var rest := SumPoints(ps[1..]);
      Point(ps[0].x + rest.x, ps[0].y + rest.y)
  }

  /** Two points are mirror images across the vertical line x = cx. */
  predicate MirroredAcross(cx: real, a: Point, b: Point) {
    a.y == b.y && a.x + b.x == 2.0 * cx
  }

  /**
   * The vertices are symmetric about the vertical line through the centre:
   * top and bottom lie on it, and the right-hand vertices mirror the
   * left-hand ones.
   */
  lemma HexMirrorSymmetric(c: Point, size: real)
    ensures HexVertices(c, size)[0].x == c.x && HexVertices(c, size)[3].x == c.x
    ensures MirroredAcross(c.x, HexVertices(c, size)[1], HexVertices(c, size)[5])
    ensures MirroredAcross(c.x, HexVertices(c, size)[2], HexVertices(c, size)[4])
  {
  }

  /** Opposite vertices are reflections of each other through the centre. */
  lemma HexCentrallySymmetric(c: Point, size: real)
    ensures forall k :: 0 <= k < NumHexVerts / 2 ==>
      HexVertices(c, size)[k].x + HexVertices(c, size)[k + NumHexVerts / 2].x == 2.0 * c.x &&
      HexVertices(c, size)[k].y + HexVertices(c, size)[k + NumHexVerts / 2].y == 2.0 * c.y
  {
  }

  /** The mean of the six vertices is the centre. */
  lemma HexCentroidIsCentre(c: Point, size: real)
    ensures SumPoints(HexVertices(c, size)) == Point(6.0 * c.x, 6.0 * c.y)
  {
    var vs := HexVertices(c, size);
    assert SumPoints(vs[6..]) == Point(0.0, 0.0);
    assert vs[5..][1..] == vs[6..];
    assert vs[4..][1..] == vs[5..];
    assert vs[3..][1..] == vs[4..];
    assert vs[2..][1..] == vs[3..];
    assert vs[1..][1..] == vs[2..];
    assert SumPoints(vs[5..]) == vs[5];
    assert SumPoints(vs[4..]) == Point(vs[4].x + vs[5].x, vs[4].y + vs[5].y);
    assert SumPoints(vs[3..]) == Point(vs[3].x + vs[4].x + vs[5].x, vs[3].y + vs[4].y + vs[5].y);
    assert SumPoints(vs[2..]) == Point(vs[2].x + vs[3].x + vs[4].x + vs[5].x, vs[2].y + vs[3].y + vs[4].y + vs[5].y);
    assert SumPoints(vs[1..]) == Point(vs[1].x + vs[2].x + vs[3].x + vs[4].x + vs[5].x,
                                       vs[1].y + vs[2].y + vs[3].y + vs[4].y + vs[5].y);
  }

  /**
   * For a positive size the cell is point-up: the first vertex is the unique
   * top, the fourth the unique bottom, the height is the size and every
   * vertex lies within the half-width, which is less than half the height.
   */
  lemma HexPointUp(c: Point, size: real)
    requires 0.0 < size
    ensures forall k :: 1 <= k < NumHexVerts ==> HexVertices(c, size)[0].y < HexVertices(c, size)[k].y
    ensures forall k :: 0 <= k < NumHexVerts && k != 3 ==> HexVertices(c, size)[k].y < HexVertices(c, size)[3].y
    ensures HexVertices(c, size)[3].y - HexVertices(c, size)[0].y == size
    ensures forall k :: 0 <= k < NumHexVerts ==>
      c.x - HalfWidth(size) <= HexVertices(c, size)[k].x <= c.x + HalfWidth(size)
    ensures 0.0 < 2.0 * HalfWidth(size) < size
  {
  }

  /**
   * The fill colour for the underlying integer of an ECellColors value: the
   * listed triple for each of the eleven enumerators and white for any other
   * integer.
   */
  function FillColor(code: int): (rgb: Rgb)
    ensures 0 <= rgb.red < 256 && 0 <= rgb.green < 256 && 0 <= rgb.blue < 256
    ensures !(0 <= code < ColorCount) ==> rgb == Rgb(255, 255, 255)
  {
    if code == 0 then Rgb(255, 255, 255)
    else if code == 1 then Rgb(255, 0, 0)
    else if code == 2 then Rgb(255, 175, 0)
    else if code == 3 then Rgb(255, 255, 0)
    else if code == 4 then Rgb(175, 255, 0)
    else if code == 5 then Rgb(0, 175, 0)
    else if code == 6 then Rgb(0, 255, 255)
    else if code == 7 then Rgb(0, 0, 255)
    else if code == 8 then Rgb(125, 0, 255)
    else if code == 9 then Rgb(255, 0, 255)
    else if code == 10 then Rgb(255, 0, 125)
    else Rgb(255, 255, 255)
  }

  /** The fill of a cell of the given colour. */
  function CellFill(c: CellColor): (rgb: Rgb)
    ensures rgb == Rgb(255, 255, 255) <==> c == White
  {
    FillColor(Ordinal(c))
  }

  /** No two palette colours are filled alike, so the fill identifies the colour. */
  lemma CellFillInjective(a: CellColor, b: CellColor)
    ensures CellFill(a) == CellFill(b) ==> a == b
  {
  }

  /** Squared Euclidean distance from a centre to a pixel. */
  function DistanceSquared(c: Point, pt: PixelPoint): real {
    var dx := pt.x as real - c.x;
    var dy := pt.y as real - c.y;
    dx * dx + dy * dy
  }

  /**
   * The hit test, on squared distances: the pixel is not the null point, the
   * size is positive, and the pixel is closer to the centre than the radius
   * of the inscribed circle, (sqrt 3 / 2) * (size / 2), whose square is
   * 3 * size^2 / 16.
   */
  predicate InInscribedCircle(c: Point, size: real, pt: PixelPoint)
    ensures InInscribedCircle(c, size, pt) ==> 4.0 * DistanceSquared(c, pt) < size * size
  {
    !IsNullPixel(pt) && 0.0 < size && 16.0 * DistanceSquared(c, pt) < 3.0 * (size * size)
  }

  /**
   * The squared form agrees with the source's comparison of a square-rooted
   * distance against a signed radius: given any radius with the square and
   * sign of (sqrt 3 / 2) * (size / 2) and the non-negative root of the squared
   * distance, the hit test holds exactly when the pixel is not null, the size
   * is positive and the distance is strictly below the radius.
   */
  lemma HitTestMatchesRootedComparison(c: Point, size: real, pt: PixelPoint, radius: real, dist: real)
    requires 16.0 * (radius * radius) == 3.0 * (size * size)
    requires (0.0 < radius <==> 0.0 < size) && (radius < 0.0 <==> size < 0.0)
    requires 0.0 <= dist && dist * dist == DistanceSquared(c, pt)
    ensures InInscribedCircle(c, size, pt) <==> !IsNullPixel(pt) && dist < radius
  {
    CompareViaRoots(DistanceSquared(c, pt), size, radius, dist);
  }

  /**
   * Every non-null pixel within a quarter of the size of the centre along
   * both axes hits: the hit region contains that square.
   */
  lemma NearCentreHits(c: Point, size: real, pt: PixelPoint)
    requires !IsNullPixel(pt) && 0.0 < size
    requires -size / 4.0 < pt.x as real - c.x < size / 4.0
    requires -size / 4.0 < pt.y as real - c.y < size / 4.0
    ensures InInscribedCircle(c, size, pt)
  {
    NearHitsArith(pt.x as real - c.x, pt.y as real - c.y, size);
  }

  /** A pixel exactly at the centre hits a cell of positive size, unless it is the null pixel. */
  lemma CentreHits(c: Point, size: real, pt: PixelPoint)
    requires c == PixelCentre(pt) && !IsNullPixel(pt) && 0.0 < size
    ensures InInscribedCircle(c, size, pt)
  {
    NearCentreHits(c, size, pt);
  }

  /** Every hit lies strictly between the top and bottom vertices. */
  lemma HitWithinVerticalExtent(c: Point, size: real, pt: PixelPoint)
    requires InInscribedCircle(c, size, pt)
    ensures HexVertices(c, size)[0].y < pt.y as real < HexVertices(c, size)[3].y
  {
    AxisBound(pt.x as real - c.x, pt.y as real - c.y, size);
  }

  /** Every hit lies strictly between the left and right extremes of width size. */
  lemma HitWithinHorizontalExtent(c: Point, size: real, pt: PixelPoint)
    requires InInscribedCircle(c, size, pt)
    ensures c.x - size / 2.0 < pt.x as real < c.x + size / 2.0
  {
    AxisBound(pt.y as real - c.y, pt.x as real - c.x, size);
  }

  // Arithmetic on reals used by the hit-test lemmas. Each step is kept to one
  // product fact; bounds are kept strict.

  lemma ProductPositive(a: real, b: real)
    requires 0.0 < a && 0.0 < b
    ensures 0.0 < a * b
  {
  }

  lemma ProductNonNegative(a: real, b: real)
    requires 0.0 <= a && 0.0 <= b
    ensures 0.0 <= a * b
  {
  }

  lemma SquareNonNegative(a: real)
    ensures 0.0 <= a * a
  {
  }

  lemma DifferenceOfSquares(a: real, b: real)
    ensures b * b - a * a == (b - a) * (b + a)
  {
  }

  lemma HalfSquare(s: real)
    ensures (s / 2.0) * (s / 2.0) == (s * s) / 4.0
  {
  }

  lemma NegatedSquare(a: real)
    ensures (-a) * (-a) == a * a
  {
  }

  lemma QuarterSquare(s: real)
    ensures 16.0 * ((s / 4.0) * (s / 4.0)) == s * s
  {
  }

  lemma SquareStrictlyMonotone(a: real, b: real)
    requires 0.0 <= a < b
    ensures a * a < b * b
  {
    DifferenceOfSquares(a, b);
    ProductPositive(b - a, b + a);
  }

  lemma SquareMonotone(a: real, b: real)
    requires 0.0 <= a <= b
    ensures a * a <= b * b
  {
    DifferenceOfSquares(a, b);
    ProductNonNegative(b - a, b + a);
  }

  lemma LessIffSquareLess(a: real, b: real)
    requires 0.0 <= a && 0.0 <= b
    ensures a < b <==> a * a < b * b
  {
    if a < b {
      SquareStrictlyMonotone(a, b);
    } else {
      SquareMonotone(b, a);
    }
  }

  lemma CompareViaRoots(d2: real, size: real, radius: real, dist: real)
    requires 16.0 * (radius * radius) == 3.0 * (size * size)
    requires (0.0 < radius <==> 0.0 < size) && (radius < 0.0 <==> size < 0.0)
    requires 0.0 <= dist && dist * dist == d2
    ensures (0.0 < size && 16.0 * d2 < 3.0 * (size * size)) <==> dist < radius
  {
    if 0.0 < size {
      LessIffSquareLess(dist, radius);
    }
  }

  lemma SquareBelow(d: real, q: real)
    requires -q < d < q
    ensures d * d < q * q
  {
    if d < 0.0 {
      SquareStrictlyMonotone(-d, q);
      NegatedSquare(d);
    } else {
      SquareStrictlyMonotone(d, q);
    }
  }

  lemma NearHitsArith(dx: real, dy: real, size: real)
    requires 0.0 < size
    requires -size / 4.0 < dx < size / 4.0 && -size / 4.0 < dy < size / 4.0
    ensures 16.0 * (dx * dx + dy * dy) < 3.0 * (size * size)
  {
    SquareBelow(dx, size / 4.0);
    SquareBelow(dy, size / 4.0);
    QuarterSquare(size);
    ProductPositive(size, size);
  }

  lemma AxisBound(dx: real, dy: real, size: real)
    requires 0.0 < size && 16.0 * (dx * dx + dy * dy) < 3.0 * (size * size)
    ensures -size / 2.0 < dy < size / 2.0
  {
    SquareNonNegative(dx);
    HalfSquare(size);
    if size / 2.0 <= dy {
      SquareMonotone(size / 2.0, dy);
    } else if dy <= -size / 2.0 {
      SquareMonotone(size / 2.0, -dy);
    }
  }

  /**
   * With the 0.864 half-width ratio the inscribed circle is slightly wider
   * than the polygon: a pixel to the right of every vertex still hits.
   */
  lemma HitCircleReachesPastSides()
    ensures InInscribedCircle(Point(1000.0, 1000.0), 1000.0, PixelPoint(1433, 1000))
    ensures forall k :: 0 <= k < NumHexVerts ==>
      HexVertices(Point(1000.0, 1000.0), 1000.0)[k].x < 1433.0
  {
  }
}
