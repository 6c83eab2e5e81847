/**
 * The constants and the colour enumeration declared in include/honeycomb.h.
 *
 * The ratios are the empirical values read off the hexagon and honeycomb
 * dissection diagrams; they are deliberately not exact regular-hexagon
 * trigonometry.
 */
module HexConfig {
  import opened Wrappers

  /** Number of vertices of one hexagon (NUM_HEX_VERTS). */
  const NumHexVerts: nat := 6

  /** A honeycomb has one cell per hexagon vertex plus the centre cell (c_iMaxCells). */
  const MaxCells: nat := NumHexVerts + 1

  /** "long-leg" : "short-leg" (HEX_LONG_SHORT). */
  const HexLongShort: real := 1.0 / 2.0

  /** "long-leg" : "short-start" (HEX_SHORT_START). */
  const HexShortStart: real := 1.0 / 4.0

  /** "half-width" : "short-leg" (HEX_HALF_WIDTH). */
  const HexHalfWidth: real := 0.864 / 1.0

  /** Span of a whole honeycomb relative to one cell (c_nCellCombRatio). */
  const CellCombRatio: real := 1.71875

  /** The closed palette ECellColors, in declaration order. */
  datatype CellColor =
    | White | Red | Orange | Yellow | Lime | Green
    | Cyan | Blue | Purple | Magenta | Pink

  /** Number of enumerators of ECellColors. */
  const ColorCount: nat := 11

  /** The underlying integer of an enumerator: its position in the declaration. */
  function Ordinal(c: CellColor): (n: nat)
    ensures n < ColorCount
    ensures n == 0 <==> c == White
  {
    match c
    case White => 0
    case Red => 1
    case Orange => 2
    case Yellow => 3
    case Lime => 4
    case Green => 5
    case Cyan => 6
    case Blue => 7
    case Purple => 8
    case Magenta => 9
    case Pink => 10
  }

  /** The enumerator with a given underlying integer, if there is one. */
  function FromOrdinal(n: int): (r: Option<CellColor>)
    ensures r.Some? <==> 0 <= n < ColorCount
  {
    if n == 0 then Some(White)
    else if n == 1 then Some(Red)
    else if n == 2 then Some(Orange)
    else if n == 3 then Some(Yellow)
    else if n == 4 then Some(Lime)
    else if n == 5 then Some(Green)
    else if n == 6 then Some(Cyan)
    else if n == 7 then Some(Blue)
    else if n == 8 then Some(Purple)
    else if n == 9 then Some(Magenta)
    else if n == 10 then Some(Pink)
    else None
  }

  /** Every enumerator is recovered from its integer. */
  lemma OrdinalRoundTrip(c: CellColor)
    ensures FromOrdinal(Ordinal(c)) == Some(c)
  {
  }

  /** Every integer in range names exactly one enumerator: the enum has exactly 11 values. */
  lemma FromOrdinalRoundTrip(n: int)
    requires 0 <= n < ColorCount
    ensures FromOrdinal(n).Some? && Ordinal(FromOrdinal(n).value) == n
  {
  }

  /** The hexagon ratios, written as the fractions they stand for. */
  lemma HexRatios()
    ensures HexLongShort == 0.5 && HexShortStart == 0.25 && HexHalfWidth == 0.864
  {
  }

  /** A honeycomb has seven cells, and its span is 220/128 of a cell. */
  lemma CombConstants()
    ensures MaxCells == 7
    ensures CellCombRatio == 220.0 / 128.0
  {
  }
}
