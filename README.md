# Honeycomb cells and combs

A Dafny model of the honeycomb drawing core of `honeycomb_test`: the
hexagonal cell `CCell` and the seven-cell comb `CHoneyComb` in
`src/honeycomb.cpp`, with the counts, ratios and colour enumeration of
`include/honeycomb.h`.

- `hexconfig.dfy` (module `HexConfig`): `NUM_HEX_VERTS`, `c_iMaxCells`, the
  `HEX_*` ratio macros, `c_nCellCombRatio` and the `ECellColors` enumeration.
- `hexagon.dfy` (module `Hexagon`): the pure geometry of one cell. This covers
  the six vertices in closed form and their symmetries, the colour-to-RGB
  switch, and the inscribed-circle hit test stated on squared distances.
- `cell.dfy` (module `Cells`): `CCell` as the class `Cell`. Its fields size,
  position and colour are updated in place by the setters and `Assign`
  (`operator=`). `Draw` builds the vertex array by moving a pen point step by
  step, as the source does. It is proved to produce the closed-form
  vertices. The cell state as a value, `CellState`, and the state
  transformers `Resized`, `Placed` and `Recoloured` specify those methods.
- `comb.dfy` (module `Comb`): `CHoneyComb` as the class `Honeycomb`. It holds
  an `array<Cell>` of seven distinct cells. `RecalcPositions` walks the ring
  in place and is specified by the pure `Recalc`/`Layout`. `Draw` is a loop
  over the cells, specified by `DrawCells`.
- `wrappers.dfy`: the `Option` type.

Coordinates and sizes are exact reals. A `QPointF` is a `Point` of reals. The
`QPoint` handed to the hit test is a `PixelPoint` of integers. Qt's `isNull`
is taken as exact equality with the origin. A painter is a flag
`hasPainter`: a successful cell draw returns the `Drawing` (vertices and
fill) it would hand to the painter. A comb draw returns the success flag and
the drawings, in order.

Points where the code decides the behaviour:

- `CHoneyComb::Draw` reports success when there is no painter or the comb is
  not initialised, and then draws nothing. The model follows the code
  (`Comb.CombRenderMeaning`).
- The hit test uses the circle of radius (sqrt 3 / 2)(size / 2). With the
  0.864 half-width ratio, this circle is slightly wider than the hexagon it
  is meant to sit inside: its radius is 0.4330 size, and the vertical sides
  are only 0.432 size from the centre. `Hexagon.HitCircleReachesPastSides`
  gives a pixel to the right of every vertex that still hits.
- The hit circles of neighbouring comb cells overlap
  (`Comb.NeighbourHitRegionsOverlap`): the ring step, 0.859375 size, is less
  than twice the radius.

## Model

| member | source | states |
|---|---|---|
| HexConfig.Ordinal | include/honeycomb.h:34-47 | the underlying integer of every enumerator is below eleven, and it is 0 exactly for `Cell_White` |
| HexConfig.FromOrdinal | include/honeycomb.h:34-47 | an integer names an enumerator exactly when it lies in 0..10 |
| HexConfig.OrdinalRoundTrip | include/honeycomb.h:34-47 | every enumerator is recovered from its integer |
| HexConfig.FromOrdinalRoundTrip | include/honeycomb.h:34-47 | every integer in 0..10 names one enumerator, whose integer it is: the enumeration has exactly eleven values in declaration order |
| HexConfig.HexRatios | include/honeycomb.h:25-27 | the ratios are 1/2, 1/4 and 0.864 |
| HexConfig.CombConstants | include/honeycomb.h:108-109 | a comb has 6 + 1 = 7 cells and the comb ratio 1.71875 is exactly 220/128 |
| Hexagon.HexVertices | src/honeycomb.cpp:58-89 | a cell has NUM_HEX_VERTS vertices (their closed form is what `Cells.Cell.Draw` is proved to build) |
| Hexagon.HexMirrorSymmetric | src/honeycomb.cpp:58-89 | the top and bottom vertices lie on the vertical line through the centre, and vertices 1/5 and 2/4 are mirror images across it |
| Hexagon.HexCentrallySymmetric | src/honeycomb.cpp:58-89 | opposite vertices are reflections of each other through the centre |
| Hexagon.HexCentroidIsCentre | src/honeycomb.cpp:58-89 | the six vertices sum to six times the centre, so their mean is the centre |
| Hexagon.HexPointUp | src/honeycomb.cpp:58-89 | for a positive size the first vertex is the unique top and the fourth the unique bottom, the height is the size, and every vertex lies within a half-width that is less than half the height |
| Hexagon.FillColor | src/honeycomb.cpp:95-108 | every fill has channels in 0..255, and any integer outside the enumeration falls to the default white |
| Hexagon.CellFill | src/honeycomb.cpp:95-108 | the fill of a cell's colour through the enumeration's integer; only white gets the white fill, and `Hexagon.CellFillInjective` shows that the fill identifies the colour |
| Hexagon.CellFillInjective | src/honeycomb.cpp:95-107 | no two colours share a fill |
| Hexagon.InInscribedCircle | src/honeycomb.cpp:130-143 | the hit condition on squared distances: a hit is within half a size of the centre, and `Hexagon.HitTestMatchesRootedComparison` shows it equals the source's square-root comparison |
| Hexagon.HitTestMatchesRootedComparison | src/honeycomb.cpp:130-143 | given a radius with the square and the sign of (sqrt 3 / 2)(size / 2) and the root of the squared distance, the squared-distance test holds exactly when the pixel is not null and the distance is below the radius |
| Hexagon.NearCentreHits | src/honeycomb.cpp:130-143 | every non-null pixel within a quarter size of the centre on both axes hits a cell of positive size |
| Hexagon.CentreHits | src/honeycomb.cpp:130-143 | the pixel at the centre hits whenever the size is positive and the pixel is not null |
| Hexagon.HitWithinVerticalExtent | src/honeycomb.cpp:130-143 | every hit lies strictly between the top and the bottom vertex |
| Hexagon.HitWithinHorizontalExtent | src/honeycomb.cpp:130-143 | every hit lies within half a size of the centre horizontally |
| Hexagon.HitCircleReachesPastSides | src/honeycomb.cpp:135-141 | a pixel to the right of every vertex of a cell still hits it |
| Cells.Resized | src/honeycomb.cpp:166-169 | SetSize stores any size and keeps position and colour |
| Cells.Placed | src/honeycomb.cpp:171-185 | SetPosition and SetCenter keep size and colour, ignore the null point and otherwise move the cell there |
| Cells.Recoloured | src/honeycomb.cpp:187-190 | SetColor replaces the colour only |
| Cells.Render | src/honeycomb.cpp:33-128 | what a cell hands to the painter: six vertices starting at the top, half a size above the centre; `Cells.RenderMeaning` states when it draws and what |
| Cells.RenderMeaning | src/honeycomb.cpp:33-128 | a cell draws exactly when there is a painter, its position is not null and its size is positive; it then draws a hexagon of its size whose first vertex is strictly above the other five, whose vertices average to its position, and whose fill is that of its colour and of no other colour |
| Cells.PlacedIdempotent | src/honeycomb.cpp:179-185 | setting the same position twice is setting it once |
| Cells.PlacedKeepsNonNull | src/honeycomb.cpp:179-185 | once a cell has a position, no SetPosition makes it null again |
| Cells.SettersCommute | src/honeycomb.cpp:166-190 | the size, position and colour setters act on separate fields and commute |
| Cells.Cell.constructor | src/honeycomb.cpp:4-7 | a new cell has size 0, the null position and white |
| Cells.Cell.Copy | src/honeycomb.cpp:9-12 | the copy has the other cell's fields |
| Cells.Cell.Assign | src/honeycomb.cpp:21-31 | after assignment the cell has the other cell's former fields, including self-assignment |
| Cells.Cell.SetSize | src/honeycomb.cpp:166-169 | the new state is the old one resized |
| Cells.Cell.SetCenter | src/honeycomb.cpp:171-177 | the new state is the old one placed at the argument, the null point ignored |
| Cells.Cell.SetPosition | src/honeycomb.cpp:179-185 | the new state is the old one placed at the argument, the null point ignored |
| Cells.Cell.SetColor | src/honeycomb.cpp:187-190 | the new state is the old one recoloured; with no argument the colour is white |
| Cells.Cell.Draw | src/honeycomb.cpp:33-128 | the outcome is the cell's render: no drawing without a painter or with invalid geometry, otherwise the six vertices from the pen walk and the fill of its colour |
| Cells.Cell.PointInHex | src/honeycomb.cpp:130-144 | a hit is never the null pixel, needs a positive size and lies strictly between the top and bottom of the cell |
| Comb.Layout | src/honeycomb.cpp:305-366 | RecalcPositions lays out one position per cell |
| Comb.LayoutIsTurnedHexagon | src/honeycomb.cpp:305-366 | the centre cell sits on the comb position and ring cell k + 1 on vertex k of the comb-sized hexagon turned a quarter turn |
| Comb.LayoutRingCentrallySymmetric | src/honeycomb.cpp:305-366 | opposite ring cells are reflections of each other through the centre cell |
| Comb.LayoutSpread | src/honeycomb.cpp:305-366 | for a positive cell size the seven positions are distinct and each ring cell is at least half a cell from the centre along an axis |
| Comb.Recalc | src/honeycomb.cpp:305-366 | recalculation keeps seven cell states |
| Comb.RecalcMeaning | src/honeycomb.cpp:305-366 | nothing changes unless the cell size is positive; then every cell gets the cell size and its laid-out position unless that is null, and colours never change |
| Comb.RecalcIdempotent | src/honeycomb.cpp:305-366 | recalculating twice with the same settings is recalculating once |
| Comb.RecalcLastWins | src/honeycomb.cpp:289-303 | with a positive size and no null laid-out position, the last SetCellSize or SetPosition decides every size and position, and only colours survive from before |
| Comb.DrawCells | src/honeycomb.cpp:255-258 | the cells drawn in order until one fails: never more drawings than cells, and one per cell on success; `Comb.DrawCellsMeaning` states when it succeeds and what it draws |
| Comb.DrawCellsMeaning | src/honeycomb.cpp:250-262 | drawing the cells in order succeeds exactly when every cell is drawable; the drawings are those of the cells before the first failure, and the cell after them is the one that failed |
| Comb.FailureSticks | src/honeycomb.cpp:255-258 | once a draw has failed, later cells are not drawn |
| Comb.CombRender | src/honeycomb.cpp:250-262 | the outcome of a comb draw: it can fail only with a painter and a positive cell size, and draws at most one hexagon per cell; `Comb.CombRenderMeaning` states the rest |
| Comb.CombRenderMeaning | src/honeycomb.cpp:250-262 | without a painter or with a non-positive cell size the comb reports success and draws nothing; otherwise it succeeds exactly when every cell is drawable, and then draws all of them |
| Comb.AsWrittenDrawRunsPastLastCell | src/honeycomb.cpp:255-258 | as written, the loop condition still holds after seven successful draws, one past the end of the cell array |
| Comb.LaidOutCombDrawsEveryCell | src/honeycomb.cpp:250-366 | a recalculated comb with a painter draws all seven cells, each the hexagon of the cell size at its laid-out position in its own colour |
| Comb.FarPixelMisses | src/honeycomb.cpp:130-143 | a pixel half a size or more from a centre along an axis misses that cell |
| Comb.CentrePixelHitsOnlyCentreCell | src/honeycomb.cpp:305-366 | in a laid-out comb the pixel at the comb position hits the centre cell and no ring cell |
| Comb.NeighbourHitRegionsOverlap | src/honeycomb.cpp:319-333 | in the comb at (384, 384) with cell size 256, pixel (494, 384) hits both the centre and the right cell |
| Comb.Honeycomb.NewCells | src/honeycomb.cpp:194-197 | the allocated cell array holds seven distinct fresh cells, each default-constructed |
| Comb.Honeycomb.constructor | src/honeycomb.cpp:194-197 | a new comb has size 0, the null position and seven distinct default cells |
| Comb.Honeycomb.At | src/honeycomb.cpp:235-243 | indexing returns cell i below seven and the last cell otherwise, always one of the comb's cells |
| Comb.Honeycomb.IsInitialized | src/honeycomb.cpp:264-272 | the gate of the comb's operations, a positive cell size (the cell array always exists in the model); its meaning is stated by the `!IsInitialized()` clause of `Comb.Honeycomb.RecalcPositions` (no cell changes) and the `IsInitialized()` clauses of `Comb.Honeycomb.Draw` (success with nothing drawn, or success exactly when every cell is drawable) |
| Comb.Honeycomb.RecalcPositions | src/honeycomb.cpp:305-366 | the pen walk leaves the cells in exactly the recalculated states, and an uninitialised comb leaves every cell as it was |
| Comb.Honeycomb.SetCellSize | src/honeycomb.cpp:289-295 | the size is stored, the position kept and the cells recalculated |
| Comb.Honeycomb.SetPosition | src/honeycomb.cpp:297-303 | the position is stored, even the null point, the size kept and the cells recalculated |
| Comb.Honeycomb.Draw | src/honeycomb.cpp:250-262 | the outcome is the comb's render: without a painter or when not initialised, success with nothing drawn; otherwise the cells drawn in order up to the first failure, success exactly when every cell is drawable, and then one drawing per cell, each that cell's render |

## Left out

- Single-precision rounding, `sqrt` and `pow`: coordinates and sizes are exact reals, and the hit test compares squared distances.
- `isNull` is exact comparison with the origin, which is how the model states it; the sign of a zero coordinate plays no part.
- The painter calls (`setPen`, `setBrush`, `drawPolygon`) and the `qCritical` messages are not modelled. A draw returns what it would paint instead. The black pen of width 2 is not part of the result.
- Destructors, the `CHoneyComb` copy constructor and `operator=` (`memcpy` of the cell array), and `delete[]` are memory management and are not modelled.
- The getters `GetSize`, `GetCenter`, `GetPosition`, `GetColor`, `GetCellSize` and `GetPosition` of the comb are reads of the model's public fields.
- `operator*` and `GetCells` hand out the cell array. The model's `cells` field is a constant reference, readable by callers.
- `Comb.Honeycomb.IsInitialized` tests only the cell size. The cell array always exists in the model, because the constructor allocates it and the copy and assignment operators are left out.
- The index of `operator[]` is a `size_t`; the model uses an unbounded natural, which behaves the same for every representable index.
- Cells.Cell.PointInHex: its own contract states only what every hit satisfies. Its exact condition is the squared-distance test `Hexagon.InInscribedCircle`, which `Hexagon.HitTestMatchesRootedComparison` ties to the source's square-root comparison.
- `src/mainwindow.cpp` is window setup; its demo values (position (384, 384), cell size 256) appear only in `Comb.NeighbourHitRegionsOverlap`.

## Findings

| source | as written | input that shows it | evidently intended | confidence | as-written member | corrected member |
|---|---|---|---|---|---|---|
| src/honeycomb.cpp:255 | the loop over the cells stops only when a draw fails, since the cell pointer is never null | an initialised comb with a painter whose seven cells all have a positive size and a non-null position, such as a laid-out comb whose seven positions are all away from the origin | stop after the seven cells of the array | high (not executed) | Comb.AsWrittenDrawRunsPastLastCell | Comb.Honeycomb.Draw |
