/** The circuit board's grid: its constants, integer grid points and clamping. */
module Grid {

  /** Cells per side of the square grid. */
  const GridSize: int := 30
  /** World units per cell. */
  const CellSize: int := 15
  /** Half the grid's extent: coordinates live in [-HalfGrid, HalfGrid]. */
  const HalfGrid: int := GridSize * CellSize / 2

  /** A trace point. Every trace lies in the plane z = 0, so only x and y are kept. */
  datatype Point = Point(x: int, y: int)

  /** A value Math.random() can return. */
  predicate IsDraw(r: real) {
    0.0 <= r < 1.0
  }

  function Abs(v: int): nat {
    if v < 0 then -v else v
  }

  /** A grid point: both coordinates are multiples of the cell size inside the grid. */
  predicate OnGrid(p: Point) {
    -HalfGrid <= p.x <= HalfGrid && p.x % CellSize == 0 &&
    -HalfGrid <= p.y <= HalfGrid && p.y % CellSize == 0
  }

  /** Math.max(-HALF_GRID, Math.min(HALF_GRID, v)). */
  function Clamp(v: int): (c: int)
    ensures -HalfGrid <= c <= HalfGrid
    ensures -HalfGrid <= v <= HalfGrid ==> c == v
    ensures c != v ==> (c == HalfGrid && v > HalfGrid) || (c == -HalfGrid && v < -HalfGrid)
    ensures v % CellSize == 0 ==> c % CellSize == 0
  {
    var upper := if v < HalfGrid then v else HalfGrid;
    if upper > -HalfGrid then upper else -HalfGrid
  }

  /** A start coordinate: Math.floor(r * GRID_SIZE) * CELL_SIZE - HALF_GRID.
      The largest cell index is GridSize - 1, so HalfGrid itself is never a start. */
  function StartCoord(r: real): (c: int)
    requires IsDraw(r)
    ensures -HalfGrid <= c <= HalfGrid - CellSize
    ensures c % CellSize == 0
  {
    (r * GridSize as real).Floor * CellSize - HalfGrid
  }
}
