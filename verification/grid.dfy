/**
 The tile map (main.c:5-7, 14-25). A grid is indexed `g[row][col]`, as the
 C array `map[y][x]` is. A cell greater than zero is a wall for the ray
 walk; a cell equal to zero is open floor for movement.
 */
module Grid {

  const Width: int := 10
  const Height: int := 10
  const LastCol: int := Width - 1
  const LastRow: int := Height - 1

  /** Side of one tile in pixels. */
  const TileSize: int := 20

  /** The level: a 10x10 occupancy grid, 1 = wall, 0 = floor. */
  const Map: seq<seq<int>> := [
    [1, 1, 1, 1, 1, 1, 1, 1, 1, 1],
    [1, 0, 0, 0, 0, 0, 0, 0, 0, 1],
    [1, 0, 1, 0, 0, 0, 1, 0, 0, 1],
    [1, 0, 1, 0, 1, 0, 1, 0, 0, 1],
    [1, 0, 1, 0, 1, 0, 1, 0, 0, 1],
    [1, 0, 0, 0, 0, 0, 0, 0, 0, 1],
    [1, 0, 0, 1, 0, 1, 0, 0, 0, 1],
    [1, 0, 0, 1, 0, 1, 0, 0, 0, 1],
    [1, 0, 0, 0, 0, 0, 0, 0, 0, 1],
    [1, 1, 1, 1, 1, 1, 1, 1, 1, 1]
  ]

  /** The grid is Height rows of Width cells each. */
  predicate Shaped(g: seq<seq<int>>) {
    |g| == Height && forall row :: 0 <= row < |g| ==> |g[row]| == Width
  }

  /** (col, row) names a cell of the grid. */
  predicate InGrid(col: int, row: int) {
    0 <= col < Width && 0 <= row < Height
  }

  /** (col, row) is a cell off the border ring: columns and rows 1..8. */
  predicate Interior(col: int, row: int) {
    1 <= col < LastCol && 1 <= row < LastRow
  }

  function Cell(g: seq<seq<int>>, col: int, row: int): (v: int)
    requires Shaped(g) && InGrid(col, row)
  {
    g[row][col]
  }

  /** The ray walk's test `map[mapY][mapX] > 0`. */
  predicate IsWall(g: seq<seq<int>>, col: int, row: int)
    requires Shaped(g) && InGrid(col, row)
  {
    Cell(g, col, row) > 0
  }

  /** The movement test `map[y][x] == 0`. */
  predicate IsFloor(g: seq<seq<int>>, col: int, row: int)
    requires Shaped(g) && InGrid(col, row)
  {
    Cell(g, col, row) == 0
  }

  /**
   The invariant every map lookup relies on: row 0, row 9, column 0 and
   column 9 are walls, so a walk that steps onto the border stops there.
   */
  predicate BorderWalled(g: seq<seq<int>>) {
    && Shaped(g)
    && (forall col :: 0 <= col < Width ==> IsWall(g, col, 0))
    && (forall col :: 0 <= col < Width ==> IsWall(g, col, LastRow))
    && (forall row :: 0 <= row < Height ==> IsWall(g, 0, row))
    && (forall row :: 0 <= row < Height ==> IsWall(g, LastCol, row))
  }

  /** The level satisfies the border invariant, and its cells are 0 or 1. */
  lemma MapIsBorderWalled()
    ensures BorderWalled(Map)
    ensures forall row, col :: InGrid(col, row) ==> Map[row][col] == 0 || Map[row][col] == 1
  {
  }

  /** In a border-walled grid, every cell that is not a wall is an interior cell. */
  lemma OpenCellIsInterior(g: seq<seq<int>>, col: int, row: int)
    requires BorderWalled(g) && InGrid(col, row)
    ensures !IsWall(g, col, row) ==> Interior(col, row)
    ensures IsFloor(g, col, row) ==> Interior(col, row)
  {
    if col == 0 {
      assert IsWall(g, 0, row);
    } else if col == LastCol {
      assert IsWall(g, LastCol, row);
    } else if row == 0 {
      assert IsWall(g, col, 0);
    } else if row == LastRow {
      assert IsWall(g, col, LastRow);
    }
  }

}
