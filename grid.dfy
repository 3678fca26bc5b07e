/*
 * The sandbox grid as a value: `height` rows of `width` tiles, row 0 at the
 * top. The class in sandbox.dfy keeps the grid in a two-dimensional array and
 * is specified against this value.
 */
module Grids {
  import opened TileCodec

  type Grid = seq<seq<Tile>>

  /** A (row, column) coordinate. */
  datatype Cell = Cell(row: nat, col: nat)

  function Width(g: Grid): nat {
    if |g| == 0 then 0 else |g[0]|
  }

  /** Every row has the same length. */
  predicate IsRect(g: Grid) {
    forall i :: 0 <= i < |g| ==> |g[i]| == Width(g)
  }

  predicate InBounds(g: Grid, p: Cell) {
    p.row < |g| && p.col < Width(g)
  }

  function At(g: Grid, p: Cell): Tile
    requires IsRect(g) && InBounds(g, p)
  {
    g[p.row][p.col]
  }

  /** Two grids of the same shape: as many rows, and every row as long as the first. */
  predicate SameShape(g: Grid, h: Grid) {
    IsRect(g) && IsRect(h) && |g| == |h| && Width(g) == Width(h)
  }

  /** The grid with one cell overwritten. */
  function Set(g: Grid, p: Cell, v: Tile): (g': Grid)
    requires IsRect(g) && InBounds(g, p)
    ensures SameShape(g, g')
    ensures At(g', p) == v
    ensures forall q :: InBounds(g, q) && q != p ==> At(g', q) == At(g, q)
  {
    g[p.row := g[p.row][p.col := v]]
  }

  /** `_swap_tiles` on the value: the two cells exchange their tiles. */
  function Swap(g: Grid, p: Cell, q: Cell): (g': Grid)
    requires IsRect(g) && InBounds(g, p) && InBounds(g, q)
    ensures SameShape(g, g')
    ensures At(g', p) == At(g, q) && At(g', q) == At(g, p)
    ensures forall s :: InBounds(g, s) && s != p && s != q ==> At(g', s) == At(g, s)
  {
    Set(Set(g, p, At(g, q)), q, At(g, p))
  }

  // ----- per-type counts -----

  function Indicator(tile: Tile, id: bv8): nat {
    if TileId(tile) == id then 1 else 0
  }

  /** The number of tiles of type `id` in one row. */
  function RowCount(row: seq<Tile>, id: bv8): nat {
    if row == [] then 0 else Indicator(row[0], id) + RowCount(row[1..], id)
  }

  /** The number of tiles of type `id` in the grid. */
  function Count(g: Grid, id: bv8): nat {
    if g == [] then 0 else RowCount(g[0], id) + Count(g[1..], id)
  }

  lemma {:induction false} RowCountUpdate(row: seq<Tile>, j: nat, v: Tile, id: bv8)
    requires j < |row|
    ensures RowCount(row[j := v], id) + Indicator(row[j], id) == RowCount(row, id) + Indicator(v, id)
  {
    if j > 0 {
      assert row[j := v][1..] == row[1..][j - 1 := v];
      RowCountUpdate(row[1..], j - 1, v, id);
    } else {
      assert row[j := v][1..] == row[1..];
    }
  }

  lemma {:induction false} CountUpdate(g: Grid, i: nat, row: seq<Tile>, id: bv8)
    requires i < |g|
    ensures Count(g[i := row], id) + RowCount(g[i], id) == Count(g, id) + RowCount(row, id)
  {
    if i > 0 {
      assert g[i := row][1..] == g[1..][i - 1 := row];
      CountUpdate(g[1..], i - 1, row, id);
    } else {
      assert g[i := row][1..] == g[1..];
    }
  }

  /** Overwriting one cell changes the count of each type by the tiles swapped in and out. */
  lemma CountSet(g: Grid, p: Cell, v: Tile, id: bv8)
    requires IsRect(g) && InBounds(g, p)
    ensures Count(Set(g, p, v), id) + Indicator(At(g, p), id) == Count(g, id) + Indicator(v, id)
  {
    RowCountUpdate(g[p.row], p.col, v, id);
    CountUpdate(g, p.row, g[p.row][p.col := v], id);
  }

  /** Overwriting a cell with a tile of the same type keeps every count. */
  lemma SetSameTypeKeepsCounts(g: Grid, p: Cell, v: Tile)
    requires IsRect(g) && InBounds(g, p) && TileId(v) == TileId(At(g, p))
    ensures forall id :: Count(Set(g, p, v), id) == Count(g, id)
  {
    forall id ensures Count(Set(g, p, v), id) == Count(g, id) {
      CountSet(g, p, v, id);
    }
  }

  /** A swap keeps the number of tiles of every type. */
  lemma SwapKeepsCounts(g: Grid, p: Cell, q: Cell)
    requires IsRect(g) && InBounds(g, p) && InBounds(g, q)
    ensures forall id :: Count(Swap(g, p, q), id) == Count(g, id)
  {
    forall id ensures Count(Swap(g, p, q), id) == Count(g, id) {
      var g1 := Set(g, p, At(g, q));
      CountSet(g, p, At(g, q), id);
      CountSet(g1, q, At(g, p), id);
    }
  }
}
