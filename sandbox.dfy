/*
 * The sandbox as the source keeps it: a height-by-width byte grid changed in
 * place, and the frame counter (a global `unsigned int` in the source, a
 * field here). Each method does what its C function does, branch for branch,
 * and is proved to leave the grid equal to the functional model of
 * movement.dfy and scheduler.dfy applied to the grid it started from.
 */
module Engine {
  import opened TileCodec
  import opened Classification
  import opened Grids
  import opened Movement
  import opened Scheduler

  class Sandbox {
    const grid: array2<Tile>
    var lifetime: Time
    /** The grid as a value: row i is grid[i, 0], ..., grid[i, width - 1]. */
    ghost var rows: Grid

    ghost predicate Valid()
      reads this, grid
    {
      IsRect(rows) && |rows| == grid.Length0 &&
      (forall i :: 0 <= i < |rows| ==> |rows[i]| == grid.Length1) &&
      forall i, j :: 0 <= i < grid.Length0 && 0 <= j < grid.Length1 ==> rows[i][j] == grid[i, j]
    }

    predicate InGrid(p: Cell) {
      p.row < grid.Length0 && p.col < grid.Length1
    }

    /**
     * `create_sandbox`: a height-by-width grid of zero bytes, that is
     * non-static air that counts as updated at time 0.
     */
    constructor (height: nat, width: nat)
      ensures Valid() && fresh(grid) && grid.Length0 == height && grid.Length1 == width
      ensures lifetime == 0
      ensures forall p :: InBounds(rows, p) ==>
        At(rows, p) == 0 && TileId(At(rows, p)) == AIR && !IsTileStatic(At(rows, p)) &&
        IsTileUpdated(At(rows, p), lifetime)
    {
      grid := new Tile[height, width]((i, j) => 0);
      lifetime := 0;
      rows := seq(height, i => seq(width, j => 0));
    }

    /** `_swap_tiles`: the two cells exchange their bytes. */
    method SwapTiles(p: Cell, q: Cell)
      requires Valid() && InGrid(p) && InGrid(q)
      modifies this`rows, grid
      ensures Valid()
      ensures rows == Swap(old(rows), p, q)
    {
      var temp := grid[p.row, p.col];
      grid[p.row, p.col] := grid[q.row, q.col];
      grid[q.row, q.col] := temp;
      rows := Swap(rows, p, q);
    }

    /** Writes one byte (the store `set_tile_updated` makes through its `unsigned char *`). */
    method WriteTile(p: Cell, v: Tile)
      requires Valid() && InGrid(p)
      modifies this`rows, grid
      ensures Valid()
      ensures rows == Set(old(rows), p, v)
    {
      grid[p.row, p.col] := v;
      rows := Set(rows, p, v);
    }

    /** `_slide_left_or_right` at `p`; the coin flip is `heads`. */
    method SlideLeftOrRight(p: Cell, heads: bool)
      requires Valid() && InGrid(p)
      modifies this`rows, grid
      ensures Valid()
      ensures rows == Moved(old(rows), p, SlideTarget(old(rows), p, heads))
    {
      ghost var g := rows;
      var canSlideLeft := false;
      var canSlideRight := false;
      if p.col > 0 && TileId(grid[p.row, p.col - 1]) == AIR {
        canSlideLeft := true;
      }
      if p.col + 1 != grid.Length1 && TileId(grid[p.row, p.col + 1]) == AIR {
        canSlideRight := true;
      }
      assert canSlideLeft == (p.col > 0 && TileId(g[p.row][p.col - 1]) == AIR);
      assert canSlideRight == (p.col + 1 < Width(g) && TileId(g[p.row][p.col + 1]) == AIR);
      if canSlideLeft && canSlideRight {
        if heads {
          SwapTiles(p, Cell(p.row, p.col - 1));
        } else {
          SwapTiles(p, Cell(p.row, p.col + 1));
        }
        return;
      }
      if canSlideLeft {
        SwapTiles(p, Cell(p.row, p.col - 1));
        return;
      }
      if canSlideRight {
        SwapTiles(p, Cell(p.row, p.col + 1));
        return;
      }
    }

    /** `do_gravity` at `p`; it does not check that the tile falls, and reads its type only to stop water sinking through water. */
    method DoGravity(p: Cell, heads: bool)
      requires Valid() && InGrid(p)
      modifies this`rows, grid
      ensures Valid()
      ensures rows == Moved(old(rows), p, GravityTarget(old(rows), p, heads))
    {
      ghost var g := rows;
      var nextRow := p.row + 1;
      if nextRow == grid.Length0 {
        return;
      }
      var currentTile := grid[p.row, p.col];
      var tileBelow := grid[nextRow, p.col];
      assert currentTile == At(g, p) && tileBelow == At(g, Cell(nextRow, p.col));
      if TileId(tileBelow) == AIR {
        SwapTiles(p, Cell(nextRow, p.col));
        return;
      }
      if TileId(tileBelow) == WATER && TileId(currentTile) != WATER {
        SwapTiles(p, Cell(nextRow, p.col));
        return;
      }
      var canSlideLeft := false;
      var canSlideRight := false;
      if p.col > 0 && TileId(grid[nextRow, p.col - 1]) == AIR {
        canSlideLeft := true;
      }
      if p.col + 1 != grid.Length1 && TileId(grid[nextRow, p.col + 1]) == AIR {
        canSlideRight := true;
      }
      assert canSlideLeft == (p.col > 0 && TileId(g[nextRow][p.col - 1]) == AIR);
      assert canSlideRight == (p.col + 1 < Width(g) && TileId(g[nextRow][p.col + 1]) == AIR);
      assert GravityTarget(g, p, heads) == Sideways(g, nextRow, p.col, heads);
      if canSlideLeft && canSlideRight {
        if heads {
          SwapTiles(p, Cell(nextRow, p.col - 1));
        } else {
          SwapTiles(p, Cell(nextRow, p.col + 1));
        }
        return;
      }
      if canSlideLeft {
        SwapTiles(p, Cell(nextRow, p.col - 1));
        return;
      }
      if canSlideRight {
        SwapTiles(p, Cell(nextRow, p.col + 1));
        return;
      }
    }

    /** `do_liquid_flow` at `p`: slide only on the bottom row or above a solid tile. */
    method DoLiquidFlow(p: Cell, heads: bool)
      requires Valid() && InGrid(p)
      modifies this`rows, grid
      ensures Valid()
      ensures rows == Moved(old(rows), p, FlowTarget(old(rows), p, heads))
    {
      var nextRow := p.row + 1;
      if nextRow != grid.Length0 && !IsSolid(grid[nextRow, p.col]) {
        return;
      }
      SlideLeftOrRight(p, heads);
    }

    /** `do_lift` at `p`. */
    method DoLift(p: Cell, heads: bool)
      requires Valid() && InGrid(p)
      modifies this`rows, grid
      ensures Valid()
      ensures rows == Moved(old(rows), p, LiftTarget(old(rows), p, heads))
    {
      ghost var g := rows;
      var canAscend := false;
      var canSlide := false;
      if p.row > 0 {
        canAscend := true;
      }
      if p.row == 0 || IsSolid(grid[p.row - 1, p.col]) {
        canSlide := true;
      }
      assert canSlide == UnderCeiling(g, p);
      if canAscend {
        var nextRow := p.row - 1;
        var tileAbove := grid[nextRow, p.col];
        assert tileAbove == At(g, Cell(nextRow, p.col));
        if TileId(tileAbove) == AIR || TileId(tileAbove) == WATER {
          assert LiftTarget(g, p, heads) == Some(Cell(nextRow, p.col));
          SwapTiles(p, Cell(nextRow, p.col));
          return;
        }
        var canAscendLeft := false;
        var canAscendRight := false;
        if p.col > 0 && TileId(grid[nextRow, p.col - 1]) == AIR {
          canAscendLeft := true;
        }
        if p.col + 1 != grid.Length1 && TileId(grid[nextRow, p.col + 1]) == AIR {
          canAscendRight := true;
        }
        assert canAscendLeft == (p.col > 0 && TileId(g[nextRow][p.col - 1]) == AIR);
        assert canAscendRight == (p.col + 1 < Width(g) && TileId(g[nextRow][p.col + 1]) == AIR);
        assert canAscendLeft || canAscendRight ==> LiftTarget(g, p, heads) == Sideways(g, nextRow, p.col, heads);
        if canAscendLeft && canAscendRight {
          if heads {
            SwapTiles(p, Cell(nextRow, p.col - 1));
          } else {
            SwapTiles(p, Cell(nextRow, p.col + 1));
          }
          return;
        }
        if canAscendLeft {
          SwapTiles(p, Cell(nextRow, p.col - 1));
          return;
        }
        if canAscendRight {
          SwapTiles(p, Cell(nextRow, p.col + 1));
          return;
        }
      }
      assert LiftTarget(g, p, heads) == if canSlide then SlideTarget(g, p, heads) else None;
      if canSlide {
        SlideLeftOrRight(p, heads);
      }
    }

    /** The rule calls in the body of the scan of `process_sandbox`, for the tile `tile` visited at `p`. */
    method ApplyRules(p: Cell, tile: Tile, flips: Coins)
      requires Valid() && InGrid(p)
      modifies this`rows, grid
      ensures Valid()
      ensures rows == Scheduler.ApplyRules(old(rows), tile, flips, p)
    {
      ghost var g1 := rows;
      if HasGravity(tile) {
        DoGravity(p, flips(p, Fall));
      }
      ghost var g2 := rows;
      assert g2 == ApplyGravity(g1, tile, flips, p);
      if HasFlow(tile) {
        DoLiquidFlow(p, flips(p, Flow));
      }
      ghost var g3 := rows;
      assert g3 == ApplyFlow(g2, tile, flips, p);
      if HasLift(tile) {
        DoLift(p, flips(p, Rise));
      }
      assert rows == ApplyLift(g3, tile, flips, p);
    }

    /**
     * The body of the scan in `process_sandbox` for one cell: skip air,
     * static and already-updated tiles; otherwise mark the tile, apply the
     * rules its type calls for, and mark the tile left in the cell.
     */
    method ProcessTile(p: Cell, flips: Coins)
      requires Valid() && InGrid(p)
      modifies this`rows, grid
      ensures Valid()
      ensures rows == Visit(old(rows), lifetime, flips, p)
    {
      var currentTile := grid[p.row, p.col];
      var tileType := TileId(currentTile);
      var isStatic := IsTileStatic(currentTile);
      var isUpdated := IsTileUpdated(currentTile, lifetime);
      if tileType == AIR || isStatic || isUpdated {
        return;
      }
      var marked := SetTileUpdated(grid[p.row, p.col], lifetime);
      WriteTile(p, marked);
      ApplyRules(p, currentTile, flips);
      marked := SetTileUpdated(grid[p.row, p.col], lifetime);
      WriteTile(p, marked);
    }

    /**
     * `process_sandbox`: one frame. Processes every cell row by row, top row
     * first, left to right, then advances the frame counter (wrapping at
     * 2^32). `flips` supplies the coin flips.
     */
    method ProcessSandbox(flips: Coins)
      requires Valid()
      modifies this, grid
      ensures Valid()
      ensures rows == Pass(old(rows), old(lifetime), flips)
      ensures lifetime == old(lifetime) + 1
      ensures forall id :: Count(rows, id) == Count(old(rows), id)
    {
      ghost var g0 := rows;
      ghost var w := Width(g0);
      var height, width := grid.Length0, grid.Length1;
      VisitedRows(w, 0);
      for row := 0 to height
        invariant Valid() && lifetime == old(lifetime)
        invariant AllInBounds(g0, Visited(w, row, 0))
        invariant rows == Scan(g0, lifetime, flips, Visited(w, row, 0))
      {
        for col := 0 to width
          invariant Valid() && lifetime == old(lifetime)
          invariant AllInBounds(g0, Visited(w, row, col))
          invariant rows == Scan(g0, lifetime, flips, Visited(w, row, col))
        {
          ScanStep(g0, lifetime, flips, row, col);
          ProcessTile(Cell(row, col), flips);
        }
        VisitedRows(w, row);
      }
      VisitedRows(w, height);
      lifetime := lifetime + 1;
    }
  }
}
