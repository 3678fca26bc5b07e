/*
 * One frame of the simulation (`process_sandbox`) as a function on the grid
 * value, and what it guarantees: the grid keeps its shape and its number of
 * tiles of every type, every tile is handled by the end of the frame and is
 * due again in the next one, and a tile that has had its turn (or is static)
 * moves no further in the frame unless it is air or water that a later mover
 * displaces.
 *
 * A frame scans the cells row by row, top row first, left to right. The coin
 * flips of a frame are an oracle: each rule runs at most once per visited
 * cell and each visit of a cell happens at most once per frame, so every
 * sequence of coin results the source's pseudo-random generator can produce
 * is one function from (cell, rule) to a coin.
 */
module Scheduler {
  import opened TileCodec
  import opened Classification
  import opened Grids
  import opened Movement

  /** The rule a coin is flipped for. */
  datatype Rule = Fall | Flow | Rise

  type Coins = (Cell, Rule) -> bool

  /** Whether the scan passes over a tile without touching it: air, static, or already updated. */
  predicate Skipped(tile: Tile, time: Time) {
    TileId(tile) == AIR || IsTileStatic(tile) || IsTileUpdated(tile, time)
  }

  /** `do_gravity` at `p` when the visited tile falls. */
  function ApplyGravity(g: Grid, tile: Tile, flips: Coins, p: Cell): (g': Grid)
    requires IsRect(g) && InBounds(g, p)
    ensures SameShape(g, g')
    ensures forall id :: Count(g', id) == Count(g, id)
  {
    if HasGravity(tile) then Moved(g, p, GravityTarget(g, p, flips(p, Fall))) else g
  }

  /** `do_liquid_flow` at `p` when the visited tile flows. */
  function ApplyFlow(g: Grid, tile: Tile, flips: Coins, p: Cell): (g': Grid)
    requires IsRect(g) && InBounds(g, p)
    ensures SameShape(g, g')
    ensures forall id :: Count(g', id) == Count(g, id)
  {
    if HasFlow(tile) then Moved(g, p, FlowTarget(g, p, flips(p, Flow))) else g
  }

  /** `do_lift` at `p` when the visited tile rises. */
  function ApplyLift(g: Grid, tile: Tile, flips: Coins, p: Cell): (g': Grid)
    requires IsRect(g) && InBounds(g, p)
    ensures SameShape(g, g')
    ensures forall id :: Count(g', id) == Count(g, id)
  {
    if HasLift(tile) then Moved(g, p, LiftTarget(g, p, flips(p, Rise))) else g
  }

  /** The rules the visited tile's type calls for, each applied at the origin, in the source's order. */
  function ApplyRules(g: Grid, tile: Tile, flips: Coins, p: Cell): (g': Grid)
    requires IsRect(g) && InBounds(g, p)
    ensures SameShape(g, g')
    ensures forall id :: Count(g', id) == Count(g, id)
  {
    ApplyLift(ApplyFlow(ApplyGravity(g, tile, flips, p), tile, flips, p), tile, flips, p)
  }

  /**
   * The body of the scan for cell `p`: skip, or mark the tile, apply the
   * rules its type calls for (all of them, each at the origin cell, as the
   * source does), then mark whatever tile has ended up at the origin.
   */
  function Visit(g: Grid, time: Time, flips: Coins, p: Cell): (g': Grid)
    requires IsRect(g) && InBounds(g, p)
    ensures SameShape(g, g')
    ensures forall id :: Count(g', id) == Count(g, id)
    ensures Skipped(At(g, p), time) ==> g' == g
    ensures Skipped(At(g', p), time)
  {
    var tile := At(g, p);
    if TileId(tile) == AIR || IsTileStatic(tile) || IsTileUpdated(tile, time) then g
    else
      var g1 := Set(g, p, Marked(tile, time));
      var g4 := ApplyRules(g1, tile, flips, p);
      SetSameTypeKeepsCounts(g, p, Marked(tile, time));
      SetSameTypeKeepsCounts(g4, p, Marked(At(g4, p), time));
      Set(g4, p, Marked(At(g4, p), time))
  }

  // ----- what one visit changes -----

  /**
   * `h` differs from `g` only at the origin `p` and at cells that held air or
   * water in `g` and now hold a tile the scan skips.
   */
  ghost predicate FrameOk(g: Grid, h: Grid, p: Cell, time: Time) {
    SameShape(g, h) && InBounds(g, p) &&
    forall q :: InBounds(g, q) && q != p && At(h, q) != At(g, q) ==>
      Yields(At(g, q)) && Skipped(At(h, q), time)
  }

  lemma MovedKeepsFrame(g: Grid, h: Grid, p: Cell, dest: Option<Cell>, time: Time)
    requires FrameOk(g, h, p, time) && IsStep(h, p, dest)
    requires Skipped(At(h, p), time)
    requires dest.Some? ==> Yields(At(h, dest.value))
    ensures FrameOk(g, Moved(h, p, dest), p, time)
  {
  }

  lemma GravityKeepsFrame(g: Grid, h: Grid, tile: Tile, flips: Coins, p: Cell, time: Time)
    requires FrameOk(g, h, p, time) && At(h, p) == Marked(tile, time)
    ensures var h' := ApplyGravity(h, tile, flips, p);
      FrameOk(g, h', p, time) && (At(h', p) == At(h, p) || TileId(At(h', p)) == AIR || !HasFlow(tile))
  {
    if HasGravity(tile) {
      MovedKeepsFrame(g, h, p, GravityTarget(h, p, flips(p, Fall)), time);
    }
  }

  lemma FlowKeepsFrame(g: Grid, h: Grid, tile: Tile, flips: Coins, p: Cell, time: Time)
    requires FrameOk(g, h, p, time)
    requires HasFlow(tile) ==> Skipped(At(h, p), time)
    ensures FrameOk(g, ApplyFlow(h, tile, flips, p), p, time)
  {
    if HasFlow(tile) {
      MovedKeepsFrame(g, h, p, FlowTarget(h, p, flips(p, Flow)), time);
    }
  }

  lemma LiftKeepsFrame(g: Grid, h: Grid, tile: Tile, flips: Coins, p: Cell, time: Time)
    requires FrameOk(g, h, p, time)
    requires HasLift(tile) ==> Skipped(At(h, p), time)
    ensures FrameOk(g, ApplyLift(h, tile, flips, p), p, time)
  {
    if HasLift(tile) {
      MovedKeepsFrame(g, h, p, LiftTarget(h, p, flips(p, Rise)), time);
    }
  }

  /** One visit changes, besides the origin, only air or water cells, and leaves a skipped tile in each. */
  lemma VisitFrame(g: Grid, time: Time, flips: Coins, p: Cell)
    requires IsRect(g) && InBounds(g, p)
    ensures FrameOk(g, Visit(g, time, flips, p), p, time)
  {
    var tile := At(g, p);
    if !Skipped(tile, time) {
      var m := Marked(tile, time);
      var g1 := Set(g, p, m);
      assert FrameOk(g, g1, p, time);
      var g2 := ApplyGravity(g1, tile, flips, p);
      GravityKeepsFrame(g, g1, tile, flips, p, time);
      var g3 := ApplyFlow(g2, tile, flips, p);
      FlowKeepsFrame(g, g2, tile, flips, p, time);
      assert HasLift(tile) ==> g3 == g1;
      var g4 := ApplyLift(g3, tile, flips, p);
      LiftKeepsFrame(g, g3, tile, flips, p, time);
      assert Visit(g, time, flips, p) == Set(g4, p, Marked(At(g4, p), time));
    }
  }

  // ----- the scan -----

  /** The cells (i, 0), ..., (i, n - 1), in order. */
  function RowCells(i: nat, n: nat): (cells: seq<Cell>)
    ensures |cells| == n
    ensures forall q :: q in cells <==> q.row == i && q.col < n
  {
    if n == 0 then [] else RowCells(i, n - 1) + [Cell(i, n - 1)]
  }

  /** The cells of an h-by-w grid in the order `process_sandbox` visits them. */
  function RowMajor(h: nat, w: nat): (cells: seq<Cell>)
    ensures forall q :: q in cells <==> q.row < h && q.col < w
  {
    if h == 0 then [] else RowMajor(h - 1, w) + RowCells(h - 1, w)
  }

  predicate AllInBounds(g: Grid, cells: seq<Cell>) {
    forall q :: q in cells ==> InBounds(g, q)
  }

  /** The grid after visiting `cells` in order. */
  function Scan(g: Grid, time: Time, flips: Coins, cells: seq<Cell>): (g': Grid)
    requires IsRect(g) && AllInBounds(g, cells)
    ensures SameShape(g, g')
    ensures forall id :: Count(g', id) == Count(g, id)
    decreases |cells|
  {
    if cells == [] then g
    else
      var prefix, p := cells[..|cells| - 1], cells[|cells| - 1];
      assert p in cells && forall q :: q in prefix ==> q in cells;
      Visit(Scan(g, time, flips, prefix), time, flips, p)
  }

  /** The cells the scan of a width-`w` grid has visited when it reaches column `col` of row `row`. */
  function Visited(w: nat, row: nat, col: nat): seq<Cell> {
    RowMajor(row, w) + RowCells(row, col)
  }

  /** The scan starts with nothing visited and a finished row is the start of the next. */
  lemma VisitedRows(w: nat, row: nat)
    ensures Visited(w, 0, 0) == []
    ensures Visited(w, row + 1, 0) == Visited(w, row, w)
    ensures Visited(w, row, 0) == RowMajor(row, w)
  {
    assert RowMajor(row + 1, w) + [] == RowMajor(row + 1, w);
    assert RowMajor(row, w) + [] == RowMajor(row, w);
  }

  /** Reaching the next column of a row is visiting one more cell. */
  lemma ScanStep(g: Grid, time: Time, flips: Coins, row: nat, col: nat)
    requires IsRect(g) && row < |g| && col < Width(g)
    ensures AllInBounds(g, Visited(Width(g), row, col)) && AllInBounds(g, Visited(Width(g), row, col + 1))
    ensures Scan(g, time, flips, Visited(Width(g), row, col + 1)) ==
      Visit(Scan(g, time, flips, Visited(Width(g), row, col)), time, flips, Cell(row, col))
  {
    var w := Width(g);
    assert Visited(w, row, col + 1) == Visited(w, row, col) + [Cell(row, col)];
    ScanAppend(g, time, flips, Visited(w, row, col), Cell(row, col));
  }

  /** One frame: the scan over every cell, before the frame counter moves on. */
  function Pass(g: Grid, time: Time, flips: Coins): (g': Grid)
    requires IsRect(g)
    ensures SameShape(g, g')
    ensures forall id :: Count(g', id) == Count(g, id)
  {
    Scan(g, time, flips, RowMajor(|g|, Width(g)))
  }

  lemma ScanAppend(g: Grid, time: Time, flips: Coins, cells: seq<Cell>, p: Cell)
    requires IsRect(g) && AllInBounds(g, cells) && InBounds(g, p)
    ensures AllInBounds(g, cells + [p])
    ensures Scan(g, time, flips, cells + [p]) == Visit(Scan(g, time, flips, cells), time, flips, p)
  {
    assert (cells + [p])[..|cells|] == cells;
  }

  /** Every visited cell holds a skipped tile at the end of the scan. */
  lemma {:induction false} ScanHandlesVisited(g: Grid, time: Time, flips: Coins, cells: seq<Cell>)
    requires IsRect(g) && AllInBounds(g, cells)
    ensures forall q :: q in cells ==> Skipped(At(Scan(g, time, flips, cells), q), time)
    decreases |cells|
  {
    if cells != [] {
      var prefix, p := cells[..|cells| - 1], cells[|cells| - 1];
      assert cells == prefix + [p] && p in cells;
      var h := Scan(g, time, flips, prefix);
      ScanHandlesVisited(g, time, flips, prefix);
      VisitFrame(h, time, flips, p);
    }
  }

  /**
   * A cell whose tile is neither air nor water keeps it through the scan if
   * it is skipped already or is not visited: no rule swaps into such a cell.
   */
  lemma {:induction false} ScanKeepsFirm(g: Grid, time: Time, flips: Coins, cells: seq<Cell>, q: Cell)
    requires IsRect(g) && AllInBounds(g, cells) && InBounds(g, q)
    requires !Yields(At(g, q))
    requires Skipped(At(g, q), time) || q !in cells
    ensures At(Scan(g, time, flips, cells), q) == At(g, q)
    decreases |cells|
  {
    if cells != [] {
      var prefix, p := cells[..|cells| - 1], cells[|cells| - 1];
      assert cells == prefix + [p] && p in cells;
      ScanKeepsFirm(g, time, flips, prefix, q);
      VisitFrame(Scan(g, time, flips, prefix), time, flips, p);
    }
  }

  /** A scan over cells that are all skipped changes nothing. */
  lemma {:induction false} ScanIdle(g: Grid, time: Time, flips: Coins, cells: seq<Cell>)
    requires IsRect(g) && AllInBounds(g, cells)
    requires forall q :: q in cells ==> Skipped(At(g, q), time)
    ensures Scan(g, time, flips, cells) == g
    decreases |cells|
  {
    if cells != [] {
      ScanIdle(g, time, flips, cells[..|cells| - 1]);
    }
  }

  // ----- one frame -----

  /** At the end of a frame every tile is air, static or updated for the frame. */
  lemma PassHandlesEveryTile(g: Grid, time: Time, flips: Coins)
    requires IsRect(g)
    ensures forall q :: InBounds(g, q) ==> Skipped(At(Pass(g, time, flips), q), time)
  {
    ScanHandlesVisited(g, time, flips, RowMajor(|g|, Width(g)));
  }

  /** Once the frame counter has moved on, every non-air, non-static tile is due again. */
  lemma PassReadiesNextFrame(g: Grid, time: Time, flips: Coins)
    requires IsRect(g)
    ensures forall q :: InBounds(g, q) ==>
      var tile := At(Pass(g, time, flips), q);
      TileId(tile) != AIR && !IsTileStatic(tile) ==> !IsTileUpdated(tile, time + 1)
  {
    PassHandlesEveryTile(g, time, flips);
  }

  /**
   * A tile that is neither air nor water and that the scan skips (static, or
   * updated already) stays where it is for the whole frame.
   */
  lemma PassKeepsSettled(g: Grid, time: Time, flips: Coins, q: Cell)
    requires IsRect(g) && InBounds(g, q)
    requires !Yields(At(g, q)) && Skipped(At(g, q), time)
    ensures At(Pass(g, time, flips), q) == At(g, q)
  {
    ScanKeepsFirm(g, time, flips, RowMajor(|g|, Width(g)), q);
  }

  /** Scanning two runs of cells is scanning the first, then the second. */
  lemma {:induction false} ScanConcat(g: Grid, time: Time, flips: Coins, first: seq<Cell>, second: seq<Cell>)
    requires IsRect(g) && AllInBounds(g, first + second)
    ensures AllInBounds(g, first) && AllInBounds(Scan(g, time, flips, first), second)
    ensures Scan(g, time, flips, first + second) == Scan(Scan(g, time, flips, first), time, flips, second)
    decreases |second|
  {
    assert forall q :: q in first ==> q in first + second;
    assert forall q :: q in second ==> q in first + second;
    if second != [] {
      var rest, p := second[..|second| - 1], second[|second| - 1];
      assert first + second == (first + rest) + [p];
      assert forall q :: q in first + rest ==> q in first + second;
      ScanConcat(g, time, flips, first, rest);
    } else {
      assert first + second == first;
    }
  }

  /**
   * From any point of the scan on, a tile that is neither air nor water and
   * that the scan skips (it is static, or has had its turn in this frame,
   * wherever that turn took it) stays where it is until the frame ends.
   */
  lemma RestOfScanKeepsSettled(g: Grid, time: Time, flips: Coins, done: seq<Cell>, rest: seq<Cell>, q: Cell)
    requires IsRect(g) && AllInBounds(g, done) && AllInBounds(g, rest) && InBounds(g, q)
    requires var h := Scan(g, time, flips, done);
      !Yields(At(h, q)) && Skipped(At(h, q), time)
    ensures At(Scan(g, time, flips, done + rest), q) == At(Scan(g, time, flips, done), q)
  {
    ScanConcat(g, time, flips, done, rest);
    ScanKeepsFirm(Scan(g, time, flips, done), time, flips, rest, q);
  }

  // ----- water can move twice in one frame -----

  /**
   * The settled-tile lemmas above leave out air and water, and they must:
   * after water has had its turn, a gas that rises later in the same scan
   * swaps with it again. Here the water at (0, 1) rests on wood and flows
   * left into the air at (0, 0); then the steam at (1, 0) rises into it, so
   * the water ends the frame at (1, 0), two moves away, for every coin.
   */
  lemma WaterMovesTwice(flips: Coins)
    ensures var g: Grid := [[0, 2, 3], [4, 3, 3]];
      IsRect(g) && Pass(g, 1, flips) == [[132, 128, 131], [130, 131, 131]]
  {
    var g: Grid := [[0, 2, 3], [4, 3, 3]];
    var g2: Grid := [[130, 128, 131], [4, 3, 3]];
    var g3: Grid := [[132, 128, 131], [130, 3, 3]];
    var g4: Grid := [[132, 128, 131], [130, 131, 3]];
    var g5: Grid := [[132, 128, 131], [130, 131, 131]];
    var c10, c11, c12 := Cell(1, 0), Cell(1, 1), Cell(1, 2);
    var s3 := [] + [Cell(0, 0)] + [Cell(0, 1)] + [Cell(0, 2)];
    TwoRowsOfThree();
    assert |g| == 2 && Width(g) == 3;
    WaterFlowsOnTopRow(flips);
    SteamRisesIntoWater(g2, flips);
    WoodIsMarked(flips);
    ScanThen(g, 1, flips, s3, c10, g2, g3);
    var s4 := s3 + [c10];
    ScanThen(g, 1, flips, s4, c11, g3, g4);
    var s5 := s4 + [c11];
    ScanThen(g, 1, flips, s5, c12, g4, g5);
    assert RowMajor(|g|, Width(g)) == s5 + [c12];
  }

  /** The top row of the example: air is skipped, the water flows left, the wood is marked. */
  lemma WaterFlowsOnTopRow(flips: Coins)
    ensures var g: Grid := [[0, 2, 3], [4, 3, 3]];
      IsRect(g) && AllInBounds(g, [] + [Cell(0, 0)] + [Cell(0, 1)] + [Cell(0, 2)])
      && Scan(g, 1, flips, [] + [Cell(0, 0)] + [Cell(0, 1)] + [Cell(0, 2)]) == [[130, 128, 131], [4, 3, 3]]
  {
    var g: Grid := [[0, 2, 3], [4, 3, 3]];
    var g1: Grid := [[130, 128, 3], [4, 3, 3]];
    var g2: Grid := [[130, 128, 131], [4, 3, 3]];
    var c00, c01, c02 := Cell(0, 0), Cell(0, 1), Cell(0, 2);
    assert Skipped(At(g, c00), 1);
    WaterFlowsLeft(g, flips);
    WoodIsMarked(flips);
    var s0: seq<Cell> := [];
    ScanThen(g, 1, flips, s0, c00, g, g);
    var s1 := s0 + [c00];
    ScanThen(g, 1, flips, s1, c01, g, g1);
    var s2 := s1 + [c01];
    ScanThen(g, 1, flips, s2, c02, g1, g2);
  }

  /** One more visit extends a scan whose result is known. */
  lemma ScanThen(g: Grid, time: Time, flips: Coins, cells: seq<Cell>, p: Cell, before: Grid, after: Grid)
    requires IsRect(g) && AllInBounds(g, cells) && InBounds(g, p)
    requires Scan(g, time, flips, cells) == before && Visit(before, time, flips, p) == after
    ensures AllInBounds(g, cells + [p]) && Scan(g, time, flips, cells + [p]) == after
  {
    ScanAppend(g, time, flips, cells, p);
  }

  /** The three visits of wood in the example: each only marks the wood. */
  lemma WoodIsMarked(flips: Coins)
    ensures Visit([[130, 128, 3], [4, 3, 3]], 1, flips, Cell(0, 2)) == [[130, 128, 131], [4, 3, 3]]
    ensures Visit([[132, 128, 131], [130, 3, 3]], 1, flips, Cell(1, 1)) == [[132, 128, 131], [130, 131, 3]]
    ensures Visit([[132, 128, 131], [130, 131, 3]], 1, flips, Cell(1, 2)) == [[132, 128, 131], [130, 131, 131]]
  {
    var g1: Grid := [[130, 128, 3], [4, 3, 3]];
    var g3: Grid := [[132, 128, 131], [130, 3, 3]];
    var g4: Grid := [[132, 128, 131], [130, 131, 3]];
    MarkWood(g1, Cell(0, 2), flips);
    assert g1[0][2 := 131] == [130, 128, 131];
    MarkWood(g3, Cell(1, 1), flips);
    assert g3[1][1 := 131] == [130, 131, 3];
    MarkWood(g4, Cell(1, 2), flips);
    assert g4[1][2 := 131] == [130, 131, 131];
  }

  /** The visiting order of a grid of two rows of three cells. */
  lemma TwoRowsOfThree()
    ensures RowMajor(2, 3) == [] + [Cell(0, 0)] + [Cell(0, 1)] + [Cell(0, 2)] + [Cell(1, 0)] + [Cell(1, 1)] + [Cell(1, 2)]
  {
    assert RowCells(0, 3) == [Cell(0, 0), Cell(0, 1), Cell(0, 2)] by {
      assert RowCells(0, 1) == [Cell(0, 0)];
      assert RowCells(0, 2) == [Cell(0, 0), Cell(0, 1)];
    }
    assert RowCells(1, 3) == [Cell(1, 0), Cell(1, 1), Cell(1, 2)] by {
      assert RowCells(1, 1) == [Cell(1, 0)];
      assert RowCells(1, 2) == [Cell(1, 0), Cell(1, 1)];
    }
    assert RowMajor(1, 3) == [] + RowCells(0, 3);
  }

  /** The first move: the water at (0, 1) rests on wood and flows into the air on its left. */
  lemma WaterFlowsLeft(g: Grid, flips: Coins)
    requires g == [[0, 2, 3], [4, 3, 3]]
    ensures Visit(g, 1, flips, Cell(0, 1)) == [[130, 128, 3], [4, 3, 3]]
  {
    var p := Cell(0, 1);
    var h := Set(g, p, 130);
    assert g[0][1 := 130] == [0, 130, 3];
    assert h == [[0, 130, 3], [4, 3, 3]];
    assert GravityTarget(h, p, flips(p, Fall)).None?;
    assert FlowTarget(h, p, flips(p, Flow)) == Some(Cell(0, 0));
    var h1 := Set(h, p, 0);
    assert h[0][1 := 0] == [0, 0, 3];
    assert h1 == [[0, 0, 3], [4, 3, 3]];
    var h2 := Swap(h, p, Cell(0, 0));
    assert h1[0][0 := 130] == [130, 0, 3];
    assert h2 == Set(h1, Cell(0, 0), 130) == [[130, 0, 3], [4, 3, 3]];
    assert ApplyRules(h, 2, flips, p) == h2;
    assert !IsTileStatic(2) && !IsTileUpdated(2, 1);
    assert Marked(2, 1) == 130 && Marked(0, 1) == 128;
    assert h2[0][1 := 128] == [130, 128, 3];
    assert Set(h2, p, 128) == [[130, 128, 3], [4, 3, 3]];
  }

  /** The second move: the steam at (1, 0) rises into the water, now marked, above it. */
  lemma SteamRisesIntoWater(g: Grid, flips: Coins)
    requires g == [[130, 128, 131], [4, 3, 3]]
    ensures Visit(g, 1, flips, Cell(1, 0)) == [[132, 128, 131], [130, 3, 3]]
  {
    var p := Cell(1, 0);
    var h := Set(g, p, 132);
    assert g[1][0 := 132] == [132, 3, 3];
    assert h == [[130, 128, 131], [132, 3, 3]];
    assert At(h, Cell(0, 0)) == 130;
    assert LiftTarget(h, p, flips(p, Rise)) == Some(Cell(0, 0));
    var h1 := Set(h, p, 130);
    assert h[1][0 := 130] == [130, 3, 3];
    assert h1 == [[130, 128, 131], [130, 3, 3]];
    var h2 := Swap(h, p, Cell(0, 0));
    assert h1[0][0 := 132] == [132, 128, 131];
    assert h2 == Set(h1, Cell(0, 0), 132) == [[132, 128, 131], [130, 3, 3]];
    assert ApplyRules(h, 4, flips, p) == h2;
    assert !IsTileStatic(4) && !IsTileUpdated(4, 1);
    assert Marked(4, 1) == 132 && Marked(130, 1) == 130;
    assert h2[1][0 := 130] == h2[1];
    assert Set(h2, p, 130) == h2;
  }

  /** Wood has no rule: its visit only marks it. */
  lemma MarkWood(g: Grid, p: Cell, flips: Coins)
    requires IsRect(g) && InBounds(g, p) && At(g, p) == 3
    ensures Visit(g, 1, flips, p) == Set(g, p, 131)
  {
    var h := Set(g, p, 131);
    assert !IsTileStatic(3) && !IsTileUpdated(3, 1);
    assert Marked(3, 1) == 131 && Marked(131, 1) == 131;
    assert ApplyRules(h, 3, flips, p) == h;
    assert h[p.row][p.col := 131] == h[p.row];
    assert Set(h, p, 131) == h;
  }

  // ----- a lone grain of sand -----

  /** A grid whose every cell holds air except `p`, which holds sand. */
  ghost predicate GrainOnlyAt(g: Grid, p: Cell) {
    IsRect(g) && InBounds(g, p) && TileId(At(g, p)) == SAND &&
    forall q :: InBounds(g, q) && q != p ==> TileId(At(g, q)) == AIR
  }

  /** A lone grain of sand at `p` that is due this frame. */
  ghost predicate LoneGrain(g: Grid, p: Cell, time: Time) {
    GrainOnlyAt(g, p) && !IsTileStatic(At(g, p)) && !IsTileUpdated(At(g, p), time)
  }

  /** Visiting the grain drops it into the air cell below, marked, and leaves only air behind. */
  lemma LoneGrainVisit(g: Grid, time: Time, flips: Coins, p: Cell)
    requires IsRect(g) && LoneGrain(g, p, time) && p.row + 1 < |g|
    ensures var g' := Visit(g, time, flips, p); var below := Cell(p.row + 1, p.col);
      At(g', below) == Marked(At(g, p), time) &&
      forall q :: InBounds(g, q) && q != below ==> TileId(At(g', q)) == AIR
  {
    var tile := At(g, p);
    var below := Cell(p.row + 1, p.col);
    var g1 := Set(g, p, Marked(tile, time));
    assert GravityTarget(g1, p, flips(p, Fall)) == Some(below);
    var g2 := Swap(g1, p, below);
    assert ApplyLift(ApplyFlow(ApplyGravity(g1, tile, flips, p), tile, flips, p), tile, flips, p) == g2;
  }

  /** Scanning any cells over a lone grain either has not reached it yet or has dropped it one row. */
  lemma {:induction false} LoneGrainScan(g: Grid, time: Time, flips: Coins, p: Cell, cells: seq<Cell>)
    requires IsRect(g) && LoneGrain(g, p, time) && AllInBounds(g, cells)
    ensures Scan(g, time, flips, cells) == if p in cells then Visit(g, time, flips, p) else g
    decreases |cells|
  {
    if cells != [] {
      var prefix, x := cells[..|cells| - 1], cells[|cells| - 1];
      assert cells == prefix + [x] && x in cells;
      LoneGrainScan(g, time, flips, p, prefix);
      var g1 := Visit(g, time, flips, p);
      if p in prefix {
        if p.row + 1 < |g| {
          LoneGrainVisit(g, time, flips, p);
          assert Skipped(At(g1, x), time);
        } else {
          assert Skipped(At(g1, x), time) by {
            assert GravityTarget(Set(g, p, Marked(At(g, p), time)), p, flips(p, Fall)).None?;
            VisitFrame(g, time, flips, p);
          }
        }
      }
    }
  }

  /**
   * A lone grain of sand above air falls exactly one row in one frame: the
   * cell below holds it afterwards and every other cell holds air.
   */
  lemma LoneGrainFallsOneRow(g: Grid, time: Time, flips: Coins, p: Cell)
    requires IsRect(g) && LoneGrain(g, p, time) && p.row + 1 < |g|
    ensures var g' := Pass(g, time, flips); var below := Cell(p.row + 1, p.col);
      At(g', below) == Marked(At(g, p), time) &&
      forall q :: InBounds(g, q) && q != below ==> TileId(At(g', q)) == AIR
  {
    LoneGrainScan(g, time, flips, p, RowMajor(|g|, Width(g)));
    LoneGrainVisit(g, time, flips, p);
  }

  /** After its frame the grain, one row lower, is again a lone grain due in the next frame. */
  lemma LoneGrainAgain(g: Grid, time: Time, flips: Coins, p: Cell)
    requires IsRect(g) && LoneGrain(g, p, time) && p.row + 1 < |g|
    ensures SameShape(g, Pass(g, time, flips))
    ensures LoneGrain(Pass(g, time, flips), Cell(p.row + 1, p.col), time + 1)
  {
    LoneGrainFallsOneRow(g, time, flips, p);
  }

  /** Frame after frame: one pass per coin oracle, the frame counter advancing between them. */
  function Run(g: Grid, time: Time, oracles: seq<Coins>): (g': Grid)
    requires IsRect(g)
    ensures SameShape(g, g')
    ensures forall id :: Count(g', id) == Count(g, id)
    decreases |oracles|
  {
    if oracles == [] then g else Run(Pass(g, time, oracles[0]), time + 1, oracles[1..])
  }

  /** Over k frames a lone grain of sand with k rows of air below it falls exactly k rows. */
  lemma {:induction false} LoneGrainFallsOneRowPerFrame(g: Grid, time: Time, oracles: seq<Coins>, p: Cell)
    requires IsRect(g) && LoneGrain(g, p, time) && p.row + |oracles| < |g|
    ensures GrainOnlyAt(Run(g, time, oracles), Cell(p.row + |oracles|, p.col))
    decreases |oracles|
  {
    if oracles != [] {
      var below := Cell(p.row + 1, p.col);
      var g1, rest := Pass(g, time, oracles[0]), oracles[1..];
      RunFirstFrame(g, time, oracles);
      LoneGrainAgain(g, time, oracles[0], p);
      LoneGrainFallsOneRowPerFrame(g1, time + 1, rest, below);
      assert Cell(below.row + |rest|, below.col) == Cell(p.row + |oracles|, p.col);
    } else {
      assert Cell(p.row + |oracles|, p.col) == p;
    }
  }

  /** A run is its first frame followed by the rest of the run. */
  lemma RunFirstFrame(g: Grid, time: Time, oracles: seq<Coins>)
    requires IsRect(g) && oracles != []
    ensures Run(g, time, oracles) == Run(Pass(g, time, oracles[0]), time + 1, oracles[1..])
  {
  }
}
