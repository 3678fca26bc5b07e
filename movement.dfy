/*
 * The movement rules of the engine: gravity (`do_gravity`), liquid flow
 * (`do_liquid_flow`), lift (`do_lift`) and the sideways slide they share
 * (`_slide_left_or_right`).
 *
 * Each rule is split into its decision, a function giving the one cell the
 * tile at `p` swaps with (or None), and `Moved`, the single swap. The
 * pseudo-random coin flip of the source is the `heads` argument. Each
 * decision is checked against a declarative set of legal destinations
 * (`...Options`): it picks one of them, picks none only when there is none,
 * and every one of them is picked for some coin outcome.
 *
 * The source finds the left and top edges by unsigned wrap-around
 * (`column_index - 1 != -1`); here that is `col > 0` / `row > 0`.
 */
module Movement {
  import opened TileCodec
  import opened Classification
  import opened Grids

  datatype Option<T> = None | Some(value: T)

  /** A destination the tile at `p` may be swapped to. */
  predicate IsStep(g: Grid, p: Cell, dest: Option<Cell>) {
    dest.Some? ==> InBounds(g, dest.value) && dest.value != p
  }

  /** The grid after the tile at `p` is swapped to `dest`, if any: at most one swap. */
  function Moved(g: Grid, p: Cell, dest: Option<Cell>): (g': Grid)
    requires IsRect(g) && InBounds(g, p) && IsStep(g, p, dest)
    ensures SameShape(g, g')
    ensures forall id :: Count(g', id) == Count(g, id)
  {
    match dest
    case None => g
    case Some(q) => SwapKeepsCounts(g, p, q); Swap(g, p, q)
  }

  // ----- legal destinations -----

  /** The cells of row `i` right beside column `c` that hold air. */
  ghost function AirBeside(g: Grid, i: nat, c: nat): (s: set<Cell>)
    requires IsRect(g) && i < |g|
    ensures forall q :: q in s ==> InBounds(g, q) && q.row == i && (q.col + 1 == c || q.col == c + 1)
    ensures forall q :: q in s ==> TileId(At(g, q)) == AIR
  {
    set j | 0 <= j < Width(g) && (j + 1 == c || j == c + 1) && TileId(g[i][j]) == AIR :: Cell(i, j)
  }

  /** Whether a falling `mover` may enter a cell holding `under`: air, or water it is not. */
  predicate SinksInto(mover: Tile, under: Tile) {
    TileId(under) == AIR || (TileId(under) == WATER && TileId(mover) != WATER)
  }

  /**
   * Whether a tile gives way to a mover: air or water. A rising tile enters
   * such a cell straight above it, and every cell a rule swaps into holds one.
   */
  predicate Yields(tile: Tile) {
    TileId(tile) == AIR || TileId(tile) == WATER
  }

  /** Legal destinations of a fall: straight down if it can sink there, else a free diagonal below. */
  ghost function GravityOptions(g: Grid, p: Cell): set<Cell>
    requires IsRect(g) && InBounds(g, p)
  {
    if p.row + 1 == |g| then {}
    else if SinksInto(At(g, p), At(g, Cell(p.row + 1, p.col))) then {Cell(p.row + 1, p.col)}
    else AirBeside(g, p.row + 1, p.col)
  }

  /** Whether the tile at `p` rests: it is on the bottom row or above a solid tile. */
  predicate OnFooting(g: Grid, p: Cell)
    requires IsRect(g) && InBounds(g, p)
  {
    p.row + 1 == |g| || IsSolid(At(g, Cell(p.row + 1, p.col)))
  }

  /** Legal destinations of a flow: the free cells beside a resting liquid. */
  ghost function FlowOptions(g: Grid, p: Cell): set<Cell>
    requires IsRect(g) && InBounds(g, p)
  {
    if OnFooting(g, p) then AirBeside(g, p.row, p.col) else {}
  }

  /** Whether the tile at `p` is capped: on the top row or under a solid tile. */
  predicate UnderCeiling(g: Grid, p: Cell)
    requires IsRect(g) && InBounds(g, p)
  {
    p.row == 0 || IsSolid(At(g, Cell(p.row - 1, p.col)))
  }

  /**
   * Legal destinations of a rise: straight up through air or water; else a
   * free diagonal above; else, when capped, a free cell beside.
   */
  ghost function LiftOptions(g: Grid, p: Cell): set<Cell>
    requires IsRect(g) && InBounds(g, p)
  {
    if p.row > 0 && Yields(At(g, Cell(p.row - 1, p.col))) then {Cell(p.row - 1, p.col)}
    else if p.row > 0 && AirBeside(g, p.row - 1, p.col) != {} then AirBeside(g, p.row - 1, p.col)
    else if UnderCeiling(g, p) then AirBeside(g, p.row, p.col)
    else {}
  }

  // ----- the decisions -----

  /**
   * The left-or-right choice the source writes out three times: go to the
   * air cell of row `i` beside column `c`; when both are air, heads is left.
   */
  function Sideways(g: Grid, i: nat, c: nat, heads: bool): (t: Option<Cell>)
    requires IsRect(g) && i < |g| && c < Width(g)
    ensures t.Some? ==> t.value.row == i && t.value.col < Width(g)
    ensures t.Some? ==> t.value.col + 1 == c || t.value.col == c + 1
    ensures t.Some? ==> TileId(g[i][t.value.col]) == AIR
  {
    var left := c > 0 && TileId(g[i][c - 1]) == AIR;
    var right := c + 1 < Width(g) && TileId(g[i][c + 1]) == AIR;
    if left && right then (if heads then Some(Cell(i, c - 1)) else Some(Cell(i, c + 1)))
    else if left then Some(Cell(i, c - 1))
    else if right then Some(Cell(i, c + 1))
    else None
  }

  /** `_slide_left_or_right` at `p`: to an air cell beside it in its own row. */
  function SlideTarget(g: Grid, p: Cell, heads: bool): (t: Option<Cell>)
    requires IsRect(g) && InBounds(g, p)
    ensures IsStep(g, p, t)
    ensures t.Some? ==> t.value.row == p.row && TileId(At(g, t.value)) == AIR
  {
    Sideways(g, p.row, p.col, heads)
  }

  /**
   * The decision of `do_gravity`. It does not check that the tile at `p` is
   * one that falls; it reads the tile's type only to stop water sinking
   * through water.
   */
  function GravityTarget(g: Grid, p: Cell, heads: bool): (t: Option<Cell>)
    requires IsRect(g) && InBounds(g, p)
    ensures IsStep(g, p, t)
    ensures p.row + 1 == |g| ==> t.None?
    ensures t.Some? ==> t.value.row == p.row + 1 && SinksInto(At(g, p), At(g, t.value))
  {
    var next := p.row + 1;
    if next == |g| then None
    else
      var below := At(g, Cell(next, p.col));
      if TileId(below) == AIR then Some(Cell(next, p.col))
      else if TileId(below) == WATER && TileId(At(g, p)) != WATER then Some(Cell(next, p.col))
      else Sideways(g, next, p.col, heads)
  }

  /** The decision of `do_liquid_flow`: a slide, but only when resting. */
  function FlowTarget(g: Grid, p: Cell, heads: bool): (t: Option<Cell>)
    requires IsRect(g) && InBounds(g, p)
    ensures IsStep(g, p, t)
    ensures t.Some? ==> OnFooting(g, p) && t.value.row == p.row && TileId(At(g, t.value)) == AIR
  {
    var next := p.row + 1;
    if next != |g| && !IsSolid(At(g, Cell(next, p.col))) then None
    else SlideTarget(g, p, heads)
  }

  /** The decision of `do_lift`. */
  function LiftTarget(g: Grid, p: Cell, heads: bool): (t: Option<Cell>)
    requires IsRect(g) && InBounds(g, p)
    ensures IsStep(g, p, t)
    ensures t.Some? ==> t.value.row + 1 == p.row || t.value.row == p.row
    ensures t.Some? ==> Yields(At(g, t.value))
  {
    var canAscend := p.row > 0;
    var canSlide := p.row == 0 || IsSolid(At(g, Cell(p.row - 1, p.col)));
    var ascent :=
      if !canAscend then None
      else if Yields(At(g, Cell(p.row - 1, p.col))) then Some(Cell(p.row - 1, p.col))
      else Sideways(g, p.row - 1, p.col, heads);
    if ascent.Some? then ascent
    else if canSlide then SlideTarget(g, p, heads)
    else None
  }

  // ----- each decision picks a legal destination, and none only when there is none -----

  lemma SidewaysSound(g: Grid, i: nat, c: nat, heads: bool)
    requires IsRect(g) && i < |g| && c < Width(g)
    ensures Sideways(g, i, c, heads).Some? ==> Sideways(g, i, c, heads).value in AirBeside(g, i, c)
    ensures Sideways(g, i, c, heads).None? <==> AirBeside(g, i, c) == {}
  {
    var left := c > 0 && TileId(g[i][c - 1]) == AIR;
    var right := c + 1 < Width(g) && TileId(g[i][c + 1]) == AIR;
    assert left ==> Cell(i, c - 1) in AirBeside(g, i, c);
    assert right ==> Cell(i, c + 1) in AirBeside(g, i, c);
    if !left && !right {
      assert forall q :: q !in AirBeside(g, i, c);
    }
  }

  lemma SlideSound(g: Grid, p: Cell, heads: bool)
    requires IsRect(g) && InBounds(g, p)
    ensures SlideTarget(g, p, heads).Some? ==> SlideTarget(g, p, heads).value in AirBeside(g, p.row, p.col)
    ensures SlideTarget(g, p, heads).None? <==> AirBeside(g, p.row, p.col) == {}
  {
    SidewaysSound(g, p.row, p.col, heads);
  }

  lemma GravitySound(g: Grid, p: Cell, heads: bool)
    requires IsRect(g) && InBounds(g, p)
    ensures GravityTarget(g, p, heads).Some? ==> GravityTarget(g, p, heads).value in GravityOptions(g, p)
    ensures GravityTarget(g, p, heads).None? <==> GravityOptions(g, p) == {}
  {
    if p.row + 1 < |g| && !SinksInto(At(g, p), At(g, Cell(p.row + 1, p.col))) {
      SidewaysSound(g, p.row + 1, p.col, heads);
    }
  }

  lemma FlowSound(g: Grid, p: Cell, heads: bool)
    requires IsRect(g) && InBounds(g, p)
    ensures FlowTarget(g, p, heads).Some? ==> FlowTarget(g, p, heads).value in FlowOptions(g, p)
    ensures FlowTarget(g, p, heads).None? <==> FlowOptions(g, p) == {}
  {
    if OnFooting(g, p) {
      SidewaysSound(g, p.row, p.col, heads);
    }
  }

  lemma LiftSound(g: Grid, p: Cell, heads: bool)
    requires IsRect(g) && InBounds(g, p)
    ensures LiftTarget(g, p, heads).Some? ==> LiftTarget(g, p, heads).value in LiftOptions(g, p)
    ensures LiftTarget(g, p, heads).None? <==> LiftOptions(g, p) == {}
  {
    if p.row > 0 && !Yields(At(g, Cell(p.row - 1, p.col))) {
      SidewaysSound(g, p.row - 1, p.col, heads);
    }
    if p.row == 0 || (!Yields(At(g, Cell(p.row - 1, p.col))) && AirBeside(g, p.row - 1, p.col) == {}) {
      SidewaysSound(g, p.row, p.col, heads);
    }
  }

  // ----- every legal destination is taken on some coin -----

  lemma SidewaysFair(g: Grid, i: nat, c: nat, q: Cell)
    requires IsRect(g) && i < |g| && c < Width(g) && q in AirBeside(g, i, c)
    ensures Sideways(g, i, c, true) == Some(q) || Sideways(g, i, c, false) == Some(q)
    ensures c > 0 && c + 1 < Width(g) && TileId(g[i][c - 1]) == AIR && TileId(g[i][c + 1]) == AIR ==>
      Sideways(g, i, c, true) == Some(Cell(i, c - 1)) && Sideways(g, i, c, false) == Some(Cell(i, c + 1))
  {
  }

  lemma GravityFair(g: Grid, p: Cell, q: Cell)
    requires IsRect(g) && InBounds(g, p) && q in GravityOptions(g, p)
    ensures GravityTarget(g, p, true) == Some(q) || GravityTarget(g, p, false) == Some(q)
  {
    if !SinksInto(At(g, p), At(g, Cell(p.row + 1, p.col))) {
      SidewaysFair(g, p.row + 1, p.col, q);
    }
  }

  lemma FlowFair(g: Grid, p: Cell, q: Cell)
    requires IsRect(g) && InBounds(g, p) && q in FlowOptions(g, p)
    ensures FlowTarget(g, p, true) == Some(q) || FlowTarget(g, p, false) == Some(q)
  {
    SidewaysFair(g, p.row, p.col, q);
  }

  lemma LiftFair(g: Grid, p: Cell, q: Cell)
    requires IsRect(g) && InBounds(g, p) && q in LiftOptions(g, p)
    ensures LiftTarget(g, p, true) == Some(q) || LiftTarget(g, p, false) == Some(q)
  {
    if p.row > 0 && !Yields(At(g, Cell(p.row - 1, p.col))) && AirBeside(g, p.row - 1, p.col) != {} {
      SidewaysFair(g, p.row - 1, p.col, q);
    } else if !(p.row > 0 && Yields(At(g, Cell(p.row - 1, p.col)))) {
      if p.row > 0 {
        SidewaysSound(g, p.row - 1, p.col, true);
        SidewaysSound(g, p.row - 1, p.col, false);
      }
      SidewaysFair(g, p.row, p.col, q);
    }
  }

  // ----- the example driver -----

  /**
   * A 2-by-3 grid of air with flagged sand (129) at (0, 1) and sand below it:
   * gravity moves the upper grain diagonally, to the lower left on heads and
   * to the lower right on tails.
   */
  lemma DiagonalSlideExample()
    ensures var g: Grid := [[0, 129, 0], [0, 1, 0]];
      Moved(g, Cell(0, 1), GravityTarget(g, Cell(0, 1), true)) == [[0, 0, 0], [129, 1, 0]] &&
      Moved(g, Cell(0, 1), GravityTarget(g, Cell(0, 1), false)) == [[0, 0, 0], [0, 1, 129]]
  {
    var g: Grid := [[0, 129, 0], [0, 1, 0]];
    var top: seq<Tile>, bottom: seq<Tile> := [0, 129, 0], [0, 1, 0];
    assert top[1 := 0] == [0, 0, 0];
    assert bottom[0 := 129] == [129, 1, 0] && bottom[2 := 129] == [0, 1, 129];
    assert GravityTarget(g, Cell(0, 1), true) == Some(Cell(1, 0));
    assert GravityTarget(g, Cell(0, 1), false) == Some(Cell(1, 2));
  }
}
