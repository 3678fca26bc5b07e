# Falling-sand engine: a Dafny model

This project models the engine of a falling-sand simulation written in C
(`src/sandbox.c`, with the contracts of `src/sandbox.h`) and proves what the
engine guarantees. The engine is a height-by-width grid of one-byte tiles,
changed in place, and a frame counter. The C code has three layers:

- **The tile codec** (`tile_codec.dfy`, module `TileCodec`):
  - bits 0-3 of a tile hold the type id;
  - bit 7 is the "updated" flag, compared with the parity of the frame counter;
  - bit 6 is the "static" flag.

  The readers are functions over `bv8` and the frame counter is a `bv32`, so
  the increment wraps around as the C `unsigned int` does. The two setters
  take an `unsigned char *`. They are methods that take the byte and
  return its new value.
- **The classification switches** (`classification.dfy`): which types fall,
  flow, rise or are solid.
- **The grid engine**:
  - `grid.dfy` holds the grid as a value, with `Set` and `Swap` and the
    per-type tile counts.
  - `movement.dfy` holds the decision of each movement rule. Each decision is
    a function giving the one cell the tile swaps with, or none.
  - `scheduler.dfy` holds the row-major scan of `process_sandbox`, as a
    function on the grid value.
  - `sandbox.dfy` holds the class `Engine.Sandbox`. It keeps the grid in an
    `array2<bv8>` and the frame counter in a field. Its methods follow the C
    functions branch by branch. Each one is proved to leave the array equal to
    the functional model applied to the grid it started from. The ghost field
    `rows` holds the array's contents as a value, tied to it by `Valid()`.

`_flip_coin` draws from `rand()`. The model replaces the coin with a value the
caller supplies:
- Each movement decision takes a `heads` argument.
- A frame takes a `Coins` oracle from (cell, rule) to a coin.

A frame flips at most one coin per rule per visited cell, and visits each cell
once. So every sequence of coin results the generator can produce is one such
oracle. The movement properties are proved for every coin. Each decision is
also checked against a declarative set of legal destinations: it picks a
member of the set, it picks nothing only when the set is empty, and each
member is picked for some coin.

Behaviour of the code a reader might not expect:
- **Diagonal fall.** A grain falls diagonally into any air cell of the next
  row beside it. No check is made on its own row's neighbours.
- **Flow.** A liquid flows only into air, never into a liquid of another type.
- **Water is solid.** `_is_solid` counts water, so a liquid resting on water
  flows.
- **Type ids.** The header's `enum tile_id` lists only air, sand and water.
  The ids 0-5 here are those `sandbox.c` defines. Ids 6-15 take the `default`
  branch of every switch.
- **Edges.** The C code finds the left and top edges by unsigned wrap-around
  (`index - 1 != -1`). The model writes these as `col > 0` and `row > 0`.

## Model

| member | source | states |
|---|---|---|
| TileCodec.TileIdIsLowNibble | src/sandbox.c:396-403 | The type id is the low four bits of the tile. It ranges over 0 to 15 (as `get_tile_id`'s header comment promises), equals the tile modulo 16, and together with the high four bits rebuilds the tile. |
| TileCodec.TimeParityValues | src/sandbox.c:664-668 | The parity is 0 for even times and 1 for odd ones, as `get_time_parity`'s header comment promises. |
| TileCodec.UpdatedFlagIsTopBit | src/sandbox.c:670-674 | The updated flag is set exactly when the tile is at least 128. |
| TileCodec.IsTileUpdatedMeaning | src/sandbox.c:406-413 | A tile counts as updated exactly when its top bit matches the parity of the time, as `is_tile_updated`'s header comment promises. |
| TileCodec.IsTileStaticIsBit6 | src/sandbox.c:437-442 | A tile is static exactly when bit 6 is set (the tile modulo 128 is at least 64). |
| TileCodec.Marked | src/sandbox.c:416-434 | The reference definition of a synced flag: afterwards the tile counts as updated at this time and not at the next. The low seven bits, so the type and static flag, are unchanged. |
| TileCodec.SetTileUpdated | src/sandbox.c:416-434 | The AND with 127 or OR with 128, chosen on the parity, yields exactly `Marked(tile, time)`. So the flag is synced to the current parity and the tile is updated right afterwards, as the header comment promises. |
| TileCodec.SetTileStatic | src/sandbox.c:445-460 | Afterwards the static flag equals the argument, so setting it to `b` then reading it gives `b`. Every bit other than bit 6 is unchanged, so the type and the updated flag are kept. |
| TileCodec.MarkedIdempotent | src/sandbox.c:416-434 | Marking twice at one time equals marking once. Marking at one time and then another equals marking at the later one. |
| TileCodec.ParityAlternates | src/sandbox.c:664-668 | The parity changes on every increment of the counter, across the 2^32 wrap as well. |
| TileCodec.ZeroTile | src/sandbox.h:24-35 | Byte 0 is non-static air that counts as updated at time 0. |
| Classification.HasGravity | src/sandbox.c:79-107 | True exactly for sand and water. |
| Classification.HasFlow | src/sandbox.c:118-145 | True exactly for water. |
| Classification.HasLift | src/sandbox.c:157-185 | True exactly for steam and fire. |
| Classification.IsSolid | src/sandbox.c:197-224 | True exactly for sand, water and wood. |
| Classification.ClassesFitTogether | src/sandbox.c:79-224 | Air and ids 6-15 have none of the four properties. Flowing implies falling. Nothing both falls and rises, and nothing that rises is solid. |
| Grids.Set | src/sandbox.c:364 | Writing one cell gives that cell the new tile and keeps the shape and every other cell. |
| Grids.Swap | src/sandbox.c:38-48 | The two cells exchange their tiles. The shape and every other cell are unchanged. |
| Grids.SwapKeepsCounts | src/sandbox.c:38-48 | A swap keeps the number of tiles of every type. |
| Grids.SetSameTypeKeepsCounts | src/sandbox.c:364-387 | Rewriting a cell with a tile of the same type (as marking does) keeps every type count. |
| Movement.Moved | src/sandbox.c:463-661 | A move is at most one swap. It keeps the shape and every type count. |
| Movement.SlideTarget | src/sandbox.c:243-296 | The slide target is in bounds, in the same row, next to the tile, and holds air. |
| Movement.SlideSound | src/sandbox.c:243-296 | The slide picks a free cell beside the tile. It picks none only when neither side is free. |
| Movement.GravityTarget | src/sandbox.c:463-548 | On the bottom row nothing moves. A move is into the next row, in bounds, into a cell the mover may sink into (air, or water when the mover is not water). The decision does not check that the tile's type is one that falls; it reads the type only to stop water sinking through water. Its only precondition is an in-bounds cell. |
| Movement.GravitySound | src/sandbox.c:463-548 | Gravity goes straight down if the tile can sink there, else to a free diagonal below. It stays put only when it has none of these. |
| Movement.GravityFair | src/sandbox.c:463-548 | Every legal destination of a fall is taken for some coin. |
| Movement.FlowTarget | src/sandbox.c:551-568 | Flow moves only a resting tile (bottom row or solid below), sideways in its row, into air. |
| Movement.FlowSound | src/sandbox.c:551-568 | Flow picks a free cell beside a resting tile. It stays put only when there is none. |
| Movement.FlowFair | src/sandbox.c:551-568 | Every legal destination of a flow is taken for some coin. |
| Movement.LiftTarget | src/sandbox.c:571-661 | A rise goes one row up or sideways in the same row, in bounds, into air or water. |
| Movement.LiftSound | src/sandbox.c:571-661 | Straight up through air or water first. Else a free diagonal above. Else, only when capped, a free cell beside. Nothing moves only when all of these are empty. |
| Movement.LiftFair | src/sandbox.c:571-661 | Every legal destination of a rise is taken for some coin. |
| Movement.Sideways | src/sandbox.c:258-295 | The chosen cell is in row `i`, in bounds, next to column `c`, and holds air. The same choice is written out again at src/sandbox.c:505-543 and 616-653. |
| Movement.SidewaysFair | src/sandbox.c:243-296 | When both sides are free, heads goes left and tails right, so each free side is taken for some coin. |
| Movement.DiagonalSlideExample | src/test.c:6-12 | In the 2-by-3 grid of the example driver, flagged sand (129) at (0, 1) above sand falls to the lower left on heads and to the lower right on tails. |
| Scheduler.ApplyRules | src/sandbox.c:367-383 | Running the rules the visited tile's type calls for keeps the shape and every type count. |
| Scheduler.Visit | src/sandbox.c:336-388 | A visit keeps the shape and the type counts. It leaves a skipped tile (air, static or updated) in the origin, and it changes nothing when the tile there is skipped. |
| Scheduler.VisitFrame | src/sandbox.c:336-388 | Besides the origin, a visit changes only cells that held air or water, and leaves a skipped tile in each. |
| Scheduler.Pass | src/sandbox.c:331-393 | One frame keeps the grid's shape and the number of tiles of every type. |
| Scheduler.ScanIdle | src/sandbox.c:343-359 | A scan over cells that all hold skipped tiles changes nothing. |
| Scheduler.PassHandlesEveryTile | src/sandbox.c:331-393 | At the end of a frame every cell holds air, a static tile, or a tile updated for that frame. |
| Scheduler.PassReadiesNextFrame | src/sandbox.c:385-392 | Once the counter has moved on, every non-air, non-static tile is due again. |
| Scheduler.PassKeepsSettled | src/sandbox.c:343-364 | A tile other than air or water that the scan skips stays in its cell for the whole frame. |
| Scheduler.RestOfScanKeepsSettled | src/sandbox.c:361-387 | From any point of the scan, a tile other than air or water that has had its turn (wherever that took it) or is static does not move again in the frame. |
| Scheduler.WaterMovesTwice | src/sandbox.c:331-393 | For the grid with air, water and wood on the top row and steam, wood and wood below, at an odd frame counter and for every coin, the frame leaves the water two moves from where it started: it flows left into the air, then the steam below rises into it. Air and water are therefore left out of the settled-tile lemmas. |
| Scheduler.LoneGrainFallsOneRow | src/sandbox.c:331-393 | A lone grain of sand above air falls exactly one row in one frame, and every other cell holds air. |
| Scheduler.LoneGrainFallsOneRowPerFrame | src/sandbox.c:331-393 | Over k frames, with the counter advancing between them, a lone grain with k rows of air below falls exactly k rows. |
| Scheduler.Run | src/sandbox.c:331-393 | Any number of frames keeps the shape and every type count. |
| Engine.Sandbox.constructor | src/sandbox.c:302-315 | A fresh height-by-width grid whose every cell is 0, that is non-static air as the header comment promises, and updated at time 0. The counter starts at 0. |
| Engine.Sandbox.SwapTiles | src/sandbox.c:38-48 | The array afterwards is `Swap` of the array before. |
| Engine.Sandbox.SlideLeftOrRight | src/sandbox.c:243-296 | The array afterwards is the array before with the `SlideTarget` move applied. |
| Engine.Sandbox.DoGravity | src/sandbox.c:463-548 | The array afterwards is the array before with the `GravityTarget` move applied. |
| Engine.Sandbox.DoLiquidFlow | src/sandbox.c:551-568 | The array afterwards is the array before with the `FlowTarget` move applied. |
| Engine.Sandbox.DoLift | src/sandbox.c:571-661 | The array afterwards is the array before with the `LiftTarget` move applied. |
| Engine.Sandbox.ApplyRules | src/sandbox.c:367-383 | The array afterwards is `Scheduler.ApplyRules` of the array before. |
| Engine.Sandbox.WriteTile | src/sandbox.c:363 | Storing one byte in the array leaves it equal to `Set` of the array before, with every other cell kept. |
| Engine.Sandbox.ProcessTile | src/sandbox.c:338-387 | The array afterwards is `Visit` of the array before: skip, or mark, move, mark the origin. |
| Engine.Sandbox.ProcessSandbox | src/sandbox.c:331-393 | The array afterwards is `Pass` of the array before, so the shape and every type count are kept. The counter goes up by exactly one, modulo 2^32. |

## Left out

- `_flip_coin` (src/sandbox.c:58-69) draws from `rand()` and compares a float. It is replaced by the coin argument or the `Coins` oracle. The model does not say which coins the generator produces, only what happens for every coin.
- `print_sandbox` writes to standard output and is not modelled.
- `sandbox_free` and the `malloc`/`calloc` array-of-rows layout of `create_sandbox` are memory management. An `array2` stands in for the rows.
- src/gui.c, src/main.c and src/utils.c are not part of this model. They hold the SDL window, input, the command line and `rand()` wrappers.
- src/test.c is a driver that only prints. Its gravity step is the example lemma above; its `set_tile_static` call is covered by `SetTileStatic`'s contract.
- `SANDBOX_LIFETIME` is a global in the C code and a field of the sandbox here. Several sandboxes would share one counter in C.
- The static flag is never set by the engine: the call in `do_gravity` is commented out. The model only shows that the scan skips static tiles.
- Combustion, extinguishing, decay and the placement operations (`place_tile`, `delete_tile`, `replace_tile`) do not exist in this code and are not modelled.
- TileCodec.TileId, TileCodec.TimeParity, TileCodec.UpdatedFlag, TileCodec.IsTileUpdated, TileCodec.IsTileStatic: their meaning is stated in the lemmas `TileIdIsLowNibble`, `TimeParityValues`, `UpdatedFlagIsTopBit`, `IsTileUpdatedMeaning` and `IsTileStaticIsBit6`, not in their own contracts, to keep bit-vector facts out of the grid proofs.
- Scheduler.PassKeepsSettled, Scheduler.RestOfScanKeepsSettled: the "moves at most once per frame" promise is proved only for tiles other than air and water. A gas that rises later in the same scan can swap with water that has already had its turn, and air is displaced by any mover; `Scheduler.WaterMovesTwice` exhibits the water case.
