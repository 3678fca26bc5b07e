/*
 * The one-byte tile encoding of the sand simulation.
 *
 *   bit 7    "updated" flag: equal to the parity of the frame counter at the
 *            time the tile was last processed
 *   bit 6    "static" flag: the tile is at rest and is skipped
 *   bits 4-5 unused
 *   bits 0-3 type id (0 air, 1 sand, 2 water, 3 wood, 4 steam, 5 fire,
 *            6-15 unused)
 *
 * The frame counter is a C `unsigned int`, modelled as `bv32` so that its
 * increment wraps around exactly as the source's does.
 */
module TileCodec {

  type Tile = bv8
  type Time = bv32

  const AIR: bv8 := 0
  const SAND: bv8 := 1
  const WATER: bv8 := 2
  const WOOD: bv8 := 3
  const STEAM: bv8 := 4
  const FIRE: bv8 := 5

  /** The type id: the low four bits of the tile. */
  function TileId(tile: Tile): (id: bv8)
  {
    tile & 0x0F
  }

  /** 0 for an even time, 1 for an odd one. */
  function TimeParity(time: Time): (p: bv8)
  {
    (time & 1) as bv8
  }

  /** The top bit of the tile. */
  function UpdatedFlag(tile: Tile): (f: bool)
  {
    tile >> 7 == 1
  }

  /** A tile counts as updated when its flag equals the parity of the time. */
  function IsTileUpdated(tile: Tile, time: Time): (b: bool)
  {
    (if UpdatedFlag(tile) then 1 else 0) == TimeParity(time)
  }

  /** The second-highest bit of the tile. */
  function IsTileStatic(tile: Tile): (b: bool)
  {
    (tile >> 6) & 1 == 1
  }

  /**
   * Reference definition of a tile whose updated flag has been synced to the
   * parity of `time`: the low seven bits kept, bit 7 replaced by the parity.
   */
  function Marked(tile: Tile, time: Time): (m: Tile)
    ensures IsTileUpdated(m, time) && !IsTileUpdated(m, time + 1)
    ensures m & 0x7F == tile & 0x7F
    ensures TileId(m) == TileId(tile) && IsTileStatic(m) == IsTileStatic(tile)
  {
    (tile & 0x7F) | (TimeParity(time) << 7)
  }

  /**
   * `set_tile_updated`: the byte it points to is passed in and its new
   * value returned. Parity 0 clears bit 7 with an AND, parity 1 sets it with
   * an OR.
   */
  method SetTileUpdated(tile: Tile, time: Time) returns (updated: Tile)
    ensures updated == Marked(tile, time)
  {
    var parity := TimeParity(time);
    var turnOff: bv8 := 127;
    var turnOn: bv8 := 128;
    if parity == 0 {
      updated := tile & turnOff;
    } else {
      updated := tile | turnOn;
    }
  }

  /**
   * `set_tile_static`: sets or clears bit 6 and leaves every other bit, so
   * neither the type nor the updated flag changes.
   */
  method SetTileStatic(tile: Tile, shouldSetStatic: bool) returns (updated: Tile)
    ensures IsTileStatic(updated) == shouldSetStatic
    ensures updated & 0xBF == tile & 0xBF
    ensures TileId(updated) == TileId(tile) && UpdatedFlag(updated) == UpdatedFlag(tile)
  {
    var turnOff: bv8 := 191;
    var turnOn: bv8 := 64;
    if shouldSetStatic {
      updated := tile | turnOn;
    } else {
      updated := tile & turnOff;
    }
  }

  /** The type id is the tile modulo 16, and the tile is its high bits with the id below them. */
  lemma TileIdIsLowNibble(tile: Tile)
    ensures TileId(tile) <= 15 && TileId(tile) == tile % 16
    ensures tile == (tile & 0xF0) | TileId(tile)
  {
  }

  /** The parity is 0 for an even time and 1 for an odd one. */
  lemma TimeParityValues(time: Time)
    ensures TimeParity(time) == if time % 2 == 0 then 0 else 1
  {
  }

  /** The updated flag is set exactly on the bytes 128 to 255. */
  lemma UpdatedFlagIsTopBit(tile: Tile)
    ensures UpdatedFlag(tile) <==> tile >= 128
  {
  }

  /** A tile is updated exactly when its top bit matches the parity of the time. */
  lemma IsTileUpdatedMeaning(tile: Tile, time: Time)
    ensures IsTileUpdated(tile, time) <==> (tile >= 128 <==> time % 2 == 1)
  {
  }

  /** A tile is static exactly when bit 6 is set. */
  lemma IsTileStaticIsBit6(tile: Tile)
    ensures IsTileStatic(tile) <==> tile % 128 >= 64
  {
  }

  /** Marking is idempotent, and marking at one time then another keeps only the last. */
  lemma MarkedIdempotent(tile: Tile, time: Time, later: Time)
    ensures Marked(Marked(tile, time), time) == Marked(tile, time)
    ensures Marked(Marked(tile, time), later) == Marked(tile, later)
  {
  }

  /** The frame parity alternates on every increment, across the 32-bit wrap too. */
  lemma ParityAlternates(time: Time)
    ensures TimeParity(time + 1) != TimeParity(time)
  {
  }

  /** A freshly allocated tile (byte 0) is non-static air that counts as updated at time 0. */
  lemma ZeroTile()
    ensures TileId(0) == AIR && !IsTileStatic(0) && IsTileUpdated(0, 0)
  {
  }
}
