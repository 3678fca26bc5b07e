/*
 * The four classification switches of the engine. Each is a total switch on
 * the type id; ids 6-15 fall to the `default` branch, which answers false.
 */
module Classification {
  import opened TileCodec

  /** Whether the tile falls (`_tile_has_gravity`). */
  function HasGravity(tile: Tile): (b: bool)
    ensures b <==> TileId(tile) == SAND || TileId(tile) == WATER
  {
    var id := TileId(tile);
    if id == AIR then false
    else if id == SAND then true
    else if id == WATER then true
    else if id == WOOD then false
    else if id == STEAM then false
    else if id == FIRE then false
    else false
  }

  /** Whether the tile spreads sideways once it rests (`_tile_has_flow`). */
  function HasFlow(tile: Tile): (b: bool)
    ensures b <==> TileId(tile) == WATER
  {
    var id := TileId(tile);
    if id == AIR then false
    else if id == SAND then false
    else if id == WATER then true
    else if id == WOOD then false
    else if id == STEAM then false
    else if id == FIRE then false
    else false
  }

  /** Whether the tile floats upwards (`_tile_has_lift`). */
  function HasLift(tile: Tile): (b: bool)
    ensures b <==> TileId(tile) == STEAM || TileId(tile) == FIRE
  {
    var id := TileId(tile);
    if id == AIR then false
    else if id == SAND then false
    else if id == WATER then false
    else if id == WOOD then false
    else if id == STEAM then true
    else if id == FIRE then true
    else false
  }

  /** Whether the tile can act as a floor or a ceiling (`_is_solid`); water counts. */
  function IsSolid(tile: Tile): (b: bool)
    ensures b <==> TileId(tile) == SAND || TileId(tile) == WATER || TileId(tile) == WOOD
  {
    var id := TileId(tile);
    if id == AIR then false
    else if id == SAND then true
    else if id == WATER then true
    else if id == WOOD then true
    else if id == STEAM then false
    else if id == FIRE then false
    else false
  }

  /**
   * How the switches fit together: air and the unused ids have no property,
   * flowing implies falling, and nothing both falls and rises.
   */
  lemma ClassesFitTogether(tile: Tile)
    ensures TileId(tile) == AIR || TileId(tile) > FIRE ==>
              !HasGravity(tile) && !HasFlow(tile) && !HasLift(tile) && !IsSolid(tile)
    ensures HasFlow(tile) ==> HasGravity(tile)
    ensures !(HasGravity(tile) && HasLift(tile))
    ensures HasLift(tile) ==> !IsSolid(tile)
  {
  }
}
