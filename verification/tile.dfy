/** Terrain descriptors: the value every grid cell holds when no entity stands on it. */
module Tiles {

  /** One terrain cell. `explored` is the fog-of-war flag that field of view sets;
      `alreadyExplored` is bookkeeping that only the reinforcement-learning wrapper reads. */
  datatype Tile = Tile(
    blocksMovement: bool,
    seeThrough: bool,
    glyph: char,
    explored: bool,
    alreadyExplored: bool)

  /** The tile constructor; `alreadyExplored` defaults to false. */
  function NewTile(blocksMovement: bool, seeThrough: bool, glyph: char, explored: bool,
                   alreadyExplored: bool := false): (t: Tile)
    ensures t.blocksMovement == blocksMovement && t.seeThrough == seeThrough
    ensures t.glyph == glyph && t.explored == explored && t.alreadyExplored == alreadyExplored
  {
    Tile(blocksMovement, seeThrough, glyph, explored, alreadyExplored)
  }

  /** Carved room and corridor floor. */
  const Floor: Tile := NewTile(false, true, '.', false)

  /** Uncarved rock; every cell of a fresh level. */
  const Wall: Tile := NewTile(true, false, '#', false)

  /** A corridor variant that carving does not currently use. */
  const Tunnel: Tile := NewTile(false, true, '-', false)

  /** The three predefined tiles: what blocks, what can be seen through, how each is drawn,
      and that none of them starts explored. */
  lemma PredefinedTiles()
    ensures !Floor.blocksMovement && Floor.seeThrough && Floor.glyph == '.'
    ensures Wall.blocksMovement && !Wall.seeThrough && Wall.glyph == '#'
    ensures !Tunnel.blocksMovement && Tunnel.seeThrough && Tunnel.glyph == '-'
    ensures !Floor.explored && !Wall.explored && !Tunnel.explored
    ensures !Floor.alreadyExplored && !Wall.alreadyExplored && !Tunnel.alreadyExplored
    ensures Floor != Wall && Floor != Tunnel && Wall != Tunnel
  {
  }
}
