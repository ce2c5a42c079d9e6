/** The part of enemy pathfinding the game computes itself: the cost grid handed to the search,
    and the extraction of the next step from the path the search returns. The search itself is
    not part of this model. */
module Pathfind {
  import opened Geometry
  import opened Entities
  import opened Levels

  /** A weight per cell; 0 marks a cell the search must not enter. */
  type CostGrid = map<Pos, int>

  /** The weight of one cell. The glyph test comes first, so the exit and potions cost 8 even
      though they are items; actors cost 5 even though they block; only the remaining blocking
      cells keep the initial 0. */
  function CellCost(c: Cell, arena: map<EntityId, Entity>): (cost: int)
    requires c.Occupant? ==> c.id in arena
    ensures cost in {0, 1, 5, 8}
    ensures cost == 8 <==> Glyph(c, arena) == '>' || Glyph(c, arena) == '+'
    ensures cost == 5 <==> Glyph(c, arena) != '>' && Glyph(c, arena) != '+' && c.Occupant? && IsActor(arena[c.id])
    ensures cost == 0 <==> && Glyph(c, arena) != '>' && Glyph(c, arena) != '+'
                           && !(c.Occupant? && IsActor(arena[c.id])) && Blocks(c, arena)
  {
    if Glyph(c, arena) == '>' || Glyph(c, arena) == '+' then 8
    else if c.Occupant? && IsActor(arena[c.id]) then 5
    else if Blocks(c, arena) then 0
    else 1
  }

  /** get_cost: the cost of every cell of the level, over exactly the level's cells. */
  function GetCost(lv: Level): (cost: CostGrid)
    requires Known(lv.tiles, lv.arena)
    ensures cost.Keys == lv.tiles.Keys
    ensures forall p :: p in cost ==> cost[p] == CellCost(lv.tiles[p], lv.arena)
  {
    map p | p in lv.tiles :: CellCost(lv.tiles[p], lv.arena)
  }

  /** The search never routes through a zero-cost cell, and every zero-cost cell blocks, so
      no cell an entity could walk onto is ruled out; the costs only take the four values. */
  lemma CostMatchesPassability(lv: Level, p: Pos)
    requires Known(lv.tiles, lv.arena) && p in lv.tiles
    ensures GetCost(lv)[p] in {0, 1, 5, 8}
    ensures GetCost(lv)[p] == 0 ==> Blocks(lv.tiles[p], lv.arena)
    ensures (lv.tiles[p].Terrain? && lv.tiles[p].tile.glyph == '#' && lv.tiles[p].tile.blocksMovement) ==>
              GetCost(lv)[p] == 0
  {
  }

  /** The step taken from a path: its second node, or (0, 0) when the path has fewer than two
      nodes (no route, or already at the goal). */
  function NextStep(path: seq<Pos>): (next: Pos)
    ensures |path| >= 2 ==> next == path[1]
    ensures |path| < 2 ==> next == Pos(0, 0)
  {
    if |path| >= 2 then path[1] else Pos(0, 0)
  }

  /** A search result that starts at the seeker and moves through neighbouring cells yields a
      unit step; an empty or one-node result sends the seeker toward (0, 0). */
  lemma NextStepIsNeighbour(path: seq<Pos>, from: Pos)
    ensures |path| >= 2 && path[0] == from && Adjacent(path[0], path[1]) ==>
              Adjacent(from, NextStep(path)) && Shift(from, Offset(from, NextStep(path))) == NextStep(path)
    ensures |path| < 2 ==> Offset(from, NextStep(path)) == Pos(-from.x, -from.y)
  {
  }
}
