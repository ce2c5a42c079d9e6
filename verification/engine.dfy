/** The engine: difficulty by depth, level transitions, the clean-up pass, the box field of
    view, the bump dispatcher that picks an action, and the enemies' turn. */
module Engines {
  import opened Geometry
  import opened Tiles
  import opened Rooms
  import opened Entities
  import opened Factory
  import opened Draws
  import opened Levels
  import opened Actions
  import opened Pathfind

  /** Every level is generated on the same grid: 18 columns by 15 rows. */
  const MapWidth: int := 18
  const MapHeight: int := 15

  /** The engine's state: the level being played, its background (terrain as carved, updated
      by corpses and taken items), the visibility grid (`explored` flags over the carved
      terrain), how many levels have been generated, and the seed. */
  datatype Engine = Engine(level: Level, background: Grid, layout: map<Pos, Tile>, depth: nat, seed: int)

  function WorldOf(e: Engine): World {
    World(e.level, e.background)
  }

  // ---------------------------------------------------------------------------------------
  // Difficulty

  datatype Params = Params(minRooms: int, maxRooms: int, minRoomSize: int, maxRoomSize: int,
                           numEnemies: int, numPotions: int)

  /** calculate_paramaters: rooms and room size grow with depth - depth/4, enemies with depth,
      potions with depth/2, each capped. The depth is never negative, so the game's
      `int(depth / 4)` is plain division. */
  function CalculateParameters(depth: nat): (p: Params)
    ensures p.minRooms == p.maxRooms && p.minRoomSize == 4
    ensures 3 <= p.minRooms <= 4 && 4 <= p.maxRoomSize <= 5
    ensures 2 <= p.numEnemies <= 6 && 2 <= p.numPotions <= 6
  {
    var grown := depth - depth / 4;
    Params(Min(4, 3 + grown), Min(4, 3 + grown), 4, Min(5, 4 + grown), Min(6, 2 + depth), Min(6, 2 + depth / 2))
  }

  /** The first level is generated with three rooms of size 4, two enemies and two potions;
      from depth 8 on every parameter has reached its cap. */
  lemma ParametersAtTheEnds(depth: nat)
    ensures CalculateParameters(0) == Params(3, 3, 4, 4, 2, 2)
    ensures depth >= 8 ==> CalculateParameters(depth) == Params(4, 4, 4, 5, 6, 6)
  {
  }

  /** Going deeper never makes a level easier: every parameter is non-decreasing in depth. */
  lemma ParametersMonotone(d1: nat, d2: nat)
    requires d1 <= d2
    ensures var p, q := CalculateParameters(d1), CalculateParameters(d2);
            && p.minRooms <= q.minRooms && p.maxRooms <= q.maxRooms
            && p.minRoomSize <= q.minRoomSize && p.maxRoomSize <= q.maxRoomSize
            && p.numEnemies <= q.numEnemies && p.numPotions <= q.numPotions
  {
    assert d1 - d1 / 4 <= d2 - d2 / 4;
  }

  // ---------------------------------------------------------------------------------------
  // Clean-up and the engine invariant

  /** The cell holds some AIFighter (not necessarily the entity asking). */
  predicate HoldsAIFighter(c: Cell, arena: map<EntityId, Entity>) {
    c.Occupant? && c.id in arena && IsAIFighter(arena[c.id])
  }

  /** Every live entity stands on the grid. */
  predicate OnGrid(lv: Level) {
    forall id :: id in lv.entities ==> id in lv.arena && lv.arena[id].pos in lv.tiles
  }

  /** clean_up: a live entity stays live exactly when the cell at its position holds an
      AIFighter; nothing else changes. */
  function CleanUp(lv: Level): (lv': Level)
    requires OnGrid(lv)
    ensures lv' == lv.(entities := lv'.entities)
    ensures lv'.entities <= lv.entities
    ensures forall id :: id in lv.entities ==>
              (id in lv'.entities <==> HoldsAIFighter(lv.tiles[lv.arena[id].pos], lv.arena))
  {
    lv.(entities := set id | id in lv.entities && HoldsAIFighter(lv.tiles[lv.arena[id].pos], lv.arena))
  }

  /** What the live set means during play: every member is an AIFighter standing on its own
      cell. */
  ghost predicate Consistent(lv: Level) {
    forall id :: id in lv.entities ==>
      && id in lv.arena && IsAIFighter(lv.arena[id])
      && lv.arena[id].pos in lv.tiles && lv.tiles[lv.arena[id].pos] == Occupant(id)
  }

  /** The player occupies the cell at its own position. */
  predicate PlayerStands(lv: Level) {
    && PlayerId in lv.arena
    && lv.arena[PlayerId].pos in lv.tiles
    && lv.tiles[lv.arena[PlayerId].pos] == Occupant(PlayerId)
  }

  /** The engine invariant between turns. */
  ghost predicate Playable(e: Engine) {
    && Sound(WorldOf(e))
    && e.layout.Keys == e.level.tiles.Keys
    && Consistent(e.level)
    && PlayerStands(e.level)
  }

  /** Clean-up is idempotent, and on a consistent level it changes nothing. */
  lemma CleanUpIdempotent(lv: Level)
    requires OnGrid(lv)
    ensures OnGrid(CleanUp(lv)) && CleanUp(CleanUp(lv)) == CleanUp(lv)
    ensures Consistent(lv) ==> CleanUp(lv) == lv
  {
    if Consistent(lv) {
      assert CleanUp(lv).entities == lv.entities;
    }
  }

  // ---------------------------------------------------------------------------------------
  // Field of view

  /** The box the player sees: columns max(0, px-3) .. min(width, px+3)-1 and the same for
      rows, three cells to the left and up but only two to the right and down. */
  predicate InView(p: Pos, player: Pos, width: int, height: int) {
    && Max(0, player.x - 3) <= p.x < Min(width, player.x + 3)
    && Max(0, player.y - 3) <= p.y < Min(height, player.y + 3)
  }

  /** fov: marks every cell of the box explored and leaves everything else as it was. */
  function Fov(layout: map<Pos, Tile>, player: Pos, width: int, height: int): (layout': map<Pos, Tile>)
    ensures layout'.Keys == layout.Keys
    ensures forall p :: p in layout ==>
              layout'[p].explored == (layout[p].explored || InView(p, player, width, height))
    ensures forall p :: p in layout ==> layout'[p] == layout[p].(explored := layout'[p].explored)
  {
    map p | p in layout :: if InView(p, player, width, height) then layout[p].(explored := true) else layout[p]
  }

  /** Looking twice shows nothing new, and nothing once explored is forgotten. */
  lemma FovIdempotent(layout: map<Pos, Tile>, player: Pos, width: int, height: int)
    ensures Fov(Fov(layout, player, width, height), player, width, height) == Fov(layout, player, width, height)
    ensures forall p :: p in layout && layout[p].explored ==> Fov(layout, player, width, height)[p].explored
  {
  }

  /** The box is lopsided: the cell three to the left of the player is seen (when on the grid)
      but the cell three to the right never is; the same holds for rows. */
  lemma FovIsLopsided(layout: map<Pos, Tile>, player: Pos, width: int, height: int)
    requires forall p :: p in layout <==> InBounds(p, width, height)
    requires InBounds(player, width, height)
    ensures var left, right := Pos(player.x - 3, player.y), Pos(player.x + 3, player.y);
            && (left in layout ==> Fov(layout, player, width, height)[left].explored)
            && (right in layout ==> Fov(layout, player, width, height)[right] == layout[right])
    ensures var up, down := Pos(player.x, player.y - 3), Pos(player.x, player.y + 3);
            && (up in layout ==> Fov(layout, player, width, height)[up].explored)
            && (down in layout ==> Fov(layout, player, width, height)[down] == layout[down])
  {
  }

  /** The view the field of view is documented to give: three cells in every direction, the
      range ends included. */
  predicate InSquare(p: Pos, player: Pos, width: int, height: int) {
    && Max(0, player.x - 3) <= p.x < Min(width, player.x + 4)
    && Max(0, player.y - 3) <= p.y < Min(height, player.y + 4)
  }

  /** fov with the ranges closed at player + 3: marks the square of radius three. */
  function FovSquare(layout: map<Pos, Tile>, player: Pos, width: int, height: int): (layout': map<Pos, Tile>)
    ensures layout'.Keys == layout.Keys
    ensures forall p :: p in layout ==>
              layout'[p].explored == (layout[p].explored || InSquare(p, player, width, height))
    ensures forall p :: p in layout ==> layout'[p] == layout[p].(explored := layout'[p].explored)
  {
    map p | p in layout :: if InSquare(p, player, width, height) then layout[p].(explored := true) else layout[p]
  }

  /** On a grid the player stands on, the corrected view is symmetric: a cell of the grid is
      newly seen exactly when it lies at most three columns and three rows from the player, on
      either side. */
  lemma FovSquareIsSymmetric(layout: map<Pos, Tile>, player: Pos, width: int, height: int)
    requires forall p :: p in layout <==> InBounds(p, width, height)
    requires InBounds(player, width, height)
    ensures forall p :: p in layout ==>
              (FovSquare(layout, player, width, height)[p].explored <==>
                 layout[p].explored || (-3 <= p.x - player.x <= 3 && -3 <= p.y - player.y <= 3))
    ensures var left, right := Pos(player.x - 3, player.y), Pos(player.x + 3, player.y);
            && (left in layout ==> FovSquare(layout, player, width, height)[left].explored)
            && (right in layout ==> FovSquare(layout, player, width, height)[right].explored)
  {
  }

  // ---------------------------------------------------------------------------------------
  // Bump

  datatype ActionKind = MovementAction | AttackAction | TakeAction

  datatype Option<T> = None | Some(value: T)

  /** bump's choice, in the game's order: an AIFighter bumping an AIFighter does nothing
      (None); any other bump into an actor attacks; the player bumping an item takes it;
      everything else is a movement. */
  function Dispatch(w: World, start: Pos, delta: Pos): (k: Option<ActionKind>)
    requires Ready(w, start, delta)
  {
    var mover := w.level.arena[MoverId(w, start)];
    var dest := w.level.tiles[Shift(start, delta)];
    if dest.Occupant? && IsAIFighter(w.level.arena[dest.id]) && IsAIFighter(mover) then None
    else if dest.Occupant? && IsActor(w.level.arena[dest.id]) then Some(AttackAction)
    else if dest.Occupant? && IsItem(w.level.arena[dest.id]) && IsFighter(mover) then Some(TakeAction)
    else Some(MovementAction)
  }

  /** Carries out the chosen action; the flag reports an exit taken, which asks the engine for
      the next level. */
  function Resolve(w: World, start: Pos, delta: Pos): (r: (World, bool))
    requires Sound(w) && Ready(w, start, delta)
    ensures Sound(r.0)
    ensures r.1 ==> Dispatch(w, start, delta) == Some(TakeAction) && IsExit(w.level.arena[TargetId(w, start, delta)])
  {
    match Dispatch(w, start, delta)
    case None => (w, false)
    case Some(AttackAction) => AttackKeepsSound(w, start, delta); (Attack(w, start, delta), false)
    case Some(TakeAction) => TakeKeepsSound(w, start, delta); Take(w, start, delta)
    case Some(MovementAction) => MovementKeepsSound(w, start, delta); (Movement(w, start, delta), false)
  }

  /** The world-level part of the engine invariant. */
  ghost predicate InPlay(w: World) {
    Sound(w) && Consistent(w.level) && PlayerStands(w.level)
  }

  lemma MovementKeepsPlay(w: World, start: Pos, delta: Pos)
    requires InPlay(w) && Ready(w, start, delta)
    requires Dispatch(w, start, delta) == Some(MovementAction)
    ensures InPlay(Movement(w, start, delta))
  {
    MovementKeepsSound(w, start, delta);
    var w' := Movement(w, start, delta);
    var m, dest := MoverId(w, start), Shift(start, delta);
    if !Blocks(w.level.tiles[dest], w.level.arena) {
      forall id | id in w'.level.entities
        ensures id in w'.level.arena && IsAIFighter(w'.level.arena[id])
        ensures w'.level.arena[id].pos in w'.level.tiles && w'.level.tiles[w'.level.arena[id].pos] == Occupant(id)
      {
        if id != m {
          assert w.level.tiles[w.level.arena[id].pos] == Occupant(id);
        }
      }
      if m != PlayerId {
        assert w.level.tiles[w.level.arena[PlayerId].pos] == Occupant(PlayerId);
      }
    }
  }

  lemma AttackKeepsPlay(w: World, start: Pos, delta: Pos)
    requires InPlay(w) && Ready(w, start, delta)
    requires Dispatch(w, start, delta) == Some(AttackAction)
    ensures InPlay(Attack(w, start, delta))
  {
    AttackKeepsSound(w, start, delta);
    var w' := Attack(w, start, delta);
    var d, dest := TargetId(w, start, delta), Shift(start, delta);
    forall id | id in w'.level.entities
      ensures id in w'.level.arena && IsAIFighter(w'.level.arena[id])
      ensures w'.level.arena[id].pos in w'.level.tiles && w'.level.tiles[w'.level.arena[id].pos] == Occupant(id)
    {
      assert w.level.tiles[w.level.arena[id].pos] == Occupant(id);
    }
  }

  lemma TakeKeepsPlay(w: World, start: Pos, delta: Pos)
    requires InPlay(w) && Ready(w, start, delta)
    requires Dispatch(w, start, delta) == Some(TakeAction)
    ensures InPlay(Take(w, start, delta).0)
  {
    TakeKeepsSound(w, start, delta);
    var w' := Take(w, start, delta).0;
    forall id | id in w'.level.entities
      ensures id in w'.level.arena && IsAIFighter(w'.level.arena[id])
      ensures w'.level.arena[id].pos in w'.level.tiles && w'.level.tiles[w'.level.arena[id].pos] == Occupant(id)
    {
      assert w.level.tiles[w.level.arena[id].pos] == Occupant(id);
    }
  }

  /** Every action keeps the live set meaning what it means and keeps the player on its cell. */
  lemma ResolveKeepsPlay(w: World, start: Pos, delta: Pos)
    requires InPlay(w) && Ready(w, start, delta)
    ensures InPlay(Resolve(w, start, delta).0)
  {
    match Dispatch(w, start, delta)
    case None =>
    case Some(AttackAction) => AttackKeepsPlay(w, start, delta);
    case Some(TakeAction) => TakeKeepsPlay(w, start, delta);
    case Some(MovementAction) => MovementKeepsPlay(w, start, delta);
  }

  /** What an enemy's bump can do: never take, never ask for a new level, never change the
      live set or the background; it changes no other AIFighter, and the player's hit points
      can only fall. */
  lemma EnemyBump(w: World, start: Pos, delta: Pos)
    requires InPlay(w) && Ready(w, start, delta)
    requires IsAIFighter(w.level.arena[MoverId(w, start)])
    ensures var r := Resolve(w, start, delta);
            && !r.1
            && r.0.level.entities == w.level.entities
            && r.0.background == w.background
            && r.0.level.arena.Keys == w.level.arena.Keys
            && (forall id :: id in w.level.arena && id != MoverId(w, start) && IsAIFighter(w.level.arena[id]) ==>
                  r.0.level.arena[id] == w.level.arena[id])
            && IsActor(r.0.level.arena[PlayerId])
            && r.0.level.arena[PlayerId].role.hp <= w.level.arena[PlayerId].role.hp
  {
    var m := MoverId(w, start);
    assert m != PlayerId;
    match Dispatch(w, start, delta)
    case None =>
    case Some(AttackAction) =>
      var d := TargetId(w, start, delta);
      assert !IsAIFighter(w.level.arena[d]);
      assert d !in w.level.entities;
    case Some(TakeAction) =>
    case Some(MovementAction) =>
  }

  /** What `bump` reports about the destination: the terrain, the entity or the corpse that was
      there before the action (the caller reads only how it is drawn). */
  datatype Seen = SeenTile(tile: Tile) | SeenEntity(entity: Entity) | SeenCorpse

  function SeenAt(c: Cell, arena: map<EntityId, Entity>): (s: Seen)
    requires c.Occupant? ==> c.id in arena
    ensures c.Occupant? <==> s.SeenEntity?
    ensures s.SeenEntity? ==> s.entity == arena[c.id]
    ensures s.SeenTile? ==> c == Terrain(s.tile)
  {
    match c
    case Terrain(t) => SeenTile(t)
    case Occupant(id) => SeenEntity(arena[id])
    case Corpse => SeenCorpse
  }

  // ---------------------------------------------------------------------------------------
  // Level transition

  /** A grid of walls with only floor added holds nothing but unexplored wall and floor. */
  lemma CarvedIsTerrain(g0: Grid, g: Grid)
    requires forall p :: p in g0 ==> g0[p] == Terrain(Wall)
    requires OnlyFloorAdded(g0, g)
    ensures forall p :: p in g ==> g[p] == Terrain(Wall) || g[p] == Terrain(Floor)
    ensures Scenery(g)
  {
  }

  /** The visibility grid: the terrain of every cell, with its flags. */
  function LayoutOf(g: Grid): (layout: map<Pos, Tile>)
    requires forall p :: p in g ==> g[p].Terrain?
    ensures layout.Keys == g.Keys
    ensures forall p :: p in g ==> Terrain(layout[p]) == g[p]
  {
    map p | p in g :: g[p].tile
  }

  lemma SameShapeSameCells<T, U>(a: map<Pos, T>, b: map<Pos, U>, width: int, height: int)
    requires Shaped(a, width, height) && Shaped(b, width, height)
    ensures a.Keys == b.Keys
  {
  }

  /** One member of the live set after spawning: the player is on its own cell and is not an
      AIFighter; a spawned entity is on its own cell and is an AIFighter exactly when it was
      one of the first `numEnemies` spawned. */
  lemma SpawnedMember(lv: Level, out: Level, numEnemies: int, numPotions: int, spawned: seq<EntityId>, id: EntityId)
    requires Valid(lv) && |lv.rooms| > 0 && lv.entities == {PlayerId}
    requires Populated(lv, out, numEnemies, numPotions, spawned)
    requires Center(lv.rooms[0]) != GetExit(lv) && lv.arena[PlayerId].glyph != '.'
    requires id in out.entities
    ensures id in out.arena && out.arena[id].pos in out.tiles && out.tiles[out.arena[id].pos] == Occupant(id)
    ensures IsAIFighter(out.arena[id]) <==> lv.nextId + 1 <= id < lv.nextId + 1 + Max(numEnemies, 0)
    ensures IsAIFighter(out.arena[id]) ==>
              out.arena[id].role == ZombieTemplate.role || out.arena[id].role == VampireTemplate.role
  {
    StatTable();
    if id != PlayerId {
      var i :| 0 <= i < |spawned| && spawned[i] == id;
      assert Spawned(lv, out, spawned[i], i < Max(numEnemies, 0));
    }
  }

  /** After spawning on a freshly carved level, clean-up keeps exactly the spawned enemies, and
      the live set then means what it means during play. */
  lemma CleanUpAfterSpawn(lv: Level, out: Level, numEnemies: int, numPotions: int, spawned: seq<EntityId>)
    requires Valid(lv) && |lv.rooms| > 0 && lv.entities == {PlayerId}
    requires Populated(lv, out, numEnemies, numPotions, spawned)
    requires Center(lv.rooms[0]) != GetExit(lv) && lv.arena[PlayerId].glyph != '.'
    ensures OnGrid(out) && PlayerStands(out)
    ensures Consistent(CleanUp(out))
    ensures forall id :: id in CleanUp(out).entities <==> lv.nextId + 1 <= id < lv.nextId + 1 + Max(numEnemies, 0)
    ensures forall id :: id in CleanUp(out).entities ==>
              out.arena[id].role == ZombieTemplate.role || out.arena[id].role == VampireTemplate.role
  {
    forall id | id in out.entities
      ensures id in out.arena && out.arena[id].pos in out.tiles && out.tiles[out.arena[id].pos] == Occupant(id)
      ensures IsAIFighter(out.arena[id]) <==> lv.nextId + 1 <= id < lv.nextId + 1 + Max(numEnemies, 0)
      ensures IsAIFighter(out.arena[id]) ==>
                out.arena[id].role == ZombieTemplate.role || out.arena[id].role == VampireTemplate.role
    {
      SpawnedMember(lv, out, numEnemies, numPotions, spawned, id);
    }
    forall id | lv.nextId + 1 <= id < lv.nextId + 1 + Max(numEnemies, 0)
      ensures id in out.entities
    {
      assert spawned[id - lv.nextId - 1] == id;
    }
  }

  /** Every live entity of a freshly populated level stands on the grid. */
  lemma PopulatedOnGrid(lv: Level, out: Level, numEnemies: int, numPotions: int, spawned: seq<EntityId>)
    requires Valid(lv) && |lv.rooms| > 0 && lv.entities == {PlayerId}
    requires Populated(lv, out, numEnemies, numPotions, spawned)
    requires Inside(lv.rooms[0], lv.width, lv.height) && WellFormed(lv.rooms[0])
    ensures OnGrid(out)
  {
    CenterOnGrid(lv.rooms[0], lv.width, lv.height);
    forall id | id in out.entities
      ensures id in out.arena && out.arena[id].pos in out.tiles
    {
      if id != PlayerId {
        var i :| 0 <= i < |spawned| && spawned[i] == id;
        assert Spawned(lv, out, spawned[i], i < Max(numEnemies, 0));
      }
    }
  }

  /** What a generated level looks like, for a player carried over from depth `depth`. */
  ghost predicate Generated(e: Engine, player: Entity, depth: nat, seed: int) {
    && Fresh(e, player, depth, seed)
    && (player.glyph != '.' ==> Populous(e, CalculateParameters(depth).numEnemies))
  }

  /** The shape of a generated level: the counters move on, the grid is 18 by 15 with the
      rooms the parameters ask for, none intersecting; the player stands at the first room's
      center; the background is the carved terrain: wall and floor, with floor exactly on the
      rooms' interiors and the corridors between them; the visibility grid is that terrain and
      nothing has been seen yet. */
  ghost predicate Fresh(e: Engine, player: Entity, depth: nat, seed: int) {
    && e.depth == depth + 1 && e.seed == seed + seed
    && e.level.width == MapWidth && e.level.height == MapHeight
    && |e.level.rooms| == CalculateParameters(depth).minRooms && Disjoint(e.level.rooms)
    && PlayerId in e.level.arena
    && e.level.arena[PlayerId] == SetPos(player, Center(e.level.rooms[0]).x, Center(e.level.rooms[0]).y)
    && (forall p :: p in e.background ==> e.background[p] == Terrain(Wall) || e.background[p] == Terrain(Floor))
    && (exists turns :: CarvedFrom(e.background, e.level.rooms, turns))
    && e.layout == LayoutOf(e.background)
    && (forall p :: p in e.layout ==> !e.layout[p].explored)
  }

  /** The level is ready to play, and its live set is exactly the `numEnemies` enemies spawned
      first (ids 2 onward: 0 is the player and 1 the exit). */
  ghost predicate Populous(e: Engine, numEnemies: int) {
    && Playable(e)
    && (forall id :: id in e.level.entities <==> PlayerId + 2 <= id < PlayerId + 2 + numEnemies)
    && forall id :: id in e.level.entities ==>
         e.level.arena[id].role == ZombieTemplate.role || e.level.arena[id].role == VampireTemplate.role
  }

  /** The facts next_level needs about its carved level. */
  ghost predicate FreshlyCarved(lv: Level, player: Entity, depth: nat) {
    && Valid(lv) && lv.width == MapWidth && lv.height == MapHeight
    && lv.entities == {PlayerId} && lv.arena == map[PlayerId := player] && lv.nextId == PlayerId + 1
    && |lv.rooms| == CalculateParameters(depth).minRooms && Disjoint(lv.rooms)
    && (forall i :: 0 <= i < |lv.rooms| ==> Inside(lv.rooms[i], lv.width, lv.height) && SizedBetween(lv.rooms[i], 4, 5))
    && (forall p :: p in lv.tiles ==> lv.tiles[p] == Terrain(Wall) || lv.tiles[p] == Terrain(Floor))
  }

  /** The populated level is playable once cleaned up, when the player is not drawn as floor. */
  lemma SettlePlay(player: Entity, depth: nat, lv: Level, out: Level, spawned: seq<EntityId>)
    requires FreshlyCarved(lv, player, depth) && player.glyph != '.'
    requires Populated(lv, out, CalculateParameters(depth).numEnemies, CalculateParameters(depth).numPotions, spawned)
    ensures OnGrid(out)
    ensures Populous(Engine(CleanUp(out), lv.tiles, LayoutOf(lv.tiles), depth + 1, 0), CalculateParameters(depth).numEnemies)
  {
    var params := CalculateParameters(depth);
    SameShapeSameCells(lv.tiles, out.tiles, MapWidth, MapHeight);
    var first, last := lv.rooms[0], lv.rooms[|lv.rooms| - 1];
    SeparateRooms(first, last, Center(first));
    CleanUpAfterSpawn(lv, out, params.numEnemies, params.numPotions, spawned);
  }

  /** The shape of the level next_level builds from a carved and a populated level. */
  lemma SettleShape(player: Entity, depth: nat, seed: int, lv: Level, out: Level, spawned: seq<EntityId>)
    requires FreshlyCarved(lv, player, depth)
    requires exists turns :: CarvedFrom(lv.tiles, lv.rooms, turns)
    requires Populated(lv, out, CalculateParameters(depth).numEnemies, CalculateParameters(depth).numPotions, spawned)
    requires OnGrid(out)
    ensures Fresh(Engine(CleanUp(out), lv.tiles, LayoutOf(lv.tiles), depth + 1, seed + seed), player, depth, seed)
  {
  }

  /** The last steps of next_level, from a carved and a populated level. */
  lemma Settle(player: Entity, depth: nat, seed: int, lv: Level, out: Level, spawned: seq<EntityId>)
    requires FreshlyCarved(lv, player, depth)
    requires exists turns :: CarvedFrom(lv.tiles, lv.rooms, turns)
    requires Populated(lv, out, CalculateParameters(depth).numEnemies, CalculateParameters(depth).numPotions, spawned)
    ensures OnGrid(out)
    ensures Generated(Engine(CleanUp(out), lv.tiles, LayoutOf(lv.tiles), depth + 1, seed + seed), player, depth, seed)
  {
    var params := CalculateParameters(depth);
    PopulatedOnGrid(lv, out, params.numEnemies, params.numPotions, spawned);
    SettleShape(player, depth, seed, lv, out, spawned);
    if player.glyph != '.' {
      SettlePlay(player, depth, lv, out, spawned);
      var e0 := Engine(CleanUp(out), lv.tiles, LayoutOf(lv.tiles), depth + 1, 0);
      var e := Engine(CleanUp(out), lv.tiles, LayoutOf(lv.tiles), depth + 1, seed + seed);
      assert WorldOf(e) == WorldOf(e0);
    }
  }

  /** A level carved on the blank 18-by-15 grid with the parameters of `depth` is what
      next_level goes on to populate. */
  lemma CarvedIsFresh(player: Entity, depth: nat, blank: Level, lv: Level, turns: seq<bool>)
    requires Valid(blank) && blank.width == MapWidth && blank.height == MapHeight
    requires forall p :: p in blank.tiles ==> blank.tiles[p] == Terrain(Wall)
    requires blank.entities == {PlayerId} && blank.arena == map[PlayerId := player] && blank.nextId == PlayerId + 1
    requires lv == blank.(tiles := lv.tiles, rooms := lv.rooms) && Valid(lv)
    requires |lv.rooms| == Max(CalculateParameters(depth).minRooms, 0) && Disjoint(lv.rooms)
    requires forall i :: 0 <= i < |lv.rooms| ==>
               Inside(lv.rooms[i], blank.width, blank.height) &&
               SizedBetween(lv.rooms[i], CalculateParameters(depth).minRoomSize, CalculateParameters(depth).maxRoomSize)
    requires OnlyFloorAdded(blank.tiles, lv.tiles)
    requires RoomsCarved(lv.tiles, lv.rooms) && CorridorsCarved(lv.tiles, lv.rooms, turns)
    requires OnlyCarvedChanged(blank.tiles, lv.tiles, lv.rooms, turns)
    ensures FreshlyCarved(lv, player, depth)
    ensures CarvedFrom(lv.tiles, lv.rooms, turns)
    ensures forall k :: 0 <= k < |lv.rooms| ==> Inside(lv.rooms[k], lv.width, lv.height) && WellFormed(lv.rooms[k])
  {
    CarvedIsTerrain(blank.tiles, lv.tiles);
  }

  /** next_level: the seed doubles; a fresh 18-by-15 level is carved with the parameters of the
      current depth; the background and the visibility grid are snapshots of the carved
      terrain; then the level is populated and cleaned up, and the depth goes up by one. The
      player carries over (with a new position). Generation only fails by running out of
      draws, because the parameters always admit a level. */
  method NextLevel(player: Entity, depth: nat, seed: int, draws: seq<nat>) returns (r: Result<Engine>, rest: seq<nat>)
    requires IsFighter(player)
    ensures SuffixOf(rest, draws)
    ensures r.Err? ==> r.error == OutOfDraws && |rest| < 4
    ensures r.Ok? ==> Generated(r.value, player, depth, seed)
  {
    var params := CalculateParameters(depth);
    var blank := NewLevel(MapWidth, MapHeight, player);
    var carved, rest1, turns := Carve(blank, params.minRooms, params.maxRooms, params.minRoomSize, params.maxRoomSize, draws);
    if carved.Err? {
      return Err(carved.error), rest1;
    }
    var lv := carved.value;
    CarvedIsFresh(player, depth, blank, lv, turns);
    CarvedIsTerrain(blank.tiles, lv.tiles);
    var background := lv.tiles;
    var layout := LayoutOf(lv.tiles);
    var spawnedLevel, rest2, spawned := Spawn(lv, params.numEnemies, params.numPotions, rest1);
    SuffixTransitive(rest2, rest1, draws);
    rest := rest2;
    if spawnedLevel.Err? {
      return Err(spawnedLevel.error), rest;
    }
    Settle(player, depth, seed, lv, spawnedLevel.value, spawned);
    r := Ok(Engine(CleanUp(spawnedLevel.value), background, layout, depth + 1, seed + seed));
  }

  // ---------------------------------------------------------------------------------------
  // The player's bump

  /** bump, as the game loop calls it for the player (and as an exit's `perform` continues it):
      the chosen action and what the destination held before it are reported; the action is
      carried out; an exit taken hands the surviving player to next_level, which consumes
      draws and can only fail by running out of them. Without a transition no draw is used. */
  method Bump(e: Engine, start: Pos, delta: Pos, draws: seq<nat>)
    returns (r: Result<Engine>, outcome: Option<(ActionKind, Seen)>, rest: seq<nat>)
    requires Playable(e) && Ready(WorldOf(e), start, delta)
    ensures SuffixOf(rest, draws)
    ensures var w, dest := WorldOf(e), Shift(start, delta);
            && (outcome.None? <==> Dispatch(w, start, delta).None?)
            && (outcome.Some? ==> outcome.value == (Dispatch(w, start, delta).value, SeenAt(w.level.tiles[dest], w.level.arena)))
    ensures var res := Resolve(WorldOf(e), start, delta);
            && (!res.1 ==> r == Ok(e.(level := res.0.level, background := res.0.background)) && rest == draws)
            && (res.1 ==> (r.Err? ==> r.error == OutOfDraws && |rest| < 4) && (r.Ok? ==> Generated(r.value, e.level.arena[PlayerId], e.depth, e.seed)))
    ensures r.Ok? && !Resolve(WorldOf(e), start, delta).1 ==> Playable(r.value)
    ensures r.Ok? && e.level.arena[PlayerId].glyph != '.' ==> Playable(r.value)
  {
    var w := WorldOf(e);
    var k := Dispatch(w, start, delta);
    outcome := if k.None? then None else Some((k.value, SeenAt(w.level.tiles[Shift(start, delta)], w.level.arena)));
    var res := Resolve(w, start, delta);
    ResolveKeepsPlay(w, start, delta);
    if !res.1 {
      r, rest := Ok(e.(level := res.0.level, background := res.0.background)), draws;
      assert WorldOf(r.value) == res.0;
      return;
    }
    var player := res.0.level.arena[PlayerId];
    assert player == e.level.arena[PlayerId];
    r, rest := NextLevel(player, e.depth, e.seed, draws);
  }

  // ---------------------------------------------------------------------------------------
  // Enemy turns

  /** The search oracle only returns cells of the grid. */
  ghost predicate Routes(finder: (CostGrid, Pos, Pos) -> seq<Pos>, cells: set<Pos>) {
    forall c, a, b, i :: 0 <= i < |finder(c, a, b)| ==> finder(c, a, b)[i] in cells
  }

  /** The step an enemy standing at `from` takes: toward the second node of the route the
      search returns over the level's costs, or toward (0, 0) when there is none. */
  function Chase(lv: Level, from: Pos, finder: (CostGrid, Pos, Pos) -> seq<Pos>): (delta: Pos)
    requires Known(lv.tiles, lv.arena) && PlayerId in lv.arena
  {
    Offset(from, NextStep(finder(GetCost(lv), from, lv.arena[PlayerId].pos)))
  }

  /** A live enemy may always act toward the step the search picks: it stands on its own cell
      and the step lands on the grid (a grid holding the player holds (0, 0) as well). */
  lemma ChaseIsReady(e: Engine, id: EntityId, finder: (CostGrid, Pos, Pos) -> seq<Pos>)
    requires Playable(e) && id in e.level.entities && Routes(finder, e.level.tiles.Keys)
    ensures Ready(WorldOf(e), e.level.arena[id].pos, Chase(e.level, e.level.arena[id].pos, finder))
    ensures MoverId(WorldOf(e), e.level.arena[id].pos) == id
  {
    var lv := e.level;
    var from := lv.arena[id].pos;
    var path := finder(GetCost(lv), from, lv.arena[PlayerId].pos);
    assert Shift(from, Chase(lv, from, finder)) == NextStep(path);
    if |path| >= 2 {
      assert path[1] in lv.tiles;
    } else {
      assert InBounds(lv.arena[PlayerId].pos, lv.width, lv.height);
      assert InBounds(Pos(0, 0), lv.width, lv.height);
    }
  }

  /** One enemy's turn: it bumps toward the player. The turn keeps the engine invariant, uses
      no draw and changes neither the live set, the background nor any other enemy; the
      player's hit points can only fall. */
  function EnemyTurn(e: Engine, id: EntityId, finder: (CostGrid, Pos, Pos) -> seq<Pos>): (e': Engine)
    requires Playable(e) && id in e.level.entities && Routes(finder, e.level.tiles.Keys)
    ensures Playable(e')
    ensures e' == e.(level := e'.level)
    ensures e'.level.entities == e.level.entities && e'.level.tiles.Keys == e.level.tiles.Keys
    ensures e'.level.arena.Keys == e.level.arena.Keys
    ensures forall j :: j in e.level.arena && j != id && IsAIFighter(e.level.arena[j]) ==>
              e'.level.arena[j] == e.level.arena[j]
    ensures IsActor(e'.level.arena[PlayerId])
    ensures e'.level.arena[PlayerId].role.hp <= e.level.arena[PlayerId].role.hp
  {
    var w := WorldOf(e);
    var from := e.level.arena[id].pos;
    ChaseIsReady(e, id, finder);
    var delta := Chase(e.level, from, finder);
    EnemyBump(w, from, delta);
    ResolveKeepsPlay(w, from, delta);
    var res := Resolve(w, from, delta);
    e.(level := res.0.level)
  }

  /** The engine after each of `ids`, in order, has taken its turn. */
  function Played(e: Engine, ids: seq<EntityId>, finder: (CostGrid, Pos, Pos) -> seq<Pos>): (e': Engine)
    requires Playable(e) && Routes(finder, e.level.tiles.Keys)
    requires forall i :: 0 <= i < |ids| ==> ids[i] in e.level.entities
    ensures PlayerId in e'.level.arena && IsActor(e'.level.arena[PlayerId])
    ensures Playable(e') && e' == e.(level := e'.level)
    ensures e'.level.entities == e.level.entities && e'.level.tiles.Keys == e.level.tiles.Keys
    ensures e'.level.arena.Keys == e.level.arena.Keys
    decreases |ids|
  {
    if |ids| == 0 then e
    else
      var last := ids[|ids| - 1];
      var before := Played(e, ids[..|ids| - 1], finder);
      assert forall j :: j in ids[..|ids| - 1] ==> j in ids;
      EnemyTurn(before, last, finder)
  }

  /** The player's hit points after each turn of `ids`, in order: entry i is read off the
      engine once the first i + 1 of `ids` have taken their turns. */
  function Hps(e: Engine, ids: seq<EntityId>, finder: (CostGrid, Pos, Pos) -> seq<Pos>): (hps: seq<int>)
    requires Playable(e) && Routes(finder, e.level.tiles.Keys)
    requires forall i :: 0 <= i < |ids| ==> ids[i] in e.level.entities
    ensures |hps| == |ids|
    decreases |ids|
  {
    if |ids| == 0 then []
    else Hps(e, ids[..|ids| - 1], finder) + [Played(e, ids, finder).level.arena[PlayerId].role.hp]
  }

  /** One more turn extends the fold by that turn. */
  lemma PlayedStep(e: Engine, ids: seq<EntityId>, id: EntityId, finder: (CostGrid, Pos, Pos) -> seq<Pos>)
    requires Playable(e) && Routes(finder, e.level.tiles.Keys)
    requires forall i :: 0 <= i < |ids| ==> ids[i] in e.level.entities
    requires id in e.level.entities
    ensures forall i :: 0 <= i < |ids + [id]| ==> (ids + [id])[i] in e.level.entities
    ensures Played(e, ids + [id], finder) == EnemyTurn(Played(e, ids, finder), id, finder)
    ensures Hps(e, ids + [id], finder) ==
            Hps(e, ids, finder) + [EnemyTurn(Played(e, ids, finder), id, finder).level.arena[PlayerId].role.hp]
  {
  }

  /** An enemy takes a turn when it is an AIFighter standing on an explored cell. */
  predicate Eligible(e: Engine, id: EntityId) {
    && id in e.level.arena && IsAIFighter(e.level.arena[id])
    && e.level.arena[id].pos in e.layout && e.layout[e.level.arena[id].pos].explored
  }

  /** The members of `order` that take a turn, in order. */
  function Eligibles(e: Engine, order: seq<EntityId>): (ids: seq<EntityId>)
    ensures |ids| <= |order|
    ensures forall id :: id in ids <==> id in order && Eligible(e, id)
    ensures Distinct(order) ==> Distinct(ids)
  {
    if |order| == 0 then []
    else
      var last := order[|order| - 1];
      var init := Eligibles(e, order[..|order| - 1]);
      assert forall id :: id in order <==> id in order[..|order| - 1] || id == last;
      assert Distinct(order) ==> last !in order[..|order| - 1];
      init + if Eligible(e, last) then [last] else []
  }

  /** No id is listed twice. */
  predicate Distinct(ids: seq<EntityId>) {
    forall i, j :: 0 <= i < j < |ids| ==> ids[i] != ids[j]
  }

  /** Each entry is at most the one before it, the first at most `h0`. */
  predicate Declining(h0: int, hps: seq<int>) {
    forall i :: 0 <= i < |hps| ==> hps[i] <= (if i == 0 then h0 else hps[i - 1])
  }

  /** The last entry, or `h0` when there is none. */
  function LastOr(h0: int, hps: seq<int>): int {
    if |hps| == 0 then h0 else hps[|hps| - 1]
  }

  /** The state after the first `processed` members of `order` have been looked at. */
  ghost predicate TurnsSoFar(e: Engine, cur: Engine, order: seq<EntityId>, processed: int, acted: seq<EntityId>, hps: seq<int>,
                             finder: (CostGrid, Pos, Pos) -> seq<Pos>)
    requires Playable(e)
  {
    && 0 <= processed <= |order|
    && Playable(cur) && cur == e.(level := cur.level)
    && cur.level.entities == e.level.entities && cur.level.arena.Keys == e.level.arena.Keys
    && cur.level.tiles.Keys == e.level.tiles.Keys
    && acted == Eligibles(e, order[..processed]) && |hps| == |acted|
    && IsActor(cur.level.arena[PlayerId])
    && Declining(e.level.arena[PlayerId].role.hp, hps)
    && cur.level.arena[PlayerId].role.hp == LastOr(e.level.arena[PlayerId].role.hp, hps)
    && (forall id :: id in e.level.arena && IsAIFighter(e.level.arena[id]) && id !in acted ==>
          cur.level.arena[id] == e.level.arena[id])
    && Replayed(e, cur, acted, hps, finder)
  }

  /** `cur` is the engine after the turns of `acted`, and `hps[i]` the player's hit points after
      the first i + 1 of them. */
  ghost predicate Replayed(e: Engine, cur: Engine, acted: seq<EntityId>, hps: seq<int>,
                           finder: (CostGrid, Pos, Pos) -> seq<Pos>)
    requires Playable(e)
  {
    && Routes(finder, e.level.tiles.Keys)
    && (forall i :: 0 <= i < |acted| ==> acted[i] in e.level.entities)
    && |hps| == |acted|
    && cur == Played(e, acted, finder)
    && hps == Hps(e, acted, finder)
  }

  /** Looking at one more member of the order adds it to the eligible ones exactly when it is
      eligible. */
  lemma EligiblesStep(e: Engine, order: seq<EntityId>, n: int)
    requires 0 <= n < |order|
    ensures Eligibles(e, order[..n + 1]) == Eligibles(e, order[..n]) + if Eligible(e, order[n]) then [order[n]] else []
  {
    assert order[..n + 1][..n] == order[..n];
  }

  lemma DecliningExtend(h0: int, hps: seq<int>, h: int)
    requires Declining(h0, hps) && h <= LastOr(h0, hps)
    ensures Declining(h0, hps + [h]) && LastOr(h0, hps + [h]) == h
  {
    var hps' := hps + [h];
    forall i | 0 <= i < |hps'|
      ensures hps'[i] <= (if i == 0 then h0 else hps'[i - 1])
    {
      if i < |hps| {
        assert hps'[i] == hps[i] <= (if i == 0 then h0 else hps[i - 1]);
      } else {
        assert hps'[i] == h <= LastOr(h0, hps);
      }
      if i > 0 {
        assert hps'[i - 1] == hps[i - 1];
      }
    }
    assert Declining(h0, hps');
  }

  /** The turn of one more live member extends the replayed turns by it. */
  lemma ReplayedStep(e: Engine, cur: Engine, acted: seq<EntityId>, hps: seq<int>, id: EntityId,
                     finder: (CostGrid, Pos, Pos) -> seq<Pos>)
    requires Playable(e) && Replayed(e, cur, acted, hps, finder) && id in e.level.entities
    ensures Playable(cur) && id in cur.level.entities && Routes(finder, cur.level.tiles.Keys)
    ensures var next := EnemyTurn(cur, id, finder);
            Replayed(e, next, acted + [id], hps + [next.level.arena[PlayerId].role.hp], finder)
  {
    PlayedStep(e, acted, id, finder);
    var next := EnemyTurn(cur, id, finder);
  }

  lemma TurnSkipped(e: Engine, cur: Engine, order: seq<EntityId>, processed: int, acted: seq<EntityId>, hps: seq<int>,
                    finder: (CostGrid, Pos, Pos) -> seq<Pos>)
    requires Playable(e) && TurnsSoFar(e, cur, order, processed, acted, hps, finder)
    requires processed < |order| && !Eligible(e, order[processed])
    ensures TurnsSoFar(e, cur, order, processed + 1, acted, hps, finder)
  {
    EligiblesStep(e, order, processed);
  }

  lemma TurnTaken(e: Engine, cur: Engine, order: seq<EntityId>, processed: int, acted: seq<EntityId>, hps: seq<int>,
                  finder: (CostGrid, Pos, Pos) -> seq<Pos>)
    requires Playable(e) && TurnsSoFar(e, cur, order, processed, acted, hps, finder)
    requires Routes(finder, e.level.tiles.Keys) && Distinct(order)
    requires forall id :: id in order <==> id in e.level.entities
    requires processed < |order| && Eligible(e, order[processed])
    ensures Playable(cur) && order[processed] in cur.level.entities && Routes(finder, cur.level.tiles.Keys)
    ensures var id := order[processed];
            var next := EnemyTurn(cur, id, finder);
            TurnsSoFar(e, next, order, processed + 1, acted + [id], hps + [next.level.arena[PlayerId].role.hp], finder)
  {
    var id := order[processed];
    EligiblesStep(e, order, processed);
    assert id !in order[..processed];
    var next := EnemyTurn(cur, id, finder);
    DecliningExtend(e.level.arena[PlayerId].role.hp, hps, next.level.arena[PlayerId].role.hp);
    ReplayedStep(e, cur, acted, hps, id, finder);
  }

  /** What the state after some turns says in the caller's terms. */
  lemma TurnsSoFarMeans(e: Engine, cur: Engine, order: seq<EntityId>, processed: int, acted: seq<EntityId>, hps: seq<int>,
                        finder: (CostGrid, Pos, Pos) -> seq<Pos>)
    requires Playable(e) && TurnsSoFar(e, cur, order, processed, acted, hps, finder)
    ensures Playable(cur) && cur == e.(level := cur.level)
    ensures cur.level.entities == e.level.entities && cur.level.arena.Keys == e.level.arena.Keys
    ensures acted == Eligibles(e, order[..processed]) && |hps| == |acted|
    ensures forall i :: 0 <= i < |acted| ==> acted[i] in e.level.entities
    ensures cur == Played(e, acted, finder)
    ensures hps == Hps(e, acted, finder)
    ensures IsActor(cur.level.arena[PlayerId])
    ensures Declining(e.level.arena[PlayerId].role.hp, hps)
    ensures cur.level.arena[PlayerId].role.hp == LastOr(e.level.arena[PlayerId].role.hp, hps)
    ensures forall id :: id in e.level.arena && IsAIFighter(e.level.arena[id]) && id !in acted ==>
              cur.level.arena[id] == e.level.arena[id]
  {
  }

  /** The last member looked at was the last to take a turn. */
  predicate EndedBy(order: seq<EntityId>, processed: int, acted: seq<EntityId>) {
    0 < processed <= |order| && 0 < |acted| && acted[|acted| - 1] == order[processed - 1]
  }

  /** The player survived every turn but possibly the last, and the last too unless the turns
      are over. */
  predicate Standing(hps: seq<int>, over: bool) {
    && (forall i :: 0 <= i < |hps| - 1 ==> hps[i] > 0)
    && (!over ==> forall i :: 0 <= i < |hps| ==> hps[i] > 0)
  }

  lemma StillStanding(hps: seq<int>, h: int)
    requires Standing(hps, false)
    ensures Standing(hps + [h], !(h > 0))
  {
    assert forall i :: 0 <= i < |hps| ==> (hps + [h])[i] == hps[i];
  }

  lemma TurnsStart(e: Engine, order: seq<EntityId>, finder: (CostGrid, Pos, Pos) -> seq<Pos>)
    requires Playable(e) && Routes(finder, e.level.tiles.Keys)
    ensures TurnsSoFar(e, e, order, 0, [], [], finder)
  {
    assert order[..0] == [];
  }

  /** The turn of the next member of the order: an eligible one acts, and the turns are over
      when it leaves the player dead. */
  method NextTurn(e: Engine, cur: Engine, order: seq<EntityId>, processed: nat, acted: seq<EntityId>, hps: seq<int>,
                  finder: (CostGrid, Pos, Pos) -> seq<Pos>)
    returns (cur': Engine, acted': seq<EntityId>, hps': seq<int>, over: bool)
    requires Playable(e) && TurnsSoFar(e, cur, order, processed, acted, hps, finder) && processed < |order|
    requires Routes(finder, e.level.tiles.Keys) && Distinct(order)
    requires forall id :: id in order <==> id in e.level.entities
    requires Standing(hps, false)
    ensures TurnsSoFar(e, cur', order, processed + 1, acted', hps', finder)
    ensures Standing(hps', over)
    ensures over ==> EndedBy(order, processed + 1, acted') && IsDead(cur'.level.arena[PlayerId])
  {
    var id := order[processed];
    if Eligible(e, id) {
      TurnTaken(e, cur, order, processed, acted, hps, finder);
      cur' := EnemyTurn(cur, id, finder);
      acted', hps' := acted + [id], hps + [cur'.level.arena[PlayerId].role.hp];
      over := IsDead(cur'.level.arena[PlayerId]);
      StillStanding(hps, cur'.level.arena[PlayerId].role.hp);
      assert acted'[|acted'| - 1] == order[processed];
    } else {
      TurnSkipped(e, cur, order, processed, acted, hps, finder);
      cur', acted', hps', over := cur, acted, hps, false;
    }
  }

  /** The turns in order, until the order is exhausted or the player is dead. */
  method RunTurns(e: Engine, order: seq<EntityId>, finder: (CostGrid, Pos, Pos) -> seq<Pos>)
    returns (e': Engine, processed: nat, acted: seq<EntityId>, hps: seq<int>, over: bool)
    requires Playable(e) && Routes(finder, e.level.tiles.Keys)
    requires forall id :: id in order <==> id in e.level.entities
    requires Distinct(order)
    ensures TurnsSoFar(e, e', order, processed, acted, hps, finder) && Standing(hps, over)
    ensures processed < |order| ==> over
    ensures over ==> EndedBy(order, processed, acted) && IsDead(e'.level.arena[PlayerId])
  {
    e', processed, acted, hps := e, 0, [], [];
    over := false;
    TurnsStart(e, order, finder);
    while processed < |order| && !over
      invariant TurnsSoFar(e, e', order, processed, acted, hps, finder)
      invariant Standing(hps, over)
      invariant over ==> EndedBy(order, processed, acted) && IsDead(e'.level.arena[PlayerId])
    {
      e', acted, hps, over := NextTurn(e, e', order, processed, acted, hps, finder);
      processed := processed + 1;
    }
  }

  /** handle_enemy_turns: the live set is snapshotted; every member, in the snapshot's order,
      that is an AIFighter on an explored cell bumps one step along the route the search
      returns toward the player; the turns stop after the first one that leaves the player
      dead. `acted` lists who took a turn and `hps` the player's hit points after each. */
  method HandleEnemyTurns(e: Engine, order: seq<EntityId>, finder: (CostGrid, Pos, Pos) -> seq<Pos>)
    returns (e': Engine, processed: nat, acted: seq<EntityId>, hps: seq<int>)
    requires Playable(e) && Routes(finder, e.level.tiles.Keys)
    requires forall id :: id in order <==> id in e.level.entities
    requires Distinct(order)
    ensures Playable(e')
    ensures e' == e.(level := e'.level)
    ensures e'.level.entities == e.level.entities && e'.level.arena.Keys == e.level.arena.Keys
    ensures processed <= |order| && acted == Eligibles(e, order[..processed])
    ensures |hps| == |acted|
    ensures forall i :: 0 <= i < |acted| ==> acted[i] in e.level.entities
    ensures e' == Played(e, acted, finder)
    ensures hps == Hps(e, acted, finder)
    ensures IsActor(e'.level.arena[PlayerId])
    ensures Declining(e.level.arena[PlayerId].role.hp, hps)
    ensures e'.level.arena[PlayerId].role.hp == LastOr(e.level.arena[PlayerId].role.hp, hps)
    ensures forall i :: 0 <= i < |hps| - 1 ==> hps[i] > 0
    ensures processed < |order| ==>
              && 0 < |acted| && acted[|acted| - 1] == order[processed - 1]
              && IsDead(e'.level.arena[PlayerId])
    ensures forall id :: id in e.level.arena && IsAIFighter(e.level.arena[id]) && id !in acted ==>
              e'.level.arena[id] == e.level.arena[id]
  {
    var over;
    e', processed, acted, hps, over := RunTurns(e, order, finder);
    TurnsSoFarMeans(e, e', order, processed, acted, hps, finder);
  }
}
