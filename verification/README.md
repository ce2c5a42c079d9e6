# Rules engine of a turn-based dungeon crawler, modelled in Dafny

The game is a small roguelike. Each dungeon level is generated on an 18-by-15 grid:
- rectangular rooms are rejection-sampled and carved out of solid wall;
- consecutive rooms are joined by L-shaped corridors;
- the player is placed at the first room's center and an exit at the last room's;
- zombies, vampires and health potions are scattered on bare floor.

The player bumps into neighbouring cells, and the engine turns each bump into one of three actions:
- moving;
- attacking whatever actor stands there;
- taking the item there (a potion heals; the exit generates the next, harder level).

After the player's move, every enemy standing on an explored cell takes one step along a shortest route toward the player. The engine also keeps:
- a box-shaped field of view that marks cells explored;
- a clean-up pass over the live entity set.

This project models that core as pure functions and small methods over immutable data.

| file | module | models |
|---|---|---|
| `geometry.dfy` | `Geometry` | cells, steps, rectangles, truncating halving |
| `tile.dfy` | `Tiles` | terrain cells and the three predefined tiles |
| `room.dfy` | `Rooms` | rectangular rooms: interior, center, intersection |
| `entity.dfy` | `Entities` | the Entity / Actor / Fighter / AIFighter / Item / Potion / Exit hierarchy, as one record with a closed variant |
| `entity_factory.dfy` | `Factory` | the stat table (player, zombie, vampire, exit, potion, corpse) |
| `draws.dfy` | `Draws` | `random.randint` as an explicit supply of draws; generation errors as a `Result` |
| `level.dfy` | `Levels` | the level: the blank grid, corridor digging, room carving, the exit, the spawner |
| `actions.dfy` | `Actions` | Movement, Attack and Take over a level and its background |
| `pathfind.dfy` | `Pathfind` | the cost grid handed to the search, and the extraction of the next step |
| `engine.dfy` | `Engines` | difficulty by depth, next level, clean-up, field of view, bump, enemy turns |

How the state is represented:
- **Grid.** The occupancy grid is a `map<Pos, Cell>`. A cell holds bare terrain, the id of the entity standing there, or a corpse.
- **Entities.** Entities live in an arena keyed by id. The player is id 0.
- **Live set.** The level's live entity set is a set of ids.
- **Background.** The engine's background is the terrain grid that corpses and taken items update.
- **Visibility grid.** The visibility grid is a map of tiles carrying the `explored` flags.
- **Randomness.** Every random choice is one number taken from a `seq<nat>` supply. `randint(lo, hi)` becomes `lo + d % (hi - lo + 1)`. Running out of draws stands in for the source's rejection loops never finishing.
- **Route search.** The route search is a function parameter of the enemy turn.

## Model

| member | source | states |
|---|---|---|
| Geometry.Half | src/world/room.py:40 | `int(n / 2)` truncates toward zero: it is the floor half on non-negative numbers and the ceiling half on negative ones (n <= 2h <= n + 1), and lies between 0 and n on either sign |
| Tiles.NewTile | src/world/tile.py:3-19 | a tile keeps every flag it was built with; the already-explored flag defaults to false |
| Tiles.PredefinedTiles | src/world/tile.py:21-43 | floor is walkable and see-through, wall blocks and is opaque, the corridor tile is walkable; none starts explored; the three are distinct |
| Rooms.NewRoom | src/world/room.py:7-20 | the far corner is the near corner plus width and height |
| Rooms.InteriorExcludesBorder | src/world/room.py:22-30 | the carvable slice `x1+1 : x2`, `y1+1 : y2` never touches the four border lines and lies strictly inside the box |
| Rooms.CenterPlacement | src/world/room.py:32-40 | on the grid the center is the floor midpoint, lies in the room's box, and in its interior once the room is at least 2 by 2 |
| Rooms.Interior | src/world/room.py:22-30 | definition: the `space` slices, columns x1+1 .. x2-1 and rows y1+1 .. y2-1 |
| Rooms.Center | src/world/room.py:32-40 | definition: the midpoint of each axis truncated toward zero (`Geometry.Half`) |
| Rooms.Intersect | src/world/room.py:43-58 | definition: the four inclusive comparisons of `intersect` |
| Rooms.IntersectSymmetricReflexive | src/world/room.py:43-58 | intersection is symmetric and every well-formed room intersects itself |
| Rooms.TouchingRoomsIntersect | src/world/room.py:53-58 | the test is inclusive: rooms sharing only a border column intersect |
| Rooms.IntersectIffSharedCell | src/world/room.py:53-58 | two well-formed rooms intersect exactly when their closed boxes share a cell |
| Rooms.SeparateRooms | src/world/room.py:30-58 | rooms that do not intersect have disjoint interiors and distinct centers |
| Entities.NewEntity | src/entities/entity.py:8-11 | a plain entity is neither actor nor item and keeps its name, glyph and blocking flag |
| Entities.NewFighter | src/entities/entity.py:23-53 | a new fighter starts at full health (max hp equal to hp) with its stats and no gold |
| Entities.NewAIFighter | src/entities/entity.py:55-59 | a new enemy starts at full health with its stats |
| Entities.NewPotion | src/entities/entity.py:69-74 | a potion carries its heal, attack and defense amounts, all defaulting to 0, and does not block by default |
| Entities.NewExit | src/entities/entity.py:81-83 | an exit is an item that does not block by default |
| Entities.SetPos | src/entities/entity.py:13-19 | after placement the position is exactly (x, y) and nothing else differs |
| Entities.Wound | src/entities/entity.py:28-30 | the hp an attack takes is never negative: zero when the attack does not exceed the defense, otherwise the excess |
| Entities.IsDead | src/entities/entity.py:38-42 | definition: dead exactly when hp is not above zero |
| Entities.Damage | src/entities/entity.py:28-32 | hp falls by exactly the wound and never rises; nothing else changes (dying has no further effect) |
| Entities.Move | src/entities/entity.py:44-46 | the position shifts by exactly (dx, dy) and nothing else changes |
| Entities.Restored | src/entities/entity.py:77 | the heal is capped by the potion's amount and by the missing hp, and equals one of them |
| Entities.Drink | src/entities/entity.py:76-79 | drinking heals by the capped amount, adds the attack and defense bonuses, and changes nothing else |
| Entities.DamageKillsIffWoundReachesHp | src/entities/entity.py:28-42 | damage kills exactly when the wound reaches the remaining hp; the dead stay dead |
| Entities.MoveInverse | src/entities/entity.py:44-46 | moving by (dx, dy) and back by (-dx, -dy) restores the entity |
| Entities.DrinkStaysWithinMax | src/entities/entity.py:76-79 | a potion never heals past max hp, and on a full player a second potion heals nothing |
| Factory.StatTable | src/entities/entity_factory.py:4-16 | the glyphs, hit points, attack, defense, blocking flags and potion strength of every template |
| Factory.PlayerKillsZombieInTwoHits | src/entities/entity_factory.py:8-11 | a fresh zombie survives one player hit at 4 hp and dies at the second; an enemy no stronger than the player's defense does no damage |
| Draws.Draw | src/world/level.py:103-121 | a draw from an empty range fails with EmptyRange; a draw from an exhausted supply fails with OutOfDraws; otherwise the value lies in the closed range and exactly one draw is consumed |
| Draws.DrawReachesEveryValue | src/world/level.py:109-121 | every value a `randint` range allows is produced by some draw, so no outcome of the game's generator is lost |
| Levels.DotMeansBareFloor | src/world/level.py:184-186 | a cell that shows '.' is never a corpse: it is floor terrain or an entity drawn as '.' |
| Levels.NewLevel | src/world/level.py:34-41 | a fresh level covers exactly width by height cells, all wall, with the player as the only entity and live member |
| Levels.FillRect | src/world/level.py:130 | the slice assignment turns exactly the cells of the rectangle to floor and keeps the rest |
| Levels.DigRow | src/world/level.py:66-67 | the loop over a row turns exactly the columns x1 .. x2 of that row to floor |
| Levels.DigColumn | src/world/level.py:71-72 | the loop over a column turns exactly the rows y1 .. y2 of that column to floor |
| Levels.Tunnel | src/world/level.py:51-85 | without a previous room nothing is dug and no draw is used; otherwise one draw picks the orientation (odd starts horizontally), and exactly the L-shaped corridor between the two centers turns to floor |
| Levels.CorridorShape | src/world/level.py:59-85 | the corridor covers both centers, and each of its cells lies on a row or column through a center, inside their bounding box |
| Levels.CorridorWalk | src/world/level.py:59-85 | the corridor connects the two centers: there is a four-directional walk from one to the other through corridor cells only |
| Levels.CarvingPersists | src/world/level.py:107-136 | later carving only adds floor, so it never undoes an earlier room or corridor |
| Levels.DigNewRoom | src/world/level.py:130-132 | carving a room and its corridor adds only floor, leaves the interior and the corridor floor, and changes no cell outside them |
| Levels.AppendCarved | src/world/level.py:130-134 | an accepted room's interior and its corridor from the previous room stay carved in the list |
| Levels.AppendDisjoint | src/world/level.py:127-134 | a room that intersects no accepted room keeps the accepted rooms pairwise non-intersecting |
| Levels.AcceptRoom | src/world/level.py:125-136 | accepting a candidate keeps the carving invariant: rooms in range and on the grid, pairwise apart, interiors and corridors floor, only floor added and only on those interiors and corridors |
| Levels.DrawRoom | src/world/level.py:109-125 | a candidate room uses four draws, has both sides in the size range, and lies with its border on the grid; with a feasible size range it fails only with OutOfDraws, and only when fewer than four draws remain |
| Levels.Carve | src/world/level.py:87-136 | exactly `min_rooms` rooms are accepted, each on the grid with sides in range; no two intersect; every interior and every corridor between consecutive centers is floor; only floor was added, and no cell outside those interiors and corridors changed; nothing but the tiles and rooms changes; with feasible parameters the only failure is OutOfDraws, reached only with fewer than four draws left |
| Levels.GetExit | src/world/level.py:138-139 | the exit cell lies within the last accepted room |
| Levels.PlacePlayerAndExit | src/world/level.py:151-159 | the player moves to the first center, and a fresh exit, not in the live set, stands at the last; with a single room the exit overwrites the player's cell |
| Levels.PlaceEntity | src/world/level.py:195-205 | a placement puts the entity under the next id on the chosen cell; when that id is unused, the arena and the live set each grow by exactly that one id; every other entity and every other cell is unchanged |
| Levels.PlaceOne | src/world/level.py:184-206 | during spawning the next id is always unused, so a placement grows the arena by one; placing an enemy or a potion on a cell showing bare floor keeps the spawning invariant: every spawned entity stands alone on its own interior cell that showed floor, enemies first |
| Levels.SpawnOutcome | src/world/level.py:141-210 | a finished spawning loop, read against the level before spawning, gives the populated level Spawn promises |
| Levels.Spawn | src/world/level.py:141-210 | the spawner fails with NoRooms exactly on a level without rooms; with rooms at least 2 by 2 it otherwise fails only with OutOfDraws, and only with fewer than three draws left. On success the player is at the first center and the exit at the last; exactly `num_enemies` enemies then `num_potions` potions join the live set, each alone on an interior cell that showed '.'; no other entity or cell changes |
| Levels.SpawnLoop | src/world/level.py:161-210 | the placement loop places exactly the requested numbers, enemies first, with consecutive fresh ids, keeping the spawning invariant; it fails only with OutOfDraws with fewer than three draws left |
| Levels.DrawCell | src/world/level.py:163-181 | three draws pick a room and a cell strictly inside its border; with rooms at least 2 by 2 it fails exactly when fewer than three draws remain, consuming none |
| Levels.SpawnAttempt | src/world/level.py:162-210 | one pass either changes nothing (the cell did not show '.') or places one more entity, keeping the spawning invariant. A successful pass consumes exactly three draws, four when it places an enemy; a failing pass is OutOfDraws with fewer than three draws left |
| Actions.Movement | src/utilities/actions.py:39-50 | a blocked destination changes nothing; otherwise the mover shifts by the step, stands on the destination, and its old cell shows the background; no other cell or entity changes |
| Actions.Bounty | src/utilities/actions.py:69-73 | a kill earns 1 gold for glyph 'z', 5 for 'v', nothing otherwise |
| Actions.AddGold | src/utilities/actions.py:69-73 | the player's gold grows by the amount and nothing else changes |
| Actions.Attack | src/utilities/actions.py:56-73 | the target loses exactly its wound and nothing else about it changes. A kill of a live member removes it from the live set and leaves a corpse in both grids; when the player struck, the player's entry changes only by the bounty added to its gold. A kill outside the live set changes only hp. No other entity changes |
| Actions.Take | src/utilities/actions.py:79-85 | the destination becomes floor in both grids; a potion is drunk by the player; an exit asks for the next level and changes no entity; the taker does not move |
| Actions.MovementKeepsSound | src/utilities/actions.py:39-50 | movement keeps the level valid and the background free of occupants |
| Actions.AttackKeepsSound | src/utilities/actions.py:56-73 | attack keeps the level valid and the background free of occupants |
| Actions.TakeKeepsSound | src/utilities/actions.py:79-85 | take keeps the level valid and the background free of occupants |
| Actions.MovementRoundTrip | src/utilities/actions.py:39-50 | stepping onto a cell showing its background and stepping back restores the world exactly |
| Actions.TakeClearsTheWay | src/utilities/actions.py:79-85 | after taking, the taker is still on its cell and a move toward the item's cell goes through |
| Actions.KillClearsTheWay | src/utilities/actions.py:56-73 | a kill leaves a corpse that does not block, so the killer can step onto it |
| Pathfind.CellCost | src/utilities/pathfind.py:30-37 | a cell costs 8 when drawn '>' or '+', else 5 when it holds an actor, else 0 when it blocks, else 1 |
| Pathfind.GetCost | src/utilities/pathfind.py:16-38 | the cost grid covers exactly the level's cells, each costed by its content |
| Pathfind.CostMatchesPassability | src/utilities/pathfind.py:27-37 | the cost is one of 0, 1, 5, 8; only blocking cells cost 0, and wall always costs 0 |
| Pathfind.NextStep | src/utilities/pathfind.py:60-64 | the step is the route's second node, or (0, 0) when the route has fewer than two nodes |
| Pathfind.NextStepIsNeighbour | src/utilities/pathfind.py:55-64 | a route through neighbouring cells gives a unit step; no route sends the seeker toward (0, 0) |
| Engines.CalculateParameters | src/engine.py:62-72 | minimum and maximum room counts agree and lie in 3 .. 4; room size 4 .. 5 from a minimum of 4; enemies and potions each in 2 .. 6 |
| Engines.ParametersAtTheEnds | src/engine.py:62-72 | the first level has 3 rooms of size 4, 2 enemies and 2 potions; from depth 8 every parameter is at its cap |
| Engines.ParametersMonotone | src/engine.py:62-72 | every parameter is non-decreasing in depth |
| Engines.HoldsAIFighter | src/engine.py:80 | definition: clean_up's test, the cell holds an AIFighter |
| Engines.CleanUp | src/engine.py:74-83 | a live entity stays exactly when the cell at its position holds an AIFighter; nothing else changes |
| Engines.CleanUpIdempotent | src/engine.py:74-83 | clean-up is idempotent, and changes nothing when every live member is an enemy on its own cell |
| Engines.InView | src/engine.py:141-142 | definition: fov's two ranges, columns max(0, px-3) .. min(width, px+3)-1 and the same for rows |
| Engines.Fov | src/engine.py:136-143 | exactly the cells of the box become explored, explored cells stay explored, and no other flag changes |
| Engines.FovIdempotent | src/engine.py:136-143 | looking twice reveals nothing new, and nothing explored is forgotten |
| Engines.FovIsLopsided | src/engine.py:136-143 | as written, the cell three to the left (or above) is seen but the cell three to the right (or below) never is |
| Engines.FovSquare | src/engine.py:136-143 | with the ranges closed at player + 3, exactly the square of radius three becomes explored |
| Engines.FovSquareIsSymmetric | src/engine.py:136-143 | the corrected view marks a grid cell exactly when it is at most three columns and three rows from the player, on either side |
| Engines.Resolve | src/engine.py:116-133 | the chosen action keeps the world well formed; a level transition is requested only by taking an exit |
| Engines.MovementKeepsPlay | src/engine.py:128-133 | a movement keeps every live member an enemy on its own cell and the player on its cell |
| Engines.AttackKeepsPlay | src/engine.py:120-122 | an attack keeps every live member an enemy on its own cell and the player on its cell |
| Engines.TakeKeepsPlay | src/engine.py:124-126 | a take keeps every live member an enemy on its own cell and the player on its cell |
| Engines.ResolveKeepsPlay | src/engine.py:116-133 | every action keeps the play invariant |
| Engines.EnemyBump | src/engine.py:116-122 | an enemy's bump never takes or asks for a new level. It changes neither the live set, the background nor any other enemy, and the player's hp can only fall |
| Engines.SeenAt | src/engine.py:110-134 | the reported destination is the terrain, the entity or the corpse that was there |
| Engines.LayoutOf | src/engine.py:55-56 | the visibility grid holds the carved terrain of exactly the level's cells |
| Engines.CarvedIsTerrain | src/engine.py:54-56 | a carved level holds only unexplored wall and floor, so its snapshot holds no occupant |
| Engines.CleanUpAfterSpawn | src/engine.py:57-58 | after spawning, clean-up keeps exactly the spawned enemies (zombies or vampires), each on its own cell; the player and the potions leave the live set |
| Engines.PopulatedOnGrid | src/engine.py:57-58 | every live entity of a freshly populated level stands on the grid |
| Engines.Settle | src/engine.py:55-60 | the populated and cleaned level is a generated level: counters advanced, rooms as the parameters ask, player at the first center, background and visibility grid the carved terrain with nothing explored, and playable with exactly the spawned enemies live |
| Engines.NextLevel | src/engine.py:43-60 | the seed doubles and the depth grows by one; the new level has the parameters' room count, pairwise apart, and the player at the first center; the background is the carved terrain, floor exactly on the room interiors and corridors, and the visibility grid is that terrain unexplored; the live set is exactly the spawned enemies; the only failure is OutOfDraws with fewer than four draws left |
| Engines.Dispatch | src/engine.py:116-128 | definition: bump's dispatch order, AIFighter into AIFighter does nothing, then attack an actor, then a fighter takes an item, else movement; the background item test is left out |
| Engines.Bump | src/engine.py:99-134 | the action is chosen in the game's order and reported with what the destination held. Without a transition no draw is used and the result is the action's world, still playable. Taking an exit yields a generated next level (background and visibility grid the carved terrain) or OutOfDraws with fewer than four draws left |
| Engines.ChaseIsReady | src/engine.py:92-95 | the step the search picks for a live enemy always lands on the grid, and the enemy is the one bumping |
| Engines.Chase | src/engine.py:93-94 | definition: the step toward the second cell of the route the search returns over get_cost's grid, or toward the cell (0, 0) when the route has fewer than two cells |
| Engines.EnemyTurn | src/engine.py:91-95 | one enemy's turn keeps the play invariant and uses no draw. It changes neither the live set nor any other enemy, and the player's hp can only fall |
| Engines.Played | src/engine.py:91-95 | applying the turns of live members one after another keeps the play invariant, the live set, the grid and the arena's ids |
| Engines.PlayedStep | src/engine.py:91-95 | one more turn extends the fold by exactly that enemy's turn, and the hit-point trace by the player's hp after it |
| Engines.Eligibles | src/engine.py:90-92 | the members of the order that act are exactly those that are enemies on explored cells, without repetition |
| Engines.NextTurn | src/engine.py:91-97 | one more member of the order is looked at; the engine stays the fold of the turns of the eligible members so far and `hps` their hit-point trace, and the turns end when the last one left the player dead |
| Engines.RunTurns | src/engine.py:90-97 | the result is the fold of the turns of the eligible members looked at, with their hit-point trace; the loop stops early only after the turn that killed the player |
| Engines.HandleEnemyTurns | src/engine.py:85-97 | exactly the eligible members of the snapshot act, in order, and the result is the engine after their turns (`Played`), with `hps` the player's hp after each (`Hps`). The player's hp never rises from turn to turn and stays positive until the last turn taken. The turns stop early only right after one leaves the player dead. Enemies that did not act are unchanged and the play invariant holds |

## Left out

- The reinforcement-learning environment, the game loop and keyboard input (`main.py`, `src/game.py`, `src/utilities/input.py`, `environment/`), and the engine's `render` and `cheat`: they are I/O around the rules.
- `Engine.__init__`: it seeds from the wall clock and calls `next_level`, which is modelled.
- The A* search (`get_path_to` and the third-party finder): it is a function parameter of the enemy turns. The only thing assumed of it is that it returns cells of the grid.
- Reseeding: the source reseeds `random` between draws from `seed + seedings`, and from the clock in `next_level`. The model takes the draws as an arbitrary supply, so every sequence of outcomes the generator can produce is covered, but the correlation between the seed and the outcomes is not modelled.
- The tile's `dark` glyph and the item's `explored` flag: nothing in the modelled core reads them. The unused corridor tile is defined but never placed.
- Object sharing in the grids: carving assigns one shared floor object to a whole room interior, and the visibility grid is a deep copy that keeps that sharing. So in the source, marking one cell of a room interior explored marks the whole interior. The model marks cells one by one.
- Entity positions before `set_pos`: the source raises AttributeError on reading them. The model gives Pos(0, 0). Only the exit is never placed, and nothing reads its position.
- Engines.Bump: requires the actor's cell and the destination on the grid (Actions.Ready). The source would wrap negative indices or raise IndexError instead.
- Engines.Bump: reports the destination as it was before the action. The source returns the live object, whose hp an attack may have lowered by the time the caller reads it; callers read only its glyph.
- Engines.Bump: the source's second item test reads the visibility grid, which is a snapshot taken before spawning and so never holds an item. The test is left out.
- Engines.HandleEnemyTurns: the order of the snapshot is a parameter, because Python set iteration order is not specified. The parameter is required to list exactly the live set, once each, and the search is required to return grid cells.
- Engines.NextLevel: the playability of the new level, and the exact live set, are promised only when the player's glyph is not '.'. The spawner's bare-floor test would otherwise let an entity land on the player's cell.
- Levels.Spawn: requires every room on the grid with a non-negative size, which carving guarantees. The promise that the player's cell is kept holds only when the player's glyph is not '.'.
- Levels.Carve: requires a non-negative minimum room size. The source would also accept a negative one and carve empty rooms.
- Levels.Carve: the first draw `randint(min_rooms, max_rooms)` is consumed but bounds nothing, as in the source.
- Levels.Tunnel: requires both centers on the grid, which carving guarantees.
- Draws.Draw: an exhausted supply stands in for a rejection loop that keeps drawing forever. A failure for lack of draws is not a failure of the game.

## Findings

| source | as written | input that shows it | evidently intended | confidence | as-written member | corrected member |
|---|---|---|---|---|---|---|
| src/engine.py:136-143 | the row and column ranges of the field of view end one short of player + 3, so the view reaches three cells left and up but only two right and down | player at (5, 5) on the 18-by-15 grid, with (8, 5) a wall or corridor cell (each of those holds its own tile object, unlike a room interior): cell (2, 5) is marked explored, cell (8, 5) is not | three cells in every direction, as the function's own description says | medium, not executed | Engines.FovIsLopsided | Engines.FovSquareIsSymmetric |

The model keeps the as-written `Engines.Fov` as the game's field of view. `Engines.FovSquare` is the corrected definition; nothing else in the model depends on either.
