/** The three actions an actor can take against a neighbouring cell. Each rewrites the occupancy
    grid, the terrain snapshot (the background) and the entities; none of them fails. */
module Actions {
  import opened Geometry
  import opened Tiles
  import opened Entities
  import opened Factory
  import opened Levels

  /** The state an action works on: the level and its background, the terrain the level was
      carved with, updated where corpses fall and items are taken. */
  datatype World = World(level: Level, background: Grid)

  /** The background only ever holds terrain and corpses. */
  predicate Scenery(g: Grid) {
    forall p :: p in g ==> !g[p].Occupant?
  }

  /** The actor standing at `start` acts toward `start + delta`: it is the occupant of its own
      cell and the destination lies on the grid, which the background covers too. */
  predicate Ready(w: World, start: Pos, delta: Pos) {
    && start in w.level.tiles && w.level.tiles[start].Occupant?
    && w.level.tiles[start].id in w.level.arena
    && IsActor(w.level.arena[w.level.tiles[start].id])
    && w.level.arena[w.level.tiles[start].id].pos == start
    && Shift(start, delta) in w.level.tiles
    && start in w.background && Scenery(w.background)
    && Known(w.level.tiles, w.level.arena)
  }

  /** The id of the entity standing at `start`. */
  function MoverId(w: World, start: Pos): (id: EntityId)
    requires start in w.level.tiles && w.level.tiles[start].Occupant?
  {
    w.level.tiles[start].id
  }

  /** The id of the entity occupying the destination. */
  function TargetId(w: World, start: Pos, delta: Pos): (id: EntityId)
    requires Shift(start, delta) in w.level.tiles && w.level.tiles[Shift(start, delta)].Occupant?
  {
    w.level.tiles[Shift(start, delta)].id
  }

  /** Movement.perform: a blocked destination wastes the turn; otherwise the actor moves by
      `delta`, its old cell shows the background again, and its new cell shows the actor. */
  function Movement(w: World, start: Pos, delta: Pos): (w': World)
    requires Ready(w, start, delta)
    ensures w'.background == w.background
    ensures w'.level == w.level.(tiles := w'.level.tiles, arena := w'.level.arena)
    ensures Blocks(w.level.tiles[Shift(start, delta)], w.level.arena) ==> w' == w
    ensures !Blocks(w.level.tiles[Shift(start, delta)], w.level.arena) ==>
              var m := MoverId(w, start);
              var dest := Shift(start, delta);
              && w'.level.arena == w.level.arena[m := Move(w.level.arena[m], delta.x, delta.y)]
              && w'.level.arena[m].pos == dest
              && w'.level.tiles.Keys == w.level.tiles.Keys
              && w'.level.tiles[dest] == Occupant(m)
              && (dest != start ==> w'.level.tiles[start] == w.background[start])
              && (forall p :: p in w.level.tiles && p != start && p != dest ==> w'.level.tiles[p] == w.level.tiles[p])
  {
    var m := MoverId(w, start);
    var dest := Shift(start, delta);
    if Blocks(w.level.tiles[dest], w.level.arena) then w
    else
      var mover := Move(w.level.arena[m], delta.x, delta.y);
      var tiles := w.level.tiles[start := w.background[start]][mover.pos := Occupant(m)];
      w.(level := w.level.(tiles := tiles, arena := w.level.arena[m := mover]))
  }

  /** The gold a kill by the player earns: 1 for a zombie, 5 for a vampire, judged by glyph. */
  function Bounty(glyph: char): (g: int)
    ensures g == 1 <==> glyph == ZombieTemplate.glyph
    ensures g == 5 <==> glyph == VampireTemplate.glyph
    ensures g == 0 <==> glyph != 'z' && glyph != 'v'
  {
    if glyph == 'z' then 1 else if glyph == 'v' then 5 else 0
  }

  /** The player with `amount` more gold. */
  function AddGold(player: Entity, amount: int): (r: Entity)
    requires IsFighter(player)
    ensures IsFighter(r) && r.role.side.gold == player.role.side.gold + amount
    ensures r == player.(role := r.role) && r.role == player.role.(side := r.role.side)
  {
    player.(role := player.role.(side := Fighter(player.role.side.gold + amount)))
  }

  /** Attack.perform: the occupant of the destination takes the attacker's attack. A kill of a
      member of the live set removes it from the set, leaves a corpse in both grids, and, when
      the attacker is the player, pays the bounty; a kill of anything outside the live set (the
      source's KeyError path) changes nothing beyond the hit points. */
  function Attack(w: World, start: Pos, delta: Pos): (w': World)
    requires Ready(w, start, delta)
    requires w.level.tiles[Shift(start, delta)].Occupant?
    requires IsActor(w.level.arena[TargetId(w, start, delta)])
    requires PlayerId in w.level.arena && IsFighter(w.level.arena[PlayerId])
    ensures var m, d, dest := MoverId(w, start), TargetId(w, start, delta), Shift(start, delta);
            var before := w.level.arena[d];
            var killed := d in w.level.entities && before.role.hp <= Wound(before, w.level.arena[m].role.attack);
            && w'.level.arena.Keys == w.level.arena.Keys
            && w'.level == w.level.(tiles := w'.level.tiles, arena := w'.level.arena, entities := w'.level.entities)
            && IsActor(w'.level.arena[d])
            && w'.level.arena[d].role.hp == before.role.hp - Wound(before, w.level.arena[m].role.attack)
            && (d != PlayerId || !killed || m != PlayerId ==>
                  w'.level.arena[d] == Damage(before, w.level.arena[m].role.attack))
            && (killed ==> && w'.level.entities == w.level.entities - {d}
                           && w'.level.tiles == w.level.tiles[dest := Corpse]
                           && w'.background == w.background[dest := Corpse])
            && (!killed ==> && w'.level.entities == w.level.entities
                            && w'.level.tiles == w.level.tiles
                            && w'.background == w.background)
            && IsFighter(w'.level.arena[PlayerId])
            && (killed && m == PlayerId && d != PlayerId ==>
                  w'.level.arena[PlayerId].role.side.gold == w.level.arena[PlayerId].role.side.gold + Bounty(before.glyph))
            && (killed && m == PlayerId && d != PlayerId ==>
                  w'.level.arena[PlayerId] == AddGold(w.level.arena[PlayerId], Bounty(before.glyph)))
            && (forall id :: id in w.level.arena && id != d && (id != PlayerId || !killed || m != PlayerId) ==>
                  w'.level.arena[id] == w.level.arena[id])
  {
    var m, d := MoverId(w, start), TargetId(w, start, delta);
    var dest := Shift(start, delta);
    var victim := Damage(w.level.arena[d], w.level.arena[m].role.attack);
    var arena := w.level.arena[d := victim];
    if !IsDead(victim) || d !in w.level.entities then
      w.(level := w.level.(arena := arena))
    else
      var paid := if m == PlayerId then arena[PlayerId := AddGold(arena[PlayerId], Bounty(victim.glyph))] else arena;
      World(w.level.(tiles := w.level.tiles[dest := Corpse], arena := paid, entities := w.level.entities - {d}),
            w.background[dest := Corpse])
  }

  /** Take.perform: the destination becomes floor in both grids and the taken item acts on the
      player: a potion is drunk; an exit asks for the next level (`transition`). The taker does
      not move and the item stays in the live set. */
  function Take(w: World, start: Pos, delta: Pos): (r: (World, bool))
    requires Ready(w, start, delta)
    requires w.level.tiles[Shift(start, delta)].Occupant?
    requires IsItem(w.level.arena[TargetId(w, start, delta)])
    requires PlayerId in w.level.arena && IsFighter(w.level.arena[PlayerId])
    ensures var dest, item := Shift(start, delta), w.level.arena[TargetId(w, start, delta)];
            && r.0.level == w.level.(tiles := r.0.level.tiles, arena := r.0.level.arena)
            && r.0.level.tiles == w.level.tiles[dest := Terrain(Floor)]
            && r.0.background == w.background[dest := Terrain(Floor)]
            && (r.1 <==> IsExit(item))
            && (IsPotion(item) ==> r.0.level.arena == w.level.arena[PlayerId := Drink(w.level.arena[PlayerId], item)])
            && (IsExit(item) ==> r.0.level.arena == w.level.arena)
  {
    var dest := Shift(start, delta);
    var item := w.level.arena[TargetId(w, start, delta)];
    var tiles := w.level.tiles[dest := Terrain(Floor)];
    var background := w.background[dest := Terrain(Floor)];
    if IsPotion(item) then
      (World(w.level.(tiles := tiles, arena := w.level.arena[PlayerId := Drink(w.level.arena[PlayerId], item)]),
             background), false)
    else
      (World(w.level.(tiles := tiles), background), true)
  }

  /** The world is well formed: a valid level over a background that covers the same cells and
      holds no occupant. */
  ghost predicate Sound(w: World) {
    Valid(w.level) && w.background.Keys == w.level.tiles.Keys && Scenery(w.background)
  }

  /** Movement keeps the world sound. */
  lemma MovementKeepsSound(w: World, start: Pos, delta: Pos)
    requires Sound(w) && Ready(w, start, delta)
    ensures Sound(Movement(w, start, delta))
  {
  }

  /** Attack keeps the world sound. */
  lemma AttackKeepsSound(w: World, start: Pos, delta: Pos)
    requires Sound(w) && Ready(w, start, delta)
    requires w.level.tiles[Shift(start, delta)].Occupant? && IsActor(w.level.arena[TargetId(w, start, delta)])
    ensures Sound(Attack(w, start, delta))
  {
  }

  /** Take keeps the world sound. */
  lemma TakeKeepsSound(w: World, start: Pos, delta: Pos)
    requires Sound(w) && Ready(w, start, delta)
    requires w.level.tiles[Shift(start, delta)].Occupant? && IsItem(w.level.arena[TargetId(w, start, delta)])
    ensures Sound(Take(w, start, delta).0)
  {
  }

  /** Stepping onto a cell that shows its background and stepping back restores the world
      exactly, provided the cell left behind does not block on the way back. */
  lemma MovementRoundTrip(w: World, start: Pos, delta: Pos)
    requires Sound(w) && Ready(w, start, delta)
    requires !Blocks(w.level.tiles[Shift(start, delta)], w.level.arena)
    requires w.level.tiles[Shift(start, delta)] == w.background[Shift(start, delta)]
    requires !Blocks(w.background[start], w.level.arena)
    ensures Ready(Movement(w, start, delta), Shift(start, delta), Offset(Shift(start, delta), start))
    ensures Movement(Movement(w, start, delta), Shift(start, delta), Offset(Shift(start, delta), start)) == w
  {
    var dest := Shift(start, delta);
    var back := Offset(dest, start);
    var w1 := Movement(w, start, delta);
    var m := MoverId(w, start);
    assert Shift(dest, back) == start;
    assert w1.level.tiles[dest] == Occupant(m);
    if dest != start {
      assert w1.level.tiles[start] == w.background[start];
    }
    var w2 := Movement(w1, dest, back);
    MoveInverse(w.level.arena[m], delta.x, delta.y);
    assert w2.level.arena == w.level.arena;
    assert w2.level.tiles == w.level.tiles;
  }

  /** Taking an item clears the way: the taker stays put, and a movement toward the same cell
      afterwards does go through. */
  lemma TakeClearsTheWay(w: World, start: Pos, delta: Pos)
    requires Sound(w) && Ready(w, start, delta)
    requires w.level.tiles[Shift(start, delta)].Occupant? && IsItem(w.level.arena[TargetId(w, start, delta)])
    requires Shift(start, delta) != start
    ensures var w1 := Take(w, start, delta).0;
            && Ready(w1, start, delta)
            && w1.level.arena[MoverId(w, start)].pos == start
            && w1.level.tiles[start] == w.level.tiles[start]
            && Movement(w1, start, delta).level.tiles[Shift(start, delta)] == Occupant(MoverId(w, start))
  {
    var w1 := Take(w, start, delta).0;
    StatTable();
  }

  /** A kill clears the way too: the corpse left behind does not block, so the killer can step
      onto it next. */
  lemma KillClearsTheWay(w: World, start: Pos, delta: Pos)
    requires Sound(w) && Ready(w, start, delta)
    requires w.level.tiles[Shift(start, delta)].Occupant? && IsActor(w.level.arena[TargetId(w, start, delta)])
    requires Shift(start, delta) != start
    requires TargetId(w, start, delta) in w.level.entities
    requires IsDead(Attack(w, start, delta).level.arena[TargetId(w, start, delta)])
    ensures var w1 := Attack(w, start, delta);
            && w1.level.tiles[Shift(start, delta)] == Corpse
            && Ready(w1, start, delta)
            && Movement(w1, start, delta).level.tiles[Shift(start, delta)] == Occupant(MoverId(w, start))
  {
    StatTable();
  }
}
