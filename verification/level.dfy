/** A level: the occupancy grid, the accepted rooms and the live entity set, plus generation
    (fresh all-wall grid, room carving with corridors, spawning). */
module Levels {
  import opened Geometry
  import opened Tiles
  import opened Rooms
  import opened Entities
  import opened Factory
  import opened Draws

  /** Entities are kept in an arena keyed by a stable id; grids hold ids, not entities. */
  type EntityId = nat

  /** The player is the one entity that survives across levels; it always has id 0. */
  const PlayerId: EntityId := 0

  /** One grid cell: bare terrain, the entity standing there, or a corpse left by a kill. */
  datatype Cell = Terrain(tile: Tile) | Occupant(id: EntityId) | Corpse

  type Grid = map<Pos, Cell>

  datatype Level = Level(
    width: int,
    height: int,
    tiles: Grid,                       // the occupancy grid
    rooms: seq<Room>,                  // accepted rooms, in placement order
    arena: map<EntityId, Entity>,      // every entity object the level refers to
    entities: set<EntityId>,           // the live entity set
    nextId: EntityId)                  // the next unused id

  /** The grid covers exactly the width-by-height cells. */
  ghost predicate Shaped<T>(g: map<Pos, T>, width: int, height: int) {
    forall p :: p in g <==> InBounds(p, width, height)
  }

  /** Every occupant the grid names is an entity of the arena. */
  predicate Known(g: Grid, arena: map<EntityId, Entity>) {
    forall p :: p in g && g[p].Occupant? ==> g[p].id in arena
  }

  ghost predicate Valid(lv: Level) {
    && Shaped(lv.tiles, lv.width, lv.height)
    && Known(lv.tiles, lv.arena)
    && PlayerId in lv.arena && IsFighter(lv.arena[PlayerId])
    && lv.entities <= lv.arena.Keys
    && (forall id :: id in lv.arena ==> id < lv.nextId)
  }

  /** How a cell is drawn; generation and the pathfinder read the glyph. */
  function Glyph(c: Cell, arena: map<EntityId, Entity>): (glyph: char)
    requires c.Occupant? ==> c.id in arena
  {
    match c
    case Terrain(t) => t.glyph
    case Occupant(id) => arena[id].glyph
    case Corpse => CorpseTemplate.glyph
  }

  /** Whether a cell stops movement into it. */
  predicate Blocks(c: Cell, arena: map<EntityId, Entity>)
    requires c.Occupant? ==> c.id in arena
  {
    match c
    case Terrain(t) => t.blocksMovement
    case Occupant(id) => arena[id].blocksMovement
    case Corpse => CorpseTemplate.blocksMovement
  }

  /** The bare-floor test the spawner applies: only plain floor shows '.'. */
  lemma DotMeansBareFloor(c: Cell, arena: map<EntityId, Entity>)
    requires c.Occupant? ==> c.id in arena
    requires Glyph(c, arena) == '.'
    ensures c.Occupant? ==> arena[c.id].glyph == '.'
    ensures c.Terrain? ==> c.tile.glyph == '.'
    ensures !c.Corpse?
  {
  }

  /** Level.__init__: a width-by-height grid of walls, filled cell by cell, with the player as
      the only live entity. */
  method NewLevel(width: int, height: int, player: Entity) returns (lv: Level)
    requires IsFighter(player)
    ensures Valid(lv) && lv.width == width && lv.height == height
    ensures forall p :: p in lv.tiles ==> lv.tiles[p] == Terrain(Wall)
    ensures lv.entities == {PlayerId} && lv.arena == map[PlayerId := player] && lv.nextId == PlayerId + 1
    ensures lv.rooms == []
  {
    var g: Grid := map[];
    var y := 0;
    while y < height
      invariant 0 <= y <= Max(height, 0)
      invariant forall p :: p in g <==> 0 <= p.x < width && 0 <= p.y < y
      invariant forall p :: p in g ==> g[p] == Terrain(Wall)
    {
      var x := 0;
      while x < width
        invariant 0 <= x <= Max(width, 0)
        invariant forall p :: p in g <==> (0 <= p.x < width && 0 <= p.y < y) || (p.y == y && 0 <= p.x < x)
        invariant forall p :: p in g ==> g[p] == Terrain(Wall)
      {
        g := g[Pos(x, y) := Terrain(Wall)];
        x := x + 1;
      }
      y := y + 1;
    }
    lv := Level(width, height, g, [], map[PlayerId := player], {PlayerId}, PlayerId + 1);
  }

  // ---------------------------------------------------------------------------------------
  // Carving

  /** The grid with every cell of the rectangle set to floor (a slice assignment). */
  function FillRect(g: Grid, r: Rect): (g': Grid)
    ensures g'.Keys == g.Keys
    ensures forall p :: p in g ==> g'[p] == if InRect(p, r) then Terrain(Floor) else g[p]
  {
    map p | p in g :: if InRect(p, r) then Terrain(Floor) else g[p]
  }

  /** The first leg of a corridor from center a to center b: along a's row when the corridor
      starts horizontally, otherwise along a's column. */
  function FirstLeg(a: Pos, b: Pos, horizontalFirst: bool): Rect {
    if horizontalFirst then Rect(Min(a.x, b.x), Max(a.x, b.x), a.y, a.y)
    else Rect(a.x, a.x, Min(a.y, b.y), Max(a.y, b.y))
  }

  /** The second leg: along b's column, or along b's row. */
  function SecondLeg(a: Pos, b: Pos, horizontalFirst: bool): Rect {
    if horizontalFirst then Rect(b.x, b.x, Min(a.y, b.y), Max(a.y, b.y))
    else Rect(Min(a.x, b.x), Max(a.x, b.x), b.y, b.y)
  }

  predicate OnCorridor(p: Pos, a: Pos, b: Pos, horizontalFirst: bool) {
    InRect(p, FirstLeg(a, b, horizontalFirst)) || InRect(p, SecondLeg(a, b, horizontalFirst))
  }

  /** `g1` is `g0` with exactly the corridor cells turned to floor. */
  ghost predicate Dug(g0: Grid, g1: Grid, a: Pos, b: Pos, horizontalFirst: bool) {
    && g1.Keys == g0.Keys
    && forall p :: p in g0 ==> g1[p] == if OnCorridor(p, a, b, horizontalFirst) then Terrain(Floor) else g0[p]
  }

  /** One corridor loop along row y: floor on columns x1 .. x2. */
  method DigRow(g: Grid, width: int, height: int, y: int, x1: int, x2: int) returns (g': Grid)
    requires Shaped(g, width, height)
    requires x1 <= x2 ==> InBounds(Pos(x1, y), width, height) && InBounds(Pos(x2, y), width, height)
    ensures g'.Keys == g.Keys
    ensures forall p :: p in g ==> g'[p] == if InRect(p, Rect(x1, x2, y, y)) then Terrain(Floor) else g[p]
  {
    g' := g;
    var x := x1;
    while x <= x2
      invariant x1 <= x <= x2 + 1 || x2 < x1
      invariant x2 < x1 ==> g' == g
      invariant g'.Keys == g.Keys
      invariant forall p :: p in g ==> g'[p] == if InRect(p, Rect(x1, x - 1, y, y)) then Terrain(Floor) else g[p]
    {
      g' := g'[Pos(x, y) := Terrain(Floor)];
      x := x + 1;
    }
  }

  /** One corridor loop along column x: floor on rows y1 .. y2. */
  method DigColumn(g: Grid, width: int, height: int, x: int, y1: int, y2: int) returns (g': Grid)
    requires Shaped(g, width, height)
    requires y1 <= y2 ==> InBounds(Pos(x, y1), width, height) && InBounds(Pos(x, y2), width, height)
    ensures g'.Keys == g.Keys
    ensures forall p :: p in g ==> g'[p] == if InRect(p, Rect(x, x, y1, y2)) then Terrain(Floor) else g[p]
  {
    g' := g;
    var y := y1;
    while y <= y2
      invariant y1 <= y <= y2 + 1 || y2 < y1
      invariant y2 < y1 ==> g' == g
      invariant g'.Keys == g.Keys
      invariant forall p :: p in g ==> g'[p] == if InRect(p, Rect(x, x, y1, y - 1)) then Terrain(Floor) else g[p]
    {
      g' := g'[Pos(x, y) := Terrain(Floor)];
      y := y + 1;
    }
  }

  /** Level.tunnel: with no accepted room it does nothing and draws nothing; otherwise one coin
      (`randint(0, 1) == 1` starts horizontally) and an L-shaped corridor of floor from the last
      accepted room's center to the new room's center. */
  method Tunnel(g: Grid, width: int, height: int, rooms: seq<Room>, curr: Room, draws: seq<nat>)
    returns (r: Result<Grid>, rest: seq<nat>, horizontalFirst: bool)
    requires Shaped(g, width, height)
    requires |rooms| >= 1 ==> InBounds(Center(rooms[|rooms| - 1]), width, height)
    requires |rooms| >= 1 ==> InBounds(Center(curr), width, height)
    ensures |rooms| == 0 ==> r == Ok(g) && rest == draws
    ensures |rooms| >= 1 ==> (r.Err? <==> |draws| == 0)
    ensures r.Err? ==> r.error == OutOfDraws
    ensures r.Ok? && |rooms| >= 1 ==>
              |draws| > 0 && rest == draws[1..] && horizontalFirst == (draws[0] % 2 == 1) &&
              Dug(g, r.value, Center(rooms[|rooms| - 1]), Center(curr), horizontalFirst)
  {
    rest, horizontalFirst := draws, false;
    if |rooms| == 0 {
      return Ok(g), rest, horizontalFirst;
    }
    var b := Center(curr);
    var a := Center(rooms[|rooms| - 1]);
    var coin :- Draw(draws, 0, 1);
    rest := coin.1;
    horizontalFirst := coin.0 == 1;
    var g1, g2;
    if horizontalFirst {
      g1 := DigRow(g, width, height, a.y, Min(a.x, b.x), Max(a.x, b.x));
      g2 := DigColumn(g1, width, height, b.x, Min(a.y, b.y), Max(a.y, b.y));
    } else {
      g1 := DigColumn(g, width, height, a.x, Min(a.y, b.y), Max(a.y, b.y));
      g2 := DigRow(g1, width, height, b.y, Min(a.x, b.x), Max(a.x, b.x));
    }
    r := Ok(g2);
  }

  /** The corridor covers both centers, and each of its cells lies on a row or column through
      one of the two centers, inside their bounding box. */
  lemma CorridorShape(a: Pos, b: Pos, horizontalFirst: bool, p: Pos)
    ensures OnCorridor(a, a, b, horizontalFirst) && OnCorridor(b, a, b, horizontalFirst)
    ensures OnCorridor(p, a, b, horizontalFirst) ==>
              (p.x == a.x || p.x == b.x || p.y == a.y || p.y == b.y) &&
              Min(a.x, b.x) <= p.x <= Max(a.x, b.x) && Min(a.y, b.y) <= p.y <= Max(a.y, b.y)
  {
  }

  /** A four-directional walk: consecutive cells are neighbours. */
  ghost predicate Walk(w: seq<Pos>) {
    forall i :: 0 <= i < |w| - 1 ==> Adjacent(w[i], w[i + 1])
  }

  /** The straight walk along a row from column x0 to column x1 (either direction). */
  function RowWalk(y: int, x0: int, x1: int): (w: seq<Pos>)
    decreases if x0 <= x1 then x1 - x0 else x0 - x1
    ensures |w| >= 1 && w[0] == Pos(x0, y) && w[|w| - 1] == Pos(x1, y)
    ensures Walk(w)
    ensures forall i :: 0 <= i < |w| ==> w[i].y == y && Min(x0, x1) <= w[i].x <= Max(x0, x1)
  {
    if x0 == x1 then [Pos(x0, y)]
    else if x0 < x1 then [Pos(x0, y)] + RowWalk(y, x0 + 1, x1)
    else [Pos(x0, y)] + RowWalk(y, x0 - 1, x1)
  }

  /** The straight walk along a column from row y0 to row y1. */
  function ColumnWalk(x: int, y0: int, y1: int): (w: seq<Pos>)
    decreases if y0 <= y1 then y1 - y0 else y0 - y1
    ensures |w| >= 1 && w[0] == Pos(x, y0) && w[|w| - 1] == Pos(x, y1)
    ensures Walk(w)
    ensures forall i :: 0 <= i < |w| ==> w[i].x == x && Min(y0, y1) <= w[i].y <= Max(y0, y1)
  {
    if y0 == y1 then [Pos(x, y0)]
    else if y0 < y1 then [Pos(x, y0)] + ColumnWalk(x, y0 + 1, y1)
    else [Pos(x, y0)] + ColumnWalk(x, y0 - 1, y1)
  }

  /** Joins two walks that meet at a shared cell. */
  lemma {:induction false} JoinWalks(u: seq<Pos>, v: seq<Pos>)
    requires |u| >= 1 && |v| >= 1 && Walk(u) && Walk(v) && u[|u| - 1] == v[0]
    ensures Walk(u + v[1..])
  {
    var w := u + v[1..];
    forall i | 0 <= i < |w| - 1
      ensures Adjacent(w[i], w[i + 1])
    {
      if i < |u| - 1 {
        assert w[i] == u[i] && w[i + 1] == u[i + 1];
      } else {
        assert w[i] == v[i - |u| + 1] && w[i + 1] == v[i - |u| + 2];
      }
    }
  }

  /** Two walks joined at their shared cell, each inside its own rectangle. */
  function Join(u: seq<Pos>, v: seq<Pos>, r1: Rect, r2: Rect): (w: seq<Pos>)
    requires |u| >= 1 && |v| >= 1 && Walk(u) && Walk(v) && u[|u| - 1] == v[0]
    requires forall i :: 0 <= i < |u| ==> InRect(u[i], r1)
    requires forall i :: 0 <= i < |v| ==> InRect(v[i], r2)
    ensures |w| >= 1 && w[0] == u[0] && w[|w| - 1] == v[|v| - 1] && Walk(w)
    ensures forall i :: 0 <= i < |w| ==> InRect(w[i], r1) || InRect(w[i], r2)
  {
    JoinWalks(u, v);
    var w := u + v[1..];
    assert forall i :: 0 <= i < |w| ==> InRect(w[i], r1) || InRect(w[i], r2) by {
      forall i | 0 <= i < |w| ensures InRect(w[i], r1) || InRect(w[i], r2) {
        if i >= |u| { assert w[i] == v[i - |u| + 1]; } else { assert w[i] == u[i]; }
      }
    }
    w
  }

  /** The corridor connects its two centers: there is a walk from a to b through corridor
      cells only. */
  function CorridorWalk(a: Pos, b: Pos, horizontalFirst: bool): (w: seq<Pos>)
    ensures |w| >= 1 && w[0] == a && w[|w| - 1] == b && Walk(w)
    ensures forall i :: 0 <= i < |w| ==> OnCorridor(w[i], a, b, horizontalFirst)
  {
    var first, second := FirstLeg(a, b, horizontalFirst), SecondLeg(a, b, horizontalFirst);
    if horizontalFirst then Join(RowWalk(a.y, a.x, b.x), ColumnWalk(b.x, a.y, b.y), first, second)
    else Join(ColumnWalk(a.x, a.y, b.y), RowWalk(b.y, a.x, b.x), first, second)
  }

  /** The room and its wall border lie on the grid. */
  predicate Inside(r: Room, width: int, height: int) {
    0 <= r.x1 && r.x2 <= width - 1 && 0 <= r.y1 && r.y2 <= height - 1
  }

  /** Width and height both within the requested size range. */
  predicate SizedBetween(r: Room, minSize: int, maxSize: int) {
    minSize <= r.x2 - r.x1 <= maxSize && minSize <= r.y2 - r.y1 <= maxSize
  }

  /** No two accepted rooms intersect (inclusively). */
  ghost predicate Disjoint(rooms: seq<Room>) {
    forall i, j :: 0 <= i < j < |rooms| ==> !Intersect(rooms[i], rooms[j])
  }

  /** Every interior cell of every room is floor. */
  ghost predicate RoomsCarved(g: Grid, rooms: seq<Room>) {
    forall i, p :: 0 <= i < |rooms| && InInterior(rooms[i], p) ==> p in g && g[p] == Terrain(Floor)
  }

  /** Consecutive rooms are joined by a floor corridor between their centers; `turns[i]` says
      whether the corridor into room i+1 started horizontally. */
  ghost predicate CorridorsCarved(g: Grid, rooms: seq<Room>, turns: seq<bool>) {
    && |turns| == Max(|rooms| - 1, 0)
    && forall i, p :: 1 <= i < |rooms| && OnCorridor(p, Center(rooms[i - 1]), Center(rooms[i]), turns[i - 1]) ==>
         p in g && g[p] == Terrain(Floor)
  }

  /** `g` differs from `g0` only by cells turned to floor. */
  ghost predicate OnlyFloorAdded(g0: Grid, g: Grid) {
    g.Keys == g0.Keys && forall p :: p in g0 ==> g[p] == g0[p] || g[p] == Terrain(Floor)
  }

  /** `p` lies in the interior of an accepted room or on the corridor between two consecutive
      accepted rooms. */
  ghost predicate CarvedCell(p: Pos, rooms: seq<Room>, turns: seq<bool>) {
    || (exists i :: 0 <= i < |rooms| && InInterior(rooms[i], p))
    || (exists i :: 1 <= i < |rooms| && i - 1 < |turns| &&
          OnCorridor(p, Center(rooms[i - 1]), Center(rooms[i]), turns[i - 1]))
  }

  /** Every cell on which `g` differs from `g0` was carved: nothing else changed. */
  ghost predicate OnlyCarvedChanged(g0: Grid, g: Grid, rooms: seq<Room>, turns: seq<bool>) {
    forall p :: p in g0 && p in g && g[p] != g0[p] ==> CarvedCell(p, rooms, turns)
  }

  /** `g` is exactly the carving of `rooms` joined by corridors that turn as `turns` says: the
      interiors and the corridors are floor, and every other cell is wall. */
  ghost predicate CarvedFrom(g: Grid, rooms: seq<Room>, turns: seq<bool>) {
    && RoomsCarved(g, rooms)
    && CorridorsCarved(g, rooms, turns)
    && forall p :: p in g && g[p] != Terrain(Wall) ==> CarvedCell(p, rooms, turns)
  }

  /** A carved cell stays carved when a room (and its corridor) is appended. */
  lemma CarvedCellPersists(p: Pos, rooms: seq<Room>, turns: seq<bool>, room: Room, horizontalFirst: bool)
    requires |turns| == Max(|rooms| - 1, 0)
    requires CarvedCell(p, rooms, turns)
    ensures CarvedCell(p, rooms + [room], if |rooms| >= 1 then turns + [horizontalFirst] else turns)
  {
    var rs := rooms + [room];
    var ts := if |rooms| >= 1 then turns + [horizontalFirst] else turns;
    if i :| 0 <= i < |rooms| && InInterior(rooms[i], p) {
      assert rs[i] == rooms[i];
    } else {
      var i :| 1 <= i < |rooms| && i - 1 < |turns| &&
               OnCorridor(p, Center(rooms[i - 1]), Center(rooms[i]), turns[i - 1]);
      assert rs[i - 1] == rooms[i - 1] && rs[i] == rooms[i] && ts[i - 1] == turns[i - 1];
    }
  }

  lemma CenterOnGrid(r: Room, width: int, height: int)
    requires Inside(r, width, height) && WellFormed(r)
    ensures InBounds(Center(r), width, height)
  {
  }

  lemma OnlyFloorTransitive(g0: Grid, g1: Grid, g2: Grid)
    requires OnlyFloorAdded(g0, g1) && OnlyFloorAdded(g1, g2)
    ensures OnlyFloorAdded(g0, g2)
  {
  }

  /** Adding floor never undoes carving. */
  lemma CarvingPersists(g: Grid, g2: Grid, rooms: seq<Room>, turns: seq<bool>)
    requires OnlyFloorAdded(g, g2) && RoomsCarved(g, rooms) && CorridorsCarved(g, rooms, turns)
    ensures RoomsCarved(g2, rooms) && CorridorsCarved(g2, rooms, turns)
  {
  }

  /** Carving the new room's interior and then its corridor adds only floor, and leaves the
      interior and the corridor floor. */
  lemma DigNewRoom(g: Grid, g2: Grid, rooms: seq<Room>, room: Room, horizontalFirst: bool,
                   width: int, height: int)
    requires Shaped(g, width, height)
    requires Inside(room, width, height) && WellFormed(room)
    requires |rooms| >= 1 ==> Inside(rooms[|rooms| - 1], width, height) && WellFormed(rooms[|rooms| - 1])
    requires |rooms| == 0 ==> g2 == FillRect(g, Interior(room))
    requires |rooms| >= 1 ==>
               Dug(FillRect(g, Interior(room)), g2, Center(rooms[|rooms| - 1]), Center(room), horizontalFirst)
    ensures OnlyFloorAdded(g, g2)
    ensures forall p :: InInterior(room, p) ==> p in g2 && g2[p] == Terrain(Floor)
    ensures |rooms| >= 1 ==> forall p :: OnCorridor(p, Center(rooms[|rooms| - 1]), Center(room), horizontalFirst) ==>
              p in g2 && g2[p] == Terrain(Floor)
    ensures forall p :: p in g && g2[p] != g[p] ==>
              InInterior(room, p) ||
              (|rooms| >= 1 && OnCorridor(p, Center(rooms[|rooms| - 1]), Center(room), horizontalFirst))
  {
    if |rooms| >= 1 {
      var a, b := Center(rooms[|rooms| - 1]), Center(room);
      CenterOnGrid(rooms[|rooms| - 1], width, height);
      CenterOnGrid(room, width, height);
      forall p | OnCorridor(p, a, b, horizontalFirst)
        ensures p in g2 && g2[p] == Terrain(Floor)
      {
        CorridorShape(a, b, horizontalFirst, p);
        assert InBounds(p, width, height);
      }
    }
    forall p | InInterior(room, p)
      ensures p in g2 && g2[p] == Terrain(Floor)
    {
      assert InBounds(p, width, height);
    }
  }

  /** Appending a carved room (and its corridor) to the carved list. */
  lemma AppendCarved(g2: Grid, rooms: seq<Room>, turns: seq<bool>, room: Room, horizontalFirst: bool)
    requires RoomsCarved(g2, rooms) && CorridorsCarved(g2, rooms, turns)
    requires forall p :: InInterior(room, p) ==> p in g2 && g2[p] == Terrain(Floor)
    requires |rooms| >= 1 ==> forall p :: OnCorridor(p, Center(rooms[|rooms| - 1]), Center(room), horizontalFirst) ==>
               p in g2 && g2[p] == Terrain(Floor)
    ensures RoomsCarved(g2, rooms + [room])
    ensures CorridorsCarved(g2, rooms + [room], if |rooms| >= 1 then turns + [horizontalFirst] else turns)
  {
    var rs := rooms + [room];
    forall i, p | 0 <= i < |rs| && InInterior(rs[i], p)
      ensures p in g2 && g2[p] == Terrain(Floor)
    {
      if i < |rooms| {
        assert InInterior(rooms[i], p);
      }
    }
    var ts := if |rooms| >= 1 then turns + [horizontalFirst] else turns;
    forall i, p | 1 <= i < |rs| && OnCorridor(p, Center(rs[i - 1]), Center(rs[i]), ts[i - 1])
      ensures p in g2 && g2[p] == Terrain(Floor)
    {
      if i < |rooms| {
        assert OnCorridor(p, Center(rooms[i - 1]), Center(rooms[i]), turns[i - 1]);
      }
    }
  }

  /** A room that intersects no accepted room keeps the list pairwise disjoint. */
  lemma AppendDisjoint(rooms: seq<Room>, room: Room)
    requires Disjoint(rooms)
    requires forall i :: 0 <= i < |rooms| ==> !Intersect(room, rooms[i])
    ensures Disjoint(rooms + [room])
  {
  }

  /** What carving has established so far: only floor was added to `g0`, and only on the
      interiors of the accepted rooms and the corridors between consecutive centers; every
      accepted room lies on the grid with a size in range, no two intersect, and their
      interiors and the corridors are floor. */
  ghost predicate Carving(g0: Grid, g: Grid, rooms: seq<Room>, turns: seq<bool>,
                          width: int, height: int, minSize: int, maxSize: int) {
    && OnlyFloorAdded(g0, g)
    && OnlyCarvedChanged(g0, g, rooms, turns)
    && (forall i :: 0 <= i < |rooms| ==>
          Inside(rooms[i], width, height) && SizedBetween(rooms[i], minSize, maxSize))
    && Disjoint(rooms)
    && RoomsCarved(g, rooms)
    && CorridorsCarved(g, rooms, turns)
  }

  /** Accepting a room that intersects no accepted room, after carving its interior and its
      corridor, keeps the carving invariant. */
  lemma AcceptRoom(g0: Grid, g: Grid, g2: Grid, rooms: seq<Room>, turns: seq<bool>, room: Room,
                   horizontalFirst: bool, width: int, height: int, minSize: int, maxSize: int)
    requires Shaped(g0, width, height) && 0 <= minSize
    requires Carving(g0, g, rooms, turns, width, height, minSize, maxSize)
    requires Inside(room, width, height) && SizedBetween(room, minSize, maxSize)
    requires forall i :: 0 <= i < |rooms| ==> !Intersect(room, rooms[i])
    requires |rooms| == 0 ==> g2 == FillRect(g, Interior(room))
    requires |rooms| >= 1 ==>
               Dug(FillRect(g, Interior(room)), g2, Center(rooms[|rooms| - 1]), Center(room), horizontalFirst)
    ensures Carving(g0, g2, rooms + [room], if |rooms| >= 1 then turns + [horizontalFirst] else turns,
                    width, height, minSize, maxSize)
  {
    DigNewRoom(g, g2, rooms, room, horizontalFirst, width, height);
    OnlyFloorTransitive(g0, g, g2);
    CarvingPersists(g, g2, rooms, turns);
    AppendCarved(g2, rooms, turns, room, horizontalFirst);
    AppendDisjoint(rooms, room);
    var rs := rooms + [room];
    var ts := if |rooms| >= 1 then turns + [horizontalFirst] else turns;
    forall p | p in g0 && p in g2 && g2[p] != g0[p]
      ensures CarvedCell(p, rs, ts)
    {
      if g[p] != g0[p] {
        CarvedCellPersists(p, rooms, turns, room, horizontalFirst);
      } else if InInterior(room, p) {
        assert rs[|rooms|] == room;
      } else {
        assert rs[|rooms| - 1] == rooms[|rooms| - 1] && rs[|rooms|] == room && ts[|rooms| - 1] == horizontalFirst;
      }
    }
  }

  /** One candidate room: width, height, then the corner, each one draw. */
  function DrawRoom(draws: seq<nat>, minSize: int, maxSize: int, width: int, height: int)
    : (r: Result<(Room, seq<nat>)>)
    ensures r.Ok? ==> Inside(r.value.0, width, height) && SizedBetween(r.value.0, minSize, maxSize)
    ensures r.Ok? ==> SuffixOf(r.value.1, draws) && |r.value.1| == |draws| - 4
    ensures (r.Err? && minSize <= maxSize && maxSize <= width - 1 && maxSize <= height - 1) ==>
              r.error == OutOfDraws && |draws| < 4
  {
    var w :- Draw(draws, minSize, maxSize);
    var h :- Draw(w.1, minSize, maxSize);
    var x1 :- Draw(h.1, 0, width - w.0 - 1);
    var y1 :- Draw(x1.1, 0, height - h.0 - 1);
    SuffixTransitive(h.1, w.1, draws);
    SuffixTransitive(x1.1, h.1, draws);
    SuffixTransitive(y1.1, x1.1, draws);
    Ok((NewRoom(x1.0, y1.0, w.0, h.0), y1.1))
  }

  /** Level.carve: rejection-sampled rooms until `minRooms` are accepted. Per candidate it draws
      width, height (both in minRoomSize .. maxRoomSize) and the corner (x1 in 0 .. width-w-1,
      y1 in 0 .. height-h-1); a candidate intersecting an accepted room is dropped, otherwise its
      interior is carved, a corridor is dug from the previous room, and it is accepted. One
      further draw, `randint(minRooms, maxRooms)`, comes first and bounds nothing. */
  method Carve(lv: Level, minRooms: int, maxRooms: int, minRoomSize: int, maxRoomSize: int,
               draws: seq<nat>)
    returns (r: Result<Level>, rest: seq<nat>, turns: seq<bool>)
    requires Valid(lv)
    requires 0 <= minRoomSize
    ensures SuffixOf(rest, draws)
    ensures r.Ok? ==>
              && r.value == lv.(tiles := r.value.tiles, rooms := r.value.rooms)
              && Valid(r.value)
              && |r.value.rooms| == Max(minRooms, 0)
              && (forall i :: 0 <= i < |r.value.rooms| ==>
                    Inside(r.value.rooms[i], lv.width, lv.height) &&
                    SizedBetween(r.value.rooms[i], minRoomSize, maxRoomSize))
              && Disjoint(r.value.rooms)
              && RoomsCarved(r.value.tiles, r.value.rooms)
              && CorridorsCarved(r.value.tiles, r.value.rooms, turns)
              && OnlyFloorAdded(lv.tiles, r.value.tiles)
              && OnlyCarvedChanged(lv.tiles, r.value.tiles, r.value.rooms, turns)
    ensures (r.Err? && minRooms <= maxRooms && minRoomSize <= maxRoomSize &&
             maxRoomSize <= lv.width - 1 && maxRoomSize <= lv.height - 1) ==> r.error == OutOfDraws && |rest| < 4
  {
    rest, turns := draws, [];
    var numRooms :- Draw(draws, minRooms, maxRooms);
    rest := numRooms.1;
    var g := lv.tiles;
    var rooms: seq<Room> := [];
    while |rooms| < minRooms
      invariant SuffixOf(rest, draws)
      invariant |rooms| <= Max(minRooms, 0)
      invariant Carving(lv.tiles, g, rooms, turns, lv.width, lv.height, minRoomSize, maxRoomSize)
      decreases |rest|
    {
      var candidate :- DrawRoom(rest, minRoomSize, maxRoomSize, lv.width, lv.height);
      var room := candidate.0;
      SuffixTransitive(candidate.1, rest, draws);
      rest := candidate.1;
      if exists i | 0 <= i < |rooms| :: Intersect(room, rooms[i]) {
        continue;
      }
      if |rooms| >= 1 {
        CenterOnGrid(rooms[|rooms| - 1], lv.width, lv.height);
        CenterOnGrid(room, lv.width, lv.height);
      }
      var g1 := FillRect(g, Interior(room));
      var dug, rest', horizontalFirst := Tunnel(g1, lv.width, lv.height, rooms, room, rest);
      if dug.Err? {
        r := Err(dug.error);
        return;
      }
      AcceptRoom(lv.tiles, g, dug.value, rooms, turns, room, horizontalFirst,
                 lv.width, lv.height, minRoomSize, maxRoomSize);
      if |rooms| >= 1 {
        SuffixTransitive(rest', rest, draws);
        turns := turns + [horizontalFirst];
      }
      rest := rest';
      g := dug.value;
      rooms := rooms + [room];
    }
    r := Ok(lv.(tiles := g, rooms := rooms));
  }

  /** Level.get_exit: the center of the last accepted room. */
  function GetExit(lv: Level): (p: Pos)
    requires |lv.rooms| > 0
    ensures WellFormed(lv.rooms[|lv.rooms| - 1]) ==> InBox(lv.rooms[|lv.rooms| - 1], p)
  {
    Center(lv.rooms[|lv.rooms| - 1])
  }

  // ---------------------------------------------------------------------------------------
  // Spawning

  /** The level with the player moved to `c0` and a fresh exit (id `lv.nextId`) at `cl`,
      written in that order, so a single room's exit overwrites the player's cell. */
  function PlacePlayerAndExit(lv: Level, c0: Pos, cl: Pos): (base: Level)
    requires Valid(lv) && InBounds(c0, lv.width, lv.height) && InBounds(cl, lv.width, lv.height)
    ensures Valid(base) && base.tiles.Keys == lv.tiles.Keys
    ensures base.arena[PlayerId] == SetPos(lv.arena[PlayerId], c0.x, c0.y)
    ensures lv.nextId in base.arena && base.arena[lv.nextId] == ExitTemplate && lv.nextId !in base.entities
    ensures base.tiles[cl] == Occupant(lv.nextId)
    ensures c0 != cl ==> base.tiles[c0] == Occupant(PlayerId)
    ensures forall p :: p in lv.tiles && p != c0 && p != cl ==> base.tiles[p] == lv.tiles[p]
    ensures base.arena.Keys == lv.arena.Keys + {lv.nextId}
    ensures forall id :: id in lv.arena && id != PlayerId ==> base.arena[id] == lv.arena[id]
    ensures base.nextId == lv.nextId + 1 && base.entities == lv.entities
    ensures base.rooms == lv.rooms && base.width == lv.width && base.height == lv.height
  {
    var player := SetPos(lv.arena[PlayerId], c0.x, c0.y);
    var exitId := lv.nextId;
    lv.(tiles := lv.tiles[c0 := Occupant(PlayerId)][cl := Occupant(exitId)],
        arena := lv.arena[PlayerId := player][exitId := ExitTemplate],
        nextId := exitId + 1)
  }

  /** Entity `id` was spawned by the loop: it stands on its own cell, inside some room, on a
      cell that showed bare floor before spawning began, and it is a placed copy of a zombie or
      vampire (ids below `enemyEnd`) or of the health potion (the rest). */
  ghost predicate Placed(base: Level, cur: Level, id: EntityId, enemyEnd: int) {
    var enemy := id < enemyEnd;
    && id in cur.arena
    && var e := cur.arena[id];
    && e.pos in cur.tiles && cur.tiles[e.pos] == Occupant(id)
    && e.pos in base.tiles && (base.tiles[e.pos].Occupant? ==> base.tiles[e.pos].id in base.arena)
    && Glyph(base.tiles[e.pos], base.arena) == '.'
    && (exists k :: 0 <= k < |cur.rooms| && InInterior(cur.rooms[k], e.pos))
    && (enemy ==> e == SetPos(ZombieTemplate, e.pos.x, e.pos.y) || e == SetPos(VampireTemplate, e.pos.x, e.pos.y))
    && (!enemy ==> e == SetPos(PotionTemplate, e.pos.x, e.pos.y))
  }

  /** The spawning loop's invariant: `cur` is `base` plus the entities with ids
      base.nextId .. cur.nextId-1, those below `enemyEnd` enemies and the rest potions. */
  ghost predicate Spawning(base: Level, cur: Level, enemyEnd: int) {
    && Valid(base)
    && cur.width == base.width && cur.height == base.height && cur.rooms == base.rooms
    && cur.tiles.Keys == base.tiles.Keys
    && Known(cur.tiles, cur.arena)
    && base.nextId <= enemyEnd <= cur.nextId
    && (forall id :: id in cur.arena <==> id in base.arena || base.nextId <= id < cur.nextId)
    && (forall id :: id in base.arena ==> cur.arena[id] == base.arena[id])
    && (forall id :: id in cur.entities <==> id in base.entities || base.nextId <= id < cur.nextId)
    && (forall id :: base.nextId <= id < cur.nextId ==> Placed(base, cur, id, enemyEnd))
    && (forall p :: p in base.tiles ==>
          || cur.tiles[p] == base.tiles[p]
          || (&& cur.tiles[p].Occupant? && base.nextId <= cur.tiles[p].id < cur.nextId
              && cur.arena[cur.tiles[p].id].pos == p))
  }

  lemma SpawningStarts(base: Level)
    requires Valid(base)
    ensures Spawning(base, base, base.nextId)
  {
  }

  /** A cell that still shows bare floor during spawning is untouched since `base`. */
  lemma FloorCellUntouched(base: Level, cur: Level, enemyEnd: int, p: Pos)
    requires Spawning(base, cur, enemyEnd)
    requires p in cur.tiles && Glyph(cur.tiles[p], cur.arena) == '.'
    ensures cur.tiles[p] == base.tiles[p]
    ensures Glyph(base.tiles[p], base.arena) == '.'
  {
    if cur.tiles[p] != base.tiles[p] {
      assert Placed(base, cur, cur.tiles[p].id, enemyEnd);
      StatTable();
    }
  }

  /** The level after placing `e` with the next fresh id on cell `p`. */
  function PlaceEntity(cur: Level, p: Pos, e: Entity): (nxt: Level)
    ensures nxt.nextId == cur.nextId + 1
    ensures nxt.entities == cur.entities + {cur.nextId}
    ensures nxt.tiles == cur.tiles[p := Occupant(cur.nextId)]
    ensures nxt.arena == cur.arena[cur.nextId := e]
    ensures nxt.rooms == cur.rooms && nxt.width == cur.width && nxt.height == cur.height
    ensures cur.nextId !in cur.arena ==>
              nxt.arena.Keys == cur.arena.Keys + {cur.nextId} && |nxt.arena| == |cur.arena| + 1
    ensures cur.nextId !in cur.entities ==> |nxt.entities| == |cur.entities| + 1
    ensures nxt.arena[cur.nextId] == e && nxt.tiles[p] == Occupant(cur.nextId)
    ensures forall id :: id in cur.arena && id != cur.nextId ==> nxt.arena[id] == cur.arena[id]
    ensures forall q :: q in cur.tiles && q != p ==> nxt.tiles[q] == cur.tiles[q]
  {
    cur.(tiles := cur.tiles[p := Occupant(cur.nextId)], arena := cur.arena[cur.nextId := e],
         entities := cur.entities + {cur.nextId}, nextId := cur.nextId + 1)
  }

  /** An earlier spawn stays placed when another entity lands on a bare-floor cell. */
  lemma PlacedPersists(base: Level, cur: Level, enemyEnd: int, p: Pos, e: Entity, en: int, j: EntityId)
    requires Spawning(base, cur, enemyEnd)
    requires p in cur.tiles && Glyph(cur.tiles[p], cur.arena) == '.'
    requires base.nextId <= j < cur.nextId && (en == enemyEnd || en == cur.nextId + 1 == enemyEnd + 1)
    ensures Placed(base, PlaceEntity(cur, p, e), j, en)
  {
    assert Placed(base, cur, j, enemyEnd);
    var pj := cur.arena[j].pos;
    assert pj != p by {
      StatTable();
    }
    assert cur.nextId !in cur.arena;
    var nxt := PlaceEntity(cur, p, e);
    assert nxt.arena[j] == cur.arena[j];
    assert exists k :: 0 <= k < |cur.rooms| && InInterior(cur.rooms[k], pj);
  }

  /** The spawning conditions for placing `e` on cell `p`. */
  ghost predicate Placeable(base: Level, cur: Level, enemyEnd: int, p: Pos, e: Entity, enemy: bool, k: int) {
    && Spawning(base, cur, enemyEnd)
    && p in cur.tiles && Glyph(cur.tiles[p], cur.arena) == '.'
    && 0 <= k < |cur.rooms| && InInterior(cur.rooms[k], p)
    && (enemy ==> enemyEnd == cur.nextId)
    && (enemy ==> e == SetPos(ZombieTemplate, p.x, p.y) || e == SetPos(VampireTemplate, p.x, p.y))
    && (!enemy ==> e == SetPos(PotionTemplate, p.x, p.y))
  }

  /** After a placement every spawned entity, the new one included, is placed. */
  lemma AllPlaced(base: Level, cur: Level, enemyEnd: int, p: Pos, e: Entity, enemy: bool, k: int)
    requires Placeable(base, cur, enemyEnd, p, e, enemy, k)
    ensures var nxt, en := PlaceEntity(cur, p, e), if enemy then enemyEnd + 1 else enemyEnd;
            forall j :: base.nextId <= j < nxt.nextId ==> Placed(base, nxt, j, en)
  {
    FloorCellUntouched(base, cur, enemyEnd, p);
    var id := cur.nextId;
    var nxt := PlaceEntity(cur, p, e);
    var en := if enemy then enemyEnd + 1 else enemyEnd;
    forall j | base.nextId <= j < nxt.nextId
      ensures Placed(base, nxt, j, en)
    {
      if j < id {
        PlacedPersists(base, cur, enemyEnd, p, e, en, j);
      } else {
        assert nxt.arena[j] == e && e.pos == p;
      }
    }
  }

  /** A placement adds exactly the next fresh id to the arena and the live set. */
  lemma PlacedIds(base: Level, cur: Level, enemyEnd: int, p: Pos, e: Entity)
    requires Spawning(base, cur, enemyEnd)
    ensures var nxt := PlaceEntity(cur, p, e);
            && (forall id :: id in nxt.arena <==> id in base.arena || base.nextId <= id < nxt.nextId)
            && (forall id :: id in base.arena ==> nxt.arena[id] == base.arena[id])
            && (forall id :: id in nxt.entities <==> id in base.entities || base.nextId <= id < nxt.nextId)
  {
    assert cur.nextId !in base.arena;
  }

  /** A placement on a cell of the grid changes only that cell, to the new entity, which
      stands there. */
  lemma PlacedCells(base: Level, cur: Level, enemyEnd: int, p: Pos, e: Entity)
    requires Spawning(base, cur, enemyEnd) && p in cur.tiles && e.pos == p
    ensures var nxt := PlaceEntity(cur, p, e);
            && nxt.tiles.Keys == base.tiles.Keys
            && Known(nxt.tiles, nxt.arena)
            && forall q :: q in base.tiles ==>
                 || nxt.tiles[q] == base.tiles[q]
                 || (&& nxt.tiles[q].Occupant? && base.nextId <= nxt.tiles[q].id < nxt.nextId
                     && nxt.arena[nxt.tiles[q].id].pos == q)
  {
    var nxt := PlaceEntity(cur, p, e);
    forall q | q in base.tiles && nxt.tiles[q] != base.tiles[q] && q != p
      ensures nxt.tiles[q].Occupant? && base.nextId <= nxt.tiles[q].id < nxt.nextId
      ensures nxt.arena[nxt.tiles[q].id].pos == q
    {
      assert nxt.tiles[q] == cur.tiles[q];
      assert cur.tiles[q].id != cur.nextId;
    }
  }

  /** Spawning one more entity on a cell that shows bare floor keeps the invariant; an enemy
      can only follow enemies. */
  lemma PlaceOne(base: Level, cur: Level, enemyEnd: int, p: Pos, e: Entity, enemy: bool, k: int)
    requires Spawning(base, cur, enemyEnd)
    requires p in cur.tiles && Glyph(cur.tiles[p], cur.arena) == '.'
    requires 0 <= k < |cur.rooms| && InInterior(cur.rooms[k], p)
    requires enemy ==> enemyEnd == cur.nextId
    requires enemy ==> e == SetPos(ZombieTemplate, p.x, p.y) || e == SetPos(VampireTemplate, p.x, p.y)
    requires !enemy ==> e == SetPos(PotionTemplate, p.x, p.y)
    ensures cur.nextId !in cur.arena && cur.nextId !in cur.entities
    ensures |PlaceEntity(cur, p, e).arena| == |cur.arena| + 1
    ensures Spawning(base, PlaceEntity(cur, p, e), if enemy then enemyEnd + 1 else enemyEnd)
  {
    AllPlaced(base, cur, enemyEnd, p, e, enemy, k);
    FloorCellUntouched(base, cur, enemyEnd, p);
    assert cur.nextId !in cur.arena;
    PlacedIds(base, cur, enemyEnd, p, e);
    PlacedCells(base, cur, enemyEnd, p, e);
  }

  /** What spawning promises about its result `out`: the player stands at the first room's
      center and the exit at the last room's; `spawned` lists the fresh ids in placement order,
      enemies first, each one standing alone on an interior cell that showed bare floor; the
      live set grows by exactly `spawned`; no other entity and no other cell changes. The
      player's own cell is protected only when its glyph is not '.'. */
  ghost predicate Populated(lv: Level, out: Level, numEnemies: int, numPotions: int, spawned: seq<EntityId>)
    requires Valid(lv) && |lv.rooms| > 0
  {
    var c0, cl := Center(lv.rooms[0]), GetExit(lv);
    && Valid(out)
    && out.width == lv.width && out.height == lv.height && out.rooms == lv.rooms
    && out.arena[PlayerId] == SetPos(lv.arena[PlayerId], c0.x, c0.y)
    && lv.nextId in out.arena && out.arena[lv.nextId] == ExitTemplate && lv.nextId !in out.entities
    && cl in out.tiles && out.tiles[cl] == Occupant(lv.nextId)
    && (c0 != cl && lv.arena[PlayerId].glyph != '.' ==> c0 in out.tiles && out.tiles[c0] == Occupant(PlayerId))
    && |spawned| == Max(numEnemies, 0) + Max(numPotions, 0)
    && (forall i :: 0 <= i < |spawned| ==> spawned[i] == lv.nextId + 1 + i)
    && (forall id :: id in out.entities <==> id in lv.entities || id in spawned)
    && (forall id :: id in lv.arena && id != PlayerId ==> id in out.arena && out.arena[id] == lv.arena[id])
    && (forall i :: 0 <= i < |spawned| ==> Spawned(lv, out, spawned[i], i < Max(numEnemies, 0)))
    && (forall p :: p in lv.tiles && out.tiles[p] != lv.tiles[p] ==>
          p == c0 || p == cl || (out.tiles[p].Occupant? && out.tiles[p].id in spawned))
  }

  /** One spawned entity as seen from the level before spawning. */
  ghost predicate Spawned(lv: Level, out: Level, id: EntityId, enemy: bool)
    requires Valid(lv) && |lv.rooms| > 0
  {
    var c0, cl := Center(lv.rooms[0]), GetExit(lv);
    && id in out.arena
    && var e := out.arena[id];
    && e.pos in out.tiles && out.tiles[e.pos] == Occupant(id)
    && (exists k :: 0 <= k < |lv.rooms| && InInterior(lv.rooms[k], e.pos))
    && e.pos != cl
    && (e.pos != c0 ==> e.pos in lv.tiles && Glyph(lv.tiles[e.pos], lv.arena) == '.')
    && (lv.arena[PlayerId].glyph != '.' ==> e.pos != c0)
    && (enemy ==> e == SetPos(ZombieTemplate, e.pos.x, e.pos.y) || e == SetPos(VampireTemplate, e.pos.x, e.pos.y))
    && (!enemy ==> e == SetPos(PotionTemplate, e.pos.x, e.pos.y))
  }

  /** A finished spawning loop over the level with the player and exit placed. */
  ghost predicate SpawnEnd(lv: Level, base: Level, cur: Level, numEnemies: int, numPotions: int, spawned: seq<EntityId>) {
    && Valid(lv) && |lv.rooms| > 0
    && InBounds(Center(lv.rooms[0]), lv.width, lv.height) && InBounds(GetExit(lv), lv.width, lv.height)
    && base == PlacePlayerAndExit(lv, Center(lv.rooms[0]), GetExit(lv))
    && Spawning(base, cur, base.nextId + Max(numEnemies, 0))
    && cur.nextId - base.nextId == Max(numEnemies, 0) + Max(numPotions, 0)
    && |spawned| == cur.nextId - base.nextId
    && (forall i :: 0 <= i < |spawned| ==> spawned[i] == base.nextId + i)
  }

  /** No spawned entity stands on the exit's cell, which shows '>'. */
  lemma ExitCellKept(lv: Level, base: Level, cur: Level, numEnemies: int, numPotions: int, spawned: seq<EntityId>)
    requires SpawnEnd(lv, base, cur, numEnemies, numPotions, spawned)
    ensures cur.tiles[GetExit(lv)] == base.tiles[GetExit(lv)]
  {
    StatTable();
    forall id | base.nextId <= id < cur.nextId
      ensures cur.arena[id].pos != GetExit(lv)
    {
      assert Placed(base, cur, id, base.nextId + Max(numEnemies, 0));
    }
  }

  /** Each spawned entity, read against the level before spawning. */
  lemma SpawnedEach(lv: Level, base: Level, cur: Level, numEnemies: int, numPotions: int, spawned: seq<EntityId>, i: int)
    requires SpawnEnd(lv, base, cur, numEnemies, numPotions, spawned) && 0 <= i < |spawned|
    ensures Spawned(lv, cur, spawned[i], i < Max(numEnemies, 0))
  {
    StatTable();
    var c0 := Center(lv.rooms[0]);
    var id := spawned[i];
    assert Placed(base, cur, id, base.nextId + Max(numEnemies, 0));
    var p := cur.arena[id].pos;
    if p != c0 {
      assert base.tiles[p] == lv.tiles[p];
    }
  }

  /** The live set after spawning is the one before plus the spawned ids. */
  lemma SpawnedLive(lv: Level, base: Level, cur: Level, numEnemies: int, numPotions: int, spawned: seq<EntityId>)
    requires SpawnEnd(lv, base, cur, numEnemies, numPotions, spawned)
    ensures forall id :: id in cur.entities <==> id in lv.entities || id in spawned
  {
    forall id | id in cur.entities || id in spawned
      ensures id in cur.entities <==> id in lv.entities || id in spawned
    {
      if base.nextId <= id < cur.nextId {
        assert spawned[id - base.nextId] == id;
      }
    }
  }

  /** A cell that changed other than the player's and the exit's holds a spawned entity. */
  lemma SpawnedCells(lv: Level, base: Level, cur: Level, numEnemies: int, numPotions: int, spawned: seq<EntityId>)
    requires SpawnEnd(lv, base, cur, numEnemies, numPotions, spawned)
    ensures forall p :: p in lv.tiles && cur.tiles[p] != lv.tiles[p] ==>
              p == Center(lv.rooms[0]) || p == GetExit(lv) || (cur.tiles[p].Occupant? && cur.tiles[p].id in spawned)
  {
    forall p | p in lv.tiles && cur.tiles[p] != lv.tiles[p] && p != Center(lv.rooms[0]) && p != GetExit(lv)
      ensures cur.tiles[p].Occupant? && cur.tiles[p].id in spawned
    {
      assert spawned[cur.tiles[p].id - base.nextId] == cur.tiles[p].id;
    }
  }

  /** Reading a finished spawning invariant back in terms of the level before spawning. */
  lemma SpawnOutcome(lv: Level, base: Level, cur: Level, numEnemies: int, numPotions: int, spawned: seq<EntityId>)
    requires SpawnEnd(lv, base, cur, numEnemies, numPotions, spawned)
    ensures Populated(lv, cur, numEnemies, numPotions, spawned)
  {
    assert Valid(cur);
    SpawnedLive(lv, base, cur, numEnemies, numPotions, spawned);
    SpawnedCells(lv, base, cur, numEnemies, numPotions, spawned);
    ExitCellKept(lv, base, cur, numEnemies, numPotions, spawned);
    forall i | 0 <= i < |spawned|
      ensures Spawned(lv, cur, spawned[i], i < Max(numEnemies, 0))
    {
      SpawnedEach(lv, base, cur, numEnemies, numPotions, spawned, i);
    }
  }

  /** Level.spawner: the player goes to the first room's center and an exit (never added to the
      live set) to the last room's center; then, while enemies or potions remain, a random room
      and a random interior cell are drawn, and if that cell shows bare floor ('.') an enemy
      (vampire on a draw of 0 out of 0 .. 2, else zombie) or, once enemies are done, a potion is
      placed there and added to the live set. */
  method Spawn(lv: Level, numEnemies: int, numPotions: int, draws: seq<nat>)
    returns (r: Result<Level>, rest: seq<nat>, spawned: seq<EntityId>)
    requires Valid(lv)
    requires forall k :: 0 <= k < |lv.rooms| ==> Inside(lv.rooms[k], lv.width, lv.height) && WellFormed(lv.rooms[k])
    ensures SuffixOf(rest, draws)
    ensures r.Err? ==> (r.error == NoRooms <==> |lv.rooms| == 0)
    ensures (r.Err? && |lv.rooms| > 0 &&
             forall k :: 0 <= k < |lv.rooms| ==> lv.rooms[k].x2 - lv.rooms[k].x1 >= 2 && lv.rooms[k].y2 - lv.rooms[k].y1 >= 2)
            ==> r.error == OutOfDraws && |rest| < 3
    ensures r.Ok? ==> |lv.rooms| > 0
    ensures r.Ok? ==> Populated(lv, r.value, numEnemies, numPotions, spawned)
  {
    if |lv.rooms| == 0 {
      return Err(NoRooms), draws, [];
    }
    var c0, cl := Center(lv.rooms[0]), GetExit(lv);
    CenterOnGrid(lv.rooms[0], lv.width, lv.height);
    CenterOnGrid(lv.rooms[|lv.rooms| - 1], lv.width, lv.height);
    var base := PlacePlayerAndExit(lv, c0, cl);
    r, rest, spawned := SpawnLoop(base, numEnemies, numPotions, draws);
    if r.Ok? {
      SpawnOutcome(lv, base, r.value, numEnemies, numPotions, spawned);
    }
  }

  /** The spawner's placement loop over a level whose player and exit are already placed. */
  method SpawnLoop(base: Level, numEnemies: int, numPotions: int, draws: seq<nat>)
    returns (r: Result<Level>, rest: seq<nat>, spawned: seq<EntityId>)
    requires Valid(base) && |base.rooms| > 0
    requires forall k :: 0 <= k < |base.rooms| ==> Inside(base.rooms[k], base.width, base.height) && WellFormed(base.rooms[k])
    ensures SuffixOf(rest, draws)
    ensures r.Err? ==> r.error != NoRooms
    ensures (r.Err? && forall k :: 0 <= k < |base.rooms| ==>
               base.rooms[k].x2 - base.rooms[k].x1 >= 2 && base.rooms[k].y2 - base.rooms[k].y1 >= 2)
            ==> r.error == OutOfDraws && |rest| < 3
    ensures r.Ok? ==> Spawning(base, r.value, base.nextId + Max(numEnemies, 0))
    ensures r.Ok? ==> r.value.nextId - base.nextId == Max(numEnemies, 0) + Max(numPotions, 0)
    ensures r.Ok? ==> |spawned| == r.value.nextId - base.nextId
    ensures forall i :: 0 <= i < |spawned| ==> spawned[i] == base.nextId + i
  {
    rest, spawned := draws, [];
    var cur := base;
    var enemiesLeft, potionsLeft := numEnemies, numPotions;
    ghost var enemyEnd := base.nextId;
    SpawningStarts(base);
    while enemiesLeft > 0 || potionsLeft > 0
      invariant SuffixOf(rest, draws)
      invariant enemyEnd == base.nextId + Max(numEnemies, 0) - Max(enemiesLeft, 0)
      invariant enemiesLeft > 0 ==> enemyEnd == cur.nextId
      invariant Spawning(base, cur, enemyEnd)
      invariant enemiesLeft == numEnemies || 0 <= enemiesLeft < numEnemies
      invariant potionsLeft == numPotions || 0 <= potionsLeft < numPotions
      invariant enemiesLeft > 0 ==> potionsLeft == numPotions
      invariant cur.nextId - base.nextId ==
                  (Max(numEnemies, 0) - Max(enemiesLeft, 0)) + (Max(numPotions, 0) - Max(potionsLeft, 0))
      invariant |spawned| == cur.nextId - base.nextId
      invariant forall i :: 0 <= i < |spawned| ==> spawned[i] == base.nextId + i
      decreases |rest|
    {
      var step, rest' := SpawnAttempt(base, cur, enemyEnd, enemiesLeft > 0, rest);
      SuffixTransitive(rest', rest, draws);
      rest := rest';
      if step.Err? {
        return Err(step.error), rest, spawned;
      }
      if step.value != cur {
        spawned := spawned + [cur.nextId];
        if enemiesLeft > 0 {
          enemiesLeft, enemyEnd := enemiesLeft - 1, enemyEnd + 1;
        } else {
          potionsLeft := potionsLeft - 1;
        }
        cur := step.value;
      }
    }
    r := Ok(cur);
  }

  /** The spawner's three draws for a cell: a room, then a column and a row strictly inside
      it. A draw that fails consumes nothing. */
  method DrawCell(rooms: seq<Room>, draws: seq<nat>) returns (r: Result<(int, Pos)>, rest: seq<nat>)
    requires |rooms| > 0
    ensures SuffixOf(rest, draws)
    ensures r.Ok? ==> |rest| == |draws| - 3 && 0 <= r.value.0 < |rooms| && InInterior(rooms[r.value.0], r.value.1)
    ensures r.Err? ==> r.error != NoRooms
    ensures (r.Err? && forall k :: 0 <= k < |rooms| ==> rooms[k].x2 - rooms[k].x1 >= 2 && rooms[k].y2 - rooms[k].y1 >= 2)
            ==> r.error == OutOfDraws && |draws| < 3
    ensures r.Err? ==> rest == draws
  {
    rest := draws;
    var roomDraw := Draw(draws, 0, |rooms| - 1);
    if roomDraw.Err? { return Err(roomDraw.error), rest; }
    var room := rooms[roomDraw.value.0];
    var xDraw := Draw(roomDraw.value.1, room.x1 + 1, room.x2 - 1);
    if xDraw.Err? { return Err(xDraw.error), rest; }
    var yDraw := Draw(xDraw.value.1, room.y1 + 1, room.y2 - 1);
    if yDraw.Err? { return Err(yDraw.error), rest; }
    rest := yDraw.value.1;
    assert rest == draws[3..];
    r := Ok((roomDraw.value.0, Pos(xDraw.value.0, yDraw.value.0)));
  }

  lemma InteriorOnGrid(r: Room, p: Pos, width: int, height: int)
    requires Inside(r, width, height) && InInterior(r, p)
    ensures InBounds(p, width, height)
  {
  }

  /** One pass of the spawning loop: draw a room and a cell in its interior; if the cell shows
      bare floor, place an enemy (drawing its kind) or a potion there; otherwise change nothing. */
  method SpawnAttempt(ghost base: Level, cur: Level, ghost enemyEnd: int, enemy: bool, draws: seq<nat>)
    returns (r: Result<Level>, rest: seq<nat>)
    requires Spawning(base, cur, enemyEnd) && |cur.rooms| > 0
    requires forall k :: 0 <= k < |cur.rooms| ==> Inside(cur.rooms[k], cur.width, cur.height) && WellFormed(cur.rooms[k])
    requires enemy ==> enemyEnd == cur.nextId
    ensures SuffixOf(rest, draws) && (r.Ok? ==> |rest| < |draws|)
    ensures r.Err? ==> r.error != NoRooms
    ensures (r.Err? && forall k :: 0 <= k < |cur.rooms| ==>
               cur.rooms[k].x2 - cur.rooms[k].x1 >= 2 && cur.rooms[k].y2 - cur.rooms[k].y1 >= 2)
            ==> r.error == OutOfDraws && |rest| < 3
    ensures r.Ok? ==> |rest| == |draws| - (if enemy && r.value != cur then 4 else 3)
    ensures r.Ok? && r.value != cur ==>
              && r.value.nextId == cur.nextId + 1
              && Spawning(base, r.value, if enemy then enemyEnd + 1 else enemyEnd)
  {
    var cell;
    cell, rest := DrawCell(cur.rooms, draws);
    if cell.Err? { return Err(cell.error), rest; }
    var k, p := cell.value.0, cell.value.1;
    assert p in cur.tiles by {
      InteriorOnGrid(cur.rooms[k], p, cur.width, cur.height);
    }
    if Glyph(cur.tiles[p], cur.arena) != '.' {
      return Ok(cur), rest;
    }
    var placed: Entity;
    if enemy {
      var kindDraw := Draw(rest, 0, 2);
      if kindDraw.Err? { return Err(kindDraw.error), rest; }
      rest := kindDraw.value.1;
      placed := SetPos(if kindDraw.value.0 == 0 then VampireTemplate else ZombieTemplate, p.x, p.y);
    } else {
      placed := SetPos(PotionTemplate, p.x, p.y);
    }
    PlaceOne(base, cur, enemyEnd, p, placed, enemy, k);
    r := Ok(PlaceEntity(cur, p, placed));
  }
}
