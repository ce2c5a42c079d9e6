/** Rectangular rooms: the unit of level generation. */
module Rooms {
  import opened Geometry

  /** A room by its bounding corners; the border lines x1, x2, y1, y2 stay wall. */
  datatype Room = Room(x1: int, y1: int, x2: int, y2: int)

  /** A room from its corner and size: the far corner is the near one plus the size. */
  function NewRoom(x1: int, y1: int, width: int, height: int): (r: Room)
    ensures r.x1 == x1 && r.y1 == y1
    ensures r.x2 - r.x1 == width && r.y2 - r.y1 == height
  {
    Room(x1, y1, x1 + width, y1 + height)
  }

  /** The carvable interior: columns x1+1 .. x2-1 and rows y1+1 .. y2-1 (the slices
      `x1+1 : x2` and `y1+1 : y2`). */
  function Interior(r: Room): Rect {
    Rect(r.x1 + 1, r.x2 - 1, r.y1 + 1, r.y2 - 1)
  }

  predicate InInterior(r: Room, p: Pos) {
    InRect(p, Interior(r))
  }

  /** The closed bounding box, border included. */
  predicate InBox(r: Room, p: Pos) {
    r.x1 <= p.x <= r.x2 && r.y1 <= p.y <= r.y2
  }

  /** The spawn anchor and corridor endpoint: the midpoint, truncated toward zero. */
  function Center(r: Room): Pos {
    Pos(Half(r.x1 + r.x2), Half(r.y1 + r.y2))
  }

  /** Inclusive overlap of the bounding boxes: rooms that merely share a border line count. */
  predicate Intersect(a: Room, b: Room) {
    a.x1 <= b.x2 && a.x2 >= b.x1 && a.y1 <= b.y2 && a.y2 >= b.y1
  }

  /** The room has a non-negative size in both directions. */
  predicate WellFormed(r: Room) {
    r.x1 <= r.x2 && r.y1 <= r.y2
  }

  /** The border lines are never interior, and the interior lies strictly inside the box. */
  lemma InteriorExcludesBorder(r: Room, p: Pos)
    ensures (p.x == r.x1 || p.x == r.x2 || p.y == r.y1 || p.y == r.y2) ==> !InInterior(r, p)
    ensures InInterior(r, p) ==> InBox(r, p) && r.x1 < p.x < r.x2 && r.y1 < p.y < r.y2
  {
  }

  /** On non-negative coordinates the center is the floor midpoint, it lies in the closed box
      of a well-formed room, and inside the interior once the room is at least 2 by 2. */
  lemma CenterPlacement(r: Room)
    requires 0 <= r.x1 && 0 <= r.y1
    ensures WellFormed(r) ==> Center(r) == Pos((r.x1 + r.x2) / 2, (r.y1 + r.y2) / 2)
    ensures WellFormed(r) ==> InBox(r, Center(r))
    ensures r.x2 - r.x1 >= 2 && r.y2 - r.y1 >= 2 ==> InInterior(r, Center(r))
  {
  }

  /** Intersection is symmetric, and every well-formed room intersects itself. */
  lemma IntersectSymmetricReflexive(a: Room, b: Room)
    ensures Intersect(a, b) <==> Intersect(b, a)
    ensures WellFormed(a) ==> Intersect(a, a)
  {
  }

  /** Rooms whose boxes share a single border column (and overlap in rows) intersect. */
  lemma TouchingRoomsIntersect(a: Room, b: Room)
    requires WellFormed(a) && WellFormed(b)
    requires a.x2 == b.x1 && a.y1 <= b.y2 && b.y1 <= a.y2
    ensures Intersect(a, b)
  {
  }

  /** Intersection is exactly a shared cell of the closed boxes. */
  lemma IntersectIffSharedCell(a: Room, b: Room)
    requires WellFormed(a) && WellFormed(b)
    ensures Intersect(a, b) <==> exists p :: InBox(a, p) && InBox(b, p)
  {
    if Intersect(a, b) {
      var p := Pos(Max(a.x1, b.x1), Max(a.y1, b.y1));
      assert InBox(a, p) && InBox(b, p);
    }
  }

  /** Rooms that do not intersect have disjoint interiors and distinct centers. */
  lemma SeparateRooms(a: Room, b: Room, p: Pos)
    requires !Intersect(a, b)
    ensures !(InInterior(a, p) && InInterior(b, p))
    ensures WellFormed(a) && WellFormed(b) ==> Center(a) != Center(b)
  {
  }
}
