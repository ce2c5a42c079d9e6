/** Grid coordinates and the small integer helpers shared by every part of the model.
    Grids are indexed by column x and row y, as the game indexes its tile arrays. */
module Geometry {

  /** A cell coordinate (column x, row y). */
  datatype Pos = Pos(x: int, y: int)

  /** The cell lies on a width-by-height grid. */
  predicate InBounds(p: Pos, width: int, height: int) {
    0 <= p.x < width && 0 <= p.y < height
  }

  /** The cell reached from `p` by the step `d`. */
  function Shift(p: Pos, d: Pos): Pos {
    Pos(p.x + d.x, p.y + d.y)
  }

  /** The step that leads from `a` to `b`. */
  function Offset(a: Pos, b: Pos): Pos {
    Pos(b.x - a.x, b.y - a.y)
  }

  /** A closed rectangle of cells: columns x1..x2 and rows y1..y2, both ends included. */
  datatype Rect = Rect(x1: int, x2: int, y1: int, y2: int)

  predicate InRect(p: Pos, r: Rect) {
    r.x1 <= p.x <= r.x2 && r.y1 <= p.y <= r.y2
  }

  /** Two cells are neighbours in the four-directional sense. */
  predicate Adjacent(a: Pos, b: Pos) {
    (a.x == b.x && (a.y == b.y + 1 || a.y + 1 == b.y)) ||
    (a.y == b.y && (a.x == b.x + 1 || a.x + 1 == b.x))
  }

  function Min(a: int, b: int): int {
    if a <= b then a else b
  }

  function Max(a: int, b: int): int {
    if a >= b then a else b
  }

  /** Halving with truncation toward zero, as `int(n / 2)` does on the game's integers. */
  function Half(n: int): (h: int)
    ensures n >= 0 ==> h == n / 2
    ensures 2 * h <= n + 1 && n - 1 <= 2 * h
    ensures n >= 0 ==> 0 <= h <= n
    ensures n < 0 ==> n <= h <= 0
    ensures n < 0 ==> n <= 2 * h <= n + 1
  {
    if n >= 0 then n / 2 else -((-n) / 2)
  }
}
