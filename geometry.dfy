/** Screen, sprite rectangles and the per-frame motion of one sprite.
    Positions are integers: every spawn coordinate and velocity in the game
    is drawn with `randint`, and the player moves by whole pixels. */
module Geometry {

  /** Size of the window the shooter view fills (`SCREEN_WIDTH`, `SCREEN_HEIGHT`). */
  const ScreenWidth: int := 800
  const ScreenHeight: int := 600

  /** A sprite as a value: its bounding box (left, bottom, width, height)
      and its per-frame velocity (`change_x`, `change_y`). */
  datatype Entity = Entity(left: int, bottom: int, width: nat, height: nat, changeX: int, changeY: int)
  {
    function Right(): int { left + width }
    function Top(): int { bottom + height }
  }

  /** Axis-aligned intersection of two bounding boxes; stands for the
      library's hit-box test. */
  predicate Overlaps(a: Entity, b: Entity)
  {
    a.left < b.Right() && b.left < a.Right() && a.bottom < b.Top() && b.bottom < a.Top()
  }

  /** The pixel cell (x, y) lies inside the box. */
  predicate Covers(e: Entity, x: int, y: int)
  {
    e.left <= x < e.Right() && e.bottom <= y < e.Top()
  }

  /** Two boxes of positive size overlap exactly when some pixel cell lies
      inside both: the cell at the larger left edge and the larger bottom. */
  lemma OverlapsSharedCell(a: Entity, b: Entity)
    ensures a.width > 0 && a.height > 0 && b.width > 0 && b.height > 0 && Overlaps(a, b) ==>
      var x, y := Max(a.left, b.left), Max(a.bottom, b.bottom);
      Covers(a, x, y) && Covers(b, x, y)
    ensures forall x, y :: Covers(a, x, y) && Covers(b, x, y) ==> Overlaps(a, b)
  {
  }

  function Max(x: int, y: int): int
  {
    if x < y then y else x
  }

  /** One frame of `Sprite.update`: the position advances by the velocity. */
  function Step(e: Entity): (r: Entity)
    ensures r.width == e.width && r.height == e.height
    ensures r.changeX == e.changeX && r.changeY == e.changeY
    ensures r.Right() - e.Right() == e.changeX && r.Top() - e.Top() == e.changeY
  {
    e.(left := e.left + e.changeX, bottom := e.bottom + e.changeY)
  }

  /** `Step` applied `n` times. */
  function Steps(e: Entity, n: nat): Entity
  {
    if n == 0 then e else Step(Steps(e, n - 1))
  }

  /** After `n` steps at constant velocity the box has moved by `n` times
      its velocity, and nothing else about it has changed. */
  lemma {:induction false} StepsDrift(e: Entity, n: nat)
    ensures Steps(e, n) == e.(left := e.left + n * e.changeX, bottom := e.bottom + n * e.changeY)
  {
    if n > 0 {
      StepsDrift(e, n - 1);
      assert n * e.changeX == (n - 1) * e.changeX + e.changeX;
      assert n * e.changeY == (n - 1) * e.changeY + e.changeY;
    }
  }

  /** A flying sprite is despawned once its right edge is left of the screen. */
  predicate OffLeft(e: Entity)
  {
    e.Right() < 0
  }

  /** The clamp of one axis, as the tick writes it: first the far edge is
      pulled back to `limit`, then the near edge is pushed up to 0. */
  function ClampAxis(lo: int, size: nat, limit: int): (r: int)
    ensures r >= 0
    ensures size <= limit ==> r + size <= limit
    ensures 0 <= lo && lo + size <= limit ==> r == lo
    ensures lo < 0 ==> r == 0
    ensures lo + size > limit ==> r == Max(0, limit - size)
  {
    var pulled := if lo + size > limit then limit - size else lo;
    if pulled < 0 then 0 else pulled
  }

  /** The sprite fits on the screen at all. */
  predicate FitsScreen(e: Entity)
  {
    e.width <= ScreenWidth && e.height <= ScreenHeight
  }

  /** The sprite lies entirely on the screen. */
  predicate OnScreen(e: Entity)
  {
    0 <= e.left && e.Right() <= ScreenWidth && 0 <= e.bottom && e.Top() <= ScreenHeight
  }

  /** Keeping the player on screen (both axes). Left and bottom are never
      negative afterwards; a sprite that fits ends up wholly on screen; one
      already on screen does not move; size and velocity are untouched. */
  function ClampToScreen(e: Entity): (r: Entity)
    ensures r.width == e.width && r.height == e.height
    ensures r.changeX == e.changeX && r.changeY == e.changeY
    ensures r.left >= 0 && r.bottom >= 0
    ensures FitsScreen(e) ==> OnScreen(r)
    ensures OnScreen(e) ==> r == e
    ensures e.left < 0 ==> r.left == 0
    ensures e.bottom < 0 ==> r.bottom == 0
    ensures e.Right() > ScreenWidth ==> r.left == Max(0, ScreenWidth - e.width)
    ensures e.Top() > ScreenHeight ==> r.bottom == Max(0, ScreenHeight - e.height)
    ensures 0 <= e.left && e.Right() <= ScreenWidth ==> r.left == e.left
    ensures 0 <= e.bottom && e.Top() <= ScreenHeight ==> r.bottom == e.bottom
  {
    e.(left := ClampAxis(e.left, e.width, ScreenWidth),
       bottom := ClampAxis(e.bottom, e.height, ScreenHeight))
  }

  /** Clamping twice is clamping once. */
  lemma ClampIdempotent(e: Entity)
    ensures ClampToScreen(ClampToScreen(e)) == ClampToScreen(e)
  {
  }
}
