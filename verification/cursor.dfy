/** The arrow-key rules for the cursor of a canvas `width` pixels wide and
    `height` pixels high, whose bounds start at (0, 0). */
module Cursor {
  import opened Raster

  datatype Direction = Up | Down | Left | Right

  /** The number of positions the cursor can take along an axis of `n`
      pixels: it starts at the minimum corner, 0, and rests there when the
      axis is empty. */
  function Span(n: nat): nat
  {
    if n == 0 then 1 else n
  }

  /** Where the cursor may be: inside the canvas, or at (0, 0) along an axis
      the canvas does not extend on. */
  predicate InRange(p: Point, width: nat, height: nat)
  {
    0 <= p.x < Span(width) && 0 <= p.y < Span(height)
  }

  /** On a canvas with pixels, a cursor in range lies on a pixel. */
  lemma InRangeOnCanvas(p: Point, width: nat, height: nat)
    requires InRange(p, width, height) && width > 0 && height > 0
    ensures 0 <= p.x < width && 0 <= p.y < height
  {
  }

  /** The neighbouring position one step in direction `d`. */
  function Target(d: Direction, p: Point): (q: Point)
    ensures (q.x == p.x && (q.y == p.y + 1 || q.y == p.y - 1))
         || (q.y == p.y && (q.x == p.x + 1 || q.x == p.x - 1))
  {
    match d
    case Up => Point(p.x, p.y - 1)
    case Down => Point(p.x, p.y + 1)
    case Left => Point(p.x - 1, p.y)
    case Right => Point(p.x + 1, p.y)
  }

  function Opposite(d: Direction): Direction
  {
    match d
    case Up => Down
    case Down => Up
    case Left => Right
    case Right => Left
  }

  /** Where an arrow key leaves the cursor: it moves to the neighbour when the
      coordinate it changes stays inside the canvas, and stays put otherwise. */
  function Step(d: Direction, p: Point, width: nat, height: nat): (q: Point)
    ensures q == p || q == Target(d, p)
    ensures InRange(p, width, height) ==> (q == Target(d, p) <==> InRange(Target(d, p), width, height))
    ensures InRange(p, width, height) ==> InRange(q, width, height)
  {
    match d
    case Up => if p.y > 0 then Point(p.x, p.y - 1) else p
    case Down => if p.y + 1 < height then Point(p.x, p.y + 1) else p
    case Left => if p.x > 0 then Point(p.x - 1, p.y) else p
    case Right => if p.x + 1 < width then Point(p.x + 1, p.y) else p
  }

  /** A move that happened is undone by the opposite arrow. */
  lemma StepUndo(d: Direction, p: Point, width: nat, height: nat)
    requires InRange(p, width, height)
    requires Step(d, p, width, height) != p
    ensures Step(Opposite(d), Step(d, p, width, height), width, height) == p
  {
  }

  /** The cursor after a sequence of arrow keys. */
  function Walk(keys: seq<Direction>, p: Point, width: nat, height: nat): Point
    decreases |keys|
  {
    if keys == [] then p else Walk(keys[1..], Step(keys[0], p, width, height), width, height)
  }

  /** However many arrow keys are pressed, the cursor stays in range. */
  lemma {:induction false} WalkInRange(keys: seq<Direction>, p: Point, width: nat, height: nat)
    requires InRange(p, width, height)
    ensures InRange(Walk(keys, p, width, height), width, height)
    decreases |keys|
  {
    if keys != [] {
      WalkInRange(keys[1..], Step(keys[0], p, width, height), width, height);
    }
  }

  function Distance(p: Point, q: Point): nat
  {
    (if p.x <= q.x then q.x - p.x else p.x - q.x) + (if p.y <= q.y then q.y - p.y else p.y - q.y)
  }

  /** Every arrow key moves the cursor by at most one pixel. */
  lemma {:induction false} WalkDistance(keys: seq<Direction>, p: Point, width: nat, height: nat)
    ensures Distance(p, Walk(keys, p, width, height)) <= |keys|
    decreases |keys|
  {
    if keys != [] {
      var q := Step(keys[0], p, width, height);
      WalkDistance(keys[1..], q, width, height);
      assert Distance(p, q) <= 1;
    }
  }
}
