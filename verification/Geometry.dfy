// Points of the plane, the square field, and the neighbourhood relations that the
// fleet rules and the shot rules are stated with.
module Geometry {

  const FLD_SZ: int := 10

  datatype Point = Point(x: int, y: int) {
    function Plus(other: Point): Point {
      Point(x + other.x, y + other.y)
    }
  }

  /** The point has a cell on the field. */
  predicate OnField(p: Point) {
    0 <= p.x < FLD_SZ && 0 <= p.y < FLD_SZ
  }

  function FieldPoints(): (s: set<Point>)
    ensures forall p: Point :: p in s <==> OnField(p)
  {
    var s := set x, y | 0 <= x < FLD_SZ && 0 <= y < FLD_SZ :: Point(x, y);
    assert forall p: Point :: OnField(p) ==> p == Point(p.x, p.y) && p in s;
    s
  }

  /** Same cell, or side by side, or corner to corner. */
  predicate Near(p: Point, q: Point) {
    -1 <= p.x - q.x <= 1 && -1 <= p.y - q.y <= 1
  }

  /** r lies in the smallest rectangle that has p and q as corners. */
  predicate InBox(p: Point, q: Point, r: Point) {
    && (p.x <= r.x <= q.x || q.x <= r.x <= p.x)
    && (p.y <= r.y <= q.y || q.y <= r.y <= p.y)
  }

  predicate Aligned(p: Point, q: Point) {
    p.x == q.x || p.y == q.y
  }

  function Abs(n: int): nat {
    if n < 0 then -n else n
  }

  function Distance(p: Point, q: Point): nat {
    Abs(p.x - q.x) + Abs(p.y - q.y)
  }

  /** The next point on the straight way from q to p. */
  function StepTowards(q: Point, p: Point): Point {
    if q.x < p.x then Point(q.x + 1, q.y)
    else if q.x > p.x then Point(q.x - 1, q.y)
    else if q.y < p.y then Point(q.x, q.y + 1)
    else if q.y > p.y then Point(q.x, q.y - 1)
    else q
  }
}
