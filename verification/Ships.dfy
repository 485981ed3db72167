// Ship kinds, the head/tail constructor and the queries of a ship.
module Ships {
  import opened Geometry

  datatype ShipType = Submarine | Destroyer | Cruiser | Battleship | AircraftCarrier | Invalid

  function ShipLength(kind: ShipType): nat {
    match kind
    case Submarine => 1
    case Destroyer => 2
    case Cruiser => 3
    case Battleship => 4
    case AircraftCarrier => 5
    case Invalid => 0
  }

  function ShipCount(kind: ShipType): nat {
    match kind
    case Submarine => 2
    case Destroyer => 2
    case Cruiser => 1
    case Battleship => 1
    case AircraftCarrier => 1
    case Invalid => 0
  }

  function ShipTypeOf(len: int): (kind: ShipType)
    ensures 1 <= len <= 5 ==> kind != Invalid && ShipLength(kind) == len
    ensures !(1 <= len <= 5) ==> kind == Invalid
  {
    match len
    case 1 => Submarine
    case 2 => Destroyer
    case 3 => Cruiser
    case 4 => Battleship
    case 5 => AircraftCarrier
    case _ => Invalid
  }

  datatype Ship = Ship(kind: ShipType, head: Point, tail: Point) {
    function Length(): nat {
      ShipLength(kind)
    }

    predicate IsVertical() {
      kind != Invalid && head.x == tail.x
    }

    function Delta(): Point {
      if kind == Invalid then Point(0, 0)
      else if IsVertical() then Point(0, 1)
      else Point(1, 0)
    }
  }

  /** The constructor from two end points. Only when the computed length is negative are
      the end points exchanged, and the length is then negated without correction. */
  function MakeShip(head: Point, tail: Point): Ship {
    if head == tail then Ship(Submarine, head, tail)
    else if head.x == tail.x then FromLength(head, tail, tail.y - head.y + 1)
    else if head.y == tail.y then FromLength(head, tail, tail.x - head.x + 1)
    else Ship(Invalid, head, tail)
  }

  function FromLength(head: Point, tail: Point, len: int): Ship {
    if len < 0 then Ship(ShipTypeOf(-len), tail, head)
    else Ship(ShipTypeOf(len), head, tail)
  }

  /** The cells between the end points. */
  predicate Covers(s: Ship, p: Point) {
    s.head.x <= p.x <= s.tail.x && s.head.y <= p.y <= s.tail.y
  }

  /** Straight, with the head first in reading order. */
  predicate Straight(s: Ship) {
    || (s.head.x == s.tail.x && s.head.y <= s.tail.y)
    || (s.head.y == s.tail.y && s.head.x <= s.tail.x)
  }

  /** The number of cells of a straight ship. */
  function Span(s: Ship): int {
    s.tail.x - s.head.x + s.tail.y - s.head.y + 1
  }

  /** A ship that may lie on the field: straight, in bounds, of the kind its length has. */
  predicate Placed(s: Ship) {
    && OnField(s.head) && OnField(s.tail)
    && Straight(s)
    && s.kind == ShipTypeOf(Span(s))
    && s.kind != Invalid
  }

  function CellsOf(s: Ship): (cells: set<Point>)
    ensures forall p: Point :: p in cells <==> Covers(s, p)
  {
    var cells := set x, y | s.head.x <= x <= s.tail.x && s.head.y <= y <= s.tail.y :: Point(x, y);
    assert forall p: Point :: Covers(s, p) ==> p == Point(p.x, p.y) && p in cells;
    cells
  }

  /** Given its end points in reading order, the constructor yields the kind of that length. */
  lemma ForwardShip(head: Point, tail: Point)
    requires Straight(MakeShip(head, tail).(head := head, tail := tail))
    ensures MakeShip(head, tail).head == head && MakeShip(head, tail).tail == tail
    ensures MakeShip(head, tail).kind == ShipTypeOf(Span(MakeShip(head, tail)))
    ensures MakeShip(head, tail).kind != Invalid ==> MakeShip(head, tail).Length() == Span(MakeShip(head, tail))
  {
  }

  /** Exactly when the constructor gives two aligned end points the kind of their true
      distance: they come in reading order, or they are too far apart for any kind either way. */
  lemma ConstructorKind(head: Point, tail: Point)
    requires Aligned(head, tail)
    ensures MakeShip(head, tail).kind == ShipTypeOf(Distance(head, tail) + 1)
            <==> (head.x <= tail.x && head.y <= tail.y) || Distance(head, tail) >= 7
  {
  }

  /** Otherwise the kind is the one for two cells less, and for neighbouring end points none at
      all; the end points are exchanged unless they are neighbours. */
  lemma ReversedShip(head: Point, tail: Point)
    requires Aligned(head, tail) && !(head.x <= tail.x && head.y <= tail.y)
    ensures MakeShip(head, tail).kind == ShipTypeOf(Distance(head, tail) - 1)
    ensures if Distance(head, tail) == 1 then MakeShip(head, tail) == Ship(Invalid, head, tail)
            else MakeShip(head, tail).head == tail && MakeShip(head, tail).tail == head
  {
  }

  /** A destroyer given from right to left is taken for no ship. */
  lemma ReversedDestroyer()
    ensures MakeShip(Point(1, 0), Point(0, 0)).kind == Invalid
    ensures MakeShip(Point(0, 0), Point(1, 0)).kind == Destroyer
  {
  }

  /** The cells met when walking the ship's length from its head along its direction. */
  predicate OnWalk(s: Ship, p: Point) {
    if s.kind == Invalid then false
    else if s.IsVertical() then p.x == s.head.x && s.head.y <= p.y < s.head.y + s.Length()
    else p.y == s.head.y && s.head.x <= p.x < s.head.x + s.Length()
  }

  /** On a placed ship the walk meets exactly the cells between the end points. */
  lemma WalkCoversPlaced(s: Ship, p: Point)
    requires Placed(s)
    ensures OnWalk(s, p) <==> Covers(s, p)
  {
  }

  method ContainsPoint(ship: Ship, point: Point) returns (found: bool)
    ensures found <==> OnWalk(ship, point)
  {
    if ship.kind == Invalid {
      return false;
    }
    var len := ship.Length();
    var tmp := ship.head;
    var delta := ship.Delta();
    var i := 0;
    while i < len
      invariant 0 <= i <= len
      invariant tmp == if ship.IsVertical() then Point(ship.head.x, ship.head.y + i) else Point(ship.head.x + i, ship.head.y)
      invariant OnWalk(ship, point) ==> point.y - ship.head.y + point.x - ship.head.x >= i
    {
      if point == tmp {
        return true;
      }
      tmp := tmp.Plus(delta);
      i := i + 1;
    }
    return false;
  }
}
