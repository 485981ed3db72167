// The game field: a grid of cells changed in place by shots.
module GameFields {
  import opened Geometry
  import opened Ships
  import opened Fleets
  import opened Grids
  import FieldValidator
  import opened ShotRules
  import opened EnemyViews

  const DIRS: seq<Point> := [Point(1, 0), Point(-1, 0), Point(0, 1), Point(0, -1)]
  const AROUND: seq<Point> := [
    Point(1, 0), Point(1, 1), Point(1, -1), Point(-1, 0),
    Point(-1, 1), Point(-1, -1), Point(0, 1), Point(0, -1)
  ]

  /** q lies ahead of p in direction d. */
  predicate OnRay(p: Point, d: Point, q: Point) {
    || (d == Point(1, 0) && q.y == p.y && q.x > p.x)
    || (d == Point(-1, 0) && q.y == p.y && q.x < p.x)
    || (d == Point(0, 1) && q.x == p.x && q.y > p.y)
    || (d == Point(0, -1) && q.x == p.x && q.y < p.y)
  }

  lemma SomeRay(p: Point, q: Point)
    requires Aligned(p, q) && p != q
    ensures exists k :: 0 <= k < |DIRS| && OnRay(p, DIRS[k], q)
  {
    var k := if q.x > p.x then 0 else if q.x < p.x then 1 else if q.y > p.y then 2 else 3;
    assert OnRay(p, DIRS[k], q);
  }

  /** In direction d a line of damaged cells from p runs into an unharmed cell. */
  ghost predicate RunsIntoUnharmed(b: Board, p: Point, d: Point) {
    exists q: Point :: OnRay(p, d, q) && EndsLine(b, p, q) && State(b, q) == UNHARMED
  }

  /** One more step along a line of damaged cells. */
  lemma StepAlong(b: Board, p: Point, d: Point, cur: Point)
    requires d in DIRS && (cur == p || OnRay(p, d, cur)) && OnLine(b, p, cur)
    ensures OnRay(p, d, cur.Plus(d)) && EndsLine(b, p, cur.Plus(d))
    ensures Distance(p, cur.Plus(d)) == Distance(p, cur) + 1
  {
    hide State;
    var next := cur.Plus(d);
    forall r: Point | InBox(p, next, r) && r != next ensures InBox(p, cur, r) {
    }
  }

  /** Past the first cell that is not damaged no line goes on. */
  lemma StopAlong(b: Board, p: Point, d: Point, cur: Point, q: Point)
    requires d in DIRS && (cur == p || OnRay(p, d, cur)) && OnLine(b, p, cur)
    requires State(b, cur.Plus(d)) != DAMAGED
    requires OnRay(p, d, q) && EndsLine(b, p, q)
    ensures q == cur.Plus(d) || InBox(p, cur, q)
  {
    hide State;
    var next := cur.Plus(d);
    assert InBox(p, q, next) || InBox(p, cur, q);
  }

  /** The board with the empty cells near some cell of M marked as missed. */
  ghost function MarkedNear(b: Board, M: set<Point>): Board {
    map q: Point | q in FieldPoints() :: if State(b, q) == EMPTY && NearSome(M, q) then MISSED else b[q]
  }

  predicate NearSome(M: set<Point>, q: Point) {
    exists r :: r in M && Near(r, q)
  }

  lemma NearSomeMore(M: set<Point>, r: Point, q: Point)
    ensures NearSome(M + {r}, q) <==> NearSome(M, q) || Near(r, q)
    ensures NearSome({r}, q) <==> Near(r, q)
  {
    hide Near;
    assert r in {r} && r in M + {r};
    forall m | m in M && Near(m, q) ensures m in M + {r} {
    }
  }

  lemma MarkedNearStates(b: Board, M: set<Point>, q: Point)
    ensures State(MarkedNear(b, M), q) == DAMAGED <==> State(b, q) == DAMAGED
  {
  }

  lemma MarkMore(b: Board, M: set<Point>, r: Point)
    ensures MarkedNear(MarkedNear(b, M), {r}) == MarkedNear(b, M + {r})
  {
    hide NearSome, Near;
    forall q: Point | OnField(q) ensures MarkedNear(MarkedNear(b, M), {r})[q] == MarkedNear(b, M + {r})[q] {
      NearSomeMore(M, r, q);
    }
  }

  lemma MarkNothing(b: Board)
    ensures MarkedNear(b, {}) == b
  {
  }

  /** Marking near all cells of the lines through p. */
  lemma MarkLines(b: Board, p: Point, M: set<Point>)
    requires forall r: Point :: r in M <==> OnLine(b, p, r)
    ensures MarkedNear(b, M) == Surrounded(b, p)
  {
    hide State, OnLine, Near;
    forall q: Point | OnField(q) ensures MarkedNear(b, M)[q] == Surrounded(b, p)[q] {
      assert NearLine(b, p, q) <==> NearSome(M, q);
    }
  }

  class GameField {
    const field: array2<Cell>

    ghost predicate Valid() {
      IsGrid(field)
    }

    ghost function Contents(): Board
      requires Valid()
      reads field
    {
      BoardOf(field)
    }

    constructor ()
      ensures Valid() && fresh(field)
      ensures Contents() == EmptyBoard()
    {
      field := new Cell[FLD_SZ, FLD_SZ]((_, _) => EMPTY);
      new;
      assert BoardOf(field) == EmptyBoard();
    }

    constructor Copy(other: GameField)
      requires other.Valid()
      ensures Valid() && fresh(field)
      ensures Contents() == other.Contents()
    {
      field := new Cell[FLD_SZ, FLD_SZ];
      new;
      CopyGrid(other.field, field);
    }

    /** The cells as a value, for a message. */
    method Snapshot() returns (b: Board)
      requires Valid()
      ensures b == Contents()
    {
      b := EmptyBoard();
      for i := 0 to FLD_SZ
        invariant forall p: Point :: OnField(p) && p.y < i ==> b[p] == Contents()[p]
      {
        for j := 0 to FLD_SZ
          invariant forall p: Point :: OnField(p) && (p.y < i || (p.y == i && p.x < j)) ==> b[p] == Contents()[p]
        {
          b := b[Point(j, i) := field[i, j]];
        }
      }
    }

    /** Assignment from a field, this one or another. */
    method Assign(other: GameField)
      requires Valid() && other.Valid()
      modifies field
      ensures Contents() == old(other.Contents())
    {
      CopyGrid(other.field, field);
    }

    method GetState(point: Point) returns (state: Cell)
      requires Valid()
      ensures state == State(Contents(), point)
    {
      if !OnField(point) {
        return EMPTY;
      }
      assert Contents()[point] == field[point.y, point.x];
      state := field[point.y, point.x];
      if !(EMPTY <= state <= MISSED) {
        state := EMPTY;
      }
    }

    method SetPoint(pos: Point, state: Cell)
      requires Valid()
      modifies field
      ensures Contents() == if OnField(pos) then old(Contents())[pos := state] else old(Contents())
    {
      if !OnField(pos) {
        return;
      }
      PutCell(field, pos, state);
    }

    method IsEmpty() returns (r: bool)
      requires Valid()
      ensures r <==> Contents() == EmptyBoard()
    {
      ghost var b: Board := Contents();
      for i := 0 to FLD_SZ
        invariant forall p: Point :: OnField(p) && p.y < i ==> b[p] == EMPTY
      {
        for j := 0 to FLD_SZ
          invariant forall p: Point :: OnField(p) && (p.y < i || (p.y == i && p.x < j)) ==> b[p] == EMPTY
        {
          assert b[Point(j, i)] == field[i, j];
          if field[i, j] != EMPTY {
            return false;
          }
        }
      }
      r := true;
    }

    method AllShipsDestroyed() returns (r: bool)
      requires Valid()
      ensures r <==> NoUnharmed(Contents())
    {
      ghost var b: Board := Contents();
      for i := 0 to FLD_SZ
        invariant forall p: Point :: OnField(p) && p.y < i ==> b[p] != UNHARMED
      {
        for j := 0 to FLD_SZ
          invariant forall p: Point :: OnField(p) && (p.y < i || (p.y == i && p.x < j)) ==> b[p] != UNHARMED
        {
          assert b[Point(j, i)] == field[i, j];
          if field[i, j] == UNHARMED {
            return false;
          }
        }
      }
      r := true;
    }

    /** Accepts exactly the boards a game may start from. */
    method IsValidStartField() returns (ok: bool)
      requires Valid()
      ensures ok <==> ValidStart(Contents())
    {
      hide FleetOf;
      ghost var b: Board := Contents();
      var empty := IsEmpty();
      if empty {
        EmptyHasNoFleet(b);
        return false;
      }
      ok := FieldValidator.IsValidField(field);
      if !ok {
        forall p: Point | OnField(p) && (b[p] == EMPTY || b[p] == UNHARMED) ensures EMPTY <= b[p] <= MISSED {
        }
        return;
      }
      for i := 0 to FLD_SZ
        invariant forall p: Point :: OnField(p) && p.y < i ==> b[p] == EMPTY || b[p] == UNHARMED
      {
        for j := 0 to FLD_SZ
          invariant forall p: Point :: OnField(p) && (p.y < i || (p.y == i && p.x < j)) ==> b[p] == EMPTY || b[p] == UNHARMED
        {
          assert b[Point(j, i)] == field[i, j];
          if field[i, j] != EMPTY && field[i, j] != UNHARMED {
            return false;
          }
        }
      }
      ok := true;
    }

    /** The copy shown to the opponent. */
    method GetForEnemy() returns (ret: GameField)
      requires Valid()
      ensures fresh(ret) && ret.Valid() && fresh(ret.field)
      ensures ret.Contents() == HiddenShips(Contents())
    {
      hide HiddenUpTo;
      ghost var b: Board := Contents();
      ret := new GameField.Copy(this);
      HiddenEnds(b, 0);
      for i := 0 to FLD_SZ
        invariant ret.Contents() == HiddenUpTo(b, i, 0)
      {
        for j := 0 to FLD_SZ
          invariant ret.Contents() == HiddenUpTo(b, i, j)
        {
          HiddenStep(b, i, j);
          assert ret.Contents()[Point(j, i)] == ret.field[i, j];
          if ret.field[i, j] == UNHARMED {
            PutCell(ret.field, Point(j, i), EMPTY);
          }
        }
        HiddenEnds(b, i);
      }
    }

    /** The state met at the end of the line of damaged cells in direction d; at the edge of
        the field it is the state of the last cell inside. */
    method WalkState(point: Point, d: Point) returns (state: Cell)
      requires Valid() && State(Contents(), point) == DAMAGED && d in DIRS
      ensures state == UNHARMED <==> RunsIntoUnharmed(Contents(), point, d)
    {
      hide State;
      ghost var b: Board := Contents();
      OwnLine(b, point);
      var cur := point;
      while true
        invariant cur == point || OnRay(point, d, cur)
        invariant OnLine(b, point, cur) && OnField(cur)
        decreases 2 * FLD_SZ - Distance(point, cur)
      {
        StepAlong(b, point, d, cur);
        var next := cur.Plus(d);
        state := GetState(next);
        if !OnField(next) || state != DAMAGED {
          if !OnField(next) {
            state := GetState(cur);
          }
          OutsideEmpty(b, next);
          forall q: Point | OnRay(point, d, q) && EndsLine(b, point, q) ensures q == next || State(b, q) == DAMAGED {
            StopAlong(b, point, d, cur, q);
          }
          return;
        }
        OutsideEmpty(b, point);
        cur := next;
      }
    }

    /** The walk in four directions from a cell. */
    method ShipDestroyed(point: Point) returns (r: bool)
      requires Valid()
      ensures r <==> Destroyed(Contents(), point)
    {
      hide State;
      ghost var b: Board := Contents();
      var posState := GetState(point);
      if posState != DAMAGED {
        return false;
      }
      for i := 0 to |DIRS|
        invariant forall k :: 0 <= k < i ==> !RunsIntoUnharmed(b, point, DIRS[k])
      {
        posState := WalkState(point, DIRS[i]);
        if posState == UNHARMED {
          return false;
        }
      }
      forall q: Point | EndsLine(b, point, q) ensures State(b, q) != UNHARMED {
        if q != point {
          SomeRay(point, q);
        }
      }
      r := true;
    }

    method MarkAround(cur: Point)
      requires Valid() && State(Contents(), cur) == DAMAGED
      modifies field
      ensures Contents() == MarkedNear(old(Contents()), {cur})
    {
      hide State, AroundUpTo;
      ghost var b: Board := Contents();
      AroundEnds(b, cur);
      for j := 0 to |AROUND|
        invariant Contents() == AroundUpTo(b, cur, j)
      {
        AroundStep(b, cur, j);
        var aroundPos := cur.Plus(AROUND[j]);
        if !OnField(aroundPos) {
          continue;
        }
        var state := GetState(aroundPos);
        if state == EMPTY {
          SetPoint(aroundPos, MISSED);
        }
      }
    }

    /** Marks around the damaged cells met from start on in direction d. */
    method MarkRay(point: Point, d: Point, start: Point, ghost b: Board, ghost M: set<Point>) returns (ghost M': set<Point>)
      requires Valid() && State(b, point) == DAMAGED && d in DIRS
      requires Contents() == MarkedNear(b, M) && forall r :: r in M ==> OnLine(b, point, r)
      requires start == point || (start == point.Plus(d) && point in M)
      modifies field
      ensures M <= M' && Contents() == MarkedNear(b, M') && forall r :: r in M' ==> OnLine(b, point, r)
      ensures point in M' && forall r: Point :: OnRay(point, d, r) && OnLine(b, point, r) ==> r in M'
    {
      hide State, MarkedNear, OnLine, OnRay, EndsLine, InBox, Distance;
      M' := M;
      var cur := start;
      MarkRayStart(b, point, d, start, M);
      var state := GetState(cur);
      MarkedNearStates(b, M', cur);
      while state == DAMAGED
        invariant cur == point || OnRay(point, d, cur)
        invariant EndsLine(b, point, cur)
        invariant Contents() == MarkedNear(b, M') && M <= M'
        invariant forall r :: r in M' ==> OnLine(b, point, r)
        invariant forall r: Point :: InBox(point, cur, r) && r != cur ==> r in M'
        invariant state == DAMAGED <==> State(b, cur) == DAMAGED
        decreases 2 * FLD_SZ - Distance(point, cur)
      {
        MarkRayStep(b, point, d, cur, M');
        MarkMore(b, M', cur);
        MarkAround(cur);
        M' := M' + {cur};
        cur := cur.Plus(d);
        state := GetState(cur);
        MarkedNearStates(b, M', cur);
      }
      OwnBox(point, cur);
      forall r: Point | OnRay(point, d, r) && OnLine(b, point, r) ensures r in M' {
        RayCell(b, point, d, cur, r);
      }
    }

    /** Marks the surroundings of a destroyed ship, walking from one of its cells. */
    method MarkDestroyedShipBoundary(point: Point)
      requires Valid()
      modifies field
      ensures Contents() == if State(old(Contents()), point) == DAMAGED then Surrounded(old(Contents()), point) else old(Contents())
    {
      hide State, MarkedNear, OnLine, Surrounded;
      ghost var b: Board := Contents();
      var posState := GetState(point);
      if posState != DAMAGED {
        return;
      }
      ghost var M: set<Point> := {};
      MarkNothing(b);
      var cur := point;
      var i := 0;
      while true
        invariant 0 <= i < |DIRS|
        invariant cur == if i == 0 then point else point.Plus(DIRS[i])
        invariant Contents() == MarkedNear(b, M)
        invariant forall r :: r in M ==> OnLine(b, point, r)
        invariant i > 0 ==> point in M
        invariant forall k, r: Point :: 0 <= k < i && OnRay(point, DIRS[k], r) && OnLine(b, point, r) ==> r in M
        decreases |DIRS| - i
      {
        M := MarkRay(point, DIRS[i], cur, b, M);
        cur := point;
        i := i + 1;
        if i == |DIRS| {
          break;
        }
        cur := cur.Plus(DIRS[i]);
      }
      forall r: Point | OnLine(b, point, r) ensures r in M {
        if r != point {
          OnLineAligned(b, point, r);
          SomeRay(point, r);
        }
      }
      MarkLines(b, point, M);
    }

    /** Takes a shot and reports what it hit; empty when it changed nothing. */
    method RegisterShot(point: Point) returns (ret: Cell)
      requires Valid()
      modifies field
      ensures ret == ShotResult(old(Contents()), point)
      ensures Contents() == AfterShot(old(Contents()), point)
    {
      hide Destroyed, Surrounded;
      ret := EMPTY;
      if !OnField(point) {
        return;
      }
      var curState := GetState(point);
      if curState == EMPTY {
        ret := MISSED;
      } else if curState == UNHARMED {
        ret := DAMAGED;
      }
      if ret != EMPTY && ret != curState {
        PutCell(field, point, ret);
      }
      if ret == DAMAGED {
        var destroyed := ShipDestroyed(point);
        if destroyed {
          MarkDestroyedShipBoundary(point);
        }
      }
    }
  }

  lemma OwnLine(b: Board, p: Point)
    requires State(b, p) == DAMAGED
    ensures OnLine(b, p, p) && OnField(p)
  {
  }

  lemma OutsideEmpty(b: Board, p: Point)
    ensures !OnField(p) ==> State(b, p) == EMPTY
  {
  }

  lemma OnLineAligned(b: Board, p: Point, r: Point)
    requires OnLine(b, p, r)
    ensures Aligned(p, r)
  {
  }

  predicate AmongAround(cur: Point, n: nat, q: Point)
    requires n <= |AROUND|
  {
    exists k :: 0 <= k < n && q == cur.Plus(AROUND[k])
  }

  /** The board with the first n cells around cur marked as missed where they are empty. */
  ghost function AroundUpTo(b: Board, cur: Point, n: nat): Board
    requires n <= |AROUND|
  {
    map q: Point | q in FieldPoints() ::
      if State(b, q) == EMPTY && AmongAround(cur, n, q) then MISSED else b[q]
  }

  lemma AmongMore(cur: Point, n: nat, q: Point)
    requires n < |AROUND|
    ensures AmongAround(cur, n + 1, q) <==> q == cur.Plus(AROUND[n]) || AmongAround(cur, n, q)
  {
  }

  lemma AroundCell(b: Board, cur: Point, n: nat, q: Point)
    requires n <= |AROUND| && OnField(q)
    ensures AroundUpTo(b, cur, n)[q] == if State(b, q) == EMPTY && AmongAround(cur, n, q) then MISSED else b[q]
    ensures State(AroundUpTo(b, cur, n), q) == EMPTY <==> State(b, q) == EMPTY && !AmongAround(cur, n, q)
  {
    hide AmongAround;
  }

  lemma AroundStep(b: Board, cur: Point, n: nat)
    requires n < |AROUND|
    ensures var a := cur.Plus(AROUND[n]);
      AroundUpTo(b, cur, n + 1) ==
        if OnField(a) && State(AroundUpTo(b, cur, n), a) == EMPTY then AroundUpTo(b, cur, n)[a := MISSED]
        else AroundUpTo(b, cur, n)
  {
    hide State, AroundUpTo, AmongAround;
    var a := cur.Plus(AROUND[n]);
    var before := AroundUpTo(b, cur, n);
    var after := if OnField(a) && State(before, a) == EMPTY then before[a := MISSED] else before;
    forall q: Point | OnField(q) ensures AroundUpTo(b, cur, n + 1)[q] == after[q] {
      AmongMore(cur, n, q);
      AroundCell(b, cur, n, q);
      AroundCell(b, cur, n + 1, q);
    }
  }

  lemma AroundEnds(b: Board, cur: Point)
    requires State(b, cur) == DAMAGED
    ensures AroundUpTo(b, cur, 0) == b
    ensures AroundUpTo(b, cur, |AROUND|) == MarkedNear(b, {cur})
  {
    hide State, AmongAround, Near, AroundUpTo, MarkedNear;
    forall q: Point | OnField(q)
      ensures AroundUpTo(b, cur, 0)[q] == b[q]
      ensures AroundUpTo(b, cur, |AROUND|)[q] == MarkedNear(b, {cur})[q]
    {
      AmongNone(b, cur);
      AroundCell(b, cur, 0, q);
      AroundCell(b, cur, |AROUND|, q);
      AroundIsNear(cur, q);
      MarkedNearOne(b, cur, q);
    }
  }

  lemma MarkedNearOne(b: Board, cur: Point, q: Point)
    requires OnField(q)
    ensures MarkedNear(b, {cur})[q] == if State(b, q) == EMPTY && Near(cur, q) then MISSED else b[q]
  {
    hide State, Near, NearSome;
    NearSomeMore({}, cur, q);
  }

  lemma AmongNone(b: Board, cur: Point)
    ensures forall q: Point :: !AmongAround(cur, 0, q)
  {
  }

  lemma AroundIsNear(cur: Point, q: Point)
    ensures Near(cur, q) <==> q == cur || AmongAround(cur, |AROUND|, q)
  {
    if Near(cur, q) && q != cur {
      var k := if q.x == cur.x + 1 then (if q.y == cur.y then 0 else if q.y == cur.y + 1 then 1 else 2)
               else if q.x == cur.x - 1 then (if q.y == cur.y then 3 else if q.y == cur.y + 1 then 4 else 5)
               else if q.y == cur.y + 1 then 6 else 7;
      assert q == cur.Plus(AROUND[k]);
    }
  }

  lemma OwnBox(p: Point, q: Point)
    ensures InBox(p, q, p)
  {
  }

  /** Ships hidden in the cells before column j of row i. */
  ghost function HiddenUpTo(b: Board, i: int, j: int): Board {
    map q: Point | q in FieldPoints() :: if q.y < i || (q.y == i && q.x < j) then HiddenCell(b[q]) else b[q]
  }

  lemma HiddenStep(b: Board, i: int, j: int)
    requires OnField(Point(j, i))
    ensures var before := HiddenUpTo(b, i, j);
      HiddenUpTo(b, i, j + 1) == if before[Point(j, i)] == UNHARMED then before[Point(j, i) := EMPTY] else before
  {
  }

  lemma HiddenEnds(b: Board, i: int)
    ensures HiddenUpTo(b, 0, 0) == b
    ensures HiddenUpTo(b, i, FLD_SZ) == HiddenUpTo(b, i + 1, 0)
    ensures HiddenUpTo(b, FLD_SZ, 0) == HiddenShips(b)
  {
  }

  lemma MarkRayStart(b: Board, p: Point, d: Point, start: Point, M: set<Point>)
    requires State(b, p) == DAMAGED && d in DIRS
    requires start == p || (start == p.Plus(d) && p in M)
    ensures (start == p || OnRay(p, d, start)) && EndsLine(b, p, start)
    ensures forall r: Point :: InBox(p, start, r) && r != start ==> r in M
  {
    hide State;
  }

  lemma MarkRayStep(b: Board, p: Point, d: Point, cur: Point, M: set<Point>)
    requires d in DIRS && (cur == p || OnRay(p, d, cur)) && EndsLine(b, p, cur) && State(b, cur) == DAMAGED
    requires forall r: Point :: InBox(p, cur, r) && r != cur ==> r in M
    ensures OnField(cur) && OnField(p) && OnLine(b, p, cur) && State(MarkedNear(b, M), cur) == DAMAGED
    ensures OnRay(p, d, cur.Plus(d)) && EndsLine(b, p, cur.Plus(d))
    ensures Distance(p, cur.Plus(d)) == Distance(p, cur) + 1
    ensures Distance(p, cur) < 2 * FLD_SZ
    ensures forall r: Point :: InBox(p, cur.Plus(d), r) && r != cur.Plus(d) ==> r in M + {cur}
  {
    MarkedNearStates(b, M, cur);
    StepAlong(b, p, d, cur);
    assert InBox(p, cur, p);
    hide MarkedNear;
  }

  lemma RayCell(b: Board, p: Point, d: Point, cur: Point, r: Point)
    requires d in DIRS && (cur == p || OnRay(p, d, cur)) && State(b, cur) != DAMAGED
    requires OnRay(p, d, r) && OnLine(b, p, r)
    requires cur != p
    ensures InBox(p, cur, r) && r != cur
  {
    hide State;
    assert InBox(p, cur, r) || InBox(p, r, cur);
  }

  lemma FleetOccupies(F: Fleet, b: Board)
    requires FleetOf(F, b)
    ensures exists p: Point :: OnField(p) && b[p] != EMPTY
  {
    LengthsSize(F);
    assert Covers(F[0], F[0].head) && CoveredBy(F, F[0].head);
  }

  lemma EmptyHasNoFleet(b: Board)
    requires b == EmptyBoard()
    ensures forall F: Fleet :: !FleetOf(F, b)
  {
    hide FleetOf;
    forall F: Fleet | FleetOf(F, b) ensures false {
      FleetOccupies(F, b);
    }
  }
}
