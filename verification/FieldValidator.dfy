// The validity check of a field: cut ships out of a copy of the field in reading order,
// count their kinds, and look at every neighbour of every ship.
module FieldValidator {
  import opened Geometry
  import opened Ships
  import opened Fleets
  import opened Grids

  // ---------- cutting ships out of the copy ----------

  /** The board without the cells of the ship. */
  ghost function Erased(t: Board, s: Ship): Board {
    map p: Point | p in FieldPoints() :: if Covers(s, p) then EMPTY else t[p]
  }

  /** What the scan has done so far: t is b without the cells of the ships S, which are
      placed, lie on non-empty cells of b, and share no cell. */
  ghost predicate CutOut(b: Board, t: Board, S: Fleet) {
    && (forall k :: 0 <= k < |S| ==> Placed(S[k]))
    && (forall k, p: Point :: 0 <= k < |S| && Covers(S[k], p) ==> b[p] != EMPTY)
    && (forall j, k, p: Point :: 0 <= j < k < |S| && Covers(S[j], p) ==> !Covers(S[k], p))
    && (forall p: Point :: OnField(p) ==> t[p] == if CoveredBy(S, p) then EMPTY else b[p])
  }

  lemma CutOne(b: Board, t: Board, S: Fleet, s: Ship)
    requires CutOut(b, t, S) && Placed(s)
    requires forall p: Point :: Covers(s, p) ==> t[p] != EMPTY
    ensures CutOut(b, Erased(t, s), S + [s])
  {
    PlacedOnField(s);
    hide Placed, Covers;
    var S' := S + [s];
    forall p: Point ensures CoveredBy(S', p) <==> CoveredBy(S, p) || Covers(s, p) {
      CoverMore(S, s, p);
    }
    hide CoveredBy;
    forall k, p: Point | 0 <= k < |S| && Covers(S[k], p) ensures !Covers(s, p) {
      CoveredByThat(S, k, p);
      assert OnField(p) ==> t[p] == EMPTY;
    }
  }

  lemma PlacedOnField(s: Ship)
    requires Placed(s)
    ensures forall p: Point :: Covers(s, p) ==> OnField(p)
  {
  }

  lemma CoveredByThat(S: Fleet, k: nat, p: Point)
    requires k < |S| && Covers(S[k], p)
    ensures CoveredBy(S, p)
  {
  }

  lemma CoverMore(S: Fleet, s: Ship, p: Point)
    ensures CoveredBy(S + [s], p) <==> CoveredBy(S, p) || Covers(s, p)
  {
    hide Covers;
    var S' := S + [s];
    assert S'[|S|] == s && forall k :: 0 <= k < |S| ==> S'[k] == S[k];
  }

  /** Every cell before column j of row i, in reading order, is empty. */
  ghost predicate ClearBefore(t: Board, i: int, j: int) {
    forall p: Point :: OnField(p) && (p.y < i || (p.y == i && p.x < j)) ==> t[p] == EMPTY
  }

  /** Every ship found so far belongs to the fleet G. */
  ghost predicate FoundIn(S: Fleet, G: Fleet) {
    forall k :: 0 <= k < |S| ==> S[k] in G
  }

  /** When the board decomposes into the fleet G and the scan has found only ships of G, the
      next non-empty cell is the head of a ship of G that is still wholly uncut and whose
      surroundings are empty. */
  lemma NextShip(b: Board, t: Board, S: Fleet, G: Fleet, head: Point) returns (g: Ship)
    requires Layout(G, b) && CutOut(b, t, S) && FoundIn(S, G)
    requires OnField(head) && ClearBefore(t, head.y, head.x) && t[head] != EMPTY
    ensures g in G && g.head == head
    ensures forall p: Point :: Covers(g, p) ==> t[p] != EMPTY
    ensures forall p: Point, q: Point :: Covers(g, p) && OnField(q) && Near(p, q) && !Covers(g, q) ==> t[q] == EMPTY
  {
    assert b[head] != EMPTY;
    var m :| 0 <= m < |G| && Covers(G[m], head);
    g := G[m];
    HeadFirst(b, t, S, G, m, head);
    RingEmpty(b, G, m);
  }

  lemma HeadFirst(b: Board, t: Board, S: Fleet, G: Fleet, m: nat, head: Point)
    requires Layout(G, b) && CutOut(b, t, S) && FoundIn(S, G)
    requires OnField(head) && ClearBefore(t, head.y, head.x) && t[head] != EMPTY
    requires m < |G| && Covers(G[m], head)
    ensures G[m].head == head
    ensures forall p: Point :: Covers(G[m], p) ==> t[p] != EMPTY
  {
    forall p: Point | Covers(G[m], p) ensures t[p] != EMPTY {
      Uncut(b, t, S, G, m, head, p);
    }
    assert Covers(G[m], G[m].head) && OnField(G[m].head);
  }

  lemma Uncut(b: Board, t: Board, S: Fleet, G: Fleet, m: nat, head: Point, p: Point)
    requires Layout(G, b) && CutOut(b, t, S) && FoundIn(S, G)
    requires m < |G| && Covers(G[m], head) && OnField(head) && t[head] != EMPTY && Covers(G[m], p)
    ensures OnField(p) && t[p] != EMPTY
  {
    assert CoveredBy(G, p);
    if CoveredBy(S, p) {
      var k :| 0 <= k < |S| && Covers(S[k], p);
      assert S[k] in G;
      var n :| 0 <= n < |G| && G[n] == S[k];
      SharedCellSameShip(G, m, G, n, p);
    }
  }

  /** The cells next to a ship of a decomposition are empty. */
  lemma RingEmpty(b: Board, G: Fleet, m: nat)
    requires Layout(G, b) && m < |G|
    ensures forall p: Point, q: Point :: Covers(G[m], p) && OnField(q) && Near(p, q) && !Covers(G[m], q) ==> b[q] == EMPTY
  {
    forall p: Point, q: Point | Covers(G[m], p) && OnField(q) && Near(p, q) && !Covers(G[m], q) ensures b[q] == EMPTY {
      assert !CoveredBy(G, q);
    }
  }

  /** Non-empty cells to the right of (row i, column j), up to the first empty one. */
  method HorizontalRun(tmp: array2<Cell>, i: int, j: int) returns (last: int)
    requires IsGrid(tmp) && OnField(Point(j, i)) && tmp[i, j] != EMPTY
    ensures j <= last < FLD_SZ
    ensures forall x :: j <= x <= last ==> tmp[i, x] != EMPTY
    ensures last + 1 < FLD_SZ ==> tmp[i, last + 1] == EMPTY
  {
    last := j;
    while last < FLD_SZ && tmp[i, last] != EMPTY
      invariant j <= last <= FLD_SZ
      invariant last == j ==> tmp[i, j] != EMPTY
      invariant forall x :: j <= x < last ==> tmp[i, x] != EMPTY
    {
      last := last + 1;
    }
    last := last - 1;
  }

  /** Non-empty cells below (row i, column j), down to the first empty one. */
  method VerticalRun(tmp: array2<Cell>, i: int, j: int) returns (last: int)
    requires IsGrid(tmp) && OnField(Point(j, i)) && tmp[i, j] != EMPTY
    ensures i <= last < FLD_SZ
    ensures forall y :: i <= y <= last ==> tmp[y, j] != EMPTY
    ensures last + 1 < FLD_SZ ==> tmp[last + 1, j] == EMPTY
  {
    last := i;
    while last < FLD_SZ && tmp[last, j] != EMPTY
      invariant i <= last <= FLD_SZ
      invariant last == i ==> tmp[i, j] != EMPTY
      invariant forall y :: i <= y < last ==> tmp[y, j] != EMPTY
    {
      last := last + 1;
    }
    last := last - 1;
  }

  /** The board without the cells met when walking the ship's length from its head. */
  ghost function WalkErased(t: Board, s: Ship): Board {
    map p: Point | p in FieldPoints() :: if OnWalk(s, p) then EMPTY else t[p]
  }

  lemma PlacedErased(t: Board, s: Ship)
    requires Placed(s)
    ensures WalkErased(t, s) == Erased(t, s)
  {
    forall p: Point ensures OnWalk(s, p) <==> Covers(s, p) {
      WalkCoversPlaced(s, p);
    }
    hide OnWalk, Covers, Placed;
  }

  /** The board without the first n cells of the walk. */
  ghost function ErasedUpTo(t: Board, s: Ship, n: int): Board {
    map p: Point | p in FieldPoints() :: if OnWalk(s, p) && p.x - s.head.x + p.y - s.head.y < n then EMPTY else t[p]
  }

  function ShipCell(s: Ship, n: int): Point {
    if s.IsVertical() then Point(s.head.x, s.head.y + n) else Point(s.head.x + n, s.head.y)
  }

  lemma ShipCellAt(s: Ship, n: nat)
    requires s.kind != Invalid && n < s.Length()
    ensures ShipCell(s, n).Plus(s.Delta()) == ShipCell(s, n + 1)
    ensures forall p: Point :: OnWalk(s, p) && p.x - s.head.x + p.y - s.head.y == n <==> p == ShipCell(s, n)
  {
  }

  lemma EraseNext(t: Board, s: Ship, n: nat)
    requires s.kind != Invalid && n < s.Length()
    ensures ErasedUpTo(t, s, n + 1)
      == if OnField(ShipCell(s, n)) then ErasedUpTo(t, s, n)[ShipCell(s, n) := EMPTY] else ErasedUpTo(t, s, n)
  {
    hide ShipCell, OnWalk, Ship.Length, Ship.Delta;
    ShipCellAt(s, n);
  }

  lemma EraseEnds(t: Board, s: Ship)
    ensures s.kind != Invalid ==> ErasedUpTo(t, s, 0) == t
    ensures s.kind != Invalid ==> ErasedUpTo(t, s, s.Length()) == WalkErased(t, s)
    ensures s.kind == Invalid ==> WalkErased(t, s) == t
    ensures ShipCell(s, 0) == s.head
  {
  }

  /** Empties the cells of any ship that lie on the field. */
  method RemoveShip(ship: Ship, tmp: array2<Cell>)
    requires IsGrid(tmp)
    modifies tmp
    ensures BoardOf(tmp) == WalkErased(old(BoardOf(tmp)), ship)
    ensures Placed(ship) ==> BoardOf(tmp) == Erased(old(BoardOf(tmp)), ship)
  {
    hide ErasedUpTo, Erased, WalkErased, Ship.Length, Ship.Delta, ShipCell, Placed;
    ghost var t: Board := BoardOf(tmp);
    if Placed(ship) {
      PlacedErased(t, ship);
    }
    EraseEnds(t, ship);
    if ship.kind == Invalid {
      return;
    }
    var len := ship.Length();
    var pos := ship.head;
    var delta := ship.Delta();
    var i := 0;
    while i < len
      invariant 0 <= i <= len
      invariant pos == ShipCell(ship, i)
      invariant BoardOf(tmp) == ErasedUpTo(t, ship, i)
    {
      EraseNext(t, ship, i);
      ShipCellAt(ship, i);
      if OnField(pos) {
        PutCell(tmp, pos, EMPTY);
      }
      pos := pos.Plus(delta);
      i := i + 1;
    }
  }

  /** A placed ship that starts at the cell, lies on non-empty cells and has empty surroundings. */
  ghost predicate RunAt(t: Board, g: Ship, head: Point) {
    && Placed(g) && g.head == head
    && (forall p: Point :: Covers(g, p) ==> t[p] != EMPTY)
    && (forall p: Point, q: Point :: Covers(g, p) && OnField(q) && Near(p, q) && !Covers(g, q) ==> t[q] == EMPTY)
  }

  lemma RunRight(t: Board, g: Ship, head: Point, last: int)
    requires RunAt(t, g, head) && head.x <= last < FLD_SZ
    requires forall p: Point :: head.x <= p.x <= last && p.y == head.y ==> t[p] != EMPTY
    requires last + 1 < FLD_SZ ==> t[Point(last + 1, head.y)] == EMPTY
    ensures last == if g.tail.y == head.y then g.tail.x else head.x
  {
    assert Covers(g, g.head) && Covers(g, g.tail);
    var next := Point(if g.tail.y == head.y then g.tail.x + 1 else head.x + 1, head.y);
    assert Near(g.tail, next) || Near(g.head, next);
    assert !Covers(g, next);
    assert last + 1 < FLD_SZ ==> !Covers(g, Point(last + 1, head.y));
  }

  lemma RunDown(t: Board, g: Ship, head: Point, last: int)
    requires RunAt(t, g, head) && head.y <= last < FLD_SZ
    requires forall p: Point :: head.y <= p.y <= last && p.x == head.x ==> t[p] != EMPTY
    requires last + 1 < FLD_SZ ==> t[Point(head.x, last + 1)] == EMPTY
    ensures last == if g.tail.x == head.x then g.tail.y else head.y
  {
    assert Covers(g, g.head) && Covers(g, g.tail);
    var next := Point(head.x, if g.tail.x == head.x then g.tail.y + 1 else head.y + 1);
    assert Near(g.tail, next) || Near(g.head, next);
    assert !Covers(g, next);
    assert last + 1 < FLD_SZ ==> !Covers(g, Point(head.x, last + 1));
  }

  /** What reading one ship off the board must give. */
  ghost predicate ReadOff(t: Board, head: Point, ship: Ship) {
    && (ship.kind != Invalid ==>
      && Placed(ship) && ship.head == head
      && forall p: Point :: Covers(ship, p) ==> t[p] != EMPTY)
    && (forall g: Ship :: RunAt(t, g, head) ==> ship == g)
  }

  lemma ReadHorizontal(t: Board, head: Point, last: int)
    requires OnField(head) && head.x < last < FLD_SZ
    requires forall p: Point :: head.x <= p.x <= last && p.y == head.y ==> t[p] != EMPTY
    requires last + 1 < FLD_SZ ==> t[Point(last + 1, head.y)] == EMPTY
    ensures ReadOff(t, head, MakeShip(head, Point(last, head.y)))
  {
    forall g: Ship | RunAt(t, g, head) ensures g == MakeShip(head, Point(last, head.y)) {
      RunRight(t, g, head, last);
    }
  }

  lemma ReadVertical(t: Board, head: Point, bottom: int)
    requires OnField(head) && head.y <= bottom < FLD_SZ
    requires head.x + 1 < FLD_SZ ==> t[Point(head.x + 1, head.y)] == EMPTY
    requires forall p: Point :: head.y <= p.y <= bottom && p.x == head.x ==> t[p] != EMPTY
    requires bottom + 1 < FLD_SZ ==> t[Point(head.x, bottom + 1)] == EMPTY
    ensures ReadOff(t, head, MakeShip(head, Point(head.x, bottom)))
  {
    forall g: Ship | RunAt(t, g, head) ensures g == MakeShip(head, Point(head.x, bottom)) {
      assert t[head] != EMPTY;
      RunRight(t, g, head, head.x);
      RunDown(t, g, head, bottom);
    }
  }

  /** The ship whose first cell in reading order is (row i, column j): a horizontal run of two
      or more cells, or else the vertical run; invalid when the run is too long. */
  method ReadShip(tmp: array2<Cell>, i: int, j: int) returns (ship: Ship)
    requires IsGrid(tmp) && OnField(Point(j, i)) && tmp[i, j] != EMPTY
    ensures ReadOff(BoardOf(tmp), Point(j, i), ship)
  {
    var head := Point(j, i);
    var last := HorizontalRun(tmp, i, j);
    var tail := Point(last, i);
    ship := MakeShip(head, tail);
    if ship.kind == Submarine {
      var bottom := VerticalRun(tmp, i, j);
      if bottom != i {
        tail := Point(j, bottom);
        ship := MakeShip(head, tail);
      }
      ReadVertical(BoardOf(tmp), head, bottom);
    } else {
      ReadHorizontal(BoardOf(tmp), head, last);
    }
  }

  // ---------- the scan ----------

  /** The ships are placed, share no cell, and cover exactly the non-empty cells. */
  ghost predicate Partition(b: Board, S: Fleet) {
    exists t: Board :: CutOut(b, t, S) && ClearBefore(t, FLD_SZ, 0)
  }

  lemma CutOutDistinct(b: Board, t: Board, S: Fleet)
    requires CutOut(b, t, S)
    ensures Distinct(S)
  {
    forall j, k | 0 <= j < k < |S| ensures S[j] != S[k] {
      assert Covers(S[j], S[j].head);
    }
  }

  lemma FoundNoMore(S: Fleet, G: Fleet)
    requires Distinct(S) && Distinct(G) && FoundIn(S, G)
    ensures |S| <= |G|
    ensures |S| == |G| ==> multiset(S) == multiset(G)
  {
    forall s: Ship ensures multiset(S)[s] <= multiset(G)[s] {
      DistinctCount(S, s);
      DistinctCount(G, s);
    }
    assert multiset(S) <= multiset(G);
    assert |multiset(G) - multiset(S)| == |G| - |S|;
  }

  lemma StandardSize(G: Fleet)
    requires StandardLengths(G)
    ensures |G| == SHIP_COUNT
  {
    LengthsSize(G);
  }

  lemma FleetsAgree(G: Fleet, H: Fleet, b: Board)
    requires FleetOf(G, b) && FleetOf(H, b)
    ensures multiset(G) == multiset(H)
  {
    LayoutUnique(G, H, b);
  }

  /** A ship of the fleet other than the ones found leaves room for one more. */
  lemma RoomForOneMore(b: Board, t: Board, S: Fleet, G: Fleet, g: Ship)
    requires FleetOf(G, b) && CutOut(b, t, S) && FoundIn(S, G)
    requires g in G && OnField(g.head) && t[g.head] != EMPTY
    ensures |S| < SHIP_COUNT
  {
    CutOutDistinct(b, t, S);
    SeparateDistinct(G);
    StandardSize(G);
    forall k | 0 <= k < |S| ensures S[k] != g {
      assert Covers(S[k], S[k].head);
    }
    FoundNoMore(S + [g], G);
  }

  lemma ClearAfterErase(t: Board, s: Ship, i: int)
    requires Placed(s) && s.head.y == i && ClearBefore(t, i, s.head.x)
    ensures ClearBefore(Erased(t, s), i, s.tail.x + 1)
  {
  }

  lemma IsFound(b: Board, t: Board, S: Fleet, G: Fleet, m: nat)
    requires Layout(G, b) && CutOut(b, t, S) && FoundIn(S, G)
    requires ClearBefore(t, FLD_SZ, 0) && m < |G|
    ensures G[m] in S
  {
    var h := G[m].head;
    assert OnField(h) && Covers(G[m], h);
    assert b[h] != EMPTY && t[h] == EMPTY;
    var k :| 0 <= k < |S| && Covers(S[k], h);
    assert S[k] in G;
    var n :| 0 <= n < |G| && G[n] == S[k];
    SharedCellSameShip(G, m, G, n, h);
  }

  lemma AllFound(b: Board, t: Board, S: Fleet, G: Fleet)
    requires FleetOf(G, b) && CutOut(b, t, S) && FoundIn(S, G)
    requires ClearBefore(t, FLD_SZ, 0)
    ensures |S| == SHIP_COUNT && multiset(S) == multiset(G)
  {
    hide CutOut, ClearBefore, Separate;
    CutOutDistinct(b, t, S);
    SeparateDistinct(G);
    StandardSize(G);
    forall m | 0 <= m < |G| ensures G[m] in S {
      IsFound(b, t, S, G, m);
    }
    SameShipsSameMultiset(S, G);
    assert |multiset(S)| == |S| && |multiset(G)| == |G|;
  }

  /** The scan has dealt with everything before column j of row i; if the board has a
      standard fleet at all, then G is one and only ships of G have been cut out. */
  ghost predicate Scanned(b: Board, t: Board, S: Fleet, G: Fleet, i: int, j: int) {
    && CutOut(b, t, S) && ClearBefore(t, i, j)
    && (FleetOf(G, b) ==> FoundIn(S, G))
  }

  lemma ScanStart(b: Board, G: Fleet)
    ensures Scanned(b, b, [], G, 0, 0)
  {
  }

  lemma ScanSkip(b: Board, t: Board, S: Fleet, G: Fleet, i: int, j: int)
    requires Scanned(b, t, S, G, i, j)
    ensures OnField(Point(j, i)) && t[Point(j, i)] == EMPTY ==> Scanned(b, t, S, G, i, j + 1)
    ensures j == FLD_SZ ==> Scanned(b, t, S, G, i + 1, 0)
  {
    assert forall p: Point :: p.y == i && p.x == j ==> p == Point(j, i);
  }

  /** One step of the scan at a non-empty cell. */
  lemma ScanStep(b: Board, t: Board, S: Fleet, G: Fleet, head: Point, ship: Ship)
    requires OnField(head) && Scanned(b, t, S, G, head.y, head.x) && t[head] != EMPTY
    requires ReadOff(t, head, ship)
    ensures FleetOf(G, b) ==> ship.kind != Invalid && |S| < SHIP_COUNT
    ensures ship.kind != Invalid ==> Placed(ship) && Scanned(b, Erased(t, ship), S + [ship], G, head.y, ship.tail.x + 1)
  {
    if FleetOf(G, b) {
      var g := NextShip(b, t, S, G, head);
      assert RunAt(t, g, head);
      RoomForOneMore(b, t, S, G, g);
    }
    if ship.kind != Invalid {
      CutOne(b, t, S, ship);
      ClearAfterErase(t, ship, head.y);
    }
  }

  lemma ScanEnd(b: Board, t: Board, S: Fleet, G: Fleet)
    requires Scanned(b, t, S, G, FLD_SZ, 0)
    ensures Partition(b, S)
    ensures FleetOf(G, b) ==> |S| == SHIP_COUNT && multiset(S) == multiset(G)
  {
    if FleetOf(G, b) {
      AllFound(b, t, S, G);
    }
  }

  /** Deals with the cell at column j of row i of the copy, cutting out the ship that starts
      there; next is the column up to which the row is then clear. */
  method ScanCell(tmp: array2<Cell>, shipArr: array<Ship>, count: nat, i: int, j: int, ghost b: Board, ghost G: Fleet)
    returns (ok: bool, shipCount: nat, next: int)
    requires IsGrid(tmp) && shipArr.Length == SHIP_COUNT && count <= SHIP_COUNT && OnField(Point(j, i))
    requires Scanned(b, BoardOf(tmp), shipArr[..count], G, i, j)
    modifies tmp, shipArr
    ensures FleetOf(G, b) ==> ok
    ensures shipCount <= SHIP_COUNT && j < next <= FLD_SZ
    ensures ok ==> Scanned(b, BoardOf(tmp), shipArr[..shipCount], G, i, next)
  {
    hide Scanned, FleetOf, ReadOff, Erased;
    ghost var t: Board := BoardOf(tmp);
    ghost var S := shipArr[..count];
    shipCount, next := count, j + 1;
    assert t[Point(j, i)] == tmp[i, j];
    if tmp[i, j] == EMPTY {
      ScanSkip(b, t, S, G, i, j);
      return true, shipCount, next;
    }
    var ship := ReadShip(tmp, i, j);
    ScanStep(b, t, S, G, Point(j, i), ship);
    if ship.kind == Invalid || shipCount == SHIP_COUNT {
      return false, shipCount, next;
    }
    next := ship.tail.x + 1;
    shipArr[shipCount] := ship;
    shipCount := shipCount + 1;
    assert shipArr[..shipCount] == S + [ship];
    RemoveShip(ship, tmp);
    ok := true;
  }

  /** Scans the copy row by row; within a row the column jumps past each ship cut out. */
  method ScanRows(tmp: array2<Cell>, shipArr: array<Ship>, ghost b: Board, ghost G: Fleet) returns (ok: bool, shipCount: nat)
    requires IsGrid(tmp) && shipArr.Length == SHIP_COUNT
    requires BoardOf(tmp) == b
    modifies tmp, shipArr
    ensures FleetOf(G, b) ==> ok
    ensures shipCount <= SHIP_COUNT
    ensures ok ==> Scanned(b, BoardOf(tmp), shipArr[..shipCount], G, FLD_SZ, 0)
  {
    hide Scanned, FleetOf;
    shipCount := 0;
    var i := 0;
    ScanStart(b, G);
    assert shipArr[..0] == [];
    while i < FLD_SZ
      invariant 0 <= i <= FLD_SZ && shipCount <= SHIP_COUNT
      invariant Scanned(b, BoardOf(tmp), shipArr[..shipCount], G, i, 0)
    {
      var j := 0;
      while j < FLD_SZ
        invariant 0 <= j <= FLD_SZ && shipCount <= SHIP_COUNT
        invariant Scanned(b, BoardOf(tmp), shipArr[..shipCount], G, i, j)
      {
        ok, shipCount, j := ScanCell(tmp, shipArr, shipCount, i, j, b, G);
        if !ok {
          return;
        }
      }
      ScanSkip(b, BoardOf(tmp), shipArr[..shipCount], G, i, FLD_SZ);
      i := i + 1;
    }
    ok := true;
  }

  /** Scans the field in reading order and cuts out one ship at every non-empty cell it meets.
      Succeeds with seven ships that partition the non-empty cells, and always succeeds, with
      exactly its ships, on a board that has a fleet of the standard lengths. */
  method CutShips(field: array2<Cell>) returns (ok: bool, shipArr: array<Ship>)
    requires IsGrid(field)
    ensures fresh(shipArr) && shipArr.Length == SHIP_COUNT
    ensures ok ==> Partition(BoardOf(field), shipArr[..])
    ensures forall G: Fleet :: FleetOf(G, BoardOf(field)) ==> ok && multiset(shipArr[..]) == multiset(G)
  {
    hide Scanned, FleetOf, Partition;
    ghost var b: Board := BoardOf(field);
    ghost var G: Fleet :| FleetOf(G, b) || forall H: Fleet :: !FleetOf(H, b);
    var tmp := new Cell[FLD_SZ, FLD_SZ];
    CopyGrid(field, tmp);
    shipArr := new Ship[SHIP_COUNT](_ => Ship(Invalid, Point(0, 0), Point(0, 0)));
    var shipCount;
    ok, shipCount := ScanRows(tmp, shipArr, b, G);
    if !ok {
      return;
    }
    ScanEnd(b, BoardOf(tmp), shipArr[..shipCount], G);
    ok := shipCount == SHIP_COUNT;
    assert ok ==> shipArr[..shipCount] == shipArr[..];
    forall H: Fleet | FleetOf(H, b) ensures multiset(G) == multiset(H) {
      FleetsAgree(G, H, b);
    }
  }

  // ---------- counting the kinds ----------

  ghost function CountKind(F: Fleet, kind: ShipType): nat {
    if F == [] then 0
    else CountKind(F[..|F| - 1], kind) + if F[|F| - 1].kind == kind then 1 else 0
  }

  ghost predicate KindsComplete(F: Fleet) {
    && (forall k :: 0 <= k < |F| ==> F[k].kind != Invalid)
    && (forall kind: ShipType :: kind != Invalid ==> CountKind(F, kind) == ShipCount(kind))
  }

  lemma {:induction false} LengthsByKind(F: Fleet, n: int)
    requires forall k :: 0 <= k < |F| ==> Placed(F[k])
    ensures Lengths(F)[n] == if 1 <= n <= 5 then CountKind(F, ShipTypeOf(n)) else 0
  {
    if F != [] {
      LengthsByKind(F[..|F| - 1], n);
    }
  }

  lemma StandardCounts(n: int)
    ensures multiset{1, 1, 2, 2, 3, 4, 5}[n] == if 1 <= n <= 5 then ShipCount(ShipTypeOf(n)) else 0
  {
  }

  lemma KindsAreLengths(F: Fleet)
    requires forall k :: 0 <= k < |F| ==> Placed(F[k])
    ensures KindsComplete(F) <==> StandardLengths(F)
  {
    hide Lengths, CountKind, Placed, ShipTypeOf, ShipCount;
    PlacedHaveKind(F);
    var standard := multiset{1, 1, 2, 2, 3, 4, 5};
    forall n: int
      ensures Lengths(F)[n] == if 1 <= n <= 5 then CountKind(F, ShipTypeOf(n)) else 0
      ensures standard[n] == if 1 <= n <= 5 then ShipCount(ShipTypeOf(n)) else 0
    {
      LengthsByKind(F, n);
      StandardCounts(n);
    }
    if KindsComplete(F) {
      forall n: int ensures Lengths(F)[n] == standard[n] {
        if 1 <= n <= 5 {
          assert ShipTypeOf(n) != Invalid && CountKind(F, ShipTypeOf(n)) == ShipCount(ShipTypeOf(n));
        }
      }
      assert Lengths(F) == standard;
    }
    if StandardLengths(F) {
      forall kind: ShipType | kind != Invalid ensures CountKind(F, kind) == ShipCount(kind) {
        assert kind == ShipTypeOf(ShipLength(kind)) && 1 <= ShipLength(kind) <= 5 by {
          KindOfLength(kind);
        }
        assert Lengths(F)[ShipLength(kind)] == standard[ShipLength(kind)];
      }
    }
  }

  lemma PlacedHaveKind(F: Fleet)
    requires forall k :: 0 <= k < |F| ==> Placed(F[k])
    ensures forall k :: 0 <= k < |F| ==> F[k].kind != Invalid
  {
  }

  lemma KindOfLength(kind: ShipType)
    requires kind != Invalid
    ensures kind == ShipTypeOf(ShipLength(kind)) && 1 <= ShipLength(kind) <= 5
  {
  }

  method CountKinds(shipArr: array<Ship>) returns (ok: bool)
    ensures ok <==> KindsComplete(shipArr[..])
  {
    var submarines: int := ShipCount(Submarine);
    var destroyers: int := ShipCount(Destroyer);
    var cruisers: int := ShipCount(Cruiser);
    var battleships: int := ShipCount(Battleship);
    var carriers: int := ShipCount(AircraftCarrier);
    var i := 0;
    while i < shipArr.Length
      invariant 0 <= i <= shipArr.Length
      invariant forall k :: 0 <= k < i ==> shipArr[k].kind != Invalid
      invariant submarines == ShipCount(Submarine) - CountKind(shipArr[..i], Submarine)
      invariant destroyers == ShipCount(Destroyer) - CountKind(shipArr[..i], Destroyer)
      invariant cruisers == ShipCount(Cruiser) - CountKind(shipArr[..i], Cruiser)
      invariant battleships == ShipCount(Battleship) - CountKind(shipArr[..i], Battleship)
      invariant carriers == ShipCount(AircraftCarrier) - CountKind(shipArr[..i], AircraftCarrier)
    {
      match shipArr[i].kind {
        case Submarine => submarines := submarines - 1;
        case Destroyer => destroyers := destroyers - 1;
        case Cruiser => cruisers := cruisers - 1;
        case Battleship => battleships := battleships - 1;
        case AircraftCarrier => carriers := carriers - 1;
        case Invalid => return false;
      }
      assert shipArr[..i + 1][..i] == shipArr[..i];
      i := i + 1;
    }
    assert shipArr[..] == shipArr[..i];
    ok := submarines == 0 && destroyers == 0 && cruisers == 0 && battleships == 0 && carriers == 0;
  }

  // ---------- looking at the neighbours ----------

  const HEAD_H: seq<Point> := [Point(-1, -1), Point(-1, 0), Point(-1, 1)]
  const TAIL_H: seq<Point> := [Point(1, -1), Point(1, 0), Point(1, 1)]
  const FLANK_H: seq<Point> := [Point(0, -1), Point(0, 1)]
  const HEAD_V: seq<Point> := [Point(-1, -1), Point(0, -1), Point(1, -1)]
  const TAIL_V: seq<Point> := [Point(-1, 1), Point(0, 1), Point(1, 1)]
  const FLANK_V: seq<Point> := [Point(-1, 0), Point(1, 0)]

  /** Every cell of the field next to the ship is empty. */
  ghost predicate RingFree(b: Board, s: Ship) {
    forall p: Point, q: Point :: Covers(s, p) && OnField(q) && Near(p, q) && !Covers(s, q) ==> b[q] == EMPTY
  }

  ghost predicate DeltasFree(b: Board, p: Point, deltas: seq<Point>) {
    forall k :: 0 <= k < |deltas| && OnField(p.Plus(deltas[k])) ==> b[p.Plus(deltas[k])] == EMPTY
  }

  ghost predicate CellFree(b: Board, s: Ship, p: Point) {
    && (p == s.head ==> DeltasFree(b, p, if s.IsVertical() then HEAD_V else HEAD_H))
    && (p == s.tail ==> DeltasFree(b, p, if s.IsVertical() then TAIL_V else TAIL_H))
    && DeltasFree(b, p, if s.IsVertical() then FLANK_V else FLANK_H)
  }

  lemma RingFreeCell(b: Board, s: Ship, p: Point)
    requires Placed(s) && RingFree(b, s) && Covers(s, p)
    ensures CellFree(b, s, p)
  {
  }

  /** The three or two offsets looked at from each cell reach the whole ring. */
  lemma CellsFreeRing(b: Board, s: Ship)
    requires Placed(s)
    requires forall p: Point :: Covers(s, p) ==> CellFree(b, s, p)
    ensures RingFree(b, s)
  {
    forall p: Point, q: Point | Covers(s, p) && OnField(q) && Near(p, q) && !Covers(s, q) ensures b[q] == EMPTY {
      RingCell(b, s, p, q);
    }
  }

  lemma RingCell(b: Board, s: Ship, p: Point, q: Point)
    requires Placed(s)
    requires forall p: Point :: Covers(s, p) ==> CellFree(b, s, p)
    requires Covers(s, p) && OnField(q) && Near(p, q) && !Covers(s, q)
    ensures b[q] == EMPTY
  {
    hide CellFree;
    if s.IsVertical() {
      RingCellVertical(b, s, q);
    } else {
      RingCellHorizontal(b, s, q);
    }
  }

  lemma RingCellVertical(b: Board, s: Ship, q: Point)
    requires Placed(s) && s.IsVertical()
    requires forall p: Point :: Covers(s, p) ==> CellFree(b, s, p)
    requires OnField(q) && -1 <= q.x - s.head.x <= 1 && s.head.y - 1 <= q.y <= s.tail.y + 1 && !Covers(s, q)
    ensures b[q] == EMPTY
  {
    if q.y < s.head.y {
      assert CellFree(b, s, s.head) && s.head.Plus(HEAD_V[q.x - s.head.x + 1]) == q;
    } else if q.y > s.tail.y {
      assert CellFree(b, s, s.tail) && s.tail.Plus(TAIL_V[q.x - s.tail.x + 1]) == q;
    } else {
      var near := Point(s.head.x, q.y);
      assert CellFree(b, s, near) && near.Plus(FLANK_V[if q.x < near.x then 0 else 1]) == q;
    }
  }

  lemma RingCellHorizontal(b: Board, s: Ship, q: Point)
    requires Placed(s) && !s.IsVertical()
    requires forall p: Point :: Covers(s, p) ==> CellFree(b, s, p)
    requires OnField(q) && -1 <= q.y - s.head.y <= 1 && s.head.x - 1 <= q.x <= s.tail.x + 1 && !Covers(s, q)
    ensures b[q] == EMPTY
  {
    if q.x < s.head.x {
      assert CellFree(b, s, s.head) && s.head.Plus(HEAD_H[q.y - s.head.y + 1]) == q;
    } else if q.x > s.tail.x {
      assert CellFree(b, s, s.tail) && s.tail.Plus(TAIL_H[q.y - s.tail.y + 1]) == q;
    } else {
      var near := Point(q.x, s.head.y);
      assert CellFree(b, s, near) && near.Plus(FLANK_H[if q.y < near.y then 0 else 1]) == q;
    }
  }

  method CheckDeltas(field: array2<Cell>, pos: Point, deltas: seq<Point>) returns (ok: bool)
    requires IsGrid(field)
    ensures ok <==> DeltasFree(BoardOf(field), pos, deltas)
  {
    for k := 0 to |deltas|
      invariant DeltasFree(BoardOf(field), pos, deltas[..k])
    {
      var nbr := pos.Plus(deltas[k]);
      if nbr.x < 0 || nbr.x >= FLD_SZ || nbr.y < 0 || nbr.y >= FLD_SZ {
        continue;
      }
      if field[nbr.y, nbr.x] != EMPTY {
        return false;
      }
    }
    assert deltas[..|deltas|] == deltas;
    ok := true;
  }

  method CheckNeighbours(field: array2<Cell>, ship: Ship) returns (ok: bool)
    requires IsGrid(field) && Placed(ship)
    ensures ok <==> RingFree(BoardOf(field), ship)
  {
    hide RingFree, DeltasFree;
    ghost var b: Board := BoardOf(field);
    var len := ship.Length();
    var vertical := ship.IsVertical();
    var delta := ship.Delta();
    var pos := ship.head;
    for j := 0 to len
      invariant pos == ShipCell(ship, j)
      invariant forall p: Point :: Covers(ship, p) && p.x - ship.head.x + p.y - ship.head.y < j ==> CellFree(b, ship, p)
    {
      ok := CheckCell(field, ship, pos, vertical);
      if !ok {
        if RingFree(b, ship) { RingFreeCell(b, ship, pos); }
        return false;
      }
      assert forall p: Point :: Covers(ship, p) && p.x - ship.head.x + p.y - ship.head.y == j ==> p == pos;
      pos := pos.Plus(delta);
    }
    CellsFreeRing(b, ship);
    ok := true;
  }

  method CheckCell(field: array2<Cell>, ship: Ship, pos: Point, vertical: bool) returns (ok: bool)
    requires IsGrid(field) && vertical == ship.IsVertical()
    ensures ok <==> CellFree(BoardOf(field), ship, pos)
  {
    hide DeltasFree;
    if pos == ship.head {
      ok := CheckDeltas(field, pos, if vertical then HEAD_V else HEAD_H);
      if !ok { return; }
    }
    if pos == ship.tail {
      ok := CheckDeltas(field, pos, if vertical then TAIL_V else TAIL_H);
      if !ok { return; }
    }
    ok := CheckDeltas(field, pos, if vertical then FLANK_V else FLANK_H);
  }

  // ---------- the whole check ----------

  /** Ships that partition the occupied cells and have free surroundings do not touch. */
  lemma FreePartitionIsLayout(b: Board, S: Fleet)
    requires Partition(b, S)
    requires forall k :: 0 <= k < |S| ==> RingFree(b, S[k])
    ensures Layout(S, b)
  {
    var t: Board :| CutOut(b, t, S) && ClearBefore(t, FLD_SZ, 0);
    forall j, k | 0 <= j < |S| && 0 <= k < |S| && j != k ensures Apart(S[j], S[k]) {
      forall p: Point, q: Point | Covers(S[j], p) && Covers(S[k], q) ensures !Near(p, q) {
        assert !Covers(S[j], q);
      }
    }
  }

  lemma FleetRingFree(b: Board, S: Fleet, G: Fleet, k: nat)
    requires Layout(G, b) && multiset(S) == multiset(G) && k < |S|
    ensures RingFree(b, S[k])
  {
    assert S[k] in multiset(G);
    var m :| 0 <= m < |G| && G[m] == S[k];
    RingEmpty(b, G, m);
  }

  lemma PartitionPlaced(b: Board, S: Fleet)
    requires Partition(b, S)
    ensures forall k :: 0 <= k < |S| ==> Placed(S[k])
  {
  }

  /** The ships of a standard fleet pass the later checks. */
  lemma FleetPasses(b: Board, S: Fleet, G: Fleet)
    requires FleetOf(G, b) && Partition(b, S) && multiset(S) == multiset(G)
    ensures KindsComplete(S) && forall k :: 0 <= k < |S| ==> RingFree(b, S[k])
  {
    PartitionPlaced(b, S);
    LengthsOfPermutation(S, G);
    KindsAreLengths(S);
    forall k | 0 <= k < |S| ensures RingFree(b, S[k]) {
      FleetRingFree(b, S, G, k);
    }
  }

  /** Ships that pass the later checks are a standard fleet. */
  lemma PassingIsFleet(b: Board, S: Fleet)
    requires Partition(b, S) && KindsComplete(S) && forall k :: 0 <= k < |S| ==> RingFree(b, S[k])
    ensures FleetOf(S, b)
  {
    PartitionPlaced(b, S);
    KindsAreLengths(S);
    FreePartitionIsLayout(b, S);
  }

  method CheckCellValues(field: array2<Cell>) returns (ok: bool)
    requires IsGrid(field)
    ensures ok <==> forall p: Point :: OnField(p) ==> EMPTY <= BoardOf(field)[p] <= MISSED
  {
    ghost var b: Board := BoardOf(field);
    for i := 0 to FLD_SZ
      invariant forall p: Point :: OnField(p) && p.y < i ==> EMPTY <= b[p] <= MISSED
    {
      for j := 0 to FLD_SZ
        invariant forall p: Point :: OnField(p) && (p.y < i || (p.y == i && p.x < j)) ==> EMPTY <= b[p] <= MISSED
      {
        assert b[Point(j, i)] == field[i, j];
        if field[i, j] < EMPTY || field[i, j] > MISSED {
          return false;
        }
      }
    }
    ok := true;
  }

  /** Accepts a field exactly when its bytes are cell states and its non-empty cells are those
      of a standard fleet that does not touch itself. */
  method IsValidField(field: array2<Cell>) returns (ok: bool)
    requires IsGrid(field)
    ensures ok <==>
      && (forall p: Point :: OnField(p) ==> EMPTY <= BoardOf(field)[p] <= MISSED)
      && exists F: Fleet :: FleetOf(F, BoardOf(field))
  {
    hide FleetOf, Partition, RingFree, KindsComplete;
    ghost var b: Board := BoardOf(field);
    ok := CheckCellValues(field);
    if !ok { return; }
    var shipArr;
    ok, shipArr := CutShips(field);
    if !ok { return; }
    ghost var S := shipArr[..];
    ok := CountKinds(shipArr);
    if !ok {
      forall G: Fleet | FleetOf(G, b) ensures false { FleetPasses(b, S, G); }
      return;
    }
    PartitionPlaced(b, S);
    for i := 0 to shipArr.Length
      invariant shipArr[..] == S
      invariant forall k :: 0 <= k < i ==> RingFree(b, S[k])
    {
      ok := CheckNeighbours(field, shipArr[i]);
      if !ok {
        forall G: Fleet | FleetOf(G, b) ensures false { FleetPasses(b, S, G); }
        return;
      }
    }
    PassingIsFleet(b, S);
    assert FleetOf(S, BoardOf(field));
    ok := true;
  }
}
