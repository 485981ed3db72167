// Facts about whole series of shots on a board that started valid, and the cell counts that
// decide a game.
module BoardRuns {
  import opened Sets
  import opened Geometry
  import opened Ships
  import opened Fleets
  import opened ShotRules
  import opened EnemyViews

  // ---------- what any series of shots keeps ----------

  /** Occupied cells stay occupied by the same ships and each cell only moves from empty to
      missed or from unharmed to damaged. */
  lemma ShotsOnlyMark(b: Board, F: Fleet, shots: seq<Point>, q: Point)
    requires ValidStart(b) && Layout(F, b) && OnField(q)
    ensures var a := AfterShots(b, shots);
      && (b[q] == EMPTY ==> a[q] == EMPTY || a[q] == MISSED)
      && (b[q] == UNHARMED ==> a[q] == UNHARMED || a[q] == DAMAGED)
      && (a[q] == DAMAGED <==> b[q] == UNHARMED && q in shots)
      && (b[q] == EMPTY && q in shots ==> a[q] == MISSED)
  {
    ShotsSettle(b, F, shots);
    StartCells(b, F);
    PointsOfShots(shots, q);
    hide Layout, ValidStart, AfterShots, CoveredBy, NearSunk;
  }

  lemma PointsOfShots(shots: seq<Point>, q: Point)
    ensures q in PointsOf(shots) <==> q in shots
  {
  }

  /** Around a ship whose cells are all damaged every other cell is missed; and an unshot cell
      is missed only for that reason. */
  lemma MissedExplained(b: Board, F: Fleet, shots: seq<Point>, q: Point)
    requires ValidStart(b) && Layout(F, b) && OnField(q) && b[q] == EMPTY
    ensures AfterShots(b, shots)[q] == MISSED <==>
      q in shots || exists k, p: Point :: 0 <= k < |F| && AllDamaged(F[k], AfterShots(b, shots)) && Covers(F[k], p) && Near(p, q)
  {
    ShotsSettle(b, F, shots);
    StartCells(b, F);
    PointsOfShots(shots, q);
    forall k | 0 <= k < |F| ensures AllDamaged(F[k], AfterShots(b, shots)) <==> Sunk(F[k], PointsOf(shots)) {
      SunkIsDamaged(F, PointsOf(shots), k);
    }
    hide Layout, ValidStart, AfterShots, CoveredBy, Sunk, Covers, Near, AllDamaged;
  }

  ghost predicate AllDamaged(s: Ship, b: Board) {
    forall p: Point :: Covers(s, p) ==> State(b, p) == DAMAGED
  }

  lemma SunkIsDamaged(F: Fleet, shots: set<Point>, k: nat)
    requires Separate(F) && k < |F|
    ensures AllDamaged(F[k], Settled(F, shots)) <==> Sunk(F[k], shots)
  {
    SettledShows(F, shots);
    CoveredByOne(F, k);
    hide Settled, CoveredBy, Separate, Covers;
  }

  /** On every board reached by shots, the four-direction test at a damaged cell of a ship
      tells exactly whether all cells of that ship are damaged. */
  lemma WalkTellsSunk(b: Board, F: Fleet, shots: seq<Point>, k: nat, p: Point)
    requires ValidStart(b) && Layout(F, b) && k < |F| && Covers(F[k], p)
    requires State(AfterShots(b, shots), p) == DAMAGED
    ensures Destroyed(AfterShots(b, shots), p) <==> AllDamaged(F[k], AfterShots(b, shots))
  {
    ShotsSettle(b, F, shots);
    SettledShows(F, PointsOf(shots));
    SunkIsDamaged(F, PointsOf(shots), k);
    hide Settled, AllDamaged, Sunk, Destroyed, CoveredBy, Separate, Covers, ValidStart, AfterShots, State;
    DestroyedIsSunk(F, PointsOf(shots), AfterShots(b, shots), k, p);
  }

  /** Marking around a sunk ship, from whichever of its cells it starts, changes exactly the
      empty cells next to the whole ship. */
  lemma MarksWholeShip(F: Fleet, shots: set<Point>, b: Board, k: nat, p: Point, q: Point)
    requires Separate(F) && Shows(F, shots, b) && k < |F| && Covers(F[k], p) && Sunk(F[k], shots) && OnField(q)
    ensures Surrounded(b, p)[q] ==
      if State(b, q) == EMPTY && (exists r: Point :: Covers(F[k], r) && Near(r, q)) then MISSED else b[q]
  {
    NearLineIsNearShip(F, shots, b, k, p, q);
    hide NearLine, Covers, Separate, Shows, Sunk, State, Near;
  }

  // ---------- the opponent's view over a whole series ----------

  /** The view kept by an opponent who starts from an empty field and is only told, for each
      shot, its result and whether a ship sank. */
  ghost function TrackedView(b: Board, shots: seq<Point>): Board {
    if shots == [] then EmptyBoard()
    else
      var rest := shots[..|shots| - 1];
      var p := shots[|shots| - 1];
      var before := AfterShots(b, rest);
      ViewAfterShot(TrackedView(b, rest), p, ShotResult(before, p), Sinks(before, p))
  }

  /** What the opponent is shown after any series of shots is the view it could have tracked. */
  lemma {:induction false} ViewIsTracked(b: Board, F: Fleet, shots: seq<Point>)
    requires ValidStart(b) && Layout(F, b)
    ensures HiddenShips(AfterShots(b, shots)) == TrackedView(b, shots)
  {
    hide ViewAfterShot, ShotResult, Sinks, Separate, AfterShot, Settled;
    if shots == [] {
    } else {
      var rest := shots[..|shots| - 1];
      ViewIsTracked(b, F, rest);
      ShotsSettle(b, F, rest);
      ViewCommutes(F, PointsOf(rest), shots[|shots| - 1]);
    }
  }

  // ---------- counting cells ----------

  ghost function ShipCells(F: Fleet): set<Point> {
    set p | p in FieldPoints() && CoveredBy(F, p)
  }

  ghost function TotalLength(F: Fleet): int {
    if F == [] then 0 else TotalLength(F[..|F| - 1]) + Span(F[|F| - 1])
  }

  lemma {:induction false} StripCount(y: int, x0: int, x1: int)
    requires x0 <= x1 + 1
    ensures |CellsOf(Ship(Invalid, Point(x0, y), Point(x1, y)))| == x1 - x0 + 1
    decreases x1 - x0 + 1
  {
    var s := Ship(Invalid, Point(x0, y), Point(x1, y));
    if x0 == x1 + 1 {
      assert CellsOf(s) == {};
    } else {
      StripCount(y, x0, x1 - 1);
      assert CellsOf(s) == CellsOf(Ship(Invalid, Point(x0, y), Point(x1 - 1, y))) + {Point(x1, y)};
    }
  }

  lemma {:induction false} ColumnCount(x: int, y0: int, y1: int)
    requires y0 <= y1 + 1
    ensures |CellsOf(Ship(Invalid, Point(x, y0), Point(x, y1)))| == y1 - y0 + 1
    decreases y1 - y0 + 1
  {
    var s := Ship(Invalid, Point(x, y0), Point(x, y1));
    if y0 == y1 + 1 {
      assert CellsOf(s) == {};
    } else {
      ColumnCount(x, y0, y1 - 1);
      assert CellsOf(s) == CellsOf(Ship(Invalid, Point(x, y0), Point(x, y1 - 1))) + {Point(x, y1)};
    }
  }

  lemma ShipCellCount(s: Ship)
    requires Placed(s)
    ensures |CellsOf(s)| == Span(s)
  {
    if s.head.y == s.tail.y {
      StripCount(s.head.y, s.head.x, s.tail.x);
    } else {
      ColumnCount(s.head.x, s.head.y, s.tail.y);
    }
    assert CellsOf(s) == CellsOf(s.(kind := Invalid));
  }

  lemma {:induction false} ShipCellsCount(F: Fleet)
    requires Separate(F)
    ensures |ShipCells(F)| == TotalLength(F)
  {
    if F == [] {
      assert ShipCells(F) == {};
    } else {
      var n := |F| - 1;
      SeparatePrefix(F);
      ShipCellsCount(F[..n]);
      ShipCellCount(F[n]);
      LastShipCells(F);
    }
  }

  lemma SeparatePrefix(F: Fleet)
    requires Separate(F) && F != []
    ensures Separate(F[..|F| - 1])
  {
  }

  lemma LastShipCells(F: Fleet)
    requires Separate(F) && F != []
    ensures ShipCells(F) == ShipCells(F[..|F| - 1]) + CellsOf(F[|F| - 1])
    ensures ShipCells(F[..|F| - 1]) !! CellsOf(F[|F| - 1])
  {
    var n := |F| - 1;
    forall p: Point ensures p in ShipCells(F) <==> p in ShipCells(F[..n]) || p in CellsOf(F[n]) {
      LastCovers(F, p);
    }
    forall p: Point | p in CellsOf(F[n]) ensures p !in ShipCells(F[..n]) {
      assert Near(p, p);
      assert forall k :: 0 <= k < n ==> F[..n][k] == F[k] && Apart(F[k], F[n]);
      assert !CoveredBy(F[..n], p);
    }
  }

  lemma LastCovers(F: Fleet, p: Point)
    requires Separate(F) && F != []
    ensures CoveredBy(F, p) <==> CoveredBy(F[..|F| - 1], p) || Covers(F[|F| - 1], p)
    ensures CoveredBy(F, p) ==> OnField(p)
  {
    var n := |F| - 1;
    if CoveredBy(F, p) {
      var k :| 0 <= k < |F| && Covers(F[k], p);
      assert k == n || F[..n][k] == F[k];
    }
  }

  lemma {:induction false} TotalByLengths(F: Fleet)
    requires forall k :: 0 <= k < |F| ==> Placed(F[k])
    ensures TotalLength(F) == Lengths(F)[1] + 2 * Lengths(F)[2] + 3 * Lengths(F)[3] + 4 * Lengths(F)[4] + 5 * Lengths(F)[5]
  {
    if F != [] {
      TotalByLengths(F[..|F| - 1]);
      assert 1 <= Span(F[|F| - 1]) <= 5;
    }
  }

  /** The ships of a standard fleet have eighteen cells. */
  lemma EighteenCells(F: Fleet)
    requires Separate(F) && StandardLengths(F)
    ensures |ShipCells(F)| == 18
  {
    ShipCellsCount(F);
    TotalByLengths(F);
  }

  ghost function DamagedCells(b: Board): set<Point> {
    set p | p in FieldPoints() && State(b, p) == DAMAGED
  }

  /** Cells a shot can still change. */
  ghost function FreshCells(b: Board): set<Point> {
    set p | p in FieldPoints() && (State(b, p) == EMPTY || State(b, p) == UNHARMED)
  }

  /** A board reached by shots from a valid start has at most eighteen damaged cells, and
      eighteen exactly when no unharmed cell is left. */
  lemma HitsDecide(F: Fleet, shots: set<Point>)
    requires Separate(F) && StandardLengths(F)
    ensures |DamagedCells(Settled(F, shots))| <= 18
    ensures |DamagedCells(Settled(F, shots))| == 18 <==> NoUnharmed(Settled(F, shots))
  {
    var b := Settled(F, shots);
    EighteenCells(F);
    SettledShows(F, shots);
    SettledRaw(F, shots);
    DamagedInShips(F, shots, b);
    if |DamagedCells(b)| == 18 {
      SubsetSameSize(DamagedCells(b), ShipCells(F));
    }
  }

  lemma SettledRaw(F: Fleet, shots: set<Point>)
    ensures NoUnharmed(Settled(F, shots)) <==> forall p: Point :: OnField(p) ==> State(Settled(F, shots), p) != UNHARMED
  {
    hide CoveredBy, NearSunk;
  }

  lemma DamagedInShips(F: Fleet, shots: set<Point>, b: Board)
    requires Shows(F, shots, b)
    ensures DamagedCells(b) <= ShipCells(F) && |DamagedCells(b)| <= |ShipCells(F)|
    ensures DamagedCells(b) == ShipCells(F) <==> forall p: Point :: OnField(p) ==> State(b, p) != UNHARMED
  {
    hide State, CoveredBy;
    assert DamagedCells(b) <= ShipCells(F);
    SubsetSize(DamagedCells(b), ShipCells(F));
    if forall p: Point :: OnField(p) ==> State(b, p) != UNHARMED {
      assert DamagedCells(b) == ShipCells(F);
    }
    if DamagedCells(b) == ShipCells(F) {
      forall p: Point | OnField(p) ensures State(b, p) != UNHARMED {
        assert p in ShipCells(F) <==> p in DamagedCells(b);
      }
    }
  }

  /** On any board at all, a shot that reports something uses up a cell that was fresh, and no
      shot ever makes a cell fresh again. */
  lemma ShotUsesFresh(b: Board, p: Point)
    ensures FreshCells(AfterShot(b, p)) <= FreshCells(b)
    ensures ShotResult(b, p) != EMPTY <==> p in FreshCells(b)
    ensures ShotResult(b, p) != EMPTY ==> |FreshCells(AfterShot(b, p))| < |FreshCells(b)|
    ensures ShotResult(b, p) == EMPTY ==> AfterShot(b, p) == b
  {
    hide Destroyed, NearLine;
    var a := AfterShot(b, p);
    assert forall q: Point :: OnField(q) && State(a, q) in {EMPTY, UNHARMED} ==> State(b, q) in {EMPTY, UNHARMED};
    if ShotResult(b, p) != EMPTY {
      assert State(a, p) == ShotResult(b, p);
      SubsetSize(FreshCells(a), FreshCells(b) - {p});
    }
  }

  lemma FreshBound(b: Board)
    ensures |FreshCells(b)| <= 100
  {
    SubsetSize(FreshCells(b), FieldPoints());
    FieldCount(FLD_SZ);
    assert FieldPoints() == Rows(FLD_SZ);
  }

  ghost function Rows(n: nat): set<Point> {
    set p: Point | p in FieldPoints() && p.y < n
  }

  lemma RowsStep(n: nat)
    requires n < FLD_SZ
    ensures Rows(n + 1) == Rows(n) + CellsOf(Ship(Invalid, Point(0, n), Point(FLD_SZ - 1, n)))
    ensures Rows(n) !! CellsOf(Ship(Invalid, Point(0, n), Point(FLD_SZ - 1, n)))
  {
  }

  lemma NextRowCount(n: nat)
    requires n < FLD_SZ
    ensures |Rows(n + 1)| == |Rows(n)| + 10
  {
    var row := CellsOf(Ship(Invalid, Point(0, n), Point(FLD_SZ - 1, n)));
    RowsStep(n);
    StripCount(n, 0, FLD_SZ - 1);
    DisjointUnionSize(Rows(n), row);
  }

  lemma {:induction false} FieldCount(n: nat)
    requires n <= FLD_SZ
    ensures |Rows(n)| == 10 * n
  {
    if n == 0 {
      assert Rows(n) == {};
    } else {
      hide Rows;
      FieldCount(n - 1);
      NextRowCount(n - 1);
    }
  }
}
