// The opponent's view of a board, and why it can be kept up to date from shot results alone.
module EnemyViews {
  import opened Geometry
  import opened Ships
  import opened Fleets
  import opened ShotRules

  function HiddenCell(c: Cell): Cell {
    if c == UNHARMED then EMPTY else c
  }

  /** The board with the ships that are not hit left out. */
  ghost function HiddenShips(b: Board): Board {
    map q: Point | q in FieldPoints() :: HiddenCell(b[q])
  }

  ghost predicate NoUnharmed(b: Board) {
    forall p: Point :: OnField(p) ==> b[p] != UNHARMED
  }

  /** Of a board that a game starts from nothing is to be seen. */
  lemma StartIsHidden(b: Board)
    requires ValidStart(b)
    ensures HiddenShips(b) == EmptyBoard()
  {
    hide Separate;
    var F: Fleet :| FleetOf(F, b);
    StartCells(b, F);
  }

  /** What the opponent can do with a reported shot: write the result into the view and, if
      told that the ship sank, mark the surroundings of the damaged cells in the view. */
  ghost function ViewAfterShot(view: Board, p: Point, result: Cell, sank: bool): Board {
    if result == EMPTY || !OnField(p) then view
    else
      var written: Board := view[p := result];
      if sank then Surrounded(written, p) else written
  }

  /** Whether the shot at p sinks a ship. */
  ghost predicate Sinks(b: Board, p: Point) {
    ShotResult(b, p) == DAMAGED && Destroyed(b[p := DAMAGED], p)
  }

  /** Hiding ships after a shot gives the same view as updating the view from before. */
  lemma ViewCommutes(F: Fleet, shots: set<Point>, p: Point)
    requires Separate(F)
    ensures var b := Settled(F, shots);
      HiddenShips(AfterShot(b, p)) == ViewAfterShot(HiddenShips(b), p, ShotResult(b, p), Sinks(b, p))
  {
    var b := Settled(F, shots);
    if Sinks(b, p) {
      var k := SinksShip(F, shots, p);
      ViewSinks(F, shots + {p}, b[p := DAMAGED], k, p);
    }
    ViewStep(b, p);
  }

  lemma SinksShip(F: Fleet, shots: set<Point>, p: Point) returns (k: nat)
    requires Separate(F) && Sinks(Settled(F, shots), p)
    ensures k < |F| && Covers(F[k], p) && Sunk(F[k], shots + {p})
    ensures Shows(F, shots + {p}, Settled(F, shots)[p := DAMAGED])
  {
    var b := Settled(F, shots);
    SettledShows(F, shots);
    k :| k < |F| && Covers(F[k], p);
    hide Settled, Separate, State, Destroyed, Covers, NearSunk;
    HitShows(F, shots, p);
    DestroyedIsSunk(F, shots + {p}, b[p := DAMAGED], k, p);
  }

  lemma ViewStep(b: Board, p: Point)
    requires Sinks(b, p) ==> HiddenShips(Surrounded(b[p := DAMAGED], p)) == Surrounded(HiddenShips(b[p := DAMAGED]), p)
    ensures HiddenShips(AfterShot(b, p)) == ViewAfterShot(HiddenShips(b), p, ShotResult(b, p), Sinks(b, p))
  {
    hide Surrounded, Destroyed;
    var result := ShotResult(b, p);
    if result != EMPTY {
      assert HiddenShips(b[p := result]) == HiddenShips(b)[p := result];
    }
  }

  lemma HiddenLine(b: Board, p: Point, r: Point)
    ensures OnLine(HiddenShips(b), p, r) <==> OnLine(b, p, r)
  {
    assert forall q: Point :: State(HiddenShips(b), q) == DAMAGED <==> State(b, q) == DAMAGED;
    hide State, HiddenShips;
  }

  /** Around a sunk ship no unharmed cell is hidden. */
  lemma ViewSinks(F: Fleet, shots: set<Point>, b: Board, k: nat, p: Point)
    requires Separate(F) && Shows(F, shots, b) && k < |F| && Covers(F[k], p) && Sunk(F[k], shots)
    ensures HiddenShips(Surrounded(b, p)) == Surrounded(HiddenShips(b), p)
  {
    hide Separate, Shows, Sunk, Covers, NearLine;
    forall q: Point | OnField(q) ensures HiddenShips(Surrounded(b, p))[q] == Surrounded(HiddenShips(b), p)[q] {
      NearHidden(b, p, q);
      ViewSinksCell(F, shots, b, k, p, q);
    }
  }

  lemma NearHidden(b: Board, p: Point, q: Point)
    ensures NearLine(HiddenShips(b), p, q) <==> NearLine(b, p, q)
  {
    forall r: Point ensures OnLine(HiddenShips(b), p, r) <==> OnLine(b, p, r) {
      HiddenLine(b, p, r);
    }
    hide OnLine, HiddenShips;
  }

  lemma ViewSinksCell(F: Fleet, shots: set<Point>, b: Board, k: nat, p: Point, q: Point)
    requires Separate(F) && Shows(F, shots, b) && k < |F| && Covers(F[k], p) && Sunk(F[k], shots)
    ensures State(b, q) == UNHARMED ==> !NearLine(b, p, q)
  {
    NearLineIsNearShip(F, shots, b, k, p, q);
    if State(b, q) == UNHARMED {
      var j :| 0 <= j < |F| && Covers(F[j], q);
      assert j != k && Apart(F[k], F[j]);
    }
  }
}
