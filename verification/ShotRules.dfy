// What a shot does to a board, stated by lines of damaged cells rather than by walking, and
// what a whole series of shots amounts to on a board that holds a fleet.
module ShotRules {
  import opened Geometry
  import opened Ships
  import opened Fleets

  // ---------- one shot ----------

  /** q is the first cell past a straight line of damaged cells that starts at p (or p itself). */
  ghost predicate EndsLine(b: Board, p: Point, q: Point) {
    Aligned(p, q) && forall r: Point :: InBox(p, q, r) && r != q ==> State(b, r) == DAMAGED
  }

  /** r lies on a straight line of damaged cells through p. */
  ghost predicate OnLine(b: Board, p: Point, r: Point) {
    EndsLine(b, p, r) && State(b, r) == DAMAGED
  }

  /** No straight line of damaged cells from p runs into an unharmed cell. */
  ghost predicate Destroyed(b: Board, p: Point) {
    State(b, p) == DAMAGED && forall q: Point :: EndsLine(b, p, q) ==> State(b, q) != UNHARMED
  }

  ghost predicate NearLine(b: Board, p: Point, q: Point) {
    exists r: Point :: OnLine(b, p, r) && Near(r, q)
  }

  /** The empty cells around the lines of damaged cells through p turned into missed ones. */
  ghost function Surrounded(b: Board, p: Point): Board {
    map q: Point | q in FieldPoints() :: if State(b, q) == EMPTY && NearLine(b, p, q) then MISSED else b[q]
  }

  function ShotResult(b: Board, p: Point): Cell {
    if !OnField(p) then EMPTY
    else if State(b, p) == EMPTY then MISSED
    else if State(b, p) == UNHARMED then DAMAGED
    else EMPTY
  }

  ghost function AfterShot(b: Board, p: Point): Board {
    var result := ShotResult(b, p);
    if result == EMPTY then b
    else
      var hit: Board := b[p := result];
      if result == DAMAGED && Destroyed(hit, p) then Surrounded(hit, p) else hit
  }

  // ---------- a series of shots, in closed form ----------

  ghost predicate Sunk(s: Ship, shots: set<Point>) {
    forall p: Point :: Covers(s, p) ==> p in shots
  }

  ghost predicate NearSunk(F: Fleet, shots: set<Point>, q: Point) {
    exists k, p: Point :: 0 <= k < |F| && Sunk(F[k], shots) && Covers(F[k], p) && Near(p, q)
  }

  /** The board that holds the fleet F after shots at exactly the given points: ship cells
      shot at are damaged, other cells are missed when shot at or when next to a sunk ship. */
  ghost function Settled(F: Fleet, shots: set<Point>): Board {
    map q: Point | q in FieldPoints() ::
      if CoveredBy(F, q) then (if q in shots then DAMAGED else UNHARMED)
      else (if q in shots || NearSunk(F, shots, q) then MISSED else EMPTY)
  }

  ghost function AfterShots(b: Board, shots: seq<Point>): Board {
    if shots == [] then b else AfterShot(AfterShots(b, shots[..|shots| - 1]), shots[|shots| - 1])
  }

  function PointsOf(shots: seq<Point>): set<Point> {
    set k | 0 <= k < |shots| :: shots[k]
  }

  lemma NoneSunk(F: Fleet)
    requires Separate(F)
    ensures forall q: Point :: !NearSunk(F, {}, q)
  {
    assert forall k :: 0 <= k < |F| ==> Covers(F[k], F[k].head) && !Sunk(F[k], {});
  }

  /** A valid start board is its fleet with no shots fired. */
  lemma StartIsSettled(b: Board, F: Fleet)
    requires ValidStart(b) && Layout(F, b)
    ensures b == Settled(F, {})
  {
    hide NearSunk, CoveredBy, ValidStart, Separate;
    NoneSunk(F);
    StartCells(b, F);
  }

  lemma StartCells(b: Board, F: Fleet)
    requires ValidStart(b) && Layout(F, b)
    ensures forall q: Point :: OnField(q) ==> b[q] == if CoveredBy(F, q) then UNHARMED else EMPTY
  {
    hide CoveredBy, FleetOf, Separate;
  }

  /** The board shows the fleet F with the given cells shot at. */
  ghost predicate Shows(F: Fleet, shots: set<Point>, b: Board) {
    forall q: Point ::
      && (State(b, q) == DAMAGED <==> CoveredBy(F, q) && q in shots)
      && (State(b, q) == UNHARMED <==> CoveredBy(F, q) && q !in shots)
  }

  lemma SettledShows(F: Fleet, shots: set<Point>)
    requires Separate(F)
    ensures Shows(F, shots, Settled(F, shots))
  {
  }

  /** The ship through p is sunk exactly when no line of damaged cells from p runs into an
      unharmed cell. */
  lemma DestroyedIsSunk(F: Fleet, shots: set<Point>, b: Board, k: nat, p: Point)
    requires Separate(F) && Shows(F, shots, b) && k < |F| && Covers(F[k], p) && p in shots
    ensures Destroyed(b, p) <==> Sunk(F[k], shots)
  {
    hide State, CoveredBy;
    CoveredByOne(F, k);
    if Sunk(F[k], shots) {
      forall q: Point | EndsLine(b, p, q) ensures State(b, q) != UNHARMED {
        if State(b, q) == UNHARMED {
          Connected(F, k, p, q);
        }
      }
    } else {
      var u: Point :| Covers(F[k], u) && u !in shots;
      var q := FirstUnharmed(F, shots, b, k, p, u);
    }
  }

  lemma CoveredByOne(F: Fleet, k: nat)
    requires k < |F|
    ensures forall p: Point :: Covers(F[k], p) ==> CoveredBy(F, p)
  {
  }

  lemma {:induction false} FirstUnharmed(F: Fleet, shots: set<Point>, b: Board, k: nat, p: Point, u: Point) returns (q: Point)
    requires Separate(F) && Shows(F, shots, b) && k < |F| && Covers(F[k], p) && Covers(F[k], u)
    requires p in shots && u !in shots
    ensures EndsLine(b, p, q) && State(b, q) == UNHARMED
    decreases Distance(p, u)
  {
    hide State, CoveredBy;
    CoveredByOne(F, k);
    if EndsLine(b, p, u) {
      q := u;
    } else {
      var v: Point :| InBox(p, u, v) && v != u && State(b, v) != DAMAGED;
      assert Covers(F[k], v);
      q := FirstUnharmed(F, shots, b, k, p, v);
    }
  }

  /** On a sunk ship the lines of damaged cells through any of its cells are the ship. */
  lemma LineIsShip(F: Fleet, shots: set<Point>, b: Board, k: nat, p: Point, r: Point)
    requires Separate(F) && Shows(F, shots, b) && k < |F| && Covers(F[k], p) && Sunk(F[k], shots)
    ensures OnLine(b, p, r) <==> Covers(F[k], r)
  {
    hide State, CoveredBy;
    CoveredByOne(F, k);
    if OnLine(b, p, r) {
      Connected(F, k, p, r);
    }
    if Covers(F[k], r) {
      assert forall q: Point :: InBox(p, r, q) ==> Covers(F[k], q);
    }
  }

  // ---------- each shot keeps the closed form ----------

  lemma MissKeepsSunk(F: Fleet, shots: set<Point>, p: Point, q: Point)
    requires !CoveredBy(F, p)
    ensures NearSunk(F, shots + {p}, q) <==> NearSunk(F, shots, q)
  {
    forall k | 0 <= k < |F| ensures Sunk(F[k], shots + {p}) <==> Sunk(F[k], shots) {
    }
  }

  lemma MissSettles(F: Fleet, shots: set<Point>, p: Point)
    requires Separate(F) && !CoveredBy(F, p)
    ensures AfterShot(Settled(F, shots), p) == Settled(F, shots + {p})
  {
    hide Sunk, CoveredBy, NearSunk, Destroyed;
    var b := Settled(F, shots);
    forall q: Point | OnField(q) ensures AfterShot(b, p)[q] == Settled(F, shots + {p})[q] {
      MissKeepsSunk(F, shots, p, q);
    }
  }

  lemma HitSunk(F: Fleet, shots: set<Point>, k: nat, p: Point, j: nat)
    requires Separate(F) && k < |F| && Covers(F[k], p) && j < |F| && j != k
    ensures Sunk(F[j], shots + {p}) <==> Sunk(F[j], shots)
  {
    assert Apart(F[k], F[j]);
    assert Near(p, p);
    assert !Covers(F[j], p);
  }

  /** After a hit on ship k, the cells near sunk ships are those from before and, if ship k
      is now sunk, the cells near ship k. */
  lemma HitNearSunk(F: Fleet, shots: set<Point>, k: nat, p: Point, q: Point)
    requires Separate(F) && k < |F| && Covers(F[k], p) && p !in shots
    ensures NearSunk(F, shots + {p}, q) <==>
      NearSunk(F, shots, q) || (Sunk(F[k], shots + {p}) && exists r: Point :: Covers(F[k], r) && Near(r, q))
  {
    assert !Sunk(F[k], shots);
    forall j: nat | j < |F| && j != k ensures Sunk(F[j], shots + {p}) <==> Sunk(F[j], shots) {
      HitSunk(F, shots, k, p, j);
    }
  }

  lemma CoveredOnField(F: Fleet, p: Point)
    requires Separate(F) && CoveredBy(F, p)
    ensures OnField(p)
  {
  }

  lemma HitShows(F: Fleet, shots: set<Point>, p: Point)
    requires Separate(F) && CoveredBy(F, p)
    ensures OnField(p)
    ensures Shows(F, shots + {p}, Settled(F, shots)[p := DAMAGED])
  {
    CoveredOnField(F, p);
    SettledShows(F, shots);
    hide CoveredBy, Settled, Separate;
  }

  lemma NearLineIsNearShip(F: Fleet, shots: set<Point>, b: Board, k: nat, p: Point, q: Point)
    requires Separate(F) && Shows(F, shots, b) && k < |F| && Covers(F[k], p) && Sunk(F[k], shots)
    ensures NearLine(b, p, q) <==> exists r: Point :: Covers(F[k], r) && Near(r, q)
  {
    forall r: Point ensures OnLine(b, p, r) <==> Covers(F[k], r) {
      LineIsShip(F, shots, b, k, p, r);
    }
  }

  lemma SettledCell(F: Fleet, shots: set<Point>, q: Point)
    requires OnField(q)
    ensures Settled(F, shots)[q] ==
      if CoveredBy(F, q) then (if q in shots then DAMAGED else UNHARMED)
      else (if q in shots || NearSunk(F, shots, q) then MISSED else EMPTY)
    ensures State(Settled(F, shots), q) == Settled(F, shots)[q]
  {
    hide CoveredBy, NearSunk;
  }

  /** One cell after a hit on ship k at p. */
  lemma HitCell(F: Fleet, shots: set<Point>, k: nat, p: Point, q: Point)
    requires Separate(F) && k < |F| && Covers(F[k], p) && p !in shots && OnField(p) && OnField(q)
    ensures var hit: Board := Settled(F, shots)[p := DAMAGED];
      Settled(F, shots + {p})[q] == if Sunk(F[k], shots + {p}) then Surrounded(hit, p)[q] else hit[q]
  {
    hide Settled, Sunk, CoveredBy, NearSunk, NearLine, Shows, Separate, Covers, Near, State;
    CoveredByOne(F, k);
    HitShows(F, shots, p);
    HitNearSunk(F, shots, k, p, q);
    SettledCell(F, shots, q);
    SettledCell(F, shots + {p}, q);
    var hit: Board := Settled(F, shots)[p := DAMAGED];
    SameState(Settled(F, shots), hit, p, q);
    if Sunk(F[k], shots + {p}) {
      NearLineIsNearShip(F, shots + {p}, hit, k, p, q);
    }
  }

  lemma SameState(b: Board, hit: Board, p: Point, q: Point)
    requires OnField(p) && hit == b[p := DAMAGED]
    ensures State(hit, q) == if q == p then DAMAGED else State(b, q)
  {
  }

  lemma HitSettles(F: Fleet, shots: set<Point>, k: nat, p: Point)
    requires Separate(F) && k < |F| && Covers(F[k], p) && p !in shots
    ensures AfterShot(Settled(F, shots), p) == Settled(F, shots + {p})
  {
    CoveredByOne(F, k);
    HitShows(F, shots, p);
    SettledCell(F, shots, p);
    var b := Settled(F, shots);
    var hit: Board := b[p := DAMAGED];
    DestroyedIsSunk(F, shots + {p}, hit, k, p);
    hide Settled, Surrounded, Sunk, CoveredBy, Destroyed, Shows, State, Covers, Separate;
    forall q: Point | OnField(q) ensures AfterShot(b, p)[q] == Settled(F, shots + {p})[q] {
      HitCell(F, shots, k, p, q);
    }
  }

  /** A shot at a board in closed form gives the closed form with one more shot. */
  lemma ShotSettles(F: Fleet, shots: set<Point>, p: Point)
    requires Separate(F)
    ensures AfterShot(Settled(F, shots), p) == Settled(F, shots + {p})
  {
    if !CoveredBy(F, p) {
      MissSettles(F, shots, p);
    } else if p in shots {
      assert shots + {p} == shots;
      SettledShows(F, shots);
      assert ShotResult(Settled(F, shots), p) == EMPTY;
    } else {
      var k :| 0 <= k < |F| && Covers(F[k], p);
      HitSettles(F, shots, k, p);
    }
  }

  /** From a valid start board, any series of shots leads to the closed form of its set of
      points: the order of the shots, repeats, and shots outside the field do not matter. */
  lemma {:induction false} ShotsSettle(b: Board, F: Fleet, shots: seq<Point>)
    requires ValidStart(b) && Layout(F, b)
    ensures AfterShots(b, shots) == Settled(F, PointsOf(shots))
  {
    hide AfterShot, Settled, ValidStart, Separate;
    if shots == [] {
      StartIsSettled(b, F);
      assert PointsOf(shots) == {};
    } else {
      var rest := shots[..|shots| - 1];
      ShotsSettle(b, F, rest);
      ShotSettles(F, PointsOf(rest), shots[|shots| - 1]);
      assert PointsOf(shots) == PointsOf(rest) + {shots[|shots| - 1]};
    }
  }
}
