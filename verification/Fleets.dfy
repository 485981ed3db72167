// What a fleet is, independently of how the validator looks for one, and the theorem
// that a board has at most one decomposition into ships that do not touch.
module Fleets {
  import opened Geometry
  import opened Ships

  type Cell = c: int | -128 <= c < 128

  const EMPTY: Cell := 0
  const UNHARMED: Cell := 1
  const DAMAGED: Cell := 2
  const MISSED: Cell := 3
  const SHIP_COUNT: nat := 7

  type Board = b: map<Point, Cell> | (forall p: Point :: p in b <==> OnField(p)) witness EmptyBoard()

  function EmptyBoard(): (b: map<Point, Cell>)
    ensures forall p: Point :: p in b <==> OnField(p)
  {
    map p: Point | p in FieldPoints() :: EMPTY
  }

  /** The state of a cell as the code reads it: outside the field, and for a byte that is
      no state, it is empty. */
  function State(b: Board, p: Point): Cell {
    if OnField(p) && EMPTY <= b[p] <= MISSED then b[p] else EMPTY
  }

  type Fleet = seq<Ship>

  /** No cell of one ship is near a cell of the other. */
  ghost predicate Apart(s: Ship, t: Ship) {
    forall p: Point, q: Point :: Covers(s, p) && Covers(t, q) ==> !Near(p, q)
  }

  /** Well-placed ships that pairwise do not touch. */
  ghost predicate Separate(F: Fleet) {
    && (forall k :: 0 <= k < |F| ==> Placed(F[k]))
    && (forall j, k :: 0 <= j < |F| && 0 <= k < |F| && j != k ==> Apart(F[j], F[k]))
  }

  predicate CoveredBy(F: Fleet, p: Point) {
    exists k :: 0 <= k < |F| && Covers(F[k], p)
  }

  /** The ships are separate and their cells are exactly the non-empty cells of the board. */
  ghost predicate Layout(F: Fleet, b: Board) {
    && Separate(F)
    && (forall p: Point :: OnField(p) ==> (b[p] != EMPTY <==> CoveredBy(F, p)))
  }

  ghost function Lengths(F: Fleet): multiset<int> {
    if F == [] then multiset{} else Lengths(F[..|F| - 1]) + multiset{Span(F[|F| - 1])}
  }

  ghost predicate StandardLengths(F: Fleet) {
    Lengths(F) == multiset{1, 1, 2, 2, 3, 4, 5}
  }

  /** A fleet of the standard lengths that the board decomposes into. */
  ghost predicate FleetOf(F: Fleet, b: Board) {
    Layout(F, b) && StandardLengths(F)
  }

  /** A board a game may start from: only empty and unharmed cells, the unharmed ones
      being the cells of a fleet of the standard lengths. */
  ghost predicate ValidStart(b: Board) {
    && (forall p: Point :: OnField(p) ==> b[p] == EMPTY || b[p] == UNHARMED)
    && exists F: Fleet :: FleetOf(F, b)
  }

  // ---------- uniqueness of the decomposition ----------

  /** Following ship cells in a straight line from a ship never leaves that ship. */
  lemma {:induction false} Connected(F: Fleet, k: nat, p: Point, q: Point)
    requires Separate(F) && k < |F| && Covers(F[k], p)
    requires Aligned(p, q)
    requires forall r: Point :: InBox(p, q, r) ==> CoveredBy(F, r)
    ensures Covers(F[k], q)
    decreases Distance(p, q)
  {
    if p != q {
      var r := StepTowards(q, p);
      Connected(F, k, p, r);
      assert Near(r, q);
      assert InBox(p, q, q);
      var j :| 0 <= j < |F| && Covers(F[j], q);
      assert j == k || Apart(F[k], F[j]);
    }
  }

  /** If two separate fleets cover the same cells, ships that share a cell are equal. */
  lemma SharedCellSameShip(F: Fleet, j: nat, G: Fleet, k: nat, p: Point)
    requires Separate(F) && Separate(G) && j < |F| && k < |G|
    requires forall q: Point :: CoveredBy(F, q) <==> CoveredBy(G, q)
    requires Covers(F[j], p) && Covers(G[k], p)
    ensures F[j] == G[k]
  {
    ShipWithin(F, j, G, k, p);
    ShipWithin(G, k, F, j, p);
  }

  lemma ShipWithin(F: Fleet, j: nat, G: Fleet, k: nat, p: Point)
    requires Separate(F) && Separate(G) && j < |F| && k < |G|
    requires forall q: Point :: CoveredBy(F, q) <==> CoveredBy(G, q)
    requires Covers(F[j], p) && Covers(G[k], p)
    ensures Covers(F[j], G[k].head) && Covers(F[j], G[k].tail)
  {
    assert forall r: Point :: InBox(p, G[k].head, r) || InBox(p, G[k].tail, r) ==> Covers(G[k], r) && CoveredBy(G, r);
    Connected(F, j, p, G[k].head);
    Connected(F, j, p, G[k].tail);
  }

  /** The ships of a separate fleet are pairwise different. */
  ghost predicate Distinct(F: Fleet) {
    forall j, k :: 0 <= j < k < |F| ==> F[j] != F[k]
  }

  lemma SeparateDistinct(F: Fleet)
    requires Separate(F)
    ensures Distinct(F)
  {
    forall j, k | 0 <= j < k < |F| ensures F[j] != F[k] {
      assert Apart(F[j], F[k]);
      assert Covers(F[j], F[j].head);
      assert Near(F[j].head, F[j].head);
    }
  }

  lemma {:induction false} DistinctCount(F: Fleet, s: Ship)
    requires Distinct(F)
    ensures multiset(F)[s] == if s in F then 1 else 0
  {
    if F != [] {
      var n := |F| - 1;
      assert F == F[..n] + [F[n]];
      DistinctCount(F[..n], s);
    }
  }

  lemma SameShipsSameMultiset(F: Fleet, G: Fleet)
    requires Distinct(F) && Distinct(G)
    requires forall s: Ship :: s in F <==> s in G
    ensures multiset(F) == multiset(G)
  {
    forall s: Ship ensures multiset(F)[s] == multiset(G)[s] {
      DistinctCount(F, s);
      DistinctCount(G, s);
    }
  }

  /** A board has at most one decomposition into ships that do not touch. */
  lemma LayoutUnique(F: Fleet, G: Fleet, b: Board)
    requires Layout(F, b) && Layout(G, b)
    ensures multiset(F) == multiset(G)
    ensures Lengths(F) == Lengths(G)
  {
    SameCover(F, G, b);
    forall s: Ship | s in F ensures s in G { ShipInOther(F, G, s); }
    forall s: Ship | s in G ensures s in F { ShipInOther(G, F, s); }
    SeparateDistinct(F);
    SeparateDistinct(G);
    SameShipsSameMultiset(F, G);
    LengthsOfPermutation(F, G);
  }

  lemma SameCover(F: Fleet, G: Fleet, b: Board)
    requires Layout(F, b) && Layout(G, b)
    ensures forall q: Point :: CoveredBy(F, q) <==> CoveredBy(G, q)
  {
    forall q: Point ensures CoveredBy(F, q) <==> CoveredBy(G, q) {
      if !OnField(q) {
        assert !CoveredBy(F, q) && !CoveredBy(G, q);
      }
    }
  }

  lemma ShipInOther(F: Fleet, G: Fleet, s: Ship)
    requires Separate(F) && Separate(G) && s in F
    requires forall q: Point :: CoveredBy(F, q) <==> CoveredBy(G, q)
    ensures s in G
  {
    var j :| 0 <= j < |F| && F[j] == s;
    assert CoveredBy(F, s.head);
    var k :| 0 <= k < |G| && Covers(G[k], s.head);
    SharedCellSameShip(F, j, G, k, s.head);
  }

  lemma {:induction false} LengthsOfPermutation(F: Fleet, G: Fleet)
    requires multiset(F) == multiset(G)
    ensures Lengths(F) == Lengths(G)
  {
    if F == [] {
      assert |multiset(G)| == 0;
    } else {
      var n := |F| - 1;
      var s := F[n];
      assert F == F[..n] + [s];
      assert s in multiset(F);
      var m :| 0 <= m < |G| && G[m] == s;
      var G' := G[..m] + G[m + 1..];
      assert G == G[..m] + [s] + G[m + 1..];
      assert multiset(F[..n]) == multiset(F) - multiset{s};
      assert multiset(G') == multiset(G) - multiset{s};
      LengthsOfPermutation(F[..n], G');
      LengthsRemove(G, m);
    }
  }

  lemma {:induction false} LengthsConcat(F: Fleet, G: Fleet)
    ensures Lengths(F + G) == Lengths(F) + Lengths(G)
  {
    hide Span;
    if G == [] {
      assert F + G == F;
    } else {
      var n := |G| - 1;
      LengthsConcat(F, G[..n]);
      assert (F + G)[..|F + G| - 1] == F + G[..n];
      assert (F + G)[|F + G| - 1] == G[n];
      SumAssociates(Lengths(F), Lengths(G[..n]), multiset{Span(G[n])});
    }
  }

  lemma SumAssociates(a: multiset<int>, b: multiset<int>, c: multiset<int>)
    ensures a + b + c == a + (b + c)
  {
  }

  lemma LengthsRemove(G: Fleet, m: nat)
    requires m < |G|
    ensures Lengths(G) == Lengths(G[..m] + G[m + 1..]) + multiset{Span(G[m])}
  {
    hide Span, Lengths;
    var F, s, H := G[..m], [G[m]], G[m + 1..];
    assert G == F + (s + H);
    LengthsConcat(F, s + H);
    LengthsConcat(s, H);
    LengthsConcat(F, H);
    LengthsOne(G[m]);
    SumSwaps(Lengths(F), multiset{Span(G[m])}, Lengths(H));
  }

  lemma LengthsOne(s: Ship)
    ensures Lengths([s]) == multiset{Span(s)}
  {
    assert [s][..0] == [];
    assert Lengths([s]) == Lengths([]) + multiset{Span(s)};
  }

  lemma SumSwaps(a: multiset<int>, b: multiset<int>, c: multiset<int>)
    ensures a + (b + c) == a + c + b
  {
  }

  lemma {:induction false} LengthsSize(F: Fleet)
    ensures |Lengths(F)| == |F|
  {
    if F != [] {
      LengthsSize(F[..|F| - 1]);
    }
  }

  /** The ship through a covered cell is a function of the board: whichever decomposition
      one looks at, it is the same ship. */
  lemma ShipThroughCellUnique(F: Fleet, j: nat, G: Fleet, k: nat, b: Board, p: Point)
    requires Layout(F, b) && Layout(G, b) && j < |F| && k < |G|
    requires Covers(F[j], p) && Covers(G[k], p)
    ensures F[j] == G[k]
  {
    SameCover(F, G, b);
    SharedCellSameShip(F, j, G, k, p);
  }

  // ---------- there are boards to start from ----------

  lemma FarApart(s: Ship, t: Ship)
    requires s.tail.y + 2 <= t.head.y || t.tail.y + 2 <= s.head.y || s.tail.x + 2 <= t.head.x || t.tail.x + 2 <= s.head.x
    ensures Apart(s, t)
  {
  }

  function SampleFleet(): Fleet {
    [Ship(AircraftCarrier, Point(0, 0), Point(4, 0)), Ship(Battleship, Point(0, 2), Point(3, 2)),
     Ship(Cruiser, Point(0, 4), Point(2, 4)), Ship(Destroyer, Point(0, 6), Point(1, 6)),
     Ship(Destroyer, Point(0, 8), Point(1, 8)), Ship(Submarine, Point(6, 0), Point(6, 0)),
     Ship(Submarine, Point(6, 2), Point(6, 2))]
  }

  lemma SampleSeparate()
    ensures Separate(SampleFleet())
  {
    var F := SampleFleet();
    forall k | 0 <= k < |F| ensures Placed(F[k]) && SampleRow(F[k], k) {
    }
    hide Placed, SampleFleet;
    forall j, k | 0 <= j < |F| && 0 <= k < |F| && j != k ensures Apart(F[j], F[k]) {
      assert SampleRow(F[j], j) && SampleRow(F[k], k);
      FarApart(F[j], F[k]);
    }
  }

  /** The long ships lie in every other row on the left, the two short ones to their right. */
  predicate SampleRow(s: Ship, k: int) {
    if k < 5 then s.head.y == s.tail.y == 2 * k && s.tail.x <= 4
    else s.head.y == s.tail.y == 2 * (k - 5) && s.head.x == 6
  }

  lemma LengthsStep(F: Fleet, k: nat)
    requires k < |F|
    ensures Lengths(F[..k + 1]) == Lengths(F[..k]) + multiset{Span(F[k])}
  {
    assert F[..k + 1][..k] == F[..k];
  }

  lemma SevenLengths(F: Fleet)
    requires |F| == 7 && Span(F[0]) == 5 && Span(F[1]) == 4 && Span(F[2]) == 3
    requires Span(F[3]) == 2 && Span(F[4]) == 2 && Span(F[5]) == 1 && Span(F[6]) == 1
    ensures StandardLengths(F)
  {
    hide Lengths, Span;
    LengthsNone();
    LengthsStep(F, 0);
    LengthsStep(F, 1);
    LengthsStep(F, 2);
    LengthsStep(F, 3);
    LengthsStep(F, 4);
    LengthsStep(F, 5);
    LengthsStep(F, 6);
    assert F == F[..7] && F[..0] == [];
  }

  lemma LengthsNone()
    ensures Lengths([]) == multiset{}
  {
  }

  function BoardOfFleet(F: Fleet): Board {
    map p: Point | p in FieldPoints() :: if CoveredBy(F, p) then UNHARMED else EMPTY
  }

  /** A separate fleet of the standard lengths, put on the field, is a valid start. */
  lemma FleetMakesStart(F: Fleet)
    requires Separate(F) && StandardLengths(F)
    ensures ValidStart(BoardOfFleet(F))
  {
    hide StandardLengths, CoveredBy, Separate;
    assert FleetOf(F, BoardOfFleet(F));
  }

  /** Some board is a valid start. */
  lemma SomeStartIsValid()
    ensures exists b: Board :: ValidStart(b)
  {
    hide ValidStart;
    SampleSeparate();
    SevenLengths(SampleFleet());
    FleetMakesStart(SampleFleet());
  }
}
