// The two-dimensional arrays that hold a field, and the board each one stands for.
module Grids {
  import opened Geometry
  import opened Fleets

  predicate IsGrid(a: array2<Cell>) {
    a.Length0 == FLD_SZ && a.Length1 == FLD_SZ
  }

  ghost function BoardOf(a: array2<Cell>): (b: Board)
    requires IsGrid(a)
    reads a
    ensures forall p: Point :: OnField(p) ==> b[p] == a[p.y, p.x]
  {
    map p: Point | p in FieldPoints() :: a[p.y, p.x]
  }

  method PutCell(a: array2<Cell>, p: Point, c: Cell)
    requires IsGrid(a) && OnField(p)
    modifies a
    ensures BoardOf(a) == old(BoardOf(a))[p := c]
  {
    a[p.y, p.x] := c;
  }

  /** Copies all cells, row by row; the two arrays may be the same. */
  method CopyGrid(from: array2<Cell>, to: array2<Cell>)
    requires IsGrid(from) && IsGrid(to)
    modifies to
    ensures BoardOf(to) == old(BoardOf(from))
  {
    for i := 0 to FLD_SZ
      invariant forall y, x :: 0 <= y < FLD_SZ && 0 <= x < FLD_SZ ==> from[y, x] == old(from[y, x])
      invariant forall y, x :: 0 <= y < i && 0 <= x < FLD_SZ ==> to[y, x] == from[y, x]
    {
      for j := 0 to FLD_SZ
        invariant forall y, x :: 0 <= y < FLD_SZ && 0 <= x < FLD_SZ ==> from[y, x] == old(from[y, x])
        invariant forall y, x :: 0 <= y < i && 0 <= x < FLD_SZ ==> to[y, x] == from[y, x]
        invariant forall x :: 0 <= x < j ==> to[i, x] == from[i, x]
      {
        to[i, j] := from[i, j];
      }
    }
    assert BoardOf(to) == old(BoardOf(from));
  }
}
