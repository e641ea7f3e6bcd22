/**
 * The cell arithmetic both uniform grids use (CollisionGrid and GravityGrid):
 * a particle at coordinate c lands in column or row static_cast<int>(c / cellSize),
 * and a cell index is used only when it lies inside the grid.
 */
module Grid {
  import opened Arithmetic

  /** static_cast<int> of a real: truncation toward zero. */
  function Trunc(x: real): (r: int)
    ensures x >= 0.0 ==> r as real <= x < r as real + 1.0
    ensures x < 0.0 ==> r as real - 1.0 < x <= r as real
  {
    if x >= 0.0 then x.Floor else -((-x).Floor)
  }

  /** The column (or row) a coordinate falls in. */
  function CellIndex(coord: real, cellSize: int): int
    requires cellSize > 0
  {
    Trunc(coord / cellSize as real)
  }

  /** The bounds check both grids make before touching a cell. */
  predicate InBounds(col: int, row: int, nColumns: int, nRows: int) {
    0 <= col < nColumns && 0 <= row < nRows
  }

  /**
   * A coordinate gets an index inside [0, n) exactly when it lies strictly
   * between -cellSize and n * cellSize: because the cast truncates toward
   * zero, the sliver (-cellSize, 0) is folded into index 0 instead of being
   * excluded.
   */
  lemma CellIndexInRange(coord: real, cellSize: int, n: int)
    requires cellSize > 0 && n >= 1
    ensures 0 <= CellIndex(coord, cellSize) < n <==>
      -(cellSize as real) < coord < (n as real) * (cellSize as real)
  {
    var cs := cellSize as real;
    var q := coord / cs;
    TruncInRange(q, n);
    QuotientBounds(coord, cs, q, n as real);
  }

  /** Coordinates in (-cellSize, 0) are put in index 0. */
  lemma NegativeSliverToZero(coord: real, cellSize: int)
    requires cellSize > 0
    requires -(cellSize as real) < coord < 0.0
    ensures CellIndex(coord, cellSize) == 0
  {
    var cs := cellSize as real;
    var q := coord / cs;
    QuotientBounds(coord, cs, q, 1.0);
    assert -1.0 < q < 0.0 by {
      if q >= 0.0 { MulLe(0.0, q, cs); }
    }
  }

  /** For a coordinate at or right of zero, the cell [i*cellSize, (i+1)*cellSize) holds it. */
  lemma CellIndexBrackets(coord: real, cellSize: int)
    requires cellSize > 0 && coord >= 0.0
    ensures var i := CellIndex(coord, cellSize) as real;
      i * (cellSize as real) <= coord < (i + 1.0) * (cellSize as real)
  {
    var cs := cellSize as real;
    var q := coord / cs;
    var i := Trunc(q) as real;
    assert q >= 0.0 by {
      if q < 0.0 { MulLt(q, 0.0, cs); }
    }
    Brackets(coord, cs, q, i);
  }

  /** Truncation lands in [0, n) exactly for reals strictly between -1 and n. */
  lemma TruncInRange(q: real, n: int)
    requires n >= 1
    ensures 0 <= Trunc(q) < n <==> -1.0 < q < n as real
  {
    var r := Trunc(q);
    if q >= 0.0 {
      assert r < n <==> q < n as real;
    }
  }

  /** With q = coord / cs: -cs < coord iff -1 < q, and coord < b * cs iff q < b. */
  lemma QuotientBounds(coord: real, cs: real, q: real, b: real)
    requires cs > 0.0 && q == coord / cs
    ensures -cs < coord <==> -1.0 < q
    ensures coord < b * cs <==> q < b
  {
    assert q * cs == coord;
    if q <= -1.0 { MulLe(q, -1.0, cs); }
    if -1.0 < q { MulLt(-1.0, q, cs); }
    if q >= b { MulLe(b, q, cs); }
    if q < b { MulLt(q, b, cs); }
  }

  lemma Brackets(coord: real, cs: real, q: real, i: real)
    requires cs > 0.0 && q == coord / cs && i <= q < i + 1.0
    ensures i * cs <= coord < (i + 1.0) * cs
  {
    assert q * cs == coord;
    MulLe(i, q, cs);
    MulLt(q, i + 1.0, cs);
  }
}
