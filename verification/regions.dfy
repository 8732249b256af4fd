/** Square sub-regions of the grid, given by two opposite corners (row1, col1)-(row2, col2). */
module Regions {
  import opened Powers

  datatype Region = Region(row1: int, col1: int, row2: int, col2: int) {

    function Side(): int { row2 - row1 }

    /** Square, with an even side of at least 2, so that it has a middle cell. */
    predicate Splittable() {
      row2 - row1 == col2 - col1 && row2 - row1 >= 2 && (row2 - row1) % 2 == 0
    }

    /** A region the recursion accepts inside an n-by-n grid: square, in bounds,
        and of power-of-two side at least 2 so that halving ends at side 2. */
    predicate Valid(n: int) {
      && 0 <= row1 && 0 <= col1 && row2 < n && col2 < n
      && row2 - row1 == col2 - col1
      && row2 - row1 >= 2 && IsPow2(row2 - row1)
    }

    predicate Contains(i: int, j: int) {
      row1 <= i <= row2 && col1 <= j <= col2
    }

    function MidRow(): int
      requires Splittable()
    {
      Mid(row1, row2)
    }

    function MidCol(): int
      requires Splittable()
    {
      Mid(col1, col2)
    }

    function TopLeft(): (q: Region)
      requires Splittable()
      ensures q.Side() == Side() / 2 == q.col2 - q.col1
      ensures forall i, j :: q.Contains(i, j) ==> Contains(i, j)
    {
      Region(row1, col1, MidRow(), MidCol())
    }

    function TopRight(): (q: Region)
      requires Splittable()
      ensures q.Side() == Side() / 2 == q.col2 - q.col1
      ensures forall i, j :: q.Contains(i, j) ==> Contains(i, j)
    {
      Region(row1, MidCol(), MidRow(), col2)
    }

    function BottomLeft(): (q: Region)
      requires Splittable()
      ensures q.Side() == Side() / 2 == q.col2 - q.col1
      ensures forall i, j :: q.Contains(i, j) ==> Contains(i, j)
    {
      Region(MidRow(), col1, row2, MidCol())
    }

    function BottomRight(): (q: Region)
      requires Splittable()
      ensures q.Side() == Side() / 2 == q.col2 - q.col1
      ensures forall i, j :: q.Contains(i, j) ==> Contains(i, j)
    {
      Region(MidRow(), MidCol(), row2, col2)
    }
  }

  /** The middle index of [lo, hi], computed as the generator does, `hi - (hi - lo) / 2`:
      for an even span it is the exact midpoint and lies strictly inside. */
  function Mid(lo: int, hi: int): (m: int)
    requires hi - lo >= 2 && (hi - lo) % 2 == 0
    ensures m == (lo + hi) / 2
    ensures lo < m < hi
    ensures m - lo == hi - m == (hi - lo) / 2
  {
    hi - (hi - lo) / 2
  }

  /** A valid region is splittable. */
  lemma ValidSplittable(rg: Region, n: int)
    requires rg.Valid(n)
    ensures rg.Splittable()
  {
    HalvePow2(rg.Side());
  }

  /** Halving a valid region of side above 2 gives four valid regions. */
  lemma QuadrantsValid(rg: Region, n: int)
    requires rg.Valid(n) && rg.Side() != 2
    ensures rg.Splittable()
    ensures rg.TopLeft().Valid(n) && rg.TopRight().Valid(n)
    ensures rg.BottomLeft().Valid(n) && rg.BottomRight().Valid(n)
  {
    HalvePow2(rg.Side());
  }

  /** The four quadrants together cover their region: they share the middle row and column. */
  lemma QuadrantsCover(rg: Region, i: int, j: int)
    requires rg.Splittable() && rg.Contains(i, j)
    ensures || rg.TopLeft().Contains(i, j) || rg.TopRight().Contains(i, j)
            || rg.BottomLeft().Contains(i, j) || rg.BottomRight().Contains(i, j)
  {
  }
}
