/** The height grid: an n-by-n matrix of reals in which a negative value marks an unset cell. */
module Grids {
  import opened Regions

  type Grid = seq<seq<real>>

  /** The value every cell except the corners starts with. The generator uses the most
      negative double; only its sign matters, since every test is `< 0`. */
  const Unset: real := -1.0

  /** Square: n rows of n cells each. */
  predicate WellFormed(g: Grid) {
    forall i :: 0 <= i < |g| ==> |g[i]| == |g|
  }

  predicate SameSize(g: Grid, h: Grid) {
    WellFormed(g) && WellFormed(h) && |g| == |h|
  }

  /** g with cell (i, j) set to v. */
  function Update(g: Grid, i: int, j: int, v: real): (h: Grid)
    requires WellFormed(g) && 0 <= i < |g| && 0 <= j < |g|
    ensures SameSize(g, h)
    ensures h[i][j] == v
    ensures forall a, b :: 0 <= a < |g| && 0 <= b < |g| && (a != i || b != j) ==> h[a][b] == g[a][b]
  {
    g[i := g[i][j := v]]
  }

  /** From g to h every cell keeps its value or goes from unset to a non-negative value:
      a set cell is never written again, and every written value is non-negative. */
  predicate Settles(g: Grid, h: Grid) {
    && SameSize(g, h)
    && forall i, j :: 0 <= i < |g| && 0 <= j < |g| ==>
         h[i][j] == g[i][j] || (g[i][j] < 0.0 && h[i][j] >= 0.0)
  }

  /** From g to h no cell outside rg changes. */
  predicate UnchangedOutside(g: Grid, h: Grid, rg: Region) {
    && SameSize(g, h)
    && forall i, j :: 0 <= i < |g| && 0 <= j < |g| && !rg.Contains(i, j) ==> h[i][j] == g[i][j]
  }

  /** Every cell of rg is set. */
  predicate SetOn(g: Grid, rg: Region) {
    forall i, j :: 0 <= i < |g| && 0 <= j < |g[i]| && rg.Contains(i, j) ==> g[i][j] >= 0.0
  }

  /** The four corners of rg are set. */
  predicate CornersSet(g: Grid, rg: Region)
    requires WellFormed(g) && 0 <= rg.row1 <= rg.row2 < |g| && 0 <= rg.col1 <= rg.col2 < |g|
  {
    && g[rg.row1][rg.col1] >= 0.0 && g[rg.row1][rg.col2] >= 0.0
    && g[rg.row2][rg.col1] >= 0.0 && g[rg.row2][rg.col2] >= 0.0
  }

  /** The middle cell of rg is set. */
  predicate CentreSet(g: Grid, rg: Region)
    requires WellFormed(g) && rg.Valid(|g|)
  {
    ValidSplittable(rg, |g|);
    g[rg.MidRow()][rg.MidCol()] >= 0.0
  }

  /** The corners of the four quadrants of rg (the nine points of its 3-by-3 lattice) are
      set. */
  predicate QuadrantCornersSet(g: Grid, rg: Region)
    requires WellFormed(g) && rg.Valid(|g|) && rg.Side() != 2
  {
    QuadrantsValid(rg, |g|);
    && CornersSet(g, rg.TopLeft()) && CornersSet(g, rg.TopRight())
    && CornersSet(g, rg.BottomLeft()) && CornersSet(g, rg.BottomRight())
  }

  /** The nine points of the 3-by-3 lattice of rg are set: corners, edge midpoints, centre. */
  predicate LatticeSet(g: Grid, rg: Region)
    requires WellFormed(g) && rg.Valid(|g|)
  {
    ValidSplittable(rg, |g|);
    && CornersSet(g, rg) && CentreSet(g, rg)
    && g[rg.row1][rg.MidCol()] >= 0.0 && g[rg.row2][rg.MidCol()] >= 0.0
    && g[rg.MidRow()][rg.col1] >= 0.0 && g[rg.MidRow()][rg.col2] >= 0.0
  }

  /** In a region of side 2 the lattice is the whole region. */
  lemma LatticeCoversBase(g: Grid, rg: Region)
    requires WellFormed(g) && rg.Valid(|g|) && rg.Side() == 2
    requires LatticeSet(g, rg)
    ensures SetOn(g, rg)
  {
    forall i, j | 0 <= i < |g| && 0 <= j < |g[i]| && rg.Contains(i, j)
      ensures g[i][j] >= 0.0
    {
      assert i == rg.row1 || i == rg.MidRow() || i == rg.row2;
      assert j == rg.col1 || j == rg.MidCol() || j == rg.col2;
    }
  }

  /** The lattice of rg holds the corners of its quadrants. */
  lemma LatticeQuadrants(g: Grid, rg: Region)
    requires WellFormed(g) && rg.Valid(|g|) && rg.Side() != 2
    requires LatticeSet(g, rg)
    ensures QuadrantCornersSet(g, rg)
  {
  }

  /** No cell exceeds b. */
  predicate AtMost(g: Grid, b: real) {
    forall i, j :: 0 <= i < |g| && 0 <= j < |g[i]| ==> g[i][j] <= b
  }

  lemma SettlesTrans(g1: Grid, g2: Grid, g3: Grid)
    requires Settles(g1, g2) && Settles(g2, g3)
    ensures Settles(g1, g3)
  {
  }

  /** Settled cells stay settled. */
  lemma SetOnStable(g: Grid, h: Grid, rg: Region)
    requires Settles(g, h) && SetOn(g, rg)
    ensures SetOn(h, rg)
  {
  }

  /** Confinement to a quadrant is confinement to the enclosing region. */
  lemma UnchangedOutsideWiden(g: Grid, h: Grid, small: Region, big: Region)
    requires UnchangedOutside(g, h, small)
    requires forall i, j :: small.Contains(i, j) ==> big.Contains(i, j)
    ensures UnchangedOutside(g, h, big)
  {
  }

  lemma UnchangedOutsideTrans(g1: Grid, g2: Grid, g3: Grid, rg: Region)
    requires UnchangedOutside(g1, g2, rg) && UnchangedOutside(g2, g3, rg)
    ensures UnchangedOutside(g1, g3, rg)
  {
  }
}
