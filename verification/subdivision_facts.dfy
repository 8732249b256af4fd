/** What the diamond-square recursion guarantees: it writes only inside its region and only
    unset cells, it leaves every cell of its region set when the corners were set, every
    write is its mean displaced by at most the amplitude of its level, and with amplitude 0
    no value exceeds the largest value already present. */
module SubdivisionFacts {
  import opened Powers
  import opened Regions
  import opened Grids
  import opened Subdivision

  /** From s to r the run only settles cells of rg: the grid settles, the log grows by one
      entry per draw, and no cell outside rg changes. */
  predicate Confined(s: State, r: State, rg: Region) {
    Extends(s, r) && UnchangedOutside(s.grid, r.grid, rg)
  }

  /** A confined run on rg followed by a confined run on a quadrant of rg is confined to rg. */
  lemma ConfinedThen(a: State, b: State, c: State, q: Region, rg: Region)
    requires Confined(a, b, rg) && Confined(b, c, q)
    requires forall i, j :: q.Contains(i, j) ==> rg.Contains(i, j)
    ensures Confined(a, c, rg)
  {
    ExtendsTrans(a, b, c);
    UnchangedOutsideWiden(b.grid, c.grid, q, rg);
    UnchangedOutsideTrans(a.grid, b.grid, c.grid, rg);
  }

  /** Raising the unset-read flag is a confined step. */
  lemma FlagConfined(s: State, b: bool, rg: Region)
    requires WellFormed(s.grid)
    ensures Confined(s, s.(sawUnset := s.sawUnset || b), rg)
  {
    assert s.log[..|s.log|] == s.log;
  }

  /** Guarded writes of targets inside rg are confined to rg. */
  lemma FillAllConfined(s: State, ts: seq<Target>, side: int, rand: real, draws: Draws, rg: Region)
    requires WellFormed(s.grid) && InGrid(s.grid, ts)
    requires forall k :: 0 <= k < |ts| ==> rg.Contains(ts[k].row, ts[k].col)
    ensures Confined(s, FillAll(s, ts, side, rand, draws), rg)
  {
    var r := FillAll(s, ts, side, rand, draws);
    FillAllExtends(s, ts, side, rand, draws);
    FillAllFrame(s, ts, side, rand, draws);
    forall a, b | 0 <= a < |s.grid| && 0 <= b < |s.grid| && !rg.Contains(a, b)
      ensures r.grid[a][b] == s.grid[a][b]
    {
      MissesAll(ts, a, b);
    }
  }

  /** The diamond step writes at most the centre of rg, an unset cell, with a
      non-negative value. */
  lemma DiamondFillConfined(s: State, rg: Region, rand: real, draws: Draws)
    requires WellFormed(s.grid) && rg.Valid(|s.grid|)
    ensures Confined(s, DiamondFill(s, rg, rand, draws), rg)
  {
    ValidSplittable(rg, |s.grid|);
    var misread := s.grid[rg.MidRow()][rg.MidCol()] < 0.0 && !CornersSet(s.grid, rg);
    var s0 := s.(sawUnset := s.sawUnset || misread);
    FlagConfined(s, misread, rg);
    FillAllConfined(s0, CentreTarget(s.grid, rg), rg.Side(), rand, draws, rg);
    ConfinedThen(s, s0, DiamondFill(s, rg, rand, draws), rg, rg);
  }

  /** After the diamond step the centre of rg is set; if the corners were set, they still
      are and no unset value was read. */
  lemma DiamondFillSets(s: State, rg: Region, rand: real, draws: Draws)
    requires WellFormed(s.grid) && rg.Valid(|s.grid|)
    ensures var r := DiamondFill(s, rg, rand, draws);
      && CentreSet(r.grid, rg)
      && (CornersSet(s.grid, rg) && !s.sawUnset ==> CornersSet(r.grid, rg) && !r.sawUnset)
  {
    ValidSplittable(rg, |s.grid|);
    var misread := s.grid[rg.MidRow()][rg.MidCol()] < 0.0 && !CornersSet(s.grid, rg);
    var s0 := s.(sawUnset := s.sawUnset || misread);
    var ts := CentreTarget(s.grid, rg);
    FillAllExtends(s0, ts, rg.Side(), rand, draws);
    FillAllFrame(s0, ts, rg.Side(), rand, draws);
  }

  /** The centre of rg, if unset, receives the mean of the four corners displaced by at
      most rand (after the clamp), and exactly the clamped mean when rand is 0. */
  lemma DiamondFillValue(s: State, rg: Region, rand: real, draws: Draws)
    requires WellFormed(s.grid) && rg.Valid(|s.grid|)
    ensures rg.Splittable()
    ensures var r := DiamondFill(s, rg, rand, draws);
      WrittenFrom(s.grid, r.grid, rg.MidRow(), rg.MidCol(), CornerMean(s.grid, rg), rand, draws)
  {
    ValidSplittable(rg, |s.grid|);
    var misread := s.grid[rg.MidRow()][rg.MidCol()] < 0.0 && !CornersSet(s.grid, rg);
    var s0 := s.(sawUnset := s.sawUnset || misread);
    var ts := CentreTarget(s.grid, rg);
    FillAllValues(s0, ts, rg.Side(), rand, draws);
    assert ts[0] == Target(rg.MidRow(), rg.MidCol(), CornerMean(s.grid, rg));
  }

  /** The square step writes at most the edge midpoints of rg, unset cells, with
      non-negative values. */
  lemma SquareFillConfined(s: State, rg: Region, rand: real, draws: Draws)
    requires WellFormed(s.grid) && rg.Valid(|s.grid|)
    ensures Confined(s, SquareFill(s, rg, rand, draws), rg)
  {
    ValidSplittable(rg, |s.grid|);
    var misread := s.grid[rg.MidRow()][rg.MidCol()] < 0.0 || !CornersSet(s.grid, rg);
    var s0 := s.(sawUnset := s.sawUnset || misread);
    FlagConfined(s, misread, rg);
    FillAllConfined(s0, EdgeTargets(s.grid, rg), rg.Side(), rand, draws, rg);
    ConfinedThen(s, s0, SquareFill(s, rg, rand, draws), rg, rg);
  }

  /** After the square step the four edge midpoints of rg are set; if the corners and the
      centre were set, the whole lattice is and no unset value was read. */
  lemma SquareFillSets(s: State, rg: Region, rand: real, draws: Draws)
    requires WellFormed(s.grid) && rg.Valid(|s.grid|)
    ensures rg.Splittable()
    ensures var r := SquareFill(s, rg, rand, draws);
      && r.grid[rg.row1][rg.MidCol()] >= 0.0 && r.grid[rg.row2][rg.MidCol()] >= 0.0
      && r.grid[rg.MidRow()][rg.col1] >= 0.0 && r.grid[rg.MidRow()][rg.col2] >= 0.0
      && (CornersSet(s.grid, rg) && CentreSet(s.grid, rg) && !s.sawUnset ==>
            LatticeSet(r.grid, rg) && !r.sawUnset)
  {
    ValidSplittable(rg, |s.grid|);
    var misread := s.grid[rg.MidRow()][rg.MidCol()] < 0.0 || !CornersSet(s.grid, rg);
    var s0 := s.(sawUnset := s.sawUnset || misread);
    var ts := EdgeTargets(s.grid, rg);
    FillAllExtends(s0, ts, rg.Side(), rand, draws);
    FillAllFrame(s0, ts, rg.Side(), rand, draws);
    assert ts[0].row == rg.row1 && ts[0].col == rg.MidCol();
    assert ts[1].row == rg.row2 && ts[1].col == rg.MidCol();
    assert ts[2].row == rg.MidRow() && ts[2].col == rg.col1;
    assert ts[3].row == rg.MidRow() && ts[3].col == rg.col2;
  }

  /** Each edge midpoint of rg, if unset, receives the mean that EdgeTargets gives it (of
      its two corners and the centre, all read before the step), displaced by at most
      rand after the clamp, and exactly the clamped mean when rand is 0. */
  lemma SquareFillValues(s: State, rg: Region, rand: real, draws: Draws)
    requires WellFormed(s.grid) && rg.Valid(|s.grid|)
    ensures var r := SquareFill(s, rg, rand, draws);
      var ts := EdgeTargets(s.grid, rg);
      forall k :: 0 <= k < 4 ==> WrittenFrom(s.grid, r.grid, ts[k].row, ts[k].col, ts[k].mean, rand, draws)
  {
    ValidSplittable(rg, |s.grid|);
    var misread := s.grid[rg.MidRow()][rg.MidCol()] < 0.0 || !CornersSet(s.grid, rg);
    var s0 := s.(sawUnset := s.sawUnset || misread);
    FillAllValues(s0, EdgeTargets(s.grid, rg), rg.Side(), rand, draws);
  }

  /** Diamond writes only inside rg and only unset cells, with non-negative values, one
      draw per write. */
  lemma {:induction false} DiamondFrame(s: State, rg: Region, rand: real, draws: Draws)
    requires WellFormed(s.grid) && rg.Valid(|s.grid|)
    ensures Confined(s, Diamond(s, rg, rand, draws), rg)
    decreases rg.Side(), 2
  {
    var d := DiamondFill(s, rg, rand, draws);
    DiamondFillConfined(s, rg, rand, draws);
    SquareFrame(d, rg, rand, draws);
    ConfinedThen(s, d, Square(d, rg, rand, draws), rg, rg);
  }

  /** The same for Square. */
  lemma {:induction false} SquareFrame(s: State, rg: Region, rand: real, draws: Draws)
    requires WellFormed(s.grid) && rg.Valid(|s.grid|)
    ensures Confined(s, Square(s, rg, rand, draws), rg)
    decreases rg.Side(), 1
  {
    var e := SquareFill(s, rg, rand, draws);
    SquareFillConfined(s, rg, rand, draws);
    if rg.row1 + 2 != rg.row2 {
      QuadrantsFrame(e, rg, rand / 2.0, draws);
      ConfinedThen(s, e, Quadrants(e, rg, rand / 2.0, draws), rg, rg);
    }
  }

  /** The same for the four quadrant calls. */
  lemma {:induction false} QuadrantsFrame(s: State, rg: Region, rand: real, draws: Draws)
    requires WellFormed(s.grid) && rg.Valid(|s.grid|) && rg.Side() != 2
    ensures Confined(s, Quadrants(s, rg, rand, draws), rg)
    decreases rg.Side(), 0
  {
    QuadrantsValid(rg, |s.grid|);
    var q1 := Diamond(s, rg.TopLeft(), rand, draws);
    var q2 := Diamond(q1, rg.TopRight(), rand, draws);
    var q3 := Diamond(q2, rg.BottomLeft(), rand, draws);
    var q4 := Diamond(q3, rg.BottomRight(), rand, draws);
    DiamondFrame(s, rg.TopLeft(), rand, draws);
    ExtendsRefl(s);
    ConfinedThen(s, s, q1, rg.TopLeft(), rg);
    DiamondFrame(q1, rg.TopRight(), rand, draws);
    ConfinedThen(s, q1, q2, rg.TopRight(), rg);
    DiamondFrame(q2, rg.BottomLeft(), rand, draws);
    ConfinedThen(s, q2, q3, rg.BottomLeft(), rg);
    DiamondFrame(q3, rg.BottomRight(), rand, draws);
    ConfinedThen(s, q3, q4, rg.BottomRight(), rg);
  }

  /** Every cell of rg is set and no unset value was read on the way. */
  predicate Covered(r: State, rg: Region) {
    SetOn(r.grid, rg) && !r.sawUnset
  }

  /** Diamond leaves every cell of rg set, and reads no unset value, when the corners of
      rg were set. */
  lemma {:induction false} DiamondCovers(s: State, rg: Region, rand: real, draws: Draws)
    requires WellFormed(s.grid) && rg.Valid(|s.grid|)
    requires CornersSet(s.grid, rg) && !s.sawUnset
    ensures Covered(Diamond(s, rg, rand, draws), rg)
    decreases rg.Side(), 2
  {
    var d := DiamondFill(s, rg, rand, draws);
    DiamondFillSets(s, rg, rand, draws);
    SquareCovers(d, rg, rand, draws);
  }

  /** Square leaves every cell of rg set, and reads no unset value, when the corners and
      the centre of rg were set. */
  lemma {:induction false} SquareCovers(s: State, rg: Region, rand: real, draws: Draws)
    requires WellFormed(s.grid) && rg.Valid(|s.grid|)
    requires CornersSet(s.grid, rg) && CentreSet(s.grid, rg) && !s.sawUnset
    ensures Covered(Square(s, rg, rand, draws), rg)
    decreases rg.Side(), 1
  {
    var e := SquareFill(s, rg, rand, draws);
    SquareFillSets(s, rg, rand, draws);
    if rg.row1 + 2 == rg.row2 {
      LatticeCoversBase(e.grid, rg);
    } else {
      LatticeQuadrants(e.grid, rg);
      QuadrantsCovers(e, rg, rand / 2.0, draws);
    }
  }

  /** The four quadrant calls leave every cell of rg set, and read no unset value, when
      the corners of every quadrant were set. */
  lemma {:induction false} QuadrantsCovers(s: State, rg: Region, rand: real, draws: Draws)
    requires WellFormed(s.grid) && rg.Valid(|s.grid|) && rg.Side() != 2
    requires QuadrantCornersSet(s.grid, rg) && !s.sawUnset
    ensures Covered(Quadrants(s, rg, rand, draws), rg)
    decreases rg.Side(), 0
  {
    QuadrantsValid(rg, |s.grid|);
    var q1 := Diamond(s, rg.TopLeft(), rand, draws);
    var q2 := Diamond(q1, rg.TopRight(), rand, draws);
    var q3 := Diamond(q2, rg.BottomLeft(), rand, draws);
    var q4 := Diamond(q3, rg.BottomRight(), rand, draws);
    DiamondFrame(s, rg.TopLeft(), rand, draws);
    DiamondFrame(q1, rg.TopRight(), rand, draws);
    DiamondFrame(q2, rg.BottomLeft(), rand, draws);
    DiamondFrame(q3, rg.BottomRight(), rand, draws);
    DiamondCovers(s, rg.TopLeft(), rand, draws);
    assert CornersSet(q1.grid, rg.TopRight());
    DiamondCovers(q1, rg.TopRight(), rand, draws);
    assert CornersSet(q2.grid, rg.BottomLeft());
    DiamondCovers(q2, rg.BottomLeft(), rand, draws);
    assert CornersSet(q3.grid, rg.BottomRight());
    DiamondCovers(q3, rg.BottomRight(), rand, draws);
    SettlesTrans(q1.grid, q2.grid, q3.grid);
    SettlesTrans(q1.grid, q3.grid, q4.grid);
    SettlesTrans(q2.grid, q3.grid, q4.grid);
    SetOnStable(q1.grid, q4.grid, rg.TopLeft());
    SetOnStable(q2.grid, q4.grid, rg.TopRight());
    SetOnStable(q3.grid, q4.grid, rg.BottomLeft());
    forall i, j | 0 <= i < |q4.grid| && 0 <= j < |q4.grid[i]| && rg.Contains(i, j)
      ensures q4.grid[i][j] >= 0.0
    {
      QuadrantsCover(rg, i, j);
    }
  }

  /** With amplitude 0 the diamond step writes the clamped mean of values at most bound. */
  lemma DiamondFillMax(s: State, rg: Region, rand: real, draws: Draws, bound: real)
    requires WellFormed(s.grid) && rg.Valid(|s.grid|)
    requires rand == 0.0 && bound >= 0.0 && AtMost(s.grid, bound)
    ensures AtMost(DiamondFill(s, rg, rand, draws).grid, bound)
  {
    ValidSplittable(rg, |s.grid|);
    var misread := s.grid[rg.MidRow()][rg.MidCol()] < 0.0 && !CornersSet(s.grid, rg);
    var s0 := s.(sawUnset := s.sawUnset || misread);
    var ts := CentreTarget(s.grid, rg);
    assert ts[0].mean == CornerMean(s.grid, rg) <= bound;
    FillAllMax(s0, ts, rg.Side(), rand, draws, bound);
  }

  /** With amplitude 0 the square step writes clamped means of values at most bound. */
  lemma SquareFillMax(s: State, rg: Region, rand: real, draws: Draws, bound: real)
    requires WellFormed(s.grid) && rg.Valid(|s.grid|)
    requires rand == 0.0 && bound >= 0.0 && AtMost(s.grid, bound)
    ensures AtMost(SquareFill(s, rg, rand, draws).grid, bound)
  {
    ValidSplittable(rg, |s.grid|);
    var misread := s.grid[rg.MidRow()][rg.MidCol()] < 0.0 || !CornersSet(s.grid, rg);
    var s0 := s.(sawUnset := s.sawUnset || misread);
    var ts := EdgeTargets(s.grid, rg);
    var g := s.grid;
    assert g[rg.row1][rg.col1] <= bound && g[rg.row1][rg.col2] <= bound;
    assert g[rg.row2][rg.col1] <= bound && g[rg.row2][rg.col2] <= bound;
    assert g[rg.MidRow()][rg.MidCol()] <= bound;
    FillAllMax(s0, ts, rg.Side(), rand, draws, bound);
  }

  /** Maximum principle: with amplitude 0, Diamond never produces a value above the
      largest value (and 0) already in the grid. */
  lemma {:induction false} DiamondMax(s: State, rg: Region, rand: real, draws: Draws, bound: real)
    requires WellFormed(s.grid) && rg.Valid(|s.grid|)
    requires rand == 0.0 && bound >= 0.0 && AtMost(s.grid, bound)
    ensures AtMost(Diamond(s, rg, rand, draws).grid, bound)
    decreases rg.Side(), 2
  {
    DiamondFillMax(s, rg, rand, draws, bound);
    SquareMax(DiamondFill(s, rg, rand, draws), rg, rand, draws, bound);
  }

  /** The same for Square. */
  lemma {:induction false} SquareMax(s: State, rg: Region, rand: real, draws: Draws, bound: real)
    requires WellFormed(s.grid) && rg.Valid(|s.grid|)
    requires rand == 0.0 && bound >= 0.0 && AtMost(s.grid, bound)
    ensures AtMost(Square(s, rg, rand, draws).grid, bound)
    decreases rg.Side(), 1
  {
    SquareFillMax(s, rg, rand, draws, bound);
    if rg.row1 + 2 != rg.row2 {
      QuadrantsMax(SquareFill(s, rg, rand, draws), rg, rand / 2.0, draws, bound);
    }
  }

  /** The same for the four quadrant calls. */
  lemma {:induction false} QuadrantsMax(s: State, rg: Region, rand: real, draws: Draws, bound: real)
    requires WellFormed(s.grid) && rg.Valid(|s.grid|) && rg.Side() != 2
    requires rand == 0.0 && bound >= 0.0 && AtMost(s.grid, bound)
    ensures AtMost(Quadrants(s, rg, rand, draws).grid, bound)
    decreases rg.Side(), 0
  {
    QuadrantsValid(rg, |s.grid|);
    var q1 := Diamond(s, rg.TopLeft(), rand, draws);
    var q2 := Diamond(q1, rg.TopRight(), rand, draws);
    var q3 := Diamond(q2, rg.BottomLeft(), rand, draws);
    DiamondMax(s, rg.TopLeft(), rand, draws, bound);
    DiamondMax(q1, rg.TopRight(), rand, draws, bound);
    DiamondMax(q2, rg.BottomLeft(), rand, draws, bound);
    DiamondMax(q3, rg.BottomRight(), rand, draws, bound);
  }

  /** The amplitude in force on a sub-region of side `side` of a call on a region of side
      top with amplitude rand: halved once for every halving of the side. */
  function LevelAmplitude(rand: real, top: int, side: int): real
    decreases top
  {
    if side >= top || top < 2 then rand else LevelAmplitude(rand / 2.0, top / 2, side)
  }

  /** The amplitude in force below a call never exceeds the call's own amplitude, and one
      level down or deeper it is at most half of it. */
  lemma {:induction false} LevelAmplitudeBounds(rand: real, top: int, side: int)
    requires rand >= 0.0
    ensures 0.0 <= LevelAmplitude(rand, top, side) <= rand
    ensures side < top && top >= 2 ==> LevelAmplitude(rand, top, side) <= rand / 2.0
    decreases top
  {
    if side < top && top >= 2 {
      LevelAmplitudeBounds(rand / 2.0, top / 2, side);
    }
  }

  /** In closed form: k halvings below the top divide the amplitude by 2^k. */
  lemma {:induction false} LevelAmplitudeClosed(rand: real, side: int, k: nat)
    requires side >= 1
    ensures LevelAmplitude(rand, side * Pow2(k), side) * (Pow2(k) as real) == rand
    decreases k
  {
    if k > 0 {
      var p1 := Pow2(k - 1);
      var top1 := side * p1;
      assert side * Pow2(k) == 2 * top1 && top1 >= side by {
        assert Pow2(k) == 2 * p1;
        assert top1 >= side * 1;
      }
      LevelAmplitudeClosed(rand / 2.0, side, k - 1);
      var a := LevelAmplitude(rand / 2.0, top1, side);
      assert LevelAmplitude(rand, 2 * top1, side) == a;
      assert a * (Pow2(k) as real) == 2.0 * (a * (p1 as real)) by {
        assert (Pow2(k) as real) == 2.0 * (p1 as real);
      }
    }
  }

  /** A write made by a call on rg with amplitude rand, or by one of its nested calls: it
      lies in rg, its level's side is between 2 and the side of rg, its amplitude is the
      level amplitude of its side, and for valid draws it lies within that amplitude of
      its mean. */
  ghost predicate Fits(w: Write, rg: Region, rand: real, draws: Draws) {
    && rg.Contains(w.row, w.col)
    && 2 <= w.side <= rg.Side()
    && w.amplitude == LevelAmplitude(rand, rg.Side(), w.side)
    && (ValidDraws(draws) && rand >= 0.0 ==> Displaced(w))
  }

  /** The entries appended from before to after all fit rg and rand. */
  ghost predicate WritesFit(before: seq<Write>, after: seq<Write>, rg: Region, rand: real, draws: Draws) {
    |before| <= |after| && forall k :: |before| <= k < |after| ==> Fits(after[k], rg, rand, draws)
  }

  /** A write that fits a quadrant with amplitude rand fits the enclosing region with
      amplitude 2 * rand. */
  lemma FitsWiden(w: Write, q: Region, rg: Region, rand: real, draws: Draws)
    requires forall i, j :: q.Contains(i, j) ==> rg.Contains(i, j)
    requires rg.Side() == 2 * q.Side()
    requires Fits(w, q, rand, draws)
    ensures Fits(w, rg, 2.0 * rand, draws)
  {
    assert rg.Side() / 2 == q.Side() && 2.0 * rand / 2.0 == rand;
  }

  /** From s to r the log only grows, every appended write fits rg and rand, and
      agreement of the log with the grid is kept. */
  ghost predicate LogFits(s: State, r: State, rg: Region, rand: real, draws: Draws) {
    && WritesFit(s.log, r.log, rg, rand, draws)
    && r.log[..|s.log|] == s.log
    && (Logged(s) ==> Logged(r))
  }

  lemma LogFitsThen(a: State, b: State, c: State, rg: Region, rand: real, draws: Draws)
    requires LogFits(a, b, rg, rand, draws) && LogFits(b, c, rg, rand, draws)
    ensures LogFits(a, c, rg, rand, draws)
  {
    forall k | |a.log| <= k < |b.log|
      ensures Fits(c.log[k], rg, rand, draws)
    {
      assert c.log[k] == c.log[..|b.log|][k];
    }
    assert c.log[..|a.log|] == c.log[..|b.log|][..|a.log|];
  }

  /** The writes of a run on a quadrant fit the enclosing region with twice the amplitude. */
  lemma WritesFitWiden(b: seq<Write>, c: seq<Write>, q: Region, rg: Region, rand: real, draws: Draws)
    requires forall i, j :: q.Contains(i, j) ==> rg.Contains(i, j)
    requires rg.Side() == 2 * q.Side()
    requires WritesFit(b, c, q, rand, draws)
    ensures WritesFit(b, c, rg, 2.0 * rand, draws)
  {
    forall k | |b| <= k < |c|
      ensures Fits(c[k], rg, 2.0 * rand, draws)
    {
      FitsWiden(c[k], q, rg, rand, draws);
    }
  }

  /** Guarded writes of targets inside rg, made with the side of rg and amplitude rand,
      fit rg and rand. */
  lemma FillAllFits(s: State, ts: seq<Target>, rg: Region, rand: real, draws: Draws)
    requires WellFormed(s.grid) && InGrid(s.grid, ts) && rg.Side() >= 2
    requires forall k :: 0 <= k < |ts| ==> rg.Contains(ts[k].row, ts[k].col)
    ensures WritesFit(s.log, FillAll(s, ts, rg.Side(), rand, draws).log, rg, rand, draws)
  {
    var r := FillAll(s, ts, rg.Side(), rand, draws);
    FillAllLog(s, ts, rg.Side(), rand, draws);
    forall k | |s.log| <= k < |r.log|
      ensures Fits(r.log[k], rg, rand, draws)
    {
      var w := r.log[k];
      assert Target(w.row, w.col, w.mean) in ts;
    }
  }

  /** The diamond step's write fits rg and rand, and keeps the log in agreement with the
      grid. */
  lemma DiamondFillLog(s: State, rg: Region, rand: real, draws: Draws)
    requires WellFormed(s.grid) && rg.Valid(|s.grid|)
    ensures LogFits(s, DiamondFill(s, rg, rand, draws), rg, rand, draws)
  {
    ValidSplittable(rg, |s.grid|);
    var misread := s.grid[rg.MidRow()][rg.MidCol()] < 0.0 && !CornersSet(s.grid, rg);
    var s0 := s.(sawUnset := s.sawUnset || misread);
    FillAllFits(s0, CentreTarget(s.grid, rg), rg, rand, draws);
    FillAllExtends(s0, CentreTarget(s.grid, rg), rg.Side(), rand, draws);
    if Logged(s) {
      FillAllLogged(s0, CentreTarget(s.grid, rg), rg.Side(), rand, draws);
    }
  }

  /** The square step's writes fit rg and rand, and keep the log in agreement with the
      grid. */
  lemma SquareFillLog(s: State, rg: Region, rand: real, draws: Draws)
    requires WellFormed(s.grid) && rg.Valid(|s.grid|)
    ensures LogFits(s, SquareFill(s, rg, rand, draws), rg, rand, draws)
  {
    ValidSplittable(rg, |s.grid|);
    var misread := s.grid[rg.MidRow()][rg.MidCol()] < 0.0 || !CornersSet(s.grid, rg);
    var s0 := s.(sawUnset := s.sawUnset || misread);
    FillAllFits(s0, EdgeTargets(s.grid, rg), rg, rand, draws);
    FillAllExtends(s0, EdgeTargets(s.grid, rg), rg.Side(), rand, draws);
    if Logged(s) {
      FillAllLogged(s0, EdgeTargets(s.grid, rg), rg.Side(), rand, draws);
    }
  }

  /** Every write of Diamond on rg with amplitude rand fits rg and rand: the amplitude of a
      write on a sub-region of side k is rand * k / side; and the log stays in agreement
      with the grid, so no cell is written twice. */
  lemma {:induction false} DiamondLog(s: State, rg: Region, rand: real, draws: Draws)
    requires WellFormed(s.grid) && rg.Valid(|s.grid|)
    ensures LogFits(s, Diamond(s, rg, rand, draws), rg, rand, draws)
    decreases rg.Side(), 2
  {
    var d := DiamondFill(s, rg, rand, draws);
    DiamondFillLog(s, rg, rand, draws);
    SquareLog(d, rg, rand, draws);
    LogFitsThen(s, d, Square(d, rg, rand, draws), rg, rand, draws);
  }

  /** The same for Square. */
  lemma {:induction false} SquareLog(s: State, rg: Region, rand: real, draws: Draws)
    requires WellFormed(s.grid) && rg.Valid(|s.grid|)
    ensures LogFits(s, Square(s, rg, rand, draws), rg, rand, draws)
    decreases rg.Side(), 1
  {
    var e := SquareFill(s, rg, rand, draws);
    SquareFillLog(s, rg, rand, draws);
    if rg.row1 + 2 != rg.row2 {
      QuadrantsLog(e, rg, rand / 2.0, draws);
      assert 2.0 * (rand / 2.0) == rand;
      LogFitsThen(s, e, Quadrants(e, rg, rand / 2.0, draws), rg, rand, draws);
    }
  }

  /** The four quadrant calls with amplitude rand write what fits rg with amplitude
      2 * rand, the amplitude of the Square call they belong to. */
  lemma {:induction false} QuadrantsLog(s: State, rg: Region, rand: real, draws: Draws)
    requires WellFormed(s.grid) && rg.Valid(|s.grid|) && rg.Side() != 2
    ensures LogFits(s, Quadrants(s, rg, rand, draws), rg, 2.0 * rand, draws)
    decreases rg.Side(), 0
  {
    QuadrantsValid(rg, |s.grid|);
    var q1 := Diamond(s, rg.TopLeft(), rand, draws);
    var q2 := Diamond(q1, rg.TopRight(), rand, draws);
    var q3 := Diamond(q2, rg.BottomLeft(), rand, draws);
    assert s.log[..|s.log|] == s.log;
    QuadrantThen(s, s, rg.TopLeft(), rg, rand, draws);
    QuadrantThen(s, q1, rg.TopRight(), rg, rand, draws);
    QuadrantThen(s, q2, rg.BottomLeft(), rg, rand, draws);
    QuadrantThen(s, q3, rg.BottomRight(), rg, rand, draws);
  }

  /** One more quadrant call, seen from the enclosing region. */
  lemma {:induction false} QuadrantThen(s: State, b: State, q: Region, rg: Region, rand: real, draws: Draws)
    requires WellFormed(b.grid) && q.Valid(|b.grid|)
    requires forall i, j :: q.Contains(i, j) ==> rg.Contains(i, j)
    requires rg.Side() == 2 * q.Side()
    requires LogFits(s, b, rg, 2.0 * rand, draws)
    ensures LogFits(s, Diamond(b, q, rand, draws), rg, 2.0 * rand, draws)
    decreases q.Side(), 3
  {
    var r := Diamond(b, q, rand, draws);
    DiamondLog(b, q, rand, draws);
    WritesFitWiden(b.log, r.log, q, rg, rand, draws);
    LogFitsThen(s, b, r, rg, 2.0 * rand, draws);
  }
}
