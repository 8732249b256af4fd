/** The diamond-square recursion of the heightmap generator (Diamond and Square), over an
    immutable grid, with the random source given as an explicit stream of draws. */
module Subdivision {
  import opened Powers
  import opened Regions
  import opened Grids

  /** The random source: the k-th call of NextDouble returns draws(k). */
  type Draws = nat -> real

  /** Every draw lies in [0, 1), as NextDouble promises. */
  ghost predicate ValidDraws(draws: Draws) {
    forall k: nat :: 0.0 <= draws(k) < 1.0
  }

  /** One assignment of a cell: where, by a call on a region of which side, with which
      displacement amplitude, from which mean, and the value stored. */
  datatype Write = Write(row: int, col: int, side: int, amplitude: real, mean: real, value: real)

  /** The generator's state during the recursion: the grid and the number of draws taken
      so far, plus three observations of the run: the writes in order, the number of
      nested Diamond levels of the last call, and whether any value that entered a mean
      was unset when it was read. */
  datatype State = State(grid: Grid, pos: nat, log: seq<Write>, depth: nat, sawUnset: bool)

  /** The floor clamp `v < 0 ? 0 : v`. */
  function Clamp(v: real): (r: real)
    ensures r >= 0.0 && r >= v
    ensures v >= 0.0 ==> r == v
    ensures v < 0.0 ==> r == 0.0
  {
    if v < 0.0 then 0.0 else v
  }

  /** A draw u in [0, 1) scales a non-negative amplitude to at most itself, and a
      positive one to strictly less. */
  lemma ScaledDraw(u: real, rand: real)
    ensures 0.0 <= u < 1.0 && rand >= 0.0 ==> 0.0 <= u * rand <= rand
    ensures 0.0 <= u < 1.0 && rand > 0.0 ==> u * rand < rand
  {
    if 0.0 <= u < 1.0 && rand >= 0.0 {
      assert rand - u * rand == (1.0 - u) * rand;
    }
  }

  /** The random displacement `u * rand * 2 - rand` for a draw u: within [-rand, rand). */
  function Displacement(u: real, rand: real): (d: real)
    ensures 0.0 <= u < 1.0 && rand >= 0.0 ==> -rand <= d <= rand
    ensures 0.0 <= u < 1.0 && rand > 0.0 ==> d < rand
    ensures rand == 0.0 ==> d == 0.0
  {
    ScaledDraw(u, rand);
    u * rand * 2.0 - rand
  }

  /** A written value lies within the displacement amplitude of its mean, after the clamp. */
  predicate Displaced(w: Write) {
    Clamp(w.mean - w.amplitude) <= w.value <= Clamp(w.mean + w.amplitude)
  }

  /** r follows s: the grid only settles (no set cell changes, every new value is
      non-negative), the log only grows, one draw is taken per write, and an unset read
      once observed stays observed. */
  predicate Extends(s: State, r: State) {
    && Settles(s.grid, r.grid)
    && |s.log| <= |r.log| && r.log[..|s.log|] == s.log
    && r.pos == s.pos + (|r.log| - |s.log|)
    && (s.sawUnset ==> r.sawUnset)
  }

  /** The log agrees with the grid: every logged cell holds its logged, non-negative
      value, and no cell is logged twice. */
  predicate Logged(st: State) {
    && WellFormed(st.grid)
    && (forall k :: 0 <= k < |st.log| ==>
          && 0 <= st.log[k].row < |st.grid| && 0 <= st.log[k].col < |st.grid|
          && st.log[k].value >= 0.0
          && st.grid[st.log[k].row][st.log[k].col] == st.log[k].value)
    && (forall a, b :: 0 <= a < b < |st.log| ==>
          st.log[a].row != st.log[b].row || st.log[a].col != st.log[b].col)
  }

  /** If cell (a, b) was unset in g, then in h it holds the clamp of mean displaced by at
      most rand (for valid draws), and exactly the clamped mean when rand is 0. */
  ghost predicate WrittenFrom(g: Grid, h: Grid, a: int, b: int, mean: real, rand: real, draws: Draws)
    requires SameSize(g, h) && 0 <= a < |g| && 0 <= b < |g|
  {
    g[a][b] < 0.0 ==>
      && (ValidDraws(draws) && rand >= 0.0 ==> Clamp(mean - rand) <= h[a][b] <= Clamp(mean + rand))
      && (rand == 0.0 ==> h[a][b] == Clamp(mean))
  }

  lemma ExtendsRefl(s: State)
    requires WellFormed(s.grid)
    ensures Extends(s, s)
  {
    assert s.log[..|s.log|] == s.log;
  }

  lemma ExtendsTrans(a: State, b: State, c: State)
    requires Extends(a, b) && Extends(b, c)
    ensures Extends(a, c)
  {
    SettlesTrans(a.grid, b.grid, c.grid);
    assert c.log[..|a.log|] == c.log[..|b.log|][..|a.log|];
  }

  /** The guarded write of one cell: if it is still unset, take the next draw and store
      the clamped displaced mean; otherwise leave everything as it is. */
  function Fill(s: State, i: int, j: int, side: int, mean: real, rand: real, draws: Draws): (r: State)
    requires WellFormed(s.grid) && 0 <= i < |s.grid| && 0 <= j < |s.grid|
    ensures SameSize(s.grid, r.grid)
    ensures forall a, b :: 0 <= a < |s.grid| && 0 <= b < |s.grid| && (a != i || b != j) ==>
              r.grid[a][b] == s.grid[a][b]
    ensures r.grid[i][j] >= 0.0
    ensures s.grid[i][j] >= 0.0 ==> r == s
    ensures r.depth == s.depth && r.sawUnset == s.sawUnset
  {
    if s.grid[i][j] < 0.0 then
      var v := Clamp(mean + Displacement(draws(s.pos), rand));
      s.(grid := Update(s.grid, i, j, v), pos := s.pos + 1,
         log := s.log + [Write(i, j, side, rand, mean, v)])
    else
      s
  }

  lemma FillExtends(s: State, i: int, j: int, side: int, mean: real, rand: real, draws: Draws)
    requires WellFormed(s.grid) && 0 <= i < |s.grid| && 0 <= j < |s.grid|
    ensures Extends(s, Fill(s, i, j, side, mean, rand, draws))
  {
    var r := Fill(s, i, j, side, mean, rand, draws);
    assert r.log[..|s.log|] == s.log;
  }

  /** A write of an unset cell logs one entry and stores the clamped mean displaced by at
      most the amplitude; with amplitude 0 it stores exactly the clamped mean. */
  lemma FillWrite(s: State, i: int, j: int, side: int, mean: real, rand: real, draws: Draws)
    requires WellFormed(s.grid) && 0 <= i < |s.grid| && 0 <= j < |s.grid|
    requires s.grid[i][j] < 0.0
    ensures var r := Fill(s, i, j, side, mean, rand, draws);
      && r.log == s.log + [Write(i, j, side, rand, mean, r.grid[i][j])]
      && (0.0 <= draws(s.pos) < 1.0 && rand >= 0.0 ==> Clamp(mean - rand) <= r.grid[i][j] <= Clamp(mean + rand))
      && (rand == 0.0 ==> r.grid[i][j] == Clamp(mean))
  {
  }

  /** A write keeps the log in agreement with the grid. */
  lemma FillLogged(s: State, i: int, j: int, side: int, mean: real, rand: real, draws: Draws)
    requires WellFormed(s.grid) && 0 <= i < |s.grid| && 0 <= j < |s.grid|
    requires Logged(s)
    ensures Logged(Fill(s, i, j, side, mean, rand, draws))
  {
  }

  /** A cell to be filled and the mean it is filled from. */
  datatype Target = Target(row: int, col: int, mean: real)

  predicate InGrid(g: Grid, ts: seq<Target>) {
    forall k :: 0 <= k < |ts| ==> 0 <= ts[k].row < |g| && 0 <= ts[k].col < |g|
  }

  /** Some target of ts names cell (a, b). */
  predicate Hits(ts: seq<Target>, a: int, b: int)
    decreases |ts|
  {
    |ts| > 0 && ((ts[0].row == a && ts[0].col == b) || Hits(ts[1..], a, b))
  }

  /** No two targets of ts name the same cell. */
  predicate Distinct(ts: seq<Target>) {
    forall x, y :: 0 <= x < y < |ts| ==> ts[x].row != ts[y].row || ts[x].col != ts[y].col
  }

  /** A cell that no target names is not hit. */
  lemma {:induction false} MissesAll(ts: seq<Target>, a: int, b: int)
    requires forall k :: 0 <= k < |ts| ==> ts[k].row != a || ts[k].col != b
    ensures !Hits(ts, a, b)
    decreases |ts|
  {
    if |ts| > 0 {
      MissesAll(ts[1..], a, b);
    }
  }

  /** The guarded writes of the targets, in order; each draws only if it writes. */
  function FillAll(s: State, ts: seq<Target>, side: int, rand: real, draws: Draws): (r: State)
    requires WellFormed(s.grid) && InGrid(s.grid, ts)
    ensures SameSize(s.grid, r.grid)
    ensures r.depth == s.depth && r.sawUnset == s.sawUnset
    decreases |ts|
  {
    if |ts| == 0 then s
    else FillAll(Fill(s, ts[0].row, ts[0].col, side, ts[0].mean, rand, draws), ts[1..], side, rand, draws)
  }

  lemma {:induction false} FillAllExtends(s: State, ts: seq<Target>, side: int, rand: real, draws: Draws)
    requires WellFormed(s.grid) && InGrid(s.grid, ts)
    ensures Extends(s, FillAll(s, ts, side, rand, draws))
    decreases |ts|
  {
    if |ts| == 0 {
      ExtendsRefl(s);
    } else {
      var s1 := Fill(s, ts[0].row, ts[0].col, side, ts[0].mean, rand, draws);
      FillExtends(s, ts[0].row, ts[0].col, side, ts[0].mean, rand, draws);
      FillAllExtends(s1, ts[1..], side, rand, draws);
      ExtendsTrans(s, s1, FillAll(s1, ts[1..], side, rand, draws));
    }
  }

  /** Only the targets' cells change, and each of them ends up set. */
  lemma {:induction false} FillAllFrame(s: State, ts: seq<Target>, side: int, rand: real, draws: Draws)
    requires WellFormed(s.grid) && InGrid(s.grid, ts)
    ensures var r := FillAll(s, ts, side, rand, draws);
      && (forall a, b :: 0 <= a < |s.grid| && 0 <= b < |s.grid| && !Hits(ts, a, b) ==> r.grid[a][b] == s.grid[a][b])
      && (forall k :: 0 <= k < |ts| ==> r.grid[ts[k].row][ts[k].col] >= 0.0)
    decreases |ts|
  {
    if |ts| > 0 {
      var s1 := Fill(s, ts[0].row, ts[0].col, side, ts[0].mean, rand, draws);
      var r := FillAll(s1, ts[1..], side, rand, draws);
      FillAllFrame(s1, ts[1..], side, rand, draws);
      FillAllExtends(s1, ts[1..], side, rand, draws);
      assert r.grid[ts[0].row][ts[0].col] >= 0.0;
      forall k | 1 <= k < |ts|
        ensures r.grid[ts[k].row][ts[k].col] >= 0.0
      {
        assert ts[k] == ts[1..][k - 1];
      }
    }
  }

  /** Each target whose cell was unset gets its clamped mean displaced by at most the
      amplitude, provided no two targets name the same cell. */
  lemma {:induction false} FillAllValues(s: State, ts: seq<Target>, side: int, rand: real, draws: Draws)
    requires WellFormed(s.grid) && InGrid(s.grid, ts) && Distinct(ts)
    ensures var r := FillAll(s, ts, side, rand, draws);
      forall k :: 0 <= k < |ts| ==> WrittenFrom(s.grid, r.grid, ts[k].row, ts[k].col, ts[k].mean, rand, draws)
    decreases |ts|
  {
    if |ts| > 0 {
      var t := ts[0];
      var s1 := Fill(s, t.row, t.col, side, t.mean, rand, draws);
      var r := FillAll(s1, ts[1..], side, rand, draws);
      FillAllValues(s1, ts[1..], side, rand, draws);
      FillAllFrame(s1, ts[1..], side, rand, draws);
      MissesAll(ts[1..], t.row, t.col);
      assert r.grid[t.row][t.col] == s1.grid[t.row][t.col];
      if s.grid[t.row][t.col] < 0.0 {
        FillWrite(s, t.row, t.col, side, t.mean, rand, draws);
      }
      assert WrittenFrom(s.grid, r.grid, t.row, t.col, t.mean, rand, draws);
      forall k | 1 <= k < |ts|
        ensures WrittenFrom(s.grid, r.grid, ts[k].row, ts[k].col, ts[k].mean, rand, draws)
      {
        assert ts[k] == ts[1..][k - 1];
        assert s1.grid[ts[k].row][ts[k].col] == s.grid[ts[k].row][ts[k].col];
      }
    }
  }

  /** Every new log entry records one of the targets, with the side and the amplitude of
      the call, and (for valid draws) lies within the amplitude of its mean. */
  lemma {:induction false} FillAllLog(s: State, ts: seq<Target>, side: int, rand: real, draws: Draws)
    requires WellFormed(s.grid) && InGrid(s.grid, ts)
    ensures var r := FillAll(s, ts, side, rand, draws);
      && |s.log| <= |r.log|
      && forall k :: |s.log| <= k < |r.log| ==>
           && Target(r.log[k].row, r.log[k].col, r.log[k].mean) in ts
           && r.log[k].side == side && r.log[k].amplitude == rand
           && (ValidDraws(draws) && rand >= 0.0 ==> Displaced(r.log[k]))
    decreases |ts|
  {
    FillAllExtends(s, ts, side, rand, draws);
    if |ts| > 0 {
      var t := ts[0];
      var s1 := Fill(s, t.row, t.col, side, t.mean, rand, draws);
      var r := FillAll(s1, ts[1..], side, rand, draws);
      FillAllLog(s1, ts[1..], side, rand, draws);
      FillAllExtends(s1, ts[1..], side, rand, draws);
      if s.grid[t.row][t.col] < 0.0 {
        FillWrite(s, t.row, t.col, side, t.mean, rand, draws);
        assert r.log[|s.log|] == s1.log[|s.log|];
      }
      forall k | |s1.log| <= k < |r.log|
        ensures Target(r.log[k].row, r.log[k].col, r.log[k].mean) in ts
      {
        var e := r.log[k];
        assert Target(e.row, e.col, e.mean) in ts[1..];
      }
    }
  }

  /** The writes keep the log in agreement with the grid. */
  lemma {:induction false} FillAllLogged(s: State, ts: seq<Target>, side: int, rand: real, draws: Draws)
    requires WellFormed(s.grid) && InGrid(s.grid, ts) && Logged(s)
    ensures Logged(FillAll(s, ts, side, rand, draws))
    decreases |ts|
  {
    if |ts| > 0 {
      FillLogged(s, ts[0].row, ts[0].col, side, ts[0].mean, rand, draws);
      FillAllLogged(Fill(s, ts[0].row, ts[0].col, side, ts[0].mean, rand, draws), ts[1..], side, rand, draws);
    }
  }

  /** With amplitude 0, writes from means at most bound keep every cell at most bound. */
  lemma {:induction false} FillAllMax(s: State, ts: seq<Target>, side: int, rand: real, draws: Draws, bound: real)
    requires WellFormed(s.grid) && InGrid(s.grid, ts)
    requires rand == 0.0 && bound >= 0.0 && AtMost(s.grid, bound)
    requires forall k :: 0 <= k < |ts| ==> ts[k].mean <= bound
    ensures AtMost(FillAll(s, ts, side, rand, draws).grid, bound)
    decreases |ts|
  {
    if |ts| > 0 {
      var t := ts[0];
      var s1 := Fill(s, t.row, t.col, side, t.mean, rand, draws);
      if s.grid[t.row][t.col] < 0.0 {
        FillWrite(s, t.row, t.col, side, t.mean, rand, draws);
      }
      assert AtMost(s1.grid, bound);
      FillAllMax(s1, ts[1..], side, rand, draws, bound);
    }
  }

  /** The mean of the four corners of rg: what the diamond step displaces. It lies between
      the smallest and the largest corner. */
  function CornerMean(g: Grid, rg: Region): (m: real)
    requires WellFormed(g) && rg.Valid(|g|)
    ensures var (a, b, c, d) := (g[rg.row1][rg.col1], g[rg.row1][rg.col2], g[rg.row2][rg.col1], g[rg.row2][rg.col2]);
      && (a <= m || b <= m || c <= m || d <= m)
      && (m <= a || m <= b || m <= c || m <= d)
  {
    (g[rg.row1][rg.col1] + g[rg.row1][rg.col2] + g[rg.row2][rg.col1] + g[rg.row2][rg.col2]) / 4.0
  }

  /** The centre of rg, filled from the mean of the four corners. */
  function CentreTarget(g: Grid, rg: Region): (ts: seq<Target>)
    requires WellFormed(g) && rg.Valid(|g|)
    ensures |ts| == 1 && InGrid(g, ts) && Distinct(ts)
    ensures forall k :: 0 <= k < |ts| ==> rg.Contains(ts[k].row, ts[k].col)
    ensures rg.Splittable() && ts[0].row == rg.MidRow() && ts[0].col == rg.MidCol()
  {
    ValidSplittable(rg, |g|);
    [Target(rg.MidRow(), rg.MidCol(), CornerMean(g, rg))]
  }

  /** The four edge midpoints of rg, top, bottom, left, right, each filled from the mean of
      its two corners and the centre, all read from g before any of them is written. */
  function EdgeTargets(g: Grid, rg: Region): (ts: seq<Target>)
    requires WellFormed(g) && rg.Valid(|g|)
    ensures |ts| == 4 && InGrid(g, ts) && Distinct(ts)
    ensures forall k :: 0 <= k < |ts| ==> rg.Contains(ts[k].row, ts[k].col)
    ensures rg.Splittable()
    ensures ts[0].row == rg.row1 && ts[0].col == rg.MidCol()
    ensures ts[1].row == rg.row2 && ts[1].col == rg.MidCol()
    ensures ts[2].row == rg.MidRow() && ts[2].col == rg.col1
    ensures ts[3].row == rg.MidRow() && ts[3].col == rg.col2
  {
    ValidSplittable(rg, |g|);
    var (mr, mc) := (rg.MidRow(), rg.MidCol());
    var mid := g[mr][mc];
    var (tl, tr) := (g[rg.row1][rg.col1], g[rg.row1][rg.col2]);
    var (bl, br) := (g[rg.row2][rg.col1], g[rg.row2][rg.col2]);
    [ Target(rg.row1, mc, (tl + tr + mid) / 3.0),
      Target(rg.row2, mc, (bl + br + mid) / 3.0),
      Target(mr, rg.col1, (tl + bl + mid) / 3.0),
      Target(mr, rg.col2, (tr + br + mid) / 3.0) ]
  }

  /** The write of Diamond: the centre of rg. The corners are read only when the centre
      is still unset. */
  function DiamondFill(s: State, rg: Region, rand: real, draws: Draws): (r: State)
    requires WellFormed(s.grid) && rg.Valid(|s.grid|)
    ensures SameSize(s.grid, r.grid) && r.depth == s.depth
  {
    ValidSplittable(rg, |s.grid|);
    var misread := s.grid[rg.MidRow()][rg.MidCol()] < 0.0 && !CornersSet(s.grid, rg);
    FillAll(s.(sawUnset := s.sawUnset || misread), CentreTarget(s.grid, rg), rg.Side(), rand, draws)
  }

  /** The writes of Square: the four edge midpoints of rg. The corners and the centre are
      all read first, whether or not any edge midpoint is written. */
  function SquareFill(s: State, rg: Region, rand: real, draws: Draws): (r: State)
    requires WellFormed(s.grid) && rg.Valid(|s.grid|)
    ensures SameSize(s.grid, r.grid) && r.depth == s.depth
  {
    ValidSplittable(rg, |s.grid|);
    var misread := s.grid[rg.MidRow()][rg.MidCol()] < 0.0 || !CornersSet(s.grid, rg);
    FillAll(s.(sawUnset := s.sawUnset || misread), EdgeTargets(s.grid, rg), rg.Side(), rand, draws)
  }

  function Max(a: nat, b: nat): nat { if a < b then b else a }

  /** Diamond(row1, col1, row2, col2, rand): fill the centre of rg, then run Square on rg.
      It terminates on every power-of-two side, returns a grid of the same size, and
      nests exactly log2(side) levels of Diamond. */
  function Diamond(s: State, rg: Region, rand: real, draws: Draws): (r: State)
    requires WellFormed(s.grid) && rg.Valid(|s.grid|)
    ensures SameSize(s.grid, r.grid)
    ensures r.depth == Log2(rg.Side())
    decreases rg.Side(), 2
  {
    var sq := Square(DiamondFill(s, rg, rand, draws), rg, rand, draws);
    sq.(depth := sq.depth + 1)
  }

  /** Square(row1, col1, row2, col2, rand): fill the four edge midpoints of rg; unless rg
      has side 2, recurse into the quadrants with half the amplitude. */
  function Square(s: State, rg: Region, rand: real, draws: Draws): (r: State)
    requires WellFormed(s.grid) && rg.Valid(|s.grid|)
    ensures SameSize(s.grid, r.grid)
    ensures r.depth + 1 == Log2(rg.Side())
    decreases rg.Side(), 1
  {
    var e := SquareFill(s, rg, rand, draws);
    HalvePow2(rg.Side());
    if rg.row1 + 2 == rg.row2 then
      assert Log2(rg.Side() / 2) == 0;
      e.(depth := 0)
    else
      Quadrants(e, rg, rand / 2.0, draws)
  }

  /** The recursive tail of Square: Diamond with amplitude rand on the quadrants of rg,
      top-left, top-right, bottom-left, bottom-right, in that order. */
  function Quadrants(s: State, rg: Region, rand: real, draws: Draws): (r: State)
    requires WellFormed(s.grid) && rg.Valid(|s.grid|) && rg.Side() != 2
    ensures SameSize(s.grid, r.grid)
    ensures r.depth + 1 == Log2(rg.Side())
    decreases rg.Side(), 0
  {
    QuadrantsValid(rg, |s.grid|);
    HalvePow2(rg.Side());
    var q1 := Diamond(s, rg.TopLeft(), rand, draws);
    var q2 := Diamond(q1, rg.TopRight(), rand, draws);
    var q3 := Diamond(q2, rg.BottomLeft(), rand, draws);
    var q4 := Diamond(q3, rg.BottomRight(), rand, draws);
    q4.(depth := Max(Max(q1.depth, q2.depth), Max(q3.depth, q4.depth)))
  }
}
