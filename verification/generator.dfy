/** GenerateHeightmap up to the bitmap: the grid of unset cells, the four seeded corners
    and the one Diamond call on the whole grid. */
module Generator {
  import opened Powers
  import opened Regions
  import opened Grids
  import opened Subdivision
  import opened SubdivisionFacts

  /** The generator's constants: rows and columns, the initial displacement amplitude,
      and the scale of the corner seeds. */
  datatype Config = Config(size: int, roughness: real, maxHeight: real)

  /** SIZE = 257, ROUGHNESS = 16, MAX_HEIGHT = 8. */
  const Defaults: Config := Config(257, 16.0, 8.0)

  /** The grid sizes the recursion covers: 2^k + 1 with k >= 1. */
  predicate ValidSize(n: int) {
    n >= 3 && IsPow2(n - 1)
  }

  /** The whole grid as a region. */
  function Whole(n: int): (rg: Region)
    requires ValidSize(n)
    ensures rg.Valid(n) && rg.Side() == n - 1
    ensures forall i, j :: 0 <= i < n && 0 <= j < n <==> rg.Contains(i, j)
  {
    Region(0, 0, n - 1, n - 1)
  }

  /** The starting value of cell (i, j): the corners take the first four draws, in the
      order top-left, top-right, bottom-left, bottom-right, scaled by maxHeight; every
      other cell is unset. */
  function Seed(cfg: Config, draws: Draws, i: int, j: int): (v: real)
    ensures !IsCorner(cfg.size, i, j) ==> v < 0.0
    ensures cfg.size >= 2 ==>
      && (i == 0 && j == 0 ==> v == draws(0) * cfg.maxHeight)
      && (i == 0 && j == cfg.size - 1 ==> v == draws(1) * cfg.maxHeight)
      && (i == cfg.size - 1 && j == 0 ==> v == draws(2) * cfg.maxHeight)
      && (i == cfg.size - 1 && j == cfg.size - 1 ==> v == draws(3) * cfg.maxHeight)
  {
    var k := SeedIndex(cfg.size, i, j);
    if k < 4 then Scaled(draws(k), cfg.maxHeight) else Unset
  }

  /** Which of the first four draws seeds cell (i, j): 0 to 3 for the corners top-left,
      top-right, bottom-left, bottom-right of an n-by-n grid, and 4 for any other cell. */
  function SeedIndex(n: int, i: int, j: int): (k: nat)
    ensures k < 4 <==> IsCorner(n, i, j)
  {
    if i == 0 && j == 0 then 0
    else if i == 0 && j == n - 1 then 1
    else if i == n - 1 && j == 0 then 2
    else if i == n - 1 && j == n - 1 then 3
    else 4
  }

  /** `rng.NextDouble() * MAX_HEIGHT`: a draw in [0, 1) scaled by a non-negative height
      lies in [0, height]. */
  function Scaled(u: real, h: real): (r: real)
    ensures 0.0 <= u < 1.0 && h >= 0.0 ==> 0.0 <= r <= h
  {
    ScaledDraw(u, h);
    u * h
  }

  /** The grid before the recursion. With valid draws and a non-negative maxHeight
      exactly the four corners are set, each at most maxHeight. */
  function InitialGrid(cfg: Config, draws: Draws): (g: Grid)
    requires ValidSize(cfg.size)
    ensures |g| == cfg.size && WellFormed(g)
    ensures forall i, j :: 0 <= i < |g| && 0 <= j < |g| ==> g[i][j] == Seed(cfg, draws, i, j)
  {
    seq(cfg.size, i requires 0 <= i < cfg.size =>
      seq(cfg.size, j requires 0 <= j < cfg.size => Seed(cfg, draws, i, j)))
  }

  /** With valid draws and a non-negative maxHeight a seed is set, and at most maxHeight,
      exactly at the corners. */
  lemma SeedBounds(cfg: Config, draws: Draws, i: int, j: int)
    requires ValidDraws(draws) && cfg.maxHeight >= 0.0
    ensures Seed(cfg, draws, i, j) <= cfg.maxHeight
    ensures Seed(cfg, draws, i, j) >= 0.0 <==> IsCorner(cfg.size, i, j)
  {
    var k := SeedIndex(cfg.size, i, j);
    if k < 4 {
      assert 0.0 <= draws(k) < 1.0;
    }
  }

  /** The seeded grid has its corners set, nothing else set, and nothing above
      maxHeight. */
  lemma InitialGridSeeds(cfg: Config, draws: Draws)
    requires ValidSize(cfg.size) && ValidDraws(draws) && cfg.maxHeight >= 0.0
    ensures var g := InitialGrid(cfg, draws);
      && CornersSet(g, Whole(cfg.size))
      && AtMost(g, cfg.maxHeight)
      && forall i, j :: 0 <= i < |g| && 0 <= j < |g| && !IsCorner(cfg.size, i, j) ==> g[i][j] < 0.0
  {
    var g := InitialGrid(cfg, draws);
    var n := cfg.size;
    forall i, j | 0 <= i < n && 0 <= j < n
      ensures g[i][j] <= cfg.maxHeight
      ensures g[i][j] >= 0.0 <==> IsCorner(n, i, j)
    {
      SeedBounds(cfg, draws, i, j);
    }
    assert IsCorner(n, 0, 0) && IsCorner(n, 0, n - 1) && IsCorner(n, n - 1, 0) && IsCorner(n, n - 1, n - 1);
  }

  predicate IsCorner(n: int, i: int, j: int) {
    (i == 0 || i == n - 1) && (j == 0 || j == n - 1)
  }

  /** The state after the recursion: Diamond(0, 0, SIZE - 1, SIZE - 1, ROUGHNESS) on the
      seeded grid, the first four draws spent on the corners. It nests exactly
      log2(SIZE - 1) levels of Diamond. */
  function Heights(cfg: Config, draws: Draws): (r: State)
    requires ValidSize(cfg.size)
    ensures |r.grid| == cfg.size && WellFormed(r.grid)
    ensures r.depth == Log2(cfg.size - 1)
  {
    Diamond(State(InitialGrid(cfg, draws), 4, [], 0, false), Whole(cfg.size), cfg.roughness, draws)
  }

  /** The default configuration is one the recursion covers, with eight levels. */
  lemma DefaultsDepth()
    ensures ValidSize(Defaults.size)
    ensures forall draws: Draws :: Heights(Defaults, draws).depth == 8
  {
    assert Pow2(8) == 256;
    Log2OfPow2(8);
  }

  /** Coverage: afterwards no cell is unset, and no mean was ever computed from an unset
      value. */
  lemma HeightsComplete(cfg: Config, draws: Draws)
    requires ValidSize(cfg.size) && ValidDraws(draws) && cfg.maxHeight >= 0.0
    ensures var r := Heights(cfg, draws);
      && (forall i, j :: 0 <= i < cfg.size && 0 <= j < cfg.size ==> r.grid[i][j] >= 0.0)
      && !r.sawUnset
  {
    var n := cfg.size;
    var s := State(InitialGrid(cfg, draws), 4, [], 0, false);
    InitialGridSeeds(cfg, draws);
    DiamondCovers(s, Whole(n), cfg.roughness, draws);
  }

  /** The corners keep their seeds: the recursion never writes a set cell. */
  lemma HeightsKeepsCorners(cfg: Config, draws: Draws)
    requires ValidSize(cfg.size) && ValidDraws(draws) && cfg.maxHeight >= 0.0
    ensures var (g, r) := (InitialGrid(cfg, draws), Heights(cfg, draws));
      forall i, j :: 0 <= i < cfg.size && 0 <= j < cfg.size && IsCorner(cfg.size, i, j) ==>
        r.grid[i][j] == g[i][j]
  {
    var s := State(InitialGrid(cfg, draws), 4, [], 0, false);
    InitialGridSeeds(cfg, draws);
    DiamondFrame(s, Whole(cfg.size), cfg.roughness, draws);
  }

  /** The run's writes: one draw after the four corner draws per written cell, no cell
      written twice, each the clamp of its mean displaced within the amplitude of its
      level, where the amplitude on a sub-square of side k is ROUGHNESS * k / (SIZE - 1). */
  lemma HeightsWrites(cfg: Config, draws: Draws)
    requires ValidSize(cfg.size)
    ensures var r := Heights(cfg, draws);
      && r.pos == 4 + |r.log|
      && Logged(r)
      && forall k :: 0 <= k < |r.log| ==> Fits(r.log[k], Whole(cfg.size), cfg.roughness, draws)
  {
    var s := State(InitialGrid(cfg, draws), 4, [], 0, false);
    DiamondFrame(s, Whole(cfg.size), cfg.roughness, draws);
    DiamondLog(s, Whole(cfg.size), cfg.roughness, draws);
  }

  /** Maximum principle: with roughness 0 no height exceeds maxHeight. */
  lemma SmoothHeightsBounded(cfg: Config, draws: Draws)
    requires ValidSize(cfg.size) && ValidDraws(draws) && cfg.maxHeight >= 0.0
    requires cfg.roughness == 0.0
    ensures var r := Heights(cfg, draws);
      forall i, j :: 0 <= i < cfg.size && 0 <= j < cfg.size ==> 0.0 <= r.grid[i][j] <= cfg.maxHeight
  {
    var s := State(InitialGrid(cfg, draws), 4, [], 0, false);
    InitialGridSeeds(cfg, draws);
    DiamondMax(s, Whole(cfg.size), cfg.roughness, draws, cfg.maxHeight);
    HeightsComplete(cfg, draws);
  }

  /** With roughness 0 and corners at 0 every height is 0. */
  lemma FlatTerrain(cfg: Config, draws: Draws)
    requires ValidSize(cfg.size) && ValidDraws(draws)
    requires cfg.roughness == 0.0 && cfg.maxHeight == 0.0
    ensures var r := Heights(cfg, draws);
      forall i, j :: 0 <= i < cfg.size && 0 <= j < cfg.size ==> r.grid[i][j] == 0.0
  {
    SmoothHeightsBounded(cfg, draws);
  }
}
