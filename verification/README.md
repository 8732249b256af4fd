# Diamond-square heightmap generator

A model of `HeightmapGenerator`, which builds a terrain heightmap with the
diamond-square algorithm and renders it as a grey-level bitmap.

The generator works on a square grid of doubles.

1. `GenerateHeightmap` marks every cell unset (`double.MinValue`).
2. It seeds the four corners with `NextDouble() * MAX_HEIGHT`.
3. It calls `Diamond` on the whole grid with amplitude `ROUGHNESS`.
4. `Diamond` fills the centre of a square region. Then `Square` fills the four edge
   midpoints. Every write is the mean of the cell's neighbours plus a displacement
   `NextDouble() * rand * 2 - rand`, clamped at 0. A cell is written only while it is
   still unset.
5. Unless the region has side 2, `Square` halves the amplitude and calls `Diamond` on
   the four quadrants.
6. `GenerateBitmap` scans the grid for its largest and smallest values, which both start
   at 0. It maps every height to `(int)Math.Round(v * 256 / (max - min) - 1)`, clipped at 0.

The model has one module per concern:

- **Powers**: powers of two and their logarithm.
- **Regions**: square regions, their middle index and their four quadrants.
- **Grids**: the grid and the predicates on it.
- **Subdivision**: the recursion.
  - `Diamond`, `Square` and `Quadrants` are pure functions over a `State`. It holds the
    grid and the number of draws taken so far.
  - It also keeps three observations of the run:
    - the log of writes;
    - the depth of nested `Diamond` levels;
    - a flag that is raised when an unset value enters a mean.
  - The random source is a stream `draws: nat -> real`. The k-th `NextDouble` returns
    `draws(k)`.
- **SubdivisionFacts**: the properties of the recursion, proved by mutual induction along
  the `Diamond`/`Square`/`Quadrants` triple. They are:
  - confinement to the region;
  - coverage of the region;
  - the maximum principle;
  - the amplitude law of every write.
- **Generator**: seeding and the whole run.
- **Rendering**: the scan and the grey-level map.
- **Heightmap**: the end-to-end pipeline.

The C# `Square` performs two steps in one method: the edge writes and the recursive tail.
The model splits them into `Square` and `Quadrants`. The tail is the `if (row1 + 2 != row2)`
block.

A run is written `Diamond(s, rg, rand, draws)`. Here `s` is the state, `rg` the region and
`rand` the amplitude. The grid size and the three constants are a `Config`. `Defaults` is
`Config(257, 16.0, 8.0)`.

## Model

| member | source | states |
|---|---|---|
| Powers.Log2 | HeightmapGenerator.cs:51-58 | The number of halvings from a power of two down to 1 is its exponent: `Pow2(Log2(n)) == n`. |
| Powers.Log2OfPow2 | HeightmapGenerator.cs:51-58 | Log2 inverts Pow2, so the recursion depth of a side `2^k` is exactly k. |
| Powers.HalvePow2 | HeightmapGenerator.cs:51-58 | A power of two of at least 2 is even, and its half is a power of two one level lower. |
| Regions.Mid | HeightmapGenerator.cs:68-71 | `hi - (hi - lo) / 2` on an even span is the exact midpoint. It lies strictly inside the span and splits it into equal halves. |
| Regions.Region.TopLeft | HeightmapGenerator.cs:54 | The top-left quadrant has half the side and lies inside the region. |
| Regions.Region.TopRight | HeightmapGenerator.cs:55 | The top-right quadrant has half the side and lies inside the region. |
| Regions.Region.BottomLeft | HeightmapGenerator.cs:56 | The bottom-left quadrant has half the side and lies inside the region. |
| Regions.Region.BottomRight | HeightmapGenerator.cs:57 | The bottom-right quadrant has half the side and lies inside the region. |
| Regions.ValidSplittable | HeightmapGenerator.cs:68-71 | Every region the recursion reaches has an even side of at least 2, and so it has a middle cell. |
| Regions.QuadrantsValid | HeightmapGenerator.cs:51-58 | Splitting a region of side above 2 gives four regions the recursion accepts again. |
| Regions.QuadrantsCover | HeightmapGenerator.cs:54-57 | Every cell of a region lies in one of its four quadrants. |
| Grids.Update | HeightmapGenerator.cs:74-76 | Assigning one cell changes that cell and nothing else. |
| Grids.LatticeCoversBase | HeightmapGenerator.cs:50-51 | In a region of side 2, the corners, centre and edge midpoints are all its cells. This is why the recursion may stop there. |
| Grids.LatticeQuadrants | HeightmapGenerator.cs:30-58 | Once the diamond and square steps set the 3-by-3 lattice of a region, every quadrant has its corners set. |
| Grids.SettlesTrans | HeightmapGenerator.cs:30-49 | "Set cells never change and written cells are non-negative" composes over successive steps. |
| Grids.SetOnStable | HeightmapGenerator.cs:30-49 | A cell that is set stays set. |
| Grids.UnchangedOutsideWiden | HeightmapGenerator.cs:54-57 | A change confined to a quadrant is confined to the enclosing region. |
| Grids.UnchangedOutsideTrans | HeightmapGenerator.cs:54-57 | Confinement to a region composes over successive calls. |
| Subdivision.Clamp | HeightmapGenerator.cs:74-76 | The clamp `v < 0 ? 0 : v` is non-negative and at least v. It is the identity on non-negative values and 0 on negative ones. |
| Subdivision.ScaledDraw | HeightmapGenerator.cs:74-75 | A draw in [0, 1) times a non-negative amplitude lies in [0, amplitude], and strictly below a positive one. |
| Subdivision.Displacement | HeightmapGenerator.cs:30-49 | `u * rand * 2 - rand` lies in [-rand, rand] for a valid draw, strictly below a positive rand, and is 0 when rand is 0. |
| Subdivision.Fill | HeightmapGenerator.cs:72-77 | The guarded write changes only its own cell and leaves it set. An already set cell leaves the whole state untouched, with no draw taken. |
| Subdivision.FillExtends | HeightmapGenerator.cs:72-77 | A guarded write settles the grid, and the log grows by exactly the number of draws taken. |
| Subdivision.FillWrite | HeightmapGenerator.cs:72-77 | Writing an unset cell logs it. The value stored is the clamped mean displaced by at most the amplitude, and exactly the clamped mean when the amplitude is 0. |
| Subdivision.FillLogged | HeightmapGenerator.cs:72-77 | A guarded write keeps every logged cell holding its logged value, and no cell logged twice. |
| Subdivision.MissesAll | HeightmapGenerator.cs:30-49 | A cell no target names is not hit. |
| Subdivision.FillAll | HeightmapGenerator.cs:30-49 | The guarded writes of a target list keep the grid's size, the nesting depth and the unset-read flag. Their frame, values and log are stated by FillAllFrame, FillAllValues and FillAllLog. |
| Subdivision.FillAllExtends | HeightmapGenerator.cs:30-49 | A sequence of guarded writes settles the grid and takes one draw per write. |
| Subdivision.FillAllFrame | HeightmapGenerator.cs:30-49 | After the guarded writes of a target list, only target cells have changed and every target cell is set. |
| Subdivision.FillAllValues | HeightmapGenerator.cs:25-49 | With distinct targets, each previously unset target cell holds its mean, displaced within the amplitude and then clamped. The mean is read before any write. |
| Subdivision.FillAllLog | HeightmapGenerator.cs:30-49 | Every new log entry is one of the targets, with the call's side and amplitude, and displaced within that amplitude. |
| Subdivision.FillAllLogged | HeightmapGenerator.cs:30-49 | The guarded writes keep the log in agreement with the grid. |
| Subdivision.FillAllMax | HeightmapGenerator.cs:30-49 | With amplitude 0, writes from means at most a bound keep every cell at most that bound. |
| Subdivision.CornerMean | HeightmapGenerator.cs:75 | The four-corner mean lies between the smallest and the largest corner. |
| Subdivision.DiamondFill | HeightmapGenerator.cs:70-77 | The diamond step keeps the grid's size and the nesting depth. What it writes is stated by DiamondFillConfined, DiamondFillSets and DiamondFillValue. |
| Subdivision.SquareFill | HeightmapGenerator.cs:25-49 | The square step keeps the grid's size and the nesting depth. What it writes is stated by SquareFillConfined, SquareFillSets and SquareFillValues. |
| Subdivision.CentreTarget | HeightmapGenerator.cs:70-75 | The diamond step has exactly one target, the cell (MidRow, MidCol) at the centre of the region. |
| Subdivision.EdgeTargets | HeightmapGenerator.cs:23-47 | The square step has four distinct targets inside the region. In order they are the top, bottom, left and right edge midpoints: (row1, MidCol), (row2, MidCol), (MidRow, col1) and (MidRow, col2). |
| Subdivision.Diamond | HeightmapGenerator.cs:68-79 | Diamond on a region of side 2^k keeps the grid size and nests exactly k levels of Diamond. |
| Subdivision.Square | HeightmapGenerator.cs:21-59 | Square on a region of side 2^k nests k - 1 further levels of Diamond. It stops at side 2. |
| Subdivision.Quadrants | HeightmapGenerator.cs:51-58 | The four quadrant calls nest k - 1 levels of Diamond below a region of side 2^k. |
| SubdivisionFacts.ConfinedThen | HeightmapGenerator.cs:54-57 | A run confined to a region, followed by a run confined to one of its quadrants, is confined to the region. |
| SubdivisionFacts.FlagConfined | HeightmapGenerator.cs:25-29 | Reading values changes nothing. |
| SubdivisionFacts.FillAllConfined | HeightmapGenerator.cs:30-49 | Guarded writes of targets inside a region change nothing outside it. |
| SubdivisionFacts.DiamondFillConfined | HeightmapGenerator.cs:70-77 | The diamond step writes only inside the region, only an unset cell, and a non-negative value. |
| SubdivisionFacts.DiamondFillSets | HeightmapGenerator.cs:72-77 | After the diamond step the centre is set. With the corners set, no unset value was read. |
| SubdivisionFacts.DiamondFillValue | HeightmapGenerator.cs:74-76 | An unset centre receives the mean of the four corners displaced within the amplitude and clamped, and exactly the clamped mean when the amplitude is 0. |
| SubdivisionFacts.SquareFillConfined | HeightmapGenerator.cs:23-49 | The square step writes only inside the region, only unset cells, and non-negative values. |
| SubdivisionFacts.SquareFillSets | HeightmapGenerator.cs:25-49 | After the square step the edge midpoints are set. With corners and centre set, the whole 3-by-3 lattice is set and no unset value was read. |
| SubdivisionFacts.SquareFillValues | HeightmapGenerator.cs:25-49 | Each unset edge midpoint receives the mean of its two corners and the centre, displaced within the amplitude and clamped. |
| SubdivisionFacts.DiamondFrame | HeightmapGenerator.cs:68-79 | Diamond changes no cell outside its region. It changes no set cell, writes only non-negative values, and takes one draw per write. |
| SubdivisionFacts.SquareFrame | HeightmapGenerator.cs:21-59 | Square changes no cell outside its region. It changes no set cell, writes only non-negative values, and takes one draw per write. |
| SubdivisionFacts.QuadrantsFrame | HeightmapGenerator.cs:51-58 | The four quadrant calls change no cell outside the region. |
| SubdivisionFacts.DiamondCovers | HeightmapGenerator.cs:68-79 | If the corners of a region are set, Diamond leaves every cell of the region set and never reads an unset value. |
| SubdivisionFacts.SquareCovers | HeightmapGenerator.cs:21-59 | If the corners and the centre are set, Square leaves every cell of the region set and never reads an unset value. |
| SubdivisionFacts.QuadrantsCovers | HeightmapGenerator.cs:51-58 | If the quadrants' corners are set, the quadrant calls set every cell of the region. |
| SubdivisionFacts.DiamondFillMax | HeightmapGenerator.cs:74-76 | With amplitude 0 the diamond step keeps every cell at most a non-negative bound. |
| SubdivisionFacts.SquareFillMax | HeightmapGenerator.cs:30-49 | With amplitude 0 the square step keeps every cell at most a non-negative bound. |
| SubdivisionFacts.DiamondMax | HeightmapGenerator.cs:68-79 | Maximum principle: with amplitude 0, Diamond produces no value above a non-negative bound of the grid. |
| SubdivisionFacts.SquareMax | HeightmapGenerator.cs:21-59 | The maximum principle for Square. |
| SubdivisionFacts.QuadrantsMax | HeightmapGenerator.cs:51-58 | The maximum principle for the four quadrant calls. |
| SubdivisionFacts.LevelAmplitudeBounds | HeightmapGenerator.cs:53 | The amplitude in force below a call (`LevelAmplitude`, halved once per level) lies in [0, rand] for a non-negative rand. One level down or deeper it is at most rand / 2. |
| SubdivisionFacts.LevelAmplitudeClosed | HeightmapGenerator.cs:53 | Halving the amplitude once per level means that k levels down the amplitude is `rand / 2^k`. |
| SubdivisionFacts.FitsWiden | HeightmapGenerator.cs:53-57 | A write that fits a quadrant at amplitude rand fits the enclosing region at amplitude 2 * rand. |
| SubdivisionFacts.LogFitsThen | HeightmapGenerator.cs:51-58 | Amplitude-conforming runs compose. |
| SubdivisionFacts.WritesFitWiden | HeightmapGenerator.cs:53-57 | The writes of a quadrant call fit the enclosing call at twice the amplitude. |
| SubdivisionFacts.FillAllFits | HeightmapGenerator.cs:30-49 | Writes of targets inside a region, at the region's side and amplitude, fit that region. |
| SubdivisionFacts.DiamondFillLog | HeightmapGenerator.cs:72-77 | The diamond step's write fits the region's amplitude, and the log stays in agreement with the grid. |
| SubdivisionFacts.SquareFillLog | HeightmapGenerator.cs:30-49 | The square step's writes fit the region's amplitude, and the log stays in agreement with the grid. |
| SubdivisionFacts.DiamondLog | HeightmapGenerator.cs:68-79 | Every write of Diamond at a sub-square of side s is displaced by at most `LevelAmplitude(rand, side, s)`. No cell is written twice. |
| SubdivisionFacts.SquareLog | HeightmapGenerator.cs:21-59 | The same amplitude law for Square. |
| SubdivisionFacts.QuadrantsLog | HeightmapGenerator.cs:51-58 | The quadrant calls, made with half the amplitude, obey the amplitude law of the Square call that made them. |
| SubdivisionFacts.QuadrantThen | HeightmapGenerator.cs:54-57 | One more quadrant call keeps the enclosing call's amplitude law. |
| Generator.Defaults | HeightmapGenerator.cs:7-9 | SIZE = 257, ROUGHNESS = 16 and MAX_HEIGHT = 8. DefaultsDepth states what follows from them. |
| Generator.Whole | HeightmapGenerator.cs:142 | The whole grid is a region the recursion accepts. Its cells are exactly the grid's cells. |
| Generator.Seed | HeightmapGenerator.cs:133-140 | Every cell but the four corners starts unset. In a grid of size 2 or more, the top-left, top-right, bottom-left and bottom-right corners take draws 0, 1, 2 and 3 times MAX_HEIGHT. |
| Generator.SeedIndex | HeightmapGenerator.cs:137-140 | The four corners, and only they, take one of the first four draws. |
| Generator.Scaled | HeightmapGenerator.cs:137-140 | `NextDouble() * MAX_HEIGHT` lies in [0, MAX_HEIGHT]. |
| Generator.InitialGrid | HeightmapGenerator.cs:127-140 | The seeded grid is n-by-n, and each cell holds its seed. |
| Generator.SeedBounds | HeightmapGenerator.cs:133-140 | A seed is at most MAX_HEIGHT, and it is set exactly at a corner. |
| Generator.InitialGridSeeds | HeightmapGenerator.cs:127-140 | Before the recursion the four corners are set, every other cell is unset, and nothing exceeds MAX_HEIGHT. |
| Generator.Heights | HeightmapGenerator.cs:126-142 | The run from the seeded grid keeps the size and nests `log2(SIZE - 1)` levels of Diamond. |
| Generator.DefaultsDepth | HeightmapGenerator.cs:7-9 | SIZE = 257 is a size the recursion covers, with 8 levels. |
| Generator.HeightsComplete | HeightmapGenerator.cs:127-142 | After the run no cell is unset, and no mean was ever taken over an unset value. |
| Generator.HeightsKeepsCorners | HeightmapGenerator.cs:137-142 | The corners keep their seeds. |
| Generator.HeightsWrites | HeightmapGenerator.cs:137-142 | The run takes four draws plus one per written cell. Every cell is written at most once. Each write's displacement is within ROUGHNESS scaled to the sub-square's level. |
| Generator.SmoothHeightsBounded | HeightmapGenerator.cs:137-142 | With roughness 0, every height lies in [0, MAX_HEIGHT]. |
| Generator.FlatTerrain | HeightmapGenerator.cs:137-142 | With roughness 0 and MAX_HEIGHT 0, every height is 0. |
| Rendering.Round | HeightmapGenerator.cs:112 | `Math.Round` gives an integer within 1/2 of its argument, the even one on a tie. |
| Rendering.RoundNearest | HeightmapGenerator.cs:112 | Away from ties, Round is the unique nearest integer. |
| Rendering.RoundMonotone | HeightmapGenerator.cs:112 | Rounding keeps the order. |
| Rendering.Level | HeightmapGenerator.cs:107-112 | `v * (256 / (hi - lo)) - 1` is at most -1 for v <= 0 and at most 255 for v <= hi when lo <= 0. It is exactly 255 at v = hi when lo = 0. |
| Rendering.LevelMonotone | HeightmapGenerator.cs:107-112 | The unrounded level keeps the order of heights. |
| Rendering.Clip | HeightmapGenerator.cs:113 | `colorValue < 0 ? 0 : colorValue` is the identity on non-negative values and 0 below. |
| Rendering.Intensity | HeightmapGenerator.cs:107-113 | A grey level is never negative. |
| Rendering.Grey | HeightmapGenerator.cs:107-113 | A grey level is never negative, and it is 0 throughout when max equals min. |
| Rendering.IntensityAtMost255 | HeightmapGenerator.cs:107-113 | When min <= 0, no height at most max is brighter than 255. |
| Rendering.IntensityOfLow | HeightmapGenerator.cs:112-113 | A height of zero or less is black. |
| Rendering.IntensityOfPeak | HeightmapGenerator.cs:107-113 | When min is 0, the height max is white (255). |
| Rendering.IntensityMonotone | HeightmapGenerator.cs:107-113 | Grey levels keep the order of heights. |
| Rendering.ScanRange | HeightmapGenerator.cs:89-105 | max and min start at 0. Every height lies between them, and each bound is 0 or some height of the grid. |
| Rendering.SpanUnique | HeightmapGenerator.cs:89-105 | These conditions fix max and min uniquely: max is the largest of 0 and the heights, and min the smallest. |
| Rendering.PeakIsMax | HeightmapGenerator.cs:89-105 | When no height is negative the scan's min is 0, and a highest height is its max. |
| Rendering.RenderedRange | HeightmapGenerator.cs:107-113 | In the image drawn from a grid and its span, every grey level lies in 0..255, and a height of zero or less is black. |
| Rendering.RenderedMonotone | HeightmapGenerator.cs:107-113 | In the image drawn from a grid and its span, a higher height never has a darker pixel. |
| Rendering.RenderedPeak | HeightmapGenerator.cs:89-113 | With some height positive and none negative, every highest cell of the drawn image is white. |
| Rendering.GenerateBitmap | HeightmapGenerator.cs:86-118 | The bitmap has the grid's shape. It also returns the min and max of the first pass, which form the grid's span (unique by SpanUnique). Each pixel is `Grey(v, min, max)` of its height v: `Clip(Round(v * (256 / (max - min)) - 1))`, or 0 when max equals min. Grey levels lie in 0..255 in the order of the heights. Heights of zero or less are black, and an all-zero grid is black. With some positive and no negative height, the highest cells are white. |
| Heightmap.GenerateHeightmap | HeightmapGenerator.cs:124-144 | The result is a SIZE-by-SIZE image, returned with the min and max of the first pass, which form the span of the generated grid (unique by SpanUnique). Each pixel is the grey level of the generated height at its cell within that span, so levels lie in 0..255. An all-zero grid is black. With valid draws and MAX_HEIGHT >= 0, some pixel is white exactly when some height is not 0. |

## Left out

- Program.cs, the console entry point, is not part of this model. Neither is writing the
  bitmap to a file.
- `Bitmap`, `SetPixel` and `Color.FromArgb` are replaced by a matrix of grey levels. The
  pixel at (col, row) is `px[row][col]`, and its three colour channels are equal.
- `Random(Environment.TickCount)` and `NextDouble` become the parameter `draws: nat -> real`.
  `ValidDraws` states the [0, 1) promise of `NextDouble`. The seed from the clock is not
  modelled.
- Doubles are reals. There is no rounding of intermediate results and no overflow.
- `double.MinValue` is modelled as -1.0. Every test on it is `< 0`.
- Rendering.Grey: the flat grid, where max == min == 0, divides by zero in the source. IEEE
  arithmetic then gives `0 * infinity - 1 = NaN`, and its conversion to int is clipped to
  0. The model states the outcome, a black pixel, directly.
- The fields SIZE, ROUGHNESS and MAX_HEIGHT become a `Config`, with `Defaults` holding 257,
  16 and 8. Sizes other than 2^k + 1 with k >= 1 are not modelled. For them the source
  does not terminate. The middle index always stays inside [lo, hi], so nothing is read
  out of range. But the recursion reaches a region whose rows span 1 (or 0, when
  SIZE = 1). The stop test `row1 + 2 != row2` never fires on such a region. Its top-left
  quadrant keeps the same rows, and the recursion ends up calling `Diamond` on the same
  region again. With SIZE = 4, for example, `Diamond(2, 2, 3, 3)`
  calls `Square(2, 2, 3, 3)`, which calls `Diamond(2, 2, 3, 3)`, until the stack
  overflows. With SIZE = 0 the seeding already indexes out of range. This is why the
  model's `Diamond` requires a power-of-two side: it is what makes its `decreases`
  clause hold.
- Diamond, Square and Quadrants are defined only on square, in-bounds regions of
  power-of-two side at least 2. These are the only regions the recursion reaches from a
  valid size.
- Subdivision.Diamond: the contract does not bound heights for a positive roughness. The
  grid is filled by interleaved sibling calls that read each other's edge midpoints, so no
  per-call bound is inductive. The model proves the maximum principle for roughness 0
  (SubdivisionFacts.DiamondMax). For any roughness it proves the per-write amplitude law
  (SubdivisionFacts.DiamondLog).
- Generator.HeightsWrites: the number of writes is given through the log, not as the closed
  form `SIZE^2 - 4`.
