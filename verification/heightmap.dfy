/** GenerateHeightmap end to end: seed, recurse, render. */
module Heightmap {
  import opened Grids
  import opened Subdivision
  import opened Generator
  import opened Rendering

  /** The grey-level image of the generated heights, row by row, with the span [lo, hi]
      found by the first pass: each pixel is the grey level of its height within that span. With valid draws and a non-negative
      maxHeight some pixel is white exactly when some height is not 0; a grid of zeros
      renders black throughout. */
  method GenerateHeightmap(cfg: Config, draws: Draws) returns (bmp: seq<seq<int>>, lo: real, hi: real)
    requires ValidSize(cfg.size)
    ensures |bmp| == cfg.size && forall i :: 0 <= i < cfg.size ==> |bmp[i]| == cfg.size
    ensures Span(Heights(cfg, draws).grid, lo, hi)
    ensures forall i, j :: 0 <= i < cfg.size && 0 <= j < cfg.size ==>
      bmp[i][j] == Grey(Heights(cfg, draws).grid[i][j], lo, hi)
    ensures forall i, j :: 0 <= i < cfg.size && 0 <= j < cfg.size ==> 0 <= bmp[i][j] <= 255
    ensures !NotFlat(Heights(cfg, draws).grid) ==>
      forall i, j :: 0 <= i < cfg.size && 0 <= j < cfg.size ==> bmp[i][j] == 0
    ensures ValidDraws(draws) && cfg.maxHeight >= 0.0 ==>
      ((exists i, j :: 0 <= i < cfg.size && 0 <= j < cfg.size && bmp[i][j] == 255) <==>
       NotFlat(Heights(cfg, draws).grid))
  {
    var g := Heights(cfg, draws).grid;
    bmp, lo, hi := GenerateBitmap(g);
    if ValidDraws(draws) && cfg.maxHeight >= 0.0 {
      HeightsComplete(cfg, draws);
    }
  }
}
