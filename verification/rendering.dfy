/** The arithmetic of GenerateBitmap: the scan for the largest and smallest height, and the
    map of a height to a grey level in 0..255. */
module Rendering {
  import opened Grids

  /** Math.Round on a double: the nearest integer, ties to the even neighbour. */
  function Round(x: real): (r: int)
    ensures (r as real) - 0.5 <= x <= (r as real) + 0.5
    ensures (x - (r as real) == 0.5 || (r as real) - x == 0.5) ==> r % 2 == 0
  {
    var f := x.Floor;
    var d := x - f as real;
    if d < 0.5 then f
    else if d > 0.5 then f + 1
    else if f % 2 == 0 then f
    else f + 1
  }

  /** Round is the unique integer within 1/2 of x when x is not halfway between two. */
  lemma RoundNearest(x: real, n: int)
    requires (n as real) - 0.5 < x < (n as real) + 0.5
    ensures Round(x) == n
  {
  }

  /** Rounding keeps the order. */
  lemma RoundMonotone(x: real, y: real)
    requires x <= y
    ensures Round(x) <= Round(y)
  {
  }

  /** The grey level of height v when the heights span [lo, hi] with lo < hi:
      `(int)Math.Round(v * (256 / (hi - lo)) - 1)`, and 0 if that is negative. */
  function Intensity(v: real, lo: real, hi: real): (c: int)
    requires lo < hi
    ensures c >= 0
  {
    Clip(Round(Level(v, lo, hi)))
  }

  /** The unrounded grey level `v * (256 / (hi - lo)) - 1`: it maps [lo, hi] linearly
      onto [-1 + 256 * lo / (hi - lo), 255] and keeps the order of heights. */
  function Level(v: real, lo: real, hi: real): (x: real)
    requires lo < hi
    ensures v <= 0.0 ==> x <= -1.0
    ensures lo <= 0.0 && v <= hi ==> x <= 255.0
    ensures lo == 0.0 && v == hi ==> x == 255.0
  {
    var m := 256.0 / (hi - lo);
    assert v <= 0.0 ==> v * m <= 0.0;
    assert lo <= 0.0 && v <= hi ==> v * m <= 256.0 by {
      if lo <= 0.0 && v <= hi {
        assert v * m <= hi * m by {
          assert (hi - v) * m >= 0.0;
        }
        assert hi * m == 256.0 * hi / (hi - lo);
        assert hi <= hi - lo;
      }
    }
    v * m - 1.0
  }

  /** The unrounded grey level keeps the order of heights. */
  lemma LevelMonotone(v: real, w: real, lo: real, hi: real)
    requires lo < hi && v <= w
    ensures Level(v, lo, hi) <= Level(w, lo, hi)
  {
    var m := 256.0 / (hi - lo);
    assert (w - v) * m >= 0.0;
  }

  /** The floor clamp on grey levels, `colorValue < 0 ? 0 : colorValue`. */
  function Clip(c: int): (r: nat)
    ensures c >= 0 ==> r == c
    ensures c < 0 ==> r == 0
  {
    if c < 0 then 0 else c
  }

  /** With lo <= 0, a height at most hi has a grey level at most 255. */
  lemma IntensityAtMost255(v: real, lo: real, hi: real)
    requires lo <= 0.0 <= hi && lo < hi && v <= hi
    ensures Intensity(v, lo, hi) <= 255
  {
    RoundMonotone(Level(v, lo, hi), 255.0);
    RoundNearest(255.0, 255);
  }

  /** A height of zero or less is black. */
  lemma IntensityOfLow(v: real, lo: real, hi: real)
    requires lo < hi && v <= 0.0
    ensures Intensity(v, lo, hi) == 0
  {
    RoundMonotone(Level(v, lo, hi), -1.0);
    RoundNearest(-1.0, -1);
  }

  /** When the heights span [0, hi], a height of hi is white. */
  lemma IntensityOfPeak(hi: real)
    requires hi > 0.0
    ensures Intensity(hi, 0.0, hi) == 255
  {
    RoundNearest(255.0, 255);
  }

  /** Grey levels keep the order of heights. */
  lemma IntensityMonotone(v: real, w: real, lo: real, hi: real)
    requires lo < hi && v <= w
    ensures Intensity(v, lo, hi) <= Intensity(w, lo, hi)
  {
    LevelMonotone(v, w, lo, hi);
    RoundMonotone(Level(v, lo, hi), Level(w, lo, hi));
  }

  /** What the first pass of GenerateBitmap finds: hi is the largest of 0 and the heights,
      lo the smallest. Both bounds start at 0, so each is 0 or a height of the grid. */
  predicate Span(g: Grid, lo: real, hi: real) {
    && lo <= 0.0 <= hi
    && (forall i, j :: 0 <= i < |g| && 0 <= j < |g[i]| ==> lo <= g[i][j] <= hi)
    && (hi == 0.0 || exists i, j :: 0 <= i < |g| && 0 <= j < |g[i]| && g[i][j] == hi)
    && (lo == 0.0 || exists i, j :: 0 <= i < |g| && 0 <= j < |g[i]| && g[i][j] == lo)
  }

  /** A grid has one span: the scan's result is determined by the heights alone. */
  lemma SpanUnique(g: Grid, lo: real, hi: real, lo': real, hi': real)
    requires Span(g, lo, hi) && Span(g, lo', hi')
    ensures lo == lo' && hi == hi'
  {
    if hi != 0.0 {
      var i, j :| 0 <= i < |g| && 0 <= j < |g[i]| && g[i][j] == hi;
      assert hi <= hi';
    }
    if hi' != 0.0 {
      var i, j :| 0 <= i < |g| && 0 <= j < |g[i]| && g[i][j] == hi';
      assert hi' <= hi;
    }
    if lo != 0.0 {
      var i, j :| 0 <= i < |g| && 0 <= j < |g[i]| && g[i][j] == lo;
      assert lo' <= lo;
    }
    if lo' != 0.0 {
      var i, j :| 0 <= i < |g| && 0 <= j < |g[i]| && g[i][j] == lo';
      assert lo <= lo';
    }
  }

  /** The first pass of GenerateBitmap: max and min, both starting at 0, raised and lowered
      cell by cell. Each ends as 0 or as a height of the grid. */
  method ScanRange(g: Grid) returns (lo: real, hi: real)
    requires WellFormed(g)
    ensures Span(g, lo, hi)
  {
    var n := |g|;
    lo, hi := 0.0, 0.0;
    var row := 0;
    while row < n
      invariant 0 <= row <= n
      invariant lo <= 0.0 <= hi
      invariant forall i, j :: 0 <= i < row && 0 <= j < n ==> lo <= g[i][j] <= hi
      invariant hi == 0.0 || exists i, j :: 0 <= i < row && 0 <= j < n && g[i][j] == hi
      invariant lo == 0.0 || exists i, j :: 0 <= i < row && 0 <= j < n && g[i][j] == lo
    {
      var col := 0;
      while col < n
        invariant 0 <= col <= n
        invariant lo <= 0.0 <= hi
        invariant forall i, j :: 0 <= i < row && 0 <= j < n ==> lo <= g[i][j] <= hi
        invariant forall j :: 0 <= j < col ==> lo <= g[row][j] <= hi
        invariant hi == 0.0 || exists i, j :: 0 <= i <= row && 0 <= j < n && g[i][j] == hi
        invariant lo == 0.0 || exists i, j :: 0 <= i <= row && 0 <= j < n && g[i][j] == lo
      {
        var value := g[row][col];
        if value > hi {
          hi := value;
        }
        if value < lo {
          lo := value;
        }
        col := col + 1;
      }
      row := row + 1;
    }
  }

  /** Some height is not zero, so that max > min. */
  predicate NotFlat(g: Grid) {
    exists i, j :: 0 <= i < |g| && 0 <= j < |g[i]| && g[i][j] != 0.0
  }

  /** The grey level GenerateBitmap sets for height v once the scan found [lo, hi]. When
      lo == hi the multiplier `256 / (max - min)` is an IEEE infinity, every height is 0, and
      `0 * infinity - 1` is NaN; its conversion to int lands at or below 0 and is clipped to 0. */
  function Grey(v: real, lo: real, hi: real): (c: int)
    requires lo <= hi
    ensures 0 <= c
    ensures lo == hi ==> c == 0
  {
    if lo == hi then 0 else Intensity(v, lo, hi)
  }

  /** The grey levels GenerateBitmap sets, row by row, with the min and max its first pass
      finds: each pixel the grey level of its height within that span, every level in
      0..255, in the order of the heights, a height of zero or less black, an all-zero grid
      black throughout, and, when some height is positive and none negative, the highest
      heights white. */
  method GenerateBitmap(g: Grid) returns (px: seq<seq<int>>, lo: real, hi: real)
    requires WellFormed(g)
    ensures |px| == |g| && forall i :: 0 <= i < |px| ==> |px[i]| == |g|
    ensures Span(g, lo, hi)
    ensures forall i, j :: 0 <= i < |g| && 0 <= j < |g| ==> px[i][j] == Grey(g[i][j], lo, hi)
    ensures forall i, j :: 0 <= i < |g| && 0 <= j < |g| ==> 0 <= px[i][j] <= 255
    ensures forall i, j, a, b ::
              (0 <= i < |g| && 0 <= j < |g| && 0 <= a < |g| && 0 <= b < |g| && g[i][j] <= g[a][b]) ==>
              px[i][j] <= px[a][b]
    ensures forall i, j :: 0 <= i < |g| && 0 <= j < |g| && g[i][j] <= 0.0 ==> px[i][j] == 0
    ensures !NotFlat(g) ==> forall i, j :: 0 <= i < |g| && 0 <= j < |g| ==> px[i][j] == 0
    ensures (NotFlat(g) && forall i, j :: 0 <= i < |g| && 0 <= j < |g| ==> g[i][j] >= 0.0) ==>
              forall i, j ::
                (0 <= i < |g| && 0 <= j < |g| && forall a, b :: 0 <= a < |g| && 0 <= b < |g| ==> g[a][b] <= g[i][j]) ==>
                px[i][j] == 255
    ensures (NotFlat(g) && forall i, j :: 0 <= i < |g| && 0 <= j < |g| ==> g[i][j] >= 0.0) ==>
              exists i, j :: 0 <= i < |g| && 0 <= j < |g| && px[i][j] == 255
  {
    var n := |g|;
    lo, hi := ScanRange(g);
    px := [];
    var row := 0;
    while row < n
      invariant 0 <= row <= n && |px| == row
      invariant forall i :: 0 <= i < row ==> |px[i]| == n
      invariant forall i, j :: 0 <= i < row && 0 <= j < n ==> px[i][j] == Grey(g[i][j], lo, hi)
    {
      var line := [];
      var col := 0;
      while col < n
        invariant 0 <= col <= n && |line| == col
        invariant forall j :: 0 <= j < col ==> line[j] == Grey(g[row][j], lo, hi)
      {
        line := line + [Grey(g[row][col], lo, hi)];
        col := col + 1;
      }
      px := px + [line];
      row := row + 1;
    }
    assert Rendered(g, px, lo, hi);
    RenderedRange(g, px, lo, hi);
    RenderedMonotone(g, px, lo, hi);
    if NotFlat(g) && forall i, j :: 0 <= i < n && 0 <= j < n ==> g[i][j] >= 0.0 {
      RenderedPeak(g, px, lo, hi);
    }
  }

  /** px is the image GenerateBitmap draws for g once its scan found [lo, hi]: one grey
      level per height. */
  predicate Rendered(g: Grid, px: seq<seq<int>>, lo: real, hi: real) {
    && WellFormed(g) && Span(g, lo, hi)
    && |px| == |g| && (forall i :: 0 <= i < |px| ==> |px[i]| == |g|)
    && forall i, j :: 0 <= i < |g| && 0 <= j < |g| ==> px[i][j] == Grey(g[i][j], lo, hi)
  }

  /** Every grey level lies in 0..255, and a height of zero or less is black. */
  lemma RenderedRange(g: Grid, px: seq<seq<int>>, lo: real, hi: real)
    requires Rendered(g, px, lo, hi)
    ensures forall i, j :: 0 <= i < |g| && 0 <= j < |g| ==> 0 <= px[i][j] <= 255
    ensures forall i, j :: 0 <= i < |g| && 0 <= j < |g| && g[i][j] <= 0.0 ==> px[i][j] == 0
  {
    if lo < hi {
      forall i, j | 0 <= i < |g| && 0 <= j < |g|
        ensures px[i][j] <= 255
        ensures g[i][j] <= 0.0 ==> px[i][j] == 0
      {
        IntensityAtMost255(g[i][j], lo, hi);
        if g[i][j] <= 0.0 {
          IntensityOfLow(g[i][j], lo, hi);
        }
      }
    }
  }

  /** Grey levels keep the order of heights across the image. */
  lemma RenderedMonotone(g: Grid, px: seq<seq<int>>, lo: real, hi: real)
    requires Rendered(g, px, lo, hi)
    ensures forall i, j, a, b ::
              (0 <= i < |g| && 0 <= j < |g| && 0 <= a < |g| && 0 <= b < |g| && g[i][j] <= g[a][b]) ==>
              px[i][j] <= px[a][b]
  {
    if lo < hi {
      forall i, j, a, b | 0 <= i < |g| && 0 <= j < |g| && 0 <= a < |g| && 0 <= b < |g| && g[i][j] <= g[a][b]
        ensures px[i][j] <= px[a][b]
      {
        IntensityMonotone(g[i][j], g[a][b], lo, hi);
      }
    }
  }

  /** With some height positive and none negative, the highest heights are white, and so
      some pixel is. */
  lemma RenderedPeak(g: Grid, px: seq<seq<int>>, lo: real, hi: real)
    requires Rendered(g, px, lo, hi) && NotFlat(g)
    requires forall i, j :: 0 <= i < |g| && 0 <= j < |g| ==> g[i][j] >= 0.0
    ensures forall i, j ::
              (0 <= i < |g| && 0 <= j < |g| && forall a, b :: 0 <= a < |g| && 0 <= b < |g| ==> g[a][b] <= g[i][j]) ==>
              px[i][j] == 255
    ensures exists i, j :: 0 <= i < |g| && 0 <= j < |g| && px[i][j] == 255
  {
    var n := |g|;
    var i0, j0 :| 0 <= i0 < n && 0 <= j0 < |g[i0]| && g[i0][j0] != 0.0;
    assert lo < hi;
    forall i, j | 0 <= i < n && 0 <= j < n && (forall a, b :: 0 <= a < n && 0 <= b < n ==> g[a][b] <= g[i][j])
      ensures px[i][j] == 255
    {
      PeakIsMax(g, lo, hi, i, j);
      IntensityOfPeak(hi);
    }
    var i, j :| 0 <= i < n && 0 <= j < n && g[i][j] == hi;
    PeakIsMax(g, lo, hi, i, j);
    IntensityOfPeak(hi);
  }

  /** When no height is negative the scan's min is 0, and a highest height is its max. */
  lemma PeakIsMax(g: Grid, lo: real, hi: real, i: int, j: int)
    requires WellFormed(g) && 0 <= i < |g| && 0 <= j < |g|
    requires Span(g, lo, hi)
    requires forall a, b :: 0 <= a < |g| && 0 <= b < |g| ==> 0.0 <= g[a][b] <= g[i][j]
    ensures lo == 0.0 && g[i][j] == hi
  {
  }
}
