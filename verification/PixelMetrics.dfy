// Sharpness and brightness of a face region, sampled on a grid of at most 127 x 127 pixels.
module PixelMetrics {
  import opened Basics
  import opened CaptureTypes

  // ----- Reading one pixel -----

  // What an image buffer holds: one row after the other, `channels` bytes a pixel.
  predicate Sized(image: Image) {
    image.width > 0 && image.height > 0 && image.channels > 0 && |image.data| == image.width * image.height * image.channels
  }

  predicate Readable(image: Image) {
    image.data != [] && image.width > 0 && image.height > 0 && (image.channels == 1 || image.channels >= 3)
  }

  // An image is empty or its buffer has the size its dimensions ask for.
  predicate WellFormed(image: Image) {
    image.data != [] ==> Sized(image)
  }

  // Every byte of a pixel inside the image is inside the buffer.
  lemma PixelInBuffer(width: int, height: int, channels: int, x: int, y: int)
    requires 0 <= x < width && 0 <= y < height && channels > 0
    ensures 0 <= y * (width * channels) + x * channels
    ensures y * (width * channels) + x * channels + channels <= width * height * channels
  {
    var stride := width * channels;
    assert 0 <= x * channels && x * channels + channels == (x + 1) * channels <= stride;
    RowInBuffer(height, stride, y);
    assert height * stride == width * height * channels;
  }

  lemma RowInBuffer(height: int, stride: int, y: int)
    requires 0 <= y < height && stride >= 0
    ensures 0 <= y * stride && y * stride + stride <= height * stride
  {
    assert (y + 1) * stride <= height * stride;
  }

  // Luminance of the pixel at (x, y); colour images are stored blue, green, red.
  function Luminance(image: Image, x: int, y: int): byte
    requires Readable(image) && Sized(image) && 0 <= x < image.width && 0 <= y < image.height
  {
    PixelInBuffer(image.width, image.height, image.channels, x, y);
    var at := y * (image.width * image.channels) + x * image.channels;
    if image.channels == 1 then image.data[at]
    else
      var blue: int, green: int, red: int := image.data[at], image.data[at + 1], image.data[at + 2];
      (29 * blue + 150 * green + 77 * red + 128) / 256
  }

  // ----- The sampling grid -----

  datatype Grid = Grid(left: int, top: int, right: int, bottom: int, stepX: int, stepY: int)

  function SampleGrid(image: Image, rect: Rect): Grid {
    var left, top := MaxInt(0, rect.x), MaxInt(0, rect.y);
    var right, bottom := MinInt(image.width, rect.x + rect.width), MinInt(image.height, rect.y + rect.height);
    // The differences are at least 3 wherever the steps are used, so division truncates.
    Grid(left, top, right, bottom, MaxInt(1, (right - left) / 64), MaxInt(1, (bottom - top) / 64))
  }

  predicate BigEnough(g: Grid) {
    g.right - g.left >= 3 && g.bottom - g.top >= 3
  }

  ghost predicate Samples(image: Image, g: Grid) {
    && Readable(image) && Sized(image)
    && 0 <= g.left && g.right <= image.width && 0 <= g.top && g.bottom <= image.height
    && g.stepX >= 1 && g.stepY >= 1
  }

  // The number of samples lo, lo + step, ... below hi.
  function Steps(lo: int, hi: int, step: int): nat
    requires step >= 1
    decreases hi - lo
  {
    if lo >= hi then 0 else 1 + Steps(lo + step, hi, step)
  }

  // Sums over the samples at or to the right of x on row y, and over the rows at or below y.

  function RowLuminance(image: Image, g: Grid, x: int, y: int): int
    requires Samples(image, g) && g.left <= x && g.top <= y < g.bottom
    decreases g.right - x
  {
    if x >= g.right then 0 else Luminance(image, x, y) + RowLuminance(image, g, x + g.stepX, y)
  }

  function TotalLuminance(image: Image, g: Grid, y: int): int
    requires Samples(image, g) && g.top <= y
    decreases g.bottom - y
  {
    if y >= g.bottom then 0 else RowLuminance(image, g, g.left, y) + TotalLuminance(image, g, y + g.stepY)
  }

  // The steps in luminance from (x, y) to the next sample on the right and the next one below.
  function GradientRight(image: Image, g: Grid, x: int, y: int): int
    requires Samples(image, g) && g.left <= x < g.right && g.top <= y < g.bottom
  {
    if x + g.stepX < g.right then AbsInt(Luminance(image, x, y) - Luminance(image, x + g.stepX, y)) else 0
  }

  function GradientDown(image: Image, g: Grid, x: int, y: int): int
    requires Samples(image, g) && g.left <= x < g.right && g.top <= y < g.bottom
  {
    if y + g.stepY < g.bottom then AbsInt(Luminance(image, x, y) - Luminance(image, x, y + g.stepY)) else 0
  }

  function RowGradient(image: Image, g: Grid, x: int, y: int): int
    requires Samples(image, g) && g.left <= x && g.top <= y < g.bottom
    decreases g.right - x
  {
    if x >= g.right then 0
    else GradientRight(image, g, x, y) + GradientDown(image, g, x, y) + RowGradient(image, g, x + g.stepX, y)
  }

  function TotalGradient(image: Image, g: Grid, y: int): int
    requires Samples(image, g) && g.top <= y
    decreases g.bottom - y
  {
    if y >= g.bottom then 0 else RowGradient(image, g, g.left, y) + TotalGradient(image, g, y + g.stepY)
  }

  function Columns(g: Grid): nat
    requires g.stepX >= 1
  {
    Steps(g.left, g.right, g.stepX)
  }

  function Rows(g: Grid): nat
    requires g.stepY >= 1
  {
    Steps(g.top, g.bottom, g.stepY)
  }

  // Neighbouring sample pairs of a rows x columns grid.
  function Pairs(rows: int, columns: int): int {
    rows * (columns - 1) + columns * (rows - 1)
  }

  // ----- The metrics -----

  // -1 stands for a metric that was not asked for.
  datatype Texture = Texture(sharpness: real, brightness: real)

  function PixelTexture(image: Image, rect: Rect, wantSharpness: bool, wantBrightness: bool): Option<Texture>
    requires WellFormed(image)
  {
    var g := SampleGrid(image, rect);
    if !wantSharpness && !wantBrightness then Some(Texture(-1.0, -1.0))
    else if !Readable(image) || !BigEnough(g) then None
    else
      GridHasSamples(g);
      Some(Texture(
        if wantSharpness then
          TotalGradient(image, g, g.top) as real / (255.0 * Pairs(Rows(g), Columns(g)) as real) else -1.0,
        if wantBrightness then
          TotalLuminance(image, g, g.top) as real / (255.0 * (Rows(g) * Columns(g)) as real) else -1.0))
  }

  lemma {:induction false} StepsSpan(lo: int, hi: int, step: int)
    requires step >= 1 && lo < hi
    ensures Steps(lo, hi, step) >= 1
    ensures (Steps(lo, hi, step) - 1) * step < hi - lo
    ensures hi - lo > step ==> Steps(lo, hi, step) >= 2
    decreases hi - lo
  {
    if lo + step < hi {
      StepsSpan(lo + step, hi, step);
      var n := Steps(lo + step, hi, step);
      assert n * step == (n - 1) * step + step;
    }
  }

  lemma StepsAtMost127(lo: int, hi: int)
    requires hi - lo >= 3
    ensures 2 <= Steps(lo, hi, MaxInt(1, (hi - lo) / 64)) <= 127
  {
    var step := MaxInt(1, (hi - lo) / 64);
    StepsSpan(lo, hi, step);
    var n := Steps(lo, hi, step);
    assert n >= 128 ==> 127 * step <= (n - 1) * step;
  }

  // The grid of any clipped rectangle of at least 3 x 3 pixels has between 2 and 127 rows and
  // columns, so there are neighbouring samples to compare and never more than 127 x 127 reads.
  lemma GridHasSamples(g: Grid)
    requires BigEnough(g)
    requires g.stepX == MaxInt(1, (g.right - g.left) / 64) && g.stepY == MaxInt(1, (g.bottom - g.top) / 64)
    ensures 2 <= Columns(g) <= 127 && 2 <= Rows(g) <= 127
    ensures Rows(g) * Columns(g) > 0 && Pairs(Rows(g), Columns(g)) > 0
  {
    StepsAtMost127(g.left, g.right);
    StepsAtMost127(g.top, g.bottom);
    assert Rows(g) * (Columns(g) - 1) > 0;
    assert Columns(g) * (Rows(g) - 1) > 0;
    assert Rows(g) * Columns(g) > 0;
  }

  lemma {:induction false} RowBounds(image: Image, g: Grid, x: int, y: int)
    requires Samples(image, g) && g.left <= x && g.top <= y < g.bottom
    ensures 0 <= RowLuminance(image, g, x, y) <= 255 * Steps(x, g.right, g.stepX)
    ensures 0 <= RowGradient(image, g, x, y) <= 255 * RowPairs(g, x, y)
    decreases g.right - x
  {
    if x < g.right {
      RowBounds(image, g, x + g.stepX, y);
    }
  }

  // Neighbouring pairs whose left or upper sample is on row y, at or to the right of x.
  function RowPairs(g: Grid, x: int, y: int): nat
    requires g.stepX >= 1
    decreases g.right - x
  {
    if x >= g.right then 0
    else (if x + g.stepX < g.right then 1 else 0) + (if y + g.stepY < g.bottom then 1 else 0) + RowPairs(g, x + g.stepX, y)
  }

  function TotalPairs(g: Grid, y: int): nat
    requires g.stepX >= 1 && g.stepY >= 1
    decreases g.bottom - y
  {
    if y >= g.bottom then 0 else RowPairs(g, g.left, y) + TotalPairs(g, y + g.stepY)
  }

  lemma {:induction false} RowPairsCount(g: Grid, x: int, y: int)
    requires g.stepX >= 1 && x < g.right
    ensures RowPairs(g, x, y)
         == Steps(x, g.right, g.stepX) - 1 + (if y + g.stepY < g.bottom then Steps(x, g.right, g.stepX) else 0)
    decreases g.right - x
  {
    if x + g.stepX < g.right {
      RowPairsCount(g, x + g.stepX, y);
    }
  }

  lemma {:induction false} TotalPairsCount(g: Grid, y: int)
    requires g.stepX >= 1 && g.stepY >= 1 && g.left < g.right && y < g.bottom
    ensures TotalPairs(g, y) == Pairs(Steps(y, g.bottom, g.stepY), Columns(g))
    decreases g.bottom - y
  {
    RowPairsCount(g, g.left, y);
    if y + g.stepY < g.bottom {
      TotalPairsCount(g, y + g.stepY);
      PairsOneMoreRow(Steps(y + g.stepY, g.bottom, g.stepY), Columns(g));
    }
  }

  lemma PairsOneMoreRow(rows: int, columns: int)
    ensures Pairs(rows + 1, columns) == columns - 1 + columns + Pairs(rows, columns)
  {
    assert (rows + 1) * (columns - 1) == rows * (columns - 1) + (columns - 1);
    assert columns * rows == columns * (rows - 1) + columns;
  }

  // Samples on the rows at or below y.
  function TotalSamples(g: Grid, y: int): nat
    requires g.stepX >= 1 && g.stepY >= 1
    decreases g.bottom - y
  {
    if y >= g.bottom then 0 else Columns(g) + TotalSamples(g, y + g.stepY)
  }

  lemma {:induction false} TotalSamplesCount(g: Grid, y: int)
    requires g.stepX >= 1 && g.stepY >= 1
    ensures TotalSamples(g, y) == Steps(y, g.bottom, g.stepY) * Columns(g)
    decreases g.bottom - y
  {
    if y < g.bottom {
      TotalSamplesCount(g, y + g.stepY);
      var rows, columns := Steps(y + g.stepY, g.bottom, g.stepY), Columns(g);
      assert (1 + rows) * columns == columns + rows * columns;
    }
  }

  lemma {:induction false} TotalBounds(image: Image, g: Grid, y: int)
    requires Samples(image, g) && g.top <= y
    ensures 0 <= TotalLuminance(image, g, y) <= 255 * TotalSamples(g, y)
    ensures 0 <= TotalGradient(image, g, y) <= 255 * TotalPairs(g, y)
    decreases g.bottom - y
  {
    if y < g.bottom {
      RowBounds(image, g, g.left, y);
      TotalBounds(image, g, y + g.stepY);
    }
  }

  lemma RatioInUnit(sum: int, count: int)
    requires 0 <= sum <= 255 * count && count > 0
    ensures 0.0 <= sum as real / (255.0 * count as real) <= 1.0
  {
    var d := 255.0 * count as real;
    var q := sum as real / d;
    assert q * d == sum as real;
    assert q > 1.0 ==> q * d > d;
    assert q < 0.0 ==> q * d < 0.0;
  }

  // Both metrics are averages of values in [0, 1], so the final clamp never changes them.
  lemma TextureInUnit(image: Image, rect: Rect, wantSharpness: bool, wantBrightness: bool)
    requires WellFormed(image)
    ensures var t := PixelTexture(image, rect, wantSharpness, wantBrightness);
            t.Some? ==>
              && (wantSharpness ==> 0.0 <= t.value.sharpness <= 1.0)
              && (wantBrightness ==> 0.0 <= t.value.brightness <= 1.0)
  {
    var g := SampleGrid(image, rect);
    if Readable(image) && BigEnough(g) {
      GridHasSamples(g);
      TotalBounds(image, g, g.top);
      TotalPairsCount(g, g.top);
      TotalSamplesCount(g, g.top);
      RatioInUnit(TotalGradient(image, g, g.top), Pairs(Rows(g), Columns(g)));
      RatioInUnit(TotalLuminance(image, g, g.top), Rows(g) * Columns(g));
    }
  }

  // The sampling loops, with the two counters the averages divide by.
  method SampleLoops(image: Image, g: Grid, wantSharpness: bool, wantBrightness: bool)
    returns (luminanceSum: int, sampleCount: int, gradientSum: int, gradientCount: int)
    requires Samples(image, g)
    ensures wantBrightness ==> luminanceSum == TotalLuminance(image, g, g.top) && sampleCount == TotalSamples(g, g.top)
    ensures wantSharpness ==> gradientSum == TotalGradient(image, g, g.top) && gradientCount == TotalPairs(g, g.top)
  {
    hide Luminance, AbsInt;
    luminanceSum, gradientSum, sampleCount, gradientCount := 0, 0, 0, 0;
    var y := g.top;
    while y < g.bottom
      invariant g.top <= y
      invariant wantBrightness ==> luminanceSum + TotalLuminance(image, g, y) == TotalLuminance(image, g, g.top)
      invariant wantBrightness ==> sampleCount + TotalSamples(g, y) == TotalSamples(g, g.top)
      invariant wantSharpness ==> gradientSum + TotalGradient(image, g, y) == TotalGradient(image, g, g.top)
      invariant wantSharpness ==> gradientCount + TotalPairs(g, y) == TotalPairs(g, g.top)
      decreases g.bottom - y
    {
      var x := g.left;
      ghost var lum0, grad0, samples0, pairs0 := luminanceSum, gradientSum, sampleCount, gradientCount;
      while x < g.right
        invariant g.left <= x
        invariant wantBrightness ==> luminanceSum + RowLuminance(image, g, x, y) == lum0 + RowLuminance(image, g, g.left, y)
        invariant wantBrightness ==> sampleCount + Steps(x, g.right, g.stepX) == samples0 + Columns(g)
        invariant wantSharpness ==> gradientSum + RowGradient(image, g, x, y) == grad0 + RowGradient(image, g, g.left, y)
        invariant wantSharpness ==> gradientCount + RowPairs(g, x, y) == pairs0 + RowPairs(g, g.left, y)
        decreases g.right - x
      {
        var current := Luminance(image, x, y);
        if wantBrightness {
          luminanceSum := luminanceSum + current;
          sampleCount := sampleCount + 1;
        }
        if wantSharpness && x + g.stepX < g.right {
          gradientSum := gradientSum + AbsInt(current - Luminance(image, x + g.stepX, y));
          gradientCount := gradientCount + 1;
        }
        if wantSharpness && y + g.stepY < g.bottom {
          gradientSum := gradientSum + AbsInt(current - Luminance(image, x, y + g.stepY));
          gradientCount := gradientCount + 1;
        }
        x := x + g.stepX;
      }
      y := y + g.stepY;
    }
  }

  method ComputePixelMetrics(image: Image, rect: Rect, wantSharpness: bool, wantBrightness: bool)
    returns (texture: Option<Texture>)
    requires WellFormed(image)
    ensures texture == PixelTexture(image, rect, wantSharpness, wantBrightness)
  {
    if !wantSharpness && !wantBrightness {
      return Some(Texture(-1.0, -1.0));
    }
    var g := SampleGrid(image, rect);
    if !Readable(image) || !BigEnough(g) {
      return None;
    }
    var luminanceSum, sampleCount, gradientSum, gradientCount := SampleLoops(image, g, wantSharpness, wantBrightness);
    GridHasSamples(g);
    TotalPairsCount(g, g.top);
    TotalSamplesCount(g, g.top);
    if (wantBrightness && sampleCount == 0) || (wantSharpness && gradientCount == 0) {
      return None;
    }
    TextureInUnit(image, rect, wantSharpness, wantBrightness);
    var brightness, sharpness := -1.0, -1.0;
    if wantBrightness {
      brightness := Clamp01(luminanceSum as real / (255.0 * sampleCount as real));
    }
    if wantSharpness {
      sharpness := Clamp01(gradientSum as real / (255.0 * gradientCount as real));
    }
    return Some(Texture(sharpness, brightness));
  }
}
