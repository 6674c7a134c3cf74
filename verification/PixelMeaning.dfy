// What sharpness and brightness mean: which pixels are sampled, what the luminance of a colour is,
// and when a metric takes its extreme values.
module PixelMeaning {
  import opened Basics
  import opened CaptureTypes
  import opened PixelMetrics

  // ----- Luminance -----

  predicate Inside(image: Image, x: int, y: int) {
    0 <= x < image.width && 0 <= y < image.height
  }

  // The colour of a pixel, by the channels of the image; a grey image has one.
  datatype Colour = Grey(level: byte) | Colour(blue: byte, green: byte, red: byte)

  function ColourAt(image: Image, x: int, y: int): Colour
    requires Readable(image) && Sized(image) && Inside(image, x, y)
  {
    PixelInBuffer(image.width, image.height, image.channels, x, y);
    var at := y * (image.width * image.channels) + x * image.channels;
    if image.channels == 1 then Grey(image.data[at]) else Colour(image.data[at], image.data[at + 1], image.data[at + 2])
  }

  // Luminance is the weighted mean of the channels, rounded to the nearest level: the weights are
  // 150 for green, 77 for red and 29 for blue, of 256. Grey stays as it is.
  lemma LuminanceExactly(image: Image, x: int, y: int)
    requires Readable(image) && Sized(image) && Inside(image, x, y)
    ensures var l := Luminance(image, x, y);
            match ColourAt(image, x, y)
            case Grey(level) => l == level
            case Colour(blue, green, red) =>
              && -128 <= 150 * green + 77 * red + 29 * blue - 256 * l < 128
              && (blue == green == red ==> l == green)
              && (green == 255 && red == blue == 0 ==> l == 149)
              && (red == 255 && green == blue == 0 ==> l == 77)
              && (blue == 255 && green == red == 0 ==> l == 29)
  {
  }

  // ----- Which pixels are sampled -----

  // Every sampled pixel lies in the image and in the face rectangle, and along each side of the
  // clipped rectangle there are at least 64 samples, or one for every pixel of a shorter side.
  lemma GridCoversTheFace(image: Image, rect: Rect)
    requires image.width > 0 && image.height > 0
    ensures var g := SampleGrid(image, rect);
            && g.left == MaxInt(0, rect.x) && g.right == MinInt(image.width, rect.x + rect.width)
            && g.top == MaxInt(0, rect.y) && g.bottom == MinInt(image.height, rect.y + rect.height)
    ensures var g := SampleGrid(image, rect);
            BigEnough(g) ==> Columns(g) >= MinInt(64, g.right - g.left) && Rows(g) >= MinInt(64, g.bottom - g.top)
  {
    var g := SampleGrid(image, rect);
    if BigEnough(g) {
      DenseSteps(g.left, g.right);
      DenseSteps(g.top, g.bottom);
    }
  }

  lemma {:induction false} StepsReach(lo: int, hi: int, step: int)
    requires step >= 1 && lo < hi
    ensures Steps(lo, hi, step) * step >= hi - lo
    decreases hi - lo
  {
    if lo + step < hi {
      StepsReach(lo + step, hi, step);
      assert (Steps(lo + step, hi, step) + 1) * step == Steps(lo + step, hi, step) * step + step;
    } else {
      assert Steps(lo, hi, step) == 1;
    }
  }

  lemma DenseSteps(lo: int, hi: int)
    requires lo < hi
    ensures Steps(lo, hi, MaxInt(1, (hi - lo) / 64)) >= MinInt(64, hi - lo)
  {
    var step := MaxInt(1, (hi - lo) / 64);
    StepsReach(lo, hi, step);
    var n := Steps(lo, hi, step);
    assert n < 64 && hi - lo >= 64 ==> n * step <= 63 * step;
  }

  // ----- Brightness -----

  function Times(level: int, n: int): int {
    level * n
  }

  lemma TimesAdds(level: int, a: int, b: int)
    ensures Times(level, a + b) == Times(level, a) + Times(level, b)
    ensures Times(level, 1) == level && Times(level, 0) == 0
  {
  }

  ghost predicate RowBetween(image: Image, g: Grid, x: int, y: int, lo: int, hi: int)
    requires Samples(image, g) && g.left <= x && g.top <= y < g.bottom
    decreases g.right - x
  {
    x < g.right ==> lo <= Luminance(image, x, y) <= hi && RowBetween(image, g, x + g.stepX, y, lo, hi)
  }

  // All samples on the rows from y on have a luminance in lo..hi.
  ghost predicate AllBetween(image: Image, g: Grid, y: int, lo: int, hi: int)
    requires Samples(image, g) && g.top <= y
    decreases g.bottom - y
  {
    y < g.bottom ==> RowBetween(image, g, g.left, y, lo, hi) && AllBetween(image, g, y + g.stepY, lo, hi)
  }

  lemma {:induction false} RowSumBetween(image: Image, g: Grid, x: int, y: int, lo: int, hi: int)
    requires Samples(image, g) && g.left <= x && g.top <= y < g.bottom && RowBetween(image, g, x, y, lo, hi)
    ensures Times(lo, Steps(x, g.right, g.stepX)) <= RowLuminance(image, g, x, y) <= Times(hi, Steps(x, g.right, g.stepX))
    decreases g.right - x
  {
    hide Luminance, Times;
    TimesAdds(lo, 1, Steps(x + g.stepX, g.right, g.stepX));
    TimesAdds(hi, 1, Steps(x + g.stepX, g.right, g.stepX));
    if x < g.right {
      RowSumBetween(image, g, x + g.stepX, y, lo, hi);
    } else {
      TimesAdds(lo, 0, 0);
      TimesAdds(hi, 0, 0);
    }
  }

  lemma {:induction false} SumBetween(image: Image, g: Grid, y: int, lo: int, hi: int)
    requires Samples(image, g) && g.top <= y && AllBetween(image, g, y, lo, hi)
    ensures Times(lo, TotalSamples(g, y)) <= TotalLuminance(image, g, y) <= Times(hi, TotalSamples(g, y))
    decreases g.bottom - y
  {
    hide Luminance, RowBetween, RowLuminance, Times;
    if y < g.bottom {
      RowSumBetween(image, g, g.left, y, lo, hi);
      SumBetween(image, g, y + g.stepY, lo, hi);
      TimesAdds(lo, Columns(g), TotalSamples(g, y + g.stepY));
      TimesAdds(hi, Columns(g), TotalSamples(g, y + g.stepY));
    } else {
      TimesAdds(lo, 0, 0);
      TimesAdds(hi, 0, 0);
    }
  }

  // Brightness lies between the levels of the darkest and the brightest sample; on a uniform
  // region it is that level.
  lemma BrightnessIsBetween(image: Image, rect: Rect, wantSharpness: bool, lo: int, hi: int)
    requires WellFormed(image) && Readable(image) && BigEnough(SampleGrid(image, rect))
    requires AllBetween(image, SampleGrid(image, rect), SampleGrid(image, rect).top, lo, hi)
    ensures var t := PixelTexture(image, rect, wantSharpness, true);
            t.Some? && lo as real / 255.0 <= t.value.brightness <= hi as real / 255.0
  {
    var g := SampleGrid(image, rect);
    GridHasSamples(g);
    SumBetween(image, g, g.top, lo, hi);
    TotalSamplesCount(g, g.top);
    hide TotalLuminance, TotalGradient, AllBetween, Steps;
    MeanBetween(TotalLuminance(image, g, g.top), Rows(g) * Columns(g), lo, hi);
  }

  lemma MeanBetween(sum: int, count: int, lo: int, hi: int)
    requires count > 0 && lo * count <= sum <= hi * count
    ensures lo as real / 255.0 <= sum as real / (255.0 * count as real) <= hi as real / 255.0
  {
    var d := 255.0 * count as real;
    assert (lo * count) as real == lo as real * count as real && (hi * count) as real == hi as real * count as real;
    DivLess(sum as real, d, lo as real / 255.0);
    DivLess(sum as real, d, hi as real / 255.0);
    assert lo as real / 255.0 * d == lo as real * count as real;
    assert hi as real / 255.0 * d == hi as real * count as real;
  }

  // ----- Sharpness -----

  // The sample differs from its right and its lower neighbour on the grid by exactly `step`.
  ghost predicate StepsBy(image: Image, g: Grid, x: int, y: int, step: int)
    requires Samples(image, g) && g.left <= x < g.right && g.top <= y < g.bottom
  {
    && (x + g.stepX < g.right ==> AbsInt(Luminance(image, x, y) - Luminance(image, x + g.stepX, y)) == step)
    && (y + g.stepY < g.bottom ==> AbsInt(Luminance(image, x, y) - Luminance(image, x, y + g.stepY)) == step)
  }

  ghost predicate RowStepsBy(image: Image, g: Grid, x: int, y: int, step: int)
    requires Samples(image, g) && g.left <= x && g.top <= y < g.bottom
    decreases g.right - x
  {
    x < g.right ==> StepsBy(image, g, x, y, step) && RowStepsBy(image, g, x + g.stepX, y, step)
  }

  // All neighbours on the rows from y on differ by exactly `step`.
  ghost predicate AllStepBy(image: Image, g: Grid, y: int, step: int)
    requires Samples(image, g) && g.top <= y
    decreases g.bottom - y
  {
    y < g.bottom ==> RowStepsBy(image, g, g.left, y, step) && AllStepBy(image, g, y + g.stepY, step)
  }

  // The row sum at its least is a row of equal neighbours, at its most one of full contrast.
  lemma {:induction false} RowExtremes(image: Image, g: Grid, x: int, y: int)
    requires Samples(image, g) && g.left <= x && g.top <= y < g.bottom
    ensures 0 <= RowGradient(image, g, x, y) <= 255 * RowPairs(g, x, y)
    ensures RowGradient(image, g, x, y) == 0 <==> RowStepsBy(image, g, x, y, 0)
    ensures RowGradient(image, g, x, y) == 255 * RowPairs(g, x, y) <==> RowStepsBy(image, g, x, y, 255)
    decreases g.right - x
  {
    hide Luminance;
    if x < g.right {
      RowExtremes(image, g, x + g.stepX, y);
    }
  }

  lemma {:induction false} Extremes(image: Image, g: Grid, y: int)
    requires Samples(image, g) && g.top <= y
    ensures 0 <= TotalGradient(image, g, y) <= 255 * TotalPairs(g, y)
    ensures TotalGradient(image, g, y) == 0 <==> AllStepBy(image, g, y, 0)
    ensures TotalGradient(image, g, y) == 255 * TotalPairs(g, y) <==> AllStepBy(image, g, y, 255)
    decreases g.bottom - y
  {
    hide Luminance, RowGradient, RowStepsBy, RowPairs;
    if y < g.bottom {
      RowExtremes(image, g, g.left, y);
      Extremes(image, g, y + g.stepY);
    }
  }

  lemma ExtremeRatio(sum: int, count: int)
    requires count > 0 && 0 <= sum <= 255 * count
    ensures sum as real / (255.0 * count as real) == 0.0 <==> sum == 0
    ensures sum as real / (255.0 * count as real) == 1.0 <==> sum == 255 * count
  {
    DivLess(sum as real, 255.0 * count as real, 0.0);
    DivLess(sum as real, 255.0 * count as real, 1.0);
  }

  // Sharpness is 0 exactly on a flat region and 1 exactly where every sampled neighbour, to the
  // right and below, is at full contrast.
  lemma SharpnessExtremes(image: Image, rect: Rect, wantBrightness: bool)
    requires WellFormed(image) && Readable(image) && BigEnough(SampleGrid(image, rect))
    ensures var t, g := PixelTexture(image, rect, true, wantBrightness), SampleGrid(image, rect);
            && t.Some?
            && (t.value.sharpness == 0.0 <==> AllStepBy(image, g, g.top, 0))
            && (t.value.sharpness == 1.0 <==> AllStepBy(image, g, g.top, 255))
  {
    var g := SampleGrid(image, rect);
    GridHasSamples(g);
    Extremes(image, g, g.top);
    TotalPairsCount(g, g.top);
    hide TotalLuminance, TotalGradient, AllStepBy, Steps, Pairs;
    ExtremeRatio(TotalGradient(image, g, g.top), Pairs(Rows(g), Columns(g)));
  }
}
