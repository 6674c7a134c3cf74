// What the metrics and the score of a face are: each metric against the face it measures, and the
// score as the mean of one part per enabled filter.
module ScoreMeaning {
  import opened Basics
  import opened CaptureTypes
  import opened CapturePolicy
  import opened CaptureVerdict
  import opened PixelMetrics
  import PixelMeaning

  // ----- Shapes of a part -----

  // p falls linearly from 1 at distance 0 to 0 at distance `reach`, and stays there.
  predicate Falls(p: real, distance: real, reach: real) {
    if distance >= reach then p == 0.0
    else if distance <= 0.0 then p == 1.0
    else (1.0 - p) * reach == distance
  }

  // p is how far inside its limit a value is; a zero limit admits only zero.
  predicate IsHeadroom(p: real, value: real, limit: real) {
    if limit == 0.0 then p == (if value == 0.0 then 1.0 else 0.0) else Falls(p, value, limit)
  }

  // p is how close a value is to the middle of lo..hi: 1 in the middle, 0 from the ends on.
  predicate IsCentral(p: real, value: real, lo: real, hi: real) {
    Falls(p, Abs(2.0 * value - (lo + hi)), Max(0.0002, hi - lo))
  }

  lemma FallsExactly(distance: real, reach: real)
    requires reach > 0.0
    ensures Falls(Clamp01(1.0 - distance / reach), distance, reach)
  {
    DivLess(distance, reach, 1.0);
    DivLess(distance, reach, 0.0);
    assert distance / reach * reach == distance;
  }

  lemma HeadroomExactly(value: real, limit: real)
    requires limit >= 0.0
    ensures IsHeadroom(Clamp01(Headroom(value, limit)), value, limit)
  {
    if limit > 0.0 {
      FallsExactly(value, limit);
    }
  }

  lemma CentralityExactly(value: real, lo: real, hi: real)
    ensures IsCentral(Clamp01(Centrality(value, lo, hi)), value, lo, hi)
  {
    var distance, reach := Abs(value - (lo + hi) * 0.5), Max(0.0001, (hi - lo) * 0.5);
    FallsExactly(distance, reach);
    DoubledFalls(Clamp01(1.0 - distance / reach), distance, reach);
    assert 2.0 * distance == Abs(2.0 * value - (lo + hi)) && 2.0 * reach == Max(0.0002, hi - lo);
    hide Falls, Clamp01;
  }

  lemma DoubledFalls(p: real, distance: real, reach: real)
    requires Falls(p, distance, reach)
    ensures Falls(p, 2.0 * distance, 2.0 * reach)
  {
  }

  lemma ClampOfMin(a: real, b: real)
    ensures Clamp01(Min(a, b)) == Min(Clamp01(a), Clamp01(b))
  {
  }

  // ----- One part per filter -----

  // What the code adds for a filter, before it is clamped.
  function RawPart(c: Config, m: Metrics, trackCount: int, f: Filter): real {
    match f
    case FaceCount => 1.0
    case FaceSize => Centrality(m.faceWidthRatio, c.minFaceWidthRatio, c.maxFaceWidthRatio)
    case FacePosition => Min(Headroom(m.centerOffsetX, c.maxCenterOffsetX), Headroom(m.centerOffsetY, c.maxCenterOffsetY))
    case FaceBoundary => 1.0
    case TrackCount => TrackPart(c, trackCount)
    case Stability => m.stabilityScore
    case Pose => m.poseScore
    case Quality => m.qualityScore
    case Sharpness => m.sharpnessScore
    case Brightness => Centrality(m.brightnessScore, c.minBrightnessScore, c.maxBrightnessScore)
    case Unsupported(_) => 0.0
  }

  function Share(c: Config, m: Metrics, trackCount: int, f: Filter): real {
    if f in c.filters then Clamp01(RawPart(c, m, trackCount, f)) else 0.0
  }

  function One(c: Config, f: Filter): nat {
    if f in c.filters then 1 else 0
  }

  function AllShares(c: Config, m: Metrics, trackCount: int): real {
    Share(c, m, trackCount, FaceCount) + Share(c, m, trackCount, FaceSize) + Share(c, m, trackCount, FacePosition)
    + Share(c, m, trackCount, FaceBoundary) + Share(c, m, trackCount, TrackCount) + Share(c, m, trackCount, Stability)
    + Share(c, m, trackCount, Pose) + Share(c, m, trackCount, Quality) + Share(c, m, trackCount, Sharpness)
    + Share(c, m, trackCount, Brightness)
  }

  function EnabledFilters(c: Config): nat {
    One(c, FaceCount) + One(c, FaceSize) + One(c, FacePosition) + One(c, FaceBoundary) + One(c, TrackCount)
    + One(c, Stability) + One(c, Pose) + One(c, Quality) + One(c, Sharpness) + One(c, Brightness)
  }

  lemma PlusAdds(parts: seq<real>, enabled: bool, value: real)
    ensures Sum(Plus(parts, enabled, value)) == Sum(parts) + if enabled then Clamp01(value) else 0.0
    ensures |Plus(parts, enabled, value)| == |parts| + if enabled then 1 else 0
  {
    assert (parts + [Clamp01(value)])[..|parts|] == parts;
  }

  lemma FramePartsAdd(c: Config, m: Metrics, trackCount: int)
    ensures Sum(FrameParts(c, m)) == Share(c, m, trackCount, FaceCount) + Share(c, m, trackCount, FaceSize)
                                   + Share(c, m, trackCount, FacePosition) + Share(c, m, trackCount, FaceBoundary)
    ensures |FrameParts(c, m)| == One(c, FaceCount) + One(c, FaceSize) + One(c, FacePosition) + One(c, FaceBoundary)
  {
    hide Plus, Clamp01, Centrality, Headroom, Min;
    var size := RawPart(c, m, trackCount, FaceSize);
    var position := RawPart(c, m, trackCount, FacePosition);
    PlusAdds([], FaceCount in c.filters, 1.0);
    var parts1 := Plus([], FaceCount in c.filters, 1.0);
    PlusAdds(parts1, FaceSize in c.filters, size);
    var parts2 := Plus(parts1, FaceSize in c.filters, size);
    PlusAdds(parts2, FacePosition in c.filters, position);
    var parts3 := Plus(parts2, FacePosition in c.filters, position);
    PlusAdds(parts3, FaceBoundary in c.filters, 1.0);
    assert FrameParts(c, m) == Plus(parts3, FaceBoundary in c.filters, 1.0);
  }

  lemma TailPartsAdd(c: Config, m: Metrics, trackCount: int, front: seq<real>)
    ensures Sum(TailParts(c, m, front, TrackPart(c, trackCount)))
         == Sum(front) + Share(c, m, trackCount, TrackCount) + Share(c, m, trackCount, Stability)
          + Share(c, m, trackCount, Pose) + Share(c, m, trackCount, Quality) + Share(c, m, trackCount, Sharpness)
          + Share(c, m, trackCount, Brightness)
    ensures |TailParts(c, m, front, TrackPart(c, trackCount))|
         == |front| + One(c, TrackCount) + One(c, Stability) + One(c, Pose) + One(c, Quality) + One(c, Sharpness)
            + One(c, Brightness)
  {
    hide Plus, Clamp01, Centrality, TrackPart;
    var brightness := RawPart(c, m, trackCount, Brightness);
    PlusAdds(front, TrackCount in c.filters, TrackPart(c, trackCount));
    var parts1 := Plus(front, TrackCount in c.filters, TrackPart(c, trackCount));
    PlusAdds(parts1, Stability in c.filters, m.stabilityScore);
    var parts2 := Plus(parts1, Stability in c.filters, m.stabilityScore);
    PlusAdds(parts2, Pose in c.filters, m.poseScore);
    var parts3 := Plus(parts2, Pose in c.filters, m.poseScore);
    PlusAdds(parts3, Quality in c.filters, m.qualityScore);
    var parts4 := Plus(parts3, Quality in c.filters, m.qualityScore);
    PlusAdds(parts4, Sharpness in c.filters, m.sharpnessScore);
    var parts5 := Plus(parts4, Sharpness in c.filters, m.sharpnessScore);
    PlusAdds(parts5, Brightness in c.filters, brightness);
    assert TailParts(c, m, front, TrackPart(c, trackCount)) == Plus(parts5, Brightness in c.filters, brightness);
  }

  lemma OneLess(s: set<Filter>, f: Filter)
    ensures |s| == |s - {f}| + if f in s then 1 else 0
  {
    assert f in s ==> s == s - {f} + {f};
    assert f !in s ==> s == s - {f};
  }

  function In(s: set<Filter>, f: Filter): nat {
    if f in s then 1 else 0
  }

  lemma CountFive(s: set<Filter>, a: Filter, b: Filter, c: Filter, d: Filter, e: Filter)
    requires s <= {a, b, c, d, e}
    requires a != b && a != c && a != d && a != e && b != c && b != d && b != e && c != d && c != e && d != e
    ensures |s| == In(s, a) + In(s, b) + In(s, c) + In(s, d) + In(s, e)
  {
    OneLess(s, a);
    OneLess(s - {a}, b);
    CountThree(s - {a} - {b}, c, d, e);
  }

  lemma CountThree(s: set<Filter>, a: Filter, b: Filter, c: Filter)
    requires s <= {a, b, c} && a != b && a != c && b != c
    ensures |s| == In(s, a) + In(s, b) + In(s, c)
  {
    OneLess(s, a);
    OneLess(s - {a}, b);
    OneLess(s - {a} - {b}, c);
    assert s - {a} - {b} - {c} == {};
  }

  lemma NoneUnsupported(c: Config)
    requires ValidConfig(c)
    ensures forall f :: f in c.filters ==> !f.Unsupported?
  {
  }

  lemma FirstHalf(c: Config)
    ensures |c.filters * {FaceCount, FaceSize, FacePosition, FaceBoundary, TrackCount}|
         == One(c, FaceCount) + One(c, FaceSize) + One(c, FacePosition) + One(c, FaceBoundary) + One(c, TrackCount)
  {
    CountFive(c.filters * {FaceCount, FaceSize, FacePosition, FaceBoundary, TrackCount},
              FaceCount, FaceSize, FacePosition, FaceBoundary, TrackCount);
  }

  lemma SecondHalf(c: Config)
    ensures |c.filters * {Stability, Pose, Quality, Sharpness, Brightness}|
         == One(c, Stability) + One(c, Pose) + One(c, Quality) + One(c, Sharpness) + One(c, Brightness)
  {
    CountFive(c.filters * {Stability, Pose, Quality, Sharpness, Brightness}, Stability, Pose, Quality, Sharpness, Brightness);
  }

  lemma TwoHalves(s: set<Filter>, a: set<Filter>, b: set<Filter>)
    requires a !! b && s <= a + b
    ensures |s| == |s * a| + |s * b|
  {
    assert s == s * a + s * b && s * a !! s * b;
  }

  lemma FiltersAreCounted(c: Config)
    requires forall f :: f in c.filters ==> !f.Unsupported?
    ensures EnabledFilters(c) == |c.filters|
  {
    hide One;
    FirstHalf(c);
    SecondHalf(c);
    TwoHalves(c.filters, {FaceCount, FaceSize, FacePosition, FaceBoundary, TrackCount},
              {Stability, Pose, Quality, Sharpness, Brightness});
  }

  lemma SumOfParts(c: Config, m: Metrics, trackCount: int)
    ensures Sum(ScoreParts(c, m, trackCount)) == AllShares(c, m, trackCount)
    ensures |ScoreParts(c, m, trackCount)| == EnabledFilters(c)
  {
    hide FrameParts, TailParts, TrackPart, Share, One;
    FramePartsAdd(c, m, trackCount);
    TailPartsAdd(c, m, trackCount, FrameParts(c, m));
  }

  // The score is the mean of one part for each enabled filter; without filters it is 1.
  lemma ScoreIsTheMean(c: Config, m: Metrics, trackCount: int)
    requires forall f :: f in c.filters ==> !f.Unsupported?
    ensures if c.filters == {} then Score(c, m, trackCount) == 1.0
            else Score(c, m, trackCount) * |c.filters| as real == AllShares(c, m, trackCount)
  {
    hide ScoreParts, AllShares, EnabledFilters;
    SumOfParts(c, m, trackCount);
    FiltersAreCounted(c);
    var n := |c.filters|;
    assert c.filters == {} <==> n == 0;
    if n > 0 {
      var total := AllShares(c, m, trackCount);
      assert total / n as real * n as real == total;
    }
  }

  // ----- What the parts are -----

  // The part of a filter, by what it measures.
  ghost predicate IsPart(c: Config, m: Metrics, trackCount: int, f: Filter, p: real) {
    match f
    case FaceCount => p == 1.0
    case FaceSize => IsCentral(p, m.faceWidthRatio, c.minFaceWidthRatio, c.maxFaceWidthRatio)
    case FacePosition =>
      exists x, y :: IsHeadroom(x, m.centerOffsetX, c.maxCenterOffsetX)
                     && IsHeadroom(y, m.centerOffsetY, c.maxCenterOffsetY) && p == Min(x, y)
    case FaceBoundary => p == 1.0
    case TrackCount =>
      if c.minTrackCount == 0 then p == 1.0
      else p * c.minTrackCount as real == MaxInt(0, MinInt(trackCount, c.minTrackCount)) as real
    case Stability => p == Clamp01(m.stabilityScore)
    case Pose => p == Clamp01(m.poseScore)
    case Quality => p == Clamp01(m.qualityScore)
    case Sharpness => p == Clamp01(m.sharpnessScore)
    case Brightness => IsCentral(p, m.brightnessScore, c.minBrightnessScore, c.maxBrightnessScore)
    case Unsupported(_) => true
  }

  lemma TrackPartExactly(trackCount: int, least: int)
    requires least > 0
    ensures Clamp01(MaxInt(0, trackCount) as real / least as real) * least as real
            == MaxInt(0, MinInt(trackCount, least)) as real
  {
    DivLess(MaxInt(0, trackCount) as real, least as real, 1.0);
    DivLess(MaxInt(0, trackCount) as real, least as real, 0.0);
    assert MaxInt(0, trackCount) as real / least as real * least as real == MaxInt(0, trackCount) as real;
  }

  // Every enabled filter contributes its part.
  lemma ShareIsPart(c: Config, m: Metrics, trackCount: int, f: Filter)
    requires ValidConfig(c) && f in c.filters
    ensures IsPart(c, m, trackCount, f, Share(c, m, trackCount, f))
  {
    hide IsCentral, IsHeadroom, Headroom, Centrality, ValidConfig;
    match f
    case FaceSize => CentralityExactly(m.faceWidthRatio, c.minFaceWidthRatio, c.maxFaceWidthRatio);
    case Brightness => CentralityExactly(m.brightnessScore, c.minBrightnessScore, c.maxBrightnessScore);
    case FacePosition =>
      LimitsAreSane(c);
      HeadroomExactly(m.centerOffsetX, c.maxCenterOffsetX);
      HeadroomExactly(m.centerOffsetY, c.maxCenterOffsetY);
      ClampOfMin(Headroom(m.centerOffsetX, c.maxCenterOffsetX), Headroom(m.centerOffsetY, c.maxCenterOffsetY));
    case TrackCount =>
      if c.minTrackCount > 0 {
        TrackPartExactly(trackCount, c.minTrackCount);
      }
    case _ =>
  }

  lemma LimitsAreSane(c: Config)
    requires ValidConfig(c)
    ensures c.maxCenterOffsetX >= 0.0 && c.maxCenterOffsetY >= 0.0
    ensures c.maxAbsYaw >= 0.0 && c.maxAbsPitch >= 0.0 && c.maxAbsRoll >= 0.0
  {
  }

  // ----- When the score is full, and what raises it -----

  // The filter's part is 1.
  predicate Full(c: Config, m: Metrics, trackCount: int, f: Filter) {
    match f
    case FaceSize => 2.0 * m.faceWidthRatio == c.minFaceWidthRatio + c.maxFaceWidthRatio
    case FacePosition => m.centerOffsetX == 0.0 && m.centerOffsetY == 0.0
    case TrackCount => trackCount >= c.minTrackCount
    case Stability => m.stabilityScore >= 1.0
    case Pose => m.poseScore >= 1.0
    case Quality => m.qualityScore >= 1.0
    case Sharpness => m.sharpnessScore >= 1.0
    case Brightness => 2.0 * m.brightnessScore == c.minBrightnessScore + c.maxBrightnessScore
    case _ => true
  }

  lemma FallsToOne(p: real, distance: real, reach: real)
    requires Falls(p, distance, reach) && reach > 0.0 && distance >= 0.0
    ensures p == 1.0 <==> distance == 0.0
  {
  }

  lemma HeadroomIsOne(p: real, value: real, limit: real)
    requires IsHeadroom(p, value, limit) && limit >= 0.0 && value >= 0.0
    ensures 0.0 <= p && (p == 1.0 <==> value == 0.0) && p <= 1.0
  {
    if limit > 0.0 && value < limit {
      FallsToOne(p, value, limit);
      assert p < 0.0 ==> (1.0 - p) * limit > limit;
      assert p > 1.0 ==> (1.0 - p) * limit < 0.0;
    }
  }

  lemma WholeTrack(p: real, trackCount: int, least: int)
    requires least > 0 && p * least as real == MaxInt(0, MinInt(trackCount, least)) as real
    ensures p == 1.0 <==> trackCount >= least
  {
    LargerFactor(p, 1.0, least as real);
  }

  lemma ShareIsOne(c: Config, m: Metrics, trackCount: int, f: Filter)
    requires ValidConfig(c) && f in c.filters
    requires f.FacePosition? ==> m.centerOffsetX >= 0.0 && m.centerOffsetY >= 0.0
    ensures 0.0 <= Share(c, m, trackCount, f) <= 1.0
    ensures Share(c, m, trackCount, f) == 1.0 <==> Full(c, m, trackCount, f)
  {
    ShareIsPart(c, m, trackCount, f);
    hide Falls, Headroom, Centrality, ValidConfig, TrackPart, IsHeadroom;
    var p := Share(c, m, trackCount, f);
    match f
    case FaceSize =>
      FallsToOne(p, Abs(2.0 * m.faceWidthRatio - (c.minFaceWidthRatio + c.maxFaceWidthRatio)),
                 Max(0.0002, c.maxFaceWidthRatio - c.minFaceWidthRatio));
    case Brightness =>
      FallsToOne(p, Abs(2.0 * m.brightnessScore - (c.minBrightnessScore + c.maxBrightnessScore)),
                 Max(0.0002, c.maxBrightnessScore - c.minBrightnessScore));
    case FacePosition =>
      LimitsAreSane(c);
      var x, y :| IsHeadroom(x, m.centerOffsetX, c.maxCenterOffsetX)
          && IsHeadroom(y, m.centerOffsetY, c.maxCenterOffsetY) && p == Min(x, y);
      HeadroomIsOne(x, m.centerOffsetX, c.maxCenterOffsetX);
      HeadroomIsOne(y, m.centerOffsetY, c.maxCenterOffsetY);
    case TrackCount =>
      if c.minTrackCount > 0 {
        WholeTrack(p, trackCount, c.minTrackCount);
      }
    case _ =>
  }

  lemma OneOrLess(c: Config, m: Metrics, trackCount: int, f: Filter)
    requires ValidConfig(c)
    requires f.FacePosition? && f in c.filters ==> m.centerOffsetX >= 0.0 && m.centerOffsetY >= 0.0
    ensures Share(c, m, trackCount, f) <= One(c, f) as real
    ensures Share(c, m, trackCount, f) == One(c, f) as real <==> (f in c.filters ==> Full(c, m, trackCount, f))
  {
    if f in c.filters {
      ShareIsOne(c, m, trackCount, f);
    }
  }

  lemma AllSharesAreFull(c: Config, m: Metrics, trackCount: int)
    requires ValidConfig(c)
    requires FacePosition in c.filters ==> m.centerOffsetX >= 0.0 && m.centerOffsetY >= 0.0
    ensures AllShares(c, m, trackCount) == EnabledFilters(c) as real <==>
            forall f :: f in c.filters ==> Full(c, m, trackCount, f)
  {
    hide Share, One, Full, ValidConfig;
    OneOrLess(c, m, trackCount, FaceCount);
    OneOrLess(c, m, trackCount, FaceSize);
    OneOrLess(c, m, trackCount, FacePosition);
    OneOrLess(c, m, trackCount, FaceBoundary);
    OneOrLess(c, m, trackCount, TrackCount);
    OneOrLess(c, m, trackCount, Stability);
    OneOrLess(c, m, trackCount, Pose);
    OneOrLess(c, m, trackCount, Quality);
    OneOrLess(c, m, trackCount, Sharpness);
    OneOrLess(c, m, trackCount, Brightness);
    forall f: Filter | f.Unsupported? ensures f !in c.filters {
      NothingUnsupported(c, f);
    }
    assert forall f: Filter :: f in {FaceCount, FaceSize, FacePosition, FaceBoundary, TrackCount, Stability, Pose, Quality,
                                     Sharpness, Brightness} || f.Unsupported?;
  }

  lemma NothingUnsupported(c: Config, f: Filter)
    requires ValidConfig(c) && f.Unsupported?
    ensures f !in c.filters
  {
  }

  // The score is 1 exactly when every enabled filter is served in full: the width and the
  // brightness in the middle of their ranges, the face in the middle of the image, and so on.
  lemma ScoreIsOneExactly(c: Config, m: Metrics, trackCount: int)
    requires ValidConfig(c)
    requires FacePosition in c.filters ==> m.centerOffsetX >= 0.0 && m.centerOffsetY >= 0.0
    ensures Score(c, m, trackCount) == 1.0 <==> forall f :: f in c.filters ==> Full(c, m, trackCount, f)
  {
    hide Score, AllShares, EnabledFilters, Full, ValidConfig;
    NoneUnsupported(c);
    ScoreIsTheMean(c, m, trackCount);
    FiltersAreCounted(c);
    AllSharesAreFull(c, m, trackCount);
    if c.filters != {} {
      WholeMean(Score(c, m, trackCount), |c.filters|, AllShares(c, m, trackCount));
    }
  }

  lemma WholeMean(mean: real, n: nat, total: real)
    requires n > 0 && mean * n as real == total
    ensures mean == 1.0 <==> total == n as real
  {
    LargerFactor(mean, 1.0, n as real);
  }

  lemma LargerFactor(a: real, b: real, d: real)
    requires d > 0.0
    ensures a < b ==> a * d < b * d
    ensures a > b ==> a * d > b * d
  {
  }

  // Closer to the ideal, for a filter that measures how close: the width and the brightness to
  // the middle of their ranges, both offsets to zero.
  predicate Closer(c: Config, n: Metrics, m: Metrics, f: Filter) {
    match f
    case FaceSize => NearerMiddle(n.faceWidthRatio, m.faceWidthRatio, c.minFaceWidthRatio, c.maxFaceWidthRatio)
    case FacePosition =>
      0.0 <= n.centerOffsetX < m.centerOffsetX <= c.maxCenterOffsetX
          && 0.0 <= n.centerOffsetY < m.centerOffsetY <= c.maxCenterOffsetY
    case Brightness => NearerMiddle(n.brightnessScore, m.brightnessScore, c.minBrightnessScore, c.maxBrightnessScore)
    case _ => false
  }

  predicate NearerMiddle(a: real, b: real, lo: real, hi: real) {
    lo <= b <= hi && Abs(2.0 * a - (lo + hi)) < Abs(2.0 * b - (lo + hi))
  }

  lemma FallsLess(p: real, q: real, near: real, far: real, reach: real)
    requires Falls(p, near, reach) && Falls(q, far, reach) && 0.0 <= near < far <= reach
    ensures p > q
  {
    if far == reach {
      assert near > 0.0 ==> (1.0 - p) * reach < reach;
      assert p <= 0.0 ==> (1.0 - p) * reach >= reach;
    } else {
      assert p <= q ==> (1.0 - p) * reach >= (1.0 - q) * reach;
    }
  }

  lemma HeadroomLess(p: real, q: real, near: real, far: real, limit: real)
    requires IsHeadroom(p, near, limit) && IsHeadroom(q, far, limit) && 0.0 <= near < far <= limit
    ensures p > q
  {
    FallsLess(p, q, near, far, limit);
  }

  lemma CentralLess(p: real, q: real, a: real, b: real, lo: real, hi: real)
    requires IsCentral(p, a, lo, hi) && IsCentral(q, b, lo, hi) && NearerMiddle(a, b, lo, hi)
    ensures p > q
  {
    FallsLess(p, q, Abs(2.0 * a - (lo + hi)), Abs(2.0 * b - (lo + hi)), Max(0.0002, hi - lo));
  }

  lemma CloserShare(c: Config, n: Metrics, m: Metrics, trackCount: int, f: Filter)
    requires ValidConfig(c) && f in c.filters && Closer(c, n, m, f)
    ensures Share(c, n, trackCount, f) > Share(c, m, trackCount, f)
  {
    ShareIsPart(c, n, trackCount, f);
    ShareIsPart(c, m, trackCount, f);
    hide Share, IsCentral, IsHeadroom, ValidConfig, NearerMiddle;
    var p, q := Share(c, n, trackCount, f), Share(c, m, trackCount, f);
    match f
    case FaceSize => CentralLess(p, q, n.faceWidthRatio, m.faceWidthRatio, c.minFaceWidthRatio, c.maxFaceWidthRatio);
    case Brightness => CentralLess(p, q, n.brightnessScore, m.brightnessScore, c.minBrightnessScore, c.maxBrightnessScore);
    case FacePosition =>
      var x, y :| IsHeadroom(x, n.centerOffsetX, c.maxCenterOffsetX)
          && IsHeadroom(y, n.centerOffsetY, c.maxCenterOffsetY) && p == Min(x, y);
      var u, v :| IsHeadroom(u, m.centerOffsetX, c.maxCenterOffsetX)
          && IsHeadroom(v, m.centerOffsetY, c.maxCenterOffsetY) && q == Min(u, v);
      HeadroomLess(x, u, n.centerOffsetX, m.centerOffsetX, c.maxCenterOffsetX);
      HeadroomLess(y, v, n.centerOffsetY, m.centerOffsetY, c.maxCenterOffsetY);
  }

  // The metrics a filter does not measure.
  predicate SameBut(n: Metrics, m: Metrics, f: Filter) {
    match f
    case FaceSize => n.(faceWidthRatio := m.faceWidthRatio) == m
    case FacePosition => n.(centerOffsetX := m.centerOffsetX, centerOffsetY := m.centerOffsetY) == m
    case Brightness => n.(brightnessScore := m.brightnessScore) == m
    case _ => n == m
  }

  lemma OtherShares(c: Config, n: Metrics, m: Metrics, trackCount: int, f: Filter, g: Filter)
    requires SameBut(n, m, f) && g != f
    ensures Share(c, n, trackCount, g) == Share(c, m, trackCount, g)
  {
    hide Headroom, Centrality;
  }

  lemma CloserSum(c: Config, n: Metrics, m: Metrics, trackCount: int, f: Filter)
    requires ValidConfig(c) && f in c.filters && SameBut(n, m, f) && Closer(c, n, m, f)
    ensures AllShares(c, n, trackCount) > AllShares(c, m, trackCount)
  {
    hide Share, ValidConfig, SameBut, NearerMiddle;
    CloserShare(c, n, m, trackCount, f);
    forall g: Filter | g != f ensures Share(c, n, trackCount, g) == Share(c, m, trackCount, g) {
      OtherShares(c, n, m, trackCount, f, g);
    }
  }

  // Moving a single enabled width, position or brightness toward its ideal raises the score.
  lemma CloserIsBetter(c: Config, n: Metrics, m: Metrics, trackCount: int, f: Filter)
    requires ValidConfig(c) && f in c.filters && SameBut(n, m, f) && Closer(c, n, m, f)
    ensures Score(c, n, trackCount) > Score(c, m, trackCount)
  {
    hide Score, AllShares, ValidConfig, Closer, SameBut;
    NoneUnsupported(c);
    CloserSum(c, n, m, trackCount, f);
    ScoreIsTheMean(c, n, trackCount);
    ScoreIsTheMean(c, m, trackCount);
    LargerMean(Score(c, n, trackCount), Score(c, m, trackCount), |c.filters|);
  }

  lemma LargerMean(a: real, b: real, n: nat)
    requires n > 0 && a * n as real > b * n as real
    ensures a > b
  {
    LargerFactor(a, b, n as real);
  }

  // ----- The metrics of a judged face -----

  // A ratio without its division.
  predicate IsShare(ratio: real, length: real, whole: real) {
    ratio * whole == length
  }

  lemma ShareOf(length: real, whole: real)
    requires whole > 0.0
    ensures IsShare(length / whole, length, whole)
  {
  }

  lemma OffsetExactly(start: int, length: int, imageLength: int)
    requires imageLength > 0
    ensures IsShare(CenterOffset(start, length, imageLength), AbsInt(2 * start + length - imageLength) as real,
                    2.0 * imageLength as real)
    ensures CenterOffset(start, length, imageLength) >= 0.0
  {
    var offset := Abs((start as real + length as real * 0.5) - imageLength as real * 0.5);
    assert 2.0 * offset == AbsInt(2 * start + length - imageLength) as real;
    ShareOf(offset, imageLength as real);
    DivLess(offset, imageLength as real, 0.0);
    var q := offset / imageLength as real;
    assert q * (2.0 * imageLength as real) == 2.0 * (q * imageLength as real);
  }

  // What each metric of a face says, and -1 where nothing was measured.
  ghost predicate Measured(c: Config, f: Frame, face: Face, track: Track, texture: Option<Texture>, m: Metrics)
    requires f.imageWidth > 0 && f.imageHeight > 0
  {
    && (if FaceSize in c.filters then IsShare(m.faceWidthRatio, face.rect.width as real, f.imageWidth as real)
        else m.faceWidthRatio == -1.0)
    && (if FacePosition in c.filters then
          && IsShare(m.centerOffsetX, AbsInt(2 * face.rect.x + face.rect.width - f.imageWidth) as real,
                     2.0 * f.imageWidth as real)
          && IsShare(m.centerOffsetY, AbsInt(2 * face.rect.y + face.rect.height - f.imageHeight) as real,
                     2.0 * f.imageHeight as real)
        else m.centerOffsetX == -1.0 && m.centerOffsetY == -1.0)
    && (if Stability in c.filters then
          if c.stableDurationMs == 0 then m.stabilityScore == 1.0
          else IsShare(m.stabilityScore, MinInt(Elapsed(f.timestampMs, track.stableSince), c.stableDurationMs) as real,
                       c.stableDurationMs as real)
        else m.stabilityScore == -1.0)
    && (if Pose in c.filters then PoseMeasured(c, face, m.poseScore) else m.poseScore == -1.0)
    && (if Quality in c.filters then QualityMeasured(face.quality, m.qualityScore) else m.qualityScore == -1.0)
    && m.sharpnessScore == (if Sharpness in c.filters && texture.Some? then texture.value.sharpness else -1.0)
    && m.brightnessScore == (if Brightness in c.filters && texture.Some? then texture.value.brightness else -1.0)
    && m.available == (set g | g in c.filters && (
         || g in {FaceSize, FacePosition, FaceBoundary, Stability, Pose, Quality}
         || (g in {Sharpness, Brightness} && texture.Some?)))
  }

  ghost predicate PoseMeasured(c: Config, face: Face, p: real) {
    if Facing(face.yaw, c.maxAbsYaw) && Facing(face.pitch, c.maxAbsPitch) && Facing(face.roll, c.maxAbsRoll) then
      exists x, y, z :: IsHeadroom(x, Abs(face.yaw), c.maxAbsYaw) && IsHeadroom(y, Abs(face.pitch), c.maxAbsPitch)
                        && IsHeadroom(z, Abs(face.roll), c.maxAbsRoll) && p == Min(x, Min(y, z))
    else p == 0.0
  }

  // -1 for an unusable value, otherwise one minus the mean of five values, not below 0.
  ghost predicate QualityMeasured(quality: seq<real>, p: real) {
    if exists i :: 0 <= i < |quality| && quality[i] < 0.0 then p == -1.0 else Falls(p, Sum(quality), 5.0)
  }

  lemma PoseIsMeasured(c: Config, face: Face, v: Verdict)
    requires ValidConfig(c) && Pose in c.filters
    ensures PoseMeasured(c, face, CheckPose(c, face, v).metrics.poseScore)
  {
    LimitsAreSane(c);
    HeadroomExactly(Abs(face.yaw), c.maxAbsYaw);
    HeadroomExactly(Abs(face.pitch), c.maxAbsPitch);
    HeadroomExactly(Abs(face.roll), c.maxAbsRoll);
    hide ValidConfig, IsHeadroom, Headroom;
    var x, y, z := Headroom(Abs(face.yaw), c.maxAbsYaw), Headroom(Abs(face.pitch), c.maxAbsPitch),
        Headroom(Abs(face.roll), c.maxAbsRoll);
    ClampOfMin(y, z);
    ClampOfMin(x, Min(y, z));
  }

  lemma QualityIsMeasured(quality: seq<real>)
    ensures QualityMeasured(quality, QualityScore(quality))
  {
    FallsExactly(Sum(quality), 5.0);
    hide Falls, Clamp01;
  }

  lemma StabilityIsMeasured(elapsed: nat, required: nat)
    requires required > 0
    ensures IsShare(Clamp01(elapsed as real / required as real), MinInt(elapsed, required) as real, required as real)
  {
    TrackPartExactly(elapsed, required);
    hide Clamp01;
  }

  // The numbers the checks record, each by the check that records it.
  lemma JudgeRecords(c: Config, face: Face, f: Frame, track: Track, texture: Option<Texture>)
    requires f.imageWidth > 0 && f.imageHeight > 0
    ensures var m := Judge(c, face, f, track, texture).metrics;
            var steady := CheckStability(c, track, f.timestampMs, JudgeGeometry(c, face, f));
            && m.faceWidthRatio == (if FaceSize in c.filters then face.rect.width as real / f.imageWidth as real else -1.0)
            && m.centerOffsetX == (
                 if FacePosition in c.filters then CenterOffset(face.rect.x, face.rect.width, f.imageWidth) else -1.0)
            && m.centerOffsetY == (
                 if FacePosition in c.filters then CenterOffset(face.rect.y, face.rect.height, f.imageHeight) else -1.0)
            && m.stabilityScore == (if Stability in c.filters then steady.metrics.stabilityScore else -1.0)
            && m.poseScore == (if Pose in c.filters then CheckPose(c, face, steady).metrics.poseScore else -1.0)
            && m.qualityScore == (if Quality in c.filters then QualityScore(face.quality) else -1.0)
            && m.sharpnessScore == (if Sharpness in c.filters && texture.Some? then texture.value.sharpness else -1.0)
            && m.brightnessScore == (if Brightness in c.filters && texture.Some? then texture.value.brightness else -1.0)
  {
    hide CenterOffset, QualityScore, Headroom, Clamp01, Elapsed, Flag, CountRejects;
  }

  lemma GeometryAvailable(c: Config, face: Face, f: Frame)
    requires f.imageWidth > 0 && f.imageHeight > 0
    ensures JudgeGeometry(c, face, f).metrics.available == (set g | g in c.filters && g in {FaceSize, FacePosition, FaceBoundary})
  {
    hide CenterOffset, Flag, CountRejects;
  }

  lemma JudgeAvailable(c: Config, face: Face, f: Frame, track: Track, texture: Option<Texture>)
    requires f.imageWidth > 0 && f.imageHeight > 0
    ensures Judge(c, face, f, track, texture).metrics.available == (set g | g in c.filters && (
         || g in {FaceSize, FacePosition, FaceBoundary, Stability, Pose, Quality}
         || (g in {Sharpness, Brightness} && NeedsPixels(c) && texture.Some?)))
  {
    GeometryAvailable(c, face, f);
    hide JudgeGeometry, QualityScore, Headroom, Clamp01, Elapsed, Flag;
  }

  // Every metric the checks record says what it should about the face.
  lemma JudgedIsMeasured(c: Config, face: Face, f: Frame, track: Track, texture: Option<Texture>)
    requires ValidConfig(c) && f.imageWidth > 0 && f.imageHeight > 0
    ensures Measured(c, f, face, track, if NeedsPixels(c) then texture else None, Judge(c, face, f, track, texture).metrics)
  {
    JudgeRecords(c, face, f, track, texture);
    JudgeAvailable(c, face, f, track, texture);
    ShareOf(face.rect.width as real, f.imageWidth as real);
    OffsetExactly(face.rect.x, face.rect.width, f.imageWidth);
    OffsetExactly(face.rect.y, face.rect.height, f.imageHeight);
    if c.stableDurationMs > 0 {
      StabilityIsMeasured(Elapsed(f.timestampMs, track.stableSince), c.stableDurationMs);
    }
    if Pose in c.filters {
      PoseIsMeasured(c, face, CheckStability(c, track, f.timestampMs, JudgeGeometry(c, face, f)));
    }
    QualityIsMeasured(face.quality);
    hide ValidConfig, IsShare, PoseMeasured, QualityMeasured, QualityScore, CenterOffset, Clamp01, Headroom, Elapsed;
    hide Judge, JudgeGeometry, CheckPose;
  }

  // ----- The pixels a frame is judged by -----

  // The pixels of the chosen face are measured exactly when the image can be read and the face
  // covers at least three of its columns and rows; what is measured are that image and that face.
  lemma FacePixelsAreMeasured(c: Config, f: GoodFrame, face: Face, lo: int, hi: int)
    requires NeedsPixels(c) && f.image.Some?
    ensures var t, image, g := TextureOf(c, f, face), f.image.value, SampleGrid(f.image.value, face.rect);
            && (t.Some? <==>
                  && image.data != [] && (image.channels == 1 || image.channels >= 3)
                  && g.right > g.left + 2 && g.bottom > g.top + 2)
            && (t.Some? && Brightness in c.filters && PixelMeaning.AllBetween(image, g, g.top, lo, hi) ==>
                  lo as real / 255.0 <= t.value.brightness <= hi as real / 255.0)
            && (t.Some? && Sharpness in c.filters ==>
                  && (t.value.sharpness == 0.0 <==> PixelMeaning.AllStepBy(image, g, g.top, 0))
                  && (t.value.sharpness == 1.0 <==> PixelMeaning.AllStepBy(image, g, g.top, 255)))
  {
    var image, g := f.image.value, SampleGrid(f.image.value, face.rect);
    var sharp, bright := Sharpness in c.filters, Brightness in c.filters;
    if Readable(image) && BigEnough(g) {
      if bright && PixelMeaning.AllBetween(image, g, g.top, lo, hi) {
        PixelMeaning.BrightnessIsBetween(image, face.rect, sharp, lo, hi);
      }
      if sharp {
        PixelMeaning.SharpnessExtremes(image, face.rect, bright);
      }
    }
    hide PixelMeaning.AllBetween, PixelMeaning.AllStepBy, TotalGradient, TotalLuminance, Steps;
  }
}
