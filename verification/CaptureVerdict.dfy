// What it takes for a frame to be accepted, filter by filter, and what its score can be.
module CaptureVerdict {
  import opened Basics
  import opened CaptureTypes
  import opened CapturePolicy
  import opened PixelMetrics
  import StabilityClock

  // ----- The conditions, stated on the face rather than on the metrics -----

  predicate RightSize(c: Config, rect: Rect, imageWidth: int) {
    c.minFaceWidthRatio * imageWidth as real <= rect.width as real <= c.maxFaceWidthRatio * imageWidth as real
  }

  // The centre of start..start+length is within `limit` image lengths of the image centre.
  predicate Centred(start: int, length: int, imageLength: int, limit: real) {
    AbsInt(2 * start + length - imageLength) as real <= 2.0 * (limit * imageLength as real)
  }

  // start..start+length keeps the margin on both sides.
  predicate Inside(start: int, length: int, imageLength: int, margin: real) {
    && margin * imageLength as real <= start as real
    && (start + length) as real <= imageLength as real - margin * imageLength as real
  }

  predicate Facing(angle: real, limit: real) {
    -limit <= angle <= limit
  }

  ghost predicate GoodQuality(quality: seq<real>, minimum: real) {
    && (forall i :: 0 <= i < |quality| ==> quality[i] >= 0.0)
    && (minimum == 0.0 || Sum(quality) <= 5.0 * (1.0 - minimum))
  }

  // The condition of every enabled filter. `steady` says whether the face has been steady for the
  // required time, `texture` what its pixels measure.
  ghost predicate Meets(c: Config, f: Frame, face: Face, steady: bool, texture: Option<Texture>) {
    && (FaceCount in c.filters ==> |f.faces| == 1)
    && (TrackCount in c.filters ==> face.trackCount >= c.minTrackCount)
    && (FaceSize in c.filters ==> RightSize(c, face.rect, f.imageWidth))
    && (FacePosition in c.filters ==>
          && Centred(face.rect.x, face.rect.width, f.imageWidth, c.maxCenterOffsetX)
          && Centred(face.rect.y, face.rect.height, f.imageHeight, c.maxCenterOffsetY))
    && (FaceBoundary in c.filters ==>
          && Inside(face.rect.x, face.rect.width, f.imageWidth, c.boundaryMarginRatio)
          && Inside(face.rect.y, face.rect.height, f.imageHeight, c.boundaryMarginRatio))
    && (Stability in c.filters ==> steady)
    && (Pose in c.filters ==>
          Facing(face.yaw, c.maxAbsYaw) && Facing(face.pitch, c.maxAbsPitch) && Facing(face.roll, c.maxAbsRoll))
    && (Quality in c.filters ==> GoodQuality(face.quality, c.minQualityScore))
    && (Sharpness in c.filters ==> texture.Some? && texture.value.sharpness >= c.minSharpnessScore)
    && (Brightness in c.filters ==>
          texture.Some? && c.minBrightnessScore <= texture.value.brightness <= c.maxBrightnessScore)
  }

  lemma SizeMeans(c: Config, rect: Rect, imageWidth: int, v: Verdict)
    requires imageWidth > 0 && FaceSize in c.filters
    ensures CheckSize(c, rect, imageWidth, v).rejects == {} <==> v.rejects == {} && RightSize(c, rect, imageWidth)
  {
    DivLess(rect.width as real, imageWidth as real, c.minFaceWidthRatio);
    DivLess(rect.width as real, imageWidth as real, c.maxFaceWidthRatio);
  }

  lemma OffsetMeans(start: int, length: int, imageLength: int, limit: real)
    requires imageLength > 0
    ensures CenterOffset(start, length, imageLength) > limit <==> !Centred(start, length, imageLength, limit)
  {
    var offset := Abs((start as real + length as real * 0.5) - imageLength as real * 0.5);
    DivLess(offset, imageLength as real, limit);
    assert AbsInt(2 * start + length - imageLength) as real == 2.0 * offset;
  }

  lemma PositionMeans(c: Config, rect: Rect, imageWidth: int, imageHeight: int, v: Verdict)
    requires imageWidth > 0 && imageHeight > 0 && FacePosition in c.filters
    ensures CheckPosition(c, rect, imageWidth, imageHeight, v).rejects == {}
       <==> v.rejects == {} && Centred(rect.x, rect.width, imageWidth, c.maxCenterOffsetX)
            && Centred(rect.y, rect.height, imageHeight, c.maxCenterOffsetY)
  {
    OffsetMeans(rect.x, rect.width, imageWidth, c.maxCenterOffsetX);
    OffsetMeans(rect.y, rect.height, imageHeight, c.maxCenterOffsetY);
  }

  lemma BoundaryMeans(c: Config, rect: Rect, imageWidth: int, imageHeight: int, v: Verdict)
    requires FaceBoundary in c.filters
    ensures CheckBoundary(c, rect, imageWidth, imageHeight, v).rejects == {}
       <==> v.rejects == {} && Inside(rect.x, rect.width, imageWidth, c.boundaryMarginRatio)
            && Inside(rect.y, rect.height, imageHeight, c.boundaryMarginRatio)
  {
  }

  lemma PoseMeans(c: Config, face: Face, v: Verdict)
    requires Pose in c.filters
    ensures CheckPose(c, face, v).rejects == {}
       <==> v.rejects == {}
            && Facing(face.yaw, c.maxAbsYaw) && Facing(face.pitch, c.maxAbsPitch) && Facing(face.roll, c.maxAbsRoll)
  {
  }

  lemma QualityMeans(c: Config, face: Face, v: Verdict)
    requires Quality in c.filters && UnitRange(c.minQualityScore)
    ensures CheckQuality(c, face, v).rejects == {} <==> v.rejects == {} && GoodQuality(face.quality, c.minQualityScore)
  {
  }

  lemma PixelsMean(c: Config, texture: Option<Texture>, v: Verdict)
    requires NeedsPixels(c)
    ensures CheckPixels(c, texture, v).rejects == {}
       <==> && v.rejects == {}
            && (Sharpness in c.filters ==> texture.Some? && texture.value.sharpness >= c.minSharpnessScore)
            && (Brightness in c.filters ==>
                  texture.Some? && c.minBrightnessScore <= texture.value.brightness <= c.maxBrightnessScore)
  {
  }

  lemma GeometryMeans(c: Config, f: Frame, face: Face)
    requires ValidConfig(c) && f.imageWidth > 0 && f.imageHeight > 0
    ensures JudgeGeometry(c, face, f).rejects == {} <==>
      && (FaceCount in c.filters ==> |f.faces| == 1)
      && (TrackCount in c.filters ==> face.trackCount >= c.minTrackCount)
      && (FaceSize in c.filters ==> RightSize(c, face.rect, f.imageWidth))
      && (FacePosition in c.filters ==>
            && Centred(face.rect.x, face.rect.width, f.imageWidth, c.maxCenterOffsetX)
            && Centred(face.rect.y, face.rect.height, f.imageHeight, c.maxCenterOffsetY))
      && (FaceBoundary in c.filters ==>
            && Inside(face.rect.x, face.rect.width, f.imageWidth, c.boundaryMarginRatio)
            && Inside(face.rect.y, face.rect.height, f.imageHeight, c.boundaryMarginRatio))
  {
    var v := Verdict(NO_METRICS, CountRejects(c, |f.faces|, face));
    var sized := CheckSize(c, face.rect, f.imageWidth, v);
    var placed := CheckPosition(c, face.rect, f.imageWidth, f.imageHeight, sized);
    assert v.rejects == {} <==>
      (FaceCount in c.filters ==> |f.faces| == 1) && (TrackCount in c.filters ==> face.trackCount >= c.minTrackCount);
    if FaceSize in c.filters { SizeMeans(c, face.rect, f.imageWidth, v); }
    if FacePosition in c.filters { PositionMeans(c, face.rect, f.imageWidth, f.imageHeight, sized); }
    if FaceBoundary in c.filters { BoundaryMeans(c, face.rect, f.imageWidth, f.imageHeight, placed); }
  }

  predicate ClockRanOut(c: Config, f: Frame, track: Track) {
    Elapsed(f.timestampMs, track.stableSince) >= c.stableDurationMs
  }

  // A verdict is clean exactly when the face meets the condition of every enabled filter.
  lemma AcceptedExactly(c: Config, f: Frame, face: Face, track: Track, texture: Option<Texture>)
    requires ValidConfig(c) && f.imageWidth > 0 && f.imageHeight > 0
    ensures Judge(c, face, f, track, texture).rejects == {} <==> Meets(c, f, face, ClockRanOut(c, f, track), texture)
  {
    GeometryMeans(c, f, face);
    var steady := CheckStability(c, track, f.timestampMs, JudgeGeometry(c, face, f));
    var posed := CheckPose(c, face, steady);
    var clear := CheckQuality(c, face, posed);
    if Pose in c.filters { PoseMeans(c, face, steady); }
    if Quality in c.filters { QualityMeans(c, face, posed); }
    if NeedsPixels(c) { PixelsMean(c, texture, clear); }
  }

  // When a flag is raised, on the face rather than on the metrics.
  ghost predicate Raised(c: Config, f: Frame, face: Face, ranOut: bool, texture: Option<Texture>, r: Reject)
    requires f.imageWidth > 0 && f.imageHeight > 0
  {
    match r
    case NoFace => false
    case MultipleFaces => FaceCount in c.filters && |f.faces| != 1
    case TrackCountTooLow => TrackCount in c.filters && face.trackCount < c.minTrackCount
    case FaceTooSmall => FaceSize in c.filters && (face.rect.width as real) < c.minFaceWidthRatio * f.imageWidth as real
    case FaceTooLarge => FaceSize in c.filters && face.rect.width as real > c.maxFaceWidthRatio * f.imageWidth as real
    case FaceOffCenter =>
      FacePosition in c.filters && !(Centred(face.rect.x, face.rect.width, f.imageWidth, c.maxCenterOffsetX)
                                     && Centred(face.rect.y, face.rect.height, f.imageHeight, c.maxCenterOffsetY))
    case FaceOutOfBounds =>
      FaceBoundary in c.filters && !(Inside(face.rect.x, face.rect.width, f.imageWidth, c.boundaryMarginRatio)
                                     && Inside(face.rect.y, face.rect.height, f.imageHeight, c.boundaryMarginRatio))
    case Unstable => Stability in c.filters && !ranOut
    case BadPose =>
      Pose in c.filters && !(Facing(face.yaw, c.maxAbsYaw) && Facing(face.pitch, c.maxAbsPitch)
          && Facing(face.roll, c.maxAbsRoll))
    case BadQuality => Quality in c.filters && !GoodQuality(face.quality, c.minQualityScore)
    case BadSharpness => Sharpness in c.filters && !(texture.Some? && texture.value.sharpness >= c.minSharpnessScore)
    case BadBrightness =>
      Brightness in c.filters && !(texture.Some? && c.minBrightnessScore <= texture.value.brightness <= c.maxBrightnessScore)
  }

  // The flags of the checks, each by the check that raises it.
  lemma GeometryRaises(c: Config, face: Face, f: Frame, r: Reject)
    requires ValidConfig(c) && f.imageWidth > 0 && f.imageHeight > 0
    ensures r in JudgeGeometry(c, face, f).rejects <==>
      match r
      case MultipleFaces => FaceCount in c.filters && |f.faces| != 1
      case TrackCountTooLow => TrackCount in c.filters && (face.trackCount < 0 || face.trackCount < c.minTrackCount)
      case FaceTooSmall => FaceSize in c.filters && face.rect.width as real / f.imageWidth as real < c.minFaceWidthRatio
      case FaceTooLarge => FaceSize in c.filters && face.rect.width as real / f.imageWidth as real > c.maxFaceWidthRatio
      case FaceOffCenter =>
        FacePosition in c.filters && (
          || CenterOffset(face.rect.x, face.rect.width, f.imageWidth) > c.maxCenterOffsetX
          || CenterOffset(face.rect.y, face.rect.height, f.imageHeight) > c.maxCenterOffsetY)
      case FaceOutOfBounds =>
        FaceBoundary in c.filters && CheckBoundary(c, face.rect, f.imageWidth, f.imageHeight,
                                                   Verdict(NO_METRICS, {})).rejects != {}
      case _ => false
  {
    hide CenterOffset, ValidConfig;
  }

  lemma JudgeRaises(c: Config, face: Face, f: Frame, track: Track, texture: Option<Texture>, r: Reject)
    requires f.imageWidth > 0 && f.imageHeight > 0
    ensures r in Judge(c, face, f, track, texture).rejects <==>
      match r
      case Unstable => r in JudgeGeometry(c, face, f).rejects || (Stability in c.filters && !ClockRanOut(c, f, track))
      case BadPose =>
        r in JudgeGeometry(c, face, f).rejects || (Pose in c.filters
            && CheckPose(c, face, Verdict(NO_METRICS, {})).rejects != {})
      case BadQuality => r in JudgeGeometry(c, face, f).rejects
          || (Quality in c.filters && QualityScore(face.quality) < c.minQualityScore)
      case BadSharpness =>
        || r in JudgeGeometry(c, face, f).rejects
        || (Sharpness in c.filters && !(texture.Some? && texture.value.sharpness >= c.minSharpnessScore))
      case BadBrightness =>
        || r in JudgeGeometry(c, face, f).rejects
        || (Brightness in c.filters && !(
              texture.Some? && c.minBrightnessScore <= texture.value.brightness <= c.maxBrightnessScore))
      case _ => r in JudgeGeometry(c, face, f).rejects
  {
    hide JudgeGeometry, QualityScore, Headroom, Clamp01, Elapsed;
  }

  // Every reject flag of a verdict is raised exactly when its own condition fails.
  lemma RejectsExactly(c: Config, face: Face, f: Frame, track: Track, texture: Option<Texture>, r: Reject)
    requires ValidConfig(c) && f.imageWidth > 0 && f.imageHeight > 0
    ensures r in Judge(c, face, f, track, texture).rejects <==> Raised(c, f, face, ClockRanOut(c, f, track), texture, r)
  {
    GeometryRaises(c, face, f, r);
    JudgeRaises(c, face, f, track, texture, r);
    var clean := Verdict(NO_METRICS, {});
    match r
    case FaceTooSmall => DivLess(face.rect.width as real, f.imageWidth as real, c.minFaceWidthRatio);
    case FaceTooLarge => DivLess(face.rect.width as real, f.imageWidth as real, c.maxFaceWidthRatio);
    case FaceOffCenter =>
      OffsetMeans(face.rect.x, face.rect.width, f.imageWidth, c.maxCenterOffsetX);
      OffsetMeans(face.rect.y, face.rect.height, f.imageHeight, c.maxCenterOffsetY);
    case FaceOutOfBounds =>
      if FaceBoundary in c.filters { BoundaryMeans(c, face.rect, f.imageWidth, f.imageHeight, clean); }
    case BadPose =>
      if Pose in c.filters { PoseMeans(c, face, clean); }
    case BadQuality =>
      if Quality in c.filters { QualityMeans(c, face, clean); }
    case _ =>
    hide Judge, JudgeGeometry, CheckBoundary, CheckPose, CenterOffset, Inside, Centred, Facing, GoodQuality, QualityScore;
  }

  lemma CleanVerdictExactly(s: State, f: GoodFrame, face: Face)
    requires ValidConfig(s.config) && f.imageWidth > 0 && f.imageHeight > 0
    ensures VerdictOf(s, f, face).rejects == {} <==>
            Meets(s.config, f, face, ClockRanOut(s.config, f, NextTrack(s.config, s.track, face, f)),
                  TextureOf(s.config, f, face))
  {
    hide Judge, Meets, NextTrack, TextureOf;
    AcceptedExactly(s.config, f, face, NextTrack(s.config, s.track, face, f), TextureOf(s.config, f, face));
  }

  // The clock of the selector has run out exactly when the history shows the face steady.
  lemma ClockShowsHistory(c: Config, calls: seq<Call>, f: GoodFrame)
    requires Stability in c.filters
    requires Processes(After(Fresh(c), calls), f) && f.faces != [] && Usable(Selected(f.faces).rect)
    requires Selected(f.faces).trackId != NO_ID || c.stableDurationMs == 0
    ensures ClockRanOut(c, f, NextTrack(c, After(Fresh(c), calls).track, Selected(f.faces), f))
       <==> StabilityClock.SteadyLongEnough(c, calls, f)
  {
    StabilityClock.RunFits(c, calls);
    StabilityClock.UnstableMeans(c, After(Fresh(c), calls), f, Selected(f.faces));
    StabilityClock.GateRightExactly(c, Selected(f.faces).trackId);
    hide After, NextTrack, VerdictOf, StabilityClock.SteadyLongEnough;
    assert StabilityClock.PassesGate(c, calls, f) <==> StabilityClock.SteadyLongEnough(c, calls, f);
  }

  // After any run, a frame is accepted if and only if it is processed, its chosen face has an
  // extent and meets the condition of every enabled filter, the one on stability being a
  // statement on the frames the run processed. Only a face with the sentinel id of which a
  // duration is required is not covered.
  lemma {:induction false} AcceptedInRunExactly(c: Config, calls: seq<Call>, f: GoodFrame)
    requires ValidConfig(c)
    requires Stability in c.filters && f.faces != [] ==> Selected(f.faces).trackId != NO_ID || c.stableDurationMs == 0
    ensures var s := After(Fresh(c), calls);
      Accepts(s, Feed(f)) <==>
        && Processes(s, f) && f.faces != [] && Selected(f.faces).rect.width >= 1 && Selected(f.faces).rect.height >= 1
        && Meets(c, f, Selected(f.faces), Stability in c.filters && StabilityClock.SteadyLongEnough(c, calls, f),
                 TextureOf(c, f, Selected(f.faces)))
  {
    var s := After(Fresh(c), calls);
    StabilityClock.RunFits(c, calls);
    if Processes(s, f) && f.faces != [] && Usable(Selected(f.faces).rect) {
      var face := Selected(f.faces);
      CleanVerdictExactly(s, f, face);
      if Stability in c.filters {
        ClockShowsHistory(c, calls, f);
      }
      var ranOut := ClockRanOut(c, f, NextTrack(c, s.track, face, f));
      var steady := Stability in c.filters && StabilityClock.SteadyLongEnough(c, calls, f);
      SteadinessDecides(c, f, face, ranOut, steady, TextureOf(c, f, face));
      hide Meets, VerdictOf, ClockRanOut, NextTrack, TextureOf, After, StabilityClock.SteadyLongEnough;
    }
  }

  lemma SteadinessDecides(c: Config, f: Frame, face: Face, a: bool, b: bool, texture: Option<Texture>)
    requires Stability in c.filters ==> a == b
    ensures Meets(c, f, face, a, texture) <==> Meets(c, f, face, b, texture)
  {
    hide RightSize, Centred, Inside, Facing, GoodQuality;
  }

  // ----- The score -----

  lemma {:induction false} SumOfUnits(s: seq<real>)
    requires AllUnit(s)
    ensures 0.0 <= Sum(s) <= |s| as real
  {
    if s != [] {
      SumOfUnits(s[..|s| - 1]);
    }
  }

  lemma AverageInUnit(parts: seq<real>)
    requires AllUnit(parts)
    ensures 0.0 <= Average(parts) <= 1.0
  {
    SumOfUnits(parts);
    if parts != [] {
      DivLess(Sum(parts), |parts| as real, 0.0);
      DivLess(Sum(parts), |parts| as real, 1.0);
    }
  }

  // The score of any frame, accepted or not, is an average of parts in [0, 1].
  lemma ScoreInUnit(c: Config, m: Metrics, trackCount: int)
    ensures 0.0 <= Score(c, m, trackCount) <= 1.0
  {
    hide ScoreParts;
    AverageInUnit(ScoreParts(c, m, trackCount));
  }

  // The same parts, none of them smaller.
  ghost predicate AtLeast(less: seq<real>, more: seq<real>) {
    |less| == |more| && forall i :: 0 <= i < |less| ==> less[i] <= more[i]
  }

  lemma PlusGrows(less: seq<real>, more: seq<real>, enabled: bool, a: real, b: real)
    requires AtLeast(less, more) && a <= b
    ensures AtLeast(Plus(less, enabled, a), Plus(more, enabled, b))
  {
  }

  lemma {:induction false} SumGrows(less: seq<real>, more: seq<real>)
    requires AtLeast(less, more)
    ensures Sum(less) <= Sum(more)
  {
    if less != [] {
      SumGrows(less[..|less| - 1], more[..|more| - 1]);
    }
  }

  lemma AverageGrows(less: seq<real>, more: seq<real>)
    requires AtLeast(less, more)
    ensures Average(less) <= Average(more)
  {
    SumGrows(less, more);
    if less != [] {
      DivLess(Sum(more), |more| as real, Average(less));
      DivLess(Sum(less), |less| as real, Average(less));
    }
  }

  lemma TrackPartGrows(c: Config, a: int, b: int)
    requires a <= b
    ensures TrackPart(c, a) <= TrackPart(c, b)
  {
    if c.minTrackCount != 0 {
      DivLess(MaxInt(0, b) as real, c.minTrackCount as real, TrackPart(c, a));
      DivLess(MaxInt(0, a) as real, c.minTrackCount as real, TrackPart(c, a));
    }
  }

  // The parts after the frame's, added one by one.
  lemma PartsGrow(c: Config, m: Metrics, n: Metrics, less: seq<real>, more: seq<real>, a: real, b: real)
    requires AtLeast(less, more) && a <= b && n.brightnessScore == m.brightnessScore
    requires m.stabilityScore <= n.stabilityScore && m.poseScore <= n.poseScore
    requires m.qualityScore <= n.qualityScore && m.sharpnessScore <= n.sharpnessScore
    ensures AtLeast(TailParts(c, m, less, a), TailParts(c, n, more, b))
  {
    hide Plus, AtLeast, Centrality;
    PlusGrows(less, more, TrackCount in c.filters, a, b);
    var less1, more1 := Plus(less, TrackCount in c.filters, a), Plus(more, TrackCount in c.filters, b);
    PlusGrows(less1, more1, Stability in c.filters, m.stabilityScore, n.stabilityScore);
    var less2, more2 := Plus(less1, Stability in c.filters, m.stabilityScore),
        Plus(more1, Stability in c.filters, n.stabilityScore);
    PlusGrows(less2, more2, Pose in c.filters, m.poseScore, n.poseScore);
    var less3, more3 := Plus(less2, Pose in c.filters, m.poseScore), Plus(more2, Pose in c.filters, n.poseScore);
    PlusGrows(less3, more3, Quality in c.filters, m.qualityScore, n.qualityScore);
    var less4, more4 := Plus(less3, Quality in c.filters, m.qualityScore), Plus(more3, Quality in c.filters, n.qualityScore);
    PlusGrows(less4, more4, Sharpness in c.filters, m.sharpnessScore, n.sharpnessScore);
    var less5, more5 := Plus(less4, Sharpness in c.filters, m.sharpnessScore),
        Plus(more4, Sharpness in c.filters, n.sharpnessScore);
    var brightness := Centrality(m.brightnessScore, c.minBrightnessScore, c.maxBrightnessScore);
    PlusGrows(less5, more5, Brightness in c.filters, brightness, brightness);
  }

  // Better stability, pose, quality and sharpness and a longer track never lower the score of a
  // face in the same place of the frame.
  lemma ScoreGrows(c: Config, m: Metrics, trackCount: int, steadier: real, posed: real, clearer: real,
                   sharper: real, longer: int)
    requires m.stabilityScore <= steadier && m.poseScore <= posed && m.qualityScore <= clearer
    requires m.sharpnessScore <= sharper && trackCount <= longer
    ensures Score(c, m, trackCount)
         <= Score(c, m.(stabilityScore := steadier, poseScore := posed, qualityScore := clearer,
                        sharpnessScore := sharper), longer)
  {
    var n := m.(stabilityScore := steadier, poseScore := posed, qualityScore := clearer, sharpnessScore := sharper);
    assert FrameParts(c, m) == FrameParts(c, n);
    hide FrameParts, Plus, Clamp01, Average;
    var parts := FrameParts(c, m);
    TrackPartGrows(c, trackCount, longer);
    PartsGrow(c, m, n, parts, parts, TrackPart(c, trackCount), TrackPart(c, longer));
    AverageGrows(ScoreParts(c, m, trackCount), ScoreParts(c, n, longer));
  }

  // ----- What can be configured -----

  function Ratios(c: Config): set<real> {
    {c.minFaceWidthRatio, c.maxFaceWidthRatio, c.maxCenterOffsetX, c.maxCenterOffsetY, c.boundaryMarginRatio,
     c.maxCenterMotionRatio, c.maxSizeChangeRatio,
     c.minQualityScore, c.minSharpnessScore, c.minBrightnessScore, c.maxBrightnessScore}
  }

  // Some share of the whole lies between the two bounds.
  ghost predicate SomeShareBetween(lo: real, hi: real) {
    exists x :: UnitRange(x) && lo <= x <= hi
  }

  predicate Over(t: u64, duration: u64) {
    t >= duration
  }

  lemma RatiosAreAll(c: Config)
    ensures (forall r :: r in Ratios(c) ==> 0.0 <= r <= 1.0) <==>
      && UnitRange(c.minFaceWidthRatio) && UnitRange(c.maxFaceWidthRatio)
      && UnitRange(c.maxCenterOffsetX) && UnitRange(c.maxCenterOffsetY) && UnitRange(c.boundaryMarginRatio)
      && UnitRange(c.maxCenterMotionRatio) && UnitRange(c.maxSizeChangeRatio)
      && UnitRange(c.minQualityScore) && UnitRange(c.minSharpnessScore)
      && UnitRange(c.minBrightnessScore) && UnitRange(c.maxBrightnessScore)
  {
    assert {c.minFaceWidthRatio, c.maxFaceWidthRatio, c.maxCenterOffsetX, c.maxCenterOffsetY, c.boundaryMarginRatio}
           + {c.maxCenterMotionRatio, c.maxSizeChangeRatio}
           + {c.minQualityScore, c.minSharpnessScore, c.minBrightnessScore, c.maxBrightnessScore} == Ratios(c);
  }

  // A configuration is taken over exactly when every filter in it is known and leaves room for
  // some value, the room inside the margins is more than a point, up to eight results are asked
  // for, the collection ends no sooner than it may be ready, and what its filters need is on.
  lemma ConfiguredExactly(s: State, c: Config, features: Features)
    ensures var t := ConfigureStep(s, c, features);
            && (t.status == Ok <==>
                  && ValidConfig(c)
                  && (Pose in c.filters ==> features.facePose) && (Quality in c.filters ==> features.faceQuality))
            && (ValidConfig(c) <==>
                  && (forall f :: f in c.filters ==> !f.Unsupported?)
                  && c.outputCount in {1, 2, 3, 4, 5, 6, 7, 8}
                  && (forall t: u64 :: Over(t, c.maxCollectDurationMs) ==> Over(t, c.collectDurationMs))
                  && (TrackCount in c.filters ==> c.minTrackCount != 0 && c.minTrackCount < 0x8000_0000)
                  && (forall r :: r in Ratios(c) ==> 0.0 <= r <= 1.0)
                  && SomeShareBetween(c.minFaceWidthRatio, c.maxFaceWidthRatio)
                  && SomeShareBetween(c.minBrightnessScore, c.maxBrightnessScore)
                  && c.boundaryMarginRatio < 1.0 - c.boundaryMarginRatio
                  && Facing(0.0, c.maxAbsYaw) && Facing(0.0, c.maxAbsPitch) && Facing(0.0, c.maxAbsRoll))
            && (t.status == RequiredFeatureOff ==> ValidConfig(c))
            && (t.status != Ok ==> t.status == InvalidConfig || t.status == RequiredFeatureOff)
            && t.config == (if t.status == Ok then c else s.config)
            && t.results == [] && !t.finished && !t.collecting && !t.hasInput && t.track == NO_TRACK && t.lastReport == EMPTY_REPORT
  {
    assert Over(c.maxCollectDurationMs, c.maxCollectDurationMs);
    RatiosAreAll(c);
    hide Ratios;
    assert UnitRange(c.minFaceWidthRatio) && UnitRange(c.minBrightnessScore) ==>
             (SomeShareBetween(c.minFaceWidthRatio, c.maxFaceWidthRatio) <==> c.minFaceWidthRatio <= c.maxFaceWidthRatio)
             && (SomeShareBetween(c.minBrightnessScore, c.maxBrightnessScore) <==>
                    c.minBrightnessScore <= c.maxBrightnessScore);
  }

  // A valid configuration can still ask for a face that is wider than its margins leave room for;
  // then no frame is ever accepted.
  lemma {:induction false} TooWideForItsMargins(c: Config, calls: seq<Call>, f: GoodFrame)
    requires ValidConfig(c) && FaceSize in c.filters && FaceBoundary in c.filters
    requires c.minFaceWidthRatio + 2.0 * c.boundaryMarginRatio > 1.0
    ensures !Accepts(After(Fresh(c), calls), Feed(f))
  {
    var s := After(Fresh(c), calls);
    StabilityClock.RunFits(c, calls);
    if Processes(s, f) && f.faces != [] && Usable(Selected(f.faces).rect) {
      CleanVerdictExactly(s, f, Selected(f.faces));
      NoRoomInside(Selected(f.faces).rect, f.imageWidth, c.minFaceWidthRatio, c.boundaryMarginRatio);
      hide After, VerdictOf, NextTrack, TextureOf, Centred, Facing, GoodQuality, ClockRanOut;
    }
  }

  lemma NoRoomInside(rect: Rect, imageWidth: int, least: real, margin: real)
    requires imageWidth > 0 && least + 2.0 * margin > 1.0
    ensures !(least * imageWidth as real <= rect.width as real && Inside(rect.x, rect.width, imageWidth, margin))
  {
    var w := imageWidth as real;
    var a, m := least * w, margin * w;
    MoreThanWhole(least, margin, w, a, m);
    assert (rect.x + rect.width) as real == rect.x as real + rect.width as real;
    NothingFits(a, m, rect.x as real, rect.width as real, w);
  }

  lemma NothingFits(least: real, margin: real, start: real, width: real, whole: real)
    requires least + 2.0 * margin > whole
    ensures !(least <= width && margin <= start && start + width <= whole - margin)
  {
  }

  lemma MoreThanWhole(least: real, margin: real, w: real, a: real, m: real)
    requires least + 2.0 * margin > 1.0 && w > 0.0 && a == least * w && m == margin * w
    ensures a + 2.0 * m > w
  {
    var k := least + 2.0 * margin - 1.0;
    PositiveProduct(k, w);
    assert k * w == a + 2.0 * m - w;
  }
}
