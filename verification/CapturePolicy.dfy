// The best-frame selector as a transition function: how one call changes the selector's state
// and what it reports. CaptureSelector.dfy carries the same steps out in place.
module CapturePolicy {
  import opened Basics
  import opened CaptureTypes
  import opened CandidateRanking
  import opened PixelMetrics

  // ----- Configuration -----

  predicate UnitRange(value: real) {
    0.0 <= value <= 1.0
  }

  predicate ValidConfig(c: Config) {
    && (forall f :: f in c.filters ==> !f.Unsupported?)
    && 0 < c.outputCount <= MAX_OUTPUT_COUNT
    && c.collectDurationMs <= c.maxCollectDurationMs
    && (TrackCount in c.filters ==> 0 < c.minTrackCount <= INT32_MAX)
    && UnitRange(c.minFaceWidthRatio) && UnitRange(c.maxFaceWidthRatio) && c.minFaceWidthRatio <= c.maxFaceWidthRatio
    && UnitRange(c.maxCenterOffsetX) && UnitRange(c.maxCenterOffsetY)
    && UnitRange(c.boundaryMarginRatio) && c.boundaryMarginRatio < 0.5
    && UnitRange(c.maxCenterMotionRatio) && UnitRange(c.maxSizeChangeRatio)
    && c.maxAbsYaw >= 0.0 && c.maxAbsPitch >= 0.0 && c.maxAbsRoll >= 0.0
    && UnitRange(c.minQualityScore) && UnitRange(c.minSharpnessScore)
    && UnitRange(c.minBrightnessScore) && UnitRange(c.maxBrightnessScore) && c.minBrightnessScore <= c.maxBrightnessScore
  }

  function ConfigStatus(c: Config, features: Features): Status {
    if !ValidConfig(c) then InvalidConfig
    else if Pose in c.filters && !features.facePose then RequiredFeatureOff
    else if Quality in c.filters && !features.faceQuality then RequiredFeatureOff
    else Ok
  }

  // ResetState: everything but the configuration and its status.
  function Cleared(s: State): State {
    State(s.config, s.status, false, false, false, 0, 0, 0, NO_TRACK, [], EMPTY_REPORT)
  }

  function ConfigureStep(s: State, c: Config, features: Features): State {
    var status := ConfigStatus(c, features);
    Cleared(if status == Ok then s.(config := c, status := Ok) else s.(status := status))
  }

  // A selector right after it accepted the configuration c.
  function Fresh(c: Config): State {
    State(c, Ok, false, false, false, 0, 0, 0, NO_TRACK, [], EMPTY_REPORT)
  }

  // ----- The face a frame is judged by -----

  // The larger face wins; of equally large ones the smaller track id.
  predicate Preferred(a: Face, b: Face) {
    a.rect.Area() > b.rect.Area() || (a.rect.Area() == b.rect.Area() && a.trackId < b.trackId)
  }

  // The index of the chosen face among the first k.
  function SelectedOf(faces: seq<Face>, k: nat): (i: nat)
    requires 0 < k <= |faces|
    ensures i < k
  {
    if k == 1 then 0
    else
      var best := SelectedOf(faces, k - 1);
      if Preferred(faces[k - 1], faces[best]) then k - 1 else best
  }

  function Selected(faces: seq<Face>): Face
    requires faces != []
  {
    faces[SelectedOf(faces, |faces|)]
  }

  // No face has a larger area than the chosen one, and none with the same area a smaller track
  // id; every earlier face has a smaller area, or the same area and a larger track id.
  lemma {:induction false} SelectedIsPreferred(faces: seq<Face>, k: nat)
    requires 0 < k <= |faces|
    ensures var best := faces[SelectedOf(faces, k)];
            && (forall j :: 0 <= j < k ==> faces[j].rect.Area() <= best.rect.Area())
            && (forall j :: 0 <= j < k && faces[j].rect.Area() == best.rect.Area() ==> faces[j].trackId >= best.trackId)
            && (forall j :: 0 <= j < SelectedOf(faces, k) && faces[j].rect.Area() == best.rect.Area() ==>
                  faces[j].trackId > best.trackId)
  {
    if k > 1 {
      SelectedIsPreferred(faces, k - 1);
    }
  }

  // ----- The stability clock -----

  // Centre motion is compared squared: sqrt(d2) > m is d2 > m * m for m >= 0.
  predicate Moved(c: Config, previous: Rect, current: Rect, imageWidth: int, imageHeight: int)
    requires imageWidth > 0 && imageHeight > 0
  {
    var dx := ((current.x as real + current.width as real * 0.5)
               - (previous.x as real + previous.width as real * 0.5)) / imageWidth as real;
    var dy := ((current.y as real + current.height as real * 0.5)
               - (previous.y as real + previous.height as real * 0.5)) / imageHeight as real;
    var previousArea, currentArea := previous.Area() as real, current.Area() as real;
    || dx * dx + dy * dy > c.maxCenterMotionRatio * c.maxCenterMotionRatio
    || previousArea <= 0.0
    || Abs(currentArea - previousArea) / previousArea > c.maxSizeChangeRatio
  }

  function NextTrack(c: Config, track: Track, face: Face, f: Frame): Track
    requires f.imageWidth > 0 && f.imageHeight > 0
  {
    var switched := track.activeId != face.trackId;
    var since := if switched then f.timestampMs else track.stableSince;
    var last := if switched then None else track.lastRect;
    if Stability !in c.filters then Track(face.trackId, since, f.timestampMs, last)
    else
      var moved := last.Some? && Moved(c, last.value, face.rect, f.imageWidth, f.imageHeight);
      Track(face.trackId, if moved then f.timestampMs else since, f.timestampMs, Some(face.rect))
  }

  // ----- Judging a usable face -----

  // The part of the report that the checks fill in.
  datatype Verdict = Verdict(metrics: Metrics, rejects: set<Reject>)

  function Flag(raised: bool, reason: Reject): set<Reject> {
    if raised then {reason} else {}
  }

  function CountRejects(c: Config, faceCount: nat, face: Face): set<Reject> {
    Flag(FaceCount in c.filters && faceCount != 1, MultipleFaces)
    + Flag(TrackCount in c.filters && (face.trackCount < 0 || face.trackCount < c.minTrackCount), TrackCountTooLow)
  }

  function CheckSize(c: Config, rect: Rect, imageWidth: int, v: Verdict): Verdict
    requires imageWidth > 0
  {
    if FaceSize !in c.filters then v
    else
      var ratio := rect.width as real / imageWidth as real;
      Verdict(
        v.metrics.(faceWidthRatio := ratio, available := v.metrics.available + {FaceSize}),
        v.rejects + Flag(ratio < c.minFaceWidthRatio, FaceTooSmall) + Flag(ratio > c.maxFaceWidthRatio, FaceTooLarge))
  }

  function CenterOffset(start: int, length: int, imageLength: int): real
    requires imageLength > 0
  {
    Abs((start as real + length as real * 0.5) - imageLength as real * 0.5) / imageLength as real
  }

  function CheckPosition(c: Config, rect: Rect, imageWidth: int, imageHeight: int, v: Verdict): Verdict
    requires imageWidth > 0 && imageHeight > 0
  {
    if FacePosition !in c.filters then v
    else
      var x, y := CenterOffset(rect.x, rect.width, imageWidth), CenterOffset(rect.y, rect.height, imageHeight);
      Verdict(
        v.metrics.(centerOffsetX := x, centerOffsetY := y, available := v.metrics.available + {FacePosition}),
        v.rejects + Flag(x > c.maxCenterOffsetX || y > c.maxCenterOffsetY, FaceOffCenter))
  }

  function CheckBoundary(c: Config, rect: Rect, imageWidth: int, imageHeight: int, v: Verdict): Verdict {
    if FaceBoundary !in c.filters then v
    else
      var marginX, marginY := c.boundaryMarginRatio * imageWidth as real, c.boundaryMarginRatio * imageHeight as real;
      var outside :=
        || rect.x as real < marginX || rect.y as real < marginY
        || (rect.x + rect.width) as real > imageWidth as real - marginX
        || (rect.y + rect.height) as real > imageHeight as real - marginY;
      Verdict(v.metrics.(available := v.metrics.available + {FaceBoundary}), v.rejects + Flag(outside, FaceOutOfBounds))
  }

  function CheckStability(c: Config, track: Track, timestampMs: u64, v: Verdict): Verdict {
    if Stability !in c.filters then v
    else
      var elapsed := Elapsed(timestampMs, track.stableSince);
      Verdict(
        v.metrics.(
          stabilityScore :=
            if c.stableDurationMs == 0 then 1.0 else Clamp01(elapsed as real / c.stableDurationMs as real),
          available := v.metrics.available + {Stability}),
        v.rejects + Flag(elapsed < c.stableDurationMs, Unstable))
  }

  // How far inside its limit an angle or offset is; a zero limit admits only zero.
  function Headroom(value: real, limit: real): real {
    if limit == 0.0 then (if value == 0.0 then 1.0 else 0.0) else 1.0 - value / limit
  }

  function CheckPose(c: Config, face: Face, v: Verdict): Verdict {
    if Pose !in c.filters then v
    else
      var yaw, pitch, roll := Abs(face.yaw), Abs(face.pitch), Abs(face.roll);
      var bad := yaw > c.maxAbsYaw || pitch > c.maxAbsPitch || roll > c.maxAbsRoll;
      var score := if bad then 0.0 else
        Clamp01(Min(Headroom(yaw, c.maxAbsYaw), Min(Headroom(pitch, c.maxAbsPitch), Headroom(roll, c.maxAbsRoll))));
      Verdict(v.metrics.(poseScore := score, available := v.metrics.available + {Pose}), v.rejects + Flag(bad, BadPose))
  }

  function QualityScore(quality: seq<real>): real {
    if exists i :: 0 <= i < |quality| && quality[i] < 0.0 then -1.0 else Clamp01(1.0 - Sum(quality) / 5.0)
  }

  function CheckQuality(c: Config, face: Face, v: Verdict): Verdict {
    if Quality !in c.filters then v
    else
      var score := QualityScore(face.quality);
      Verdict(
        v.metrics.(qualityScore := score, available := v.metrics.available + {Quality}),
        v.rejects + Flag(score < c.minQualityScore, BadQuality))
  }

  predicate NeedsPixels(c: Config) {
    Sharpness in c.filters || Brightness in c.filters
  }

  // `texture` is what ComputePixelMetrics returned for the face region.
  function CheckPixels(c: Config, texture: Option<Texture>, v: Verdict): Verdict {
    if texture.None? then
      v.(rejects := v.rejects + Flag(Sharpness in c.filters, BadSharpness) + Flag(Brightness in c.filters, BadBrightness))
    else
      var t := texture.value;
      var v1 := if Sharpness !in c.filters then v else Verdict(
        v.metrics.(sharpnessScore := t.sharpness, available := v.metrics.available + {Sharpness}),
        v.rejects + Flag(t.sharpness < c.minSharpnessScore, BadSharpness));
      if Brightness !in c.filters then v1 else Verdict(
        v1.metrics.(brightnessScore := t.brightness, available := v1.metrics.available + {Brightness}),
        v1.rejects + Flag(t.brightness < c.minBrightnessScore || t.brightness > c.maxBrightnessScore, BadBrightness))
  }

  // The checks up to stability, and the ones after it, in the order of the code.
  function JudgeGeometry(c: Config, face: Face, f: Frame): Verdict
    requires f.imageWidth > 0 && f.imageHeight > 0
  {
    var v := Verdict(NO_METRICS, CountRejects(c, |f.faces|, face));
    var sized := CheckSize(c, face.rect, f.imageWidth, v);
    var placed := CheckPosition(c, face.rect, f.imageWidth, f.imageHeight, sized);
    CheckBoundary(c, face.rect, f.imageWidth, f.imageHeight, placed)
  }

  function Judge(c: Config, face: Face, f: Frame, track: Track, texture: Option<Texture>): Verdict
    requires f.imageWidth > 0 && f.imageHeight > 0
  {
    var steady := CheckStability(c, track, f.timestampMs, JudgeGeometry(c, face, f));
    var posed := CheckPose(c, face, steady);
    var clear := CheckQuality(c, face, posed);
    if NeedsPixels(c) then CheckPixels(c, texture, clear) else clear
  }

  // ----- The score -----

  ghost predicate AllUnit(s: seq<real>) {
    forall i :: 0 <= i < |s| ==> 0.0 <= s[i] <= 1.0
  }

  // `add`: one more part of the average when its filter is on, clamped to [0, 1].
  function Plus(parts: seq<real>, enabled: bool, value: real): (more: seq<real>)
    ensures AllUnit(parts) ==> AllUnit(more)
  {
    if enabled then parts + [Clamp01(value)] else parts
  }

  // How close a value is to the middle of the range lo..hi.
  function Centrality(value: real, lo: real, hi: real): real {
    1.0 - Abs(value - (lo + hi) * 0.5) / Max(0.0001, (hi - lo) * 0.5)
  }

  // The parts of the score in the order the code adds them: what the face looks like in the
  // frame, then what its track and pixels add.
  function FrameParts(c: Config, m: Metrics): (parts: seq<real>)
    ensures AllUnit(parts)
  {
    var counted := Plus([], FaceCount in c.filters, 1.0);
    var sized := Plus(counted, FaceSize in c.filters, Centrality(m.faceWidthRatio, c.minFaceWidthRatio, c.maxFaceWidthRatio));
    var placed := Plus(sized, FacePosition in c.filters,
                       Min(Headroom(m.centerOffsetX, c.maxCenterOffsetX), Headroom(m.centerOffsetY, c.maxCenterOffsetY)));
    Plus(placed, FaceBoundary in c.filters, 1.0)
  }

  function TrackPart(c: Config, trackCount: int): real {
    if c.minTrackCount == 0 then 1.0 else MaxInt(0, trackCount) as real / c.minTrackCount as real
  }

  function TailParts(c: Config, m: Metrics, front: seq<real>, track: real): (parts: seq<real>)
    ensures AllUnit(front) ==> AllUnit(parts)
  {
    var tracked := Plus(front, TrackCount in c.filters, track);
    var steady := Plus(tracked, Stability in c.filters, m.stabilityScore);
    var posed := Plus(steady, Pose in c.filters, m.poseScore);
    var clear := Plus(posed, Quality in c.filters, m.qualityScore);
    var sharp := Plus(clear, Sharpness in c.filters, m.sharpnessScore);
    Plus(sharp, Brightness in c.filters, Centrality(m.brightnessScore, c.minBrightnessScore, c.maxBrightnessScore))
  }

  function ScoreParts(c: Config, m: Metrics, trackCount: int): (parts: seq<real>)
    ensures AllUnit(parts)
  {
    TailParts(c, m, FrameParts(c, m), TrackPart(c, trackCount))
  }

  function Average(parts: seq<real>): real {
    if parts == [] then 1.0 else Sum(parts) / |parts| as real
  }

  function Score(c: Config, m: Metrics, trackCount: int): real {
    Average(ScoreParts(c, m, trackCount))
  }

  // ----- Progress -----

  function CollectProgress(c: Config, elapsed: u64): real {
    if c.collectDurationMs == 0 then 1.0 else 0.5 + 0.5 * Clamp01(elapsed as real / c.collectDurationMs as real)
  }

  function GateProgress(c: Config, r: Report): real {
    var steady := Stability in c.filters && r.metrics.stabilityScore >= 0.0;
    var counted := TrackCount in c.filters && c.minTrackCount > 0;
    var g1 := if steady then Min(1.0, r.metrics.stabilityScore) else 1.0;
    var g2 := if counted then Min(g1, Clamp01(MaxInt(0, r.trackCount) as real / c.minTrackCount as real)) else g1;
    if steady || counted then 0.5 * g2 else 0.0
  }

  function Completed(s: State, r: Report): Report {
    r.(candidateCount := |s.results|,
       progress :=
         if r.phase == Ready || r.phase == Finished then 1.0
         else if s.collecting then CollectProgress(s.config, Elapsed(r.timestampMs, s.collectionStartMs))
         else GateProgress(s.config, r))
  }

  // ----- One call -----

  datatype Outcome = Outcome(state: State, status: Status, report: Report)

  function Complete(s: State, r: Report): Outcome {
    Outcome(s.(lastReport := Completed(s, r)), Ok, Completed(s, r))
  }

  function LatchedReport(s: State, frameId: u64, timestampMs: u64): Report {
    s.lastReport.(frameId := frameId, timestampMs := timestampMs, phase := Finished, progress := 1.0,
                  candidateCount := |s.results|)
  }

  function OpenReport(s: State, f: Frame): Report {
    EMPTY_REPORT.(frameId := f.frameId, timestampMs := f.timestampMs, evaluated := s.config.filters)
  }

  function EmptyFrame(s: State, f: Frame): Outcome {
    var r := OpenReport(s, f).(rejects := {NoFace});
    if s.track.activeId >= 0 && Elapsed(f.timestampMs, s.track.lastSeen) <= s.config.trackLostGraceMs then
      Complete(s, r.(phase := TrackLost, trackId := s.track.activeId))
    else
      Complete(s.(track := NO_TRACK), r.(phase := Idle))
  }

  predicate Usable(rect: Rect) {
    rect.width > 0 && rect.height > 0
  }

  function FaceReport(s: State, f: Frame, face: Face): Report {
    OpenReport(s, f).(trackId := face.trackId, trackCount := face.trackCount)
  }

  function UnusableFrame(s: State, f: Frame, face: Face): Outcome {
    Complete(s, FaceReport(s, f, face).(rejects := CountRejects(s.config, |f.faces|, face) + {FaceOutOfBounds}))
  }

  function TextureOf(c: Config, f: Frame, face: Face): Option<Texture>
    requires f.image.Some? ==> WellFormed(f.image.value)
  {
    if NeedsPixels(c) && f.image.Some? then PixelTexture(f.image.value, face.rect, Sharpness in c.filters,
                                                         Brightness in c.filters)
    else None
  }

  function CandidateOf(f: Frame, face: Face, score: real, metrics: Metrics): Candidate {
    Candidate(f.frameId, f.timestampMs, face.trackId, score, face, metrics)
  }

  // A frame whose image, if it has one, is a real image.
  predicate Acceptable(f: Frame) {
    f.image.Some? ==> WellFormed(f.image.value)
  }

  // The track and the verdict of a frame whose chosen face is usable.
  function VerdictOf(s: State, f: Frame, face: Face): Verdict
    requires f.imageWidth > 0 && f.imageHeight > 0 && Acceptable(f)
  {
    Judge(s.config, face, f, NextTrack(s.config, s.track, face, f), TextureOf(s.config, f, face))
  }

  function CandidateIn(s: State, f: Frame, face: Face): Candidate
    requires f.imageWidth > 0 && f.imageHeight > 0 && Acceptable(f)
  {
    var v := VerdictOf(s, f, face);
    CandidateOf(f, face, Score(s.config, v.metrics, face.trackCount), v.metrics)
  }

  function UsableFrame(s: State, f: Frame, face: Face): Outcome
    requires f.imageWidth > 0 && f.imageHeight > 0 && Acceptable(f)
  {
    var v := VerdictOf(s, f, face);
    var s1 := s.(track := NextTrack(s.config, s.track, face, f));
    var r := FaceReport(s, f, face).(
      metrics := v.metrics, rejects := v.rejects, currentScore := Score(s.config, v.metrics, face.trackCount));
    if v.rejects == {} then AcceptFrame(s1, r, CandidateIn(s, f, face)) else RejectFrame(s1, r)
  }

  function AcceptFrame(s: State, r: Report, candidate: Candidate): Outcome {
    var start := if s.collecting then s.collectionStartMs else candidate.timestampMs;
    var s1 := s.(results := AddCandidate(s.config, s.results, candidate), collecting := true, collectionStartMs := start);
    var elapsed := Elapsed(candidate.timestampMs, start);
    if elapsed >= s.config.maxCollectDurationMs then
      Complete(s1.(finished := true), r.(phase := Finished))
    else
      Complete(s1, r.(phase :=
        if |s1.results| >= s.config.outputCount && elapsed >= s.config.collectDurationMs then Ready else Collecting))
  }

  function RejectFrame(s: State, r: Report): Outcome {
    if s.collecting && Elapsed(r.timestampMs, s.collectionStartMs) >= s.config.maxCollectDurationMs then
      Complete(s.(finished := true), r.(phase := Finished))
    else
      Complete(s, r.(phase := Stabilizing))
  }

  // The checks in front of the frame itself.
  function Admission(s: State, f: Frame): Status {
    if s.status != Ok then s.status
    else if f.imageWidth <= 0 || f.imageHeight <= 0 then InvalidParam
    else if s.hasInput && (f.frameId <= s.lastFrameId || f.timestampMs <= s.lastTimestampMs) then FrameOutOfOrder
    else if NeedsPixels(s.config) && f.image.None? then InvalidParam
    else Ok
  }

  // Whether a call with frame f gets as far as the frame itself.
  predicate Processes(s: State, f: Frame) {
    !s.finished && Admission(s, f) == Ok
  }

  function ProcessFrame(s: State, f: Frame): Outcome
    requires f.imageWidth > 0 && f.imageHeight > 0 && Acceptable(f)
  {
    if f.faces == [] then EmptyFrame(s, f)
    else if !Usable(Selected(f.faces).rect) then UnusableFrame(s, f, Selected(f.faces))
    else UsableFrame(s, f, Selected(f.faces))
  }

  function Noted(s: State, f: Frame): State {
    s.(hasInput := true, lastFrameId := f.frameId, lastTimestampMs := f.timestampMs)
  }

  function UpdateStep(s: State, f: Frame): Outcome
    requires Acceptable(f)
  {
    if s.status != Ok then Outcome(s, s.status, EMPTY_REPORT)
    else if s.finished then Outcome(s, Ok, LatchedReport(s, f.frameId, f.timestampMs))
    else if Admission(s, f) != Ok then Outcome(s, Admission(s, f), EMPTY_REPORT)
    else ProcessFrame(Noted(s, f), f)
  }

  function FinishStep(s: State): Outcome {
    if s.status != Ok then Outcome(s, s.status, EMPTY_REPORT)
    else
      var s1 := s.(finished := true);
      Outcome(s1, Ok, LatchedReport(s1, s.lastFrameId, s.lastTimestampMs))
  }

  type GoodFrame = f: Frame | Acceptable(f) witness Frame(0, 0, None, [], 0, 0)

  // The calls that leave a capture in place.
  datatype Call = Feed(frame: GoodFrame) | Finish

  function Next(s: State, call: Call): Outcome {
    match call
    case Feed(f) => UpdateStep(s, f)
    case Finish => FinishStep(s)
  }

  // The state after a sequence of calls.
  function After(s: State, calls: seq<Call>): State {
    if calls == [] then s else Next(After(s, calls[..|calls| - 1]), calls[|calls| - 1]).state
  }

  // Whether a call has its frame accepted as a candidate, and which candidate that is.
  predicate Accepts(s: State, call: Call) {
    && call.Feed? && Processes(s, call.frame) && call.frame.faces != []
    && Usable(Selected(call.frame.faces).rect)
    && VerdictOf(s, call.frame, Selected(call.frame.faces)).rejects == {}
  }

  function Offered(s: State, call: Call): Candidate
    requires Accepts(s, call)
  {
    CandidateIn(s, call.frame, Selected(call.frame.faces))
  }
}
