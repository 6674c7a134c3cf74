// The selector as the stateful object it is: every method changes the fields in place, and its
// contract equates the new state with one step of CapturePolicy.
module CaptureSelector {
  import opened Basics
  import opened CaptureTypes
  import opened CandidateRanking
  import opened PixelMetrics
  import opened CapturePolicy

  const DEFAULT_CONFIG := Config(
    {FaceCount, FaceSize, FacePosition, FaceBoundary, Stability, TrackCount}, 1, 5, 300, 800, 3000, 300, 150,
    0.12, 0.75, 0.25, 0.25, 0.02, 0.025, 0.08, 25.0, 25.0, 20.0, 0.60, 0.03, 0.15, 0.90)

  // The selection loop of Update.
  method SelectFace(faces: seq<Face>) returns (face: Face)
    requires faces != []
    ensures face == Selected(faces)
  {
    var best, k := 0, 1;
    while k < |faces|
      invariant 1 <= k <= |faces| && best == SelectedOf(faces, k)
    {
      if Preferred(faces[k], faces[best]) {
        best := k;
      }
      k := k + 1;
    }
    face := faces[best];
  }

  // The accumulating loop of FaceQualityScore, with its early exit.
  method FaceQualityScore(quality: seq<real>) returns (score: real)
    ensures score == QualityScore(quality)
  {
    var sum, i := 0.0, 0;
    while i < |quality|
      invariant 0 <= i <= |quality| && sum == Sum(quality[..i])
      invariant forall k :: 0 <= k < i ==> quality[k] >= 0.0
    {
      if quality[i] < 0.0 {
        return -1.0;
      }
      assert quality[..i + 1][..i] == quality[..i];
      sum := sum + quality[i];
      i := i + 1;
    }
    assert quality[..i] == quality;
    score := Clamp01(1.0 - sum / 5.0);
  }

  // std::sort on the result list.
  method SortCandidates(s: seq<Candidate>) returns (sorted: seq<Candidate>)
    ensures sorted == Sort(s)
  {
    sorted := [];
    var i := 0;
    while i < |s|
      invariant 0 <= i <= |s| && sorted == Sort(s[..i])
    {
      assert s[..i + 1][..i] == s[..i];
      sorted := InsertAt(sorted, Place(s[i], sorted), s[i]);
      i := i + 1;
    }
    assert s[..i] == s;
  }

  // std::find_if for the stored candidate that a new one duplicates.
  method FindDuplicate(c: Config, s: seq<Candidate>, candidate: Candidate) returns (i: nat)
    ensures i == FirstDuplicate(c, s, candidate)
  {
    i := 0;
    while i < |s| && !IsDuplicate(c, s[i], candidate)
      invariant 0 <= i <= |s|
      invariant FirstDuplicate(c, s, candidate) == i + FirstDuplicate(c, s[i..], candidate)
    {
      i := i + 1;
    }
  }

  // The list with a new candidate in it, before it is sorted again.
  method MergeCandidate(c: Config, s: seq<Candidate>, candidate: Candidate) returns (merged: seq<Candidate>)
    ensures merged == Merge(c, s, candidate)
  {
    var duplicate := |s|;
    if c.minCandidateIntervalMs > 0 {
      duplicate := FindDuplicate(c, s, candidate);
    }
    merged := s;
    if duplicate < |s| {
      if candidate.score > s[duplicate].score {
        merged := s[duplicate := candidate];
      }
    } else {
      merged := s + [candidate];
    }
  }

  class FaceCaptureSelector {
    var config: Config
    var status: Status
    var hasInput: bool
    var finished: bool
    var collecting: bool
    var lastFrameId: u64
    var lastTimestampMs: u64
    var collectionStartMs: u64
    var activeTrackId: int
    var stableSinceMs: u64
    var lastSeenMs: u64
    var hasLastRect: bool
    var lastRect: Rect
    var results: seq<Candidate>
    var lastReport: Report

    ghost function TrackState(): Track
      reads this
    {
      Track(activeTrackId, stableSinceMs, lastSeenMs, if hasLastRect then Some(lastRect) else None)
    }

    ghost function Value(): State
      reads this
    {
      State(config, status, hasInput, finished, collecting, lastFrameId, lastTimestampMs, collectionStartMs,
            TrackState(), results, lastReport)
    }

    constructor ()
      ensures Value() == Fresh(DEFAULT_CONFIG).(status := InvalidConfig)
    {
      config, status := DEFAULT_CONFIG, InvalidConfig;
      hasInput, finished, collecting := false, false, false;
      lastFrameId, lastTimestampMs, collectionStartMs := 0, 0, 0;
      activeTrackId, stableSinceMs, lastSeenMs := NO_ID, 0, 0;
      hasLastRect, lastRect := false, Rect(0, 0, 0, 0);
      results, lastReport := [], EMPTY_REPORT;
    }

    method ResetTrackState()
      modifies this
      ensures Value() == old(Value()).(track := NO_TRACK)
    {
      activeTrackId := NO_ID;
      stableSinceMs := 0;
      lastSeenMs := 0;
      hasLastRect := false;
      lastRect := Rect(0, 0, 0, 0);
    }

    method ResetState()
      modifies this
      ensures Value() == Cleared(old(Value()))
    {
      hasInput, finished, collecting := false, false, false;
      lastFrameId, lastTimestampMs, collectionStartMs := 0, 0, 0;
      results := [];
      lastReport := EMPTY_REPORT;
      ResetTrackState();
    }

    method Configure(c: Config, features: Features) returns (outcome: Status)
      modifies this
      ensures Value() == ConfigureStep(old(Value()), c, features)
      ensures outcome == ConfigStatus(c, features) == status
    {
      if !ValidConfig(c) {
        status := InvalidConfig;
        ResetState();
        return status;
      }
      if Pose in c.filters && !features.facePose {
        status := RequiredFeatureOff;
        ResetState();
        return status;
      }
      if Quality in c.filters && !features.faceQuality {
        status := RequiredFeatureOff;
        ResetState();
        return status;
      }
      config := c;
      status := Ok;
      ResetState();
      return Ok;
    }

    method Reset()
      modifies this
      ensures Value() == Cleared(old(Value()))
    {
      ResetState();
    }

    method UpdateStability(face: Face, f: Frame, v: Verdict) returns (steady: Verdict)
      requires f.imageWidth > 0 && f.imageHeight > 0
      modifies this
      ensures Value() == old(Value()).(track := NextTrack(config, old(TrackState()), face, f))
      ensures steady == CheckStability(config, TrackState(), f.timestampMs, v)
    {
      hide Moved, Elapsed, Clamp01;
      var switchedTrack := activeTrackId != face.trackId;
      if switchedTrack {
        activeTrackId := face.trackId;
        stableSinceMs := f.timestampMs;
        hasLastRect := false;
      }
      lastSeenMs := f.timestampMs;
      if Stability !in config.filters {
        return v;
      }
      var moved := false;
      if hasLastRect && !switchedTrack {
        moved := Moved(config, lastRect, face.rect, f.imageWidth, f.imageHeight);
      }
      if moved {
        stableSinceMs := f.timestampMs;
      }
      lastRect := face.rect;
      hasLastRect := true;
      steady := CheckStability(config, Track(activeTrackId, stableSinceMs, lastSeenMs, Some(lastRect)), f.timestampMs, v);
    }

    method AddCandidate(candidate: Candidate)
      modifies this
      ensures Value() == old(Value()).(results := CandidateRanking.AddCandidate(config, old(results), candidate))
    {
      hide Sort, Merge;
      results := MergeCandidate(config, results, candidate);
      results := SortCandidates(results);
      if |results| > config.outputCount {
        results := results[..config.outputCount];
      }
    }

    method CompleteUpdate(r: Report) returns (report: Report)
      modifies this
      ensures report == Completed(old(Value()), r) && Value() == old(Value()).(lastReport := report)
    {
      report := r.(candidateCount := |results|);
      if report.phase == Ready || report.phase == Finished {
        report := report.(progress := 1.0);
      } else if collecting {
        var elapsed := Elapsed(report.timestampMs, collectionStartMs);
        report := report.(progress := CollectProgress(config, elapsed));
      } else {
        var hasGateProgress, gateProgress := false, 1.0;
        if Stability in config.filters && report.metrics.stabilityScore >= 0.0 {
          hasGateProgress := true;
          gateProgress := Min(gateProgress, report.metrics.stabilityScore);
        }
        if TrackCount in config.filters && config.minTrackCount > 0 {
          hasGateProgress := true;
          gateProgress := Min(gateProgress, Clamp01(MaxInt(0, report.trackCount) as real / config.minTrackCount as real));
        }
        report := report.(progress := if hasGateProgress then 0.5 * gateProgress else 0.0);
      }
      lastReport := report;
    }

    // The part of Update behind the admission checks, for a frame that shows no face.
    method UpdateWithoutFace(f: Frame) returns (report: Report)
      modifies this
      ensures Outcome(Value(), Ok, report) == EmptyFrame(old(Value()), f)
    {
      report := EMPTY_REPORT.(frameId := f.frameId, timestampMs := f.timestampMs, evaluated := config.filters);
      report := report.(rejects := report.rejects + {NoFace});
      if activeTrackId >= 0 && Elapsed(f.timestampMs, lastSeenMs) <= config.trackLostGraceMs {
        report := report.(phase := TrackLost, trackId := activeTrackId);
      } else {
        ResetTrackState();
        report := report.(phase := Idle);
      }
      report := CompleteUpdate(report);
    }

    // The part of Update that decides what an evaluated face does to the collection.
    method Settle(r: Report, face: Face) returns (report: Report)
      modifies this
      ensures Outcome(Value(), Ok, report) ==
        if r.rejects == {} then
          AcceptFrame(old(Value()), r, Candidate(r.frameId, r.timestampMs, face.trackId, r.currentScore, face, r.metrics))
        else RejectFrame(old(Value()), r)
    {
      hide CandidateRanking.AddCandidate, CollectProgress, GateProgress;
      report := r;
      if report.rejects == {} {
        AddCandidate(Candidate(r.frameId, r.timestampMs, face.trackId, r.currentScore, face, r.metrics));
        if !collecting {
          collecting := true;
          collectionStartMs := report.timestampMs;
        }
        var elapsed := Elapsed(report.timestampMs, collectionStartMs);
        report := report.(phase :=
          if |results| >= config.outputCount && elapsed >= config.collectDurationMs then Ready else Collecting);
        if elapsed >= config.maxCollectDurationMs {
          finished := true;
          report := report.(phase := Finished);
        }
      } else {
        report := report.(phase := Stabilizing);
        if collecting && Elapsed(report.timestampMs, collectionStartMs) >= config.maxCollectDurationMs {
          finished := true;
          report := report.(phase := Finished);
        }
      }
      report := CompleteUpdate(report);
    }

    // The part of Update that evaluates the chosen face, usable or not.
    method UpdateWithFace(f: Frame, face: Face) returns (report: Report)
      requires f.imageWidth > 0 && f.imageHeight > 0 && Acceptable(f) && (NeedsPixels(config) ==> f.image.Some?)
      modifies this
      ensures Outcome(Value(), Ok, report) ==
        if Usable(face.rect) then UsableFrame(old(Value()), f, face) else UnusableFrame(old(Value()), f, face)
    {
      hide Moved, Headroom, CenterOffset, PixelTexture, Score, Completed;
      ghost var before := Value();
      report := EMPTY_REPORT.(frameId := f.frameId, timestampMs := f.timestampMs, evaluated := config.filters);
      report := report.(trackId := face.trackId, trackCount := face.trackCount);
      var v := Verdict(NO_METRICS, CountRejects(config, |f.faces|, face));
      if face.rect.width <= 0 || face.rect.height <= 0 {
        report := report.(rejects := v.rejects + {FaceOutOfBounds});
        report := CompleteUpdate(report);
        return;
      }
      v := CheckSize(config, face.rect, f.imageWidth, v);
      v := CheckPosition(config, face.rect, f.imageWidth, f.imageHeight, v);
      v := CheckBoundary(config, face.rect, f.imageWidth, f.imageHeight, v);
      v := UpdateStability(face, f, v);
      v := CheckPose(config, face, v);
      if Quality in config.filters {
        var score := FaceQualityScore(face.quality);
        v := v.(metrics := v.metrics.(available := v.metrics.available + {Quality}, qualityScore := score));
        if score < config.minQualityScore {
          v := v.(rejects := v.rejects + {BadQuality});
        }
      }
      if NeedsPixels(config) {
        var texture := ComputePixelMetrics(f.image.value, face.rect, Sharpness in config.filters,
                                           Brightness in config.filters);
        v := CheckPixels(config, texture, v);
      }
      assert v == VerdictOf(before, f, face);
      report := report.(metrics := v.metrics, rejects := v.rejects,
                        currentScore := Score(config, v.metrics, face.trackCount));
      report := Settle(report, face);
    }

    method Update(f: Frame) returns (outcome: Status, report: Report)
      requires Acceptable(f)
      modifies this
      ensures Outcome(Value(), outcome, report) == UpdateStep(old(Value()), f)
    {
      hide EmptyFrame, UsableFrame, UnusableFrame, Selected;
      report := EMPTY_REPORT;
      if status != Ok {
        return status, report;
      }
      if finished {
        report := LastUpdate(f.frameId, f.timestampMs);
        return Ok, report;
      }
      if f.imageWidth <= 0 || f.imageHeight <= 0
        || (hasInput && (f.frameId <= lastFrameId || f.timestampMs <= lastTimestampMs)) {
        return (if f.imageWidth <= 0 || f.imageHeight <= 0 then InvalidParam else FrameOutOfOrder), report;
      }
      if (Sharpness in config.filters || Brightness in config.filters) && f.image.None? {
        return InvalidParam, report;
      }
      hasInput := true;
      lastFrameId := f.frameId;
      lastTimestampMs := f.timestampMs;
      if f.faces == [] {
        report := UpdateWithoutFace(f);
        return Ok, report;
      }
      var face := SelectFace(f.faces);
      report := UpdateWithFace(f, face);
      return Ok, report;
    }

    method LastUpdate(frameId: u64, timestampMs: u64) returns (report: Report)
      ensures report == LatchedReport(Value(), frameId, timestampMs)
    {
      report := lastReport;
      report := report.(frameId := frameId, timestampMs := timestampMs, phase := Finished, progress := 1.0);
      report := report.(candidateCount := |results|);
    }

    method Finish() returns (outcome: Status, report: Report)
      modifies this
      ensures Outcome(Value(), outcome, report) == FinishStep(old(Value()))
    {
      report := EMPTY_REPORT;
      if status != Ok {
        return status, report;
      }
      finished := true;
      report := LastUpdate(lastFrameId, lastTimestampMs);
      return Ok, report;
    }

    method GetResults() returns (list: seq<Candidate>)
      ensures list == Value().results
    {
      list := results;
    }
  }
}
