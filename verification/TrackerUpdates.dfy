// What one update does to the individual faces: which of two overlapping tracked faces must go,
// why a tracked face can go at all, which detected faces are tracked, and when the next detection
// by interval comes.
module TrackerUpdates {
  import opened Basics
  import opened Nms
  import opened FaceTracker
  import opened TrackerRuns

  // ----- The size test -----

  // The shortest side, in the coordinates of the original image and rounded down, exceeds the
  // value exactly when both sides are at least value + 1 of its pixels.
  lemma ShortestSideAboveExactly(rect: Rect, value: int, scale: real)
    requires value >= 0
    ensures ShortestSideAbove(rect, value, scale) <==>
      scale > 0.0 && rect.width as real >= (value + 1) as real * scale && rect.height as real >= (value + 1) as real * scale
  {
    if scale > 0.0 && rect.width > 0 && rect.height > 0 {
      DivLess(rect.width as real, scale, (value + 1) as real);
      DivLess(rect.height as real, scale, (value + 1) as real);
    } else if scale > 0.0 {
      PositiveProduct((value + 1) as real, scale);
    }
  }

  // ----- Faces of one pass -----

  // A face TrackFace keeps stays tracked, even in a pass that fails elsewhere.
  lemma {:induction false} KeptStaysTracked(faces: seq<Face>, calls: nat, track: (nat, Face) -> Tracking, i: nat)
    requires i < |faces| && track(calls + i, faces[i]).Keep?
    ensures faces[i].id in IdsOf(TrackPass(faces, calls, track).tracking)
    decreases |faces|
  {
    var p, rest := TrackPass(faces, calls, track).tracking, faces[1..];
    if i == 0 {
      assert p[0].id == faces[0].id && p[0] in p;
    } else if track(calls, faces[0]).Fail? {
      assert rest[i - 1] == faces[i] && faces[i] in p;
    } else {
      KeptStaysTracked(rest, calls + 1, track, i - 1);
      var q := TrackPass(rest, calls + 1, track).tracking;
      assert p == q || p[1..] == q;
      assert forall f :: f in q ==> f in p;
    }
  }

  // Whatever the call, TrackFace keeps the face.
  ghost predicate AlwaysKept(f: Face, track: (nat, Face) -> Tracking) {
    forall k :: track(k, f).Keep?
  }

  lemma KeptIsTracked(faces: seq<Face>, calls: nat, track: (nat, Face) -> Tracking, f: Face)
    requires f in faces && AlwaysKept(f, track)
    ensures f.id in IdsOf(TrackPass(faces, calls, track).tracking)
  {
    var i :| 0 <= i < |faces| && faces[i] == f;
    assert track(calls + i, f).Keep?;
    KeptStaysTracked(faces, calls, track, i);
  }

  // ----- An update that detects -----

  function Suppressed(s: State, f: Frame): seq<Face> {
    Greedy(f.sort(s.tracking), OverlapAt(NMS_THRESHOLD))
  }

  // The candidates of a detection.
  function Detected(s: State, d: Detection, scale: real): seq<Face> {
    if d.Found? then TakeAll(s.settings, scale, Pool([], s.trackingIdx), d.boxes).candidates else []
  }

  lemma DetectAndTrackPass(s: State, d: Detection, calls: nat, index: int, f: Frame)
    requires s.candidates == []
    ensures var t := DetectAndTrack(s, d, calls, index, f).state;
            t.tracking == if d.NotDetected? then s.tracking
                          else TrackPass(s.tracking + Detected(s, d, f.scale), calls, f.track).tracking
    ensures d.NotDetected? <==> DetectStep(s, d, f.scale).status.Failure?
  {
    hide TakeAll, TrackPass;
  }

  // When detection is due, the tracked faces are suppressed before anything else happens to them.
  lemma DueUpdateTracks(s: State, f: Frame)
    requires s.settings.mode.LightTrack? && s.candidates == [] && Due(Begun(s))
    ensures var kept := Suppressed(s, f);
            UpdateStep(s, f).state.tracking ==
              if f.regular.NotDetected? then kept else TrackPass(kept + Detected(s, f.regular, f.scale), 0, f.track).tracking
  {
    var s1 := Begun(s);
    hide Greedy, TakeAll, TrackPass, DetectAndTrack, Due;
    DetectAndTrackPass(s1.(tracking := Suppressed(s, f)), f.regular, 0, s1.detectionIndex, f);
  }

  lemma DetectedIdsAreNew(s: State, d: Detection, scale: real)
    requires s.settings.mode.LightTrack?
    ensures forall g :: g in Detected(s, d, scale) ==> g.id > s.trackingIdx
  {
    if d.Found? {
      TakenIdsAreFresh(s.settings, scale, s.trackingIdx, d.boxes);
      hide TakeAll;
    }
  }

  // A face still tracked after a due update survived suppression.
  lemma SurvivorWasKept(s: State, f: Frame, i: nat)
    requires Inv(s) && s.settings.mode.LightTrack? && IsSorting(f.sort) && Due(Begun(s)) && i < |s.tracking|
    requires s.tracking[i].id in IdsOf(UpdateStep(s, f).state.tracking)
    ensures s.tracking[i] in Suppressed(s, f)
  {
    var kept, new_, id := Suppressed(s, f), Detected(s, f.regular, f.scale), s.tracking[i].id;
    DueUpdateTracks(s, f);
    DetectedIdsAreNew(s, f.regular, f.scale);
    PassKeepsIds(kept + new_, 0, f.track);
    KeptAreInput(f.sort(s.tracking), OverlapAt(NMS_THRESHOLD));
    hide UpdateStep, Greedy, Detected, TrackPass, IsSorting, Due;
    assert id <= s.trackingIdx;
    assert id in IdsOf(kept);
    var g :| g in kept && g.id == id;
    assert g in multiset(kept) && g in multiset(s.tracking);
    var j :| 0 <= j < |s.tracking| && s.tracking[j] == g;
    assert i == j;
  }

  // Two tracked faces that overlap are never both tracked after an update in which detection was
  // due, whatever the detector and TrackFace answer.
  lemma {:induction false} OverlappingAreNotBothTracked(s: State, f: Frame, i: nat, j: nat)
    requires Inv(s) && s.settings.mode.LightTrack? && IsSorting(f.sort) && Due(Begun(s))
    requires i < |s.tracking| && j < |s.tracking| && i != j && Overlaps(s.tracking[i], s.tracking[j], NMS_THRESHOLD)
    ensures var ids := IdsOf(UpdateStep(s, f).state.tracking);
            !(s.tracking[i].id in ids && s.tracking[j].id in ids)
  {
    var ids := IdsOf(UpdateStep(s, f).state.tracking);
    if s.tracking[i].id in ids && s.tracking[j].id in ids {
      SurvivorWasKept(s, f, i);
      SurvivorWasKept(s, f, j);
      assert s.tracking[i] != s.tracking[j];
      hide UpdateStep, Due, Inv, Greedy, Overlaps, IsSorting;
      SuppressedAreApart(s, f, s.tracking[i], s.tracking[j]);
      assert false;
    }
  }

  lemma SuppressedAreApart(s: State, f: Frame, a: Face, b: Face)
    requires a in Suppressed(s, f) && b in Suppressed(s, f) && a != b
    ensures !Overlaps(a, b, NMS_THRESHOLD)
  {
    OverlapAtIsSymmetric(NMS_THRESHOLD);
    KeptAreSeparated(f.sort(s.tracking), OverlapAt(NMS_THRESHOLD));
    hide Greedy, Overlaps;
    var kept := Suppressed(s, f);
    var i :| 0 <= i < |kept| && kept[i] == a;
    var j :| 0 <= j < |kept| && kept[j] == b;
    assert !OverlapAt(NMS_THRESHOLD)(kept[i], kept[j]);
  }

  // ----- Why a face can go -----

  // Another tracked face overlaps it and is at least as confident.
  ghost predicate Outdone(s: State, i: nat)
    requires i < |s.tracking|
  {
    exists j :: 0 <= j < |s.tracking| && j != i && Overlaps(s.tracking[j], s.tracking[i], NMS_THRESHOLD)
                && s.tracking[j].confidence >= s.tracking[i].confidence
  }

  lemma DroppedIsOutdone(s: State, f: Frame, i: nat)
    requires IsSorting(f.sort) && i < |s.tracking| && s.tracking[i] !in Suppressed(s, f)
    ensures Outdone(s, i)
  {
    var kept, over := Suppressed(s, f), OverlapAt(NMS_THRESHOLD);
    var g := s.tracking[i];
    OverlapAtIsSymmetric(NMS_THRESHOLD);
    SuppressionIsSound(s.tracking, f.sort, over);
    assert Represented(g, kept, over);
    hide Greedy, IsSorting, Overlaps;
    var k :| 0 <= k < |kept| && over(kept[k], g) && kept[k].confidence >= g.confidence;
    assert kept[k] in multiset(kept) && kept[k] in multiset(s.tracking);
    var j :| 0 <= j < |s.tracking| && s.tracking[j] == kept[k];
    assert j != i;
  }

  // A tracked face goes only if a face at least as confident overlaps it when detection is due,
  // or TrackFace does not keep it.
  lemma {:induction false} FaceGoesOnlyWithCause(s: State, f: Frame, i: nat)
    requires Inv(s) && s.settings.mode.LightTrack? && IsSorting(f.sort) && i < |s.tracking|
    requires s.tracking[i].id !in IdsOf(UpdateStep(s, f).state.tracking)
    ensures (Due(Begun(s)) && Outdone(s, i)) || !AlwaysKept(s.tracking[i], f.track)
  {
    var g := s.tracking[i];
    if Due(Begun(s)) {
      var kept, new_ := Suppressed(s, f), Detected(s, f.regular, f.scale);
      DueUpdateTracks(s, f);
      hide UpdateStep, Inv, Due, Outdone, Suppressed, Detected, TrackPass, AlwaysKept;
      if g !in kept {
        DroppedIsOutdone(s, f, i);
      } else if AlwaysKept(g, f.track) && f.regular.Found? {
        assert g in kept + new_;
        KeptIsTracked(kept + new_, 0, f.track, g);
      }
    } else {
      LostInQuietUpdate(s, f, i);
    }
  }

  lemma LostInQuietUpdate(s: State, f: Frame, i: nat)
    requires s.settings.mode.LightTrack? && s.candidates == [] && !Due(Begun(s)) && i < |s.tracking|
    requires s.tracking[i].id !in IdsOf(UpdateStep(s, f).state.tracking)
    ensures !f.track(i, s.tracking[i]).Keep?
  {
    var pass := TrackPass(s.tracking, 0, f.track);
    assert s.tracking + [] == s.tracking;
    hide TrackPass, DetectAndTrack, Due;
    assert pass.tracking == [] || pass.tracking == UpdateStep(s, f).state.tracking;
    if f.track(i, s.tracking[i]).Keep? {
      assert f.track(0 + i, s.tracking[i]).Keep?;
      KeptStaysTracked(s.tracking, 0, f.track, i);
    }
  }

  // ----- Which detected faces are tracked -----

  // The k-th large enough box of a detection, as the face it becomes.
  function FaceOfBox(s: State, boxes: seq<Box>, scale: real, k: nat): Face
    requires k < |LargeEnough(s.settings, scale, boxes)|
  {
    var box := LargeEnough(s.settings, scale, boxes)[k];
    Face(if s.settings.mode.LightTrack? then s.trackingIdx + 1 + k else -1, box.rect, box.score)
  }

  lemma DetectedBox(s: State, d: Detection, scale: real, k: nat)
    requires d.Found? && k < |LargeEnough(s.settings, scale, d.boxes)| && k < s.settings.maxFaces
    ensures FaceOfBox(s, d.boxes, scale, k) in Detected(s, d, scale)
  {
    FirstLargeBoxesAreTaken(s.settings, scale, s.trackingIdx, d.boxes);
    hide TakeAll, LargeEnough;
    assert Detected(s, d, scale)[k] == FaceOfBox(s, d.boxes, scale, k);
  }

  // Each of the first maxFaces large enough boxes of a due detection is tracked under its own new
  // id, unless TrackFace does not keep it.
  lemma {:induction false} DetectedFaceIsTracked(s: State, f: Frame, k: nat)
    requires Inv(s) && s.settings.mode.LightTrack? && Due(Begun(s)) && f.regular.Found?
    requires k < |LargeEnough(s.settings, f.scale, f.regular.boxes)| && k < s.settings.maxFaces
    requires AlwaysKept(FaceOfBox(s, f.regular.boxes, f.scale, k), f.track)
    ensures s.trackingIdx + 1 + k in IdsOf(UpdateStep(s, f).state.tracking)
  {
    var g := FaceOfBox(s, f.regular.boxes, f.scale, k);
    assert g.id == s.trackingIdx + 1 + k;
    DueUpdateTracks(s, f);
    DetectedBox(s, f.regular, f.scale, k);
    hide UpdateStep, Due, Suppressed, Detected, TrackPass, AlwaysKept, FaceOfBox, LargeEnough;
    KeptIsTracked(Suppressed(s, f) + Detected(s, f.regular, f.scale), 0, f.track, g);
  }

  // The same when recovery detects, after TrackFace lost every face of the frame.
  lemma {:induction false} RecoveredFaceIsTracked(s: State, f: Frame, k: nat)
    requires Inv(s) && s.settings.mode.LightTrack? && !Due(Begun(s)) && UpdateStep(s, f).detections == 1 && f.recovery.Found?
    requires k < |LargeEnough(s.settings, f.scale, f.recovery.boxes)| && k < s.settings.maxFaces
    requires AlwaysKept(FaceOfBox(s, f.recovery.boxes, f.scale, k), f.track)
    ensures s.trackingIdx + 1 + k in IdsOf(UpdateStep(s, f).state.tracking)
  {
    var g := FaceOfBox(s, f.recovery.boxes, f.scale, k);
    assert g.id == s.trackingIdx + 1 + k;
    var s3, calls := RecoveryTracks(s, f);
    assert FaceOfBox(s3, f.recovery.boxes, f.scale, k) == g;
    DetectedBox(s3, f.recovery, f.scale, k);
    hide UpdateStep, Due, Detected, TrackPass, AlwaysKept, FaceOfBox, LargeEnough;
    KeptIsTracked(s3.tracking + Detected(s3, f.recovery, f.scale), calls, f.track, g);
  }

  lemma RecoveryTracks(s: State, f: Frame) returns (s3: State, calls: nat)
    requires s.candidates == [] && !Due(Begun(s)) && UpdateStep(s, f).detections == 1 && f.recovery.Found?
    ensures s3 == Begun(s).(tracking := []) && s3.settings == s.settings && s3.trackingIdx == s.trackingIdx
    ensures var t := UpdateStep(s, f).state;
            && t.tracking == TrackPass(s3.tracking + Detected(s3, f.recovery, f.scale), calls, f.track).tracking
            && t.detectionIndex == 0
  {
    assert s.tracking + [] == s.tracking;
    var pass := TrackPass(s.tracking, 0, f.track);
    s3, calls := Begun(s).(tracking := []), pass.calls;
    DetectAndTrackPass(s3, f.recovery, calls, 0, f);
    RecoveryIndex(s3, f.recovery, calls, f);
    hide TrackPass, DetectAndTrack, Due, TakeAll;
  }

  lemma RecoveryIndex(s: State, d: Detection, calls: nat, f: Frame)
    requires d.Found?
    ensures DetectAndTrack(s, d, calls, 0, f).state.detectionIndex == 0
  {
    hide TakeAll, TrackPass;
  }

  // ----- When a detector fails -----

  // A failing detector fails the update with its code. The tracked faces are the suppressed ones,
  // or, in recovery, none.
  lemma FailedDetectionIsReported(s: State, f: Frame)
    requires s.settings.mode.LightTrack? && s.candidates == [] && UpdateStep(s, f).detections == 1
    ensures Due(Begun(s)) && f.regular.NotDetected? ==>
      UpdateStep(s, f).status == Failure(f.regular.code) && UpdateStep(s, f).state.tracking == Suppressed(s, f)
    ensures !Due(Begun(s)) && f.recovery.NotDetected? ==>
      UpdateStep(s, f).status == Failure(f.recovery.code) && UpdateStep(s, f).state.tracking == []
  {
    assert s.tracking + [] == s.tracking;
    hide TakeAll, TrackPass, Greedy, Due;
  }

  // ----- When the next detection comes -----

  // Counting from a successful recovery, as from the very first detection, the next detection by
  // interval is exactly `interval` updates away: the index starts again at zero.
  lemma RecoveryRestartsTheInterval(s: State, f: Frame)
    requires s.candidates == [] && !Due(Begun(s)) && UpdateStep(s, f).detections == 1 && f.recovery.Found?
    requires s.settings.interval > 0
    ensures var t := UpdateStep(s, f).state;
            forall i :: t.detectionIndex < i <= t.detectionIndex + s.settings.interval ==>
              (IsMultiple(i, s.settings.interval) <==> i == t.detectionIndex + s.settings.interval)
  {
    var _, _ := RecoveryTracks(s, f);
    hide UpdateStep, Due;
    forall k | 0 < k <= s.settings.interval ensures IsMultiple(k, s.settings.interval) <==> k == s.settings.interval {
      FirstMultiple(k, s.settings.interval);
    }
  }

  lemma FirstMultiple(k: int, n: int)
    requires 0 < k <= n
    ensures IsMultiple(k, n) <==> k == n
  {
    ModOfMultiple(n, 1);
    assert k < n ==> k / n == 0;
  }

  // ----- The order of the tracked list -----

  // Tracking keeps the order of the faces, and in light-track mode new ones stand behind the old.
  lemma {:induction false} PassOfBoth(a: seq<Face>, b: seq<Face>, calls: nat, track: (nat, Face) -> Tracking)
    requires TrackPass(a + b, calls, track).status.Success?
    ensures var p := TrackPass(a, calls, track);
            p.status.Success? && TrackPass(a + b, calls, track).tracking == p.tracking + TrackPass(b, p.calls, track).tracking
    decreases |a|
  {
    if a == [] {
      assert a + b == b;
    } else {
      assert (a + b)[1..] == a[1..] + b && (a + b)[0] == a[0];
      PassOfBoth(a[1..], b, calls + 1, track);
    }
  }

  lemma {:induction false} NewFacesStandLast(s: State, f: Frame) returns (n: nat)
    requires Inv(s) && s.settings.mode.LightTrack? && Due(Begun(s)) && UpdateStep(s, f).status.Success? && IsSorting(f.sort)
    ensures var t := UpdateStep(s, f).state.tracking;
            && n <= |t|
            && (forall i :: 0 <= i < n ==> t[i].id <= s.trackingIdx)
            && (forall i :: n <= i < |t| ==> t[i].id > s.trackingIdx)
  {
    var kept, new_ := Suppressed(s, f), Detected(s, f.regular, f.scale);
    DueUpdateTracks(s, f);
    SuccessOfDue(s, f);
    DetectedIdsAreNew(s, f.regular, f.scale);
    PassOfBoth(kept, new_, 0, f.track);
    var p := TrackPass(kept, 0, f.track);
    var q := TrackPass(new_, p.calls, f.track);
    PassKeepsIds(kept, 0, f.track);
    PassKeepsIds(new_, p.calls, f.track);
    KeptIdsAreOld(s, f);
    hide UpdateStep, Suppressed, Detected, TrackPass, IsSorting, Due, Inv, DistinctIds, IdsOf;
    OldThenNew(p.tracking, q.tracking, kept, new_, s.trackingIdx);
    n := |p.tracking|;
  }

  lemma KeptIdsAreOld(s: State, f: Frame)
    requires Inv(s) && s.settings.mode.LightTrack? && IsSorting(f.sort)
    ensures forall g :: g in Suppressed(s, f) ==> g.id <= s.trackingIdx
  {
    KeptAreInput(f.sort(s.tracking), OverlapAt(NMS_THRESHOLD));
    hide Greedy;
    forall g | g in Suppressed(s, f) ensures g.id <= s.trackingIdx {
      assert g in multiset(s.tracking) && g in s.tracking;
    }
  }

  lemma OldThenNew(p: seq<Face>, q: seq<Face>, earlier: seq<Face>, later: seq<Face>, idx: int)
    requires IdsOf(p) <= IdsOf(earlier) && IdsOf(q) <= IdsOf(later)
    requires (forall g :: g in earlier ==> g.id <= idx) && (forall g :: g in later ==> g.id > idx)
    ensures var t := p + q;
            && (forall i :: 0 <= i < |p| ==> t[i].id <= idx)
            && (forall i :: |p| <= i < |t| ==> t[i].id > idx)
  {
    forall i | 0 <= i < |p| ensures p[i].id <= idx {
      assert p[i].id in IdsOf(p) && p[i].id in IdsOf(earlier);
    }
    forall i | 0 <= i < |q| ensures q[i].id > idx {
      assert q[i].id in IdsOf(q) && q[i].id in IdsOf(later);
    }
  }

  lemma SuccessOfDue(s: State, f: Frame)
    requires s.settings.mode.LightTrack? && s.candidates == [] && Due(Begun(s)) && UpdateStep(s, f).status.Success?
    ensures f.regular.Found?
    ensures TrackPass(Suppressed(s, f) + Detected(s, f.regular, f.scale), 0, f.track).status.Success?
  {
    hide Greedy, TakeAll, TrackPass, Due;
  }

  // ----- The settings -----

  predicate SetsInterval(op: Op) {
    op.SetInterval? && op.value >= 1
  }

  predicate SetsRecovery(op: Op) {
    op.SetRecovery?
  }

  predicate SetsSize(op: Op) {
    op.SetMinimumFacePx? && 0.0 <= op.size <= 2147483647.0
  }

  // The n-th operation is the last of its kind.
  ghost predicate LastOf(ops: seq<Op>, n: nat, kind: Op -> bool) {
    n < |ops| && kind(ops[n]) && forall k :: n < k < |ops| ==> !kind(ops[k])
  }

  ghost predicate NoneOf(ops: seq<Op>, kind: Op -> bool) {
    forall k :: 0 <= k < |ops| ==> !kind(ops[k])
  }

  lemma OneMoreOf(ops: seq<Op>, op: Op, n: nat, kind: Op -> bool)
    ensures LastOf(ops + [op], n, kind) <==> if kind(op) then n == |ops| else LastOf(ops, n, kind)
    ensures NoneOf(ops + [op], kind) <==> !kind(op) && NoneOf(ops, kind)
  {
    var more := ops + [op];
    assert more[|ops|] == op;
    assert forall k :: 0 <= k < |ops| ==> more[k] == ops[k];
  }

  // What one operation does to the settings.
  lemma OperateSettings(s: State, op: Op)
    ensures var a, b := s.settings, Operate(s, op).state.settings;
            && b.mode == a.mode && b.maxFaces == a.maxFaces
            && (if SetsInterval(op) then b.interval == op.value else b.interval == a.interval)
            && (if op.SetRecovery? then b.recovery == op.on else b.recovery == a.recovery)
            && (if SetsSize(op) then b.minFacePx as real <= op.size < b.minFacePx as real + 1.0
                else b.minFacePx == a.minFacePx)
  {
    hide Greedy, TakeAll, TrackPass, Due;
  }

  // After any run the interval, the recovery switch and the minimum size are those of the last
  // call that set them, invalid values being ignored; the mode and the face limit never change.
  lemma {:induction false} SettingsAreTheLastGiven(s: State, ops: seq<Op>, n: nat)
    ensures var a, b := s.settings, Run(s, ops).settings;
            && b.mode == a.mode && b.maxFaces == a.maxFaces
            && (LastOf(ops, n, SetsInterval) ==> SetsInterval(ops[n]) && b.interval == ops[n].value)
            && (NoneOf(ops, SetsInterval) ==> b.interval == a.interval)
            && (LastOf(ops, n, SetsRecovery) ==> SetsRecovery(ops[n]) && b.recovery == ops[n].on)
            && (NoneOf(ops, SetsRecovery) ==> b.recovery == a.recovery)
            && (LastOf(ops, n, SetsSize) ==>
                  SetsSize(ops[n]) && b.minFacePx as real <= ops[n].size < b.minFacePx as real + 1.0)
            && (NoneOf(ops, SetsSize) ==> b.minFacePx == a.minFacePx)
  {
    if ops != [] {
      var front, op := ops[..|ops| - 1], ops[|ops| - 1];
      assert ops == front + [op];
      SettingsAreTheLastGiven(s, front, n);
      OperateSettings(Run(s, front), op);
      OneMoreOf(front, op, n, SetsInterval);
      OneMoreOf(front, op, n, SetsRecovery);
      OneMoreOf(front, op, n, SetsSize);
      hide Operate, LastOf, NoneOf;
    }
  }

  // ----- Clearing -----

  // After the list is cleared nothing is tracked, whatever the interval the next update detects,
  // and every face tracked from then on has an id that was never given out before.
  lemma {:induction false} ClearedForgets(s: State, before: seq<Op>, after: seq<Op>, f: Face)
    requires Inv(s) && s.settings.mode.LightTrack? && Sorted(before) && Sorted(after)
    ensures var t := Operate(Run(s, before), Clear).state;
            && t.tracking == [] && Due(Begun(t))
            && (f in Run(t, after).tracking ==> f.id > Run(s, before).trackingIdx)
  {
    var u := Run(s, before);
    var t := Operate(u, Clear).state;
    EveryRunKeepsInv(s, before);
    OperateKeepsInv(u, Clear);
    if f in Run(t, after).tracking {
      IdsAreNeverReused(t, after, f);
    }
  }
}
