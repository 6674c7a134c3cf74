// The maximum number of faces against the size of the tracked list: the limit is one on what a
// detection adds. When does it limit the list as well?
module TrackedListLimit {
  import opened Basics
  import opened Nms
  import opened FaceTracker
  import opened TrackerRuns

  // The next update detects because of the interval.
  predicate DetectsByInterval(s: State) {
    s.settings.interval > 0 && (s.detectionIndex + 1) % s.settings.interval == 0
  }

  // ----- Updates that keep the limit -----

  lemma LimitIsKept(s: State, f: Frame)
    requires Inv(s) && s.settings.mode.LightTrack? && |s.tracking| <= s.settings.maxFaces && IsSorting(f.sort)
    requires s.tracking == [] || !DetectsByInterval(s)
    ensures |UpdateStep(s, f).state.tracking| <= s.settings.maxFaces
  {
    if s.tracking == [] {
      UpdateKeepsIds(s, f);
      hide UpdateStep;
    } else {
      PassKeepsIds(s.tracking, 0, f.track);
      assert s.tracking + [] == s.tracking;
      var pass := TrackPass(s.tracking, 0, f.track);
      var s3 := Begun(s).(tracking := pass.tracking);
      ThinnedKeepsIds(s, s3);
      DetectAndTrackKeepsIds(s3, f.recovery, pass.calls, 0, f);
      hide DetectAndTrack, TrackPass;
    }
  }

  // ----- An update that exceeds it -----

  // n boxes just large enough to be tracked.
  function Crowd(n: nat, minFacePx: int): seq<Box> {
    var side := MaxInt(0, minFacePx) + 1;
    seq(n, _ => Box(Rect(0, 0, side, side), 1.0))
  }

  // A frame on which the detector reports n such boxes and TrackFace keeps everything.
  function Sighting(n: nat, minFacePx: int, sort: seq<Face> -> seq<Face>): Frame {
    Frame(Found(Crowd(n, minFacePx)), NotDetected(1), 1.0, sort, (k: nat, f: Face) => Keep(f.box, f.confidence))
  }

  lemma {:induction false} CrowdIsLarge(settings: Settings, n: nat)
    ensures LargeEnough(settings, 1.0, Crowd(n, settings.minFacePx)) == Crowd(n, settings.minFacePx)
  {
    var boxes := Crowd(n, settings.minFacePx);
    if n > 0 {
      CrowdIsLarge(settings, n - 1);
      assert boxes[..n - 1] == Crowd(n - 1, settings.minFacePx);
      var side := MaxInt(0, settings.minFacePx) + 1;
      assert side as real / 1.0 == side as real;
      assert ShortestSideAbove(boxes[n - 1].rect, settings.minFacePx, 1.0);
    }
  }

  // Detecting in such a frame adds as many faces as the limit allows.
  lemma CrowdIsAdded(s: State, index: int, n: nat, sort: seq<Face> -> seq<Face>)
    requires s.settings.mode.LightTrack? && s.candidates == []
    ensures var f := Sighting(n, s.settings.minFacePx, sort);
            var t := DetectAndTrack(s, f.regular, 0, index, f).state;
            && t == s.(tracking := t.tracking, trackingIdx := t.trackingIdx, detectionIndex := index)
            && |t.tracking| == |s.tracking| + MinInt(n, s.settings.maxFaces)
  {
    var f := Sighting(n, s.settings.minFacePx, sort);
    CrowdIsLarge(s.settings, n);
    FirstLargeBoxesAreTaken(s.settings, 1.0, s.trackingIdx, f.regular.boxes);
    var pool := TakeAll(s.settings, 1.0, Pool([], s.trackingIdx), f.regular.boxes);
    NothingIsLost(s.tracking + pool.candidates, 0, f.track);
    hide TakeAll, TrackPass, LargeEnough;
  }

  lemma SortedKeepsLength(sort: seq<Face> -> seq<Face>, s: seq<Face>)
    requires IsSorting(sort)
    ensures |sort(s)| == |s|
  {
    assert multiset(sort(s)) == multiset(s);
    assert |multiset(sort(s))| == |sort(s)|;
  }

  lemma LimitIsExceeded(s: State, sort: seq<Face> -> seq<Face>)
    requires Inv(s) && s.settings.mode.LightTrack? && IsSorting(sort)
    requires s.tracking != [] && DetectsByInterval(s)
    ensures |UpdateStep(s, Sighting(s.settings.maxFaces, s.settings.minFacePx, sort)).state.tracking| > s.settings.maxFaces
  {
    var s1 := Begun(s);
    SortedKeepsLength(sort, s.tracking);
    var kept := Greedy(sort(s.tracking), OverlapAt(NMS_THRESHOLD));
    assert |kept| > 0;
    hide Greedy, IsSorting, Sighting, DetectAndTrack;
    CrowdIsAdded(s1.(tracking := kept), s1.detectionIndex, s.settings.maxFaces, sort);
    assert Due(s1);
  }

  // From a list within the limit the next update keeps it there, whatever the frame shows, if and
  // only if nothing is tracked or the update does not detect because of the interval.
  lemma LimitHoldsExactly(s: State, sort: seq<Face> -> seq<Face>)
    requires Inv(s) && s.settings.mode.LightTrack? && |s.tracking| <= s.settings.maxFaces && IsSorting(sort)
    ensures (forall f: Frame :: f.sort == sort ==> |UpdateStep(s, f).state.tracking| <= s.settings.maxFaces)
       <==> s.tracking == [] || !DetectsByInterval(s)
  {
    hide UpdateStep, Inv;
    if s.tracking == [] || !DetectsByInterval(s) {
      forall f: Frame | f.sort == sort ensures |UpdateStep(s, f).state.tracking| <= s.settings.maxFaces {
        LimitIsKept(s, f);
      }
    } else {
      LimitIsExceeded(s, sort);
      assert Sighting(s.settings.maxFaces, s.settings.minFacePx, sort).sort == sort;
    }
  }

  // ----- Whole runs -----

  // Nothing that can be changed while the tracker runs, other than the interval, matters.
  lemma {:induction false} LimitedRun(settings: Settings, ops: seq<Op>)
    requires settings.mode.LightTrack? && Sorted(ops) && FixedInterval(ops)
    requires settings.maxFaces == 0 || settings.interval <= 0
    ensures var t := Run(Initial(settings), ops);
            Inv(t) && SameKind(Initial(settings), t) && t.settings.interval == settings.interval
            && |t.tracking| <= settings.maxFaces
  {
    if ops != [] {
      var front, op := ops[..|ops| - 1], ops[|ops| - 1];
      assert op in ops;
      LimitedRun(settings, front);
      var u := Run(Initial(settings), front);
      OperateKeepsInv(u, op);
      if op.Update? {
        LimitIsKept(u, op.frame);
        UpdateKeepsIndex(u, op.frame);
        hide UpdateStep;
      }
      hide Inv, Fresh;
    }
  }

  function Repeated(f: Frame, n: nat): seq<Op> {
    seq(n, _ => Update(f))
  }

  lemma RepeatedOnce(s: State, f: Frame, n: nat)
    requires n > 0
    ensures Run(s, Repeated(f, n)) == UpdateStep(Run(s, Repeated(f, n - 1)), f).state
  {
    hide UpdateStep;
    assert Repeated(f, n)[..n - 1] == Repeated(f, n - 1);
  }

  lemma RepeatedNever(s: State, f: Frame)
    ensures Run(s, Repeated(f, 0)) == s
  {
  }

  lemma QuietUpdate(s: State, n: nat, sort: seq<Face> -> seq<Face>)
    requires s.settings.mode.LightTrack? && s.candidates == [] && s.tracking != [] && !DetectsByInterval(s)
    ensures UpdateStep(s, Sighting(n, s.settings.minFacePx, sort)).state == s.(detectionIndex := s.detectionIndex + 1)
  {
    var f := Sighting(n, s.settings.minFacePx, sort);
    NothingIsLost(s.tracking, 0, f.track);
    assert s.tracking + [] == s.tracking;
    hide TrackPass;
  }

  lemma FirstDetectionByInterval(s: State)
    requires s.settings.interval > 0 && 0 <= s.detectionIndex < s.settings.interval
    ensures DetectsByInterval(s) <==> s.detectionIndex + 1 == s.settings.interval
  {
    var n := s.settings.interval;
    ModOfMultiple(n, 1);
    assert s.detectionIndex + 1 < n ==> (s.detectionIndex + 1) / n == 0;
  }

  // The list holds maxFaces faces and the tracker has reached this detection index.
  ghost predicate FilledAt(s: State, settings: Settings, index: int) {
    && s.settings == settings && s.candidates == [] && s.detectionIndex == index
    && |s.tracking| == settings.maxFaces
  }

  lemma FirstUpdate(settings: Settings, sort: seq<Face> -> seq<Face>)
    requires settings.mode.LightTrack? && IsSorting(sort)
    ensures FilledAt(UpdateStep(Initial(settings), Sighting(settings.maxFaces, settings.minFacePx, sort)).state, settings, 0)
  {
    var s1 := Begun(Initial(settings));
    SortedKeepsLength(sort, []);
    assert Greedy(sort([]), OverlapAt(NMS_THRESHOLD)) == [];
    hide Greedy, IsSorting, Sighting, DetectAndTrack;
    CrowdIsAdded(s1, 0, settings.maxFaces, sort);
  }

  lemma StaysFilled(s: State, settings: Settings, index: nat, sort: seq<Face> -> seq<Face>)
    requires settings.mode.LightTrack? && settings.maxFaces > 0 && index + 1 < settings.interval
    requires FilledAt(s, settings, index)
    ensures FilledAt(UpdateStep(s, Sighting(settings.maxFaces, settings.minFacePx, sort)).state, settings, index + 1)
  {
    hide UpdateStep, Sighting, DetectsByInterval;
    FirstDetectionByInterval(s);
    QuietUpdate(s, settings.maxFaces, sort);
  }

  // Repeating the frame fills the list with the first update and leaves it until the next
  // detection by interval.
  lemma {:induction false} FullRun(settings: Settings, sort: seq<Face> -> seq<Face>, n: nat)
    requires settings.mode.LightTrack? && settings.maxFaces > 0 && settings.interval > 0 && IsSorting(sort)
    requires 1 <= n <= settings.interval
    ensures FilledAt(Run(Initial(settings), Repeated(Sighting(settings.maxFaces, settings.minFacePx, sort), n)),
                     settings, n - 1)
  {
    var s, f := Initial(settings), Sighting(settings.maxFaces, settings.minFacePx, sort);
    hide FilledAt, UpdateStep, Sighting, IsSorting, Repeated, Run, Initial;
    RepeatedOnce(s, f, n);
    if n == 1 {
      FirstUpdate(settings, sort);
      RepeatedNever(s, f);
    } else {
      FullRun(settings, sort, n - 1);
      StaysFilled(Run(s, Repeated(f, n - 1)), settings, n - 2, sort);
    }
  }

  lemma RepeatedIsSorted(f: Frame, n: nat)
    requires IsSorting(f.sort)
    ensures Sorted(Repeated(f, n)) && FixedInterval(Repeated(f, n))
  {
  }

  lemma FreshTrackerIsSound(settings: Settings)
    ensures Inv(Initial(settings))
  {
  }

  // The list outgrows the limit at the first detection by interval after it was filled.
  lemma FilledListOutgrows(settings: Settings, sort: seq<Face> -> seq<Face>)
    requires settings.mode.LightTrack? && settings.maxFaces > 0 && settings.interval > 0 && IsSorting(sort)
    ensures var ops := Repeated(Sighting(settings.maxFaces, settings.minFacePx, sort), settings.interval + 1);
            Sorted(ops) && FixedInterval(ops) && |Run(Initial(settings), ops).tracking| > settings.maxFaces
  {
    var s, f, n := Initial(settings), Sighting(settings.maxFaces, settings.minFacePx, sort), settings.interval;
    RepeatedIsSorted(f, n + 1);
    RepeatedIsSorted(f, n);
    FreshTrackerIsSound(settings);
    hide UpdateStep, Sighting, IsSorting, Inv, Sorted, FixedInterval, Run, Repeated, DetectsByInterval;
    FullRun(settings, sort, n);
    EveryRunKeepsInv(s, Repeated(f, n));
    RepeatedOnce(s, f, n + 1);
    FirstDetectionByInterval(Run(s, Repeated(f, n)));
    LimitIsExceeded(Run(s, Repeated(f, n)), sort);
  }

  // Over whole runs of a light-track tracker with a fixed detection interval: the list never
  // outgrows the limit if and only if the interval is off or the limit is zero.
  lemma LimitHoldsOverRunsExactly(settings: Settings, sort: seq<Face> -> seq<Face>)
    requires settings.mode.LightTrack? && IsSorting(sort)
    ensures (forall ops :: Sorted(ops) && FixedInterval(ops) ==> |Run(Initial(settings), ops).tracking| <= settings.maxFaces)
       <==> settings.maxFaces == 0 || settings.interval <= 0
  {
    hide Run, Sorted, FixedInterval, IsSorting;
    if settings.maxFaces == 0 || settings.interval <= 0 {
      forall ops | Sorted(ops) && FixedInterval(ops) ensures |Run(Initial(settings), ops).tracking| <= settings.maxFaces {
        LimitedRun(settings, ops);
      }
    } else {
      FilledListOutgrows(settings, sort);
    }
  }

  // The smallest run that shows it: a limit of one, an interval of one, two updates, two faces.
  lemma LightTrackCanExceedTheLimit(sort: seq<Face> -> seq<Face>)
    requires IsSorting(sort)
    ensures exists ops :: |ops| == 2 && Sorted(ops) && |Run(Initial(Settings(LightTrack, 1, 1, 0, false)), ops).tracking| == 2
  {
    var settings := Settings(LightTrack, 1, 1, 0, false);
    var s, f := Initial(settings), Sighting(1, 0, sort);
    RepeatedIsSorted(f, 1);
    FreshTrackerIsSound(settings);
    assert |Repeated(f, 2)| == 2;
    hide UpdateStep, Sighting, IsSorting, Sorted, Run, Repeated, Inv, IdsOf;
    FilledListOutgrows(settings, sort);
    FullRun(settings, sort, 1);
    EveryRunKeepsInv(s, Repeated(f, 1));
    OperateKeepsInv(Run(s, Repeated(f, 1)), Update(f));
    RepeatedOnce(s, f, 2);
  }
}
