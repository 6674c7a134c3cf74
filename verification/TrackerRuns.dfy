// Whole runs of the face tracker: identities, list sizes, and how stale the detector can get.
module TrackerRuns {
  import opened Basics
  import opened Nms
  import opened FaceTracker

  function Run(s: State, ops: seq<Op>): State {
    if ops == [] then s else Operate(Run(s, ops[..|ops| - 1]), ops[|ops| - 1]).state
  }

  ghost predicate Sorted(ops: seq<Op>) {
    forall op :: op in ops && op.Update? ==> IsSorting(op.frame.sort)
  }

  // ----- Identities within one list -----

  ghost predicate DistinctIds(s: seq<Face>) {
    forall i, j :: 0 <= i < |s| && 0 <= j < |s| && i != j ==> s[i].id != s[j].id
  }

  ghost function IdsOf(s: seq<Face>): set<int> {
    set f | f in s :: f.id
  }

  ghost predicate IdsWithin(s: seq<Face>, above: int, upTo: int) {
    forall i :: 0 <= i < |s| ==> above < s[i].id <= upTo
  }

  lemma SubsetKeepsIds(t: seq<Face>, s: seq<Face>)
    requires multiset(t) <= multiset(s)
    ensures IdsOf(t) <= IdsOf(s) && (DistinctIds(s) ==> DistinctIds(t))
  {
    forall f | f in t ensures f in s {
      assert f in multiset(t) && f in multiset(s);
    }
    forall i, j | DistinctIds(s) && 0 <= i < |t| && 0 <= j < |t| && i != j ensures t[i].id != t[j].id {
      var a, b := TwoPlaces(t, s, i, j);
    }
  }

  lemma {:induction false} PassKeepsIds(faces: seq<Face>, calls: nat, track: (nat, Face) -> Tracking)
    ensures var p := TrackPass(faces, calls, track).tracking;
            IdsOf(p) <= IdsOf(faces) && |p| <= |faces| && (DistinctIds(faces) ==> DistinctIds(p))
    decreases |faces|
  {
    if faces == [] {
    } else {
      var rest := faces[1..];
      PassKeepsIds(rest, calls + 1, track);
      assert IdsOf(rest) <= IdsOf(faces);
      var p, q := TrackPass(faces, calls, track).tracking, TrackPass(rest, calls + 1, track).tracking;
      assert faces[0].id in IdsOf(faces);
      if DistinctIds(faces) {
        forall i | 0 <= i < |rest| ensures rest[i].id != faces[0].id && rest[i] == faces[i + 1] {
        }
        assert DistinctIds(rest);
        assert faces[0].id !in IdsOf(rest);
        assert forall i :: 0 <= i < |q| ==> q[i].id in IdsOf(q);
      }
    }
  }

  // A pass succeeds exactly when no call of TrackFace fails.
  lemma {:induction false} PassSucceedsExactly(faces: seq<Face>, calls: nat, track: (nat, Face) -> Tracking)
    ensures var p := TrackPass(faces, calls, track);
            && (p.status.Success? <==> forall i :: 0 <= i < |faces| ==> !track(calls + i, faces[i]).Fail?)
            && (p.status.Success? ==> p.calls == calls + |faces|)
    decreases |faces|
  {
    if faces != [] {
      var rest := faces[1..];
      PassSucceedsExactly(rest, calls + 1, track);
      assert forall i :: 1 <= i < |faces| ==> track(calls + i, faces[i]) == track(calls + 1 + (i - 1), rest[i - 1]);
      assert forall i :: 0 <= i < |rest| ==> track(calls + 1 + i, rest[i]) == track(calls + (i + 1), faces[i + 1]);
    }
  }

  ghost predicate Kept(faces: seq<Face>, calls: nat, track: (nat, Face) -> Tracking, g: Face) {
    exists i :: 0 <= i < |faces| && faces[i].id == g.id && track(calls + i, faces[i]) == Keep(g.box, g.confidence)
  }

  lemma KeptFirstOrLater(faces: seq<Face>, calls: nat, track: (nat, Face) -> Tracking, g: Face)
    requires faces != []
    ensures Kept(faces, calls, track, g) <==>
            (faces[0].id == g.id && track(calls, faces[0]) == Keep(g.box, g.confidence))
                || Kept(faces[1..], calls + 1, track, g)
  {
    var rest := faces[1..];
    if i :| 0 <= i < |faces| && faces[i].id == g.id && track(calls + i, faces[i]) == Keep(g.box, g.confidence) {
      assert i > 0 ==> rest[i - 1] == faces[i] && track(calls + 1 + (i - 1), rest[i - 1]) == Keep(g.box, g.confidence);
    }
    if i :| 0 <= i < |rest| && rest[i].id == g.id && track(calls + 1 + i, rest[i]) == Keep(g.box, g.confidence) {
      assert faces[i + 1] == rest[i] && track(calls + (i + 1), faces[i + 1]) == Keep(g.box, g.confidence);
    }
  }

  // A pass that succeeds leaves exactly the faces TrackFace said to keep, with the box and the
  // confidence it gave them.
  lemma {:induction false} PassKeepsTheKept(faces: seq<Face>, calls: nat, track: (nat, Face) -> Tracking, g: Face)
    requires TrackPass(faces, calls, track).status.Success?
    ensures g in TrackPass(faces, calls, track).tracking <==> Kept(faces, calls, track, g)
    decreases |faces|
  {
    if faces != [] {
      KeptFirstOrLater(faces, calls, track, g);
      PassKeepsTheKept(faces[1..], calls + 1, track, g);
      hide Kept;
    }
  }

  // A pass that fails stops at the first failing call: that face is lost, the faces before it
  // stand as tracked, the faces after it as they were.
  lemma {:induction false} PassEndsAtFirstFailure(faces: seq<Face>, calls: nat,
                                                  track: (nat, Face) -> Tracking)
    returns (n: nat)
    requires TrackPass(faces, calls, track).status.Failure?
    ensures n < |faces| && track(calls + n, faces[n]).Fail? && TrackPass(faces[..n], calls, track).status.Success?
    ensures var p := TrackPass(faces, calls, track);
            && p.status == Failure(track(calls + n, faces[n]).code) && p.calls == calls + n + 1
            && p.tracking == TrackPass(faces[..n], calls, track).tracking + faces[n + 1..]
    decreases |faces|
  {
    if track(calls, faces[0]).Fail? {
      n := 0;
    } else {
      var rest := faces[1..];
      var m := PassEndsAtFirstFailure(rest, calls + 1, track);
      n := m + 1;
      assert faces[..n][1..] == rest[..n - 1] && faces[..n][0] == faces[0];
      assert rest[n - 1] == faces[n] && rest[n..] == faces[n + 1..];
    }
  }

  lemma {:induction false} NothingIsLost(faces: seq<Face>, calls: nat, track: (nat, Face) -> Tracking)
    requires forall k, f :: track(k, f) == Keep(f.box, f.confidence)
    ensures TrackPass(faces, calls, track) == Pass(faces, Success, calls + |faces|)
    decreases |faces|
  {
    if faces != [] {
      NothingIsLost(faces[1..], calls + 1, track);
      assert faces == [faces[0]] + faces[1..];
    }
  }

  // The boxes large enough to be tracked, in the order of the detector.
  function LargeEnough(settings: Settings, scale: real, boxes: seq<Box>): seq<Box> {
    if boxes == [] then []
    else
      var front, box := LargeEnough(settings, scale, boxes[..|boxes| - 1]), boxes[|boxes| - 1];
      if ShortestSideAbove(box.rect, settings.minFacePx, scale) then front + [box] else front
  }

  // The candidates are the first maxFaces large boxes. In light-track mode every large box spends
  // the next id, taken or not; in always-detect mode the id is -1.
  lemma {:induction false} FirstLargeBoxesAreTaken(settings: Settings, scale: real, idx: int, boxes: seq<Box>)
    ensures var pool, large := TakeAll(settings, scale, Pool([], idx), boxes), LargeEnough(settings, scale, boxes);
            && |pool.candidates| == MinInt(|large|, settings.maxFaces)
            && pool.trackingIdx == (if settings.mode.LightTrack? then idx + |large| else if large == [] then idx else -1)
            && forall i :: 0 <= i < |pool.candidates| ==>
                 pool.candidates[i] == Face(if settings.mode.LightTrack? then idx + 1 + i else -1, large[i].rect,
                                            large[i].score)
  {
    hide ShortestSideAbove;
    if boxes != [] {
      FirstLargeBoxesAreTaken(settings, scale, idx, boxes[..|boxes| - 1]);
    }
  }

  lemma TakenIdsAreFresh(settings: Settings, scale: real, idx: int, boxes: seq<Box>)
    requires settings.mode.LightTrack?
    ensures var pool := TakeAll(settings, scale, Pool([], idx), boxes);
            && idx <= pool.trackingIdx && |pool.candidates| <= settings.maxFaces
            && IdsWithin(pool.candidates, idx, pool.trackingIdx) && DistinctIds(pool.candidates)
  {
    FirstLargeBoxesAreTaken(settings, scale, idx, boxes);
    hide TakeAll, LargeEnough;
  }

  // ----- What every call keeps -----

  ghost predicate ModeInv(s: State) {
    match s.settings.mode
    case AlwaysDetect => |s.tracking| <= s.settings.maxFaces && forall f :: f in s.tracking ==> f.id == -1
    case LightTrack => 0 <= s.trackingIdx && IdsWithin(s.tracking, 0, s.trackingIdx) && DistinctIds(s.tracking)
  }

  ghost predicate Inv(s: State) {
    s.candidates == [] && s.detectionIndex >= -1 && ModeInv(s)
  }

  // What an operation may do to the identities of the tracked faces in light-track mode: the
  // counter never falls, every face is an old one or has an id above all ids ever given, and at
  // most maxFaces are new.
  ghost predicate Fresh(s: State, t: State) {
    && s.trackingIdx <= t.trackingIdx
    && (forall x :: x in IdsOf(t.tracking) ==> x in IdsOf(s.tracking) || s.trackingIdx < x <= t.trackingIdx)
    && |IdsOf(t.tracking) - IdsOf(s.tracking)| <= s.settings.maxFaces
    && |t.tracking| <= |s.tracking| + s.settings.maxFaces
  }

  lemma {:induction false} FewIds(s: seq<Face>)
    ensures |IdsOf(s)| <= |s|
  {
    if s == [] {
    } else {
      var front, c := s[..|s| - 1], s[|s| - 1];
      FewIds(front);
      assert IdsOf(s) == IdsOf(front) + {c.id};
    }
  }

  lemma SmallerSet(a: set<int>, b: set<int>)
    requires a <= b
    ensures |a| <= |b|
  {
    assert b == a + (b - a);
  }

  lemma AppendedIds(faces: seq<Face>, batch: seq<Face>, idx: int, idx': int)
    requires DistinctIds(faces) && IdsWithin(faces, 0, idx) && DistinctIds(batch) && IdsWithin(batch, idx, idx')
    ensures DistinctIds(faces + batch) && IdsOf(faces + batch) == IdsOf(faces) + IdsOf(batch)
  {
  }

  // Appending a batch of fresh faces and tracking them all.
  lemma AppendedBatch(faces: seq<Face>, batch: seq<Face>, kept: seq<Face>, idx: int, idx': int)
    requires DistinctIds(faces) && IdsWithin(faces, 0, idx) && 0 <= idx <= idx'
    requires DistinctIds(batch) && IdsWithin(batch, idx, idx')
    requires DistinctIds(faces + batch) ==> DistinctIds(kept)
    requires IdsOf(kept) <= IdsOf(faces + batch)
    ensures DistinctIds(kept) && IdsWithin(kept, 0, idx')
    ensures forall x :: x in IdsOf(kept) ==> x in IdsOf(faces) || idx < x <= idx'
    ensures |IdsOf(kept) - IdsOf(faces)| <= |batch|
  {
    AppendedIds(faces, batch, idx, idx');
    hide DistinctIds;
    SmallerSet(IdsOf(kept) - IdsOf(faces), IdsOf(batch));
    FewIds(batch);
    forall i | 0 <= i < |kept| ensures 0 < kept[i].id <= idx' {
      assert kept[i].id in IdsOf(kept);
    }
  }

  lemma DetectAndTrackKeepsIds(s: State, d: Detection, calls: nat, index: int, f: Frame)
    requires s.settings.mode.LightTrack? && s.candidates == [] && ModeInv(s)
    ensures var t := DetectAndTrack(s, d, calls, index, f).state;
            t.candidates == [] && ModeInv(t) && Fresh(s, t)
  {
    if d.Found? {
      TakenIdsAreFresh(s.settings, f.scale, s.trackingIdx, d.boxes);
      var pool := TakeAll(s.settings, f.scale, Pool([], s.trackingIdx), d.boxes);
      PassKeepsIds(s.tracking + pool.candidates, calls, f.track);
      hide TakeAll, TrackPass;
      var t := DetectAndTrack(s, d, calls, index, f).state;
      AppendedBatch(s.tracking, pool.candidates, t.tracking, s.trackingIdx, t.trackingIdx);
    }
  }

  // The same state with some of its faces gone.
  ghost predicate Thinned(s: State, u: State) {
    && u.settings == s.settings && u.trackingIdx == s.trackingIdx && u.candidates == []
    && IdsOf(u.tracking) <= IdsOf(s.tracking) && |u.tracking| <= |s.tracking|
    && (DistinctIds(s.tracking) ==> DistinctIds(u.tracking))
  }

  lemma ThinnedKeepsIds(s: State, u: State)
    requires s.settings.mode.LightTrack? && ModeInv(s) && Thinned(s, u)
    ensures ModeInv(u) && Fresh(s, u)
  {
    assert IdsOf(u.tracking) - IdsOf(s.tracking) == {};
    forall i | 0 <= i < |u.tracking| ensures 0 < u.tracking[i].id <= u.trackingIdx {
      assert u.tracking[i].id in IdsOf(u.tracking);
    }
  }

  lemma FreshAfterThinned(s: State, u: State, t: State)
    requires Thinned(s, u) && Fresh(u, t)
    ensures Fresh(s, t)
  {
    SmallerSet(IdsOf(t.tracking) - IdsOf(s.tracking), IdsOf(t.tracking) - IdsOf(u.tracking));
  }

  lemma SuppressedIsThinned(s: State, u: State, f: Frame)
    requires IsSorting(f.sort) && u.settings == s.settings && u.trackingIdx == s.trackingIdx && u.candidates == []
    requires u.tracking == Greedy(f.sort(s.tracking), OverlapAt(NMS_THRESHOLD))
    ensures Thinned(s, u)
  {
    KeptAreInput(f.sort(s.tracking), OverlapAt(NMS_THRESHOLD));
    hide Greedy;
    SubsetKeepsIds(u.tracking, s.tracking);
    assert multiset(s.tracking) == multiset(u.tracking) + (multiset(s.tracking) - multiset(u.tracking));
    assert |multiset(u.tracking)| <= |multiset(s.tracking)|;
  }

  lemma UpdateKeepsIds(s: State, f: Frame)
    requires s.settings.mode.LightTrack? && s.candidates == [] && ModeInv(s) && IsSorting(f.sort)
    ensures var t := UpdateStep(s, f).state; t.candidates == [] && ModeInv(t) && Fresh(s, t)
  {
    var s1, t := Begun(s), UpdateStep(s, f).state;
    hide DetectAndTrack, ModeInv, Fresh;
    if Due(s1) {
      var s2 := s1.(tracking := Greedy(f.sort(s1.tracking), OverlapAt(NMS_THRESHOLD)));
      SuppressedIsThinned(s, s2, f);
      hide Greedy, Thinned, IsSorting;
      ThinnedKeepsIds(s, s2);
      DetectAndTrackKeepsIds(s2, f.regular, 0, s1.detectionIndex, f);
      FreshAfterThinned(s, s2, t);
    } else {
      assert Appended(s1).tracking == s.tracking;
      var pass := TrackPass(s.tracking, 0, f.track);
      PassKeepsIds(s.tracking, 0, f.track);
      hide TrackPass, IsSorting;
      var s3 := s1.(tracking := pass.tracking);
      ThinnedKeepsIds(s, s3);
      if t != s3 {
        DetectAndTrackKeepsIds(s3, f.recovery, pass.calls, 0, f);
        FreshAfterThinned(s, s3, t);
      }
    }
  }

  lemma UpdateKeepsUnidentified(s: State, f: Frame)
    requires s.settings.mode.AlwaysDetect? && s.candidates == [] && IsSorting(f.sort)
    ensures var t := UpdateStep(s, f).state; t.candidates == [] && ModeInv(t)
  {
    assert multiset(f.sort([])) == multiset([]);
    assert |multiset(f.sort([]))| == |f.sort([])|;
    assert f.sort([]) == [];
    if f.regular.Found? {
      FirstLargeBoxesAreTaken(s.settings, f.scale, s.trackingIdx, f.regular.boxes);
      var pool := TakeAll(s.settings, f.scale, Pool([], s.trackingIdx), f.regular.boxes);
      assert [] + pool.candidates == pool.candidates;
      PassKeepsIds(pool.candidates, 0, f.track);
      hide TakeAll, TrackPass;
      var t := UpdateStep(s, f).state;
      assert t.tracking == TrackPass(pool.candidates, 0, f.track).tracking;
      forall g | g in t.tracking ensures g.id == -1 {
        assert g.id in IdsOf(pool.candidates);
      }
    }
  }

  predicate IsMultiple(i: int, n: int)
    requires n > 0
  {
    i % n == 0
  }

  lemma UpdateKeepsIndex(s: State, f: Frame)
    requires s.detectionIndex >= -1
    ensures var o := UpdateStep(s, f);
            && o.state.detectionIndex >= 0 && o.state.settings == s.settings && o.detections <= 1
            && (o.detections == 0 ==>
                  && o.state.detectionIndex == s.detectionIndex + 1
                  && (s.settings.interval > 0 ==> !IsMultiple(s.detectionIndex + 1, s.settings.interval)))
  {
    hide TakeAll, TrackPass, Greedy;
  }

  ghost predicate SameKind(s: State, t: State) {
    t.settings.mode == s.settings.mode && t.settings.maxFaces == s.settings.maxFaces
  }

  lemma OperateKeepsInv(s: State, op: Op)
    requires Inv(s) && (op.Update? ==> IsSorting(op.frame.sort))
    ensures var t := Operate(s, op).state;
            Inv(t) && SameKind(s, t) && (s.settings.mode.LightTrack? ==> Fresh(s, t))
  {
    match op
    case Update(f) =>
      UpdateKeepsIndex(s, f);
      hide UpdateStep, Fresh;
      if s.settings.mode.LightTrack? {
        UpdateKeepsIds(s, f);
      } else {
        UpdateKeepsUnidentified(s, f);
      }
    case _ =>
      assert IdsOf(Operate(s, op).state.tracking) - IdsOf(s.tracking) == {};
  }

  // In every reachable state, after failed updates too: no candidate is pending; always-detect
  // tracks at most maxFaces faces, without ids; light-track ids are positive, pairwise distinct
  // and were all given out by the counter.
  lemma {:induction false} EveryRunKeepsInv(s: State, ops: seq<Op>)
    requires Inv(s) && Sorted(ops)
    ensures Inv(Run(s, ops)) && SameKind(s, Run(s, ops))
  {
    if ops != [] {
      EveryRunKeepsInv(s, ops[..|ops| - 1]);
      hide Inv, Operate, IsSorting;
      assert ops[|ops| - 1] in ops;
      OperateKeepsInv(Run(s, ops[..|ops| - 1]), ops[|ops| - 1]);
    }
  }

  // ----- Identities over whole runs -----

  // The counter only moves forward, and an id given out before some point of a run is tracked
  // after it only if it was tracked at that point: once a face is lost, or the list is cleared,
  // its id never comes back.
  lemma {:induction false} IdsAreNeverReused(s: State, ops: seq<Op>, f: Face)
    requires Inv(s) && s.settings.mode.LightTrack? && Sorted(ops)
    requires f in Run(s, ops).tracking
    ensures s.trackingIdx <= Run(s, ops).trackingIdx
    ensures f.id in IdsOf(s.tracking) || s.trackingIdx < f.id <= Run(s, ops).trackingIdx
  {
    if ops != [] {
      var u, op := Run(s, ops[..|ops| - 1]), ops[|ops| - 1];
      EveryRunKeepsInv(s, ops[..|ops| - 1]);
      assert op in ops;
      OperateKeepsInv(u, op);
      CounterNeverFalls(s, ops[..|ops| - 1]);
      hide Inv, Operate, IsSorting, Sorted;
      assert f.id in IdsOf(Run(s, ops).tracking);
      if f.id in IdsOf(u.tracking) {
        var g :| g in u.tracking && g.id == f.id;
        IdsAreNeverReused(s, ops[..|ops| - 1], g);
      }
    }
  }

  lemma {:induction false} CounterNeverFalls(s: State, ops: seq<Op>)
    requires Inv(s) && s.settings.mode.LightTrack? && Sorted(ops)
    ensures s.trackingIdx <= Run(s, ops).trackingIdx
  {
    if ops != [] {
      EveryRunKeepsInv(s, ops[..|ops| - 1]);
      assert ops[|ops| - 1] in ops;
      OperateKeepsInv(Run(s, ops[..|ops| - 1]), ops[|ops| - 1]);
      CounterNeverFalls(s, ops[..|ops| - 1]);
    }
  }

  // ----- How stale the detector can get -----

  function Updates(ops: seq<Op>): nat {
    if ops == [] then 0 else Updates(ops[..|ops| - 1]) + if ops[|ops| - 1].Update? then 1 else 0
  }

  function Detections(s: State, ops: seq<Op>): nat {
    if ops == [] then 0
    else Detections(s, ops[..|ops| - 1]) + Operate(Run(s, ops[..|ops| - 1]), ops[|ops| - 1]).detections
  }

  ghost predicate FixedInterval(ops: seq<Op>) {
    forall op :: op in ops ==> !op.SetInterval?
  }

  lemma UpdateKeepsIndexOrDetects(s: State, op: Op)
    requires s.detectionIndex >= -1 && s.settings.interval > 0 && !op.SetInterval? && Operate(s, op).detections == 0
    ensures var t := Operate(s, op).state;
            && t.settings.interval == s.settings.interval
            && t.detectionIndex == s.detectionIndex + (if op.Update? then 1 else 0)
            && (op.Update? ==> !IsMultiple(t.detectionIndex, s.settings.interval))
  {
    if op.Update? {
      UpdateKeepsIndex(s, op.frame);
      hide UpdateStep;
    }
  }

  // Without a detection the index just counts the updates and none was a multiple of the interval.
  lemma {:induction false} QuietRun(s: State, ops: seq<Op>)
    requires s.detectionIndex >= -1 && s.settings.interval > 0 && FixedInterval(ops) && Detections(s, ops) == 0
    ensures Run(s, ops).detectionIndex == s.detectionIndex + Updates(ops)
    ensures Run(s, ops).settings.interval == s.settings.interval
    ensures forall i :: s.detectionIndex < i <= s.detectionIndex + Updates(ops) ==> !IsMultiple(i, s.settings.interval)
  {
    hide Operate, IsMultiple;
    if ops != [] {
      assert ops[|ops| - 1] in ops;
      QuietRun(s, ops[..|ops| - 1]);
      UpdateKeepsIndexOrDetects(Run(s, ops[..|ops| - 1]), ops[|ops| - 1]);
    }
  }

  // Of n consecutive numbers one is a multiple of n.
  lemma MultipleAhead(i: int, n: int)
    requires n > 0
    ensures 1 <= n - i % n <= n && IsMultiple(i + (n - i % n), n)
  {
    ModOfMultiple(n, i / n + 1);
    assert i + (n - i % n) == n * (i / n + 1);
  }

  // In any run with interval n, whatever else happens in it, n updates include a detection.
  lemma {:induction false} DetectorNeverStale(s: State, ops: seq<Op>)
    requires s.detectionIndex >= -1 && s.settings.interval > 0 && FixedInterval(ops)
    requires Updates(ops) >= s.settings.interval
    ensures Detections(s, ops) >= 1
  {
    if Detections(s, ops) == 0 {
      QuietRun(s, ops);
      MultipleAhead(s.detectionIndex, s.settings.interval);
      hide IsMultiple;
      assert false;
    }
  }

  lemma {:induction false} AllLostExactly(faces: seq<Face>, calls: nat, track: (nat, Face) -> Tracking)
    ensures var p := TrackPass(faces, calls, track);
            p.status.Success? && p.tracking == [] <==> forall i :: 0 <= i < |faces| ==> track(calls + i, faces[i]).Lose?
    decreases |faces|
  {
    if faces != [] {
      var rest := faces[1..];
      AllLostExactly(rest, calls + 1, track);
      assert forall i :: 1 <= i < |faces| ==> track(calls + i, faces[i]) == track(calls + 1 + (i - 1), rest[i - 1]);
      assert forall i :: 0 <= i < |rest| ==> track(calls + 1 + i, rest[i]) == track(calls + (i + 1), faces[i + 1]);
      assert track(calls + 0, faces[0]) == track(calls, faces[0]);
    }
  }

  // The detector runs exactly in always-detect mode, when nothing is tracked, when the number of
  // the update is a multiple of the interval, or when recovery is on and TrackFace loses every
  // face of this frame.
  lemma DetectorRunsExactly(s: State, f: Frame)
    requires s.candidates == []
    ensures UpdateStep(s, f).detections == 1 <==>
      || s.settings.mode.AlwaysDetect? || s.tracking == []
      || (s.settings.interval > 0 && IsMultiple(s.detectionIndex + 1, s.settings.interval))
      || (s.settings.recovery && forall i :: 0 <= i < |s.tracking| ==> f.track(i, s.tracking[i]).Lose?)
  {
    AllLostExactly(s.tracking, 0, f.track);
    assert s.tracking + [] == s.tracking;
    hide TakeAll, TrackPass, Greedy;
  }

  // With recovery on, an update that succeeds and ends without faces has just asked the detector,
  // exactly once.
  lemma NoFacesOnlyAfterDetection(s: State, f: Frame)
    requires s.settings.recovery && UpdateStep(s, f).status.Success? && UpdateStep(s, f).state.tracking == []
    ensures UpdateStep(s, f).detections == 1
  {
    hide TakeAll, Greedy;
  }
}
