// The frame loop of the face tracker: detection at intervals, tracking in between, recovery
// when everything is lost. The detector, TrackFace and the order std::sort leaves among equal
// confidences are arbitrary inputs of each frame.
module FaceTracker {
  import opened Basics
  import opened Nms

  datatype Mode = AlwaysDetect | LightTrack

  datatype Status = Success | Failure(code: int)

  datatype Box = Box(rect: Rect, score: real)

  datatype Detection = Found(boxes: seq<Box>) | NotDetected(code: int)

  // What TrackFace does with a face: keep it with a new box and confidence, lose it, or fail.
  datatype Tracking = Keep(box: Rect, confidence: real) | Lose | Fail(code: int)

  // One frame as the tracker sees it: what the detector answers if it runs at the regular place
  // or in recovery, and what the k-th call of TrackFace in this frame answers.
  datatype Frame = Frame(
    regular: Detection, recovery: Detection, scale: real,
    sort: seq<Face> -> seq<Face>, track: (nat, Face) -> Tracking)

  datatype Settings = Settings(mode: Mode, maxFaces: nat, interval: int, minFacePx: int, recovery: bool)

  datatype State = State(
    settings: Settings, tracking: seq<Face>, candidates: seq<Face>, detectionIndex: int, trackingIdx: int)

  // `detections` counts the calls of the detector.
  datatype Outcome = Outcome(state: State, status: Status, detections: nat)

  function Initial(settings: Settings): State {
    State(settings, [], [], -1, 0)
  }

  // ----- Detection -----

  predicate ShortestSideAbove(rect: Rect, value: int, scale: real) {
    && scale > 0.0 && rect.width > 0 && rect.height > 0
    && Min(rect.width as real / scale, rect.height as real / scale).Floor > value
  }

  datatype Pool = Pool(candidates: seq<Face>, trackingIdx: int)

  // An id is spent on every box that is large enough, those beyond the limit included.
  function Take(settings: Settings, scale: real, pool: Pool, box: Box): Pool {
    if !ShortestSideAbove(box.rect, settings.minFacePx, scale) then pool
    else
      var id := if settings.mode.AlwaysDetect? then -1 else pool.trackingIdx + 1;
      if |pool.candidates| >= settings.maxFaces then pool.(trackingIdx := id)
      else Pool(pool.candidates + [Face(id, box.rect, box.score)], id)
  }

  function TakeAll(settings: Settings, scale: real, pool: Pool, boxes: seq<Box>): Pool {
    if boxes == [] then pool
    else Take(settings, scale, TakeAll(settings, scale, pool, boxes[..|boxes| - 1]), boxes[|boxes| - 1])
  }

  function DetectStep(s: State, d: Detection, scale: real): Outcome {
    match d
    case NotDetected(code) => Outcome(s.(candidates := []), Failure(code), 1)
    case Found(boxes) =>
      var pool := TakeAll(s.settings, scale, Pool(s.candidates, s.trackingIdx), boxes);
      Outcome(s.(candidates := pool.candidates, trackingIdx := pool.trackingIdx), Success, 1)
  }

  function Appended(s: State): State {
    s.(tracking := s.tracking + s.candidates, candidates := [])
  }

  // ----- Tracking -----

  datatype Pass = Pass(tracking: seq<Face>, status: Status, calls: nat)

  // One call of TrackFace per face, in order; a failing call loses its face and ends the pass.
  function TrackPass(faces: seq<Face>, calls: nat, track: (nat, Face) -> Tracking): Pass
    decreases |faces|
  {
    if faces == [] then Pass([], Success, calls)
    else
      match track(calls, faces[0])
      case Keep(box, confidence) =>
        var rest := TrackPass(faces[1..], calls + 1, track);
        Pass([Face(faces[0].id, box, confidence)] + rest.tracking, rest.status, rest.calls)
      case Lose => TrackPass(faces[1..], calls + 1, track)
      case Fail(code) => Pass(faces[1..], Failure(code), calls + 1)
  }

  lemma ReplacedAt(s: seq<Face>, i: nat, f: Face)
    requires i < |s|
    ensures s[i := f][i + 1..] == s[i + 1..] && s[i := f][..i + 1] == s[..i] + [f]
  {
  }

  lemma ErasedAt(s: seq<Face>, i: nat)
    requires i < |s|
    ensures var t := s[..i] + s[i + 1..]; t[i..] == s[i + 1..] && t[..i] == s[..i]
  {
  }

  lemma PassOfNone(calls: nat, track: (nat, Face) -> Tracking)
    ensures TrackPass([], calls, track) == Pass([], Success, calls)
  {
  }

  lemma PassAt(s: seq<Face>, i: nat, calls: nat, track: (nat, Face) -> Tracking)
    requires i < |s|
    ensures var p, rest := TrackPass(s[i..], calls, track), TrackPass(s[i + 1..], calls + 1, track);
            match track(calls, s[i])
            case Keep(box, confidence) => p == Pass([Face(s[i].id, box, confidence)] + rest.tracking, rest.status, rest.calls)
            case Lose => p == rest
            case Fail(code) => p == Pass(s[i + 1..], Failure(code), calls + 1)
  {
    assert s[i..][1..] == s[i + 1..];
  }

  // ----- One update -----

  predicate Due(s: State) {
    || s.tracking == []
    || (s.settings.interval > 0 && s.detectionIndex % s.settings.interval == 0)
    || s.settings.mode.AlwaysDetect?
  }

  function Begun(s: State): State {
    s.(detectionIndex := s.detectionIndex + 1, tracking := if s.settings.mode.AlwaysDetect? then [] else s.tracking)
  }

  // Detection followed by the tracking of everything there is, from the calls-th call on.
  function DetectAndTrack(s: State, d: Detection, calls: nat, index: int, f: Frame): Outcome {
    var o := DetectStep(s, d, f.scale);
    if o.status.Failure? then o
    else
      var pass := TrackPass(Appended(o.state).tracking, calls, f.track);
      Outcome(Appended(o.state).(tracking := pass.tracking, detectionIndex := index), pass.status, 1)
  }

  function UpdateStep(s: State, f: Frame): Outcome {
    var s1 := Begun(s);
    if Due(s1) then
      DetectAndTrack(s1.(tracking := Greedy(f.sort(s1.tracking), OverlapAt(NMS_THRESHOLD))), f.regular, 0,
                     s1.detectionIndex, f)
    else
      var s2 := Appended(s1);
      var pass := TrackPass(s2.tracking, 0, f.track);
      var s3 := s2.(tracking := pass.tracking);
      if pass.status.Success? && s.settings.recovery && |s2.tracking| > 0 && pass.tracking == [] then
        DetectAndTrack(s3, f.recovery, pass.calls, 0, f)
      else Outcome(s3, pass.status, 0)
  }

  function Cleared(s: State): State {
    s.(tracking := [], candidates := [])
  }

  // ----- Every operation -----

  datatype Op =
    | Update(frame: Frame)
    | Clear
    | SetInterval(value: int)
    | SetRecovery(on: bool)
    | SetMinimumFacePx(size: real)

  const INT_MAX: real := 2147483647.0

  function Operate(s: State, op: Op): Outcome {
    match op
    case Update(f) => UpdateStep(s, f)
    case Clear => Outcome(Cleared(s), Success, 0)
    case SetInterval(v) => Outcome(if v > 0 then s.(settings := s.settings.(interval := v)) else s, Success, 0)
    case SetRecovery(on) => Outcome(s.(settings := s.settings.(recovery := on)), Success, 0)
    case SetMinimumFacePx(v) =>
      Outcome(if 0.0 <= v <= INT_MAX then s.(settings := s.settings.(minFacePx := v.Floor)) else s, Success, 0)
  }

  // ----- The tracker -----

  class FaceTracker {
    const mode: Mode
    const maxFaces: nat
    var interval: int
    var minFacePx: int
    var recovery: bool
    var trackingFace: seq<Face>
    var candidateFaces: seq<Face>
    var detectionIndex: int
    var trackingIdx: int
    ghost var detectorCalls: nat

    ghost function Value(): State
      reads this
    {
      State(Settings(mode, maxFaces, interval, minFacePx, recovery), trackingFace, candidateFaces, detectionIndex,
            trackingIdx)
    }

    constructor (mode: Mode, maxFaces: nat, interval: int)
      ensures Value() == Initial(Settings(mode, maxFaces, interval, 0, false)) && detectorCalls == 0
    {
      this.mode, this.maxFaces, this.interval := mode, maxFaces, interval;
      minFacePx, recovery := 0, false;
      trackingFace, candidateFaces := [], [];
      detectionIndex, trackingIdx := -1, 0;
      detectorCalls := 0;
    }

    method Nms(th: real, sort: seq<Face> -> seq<Face>)
      modifies `trackingFace
      ensures trackingFace == Greedy(sort(old(trackingFace)), OverlapAt(th))
    {
      trackingFace := Suppress(sort(trackingFace), th);
    }

    method DetectFace(d: Detection, scale: real) returns (status: Status)
      modifies `candidateFaces, `trackingIdx, `detectorCalls
      ensures detectorCalls >= old(detectorCalls)
      ensures Outcome(Value(), status, detectorCalls - old(detectorCalls)) == DetectStep(old(Value()), d, scale)
    {
      detectorCalls := detectorCalls + 1;
      if d.NotDetected? {
        candidateFaces := [];
        return Failure(d.code);
      }
      var i := 0;
      while i < |d.boxes|
        invariant 0 <= i <= |d.boxes|
        invariant Pool(candidateFaces, trackingIdx)
               == TakeAll(old(Value().settings), scale, old(Pool(candidateFaces, trackingIdx)), d.boxes[..i])
        modifies `candidateFaces, `trackingIdx
      {
        assert d.boxes[..i + 1][..i] == d.boxes[..i];
        var box := d.boxes[i];
        i := i + 1;
        if !ShortestSideAbove(box.rect, minFacePx, scale) {
          continue;
        }
        if mode.AlwaysDetect? {
          trackingIdx := -1;
        } else {
          trackingIdx := trackingIdx + 1;
        }
        if |candidateFaces| >= maxFaces {
          continue;
        }
        candidateFaces := candidateFaces + [Face(trackingIdx, box.rect, box.score)];
      }
      assert d.boxes[..i] == d.boxes;
      status := Success;
    }

    method AppendCandidateFaces()
      modifies `trackingFace, `candidateFaces
      ensures Value() == Appended(old(Value()))
    {
      if candidateFaces == [] {
        return;
      }
      trackingFace, candidateFaces := trackingFace + candidateFaces, [];
    }

    // The loop over the tracked faces that erases those TrackFace gives up.
    method TrackFaces(calls: nat, track: (nat, Face) -> Tracking) returns (status: Status, made: nat)
      modifies `trackingFace
      ensures Pass(trackingFace, status, made) == TrackPass(old(trackingFace), calls, track)
    {
      hide TrackPass;
      made := calls;
      var i := 0;
      while i < |trackingFace|
        invariant 0 <= i <= |trackingFace|
        invariant var rest := TrackPass(trackingFace[i..], made, track);
                  TrackPass(old(trackingFace), calls, track)
                      == Pass(trackingFace[..i] + rest.tracking, rest.status, rest.calls)
        decreases |trackingFace| - i
      {
        var face := trackingFace[i];
        var answer := track(made, face);
        PassAt(trackingFace, i, made, track);
        made := made + 1;
        match answer {
          case Keep(box, confidence) =>
            var kept := Face(face.id, box, confidence);
            ReplacedAt(trackingFace, i, kept);
            trackingFace := trackingFace[i := kept];
            i := i + 1;
          case Lose =>
            ErasedAt(trackingFace, i);
            trackingFace := trackingFace[..i] + trackingFace[i + 1..];
          case Fail(code) =>
            trackingFace := trackingFace[..i] + trackingFace[i + 1..];
            return Failure(code), made;
        }
      }
      PassOfNone(made, track);
      assert trackingFace[..i] == trackingFace && trackingFace[i..] == [];
      status := Success;
    }

    method UpdateStream(f: Frame) returns (status: Status)
      modifies this
      ensures detectorCalls >= old(detectorCalls)
      ensures Outcome(Value(), status, detectorCalls - old(detectorCalls)) == UpdateStep(old(Value()), f)
    {
      detectionIndex := detectionIndex + 1;
      if mode.AlwaysDetect? {
        trackingFace := [];
      }
      var detectionExecuted := false;
      if trackingFace == [] || (interval > 0 && detectionIndex % interval == 0) || mode.AlwaysDetect? {
        Nms(NMS_THRESHOLD, f.sort);
        status := DetectFace(f.regular, f.scale);
        if status.Failure? {
          return;
        }
        detectionExecuted := true;
      }
      AppendCandidateFaces();
      var facesBeforeTracking := |trackingFace|;
      var made;
      status, made := TrackFaces(0, f.track);
      if status.Failure? {
        return;
      }
      if recovery && !detectionExecuted && facesBeforeTracking > 0 && trackingFace == [] {
        status := DetectFace(f.recovery, f.scale);
        if status.Failure? {
          return;
        }
        detectionIndex := 0;
        AppendCandidateFaces();
        status, made := TrackFaces(made, f.track);
      }
    }

    method ClearTrackingFace()
      modifies `trackingFace, `candidateFaces
      ensures Value() == Cleared(old(Value()))
    {
      trackingFace, candidateFaces := [], [];
    }

    method SetTrackModeDetectInterval(value: int)
      modifies `interval
      ensures Value() == Operate(old(Value()), SetInterval(value)).state
    {
      if value > 0 {
        interval := value;
      }
    }

    method SetTrackLostRecoveryMode(value: bool)
      modifies `recovery
      ensures Value() == Operate(old(Value()), SetRecovery(value)).state
    {
      recovery := value;
    }

    method SetMinimumFacePxSize(value: real)
      modifies `minFacePx
      ensures Value() == Operate(old(Value()), SetMinimumFacePx(value)).state
    {
      if value >= 0.0 && value <= INT_MAX {
        minFacePx := value.Floor;
      }
    }
  }
}
