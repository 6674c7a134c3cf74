// The values that flow through the best-frame selector: configuration, faces, metrics,
// retained candidates, per-frame reports, and the selector's whole state.
// A uint64_t filter or reject mask is the set of the flags it has raised.
module CaptureTypes {
  import opened Basics

  datatype Filter =
    | FaceCount | FaceSize | FacePosition | FaceBoundary | Stability
    | Pose | Quality | Sharpness | Brightness | TrackCount
    | Unsupported(bit: nat)  // any mask bit outside the ten known filters

  datatype Reject =
    | NoFace | MultipleFaces | FaceTooSmall | FaceTooLarge | FaceOffCenter | FaceOutOfBounds
    | Unstable | BadPose | BadQuality | BadSharpness | BadBrightness | TrackCountTooLow

  datatype Phase = Idle | Stabilizing | Collecting | Ready | Finished | TrackLost

  datatype Status = Ok | InvalidConfig | RequiredFeatureOff | FrameOutOfOrder | InvalidParam

  const MAX_OUTPUT_COUNT := 8
  const INT32_MAX := 0x7fff_ffff

  datatype Config = Config(
    filters: set<Filter>,
    outputCount: nat,
    minTrackCount: nat,
    stableDurationMs: u64,
    collectDurationMs: u64,
    maxCollectDurationMs: u64,
    trackLostGraceMs: u64,
    minCandidateIntervalMs: u64,
    minFaceWidthRatio: real,
    maxFaceWidthRatio: real,
    maxCenterOffsetX: real,
    maxCenterOffsetY: real,
    boundaryMarginRatio: real,
    maxCenterMotionRatio: real,
    maxSizeChangeRatio: real,
    maxAbsYaw: real,
    maxAbsPitch: real,
    maxAbsRoll: real,
    minQualityScore: real,
    minSharpnessScore: real,
    minBrightnessScore: real,
    maxBrightnessScore: real)

  // The pipeline features of the session that the pose and quality filters depend on.
  datatype Features = Features(facePose: bool, faceQuality: bool)

  datatype Face = Face(trackId: int, trackCount: int, rect: Rect, yaw: real, pitch: real, roll: real, quality: seq<real>)

  datatype Image = Image(width: int, height: int, channels: int, data: seq<byte>)

  datatype Frame = Frame(
    imageWidth: int, imageHeight: int, image: Option<Image>, faces: seq<Face>, frameId: u64, timestampMs: u64)

  datatype Metrics = Metrics(
    available: set<Filter>,
    faceWidthRatio: real,
    centerOffsetX: real,
    centerOffsetY: real,
    stabilityScore: real,
    poseScore: real,
    qualityScore: real,
    sharpnessScore: real,
    brightnessScore: real)

  const NO_METRICS := Metrics({}, -1.0, -1.0, -1.0, -1.0, -1.0, -1.0, -1.0, -1.0)

  datatype Candidate = Candidate(
    frameId: u64, timestampMs: u64, trackId: int, score: real, face: Face, metrics: Metrics)

  datatype Report = Report(
    phase: Phase,
    frameId: u64,
    timestampMs: u64,
    trackId: int,
    trackCount: int,
    evaluated: set<Filter>,
    rejects: set<Reject>,
    progress: real,
    currentScore: real,
    candidateCount: nat,
    metrics: Metrics)

  const EMPTY_REPORT := Report(Idle, 0, 0, -1, 0, {}, {}, 0.0, 0.0, 0, NO_METRICS)

  // The sighting the stability clock runs on. `lastRect` is None until a sighting of the
  // active track has been measured. NO_ID is the id the code uses for "no active track".
  datatype Track = Track(activeId: int, stableSince: u64, lastSeen: u64, lastRect: Option<Rect>)

  const NO_ID := -1
  const NO_TRACK := Track(NO_ID, 0, 0, None)

  datatype State = State(
    config: Config,
    status: Status,
    hasInput: bool,
    finished: bool,
    collecting: bool,
    lastFrameId: u64,
    lastTimestampMs: u64,
    collectionStartMs: u64,
    track: Track,
    results: seq<Candidate>,
    lastReport: Report)
}
