# InspireFace decision logic in Dafny

A model of the stateful decision logic of the InspireFace C++ SDK, with proofs about whole runs of
it. The neural networks are not part of it: detections, face qualities, pixels and the answers of
`TrackFace` are arbitrary inputs, so every statement holds whatever the networks say.

| component | files |
|---|---|
| best-frame capture selector and its C API session | `CaptureTypes`, `CandidateRanking`, `RankingHistory`, `PixelMetrics`, `CapturePolicy`, `CaptureSelector`, `CaptureRuns`, `StabilityClock`, `CaptureVerdict`, `ScoreMeaning`, `PixelMeaning`, `CaptureReports`, `CaptureSession` |
| handle registry, leases and object lifetime | `HandleRegistry`, `HandleLifetime` |
| tracker frame loop and non-maximum suppression | `Nms`, `FaceTracker`, `TrackerRuns`, `TrackerUpdates`, `TrackedListLimit` |
| feature similarity | `Similarity` |
| moving averages and crop boxes | `Smoothing`, `CropBoxes` |

`Basics` holds the shared vocabulary. `dafny verify dfyconfig.toml` checks everything.

How the pieces fit. What the C++ code does in place is a class whose methods change fields or a
method with a loop. Each is proved equal, over its whole state, to a transition function
(`CapturePolicy.UpdateStep`, `FaceTracker.UpdateStep`, `HandleRegistry.Registered`, ...), and what
the SDK promises is proved about all sequences of those transitions. Timestamps are 64-bit values
with explicit wrap-around (`Basics.Elapsed`); floats are exact reals; a filter or reject mask is the
set of its flags; a square root is a function with `s >= 0` and `s * s == n`, or is avoided by
comparing squares.

Findings about the code:

- The stability filter can pass a face that was never seen before, when the face carries the track
  id -1, which the selector also uses for "no active track"
  (`StabilityClock.SentinelPassesUnseen`). For an id the filter is right on every frame of every
  run if and only if the id is not -1 or the required duration is zero
  (`StabilityClock.GateRightExactly`).
- Two tracked faces with one and the same box are merged by suppression if and only if twice the
  area of the box is at least (width + 1) * (height + 1), because the intersection counts end points
  and the area does not (`Nms.SameBoxIsSuppressedExactly`). Two boxes of side 1 are both kept
  (`Nms.TinySameBoxesAreBothKept`).
- The maximum number of faces limits what one detection adds, not the tracked list, so in
  light-track mode the list can outgrow it (`TrackedListLimit.LightTrackCanExceedTheLimit`). From a
  list within the limit the next update keeps it there, whatever the frame shows, if and only if
  nothing is tracked or the update does not detect because of the interval
  (`TrackedListLimit.LimitHoldsExactly`); over whole runs with a fixed interval the limit holds if
  and only if the interval is off or the limit is zero (`TrackedListLimit.LimitHoldsOverRunsExactly`).
  In always-detect mode it always holds (`TrackerRuns.EveryRunKeepsInv`).
- The end of the collection time is noticed only on a processed frame with a usable face: frames
  without one never finish a capture, however late they come (`CaptureReports.FinishedExactly`).
- A configuration can pass validation and still be of no use: with a minimum width that leaves no
  room for the margins no frame is ever accepted (`CaptureVerdict.TooWideForItsMargins`), and with
  equal collection times READY is never reported (`CaptureReports.ReadyNeedsRoom`).

## Model

| member | source | states |
|---|---|---|
| CaptureRuns.OnlineTopN | cpp/inspireface/capture.cpp:474-503 | with de-duplication off, after every run the results are all accepted frames since configuration, ranked and cut to outputCount |
| CaptureRuns.BestIsKept | cpp/inspireface/capture.cpp:484-502 | whatever de-duplication and truncation do, the first result is the earliest frame of maximal score among all accepted ones |
| CaptureRuns.AcceptedIsCovered | cpp/inspireface/capture.cpp:484-502 | every frame ever accepted is represented: by a result of its own track that scores at least as well, or by a full list of results that do |
| CaptureRuns.ResultsAreSpaced | cpp/inspireface/capture.cpp:484-502 | results are accepted frames, in descending score and then ascending time, at most outputCount, and those of one track are minCandidateIntervalMs apart |
| CaptureRuns.RunTracks | cpp/inspireface/capture.cpp:319-339 | after any run the list is the accepted frames folded in order, the window opens with the first of them, and only the last can lie beyond it |
| CaptureRuns.WindowHolds | cpp/inspireface/capture.cpp:319-339 | every accepted frame but the last is inside the collection window, one beyond it finishes the capture, and no result is older than the window |
| CaptureRuns.FinishedIsFinal | cpp/inspireface/capture.cpp:174-177 | no further call changes a finished capture |
| CaptureRuns.RunNoWorse | cpp/inspireface/capture.cpp:492-502 | over any run the candidate count never falls and the score at every rank never falls |
| CaptureRuns.ReadyPersists | cpp/inspireface/capture.cpp:325-332 | once an accepted frame reported READY, every later accepted frame reports READY or FINISHED |
| CaptureRuns.ProgressNeverFalls | cpp/inspireface/capture.cpp:505-541 | progress is at most one half before collecting, at least one half afterwards, and from then on never less than an earlier report, on rejected, empty and track-lost frames too |
| CaptureRuns.RunKeepsInv | cpp/inspireface/capture.cpp:166-342 | every run keeps the list ranked, spaced and bounded, and collecting exactly when it is not empty |
| CaptureRuns.EveryHistoryIsARun | cpp/inspireface/capture.cpp:143-164 | any interleaving of configuring, resetting and calling leaves exactly the state that the calls since the last configuration or reset lead to from a fresh configuration, or an empty selector if the last configuration failed |
| CaptureRuns.EveryReachableStateIsSound | cpp/inspireface/capture.cpp:383-393 | in every reachable state of a configured selector the list invariant holds, and the results are those of the frames accepted since the last configuration or reset, led by the best of them |
| CaptureRuns.NextIsCollectionStep | cpp/inspireface/capture.cpp:166-342 | each call is, for the collection, exactly one of: nothing, the end, an accepted frame, or a processed but not accepted frame, which finishes the capture if and only if it shows a usable face when the collection time is over |
| CaptureReports.ProcessedExactly | cpp/inspireface/capture.cpp:171-188 | after any run a frame is processed if and only if the capture is not finished, the frame has a size and the pixels it needs, and its number and time exceed those of every frame processed before; any other frame is refused with its reason and changes nothing |
| CaptureReports.PhaseExactly | cpp/inspireface/capture.cpp:193-341 | the phase of every report, and whether the frame finishes the capture, in terms of the history of processed frames and the frames accepted so far |
| CaptureReports.FacelessOutcome | cpp/inspireface/capture.cpp:193-228 | a processed frame without a usable face never finishes the capture and leaves the results alone; its report says whether the track is still held, with the flags raised |
| CaptureReports.FaceOutcome | cpp/inspireface/capture.cpp:318-341 | a processed frame with a usable face is accepted when no flag is raised, and finishes the capture, accepted or not, if and only if the collection time is over |
| CaptureReports.ReadyNeedsRoom | cpp/inspireface/capture.cpp:325-332 | READY is reported only when the minimum collection time has passed and the maximum has not, so two equal times exclude it |
| CaptureReports.FinishedExactly | cpp/inspireface/capture.cpp:325-351 | after any run the capture is finished if and only if it was finished by hand or a usable face was processed when the collection time, counted from the first accepted frame, was over |
| CaptureReports.ProgressExactly | cpp/inspireface/capture.cpp:515-541 | the progress of every report: 1 when ready or finished, from one half to 1 in proportion to the time collected, and before that half the least of the shares still to be reached |
| CaptureReports.OfferedExactly | cpp/inspireface/capture.cpp:474-482 | an accepted frame is recorded with its number, time and chosen face, and with the metrics and score of its report |
| CaptureReports.FinishedRepeats | cpp/inspireface/capture.cpp:344-351 | a finished capture repeats the report of the last processed frame as finished and complete, under the number and time of the call, or of the last frame when finished by hand |
| StabilityClock.GateIsExact | cpp/inspireface/capture.cpp:395-433 | for every id but the sentinel, a frame passes the stability check if and only if the history of processed frames shows an undisturbed stretch of the required length |
| StabilityClock.AcceptedIsStable | cpp/inspireface/capture.cpp:428-432 | an accepted frame ends a stretch of at least stableDurationMs in which every usable frame showed the same track within the motion and size limits and every empty frame fell within the grace period |
| StabilityClock.MovedExactly | cpp/inspireface/capture.cpp:408-421 | a sighting restarts the clock unless twice the centre shift, scaled by the image, stays within the limit and the area changes by at most the given share of the previous area |
| StabilityClock.SentinelPassesUnseen | cpp/inspireface/capture.cpp:375-381 | a first frame with track id -1 passes the check although its face was never seen before |
| StabilityClock.GateRightExactly | cpp/inspireface/capture.cpp:395-433 | the check is right for an id, on all frames of all runs, if and only if the id is not -1 or no duration is required |
| StabilityClock.ElapsedNeverWraps | cpp/inspireface/capture.cpp:195-520 | in no run does an elapsed time wrap around while a frame is processed: since the last sighting, since the face became stable, since the collection started |
| StabilityClock.RunFits | cpp/inspireface/capture.cpp:193-228 | after every run the kept clock is the start of the longest steady stretch of the history |
| CaptureVerdict.AcceptedInRunExactly | cpp/inspireface/capture.cpp:193-319 | after any run a frame is accepted if and only if it is processed and its chosen face has an extent and meets the condition of every enabled filter, stated on the face, its pixels and the history of processed frames |
| CaptureVerdict.AcceptedExactly | cpp/inspireface/capture.cpp:205-317 | for any clock and pixel measurement, the checks raise no reject flag if and only if the condition of every enabled filter holds |
| CaptureVerdict.RejectsExactly | cpp/inspireface/capture.cpp:205-316 | each single reject flag is raised if and only if its own condition on the face, the clock or the pixels fails |
| CaptureVerdict.ConfiguredExactly | cpp/inspireface/capture.cpp:37-164 | which configurations are taken over and which are refused with which status; either way the selector starts empty |
| CaptureVerdict.TooWideForItsMargins | cpp/inspireface/capture.cpp:253-261 | under a valid configuration whose minimum width and margins exceed the image no frame of any run is accepted |
| CaptureVerdict.ScoreInUnit | cpp/inspireface/capture.cpp:435-472 | the score of any frame lies in [0, 1] |
| CaptureVerdict.ScoreGrows | cpp/inspireface/capture.cpp:453-472 | better stability, pose, quality and sharpness and a longer track never lower the score |
| ScoreMeaning.ScoreIsTheMean | cpp/inspireface/capture.cpp:435-472 | the score is the mean of one part for each enabled filter, and 1 without filters |
| ScoreMeaning.ShareIsPart | cpp/inspireface/capture.cpp:442-470 | what the part of each filter is, without divisions: how far a width or a brightness is from the middle of its range, how far an offset is inside its limit, the share of the required track length, or the metric itself |
| ScoreMeaning.ScoreIsOneExactly | cpp/inspireface/capture.cpp:435-472 | the score is 1 if and only if every enabled filter is served in full: width and brightness in the middle of their ranges, the face in the middle of the image, and so on |
| ScoreMeaning.CloserIsBetter | cpp/inspireface/capture.cpp:443-470 | moving a single enabled width, position or brightness toward its ideal inside its range strictly raises the score |
| ScoreMeaning.JudgedIsMeasured | cpp/inspireface/capture.cpp:234-316 | every metric in a report says what it should about the face, and is -1 and not available when it was not measured |
| ScoreMeaning.FacePixelsAreMeasured | cpp/inspireface/capture.cpp:290-316 | the pixels of the chosen face are measured if and only if the image can be read and the face covers three of its columns and rows, and what is measured is that region |
| CapturePolicy.SelectedIsPreferred | cpp/inspireface/capture.cpp:209-216 | no face has a larger area than the chosen one, nor the same area and a smaller track id, and it is the first such face |
| CandidateRanking.AddCandidateEffect | cpp/inspireface/capture.cpp:484-502 | adding a frame drops it for a duplicate that is at least as good, puts it in the place of a worse duplicate, or ranks it as a further entry; nothing else changes |
| CandidateRanking.FurtherEntryExactly | cpp/inspireface/capture.cpp:484-502 | a frame opens a further entry if and only if its track has no candidate of the last minCandidateIntervalMs; a full list then drops its last entry |
| CandidateRanking.AddCandidateKeepsGood | cpp/inspireface/capture.cpp:484-502 | adding a newer frame keeps the list ranked, distinct, spaced and bounded |
| CandidateRanking.DuplicateIsUnique | cpp/inspireface/capture.cpp:484-491 | at most one stored candidate can match the duplicate search |
| CandidateRanking.DuplicateMeans | cpp/inspireface/capture.cpp:485-490 | a stored candidate counts as the same shot exactly when it is of the same track and less than minCandidateIntervalMs away, in either direction |
| CandidateRanking.RankingIsUnique | cpp/inspireface/capture.cpp:492-499 | two lists ranked by the comparator with the same elements are the same list, so the sorting algorithm does not matter |
| CandidateRanking.SortRanks | cpp/inspireface/capture.cpp:492-499 | on distinct timestamps the sorted list is ranked and has the same elements |
| RankingHistory.OnlineIsOffline | cpp/inspireface/capture.cpp:492-502 | keeping the best outputCount frame by frame equals ranking everything once and cutting |
| RankingHistory.BestFrameIsFirst | cpp/inspireface/capture.cpp:484-502 | folding frames of increasing time into the list keeps the overall best frame first |
| RankingHistory.EveryFrameIsCovered | cpp/inspireface/capture.cpp:484-502 | folding frames of increasing time leaves every one of them represented in the list |
| PixelMetrics.PixelInBuffer | cpp/inspireface/capture.cpp:95-107 | every byte of a pixel inside the image is inside the buffer |
| PixelMetrics.GridHasSamples | cpp/inspireface/capture.cpp:88-104 | a clipped region of at least 3 x 3 pixels is sampled on 2 to 127 rows and columns, with neighbours to compare |
| PixelMetrics.TotalSamplesCount | cpp/inspireface/capture.cpp:105-112 | the number of samples is rows times columns |
| PixelMetrics.TotalPairsCount | cpp/inspireface/capture.cpp:112-124 | the number of compared neighbours is rows * (columns - 1) + columns * (rows - 1) |
| PixelMetrics.TextureInUnit | cpp/inspireface/capture.cpp:127-136 | sharpness and brightness lie in [0, 1] before the clamp |
| PixelMetrics.SampleLoops | cpp/inspireface/capture.cpp:105-126 | the sampling loops compute the luminance and gradient sums and their counts over the grid |
| PixelMetrics.ComputePixelMetrics | cpp/inspireface/capture.cpp:79-137 | the metrics are the sampled averages; an unreadable image or a region below 3 x 3 gives none |
| PixelMeaning.LuminanceExactly | cpp/inspireface/capture.cpp:70-77 | luminance is the weighted mean of the channels of a BGR pixel, rounded to the nearest level; grey stays as it is |
| PixelMeaning.GridCoversTheFace | cpp/inspireface/capture.cpp:88-97 | the sampled rectangle is the part of the face inside the image, with at least 64 samples along each side or one for every pixel |
| PixelMeaning.BrightnessIsBetween | cpp/inspireface/capture.cpp:105-132 | brightness lies between the levels of the darkest and the brightest sample |
| PixelMeaning.SharpnessExtremes | cpp/inspireface/capture.cpp:105-135 | sharpness is 0 if and only if all sampled neighbours are equal, and 1 if and only if all of them are at full contrast |
| CaptureSelector.SelectFace | cpp/inspireface/capture.cpp:209-216 | the selection loop finds the preferred face |
| CaptureSelector.FaceQualityScore | cpp/inspireface/capture.cpp:59-68 | -1 if any quality value is negative, otherwise one minus the clamped mean |
| CaptureSelector.FaceCaptureSelector.Configure | cpp/inspireface/capture.cpp:143-164 | a valid configuration with its features enabled is stored, any other sets the failure status; the rest of the state is cleared in all cases |
| CaptureSelector.FaceCaptureSelector.Update | cpp/inspireface/capture.cpp:166-342 | the whole new state, status and report are those of one step of the policy, error returns included |
| CaptureSelector.FaceCaptureSelector.UpdateStability | cpp/inspireface/capture.cpp:395-433 | the clock restarts on a track switch and on motion, and nothing but the track changes |
| CaptureSelector.FaceCaptureSelector.AddCandidate | cpp/inspireface/capture.cpp:474-503 | only the results change, to the merged, sorted and cut list |
| CaptureSelector.FaceCaptureSelector.CompleteUpdate | cpp/inspireface/capture.cpp:515-541 | candidate count and progress are filled in and the report is remembered |
| CaptureSelector.FaceCaptureSelector.Settle | cpp/inspireface/capture.cpp:319-341 | an accepted frame opens or extends the collection, a rejected one may end it |
| CaptureSelector.FaceCaptureSelector.Finish | cpp/inspireface/capture.cpp:344-351 | the capture is latched and the last report returned as finished |
| CaptureSelector.FaceCaptureSelector.Reset | cpp/inspireface/capture.cpp:353-393 | everything but configuration and status is cleared |
| CaptureSession.CacheStaysCoherent | cpp/inspireface/c_api/inspireface.cc:1520-1540 | in every reachable state of a capture handle a clean cache equals the selector's results, so every query answers with the current results |
| CaptureSession.QueryAnswersForTheRun | cpp/inspireface/c_api/inspireface.cc:1503-1640 | whatever a session is asked to do, failed tracking included, its selector is where the calls since the last reset lead from a fresh configuration, and a query answers with the results of that run |
| CaptureSession.FailureChangesNothing | cpp/inspireface/capture.cpp:171-184 | an update or finish that fails leaves the selector as it was |
| CaptureSession.CopyOut | cpp/inspireface/c_api/inspireface.cc:1604-1615 | the list is copied to the front of the caller's buffer, the rest of the buffer is untouched |
| CaptureSession.FaceCaptureSession.UpdateSession | cpp/inspireface/c_api/inspireface.cc:1503-1541 | a tracking failure changes nothing; a successful update marks the cache dirty |
| CaptureSession.FaceCaptureSession.GetResults | cpp/inspireface/c_api/inspireface.cc:1576-1616 | either the full ordered list is copied out, or nothing is and the count says how much room it takes |
| CaptureSession.FaceCaptureSession.FinishSession | cpp/inspireface/c_api/inspireface.cc:1618-1633 | status and report are those of the selector, and a successful finish marks the cache dirty |
| CaptureSession.FaceCaptureSession.ResetSession | cpp/inspireface/c_api/inspireface.cc:1635-1644 | the selector and the cache are cleared and the cache marked dirty |
| HandleRegistry.RegisterReleaseAcquire | cpp/inspireface/runtime_module/resource_manage.h:287-318 | a handle can be acquired exactly between registration and release; a second registration or release changes nothing, and the null handle is never live |
| HandleRegistry.RegistryStaysBalanced | cpp/inspireface/runtime_module/resource_manage.h:287-307 | registering and releasing keep created equal to released plus live |
| HandleRegistry.HandleRegistry.Register | cpp/inspireface/runtime_module/resource_manage.h:287-296 | a non-null handle that is not live is entered and counted; otherwise nothing changes |
| HandleRegistry.HandleRegistry.Release | cpp/inspireface/runtime_module/resource_manage.h:298-307 | a live handle leaves the registry and its owner is handed out; otherwise nothing changes |
| HandleRegistry.HandleRegistry.Acquire | cpp/inspireface/runtime_module/resource_manage.h:309-318 | a live handle yields a lease with a copy of its owner, any other an empty lease |
| HandleRegistry.HandleRegistry.Snapshot | cpp/inspireface/runtime_module/resource_manage.h:324-332 | exactly the live handles, in ascending order |
| HandleLifetime.EveryRunKeepsInv | cpp/inspireface/runtime_module/resource_manage.h:57-110 | under every interleaving of threads all references are live, every entry stands for the object at its address, and every use count equals the number of tokens, entries and pins |
| HandleLifetime.AliveExactlyWhileHeld | cpp/inspireface/runtime_module/resource_manage.h:47-51 | at any point of any interleaving an object is alive if and only if a lease, its registry entry or a live capture session holds it |
| HandleLifetime.LeaseProtects | cpp/inspireface/runtime_module/resource_manage.h:47-72 | a lease keeps its object alive and unchanged through anything other threads do, until its own thread drops it |
| HandleLifetime.CapturePinsItsSession | cpp/inspireface/c_api/inspireface_internal.h:49-57 | every capture session pins a face session, and as long as it lives so does that face session, even after the session's handle is released |
| HandleLifetime.CreatedCapturePins | cpp/inspireface/c_api/inspireface.cc:1475-1483 | creating a capture session from a lease on a face session pins exactly that session |
| HandleLifetime.EveryCapturePins | cpp/inspireface/c_api/inspireface.cc:1481-1493 | in every reachable world every capture session pins a live face session |
| HandleLifetime.AcquireLeases | cpp/inspireface/runtime_module/resource_manage.h:309-318 | a live handle can always be acquired, and the lease is on the object the handle stands for |
| HandleLifetime.ReleaseHandsOut | cpp/inspireface/runtime_module/resource_manage.h:298-307 | a release takes the entry out at once, hands its owner to the releasing thread and destroys nothing by itself |
| HandleLifetime.DropEnds | cpp/inspireface/runtime_module/resource_manage.h:47-51 | dropping an owner destroys its object if and only if it was the last holder, and a destroyed capture passes its lease on its session to the dropping thread |
| HandleLifetime.AllocationCreates | cpp/inspireface/c_api/inspireface.cc:909-920 | an object of any other kind can be created under any fresh address, is held by its creator and changes nothing else |
| HandleLifetime.RegistrationEnters | cpp/inspireface/runtime_module/resource_manage.h:287-296 | whoever holds an object whose handle is not live can register it, and the entry is then a further holder |
| HandleLifetime.FeatureRegisters | cpp/inspireface/runtime_module/resource_manage.h:287-296 | a face feature is entered without an owner under any handle that is not live |
| HandleLifetime.ReleasedHandleCannotBeAcquired | cpp/inspireface/runtime_module/resource_manage.h:298-318 | from its release until the next registration of the same handle, every attempt to acquire it fails and changes nothing |
| HandleLifetime.RegistrationNeverCollides | cpp/inspireface/c_api/inspireface.cc:1475-1493 | registering an object held by its creator fails only if that very object is already registered |
| HandleLifetime.CreationSucceeds | cpp/inspireface/c_api/inspireface.cc:1475-1493 | whatever other threads do between the allocation of an object and its registration, the registration succeeds and enters it under its handle |
| HandleLifetime.CountersBalance | cpp/inspireface/runtime_module/resource_manage.h:334-340 | in every registry, at any time, total created equals total released plus live |
| HandleLifetime.NothingLeaks | cpp/inspireface/runtime_module/resource_manage.h:57-110 | once every handle is released and every lease dropped, no object is alive |
| Nms.Suppress | cpp/inspireface/track_module/face_track_module.cpp:365-400 | the loop over the retained list computes the recursive definition: keep the first, drop what overlaps it, go on |
| Nms.SuppressionIsSound | cpp/inspireface/track_module/face_track_module.cpp:365-400 | whatever order the sort leaves among equal confidences, retained faces pairwise do not overlap, are input faces in descending confidence, and every dropped face overlaps a retained one of at least its confidence |
| Nms.SuppressionIsIdempotent | cpp/inspireface/track_module/face_track_module.cpp:365-400 | suppressing a suppressed list again, after any legal sort, drops nothing |
| Nms.GreedyAppend | cpp/inspireface/track_module/face_track_module.cpp:376-397 | a further, less confident face is kept if and only if it overlaps none of those kept so far |
| Nms.OverlapAtIsSymmetric | cpp/inspireface/track_module/face_track_module.cpp:382-389 | the overlap test does not depend on which face is the retained one, which is all that the statements on suppression ask of it |
| Nms.IntersectionCountsCommonPoints | cpp/inspireface/track_module/face_track_module.cpp:380-386 | the intersection is the number of integer points the two boxes have in common, end points included |
| Nms.OverlapsExactly | cpp/inspireface/track_module/face_track_module.cpp:380-388 | two faces overlap if and only if their boxes have common points and the two areas together lie between one and three times the number of those points |
| Nms.DisjointNeverOverlap | cpp/inspireface/track_module/face_track_module.cpp:380-388 | faces whose boxes have no point in common never overlap |
| Nms.SameBoxIsSuppressedExactly | cpp/inspireface/track_module/face_track_module.cpp:382-389 | two faces with the same box overlap exactly when twice its area is at least (width + 1) * (height + 1) |
| Nms.TinySameBoxesAreBothKept | cpp/inspireface/track_module/face_track_module.cpp:376-397 | of two faces with one box of side 1, suppression keeps both |
| FaceTracker.FaceTracker.Nms | cpp/inspireface/track_module/face_track_module.cpp:365-400 | the tracked list becomes the suppressed sorted list and nothing else changes |
| FaceTracker.FaceTracker.DetectFace | cpp/inspireface/track_module/face_track_module.cpp:411-477 | candidates and id counter after one detection; a failing detector clears the candidates |
| FaceTracker.FaceTracker.AppendCandidateFaces | cpp/inspireface/track_module/face_track_module.cpp:259-268 | the candidates move to the end of the tracked list |
| FaceTracker.FaceTracker.TrackFaces | cpp/inspireface/track_module/face_track_module.cpp:310-321 | the erasing loop over the tracked faces computes one tracking pass, and stops at the first error |
| FaceTracker.FaceTracker.UpdateStream | cpp/inspireface/track_module/face_track_module.cpp:274-363 | the whole new state, the status and the number of detector calls of one update, error returns included |
| FaceTracker.FaceTracker.ClearTrackingFace | cpp/inspireface/track_module/face_track_module.cpp:703-706 | both lists are emptied, the id counter stays |
| FaceTracker.FaceTracker.SetTrackModeDetectInterval | cpp/inspireface/track_module/face_track_module.cpp:679-683 | only a positive interval is taken over |
| FaceTracker.FaceTracker.SetTrackLostRecoveryMode | cpp/inspireface/track_module/face_track_module.cpp:693-695 | the recovery switch is set and nothing else changes |
| FaceTracker.FaceTracker.SetMinimumFacePxSize | cpp/inspireface/track_module/face_track_module.cpp:588-592 | only a size in the int range is taken over, truncated |
| TrackerRuns.PassSucceedsExactly | cpp/inspireface/track_module/face_track_module.cpp:310-321 | a tracking pass succeeds if and only if no call of TrackFace fails |
| TrackerRuns.PassKeepsTheKept | cpp/inspireface/track_module/face_track_module.cpp:310-321 | a pass that succeeds leaves exactly the faces TrackFace said to keep, as it updated them |
| TrackerRuns.PassEndsAtFirstFailure | cpp/inspireface/track_module/face_track_module.cpp:310-321 | a failing pass loses the face that failed, keeps the earlier ones as tracked and the later ones as they were |
| TrackerRuns.FirstLargeBoxesAreTaken | cpp/inspireface/track_module/face_track_module.cpp:443-471 | the candidates are the first boxes that are large enough, at most max_detected_faces_ of them; in light-track mode every large box spends the next id |
| TrackerRuns.EveryRunKeepsInv | cpp/inspireface/track_module/face_track_module.cpp:274-363 | in every reachable state, after errors too, no candidate is pending, always-detect tracks at most max_detected_faces_ faces without ids, and light-track ids are positive, distinct and given out by the counter |
| TrackerRuns.IdsAreNeverReused | cpp/inspireface/track_module/face_track_module.cpp:455-460 | over any run an id given out before some point is tracked after it only if it was tracked at that point, so a lost or cleared id never returns |
| TrackerRuns.UpdateKeepsIds | cpp/inspireface/track_module/face_track_module.cpp:443-471 | one update adds at most max_detected_faces_ ids, all above every id given out before |
| TrackerRuns.UpdateKeepsIndex | cpp/inspireface/track_module/face_track_module.cpp:278-358 | one update calls the detector at most once, and an update without a detection just advances the index |
| TrackerRuns.DetectorNeverStale | cpp/inspireface/track_module/face_track_module.cpp:278-308 | with detection interval n, any run with n updates calls the detector, whatever else happens in it |
| TrackerRuns.DetectorRunsExactly | cpp/inspireface/track_module/face_track_module.cpp:278-329 | an update calls the detector if and only if the mode is always-detect, nothing is tracked, its index is a multiple of a positive interval, or recovery is on and TrackFace loses every tracked face |
| TrackerRuns.NoFacesOnlyAfterDetection | cpp/inspireface/track_module/face_track_module.cpp:323-358 | with recovery on, an update that succeeds and ends without faces called the detector in that update |
| TrackerUpdates.ShortestSideAboveExactly | cpp/inspireface/middleware/utils.h:172-182 | a box passes the size test if and only if both sides reach the required size plus one pixel at the scale of the preview |
| TrackerUpdates.OverlappingAreNotBothTracked | cpp/inspireface/track_module/face_track_module.cpp:283-302 | of two overlapping tracked faces at most one is tracked after an update in which detection is due, whatever the detector and TrackFace answer |
| TrackerUpdates.FaceGoesOnlyWithCause | cpp/inspireface/track_module/face_track_module.cpp:274-363 | a tracked face goes only if a face at least as confident overlaps it when detection is due, or TrackFace does not keep it |
| TrackerUpdates.DetectedFaceIsTracked | cpp/inspireface/track_module/face_track_module.cpp:302-326 | each of the first max_detected_faces_ large enough boxes of a due detection is tracked under its own new id unless TrackFace does not keep it |
| TrackerUpdates.RecoveredFaceIsTracked | cpp/inspireface/track_module/face_track_module.cpp:329-357 | the same for a detection in recovery |
| TrackerUpdates.FailedDetectionIsReported | cpp/inspireface/track_module/face_track_module.cpp:302-336 | a failing detector fails the update with its code, and no candidate is tracked |
| TrackerUpdates.RecoveryRestartsTheInterval | cpp/inspireface/track_module/face_track_module.cpp:339-340 | after a recovery the next detection by interval is exactly one interval of updates away |
| TrackerUpdates.NewFacesStandLast | cpp/inspireface/track_module/face_track_module.cpp:259-268 | after a successful detection the faces that were tracked before stand in front of the new ones |
| TrackerUpdates.SettingsAreTheLastGiven | cpp/inspireface/track_module/face_track_module.cpp:679-695 | after any run the interval, the recovery switch and the minimum size are those of the last valid call that set them |
| TrackerUpdates.ClearedForgets | cpp/inspireface/track_module/face_track_module.cpp:703-706 | after the list is cleared the next update detects, and every face tracked from then on has an id that was never given out before |
| TrackedListLimit.LimitHoldsExactly | cpp/inspireface/track_module/face_track_module.cpp:278-363 | in light-track mode, from a list within max_detected_faces_, the next update keeps it there for every frame if and only if nothing is tracked or the update does not detect because of the interval |
| TrackedListLimit.LimitHoldsOverRunsExactly | cpp/inspireface/track_module/face_track_module.cpp:278-363 | over all runs of a light-track tracker with a fixed interval the list never outgrows max_detected_faces_ if and only if the interval is off or the limit is zero |
| TrackedListLimit.LightTrackCanExceedTheLimit | cpp/inspireface/track_module/face_track_module.cpp:443-471 | the smallest witness: with a limit of one face, two light-track updates can leave two tracked faces |
| Similarity.LaneDot | cpp/inspireface/feature_hub/simd.h:15-37 | the four-lane loop and its tail compute the plain dot product, for every length |
| Similarity.ScalarDot | cpp/inspireface/feature_hub/simd.h:58-65 | the scalar loop computes the same dot product |
| Similarity.CosineSimilarity | cpp/inspireface/feature_hub/feature_hub_db.cpp:193-236 | null buffers, empty and zero features are rejected with result 0; otherwise the result is the dot product or the clamped cosine |
| Similarity.CompareFeatures | cpp/inspireface/feature_hub/feature_hub_db.cpp:184-191 | features of different or zero length are rejected |
| Similarity.CauchySchwarz | cpp/inspireface/feature_hub/feature_hub_db.cpp:221-228 | the squared dot product is at most the product of the squared lengths |
| Similarity.SimilarityIsWithinOne | cpp/inspireface/feature_hub/feature_hub_db.cpp:228-234 | the quotient is in [-1, 1] before the clamp, so the clamp changes nothing |
| Similarity.SimilarityIsSymmetric | cpp/inspireface/feature_hub/feature_hub_db.cpp:193-236 | the comparison, its rejections included, is symmetric |
| Similarity.SimilarityWithItself | cpp/inspireface/feature_hub/feature_hub_db.cpp:208-235 | a feature compares with itself as 1, unless it is empty or zero; then it is rejected |
| Similarity.PlainIsCosineForUnitFeatures | cpp/inspireface/feature_hub/feature_hub_db.cpp:193-236 | without normalisation the result is proportional to either feature, and for features of length one both modes agree |
| Similarity.SimilarityIgnoresScale | cpp/inspireface/feature_hub/feature_hub_db.cpp:208-235 | positive scaling of either feature changes nothing, rejections included |
| Similarity.SimilarityOneIsSameDirection | cpp/inspireface/feature_hub/feature_hub_db.cpp:208-235 | similarity 1 holds if and only if one feature is a positive multiple of the other |
| Smoothing.EmaFilter | cpp/inspireface/middleware/utils.h:185-205 | invalid parameters clear the history and return the input; otherwise the history is trimmed to the window and the result is its moving average |
| Smoothing.HistoryIsWindow | cpp/inspireface/middleware/utils.h:190-196 | over any run the history is exactly the last min(n, max) inputs, oldest first |
| Smoothing.EmaMovesTowardNewest | cpp/inspireface/middleware/utils.h:197-205 | each input pulls the average toward itself by the fraction alpha of its distance |
| Smoothing.EmaAtItsLimits | cpp/inspireface/middleware/utils.h:197-205 | alpha 1 follows the newest input, alpha 0 stays with the oldest of the window |
| Smoothing.FilterRunIsBetween | cpp/inspireface/middleware/utils.h:185-205 | after any run the result lies within the range of the last max inputs |
| Smoothing.VectorEmaFilter | cpp/inspireface/middleware/utils.h:209-245 | invalid or empty input clears the history, a vector of another size starts it over, and the nested loops compute the average of the window |
| Smoothing.VectorRunIsScalarRuns | cpp/inspireface/middleware/utils.h:209-245 | over any run of vectors of one size each coordinate is the scalar filter run on that coordinate |
| Smoothing.VectorEmaKeepsTheSum | cpp/inspireface/middleware/utils.h:233-243 | a coordinate sum common to the window, such as 1, is preserved |
| Smoothing.JoiningContinuesTheRun | cpp/inspireface/middleware/utils.h:217-228 | a vector of the same size continues the run instead of restarting it |
| CropBoxes.AlignedSquareFits | cpp/inspireface/middleware/utils.h:100-126 | empty exactly when the stride does not fit; otherwise a square inside the box, on its centre, whose side is the largest multiple of the stride that fits the shorter side |
| CropBoxes.GetNewBox | cpp/inspireface/middleware/utils.h:128-170 | the stepwise shifts compute the fitted box; invalid input gives the empty box |
| CropBoxes.FittingScaleIsLargest | cpp/inspireface/middleware/utils.h:133-134 | one scale serves both sides, and no larger scale within the request would keep both sides within the image |
| CropBoxes.PlacedIsNearest | cpp/inspireface/middleware/utils.h:146-164 | each side keeps its size and is moved by the least distance that brings it into the image |
| CropBoxes.CropKeepsTheCentre | cpp/inspireface/middleware/utils.h:133-169 | both sides are scaled by one factor, and along an axis on which the scaled side fits the centre stays, up to rounding |
| CropBoxes.FittedBoxIsInside | cpp/inspireface/middleware/utils.h:146-169 | after truncation the box lies within the last column and row of the image |
| CropBoxes.LivenessCropIsInside | cpp/inspireface/pipeline_module/face_pipeline_module.cpp:175-181 | the liveness crop, aligned to the stride of the backend or not, lies in the image |

## Left out

- Neural networks and image warping: detections, `TrackFace` answers, quality values and pixel buffers are arbitrary inputs.
- Track-by-detect mode: `BYTETracker` is not part of this model, so `FaceTracker.Mode` has the other two modes only.
- `FaceObjectInternal` beyond id, box and confidence: landmarks, their smoothing cache and the tracking count do not feed back into the frame loop except through `TrackFace`, whose answers are arbitrary.
- Blacking out tracked regions before a detection: it changes the image the detector sees, and the detector's answer is arbitrary here.
- Floating-point rounding, NaN and infinity: reals are exact, so the checks for finite values have no counterpart. The overlap test keeps the two cases of a division by zero.
- Overflow of `int` coordinates, areas, frame indices and track ids, and of the 64-bit creation counters: these are unbounded; timestamps and durations are 64-bit and wrap.
- The order std::sort leaves among equal confidences: an arbitrary input of each frame, required to be a descending reordering. For candidates the order is unique, so `CandidateRanking.Sort` is the sort.
- Memory model: every mutex-protected registry call and every change of a use count is one atomic step, as is every call of a capture session.
- Allocation: an allocator that never hands out the address of a live object is assumed by the lifetime protocol; that addresses may be reused afterwards is modelled.
- Handle lookup in the capture-session calls: the session class starts behind it; acquiring and pinning is the subject of `HandleLifetime`.
- Writing the update structure through out-pointers and the C enumerations: the methods return values.
- Invalid entries of an in-memory feature, the 32-bit size limit, and everything of the feature hub beyond the comparison of two features: a guarded wrapper over an embedded database.
- CaptureVerdict.AcceptedInRunExactly: does not cover a face with track id -1 of which a stable duration is required, for which the stability filter is wrong (`StabilityClock.SentinelPassesUnseen`).
- HandleLifetime.RegistrationNeverCollides: says nothing about face features, which are registered by address without an owner, so the registry does not keep their memory in use.
- HandleLifetime.ReleasedHandleCannotBeAcquired: is about one registry; a handle number may be live in the registry of another kind.
- Smoothing.VectorRunIsScalarRuns: covers runs of one vector size and fixed valid parameters; a change of size or an invalid call restarts the window, as the contract of `VectorEmaFilter` says.
- Frame conversion, launch configuration, logging, timers, file and display functions, language bindings and samples.
