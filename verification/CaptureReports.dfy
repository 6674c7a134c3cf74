// What the selector reports over whole runs: which frames it processes, the phase and the progress
// of each report, when a capture is finished, and what a candidate records.
module CaptureReports {
  import opened Basics
  import opened CaptureTypes
  import opened CandidateRanking
  import opened CapturePolicy
  import opened CaptureRuns
  import opened StabilityClock

  // ----- Which frames are processed -----

  function ProcessedFrames(c: Config, calls: seq<Call>): seq<GoodFrame> {
    if calls == [] then []
    else
      var front, call := calls[..|calls| - 1], calls[|calls| - 1];
      ProcessedFrames(c, front)
      + if call.Feed? && Processes(After(Fresh(c), front), call.frame) then [call.frame] else []
  }

  ghost predicate Remembers(s: State, frames: seq<GoodFrame>) {
    && (s.hasInput <==> frames != [])
    && (frames != [] ==>
          && s.lastFrameId == frames[|frames| - 1].frameId
          && s.lastTimestampMs == frames[|frames| - 1].timestampMs)
    && (forall i, j :: 0 <= i < j < |frames| ==>
          frames[i].frameId < frames[j].frameId && frames[i].timestampMs < frames[j].timestampMs)
  }

  lemma NotedFrame(s: State, call: Call)
    requires s.status == Ok
    ensures var t := Next(s, call).state;
            if call.Feed? && Processes(s, call.frame) then
              t.hasInput && t.lastFrameId == call.frame.frameId && t.lastTimestampMs == call.frame.timestampMs
            else t.hasInput == s.hasInput && t.lastFrameId == s.lastFrameId && t.lastTimestampMs == s.lastTimestampMs
  {
    hide VerdictOf, NextTrack, Score, CandidateRanking.AddCandidate, CollectProgress, GateProgress;
  }

  lemma RemembersOneMore(s: State, t: State, frames: seq<GoodFrame>, f: GoodFrame)
    requires Remembers(s, frames) && t.hasInput && t.lastFrameId == f.frameId && t.lastTimestampMs == f.timestampMs
    requires s.hasInput ==> s.lastFrameId < f.frameId && s.lastTimestampMs < f.timestampMs
    ensures Remembers(t, frames + [f])
  {
    var more := frames + [f];
    forall i, j | 0 <= i < j < |more| ensures more[i].frameId < more[j].frameId && more[i].timestampMs < more[j].timestampMs {
      if j == |frames| {
        assert frames[|frames| - 1].frameId == s.lastFrameId;
      }
    }
  }

  lemma {:induction false} RunRemembers(c: Config, calls: seq<Call>)
    ensures Remembers(After(Fresh(c), calls), ProcessedFrames(c, calls))
  {
    hide Next, Remembers, NeedsPixels;
    if calls == [] {
      RemembersNothing(c);
    } else {
      var front, call := calls[..|calls| - 1], calls[|calls| - 1];
      var s := After(Fresh(c), front);
      RunRemembers(c, front);
      RunTracks(c, front);
      NotedFrame(s, call);
      hide Tracks;
      if call.Feed? && Processes(s, call.frame) {
        RemembersOneMore(s, Next(s, call).state, ProcessedFrames(c, front), call.frame);
      } else {
        assert ProcessedFrames(c, front) + [] == ProcessedFrames(c, front);
        RemembersAsBefore(s, Next(s, call).state, ProcessedFrames(c, front));
      }
    }
  }

  lemma RemembersNothing(c: Config)
    ensures Remembers(Fresh(c), [])
  {
  }

  lemma RemembersAsBefore(s: State, t: State, frames: seq<GoodFrame>)
    requires Remembers(s, frames)
    requires t.hasInput == s.hasInput && t.lastFrameId == s.lastFrameId && t.lastTimestampMs == s.lastTimestampMs
    ensures Remembers(t, frames)
  {
  }

  ghost predicate NewerThanAll(f: Frame, frames: seq<GoodFrame>) {
    forall i :: 0 <= i < |frames| ==> frames[i].frameId < f.frameId && frames[i].timestampMs < f.timestampMs
  }

  ghost predicate WellGiven(c: Config, f: Frame) {
    f.imageWidth > 0 && f.imageHeight > 0 && (Sharpness in c.filters || Brightness in c.filters ==> f.image.Some?)
  }

  // A frame is processed if and only if the capture is not finished, the frame has a size and the
  // pixels that are needed, and its number and time exceed those of every frame processed before.
  // Any other frame is refused with the reason, and changes nothing.
  lemma {:induction false} ProcessedExactly(c: Config, calls: seq<Call>, f: GoodFrame)
    ensures var s, frames := After(Fresh(c), calls), ProcessedFrames(c, calls);
            && (Processes(s, f) <==> !s.finished && WellGiven(c, f) && NewerThanAll(f, frames))
            && (!s.finished && !Processes(s, f) ==> Next(s, Feed(f)).state == s)
            && (!s.finished && !Processes(s, f) ==>
                  Next(s, Feed(f)).status ==
                    if f.imageWidth > 0 && f.imageHeight > 0
                        && !NewerThanAll(f, frames) then FrameOutOfOrder else InvalidParam)
            && (s.finished || Processes(s, f) ==> Next(s, Feed(f)).status == Ok)
  {
    RunRemembers(c, calls);
    RunTracks(c, calls);
    var s, frames := After(Fresh(c), calls), ProcessedFrames(c, calls);
    hide After, ProcessedFrames, Tracks;
    NewestIsEnough(s, f, frames);
    NextIsCollectionStep(s, Feed(f));
    hide ProcessFrame;
  }

  lemma NewestIsEnough(s: State, f: Frame, frames: seq<GoodFrame>)
    requires Remembers(s, frames)
    ensures NewerThanAll(f, frames) <==> !(s.hasInput && (f.frameId <= s.lastFrameId || f.timestampMs <= s.lastTimestampMs))
  {
    if frames != [] {
      assert frames[|frames| - 1].frameId == s.lastFrameId;
    }
  }

  // ----- The track that is still held -----

  // Frame a shows the track with a real id that was seen last, and every later empty frame fell
  // within the grace period.
  ghost predicate HeldSince(c: Config, h: seq<Sight>, a: nat) {
    && a < |h| && h[a].Seen? && h[a].id >= 0
    && forall k :: a < k < |h| ==> !h[k].Seen? && (h[k].Blank? ==> h[k].t - h[a].t <= c.trackLostGraceMs)
  }

  // The id of a track that an empty frame at this time still counts as only lost for a moment.
  ghost predicate StillHeld(c: Config, h: seq<Sight>, now: u64, id: int) {
    exists a: nat :: HeldSince(c, h, a) && a < |h| && h[a].Seen? && h[a].id == id && now - h[a].t <= c.trackLostGraceMs
  }

  ghost predicate ShowsHeld(c: Config, track: Track, h: seq<Sight>) {
    if track.activeId >= 0 then exists a: nat ::
        HeldSince(c, h, a) && a < |h| && h[a].Seen? && h[a].id == track.activeId && h[a].t == track.lastSeen
    else forall a: nat :: !HeldSince(c, h, a)
  }

  lemma HeldOneMore(c: Config, h: seq<Sight>, o: Sight, a: nat)
    ensures HeldSince(c, h + [o], a) <==>
      || (a == |h| && o.Seen? && o.id >= 0)
      || (HeldSince(c, h, a) && !o.Seen? && (o.Blank? ==> o.t - h[a].t <= c.trackLostGraceMs))
  {
    var g := h + [o];
    assert forall k :: 0 <= k < |h| ==> g[k] == h[k];
    if HeldSince(c, h, a) && !o.Seen? {
      assert forall k :: a < k < |g| ==> g[k] == if k == |h| then o else h[k];
    }
    if HeldSince(c, g, a) && a < |h| {
      assert g[|h|] == o;
      forall k | a < k < |h| ensures !h[k].Seen? && (h[k].Blank? ==> h[k].t - h[a].t <= c.trackLostGraceMs) {
        assert g[k] == h[k];
      }
    }
  }

  lemma HeldIsUnique(c: Config, h: seq<Sight>, a: nat, b: nat)
    requires HeldSince(c, h, a) && HeldSince(c, h, b)
    ensures a == b
  {
  }

  lemma FrameShowsHeld(c: Config, track: Track, h: seq<Sight>, now: u64, f: Frame)
    requires ShowsHeld(c, track, h) && Ordered(h, now) && now <= f.timestampMs
    requires f.imageWidth > 0 && f.imageHeight > 0
    ensures ShowsHeld(c, TrackAfter(c, track, f), h + [SightOf(f)])
  {
    var o, t := SightOf(f), TrackAfter(c, track, f);
    hide Moved;
    forall a: nat ensures HeldSince(c, h + [o], a) <==>
      || (a == |h| && o.Seen? && o.id >= 0)
      || (HeldSince(c, h, a) && !o.Seen? && (o.Blank? ==> o.t - h[a].t <= c.trackLostGraceMs))
    {
      HeldOneMore(c, h, o, a);
    }
    if o.Seen? {
      assert o.id >= 0 ==> HeldSince(c, h + [o], |h|) && (h + [o])[|h|] == o;
    } else if track.activeId >= 0 {
      var a: nat :| HeldSince(c, h, a) && a < |h| && h[a].Seen? && h[a].id == track.activeId && h[a].t == track.lastSeen;
      assert (h + [o])[a] == h[a];
      forall b: nat | HeldSince(c, h, b) ensures b == a {
        HeldIsUnique(c, h, a, b);
      }
    }
  }

  lemma {:induction false} RunShowsHeld(c: Config, calls: seq<Call>)
    ensures ShowsHeld(c, After(Fresh(c), calls).track, Sights(c, calls))
  {
    if calls != [] {
      var front, call := calls[..|calls| - 1], calls[|calls| - 1];
      var s := After(Fresh(c), front);
      RunShowsHeld(c, front);
      RunFits(c, front);
      TrackStep(s, call);
      hide Next, TrackAfter, Agrees, ShowsHeld;
      if call.Feed? && Processes(s, call.frame) {
        FrameShowsHeld(c, s.track, Sights(c, front), s.lastTimestampMs, call.frame);
      } else {
        assert Sights(c, front) + [] == Sights(c, front);
      }
    }
  }

  lemma HeldDecides(c: Config, track: Track, h: seq<Sight>, now: u64, t: u64)
    requires ShowsHeld(c, track, h) && Ordered(h, now) && now <= t
    ensures track.activeId >= 0 && Elapsed(t, track.lastSeen) <= c.trackLostGraceMs <==>
            exists id :: StillHeld(c, h, t, id)
    ensures track.activeId >= 0 && Elapsed(t, track.lastSeen) <= c.trackLostGraceMs ==> StillHeld(c, h, t, track.activeId)
  {
    hide HeldSince;
    if track.activeId >= 0 {
      var a: nat :| HeldSince(c, h, a) && a < |h| && h[a].Seen? && h[a].id == track.activeId && h[a].t == track.lastSeen;
      assert h[a].t <= t;
      assert Elapsed(t, track.lastSeen) == t - h[a].t;
      assert t - h[a].t <= c.trackLostGraceMs ==> StillHeld(c, h, t, track.activeId);
      forall id | StillHeld(c, h, t, id) ensures t - h[a].t <= c.trackLostGraceMs {
        var b: nat :| HeldSince(c, h, b) && b < |h| && h[b].Seen? && h[b].id == id && t - h[b].t <= c.trackLostGraceMs;
        HeldIsUnique(c, h, a, b);
      }
    } else {
      assert forall id :: !StillHeld(c, h, t, id);
    }
  }

  // ----- The phase of a report -----

  // Some frame was accepted at least the whole collection time before.
  predicate WindowOver(c: Config, accepted: seq<Candidate>, t: u64) {
    accepted != [] && t - accepted[0].timestampMs >= c.maxCollectDurationMs
  }

  // The chosen face of the frame has an extent.
  predicate ShowsFace(f: Frame) {
    f.faces != [] && Selected(f.faces).rect.width >= 1 && Selected(f.faces).rect.height >= 1
  }

  // What a processed frame without a usable face reports. It never finishes the capture.
  lemma FacelessOutcome(s: State, f: GoodFrame)
    requires s.status == Ok && Processes(s, f) && !ShowsFace(f)
    ensures var o := Next(s, Feed(f));
            && !o.state.finished && o.state.results == s.results && o.state.collecting == s.collecting
            && o.report.frameId == f.frameId && o.report.timestampMs == f.timestampMs
                   && o.report.evaluated == s.config.filters
            && o.report.candidateCount == |s.results| && o.report.metrics == NO_METRICS
    ensures var o := Next(s, Feed(f));
            f.faces == [] ==>
              && o.report.rejects == {NoFace} && o.report.trackCount == 0
              && if s.track.activeId >= 0 && Elapsed(f.timestampMs, s.track.lastSeen) <= s.config.trackLostGraceMs
                 then o.report.phase == TrackLost && o.report.trackId == s.track.activeId
                 else o.report.phase == Idle && o.report.trackId == NO_ID
    ensures var o := Next(s, Feed(f));
            f.faces != [] ==>
              && o.report.phase == Idle && FaceOutOfBounds in o.report.rejects
              && o.report.trackId == Selected(f.faces).trackId && o.report.trackCount == Selected(f.faces).trackCount
  {
    hide CollectProgress, GateProgress, VerdictOf, UsableFrame;
  }

  // What a processed frame with a usable face does to the capture: it is accepted when no flag is
  // raised, and it finishes the capture, accepted or not, when the collection time is over.
  lemma FaceOutcome(s: State, f: GoodFrame)
    requires s.status == Ok && Processes(s, f) && ShowsFace(f)
    ensures var o := Next(s, Feed(f));
            var v, accepts := VerdictOf(s, f, Selected(f.faces)), Accepts(s, Feed(f));
            && (accepts <==> v.rejects == {})
            && o.state.collecting == (s.collecting || accepts)
            && (s.collecting ==> o.state.collectionStartMs == s.collectionStartMs)
            && (!s.collecting && accepts ==> o.state.collectionStartMs == f.timestampMs)
            && (o.state.finished <==>
                  o.state.collecting && Elapsed(f.timestampMs, o.state.collectionStartMs) >= s.config.maxCollectDurationMs)
            && o.report.phase == (
                 if o.state.finished then Finished
                 else if !accepts then Stabilizing
                 else if |o.state.results| >= s.config.outputCount
                         && Elapsed(f.timestampMs, o.state.collectionStartMs) >= s.config.collectDurationMs then Ready
                 else Collecting)
    ensures var o := Next(s, Feed(f));
            var face, v := Selected(f.faces), VerdictOf(s, f, Selected(f.faces));
            && o.report.frameId == f.frameId && o.report.timestampMs == f.timestampMs
                   && o.report.evaluated == s.config.filters
            && o.report.trackId == face.trackId && o.report.trackCount == face.trackCount
            && o.report.rejects == v.rejects && o.report.metrics == v.metrics
            && o.report.currentScore == Score(s.config, v.metrics, face.trackCount)
            && o.report.candidateCount == |o.state.results|
  {
    var s1 := Noted(s, f);
    assert VerdictOf(s1, f, Selected(f.faces)) == VerdictOf(s, f, Selected(f.faces));
    hide Judge, NextTrack, TextureOf, Score, CandidateRanking.AddCandidate, CollectProgress, GateProgress;
  }

  // The phase of every report, and when a frame finishes the capture, in terms of the frames
  // processed and accepted so far, this one included.
  lemma {:induction false} PhaseExactly(c: Config, calls: seq<Call>, f: GoodFrame)
    requires Processes(After(Fresh(c), calls), f)
    ensures var s, accepted := After(Fresh(c), calls), Accepted(c, calls + [Feed(f)]);
            var o := Next(s, Feed(f));
            && o.status == Ok
            && (o.state.finished <==>
                  ShowsFace(f) && WindowOver(c, accepted, f.timestampMs))
            && o.report.phase == (
                 if f.faces == [] then
                   if exists id :: StillHeld(c, Sights(c, calls), f.timestampMs, id) then TrackLost else Idle
                 else if !ShowsFace(f) then Idle
                 else if WindowOver(c, accepted, f.timestampMs) then Finished
                 else if !Accepts(s, Feed(f)) then Stabilizing
                 else if |o.state.results| >= c.outputCount && f.timestampMs - accepted[0].timestampMs >= c.collectDurationMs
                 then Ready else Collecting)
            && (o.report.phase == TrackLost ==> StillHeld(c, Sights(c, calls), f.timestampMs, o.report.trackId))
  {
    var s, all := After(Fresh(c), calls), calls + [Feed(f)];
    var o := Next(s, Feed(f));
    assert all[..|calls|] == calls;
    RunTracks(c, calls);
    RunTracks(c, all);
    assert After(Fresh(c), all) == o.state;
    ProcessedTime(s, f);
    NextIsCollectionStep(s, Feed(f));
    assert f.faces == [] ==> !ShowsFace(f);
    hide Next, Accepted, CandidateRanking.AddCandidate, CollectProgress, CollectionStep, Selected, ShowsFace;
    if !ShowsFace(f) {
      FacelessOutcome(s, f);
      RunShowsHeld(c, calls);
      RunFits(c, calls);
      HeldDecides(c, s.track, Sights(c, calls), s.lastTimestampMs, f.timestampMs);
    } else {
      FaceOutcome(s, f);
    }
  }

  // READY takes enough time to collect and less than the whole collection time, so a capture whose
  // two durations are equal is never ready.
  lemma {:induction false} ReadyNeedsRoom(c: Config, calls: seq<Call>, f: GoodFrame)
    requires Processes(After(Fresh(c), calls), f) && Next(After(Fresh(c), calls), Feed(f)).report.phase == Ready
    ensures c.collectDurationMs < c.maxCollectDurationMs
    ensures var accepted := Accepted(c, calls + [Feed(f)]);
            && accepted != []
            && c.collectDurationMs <= f.timestampMs - accepted[0].timestampMs < c.maxCollectDurationMs
  {
    PhaseExactly(c, calls, f);
    StartIsFirstAccepted(c, calls, f);
    AcceptedIsCollecting(After(Fresh(c), calls), f);
    hide After, Next, Processes, Accepted, Accepts;
  }

  lemma AcceptedIsCollecting(s: State, f: GoodFrame)
    requires s.status == Ok && Accepts(s, Feed(f))
    ensures Next(s, Feed(f)).state.collecting
  {
    FaceOutcome(s, f);
    hide Next, VerdictOf;
  }

  // ----- When a capture is finished -----

  // Some processed frame with a usable face came when the collection time was over.
  ghost predicate RanOut(c: Config, h: seq<Sight>, accepted: seq<Candidate>) {
    exists k :: 0 <= k < |h| && h[k].Seen? && WindowOver(c, accepted, h[k].t)
  }

  lemma RanOutOneMore(c: Config, h: seq<Sight>, accepted: seq<Candidate>, o: Sight, now: seq<Candidate>)
    requires !RanOut(c, h, accepted) && forall k :: 0 <= k < |h| ==> h[k].t < o.t
    requires now == accepted || (|now| == |accepted| + 1 && now[..|accepted|] == accepted
        && now[|accepted|].timestampMs == o.t)
    ensures RanOut(c, h + [o], now) <==> o.Seen? && WindowOver(c, now, o.t)
  {
    var g := h + [o];
    assert g[|h|] == o;
    forall k | 0 <= k < |h| ensures !(h[k].Seen? && WindowOver(c, now, h[k].t)) {
      assert accepted != [] ==> now[0] == now[..|accepted|][0];
      assert !(h[k].Seen? && WindowOver(c, accepted, h[k].t));
    }
    assert forall k :: 0 <= k < |h| ==> g[k] == h[k];
  }

  lemma AcceptedOneMore(c: Config, calls: seq<Call>, f: GoodFrame)
    requires Processes(After(Fresh(c), calls), f)
    ensures var accepted, now := Accepted(c, calls), Accepted(c, calls + [Feed(f)]);
            now == accepted || (|now| == |accepted| + 1 && now[..|accepted|] == accepted
                && now[|accepted|].timestampMs == f.timestampMs)
  {
    assert (calls + [Feed(f)])[..|calls|] == calls;
    RunTracks(c, calls);
    ProcessedTime(After(Fresh(c), calls), f);
    NextIsCollectionStep(After(Fresh(c), calls), Feed(f));
    hide Next, After, CandidateRanking.AddCandidate, CollectProgress, Processes, Accepts, Offered;
  }

  lemma {:induction false} SameHistory(c: Config, calls: seq<Call>, call: Call)
    requires call.Feed? ==> !Processes(After(Fresh(c), calls), call.frame)
    ensures Sights(c, calls + [call]) == Sights(c, calls) && Accepted(c, calls + [call]) == Accepted(c, calls)
  {
    assert (calls + [call])[..|calls|] == calls;
    hide After, Processes, Next;
  }

  lemma {:induction false} LongerHistory(c: Config, calls: seq<Call>, f: GoodFrame)
    requires Processes(After(Fresh(c), calls), f)
    ensures Sights(c, calls + [Feed(f)]) == Sights(c, calls) + [SightOf(f)]
  {
    assert (calls + [Feed(f)])[..|calls|] == calls;
    hide After, SightOf;
  }

  // A capture is finished if and only if it was finished by hand, or a usable face was processed
  // when the collection time, counted from the first accepted frame, was over.
  lemma {:induction false} FinishedExactly(c: Config, calls: seq<Call>)
    ensures After(Fresh(c), calls).finished <==> Finish in calls || RanOut(c, Sights(c, calls), Accepted(c, calls))
  {
    if calls != [] {
      var front, call := calls[..|calls| - 1], calls[|calls| - 1];
      assert calls == front + [call];
      FinishedExactly(c, front);
      FinishedOneMore(c, front, call);
    }
  }

  lemma FinishedOneMore(c: Config, calls: seq<Call>, call: Call)
    requires After(Fresh(c), calls).finished <==> Finish in calls || RanOut(c, Sights(c, calls), Accepted(c, calls))
    ensures After(Fresh(c), calls + [call]).finished <==>
            Finish in calls + [call] || RanOut(c, Sights(c, calls + [call]), Accepted(c, calls + [call]))
  {
    var s := After(Fresh(c), calls);
    assert (calls + [call])[..|calls|] == calls;
    assert After(Fresh(c), calls + [call]) == Next(s, call).state;
    RunTracks(c, calls);
    hide After, Accepted, Sights, RanOut;
    if call.Feed? && Processes(s, call.frame) {
      ProcessedFinishes(c, calls, call.frame);
      hide Next, Processes;
    } else {
      SameHistory(c, calls, call);
      NextIsCollectionStep(s, call);
      hide Next, Processes;
    }
  }

  lemma ProcessedFinishes(c: Config, calls: seq<Call>, f: GoodFrame)
    requires Processes(After(Fresh(c), calls), f) && !RanOut(c, Sights(c, calls), Accepted(c, calls))
    ensures Next(After(Fresh(c), calls), Feed(f)).state.finished
       <==> RanOut(c, Sights(c, calls + [Feed(f)]), Accepted(c, calls + [Feed(f)]))
  {
    PhaseExactly(c, calls, f);
    RunFits(c, calls);
    ProcessedTime(After(Fresh(c), calls), f);
    AcceptedOneMore(c, calls, f);
    LongerHistory(c, calls, f);
    hide After, Accepted, Sights, RanOut, Next, WindowOver;
    RanOutOneMore(c, Sights(c, calls), Accepted(c, calls), SightOf(f), Accepted(c, calls + [Feed(f)]));
  }

  // ----- The progress of a report -----

  // From one half to one, in proportion to the time collected.
  predicate IsCollecting(p: real, elapsed: int, duration: int) {
    if elapsed >= duration then p == 1.0 else (2.0 * p - 1.0) * duration as real == elapsed as real
  }

  // Half the least of the shares that are counted: how steady the face is, and how long its track
  // compared with what is required. Without such a requirement there is no progress yet.
  predicate IsGate(c: Config, stability: real, trackCount: int, p: real) {
    var steady, counted := Stability in c.filters && stability >= 0.0, TrackCount in c.filters && c.minTrackCount > 0;
    if !steady && !counted then p == 0.0
    else
      var g := 2.0 * p;
      && g <= 1.0
      && (steady ==> g <= stability)
      && (counted ==> g * c.minTrackCount as real <= MaxInt(0, trackCount) as real)
      && (|| g == 1.0
          || (steady && g == stability)
          || (counted && g * c.minTrackCount as real == MaxInt(0, trackCount) as real))
  }

  lemma CollectingExactly(c: Config, elapsed: u64)
    ensures IsCollecting(CollectProgress(c, elapsed), elapsed, c.collectDurationMs)
  {
    if 0 < c.collectDurationMs {
      var d := c.collectDurationMs as real;
      DivLess(elapsed as real, d, 1.0);
      DivLess(elapsed as real, d, 0.0);
      assert elapsed as real / d * d == elapsed as real;
    }
  }

  lemma CountedShare(trackCount: int, least: int, g: real)
    requires least > 0
    ensures var share := Clamp01(MaxInt(0, trackCount) as real / least as real);
            && share * least as real <= MaxInt(0, trackCount) as real
            && (share == 1.0 || share * least as real == MaxInt(0, trackCount) as real)
            && (g <= share ==> g * least as real <= MaxInt(0, trackCount) as real)
  {
    var n, d := MaxInt(0, trackCount) as real, least as real;
    DivLess(n, d, 0.0);
    DivLess(n, d, 1.0);
    assert n / d * d == n;
    DivLess(n, d, g);
  }

  lemma GateExactly(c: Config, r: Report)
    ensures IsGate(c, r.metrics.stabilityScore, r.trackCount, GateProgress(c, r))
  {
    if TrackCount in c.filters && c.minTrackCount > 0 {
      CountedShare(r.trackCount, c.minTrackCount, 2.0 * GateProgress(c, r));
    }
    hide Clamp01;
  }

  lemma ReportedProgress(s: State, f: GoodFrame)
    requires s.status == Ok && Processes(s, f)
    ensures var o := Next(s, Feed(f));
            o.report.progress ==
              if o.report.phase == Ready || o.report.phase == Finished then 1.0
              else if o.state.collecting then CollectProgress(s.config, Elapsed(f.timestampMs, o.state.collectionStartMs))
              else GateProgress(s.config, o.report)
  {
    hide VerdictOf, NextTrack, Score, CandidateRanking.AddCandidate, CollectProgress, Elapsed, CountRejects;
  }

  // The progress of every report of a processed frame.
  lemma {:induction false} ProgressExactly(c: Config, calls: seq<Call>, f: GoodFrame)
    requires Processes(After(Fresh(c), calls), f)
    ensures var o, accepted := Next(After(Fresh(c), calls), Feed(f)), Accepted(c, calls + [Feed(f)]);
            if o.report.phase == Ready || o.report.phase == Finished then o.report.progress == 1.0
            else if accepted != [] then
              IsCollecting(o.report.progress, f.timestampMs - accepted[0].timestampMs, c.collectDurationMs)
            else IsGate(c, o.report.metrics.stabilityScore, o.report.trackCount, o.report.progress)
  {
    var s := After(Fresh(c), calls);
    var o := Next(s, Feed(f));
    hide After, Next, Accepted, CollectProgress, GateProgress, IsGate, IsCollecting;
    StartIsFirstAccepted(c, calls, f);
    ReportedProgress(s, f);
    CollectingExactly(c, Elapsed(f.timestampMs, o.state.collectionStartMs));
    GateExactly(c, o.report);
  }

  lemma StartIsFirstAccepted(c: Config, calls: seq<Call>, f: GoodFrame)
    requires Processes(After(Fresh(c), calls), f)
    ensures var s, accepted := After(Fresh(c), calls), Accepted(c, calls + [Feed(f)]);
            var t := Next(s, Feed(f)).state;
            && s.status == Ok && s.config == c
            && (t.collecting <==> accepted != [])
            && (accepted != [] ==> t.collectionStartMs == accepted[0].timestampMs <= f.timestampMs)
  {
    var all := calls + [Feed(f)];
    assert all[..|calls|] == calls;
    RunTracks(c, calls);
    RunTracks(c, all);
    ProcessedTime(After(Fresh(c), calls), f);
    hide Next, Accepted, Processes;
    assert After(Fresh(c), all) == Next(After(Fresh(c), calls), Feed(f)).state;
  }

  // ----- What a candidate records -----

  // An accepted frame is recorded with its number, time and chosen face, and with the metrics and
  // the score its report shows.
  lemma OfferedExactly(s: State, f: GoodFrame)
    requires s.status == Ok && Accepts(s, Feed(f))
    ensures var x, r, face := Offered(s, Feed(f)), Next(s, Feed(f)).report, Selected(f.faces);
            && x.frameId == f.frameId && x.timestampMs == f.timestampMs
            && x.face == face && x.trackId == face.trackId
            && x.metrics == r.metrics && x.score == r.currentScore
  {
    FaceOutcome(s, f);
    hide Next, VerdictOf;
  }

  // ----- The report of a finished capture -----

  // The report of the last processed frame.
  function LatestReport(c: Config, calls: seq<Call>): Report {
    if calls == [] then EMPTY_REPORT
    else
      var front, call := calls[..|calls| - 1], calls[|calls| - 1];
      if call.Feed? && Processes(After(Fresh(c), front), call.frame) then Next(After(Fresh(c), front), call).report
      else LatestReport(c, front)
  }

  lemma ReportIsRemembered(s: State, call: Call)
    requires s.status == Ok
    ensures Next(s, call).state.lastReport ==
              if call.Feed? && Processes(s, call.frame) then Next(s, call).report else s.lastReport
  {
    hide VerdictOf, NextTrack, Score, CandidateRanking.AddCandidate, Completed;
  }

  lemma {:induction false} LastReportIsLatest(c: Config, calls: seq<Call>)
    ensures After(Fresh(c), calls).lastReport == LatestReport(c, calls)
  {
    if calls != [] {
      var front := calls[..|calls| - 1];
      LastReportIsLatest(c, front);
      RunTracks(c, front);
      ReportIsRemembered(After(Fresh(c), front), calls[|calls| - 1]);
      hide Next, Processes, Tracks;
    }
  }

  // A finished capture, and one that is being finished, repeats its last report under the number
  // and time of the call, as finished and complete.
  lemma {:induction false} FinishedRepeats(c: Config, calls: seq<Call>, call: Call)
    requires After(Fresh(c), calls).finished || call.Finish?
    ensures var s, frames := After(Fresh(c), calls), ProcessedFrames(c, calls);
            var o := Next(s, call);
            && o.status == Ok
            && o.report == LatestReport(c, calls).(
                 frameId := o.report.frameId, timestampMs := o.report.timestampMs,
                 phase := Finished, progress := 1.0, candidateCount := |s.results|)
            && (call.Feed? ==> o.report.frameId == call.frame.frameId && o.report.timestampMs == call.frame.timestampMs)
            && (call.Finish? && frames != [] ==>
                  o.report.frameId == frames[|frames| - 1].frameId
                      && o.report.timestampMs == frames[|frames| - 1].timestampMs)
  {
    RunTracks(c, calls);
    LastReportIsLatest(c, calls);
    RunRemembers(c, calls);
    hide After, ProcessedFrames, LatestReport, Tracks, ProcessFrame;
  }
}
