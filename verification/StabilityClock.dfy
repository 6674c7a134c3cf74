// The stability filter against the whole history of processed frames: the clock the selector
// keeps is exactly the length of the steady stretch that the history shows.
module StabilityClock {
  import opened Basics
  import opened CaptureTypes
  import opened CapturePolicy
  import CaptureRuns

  type pos = x: int | x > 0 witness 1

  // What a processed frame shows: no face, a chosen face without extent, or a usable face.
  datatype Sight = Blank(t: u64) | Blurred(t: u64) | Seen(t: u64, id: int, rect: Rect, width: pos, height: pos)

  function SightOf(f: Frame): Sight
    requires f.imageWidth > 0 && f.imageHeight > 0
  {
    if f.faces == [] then Blank(f.timestampMs)
    else if !Usable(Selected(f.faces).rect) then Blurred(f.timestampMs)
    else Seen(f.timestampMs, Selected(f.faces).trackId, Selected(f.faces).rect, f.imageWidth, f.imageHeight)
  }

  // The frames a run processed, in order.
  function Sights(c: Config, calls: seq<Call>): seq<Sight> {
    if calls == [] then []
    else
      var front, call := calls[..|calls| - 1], calls[|calls| - 1];
      Sights(c, front)
      + if call.Feed? && Processes(After(Fresh(c), front), call.frame) then [SightOf(call.frame)] else []
  }

  function LastSeen(h: seq<Sight>): Option<Sight>
    ensures LastSeen(h).Some? ==> LastSeen(h).value.Seen?
  {
    if h == [] then None
    else if h[|h| - 1].Seen? then Some(h[|h| - 1])
    else LastSeen(h[..|h| - 1])
  }

  // ----- The motion and size limits -----

  // Twice the distance between the centres of two sides.
  function TwiceShift(start: int, length: int, nextStart: int, nextLength: int): int {
    2 * nextStart + nextLength - (2 * start + length)
  }

  // The centre moved by at most `limit`, counted in image widths along x and image heights along
  // y. All lengths are multiplied by 2 * width * height, so nothing is divided.
  predicate CentreWithin(shiftX: int, shiftY: int, width: pos, height: pos, limit: real) {
    var dx, dy := (shiftX * height) as real, (shiftY * width) as real;
    var reach := 2.0 * (width * height) as real * limit;
    dx * dx + dy * dy <= reach * reach
  }

  // The area changed by at most the given share of the previous area, which is not empty.
  predicate SizeWithin(previous: Rect, current: Rect, limit: real) {
    previous.Area() > 0 && AbsInt(current.Area() - previous.Area()) as real <= limit * previous.Area() as real
  }

  predicate WithinLimits(c: Config, previous: Rect, current: Rect, width: pos, height: pos) {
    && SizeWithin(previous, current, c.maxSizeChangeRatio)
    && CentreWithin(TwiceShift(previous.x, previous.width, current.x, current.width),
                    TwiceShift(previous.y, previous.height, current.y, current.height),
                    width, height, c.maxCenterMotionRatio)
  }

  lemma ScaledSquares(k: real, p: real, q: real, m: real)
    requires k > 0.0
    ensures p * p + q * q <= m * m <==> (k * p) * (k * p) + (k * q) * (k * q) <= (k * m) * (k * m)
  {
    var d := m * m - (p * p + q * q);
    SameSign(k, d);
    SameSign(k, k * d);
    CommonSquare(k, p, q, m);
  }

  lemma CommonSquare(k: real, p: real, q: real, m: real)
    ensures k * (k * (m * m - (p * p + q * q))) == (k * m) * (k * m) - ((k * p) * (k * p) + (k * q) * (k * q))
  {
  }

  lemma SameSign(k: real, d: real)
    requires k > 0.0
    ensures k * d >= 0.0 <==> d >= 0.0
  {
    assert d > 0.0 ==> k * d > 0.0;
    assert d < 0.0 ==> k * d < 0.0;
  }

  // The distance of two centres as a share of the image length.
  lemma ShiftMeans(start: int, length: int, nextStart: int, nextLength: int, along: pos, across: pos)
    ensures ((nextStart as real + nextLength as real * 0.5) - (start as real + length as real * 0.5)) / along as real
              * (2.0 * (along * across) as real)
         == (TwiceShift(start, length, nextStart, nextLength) * across) as real
  {
    var half := (nextStart as real + nextLength as real * 0.5) - (start as real + length as real * 0.5);
    var share := half / along as real;
    assert share * along as real == half;
    assert 2.0 * half == TwiceShift(start, length, nextStart, nextLength) as real;
    assert (along * across) as real == along as real * across as real;
    assert share * (2.0 * (along as real * across as real)) == 2.0 * (share * along as real) * across as real;
  }

  lemma SizeMeans(previous: Rect, current: Rect, limit: real)
    ensures SizeWithin(previous, current, limit) <==>
      var before, after := previous.Area() as real, current.Area() as real;
      before > 0.0 && Abs(after - before) / before <= limit
  {
    if previous.Area() > 0 {
      DivLess(Abs(current.Area() as real - previous.Area() as real), previous.Area() as real, limit);
    }
  }

  lemma MovedExactly(c: Config, previous: Rect, current: Rect, width: pos, height: pos)
    ensures Moved(c, previous, current, width, height) <==> !WithinLimits(c, previous, current, width, height)
  {
    SizeMeans(previous, current, c.maxSizeChangeRatio);
    var dx := ((current.x as real + current.width as real * 0.5)
               - (previous.x as real + previous.width as real * 0.5)) / width as real;
    var dy := ((current.y as real + current.height as real * 0.5)
               - (previous.y as real + previous.height as real * 0.5)) / height as real;
    CentreMeans(previous, current, width, height, c.maxCenterMotionRatio, dx, dy);
    hide SizeWithin, CentreWithin;
  }

  lemma CentreMeans(previous: Rect, current: Rect, width: pos, height: pos, limit: real, dx: real, dy: real)
    requires dx == ((current.x as real + current.width as real * 0.5)
                    - (previous.x as real + previous.width as real * 0.5)) / width as real
    requires dy == ((current.y as real + current.height as real * 0.5)
                    - (previous.y as real + previous.height as real * 0.5)) / height as real
    ensures CentreWithin(TwiceShift(previous.x, previous.width, current.x, current.width),
                         TwiceShift(previous.y, previous.height, current.y, current.height), width, height, limit)
       <==> dx * dx + dy * dy <= limit * limit
  {
    ShiftMeans(previous.x, previous.width, current.x, current.width, width, height);
    ShiftMeans(previous.y, previous.height, current.y, current.height, height, width);
    var k := 2.0 * (width * height) as real;
    assert height * width == width * height;
    assert k > 0.0;
    ScaledSquares(k, dx, dy, limit);
  }

  // ----- Undisturbed stretches -----

  // Whether the frame o, coming after the frames h, leaves the last sighting undisturbed: the
  // same face within the motion and size limits, a frame without a usable face, or an empty
  // frame within the grace period of a track with a real id.
  predicate Undisturbed(c: Config, h: seq<Sight>, o: Sight) {
    var last := LastSeen(h);
    && last.Some?
    && match o
       case Blank(t) => last.value.id >= 0 && t - last.value.t <= c.trackLostGraceMs
       case Blurred(_) => true
       case Seen(_, id, rect, width, height) => id == last.value.id && WithinLimits(c, last.value.rect, rect, width, height)
  }

  // Frame a shows a usable face, and no later frame of h disturbs it.
  ghost predicate Steady(c: Config, h: seq<Sight>, a: nat) {
    && a < |h| && h[a].Seen?
    && forall k :: a < k < |h| ==> Undisturbed(c, h[..k], h[k])
  }

  lemma SteadyOneMore(c: Config, h: seq<Sight>, o: Sight, a: nat)
    ensures Steady(c, h + [o], a) <==> (a == |h| && o.Seen?) || (Steady(c, h, a) && Undisturbed(c, h, o))
  {
    var g := h + [o];
    assert g[..|h|] == h;
    forall k | 0 <= k < |h| ensures g[..k] == h[..k] {
    }
    if a < |h| && Steady(c, g, a) {
      assert Undisturbed(c, g[..|h|], g[|h|]);
      forall k | a < k < |h| ensures Undisturbed(c, h[..k], h[k]) {
        assert Undisturbed(c, g[..k], g[k]);
      }
    }
  }

  // ----- The clock and the history -----

  ghost predicate ClockAt(c: Config, h: seq<Sight>, since: u64, a: nat) {
    && Steady(c, h, a) && h[a].t == since
    && forall b: nat :: Steady(c, h, b) ==> a <= b
  }

  ghost predicate Ordered(h: seq<Sight>, now: u64) {
    && (forall i, j :: 0 <= i < j < |h| ==> h[i].t < h[j].t)
    && (forall i :: 0 <= i < |h| ==> h[i].t <= now)
  }

  // The track the selector keeps, against the history: with an active track, the clock shows the
  // start of the longest steady stretch; without one, only a face with id NO_ID can be steady.
  ghost predicate Agrees(c: Config, track: Track, h: seq<Sight>) {
    var last := LastSeen(h);
    if track.activeId != NO_ID then
      && last.Some? && last.value.id == track.activeId
      && track.lastRect == Some(last.value.rect) && track.lastSeen == last.value.t
      && exists a: nat :: ClockAt(c, h, track.stableSince, a)
    else forall a: nat :: Steady(c, h, a) ==> last.Some? && last.value.id == NO_ID
  }

  function TrackAfter(c: Config, track: Track, f: Frame): Track
    requires f.imageWidth > 0 && f.imageHeight > 0
  {
    if f.faces == [] then
      if track.activeId >= 0 && Elapsed(f.timestampMs, track.lastSeen) <= c.trackLostGraceMs then track else NO_TRACK
    else if !Usable(Selected(f.faces).rect) then track
    else NextTrack(c, track, Selected(f.faces), f)
  }

  lemma LastSeenOneMore(h: seq<Sight>, o: Sight)
    ensures LastSeen(h + [o]) == if o.Seen? then Some(o) else LastSeen(h)
  {
    assert (h + [o])[..|h|] == h;
  }

  lemma LastSeenIsOld(h: seq<Sight>, now: u64)
    requires Ordered(h, now)
    ensures LastSeen(h).Some? ==> LastSeen(h).value.t <= now
  {
    if h != [] && !h[|h| - 1].Seen? {
      LastSeenIsOld(h[..|h| - 1], now);
    }
  }

  lemma ClockContinues(c: Config, h: seq<Sight>, o: Sight, since: u64, a: nat)
    requires ClockAt(c, h, since, a) && Undisturbed(c, h, o)
    ensures ClockAt(c, h + [o], since, a)
  {
    forall b: nat ensures Steady(c, h + [o], b) <==> (b == |h| && o.Seen?) || Steady(c, h, b) {
      SteadyOneMore(c, h, o, b);
    }
  }

  lemma ClockRestarts(c: Config, h: seq<Sight>, o: Sight)
    requires o.Seen? && !(exists a: nat :: Steady(c, h, a) && Undisturbed(c, h, o))
    ensures ClockAt(c, h + [o], o.t, |h|)
  {
    forall b: nat ensures Steady(c, h + [o], b) <==> b == |h| {
      SteadyOneMore(c, h, o, b);
    }
  }

  lemma NothingSteady(c: Config, h: seq<Sight>, o: Sight)
    requires !o.Seen? && !(exists a: nat :: Steady(c, h, a) && Undisturbed(c, h, o))
    ensures forall a: nat :: !Steady(c, h + [o], a)
  {
    forall a: nat ensures !Steady(c, h + [o], a) {
      SteadyOneMore(c, h, o, a);
    }
  }

  lemma BlankAgrees(c: Config, track: Track, h: seq<Sight>, now: u64, f: Frame)
    requires Agrees(c, track, h) && Ordered(h, now) && now <= f.timestampMs
    requires f.imageWidth > 0 && f.imageHeight > 0 && f.faces == []
    ensures Agrees(c, TrackAfter(c, track, f), h + [SightOf(f)])
  {
    var o := SightOf(f);
    LastSeenOneMore(h, o);
    LastSeenIsOld(h, now);
    if track.activeId != NO_ID && Undisturbed(c, h, o) {
      var a: nat :| ClockAt(c, h, track.stableSince, a);
      ClockContinues(c, h, o, track.stableSince, a);
    } else {
      NothingSteady(c, h, o);
    }
  }

  lemma BlurredAgrees(c: Config, track: Track, h: seq<Sight>, f: Frame)
    requires Agrees(c, track, h)
    requires f.imageWidth > 0 && f.imageHeight > 0 && f.faces != [] && !Usable(Selected(f.faces).rect)
    ensures Agrees(c, TrackAfter(c, track, f), h + [SightOf(f)])
  {
    var o := SightOf(f);
    LastSeenOneMore(h, o);
    if track.activeId != NO_ID {
      var a: nat :| ClockAt(c, h, track.stableSince, a);
      ClockContinues(c, h, o, track.stableSince, a);
    } else {
      forall a: nat | Steady(c, h + [o], a) ensures LastSeen(h).Some? && LastSeen(h).value.id == NO_ID {
        SteadyOneMore(c, h, o, a);
      }
    }
  }

  lemma SeenAgrees(c: Config, track: Track, h: seq<Sight>, f: Frame)
    requires Stability in c.filters && Agrees(c, track, h)
    requires f.imageWidth > 0 && f.imageHeight > 0 && f.faces != [] && Usable(Selected(f.faces).rect)
    ensures Agrees(c, TrackAfter(c, track, f), h + [SightOf(f)])
  {
    var o := SightOf(f);
    LastSeenOneMore(h, o);
    if track.lastRect.Some? {
      MovedExactly(c, track.lastRect.value, o.rect, o.width, o.height);
    }
    hide Moved, WithinLimits;
    if o.id != NO_ID {
      if track.activeId == o.id && Undisturbed(c, h, o) {
        var a: nat :| ClockAt(c, h, track.stableSince, a);
        ClockContinues(c, h, o, track.stableSince, a);
      } else {
        ClockRestarts(c, h, o);
      }
    }
  }

  lemma FrameAgrees(c: Config, track: Track, h: seq<Sight>, now: u64, f: Frame)
    requires Stability in c.filters && Agrees(c, track, h) && Ordered(h, now) && now <= f.timestampMs
    requires f.imageWidth > 0 && f.imageHeight > 0
    ensures Agrees(c, TrackAfter(c, track, f), h + [SightOf(f)])
  {
    if f.faces == [] {
      BlankAgrees(c, track, h, now, f);
    } else if !Usable(Selected(f.faces).rect) {
      BlurredAgrees(c, track, h, f);
    } else {
      SeenAgrees(c, track, h, f);
    }
  }

  // ----- Runs -----

  // The fields that settling a frame leaves alone.
  ghost predicate SameInput(s: State, t: State) {
    && t.config == s.config && t.status == s.status && t.track == s.track
    && t.hasInput == s.hasInput && t.lastTimestampMs == s.lastTimestampMs
  }

  lemma AcceptSameInput(s: State, r: Report, c: Candidate)
    ensures SameInput(s, AcceptFrame(s, r, c).state)
  {
  }

  lemma RejectSameInput(s: State, r: Report)
    ensures SameInput(s, RejectFrame(s, r).state)
  {
  }

  lemma ProcessedTrack(s: State, f: GoodFrame)
    requires f.imageWidth > 0 && f.imageHeight > 0
    ensures SameInput(s.(track := TrackAfter(s.config, s.track, f)), ProcessFrame(s, f).state)
  {
    if f.faces != [] && Usable(Selected(f.faces).rect) {
      var face := Selected(f.faces);
      var v := VerdictOf(s, f, face);
      var s1 := s.(track := NextTrack(s.config, s.track, face, f));
      var r := FaceReport(s, f, face).(
        metrics := v.metrics, rejects := v.rejects, currentScore := Score(s.config, v.metrics, face.trackCount));
      AcceptSameInput(s1, r, CandidateIn(s, f, face));
      RejectSameInput(s1, r);
    }
  }

  // What a call does to the track and to the selector's last timestamp.
  lemma TrackStep(s: State, call: Call)
    requires s.status == Ok
    ensures var t := Next(s, call).state;
            if call.Feed? && Processes(s, call.frame) then
              && SameInput(Noted(s, call.frame).(track := TrackAfter(s.config, s.track, call.frame)), t)
              && (s.hasInput ==> s.lastTimestampMs < call.frame.timestampMs)
            else SameInput(s, t)
  {
    if call.Feed? && Processes(s, call.frame) {
      ProcessedTrack(Noted(s, call.frame), call.frame);
    }
  }

  // No field the clock subtracts lies in the future, so no elapsed time ever wraps around.
  ghost predicate InThePast(s: State) {
    && s.track.stableSince <= s.lastTimestampMs && s.track.lastSeen <= s.lastTimestampMs
    && (!s.hasInput ==> s.lastTimestampMs == 0)
  }

  ghost predicate HistoryFits(c: Config, s: State, h: seq<Sight>) {
    && s.config == c && s.status == Ok
    && InThePast(s)
    && Ordered(h, s.lastTimestampMs) && (h != [] ==> s.hasInput)
    && (Stability in c.filters ==> Agrees(c, s.track, h))
  }

  lemma OrderedOneMore(h: seq<Sight>, now: u64, o: Sight, t: u64)
    requires Ordered(h, now) && o.t == t && now <= t && (h != [] ==> now < t)
    ensures Ordered(h + [o], t)
  {
  }

  lemma SightTime(f: Frame)
    requires f.imageWidth > 0 && f.imageHeight > 0
    ensures SightOf(f).t == f.timestampMs
  {
  }

  lemma TrackInThePast(s: State, f: GoodFrame)
    requires InThePast(s) && Processes(s, f)
    ensures var track := TrackAfter(s.config, s.track, f);
            track.stableSince <= f.timestampMs && track.lastSeen <= f.timestampMs
  {
    hide Moved;
  }

  lemma StepFits(c: Config, s: State, h: seq<Sight>, call: Call)
    requires HistoryFits(c, s, h)
    ensures HistoryFits(c, Next(s, call).state,
                        h + if call.Feed? && Processes(s, call.frame) then [SightOf(call.frame)] else [])
  {
    hide UpdateStep, TrackAfter, Agrees, Ordered, SightOf;
    assert h != [] ==> s.hasInput;
    TrackStep(s, call);
    if call.Feed? && Processes(s, call.frame) {
      TrackInThePast(s, call.frame);
      SightTime(call.frame);
      OrderedOneMore(h, s.lastTimestampMs, SightOf(call.frame), call.frame.timestampMs);
      if Stability in c.filters {
        FrameAgrees(c, s.track, h, s.lastTimestampMs, call.frame);
      }
    } else {
      assert h + [] == h;
    }
  }

  lemma {:induction false} RunFits(c: Config, calls: seq<Call>)
    ensures HistoryFits(c, After(Fresh(c), calls), Sights(c, calls))
  {
    if calls != [] {
      var front := calls[..|calls| - 1];
      RunFits(c, front);
      StepFits(c, After(Fresh(c), front), Sights(c, front), calls[|calls| - 1]);
    }
  }

  lemma ProcessedTime(s: State, f: GoodFrame)
    requires s.status == Ok && Processes(s, f)
    ensures Next(s, Feed(f)).state.lastTimestampMs == f.timestampMs
    ensures s.hasInput ==> s.lastTimestampMs < f.timestampMs
  {
    TrackStep(s, Feed(f));
    hide UpdateStep, TrackAfter;
  }

  // The collection never starts after the last processed frame.
  lemma {:induction false} StartIsInThePast(c: Config, calls: seq<Call>)
    ensures var s := After(Fresh(c), calls); s.collecting ==> s.hasInput && s.collectionStartMs <= s.lastTimestampMs
  {
    CaptureRuns.RunTracks(c, calls);
    hide CaptureRuns.Accepted, After;
  }

  // Every elapsed time the selector computes while it processes a frame, in any run, is the plain
  // difference: since the last sighting, since the face became stable, and since the collection
  // started, before this frame or with it.
  lemma {:induction false} ElapsedNeverWraps(c: Config, calls: seq<Call>, f: GoodFrame)
    requires Processes(After(Fresh(c), calls), f)
    ensures var s := After(Fresh(c), calls);
            && Elapsed(f.timestampMs, s.track.lastSeen) == f.timestampMs - s.track.lastSeen
            && Elapsed(f.timestampMs, TrackAfter(c, s.track, f).stableSince)
               == f.timestampMs - TrackAfter(c, s.track, f).stableSince
    ensures var s := After(Fresh(c), calls);
            s.collecting ==> Elapsed(f.timestampMs, s.collectionStartMs) == f.timestampMs - s.collectionStartMs
    ensures var t := Next(After(Fresh(c), calls), Feed(f)).state;
            t.collecting ==> Elapsed(f.timestampMs, t.collectionStartMs) == f.timestampMs - t.collectionStartMs
  {
    RunFits(c, calls);
    var s := After(Fresh(c), calls);
    ProcessedTime(s, f);
    StartIsInThePast(c, calls);
    StartIsInThePast(c, calls + [Feed(f)]);
    assert (calls + [Feed(f)])[..|calls|] == calls;
    hide Agrees, Ordered, Next;
  }

  // ----- The gate -----

  // The face of frame f, processed after the run `calls`, passes the stability check.
  predicate PassesGate(c: Config, calls: seq<Call>, f: GoodFrame) {
    var s := After(Fresh(c), calls);
    && Processes(s, f) && f.faces != [] && Usable(Selected(f.faces).rect)
    && Unstable !in VerdictOf(s, f, Selected(f.faces)).rejects
  }

  // Some steady stretch of h began at least stableDurationMs before now.
  ghost predicate SteadySince(c: Config, h: seq<Sight>, now: u64) {
    exists a: nat :: Steady(c, h, a) && now - h[a].t >= c.stableDurationMs
  }

  // The history up to and including f shows its face steady for at least stableDurationMs.
  ghost predicate SteadyLongEnough(c: Config, calls: seq<Call>, f: GoodFrame)
    requires f.imageWidth > 0 && f.imageHeight > 0
  {
    SteadySince(c, Sights(c, calls) + [SightOf(f)], f.timestampMs)
  }

  lemma ClockDecides(c: Config, h: seq<Sight>, since: u64, now: u64)
    requires exists a: nat :: ClockAt(c, h, since, a)
    requires Ordered(h, now)
    ensures since <= now && (SteadySince(c, h, now) <==> now - since >= c.stableDurationMs)
  {
    var a: nat :| ClockAt(c, h, since, a);
    forall b: nat | Steady(c, h, b) ensures h[a].t <= h[b].t {
      assert a < b ==> h[a].t < h[b].t;
    }
  }

  lemma UnstableMeans(c: Config, s: State, f: GoodFrame, face: Face)
    requires s.config == c && f.imageWidth > 0 && f.imageHeight > 0 && Stability in c.filters
    ensures Unstable in VerdictOf(s, f, face).rejects
       <==> Elapsed(f.timestampMs, NextTrack(c, s.track, face, f).stableSince) < c.stableDurationMs
  {
  }

  lemma SeenClock(c: Config, track: Track, h: seq<Sight>, now: u64, f: Frame)
    requires Stability in c.filters && Agrees(c, track, h) && Ordered(h, now) && now <= f.timestampMs
    requires h != [] ==> now < f.timestampMs
    requires f.imageWidth > 0 && f.imageHeight > 0 && f.faces != [] && Usable(Selected(f.faces).rect)
    requires Selected(f.faces).trackId != NO_ID
    ensures var since := NextTrack(c, track, Selected(f.faces), f).stableSince;
            && since <= f.timestampMs
            && (SteadySince(c, h + [SightOf(f)], f.timestampMs) <==> f.timestampMs - since >= c.stableDurationMs)
  {
    FrameAgrees(c, track, h, now, f);
    ClockDecides(c, h + [SightOf(f)], TrackAfter(c, track, f).stableSince, f.timestampMs);
  }

  // The stability filter passes a frame exactly when the history shows a steady stretch of the
  // required length, for every face whose id is not the sentinel.
  lemma GateIsExact(c: Config, calls: seq<Call>, f: GoodFrame)
    requires Stability in c.filters
    requires Processes(After(Fresh(c), calls), f) && f.faces != [] && Usable(Selected(f.faces).rect)
    requires Selected(f.faces).trackId != NO_ID
    ensures PassesGate(c, calls, f) <==> SteadyLongEnough(c, calls, f)
  {
    var s := After(Fresh(c), calls);
    RunFits(c, calls);
    SeenClock(c, s.track, Sights(c, calls), s.lastTimestampMs, f);
    UnstableMeans(c, s, f, Selected(f.faces));
  }

  // The gate is right about every frame of every run whose chosen face carries this id.
  ghost predicate GateRightFor(c: Config, id: int) {
    forall calls: seq<Call>, f: GoodFrame {:trigger PassesGate(c, calls, f)} ::
      Processes(After(Fresh(c), calls), f) && f.faces != [] && Usable(Selected(f.faces).rect)
      && Selected(f.faces).trackId == id
      ==> (PassesGate(c, calls, f) <==> SteadyLongEnough(c, calls, f))
  }

  // A first frame, one stable duration after time zero, whose face carries the sentinel id.
  function SentinelFrame(c: Config): GoodFrame {
    Frame(1, 1, Some(Image(1, 1, 1, [0])), [Face(NO_ID, 0, Rect(0, 0, 1, 1), 0.0, 0.0, 0.0, [])], 0, c.stableDurationMs)
  }

  // Its face has been seen for no time at all, and it passes.
  lemma SentinelPassesUnseen(c: Config)
    requires Stability in c.filters && c.stableDurationMs > 0
    ensures PassesGate(c, [], SentinelFrame(c)) && !SteadyLongEnough(c, [], SentinelFrame(c))
  {
    var f := SentinelFrame(c);
    UnstableMeans(c, Fresh(c), f, Selected(f.faces));
    assert Sights(c, []) == [];
  }

  // The filter keeps its promise for an id exactly when the id is not the sentinel or nothing is
  // asked of it.
  lemma GateRightExactly(c: Config, id: int)
    requires Stability in c.filters
    ensures GateRightFor(c, id) <==> id != NO_ID || c.stableDurationMs == 0
  {
    if id != NO_ID {
      forall calls: seq<Call>, f: GoodFrame
        | Processes(After(Fresh(c), calls), f) && f.faces != [] && Usable(Selected(f.faces).rect)
            && Selected(f.faces).trackId == id
        ensures PassesGate(c, calls, f) <==> SteadyLongEnough(c, calls, f)
      {
        GateIsExact(c, calls, f);
      }
    } else if c.stableDurationMs == 0 {
      forall calls: seq<Call>, f: GoodFrame
        | Processes(After(Fresh(c), calls), f) && f.faces != [] && Usable(Selected(f.faces).rect)
        ensures PassesGate(c, calls, f) && SteadyLongEnough(c, calls, f)
      {
        RunFits(c, calls);
        UnstableMeans(c, After(Fresh(c), calls), f, Selected(f.faces));
        SteadyOneMore(c, Sights(c, calls), SightOf(f), |Sights(c, calls)|);
      }
    } else {
      SentinelPassesUnseen(c);
      assert Selected(SentinelFrame(c).faces).trackId == id;
    }
  }

  // An accepted frame comes at the end of a steady stretch of the required length.
  lemma AcceptedIsStable(c: Config, calls: seq<Call>, call: Call)
    requires Stability in c.filters
    requires Accepts(After(Fresh(c), calls), call) && Selected(call.frame.faces).trackId != NO_ID
    ensures SteadyLongEnough(c, calls, call.frame)
  {
    GateIsExact(c, calls, call.frame);
  }
}
