// Whole runs of the selector: what every call keeps, how the retained list relates to all
// frames accepted since the last reset, and how state, progress and the window evolve.
module CaptureRuns {
  import opened Basics
  import opened CaptureTypes
  import opened CandidateRanking
  import opened RankingHistory
  import opened CapturePolicy

  // ----- One call, seen from the collection -----

  // What a call amounts to for the collection: nothing, the end, an accepted frame, or a
  // processed frame at time t that was not accepted, with or without a usable face.
  datatype Kind = Ignored | Ended | Taken(c: Candidate) | Passed(t: u64, usable: bool)

  function KindOf(s: State, call: Call): Kind {
    if call.Finish? then Ended
    else if !Processes(s, call.frame) then Ignored
    else if Accepts(s, call) then Taken(Offered(s, call))
    else Passed(call.frame.timestampMs, call.frame.faces != [] && Usable(Selected(call.frame.faces).rect))
  }

  ghost predicate SameCollection(s: State, t: State) {
    && t.config == s.config && t.status == s.status
    && t.results == s.results && t.collecting == s.collecting && t.collectionStartMs == s.collectionStartMs
  }

  ghost predicate TakenStep(s: State, o: Outcome, c: Candidate) {
    var start := if s.collecting then s.collectionStartMs else c.timestampMs;
    var elapsed := Elapsed(c.timestampMs, start);
    && !s.finished && o.status == Ok && o.state.status == Ok && o.state.config == s.config
    && o.state.lastTimestampMs == c.timestampMs && o.state.hasInput
    && (s.hasInput ==> s.lastTimestampMs < c.timestampMs)
    && o.state.results == AddCandidate(s.config, s.results, c)
    && o.state.collecting && o.state.collectionStartMs == start
    && o.state.finished == (elapsed >= s.config.maxCollectDurationMs)
    && o.report.phase == (
         if elapsed >= s.config.maxCollectDurationMs then Finished
         else if |o.state.results| >= s.config.outputCount && elapsed >= s.config.collectDurationMs then Ready
         else Collecting)
    && o.report.progress == (if o.report.phase == Collecting then CollectProgress(s.config, elapsed) else 1.0)
  }

  ghost predicate PassedStep(s: State, o: Outcome, t: u64, usable: bool) {
    && !s.finished && o.status == Ok && SameCollection(s, o.state)
    && o.state.lastTimestampMs == t && o.state.hasInput
    && (s.hasInput ==> s.lastTimestampMs < t)
    && (o.state.finished <==>
          usable && s.collecting && Elapsed(t, s.collectionStartMs) >= s.config.maxCollectDurationMs)
    && (if o.state.finished then o.report.phase == Finished
        else if usable then o.report.phase == Stabilizing
        else o.report.phase == TrackLost || o.report.phase == Idle)
    && (o.state.finished ==> o.report.progress == 1.0)
    && (!o.state.finished && s.collecting ==> o.report.progress == CollectProgress(s.config, Elapsed(t, s.collectionStartMs)))
    && (!s.collecting ==> 0.0 <= o.report.progress <= 0.5)
  }

  ghost predicate CollectionStep(s: State, o: Outcome, kind: Kind) {
    match kind
    case Ignored => o.state == s && (o.status == Ok <==> s.finished) && (s.finished ==> o.report.progress == 1.0)
    case Ended => o.state == s.(finished := true) && o.status == Ok && o.report.progress == 1.0
    case Taken(c) => TakenStep(s, o, c)
    case Passed(t, usable) => PassedStep(s, o, t, usable)
  }

  lemma EmptyFramePasses(s: State, f: Frame)
    requires !s.finished && s.status == Ok && s.hasInput && s.lastTimestampMs == f.timestampMs
    ensures PassedStep(s.(hasInput := false), EmptyFrame(s, f), f.timestampMs, false)
  {
  }

  lemma UnusableFramePasses(s: State, f: Frame, face: Face)
    requires !s.finished && s.status == Ok && s.hasInput && s.lastTimestampMs == f.timestampMs
    ensures PassedStep(s.(hasInput := false), UnusableFrame(s, f, face), f.timestampMs, false)
  {
  }

  lemma RejectedFramePasses(s: State, r: Report)
    requires !s.finished && s.status == Ok && s.hasInput && s.lastTimestampMs == r.timestampMs
    ensures PassedStep(s.(hasInput := false), RejectFrame(s, r), r.timestampMs, true)
  {
  }

  lemma AcceptedFrameIsTaken(s: State, r: Report, c: Candidate)
    requires !s.finished && s.status == Ok && s.hasInput && s.lastTimestampMs == r.timestampMs == c.timestampMs
    ensures TakenStep(s.(hasInput := false), AcceptFrame(s, r, c), c)
  {
  }

  lemma NextIsCollectionStep(s: State, call: Call)
    requires s.status == Ok
    ensures CollectionStep(s, Next(s, call), KindOf(s, call))
  {
    hide Judge, Score, NextTrack, TextureOf;
    if call.Feed? && Processes(s, call.frame) {
      var f := call.frame;
      var s1 := Noted(s, f);
      if f.faces == [] {
        EmptyFramePasses(s1, f);
      } else if !Usable(Selected(f.faces).rect) {
        UnusableFramePasses(s1, f, Selected(f.faces));
      } else {
        var face := Selected(f.faces);
        var v := VerdictOf(s1, f, face);
        assert v == VerdictOf(s, f, face);
        var s2 := s1.(track := NextTrack(s.config, s.track, face, f));
        var r := FaceReport(s1, f, face).(
          metrics := v.metrics, rejects := v.rejects, currentScore := Score(s.config, v.metrics, face.trackCount));
        if v.rejects == {} {
          AcceptedFrameIsTaken(s2, r, CandidateIn(s, f, face));
        } else {
          RejectedFramePasses(s2, r);
        }
      }
    }
  }

  // ----- What every call keeps -----

  ghost predicate Inv(s: State) {
    && s.status == Ok && ValidConfig(s.config)
    && GoodResults(s.config, s.results)
    && (s.collecting <==> s.results != [])
    && (s.collecting ==> s.hasInput && s.collectionStartMs <= s.lastTimestampMs)
    && (forall i :: 0 <= i < |s.results| ==> s.collectionStartMs <= s.results[i].timestampMs <= s.lastTimestampMs)
  }

  lemma InvMakesNewer(s: State, o: Outcome, c: Candidate)
    requires Inv(s) && TakenStep(s, o, c)
    ensures Newer(c, s.results)
  {
  }

  lemma StepKeepsInv(s: State, o: Outcome, kind: Kind)
    requires Inv(s) && CollectionStep(s, o, kind)
    ensures Inv(o.state)
  {
    if kind.Taken? {
      TakenKeepsInv(s, o, kind.c);
    }
  }

  lemma TakenKeepsInv(s: State, o: Outcome, c: Candidate)
    requires Inv(s) && TakenStep(s, o, c)
    ensures Inv(o.state)
  {
    InvMakesNewer(s, o, c);
    AddCandidateKeepsGood(s.config, s.results, c);
    var e := AddCandidateEffect(s.config, s.results, c);
    EffectKeepsTimes(s.config, s.results, c, o.state.results, e, o.state.collectionStartMs);
  }

  lemma EffectKeepsTimes(config: Config, before: seq<Candidate>, c: Candidate, after: seq<Candidate>, e: Effect, start: u64)
    requires HasEffect(config, before, c, after, e) && config.outputCount > 0
    requires start <= c.timestampMs
    requires forall i :: 0 <= i < |before| ==> start <= before[i].timestampMs <= c.timestampMs
    ensures after != [] && forall i :: 0 <= i < |after| ==> start <= after[i].timestampMs <= c.timestampMs
  {
    match e
    case Dropped(d) =>
      assert before[d] == after[d];
    case Replaced(d, p) =>
      WithoutKeepsTimes(before, d, start, c.timestampMs);
      InsertAtKeepsTimes(Without(before, d), p, c, start);
    case Inserted(p) =>
      InsertAtKeepsTimes(before, p, c, start);
  }

  lemma WithoutKeepsTimes(s: seq<Candidate>, d: nat, start: u64, end: u64)
    requires d < |s| && forall i :: 0 <= i < |s| ==> start <= s[i].timestampMs <= end
    ensures forall i :: 0 <= i < |s| - 1 ==> start <= Without(s, d)[i].timestampMs <= end
  {
  }

  lemma InsertAtKeepsTimes(s: seq<Candidate>, p: nat, c: Candidate, start: u64)
    requires p <= |s| && start <= c.timestampMs
    requires forall i :: 0 <= i < |s| ==> start <= s[i].timestampMs <= c.timestampMs
    ensures forall i :: 0 <= i < |s| + 1 ==> start <= InsertAt(s, p, c)[i].timestampMs <= c.timestampMs
  {
  }

  lemma {:induction false} RunKeepsInv(s: State, calls: seq<Call>)
    requires Inv(s)
    ensures Inv(After(s, calls))
  {
    if calls != [] {
      var front, call := calls[..|calls| - 1], calls[|calls| - 1];
      RunKeepsInv(s, front);
      NextIsCollectionStep(After(s, front), call);
      StepKeepsInv(After(s, front), Next(After(s, front), call), KindOf(After(s, front), call));
    }
  }

  lemma FreshIsGood(c: Config)
    requires ValidConfig(c)
    ensures Inv(Fresh(c))
  {
  }

  // ----- The retained list against all accepted frames -----

  // The frames accepted by a run of a freshly configured selector, in order.
  function Accepted(c: Config, calls: seq<Call>): seq<Candidate> {
    if calls == [] then []
    else
      var front, call := calls[..|calls| - 1], calls[|calls| - 1];
      var kind := KindOf(After(Fresh(c), front), call);
      Accepted(c, front) + (if kind.Taken? then [kind.c] else [])
  }

  // How the state of a run relates to the frames it accepted.
  ghost predicate Tracks(s: State, accepted: seq<Candidate>) {
    && s.results == Retained(s.config, accepted)
    && Increasing(accepted)
    && (s.collecting <==> accepted != [])
    && (accepted != [] ==> s.collectionStartMs == accepted[0].timestampMs && s.hasInput)
    && (forall i :: 0 <= i < |accepted| ==> accepted[i].timestampMs <= s.lastTimestampMs)
    // Only the last accepted frame can lie beyond the collection window, and it closes it.
    && (forall i :: 0 <= i < |accepted| - 1 ==>
          accepted[i].timestampMs - accepted[0].timestampMs < s.config.maxCollectDurationMs)
    && (!s.finished && accepted != [] ==>
          accepted[|accepted| - 1].timestampMs - accepted[0].timestampMs < s.config.maxCollectDurationMs)
  }

  lemma TakenTracks(s: State, o: Outcome, c: Candidate, accepted: seq<Candidate>)
    requires Tracks(s, accepted) && TakenStep(s, o, c)
    ensures Tracks(o.state, accepted + [c])
  {
    var all := accepted + [c];
    RetainedAppend(s.config, accepted, c);
    hide Retained, AddCandidate, CollectProgress;
    assert all[0] == if accepted == [] then c else accepted[0];
  }

  lemma StepTracks(s: State, o: Outcome, kind: Kind, accepted: seq<Candidate>)
    requires Tracks(s, accepted) && CollectionStep(s, o, kind) && s.status == Ok
    ensures Tracks(o.state, accepted + if kind.Taken? then [kind.c] else []) && o.state.status == Ok
    ensures o.state.config == s.config
  {
    hide Retained, AddCandidate, CollectProgress, Increasing;
    if kind.Taken? {
      hide Tracks;
      TakenTracks(s, o, kind.c, accepted);
    } else {
      assert accepted + [] == accepted;
    }
  }

  // Every run: the list is the accepted frames folded in order, the window opens with the first
  // of them, and at most one of them, the last, lies at or beyond its end.
  lemma {:induction false} RunTracks(c: Config, calls: seq<Call>)
    ensures Tracks(After(Fresh(c), calls), Accepted(c, calls))
    ensures After(Fresh(c), calls).config == c && After(Fresh(c), calls).status == Ok
  {
    if calls != [] {
      var front, call := calls[..|calls| - 1], calls[|calls| - 1];
      var s := After(Fresh(c), front);
      RunTracks(c, front);
      NextIsCollectionStep(s, call);
      StepTracks(s, Next(s, call), KindOf(s, call), Accepted(c, front));
    }
  }

  // Top-N: with de-duplication off, the results are all accepted frames, ranked and cut.
  lemma {:induction false} OnlineTopN(c: Config, calls: seq<Call>)
    requires c.minCandidateIntervalMs == 0
    ensures After(Fresh(c), calls).results == Truncate(Sort(Accepted(c, calls)), c.outputCount)
  {
    RunTracks(c, calls);
    OnlineIsOffline(c, Accepted(c, calls));
  }

  // The best frame is never lost.
  lemma {:induction false} BestIsKept(c: Config, calls: seq<Call>)
    requires ValidConfig(c)
    ensures LedByBest(After(Fresh(c), calls).results, Accepted(c, calls))
  {
    RunTracks(c, calls);
    BestFrameIsFirst(c, Accepted(c, calls));
  }

  // Every accepted frame is represented: by a candidate of its own track that is at least as
  // good, or by a full list of candidates that are.
  lemma {:induction false} AcceptedIsCovered(c: Config, calls: seq<Call>, k: nat)
    requires k < |Accepted(c, calls)|
    ensures Covered(c, Accepted(c, calls)[k], After(Fresh(c), calls).results)
  {
    RunTracks(c, calls);
    EveryFrameIsCovered(c, Accepted(c, calls), k);
  }

  // Retained candidates are accepted frames, ranked, at most outputCount of them, and those of
  // one track are minCandidateIntervalMs apart.
  lemma {:induction false} ResultsAreSpaced(c: Config, calls: seq<Call>)
    ensures var results := After(Fresh(c), calls).results;
            && GoodResults(c, results) && Subset(results, Accepted(c, calls))
            && (forall i, j :: 0 <= i < j < |results| ==>
                  || results[i].score > results[j].score
                  || (results[i].score == results[j].score && results[i].timestampMs < results[j].timestampMs))
  {
    RunTracks(c, calls);
    RetainedIsGood(c, Accepted(c, calls));
    hide After, Accepted, Retained;
    var results := After(Fresh(c), calls).results;
    assert forall i, j :: 0 <= i < j < |results| ==> Before(results[i], results[j]);
  }

  // The collection window, for the frames that were accepted and those that are retained.
  lemma {:induction false} WindowHolds(c: Config, calls: seq<Call>)
    ensures var s, accepted := After(Fresh(c), calls), Accepted(c, calls);
            && (forall i :: 0 <= i < |accepted| - 1 ==>
                  accepted[i].timestampMs < accepted[0].timestampMs + c.maxCollectDurationMs)
            && (accepted != [] && accepted[|accepted| - 1].timestampMs >= accepted[0].timestampMs + c.maxCollectDurationMs
                ==> s.finished)
            && (accepted != [] ==> forall i :: 0 <= i < |s.results| ==> s.results[i].timestampMs >= accepted[0].timestampMs)
  {
    var s, accepted := After(Fresh(c), calls), Accepted(c, calls);
    RunTracks(c, calls);
    ResultsAreSpaced(c, calls);
    hide After, Accepted, Retained, GoodResults;
    forall i | 0 <= i < |s.results| ensures s.results[i].timestampMs >= accepted[0].timestampMs {
      var k :| 0 <= k < |accepted| && accepted[k] == s.results[i];
    }
  }

  // The finish latch: a finished capture is not changed by any further call.
  lemma {:induction false} FinishedIsFinal(s: State, calls: seq<Call>)
    requires s.status == Ok && s.finished
    ensures After(s, calls) == s
  {
    if calls != [] {
      FinishedIsFinal(s, calls[..|calls| - 1]);
      NextIsCollectionStep(s, calls[|calls| - 1]);
    }
  }

  // ----- Improvement over a run -----

  lemma StepNoWorse(s: State, o: Outcome, kind: Kind)
    requires Inv(s) && CollectionStep(s, o, kind)
    ensures NoWorse(s.results, o.state.results)
  {
    if kind.Taken? {
      InvMakesNewer(s, o, kind.c);
      var e := AddCandidateEffect(s.config, s.results, kind.c);
      EffectNoWorse(s.config, s.results, kind.c, o.state.results, e);
    }
  }

  // The candidate count never falls, and at no rank does the score ever fall.
  lemma {:induction false} RunNoWorse(s: State, calls: seq<Call>)
    requires Inv(s)
    ensures NoWorse(s.results, After(s, calls).results)
  {
    if calls != [] {
      var front, call := calls[..|calls| - 1], calls[|calls| - 1];
      var t := After(s, front);
      RunNoWorse(s, front);
      RunKeepsInv(s, front);
      NextIsCollectionStep(t, call);
      StepNoWorse(t, Next(t, call), KindOf(t, call));
    }
  }

  // The condition behind READY.
  ghost predicate Satisfied(s: State) {
    && s.collecting && |s.results| >= s.config.outputCount
    && s.lastTimestampMs - s.collectionStartMs >= s.config.collectDurationMs
  }

  lemma StepStaysSatisfied(s: State, o: Outcome, kind: Kind)
    requires Inv(s) && CollectionStep(s, o, kind) && Satisfied(s)
    ensures Satisfied(o.state)
    ensures kind.Taken? ==> o.report.phase == Ready || o.report.phase == Finished
  {
    StepNoWorse(s, o, kind);
  }

  lemma {:induction false} RunStaysSatisfied(s: State, calls: seq<Call>)
    requires Inv(s) && Satisfied(s)
    ensures Satisfied(After(s, calls))
  {
    if calls != [] {
      var front, call := calls[..|calls| - 1], calls[|calls| - 1];
      var t := After(s, front);
      RunStaysSatisfied(s, front);
      RunKeepsInv(s, front);
      NextIsCollectionStep(t, call);
      StepStaysSatisfied(t, Next(t, call), KindOf(t, call));
    }
  }

  // Once an accepted frame has reported READY, every accepted frame reports READY or FINISHED.
  lemma {:induction false} ReadyPersists(s: State, first: Call, between: seq<Call>, later: Call)
    requires Inv(s) && Accepts(s, first) && Next(s, first).report.phase == Ready
    requires Accepts(After(Next(s, first).state, between), later)
    ensures Next(After(Next(s, first).state, between), later).report.phase in {Ready, Finished}
  {
    var s1 := Next(s, first).state;
    NextIsCollectionStep(s, first);
    StepKeepsInv(s, Next(s, first), KindOf(s, first));
    RunStaysSatisfied(s1, between);
    RunKeepsInv(s1, between);
    var s2 := After(s1, between);
    NextIsCollectionStep(s2, later);
    StepStaysSatisfied(s2, Next(s2, later), KindOf(s2, later));
  }

  // ----- Progress over a run -----

  lemma CollectProgressGrows(c: Config, a: u64, b: u64)
    requires a <= b
    ensures 0.5 <= CollectProgress(c, a) <= CollectProgress(c, b) <= 1.0
    ensures a >= c.collectDurationMs ==> CollectProgress(c, a) == 1.0
  {
    if c.collectDurationMs != 0 {
      var d := c.collectDurationMs as real;
      DivLess(a as real, d, b as real / d);
      DivLess(a as real, d, 1.0);
      DivLess(a as real, d, 0.0);
    }
  }

  predicate Started(s: State) {
    s.collecting || s.finished
  }

  // The progress a state has reached once collecting has started or the capture has finished.
  function Reached(s: State): real {
    if s.finished || s.lastTimestampMs < s.collectionStartMs then 1.0
    else CollectProgress(s.config, s.lastTimestampMs - s.collectionStartMs)
  }

  lemma StepProgress(s: State, o: Outcome, kind: Kind)
    requires Inv(s) && CollectionStep(s, o, kind) && o.status == Ok
    ensures Started(o.state) ==> o.report.progress == Reached(o.state) && 0.5 <= o.report.progress <= 1.0
    ensures !Started(o.state) ==> 0.0 <= o.report.progress <= 0.5
  {
    hide AddCandidate, CollectProgress;
    if (kind.Taken? || kind.Passed?) && o.state.collecting {
      var elapsed := o.state.lastTimestampMs - o.state.collectionStartMs;
      CollectProgressGrows(s.config, elapsed, elapsed);
    }
  }

  lemma StepReachesFurther(s: State, o: Outcome, kind: Kind)
    requires Inv(s) && CollectionStep(s, o, kind) && Started(s)
    ensures Started(o.state) && Reached(s) <= Reached(o.state)
  {
    if !s.finished {
      var a := s.lastTimestampMs - s.collectionStartMs;
      var b := o.state.lastTimestampMs - s.collectionStartMs;
      CollectProgressGrows(s.config, a, if a <= b then b else a);
    }
  }

  lemma {:induction false} RunReachesFurther(s: State, calls: seq<Call>)
    requires Inv(s) && Started(s)
    ensures Started(After(s, calls)) && Reached(s) <= Reached(After(s, calls))
  {
    if calls != [] {
      var front, call := calls[..|calls| - 1], calls[|calls| - 1];
      var t := After(s, front);
      RunReachesFurther(s, front);
      RunKeepsInv(s, front);
      NextIsCollectionStep(t, call);
      StepReachesFurther(t, Next(t, call), KindOf(t, call));
    }
  }

  // Progress is at most a half before collecting starts, at least a half from then on, and from
  // then on no successful call, whatever its frame shows, reports less than an earlier one.
  lemma {:induction false} ProgressNeverFalls(s: State, first: Call, between: seq<Call>, later: Call)
    requires Inv(s)
    ensures var o1 := Next(s, first);
            var o2 := Next(After(o1.state, between), later);
            && (o1.status == Ok ==>
                  if Started(o1.state) then 0.5 <= o1.report.progress <= 1.0 else 0.0 <= o1.report.progress <= 0.5)
            && (o1.status == Ok && o2.status == Ok && Started(o1.state) ==> o1.report.progress <= o2.report.progress)
  {
    var o1 := Next(s, first);
    NextIsCollectionStep(s, first);
    StepKeepsInv(s, o1, KindOf(s, first));
    if o1.status == Ok {
      StepProgress(s, o1, KindOf(s, first));
      if Started(o1.state) {
        LaterProgress(o1.state, between, later);
      }
    }
  }

  lemma {:induction false} LaterProgress(s1: State, between: seq<Call>, later: Call)
    requires Inv(s1) && Started(s1)
    ensures var o2 := Next(After(s1, between), later);
            o2.status == Ok ==> Reached(s1) <= o2.report.progress
  {
    var s2 := After(s1, between);
    RunReachesFurther(s1, between);
    RunKeepsInv(s1, between);
    NextIsCollectionStep(s2, later);
    var o2 := Next(s2, later);
    if o2.status == Ok {
      StepReachesFurther(s2, o2, KindOf(s2, later));
      StepProgress(s2, o2, KindOf(s2, later));
    }
  }

  // ----- Reconfiguring and resetting -----

  datatype Event = Configure(c: Config, features: Features) | Reset | Make(call: Call)

  function Handle(s: State, e: Event): State {
    match e
    case Configure(c, features) => ConfigureStep(s, c, features)
    case Reset => Cleared(s)
    case Make(call) => Next(s, call).state
  }

  function Handled(s: State, events: seq<Event>): State {
    if events == [] then s else Handle(Handled(s, events[..|events| - 1]), events[|events| - 1])
  }

  lemma FailedCallChangesNothing(s: State, call: Call)
    requires s.status != Ok
    ensures Next(s, call).state == s
  {
  }

  // The calls since the last configuration or reset.
  function Since(events: seq<Event>): seq<Call> {
    if events == [] then []
    else
      var e := events[|events| - 1];
      if e.Make? then Since(events[..|events| - 1]) + [e.call] else []
  }

  lemma MakeContinues(c: Config, calls: seq<Call>, call: Call)
    ensures After(Fresh(c), calls + [call]) == Next(After(Fresh(c), calls), call).state
    ensures After(Fresh(c), calls + [call]).config == c && After(Fresh(c), calls + [call]).status == Ok
  {
    assert (calls + [call])[..|calls|] == calls;
    RunTracks(c, calls + [call]);
  }

  lemma FreshAfterReset(c: Config)
    ensures After(Fresh(c), []) == Fresh(c)
  {
  }

  // Every history of a selector is, since its last configuration or reset, a run of a freshly
  // configured one; a selector whose last configuration failed is empty.
  lemma {:induction false} EveryHistoryIsARun(initial: State, events: seq<Event>)
    requires initial.status != Ok && initial == Cleared(initial)
    ensures var s := Handled(initial, events);
            if s.status == Ok then ValidConfig(s.config) && s == After(Fresh(s.config), Since(events)) else s == Cleared(s)
  {
    hide UpdateStep, FinishStep, After, Next;
    if events != [] {
      var front, e := events[..|events| - 1], events[|events| - 1];
      EveryHistoryIsARun(initial, front);
      var s := Handled(initial, front);
      if e.Make? {
        if s.status == Ok {
          MakeContinues(s.config, Since(front), e.call);
        } else {
          FailedCallChangesNothing(s, e.call);
        }
      } else {
        FreshAfterReset(Handled(initial, events).config);
      }
    }
  }

  // So every reachable state of a configured selector has the invariant that the statements about
  // later calls ask for, and its results are those of the calls since the last configuration.
  lemma {:induction false} EveryReachableStateIsSound(initial: State, events: seq<Event>)
    requires initial.status != Ok && initial == Cleared(initial) && Handled(initial, events).status == Ok
    ensures var s := Handled(initial, events);
            && Inv(s) && ValidConfig(s.config)
            && s.results == Retained(s.config, Accepted(s.config, Since(events)))
            && LedByBest(s.results, Accepted(s.config, Since(events)))
  {
    EveryHistoryIsARun(initial, events);
    var c := Handled(initial, events).config;
    hide Handled, Since, Inv, ValidConfig, After, LedByBest;
    FreshIsGood(c);
    RunKeepsInv(Fresh(c), Since(events));
    RunTracks(c, Since(events));
    BestIsKept(c, Since(events));
  }
}
