// The C API capture session: a selector behind a result cache with a dirty flag.
module CaptureSession {
  import opened Basics
  import opened CaptureTypes
  import opened CapturePolicy
  import opened CaptureSelector
  import CaptureRuns

  // What tracking and decoding hand to an update: a failure code, or a frame with its faces.
  datatype Tracked = TrackingFailed(code: int) | Faces(frame: GoodFrame)

  // The selector, the cache and the dirty flag of one session.
  datatype Session = Session(selector: State, cache: seq<Candidate>, dirty: bool)

  datatype Operation = Update(tracked: Tracked) | FinishCapture | ResetCapture | Query

  function Operate(s: Session, op: Operation): Session {
    match op
    case Update(TrackingFailed(_)) => s
    case Update(Faces(f)) =>
      var o := UpdateStep(s.selector, f);
      Session(o.state, s.cache, s.dirty || o.status == Ok)
    case FinishCapture =>
      var o := FinishStep(s.selector);
      Session(o.state, s.cache, s.dirty || o.status == Ok)
    case ResetCapture => Session(Cleared(s.selector), [], true)
    case Query => Refreshed(s)
  }

  function Refreshed(s: Session): Session {
    if s.dirty then Session(s.selector, s.selector.results, false) else s
  }

  function Operated(s: Session, ops: seq<Operation>): Session {
    if ops == [] then s else Operate(Operated(s, ops[..|ops| - 1]), ops[|ops| - 1])
  }

  // A clean cache is the selector's current result list.
  ghost predicate Coherent(s: Session) {
    !s.dirty ==> s.cache == s.selector.results
  }

  // A call that fails leaves the selector as it was.
  lemma FailureChangesNothing(s: State, f: GoodFrame)
    ensures UpdateStep(s, f).status != Ok ==> UpdateStep(s, f).state == s
    ensures FinishStep(s).status != Ok ==> FinishStep(s).state == s
  {
  }

  // The cache is coherent in every state a session can reach, so a query answers with the
  // selector's results whatever calls failed or succeeded before it.
  lemma {:induction false} CacheStaysCoherent(s: Session, ops: seq<Operation>)
    requires Coherent(s)
    ensures Coherent(Operated(s, ops))
    ensures Operate(Operated(s, ops), Query).cache == Operated(s, ops).selector.results
  {
    hide UpdateStep;
    if ops != [] {
      var before, op := Operated(s, ops[..|ops| - 1]), ops[|ops| - 1];
      CacheStaysCoherent(s, ops[..|ops| - 1]);
      if op.Update? && op.tracked.Faces? {
        FailureChangesNothing(before.selector, op.tracked.frame);
      } else {
        FailureChangesNothing(before.selector, Frame(0, 0, None, [], 0, 0));
      }
    }
  }

  // The calls that reach the selector after the last reset: failed tracking and queries do not.
  function CallsOf(ops: seq<Operation>): seq<Call> {
    if ops == [] then []
    else
      var front := ops[..|ops| - 1];
      match ops[|ops| - 1]
      case Update(TrackingFailed(_)) => CallsOf(front)
      case Update(Faces(f)) => CallsOf(front) + [Feed(f)]
      case FinishCapture => CallsOf(front) + [Finish]
      case ResetCapture => []
      case Query => CallsOf(front)
  }

  // Whatever a session is asked to do, its selector is where the frames and the finish since the
  // last reset lead from a fresh configuration, and a query answers with the results of that run.
  lemma {:induction false} QueryAnswersForTheRun(c: Config, ops: seq<Operation>)
    ensures var s, run := Operated(Session(Fresh(c), [], true), ops), After(Fresh(c), CallsOf(ops));
            s.selector == run && Operate(s, Query).cache == run.results
  {
    hide UpdateStep, FinishStep, After;
    CacheStaysCoherent(Session(Fresh(c), [], true), ops);
    if ops == [] {
      CaptureRuns.FreshAfterReset(c);
    } else {
      var front := ops[..|ops| - 1];
      QueryAnswersForTheRun(c, front);
      match ops[|ops| - 1]
      case Update(Faces(f)) => CaptureRuns.MakeContinues(c, CallsOf(front), Feed(f));
      case FinishCapture => CaptureRuns.MakeContinues(c, CallsOf(front), Finish);
      case ResetCapture => ResetRun(c, CallsOf(front));
      case _ =>
    }
  }

  lemma ResetRun(c: Config, calls: seq<Call>)
    ensures Cleared(After(Fresh(c), calls)) == Fresh(c) == After(Fresh(c), [])
  {
    CaptureRuns.RunTracks(c, calls);
    hide CaptureRuns.Accepted, Next;
  }

  // What an update returns: the tracker's failure code, or the selector's answer.
  datatype Answer = Untracked(code: int) | Answered(status: Status, report: Report)

  // The copying loop of a query.
  method CopyOut(list: seq<Candidate>, buffer: array<Candidate>)
    requires |list| <= buffer.Length
    modifies buffer
    ensures buffer[..] == list + old(buffer[..])[|list|..]
  {
    var index := 0;
    while index < |list|
      invariant 0 <= index <= |list|
      invariant forall i :: 0 <= i < index ==> buffer[i] == list[i]
      invariant forall i :: index <= i < buffer.Length ==> buffer[i] == old(buffer[i])
    {
      buffer[index] := list[index];
      index := index + 1;
    }
  }

  datatype QueryStatus = QueryOk | QueryInvalidParam | QueryInvalidBufferSize

  class FaceCaptureSession {
    const selector: FaceCaptureSelector
    var resultCache: seq<Candidate>
    var resultCacheDirty: bool

    ghost function Value(): Session
      reads this, selector
    {
      Session(selector.Value(), resultCache, resultCacheDirty)
    }

    constructor (selector: FaceCaptureSelector)
      ensures this.selector == selector && Value() == Session(selector.Value(), [], true) && Coherent(Value())
    {
      this.selector := selector;
      resultCache, resultCacheDirty := [], true;
    }

    method UpdateSession(tracked: Tracked) returns (answer: Answer)
      requires Coherent(Value())
      modifies this, selector
      ensures Value() == Operate(old(Value()), Update(tracked)) && Coherent(Value())
      ensures match tracked
              case TrackingFailed(code) => answer == Untracked(code)
              case Faces(f) =>
                answer.Answered? && Outcome(selector.Value(), answer.status, answer.report)
                    == UpdateStep(old(selector.Value()), f)
    {
      hide UpdateStep;
      if tracked.TrackingFailed? {
        return Untracked(tracked.code);
      }
      FailureChangesNothing(selector.Value(), tracked.frame);
      var outcome, report := selector.Update(tracked.frame);
      if outcome == Ok {
        resultCacheDirty := true;
      }
      answer := Answered(outcome, report);
    }

    method FinishSession() returns (outcome: Status, report: Report)
      requires Coherent(Value())
      modifies this, selector
      ensures Value() == Operate(old(Value()), FinishCapture) && Coherent(Value())
      ensures Outcome(selector.Value(), outcome, report) == FinishStep(old(selector.Value()))
    {
      outcome, report := selector.Finish();
      if outcome == Ok {
        resultCacheDirty := true;
      }
    }

    method ResetSession()
      requires Coherent(Value())
      modifies this, selector
      ensures Value() == Operate(old(Value()), ResetCapture) && Coherent(Value())
    {
      selector.Reset();
      resultCache := [];
      resultCacheDirty := true;
    }

    // Either the whole ordered list is copied out, or nothing is and the count says how much room
    // it takes. A null buffer asks for the count alone.
    method GetResults(buffer: array?<Candidate>, capacity: nat) returns (status: QueryStatus, count: nat)
      requires Coherent(Value())
      requires buffer != null ==> capacity <= buffer.Length
      modifies this, buffer
      ensures Coherent(Value()) && selector.Value() == old(selector.Value())
      ensures if buffer == null && capacity != 0 then status == QueryInvalidParam && Value() == old(Value())
              else
                && Value() == Operate(old(Value()), Query)
                && count == |selector.Value().results|
                && status == (if buffer != null && capacity < count then QueryInvalidBufferSize else QueryOk)
      ensures buffer != null && capacity >= |selector.Value().results| ==>
        buffer[..] == selector.Value().results + old(buffer[..])[|selector.Value().results|..]
      ensures buffer != null && capacity < |selector.Value().results| ==> buffer[..] == old(buffer[..])
    {
      if buffer == null && capacity != 0 {
        return QueryInvalidParam, 0;
      }
      if resultCacheDirty {
        resultCache := selector.GetResults();
        resultCacheDirty := false;
      }
      count := |resultCache|;
      if buffer == null {
        return QueryOk, count;
      }
      if capacity < count {
        return QueryInvalidBufferSize, count;
      }
      CopyOut(resultCache, buffer);
      return QueryOk, count;
    }
  }
}
