// What the Top-N list says about every frame ever accepted: the online list against simple
// statements about the whole sequence of accepted frames.
module RankingHistory {
  import opened Basics
  import opened CaptureTypes
  import opened CandidateRanking

  ghost predicate Increasing(s: seq<Candidate>) {
    forall i, j :: 0 <= i < j < |s| ==> s[i].timestampMs < s[j].timestampMs
  }

  // The list after accepting the frames of `accepted` one after the other.
  function Retained(config: Config, accepted: seq<Candidate>): seq<Candidate> {
    if accepted == [] then []
    else AddCandidate(config, Retained(config, accepted[..|accepted| - 1]), accepted[|accepted| - 1])
  }

  lemma RetainedAppend(config: Config, accepted: seq<Candidate>, c: Candidate)
    ensures Retained(config, accepted + [c]) == AddCandidate(config, Retained(config, accepted), c)
  {
    assert (accepted + [c])[..|accepted|] == accepted;
  }

  // ----- The list after one more frame -----

  // At least as many entries, and at every rank at least as good a score.
  ghost predicate NoWorse(before: seq<Candidate>, after: seq<Candidate>) {
    && |before| <= |after|
    && forall i :: 0 <= i < |before| ==> before[i].score <= after[i].score
  }

  lemma EffectNoWorse(config: Config, before: seq<Candidate>, c: Candidate, after: seq<Candidate>, e: Effect)
    requires Ranked(before) && |before| <= config.outputCount
    requires HasEffect(config, before, c, after, e)
    ensures NoWorse(before, after)
  {
    if !e.Dropped? {
      forall i | 0 <= i < |before| ensures before[i].score <= after[i].score {
        assert i > 0 ==> Before(before[i - 1], before[i]);
        assert i >= e.at ==> Before(c, before[i]);
      }
    }
  }

  // A retained candidate of x's own track scores at least as well.
  ghost predicate HeldByTrack(x: Candidate, results: seq<Candidate>) {
    exists i :: 0 <= i < |results| && results[i].trackId == x.trackId && results[i].score >= x.score
  }

  // The list is full of candidates that score at least as well.
  ghost predicate CrowdedOut(config: Config, x: Candidate, results: seq<Candidate>) {
    |results| == config.outputCount && forall i :: 0 <= i < |results| ==> results[i].score >= x.score
  }

  ghost predicate Covered(config: Config, x: Candidate, results: seq<Candidate>) {
    HeldByTrack(x, results) || CrowdedOut(config, x, results)
  }

  lemma InsertionCovers(config: Config, t: seq<Candidate>, x: Candidate, k: nat)
    requires Ranked(t) && |t| <= config.outputCount + 1
    requires k < |t| && t[k].trackId == x.trackId && t[k].score >= x.score
    ensures Covered(config, x, Truncate(t, config.outputCount))
  {
    var after := Truncate(t, config.outputCount);
    if k < |after| {
      assert after[k] == t[k];
    } else {
      forall i | 0 <= i < |after| ensures after[i].score >= x.score {
        assert Before(t[i], t[k]);
      }
    }
  }

  lemma PlaceInReplaced(before: seq<Candidate>, d: nat, p: nat, c: Candidate, i: nat)
    requires p <= d < |before| && i < |before|
    ensures var after := InsertAt(Without(before, d), p, c);
            after[p] == c && (i != d ==> after[if i < p then i else if i < d then i + 1 else i] == before[i])
  {
  }

  lemma EffectKeepsHeld(config: Config, before: seq<Candidate>, c: Candidate, after: seq<Candidate>, e: Effect,
                        x: Candidate)
    requires Ranked(before) && |before| <= config.outputCount
    requires HasEffect(config, before, c, after, e)
    requires x == c || HeldByTrack(x, before)
    ensures Covered(config, x, after)
  {
    var i: nat := if x == c then 0 else
      var k :| 0 <= k < |before| && before[k].trackId == x.trackId && before[k].score >= x.score; k;
    match e
    case Dropped(d) =>
      assert after[if x == c then d else i].score >= x.score;
    case Replaced(d, p) =>
      PlaceInReplaced(before, d, p, c, i);
      var k := if x == c || i == d then p else if i < p then i else if i < d then i + 1 else i;
      assert after[k] == if x == c || i == d then c else before[i];
    case Inserted(p) =>
      var t := InsertAt(before, p, c);
      InsertAtRanks(before, p, c);
      InsertionCovers(config, t, x, if x == c then p else if i < p then i else i + 1);
  }

  lemma EffectKeepsCovered(config: Config, before: seq<Candidate>, c: Candidate, after: seq<Candidate>, e: Effect,
                           x: Candidate)
    requires Ranked(before) && |before| <= config.outputCount
    requires HasEffect(config, before, c, after, e)
    requires x == c || Covered(config, x, before)
    ensures Covered(config, x, after)
  {
    if x == c || HeldByTrack(x, before) {
      EffectKeepsHeld(config, before, c, after, e, x);
    } else {
      EffectNoWorse(config, before, c, after, e);
    }
  }

  lemma AddCandidateKeepsCovered(config: Config, before: seq<Candidate>, c: Candidate, x: Candidate)
    requires GoodResults(config, before) && Newer(c, before)
    requires x == c || Covered(config, x, before)
    ensures Covered(config, x, AddCandidate(config, before, c))
  {
    var e := AddCandidateEffect(config, before, c);
    EffectKeepsCovered(config, before, c, AddCandidate(config, before, c), e, x);
  }

  ghost predicate Subset(s: seq<Candidate>, t: seq<Candidate>) {
    forall i :: 0 <= i < |s| ==> s[i] in t
  }

  lemma EffectSubset(config: Config, before: seq<Candidate>, c: Candidate, after: seq<Candidate>, e: Effect,
                     all: seq<Candidate>)
    requires HasEffect(config, before, c, after, e)
    requires Subset(before, all) && c in all
    ensures Subset(after, all)
  {
    match e
    case Dropped(_) =>
    case Replaced(d, p) =>
      var rest := Without(before, d);
      assert forall i :: 0 <= i < |after| ==>
        after[i] == if i < p then rest[i] else if i == p then c else rest[i - 1];
    case Inserted(p) =>
      var t := InsertAt(before, p, c);
      assert forall i :: 0 <= i < |after| ==> after[i] == t[i];
  }

  // b is the earliest frame with the maximum score.
  ghost predicate IsBest(b: Candidate, all: seq<Candidate>) {
    && b in all
    && forall i :: 0 <= i < |all| ==>
         all[i] == b || all[i].score < b.score || (all[i].score == b.score && b.timestampMs < all[i].timestampMs)
  }

  // The list is led by the best frame of `all`; only an empty history leaves it empty.
  ghost predicate LedByBest(results: seq<Candidate>, all: seq<Candidate>) {
    if all == [] then results == [] else results != [] && IsBest(results[0], all)
  }

  lemma EffectKeepsBest(config: Config, before: seq<Candidate>, c: Candidate, after: seq<Candidate>, e: Effect,
                        all: seq<Candidate>)
    requires config.outputCount > 0 && Ranked(before)
    requires HasEffect(config, before, c, after, e)
    requires all != [] && all[|all| - 1] == c && LedByBest(before, all[..|all| - 1])
    requires before != [] ==> before[0].timestampMs < c.timestampMs
    ensures LedByBest(after, all)
  {
    var front := all[..|all| - 1];
    assert all == front + [c];
    assert e.Dropped? && e.held > 0 ==> Before(before[0], before[e.held]);
    if e.Dropped? || e.at > 0 {
      assert after[0] == before[0] && before[0] in front;
      assert Before(before[0], c);
    } else {
      assert after[0] == c && all[|front|] == c;
      assert before != [] ==> Before(c, before[0]);
    }
  }

  lemma AddCandidateKeepsBest(config: Config, before: seq<Candidate>, c: Candidate, all: seq<Candidate>)
    requires config.outputCount > 0 && GoodResults(config, before) && Newer(c, before)
    requires all != [] && all[|all| - 1] == c && LedByBest(before, all[..|all| - 1])
    ensures LedByBest(AddCandidate(config, before, c), all)
  {
    var e := AddCandidateEffect(config, before, c);
    EffectKeepsBest(config, before, c, AddCandidate(config, before, c), e, all);
  }

  // ----- The list after any number of frames -----

  lemma {:induction false} RetainedIsGood(config: Config, accepted: seq<Candidate>)
    requires Increasing(accepted)
    ensures GoodResults(config, Retained(config, accepted))
    ensures Subset(Retained(config, accepted), accepted)
  {
    hide AddCandidate;
    if accepted != [] {
      var front, c := accepted[..|accepted| - 1], accepted[|accepted| - 1];
      RetainedIsGood(config, front);
      SubsetIsOlder(accepted, Retained(config, front));
      AddCandidateKeepsGood(config, Retained(config, front), c);
      var e := AddCandidateEffect(config, Retained(config, front), c);
      EffectSubset(config, Retained(config, front), c, Retained(config, accepted), e, accepted);
    }
  }

  lemma SubsetIsOlder(accepted: seq<Candidate>, results: seq<Candidate>)
    requires Increasing(accepted) && accepted != [] && Subset(results, accepted[..|accepted| - 1])
    ensures Newer(accepted[|accepted| - 1], results)
  {
    var front := accepted[..|accepted| - 1];
    forall i | 0 <= i < |results| ensures results[i].timestampMs < accepted[|accepted| - 1].timestampMs {
      var k :| 0 <= k < |front| && front[k] == results[i];
      assert accepted[k] == results[i];
    }
  }

  // The newest frame of a history, set against the list the earlier ones left.
  lemma LastIsNewer(config: Config, accepted: seq<Candidate>) returns (before: seq<Candidate>)
    requires Increasing(accepted) && accepted != []
    ensures before == Retained(config, accepted[..|accepted| - 1])
    ensures GoodResults(config, before) && Newer(accepted[|accepted| - 1], before)
  {
    before := Retained(config, accepted[..|accepted| - 1]);
    RetainedIsGood(config, accepted[..|accepted| - 1]);
    SubsetIsOlder(accepted, before);
  }

  // Every accepted frame, retained or not, is accounted for by the list: a candidate of its own
  // track that scores at least as well, or a full list of candidates that do.
  lemma {:induction false} EveryFrameIsCovered(config: Config, accepted: seq<Candidate>, k: nat)
    requires Increasing(accepted) && k < |accepted|
    ensures Covered(config, accepted[k], Retained(config, accepted))
  {
    hide AddCandidate;
    var front, c := accepted[..|accepted| - 1], accepted[|accepted| - 1];
    var before := LastIsNewer(config, accepted);
    if k < |front| {
      EveryFrameIsCovered(config, front, k);
    }
    AddCandidateKeepsCovered(config, before, c, accepted[k]);
  }

  // The best frame is never lost, whatever de-duplication and truncation do.
  lemma {:induction false} BestFrameIsFirst(config: Config, accepted: seq<Candidate>)
    requires config.outputCount > 0 && Increasing(accepted)
    ensures LedByBest(Retained(config, accepted), accepted)
  {
    hide AddCandidate;
    if accepted != [] {
      var front, c := accepted[..|accepted| - 1], accepted[|accepted| - 1];
      var before := LastIsNewer(config, accepted);
      BestFrameIsFirst(config, front);
      AddCandidateKeepsBest(config, before, c, accepted);
    }
  }

  lemma {:induction false} PlaceInPrefix(c: Candidate, s: seq<Candidate>, n: nat)
    requires n <= |s|
    ensures Place(c, s[..n]) == if Place(c, s) < n then Place(c, s) else n
  {
    if n > 0 && !Before(c, s[0]) {
      assert s[..n][1..] == s[1..][..n - 1];
      PlaceInPrefix(c, s[1..], n - 1);
    }
  }

  lemma TruncateInsert(all: seq<Candidate>, c: Candidate, n: nat)
    ensures var kept := Truncate(all, n);
            Truncate(InsertAt(kept, Place(c, kept), c), n) == Truncate(InsertAt(all, Place(c, all), c), n)
  {
    if |all| > n {
      PlaceInPrefix(c, all, n);
    }
  }

  // With de-duplication off, the online list is the offline answer: rank all accepted frames,
  // keep the first outputCount.
  lemma {:induction false} OnlineIsOffline(config: Config, accepted: seq<Candidate>)
    requires config.minCandidateIntervalMs == 0 && Increasing(accepted)
    ensures Retained(config, accepted) == Truncate(Sort(accepted), config.outputCount)
  {
    if accepted != [] {
      var front, c := accepted[..|accepted| - 1], accepted[|accepted| - 1];
      var kept := LastIsNewer(config, accepted);
      OnlineIsOffline(config, front);
      PlaceSplits(c, kept);
      PushRanks(kept, c, Place(c, kept));
      TruncateInsert(Sort(front), c, config.outputCount);
    }
  }
}
