// The bounded, de-duplicated Top-N list of the best-frame selector: one call of AddCandidate.
module CandidateRanking {
  import opened Basics
  import opened CaptureTypes

  // ----- The order of the result list -----

  // The comparator handed to std::sort: better score, then earlier, then smaller frame number.
  predicate Before(a: Candidate, b: Candidate) {
    if a.score != b.score then a.score > b.score
    else if a.timestampMs != b.timestampMs then a.timestampMs < b.timestampMs
    else a.frameId < b.frameId
  }

  ghost predicate Ranked(s: seq<Candidate>) {
    forall i, j :: 0 <= i < j < |s| ==> Before(s[i], s[j])
  }

  ghost predicate DistinctTimes(s: seq<Candidate>) {
    forall i, j :: 0 <= i < j < |s| ==> s[i].timestampMs != s[j].timestampMs
  }

  ghost predicate Newer(c: Candidate, s: seq<Candidate>) {
    forall i :: 0 <= i < |s| ==> s[i].timestampMs < c.timestampMs
  }

  function InsertAt(s: seq<Candidate>, p: nat, c: Candidate): (t: seq<Candidate>)
    requires p <= |s|
    ensures |t| == |s| + 1
    ensures forall i :: 0 <= i < |t| ==> t[i] == if i < p then s[i] else if i == p then c else s[i - 1]
  {
    s[..p] + [c] + s[p..]
  }

  function Without(s: seq<Candidate>, d: nat): (t: seq<Candidate>)
    requires d < |s|
    ensures |t| == |s| - 1
    ensures forall i :: 0 <= i < |t| ==> t[i] == if i < d then s[i] else s[i + 1]
  {
    s[..d] + s[d + 1..]
  }

  // The place of c in a ranked list: the first index that c comes before.
  function Place(c: Candidate, s: seq<Candidate>): (p: nat)
    ensures p <= |s|
    ensures forall i :: 0 <= i < p ==> !Before(c, s[i])
    ensures p < |s| ==> Before(c, s[p])
  {
    if s == [] || Before(c, s[0]) then 0 else 1 + Place(c, s[1..])
  }

  // What std::sort leaves: insertion of the elements one after the other. On distinct
  // timestamps the comparator is a strict total order, so the algorithm does not matter
  // (RankingIsUnique).
  function Sort(s: seq<Candidate>): seq<Candidate> {
    if s == [] then [] else
      var sorted := Sort(s[..|s| - 1]);
      InsertAt(sorted, Place(s[|s| - 1], sorted), s[|s| - 1])
  }

  lemma PlaceSplits(c: Candidate, s: seq<Candidate>)
    requires Ranked(s)
    requires forall i :: 0 <= i < |s| ==> s[i].timestampMs != c.timestampMs
    ensures forall i :: 0 <= i < Place(c, s) ==> Before(s[i], c)
    ensures forall i :: Place(c, s) <= i < |s| ==> Before(c, s[i])
  {
    var p := Place(c, s);
    forall i | p <= i < |s| ensures Before(c, s[i]) {
      assert p < i ==> Before(s[p], s[i]);
    }
  }

  lemma InsertAtRanks(s: seq<Candidate>, p: nat, c: Candidate)
    requires Ranked(s) && p <= |s|
    requires forall i :: 0 <= i < p ==> Before(s[i], c)
    requires forall i :: p <= i < |s| ==> Before(c, s[i])
    ensures Ranked(InsertAt(s, p, c))
  {
    var t := InsertAt(s, p, c);
    forall i, j | 0 <= i < j < |t| ensures Before(t[i], t[j]) {
      if i == p {
        assert Before(c, s[j - 1]);
      } else if j == p {
        assert Before(s[i], c);
      } else {
        assert Before(s[if i < p then i else i - 1], s[if j < p then j else j - 1]);
      }
    }
  }

  lemma WithoutRanks(s: seq<Candidate>, d: nat)
    requires Ranked(s) && d < |s|
    ensures Ranked(Without(s, d))
  {
    var t := Without(s, d);
    forall i, j | 0 <= i < j < |t| ensures Before(t[i], t[j]) {
      assert Before(s[if i < d then i else i + 1], s[if j < d then j else j + 1]);
    }
  }

  lemma InsertAtMultiset(s: seq<Candidate>, p: nat, c: Candidate)
    requires p <= |s|
    ensures multiset(InsertAt(s, p, c)) == multiset(s) + multiset{c}
  {
    assert s == s[..p] + s[p..];
  }

  lemma UpdateMultiset(s: seq<Candidate>, d: nat, c: Candidate)
    requires d < |s|
    ensures multiset(s[d := c]) == multiset(Without(s, d)) + multiset{c}
  {
    assert s[d := c] == s[..d] + [c] + s[d + 1..];
  }

  lemma {:induction false} SortRanks(s: seq<Candidate>)
    requires DistinctTimes(s)
    ensures Ranked(Sort(s)) && multiset(Sort(s)) == multiset(s)
  {
    if s != [] {
      var front, c := s[..|s| - 1], s[|s| - 1];
      assert s == front + [c];
      SortRanks(front);
      var sorted := Sort(front);
      forall i | 0 <= i < |sorted| ensures sorted[i].timestampMs != c.timestampMs {
        assert sorted[i] in multiset(sorted);
        assert sorted[i] in front;
      }
      PlaceSplits(c, sorted);
      InsertAtRanks(sorted, Place(c, sorted), c);
      InsertAtMultiset(sorted, Place(c, sorted), c);
    }
  }

  lemma HeadComesFirst(s: seq<Candidate>, x: Candidate)
    requires Ranked(s) && x in s
    ensures x == s[0] || Before(s[0], x)
  {
  }

  lemma TailsMatch(s: seq<Candidate>, t: seq<Candidate>)
    requires s != [] && t != [] && s[0] == t[0] && multiset(s) == multiset(t)
    ensures multiset(s[1..]) == multiset(t[1..])
  {
    assert s == [s[0]] + s[1..] && t == [t[0]] + t[1..];
    assert multiset(s[1..]) == multiset(s) - multiset{s[0]};
  }

  lemma {:induction false} RankingIsUnique(s: seq<Candidate>, t: seq<Candidate>)
    requires Ranked(s) && Ranked(t) && multiset(s) == multiset(t)
    ensures s == t
  {
    assert |s| == |multiset(s)| == |multiset(t)| == |t|;
    if s != [] {
      assert s[0] in multiset(t) && t[0] in multiset(s);
      HeadComesFirst(t, s[0]);
      HeadComesFirst(s, t[0]);
      TailsMatch(s, t);
      RankingIsUnique(s[1..], t[1..]);
      assert s == [s[0]] + s[1..] && t == [t[0]] + t[1..];
    }
  }

  lemma SortIsTheRanking(s: seq<Candidate>, t: seq<Candidate>)
    requires DistinctTimes(s) && Ranked(t) && multiset(t) == multiset(s)
    ensures Sort(s) == t
  {
    SortRanks(s);
    RankingIsUnique(Sort(s), t);
  }

  // ----- Adding one accepted frame -----

  predicate IsDuplicate(config: Config, existing: Candidate, c: Candidate) {
    && existing.trackId == c.trackId
    && (if existing.timestampMs > c.timestampMs then existing.timestampMs - c.timestampMs
        else c.timestampMs - existing.timestampMs) < config.minCandidateIntervalMs
  }

  // std::find_if: the index of the first duplicate, |s| when there is none.
  function FirstDuplicate(config: Config, s: seq<Candidate>, c: Candidate): (i: nat)
    ensures i <= |s|
    ensures forall k :: 0 <= k < i ==> !IsDuplicate(config, s[k], c)
    ensures i < |s| ==> IsDuplicate(config, s[i], c)
  {
    if s == [] || IsDuplicate(config, s[0], c) then 0 else 1 + FirstDuplicate(config, s[1..], c)
  }

  function Merge(config: Config, results: seq<Candidate>, c: Candidate): seq<Candidate> {
    var d := if config.minCandidateIntervalMs > 0 then FirstDuplicate(config, results, c) else |results|;
    if d == |results| then results + [c]
    else if c.score > results[d].score then results[d := c]
    else results
  }

  function Truncate(s: seq<Candidate>, n: nat): seq<Candidate> {
    if |s| > n then s[..n] else s
  }

  function AddCandidate(config: Config, results: seq<Candidate>, c: Candidate): seq<Candidate> {
    Truncate(Sort(Merge(config, results, c)), config.outputCount)
  }

  // Retained candidates of one track are at least minCandidateIntervalMs apart.
  ghost predicate Spaced(config: Config, results: seq<Candidate>) {
    forall i, j :: 0 <= i < j < |results| && results[i].trackId == results[j].trackId ==>
      AbsInt(results[i].timestampMs - results[j].timestampMs) >= config.minCandidateIntervalMs
  }

  // Of one track and less than minCandidateIntervalMs older than c.
  predicate CloseBefore(config: Config, a: Candidate, c: Candidate) {
    a.trackId == c.trackId && c.timestampMs < a.timestampMs + config.minCandidateIntervalMs
  }

  lemma DuplicateMeans(config: Config, a: Candidate, c: Candidate)
    ensures IsDuplicate(config, a, c) <==>
            a.trackId == c.trackId && AbsInt(a.timestampMs - c.timestampMs) < config.minCandidateIntervalMs
    ensures a.timestampMs <= c.timestampMs ==> (IsDuplicate(config, a, c) <==> CloseBefore(config, a, c))
  {
  }

  // What holds of the result list between calls.
  ghost predicate GoodResults(config: Config, results: seq<Candidate>) {
    && Ranked(results)
    && DistinctTimes(results)
    && Spaced(config, results)
    && |results| <= config.outputCount
  }

  // The three things that adding a frame can do to the list: drop the frame in favour of a
  // retained one, let it take the place of a retained one, or rank it as a further entry.
  datatype Effect = Dropped(held: nat) | Replaced(held: nat, at: nat) | Inserted(at: nat)

  ghost predicate Splits(c: Candidate, s: seq<Candidate>, p: nat) {
    && p <= |s|
    && (forall i :: 0 <= i < p ==> Before(s[i], c))
    && (forall i :: p <= i < |s| ==> Before(c, s[i]))
  }

  ghost predicate HasEffect(config: Config, before: seq<Candidate>, c: Candidate, after: seq<Candidate>, e: Effect) {
    match e
    case Dropped(d) =>
      && d < |before|
      && CloseBefore(config, before[d], c)
      && before[d].score >= c.score
      && after == before
    case Replaced(d, p) =>
      && p <= d < |before|
      && CloseBefore(config, before[d], c)
      && before[d].score < c.score
      && Splits(c, before, p)
      && after == InsertAt(Without(before, d), p, c)
    case Inserted(p) =>
      && (forall i :: 0 <= i < |before| ==> !CloseBefore(config, before[i], c))
      && Splits(c, before, p)
      && after == Truncate(InsertAt(before, p, c), config.outputCount)
  }

  lemma {:induction false} PushRanks(results: seq<Candidate>, c: Candidate, p: nat)
    requires Ranked(results) && DistinctTimes(results) && Newer(c, results) && Splits(c, results, p)
    ensures Sort(results + [c]) == InsertAt(results, p, c)
  {
    InsertAtRanks(results, p, c);
    InsertAtMultiset(results, p, c);
    SortIsTheRanking(results + [c], InsertAt(results, p, c));
  }

  lemma UpdateRanks(results: seq<Candidate>, d: nat, c: Candidate, p: nat)
    requires Ranked(results) && DistinctTimes(results) && Newer(c, results) && Splits(c, results, p)
    requires d < |results| && c.score > results[d].score
    ensures p <= d && Sort(results[d := c]) == InsertAt(Without(results, d), p, c)
  {
    assert d < p ==> Before(results[d], c);
    WithoutRanks(results, d);
    InsertAtRanks(Without(results, d), p, c);
    InsertAtMultiset(Without(results, d), p, c);
    UpdateMultiset(results, d, c);
    SortIsTheRanking(results[d := c], InsertAt(Without(results, d), p, c));
  }

  lemma AddCandidateEffect(config: Config, results: seq<Candidate>, c: Candidate) returns (e: Effect)
    requires GoodResults(config, results) && Newer(c, results)
    ensures HasEffect(config, results, c, AddCandidate(config, results, c), e)
  {
    var d := if config.minCandidateIntervalMs > 0 then FirstDuplicate(config, results, c) else |results|;
    var p := Place(c, results);
    PlaceSplits(c, results);
    if d == |results| {
      PushRanks(results, c, p);
      e := Inserted(p);
    } else if c.score > results[d].score {
      UpdateRanks(results, d, c, p);
      e := Replaced(d, p);
    } else {
      SortIsTheRanking(results, results);
      e := Dropped(d);
    }
  }

  // At most one stored candidate can match the duplicate search.
  lemma DuplicateIsUnique(config: Config, results: seq<Candidate>, c: Candidate, i: nat, j: nat)
    requires Spaced(config, results) && Newer(c, results)
    requires i < |results| && j < |results|
    requires IsDuplicate(config, results[i], c) && IsDuplicate(config, results[j], c)
    ensures i == j
  {
    CloseToEachOther(config, results[i], results[j], c);
  }

  lemma CloseToEachOther(config: Config, a: Candidate, b: Candidate, c: Candidate)
    requires a.timestampMs <= c.timestampMs && b.timestampMs <= c.timestampMs
    requires IsDuplicate(config, a, c) && IsDuplicate(config, b, c)
    ensures a.trackId == b.trackId
    ensures AbsInt(a.timestampMs - b.timestampMs) < config.minCandidateIntervalMs
    ensures AbsInt(b.timestampMs - a.timestampMs) < config.minCandidateIntervalMs
  {
  }

  lemma InsertAtKeepsSpacing(config: Config, s: seq<Candidate>, p: nat, c: Candidate)
    requires DistinctTimes(s) && Spaced(config, s) && p <= |s| && Newer(c, s)
    requires forall i :: 0 <= i < |s| ==> !IsDuplicate(config, s[i], c)
    ensures DistinctTimes(InsertAt(s, p, c)) && Spaced(config, InsertAt(s, p, c))
  {
    var t := InsertAt(s, p, c);
    forall i, j | 0 <= i < j < |t|
      ensures t[i].timestampMs != t[j].timestampMs && !IsDuplicate(config, t[i], t[j])
    {
      if i == p {
        assert !IsDuplicate(config, s[j - 1], c);
      } else if j == p {
        assert !IsDuplicate(config, s[i], c);
      } else {
        var a, b := if i < p then i else i - 1, if j < p then j else j - 1;
        assert !IsDuplicate(config, s[a], s[b]) && s[a].timestampMs != s[b].timestampMs;
      }
    }
  }

  lemma WithoutKeepsSpacing(config: Config, s: seq<Candidate>, d: nat)
    requires DistinctTimes(s) && Spaced(config, s) && d < |s|
    ensures DistinctTimes(Without(s, d)) && Spaced(config, Without(s, d))
  {
    var t := Without(s, d);
    forall i, j | 0 <= i < j < |t|
      ensures t[i].timestampMs != t[j].timestampMs && !IsDuplicate(config, t[i], t[j])
    {
      var a, b := if i < d then i else i + 1, if j < d then j else j + 1;
      assert !IsDuplicate(config, s[a], s[b]) && s[a].timestampMs != s[b].timestampMs;
    }
  }

  lemma ReplacementKeepsGood(config: Config, results: seq<Candidate>, c: Candidate, d: nat, p: nat)
    requires GoodResults(config, results) && Newer(c, results)
    requires p <= d < |results| && IsDuplicate(config, results[d], c) && Splits(c, results, p)
    ensures GoodResults(config, InsertAt(Without(results, d), p, c))
  {
    var rest := Without(results, d);
    WithoutRanks(results, d);
    WithoutKeepsSpacing(config, results, d);
    forall i | 0 <= i < |rest| ensures !IsDuplicate(config, rest[i], c) {
      var k := if i < d then i else i + 1;
      if IsDuplicate(config, results[k], c) {
        DuplicateIsUnique(config, results, c, k, d);
      }
    }
    InsertAtRanks(rest, p, c);
    InsertAtKeepsSpacing(config, rest, p, c);
  }

  lemma InsertionKeepsGood(config: Config, results: seq<Candidate>, c: Candidate, p: nat)
    requires GoodResults(config, results) && Newer(c, results) && Splits(c, results, p)
    requires forall i :: 0 <= i < |results| ==> !IsDuplicate(config, results[i], c)
    ensures GoodResults(config, Truncate(InsertAt(results, p, c), config.outputCount))
  {
    InsertAtRanks(results, p, c);
    InsertAtKeepsSpacing(config, results, p, c);
  }

  // A newer frame opens a further entry exactly when its track has no candidate of the last
  // minCandidateIntervalMs; a full list then drops its last entry.
  lemma FurtherEntryExactly(config: Config, results: seq<Candidate>, c: Candidate)
    requires GoodResults(config, results) && Newer(c, results)
    ensures var after := AddCandidate(config, results, c);
            if forall i :: 0 <= i < |results| ==> !CloseBefore(config, results[i], c) then
              && |after| == MinInt(|results| + 1, config.outputCount)
              && (|results| < config.outputCount ==> c in after && forall i :: 0 <= i < |results| ==> results[i] in after)
            else |after| == |results|
  {
    var e := AddCandidateEffect(config, results, c);
    hide AddCandidate;
    EntriesOf(config, results, c, AddCandidate(config, results, c), e);
  }

  lemma EntriesOf(config: Config, before: seq<Candidate>, c: Candidate, after: seq<Candidate>, e: Effect)
    requires HasEffect(config, before, c, after, e)
    ensures e.Inserted? <==> forall i :: 0 <= i < |before| ==> !CloseBefore(config, before[i], c)
    ensures e.Inserted? ==>
      && |after| == MinInt(|before| + 1, config.outputCount)
      && (|before| < config.outputCount ==> c in after && forall i :: 0 <= i < |before| ==> before[i] in after)
    ensures !e.Inserted? ==> |after| == |before|
  {
    if e.Inserted? && |before| < config.outputCount {
      assert after[e.at] == c;
      forall i | 0 <= i < |before| ensures before[i] in after {
        assert after[if i < e.at then i else i + 1] == before[i];
      }
    }
  }

  // Adding a newer frame keeps the list ranked, distinct, spaced and bounded.
  lemma AddCandidateKeepsGood(config: Config, results: seq<Candidate>, c: Candidate)
    requires GoodResults(config, results) && Newer(c, results)
    ensures GoodResults(config, AddCandidate(config, results, c))
  {
    var e := AddCandidateEffect(config, results, c);
    match e
    case Dropped(_) =>
    case Replaced(d, p) => ReplacementKeepsGood(config, results, c, d, p);
    case Inserted(p) => InsertionKeepsGood(config, results, c, p);
  }
}
