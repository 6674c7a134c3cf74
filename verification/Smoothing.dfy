// The sliding-window moving averages: one value or one probability vector per frame, smoothed
// over the last `max` of them, in exact arithmetic.
module Smoothing {
  import opened Basics

  predicate ValidParameters(max: int, alpha: real) {
    max > 0 && 0.0 <= alpha <= 1.0
  }

  function LastOf<T>(s: seq<T>, n: nat): seq<T> {
    if |s| <= n then s else s[|s| - n..]
  }

  // The history left by a run of filter calls that starts empty and appends each input in turn.
  function HistoryAfter<T>(inputs: seq<T>, max: nat): seq<T> {
    if inputs == [] then [] else LastOf(HistoryAfter(inputs[..|inputs| - 1], max) + [inputs[|inputs| - 1]], max)
  }

  // Trimming twice is trimming once.
  lemma TrimTwice<T>(s: seq<T>, x: T, n: nat)
    requires n > 0
    ensures LastOf(LastOf(s, n) + [x], n) == LastOf(s + [x], n)
  {
    if |s| > n {
      assert s[|s| - n..] + [x] == (s + [x])[|s| - n..];
    }
  }

  // Trimming after every input keeps exactly the last `max` inputs of the whole run.
  lemma {:induction false} HistoryIsWindow<T>(inputs: seq<T>, max: nat)
    requires max > 0
    ensures HistoryAfter(inputs, max) == LastOf(inputs, max)
    ensures var window := HistoryAfter(inputs, max);
            && |window| == MinInt(|inputs|, max)
            && forall i :: 0 <= i < |window| ==> window[i] == inputs[|inputs| - |window| + i]
  {
    if inputs != [] {
      var front, last := inputs[..|inputs| - 1], inputs[|inputs| - 1];
      HistoryIsWindow(front, max);
      TrimTwice(front, last, max);
      assert inputs == front + [last];
    }
  }

  // ----- One value per frame -----

  // The oldest value of the window is the start; every later one pulls by a fraction alpha.
  function Ema(window: seq<real>, alpha: real): real
    requires window != []
  {
    if |window| == 1 then window[0]
    else Mix(window[|window| - 1], Ema(window[..|window| - 1], alpha), alpha)
  }

  function Mix(a: real, b: real, alpha: real): real {
    alpha * a + (1.0 - alpha) * b
  }

  method EmaFilter(current: real, history: seq<real>, max: int, alpha: real) returns (ema: real, newHistory: seq<real>)
    ensures if max <= 0 || alpha < 0.0 || alpha > 1.0 then ema == current && newHistory == []
            else newHistory == LastOf(history + [current], max) != [] && ema == Ema(newHistory, alpha)
  {
    if max <= 0 || alpha < 0.0 || alpha > 1.0 {
      return current, [];
    }
    newHistory := history + [current];
    if |newHistory| > max {
      newHistory := newHistory[|newHistory| - max..];
    }
    ema := newHistory[0];
    var i := 1;
    while i < |newHistory|
      invariant 1 <= i <= |newHistory|
      invariant ema == Ema(newHistory[..i], alpha)
    {
      assert newHistory[..i + 1][..i] == newHistory[..i];
      ema := Mix(newHistory[i], ema, alpha);
      i := i + 1;
    }
    assert newHistory[..i] == newHistory;
  }

  // The newest value pulls the average toward itself by the fraction alpha of its distance.
  lemma EmaMovesTowardNewest(window: seq<real>, x: real, alpha: real)
    requires window != []
    ensures Ema([x], alpha) == x
    ensures Ema(window + [x], alpha) - Ema(window, alpha) == alpha * (x - Ema(window, alpha))
  {
    assert (window + [x])[..|window|] == window;
    MixMoves(x, Ema(window, alpha), alpha);
    hide Mix;
    assert Ema(window + [x], alpha) == Mix(x, Ema(window, alpha), alpha);
  }

  lemma MixMoves(a: real, b: real, alpha: real)
    ensures Mix(a, b, alpha) - b == alpha * (a - b)
  {
  }

  // So alpha = 1 follows the newest value at once and alpha = 0 stays with the oldest.
  lemma {:induction false} EmaAtItsLimits(window: seq<real>)
    requires window != []
    ensures Ema(window, 1.0) == window[|window| - 1] && Ema(window, 0.0) == window[0]
  {
    if |window| > 1 {
      var front, x := window[..|window| - 1], window[|window| - 1];
      EmaAtItsLimits(front);
      EmaMovesTowardNewest(front, x, 1.0);
      EmaMovesTowardNewest(front, x, 0.0);
      assert front + [x] == window;
    }
  }

  ghost predicate Between(lo: real, s: seq<real>, hi: real) {
    forall i :: 0 <= i < |s| ==> lo <= s[i] <= hi
  }

  lemma MixIsBetween(a: real, b: real, alpha: real, lo: real, hi: real)
    requires 0.0 <= alpha <= 1.0 && lo <= a <= hi && lo <= b <= hi
    ensures lo <= Mix(a, b, alpha) <= hi
  {
    MixShifts(a, b, alpha, lo);
    MixShifts(a, b, alpha, hi);
    MixSign(a - lo, b - lo, alpha);
    MixSign(hi - a, hi - b, alpha);
    hide Mix;
  }

  lemma MixShifts(a: real, b: real, alpha: real, c: real)
    ensures Mix(a, b, alpha) == c + Mix(a - c, b - c, alpha) == c - Mix(c - a, c - b, alpha)
  {
  }

  lemma MixSign(a: real, b: real, alpha: real)
    requires 0.0 <= alpha <= 1.0 && a >= 0.0 && b >= 0.0
    ensures Mix(a, b, alpha) >= 0.0
  {
    Nonnegative(alpha, a);
    Nonnegative(1.0 - alpha, b);
  }

  lemma Nonnegative(k: real, a: real)
    requires k >= 0.0 && a >= 0.0
    ensures k * a >= 0.0
  {
  }

  // Smoothing never leaves the range of its window.
  lemma {:induction false} EmaIsBetween(window: seq<real>, alpha: real, lo: real, hi: real)
    requires window != [] && 0.0 <= alpha <= 1.0 && Between(lo, window, hi)
    ensures lo <= Ema(window, alpha) <= hi
  {
    if |window| > 1 {
      EmaIsBetween(window[..|window| - 1], alpha, lo, hi);
      MixIsBetween(window[|window| - 1], Ema(window[..|window| - 1], alpha), alpha, lo, hi);
    }
  }

  // After any run of valid calls the answer depends on the last `max` inputs only and lies within
  // their range, whatever came before.
  lemma FilterRunIsBetween(inputs: seq<real>, max: nat, alpha: real, lo: real, hi: real)
    requires inputs != [] && ValidParameters(max, alpha) && Between(lo, LastOf(inputs, max), hi)
    ensures HistoryAfter(inputs, max) != [] && lo <= Ema(HistoryAfter(inputs, max), alpha) <= hi
  {
    HistoryIsWindow(inputs, max);
    EmaIsBetween(LastOf(inputs, max), alpha, lo, hi);
  }

  // ----- One vector per frame -----

  predicate AllOfSize(history: seq<seq<real>>, size: nat) {
    forall i :: 0 <= i < |history| ==> |history[i]| == size
  }

  function MixVectors(a: seq<real>, b: seq<real>, alpha: real): (c: seq<real>)
    requires |a| == |b|
    ensures |c| == |a|
  {
    seq(|a|, j requires 0 <= j < |a| => Mix(a[j], b[j], alpha))
  }

  function VectorEma(window: seq<seq<real>>, size: nat, alpha: real): (v: seq<real>)
    requires window != [] && AllOfSize(window, size)
    ensures |v| == size
  {
    if |window| == 1 then window[0]
    else MixVectors(window[|window| - 1], VectorEma(window[..|window| - 1], size, alpha), alpha)
  }

  // The history the new vector joins: one of another size makes the filter start over.
  function Joined(current: seq<real>, history: seq<seq<real>>, max: nat): seq<seq<real>> {
    LastOf((if AllOfSize(history, |current|) then history else []) + [current], max)
  }

  method VectorEmaFilter(current: seq<real>, history: seq<seq<real>>, max: int, alpha: real)
    returns (ema: seq<real>, newHistory: seq<seq<real>>)
    ensures if max <= 0 || alpha < 0.0 || alpha > 1.0 || current == [] then ema == current && newHistory == []
            else
      && newHistory == Joined(current, history, max) != [] && AllOfSize(newHistory, |current|)
      && ema == VectorEma(newHistory, |current|, alpha)
  {
    hide Mix;
    if max <= 0 || current == [] || alpha < 0.0 || alpha > 1.0 {
      return current, [];
    }
    newHistory := history;
    if !AllOfSize(newHistory, |current|) {
      newHistory := [];
    }
    newHistory := newHistory + [current];
    if |newHistory| > max {
      newHistory := newHistory[|newHistory| - max..];
    }
    if |newHistory| == 1 {
      return newHistory[0], newHistory;
    }
    ema := newHistory[0];
    var i := 1;
    while i < |newHistory|
      invariant 1 <= i <= |newHistory|
      invariant ema == VectorEma(newHistory[..i], |current|, alpha)
    {
      assert newHistory[..i + 1][..i] == newHistory[..i];
      ghost var before := ema;
      var j := 0;
      while j < |ema|
        invariant 0 <= j <= |ema| == |current|
        invariant forall k :: 0 <= k < j ==> ema[k] == Mix(newHistory[i][k], before[k], alpha)
        invariant forall k :: j <= k < |ema| ==> ema[k] == before[k]
      {
        ema := ema[j := Mix(newHistory[i][j], ema[j], alpha)];
        j := j + 1;
      }
      assert ema == MixVectors(newHistory[i], before, alpha);
      assert ema == VectorEma(newHistory[..i + 1], |current|, alpha);
      i := i + 1;
    }
    assert newHistory[..i] == newHistory;
  }

  function Column(history: seq<seq<real>>, size: nat, j: nat): (c: seq<real>)
    requires AllOfSize(history, size) && j < size
    ensures |c| == |history|
  {
    seq(|history|, i requires 0 <= i < |history| => history[i][j])
  }

  lemma {:induction false} VectorEmaOfColumn(window: seq<seq<real>>, size: nat, alpha: real, j: nat)
    requires window != [] && AllOfSize(window, size) && j < size
    ensures VectorEma(window, size, alpha)[j] == Ema(Column(window, size, j), alpha)
  {
    if |window| > 1 {
      var front := window[..|window| - 1];
      VectorEmaOfColumn(front, size, alpha, j);
      assert Column(window, size, j)[..|window| - 1] == Column(front, size, j);
    }
  }

  // Over any run of vectors of one size, each coordinate of the vector filter is the scalar
  // filter run on that coordinate.
  lemma VectorRunIsScalarRuns(inputs: seq<seq<real>>, size: nat, max: nat, alpha: real, j: nat)
    requires inputs != [] && AllOfSize(inputs, size) && j < size && ValidParameters(max, alpha)
    ensures HistoryAfter(inputs, max) != [] && AllOfSize(HistoryAfter(inputs, max), size)
    ensures HistoryAfter(Column(inputs, size, j), max) != []
    ensures VectorEma(HistoryAfter(inputs, max), size, alpha)[j] == Ema(HistoryAfter(Column(inputs, size, j), max), alpha)
  {
    HistoryIsWindow(inputs, max);
    HistoryIsWindow(Column(inputs, size, j), max);
    assert Column(LastOf(inputs, max), size, j) == LastOf(Column(inputs, size, j), max);
    VectorEmaOfColumn(LastOf(inputs, max), size, alpha, j);
  }

  // The trimmed run is the run of calls: joining a vector of the same size continues it.
  lemma JoiningContinuesTheRun(inputs: seq<seq<real>>, current: seq<real>, max: nat)
    requires max > 0 && AllOfSize(inputs, |current|)
    ensures Joined(current, HistoryAfter(inputs, max), max) == HistoryAfter(inputs + [current], max)
  {
    HistoryIsWindow(inputs, max);
    assert AllOfSize(HistoryAfter(inputs, max), |current|);
    assert (inputs + [current])[..|inputs|] == inputs;
  }

  lemma MixAdds(a: real, b: real, c: real, d: real, alpha: real)
    ensures Mix(a, b, alpha) + Mix(c, d, alpha) == Mix(a + c, b + d, alpha)
  {
  }

  lemma {:induction false} SumOfMix(a: seq<real>, b: seq<real>, alpha: real)
    requires |a| == |b|
    ensures Sum(MixVectors(a, b, alpha)) == Mix(Sum(a), Sum(b), alpha)
  {
    if a == [] {
      assert Mix(0.0, 0.0, alpha) == 0.0;
    } else {
      var n := |a| - 1;
      SumOfMix(a[..n], b[..n], alpha);
      assert MixVectors(a, b, alpha)[..n] == MixVectors(a[..n], b[..n], alpha);
      MixAdds(Sum(a[..n]), Sum(b[..n]), a[n], b[n], alpha);
      hide Mix;
    }
  }

  // Smoothed probabilities stay probabilities: a common coordinate sum is preserved.
  lemma {:induction false} VectorEmaKeepsTheSum(window: seq<seq<real>>, size: nat, alpha: real, total: real)
    requires window != [] && AllOfSize(window, size)
    requires forall i :: 0 <= i < |window| ==> Sum(window[i]) == total
    ensures Sum(VectorEma(window, size, alpha)) == total
  {
    if |window| > 1 {
      var front := window[..|window| - 1];
      VectorEmaKeepsTheSum(front, size, alpha, total);
      SumOfMix(window[|window| - 1], VectorEma(front, size, alpha), alpha);
      assert Mix(total, total, alpha) == total;
      hide Mix;
    }
  }
}
