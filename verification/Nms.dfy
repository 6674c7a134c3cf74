// Greedy non-maximum suppression over the tracked faces: the retained-list loop of the tracker,
// and the recursive definition it computes.
module Nms {
  import opened Basics

  // What the tracker needs to know of a tracked face. TrackFace never changes the id.
  datatype Face = Face(id: int, box: Rect, confidence: real)

  const NMS_THRESHOLD := 0.5

  // One side of the intersection of two intervals, both end points included.
  function Side(a: int, aLength: int, b: int, bLength: int): int {
    MaxInt(0, MinInt(a + aLength, b + bLength) - MaxInt(a, b) + 1)
  }

  function Intersection(a: Rect, b: Rect): int {
    Side(a.x, a.width, b.x, b.width) * Side(a.y, a.height, b.y, b.height)
  }

  // `inter / union >= th` on floats: x / 0 is infinite for positive x, and 0 / 0 compares false.
  predicate RatioAtLeast(inter: int, union: int, th: real) {
    if union == 0 then inter > 0 else inter as real / union as real >= th
  }

  predicate Overlaps(a: Face, b: Face, th: real) {
    var inter := Intersection(a.box, b.box);
    RatioAtLeast(inter, a.box.Area() + b.box.Area() - inter, th)
  }

  lemma OverlapsIsSymmetric(a: Face, b: Face, th: real)
    ensures Overlaps(a, b, th) == Overlaps(b, a, th)
  {
    assert Intersection(a.box, b.box) == Intersection(b.box, a.box);
  }

  // `inter / union >= 1/2` without the division, for a positive intersection.
  lemma HalfRatio(inter: int, union: int)
    requires inter > 0
    ensures RatioAtLeast(inter, union, NMS_THRESHOLD) <==> 0 <= union <= 2 * inter
  {
    if union > 0 {
      DivLess(inter as real, union as real, 0.5);
    } else if union < 0 {
      DivLess(-(inter as real), -(union as real), 0.5);
      assert inter as real / union as real == -(inter as real) / -(union as real);
      DivLess(-(inter as real), -(union as real), 0.0);
    }
  }

  // ----- What the formula measures -----

  function Interval(lo: int, hi: int): (xs: set<int>)
    ensures forall x :: x in xs <==> lo <= x <= hi
    decreases hi - lo
  {
    if lo > hi then {} else Interval(lo, hi - 1) + {hi}
  }

  function Grid(left: int, right: int, top: int, bottom: int): set<(int, int)> {
    set x, y | x in Interval(left, right) && y in Interval(top, bottom) :: (x, y)
  }

  // The integer points of a box, its border included.
  function Points(a: Rect): set<(int, int)> {
    Grid(a.x, a.x + a.width, a.y, a.y + a.height)
  }

  lemma LastColumn(left: int, right: int, top: int, bottom: int)
    requires left <= right
    ensures Grid(left, right, top, bottom) == Grid(left, right - 1, top, bottom) + Grid(right, right, top, bottom)
    ensures Grid(left, right - 1, top, bottom) !! Grid(right, right, top, bottom)
  {
  }

  function Cells(columns: nat, rows: nat): nat {
    columns * rows
  }

  lemma CellsByColumn(columns: nat, rows: nat)
    ensures Cells(0, rows) == 0 && Cells(columns + 1, rows) == Cells(columns, rows) + rows
  {
  }

  lemma {:induction false} GridSize(left: int, right: int, top: int, bottom: int)
    ensures |Grid(left, right, top, bottom)| == Cells(MaxInt(0, right - left + 1), MaxInt(0, bottom - top + 1))
    decreases right - left
  {
    if left > right {
      assert Grid(left, right, top, bottom) == {};
      CellsByColumn(0, MaxInt(0, bottom - top + 1));
    } else {
      GridSize(left, right - 1, top, bottom);
      ColumnSize(right, top, bottom);
      LastColumn(left, right, top, bottom);
      CellsByColumn(right - left, MaxInt(0, bottom - top + 1));
      hide Grid, Interval, Cells;
      assert |Grid(left, right, top, bottom)|
          == |Grid(left, right - 1, top, bottom)| + |Grid(right, right, top, bottom)|;
    }
  }

  lemma {:induction false} ColumnSize(x: int, top: int, bottom: int)
    ensures |Grid(x, x, top, bottom)| == MaxInt(0, bottom - top + 1)
    decreases bottom - top
  {
    if top > bottom {
      assert Grid(x, x, top, bottom) == {};
    } else {
      ColumnSize(x, top, bottom - 1);
      assert Grid(x, x, top, bottom) == Grid(x, x, top, bottom - 1) + {(x, bottom)};
    }
  }

  // The intersection counts the points two boxes have in common.
  lemma IntersectionCountsCommonPoints(a: Rect, b: Rect)
    ensures Intersection(a, b) == |Points(a) * Points(b)|
  {
    var left, right := MaxInt(a.x, b.x), MinInt(a.x + a.width, b.x + b.width);
    var top, bottom := MaxInt(a.y, b.y), MinInt(a.y + a.height, b.y + b.height);
    CommonIsGrid(a, b);
    GridSize(left, right, top, bottom);
    hide Interval, Grid, Points;
  }

  lemma CommonIsGrid(a: Rect, b: Rect)
    ensures Points(a) * Points(b)
         == Grid(MaxInt(a.x, b.x), MinInt(a.x + a.width, b.x + b.width), MaxInt(a.y, b.y),
                 MinInt(a.y + a.height, b.y + b.height))
  {
    hide Interval;
  }

  // Two faces overlap exactly when their boxes have common points and the two areas together lie
  // between one and three times the number of those points.
  lemma OverlapsExactly(a: Face, b: Face)
    ensures Overlaps(a, b, NMS_THRESHOLD) <==>
      var common, areas := |Points(a.box) * Points(b.box)|, a.box.Area() + b.box.Area();
      common > 0 && common <= areas <= 3 * common
  {
    IntersectionCountsCommonPoints(a.box, b.box);
    var inter, areas := Intersection(a.box, b.box), a.box.Area() + b.box.Area();
    hide Points, Intersection;
    if inter > 0 {
      HalfRatio(inter, areas - inter);
    } else {
      NoRatio(areas);
    }
  }

  lemma NoRatio(union: int)
    ensures !RatioAtLeast(0, union, NMS_THRESHOLD)
  {
  }

  // Boxes without a common point never overlap.
  lemma DisjointNeverOverlap(a: Face, b: Face)
    requires Points(a.box) * Points(b.box) == {}
    ensures !Overlaps(a, b, NMS_THRESHOLD)
  {
    OverlapsExactly(a, b);
  }

  // The intersection counts end points, the area does not. So of two faces with one and the same
  // box the second is suppressed exactly when the box is not tiny.
  lemma SameBoxIsSuppressedExactly(a: Face, b: Face)
    requires a.box == b.box && a.box.width >= 0 && a.box.height >= 0
    ensures Overlaps(a, b, NMS_THRESHOLD) <==> 2 * a.box.Area() >= (a.box.width + 1) * (a.box.height + 1)
  {
    var area, inter := a.box.Area(), (a.box.width + 1) * (a.box.height + 1);
    assert Intersection(a.box, b.box) == inter;
    assert inter == area + a.box.width + a.box.height + 1;
    assert area >= 0;
    HalfRatio(inter, 2 * area - inter);
  }

  // The overlap test suppression works with: any symmetric relation on faces.
  type Overlap = (Face, Face) -> bool

  function OverlapAt(th: real): Overlap {
    (a, b) => Overlaps(a, b, th)
  }

  ghost predicate Symmetric(over: Overlap) {
    forall a, b :: over(a, b) == over(b, a)
  }

  lemma OverlapAtIsSymmetric(th: real)
    ensures Symmetric(OverlapAt(th))
  {
    forall a, b ensures Overlaps(a, b, th) == Overlaps(b, a, th) {
      OverlapsIsSymmetric(a, b, th);
    }
  }

  // ----- The recursive definition -----

  function NotOverlapping(s: seq<Face>, f: Face, over: Overlap): (t: seq<Face>)
    ensures |t| <= |s|
  {
    if s == [] then []
    else if over(f, s[0]) then NotOverlapping(s[1..], f, over)
    else [s[0]] + NotOverlapping(s[1..], f, over)
  }

  // Keep the first face, drop every other one that overlaps it, go on with the rest.
  function Greedy(s: seq<Face>, over: Overlap): seq<Face>
    decreases |s|
  {
    if s == [] then [] else [s[0]] + Greedy(NotOverlapping(s[1..], s[0], over), over)
  }

  ghost predicate ByConfidence(s: seq<Face>) {
    forall i, j :: 0 <= i < j < |s| ==> s[i].confidence >= s[j].confidence
  }

  // What std::sort may leave: any order of the same faces that is descending in confidence.
  ghost predicate IsSorting(sort: seq<Face> -> seq<Face>) {
    forall s :: multiset(sort(s)) == multiset(s) && ByConfidence(sort(s))
  }

  predicate OverlapsAny(kept: seq<Face>, f: Face, over: Overlap) {
    exists i :: 0 <= i < |kept| && over(kept[i], f)
  }

  // The smallest case: of two faces with one box of a single pixel side, suppression keeps both.
  lemma TinySameBoxesAreBothKept(id: int, otherId: int, confidence: real, otherConfidence: real)
    ensures var s := [Face(id, Rect(0, 0, 1, 1), confidence), Face(otherId, Rect(0, 0, 1, 1), otherConfidence)];
            Greedy(s, OverlapAt(NMS_THRESHOLD)) == s
  {
    var a, b := Face(id, Rect(0, 0, 1, 1), confidence), Face(otherId, Rect(0, 0, 1, 1), otherConfidence);
    SameBoxIsSuppressedExactly(a, b);
    assert !OverlapAt(NMS_THRESHOLD)(a, b);
    hide Overlaps, OverlapAt;
    var over := OverlapAt(NMS_THRESHOLD);
    assert [a, b][1..] == [b] && NotOverlapping([], a, over) == [] && NotOverlapping([b], a, over) == [b];
    assert Greedy([b], over) == [b];
  }

  // ----- The loop computes the recursive definition -----

  lemma {:induction false} NotOverlappingAppend(s: seq<Face>, c: Face, f: Face, over: Overlap)
    ensures NotOverlapping(s + [c], f, over) == NotOverlapping(s, f, over) + if over(f, c) then [] else [c]
  {
    if s != [] {
      NotOverlappingAppend(s[1..], c, f, over);
      assert (s + [c])[1..] == s[1..] + [c];
    }
  }

  lemma {:induction false} OverlapsAnyOf(h: Face, rest: seq<Face>, c: Face, over: Overlap)
    ensures OverlapsAny([h] + rest, c, over) == (over(h, c) || OverlapsAny(rest, c, over))
  {
    var s := [h] + rest;
    assert s[0] == h && forall i :: 0 <= i < |rest| ==> s[i + 1] == rest[i];
    assert forall i :: 1 <= i < |s| ==> s[i] == rest[i - 1];
  }

  // One more face at the end is kept exactly when it overlaps none of the faces kept so far.
  lemma {:induction false} GreedyAppend(s: seq<Face>, c: Face, over: Overlap)
    ensures Greedy(s + [c], over) == Greedy(s, over) + if OverlapsAny(Greedy(s, over), c, over) then [] else [c]
    decreases |s|
  {
    if s == [] {
      assert NotOverlapping([], c, over) == [];
      assert Greedy(s + [c], over) == [c];
    } else {
      var rest := NotOverlapping(s[1..], s[0], over);
      assert (s + [c])[1..] == s[1..] + [c];
      NotOverlappingAppend(s[1..], c, s[0], over);
      assert Greedy(s, over) == [s[0]] + Greedy(rest, over);
      OverlapsAnyOf(s[0], Greedy(rest, over), c, over);
      hide OverlapsAny, NotOverlapping;
      if over(s[0], c) {
        assert Greedy(s + [c], over) == [s[0]] + Greedy(rest + [], over);
        assert rest + [] == rest;
      } else {
        GreedyAppend(rest, c, over);
        assert Greedy(s + [c], over) == [s[0]] + Greedy(rest + [c], over);
      }
    }
  }

  method Suppress(sorted: seq<Face>, th: real) returns (retained: seq<Face>)
    ensures retained == Greedy(sorted, OverlapAt(th))
  {
    retained := [];
    var retainedAreas: seq<int> := [];
    var k := 0;
    while k < |sorted|
      invariant 0 <= k <= |sorted|
      invariant retained == Greedy(sorted[..k], OverlapAt(th))
      invariant |retainedAreas| == |retained|
      invariant forall i :: 0 <= i < |retained| ==> retainedAreas[i] == retained[i].box.Area()
    {
      var candidate := sorted[k];
      var candidateArea := candidate.box.Area();
      var suppressed := false;
      var i := 0;
      while i < |retained| && !suppressed
        invariant 0 <= i <= |retained|
        invariant suppressed ==> OverlapsAny(retained, candidate, OverlapAt(th))
        invariant !suppressed ==> forall j :: 0 <= j < i ==> !Overlaps(retained[j], candidate, th)
        decreases |retained| - i, !suppressed
      {
        var inter := Intersection(retained[i].box, candidate.box);
        if RatioAtLeast(inter, retainedAreas[i] + candidateArea - inter, th) {
          assert OverlapAt(th)(retained[i], candidate);
          suppressed := true;
        } else {
          i := i + 1;
        }
      }
      GreedyAppend(sorted[..k], candidate, OverlapAt(th));
      assert sorted[..k + 1] == sorted[..k] + [candidate];
      if !suppressed {
        retained, retainedAreas := retained + [candidate], retainedAreas + [candidateArea];
      }
      k := k + 1;
    }
    assert sorted[..k] == sorted;
  }

  // ----- What suppression promises -----

  ghost predicate Separated(s: seq<Face>, over: Overlap) {
    forall i, j :: 0 <= i < |s| && 0 <= j < |s| && i != j ==> !over(s[i], s[j])
  }

  // f stands in s, or overlaps a face of s that is at least as confident.
  ghost predicate Represented(f: Face, s: seq<Face>, over: Overlap) {
    f in s || exists i :: 0 <= i < |s| && over(s[i], f) && s[i].confidence >= f.confidence
  }

  lemma {:induction false} KeptAreSeparated(s: seq<Face>, over: Overlap)
    requires Symmetric(over)
    ensures Separated(Greedy(s, over), over)
  {
    if s == [] {
    } else {
      var front, c := s[..|s| - 1], s[|s| - 1];
      KeptAreSeparated(front, over);
      GreedyAppend(front, c, over);
      assert s == front + [c];
      var kept := Greedy(front, over);
      forall i | 0 <= i < |kept| && !OverlapsAny(kept, c, over) ensures !over(kept[i], c) && !over(c, kept[i]) {
        assert over(c, kept[i]) == over(kept[i], c);
      }
    }
  }

  lemma {:induction false} KeptAreInput(s: seq<Face>, over: Overlap)
    ensures multiset(Greedy(s, over)) <= multiset(s)
  {
    if s == [] {
    } else {
      var front, c := s[..|s| - 1], s[|s| - 1];
      KeptAreInput(front, over);
      GreedyAppend(front, c, over);
      hide Greedy;
      assert s == front + [c];
      var kept := Greedy(front, over);
      assert multiset(kept + [c]) == multiset(kept) + multiset{c};
    }
  }

  lemma {:induction false} KeptAreOrdered(s: seq<Face>, over: Overlap)
    requires ByConfidence(s)
    ensures ByConfidence(Greedy(s, over))
  {
    if s == [] {
    } else {
      var front, c := s[..|s| - 1], s[|s| - 1];
      KeptAreOrdered(front, over);
      GreedyAppend(front, c, over);
      KeptAreInput(front, over);
      hide Greedy;
      assert s == front + [c];
      forall i | 0 <= i < |Greedy(front, over)| ensures Greedy(front, over)[i].confidence >= c.confidence {
        assert Greedy(front, over)[i] in multiset(front);
      }
    }
  }

  lemma RepresentedInMore(f: Face, s: seq<Face>, more: seq<Face>, over: Overlap)
    requires Represented(f, s, over)
    ensures Represented(f, s + more, over)
  {
    if f !in s {
      var i :| 0 <= i < |s| && over(s[i], f) && s[i].confidence >= f.confidence;
      assert (s + more)[i] == s[i];
    }
  }

  lemma NextIsRepresented(kept: seq<Face>, c: Face, over: Overlap)
    requires forall i :: 0 <= i < |kept| ==> kept[i].confidence >= c.confidence
    ensures Represented(c, kept + if OverlapsAny(kept, c, over) then [] else [c], over)
  {
    if OverlapsAny(kept, c, over) {
      assert Represented(c, kept, over) && kept + [] == kept;
    } else {
      assert (kept + [c])[|kept|] == c;
    }
  }

  lemma {:induction false} EveryFaceIsRepresented(s: seq<Face>, over: Overlap, f: Face)
    requires ByConfidence(s) && f in s
    ensures Represented(f, Greedy(s, over), over)
  {
    var front, c := s[..|s| - 1], s[|s| - 1];
    assert s == front + [c];
    GreedyAppend(front, c, over);
    KeptAreInput(front, over);
    var kept := Greedy(front, over);
    forall i | 0 <= i < |kept| ensures kept[i].confidence >= c.confidence {
      assert kept[i] in multiset(front);
    }
    NextIsRepresented(kept, c, over);
    if f in front {
      EveryFaceIsRepresented(front, over, f);
      RepresentedInMore(f, kept, if OverlapsAny(kept, c, over) then [] else [c], over);
    }
    hide Greedy, Represented, OverlapsAny;
  }

  // The whole of suppression after any sort: separate faces of the input, the most confident
  // first, and every dropped face overlaps a retained one of at least its confidence.
  lemma {:induction false} SuppressionIsSound(faces: seq<Face>, sort: seq<Face> -> seq<Face>, over: Overlap)
    requires IsSorting(sort) && Symmetric(over)
    ensures var kept := Greedy(sort(faces), over);
            && Separated(kept, over) && ByConfidence(kept) && multiset(kept) <= multiset(faces)
            && forall f :: f in faces ==> Represented(f, kept, over)
  {
    KeptAreSeparated(sort(faces), over);
    KeptAreInput(sort(faces), over);
    KeptAreOrdered(sort(faces), over);
    forall f | f in faces ensures Represented(f, Greedy(sort(faces), over), over) {
      assert f in multiset(faces);
      EveryFaceIsRepresented(sort(faces), over, f);
    }
  }

  lemma {:induction false} SeparatedIsKept(s: seq<Face>, over: Overlap)
    requires Separated(s, over)
    ensures Greedy(s, over) == s
  {
    if s != [] {
      var front, c := s[..|s| - 1], s[|s| - 1];
      assert s == front + [c];
      SeparatedIsKept(front, over);
      GreedyAppend(front, c, over);
      assert !OverlapsAny(front, c, over);
    }
  }

  // Being separate does not depend on the order.
  lemma {:induction false} OrderedSeparated(s: seq<Face>, t: seq<Face>, over: Overlap)
    requires Separated(s, over) && multiset(s) == multiset(t)
    ensures Separated(t, over)
  {
    forall i, j | 0 <= i < |t| && 0 <= j < |t| && i != j ensures !over(t[i], t[j]) {
      var a, b := TwoPlaces(t, s, i, j);
      assert !over(s[a], s[b]);
    }
  }

  lemma Removed(s: seq<Face>, a: nat)
    requires a < |s|
    ensures multiset(s[..a] + s[a + 1..]) == multiset(s) - multiset{s[a]}
  {
    assert s == s[..a] + ([s[a]] + s[a + 1..]);
  }

  lemma PlaceOf(s: seq<Face>, f: Face) returns (a: nat)
    requires f in multiset(s)
    ensures a < |s| && s[a] == f
  {
    a :| 0 <= a < |s| && s[a] == f;
  }

  // Two places of one list have two matching places in any list that has all its faces.
  lemma TwoPlaces(t: seq<Face>, s: seq<Face>, i: nat, j: nat) returns (a: nat, b: nat)
    requires multiset(t) <= multiset(s) && i < |t| && j < |t| && i != j
    ensures a < |s| && b < |s| && a != b && s[a] == t[i] && s[b] == t[j]
  {
    assert t[i] in multiset(t);
    a := PlaceOf(s, t[i]);
    Removed(s, a);
    Removed(t, i);
    var others, rest := t[..i] + t[i + 1..], s[..a] + s[a + 1..];
    assert others[if j < i then j else j - 1] == t[j];
    assert t[j] in multiset(others);
    assert multiset(rest)[t[j]] >= multiset(others)[t[j]];
    var k := PlaceOf(rest, t[j]);
    b := if k < a then k else k + 1;
  }

  // Idempotence, up to the order of equally confident faces: whatever order the second sort
  // leaves, suppression keeps all of it.
  lemma {:induction false} SuppressionIsIdempotent(
      faces: seq<Face>, first: seq<Face> -> seq<Face>, second: seq<Face> -> seq<Face>, over: Overlap)
    requires IsSorting(first) && IsSorting(second) && Symmetric(over)
    ensures var kept := Greedy(first(faces), over);
            Greedy(second(kept), over) == second(kept) && multiset(second(kept)) == multiset(kept)
  {
    var kept := Greedy(first(faces), over);
    KeptAreSeparated(first(faces), over);
    OrderedSeparated(kept, second(kept), over);
    SeparatedIsKept(second(kept), over);
  }
}
