// Similarity of two face features: the four-lane dot product and the cosine similarity on top of
// it, in exact arithmetic.
module Similarity {
  import opened Basics

  function Dot(x: seq<real>, y: seq<real>, n: nat): real
    requires n <= |x| && n <= |y|
  {
    if n == 0 then 0.0 else Dot(x, y, n - 1) + x[n - 1] * y[n - 1]
  }

  lemma OneMore(x: seq<real>, y: seq<real>, i: nat)
    requires i < |x| && i < |y|
    ensures Dot(x, y, i + 1) == Dot(x, y, i) + x[i] * y[i]
  {
  }

  lemma FourMore(x: seq<real>, y: seq<real>, i: nat)
    requires i + 4 <= |x| && i + 4 <= |y|
    ensures Dot(x, y, i + 4) == Dot(x, y, i) + x[i] * y[i] + x[i + 1] * y[i + 1] + x[i + 2] * y[i + 2] + x[i + 3] * y[i + 3]
  {
    assert Dot(x, y, i + 2) == Dot(x, y, i + 1) + x[i + 1] * y[i + 1];
    assert Dot(x, y, i + 4) == Dot(x, y, i + 3) + x[i + 3] * y[i + 3];
  }

  // Four lanes of partial sums while more than four elements remain, then the rest one by one.
  method LaneDot(x: seq<real>, y: seq<real>, length: int) returns (product: real)
    requires length <= |x| && length <= |y|
    ensures product == if length <= 0 then 0.0 else Dot(x, y, length)
  {
    assert length >= 0 ==> Dot(x, y, 0) == 0.0;
    hide Dot;
    var lane0, lane1, lane2, lane3 := 0.0, 0.0, 0.0, 0.0;
    var i := 0;
    while i + 4 < length
      invariant 0 <= i && (i <= length || length < 0)
      invariant i > 0 ==> i < length
      invariant i <= length ==> lane0 + lane1 + lane2 + lane3 == Dot(x, y, i)
      invariant i == 0 ==> lane0 == lane1 == lane2 == lane3 == 0.0
      decreases length - i
    {
      FourMore(x, y, i);
      lane0, lane1 := lane0 + x[i] * y[i], lane1 + x[i + 1] * y[i + 1];
      lane2, lane3 := lane2 + x[i + 2] * y[i + 2], lane3 + x[i + 3] * y[i + 3];
      i := i + 4;
    }
    product := lane0 + lane1 + lane2 + lane3;
    while i < length
      invariant 0 <= i && (i <= length || length < 0)
      invariant i <= length ==> product == Dot(x, y, i)
      invariant length < 0 ==> product == 0.0
    {
      OneMore(x, y, i);
      product := product + x[i] * y[i];
      i := i + 1;
    }
  }

  method ScalarDot(x: seq<real>, y: seq<real>, length: int) returns (product: real)
    requires length <= |x| && length <= |y|
    ensures product == if length <= 0 then 0.0 else Dot(x, y, length)
  {
    product := 0.0;
    var i := 0;
    while i < length
      invariant 0 <= i && (i <= length || length < 0)
      invariant i <= length ==> product == Dot(x, y, i)
      invariant length < 0 ==> product == 0.0
    {
      product := product + x[i] * y[i];
      i := i + 1;
    }
  }

  // ----- Cosine similarity -----

  // The exact square root.
  ghost predicate IsRoot(sqrt: real -> real) {
    forall n :: n >= 0.0 ==> sqrt(n) >= 0.0 && sqrt(n) * sqrt(n) == n
  }

  datatype Comparison = Rejected | Compared(similarity: real)

  function Norm2(x: seq<real>): real {
    Dot(x, x, |x|)
  }

  // The quotient of a dot product by the lengths, which the clamp is applied to.
  function Cosine(dot: real, length: real, otherLength: real): real
    requires length * otherLength != 0.0
  {
    dot / (length * otherLength)
  }

  // A zero feature has no direction.
  function Normalized(dot: real, xx: real, yy: real, sqrt: real -> real): Comparison {
    if xx <= 0.0 || yy <= 0.0 || sqrt(xx) * sqrt(yy) == 0.0 then Rejected
    else Compared(Max(-1.0, Min(1.0, Cosine(dot, sqrt(xx), sqrt(yy)))))
  }

  function Compare(x: seq<real>, y: seq<real>, normalize: bool, sqrt: real -> real): Comparison {
    if |x| != |y| || x == [] then Rejected
    else if !normalize then Compared(Dot(x, y, |x|))
    else Normalized(Dot(x, y, |x|), Norm2(x), Norm2(y), sqrt)
  }

  lemma RootsArePositive(xx: real, yy: real, sqrt: real -> real)
    requires IsRoot(sqrt) && xx > 0.0 && yy > 0.0
    ensures sqrt(xx) > 0.0 && sqrt(yy) > 0.0 && sqrt(xx) * sqrt(yy) > 0.0
    ensures sqrt(xx) * sqrt(xx) == xx && sqrt(yy) * sqrt(yy) == yy
  {
    RootIsPositive(xx, sqrt);
    RootIsPositive(yy, sqrt);
  }

  lemma RootIsPositive(n: real, sqrt: real -> real)
    requires IsRoot(sqrt) && n > 0.0
    ensures sqrt(n) > 0.0 && sqrt(n) * sqrt(n) == n
  {
    assert sqrt(n) != 0.0;
  }

  method SquaredNorms(x: seq<real>, y: seq<real>, size: nat) returns (left: real, right: real)
    requires size <= |x| && size <= |y|
    ensures left == Dot(x, x, size) && right == Dot(y, y, size)
  {
    left, right := 0.0, 0.0;
    var i := 0;
    while i < size
      invariant 0 <= i <= size
      invariant left == Dot(x, x, i) && right == Dot(y, y, i)
    {
      left, right := left + x[i] * x[i], right + y[i] * y[i];
      i := i + 1;
    }
  }

  // The comparison of two buffers; None is a null pointer, 0 the result left on an error.
  method CosineSimilarity(v1: Option<seq<real>>, v2: Option<seq<real>>, size: int, normalize: bool, sqrt: real -> real)
    returns (ok: bool, res: real)
    requires IsRoot(sqrt)
    requires v1.Some? && v2.Some? ==> size <= |v1.value| && size <= |v2.value|
    ensures v1.None? || v2.None? || size <= 0 ==> !ok && res == 0.0
    ensures v1.Some? && v2.Some? && size > 0 ==>
      var answer := Compare(v1.value[..size], v2.value[..size], normalize, sqrt);
      ok == answer.Compared? && res == if ok then answer.similarity else 0.0
  {
    res := 0.0;
    if v1.None? || v2.None? || size <= 0 {
      return false, res;
    }
    var x, y := v1.value, v2.value;
    PrefixDot(x, y, x[..size], y[..size], size);
    if !normalize {
      res := LaneDot(x, y, size);
      return true, res;
    }
    var left, right := SquaredNorms(x, y, size);
    PrefixDot(x, x, x[..size], x[..size], size);
    PrefixDot(y, y, y[..size], y[..size], size);
    hide Dot, IsRoot, Cosine;
    if !(left > 0.0) || !(right > 0.0) {
      return false, res;
    }
    RootsArePositive(left, right, sqrt);
    var dot := LaneDot(x, y, size);
    if dot == 0.0 {
      dot := ScalarDot(x, y, size);
    }
    var similarity := Cosine(dot, sqrt(left), sqrt(right));
    return true, Max(-1.0, Min(1.0, similarity));
  }

  // Two features as lists: different or zero lengths are rejected before anything is read.
  method CompareFeatures(v1: seq<real>, v2: seq<real>, normalize: bool, sqrt: real -> real) returns (ok: bool, res: real)
    requires IsRoot(sqrt)
    ensures var answer := Compare(v1, v2, normalize, sqrt);
            ok == answer.Compared? && res == if ok then answer.similarity else 0.0
  {
    if |v1| != |v2| || |v1| == 0 {
      return false, 0.0;
    }
    assert v1[..|v1|] == v1 && v2[..|v1|] == v2;
    ok, res := CosineSimilarity(Some(v1), Some(v2), |v1|, normalize, sqrt);
  }

  lemma {:induction false} PrefixDot(x: seq<real>, y: seq<real>, a: seq<real>, b: seq<real>, n: nat)
    requires n <= |a| <= |x| && n <= |b| <= |y| && a == x[..|a|] && b == y[..|b|]
    ensures Dot(x, y, n) == Dot(a, b, n)
  {
    if n > 0 {
      PrefixDot(x, y, a, b, n - 1);
    }
  }

  // ----- Cauchy-Schwarz -----

  lemma {:induction false} DotCommutes(x: seq<real>, y: seq<real>, n: nat)
    requires n <= |x| && n <= |y|
    ensures Dot(x, y, n) == Dot(y, x, n)
  {
    if n > 0 {
      DotCommutes(x, y, n - 1);
    }
  }

  function Square(a: real): real {
    a * a
  }

  function Coordinate(p: real, a: real, q: real, b: real): real {
    p * a + q * b
  }

  // The squared length of p * x + q * y, over the first n coordinates.
  function Combined(x: seq<real>, y: seq<real>, n: nat, p: real, q: real): real
    requires n <= |x| && n <= |y|
  {
    if n == 0 then 0.0
    else
      Combined(x, y, n - 1, p, q) + Square(Coordinate(p, x[n - 1], q, y[n - 1]))
  }

  function Times(k: real, a: real): real {
    k * a
  }

  // How far the squared lengths and the dot product are from equality in Cauchy-Schwarz.
  function Gap(xx: real, yy: real, xy: real): real {
    xx * yy - xy * xy
  }

  function Form(p: real, q: real, xx: real, xy: real, yy: real): real {
    p * p * xx + 2.0 * (p * q) * xy + q * q * yy
  }

  lemma FormOfZero(p: real, q: real)
    ensures Form(p, q, 0.0, 0.0, 0.0) == 0.0
  {
  }

  lemma FormAdds(p: real, q: real, a: real, b: real, xx: real, xy: real, yy: real, xx': real, xy': real, yy': real)
    requires xx' == xx + a * a && xy' == xy + a * b && yy' == yy + b * b
    ensures Form(p, q, xx', xy', yy') == Form(p, q, xx, xy, yy) + Square(Coordinate(p, a, q, b))
  {
  }

  // The quadratic form of the two features.
  lemma {:induction false} CombinedIsForm(x: seq<real>, y: seq<real>, n: nat, p: real, q: real)
    requires n <= |x| && n <= |y|
    ensures Combined(x, y, n, p, q) == Form(p, q, Dot(x, x, n), Dot(x, y, n), Dot(y, y, n))
  {
    hide Form, Square, Coordinate;
    if n == 0 {
      FormOfZero(p, q);
    } else {
      CombinedIsForm(x, y, n - 1, p, q);
      FormAdds(p, q, x[n - 1], y[n - 1], Dot(x, x, n - 1), Dot(x, y, n - 1), Dot(y, y, n - 1),
               Dot(x, x, n), Dot(x, y, n), Dot(y, y, n));
    }
  }

  lemma SquareIsNonNegative(a: real)
    ensures Square(a) >= 0.0
  {
  }

  lemma ZeroProduct(a: real, b: real)
    requires a * b == 0.0
    ensures a == 0.0 || b == 0.0
  {
  }

  lemma ZeroSquare(a: real)
    requires Square(a) == 0.0
    ensures a == 0.0
  {
    ZeroProduct(a, a);
  }

  lemma {:induction false} CombinedIsSum(x: seq<real>, y: seq<real>, n: nat, p: real, q: real)
    requires n <= |x| && n <= |y|
    ensures Combined(x, y, n, p, q) >= 0.0
    ensures Combined(x, y, n, p, q) == 0.0 ==> forall i :: 0 <= i < n ==> Coordinate(p, x[i], q, y[i]) == 0.0
  {
    if n > 0 {
      CombinedIsSum(x, y, n - 1, p, q);
      hide Square, Coordinate;
      var coordinate := Coordinate(p, x[n - 1], q, y[n - 1]);
      SquareIsNonNegative(coordinate);
      if Square(coordinate) == 0.0 {
        ZeroSquare(coordinate);
      }
    }
  }

  lemma ResidualForm(xx: real, yy: real, xy: real)
    ensures Form(yy, -xy, xx, xy, yy) == Times(yy, Gap(xx, yy, xy))
  {
  }

  // The combination y.y * x - x.y * y, whose squared length is y.y * (x.x * y.y - (x.y)^2).
  lemma {:induction false} Residual(x: seq<real>, y: seq<real>, n: nat)
    requires n <= |x| && n <= |y|
    ensures var xx, yy, xy := Dot(x, x, n), Dot(y, y, n), Dot(x, y, n);
            Combined(x, y, n, yy, -xy) == Times(yy, Gap(xx, yy, xy))
  {
    hide Dot, Combined, Form, Times, Gap;
    var xx, yy, xy := Dot(x, x, n), Dot(y, y, n), Dot(x, y, n);
    CombinedIsForm(x, y, n, yy, -xy);
    ResidualForm(xx, yy, xy);
  }

  lemma SignOfGap(yy: real, gap: real)
    requires yy > 0.0 && Times(yy, gap) >= 0.0
    ensures gap >= 0.0
  {
  }

  lemma CauchySchwarz(x: seq<real>, y: seq<real>, n: nat)
    requires n <= |x| && n <= |y| && Dot(y, y, n) > 0.0
    ensures Dot(x, y, n) * Dot(x, y, n) <= Dot(x, x, n) * Dot(y, y, n)
  {
    hide Dot, Combined, Times;
    var xx, yy, xy := Dot(x, x, n), Dot(y, y, n), Dot(x, y, n);
    Residual(x, y, n);
    CombinedIsSum(x, y, n, yy, -xy);
    SignOfGap(yy, Gap(xx, yy, xy));
  }

  // ----- Real arithmetic -----

  lemma WithinRoot(a: real, b: real, n: real)
    requires b > 0.0 && b * b == n && a * a <= n
    ensures -b <= a <= b
  {
    assert a > b ==> a * a > b * b;
    assert a < -b ==> a * a > b * b;
  }

  lemma QuotientWithinOne(a: real, b: real)
    requires b > 0.0 && -b <= a <= b
    ensures -1.0 <= a / b <= 1.0
  {
  }

  lemma RootIsUnique(a: real, b: real)
    requires a >= 0.0 && b > 0.0 && a * a == b * b
    ensures a == b
  {
    var d, m := a - b, a + b;
    assert m * d == 0.0;
    assert d == 0.0;
  }

  lemma SquareOfProduct(s: real, t: real, xx: real, yy: real)
    requires s > 0.0 && t > 0.0 && s * s == xx && t * t == yy
    ensures s * t > 0.0 && (s * t) * (s * t) == xx * yy
  {
    var m := s * t;
    assert m > 0.0 && m * m == xx * yy;
  }

  // ----- What similarity promises -----

  // Exact arithmetic never needs the clamp.
  lemma SimilarityIsWithinOne(x: seq<real>, y: seq<real>, sqrt: real -> real)
    requires IsRoot(sqrt) && |x| == |y| && Norm2(x) > 0.0 && Norm2(y) > 0.0
    ensures sqrt(Norm2(x)) * sqrt(Norm2(y)) > 0.0
    ensures var cosine := Cosine(Dot(x, y, |x|), sqrt(Norm2(x)), sqrt(Norm2(y)));
            -1.0 <= cosine <= 1.0 && Compare(x, y, true, sqrt) == Compared(cosine)
  {
    CauchySchwarz(x, y, |x|);
    assert x != [];
    hide IsRoot, Dot;
    CosineIsWithinOne(Dot(x, y, |x|), Norm2(x), Norm2(y), sqrt);
  }

  lemma CosineIsWithinOne(dot: real, xx: real, yy: real, sqrt: real -> real)
    requires IsRoot(sqrt) && xx > 0.0 && yy > 0.0 && dot * dot <= xx * yy
    ensures sqrt(xx) * sqrt(yy) > 0.0 && -1.0 <= Cosine(dot, sqrt(xx), sqrt(yy)) <= 1.0
  {
    RootsArePositive(xx, yy, sqrt);
    hide IsRoot;
    SquareOfProduct(sqrt(xx), sqrt(yy), xx, yy);
    WithinRoot(dot, sqrt(xx) * sqrt(yy), xx * yy);
    QuotientWithinOne(dot, sqrt(xx) * sqrt(yy));
  }

  lemma SimilarityIsSymmetric(x: seq<real>, y: seq<real>, normalize: bool, sqrt: real -> real)
    ensures Compare(x, y, normalize, sqrt) == Compare(y, x, normalize, sqrt)
  {
    if |x| == |y| {
      DotCommutes(x, y, |x|);
    }
  }

  // A feature compares with itself as 1, unless it is empty or zero; then it is rejected.
  lemma SimilarityWithItself(x: seq<real>, sqrt: real -> real)
    requires IsRoot(sqrt)
    ensures Compare(x, x, true, sqrt) == if x != [] && Norm2(x) > 0.0 then Compared(1.0) else Rejected
  {
    var n := Norm2(x);
    if n > 0.0 {
      RootsArePositive(n, n, sqrt);
      assert n / n == 1.0;
    }
  }

  // ----- Scaling -----

  function Quad(k: real, a: real): real {
    k * k * a
  }

  function Scaled(x: seq<real>, k: real): (s: seq<real>)
    ensures |s| == |x|
  {
    seq(|x|, i requires 0 <= i < |x| => k * x[i])
  }

  lemma TimesAdds(k: real, a: real, b: real, c: real)
    ensures Times(k, a) + (k * b) * c == Times(k, a + b * c)
  {
  }

  lemma {:induction false} DotOfScaled(x: seq<real>, k: real, y: seq<real>, n: nat)
    requires n <= |x| && n <= |y|
    ensures Dot(Scaled(x, k), y, n) == Times(k, Dot(x, y, n))
  {
    if n == 0 {
      assert Times(k, 0.0) == 0.0;
    } else {
      DotOfScaled(x, k, y, n - 1);
      TimesAdds(k, Dot(x, y, n - 1), x[n - 1], y[n - 1]);
      hide Times;
    }
  }

  lemma NormOfScaled(x: seq<real>, k: real)
    ensures Norm2(Scaled(x, k)) == Quad(k, Norm2(x))
  {
    DotOfScaled(x, k, Scaled(x, k), |x|);
    DotCommutes(x, Scaled(x, k), |x|);
    DotOfScaled(x, k, x, |x|);
    hide Dot;
    assert Times(k, Times(k, Norm2(x))) == Quad(k, Norm2(x));
  }

  lemma SignOfProduct(k: real, n: real)
    requires k > 0.0
    ensures Times(k, n) > 0.0 <==> n > 0.0
  {
    assert n > 0.0 ==> k * n > 0.0;
    assert n < 0.0 ==> k * n < 0.0;
  }

  lemma SignOfQuad(k: real, n: real)
    requires k > 0.0
    ensures Quad(k, n) > 0.0 <==> n > 0.0
  {
    assert Quad(k, n) == Times(k, Times(k, n));
    hide Quad, Times;
    SignOfProduct(k, n);
    SignOfProduct(k, Times(k, n));
  }

  lemma RootOfScaled(k: real, xx: real, sqrt: real -> real)
    requires IsRoot(sqrt) && k > 0.0 && xx > 0.0
    ensures sqrt(Quad(k, xx)) == Times(k, sqrt(xx))
  {
    SignOfQuad(k, xx);
    hide Quad, Times;
    RootIsPositive(xx, sqrt);
    RootIsPositive(Quad(k, xx), sqrt);
    hide IsRoot;
    ScaledRoot(k, sqrt(xx), xx, sqrt(Quad(k, xx)));
  }

  lemma ScaledRoot(k: real, s: real, xx: real, r: real)
    requires k > 0.0 && s > 0.0 && s * s == xx && r >= 0.0 && r * r == Quad(k, xx)
    ensures r == Times(k, s)
  {
    var b := k * s;
    assert b * b == k * k * xx;
    RootIsUnique(r, b);
  }

  lemma Regrouped(k: real, s: real, t: real)
    ensures Times(k, s) * t == Times(k, s * t)
  {
  }

  lemma CommonFactor(k: real, dot: real, s: real, t: real, s': real)
    requires k > 0.0 && s > 0.0 && t > 0.0 && s' == Times(k, s)
    ensures s * t > 0.0 && s' * t > 0.0 && Cosine(Times(k, dot), s', t) == Cosine(dot, s, t)
  {
    Regrouped(k, s, t);
    assert s * t > 0.0;
    QuotientOfScaled(k, dot, s * t);
    hide Times;
  }

  lemma QuotientOfScaled(k: real, a: real, b: real)
    requires k > 0.0 && b > 0.0
    ensures Times(k, b) > 0.0 && Times(k, a) / Times(k, b) == a / b
  {
    assert k * b > 0.0 && (k * a) / (k * b) == a / b;
  }

  lemma CosineOfScaled(k: real, dot: real, xx: real, yy: real, sqrt: real -> real)
    requires IsRoot(sqrt) && k > 0.0 && xx > 0.0 && yy > 0.0
    ensures sqrt(xx) * sqrt(yy) > 0.0 && sqrt(Quad(k, xx)) * sqrt(yy) > 0.0
    ensures Cosine(Times(k, dot), sqrt(Quad(k, xx)), sqrt(yy)) == Cosine(dot, sqrt(xx), sqrt(yy))
  {
    RootOfScaled(k, xx, sqrt);
    RootIsPositive(xx, sqrt);
    RootIsPositive(yy, sqrt);
    hide IsRoot, Times, Quad, Cosine;
    CommonFactor(k, dot, sqrt(xx), sqrt(yy), sqrt(Quad(k, xx)));
  }

  lemma ScaledParts(k: real, dot: real, xx: real, yy: real, sqrt: real -> real)
    requires IsRoot(sqrt) && k > 0.0
    ensures Normalized(Times(k, dot), Quad(k, xx), yy, sqrt) == Normalized(dot, xx, yy, sqrt)
  {
    SignOfQuad(k, xx);
    if xx > 0.0 && yy > 0.0 {
      CosineOfScaled(k, dot, xx, yy, sqrt);
    }
    hide IsRoot, Times, Quad, Cosine;
  }

  // Only the directions matter: positive scaling of a feature changes nothing.
  lemma SimilarityIgnoresScale(x: seq<real>, y: seq<real>, k: real, sqrt: real -> real)
    requires IsRoot(sqrt) && k > 0.0
    ensures Compare(Scaled(x, k), y, true, sqrt) == Compare(x, y, true, sqrt)
    ensures Compare(y, Scaled(x, k), true, sqrt) == Compare(y, x, true, sqrt)
  {
    SimilarityIsSymmetric(y, x, true, sqrt);
    SimilarityIsSymmetric(y, Scaled(x, k), true, sqrt);
    if |x| == |y| {
      NormOfScaled(x, k);
      DotOfScaled(x, k, y, |x|);
      hide Normalized, Dot, Norm2, Times, Quad;
      ScaledParts(k, Dot(x, y, |x|), Norm2(x), Norm2(y), sqrt);
      assert x == [] <==> Scaled(x, k) == [];
      assert Compare(Scaled(x, k), y, true, sqrt) == Compare(x, y, true, sqrt);
    }
  }

  // Similarity 1 means the same direction: one feature is a positive multiple of the other.
  lemma SimilarityOneIsSameDirection(x: seq<real>, y: seq<real>, sqrt: real -> real)
    requires IsRoot(sqrt) && |x| == |y| && Norm2(x) > 0.0 && Norm2(y) > 0.0
    ensures Compare(x, y, true, sqrt) == Compared(1.0) <==> exists k :: k > 0.0 && x == Scaled(y, k)
  {
    SimilarityIsWithinOne(x, y, sqrt);
    if Compare(x, y, true, sqrt) == Compared(1.0) {
      OneIsParallel(x, y, sqrt);
    }
    assert y != [];
    hide Cosine, Compare, Dot, IsRoot;
    if k :| k > 0.0 && x == Scaled(y, k) {
      SimilarityIgnoresScale(y, y, k, sqrt);
      SimilarityWithItself(y, sqrt);
    }
  }

  lemma OneIsTight(dot: real, xx: real, yy: real, sqrt: real -> real)
    requires IsRoot(sqrt) && xx > 0.0 && yy > 0.0
    requires sqrt(xx) * sqrt(yy) > 0.0 && Cosine(dot, sqrt(xx), sqrt(yy)) == 1.0
    ensures dot > 0.0 && Gap(xx, yy, dot) == 0.0
  {
    RootsArePositive(xx, yy, sqrt);
    hide IsRoot;
    SquareOfProduct(sqrt(xx), sqrt(yy), xx, yy);
    OneIsEqual(dot, sqrt(xx) * sqrt(yy));
  }

  lemma OneIsEqual(a: real, b: real)
    requires b > 0.0 && a / b == 1.0
    ensures a == b
  {
  }

  lemma OneIsParallel(x: seq<real>, y: seq<real>, sqrt: real -> real)
    requires IsRoot(sqrt) && |x| == |y| && Norm2(x) > 0.0 && Norm2(y) > 0.0
    requires sqrt(Norm2(x)) * sqrt(Norm2(y)) > 0.0 && Cosine(Dot(x, y, |x|), sqrt(Norm2(x)), sqrt(Norm2(y))) == 1.0
    ensures exists k :: k > 0.0 && x == Scaled(y, k)
  {
    var dot, yy := Dot(x, y, |x|), Norm2(y);
    OneIsTight(dot, Norm2(x), yy, sqrt);
    TightIsSpread(x, y);
    hide IsRoot, Dot, Cosine, Norm2, Gap, Coordinate;
    var k := dot / yy;
    PositiveQuotient(dot, yy);
    forall i | 0 <= i < |x| ensures x[i] == Scaled(y, k)[i] {
      ParallelCoordinate(yy, dot, k, x[i], y[i]);
    }
    hide Scaled;
    assert x == Scaled(y, k);
  }

  lemma PositiveQuotient(a: real, b: real)
    requires a > 0.0 && b > 0.0
    ensures a / b > 0.0
  {
  }

  // Equality in Cauchy-Schwarz leaves no residual in any coordinate.
  lemma TightIsSpread(x: seq<real>, y: seq<real>)
    requires |x| == |y| && Gap(Norm2(x), Norm2(y), Dot(x, y, |x|)) == 0.0
    ensures forall i :: 0 <= i < |x| ==> Coordinate(Norm2(y), x[i], -Dot(x, y, |x|), y[i]) == 0.0
  {
    Residual(x, y, |x|);
    assert Times(Norm2(y), 0.0) == 0.0;
    hide Dot, Combined, Times, Gap, Coordinate;
    CombinedIsSum(x, y, |x|, Norm2(y), -Dot(x, y, |x|));
  }

  lemma ParallelCoordinate(yy: real, dot: real, k: real, a: real, b: real)
    requires yy > 0.0 && k == dot / yy && Coordinate(yy, a, -dot, b) == 0.0
    ensures a == k * b
  {
    assert k * yy == dot;
    assert yy * (a - k * b) == 0.0;
  }

  // Without normalisation the comparison is the plain dot product: for features of length one the
  // two modes agree, and it grows in proportion to either feature.
  lemma PlainIsCosineForUnitFeatures(x: seq<real>, y: seq<real>, k: real, sqrt: real -> real)
    requires IsRoot(sqrt) && |x| == |y|
    ensures Norm2(x) == 1.0 && Norm2(y) == 1.0 ==> Compare(x, y, false, sqrt) == Compare(x, y, true, sqrt)
    ensures x != [] ==>
      var plain, scaled := Compare(x, y, false, sqrt), Compare(Scaled(x, k), y, false, sqrt);
      plain.Compared? && scaled == Compared(k * plain.similarity)
  {
    if Norm2(x) == 1.0 && Norm2(y) == 1.0 {
      SimilarityIsWithinOne(x, y, sqrt);
      RootIsPositive(1.0, sqrt);
      RootIsUnique(sqrt(1.0), 1.0);
      assert x != [];
    }
    DotOfScaled(x, k, y, |x|);
    hide Dot, IsRoot;
  }
}
