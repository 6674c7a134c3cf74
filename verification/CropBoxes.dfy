// The crop boxes of the liveness check: a face box scaled about its centre and kept inside the
// image, and a square aligned to a stride inside a box.
module CropBoxes {
  import opened Basics

  const NO_BOX := Rect(0, 0, 0, 0)

  ghost predicate Inside(a: Rect, b: Rect) {
    b.x <= a.x && b.y <= a.y && a.x + a.width <= b.x + b.width && a.y + a.height <= b.y + b.height
  }

  // ----- The stride-aligned square -----

  function AlignmentBoxToStrideSquareBox(box: Rect, stride: int): Rect {
    if stride <= 0 || box.width <= 0 || box.height <= 0 then NO_BOX
    else
      var side := MinInt(box.width, box.height) / stride * stride;
      if side <= 0 then NO_BOX
      else Rect(box.x + box.width / 2 - side / 2, box.y + box.height / 2 - side / 2, side, side)
  }

  // The multiple of the stride just below the limit.
  lemma AlignedSide(limit: int, stride: int)
    requires limit > 0 && stride > 0
    ensures var n := limit / stride * stride;
            n % stride == 0 && 0 <= n <= limit < n + stride && (n == 0 <==> limit < stride)
  {
    var q := limit / stride;
    ModOfMultiple(stride, q);
    assert q * stride == stride * q == limit - limit % stride;
    assert q >= 1 ==> q * stride >= stride;
  }

  // Empty exactly when the stride does not fit; otherwise the largest aligned square that fits
  // the shorter side, inside the box and on the same centre.
  lemma AlignedSquareFits(box: Rect, stride: int)
    ensures var r, limit := AlignmentBoxToStrideSquareBox(box, stride), MinInt(box.width, box.height);
      if stride <= 0 || limit <= 0 || limit < stride then r == NO_BOX
      else
        && r.width == r.height && r.width % stride == 0 && r.width <= limit < r.width + stride
        && Inside(r, box)
        && r.x + r.width / 2 == box.x + box.width / 2 && r.y + r.height / 2 == box.y + box.height / 2
  {
    var limit := MinInt(box.width, box.height);
    if stride > 0 && limit > 0 {
      AlignedSide(limit, stride);
    }
  }

  // ----- The scaled box -----

  // The requested scale, reduced to what the image can hold.
  function FittingScale(srcW: int, srcH: int, width: int, height: int, scale: real): real
    requires width > 0 && height > 0
  {
    Min((srcH - 1) as real / height as real, Min((srcW - 1) as real / width as real, scale))
  }

  function ScaledSide(side: int, k: real): real {
    side as real * k
  }

  // The position nearest to `left` from which a side of the given size ends by `last`.
  function Placed(left: real, size: real, last: real): real {
    Max(0.0, Min(left, last - size))
  }

  predicate ValidCrop(srcW: int, srcH: int, box: Rect, scale: real) {
    srcW > 0 && srcH > 0 && box.width > 0 && box.height > 0 && scale > 0.0
  }

  lemma FittingScaleFits(srcW: int, srcH: int, box: Rect, scale: real)
    requires ValidCrop(srcW, srcH, box, scale)
    ensures var k := FittingScale(srcW, srcH, box.width, box.height, scale);
            0.0 <= k <= scale && 0.0 <= ScaledSide(box.width, k) <= (srcW - 1) as real
            && 0.0 <= ScaledSide(box.height, k) <= (srcH - 1) as real
  {
    var k := FittingScale(srcW, srcH, box.width, box.height, scale);
    SideFits(srcW - 1, box.width, k);
    SideFits(srcH - 1, box.height, k);
    hide ScaledSide;
  }

  // A scale keeps a side within a limit exactly when it is at most their ratio.
  lemma SideFits(limit: int, side: int, k: real)
    requires limit >= 0 && side > 0
    ensures limit as real / side as real >= 0.0
    ensures k <= limit as real / side as real <==> ScaledSide(side, k) <= limit as real
    ensures k >= 0.0 ==> ScaledSide(side, k) >= 0.0
  {
    var n, d := limit as real, side as real;
    DivLess(n, d, k);
    DivLess(n, d, 0.0);
    assert d * k == k * d;
  }

  // No larger scale within the request would fit.
  lemma FittingScaleIsLargest(srcW: int, srcH: int, box: Rect, scale: real, k: real)
    requires ValidCrop(srcW, srcH, box, scale)
    ensures k <= FittingScale(srcW, srcH, box.width, box.height, scale) <==>
            k <= scale && ScaledSide(box.width, k) <= (srcW - 1) as real && ScaledSide(box.height, k) <= (srcH - 1) as real
  {
    SideFits(srcW - 1, box.width, k);
    SideFits(srcH - 1, box.height, k);
  }

  // Of all places where the side fits, the chosen one is the nearest to the centred one.
  lemma PlacedIsNearest(left: real, size: real, last: real, other: real)
    requires 0.0 <= size <= last && 0.0 <= other <= last - size
    ensures var x := Placed(left, size, last);
            0.0 <= x <= last - size && Abs(x - left) <= Abs(other - left)
  {
  }

  // Where a side of the new size starts when it keeps the centre of the old one.
  function Centred(start: int, side: int, size: real): real {
    side as real / 2.0 + start as real - size / 2.0
  }

  // What GetNewBox computes: both sides scaled by one factor, each placed within the image.
  function FittedBox(srcW: int, srcH: int, box: Rect, scale: real): Rect
    requires ValidCrop(srcW, srcH, box, scale)
  {
    var k := FittingScale(srcW, srcH, box.width, box.height, scale);
    var width, height := ScaledSide(box.width, k), ScaledSide(box.height, k);
    Rect(Placed(Centred(box.x, box.width, width), width, (srcW - 1) as real).Floor,
         Placed(Centred(box.y, box.height, height), height, (srcH - 1) as real).Floor,
         width.Floor, height.Floor)
  }

  // Truncation toward zero.
  function Truncated(a: real): int {
    if a >= 0.0 then a.Floor else -((-a).Floor)
  }

  method GetNewBox(srcW: int, srcH: int, box: Rect, requested: real) returns (newBox: Rect)
    ensures if srcW <= 0 || srcH <= 0 || box.width <= 0 || box.height <= 0 || requested <= 0.0 then newBox == NO_BOX
            else newBox == FittedBox(srcW, srcH, box, requested)
  {
    if srcW <= 0 || srcH <= 0 || box.width <= 0 || box.height <= 0 || requested <= 0.0 {
      return NO_BOX;
    }
    FittingScaleFits(srcW, srcH, box, requested);
    var scale := FittingScale(srcW, srcH, box.width, box.height, requested);
    var newWidth := ScaledSide(box.width, scale);
    var newHeight := ScaledSide(box.height, scale);
    hide FittingScale, ScaledSide;
    var centerX := box.width as real / 2.0 + box.x as real;
    var centerY := box.height as real / 2.0 + box.y as real;
    var leftTopX := centerX - newWidth / 2.0;
    var leftTopY := centerY - newHeight / 2.0;
    var rightBottomX := centerX + newWidth / 2.0;
    var rightBottomY := centerY + newHeight / 2.0;
    if leftTopX < 0.0 {
      rightBottomX := rightBottomX - leftTopX;
      leftTopX := 0.0;
    }
    if leftTopY < 0.0 {
      rightBottomY := rightBottomY - leftTopY;
      leftTopY := 0.0;
    }
    if rightBottomX > (srcW - 1) as real {
      leftTopX := leftTopX - (rightBottomX - srcW as real + 1.0);
      rightBottomX := (srcW - 1) as real;
    }
    if rightBottomY > (srcH - 1) as real {
      leftTopY := leftTopY - (rightBottomY - srcH as real + 1.0);
      rightBottomY := (srcH - 1) as real;
    }
    assert leftTopX == Placed(Centred(box.x, box.width, newWidth), newWidth, (srcW - 1) as real);
    assert leftTopY == Placed(Centred(box.y, box.height, newHeight), newHeight, (srcH - 1) as real);
    assert rightBottomX - leftTopX == newWidth >= 0.0 && rightBottomY - leftTopY == newHeight >= 0.0;
    hide Centred;
    newBox := Rect(Truncated(leftTopX), Truncated(leftTopY),
                   Truncated(rightBottomX - leftTopX), Truncated(rightBottomY - leftTopY));
  }

  lemma PlacedIsInside(left: real, size: real, last: int)
    requires 0.0 <= size <= last as real
    ensures 0 <= Placed(left, size, last as real).Floor && 0 <= size.Floor
    ensures Placed(left, size, last as real).Floor + size.Floor <= last
  {
    var x := Placed(left, size, last as real);
    assert (x.Floor + size.Floor) as real <= last as real;
  }

  // The crop never leaves the image: it ends by its last column and row.
  lemma FittedBoxIsInside(srcW: int, srcH: int, box: Rect, scale: real)
    requires ValidCrop(srcW, srcH, box, scale)
    ensures Inside(FittedBox(srcW, srcH, box, scale), Rect(0, 0, srcW - 1, srcH - 1))
    ensures FittedBox(srcW, srcH, box, scale).width >= 0 && FittedBox(srcW, srcH, box, scale).height >= 0
  {
    FittingScaleFits(srcW, srcH, box, scale);
    var k := FittingScale(srcW, srcH, box.width, box.height, scale);
    var width, height := ScaledSide(box.width, k), ScaledSide(box.height, k);
    hide FittingScale, ScaledSide, Placed, Centred;
    PlacedIsInside(Centred(box.x, box.width, width), width, srcW - 1);
    PlacedIsInside(Centred(box.y, box.height, height), height, srcH - 1);
  }

  // Along one axis: a side scaled about its centre stays there if it fits, and otherwise starts at
  // the first or ends at the last column.
  lemma PositionExactly(start: int, side: int, size: real, last: int)
    requires 0.0 <= size <= last as real
    ensures var x, centre := Placed(Centred(start, side, size), size, last as real), (2 * start + side) as real;
            if centre < size then x == 0.0
            else if centre + size > 2.0 * last as real then x == last as real - size
            else 2.0 * x + size == centre
  {
  }

  // The side scaled about its centre lies within the image.
  predicate AxisFits(start: int, side: int, k: real, last: int) {
    side as real * k <= (2 * start + side) as real <= 2.0 * last as real - side as real * k
  }

  // The new side is the scaled one, rounded down.
  predicate ScaledTo(side: int, k: real, newSide: int) {
    newSide == (side as real * k).Floor
  }

  lemma AxisKeepsTheCentre(start: int, side: int, k: real, last: int)
    requires 0.0 <= ScaledSide(side, k) <= last as real
    ensures var size := ScaledSide(side, k);
            && ScaledTo(side, k, size.Floor)
            && (AxisFits(start, side, k, last) ==>
                  var x := Placed(Centred(start, side, size), size, last as real);
                  2 * start + side - 3 < 2 * x.Floor + size.Floor <= 2 * start + side)
  {
    var size := ScaledSide(side, k);
    assert size == side as real * k;
    hide ScaledSide;
    CentredAxis(start, side, size, last);
    hide Placed, Centred;
  }

  lemma CentredAxis(start: int, side: int, size: real, last: int)
    requires 0.0 <= size <= last as real
    ensures size <= (2 * start + side) as real <= 2.0 * last as real - size ==>
      var x := Placed(Centred(start, side, size), size, last as real);
      2 * start + side - 3 < 2 * x.Floor + size.Floor <= 2 * start + side
  {
    PositionExactly(start, side, size, last);
    hide Placed, Centred;
    var x := Placed(Centred(start, side, size), size, last as real);
    assert 2.0 * x + size == (2 * start + side) as real ==>
      (2 * x.Floor + size.Floor) as real <= (2 * start + side) as real < (2 * x.Floor + size.Floor) as real + 3.0;
  }

  // What the crop keeps: both sides are scaled by one factor, and along an axis on which the
  // scaled side fits the image the centre stays, up to the rounding of position and size.
  lemma CropKeepsTheCentre(srcW: int, srcH: int, box: Rect, scale: real)
    requires ValidCrop(srcW, srcH, box, scale)
    ensures var r, k := FittedBox(srcW, srcH, box, scale), FittingScale(srcW, srcH, box.width, box.height, scale);
            && ScaledTo(box.width, k, r.width) && ScaledTo(box.height, k, r.height)
            && (AxisFits(box.x, box.width, k, srcW - 1) ==>
                  2 * box.x + box.width - 3 < 2 * r.x + r.width <= 2 * box.x + box.width)
            && (AxisFits(box.y, box.height, k, srcH - 1) ==>
                  2 * box.y + box.height - 3 < 2 * r.y + r.height <= 2 * box.y + box.height)
  {
    hide FittingScale, ScaledSide, ScaledTo, Placed, Centred, AxisFits;
    FittingScaleFits(srcW, srcH, box, scale);
    var k := FittingScale(srcW, srcH, box.width, box.height, scale);
    AxisKeepsTheCentre(box.x, box.width, k, srcW - 1);
    AxisKeepsTheCentre(box.y, box.height, k, srcH - 1);
  }

  // The crop the pipeline cuts out, aligned to the stride of its backend or not, lies in the image.
  lemma LivenessCropIsInside(srcW: int, srcH: int, box: Rect, scale: real, stride: int)
    requires ValidCrop(srcW, srcH, box, scale)
    ensures Inside(AlignmentBoxToStrideSquareBox(FittedBox(srcW, srcH, box, scale), stride), Rect(0, 0, srcW - 1, srcH - 1))
  {
    FittedBoxIsInside(srcW, srcH, box, scale);
    AlignedSquareFits(FittedBox(srcW, srcH, box, scale), stride);
    hide FittedBox, AlignmentBoxToStrideSquareBox;
  }
}
