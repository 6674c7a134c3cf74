// Small vocabulary shared by every component: machine words, rectangles, images
// and the exact-arithmetic helpers that stand for the float helpers of the SDK.
module Basics {
  const TWO_TO_THE_64: int := 0x1_0000_0000_0000_0000

  // A uint64_t value: timestamps, durations and frame numbers.
  type u64 = x: int | 0 <= x < TWO_TO_THE_64

  // One 8-bit image sample.
  type byte = x: int | 0 <= x < 256

  datatype Option<+T> = None | Some(value: T)

  // uint64_t subtraction `now - since`, which wraps when `since` is the larger operand.
  function Elapsed(now: u64, since: u64): u64 {
    if since <= now then now - since else now + TWO_TO_THE_64 - since
  }

  function MinInt(a: int, b: int): int {
    if a <= b then a else b
  }

  function MaxInt(a: int, b: int): int {
    if a >= b then a else b
  }

  function AbsInt(a: int): int {
    if a >= 0 then a else -a
  }

  function Min(a: real, b: real): real {
    if a <= b then a else b
  }

  function Max(a: real, b: real): real {
    if a >= b then a else b
  }

  function Abs(a: real): real {
    if a >= 0.0 then a else -a
  }

  function Clamp01(value: real): real {
    Max(0.0, Min(1.0, value))
  }

  function Sum(s: seq<real>): real {
    if s == [] then 0.0 else Sum(s[..|s| - 1]) + s[|s| - 1]
  }

  lemma DivLess(a: real, b: real, k: real)
    requires b > 0.0
    ensures a / b < k <==> a < k * b
    ensures a / b > k <==> a > k * b
  {
    var q := a / b;
    assert q * b == a;
    if q < k { assert q * b < k * b; }
    if q > k { assert q * b > k * b; }
  }

  lemma PositiveProduct(a: real, b: real)
    requires a > 0.0 && b > 0.0
    ensures a * b > 0.0
  {
  }

  lemma ModOfMultiple(n: int, k: int)
    requires n > 0
    ensures n * k % n == 0
  {
    var d := k - n * k / n;
    assert n * d == n * k % n;
    assert d >= 1 ==> n * d >= n;
    assert d <= -1 ==> n * d <= -n;
  }

  datatype Rect = Rect(x: int, y: int, width: int, height: int) {
    function Area(): int {
      width * height
    }
  }
}
