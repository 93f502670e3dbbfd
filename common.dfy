/** Small arithmetic and option helpers shared by every module: the JavaScript
    number idioms the trainer relies on, written out over unbounded integers. */
module Common {

  datatype Option<+T> = None | Some(value: T)

  /** JavaScript's `x || d` on a configured number: an absent setting and a
      configured 0 both fall back to the default `d`. Absent settings are
      represented by 0 throughout the model. */
  function OrDefault(x: int, d: int): int
  {
    if x != 0 then x else d
  }

  /** `Math.round(a / b * 100)` for a non-negative ratio: round half up.
      Exact ties at .5 round up, as in floating point when the quotient is exact. */
  function RoundPercent(a: int, b: int): (r: int)
    requires b > 0
    ensures 2 * b * r <= 200 * a + b < 2 * b * r + 2 * b
  {
    DivFloorBounds(200 * a + b, 2 * b);
    (200 * a + b) / (2 * b)
  }

  lemma DivFloorBounds(n: int, d: int)
    requires d > 0
    ensures d * (n / d) <= n < d * (n / d) + d
  {
  }

  /** Multiplying by a non-negative factor keeps an inequality. */
  lemma MulLe(c: int, x: int, y: int)
    requires c >= 0 && x <= y
    ensures c * x <= c * y
  {
    assert c * y - c * x == c * (y - x);
  }

  /** Multiplying a strict inequality by a non-negative factor. */
  lemma MulLt(c: int, x: int, y: int)
    requires c >= 0 && x < y
    ensures c * x + c <= c * y
  {
    MulLe(c, x + 1, y);
    assert c * (x + 1) == c * x + c;
  }

  /** A percentage of a part of a whole always lies in 0..100. */
  lemma RoundPercentRange(a: int, b: int)
    requires 0 <= a <= b && b > 0
    ensures 0 <= RoundPercent(a, b) <= 100
  {
    var r := RoundPercent(a, b);
    if r < 0 {
      MulLt(2 * b, r, 0);
    }
    if r > 100 {
      MulLe(2 * b, 101, r);
    }
  }

  /** For wholes below 200 the rounded percentage is 100 exactly when the part
      is the whole, and 0 exactly when the part is empty (199 of 200 already
      rounds up to 100). */
  lemma RoundPercentExtremes(a: int, b: int)
    requires 0 <= a <= b && 0 < b < 200
    ensures RoundPercent(a, b) == 100 <==> a == b
    ensures RoundPercent(a, b) == 0 <==> a == 0
  {
    var r := RoundPercent(a, b);
    RoundPercentRange(a, b);
    if r <= 99 {
      MulLt(2 * b, r, 100);
    }
    if r >= 1 {
      MulLe(2 * b, 1, r);
    }
    if a >= 1 {
      MulLe(200, 1, a);
    }
  }

  /** Rounding is monotone in the part. */
  lemma RoundPercentMonotone(a: int, a': int, b: int)
    requires a <= a' && b > 0
    ensures RoundPercent(a, b) <= RoundPercent(a', b)
  {
    var r, r' := RoundPercent(a, b), RoundPercent(a', b);
    if r > r' {
      MulLt(2 * b, r', r);
    }
  }

  /** `Math.floor(a / b)` for a non-zero divisor of either sign (Dafny's `/`
      is Euclidean, which agrees with floor only for positive divisors). */
  function FloorDiv(a: int, b: int): (q: int)
    requires b != 0
    ensures b > 0 ==> b * q <= a < b * q + b
    ensures b < 0 ==> b * q >= a > b * q + b
  {
    if b > 0 then a / b else (-a) / (-b)
  }

  const Two32: int := 0x1_0000_0000
  const Two31: int := 0x8000_0000

  /** ECMAScript ToInt32: reduce modulo 2^32 into the signed 32-bit range. */
  function Wrap32(x: int): (r: int)
    ensures -Two31 <= r < Two31
    ensures (r - x) % Two32 == 0
  {
    var m := x % Two32;
    if m >= Two31 then m - Two32 else m
  }

  function Abs(x: int): (r: nat)
    ensures r == x || r == -x
  {
    if x < 0 then -x else x
  }

  function Min(a: int, b: int): int { if a < b then a else b }
  function Max(a: int, b: int): int { if a < b then b else a }
}
