/**
 * The JavaScript number operations the stat generator relies on, on integral values:
 * the 32-bit conversions done by `|`, `<<` and `>>`, the truncating remainder `%`,
 * `Math.abs` and `Math.round`.
 */
module JsNumbers {

  const TWO_31: int := 0x8000_0000
  const TWO_32: int := 0x1_0000_0000

  predicate IsInt32(x: int) {
    -TWO_31 <= x < TWO_31
  }

  /** ECMAScript ToInt32 on an integral number: the signed 32-bit value congruent to `x`. */
  function ToInt32(x: int): (r: int)
    ensures IsInt32(r)
    ensures r % TWO_32 == x % TWO_32
    ensures IsInt32(x) ==> r == x
  {
    var m := x % TWO_32;
    if m < TWO_31 then m else m - TWO_32
  }

  /** ToInt32 sees only the residue modulo 2^32. */
  lemma ToInt32Congruent(a: int, b: int)
    requires a % TWO_32 == b % TWO_32
    ensures ToInt32(a) == ToInt32(b)
  {
  }

  function Pow2(k: nat): (r: nat)
    ensures r >= 1
  {
    if k == 0 then 1 else 2 * Pow2(k - 1)
  }

  /** `x << k`: shift the 32-bit pattern of `x` left, read back as a signed 32-bit value. */
  function ShiftLeft(x: int, k: nat): (r: int)
    requires k < 32
    ensures IsInt32(r)
    ensures r % TWO_32 == (ToInt32(x) * Pow2(k)) % TWO_32
  {
    ToInt32(ToInt32(x) * Pow2(k))
  }

  /** `x >> k`: arithmetic (sign-propagating) right shift of the signed 32-bit value of `x`. */
  function ShiftRight(x: int, k: nat): (r: int)
    requires k < 32
    ensures IsInt32(r)
    ensures 0 <= x < TWO_31 ==> r == x / Pow2(k)
  {
    ToInt32(x) / Pow2(k)
  }

  /** JavaScript `a % b` for b > 0: the remainder truncated toward zero, with the sign of `a`. */
  function JsRem(a: int, b: int): (r: int)
    requires b > 0
    ensures -b < r < b
    ensures a >= 0 ==> r == a % b
    ensures a < 0 ==> r <= 0
    ensures JsAbs(r) == JsAbs(a) % b
  {
    if a >= 0 then a % b else -((-a) % b)
  }

  /** `Math.abs` on an integral number. */
  function JsAbs(x: int): (r: int)
    ensures r >= 0 && (r == x || r == -x)
  {
    if x < 0 then -x else x
  }

  /**
   * `Math.round(v * w / 100)` for a weight `w` given in hundredths: `Math.round` takes the
   * floor of x + 0.5, so halves round up.
   */
  function RoundScaled(v: int, w: nat): (r: int)
    ensures 100 * r <= v * w + 50 < 100 * r + 100
  {
    (v * w + 50) / 100
  }

  function Min(a: int, b: int): (r: int)
    ensures r <= a && r <= b && (r == a || r == b)
  {
    if a <= b then a else b
  }

  function Max(a: int, b: int): (r: int)
    ensures r >= a && r >= b && (r == a || r == b)
  {
    if a >= b then a else b
  }

  /**
   * The two spellings of the hash step agree: `((h << 5) - h) + c` followed by `| 0` is
   * ToInt32(31 * h + c), since `h << 5` is congruent to 32 * h modulo 2^32.
   */
  lemma ShiftStepIsPolynomial(h: int, c: int)
    requires IsInt32(h)
    ensures ToInt32(ShiftLeft(h, 5) - h + c) == ToInt32(31 * h + c)
  {
    assert Pow2(5) == 32;
    var s := ShiftLeft(h, 5);
    assert s % TWO_32 == (32 * h) % TWO_32;
    assert (s - h + c) % TWO_32 == (31 * h + c) % TWO_32;
    ToInt32Congruent(s - h + c, 31 * h + c);
  }
}
