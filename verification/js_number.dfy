/**
 * The JavaScript number operations the program relies on, over exact reals and
 * unbounded integers: Math.floor, Math.ceil, Math.round and the ToInt32 conversion that bitwise operators apply.
 */
module JsNumber {

  /** Math.floor */
  function Floor(x: real): (r: int)
    ensures r as real <= x < r as real + 1.0
  {
    x.Floor
  }

  /** Math.ceil */
  function Ceil(x: real): (r: int)
    ensures x <= r as real < x + 1.0
  {
    -((-x).Floor)
  }

  /** Math.round: the nearest integer, halves rounded towards +infinity. */
  function Round(x: real): (r: int)
    ensures x - 0.5 < r as real <= x + 0.5
  {
    (x + 0.5).Floor
  }

  lemma {:induction false} CeilMonotone(x: real, y: real)
    requires x <= y
    ensures Ceil(x) <= Ceil(y)
  {
  }

  lemma {:induction false} RoundMonotone(x: real, y: real)
    requires x <= y
    ensures Round(x) <= Round(y)
  {
  }

  /** The JavaScript `%` for a positive divisor: the remainder has the sign of the dividend. */
  function Rem(a: int, b: int): (r: int)
    requires b > 0
    ensures -b < r < b
    ensures a >= 0 ==> 0 <= r && r == a % b
    ensures a <= 0 ==> r <= 0
  {
    if a >= 0 then a % b else -((-a) % b)
  }

  const TwoTo32: int := 0x1_0000_0000
  const TwoTo31: int := 0x8000_0000

  predicate IsInt32(x: int) {
    -TwoTo31 <= x < TwoTo31
  }

  /** ToInt32: the 32-bit two's-complement value congruent to x modulo 2^32. */
  function ToInt32(x: int): (r: int)
    ensures IsInt32(r)
    ensures (x - r) % TwoTo32 == 0
    ensures IsInt32(x) ==> r == x
  {
    var m := x % TwoTo32;
    if m >= TwoTo31 then m - TwoTo32 else m
  }

  /** ToInt32 depends only on the residue of its argument modulo 2^32. */
  lemma {:induction false} ToInt32Congruent(x: int, y: int)
    requires (x - y) % TwoTo32 == 0
    ensures ToInt32(x) == ToInt32(y)
  {
    var k := (x - y) / TwoTo32;
    assert x == y + k * TwoTo32;
    ModShift(y, k);
  }

  lemma {:induction false} ModShift(y: int, k: int)
    ensures (y + k * TwoTo32) % TwoTo32 == y % TwoTo32
  {
  }

  /** `x << 5` on a 32-bit integer: the shifted bits wrap around. */
  function ShiftLeft5(x: int): (r: int)
    ensures IsInt32(r)
    ensures r == ToInt32(32 * x)
  {
    var k := (x - ToInt32(x)) / TwoTo32;
    assert x - ToInt32(x) == k * TwoTo32;
    assert 32 * x - ToInt32(x) * 32 == (32 * k) * TwoTo32;
    ModShift(ToInt32(x) * 32, 32 * k);
    ToInt32Congruent(32 * x, ToInt32(x) * 32);
    ToInt32(ToInt32(x) * 32)
  }
}
