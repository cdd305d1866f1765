/** Fixed-point decimals as used by the swap handler (sdk.Dec).

    A `Dec` is an integer count of 10^-18 units. Products and quotients are
    computed exactly on the integers and then brought back to 18 decimal
    places by rounding to the nearest multiple, ties to the even neighbour
    ("banker's rounding"). Division of the widened numerator truncates toward
    zero first, as big-integer division does. */
module Decimal {

  /** 10^18: the number of units in one whole token. */
  const Precision: int := 1_000_000_000_000_000_000

  /** Half of `Precision`, the largest error of a correctly rounded result. */
  const Half: int := 500_000_000_000_000_000

  type Dec = int

  /** The decimal holding the whole number `n` (sdk.NewDec). */
  function FromInt(n: int): Dec
  {
    n * Precision
  }

  /** The decimal 1. */
  const One: Dec := Precision

  function Abs(x: int): nat
  {
    if x < 0 then -x else x
  }

  /** Division that truncates toward zero: the remainder is smaller than the
      divisor in magnitude and carries the sign of the dividend. */
  function TruncQuo(x: int, y: int): (q: int)
    requires y != 0
    ensures Abs(x - q * y) < Abs(y)
    ensures x - q * y == 0 || (x - q * y < 0 <==> x < 0)
  {
    var m := Abs(x) / Abs(y);
    TruncQuoFacts(x, y, m);
    if (x < 0) == (y < 0) then m else -m
  }

  lemma TruncQuoFacts(x: int, y: int, m: int)
    requires y != 0 && m == Abs(x) / Abs(y)
    ensures var q := if (x < 0) == (y < 0) then m else -m;
            Abs(x - q * y) < Abs(y) && (x - q * y == 0 || (x - q * y < 0 <==> x < 0))
  {
  }

  /** Rounds a non-negative count of 10^-36 units to 10^-18 units. */
  function ChopNat(x: nat): (n: nat)
    ensures -Half <= n * Precision - x <= Half
    ensures Abs(n * Precision - x) == Half ==> n % 2 == 0
  {
    var q, r := x / Precision, x % Precision;
    assert x == q * Precision + r;
    if r < Half then q
    else if r > Half then q + 1
    else if q % 2 == 0 then q
    else q + 1
  }

  /** Round to the nearest multiple of `Precision`, ties to even, symmetric
      around zero (sdk chopPrecisionAndRound). */
  function Chop(x: int): (n: int)
    ensures -Half <= n * Precision - x <= Half
    ensures Abs(n * Precision - x) == Half ==> n % 2 == 0
    ensures x >= 0 ==> n >= 0
    ensures x <= 0 ==> n <= 0
  {
    if x < 0 then var n: int := ChopNat(-x); -n else ChopNat(x)
  }

  /** Rounding is exact on values that are already representable. */
  lemma ChopExact(x: int, k: int)
    requires x == k * Precision
    ensures Chop(x) == k
  {
  }

  /** Product of two decimals (sdk Dec.Mul). */
  function Mul(a: Dec, b: Dec): (r: Dec)
    ensures -Half <= r * Precision - a * b <= Half
    ensures a * b >= 0 ==> r >= 0
  {
    Chop(a * b)
  }

  /** Quotient of two decimals (sdk Dec.Quo): the dividend is widened by
      10^36, divided with truncation, and rounded back to 18 places. */
  function Quo(a: Dec, b: Dec): (r: Dec)
    requires b != 0
    ensures -Half <= r * Precision - TruncQuo(a * Precision * Precision, b) <= Half
    ensures a >= 0 && b > 0 ==> r >= 0
  {
    var t := TruncQuo(a * Precision * Precision, b);
    Chop(t)
  }

  /** A product whose exact value has at most 18 decimal places is exact. */
  lemma MulExact(a: Dec, b: Dec, c: Dec)
    requires a * b == c * Precision
    ensures Mul(a, b) == c
  {
  }

  /** A quotient whose exact value has at most 18 decimal places is exact. */
  lemma QuoExact(a: Dec, b: Dec, c: Dec)
    requires b != 0
    requires a * Precision == c * b
    ensures Quo(a, b) == c
  {
    var x := a * Precision * Precision;
    assert x == (c * Precision) * b;
    var t := TruncQuo(x, b);
    TruncQuoOfMultiple(x, b, c * Precision);
    ChopExact(t, c);
  }

  lemma TruncQuoOfMultiple(x: int, y: int, k: int)
    requires y != 0 && x == k * y
    ensures TruncQuo(x, y) == k
  {
    var ak: int, ay: int := Abs(k), Abs(y);
    assert Abs(x) == ak * ay by {
      if k < 0 && y < 0 {
        assert x == (-k) * (-y);
      } else if k < 0 {
        assert x == -((-k) * y);
      } else if y < 0 {
        assert x == -(k * (-y));
      }
    }
    DivOfMultiple(ak, ay);
  }

  lemma DivOfMultiple(a: nat, b: nat)
    requires b > 0
    ensures (a * b) / b == a
  {
    var q, r := (a * b) / b, (a * b) % b;
    assert a * b == q * b + r && 0 <= r < b;
    assert (a - q) * b == r;
    ProductBound(a - q, b);
  }

  lemma ProductBound(d: int, b: int)
    requires b > 0
    ensures d >= 1 ==> d * b >= b
    ensures d <= -1 ==> d * b <= -b
  {
  }
}
