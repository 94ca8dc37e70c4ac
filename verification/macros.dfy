/**
  The arithmetic helpers of base_macro.h: rounding to a multiple, the
  iteration-capped `while_s` loop and the clamps to half the integer range.
  C integer division truncates toward zero, which differs from Dafny's
  Euclidean division for negative operands, so it is written out.
*/
module Macros {

  /** C's `/` on signed integers: the quotient truncated toward zero. */
  function CDiv(a: int, b: int): (q: int)
    requires b != 0
    ensures a >= 0 && b > 0 ==> q == a / b
    ensures b > 0 ==> q * b <= a || a < 0
  {
    if a >= 0 then (if b > 0 then a / b else -(a / -b))
    else (if b > 0 then -((-a) / b) else (-a) / (-b))
  }

  /** ROUNDUP(x, y) */
  function RoundUp(x: int, y: int): int
    requires y != 0
  {
    CDiv(x + (y - 1), y) * y
  }

  /** ROUNDDOWN(x, y) */
  function RoundDown(x: int, y: int): int
    requires y != 0
  {
    CDiv(x, y) * y
  }

  /** DIV_ROUND_UP(n, d) */
  function DivRoundUp(n: int, d: int): int
    requires d != 0
  {
    CDiv(n + d - 1, d)
  }

  /** Euclidean division is determined by its quotient-remainder identity. */
  lemma DivModUnique(a: int, y: int, q: int, r: int)
    requires y > 0 && 0 <= r < y && a == q * y + r
    ensures a / y == q && a % y == r
  {
    var q', r' := a / y, a % y;
    var d := q - q';
    assert d * y == q * y - q' * y;
    assert d * y == r' - r;
    if d >= 1 {
      assert d * y >= y by { MulGrows(d, y); }
      assert false;
    }
    if d <= -1 {
      assert (-d) * y >= y by { MulGrows(-d, y); }
      assert false;
    }
  }

  lemma MulGrows(d: int, y: int)
    requires d >= 1 && y > 0
    ensures d * y >= y
  {
    assert d * y == (d - 1) * y + y;
  }

  /** ROUNDUP gives the least multiple of y that is at least x. */
  lemma RoundUpSpec(x: int, y: int)
    requires x >= 0 && y > 0
    ensures RoundUp(x, y) % y == 0
    ensures x <= RoundUp(x, y) < x + y
    ensures x % y == 0 ==> RoundUp(x, y) == x
  {
    var a := x + (y - 1);
    var q, r := a / y, a % y;
    assert a == q * y + r;
    assert RoundUp(x, y) == q * y;
    DivModUnique(q * y, y, q, 0);
    if x % y == 0 {
      var k := x / y;
      assert x == k * y + 0;
      assert a == k * y + (y - 1);
      DivModUnique(a, y, k, y - 1);
    }
  }

  /** A multiple of y above x bounds ROUNDUP(x, y) from above. */
  lemma RoundUpBelowMultiple(x: int, y: int, m: int)
    requires x >= 0 && y > 0 && m >= x && m % y == 0
    ensures RoundUp(x, y) <= m
  {
    RoundUpSpec(x, y);
    var r := RoundUp(x, y);
    var a, b := r / y, m / y;
    assert r == a * y + 0;
    assert m == b * y + 0;
    assert r - m == (a - b) * y;
    if a > b {
      MulGrows(a - b, y);
      assert false;
    }
    assert (b - a) * y >= 0 by {
      if b - a >= 1 { MulGrows(b - a, y); }
    }
    assert m - r == (b - a) * y;
  }

  /** ROUNDDOWN gives the greatest multiple of y that is at most x. */
  lemma RoundDownSpec(x: int, y: int)
    requires x >= 0 && y > 0
    ensures RoundDown(x, y) % y == 0
    ensures x - y < RoundDown(x, y) <= x
  {
    var q, r := x / y, x % y;
    assert x == q * y + r;
    assert RoundDown(x, y) == q * y;
    DivModUnique(q * y, y, q, 0);
  }

  /** DIV_ROUND_UP counts the blocks of ROUNDUP. */
  lemma DivRoundUpTimes(n: int, d: int)
    requires d != 0
    ensures DivRoundUp(n, d) * d == RoundUp(n, d)
  {
  }

  /** The iteration cap of `while_s`. */
  const WhileCap: nat := 1000000

  /**
    The number of times a `while_s (p)` body runs when p's value on the k-th
    test is p(k): the counter is tested (and bumped) before p, so p is
    evaluated only while fewer than WhileCap rounds have run.
  */
  function WhileSRuns(p: nat -> bool): (n: nat)
    ensures n <= WhileCap
    ensures forall k :: 0 <= k < n ==> p(k)
    ensures n < WhileCap ==> !p(n)
  {
    WhileSFrom(p, 0)
  }

  function WhileSFrom(p: nat -> bool, k: nat): (n: nat)
    requires k <= WhileCap
    requires forall j :: 0 <= j < k ==> p(j)
    ensures k <= n <= WhileCap
    ensures forall j :: 0 <= j < n ==> p(j)
    ensures n < WhileCap ==> !p(n)
    decreases WhileCap - k
  {
    if k >= WhileCap then k
    else if !p(k) then k
    else WhileSFrom(p, k + 1)
  }

  /** A `while_s (true)` loop runs exactly WhileCap times. */
  lemma WhileSTrueHitsCap()
    ensures WhileSRuns(_ => true) == WhileCap
  {
  }

  const IntMax: int := 0x7FFF_FFFF
  const Int64Max: int := 0x7FFF_FFFF_FFFF_FFFF
  /** INT_LIMIT and INT64_LIMIT: half the signed range, rounded down. */
  const IntLimit: int := IntMax / 2
  const Int64Limit: int := Int64Max / 2

  /** FIX_INT_LIMIT / FIX_INT64_LIMIT with the limit as a parameter. */
  function FixLimit(num: int, limit: int): (r: int)
    requires limit >= 0
    ensures 0 <= r <= limit
    ensures 0 <= num <= limit ==> r == num
    ensures forall y :: 0 <= y <= limit ==> Dist(r, num) <= Dist(y, num)
  {
    if num < 0 then 0 else if num > limit then limit else num
  }

  function Dist(a: int, b: int): nat { if a >= b then a - b else b - a }

  function FixIntLimit(num: int): (r: int)
    ensures 0 <= r <= IntLimit
  {
    FixLimit(num, IntLimit)
  }

  function FixInt64Limit(num: int): (r: int)
    ensures 0 <= r <= Int64Limit
  {
    FixLimit(num, Int64Limit)
  }

  /** Clamping twice is clamping once. */
  lemma FixLimitIdempotent(num: int, limit: int)
    requires limit >= 0
    ensures FixLimit(FixLimit(num, limit), limit) == FixLimit(num, limit)
  {
  }

  lemma IntLimitValues()
    ensures IntLimit == 1073741823
    ensures Int64Limit == 4611686018427387903
  {
  }
}
