/** Shared vocabulary of the bot: grid positions, the on-map test and the
    C++ conversions (truncation toward zero) that the grid code relies on. */
module Common {

  /** A tile of the map (`Position` and `pii` in the bot; `x` indexes the
      outer vector, `y` the inner one). */
  datatype Position = Position(x: int, y: int)

  /** `isOnMap` for a map of `w` columns and `h` rows. */
  predicate OnMap(p: Position, w: int, h: int)
  {
    0 <= p.x && 0 <= p.y && p.x < w && p.y < h
  }

  /** One king move apart: the eight tiles around `p`, not `p` itself. */
  predicate Adjacent(p: Position, q: Position)
  {
    p != q && -1 <= p.x - q.x <= 1 && -1 <= p.y - q.y <= 1
  }

  function Abs(n: int): nat
  {
    if n < 0 then -n else n
  }

  /** The C++ conversion `(int)x` of a double: truncation toward zero. */
  function TruncReal(x: real): (r: int)
    ensures 0.0 <= x ==> 0 <= r && r as real <= x < r as real + 1.0
    ensures x < 0.0 ==> r <= 0 && r as real - 1.0 < x <= r as real
  {
    if x >= 0.0 then x.Floor else -((-x).Floor)
  }

  /** C++ `a / b` on `int`: the quotient truncated toward zero. */
  function TruncDiv(a: int, b: int): (q: int)
    requires b > 0
    ensures 0 <= a ==> 0 <= q && q * b <= a < q * b + b
    ensures a < 0 ==> q <= 0 && q * b - b < a <= q * b
  {
    if a >= 0 then a / b else -((-a) / b)
  }

  /** 2^k. */
  function Pow2(k: nat): (p: nat)
    ensures p >= 1
  {
    if k == 0 then 1 else 2 * Pow2(k - 1)
  }
}
