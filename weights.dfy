/** The doubles stored in a `PathfindingMap`: a real number or positive
    infinity, the value the bot uses for an impassable tile. NaN and
    negative infinity never arise in the modelled code and are not values
    here. */
module Weights {

  datatype Weight = Finite(v: real) | Infinite

  /** IEEE addition restricted to these values: infinity absorbs. */
  function Add(a: Weight, b: Weight): Weight
  {
    if a.Infinite? || b.Infinite? then Infinite else Finite(a.v + b.v)
  }

  /** `a < b` on doubles. */
  predicate Less(a: Weight, b: Weight)
  {
    match (a, b)
    case (Finite(x), Finite(y)) => x < y
    case (Finite(_), Infinite) => true
    case (Infinite, _) => false
  }

  /** `a <= b` on doubles (no NaN, so it is the negation of `b < a`). */
  predicate LessEq(a: Weight, b: Weight)
  {
    !Less(b, a)
  }

  /** `std::max(a, b)`, which is `(a < b) ? b : a`. */
  function Max(a: Weight, b: Weight): (m: Weight)
    ensures LessEq(a, m) && LessEq(b, m)
    ensures m == a || m == b
  {
    if Less(a, b) then b else a
  }

  lemma AddIsAssociative(a: Weight, b: Weight, c: Weight)
    ensures Add(Add(a, b), c) == Add(a, Add(b, c))
  {
  }

  lemma AddIsCommutative(a: Weight, b: Weight)
    ensures Add(a, b) == Add(b, a)
  {
  }

  lemma LessIsStrictTotalOrder(a: Weight, b: Weight, c: Weight)
    ensures !Less(a, a)
    ensures Less(a, b) ==> !Less(b, a)
    ensures Less(a, b) && Less(b, c) ==> Less(a, c)
    ensures a != b ==> Less(a, b) || Less(b, a)
  {
  }
}
