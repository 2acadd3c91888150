/** `PathfindingMap`: a w×h table of weights, updated in place by
    element-wise addition and by stamping a square kernel centred on a tile. */
module PathfindingMaps {
  import opened Common
  import opened Weights

  /** Every kernel the bot builds has an odd side 2r+1; the stamping loops
      index it at 0..2r in both directions. */
  predicate IsKernel(k: array2<real>)
  {
    k.Length0 % 2 == 1 && k.Length1 >= k.Length0
  }

  /** `influence.size() / 2`. */
  function Radius(k: array2<real>): nat
  {
    k.Length0 / 2
  }

  /** The tile (x, y) lies in the (2r+1)² window centred on (x0, y0). */
  predicate InWindow(x: int, y: int, x0: int, y0: int, r: int)
  {
    -r <= x - x0 <= r && -r <= y - y0 <= r
  }

  /** The new weight of (x, y) after `addInfluence(k, x0, y0)`. */
  function StampAdd(v: Weight, k: array2<real>, x0: int, y0: int, x: int, y: int): Weight
    reads k
    requires IsKernel(k)
  {
    var r := Radius(k);
    if InWindow(x, y, x0, y0, r) then Add(v, Finite(k[x - x0 + r, y - y0 + r])) else v
  }

  /** The new weight of (x, y) after `addInfluenceMultiple(k, x0, y0, factor)`. */
  function StampAddScaled(v: Weight, k: array2<real>, x0: int, y0: int, x: int, y: int, factor: real): Weight
    reads k
    requires IsKernel(k)
  {
    var r := Radius(k);
    if InWindow(x, y, x0, y0, r) then Add(v, Finite(k[x - x0 + r, y - y0 + r] * factor)) else v
  }

  /** The new weight of (x, y) after `maxInfluence(k, x0, y0)`: it never
      decreases, and inside the window it is at least the kernel value. */
  function StampMax(v: Weight, k: array2<real>, x0: int, y0: int, x: int, y: int): (r: Weight)
    reads k
    requires IsKernel(k)
    ensures LessEq(v, r)
    ensures InWindow(x, y, x0, y0, Radius(k)) ==>
              LessEq(Finite(k[x - x0 + Radius(k), y - y0 + Radius(k)]), r)
    ensures !InWindow(x, y, x0, y0, Radius(k)) ==> r == v
  {
    var rad := Radius(k);
    if InWindow(x, y, x0, y0, rad) then Max(v, Finite(k[x - x0 + rad, y - y0 + rad])) else v
  }

  /** With factor 1 the scaled stamp is the plain one. */
  lemma ScaledStampByOneIsPlain(v: Weight, k: array2<real>, x0: int, y0: int, x: int, y: int)
    requires IsKernel(k)
    ensures StampAddScaled(v, k, x0, y0, x, y, 1.0) == StampAdd(v, k, x0, y0, x, y)
  {
  }

  /** Stamping the same kernel with `max` twice is stamping it once. */
  lemma StampMaxIsIdempotent(v: Weight, k: array2<real>, x0: int, y0: int, x: int, y: int)
    requires IsKernel(k)
    ensures StampMax(StampMax(v, k, x0, y0, x, y), k, x0, y0, x, y) == StampMax(v, k, x0, y0, x, y)
  {
  }

  /** Running total of the first n cells of column x, in loop order. */
  function RowSum(a: array2<Weight>, x: int, n: int): Weight
    reads a
    requires 0 <= x < a.Length0 && 0 <= n <= a.Length1
  {
    if n == 0 then Finite(0.0) else Add(RowSum(a, x, n - 1), a[x, n - 1])
  }

  /** Total of the cells of the first m columns. */
  function GridSum(a: array2<Weight>, m: int): Weight
    reads a
    requires 0 <= m <= a.Length0
  {
    if m == 0 then Finite(0.0) else Add(GridSum(a, m - 1), RowSum(a, m - 1, a.Length1))
  }

  /** A column total is infinite exactly when one of its cells is. */
  lemma {:induction false} RowSumInfinite(a: array2<Weight>, x: int, n: int)
    requires 0 <= x < a.Length0 && 0 <= n <= a.Length1
    ensures RowSum(a, x, n).Infinite? <==> exists y :: 0 <= y < n && a[x, y].Infinite?
  {
    if n > 0 {
      RowSumInfinite(a, x, n - 1);
    }
  }

  /** The total is infinite exactly when some cell is impassable. */
  lemma {:induction false} GridSumInfinite(a: array2<Weight>, m: int)
    requires 0 <= m <= a.Length0
    ensures GridSum(a, m).Infinite? <==> exists x, y :: 0 <= x < m && 0 <= y < a.Length1 && a[x, y].Infinite?
  {
    if m > 0 {
      GridSumInfinite(a, m - 1);
      RowSumInfinite(a, m - 1, a.Length1);
    }
  }

  lemma AddInterchange(a: Weight, b: Weight, c: Weight, d: Weight)
    ensures Add(Add(a, b), Add(c, d)) == Add(Add(a, c), Add(b, d))
  {
  }

  lemma {:induction false} RowSumOfSum(a: array2<Weight>, b: array2<Weight>, c: array2<Weight>, x: int, n: int)
    requires a.Length0 == b.Length0 == c.Length0 && a.Length1 == b.Length1 == c.Length1
    requires 0 <= x < a.Length0 && 0 <= n <= a.Length1
    requires forall y :: 0 <= y < a.Length1 ==> c[x, y] == Add(a[x, y], b[x, y])
    ensures RowSum(c, x, n) == Add(RowSum(a, x, n), RowSum(b, x, n))
  {
    if n > 0 {
      RowSumOfSum(a, b, c, x, n - 1);
      AddInterchange(RowSum(a, x, n - 1), RowSum(b, x, n - 1), a[x, n - 1], b[x, n - 1]);
    }
  }

  /** The total of an element-wise sum is the sum of the totals. */
  lemma {:induction false} GridSumOfSum(a: array2<Weight>, b: array2<Weight>, c: array2<Weight>, m: int)
    requires a.Length0 == b.Length0 == c.Length0 && a.Length1 == b.Length1 == c.Length1
    requires 0 <= m <= a.Length0
    requires forall x, y :: 0 <= x < a.Length0 && 0 <= y < a.Length1 ==> c[x, y] == Add(a[x, y], b[x, y])
    ensures GridSum(c, m) == Add(GridSum(a, m), GridSum(b, m))
  {
    if m > 0 {
      GridSumOfSum(a, b, c, m - 1);
      RowSumOfSum(a, b, c, m - 1, a.Length1);
      AddInterchange(GridSum(a, m - 1), GridSum(b, m - 1), RowSum(a, m - 1, a.Length1), RowSum(b, m - 1, a.Length1));
    }
  }

  /** The cells the as-written `sum` and `getMax` loops read: `weights[i][j]`
      for `i < h`, `j < w`. */
  function TransposedCells(w: nat, h: nat): set<Position>
  {
    set i, j | 0 <= i < h && 0 <= j < w :: Position(i, j)
  }

  /** On a map that is not square, the as-written loops read a cell outside
      the w×h table. */
  lemma TransposedTraversalLeavesTable(w: nat, h: nat)
    requires 0 < w && 0 < h && w != h
    ensures exists p :: p in TransposedCells(w, h) && !OnMap(p, w, h)
  {
    if h > w {
      assert Position(h - 1, 0) in TransposedCells(w, h);
    } else {
      assert Position(0, w - 1) in TransposedCells(w, h);
    }
  }

  /** The concrete case: on a 2×3 map the loops read `weights[2][0]`,
      past the end of the two-column table. */
  lemma TransposedTraversalOnTwoByThree()
    ensures Position(2, 0) in TransposedCells(2, 3) && !OnMap(Position(2, 0), 2, 3)
  {
  }

  /** On square (or empty) maps the as-written loops read exactly the map. */
  lemma TransposedTraversalOnSquare(w: nat, h: nat)
    requires w == h || w == 0 || h == 0
    ensures forall p :: p in TransposedCells(w, h) <==> OnMap(p, w, h) && 0 < w && 0 < h
  {
  }

  class PathfindingMap {
    var weights: array2<Weight>
    var w: int
    var h: int

    ghost predicate Valid()
      reads this
    {
      weights.Length0 == w && weights.Length1 == h
    }

    /** `PathfindingMap()`: an empty map. */
    constructor Empty()
      ensures Valid() && w == 0 && h == 0 && fresh(weights)
    {
      weights := new Weight[0, 0];
      w, h := 0, 0;
    }

    /** `PathfindingMap(width, height)`: every weight is 0. */
    constructor (width: int, height: int)
      requires 0 <= width && 0 <= height
      ensures Valid() && w == width && h == height && fresh(weights)
      ensures forall x, y :: 0 <= x < w && 0 <= y < h ==> weights[x, y] == Finite(0.0)
    {
      w, h := width, height;
      weights := new Weight[width, height]((_, _) => Finite(0.0));
    }

    /** The copy `auto ret = (*this)` that `operator+` starts from. */
    constructor Copy(other: PathfindingMap)
      requires other.Valid()
      ensures Valid() && w == other.w && h == other.h && fresh(weights)
      ensures forall x, y :: 0 <= x < w && 0 <= y < h ==> weights[x, y] == other.weights[x, y]
    {
      w, h := other.w, other.h;
      var src := other.weights;
      weights := new Weight[other.w, other.h]((x, y) reads src requires 0 <= x < src.Length0 && 0 <= y < src.Length1 => src[x, y]);
    }

    /** `operator+=`: adds `other` cell by cell over this map's w×h cells. */
    method AddAssign(other: PathfindingMap)
      requires Valid() && other.Valid() && w <= other.w && h <= other.h
      modifies weights
      ensures forall x, y :: 0 <= x < w && 0 <= y < h ==>
                weights[x, y] == Add(old(weights[x, y]), old(other.weights[x, y]))
    {
      for i := 0 to w
        invariant forall x, y :: 0 <= x < w && 0 <= y < h ==>
                    weights[x, y] == if x < i then Add(old(weights[x, y]), old(other.weights[x, y])) else old(weights[x, y])
        invariant forall x, y :: i <= x < w && 0 <= y < h ==> other.weights[x, y] == old(other.weights[x, y])
      {
        for j := 0 to h
          invariant forall x, y :: 0 <= x < w && 0 <= y < h ==>
                      weights[x, y] == if x < i || (x == i && y < j) then Add(old(weights[x, y]), old(other.weights[x, y])) else old(weights[x, y])
          invariant forall x, y :: 0 <= x < w && 0 <= y < h && (x > i || (x == i && y >= j)) ==>
                      other.weights[x, y] == old(other.weights[x, y])
        {
          weights[i, j] := Add(weights[i, j], other.weights[i, j]);
        }
      }
    }

    /** `operator+`: a fresh map holding the sum; neither operand changes. */
    method Plus(other: PathfindingMap) returns (ret: PathfindingMap)
      requires Valid() && other.Valid() && w <= other.w && h <= other.h
      ensures fresh(ret) && fresh(ret.weights) && ret.Valid() && ret.w == w && ret.h == h
      ensures forall x, y :: 0 <= x < w && 0 <= y < h ==> ret.weights[x, y] == Add(weights[x, y], other.weights[x, y])
    {
      ret := new PathfindingMap.Copy(this);
      ret.AddAssign(other);
    }

    /** `sum` with the loops over columns then rows (`TransposedCells` is
        what the loops as written read instead). */
    method Sum() returns (total: Weight)
      requires Valid()
      ensures total == GridSum(weights, w)
      ensures total.Infinite? <==> exists x, y :: 0 <= x < w && 0 <= y < h && weights[x, y].Infinite?
    {
      total := Finite(0.0);
      for i := 0 to w
        invariant total == GridSum(weights, i)
      {
        for j := 0 to h
          invariant total == Add(GridSum(weights, i), RowSum(weights, i, j))
        {
          AddIsAssociative(GridSum(weights, i), RowSum(weights, i, j), weights[i, j]);
          total := Add(total, weights[i, j]);
        }
      }
      GridSumInfinite(weights, w);
    }

    /** `getMax` with the loops over columns then rows: the result is at
        least 0 and at least every weight, and it is 0 or one of them. */
    method GetMax() returns (m: Weight)
      requires Valid()
      ensures LessEq(Finite(0.0), m)
      ensures forall x, y :: 0 <= x < w && 0 <= y < h ==> LessEq(weights[x, y], m)
      ensures m == Finite(0.0) || exists x, y :: 0 <= x < w && 0 <= y < h && weights[x, y] == m
    {
      m := Finite(0.0);
      for i := 0 to w
        invariant LessEq(Finite(0.0), m)
        invariant forall x, y :: 0 <= x < i && 0 <= y < h ==> LessEq(weights[x, y], m)
        invariant m == Finite(0.0) || exists x, y :: 0 <= x < i && 0 <= y < h && weights[x, y] == m
      {
        for j := 0 to h
          invariant LessEq(Finite(0.0), m)
          invariant forall x, y :: 0 <= x < w && 0 <= y < h && (x < i || (x == i && y < j)) ==> LessEq(weights[x, y], m)
          invariant m == Finite(0.0) || exists x, y :: 0 <= x <= i && 0 <= y < h && weights[x, y] == m
        {
          m := Max(m, weights[i, j]);
        }
      }
    }

    /** `getMax` as written: `weights[i][j]` for `i < h`, `j < w`. The
        indices stay inside the table only on square or empty maps, and
        there it computes the same maximum. */
    method GetMaxAsWritten() returns (m: Weight)
      requires Valid() && (w == h || w == 0 || h == 0)
      ensures LessEq(Finite(0.0), m)
      ensures forall x, y :: 0 <= x < w && 0 <= y < h ==> LessEq(weights[x, y], m)
      ensures m == Finite(0.0) || exists x, y :: 0 <= x < w && 0 <= y < h && weights[x, y] == m
    {
      m := Finite(0.0);
      for i := 0 to h
        invariant LessEq(Finite(0.0), m)
        invariant forall x, y :: 0 <= x < i && 0 <= y < w ==> LessEq(weights[x, y], m)
        invariant m == Finite(0.0) || exists x, y :: 0 <= x < w && 0 <= y < h && weights[x, y] == m
      {
        for j := 0 to w
          invariant LessEq(Finite(0.0), m)
          invariant forall x, y :: 0 <= x < h && 0 <= y < w && (x < i || (x == i && y < j)) ==> LessEq(weights[x, y], m)
          invariant m == Finite(0.0) || exists x, y :: 0 <= x < w && 0 <= y < h && weights[x, y] == m
        {
          m := Max(m, weights[i, j]);
        }
      }
    }

    /** `addInfluence`: every on-map cell of the window centred on (x0, y0)
        gains its kernel value; every other cell keeps its weight. */
    method AddInfluence(influence: array2<real>, x0: int, y0: int)
      requires Valid() && IsKernel(influence)
      modifies weights
      ensures forall x, y :: 0 <= x < w && 0 <= y < h ==>
                weights[x, y] == StampAdd(old(weights[x, y]), influence, x0, y0, x, y)
    {
      var r := influence.Length0 / 2;
      for dx := -r to r + 1
        invariant forall x, y :: 0 <= x < w && 0 <= y < h ==>
                    weights[x, y] == if x - x0 < dx then StampAdd(old(weights[x, y]), influence, x0, y0, x, y) else old(weights[x, y])
      {
        for dy := -r to r + 1
          invariant forall x, y :: 0 <= x < w && 0 <= y < h ==>
                      weights[x, y] == if x - x0 < dx || (x - x0 == dx && y - y0 < dy)
                                       then StampAdd(old(weights[x, y]), influence, x0, y0, x, y) else old(weights[x, y])
        {
          var x := x0 + dx;
          var y := y0 + dy;
          if x >= 0 && y >= 0 && x < w && y < h {
            weights[x, y] := Add(weights[x, y], Finite(influence[dx + r, dy + r]));
          }
        }
      }
    }

    /** `addInfluenceMultiple`: the same stamp with every kernel value
        multiplied by `factor`. */
    method AddInfluenceMultiple(influence: array2<real>, x0: int, y0: int, factor: real)
      requires Valid() && IsKernel(influence)
      modifies weights
      ensures forall x, y :: 0 <= x < w && 0 <= y < h ==>
                weights[x, y] == StampAddScaled(old(weights[x, y]), influence, x0, y0, x, y, factor)
    {
      var r := influence.Length0 / 2;
      for dx := -r to r + 1
        invariant forall x, y :: 0 <= x < w && 0 <= y < h ==>
                    weights[x, y] == if x - x0 < dx then StampAddScaled(old(weights[x, y]), influence, x0, y0, x, y, factor) else old(weights[x, y])
      {
        for dy := -r to r + 1
          invariant forall x, y :: 0 <= x < w && 0 <= y < h ==>
                      weights[x, y] == if x - x0 < dx || (x - x0 == dx && y - y0 < dy)
                                       then StampAddScaled(old(weights[x, y]), influence, x0, y0, x, y, factor) else old(weights[x, y])
        {
          var x := x0 + dx;
          var y := y0 + dy;
          if x >= 0 && y >= 0 && x < w && y < h {
            weights[x, y] := Add(weights[x, y], Finite(influence[dx + r, dy + r] * factor));
          }
        }
      }
    }

    /** `maxInfluence`: every on-map cell of the window becomes the larger
        of its weight and its kernel value; every other cell is unchanged. */
    method MaxInfluence(influence: array2<real>, x0: int, y0: int)
      requires Valid() && IsKernel(influence)
      modifies weights
      ensures forall x, y :: 0 <= x < w && 0 <= y < h ==>
                weights[x, y] == StampMax(old(weights[x, y]), influence, x0, y0, x, y)
    {
      var r := influence.Length0 / 2;
      for dx := -r to r + 1
        invariant forall x, y :: 0 <= x < w && 0 <= y < h ==>
                    weights[x, y] == if x - x0 < dx then StampMax(old(weights[x, y]), influence, x0, y0, x, y) else old(weights[x, y])
      {
        for dy := -r to r + 1
          invariant forall x, y :: 0 <= x < w && 0 <= y < h ==>
                      weights[x, y] == if x - x0 < dx || (x - x0 == dx && y - y0 < dy)
                                       then StampMax(old(weights[x, y]), influence, x0, y0, x, y) else old(weights[x, y])
        {
          var x := x0 + dx;
          var y := y0 + dy;
          if x >= 0 && y >= 0 && x < w && y < h {
            weights[x, y] := Max(weights[x, y], Finite(influence[dx + r, dy + r]));
          }
        }
      }
    }
  }
}
