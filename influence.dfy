/** The influence kernels of `influence.cpp`: square tables of side 2r+1
    whose cell (dx+r, dy+r) is a function of the offset (dx, dy) from the
    centre, almost always of `dx*dx + dy*dy` only. */
module Influence {
  import opened Common
  import opened Weights
  import PathfindingMaps

  /** `dx*dx + dy*dy`. */
  function Dist2(dx: int, dy: int): nat
  {
    dx * dx + dy * dy
  }

  /** `max(0, n)`. */
  function Max0(n: int): int
  {
    if n < 0 then 0 else n
  }

  /** Squaring is strictly monotone on the naturals. */
  lemma SquareIsMonotone(a: int, b: int)
    requires 0 <= a < b
    ensures a * a < b * b
  {
    assert a * a <= a * b;
    assert a * b < b * b;
  }

  /** Comparing a square with the square of a natural compares the absolute
      value. */
  lemma SquareCompare(n: int, k: nat)
    ensures Abs(n) < k <==> n * n < k * k
    ensures Abs(n) <= k <==> n * n <= k * k
  {
    var a := Abs(n);
    assert a * a == n * n;
    if a < k {
      SquareIsMonotone(a, k);
    } else if k < a {
      SquareIsMonotone(k, a);
    }
  }

  /** A coordinate whose square is at most `s` lies within `q` of the
      centre when `s < (q + 1) * (q + 1)`. */
  lemma WithinRoot(n: int, s: int, q: nat)
    requires n * n <= s < (q + 1) * (q + 1)
    ensures Abs(n) <= q
  {
    SquareCompare(n, q + 1);
  }

  /** Each axis contributes at most the whole squared distance. */
  lemma Dist2Bounds(dx: int, dy: int)
    ensures dx * dx <= Dist2(dx, dy) && dy * dy <= Dist2(dx, dy)
  {
    SquareCompare(dx, 0);
    SquareCompare(dy, 0);
  }

  /** The squared distance vanishes only at the centre. */
  lemma Dist2IsZeroAtCentre(dx: int, dy: int)
    ensures Dist2(dx, dy) == 0 <==> dx == 0 && dy == 0
  {
    SquareCompare(dx, 0);
    SquareCompare(dy, 0);
  }

  /** The squared distance is at most 2 exactly on the 3 x 3 block around
      the centre. */
  lemma Dist2InBlock(dx: int, dy: int)
    ensures Dist2(dx, dy) <= 2 <==> -1 <= dx <= 1 && -1 <= dy <= 1
  {
    SquareCompare(dx, 0);
    SquareCompare(dy, 0);
    SquareCompare(dx, 1);
    SquareCompare(dy, 1);
  }

  /** `(int)ceil(sqrt(s))` for `s >= 0`: the least `r` with `r * r >= s`. */
  function CeilSqrt(s: nat): (r: nat)
    ensures s <= r * r
    ensures r == 0 || (r - 1) * (r - 1) < s
  {
    CeilSqrtFrom(s, 0)
  }

  /** Searches upwards from `r`, whose predecessor is still too small. */
  function CeilSqrtFrom(s: nat, r: nat): (q: nat)
    requires r == 0 || (r - 1) * (r - 1) < s
    ensures s <= q * q
    ensures q == 0 || (q - 1) * (q - 1) < s
    decreases s - r * r
  {
    if s <= r * r then r else
      SquareIsMonotone(r, r + 1);
      CeilSqrtFrom(s, r + 1)
  }

  /** No smaller root covers `s`, so the root is determined by its two
      defining inequalities. */
  lemma CeilSqrtIsExact(s: nat, r: nat)
    requires s <= r * r
    requires r == 0 || (r - 1) * (r - 1) < s
    ensures CeilSqrt(s) == r
  {
    var q := CeilSqrt(s);
    if q < r {
      SquareCompare(q, r - 1);
    } else if r < q {
      SquareCompare(r, q - 1);
    }
  }

  /** The three radii `initInfluence` asks for. */
  lemma CeilSqrtOfUsedRadii()
    ensures CeilSqrt(30) == 6 && CeilSqrt(31) == 6 && CeilSqrt(2) == 2
  {
    CeilSqrtIsExact(30, 6);
    CeilSqrtIsExact(31, 6);
    CeilSqrtIsExact(2, 2);
  }

  /** Fills a fresh (2r+1) x (2r+1) table, cell (dx+r, dy+r) getting
      `cell(dx, dy)`: the nested `for (dx = -r; dx <= r; ++dx)`,
      `for (dy = -r; dy <= r; ++dy)` loops every builder uses. */
  method Fill(r: nat, cell: (int, int) -> real) returns (k: array2<real>)
    ensures fresh(k)
    ensures Holds(k, r, cell)
  {
    k := new real[2 * r + 1, 2 * r + 1]((_, _) => 0.0);
    for dx: int := -(r as int) to r + 1
      invariant forall i, j :: 0 <= i < dx + r && 0 <= j < 2 * r + 1 ==> k[i, j] == cell(i - r, j - r)
    {
      for dy: int := -(r as int) to r + 1
        invariant forall i, j :: 0 <= i < dx + r && 0 <= j < 2 * r + 1 ==> k[i, j] == cell(i - r, j - r)
        invariant forall i, j :: i == dx + r && 0 <= j < dy + r ==> k[i, j] == cell(i - r, j - r)
      {
        k[dx + r, dy + r] := cell(dx, dy);
      }
    }
  }

  /** `k` is the (2r+1) x (2r+1) table of `cell`. */
  ghost predicate Holds(k: array2<real>, r: nat, cell: (int, int) -> real)
    reads k
  {
    && k.Length0 == 2 * r + 1 && k.Length1 == 2 * r + 1
    && forall i, j :: 0 <= i < k.Length0 && 0 <= j < k.Length1 ==> k[i, j] == cell(i - r, j - r)
  }

  /** A table built by `Fill` is a kernel of radius `r`, and stamping it at
      (x0, y0) adds `cell(x - x0, y - y0)` to every tile of the window. */
  lemma FilledTableIsKernel(k: array2<real>, r: nat, cell: (int, int) -> real,
                            v: Weight, x0: int, y0: int, x: int, y: int)
    requires Holds(k, r, cell)
    ensures PathfindingMaps.IsKernel(k) && PathfindingMaps.Radius(k) == r
    ensures PathfindingMaps.StampAdd(v, k, x0, y0, x, y) ==
              if PathfindingMaps.InWindow(x, y, x0, y0, r) then Add(v, Finite(cell(x - x0, y - y0))) else v
  {
  }

  // ---------------------------------------------------------------- discs

  /** `calculate_uniform_disc_influence`: 1 inside the disc of squared
      radius `s`, else 0. */
  function UniformDiscCell(s: int, dx: int, dy: int): real
  {
    if Dist2(dx, dy) > s then 0.0 else 1.0
  }

  /** `k` is the uniform disc table of `s`, of radius `ceil(sqrt(s))`. */
  ghost predicate IsUniformDisc(k: array2<real>, s: nat)
    reads k
  {
    var r := CeilSqrt(s);
    && k.Length0 == 2 * r + 1 && k.Length1 == 2 * r + 1
    && forall i, j :: 0 <= i < k.Length0 && 0 <= j < k.Length1 ==> k[i, j] == UniformDiscCell(s, i - r, j - r)
  }

  method UniformDisc(s: nat) returns (k: array2<real>)
    ensures fresh(k)
    ensures IsUniformDisc(k, s)
  {
    var r := CeilSqrt(s);
    k := Fill(r, (dx, dy) => UniformDiscCell(s, dx, dy));
  }

  /** The table of side 2r+1, r = ceil(sqrt(s)), holds the whole disc: every
      offset inside it lies within r of the centre on both axes. */
  lemma UniformDiscFitsTable(s: nat, dx: int, dy: int)
    requires UniformDiscCell(s, dx, dy) == 1.0
    ensures Abs(dx) <= CeilSqrt(s) && Abs(dy) <= CeilSqrt(s)
  {
    var r := CeilSqrt(s);
    SquareIsMonotone(r, r + 1);
    Dist2Bounds(dx, dy);
    WithinRoot(dx, s, r);
    WithinRoot(dy, s, r);
  }

  /** The disc is symmetric under sign flips and the swap of axes, and its
      centre is set. */
  lemma UniformDiscIsSymmetric(s: nat, dx: int, dy: int)
    ensures UniformDiscCell(s, dx, dy) == UniformDiscCell(s, -dx, dy)
    ensures UniformDiscCell(s, dx, dy) == UniformDiscCell(s, dx, -dy)
    ensures UniformDiscCell(s, dx, dy) == UniformDiscCell(s, dy, dx)
    ensures UniformDiscCell(s, 0, 0) == 1.0
  {
    assert (-dx) * (-dx) == dx * dx;
    assert (-dy) * (-dy) == dy * dy;
  }

  /** `calculate_rough_disc_influence` as written: 1 inside the disc, 0.5
      where the far corner of the tile is inside it, else 0. */
  function RoughDiscCell(s: int, dx: int, dy: int): real
  {
    if Dist2(dx, dy) <= s then 1.0
    else if Dist2(Abs(dx) + 1, Abs(dy) + 1) <= s then 0.5
    else 0.0
  }

  /** `k` is the rough disc table of `s`, of radius `ceil(sqrt(s)) + 1`. */
  ghost predicate IsRoughDisc(k: array2<real>, s: nat)
    reads k
  {
    var r := CeilSqrt(s) + 1;
    && k.Length0 == 2 * r + 1 && k.Length1 == 2 * r + 1
    && forall i, j :: 0 <= i < k.Length0 && 0 <= j < k.Length1 ==> k[i, j] == RoughDiscCell(s, i - r, j - r)
  }

  method RoughDisc(s: nat) returns (k: array2<real>)
    ensures fresh(k)
    ensures IsRoughDisc(k, s)
  {
    var r := CeilSqrt(s) + 1;
    k := Fill(r, (dx, dy) => RoughDiscCell(s, dx, dy));
  }

  /** The far corner of a tile is strictly further out than the tile. */
  lemma FarCornerIsFurther(dx: int, dy: int)
    ensures Dist2(dx, dy) < Dist2(Abs(dx) + 1, Abs(dy) + 1)
  {
    SquareCompare(dx, Abs(dx) + 1);
    SquareCompare(dy, Abs(dy) + 1);
  }

  /** The 0.5 branch is dead, so the rough disc is the uniform disc (on a
      table one wider) and every entry is 0 or 1. */
  lemma RoughDiscIsUniformDisc(s: int, dx: int, dy: int)
    ensures RoughDiscCell(s, dx, dy) == UniformDiscCell(s, dx, dy)
    ensures RoughDiscCell(s, dx, dy) != 0.5
  {
    FarCornerIsFurther(dx, dy);
  }

  // ------------------------------------------------- fixed initInfluence kernels

  /** `rangerTargetInfluence` (r = 7): the annulus 10 < d2 <= 50. */
  function RangerTargetCell(dx: int, dy: int): real
  {
    var d := Dist2(dx, dy);
    if d <= 10 then 0.0 else if d > 50 then 0.0 else 1.0
  }

  /** The annulus lies inside the 15 x 15 table. */
  lemma RangerTargetFitsTable(dx: int, dy: int)
    requires RangerTargetCell(dx, dy) == 1.0
    ensures -7 <= dx <= 7 && -7 <= dy <= 7 && 10 < Dist2(dx, dy) <= 50
  {
    Dist2Bounds(dx, dy);
    WithinRoot(dx, 50, 7);
    WithinRoot(dy, 50, 7);
  }

  /** `enemyRangerTargetInfluence` (r = 8): the tile's far corner is outside
      squared distance 10 and its near corner is within squared distance 50. */
  function EnemyRangerTargetCell(dx: int, dy: int): real
  {
    if Dist2(Abs(dx) + 1, Abs(dy) + 1) <= 10 then 0.0
    else if Dist2(Max0(Abs(dx) - 1), Max0(Abs(dy) - 1)) > 50 then 0.0
    else 1.0
  }

  /** Every set cell lies inside the 17 x 17 table. */
  lemma EnemyRangerTargetFitsTable(dx: int, dy: int)
    requires EnemyRangerTargetCell(dx, dy) == 1.0
    ensures -8 <= dx <= 8 && -8 <= dy <= 8
  {
    var nx, ny := Max0(Abs(dx) - 1), Max0(Abs(dy) - 1);
    Dist2Bounds(nx, ny);
    WithinRoot(nx, 50, 7);
    WithinRoot(ny, 50, 7);
  }

  /** The enemy ranger region is a widening of the ranger annulus: every
      annulus tile is in it. */
  lemma EnemyRangerTargetCoversRangerTarget(dx: int, dy: int)
    requires RangerTargetCell(dx, dy) == 1.0
    ensures EnemyRangerTargetCell(dx, dy) == 1.0
  {
    FarCornerIsFurther(dx, dy);
    var nx: int, ny: int := Max0(Abs(dx) - 1), Max0(Abs(dy) - 1);
    SquareCompare(nx, Abs(dx));
    SquareCompare(ny, Abs(dy));
    SquareCompare(dx, Abs(dx));
    SquareCompare(dy, Abs(dy));
  }

  /** `a / (b + d)` for `a, b > 0` and `d >= 0` is positive, at most
      `a / b`, equal to it only at `d == 0`, and decreasing in `d`. */
  lemma DecayBounds(a: real, b: real, d: real, e: real)
    requires a > 0.0 && b > 0.0 && 0.0 <= d <= e
    ensures 0.0 < a / (b + e) <= a / (b + d) <= a / b
    ensures a / (b + d) == a / b <==> d == 0.0
  {
    assert a / (b + e) * (b + e) == a;
    assert a / (b + d) * (b + d) == a;
    assert a / b * b == a;
  }

  // The decaying kernels depend on the offset only through its squared
  // distance `d`, so each is a profile of `d` composed with `Dist2`.

  /** `wideEnemyInfluence` (r = 12): 50 / (50 + d2). */
  function WideEnemy(d: nat): real
  {
    50.0 / (50 + d) as real
  }

  function WideEnemyCell(dx: int, dy: int): real
  {
    WideEnemy(Dist2(dx, dy))
  }

  /** The wide influence lies in (0, 1], is 1 exactly at the centre and falls
      off with the distance. */
  lemma WideEnemyDecays(d: nat, e: nat)
    requires d <= e
    ensures 0.0 < WideEnemy(e) <= WideEnemy(d) <= 1.0
    ensures WideEnemy(d) == 1.0 <==> d == 0
  {
    assert WideEnemy(d) == 50.0 / (50.0 + d as real);
    assert WideEnemy(e) == 50.0 / (50.0 + e as real);
    DecayBounds(50.0, 50.0, d as real, e as real);
  }

  /** `1 / (1.0 + d2)`: `mageNearbyFuzzyInfluence` (r = 7) and
      `healerProximityInfluence` (r = 5). */
  function InverseDistance(d: nat): real
  {
    1.0 / (1.0 + d as real)
  }

  function InverseDistanceCell(dx: int, dy: int): real
  {
    InverseDistance(Dist2(dx, dy))
  }

  /** The fuzzy kernels peak at 1 at the centre and fall off with the
      squared distance. */
  lemma InverseDistanceDecays(d: nat, e: nat)
    requires d <= e
    ensures 0.0 < InverseDistance(e) <= InverseDistance(d) <= 1.0
    ensures InverseDistance(d) == 1.0 <==> d == 0
  {
    DecayBounds(1.0, 1.0, d as real, e as real);
  }

  /** `workerProximityInfluence` (r = 5): `0.05 / (1.0 + d2)`. */
  function WorkerProximity(d: nat): real
  {
    0.05 / (1.0 + d as real)
  }

  function WorkerProximityCell(dx: int, dy: int): real
  {
    WorkerProximity(Dist2(dx, dy))
  }

  /** The worker kernel is the fuzzy kernel scaled by 1/20. */
  lemma WorkerProximityIsScaledFuzzy(d: nat)
    ensures WorkerProximity(d) == 0.05 * InverseDistance(d)
    ensures 0.0 < WorkerProximity(d) <= 0.05
  {
    DecayBounds(1.0, 1.0, 0.0, d as real);
    assert InverseDistance(d) * (1.0 + d as real) == 1.0;
    assert WorkerProximity(d) * (1.0 + d as real) == 0.05;
  }

  /** `healerOverchargeInfluence` (r = 10): the ring 80 < d2 < 110. */
  function HealerOverchargeCell(dx: int, dy: int): real
  {
    var d := Dist2(dx, dy);
    if d > 80 && d < 110 then 1.0 else 0.0
  }

  /** The ring lies inside the 21 x 21 table. */
  lemma HealerOverchargeFitsTable(dx: int, dy: int)
    requires HealerOverchargeCell(dx, dy) == 1.0
    ensures -10 <= dx <= 10 && -10 <= dy <= 10 && 80 < Dist2(dx, dy) < 110
  {
    Dist2Bounds(dx, dy);
    WithinRoot(dx, 109, 10);
    WithinRoot(dy, 109, 10);
  }

  /** `rangerProximityInfluence` (r = 5): `1 / (1.0 + d2)`, but 0.5 at the
      centre. */
  function RangerProximity(d: nat): real
  {
    if d == 0 then 0.5 else InverseDistance(d)
  }

  function RangerProximityCell(dx: int, dy: int): real
  {
    RangerProximity(Dist2(dx, dy))
  }

  /** The ranger kernel halves the fuzzy kernel's centre and agrees with it
      everywhere else, so its largest value 0.5 is taken at the centre and
      at the four orthogonal neighbours (d2 <= 1). */
  lemma RangerProximityIsCappedFuzzy(d: nat)
    ensures 0.0 < RangerProximity(d) <= 0.5
    ensures d != 0 ==> RangerProximity(d) == InverseDistance(d)
    ensures RangerProximity(d) == 0.5 <==> d <= 1
  {
    if d >= 2 {
      DecayBounds(1.0, 1.0, 2.0, d as real);
    } else if d == 1 {
      assert InverseDistance(1) == 0.5;
    }
  }

  /** `factoryProximityInfluence` (r = 5): 5 at the centre, 0.4 on the other
      tiles with d2 <= 2, `0.1 / (1.0 + d2)` elsewhere. */
  function FactoryProximity(d: nat): real
  {
    if d == 0 then 5.0 else if d <= 2 then 0.4 else 0.1 / (1.0 + d as real)
  }

  function FactoryProximityCell(dx: int, dy: int): real
  {
    FactoryProximity(Dist2(dx, dy))
  }

  /** The factory kernel peaks at the centre, then at its eight neighbours
      (the tiles with 0 < d2 <= 2, see `Dist2InBlock`); every tile further
      out gets at most 0.1 / 4. */
  lemma FactoryProximityPeaksAtCentre(d: nat)
    ensures 0.0 < FactoryProximity(d) <= FactoryProximity(0) == 5.0
    ensures FactoryProximity(d) == 0.4 <==> 0 < d <= 2
    ensures d > 2 ==> FactoryProximity(d) <= 0.025
  {
    if d > 2 {
      DecayBounds(0.1, 1.0, 3.0, d as real);
    }
  }

  /** `rocketProximityInfluence` (r = 5): 0.2 on tiles with d2 <= 2,
      `0.1 / (1.0 + d2)` elsewhere. */
  function RocketProximity(d: nat): real
  {
    if d <= 2 then 0.2 else 0.1 / (1.0 + d as real)
  }

  function RocketProximityCell(dx: int, dy: int): real
  {
    RocketProximity(Dist2(dx, dy))
  }

  /** The rocket kernel is 0.2 exactly on the 3 x 3 block around the centre
      (d2 <= 2, see `Dist2InBlock`) and at most 0.1 / 4 elsewhere. */
  lemma RocketProximityIsBlockThenDecay(d: nat)
    ensures RocketProximity(d) == 0.2 <==> d <= 2
    ensures 0.0 < RocketProximity(d) <= 0.2
    ensures d > 2 ==> RocketProximity(d) <= 0.025
  {
    if d > 2 {
      DecayBounds(0.1, 1.0, 3.0, d as real);
    }
  }

  /** The tables `initInfluence` assigns. The remaining ones declared next
      to them in `influence.h` are never built by it. */
  class Tables {
    var rangerTarget: array2<real>
    var enemyRangerTarget: array2<real>
    var wideEnemy: array2<real>
    var healerTarget: array2<real>
    var mageTarget: array2<real>
    var enemyMageTarget: array2<real>
    var mageProximity: array2<real>
    var knightTarget: array2<real>
    var enemyKnightTarget: array2<real>
    var mageNearbyFuzzy: array2<real>
    var healerProximity: array2<real>
    var healerOvercharge: array2<real>
    var healer: array2<real>
    var workerProximity: array2<real>
    var rangerProximity: array2<real>
    var factoryProximity: array2<real>
    var rocketProximity: array2<real>

    /** `initInfluence`. */
    constructor InitInfluence()
      ensures Holds(rangerTarget, 7, RangerTargetCell)
      ensures Holds(enemyRangerTarget, 8, EnemyRangerTargetCell)
      ensures Holds(wideEnemy, 12, WideEnemyCell)
      ensures IsUniformDisc(healerTarget, 30)
      ensures IsUniformDisc(mageTarget, 30)
      ensures IsRoughDisc(enemyMageTarget, 30)
      ensures IsUniformDisc(mageProximity, 30)
      ensures IsUniformDisc(knightTarget, 2)
      ensures IsRoughDisc(enemyKnightTarget, 2)
      ensures Holds(mageNearbyFuzzy, 7, InverseDistanceCell)
      ensures Holds(healerProximity, 5, InverseDistanceCell)
      ensures Holds(healerOvercharge, 10, HealerOverchargeCell)
      ensures IsUniformDisc(healer, 31)
      ensures Holds(workerProximity, 5, WorkerProximityCell)
      ensures Holds(rangerProximity, 5, RangerProximityCell)
      ensures Holds(factoryProximity, 5, FactoryProximityCell)
      ensures Holds(rocketProximity, 5, RocketProximityCell)
    {
      var rt, ert, we, ht, mt, emt, mp, kt, ekt := TargetTables();
      var mnf, hp, ho, hl, wp, rp, fp, rkp := ProximityTables();
      rangerTarget := rt;
      enemyRangerTarget := ert;
      wideEnemy := we;
      healerTarget := ht;
      mageTarget := mt;
      enemyMageTarget := emt;
      mageProximity := mp;
      knightTarget := kt;
      enemyKnightTarget := ekt;
      mageNearbyFuzzy := mnf;
      healerProximity := hp;
      healerOvercharge := ho;
      healer := hl;
      workerProximity := wp;
      rangerProximity := rp;
      factoryProximity := fp;
      rocketProximity := rkp;
    }
  }

  /** The first nine assignments of `initInfluence`. */
  method TargetTables() returns (rangerTarget: array2<real>, enemyRangerTarget: array2<real>,
      wideEnemy: array2<real>, healerTarget: array2<real>, mageTarget: array2<real>,
      enemyMageTarget: array2<real>, mageProximity: array2<real>, knightTarget: array2<real>,
      enemyKnightTarget: array2<real>)
    ensures Holds(rangerTarget, 7, RangerTargetCell)
    ensures Holds(enemyRangerTarget, 8, EnemyRangerTargetCell)
    ensures Holds(wideEnemy, 12, WideEnemyCell)
    ensures IsUniformDisc(healerTarget, 30)
    ensures IsUniformDisc(mageTarget, 30)
    ensures IsRoughDisc(enemyMageTarget, 30)
    ensures IsUniformDisc(mageProximity, 30)
    ensures IsUniformDisc(knightTarget, 2)
    ensures IsRoughDisc(enemyKnightTarget, 2)
  {
    rangerTarget := Fill(7, RangerTargetCell);
    enemyRangerTarget := Fill(8, EnemyRangerTargetCell);
    wideEnemy := Fill(12, WideEnemyCell);
    healerTarget := UniformDisc(30);
    mageTarget := UniformDisc(30);
    enemyMageTarget := RoughDisc(30);
    mageProximity := UniformDisc(30);
    knightTarget := UniformDisc(2);
    enemyKnightTarget := RoughDisc(2);
  }

  /** The remaining eight assignments of `initInfluence`. */
  method ProximityTables() returns (mageNearbyFuzzy: array2<real>, healerProximity: array2<real>,
      healerOvercharge: array2<real>, healer: array2<real>, workerProximity: array2<real>,
      rangerProximity: array2<real>, factoryProximity: array2<real>, rocketProximity: array2<real>)
    ensures Holds(mageNearbyFuzzy, 7, InverseDistanceCell)
    ensures Holds(healerProximity, 5, InverseDistanceCell)
    ensures Holds(healerOvercharge, 10, HealerOverchargeCell)
    ensures IsUniformDisc(healer, 31)
    ensures Holds(workerProximity, 5, WorkerProximityCell)
    ensures Holds(rangerProximity, 5, RangerProximityCell)
    ensures Holds(factoryProximity, 5, FactoryProximityCell)
    ensures Holds(rocketProximity, 5, RocketProximityCell)
  {
    mageNearbyFuzzy := Fill(7, InverseDistanceCell);
    healerProximity := Fill(5, InverseDistanceCell);
    healerOvercharge := Fill(10, HealerOverchargeCell);
    healer := UniformDisc(31);
    workerProximity := Fill(5, WorkerProximityCell);
    rangerProximity := Fill(5, RangerProximityCell);
    factoryProximity := Fill(5, FactoryProximityCell);
    rocketProximity := Fill(5, RocketProximityCell);
  }
}
