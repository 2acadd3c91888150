/** The index arithmetic of `matchWorkers` (player/worker.cpp): worker
    scores for each karbonite group and each damaged building are packed
    into a cost matrix with three slots per target, the matrix is inverted
    so that the assignment solver minimises, and each worker's assigned
    column is decoded back to a target and turned into a 0/1 mask. */
module WorkerMatch {
  import opened Common
  import opened Weights
  import opened PathfindingMaps
  import opened WorkerGroups

  /** The contribution of one tile: its target weight over one plus the
      worker's distance to it; an unreachable tile (infinite distance)
      contributes nothing. */
  function Term(target: real, distance: Weight): real
    requires distance.Infinite? || distance.v >= 0.0
  {
    if distance.Infinite? then 0.0 else target / (1.0 + distance.v)
  }

  /** Distances from `getDistanceToAllTiles` are never negative. */
  ghost predicate DistanceMap(distance: array2<Weight>)
    reads distance
  {
    forall x, y :: 0 <= x < distance.Length0 && 0 <= y < distance.Length1 ==>
      distance[x, y].Infinite? || distance[x, y].v >= 0.0
  }

  function TermAt(target: array2<real>, distance: array2<Weight>, q: Position): real
    reads target, distance
    requires SameShape(target, distance) && DistanceMap(distance)
    requires OnMap(q, target.Length0, target.Length1)
  {
    Term(target[q.x, q.y], distance[q.x, q.y])
  }

  /** The terms the group loop adds up, one per tile in their order. */
  function Terms(tiles: seq<Position>, target: array2<real>, distance: array2<Weight>): (s: seq<real>)
    reads target, distance
    requires SameShape(target, distance) && DistanceMap(distance)
    requires forall k :: 0 <= k < |tiles| ==> OnMap(tiles[k], target.Length0, target.Length1)
    ensures |s| == |tiles|
    ensures forall k :: 0 <= k < |tiles| ==> s[k] == TermAt(target, distance, tiles[k])
  {
    seq(|tiles|, k requires 0 <= k < |tiles| && SameShape(target, distance) && DistanceMap(distance) &&
                            OnMap(tiles[k], target.Length0, target.Length1)
                   reads target, distance => TermAt(target, distance, tiles[k]))
  }

  /** The sum a `double` accumulator produces, left to right. */
  function Sum(s: seq<real>): real
  {
    if |s| == 0 then 0.0 else Sum(s[..|s| - 1]) + s[|s| - 1]
  }

  /** The sum the `auto score = 0` accumulator of line 129 produces: the
      accumulator is an `int`, so each `score += term` truncates the double
      `score + term` toward zero. */
  function TruncatedSum(s: seq<real>): int
  {
    if |s| == 0 then 0 else TruncReal(TruncatedSum(s[..|s| - 1]) as real + s[|s| - 1])
  }

  /** On non-negative terms the sum is at least every term and at least 0. */
  lemma {:induction false} SumBounds(s: seq<real>)
    requires forall k :: 0 <= k < |s| ==> s[k] >= 0.0
    ensures Sum(s) >= 0.0
    ensures forall k :: 0 <= k < |s| ==> s[k] <= Sum(s)
  {
    if |s| > 0 {
      var p := s[..|s| - 1];
      SumBounds(p);
      assert forall k :: 0 <= k < |p| ==> p[k] == s[k];
    }
  }

  /** The truncating accumulator loses less than one per term, never
      gains, and never goes negative on non-negative terms. */
  lemma {:induction false} TruncatedSumLosesLessThanOnePerTerm(s: seq<real>)
    requires forall k :: 0 <= k < |s| ==> s[k] >= 0.0
    ensures 0 <= TruncatedSum(s)
    ensures TruncatedSum(s) as real <= Sum(s)
    ensures |s| > 0 ==> Sum(s) - TruncatedSum(s) as real < |s| as real
  {
    if |s| > 0 {
      var p := s[..|s| - 1];
      assert forall k :: 0 <= k < |p| ==> p[k] == s[k];
      TruncatedSumLosesLessThanOnePerTerm(p);
    }
  }

  /** Two tiles worth one half each: the `double` sum is 1, the `int`
      accumulator ends at 0, so the group is scored as worthless. */
  lemma TruncatedSumDropsHalves()
    ensures Sum([0.5, 0.5]) == 1.0
    ensures TruncatedSum([0.5, 0.5]) == 0
  {
    assert [0.5, 0.5][..1] == [0.5];
    assert [0.5][..0] == [];
  }

  /** The group loop of lines 129-132, with the accumulator a `double` as
      for buildings (line 141): the score of group `tiles` for one worker. */
  method GroupScore(tiles: seq<Position>, target: array2<real>, distance: array2<Weight>)
    returns (score: real)
    requires SameShape(target, distance) && DistanceMap(distance)
    requires forall k :: 0 <= k < |tiles| ==> OnMap(tiles[k], target.Length0, target.Length1)
    ensures score == Sum(Terms(tiles, target, distance))
  {
    ghost var s := Terms(tiles, target, distance);
    score := 0.0;
    for k := 0 to |tiles|
      invariant score == Sum(s[..k])
    {
      assert s[..k + 1][..k] == s[..k];
      score := score + Term(target[tiles[k].x, tiles[k].y], distance[tiles[k].x, tiles[k].y]);
    }
    assert s[..|tiles|] == s;
  }

  /** The 3x3 block centred on `c`. */
  predicate InBlock(q: Position, c: Position)
  {
    -1 <= q.x - c.x <= 1 && -1 <= q.y - c.y <= 1
  }

  /** The neighbour test of line 147 as written, `nx < 0 || nx < 0 || nx >= w
      || ny >= h`: a tile is skipped when this holds. */
  predicate SkippedAsWritten(nx: int, ny: int, w: int, h: int)
  {
    nx < 0 || nx < 0 || nx >= w || ny >= h
  }

  /** The as-written test lets through every tile of the map and also every
      tile above it (ny < 0) in a valid column. */
  lemma SkipAsWrittenAdmitsNegativeRows(nx: int, ny: int, w: int, h: int)
    requires 0 < h
    ensures !SkippedAsWritten(nx, ny, w, h) <==> OnMap(Position(nx, ny), w, h) || (0 <= nx < w && ny < 0)
  {
  }

  /** A damaged building on row 0 of a 1x1 map: its neighbour (0, -1) passes
      the test and `weights[0][-1]` is read, outside the table. */
  lemma SkipAsWrittenReadsRowMinusOne()
    ensures InBlock(Position(0, -1), Position(0, 0))
    ensures !SkippedAsWritten(0, -1, 1, 1) && !OnMap(Position(0, -1), 1, 1)
  {
  }

  function RealMax(a: real, b: real): (m: real)
    ensures m >= a && m >= b && (m == a || m == b)
  {
    if a < b then b else a
  }

  /** The building loop of lines 141-149, with the on-map test of line 198
      (`ny < 0` checked): the best term over the in-map part of the 3x3
      block around the building, and 0 when none is positive. */
  method BuildingScore(c: Position, target: array2<real>, distance: array2<Weight>)
    returns (score: real)
    requires SameShape(target, distance) && DistanceMap(distance)
    ensures score >= 0.0
    ensures forall q :: InBlock(q, c) && OnMap(q, target.Length0, target.Length1) ==>
              TermAt(target, distance, q) <= score
    ensures score == 0.0 || exists q :: InBlock(q, c) && OnMap(q, target.Length0, target.Length1) &&
                                        score == TermAt(target, distance, q)
  {
    var w, h := target.Length0, target.Length1;
    score := 0.0;
    for dx := -1 to 2
      invariant score >= 0.0
      invariant forall q :: InBlock(q, c) && q.x < c.x + dx && OnMap(q, w, h) ==> TermAt(target, distance, q) <= score
      invariant score == 0.0 || exists q :: InBlock(q, c) && OnMap(q, w, h) && score == TermAt(target, distance, q)
    {
      for dy := -1 to 2
        invariant score >= 0.0
        invariant forall q :: (InBlock(q, c) && (q.x < c.x + dx || (q.x == c.x + dx && q.y < c.y + dy)) &&
                               OnMap(q, w, h)) ==> TermAt(target, distance, q) <= score
        invariant score == 0.0 || exists q :: InBlock(q, c) && OnMap(q, w, h) && score == TermAt(target, distance, q)
      {
        var nx, ny := c.x + dx, c.y + dy;
        if nx < 0 || ny < 0 || nx >= w || ny >= h {
          continue;
        }
        var q := Position(nx, ny);
        assert InBlock(q, c);
        score := RealMax(score, TermAt(target, distance, q));
      }
    }
  }

  /** The columns of group `i`: 3i, 3i+1, 3i+2. */
  function GroupSlot(i: nat, k: nat): nat
  {
    3 * i + k
  }

  /** The columns of building `i`, after the `offset = 3 * |groups|` group
      columns. */
  function BuildingSlot(numGroups: nat, i: nat, k: nat): nat
  {
    3 * numGroups + 3 * i + k
  }

  /** The value of slot `k` of a target scoring `s`: `s`, `s/2`, `s/4` as
      doubles. */
  function Halved(s: real, k: nat): (r: real)
    ensures r * Pow2(k) as real == s
  {
    s / Pow2(k) as real
  }

  /** The slot value of line 134-136 as written, where `score` is an `int`
      and `score/2`, `score/4` divide integers. */
  function HalvedAsWritten(s: int, k: nat): int
  {
    TruncDiv(s, Pow2(k))
  }

  /** A group scoring 1 is worth 1/2 to a second worker, but the integer
      division makes it worth nothing. */
  lemma HalvedAsWrittenDropsHalf()
    ensures Halved(1.0, 1) == 0.5
    ensures HalvedAsWritten(1, 1) == 0
  {
  }

  /** Later slots of a target are worth less: a second and third worker on
      the same target gain a half and a quarter. */
  lemma HalvedDecreases(s: real, k: nat)
    requires s > 0.0
    ensures 0.0 < Halved(s, k + 1) < Halved(s, k)
    ensures Halved(s, k + 1) * 2.0 == Halved(s, k)
  {
    var p := Pow2(k) as real;
    assert Pow2(k + 1) as real == 2.0 * p;
    assert Halved(s, k) * p == s;
    assert Halved(s, k + 1) * (2.0 * p) == s;
  }

  /** What `matchWorkers` makes of an assigned column. */
  datatype Target = Unassigned | ToGroup(group: nat) | ToBuilding(building: nat) | AssertionFailure

  /** Lines 168-206: -1 is no target; any other negative column fails
      `assert(target >= 0)`; a column at or past `offset` names building
      `(target - offset)/3`, which must pass `assert(target < unitTargets.size())`;
      a smaller column names group `target/3`. */
  function Decode(t: int, numGroups: nat, numBuildings: nat): Target
  {
    if t == -1 then Unassigned
    else if t < 0 then AssertionFailure
    else if t >= 3 * numGroups then
      (if (t - 3 * numGroups) / 3 < numBuildings then ToBuilding((t - 3 * numGroups) / 3) else AssertionFailure)
    else ToGroup(t / 3)
  }

  /** The asserts fail exactly on columns outside -1 .. numTargets-1:
      `assert(target < groups.size())` never fails. */
  lemma DecodeFailsOutsideColumns(t: int, numGroups: nat, numBuildings: nat)
    ensures Decode(t, numGroups, numBuildings).AssertionFailure? <==>
              t < -1 || t >= 3 * numGroups + 3 * numBuildings
    ensures Decode(t, numGroups, numBuildings).ToGroup? ==> Decode(t, numGroups, numBuildings).group < numGroups
  {
  }

  /** Decoding undoes the slot layout of lines 134-136 and 151-153: every
      slot of group i decodes to group i, every slot of building i to
      building i. */
  lemma DecodeInvertsSlots(numGroups: nat, numBuildings: nat, i: nat, k: nat)
    requires k < 3
    ensures i < numGroups ==> Decode(GroupSlot(i, k), numGroups, numBuildings) == ToGroup(i)
    ensures i < numBuildings ==> Decode(BuildingSlot(numGroups, i, k), numGroups, numBuildings) == ToBuilding(i)
  {
  }

  /** Conversely every decoded column is one of the slots of its target. */
  lemma DecodedColumnIsSlot(t: int, numGroups: nat, numBuildings: nat)
    ensures Decode(t, numGroups, numBuildings).ToGroup? ==>
              var i := Decode(t, numGroups, numBuildings).group;
              t == GroupSlot(i, t - 3 * i) && 0 <= t - 3 * i < 3
    ensures Decode(t, numGroups, numBuildings).ToBuilding? ==>
              var i := Decode(t, numGroups, numBuildings).building;
              var k := t - 3 * numGroups - 3 * i;
              0 <= k < 3 && t == BuildingSlot(numGroups, i, k)
  {
  }

  /** Row `wi` of the cost matrix holds the slot values of worker `wi`. */
  ghost predicate RowFilled(cm: array2<real>, wi: int, groupScores: seq<real>, buildingScores: seq<real>)
    reads cm
    requires 0 <= wi < cm.Length0 && cm.Length1 == 3 * |groupScores| + 3 * |buildingScores|
  {
    && (forall i, k :: 0 <= i < |groupScores| && 0 <= k < 3 ==>
          cm[wi, GroupSlot(i, k)] == Halved(groupScores[i], k))
    && (forall i, k :: 0 <= i < |buildingScores| && 0 <= k < 3 ==>
          cm[wi, BuildingSlot(|groupScores|, i, k)] == Halved(buildingScores[i], k))
  }

  /** Lines 120-155: a workers x (3 |groups| + 3 |unitTargets|) matrix whose
      row `wi` holds the three slots of every group, then of every building,
      from the scores of worker `wi`. */
  method FillCostMatrix(groupScores: seq<seq<real>>, buildingScores: seq<seq<real>>, numGroups: nat, numBuildings: nat)
    returns (cm: array2<real>)
    requires |groupScores| == |buildingScores|
    requires forall wi :: 0 <= wi < |groupScores| ==> |groupScores[wi]| == numGroups && |buildingScores[wi]| == numBuildings
    ensures fresh(cm)
    ensures cm.Length0 == |groupScores| && cm.Length1 == 3 * numGroups + 3 * numBuildings
    ensures forall wi :: 0 <= wi < cm.Length0 ==> RowFilled(cm, wi, groupScores[wi], buildingScores[wi])
  {
    var numTargets := 3 * numGroups + 3 * numBuildings;
    cm := new real[|groupScores|, numTargets]((_, _) => 0.0);
    for wi := 0 to |groupScores|
      invariant forall v :: 0 <= v < wi ==> RowFilled(cm, v, groupScores[v], buildingScores[v])
    {
      FillRow(cm, wi, groupScores[wi], buildingScores[wi]);
    }
  }

  /** The body of the `wi` loop: the group slots, then the building slots
      at `offset`; other rows are untouched. */
  method FillRow(cm: array2<real>, wi: int, groupScores: seq<real>, buildingScores: seq<real>)
    requires 0 <= wi < cm.Length0 && cm.Length1 == 3 * |groupScores| + 3 * |buildingScores|
    modifies cm
    ensures RowFilled(cm, wi, groupScores, buildingScores)
    ensures forall v, j :: 0 <= v < cm.Length0 && v != wi && 0 <= j < cm.Length1 ==> cm[v, j] == old(cm[v, j])
  {
    var offset := 3 * |groupScores|;
    for i := 0 to |groupScores|
      invariant forall i', k :: 0 <= i' < i && 0 <= k < 3 ==> cm[wi, GroupSlot(i', k)] == Halved(groupScores[i'], k)
      invariant forall v, j :: 0 <= v < cm.Length0 && v != wi && 0 <= j < cm.Length1 ==> cm[v, j] == old(cm[v, j])
    {
      var score := groupScores[i];
      cm[wi, i * 3 + 0] := score;
      cm[wi, i * 3 + 1] := score / 2.0;
      cm[wi, i * 3 + 2] := score / 4.0;
    }
    for i := 0 to |buildingScores|
      invariant forall i', k :: 0 <= i' < |groupScores| && 0 <= k < 3 ==> cm[wi, GroupSlot(i', k)] == Halved(groupScores[i'], k)
      invariant forall i', k :: 0 <= i' < i && 0 <= k < 3 ==>
                  cm[wi, BuildingSlot(|groupScores|, i', k)] == Halved(buildingScores[i'], k)
      invariant forall v, j :: 0 <= v < cm.Length0 && v != wi && 0 <= j < cm.Length1 ==> cm[v, j] == old(cm[v, j])
    {
      var score := buildingScores[i];
      cm[wi, offset + i * 3 + 0] := score;
      cm[wi, offset + i * 3 + 1] := score / 2.0;
      cm[wi, offset + i * 3 + 2] := score / 4.0;
    }
  }

  /** The first loop of lines 159-162: `mx` starts at 0 and takes the
      maximum of every entry. */
  method MaxEntry(cm: array2<real>) returns (mx: real)
    ensures mx >= 0.0
    ensures forall i, j :: 0 <= i < cm.Length0 && 0 <= j < cm.Length1 ==> cm[i, j] <= mx
    ensures mx == 0.0 || exists i, j :: 0 <= i < cm.Length0 && 0 <= j < cm.Length1 && cm[i, j] == mx
  {
    mx := 0.0;
    for i := 0 to cm.Length0
      invariant mx >= 0.0
      invariant forall i', j :: 0 <= i' < i && 0 <= j < cm.Length1 ==> cm[i', j] <= mx
      invariant mx == 0.0 || exists i', j :: 0 <= i' < cm.Length0 && 0 <= j < cm.Length1 && cm[i', j] == mx
    {
      for j := 0 to cm.Length1
        invariant mx >= 0.0
        invariant forall i', j' :: 0 <= j' < cm.Length1 && (i' < i || (i' == i && j' < j)) && 0 <= i' ==> cm[i', j'] <= mx
        invariant mx == 0.0 || exists i', j' :: 0 <= i' < cm.Length0 && 0 <= j' < cm.Length1 && cm[i', j'] == mx
      {
        mx := RealMax(mx, cm[i, j]);
      }
    }
  }

  /** Lines 158-167: every entry `v` becomes `mx - v`, so the matrix is
      non-negative and the best score is the cheapest cost. */
  method Invert(cm: array2<real>) returns (mx: real)
    modifies cm
    ensures mx >= 0.0
    ensures forall i, j :: 0 <= i < cm.Length0 && 0 <= j < cm.Length1 ==> old(cm[i, j]) <= mx
    ensures mx == 0.0 || exists i, j :: 0 <= i < cm.Length0 && 0 <= j < cm.Length1 && old(cm[i, j]) == mx
    ensures forall i, j :: 0 <= i < cm.Length0 && 0 <= j < cm.Length1 ==> cm[i, j] == mx - old(cm[i, j])
    ensures forall i, j :: 0 <= i < cm.Length0 && 0 <= j < cm.Length1 ==> cm[i, j] >= 0.0
  {
    mx := MaxEntry(cm);
    for i := 0 to cm.Length0
      invariant forall i', j :: 0 <= i' < i && 0 <= j < cm.Length1 ==> cm[i', j] == mx - old(cm[i', j])
      invariant forall i', j :: i <= i' < cm.Length0 && 0 <= j < cm.Length1 ==> cm[i', j] == old(cm[i', j])
    {
      for j := 0 to cm.Length1
        invariant forall i', j' :: 0 <= i' < i && 0 <= j' < cm.Length1 ==> cm[i', j'] == mx - old(cm[i', j'])
        invariant forall j' :: 0 <= j' < j ==> cm[i, j'] == mx - old(cm[i, j'])
        invariant forall i', j' :: 0 <= j' < cm.Length1 && (i < i' < cm.Length0 || (i' == i && j <= j')) ==>
                    cm[i', j'] == old(cm[i', j'])
      {
        cm[i, j] := mx - cm[i, j];
      }
    }
  }

  /** The tiles the mask of target `d` marks. */
  ghost predicate Marked(q: Position, d: Target, groups: seq<KarboniteGroup>, buildings: seq<Position>)
  {
    match d
    case ToGroup(i) => i < |groups| && q in groups[i].tiles
    case ToBuilding(i) => i < |buildings| && InBlock(q, buildings[i])
    case _ => false
  }

  /** Lines 168-206 for one worker with assigned column `t`: no target gives
      the empty `PathfindingMap()`; otherwise a w x h map that is 1 exactly
      on the tiles of the assigned group, or on the in-map part of the 3x3
      block around the assigned building, and 0 elsewhere. A column that
      fails one of the asserts is excluded. */
  method BuildMask(t: int, groups: seq<KarboniteGroup>, buildings: seq<Position>, w: nat, h: nat)
    returns (mask: PathfindingMap)
    requires !Decode(t, |groups|, |buildings|).AssertionFailure?
    requires forall i, k :: 0 <= i < |groups| && 0 <= k < |groups[i].tiles| ==> OnMap(groups[i].tiles[k], w, h)
    ensures fresh(mask) && fresh(mask.weights) && mask.Valid()
    ensures Decode(t, |groups|, |buildings|).Unassigned? ==> mask.w == 0 && mask.h == 0
    ensures !Decode(t, |groups|, |buildings|).Unassigned? ==> mask.w == w && mask.h == h
    ensures forall a, b :: 0 <= a < mask.w && 0 <= b < mask.h ==>
              mask.weights[a, b] == if Marked(Position(a, b), Decode(t, |groups|, |buildings|), groups, buildings)
                                    then Finite(1.0) else Finite(0.0)
  {
    var d := Decode(t, |groups|, |buildings|);
    if t == -1 {
      mask := new PathfindingMap.Empty();
      return;
    }
    mask := new PathfindingMap(w, h);
    var offset := |groups| * 3;
    if t >= offset {
      var target := (t - offset) / 3;
      MarkBlock(mask.weights, buildings[target]);
    } else {
      var target := t / 3;
      MarkTiles(mask.weights, groups[target].tiles);
    }
  }

  /** Lines 193-201: the in-map cells of the 3x3 block around `c` become 1. */
  method MarkBlock(m: array2<Weight>, c: Position)
    requires forall a, b :: 0 <= a < m.Length0 && 0 <= b < m.Length1 ==> m[a, b] == Finite(0.0)
    modifies m
    ensures forall a, b :: 0 <= a < m.Length0 && 0 <= b < m.Length1 ==>
              m[a, b] == if InBlock(Position(a, b), c) then Finite(1.0) else Finite(0.0)
  {
    var w, h := m.Length0, m.Length1;
    for dx := -1 to 2
      invariant forall a, b :: 0 <= a < w && 0 <= b < h ==>
                  m[a, b] == if InBlock(Position(a, b), c) && a < c.x + dx then Finite(1.0) else Finite(0.0)
    {
      for dy := -1 to 2
        invariant forall a, b :: 0 <= a < w && 0 <= b < h ==>
                    m[a, b] == if InBlock(Position(a, b), c) && (a < c.x + dx || (a == c.x + dx && b < c.y + dy))
                               then Finite(1.0) else Finite(0.0)
      {
        var nx, ny := c.x + dx, c.y + dy;
        if nx < 0 || ny < 0 || nx >= w || ny >= h {
          continue;
        }
        m[nx, ny] := Finite(1.0);
      }
    }
  }

  /** Lines 203-206: each tile of the group becomes 1. */
  method MarkTiles(m: array2<Weight>, tiles: seq<Position>)
    requires forall k :: 0 <= k < |tiles| ==> OnMap(tiles[k], m.Length0, m.Length1)
    requires forall a, b :: 0 <= a < m.Length0 && 0 <= b < m.Length1 ==> m[a, b] == Finite(0.0)
    modifies m
    ensures forall a, b :: 0 <= a < m.Length0 && 0 <= b < m.Length1 ==>
              m[a, b] == if Position(a, b) in tiles then Finite(1.0) else Finite(0.0)
  {
    for k := 0 to |tiles|
      invariant forall a, b :: 0 <= a < m.Length0 && 0 <= b < m.Length1 ==>
                  m[a, b] == if Position(a, b) in tiles[..k] then Finite(1.0) else Finite(0.0)
    {
      assert tiles[..k + 1] == tiles[..k] + [tiles[k]];
      m[tiles[k].x, tiles[k].y] := Finite(1.0);
    }
    assert tiles[..|tiles|] == tiles;
  }
}
