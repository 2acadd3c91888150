/** `groupKarbonite` (player/worker.cpp): splits the karbonite deposits of
    the map into groups a worker can mine in one go, by a flood fill from
    each uncovered deposit that prefers karbonite tiles and stops once the
    group's mining time reaches a budget. */
module WorkerGroups {
  import opened Common
  import opened Weights

  /** `KarboniteGroup`: the tiles of one group in the order they were taken
      (its `totalValue` member is never assigned by the modelled code). */
  datatype KarboniteGroup = KarboniteGroup(tiles: seq<Position>)

  const MaxTimeCostPerGroup: int := 80
  const MiningSpeed: int := 3

  /** `timeToMine` for a deposit of `k` karbonite: the double
      `(k + (miningSpeed - 1)) / miningSpeed` truncated into an `int`, and
      then raised to at least 2 by `max(timeToMine, 2)`. */
  function TimeToMine(k: nat): (t: int)
    ensures t >= 2
  {
    var q := TruncReal((k as real + (MiningSpeed - 1) as real) / MiningSpeed as real);
    if q < 2 then 2 else q
  }

  /** Karbonite amounts are integers, so the truncated quotient is
      `ceil(k / 3)`, and `timeToMine` is `max(ceil(k / 3), 2)`. */
  lemma TimeToMineIsCeilingOfThird(k: nat)
    ensures var c := TruncReal((k as real + 2.0) / 3.0); k <= 3 * c < k + 3 && c == (k + 2) / 3
    ensures TimeToMine(k) == if k <= 6 then 2 else (k + 2) / 3
  {
    var x := (k as real + 2.0) / 3.0;
    var c := TruncReal(x);
    assert 3.0 * c as real <= k as real + 2.0 < 3.0 * c as real + 3.0;
    assert 3 * c <= k + 2 < 3 * c + 3;
  }

  /** A group whose mining time stayed under the budget before its last
      tile holds at most ceil(80 / t) tiles, and at most 40 since t >= 2. */
  lemma GroupSizeIsBounded(n: int, t: int)
    requires 1 <= n && 2 <= t
    requires (n - 1) * t < MaxTimeCostPerGroup
    ensures n <= (MaxTimeCostPerGroup + t - 1) / t
    ensures n <= 40
  {
    var c := (MaxTimeCostPerGroup + t - 1) / t;
    assert c * t <= MaxTimeCostPerGroup + t - 1 < c * t + t;
    assert (n - 1) * 2 <= (n - 1) * t;
  }

  predicate Distinct(s: seq<Position>)
  {
    forall i, j :: 0 <= i < j < |s| ==> s[i] != s[j]
  }

  /** `karbonite` and `passable` are the w x h karbonite and passability
      maps. */
  predicate SameShape<T, U>(a: array2<T>, b: array2<U>)
  {
    a.Length0 == b.Length0 && a.Length1 == b.Length1
  }

  /** What `groupKarbonite` promises of each group: it starts at a deposit,
      its tiles are distinct tiles of the map, every later tile is passable
      and a king move from an earlier one, and the budget was not yet spent
      when the last tile was taken. */
  ghost predicate WellFormed(g: seq<Position>, karbonite: array2<nat>, passable: array2<Weight>)
    reads karbonite, passable
  {
    var w, h := karbonite.Length0, karbonite.Length1;
    && SameShape(karbonite, passable)
    && |g| >= 1
    && (forall k :: 0 <= k < |g| ==> OnMap(g[k], w, h))
    && karbonite[g[0].x, g[0].y] != 0
    && Distinct(g)
    && (forall k :: 1 <= k < |g| ==> !passable[g[k].x, g[k].y].Infinite?)
    && (forall k :: 1 <= k < |g| ==> TouchesEarlier(g, k))
    && (|g| - 1) * TimeToMine(karbonite[g[0].x, g[0].y]) < MaxTimeCostPerGroup
  }

  /** Tile `k` of `g` is a king move from some earlier tile. */
  ghost predicate TouchesEarlier(g: seq<Position>, k: int)
    requires 0 <= k < |g|
  {
    exists l :: 0 <= l < k && Adjacent(g[l], g[k])
  }

  /** The queue invariant of the flood fill: every waiting tile is on the
      map, marked in `covered2`, not yet covered, and (apart from the seed)
      passable with a recorded parent among the tiles taken so far. */
  ghost predicate Waiting(q: seq<Position>, covered: array2<bool>, covered2: array2<bool>,
                          passable: array2<Weight>, seed: Position, tiles: seq<Position>,
                          par: map<Position, nat>)
    reads covered, covered2, passable
    requires SameShape(covered, covered2) && SameShape(covered, passable)
  {
    forall k :: 0 <= k < |q| ==>
      && OnMap(q[k], covered.Length0, covered.Length1)
      && covered2[q[k].x, q[k].y] && !covered[q[k].x, q[k].y]
      && (q[k] == seed ||
          (q[k] in par && par[q[k]] < |tiles| && Adjacent(tiles[par[q[k]]], q[k])
           && !passable[q[k].x, q[k].y].Infinite?))
  }

  predicate Disjoint(a: seq<Position>, b: seq<Position>)
  {
    forall i, j :: 0 <= i < |a| && 0 <= j < |b| ==> a[i] != b[j]
  }

  /** `q` is one of the nine tiles the dx/dy loop around `p` looks at
      (`p` itself included). */
  predicate Around(p: Position, q: Position)
  {
    -1 <= q.x - p.x <= 1 && -1 <= q.y - p.y <= 1
  }

  /** The dx/dy loop runs dx-major, so tile `q` around `p` is looked at in
      step 3 * (dx + 1) + (dy + 1); `Before(p, q, i)` says that step comes
      before step `i`. */
  predicate Before(p: Position, q: Position, i: int)
  {
    Around(p, q) && 3 * (q.x - p.x + 1) + (q.y - p.y + 1) < i
  }

  /** The tile step `i` of the dx/dy loop around `p` looks at. */
  function Neighbour(p: Position, i: int): (n: Position)
    requires 0 <= i < 9
    ensures Around(p, n) && 3 * (n.x - p.x + 1) + (n.y - p.y + 1) == i
  {
    var dx := if i < 3 then -1 else if i < 6 then 0 else 1;
    Position(p.x + dx, p.y + i - 3 * (dx + 1) - 1)
  }

  /** The tests of the dx/dy loop (lines 61-65) for tile `n`: on the map,
      not marked in `marked` (the `covered2` table when the loop began),
      not covered, and passable. */
  ghost predicate Eligible(n: Position, covered: array2<bool>, marked: seq<seq<bool>>, passable: array2<Weight>)
    reads covered, passable
  {
    && OnMap(n, covered.Length0, covered.Length1)
    && SameShape(covered, passable)
    && |marked| == covered.Length0 && |marked[n.x]| == covered.Length1
    && !marked[n.x][n.y] && !covered[n.x, n.y] && !passable[n.x, n.y].Infinite?
  }

  /** What the first `i` steps of the dx/dy loop around `p` queue: the
      eligible tiles in the order they are looked at, those holding
      karbonite when `rich` (pushed on `que1`) and the others when not
      (pushed on `que2`). */
  ghost function Pushed(p: Position, i: nat, karbonite: array2<nat>, covered: array2<bool>,
                        marked: seq<seq<bool>>, passable: array2<Weight>, rich: bool): seq<Position>
    requires i <= 9 && SameShape(karbonite, covered)
    reads karbonite, covered, passable
  {
    if i == 0 then []
    else
      var n := Neighbour(p, i - 1);
      Pushed(p, i - 1, karbonite, covered, marked, passable, rich) +
        (if Eligible(n, covered, marked, passable) && (karbonite[n.x, n.y] != 0) == rich then [n] else [])
  }

  /** The tiles queued by the first `i` steps are exactly the eligible
      tiles among the ones those steps look at, each once. */
  lemma {:induction false} PushedIsEligibleNeighbours(p: Position, i: nat, karbonite: array2<nat>, covered: array2<bool>,
                                                      marked: seq<seq<bool>>, passable: array2<Weight>, rich: bool)
    requires i <= 9 && SameShape(karbonite, covered)
    ensures forall q :: q in Pushed(p, i, karbonite, covered, marked, passable, rich) <==>
              Before(p, q, i) && Eligible(q, covered, marked, passable) && (karbonite[q.x, q.y] != 0) == rich
    ensures Distinct(Pushed(p, i, karbonite, covered, marked, passable, rich))
  {
    if i > 0 {
      PushedIsEligibleNeighbours(p, i - 1, karbonite, covered, marked, passable, rich);
      var n := Neighbour(p, i - 1);
      assert !Before(p, n, i - 1);
      forall q
        ensures Before(p, q, i) <==> Before(p, q, i - 1) || q == n
      {
      }
    }
  }

  /** Every tile marked in `covered2` has been taken or is waiting. */
  ghost predicate Marks(covered2: array2<bool>, tiles: seq<Position>, que1: seq<Position>, que2: seq<Position>)
    reads covered2
  {
    forall a, b :: 0 <= a < covered2.Length0 && 0 <= b < covered2.Length1 && covered2[a, b] ==>
      Position(a, b) in tiles || Position(a, b) in que1 || Position(a, b) in que2
  }

  /** Every tile around a taken tile that the fill may enter (on the map,
      passable, and not covered by an earlier group in `covered0`) is
      marked or taken. */
  ghost predicate Closed(tiles: seq<Position>, covered2: array2<bool>, passable: array2<Weight>, covered0: seq<seq<bool>>)
    reads covered2, passable
  {
    && SameShape(covered2, passable)
    && |covered0| == covered2.Length0 && (forall a :: 0 <= a < |covered0| ==> |covered0[a]| == covered2.Length1)
    && forall k, n :: (0 <= k < |tiles| && Around(tiles[k], n) && OnMap(n, covered2.Length0, covered2.Length1)
                        && !passable[n.x, n.y].Infinite? && !covered0[n.x][n.y]) ==> covered2[n.x, n.y] || n in tiles
  }

  /** The dx/dy loop of one flood-fill step (lines 57-76): the eligible
      tiles around `p` are marked and queued in the order the loop looks at
      them, on `que2` when they hold no karbonite and on `que1` otherwise;
      `marked` is `covered2` as the loop finds it. */
  method PushNeighbours(p: Position, karbonite: array2<nat>, passable: array2<Weight>,
                        covered: array2<bool>, covered2: array2<bool>,
                        que1: seq<Position>, que2: seq<Position>,
                        ghost seed: Position, ghost tiles: seq<Position>, ghost par: map<Position, nat>,
                        ghost marked: seq<seq<bool>>)
    returns (q1: seq<Position>, q2: seq<Position>, ghost par': map<Position, nat>)
    requires SameShape(karbonite, passable) && SameShape(karbonite, covered) && SameShape(karbonite, covered2)
    requires covered != covered2
    requires |tiles| >= 1 && tiles[|tiles| - 1] == p
    requires OnMap(p, covered.Length0, covered.Length1) && covered2[p.x, p.y]
    requires Queued(que1, que2, covered, covered2, passable, seed, tiles, par)
    requires Marks(covered2, tiles, que1, que2)
    requires marked == Snapshot(covered2)
    modifies covered2
    ensures Queued(q1, q2, covered, covered2, passable, seed, tiles, par')
    ensures Marks(covered2, tiles, q1, q2)
    ensures q1 == que1 + Pushed(p, 9, karbonite, covered, marked, passable, true)
    ensures q2 == que2 + Pushed(p, 9, karbonite, covered, marked, passable, false)
    ensures forall a, b :: 0 <= a < covered2.Length0 && 0 <= b < covered2.Length1 && marked[a][b] ==> covered2[a, b]
    ensures forall a, b :: (0 <= a < covered2.Length0 && 0 <= b < covered2.Length1 && Around(p, Position(a, b)) &&
                            !covered[a, b] && !passable[a, b].Infinite?) ==> covered2[a, b]
  {
    q1, q2, par' := que1, que2, par;
    ghost var i := 0;
    for dx := -1 to 2
      invariant i == 3 * (dx + 1)
      invariant Queued(q1, q2, covered, covered2, passable, seed, tiles, par')
      invariant Marks(covered2, tiles, q1, q2)
      invariant Progress(p, i, karbonite, covered, Snapshot(covered2), marked, passable, que1, que2, q1, q2)
    {
      for dy := -1 to 2
        invariant i == 3 * (dx + 1) + (dy + 1)
        invariant Queued(q1, q2, covered, covered2, passable, seed, tiles, par')
        invariant Marks(covered2, tiles, q1, q2)
        invariant Progress(p, i, karbonite, covered, Snapshot(covered2), marked, passable, que1, que2, q1, q2)
      {
        q1, q2, par' := VisitInTurn(p, dx, dy, i, karbonite, passable, covered, covered2, que1, que2, q1, q2,
                                    seed, tiles, par', marked);
        i := i + 1;
      }
    }
  }

  /** Step i = 3 * (dx + 1) + (dy + 1) of the dx/dy loop around `p`:
      `Visit` pushes exactly what `Pushed` adds for that step. */
  method VisitInTurn(p: Position, dx: int, dy: int, ghost i: int, karbonite: array2<nat>, passable: array2<Weight>,
                     covered: array2<bool>, covered2: array2<bool>,
                     que1: seq<Position>, que2: seq<Position>, q1: seq<Position>, q2: seq<Position>,
                     ghost seed: Position, ghost tiles: seq<Position>, ghost par: map<Position, nat>,
                     ghost marked: seq<seq<bool>>)
    returns (q1': seq<Position>, q2': seq<Position>, ghost par': map<Position, nat>)
    requires SameShape(karbonite, passable) && SameShape(karbonite, covered) && SameShape(karbonite, covered2)
    requires covered != covered2
    requires -1 <= dx <= 1 && -1 <= dy <= 1 && i == 3 * (dx + 1) + (dy + 1)
    requires |tiles| >= 1 && tiles[|tiles| - 1] == p
    requires OnMap(p, covered.Length0, covered.Length1) && covered2[p.x, p.y]
    requires Queued(q1, q2, covered, covered2, passable, seed, tiles, par)
    requires Marks(covered2, tiles, q1, q2)
    requires Progress(p, i, karbonite, covered, Snapshot(covered2), marked, passable, que1, que2, q1, q2)
    modifies covered2
    ensures Queued(q1', q2', covered, covered2, passable, seed, tiles, par')
    ensures Marks(covered2, tiles, q1', q2')
    ensures Progress(p, i + 1, karbonite, covered, Snapshot(covered2), marked, passable, que1, que2, q1', q2')
  {
    ghost var before := Snapshot(covered2);
    q1', q2', par' := Visit(p, dx, dy, karbonite, passable, covered, covered2, q1, q2, seed, tiles, par);
    ProgressStep(p, dx, dy, i, karbonite, covered, passable, before, Snapshot(covered2), marked,
                 que1, que2, q1, q2, q1', q2');
  }

  /** Step i = 3 * (dx + 1) + (dy + 1) looks at (p.x + dx, p.y + dy). */
  lemma BeforeNext(p: Position, i: int, dx: int, dy: int)
    requires -1 <= dx <= 1 && -1 <= dy <= 1 && i == 3 * (dx + 1) + (dy + 1)
    ensures forall q :: Before(p, q, i + 1) <==> Before(p, q, i) || q == Position(p.x + dx, p.y + dy)
    ensures !Before(p, Position(p.x + dx, p.y + dy), i)
  {
    forall q
      ensures Before(p, q, i + 1) <==> Before(p, q, i) || q == Position(p.x + dx, p.y + dy)
    {
      if Before(p, q, i + 1) && !Before(p, q, i) {
        assert 3 * (q.x - p.x + 1) + (q.y - p.y + 1) == 3 * (dx + 1) + (dy + 1);
        assert q.x - p.x == dx;
      }
    }
  }

  /** Step `i` of the dx/dy loop adds at most its own tile to `Pushed`. */
  lemma PushedNext(p: Position, i: nat, karbonite: array2<nat>, covered: array2<bool>,
                   marked: seq<seq<bool>>, passable: array2<Weight>, rich: bool)
    requires i < 9 && SameShape(karbonite, covered)
    ensures var n := Neighbour(p, i);
            Pushed(p, i + 1, karbonite, covered, marked, passable, rich) ==
              Pushed(p, i, karbonite, covered, marked, passable, rich) +
              (if Eligible(n, covered, marked, passable) && (karbonite[n.x, n.y] != 0) == rich then [n] else [])
  {
  }

  /** How far the dx/dy loop around `p` has got after `i` steps: the queues
      hold what those steps pushed, and `c2` (the `covered2` table now)
      marks what `marked` (the table before the loop) marked and the tiles
      looked at so far that are uncovered and passable. */
  ghost predicate Progress(p: Position, i: int, karbonite: array2<nat>, covered: array2<bool>, c2: seq<seq<bool>>,
                           marked: seq<seq<bool>>, passable: array2<Weight>,
                           que1: seq<Position>, que2: seq<Position>, q1: seq<Position>, q2: seq<Position>)
    requires SameShape(karbonite, covered)
    reads karbonite, covered, passable
  {
    PushedSoFar(p, i, karbonite, covered, marked, passable, que1, que2, q1, q2)
    && MarkedSoFar(p, i, covered, c2, marked, passable)
  }

  /** The queues hold what the first `i` steps pushed. */
  ghost predicate PushedSoFar(p: Position, i: int, karbonite: array2<nat>, covered: array2<bool>,
                              marked: seq<seq<bool>>, passable: array2<Weight>,
                              que1: seq<Position>, que2: seq<Position>, q1: seq<Position>, q2: seq<Position>)
    requires SameShape(karbonite, covered)
    reads karbonite, covered, passable
  {
    && 0 <= i <= 9
    && q1 == que1 + Pushed(p, i, karbonite, covered, marked, passable, true)
    && q2 == que2 + Pushed(p, i, karbonite, covered, marked, passable, false)
  }

  /** A tile is marked in `c2` when it is marked in `marked` or is one of
      the tiles the first `i` steps looked at that is uncovered and
      passable. */
  ghost predicate MarkedSoFar(p: Position, i: int, covered: array2<bool>, c2: seq<seq<bool>>,
                              marked: seq<seq<bool>>, passable: array2<Weight>)
    reads covered, passable
  {
    && SameShape(covered, passable)
    && |marked| == covered.Length0 && (forall a :: 0 <= a < |marked| ==> |marked[a]| == covered.Length1)
    && |c2| == covered.Length0 && (forall a :: 0 <= a < |c2| ==> |c2[a]| == covered.Length1)
    && forall a, b :: 0 <= a < covered.Length0 && 0 <= b < covered.Length1 ==>
         c2[a][b] == (marked[a][b] || (Before(p, Position(a, b), i) && !covered[a, b] && !passable[a, b].Infinite?))
  }

  /** One step of the dx/dy loop, as `Visit` states it, advances `Progress`
      by one: the tile it looks at is eligible exactly when `Visit` queues
      it. */
  lemma ProgressStep(p: Position, dx: int, dy: int, i: int, karbonite: array2<nat>, covered: array2<bool>,
                     passable: array2<Weight>, before: seq<seq<bool>>, after: seq<seq<bool>>, marked: seq<seq<bool>>,
                     que1: seq<Position>, que2: seq<Position>, q1: seq<Position>, q2: seq<Position>,
                     q1': seq<Position>, q2': seq<Position>)
    requires SameShape(karbonite, covered)
    requires -1 <= dx <= 1 && -1 <= dy <= 1 && i == 3 * (dx + 1) + (dy + 1)
    requires Progress(p, i, karbonite, covered, before, marked, passable, que1, que2, q1, q2)
    requires |after| == covered.Length0 && (forall a :: 0 <= a < |after| ==> |after[a]| == covered.Length1)
    requires var n := Position(p.x + dx, p.y + dy);
             var e := OnMap(n, covered.Length0, covered.Length1) && !before[n.x][n.y] &&
                      !covered[n.x, n.y] && !passable[n.x, n.y].Infinite?;
             && q1' == (if e && karbonite[n.x, n.y] != 0 then q1 + [n] else q1)
             && q2' == (if e && karbonite[n.x, n.y] == 0 then q2 + [n] else q2)
             && forall a, b :: 0 <= a < covered.Length0 && 0 <= b < covered.Length1 ==>
                  after[a][b] == (before[a][b] || (e && Position(a, b) == n))
    ensures Progress(p, i + 1, karbonite, covered, after, marked, passable, que1, que2, q1', q2')
  {
    var n := Position(p.x + dx, p.y + dy);
    BeforeNext(p, i, dx, dy);
    var e := OnMap(n, covered.Length0, covered.Length1) && !before[n.x][n.y] &&
             !covered[n.x, n.y] && !passable[n.x, n.y].Infinite?;
    assert e == Eligible(n, covered, marked, passable);
    PushedStep(p, dx, dy, i, karbonite, covered, marked, passable, que1, que2, q1, q2, q1', q2');
    MarkedStep(p, dx, dy, i, covered, passable, before, after, marked);
  }

  /** The queue half of `ProgressStep`. */
  lemma PushedStep(p: Position, dx: int, dy: int, i: int, karbonite: array2<nat>, covered: array2<bool>,
                   marked: seq<seq<bool>>, passable: array2<Weight>,
                   que1: seq<Position>, que2: seq<Position>, q1: seq<Position>, q2: seq<Position>,
                   q1': seq<Position>, q2': seq<Position>)
    requires SameShape(karbonite, covered)
    requires -1 <= dx <= 1 && -1 <= dy <= 1 && i == 3 * (dx + 1) + (dy + 1)
    requires PushedSoFar(p, i, karbonite, covered, marked, passable, que1, que2, q1, q2)
    requires var n := Position(p.x + dx, p.y + dy);
             var e := Eligible(n, covered, marked, passable);
             && q1' == (if e && karbonite[n.x, n.y] != 0 then q1 + [n] else q1)
             && q2' == (if e && karbonite[n.x, n.y] == 0 then q2 + [n] else q2)
    ensures PushedSoFar(p, i + 1, karbonite, covered, marked, passable, que1, que2, q1', q2')
  {
    NeighbourAt(p, dx, dy);
    PushedNext(p, i, karbonite, covered, marked, passable, true);
    PushedNext(p, i, karbonite, covered, marked, passable, false);
  }

  /** The marking half of `ProgressStep`. */
  lemma MarkedStep(p: Position, dx: int, dy: int, i: int, covered: array2<bool>, passable: array2<Weight>,
                   before: seq<seq<bool>>, after: seq<seq<bool>>, marked: seq<seq<bool>>)
    requires -1 <= dx <= 1 && -1 <= dy <= 1 && i == 3 * (dx + 1) + (dy + 1)
    requires MarkedSoFar(p, i, covered, before, marked, passable)
    requires |after| == covered.Length0 && (forall a :: 0 <= a < |after| ==> |after[a]| == covered.Length1)
    requires var n := Position(p.x + dx, p.y + dy);
             var e := OnMap(n, covered.Length0, covered.Length1) && !before[n.x][n.y] &&
                      !covered[n.x, n.y] && !passable[n.x, n.y].Infinite?;
             forall a, b :: 0 <= a < covered.Length0 && 0 <= b < covered.Length1 ==>
               after[a][b] == (before[a][b] || (e && Position(a, b) == n))
    ensures MarkedSoFar(p, i + 1, covered, after, marked, passable)
  {
    BeforeNext(p, i, dx, dy);
  }

  /** Step 3 * (dx + 1) + (dy + 1) looks at (p.x + dx, p.y + dy). */
  lemma NeighbourAt(p: Position, dx: int, dy: int)
    requires -1 <= dx <= 1 && -1 <= dy <= 1
    ensures Neighbour(p, 3 * (dx + 1) + (dy + 1)) == Position(p.x + dx, p.y + dy)
  {
  }

  /** One neighbour n = (p.x + dx, p.y + dy) of the dx/dy loop (lines
      59-75): when it is on the map, neither marked nor covered, and
      passable, it is marked and queued (on `que2` without karbonite, on
      `que1` with it); otherwise nothing changes. */
  method Visit(p: Position, dx: int, dy: int, karbonite: array2<nat>, passable: array2<Weight>,
               covered: array2<bool>, covered2: array2<bool>,
               que1: seq<Position>, que2: seq<Position>,
               ghost seed: Position, ghost tiles: seq<Position>, ghost par: map<Position, nat>)
    returns (q1: seq<Position>, q2: seq<Position>, ghost par': map<Position, nat>)
    requires SameShape(karbonite, passable) && SameShape(karbonite, covered) && SameShape(karbonite, covered2)
    requires covered != covered2
    requires -1 <= dx <= 1 && -1 <= dy <= 1
    requires |tiles| >= 1 && tiles[|tiles| - 1] == p
    requires OnMap(p, covered.Length0, covered.Length1) && covered2[p.x, p.y]
    requires Queued(que1, que2, covered, covered2, passable, seed, tiles, par)
    requires Marks(covered2, tiles, que1, que2)
    modifies covered2
    ensures Queued(q1, q2, covered, covered2, passable, seed, tiles, par')
    ensures Marks(covered2, tiles, q1, q2)
    ensures var n := Position(p.x + dx, p.y + dy);
            var e := OnMap(n, covered.Length0, covered.Length1) && !old(covered2[n.x, n.y]) &&
                     !covered[n.x, n.y] && !passable[n.x, n.y].Infinite?;
            && q1 == (if e && karbonite[n.x, n.y] != 0 then que1 + [n] else que1)
            && q2 == (if e && karbonite[n.x, n.y] == 0 then que2 + [n] else que2)
            && forall a, b :: 0 <= a < covered2.Length0 && 0 <= b < covered2.Length1 ==>
                 covered2[a, b] == (old(covered2[a, b]) || (e && Position(a, b) == n))
  {
    var w, h := karbonite.Length0, karbonite.Length1;
    q1, q2, par' := que1, que2, par;
    var nx, ny := p.x + dx, p.y + dy;
    if nx < 0 || ny < 0 || nx >= w || ny >= h {
      return;
    }
    if covered2[nx, ny] || covered[nx, ny] {
      return;
    }
    if passable[nx, ny].Infinite? {
      return;
    }
    q1, q2, par' := Enqueue(p, Position(nx, ny), karbonite, passable, covered, covered2, q1, q2, seed, tiles, par');
  }

  /** Lines 67-74 for an eligible neighbour `n` of `p`: mark it in
      `covered2` and queue it, on `que2` when it holds no karbonite and on
      `que1` otherwise, with `p` as its parent. */
  method Enqueue(p: Position, n: Position, karbonite: array2<nat>, passable: array2<Weight>,
                 covered: array2<bool>, covered2: array2<bool>,
                 que1: seq<Position>, que2: seq<Position>,
                 ghost seed: Position, ghost tiles: seq<Position>, ghost par: map<Position, nat>)
    returns (q1: seq<Position>, q2: seq<Position>, ghost par': map<Position, nat>)
    requires SameShape(karbonite, passable) && SameShape(karbonite, covered) && SameShape(karbonite, covered2)
    requires covered != covered2
    requires |tiles| >= 1 && tiles[|tiles| - 1] == p && Adjacent(p, n)
    requires OnMap(n, covered.Length0, covered.Length1)
    requires !covered2[n.x, n.y] && !covered[n.x, n.y] && !passable[n.x, n.y].Infinite?
    requires Queued(que1, que2, covered, covered2, passable, seed, tiles, par)
    requires Marks(covered2, tiles, que1, que2)
    modifies covered2
    ensures Queued(q1, q2, covered, covered2, passable, seed, tiles, par')
    ensures Marks(covered2, tiles, q1, q2)
    ensures q1 == (if karbonite[n.x, n.y] != 0 then que1 + [n] else que1)
    ensures q2 == (if karbonite[n.x, n.y] == 0 then que2 + [n] else que2)
    ensures forall a, b :: 0 <= a < covered2.Length0 && 0 <= b < covered2.Length1 ==>
              covered2[a, b] == (old(covered2[a, b]) || Position(a, b) == n)
  {
    q1, q2 := que1, que2;
    covered2[n.x, n.y] := true;
    par' := par[n := |tiles| - 1];
    if karbonite[n.x, n.y] == 0 {
      q2 := q2 + [n];
    } else {
      q1 := q1 + [n];
    }
  }

  /** One group of `groupKarbonite` (lines 32-77), seeded at (x, y): the
      tiles it takes are exactly the ones newly covered and given index
      `gi`. */
  method BuildGroup(karbonite: array2<nat>, passable: array2<Weight>, covered: array2<bool>,
                    groupIndices: array2<int>, x: int, y: int, gi: int)
    returns (tiles: seq<Position>)
    requires SameShape(karbonite, passable) && SameShape(karbonite, covered) && SameShape(karbonite, groupIndices)
    requires OnMap(Position(x, y), karbonite.Length0, karbonite.Length1)
    requires !covered[x, y] && karbonite[x, y] != 0
    modifies covered, groupIndices
    ensures WellFormed(tiles, karbonite, passable) && tiles[0] == Position(x, y)
    ensures forall k :: 0 <= k < |tiles| ==> !old(covered[tiles[k].x, tiles[k].y])
    ensures forall a, b :: 0 <= a < covered.Length0 && 0 <= b < covered.Length1 ==>
              covered[a, b] == (old(covered[a, b]) || Position(a, b) in tiles)
    ensures forall a, b :: 0 <= a < covered.Length0 && 0 <= b < covered.Length1 ==>
              groupIndices[a, b] == if Position(a, b) in tiles then gi else old(groupIndices[a, b])
    ensures Spent(tiles, karbonite) ||
            forall k, n :: (0 <= k < |tiles| && Around(tiles[k], n) && OnMap(n, covered.Length0, covered.Length1)
                             && !passable[n.x, n.y].Infinite? && !old(covered[n.x, n.y])) ==> n in tiles
  {
    ghost var covered0 := Snapshot(covered);
    ghost var indices0 := Snapshot(groupIndices);
    tiles := FloodGroup(karbonite, passable, covered, groupIndices, x, y, gi, covered0, indices0);
  }

  /** The flood fill of `BuildGroup`, with the tables' initial contents
      passed in as `covered0` and `indices0`. */
  method FloodGroup(karbonite: array2<nat>, passable: array2<Weight>, covered: array2<bool>,
                    groupIndices: array2<int>, x: int, y: int, gi: int,
                    ghost covered0: seq<seq<bool>>, ghost indices0: seq<seq<int>>)
    returns (tiles: seq<Position>)
    requires SameShape(karbonite, passable) && SameShape(karbonite, covered) && SameShape(karbonite, groupIndices)
    requires OnMap(Position(x, y), karbonite.Length0, karbonite.Length1)
    requires !covered[x, y] && karbonite[x, y] != 0
    requires covered0 == Snapshot(covered) && indices0 == Snapshot(groupIndices)
    modifies covered, groupIndices
    ensures WellFormed(tiles, karbonite, passable) && tiles[0] == Position(x, y)
    ensures forall k :: 0 <= k < |tiles| ==> !covered0[tiles[k].x][tiles[k].y]
    ensures forall a, b :: 0 <= a < covered.Length0 && 0 <= b < covered.Length1 ==>
              covered[a, b] == (covered0[a][b] || Position(a, b) in tiles)
    ensures forall a, b :: 0 <= a < covered.Length0 && 0 <= b < covered.Length1 ==>
              groupIndices[a, b] == if Position(a, b) in tiles then gi else indices0[a][b]
    ensures Spent(tiles, karbonite) ||
            forall k, n :: (0 <= k < |tiles| && Around(tiles[k], n) && OnMap(n, covered.Length0, covered.Length1)
                             && !passable[n.x, n.y].Infinite? && !covered0[n.x][n.y]) ==> n in tiles
  {
    var w, h := karbonite.Length0, karbonite.Length1;
    var seed := Position(x, y);
    var que1: seq<Position> := [seed];
    var que2: seq<Position> := [];
    var timeCost := 0;
    var covered2 := new bool[w, h]((_, _) => false);
    covered2[x, y] := true;
    tiles := [];
    ghost var parents: seq<nat> := [];
    ghost var par: map<Position, nat> := map[];
    ghost var t := TimeToMine(karbonite[x, y]);
    FloodStarts(que1, covered, covered2, passable, groupIndices, seed, covered0, indices0, gi, t);
    var done := false;
    while !done && timeCost < MaxTimeCostPerGroup
      invariant fresh(covered2) && covered2.Length0 == w && covered2.Length1 == h
      invariant Flooding(que1, que2, covered, covered2, passable, groupIndices, seed, tiles, parents, par,
                         covered0, indices0, gi, t, timeCost)
      invariant done ==> |tiles| > 0 && que1 == [] && que2 == []
      decreases MaxTimeCostPerGroup - timeCost, if done then 0 else 1
    {
      ghost var marked := Snapshot(covered2);
      que1, que2, tiles, parents, par, timeCost, done :=
        Step(karbonite, passable, covered, covered2, groupIndices, que1, que2, seed, tiles, parents, par,
             gi, covered0, indices0, t, timeCost, marked);
    }
    FinishGroup(tiles, parents, karbonite, passable, covered, covered2, groupIndices, covered0, indices0, gi, t);
    if done {
      FloodIsClosed(tiles, covered2, passable, covered0);
    } else {
      TimeSpentIsProduct(|tiles|, t);
    }
  }

  /** A fill that stopped because both queues ran dry has taken every tile
      around its tiles that it may enter. */
  lemma FloodIsClosed(tiles: seq<Position>, covered2: array2<bool>, passable: array2<Weight>, covered0: seq<seq<bool>>)
    requires Marks(covered2, tiles, [], []) && Closed(tiles, covered2, passable, covered0)
    ensures forall k, n :: (0 <= k < |tiles| && Around(tiles[k], n) && OnMap(n, covered2.Length0, covered2.Length1)
                           && !passable[n.x, n.y].Infinite? && !covered0[n.x][n.y]) ==> n in tiles
  {
  }

  /** The group's mining time reached the budget: `timeCost`, charged the
      seed's `timeToMine` per tile, ended at or above `maxTimeCostPerGroup`. */
  ghost predicate Spent(g: seq<Position>, karbonite: array2<nat>)
    reads karbonite
  {
    |g| >= 1 && OnMap(g[0], karbonite.Length0, karbonite.Length1) &&
    |g| * TimeToMine(karbonite[g[0].x, g[0].y]) >= MaxTimeCostPerGroup
  }

  /** Before the first step only the seed waits, and the tables still
      hold their initial contents. */
  lemma FloodStarts(que1: seq<Position>, covered: array2<bool>, covered2: array2<bool>,
                    passable: array2<Weight>, groupIndices: array2<int>, seed: Position,
                    covered0: seq<seq<bool>>, indices0: seq<seq<int>>, gi: int, t: int)
    requires SameShape(covered, passable) && SameShape(covered, covered2) && SameShape(covered, groupIndices)
    requires covered0 == Snapshot(covered) && indices0 == Snapshot(groupIndices)
    requires OnMap(seed, covered.Length0, covered.Length1) && covered2[seed.x, seed.y] && !covered[seed.x, seed.y]
    requires que1 == [seed]
    requires forall a, b :: 0 <= a < covered2.Length0 && 0 <= b < covered2.Length1 && covered2[a, b] ==> Position(a, b) == seed
    ensures Flooding(que1, [], covered, covered2, passable, groupIndices, seed, [], [], map[],
                     covered0, indices0, gi, t, 0)
  {
  }

  /** The state of the flood fill at the head of its loop: the queues and
      the tiles taken are consistent, and `timeCost` charges `t` per tile,
      staying under the budget until the last tile is taken. */
  ghost predicate Flooding(que1: seq<Position>, que2: seq<Position>, covered: array2<bool>, covered2: array2<bool>,
                           passable: array2<Weight>, groupIndices: array2<int>, seed: Position,
                           tiles: seq<Position>, parents: seq<nat>, par: map<Position, nat>,
                           covered0: seq<seq<bool>>, indices0: seq<seq<int>>, gi: int, t: int, timeCost: int)
    reads covered, covered2, passable, groupIndices
  {
    && Queued(que1, que2, covered, covered2, passable, seed, tiles, par)
    && Marks(covered2, tiles, que1, que2)
    && Closed(tiles, covered2, passable, covered0)
    && (|tiles| == 0 ==> que1 == [seed] && que2 == [] && timeCost == 0)
    && (|tiles| > 0 ==> tiles[0] == seed && TimeSpent(|tiles| - 1, t) < MaxTimeCostPerGroup)
    && timeCost == TimeSpent(|tiles|, t)
    && Taken(tiles, parents, passable, covered, groupIndices, covered0, indices0, gi)
  }

  /** One pass of the `while (timeCost < maxTimeCostPerGroup)` body
      (lines 44-76): swap the queues when `que1` is empty, stop when both
      are, and otherwise charge the seed's mining time, take the front of
      `que1` and queue its eligible neighbours; `marked` is `covered2` as
      the pass finds it. */
  method Step(karbonite: array2<nat>, passable: array2<Weight>, covered: array2<bool>,
              covered2: array2<bool>, groupIndices: array2<int>,
              que1: seq<Position>, que2: seq<Position>, seed: Position,
              tiles: seq<Position>, ghost parents: seq<nat>, ghost par: map<Position, nat>, gi: int,
              ghost covered0: seq<seq<bool>>, ghost indices0: seq<seq<int>>, ghost t: int, timeCost: int,
              ghost marked: seq<seq<bool>>)
    returns (q1: seq<Position>, q2: seq<Position>, tiles': seq<Position>,
             ghost parents': seq<nat>, ghost par': map<Position, nat>, timeCost': int, done: bool)
    requires SameShape(karbonite, passable) && SameShape(karbonite, covered)
    requires covered != covered2
    requires OnMap(seed, karbonite.Length0, karbonite.Length1) && t == TimeToMine(karbonite[seed.x, seed.y])
    requires timeCost < MaxTimeCostPerGroup
    requires Flooding(que1, que2, covered, covered2, passable, groupIndices, seed, tiles, parents, par,
                      covered0, indices0, gi, t, timeCost)
    requires marked == Snapshot(covered2)
    modifies covered, covered2, groupIndices
    ensures Flooding(q1, q2, covered, covered2, passable, groupIndices, seed, tiles', parents', par',
                     covered0, indices0, gi, t, timeCost')
    ensures done <==> que1 == [] && que2 == []
    ensures done ==> |tiles'| > 0 && tiles' == tiles && q1 == [] && q2 == [] && timeCost' == timeCost
    ensures !done ==> timeCost' == timeCost + t
    ensures que1 != [] ==>
              && tiles' == tiles + [que1[0]]
              && q1 == que1[1..] + Pushed(que1[0], 9, karbonite, covered, marked, passable, true)
              && q2 == que2 + Pushed(que1[0], 9, karbonite, covered, marked, passable, false)
    ensures que1 == [] && que2 != [] ==>
              && tiles' == tiles + [que2[0]]
              && q1 == que2[1..] + Pushed(que2[0], 9, karbonite, covered, marked, passable, true)
              && q2 == Pushed(que2[0], 9, karbonite, covered, marked, passable, false)
  {
    q1, q2 := que1, que2;
    if |q1| == 0 {
      q1, q2 := q2, q1;
    }
    if |q1| == 0 {
      tiles', parents', par', timeCost', done := tiles, parents, par, timeCost, true;
      return;
    }
    done := false;
    var timeToMine := TimeToMine(karbonite[seed.x, seed.y]);
    timeCost' := timeCost + timeToMine;
    assert TimeSpent(|tiles| + 1, t) == timeCost';
    ghost var front, rest, other := q1[0], q1[1..], q2;
    q1, q2, tiles', parents', par' := Grow(karbonite, passable, covered, covered2, groupIndices,
                                          q1, q2, seed, tiles, parents, par, gi, covered0, indices0, marked);
    FloodGrows(q1, q2, covered, covered2, passable, groupIndices, seed, tiles, front, tiles', parents', par',
               covered0, indices0, gi, t, timeCost);
    assert tiles' == tiles + [front];
    assert q1 == rest + Pushed(front, 9, karbonite, covered, marked, passable, true);
    assert q2 == other + Pushed(front, 9, karbonite, covered, marked, passable, false);
  }

  /** Taking one more tile, charged `t`, keeps the fill's loop state. */
  lemma FloodGrows(q1: seq<Position>, q2: seq<Position>, covered: array2<bool>, covered2: array2<bool>,
                   passable: array2<Weight>, groupIndices: array2<int>, seed: Position,
                   tiles: seq<Position>, front: Position, tiles': seq<Position>, parents': seq<nat>,
                   par': map<Position, nat>, covered0: seq<seq<bool>>, indices0: seq<seq<int>>, gi: int,
                   t: int, timeCost: int)
    requires Queued(q1, q2, covered, covered2, passable, seed, tiles', par')
    requires Taken(tiles', parents', passable, covered, groupIndices, covered0, indices0, gi)
    requires Marks(covered2, tiles', q1, q2) && Closed(tiles', covered2, passable, covered0)
    requires tiles' == tiles + [front] && (|tiles| == 0 ==> front == seed) && (|tiles| > 0 ==> tiles[0] == seed)
    requires timeCost == TimeSpent(|tiles|, t) && timeCost < MaxTimeCostPerGroup
    ensures Flooding(q1, q2, covered, covered2, passable, groupIndices, seed, tiles', parents', par',
                     covered0, indices0, gi, t, timeCost + t)
  {
  }

  /** What the loop invariant gives once the loop is over. */
  lemma FinishGroup(tiles: seq<Position>, parents: seq<nat>, karbonite: array2<nat>, passable: array2<Weight>,
                    covered: array2<bool>, covered2: array2<bool>, groupIndices: array2<int>,
                    covered0: seq<seq<bool>>, indices0: seq<seq<int>>, gi: int, t: int)
    requires SameShape(karbonite, passable) && SameShape(karbonite, covered)
    requires Taken(tiles, parents, passable, covered, groupIndices, covered0, indices0, gi)
    requires |tiles| > 0 && karbonite[tiles[0].x, tiles[0].y] != 0 && t == TimeToMine(karbonite[tiles[0].x, tiles[0].y])
    requires TimeSpent(|tiles| - 1, t) < MaxTimeCostPerGroup
    ensures WellFormed(tiles, karbonite, passable)
    ensures forall k :: 0 <= k < |tiles| ==> !covered0[tiles[k].x][tiles[k].y]
    ensures forall a, b :: 0 <= a < covered.Length0 && 0 <= b < covered.Length1 ==>
              covered[a, b] == (covered0[a][b] || Position(a, b) in tiles)
    ensures forall a, b :: 0 <= a < covered.Length0 && 0 <= b < covered.Length1 ==>
              groupIndices[a, b] == if Position(a, b) in tiles then gi else indices0[a][b]
  {
    GroupAdjacency(tiles, parents);
    TimeSpentIsProduct(|tiles| - 1, t);
  }

  /** The contents of a map-sized table, as nested sequences. */
  ghost function Snapshot<T>(a: array2<T>): (s: seq<seq<T>>)
    reads a
    ensures |s| == a.Length0
    ensures forall i :: 0 <= i < a.Length0 ==> |s[i]| == a.Length1
    ensures forall i, j :: 0 <= i < a.Length0 && 0 <= j < a.Length1 ==> s[i][j] == a[i, j]
  {
    seq(a.Length0, i requires 0 <= i < a.Length0 reads a =>
      seq(a.Length1, j requires 0 <= j < a.Length1 reads a => a[i, j]))
  }

  /** Both queues of the flood fill are waiting lists, and no tile waits
      twice. */
  ghost predicate Queued(que1: seq<Position>, que2: seq<Position>, covered: array2<bool>, covered2: array2<bool>,
                         passable: array2<Weight>, seed: Position, tiles: seq<Position>, par: map<Position, nat>)
    reads covered, covered2, passable
  {
    && SameShape(covered, covered2) && SameShape(covered, passable)
    && Waiting(que1, covered, covered2, passable, seed, tiles, par)
    && Waiting(que2, covered, covered2, passable, seed, tiles, par)
    && Distinct(que1) && Distinct(que2) && Disjoint(que1, que2)
  }

  /** The tiles taken so far: distinct, on the map, uncovered in the
      initial `covered0`, passable after the first, each later one a king
      move from its recorded parent; `covered` and `groupIndices` differ
      from `covered0` and `indices0` exactly on them. */
  ghost predicate Taken(tiles: seq<Position>, parents: seq<nat>, passable: array2<Weight>,
                        covered: array2<bool>, groupIndices: array2<int>,
                        covered0: seq<seq<bool>>, indices0: seq<seq<int>>, gi: int)
    reads passable, covered, groupIndices
  {
    var w, h := covered.Length0, covered.Length1;
    && SameShape(covered, passable) && SameShape(covered, groupIndices)
    && |covered0| == w && |indices0| == w
    && (forall a :: 0 <= a < w ==> |covered0[a]| == h && |indices0[a]| == h)
    && Distinct(tiles)
    && (forall k :: 0 <= k < |tiles| ==>
          OnMap(tiles[k], w, h) && !covered0[tiles[k].x][tiles[k].y])
    && (forall k :: 1 <= k < |tiles| ==> !passable[tiles[k].x, tiles[k].y].Infinite?)
    && |parents| == |tiles|
    && (forall k :: 1 <= k < |tiles| ==> parents[k] < k && Adjacent(tiles[parents[k]], tiles[k]))
    && (forall a, b :: 0 <= a < w && 0 <= b < h ==>
          covered[a, b] == (covered0[a][b] || Position(a, b) in tiles))
    && (forall a, b :: 0 <= a < w && 0 <= b < h ==>
          groupIndices[a, b] == if Position(a, b) in tiles then gi else indices0[a][b])
  }

  /** One pass of the `while (timeCost < maxTimeCostPerGroup)` body once
      `que1` is non-empty: the front of `que1` joins the group. */
  method Grow(karbonite: array2<nat>, passable: array2<Weight>, covered: array2<bool>,
              covered2: array2<bool>, groupIndices: array2<int>,
              que1: seq<Position>, que2: seq<Position>, ghost seed: Position,
              tiles: seq<Position>, ghost parents: seq<nat>, ghost par: map<Position, nat>, gi: int,
              ghost covered0: seq<seq<bool>>, ghost indices0: seq<seq<int>>, ghost marked: seq<seq<bool>>)
    returns (q1: seq<Position>, q2: seq<Position>, tiles': seq<Position>,
             ghost parents': seq<nat>, ghost par': map<Position, nat>)
    requires SameShape(karbonite, passable) && SameShape(karbonite, covered)
    requires covered != covered2
    requires |que1| > 0 && (|tiles| == 0 ==> que1[0] == seed) && (|tiles| > 0 ==> tiles[0] == seed)
    requires Queued(que1, que2, covered, covered2, passable, seed, tiles, par)
    requires Taken(tiles, parents, passable, covered, groupIndices, covered0, indices0, gi)
    requires Marks(covered2, tiles, que1, que2) && Closed(tiles, covered2, passable, covered0)
    requires marked == Snapshot(covered2)
    modifies covered, covered2, groupIndices
    ensures tiles' == tiles + [que1[0]]
    ensures Queued(q1, q2, covered, covered2, passable, seed, tiles', par')
    ensures Taken(tiles', parents', passable, covered, groupIndices, covered0, indices0, gi)
    ensures Marks(covered2, tiles', q1, q2) && Closed(tiles', covered2, passable, covered0)
    ensures q1 == que1[1..] + Pushed(que1[0], 9, karbonite, covered, marked, passable, true)
    ensures q2 == que2 + Pushed(que1[0], 9, karbonite, covered, marked, passable, false)
  {
    assert ClosedIn(tiles, marked, passable, covered0);
    var p;
    ghost var parent;
    p, parent := Take(covered, groupIndices, gi, que1, que2, covered2, passable, seed,
                      tiles, parents, par, covered0, indices0);
    parents' := parents + [parent];
    tiles' := tiles + [p];
    q1, q2, par' := PushNeighbours(p, karbonite, passable, covered, covered2, que1[1..], que2, seed, tiles', par, marked);
    ClosedGrows(tiles, p, covered, covered2, passable, covered0, marked);
  }

  /** `Closed`, for the tiles taken before `p`, stated of `marked` (the
      `covered2` table before `p` was taken). */
  ghost predicate ClosedIn(tiles: seq<Position>, marked: seq<seq<bool>>, passable: array2<Weight>, covered0: seq<seq<bool>>)
    reads passable
  {
    && |marked| == passable.Length0 && (forall a :: 0 <= a < |marked| ==> |marked[a]| == passable.Length1)
    && |covered0| == passable.Length0 && (forall a :: 0 <= a < |covered0| ==> |covered0[a]| == passable.Length1)
    && forall k, n :: (0 <= k < |tiles| && Around(tiles[k], n) && OnMap(n, passable.Length0, passable.Length1)
                        && !passable[n.x, n.y].Infinite? && !covered0[n.x][n.y]) ==> marked[n.x][n.y] || n in tiles
  }

  /** Taking `p` keeps the fill closed: the neighbours of the earlier tiles
      stay marked, and those of `p` that are not covered are marked by the
      dx/dy loop, while the covered ones are in the group. */
  lemma ClosedGrows(tiles: seq<Position>, p: Position, covered: array2<bool>, covered2: array2<bool>,
                    passable: array2<Weight>, covered0: seq<seq<bool>>, marked: seq<seq<bool>>)
    requires SameShape(covered, covered2) && SameShape(covered, passable)
    requires ClosedIn(tiles, marked, passable, covered0)
    requires forall a, b :: 0 <= a < covered2.Length0 && 0 <= b < covered2.Length1 && marked[a][b] ==> covered2[a, b]
    requires forall a, b :: (0 <= a < covered2.Length0 && 0 <= b < covered2.Length1 && Around(p, Position(a, b)) &&
                             !covered[a, b] && !passable[a, b].Infinite?) ==> covered2[a, b]
    requires forall a, b :: 0 <= a < covered.Length0 && 0 <= b < covered.Length1 ==>
               covered[a, b] == (covered0[a][b] || Position(a, b) in tiles + [p])
    ensures Closed(tiles + [p], covered2, passable, covered0)
  {
    var tiles' := tiles + [p];
    forall k, n | (0 <= k < |tiles'| && Around(tiles'[k], n) && OnMap(n, covered2.Length0, covered2.Length1)
                   && !passable[n.x, n.y].Infinite? && !covered0[n.x][n.y])
      ensures covered2[n.x, n.y] || n in tiles'
    {
      if k < |tiles| {
        assert tiles'[k] == tiles[k];
      }
    }
  }

  /** Lines 51-55: the front `p` of `que1` leaves the queue and joins the
      group, with `parent` the index of the earlier tile it was reached
      from; it is covered and gets group index `gi`, and no other cell
      changes. */
  method Take(covered: array2<bool>, groupIndices: array2<int>, gi: int, que1: seq<Position>,
              ghost que2: seq<Position>, ghost covered2: array2<bool>, ghost passable: array2<Weight>,
              ghost seed: Position, ghost tiles: seq<Position>, ghost parents: seq<nat>,
              ghost par: map<Position, nat>, ghost covered0: seq<seq<bool>>, ghost indices0: seq<seq<int>>)
    returns (p: Position, ghost parent: nat)
    requires SameShape(covered, passable) && SameShape(covered, groupIndices) && SameShape(covered, covered2)
    requires covered != covered2
    requires |que1| > 0 && (|tiles| == 0 ==> que1[0] == seed) && (|tiles| > 0 ==> tiles[0] == seed)
    requires Queued(que1, que2, covered, covered2, passable, seed, tiles, par)
    requires Marks(covered2, tiles, que1, que2)
    requires Taken(tiles, parents, passable, covered, groupIndices, covered0, indices0, gi)
    modifies covered, groupIndices
    ensures p == que1[0] && OnMap(p, covered.Length0, covered.Length1) && covered2[p.x, p.y]
    ensures forall a, b :: 0 <= a < covered.Length0 && 0 <= b < covered.Length1 ==>
              covered[a, b] == (old(covered[a, b]) || Position(a, b) == p)
    ensures forall a, b :: 0 <= a < covered.Length0 && 0 <= b < covered.Length1 ==>
              groupIndices[a, b] == if Position(a, b) == p then gi else old(groupIndices[a, b])
    ensures Taken(tiles + [p], parents + [parent], passable, covered, groupIndices, covered0, indices0, gi)
    ensures Queued(que1[1..], que2, covered, covered2, passable, seed, tiles + [p], par)
    ensures Marks(covered2, tiles + [p], que1[1..], que2)
  {
    p := que1[0];
    assert |tiles| > 0 ==> seed in tiles;
    assert p !in que1[1..] && p !in que2;
    assert que1 == [p] + que1[1..];
    parent := if |tiles| == 0 then 0 else par[p];
    Cover(p, covered, groupIndices, gi, tiles, parents, parent, passable, covered0, indices0);
  }

  /** Lines 53-55: tile `p` joins the group, so it is covered and gets
      group index `gi`. */
  method Cover(p: Position, covered: array2<bool>, groupIndices: array2<int>, gi: int,
               ghost tiles: seq<Position>, ghost parents: seq<nat>, ghost parent: nat,
               ghost passable: array2<Weight>, ghost covered0: seq<seq<bool>>, ghost indices0: seq<seq<int>>)
    requires SameShape(covered, passable) && SameShape(covered, groupIndices)
    requires Taken(tiles, parents, passable, covered, groupIndices, covered0, indices0, gi)
    requires OnMap(p, covered.Length0, covered.Length1) && !covered[p.x, p.y]
    requires |tiles| > 0 ==> parent < |tiles| && Adjacent(tiles[parent], p) && !passable[p.x, p.y].Infinite?
    modifies covered, groupIndices
    ensures forall a, b :: 0 <= a < covered.Length0 && 0 <= b < covered.Length1 ==>
              covered[a, b] == (old(covered[a, b]) || Position(a, b) == p)
    ensures forall a, b :: 0 <= a < covered.Length0 && 0 <= b < covered.Length1 ==>
              groupIndices[a, b] == if Position(a, b) == p then gi else old(groupIndices[a, b])
    ensures Taken(tiles + [p], parents + [parent], passable, covered, groupIndices, covered0, indices0, gi)
  {
    covered[p.x, p.y] := true;
    groupIndices[p.x, p.y] := gi;
  }

  /** The `timeCost` after taking `n` tiles that each cost `t`. */
  function TimeSpent(n: nat, t: int): int
  {
    if n == 0 then 0 else TimeSpent(n - 1, t) + t
  }

  lemma {:induction false} TimeSpentIsProduct(n: nat, t: int)
    ensures TimeSpent(n, t) == n * t
  {
    if n > 0 {
      TimeSpentIsProduct(n - 1, t);
      assert (n - 1) * t + t == n * t;
    }
  }

  /** The recorded parents witness the adjacency of each later tile. */
  lemma GroupAdjacency(g: seq<Position>, parents: seq<nat>)
    requires |parents| == |g|
    requires forall k :: 1 <= k < |g| ==> parents[k] < k && Adjacent(g[parents[k]], g[k])
    ensures forall k :: 1 <= k < |g| ==> TouchesEarlier(g, k)
  {
    forall k | 1 <= k < |g|
      ensures TouchesEarlier(g, k)
    {
      var l := parents[k];
      assert 0 <= l < k && Adjacent(g[l], g[k]);
    }
  }

  /** The bookkeeping `groupKarbonite` maintains between groups: each group
      is well formed, `groupIndices` names the group of each of its tiles,
      and a tile is covered exactly when it has a group. */
  ghost predicate Partition(groups: seq<KarboniteGroup>, karbonite: array2<nat>, passable: array2<Weight>,
                            covered: array2<bool>, groupIndices: array2<int>)
    reads karbonite, passable, covered, groupIndices
  {
    && SameShape(karbonite, covered) && SameShape(karbonite, groupIndices)
    && (forall i :: 0 <= i < |groups| ==> WellFormed(groups[i].tiles, karbonite, passable))
    && (forall i, k :: 0 <= i < |groups| && 0 <= k < |groups[i].tiles| ==>
          OnMap(groups[i].tiles[k], groupIndices.Length0, groupIndices.Length1) &&
          groupIndices[groups[i].tiles[k].x, groups[i].tiles[k].y] == i)
    && (forall a, b :: 0 <= a < covered.Length0 && 0 <= b < covered.Length1 ==>
          && -1 <= groupIndices[a, b] < |groups|
          && (covered[a, b] <==> groupIndices[a, b] != -1)
          && (groupIndices[a, b] != -1 ==> Position(a, b) in groups[groupIndices[a, b]].tiles))
  }

  /** Each group either spent its mining budget or left no tile around
      its tiles that it could have entered: every such (on-map, passable)
      tile belongs to this group or to an earlier one. */
  ghost predicate Saturated(groups: seq<KarboniteGroup>, karbonite: array2<nat>, passable: array2<Weight>,
                            groupIndices: array2<int>)
    reads karbonite, passable, groupIndices
    requires SameShape(karbonite, passable) && SameShape(karbonite, groupIndices)
  {
    forall i, k, n :: (0 <= i < |groups| && 0 <= k < |groups[i].tiles| && Around(groups[i].tiles[k], n) &&
                       OnMap(n, karbonite.Length0, karbonite.Length1) && !passable[n.x, n.y].Infinite?) ==>
      Spent(groups[i].tiles, karbonite) || 0 <= groupIndices[n.x, n.y] <= i
  }

  /** `groupKarbonite`. The returned `groupIndices` is the local table of the
      same name: the group of each tile, or -1. */
  method GroupKarbonite(karbonite: array2<nat>, passable: array2<Weight>)
    returns (groups: seq<KarboniteGroup>, groupIndices: array2<int>)
    requires SameShape(karbonite, passable)
    ensures SameShape(karbonite, groupIndices)
    ensures forall i :: 0 <= i < |groups| ==> WellFormed(groups[i].tiles, karbonite, passable)
    ensures forall i, k :: 0 <= i < |groups| && 0 <= k < |groups[i].tiles| ==>
              OnMap(groups[i].tiles[k], karbonite.Length0, karbonite.Length1) &&
              groupIndices[groups[i].tiles[k].x, groups[i].tiles[k].y] == i
    ensures forall i, j, k, l :: 0 <= i < j < |groups| && 0 <= k < |groups[i].tiles| && 0 <= l < |groups[j].tiles| ==>
              groups[i].tiles[k] != groups[j].tiles[l]
    ensures forall a, b :: 0 <= a < karbonite.Length0 && 0 <= b < karbonite.Length1 ==>
              && -1 <= groupIndices[a, b] < |groups|
              && (groupIndices[a, b] != -1 ==> Position(a, b) in groups[groupIndices[a, b]].tiles)
    ensures forall a, b :: 0 <= a < karbonite.Length0 && 0 <= b < karbonite.Length1 && karbonite[a, b] != 0 ==>
              groupIndices[a, b] != -1
    ensures forall i, k, n :: (0 <= i < |groups| && 0 <= k < |groups[i].tiles| && Around(groups[i].tiles[k], n) &&
                               OnMap(n, karbonite.Length0, karbonite.Length1) && !passable[n.x, n.y].Infinite?) ==>
              Spent(groups[i].tiles, karbonite) || 0 <= groupIndices[n.x, n.y] <= i
  {
    var w, h := karbonite.Length0, karbonite.Length1;
    var covered := new bool[w, h]((_, _) => false);
    groupIndices := new int[w, h]((_, _) => -1);
    groups := [];
    for x := 0 to w
      invariant fresh(covered) && fresh(groupIndices)
      invariant Partition(groups, karbonite, passable, covered, groupIndices)
      invariant Saturated(groups, karbonite, passable, groupIndices)
      invariant CoveredBefore(karbonite, covered, x, 0)
    {
      groups := VisitColumn(karbonite, passable, covered, groupIndices, groups, x);
      NextColumn(karbonite, covered, x);
    }
    IndexedGroupsAreDisjoint(groups, groupIndices);
  }

  /** Every deposit before (x, y) in the column-major scan is covered. */
  ghost predicate CoveredBefore(karbonite: array2<nat>, covered: array2<bool>, x: int, y: int)
    reads karbonite, covered
    requires SameShape(karbonite, covered)
  {
    forall a, b ::
      (0 <= a < karbonite.Length0 && 0 <= b < karbonite.Length1 && (a < x || (a == x && b < y)) && karbonite[a, b] != 0)
      ==> covered[a, b]
  }

  /** Finishing column x is starting column x + 1. */
  lemma NextColumn(karbonite: array2<nat>, covered: array2<bool>, x: int)
    requires SameShape(karbonite, covered)
    requires CoveredBefore(karbonite, covered, x, karbonite.Length1)
    ensures CoveredBefore(karbonite, covered, x + 1, 0)
  {
  }

  /** The y loop of `groupKarbonite` for column x: afterwards every deposit
      in columns 0..x is covered. */
  method VisitColumn(karbonite: array2<nat>, passable: array2<Weight>, covered: array2<bool>,
                     groupIndices: array2<int>, groups: seq<KarboniteGroup>, x: int)
    returns (groups': seq<KarboniteGroup>)
    requires Partition(groups, karbonite, passable, covered, groupIndices)
    requires SameShape(karbonite, passable) && 0 <= x < karbonite.Length0
    requires Saturated(groups, karbonite, passable, groupIndices)
    requires CoveredBefore(karbonite, covered, x, 0)
    modifies covered, groupIndices
    ensures Partition(groups', karbonite, passable, covered, groupIndices)
    ensures Saturated(groups', karbonite, passable, groupIndices)
    ensures CoveredBefore(karbonite, covered, x, karbonite.Length1)
  {
    var h := karbonite.Length1;
    groups' := groups;
    for y := 0 to h
      invariant Partition(groups', karbonite, passable, covered, groupIndices)
      invariant Saturated(groups', karbonite, passable, groupIndices)
      invariant CoveredBefore(karbonite, covered, x, y)
    {
      groups' := VisitTile(karbonite, passable, covered, groupIndices, groups', x, y);
    }
  }

  /** Groups whose tiles all carry their own group's index share no tile. */
  lemma IndexedGroupsAreDisjoint(groups: seq<KarboniteGroup>, groupIndices: array2<int>)
    requires forall i, k :: 0 <= i < |groups| && 0 <= k < |groups[i].tiles| ==>
               OnMap(groups[i].tiles[k], groupIndices.Length0, groupIndices.Length1) &&
               groupIndices[groups[i].tiles[k].x, groups[i].tiles[k].y] == i
    ensures forall i, j, k, l :: 0 <= i < j < |groups| && 0 <= k < |groups[i].tiles| && 0 <= l < |groups[j].tiles| ==>
              groups[i].tiles[k] != groups[j].tiles[l]
  {
    forall i, j, k, l | 0 <= i < j < |groups| && 0 <= k < |groups[i].tiles| && 0 <= l < |groups[j].tiles|
      ensures groups[i].tiles[k] != groups[j].tiles[l]
    {
      assert groupIndices[groups[i].tiles[k].x, groups[i].tiles[k].y] == i;
      assert groupIndices[groups[j].tiles[l].x, groups[j].tiles[l].y] == j;
    }
  }

  /** One iteration of the (x, y) loop of `groupKarbonite` (lines 30-79): an
      uncovered deposit seeds a new group; covering only grows. */
  method VisitTile(karbonite: array2<nat>, passable: array2<Weight>, covered: array2<bool>,
                   groupIndices: array2<int>, groups: seq<KarboniteGroup>, x: int, y: int)
    returns (groups': seq<KarboniteGroup>)
    requires Partition(groups, karbonite, passable, covered, groupIndices)
    requires SameShape(karbonite, passable) && OnMap(Position(x, y), karbonite.Length0, karbonite.Length1)
    requires Saturated(groups, karbonite, passable, groupIndices)
    requires CoveredBefore(karbonite, covered, x, y)
    modifies covered, groupIndices
    ensures Partition(groups', karbonite, passable, covered, groupIndices)
    ensures Saturated(groups', karbonite, passable, groupIndices)
    ensures forall a, b :: 0 <= a < covered.Length0 && 0 <= b < covered.Length1 && old(covered[a, b]) ==> covered[a, b]
    ensures karbonite[x, y] != 0 ==> covered[x, y]
    ensures CoveredBefore(karbonite, covered, x, y + 1)
  {
    if covered[x, y] || karbonite[x, y] == 0 {
      return groups;
    }
    var tiles := BuildGroup(karbonite, passable, covered, groupIndices, x, y, |groups|);
    PartitionGrows(groups, tiles, karbonite, passable, covered, groupIndices);
    SaturatedGrows(groups, tiles, karbonite, passable, covered, groupIndices);
    assert covered[x, y] by {
      assert tiles[0] in tiles;
    }
    groups' := groups + [KarboniteGroup(tiles)];
  }

  /** Appending the group `BuildGroup` just built keeps the partition. */
  twostate lemma PartitionGrows(new groups: seq<KarboniteGroup>, tiles: seq<Position>, new karbonite: array2<nat>,
                                new passable: array2<Weight>, new covered: array2<bool>, new groupIndices: array2<int>)
    requires old(allocated(karbonite)) && old(allocated(passable)) && old(allocated(covered)) && old(allocated(groupIndices))
    requires old(Partition(groups, karbonite, passable, covered, groupIndices))
    requires unchanged(karbonite, passable)
    requires WellFormed(tiles, karbonite, passable)
    requires forall k :: 0 <= k < |tiles| ==> !old(covered[tiles[k].x, tiles[k].y])
    requires forall a, b :: 0 <= a < covered.Length0 && 0 <= b < covered.Length1 ==>
               covered[a, b] == (old(covered[a, b]) || Position(a, b) in tiles)
    requires forall a, b :: 0 <= a < covered.Length0 && 0 <= b < covered.Length1 ==>
               groupIndices[a, b] == if Position(a, b) in tiles then |groups| else old(groupIndices[a, b])
    ensures Partition(groups + [KarboniteGroup(tiles)], karbonite, passable, covered, groupIndices)
  {
    var groups' := groups + [KarboniteGroup(tiles)];
    forall i, k | 0 <= i < |groups| && 0 <= k < |groups[i].tiles|
      ensures groupIndices[groups[i].tiles[k].x, groups[i].tiles[k].y] == i
    {
      var t := groups[i].tiles[k];
      assert old(groupIndices[t.x, t.y]) == i;
      assert old(covered[t.x, t.y]);
      assert t !in tiles;
    }
    forall i | 0 <= i < |groups'|
      ensures WellFormed(groups'[i].tiles, karbonite, passable)
    {
      if i < |groups| {
        assert old(WellFormed(groups[i].tiles, karbonite, passable));
      }
    }
  }

  /** Appending the group `BuildGroup` just built keeps every group
      saturated: the tables change only on the new group's tiles, which
      were uncovered before. */
  twostate lemma SaturatedGrows(new groups: seq<KarboniteGroup>, tiles: seq<Position>, new karbonite: array2<nat>,
                                new passable: array2<Weight>, new covered: array2<bool>, new groupIndices: array2<int>)
    requires old(allocated(karbonite)) && old(allocated(passable)) && old(allocated(covered)) && old(allocated(groupIndices))
    requires SameShape(karbonite, passable) && SameShape(karbonite, covered) && SameShape(karbonite, groupIndices)
    requires old(Partition(groups, karbonite, passable, covered, groupIndices))
    requires old(Saturated(groups, karbonite, passable, groupIndices))
    requires unchanged(karbonite, passable)
    requires forall k :: 0 <= k < |tiles| ==>
               OnMap(tiles[k], covered.Length0, covered.Length1) && !old(covered[tiles[k].x, tiles[k].y])
    requires forall a, b :: 0 <= a < covered.Length0 && 0 <= b < covered.Length1 ==>
               groupIndices[a, b] == if Position(a, b) in tiles then |groups| else old(groupIndices[a, b])
    requires Spent(tiles, karbonite) ||
             forall k, n :: (0 <= k < |tiles| && Around(tiles[k], n) && OnMap(n, covered.Length0, covered.Length1)
                              && !passable[n.x, n.y].Infinite? && !old(covered[n.x, n.y])) ==> n in tiles
    ensures Saturated(groups + [KarboniteGroup(tiles)], karbonite, passable, groupIndices)
  {
    var groups' := groups + [KarboniteGroup(tiles)];
    forall i, k, n | (0 <= i < |groups'| && 0 <= k < |groups'[i].tiles| && Around(groups'[i].tiles[k], n) &&
                      OnMap(n, karbonite.Length0, karbonite.Length1) && !passable[n.x, n.y].Infinite?)
      ensures Spent(groups'[i].tiles, karbonite) || 0 <= groupIndices[n.x, n.y] <= i
    {
      if old(covered[n.x, n.y]) {
        assert n !in tiles;
        assert groupIndices[n.x, n.y] == old(groupIndices[n.x, n.y]);
        if i < |groups| {
          assert groups'[i] == groups[i];
        }
      } else if i < |groups| {
        assert groups'[i] == groups[i];
        assert old(groupIndices[n.x, n.y]) == -1;
      }
    }
  }
}
