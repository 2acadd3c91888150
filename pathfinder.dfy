/** `PathfindingEntry` and `Pathfinder::getNextLocation`: Dijkstra over king
    moves from `from`, scoring every settled tile by value/(cost+1), cut off
    once no tile can beat the best score, then following parents back to
    the first step. */
module Pathfinder {
  import opened Common
  import opened Weights
  import opened PathfindingMaps

  /** `PathfindingEntry`: a tentative cost and the tile it belongs to. */
  datatype Entry = Entry(cost: real, pos: Position)

  /** `PathfindingEntry::operator<`, reversed so that the max-heap
      `priority_queue` hands out the cheapest entry. */
  predicate EntryLess(a: Entry, b: Entry)
  {
    a.cost > b.cost
  }

  /** `pq[k]` is an entry `priority_queue::top` may return: no entry is
      greater under `operator<`. */
  predicate IsTop(pq: seq<Entry>, k: int)
  {
    0 <= k < |pq| && forall j :: 0 <= j < |pq| ==> !EntryLess(pq[k], pq[j])
  }

  /** A top entry has the least cost in the queue. */
  lemma TopHasLeastCost(pq: seq<Entry>, k: int)
    requires IsTop(pq, k)
    ensures forall j :: 0 <= j < |pq| ==> pq[k].cost <= pq[j].cost
  {
  }

  /** A non-empty queue has a top entry. */
  lemma {:induction false} TopExists(pq: seq<Entry>)
    requires pq != []
    ensures exists k :: IsTop(pq, k)
  {
    if |pq| > 1 {
      var rest := pq[..|pq| - 1];
      TopExists(rest);
      var k :| IsTop(rest, k);
      if pq[|pq| - 1].cost < pq[k].cost {
        assert IsTop(pq, |pq| - 1);
      } else {
        assert IsTop(pq, k);
      }
    } else {
      assert IsTop(pq, 0);
    }
  }

  /** The eight moves `dx[i], dy[i]` of the search, in the source's order. */
  const DX: seq<int> := [1, 1, 1, 0, 0, -1, -1, -1]
  const DY: seq<int> := [1, 0, -1, 1, -1, 1, 0, -1]

  lemma MovesAreKingMoves(p: Position, i: int)
    requires 0 <= i < 8
    ensures Adjacent(Position(p.x + DX[i], p.y + DY[i]), p)
  {
    assert DX[i] != 0 || DY[i] != 0 by {
      if i == 0 {} else if i == 1 {} else if i == 2 {} else if i == 3 {}
      else if i == 4 {} else if i == 5 {} else if i == 6 {} else {}
    }
  }

  function At<T>(a: array2<T>, p: Position): T
    reads a
    requires OnMap(p, a.Length0, a.Length1)
  {
    a[p.x, p.y]
  }

  /** Every weight of `values` is finite. */
  predicate AllFinite(m: PathfindingMap)
    reads m, m.weights
    requires m.Valid()
  {
    forall x, y :: 0 <= x < m.w && 0 <= y < m.h ==> m.weights[x, y].Finite?
  }

  /** Every step cost is at least 0 (or infinite: impassable). */
  predicate NonNegative(m: PathfindingMap)
    reads m, m.weights
    requires m.Valid()
  {
    forall x, y :: 0 <= x < m.w && 0 <= y < m.h ==> LessEq(Finite(0.0), m.weights[x, y])
  }

  /** The score `bestScore` starts from: `values[from] / (costs[from] + 1)`,
      which is 0 when the start tile itself is impassable. */
  function InitialScore(from: Position, values: PathfindingMap, costs: PathfindingMap): real
    reads values, values.weights, costs, costs.weights
    requires values.Valid() && costs.Valid() && AllFinite(values) && NonNegative(costs)
    requires OnMap(from, values.w, values.h) && OnMap(from, costs.w, costs.h)
  {
    var c := At(costs.weights, from);
    if c.Infinite? then 0.0 else At(values.weights, from).v / (c.v + 1.0)
  }

  /** `averageScore`: value over tentative cost plus one. It is 0 where the
      value or the cost is not a finite number at least 0, which never
      happens on a settled tile. */
  function Score(values: array2<Weight>, cost: array2<Weight>, p: Position): real
    reads values, cost
    requires OnMap(p, values.Length0, values.Length1) && OnMap(p, cost.Length0, cost.Length1)
  {
    var v, c := At(values, p), At(cost, p);
    if v.Finite? && c.Finite? && c.v >= 0.0 then v.v / (c.v + 1.0) else 0.0
  }

  /** Every queued entry is on the map, costs at least 0 and at least its
      tile's tentative cost. */
  ghost predicate EntriesValid(cost: array2<Weight>, pq: seq<Entry>)
    reads cost
  {
    forall e :: e in pq ==>
      OnMap(e.pos, cost.Length0, cost.Length1) && 0.0 <= e.cost &&
      At(cost, e.pos).Finite? && At(cost, e.pos).v <= e.cost
  }

  /** Entries of one tile carry distinct costs: each push strictly lowered
      the tile's tentative cost. */
  ghost predicate EntriesDistinct(pq: seq<Entry>)
  {
    forall i, j :: 0 <= i < j < |pq| && pq[i].pos == pq[j].pos ==> pq[i].cost != pq[j].cost
  }

  /** A settled tile costs no more than any queued entry, and every entry
      left for it is stale. */
  ghost predicate Settled(cost: array2<Weight>, pq: seq<Entry>, done: set<Position>)
    reads cost
  {
    forall p :: p in done ==>
      OnMap(p, cost.Length0, cost.Length1) && At(cost, p).Finite? &&
      forall e :: e in pq ==> At(cost, p).v <= e.cost && (e.pos == p ==> At(cost, p).v < e.cost)
  }

  ghost predicate CostsNonNegative(cost: array2<Weight>)
    reads cost
  {
    forall x, y :: 0 <= x < cost.Length0 && 0 <= y < cost.Length1 && cost[x, y].Finite? ==> cost[x, y].v >= 0.0
  }

  /** Every reached tile other than `from` has a settled neighbour as
      parent, settled before it, and its tentative cost is its parent's
      plus the step cost `steps` of entering it. */
  ghost predicate ParentsValid(cost: array2<Weight>, parent: array2<Position>, steps: array2<Weight>,
                               from: Position, done: set<Position>, order: map<Position, nat>)
    reads cost, parent, steps
  {
    && parent.Length0 == cost.Length0 && parent.Length1 == cost.Length1
    && steps.Length0 >= cost.Length0 && steps.Length1 >= cost.Length1
    && order.Keys == done
    && (forall p :: p in done ==> order[p] < |done|)
    && forall x, y {:trigger parent[x, y]} :: 0 <= x < cost.Length0 && 0 <= y < cost.Length1 && cost[x, y].Finite? && Position(x, y) != from ==>
         parent[x, y] in done && Adjacent(parent[x, y], Position(x, y)) &&
         (Position(x, y) in done ==> order[parent[x, y]] < order[Position(x, y)]) &&
         OnMap(parent[x, y], cost.Length0, cost.Length1) &&
         cost[x, y] == Add(At(cost, parent[x, y]), steps[x, y])
  }

  /** The state the search keeps between two pops. */
  ghost predicate SearchState(cost: array2<Weight>, parent: array2<Position>, steps: array2<Weight>,
                              pq: seq<Entry>, from: Position, done: set<Position>, order: map<Position, nat>)
    reads cost, parent, steps
  {
    && OnMap(from, cost.Length0, cost.Length1)
    && At(cost, from) == Finite(0.0)
    && EntriesValid(cost, pq) && EntriesDistinct(pq) && Settled(cost, pq, done)
    && CostsNonNegative(cost) && ParentsValid(cost, parent, steps, from, done, order)
  }

  /** `p` is a tile the search has reached but not settled. */
  ghost predicate Unsettled(cost: array2<Weight>, done: set<Position>, p: Position)
    reads cost
  {
    OnMap(p, cost.Length0, cost.Length1) && At(cost, p).Finite? && p !in done
  }

  /** Every reached tile not yet settled has a queued entry carrying its
      tentative cost. */
  ghost predicate Frontier(cost: array2<Weight>, pq: seq<Entry>, done: set<Position>)
    reads cost
  {
    forall p {:trigger Unsettled(cost, done, p)} :: Unsettled(cost, done, p) ==> Entry(At(cost, p).v, p) in pq
  }

  /** The `i`-th neighbour of `p`, if it is on the map and its step cost is
      finite, has been reached at no more than `p`'s cost plus that step. */
  ghost predicate RelaxedFrom(cost: array2<Weight>, steps: array2<Weight>, p: Position, i: int)
    reads cost, steps
    requires 0 <= i < 8 && OnMap(p, cost.Length0, cost.Length1)
    requires steps.Length0 >= cost.Length0 && steps.Length1 >= cost.Length1
  {
    var n := Position(p.x + DX[i], p.y + DY[i]);
    OnMap(n, cost.Length0, cost.Length1) && steps[n.x, n.y].Finite? ==>
      At(cost, p).Finite? && At(cost, n).Finite? && At(cost, n).v <= At(cost, p).v + steps[n.x, n.y].v
  }

  /** Every neighbour of every settled tile has been relaxed. */
  ghost predicate NeighboursRelaxed(cost: array2<Weight>, steps: array2<Weight>, done: set<Position>)
    reads cost, steps
  {
    && steps.Length0 >= cost.Length0 && steps.Length1 >= cost.Length1
    && forall p, i :: p in done && 0 <= i < 8 && OnMap(p, cost.Length0, cost.Length1) ==> RelaxedFrom(cost, steps, p, i)
  }

  /** The highest score a tile at cost `c` can reach when no value exceeds
      `upper`: the test `valueUpperBound / (cost + 1) <= bestScore` of the
      search loop compares this with the best score. */
  function Ceiling(upper: real, c: real): (r: real)
    requires 0.0 <= c
    ensures 0.0 <= upper ==> 0.0 <= r <= upper
  {
    upper / (c + 1.0)
  }

  /** Every reached tile the search has not settled is cut off: at its
      tentative cost even the value bound `upper` cannot beat `score`. */
  ghost predicate CutOff(cost: array2<Weight>, upper: real, score: real, done: set<Position>)
    reads cost
  {
    forall p {:trigger Unsettled(cost, done, p)} :: Unsettled(cost, done, p) && At(cost, p).v >= 0.0 ==>
      Ceiling(upper, At(cost, p).v) <= score
  }

  /** Every 8-neighbour `n` of a settled tile `p` whose step cost is
      finite has been reached, at no more than `p`'s cost plus that step. */
  ghost predicate RelaxedAround(cost: array2<Weight>, steps: array2<Weight>, done: set<Position>)
    reads cost, steps
  {
    forall p, n :: (p in done && OnMap(p, cost.Length0, cost.Length1) && OnMap(n, cost.Length0, cost.Length1) &&
                    OnMap(n, steps.Length0, steps.Length1) && Adjacent(n, p) && At(steps, n).Finite?) ==>
      At(cost, p).Finite? && At(cost, n).Finite? && At(cost, n).v <= At(cost, p).v + At(steps, n).v
  }

  /** Every reached tile left unsettled is cut off against every value of
      the map: no value over the tile's cost plus one beats `score`. */
  ghost predicate ValuesCutOff(values: array2<Weight>, cost: array2<Weight>, score: real, done: set<Position>)
    reads values, cost
  {
    forall p, q :: (OnMap(p, cost.Length0, cost.Length1) && At(cost, p).Finite? && At(cost, p).v >= 0.0 && p !in done &&
                    OnMap(q, values.Length0, values.Length1) && At(values, q).Finite?) ==>
      At(values, q).v / (At(cost, p).v + 1.0) <= score
  }

  lemma ScoreOf(values: array2<Weight>, cost: array2<Weight>, p: Position)
    requires OnMap(p, values.Length0, values.Length1) && OnMap(p, cost.Length0, cost.Length1)
    requires At(values, p).Finite? && At(cost, p).Finite? && At(cost, p).v >= 0.0
    ensures Score(values, cost, p) == At(values, p).v / (At(cost, p).v + 1.0)
  {
  }

  /** `bestPosition` is `from` with the initial score, or a settled tile
      whose score beats it; no settled tile scores above `bestScore`. */
  ghost predicate BestValid(values: array2<Weight>, cost: array2<Weight>, from: Position, init: real,
                            best: Position, bestScore: real, done: set<Position>)
    reads values, cost
  {
    && values.Length0 == cost.Length0 && values.Length1 == cost.Length1
    && ((best == from && bestScore == init) ||
        (best != from && best in done && OnMap(best, cost.Length0, cost.Length1) &&
         bestScore == Score(values, cost, best) && bestScore > init))
    && forall p :: p in done && p != from && OnMap(p, cost.Length0, cost.Length1) ==> Score(values, cost, p) <= bestScore
  }

  /** A queued entry whose cost is not above its tile's tentative cost
      carries exactly that cost. */
  lemma FreshTop(cost: array2<Weight>, pq: seq<Entry>, k: int)
    requires EntriesValid(cost, pq) && 0 <= k < |pq|
    requires OnMap(pq[k].pos, cost.Length0, cost.Length1) && !Less(At(cost, pq[k].pos), Finite(pq[k].cost))
    ensures At(cost, pq[k].pos) == Finite(pq[k].cost)
  {
    assert pq[k] in pq;
  }

  /** Scoring a newly settled tile `pos` keeps `BestValid`, with the best
      tile moving to `pos` exactly when `pos` is not `from` and scores
      strictly higher. */
  lemma BestStep(values: array2<Weight>, cost: array2<Weight>, from: Position, init: real,
                 best: Position, score: real, done: set<Position>, pos: Position,
                 best': Position, score': real)
    requires BestValid(values, cost, from, init, best, score, done) && OnMap(pos, cost.Length0, cost.Length1)
    requires if Score(values, cost, pos) > score && pos != from
             then best' == pos && score' == Score(values, cost, pos)
             else best' == best && score' == score
    ensures BestValid(values, cost, from, init, best', score', done + {pos})
  {
  }

  /** `BestValid` reads the costs of settled tiles only. */
  twostate lemma BestKept(new values: array2<Weight>, cost: array2<Weight>, new from: Position, new init: real,
                          new best: Position, new score: real, new done: set<Position>)
    requires old(allocated(values)) && old(BestValid(values, cost, from, init, best, score, done)) && unchanged(values)
    requires forall p :: p in done ==> OnMap(p, cost.Length0, cost.Length1) && At(cost, p) == old(At(cost, p))
    ensures BestValid(values, cost, from, init, best, score, done)
  {
  }

  /** A queued entry lies on the map and costs at least its tile's tentative
      cost. */
  lemma QueuedIsOnMap(cost: array2<Weight>, pq: seq<Entry>, k: int)
    requires EntriesValid(cost, pq) && 0 <= k < |pq|
    ensures OnMap(pq[k].pos, cost.Length0, cost.Length1)
    ensures At(cost, pq[k].pos).Finite? && At(cost, pq[k].pos).v <= pq[k].cost
  {
    assert pq[k] in pq;
  }

  /** Removing the popped entry keeps the rest of the queue. */
  lemma RemovalKeeps(pq: seq<Entry>, k: int)
    requires 0 <= k < |pq|
    ensures forall e :: e in pq[..k] + pq[k + 1..] ==> e in pq
    ensures EntriesDistinct(pq) ==> EntriesDistinct(pq[..k] + pq[k + 1..])
  {
    var rest := pq[..k] + pq[k + 1..];
    assert forall i :: 0 <= i < |rest| ==> rest[i] == if i < k then pq[i] else pq[i + 1];
  }

  /** A popped top entry that is not stale belongs to a tile not yet
      settled, and settling that tile keeps `Settled`. */
  lemma SettleTop(cost: array2<Weight>, pq: seq<Entry>, k: int, done: set<Position>)
    requires EntriesValid(cost, pq) && EntriesDistinct(pq) && Settled(cost, pq, done)
    requires IsTop(pq, k) && At(cost, pq[k].pos).Finite? && At(cost, pq[k].pos).v == pq[k].cost
    ensures pq[k].pos !in done
    ensures Settled(cost, pq[..k] + pq[k + 1..], done + {pq[k].pos})
  {
    var rest := pq[..k] + pq[k + 1..];
    var p := pq[k].pos;
    assert forall i :: 0 <= i < |rest| ==> rest[i] == if i < k then pq[i] else pq[i + 1];
    forall e | e in rest
      ensures At(cost, p).v <= e.cost && (e.pos == p ==> At(cost, p).v < e.cost)
    {
      var i :| 0 <= i < |rest| && rest[i] == e;
      var j := if i < k then i else i + 1;
      assert pq[j] == e && j != k;
      if e.pos == p {
        if j < k {
          assert pq[j].cost != pq[k].cost;
        } else {
          assert pq[k].cost != pq[j].cost;
        }
      }
    }
  }

  /** Dropping the popped entry keeps the search state. */
  lemma DropKeepsState(cost: array2<Weight>, parent: array2<Position>, steps: array2<Weight>, pq: seq<Entry>, k: int,
                       from: Position, done: set<Position>, order: map<Position, nat>)
    requires SearchState(cost, parent, steps, pq, from, done, order) && 0 <= k < |pq|
    ensures SearchState(cost, parent, steps, pq[..k] + pq[k + 1..], from, done, order)
  {
    RemovalKeeps(pq, k);
  }

  /** Popping an entry that is stale, or whose tile is settled by now,
      keeps an entry for every reached tile still unsettled. */
  lemma DropKeepsFrontier(cost: array2<Weight>, pq: seq<Entry>, k: int, done: set<Position>, done': set<Position>)
    requires Frontier(cost, pq, done) && done <= done' && 0 <= k < |pq|
    requires OnMap(pq[k].pos, cost.Length0, cost.Length1)
    requires pq[k].pos in done' || At(cost, pq[k].pos) != Finite(pq[k].cost)
    ensures Frontier(cost, pq[..k] + pq[k + 1..], done')
  {
    var rest := pq[..k] + pq[k + 1..];
    assert forall i :: 0 <= i < |rest| ==> rest[i] == if i < k then pq[i] else pq[i + 1];
    forall p | Unsettled(cost, done', p)
      ensures Entry(At(cost, p).v, p) in rest
    {
      var e := Entry(At(cost, p).v, p);
      assert Unsettled(cost, done, p);
      var j :| 0 <= j < |pq| && pq[j] == e;
      if j < k {
        assert rest[j] == e;
      } else {
        assert j != k && rest[j - 1] == e;
      }
    }
  }

  /** With an empty queue no reached tile is left unsettled. */
  lemma NoneUnsettled(cost: array2<Weight>, done: set<Position>, upper: real, score: real)
    requires Frontier(cost, [], done)
    ensures CutOff(cost, upper, score, done)
  {
  }

  /** Dividing by a larger denominator gives no larger quotient. */
  lemma DivisionShrinks(u: real, a: real, b: real)
    requires 0.0 <= u && 0.0 <= a <= b
    ensures Ceiling(u, b) <= Ceiling(u, a)
  {
    assert u / (b + 1.0) <= u / (a + 1.0);
  }

  /** At the break: the popped top is cut off, so every reached tile still
      unsettled, whose entry costs at least as much, is cut off too. */
  lemma TopCutsOff(cost: array2<Weight>, pq: seq<Entry>, k: int, done: set<Position>, upper: real, score: real)
    requires EntriesValid(cost, pq) && Frontier(cost, pq, done) && IsTop(pq, k)
    requires 0.0 <= upper && Ceiling(upper, pq[k].cost) <= score
    ensures CutOff(cost, upper, score, done)
  {
    assert pq[k] in pq;
    forall p | Unsettled(cost, done, p) && At(cost, p).v >= 0.0
      ensures Ceiling(upper, At(cost, p).v) <= score
    {
      var j :| 0 <= j < |pq| && pq[j] == Entry(At(cost, p).v, p);
      DivisionShrinks(upper, pq[k].cost, pq[j].cost);
    }
  }

  /** Settling the tile of a top entry that is not stale: the tile was not
      settled yet, it joins `done` with the next rank, and its cost lies
      between the costs of the settled tiles and those of the queued
      entries. */
  lemma SettleKeepsState(cost: array2<Weight>, parent: array2<Position>, steps: array2<Weight>, pq: seq<Entry>, k: int,
                         from: Position, done: set<Position>, order: map<Position, nat>)
    requires SearchState(cost, parent, steps, pq, from, done, order)
    requires IsTop(pq, k) && At(cost, pq[k].pos) == Finite(pq[k].cost)
    ensures pq[k].pos !in done
    ensures SearchState(cost, parent, steps, pq[..k] + pq[k + 1..], from, done + {pq[k].pos}, order[pq[k].pos := |done|])
    ensures forall p :: p in done + {pq[k].pos} ==> At(cost, p).Finite? && At(cost, p).v <= pq[k].cost
    ensures forall e :: e in pq[..k] + pq[k + 1..] ==> pq[k].cost <= e.cost
  {
    var pos := pq[k].pos;
    RemovalKeeps(pq, k);
    SettleTop(cost, pq, k, done);
    TopHasLeastCost(pq, k);
    assert pq[k] in pq;
    RankKeepsParents(cost, parent, steps, from, done, order, pos);
  }

  /** Giving a newly settled tile the next rank keeps `ParentsValid`: its
      parent was settled earlier. */
  lemma RankKeepsParents(cost: array2<Weight>, parent: array2<Position>, steps: array2<Weight>, from: Position,
                         done: set<Position>, order: map<Position, nat>, pos: Position)
    requires ParentsValid(cost, parent, steps, from, done, order) && pos !in done
    ensures ParentsValid(cost, parent, steps, from, done + {pos}, order[pos := |done|])
  {
    var done' := done + {pos};
    var order' := order[pos := |done|];
    assert |done'| == |done| + 1;
    assert order'.Keys == done';
    forall x, y | 0 <= x < cost.Length0 && 0 <= y < cost.Length1 && cost[x, y].Finite? && Position(x, y) != from
      ensures parent[x, y] in done' && Adjacent(parent[x, y], Position(x, y))
      ensures Position(x, y) in done' ==> order'[parent[x, y]] < order'[Position(x, y)]
    {
      assert parent[x, y] in done && parent[x, y] != pos;
    }
  }

  /** What one relaxation of `n` does to the tentative costs: `cost[n]`
      drops to `newCost` and no other cost moves. */
  twostate predicate RelaxedAt(cost: array2<Weight>, n: Position, newCost: real)
    reads cost
  {
    && OnMap(n, cost.Length0, cost.Length1)
    && At(cost, n) == Finite(newCost)
    && forall x, y :: 0 <= x < cost.Length0 && 0 <= y < cost.Length1 && Position(x, y) != n ==>
         cost[x, y] == old(cost[x, y])
  }

  /** One relaxation keeps the queue invariants and `Settled`. */
  twostate lemma RelaxKeepsQueue(cost: array2<Weight>, new n: Position, new newCost: real, new pq0: seq<Entry>,
                                 new done: set<Position>)
    requires old(EntriesValid(cost, pq0)) && EntriesDistinct(pq0) && old(Settled(cost, pq0, done)) && n !in done
    requires OnMap(n, cost.Length0, cost.Length1) && old(Less(Finite(newCost), At(cost, n))) && 0.0 <= newCost
    requires forall p :: p in done ==> old(At(cost, p)).v <= newCost
    requires RelaxedAt(cost, n, newCost)
    ensures EntriesValid(cost, pq0 + [Entry(newCost, n)]) && EntriesDistinct(pq0 + [Entry(newCost, n)])
    ensures Settled(cost, pq0 + [Entry(newCost, n)], done)
    ensures forall p :: p in done ==> At(cost, p) == old(At(cost, p))
  {
    var pq := pq0 + [Entry(newCost, n)];
    forall i, j | 0 <= i < j < |pq| && pq[i].pos == pq[j].pos
      ensures pq[i].cost != pq[j].cost
    {
      if j == |pq| - 1 {
        assert pq[i] in pq0;
      }
    }
  }

  /** One relaxation keeps an entry for every reached tile still
      unsettled: the pushed entry covers `n`. */
  twostate lemma RelaxKeepsFrontier(cost: array2<Weight>, new n: Position, new newCost: real, new pq0: seq<Entry>,
                                    new done: set<Position>)
    requires old(Frontier(cost, pq0, done)) && RelaxedAt(cost, n, newCost)
    ensures Frontier(cost, pq0 + [Entry(newCost, n)], done)
  {
    forall p | Unsettled(cost, done, p)
      ensures Entry(At(cost, p).v, p) in pq0 + [Entry(newCost, n)]
    {
      if p != n {
        assert old(Unsettled(cost, done, p));
      }
    }
  }

  /** One successful relaxation `cost[n] = newCost; parent[n] = cur;
      pq.push(...)`, where `newCost` is `cur`'s cost plus the step onto
      `n`: the search state is kept, and so is every relaxation already
      done from a settled tile. */
  method RelaxOne(n: Position, newCost: real, cur: Position, cost: array2<Weight>,
                  parent: array2<Position>, steps: array2<Weight>, pq0: seq<Entry>,
                  ghost from: Position, ghost done: set<Position>, ghost order: map<Position, nat>)
    returns (pq: seq<Entry>)
    requires steps != cost
    requires SearchState(cost, parent, steps, pq0, from, done, order) && Frontier(cost, pq0, done)
    requires OnMap(n, cost.Length0, cost.Length1) && Less(Finite(newCost), At(cost, n))
    requires cur in done && OnMap(cur, cost.Length0, cost.Length1) && Adjacent(cur, n) && 0.0 <= newCost
    requires Add(At(cost, cur), steps[n.x, n.y]) == Finite(newCost)
    requires forall p :: p in done ==> At(cost, p).v <= newCost
    modifies cost, parent
    ensures SearchState(cost, parent, steps, pq, from, done, order) && Frontier(cost, pq, done)
    ensures forall p :: p in done ==> At(cost, p) == old(At(cost, p))
    ensures forall p, i :: (p in done && 0 <= i < 8 && OnMap(p, cost.Length0, cost.Length1) &&
                            old(RelaxedFrom(cost, steps, p, i))) ==> RelaxedFrom(cost, steps, p, i)
    ensures RelaxedAt(cost, n, newCost) && parent[n.x, n.y] == cur
    ensures pq == pq0 + [Entry(newCost, n)]
  {
    assert n !in done && n != from;
    cost[n.x, n.y] := Finite(newCost);
    parent[n.x, n.y] := cur;
    pq := pq0 + [Entry(newCost, n)];
    RelaxKeepsQueue(cost, n, newCost, pq0, done);
    RelaxKeepsFrontier(cost, n, newCost, pq0, done);
    forall x, y | 0 <= x < cost.Length0 && 0 <= y < cost.Length1 && cost[x, y].Finite? && Position(x, y) != from
      ensures parent[x, y] in done && OnMap(parent[x, y], cost.Length0, cost.Length1)
      ensures cost[x, y] == Add(At(cost, parent[x, y]), steps[x, y])
    {
      if Position(x, y) != n {
        assert parent[x, y] == old(parent[x, y]) && parent[x, y] != n;
      }
    }
    assert ParentsValid(cost, parent, steps, from, done, order);
  }

  /** Iteration `i` of the inner loop: the neighbour `cur + (dx[i], dy[i])`
      is relaxed when it is on the map and `c` plus its step cost is below
      its tentative cost. */
  method RelaxNeighbour(cur: Position, c: real, i: int, costs: PathfindingMap, cost: array2<Weight>,
                        parent: array2<Position>, pq0: seq<Entry>,
                        ghost from: Position, ghost done: set<Position>, ghost order: map<Position, nat>)
    returns (pq: seq<Entry>)
    requires 0 <= i < 8 && costs.Valid() && NonNegative(costs)
    requires costs.w >= cost.Length0 && costs.h >= cost.Length1
    requires cost != costs.weights
    requires SearchState(cost, parent, costs.weights, pq0, from, done, order) && Frontier(cost, pq0, done)
    requires cur in done && OnMap(cur, cost.Length0, cost.Length1) && At(cost, cur) == Finite(c)
    requires forall p :: p in done ==> At(cost, p).v <= c
    requires forall e :: e in pq0 ==> c <= e.cost
    modifies cost, parent
    ensures SearchState(cost, parent, costs.weights, pq, from, done, order) && Frontier(cost, pq, done)
    ensures forall p :: p in done ==> At(cost, p) == old(At(cost, p))
    ensures forall e :: e in pq ==> c <= e.cost
    ensures RelaxedFrom(cost, costs.weights, cur, i)
    ensures forall p, j :: (p in done && 0 <= j < 8 && OnMap(p, cost.Length0, cost.Length1) &&
                            old(RelaxedFrom(cost, costs.weights, p, j))) ==> RelaxedFrom(cost, costs.weights, p, j)
  {
    pq := pq0;
    var x := cur.x + DX[i];
    var y := cur.y + DY[i];
    if x < 0 || x >= cost.Length0 || y < 0 || y >= cost.Length1 {
      return;
    }
    var step := costs.weights[x, y];
    if step.Finite? {
      var newCost := c + step.v;
      if Less(Finite(newCost), cost[x, y]) {
        MovesAreKingMoves(cur, i);
        pq := RelaxOne(Position(x, y), newCost, cur, cost, parent, costs.weights, pq, from, done, order);
      }
    }
  }

  /** The inner `for (i < 8)` loop: relaxes the eight neighbours of the
      settled tile `cur`, whose tentative cost is `c`. Every on-map
      neighbour with a finite step cost ends at no more than `c` plus that
      step. */
  method RelaxNeighbours(cur: Position, c: real, costs: PathfindingMap, cost: array2<Weight>,
                         parent: array2<Position>, pq0: seq<Entry>,
                         ghost from: Position, ghost done: set<Position>, ghost order: map<Position, nat>)
    returns (pq: seq<Entry>)
    requires costs.Valid() && NonNegative(costs)
    requires costs.w >= cost.Length0 && costs.h >= cost.Length1
    requires cost != costs.weights
    requires SearchState(cost, parent, costs.weights, pq0, from, done, order) && Frontier(cost, pq0, done)
    requires NeighboursRelaxed(cost, costs.weights, done - {cur})
    requires cur in done && OnMap(cur, cost.Length0, cost.Length1) && At(cost, cur) == Finite(c)
    requires forall p :: p in done ==> At(cost, p).v <= c
    requires forall e :: e in pq0 ==> c <= e.cost
    modifies cost, parent
    ensures SearchState(cost, parent, costs.weights, pq, from, done, order) && Frontier(cost, pq, done)
    ensures forall p :: p in done ==> At(cost, p) == old(At(cost, p))
    ensures forall i :: 0 <= i < 8 ==> RelaxedFrom(cost, costs.weights, cur, i)
    ensures NeighboursRelaxed(cost, costs.weights, done)
  {
    pq := pq0;
    for i := 0 to 8
      invariant SearchState(cost, parent, costs.weights, pq, from, done, order) && Frontier(cost, pq, done)
      invariant forall p :: p in done ==> At(cost, p) == old(At(cost, p))
      invariant forall e :: e in pq ==> c <= e.cost
      invariant NeighboursRelaxed(cost, costs.weights, done - {cur})
      invariant forall j :: 0 <= j < i ==> RelaxedFrom(cost, costs.weights, cur, j)
    {
      pq := RelaxNeighbour(cur, c, i, costs, cost, parent, pq, from, done, order);
    }
    forall p, i | p in done && 0 <= i < 8 && OnMap(p, cost.Length0, cost.Length1)
      ensures RelaxedFrom(cost, costs.weights, p, i)
    {
      if p != cur {
        assert p in done - {cur};
      }
    }
  }

  /** The tiles of a `w` by `h` map. */
  ghost function Cells(w: int, h: int): set<Position>
  {
    set x, y | 0 <= x < w && 0 <= y < h :: Position(x, y)
  }

  /** Settling an on-map tile not settled before leaves fewer tiles to
      settle. */
  lemma SettlingShrinksRemaining(w: int, h: int, done: set<Position>, pos: Position)
    requires OnMap(pos, w, h) && pos !in done
    ensures |Cells(w, h) - (done + {pos})| < |Cells(w, h) - done|
  {
    var cells := Cells(w, h);
    assert pos in cells;
    assert cells - done == (cells - (done + {pos})) + {pos};
  }

  /** One settled tile of `getNextLocation`: the popped entry for `pos`
      (cost `c`) is fresh, so `pos` is scored against the best tile and its
      neighbours are relaxed from `c`. */
  method Visit(values: PathfindingMap, costs: PathfindingMap, cost: array2<Weight>, parent: array2<Position>,
               pos: Position, c: real, from: Position, best0: Position, score0: real, pq0: seq<Entry>,
               ghost queued: seq<Entry>, ghost k: int, ghost init: real,
               ghost done0: set<Position>, ghost order0: map<Position, nat>)
    returns (pq: seq<Entry>, best: Position, score: real, ghost done: set<Position>, ghost order: map<Position, nat>)
    requires values.Valid() && AllFinite(values) && costs.Valid() && NonNegative(costs)
    requires cost.Length0 == values.w && cost.Length1 == values.h && costs.w >= values.w && costs.h >= values.h
    requires cost != costs.weights && cost != values.weights
    requires SearchState(cost, parent, costs.weights, queued, from, done0, order0) && Frontier(cost, queued, done0)
    requires NeighboursRelaxed(cost, costs.weights, done0)
    requires IsTop(queued, k) && queued[k] == Entry(c, pos)
    requires OnMap(pos, cost.Length0, cost.Length1) && At(cost, pos) == Finite(c)
    requires pq0 == queued[..k] + queued[k + 1..]
    requires OnMap(from, values.w, values.h) && BestValid(values.weights, cost, from, init, best0, score0, done0)
    modifies cost, parent
    ensures pos !in done0 && done == done0 + {pos}
    ensures values.Valid() && AllFinite(values) && costs.Valid() && NonNegative(costs)
    ensures SearchState(cost, parent, costs.weights, pq, from, done, order) && Frontier(cost, pq, done)
    ensures At(cost, pos) == Finite(c) && forall i :: 0 <= i < 8 ==> RelaxedFrom(cost, costs.weights, pos, i)
    ensures NeighboursRelaxed(cost, costs.weights, done)
    ensures if Score(values.weights, cost, pos) > score0 && pos != from
            then best == pos && score == Score(values.weights, cost, pos)
            else best == best0 && score == score0
    ensures BestValid(values.weights, cost, from, init, best, score, done)
  {
    var currentScore := values.weights[pos.x, pos.y].v / (c + 1.0);
    assert values.weights[pos.x, pos.y].Finite? && c >= 0.0;
    ScoreOf(values.weights, cost, pos);
    best, score := best0, score0;
    if currentScore > score && (pos.x != from.x || pos.y != from.y) {
      best, score := pos, currentScore;
    }
    BestStep(values.weights, cost, from, init, best0, score0, done0, pos, best, score);
    SettleKeepsState(cost, parent, costs.weights, queued, k, from, done0, order0);
    order := order0[pos := |done0|];
    done := done0 + {pos};
    DropKeepsFrontier(cost, queued, k, done0, done);
    assert done - {pos} == done0;
    label Relax:
    pq := RelaxNeighbours(pos, c, costs, cost, parent, pq0, from, done, order);
    BestKept@Relax(values.weights, cost, from, init, best, score, done);
  }

  /** The set-up of `getNextLocation`: every tentative cost infinite but
      `from`'s, which is 0, and one queued entry for `from`. The returned
      score is `from`'s initial score, computed from `costs[from]` before
      the tentative cost is reset to 0, and `upper` is `values.getMax()`. */
  method StartSearch(from: Position, values: PathfindingMap, costs: PathfindingMap)
    returns (cost: array2<Weight>, parent: array2<Position>, pq: seq<Entry>, score: real, upper: Weight)
    requires values.Valid() && costs.Valid() && AllFinite(values) && NonNegative(costs)
    requires costs.w >= values.w && costs.h >= values.h
    requires OnMap(from, values.w, values.h)
    ensures fresh(cost) && fresh(parent)
    ensures cost.Length0 == values.w && cost.Length1 == values.h
    ensures pq == [Entry(0.0, from)]
    ensures forall x, y :: 0 <= x < values.w && 0 <= y < values.h ==>
              cost[x, y] == if Position(x, y) == from then Finite(0.0) else Infinite
    ensures score == InitialScore(from, values, costs)
    ensures SearchState(cost, parent, costs.weights, pq, from, {}, map[]) && Frontier(cost, pq, {})
    ensures upper.Finite? && 0.0 <= upper.v
    ensures forall x, y :: 0 <= x < values.w && 0 <= y < values.h ==> LessEq(values.weights[x, y], upper)
  {
    var w, h := values.w, values.h;
    cost := new Weight[w, h]((_, _) => Infinite);
    parent := new Position[w, h]((_, _) => Position(-1, -1));
    pq := [];
    cost[from.x, from.y] := costs.weights[from.x, from.y];
    score := if cost[from.x, from.y].Infinite? then 0.0
             else values.weights[from.x, from.y].v / (cost[from.x, from.y].v + 1.0);
    pq := pq + [Entry(0.0, from)];
    cost[from.x, from.y] := Finite(0.0);
    upper := values.GetMax();
    if upper != Finite(0.0) {
      var x, y :| 0 <= x < values.w && 0 <= y < values.h && values.weights[x, y] == upper;
    }
  }

  /** The `while (!pq.empty())` loop of `getNextLocation`, from the state
      `StartSearch` leaves, with `upper` the largest value. At exit `from`
      is settled unless the very first pop was cut off, every neighbour of
      a settled tile has been relaxed, and every reached tile left
      unsettled is cut off. */
  method SearchLoop(values: PathfindingMap, costs: PathfindingMap, cost: array2<Weight>, parent: array2<Position>,
                    from: Position, upper: real, pq0: seq<Entry>, init: real)
    returns (best: Position, ghost bestScore: real, ghost done: set<Position>, ghost order: map<Position, nat>)
    requires values.Valid() && AllFinite(values) && costs.Valid() && NonNegative(costs)
    requires cost.Length0 == values.w && cost.Length1 == values.h && costs.w >= values.w && costs.h >= values.h
    requires cost != costs.weights && cost != values.weights && 0.0 <= upper
    requires OnMap(from, values.w, values.h) && pq0 == [Entry(0.0, from)]
    requires SearchState(cost, parent, costs.weights, pq0, from, {}, map[]) && Frontier(cost, pq0, {})
    modifies cost, parent
    ensures At(cost, from) == Finite(0.0) && CostsNonNegative(cost)
    ensures forall p :: p in done ==> OnMap(p, values.w, values.h) && At(cost, p).Finite?
    ensures ParentsValid(cost, parent, costs.weights, from, done, order)
    ensures NeighboursRelaxed(cost, costs.weights, done)
    ensures CutOff(cost, upper, bestScore, done)
    ensures from in done || (done == {} && upper <= init)
    ensures BestValid(values.weights, cost, from, init, best, bestScore, done)
  {
    var pq := pq0;
    var score := init;
    best, done, order := from, {}, map[];
    ghost var cut := false;
    while pq != []
      invariant !cut
      invariant values.Valid() && AllFinite(values) && costs.Valid() && NonNegative(costs)
      invariant SearchState(cost, parent, costs.weights, pq, from, done, order) && Frontier(cost, pq, done)
      invariant NeighboursRelaxed(cost, costs.weights, done)
      invariant BestValid(values.weights, cost, from, init, best, score, done)
      invariant from in done || (done == {} && pq == [Entry(0.0, from)] && score == init)
      decreases |Cells(values.w, values.h) - done|, |pq|
    {
      TopExists(pq);
      var k :| 0 <= k < |pq| && IsTop(pq, k);
      var currentEntry := pq[k];
      var currentPos := currentEntry.pos;
      QueuedIsOnMap(cost, pq, k);
      var queued := pq;
      pq := queued[..k] + queued[k + 1..];
      DropKeepsState(cost, parent, costs.weights, queued, k, from, done, order);
      if Less(cost[currentPos.x, currentPos.y], Finite(currentEntry.cost)) {
        DropKeepsFrontier(cost, queued, k, done, done);
        continue;
      }
      FreshTop(cost, queued, k);
      var c := cost[currentPos.x, currentPos.y].v;
      if Ceiling(upper, c) <= score {
        TopCutsOff(cost, queued, k, done, upper, score);
        if from !in done {
          assert Ceiling(upper, 0.0) == upper;
        }
        cut := true;
        break;
      }
      ghost var done1 := done;
      pq, best, score, done, order :=
        Visit(values, costs, cost, parent, currentPos, c, from, best, score, pq, queued, k, init, done, order);
      SettlingShrinksRemaining(values.w, values.h, done1, currentPos);
    }
    if !cut {
      NoneUnsettled(cost, done, upper, score);
    }
    bestScore := score;
  }

  /** Every neighbour of a settled tile, in any of the eight directions, has
      been relaxed. */
  lemma RelaxedAdjacent(cost: array2<Weight>, steps: array2<Weight>, done: set<Position>, p: Position, n: Position)
    requires NeighboursRelaxed(cost, steps, done) && p in done && OnMap(p, cost.Length0, cost.Length1)
    requires Adjacent(n, p) && OnMap(n, cost.Length0, cost.Length1) && steps[n.x, n.y].Finite?
    ensures At(cost, p).Finite? && At(cost, n).Finite? && At(cost, n).v <= At(cost, p).v + steps[n.x, n.y].v
  {
    var dx, dy := n.x - p.x, n.y - p.y;
    var i := if dx == 1 then (if dy == 1 then 0 else if dy == 0 then 1 else 2)
             else if dx == 0 then (if dy == 1 then 3 else 4)
             else (if dy == 1 then 5 else if dy == 0 then 6 else 7);
    assert Position(p.x + DX[i], p.y + DY[i]) == n;
    assert RelaxedFrom(cost, steps, p, i);
  }

  /** The cut-off against the bound `upper` is a cut-off against every
      value below it. */
  lemma ValueCutOff(values: array2<Weight>, cost: array2<Weight>, upper: real, score: real,
                    done: set<Position>, p: Position, q: Position)
    requires CutOff(cost, upper, score, done) && CostsNonNegative(cost) && Unsettled(cost, done, p)
    requires OnMap(q, values.Length0, values.Length1) && At(values, q).Finite? && At(values, q).v <= upper
    ensures At(values, q).v / (At(cost, p).v + 1.0) <= score
  {
    var d := At(cost, p).v + 1.0;
    assert At(values, q).v / d <= upper / d == Ceiling(upper, At(cost, p).v);
  }

  /** `NeighboursRelaxed` stated over the 8-neighbours of the settled
      tiles. */
  lemma EveryNeighbourRelaxed(cost: array2<Weight>, steps: array2<Weight>, done: set<Position>)
    requires NeighboursRelaxed(cost, steps, done)
    ensures RelaxedAround(cost, steps, done)
  {
    forall p, n | (p in done && OnMap(p, cost.Length0, cost.Length1) && OnMap(n, cost.Length0, cost.Length1) &&
                   OnMap(n, steps.Length0, steps.Length1) && Adjacent(n, p) && At(steps, n).Finite?)
      ensures At(cost, p).Finite? && At(cost, n).Finite? && At(cost, n).v <= At(cost, p).v + At(steps, n).v
    {
      RelaxedAdjacent(cost, steps, done, p, n);
    }
  }

  /** `CutOff` against `m`, the largest value, stated against every value
      of the map; and a first pop cut off at cost 0 means the initial
      score is at least 0 (the largest value is never below 0) and no value
      beats it. */
  lemma EveryValueCutOff(values: PathfindingMap, cost: array2<Weight>, m: Weight, init: real, score: real,
                         from: Position, done: set<Position>)
    requires values.Valid() && AllFinite(values) && cost.Length0 == values.w && cost.Length1 == values.h
    requires m.Finite? && 0.0 <= m.v
    requires forall x, y :: 0 <= x < values.w && 0 <= y < values.h ==> LessEq(values.weights[x, y], m)
    requires CutOff(cost, m.v, score, done) && CostsNonNegative(cost)
    requires from in done || (done == {} && m.v <= init)
    ensures from in done ||
            (done == {} && 0.0 <= init && forall q :: OnMap(q, values.w, values.h) ==> At(values.weights, q).v <= init)
    ensures ValuesCutOff(values.weights, cost, score, done)
  {
    forall p, q | (OnMap(p, cost.Length0, cost.Length1) && At(cost, p).Finite? && At(cost, p).v >= 0.0 && p !in done &&
                   OnMap(q, values.weights.Length0, values.weights.Length1) && At(values.weights, q).Finite?)
      ensures At(values.weights, q).v / (At(cost, p).v + 1.0) <= score
    {
      assert Unsettled(cost, done, p);
      ValueCutOff(values.weights, cost, m.v, score, done, p, q);
    }
  }

  /** The first half of `getNextLocation`: set-up and search. It returns the
      tentative costs and parents, the ranks in which tiles were settled,
      and the best tile with its score. */
  method Explore(from: Position, values: PathfindingMap, costs: PathfindingMap)
    returns (cost: array2<Weight>, parent: array2<Position>, best: Position, ghost bestScore: real,
             ghost done: set<Position>, ghost order: map<Position, nat>)
    requires values.Valid() && costs.Valid() && AllFinite(values) && NonNegative(costs)
    requires costs.w >= values.w && costs.h >= values.h
    requires OnMap(from, values.w, values.h)
    ensures cost.Length0 == values.w && cost.Length1 == values.h
    ensures At(cost, from) == Finite(0.0) && CostsNonNegative(cost)
    ensures forall p :: p in done ==> OnMap(p, values.w, values.h) && At(cost, p).Finite?
    ensures ParentsValid(cost, parent, costs.weights, from, done, order)
    ensures BestValid(values.weights, cost, from, InitialScore(from, values, costs), best, bestScore, done)
    ensures from in done || (done == {} && 0.0 <= InitialScore(from, values, costs) &&
                             forall q :: OnMap(q, values.w, values.h) ==>
                               At(values.weights, q).v <= InitialScore(from, values, costs))
    ensures RelaxedAround(cost, costs.weights, done)
    ensures ValuesCutOff(values.weights, cost, bestScore, done)
  {
    var pq, score, valueUpperBound;
    cost, parent, pq, score, valueUpperBound := StartSearch(from, values, costs);
    best, bestScore, done, order := SearchLoop(values, costs, cost, parent, from, valueUpperBound.v, pq, score);
    EveryNeighbourRelaxed(cost, costs.weights, done);
    EveryValueCutOff(values, cost, valueUpperBound, score, bestScore, from, done);
  }

  /** Moving from `a` onto `b` costs `b`'s step cost: `b`'s tentative cost
      is `a`'s plus `steps[b]`. */
  ghost predicate StepCost(cost: array2<Weight>, steps: array2<Weight>, a: Position, b: Position)
    reads cost, steps
  {
    && OnMap(a, cost.Length0, cost.Length1) && OnMap(b, cost.Length0, cost.Length1)
    && OnMap(b, steps.Length0, steps.Length1)
    && At(cost, b) == Add(At(cost, a), At(steps, b))
  }

  /** The second half of `getNextLocation`: following parents back from a
      settled tile other than `from` until the next one is `from`. Each
      step of the path costs its tile's step cost. */
  method WalkBack(from: Position, cost: array2<Weight>, parent: array2<Position>, steps: array2<Weight>, best: Position,
                  ghost done: set<Position>, ghost order: map<Position, nat>)
    returns (next: Position, ghost path: seq<Position>)
    requires ParentsValid(cost, parent, steps, from, done, order)
    requires forall p :: p in done ==> OnMap(p, cost.Length0, cost.Length1) && At(cost, p).Finite?
    requires best in done && best != from
    ensures Adjacent(next, from) && next in done
    ensures |path| >= 2 && path[0] == from && path[1] == next && path[|path| - 1] == best
    ensures forall i :: 0 < i < |path| ==> path[i] in done && Adjacent(path[i - 1], path[i])
    ensures forall i :: 0 < i < |path| ==> StepCost(cost, steps, path[i - 1], path[i])
  {
    var currentPos := best;
    path := [currentPos];
    while true
      invariant currentPos in done && currentPos != from
      invariant |path| >= 1 && path[0] == currentPos && path[|path| - 1] == best
      invariant forall i :: 0 <= i < |path| ==> path[i] in done
      invariant forall i :: 0 < i < |path| ==> Adjacent(path[i - 1], path[i])
      invariant forall i :: 0 < i < |path| ==> StepCost(cost, steps, path[i - 1], path[i])
      decreases order[currentPos]
    {
      var p := parent[currentPos.x, currentPos.y];
      path := [p] + path;
      if p == from {
        break;
      }
      currentPos := p;
    }
    next := currentPos;
  }

  /** `BestValid` spelt out: the best score is the initial score when the
      best tile is `from`, otherwise the best tile's value over its cost
      plus one, above the initial score; no other settled tile scores
      higher. */
  lemma BestMeaning(values: array2<Weight>, cost: array2<Weight>, from: Position, init: real,
                    best: Position, score: real, done: set<Position>)
    requires BestValid(values, cost, from, init, best, score, done) && CostsNonNegative(cost)
    requires forall p :: p in done ==> OnMap(p, values.Length0, values.Length1) && At(cost, p).Finite? && At(values, p).Finite?
    ensures best == from ==>
              && score == init
              && forall p :: p in done && p != from ==> At(values, p).v / (At(cost, p).v + 1.0) <= score
    ensures best != from ==>
              && best in done
              && score == At(values, best).v / (At(cost, best).v + 1.0)
              && score > init
              && forall p :: p in done && p != from ==> At(values, p).v / (At(cost, p).v + 1.0) <= score
  {
    forall p | p in done && p != from
      ensures At(values, p).v / (At(cost, p).v + 1.0) <= score
    {
      ScoreOf(values, cost, p);
    }
    if best != from {
      ScoreOf(values, cost, best);
    }
  }

  /** `getNextLocation`. The result is `from` exactly when no settled tile
      other than `from` scored above `from`'s initial score; otherwise it is
      the on-map neighbour of `from` that starts the parent chain from
      `from` to the best tile. The search settles `from` unless its initial
      score is at least 0 and no value on the map beats it; it relaxes every
      neighbour of every settled tile; and every reached tile it leaves
      unsettled is cut off, no value divided by its cost plus one
      beating the best score. */
  method GetNextLocation(from: Position, values: PathfindingMap, costs: PathfindingMap)
    returns (next: Position, ghost best: Position, ghost bestScore: real, ghost path: seq<Position>,
             ghost explored: set<Position>, ghost tentative: array2<Weight>)
    requires values.Valid() && costs.Valid() && AllFinite(values) && NonNegative(costs)
    requires costs.w >= values.w && costs.h >= values.h
    requires OnMap(from, values.w, values.h)
    ensures OnMap(next, values.w, values.h)
    ensures next == from <==> best == from
    ensures tentative.Length0 == values.w && tentative.Length1 == values.h
    ensures At(tentative, from) == Finite(0.0) && CostsNonNegative(tentative)
    ensures forall p :: p in explored ==> OnMap(p, values.w, values.h) && At(tentative, p).Finite?
    ensures from in explored || (explored == {} && 0.0 <= InitialScore(from, values, costs) &&
                                 forall q :: OnMap(q, values.w, values.h) ==>
                                   At(values.weights, q).v <= InitialScore(from, values, costs))
    ensures RelaxedAround(tentative, costs.weights, explored)
    ensures ValuesCutOff(values.weights, tentative, bestScore, explored)
    ensures BestValid(values.weights, tentative, from, InitialScore(from, values, costs), best, bestScore, explored)
    ensures best != from ==>
              && Adjacent(next, from)
              && |path| >= 2 && path[0] == from && path[1] == next && path[|path| - 1] == best
              && (forall i :: 0 < i < |path| ==> path[i] in explored && Adjacent(path[i - 1], path[i]))
              && forall i :: 0 < i < |path| ==> StepCost(tentative, costs.weights, path[i - 1], path[i])
  {
    var cost, parent, bestPosition, score, done, order := Explore(from, values, costs);
    tentative, best, bestScore, explored := cost, bestPosition, score, done;
    if bestPosition == from {
      next, path := from, [from];
      return;
    }
    next, path := WalkBack(from, cost, parent, costs.weights, bestPosition, done, order);
  }
}
