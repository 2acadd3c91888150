# Battlecode bot: grid maps, pathfinding, influence kernels and worker matching

This project models the grid arithmetic at the heart of a C++ Battlecode bot
(the `player/` sources) and proves what the code promises about it.

- **PathfindingMap** (`player/pathfinding.hpp`, module `PathfindingMaps`). A
  w×h table of doubles, modelled as a class over an `array2<Weight>`. A
  `Weight` is a real number or +infinity, the value for an impassable tile.
  The model covers:
  - element-wise `+=` and `+`;
  - `sum` and `getMax`;
  - stamping a centred (2r+1)² kernel, clipped at the border, by adding
    (`addInfluence`), adding scaled (`addInfluenceMultiple`) or taking the
    maximum (`maxInfluence`).
- **Pathfinder::getNextLocation** (module `Pathfinder`). Dijkstra over king
  moves with a `priority_queue` of `PathfindingEntry`:
  - the queue is a sequence, and a pop may return any entry that no other
    entry beats under `operator<`;
  - every settled tile is scored value/(cost+1), and the best one is kept;
  - the search stops once the value upper bound cannot beat the best score;
  - the result is the first step of the parent chain from `from` to the best
    tile.
- **Influence kernels** (`player/influence.cpp`, module `Influence`). The
  square tables `initInfluence` builds: uniform and rough discs of radius
  ⌈√s⌉, annuli, and inverse-distance profiles. Each is filled cell by cell in
  nested loops and is specified as a function of dx²+dy².
- **Karbonite groups** (`player/worker.cpp`, module `WorkerGroups`).
  `groupKarbonite` is the two-queue flood fill with a per-group mining-time
  budget of 80. It is modelled imperatively, with `covered`, `covered2` and
  `groupIndices` as arrays updated in place.
- **Worker matching layout** (`player/worker.cpp`, module `WorkerMatch`). The
  parts of `matchWorkers` that are index arithmetic:
  - the cost matrix with three slots per target (score, score/2, score/4);
  - its inversion `mx - v`;
  - the decoding of an assigned column back to a group or a building;
  - the 0/1 mask built from that target.
- **View helpers** (`player/view.hpp`, module `View`): `Region` size,
  clamped `interpolate`, `bit`, `intToColor`, the `colorsByID` text colour
  and the fixed-width integer labels.
- **Cache keys** (`player/maps.h`, module `Maps`): `MapReuseObject` and the
  lexicographic `operator<` that orders `reusableMaps`.
- **Frame-pointer stack walk** (`player/stackwalk.h`, module `StackWalk`):
  - memory is a total function from addresses to words;
  - the callback becomes the sequence of its calls;
  - the loop is proved equal to a functional description of the walk.

Shared definitions are `Common` (positions, the `isOnMap` test, the C++
truncating casts and division) and `Weights` (doubles with +infinity).

## Model

| member | source | states |
|---|---|---|
| Common.TruncReal | player/view.hpp:33-35 | `(int)` of a double rounds toward zero: the result is the integer part, within one of the value, on the same side of zero |
| Common.TruncDiv | player/worker.cpp:135-136 | C++ integer division truncates toward zero: the quotient times the divisor is within one divisor of the dividend, with the dividend's sign |
| Weights.Max | player/pathfinding.hpp:89 | `std::max` of two doubles is one of them and no less than either |
| Weights.AddIsAssociative | player/pathfinding.hpp:61-68 | adding weights (infinity absorbs) is associative, so accumulating additions in any grouping gives the same table |
| Weights.AddIsCommutative | player/pathfinding.hpp:61-68 | adding weights is commutative |
| Weights.LessIsStrictTotalOrder | player/pathfinding.hpp:187 | `<` on these doubles (no NaN) is irreflexive, asymmetric, transitive and total |
| PathfindingMaps.StampMax | player/pathfinding.hpp:121-132 | the new weight under `maxInfluence` never drops; inside the window it is at least the kernel value; outside it is unchanged |
| PathfindingMaps.ScaledStampByOneIsPlain | player/pathfinding.hpp:95-119 | `addInfluenceMultiple` with factor 1 stamps exactly what `addInfluence` stamps |
| PathfindingMaps.StampMaxIsIdempotent | player/pathfinding.hpp:121-132 | stamping the same kernel at the same place twice with `maxInfluence` gives what one stamp gives |
| PathfindingMaps.RowSumInfinite | player/pathfinding.hpp:75-83 | a row's running sum is infinite exactly when some weight in that row is infinite |
| PathfindingMaps.GridSumInfinite | player/pathfinding.hpp:75-83 | the table sum is infinite exactly when some weight in the table is infinite |
| PathfindingMaps.RowSumOfSum | player/pathfinding.hpp:61-83 | the row sum of an element-wise sum is the sum of the two row sums |
| PathfindingMaps.GridSumOfSum | player/pathfinding.hpp:61-83 | `(a + b).sum()` equals `a.sum() + b.sum()` |
| PathfindingMaps.TransposedTraversalLeavesTable | player/pathfinding.hpp:75-93 | on every non-square, non-empty map, the `i < h`, `j < w` loops of `sum`/`getMax` read a cell outside the w×h table |
| PathfindingMaps.TransposedTraversalOnTwoByThree | player/pathfinding.hpp:75-93 | concrete case: on a 2×3 map the loops read `weights[2][0]`, which is off the table |
| PathfindingMaps.TransposedTraversalOnSquare | player/pathfinding.hpp:75-93 | on square or empty maps the as-written loops visit exactly the cells of the map |
| PathfindingMaps.PathfindingMap.Empty | player/pathfinding.hpp:52-53 | the default constructor leaves `weights` empty; the model also fixes `w` and `h` at 0, which the source leaves uninitialised |
| PathfindingMaps.PathfindingMap.constructor | player/pathfinding.hpp:55-59 | a new width×height map has those dimensions and every weight 0 |
| PathfindingMaps.PathfindingMap.Copy | player/pathfinding.hpp:71 | a copy is a fresh table with the same dimensions and weights |
| PathfindingMaps.PathfindingMap.AddAssign | player/pathfinding.hpp:61-68 | `+=` adds the other map's weight to every cell of the w×h table and changes nothing else |
| PathfindingMaps.PathfindingMap.Plus | player/pathfinding.hpp:70-73 | `+` returns a fresh map holding the cell-wise sums; neither operand changes |
| PathfindingMaps.PathfindingMap.Sum | player/pathfinding.hpp:75-83 | the sum of all weights; it is infinite exactly when some weight is infinite (row-major order, which the as-written loops get transposed) |
| PathfindingMaps.PathfindingMap.GetMax | player/pathfinding.hpp:85-93 | the result is at least 0 and at least every weight, and it is 0 or one of the weights (row-major order) |
| PathfindingMaps.PathfindingMap.GetMaxAsWritten | player/pathfinding.hpp:85-93 | the loops as written give the same maximum, but only on square or empty maps, where they stay inside the table |
| PathfindingMaps.PathfindingMap.AddInfluence | player/pathfinding.hpp:95-106 | each on-map cell of the (2r+1)² window centred on (x0, y0) gains its kernel value; every other cell is unchanged; kernel cells off the map are ignored |
| PathfindingMaps.PathfindingMap.AddInfluenceMultiple | player/pathfinding.hpp:108-119 | the same stamp with every kernel value multiplied by `factor` |
| PathfindingMaps.PathfindingMap.MaxInfluence | player/pathfinding.hpp:121-132 | each on-map window cell becomes the maximum of its weight and the kernel value; other cells are unchanged |
| Pathfinder.TopHasLeastCost | player/pathfinding.hpp:43-45 | because `operator<` is reversed, the entry `top()` returns has the least cost in the queue |
| Pathfinder.TopExists | player/pathfinding.hpp:165-166 | a non-empty queue always has an entry `top()` may return |
| Pathfinder.MovesAreKingMoves | player/pathfinding.hpp:152-153 | the eight `dx`/`dy` moves each reach an 8-neighbour |
| Pathfinder.Ceiling | player/pathfinding.hpp:172 | the bound `valueUpperBound / (cost + 1)` that the cut-off compares with the best score; for a non-negative bound it lies between 0 and the bound |
| Pathfinder.DivisionShrinks | player/pathfinding.hpp:172 | a higher cost never raises that bound, so a tile cut off at one cost is cut off at every higher cost |
| Pathfinder.ScoreOf | player/pathfinding.hpp:154-156 | on a finite value and a non-negative finite cost, the score is value/(cost+1) |
| Pathfinder.FreshTop | player/pathfinding.hpp:169-171 | an entry that passes the stale check carries exactly its tile's tentative cost |
| Pathfinder.BestStep | player/pathfinding.hpp:175-179 | the best-update keeps the best tile the highest-scoring settled tile other than `from`, ahead of the initial score |
| Pathfinder.BestKept | player/pathfinding.hpp:180-192 | relaxing unsettled tiles does not disturb what is known about the best tile |
| Pathfinder.QueuedIsOnMap | player/pathfinding.hpp:180-191 | every queued entry is on the map and costs at least its tile's tentative cost |
| Pathfinder.RemovalKeeps | player/pathfinding.hpp:166-168 | popping an entry leaves only earlier entries and keeps them distinct |
| Pathfinder.SettleTop | player/pathfinding.hpp:165-171 | a non-stale top entry belongs to an unsettled tile, and settling it keeps every queued entry at least as costly as every settled tile |
| Pathfinder.DropKeepsState | player/pathfinding.hpp:168-171 | dropping a stale entry keeps the search invariant |
| Pathfinder.DropKeepsFrontier | player/pathfinding.hpp:166-171 | popping an entry that is stale, or whose tile is settled, still leaves an entry with the tentative cost of every reached tile not yet settled |
| Pathfinder.NoneUnsettled | player/pathfinding.hpp:165 | once the queue is empty, no reached tile is left unsettled, so the cut-off holds for all of them |
| Pathfinder.TopCutsOff | player/pathfinding.hpp:172-174 | when the popped top entry is cut off, every reached tile not yet settled is cut off too, because its entry costs at least as much |
| Pathfinder.SettleKeepsState | player/pathfinding.hpp:165-171 | settling the top tile keeps the invariant; settled costs never exceed the popped cost, and every remaining entry costs at least that much (Dijkstra order) |
| Pathfinder.RankKeepsParents | player/pathfinding.hpp:189 | settling a tile keeps every reached tile's parent a settled neighbour settled before it |
| Pathfinder.RelaxKeepsQueue | player/pathfinding.hpp:186-191 | lowering one unsettled tile's cost and pushing its entry keeps the queue invariants and leaves settled costs alone |
| Pathfinder.RelaxKeepsFrontier | player/pathfinding.hpp:186-191 | after a relaxation the pushed entry covers the neighbour, so every reached tile not yet settled still has an entry with its tentative cost |
| Pathfinder.RelaxOne | player/pathfinding.hpp:186-191 | runs only when the new cost, the current tile's cost plus the neighbour's step cost, is strictly lower; it sets the neighbour's cost to it and its parent to the current tile, changes no other cost and pushes the entry; every reached tile's cost stays its parent's cost plus its own step cost, and earlier relaxations stay valid |
| Pathfinder.RelaxNeighbour | player/pathfinding.hpp:181-191 | iteration `i`: afterwards the `i`-th neighbour, when it is on the map with a finite step cost, has a tentative cost at most `c` plus that step cost; the search state is kept |
| Pathfinder.RelaxNeighbours | player/pathfinding.hpp:180-192 | after the eight iterations every on-map neighbour with a finite step cost has a tentative cost at most `c` plus its step cost, as has every neighbour of every settled tile; settled costs do not change |
| Pathfinder.SettlingShrinksRemaining | player/pathfinding.hpp:165 | settling an unsettled on-map tile leaves fewer tiles to settle (the search terminates) |
| Pathfinder.Visit | player/pathfinding.hpp:175-192 | settles the popped tile; the best tile becomes that tile exactly when its score beats the best score and it is not `from`; all eight neighbours are relaxed from its cost; the search and best-tile invariants are kept |
| Pathfinder.StartSearch | player/pathfinding.hpp:146-163 | every cost starts infinite except `from`, which is 0; the queue holds the single entry (0, from); the initial score is value/(cost+1) at `from` with `costs[from]` as the cost; the bound is `getMax`, finite, at least 0 and at least every value |
| Pathfinder.SearchLoop | player/pathfinding.hpp:165-193 | at loop exit: every settled tile is on the map with a finite cost; every reached tile's cost is its parent's cost plus its step cost, the parent settled earlier; every neighbour of a settled tile is relaxed; every reached tile left unsettled is cut off; `from` is settled unless the first pop was cut off; the best tile scores at least every settled tile |
| Pathfinder.RelaxedAdjacent | player/pathfinding.hpp:180-192 | each on-map 8-neighbour of a settled tile with a finite step cost has been reached at no more than that tile's cost plus the step cost |
| Pathfinder.EveryNeighbourRelaxed | player/pathfinding.hpp:180-192 | the same for all settled tiles and all their 8-neighbours at once |
| Pathfinder.ValueCutOff | player/pathfinding.hpp:163-174 | a tile cut off against the bound is cut off against every value at most the bound |
| Pathfinder.EveryValueCutOff | player/pathfinding.hpp:163-174 | with `getMax` as the bound, no value of the map over the cost plus one of a reached unsettled tile beats the best score; if `from` was never settled, the initial score is at least 0 and no value exceeds it |
| Pathfinder.Explore | player/pathfinding.hpp:145-193 | the set-up and the loop together give: costs tied to the step costs along the parents; `from` is explored unless its initial score is at least 0 and no value beats it; every neighbour of a settled tile relaxed; every reached unsettled tile cut off against every value |
| Pathfinder.WalkBack | player/pathfinding.hpp:194-208 | following parents from the best tile reaches `from`; the returned tile is the step of that path next to `from`, an 8-neighbour of it; each step of the path costs its tile's step cost |
| Pathfinder.BestMeaning | player/pathfinding.hpp:175-179 | if the best tile is `from`, the best score is the initial score and no other settled tile scores above it; otherwise it is a settled tile whose value/(cost+1) is the best score, above the initial score, and no other settled tile scores higher |
| Pathfinder.GetNextLocation | player/pathfinding.hpp:145-209 | returns `from` exactly when the best tile is `from`; otherwise returns the neighbour of `from` on a king-move parent path to the best explored tile, each step costing its tile's step cost; `from` is explored unless its initial score is at least 0 and no value beats it; every neighbour of an explored tile is relaxed; no value over the cost plus one of a reached, unexplored tile beats the best score |
| Influence.Dist2IsZeroAtCentre | player/influence.cpp:159-160 | dx²+dy² is 0 only at the centre cell |
| Influence.Dist2InBlock | player/influence.cpp:171-173 | dx²+dy² ≤ 2 holds exactly on the 3×3 block around the centre |
| Influence.CeilSqrt | player/influence.cpp:28 | `ceil(sqrt(s))` is the least r with r² ≥ s |
| Influence.CeilSqrtIsExact | player/influence.cpp:28 | any r with (r−1)² < s ≤ r² is `ceil(sqrt(s))` |
| Influence.CeilSqrtOfUsedRadii | player/influence.cpp:106-142 | the disc tables for s = 30, 31 and 2 have radius 6, 6 and 2 |
| Influence.Fill | player/influence.cpp:97-104 | the nested `dx`/`dy` loops give a (2r+1)² table whose cell (dx+r, dy+r) is the profile's value at (dx, dy) |
| Influence.FilledTableIsKernel | player/influence.cpp:29 | such a table is a kernel of radius r, and stamping it at (x0, y0) adds its profile value at (x−x0, y−y0) inside the window |
| Influence.UniformDisc | player/influence.cpp:27-40 | `calculate_uniform_disc_influence(s)` is a table of side 2⌈√s⌉+1 that is 1 exactly where dx²+dy² ≤ s and 0 elsewhere |
| Influence.UniformDiscFitsTable | player/influence.cpp:28-36 | every cell with dx²+dy² ≤ s lies inside the table |
| Influence.UniformDiscIsSymmetric | player/influence.cpp:30-38 | the disc is symmetric under sign flips and under swapping dx and dy, and its centre is 1 |
| Influence.RoughDisc | player/influence.cpp:42-59 | `calculate_rough_disc_influence(s)` is a table of side 2(⌈√s⌉+1)+1 following the three source branches cell by cell |
| Influence.FarCornerIsFurther | player/influence.cpp:51-53 | the far corner (\|dx\|+1, \|dy\|+1) is strictly further than (dx, dy) |
| Influence.RoughDiscIsUniformDisc | player/influence.cpp:47-55 | the 0.5 branch never fires, so the rough disc is the uniform disc: every cell is 0 or 1 |
| Influence.RangerTargetFitsTable | player/influence.cpp:62-75 | the ranger target annulus 10 < dx²+dy² ≤ 50 lies inside the 15×15 table |
| Influence.EnemyRangerTargetFitsTable | player/influence.cpp:77-95 | every set cell of the enemy ranger target lies inside the 17×17 table |
| Influence.EnemyRangerTargetCoversRangerTarget | player/influence.cpp:62-95 | the enemy ranger target includes every cell of the ranger target annulus |
| Influence.WideEnemyDecays | player/influence.cpp:97-104 | 50/(50+d) is positive, at most 1, equal to 1 only at the centre, and decreasing in d |
| Influence.InverseDistanceDecays | player/influence.cpp:113-129 | 1/(1+d) is positive, at most 1, equal to 1 only at the centre, and decreasing in d |
| Influence.WorkerProximityIsScaledFuzzy | player/influence.cpp:144-151 | the worker proximity cell is 0.05 times the inverse-distance cell, so it lies in (0, 0.05] |
| Influence.HealerOverchargeFitsTable | player/influence.cpp:131-140 | the ring 80 < dx²+dy² < 110 lies inside the 21×21 table |
| Influence.RangerProximityIsCappedFuzzy | player/influence.cpp:153-163 | the centre is 0.5, every other cell is 1/(1+d), and the value 0.5 occurs exactly where d ≤ 1 |
| Influence.FactoryProximityPeaksAtCentre | player/influence.cpp:165-178 | the centre is 5, the other cells of the 3×3 block are 0.4, and the rest are 0.1/(1+d) ≤ 0.025 |
| Influence.RocketProximityIsBlockThenDecay | player/influence.cpp:180-190 | the 3×3 block is 0.2 and the rest are 0.1/(1+d) ≤ 0.025 |
| Influence.Tables.InitInfluence | player/influence.cpp:61-191 | each of the seventeen tables `initInfluence` assigns has its stated radius and cell profile |
| Influence.TargetTables | player/influence.cpp:62-111 | the target tables and discs, each with its radius and cell profile |
| Influence.ProximityTables | player/influence.cpp:113-190 | the proximity and overcharge tables, each with its radius and cell profile |
| Maps.MapTypeValue | player/maps.h:34 | `Target` and `Cost` have the enum values 0 and 1 |
| Maps.UnitTypeValue | player/maps.h:38 | the seven unit types have distinct enum values below 7 |
| Maps.ValuesAreInjective | player/maps.h:34-38 | distinct enumerators have distinct values |
| Maps.Rank | player/maps.h:44-55 | the position of a key among the 28 (mapType, unitType, isHurt) triples |
| Maps.RankIsInjective | player/maps.h:44-55 | two keys have the same rank exactly when they are equal |
| Maps.LessIsLexicographic | player/maps.h:44-55 | `operator<` compares mapType, then unitType, then isHurt: it holds exactly when the first key's rank is lower |
| Maps.LessIsStrictTotalOrder | player/maps.h:44-55 | `operator<` is irreflexive, asymmetric, transitive and total on distinct keys |
| Maps.EquivalentIffEqual | player/maps.h:44-58 | two keys are equivalent (neither less) exactly when all three fields agree, so `reusableMaps` shares an entry only between identical keys |
| Maps.TargetBeforeCostAndHealthyBeforeHurt | player/maps.h:44-55 | every `Target` key precedes every `Cost` key, and a healthy key precedes the same key for a hurt unit |
| StackWalk.ChainIsLinked | player/stackwalk.h:57-69 | the frames visited start at `aBp`; each is followed by the pointer saved in it; each passes the sanity test; the pointers strictly increase up to `aStackEnd`, so the walk ends |
| StackWalk.NullChainIsEmpty | player/stackwalk.h:57 | a null frame pointer visits no frames |
| StackWalk.SkipCount | player/stackwalk.h:55 | `int32_t skip = aSkipFrames` keeps counts below 2³¹ and turns larger ones negative |
| StackWalk.Skipped | player/stackwalk.h:72 | the number of frames skipped is the skip count, capped by the chain length, and 0 for a non-positive count |
| StackWalk.WalkFromNullIsEmpty | player/stackwalk.h:57 | a null `aBp` makes no callbacks |
| StackWalk.WalkReportsFrames | player/stackwalk.h:55-83 | the callbacks report consecutive chain frames right after the skipped ones, numbered 1, 2, …, with pc the word after the frame pointer and sp two words above it; there are at most a non-zero `aMaxFrames` of them |
| StackWalk.FramePointerStackWalk | player/stackwalk.h:48-85 | the loop makes exactly the callbacks of that description |
| StackWalk.ReportedGrows | player/stackwalk.h:77-78 | reporting one more frame appends one call numbered one past the last |
| StackWalk.WalkOfWholeChain | player/stackwalk.h:57-69 | a walk that runs off the end of the chain before the cap has reported every frame after the skipped ones |
| StackWalk.WalkOfCappedChain | player/stackwalk.h:79-81 | a walk that stops at its `aMaxFrames`-th report has reported the first `aMaxFrames` frames after the skipped ones |
| View.SpanCounts | player/view.hpp:14-24 | the coordinates from lo to hi number hi−lo+1, in increasing order |
| View.RegionSizeCountsCells | player/view.hpp:14-24 | `width()` and `height()` count the columns and rows of the region |
| View.Clamp01 | player/view.hpp:31 | the clamped t lies in [0, 1] and equals t when t is already there |
| View.Mix | player/view.hpp:33-35 | each interpolated channel lies between the two end channels, equal to the first at t = 0 and to the second at t = 1 |
| View.MixIsBetween | player/view.hpp:33-35 | the real blend a(1−t)+bt lies between a and b |
| View.Interpolate | player/view.hpp:30-37 | `interpolate` returns a for t ≤ 0 and b for t ≥ 1, and every channel lies between the end channels |
| View.Bit | player/view.hpp:61-63 | `bit(i, k)` is 0 or 1 |
| View.BitIsShiftedLowBit | player/view.hpp:61-63 | `bit(i, k)` is bit k of i, ⌊i/2ᵏ⌋ mod 2, also for negative i in two's complement |
| View.IntToColor | player/view.hpp:65-70 | every channel is one of the four levels 63, 127, 191, 255 |
| View.ChannelLevels | player/view.hpp:69 | the level for c ∈ {1..4} is (255·c)/4 truncated, and c can be read back from it |
| View.LevelIsLevel | player/view.hpp:66-69 | two bits give one of the four channel levels |
| View.ColorRoundTrip | player/view.hpp:65-70 | the colour determines the id modulo 64: reading the channel levels back gives i mod 64 |
| View.SameColorIffSameLowBits | player/view.hpp:65-70 | two ids get the same colour exactly when they agree on their low six bits, so ids 0..63 get pairwise distinct colours |
| View.SameLowBitsSameColor | player/view.hpp:65-69 | ids that agree on bits 0–5 get the same colour |
| View.DarkerAndLighterStayInRange | player/view.hpp:127-129 | the darkened and lightened channels stay in [0, 255], strictly darker and lighter unless already at the limit |
| View.TextColorInRange | player/view.hpp:126-130 | every text-colour channel lies in [0, 255]; it is darker than the background when some channel exceeds 128 and lighter otherwise |
| View.NatToString | player/view.hpp:165 | `to_string` of n has one digit below 10 and two digits from 10 to 99 |
| View.IntToString | player/view.hpp:165 | `to_string` of a negative number starts with '-' |
| View.LabelIsFourWide | player/view.hpp:161-168 | for value ≥ 0 the label is a space, min(value, 99) right-aligned in two characters, and a space |
| View.NegativeLabelIsWider | player/view.hpp:164-165 | a negative value gives a label of at least five characters |
| WorkerGroups.TimeToMine | player/worker.cpp:46-48 | the time charged per tile is at least 2 turns |
| WorkerGroups.TimeToMineIsCeilingOfThird | player/worker.cpp:46-48 | `(k + 2) / 3` truncated is ⌈k/3⌉, so the charge is max(⌈k/3⌉, 2) |
| WorkerGroups.GroupSizeIsBounded | player/worker.cpp:40-49 | a group that spent less than 80 before its last tile has at most ⌈80/t⌉ tiles, and never more than 40 |
| WorkerGroups.PushedIsEligibleNeighbours | player/worker.cpp:57-76 | the tiles the first `i` steps of the dx/dy loop queue on `que1` (on `que2`) are exactly the tiles those steps look at that are on the map, unmarked, uncovered and passable and hold karbonite (hold none), each once |
| WorkerGroups.PushNeighbours | player/worker.cpp:57-76 | the loop appends to `que1` exactly the eligible neighbours of `p` that hold karbonite and to `que2` exactly the others, in loop order; marks stay; every uncovered passable tile around `p` ends marked; the queue invariant is kept |
| WorkerGroups.VisitInTurn | player/worker.cpp:58-75 | one `dy` iteration advances the record of what the loop has queued and marked by one step |
| WorkerGroups.ProgressStep | player/worker.cpp:59-75 | the tile a step looks at is eligible exactly when `Visit` queues it, so that record advances by one step |
| WorkerGroups.PushedStep | player/worker.cpp:70-74 | the queue half of that step: each queue grows by the tile that step pushes |
| WorkerGroups.MarkedStep | player/worker.cpp:67 | the marking half of that step: `covered2` gains exactly the tile that step marks |
| WorkerGroups.Visit | player/worker.cpp:59-75 | one neighbour n: when it is on the map, unmarked, uncovered and passable, it is marked and appended to `que1` if it holds karbonite and to `que2` otherwise; when not, queues and marks are unchanged |
| WorkerGroups.Enqueue | player/worker.cpp:67-74 | marks `n` and no other tile, and appends it to `que1` or `que2` according to its karbonite |
| WorkerGroups.Take | player/worker.cpp:51-55 | the front of `que1` leaves the queue and joins the group; it becomes covered with group index `gi`, and no other cell changes |
| WorkerGroups.Cover | player/worker.cpp:53-55 | `covered[p]` is set and `groupIndices[p]` becomes `gi`; nothing else changes |
| WorkerGroups.ClosedGrows | player/worker.cpp:57-76 | after taking `p`, every passable tile around a group tile that no earlier group covers is marked or taken |
| WorkerGroups.Grow | player/worker.cpp:51-76 | the group gains `que1[0]`; `que1` becomes its tail followed by the eligible karbonite neighbours of that tile in loop order, and `que2` gains the eligible neighbours without karbonite |
| WorkerGroups.Step | player/worker.cpp:40-76 | the queues are swapped when `que1` is empty; the loop stops exactly when both queues are empty, and then nothing changes; otherwise `timeCost` grows by the seed's `timeToMine`, and the tile taken and the new queues are those of `Grow`, applied to `que2` after a swap |
| WorkerGroups.FloodGrows | player/worker.cpp:46-76 | taking one more tile keeps the loop state: `timeCost` is the per-tile charge times the tiles taken, and it was below 80 before the last tile |
| WorkerGroups.FloodStarts | player/worker.cpp:33-38 | before the first pass only the seed waits and is marked, and the tables hold their contents from before the group |
| WorkerGroups.FloodIsClosed | player/worker.cpp:41-44 | a fill stopped by two empty queues has taken every passable tile around its tiles that no earlier group covers |
| WorkerGroups.TimeSpentIsProduct | player/worker.cpp:46-49 | charging `t` per tile costs n·t after n tiles |
| WorkerGroups.FloodGroup | player/worker.cpp:32-77 | the group starts at the seed and is well formed; its tiles were uncovered and exactly they become covered and indexed `gi`; the budget is spent, or every passable tile around the group that was not covered before is in the group |
| WorkerGroups.BuildGroup | player/worker.cpp:32-79 | the same, stated against the tables before the flood |
| WorkerGroups.FinishGroup | player/worker.cpp:40-77 | at loop exit the tiles form a well-formed group: distinct, on the map, passable after the seed, each adjacent to an earlier one, the seed with karbonite, and within the size bound |
| WorkerGroups.GroupAdjacency | player/worker.cpp:57-73 | every tile after the seed touches an earlier tile of its group |
| WorkerGroups.GroupKarbonite | player/worker.cpp:21-87 | every group is well formed; groups are pairwise disjoint; `groupIndices` names each tile's group and is −1 elsewhere; every on-map tile with karbonite is in some group; each group spent its budget or has every passable tile around it in itself or an earlier group |
| WorkerGroups.VisitColumn | player/worker.cpp:29-80 | the `y` loop for one column keeps the partition and leaves every karbonite tile of that column covered |
| WorkerGroups.VisitTile | player/worker.cpp:30-79 | one seed candidate keeps the partition, only adds cover, and leaves the tile covered if it has karbonite |
| WorkerGroups.IndexedGroupsAreDisjoint | player/worker.cpp:54-55 | since `groupIndices` names each tile's group, no tile lies in two groups |
| WorkerGroups.PartitionGrows | player/worker.cpp:79 | pushing a freshly flooded group keeps the partition invariant |
| WorkerGroups.SaturatedGrows | player/worker.cpp:79 | pushing a freshly flooded group keeps every group either spent or surrounded by grouped tiles |
| WorkerMatch.Terms | player/worker.cpp:130-131 | one term per group tile: target weight over one plus distance, 0 for an unreachable tile |
| WorkerMatch.SumBounds | player/worker.cpp:128-132 | a group score of non-negative terms is non-negative and at least each term |
| WorkerMatch.TruncatedSumLosesLessThanOnePerTerm | player/worker.cpp:129-131 | the `int` score as written stays between the real sum minus one per tile and the real sum |
| WorkerMatch.TruncatedSumDropsHalves | player/worker.cpp:129-131 | concrete case: two terms of 0.5 sum to 1 but the `int` score is 0 |
| WorkerMatch.GroupScore | player/worker.cpp:128-132 | the group score is the real sum of the tile terms |
| WorkerMatch.SkipAsWrittenAdmitsNegativeRows | player/worker.cpp:147 | the test as written lets through exactly the on-map tiles plus the tiles with ny < 0 in a valid column |
| WorkerMatch.SkipAsWrittenReadsRowMinusOne | player/worker.cpp:147 | concrete case: a building at (0, 0) on a 1×1 map reads tile (0, −1) |
| WorkerMatch.RealMax | player/worker.cpp:148 | `std::max` of two doubles is one of them and no less than either |
| WorkerMatch.BuildingScore | player/worker.cpp:140-150 | the building score is at least 0 and every on-map tile of the 3×3 block, and is 0 or one of those tiles' terms |
| WorkerMatch.Halved | player/worker.cpp:134-136 | slot k of a target holds score/2ᵏ |
| WorkerMatch.HalvedAsWrittenDropsHalf | player/worker.cpp:134-136 | concrete case: a score of 1 should be worth 0.5 in slot 1, but the integer division gives 0 |
| WorkerMatch.HalvedDecreases | player/worker.cpp:134-136 | a positive score's slots strictly decrease, each half the previous |
| WorkerMatch.DecodeFailsOutsideColumns | player/worker.cpp:177-204 | the asserts fail exactly for columns below −1 or at least 3·groups + 3·buildings, and a group column always names an existing group |
| WorkerMatch.DecodeInvertsSlots | player/worker.cpp:185-204 | every slot of group i decodes to group i, and every slot of building i decodes to building i |
| WorkerMatch.DecodedColumnIsSlot | player/worker.cpp:185-204 | every column that decodes to a target is one of that target's three slots |
| WorkerMatch.FillCostMatrix | player/worker.cpp:121-155 | the matrix has a row per worker and 3·groups + 3·buildings columns; column 3i+k holds group i's score/2ᵏ and column offset+3i+k holds building i's; the group slots use real halving, the corrected form of the integer `score/2` and `score/4` at lines 134-136, which `HalvedAsWritten` models |
| WorkerMatch.FillRow | player/worker.cpp:128-155 | one worker's row is filled with the slot values and no other row changes |
| WorkerMatch.MaxEntry | player/worker.cpp:159-163 | `mx` is at least 0 and at least every entry, and is 0 or one of the entries |
| WorkerMatch.Invert | player/worker.cpp:159-167 | every entry becomes mx − v, and all of them are ≥ 0 |
| WorkerMatch.BuildMask | player/worker.cpp:169-209 | no target gives the empty map; otherwise a w×h map that is 1 exactly on the assigned group's tiles or on the on-map 3×3 block around the assigned building, and 0 elsewhere |
| WorkerMatch.MarkBlock | player/worker.cpp:193-200 | the clipped 3×3 block around the building is set to 1 and the rest stays 0 |
| WorkerMatch.MarkTiles | player/worker.cpp:206-208 | exactly the group's tiles are set to 1 |

## Left out

- Pathfinder.GetNextLocation: does not prove the cut-off at lines 172-174 optimal. It proves that the best tile beats every explored tile, and that every reached tile left unexplored is cut off against every value, but not that the best tile beats every tile of the map.
- Pathfinder.GetNextLocation: does not promise that `from` is explored. The source leaves it unexplored when the very first pop is already cut off (lines 172-174), which can happen only when `from`'s initial score is at least 0 (the bound `getMax` is never below 0) and no value of the map beats it; the contract states that alternative.
- Pathfinder.GetNextLocation: requires every value to be finite (`AllFinite(values)`) and every step cost to be non-negative (`NonNegative(costs)`). Infinite values and negative step costs are excluded, and so is NaN; the bot's callers build value maps from finite targets and cost maps from 1, infinity or other non-negative weights.
- Pathfinder.GetNextLocation: the `valueUpperBound` cut-off is modelled, but the bound `getMax` itself is taken from the row-major `GetMax`; the as-written loop is the subject of a finding below.
- WorkerGroups.FloodGroup: does not state, as one property over the whole fill, that zero-karbonite tiles are taken only after `que1` empties. Each pass states which queue it takes from and what it appends to each queue, so the order follows pass by pass, but no lemma sums it up across swaps.
- WorkerGroups.GroupKarbonite: karbonite amounts are natural numbers (the amounts fed in are integers); `KarboniteGroup::totalValue` is never assigned in the source and is not a field here.
- WorkerMatch: `getDistanceToAllTiles`, `getOriginalTargetMap` and `getCostMap` come from code that is not part of this model. Their results are parameters (a non-negative distance map and a target table).
- WorkerMatch: `HungarianAlgorithm::Solve` is not part of this model. The assigned column is an input to `BuildMask`.
- WorkerMatch: the final `mask * worker->getOriginalTargetMap()` (line 211) uses an operator that is not in the modelled files.
- WorkerMatch: the per-worker orchestration of `matchWorkers` is left out: the `planet`/team guard, the unit scan through the game controller, and the `numTargets == 0` early return.
- WorkerMatch.BuildMask: the asserts at lines 183, 190 and 204 are preconditions. A column that fails one is excluded rather than modelled as an abort.
- StackWalk.FramePointerStackWalk: does not model `aSkipFrames` = 2³¹, where `skip` starts at −2³¹ and the first `--skip` (line 72) overflows a signed integer, which is undefined behaviour in C++. The model's unbounded decrement then reports every frame.
- StackWalk.FramePointerStackWalk: does not model the `uint32_t numFrames` counter wrapping after 2³² frames. A chain that long cannot fit below `aStackEnd` on a real stack. The closure argument is passed through unchanged and is left out.
- StackWalk: memory is a total function, so a read of an unmapped address (a crash in the source) is not modelled. A word is 8 bytes, as on the 64-bit targets.
- StackWalk: `MozStackWalk` reads `__builtin_frame_address` and `__libc_stack_end`, which are platform intrinsics; it is left out.
- Maps: `UnitType` is declared in the game API header, which is not part of this model. The order Worker, Knight, Ranger, Mage, Healer, Factory, Rocket stands for its values; only being a fixed total order matters.
- Maps: the global `PathfindingMap` declarations and the `reusableMaps` container itself are declarations only.
- View: `printAt`, `print`, `colors(mn, mx, values)` and the ANSI escape strings are terminal output.
- Influence: the rational values are stated over reals, as are all doubles. IEEE rounding, NaN and negative infinity are not modelled.
- Influence: the tables declared in `influence.h` but never built by `initInfluence` are not modelled.
- PathfindingMaps.PathfindingMap.Empty: fixes `w` = `h` = 0. The source's `PathfindingMap() {}` leaves both indeterminate until a later assignment.
- PathfindingMap.print and `printMap` (terminal output) are left out.
- The rest of the bot, which is game-controller calls and floating-point heuristics, is left out: `main.cpp`, `bot_unit.cpp`, `rocket.cpp`, the rest of `worker.cpp`, `common.cpp`, and the log parser `parse-logs.py`.

## Findings

| source | as written | input that shows it | evidently intended | confidence | as-written member | corrected member |
|---|---|---|---|---|---|---|
| player/pathfinding.hpp:75-93 | `sum` and `getMax` loop `i < h`, `j < w` over `weights[i][j]`, while the table is `weights[x][y]` with x < w | a 2×3 map: the loops read `weights[2][0]`, past the two columns | loop `i < w`, `j < h`, so every cell is read once | not executed | PathfindingMaps.PathfindingMap.GetMaxAsWritten, PathfindingMaps.TransposedTraversalLeavesTable, PathfindingMaps.TransposedTraversalOnTwoByThree | PathfindingMaps.PathfindingMap.Sum, PathfindingMaps.PathfindingMap.GetMax |
| player/worker.cpp:147 | `if (nx < 0 \|\| nx < 0 \|\| nx >= w \|\| ny >= h) continue;` never tests `ny < 0` | a damaged building at (0, 0): the loop reads `targetMap.weights[0][-1]` | `nx < 0 \|\| ny < 0 \|\| nx >= w \|\| ny >= h`, as at line 197 | not executed | WorkerMatch.SkipAsWrittenAdmitsNegativeRows, WorkerMatch.SkipAsWrittenReadsRowMinusOne | WorkerMatch.BuildingScore |
| player/worker.cpp:129-136 | `auto score = 0;` makes the group score an `int`: each `+=` truncates, and `score/2`, `score/4` divide integers | a group of two tiles each contributing 0.5 scores 0 instead of 1; a score of 1 gives slot values 1, 0, 0 | a `double` score, as for buildings at line 142 | not executed | WorkerMatch.TruncatedSumDropsHalves, WorkerMatch.HalvedAsWrittenDropsHalf | WorkerMatch.GroupScore, WorkerMatch.Halved |
