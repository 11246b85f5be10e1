# Ocean of Code bot: a verified model of its grid, tracker and parsers

This project models the core of a bot for the turn-based submarine game
"Ocean of Code" in Dafny and proves what that core promises.

The bot keeps a board of 15 × 15 cells. Each cell is sea or island, and each
lies in one of nine 5 × 5 regions ("surfaces"). The bot reads the
opponent's orders (MOVE, SURFACE, TORPEDO, SONAR, SILENCE, MINE, TRIGGER)
and tracks where the opponent may be. It keeps a set of *hypotheses*, one
per possible start cell, grouped in *scenarios*:

- MOVE advances every hypothesis by one cell and drops it when the move is
  impossible.
- SILENCE fans every scenario out into its straight runs.
- SURFACE reseeds from one region.
- Torpedo, sonar and attack feedback filter the hypotheses.

The model follows the source module by module:

| Dafny module | what it models |
|---|---|
| `Sequences` | first-occurrence de-duplication, `filter`, Map key insertion order |
| `Positions` | `Position`: vector sum and scale, `equals`, `removeDuplicate`, the two metrics |
| `CellContainers` | `CellContainer`: index ↔ coordinate, bounds checks, `middle` |
| `Cells` | `Cell`: the record, terrain, `Cell.removeDuplicate` |
| `Directions` | `MOVE_STRATEGIES`: the four unit moves and their letters |
| `Surfaces` | region numbering (`getSurfaceIndex`, `getSurface`, `getSurfacePositionCenter`) and the `Surface` record |
| `Grids` | the services `Grid`: cell table, region buckets, lookups, area queries |
| `Hypotheses` | a hypothesis and a scenario as values; filters; the MOVE step |
| `PathScenarios` | the `PathScenario` class (updated in place) |
| `MoveScenarios` | the `MoveScenario` class: the Map and its deleting filter loops |
| `Tracking` | `reduceMoveStrategies`, `updateMoveStrategies` and the SILENCE fan-out, on values |
| `Strategies` | `createMoveAntiClockwiseStrategies` and the four direction tables |
| `Orders` | `split`, `parseInt`, the list-shaped parser and the earlier object-shaped parser |
| `Tallies` | the counting and grouping Maps of the statistics |
| `TrackResolvers` | the `TrackResolver` class and what each of its operations does to its two fields |
| `PathResolvers` | the earlier `PathResolver` tracker and the services `OpponentSubmarine` that feeds it |
| `PathFinders` | the `PathFinder` class: visited cells, direction tables, and the longest, shortest and torpedo path searches |
| `OurSubmarines` | the services `OurSubmarine`: position, cooldowns, the planned path, the move, torpedo and sonar choices, and the feedback it gives the opponent tracker |
| `Submarines` | `Submarine`: the life and lost bookkeeping |
| `EarlyGrids` | the earliest `Grid` of src/app/grid.ts and its copy inlined in src/ocean-of-code.ts: a terrain list, the visited numbers, the longest-way search and the end-first `removeDuplicate` |
| `OceanTracking` | the game loop of src/ocean-of-code.ts: `getPower`, the start and offset lists it tracks the opponent with, the estimate, the mines, the SILENCE run and the turn's orders |
| `EarlyTrackers` | the trackers of src/app/path-resolver.class.ts and src/app/opponent-submarine.class.ts, which look moves up by the unguarded row-major index |
| `EarlySubmarines` | the `OurSubmarine` of src/app/our-submarine.class.ts: its visited cells, start choice, path search and move, SILENCE and SURFACE orders, and the sonar answer it passes on |

Design decisions:

- **Cells are identified by their index.** The source keys its Maps and Sets
  by object identity. In a grid built by `Grid`, each index has exactly one
  `Cell` object, so identity and index agree.
- **A scenario is a Map from start index to hypothesis,** kept as its entries
  in key insertion order. `delete`, `set` and the filters keep that order, as
  JavaScript Maps do.
- **Objects that the source updates in place are classes.**
  `PathScenario`, `MoveScenario` and `TrackResolver` are classes whose methods
  update their fields with the source's loops. Each method is proved against
  a function on values (`Visit`, `Filter`, `AfterMove`, …), and the
  properties are proved about those functions.
- **`TrackResolver` holds its scenarios as values.** Every scenario the
  source stores is either fresh or a deep clone, so no two stored scenarios
  share a hypothesis object.
- **An operation that throws in the source** (reading a field of
  `undefined`) returns `false` or `None` in the model and changes nothing.
  Examples: a SURFACE whose region slot is a hole, or a MOVE with an unknown
  letter while a scenario is in use.
- **Off-grid lookups give no cell in the services `Grid`,** as its tests
  expect of `getIndex` (test/tdd/grid.class.test.ts:50-53). Those tests do
  not cover src/app/cell-container.class.ts, whose `getIndex` has no guard;
  the model keeps both (see Findings), and the earlier trackers that look
  cells up through it use the unguarded one.
- **JavaScript `%` truncates toward zero.** It is modelled with `TruncRem`;
  `Math.floor` on non-negative operands is Dafny's `/`.
- **`parseInt`** returns `None` for NaN, and `split(' ')[i]` returns `None`
  past the last field.
- **The direction table of the services tracker.** `track-resolver.class.ts`
  imports `MOVE_STRATEGIES_SE`, which `path-finder.class.ts` does not export.
  The model uses the exported south-east table,
  `MOVE_STRATEGIES_ANTI_CLOCKWISE_SE`. MOVE only looks a letter up in it, so
  only the order of the SILENCE children depends on this choice.

## Model

| member | source | states |
|---|---|---|
| `Sequences.Drop` | src/app/services/position.class.ts:51 | the filter never lengthens the list; it keeps exactly the values not banned, each from the input |
| `Sequences.DedupSpec` | src/app/services/position.class.ts:45-54 | de-duplication outputs only input values, keeps every input value, and repeats none |
| `Sequences.DedupOfDistinct` | src/app/services/cell.class.ts:32-51 | a list without repeats is its own de-duplication |
| `Sequences.InsertionOrderKeysIsDedup` | src/app/services/cell.class.ts:35-43 | the keys of a Map filled by the reduce are the old keys followed by the first occurrences of the new values, in order |
| `Sequences.InsertionOrderKeysFromEmpty` | src/app/services/cell.class.ts:35-43 | from an empty Map the keys are exactly the first-occurrence de-duplication |
| `Positions.RemoveDuplicate` | src/app/services/position.class.ts:45-54 | the while loop (push the head, filter its copies out) returns the first-occurrence de-duplication of its input |
| `Positions.SumAppend` | src/app/services/position.class.ts:25-30 | the fold over two concatenated lists is the sum of the two folds |
| `Positions.SumOfNothingAndOfOpposites` | src/app/services/position.class.ts:25-30 | `sum()` is (0,0), and a vector plus its negation is (0,0) |
| `Positions.InstanceSum` | src/app/services/position.class.ts:64-66 | the instance `sum` is the static sum with the receiver first |
| `Positions.SumReversed` | src/app/services/position.class.ts:25-30 | the order of the arguments of `sum` does not matter |
| `Positions.MultiplyScales` | src/app/services/position.class.ts:38-43 | both components are scaled; a negated factor negates the result; scaling by f and by −f cancel |
| `Positions.EqualsAllIffOneValue` | src/app/services/position.class.ts:32-36 | `equals(...list)` holds iff the list has at most one distinct coordinate, so it holds for zero or one argument |
| `Positions.MetricsSymmetricAndSeparating` | src/app/services/position.class.ts:56-62 | Chebyshev `distance` and Manhattan `pathLength` are symmetric and zero exactly on equal points |
| `Positions.PathLengthBounds` | src/app/services/position.class.ts:56-62 | distance ≤ pathLength ≤ 2 · distance |
| `Positions.PathLengthTriangle` | src/app/services/position.class.ts:60-62 | the Manhattan metric obeys the triangle inequality |
| `CellContainers.Middle` | src/app/cell-container.class.ts:10 | the middle is the floor of half the width and half the height |
| `CellContainers.TruncRem` | src/app/cell-container.class.ts:26 | JavaScript `%` lies strictly between −b and b and agrees with the mathematical remainder on non-negative operands |
| `CellContainers.GetIndex` | test/tdd/grid.class.test.ts:48-66 | an inside point gets a valid index; every off-grid point gets −1, which is not a valid index |
| `CellContainers.CoordinatesRoundTrip` | src/app/cell-container.class.ts:25-35 | every valid index maps to an inside point, and `getIndex` gives the index back |
| `CellContainers.IndexRoundTrip` | src/app/cell-container.class.ts:25-39 | every inside point has a valid index, and `getCoordinates` gives the point back |
| `CellContainers.Corners` | test/tdd/grid.class.test.ts:21-46 | index 0 is (0,0) and width·height − 1 is (width − 1, height − 1) |
| `CellContainers.CoordinatesNonNegative` | src/app/cell-container.class.ts:25-27 | a non-negative index gives non-negative coordinates |
| `CellContainers.MiddleInside` | src/app/cell-container.class.ts:10 | the middle of a non-empty container is inside it |
| `CellContainers.AsWrittenIndexAliasesNextRow` | src/app/cell-container.class.ts:29-31 | the unguarded `getIndex` sends the off-grid point (width, 0) to the valid index of (0, 1), where the guarded version gives −1 |
| `CellContainers.AsWrittenAgreesInside` | src/app/cell-container.class.ts:29-31 | on inside points the two versions of `getIndex` agree |
| `Cells.ParseCellType` | src/app/services/cell.class.ts:3-6 | a terrain character is sea exactly when it is '.' |
| `Cells.SeaCells` | src/app/services/grid.class.ts:46-53 | the SEA filter keeps only sea cells of the input, keeps every sea cell, and never lengthens the list |
| `Cells.SeaCellsAppend` | src/app/services/grid.class.ts:50-53 | the filter distributes over concatenation, so relative order is kept |
| `Cells.RemoveDuplicate` | src/app/services/cell.class.ts:32-51 | the Map's keys after the reduce are the first-occurrence de-duplication of the cells |
| `Cells.RemoveDuplicateProperties` | src/app/services/cell.class.ts:32-51 | no repeats; the same cells as the input; no longer than the input; a repeat-free input comes back unchanged |
| `Directions.ParseDirection` | src/app/services/track-resolver.class.ts:217-218 | a direction found by letter carries that letter |
| `Directions.ParseLetterRoundTrip` | src/app/submarine.class.ts:27-32 | looking up the letter of a direction finds that direction |
| `Directions.UnitMoves` | src/app/submarine.class.ts:27-32 | every move vector has Manhattan and Chebyshev length 1 |
| `Directions.UnitVector` | src/app/submarine.class.ts:27-32 | the four unit vectors have length 1 in both metrics |
| `Directions.StepChangesPathLengthByOne` | src/app/services/path-finder.class.ts:18-23 | one move changes the Manhattan distance to any target by exactly one |
| `Directions.MoveStrategiesComplete` | src/app/services/path-finder.class.ts:18-23 | `MOVE_STRATEGIES` lists each of the four directions exactly once |
| `Surfaces.CeilDiv` | src/app/bench.ts:7 | `Math.ceil(a / b)` is the least r with a ≤ r·b |
| `Surfaces.SurfaceIndexPositive` | src/app/services/surface.class.ts:28-30 | a point with non-negative coordinates lies in a region numbered from 1 |
| `Surfaces.SurfaceIndexOnBoard` | test/tdd/surface.class.test.ts:24-45 | every cell of a 15 × 15 board lies in a region 1..9 |
| `Surfaces.ThreeColumnLayout` | src/app/services/surface.class.ts:6-7 | the layout has three region columns whatever the board width: (x + 15, y) and (x, y + 5) share a region |
| `Surfaces.CenterRoundTrip` | src/app/bench.ts:6-15 | the region of the centre of region s is s, for every s ≥ 1 |
| `Surfaces.CenterOfBlock` | src/app/grid.ts:40-48 | the centre of a point's region sits at offset (2, 2) in that point's 5 × 5 block |
| `Surfaces.KeyPosition` | src/app/services/surface.class.ts:14-17 | finds the first stored cell with the key, or the end when there is none |
| `Surfaces.Insert` | src/app/services/surface.class.ts:15 | `acc.set(cur.index, cur)` keeps indices distinct, stores the cell, adds its key, and keeps only old cells or the new one |
| `Surfaces.InsertAllKeyed` | src/app/services/surface.class.ts:14-17 | the reduce stores each index once; its keys are the old keys plus the inserted indices; it holds only stored or inserted cells |
| `Surfaces.InsertAllFresh` | src/app/services/surface.class.ts:14-17 | cells with fresh, pairwise different indices are appended as given |
| `Surfaces.NewSurface` | src/app/services/surface.class.ts:11-18 | the constructor keeps the number, keys the cells by index without repeats, and keeps exactly the indices of its argument |
| `Surfaces.SurfaceAvailableCells` | src/app/services/surface.class.ts:32-39 | `getAvailableCells` returns sea cells of the Surface only |
| `Surfaces.NewSurfaceOfDistinct` | src/app/services/surface.class.ts:11-39 | for cells with distinct indices, `cells` returns the argument and `getAvailableCells` its sea subset in the same order |
| `Grids.MakeCell` | src/app/services/grid.class.ts:14-17 | the cell made for terrain entry i has index i and a region number ≥ 1 |
| `Grids.CellsOfSurfaceMember` | src/app/services/grid.class.ts:18-21 | the bucket of region s holds exactly the cells of region s |
| `Grids.MaxSurface` | src/app/services/grid.class.ts:18-19 | the largest region number bounds every cell's region |
| `Grids.Build` | src/app/services/grid.class.ts:9-28 | the constructor loop makes one cell per terrain entry and leaves a well-formed grid: cell i has index i, coordinate `getCoordinates(i)` and that coordinate's region, and `surfaces` holds the buckets |
| `Grids.MakeCells` | src/app/services/grid.class.ts:14-23 | the first n cells made, n of them |
| `Grids.PushCell` | src/app/services/grid.class.ts:18-21 | the push grows the sparse array to the cell's region, appends the cell to that bucket only, and leaves every other bucket alone |
| `Grids.BuiltWellFormed` | src/app/services/grid.class.ts:14-27 | cells made from the terrain, with buckets equal to their region filters, form a well-formed grid |
| `Grids.BucketsGrow` | src/app/services/grid.class.ts:18-21 | one push keeps every bucket equal to the filter of its region |
| `Grids.NoCellsAbove` | src/app/services/grid.class.ts:18-21 | no cell lies in a region above the largest one |
| `Grids.GetCell` | src/app/services/grid.class.ts:38-44 | `getCell(i)` finds a cell exactly for a valid index of a stored cell, and it is `cells[i]` |
| `Grids.CellsWhere` | src/app/services/grid.class.ts:50-53 | a cell filter keeps exactly the cells satisfying its predicate, each from the input |
| `Grids.TorpedoArea` | test/tdd/grid.class.test.ts:213-229 | every torpedo-area cell is sea within Manhattan distance 4 |
| `Grids.DangerArea` | test/tdd/grid.class.test.ts:231-247 | every danger-area cell is sea within Chebyshev distance 1 |
| `Grids.TorpedoAreaWithoutDangerArea` | test/tdd/grid.class.test.ts:194-211 | every cell is sea, within Manhattan distance 4 and at Chebyshev distance greater than 1 |
| `Grids.CellNext` | src/app/services/our-submarine.class.ts:103 | every neighbour cell is at Chebyshev distance exactly 1 |
| `Grids.CellFromCoordinateFinds` | test/tdd/grid.class.test.ts:48-66 | a lookup by coordinate finds the cell at that coordinate; off the grid it finds none; on a full grid every inside point finds one |
| `Grids.CellAtOwnCoordinate` | src/app/services/grid.class.ts:14-17 | in a full built grid, looking a cell's coordinate up finds that cell |
| `Grids.CellsDistinct` | src/app/services/grid.class.ts:14-17 | in a built grid two cells are equal exactly when their indices are |
| `Grids.SurfaceBucketRegion` | src/app/services/grid.class.ts:25-27 | slot k holds the Surface numbered k + 1, and each of its cells lies in that region |
| `Grids.CellInItsSurface` | test/tdd/grid.class.test.ts:14-18 | every cell of a built grid is in the Surface of its own region |
| `Grids.BucketDistinct` | src/app/services/grid.class.ts:18-21 | a bucket never holds two cells with one index |
| `Grids.BucketOrdered` | src/app/services/grid.class.ts:14-21 | bucket indices increase, since cells are pushed in index order |
| `Grids.AvailableCellsAreSea` | src/app/services/grid.class.ts:46-53 | `getAvailableCells` holds exactly the sea cells of the grid |
| `Grids.AreasSplit` | src/app/services/track-resolver.class.ts:160-166 | the danger area lies inside the torpedo area, and the torpedo area is the disjoint union of the danger area and the rest |
| `Hypotheses.Find` | src/app/services/move-scenario.class.ts:36-38 | finds the entry with the key, or reports that none has it |
| `Hypotheses.Filter` | src/app/services/move-scenario.class.ts:52-122 | deleting the entries that fail the predicate never adds one |
| `Hypotheses.FilterMember` | src/app/services/move-scenario.class.ts:52-122 | a filter holds exactly the entries satisfying its predicate |
| `Hypotheses.CurrentCells` | src/app/services/track-resolver.class.ts:96-107 | the current cells, one per hypothesis, in entry order |
| `Hypotheses.Visit` | src/app/services/path-scenario.class.ts:28-31 | `add(c)` keeps the start, moves to c, puts c in the visited set, adds nothing else, and grows the set by one exactly when c was new |
| `Hypotheses.Entry` | src/app/services/move-scenario.class.ts:36-38 | `get(k)` finds an entry exactly when k is a key, and it is the entry under k |
| `Hypotheses.FilterKeepsAll` | src/app/services/move-scenario.class.ts:52-122 | a filter that every entry passes deletes nothing |
| `Hypotheses.FilterExtensional` | src/app/services/move-scenario.class.ts:52-122 | a filter depends only on its predicate's values on the entries |
| `Hypotheses.FilterTwice` | src/app/services/move-scenario.class.ts:52-122 | two filters in a row are one filter with both predicates |
| `Hypotheses.FilterSplits` | src/app/services/move-scenario.class.ts:52-122 | keep and exclude with complementary predicates split the entries: together they hold each entry exactly once |
| `Hypotheses.FilterKeys` | src/app/services/move-scenario.class.ts:52-122 | a filter keeps keys unique and only loses keys |
| `Hypotheses.EntryOfFilter` | src/app/services/move-scenario.class.ts:52-122 | after a filter, the entry under k is still there exactly when it passed the predicate |
| `Hypotheses.RemoveIsFilter` | src/app/services/move-scenario.class.ts:40-42 | `delete(k)` is the filter that drops key k |
| `Hypotheses.PutKeys` | src/app/services/move-scenario.class.ts:28-30 | `set` keeps keys unique, adds the new key, and holds only the new entry or old ones |
| `Hypotheses.FromStartsShape` | src/app/services/move-scenario.class.ts:8-14 | the constructor makes one fresh hypothesis per distinct start index, keyed uniquely |
| `Hypotheses.FromDistinctStarts` | src/app/services/move-scenario.class.ts:8-14 | for starts with distinct indices the entries are the fresh hypotheses in start order |
| `Hypotheses.StepKeepsStart` | src/app/services/track-resolver.class.ts:226-229 | a surviving move keeps the hypothesis' start, and so its key |
| `Hypotheses.StepMovesOneUnit` | src/app/services/track-resolver.class.ts:223-236 | on a built grid a survivor moves by exactly the unit vector onto an unvisited sea cell, which is appended to its visited cells |
| `Hypotheses.StepSurvivesIff` | src/app/services/track-resolver.class.ts:227-232 | on a full grid, a hypothesis survives MOVE iff the target is on the grid, is sea, and was not visited |
| `Hypotheses.StepKeepsTracked` | src/app/services/track-resolver.class.ts:227-229 | a move keeps the visited cells distinct with the current cell last |
| `Hypotheses.AddPositionStepOnly` | src/app/services/track-resolver.class.ts:224-234 | the `forEach` over starts with distinct indices moves the entry of each start once |
| `Hypotheses.AddPositionMovesEachOnce` | src/app/services/track-resolver.class.ts:223-236 | when the starts cover the keys, `addPosition` moves every hypothesis exactly once and drops the ones whose move fails |
| `Hypotheses.StepIsVisit` | src/app/services/path-scenario.class.ts:28-31 | a surviving move is `add` of a cell not yet visited |
| `Hypotheses.VisitKeepsTracked` | src/app/services/path-scenario.class.ts:28-35 | adding a new cell keeps the visited cells distinct and grows `size` by one |
| `PathScenarios.PathScenario.constructor` | src/app/services/path-scenario.class.ts:7-14 | the visited set is built from the given list or is {start}; the position is the given one or the start |
| `PathScenarios.PathScenario.VisitedCells` | src/app/services/path-scenario.class.ts:20-22 | the visited cells in insertion order |
| `PathScenarios.PathScenario.Has` | src/app/services/path-scenario.class.ts:24-26 | `has(c)` iff c was visited |
| `PathScenarios.PathScenario.Add` | src/app/services/path-scenario.class.ts:28-31 | the object's state becomes `Visit(old, c)` |
| `PathScenarios.PathScenario.Size` | src/app/services/path-scenario.class.ts:33-35 | the number of visited cells, each counted once |
| `PathScenarios.PathScenario.Clone` | src/app/services/path-scenario.class.ts:37-39 | a fresh object holding the same hypothesis |
| `MoveScenarios.DeleteUnless` | src/app/services/move-scenario.class.ts:52-62 | the snapshot-and-delete loop leaves exactly the entries satisfying the predicate, in order |
| `MoveScenarios.MoveScenario.constructor` | src/app/services/move-scenario.class.ts:8-14 | one fresh hypothesis per start, set in order |
| `MoveScenarios.MoveScenario.Size` | src/app/services/move-scenario.class.ts:16-18 | the number of entries, which is the number of keys |
| `MoveScenarios.MoveScenario.Values` | src/app/services/move-scenario.class.ts:20-22 | the entries in order |
| `MoveScenarios.MoveScenario.StartPositions` | src/app/services/move-scenario.class.ts:24-26 | the start of each entry, in order |
| `MoveScenarios.MoveScenario.Add` | src/app/services/move-scenario.class.ts:28-30 | sets the path under its start, replacing any entry there |
| `MoveScenarios.MoveScenario.Has` | src/app/services/move-scenario.class.ts:32-34 | `has(s)` iff s's index is a key |
| `MoveScenarios.MoveScenario.Get` | src/app/services/move-scenario.class.ts:36-38 | the entry under s's index, if any |
| `MoveScenarios.MoveScenario.Delete` | src/app/services/move-scenario.class.ts:40-42 | removes the entry under s's index |
| `MoveScenarios.MoveScenario.Clone` | src/app/services/move-scenario.class.ts:44-50 | a fresh Map with the same hypotheses in the same order |
| `MoveScenarios.MoveScenario.KeepOnlyPosition` | src/app/services/move-scenario.class.ts:52-62 | keeps exactly the entries on the cell; an undefined cell keeps none |
| `MoveScenarios.MoveScenario.KeepOnlyPositions` | src/app/services/move-scenario.class.ts:64-74 | keeps exactly the entries on one of the cells |
| `MoveScenarios.MoveScenario.ExcludePosition` | src/app/services/move-scenario.class.ts:76-86 | deletes exactly the entries on the cell |
| `MoveScenarios.MoveScenario.ExcludePositions` | src/app/services/move-scenario.class.ts:88-98 | deletes exactly the entries on one of the cells |
| `MoveScenarios.MoveScenario.KeepOnlyInSurface` | src/app/services/move-scenario.class.ts:100-110 | keeps exactly the entries in the region |
| `MoveScenarios.MoveScenario.ExcludeInSurface` | src/app/services/move-scenario.class.ts:112-122 | deletes exactly the entries in the region |
| `MoveScenarios.UniqueKeysCount` | src/app/services/move-scenario.class.ts:16-18 | with unique keys, `size` equals the number of distinct keys |
| `MoveScenarios.KeepAndExcludeSplit` | src/app/services/move-scenario.class.ts:64-122 | keep and exclude by cells, and by region, split every scenario: each entry lands in exactly one result |
| `Tracking.MinSize` | src/app/services/track-resolver.class.ts:243-250 | the `minLength` reduce never exceeds its start value MAX |
| `Tracking.MinSizeBounds` | src/app/services/track-resolver.class.ts:243-250 | `minLength` is a lower bound of every size recorded for (start, position), and is one of them unless it is MAX |
| `Tracking.MinSizeAttained` | src/app/services/track-resolver.class.ts:243-250 | a minimum below MAX is recorded by some scenario |
| `Tracking.PrunedMember` | src/app/services/track-resolver.class.ts:251-257 | pruning a scenario keeps exactly its surviving hypotheses |
| `Tracking.PruneAll` | src/app/services/track-resolver.class.ts:251-257 | pruning keeps the number of scenarios |
| `Tracking.NonEmpty` | src/app/services/track-resolver.class.ts:260 | the scenario filter keeps exactly the non-empty scenarios, and never lengthens the list |
| `Tracking.PairsMember` | src/app/services/track-resolver.class.ts:241-242 | the loops visit exactly the pairs (start index, current cell) |
| `Tracking.DeleteLongerIsFilter` | src/app/services/track-resolver.class.ts:251-257 | the inner deletion is the filter that drops the longer hypothesis of the pair |
| `Tracking.SizeAtPruned` | src/app/services/track-resolver.class.ts:251-257 | how pruning changes the size the reduce sees for one pair in one scenario |
| `Tracking.MinSizePrunedPrefix` | src/app/services/track-resolver.class.ts:243-257 | over any prefix of the scenarios, pruning changes the minimum of a pruned pair only from above the final minimum back to MAX |
| `Tracking.MinSizeBelowPrefix` | src/app/services/track-resolver.class.ts:243-250 | the minimum over the whole list is at most the minimum over a prefix |
| `Tracking.MinSizeAfterPruning` | src/app/services/track-resolver.class.ts:241-259 | deleting the longer hypotheses of any pairs never changes the minimum the next pair computes, so the loop order does not matter |
| `Tracking.PruneOnePair` | src/app/services/track-resolver.class.ts:241-259 | one round of the nested loops prunes exactly one more pair |
| `Tracking.PossiblePositions` | src/app/services/track-resolver.class.ts:96-107 | `getPossiblePositions` holds exactly the current cells of all hypotheses |
| `Tracking.ReduceOnlyDeletes` | src/app/services/track-resolver.class.ts:238-261 | every hypothesis the reduce keeps was there before, and no scenario it keeps is empty |
| `Tracking.ReduceDeletesOnlyLonger` | src/app/services/track-resolver.class.ts:238-261 | a hypothesis is deleted only when another one of the same start on the same cell is shorter, so a minimum-length hypothesis is never deleted |
| `Tracking.SurvivorKept` | src/app/services/track-resolver.class.ts:238-261 | a hypothesis that survives pruning is in some scenario afterwards |
| `Tracking.ReduceKeepsEveryPair` | src/app/services/track-resolver.class.ts:238-261 | the reduce loses no candidate: for every hypothesis before, one with the same start and current cell remains |
| `Tracking.RivalSurvives` | src/app/services/track-resolver.class.ts:243-257 | a hypothesis of at most MAX cells, or a rival of minimum length with the same start and cell, survives |
| `Tracking.VisitedBound` | src/app/services/track-resolver.class.ts:239 | a hypothesis with distinct visited cells on a full grid has visited at most width·height cells, so MAX is never undercut |
| `Tracking.UpdateRestoresInvariant` | src/app/services/track-resolver.class.ts:263-283 | from a keyed state, `updateMoveStrategies` leaves no empty scenario, unique keys that are start indices, and every start used; it keeps exactly the used starts |
| `Tracking.NonEmptySameUse` | src/app/services/track-resolver.class.ts:273-281 | dropping empty scenarios changes no start's use |
| `Tracking.StepAllShape` | src/app/services/track-resolver.class.ts:223-236 | the survivors of a move keep unique keys, gain none, and each is the move of an entry |
| `Tracking.FanOut` | src/app/services/track-resolver.class.ts:200-210 | one scenario has 4 children per direction, plus itself when the zero-length silence is kept |
| `Tracking.Silence` | src/app/services/track-resolver.class.ts:199-212 | SILENCE multiplies the number of scenarios by 17 with the services tables |
| `Tracking.AdvancedIsStraight` | src/app/services/track-resolver.class.ts:203-209 | every hypothesis of the clone advanced n steps comes from the hypothesis of the same start exactly n unit vectors back |
| `Tracking.StraightOneMore` | src/app/services/track-resolver.class.ts:205-207 | one more `addPosition` in the same direction extends a straight run by one |
| `Strategies.Rank` | src/app/services/path-finder.class.ts:26 | `orderMap.get(d)` is the last index of d in the order, −1 when absent |
| `Strategies.InsertDownKeeps` | src/app/services/path-finder.class.ts:27-28 | one insertion step of the sort keeps every entry |
| `Strategies.InsertDownSorted` | src/app/services/path-finder.class.ts:27-28 | one insertion step keeps the list sorted by descending rank |
| `Strategies.SortDownSorted` | src/app/services/path-finder.class.ts:27-28 | the sort orders by descending rank and is a permutation |
| `Strategies.AntiClockwiseSpec` | src/app/services/path-finder.class.ts:25-29 | a table is a permutation of the four moves sorted by descending rank, and its last entry (popped first) is `order[0]` |
| `Strategies.AntiClockwiseReverses` | src/app/services/path-finder.class.ts:25-29 | for an order listing each direction once, the table is that order reversed |
| `Strategies.TableNorthWest` | src/app/services/path-finder.class.ts:31-33 | the north-west table is W, N, E, S |
| `Strategies.TableNorthEast` | src/app/services/path-finder.class.ts:34-36 | the north-east table is N, E, S, W |
| `Strategies.TableSouthWest` | src/app/services/path-finder.class.ts:37-39 | the south-west table is S, W, N, E |
| `Strategies.TableSouthEast` | src/app/services/path-finder.class.ts:40-42 | the south-east table is E, S, W, N |
| `Orders.SpaceAt` | src/app/services/opponent-submarine.class.ts:54 | the first space of the token, or its end |
| `Orders.SplitJoin` | src/app/services/opponent-submarine.class.ts:54 | `split(' ')` then `join(' ')` gives the token back, and no field holds a space |
| `Orders.JoinSplit` | src/app/services/opponent-submarine.class.ts:64 | joining space-free words and splitting again gives the words back |
| `Orders.TrimStart` | src/app/services/opponent-submarine.class.ts:59 | `parseInt` skips leading white space |
| `Orders.DigitRun` | src/app/services/opponent-submarine.class.ts:59 | `parseInt` reads the longest digit prefix |
| `Orders.ShowNat` | src/app/services/opponent-submarine.class.ts:59 | the decimal rendering has at least one digit and no leading zero |
| `Orders.ParseMagnitudeShow` | src/app/services/opponent-submarine.class.ts:59 | the unsigned part of `parseInt` reads back every natural number the game prints |
| `Orders.ParseIntShow` | src/app/services/opponent-submarine.class.ts:69-70 | `parseInt` reads back every integer the game prints |
| `Orders.ParseAs` | src/app/services/opponent-submarine.class.ts:51-108 | each strategy's `parse` yields an order of its own kind |
| `Orders.Match` | src/app/services/opponent-submarine.class.ts:128 | the strategy found is the first whose name starts the token; none is found only when no name does |
| `Orders.Parse` | src/app/services/opponent-submarine.class.ts:126-134 | the parsed list is no longer than the token list |
| `Orders.ParseKeepsRecognised` | src/app/services/opponent-submarine.class.ts:126-134 | each parsed order is the parse of a token starting with its kind's name; nothing is lost exactly when every token is recognised |
| `Orders.ParsedName` | src/app/services/opponent-submarine.class.ts:128-131 | a recognised token starts with the name of the kind it is parsed as |
| `Orders.Render` | src/app/services/opponent-submarine.class.ts:51-108 | the token the game prints starts with the order's name |
| `Orders.MatchFirstWord` | src/app/services/opponent-submarine.class.ts:128 | a token is matched to the kind its first word names |
| `Orders.RenderedToken` | src/app/services/opponent-submarine.class.ts:51-108 | a printed order splits back into its words and is matched to its own kind |
| `Orders.ParseRender` | src/app/services/opponent-submarine.class.ts:51-134 | parsing the token printed for an order gives that order back, payload included |
| `Orders.FirstWith` | src/app/opponent-submarine.class.ts:117 | `find(t => t.startsWith(prefix))` finds none exactly when no token starts with the prefix, and otherwise the first one that does |
| `Orders.ParseObjectFirstWins` | src/app/opponent-submarine.class.ts:113-123 | in the object-shaped parse, a kind holds the order of the first token of that kind; later ones are ignored |
| `Tallies.Firsts` | src/app/services/track-resolver.class.ts:54 | the keys of a Map, in insertion order |
| `Tallies.CountFromSpec` | src/app/services/track-resolver.class.ts:71-94 | counting a list into a counter: keys grow in first-occurrence order, each count grows by its occurrences, the total by the length |
| `Tallies.TallySpec` | src/app/services/track-resolver.class.ts:71-94 | a counter filled from empty: keys are the distinct values in first-seen order, counts are occurrence counts, and they sum to the length |
| `Tallies.GroupFromSpec` | src/app/services/track-resolver.class.ts:55-61 | grouping a list: keys grow in first-occurrence order of the elements' keys, and each key's list grows by exactly its elements, in order |
| `Tallies.GroupSpec` | src/app/services/track-resolver.class.ts:55-61 | a grouping filled from empty: keys are the distinct keys in first-seen order, each holding exactly its elements in order |
| `TrackResolvers.MoveAll` | src/app/services/track-resolver.class.ts:219 | MOVE keeps the number of scenarios |
| `TrackResolvers.KeepWhere` | src/app/services/track-resolver.class.ts:111-149 | the forEach of a filter filters every scenario and keeps their number |
| `TrackResolvers.Found` | src/app/services/track-resolver.class.ts:115-125 | the cells found for the coordinates are exactly the lookups that succeed |
| `TrackResolvers.AddPositionKeys` | src/app/services/track-resolver.class.ts:223-236 | `addPosition` keeps keys unique and adds none, whatever the starts |
| `TrackResolvers.FanOutKeys` | src/app/services/track-resolver.class.ts:200-210 | every SILENCE child has unique keys drawn from its parent's |
| `TrackResolvers.SilenceKeyed` | src/app/services/track-resolver.class.ts:197-214 | the SILENCE fan-out keeps every scenario keyed by the starts |
| `TrackResolvers.KeepWhereKeyed` | src/app/services/track-resolver.class.ts:111-149 | filtering every scenario keeps the state keyed |
| `TrackResolvers.ReduceKeyed` | src/app/services/track-resolver.class.ts:238-261 | the reduce keeps the state keyed |
| `TrackResolvers.ReseedKeyed` | src/app/services/track-resolver.class.ts:139-140 | a reseed is keyed by its own starts |
| `TrackResolvers.MoveAllKeyed` | src/app/services/track-resolver.class.ts:216-221 | MOVE keeps the state keyed |
| `TrackResolvers.OrdersRestoreInvariant` | src/app/services/track-resolver.class.ts:109-221 | from a keyed state, every operation ending in `updateMoveStrategies` leaves no empty scenario, unique keys that are start indices, and every start used |
| `TrackResolvers.MoveShiftsByOneUnit` | src/app/services/track-resolver.class.ts:216-236 | after MOVE, every hypothesis left comes from the hypothesis of the same start one unit vector back, and has one more visited cell |
| `TrackResolvers.CountNonEmpty` | src/app/services/track-resolver.class.ts:273-275 | dropping empty scenarios keeps the number of hypotheses |
| `TrackResolvers.FilterThenUpdateDeletes` | src/app/services/track-resolver.class.ts:109-134 | a filter followed by the clean-up only deletes: each scenario left is a sub-list of one before, and the hypothesis count never grows |
| `TrackResolvers.ReduceCount` | src/app/services/track-resolver.class.ts:238-261 | the reduce never increases the hypothesis count |
| `TrackResolvers.TorpedoOnlyDeletes` | src/app/services/track-resolver.class.ts:160-182 | the torpedo filter never increases the count, and every hypothesis left sits in the torpedo zone |
| `TrackResolvers.KeepWherePositions` | src/app/services/track-resolver.class.ts:111-149 | after a filter every hypothesis sits where the filter allows |
| `TrackResolvers.UpdateKeepsPositions` | src/app/services/track-resolver.class.ts:263-283 | the clean-up keeps only hypotheses that were there |
| `TrackResolvers.ReseedPositions` | src/app/services/track-resolver.class.ts:139-140 | after a reseed every hypothesis sits on a start |
| `TrackResolvers.BuiltGridFacts` | src/app/services/grid.class.ts:14-27 | slot k holds Surface k + 1, whose cells lie in that region and belong to the grid |
| `TrackResolvers.KeepOnlyInSurfaceLands` | src/app/services/track-resolver.class.ts:136-145 | after `keepOnlyPositionsInSurface(i)` every hypothesis is in region i, whether filtered or reseeded |
| `TrackResolvers.OtherRegionCellsOutside` | src/app/services/track-resolver.class.ts:151-154 | the reseed cells of `excludePositionsInSurface(i)` lie outside region i |
| `TrackResolvers.ExcludeInSurfaceLeaves` | src/app/services/track-resolver.class.ts:147-158 | after `excludePositionsInSurface(i)` no hypothesis is in region i, whether filtered or reseeded |
| `TrackResolvers.KeepAndExcludePositionsSplit` | src/app/services/track-resolver.class.ts:115-128 | `keepOnlyPositions` and `excludePositions` split every scenario |
| `TrackResolvers.OrderKeepsKeyed` | src/app/services/track-resolver.class.ts:33-48 | every order keeps the state keyed |
| `TrackResolvers.OrdersKeepKeyed` | src/app/services/track-resolver.class.ts:26-49 | `applyOrders` ends keyed, and fails exactly when some order throws, after the earlier orders have been applied |
| `TrackResolvers.SeededKeyed` | src/app/services/track-resolver.class.ts:29-31 | seeding keeps a keyed state keyed |
| `TrackResolvers.PossiblePositionsCount` | src/app/services/track-resolver.class.ts:96-107 | one possible position per hypothesis |
| `TrackResolvers.StatsMeaning` | src/app/services/track-resolver.class.ts:51-94 | the counter's keys are the distinct current cells in first-seen order; each count is the number of hypotheses on that cell; the counts sum to the hypothesis count; the regions group the cells exactly |
| `TrackResolvers.SurfaceStartsOnGrid` | src/app/services/track-resolver.class.ts:184-188 | the new starts of SURFACE are cells of the grid |
| `TrackResolvers.SurfaceStartsDistinct` | src/app/services/track-resolver.class.ts:184-191 | the corrected SURFACE gives starts with distinct indices and a state satisfying the structural invariant |
| `TrackResolvers.SurfaceThenMoveShiftsOnce` | src/app/services/track-resolver.class.ts:184-236 | after the corrected SURFACE and a MOVE, every hypothesis has moved exactly one unit from the hypothesis of the same start |
| `TrackResolvers.SurfaceAsWrittenRepeatsStart` | src/app/services/track-resolver.class.ts:184-191 | SURFACE as written makes a cell a start twice when two hypotheses share it |
| `TrackResolvers.SurfaceAsWrittenMovesTwice` | src/app/services/track-resolver.class.ts:184-236 | after SURFACE as written, a MOVE E advances the reseeded hypothesis two cells |
| `TrackResolvers.AddPositionRepeated` | src/app/services/track-resolver.class.ts:224-234 | a start listed twice is advanced twice |
| `TrackResolvers.MoveByLetter` | src/app/services/track-resolver.class.ts:216-221 | MOVE with a direction's letter advances every scenario, then cleans up |
| `TrackResolvers.AdvanceByEntry` | src/app/services/track-resolver.class.ts:225-232 | a start without an entry changes nothing; one with an entry moves it or deletes it |
| `TrackResolvers.AdvanceScenario` | src/app/services/track-resolver.class.ts:223-236 | the `forEach` over starts computes `addPosition` |
| `TrackResolvers.MinLength` | src/app/services/track-resolver.class.ts:243-250 | the reduce loop computes `minLength` |
| `TrackResolvers.DeleteLongerAll` | src/app/services/track-resolver.class.ts:251-257 | the deleting loop applies the per-pair deletion to every scenario |
| `TrackResolvers.DropEmpty` | src/app/services/track-resolver.class.ts:273-275 | the loop keeps exactly the non-empty scenarios, in order |
| `TrackResolvers.StartInUse` | src/app/services/track-resolver.class.ts:278-279 | `some(ms => ms.has(start))` |
| `TrackResolvers.KeepUsedStarts` | src/app/services/track-resolver.class.ts:276-281 | the loop keeps exactly the used starts, in order |
| `TrackResolvers.ReduceScenarios` | src/app/services/track-resolver.class.ts:238-261 | the nested loops compute the reduce over the given cells |
| `TrackResolvers.RunOf` | src/app/services/track-resolver.class.ts:204-208 | the length loop makes four chained clones, each one step further |
| `TrackResolvers.Children` | src/app/services/track-resolver.class.ts:200-210 | the children of a scenario: itself, then four clones per direction of the table |
| `TrackResolvers.SilenceAll` | src/app/services/track-resolver.class.ts:199-212 | the map and flattening reduce compute the fan-out of every scenario |
| `TrackResolvers.AnyStartInUse` | src/app/services/track-resolver.class.ts:224-225 | whether some scenario holds some start, so `addPosition` reads the move vector |
| `TrackResolvers.CountVisited` | src/app/services/track-resolver.class.ts:81-88 | the inner loop counts the visited cells into the counter |
| `TrackResolvers.GroupByRegion` | src/app/services/track-resolver.class.ts:55-61 | the reduce groups the cells by region |
| `TrackResolvers.TrackResolver.constructor` | src/app/services/track-resolver.class.ts:21-24 | every sea cell is a start and there is no scenario |
| `TrackResolvers.TrackResolver.UpdateMoveStrategies` | src/app/services/track-resolver.class.ts:263-283 | the fields become `Update(old)`, and the structural invariant holds |
| `TrackResolvers.TrackResolver.ReduceMoveStrategies` | src/app/services/track-resolver.class.ts:238-261 | the fields become `AfterReduce(old)` |
| `TrackResolvers.TrackResolver.Move` | src/app/services/track-resolver.class.ts:216-221 | succeeds exactly when `AfterMove` does and then holds its result; otherwise nothing changes |
| `TrackResolvers.TrackResolver.AdvanceAll` | src/app/services/track-resolver.class.ts:219 | every scenario advanced in place; the starts stay |
| `TrackResolvers.TrackResolver.SilenceMove` | src/app/services/track-resolver.class.ts:197-214 | the fields become `AfterSilence(old)` |
| `TrackResolvers.TrackResolver.FilterScenarios` | src/app/services/track-resolver.class.ts:111-149 | every scenario is filtered in place; the starts stay |
| `TrackResolvers.TrackResolver.KeepOnlyPosition` | src/app/services/track-resolver.class.ts:109-113 | the fields become `AfterKeepOnlyPosition(old)` |
| `TrackResolvers.TrackResolver.KeepOnlyPositions` | src/app/services/track-resolver.class.ts:115-120 | the fields become `AfterKeepOnlyPositions(old)` |
| `TrackResolvers.TrackResolver.ExcludePosition` | src/app/services/track-resolver.class.ts:130-134 | the fields become `AfterExcludePosition(old)` |
| `TrackResolvers.TrackResolver.ExcludePositions` | src/app/services/track-resolver.class.ts:122-128 | the fields become `AfterExcludePositions(old)` |
| `TrackResolvers.TrackResolver.ReseedFrom` | src/app/services/track-resolver.class.ts:139-140 | the starts become the cells, with one fresh scenario |
| `TrackResolvers.TrackResolver.TorpedoAttack` | src/app/services/track-resolver.class.ts:160-195 | the fields become `AfterTorpedo(old)` |
| `TrackResolvers.TrackResolver.KeepOnlyPositionsInSurface` | src/app/services/track-resolver.class.ts:136-145 | succeeds exactly when `AfterKeepOnlyInSurface` does and then holds its result; otherwise nothing changes |
| `TrackResolvers.TrackResolver.ExcludePositionsInSurface` | src/app/services/track-resolver.class.ts:147-158 | succeeds exactly when `AfterExcludeInSurface` does and then holds its result; otherwise nothing changes |
| `TrackResolvers.TrackResolver.Surface` | src/app/services/track-resolver.class.ts:184-191 | the corrected SURFACE: succeeds exactly when `AfterSurface` does and then holds its result |
| `TrackResolvers.TrackResolver.ApplyOrder` | src/app/services/track-resolver.class.ts:33-48 | one order, as `AfterOrder` |
| `TrackResolvers.TrackResolver.ApplyOrders` | src/app/services/track-resolver.class.ts:26-49 | the state and the success flag are `AfterOrders(old)` |
| `TrackResolvers.TrackResolver.GetStats` | src/app/services/track-resolver.class.ts:71-94 | the two counters of current and visited cells, computed by the nested loops |
| `TrackResolvers.TrackResolver.GetPositionsStats` | src/app/services/track-resolver.class.ts:51-69 | the statistics of the current state; nothing changes |
| `PathFinders.Moves` | src/app/services/path-finder.class.ts:209-216 | each offered move is a move of the table whose target is an existing cell |
| `PathFinders.MovesComplete` | src/app/services/path-finder.class.ts:209-216 | every move of the table whose target exists is offered |
| `PathFinders.MovesStayOnBoard` | src/app/services/path-finder.class.ts:209-216 | on a built grid each offered move lands one unit away in its direction, and every move that stays on the board is offered |
| `PathFinders.Within` | src/app/services/path-finder.class.ts:236-239 | exactly the offered moves whose target is still available, and nothing else |
| `PathFinders.NoPathsStuck` | src/app/services/path-finder.class.ts:236-239 | no available path means every move of the table leaves the board or lands on a used cell |
| `PathFinders.QuadrantTables` | src/app/services/path-finder.class.ts:218-228 | the table chosen for a cell holds each direction once, and its last entry (the first tried) is the one its quadrant prescribes |
| `PathFinders.StartCandidates` | src/app/services/path-finder.class.ts:67-69 | exactly the grid cells that are sea corners or the middle cell |
| `PathFinders.WalkBounded` | src/app/services/path-finder.class.ts:167-207 | a walk uses each usable cell at most once, so it has at most one node more than there are usable cells |
| `PathFinders.WalkAtLeastPathLength` | src/app/services/path-finder.class.ts:75-122 | a walk on a built grid needs at least `pathLength` moves to reach its last cell |
| `PathFinders.SnapshotIsWalk` | src/app/services/path-finder.class.ts:195-199 | the copy a search takes of its stack is a walk from the start cell |
| `PathFinders.LongestPath` | src/app/services/path-finder.class.ts:167-207 | from a sea cell the result is a walk through unused cells that ends where no move is left; from any other cell it is empty |
| `PathFinders.Towards` | src/app/services/path-finder.class.ts:75-122 | a non-empty result is a walk from the start that ends on the target and has exactly `pathLength + 1` nodes, the fewest possible |
| `PathFinders.CloserStep` | src/app/services/path-finder.class.ts:88-91 | every move the search tries brings it one unit closer to the target, so the stack never outgrows the distance |
| `PathFinders.SettleLength` | src/app/services/path-finder.class.ts:174 | nine tenths of the usable cells, rounded down |
| `PathFinders.PathFinder.constructor` | src/app/services/path-finder.class.ts:45-49 | no cell is visited and the table is the north-east one |
| `PathFinders.PathFinder.AddVisitedCell` | src/app/services/path-finder.class.ts:55-57 | the cell joins the visited set; nothing else changes |
| `PathFinders.PathFinder.ClearVisitedCell` | src/app/services/path-finder.class.ts:59-61 | the visited set becomes empty; nothing else changes |
| `PathFinders.PathFinder.DefineStrategiesOrder` | src/app/services/path-finder.class.ts:218-228 | the table becomes the one of the cell's quadrant; the visited set stays |
| `PathFinders.PathFinder.SearchShortestPath` | src/app/services/path-finder.class.ts:75-122 | empty unless both ends are sea and the end is unvisited; a non-empty result is a shortest walk to the end through unvisited cells |
| `PathFinders.PathFinder.SearchTorpedoPath` | src/app/services/path-finder.class.ts:124-165 | a non-empty result is a shortest walk to the end through sea cells, visited or not |
| `PathFinders.PathFinder.SearchLongestPath` | src/app/services/path-finder.class.ts:167-207 | from a sea cell, a walk through unvisited cells that ends with no move left; the visited set stays |
| `PathFinders.PathFinder.SearchStartCell` | src/app/services/path-finder.class.ts:67-73 | nothing exactly when there is no candidate; otherwise the first candidate whose searched path is longest, with that path, where each candidate's path is a walk from it through unvisited sea that cannot be extended |
| `PathResolvers.PossibleCells` | src/app/services/path-resolver.class.ts:125-135 | each current cell once, and nothing else |
| `PathResolvers.PairsSameCells` | src/app/services/path-resolver.class.ts:306-329 | the pairs the reduce visits depend only on which cells are listed |
| `PathResolvers.DedupReduceSame` | src/app/services/path-resolver.class.ts:306-329 | reducing over the de-duplicated cells gives the same state as the newer tracker's reduce, and so does SILENCE |
| `PathResolvers.NearTorpedoIsDamagingTorpedo` | src/app/services/path-resolver.class.ts:260-277 | the torpedo filter is the newer tracker's filter for a torpedo that did damage |
| `PathResolvers.NearTorpedoKeepsInRange` | src/app/services/path-resolver.class.ts:260-277 | the filter only deletes, and every hypothesis left is on a sea cell within distance 4 of the target; a NaN target leaves none |
| `PathResolvers.RegionCells` | src/app/services/path-resolver.class.ts:99-100 | exactly the listed cells of the region, none when the list has none, indices kept distinct |
| `PathResolvers.SurfaceCellsMeaning` | src/app/services/path-resolver.class.ts:98-103 | the new starts are the tracked cells of the region when there is one, otherwise every sea cell of the region |
| `PathResolvers.SurfaceCellsDistinct` | src/app/services/path-resolver.class.ts:98-103 | on a built grid no index appears twice among the new starts |
| `PathResolvers.SurfaceReseedsInRegion` | src/app/services/path-resolver.class.ts:98-103 | after SURFACE every hypothesis is fresh on a new start, every start is in the region, and the structural invariant holds |
| `PathResolvers.SurfaceThenMoveShiftsOnceHere` | src/app/services/path-resolver.class.ts:98-103 | after SURFACE then MOVE each hypothesis is one unit from the hypothesis of the same start |
| `PathResolvers.ResolverOrderRestoresInvariant` | src/app/services/path-resolver.class.ts:69-104 | MOVE, SILENCE, TORPEDO and SURFACE leave no empty scenario and no unused start |
| `PathResolvers.ResolverOrderKeepsKeyed` | src/app/services/path-resolver.class.ts:69-104 | every order keeps each scenario keyed by distinct starts |
| `PathResolvers.ResolverOrdersStopAtThrow` | src/app/services/path-resolver.class.ts:69-104 | the orders fail exactly when one throws, at the first such order, after all orders before it |
| `PathResolvers.ResolverStatsMeaning` | src/app/services/path-resolver.class.ts:108-123 | each current cell once, the scenario count, and under each region exactly its cells, regions in first-seen order |
| `PathResolvers.CurrentCellsOf` | src/app/services/path-resolver.class.ts:126-133 | the loop collects the current cells of every scenario in order |
| `PathResolvers.PathResolver.constructor` | src/app/services/path-resolver.class.ts:29-32 | every sea cell is a start and there is no scenario |
| `PathResolvers.PathResolver.UpdateMoveStrategies` | src/app/services/path-resolver.class.ts:331-343 | the fields become `Update(old)`, and the structural invariant holds |
| `PathResolvers.PathResolver.GetPossiblePositions` | src/app/services/path-resolver.class.ts:125-135 | the de-duplicated current cells; nothing changes |
| `PathResolvers.PathResolver.ReduceMoveStrategies` | src/app/services/path-resolver.class.ts:306-329 | the fields become the reduce over the de-duplicated cells |
| `PathResolvers.PathResolver.Move` | src/app/services/path-resolver.class.ts:71-76 | succeeds exactly when `AfterMove` does and then holds its result; otherwise nothing changes |
| `PathResolvers.PathResolver.AdvanceAll` | src/app/services/path-resolver.class.ts:74 | every scenario advanced in place; the starts stay |
| `PathResolvers.PathResolver.SilenceMove` | src/app/services/path-resolver.class.ts:77-94 | the fields become `AfterResolverSilence(old)` |
| `PathResolvers.PathResolver.FilterScenarios` | src/app/services/path-resolver.class.ts:137-153 | every scenario is filtered in place; the starts stay |
| `PathResolvers.PathResolver.KeepOnlyPosition` | src/app/services/path-resolver.class.ts:137-153 | the fields become `AfterKeepOnlyPosition(old)` |
| `PathResolvers.PathResolver.KeepOnlyPositions` | src/app/services/path-resolver.class.ts:155-172 | the fields become `AfterKeepOnlyPositions(old)` |
| `PathResolvers.PathResolver.ExcludePositions` | src/app/services/path-resolver.class.ts:174-192 | the fields become `AfterExcludePositions(old)` |
| `PathResolvers.PathResolver.ExcludePosition` | src/app/services/path-resolver.class.ts:194-210 | the fields become `AfterExcludePosition(old)` |
| `PathResolvers.PathResolver.ReseedFrom` | src/app/services/path-resolver.class.ts:279-288 | the starts become the cells, with one fresh scenario |
| `PathResolvers.PathResolver.KeepOnlyPositionsInSurface` | src/app/services/path-resolver.class.ts:212-233 | for a defined or undefined region, succeeds exactly when `AfterResolverKeepInSurface` does and then holds its result; otherwise nothing changes |
| `PathResolvers.PathResolver.ExcludePositionsInSurface` | src/app/services/path-resolver.class.ts:235-258 | for a defined or undefined region, succeeds exactly when `AfterResolverExcludeInSurface` does and then holds its result; otherwise nothing changes |
| `PathResolvers.UndefinedRegionFilters` | src/app/services/path-resolver.class.ts:212-258 | with an undefined region, keeping its hypotheses leaves no scenario and no start, and excluding it with scenarios present only drops empty scenarios and unused starts |
| `PathResolvers.FilterKeepsNone` | src/app/services/path-resolver.class.ts:221-228 | a filter whose predicate holds for nothing empties the scenario |
| `PathResolvers.NonEmptyOfEmpties` | src/app/services/path-resolver.class.ts:221-228 | removing empty scenarios from a list of empty scenarios leaves none |
| `PathResolvers.NoStartUsed` | src/app/services/path-resolver.class.ts:221-228 | with no scenario left, no start cell is in use |
| `PathResolvers.PathResolver.KeepOnlyPositionsNearTorpedoArea` | src/app/services/path-resolver.class.ts:260-277 | the fields become `AfterNearTorpedo(old)` |
| `PathResolvers.PathResolver.SurfaceOrder` | src/app/services/path-resolver.class.ts:98-103 | the fields become `AfterResolverSurface(old)` |
| `PathResolvers.PathResolver.ApplyOrder` | src/app/services/path-resolver.class.ts:70-104 | one order, as `AfterResolverOrder` |
| `PathResolvers.PathResolver.ApplyMoveOrders` | src/app/services/path-resolver.class.ts:62-106 | the state and the success flag are `AfterMoveOrders(old)` |
| `PathResolvers.PathResolver.GetPositionsStats` | src/app/services/path-resolver.class.ts:108-123 | the statistics of the current state; nothing changes |
| `PathResolvers.OpponentSubmarine.constructor` | src/app/services/opponent-submarine.class.ts:115-118 | the opponent starts with six lives and nothing lost, and its tracker starts from every sea cell with no scenario |
| `PathResolvers.OpponentSubmarine.SetOrders` | src/app/services/opponent-submarine.class.ts:126-138 | the tracker applies exactly the parsed orders |
| `Submarines.AfterSetLife` | src/app/services/submarine.class.ts:21-24 | the new life is the value set, and life plus lost is the old life |
| `Submarines.LostIsLatestDrop` | src/app/services/submarine.class.ts:21-24 | after several updates the life is the last value and `lost` only the last drop |
| `OurSubmarines.NextPower` | src/app/services/our-submarine.class.ts:315-326 | TORPEDO exactly while the torpedo charges; SONAR exactly on turns 1 modulo 3 with no located opponent once the torpedo is ready; SILENCE only while it charges; nothing exactly where the distance would be asked of an undefined position; MINE only when SILENCE is not charging or the located opponent is ten or more moves away |
| `OurSubmarines.LeadingRun` | src/app/services/our-submarine.class.ts:162-165 | the count of leading nodes moving the given way, stopped at the cap, and the node after the run moves otherwise |
| `OurSubmarines.SilenceOf` | src/app/services/our-submarine.class.ts:156-167 | a path of at most four nodes gives WEST 0; a longer one gives its first direction and a length from 1 to 4 covering exactly the leading nodes that move that way, up to four |
| `OurSubmarines.Box` | src/app/services/our-submarine.class.ts:186-198 | the two corners bound every candidate on both axes, and each bound is reached by some candidate |
| `OurSubmarines.AsWrittenMaxIsLast` | src/app/services/our-submarine.class.ts:192-195 | the reduce as written leaves the last candidate as the maximum, while its minimum is the true one |
| `OurSubmarines.EstimateCoordinateMeaning` | src/app/services/our-submarine.class.ts:199-204 | with the true box, an estimate exists exactly when all candidates fit in a 3 × 3 box, and it is then within one cell of each on both axes |
| `OurSubmarines.AsWrittenEstimateMissesCandidate` | src/app/services/our-submarine.class.ts:185-204 | for (0,0), (5,0), (1,0) the estimate as written is (0,0), five columns from a candidate, where the true box gives none |
| `OurSubmarines.EstimateNearEveryCandidate` | src/app/services/our-submarine.class.ts:185-207 | an estimated opponent cell is within one cell of every possible position; one candidate is itself the estimate; none or five and more give no estimate |
| `OurSubmarines.FirstMax` | src/app/services/our-submarine.class.ts:274-276 | an entry with the largest count, before which every count is smaller, as the stable descending sort puts first |
| `OurSubmarines.CountAtEntry` | src/app/services/our-submarine.class.ts:268-273 | in the counting Map each entry's count is how often its region occurs |
| `OurSubmarines.SonarRegionMeaning` | src/app/services/our-submarine.class.ts:265-280 | a region is asked exactly when there are more than ten candidates in more than one region; it is one of theirs, the most frequent, and the first met among the most frequent |
| `OurSubmarines.Neighbours` | src/app/services/our-submarine.class.ts:103 | exactly the target's neighbour cells that are also possible positions |
| `OurSubmarines.MissPositions` | src/app/services/our-submarine.class.ts:105-107 | after excluding cells, no hypothesis sits on one of them and no scenario is added |
| `OurSubmarines.KeepPositions` | src/app/services/our-submarine.class.ts:114-116 | after keeping cells, every hypothesis sits on one of them and no scenario is added |
| `OurSubmarines.HitPositions` | src/app/services/our-submarine.class.ts:109-112 | after excluding the target and keeping its neighbours, every hypothesis sits on a neighbour that is not the target, and no scenario is added |
| `OurSubmarines.FeedbackPositions` | src/app/services/our-submarine.class.ts:99-123 | a miss leaves no hypothesis next to the target; one damage leaves each on a neighbour and none on the target; two damages leave each on the target; no scenario is ever added |
| `OurSubmarines.SonarResultLands` | src/app/services/our-submarine.class.ts:64-76 | on a built grid a "Y" for a region leaves every hypothesis in it, an "N" leaves none in it, and any other answer changes nothing |
| `OurSubmarines.FollowRun` | src/app/services/our-submarine.class.ts:159-165 | the loop takes exactly the SILENCE length and marks visited exactly the cells it passes after the first, and nothing else |
| `OurSubmarines.OurSubmarine.constructor` | src/app/services/our-submarine.class.ts:42-56 | six lives, no path, no position, turn 0, sonar answer "NA", cooldowns unset, an empty visited set |
| `OurSubmarines.OurSubmarine.SetPosition` | src/app/services/our-submarine.class.ts:130-134 | the position is the cell looked up at (x, y), it joins the visited set when defined, and the turn goes up by one |
| `OurSubmarines.OurSubmarine.SetCooldown` | src/app/services/our-submarine.class.ts:136-138 | the four cooldowns are stored; nothing else changes |
| `OurSubmarines.OurSubmarine.SearchStartCell` | src/app/services/our-submarine.class.ts:140-144 | nothing, with no change, exactly when there is no candidate; otherwise a candidate whose stored path is a walk from it through unvisited sea that cannot be extended |
| `OurSubmarines.OurSubmarine.RefreshPath` | src/app/services/our-submarine.class.ts:149-151 | a path with a first move is kept; otherwise a longest walk from the position replaces it, and no position means failure with no change |
| `OurSubmarines.OurSubmarine.SilenceStep` | src/app/services/our-submarine.class.ts:156-167 | SILENCE in the run's direction for the run's length; the path loses the run, and the run's later cells become visited |
| `OurSubmarines.OurSubmarine.GetMoveActions` | src/app/services/our-submarine.class.ts:146-174 | one priority-1 action: SURFACE with the visited set cleared when no move is left; SILENCE along the leading run while SILENCE is ready; otherwise MOVE one node with the next power; failure exactly where the source throws |
| `OurSubmarines.OurSubmarine.TorpedoChoice` | src/app/services/our-submarine.class.ts:228-240 | the shot is always at the target; priority 0 within three moves; some shot whenever either end is within four; priority 2 only from four or more moves |
| `OurSubmarines.OurSubmarine.Locate` | src/app/services/our-submarine.class.ts:177-207 | attacks forgotten, the possible positions read from the tracker, and the opponent estimated from them |
| `OurSubmarines.OurSubmarine.Aim` | src/app/services/our-submarine.class.ts:225-250 | with the torpedo ready and the target within reach, one TORPEDO is emitted and recorded as the attack; failure exactly for an undefined position or target |
| `OurSubmarines.OurSubmarine.ChooseSonar` | src/app/services/our-submarine.class.ts:265-285 | with the sonar ready and more than five candidates the asked region becomes `SonarRegion`; a SONAR order is emitted exactly for a defined non-zero region |
| `OurSubmarines.OurSubmarine.GetOtherActions` | src/app/services/our-submarine.class.ts:176-313 | LOOKOUT when located and HUNTING otherwise, a torpedo shot whenever the target is within reach, the sonar order of `ChooseSonar`; failure where a mine would be placed |
| `OurSubmarines.OurSubmarine.UpdateOpponentPosition` | src/app/services/our-submarine.class.ts:99-123 | after exactly one MINE or one recharging TORPEDO the tracker becomes `AfterFeedback` for the opponent's loss; otherwise it is unchanged |
| `OurSubmarines.OurSubmarine.SetSonarResult` | src/app/services/our-submarine.class.ts:64-76 | the answer is stored; the tracker becomes `AfterSonarResult` for the region last asked, or is unchanged where that throws |
| `Submarines.ReplayFromStart` | src/app/submarine.class.ts:36-47 | from a new submarine: life the last value or 6, lost the last drop or 0 |
| `Submarines.RaiseGivesNegativeLoss` | src/app/services/submarine.class.ts:21-24 | raising the life makes `lost` negative |
| `Submarines.LossForgetsHistory` | src/app/services/submarine.class.ts:21-24 | the loss does not depend on earlier losses |
| `Submarines.Submarine.constructor` | src/app/services/submarine.class.ts:19-26 | six lives, none lost |
| `Submarines.Submarine.SetLife` | src/app/services/submarine.class.ts:21-24 | the fields become `AfterSetLife(old)` |
| `EarlyGrids.GridIndexRoundTrip` | src/app/grid.ts:108-110 | on the board, the row-major number and `getPosition` undo each other in both directions |
| `EarlyGrids.SearchStartPosition` | src/app/grid.ts:60-62 | the start `searchStartPosition` proposes is the origin, the position of cell 0 |
| `EarlyGrids.RunAwayReflects` | src/app/grid.ts:147-149 | `runAway` reflects a point through the centre of the board, so applying it twice gives the point back; it sends the origin off the board |
| `EarlyGrids.SeaCellsBelowSound` | src/app/grid.ts:133-137 | every position listed for the first `n` entries is a sea cell numbered below `n`, and none repeats |
| `EarlyGrids.SeaCellsBelowComplete` | src/app/grid.ts:133-137 | every sea cell numbered below `n` is listed |
| `EarlyGrids.SeaCellsExactly` | src/app/grid.ts:133-137 | `getSeaCells` lists exactly the sea cells of the board, each once |
| `EarlyGrids.LastDedup` | src/ocean-of-code.ts:81-90 | de-duplication from the end never lengthens the list |
| `EarlyGrids.RemoveDuplicateFromEnd` | src/ocean-of-code.ts:81-90 | the pop, push and filter loop computes the de-duplication from the end |
| `EarlyGrids.LastDedupIsReversedDedup` | src/ocean-of-code.ts:81-90 | de-duplicating from the end is the first-occurrence de-duplication of the reversed list: each coordinate is kept at its last occurrence, listed from the back |
| `EarlyGrids.LastDedupSpec` | src/ocean-of-code.ts:81-90 | `removeDuplicate` returns exactly the coordinates of its input, each once |
| `EarlyGrids.BoardGrid` | src/app/grid.ts:30-31 | the terrain read as a cell table has one cell per terrain entry and the board's size |
| `EarlyGrids.BoardCellAt` | src/app/grid.ts:116-131 | cell `i` of the table carries number `i`, sits at `getPosition(i)`, and is sea exactly when the terrain says so |
| `EarlyGrids.BoardLookup` | src/app/grid.ts:116-123 | a point finds a cell exactly when it is on the board and numbers a terrain entry; the cell found sits at the point and carries its number |
| `EarlyGrids.WayPoolMember` | src/app/grid.ts:67-70 | a cell is a candidate of the search exactly when it is sea, not visited, and not the start; once the start is visited, exactly when it is sea and not visited, as in `availablePositions` |
| `EarlyGrids.WayPoolAgainstAvailablePositions` | src/app/grid.ts:67-70 | the search's candidates are never more than `availablePositions`, are all of it once the start is visited, and lack only the start cell when that is unvisited sea |
| `EarlyGrids.NeighbourInPool` | src/app/grid.ts:64-106 | an available neighbour of the start is a candidate of the search other than the start |
| `EarlyGrids.SurfaceIffBoxedIn` | src/ocean-of-code.ts:445-447 | the loop surfaces (the walk has no first move) exactly when no neighbour of our position is available |
| `EarlyGrids.FirstMoveAvailable` | src/ocean-of-code.ts:119-161 | the first move of the searched walk always goes to an available neighbour of the start |
| `EarlyGrids.EarlyGrid.constructor` | src/app/grid.ts:28-31 | the board as given, nothing visited |
| `EarlyGrids.EarlyGrid.SetCurrentCell` | src/app/grid.ts:33-35 | the point's number is appended to the visited list, and the point is no longer available |
| `EarlyGrids.EarlyGrid.ClearVisitedCells` | src/app/grid.ts:56-58 | the visited list is emptied, so every sea entry is available again |
| `EarlyGrids.EarlyGrid.SearchLongestWay` | src/app/grid.ts:64-106 | from a sea cell, a walk through the sea cells not visited that cannot be extended at its end |
| `OceanTracking.GetPower` | src/ocean-of-code.ts:208-218 | TORPEDO exactly while the torpedo charges; otherwise SONAR on turns not divisible by three while the sonar charges, SILENCE on multiples of three while it charges, MINE when neither applies |
| `OceanTracking.GetPowerAgainstNextPower` | src/app/services/our-submarine.class.ts:315-326 | the later services `nextPower` agrees on the torpedo and on SILENCE, its SONAR is a SONAR here, and on turns 2 modulo 3 only this rule still charges the sonar |
| `OceanTracking.ReadSonar` | src/ocean-of-code.ts:277-296 | "Y" pins the asked region as inside and "N" as outside, only for a defined non-zero region and an answer other than NA; the question is withdrawn exactly then |
| `OceanTracking.Kept` | src/ocean-of-code.ts:299-315 | `filter` keeps exactly the elements that pass and never lengthens the list |
| `OceanTracking.KeptSplits` | src/ocean-of-code.ts:299-315 | a filter and its complement share the list out between them |
| `OceanTracking.NarrowMeaning` | src/ocean-of-code.ts:298-316 | the region filter only deletes; a start stays exactly when some offset takes it into the region, an offset stays exactly when it takes every remaining start there |
| `OceanTracking.NarrowToNaN` | src/ocean-of-code.ts:333-342 | a SURFACE whose region does not parse drops every start and keeps every offset |
| `OceanTracking.Shifted` | src/ocean-of-code.ts:330-331 | every offset is moved by the vector, in order |
| `OceanTracking.MoveOffsetsMeaning` | src/ocean-of-code.ts:327-332 | MOVE with a known direction succeeds; each new offset is an old one moved one unit that way, and a move between two points of the board is never dropped |
| `OceanTracking.MoveUnknownDirection` | src/ocean-of-code.ts:328-332 | an unknown direction throws exactly when there is an offset to move |
| `OceanTracking.Stretch` | src/ocean-of-code.ts:346-351 | the four points one to four units away in the direction |
| `OceanTracking.Shifts` | src/ocean-of-code.ts:345-352 | four shifts per direction of the table |
| `OceanTracking.ShiftsMember` | src/ocean-of-code.ts:345-352 | the shifts are exactly the points one to four units away in a direction of the table |
| `OceanTracking.AllShifts` | src/ocean-of-code.ts:344-354 | sixteen shifts per offset |
| `OceanTracking.AllShiftsMember` | src/ocean-of-code.ts:344-354 | the flattened list holds exactly the silence shifts of some offset |
| `OceanTracking.SilenceOffsetsMeaning` | src/ocean-of-code.ts:343-359 | after SILENCE the offsets are, each once, exactly the one-to-four-unit straight shifts of an old offset that some start takes to a sea cell |
| `OceanTracking.ProductsMember` | src/ocean-of-code.ts:376-379 | the flattened map holds exactly start + offset for every pair |
| `OceanTracking.CurrentPositionsMeaning` | src/ocean-of-code.ts:376-384 | the candidates are, each once, exactly the sea points some start reaches by some offset |
| `OceanTracking.TorpedoAsWrittenEmpties` | src/ocean-of-code.ts:386-393 | as written, any TORPEDO order removes every candidate, since "O" and "R" are not numbers |
| `OceanTracking.TorpedoFilterMeaning` | src/ocean-of-code.ts:386-393 | reading the order by words, "TORPEDO x y" keeps exactly the candidates within four moves of (x, y) |
| `OceanTracking.TorpedoAsWrittenDropsImpact` | src/ocean-of-code.ts:389 | "TORPEDO 3 5" as written drops the candidate (3, 5), the impact point itself |
| `OceanTracking.FirstIncludingAt` | src/ocean-of-code.ts:323-326 | `find` stops at the first order that includes the word; no earlier order includes it |
| `OceanTracking.ApplyOrders` | src/ocean-of-code.ts:323-369 | the turn fails exactly for a MOVE with an unknown direction and offsets to move; otherwise the starts only shrink, and without SURFACE they are unchanged |
| `OceanTracking.PruneKeepsCandidates` | src/ocean-of-code.ts:371-374 | dropping the starts no offset takes to sea never changes the candidates |
| `OceanTracking.RegionsOfPoints` | src/ocean-of-code.ts:381-384 | each candidate is paired with its own region |
| `OceanTracking.LocateMeaning` | src/ocean-of-code.ts:399-428 | with the true box: no candidate changes nothing, one is the opponent, several in a 4 × 4 box give a point within two cells of each, several others drop the estimate and pick a region only when the sonar is ready |
| `OceanTracking.LocateAsWrittenMisplaces` | src/ocean-of-code.ts:400-415 | as written, the candidates (0,0), (5,0), (1,0) place the opponent at (0,0), five columns from (5,0); with the true box nothing changes |
| `OceanTracking.MinesLeftMeaning` | src/ocean-of-code.ts:433-441 | the fired mines and the mines left share out the mines laid; a mine fires exactly when the opponent is within two moves of it and we are not |
| `OceanTracking.MinesAsWrittenForgets` | src/ocean-of-code.ts:434-440 | as written, the fired mine (0,0) is kept and the unfired (9,9) forgotten |
| `OceanTracking.Numbers` | src/ocean-of-code.ts:474 | the numbers recorded are the row-major numbers of the points, in order |
| `OceanTracking.GridIndexInjective` | src/ocean-of-code.ts:163-165 | two points of the board with the same number are the same point |
| `OceanTracking.VisitKeepsOthers` | src/ocean-of-code.ts:473-474 | marking a point visited leaves every other point of the board as available as it was |
| `OceanTracking.RunFromMeaning` | src/ocean-of-code.ts:468-478 | the SILENCE run is a straight line of available points that stops at its room or at the first point that is not available |
| `OceanTracking.RunFromPoints` | src/ocean-of-code.ts:471-477 | the `k`-th point of the run is `k + 1` steps from where the loop starts, and was available before the run |
| `OceanTracking.RunFromStops` | src/ocean-of-code.ts:473 | a run shorter than its room stops at a point that is not available |
| `OceanTracking.Triggers` | src/ocean-of-code.ts:437 | one TRIGGER per fired mine, in laying order |
| `OceanTracking.Plan` | src/ocean-of-code.ts:449-486 | MOVE with `getPower`'s choice exactly when SILENCE is not ready, SILENCE exactly when it is, MINE exactly when ready, a TORPEDO exactly at an estimate three or four moves away with the torpedo ready, SONAR exactly for a region to ask about; all in the walk's first direction |
| `OceanTracking.OceanBot.constructor` | src/ocean-of-code.ts:236-245 | every sea cell may be the opponent's start and it has not moved; no mine, no estimate, no question, nothing visited |
| `OceanTracking.OceanBot.Observe` | src/ocean-of-code.ts:277-428 | our position is marked visited; the tracker and the estimate become those of the sonar answer, the orders and the candidates; failure, with nothing else changed, exactly where the loop throws |
| `OceanTracking.OceanBot.SilenceRun` | src/ocean-of-code.ts:468-478 | the SILENCE length is the length of the run, whose points are marked visited in order |
| `OceanTracking.OceanBot.Act` | src/ocean-of-code.ts:430-495 | the walk searched from our position cannot be extended; boxed in, the fired mines' TRIGGERs then SURFACE and the visited cells are forgotten; otherwise the TRIGGERs then `Plan`'s orders, the SILENCE run marked visited and our position laid as a mine when MINE is ready; the turn counter goes up |
| `EarlyTrackers.Looked` | src/app/path-resolver.class.ts:106-110 | exactly the cells the unguarded lookup finds for some coordinate |
| `EarlyTrackers.Moved` | src/app/path-resolver.class.ts:61-64 | one advanced scenario per scenario |
| `EarlyTrackers.UpdateKeyed` | src/app/path-resolver.class.ts:242-264 | the clean-up keeps every hypothesis keyed by a start and each start once per scenario |
| `EarlyTrackers.SettleRestartsOnlyWhenEmpty` | src/app/opponent-submarine.class.ts:314-332 | the opponent's clean-up restarts from every sea cell only when no hypothesis is left |
| `EarlyTrackers.SettleNeverEmpty` | src/app/opponent-submarine.class.ts:314-332 | on a board with sea, some start and some scenario always remain, and every start is used |
| `EarlyTrackers.SettleKeyed` | src/app/opponent-submarine.class.ts:314-332 | the opponent's clean-up keeps the state keyed on any board |
| `EarlyTrackers.MovedKeyed` | src/app/path-resolver.class.ts:223-240 | advancing every scenario keeps the state keyed |
| `EarlyTrackers.MoveStepKeyed` | src/app/path-resolver.class.ts:61-64 | a MOVE that does not throw keeps the state keyed |
| `EarlyTrackers.InSurfaceStepKeyed` | src/app/path-resolver.class.ts:146-167 | keeping one region keeps the state keyed |
| `EarlyTrackers.ExcludeStepKeyed` | src/app/path-resolver.class.ts:169-192 | excluding one region keeps the state keyed |
| `EarlyTrackers.ResolverOrdersKeyed` | src/app/path-resolver.class.ts:55-95 | `applyMoveOrders` keeps the resolver keyed, whether or not it throws |
| `EarlyTrackers.OpponentSilenceKeyed` | src/app/opponent-submarine.class.ts:278-298 | the opponent's SILENCE keeps the state keyed |
| `EarlyTrackers.OpponentOrdersKeyed` | src/app/opponent-submarine.class.ts:135-139 | `setOrders` keeps the opponent keyed, whether or not an order throws |
| `EarlyTrackers.OwnIndex` | src/app/cell-container.class.ts:29-31 | on a built grid, the unguarded index of a cell's coordinate is its place |
| `EarlyTrackers.StepStride` | src/app/path-resolver.class.ts:223-240 | a surviving step lands on the sea cell whose index is the old one plus the direction's stride, and records it |
| `EarlyTrackers.StrideIndex` | src/app/cell-container.class.ts:29-31 | one unit vector changes the unguarded index by the stride |
| `EarlyTrackers.EastEdgeWraps` | src/app/path-resolver.class.ts:223-240 | a hypothesis on the last column moving East lands on the first cell of the next row whenever that cell is sea and not visited |
| `EarlyTrackers.OffBoardNeverVisited` | src/app/opponent-submarine.class.ts:250-266 | no visited cell sits at a coordinate beyond the last column, so the opponent's revisit test never matches there |
| `EarlyTrackers.MovedByStride` | src/app/path-resolver.class.ts:223-240 | every hypothesis after a MOVE comes from one of the same start, moved by the stride onto a sea cell |
| `EarlyTrackers.ResolverMoveByStride` | src/app/path-resolver.class.ts:61-64 | every survivor of the resolver's MOVE moved by the stride of the direction |
| `EarlyTrackers.OpponentMoveByStride` | src/app/opponent-submarine.class.ts:274-278 | after the opponent's MOVE either it restarted from every sea cell or every survivor moved by the stride |
| `EarlyTrackers.FanOutKeepsItself` | src/app/path-resolver.class.ts:74-75 | with the zero-length child, a scenario's first child is itself |
| `EarlyTrackers.SilenceKeepsParents` | src/app/path-resolver.class.ts:72-85 | every scenario survives the resolver's SILENCE fan-out as one of its children |
| `EarlyTrackers.ResolverSilenceKeepsPositions` | src/app/path-resolver.class.ts:65-87 | the resolver's SILENCE loses no position held before |
| `EarlyTrackers.ResolverSurfaceKeepsPositions` | src/app/path-resolver.class.ts:89-94 | the resolver's SURFACE restarts from distinct cells, consistently, holding exactly the cells held before |
| `EarlyTrackers.PossibleDistinct` | src/app/path-resolver.class.ts:97-104 | on a built grid the possible positions have pairwise different indices |
| `EarlyTrackers.ReseedHoldsExactly` | src/app/path-resolver.class.ts:212-221 | a reseed from distinct cells holds exactly those cells after the clean-up |
| `EarlyTrackers.InSurfaceStepRegion` | src/app/path-resolver.class.ts:146-167 | after the in-region step, a reseed holds the sea cells of region `slot + 1` and a filter keeps region `index` |
| `EarlyTrackers.ResolverInSurfaceAsWrittenMisses` | src/app/path-resolver.class.ts:146-167 | as written, a reseed lands every hypothesis in region `index + 1`, none in region `index`, and the last region throws |
| `EarlyTrackers.ResolverInSurfaceLands` | src/app/path-resolver.class.ts:146-167 | corrected, every hypothesis left is in region `index` |
| `EarlyTrackers.OpponentInSurfaceAsWrittenMisses` | src/app/opponent-submarine.class.ts:191-213 | as written, unless it restarts everywhere, a reseed lands every hypothesis in region `index + 1`, and the last region throws |
| `EarlyTrackers.OpponentInSurfaceLands` | src/app/opponent-submarine.class.ts:191-213 | corrected, unless it restarts everywhere, every hypothesis left is in region `index` |
| `EarlyTrackers.ResolverFiltersOnlyDelete` | src/app/path-resolver.class.ts:106-210 | the resolver's coordinate and torpedo filters only delete hypotheses |
| `EarlyTrackers.SettledFilter` | src/app/opponent-submarine.class.ts:314-332 | a filter then the opponent's clean-up only deletes, or restarts when nothing passed |
| `EarlyTrackers.OpponentFiltersDeleteOrRestart` | src/app/opponent-submarine.class.ts:149-189 | the opponent's coordinate and torpedo filters only delete, unless nothing passes and it restarts from every sea cell |
| `EarlyTrackers.LookedSplit` | src/app/path-resolver.class.ts:106-144 | keeping and excluding the same coordinates split every scenario's hypotheses between them |
| `EarlyTrackers.MoveEach` | src/app/path-resolver.class.ts:61-63 | the `forEach` advances every scenario, in order |
| `EarlyTrackers.FilterEach` | src/app/path-resolver.class.ts:106-124 | the delete loop leaves each scenario filtered, in order |
| `EarlyTrackers.PathResolver.constructor` | src/app/path-resolver.class.ts:22-25 | every sea cell is a start, no scenario yet |
| `EarlyTrackers.PathResolver.UpdateMoveStrategies` | src/app/path-resolver.class.ts:242-264 | the state becomes the clean-up of the old one: no empty scenario and every start used |
| `EarlyTrackers.PathResolver.GetPossiblePositions` | src/app/path-resolver.class.ts:97-104 | the distinct current cells; nothing changes |
| `EarlyTrackers.PathResolver.ReseedFrom` | src/app/path-resolver.class.ts:212-221 | the given cells become the starts with one empty scenario |
| `EarlyTrackers.PathResolver.FilterAndUpdate` | src/app/path-resolver.class.ts:106-124 | the filter loop then the clean-up |
| `EarlyTrackers.PathResolver.Move` | src/app/path-resolver.class.ts:61-64 | the state of `ResolverMove`; failure, with nothing changed, exactly where it throws |
| `EarlyTrackers.PathResolver.SilenceMove` | src/app/path-resolver.class.ts:65-87 | the state of `ResolverSilence`, which keeps every position |
| `EarlyTrackers.PathResolver.SurfaceMove` | src/app/path-resolver.class.ts:89-94 | the state of `ResolverSurface`, which holds the same cells |
| `EarlyTrackers.PathResolver.ApplyMoveOrders` | src/app/path-resolver.class.ts:55-95 | the state and flag of `ResolverOrders`, which stays keyed |
| `EarlyTrackers.PathResolver.KeepOnlyPositions` | src/app/path-resolver.class.ts:106-124 | only the hypotheses at looked-up cells are kept |
| `EarlyTrackers.PathResolver.ExcludePositions` | src/app/path-resolver.class.ts:126-144 | the hypotheses at looked-up cells are removed |
| `EarlyTrackers.PathResolver.KeepOnlyPositionsInSurface` | src/app/path-resolver.class.ts:146-167 | the corrected in-region step; failure, with nothing changed, exactly where it throws |
| `EarlyTrackers.PathResolver.ExcludePositionsInSurface` | src/app/path-resolver.class.ts:169-192 | the out-of-region step; failure, with nothing changed, exactly where it throws |
| `EarlyTrackers.PathResolver.KeepOnlyPositionsNearTorpedo` | src/app/path-resolver.class.ts:194-210 | only the hypotheses within four moves of the impact are kept |
| `EarlyTrackers.OpponentSubmarine.constructor` | src/app/opponent-submarine.class.ts:101-105 | every sea cell is a start, no scenario yet |
| `EarlyTrackers.OpponentSubmarine.UpdateMoveStrategies` | src/app/opponent-submarine.class.ts:314-332 | the state of `Settle`; on a board with sea some start and scenario remain, consistently |
| `EarlyTrackers.OpponentSubmarine.GetPossiblePositions` | src/app/opponent-submarine.class.ts:141-147 | the distinct current cells; nothing changes |
| `EarlyTrackers.OpponentSubmarine.ReseedFrom` | src/app/opponent-submarine.class.ts:241-248 | the given cells become the starts with one empty scenario |
| `EarlyTrackers.OpponentSubmarine.FilterAndUpdate` | src/app/opponent-submarine.class.ts:149-168 | the filter loop then `Settle` |
| `EarlyTrackers.OpponentSubmarine.Move` | src/app/opponent-submarine.class.ts:274-278 | the state of `OpponentMove`; failure, with nothing changed, exactly where it throws |
| `EarlyTrackers.OpponentSubmarine.SilenceMove` | src/app/opponent-submarine.class.ts:278-298 | the state of `OpponentSilence` |
| `EarlyTrackers.OpponentSubmarine.SurfaceMove` | src/app/opponent-submarine.class.ts:300-305 | the state of `OpponentSurface`; failure, with nothing changed, for an undefined slot or a NaN index |
| `EarlyTrackers.OpponentSubmarine.KeepOnlyPositionsNearTorpedo` | src/app/opponent-submarine.class.ts:334-350 | the torpedo filter then `Settle` |
| `EarlyTrackers.OpponentSubmarine.SetOrders` | src/app/opponent-submarine.class.ts:135-139 | the parsed orders are kept and the state and flag are those of `OpponentOrders` |
| `EarlyTrackers.OpponentSubmarine.KeepOnlyPositions` | src/app/opponent-submarine.class.ts:149-168 | only the hypotheses at looked-up cells are kept, then `Settle` |
| `EarlyTrackers.OpponentSubmarine.ExcludePositions` | src/app/opponent-submarine.class.ts:170-189 | the hypotheses at looked-up cells are removed, then `Settle` |
| `EarlyTrackers.OpponentSubmarine.KeepOnlyPositionsInSurface` | src/app/opponent-submarine.class.ts:191-213 | the corrected in-region step; failure, with nothing changed, exactly where it throws |
| `EarlyTrackers.OpponentSubmarine.ExcludePositionsInSurface` | src/app/opponent-submarine.class.ts:215-239 | the out-of-region step; failure, with nothing changed, exactly where it throws |
| `EarlySubmarines.AppSearchCrossesRows` | src/app/our-submarine.class.ts:120-168 | the unguarded search may step East off the last column onto the first cell of the next row, which the guarded lookup refuses |
| `EarlySubmarines.AppSilence` | src/app/our-submarine.class.ts:182-191 | the SILENCE runs in the first move's direction over the leading nodes that take it, at least one and at most four, as far as it can |
| `EarlySubmarines.AppSilenceAgainstServices` | src/app/our-submarine.class.ts:182-191 | it agrees with the later services SILENCE on paths longer than four nodes; on shorter ones the later one runs zero cells where this runs at least one |
| `EarlySubmarines.MarkNodes` | src/app/our-submarine.class.ts:98-100 | every node's cell is recorded under its index, the others are unchanged, and the last node's cell is stored |
| `EarlySubmarines.RegionCells` | src/app/path-resolver.class.ts:169-192 | exactly the sea cells of some defined region |
| `EarlySubmarines.SonarYesRestarts` | src/app/our-submarine.class.ts:47-59 | "Y" for the region never set throws above 25 scenarios or with none; otherwise the opponent restarts from every sea cell |
| `EarlySubmarines.SonarNoKeeps` | src/app/our-submarine.class.ts:47-59 | "N" for the region never set leaves a consistent tracker with scenarios unchanged |
| `EarlySubmarines.OurSubmarine.constructor` | src/app/our-submarine.class.ts:36-45 | nothing planned, visited or set yet; the sonar answer is NA |
| `EarlySubmarines.OurSubmarine.SetSonarResult` | src/app/our-submarine.class.ts:47-59 | the answer is stored and the tracker becomes `SonarAnswer`'s; failure, with the tracker unchanged, where the source throws |
| `EarlySubmarines.OurSubmarine.SetPosition` | src/app/our-submarine.class.ts:92-96 | the looked-up cell becomes the position; when found it is visited and the turn advances, otherwise the source throws |
| `EarlySubmarines.OurSubmarine.AddVisitedCell` | src/app/our-submarine.class.ts:98-100 | the cell is recorded under its index |
| `EarlySubmarines.OurSubmarine.ClearVisitedCell` | src/app/our-submarine.class.ts:102-104 | every visited cell is forgotten |
| `EarlySubmarines.OurSubmarine.SetCooldown` | src/app/our-submarine.class.ts:170-172 | the four cooldowns are stored, nothing else changes |
| `EarlySubmarines.OurSubmarine.SearchLongestPath` | src/app/our-submarine.class.ts:120-168 | nothing from a cell that is not sea; otherwise a walk from the cell through the sea cells not visited that cannot be extended |
| `EarlySubmarines.OurSubmarine.BestStart` | src/app/our-submarine.class.ts:110-118 | the first candidate whose searched path is longest, none exactly when there is no candidate |
| `EarlySubmarines.OurSubmarine.SearchStartCell` | src/app/our-submarine.class.ts:110-118 | a candidate start whose searched path becomes the plan; none exactly when there is no candidate, with nothing changed |
| `EarlySubmarines.OurSubmarine.RefreshPath` | src/app/our-submarine.class.ts:175-180 | a plan with a first move is kept; otherwise a longest path from the position replaces it, and no position means failure with no change |
| `EarlySubmarines.OurSubmarine.SilenceStep` | src/app/our-submarine.class.ts:182-191 | SILENCE along `AppSilence`'s run; the path loses the run and the run's later cells are visited |
| `EarlySubmarines.OurSubmarine.GetMoveActions` | src/app/our-submarine.class.ts:174-198 | SURFACE with the visited cells forgotten when no move is left; SILENCE along the leading run while it is ready; otherwise MOVE one node charging `getPower`'s choice; failure exactly where the source throws |
| `EarlySubmarines.OurSubmarine.GetActions` | src/app/our-submarine.class.ts:88-90 | the move actions, with the same guarantees |

## Left out

- Standard input and output, the game loops (`src/app/runner.ts`, `src/app/services/runner.ts`, the `readline` parts of `src/ocean-of-code.ts`), rendering and logging: plumbing with nothing to prove. `TrackResolver`'s `log` calls are no-ops, so `updateMoveStrategies` does not compute the statistics it only logs.
- Randomness (the random start cell, the random sonar region) and wall-clock timing: not modelled.
- `Grids.TorpedoArea`, `Grids.DangerArea`, `Grids.TorpedoAreaWithoutDangerArea`, `Grids.CellNext`: these are called but defined in files that are not part of this model. Each is given a reconstruction whose contract is what the grid tests assert, and no more.
- Object identity: cells, hypotheses and scenarios are compared by value. In a built grid this is identity, since one index has one `Cell` object. Aliasing between scenarios does not arise because every stored scenario is fresh or a deep clone.
- `Positions` has no `getMinMax`: it is not part of this model.
- `TrackResolvers.TrackResolver.Surface`: models the corrected SURFACE, whose starts are de-duplicated. The SURFACE as written is `TrackResolvers.AfterSurfaceAsWritten`; see Findings.
- `TrackResolvers.AfterOrder`: uses the corrected SURFACE (`AfterSurface`, de-duplicated starts), not the SURFACE as written (`AfterSurfaceAsWritten`); see Findings.
- `TrackResolvers.AfterOrders`: folds `AfterOrder`, so it too uses the corrected SURFACE.
- `TrackResolvers.TrackResolver.ApplyOrder`: is proved against `AfterOrder`, so it uses the corrected SURFACE.
- `TrackResolvers.TrackResolver.ApplyOrders`: is proved against `AfterOrders`, so it uses the corrected SURFACE.
- `MOVE_STRATEGIES_SE` (src/app/services/track-resolver.class.ts:6, 203, 217) is imported but not exported by src/app/services/path-finder.class.ts, so that file does not compile as shown; the model substitutes `MOVE_STRATEGIES_ANTI_CLOCKWISE_SE`, which only fixes the order of the SILENCE children.
- `TrackResolvers.TorpedoZone` and `PathResolvers.NearTorpedo`: a NaN coordinate gives no cell. This assumes the unseen `getTorpedoArea` and `getDangerArea` compare distances numerically, so every comparison with NaN is false.
- `Orders.TrimStart`: skips the common white space and line terminators but not the other Unicode space separators (U+1680, U+2000–U+200A, U+202F, U+205F, U+3000) that `parseInt` also skips.
- `OurSubmarines.OurSubmarine.GetOtherActions`: stops with `ok` false where a mine would be placed. The source reads `moveStrategy.index`, which the move strategies of src/app/services/path-finder.class.ts do not have, so `getCell(undefined)` gives no cell and the `isAvailableCell` filter throws. As a result `_mines` never grows, and the TRIGGER branch at src/app/services/our-submarine.class.ts:251-260 never runs.
- `getActions` (src/app/services/our-submarine.class.ts:125-128) only concatenates the two action lists, after `getOtherActions` has run first; it has no member of its own.
- The random sonar region (src/app/services/our-submarine.class.ts:278-279) is unreachable, because it needs zero candidates inside a branch that requires more than five.
- `OurSubmarines.FirstMax`: assumes the stable sort of current JavaScript engines, so that ties keep the Map's insertion order.
- `OurSubmarines.OurSubmarine`: assumes a built grid that its path finder and the opponent's tracker share, as the runner constructs them.
- `EarlyGrids.EarlyGrid.SearchLongestWay`: takes a bound `cap` on the rounds beyond the size of the pool in place of the source's unbounded `do … while`, which ends only when the stack empties or the best walk reaches 25 nodes; the contract holds for any bound, and the walk it promises is one that cannot be extended, not the longest one.
- `EarlyGrids.EarlyGrid.SearchLongestWay`: requires a sea start, because the game always supplies our own sea position. The source takes the neighbours of `getPosition(index)` whatever its terrain (src/app/grid.ts:78-84), so from a land start it walks out through its sea neighbours; the model does not state that walk.
- `EarlyGrids.EarlyGrid.SearchLongestWay`: never re-enters the start cell. The source keeps an unvisited start in `availablePositions` (src/app/grid.ts:67-70), so on a 2×2 all-sea board with nothing visited the search from cell 0 can return 0→2→3→1→0. The two agree once the start is visited (`EarlyGrids.WayPoolAgainstAvailablePositions`), which the game loop ensures by marking our position (src/ocean-of-code.ts:320) before it searches (src/ocean-of-code.ts:430).
- `EarlyGrids.WayPoolMember`: leaves the start out of the candidates even when it is unvisited; the source's `availablePositions` keeps it then. Its second clause states the agreement for a visited start.
- `OceanTracking.OceanBot.Act`: requires our position to be a sea cell, as the game guarantees; it uses the corrected mine list `MinesLeft`, not `MinesAsWritten` (see Findings).
- `OceanTracking.OceanBot.Act`: its walk never re-enters our position, because it searches the pool without the start. This is the source's pool when `OceanTracking.OceanBot.Observe` has marked our position visited first, as the game loop does (src/ocean-of-code.ts:320 before 430). A call on an unvisited position is not captured: the source could walk back into it.
- `OurSubmarines.OurSubmarine.Locate`: estimates the opponent with the corrected box `Estimate`, not `EstimateCoordinateAsWritten` (see Findings, src/app/services/our-submarine.class.ts:192-195). For candidates (0,0), (5,0), (1,0) the source places the opponent at (0,0), so its orders say LOOKOUT; the model finds the true box six columns wide, gives no estimate, and its orders say HUNTING (`OurSubmarines.AsWrittenEstimateMissesCandidate`).
- `OurSubmarines.OurSubmarine.GetOtherActions`: builds on `OurSubmarines.OurSubmarine.Locate` and so on the corrected estimate; where the source's narrower box gives another opponent point, its LOOKOUT and torpedo orders are not captured.
- `OceanTracking.OceanBot.Observe`: uses the corrected torpedo filter `TorpedoFilter` and the corrected estimate `Locate`, not `TorpedoAsWritten` and `LocateAsWritten` (see Findings).
- The loop of src/ocean-of-code.ts reads its input lines with `readline`, prints with `console.log`, draws a random start cell, and stores a `target` (src/ocean-of-code.ts:367, 451, 453) that nothing reads: none of these are modelled. The life values of the input line are only logged.
- `OceanTracking.FirstIncluding`: models `order.includes(word)` as the source matches, so an order is found for a word that occurs anywhere in it, not only as its first word.
- `EarlyTrackers.PathResolver.KeepOnlyPositionsInSurface`: reseeds from the region numbered `index` (slot `index - 1`), the corrected step; the step as written is `EarlyTrackers.ResolverInSurfaceAsWritten` (see Findings).
- `EarlyTrackers.OpponentSubmarine.KeepOnlyPositionsInSurface`: reseeds from the region numbered `index` (slot `index - 1`), the corrected step; the step as written is `EarlyTrackers.OpponentInSurfaceAsWritten` (see Findings).
- src/app/grid.class.ts is not part of this model: the trackers and the submarine of src/app run on the services `Grid` (`Grids`), looked up through the unguarded index of src/app/cell-container.class.ts.
- The `moves` field that src/app/opponent-submarine.class.ts writes and never reads is not modelled; its `Cell[]` paths are modelled as hypotheses (`PathState`), whose last cell is the position.
- The row wrap of the unguarded index (a move East off the last column lands on the next row) is the source's behaviour and is kept; `EarlyTrackers.EastEdgeWraps` and `EarlySubmarines.AppSearchCrossesRows` state it.
- `EarlySubmarines.OurSubmarine`: `_path` is `undefined` until `searchStartCell` has run; the model holds it as `None`, and `getMoveActions` then fails, as the source throws.
- `EarlySubmarines.OurSubmarine.GetMoveActions`: assumes that `isAvailableCell(undefined)` throws when there is no position to search from, as `cell.type` of `undefined` does in the unseen grid.
- `getOtherActions` of src/app/our-submarine.class.ts (lines 200-204) only logs and returns no action; `EarlySubmarines.OurSubmarine.GetActions` adds none for it.
- `nextPower` of src/app/our-submarine.class.ts (lines 212-222) is the same rule as `getPower` of src/ocean-of-code.ts and is modelled once, as `OceanTracking.GetPower`.
- The sonar region of src/app/our-submarine.class.ts is never assigned, so its answers act on `undefined`; the model states that outcome (`EarlySubmarines.SonarYesRestarts`, `EarlySubmarines.SonarNoKeeps`) and does not invent a region.

## Findings

| source | as written | input that shows it | evidently intended | confidence | as-written member | corrected member |
|---|---|---|---|---|---|---|
| src/app/services/track-resolver.class.ts:184-191 | SURFACE takes the possible positions with their repeats as the new starts, so a cell two hypotheses share becomes a start twice, and the next `addPosition` advances its one hypothesis twice | a sea row of four cells; starts C0 and C2, both hypotheses on C1; SURFACE 1 then MOVE E ends on C3 with three visited cells | each hypothesis moves exactly one cell per MOVE; the starts are de-duplicated, as the earlier `PathResolver` does | not executed | `TrackResolvers.SurfaceAsWrittenMovesTwice` | `TrackResolvers.SurfaceThenMoveShiftsOnce` |
| src/app/cell-container.class.ts:29-31 | `getIndex` computes y·width + x without a bounds check, so the off-grid point (width, 0) gets the index of (0, 1) | width 15, height 15, point (15, 0) gives index 15 | plausibly intended, though no test covers this file: off-grid points map to −1, as test/tdd/grid.class.test.ts:48-66 expects of the services `Grid` | not executed | `CellContainers.AsWrittenIndexAliasesNextRow` | `CellContainers.GetIndex` |
| src/app/services/our-submarine.class.ts:192-195 | the running maximum of the candidates' box is folded against the running minimum, so after the reduce the maximum is the last candidate's coordinate and the box can leave candidates out | candidates (0,0), (5,0), (1,0): the box is (0,0)–(1,0), the estimate is (0,0), five columns from (5,0) | the maximum is folded against the maximum, so the estimate is only made when all candidates fit a 3 × 3 box | not executed | `OurSubmarines.AsWrittenEstimateMissesCandidate` | `OurSubmarines.EstimateNearEveryCandidate` |
| src/ocean-of-code.ts:386-393 | the torpedo filter reads the impact point from characters 1 and 2 of the order string, not from the words `split` computed on line 388, so every TORPEDO order removes every candidate | the order "TORPEDO 3 5" with the candidate (3, 5): it is removed, though it is the impact point | the coordinates are words 1 and 2 of the split order, and the candidates within four moves of the impact stay | not executed | `OceanTracking.TorpedoAsWrittenDropsImpact` | `OceanTracking.TorpedoFilterMeaning` |
| src/ocean-of-code.ts:406-409 | the running maximum is folded against the running minimum, so the box ends at the last candidate and may leave candidates out | candidates (0,0), (5,0), (1,0): the box is (0,0)–(1,0) and the opponent is placed at (0,0), five columns from (5,0) | the maximum is folded against the maximum, so the estimate is made only when every candidate fits a 4 × 4 box | not executed | `OceanTracking.LocateAsWrittenMisplaces` | `OceanTracking.LocateMeaning` |
| src/ocean-of-code.ts:434-440 | the mine filter returns `true` for the mines it fires, so it keeps the fired mines and forgets the others | mines (0,0) and (9,9), opponent at (1,0), us at (5,5): (0,0) fires and is kept, (9,9) is forgotten | a fired mine is removed and the others are kept | not executed | `OceanTracking.MinesAsWrittenForgets` | `OceanTracking.MinesLeftMeaning` |
| src/app/path-resolver.class.ts:147-149 | with no scenario (or more than 300) the reseed reads `surfaces[index]`, the region numbered `index + 1`; for region 9 the slot is past the end and the call throws | a new resolver and `keepOnlyPositionsInSurface(1)`: every hypothesis lands in region 2 | the region numbered `index`, `surfaces[index - 1]`, as SURFACE reads it on line 90 | not executed | `EarlyTrackers.ResolverInSurfaceAsWrittenMisses` | `EarlyTrackers.ResolverInSurfaceLands` |
| src/app/opponent-submarine.class.ts:192-194 | the same reseed from `surfaces[index]`, above 25 scenarios or with none | a new opponent and `keepOnlyPositionsInSurface(1)`: every hypothesis lands in region 2 | the region numbered `index`, `surfaces[index - 1]`, as SURFACE reads it on line 301 | not executed | `EarlyTrackers.OpponentInSurfaceAsWrittenMisses` | `EarlyTrackers.OpponentInSurfaceLands` |
