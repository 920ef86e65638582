# Isometric cube grid: a verified model

`draw_one_frame.js` draws an isometric grid of cubes (`OrthoGrid`, holding
`OrthoCube` objects in a column-major array `cubes[col][row]`). Once per
frame the grid runs the `mainBehaviour` of one of three behaviour profiles,
which it has copied onto itself:

- **RandomPropagation**: cubes on the non-corner boundary get a
  propagation vector pointing inwards. Each frame, every active cube hands
  its activity one step along its vector. Then every cube's height becomes
  the sum of the contributions of the active cubes in reach, or decays by
  0.85. Optionally a random edge cube is spawned.
- **Ripple**: every cube within `radius` of an active cube takes the sum of
  `amplitude / (range + 1) * sin(phase + range)` over those sources, and
  every other cube decays.
- **GameOfLife**: every cube's `active` flag follows B3/S23 over its
  in-grid Moore neighbourhood, read from a snapshot taken before any cube
  changes.

The model is in five pure modules and one imperative one:

| file | module | contents |
|---|---|---|
| `geometry.dfy` | `Geometry` | cube corners (`_initPoints`), colour scaling (`_colorBrightness`) |
| `cubes.dfy` | `Cubes` | the cube record, the board, the active-cube scan, the grid distance, the shared height rule |
| `propagation.dfy` | `PropagationRules` | RandomPropagation as functions on a board |
| `ripple.dfy` | `RippleRules` | Ripple as functions on a board |
| `life.dfy` | `LifeRules` | GameOfLife as functions on a board |
| `grid.dfy` | `Grid` | the class `OrthoGrid`, whose methods update the field `cubes` with the source's own loops |

Each grid method is proved to leave `cubes` equal to the board function of
its rules module, applied to the old board. The properties of the
behaviours are proved as lemmas about those functions.

Cube objects are values here. Object identity matters in the source,
because `edgeCubes.includes(cube)` compares objects and `edgeCubes` is
never cleared. So each cube carries a `CubeId` made of the build generation
and its position. `build` starts a new generation.

## Model

| member | source | states |
|---|---|---|
| Geometry.CubeCorners | draw_one_frame.js:130-162 | B and C mirror each other, E lies `edgeLength` below the centre, G lies above it, and the three faces close: G = B + C, D = B + E, F = C + E |
| Geometry.CornersAreRhombi | draw_one_frame.js:130-162 | when sin² + cos² = 1, the edges to B, C and E all have length `edgeLength`, so every face is a rhombus |
| Geometry.ColourBrightness | draw_one_frame.js:107-115 | a grey level is scaled by `percentage`; a channel list keeps its length and every channel is scaled |
| Cubes.NewCube | draw_one_frame.js:18-37 | a new cube has the given identity, centre, view angle and edge length, is inactive and not raised, and has the `_initPoints` corners `CubeCorners` (so `CornersAreRhombi` applies) |
| Cubes.ActivePositionsExact | draw_one_frame.js:241-250 | `getAllActive` lists exactly the active cubes, in strictly increasing column-then-row order, so each one appears once |
| Cubes.ActiveCountIsSetSize | draw_one_frame.js:241-250 | the length of `getAllActive` is the number of distinct active positions |
| Cubes.ActiveCubes | draw_one_frame.js:241-250 | every returned cube is active, and there are `ActiveCount` of them |
| Cubes.SameActivity | draw_one_frame.js:241-250 | boards that agree on every `active` flag have the same `getAllActive` |
| Cubes.PutActiveCount | draw_one_frame.js:241-250 | replacing one cube adds at most one active cube, and none when the new cube is inactive |
| Cubes.Settle | draw_one_frame.js:584 | an uninfluenced cube's height is multiplied by 0.85; an influenced cube takes the sum |
| Cubes.CubeDistance | draw_one_frame.js:233-235 | the distance between grid positions is non-negative |
| Cubes.CubeDistanceSquared | draw_one_frame.js:233-235 | its square is dRow² + dCol² |
| Cubes.CubeDistanceMetric | draw_one_frame.js:233-235 | the distance is symmetric and is 0 exactly between a position and itself |
| Cubes.WithinIffSquared | draw_one_frame.js:577 | `sqrt(d) <= m` holds exactly when m >= 0 and d <= m², so range tests can be read without square roots |
| PropagationRules.EdgeVector | draw_one_frame.js:464-488 | a cell gets a vector exactly when it is on the boundary and not a corner; the first matching side wins: top row (speed, 0), bottom row (-speed, 0), left column (0, speed), right column (0, -speed) |
| PropagationRules.InitCube | draw_one_frame.js:464-488 | `step` becomes 0, an edge cell receives its vector, any other cube keeps its vector, and nothing else changes |
| PropagationRules.ScanEdgesMembers | draw_one_frame.js:337-349 | the ids a build appends to `edgeCubes` are exactly this generation's non-corner boundary cells |
| PropagationRules.EdgeCubeCount | draw_one_frame.js:337-349 | a full build of a grid with at least 2 rows and 2 columns appends 2·(maxRow + maxCol) − 8 edge cubes |
| PropagationRules.Advance | draw_one_frame.js:521-551 | one loop turn: the source ends inactive with step 0; only the source and its target can change; ids, heights and the vectors of edge cubes are kept; other active cubes stay active (where the activity goes: `AdvanceMoves`) |
| PropagationRules.AdvanceAll | draw_one_frame.js:519-551 | the whole move loop keeps the board's shape, every id and height, and the vectors of edge cubes |
| PropagationRules.Targets | draw_one_frame.js:523-531 | the snapshot's in-grid targets number at most the snapshot's length |
| PropagationRules.AdvanceAllActivates | draw_one_frame.js:519-551 | every cube active after the loop was active and outside the snapshot, or is the target of a snapshot cube |
| PropagationRules.PropagationNeverAddsActive | draw_one_frame.js:519-551 | the move loop never increases the number of active cubes |
| PropagationRules.NoReboundEdgeStaysDark | draw_one_frame.js:539-544 | without rebound, an edge cube active after the loop was already active and outside the snapshot |
| PropagationRules.NoReboundClearsEdges | draw_one_frame.js:519-551 | without rebound, no member of `edgeCubes` is active after the move loop |
| PropagationRules.AdvanceAllSteps | draw_one_frame.js:532-549 | steps stay non-negative, and a cube active after the loop was untouched or received a step of at least `speed` |
| PropagationRules.ActiveStepsPositive | draw_one_frame.js:519-551 | after the loop over the whole snapshot, every active cube has step >= speed |
| PropagationRules.AdvanceAllCarry | draw_one_frame.js:519-551 | the loop keeps every active cube and every edge cube carrying a vector, so the next frame's `propagationVector[0]` is defined |
| PropagationRules.Reach | draw_one_frame.js:573 | `maximumRange` is the smaller of the source's step and `maxRaiseRadius` |
| PropagationRules.InReachExact | draw_one_frame.js:573-577 | the loop's `range <= maximumRange` test equals the square-root-free `InReach` |
| PropagationRules.InfluenceCount | draw_one_frame.js:572-581 | a cube's `count` is at most the number of sources, and is positive exactly when some source has it in reach |
| PropagationRules.ShareBounds | draw_one_frame.js:578 | one contribution lies between 0 and `maxRaiseHeight`, and equals it at range 0 |
| PropagationRules.InfluenceBounds | draw_one_frame.js:572-581 | the summed height lies between 0 and count · maxRaiseHeight |
| PropagationRules.InfluenceAtSource | draw_one_frame.js:572-581 | the cube under an in-reach source is counted and raised by at least `maxRaiseHeight` |
| PropagationRules.RaiseCube | draw_one_frame.js:567-584 | only the height changes: it decays by 0.85 when no source is in reach, and otherwise lies in [0, (number of sources) · maxRaiseHeight] |
| PropagationRules.InfluenceWithin | draw_one_frame.js:572-581 | with a non-negative height, the sum lies in [0, (number of sources) · maxRaiseHeight] |
| PropagationRules.RaiseAll | draw_one_frame.js:565-586 | every cube of the board is raised against the same snapshot of sources |
| PropagationRules.RaiseAllKeeps | draw_one_frame.js:559-587 | the raise pass changes heights only, and `getAllActive` is unchanged |
| PropagationRules.SnapshotReach | draw_one_frame.js:573-578 | with positive steps and radius, no `maximumRange` is 0, so the division is defined |
| PropagationRules.MoveAll | draw_one_frame.js:519-551 | the move loop over the `getAllActive` snapshot keeps the board ready, ids fixed, active count non-increasing, active steps >= speed, and, without rebound, every edge cube dark (a lone signal: `LoneMoves`) |
| PropagationRules.PropagateActive | draw_one_frame.js:518-554 | `_propagateActive` keeps the board ready and ids fixed, never adds active cubes, and without rebound leaves every edge cube dark (a lone signal: `LoneSignalMoves`, `ReboundNeverVanishes`) |
| PropagationRules.RaiseMoved | draw_one_frame.js:553 | the raise pass after the move changes only heights and keeps the board ready |
| PropagationRules.PickIndex | draw_one_frame.js:510 | `Math.floor(draw * n)` for a draw in [0, 1) is a valid index, with i <= draw·n < i + 1 |
| PropagationRules.SpawnAt | draw_one_frame.js:509-513 | the picked cube becomes active with step 0 and no other cube changes; an entry from an earlier build changes nothing |
| PropagationRules.MainBehaviour | draw_one_frame.js:494-504 | the frame throws exactly when it would spawn (no rebound, fewer than `limit` active, draw above 1 − chance) and `edgeCubes` is empty |
| PropagationRules.SpawnReady | draw_one_frame.js:509-513 | a spawn keeps the board ready and adds at most one active cube |
| PropagationRules.MainBehaviourReady | draw_one_frame.js:494-504 | every frame that does not throw leaves the board ready for the next one |
| PropagationRules.MainBehaviourLimit | draw_one_frame.js:497-503 | without rebound, a board with at most `limit` active cubes still has at most `limit` after a frame |
| PropagationRules.MainBehaviourSpawns | draw_one_frame.js:497-513 | when the spawn picks a current entry, that cube is active with step 0 and nothing else differs from the propagated board |
| PropagationRules.AdvanceMoves | draw_one_frame.js:523-544 | the move itself: an in-grid target other than the source that may be entered becomes active, with step source step + speed, and takes the source's vector unless it is an edge cube, which keeps its own |
| PropagationRules.LonePositions | draw_one_frame.js:519 | with one active cube, the `getAllActive` snapshot is that cube alone |
| PropagationRules.LoneMoves | draw_one_frame.js:519-551 | when the only active cube has an in-grid target other than itself that it may enter, after the move loop the target is the only active cube, with the step and vector of `AdvanceMoves`, and edge cubes keep their vectors |
| PropagationRules.RaiseKeepsLone | draw_one_frame.js:559-587 | the raise pass keeps the only active cube the only one |
| PropagationRules.LoneSignalMoves | draw_one_frame.js:518-554 | the same for the whole of `_propagateActive`: one cube is active afterwards, the target |
| PropagationRules.EdgeStartsSignal | draw_one_frame.js:464-488 | on a built grid of at least 2 × 2 cells with speed 1, a lone active edge cube points to a cell it can reach, along an inner row or column |
| PropagationRules.HeadingTurns | draw_one_frame.js:523-541 | a signal heading along a unit vector lands in the grid, and from there heads on along its vector or, on an edge cell, along that cell's inward vector |
| PropagationRules.BuiltKept | draw_one_frame.js:534-548 | a built grid stays built when ids and the vectors of edge cubes are kept |
| PropagationRules.ReboundStep | draw_one_frame.js:518-554 | with rebound and speed 1 on a built grid, one frame moves a signal one cell on, still the only active cube and still heading where it can go |
| PropagationRules.ReboundFrame | draw_one_frame.js:494-504 | with rebound a frame of `mainBehaviour` is `_propagateActive` alone: nothing is spawned and nothing throws |
| PropagationRules.Bounces | draw_one_frame.js:518-554 | after any number of frames with rebound and speed 1 the signal is still the only active cube |
| PropagationRules.ReboundNeverVanishes | draw_one_frame.js:518-554 | with rebound and speed 1, one active edge cube on a built grid of at least 2 × 2 cells starts a signal that never vanishes: exactly one cube is active after any number of frames |
| RippleRules.InRadiusExact | draw_one_frame.js:629-632 | the loop's `range <= radius` test equals the square-root-free `InRadius` |
| RippleRules.RippleCount | draw_one_frame.js:628-636 | `count` is at most the number of sources, and is positive exactly when some source is within radius |
| RippleRules.WaveBound | draw_one_frame.js:633 | with a sine bounded by 1, one wave term lies in [−amplitude, amplitude] |
| RippleRules.RippleBounds | draw_one_frame.js:628-636 | the summed height lies within count · amplitude of 0 |
| RippleRules.RippleCube | draw_one_frame.js:624-639 | only the height changes: it decays by 0.85 with no source within radius, and otherwise takes the summed wave terms |
| RippleRules.RippleAll | draw_one_frame.js:622-641 | every cube is updated against the same snapshot of sources |
| RippleRules.RippleFrame | draw_one_frame.js:616-642 | `mainBehaviour` updates every cube against the `getAllActive` snapshot |
| RippleRules.RippleKeepsActive | draw_one_frame.js:616-642 | Ripple changes heights only; no `active` flag changes |
| RippleRules.RippleHeightBound | draw_one_frame.js:616-642 | a cube within radius of an active cube ends within (active count) · amplitude of 0 |
| RippleRules.RippleCubeBound | draw_one_frame.js:624-639 | one cube with a source in radius ends within (number of sources) · amplitude of 0 |
| RippleRules.RippleFrames | draw_one_frame.js:616-642 | successive frames keep the board's shape |
| RippleRules.DecayedClosedForm | draw_one_frame.js:639 | n decays give h · 0.85ⁿ, which is never 0 from a non-zero height |
| RippleRules.RippleFades | draw_one_frame.js:616-642 | with no active cube, n frames decay every height n times |
| RippleRules.RippleDark | draw_one_frame.js:616-642 | with no active cube, one frame scales every height by 0.85 and leaves no cube active |
| RippleRules.RandomCell | draw_one_frame.js:647-653 | the cell picked from two draws in [0, 1) is inside a non-empty grid, at floor(rows · r1), floor(cols · r2) |
| LifeRules.Snapshot | draw_one_frame.js:681-687 | `currentState` has exactly the grid's cells as keys, each mapped to that cube's flag |
| LifeRules.NeighbourCount | draw_one_frame.js:744-759 | the count is at most 8 |
| LifeRules.CountUpToAll | draw_one_frame.js:746-757 | the nine visits, in the loop's order, add up to the neighbour count |
| LifeRules.NeighbourCountIsSize | draw_one_frame.js:744-759 | the loop's count equals the number of live cells adjacent to the cube and inside the grid |
| LifeRules.CornerCount | draw_one_frame.js:748-751 | a corner cell has at most 3 neighbours inside the grid |
| LifeRules.ApplyRules | draw_one_frame.js:720-736 | a cube is alive afterwards exactly when it has 3 live neighbours, or is alive with 2 |
| LifeRules.LifeCube | draw_one_frame.js:692-694 | only the flag and the height change, and the height is `maxRaiseHeight` exactly when the cube is alive |
| LifeRules.LifeStep | draw_one_frame.js:679-697 | every cube's successor is computed from the snapshot taken before any cube changed |
| LifeRules.LifeStepRule | draw_one_frame.js:679-736 | per cell, the next generation follows B3/S23 over the live in-grid neighbours |
| LifeRules.BlockIsStable | draw_one_frame.js:679-736 | an isolated 2 × 2 block is a still life |
| LifeRules.BlockCount | draw_one_frame.js:744-759 | around an isolated block, each block cell has 3 live neighbours and every other cell at most 2 |
| LifeRules.LoneCount | draw_one_frame.js:744-759 | around a lone live cell every count is at most 1 |
| LifeRules.LoneCellDies | draw_one_frame.js:679-736 | a lone live cell dies and nothing is born |
| LifeRules.ScanCells | draw_one_frame.js:706-707 | the scan visits exactly the grid's cells |
| LifeRules.SeedAsWritten | draw_one_frame.js:704-713 | the seeding as written keeps the board's shape |
| LifeRules.SeedAsWrittenExact | draw_one_frame.js:704-713 | as written, a cube ends active exactly when it was, or when `limit` > 0, it is on the scan and its draw exceeds 1 − chance; nothing else changes |
| LifeRules.SeedCapped | draw_one_frame.js:704-713 | the corrected seeding keeps the board's shape |
| LifeRules.SeedCappedWithinLimit | draw_one_frame.js:704-713 | the corrected seeding adds at most `limit` active cubes |
| LifeRules.SeedCappedKeepsActive | draw_one_frame.js:709 | seeding only sets flags: an active cube stays active, and nothing else changes |
| LifeRules.SeedAsWrittenIgnoresLimit | draw_one_frame.js:704-713 | as written, with limit 1 and chance 1, seeding a two-cell grid activates both cells |
| LifeRules.SeedCappedRespectsLimit | draw_one_frame.js:704-713 | with the same input, the corrected seeding activates one cell |
| Grid.Activate | draw_one_frame.js:211-213 | `setActive` sets the flag to the given value, or toggles it when none is given; no other cube or field changes |
| Grid.ToggleTwice | draw_one_frame.js:211-213 | toggling a cube twice restores the board |
| Grid.SetTwice | draw_one_frame.js:211-213 | setting a flag twice is the same as setting it once; clearing never adds an active cube, and setting adds at most one |
| Grid.ResetCube | draw_one_frame.js:313-318 | a reset cube is inactive and initialised for the new behaviour; its identity, place and height are kept |
| Grid.Frame | draw_one_frame.js:201-203 | one frame of the inherited behaviour; only RandomPropagation with an empty `edgeCubes` can throw |
| Grid.SnapshotPositions | draw_one_frame.js:519-521 | the `getAllActive` snapshot of a valid grid is a valid move-loop snapshot, whose i-th cube sits at the i-th active position |
| Grid.OrthoGrid.constructor | draw_one_frame.js:178-195 | loads the profiles, starts with an empty `edgeCubes`, and builds maxCol × maxRow placed cubes |
| Grid.OrthoGrid.SetActive | draw_one_frame.js:211-213 | in the grid the board becomes `Activate`; outside it the call throws and nothing changes |
| Grid.OrthoGrid.GetAllActive | draw_one_frame.js:241-250 | returns the active cubes in scan order |
| Grid.OrthoGrid.InitCubeProperties | draw_one_frame.js:464-488 | under RandomPropagation the cube becomes `InitCube` of it, and an edge cube's id is appended to `edgeCubes`; the other behaviours change nothing |
| Grid.OrthoGrid.Build | draw_one_frame.js:328-358 | a new generation of maxCol columns of maxRow cubes, each placed at x + (row − col)·tX, y + (row + col)·tY; under RandomPropagation the edge cubes are appended in scan order, 2·(maxRow + maxCol) − 8 of them |
| Grid.OrthoGrid.BuildColumn | draw_one_frame.js:338-350 | one column of maxRow placed cubes, with that column's edge cubes appended |
| Grid.OrthoGrid.BuildOne | draw_one_frame.js:342-348 | one new cube, placed and initialised; its id is appended when it is an edge cube |
| Grid.OrthoGrid.LoadStructureProfile | draw_one_frame.js:257-265 | sets position and size; without rebuild the cubes are untouched, with rebuild they are built anew as `Build` states, with maxCol columns of maxRow placed cubes and the new edge cubes appended |
| Grid.OrthoGrid.LoadCubeProfile | draw_one_frame.js:272-279 | sets edge length, separation and view angle, then rebuilds on request, as `Build` states |
| Grid.OrthoGrid.LoadRenderProfile | draw_one_frame.js:286-295 | sets the render profile, then rebuilds on request, as `Build` states |
| Grid.OrthoGrid.LoadBehaviourProfile | draw_one_frame.js:302-323 | inherits the behaviour; every cube becomes `ResetCube` of itself, so none is active; a RandomPropagation profile appends the current edge cubes to the old list; a rebuild then appends the new generation's edge cubes as well |
| Grid.OrthoGrid.ResetAll | draw_one_frame.js:314-319 | every cube is reset and none is active, with the edge cubes appended in scan order |
| Grid.OrthoGrid.ResetColumn | draw_one_frame.js:315-318 | the cubes of one column are reset, and the others are untouched |
| Grid.OrthoGrid.ResetOne | draw_one_frame.js:316-317 | `setActive(row, col, false)` then `initCubeProperties` on one cube |
| Grid.OrthoGrid.DoBehaviour | draw_one_frame.js:201-203 | the board becomes the inherited behaviour's frame, and the call fails exactly when that frame throws |
| Grid.OrthoGrid.MoveActive | draw_one_frame.js:519-551 | the move loop over the live array gives `MoveAll` |
| Grid.OrthoGrid.AdvanceEach | draw_one_frame.js:521-551 | the `for ... of` loop over the snapshot gives `AdvanceAll` |
| Grid.OrthoGrid.AdvanceOne | draw_one_frame.js:523-550 | one loop turn, reading the cube's current fields, gives `Advance` |
| Grid.OrthoGrid.RaiseTally | draw_one_frame.js:567-581 | the counter and the sum equal `Influence` over the sources |
| Grid.OrthoGrid.RaiseColumn | draw_one_frame.js:566-585 | every cube of one column becomes `RaiseCube`, and the others are untouched |
| Grid.OrthoGrid.RaiseAdjacentCubes | draw_one_frame.js:559-587 | the board becomes `RaiseAll` over the `getAllActive` snapshot |
| Grid.OrthoGrid.PropagateActive | draw_one_frame.js:518-554 | the board becomes `PropagateActive` and stays ready |
| Grid.OrthoGrid.PropagationSetRandomActive | draw_one_frame.js:509-513 | the picked entry is spawned; the call throws exactly when `edgeCubes` is empty |
| Grid.OrthoGrid.PropagationMainBehaviour | draw_one_frame.js:494-504 | the board becomes the `MainBehaviour` frame; when that throws, the propagation has already happened |
| Grid.OrthoGrid.RippleTally | draw_one_frame.js:624-636 | the counter and the sum equal `RippleInfluence` over the sources |
| Grid.OrthoGrid.RippleColumn | draw_one_frame.js:623-640 | every cube of one column becomes `RippleCube`, and the others are untouched |
| Grid.OrthoGrid.RippleMainBehaviour | draw_one_frame.js:616-642 | the board becomes `RippleFrame` |
| Grid.OrthoGrid.RippleSetRandomActive | draw_one_frame.js:647-653 | activates `RandomCell`; throws exactly on an empty grid |
| Grid.OrthoGrid.LifeSnapshot | draw_one_frame.js:681-687 | the map built by the first loop is `Snapshot` |
| Grid.OrthoGrid.CountNeighbours | draw_one_frame.js:744-759 | the nested loop's count is `NeighbourCount` |
| Grid.OrthoGrid.LookAt | draw_one_frame.js:748-754 | one visit counts 1 exactly for a live in-grid neighbour |
| Grid.OrthoGrid.ApplyRulesTo | draw_one_frame.js:720-736 | only the cube's flag changes, to `ApplyRules` of its count |
| Grid.OrthoGrid.LifeOne | draw_one_frame.js:692-694 | one cube becomes `LifeCube` |
| Grid.OrthoGrid.LifeColumn | draw_one_frame.js:691-695 | every cube of one column becomes `LifeCube`, and the others are untouched |
| Grid.OrthoGrid.LifeMainBehaviour | draw_one_frame.js:679-697 | the board becomes `LifeStep` |
| Grid.OrthoGrid.LifeSetRandomActive | draw_one_frame.js:704-713 | the board becomes `SeedAsWritten`: a cube ends active when it was, or when `limit` > 0 and its draw exceeds 1 − chance; nothing else changes |
| Grid.OrthoGrid.SeedOne | draw_one_frame.js:708-709 | while `count` is below the limit, a draw above 1 − chance sets the cube; `count` is not changed |
| Grid.OrthoGrid.SeedColumn | draw_one_frame.js:707-711 | the inner seeding loop over one column, with `count` still 0 |

## Left out

- Drawing is not modelled: `OrthoCube.draw`, `_heatMapColor`, `OrthoGrid.draw` and the p5.js calls. Only `_colorBrightness` is kept, as a pure computation.
- `sendFeedback` and `consoleFeedback` only write to the console.
- The main program after the classes is not modelled: profile constants, canvas set-up and the HTML handlers from line 762 on.
- Host numerics are inputs, not computations:
  - `Math.sqrt` is a parameter `sqrt` with `IsSqrt`, the exact non-negative square root.
  - `Math.sin` in Ripple is a parameter `sin`; the bounds assume `SineBounded`.
  - The sines and cosines of `_initPoints` and `build` are a `Trig` record.
  - `Math.random` draws are inputs in [0, 1).
  - `map(cur_frac, 0, 1, 0, 360) * PI / 180` is the input `phase`.
  - Floating-point rounding is not modelled; heights and coordinates are exact reals.
- The property copying and `delete` of `loadBehaviourProfile` and the constructor (lines 304-311, 186-192) is the `Behaviour` datatype held by the grid. The `addedBehaviouralProperties` list is not kept.
- Ripple's `time` field is never read, so it is not modelled.
- Aliasing of `edgeCubes`: `loadBehaviourProfile` re-binds the grid's `edgeCubes` to the loaded profile object's own array (lines 308-309), so loading a different RandomPropagation object would continue from that object's list, and two grids sharing one profile object would share one list. The model keeps one `edgeCubes` list on the grid and appends to it; the program has only one RandomPropagation object (line 785). Entries from earlier builds stay in the list, as in the source, and name cubes no longer in the array. Spawning one of them leaves the board unchanged.
- RandomPropagation's `mainBehaviour` counts and spawns through the global `grid` (lines 498, 500), not through `this`. The model counts and spawns on the grid it runs on, which is that same object in the program, since it builds exactly one `OrthoGrid` (line 790).
- A JavaScript exception is modelled as a result: `ok == false` from a method, or `None` from `MainBehaviour` or `Frame`. The exceptions covered are indexing outside the array in `setActive`, an empty `edgeCubes` in `setRandomActive`, and an empty grid in Ripple's `setRandomActive`. Where the exception comes after earlier updates, those updates are kept.
- Grid.OrthoGrid.PropagateActive: requires `speed > 0` and `maxRaiseRadius > 0`. The program's only RandomPropagation profile has speed 1 and radius 6 (line 785); a speed of 0 or less and a radius of 0 or less are not modelled. With speed 0 each active cube targets itself and is then cleared at line 548; with a negative speed `maximumRange` can be negative, so the test at line 577 never holds; only a radius of 0 gives the division 0/0.
- Grid.OrthoGrid.PropagateActive: also requires that every active cube and every edge cube carries a vector (`Ready`); without it the source reads `propagationVector[0]` of `undefined`. `MainBehaviourReady` proves that every frame keeps `Ready`.
- Grid.OrthoGrid.PropagationMainBehaviour: has the same requirements as `Grid.OrthoGrid.PropagateActive`, for the same reasons.
- Grid.OrthoGrid.DoBehaviour: has the same requirements through `Runnable`, for the same reasons.
- Grid.OrthoGrid.RaiseAdjacentCubes: requires that no `maximumRange` is 0 (`ReachDefined`), where the source would produce NaN heights.
- Cubes.CubeDistance: its contract states only non-negativity. The exact square is a separate lemma, `CubeDistanceSquared`, so that the fact is not carried into every proof that mentions a distance.
- Integers (`row`, `col`, `step`, `speed`) are unbounded; the source's doubles are exact in the range a grid uses.

## Findings

| source | as written | input that shows it | evidently intended | confidence | as-written member | corrected member |
|---|---|---|---|---|---|---|
| draw_one_frame.js:704-713 | `GameOfLife.setRandomActive` never increments `count`, so `count < limit` is `0 < limit` for every cube and the limit is ignored | limit 1, chance 1, a grid of one column with two rows and all draws 0.5: both cubes become active | at most `limit` cubes are set active, counting each one set | not executed | LifeRules.SeedAsWrittenIgnoresLimit | LifeRules.SeedCappedWithinLimit |

The grid's `Grid.OrthoGrid.LifeSetRandomActive` follows the loop as written and is proved equal to `LifeRules.SeedAsWritten`, which `LifeRules.SeedAsWrittenExact` characterises cell by cell. `LifeRules.SeedCapped` is the corrected definition, with its limit proved by `LifeRules.SeedCappedWithinLimit`.
