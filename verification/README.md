# EleSim verification models

Dafny models of the algorithms and protocols that carry most of the repository's correctness, with proofs of what they
promise. Every module names the source file it follows; `dafny verify dfyconfig.toml` checks the whole project.

| component | modules | source |
|---|---|---|
| Resumable parallel table builder | `Grid`, `Table`, `TableLedger`, `TableDocument`, `TableRun`, `TableLife`, `TableCheckpoint` | `workbench/research/support/hugmap.py` |
| Batched Gauss-Newton search | `BatchedSolver` | `workbench/research/support/hugmap.py` |
| Planar force closure, ring clipping, consensus band, gathering | `ForceClosure`, `RingClip`, `ConsensusBand`, `GatherNeedles` with `Planar`, `RealLists`, `Roots` | `workbench/research/support/newhug.py` |
| Convex parts of a target outline | `Outlines`, `SegmentDistances`, `ExactDistances`, `TargetPolygons`, `EarClipping`, `Notches`, `SimplePolygons`, `Triangulations`, `CleanPolygons`, `TwoEarsTheorem`, `LocallyConvex`, `TinyCrossing` with `Segments`, `Windings`, `AreaSign`, `PolygonTurns`, `LowestVertex`, `Diagonals`, `CutParts`, `Planar`, `Roots` | `workbench/research/support/newhug.py` |
| Collision-model export | `SeparationBound`, `SeparatedPairs`, `RigidGroups` with `Trigonometry`, `Rotations`, `Spatial`, `Connectivity`, `Integers` | `model/elesim_model_builder/curobo.py` |
| Furthest-point sampling | `FurthestPoint` | `adapointr.py`, `adapointr_ops.py` |
| Voxel components | `VoxelComponents` | `workbench/research/analysis/compare_voxel_mesh.py` |
| Kinematic layout, its encodings and forward kinematics | `Layout`, `LinkFrames`, `JointMotion`, `ForwardKinematics`, `HingedPair`, `TurnedLink` with `Spatial`, `Rotations` | `json_builder.py`, `urdf_converter.py`, `context_builder.py`, `robot_defs.py`, `iklib/kinematics.py`, `elesim_sim/runtime.py` |
| Download cache and source boundary | `SourceCache`, `SourceCalls`, `SourceBoundary` | `installer/bootstrap.py` |

How to read the models:

- **Table builder.** `Table` defines the rows of one sequential run. `TableRun.TableRun` is `run_table` after loading: its
  fields are the closure variables, its methods the generator, `emit`, the submit loop, result collection and the final
  save. The surroundings of a run (the poll that first sees the stop flag, which emits find ten seconds gone, which futures
  finish in which order, where a stopped worker cuts its batch, what raises, when the process is killed) are a value `Env`
  over which every statement is quantified. Everything saved goes to a log, so a crash is a prefix of the log and
  `TableLife.Life` can resume from it. `TableCheckpoint` is the file protocol itself, step by step, for any number of
  writers. The solver and the exclusion rule are arbitrary deterministic functions.
- **Exact arithmetic.** Coordinates, angles, weights and residuals are reals, square roots and trigonometric functions are
  parameters with their laws, and rotations are exact orthogonal matrices of determinant one. Tolerances that only
  absorb rounding are zero; thresholds that decide something (0.1 degree, 0.35, 1e-6, 79 steps, 16 candidates, batches of
  four) are the source's.
- **Faults.** In `SourceCache` every file-system step may raise or be the last one before the process dies.

Where the code does not do what one would expect, the model keeps the code and the exact condition is proved:

- `closure_at_mu` reports no closure when both normals point away from each other along the chord although the wrenches
  span (`ForceClosure.PullingApartIsMissed`); in all other well-posed cases it is exact.
- `clip_segment_to_band` is wrong for exactly one family: an outer radius of zero, an inner radius of at most zero, and a
  centre that is the segment's midpoint (`RingClip.ZeroBandThroughCentre`). Its caller `gather_needles` demands
  0 <= inner < outer, which excludes it.
- The neutral frames of the pilot's IK chain differ from the URDF's exactly when a revolute child's `from` frame is not at
  its origin (`Layout.IkRebuildsPosesIffNoOffset`; `HingedPair.OffsetMovesNeutralFrame` is such an assembly), and joints
  listed before their parent's get no frame (`TurnedLink.ChildListedFirst`). Without either, and only then, the pilot's
  forward kinematics is the URDF's at all joint values (`ForwardKinematics.PilotExactIff`).
- The simulator builds a chain of its own whose anchors and axes are not turned into the parent's frame. It is the URDF's
  exactly when that makes no difference (`ForwardKinematics.SimulatorExactIff`); on a link behind a quarter turn it is off
  at all joint values (`TurnedLink.TurnedLinkIsMisplaced`).
- A root directory name with outer white space or a carriage return does not survive the marker file, so the returned root
  does not validate again (`SourceCache.SurvivesIffPlain`); `SourceCalls.SpacedRootIsLost` is such a download.
- `convex_parts` on its own may fill a notch, exactly when the last triangle turns right
  (`Notches.CoversExactlyIffLastTurnsLeft`, `Notches.DartNotchIsFilled`). On a simple polygon that is when its vertices
  run clockwise (`CleanPolygons.CoversExactlyIffCounterclockwise`), so on a simple outline that `clean_polygon` lets pass it
  never does: the parts are convex and cover it exactly, and clipping never gets stuck (`TargetPolygons.TargetParts`).
- `segment_distances` takes lines for parallel when the cross product of the edges is at most 1e-15 and then misses a
  crossing unless an end touches (`SegmentDistances.TouchIsSeenIff`), so `clean_polygon` lets an outline pass that crosses
  itself with edges of 20 nm (`TinyCrossing.SelfCrossingPasses`). Where no pair of edges is in doubt what passes is simple
  (`Outlines.NoneNearIsSimple`).
- A call that breaks off can leave an unchanged index without its root, exactly when it was installing the same revision
  anew, on a refresh or under another name (`SourceCache.RootCanBeLostIff`); `SourceCalls.RefreshLosesRoot` is such a
  refresh, whose process dies between the two renames.
- An archive whose top-level directory is named like the marker file cannot be published (`SourceCalls.FirstDownload`).

The handling of a 304 answer follows section 15.4.5 of RFC 9110, with the If-None-Match precondition of section 13.1.2:
an answer without a preceding conditional request is an error, and a second one to an unconditional retry as well.

## Model

| member | source | states |
|---|---|---|
| `Table.SequentialMap` | workbench/research/support/hugmap.py:687-708 | One uninterrupted pass over a grid gives the sequential rows, each told from the row before it: an excluded point carries its reason; a point after a multiple of four solved ones is the solver's answer without a warm start; any other one is its answer from the pose of the point solved before it, or from none if none was found there |
| `Table.SolveBatch` | workbench/research/support/hugmap.py:687-708 | A worker that is handed a batch, some of it already saved, solves every missing item from the pose of the item before it, saved or just solved, or from none if that has none or there is no item before, and returns exactly those rows, up to the item where it is stopped; they are rows of the sequential run |
| `Table.ThreadedIff` | workbench/research/support/hugmap.py:687-708 | The rows of the sequential run are the threaded ones and no others: the rows' own outcomes and the solver's answers determine them |
| `Table.FreshBatch` | workbench/research/support/hugmap.py:1057-1059 | Wherever the count of solved points is a multiple of four the sequential warm start is empty, so batches can be cut there |
| `Table.AddItem` | workbench/research/support/hugmap.py:1056-1059 | Collecting four solvable points one after another gives a batch whose own warm starts are the sequential ones, and the fourth brings the count back to a multiple of four |
| `TableLedger.CountCovers` | workbench/research/support/hugmap.py:1033-1033 | A list of distinct sequential rows never outgrows the grid, and has the grid's length exactly when every grid point has a row |
| `TableLedger.CoveringIsSequential` | workbench/research/support/hugmap.py:1033-1033 | A map with as many rows as the grid has points holds every row of the sequential run |
| `TableLedger.RecordKeepsMap` | workbench/research/support/hugmap.py:1025-1033 | Recording a row of an unsaved point keeps rows, coordinate index, counters and the complete-iff-full status in step |
| `TableLedger.RecordTotals` | workbench/research/support/hugmap.py:1030-1031 | One recorded row raises the visited total and the global counters by exactly that row |
| `TableLedger.TallyCounts` | workbench/research/support/hugmap.py:1030-1031 | Each counter is the number of recorded rows of its status |
| `TableLedger.RecordSettles` | workbench/research/support/hugmap.py:1030-1031 | Recording a row takes its point, and no other, off what outstanding batches owe; nothing the generator has passed is lost |
| `TableLedger.VisitedAll` | workbench/research/support/hugmap.py:1098-1099 | The visited total never exceeds diameters times grid points and reaches it exactly when every map is full |
| `TableLedger.SettledIsFull` | workbench/research/support/hugmap.py:1072-1086 | When the generator has passed everything and nothing is owed, every row is in |
| `TableLedger.SkipFullMap` | workbench/research/support/hugmap.py:1046-1046 | Skipping a complete map leaves no unsaved point behind the generator |
| `TableLedger.PopOwed` | workbench/research/support/hugmap.py:1083-1085 | Taking one finished batch out of the outstanding ones removes exactly its own unsaved points, which no other batch shares |
| `TableLedger.DeliveredKeys` | workbench/research/support/hugmap.py:687-708 | A batch delivers each of its unsaved points once, in order |
| `TableRun.TableRun.constructor` | workbench/research/support/hugmap.py:1002-1011 | A run starts with totals that equal its loaded rows, nothing outstanding and the generator at the first point |
| `TableRun.TableRun.Save` | workbench/research/support/hugmap.py:1013-1020 | Each checkpoint appended to the log is a document whose entries and summary tell the truth about its rows |
| `TableRun.TableRun.Record` | workbench/research/support/hugmap.py:1025-1033 | Recording a row of the sequential run changes one map by that row and all counters accordingly |
| `TableRun.TableRun.SaveWhenDue` | workbench/research/support/hugmap.py:1040-1041 | A checkpoint is written exactly when ten seconds have gone by or the map has just been completed, and it is the current document |
| `TableRun.TableRun.Emit` | workbench/research/support/hugmap.py:1022-1041 | A row is recorded if and only if its point has none yet; the duplicate error is reported otherwise and changes nothing |
| `TableRun.TableRun.TakePoint` | workbench/research/support/hugmap.py:1056-1059 | A solvable point joins the batch; a full batch is handed over exactly when something in it is unsaved |
| `TableRun.TableRun.PassExcluded` | workbench/research/support/hugmap.py:1048-1055 | An excluded point gets its row once, at once, and never enters a batch |
| `TableRun.TableRun.ScanMap` | workbench/research/support/hugmap.py:1045-1061 | The generator over one map loses no point unless a stop is seen, and never runs into a duplicate |
| `TableRun.TableRun.NextJob` | workbench/research/support/hugmap.py:1043-1061 | The generator hands over well-cut batches that overlap no outstanding one, and ends only when every map has been passed or a stop was seen |
| `TableRun.TableRun.Fill` | workbench/research/support/hugmap.py:1075-1080 | At most twice as many batches as workers are outstanding, and unless the generator is finished at least one is |
| `TableRun.TableRun.Collect` | workbench/research/support/hugmap.py:1083-1085 | A finished future in any slot leaves the outstanding ones and records, in order, exactly its batch's missing rows up to where its worker got; without a stop at least one row is new; a raising one records nothing |
| `TableRun.TableRun.Turn` | workbench/research/support/hugmap.py:1072-1085 | One turn of the main loop keeps every invariant, keeps the bound on outstanding batches and makes progress; a process killed while waiting still has rows missing |
| `TableRun.TableRun.Loop` | workbench/research/support/hugmap.py:1071-1086 | The main loop ends, and if it ends by itself with no stop seen, the visited total is the table's total |
| `TableRun.TableRun.Finish` | workbench/research/support/hugmap.py:1096-1100 | Entries left running take the run's status, or fail when the run is complete; rows and totals stay, and a last document is saved with the run's status |
| `TableRun.TableRun.Run` | workbench/research/support/hugmap.py:1063-1101 | Without exceptions and interrupts a run ends complete with every row, or cancelled when a poll saw the stop flag; the incomplete-table error never occurs; no entry is left running; as many productive waits as rows are missing bring it to its end |
| `TableLife.RunSession` | workbench/research/support/hugmap.py:976-1101 | Every document a session saves belongs to the same table and is part of the sequential one; left alone it completes the table |
| `TableLife.Open` | workbench/research/support/hugmap.py:980-1001 | Resuming accepts every document an earlier session saved and keeps its rows; only a worker count below one is refused |
| `TableLife.Life` | workbench/research/support/hugmap.py:976-1101 | Whatever the sequence of sessions, worker counts, completion orders, stops, exceptions and crashes between saves, the file holds nothing or a valid document, and a complete one holds exactly the sequential rows |
| `TableLife.CompleteIsSequential` | workbench/research/support/hugmap.py:976-1101 | A document whose summary says complete holds, for every diameter, exactly the rows of one sequential uninterrupted run, each once |
| `TableLife.CompleteIsCovering` | workbench/research/support/hugmap.py:1033-1033 | A saved entry is complete if and only if its rows cover the grid |
| `TableLife.SchedulesAgree` | workbench/research/support/hugmap.py:976-1101 | Two lives of a table with the same configuration and diameters that both end complete hold the same rows |
| `TableLife.GoodIsAccepted` | workbench/research/support/hugmap.py:929-973 | Every document any session ever saves is accepted by validation for resuming |
| `TableDocument.ValidateTable` | workbench/research/support/hugmap.py:929-973 | Validation accepts exactly the documents whose metadata, diameter plan and every row fit: on the grid, no pose twice, thresholds not negative, complete entries full |
| `TableDocument.AcceptsIff` | workbench/research/support/hugmap.py:929-973 | What is accepted, written out: the table format and version, a usable configuration, when resuming the same surroundings and solver revision, an increasing plan that names the maps, rows on the lattice within reach with thresholds that are not negative, no point twice, and complete entries with as many rows as the grid has points |
| `TableDocument.CheckRows` | workbench/research/support/hugmap.py:1137-1154 | The row checks of a saved map accept exactly distinct poses on the declared lattice inside the table's region |
| `TableDocument.CheckPlan` | workbench/research/support/hugmap.py:943-950 | The plan is accepted exactly when it is strictly increasing, positive and names the maps in order |
| `TableDocument.DiameterValues` | workbench/research/support/hugmap.py:845-856 | Diameters run from minimum to maximum in equal steps, strictly increasing and positive; an error exactly when the range is not a whole number of at most 10000 positive steps |
| `TableCheckpoint.PathIsWhole` | workbench/research/support/hugmap.py:859-918 | For any number of contending writers and any interleaving, failures, further saves after a failed one and crashes between file steps, the path holds what it held at the start or one of the saved documents, whole |
| `TableCheckpoint.OneWriterAtATime` | workbench/research/support/hugmap.py:867-880 | At most one writer is past the lock at any time |
| `TableCheckpoint.FreshOverwritesOnlyItself` | workbench/research/support/hugmap.py:881-887 | A fresh run never replaces a table that another run wrote |
| `TableCheckpoint.LinkSucceeds` | workbench/research/support/hugmap.py:898-903 | A fresh writer's hard link meets no table but its own, left by a save that failed to remove its temporary file; it then fails and changes nothing |
| `TableCheckpoint.SavesAgain` | workbench/research/support/hugmap.py:1086-1100 | After a failed save the same writer saves again over its own table |
| `TableCheckpoint.StepPath` | workbench/research/support/hugmap.py:890-907 | A single file step leaves the path alone or puts the stepping writer's whole document there, under its lock |
| `TableCheckpoint.RunSafe` | workbench/research/support/hugmap.py:859-918 | The invariant of lock, temporary files and path holds after every run of the protocol |
| `Grid.GridPoints` | workbench/research/support/hugmap.py:452-458 | The nested loops yield exactly the lattice points column by column |
| `Grid.GridIsLattice` | workbench/research/support/hugmap.py:444-458 | The enumeration contains a point if and only if it is a lattice point of the closed quarter disc; the axis bounds lose none |
| `Grid.PointsOnce` | workbench/research/support/hugmap.py:452-458 | No point is enumerated twice |
| `Grid.LatticeIsDisc` | workbench/research/support/hugmap.py:449-456 | The lattice written out: whole multiples of the steps with x at most and y at least zero, within 500 mm of the centre |
| `Grid.PointsInOrder` | workbench/research/support/hugmap.py:452-458 | The points come ordered by x, then y, then angle |
| `Grid.AnglesFillTurn` | workbench/research/support/hugmap.py:438-441 | A circle is not turned; other shapes take every multiple of the angle step from -180 up to below 180 degrees |
| `Grid.GridSize` | workbench/research/support/hugmap.py:461-469 | The analytic row-by-row count equals the length of the enumeration for every positive step pair and every angle list |
| `Grid.RowIsInterval` | workbench/research/support/hugmap.py:465-468 | In one row the lattice points inside the disc are those down to minus the floor of the half width over dx |
| `Grid.Exchange` | workbench/research/support/hugmap.py:461-469 | Counting index pairs by columns and by rows agrees |
| `BatchedSolver.FitAlone` | workbench/research/support/hugmap.py:606-620 | The loop for one start on its own ends, as far as anything reads it, where 79 steps lead, leaving early only when it is inactive |
| `BatchedSolver.Batch.MoveAll` | workbench/research/support/hugmap.py:610-620 | The vectorised step with its masked assignments moves every row exactly as the scalar step moves it |
| `BatchedSolver.Batch.Fit` | workbench/research/support/hugmap.py:606-620 | After the batched loop every row is, as far as anything reads it, where its lone run ends |
| `BatchedSolver.Idle` | workbench/research/support/hugmap.py:608-609 | A row found inactive stays as it is, so leaving the loop early changes nothing |
| `BatchedSolver.ResidualNeverIncreases` | workbench/research/support/hugmap.py:617-618 | A row's squared residual never increases over any number of steps |
| `BatchedSolver.StepsSound` | workbench/research/support/hugmap.py:615-620 | Angles stay in the box of plus or minus pi, damping stays positive, and residuals and gradients stay those of the angles |
| `BatchedSolver.StepDescends` | workbench/research/support/hugmap.py:610-614 | Before clipping the damped step has negative slope against the gradient, and is zero when the gradient is |
| `BatchedSolver.ResidualsDescend` | workbench/research/support/hugmap.py:610-614 | Written out in the residuals and the Jacobian's entries: along the step the squared residual falls, unless the transposed Jacobian takes the residuals to zero, and then the step is zero |
| `BatchedSolver.StepSolves` | workbench/research/support/hugmap.py:610-613 | The damped Gauss-Newton step solves the normal equations written out in the Jacobian's entries and the residuals, their diagonal raised by the damping, wherever the determinant floor does not bind |
| `BatchedSolver.StepIsShortened` | workbench/research/support/hugmap.py:614-614 | The step taken is that one itself when it is no longer than 0.35, and otherwise its shortening to 0.35 |
| `BatchedSolver.StepsAreFit` | workbench/research/support/hugmap.py:606-620 | The 79 steps of a start form a trace whose every step is told in residuals, angles, box and damping alone: a trial is taken exactly when it is boxed and no worse |
| `BatchedSolver.OffersAreOffers` | workbench/research/support/hugmap.py:597-624 | A start's offer is what the validator makes of the start itself, where that is possible and accepted, and else of the pose where its trace ends, if both residuals there are at most 0.001 |
| `BatchedSolver.StepIsCapped` | workbench/research/support/hugmap.py:614-614 | No step is longer than 0.35 |
| `BatchedSolver.NormalIsDefinite` | workbench/research/support/hugmap.py:610-612 | The damped 2x2 normal matrix is positive definite for any Jacobian |
| `BatchedSolver.Pick` | workbench/research/support/hugmap.py:621-629 | The candidate loop with its early exit keeps exactly the greedy selection of the offers |
| `BatchedSolver.KeptAreSpread` | workbench/research/support/hugmap.py:627-628 | Kept candidates are offered poses, pairwise at least 0.1 degree apart in some angle |
| `BatchedSolver.KeptCover` | workbench/research/support/hugmap.py:627-629 | Unless sixteen are kept, every offered pose is near a kept one |
| `BatchedSolver.KeptIsGreedy` | workbench/research/support/hugmap.py:627-629 | The kept candidates are the offers at increasing places, each unlike all kept before it, at most sixteen, and an offer left out while there is room is like a kept one |
| `BatchedSolver.Best` | workbench/research/support/hugmap.py:630-630 | The returned candidate is the first of least friction |
| `BatchedSolver.SolvePlacement` | workbench/research/support/hugmap.py:597-632 | The whole search gives what fitting every start alone and selecting greedily gives: there are traces of 79 steps, offers at their ends and a greedy selection of them, all told without the solver's own functions, of which the answer is the first of least friction; it fails only when a stop was seen |
| `ForceClosure.ClosureIsForceClosure` | workbench/research/support/newhug.py:263-299 | For well-posed contacts the score exists, and closure at mu is reported if and only if the four cone-edge wrenches positively span all planar wrenches and the normals do not both point away |
| `ForceClosure.SpansExactly` | workbench/research/support/newhug.py:263-299 | Positive spanning holds exactly when the chord lies strictly inside both cones, or strictly inside both reversed cones |
| `ForceClosure.ClosureIsFacing` | workbench/research/support/newhug.py:263-299 | The reported threshold is strict: closure at mu is the chord lying strictly inside both friction cones |
| `ForceClosure.PullingApartIsMissed` | workbench/research/support/newhug.py:263-286 | Two contacts whose normals point away along the chord span all wrenches at every positive mu, yet the score says never |
| `EarClipping.ConvexParts` | workbench/research/support/newhug.py:852-877 | A polygon with no right turn left is returned whole; any other is triangulated by first ears, or reported as an error exactly when some stage has no ear; the bound on rounds never cuts it short; whatever is returned has the polygon's area and winding in total |
| `EarClipping.RemoveStraight` | workbench/research/support/newhug.py:855-859 | The cleaning loop drops all straight vertices at once, round after round, while more than three vertices are left |
| `EarClipping.CleanedKeepsRegion` | workbench/research/support/newhug.py:855-859 | Cleaning leaves the signed area and every point's winding number unchanged, and no straight vertex unless at most three are left |
| `EarClipping.DropStraight` | workbench/research/support/newhug.py:857-859 | Dropping any set of straight vertices at once changes neither area nor winding |
| `EarClipping.ClippingConserves` | workbench/research/support/newhug.py:862-876 | Any antisymmetric edge quantity of the polygon is the sum over the triangles, of which there are two fewer than vertices |
| `EarClipping.EarsTurnLeft` | workbench/research/support/newhug.py:869-875 | Every part is a triangle and every clipped ear turns left |
| `EarClipping.TrianglesKeepRegion` | workbench/research/support/newhug.py:852-877 | The triangles' signed areas sum to the polygon's, and around every point they wind as often in total as the polygon |
| `EarClipping.TrianglesKeepInside` | workbench/research/support/newhug.py:852-877 | A point is inside the polygon exactly when an odd number of triangles contain it |
| `Notches.CoversExactlyIffLastTurnsLeft` | workbench/research/support/newhug.py:852-877 | Every point lies in exactly as many triangles as the polygon winds around it if and only if the last triangle does not turn right |
| `Notches.DartNotchIsFilled` | workbench/research/support/newhug.py:852-877 | The failing input: for the clockwise dart (0,3), (1,0), (0,1), (-1,0) the two triangles that must come out both contain a point of its notch, which is outside the dart |
| `Notches.ClipsIsUnique` | workbench/research/support/newhug.py:862-876 | The triangulation is determined by the polygon, and one that exists excludes the error |
| `SimplePolygons.EarUncrossed` | workbench/research/support/newhug.py:609-630 | In a polygon whose non-neighbour edges keep apart no other edge comes into the closed triangle of an ear, but for its own end there |
| `SimplePolygons.ClippedIsSimple` | workbench/research/support/newhug.py:869-875 | Taking a vertex off keeps non-neighbour edges apart whenever the new edge does, as an ear's and a straight vertex's does |
| `SimplePolygons.CleanedIsSimple` | workbench/research/support/newhug.py:855-859 | Cleaning keeps non-neighbour edges apart |
| `Windings.SameWinding` | workbench/research/support/newhug.py:574-582 | The winding number of the crossing rule is the same at both ends of any segment that touches no edge |
| `Triangulations.Escape` | workbench/research/support/newhug.py:862-876 | For every point of an ear off the edges there is a point outside the ear, off the edges too, around which the polygon winds as often |
| `Triangulations.LastGivesDirection` | workbench/research/support/newhug.py:862-876 | A simple polygon whose ears come off winds, around every point off its edges, zero times or once in the one direction its last triangle turns |
| `AreaSign.AreaNonpositive` | workbench/research/support/newhug.py:601-606 | A closed polygon that winds nowhere positively has no positive signed area |
| `Outlines.CleanPolygon` | workbench/research/support/newhug.py:609-630 | clean_polygon: the exact conditions under which an outline passes, and its result, a function of the open outline; a simple one comes back counterclockwise, with its area, its centroid at the origin, and the same inside moved by the centroid |
| `Outlines.CleanClosed` | workbench/research/support/newhug.py:615-616 | Repeating the first vertex at the end changes nothing: the same outlines pass, with the same clean polygon, which is that of the vertices without the repetition |
| `Outlines.OpenPassesIff` | workbench/research/support/newhug.py:609-630 | An outline whose last vertex is not its first one passes exactly when it has 3 to 128 vertices with coordinates within 10, edges of at least 1e-8, non-neighbour edges at least 1e-10 apart and an area of at least 1e-9 |
| `Outlines.TriangleCentroid` | workbench/research/support/newhug.py:601-606 | The centroid of a triangle is the mean of its vertices |
| `Outlines.CentroidSplits` | workbench/research/support/newhug.py:601-606 | Cutting a vertex off splits the area and the area-weighted centroid into those of the rest and of the corner |
| `Outlines.MovedCentroid` | workbench/research/support/newhug.py:601-606 | A polygon moved by polygon_area_centroid's centroid has its centroid at the origin and its area unchanged |
| `Outlines.ReversedCentroid` | workbench/research/support/newhug.py:601-630 | Reversing the vertices negates the signed area and keeps the centroid |
| `Outlines.NoneNearIsSimple` | workbench/research/support/newhug.py:619-623 | An outline that passes the distance check is simple whenever no two of its non-neighbour edges are nearly but not quite parallel |
| `SegmentDistances.TouchIsSeenIff` | workbench/research/support/newhug.py:560-571 | Two touching segments get the distance zero if and only if the lines are not taken for parallel or an end of one is on the other |
| `SegmentDistances.TouchIsSeen` | workbench/research/support/newhug.py:560-571 | Touching segments whose lines are parallel, or not taken for it, get the distance zero |
| `SegmentDistances.GapVanishes` | workbench/research/support/newhug.py:552-557 | The distance of a point to a segment is zero exactly for the points of the segment |
| `ExactDistances.GapIsLeast` | workbench/research/support/newhug.py:552-557 | No point of a segment is nearer to a point than point_segment_distance says |
| `ExactDistances.DistanceIsBelow` | workbench/research/support/newhug.py:560-571 | Unless the lines are nearly but not quite parallel, no two points of two segments of length at least 1e-15 are nearer than segment_distances says |
| `ExactDistances.DistanceIsAttained` | workbench/research/support/newhug.py:560-571 | It is the distance of two points of the segments, or zero where their lines meet at most 1e-12 of a length past an end |
| `TinyCrossing.SelfCrossingPasses` | workbench/research/support/newhug.py:609-630 | The failing input: an outline of six vertices, all edges long enough and the area large enough, that crosses itself with two edges of 20 nm and passes |
| `TargetPolygons.TargetParts` | workbench/research/support/newhug.py:1217-1227 | From outline to parts, a function of the open outline: on a simple outline an error exactly when clean_polygon rejects it, and otherwise convex parts that lie once over every inside point off the edges and over no outside one |
| `TargetPolygons.TargetPartsClosed` | workbench/research/support/newhug.py:1217-1227 | A closed outline has the parts of the open one |
| `TargetPolygons.NeverStuck` | workbench/research/support/newhug.py:861-877 | Clipping never runs out of ears on a simple polygon of positive area |
| `TargetPolygons.AreaIffCounterclockwise` | workbench/research/support/newhug.py:624-629 | A simple polygon turns left at its lowest vertex exactly when its signed area is positive |
| `TargetPolygons.PartsAreConvex` | workbench/research/support/newhug.py:852-877 | Every part returned for such a polygon is convex |
| `TwoEarsTheorem.TwoEarsOf` | workbench/research/support/newhug.py:865-876 | A simple counterclockwise polygon of more than three vertices has two ears that are not neighbours |
| `TwoEarsTheorem.RestIsCounterclockwise` | workbench/research/support/newhug.py:865-876 | Clipping any ear leaves a simple counterclockwise polygon |
| `TwoEarsTheorem.WindsOnce` | workbench/research/support/newhug.py:574-582 | Around every point off its edges such a polygon winds once or not at all |
| `LocallyConvex.NeverRightIsConvex` | workbench/research/support/newhug.py:860-861 | A simple counterclockwise polygon that never turns right is convex: every vertex is on the left of every edge |
| `CleanPolygons.CoversExactlyIffCounterclockwise` | workbench/research/support/newhug.py:609-630 | A simple polygon that is clipped is covered exactly by its triangles if and only if its signed area is positive, or it is one flat triangle: what clean_polygon's reversal by the sign of the area secures |
| `CleanPolygons.CleanPolygonIsPartitioned` | workbench/research/support/newhug.py:609-630 | For every simple polygon of positive area that is clipped the triangles cover exactly what the polygon winds around: off its edges every inside point is in exactly one triangle and every outside point in none |
| `CleanPolygons.PartsCoverOnce` | workbench/research/support/newhug.py:852-877 | The same for whatever convex_parts returns, the polygon itself included |
| `EarClipping.InsideIsOddWinding` | workbench/research/support/newhug.py:574-582 | The even-odd point test is the parity of the winding number |
| `EarClipping.TriangleWinding` | workbench/research/support/newhug.py:574-582 | A left-turning triangle winds once around the points inside it and not at all around the others |
| `EarClipping.FindEar` | workbench/research/support/newhug.py:867-874 | The search takes the first vertex that turns left and whose triangle contains no other remaining vertex |
| `RingClip.LevelOf` | workbench/research/support/newhug.py:393-408 | The parameters within a radius form an interval, and the reported intersections are exactly its ends inside the unit interval |
| `RingClip.MergePieces` | workbench/research/support/newhug.py:445-451 | Merging the selected intervals gives ordered, disjoint pieces that cover exactly the selected intervals |
| `RingClip.ClipSegmentToBand` | workbench/research/support/newhug.py:441-452 | The pieces are ordered and disjoint inside the unit interval, and are the parameters inside the band up to isolated points if and only if the input is not the degenerate one; an error exactly for a segment of no length with a positive radius |
| `RingClip.ZeroBandThroughCentre` | workbench/research/support/newhug.py:441-452 | The degenerate input: a band of radius zero met by the midpoint returns a piece that is not in the band |
| `RingClip.DecisiveTestsClip` | workbench/research/support/newhug.py:445-451 | When no radius is crossed between neighbouring cuts, testing midpoints clips the whole segment |
| `ConsensusBand.SuggestGatherBand` | workbench/research/support/newhug.py:411-438 | The report in plain terms: a piece between every two neighbouring interval ends with the number of intervals around it; the largest of these; the least positive integer not below the demanded share of it; and the band of the stretch of pieces with that support that reaches the peak and is heaviest, then longest, then first, absent exactly when the peak is below one; an error exactly for a fraction outside (0, 1] |
| `ConsensusBand.BestWins` | workbench/research/support/newhug.py:436-436 | The best run beats every stretch of supported pieces that reaches the peak, not only the maximal ones |
| `ConsensusBand.Sweep` | workbench/research/support/newhug.py:423-428 | The sweep over sorted positions gives every piece its net count |
| `ConsensusBand.CountsContaining` | workbench/research/support/newhug.py:424-428 | Each count is the number of intervals containing the piece, less those given the wrong way round; for proper intervals it is the number alone |
| `ConsensusBand.PeakIsMaximalOverlap` | workbench/research/support/newhug.py:429-429 | No stretch of positive length lies in more intervals than the peak says |
| `ConsensusBand.Components` | workbench/research/support/newhug.py:431-435 | The merged components are exactly the maximal connected runs at or above the required support |
| `ConsensusBand.BestRun` | workbench/research/support/newhug.py:436-436 | The chosen component is the first that none exceeds in peak, weighted length and length |
| `ConsensusBand.BestIsBand` | workbench/research/support/newhug.py:430-437 | The best component is a maximal supported run that attains the peak |
| `ConsensusBand.RequiredIsReachable` | workbench/research/support/newhug.py:430-430 | The required support is at least one and at most the peak |
| `GatherNeedles.Gather` | workbench/research/support/newhug.py:455-500 | The band is the given one or else that of a consensus report of the eligible needles; there is one row for every key among the middles of the pieces along it, that of the first piece with the key, in order of appearance and counting all of them; every row lies in the band from end to end at a radius within it, and every needle meets the band, misses it or is cut off by friction; an error exactly for a bad fraction, a bad band or, with a band, an eligible needle of no length |
| `GatherNeedles.BooksArePlain` | workbench/research/support/newhug.py:470-491 | The books are described without the loop: rows, sources, branches, copies and counters are read off the places (needle, piece) with the same key |
| `GatherNeedles.BelowIsFiltered` | workbench/research/support/newhug.py:460-461 | The eligible needles are those below the cutoff, in the map's order |
| `GatherNeedles.Sweep` | workbench/research/support/newhug.py:470-491 | The loop returns exactly the books of the clips of all eligible needles, in order |
| `GatherNeedles.BooksAreRight` | workbench/research/support/newhug.py:470-491 | The books of clips are in balance: every row is a whole piece inside the band, every piece has its key among the rows, and the counters are those of the clips |
| `GatherNeedles.Park` | workbench/research/support/newhug.py:473-491 | A piece becomes a new row or one more copy of the row with its key, and the counters stay in balance |
| `SeparationBound.MinProjectionExact` | model/elesim_model_builder/curobo.py:15-22 | The minimum of x cos t + z sin t over an interval is a lower bound for every point and is attained |
| `SeparationBound.ChainTracks` | model/elesim_model_builder/curobo.py:25-57 | Along every supported chain the accumulated angle interval and offset bound the true frame for every joint value |
| `SeparationBound.Bound` | model/elesim_model_builder/curobo.py:25-57 | A number is returned exactly when every joint is neither rolled nor yawed and is fixed, a bend about Y, or a slide along or turn about X with no pitch that can have added up; it is the sum of the least X of every joint's origin over its interval, the lower ends of the slides and the least X of the child, less the greatest X of the parent; and for every independent choice of joint values every child vertex lies at least that far beyond every parent vertex |
| `SeparationBound.FoldIff` | model/elesim_model_builder/curobo.py:25-57 | The chain is supported exactly when every joint is, by the pitch limits that the joints before it add up to |
| `SeparationBound.SwingIsReached` | model/elesim_model_builder/curobo.py:25-57 | Both ends of the interval of pitches are taken, with all joints at their lower or all at their upper ends |
| `SeparationBound.BoundIsAttained` | model/elesim_model_builder/curobo.py:25-57 | Where no bend but the last joint moves the bound is exact: some admissible joint values and two vertices have just this gap |
| `SeparationBound.NarrowedStaysSeparated` | model/elesim_model_builder/curobo.py:227-229 | A gap proved over the old limits holds over any narrower ones |
| `SeparatedPairs.Climb` | model/elesim_model_builder/curobo.py:171-182 | The walk up one link's chain visits every ancestor, adds exactly the pairs whose certified gap exceeds the threshold and records each with a valid gap |
| `SeparatedPairs.SeparatePairs` | model/elesim_model_builder/curobo.py:169-182 | Beyond the given pairs exactly those of a link and one above it are ignored whose certified gap along the joints between them exceeds a micrometre; each has exactly one record, whose gap is positive, a nanometre less than certified and holds for all admissible joint values |
| `RigidGroups.MergeGroups` | model/elesim_model_builder/curobo.py:153-159 | After merging in any joint order the groups are exactly the connected components of the fixed joints |
| `RigidGroups.AdjacentPairs` | model/elesim_model_builder/curobo.py:160-166 | The pairs are exactly those of distinct sphered links in one rigid body or in two bodies joined by a joint |
| `RigidGroups.WeldsJoinTheirBody` | model/elesim_model_builder/curobo.py:160-166 | Two different links of one rigid body are always paired by one of its own joints |
| `FurthestPoint.FpsReference` | workbench/research/experiments/adapointr.py:56-75 | The reference fills its result with the furthest-point sample |
| `FurthestPoint.FpsKernel` | workbench/research/support/adapointr_ops.py:13-35 | The kernel's blockwise minimum-lane, minimum-index choice gives the same sample, all-invalid case included |
| `FurthestPoint.CompareOperators` | workbench/research/support/adapointr_ops.py:13-45 | Reference and kernel return the same indices |
| `FurthestPoint.SampleIsUnique` | workbench/research/experiments/adapointr.py:56-75 | The sample is determined by the points and the count |
| `FurthestPoint.SampleIsFurthest` | workbench/research/experiments/adapointr.py:56-75 | Every pick after the first, which is index 0, lies furthest from the earlier picks, distances capped, among the points of squared length above 0.001, and is first in the order of lanes, the largest power of two up to the count and 512; index 0 when there is no such point |
| `FurthestPoint.LaneOrder` | workbench/research/experiments/adapointr.py:63-64 | The lane-then-index order lists every index and is strictly ordered |
| `FurthestPoint.ArgMax` | workbench/research/experiments/adapointr.py:73-74 | The index taken is the first maximum in the given order |
| `FurthestPoint.SampleCoversWithinTwice` | workbench/research/experiments/adapointr.py:56-75 | If the first point is valid and the cap is not reached, the sample covers the valid points within twice the radius of any equally many centres |
| `FurthestPoint.PicksStaySpread` | workbench/research/experiments/adapointr.py:56-75 | Every valid point is at least as near to a pick as any two of the picks and the point are to each other |
| `VoxelComponents.ComponentCount` | workbench/research/analysis/compare_voxel_mesh.py:34-50 | For every cell list and pop order the result is the number of 6-connected components, each cell leaves the pending set exactly once, and the loops end |
| `VoxelComponents.FloodIsComponent` | workbench/research/analysis/compare_voxel_mesh.py:40-49 | A finished flood from a start is its whole component |
| `Layout.AssemblyPlan.Validate` | model/elesim_model_builder/robot_defs.py:188-195 | Validation passes exactly when the root and both ends of every edge are parts |
| `Layout.ResolveJointLayout` | model/elesim_model_builder/json_builder.py:319-406 | For a rooted tree the layout is an error exactly when a child connector lacks its joint or contradicts the edge; otherwise every connector pair coincides, and every joint is named as its edge, stands where both connectors come to lie and points along the child connector's axis as the child is turned |
| `Layout.PoseParts` | model/elesim_model_builder/json_builder.py:335-367 | The stack traversal poses every part of a tree exactly once, the root as given, and makes every edge fit |
| `Layout.ChildPoseCoincides` | model/elesim_model_builder/json_builder.py:348-365 | The computed child pose makes the parent's `to` frame and the child's `from` frame coincide |
| `Layout.CoincidenceIsUnique` | model/elesim_model_builder/json_builder.py:348-365 | Coincidence of the two frames determines the child's pose |
| `Layout.BuildJoints` | model/elesim_model_builder/json_builder.py:369-405 | The joint list is in edge order, with the error cases of missing and contradicting joint metadata |
| `Layout.UrdfRebuildsPoses` | model/elesim_model_builder/urdf_converter.py:296-312 | Composing URDF origins from the root gives back every root pose |
| `Layout.IkRebuildsPosesIffNoOffset` | model/elesim_model_builder/context_builder.py:113-138 | The IK chain gives the same neutral frames if and only if every child that does not start at its own pose has its `from` frame at its origin |
| `Layout.AxesAgree` | model/elesim_model_builder/urdf_converter.py:314-315 | Both encodings store the connectors' own axis, and one is the other seen through the relative rotation |
| `LinkFrames.ForwardLinks` | payload/runtime/docker/pilot/app/elesim_pilot/robot/arm/iklib/kinematics.py:86-108 | The loop of the pilot's forward kinematics: entries in list order, those without a placed parent skipped, three motions by joint kind; its frames are the fold over the chain |
| `LinkFrames.BuildChain` | model/elesim_model_builder/context_builder.py:105-138 | The chain of the solver context, skipping joints without a name or end |
| `LinkFrames.LinkTransforms` | payload/runtime/docker/pilot/app/elesim_pilot/robot/arm/iklib/kinematics.py:71-108 | Chain and loop together, from the base and the root's pose |
| `LinkFrames.PlacesAllParts` | payload/runtime/docker/pilot/app/elesim_pilot/robot/arm/iklib/kinematics.py:86-90 | The loop places all parts of a rooted tree if and only if no joint is skipped for an empty name and every joint is listed after its parent's |
| `LinkFrames.PlacedIsCompounded` | payload/runtime/docker/pilot/app/elesim_pilot/robot/arm/iklib/kinematics.py:86-108 | Whatever the order, a part that is placed at all is placed where the entries lead along the tree |
| `LinkFrames.ExactIffStepsMatch` | payload/runtime/docker/pilot/app/elesim_pilot/robot/arm/iklib/kinematics.py:86-108 | The loop places exactly the tree's parts at the frames of given joint steps if and only if nothing is skipped, the roots are one and each entry takes its own joint's step: no two errors cancel |
| `JointMotion.UrdfStepped` | model/elesim_model_builder/urdf_converter.py:296-315 | A URDF joint, moving behind its origin along or about the axis in the child's frame, is the same motion before the child's own turn about the axis in the parent's frame |
| `JointMotion.AtAllValues` | payload/runtime/docker/pilot/app/elesim_pilot/robot/arm/iklib/kinematics.py:71-108 | At all joint values a reader's frames are the URDF's if and only if nothing is skipped, the roots are one and every entry starts and points as its URDF joint does |
| `ForwardKinematics.PilotExactIff` | payload/runtime/docker/pilot/app/elesim_pilot/robot/arm/iklib/kinematics.py:71-108 | The pilot's forward kinematics puts every part at its URDF pose at all joint values if and only if no joint is skipped, each is listed after its parent's, and every child that does not start at its own pose has its `from` frame at its origin |
| `ForwardKinematics.RestDecides` | payload/runtime/docker/pilot/app/elesim_pilot/robot/arm/iklib/kinematics.py:71-108 | With all joints at zero it already goes wrong whenever it goes wrong at all |
| `ForwardKinematics.PilotTurnsRight` | payload/runtime/docker/pilot/app/elesim_pilot/robot/arm/iklib/kinematics.py:96-108 | The rotation of every part the pilot places is the URDF's at all joint values, whatever the order and the offsets |
| `ForwardKinematics.SimulatorExactIff` | payload/runtime/docker/sim/app/elesim_sim/runtime.py:1297-1329 | The simulator's forward kinematics over its own chain puts every part at its URDF pose at all joint values if and only if no joint is skipped, each is listed after its parent's, the root is where the URDF has it, and anchors and axes look from the root as the children and axes do from their parents |
| `ForwardKinematics.RootsMeetIffUnturned` | payload/runtime/docker/sim/app/elesim_sim/runtime.py:1300-1302 | The simulator's root frame is the URDF's exactly when the root's own rotation, which the simulator drops, is the identity |
| `ForwardKinematics.SimulatorFits` | payload/runtime/docker/sim/app/elesim_sim/runtime.py:2918-2951 | An entry of the simulator's chain fits its URDF joint exactly when the unturned anchor offset equals the child's offset seen from the parent and a moving axis is the same seen from either |
| `TurnedLink.ChildListedFirst` | payload/runtime/docker/pilot/app/elesim_pilot/robot/arm/iklib/kinematics.py:86-90 | The failing input for the order: two joints in a row, the lower one listed first, are a rooted tree, and the last part never gets a frame |
| `TurnedLink.TurnedRowExists` | payload/runtime/docker/sim/app/elesim_sim/runtime.py:2918-2951 | The failing input for the simulator: a part fixed with a quarter turn about z carries a revolute one at (1, 0, 0) that hangs by its own origin |
| `TurnedLink.TurnedLinkIsMisplaced` | payload/runtime/docker/sim/app/elesim_sim/runtime.py:1303-1329 | On it, at all joint values, the pilot's loop puts the last part at (1, 0, 0) and the simulator's at (0, 1, 0), relative to the base |
| `TurnedLink.PilotIsExactThere` | payload/runtime/docker/pilot/app/elesim_pilot/robot/arm/iklib/kinematics.py:71-108 | On it the pilot's frames are the URDF's at all joint values |
| `HingedPair.OffsetMovesNeutralFrame` | model/elesim_model_builder/context_builder.py:113-138 | The failing input: one revolute joint whose child has its `from` frame one unit above its origin; the URDF puts the child one unit below the joint, the IK chain at the joint |
| `Layout.LoadDict` | model/elesim_model_builder/urdf_converter.py:84-98 | Loading succeeds exactly when no part has two parents and exactly one part has none, and returns that part |
| `Layout.FkRoot` | model/elesim_model_builder/context_builder.py:94-103 | The IK root is the first listed part that is not the child of a joint with both ends named; an error exactly when there is none |
| `Layout.TreeHasOneRoot` | model/elesim_model_builder/urdf_converter.py:88-98 | The manifest of a rooted tree has the plan's root as its only root, for both readers |
| `SourceBoundary.AncestorsAllowed` | installer/bootstrap.py:343-372 | Whatever the file, tree and exclusion sets, every proper ancestor of an allowed file is an allowed directory |
| `SourceBoundary.AllowedIff` | installer/bootstrap.py:343-356 | A file is installed exactly when it is neither excluded nor compiled, no component or leading part of it stays in the repository or comes from a build, and it is listed or in a listed tree |
| `SourceBoundary.DirectoryAllowedIff` | installer/bootstrap.py:359-372 | A directory is installed exactly when it is shippable in the same sense and lies above a listed file, in a listed tree or above one |
| `SourceBoundary.CheckMembers` | installer/bootstrap.py:384-404 | The first pass accepts exactly archives with safe names, no link or device inside the boundary and one top-level directory |
| `SourceBoundary.SafeExtract` | installer/bootstrap.py:384-432 | Extraction succeeds exactly when the members are acceptable, no file is where a directory must be and the setup package is there; it then writes exactly the allowed files and the directories above them |
| `SourceBoundary.AcceptsIff` | installer/bootstrap.py:384-432 | An archive is accepted below a top directory exactly when every name is relative and never goes up, links and devices lie only where nothing is installed, all else lies below the top, the setup package is a file and no file is another's directory |
| `SourceBoundary.FilesAreLast` | installer/bootstrap.py:406-427 | A path is a file exactly when a regular member with an allowed name gives it, with the content of the last such member |
| `SourceBoundary.ExtractionStaysInside` | installer/bootstrap.py:406-427 | Every extracted file is path-allowed and every directory above it directory-allowed |
| `SourceBoundary.FreshExtractionPasses` | installer/bootstrap.py:629-651 | The boundary scan of a fresh extraction finds nothing unexpected |
| `SourceBoundary.ScanBoundary` | installer/bootstrap.py:629-651 | The scan, although it stops at five, reports something if and only if some entry is not expected |
| `SourceBoundary.PartsAreClean` | installer/bootstrap.py:389-391 | No component of a member name is empty, a single dot or contains a slash |
| `SourceCache.SurvivesIffPlain` | installer/bootstrap.py:730-734 | A root name is read back from its marker file if and only if it has no carriage return and no white space at its ends |
| `SourceCalls.SpacedRootIsLost` | installer/bootstrap.py:483-502 | The failing input: an archive with the top-level directory " elesim" is extracted, installed and returned without any fault, and its root has no validated revision |
| `SourceCalls.FirstDownload` | installer/bootstrap.py:917-1019 | A first download of any accepted and valid archive returns its root, which is recovered from the index exactly when its name is plain; it raises exactly when the top-level directory is named like the marker file |
| `SourceCalls.FirstCommit` | installer/bootstrap.py:917-1019 | A first codeload of an archive whose comment is a commit installs that commit, or raises and leaves no trace when another one is pinned |
| `SourceBoundary.PartsOfJoin` | installer/bootstrap.py:389-391 | A path of clean components is read back from its member name |
| `SourceBoundary.PartsAtSlash` | installer/bootstrap.py:389-391 | A slash separates components, and a name without one is a single component, or none when it is empty or a dot |
| `SourceCache.Cache.WriteIndex` | installer/bootstrap.py:750-767 | The index is the old one or the new one whatever step raises or is the last |
| `SourceCache.Cache.Replace` | installer/bootstrap.py:900-911 | Quarantine, rename and rollback leave the snapshot name with its old content, with none, or with the whole new snapshot |
| `SourceCache.Cache.Publish` | installer/bootstrap.py:871-914 | Publishing puts the whole staged snapshot in place or accepts a validated one already there |
| `SourceCache.Cache.Refresh` | installer/bootstrap.py:956-971 | A 304 answer returns the cached root; whatever happens revision, root name and digest of the index stay |
| `SourceCache.Cache.DownloadSource` | installer/bootstrap.py:917-1019 | Every call does what it is meant to (`WishOf`: raise, return the cached root, renew its validators or install an archive) or breaks off on the way; without faults it does exactly that and raises exactly when it is meant to; every snapshot stays as it was or is published whole, a changed index leads to a valid snapshot, a reference or tail of forty hexadecimal digits in a codeload request is met exactly, and a returned root is recovered exactly when its name is plain |
| `SourceCache.WishesAreSound` | installer/bootstrap.py:928-998 | What a call is meant to do fits the index, the cached root, the archive and a pinned commit |
| `SourceCache.CommitsAreNamed` | installer/bootstrap.py:445-467 | A codeload reference, or the tail when there is none, pins a commit exactly when it is forty hexadecimal digits, white space around a reference aside, and pins their lower case; an archive comment of that form, and no other, names the revision |
| `SourceCache.WishMeetsPin` | installer/bootstrap.py:992-998 | Whatever a call is meant to return has the pinned revision |
| `SourceCache.WishIsCall` | installer/bootstrap.py:917-1019 | A call in plain terms: a pinned commit that is cached is answered without a request and one that contradicts the cache raises; otherwise the index's validators are sent unless refreshing, a 304 to them renews the validators of the cached root or, without one, is retried unconditionally, and content is installed and indexed, other snapshots untouched, exactly when the archive is accepted, valid, not named like the marker and of the pinned commit; all else raises and changes nothing |
| `SourceCache.ReachableIsSafe` | installer/bootstrap.py:871-914 | A call that breaks off anywhere leaves every snapshot as it was or whole, and a new index that leads to one |
| `SourceCache.RootCanBeLostIff` | installer/bootstrap.py:894-911 | A call that breaks off can leave an unchanged index that no longer leads to its root if and only if it was to install the same revision anew, on a refresh or under another name |
| `SourceCalls.RefreshLosesRoot` | installer/bootstrap.py:900-903 | The failing input: a downloaded archive is refreshed by a process that dies between the quarantine rename and the staging rename; the index is unchanged and leads nowhere |
| `SourceCache.FulfilledIsTrusted` | installer/bootstrap.py:917-1019 | After a call that did its work the answered root is recovered from the index exactly when its name is plain |
| `SourceCache.ResolvedIsPlain` | installer/bootstrap.py:698-747 | What an index resolves to has been validated again and its name is plain |
| `SourceCache.PublishedResolves` | installer/bootstrap.py:483-502 | After publishing and writing the index, re-reading yields the root's revision if and only if its name is plain |
| `SourceCache.TopIsName` | installer/bootstrap.py:402-404 | The top-level directory of an accepted archive is a usable root name |
| `SourceCalls.Calls` | installer/bootstrap.py:917-1019 | After any number of calls with any faults all snapshots are whole, the index is well formed and the root the last call returned is recovered; without faults the index names a root to recover |
| `SourceCalls.DanglesIff` | installer/bootstrap.py:698-747 | A well-formed index among whole snapshots leads nowhere exactly when its snapshot is gone, carries another name, or is not valid under the index's name |

## Left out

- Floating-point rounding, the slack terms of `grid_size` and `grid_points`, 9-digit formatting, Euler conversion, axis normalization and the rounding of diameters: exact reals instead.
- The robot geometry behind the table: `exclusion`, `inspect_pose`, `batched_contacts` and the choice of contact pairs are arbitrary functions; termination texts and numerical-failure counts of a search are not recorded.
- Layout.ResolveJointLayout: assumes a rooted tree; the source checks only that the parts exist, so a cyclic plan would not end and an unreachable part would raise a key error, and neither is modelled.
- Layout.FkRoot: names are taken as already stripped, and parts with a malformed pose are not modelled.
- ForwardKinematics.PilotExactIff: joint values are any map from joint names, of which the pilot's four inputs and the simulator's degrees of freedom give some; a joint that moves has an axis of nonzero length; base and spawn pose are given as a frame.
- LinkFrames.BuildChain: names are taken as already stripped and kinds as lower case; the default axis, anchor and poses of an incomplete manifest are not modelled, nor is an exception inside the simulator's loop.
- Layout: joint limits, the quaternion cache and unknown connector keys carry no property of their own.
- SeparationBound.Bound: parsing of URDF attributes and `np.allclose` on axes are exact comparisons.
- SeparatedPairs.SeparatePairs: assumes that every link hangs on a forest of joints, as a URDF does.
- TableRun.TableRun.Run: exceptions come from futures and the user's interrupt; an exception of the solver's exclusion rule or of a save is not modelled, the interrupt arrives only at a wait although the source can take it anywhere in the loop, for instance between the append and the counter updates of an emit, and elapsed times and progress reports are omitted.
- TableDocument.ValidateTable: JSON types, finiteness and the texts of errors are left to the datatypes; the four compared metadata sections are opaque texts apart from the region flag.
- TableCheckpoint.Run: the writers are a state machine on values, one step per file operation, rather than objects; the lock file is one holder field; the Windows branch of the lock is the same protocol.
- TargetPolygons.TargetParts: nothing is promised for an outline that is not simple, and the slack of the ear tests (1e-12, 1e-13), which absorbs rounding, is zero; the thresholds of `clean_polygon` and `segment_distances` are the source's.
- Outlines.CleanPolygon: array shapes, finiteness and broadcasting are left to the types; distances are compared squared.
- FurthestPoint.FpsKernel: batches and GPU blocks are one block that covers all points, as the launch grid sets it.
- SourceBoundary.ScanBoundary: the exact manifests of Python modules, role configurations and ROS interfaces are one opaque validity condition in `SourceCache`.
- SourceCache.Cache.DownloadSource: hashing, tar decoding, HTTP transport, permissions and directory symlinks that leave the cache are inputs or omitted; other processes are serialised by the lock.
- GatherNeedles.Gather: the rotated poses, linear limits and the content of the key are not modelled; the key is an arbitrary function.
- `collect_needle_map`, `solve` and its seeds: the code claims no exhaustiveness there.
- User interfaces, servers, plots, Docker, SSH, ROS, GPU and subprocess plumbing: no logic of their own to prove.
