# Touchscreen, sensors and camera buffers: a verified model

This project models the parts of the device tree that carry real algorithms and proves what
they promise. It has four independent areas.

**The touchscreen server** (`touchscreen_drv/ts_srv.c`). A byte-stream framer with
resynchronisation fills a 30 by 40 matrix (`TouchFraming`). A mutually recursive fill with two
thresholds cuts the matrix into touches (`TouchFill`, `TouchScan`, `TouchTable`). A
nearest-neighbour matcher carries tracking ids, filters and delays across three rotating rows
of touches (`TouchTracking` for the meaning, `TouchServer` for the code, `TouchJumps` and
`TouchSwipe` for the reports without an id). What a run makes of a finger is the subject of
`TouchFilters` (averages, a finger at rest, what is sent), `TouchDebounce` (a lone finger that
comes down) and `TouchLiftoff` (liftoffs, and how long an id lasts). `TouchDriver` ties bytes to
reports: every state the driver reaches is the state of a run, what it has sent is what the run
reports, and each read adds its frames and at most one liftoff.

**The Levenberg-Marquardt numerics** (`touchscreen_drv/levmar-2.5`). The LU solver with
implicit pivoting (`LuSolve`), the damped normal equations (`NormalEquations`, with the blocked
product of `BlockedProduct`), the iteration with an analytic Jacobian (`LmDer` for its parts,
`LmRun` for the whole call), the rank-one update (`Broyden`) and the step that feeds it
(`SecantStep`), the box constraints (`Box`), the line search (`LineSearch`), the projected
gradient (`GradientSearch`), the box-constrained iteration (`BoxLm`, and `BoxRise` for a call
that raises the error) and the reduction of inequalities to equations (`Bleic`).
`LinearAlgebra` holds the shared laws.

**Buffers of the camera HAL** (`camerahal`). Cropping a picture inside its own buffer (`Crop`,
and `CropOrigins` for planes in each other's way) and the linked queue of busy frames with the
drain loops that depend on it (`FrameQueue`).

**The sensor event path** (`libsensors`). A double-length ring buffer (`InputRing`), the
accelerometer and light readers on top of it (`SensorReaders`) and the poll loop: one call as
a function (`SensorCalls`), where its samples go in the caller's array (`SensorWrites`) and
the loop itself (`SensorPoll`).

Code that changes state is modelled by methods on arrays, arrays of arrays, linked nodes and
object fields. Each method is tied to a function of its inputs or of the old state, and the
lemmas are about those functions.

## What the model takes as given

- Floating point is exact arithmetic over the reals, without NaN and infinity. Where the
  source asks whether a value is finite, the answer is a parameter.
- `pow(v, 1.5)` of the touch weight is any function that is at least 1 from 1 on; `atan2` is
  any function; `sqrt` and `pow` of the line search are any functions with the right signs.
  `BoxRise` also needs that no root of a number up to 1 exceeds 1, and `TouchSwipe` that the
  power of 36 is 216.
  The touch weight is an `int` in the source, so every addition to it drops the fraction; the
  model does the same.
- Row-major buffers with computed offsets are two-dimensional arrays.
- The eight neighbour tests that the fill spells out one by one are one method in a loop over
  the eight neighbours, in the same order.
- I/O is a parameter or a log: bytes that arrive, results of `read` and `poll`, whether
  `malloc` succeeds, reports that are sent. A script of `poll` results that has run out stands
  for a timeout.
- `memcpy` in the crop is taken as `memmove`; offsets do not overflow 32 bits.
- The touch driver is described for streams that keep its unchecked accesses inside their
  arrays (`TouchFraming.Safe`: rows below 30, lines of at most 64 bytes). Every stream of
  whole frames and of frames aborted anywhere is one (`TouchFraming.StreamMeaning`). A start
  byte with 64 bytes of no known frame is not (`TouchFraming.UnknownFrame`), nor is a frame
  that names row 30 or 31 (`TouchFraming.RowBeyond`).

## Results worth knowing

- The LU solver replaces a zero pivot by an epsilon and reports success. A pivot is replaced
  exactly when the matrix sends some nonzero vector to zero (`LuSolve.RegularIff`), and the
  solver is right for every right hand side exactly when none is (`LuSolve.AlwaysRightIff`).
  For a singular matrix a right hand side is met exactly when it has a solution that is zero at
  the replaced pivots (`LuSolve.SolvedIffWithout`). On x + y = 1, x + y = 2 the solver reports
  success (`LuSolve.WrongSuccess`).
- The scan counts the fingers of a matrix when every reading above the threshold is strong
  (`TouchScan.OneTouchPerFinger`); finger mode guarantees it for every matrix, stylus mode does
  not (`TouchScan.CountsFingersIff`).
- An aborted frame changes what the next one does exactly when it stops one byte short, is not
  the shortest end frame and differs in effect from the next frame; then it takes effect in the
  next frame's place (`TouchFraming.HarmfulAbort`, `TouchFraming.AbortedTakesEffect`). A row cut
  short before an end frame keeps the matrix from being handed on (`TouchFraming.EndSwallowed`).
  With aborts anywhere, a stream has the effect of its acting frames in order: the whole
  frames, but for those that serve as the last byte of an aborted one
  (`TouchFraming.StreamMeaning`, `TouchFraming.WholesOnly`).
- Distinct ids are a matter of non-negative ids until the counter starts over. A jump in a
  steady direction assigns no id, and a touch that continues it inherits none
  (`TouchJumps.UnnumberedInRun`). Two readings in columns 38, 35 and 29 of three matrices are
  two fingers that are both reported with the id -1 in the third frame
  (`TouchSwipe.SwipeLosesIds`).
- A lone finger that comes down after a liftoff is reported at the place of its first frame as
  long as no lone touch leaves the square of 10 pixels around it, and never there again while
  fingers stay on the screen, even if it returns (`TouchDebounce.LoneFingerHeld`,
  `TouchDebounce.HeldAfterLiftoff`). Until a lone finger has come down so, the place is the corner
  of the screen (`TouchDebounce.HeldAtCorner`). A finger that rests for thirty frames is put where
  it was scanned in the thirtieth (`TouchFilters.FingerAtRest`).
- A read adds one scan for each end frame that it completes, and a liftoff after them exactly when
  none of them shows a touch and the flag was set (`TouchDriver.Driver.HandleRead`). So a touch
  that continues keeps its id from one read to the next (`TouchLiftoff.IdKeptAcrossReads`). A frame
  also counts as lifted when the one before it wrote no touch to a row that has held none since the
  liftoff (`TouchLiftoff.RowsAfter`).
- With good options a starting point has exactly one run of the iteration with an analytic
  Jacobian: its points, dampings, increments in vain and reason to stop (`LmRun.OneRun`), and that
  is the run that the call makes (`LmRun.LevmarDer`).
- With positive damping the augmented normal equations always have exactly one solution, so
  that neither iteration ever meets an unsolvable system, and the test `dL > 0` never turns a
  step down (`NormalEquations.GainPositive`).
- In the box-constrained iteration a step lowers the error, as long as there is any, if and
  only if its projected-gradient search does not run out of step lengths, or the point where
  it has run out has a lower error (`BoxLm.StepOk` in `BoxLm.Track`). A search runs out exactly
  when none of the finitely many lengths above its limit passes its test, and then ends at the
  last of them (`GradientSearch.RunsOut`, `GradientSearch.FinalPoint`). The step is taken all
  the same. If the next iteration searches again, it resumes with a length below the limit: it
  tries nothing and leads to the trial it began with, whatever the error there
  (`BoxLm.RunsOutAgain`). On the
  residual 1 - p + 1.0E20 p^2, from 0, a call with the default options that is limited to one
  iteration returns a point with a larger error (`BoxRise.ParabolaRises`).
- The line search's cubic goes through both trials with the slope at zero
  (`LineSearch.ThroughTrials`). With an exact square root and a leading coefficient that is not
  zero, the fit is its lowest point up to there, unless it is cut off at half the step
  (`LineSearch.CubicFit`).
- A failed read is subtracted from the number of samples in `pollEvents`, and so added to the
  room; it also moves the pointer into the caller's array back. No sample is written beyond the
  last place asked for and the result never exceeds their number (`SensorWrites.NoneBeyond`).
  Apart from an error of `poll` itself, the caller gets all samples in order if and only if no read
  fails before the room is used up (`SensorWrites.IntactIff`). A sample is written in front of
  the array if and only if a reader delivers while fewer samples have been taken than errors
  subtracted (`SensorWrites.OutsideIff`): asked for one sample, a call in which a read fails
  with e writes e + 1, all but one in front of the array, and returns 1 (`SensorPoll.Overrun`).
  A reader is left with events and without a mark exactly when a pass read it in vain, or it was
  left so before, and no later poll of the call reports it (`SensorCalls.StrandedIff`,
  `SensorCalls.StrandedExample`).
- Cropping keeps the even window in the middle whose opposite margins differ by three at most, and
  as long as the planes stay apart each pixel keeps its brightness and its colour
  (`Crop.CropYuv420`, `Crop.PixelKeepsChroma`).
- Cropping moves the luma and then the chroma plane. Both are right for every picture if and
  only if each byte of both windows comes from its place through both moves
  (`CropOrigins.BothCroppedIff`). A luma plane that starts far enough behind its source moves
  rows beyond its height, and these can spoil the chroma plane (`CropOrigins.Overwritten`,
  `CropOrigins.ExtraRowDamages`).
- Starting a recording frees each buffer at most once exactly when no buffer is queued twice
  or queued and flagged, and each protocol step keeps every buffer in one place exactly when
  the step is fair (`FrameQueue.StepConservesIff`).

## Model

| member | source | states |
|---|---|---|
| TouchFill.PathStaysInside | touchscreen_drv/ts_srv.c:418-606 | a set closed under the fill's steps is never left by a path |
| TouchFill.ClosedIsTouch | touchscreen_drv/ts_srv.c:418-606 | a closed set of reachable cells around the seed is exactly the reachable set |
| TouchFill.EightNeighbours | touchscreen_drv/ts_srv.c:435-489 | the eight tests cover exactly the adjacent cells |
| TouchFill.Mark | touchscreen_drv/ts_srv.c:421-430 | the opening lines mark one more cell and add it to the weighted sums, with the integer weight |
| TouchFill.MarkCore | touchscreen_drv/ts_srv.c:492-519 | a strong cell also widens the box and the largest reading |
| TouchFill.DetermineAreaLocFringe | touchscreen_drv/ts_srv.c:418-490 | the weak fill marks the cell and everything downhill of it that is not yet marked; it terminates because each call marks one more cell |
| TouchFill.DetermineAreaLoc | touchscreen_drv/ts_srv.c:492-606 | the strong fill visits everything reachable from a core cell |
| TouchFill.FillArea | touchscreen_drv/ts_srv.c:664-667 | the cells carrying the id are exactly those reachable from the seed, and the sums, the box and the largest reading are theirs |
| TouchScan.TouchCore | touchscreen_drv/ts_srv.c:492-606 | a strong cell belongs to a touch exactly when strong cells connect it to the seed |
| TouchScan.ClaimedIffLabelSeen | touchscreen_drv/ts_srv.c:658-659 | a strong cell is marked exactly when its component already has a seed |
| TouchScan.CoverCounts | touchscreen_drv/ts_srv.c:650-709 | a scan that seeds every unseen component once ends with the smaller of ten and their number |
| TouchScan.OneTouchPerFinger | touchscreen_drv/ts_srv.c:648-715 | on a matrix whose readings above the threshold are all strong: one touch per component of strong cells with such a reading, up to ten |
| TouchScan.CountsFingersIff | touchscreen_drv/ts_srv.c:1181-1195 | the scan counts fingers on every matrix if and only if every seed is strong |
| TouchScan.WeakSeedMiscounted | touchscreen_drv/ts_srv.c:1188-1194 | with a lower threshold, as in stylus mode, a weak cell is a touch but no finger |
| TouchScan.SeedsDistinct | touchscreen_drv/ts_srv.c:658-709 | different touches start in different components |
| TouchScan.CoresDisjoint | touchscreen_drv/ts_srv.c:658-709 | a strong cell carries the mark of the one touch it belongs to; no later fringe takes it |
| TouchTable.PlacedScanned | touchscreen_drv/ts_srv.c:669-708 | every scanned touch lies on the screen and starts without id, link and delay |
| TouchTable.StatsPositive | touchscreen_drv/ts_srv.c:669-670 | the weight that the averages divide by is at least one |
| TouchTable.FillTouch | touchscreen_drv/ts_srv.c:661-667 | one fill yields the measures of the seed's touch and the marks of all touches so far |
| TouchTable.ScanCell | touchscreen_drv/ts_srv.c:658-710 | an unclaimed cell above the threshold becomes the next touch of the row, any other cell changes nothing |
| TouchTable.ScanTouches | touchscreen_drv/ts_srv.c:648-715 | the row holds the placed measures of exactly the scan's seeds, in order |
| TouchTracking.NearestIsNearest | touchscreen_drv/ts_srv.c:734-750 | the match is the closest live touch, the first among equals, and none beyond the limit |
| TouchTracking.WinnersInjective | touchscreen_drv/ts_srv.c:752-763 | two touches never keep the same previous touch |
| TouchTracking.WinnersOptimal | touchscreen_drv/ts_srv.c:752-763 | each claimed previous touch is kept by its closest claimant, the later one on ties |
| TouchTracking.ContinuedOnScreen | touchscreen_drv/ts_srv.c:315-380 | averaging and hover debounce keep positions on the screen |
| TouchTracking.AssignedKeeps | touchscreen_drv/ts_srv.c:766-866 | one assignment keeps links, positions, ids and the bookkeeping of delays in order |
| TouchTracking.IdsStayDistinct | touchscreen_drv/ts_srv.c:765-866 | non-negative ids of a frame stay pairwise different |
| TouchTracking.IdStaysUsed | touchscreen_drv/ts_srv.c:608-618 | every id of a frame lies below the counter |
| TouchTracking.FrameIsGood | touchscreen_drv/ts_srv.c:733-972 | a frame links to live touches, keeps the ids of continued touches, stays on the screen and hands out unused ids |
| TouchTracking.StepFrameKeeps | touchscreen_drv/ts_srv.c:633-972 | a frame keeps the invariant of a run |
| TouchTracking.Run | touchscreen_drv/ts_srv.c:620-973 | the invariant holds after every run of frames, liftoffs and mode changes |
| TouchTracking.RunIsSafe | touchscreen_drv/ts_srv.c:620-973 | after any run the next frame's reports are on the screen, linked, numbered and due |
| TouchTracking.GoodFrameReports | touchscreen_drv/ts_srv.c:943-966 | a touch with an id is sent exactly when its chain began strong or has been withheld as often as the delay demands |
| TouchTracking.UnnumberedIff | touchscreen_drv/ts_srv.c:770-836 | one assignment leaves a live touch without an id exactly when it jumped in the direction of a fast predecessor, or its predecessor had none |
| TouchJumps.UnnumberedInRun | touchscreen_drv/ts_srv.c:733-966 | after any run, a touch of the next frame is sent without an id exactly when its surviving claim is on a predecessor without one, or too far away in the direction of a fast predecessor |
| TouchJumps.SameIdInRun | touchscreen_drv/ts_srv.c:733-966 | until the counter starts over, two touches of a frame have the same id exactly when neither has one |
| TouchSwipe.PairCame | touchscreen_drv/ts_srv.c:648-715 | the scan of two single readings in a column finds exactly two touches, at these places |
| TouchSwipe.SwipeLosesIds | touchscreen_drv/ts_srv.c:620-966 | three matrices, each scanned to two touches, of which the third frame reports both with the id -1 |
| TouchFilters.Filtering | touchscreen_drv/ts_srv.c:315-380 | a touch that continues another is placed at the average of three frames, four, two and one parts, or two frames; near its resting place a delay of thirty counts down and then holds it there; it takes over id and delay, with direction and squared distance of the move |
| TouchFilters.NewInPlace | touchscreen_drv/ts_srv.c:766-866 | every other touch is placed where it was scanned, which is its resting place |
| TouchFilters.FingerAtRest | touchscreen_drv/ts_srv.c:341-380 | a finger that rests for thirty frames is put at exactly the place where it was scanned in the thirtieth, in every later frame in which it still rests |
| TouchFilters.ScannedMeasures | touchscreen_drv/ts_srv.c:669-708 | weight, largest reading, place and size of each scanned touch, in terms of its area |
| TouchFilters.ReportsInOrder | touchscreen_drv/ts_srv.c:943-966 | one report for each touch that is due, in order, with its id, size, place and weight |
| TouchDebounce.LoneFingerHeld | touchscreen_drv/ts_srv.c:907-940 | from a lone touch without anything before it on, lone touches are reported at exactly its place until one leaves the square of 10 around it, and at their own place from then on |
| TouchDebounce.HeldAfterLiftoff | touchscreen_drv/ts_srv.c:633-638 | the same for the first finger after a liftoff, while fingers stay on the screen |
| TouchDebounce.HeldAtCorner | touchscreen_drv/ts_srv.c:907-940 | before the first such touch the place is the corner of the screen |
| TouchDebounce.OthersNotHeld | touchscreen_drv/ts_srv.c:907-940 | a frame with no touch or several is not debounced |
| TouchLiftoff.LiftedWhenEmpty | touchscreen_drv/ts_srv.c:633-646 | a frame counts as lifted only if the one before it left no touch |
| TouchLiftoff.LiftedAfterClear | touchscreen_drv/ts_srv.c:633-646 | after a liftoff every frame counts as lifted up to the first that shows a touch |
| TouchLiftoff.FollowerWins | touchscreen_drv/ts_srv.c:733-763 | the claim of a touch within 130 pixels that is the closest for the previous touch it is closest to survives |
| TouchLiftoff.IdKept | touchscreen_drv/ts_srv.c:733-866 | a touch that continues one of the frame before keeps its id |
| TouchLiftoff.IdKeptAcrossReads | touchscreen_drv/ts_srv.c:1386-1413 | also if that frame was the last of a read and this one is the first of the next |
| TouchServer.FindNearest | touchscreen_drv/ts_srv.c:733-750 | the two arrays hold each touch's closest match |
| TouchServer.PruneStep | touchscreen_drv/ts_srv.c:755-761 | one comparison only drops beaten claims and settles one more pair |
| TouchServer.RemoveRivals | touchscreen_drv/ts_srv.c:752-763 | exactly the claims that no rival beats remain |
| TouchServer.ProcessNewTPoint | touchscreen_drv/ts_srv.c:608-618 | the entry in place, and the counter, are those of a new touch |
| TouchServer.AvgFilterAt | touchscreen_drv/ts_srv.c:315-337 | the entry in place is the weighted average over up to three linked frames |
| TouchServer.HoverDebounceAt | touchscreen_drv/ts_srv.c:341-380 | the entry in place is held or released as the hover rule says |
| TouchServer.AssignTouch | touchscreen_drv/ts_srv.c:767-865 | the branch taken for one touch, filters included, is the specified one |
| TouchServer.AssignIds | touchscreen_drv/ts_srv.c:765-866 | all ids in order, with the counter threaded through |
| TouchServer.ReportTouches | touchscreen_drv/ts_srv.c:943-966 | what is sent, and which delays count down |
| TouchServer.Server.BeginFrame | touchscreen_drv/ts_srv.c:633-646 | the rows rotate, or the current row is reused after a liftoff; the history rows hold the live touches |
| TouchServer.Server.CalcPoint | touchscreen_drv/ts_srv.c:620-973 | one call on the global state is one frame of the specified run on the touches of its matrix: its reports are sent, its row of the table is taken, and it counts as lifted exactly when the current row holds no touch |
| TouchServer.Server.ClearArrays | touchscreen_drv/ts_srv.c:1106-1138 | nothing is live afterwards; the counter stays |
| TouchServer.Server.WriteLine | touchscreen_drv/ts_srv.c:1012-1022 | a row frame's effect on the matrix, blanked first on the start flag |
| TouchFraming.FeedConcat | touchscreen_drv/ts_srv.c:1029-1040 | how the stream is cut into reads makes no difference |
| TouchFraming.FeedFrame | touchscreen_drv/ts_srv.c:977-1027 | a whole frame is understood from every state that is not one byte short |
| TouchFraming.FeedPrefix | touchscreen_drv/ts_srv.c:989-1000 | a frame's first bytes discard whatever was collected before |
| TouchFraming.FrameLost | touchscreen_drv/ts_srv.c:989-1000 | a frame after one that is a byte short is swallowed |
| TouchFraming.OneShortIff | touchscreen_drv/ts_srv.c:977-1000 | an abort leaves the line one byte short exactly before the last byte of a frame that is not the shortest |
| TouchFraming.AbortedTakesEffect | touchscreen_drv/ts_srv.c:989-1022 | after an abort one byte short, the aborted frame takes effect in place of the next one |
| TouchFraming.HarmfulAbort | touchscreen_drv/ts_srv.c:977-1022 | the effect of a frame after an aborted one differs from its own if and only if the abort is one byte short of a frame that is not the shortest and has another effect |
| TouchFraming.EndSwallowed | touchscreen_drv/ts_srv.c:989-1022 | an end frame after a row one byte short does not hand on the matrix |
| TouchFraming.StreamMeaning | touchscreen_drv/ts_srv.c:977-1040 | every stream of whole frames and frames aborted anywhere is safe and has the effect of its acting frames in order: whole frames, and frames completed by the start byte of the next item |
| TouchFraming.WholesOnly | touchscreen_drv/ts_srv.c:977-1040 | a stream whose aborts are not one byte short has the effect of its whole frames in order |
| TouchFraming.UnknownFrame | touchscreen_drv/ts_srv.c:989-1000 | after a start byte, bytes of no known frame stay inside the line if and only if there are fewer than 64 |
| TouchFraming.RowBeyond | touchscreen_drv/ts_srv.c:1012-1022 | a row frame for row 30 or 31 leaves the matrix |
| TouchFraming.RowIsLastWrite | touchscreen_drv/ts_srv.c:1012-1022 | a row holds the data last written since the last start flag, else zeros |
| TouchFraming.EndHandsOn | touchscreen_drv/ts_srv.c:1006-1009 | each end frame hands on the matrix as the frames before it left it |
| TouchDriver.HistoryFrame | touchscreen_drv/ts_srv.c:1002-1040 | each frame of a history enters the run as one scan |
| TouchDriver.SentSnoc | touchscreen_drv/ts_srv.c:943-966 | a frame adds its reports to what a run has sent, a liftoff none of its own |
| TouchDriver.FrameReports | touchscreen_drv/ts_srv.c:1345-1411 | from bytes to reports: each frame's touches are its matrix's fingers when all readings above the threshold are strong, and the slice it adds to what is sent is on the screen, due and numbered |
| TouchDriver.Driver.ClineValid | touchscreen_drv/ts_srv.c:977-987 | the test on the buffer is the test on the collected line |
| TouchDriver.Driver.PutByte | touchscreen_drv/ts_srv.c:989-1000 | the buffer collects or restarts as the automaton does |
| TouchDriver.Driver.ConsumeLine | touchscreen_drv/ts_srv.c:1002-1027 | a complete line acts on matrix, touches and history as specified; an end frame sends the reports of its frame and nothing else is sent |
| TouchDriver.Driver.Snarf2 | touchscreen_drv/ts_srv.c:1029-1040 | a read of any size feeds the automaton and adds one scan for each end frame completed in it; the result is zero exactly when none of them shows a touch |
| TouchDriver.Driver.HandleRead | touchscreen_drv/ts_srv.c:1386-1413 | a read adds one scan for each matrix handed over, and one liftoff after them exactly when none shows a touch and the flag was set; the flag then says whether one did |
| TouchDriver.Driver.HandleTimeout | touchscreen_drv/ts_srv.c:1358-1384 | a timeout adds a liftoff exactly when the flag is set; afterwards nothing is live |
| TouchDriver.Driver.SetTsMode | touchscreen_drv/ts_srv.c:1181-1195 | a mode change between reads changes the thresholds and keeps everything else |
| LinearAlgebra.Exchange | touchscreen_drv/levmar-2.5/Axb_core.c:1075-1109 | sums over rows and columns may be exchanged |
| LinearAlgebra.SolutionUnique | touchscreen_drv/levmar-2.5/Axb_core.c:992-1139 | an invertible system has one solution |
| LuSolve.FactorsMultiply | touchscreen_drv/levmar-2.5/Axb_core.c:1075-1109 | the stored factors multiply to the permuted input, whatever pivots were replaced |
| LuSolve.ExchangedEquations | touchscreen_drv/levmar-2.5/Axb_core.c:1093-1101 | exchanging equations as recorded does not change their solutions |
| LuSolve.ZeroPivotSingular | touchscreen_drv/levmar-2.5/Axb_core.c:1102-1103 | a replaced pivot means that the input sends some other vector to zero |
| LuSolve.SolvedIff | touchscreen_drv/levmar-2.5/Axb_core.c:1102-1132 | a result with the computed residual solves the equations if and only if it vanishes at the replaced pivots |
| LuSolve.ResidualUnique | touchscreen_drv/levmar-2.5/Axb_core.c:1102-1132 | the factors determine the result: no two vectors have the same residual |
| LuSolve.SolvedIffWithout | touchscreen_drv/levmar-2.5/Axb_core.c:1102-1132 | the result solves the equations if and only if some solution does without the unknowns at the replaced pivots |
| LuSolve.ReplacedFails | touchscreen_drv/levmar-2.5/Axb_core.c:1102-1132 | once a pivot is replaced, the result is wrong for some right hand side |
| LuSolve.RegularIff | touchscreen_drv/levmar-2.5/Axb_core.c:1102-1103 | no pivot is replaced if and only if the matrix sends only zero to zero |
| LuSolve.AlwaysRightIff | touchscreen_drv/levmar-2.5/Axb_core.c:1102-1132 | the result is right for every right hand side if and only if the matrix sends only zero to zero |
| LuSolve.WrongSuccess | touchscreen_drv/levmar-2.5/Axb_core.c:992-1139 | success is reported on a system that has no solution |
| LuSolve.RegularSolved | touchscreen_drv/levmar-2.5/Axb_core.c:1111-1132 | for a regular input the result solves the equations |
| LuSolve.ScaleRows | touchscreen_drv/levmar-2.5/Axb_core.c:1059-1073 | fails exactly on a row of zeros, else yields the reciprocals of the row maxima |
| LuSolve.DecomposeColumn | touchscreen_drv/levmar-2.5/Axb_core.c:1075-1109 | one column is factored, the pivot is the largest scaled candidate, the rest stays permuted input |
| LuSolve.Decompose | touchscreen_drv/levmar-2.5/Axb_core.c:1075-1109 | the array holds both factors of the permuted input, and the permutation is recorded |
| LuSolve.ForwardSubstitute | touchscreen_drv/levmar-2.5/Axb_core.c:1111-1125 | the lazily permuted substitution that skips leading zeros solves the lower system |
| LuSolve.BackSubstitute | touchscreen_drv/levmar-2.5/Axb_core.c:1127-1132 | solves the upper system |
| LuSolve.AxEqB | touchscreen_drv/levmar-2.5/Axb_core.c:992-1139 | success exactly without zero rows; then the factors and the residual are exact, and the equations hold exactly when they have a solution without the unknowns at replaced pivots, always for a regular matrix; inputs stay as they are |
| NormalEquations.Quadratic | touchscreen_drv/levmar-2.5/lm_core.c:291-293 | the augmented matrix is positive definite by its damping |
| NormalEquations.DampedRegular | touchscreen_drv/levmar-2.5/lm_core.c:291-312 | with positive damping only zero is sent to zero |
| NormalEquations.GainPositive | touchscreen_drv/levmar-2.5/lm_core.c:353-358 | the predicted gain of an exact increment is positive unless the increment is zero |
| NormalEquations.GradientDiagonal | touchscreen_drv/levmar-2.5/lm_core.c:256-262 | a nonzero gradient component comes with a positive diagonal entry |
| LmDer.WrapsAt30 | touchscreen_drv/levmar-2.5/lm_core.c:378-384 | the doubled factor wraps around 32 bits exactly at the thirtieth rejection |
| BlockedProduct.TransMatMatMult | touchscreen_drv/levmar-2.5/misc_core.c:80-132 | the product built in blocks of 32 columns and rows is J^T J |
| BlockedProduct.TransMatVec | touchscreen_drv/levmar-2.5/lm_core.c:238-252 | the sum taken row by row is J^T e |
| LmDer.NormalMatrix | touchscreen_drv/levmar-2.5/lm_core.c:193-252 | whichever of the two products the size selects, the result is J^T J, and J^T e comes with it |
| LmDer.DampingRange | touchscreen_drv/levmar-2.5/lm_core.c:359-361 | an accepted step divides the damping by three at most and less than doubles it |
| LmDer.FirstDamping | touchscreen_drv/levmar-2.5/lm_core.c:275-287 | the first damping is positive because the gradient does not vanish |
| LmDer.TestStep | touchscreen_drv/levmar-2.5/lm_core.c:322-332 | which increments stop the iteration; those that pass are not zero |
| LmDer.Work.Solve | touchscreen_drv/levmar-2.5/lm_core.c:291-312 | the solver gets J^T J + mu I, and with positive damping returns the exact increment |
| LmDer.Work.Judge | touchscreen_drv/levmar-2.5/lm_core.c:314-371 | a step is taken only when it lowers the error; otherwise nothing moves; a stop has its reason at the trial |
| LmDer.Work.Attempt | touchscreen_drv/levmar-2.5/lm_core.c:291-387 | an attempt keeps e and its norm in step with p, and a rejected one restores the equations |
| LmRun.Damp | touchscreen_drv/levmar-2.5/lm_core.c:289-388 | increments with damping mu times 2^(j(j+1)/2) are tried until one is taken or gives a reason to stop, or thirty have not lowered the error |
| LmRun.Iterate | touchscreen_drv/levmar-2.5/lm_core.c:177-389 | one outer iteration takes the specified step, or ends the run for a reason that holds |
| LmRun.LevmarDer | touchscreen_drv/levmar-2.5/lm_core.c:60-423 | the call makes the run of its starting point and returns its last point, over strictly decreasing costs; stop 3 exactly when the limit is reached, any other stop with its reason there; the numbers of iterations and solves, and the return code |
| LmRun.OneRun | touchscreen_drv/levmar-2.5/lm_core.c:60-423 | with good options a starting point has exactly one run |
| Broyden.Update | touchscreen_drv/levmar-2.5/lm_core.c:745-755 | the matrix in place becomes the rank-one update |
| Broyden.Secant | touchscreen_drv/levmar-2.5/lm_core.c:745-755 | the new Jacobian explains the step exactly in every row |
| Broyden.Orthogonal | touchscreen_drv/levmar-2.5/lm_core.c:745-755 | directions orthogonal to the step are unaffected |
| Broyden.LeastChange | touchscreen_drv/levmar-2.5/lm_core.c:745-755 | no other row that explains the step is closer to the old one |
| SecantStep.DifWork.Judge | touchscreen_drv/levmar-2.5/lm_core.c:704-776 | the function values stay in step with the point, and after an update the matrix explains the step; a step is accepted only with an update and a lower error |
| Box.BoxProject | touchscreen_drv/levmar-2.5/lmbc_core.c:234-254 | the vector in place becomes its projection, for any combination of missing bounds |
| Box.ProjectedInBox | touchscreen_drv/levmar-2.5/lmbc_core.c:228-254 | the projection is feasible |
| Box.InBoxIff | touchscreen_drv/levmar-2.5/lmbc_core.c:404-411 | exactly the feasible points are their own projections |
| Box.Variational | touchscreen_drv/levmar-2.5/lmbc_core.c:228-254 | seen from the projection, no feasible point lies towards the vector |
| Box.Closest | touchscreen_drv/levmar-2.5/lmbc_core.c:228-254 | the projection is the closest feasible point |
| Box.Convex | touchscreen_drv/levmar-2.5/lmbc_core.c:151-153 | trial points of a line search stay in the box |
| Box.NoFeasibleDescent | touchscreen_drv/levmar-2.5/lmbc_core.c:505-534 | convergence means that no feasible direction descends faster than the threshold |
| LineSearch.QuadraticFit | touchscreen_drv/levmar-2.5/lmbc_core.c:192-195 | the first backtrack is the lowest point of its parabola and shorter than the last step |
| LineSearch.ThroughTrials | touchscreen_drv/levmar-2.5/lmbc_core.c:197-204 | the cubic whose coefficients are computed takes the values of the last two trials at their lengths |
| LineSearch.LowestUpTo | touchscreen_drv/levmar-2.5/lmbc_core.c:205-210 | a critical point where the cubic does not bend down is its lowest point up to there |
| LineSearch.CubicFit | touchscreen_drv/levmar-2.5/lmbc_core.c:196-214 | later backtracks are critical points of that cubic, and its lowest points up to there, cut off at half the step |
| LineSearch.Backtrack | touchscreen_drv/levmar-2.5/lmbc_core.c:186-221 | step lengths shrink, by a factor of ten at most, and stay positive |
| LineSearch.RelativeLength | touchscreen_drv/levmar-2.5/lmbc_core.c:132-146 | the largest relative coordinate, positive for a step that is not zero |
| LineSearch.Lnsrch | touchscreen_drv/levmar-2.5/lmbc_core.c:67-227 | every trial is feasible with a length in (0, 1] that is the whole step or long enough; success means a lower error |
| GradientSearch.GradientDescends | touchscreen_drv/levmar-2.5/lmbc_core.c:719-752 | a projected gradient step is a direction of descent |
| GradientSearch.DecayEnds | touchscreen_drv/levmar-2.5/lmbc_core.c:719 | after finitely many reductions the step length falls below its limit |
| GradientSearch.NotUphill | touchscreen_drv/levmar-2.5/lmbc_core.c:722-743 | no projected step goes uphill, so that a trial too good for the resumed length passes the weaker test too |
| GradientSearch.TryLength | touchscreen_drv/levmar-2.5/lmbc_core.c:720-751 | one trial: its point and the outcome of its three tests |
| GradientSearch.LastUnique | touchscreen_drv/levmar-2.5/lmbc_core.c:719 | only one length is above the limit with its successor below it |
| GradientSearch.NoneTried | touchscreen_drv/levmar-2.5/lmbc_core.c:719 | a search that resumes below the limit tries no length and ends at the trial it began with |
| GradientSearch.ProjectedGradient | touchscreen_drv/levmar-2.5/lmbc_core.c:707-757 | trials are feasible, one that passed is a lower point of the projected gradient, and the search ends exhausted if and only if no length above the limit passes, with the restart after a resumed length; it then ends at the point of its last length, at the trial that made it start over, or where it began |
| BoxLm.BoxCheck | touchscreen_drv/levmar-2.5/lmbc_core.c:358-361 | accepts exactly the consistent bounds |
| BoxLm.Converged | touchscreen_drv/levmar-2.5/lmbc_core.c:505-534 | the counts and the norm agree with the conditions on active and free coordinates |
| BoxLm.BoxDamping | touchscreen_drv/levmar-2.5/lmbc_core.c:610-627 | the damping follows the gain ratio, or is the smaller of it and the error, and stays positive unless the error is zero |
| BoxLm.SolveDamped | touchscreen_drv/levmar-2.5/lmbc_core.c:548-656 | with positive damping the first attempt solves the equations exactly |
| BoxLm.JudgeBox | touchscreen_drv/levmar-2.5/lmbc_core.c:572-780 | which kind of step is taken: the damped one if and only if it brings the error below 0.99995^2 of what it was, else the line search if it goes downhill and the search finds a step; where exactly it leads, with which damping afterwards, that it is feasible, that it lowers the error unless exhausted, and that it is exhausted if and only if the lengths run out; what the trial in place gives as a reason to stop |
| BoxLm.BoxIterate | touchscreen_drv/levmar-2.5/lmbc_core.c:427-780 | an iteration keeps feasibility, residual and norm consistent; its end point follows from its first trial and its search, exhausted or not; a stop has its reason at the result or at the last trial; the first damping is the specified one |
| BoxLm.StepTried | touchscreen_drv/levmar-2.5/lmbc_core.c:572-780 | every step leads to the projected damped step, a long enough trial of the line search, or a projected gradient step of a length above the limit |
| BoxLm.RunsOutAgain | touchscreen_drv/levmar-2.5/lmbc_core.c:707-757 | after an exhausted search the next one is exhausted at once, and its step leads to its first trial |
| BoxLm.LevmarBcDer | touchscreen_drv/levmar-2.5/lmbc_core.c:277-820 | from the projected start on every iterate is feasible; each step is of the kind that its damped step asks for, and with good options uses the damping that the step before it has left; a step lowers the error, if there is any, if and only if its search does not run out or ends lower; the iteration bound and the return code; every stop has its reason, also when the iteration limit hides it |
| BoxRise.RaisedError | touchscreen_drv/levmar-2.5/lmbc_core.c:277-820 | a call limited to one iteration returns a point with a larger error after an exhausted search, on every residual that falls at 0 and is larger beyond the shortest length |
| BoxRise.ParabolaRises | touchscreen_drv/levmar-2.5/lmbc_core.c:277-820 | the same on one polynomial, with the default options of the library |
| Bleic.Build | touchscreen_drv/levmar-2.5/lmbleic_core.c:195-236 | the loops build the extended point, bounds, matrix and right hand side |
| Bleic.EquationsIff | touchscreen_drv/levmar-2.5/lmbleic_core.c:214-236 | the extended equations say A q = b and y = C q - d |
| Bleic.ExtendedIff | touchscreen_drv/levmar-2.5/lmbleic_core.c:195-236 | an extended vector is feasible if and only if q is and y is its surplus |
| Bleic.ProjectionIff | touchscreen_drv/levmar-2.5/lmbleic_core.c:195-244 | dropping the surplus variables gives exactly the original feasible points |
| Bleic.InitialPoint | touchscreen_drv/levmar-2.5/lmbleic_core.c:195-212 | the initial point satisfies the surplus equations, and is feasible exactly when p is |
| Bleic.ExtendJacobian | touchscreen_drv/levmar-2.5/lmbleic_core.c:65-85 | the wrapped Jacobian has zeros for the surplus variables |
| Bleic.ExtendedDirections | touchscreen_drv/levmar-2.5/lmbleic_core.c:53-85 | surplus variables do not change the linear model |
| Crop.BeforeSwitch | camerahal/QualcommCameraHardware.cpp:4804-4819 | up to the switch-over row destinations follow their sources |
| Crop.AfterSwitch | camerahal/QualcommCameraHardware.cpp:4804-4819 | beyond it sources follow their destinations |
| Crop.NoExtraRows | camerahal/QualcommCameraHardware.cpp:4819-4830 | rows beyond the cropped height are moved exactly when the switch-over row lies there |
| Crop.MoveNext | camerahal/QualcommCameraHardware.cpp:4821-4830 | a row moved next to the rows done finds its source untouched |
| Crop.CropPlane | camerahal/QualcommCameraHardware.cpp:4801-4837 | every row of the plane ends in place, in both branches, and nothing else changes |
| Crop.MoveDetermined | camerahal/QualcommCameraHardware.cpp:4801-4837 | what is said of a plane's move determines every byte of the buffer |
| Crop.InTurnDetermined | camerahal/QualcommCameraHardware.cpp:4755-4868 | so do the two moves in turn, also for overlapping planes |
| Crop.CropYuv420 | camerahal/QualcommCameraHardware.cpp:4755-4868 | the luma plane is moved and then the chroma plane; when they stay apart, each luma byte of the cropped picture is that of the original x columns and y rows on and each chroma byte the one x columns and y / 2 rows on, for the even x and y whose opposite margins differ by three at most |
| Crop.PixelKeepsChroma | camerahal/QualcommCameraHardware.cpp:4776-4868 | each pixel keeps both chroma bytes of the pixel it came from |
| Crop.PackedWorks | camerahal/QualcommCameraHardware.cpp:4788-4795 | packed planes fit, stay apart and need no extra rows, whatever the sizes |
| CropOrigins.InTurnTakes | camerahal/QualcommCameraHardware.cpp:4755-4868 | both moves in turn take every byte of the buffer from its origin |
| CropOrigins.BothCroppedIff | camerahal/QualcommCameraHardware.cpp:4755-4868 | both planes of every picture are cropped if and only if all bytes of both windows come from the right places |
| CropOrigins.Overwritten | camerahal/QualcommCameraHardware.cpp:4801-4868 | where a luma row, extra rows included, is written over the chroma window, the chroma plane shows luma |
| CropOrigins.FarBackLuma | camerahal/QualcommCameraHardware.cpp:4776-4802 | the luma move of two rows of three bytes cropped to two columns, with a padded luma plane |
| CropOrigins.FarBackChroma | camerahal/QualcommCameraHardware.cpp:4839-4844 | the chroma move of the same call |
| CropOrigins.BothFit | camerahal/QualcommCameraHardware.cpp:4755-4868 | both moves stay inside a buffer of eleven bytes |
| CropOrigins.ExtraRowDamages | camerahal/QualcommCameraHardware.cpp:4819-4868 | on that call the planes and windows are apart, but the extra luma row spoils the chroma plane |
| FrameQueue.Queue.Enqueue | camerahal/QCamera_Intf.h:1668-1679 | the linked list gains the node at its end, and the counter follows |
| FrameQueue.Queue.Dequeue | camerahal/QCamera_Intf.h:1654-1666 | the first node leaves, unlinked, and the counter follows |
| FrameQueue.Recorder.Post | camerahal/QualcommCameraHardware.cpp:911-942 | a posted frame joins the queue if memory suffices |
| FrameQueue.Recorder.GetVideo | camerahal/QualcommCameraHardware.cpp:887-905 | the oldest frame, or none |
| FrameQueue.Recorder.Flush | camerahal/QualcommCameraHardware.cpp:864-880 | the queue is empty afterwards |
| FrameQueue.Recorder.Take | camerahal/QualcommCameraHardware.cpp:2278-2296 | the frame handed to the encoder is flagged |
| FrameQueue.Recorder.Release | camerahal/QualcommCameraHardware.cpp:4588-4630 | a released buffer is freed and its flag cleared while the frame thread runs |
| FrameQueue.Recorder.StartRecording | camerahal/QualcommCameraHardware.cpp:4512-4529 | queued and then flagged buffers are freed in order, queue and flags are clear |
| FrameQueue.DrainFreesOnceIff | camerahal/QualcommCameraHardware.cpp:4512-4529 | nothing is freed twice exactly when the queue has no duplicates and shares none with the flags |
| FrameQueue.StepConservesIff | camerahal/QualcommCameraHardware.cpp:864-942 | every buffer stays in exactly one place if and only if the step is fair |
| FrameQueue.RecordingStartsClean | camerahal/QualcommCameraHardware.cpp:4512-4529 | after any fair run the drain returns every buffer once |
| InputRing.Ring.Fill | libsensors/InputEventReader.cpp:49-72 | a read of any size appends what arrived; any other outcome leaves the contents alone |
| InputRing.Ring.Advance | libsensors/InputEventReader.cpp:59-68 | the spill is copied back without touching an unread event, and the head may rest on the boundary |
| InputRing.Ring.ReadEvent | libsensors/InputEventReader.cpp:74-79 | the oldest event, if any |
| InputRing.Ring.Next | libsensors/InputEventReader.cpp:81-88 | drops the oldest event |
| SensorReaders.FoldConcat | libsensors/lsm303dlh_acc.cpp:124-138 | samples of a joined stream are the samples of its parts |
| SensorReaders.AccelSamples | libsensors/lsm303dlh_acc.cpp:124-156 | one sample per synchronisation event, with the latest value of each axis |
| SensorReaders.LightReportsChanges | libsensors/LightSensor.cpp:148-171 | no sample repeats its predecessor, comes while disabled or before the first good event |
| SensorReaders.LightSamples | libsensors/LightSensor.cpp:148-171 | a synchronisation event adds a sample exactly when a light event has come since enabling and the latest value is not the one reported last: that value at the time of the event; no other event adds one |
| SensorReaders.PrefixOfFold | libsensors/lsm303dlh_acc.cpp:112-141 | whatever the batches, what was delivered begins the samples of the whole stream |
| SensorReaders.ServeCount | libsensors/lsm303dlh_acc.cpp:124-138 | a call delivers as many samples as there are, or as there is room for |
| SensorReaders.ServeFold | libsensors/lsm303dlh_acc.cpp:124-138 | what a call delivers begins the samples of the buffered events, and the rest still leads to the others |
| SensorReaders.Reader.ReadEvents | libsensors/lsm303dlh_acc.cpp:112-141 | the result, the new state, the buffered events and what is left on the device are those of the call as a function: at most count samples, fewer only from an empty ring; errors lose nothing |
| SensorReaders.Reader.EnableLight | libsensors/LightSensor.cpp:86-122 | enabling forgets the previous value |
| SensorCalls.TurnStrandsIff | libsensors/nusensors.cpp:155-163 | a turn leaves events without a mark exactly when its read fails with events in the ring |
| SensorCalls.StrandedIff | libsensors/nusensors.cpp:147-189 | after a call a reader has events and no mark exactly when a pass read it in vain, or it had before, and no poll from then on reports it |
| SensorCalls.PassesGoOn | libsensors/nusensors.cpp:152-187 | a pass is followed by another exactly when it leaves room and poll finds something; the next begins where it ended, with the marks that poll reported |
| SensorCalls.ResultOf | libsensors/nusensors.cpp:168-189 | the result is the number counted by the end of the last pass, or the error of the poll after it |
| SensorWrites.CallTakes | libsensors/nusensors.cpp:147-189 | number and places of the samples written are what the readers offer in turn, as far as there is room |
| SensorWrites.OverrunIff | libsensors/nusensors.cpp:147-189 | the readers give more samples than there is room for exactly when a read fails before the room is used up and they have more than that |
| SensorWrites.NoneBeyond | libsensors/nusensors.cpp:147-189 | no sample is written beyond the last place asked for, and the result is at most their number |
| SensorWrites.ShortIff | libsensors/nusensors.cpp:162-164 | the number returned falls short of the samples written exactly when a read fails in time |
| SensorWrites.InOrder | libsensors/nusensors.cpp:162-164 | without a failed read the array is filled from its front with all samples in order |
| SensorWrites.IntactIff | libsensors/nusensors.cpp:147-189 | apart from an error of poll itself, the caller gets all samples in order if and only if no read fails before the room is used up |
| SensorWrites.OutsideIff | libsensors/nusensors.cpp:162-164 | a sample is written outside the places asked for if and only if a reader delivers while fewer samples have been taken than errors subtracted |
| SensorWrites.OverrunExample | libsensors/nusensors.cpp:147-189 | one sample asked for, one read failing with e: e + 1 samples go to the places from -e to 0, and 1 is returned |
| SensorCalls.StrandedExample | libsensors/nusensors.cpp:147-189 | two calls after which a sample is left without a mark |
| SensorPoll.Overrun | libsensors/nusensors.cpp:147-189 | the same on the poll loop's own objects |
| SensorPoll.Poller.Turn | libsensors/nusensors.cpp:155-163 | one turn changes reader, device and mark as specified |
| SensorPoll.Poller.ReadSensor | libsensors/nusensors.cpp:155-165 | a sensor's turn is the specified one and leaves the others alone; its mark goes only when its ring is empty or its read failed |
| SensorPoll.Poller.Pass | libsensors/nusensors.cpp:153-166 | a pass does what the pass as a function does; one that leaves room leaves no mark |
| SensorPoll.Poller.Poll | libsensors/nusensors.cpp:168-183 | the marks become those reported; overwriting them strands no reader |
| SensorPoll.Poller.PollEvents | libsensors/nusensors.cpp:147-189 | the result, the writes to the caller's array in order and the final state are those of the call as a function; the writes are what the readers produced |
| SensorPoll.Poller.ProducesPrefix | libsensors/nusensors.cpp:147-189 | what a reader has produced is a prefix of the samples of its whole stream |

## Left out

- The outer loop of LEVMAR_DIF and finite-difference Jacobians: the model has the rank-one update and the judging of one increment.
- The covariance, info array, LAPACK solvers and allocation failures of levmar: they do not steer the iteration.
- LineSearch.CubicFit: when the leading coefficient is zero the source divides by zero; the model takes an arbitrary value there, which the cut-off bounds.
- Crop with equal widths and a destination behind the source: the source divides by zero there.
- SensorPoll.Poller.PollEvents: the writes are a list of samples with their places in the caller's array, not an array; and the number asked for is not negative, which the source does not check.
- TouchServer.Server.WriteLine: what is overwritten for rows 30 and 31, which the row mask lets through, is not modelled; that they leave the matrix is (`TouchFraming.RowBeyond`).
- TouchDriver.Driver.PutByte: what a 65th byte, which the source stores behind its buffer, overwrites is not modelled; when there is one is (`TouchFraming.UnknownFrame`).
- TouchDriver.Driver.ConsumeLine: lines that name row 30 or 31 are excluded, for the same reason.
- TouchDriver.Driver.Snarf2: streams with such lines or bytes are excluded.
- TouchDriver.Driver.HandleRead: the same streams are excluded.
- LuSolve.SolvedIffWithout: which pivots are replaced is read from the factorisation, not from the matrix; that none is, is (`LuSolve.RegularIff`).
- TouchServer.Server.CalcPoint: the stale direction and distance that a row keeps from earlier frames are carried, but no property of them is stated.
- `send_uevent`, liftoff events, the uart, the socket protocol and the settings file of the touch server: device access.
- `USE_B_PROTOCOL`, `USERSPACE_270_ROTATE` and debug output: compiled out.
- The digitizer's power control, real-time scheduling and `select` timing.
- The magnetometer reader repeats the accelerometer's; the gyroscope reader wraps a library that is not part of this model.
- `mHasPendingEvent` of the light sensor is never set, so its branch cannot be reached.
- Locks and threads of recording: posting, taking, releasing and draining are steps of one sequence.
- `cam_frame_flush_video` when the preview stops, followed by a flush of the free queue: the model has the flush but not the reset of buffers that follows.
- The rest of the camera HAL, audio, lights, power and recovery code: wrappers around other libraries.
