# Lyli calibration core, modelled and verified in Dafny

Lyli controls a Lytro light-field camera and calibrates the micro-lens grid in front of its
sensor.  This project models the parts of the program that carry its logic and proves what
they guarantee:

- **Grid averaging** (`OrderedMap`, `GridMath`, `GridMathTheorems`, `GridOrder`, `GridAverage`,
  `GridAligned`, `GridCount`, `GridMapper`, `AverageGrids`): the lines of many grids are merged, one at a time, into an
  ordered map whose entries are re-keyed to a running mean; target lines and per-grid lookup
  tables are extracted from it.
- **Point grid construction** (`PointLines`, `PointSweep`, `PointGridSpec`, `PointGridTheorems`,
  `LineGroups`, `HorizontalLines`, `VerticalLines`, `VerticalSpacing`, `VerticalSplit`,
  `ColumnSweep`, `ColumnGrids`, `PointGridExamples`, `PointGrid`): detected lens centres are swept into horizontal lines, these into vertical
  lines, then merged, pruned and linked; finalized grids can be copied.
- **Lens detection** (`FloodFill`, `Moments`, `LensDetector`, `LensScan`): the non-recursive
  fill that marks a lens in the mask and sums its moments, and the scan over the whole mask.
- **Raw decoding** (`Bayer`, `RawImage`): unpacking twelve-bit samples and demosaicing in place.
- **Outlier-filtered mean** (`MathUtil`) and the **line positions** computed from a point grid
  (`LineAverage`).
- **Camera access** (`Camera`): the block-wise download with its one-byte packet counter, and
  requests of many threads under one mutex.
- **Calibrator**, **CalibrationData**, **LightField**: collecting grids from many threads,
  storing calibration data as JSON values, resampling the light field.
- **Schema compiler** (`Schema`, `SchemaParser`, `SchemaCompiler`): parsing schema text and
  generating a header and a source file of accessors.

`dafny verify dfyconfig.toml` checks everything.

## How the model reads the source

- Positions, means and moments are exact (`real`, `int`); pixels are `int` or a 16-bit
  `newtype`, so every narrowing is shown not to overflow.
- `std::map<float, V>` is a sequence of slots in strictly increasing key order.  `emplace` keeps
  an existing key, so lost entries would be visible.  The sentinel distance that the nearest-key
  search uses for a missing neighbour counts as larger than every distance.
- `std::sort` is a method whose callers know only that the result is sorted and a
  rearrangement, so the theorems hold for every order of equal elements.
- The source's demands on its callers are preconditions: a non-empty first grid before other
  lines are merged, a point at least CONSTRUCT_LIM below the start of the construction, eight
  horizontal lines, a raw image of even width with an interior.  Points must be added in
  increasing y-order; the theorems about point grids hold without it, and the accumulators that
  show what can go wrong respect it.
- Results that the source computes as 0/0, and exceptions, are `None`, `Error` or `false`.
- The device is taken to select content on command 0xc2 and to return the n-th 65536-byte block
  of it on command 0xc4 with index n.

## Where the code differs from what one would expect

- A line whose merged entry is not retained keeps the initial table value and is therefore
  mapped to target line 0 like a source of that line (`GridAverage.UnretainedLineBreaksOrder`);
  the tables are the source relation exactly when every line is retained
  (`GridAverage.LookupExactIff`), and the table of an increasing grid is non-decreasing exactly
  when no line that is not retained follows one that is mapped above target line 0
  (`GridAverage.LookupNonDecreasingIff`).  Both hold for grids that agree line by line
  (`GridAligned.AlignedTables`).
- The counter of a merged entry is described as the number of grids it was constructed from; it
  counts lines, and two lines of one grid can meet in one entry, which is then retained for too
  few grids (`GridCount.CounterExceedsGrids`).  A later grid never does this, whatever it is
  merged with, exactly when its lines are pairwise at least twice the limit apart
  (`GridCount.NeverMeetIff`); then the counter is the number of grids
  (`GridCount.CounterCountsGrids`).  The first grid never does.
- Re-keying a line map to the first point of each line drops a line exactly when two lines start
  at the same coordinate (`PointSweep.RekeyKeepsAllIff`), which drifting lines make possible
  (`PointGridExamples.LineCanDrop`).  It does not happen when the constructing points are in
  columns more than MAX_DIFF apart (`HorizontalLines.ColumnsKeepLines`).  Pruning repairs the
  sets of points afterwards.
- The points of the horizontal line where the vertical sweep starts are added to the vertical
  lines twice and can end up on two of them (`PointGridExamples.PointOnTwoLines`); the link then
  names the last.  Each of them is on one vertical line, whatever the other horizontal lines
  hold, if and only if neighbouring points of that line are at the same y or more than MAX_DIFF
  apart: `VerticalSpacing.SpacedInOneLine` proves it for spaced lines, and
  `VerticalSplit.SplitStartLine` builds the other lines for any line that is not spaced.  A point
  of another horizontal line is always on one vertical line (`VerticalLines.OneVerticalLine`).
- Merging ignores the subgrids, so a target line can average lines of both
  (`GridAligned.MixedTags`, `GridAligned.AlignedTagsIff`).
- The fill marks a whole component exactly when nothing of it is above the start, its rows are
  intervals and it fits the window (`FloodFill.FillIsComponentIff`).
- `filteredAverage` divides by zero for some input exactly when the limit is below one standard
  deviation (`MathUtil.AlwaysDefinedIff`).
- The download loop never ends on content of 256 blocks or more (`Cameras.DownloadEndsIff`).
- The serial number is checked before the lock: overlapping calls can mix cameras
  (`Calibrators.OverlapMixesCameras`), so that one camera is guaranteed in every interleaving
  exactly when all calls are of one camera (`Calibrators.OneCameraInterleavedIff`).  Without
  overlap it is guaranteed exactly when the call that checks first has a serial number or none
  has (`Calibrators.OneCameraWithoutOverlapIff`).
- A blank line inside a class of a schema stops the schema compiler, between classes it does not
  (`SchemaParser.ParsePrinted`, `SchemaCompiler.CompiledSchemas`); an array of an unknown type stops
  it in the header generator, although the source generator skips arrays.
- A line of a finalized grid with fewer than two points has no position
  (`LineAverages.MiddleNotEmptyIff`), and a matrix without rows cannot be read back
  (`CalibrationDatas.MatrixRoundTripIff`).

## Model

| member | source | states |
|---|---|---|
| OrderedMap.NearestIsGlobal | lib/calibration/gridmath.cpp:55-61 | the choice between `lower_bound` and its predecessor is the nearest key of the whole map, upper one on ties, and the only slot with that property |
| OrderedMap.RekeyInPlace | lib/calibration/gridmath.cpp:65-71 | erasing the nearest slot and emplacing it under a key between the old one and the searched position is an update in place: nothing is hit, dropped or reordered |
| GridMath.RunningMeanExact | lib/calibration/gridmath.cpp:67-69 | the incremental mean lies between old mean and new position and is the exact mean of one more value |
| GridMath.InsertionShape | lib/calibration/gridmath.cpp:54-76 | with a positive limit an insertion either updates the nearest slot in place or always adds a slot; the map stays sorted and keyed by position |
| GridMath.OfferShape | lib/calibration/gridmath.cpp:88-110 | what one line does to the map: dropped (first grid, taken position), a fresh slot, or a merge |
| GridMathTheorems.RunIsExact | lib/calibration/gridmath.cpp:63-72 | after every step of every run each entry's counter is its number of referees and its position their arithmetic mean; its subgrid is that of its first line |
| GridMathTheorems.SeedKeys | lib/calibration/gridmath.cpp:88-96 | the keys after seeding are exactly the positions of the first grid |
| GridMathTheorems.RunConserves | lib/calibration/gridmath.cpp:54-110 | after every step each offered line of a later grid is a referee exactly once, a line of the first grid iff it is first at its position, and nothing else is |
| GridMathTheorems.EveryLineInOneEntry | lib/calibration/gridmath.cpp:98-110 | after the run every kept line sits in exactly one entry, once |
| GridOrder.InsertionAnchors | lib/calibration/gridmath.cpp:61-72 | the slot used by an insertion is closer to all higher positions than the slot below it |
| GridOrder.LandsAtOrAbove | lib/calibration/gridmath.cpp:55-75 | a higher position never lands below the slot of the previous one, nor opens a slot below it |
| GridOrder.RunInOrder | lib/calibration/gridmath.cpp:98-110 | entries never cross: for an increasing grid no higher entry ever holds an earlier line, whatever the other grids contain |
| GridAverage.TargetAt | lib/calibration/gridmath.cpp:120-131 | every retained entry is the target line at its rank |
| GridAverage.LookupOf | lib/calibration/gridmath.cpp:112-142 | a retained line is mapped to the rank of its entry, any other line to 0 |
| GridAverage.LookupPreservesOrder | lib/calibration/gridmath.cpp:99-142 | the lookup of an increasing grid is non-decreasing on its retained lines, for any number of grids and any insertion history |
| GridAverage.LookupInRange | lib/calibration/gridmapper.cpp:24-48 | every lookup names a target line as soon as there is one |
| GridAverage.TargetIncreasing | lib/calibration/gridmath.cpp:120-142 | target lines are strictly increasing for any input |
| GridAverage.TargetIsMeanOfItsSources | lib/calibration/gridmath.cpp:112-144 | each target line is the mean of precisely the retained source lines that the tables send to it, each counted once, more than half as many as grids |
| GridAverage.LookupExactIff | lib/calibration/gridmath.cpp:119-142 | the tables are the source relation if and only if every line is retained |
| GridAverage.LookupNonDecreasingIff | lib/calibration/gridmath.cpp:119-142 | the lookup of an increasing grid is non-decreasing on all its lines if and only if no line that is not retained comes after one whose entry has a retained entry below it |
| GridAverage.UnretainedLineBreaksOrder | lib/calibration/gridmath.cpp:119-142 | a concrete increasing grid whose lookup is 0, 1, 0 |
| GridAligned.LinedRun | lib/calibration/gridmath.cpp:83-110 | for aligned grids (same number of lines, i-th lines less than the limit apart, others at least twice the limit) every run has one entry per line, made of that line of all grids so far |
| GridAligned.AlignedTables | lib/calibration/gridmath.cpp:112-142 | for aligned grids every line is retained and every lookup table is the identity |
| GridAligned.AlignedTarget | lib/calibration/gridmath.cpp:119-142 | for aligned grids target line i is the mean of all lines with index i, with the tag of the first grid |
| GridAligned.TwoLines | lib/calibration/gridmath.cpp:61-75 | two grids with one line each give the mean of the two lines if they are less than the limit apart, and no line otherwise |
| GridAligned.AlignedTagsIff | lib/calibration/gridmath.cpp:61-71 | for aligned grids a target line has the tag of all its sources if and only if they have the same tag in every grid |
| GridAligned.MixedTags | lib/calibration/gridmath.cpp:61-71 | two grids whose lines of different subgrids are averaged into one target line |
| GridCount.SpreadOutMeetsNever | lib/calibration/gridmath.cpp:61-72 | lines of one grid that are pairwise at least twice the limit apart (and any lines of the first grid) are in different entries after every step of every run |
| GridCount.CounterCountsGrids | lib/calibration/gridmath.cpp:44 | with spread out grids every counter is the number of distinct grids among its referees, and an entry is retained if and only if more than half of the grids have it |
| GridCount.CounterExceedsGrids | lib/calibration/gridmath.cpp:44-69 | four grids whose merged entry counts three lines of two grids and is retained |
| GridCount.CloseLinesMeet | lib/calibration/gridmath.cpp:61-69 | for any two lines of a grid closer than twice the limit there are grids to merge it with such that two of its lines meet in one entry |
| GridCount.NeverMeetIff | lib/calibration/gridmath.cpp:44-72 | lines of a grid are never counted twice in an entry, whatever it is merged with, if and only if they are pairwise at least twice the limit apart |
| GridMappers.GridMapper.constructor | lib/calibration/gridmapper.cpp:23-27 | value-initialised tables of the given sizes |
| GridMappers.GridMapper.MapHorizontal | lib/calibration/gridmapper.cpp:39-42 | sets one entry of the horizontal table and nothing else |
| GridMappers.GridMapper.MapVertical | lib/calibration/gridmapper.cpp:44-47 | sets one entry of the vertical table and nothing else |
| AverageGrids.LineMap.InsertLine | lib/calibration/gridmath.cpp:54-76 | the search, the average and the re-keying compute the insertion the theorems speak of |
| AverageGrids.MergeDirection | lib/calibration/gridmath.cpp:84-110 | seeding and inserting all grids gives the merged map of that direction |
| AverageGrids.PrepareMappers | lib/calibration/gridmath.cpp:112-117 | one fresh, distinct mapper per grid with tables of the right size |
| AverageGrids.Extract | lib/calibration/gridmath.cpp:119-142 | the extraction loop yields the retained lines in order and the mapping tables, and leaves the other direction alone |
| AverageGrids.AverageGrids | lib/calibration/gridmath.cpp:28-145 | target lines and tables of both directions are those of the theorems; two single lines give their mean if and only if they are less than 17 (horizontal) or 8 (vertical) apart; aligned grids at those distances give one mean per index and identity tables |
| PointLines.StepShape | lib/calibration/pointgrid.cpp:320-373 | `mapAdd` and `mapAddConstruct` skip, open a line or extend the nearest one in place; keys never collide and lines never cross |
| PointLines.ReachIff | lib/calibration/pointgrid.cpp:337-365 | a constructing addition opens a line if and only if all lines are more than 3 away; any other addition is skipped if and only if all are at least 3 away |
| PointLines.RunHoldsOnlyAdded | lib/calibration/pointgrid.cpp:320-373 | over any sequence of additions lines hold only added points |
| PointLines.RunInOneLine | lib/calibration/pointgrid.cpp:320-373 | a point added once is in at most one line, whatever else is added |
| PointSweep.RunKeepsGoodLines | lib/calibration/pointgrid.cpp:320-373 | over any sequence of additions every line is non-empty, keyed by its latest point, and each point has an earlier one within MAX_DIFF |
| PointSweep.ChainReachesFirst | lib/calibration/pointgrid.cpp:337-348 | every point of a line reaches the first one by steps of at most MAX_DIFF inside the line |
| PointSweep.AddsKeepLines | lib/calibration/pointgrid.cpp:354-373 | `mapAdd` keeps number and order of lines and only extends them |
| PointSweep.RekeyedKeys | lib/calibration/pointgrid.cpp:143-152 | the keys after re-keying are the coordinates of the first points |
| PointSweep.RekeyKeepsAllIff | lib/calibration/pointgrid.cpp:146-151 | re-keying keeps all lines if and only if their first points have distinct coordinates |
| PointSweep.RekeyCanDrop | lib/calibration/pointgrid.cpp:134-151 | four additions whose two lines start at the same coordinate; one line is dropped |
| PointSweep.SeedAgain | lib/calibration/pointgrid.cpp:133-157 | the second addition of the seed point leaves it in one line |
| PointSweep.SweptGood | lib/calibration/pointgrid.cpp:129-157 | after both sweeps every line is non-empty and chained |
| PointSweep.SweptInOneLine | lib/calibration/pointgrid.cpp:129-157 | after both sweeps no point is in two lines although the seed is added twice |
| PointGridSpec.HorizontalInOneLine | lib/calibration/pointgrid.cpp:129-157 | each accumulated point is in at most one horizontal line, and no other point is in any |
| PointGridSpec.VerticalValid | lib/calibration/pointgrid.cpp:183-186 | with eight non-empty horizontal lines both parities get constructing points, so `mapAdd` never meets an empty map |
| PointGridSpec.VerticalOnParity | lib/calibration/pointgrid.cpp:184-209 | vertical lines of one family hold only points of horizontal lines of one parity |
| PointGridTheorems.InterleavedKeepsBoth | lib/calibration/pointgrid.cpp:222-246 | merging the two families loses nothing and keeps the order within each |
| PointGridTheorems.VerticalInKeyOrder | lib/calibration/pointgrid.cpp:222-246 | the merged vertical lines are ordered by key, on equal keys subgrid B first |
| PointGridTheorems.SamePoints | lib/calibration/pointgrid.cpp:248-283 | after pruning both families of lines hold the same set of points, all of them accumulated ones |
| PointGridTheorems.OneHorizontalLine | lib/calibration/pointgrid.cpp:248-299 | each point of the finalized grid is on exactly one horizontal line |
| PointGridTheorems.SubgridsAgree | lib/calibration/pointgrid.cpp:166-246 | lines that cross in a point carry the same subgrid tag |
| PointGridTheorems.FinalLinesSorted | lib/calibration/pointgrid.cpp:158-220 | horizontal lines are sorted along y, vertical ones along x, also after pruning |
| VerticalLines.SweptInOneLineIff | lib/calibration/pointgrid.cpp:183-209 | a point that both passes of a sweep add is in one line afterwards if and only if its addition on the way back is skipped or joins the line that holds it |
| VerticalLines.OneVerticalLine | lib/calibration/pointgrid.cpp:183-246 | a point that is not on the horizontal line where the vertical sweep starts is on at most one vertical line |
| LineGroups.GroupedRun | lib/calibration/pointgrid.cpp:320-352 | constructing additions in increasing order make groups: a new line begins wherever a point is more than MAX_DIFF above the one before |
| HorizontalLines.ColumnsKeepLines | lib/calibration/pointgrid.cpp:131-151 | re-keying loses no horizontal line when any two constructing points are at the same x or more than MAX_DIFF apart |
| ColumnSweep.SweptExact | lib/calibration/pointgrid.cpp:131-157 | a sweep over points at equal coordinates or more than 3 apart gives one line per coordinate of a constructing point, holding exactly the points at that coordinate |
| ColumnGrids.HorizontalColumns | lib/calibration/pointgrid.cpp:131-157 | the horizontal lines of such points: keys and contents |
| ColumnGrids.OnHorizontalIff | lib/calibration/pointgrid.cpp:131-142 | an accumulated point is on a horizontal line if and only if some point from the first third on, less than 20 below its start, has the same x |
| ColumnGrids.SameHorizontalIff | lib/calibration/pointgrid.cpp:131-157 | two points are on the same horizontal line if and only if they have the same x |
| ColumnGrids.VerticalRows | lib/calibration/pointgrid.cpp:183-209 | the vertical lines of one parity: one per y of the six constructing lines, holding exactly the points at that y |
| ColumnGrids.ListedIff | lib/calibration/pointgrid.cpp:131-170 | which accumulated points are on the horizontal lines before pruning |
| ColumnGrids.StaysIff | lib/calibration/pointgrid.cpp:183-283 | a point stays in the finalized grid if and only if one of the six horizontal lines from the first third on, of its parity, has a point at its y |
| VerticalSpacing.SpacedInOneLine | lib/calibration/pointgrid.cpp:184-209 | if neighbouring points of the start line are at the same y or more than MAX_DIFF apart, each of its points is in one vertical line, whatever the other lines hold |
| VerticalSpacing.SpacedOnOneLine | lib/calibration/pointgrid.cpp:122-246 | with such a start line every point of the finalized grid is on at most one vertical line |
| VerticalSplit.SplitInTwo | lib/calibration/pointgrid.cpp:184-209 | lines that pull the vertical lines down and open a new one put a point of the start line on two vertical lines |
| VerticalSplit.SplitStartLine | lib/calibration/pointgrid.cpp:184-209 | for every other start line there are sorted horizontal lines of new points for which one of its points is in two vertical lines |
| PointGridExamples.LineCanDrop | lib/calibration/pointgrid.cpp:122-157 | accumulators in y-order that finalize with eight lines after one of nine was dropped; two points are lost |
| PointGridExamples.PointOnTwoLines | lib/calibration/pointgrid.cpp:122-246 | accumulators in y-order whose finalized grid has a point on two vertical lines |
| PointGrids.TmpLineMap.MapAddConstruct | lib/calibration/pointgrid.cpp:320-352 | computes the addition of the theorems |
| PointGrids.TmpLineMap.MapAdd | lib/calibration/pointgrid.cpp:354-373 | computes the addition of the theorems |
| PointGrids.TmpLineMap.Rekey | lib/calibration/pointgrid.cpp:146-152 | re-keys to first points, keeping the first line of each key |
| PointGrids.SweepForward | lib/calibration/pointgrid.cpp:131-142 | the two forward loops stay in bounds and are one run of additions |
| PointGrids.SweepBackward | lib/calibration/pointgrid.cpp:153-157 | the backward loop is one run of additions |
| PointGrids.VerticalLineConstructor | lib/calibration/pointgrid.cpp:375-392 | a pass in either direction feeds each map the points of its parity in order |
| PointGrids.BuildVertical | lib/calibration/pointgrid.cpp:181-209 | the three passes and the re-keying build the vertical maps |
| PointGrids.ListVertical | lib/calibration/pointgrid.cpp:222-246 | the merge loop interleaves both families by key |
| PointGrids.PruneLines | lib/calibration/pointgrid.cpp:272-283 | each line keeps exactly its points on vertical lines, and the storage loses exactly the others |
| PointGrids.LinkVertical | lib/calibration/pointgrid.cpp:285-292 | each point is linked to the last vertical line that holds it |
| PointGrids.LinkHorizontal | lib/calibration/pointgrid.cpp:293-299 | each point is linked to a horizontal line that holds it |
| PointGrids.PointGrid.AddPoint | lib/calibration/pointgrid.cpp:115-120 | a fresh stored point at the end of the accumulator |
| PointGrids.PointGrid.Prune | lib/calibration/pointgrid.cpp:248-283 | storage, horizontal and vertical points become the same set |
| PointGrids.PointGrid.Finalize | lib/calibration/pointgrid.cpp:122-300 | the final lines are the specified ones; storage and both families hold the same points; both links name lines holding the point, the horizontal one the only such line, the vertical one the last; tags agree and alternate; for points in columns and rows, exactly which points are listed and which stay |
| PointGrids.PointGrid.CopyOf | lib/calibration/pointgrid.cpp:75-101 | a copy over fresh points in one-to-one correspondence: same positions, links, tags and line shapes |
| PointGrids.CopyIsLinked | lib/calibration/pointgrid.cpp:75-101 | a copy of a consistently linked grid is consistently linked |
| FloodFill.FillRowBounds | lib/calibration/lensdetector.cpp:80-142 | every filled row stays in the window, consists of object pixels, is maximal, touches the span above, and nothing is found only if nothing is there |
| FloodFill.SpanBounds | lib/calibration/lensdetector.cpp:73-145 | minx <= startx <= endx < maxx at each row and all accesses stay in the row |
| FloodFill.MarkedConnected | lib/calibration/lensdetector.cpp:66-146 | whatever the mask holds, marked pixels are 4-connected to the start through marked pixels |
| FloodFill.MarkedClosed | lib/calibration/lensdetector.cpp:66-146 | for a lens no object pixel next to a marked one is left out |
| FloodFill.FillIsComponent | lib/calibration/lensdetector.cpp:43-59 | started in the first row of a row-convex component that fits the window, the fill marks exactly that component |
| FloodFill.FillIsComponentIff | lib/calibration/lensdetector.cpp:43-146 | from any object pixel outside the last column the fill marks exactly the component if and only if nothing of it is above the start, its rows are intervals, and it reaches at most 15 columns to the left and less than 15 to the right and down |
| PixelMoments.SpansTotal | lib/calibration/lensdetector.cpp:88-140 | moments accumulated span by span are the sums over exactly the covered pixels |
| PixelMoments.TotalUnion | lib/calibration/lensdetector.cpp:267-281 | moments of disjoint sets add up |
| PixelMoments.TotalOfPixel | lib/calibration/lensdetector.cpp:86-89 | the moments of one pixel, and so of every set of pixels |
| PixelMoments.CentroidInBox | lib/calibration/lensdetector.cpp:148 | the quotient of moments and mass lies in every box around the marked pixels |
| LensDetector.FillLeft | lib/calibration/lensdetector.cpp:84-98 | marks and sums the object run to the left and nothing else |
| LensDetector.FillRight | lib/calibration/lensdetector.cpp:99-112 | marks and sums the object run to the right and nothing else |
| LensDetector.FillOneRow | lib/calibration/lensdetector.cpp:79-145 | both branches fill the row as specified |
| LensDetector.FindCentroid | lib/calibration/lensdetector.cpp:61-149 | marks exactly the filled pixels, for a lens its component, and returns their moments and centroid; a start in the last column is skipped and yields the origin, an object of mass zero has no centroid |
| LensDetector.CentroidInWindow | lib/calibration/lensdetector.cpp:73-148 | the centroid of a filled object is at most 15 to the left, 14 to the right and 14 below its start |
| LensScan.ExtendComponents | lib/calibration/lensdetector.cpp:267-281 | on a mask of lenses the next start is the first pixel of its component and the fill takes all of it |
| LensScan.ScanPixel | lib/calibration/lensdetector.cpp:270-279 | one step of the scan keeps its invariant, with the debug mark anywhere in the mask |
| LensScan.Detect | lib/calibration/lensdetector.cpp:265-281 | no pixel contributes to two centroids, each centroid is computed over a connected region, no mass is lost, only last-column objects remain; on a mask of lenses with no object pixel overwritten by a debug mark, one centroid per lens |
| Bayer.ColorIndex | lib/image/rawimage.cpp:29-48 | red where both coordinates are odd, blue where both are even, green elsewhere, as one formula in the parities |
| Bayer.ShiftsAndMasks | lib/image/rawimage.cpp:78-87 | the shifts and masks equal the arithmetic used in the model |
| Bayer.HexDigits | lib/image/rawimage.cpp:80-88 | bytes with the hexadecimal digits ab, cd, ef give the samples abc0 and def0 |
| Bayer.DecodePacked | lib/image/rawimage.cpp:75-90 | reading packed twelve-bit samples gives every sample back in the upper twelve bits |
| Bayer.BilinearInterpolation | lib/image/rawimage.cpp:50-54 | the truncated mean of four samples, without overflow |
| Bayer.AvgInterpolation | lib/image/rawimage.cpp:56-58 | the truncated mean of four samples, without overflow |
| Bayer.GreenInRedRow | lib/image/rawimage.cpp:110-119 | the formulas of the first pass are the average of all samples of the colour around the pixel |
| Bayer.GreenInBlueRow | lib/image/rawimage.cpp:120-129 | likewise for the second pass |
| Bayer.BluePixel | lib/image/rawimage.cpp:130-139 | likewise for the third pass |
| Bayer.RedPixel | lib/image/rawimage.cpp:140-149 | likewise for the fourth pass |
| RawImages.Pass | lib/image/rawimage.cpp:110-149 | a pass writes exactly the missing colours of its pixels, from native samples only, and changes nothing else |
| RawImages.CopyBorders | lib/image/rawimage.cpp:151-160 | the copies extend the nearest inner pixel over the border |
| RawImages.Demosaic | lib/image/rawimage.cpp:101-161 | every inner entry is the reference value, independent of what the buffer held; the first and last rows and columns repeat the ones next to them |
| RawImages.ReadSamples | lib/image/rawimage.cpp:71-91 | every sample lands in the channel of its pixel; a short stream repeats the read buffer |
| RawImages.RawImage.constructor | lib/image/rawimage.cpp:65-94 | the whole image is the demosaiced stream, with repeated borders |
| RawImages.DecodedReadout | lib/image/rawimage.cpp:65-94 | a complete readout decodes to its samples |
| MathUtil.SurvivesMeansWithinSigma | lib/calibration/mathutil.h:46-52 | the comparison of squares decides the comparison with the standard deviation |
| MathUtil.VarianceNonNegative | lib/calibration/mathutil.h:44-46 | the expression under the square root is never negative |
| MathUtil.FewOutliers | lib/calibration/mathutil.h:48-56 | outliers times squared limit is less than the number of values |
| MathUtil.SurvivorsExactly | lib/calibration/mathutil.h:48-56 | exactly the values within the limit survive, each as often as it occurs |
| MathUtil.ThreeQuartersSurvive | lib/calibration/mathutil.h:48-56 | with limit two more than three quarters survive |
| MathUtil.AlwaysDefinedIff | lib/calibration/mathutil.h:48-58 | the result exists for all non-empty inputs if and only if the limit is at least one |
| MathUtil.ResultInRange | lib/calibration/mathutil.h:36-59 | the result is between smallest and largest input |
| MathUtil.ResultWithinSigma | lib/calibration/mathutil.h:36-59 | the result is within the limit of the mean of all values |
| MathUtil.FilteredAverage | lib/calibration/mathutil.h:36-59 | the loops compute the mean of the survivors |
| LineAverages.MiddleNotEmptyIff | lib/calibration/linegrid.cpp:58-76 | there is something to average if and only if the line has two points |
| LineAverages.MiddleOfHorizontal | lib/calibration/linegrid.cpp:58-61 | a horizontal line is averaged over all points i with n/3 <= i < 2n/3 |
| LineAverages.MiddleOfVertical | lib/calibration/linegrid.cpp:72-76 | a vertical line is averaged over every other point from the even start on, before 2n/3 |
| LineAverages.AverageLine | lib/calibration/linegrid.cpp:55-78 | the position is the mean of the selected points and lies within the line's coordinates |
| LineAverages.LinesOf | lib/calibration/linegrid.cpp:47-80 | one line per line with its tag; defined exactly when every line has two points |
| LineAverages.LineGridOf | lib/calibration/linegrid.cpp:47-80 | horizontal lines take the x of their middle third, vertical ones the y of every other point |
| Cameras.DownloadEndsIff | lib/camera.cpp:85-94 | the loop ends if and only if the content is shorter than 256 times 65536 bytes, and then with that content |
| Cameras.Camera.DownloadData | lib/camera.cpp:75-95 | returns the selected content |
| Cameras.Camera.Get | lib/camera.cpp:127-167 | returns the content of the request |
| Cameras.NextKeepsInv | lib/camera.cpp:64-167 | every step of every thread keeps mutual exclusion, the holder's selection and its buffer |
| Cameras.RequestsAreIsolated | lib/camera.cpp:97-167 | in every interleaving a finished request has exactly its content and at most one thread is inside |
| Cameras.TooLongNeverFinishes | lib/camera.cpp:86-92 | in every interleaving a request for longer content never leaves the loop |
| Cameras.HolderFinishes | lib/camera.cpp:75-167 | from every state that keeps the invariant the lock holder can finish addressable content by its own steps, with its content and the mutex free, leaving the other threads alone |
| Cameras.WaitingCanFinish | lib/camera.cpp:97-167 | no deadlock: in every state of every interleaving a waiting request can be finished, after the holder if there is one |
| Calibrators.GridsInOrder | lib/calibration/calibrator.cpp:303-304 | the grids are stored in the order of the critical sections |
| Calibrators.ClustersPartition | lib/calibration/calibrator.cpp:303-307 | the clusters partition the grid indices by zoom and focus, in increasing order, represented by the first lens |
| Calibrators.IndicesSpec | lib/calibration/calibrator.cpp:67-82 | a cluster's indices are increasing and exactly those of the calls with its zoom and focus step |
| Calibrators.InterleavingIsSequential | lib/calibration/calibrator.cpp:288-310 | in every interleaving the data is that of the critical sections one after the other, each finished call once |
| Calibrators.OverlapMixesCameras | lib/calibration/calibrator.cpp:289-301 | any two calls of different cameras have an interleaving that adds both |
| Calibrators.OneCameraInterleavedIff | lib/calibration/calibrator.cpp:289-301 | in every interleaving all added grids are of one camera if and only if all calls are |
| Calibrators.NonOverlappingIsSequential | lib/calibration/calibrator.cpp:288-310 | a state of an interleaving without overlap is that of the calls one after the other, in the order of their checks |
| Calibrators.OneCameraWithoutOverlapIff | lib/calibration/calibrator.cpp:289-301 | in an interleaving without overlap the added grids are of one camera if and only if the call that checked first has a serial number or none that checked has |
| Calibrators.OneCameraIff | lib/calibration/calibrator.cpp:289-301 | one call after the other: the accepted grids are of one camera if and only if the first call has a serial or none has |
| Calibrators.AcceptedAre | lib/calibration/calibrator.cpp:289-301 | one call after the other: all calls up to the first with a serial number are accepted, and after it exactly those with that serial number |
| Calibrators.OneCameraAccepted | lib/calibration/calibrator.cpp:289-301 | calls of one camera are all accepted |
| Calibrators.NeverRejectedIff | lib/calibration/calibrator.cpp:289-301 | no call is rejected in any interleaving if and only if all calls are of one camera |
| Calibrators.Calibrator.AddGrid | lib/calibration/calibrator.cpp:288-310 | accepted if and only if there is no serial number yet or it is the same; check and critical section; a rejected call changes nothing |
| Calibrators.EstimateCameraMatrix | lib/calibration/calibrator.cpp:87-99 | a three by three matrix with the focal length in pixels, the image centre, a one at the lower right and zeros elsewhere |
| Calibrators.CollectLenses | lib/calibration/calibrator.cpp:326-333 | one entry per cluster with its camera matrix and no distortion, all with distinct keys |
| Calibrators.Calibrator.Calibrate | lib/calibration/calibrator.cpp:312-336 | the grid is the average of the collected grids, the lens list is strictly sorted with exactly the entries of the clusters, and the data can be written and read back |
| CalibrationDatas.MatrixRoundTripIff | lib/calibration/serialization.cpp:28-53 | a matrix is read back if and only if it has a row |
| CalibrationDatas.LinesRoundTrip | lib/calibration/linegrid.cpp:111-137 | line lists are read back in order |
| CalibrationDatas.ArrayRoundTrip | lib/calibration/calibrationdata.cpp:97-109 | array parameters are read back; lines are appended to existing ones |
| CalibrationDatas.LensRoundTrip | lib/calibration/calibrationdata.cpp:171-253 | lens entries are read back |
| CalibrationDatas.DataRoundTrip | lib/calibration/calibrationdata.cpp:329-352 | reading the serialized form into a new object restores everything |
| CalibrationDatas.DataFormat | lib/calibration/calibrationdata.cpp:329-338 | the members of the stored document |
| CalibrationDatas.SortingIsIdempotent | lib/calibration/calibrationdata.cpp:263-273 | a strictly sorted lens list is its only sorted rearrangement |
| CalibrationDatas.CalibrationData.Copy | lib/calibration/calibrationdata.cpp:293-296 | the copy holds the same entries sorted, and in the same order when they were strictly sorted |
| CalibrationDatas.RoundTrip | lib/calibration/calibrationdata.cpp:329-352 | writing an object and reading it into a new one gives an equal object |
| LightFields.InRangeIff | lib/image/lightfieldimage.cpp:59-70 | writes stay in the image if and only if the number of vertical lines is even or the last one matches no horizontal line |
| LightFields.WrittenOnceIff | lib/image/lightfieldimage.cpp:64-70 | every cell is written once if and only if each pair of vertical lines holds both subgrids |
| LightFields.Resample | lib/image/lightfieldimage.cpp:61-70 | how often each cell is written and from which intersection; with opposite pairs every intersection of lines of one subgrid is written once, at its row and half its column |
| Schemas.ElementOfSegment | tools/pycppjson/jsongen.py:123-129 | a path element compiles to its key and array index |
| Schemas.JoinedAccess | tools/pycppjson/jsongen.py:120-129 | appending a path to an address appends its index expressions |
| SchemaParser.ParsePrinted | tools/pycppjson.py:19-58 | parsing the text of a schema with comments gives its tree back, wherever the text stands, if and only if no class has a blank line; otherwise it fails |
| SchemaParser.ParseClassBody | tools/pycppjson.py:25-35 | the loop parses the body up to its brace and fails on a blank line |
| SchemaParser.ReadFile | tools/pycppjson.py:69-79 | the main loop collects the nodes of the whole file |
| SchemaParser.ParsePrintedFile | tools/pycppjson.py:69-79 | a file of schemas with comments and blank lines between them is parsed into their trees |
| SchemaCompiler.CodeFollowsPaths | tools/pycppjson/jsongen.py:95-138 | the code generated for the tree of a schema is the wanted code: class constructors and getters in their scope, and leaf getters that index the document by exactly the segments above and at the leaf |
| SchemaCompiler.QualifiedName | tools/pycppjson/jsongen.py:92-93 | a qualified name lists the outer classes first |
| SchemaCompiler.TypeName | tools/pycppjson/jsongen.py:10-15 | the known kinds are exactly four, with their types |
| SchemaCompiler.AccessCall | tools/pycppjson/jsongen.py:17-22 | which call reads which kind |
| SchemaCompiler.HeaderFollowsSchema | tools/pycppjson/jsongen.py:39-65 | the header generated for the tree of a schema is the wanted header: a class per group and a declared getter per leaf and vector |
| SchemaCompiler.CompiledSchemas | tools/pycppjson.py:69-89 | from text to code: a file of schemas compiles to the wanted header and source, or fails if and only if a class has a blank line or a leaf or vector an unknown kind |
| SchemaCompiler.Compile | tools/pycppjson.py:69-89 | reading the file and visiting its nodes with the header generator and then the source generator computes the files of the theorem, exceptions included |
| SchemaCompiler.HdrGenVisitor.VisitClass | tools/pycppjson/jsongen.py:39-59 | declares the class and restores the level; fails if and only if a kind of a primitive or an array is unknown |
| SchemaCompiler.HdrGenVisitor.Visit | tools/pycppjson/jsongen.py:39-65 | declares a node at its level |
| SchemaCompiler.SrcGenVisitor.VisitClass | tools/pycppjson/jsongen.py:95-116 | emits the code of the class and restores the stack of enclosing classes; fails if and only if a kind of a primitive is unknown |
| SchemaCompiler.SrcGenVisitor.Visit | tools/pycppjson/jsongen.py:95-138 | emits the code of a node in its scope |

## Left out

- Floating-point rounding and overflow of positions, means and moments; all of them are exact here.
- The user interface, configuration paths and dialogs under `ui/`.
- USB transfers and command wrappers; the device is abstract (see above), and parsing the camera information block is not modelled.
- Library numerics: colour conversion, Fourier transform, morphology, line fitting, affine warps, and the rotation and translation estimates built on them.
- `getInterpolatedColor` and `refineCentroid`: the refined centroid enters the scan only as a position inside the mask where the debug value is written; for a centroid that is 0/0 it is any such position.
- AverageGrids.MergeDirection: handles one direction after the other, where the source alternates between the two independent maps.
- PointGrids.PointGrid.CopyOf and `Finalize`: memory ownership through `unique_ptr` is a set of points.
- PointGrids.PointGrid.Finalize: models the first finalization of a grid; a second one would append to existing lines.
- Calibrators.Calibrator.Calibrate: takes rotation and translation, which are library fits, as given, and represents a point grid by the line grid made from it.
- CalibrationDatas.DataRoundTrip: speaks of JSON values, not of their text.
- Bayer.ColorIndex and `Schemas.IsWord`: pixels outside the image and word characters outside ASCII are not modelled.
- The file templates that the schema compiler puts around the generated code, and writing the files.
- File-list parsing, photos, metadata reading and the command-line front end, which are mostly library calls.
