# trajectory-vis core, modelled in Dafny

This project models the computational core of trajectory-vis. The tool loads particle
simulations of ellipsoids (one unformatted Fortran file per time step) and turns them into
trajectories. It renders them as lines, flat ribbons or 3D ribbons, and exports them as a
"metatube" mesh, as BezDat Bézier curves or as CSV rows. The model covers these parts:

- **Metatube extraction** (`include/metatube.h`):
  - the geometric helpers: Wendland kernel, plane projection, grid snapping, axis-id selectors, reference box, box tests;
  - the voxel keys of the vertex deduplication grid;
  - the quadric;
  - the sliding window of ellipsoids (`set_window`) and its minimum (`evaluate`);
  - the deduplicating surface-extraction handler, with its OBJ and PLY writers.
- **Plugin logic** (`src/plugin.cxx`):
  - the tessellation topology of `export_metatube`;
  - `export_bezdat` and `export_csv`;
  - `compute_traj_indices`;
  - the data-set name after `load_data`;
  - the animation tick `timer_event`;
  - the length filter;
  - the step of the point-of-interest scan.
- **Data loading and post-processing** (`src/data.cxx`):
  - the binary layout read by `read_f90_file`;
  - the file range of `load`;
  - post-processing steps 1–4 and 6–8: axis grouping, stationary split, global box, cutting or unwrapping, vertex indices, trajectory boxes, velocities;
  - `compute_data_bounding_box`.
- **Quaternion helpers and the wire box** (`src/math_utils.cxx`).
- **CPU ribbon builders**: `create_vertices` and `reset` of both ribbon renderers.

Conventions used throughout:

- **Coordinates** are `real`. Rounding of `float` is abstracted away, and distances are compared through squared lengths.
- **NaN samples** are written `Cell.NaN`. Every comparison with NaN is false, as in IEEE arithmetic.
- **Unsigned 32-bit counters** wrap explicitly (`VertexIndices.Wrap`).
- **Functions the code only calls** are parameters of the members that use them: square root, `normalize`, trigonometry, the MLS surface projection, the axis-angle conversion, and the decoding of little-endian doubles.
- **Streams** are modelled as the sequences of lines or records they receive. The decimal rendering of floats is a parameter.
- **Classes**: objects whose fields the source updates in place are classes:
  - `Window.Metatube` for `metatube`;
  - `Handler.SurfaceExtractionHandler`;
  - `PluginLogic.Animation` for the plugin's animation fields;
  - `PostProcess.Data` for `data`;
  - `F90Reader.Stream` for the input file stream;
  - the two renderer classes.
- **Loops** become methods with loop invariants. Each is proved against a specification function, and the properties are proved about those functions.

## Model

| member | source | states |
|---|---|---|
| MetatubeGeom.WendlandAtZero | include/metatube.h:53-60 | the kernel weighs distance 0 with exactly 1 (h > 0) |
| MetatubeGeom.WendlandVanishes | include/metatube.h:53-60 | the kernel is 0 from distance h on (compact support) |
| MetatubeGeom.WendlandBounds | include/metatube.h:53-60 | for 0 <= d the weight lies in [0, 1] |
| MetatubeGeom.PlaneProject | include/metatube.h:105-116 | the projection moves the point along the normal only |
| MetatubeGeom.PlaneProjectOnPlane | include/metatube.h:105-116 | with a unit normal the projected point lies on the plane |
| MetatubeGeom.PlaneProjectFixesPlane | include/metatube.h:105-116 | a point already on the plane is left where it is |
| MetatubeGeom.PlaneProjectIdempotent | include/metatube.h:105-116 | with a unit normal, projecting twice equals projecting once |
| MetatubeGeom.SnapDownBounds | include/metatube.h:118-142 | floor(c/res)*res is a grid point <= c and within one cell of c |
| MetatubeGeom.SnapUpBounds | include/metatube.h:118-142 | ceil(c/res)*res is a grid point >= c and within one cell of c |
| MetatubeGeom.DiscretizeEncloses | include/metatube.h:135-150 | for res > 0 the snapped box contains the box, its corners are integer multiples of res, and each corner moved by less than one cell |
| MetatubeGeom.DiscretizeKeepsPoints | include/metatube.h:135-150 | every point of a box is a point of its snapped box |
| MetatubeGeom.MaxAxisId | include/metatube.h:152-160 | the id is in 0..2 and names a component no other exceeds |
| MetatubeGeom.MinAxisId | include/metatube.h:162-170 | the id is in 0..2 and names a component no other undercuts |
| MetatubeGeom.AxisIdsPermutation | include/metatube.h:152-183 | min, mid and max ids are a permutation of {0,1,2} with axes[min] <= axes[mid] <= axes[max], also when axes tie |
| MetatubeGeom.EllipsoidBBoxHoldsBall | include/metatube.h:185-193 | the reference box is the cube [-1.25 m, 1.25 m]^3 with m the longest axis, and it holds every point within m of the centre |
| MetatubeGeom.TranslateBBox | include/metatube.h:195-205 | both corners move by the same vector |
| MetatubeGeom.TranslateBBoxPoints | include/metatube.h:195-205 | p lies in the moved box iff p - v lies in the box |
| MetatubeGeom.BoxesOverlapSymmetric | include/metatube.h:207-216 | the strict overlap test is symmetric |
| MetatubeGeom.BoxesOverlapMeansCommonPoint | include/metatube.h:207-216 | boxes with a common interior point overlap, and overlapping valid boxes share the centre of their common part |
| MetatubeGeom.PointInBoxComponents | include/metatube.h:218-230 | the folded loop accepts p iff min <= p <= max on all three axes, bounds included |
| Voxels.VoxelCoordFloor | include/metatube.h:303-311 | trunc(c/g) - [c<0] equals floor(c/g), except for a negative exact multiple of g, where it is floor(c/g) - 1 |
| Voxels.VoxelCoordBracket | include/metatube.h:303-311 | the key k satisfies k <= c/g <= k + 1; the upper bound is reached at negative exact multiples of g, where the key is one below the floor (see Voxels.NegativeMultipleKey) |
| Voxels.NearPointsAdjacent | include/metatube.h:632-660 | points closer than the grid size have keys at most one apart on each axis, so they lie in the 27-cell neighbourhood |
| Voxels.NegativeMultipleKey | include/metatube.h:303-311 | with g = 1 the coordinate -1.0 gets key -2, while floor gives -1 |
| Quadrics.DefaultQuadricIsUnitSphere | include/metatube.h:434-458 | the default quadric evaluates to x²+y²+z²-1 |
| Quadrics.TemplateValue | include/metatube.h:481-487 | the template evaluates to a_x x² + a_y y² + a_z z² - 1/4, using the raw axis lengths |
| Quadrics.TemplateExceedsAxes | include/metatube.h:481-487 | with axes 0.1 the template is still negative at distance 1, far outside the 0.125 reference box |
| Window.TrailingShape | include/metatube.h:528-549 | the backward scan yields samples s apart ending at idx - s, all overlapping, and stops at the first sample below 0 or not overlapping |
| Window.LeadingShape | include/metatube.h:558-578 | the forward scan yields samples s apart from its start, all overlapping and below n |
| Window.LeadingStopsAt | include/metatube.h:563-578 | the forward scan stops at the first sample past the end or not overlapping |
| Window.LeadingNextRange | include/metatube.h:563-578 | the resume value is the start value or a visited sample below n |
| Window.ForwardScan | include/metatube.h:558-594 | appends the forward members and the last-sample check, and reports the resume index |
| Window.StartAfterAnchor | include/metatube.h:559-562 | the forward scan never starts before the anchor |
| Window.WindowOrdered | include/metatube.h:524-594 | the window holds the anchor, only existing samples, in non-decreasing order (the last sample may appear twice) |
| Window.ResumeProgress | include/metatube.h:528-597 | for N >= 2: idx < r <= N; r = N iff idx + s >= N; otherwise idx + s <= r <= N - 1 |
| Window.ResumeStallsOnSingleSample | include/metatube.h:559-597 | with N = 1 the rebuild reports 0 again |
| Window.ResumeProgressFixed | include/metatube.h:559-597 | without the N > 1 guard, idx < r <= N for every N |
| Window.Metatube.constructor | include/metatube.h:498-503 | stores the trajectory and sets up the reference box, template and per-sample boxes |
| Window.Metatube.SetupState | include/metatube.h:481-495 | the template takes the axes, and each sample box is the reference box moved to the sample |
| Window.Metatube.SetWindow | include/metatube.h:514-598 | the sampling box is the snapped anchor box; the window and the return value are the scans' results |
| Window.Metatube.SetWindowFixed | include/metatube.h:514-598 | the same rebuild without the guard; the result lies in (idx, N] |
| Window.Metatube.Evaluate | include/metatube.h:600-613 | infinity iff the window is empty; otherwise at most every member's value and equal to one of them |
| Window.ScanConvert | src/plugin.cxx:1271-1284 | driven by the corrected rebuild, the anchors start at 0, strictly increase and stay below N, so the loop ends |
| Handler.SurfaceExtractionHandler.constructor | include/metatube.h:620-629 | empty points, normals, triangles and map |
| Handler.SurfaceExtractionHandler.CheckDuplicate | include/metatube.h:632-660 | returns the centre voxel iff no point mapped from the 27 cells lies within the tolerance |
| Handler.SurfaceExtractionHandler.NearKnownIsDuplicate | include/metatube.h:632-660 | a known point within the grid size is found by the 27-cell search |
| Handler.SurfaceExtractionHandler.DuplicateIffNearKnown | include/metatube.h:632-673 | under the map invariant, the search reports a duplicate iff some point the map still holds lies within the grid size; a kept point whose voxel entry was overwritten is not searched |
| Handler.SurfaceExtractionHandler.NewVertex | include/metatube.h:663-673 | either appends one point and one normal and maps the voxel to the new last index, or changes nothing; points and normals stay paired and every mapped index names a kept point |
| Handler.SurfaceExtractionHandler.WriteObj | include/metatube.h:682-691 | one `v` line per point, then one `vn` line per normal |
| Handler.SurfaceExtractionHandler.WritePly | include/metatube.h:693-723 | the header with both counts, one position-and-normal line per point, then one face line per triangle, in order |
| Handler.PlyLayout | include/metatube.h:693-723 | line 12 + i holds point i and line 12 + \|points\| + j holds triangle j |
| Handler.PlyHeaderCounts | include/metatube.h:696-707 | the `element vertex` and `element face` lines read back as \|points\| and \|triangles\| |
| Handler.FaceLineRoundTrip | include/metatube.h:719-722 | a `3 a b c ` record reads back as its triangle |
| Text.NatToStringRoundTrip | include/metatube.h:693-723 | the decimal text of a count or index reads back as that number |
| Text.NatToStringInjective | include/metatube.h:693-723 | different numbers are written differently |
| TubeExport.CellSize | src/plugin.cxx:1260-1263 | the grid cell is at most a quarter of every non-negative axis, and positive when the smallest axis is |
| TubeExport.UseMls | src/plugin.cxx:1267-1268 | the MLS path is taken iff exact mode is set and the longest axis is below 2.5 times the shortest |
| TubeExport.EmissionsOrdered | src/plugin.cxx:1304-1381 | the ring samples strictly increase and lie in [1, N) |
| TubeExport.EmissionsDue | src/plugin.cxx:1313-1315 | every ring sample is at least extrusion/2 from the previous ring's sample |
| TubeExport.EmissionsSkipOnlyNear | src/plugin.cxx:1313-1315 | every sample skipped before a ring is closer than extrusion/2 to the previous ring |
| TubeExport.EmissionsTailNotDue | src/plugin.cxx:1306-1382 | no sample after the last ring is due |
| TubeExport.EmissionCount | src/plugin.cxx:1305-1317 | seg_counts C <= N - 1 |
| TubeExport.BandJoinsRings | src/plugin.cxx:1366-1378 | band c uses only the vertices of rings c-1 and c, as (a+j-1, a+j%12, b+j-1), (b+j-1, a+j%12, b+j%12) |
| TubeExport.BandsInRange | src/plugin.cxx:1366-1378 | the first c bands index only rings 0..c |
| TubeExport.AppendRing | src/plugin.cxx:1332-1364 | appends 12 vertices and 12 normals from the frame |
| TubeExport.AppendBand | src/plugin.cxx:1366-1378 | appends the 24 triangles of band c |
| TubeExport.Tessellate | src/plugin.cxx:1304-1413 | C is the number of emissions; \|nrmls\| = \|verts\| = 12(C+1)+2 when C >= 1, else 2; the triangles are the bands, then the trailing and leading cap fans |
| TubeExport.TriangleCount | src/plugin.cxx:1366-1411 | 24 C + 24 triangles |
| TubeExport.CapsInRange | src/plugin.cxx:1383-1411 | with C >= 1 every triangle index is below the vertex count |
| TubeExport.DanglingCaps | src/plugin.cxx:1383-1396 | with C = 0 only apexes 0 and 1 exist, yet a trailing-cap triangle is (0, 2, 1) |
| TubeExport.TessellateFixed | src/plugin.cxx:1304-1413 | with caps emitted only when a ring exists, every triangle index names a vertex for every trajectory |
| Bezdat.HermiteToBezier | src/plugin.cxx:1490-1564 | the stored basis turns (P0, m0, m1, P1) into P0, P0 + m0/3, P1 - m1/3, P1 |
| Bezdat.RadiusIsMean | src/plugin.cxx:1522-1526 | the radius is the mean of the three axes, whatever their order |
| Bezdat.TangentCentral | src/plugin.cxx:1537-1546 | inner tangents are half the central difference |
| Bezdat.SegmentLegs | src/plugin.cxx:1553-1577 | the first and last legs of a segment are a third of its end tangents |
| Bezdat.Tangents | src/plugin.cxx:1528-1551 | m[p] is half the difference to the neighbours present: one-sided at either end, central inside |
| Bezdat.WriteTrajectory | src/plugin.cxx:1553-1604 | 3(N-1) control points, the last sample, then N-1 `BC` records from the base index |
| Bezdat.AppendTrajectory | src/plugin.cxx:1518-1607 | one loop round appends trajectory t and advances the point count by 3(N-1)+1 |
| Bezdat.ExportBezdat | src/plugin.cxx:1488-1612 | the header, then every trajectory's records with a running point index |
| Bezdat.Interpolates | src/plugin.cxx:1553-1588 | control point 3p is sample p, so the curve passes through every sample |
| Bezdat.TangentContinuity | src/plugin.cxx:1553-1577 | consecutive segments meet with equal legs: a third of the tangent at the shared sample |
| Bezdat.ConnectivityInRange | src/plugin.cxx:1590-1604 | `BC` record p names base+3p..base+3p+3, consecutive records share an end point, and all indices are below the trajectory's end |
| Bezdat.RecordsPointCount | src/plugin.cxx:1517-1607 | the points written before trajectory t are its base index |
| Bezdat.TrajPointCount | src/plugin.cxx:1566-1588 | one trajectory writes exactly 3(N-1)+1 point records |
| PluginLogic.RFind | src/plugin.cxx:1083-1086 | `rfind`: the last '/' at or before pos, or none |
| PluginLogic.DataNameSpec | src/plugin.cxx:1082-1091 | the name is the text after the last '/'; the whole path if there is no '/'; the last segment with its trailing '/' when the path ends in '/' |
| PluginLogic.DataNameOfRoot | src/plugin.cxx:1082-1091 | "/" and "" both give the name "" |
| PluginLogic.NameAfterLoad | src/plugin.cxx:1024-1093 | a successful load always sets the name from the path, overwriting "generated data"; a refused range keeps the old name |
| PluginLogic.TickKeepsRunning | src/plugin.cxx:809-840 | a tick keeps the shown end between the start and the captured end |
| PluginLogic.TickWraps | src/plugin.cxx:825-829 | past the captured end the tick restarts from the start time |
| PluginLogic.TicksSweep | src/plugin.cxx:809-840 | from a stopped animation, tick k+1 shows end start + k·speed while that is below the end |
| PluginLogic.Animation.constructor | src/plugin.cxx:82-86 | stopped, not paused, current time -1, speed 5 |
| PluginLogic.Animation.TimerEvent | src/plugin.cxx:809-840 | an animating, unpaused plugin ticks when due; otherwise nothing changes |
| PluginLogic.AxisFilteredIffHiddenBand | src/plugin.cxx:2062-2087 | with ordered thresholds, an axis filters iff the length lies strictly inside a band whose flag is off |
| PluginLogic.ThresholdNeverFiltered | src/plugin.cxx:2062-2140 | a length exactly on a threshold is never filtered |
| PluginLogic.SkipByLengthIsFilter | src/plugin.cxx:2183-2194 | the all-flags guard only saves work: the filter alone decides |
| PluginLogic.ComputeTrajIndices | src/plugin.cxx:2330-2462 | the buffer is every non-skipped trajectory's slice in order, and nr_visible_traj counts exactly those trajectories |
| PluginLogic.SliceShape | src/plugin.cxx:2360-2374 | line mode adds indices_strip[s-1..e) then restart_id; GPU ribbon mode adds indices[2(s-1)..2e-1) then restart_id |
| PluginLogic.GatheredLength | src/plugin.cxx:2347-2374 | in those modes the buffer length is the visible count times the slice length |
| PluginLogic.RestartPerTrajectory | src/plugin.cxx:2360-2374 | restart_id occurs exactly once per visible trajectory |
| PluginLogic.CountVisibleBounds | src/plugin.cxx:2345-2461 | at most every trajectory is counted, and all are when none is skipped |
| PluginLogic.HiddenIsEmpty | src/plugin.cxx:2360-2407 | hiding the trajectories yields an empty buffer in every mode |
| PluginLogic.PoiScanStalls | src/plugin.cxx:2498-2500 | for length_x_percent < 2 the step is 0, so the loop variable stays 0 < 100 forever |
| PluginLogic.PoiStepFixed | src/plugin.cxx:2498-2500 | the step equals length_x_percent/2 whenever that is at least 1, and is never 0 |
| PluginLogic.ScanFromSpec | src/plugin.cxx:2498-2500 | positions start at x, rise by the step, stay below 100, and the next one reaches 100 |
| PluginLogic.ScanAxis | src/plugin.cxx:2498-2500 | the scan loop with the corrected step visits exactly those positions |
| PluginLogic.ExportCsv | src/plugin.cxx:1455-1486 | one row per sample, trajectory by trajectory |
| PluginLogic.CsvRowsSpec | src/plugin.cxx:1470-1482 | each row names its trajectory, holds one of its samples, and carries the mean of its axes |
| Trajectories.GroupedContents | src/data.cxx:93-114 | grouping only appends, and the result holds exactly the values of the old axes and the particles' axes |
| Trajectories.GroupedIsFirstOccurrences | src/data.cxx:93-114 | the grouped axes are the old ones followed by first occurrences, in order |
| Trajectories.GroupedDistinct | src/data.cxx:93-114 | grouping keeps the axes duplicate-free |
| Trajectories.StationaryIffConstant | src/data.cxx:121-131 | with float comparison (NaN never equals NaN), a particle is stationary iff it has one sample, or its first sample is a number and every sample equals it |
| Trajectories.NaNIsDynamic | src/data.cxx:121-131 | a particle with two or more samples and a NaN sample is never stationary |
| Trajectories.SelectPartition | src/data.cxx:133-149 | the stationary and dynamic selections partition the particles |
| Trajectories.SelectLength | src/data.cxx:139-156 | the three dynamic lists stay aligned under the same selection |
| PostProcess.IsStationary | src/data.cxx:122-131 | the early-exit scan returns true iff every consecutive pair of samples compares equal as floats (so a NaN sample makes the particle dynamic) |
| PostProcess.Split | src/data.cxx:117-156 | stationaries get their ids and first samples in order; `write_ptr` compaction keeps the others in order and truncates the lists |
| PostProcess.Data.constructor | src/data.cxx:14-20 | empty data set; box initialised to the intended empty box |
| PostProcess.Data.GroupAxes | src/data.cxx:93-114 | axes become the grouped list; axis_ids[p] < \|axes\| and axes[axis_ids[p]] equals the particle's axis |
| PostProcess.Data.SplitStationary | src/data.cxx:117-156 | the state after step 2, as `Split` computes it |
| PostProcess.Data.GlobalBox | src/data.cxx:159-181 | the global box folded over every loaded sample, and its centre |
| PostProcess.CoverTrajectory | src/data.cxx:161-177 | the six strict comparisons per sample equal the fold of the box over the samples |
| BoundingBoxes.FoldCovers | src/data.cxx:159-177 | the folded box contains the initial box and every valid sample |
| BoundingBoxes.FoldAttained | src/data.cxx:159-177 | every side is the initial one or some sample's coordinate |
| BoundingBoxes.BoundsTight | src/data.cxx:396-418 | from the intended initial box, every side is attained by a sample |
| BoundingBoxes.AsWrittenMaxPositive | src/data.cxx:18-19 | as written, every max component stays >= FLT_MIN |
| BoundingBoxes.AsWrittenBoxNotTight | src/data.cxx:18-19 | as written, one sample at (-1,-1,-1) yields a max that is no sample |
| BoundingBoxes.ConcatCovered | src/data.cxx:483-506 | every sample of every trajectory lies in the box folded over them all |
| BoundingBoxes.CenterWithin | src/data.cxx:179-181 | min + (max-min)/2 lies inside an ordered box |
| PostProcess.Data.ComputeDataBoundingBox | src/data.cxx:483-506 | the box grows by the fold over every trajectory sample, and the centre follows |
| Cutting.CutsUpToSpec | src/data.cxx:201-212 | the cuts are exactly the t >= 1 where \|Δx\| or \|Δz\| exceeds tolerance times the box dimension, ascending |
| PostProcess.CutTimes | src/data.cxx:201-212 | the cut loop computes those times |
| Cutting.PartIsWindow | src/data.cxx:214-253 | each part keeps its interval's samples and is NaN elsewhere |
| Cutting.ExactlyOnePart | src/data.cxx:214-253 | every valid time index is valid in exactly one resulting trajectory, and keeps its sample there |
| Cutting.PartsHaveNoCuts | src/data.cxx:214-253 | no part has a cut left |
| Cutting.NoCutsNoParts | src/data.cxx:250-253 | a trajectory without cuts is left as it is |
| PostProcess.AppendPieces | src/data.cxx:215-247 | one appended trajectory per cut, valid on [cuts[c], next cut or end), with the same axis id |
| PostProcess.CutStep | src/data.cxx:214-253 | the pieces are appended, then the original is NaN from cuts[0] on |
| PostProcess.CutAll | src/data.cxx:195-253 | the loop over the growing list yields the cut originals, then every trajectory's pieces and ids |
| PostProcess.CutListsHaveNoCuts | src/data.cxx:195-253 | after step 4 with cutting no trajectory jumps |
| PostProcess.Data.CutTrajectories | src/data.cxx:184-253 | step 4 with cutting on the data set |
| Cutting.UnwrapShiftsByWidths | src/data.cxx:254-272 | unwrapping keeps the first sample and y, and moves x and z by whole box widths only |
| PostProcess.UnwrapTrajectory | src/data.cxx:255-271 | each sample is shifted against its already shifted predecessor |
| PostProcess.UnshiftSample | src/data.cxx:258-270 | x and z move back by int(d/(tol·dim)) widths when the step exceeds the tolerance |
| PostProcess.Data.UnwrapTrajectories | src/data.cxx:254-272 | step 4 without cutting on the data set |
| PostProcess.Data.CopyTrajectories | src/data.cxx:326-345 | step 5 without resampling: the samples and times become trajectories, and tmp_data is released |
| VertexIndices.LinesFollowStrip | src/data.cxx:370-391 | line pair t is (i, i+1), and (i, i) for the last sample |
| VertexIndices.StripsOrdered | src/data.cxx:370-391 | below 2^32 samples, strips of different trajectories are disjoint, ascending, and never the restart index |
| PostProcess.IndexSamples | src/data.cxx:374-386 | one trajectory's strip and line indices from the running counter, which wraps at 2^32 |
| PostProcess.IndexAll | src/data.cxx:367-391 | trajectory p's indices start at the total length of the earlier trajectories |
| PostProcess.Data.IndexTrajectories | src/data.cxx:367-391 | step 6 on the data set |
| PostProcess.BoxAll | src/data.cxx:394-418 | each trajectory's box is its fold from the corrected initial box (max at the lowest float, see the last Findings row), and its centre the box centre |
| PostProcess.Data.BoxTrajectories | src/data.cxx:394-418 | step 7 on the data set, folding from the corrected initial box |
| Kinematics.VelocitiesValid | src/data.cxx:421-453 | the velocities of a valid trajectory are valid, and the last is zero |
| Kinematics.Integrate | src/data.cxx:446-452 | summing the velocities from the first position gives back every position |
| PostProcess.VelocitiesOf | src/data.cxx:423-453 | velocities[t] = positions[t+1] - positions[t] for t < n-1, zero at n-1, and likewise for angular velocities |
| PostProcess.Data.ComputeVelocities | src/data.cxx:421-453 | step 8 on the data set |
| PostProcess.Data.PostProcess | src/data.cxx:84-481 | steps 1–8: the axes are the grouped list; the stationary lists gain exactly the first samples and axes of the stationary particles; the global box is the fold over the dynamic particles' samples; the trajectories' positions, orientations and axes are the dynamic particles' ones cut (or unwrapped) as step 4 defines; with cutting no trajectory jumps; each trajectory has full length, indices from one counter, its own box and its velocities |
| PostProcess.Data.GroupAndSplit | src/data.cxx:93-156 | steps 1–2: the dynamic lists are the selection of the non-stationary particles, the stationary lists gain the first samples of the stationary ones, and every id names its particle's axis |
| PostProcess.Data.ProcessDynamics | src/data.cxx:159-453 | steps 3–8: the global box, then trajectories whose samples and axis ids are step 4's result on the dynamic lists, each finished by steps 5–8 |
| PostProcess.RefersToSelect | src/data.cxx:133-149 | selecting the same particles from the ids and from the axes keeps every id naming its particle's axis |
| PostProcess.RefersToStep4 | src/data.cxx:214-247 | the ids appended for cut pieces copy their trajectory's id, so every id still names its trajectory's axis |
| F90Reader.Stream.Read | src/data.cxx:584-671 | a read past the end fails the stream; a failed stream reads nothing |
| F90Reader.Stream.ReadParticle | src/data.cxx:610-671 | seven records in 164 bytes: position, velocity, quaternion, a, b, c, Lagrangian count |
| F90Reader.ReadF90File | src/data.cxx:508-701 | succeeds iff the file opened and its length is exactly 28 + 164·n; then the frame is the decoded header and particles |
| F90Reader.FileSizeInjective | src/data.cxx:576-696 | the particle count follows from the file length |
| F90Reader.ParticlesInFile | src/data.cxx:598-689 | each particle's records lie at 28 + 164 i, in order |
| F90Reader.CountIgnored | src/data.cxx:582-599 | the file's own count field does not affect what is read |
| F90Reader.LoadReadsBeforeFirstFile | src/data.cxx:59-72 | with start 0 and resolution 1 the loader reads files[-1] |
| F90Reader.LoadMiscountsSlots | src/data.cxx:36-72 | at resolution 2 over [0, 4] it reads 2 files into 3 slots |
| F90Reader.LoadIndices | src/data.cxx:59-72 | the corrected range: every res-th file from start, max_time_steps of them |
| F90Reader.LoadIndicesInRange | src/data.cxx:36-72 | corrected indices stay in [start, end] and start at start |
| F90Reader.Load | src/data.cxx:22-82 | one frame per slot from the corrected files; success is that of the last file read |
| Quaternions.QuatMulIsHamilton | src/math_utils.cxx:78-85 | `quat_mul` is the textbook Hamilton product in (x, y, z, w) layout |
| Quaternions.QuatMulIdentity | src/math_utils.cxx:78-85 | (0,0,0,1) is a two-sided identity |
| Quaternions.QuatMulConj | src/math_utils.cxx:78-85 | q · conj(q) = (0, 0, 0, \|q\|²) |
| Quaternions.QuatMulAssociative | src/math_utils.cxx:78-85 | `quat_mul` is associative |
| Quaternions.QuatMulNorm | src/math_utils.cxx:78-85 | the squared norm is multiplicative |
| Quaternions.QuatRotateIdentity | src/math_utils.cxx:4-13 | the identity quaternion leaves v unchanged |
| Quaternions.QuatRotateAdditive | src/math_utils.cxx:4-13 | rotate(s + t) = rotate(s) + rotate(t) |
| Quaternions.QuatRotateHomogeneous | src/math_utils.cxx:4-13 | rotate(k v) = k rotate(v) |
| Quaternions.QuatRotateNeg | src/math_utils.cxx:4-13 | rotate(-v) = -rotate(v) and rotate(0) = 0 |
| Quaternions.QuatRotateIsSandwich | src/math_utils.cxx:4-13 | for a unit q, rotate is the vector part of q (v,0) conj(q), whose real part is 0 |
| Quaternions.QuatRotatePreservesLength | src/math_utils.cxx:4-13 | a unit quaternion keeps the squared length |
| Quaternions.Slerp | src/math_utils.cxx:26-56 | returns qa unchanged when \|qa·qb\| >= 1; otherwise, when the half-angle sine is below 0.001, each component of the result is the mean of qa's and qb's |
| Quaternions.SineTestOnSquare | src/math_utils.cxx:38-41 | for the non-negative root, sqrt(1 - c²) < 0.001 iff 1 - c² < 0.000001, so the test on the square is the source's test |
| BoxVertices.CreateBoxVertices | src/math_utils.cxx:119-153 | appends exactly 8 corners and 24 indices and keeps the old content; indices are restart markers or corners 0..7, whatever the vertex buffer held |
| BoxVertices.RestartCount | src/math_utils.cxx:130-152 | exactly 6 of the 24 indices are restart markers |
| BoxVertices.UprightsDifferInY | src/math_utils.cxx:121-128 | corners k and k+4 differ only in y |
| BoxVertices.SegmentsAreEdges | src/math_utils.cxx:130-152 | every strip segment joins two corners that differ in one coordinate |
| BoxVertices.EdgesAreDrawn | src/math_utils.cxx:130-152 | every one of the 12 box edges is drawn |
| RibbonRenderer.MainAxisChoice | src/traj_ribbon_renderer.cxx:130-144 | the lowest-index component reaching the maximum wins if that maximum is > 0; otherwise (axes[0], 0, 0) |
| RibbonRenderer.RibbonSymmetric | src/traj_ribbon_renderer.cxx:152-159 | the two vertices of sample t are positions[t] ± rotate(main axis), so their midpoint is positions[t] |
| RibbonRenderer.DoubledColors | src/traj_ribbon_renderer.cxx:167-168 | both vertices of sample t get colors_in[t] |
| RibbonRenderer.AppendRibbon | src/traj_ribbon_renderer.cxx:150-170 | 2n vertices and colours appended, and indices c0..c0+2n-1 with the counter wrapping at 2^32 |
| RibbonRenderer.TrajRibbonRenderer.Reset | src/traj_ribbon_renderer.cxx:44-54 | initial, current_index = 0, nr_elements = 0, no index lists |
| RibbonRenderer.TrajRibbonRenderer.CreateVertices | src/traj_ribbon_renderer.cxx:128-173 | the buffers grow by the ribbon, current_index by 2n, and indices by one list of the new vertex numbers |
| RibbonRenderer.RibbonIndicesConsecutive | src/traj_ribbon_renderer.cxx:161-165 | without wrap-around the list is c0, c0+1, …, c0+2n-1 |
| Ribbon3DRenderer.MantleGeometry | src/traj_ribbon_3d_renderer.cxx:201-211 | the top edge spans twice the rotated axis, and each lower vertex lies the ribbon height from its upper one |
| Ribbon3DRenderer.MantleCentered | src/traj_ribbon_3d_renderer.cxx:205-211 | the sample position is the centre of the four mantle corners |
| Ribbon3DRenderer.MantleNormalsOpposite | src/traj_ribbon_3d_renderer.cxx:225-277 | the bottom normals oppose the top ones, and the second side opposes the first |
| Ribbon3DRenderer.MantleNormalsFront | src/traj_ribbon_3d_renderer.cxx:213-243 | the top pair carries the input normal, the first side the value of `normalize` (the source's `axis1.normalize()`) on the rotated axis |
| Ribbon3DRenderer.FaceAt | src/traj_ribbon_3d_renderer.cxx:218-274 | entry j of sample t in face list k is counter value 8t + 2k + j |
| Ribbon3DRenderer.FacesCoverIndices | src/traj_ribbon_3d_renderer.cxx:218-274 | the j-th new vertex of a sample has its index in face list j/2 |
| Ribbon3DRenderer.FacesDisjoint | src/traj_ribbon_3d_renderer.cxx:218-274 | without wrap-around the four lists share no index |
| Ribbon3DRenderer.RepeatedAt | src/traj_ribbon_3d_renderer.cxx:193-281 | all eight vertices of sample t get its colour |
| Ribbon3DRenderer.AppendMantle | src/traj_ribbon_3d_renderer.cxx:193-281 | 8n vertices, normals and colours appended; the four face lists hold 2n indices each; the counter advances by 8n |
| Ribbon3DRenderer.TrajRibbon3DRenderer.Reset | src/traj_ribbon_3d_renderer.cxx:46-59 | initial, current_index = 0, nr_elements = 0, four empty index lists |
| Ribbon3DRenderer.TrajRibbon3DRenderer.CreateVertices | src/traj_ribbon_3d_renderer.cxx:167-287 | the buffers grow by the mantle; each face list gains one list of 2n; current_index grows by 8n |

## Left out

- The dual-contouring extractor and the MLS point-set surface are not part of this model. Extraction itself is left out, and the ring geometry of the tessellation is the parameter `frame`.
- Rendering and OpenGL buffer upload are left out, as are the GUI, file names, console output and the clock. The frame-rate check of `timer_event` is the boolean `due`.
- Post-processing step 5 is modelled only for the copying branch. The equidistant resampling branch interpolates with floats and `slerp` and is left out.
- The `same_start` shift and step 9 (normals through `normalize(cross(...))`) are left out.
- Kinematics.AngularVelocities: the axis-angle conversion (sqrt, atan2) is the parameter `angular`. Only the zero at the last sample is fixed.
- Quaternions.Slerp: the general branch (acos, sin) is the parameter `general`.
- Ribbon3DRenderer.SampleNormals: `normalize` is a parameter. The vector library that defines it is not part of this model, so nothing is assumed about its result beyond being a vector.
- Handler.SurfaceExtractionHandler.NewVertex: the map keeps only the last point per voxel, so the search can miss an earlier kept point. With g = 1, keeping A = (0.1, 0.1, 0.1) and then B = (0.9, 0.9, 0.9) maps their voxel to B, and C = (0.1, 0.1, 0.2), close to A, is kept too. The model reproduces this; it does not claim kept points are pairwise apart.
- PostProcess.Data.CutTrajectories: new trajectories have the original trajectory's length. The source sizes them by `max_time_steps`, which is the same after loading.
- PostProcess.Data.UnwrapTrajectories: a box dimension of 0 is modelled as "no shift". The source divides by 0 there.
- PostProcess.BoxAll: step 7 folds from the corrected initial box `BoundingBoxes.Initial`. The source starts each trajectory's max at `numeric_limits<float>::min()`, so a trajectory lying entirely at negative x gets max.x of about 1.2e-38 there; `BoundingBoxes.AsWrittenMaxPositive` states that behaviour for any samples.
- PostProcess.Data.PostProcess: the box of a trajectory holding only NaN stays the corrected initial box `BoundingBoxes.Initial`, with max at -FLT_MAX. The source leaves it at its own initial box, with max at FLT_MIN.
- Window.Metatube.Evaluate: the rotation of each member (`quat_to_aa` and the quadric's `rotate`) is the parameter `rot`. Members are recorded by sample index, not as quadric copies.
- RibbonRenderer.TrajRibbonRenderer.CreateVertices: requires current_index < 2^32, which holds for an `unsigned` member. The output buffers passed by reference are in/out values.
- Ribbon3DRenderer.TrajRibbon3DRenderer.CreateVertices: `axis * -1` is vector negation, and the height 0.1f is the real 0.1.
- F90Reader.ReadF90File: the record markers are read but never checked, as in the source. Decoding of doubles and ints is the parameter `dec`.
- F90Reader.ReadF90File: the contents of the frame after a failed read are not modelled. The source has already stored the particles read before the failure, and F90Reader.Load keeps such a frame whenever the last file succeeds.
- F90Reader.Stream.ReadParticle is written as two reads, ReadMotion then ReadShape, in the same byte order.
- F90Reader.Load models the corrected file range. The range as written is LoadIndicesAsWritten, with its defects in the Findings.
- Float rounding, and the float-to-double conversions of the reader, are not modelled.
- Handler.SurfaceExtractionHandler.WritePly: fixed six-digit float formatting is the parameter `fmt`.
- The GPU ribbon renderer, the tube, line and velocity renderers, and `create_ellipsoid_vertices` are not part of this model.

## Findings

| source | as written | input that shows it | evidently intended | confidence | as-written member | corrected member |
|---|---|---|---|---|---|---|
| include/metatube.h:559-562 | `next_idx` is set for the forward scan only when N > 1 | a 1-sample trajectory: `set_window(0)` returns 0, so the loop at src/plugin.cxx:1271-1274 never advances | resume past the anchor for every N | high, not executed | Window.ResumeStallsOnSingleSample | Window.ResumeProgressFixed |
| src/plugin.cxx:1383-1411 | the end caps are emitted even when no ring was emitted | C = 0: the vertices are the two apexes 0 and 1, but the trailing cap has triangle (0, 2, 1) | caps only when a ring exists | high, not executed | TubeExport.DanglingCaps | TubeExport.TessellateFixed |
| src/plugin.cxx:2498-2500 | the scan step is `length_x_percent / 2` | length_x_percent = 1 (the slider allows 0..100): step 0, and x stays 0 | a step of at least 1 | high, not executed | PluginLogic.PoiScanStalls | PluginLogic.ScanFromSpec |
| src/data.cxx:59-72 | files are read from index start - 1, and the test is absolute `i % res` | start 0 (from src/plugin.cxx:1046 with the first step 1), res 1: files[-1] is read; start 0, end 4, res 2: 2 files for 3 slots | every res-th file of [start, end], one per slot | high, not executed | F90Reader.LoadMiscountsSlots | F90Reader.LoadIndicesInRange |
| src/data.cxx:18-19 | the global box max starts at `numeric_limits<float>::min()`, the smallest positive float (the `same_start` reset at src/data.cxx:352-353 does the same) | all samples at (-1, -1, -1): max stays about 1.2e-38 | max starting at the lowest float | high, not executed | BoundingBoxes.AsWrittenBoxNotTight | BoundingBoxes.BoundsTight |
| src/data.cxx:397-398 | step 7 starts each trajectory's box max at `numeric_limits<float>::min()` too | a trajectory at (-1, -1, -1) throughout: its max stays about 1.2e-38 | max starting at the lowest float | high, not executed | BoundingBoxes.AsWrittenMaxPositive | PostProcess.BoxAll |
