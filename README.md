# Lee94 3-D thinning, modelled in Dafny

This project models `lee_thinning.h`. The file thins a binary 3-D voxel
volume to its medial axis or surface with the algorithm of Lee, Kashyap and
Chu (1994). The model covers every part of the deletion engine:

- the bounds-checked and unchecked voxel accessors;
- the six directional readers;
- binarisation;
- the 27-voxel neighbourhood and the endpoint test;
- the Euler lookup table, the eight octant indexers and the Euler-invariance sum;
- the recursive octree labelling and the simple-point test;
- the `computeThinImage` driver.

The model has two layers.

- **Pure layer.** This layer works on grid values.
  - `Voxels.Grid` is an X × Y × Z volume whose reads outside the box give 0.
  - `Hood` is the neighbourhood, `Endpoint` the endpoint test, `FillEulerLUT`, `IndexOctant` and `IsEulerInvariant` the Euler test, and `LabelOctant` and `IsSimple` the labelling and simple-point test.
  - `Scan`, `Recheck`, `Pass`, `Sweep` and `Thin` describe the driver: one direction's collect loop, its recheck-and-delete loop, one direction, one six-direction iteration, and the whole outer loop.
- **Imperative layer.** This layer does what the C++ does in place.
  - `Volumes.Volume` holds an `array3<int>` and a ghost `model` grid that the array represents.
  - `SimplePoint.OctreeLabeling` rewrites a 26-cell `array<int>` recursively.
  - Each method is proved equal to the pure function. For example, `ComputeThinImage` ensures `model == Thin(old(model))`. The lemmas then state what the source promises of those functions.

The modules follow the source's structure:

| module | file | contents |
|---|---|---|
| `Neighborhood` | neighborhood.dfy | neighbourhood indexing, the 26-cell cube, counting 1s, the endpoint test |
| `Voxels` | grid.dfy | points, grid values, `get_pixel`/`set_pixel` semantics, the neighbourhood of a voxel, directions, "only deletes" |
| `Euler` | euler.dfy | the Euler table, the octant indexers, the Euler-invariance sum |
| `SimplePoint` | simple_point.dfy | `octree_labeling` (a table of the source's per-octant lines) and `is_simple_point` |
| `Thinning` | thinning.dfy | the `uint8_t` cast, the candidate tests, the scan, recheck, pass, sweep and thinning functions, and their properties |
| `Volumes` | volume.dfy | the in-place volume class and the imperative `computeThinImage` |

Some points where the model takes a position:

- **The `uint8_t` casts** (lee_thinning.h:643 and :660). These are modelled exactly as `ToBytes`: each entry is reduced modulo 256. On a 0/1 volume the cast is the identity (`ToBytesOfBytes`), but the model does not need that assumption.
- **`is_endpoint`.** It counts all 27 entries from −1, centre included. `Endpoint` keeps that. `EndpointMeaning` shows it means "exactly one foreground neighbour" when the centre is 1, which the driver guarantees before calling it.
- **`octree_labeling`.** It is kept line by line as the table `OctantSteps`: each line is a cell plus the octants it recurses into, in the source's order. The mutual recursion `LabelOctant`/`LabelSteps`/`LabelCalls` terminates on the number of cells equal to 1. Each recursive call follows the relabelling of such a cell, and a label other than 1 is required.

## Model

| member | source | states |
|---|---|---|
| `Voxels.Grid.Set` | lee_thinning.h:158-162 | set_pixel writes the value at an in-box point; every other cell keeps its value; a write outside the box leaves the grid unchanged |
| `Voxels.Grid.At` | lee_thinning.h:32-37 | get_pixel on a grid value: the stored cell inside the box, 0 outside; its contents are stated by `Volumes.Volume.GetPixel` |
| `Voxels.Hood` | lee_thinning.h:51-89 | the neighbourhood has 27 entries |
| `Voxels.HoodEntry` | lee_thinning.h:51-89 | entry 9(dz+1)+3(dy+1)+(dx+1) is the voxel at offset (dx, dy, dz), and entry 13 is the voxel itself |
| `Voxels.ForegroundMembers` | lee_thinning.h:623-624 | a voxel is in the foreground exactly when it holds 1 |
| `Voxels.OnlyDeletesTransitive` | lee_thinning.h:663 | two rounds of deletions are a round of deletions |
| `Voxels.OnlyDeletesShrinks` | lee_thinning.h:663 | deleting keeps a binary grid binary and never adds foreground |
| `Voxels.DeleteForeground` | lee_thinning.h:663 | set_pixel(…, 0) on a 1-voxel removes exactly that voxel from the foreground, so the foreground shrinks by one |
| `Voxels.OnlyDeletesHood` | lee_thinning.h:663 | after deletions a voxel has no more foreground neighbours than before |
| `Neighborhood.IndexOffsetRoundTrip` | lee_thinning.h:51-89 | neighbourhood index and (dx, dy, dz) offsets are inverse to each other, both ways |
| `Neighborhood.Count1Append` | lee_thinning.h:97-99 | the counting loop adds the counts of consecutive parts |
| `Neighborhood.Count1Mono` | lee_thinning.h:321-514 | turning 1-entries into other values never raises the count of 1s |
| `Neighborhood.Count1Zero` | lee_thinning.h:543-544 | a count of zero means no entry holds 1, and conversely |
| `Neighborhood.Count1Clear` | lee_thinning.h:323-324 | relabelling one 1-cell lowers the count of 1s by exactly one (the termination measure of octree_labeling) |
| `Neighborhood.Cube` | lee_thinning.h:533-539 | the 26-cell cube holds neighbourhood entries 0..12 at 0..12 and entries 14..26 at 13..25 |
| `Neighborhood.Count1Cube` | lee_thinning.h:96-99 | the neighbourhood's count of 1s is the cube's count plus one when the centre holds 1 |
| `Neighborhood.Endpoint` | lee_thinning.h:94-101 | is_endpoint as written: the count of entries equal to 1, started at −1 with the centre included, is exactly 1; its meaning is `EndpointMeaning`, and `Volumes.Volume.IsEndpoint` is proved equal to it |
| `Neighborhood.EndpointMeaning` | lee_thinning.h:94-101 | with centre 1, is_endpoint holds exactly when one of the 26 neighbours holds 1; with any other centre it asks for exactly two |
| `Euler.OddEntriesValues` | lee_thinning.h:115-136 | each block of odd-index table entries has 32 values, all in {−7, −3, −1, 1, 3, 5} |
| `Euler.FillEulerLUT` | lee_thinning.h:112-139 | the table has 256 entries, 0 at every even index and a value in {−7, −3, −1, 1, 3, 5} at every odd index, with LUT[1] = 1, LUT[9] = −3, LUT[105] = 5, LUT[129] = −7 and LUT[255] = −1 |
| `Euler.Positions` | lee_thinning.h:194-288 | each octant indexer reads seven in-range positions, none of them the centre |
| `Euler.PositionInOctant` | lee_thinning.h:194-288 | every position an octant indexer reads lies in that octant's 2×2×2 block |
| `Euler.PositionsDistinct` | lee_thinning.h:194-288 | the seven positions of an octant indexer are distinct |
| `Euler.IndexOctant` | lee_thinning.h:194-288 | an octant index is odd (bit 0, the centre, is always set); as a byte it is in 1..255 |
| `Euler.IndexBits` | lee_thinning.h:194-288 | the bit of weight 128, 64, …, 2 is set exactly when the corresponding position is nonzero |
| `Euler.IndexDeterminedByPositions` | lee_thinning.h:194-288 | two neighbourhoods give the same octant index exactly when they agree on which of the seven positions are nonzero |
| `Euler.EulerChange` | lee_thinning.h:293-302 | the sum of the eight table lookups, in the order SWU, SEU, NWU, NEU, SWB, SEB, NWB, NEB; `IsolatedNotEulerInvariant` evaluates it |
| `Euler.IsEulerInvariant` | lee_thinning.h:293-304 | is_euler_invariant: the sum is 0; `EulerIgnoresCentre` and `IsolatedNotEulerInvariant` state its properties |
| `Euler.EulerIgnoresCentre` | lee_thinning.h:293-304 | the Euler test never reads the centre voxel |
| `Euler.IsolatedNotEulerInvariant` | lee_thinning.h:293-304 | a voxel with no nonzero neighbour gets an Euler change of 8 (eight lookups of LUT[1]), so it is not Euler invariant |
| `SimplePoint.OctantSteps` | lee_thinning.h:321-514 | the labelling table: for each octant its seven cells in source order, each with the octants its branch recurses into; `LabelOctantClears` and `SeedLineInTable` use it |
| `SimplePoint.LabelOctant` | lee_thinning.h:321-514 | octree_labeling changes only cells that held 1, each to the label, and never raises the count of 1s |
| `SimplePoint.LabelSteps` | lee_thinning.h:321-514 | running an octant's lines in order changes only 1-cells, each to the label |
| `SimplePoint.LabelCalls` | lee_thinning.h:321-514 | the recursive calls of one line change only 1-cells, each to the label |
| `SimplePoint.LabelOctantClears` | lee_thinning.h:321-514 | after labelling from an octant, none of that octant's seven cells still holds 1 |
| `SimplePoint.LabelStepsClear` | lee_thinning.h:321-514 | after an octant's lines have run, none of their cells holds 1 |
| `SimplePoint.OctreeLabeling` | lee_thinning.h:321-514 | the in-place recursive labelling of the cube array leaves exactly the cube LabelOctant describes |
| `SimplePoint.SeedOctant` | lee_thinning.h:545-570 | the octant the switch of is_simple_point picks for each seed cell; `SeedLineInTable` shows each cell is one of that octant's lines |
| `SimplePoint.ScanSeeds` | lee_thinning.h:541-578 | the seed scan from cell i with the next label: a 1-cell is labelled from its seed octant, the label is incremented, and the scan returns false once label − 2 ≥ 2; `ScanSkips` and `ScanAfterFirst` state its behaviour |
| `SimplePoint.IsSimple` | lee_thinning.h:530-579 | is_simple_point on a neighbourhood: the seed scan of its cube from label 2; `IsSimpleMeaning` gives its meaning and `IsSimplePoint` is proved equal to it |
| `SimplePoint.IsSimplePoint` | lee_thinning.h:530-579 | the copy loops, the seed scan, the octant switch and the label counter decide exactly IsSimple |
| `SimplePoint.SeedLineInTable` | lee_thinning.h:545-570 | every cube cell is one of the seven lines of the octant the switch picks for it |
| `SimplePoint.SeedLabelled` | lee_thinning.h:543-570 | a seed that still holds 1 is itself relabelled by the labelling started from its octant, so no cell seeds twice |
| `SimplePoint.FirstOne` | lee_thinning.h:543-544 | the first cell at or after i that holds 1: every cell before it does not hold 1 |
| `SimplePoint.ScanSkips` | lee_thinning.h:543-544 | cells not holding 1 are skipped by the seed scan |
| `SimplePoint.ScanAfterFirst` | lee_thinning.h:571-578 | once one component is labelled, the scan returns true exactly when no 1 is left after that point |
| `SimplePoint.FirstSeedLabelled` | lee_thinning.h:543-578 | after the first seed's labelling, the cube has no 1 exactly when no 1 follows the seed |
| `SimplePoint.IsSimpleMeaning` | lee_thinning.h:530-579 | is_simple_point is true exactly when no neighbour holds 1 or when the labelling from the first foreground neighbour reaches every foreground neighbour; it is false exactly when a second seed is found |
| `SimplePoint.IsolatedIsSimple` | lee_thinning.h:530-579 | an all-zero neighbourhood is simple |
| `SimplePoint.OneNeighbourIsSimple` | lee_thinning.h:530-579 | a voxel with exactly one foreground neighbour is simple |
| `Thinning.ToBytes` | lee_thinning.h:641-643 | the uint8_t copy has one byte per neighbourhood entry (its values: ToBytesEntries) |
| `Thinning.ToBytesEntries` | lee_thinning.h:641-643 | each byte lies in 0..255 and differs from its int entry by a multiple of 256 |
| `Thinning.ToBytesOfBytes` | lee_thinning.h:641-643 | the cast leaves a 0/1 neighbourhood unchanged |
| `Thinning.BorderNumbering` | lee_thinning.h:617-633 | currentBorder 1..6 and the six directions N, S, E, W, U, B correspond one to one |
| `Thinning.IsCandidate` | lee_thinning.h:623-649 | the scan's tests in order: the voxel holds 1, its face neighbour in the current direction is at most 0, and it passes the neighbourhood tests; `Volumes.Volume.IsBorderCandidate` is proved equal to it |
| `Thinning.PassesHoodTests` | lee_thinning.h:638-649 | not an endpoint on the int neighbourhood, then Euler invariant and simple on its byte copy; `Volumes.Volume.CheckNeighborhood` is proved equal to it |
| `Thinning.Scan` | lee_thinning.h:620-655 | simpleBorderPoints after the z, y, x loops; `ScanMembers` states its contents and order |
| `Thinning.ConcatMembers` | lee_thinning.h:620-655 | the output of nested scan loops holds exactly the points of the blocks below the loop bound |
| `Thinning.ConcatAscending` | lee_thinning.h:620-655 | nested loops that each push in ascending order push in ascending order overall |
| `Thinning.RowScanMembers` | lee_thinning.h:622-653 | the x loop pushes exactly the points of its row that pass the tests, by increasing x |
| `Thinning.SliceScanMembers` | lee_thinning.h:621-654 | the y loop pushes exactly the points of its slice that pass the tests, row by row |
| `Thinning.VolumeScanMembers` | lee_thinning.h:620-655 | the z loop pushes exactly the points of the box that pass the tests, slice by slice |
| `Thinning.ScanMembers` | lee_thinning.h:620-655 | simpleBorderPoints holds exactly the in-box voxels that hold 1, have a background face neighbour in the current direction, are not endpoints, and are Euler invariant and simple; they come in z, y, x order, each once |
| `Thinning.ScanForeground` | lee_thinning.h:620-655 | every collected point is an in-box 1-voxel whose byte neighbourhood is simple |
| `Thinning.ScanEmpty` | lee_thinning.h:620-655 | the scan collects nothing exactly when no in-box voxel passes the tests |
| `Thinning.Recheck` | lee_thinning.h:657-667 | the recheck loop from entry i: a listed point is set to 0 when it is simple on the grid left by the earlier deletions; `RecheckEffect` states its effect |
| `Thinning.Pass` | lee_thinning.h:618-672 | one currentBorder iteration: the scan, then the recheck on the same grid; `PassEffect` states its effect |
| `Thinning.RecheckEffect` | lee_thinning.h:657-667 | the recheck sets exactly its deleted points to 0, keeps the extents, deletes only listed points, and changes nothing when it deletes nothing |
| `Thinning.PassEffect` | lee_thinning.h:617-673 | a direction only deletes 1-voxels of the scan; it deletes something exactly when the scan found something (the first point is still simple when rechecked); then the foreground strictly shrinks |
| `Thinning.PassDeletesCandidates` | lee_thinning.h:620-667 | every deleted voxel met all the scan tests on the grid as it stood at scan time |
| `Thinning.PassWithoutCandidates` | lee_thinning.h:657-670 | a direction whose scan finds nothing leaves the grid alone and counts as unchanged |
| `Thinning.Sweep` | lee_thinning.h:614-673 | the currentBorder loop from border b: each direction in turn, counting those that deleted nothing; `SweepEffect` states its effect |
| `Thinning.SweepEffect` | lee_thinning.h:613-674 | an iteration of the outer loop only deletes; when all six directions are unchanged the grid is untouched and every scan was empty; otherwise the foreground strictly shrinks |
| `Thinning.Thin` | lee_thinning.h:613-674 | the outer while loop: sweeps until one sweep leaves all six directions unchanged; `ThinEffect`, `ThinIdempotent` and `ThinKeepsSparse` state its properties |
| `Thinning.Iterations` | lee_thinning.h:610-615 | the final value of the iterations counter: one per sweep; `IterationsBound` bounds it |
| `Thinning.IterationsBound` | lee_thinning.h:610-615 | the number of outer iterations is at least 1 and at most the initial foreground count plus 1 |
| `Thinning.ThinEffect` | lee_thinning.h:600-675 | computeThinImage only writes 0 over 1s, and it stops at a volume on which no direction's scan finds a voxel |
| `Thinning.ThinNoCandidates` | lee_thinning.h:600-675 | in the thinned volume no in-box voxel passes the scan tests in any direction |
| `Thinning.ThinBinary` | lee_thinning.h:600-675 | thinning keeps a binary volume binary and its foreground only shrinks |
| `Thinning.SweepWithoutCandidates` | lee_thinning.h:613-674 | on a volume where no scan finds anything, an iteration changes nothing and counts all six directions unchanged |
| `Thinning.ThinIdempotent` | lee_thinning.h:600-675 | thinning a thinned volume changes nothing |
| `Thinning.SparseHoodRejected` | lee_thinning.h:638-646 | a binary neighbourhood whose centre is 1 and has at most one foreground neighbour is an endpoint or not Euler invariant |
| `Thinning.HoodBinary` | lee_thinning.h:51-89 | the neighbourhood of a binary volume is binary |
| `Thinning.SparseNotCandidate` | lee_thinning.h:623-649 | such a voxel is never collected by the scan |
| `Thinning.SweepKeepsSparse` | lee_thinning.h:617-673 | such a voxel survives an iteration and keeps at most one foreground neighbour |
| `Thinning.ThinKeepsSparse` | lee_thinning.h:600-675 | on a binary volume, a line tip or an isolated voxel survives thinning |
| `Volumes.Volume.constructor` | lee_thinning.h:17 | a zero-filled volume of the given extents |
| `Volumes.Volume.GetPixel` | lee_thinning.h:32-37 | get_pixel returns the stored value inside the box and 0 outside it |
| `Volumes.Volume.GetPixelNoCheck` | lee_thinning.h:154-156 | get_pixel_nocheck returns the stored value at an in-box coordinate |
| `Volumes.Volume.N` | lee_thinning.h:143 | N reads the neighbour at y − 1 |
| `Volumes.Volume.S` | lee_thinning.h:144 | S reads the neighbour at y + 1 |
| `Volumes.Volume.E` | lee_thinning.h:145 | E reads the neighbour at x + 1 |
| `Volumes.Volume.W` | lee_thinning.h:146 | W reads the neighbour at x − 1 |
| `Volumes.Volume.U` | lee_thinning.h:147 | U reads the neighbour at z + 1 |
| `Volumes.Volume.B` | lee_thinning.h:148 | B reads the neighbour at z − 1 |
| `Volumes.Volume.Facing` | lee_thinning.h:628-633 | the reader chosen by currentBorder returns the face neighbour in that direction |
| `Volumes.Volume.GetNeighborhood` | lee_thinning.h:51-89 | get_neighborhood returns the zero-padded neighbourhood Hood of the volume |
| `Volumes.Volume.SetPixel` | lee_thinning.h:158-162 | set_pixel changes only cell (x, y, z), and only when it is in the box |
| `Volumes.Volume.PrepareData` | lee_thinning.h:22-28 | prepare_data turns every nonzero cell into 1 and leaves zeros alone, so the volume becomes binary |
| `Volumes.Volume.IsEndpoint` | lee_thinning.h:94-101 | the counting loop from −1 decides exactly Endpoint of the neighbourhood |
| `Volumes.Volume.IsBorderCandidate` | lee_thinning.h:623-649 | the chain of `continue` tests in the scan decides exactly IsCandidate |
| `Volumes.Volume.CheckNeighborhood` | lee_thinning.h:638-649 | the endpoint, cast, Euler and simple-point tests decide exactly PassesHoodTests |
| `Volumes.Volume.ScanRowOf` | lee_thinning.h:622-653 | the x loop pushes the candidates of its row, in order |
| `Volumes.Volume.CollectBorderPoints` | lee_thinning.h:620-655 | the z, y, x loops collect exactly Scan of the volume |
| `Volumes.Volume.RecheckPoint` | lee_thinning.h:658-665 | the point is deleted exactly when its byte neighbourhood is simple on the current grid |
| `Volumes.Volume.DeleteSimplePoints` | lee_thinning.h:657-670 | the recheck loop leaves exactly Recheck's grid; noChange holds exactly when nothing was deleted |
| `Volumes.Volume.ThinBorder` | lee_thinning.h:618-672 | one direction leaves exactly Pass's grid and reports whether it deleted nothing |
| `Volumes.Volume.SweepBorders` | lee_thinning.h:614-673 | the currentBorder loop leaves exactly Sweep's grid and counts its unchanged directions |
| `Volumes.Volume.ComputeThinImage` | lee_thinning.h:600-675 | computeThinImage leaves exactly Thin of the initial volume; the loop terminates because the foreground shrinks in every non-final iteration |

The lemmas `RecheckStep`, `SweepStep`, `ThinStep`, `RowScanStep` and
`CandidateSimple` are proof helpers: each unfolds a definition for another
proof, and none has a row of its own. The same holds for `AppendAssoc`,
`SubsetCard`, `HoodAtOffset`, `AscendingConcat`, `SeedLineLow`/`SeedLineHigh`
and the per-octant `…InBlock` lemmas.

## Left out

- `tira::volume` (lee_thinning.h:6, lee_thinning.h:17) is a foreign container and is not part of this model. It is modelled as an `array3<int>` with extents X, Y, Z. `Volumes.Volume.constructor` only builds a zero-filled volume of given extents; the container's other constructors and its storage layout are not modelled.
- The `lee` wrapper (lee_thinning.h:678-705) is not modelled. It allocates the output through the foreign constructor, binarises the input with a loop that duplicates `prepare_data` (modelled by `PrepareData`), runs `computeThinImage` and copies the result.
- `fill_num_of_points_LUT` and `pointsLUT` (lee_thinning.h:170-180, lee_thinning.h:606-607) are not modelled. The table is filled but never read, so it has no effect on the result.
- The `iterations` counter (lee_thinning.h:610, lee_thinning.h:615) is never read. `ComputeThinImage` does not keep it. The pure function `Thinning.Iterations` gives its final value, and `IterationsBound` bounds it.
- `computeThinImage` is one function in the source. In the model it is split into methods, one per loop level: `ScanRowOf`, `CollectBorderPoints`, `DeleteSimplePoints`, `ThinBorder`, `SweepBorders` and `ComputeThinImage`. `simpleBorderPoints` is the sequence `CollectBorderPoints` returns. Its `clear()` at line 672 becomes a fresh sequence for each direction.
- Global topological correctness is not stated: homotopy equivalence of the skeleton, preservation of holes and tunnels, and agreement of the octree labelling with a generic 26-connected flood fill. The source states none of these, and they are beyond this model. The model proves the structural labelling and deletion properties instead.
- Volume extents and coordinates are unbounded integers. The C++ `int` coordinates and extents could overflow only for volumes beyond 2³¹ voxels per side.
