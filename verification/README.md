# A verified model of a quantised BVH builder

The program is a CPU builder for six-wide bounding volume hierarchies. From
geometries described by callbacks it makes an array of primitive references,
splits that array in place and writes a hierarchy of 64-byte blocks into a
buffer that the caller provides: inner nodes with 8-bit quantised child boxes
and packed child references, and leaf lists of triangle pairs, quads,
procedurals and instances. This project models that builder in Dafny, together
with the parallel array algorithms it stands on, and proves what its callers
rely on.

`dafny verify dfyconfig.toml` checks everything.

## Modules

| modules | what they model |
|---|---|
| Common, Geometry, Hulls | sums, folds and filters over sequences, the tiling of a loop into tasks, boxes, the least box around references |
| Partition, ParallelPartition | serial partitioning; slices by tasks and the exchange of misplaced ranges |
| InsertionSort, RadixSort, MsdRadixSort | the sorts: LSD by tasks, in-place MSD, insertion sort |
| PrefixSum, NestedTasks, MeshPairing, PrimGen | two-run prefix sums, tasks over nested arrays, pairing all meshes, primitive generation |
| Quadifier, QuadLeaf | triangle pairing in a sliding window over a ring buffer; the leaf that stores a pair |
| Presplit, Requests, Morton, SplitPlanes, Clipping, ProperParts | pre-splitting within a budget, how many parts are asked for, split planes from Morton codes and which planes these are in the scene, clipping, that no part is empty |
| Transforms, OpenInstance, OpeningBounds, OpenedParts | affine transforms of boxes, opening instances, how many subtrees that makes, what the references made hold |
| SceneSplit, PresplitBuild | the splits of a scene; pre-splitting followed by the build |
| Binning, SahSplit | binning and the two sweeps over the bins; the cost of a split from its references and the partition by the cheapest one |
| PrimLeafDesc, QNode, Bvh, NodeWriter | the leaf header, the node encoding, what a tree in memory is, the reader, writing a node |
| Decisions | which trees the decisions of the builder make of a list of references, apart from arrays and memory |
| Records, Splits, Children, Depth | build records, the ways to split one, the child lists, the depth of halved ranges |
| Subtrees, LeafWriter, Procedurals, Instances, Phases, Builder | what a finished subtree is, the leaf writers, and the recursive builder |
| SizeEstimate, Build | the advertised sizes and a whole build from references to reading the result |
| Allocator | the bump allocator as a protocol of concurrent threads |

## How it is modelled

- Coordinates are exact reals. The widening by one ulp stays as an explicit
  constant, so the containment results do not use rounding.
- Node memory is an array of 64-byte blocks, addresses are block numbers; child
  offsets pass through the 32-bit field, child sizes and start slots through 2
  and 4 bits.
- A `parallel_for` is a set of tasks that are taken in any order. The child
  tasks of an inner node may also be skipped once one has failed. The
  allocator alone is modelled at the level of single atomic steps of any number
  of threads.
- The callbacks are parameters: the type and mask of a geometry, the references
  of a primitive, the triangles of a mesh, the corners of a reference, the
  projected areas of primitives and the fourth root that weigh priorities.
  `Scene.only` names the type of a scene that has only one, and
  `Scene.masks.count` is the number of geometries, below which all geometry IDs
  are.
- Exceptions and null results are outcomes: `Done`, `OutOfMemory`, `TooDeep` and
  `BadGeometry` for the builder, `Option` elsewhere. A recursion that succeeds
  returns a ghost tree, and predicates relate that tree to the blocks written.
- The round trip, memory and depth results use of an SAH split only that both
  sides are non-empty, so they do not depend on the heuristic. What the heuristic
  decides is a result of its own, `Decisions.Decided`, that the recursion passes
  up beside them.

## Main results

- **Round trip.** Build.BuildAndTraverse: reading the finished buffer from the
  root meets every reference exactly once, in lists of the right type, under the
  ID its leaf keeps; these are the references' own IDs if and only if no geometry
  ID reaches 2^29, and a build with one of 2^30 or more does not complete. The
  root's mask is the OR of all masks. By Bvh.Encodes every reference lies in the
  dequantised box of each of its ancestors and unset children read as invalid.
- **Decisions.** Build.Build and PresplitBuild.PresplitAndBuild: at every node of a finished tree the children come
  about by steps that each divide the first child of largest surface above the
  leaf size at the cheapest bin boundary of its centroids (Children.InternalChildren,
  Children.SplitLargestArea); fat and large leaves are formed by their own rules
  (Children.FatLeafChildren, Builder.BuilderSAH.CreateLargeLeaf). SahSplit.OptimalIs,
  SahSplit.CostIs and SahSplit.SahIsSides say what cheapest means in terms of the
  references alone: the fast sweeps find the first minimum of all, a block of
  references counting half the surface of the least box around its side; a split
  is found if and only if the centroids have extent (Binning.SplitExists).
- **Tightness.** NodeWriter.StoredChildTight: the box stored for a child exceeds
  the least box around the references below it by the widening and one grid step
  at most, and the step is below 2/255 of the extent of the node unless the
  exponent is the least one.
- **Memory.** Build.WorstCaseSuffices and Build.AdvertisedSizeSuffices: a scene
  of one type never exceeds the advertised worst case, also when references are
  split (PresplitBuild.PresplitAndBuild); nodes number at most 6/5 of the
  references, 8/5 with mixed types. Build.WorstCaseBounded: what is advertised is
  at most 1.1 times that need and 8464 bytes.
- **Depth.** Builder.BuilderSAH.CreateLargeLeaf and Depth.CapacitySpread give the
  exact number of references that fit below a depth; Build.DepthSuffices derives
  that no scene of up to 109226 references is too deep.
- **Concurrency.** Allocator.SafeIff: every interleaving of the allocator is safe
  if and only if one request per thread fits between the last boundary and 2^64;
  ParallelPartition.ParallelPartitioning, RadixSort.ParallelRadixSort.Sort,
  PrefixSum.ParallelPrefixSum, PrimGen.Generator.Generate and
  Presplit.CreatePresplit give one result for every task count and schedule.
- **Primitives.** Quadifier.PairTriangleRange is a complete greedy matching that
  Quadifier.PairingIsUnique shows to be the only one; PrimGen.TriangleInArray
  says which triangles the generated array stores, whatever the tasks.
- **Splitting.** PresplitBuild.PresplitAndBuild runs from generated references to
  reading the finished hierarchy: parts are asked for by priority, references are
  cut or opened within the free slots, the result is built, and what is read back
  are references that hold every point the generated ones held (of a quad when
  its diagonal is held). On the way, Morton.SplitPos puts every split plane
  strictly inside its reference, and SplitPlanes.PlaneIs says which one it is: the
  multiple of 1/1024 of the scene's longest side with the most factors of two, of
  all those well inside; ProperParts.PairPartsProper and
  ProperParts.QuadPartsProper show that no part is ever empty,
  Clipping.TrianglePartsCover that split triangles stay covered, and
  Clipping.QuadKeptIff when quads do. OpenInstance.Open reads an instanced
  hierarchy from its blocks and opens it along cuts, and OpenedParts.OpenedCover
  shows that the transformed boxes made hold everything below the instance
  (OpenedParts.BoundsTight and Transforms.XfmLeast: and little more).

## Where the code does less than one would expect

Each of these is a lemma with the exact condition or an example.

- QuadLeaf.PairRoundTrip: a second triangle of three copies of the first corner
  is not read back, and geometry IDs from 2^29 on are truncated although the
  constructor refuses them only from 2^30 on (rtbuild/leaf.h:76-99, 152).
- Build.IdsReturnIff: the same truncation for whole builds. Procedurals whose
  geometry IDs agree modulo 2^29 share a leaf header, also its mask: it is
  always their own if and only if all such geometries have equal masks
  (Procedurals.OwnMasksIff).
- MeshPairing.RepresentedIff, MeshPairing.ValidTriangleDropped: a valid triangle
  that was paired with an invalid one gets no reference.
- Clipping.QuadKeptIff, Clipping.QuadKeptAlwaysIff, Clipping.QuadPartsLose,
  Clipping.QuadCounterexample: clipping a quad processes its four edges only;
  points on the diagonal can be lost, never those of a flat convex quad.
- Allocator.SafeIff, Allocator.WrapBreaks: the allocator is safe as long as every
  thread can overshoot the last boundary once without passing 2^64. With the
  builder's requests this concerns buffers that end within 768 bytes per thread
  of 2^64 only (Allocator.BuilderSafe).
- SizeEstimate.HintIsExactIff: the size hint of a build counts the primitives of
  all earlier geometries again for every triangle geometry.
- Presplit.Shrink: a set of parts that would meet the budget exactly is cut back.
- OpeningBounds.NeverMoreIff: opening an instance keeps to the number of
  sub-references asked for, over all stored hierarchies, if and only if that is
  one or 32; for every other number OpeningBounds.MoreThanWanted gives a stored
  hierarchy that is opened into four more, or 32.

## Model

| member | source | states |
|---|---|---|
| Build.BuildAndTraverse | rtbuild/qbvh6_builder_sah.h:1137-1145 | A finished build leaves a hierarchy over the references, as the decisions of the code make it, and following child references and leaf lists from the root meets every reference exactly once, in the order of the tree, under the ID its leaf keeps, and these are the IDs of the references if and only if every geometry ID of a triangle, quad or procedural is below 2^29; the root mask is the OR of all masks; "too large geometry ID" is the outcome only when some such ID is 2^30 or more, and no build with one completes; a one-type scene never runs out of the advertised bytes, and no scene of at most 109226 references is too deep |
| Build.Build | rtbuild/qbvh6_builder_sah.h:1154-1204 | The references end as a permutation, a finished build leaves a well-formed hierarchy whose blocks all lie inside the buffer, each failure has a cause (too few bytes for the need of n references, more references than the depth holds, or a geometry ID that no leaf header admits), and the finished tree is one that the decisions of the code make of the references: which child is split, by what, and when none is, at every node |
| Build.CreateEmptyNode | rtbuild/qbvh6_builder_sah.h:864-869 | An empty scene is a node at which no child reads as valid |
| Build.WorstCaseSuffices | rtbuild/qbvh6_builder_sah.h:165-172 | For every scene of one type the worst-case byte count exceeds all that a build can allocate (at most 1.2 nodes and one or two leaf blocks per reference), including the final strict comparison with the buffer end |
| Build.WorstCaseBounded | rtbuild/qbvh6_builder_sah.h:165-172 | Nor is much more advertised: for a scene of one type at most 1.1 times what a build of it may need and 8464 bytes |
| Build.AdvertisedSizeSuffices | rtbuild/qbvh6_builder_sah.h:1277-1295 | The same for counts gathered from the geometries: as many references as the one-type scene has primitives fit |
| Build.DepthSuffices | rtbuild/qbvh6_builder_sah.h:770-771 | The bound under which nothing is too deep is 109226 references, more than 6 times 4^7; that 109227 can fail is not claimed |
| Build.MaskPermutation | rtbuild/qbvh6_builder_sah.h:354-360 | The mask of a subtree depends only on which references are below it, not on their order |
| Build.IdsPermutation | rtbuild/qbvh6.cpp:14-21 | Rearranged references are read back as the same multiset of stored IDs |
| Build.IdsReturnIff | rtbuild/leaf.h:92-100 | The stored IDs of references are their own IDs, as multisets, if and only if no geometry ID loses bits in the 29-bit field of its leaf header |
| SizeEstimate.EstimateSize | rtbuild/qbvh6_builder_sah.h:1277-1296 | The counts behind the advertised sizes are those of the geometries; with pre-splitting those of triangles, quads and instances are a fifth more, rounded down |
| SizeEstimate.WorstCaseIs | rtbuild/qbvh6_builder_sah.h:165-172 | The advertised size is the least multiple of 128 that is not below 8192 and 1.1 times (in whole bytes) the header, the nodes and the leaf blocks |
| SizeEstimate.Stats.WorstNodes | rtbuild/qbvh6_builder_sah.h:168-169 | Nodes are counted as one for the root, one for each reference and the fewest that take six references each |
| SizeEstimate.ScratchIsLeast | rtbuild/qbvh6_builder_sah.h:174-176 | The scratch size is one byte above the least that has room for the references however many bytes alignment skips |
| SizeEstimate.ScratchSuffices | rtbuild/qbvh6_builder_sah.h:174-176 | However many bytes aligning the scratch buffer skips, the reference array for all primitives fits, so its resize never has to allocate |
| SizeEstimate.PresplitsBound | rtbuild/qbvh6_builder_sah.h:146-151 | The pre-split estimate never lowers a count, and raises those of triangles, quads and instances by a fifth, rounded down |
| SizeEstimate.HintStats | rtbuild/qbvh6_builder_sah.h:1158-1177 | What the counting loop of a build really accumulates: all primitives, and for every triangle geometry the running total of all geometries so far |
| SizeEstimate.HintIsExactIff | rtbuild/qbvh6_builder_sah.h:1169-1169 | That triangle count is never too low, and it is the true one if and only if nothing but empty geometries precedes each non-empty triangle geometry |
| SizeEstimate.RoundUp | rtbuild/qbvh6_builder_sah.h:171-171 | Rounding gives the next multiple of 128, less than 128 above |
| Builder.BuilderSAH.Malloc | rtbuild/qbvh6_builder_sah.h:56-66 | Run by one task at a time: a block starts where the last one ended, without padding, and ends strictly below the buffer end; refusal means the request would have reached it |
| Builder.BuilderSAH.CreateInternalNode | rtbuild/qbvh6_builder_sah.h:767-862 | For every record the blocks taken encode a typed tree over exactly its references, memory below is untouched, running out of memory implies that the record's need exceeded what was left, a refused geometry ID is one of the record's, and no record inside the depth bound is too deep; in a one-type scene a record that fits a leaf takes one node even when its type was still unknown; the finished tree is one that the decisions of the code make of the references |
| Builder.BuilderSAH.CreateNodeOver | rtbuild/qbvh6_builder_sah.h:821-861 | Allocating the child nodes, building them serially or by tasks and writing the parent keeps that outcome |
| Builder.BuilderSAH.CreateChildrenSerial | rtbuild/qbvh6_builder_sah.h:853-857 | The children are built one after the other; the first failure stops and is reported |
| Builder.BuilderSAH.CreateChildrenParallel | rtbuild/qbvh6_builder_sah.h:831-844 | The same outcome for every order of the child tasks, also when tasks are skipped or still run after one failed |
| Builder.BuilderSAH.CreateLargeLeaf | rtbuild/qbvh6_builder_sah.h:720-765 | Throws too deep only when n references of one type exceed the capacity of the levels left, and completes only when they do not: with enough memory an if-and-only-if; the finished tree covers exactly the record and is the balanced one that halving its references in place makes |
| Builder.BuilderSAH.CreateLargeChildren | rtbuild/qbvh6_builder_sah.h:756-762 | The children of a large leaf are built in turn, and too deep is blamed on a child above its capacity |
| Builder.BuilderSAH.CreateFatLeaf | rtbuild/qbvh6_builder_sah.h:639-718 | The three leaf writers are reached with the type the references really have; too deep is reported iff the depth is above 27; the lists are the children that the code forms, those of triangles and quads in descending surface |
| Builder.BuilderSAH.CreateFatQuadLeaf | rtbuild/qbvh6_builder_sah.h:429-446 | Takes one block per reference and stores all of the record, or reports that they did not fit or that a header refused one of its geometry IDs |
| Builder.BuilderSAH.CreateProcedurals | rtbuild/qbvh6_builder_sah.h:448-493 | Takes one block per run of equal geometry indices and stores all of the record, or reports that they did not fit or that a header refused one of its geometry IDs |
| Builder.BuilderSAH.CreateInstances | rtbuild/qbvh6_builder_sah.h:496-527 | Takes two blocks per instance and stores all of the record, or reports that they did not fit |
| Builder.BuilderSAH.FinishNode | rtbuild/qbvh6_builder_sah.h:846-860 | Writing the parent over finished children gives a finished subtree again |
| Builder.LargeDepth | rtbuild/qbvh6_builder_sah.h:741-747 | A large leaf keeps within the depth limit iff all its halved children do |
| Builder.HalvedChildren | rtbuild/qbvh6_builder_sah.h:741-747 | Halving gives six children, or fewer that are all leaves, each smaller than the record |
| Builder.ChildrenSmaller | rtbuild/qbvh6_builder_sah.h:811-816 | Every child is smaller, or has a known type where the record's was unknown (the one-child node for 7 to 9 triangles): the recursion terminates |
| Phases.RunningStep | rtbuild/qbvh6_builder_sah.h:831-841 | Finishing one more child, whichever is next, keeps all finished ones intact and the budget of the rest covered |
| Phases.RunningFails | rtbuild/qbvh6_builder_sah.h:837-840 | When a child runs out of memory the children together may need more than the buffer had |
| Phases.RecordUnstorable | rtbuild/qbvh6_builder_sah.h:831-844 | A geometry ID refused below one child is one of the record's own references, whatever the tasks rearranged before |
| Phases.InnerStored | rtbuild/qbvh6_builder_sah.h:342-364 | A written parent over stored children is a stored subtree over all their references |
| Phases.SmallInner | rtbuild/qbvh6_builder_sah.h:741-764 | The node-count bound (five nodes per six references, or per eight halves with mixed types) passes from the children to the parent |
| Subtrees.ProgressStep | rtbuild/qbvh6_builder_sah.h:831-841 | A task that rearranges only its own references and writes only fresh blocks disturbs no finished sibling |
| Subtrees.StoredFrame | rtbuild/qbvh6_builder_sah.h:822-841 | A finished subtree survives work on other records and other blocks |
| Subtrees.NeedCoversChildren | rtbuild/qbvh6_builder_sah.h:818-823 | The needs of the children and their nodes together stay within the need of the record |
| Subtrees.StoredNeed | rtbuild/qbvh6_builder_sah.h:165-172 | A finished subtree takes no more blocks than its record was budgeted |
| Depth.SpreadLimits | rtbuild/qbvh6_builder_sah.h:741-747 | Halving the largest of up to six children leaves each at most (n+1)/4, and one of them with exactly that many; fewer than six are all leaves |
| Depth.CapacitySpread | rtbuild/qbvh6_builder_sah.h:720-765 | n references fit below a depth iff every part of the split fits one level deeper: the recursive capacity is exact |
| Depth.CapacityClosed | rtbuild/qbvh6_builder_sah.h:720-725 | The capacity in closed form; it is at least leafSize * 4^(27-d) |
| Depth.CapacityMono | rtbuild/qbvh6_builder_sah.h:180-187 | Higher levels and larger leaves hold more |
| Children.InternalChildren | rtbuild/qbvh6_builder_sah.h:795-819 | Type splits, SAH splits and the sort leave disjoint records that tile the range: six of them, or only fat leaves; a single one only when it is the record itself at leaf size; within the depth bound children stay within it; they arise by type splits first and area splits after, and stand in ascending size |
| Children.SplitTypes | rtbuild/qbvh6_builder_sah.h:798-808 | Two to four records of known types, one level down, that tile the range; each step divides the first child of unknown type into the references of the type of its first one and the others |
| Children.FourTypes | rtbuild/qbvh6_builder_sah.h:802-807 | A record that is still mixed leaves fewer than three others: type splitting never fills the node |
| Children.SplitLargestArea | rtbuild/qbvh6_builder_sah.h:810-816 | Each step divides the first child of largest surface above the leaf size, by the heuristic with blocks of six (SahSplit.SplitChosen); it stops with six children or with leaves only, keeping levels and types |
| Children.FatLeafChildren | rtbuild/qbvh6_builder_sah.h:654-697 | At most six children with one to three references each that tile the leaf, however uneven the SAH splits are: each list fits the 2-bit size field; they are those of the heuristic for single references unless one would be larger, then those of halving |
| Children.SplitLargest | rtbuild/qbvh6_builder_sah.h:670-680 | More than six references are split into exactly six non-empty children; each step divides the first child of most references by the heuristic with blocks of one |
| Children.OnePerChild | rtbuild/qbvh6_builder_sah.h:658-666 | One child per reference, in order |
| Children.HalveLargest | rtbuild/qbvh6_builder_sah.h:741-747 | The children and their sizes are those of the pure halving functions, so its limits apply to the code |
| Children.SortChildren | rtbuild/qbvh6_builder_sah.h:818-819 | The children, in ascending order of the key, stay a tiling of the range |
| Splits.SAHSplit | rtbuild/qbvh6_builder_sah.h:582-602 | The record becomes two non-empty ones with the least boxes of their references; the split is the cheapest over all bin boundaries of its centroids, the first of them, and puts exactly the lower bins left; without extent the untouched range is halved |
| Splits.TypeSplit | rtbuild/qbvh6_builder_sah.h:604-623 | A mixed record loses all references of the type of its first one, which the right side then has none of; its new type is unknown only if it is really mixed |
| Splits.FallbackSplit | rtbuild/builders/heuristic_binning_array_aligned.h:49-64 | Two non-empty halves, the first and second part of the range, whose sizes are those of the pure halving step |
| Splits.SharedType | rtbuild/qbvh6_builder_sah.h:778-785 | A common type is found iff all references have it |
| Splits.RangeBounds | rtbuild/builders/heuristic_binning_array_aligned.h:55-63 | The box covers every reference of the range and is the least one that does |
| Splits.FindChildWithMostPrimitives | rtbuild/qbvh6_builder_sah.h:552-570 | The first of the largest children above the threshold, none iff all are leaves |
| Splits.FindChildWithLargestArea | rtbuild/qbvh6_builder_sah.h:529-549 | The first splittable child of largest half area, none iff all are leaves |
| Splits.FindChildWithNonEqualTypes | rtbuild/qbvh6_builder_sah.h:573-580 | The first child of unknown type, none iff all are known |
| Records.FamilySplit | rtbuild/qbvh6_builder_sah.h:625-636 | Cutting a record in two keeps the records disjoint and their union the whole range |
| Records.FamilyPermute | rtbuild/qbvh6_builder_sah.h:831-841 | Rearranging inside one record leaves the references of all others alone |
| Records.PartSmaller | rtbuild/qbvh6_builder_sah.h:811-816 | Each of two or more parts is strictly smaller |
| Records.FamilySize | rtbuild/qbvh6_builder_sah.h:670-684 | Parts of at most m references cannot be fewer than n/m, nor more than n |
| Records.LeafSize | rtbuild/qbvh6_builder_sah.h:180-187 | Leaves hold up to nine triangles or quads, and six of other or unknown type |
| LeafWriter.SetInternalNode | rtbuild/qbvh6_builder_sah.h:342-364 | The node reads back as exactly these children, each reference inside the dequantised box of its child, the grid of the node is that of the union of the child boxes, and the mask is the OR of all masks below |
| LeafWriter.CreateQuads | rtbuild/qbvh6_builder_sah.h:416-427 | A leaf list with one block per reference in which only the last is marked, refused if and only if a geometry ID is above 2^30 - 1; nothing else is written |
| LeafWriter.CreateQuadLists | rtbuild/qbvh6_builder_sah.h:438-443 | The lists of the children follow each other without gap or overlap, unless one of them is refused |
| LeafWriter.FatStored | rtbuild/qbvh6_builder_sah.h:429-446 | A node over leaf lists that hold the references of a record is a stored subtree |
| LeafWriter.WriteFatQuadLeaf | rtbuild/qbvh6_builder_sah.h:429-446 | The leaf stores exactly the references of the record and uses one block for each, and is refused if and only if one of them has a geometry ID that is too large |
| Procedurals.ProceduralLeafBuilder.constructor | rtbuild/qbvh6_builder_sah.h:257-269 | Starts with one empty block of the allocated ones |
| Procedurals.ProceduralLeafBuilder.AddProcedural | rtbuild/qbvh6_builder_sah.h:271-290 | A new block is begun exactly when the 29-bit geometry index changes; the returned advance and slot name the place the reference was stored, earlier ones stay, and the block budget never runs out |
| Procedurals.CountGeometries | rtbuild/qbvh6_builder_sah.h:456-464 | The number of blocks allocated is the number the builder of the leaves will use; refused if and only if a geometry ID is too large |
| Procedurals.FillBlocks | rtbuild/qbvh6_builder_sah.h:471-482 | After the loop every reference stands at its block and slot, marked last |
| Procedurals.WriteProcedurals | rtbuild/qbvh6_builder_sah.h:448-493 | Although each child is given the block advance of the next one, following it reaches its own reference; the leaf stores exactly the record and uses all its blocks |
| Instances.FillInstances | rtbuild/qbvh6_builder_sah.h:510-524 | Each instance takes two blocks with its geometry, root offset and mask |
| Instances.WriteInstances | rtbuild/qbvh6_builder_sah.h:496-527 | The leaf stores exactly the instances of the record, two blocks each |
| Bvh.VisitNode | rtbuild/qbvh6.cpp:9-21 | Reading any block image of a tree visits the references below the node exactly once, in child order, and terminates |
| Bvh.VisitList | rtbuild/qbvh6.cpp:31-108 | A leaf list read until its last mark gives all of the child's references and no more, with the right leaf type |
| Bvh.VisitChild | rtbuild/qbvh6.cpp:14-20 | A decoded child reference leads to exactly what is below that child |
| Bvh.EncodesFrame | rtbuild/qnode.h:340-379 | Writes outside a tree's blocks do not change what it decodes to |
| Bvh.WithinMono | rtbuild/qbvh6_builder_sah.h:822-823 | A tree inside a stretch of memory is inside every larger one |
| Bvh.MaskConcat | rtbuild/qbvh6_builder_sah.h:354-360 | Masks of parts combine by OR |
| Bvh.NoneTooLarge | rtbuild/leaf.h:92-100 | Whatever tree a memory image encodes, no triangle, quad or procedural in it has a geometry ID above 2^30 - 1 |
| Bvh.ProceduralExact | rtbuild/leaf.h:707-719 | In a scene of at most 2^29 geometries the block of a procedural names its geometry and carries its mask |
| Procedurals.OwnMasksIff | rtbuild/leaf.h:102-111 | Blocks carry the mask of each of their geometries, whatever the references, if and only if all geometries whose IDs agree modulo 2^29 and are admitted have the same mask |
| PrimLeafDesc.SharedMask | rtbuild/leaf.h:102-111 | Because headers are compared by index, a header made for one geometry serves the other one of the same index |
| NodeWriter.MakeNode | rtbuild/qbvh6_builder_sah.h:348-361 | A node written child by child reads back, wherever it is stored: exactly the set children are valid, offsets, types and start slots are those meant, boxes contain the references |
| NodeWriter.StoredChildTight | rtbuild/qnode.h:211-264 | In every stored node the box read for a child holds the box of the references below it and exceeds it by the widening and one grid step at most, and the step is less than 2/255 of the extent of the node unless the exponent is the least one |
| NodeWriter.NodeOfReads | rtbuild/qbvh6_builder_sah.h:348-361 | The value of the node that is written: for every memory that holds it at the address, it reads back as exactly the described children |
| NodeWriter.OffsetsRead | rtbuild/qnode.h:340-348 | Summing the 2-bit sizes of earlier children gives the offset of a child, although the last size is not stored |
| NodeWriter.Int32Exact | rtbuild/qnode.h:279-285 | A distance survives the 32-bit field if and only if it is at least -2^31 and below 2^31; others change by a multiple of 2^32 |
| QNode.SetChildReads | rtbuild/qnode.h:288-338 | A set child reads as valid with its type and slot, its dequantised box contains the box it was given and exceeds it by the widening and one grid step at most, and the others are untouched |
| QNode.AxisContains | rtbuild/qnode.h:217-264 | In each dimension quantised bounds lie in 0..255 and enclose the range that was quantised, for every range inside the node's, with less than one grid step to spare on either side |
| QNode.QuantizeConservative | rtbuild/qnode.h:217-240 | Inside the grid rounding needs no clamping, never cuts into the box and moves a face by less than a step |
| QNode.GridFits | rtbuild/qnode.h:411-434 | A box as wide as the node needs no more than 255 steps of the grid its exponent defines |
| QNode.GridExpLeast | rtbuild/qnode.h:424-431 | An exponent from 0 on is reached or exceeded by that of the code exactly when a box of the width fits its grid: the code takes the least one, so it is at most 127 if and only if the widened width is at most 255 steps of 2^119 |
| QNode.ExponentsFit | rtbuild/qnode.h:432-437 | A box of valid coordinates, those below FLT_LARGE, has exponents from -128 to 62, which eight signed bits hold |
| QNode.ConservativeMono | rtbuild/qnode.h:211-214 | The enlarged box of a child lies inside the enlarged box of its parent |
| QNode.ConservativeProper | rtbuild/qnode.h:211-214 | Enlarging keeps a box non-empty and contains it |
| QNode.WideningIs | rtbuild/qnode.h:211-214 | Every face moves outward by 2^-23 of the largest coordinate magnitude of the box |
| QNode.NodeIsFine | rtbuild/qnode.h:411-434 | The grid step of a node is less than 2/255 of its widened extent in each dimension, unless the exponent is the least one or there is no extent |
| QNode.NewNodeOnGrid | rtbuild/qnode.h:189-208 | A fresh node has a grid for its box and no valid child |
| QNode.Frexp | rtbuild/qnode.h:424-426 | Mantissa in [0.5,1) and exponent with the product the argument, for all non-negative numbers |
| Allocator.EveryRunIsSafe | rtbuild/qbvh6_builder_sah.h:56-66 | While the last 64-byte boundary below the end and one request per thread stay below 2^64: in every interleaving the granted blocks are disjoint, aligned and inside the buffer, and a refusal is final |
| Allocator.BoundedOvershoot | rtbuild/qbvh6_builder_sah.h:52-54 | The counter passes the last boundary by at most one request per thread |
| Allocator.WrapBreaks | rtbuild/qbvh6_builder_sah.h:60-65 | Whenever that sum reaches 2^64 there is a run, built for any end, thread count and request size, in which the counter wraps and a block outside the buffer is granted |
| Allocator.SafeIff | rtbuild/qbvh6_builder_sah.h:56-66 | All runs are safe if and only if 64*((end-1)/64) + threads*64*(maxBytes/64) < 2^64 |
| Allocator.BuilderSafe | rtbuild/qbvh6_builder_sah.h:56-66 | The same for the requests of the builder, of at most 768 bytes: every buffer is safe that ends 768 bytes per thread below 2^64, and one that ends within 768 bytes of it is not even for one thread |
| Allocator.NoPadding | rtbuild/qbvh6_builder_sah.h:60-60 | At multiples of 64 no padding is added |
| Allocator.PaddingIs | rtbuild/qbvh6_builder_sah.h:60-60 | The padding is the least one that leads to an aligned address |
| Allocator.StepInv | rtbuild/qbvh6_builder_sah.h:56-66 | Each atomic step of each thread keeps the invariant |
| Partition.SerialPartitioning | rtbuild/algorithms/parallel_partition.h:13-49 | The range becomes a rearrangement with all left elements before the returned index and none after, and the reductions are folds over the two sides |
| Partition.FindStartRange | rtbuild/algorithms/parallel_partition.h:87-97 | The range and rest found denote the same element as the flat index |
| Partition.SwapItemsInMisplacedRanges | rtbuild/algorithms/parallel_partition.h:99-143 | A task exchanges exactly the pairs with its numbers |
| Partition.AnySchedule | rtbuild/algorithms/parallel_partition.h:206-211 | Any two orders of exchanging the pairs end in the same array |
| Partition.InOrderAfter | rtbuild/algorithms/parallel_partition.h:206-211 | Exchanges done in any order amount to swapping each pair once |
| ParallelPartition.ParallelPartitioning | rtbuild/algorithms/parallel_partition.h:218-239 | For every size, block size and thread count: a rearrangement, split at the returned index by the predicate, reductions equal to folds over the two sides |
| ParallelPartition.Partitioning | rtbuild/algorithms/parallel_partition.h:145-214 | The same for every number of tasks and every schedule |
| ParallelPartition.Layout.SameCount | rtbuild/algorithms/parallel_partition.h:200-200 | As many elements are misplaced on the left as on the right |
| ParallelPartition.Layout.ArePairs | rtbuild/algorithms/parallel_partition.h:206-211 | The pairs to exchange are disjoint |
| ParallelPartition.ExchangedSplit | rtbuild/algorithms/parallel_partition.h:175-213 | Exchanging exactly the listed pairs partitions the whole range |
| ParallelPartition.CollectMisplaced | rtbuild/algorithms/parallel_partition.h:181-200 | The two range lists cover exactly the misplaced elements and have the same total length |
| ParallelPartition.PartitionSlices | rtbuild/algorithms/parallel_partition.h:148-158 | The tasks, in any order, each partition and reduce their own slice only |
| ParallelPartition.ExchangeMisplaced | rtbuild/algorithms/parallel_partition.h:206-211 | The exchange tasks, in any order, exchange every pair once |
| ParallelPartition.MergeReductions | rtbuild/algorithms/parallel_partition.h:163-166 | Merged slice reductions equal the reduction of all left and all right elements |
| ParallelPartition.ReductionsMatch | rtbuild/algorithms/parallel_partition.h:163-166 | Reductions taken before the exchange equal the folds over the final sides |
| RadixSort.ParallelRadixSort.Sort | rtbuild/algorithms/parallel_sort.h:275-292 | For every size, block size and thread count the data ends in src, sorted by the full key and a permutation |
| RadixSort.ParallelRadixSort.RadixSortTasks | rtbuild/algorithms/parallel_sort.h:403-424 | Four or eight passes sort by the full 32- or 64-bit key, stably, and end in src |
| RadixSort.ParallelRadixSort.RadixIteration | rtbuild/algorithms/parallel_sort.h:394-401 | A pass is the stable sort by one digit for every number of tasks and every schedule |
| RadixSort.ParallelRadixSort.TwoIterations | rtbuild/algorithms/parallel_sort.h:407-412 | Two passes return to src, sorted by two more digits, keeping the order of equal keys |
| RadixSort.CountDigits | rtbuild/algorithms/parallel_sort.h:302-330 | Each task's counters are the bucket sizes of its slice |
| RadixSort.StartOffsets | rtbuild/algorithms/parallel_sort.h:343-377 | A task starts writing a bucket after all smaller buckets and after the earlier tasks' share of it |
| RadixSort.MoveItems | rtbuild/algorithms/parallel_sort.h:379-391 | A task writes exactly the final places of its own elements and nothing another task wrote |
| RadixSort.PositionOrder | rtbuild/algorithms/parallel_sort.h:379-391 | Places are ordered by digit and then by old place: no two elements share one |
| RadixSort.PositionOnto | rtbuild/algorithms/parallel_sort.h:379-391 | Every place is some element's: the writes tile the destination |
| RadixSort.WrittenAll | rtbuild/algorithms/parallel_sort.h:399-400 | Once all elements are written the destination is the stable sort |
| RadixSort.PassSorts | rtbuild/algorithms/parallel_sort.h:394-401 | A stable pass on the next digit extends the order by the lower ones |
| RadixSort.PassKeepsOrder | rtbuild/algorithms/parallel_sort.h:394-401 | A pass keeps the order of elements with equal keys |
| RadixSort.StableSortPermutes | rtbuild/algorithms/parallel_sort.h:394-401 | A pass loses and duplicates nothing |
| MsdRadixSort.Sort | rtbuild/algorithms/parallel_sort.h:180-180 | Any array of 32-bit keys ends sorted and a permutation |
| MsdRadixSort.RadixSort32 | rtbuild/algorithms/parallel_sort.h:180-251 | A segment that agrees in the higher digits is sorted in place by the remaining ones |
| MsdRadixSort.ExchangeBuckets | rtbuild/algorithms/parallel_sort.h:214-230 | The cycle-following exchange terminates, permutes the segment and leaves every element in its bucket |
| MsdRadixSort.FollowCycle | rtbuild/algorithms/parallel_sort.h:220-228 | One cycle places at least one element for good and unfinishes no bucket |
| MsdRadixSort.CycleStep | rtbuild/algorithms/parallel_sort.h:225-225 | The bucket an element is sent to always has room |
| MsdRadixSort.JoinBuckets | rtbuild/algorithms/parallel_sort.h:233-250 | Sorted buckets in digit order are sorted together |
| MsdRadixSort.CountBuckets | rtbuild/algorithms/parallel_sort.h:195-196 | The counters are the bucket sizes |
| MsdRadixSort.PrefixSums | rtbuild/algorithms/parallel_sort.h:198-212 | Heads and tails tile the segment |
| MsdRadixSort.SortBucket | rtbuild/algorithms/parallel_sort.h:241-244 | A bucket is sorted by either method, the cutoff notwithstanding |
| InsertionSort.InsertionSortAscending | rtbuild/algorithms/parallel_sort.h:13-26 | The range is sorted and a rearrangement, the rest untouched |
| InsertionSort.ShiftLarger | rtbuild/algorithms/parallel_sort.h:19-23 | Opens a gap at the place of the element among the sorted ones |
| PrefixSum.ParallelPrefixSum | rtbuild/algorithms/parallel_prefix_sum.h:47-84 | For every length and thread count slot i receives the sum of the first i values, the total is returned, and nothing else changes |
| PrefixSum.SumTasks | rtbuild/algorithms/parallel_prefix_sum.h:61-81 | Both runs of the tasks, each in any order, give the serial result |
| PrefixSum.WriteTasks | rtbuild/algorithms/parallel_prefix_sum.h:72-81 | Tasks that start from the sums of the first run write every prefix sum once |
| PrefixSum.CountTasks | rtbuild/algorithms/parallel_prefix_sum.h:63-69 | The first run finds the total of every slice and writes no prefix |
| NestedTasks.ForForState.Init | rtbuild/algorithms/parallel_for_for.h:41-73 | For any array sizes the start of each task is the array and place of its first element in the nested order, and no array beyond the last is asked for |
| NestedTasks.ForForState.SetStart | rtbuild/algorithms/parallel_for_for.h:66-69 | Recording one more start keeps the earlier ones |
| PrimGen.Generator.Generate | rtbuild/qbvh6_builder_sah.h:1064-1105 | Pairing all meshes by tasks and then writing: after the conditional second run the first n slots are exactly the references that the final pairing gives rise to, in geometry order, for any sizes and task count, also when the totals agree and the run is skipped; every task's stretch of every mesh is completely paired |
| PrimGen.Generator.CountRun | rtbuild/algorithms/parallel_for_for_prefix_sum.h:28-64 | The counting tasks, in any order, pair their stretches of all meshes and leave the start slot of each task for the final pairing |
| PrimGen.Generator.WriteRun | rtbuild/algorithms/parallel_for_for_prefix_sum.h:67-103 | The writing tasks, in any order, fill disjoint slot intervals and leave the true starts for the next run |
| PrimGen.Generator.CountTask | rtbuild/algorithms/parallel_for_for_prefix_sum.h:37-51 | A task visits exactly its stretch of the nested arrays, once and in order; it completes the pairing there, changes no entry elsewhere and returns the number of candidates |
| PrimGen.TaskKept | rtbuild/qbvh6_builder_sah.h:1064-1074 | Pairing by another task changes neither the pairing nor the count of a finished task, although stretches of several tasks may share one mesh |
| PrimGen.TriangleInArray | rtbuild/qbvh6_builder_sah.h:871-900 | Wherever the tasks' stretches begin: a valid triangle is stored by some reference of the generated array if and only if its partner in the pairing is valid, too |
| MeshPairing.MatchedKept | rtbuild/quadifier.h:129-150 | Pairings of disjoint stretches compose: work on other stretches keeps what is paired |
| MeshPairing.MatchedStep | rtbuild/qbvh6_builder_sah.h:1068-1072 | Pairing the next stretch of one mesh extends what a task has paired |
| Quadifier.MatchingFrame | rtbuild/quadifier.h:129-150 | A complete pairing of a range depends on no entry outside it |
| PrimGen.Generator.WriteTask | rtbuild/algorithms/parallel_for_for_prefix_sum.h:76-90 | A task writes the kept references of its stretch without gaps, and nothing else |
| PrimGen.WriteRange | rtbuild/qbvh6_builder_sah.h:871-900 | Kept references of a stretch are appended in order |
| PrimGen.Dense | rtbuild/qbvh6_builder_sah.h:1090-1105 | When every task starts at the true sum, the slots form one gapless array |
| PrimGen.SameTotals | rtbuild/qbvh6_builder_sah.h:1092-1095 | Equal totals mean that no task dropped anything, which is why the second run may be skipped |
| MeshPairing.RepresentedIff | rtbuild/qbvh6_builder_sah.h:884-893 | A valid triangle gets a reference if and only if its partner in the pairing is valid, too |
| MeshPairing.ValidTriangleDropped | rtbuild/qbvh6_builder_sah.h:884-893 | The pairing of two concrete triangles over one edge pairs them; when only the first is valid, it is lost |
| Quadifier.PairTriangleRange | rtbuild/quadifier.h:129-150 | The pairing is a complete matching of the range, greedy in a window of 31, the returned number is that of the entries that are not followers, and no entry outside the range changes |
| Quadifier.MergeTriangleWindow | rtbuild/quadifier.h:91-126 | Taking the front of the window keeps everything decided so far, stores one more entry and changes none outside the range |
| Quadifier.FindPartner | rtbuild/quadifier.h:98-122 | The first triangle of the window that shares all but one corner at distance at most 31, none iff there is none |
| Quadifier.PairTriangles | rtbuild/quadifier.h:78-88 | Accepts iff all corners but one of the second triangle are corners of the first |
| Quadifier.LocalIndex | rtbuild/quadifier.h:80-86 | Index 3 exactly for a corner that the first triangle does not have |
| Quadifier.FollowerHasOneLeader | rtbuild/quadifier.h:19-25 | Every follower has exactly one leader, in the same range, at distance 1 to 31, that it fits |
| Quadifier.PairingIsMaximal | rtbuild/quadifier.h:98-125 | No two single triangles in reach of each other would fit |
| Quadifier.PairingIsUnique | rtbuild/quadifier.h:129-150 | These conditions determine the pairing completely |
| Quadifier.StaticDeque.Contents | rtbuild/quadifier.h:70-75 | The ring buffer is a sequence of at most 32 elements, read modulo 32 |
| Quadifier.StaticDeque.PopFront | rtbuild/quadifier.h:30-33 | Returns and drops the first element |
| Quadifier.StaticDeque.PushBack | rtbuild/quadifier.h:35-38 | Appends one element |
| Quadifier.StaticDeque.Erase | rtbuild/quadifier.h:49-68 | Removes exactly the element at the position, whichever side is moved |
| Quadifier.StaticDeque.CloseFromFront | rtbuild/quadifier.h:57-61 | Moving the front part closes the gap |
| Quadifier.StaticDeque.CloseFromEnd | rtbuild/quadifier.h:63-67 | Moving the back part closes the gap |
| QuadLeaf.PairRoundTrip | rtbuild/qbvh6_builder_sah.h:372-399 | Decoding the leaf of an accepted pair gives both triangles' IDs and corners if and only if the geometry ID is below 2^29 and the second triangle is not three copies of the first corner; the constructor refuses only IDs from 2^30 on |
| QuadLeaf.SingleRoundTrip | rtbuild/leaf.h:170-225 | A single triangle decodes as one triangle with its ID and corners |
| QuadLeaf.QuadRoundTrip | rtbuild/qbvh6_builder_sah.h:408-413 | A quad decodes as the two triangles of its diagonal |
| Binning.BestBlockSize | rtbuild/builders/heuristic_binning.h:394-448 | The two sweeps return the first minimum of the cost over all positions of all dimensions of extent, none iff no position has both sides occupied |
| Binning.SweepLeft | rtbuild/builders/heuristic_binning.h:409-428 | The first position of least cost in one dimension, against the costs computed from scratch |
| Binning.SweepRight | rtbuild/builders/heuristic_binning.h:396-408 | Every suffix of the bins has its box and count |
| Binning.SplitExists | rtbuild/builders/heuristic_binning.h:434-447 | A split is found if and only if the centroids extend by more than 1e-34 in some dimension |
| Binning.CentroidBoxOf | rtbuild/builders/heuristic_binning.h:44-51 | The smallest box of all centroids: every side is touched by one |
| Binning.BinParallel | rtbuild/builders/heuristic_binning.h:527-537 | Binning halves in parallel and merging equals binning serially, for any tiling |
| Binning.BinInfo.BinRange | rtbuild/builders/heuristic_binning.h:208-255 | Two at a time with a last odd one: every reference is added once in each dimension |
| Binning.BinInfo.Add | rtbuild/builders/heuristic_binning.h:223-230 | A reference is added to its bin in each dimension |
| Binning.BinInfo.MergeWith | rtbuild/builders/heuristic_binning.h:310-320 | Merged bins are the bins of both ranges |
| Binning.BinInRange | rtbuild/builders/heuristic_binning.h:44-66 | Bins are within range without clamping; the lowest centroid is in bin 0 and the highest at least in bin 3 |
| Binning.BinCount | rtbuild/builders/heuristic_binning.h:47-47 | Between 4 and 32 bins |
| Binning.BinCountIs | rtbuild/builders/heuristic_binning.h:47-47 | There are m of them, up to 32, from 20(m-4) references on |
| Binning.BinIs | rtbuild/builders/heuristic_binning.h:44-66 | The bins are even: the bin of a centroid is the whole part of its distance from the lowest one, measured in hundredths of the extent over 99 times the number of bins |
| Binning.CenterIsMiddle | rtbuild/math/bbox.h:53-53 | The centroid is equally far from both faces in each dimension |
| Binning.CostSides | rtbuild/builders/heuristic_binning.h:422-427 | A position has finite cost iff both sides hold references |
| Binning.TallyPermutation | rtbuild/builders/heuristic_binning.h:208-255 | Bins do not depend on the order of the references |
| SahSplit.SahIsSides | rtbuild/builders/heuristic_binning.h:420-430 | The cost that the sweeps compare is the sum over both sides: each block of references on a side counts half the surface of that side's box once |
| SahSplit.BlocksStep | rtbuild/builders/heuristic_binning.h:420-424 | A block more on a side is blockSize references more; one to blockSize references are one block |
| Geometry.HalfOfFaces | rtbuild/math/bbox.h:125-126 | That half surface is half the sum of the six faces |
| SahSplit.TallyIs | rtbuild/builders/heuristic_binning.h:396-428 | What the bins hold from one boundary to another is the least box and the number of the references there |
| SahSplit.CostIs | rtbuild/builders/heuristic_binning.h:403-430 | The cost of a bin boundary from scratch, the least boxes and the numbers of the references on both sides; it is finite iff neither side is empty |
| SahSplit.OptimalIs | rtbuild/builders/heuristic_binning.h:394-448 | The split found costs no more than any other bin boundary, and less than every earlier one |
| SahSplit.FindAndSplit | rtbuild/builders/heuristic_binning_array_aligned.h:122-175 | The references end rearranged with exactly those of the lower bins left of the cut, at the boundary where both sides cost least, neither side empty; none iff the centroids have no extent, and then nothing moves |
| SahSplit.SplitSizes | rtbuild/builders/heuristic_binning_array_aligned.h:158-172 | The partition's left size is the bin count, and both sides are non-empty |
| Hulls.GrowMerges | rtbuild/builders/heuristic_binning_array_aligned.h:165-169 | Boxes collected by tasks merge to the box of all, so the parallel partition may stand for the serial one |
| Hulls.HullCovers | rtbuild/builders/heuristic_binning_array_aligned.h:55-63 | The box of references holds each of them |
| Hulls.HullLeast | rtbuild/builders/heuristic_binning_array_aligned.h:55-63 | Every box that holds them all holds it |
| Hulls.HullPermutes | rtbuild/builders/heuristic_binning_array_aligned.h:165-169 | It does not depend on their order |
| Presplit.CreatePresplit | rtbuild/builders/primrefgen_presplit.h:287-393 | For any requested counts the result never exceeds the array and is the original multiset with each selected reference replaced by its parts; the selection is everything above one, or the largest suffix whose parts stay strictly below the budget |
| Presplit.Shrink | rtbuild/builders/primrefgen_presplit.h:337-345 | The loop stops at or above the old centre; what remains stays strictly below the budget although meeting it would be allowed, and one item more would reach it |
| Presplit.ChooseCenter | rtbuild/builders/primrefgen_presplit.h:311-351 | The centre moves exactly when the parts exceed the budget |
| Presplit.CountParts | rtbuild/builders/primrefgen_presplit.h:312-332 | Part counts are those the later pass will produce, packed without loss beside the requested count |
| Presplit.EmitParts | rtbuild/builders/primrefgen_presplit.h:357-379 | The emitting tasks, in any order, write disjoint slots and read references no other task has replaced |
| Presplit.PartsConserved | rtbuild/builders/primrefgen_presplit.h:357-381 | After emission the array is the kept references and all parts, as multisets |
| Presplit.ArrangeItems | rtbuild/builders/primrefgen_presplit.h:287-299 | The items are a permutation with all single ones first and the others ascending |
| Presplit.SortTail | rtbuild/builders/primrefgen_presplit.h:298-299 | Only the items to split are sorted |
| Presplit.RearrangedDistinct | rtbuild/builders/primrefgen_presplit.h:253-254 | However items are rearranged, each still names its own reference |
| Presplit.SplitPrimitive | rtbuild/builders/primrefgen_presplit.h:143-178 | Appends the parts of the reference and leaves earlier ones alone |
| Presplit.SubPrims | rtbuild/builders/primrefgen_presplit.h:143-178 | Between one and the requested number of parts |
| Clipping.TriangleCovered | rtbuild/builders/splitter.h:13-45 | Every point of a triangle inside the bounds lies in the box of each side of the plane it is on |
| Clipping.PairCovered | rtbuild/qbvh6_builder_sah.h:902-929 | The same for a triangle pair |
| Clipping.TrianglePartsCover | rtbuild/builders/primrefgen_presplit.h:143-178 | However deep a triangle or pair is split, at whatever planes, its parts still cover it |
| Clipping.SubPrimsCover | rtbuild/builders/primrefgen_presplit.h:143-178 | Any splitter that keeps a point in one of its halves keeps it in some part |
| Clipping.SplitQuad | rtbuild/qbvh6_builder_sah.h:931-937 | The halves are the boxes of all outline corners of a side and all crossings of the four edges, cut by the bounds of the reference |
| Clipping.QuadKeptIff | rtbuild/qbvh6_builder_sah.h:931-937 | A split keeps every point of the quad inside the bounds in one of the halves that are returned if, in each coordinate and on both sides, the crossing of the diagonal lies between the least and greatest same-side corners and edge crossings; and only if, for all bounds that contain the diagonal |
| Clipping.QuadKeptAlwaysIff | rtbuild/qbvh6_builder_sah.h:931-937 | It is kept for all bounds if and only if that condition on the corners holds |
| Clipping.HeldIsInside | rtbuild/qbvh6_builder_sah.h:931-937 | The condition on the corners says that the crossing of the diagonal lies in the box of the four edges |
| Clipping.QuadPartsCover | rtbuild/builders/primrefgen_presplit.h:143-178 | However deep a quad is split, its parts cover it when the condition holds at every split |
| Clipping.QuadPartsLose | rtbuild/builders/primrefgen_presplit.h:143-178 | When it fails at the first split, some point of the quad is in none of the parts, however many follow |
| Clipping.ConvexQuadHeld | rtbuild/qbvh6_builder_sah.h:931-937 | For a flat quad whose diagonals cross the condition holds at every plane |
| Clipping.ConvexQuadPartsCover | rtbuild/builders/primrefgen_presplit.h:143-178 | The parts of such a quad cover it at every depth and at whatever planes |
| Clipping.QuadCounterexample | rtbuild/qbvh6_builder_sah.h:931-937 | A quad with a reflex corner and a point of its diagonal, inside its own box, that is in neither half |
| Clipping.SplitPolygon | rtbuild/builders/splitter.h:13-45 | The loop's boxes are those of all side vertices and all edge crossings, cut by the bounds |
| Clipping.SplitTrianglePair | rtbuild/qbvh6_builder_sah.h:902-929 | Both halves are the unions of the two triangles' halves |
| ProperParts.PairPartsProper | rtbuild/builders/primrefgen_presplit.h:164-177 | The asserted non-emptiness holds at every depth: no part of a triangle or a pair is empty, at whatever planes through the boxes it is split; parts stay within the scene and keep their IDs |
| ProperParts.QuadPartsProper | rtbuild/builders/primrefgen_presplit.h:164-177 | The same for quads, flat or not |
| ProperParts.HalfMet | rtbuild/builders/splitter.h:13-45 | A box that the outline reaches, in the sense that beyond each face there is a point not beyond any other, has two non-empty halves at any plane through it, and both are reached again |
| ProperParts.PolygonTight | rtbuild/builders/splitter.h:13-45 | The box computed for a side is the smallest one around the part of the outline on that side |
| ProperParts.CutUnion | rtbuild/qbvh6_builder_sah.h:914-928 | Cutting the boxes of both triangles by the bounds and joining them is cutting the joined box |
| SceneSplit.SplitTriangles | rtbuild/builders/primrefgen_presplit.h:143-178 | With the planes of the scene's grid: the parts are those of the pure recursion over these planes, between one and the requested number, none of them empty, all within the scene, and together they hold what the reference holds of the triangles |
| SceneSplit.SplitQuads | rtbuild/builders/primrefgen_presplit.h:143-178 | The same for a quad; its parts hold what it holds of the quad when its diagonal is held at each of the planes the recursion uses |
| SceneSplit.SplitBounded | rtbuild/qbvh6_builder_sah.h:1117-1128 | Cutting and opening make between one and 32 parts of every reference, which pre-splitting asks for |
| SceneSplit.SplitReference | rtbuild/qbvh6_builder_sah.h:1117-1128 | The dispatch by type gives, for every generated reference, the parts that the scene's split stands for |
| SceneSplit.CutPair | rtbuild/qbvh6_builder_sah.h:902-929 | However deep it is cut, a triangle or pair is cut by its own corners, because its parts keep the IDs by which the corners are fetched |
| SceneSplit.CutQuad | rtbuild/qbvh6_builder_sah.h:931-937 | The same for quads |
| SceneSplit.GridPlanesInside | rtbuild/builders/primrefgen_presplit.h:68-72 | The planes of the grid pass through every reference of the scene, at any depth of cutting |
| SceneSplit.PartsProper | rtbuild/builders/primrefgen_presplit.h:166-168 | No part of a generated reference is empty, whatever its type, and all keep its geometry |
| SceneSplit.SplitExists | rtbuild/qbvh6_builder_sah.h:1117-1128 | Every scene whose instances have stored hierarchies can be split: a cut or a complete opening exists for each reference and request |
| Requests.RequestedParts | rtbuild/builders/primrefgen_presplit.h:244-285 | For each reference one part when it has no priority, otherwise its share of the free slots by priority, rounded up to a power of two from 2 to 32, and one part when the share is below one |
| Requests.ComputePriority | rtbuild/builders/primrefgen_presplit.h:113-132 | Nothing for a reference whose corner codes agree or whose primitive has no area; otherwise the fourth root of the free surface times 1.5 to the number of code bits |
| Requests.GainIs | rtbuild/builders/primrefgen_presplit.h:113-122 | What is weighted is the surface of the six faces that the primitive leaves free, none if it is larger; every code bit makes it half as much again |
| Requests.PriorityIs | rtbuild/builders/primrefgen_presplit.h:113-124 | The number of bits is that of the plane that would be chosen: three for each factor of two in its number, and its dimension |
| Requests.NoPlaneNoPriority | rtbuild/builders/primrefgen_presplit.h:250-262 | A reference with no grid plane well inside has no priority |
| Requests.ShareRatio | rtbuild/builders/primrefgen_presplit.h:274-276 | Shares are to each other as the priorities |
| Requests.SharesUseBudget | rtbuild/builders/primrefgen_presplit.h:264-276 | The shares add up to the free slots |
| Requests.PartsFor | rtbuild/builders/primrefgen_presplit.h:274-283 | One exactly for shares below one; above, the least power of two from 2 to 32 that is at least the share, and 32 when none is |
| Requests.AskedWithin | rtbuild/builders/primrefgen_presplit.h:244-285 | Whatever the priorities, at most twice as many parts are asked for as there are free slots |
| PresplitBuild.ComesFrom | rtbuild/builders/primrefgen_presplit.h:287-381 | Every reference left by pre-splitting is an initial one, or a part of one of which more than one part was asked for |
| PresplitBuild.GoesTo | rtbuild/builders/primrefgen_presplit.h:287-381 | Of every initial reference either itself or all of its parts are left |
| PresplitBuild.PresplitInput | rtbuild/qbvh6_builder_sah.h:1107-1145 | What pre-splitting leaves of the generated references of a scene is an admissible input of the build |
| PresplitBuild.PresplitKeeps | rtbuild/qbvh6_builder_sah.h:1107-1145 | What is left holds, in boxes of the same ID, every point that a generated reference holds of its triangles or of its quad (when the diagonal is held), the reference itself for a procedural, and for an instance every point of a box below it |
| PresplitBuild.PresplitReferences | rtbuild/builders/primrefgen_presplit.h:221-393 | With the requests that the code makes by priority and the selection it makes of them: the references left fit the array, are an admissible input of the build, descend from the generated ones and hold all they held |
| PresplitBuild.PresplitAndBuild | rtbuild/qbvh6_builder_sah.h:1107-1154 | From generated references to reading the hierarchy: parts are asked for by priority and those chosen are split, a finished build leaves the hierarchy that the decisions of the code make of the result, and what is read are the IDs of references that descend from the generated ones and hold all they held; with the advertised size a scene of one type has memory enough although references were split |
| Morton.InterleavePlaces | rtbuild/math/emath.h:274-294 | Bit k of coordinate d is bit 3k+d of the code, for all 10-bit coordinates |
| Morton.SpreadIsBit | rtbuild/math/emath.h:278-281 | The shift-and-mask chain moves bit k to bit 3k |
| Morton.SameCodes | rtbuild/builders/primrefgen_presplit.h:52-58 | Equal codes mean equal coordinates, also for the coordinate 1024 that rounding could give |
| Morton.SplitBetween | rtbuild/builders/primrefgen_presplit.h:60-66 | At the highest differing bit of the codes the chosen dimension satisfies lower < plane <= upper |
| Morton.TopBit | rtbuild/builders/primrefgen_presplit.h:61-63 | The bit found is set, and no higher one is |
| Morton.OrderByBit | rtbuild/builders/primrefgen_presplit.h:60-66 | Where two ordered words first differ, clearing the lower bits of the larger separates them |
| Morton.SplitPos | rtbuild/builders/primrefgen_presplit.h:39-76 | The plane computed is that of the highest bit in which the codes of the corners differ; it lies strictly inside the reference; no plane iff the reference's grid coordinates agree in all dimensions |
| SplitPlanes.PlaneIs | rtbuild/builders/primrefgen_presplit.h:39-76 | In world coordinates: of all planes at multiples of 1/1024 of the longest side of the scene that lie inside the reference with a fifth of a step to spare, the one whose number has the most factors of two, in the last such dimension; none iff there is no such plane |
| SplitPlanes.SceneIsHalved | rtbuild/builders/primrefgen_presplit.h:39-76 | A reference that fills a scene with extent is cut half the longest side above its lower corner |
| SplitPlanes.GridSpansScene | rtbuild/builders/primrefgen_presplit.h:31-37 | The grid starts at the lower corner of the scene; its extent is a side of the scene, and no side exceeds it |
| SplitPlanes.PlaceChosen | rtbuild/builders/primrefgen_presplit.h:52-72 | The highest differing code bit stands for that plane between the grid coordinates of the reference |
| SplitPlanes.CutsAreInside | rtbuild/builders/primrefgen_presplit.h:42-54 | A plane lies between the grid coordinates, rounded 0.2 inward, iff it lies inside the reference with a fifth of a step to spare |
| Morton.GridPlaneInside | rtbuild/builders/primrefgen_presplit.h:60-72 | For every reference in the box of the grid the plane of the highest differing code bit is strictly inside it, and there is none iff the coordinates agree |
| Morton.ComputeMC | rtbuild/builders/primrefgen_presplit.h:78-94 | The codes of the two corners differ if and only if the grid coordinates do in some dimension |
| Morton.Splittable | rtbuild/builders/primrefgen_presplit.h:250-262 | For every reference of the scene the grid of the scene serves, and the references that are given a priority are those with different grid coordinates |
| Morton.WordOrder | rtbuild/builders/primrefgen_presplit.h:46-54 | Machine words are ordered like the grid coordinates they stand for |
| Morton.WordRounds | rtbuild/builders/primrefgen_presplit.h:66-66 | Clearing the low bits rounds down to a multiple of a power of two |
| Morton.PlaneInside | rtbuild/builders/primrefgen_presplit.h:68-71 | A grid position between the coordinates is a plane strictly inside the box |
| OpenInstance.Open | rtbuild/qbvh6_builder_sah.h:982-1006 | Read from the stored hierarchy: every run is a sequence of openings of a subtree of largest positive priority, each from a cut to a cut (together all leaves, each once), and it ends only when there are enough, no room for six more, or nothing that can be opened; at most 32 subtrees, and at most four more than asked for |
| OpenInstance.OpenReference | rtbuild/qbvh6_builder_sah.h:949-1017 | The references made are those of the last cut of a complete run on the stored hierarchy, with priorities the half areas of the nodes' boxes: each has the transformed box of its node, the ID of the instance and the distance of the node from the root |
| OpeningBounds.RunSize | rtbuild/qbvh6_builder_sah.h:982-1006 | On every stored hierarchy every cut of every run has at least one and at most 32 subtrees, at most four more than asked for, all of them stored |
| OpeningBounds.CompleteRun | rtbuild/qbvh6_builder_sah.h:982-1006 | Every stored hierarchy has a complete run |
| OpeningBounds.SixAtOnce | rtbuild/qbvh6_builder_sah.h:982-1006 | On every stored hierarchy whose root has six children and positive priority, every complete run for two makes six |
| OpeningBounds.ChainEncoded | rtbuild/qbvh6_builder_sah.h:982-1006 | Hierarchies of any depth, one reference to a leaf list, are stored in a memory that is given |
| OpeningBounds.MoreThanWanted | rtbuild/qbvh6_builder_sah.h:982-1006 | For every number from 2 to 31 every complete run on such a hierarchy makes more, four more up to 28 and 32 above |
| OpeningBounds.NeverMoreIff | rtbuild/qbvh6_builder_sah.h:982-1006 | Over all stored hierarchies and complete runs: never more subtrees than asked for if and only if one or 32 are asked for |
| OpenedParts.OpenedProper | rtbuild/qbvh6_builder_sah.h:1008-1016 | One to 32 references, at most four more than asked for, none of them empty, all of the instance |
| OpenedParts.OpenedCover | rtbuild/qbvh6_builder_sah.h:1008-1016 | Every point of the box of every reference below the instance is, transformed, in the box of one of the references made |
| OpenedParts.LeafInBounds | rtbuild/qnode.h:444-452 | The box a stored node has of its valid children holds every reference below it |
| OpenedParts.BoundsTight | rtbuild/qnode.h:444-452 | The box of a node holds the least box of all that is below and exceeds it by the widening and one grid step at most |
| OpenedParts.BoundsLeast | rtbuild/qnode.h:444-452 | It is the least box around the boxes of the valid children |
| OpenedParts.NodeAreaIs | rtbuild/qbvh6_builder_sah.h:957-966 | The priority of a node is half the sum of the six faces of its box |
| Transforms.XfmContains | rtbuild/math/affinespace.h:106-118 | The box of the eight transformed corners holds every transformed point of the box, for all affine transforms |
| Transforms.XfmLeast | rtbuild/math/affinespace.h:106-118 | Every box that holds all transformed points of the box holds it |
| Transforms.XfmUnits | rtbuild/math/affinespace.h:102-102 | The origin goes to the translation, the unit vectors one column further |
| Transforms.XfmMix | rtbuild/math/affinespace.h:102-102 | Points between two points go to the points between their images |
| OpenInstance.CutOpened | rtbuild/qbvh6_builder_sah.h:997-1005 | Replacing a node by its children keeps the cut, makes progress and adds the number of its children less one |
| OpenInstance.PushChildren | rtbuild/qbvh6_builder_sah.h:999-1005 | Every child whose slot reads as valid in the node block joins the heap once, under its decoded address and with the priority of its kind |
| OpenInstance.NothingToOpen | rtbuild/qbvh6_builder_sah.h:995-996 | When an item of largest priority has none, the run is complete: no subtree can be opened |
| OpenInstance.PopHeap | rtbuild/qbvh6_builder_sah.h:991-993 | An item of largest priority is moved to the end, none is lost |
| Common.TaskSlices | rtbuild/algorithms/parallel_partition.h:149-150 | The slices of all tasks tile the range, for every size and task count |
| Common.TaskOf | rtbuild/algorithms/parallel_sort.h:307-308 | Every index belongs to the slice of some task |
| Common.FoldPermutation | rtbuild/algorithms/parallel_partition.h:163-166 | A commuting reduction depends only on the multiset of its elements |
| Geometry.ExtendCovers | rtbuild/qbvh6_builder_sah.h:348-350 | An extended box covers both parts |

## Left out

- Floating-point rounding, infinities and NaN; SIMD lanes are modelled one by one.
- Machine integer widths other than the allocator's 64-bit counter, the 32-bit child offset, the packed leaf and node fields and the 32-bit Morton words: counters and indices are unbounded.
- TBB: how many tasks a loop gets is a parameter, and their order is arbitrary.
- Builder.BuilderSAH.CreateChildrenParallel: child tasks run one after the other in any order, not interleaved instruction by instruction; Allocator covers interleaved allocation, and children share no other data.
- Builder.BuilderSAH.Malloc: runs without other threads in between; Allocator.EveryRunIsSafe is the concurrent statement.
- Builder.BuilderSAH.CreateInternalNode: says when a record is not too deep but, unlike CreateLargeLeaf, not exactly when it is, because that depends on the splits chosen.
- Build.Build: requires more than 192 bytes, which the code asserts for the header and the root.
- Build.WorstCaseSuffices: is about scenes of one type; with mixed types small mixed records need more nodes than the size estimate counts.
- Splits.SAHSplit: computes the box of the centroids from the range and the boxes of both sides after the partition; the code carries them along in the records.
- Children.SortChildren: children with equal keys may come in any order, as std::sort leaves them.
- RadixSort.ParallelRadixSort.Sort: insertion sort stands for the library sort of small arrays, which need not be stable.
- Binning.BinParallel: parallel_reduce halves the range at arbitrary points.
- Vertex positions in the leaf blocks of a whole build: QuadLeaf models the content of such a block, Bvh keeps only its IDs, mask and last mark.
- The transform, bounds and user ID in an instance leaf; two formats of the instance leaf that differ in layout only.
- PrimGen.Generator.Generate: tasks of the counting run that pair stretches of one mesh run one after the other in any order; they share no entry of the pairing.
- Asserts on the masks of geometries whose IDs agree modulo 2^29: release builds only are modelled.
- Presplit.CreatePresplit: holds for any requested numbers between 0 and 32; Requests.RequestedParts computes those of the code, with projected areas and the fourth root as parameters.
- PresplitBuild.PresplitAndBuild: starts from the generated references; that a generated reference has the box of its corners is required, since PrimGen takes the references of a primitive from callbacks. It requires that the split function gives the parts of the scene; SceneSplit.SplitReference computes them for each reference.
- Presplit.SortTail: the tail of the item array is copied to be sorted, while the code sorts it in place by pointer.
- OpenInstance.Open: an empty instanced hierarchy is excluded; the code would pop an empty heap there. That needs instance bounds from the caller that are not empty, because empty ones already drop the reference (rtbuild/rtbuild.cpp:181-185).
- Clipping.QuadKeptIff: for bounds that do not contain the whole diagonal, as in nested splits, the condition is sufficient; Clipping.QuadKeptAlwaysIff is the equivalence over all bounds.
- SceneSplit.SplitQuads: coverage is ensured when the diagonal is held at each plane used; Clipping.QuadPartsLose shows a lost point when it fails at the first one only.
- Build.DepthSuffices: 109226 is the bound that the halving of large leaves gives; no scene of 109227 references that is too deep is constructed.
- The header of the finished hierarchy, statistics and printing, the expected (not worst-case) size, and raising the size hint between retries.
- Spatial binning, quicksort variants and the unused shift-based SAH sweep: not called by this builder.
- The API entry points, the loader of the driver library and the ray tracing library in rttrace.
