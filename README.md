# Vulki core, modelled in Dafny

Vulki is a small Vulkan playground. This project models the parts of it
that carry real logic:

- **Uniform grid** (`UG`, `Packed_UG`): a cubic grid of `bin_count³`
  buckets over `[-size, size]³`.
  - `put` appends a particle id to every in-range bucket that the box
    `pos ± radius` touches.
  - `traverse` collects the distinct ids of the buckets a query box
    touches.
  - `pack` flattens the buckets into an `(offset, count)` table over one
    id array.
- **Particle simulation** (`Simulation_State`). `init` seeds two linked
  particles. `step`:
  - builds a grid over the current system size;
  - repels close particles and records links between very close pairs;
  - pulls linked particles towards the rest length;
  - divides uncompressed particles at random;
  - recomputes the system size.
- **Error helpers**: `get_mip_levels` scans 32 bits for the highest one set
  in `max(width, height)`. `ASSERT_PANIC` aborts the program when its
  condition fails. It is modelled as `ErrorHandling.AssertPanic`, whose
  precondition is the asserted condition.
- **Render graph bookkeeping** (`Graphics_Utils_State`):
  - the shader registry, which interns filenames as ids 1, 2, …;
  - the pipeline-state setters;
  - the pass table, which numbers passes from 1;
  - the per-frame pass loop of `run_loop`, which stamps each pass's number
    and then clears the state.
- **CPU path tracer** of the third test application:
  - the job deque (`push_front` to enqueue, `pop_back` to dequeue);
  - the accumulation image;
  - the reset, which seeds 16 jobs per pixel;
  - the bounded drain;
  - the cutting of a batch into work items;
  - the handling of hits and misses: a deposit into the image, or secondary
    rays enqueued.

Floats are modelled as reals. Operations that the code takes from elsewhere
become oracle parameters:

- distance (`glm::distance`);
- random draws;
- camera rays and bounce directions;
- sky light;
- the ray caster.

A queue is the sequence `jobQueue` read from the back of the deque (the next
job out) to its front. `Enqueue` appends, and `Dequeue` takes element 0.

The particle division loop reads the force of particle 0 for every particle
(see "## Findings"). The simulation's `Step` uses the corrected gate.
`ParticleSim.DivideAsWritten` keeps the gate as written.

Edge case in the grid, following the code: `ivec3` truncates toward zero.
So a point exactly on the upper face `+size`, with radius 0, maps to grid
coordinate `bin_count`. The bounds check then drops it, and it lands in no
bucket (`UniformGrid.UpperFaceDropped`). After `init`, particle 1 sits at
`z = cell_radius = system_size`. The first step's grid therefore does not
hold it.

## Model

| member | source | states |
|---|---|---|
| `Vec.MaxAbs` | include/particle_sim.hpp:347-349 | the result is at least the absolute value of each component and equals one of them |
| `ErrorHandling.GetMipLevels` | include/error_handling.hpp:49-58 | the 32-bit scan returns the bit length of `max(width, height)`: 0 exactly when both sides are 0, and never more than 32 |
| `ErrorHandling.MipLevelsSymmetric` | include/error_handling.hpp:50 | the level count does not depend on the order of width and height |
| `ErrorHandling.MipLevelsBracket` | include/error_handling.hpp:49-58 | for a non-empty image with r levels, `2^(r-1) <= max(w, h) < 2^r` |
| `ErrorHandling.MipLevelsMonotone` | include/error_handling.hpp:49-58 | a larger side never yields fewer levels |
| `ErrorHandling.BitLengthBounds` | include/error_handling.hpp:52-56 | the bit length r of v satisfies `v < 2^r`, and for positive v also `2^(r-1) <= v` |
| `ErrorHandling.LowBitsStep` | include/error_handling.hpp:52-56 | one loop step turns the bit length of the low i bits into that of the low i+1 bits, which is the loop invariant of the scan |
| `UniformGrid.CoordOfFlat` | include/particle_sim.hpp:74-75 | `ix + iy*n + iz*n²` of an in-range coordinate is a slot index below `n³` that decodes back to the coordinate |
| `UniformGrid.FlatOfCoord` | include/particle_sim.hpp:74-75 | every slot index below `n³` is the flat index of exactly one in-range coordinate |
| `UniformGrid.SlotIsCoord` | include/particle_sim.hpp:74-75 | a slot stands for a coordinate if and only if it is the coordinate's flat index |
| `UniformGrid.Inserted` | include/particle_sim.hpp:65-83 | putting an id appends it to every in-range bucket of the box and leaves every other bucket unchanged |
| `UniformGrid.PartialStep` | include/particle_sim.hpp:65-83 | one visit of the triple loop appends the id to the visited in-range slot, and an out-of-range coordinate changes nothing |
| `UniformGrid.CollectedStep` | include/particle_sim.hpp:148-162 | one visit of the query loop adds exactly the ids of the visited in-range slot |
| `UniformGrid.PartialCarryX` | include/particle_sim.hpp:65 | once x passes the box, the partial insertion is the complete one |
| `UniformGrid.CollectedCarryX` | include/particle_sim.hpp:145 | once x passes the box, the collected ids are all the ids in the box |
| `UniformGrid.NothingVisitedYet` | include/particle_sim.hpp:65-67 | before the loops run, nothing is inserted and nothing is collected |
| `UniformGrid.BucketsOf` | include/particle_sim.hpp:26-27 | a slot's bucket is empty exactly when its index is 0, which is the shared empty bin |
| `UniformGrid.AppendAllocated` | include/particle_sim.hpp:78-81 | appending to a slot that already has a bin extends that slot's bucket alone and keeps the tables consistent |
| `UniformGrid.AppendFresh` | include/particle_sim.hpp:77-81 | a slot without a bin gets a new bin at the end, holding just the id, and the tables stay consistent |
| `UniformGrid.EmitStep` | include/particle_sim.hpp:36-47 | emitting slot k records the offset and count of its bucket (or `0, 0` when it has none) and keeps the earlier slots readable |
| `UniformGrid.PackPrefixShape` | include/particle_sim.hpp:33-50 | after k slots the table has 2k entries and the id array holds the leading 0 plus every id of the first k buckets |
| `UniformGrid.PackPrefixAddresses` | include/particle_sim.hpp:33-50 | after k slots each of them addresses its own bucket, and the offsets of used slots increase |
| `UniformGrid.ReadsBack` | include/particle_sim.hpp:11-16 | a reader of the packed form recovers every bucket exactly |
| `UniformGrid.SetToSeq` | include/particle_sim.hpp:165-169 | the set is listed without repeats and with exactly its elements |
| `UniformGrid.TruncMonotone` | include/particle_sim.hpp:59-64 | truncation toward zero is monotone |
| `UniformGrid.BinCoordMonotone` | include/particle_sim.hpp:58-64 | a larger coordinate never maps to a smaller bin, so `min_ids <= max_ids` |
| `UniformGrid.BinCoordInRange` | include/particle_sim.hpp:58-64 | a coordinate in `[-size, size)` maps to a bin in `[0, bin_count)` |
| `UniformGrid.BinCoordUpperFace` | include/particle_sim.hpp:58-64 | the coordinate `+size` maps to bin `bin_count`, one past the last |
| `UniformGrid.UpperFaceDropped` | include/particle_sim.hpp:52-84 | a point on the `+x` face passes the panic check, yet a put with radius 0 changes no bucket |
| `UniformGrid.PutThenTraverse` | include/particle_sim.hpp:51-171 | a point strictly inside the grid that is put with radius 0 is found by any query with a nonnegative radius around the same point |
| `UniformGrid.InsertedIdsBelow` | include/particle_sim.hpp:207-211 | putting ids 0, 1, … in turn keeps every stored id below the next one |
| `UniformGrid.BoxIdsBelow` | include/particle_sim.hpp:148-162 | a query returns only ids that were stored |
| `UniformGrid.UG.Buckets` | include/particle_sim.hpp:26-27 | the bucket of each slot, empty exactly when its index is 0 |
| `UniformGrid.UG.constructor` | include/particle_sim.hpp:28-32 | one empty shared bin, and `bin_count³` slots that all point at it |
| `UniformGrid.UG.AppendToSlot` | include/particle_sim.hpp:76-81 | the slot's bucket gains the id at its end and every other bucket is unchanged |
| `UniformGrid.UG.Put` | include/particle_sim.hpp:51-84 | the buckets become `Inserted`, the id appended to every in-range bucket of the box `pos ± radius` |
| `UniformGrid.UG.Traverse` | include/particle_sim.hpp:132-171 | returns each id in the in-range buckets of the query box exactly once, and nothing else |
| `UniformGrid.UG.Pack` | include/particle_sim.hpp:33-50 | a well-formed packed grid whose ids start with 0, whose table addresses each slot's bucket, and from which every bucket reads back exactly |
| `ParticleSim.SumUpdate` | include/particle_sim.hpp:236-240 | moving one particle moves the position sum by the same displacement |
| `ParticleSim.CloseLinksMeaning` | include/particle_sim.hpp:217-245 | a pair `i < j` is linked by the repulsion pass if and only if j is among the grid neighbours of i and closer than `0.9 * rest_length` |
| `ParticleSim.RowPrefixStep` | include/particle_sim.hpp:222-231 | each neighbour j of i adds the link `(i, j)` exactly when `i < j` and the pair is close |
| `ParticleSim.RowPrefixComplete` | include/particle_sim.hpp:220-231 | after all neighbours the links found for i depend only on the neighbour set, not on the listing order |
| `ParticleSim.QueryIdsBelow` | include/particle_sim.hpp:220-225 | neighbour ids returned by the grid index existing particles |
| `ParticleSim.RepelFrom` | include/particle_sim.hpp:219-243 | repelling from particle i keeps the position sum, only raises force totals, and adds exactly the close links of i |
| `ParticleSim.Repel` | include/particle_sim.hpp:217-245 | the repulsion pass keeps the position sum, gives nonnegative forces, and adds exactly the close pairs to the links |
| `ParticleSim.Pull` | include/particle_sim.hpp:247-261 | a spring moves its two ends by opposite amounts (the sum is kept), raises both force totals and leaves other particles alone |
| `ParticleSim.Attract` | include/particle_sim.hpp:247-262 | the attraction pass keeps the position sum, never lowers a force total and leaves unlinked particles alone |
| `ParticleSim.BirthsParents` | include/particle_sim.hpp:264-271 | each birth has a distinct parent, in increasing order, whose force is below 20 |
| `ParticleSim.BirthsNear` | include/particle_sim.hpp:268 | each new particle lies within `1e-3` of its parent in every coordinate |
| `ParticleSim.BirthsDraws` | include/particle_sim.hpp:266-269 | the division pass makes one uniform draw per particle plus one cube draw per birth |
| `ParticleSim.OffsetWithin` | include/particle_sim.hpp:268 | a unit-cube offset scaled by `1e-3` moves the point at most `1e-3` per coordinate |
| `ParticleSim.FirstForceEverywhere` | include/particle_sim.hpp:265-267 | the force the as-written gate reads for every particle is the force of particle 0 |
| `ParticleSim.DivideAsWritten` | include/particle_sim.hpp:264-271 | the division pass as written: births gated on particle 0's force |
| `ParticleSim.Divide` | include/particle_sim.hpp:264-271 | the division pass with each particle gated on its own force |
| `ParticleSim.DivisionGateCounterexample` | include/particle_sim.hpp:267 | with forces `[0, 100]` and every draw 0, the as-written gate divides both particles, but the corrected gate divides only particle 0 |
| `ParticleSim.SystemSize` | include/particle_sim.hpp:345-352 | the new size bounds every particle's largest absolute coordinate plus the rest length, and is attained by one particle (the rest length alone when there are none) |
| `ParticleSim.BornNearParents` | include/particle_sim.hpp:264-271 | every new particle is near some old particle |
| `ParticleSim.NewLinksClose` | include/particle_sim.hpp:228-231 | every new link joins two existing particles `i < j` closer than `0.9 * rest_length` |
| `ParticleSim.BirthsCount` | include/particle_sim.hpp:264-271 | at most one birth per particle, with the draw counter advanced accordingly |
| `ParticleSim.BuildGrid` | include/particle_sim.hpp:204-212 | a grid of `floor(2 * system_size / rest_length)` bins per side over `system_size`, whose buckets are `GridOf`: every particle put with radius 0 under its index, in order |
| `ParticleSim.GridBins` | include/particle_sim.hpp:204 | the bins per axis; at least 2 whenever the rest length is at most the system size |
| `ParticleSim.GridOfIdsBelow` | include/particle_sim.hpp:207-211 | the grid of the first k particles holds only their indices |
| `ParticleSim.GridOfHolds` | include/particle_sim.hpp:207-211 | the grid of the first k particles holds each of them that lies strictly inside it, so a query around its own position finds it |
| `ParticleSim.GridLinks` | include/particle_sim.hpp:204-245 | on the grid `BuildGrid` makes, the repulsion pass links exactly the step's close pairs `ClosePairs` |
| `ParticleSim.OwnNeighbour` | include/particle_sim.hpp:207-220 | every particle strictly inside the step's grid is among its own neighbours |
| `UniformGrid.InsertedKeepsIds` | include/particle_sim.hpp:51-84 | a put loses no id: everything a query found before, it still finds |
| `ParticleSim.SimulationState.constructor` | include/particle_sim.hpp:180-194 | the constants as given and an empty dynamic state |
| `ParticleSim.SimulationState.Init` | include/particle_sim.hpp:196-202 | two particles at `(0, 0, ±cell_radius)` linked as `(0, 1)`, with system size `cell_radius` |
| `ParticleSim.SimulationState.Step` | include/particle_sim.hpp:203-354 | the new links are exactly `ClosePairs`: every pair `i < j` of old particles where the step's grid reports j near i and the two are closer than `0.9 * rest_length`. The particle count at most doubles. Old particles keep their position sum. New particles lie near old ones. One draw is made per particle and per birth. The system size bounds all particles and is attained by one of them. |
| `RenderGraph.ShaderInsert` | src/render_graph.cpp:380-388 | registering an unseen filename under id `size + 1` keeps the two tables inverse to each other, with ids exactly `1..size` |
| `RenderGraph.ShaderIdsDistinct` | src/render_graph.cpp:380-388 | no shader has id 0, and distinct filenames have distinct ids |
| `RenderGraph.PassInsert` | src/render_graph.cpp:362-364 | appending a pass created under a new name, numbered `passes.size()`, keeps the name table consistent with the pass list |
| `RenderGraph.PassNamesDistinct` | src/render_graph.cpp:205-211 | no two passes were created under the same name (the pass's own `name` field stays empty in the program) |
| `RenderGraph.GraphicsUtilsState.constructor` | src/render_graph.cpp:188-199 | empty tables, and a zeroed pipeline state; the current compute shader is left unassigned, as `cur_cs` is never initialised |
| `RenderGraph.GraphicsUtilsState.SetOrCreateShader` | src/render_graph.cpp:380-388 | a known filename returns its id and changes nothing. An unseen one is registered under `size + 1`. Either way the id maps back to the filename. |
| `RenderGraph.GraphicsUtilsState.VSSetShader` | src/render_graph.cpp:389-392 | the vertex-shader slot holds the filename's registry id, and nothing else in the pipeline state changes |
| `RenderGraph.GraphicsUtilsState.PSSetShader` | src/render_graph.cpp:393-395 | the pixel-shader slot holds the filename's registry id, and nothing else changes |
| `RenderGraph.GraphicsUtilsState.CSSetShader` | src/render_graph.cpp:396-398 | the current compute shader is the filename's registry id, and the graphics state is unchanged |
| `RenderGraph.GraphicsUtilsState.IASetTopology` | src/render_graph.cpp:368-370 | only the topology field changes |
| `RenderGraph.GraphicsUtilsState.IASetCullMode` | src/render_graph.cpp:373-379 | only the four rasteriser fields change |
| `RenderGraph.GraphicsUtilsState.RSSetDepthStencilState` | src/render_graph.cpp:399-405 | only the four depth fields change |
| `RenderGraph.GraphicsUtilsState.CreateRenderPass` | src/render_graph.cpp:205-211 | an existing name returns its number and changes nothing. A new name appends the pass and returns the new pass count. Either way `passes[id - 1]` is the pass created under that name. |
| `RenderGraph.GraphicsUtilsState.PreTick` | src/render_graph.cpp:545-558 | the passes are visited in order and numbered 1, 2, …, each number matching the name table, and the state is zeroed afterwards |
| `RenderGraph.GraphicsUtilsState.PipelineLookupsDefined` | src/render_graph.cpp:131-135 | once the three `ASSERT_PANIC` checks pass, both shader lookups and `passes[pass - 1]` are defined |
| `PathTracing.PathTracingQueue.constructor` | tests/test_3.cpp:238-248 | an empty deque |
| `PathTracing.PathTracingQueue.Enqueue` | tests/test_3.cpp:245 | the job joins the front of the deque, so it is the last one out |
| `PathTracing.PathTracingQueue.Dequeue` | tests/test_3.cpp:240-244 | returns the job at the back and removes only it |
| `PathTracing.PathTracingQueue.Reset` | tests/test_3.cpp:247 | the deque becomes empty |
| `PathTracing.PixelIndexInjective` | tests/test_3.cpp:227-228 | `x + y * width` is below `width * height` and different pixels get different indices |
| `PathTracing.PathTracingImage.constructor` | tests/test_3.cpp:217-219 | an empty image |
| `PathTracing.PathTracingImage.Init` | tests/test_3.cpp:220-226 | a `width * height` image of zeros |
| `PathTracing.PathTracingImage.GetValue` | tests/test_3.cpp:228 | the value stored at pixel `(x, y)` |
| `PathTracing.PathTracingImage.AddValue` | tests/test_3.cpp:227 | pixel `(x, y)` gains the value, and every other pixel is unchanged |
| `PathTracing.Drain` | tests/test_3.cpp:298-312 | the batch is the first jobs out of the deque, in order, and the deque keeps the rest. Without a cap, or when there are fewer jobs than the cap, all jobs are taken. Otherwise `max - 1` jobs are taken, because the counter is raised before the cap test; this is modelled as written and not listed as a finding, since a cap of `max - 1` jobs per iteration is harmless and may be meant. The counter is positive exactly when the deque was not empty. |
| `PathTracing.WellFormedAppend` | tests/test_3.cpp:238-248 | a queue is well formed if and only if both of its parts are |
| `PathTracing.SeedJobDecodes` | tests/test_3.cpp:264-283 | the t-th seeded job is sample k of pixel `(j, i)`, where `t = (i * width + j) * 16 + k` |
| `PathTracing.SeedJobsOnImage` | tests/test_3.cpp:264-283 | every seeded job lies on the image |
| `PathTracing.ResetPathTracingState` | tests/test_3.cpp:259-285 | a zeroed image and `16 * width * height` seeded jobs, in row-major pixel order with 16 samples each, all on the image at depth 0 |
| `PathTracing.ItemStartsInside` | tests/test_3.cpp:318 | item k of `ceil(n / d)` items starts inside the batch |
| `PathTracing.ItemsConsecutive` | tests/test_3.cpp:318-343 | every work item is non-empty, holds at most `jobs_per_item` rays, and ends where the next one starts (the last at the batch end) |
| `PathTracing.ItemCovers` | tests/test_3.cpp:318-343 | ray t is covered by item `t / jobs_per_item` |
| `PathTracing.ItemUnique` | tests/test_3.cpp:318-343 | only that item covers it |
| `PathTracing.ItemsTile` | tests/test_3.cpp:318-343 | the work items tile the batch exactly |
| `PathTracing.MakeChunks` | tests/test_3.cpp:318-343 | `ceil(n / jobs_per_item)` work items that tile the batch |
| `PathTracing.CastBatch` | tests/test_3.cpp:345-349 | running every work item gives each ray the caster's answer for its own origin and direction |
| `PathTracing.SecondaryCountValues` | tests/test_3.cpp:381 | `4 / (1 << depth)` secondary rays: 4, 2 and 1 at depths 0, 1 and 2 |
| `PathTracing.SecondariesUpToAt` | tests/test_3.cpp:382-392 | the c-th secondary ray is built from draw `draw + c` |
| `PathTracing.SecondariesShape` | tests/test_3.cpp:382-392 | each secondary ray starts at the hit point, goes one level deeper on the same pixel, and carries `weight / N * 0.5` |
| `PathTracing.HandleStep` | tests/test_3.cpp:366-399 | handling result k applies its deposit to the image left by the first k results |
| `PathTracing.QueueStep` | tests/test_3.cpp:366-399 | handling result k appends its secondary rays after those of the first k, using the next bounce draws |
| `PathTracing.HandleResult` | tests/test_3.cpp:367-398 | a miss adds the weighted sky light to the pixel. A hit at depth 3 adds its weight to alpha. Any other hit enqueues its secondary rays. |
| `PathTracing.HandleNext` | tests/test_3.cpp:366-399 | one iteration of the result loop moves the image and queue from the first i results to the first i + 1 |
| `PathTracing.ProcessHits` | tests/test_3.cpp:366-399 | the image holds the deposits of all results in batch order, and the queue gains all spawned rays in order |
| `PathTracing.SpawnOfWellFormed` | tests/test_3.cpp:382-392 | secondary rays stay on their parent's pixel and never go deeper than 3 |
| `PathTracing.SpawnedWellFormed` | tests/test_3.cpp:366-399 | handling a batch keeps every queued job on the image and at most 3 deep |
| `PathTracing.DepositedElsewhere` | tests/test_3.cpp:366-399 | a pixel that no depositing result names keeps its value |
| `PathTracing.BatchSize` | tests/test_3.cpp:303-307 | a drain takes at most the queued jobs, fewer than the cap, and stops short of the queue only at `cap - 1` |
| `PathTracing.Casts` | tests/test_3.cpp:345-349 | the caster's answer for each batch entry, in batch order |
| `PathTracing.BatchWellFormed` | tests/test_3.cpp:298-312 | the drained prefix and the rest of a well-formed queue are well formed |
| `PathTracing.IteratedWellFormed` | tests/test_3.cpp:287-400 | one iteration keeps the queue well formed and the image size unchanged, and never moves the bounce draws back |
| `PathTracing.IteratedIdle` | tests/test_3.cpp:314 | an iteration with an empty queue changes nothing |
| `PathTracing.PathTracingIteration` | tests/test_3.cpp:296-400 | casts the first `BatchSize` jobs, deposits their results in batch order, and puts their secondary rays after the jobs left in the queue |

## Left out

- Floating point: floats are reals, so rounding, `NaN`, infinities and float
  overflow are not modelled. `FLT_MAX` is kept as the "no hit" constant.
- `glm::distance`, `normalize`, `cross` and the light formula are not
  modelled. Distance and sky light are oracle parameters. Secondary ray
  directions come from an oracle `bounce(n)` that stands for the random
  unit-sphere draw and the tangent-frame arithmetic.
- `Random_Factory` (not part of this model) is an oracle indexed by one
  draw counter. `uniform(0, 10) == 0` is a test on its n-th value.
- Camera rays and the Halton jitter are not modelled: the seeded job's
  direction is the oracle `rayDir(x, y, k)`.
- The ISPC ray caster and the loop over scene nodes are not modelled. Every
  ray's collision is the oracle `cast(origin, dir)`.
- The OpenMP parallel loop runs its work items one after the other. They
  write disjoint ranges (`ItemsTile`), so the order does not matter to the
  result.
- The non-ISPC CPU branch of the path tracer (`tests/test_3.cpp:401-480`)
  and the single-call path when `use_jobs` is false are not modelled.
- Vulkan objects, pipelines, framebuffers, `on_exec` callbacks, the
  `fn()` call in `run_loop`, and the GUI are outside the model.
- `dense_hash_map`/`dense_hash_set` are maps and sets. The render graph's
  reserved empty keys appear as preconditions: a shader or pass name is
  never `"null"`, and shader id 0 is never stored. The reserved keys of the
  grid query's id set (`UINT32_MAX`) and of the link set
  (`{UINT32_MAX, UINT32_MAX}`) are not modelled. They cannot be reached
  while the particle count stays below `2^32 - 1`, and the model does not
  bound the particle count.
- `Pass_Details::name` is never assigned by `create_render_pass`, so every
  pass of the program has an empty name. The model records, in
  `Pass.createdAs`, the name the pass was created under instead. Nothing in
  the program reads the field.
- 32-bit wrap-around is not modelled, except in `get_mip_levels`, whose
  inputs are `u32` values.
- `UG.Put`: the out-of-bounds `panic` is a precondition, because `panic`
  ends the program.
- The commented-out planarization and domain-forcing passes of `step`, the
  job's `media_material_id` and `color` fields (never read), and the gizmo
  are not modelled.
- `PathTracing.MakeChunks`: it requires `jobs_per_item > 0`. The GUI slider
  keeps the value between 100 and 10000.
- `PathTracing.PathTracingQueue.HasJob` is a predicate on the deque and has
  no contract of its own.
- `ParticleSim.Repel` and `ParticleSim.Attract`: the force formulas are
  computed in real arithmetic. The contracts state the conserved sum and
  the force bounds, not the forces' numerical values.
- `ParticleSim.SimulationState.Step` uses the corrected division gate
  (see "## Findings"). `ParticleSim.DivideAsWritten` models the gate as
  written.

## Findings

| source | as written | input that shows it | evidently intended | confidence | as-written member | corrected member |
|---|---|---|---|---|---|---|
| include/particle_sim.hpp:264-271 | the division loop never increments `i`, so every particle's gate reads `force_table[0]` | two particles with forces `[0, 100]` and a factory whose uniform draws are all 0: both divide, although particle 1 is compressed | each particle divides only when its own force is below 20 | not executed | `ParticleSim.DivideAsWritten` (`ParticleSim.DivisionGateCounterexample`) | `ParticleSim.Divide` (`ParticleSim.BirthsParents`) |
