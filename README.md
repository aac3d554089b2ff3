# Hypercube routing, component labelling and vector sum

This project models the per-rank logic of three MPI tasks and proves properties of it.

- **Hypercube topology** (`hypercube_route.dfy`, `hypercube.dfy`, on top of `bits.dfy`).
  - A message token travels from rank 0 to a destination rank. Each hop flips bits of the rank address from the lowest up, and takes a flip only when it brings the address closer to the destination.
  - The destination reflects the token to rank 0. Rank 0 then sends a termination copy, whose first path entry is -1, to every rank not on the path.
  - `calculate_path` is the expected route the tests compare against.
  - Rank addresses are natural numbers. `1 << i`, `^` and the bit tests are defined by recursion on binary digits, in module `Bits`.
  - The `uint16_t` casts are written out as `% 0x1_0000`. They are shown to be no-ops for fewer than 2^16 ranks.
  - `Simulate` runs the protocol sequentially, one rank at a time in message order. Only one token is live, so this order is the only possible one.
- **Component labelling** (`component_labeling.dfy`).
  - One row-major pass over a `rows x cols` byte image writes a label array in place. A foreground pixel takes the largest label among its inspected neighbours, or a fresh label from a counter that starts at 1 when they are all 0.
  - The inspected neighbours are up, left, right, down, (row-1, col-1) and (row+1, col+1).
  - The parallel task runs the same pass over one band of rows per rank. Its band bounds are `rows / P * rank` and the next multiple, and the last band runs to `rows`.
  - The `size_t` wrap of `row + dr` and `col + dc` is written out, as is the `resize(n, 0)` of the label array.
  - The label array is a Dafny `array` updated in place. Its specification is the fold `ScanTo` of one pixel step `Step`.
- **Vector sum** (`vector_sum.dfy`).
  - The sequential task sums `int32_t` elements into a 64-bit accumulator.
  - The parallel task splits the input into P chunks: `total / P` elements each, plus one for each of the first `total % P` ranks. The offsets are prefix sums, each rank sums its chunk, and the root adds the partial sums.
  - The collectives are modelled by what they deliver: broadcast, scatterv and reduce become the total size, the rank's chunk and the sum of the partial sums.

`task_data.dfy` holds the harness shapes that the three tasks share: `Byte`, `Int32` and the counts in `TaskData`.

The labelling pass in the sequential task bounds the four orthogonal neighbours by `n_row < rows`. The parallel task uses `start_row <= n_row < end_row`. Both are `Band` checks, with the sequential task working on the band `[0, rows)`. For a row of 0, `row - 1` wraps to 2^64 - 1 and fails both forms.

## Model

| member | source | states |
|---|---|---|
| HypercubeRoute.RouteEnds | tasks/mpi/milovankin_m_hypercube_topology/src/ops_mpi.cpp:102-115 | the expected path starts with 0 and ends with dest. For dest <= 0 the loop never runs and the path is exactly [0] |
| HypercubeRoute.RouteLength | tasks/mpi/milovankin_m_hypercube_topology/src/ops_mpi.cpp:106-111 | the path has popcount(dest) + 1 entries: one accepted flip per set bit |
| HypercubeRoute.RouteAdjacent | tasks/mpi/milovankin_m_hypercube_topology/src/ops_mpi.cpp:106-111 | consecutive path entries differ in exactly one bit, so they are hypercube neighbours |
| HypercubeRoute.RouteIncreasing | tasks/mpi/milovankin_m_hypercube_topology/src/ops_mpi.cpp:106-111 | path entries strictly increase and none exceeds dest |
| HypercubeRoute.RouteFits | tasks/mpi/milovankin_m_hypercube_topology/func_tests/main.cpp:20 | for dest < N the path fits the `floor(log2(N)) + 1` slots the tests allocate |
| HypercubeRoute.RouteExamples | tasks/mpi/milovankin_m_hypercube_topology/func_tests/main.cpp:58-77 | the expected paths for 1, 3, 4, 5, 7, 14 and 29 (and 0 and 2) are the ones the tests list |
| HypercubeRoute.PrefixesEnds | tasks/mpi/milovankin_m_hypercube_topology/src/ops_mpi.cpp:106-111 | after the first k loop iterations the path starts at 0, ends at the k low bits of dest, has popcount of those bits plus one entries, and no entry exceeds its last |
| HypercubeRoute.PrefixesIncreasing | tasks/mpi/milovankin_m_hypercube_topology/src/ops_mpi.cpp:106-111 | after any number of iterations the path strictly increases |
| HypercubeRoute.PrefixesAdjacent | tasks/mpi/milovankin_m_hypercube_topology/src/ops_mpi.cpp:106-111 | after any number of iterations consecutive entries are neighbours |
| HypercubeRoute.PrefixesStable | tasks/mpi/milovankin_m_hypercube_topology/src/ops_mpi.cpp:106 | once the low bits hold all of dest, further iterations append nothing |
| HypercubeRoute.RouteIsFullPrefixes | tasks/mpi/milovankin_m_hypercube_topology/src/ops_mpi.cpp:106 | the loop bound `i <= log2(dest)` covers every bit of dest: the route is the full prefix accumulation and its k low bits are dest |
| HypercubeRoute.NextHopFromSpec | tasks/mpi/milovankin_m_hypercube_topology/src/ops_mpi.cpp:42-50 | the hop search returns -1 exactly when r and dest agree on every searched bit. Otherwise it returns r with the first differing bit flipped |
| HypercubeRoute.NextHopSpec | tasks/mpi/milovankin_m_hypercube_topology/src/ops_mpi.cpp:42-50 | for r, dest < N the hop is -1 exactly when r == dest. Otherwise it is a neighbour of r and strictly closer to dest, `next ^ dest < r ^ dest` |
| HypercubeRoute.NextHopSkipsAgreeing | tasks/mpi/milovankin_m_hypercube_topology/src/ops_mpi.cpp:43-47 | the search passes over dimensions where r and dest agree |
| HypercubeRoute.AgreeBelowSizeEqual | tasks/mpi/milovankin_m_hypercube_topology/src/ops_mpi.cpp:43 | two ranks below N that agree on every bit i with 2^i < N are equal, so the bound `i < log2(N)` searches enough bits |
| HypercubeRoute.FlipAdjacent | tasks/mpi/milovankin_m_hypercube_topology/src/ops_mpi.cpp:44 | `r ^ (1 << i)` is a neighbour of r |
| HypercubeRoute.NextHopAlongRoute | tasks/mpi/milovankin_m_hypercube_topology/src/ops_mpi.cpp:42-50 | at a node of the expected path short of dest, the hop is the next entry of the expected path |
| HypercubeRoute.SetBitAdjacent | tasks/mpi/milovankin_m_hypercube_topology/src/ops_mpi.cpp:107-110 | taking in one more set bit of dest moves to a neighbour |
| HypercubeTopology.Hypercube.Validation | tasks/mpi/milovankin_m_hypercube_topology/src/ops_mpi.cpp:9-18 | on rank 0, true iff there are exactly 2 inputs, a non-empty output list and exactly 2 output counts. Every other rank passes |
| HypercubeTopology.Hypercube.PreProcessing | tasks/mpi/milovankin_m_hypercube_topology/src/ops_mpi.cpp:20-34 | rank 0 loads the first `inputs_count[0]` payload bytes and the destination and clears the path. Other ranks change nothing |
| HypercubeTopology.Hypercube.NextId | tasks/mpi/milovankin_m_hypercube_topology/src/ops_mpi.cpp:42-50 | the loop with its `uint16_t` cast and early return computes the hop rule `NextHop` |
| HypercubeTopology.FlipCandidate | tasks/mpi/milovankin_m_hypercube_topology/src/ops_mpi.cpp:43-45 | below 2^16 the cast keeps the flipped address, and the flip is closer exactly when r and dest differ at that bit |
| HypercubeTopology.Hypercube.SourceInject | tasks/mpi/milovankin_m_hypercube_topology/src/ops_mpi.cpp:53-56 | rank 0 appends 0 to the path and picks the first hop. It fails exactly when there is none |
| HypercubeTopology.Hypercube.Receive | tasks/mpi/milovankin_m_hypercube_topology/src/ops_mpi.cpp:68-81 | a termination copy makes the rank return true without appending or sending. Otherwise the rank appends exactly its own rank, keeps data and destination, and forwards to the next hop, or to 0 when it is the destination |
| HypercubeTopology.Hypercube.SourceComplete | tasks/mpi/milovankin_m_hypercube_topology/src/ops_mpi.cpp:57-66 | rank 0 notifies, in increasing order, exactly the ranks in [1, N) absent from the marked path, then restores path[0] to 0 so the path is the one received |
| HypercubeTopology.NoticeMembership | tasks/mpi/milovankin_m_hypercube_topology/src/ops_mpi.cpp:60-62 | on ranks 1 and up, membership in the -1-marked path is membership in the route |
| HypercubeTopology.Hypercube.PostProcessing | tasks/mpi/milovankin_m_hypercube_topology/src/ops_mpi.cpp:86-99 | rank 0 writes the payload and the path into the first slots of the two output buffers and leaves the remaining slots as they were. Other ranks write nothing |
| HypercubeTopology.CopyInto | tasks/mpi/milovankin_m_hypercube_topology/src/ops_mpi.cpp:92-95 | `std::copy` fills the first |src| slots with src and leaves the rest |
| HypercubeTopology.Hypercube.CalculatePath | tasks/mpi/milovankin_m_hypercube_topology/src/ops_mpi.cpp:102-115 | the loop with its float bound read as bit length and its `uint16_t` cast computes `Route(dest)` |
| HypercubeTopology.CalculatePathStep | tasks/mpi/milovankin_m_hypercube_topology/src/ops_mpi.cpp:106-111 | one iteration accepts the flip exactly when bit i of dest is set, and then extends the prefix by that bit |
| HypercubeTopology.FirstHop | tasks/mpi/milovankin_m_hypercube_topology/src/ops_mpi.cpp:53-56 | rank 0's first hop toward dest > 0 is the second entry of the route |
| HypercubeTopology.Relay | tasks/mpi/milovankin_m_hypercube_topology/src/ops_mpi.cpp:68-81 | forwarding from the first hop ends back at rank 0 with the path equal to `Route(dest)` and data and destination unchanged. No rank on the way fails |
| HypercubeTopology.Notify | tasks/mpi/milovankin_m_hypercube_topology/src/ops_mpi.cpp:70-71 | every notified rank's `run` returns true |
| HypercubeTopology.Simulate | tasks/mpi/milovankin_m_hypercube_topology/src/ops_mpi.cpp:36-84 | for 0 < dest < N, rank 0 succeeds with path `Route(dest)` and the payload unchanged, and exactly the off-path ranks in [1, N) are notified and return true. For dest == 0 rank 0 fails with path [0] and sends nothing. The path fits the test buffer |
| ComponentLabeling.Validation | tasks/mpi/milovankin_m_component_labeling/src/component_labeling.cpp:18-21 | true iff there is at least one input and one output |
| ComponentLabeling.Resize | tasks/mpi/milovankin_m_component_labeling/src/component_labeling.cpp:32 | resizing to n keeps the old labels that fit and fills new cells with 0 |
| ComponentLabeling.ResizeLabels | tasks/mpi/milovankin_m_component_labeling/src/component_labeling.cpp:32 | the resized label array holds `Resize(old labels, n)` |
| ComponentLabeling.Image | tasks/mpi/milovankin_m_component_labeling/src/component_labeling.cpp:29-31 | the image is the first rows * cols bytes of the buffer |
| ComponentLabeling.ComponentLabelingSeq.PreProcessing | tasks/mpi/milovankin_m_component_labeling/src/component_labeling.cpp:23-35 | rows and cols come from `inputs_count`, the image is the first rows*cols bytes, and the label array is resized to rows*cols |
| ComponentLabeling.ComponentLabelingSeq.Run | tasks/mpi/milovankin_m_component_labeling/src/component_labeling.cpp:37-83 | the labels after `run` are the pass over the band [0, rows) from the labels before it, with the counter starting at 1 |
| ComponentLabeling.ComponentLabelingPar.PreProcessing | tasks/mpi/milovankin_m_component_labeling/src/component_labeling.cpp:103-115 | the same loading and resizing as the sequential task |
| ComponentLabeling.ComponentLabelingPar.Run | tasks/mpi/milovankin_m_component_labeling/src/component_labeling.cpp:117-162 | the local labels after `run` are the pass over this rank's band only |
| ComponentLabeling.LabelImage | tasks/mpi/milovankin_m_component_labeling/src/component_labeling.cpp:23-83 | a fresh sequential task run through pre_processing and run yields the pass from all-zero labels over the whole image |
| ComponentLabeling.LabelImageBand | tasks/mpi/milovankin_m_component_labeling/src/component_labeling.cpp:103-162 | a fresh parallel task on one rank yields the pass from all-zero labels over its band |
| ComponentLabeling.FreshPass | tasks/mpi/milovankin_m_component_labeling/src/component_labeling.cpp:40-78 | from all-zero labels: background pixels keep label 0, and foreground pixels of the band get labels in [1, next). Every label in [1, next) is held by some pixel, cells outside the band keep 0, and next - 1 is at most the number of foreground pixels |
| ComponentLabeling.LabelBand | tasks/mpi/milovankin_m_component_labeling/src/component_labeling.cpp:129-162 | the nested row and column loops, in place on the array, leave labels and counter equal to the fold `ScanTo` over the band |
| ComponentLabeling.LabelPixel | tasks/mpi/milovankin_m_component_labeling/src/component_labeling.cpp:46-78 | one loop body in place on the array performs `Step`: background is skipped, a zero maximum takes the counter and advances it, and otherwise the pixel takes the maximum |
| ComponentLabeling.StepFacts | tasks/mpi/milovankin_m_component_labeling/src/component_labeling.cpp:46-78 | a step writes only the visited cell, leaves everything unchanged on background, and advances the counter exactly when it issues a fresh label |
| ComponentLabeling.NeighbourMax | tasks/mpi/milovankin_m_component_labeling/src/component_labeling.cpp:50-72 | the offset loop followed by the two diagonal checks yields the maximum over the inspected neighbours |
| ComponentLabeling.OffsetLoopMax | tasks/mpi/milovankin_m_component_labeling/src/component_labeling.cpp:53-62 | the 3x3 offset loop, with its skips and wrapped bounds checks, yields the maximum over the orthogonal neighbours that lie in the band |
| ComponentLabeling.OffsetStep | tasks/mpi/milovankin_m_component_labeling/src/component_labeling.cpp:55-60 | one iteration of the offset loop folds that offset's probe into the running maximum |
| ComponentLabeling.OffsetOrder | tasks/mpi/milovankin_m_component_labeling/src/component_labeling.cpp:53-54 | the loops over {-1, 0, 1} visit (dr, dc) as iteration 3(dr+1) + (dc+1) |
| ComponentLabeling.ProbeMaxOffsets | tasks/mpi/milovankin_m_component_labeling/src/component_labeling.cpp:53-55 | skipping the centre and the corners leaves the maximum of the up, left, right and down probes |
| ComponentLabeling.OffsetsOrthogonal | tasks/mpi/milovankin_m_component_labeling/src/component_labeling.cpp:53-62 | the offset loop's result is the maximum of the four orthogonal neighbours that lie in the band |
| ComponentLabeling.ProbeAt | tasks/mpi/milovankin_m_component_labeling/src/component_labeling.cpp:56-58 | an orthogonal probe reads the neighbour exactly when its row is in the band and its column in the grid. A wrapped -1 fails the checks |
| ComponentLabeling.ProbeUp | tasks/mpi/milovankin_m_component_labeling/src/component_labeling.cpp:56-59 | the (-1, 0) probe reads the up neighbour exactly when it is in the band |
| ComponentLabeling.ProbeLeft | tasks/mpi/milovankin_m_component_labeling/src/component_labeling.cpp:56-59 | the (0, -1) probe reads the left neighbour exactly when col > 0 |
| ComponentLabeling.ProbeRight | tasks/mpi/milovankin_m_component_labeling/src/component_labeling.cpp:56-59 | the (0, 1) probe reads the right neighbour exactly when col + 1 < cols |
| ComponentLabeling.ProbeDown | tasks/mpi/milovankin_m_component_labeling/src/component_labeling.cpp:56-59 | the (1, 0) probe reads the down neighbour exactly when it is in the band |
| ComponentLabeling.SizeTIsModulo | tasks/mpi/milovankin_m_component_labeling/src/component_labeling.cpp:56-57 | the explicit wrap of `row + dr` is arithmetic modulo 2^64 |
| ComponentLabeling.InspectedInGrid | tasks/mpi/milovankin_m_component_labeling/src/component_labeling.cpp:58-70 | every inspected neighbour is a cell of [0, rows*cols) |
| ComponentLabeling.AroundMaxIsUpperBound | tasks/mpi/milovankin_m_component_labeling/src/component_labeling.cpp:50-72 | `max_label` is at least the label of every inspected neighbour |
| ComponentLabeling.AroundMaxAttained | tasks/mpi/milovankin_m_component_labeling/src/component_labeling.cpp:50-72 | a non-zero `max_label` is the label of some inspected neighbour |
| ComponentLabeling.AroundMaxBelow | tasks/mpi/milovankin_m_component_labeling/src/component_labeling.cpp:50-72 | when every label is below a bound, so is `max_label` |
| ComponentLabeling.ScanKeepsUnvisited | tasks/mpi/milovankin_m_component_labeling/src/component_labeling.cpp:129-160 | the pass writes only cells it has visited, so cells outside the band keep their labels |
| ComponentLabeling.ScanKeepsBackground | tasks/mpi/milovankin_m_component_labeling/src/component_labeling.cpp:46-48 | background pixels keep their labels |
| ComponentLabeling.ScanLabelsForeground | tasks/mpi/milovankin_m_component_labeling/src/component_labeling.cpp:74-78 | with the counter starting at 1 or more, every visited foreground pixel gets a label of at least 1, and the counter never decreases |
| ComponentLabeling.StepLabelsForeground | tasks/mpi/milovankin_m_component_labeling/src/component_labeling.cpp:74-78 | one step keeps the visited foreground labelled and extends that to the visited pixel |
| ComponentLabeling.ScanFreshBound | tasks/mpi/milovankin_m_component_labeling/src/component_labeling.cpp:74-75 | the counter advances by at most the number of foreground pixels visited |
| ComponentLabeling.ScanLabelsBelowCounter | tasks/mpi/milovankin_m_component_labeling/src/component_labeling.cpp:74-78 | if every initial label is below the counter, every label stays below it |
| ComponentLabeling.ScanIssuedPresent | tasks/mpi/milovankin_m_component_labeling/src/component_labeling.cpp:75 | every label the counter issued is held by some visited pixel |
| ComponentLabeling.ParBand | tasks/mpi/milovankin_m_component_labeling/src/component_labeling.cpp:122-124 | a rank's band is `[rows / P * rank, end_row)`, inside the image |
| ComponentLabeling.BandsTile | tasks/mpi/milovankin_m_component_labeling/src/component_labeling.cpp:122-124 | each band lies in [0, rows), and consecutive bands meet. The first starts at 0 and the last ends at rows, with `rows / P + rows % P` rows |
| ComponentLabeling.BandsDisjoint | tasks/mpi/milovankin_m_component_labeling/src/component_labeling.cpp:122-124 | a lower rank's band ends no later than a higher rank's band starts |
| ComponentLabeling.BandOwner | tasks/mpi/milovankin_m_component_labeling/src/component_labeling.cpp:122-124 | a row lies in a rank's band iff that rank is its owner, so the bands partition [0, rows) |
| ComponentLabeling.RowStartIsProduct | tasks/mpi/milovankin_m_component_labeling/src/component_labeling.cpp:42 | the row offsets used for `linear_index` equal row * cols |
| ComponentLabeling.IndexBound | tasks/mpi/milovankin_m_component_labeling/src/component_labeling.cpp:42 | `row * cols + col` is below rows*cols for an in-range row and column |
| VectorSum.Validation | tasks/mpi/milovankin_m_sum_of_vector_elements/src/ops_mpi.cpp:19-23 | true iff outputs are present and `outputs_count[0] == 1`. The count is read only after the emptiness test |
| VectorSum.ValidationNeedsOutput | tasks/mpi/milovankin_m_sum_of_vector_elements/func_tests/main.cpp:90-106 | with the outputs omitted, validation fails |
| VectorSum.VectorSumSeq.PreProcessing | tasks/mpi/milovankin_m_sum_of_vector_elements/src/ops_mpi.cpp:25-34 | the input is exactly the first `inputs_count[0]` elements of the buffer |
| VectorSum.VectorSumSeq.Run | tasks/mpi/milovankin_m_sum_of_vector_elements/src/ops_mpi.cpp:36-45 | `sum_` becomes the integer sum of the input (0 for an empty one) |
| VectorSum.Accumulate | tasks/mpi/milovankin_m_sum_of_vector_elements/src/ops_mpi.cpp:39-42 | the accumulation loop computes `Sum` |
| VectorSum.SumFitsInt64 | tasks/mpi/milovankin_m_sum_of_vector_elements/src/ops_mpi.cpp:114 | fewer than 2^32 `int32_t` values sum into the `int64_t` range, so the accumulator never overflows |
| VectorSum.SumBounds | tasks/mpi/milovankin_m_sum_of_vector_elements/src/ops_mpi.cpp:40-41 | a sum of n `int32_t` values lies in [n * -2^31, n * (2^31 - 1)] |
| VectorSum.SumOfOnes | tasks/mpi/milovankin_m_sum_of_vector_elements/perf_tests/main.cpp:41 | a vector of ones sums to its length |
| VectorSum.LocalSize | tasks/mpi/milovankin_m_sum_of_vector_elements/src/ops_mpi.cpp:81-86 | `local_size` is the balanced chunk size of the rank |
| VectorSum.SendCounts | tasks/mpi/milovankin_m_sum_of_vector_elements/src/ops_mpi.cpp:94-97 | `send_counts[i]` is `total / P` plus one for i < `total % P` |
| VectorSum.Offsets | tasks/mpi/milovankin_m_sum_of_vector_elements/src/ops_mpi.cpp:99-102 | each offset is the sum of the counts before it |
| VectorSum.OffsetsAreChunkOffsets | tasks/mpi/milovankin_m_sum_of_vector_elements/src/ops_mpi.cpp:99-102 | summing the counts before rank i gives the start of chunk i |
| VectorSum.Layout | tasks/mpi/milovankin_m_sum_of_vector_elements/src/ops_mpi.cpp:92-103 | the root's two tables hold every chunk's size and start |
| VectorSum.ChunksBalanced | tasks/mpi/milovankin_m_sum_of_vector_elements/src/ops_mpi.cpp:94-97 | chunk sizes differ pairwise by at most one, with larger ones first, and they add up to the total |
| VectorSum.ChunkOffsetClosed | tasks/mpi/milovankin_m_sum_of_vector_elements/src/ops_mpi.cpp:99-102 | the offset of chunk i is `i * (total / P) + min(i, total % P)` |
| VectorSum.ChunksOrdered | tasks/mpi/milovankin_m_sum_of_vector_elements/src/ops_mpi.cpp:99-102 | a later chunk starts no earlier than an earlier one ends |
| VectorSum.ChunkOffsetMono | tasks/mpi/milovankin_m_sum_of_vector_elements/src/ops_mpi.cpp:99-102 | offsets never decrease |
| VectorSum.ChunkOwner | tasks/mpi/milovankin_m_sum_of_vector_elements/src/ops_mpi.cpp:99-102 | every index below the total lies in some chunk |
| VectorSum.ChunksDisjoint | tasks/mpi/milovankin_m_sum_of_vector_elements/src/ops_mpi.cpp:99-102 | no index lies in two chunks |
| VectorSum.ChunkInside | tasks/mpi/milovankin_m_sum_of_vector_elements/src/ops_mpi.cpp:105-106 | each chunk ends where the next begins, no later than the total, so scatterv reads inside the root's buffer |
| VectorSum.Chunk | tasks/mpi/milovankin_m_sum_of_vector_elements/src/ops_mpi.cpp:105-106 | rank i's chunk has the balanced size of rank i |
| VectorSum.VectorSumPar.PreProcessing | tasks/mpi/milovankin_m_sum_of_vector_elements/src/ops_mpi.cpp:62-109 | the rank's `local_size` is its chunk size and its input is its chunk. The root's tables hold all sizes and starts, with `send_counts[0] == local_size`, and other ranks build none |
| VectorSum.VectorSumPar.Run | tasks/mpi/milovankin_m_sum_of_vector_elements/src/ops_mpi.cpp:114 | the local sum is the sum of the rank's chunk |
| VectorSum.PartialSumsPrefix | tasks/mpi/milovankin_m_sum_of_vector_elements/src/ops_mpi.cpp:115 | the partial sums of the first k chunks sum the input up to the start of chunk k |
| VectorSum.ChunkSumsTotal | tasks/mpi/milovankin_m_sum_of_vector_elements/src/ops_mpi.cpp:114-115 | reducing the chunk sums with `+` gives the sequential sum |
| VectorSum.ParallelSum | tasks/mpi/milovankin_m_sum_of_vector_elements/src/ops_mpi.cpp:111-118 | running every rank's pre_processing and local sum and adding the results equals the sequential sum |

## Left out

- Message passing (`send`, `recv`, `barrier`, `all_gather`, `broadcast`, `scatterv`, `reduce`) is transport and concurrency. The hypercube token is simulated in message order, and the collectives of the vector sum are modelled by what they deliver.
- Blocking and deadlock are left out. When dest is 0, rank 0 returns false while the other ranks wait in `recv` forever; `Simulate` states only that rank 0 fails and sends nothing.
- Boost serialization of the message record is a foreign codec and is left out. Messages are passed as values.
- `std::log2` float comparisons are read as exact integer bounds: `i < log2(N)` as `2^i < N`, and `i <= log2(dest)` as `2^i <= dest` with no iteration for dest <= 0. Float rounding is not modelled.
- Rank counts are bounded by 2^16 (`MaxWorld`). Above that bound the `uint16_t` casts would truncate, and the model does not cover it.
- Destinations outside [0, N) have no handling in the source, and `Simulate` requires dest < N.
- The raw pointer copies into `taskData`, `internal_order_test` and the pipeline harness are left out. Buffers are sequences.
- The labelling tasks' `post_processing` copy of the labels to the output buffer is left out. It is a plain `copy_n` of the model's array.
- The vector-sum `post_processing` store of `sum_` into the output is left out. It is a plain assignment.
- The parallel labelling `all_gather` (line 164) is left out. It merges per-rank arrays, with unequal counts for the last band and per-rank counters that each start at 1. The model states each rank's local labels only.
- In the parallel pass the diagonal checks use `row > 0` and `row + 1 < rows`, not the band. They read the local array outside the band, which holds the labels from before the pass. The model reproduces this read and proves nothing about how it interacts with other ranks.
- The `uint32_t` label counter is unbounded in the model, so its wrap is not modelled. `FreshPass` bounds it by the number of foreground pixels plus one, so a wrap needs 2^32 - 1 foreground pixels in one band.
- SizeT models the `size_t` wrap only for values in (-2^64, 2^64), which covers `row + dr` and `col + dc` for rows and columns below 2^32.
- VectorSum.Validation requires `outputs_count` to be non-empty when outputs are present. Reading `outputs_count[0]` of an empty vector is undefined behaviour in the source.
- The vector sum's `int total_size` wraps once `inputs_count[0]` is 2^31 or more. The model treats the total as a natural number.
- `make_random_vector` uses `rand()` and is left out, as are the perf tests and timers.
- `tasks/seq/milovankin_m_sum_of_vector_elements/src/ops_seq.cpp` is not part of this model. Its `run` is a stub that never sums, so its output stays at the initial `sum_ = 0`.
- The message record is the `Message` datatype. Its serializer in `include/ops_mpi.hpp` is not part of this model.
