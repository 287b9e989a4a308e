# A verified model of the TensorRT-RTX execution provider

The execution provider hands subgraphs of an ONNX model to TensorRT-RTX. This project models the parts of it
whose correctness is hardest to see by reading one function, and proves what they promise:

- **The device-memory arena**: best fit with coalescing, 21 size bins, regions of contiguous memory, stream-aware
  reuse. Every public operation keeps one invariant: chunks tile their regions, the address index and the bins are
  exact, grants never overlap, a byte passes from one stream to another only after a wait, and the statistics balance.
- **The graph rewrites that run before parsing**: the lowering of QuantizeLinear and DequantizeLinear, the bool
  bridge, unbounded Clip bounds and dilated pooling, each a pass of its own, and their composition. They keep the
  value of every tensor of the graph.
- **Choosing the partition**: fusing groups of nodes never leaves a cycle. The search for cycles is exact about the
  edges it is given, and it is shown exactly when those edges are the dependencies.
- **Reading engine plans**: aligned reads staged in a ring of pinned buffers and copied asynchronously. Whenever the
  copies run, the destination ends up with the file's own bytes, also over many reads on many streams.
- **Weight streaming**: changing the budget of all engines is a transaction.
- **I/O binding**: runs that skip binding find everything already bound.
- **Profiler metadata**: decoding JSON strings undoes escaping, and reads what the RFC 8259 and RFC 3629 forms mean.

`dafny verify dfyconfig.toml` checks everything. Files depend on each other only through modules:

| component | modules |
|---|---|
| arena | ArenaTypes, ArenaRecords, ArenaRegions, ArenaCore, ArenaSteps, ArenaTiling, ArenaOwnership, ArenaCoalescing, ArenaGrowth, ArenaSearch, ArenaAccounts, ArenaGranting, ArenaDropping, Arena |
| tensors and graphs | Division, TensorValues, Broadcasting, ParameterLayout, QuantizeRounding, PoolMeaning, OnnxGraph, GraphRuns, Declarations, LoweredNames, Drafts, Emission, Following |
| quantization pass | QdqPolicy, QdqLowering, QdqRuns, QdqEmission, QdqParameters, QdqCredit, QdqPass, QdqComputedZero, QdqExamples, QdqSecondRun, QdqCoverage |
| the other passes | BoolBridge, ClipBounds, PoolPlans, PoolingDilation, PoolingCoverage, PoolingRuns, PoolingEmission, PoolingPass, Preprocessing |
| partition | PartitionGraph, CycleSearch, PartitionTables, PartitionCycles, PartitionChoice |
| plan reader | Alignment, PositionedReads, PendingCopies, StagedReader |
| provider state | WeightStreaming, BindingCache, BoundRuns |
| profiler metadata | Utf8, JsonStrings, JsonFields, JsonSpellings |

`Hiding` and `Options` serve them all.

## Reading the model

**Arena.** `ArenaImpl` has the allocator's fields and its methods update them one by one. `ArenaCore` describes each
low-level step (split, merge, bin, unbin) on the value of those fields. `ArenaOk` is the whole invariant and is part
of `Valid`. The ghost field `tags` records for every byte the stream it was last given to and that stream's sync id
at the time. A device is a function from sizes to addresses, a parameter of each call, so it may answer anything that
is fresh memory. `GrantAt` is what the arena has handed out at an address, `FreeAt` the free chunk that begins at one,
and `IsFreeFor` says of a single byte that it is free and who had it last. Public operations are described by these.

**Graphs.** A graph is a list of nodes over named tensors. Tensors hold exact numbers, the infinities and NaN. An
operator semantics `ops` is any function from nodes and arguments to results; `Conforms` says what it must be for the
operators the passes touch, after the ONNX operator specification, and leaves every other operator free. Each pass is
a method that builds the new graph with the loops of the program. It is proved equal to a function, and the lemmas are
about that function. Which nodes a pass rewrites is told again without the pass's own decisions, in `QdqCoverage`,
`PoolingCoverage`, `ClipBounds` and `BoolBridge`: the others are left, and none of these is. `byCode` selects how QuantizeLinear is read: as the program computes it (add the zero
point, then round) or as ONNX defines it (round, then add).

**Devices, engines, files.** What the outside world answers is a parameter: `Answers` of the reader holds what each
positioned read returns, `Answers` of weight streaming holds what every engine proposes, takes and reports and what
becomes of each context. Results are stated by those answers. Which pending copy runs next is a nondeterministic
choice of the model, so it holds for every timing. Requests carry which of their binding calls fails.

## Hypotheses

They are preconditions of the members named in the table, and of nothing else.

- *Arena configuration*: the growth and extension sizes are positive multiples of 256, as the program enforces for
  region sizes (src/ep_arena.h:368); the limit and the initial size are positive, and the limit is below 2^64; the
  strategy is one of the two. Statistics start at zero.
- *Sizes*: requests are at most 2^64 - 256 bytes, so that rounding one up does not wrap, and doubling the growth size
  does not wrap. Above that size the rounding is 0 (`ArenaTypes.RoundingWraps`).
- *Device allocator*: blocks are new memory that overlaps nothing the arena holds. Reserved memory likewise. Backing
  off by nine tenths is any function that loses at least 1/32 of its argument.
- *Graphs*: single assignment and topologically ordered; every name differs from the names the passes make up; the
  graph runs on the given inputs, so its shapes are valid and parameters have one of ONNX's layouts, of no larger rank
  than the data; Q and DQ nodes have one named output; declared types and shapes hold of the tensors of the run;
  comparison and logical operators yield booleans.
- *Order*: that exactly the casts of booleans are recast is told of graphs whose nodes read only what earlier nodes make.
- *Zero points* of the nodes that are replaced are absent or initializers. `QdqComputedZero` says what happens
  otherwise; it asks that no zero point is itself a dequantized tensor, which its type excludes in ONNX. With ONNX's
  reading of QuantizeLinear, the zero points are also even. With the program's own reading there is no such condition.
- *Initializers are constants*: a graph input does not override one with another value.
  `OnnxGraph.OverridingRunIsSame` says exactly when an overriding run is the run considered here.
- *Partition*: the acyclicity of the result needs the node graph to be a DAG in which distinct nodes outside the
  groups have distinct names. That the search is exact needs nothing.
- *Reader*: the memory asked for exists, and no copy still in flight may write there unless the stream orders it first.
- *Binding*: a skipped run is safe when no binding call failed since the cache last started afresh.

## Model

| member | source | states |
|---|---|---|
| Arena.ArenaImpl.constructor | src/ep_arena.cc:24-75 | A new arena satisfies the whole invariant, has granted nothing and reserved nothing, and counts nothing; it begins to grow from the smaller of the initial size and the limit, rounded up to 256. |
| Arena.ArenaImpl.Alloc | src/ep_arena.cc:301-304 | Keeps the invariant. Zero bytes give the null pointer. It raises if and only if no free chunk is open to the request and the arena cannot be extended. A pointer returned was granted nowhere and has a new allocation id; no other grant changes, and none of its bytes belongs to a stream. It is the smallest open chunk, the lowest of those, or else the new region. The grant is smaller than two rounded requests and exceeds one by less than the dead bytes allowed; of a chunk of two requests or more, or one that would leave so much, it is exactly one request and the rest stays free behind it; any other chunk is given as a whole. No other free chunk changes. The grant is counted. |
| Arena.ArenaImpl.AllocOnStream | src/ep_arena.cc:306-309 | The same for a stream: each byte was free, was the stream's own, or was last given to a stream that this one has waited for since; afterwards exactly the granted bytes belong to the stream. |
| Arena.ArenaImpl.AllocateRawInternal | src/ep_arena.cc:350-409 | The same in one place: which memory a request gets, how much of it, what it leaves free, and exactly when there is none. The error for a second search that finds nothing is unreachable. |
| Arena.ArenaImpl.FindChunkPtr | src/ep_arena.cc:452-493 | Exact best fit over all free chunks the stream may use: the smallest, then lowest-addressed, cut to fit; INVALID just when there is none, and then nothing has changed. |
| ArenaGranting.HandedToFit | src/ep_arena.cc:421-450 | What a grant takes of a free chunk, by sizes alone: less than two requests, less than the allowed dead bytes wasted, the rest free if either would be exceeded. |
| ArenaSearch.BestFitIsSmallestOpen | src/ep_arena.cc:452-493 | Best fit over the chunk table is the smallest, then lowest, free chunk that is large enough and nobody's, the stream's own, or waited for. |
| ArenaSearch.FirstFitIsBestFit | src/ep_arena.cc:452-493 | Stopping at the first fitting chunk of the lowest bin that has one is best fit over the whole arena. |
| ArenaSearch.CandidateBytesMayBeTaken | src/ep_arena.cc:464-472 | The check of one stream and sync id per chunk is enough for each single byte of the chunk, whatever was split and merged before. |
| Arena.ArenaImpl.Extend | src/ep_arena.cc:101-253 | Adds at most one region, never smaller than the request, as one free chunk; no other free chunk changes. It asks for the request itself under SameAsRequested, else for the growth size, doubled up to the request, as far as the limit leaves it; then for a tenth less each time, until an attempt is granted, or the next is below the request or 8 KiB. The growth size stays, is the doubled one, or is twice what it was up to the configured size. On failure nothing else has changed. |
| ArenaGrowth.ExtendsAsStated | src/ep_arena.cc:101-219 | The arithmetic of that, for every limit, total, growth size and device: what is available, what is asked for first, the sequence of attempts, and the growth size left. |
| ArenaGrowth.ExtensionIsWithinLimit | src/ep_arena.cc:101-219 | An extension covers the request, is a multiple of 256, and stays within the limit as long as the total was within it. |
| ArenaGrowth.RetryCoversRequest | src/ep_arena.cc:176-219 | Backing off ends, and what it obtains is smaller than what was refused, covers the request and is at least 8 KiB. |
| ArenaGrowth.DoubledIsLeast | src/ep_arena.cc:137-148 | Doubling ends and overshoots the request by less than a factor of two. |
| ArenaGrowth.ReserveLiftsTheLimit | src/ep_arena.cc:101-110 | Once reservations have taken the total past the limit, nearly the whole address space counts as available. |
| Arena.ArenaImpl.Coalesce | src/ep_arena.cc:656-694 | Merges the chunk with at most one neighbour on each side, and is exact about the table, the index and the bins that result. |
| ArenaCoalescing.CoalescedIsSettled | src/ep_arena.cc:638-694 | One merge on each side is enough: no two adjacent free chunks of one stream remain, and grants and byte owners are as before. |
| ArenaCoalescing.FreeNeighboursDiffer | src/ep_arena.cc:638-694 | In every consistent arena, where one free chunk of a region ends and another begins, their streams differ. |
| Arena.ArenaImpl.Free | src/ep_arena.cc:535-566 | Keeps the invariant. Of grants and reservations exactly the one named goes, and no other changes; its bytes, and no others, become free for its stream, and are no longer counted as in use. A pointer that is not null and not reserved is accepted if and only if it lies in the first 256 bytes of a grant, and that grant goes. |
| Arena.InnerPointerFrees | src/ep_arena.cc:558-566 | By calls: a new arena grants 100 bytes; a pointer four bytes into them, which was never handed out, frees them. |
| Arena.ArenaImpl.Reserve | src/ep_arena.cc:311-330 | Keeps the invariant and the regions; the memory is recorded under its address, including a refusal under address 0, and counted; a second refusal raises. |
| Arena.ArenaImpl.Shrink | src/ep_arena.cc:879-947 | The regions left are exactly those with a grant and, under power-of-two growth, the first one. All grants survive, and free bytes of the regions left stay free for their streams. Each region given back is counted. |
| Arena.ArenaImpl.ResetChunksUsingStream | src/ep_arena.cc:799-877 | Keeps the invariant, so no two adjacent free chunks of one stream remain though any set of chunks lost its stream. Afterwards no grant belongs to the stream. Grants keep address and size; exactly the bytes of the recorded chunks lose their owner, free ones included, and no other free byte changes. |
| Arena.ResetClearsItsOwn | src/ep_arena.cc:814-820 | A reset forgets another stream's bytes if and only if a recorded chunk that holds owned bytes is by then another stream's. |
| Arena.ResetReachesAnotherStream | src/ep_arena.cc:479-484 | A state of the allocator in which a chunk is recorded for one stream and in use for another, as taking it over leaves it: after the first stream's reset a third stream may take it, which it could not before. |
| ArenaTiling.RegionIsAccountedFor | src/ep_arena.h:250-311 | In a consistent arena the chunks of every region form one chain from its first byte to its last, whose sizes add up to the region. |
| ArenaTiling.ChunksAreDisjoint | src/ep_arena.h:250-311 | Two live chunks never overlap, and each lies within its region. |
| ArenaRegions.RegionManager.AddAllocationRegion | src/ep_arena.h:469-474 | The sorted region vector stays sorted and disjoint and gains exactly the new region, with no handle in it. |
| ArenaRegions.RegionManager.GetHandle | src/ep_arena.h:484-534 | The binary search finds the region that contains an address if there is one, and the handle of the 256-byte slot. |
| ArenaTypes.BinHoldsItsRange | src/ep_arena.h:641-651 | A bin holds exactly the sizes from its own size up to the next bin's, the last one everything above. |
| ArenaTypes.RoundingWraps | src/ep_arena.cc:296-299 | In 64-bit arithmetic rounding is exact up to 2^64 - 256, and gives 0 exactly above. |
| QuantizeRounding.RoundingRelation | src/qdq_lowering.cc:2197-2232 | Adding the zero point before rounding differs from ONNX's order exactly at ties with an odd zero point, and there by exactly one: upwards if the floor of the quotient is even, else downwards. |
| QuantizeRounding.QuantizingRelation | src/qdq_lowering.cc:2197-2270 | After clamping: the emitted arithmetic equals ONNX's definition if and only if the zero point is even, the quotient is no tie, or the quotient plus the zero point is out of range; infinities and NaN never differ. |
| QuantizeRounding.OddZeroDisagrees | src/qdq_lowering.cc:2223-2229 | One input where they differ. |
| QdqRuns.QuantizedAsOnnxHasIt | src/qdq_lowering.cc:2197-2270 | The same for whole tensors and every parameter layout: equality if and only if every element rounds alike. |
| QdqRuns.DroppedZeroPoint | src/qdq_lowering.cc:1953-1955 | Of one tensor: it dequantizes to the same without its zero point if and only if that is zero everywhere. |
| QdqComputedZero.ComputedZerosAreDropped | src/qdq_lowering.cc:1904-2289 | For any graph, whatever its zero points: the lowered graph runs, and gives every tensor the value it has in the graph without the zero points that replaced nodes compute. |
| QdqComputedZero.ComputedZerosDecide | src/qdq_lowering.cc:1904-2289 | So it gives every tensor of the graph its value if and only if the run finds each of those zero points zero everywhere. |
| QdqExamples.ComputedZeroIsLost | src/qdq_lowering.cc:1953-1955 | A graph whose zero point is a copy of an input: for all v and z the graph makes v - z, the lowered graph v. |
| ParameterLayout.TryResolveBroadcastIndex | src/qdq_lowering.cc:955-1081 | Accepts exactly the per-tensor, per-axis, block and full-rank layouts, and finds the element ONNX means, within range. |
| ParameterLayout.FullRankMeans | src/qdq_lowering.cc:955-1081 | A parameter of the data's rank is read at 0, at the element's own position, or along the axis at the position of its block. |
| ParameterLayout.AxisMeans | src/qdq_lowering.cc:955-1081 | A vector is read at the element's position along the axis, or of its block there. |
| ParameterLayout.AddExpandedInitializer | src/qdq_lowering.cc:1161-1222 | The expanded tensor has the shape of the data and shows at every element the parameter that resolving the element finds; it is refused exactly for layouts that are none of ONNX's. |
| ParameterLayout.RoutesAgree | src/qdq_lowering.cc:1224-1293 | The reshaped, expanded or unchanged parameter broadcasts to the data, and shows at each element the value that resolving the element finds. |
| QdqExamples.SingleScaleKeepsShape | src/qdq_lowering.cc:2197-2289 | For a DequantizeLinear with a scale of a single value, the lowered graph gives a tensor of the input's shape if and only if the scale's rank is no larger. |
| QdqExamples.ScalarComesOutAsVector | src/qdq_lowering.cc:955-1000 | With a scalar input and a scale of shape [1] the lowered graph gives a tensor of shape [1]. |
| QdqLowering.TryFoldConstant | src/qdq_lowering.cc:1311-1397 | Folds exactly when data and parameters can be read and every element finds its parameters, and then to the tensor DequantizeLinear means. When only the layout fails, the constant has been named already. |
| QdqCoverage.RunQdqLowering | src/qdq_lowering.cc:1904-2289 | The whole pass over the nodes: the result is the one the next rows are about. The quantizing nodes left are nodes of the graph that are not to be lowered, all such nodes are left as they were, and the count is the number of those to be lowered. |
| QdqCoverage.LoweredAsStated | src/qdq_lowering.cc:1580-1901 | Which nodes are lowered, by what the runtime takes: with a positive, finite constant scale and known input type, a dequantizing node with a constant zero point that is not zero or a 32-bit input, and a quantizing one with such a zero point of 8 or 16 bits; and a symmetric constant that a matrix product or convolution alone reads, next to such a node. In each case if and only if the parameters line up with the data, or the constant folds. |
| QdqCoverage.LoweredBeginsIn | src/qdq_lowering.cc:1423-1540 | What is lowered and not folded begins by casting its input: 32-bit integers to int64, what becomes 16 bits wide to float where the scale is a half, and all else to the scale's type. |
| QdqPass.QdqPassKeepsMeaning | src/qdq_lowering.cc:1904-2289 | The lowered graph runs whenever the graph runs; every tensor keeps type, shape and value, whether a node was folded, computed in arithmetic or left; and no name is bound twice. |
| QdqCredit.EveryNodeIsRepresented | src/qdq_lowering.cc:1082-1110 | Emitted nodes fall into one stretch per node, in order; each consists of helpers with that node's documentation and ends in the node or a helper that makes its tensors. |
| QdqSecondRun.SecondRunLowersNothing | src/qdq_lowering.cc:1604-1870 | On its own result the pass lowers nothing, harmonization with forced siblings included. |
| LoweredNames.NumbersKeepApart | src/qdq_lowering.cc:648-653 | Helper names with different numbers differ, whatever tensor names are inside them. |
| BoolBridge.CanonicalizeBoolBridgeCastChain | src/logical_output_compatibility.cc:175-253 | The nodes are edited in place, each decision made on the nodes as edited so far and on the declarations of before: the result is the one the next row is about. In a graph in order exactly the casts of a boolean to uint8 that are no outputs and only cast on to other types are recast to int32 and declared so, and nothing else changes. |
| BoolBridge.BridgedRunCorresponds | src/logical_output_compatibility.cc:175-253 | The graph still runs; every tensor is the same except retargeted bridges, which hold the same numbers as int32. |
| ClipBounds.RewriteClipBounds | src/clip_bound_compatibility.cc:426-471 | The nodes are edited in place. A plain Clip between minus and plus infinity becomes Identity, one with one infinite and one finite bound becomes Max or Min of the input and that bound, and every other node stays. |
| ClipBounds.ClipRunIsSame | src/clip_bound_compatibility.cc:426-471 | The rewritten graph runs exactly as the graph did, tensor for tensor, with the bounds of initializers and of Constant nodes. |
| PoolPlans.TryBuildPoolLoweringPlan | src/pooling_dilation_compatibility.cc:334-448 | All checks in one method, the taps counted in a loop that gives up at the limit: the plan made is the one the next rows are about. |
| PoolingCoverage.PlanAsStated | src/pooling_dilation_compatibility.cc:334-448 | Which pools have a plan: a float or half pool of the main domain over known shapes, without padding, spread out in some dimension, with at most 256 taps, whose last tap stays inside the input. |
| PoolingCoverage.RewritePoolingDilations | src/pooling_dilation_compatibility.cc:581-600 | The whole pass. Every node left is one without a plan, as it was, or a slice or plain arithmetic with the documentation of a pool that had one; all nodes without a plan are left. |
| PoolPlans.DecodeTapCoordinates | src/pooling_dilation_compatibility.cc:450-460 | Repeated division yields the row-major coordinates of the tap. |
| PoolPlans.DecodingIsBijective | src/pooling_dilation_compatibility.cc:450-460 | Taps and kernel positions correspond one to one. |
| PoolPlans.BuildSliceParameters | src/pooling_dilation_compatibility.cc:462-493 | Starts, ends and steps of the slice for a kernel position, filled in dimension by dimension. |
| PoolPlans.SliceIsTap | src/pooling_dilation_compatibility.cc:462-493 | For every accepted plan, of any spatial rank, each slice is in bounds, has exactly the output shape and holds at o the element at o * stride + k * dilation. |
| PoolingRuns.MaximaArePooled | src/pooling_dilation_compatibility.cc:495-579 | The maxima of all taps are the dilated MaxPool. |
| PoolingRuns.MeansArePooled | src/pooling_dilation_compatibility.cc:495-579 | The sum of all taps divided by their number is the dilated AveragePool. |
| PoolingPass.PoolingPassKeepsMeaning | src/pooling_dilation_compatibility.cc:334-600 | The rewritten graph runs whenever the graph runs, every tensor keeps its value and no name is bound twice. |
| Preprocessing.RunTensorRtProtoPreprocessing | src/trt_proto_preprocessing.cc:14-34 | The four passes in order, each on what the last one left, and the number of nodes to be lowered; between the passes each graph is what the pass before leaves of its own. |
| Preprocessing.PreprocessingKeepsMeaning | src/trt_proto_preprocessing.cc:14-34 | The preprocessed graph runs whenever the graph runs; every tensor keeps its type and value, except that a retargeted bridge holds the same numbers as int32; nothing is bound twice. |
| Preprocessing.OutputsAreNoBridges | src/logical_output_compatibility.cc:175-253 | No output of the graph is a retargeted bridge, so outputs keep type and value. |
| OnnxGraph.OverridingRunIsSame | src/qdq_lowering.cc:114-118 | Initializers taken as constants: when a run that overrides initializers is the run considered. |
| CycleSearch.FindCycleHelper | src/tensorrt_rtx_execution_provider.cc:520-543 | The search finishes vertices in an order in which successors come first, or records a closed walk, first the vertex that closes it, then the walk backwards. |
| PartitionCycles.FindCycle | src/tensorrt_rtx_execution_provider.cc:2753-2773 | Either finds a cycle, whose vertices are the first ones recorded, or an order of all vertices in which every producer can run before its consumers. |
| PartitionCycles.DetectTensorRTGraphCycles | src/tensorrt_rtx_execution_provider.cc:2584-2801 | Returns true exactly when the fused graph has a cycle. Removal ends, erases one group a round, the one found on a cycle by its number among the groups with nodes, and over a DAG leaves a graph without cycles, with an order to run it in. |
| PartitionCycles.RemovalErasesFromCycles | src/tensorrt_rtx_execution_provider.cc:2771-2794 | If no group is empty, every group erased is a group whose kernel lies on a cycle of the graph of that round. |
| PartitionTables.BuildAdjacency | src/tensorrt_rtx_execution_provider.cc:2728-2747 | The adjacency lists hold exactly the edges of the fused graph. |
| PartitionChoice.ChoosePartition | src/tensorrt_rtx_execution_provider.cc:3946-3994 | Exactly the groups of enough nodes are kept, in their order; the minimum is at least one (3261-3264), so none is empty, and only groups on a cycle are erased. Whether fused into one group, the members one group after the other, or kept separate, the chosen groups cover the same nodes and can be run in the given order. They are fused exactly when there are several and fusing makes no cycle. |
| PartitionChoice.CapturesDecideTensors | src/tensorrt_rtx_execution_provider.cc:2647-2650 | The tensors a vertex is recorded to read are those it needs, for all tensors of the graph, if and only if every captured tensor is made in its group, read there in the open, or made by no node. |
| PartitionChoice.EdgesAreDependencies | src/tensorrt_rtx_execution_provider.cc:2647-2650 | The edges searched are the dependencies if and only if whatever makes a captured tensor feeds that group in the open by some tensor. |
| PartitionChoice.SearchedCyclesAreReal | src/tensorrt_rtx_execution_provider.cc:2753-2773 | Every cycle of edges is a cycle of dependencies; the converse holds under that condition. |
| PartitionChoice.CapturedTensorIsMissed | src/tensorrt_rtx_execution_provider.cc:2647-2650 | A graph where it fails: fusing leaves two vertices that need each other and the search sees no cycle. |
| Alignment.AlignUpIsLeast | src/direct_cuda_stream_reader.cc:43-52 | Rounding up gives the least multiple from the value on, or an error exactly when that would not fit 64 bits. |
| Alignment.StagedReadFits | src/direct_cuda_stream_reader.cc:378-386 | Whatever the offset, prefix and rounding of a staged read fit the slot. |
| PositionedReads.CutsDecide | src/direct_cuda_stream_reader.cc:340-361 | An unbuffered read ends short of the bytes needed if and only if some answer is a bad cut: unaligned, before the end of the file and before those bytes, after aligned ones only. |
| PositionedReads.ShortReadsAreCut | src/direct_cuda_stream_reader.cc:376-390 | A request fails as a short read if and only if one of its staged reads is badly cut. |
| PositionedReads.FileErrorsAreMet | src/direct_cuda_stream_reader.cc:338-363 | A request fails for the file if and only if one of its staged reads meets an answer that is no count, other than an unbuffered read's finding at once that it is not supported. |
| PositionedReads.RoundIsTight | src/direct_cuda_stream_reader.cc:378-386 | A staged read begins at the last unit before the bytes wanted, takes no unit more than it needs, and brings all that is left or as much as a slot holds. |
| PendingCopies.AnyOrderSettlesAlike | src/direct_cuda_stream_reader.cc:395-404 | Whichever ready copy runs next, memory settles to the same bytes. |
| StagedReader.DirectCudaStreamReader.WaitSlot | src/direct_cuda_stream_reader.cc:226-234 | Afterwards no copy from the slot is pending, and what memory will settle to is unchanged. |
| StagedReader.DirectCudaStreamReader.Read | src/direct_cuda_stream_reader.cc:365-415 | However copies are timed, memory settles to the next min(request, rest) bytes of the file at the destination and is otherwise untouched; the position moves by as much. The result is the one the answers of the positioned reads determine: a short read if and only if they hold a bad cut, a file error if and only if a failure is met. On failure it tells how far delivery got. New copies are this stream's and stay within the request. |
| StagedReader.UnalignedCountFails | src/direct_cuda_stream_reader.cc:357-359 | By calls: two bytes asked of a file of four, in units of two; the system hands over one at a time, and the request fails though all is there. |
| StagedReader.DirectCudaStreamReader.ReadInPieces | src/direct_cuda_stream_reader.cc:365-415 | Any number of reads into adjacent memory, on any streams, to host or device, with the device running in between, deliver one stretch of the file. |
| StagedReader.DirectCudaStreamReader.ReadPlan | src/direct_cuda_stream_reader.cc:365-415 | Read so and let go of, the whole file is in memory and the memory around it is unchanged. |
| StagedReader.DirectCudaStreamReader.Seek | src/direct_cuda_stream_reader.cc:417-455 | From the start, the position or the end, moves by the offset exactly when that lies within the file; otherwise stays. No 64-bit step wraps. |
| WeightStreaming.Provider.ApplyRuntimeWeightStreamingBudget | src/tensorrt_rtx_execution_provider.cc:4393-4556 | By what the engines answer, in every mode. Success leaves every engine the budget asked for: nothing for minimum memory, all streamable bytes when disabled, the bytes or what the engine proposes as far as it can stream so many, or the percentage cut to whole bytes. It succeeds if nothing is in the way, and if and only if the update can begin, every engine applies its budget and every context can be made. A failure reports all restored if and only if nothing had begun or everything goes back; then budgets are as before but for one engine, if and only if the first that fails takes a new budget that it cannot report. Unless it reports otherwise, whatever had a context has one. New contexts bind everything anew, but for one half made. |
| WeightStreaming.ResolvedAsAsked | src/tensorrt_rtx_execution_provider.cc:461-483 | What each mode asks for, and exactly when it is a negative number of bytes. |
| WeightStreaming.Provider.RecreateContexts | src/tensorrt_rtx_execution_provider.cc:4330-4390 | It succeeds if and only if every context can be made, and then every engine asked for has a live one; contexts of other engines stay. A new context is not marked for a first run if and only if the first exception comes once it is in place, and no mark was there before. |
| WeightStreaming.UnreportedBudgetStays | src/tensorrt_rtx_execution_provider.cc:491-517 | By a call: one engine is to go from 0 to 60; it takes the budget and cannot report it. The call fails as restored, and the budget is 60. |
| WeightStreaming.HalfMadeContextIsNotMarked | src/tensorrt_rtx_execution_provider.cc:4364-4385 | By a call: an exception after a context is in place leaves a new context that the next run is not told to bind. |
| BoundRuns.ComputeState.Compute | src/tensorrt_rtx_execution_provider.cc:6238-6341 | Asking, binding and running take the state where the pure step takes it, and skip exactly when that step skips. It fails exactly when it binds and a binding call fails. A run that binds everything leaves the inputs bound to the request's tensors, and every output whose shape is known and was not deferred to the request's buffer of that shape. |
| BoundRuns.ComputeState.IsIOBindingRequired | src/tensorrt_rtx_execution_provider.cc:6012-6088 | Binding is required exactly on a first run, where skipping is not allowed, when an input differs from the one remembered, and when an output with a remembered shape has another buffer; what is remembered is updated by asking alone. |
| BindingCache.BindingRestoresSound | src/tensorrt_rtx_execution_provider.cc:6012-6088 | From any state, after any failures, a run that binds everything leaves a cache that can be relied on if and only if it remembers its inputs. |
| BindingCache.DeferredOnlyWithoutShape | src/tensorrt_rtx_execution_provider.cc:5892-5925 | In any history, an output is deferred if and only if an earlier run that got as far found no shape for it. |
| BindingCache.SkipsWhenNothingMoved | src/tensorrt_rtx_execution_provider.cc:6012-6088 | After a run that binds everything and remembers its inputs, the next one skips if and only if no input holds a shape, the profile stays, the inputs are equal, and so are the buffers of all outputs with a known shape. |
| BindingCache.SkippingIsSafe | src/tensorrt_rtx_execution_provider.cc:6012-6088 | In any history, a skipped run has every engine input, and every output for which no earlier run found no shape, bound to this run's address and shape, unless a binding call failed since the cache last started afresh. |
| BindingCache.FailedBindingIsForgotten | src/tensorrt_rtx_execution_provider.cc:6039-6056 | A history where it is not: the run after a failed binding skips while an older tensor is bound. |
| BindingCache.FailureOutlivesBinding | src/tensorrt_rtx_execution_provider.cc:6057-6061 | Another one: a binding that succeeds in between does not mend it. |
| Utf8.EncodedIsFaithful | src/tensorrt_rtx_profiler_metadata.h:124-149 | The bytes of a code point are well-formed UTF-8 (section 3 of RFC 3629) and decode to it. |
| JsonStrings.DecodeJsonString | src/tensorrt_rtx_profiler_metadata.h:12-158 | The loop decodes exactly what parses as a sequence of pieces, appending what each means. |
| JsonStrings.DecodesWhatIsWritten | src/tensorrt_rtx_profiler_metadata.h:12-158 | A text decodes to t if and only if it is written as plain bytes, short escapes, escaped code points and escaped surrogate pairs (section 7 of RFC 8259) that mean t. |
| JsonSpellings.DecodesWhatIsSpelled | src/tensorrt_rtx_profiler_metadata.h:12-158 | By characters: a text decodes to some bytes if and only if it spells them, bytes but the backslash for themselves, the eight short escapes, and any character by its UTF-16 code units, U+10000 and above as 0xD800 + (cp - 0x10000) / 0x400 and 0xDC00 + (cp - 0x10000) % 0x400, in digits of either case. |
| JsonSpellings.EveryCharacterIsRead | src/tensorrt_rtx_profiler_metadata.h:88-134 | In particular every character escaped so gives its UTF-8 bytes. |
| JsonStrings.LoneSurrogatesAreRefused | src/tensorrt_rtx_profiler_metadata.h:88-134 | A lone low surrogate, and a high one without a low one behind it, are refused wherever they stand. |
| JsonStrings.DecodingUndoesEscaping | src/tensorrt_rtx_profiler_metadata.h:12-158 | For every byte string, decoding its escaped form gives it back. |
| JsonFields.GetJsonStringField | src/tensorrt_rtx_profiler_metadata.h:160-194 | Finding the name, skipping blanks, cutting out the string and decoding it: the result is the one the next rows are about. |
| JsonSpellings.FieldIsWhatIsSpelled | src/tensorrt_rtx_profiler_metadata.h:160-194 | In any text, a field is read if and only if behind the first occurrence of its quoted name, after blanks and colons, a string is spelled, and its value is what that spells. |
| JsonFields.EscapedFieldIsRead | src/tensorrt_rtx_profiler_metadata.h:160-194 | For every byte string, a field that holds it escaped gives it back where its name first occurs. |
| JsonFields.RenderedFieldIsRead | src/tensorrt_rtx_profiler_metadata.h:160-194 | The same for every way of escaping the value. |
| JsonFields.FirstOccurrenceIsRead | src/tensorrt_rtx_profiler_metadata.h:162-167 | In any text the value read stands behind the first occurrence of the quoted name, and none is read without one. |
| JsonFields.LocatedIsFirst | src/tensorrt_rtx_profiler_metadata.h:162-167 | An occurrence is the one located if and only if there is none before it. |
| JsonFields.EarlierValueHidesField | src/tensorrt_rtx_profiler_metadata.h:162-167 | A text in which an equal earlier value hides the field. |

## Findings

What the code does not keep, each with an input and, where one is stated, the exact condition under which it does.

| what happens | shown by | exactly when it does not |
|---|---|---|
| Quantization adds the zero point before rounding, though the comment at src/qdq_lowering.cc:1924 says after. 0.5 with scale 1 and zero point 1 gives 2, not 1. | QuantizeRounding.OddZeroDisagrees | QuantizeRounding.QuantizingRelation, QdqRuns.QuantizedAsOnnxHasIt |
| A zero point that is not an initializer is read as absent (src/qdq_lowering.cc:1953-1955). 5 with zero point 2 gives 5, not 3. | QdqExamples.ComputedZeroIsLost | QdqComputedZero.ComputedZerosDecide |
| A scalar tensor with a scale of shape [1] comes out with shape [1]. | QdqExamples.ScalarComesOutAsVector | QdqExamples.SingleScaleKeepsShape |
| A constant DequantizeLinear whose parameter layout does not fit leaves an initializer without data behind (src/qdq_lowering.cc:1345-1366). Nothing reads it. | QdqLowering.TryFoldConstant | QdqLowering.TryFoldConstant |
| A tensor captured by a subgraph of a grouped node makes no edge, so a cycle can be missed (src/tensorrt_rtx_execution_provider.cc:2647-2650). | PartitionChoice.CapturedTensorIsMissed | PartitionChoice.EdgesAreDependencies |
| What is remembered of the inputs is updated before anything is bound, so a failed binding is forgotten and the next run skips. | BindingCache.FailedBindingIsForgotten | BindingCache.BindingRestoresSound, BindingCache.SkippingIsSafe |
| When skipping is not allowed, what is remembered is not updated at all, so after a failed first run even a successful binding leaves a stale record. | BindingCache.FailureOutlivesBinding | BindingCache.BindingRestoresSound |
| An engine that takes its new budget but cannot report it is not among those rolled back; the failure still reads as complete. | WeightStreaming.UnreportedBudgetStays | WeightStreaming.Provider.ApplyRuntimeWeightStreamingBudget |
| An exception between putting a context in place and marking its first run leaves a context to which nothing is bound. | WeightStreaming.HalfMadeContextIsNotMarked | WeightStreaming.Provider.RecreateContexts |
| A chunk taken over from another stream stays in that stream's record (src/ep_arena.cc:479-484), so resetting the first stream frees the second one's bytes for a third. A debug build stops at an assertion. | Arena.ResetReachesAnotherStream | Arena.ResetClearsItsOwn |
| Reserved memory counts towards the total without being checked, and the rest of the limit then wraps. | ArenaGrowth.ReserveLiftsTheLimit | ArenaGrowth.ExtensionIsWithinLimit up to the limit, ArenaGrowth.ReserveLiftsTheLimit above it |
| A refused reservation is recorded under the null pointer and counted; a second one raises. | Arena.ArenaImpl.Reserve, with mem = 0 | Arena.ArenaImpl.Reserve |
| Free takes any pointer into the first 256 bytes of a grant for the grant's own. | Arena.InnerPointerFrees | Arena.ArenaImpl.Free |
| Requests above 2^64 - 256 bytes are rounded to 0. | ArenaTypes.RoundingWraps | ArenaTypes.RoundingWraps |
| A field whose name occurs earlier as a value is not found. | JsonFields.EarlierValueHidesField | JsonFields.LocatedIsFirst, JsonFields.FirstOccurrenceIsRead |
| An unbuffered read that gets an unaligned count before the end of the file stops there, and the request may fail as a short read though the bytes are there. | StagedReader.UnalignedCountFails | PositionedReads.ShortReadsAreCut, StagedReader.DirectCudaStreamReader.Read |

## Left out

- Arena.ArenaImpl.Alloc: sizes are unbounded numbers, so requests above 2^64 - 256, which wrap, are outside the model; so is the doubling of the growth size past 2^63.
- Arena.ResetReachesAnotherStream: starts from such a state; the calls that lead there are not part of the lemma.
- Arena.ArenaImpl.ResetChunksUsingStream: clears what the record names, as the code does, not only the stream's own chunks; the map from stream implementations to streams is folded into the stream.
- Arena.ArenaImpl.Shrink: the device's own failure to take memory back is not modelled.
- StagedReader.DirectCudaStreamReader.Read: interrupted system calls count as repeated; the Windows branch, the detection of the sector size and failing CUDA calls are not modelled.
- WeightStreaming.Provider.ApplyRuntimeWeightStreamingBudget: within one update an engine gives one answer to each question; an engine that takes its old budget back streams by it again.
- QdqPass.QdqPassKeepsMeaning: numbers are exact, so rounding in floating-point arithmetic and float-to-float casts are not modelled.
- PartitionChoice.ChoosePartition: node support itself, decided by the parser, is an input.
- Names of kernels and names of nodes are different vertices: that a node is called like a kernel is not modelled.
- Set order in bins is the least element by size and address; the backing tree is not modelled.
- Arena locking, logging, memory dumps, statistics as key-value pairs, and the memory-pool arena.
- A Cast, QuantizeLinear or DequantizeLinear of a foreign operator domain is read as ONNX's, as the passes themselves do.
- Slice and Clip have a meaning only in the forms the passes emit or accept: positive steps, input-form bounds.
- Block layouts whose blocks do not divide the axis evenly are left to the runtime by the code and have no meaning here.
- Helper names of the pooling pass are modelled with the suffixes the code gives them, not the names of its nodes.
- Nested subgraphs, protobuf layouts, memory-address initializers and byte packing: graphs are flat and tensors are already read.
- The rotary-cache offset pass, which changes attributes of its own operator only.
- Device pointer resolution and scratch buffers of bound tensors are part of what a request gives.
- Parsing the budget option, the text of error messages, and the node-name list of the profiler metadata.
- The parser dialogue that finds supported nodes, engine building, context files, CUDA graphs and secure loading.
