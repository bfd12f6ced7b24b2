# Verified models of the operating-systems labs

The repository is a collection of independent labs written in C. This project models the eight whose core has
properties that are hard to see from any one function, and proves those properties in Dafny. Each lab has its own
modules; nothing is shared between labs.

`dafny verify dfyconfig.toml` checks everything.

## What is modelled

**mymalloc** (`Malloc*.dfy`) is a first-fit allocator with 64 per-slot lists, a global list, splitting, a refill of
16 KiB and two kinds of spinlock. Memory is a map from addresses to headers of 24 bytes (`MallocHeap`). It is modelled
twice. `MallocMachine` is a step machine in which any number of threads run `mymalloc` any number of times;
`MallocSteps` and `MallocSafety` prove what holds in every reachable state. Each lock operation and each access to
memory that another thread may use at that moment is a step of its own. `MallocCalls` says what a call returns in any
interleaving, from the lists as that call found them. A step groups accesses only where no other
thread can come between: `Carve`, `SplitLocal`, `SplitGlobal` and `MapPages` write the headers of blocks that the
thread holds off every list, `WalkLocal` and `CutLocal` read and relink the slot's list under the slot's lock, and
`WalkGlobal` and `CutGlobal` the global list under the global lock (`MutualExclusion`, `OnePlace`, `OthersKeep`).
`MallocSequential` is a class with linked lists in the modelled memory whose method `Malloc` says
exactly what one call does. Live threads have different slots (`tid % 64`), as the code needs: the head is read before
the slot's lock is taken and used after it. `vmalloc` returns NULL or a fresh page-aligned region. `size_t` wraps
around at 2^64.

**gpt** (`Gpt*.dfy`) is a transformer forward pass over one float arena, with a thread for each position in three of
its kernels. Floats are any type with any deterministic operations (`GptRows.Ops`), so every equality is exact.
`GptThreads.Run` is the memory that a schedule of single steps leaves, and `ForkJoin` runs the threads under a schedule
of its own choosing. The three threaded kernels are proved to compute their rows under it, and any two schedules that
bring the threads to their ends to leave the same memory (`SameEnd`). `GptLoops` has the other kernels as loops,
`GptArena` the layout, `GptLayer`, `GptForward` and `GptModel` the calls of `gpt2_forward` composed in the arena, and
`GptNetwork` the function of the tokens that they compute. Causality is proved about that function and carried back to
the memory of two passes of different lengths (`GptGenerate.CausalMemory`). `GptGenerate` has the loop that generates
tokens, `GptSoftmax` the claims that need real numbers. `GptCells` states over exact reals what each kernel leaves in
the cells of the arena, address by address, and `GptWiring` how the kernels are put together.

**libkvdb** (`Kvdb*.dfy`) is a buffered append-only log. `KvdbLog` has the record format and its replay, `KvdbModel`
the database as a value and theorems over all runs of puts, gets and flushes, `Kvdb` the file and database as classes
whose methods are proved to do what the values do. The file offset is part of the state. `kvdb_open` neither seeks nor
opens for appending, so a put into a reopened log can overwrite it: `ReopenThenPut` says exactly when for one put,
`ReopenLosesRecord` gives the smallest example, and `ReopenedDatabase` shows that a get first is enough. `KvdbReopen`
has the exact condition on any operations, and what happens to a log that a crash cut short when it is used again.
`KvdbStrings` says what a caller gets back in terms of the strings that were put.

**labyrinth** (`Labyrinth*.dfy`) has recursive connectivity, moves of players over whole sessions, and a map file. The
lower and right bounds of a step are off by one. `MoveStaysInsideExactly` says for which mazes a move then takes the
player out, `KeepsExactly` what a caller can see of that before the run, whatever the uninitialised array holds, and
`RunLosesPlayer` runs the program on the smallest such file. Sessions are proved safe on mazes whose last row and
column are walls, where that cannot happen; with a wall all round players stay strictly inside.
`LoadUndoesSaveExactly` says for which mazes reading undoes writing. `SessionOnFile` puts the parts together: a
sequence of runs of the program on a map file is the same sequence of moves on the maze.

**fsrecov** (`Fsrecov*.dfy`) scans directory clusters of a FAT32 volume (Microsoft FAT32 File System Specification,
version 1.03, sections "FAT Long Directory Entries" and "Organization and Association of Short & Long Directory
Entries") and puts groups of entries together that cross clusters. `FsrecovCut` shows that a cluster is cut in the only
possible way, `FsrecovMerge` what the nested merge comes to suffix by suffix, and `FsrecovRecovery` that a directory
written as the specification says is recovered group by group, wherever its clusters are.

**httpd** (`HttpdMonitor.dfy`) is the monitor that admits at most four handler threads, as a step machine with failing
accepts, allocations and thread creations and with spurious wakeups.

**pstree** (`Pstree*.dfy`) builds sorted linked lists of children and prints them recursively. The lists are real
linked nodes in `Pstree`; `PstreeForest` is the forest that they hold, and `PstreePids` says what lists and printout
are in terms of pids and parent pids alone.

**sperf** (`Sperf*.dfy`) reads system-call traces with a character machine and adds them up in a table. `SperfTrace` is
what it makes of any bytes, including the ones that make it write past an array; `Sperf` is the profiler as a class.

Where the code and its comments disagree, the code is followed: in sperf `qsort` is given a comparison that is not an
order, so a sort is any permutation.

## Model

| member | source | states |
|---|---|---|
| MallocSizes.RoundUp8 | mymalloc/mymalloc.c:46 | The rounded size is a multiple of 8 not below the request, or 0 for the requests whose rounding wraps around. |
| MallocSizes.FallbackLength | mymalloc/mymalloc.c:153 | The fallback asks for whole pages that hold header and request, unless the sum wraps around. |
| MallocSizes.CoversExactly | mymalloc/mymalloc.c:153 | A served block is large enough exactly for requests of at most 2^64 - 24 bytes. |
| MallocHeap.UnlinkLocalOk | mymalloc/mymalloc.c:91-92 | Unlinking a block from a slot's list keeps every list linked, every block in one place and every region covered. |
| MallocHeap.UnlinkGlobalOk | mymalloc/mymalloc.c:123-124 | The same for the global list. |
| MallocHeap.SplitOk | mymalloc/mymalloc.c:96-105 | Cutting a held block in two leaves two blocks that exactly cover it and disturbs nothing else. |
| MallocHeap.AddRegionOk | mymalloc/mymalloc.c:57 | A fresh region enters the heap as one held block without touching the others. |
| MallocSteps.OtherThread | mymalloc/mymalloc.c:44-161 | As long as the lists and blocks a thread relies on are untouched, its assertions stay true at every point of the code. |
| MallocSafety.OthersKeep | mymalloc/mymalloc.c:44-161 | Every step of a thread, at any point of the code, leaves those of every other thread untouched. |
| MallocSteps.SplitPointOk | mymalloc/mymalloc.c:96-99 | The remainder begins right behind the payload, aligned, with room for a header when it is used. |
| MallocSafety.StepDefined | mymalloc/mymalloc.c:44-161 | Under the invariant no step follows a dangling or null pointer. |
| MallocSafety.ActionInv | mymalloc/mymalloc.c:44-161 | Every action of every thread, including starting and ending, keeps the invariant. |
| MallocSafety.RunInv | mymalloc/mymalloc.c:44-161 | The invariant holds in every state of every interleaving, and between any two states of it what was handed out keeps its place and size, grants are only added and regions stay. |
| MallocSafety.GrantedBlock | mymalloc/mymalloc.c:108 | A returned pointer is the payload of a handed-out block that holds the request. |
| MallocSafety.ReturnedPayloads | mymalloc/mymalloc.c:108-160 | Pointers returned at any two moments are 8-aligned and their requested bytes do not overlap. |
| MallocSafety.ReturnedIsPrivate | mymalloc/mymalloc.c:108-160 | Requested bytes lie in a region that vmalloc gave and hold no header of any block. |
| MallocSafety.OnePlace | mymalloc/mymalloc.c:88-147 | Every block is handed out, in transit, or on exactly one list, where it stands once. |
| MallocSafety.WalkEnds | mymalloc/mymalloc.c:88-147 | The 64 local lists and the global list are acyclic and end in NULL, so every walk ends. |
| MallocSafety.RegionTiled | mymalloc/mymalloc.c:57-79 | From any block start of a region every further byte is in some block of the region. |
| MallocSafety.ExactTiling | mymalloc/mymalloc.c:57-79 | Every byte of a mapped region is in exactly one block. |
| MallocSafety.MutualExclusion | mymalloc/mymalloc.h:12-21 | Each lock has at most one holder, and only the holder is inside its section. |
| MallocSafety.NoDeadlock | mymalloc/mymalloc.c:75-135 | Despite the two lock orders a blocked thread waits for the global lock only, and that lock's holder can move. |
| MallocSafety.CallsEnd | mymalloc/mymalloc.c:44-161 | Each own step of a thread inside mymalloc lowers a measure that no other thread's step raises. |
| MallocCalls.CallBegins | mymalloc/mymalloc.c:44-51 | A call with a positive size is under way after its first step; one with size 0 changes nothing. |
| MallocCalls.CallReturns | mymalloc/mymalloc.c:86-160 | Whatever other threads do meanwhile, the last step of a call hands out the first fit of the slot's list as it was when the call began; if there was none, the first fit of the global list as the call read it; if there was none either, fresh pages, or NULL if vmalloc gave none; cut to size, with the lists as they are then. |
| MallocCalls.PagesOnlyWithoutFit | mymalloc/mymalloc.c:150-160 | Fresh pages are asked for only when no block of either list, as the call found it, was large enough. |
| MallocCalls.GrantsEndCalls | mymalloc/mymalloc.c:108-160 | Nothing is handed out but by the last step of a call, and then one block for the size it was called with. |
| MallocCalls.RefillGives | mymalloc/mymalloc.c:51-83 | A call that finds its list empty leaves there three blocks of 4096 bytes cut from the front of a fresh chunk, and a tail of 4000 on the global list, before it looks for a block; or nothing if vmalloc gave none. |
| MallocCalls.SplitPointExactly | mymalloc/mymalloc.c:95-99 | A block is split exactly when more than a header is left over. |
| MallocSequential.Allocator.Walk | mymalloc/mymalloc.c:88-114 | Finds the first block of the list that is large enough, and its predecessor, or that there is none. |
| MallocSequential.Allocator.CutRemainder | mymalloc/mymalloc.c:95-106 | The rest of a held block, if it can hold a header, becomes the first block of the slot's list. |
| MallocSequential.Allocator.TakeLocal | mymalloc/mymalloc.c:89-110 | The block at a position leaves the local list and is cut to size; everything else stays. |
| MallocSequential.Allocator.TakeGlobal | mymalloc/mymalloc.c:122-144 | The same for the global list, the rest going to the local list. |
| MallocSequential.Allocator.CarveOne | mymalloc/mymalloc.c:63-68 | One block is cut off the raw rest of a chunk and put in front of the list. |
| MallocSequential.Allocator.ShareTail | mymalloc/mymalloc.c:71-79 | The raw rest becomes a block of the global list. |
| MallocSequential.Allocator.Refill | mymalloc/mymalloc.c:54-82 | An empty slot gets three blocks of 4096 bytes and the global list a tail of 4000, or nothing if vmalloc fails. |
| MallocSequential.Allocator.FreshPages | mymalloc/mymalloc.c:153-160 | A region of its own is handed out whole. |
| MallocSequential.Allocator.Malloc | mymalloc/mymalloc.c:44-161 | First fit in the local list as read at entry, else first fit in the global list, else fresh pages; the whole new heap is stated in each case. |
| GptThreads.RunFine | gpt/gpt.c:103-108 | Under any schedule, after any number of steps, every thread's assertion is true of the shared memory and nothing unowned has changed. |
| GptThreads.ForkJoin | gpt/gpt.c:103-108 | However the threads' steps interleave they all end, each with its own final assertion true of the shared memory, and nothing unowned has changed. |
| GptMatmul.StepIsFine | gpt/gpt.c:123-136 | Each step of a matmul thread stores in its own row only and keeps its dot products right while others store elsewhere. |
| GptMatmul.Forward | gpt/gpt.c:138-159 | Under any scheduler every output is the dot product of its row, and nothing else changes. |
| GptMatmul.AnySchedule | gpt/gpt.c:138-159 | Every schedule that brings the threads to their ends leaves the dot products. |
| GptMatmul.SameEnd | gpt/gpt.c:138-159 | Any two such schedules leave the same memory. |
| GptLayerNorm.StepIsFine | gpt/gpt.c:57-83 | Each step of a layernorm thread stores in its own row, mean or rstd only and keeps its sums right. |
| GptLayerNorm.Forward | gpt/gpt.c:85-109 | Under any scheduler rows, means and rstds are those of the input rows, and nothing else changes. |
| GptLayerNorm.SameEnd | gpt/gpt.c:85-109 | Any two schedules that bring the threads to their ends leave the same memory. |
| GptAttention.StepIsFine | gpt/gpt.c:173-231 | Each step of an attention thread, in any of its four passes, stores in its own cells only and keeps its passes right. |
| GptAttention.InvIsStable | gpt/gpt.c:173-231 | What a thread has established survives the stores of all other threads. |
| GptAttention.Forward | gpt/gpt.c:233-289 | Under any scheduler scores, weights and outputs of every head are those of rows 0..t, and nothing else changes. |
| GptAttention.SameEnd | gpt/gpt.c:233-289 | Any two schedules that bring the threads to their ends leave the same memory. |
| GptAttention.OutputRow | gpt/gpt.c:217-229 | Read as one row, the outputs of position t are the heads' mixes of rows 0..t side by side. |
| GptLoops.EncoderForward | gpt/gpt.c:19-42 | The first residual stream is token plus position embedding, row by row. |
| GptLoops.GeluForward | gpt/gpt.c:293-300 | Every cell is the GELU of its input; nothing else changes. |
| GptLoops.ResidualForward | gpt/gpt.c:331-335 | Every cell is the sum of its two inputs; nothing else changes. |
| GptLoops.SoftmaxForward | gpt/gpt.c:337-363 | Every row is the softmax of its logits row; nothing else changes. |
| GptLoops.SampleMult | gpt/gpt.c:688-699 | The first index whose running sum passes one half, or else the last. |
| GptLoops.ChosenOnce | gpt/gpt.c:688-699 | The probabilities determine that index. |
| GptArena.MallocAndPoint | gpt/gpt.c:390-410 | Each tensor starts where the one before it ends. |
| GptArena.TensorsApart | gpt/gpt.c:438-456 | Different tensors do not overlap and are inside the arena. |
| GptArena.TensorAt | gpt/gpt.c:438-456 | Every address of the arena belongs to a tensor. |
| GptArena.LayerLaid | gpt/gpt.c:636-652 | For every layer and length, the sixteen regions a layer stores to are in range, disjoint, and apart from what it reads. |
| GptArena.LayerWeightsFit | gpt/gpt.c:622-634 | Every layer's weights are inside the parameter arena. |
| GptLayer.AttendForward | gpt/gpt.c:655-659 | Five kernel calls in the arena compute the attention half of a layer and store in its regions only. |
| GptLayer.FeedForward | gpt/gpt.c:660-664 | Five more compute the feed-forward half and store in its regions only. |
| GptLayer.LayerForward | gpt/gpt.c:618-665 | The body of the loop over layers maps the residual stream by the layer's function. |
| GptForward.StreamOutsideLayer | gpt/gpt.c:618-665 | A layer stores nothing in the residual streams before it. |
| GptModel.Model.constructor | gpt/gpt.c:495-556 | The parameter arena is pointed into by prefix sums and begins with the file, all of it when the file is long enough; what a short file leaves unread is arbitrary. |
| GptModel.Model.Forward | gpt/gpt.c:558-670 | The activations hold the residual stream after every layer, the logits and the probabilities of the network on these tokens. |
| GptNetwork.AttendedPrefix | gpt/gpt.c:655-659 | The attention half on a prefix is the prefix of the attention half. |
| GptNetwork.StreamPrefix | gpt/gpt.c:618-665 | So it is for any number of layers, by induction. |
| GptNetwork.Causality | gpt/gpt.c:558-670 | Two runs of any lengths whose tokens agree up to p have the same row p in every residual stream, in the logits and in the probabilities. |
| GptGenerate.SampleLast | gpt/gpt.c:730-731 | The sample is taken from the row of the last token. |
| GptGenerate.Generate | gpt/gpt.c:704-735 | Fails without a prompt or with one too long; otherwise every generated token is the one the network chooses from the tokens before it. |
| GptGenerate.OnePassAgrees | gpt/gpt.c:728-732 | One pass over all tokens chooses each generated token again at its position. |
| GptGenerate.SameTokens | gpt/gpt.c:728-732 | The prompt determines every generated token. |
| GptGenerate.CausalMemory | gpt/gpt.c:569-591 | The activations of two passes of different lengths hold the same floats at row p, although strides and offsets differ. |
| GptSoftmax.SoftmaxIsDistribution | gpt/gpt.c:337-363 | Over the reals with any positive exp, a softmax row is positive and sums to 1. |
| GptSoftmax.AttentionIsDistribution | gpt/gpt.c:199-215 | Attention is positive up to the row itself, zero beyond and sums to 1; the guard against a zero sum is never taken. |
| GptSoftmax.StoredAttention | gpt/gpt.c:206-215 | The cells that attention_forward leaves in memory for a head and position are positive up to the position, zero beyond, and sum to 1. |
| GptSoftmax.SampleIsMedian | gpt/gpt.c:688-699 | On a softmax row exactly the least index whose cumulative probability exceeds one half is sampled; the fallback is not used. |
| GptSoftmax.GeneratedMedian | gpt/gpt.c:728-732 | So it is for every token a run generates. |
| GptCells.SoftmaxCells | gpt/gpt.c:337-363 | The stored cells of a position are positive and sum to 1, are ordered as their logits, and are to each other as the exponentials of their logits. |
| GptCells.ModelProbabilities | gpt/gpt.c:669 | So it is for the logits and probabilities that a forward pass leaves. |
| GptCells.MatmulCell | gpt/gpt.c:123-136 | An output cell is the bias, if there is one, plus the sum of input times weight. |
| GptCells.ScoreCells | gpt/gpt.c:186-197 | A stored score times the root of the head size is the sum of query times key, at their addresses in the rows of the input. |
| GptCells.WeightCellsOf | gpt/gpt.c:199-212 | The stored attention weights are ordered as the scores and are to each other as their exponentials. |
| GptCells.WeightCellsSum | gpt/gpt.c:206-215 | Beyond the position they are 0, and the T cells of a head and position sum to 1. |
| GptCells.MixCells | gpt/gpt.c:217-229 | An output cell is the sum of the stored weights times the values, at their addresses. |
| GptCells.MomentsOf | gpt/gpt.c:61-82 | The stored mean and rstd: the entries' sum over C, and the positive number whose square times variance plus epsilon is 1. |
| GptCells.NormCells | gpt/gpt.c:74-78 | A normalised cell is the distance from the stored mean, times the stored rstd, times the weight, plus the bias. |
| GptCells.OnesBalance | gpt/gpt.c:74-78 | With all weights 1 the normalised entries less their biases sum to 0. |
| GptCells.ZeroLeavesBias | gpt/gpt.c:76 | A weight of 0 leaves the bias. |
| GptCells.EncoderCell | gpt/gpt.c:19-42 | A cell of the first stream is the sum of two cells of the embedding tables, at the token's and the position's row. |
| GptCells.ResidualCell | gpt/gpt.c:331-335 | A cell is the sum of the two cells at its offset. |
| GptCells.GeluCell | gpt/gpt.c:293-300 | A cell is half its input times one plus the tanh of the scaled cubic. |
| GptWiring.FirstRows | gpt/gpt.c:617 | After a forward pass the first stream is, row by row, the token's row of the first tensor of weights plus the position's row of the second. |
| GptWiring.StreamFollows | gpt/gpt.c:618-665 | Each later stream is computed from the one before it by normalisation, attention, feed-forward and two residual additions, with the l-th slices of the twelve layered tensors of weights. |
| GptWiring.LastRows | gpt/gpt.c:666-669 | The logits are the last stream, normalised with the last two tensors, times the token embeddings, and the probabilities their softmax. |
| KvdbLog.DecodeUndoesEncode | libkvdb/kvdb.c:153-217 | Replaying the encoding of any records yields these records. |
| KvdbLog.DecodePrefix | libkvdb/kvdb.c:153-187 | Replaying any byte prefix of a log yields exactly the records wholly inside it. |
| KvdbLog.WholeRecordsFit | libkvdb/kvdb.c:153-187 | Those are the longest run of records whose encoding fits into the prefix. |
| KvdbLog.TornRecord | libkvdb/kvdb.c:157-187 | A record cut anywhere is not read as a record. |
| KvdbLog.TableIsLastWrite | libkvdb/kvdb.c:190-216 | The entry table has unique keys and looking a key up gives its last write. |
| KvdbModel.FlushAppendsExactly | libkvdb/kvdb.c:37-53 | A flush appends exactly when the buffer is empty or the offset is at the end of the file. |
| KvdbModel.PutAppends | libkvdb/kvdb.c:106-131 | A put leaves the record behind whatever was not flushed. |
| KvdbModel.CopiedFits | libkvdb/kvdb.c:222-227 | Value and NUL fit into the length the caller names exactly when it is not 0. |
| KvdbModel.BufferFits | libkvdb/kvdb.c:137-227 | A buffer of the named length is large enough for every get with length 1 or more, and with length 0 only when the key is not found. |
| KvdbModel.RunLogExactly | libkvdb/kvdb.c:106-150 | Over any run from any state, file and buffer are the old log and every put in order exactly when no operation flushed while the offset was inside the file. |
| KvdbModel.AnswerFromLog | libkvdb/kvdb.c:137-240 | A get answers with the last value in the log for the key, cut to the caller's buffer. |
| KvdbModel.FreshDatabase | libkvdb/kvdb.c:86-240 | From an empty file, after any run, file and buffer encode the puts in order, the offset is at the end of the file, and a get returns the last value put. |
| KvdbStrings.GetsLastPut | libkvdb/kvdb.c:106-240 | From an empty file, after any operations on strings shorter than 2^32 bytes, a get answers with the string last put for that key, cut to the caller's buffer, or with -1 if there was none. |
| KvdbStrings.GetsLastPutOfBoth | libkvdb/kvdb.c:86-240 | So it does over two sessions with a close between them, if the second begins with a get. |
| KvdbStrings.ClipExactly | libkvdb/kvdb.c:108-109 | A string is stored as it is exactly when its length fits 32 bits. |
| KvdbStrings.RecordLayout | libkvdb/kvdb.c:108-131 | A put's record is the two lengths, four bytes each with the lowest first, then the key, then the value. |
| KvdbModel.ReopenedDatabase | libkvdb/kvdb.c:86-150 | A database reopened on a log behaves as if never closed if a get comes first. |
| KvdbModel.ReopenThenPut | libkvdb/kvdb.c:86-131 | Without it the first flush of a put appends exactly when the file was empty. |
| KvdbModel.ReopenLosesRecord | libkvdb/kvdb.c:91 | A concrete log whose record is lost that way. |
| KvdbReopen.ReopenSafeExactly | libkvdb/kvdb.c:86-150 | On a file with contents no operation writes inside it exactly when a get comes before every put, or all operations from the first put on are puts that fit the buffer. |
| KvdbReopen.ReopenAppendsExactly | libkvdb/kvdb.c:86-150 | Under that condition and no other, file and buffer are the old contents followed by the puts. |
| KvdbReopen.DecodeExactly | libkvdb/kvdb.c:153-187 | Bytes replay as given records exactly when they begin with their encoding and the rest begins with no whole record. |
| KvdbReopen.TornReopened | libkvdb/kvdb.c:86-217 | After a get on a log with a torn tail the puts go behind the torn bytes: the old records stay, and what follows is read from the torn bytes on. |
| KvdbReopen.TornReadsBackExactly | libkvdb/kvdb.c:153-187 | Records behind torn bytes are read back exactly when their encoding, so shifted, begins with itself and leaves no whole record. |
| KvdbReopen.TornLosesRecord | libkvdb/kvdb.c:106-187 | One torn byte, after which a put is never found. |
| KvdbModel.BufferBounded | libkvdb/kvdb.c:56-84 | Size is at most capacity, and capacity at most the larger of 4096 and twice the largest record, after any run. |
| Kvdb.File.ReadExact | libkvdb/kvdb.c:21-34 | Whatever reads are interrupted or short, it returns the next bytes, fewer only at the end of the file. |
| Kvdb.Database.Flush | libkvdb/kvdb.c:37-53 | Does to file, offset and buffer what the model's flush does. |
| Kvdb.Database.AppendToBuffer | libkvdb/kvdb.c:73-84 | Appends the bytes, growing the buffer if they do not fit. |
| Kvdb.Database.Put | libkvdb/kvdb.c:106-131 | Does what the model's put does. |
| Kvdb.Database.ReadRecord | libkvdb/kvdb.c:154-188 | Reads the next whole record, or stops at the end of the file. |
| Kvdb.Database.ReadAll | libkvdb/kvdb.c:152-217 | The entries are the table of the decoded file. |
| Kvdb.Database.Get | libkvdb/kvdb.c:137-240 | Does what the model's get does and answers what the model answers, for any buffer that holds what is copied. |
| LabyrinthMaze.ConnectedFromOne | labyrinth/labyrinth.c:336-361 | A maze is connected exactly when one open cell reaches all others. |
| LabyrinthMoves.FailedMove | labyrinth/labyrinth.c:228-293 | A failed move changes nothing. |
| LabyrinthMoves.Placement | labyrinth/labyrinth.c:233-243 | A player not in the maze goes to the first `.` in row order; nothing else changes. |
| LabyrinthMoves.StepSwaps | labyrinth/labyrinth.c:249-291 | A successful step swaps the player with a `.` beside it and touches nothing else. |
| LabyrinthMoves.MoveByLetter | labyrinth/labyrinth.c:249-291 | A move whose direction begins with u, d, l or r leaves the player one row up, one row down, one column left or one column right, and all other cells as they were; any other direction fails. |
| LabyrinthMoves.MoveWhenFree | labyrinth/labyrinth.c:249-291 | It succeeds exactly when the cell there holds `.`; going up from the first row or left from the first column fails. |
| LabyrinthMoves.MoveDefinedExactly | labyrinth/labyrinth.c:249-284 | A move indexes outside the array exactly when it goes down from row 99 or right from column 99. |
| LabyrinthMoves.MoveStaysInsideExactly | labyrinth/labyrinth.c:249-291 | A player is still in the maze after its move exactly unless it goes down from the last row or right from the last column and the array holds a `.` there. |
| LabyrinthMoves.OthersStay | labyrinth/labyrinth.c:228-293 | A move of one player leaves every other where it was. |
| LabyrinthMoves.SessionSafe | labyrinth/labyrinth.c:228-293 | Over any session on a maze whose last row and column are walls the walls, the open cells and the connectivity stay, and players stay unique and in front of them; with a wall all round they stay strictly inside. |
| LabyrinthMoves.PlayerStays | labyrinth/labyrinth.c:228-293 | A player in such a maze is still in it after its own move. |
| LabyrinthFile.LoadUndoesSaveExactly | labyrinth/labyrinth.c:144-187 | Reading undoes writing exactly for grids of at most 100 rows and 99 columns without newline or NUL in a cell. |
| LabyrinthFile.ChunkOfLine | labyrinth/labyrinth.c:152-156 | A line that leaves room for its newline is read whole; one that fills the buffer of fgets is not. |
| LabyrinthFile.SpoiltLine | labyrinth/labyrinth.c:156-164 | A line with a newline or NUL in it comes back shorter. |
| Labyrinth.Labyrinth.FindFirst | labyrinth/labyrinth.c:189-219 | The first cell with the character in row order, or that there is none. |
| Labyrinth.Labyrinth.MovePlayer | labyrinth/labyrinth.c:228-293 | Leaves the maze that the move of the model leaves, with the same answer. |
| Labyrinth.Labyrinth.Dfs | labyrinth/labyrinth.c:314-334 | Marks exactly the cells reachable through open cells that were not marked; ends because the unmarked ones decrease. |
| Labyrinth.Labyrinth.IsConnected | labyrinth/labyrinth.c:336-361 | True exactly when there is an open cell and any two open cells are joined by a path of open cells. |
| Labyrinth.Labyrinth.SaveMap | labyrinth/labyrinth.c:295-311 | Writes the rows, each with a newline. |
| Labyrinth.Labyrinth.LoadMap | labyrinth/labyrinth.c:144-187 | Accepts exactly what the file model accepts and holds what was read. |
| LabyrinthSession.LoadedRectangular | labyrinth/labyrinth.c:144-187 | A file that loads has lines of one width exactly when its first line is not empty, or all are. |
| LabyrinthSession.KeepsExactly | labyrinth/labyrinth.c:144-291 | For a loaded map, whatever the uninitialised array holds, the player is still in the maze after its move exactly when it does not go down from the last row or right from the last column. |
| LabyrinthSession.RunLosesPlayer | labyrinth/labyrinth.c:83-122 | On the file with the one cell `0`, moving right removes the player from the file when the uninitialised array holds a `.` behind the cell, and is refused otherwise. |
| LabyrinthSession.InvokeIsMove | labyrinth/labyrinth.c:83-122 | One run of the program on a saved maze whose last row and column are walls is one move, whatever the uninitialised array held. |
| LabyrinthSession.SessionOnFile | labyrinth/labyrinth.c:83-122 | Any sequence of runs on such a map file plays the corresponding moves on the maze. |
| FsrecovEntry.KindsExclusive | fsrecov/fsrecov.c:131-167 | No slot passes both validators exactly when the cluster numbers of the volume fit in 16 bits. |
| FsrecovEntry.SlotBytes | fsrecov/fsrecov.c:131-167 | Which 32 bytes pass the validators: sequence numbers of 1 to 20 with or without bit 6; clusters of the volume and at most 64 MB, each number with its lowest byte first. |
| FsrecovEntry.CalculateNameChecksum | fsrecov/fsrecov.c:182-190 | The loop computes the recursive checksum. |
| FsrecovEntry.ChecksumOfNext | fsrecov/fsrecov.c:186-187 | For each byte the sum is halved, the bit that falls out worth 128, and the byte added, modulo 256. |
| FsrecovEntry.RoundInjective | fsrecov/fsrecov.c:186-187 | A rotate-and-add round is a bijection of the running sum and of the byte. |
| FsrecovEntry.OneByteMatters | fsrecov/fsrecov.c:182-190 | Names that differ in exactly one byte have different checksums. |
| FsrecovCut.ScanCuts | fsrecov/fsrecov.c:351-368 | The loop cuts the slots into groups of long entries closed by one short entry, then long entries up to the first slot of neither kind. |
| FsrecovCut.CutUnique | fsrecov/fsrecov.c:351-368 | There is only one such cut. |
| FsrecovScan.ClusterCut | fsrecov/fsrecov.c:327-376 | Head part, groups and tail part cover the cluster up to the stop without gap or overlap; a head that claims more slots than the cluster has is recorded as it claims, and nothing else is taken. |
| FsrecovScan.HeadsFit | fsrecov/fsrecov.c:331-340 | Heads fit their clusters, whatever these hold, exactly when a cluster has at least 21 slots. |
| FsrecovScan.LargeClusters | fsrecov/fsrecov.c:331-340 | With such clusters a scan of any volume stays inside it. |
| FsrecovScan.Scanner.ScanHead | fsrecov/fsrecov.c:331-347 | The head suffix is recorded with the length its first slot tells. |
| FsrecovScan.Scanner.ScanDirectoryCluster | fsrecov/fsrecov.c:327-376 | Head part and tail part are recorded and exactly the groups between them analysed, in order. |
| FsrecovScan.Scanner.PerformFullScan | fsrecov/fsrecov.c:378-388 | All directory clusters are scanned in order, then the parts are resolved. |
| FsrecovScan.Scanner.ResolvePendingEntries | fsrecov/fsrecov.c:216-249 | The nested loops with null-marking analyse what first matches say. |
| FsrecovMerge.ResolvedIsOutcomes | fsrecov/fsrecov.c:216-249 | Suffix by suffix: merged with the lowest compatible prefix and no other, else alone if it is one slot, else dropped; never twice. |
| FsrecovRecovery.WindowCut | fsrecov/fsrecov.c:327-376 | A cluster holding the end of a group, whole groups and the beginning of a group is cut into exactly these. |
| FsrecovRecovery.EveryGroupOnce | fsrecov/fsrecov.c:378-388 | If no two cut groups share a checksum, every group of a well-formed directory is analysed whole and once, and nothing else is. |
| HttpdMonitor.RunInv | httpd/httpd.c:81-120 | The invariant holds in every state of every interleaving of accept loop and handlers. |
| HttpdMonitor.Bounded | httpd/httpd.c:90-120 | thread_count stays in 0..4 and is the number of handlers not past their decrement, less one just created. |
| HttpdMonitor.WaitsForReason | httpd/httpd.c:91-93 | A loop that waits unsignalled has four live handlers or one about to signal. |
| HttpdMonitor.NumbersIncrease | httpd/httpd.c:95-97 | Handlers get strictly increasing sequence numbers, although failures use numbers up. |
| HttpdMonitor.PassServes | httpd/httpd.c:90-120 | From a successful accept to the next, whatever handlers do meanwhile: the request gets the next number; exactly if neither malloc nor pthread_create fails one handler is created for it and counted; and thread_count falls by the handlers that ended. |
| HttpdMonitor.MutualExclusion | httpd/httpd.c:315-319 | No two threads are inside the mutex. |
| HttpdMonitor.NoDeadlock | httpd/httpd.c:90-120 | In every reachable state some thread can move without a spurious wakeup. |
| HttpdMonitor.WaitEnds | httpd/httpd.c:315-319 | However handlers are scheduled, a waiting loop is signalled before they run out of steps. |
| Pstree.Tree.PIndex | pstree/pstree.c:68-75 | The first entry with the pid. |
| Pstree.Tree.FindPlace | pstree/pstree.c:94-101 | The walk ends at the sorted place and stores the two links there, no others. |
| Pstree.Tree.BuildList | pstree/pstree.c:77-101 | The entry is inserted at its place in one list; all other lists stay. |
| Pstree.Tree.BuildTree | pstree/pstree.c:103-119 | The list of i holds, each once and in ascending order of pid, exactly the entries j that are not init and name the pid of i as their parent, or a pid that nobody has while i is init; where pids repeat, the first entry with a pid stands for it. |
| Pstree.Tree.PrintTree | pstree/pstree.c:121-143 | Ends, and prints the entry and then its children's subtrees in list order. |
| Pstree.Tree.Run | pstree/pstree.c:180-187 | Builds and prints from init, or prints nothing without one: init first and alone at depth 0, every other line one level below the line of its parent with only deeper lines between, no child of a printed process left out, none twice; with one init all processes, exactly when there is no cycle of parent pids. |
| PstreeForest.InsertAscending | pstree/pstree.c:86-101 | Insertion keeps a list in ascending order of pid. |
| PstreeForest.KidsExact | pstree/pstree.c:103-119 | A list holds exactly the processes with that parent, orphans with init, each once, in ascending order. |
| PstreePids.ParentIs | pstree/pstree.c:103-119 | The parent is the first entry with the pid named, or for a pid that nobody has the first with pid 1; init has none. |
| PstreePids.ChildByPid | pstree/pstree.c:103-119 | With distinct pids j hangs under i exactly when it is not init and names the pid of i, or names a pid that nobody has while i is init. |
| PstreeForest.SiblingsIncrease | pstree/pstree.c:86-101 | With distinct pids siblings increase strictly. |
| PstreeForest.DepthBound | pstree/pstree.c:121-143 | A chain of parents that ends at init is shorter than the table. |
| PstreeForest.PrintedExactly | pstree/pstree.c:121-143 | Printed are exactly the processes whose chain of parents reaches init, once each, at a depth that is the chain's length. |
| PstreeForest.AllPrinted | pstree/pstree.c:103-143 | With one init, every process has a line in what is printed exactly when there is no cycle of parents. |
| PstreePids.PrintedIsTree | pstree/pstree.c:121-143 | Printing from init shows the tree of parent pids, as stated for Run. |
| PstreePids.AcyclicIs | pstree/pstree.c:103-119 | A process is its own ancestor exactly when some processes, none of them init, name each other's pids as parents in a ring. |
| PstreePids.AllShownExactly | pstree/pstree.c:103-143 | With one init every process is shown exactly when there is no such ring. |
| Sperf.Profiler.FindTrace | sperf/sperf.c:29-34 | The first row with the name, or that there is none. |
| Sperf.Profiler.UpdateTrace | sperf/sperf.c:36-46 | Adds the time to the row of the name and to the total, with a new row if needed; fails exactly when all 400 rows are taken by other names. |
| Sperf.Profiler.DisplayTrace | sperf/sperf.c:52-66 | Shows up to five rows after any permutation, each with the largest whole percentage of the total that its time reaches; these come to at most 100. |
| Sperf.Profiler.ReadDigits | sperf/sperf.c:176-182 | Collects digits and dots until something else comes, or would write past the buffer. |
| Sperf.Profiler.ProcessParent | sperf/sperf.c:141-200 | On any bytes the loop leaves the table that the reader's definition gives, or overruns exactly when that does. |
| Sperf.Profile | sperf/sperf.c:141-200 | On well-formed lines: one row for each distinct name with that name's summed time, and no overrun exactly with at most 400 names. |
| Sperf.PercentsAtMost100 | sperf/sperf.c:57-60 | The whole percentages of any rows at the top come to at most 100. |
| SperfTrace.LineRead | sperf/sperf.c:149-195 | One well-formed line adds its time to its name, whatever follows. |
| SperfTrace.LinesRead | sperf/sperf.c:149-195 | Any well-formed lines are added up by name, exactly when their names fit into the table. |
| SperfTrace.TimesByName | sperf/sperf.c:36-46 | A name is in the table exactly when it occurs, and its time is the sum over its lines. |
| SperfTrace.AtofIsDecimal | sperf/sperf.c:189 | Digits, a dot and n digits read as the number that all the digits write, divided by 10^n, whatever follows; digits alone as the number they write. |

## Left out

- Failing writes, failing `fdatasync` and failing `realloc` or `malloc` in libkvdb: they leave partial records in the buffer.
- MallocSafety.RunInv: threads whose ids share a slot (`tid % 64`) are not admitted; memory is sequentially consistent.
- MallocSafety.ReturnedPayloads: requests above 2^64 - 24 bytes, whose rounding wraps around, are excluded; MallocSizes.CoversExactly says that these are exactly the ones that are not covered.
- `myfree` does nothing in the source and has no step in the model.
- GptModel.Model.Forward: the batch size is 1 and the number of heads divides the number of channels, as the threaded kernels assume; tokens are in the vocabulary and positions in the position table, which the source does not check.
- GptModel.Model.constructor: the checkpoint's header; the floats behind it are a parameter, as many as the file has.
- GptGenerate.Generate: parsing and printing of tokens.
- GptSoftmax.SoftmaxIsDistribution: rounding, since it is about exact reals, as is all of GptCells; everything else about gpt holds for any float operations.
- KvdbStrings.GetsLastPut: strings of 2^32 bytes or more, whose length does not fit its field; KvdbStrings.ClipExactly says that these are exactly the ones that are not stored as they are.
- Gradients, optimiser buffers and the commented-out threaded residual kernel in gpt; overflow of tensor sizes.
- Failing thread creation in the gpt kernels, and the address of a thread's argument block.
- Kvdb.File.ReadExact: interrupted reads come from a finite schedule, so endless interruption is excluded.
- Labyrinth.Labyrinth.LoadMap: the bytes that a 101st line would write past the array; such a file is refused.
- Options, usage texts and the drawing of the map in labyrinth, and its Python front end.
- FsrecovScan.Scanner.PerformFullScan: the slots that a head suffix claims lie inside the data area; in its last clusters a suffix of up to 21 slots may read behind it, for which C gives no meaning.
- FsrecovScan.Scanner.ResolvePendingEntries: the ten-element arrays of pending parts are sequences without a bound.
- FsrecovScan.Scanner.AnalyzeEntry: an event; the bitmap check, long-name decoding, file name patching and hashing are not modelled, nor is the parsing of the boot sector.
- Request parsing, CGI execution, socket options and log output of httpd; the log ordering is commented out in the source.
- Pstree.Tree.PrintTree: a printed line is the entry and its depth, not its text; reading `/proc` and freeing the lists are left out.
- Sperf.Profiler.ProcessParent: the clock and the sorts are parameters, times are exact reals, and after a write past an array nothing is said; starting strace and the printed text are left out.
- The labs crepl and testkit, both thread libraries and the tests.
