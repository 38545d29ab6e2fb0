# Verification of the vLLM core routines

A Dafny model of eight routines of vLLM whose correctness rests on ordering,
rollback, arithmetic at the edges or whole runs, with proofs of what they
promise. `dafny verify dfyconfig.toml` checks everything.

- **Sleep-mode allocator** (`ChunkPlan`, `RocmDevice`, `AllocatorRuns`,
  `DriverReplies`, `SleepAllocator`, with `MapParts` and `Division` as helpers). The ROCm path of
  `csrc/cumem_allocator.cpp`: an allocation is a reserved address range into
  which chunks of physical memory are mapped; sleeping gives the memory back and
  keeps the address. The methods of `Allocator` follow the code on a driver of
  which every call may fail; which replies make a call succeed is stated exactly.
  Each success is a step of an abstract machine whose runs are then reasoned
  about as a whole. The Python bookkeeping follows
  `vllm/device_allocator/cumem.py`.
- **Block store** (`BlockStore`, `BlockStoreCalls`). `csrc/fs_io.cpp` publishes
  cache blocks by writing a temporary file and renaming it. Storers and loaders
  run interleaved at the level of system calls, may crash anywhere, and any call
  may fail; the sequential methods refine the same steps.
- **Selective scan** (`ScanRecurrence`, `ScanKernel`, `PrefixCache`,
  `ScanLaunch`, `ScanGrid`, `ScanClosedForm`, `ScanResult`, `ChunkMetadata`,
  `PromptSteps`). The Triton kernel in `vllm/_xpu_ops.py`, which overwrites its
  own inputs in place, pads its state, stops at chunk ends to cache the state, and
  runs as a grid of programs, built from offsets, strides and cache tables, that
  are interleaved token by token. What it leaves in memory is also stated in closed
  form, without the recurrence. The tables come from `vllm/v1/attention/backends/mamba_attn.py`, and a prompt
  may be scanned over several scheduling steps.
- **Graph partition signatures** (`GraphPartition`, `GraphPartitionSemantics`).
  The backward pass in `vllm/env_override.py` that decides what each partition
  takes, frees and returns, and why a partitioned run computes the whole graph.
- **Int8 quantizer** (`Quantizer`), **build-time report** (`NinjaLog`,
  `BuildTimeSweep`), **spin wait** (`SpinWait`), **work queue** (`WorkQueue`).

Where a natural property is false of the code, the code is kept, an input at
which it fails is given, and the exact condition is proved:
`StaysStoredIffNobodyLoads` (`FreshBlockCanBeDeleted`),
`NoLostWakeUpIffInOneLine` (`StraddlingBufferLosesWakeUp`),
`RoundTripsIffZeroPointFits` (`ConstantRowBreaksTheBound`),
`RoundTripsIffEightBits` (`WideRow`), `ChunksCoverIff`
(`HugeChunkCoversNothing`), `RoundUpIff` and the division by zero in
`PlanChunks` (`LargestChunkRoundsToZero`), `EarliestIsLeastIff`
(`NegativeStartIsLost`).

A few invariants are written `Parts(...) == true`, which lets callers pass them
on as one proposition.

Where comments and code differ the model follows the code. `csrc/fs_io.cpp:36-39`
says the temporary file is removed on failure: the unlink may itself fail, and
its result is not looked at. `csrc/cumem_allocator.cpp:459-471` cleans up after a
failed mapping: after a failing access or zeroing call the chunks are still
mapped, so the range cannot be freed.

## Model

| member | source | states |
|---|---|---|
| `AllocatorRuns.RunKeepsInv` | csrc/cumem_allocator.cpp:346-474 | every run of malloc, sleep, wake and free keeps reserved ranges disjoint and makes handles and mappings exactly those of the start plus those of the allocations awake, none shared |
| `AllocatorRuns.StepKeepsInv` | csrc/cumem_allocator.cpp:346-806 | each of the four operations keeps that invariant |
| `AllocatorRuns.LiveRangesApart` | csrc/cumem_allocator.cpp:372-376 | in every reachable state a live allocation holds a reserved range of its own size that overlaps no other reserved range |
| `AllocatorRuns.ReachableInv` | csrc/cumem_allocator.cpp:184-203 | in every reachable state the mapped bytes are those mapped at the start plus the chunk bytes of the allocations awake, and no more |
| `AllocatorRuns.MappingsStayApart` | csrc/cumem_allocator.cpp:184-203 | in every reachable state the mapped intervals lie whole in reserved ranges and are pairwise apart, if those of the start are |
| `AllocatorRuns.MappedBytesCountAddresses` | csrc/cumem_allocator.cpp:184-203 | so the mapped bytes are the number of addresses that are mapped |
| `AllocatorRuns.StepKeepsBytes` | csrc/cumem_allocator.cpp:184-284 | malloc and wake add to the mapped bytes, and sleep and free take from them, exactly the chunk bytes of the one allocation, and the bytes awake follow |
| `AllocatorRuns.MappedBytesAreAwakeSizes` | csrc/cumem_allocator.cpp:346-474 | over every run whose mallocs tile, the bytes mapped beyond those of the start are the sum of the aligned sizes of the allocations awake |
| `AllocatorRuns.TiledRun` | csrc/cumem_allocator.cpp:394-416 | a run whose mallocs tile keeps every live allocation tiled, through sleep and wake |
| `AllocatorRuns.AwakeBytesTile` | csrc/cumem_allocator.cpp:394-416 | when the chunks tile the allocations, the bytes awake are the sum of their aligned sizes |
| `AllocatorRuns.BaseAddressKept` | csrc/cumem_allocator.cpp:704-728 | over any run that does not free it, an allocation keeps its address, its size and its reservation, however often it sleeps and wakes |
| `AllocatorRuns.FreeingAllRestores` | csrc/cumem_allocator.cpp:477-594 | from any state of the invariant, freeing all live allocations in any order, asleep or awake, makes no driver call that the driver has a reason to refuse, and leaves the device of the start |
| `AllocatorRuns.RunIsPermitted` | csrc/cumem_allocator.cpp:346-806 | in every run each single driver call, to reserve, map, unmap, release or free, one after the other, is one that the driver has no reason to refuse |
| `AllocatorRuns.TakeDownIsPermitted` | csrc/cumem_allocator.cpp:263-284 | every chunk of an allocation awake is mapped with its size and has its own handle, when its turn comes to be unmapped and released |
| `AllocatorRuns.BuildIsPermitted` | csrc/cumem_allocator.cpp:174-203 | with fresh handles and the range clear, each chunk can be mapped behind those before it |
| `AllocatorRuns.NothingLiveRestores` | csrc/cumem_allocator.cpp:477-594 | once nothing is live, reservations, handles and mappings are those of the start |
| `AllocatorRuns.AsleepCanBeFreed` | csrc/cumem_allocator.cpp:561-583 | nothing is mapped in the placeholder range of a sleeping allocation, so the driver has no reason to refuse freeing it |
| `AllocatorRuns.FreeAwakeKeepsInv` | csrc/cumem_allocator.cpp:565-583 | after unmapping and releasing its chunks the range of an allocation that was awake can be freed |
| `SleepAllocator.Allocator.ReserveAddress` | csrc/cumem_allocator.cpp:50-71 | gets a range exactly when the first try is granted, or the second, without alignment, happens to be aligned; failure changes nothing, unless giving back a misaligned range failed |
| `SleepAllocator.Allocator.CreateChunks` | csrc/cumem_allocator.cpp:174-183 | creates one fresh handle per chunk exactly when every reply is a success with a new handle, and otherwise releases those created and reports the failing status; an error pending on entry leaves at most one handle behind |
| `SleepAllocator.Allocator.MapChunks` | csrc/cumem_allocator.cpp:184-203 | maps every chunk behind the one before exactly when every reply is a success and every mapping possible, and otherwise unmaps the chunks mapped so far, releases all handles and reports the failing status |
| `SleepAllocator.Allocator.CreateAndMap` | csrc/cumem_allocator.cpp:174-237 | which exit it takes, by the replies, and the device there: all chunks mapped, taken down again after a create or map failure, left mapped after an access or zeroing failure |
| `SleepAllocator.RolledBack` | csrc/cumem_allocator.cpp:176-201 | after a create or map failure at any chunk, with the clean-up calls honoured, the device is what it was before the call |
| `SleepAllocator.Allocator.UnmapAndRelease` | csrc/cumem_allocator.cpp:263-284 | one unmap and one release per chunk whatever fails, the effect of exactly those that succeeded, and the first error reported |
| `SleepAllocator.Allocator.Rereserve` | csrc/cumem_allocator.cpp:711-727 | succeeds exactly when the range is freed and the same one is handed out again; a failure names which of three devices is left, one without the placeholder |
| `SleepAllocator.Allocator.PutToSleep` | csrc/cumem_allocator.cpp:700-738 | succeeds exactly when no error was pending, every chunk was unmapped and released and the range came back, and then is the abstract sleep step; the record counts as asleep either way and the error is always reset |
| `SleepAllocator.Allocator.WakeUp` | csrc/cumem_allocator.cpp:794-808 | succeeds exactly when no error was pending and the replies build all chunks, and then is the abstract wake step; on failure the device is that of create_and_map's exit, the record stays asleep and the error is reset |
| `SleepAllocator.Allocator.Release` | csrc/cumem_allocator.cpp:477-594 | frees the range exactly when its reply is a success and nothing is left mapped in a range of the caller's size, which is the abstract free step if every chunk went; otherwise the range stays reserved and the error says why; an unknown pointer changes nothing |
| `SleepAllocator.Allocator.RecordAndMap` | csrc/cumem_allocator.cpp:437-471 | the device at every exit of create_and_map, whether or not its clean-up calls were honoured, with the range then freed or not; never freed after an access or zeroing failure; the record stays in every case |
| `SleepAllocator.Allocator.MapReserved` | csrc/cumem_allocator.cpp:437-471 | from a range just reserved: success is the abstract malloc step, and each failure leaves the device of its exit |
| `SleepAllocator.DoneIsMalloc` | csrc/cumem_allocator.cpp:372-454 | reserving, creating, mapping and recording add up to an enabled abstract malloc step |
| `SleepAllocator.Allocator.Allocate` | csrc/cumem_allocator.cpp:346-474 | the outcome by callback, setting and replies: no range, a division by zero, no record, abandoned, or the abstract malloc step, exactly when the callback records and the replies grant an aligned range and build all chunks; the device left behind at each failure |
| `SleepAllocator.FirstChunkBlocks` | csrc/cumem_allocator.cpp:459-461 | with the first chunk still mapped the range cannot be freed |
| `SleepAllocator.SleepIsEmptying` | csrc/cumem_allocator.cpp:263-284 | when no call fails, unmapping and releasing removes exactly the allocation's chunks, and freeing then reserving the range changes nothing |
| `DriverReplies.DoneIffBuilds` | csrc/cumem_allocator.cpp:174-237 | create_and_map gets through exactly when all creations, mappings, the access and the zeroing call succeed |
| `DriverReplies.WillingDriverBuilds` | csrc/cumem_allocator.cpp:174-237 | replies that are all successes, with new handles, do build whatever the driver has no reason to refuse |
| `DriverReplies.WillingDriverTakesDown` | csrc/cumem_allocator.cpp:263-284 | and take down every chunk of an allocation that is awake |
| `SleepAllocator.WillingDriverSleeps` | csrc/cumem_allocator.cpp:700-738 | so such a driver puts an allocation to sleep |
| `SleepAllocator.WillingDriverFrees` | csrc/cumem_allocator.cpp:565-583 | frees it, asleep or awake |
| `SleepAllocator.WillingDriverAllocates` | csrc/cumem_allocator.cpp:437-454 | and builds a new one in the range that it granted |
| `RocmDevice.TakeDownUndoes` | csrc/cumem_allocator.cpp:263-284 | unmapping and releasing inverts creating and mapping: the addresses visited are the ones mapped, and the device is restored |
| `RocmDevice.FirstErrorIsFirst` | csrc/cumem_allocator.cpp:264-284 | the reported error is 0 exactly when no call failed, and otherwise the earliest failing status |
| `ChunkPlan.BaseChunk` | csrc/cumem_allocator.cpp:25-43 | always a positive whole number of megabytes within 64 bits, and the configured one whenever it is usable |
| `ChunkPlan.RoundUpIff` | csrc/cumem_allocator.cpp:366 | rounding up reaches the size exactly when the sum stays within 64 bits; otherwise it gives 0 |
| `ChunkPlan.ChunksTile` | csrc/cumem_allocator.cpp:394-416 | chunk sizes are positive multiples of the granularity, all full but perhaps the last, and add up to the aligned size |
| `ChunkPlan.ChunksCoverIff` | csrc/cumem_allocator.cpp:394-395 | the chunks cover the allocation exactly when size plus chunk stays within 64 bits; otherwise there are none |
| `ChunkPlan.HugeChunkCoversNothing` | csrc/cumem_allocator.cpp:25-43 | a setting the code accepts with which a request of 4 MB gets no chunk at all |
| `ChunkPlan.LargestChunkRoundsToZero` | csrc/cumem_allocator.cpp:391-395 | the largest setting, with a granularity of 2 MB, rounds to a chunk size of 0, by which the code then divides |
| `ChunkPlan.ChunksFit` | csrc/cumem_allocator.cpp:394-416 | overflow or not, chunks are positive and never reach past the end |
| `ChunkPlan.LeftBefore` | csrc/cumem_allocator.cpp:412-415 | the subtraction that sizes a chunk never underflows |
| `ChunkPlan.PlanChunks` | csrc/cumem_allocator.cpp:366-416 | fills in the chunk list; divides by zero exactly when the configured chunk cannot be rounded up within 64 bits |
| `ChunkPlan.PlanTiles` | csrc/cumem_allocator.cpp:366-416 | the plan of a request that stays within 64 bits covers the request, wastes less than a granule and tiles |
| `BlockStore.RunInv` | csrc/fs_io.cpp:40-108 | the invariant of every interleaving of storers and loaders, with crashes and failing calls at any point |
| `BlockStore.StorerPreserves` | csrc/fs_io.cpp:40-78 | every step of a storer keeps the invariant |
| `BlockStore.LoaderPreserves` | csrc/fs_io.cpp:83-108 | every step of a loader keeps the invariant |
| `BlockStore.DestinationsAreComplete` | csrc/fs_io.cpp:52-77 | at every moment of every run a file under a block name is a whole block: what was there at the start or one storer's entire buffer |
| `BlockStore.LoadsAreWhole` | csrc/fs_io.cpp:83-108 | a load that returns 0 delivers the front of one complete block, whatever is renamed or unlinked meanwhile |
| `BlockStore.OnlyTheCreatorTouchesATemp` | csrc/fs_io.cpp:51-75 | a temporary name disappears only by the rename or unlink of the storer that created that very file, also when calls share names |
| `BlockStore.OnlyTheCreatorWrites` | csrc/fs_io.cpp:51-62 | file contents change only by the write of the creator, while the file has no block name |
| `BlockStore.StoreReturnsWithBlockPresent` | csrc/fs_io.cpp:42-44 | the step in which a store returns 0 leaves a complete block under its name |
| `BlockStore.NoTempLeftBehind` | csrc/fs_io.cpp:57-75 | a store that returned, without its unlink failing, left no file of its own under any temporary name, while other stores go on |
| `BlockStore.OnlyOldTempsRemain` | csrc/fs_io.cpp:57-75 | once all stores have returned so, the temporary names are those of the start |
| `BlockStore.StaysStoredIffNobodyLoads` | csrc/fs_io.cpp:83-108 | at any moment of any run a block on disk, also one stored in that run, stays however the run goes on exactly when every load of it has returned or crashed |
| `BlockStore.StaysWithoutLoaders` | csrc/fs_io.cpp:40-108 | from the moment that a block is there and nobody loads it, it is there for the rest of the run |
| `BlockStore.LoadCanDelete` | csrc/fs_io.cpp:83-108 | wherever a load under way has got to, the run can go on so that it deletes its block |
| `BlockStore.FreshBlockCanBeDeleted` | csrc/fs_io.cpp:85-90 | a run in which a loader that failed to open unlinks a block stored after that |
| `BlockStore.StorerMayCrash` | csrc/fs_io.cpp:40-78 | wherever a storer has got to, it may crash there and leave the disk as it is |
| `BlockStore.LoaderMayCrash` | csrc/fs_io.cpp:83-108 | and so may a loader |
| `BlockStoreCalls.Disk.StoreBlock` | csrc/fs_io.cpp:40-78 | the call is a sequence of the storer's steps, touches no name but its own two, and fails with the first error it meets, then leaving all names as they were unless its unlink failed |
| `BlockStoreCalls.Disk.OpenTemp` | csrc/fs_io.cpp:42-55 | up to the open: the block is already there, or the first error, of the directories or the exclusive open, with the disk unchanged, or else a new empty file under a temporary name that was free |
| `BlockStoreCalls.Disk.WriteTemp` | csrc/fs_io.cpp:57-63 | the one write: only the contents of the new file change, and it is an error exactly when it fails or is short |
| `BlockStoreCalls.Disk.WriteAndRename` | csrc/fs_io.cpp:57-77 | from the open file on: the block under its name with the whole buffer exactly when write, close and rename succeed, otherwise the first error and the temporary name gone exactly when its unlink succeeded |
| `BlockStoreCalls.Disk.ReadBlock` | csrc/fs_io.cpp:83-108 | the read: success delivers the first bytes of the block, as many as asked for, failure is the first error met, and no outcome changes the disk |
| `BlockStoreCalls.Disk.LoadBlock` | csrc/fs_io.cpp:83-108 | the call is a sequence of the loader's steps, returns 0 exactly when the replies let it read the whole block, and otherwise unlinks the block exactly when that call succeeds |
| `BlockStoreCalls.StoresIff` | csrc/fs_io.cpp:40-78 | a store returns 0 exactly when its block is there, or the temporary name is free, no call fails and the write is complete |
| `BlockStoreCalls.LoadsIff` | csrc/fs_io.cpp:83-108 | a load returns 0 exactly when the block is there with enough bytes, the read is complete and no call fails |
| `BlockStoreCalls.BatchStore` | csrc/fs_io.cpp:198-257 | stops exactly at the first block whose store meets an error, with that errno; every block before it is stored under its name, no other block name changes; it gets to the end if no call fails and no temporary name is taken |
| `BlockStoreCalls.BatchLoad` | csrc/fs_io.cpp:267-320 | stops exactly at the first block whose load meets an error, with that errno; every block before it holds the stored bytes; it gets to the end if all blocks are there and no call fails |
| `BlockStoreCalls.StoreThenLoad` | csrc/fs_io.cpp:198-320 | round trip: a batch stored under new names loads back the same buffers, and both succeed on a disk that fails no call |
| `BlockStoreCalls.NewNamesHoldTheirBuffers` | csrc/fs_io.cpp:198-257 | after a complete batch under new, distinct names each name holds its own buffer |
| `ScanRecurrence.ScanSplits` | vllm/_xpu_ops.py:790-842 | scanning a sequence in two parts, the second from the state of the first, is scanning it at once |
| `ScanRecurrence.OutputsSplit` | vllm/_xpu_ops.py:790-842 | and gives the same outputs and gated outputs |
| `ScanRecurrence.PaddingIsHarmless` | vllm/_xpu_ops.py:701-724 | computing on a state padded with masked lanes gives the state and output of the unpadded recurrence |
| `ScanKernel.ChunksFillBlocks` | vllm/_xpu_ops.py:846-860 | every chunk but the last ends on a block boundary and completes the block whose slot it stores to |
| `ScanKernel.CourseIsOne` | vllm/_xpu_ops.py:790-842 | the states, outputs and gated outputs of the recurrence, padded, are what the kernel's own step, output and gate compute at each position, and the states to save are prefixes of its lanes |
| `ScanKernel.ColumnOfCourse` | vllm/_xpu_ops.py:846-870 | the states saved along the course leave in the cache the chunk-end states of the recurrence |
| `ScanKernel.ScanPosition` | vllm/_xpu_ops.py:790-842 | one position: its output replaces its own delta and z, nothing else, and the state advances to the next of the course |
| `ScanKernel.ScanChunk` | vllm/_xpu_ops.py:778-844 | one chunk in place: later positions still find their inputs, earlier ones hold their outputs |
| `ScanKernel.DoChunk` | vllm/_xpu_ops.py:757-870 | a chunk is scanned and its end state stored in the slot that the cache assigns to it |
| `ScanKernel.ScanChunks` | vllm/_xpu_ops.py:757-870 | after all chunks the rows hold the outputs and the cache the chunk-end states of the course |
| `ScanKernel.ScanSequence` | vllm/_xpu_ops.py:701-881 | from the initial state, loaded from the cache or zero, the rows and the cache hold the outputs and chunk-end states of the plain recurrence |
| `ScanKernel.ScanProgram` | vllm/_xpu_ops.py:661-881 | a program on a padding slot writes nothing; any other leaves exactly the outputs and states of the recurrence, and every other cell as it was |
| `PrefixCache.ChunksCover` | vllm/_xpu_ops.py:757-768 | the chunks of a sequence cover its tokens without gap and the next sequence starts where they end |
| `PrefixCache.SnapshotIsPlainState` | vllm/_xpu_ops.py:846-870 | a cached state that no later chunk overwrites is the plain recurrence up to that chunk's end |
| `PrefixCache.AlignedSlotsAreKept` | vllm/_xpu_ops.py:846-860 | with aligned chunks and distinct scheduled blocks no later chunk overwrites the slot of a full block |
| `PrefixCache.BlockHoldsItsPrefix` | vllm/_xpu_ops.py:846-860 | with aligned chunks and distinct scheduled blocks, whatever the rest of the table row holds, each block's slot holds the state after exactly the tokens up to the block's end |
| `PrefixCache.ResumeAgrees` | vllm/_xpu_ops.py:709-724 | a program that resumes from a cached state computes the outputs and states of an uncached scan of the whole sequence |
| `ScanLaunch.OpIsLocal` | vllm/_xpu_ops.py:661-688 | an operation of a program reads only its own cells and writes only cells it owns |
| `ScanLaunch.MoveKeepsInv` | vllm/_xpu_ops.py:1132-1133 | under any interleaving each program stays where it would be alone, seeing what it would see |
| `ScanLaunch.LaunchResult` | vllm/_xpu_ops.py:1132-1133 | a finished launch leaves in each cell what its owner alone would leave, whatever the schedule, and unowned cells untouched |
| `ScanLaunch.OrderDoesNotMatter` | vllm/_xpu_ops.py:1132-1133 | any two finished schedules of the grid leave the same memory |
| `ScanLaunch.AloneIsTheRecurrence` | vllm/_xpu_ops.py:701-881 | a program's memory operations, run alone, leave the outputs and chunk-end states of the recurrence |
| `ScanLaunch.LaunchComputesTheScan` | vllm/_xpu_ops.py:1132-1133 | every finished schedule of programs that keep apart computes the scan of each of them |
| `ScanGrid.TokensOfProgram` | vllm/_xpu_ops.py:757-788 | the chunks of a program are exactly the tokens of its sequence, by start offsets or by chunk table |
| `ScanGrid.ProgramSlotsFound` | vllm/_xpu_ops.py:846-870 | every slot lookup of a program stays within its table row |
| `ScanGrid.RowsOfPrograms` | vllm/_xpu_ops.py:726-754 | the rows of different sequences or channels, from offsets and strides, never overlap |
| `ScanGrid.SlotsOfPrograms` | vllm/_xpu_ops.py:673-688 | no sequence stores to a slot that another one loads or stores |
| `ScanGrid.GridIsSeparate` | vllm/_xpu_ops.py:726-754 | no program of the launched grid writes a cell that another reads or writes |
| `ScanGrid.ProgramSound` | vllm/_xpu_ops.py:701-724 | each program's padded arithmetic is sound for the recurrence of its channel |
| `ScanGrid.GridComputesTheScan` | vllm/_xpu_ops.py:1031-1133 | every finished schedule of the grid built from offsets, strides and tables computes the recurrence of every sequence and channel |
| `ScanResult.LaunchLeavesClosedForm` | vllm/_xpu_ops.py:661-881 | every finished schedule leaves, in terms of the tensors given, the closed form of every output, gated output and cached state |
| `ScanClosedForm.StateIsClosedForm` | vllm/_xpu_ops.py:792-826 | lane i of the state is the start times the product of exp(d*a_i) over all tokens, plus the sum over the tokens of d*u*b_i times that product over the later ones, d being the biased delta through softplus, the identity above 20 |
| `ScanClosedForm.OutputIsClosedForm` | vllm/_xpu_ops.py:828-831 | the output is the sum over the lanes of that state times c_i, plus D times u where there is a D |
| `ScanClosedForm.GatedIsClosedForm` | vllm/_xpu_ops.py:836-842 | the gated output times 1 + exp(-z) is the output times z |
| `ScanResult.TokensAreProgram` | vllm/_xpu_ops.py:661-754 | the tokens a program reads are those of its sequence and channel in the tensors, b and c being shared by a group |
| `ScanResult.StepSizesExist` | vllm/_xpu_ops.py:579-580 | every delta has such a step size |
| `ScanResult.SameProgramBothWays` | vllm/_xpu_ops.py:701-788 | a program on arrays of its own reads the same tokens and start state as in a launch |
| `ChunkMetadata.ComputeChunkMetadata` | vllm/v1/attention/backends/mamba_attn.py:265-325 | the loops build the chunk boundaries, owners and last chunks that the closed form gives |
| `ChunkMetadata.CutRequest` | vllm/v1/attention/backends/mamba_attn.py:292-321 | one request is cut at the block boundaries among its scheduled tokens, and none is left over |
| `ChunkMetadata.CutsAreBlockEnds` | vllm/v1/attention/backends/mamba_attn.py:273-284 | inside the scheduled tokens a chunk ends at a position exactly when a block does, wherever the step before stopped |
| `ChunkMetadata.SplitTotal` | vllm/v1/attention/backends/mamba_attn.py:292-321 | the chunks of a request are all its scheduled tokens |
| `ChunkMetadata.MetadataIsChunkTable` | vllm/v1/attention/backends/mamba_attn.py:285-325 | boundaries are in order and the chunks of each request follow those of the one before, also when a request has none |
| `ChunkMetadata.ChunksAreSplit` | vllm/v1/attention/backends/mamba_attn.py:285-325 | the chunks that the kernel reads off the tables for a request are those it was cut into |
| `ChunkMetadata.OwnerOfChunk` | vllm/v1/attention/backends/mamba_attn.py:285-325 | a chunk holds tokens of one request only, the one that seq_idx names |
| `ChunkMetadata.BlockOfLast` | vllm/v1/attention/backends/mamba_attn.py:375-417 | the last computed and last scheduled block indices are the block of that token, or 0 if there is none |
| `ChunkMetadata.PiecesFillBlocks` | vllm/v1/attention/backends/mamba_attn.py:375-417 | the chunks are one for each block from the first scheduled to the last scheduled |
| `ChunkMetadata.CacheIsAligned` | vllm/v1/attention/backends/mamba_attn.py:265-417 | chunks and block indices of a request are aligned as the kernel needs, and the kernel's position counter starts at the tokens computed |
| `ChunkMetadata.MetadataFits` | vllm/v1/attention/backends/mamba_attn.py:265-417 | the tables meet all that the scan asks of them |
| `ChunkMetadata.BuiltLaunchIsGood` | vllm/v1/attention/backends/mamba1_attn.py:35-60 | a launch with these tables is one of those that compute the scan |
| `PromptSteps.PromptComputesTheScan` | vllm/v1/attention/backends/mamba_attn.py:375-417 | however a prompt is cut into scheduling steps, each step puts out what one scan of the whole prompt puts out at its positions |
| `PromptSteps.StepsAreRight` | vllm/_xpu_ops.py:673-724 | each step loads the state after all tokens before it, and leaves the state after all tokens so far in the block that it ends in |
| `PromptSteps.StepLeavesState` | vllm/_xpu_ops.py:846-870 | the last chunk stores the state after all tokens of the step in the block of the last one |
| `PromptSteps.StepFindsItsSlots` | vllm/_xpu_ops.py:846-870 | with a row that reaches the last block every slot of a step is found |
| `PromptSteps.StepExists` | vllm/_xpu_ops.py:661-881 | so from whatever cached states any step can be taken |
| `PromptSteps.ChainIsOneScan` | vllm/_xpu_ops.py:790-842 | scans that each start where the one before ended pass through the states of one scan |
| `GraphPartition.GetSignatures` | vllm/env_override.py:198-336 | the backward loop gives each partition the signature that the unmet names after it determine, in forward order |
| `GraphPartition.BackwardPass` | vllm/env_override.py:236-334 | after each partition the running unmet set is the one of the recursive definition |
| `GraphPartition.PartitionStep` | vllm/env_override.py:236-334 | inputs, deallocations, constants, returned outputs and the next unmet set of one partition |
| `GraphPartition.CollectNames` | vllm/env_override.py:239-275 | the loops over the nodes gather exactly the outputs, accesses and last usages |
| `GraphPartitionSemantics.UnmetClosedForm` | vllm/env_override.py:332-334 | a name is unmet before a partition exactly when a later point asks for it and no partition in between returns it |
| `GraphPartitionSemantics.EveryInputIsSupplied` | vllm/env_override.py:252-284 | every name with storage that a partition takes, or the graph outputs, is a graph input, a constant or returned by an earlier partition |
| `GraphPartitionSemantics.OutputsAreKnown` | vllm/env_override.py:311-315 | the lookup of output nodes never fails |
| `GraphPartitionSemantics.UnmetIsLive` | vllm/env_override.py:277-334 | an unmet name is a real name that no earlier partition frees |
| `GraphPartitionSemantics.UnmetIsAvailable` | vllm/env_override.py:277-334 | an unmet name with storage is an input, a constant or stored by then |
| `GraphPartitionSemantics.KeptIsReturned` | vllm/env_override.py:293-309 | a name still wanted that a partition makes or takes, it returns |
| `GraphPartitionSemantics.AliasOutputIsNeverMet` | vllm/env_override.py:307-334 | a graph output listed under a mutation's name stays unmet before every partition |
| `GraphPartitionSemantics.RunAgrees` | vllm/env_override.py:252-270 | a partition computes the same from any two environments that agree on its direct inputs |
| `GraphPartitionSemantics.CallKeepsSupplied` | vllm/env_override.py:277-334 | after a partition call the caller holds every unmet name at its value in the whole graph |
| `GraphPartitionSemantics.PartitionedComputesWhole` | vllm/env_override.py:198-336 | running the partitions through their signatures gives every graph output the value the unpartitioned graph gives it, whatever the nodes compute, mutations across partitions included |
| `GraphPartitionSemantics.RunsExist` | vllm/env_override.py:198-336 | from any inputs both runs compared above exist |
| `GraphPartitionSemantics.FreedIsGone` | vllm/env_override.py:272-291 | over every partitioned run, what a node is the last to use is gone from the caller after the node's partition, and never comes back |
| `GraphPartitionSemantics.SignatureByNodes` | vllm/env_override.py:239-334 | every field of a signature, and the unmet names, in terms of what single nodes make, read and use for the last time |
| `GraphPartitionSemantics.LastOfChainDecides` | vllm/env_override.py:215-234 | along a chain of mutations the last buffer decides whether there is storage |
| `Quantizer.InRange` | vllm/_xpu_ops.py:894-916 | scaled and shifted, every element of a row lies within half a step of the representable range |
| `Quantizer.ClampedRound` | vllm/_xpu_ops.py:910-914 | clamping then costs nothing beyond rounding |
| `Quantizer.RoundTripError` | vllm/_xpu_ops.py:891-921 | quantizing and dequantizing changes no element of a row by more than half its scale |
| `Quantizer.RoundTripsIffZeroPointFits` | vllm/_xpu_ops.py:902-916 | asymmetric rows round-trip that well exactly when the zero point fits 32 bits |
| `Quantizer.ConstantRowBreaksTheBound` | vllm/_xpu_ops.py:902-916 | the row [30000.0] at 8 bits does not |
| `Quantizer.RoundTripsIffEightBits` | vllm/_xpu_ops.py:891-921 | all such rows round-trip exactly up to 8 bits: beyond, the byte cast loses one |
| `Quantizer.LargestIsStoredAtEnd` | vllm/_xpu_ops.py:900-905 | symmetric: with the scale above its floor, an element of largest magnitude is stored at the end of the range |
| `Quantizer.ExtremesAreStoredAtEnds` | vllm/_xpu_ops.py:906-916 | asymmetric: with the scale above its floor and a zero point that fits, the least element is stored as 0 and the largest at the end of the range, or one short of it |
| `Quantizer.RangeHasAllCodes` | vllm/_xpu_ops.py:896-897 | there are 2^bits codes, the symmetric ones reaching one further down |
| `Quantizer.RoundsToEven` | vllm/_xpu_ops.py:911-914 | rounding goes to a nearest integer, and of two to the even one |
| `NinjaLog.BuildsIsGreedySplit` | tools/report_build_time_ninja.py:118-146 | cutting the log where the code starts over splits it into builds, each as long as it can be |
| `NinjaLog.GreedySplitIsUnique` | tools/report_build_time_ninja.py:118-146 | there is no other such split |
| `NinjaLog.LastBuildIsATail` | tools/report_build_time_ninja.py:118-146 | what is kept is a contiguous tail of the log, with end times in order and one start and end per command |
| `NinjaLog.DictDecidesFit` | tools/report_build_time_ninja.py:122-141 | the dictionary and the last end time suffice to tell whether a record belongs to the current build |
| `NinjaLog.RestartRule` | tools/report_build_time_ninja.py:122-141 | the loop starts over exactly when the record begins a new build, and never with show_all |
| `NinjaLog.ReadTargets` | tools/report_build_time_ninja.py:104-148 | skips corrupt lines and returns the targets of the last build, or of the whole log, in order of first appearance; fails exactly on another header |
| `NinjaLog.EveryNameRecordedOnce` | tools/report_build_time_ninja.py:143-147 | every output name of the records kept is in exactly one target, as often as it was logged |
| `NinjaLog.TargetsInOrder` | tools/report_build_time_ninja.py:143-148 | targets come in the order in which their commands first appear, with the times of that record |
| `NinjaLog.NamesInOrder` | tools/report_build_time_ninja.py:147 | the names of a target are those of its command's records, in log order |
| `NinjaLog.CutsAtContradictions` | tools/report_build_time_ninja.py:118-142 | the log is cut exactly at records that end before the one before, or repeat a command with other times |
| `BuildTimeSweep.Sweep` | tools/report_build_time_ninja.py:223-256 | each task's weight is its time divided, millisecond by millisecond, by the number of tasks running; fails exactly on no entries or a task that ends before it starts |
| `BuildTimeSweep.HandleEvent` | tools/report_build_time_ninja.py:236-254 | one event keeps running tasks, weights and totals as the millisecond definition has them, or shows a task that ends before it starts |
| `BuildTimeSweep.Accrue` | tools/report_build_time_ninja.py:238-243 | the running total is the share charged to a task that runs all the time so far |
| `BuildTimeSweep.GapConcurrency` | tools/report_build_time_ninja.py:236-255 | between two events the open tasks are the ones running at that time |
| `BuildTimeSweep.StartedBeforeStop` | tools/report_build_time_ninja.py:223-229 | in the sorted events a task's start precedes its stop exactly when it does not end before it starts |
| `BuildTimeSweep.WeightsAddUpToBusyTime` | tools/report_build_time_ninja.py:207-256 | the weights add up to the time in which at least one task runs, so to at most the elapsed time, and to exactly that iff no millisecond is idle |
| `BuildTimeSweep.WeightBounds` | tools/report_build_time_ninja.py:74-89 | a weight is at most the duration, and at least the duration over the peak number of tasks running meanwhile |
| `BuildTimeSweep.WeightIgnoresEntryOrder` | tools/report_build_time_ninja.py:223-256 | permuting the entries permutes the weights |
| `BuildTimeSweep.Extent` | tools/report_build_time_ninja.py:209-220 | earliest, latest and total processor time of the entries |
| `BuildTimeSweep.CpuTimeIsLoad` | tools/report_build_time_ninja.py:216-220 | the processor time is the number of tasks running, added up over all milliseconds of the build |
| `BuildTimeSweep.EarliestIsLeastIff` | tools/report_build_time_ninja.py:209-214 | -1 is both sentinel and time: the earliest found is the least start exactly when no start is negative or the last entry has the least one |
| `BuildTimeSweep.NegativeStartIsLost` | tools/report_build_time_ninja.py:209-214 | a first task that starts at -5 is forgotten at the second, which starts at 3 |
| `BuildTimeSweep.Summarize` | tools/report_build_time_ninja.py:198-256 | with nonnegative starts the weighted total is the busy time, never more than the reported length, and equals it exactly when the build was never idle; a report exists exactly when there are entries and none ends before it starts |
| `SpinWait.NoLostWakeUp` | csrc/spinloop.cpp:126-151 | in every run over a buffer within one line, the waiter never sleeps on a monitor that did not fire while the condition holds |
| `SpinWait.NoLostWakeUpIffInOneLine` | csrc/spinloop.cpp:92-129 | for all conditions and runs that holds exactly when the buffer lies within one monitored line, which its length alone does not ensure |
| `SpinWait.StraddlingBufferLosesWakeUp` | csrc/spinloop.cpp:92-129 | a run in which a buffer short enough to qualify, but across two lines, is written unseen |
| `SpinWait.ClockReadEverySixteenPasses` | csrc/spinloop.cpp:108-125 | with a timeout the clock is read on the first pass and every sixteenth after it, across the wrap of the 32-bit counter |
| `SpinWait.TimeoutNoticedWithinSixteenPasses` | csrc/spinloop.cpp:108-125 | at most sixteen passes begin after the timeout |
| `SpinWait.TrueWhenHeld` | csrc/spinloop.cpp:96-106 | a wait that returned true had the condition true of the buffer at the very step that ended it |
| `SpinWait.NeverHeldNeverTrue` | csrc/spinloop.cpp:94-125 | a wait during which the condition never held ends, if at all, by an error or after its timeout |
| `SpinWait.EndsWithinThreeMoves` | csrc/spinloop.cpp:94-151 | once the condition holds and stays, the waiter makes at most three more moves |
| `SpinWait.NeverStuck` | csrc/spinloop.cpp:94-165 | a waiter that has not ended can move without failing, and to true if it is at a check and the condition holds |
| `SpinWait.TriggerIsRecent` | csrc/spinloop.cpp:126-151 | a trigger seen while watching stems from a write to the watched line since the monitor was armed |
| `SpinWait.CallbackMayRaise` | csrc/spinloop.cpp:95-98 | at each of its two calls the callback may raise, which ends the wait |
| `SpinWait.OneLineQualifies` | csrc/spinloop.cpp:91 | a buffer within one line is monitored, if the processor can |
| `WorkQueue.Fill` | benchmarks/benchmark_hidden_state_extraction.py:238-244 | every prompt once and in order, then one sentinel per client |
| `WorkQueue.StepKeepsInv` | benchmarks/benchmark_hidden_state_extraction.py:142-176 | every prompt taken is answered, held or lost with the client that raised, exactly once, and a sentinel is left for each client that has not taken one |
| `WorkQueue.RunInv` | benchmarks/benchmark_hidden_state_extraction.py:142-257 | the same in every state of every run |
| `WorkQueue.NoClientBlocks` | benchmarks/benchmark_hidden_state_extraction.py:142-176 | no client ever waits on an empty queue, and some client can move until all have stopped |
| `WorkQueue.RunIsShort` | benchmarks/benchmark_hidden_state_extraction.py:142-176 | a run has at most two steps per queued item |
| `WorkQueue.AllExited` | benchmarks/benchmark_hidden_state_extraction.py:246-257 | when all clients have exited, the queue is empty and every prompt was answered exactly once |
| `WorkQueue.OneExitMeansAllTaken` | benchmarks/benchmark_hidden_state_extraction.py:142-176 | once one client has exited no prompt is left in the queue |
| `WorkQueue.RaisingLosesThePrompt` | benchmarks/benchmark_hidden_state_extraction.py:142-176 | a request may raise, which stops its client and loses its prompt |
| `WorkQueue.LostIsNotAnswered` | benchmarks/benchmark_hidden_state_extraction.py:142-176 | the prompt of a client that raised is unanswered in every state |

## Left out

- The CUDA branches of the allocator, fabric and RDMA flags, context setup, reference counts, the interpreter lock and argument parsing: vendor and CPython details.
- Host memory of the allocator: the malloc'd handle cells, their failure paths, and the `int` loop index `auto i = 0`.
- Offloading to the CPU and tags in `vllm/device_allocator/cumem.py`: sleep and wake are modelled per allocation, with the flag it sets.
- Driver replies that are impossible, such as an overlapping range or a handle in use, count as failures; a mapping is keyed by its start address.
- Durability across power loss (the store does not sync), directory creation, `_batch_lookup`, and direct I/O alignment in `csrc/fs_io.cpp`.
- Data types and their rounding in the scan: arithmetic is over the reals, `exp` and `log` are any functions, the lane count is any number at least the state size. Of the strides, those between sequences and between channels are modelled; the tokens of a row are adjacent and the entries of a state are one cell.
- ScanClosedForm.GatedIsClosedForm: says nothing where 1 + exp(-z) is 0, which the real exp never makes it.
- ScanLaunch.LaunchComputesTheScan: takes it as given that the programs keep apart; `ScanGrid.GridIsSeparate` shows it for the grid that is launched.
- ScanGrid.GridComputesTheScan: assumes of the caller's tensors what the wrapper does not check: offsets in order, rows that fit their strides, and no block written by one sequence and used by another. That chunk tables cut at block boundaries is shown by `ChunkMetadata.MetadataFits` for the tables of `mamba_attn.py`.
- PromptSteps.PromptComputesTheScan: assumes that between two steps nobody overwrites the block that the first one ended in. A step of one token, which the backend hands to the decode kernel, is modelled as a scan; speculative decoding and the other cache modes are not.
- GraphPartitionSemantics.PartitionedComputesWhole: assumes what the scheduler provides, dependency order, one producer per name and correct last usages, none of which this function checks.
- Symbol inputs and the order within a signature's sets in `vllm/env_override.py`, `memory_plan_reuse_patched` (lines 130-186), which drops trailing planning lines and keeps a stack of planning states of its own, and the other patches in that file.
- Floating-point rounding in the quantizer: arithmetic is over the reals with round-half-to-even; a cast out of range is taken to wrap around.
- Number parsing, file name extensions and printing in the build-time report; times are whole milliseconds instead of float seconds.
- SpinWait.NoLostWakeUp: the awaited condition depends on the buffer alone; the hardware's spurious and timed wake-ups are allowed at any time; processor detection is a parameter.
- `task_done` and `join` of the queue, and timing, in the benchmark.
