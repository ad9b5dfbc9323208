# Salsola

A model of the hard parts of Salsola, a small amd64 kernel, with proofs of what they are meant to do.

The kernel's code changes state in place, and so does the model: classes with the same fields, methods with the
same loops and branches. Each of them is proved against functions on values (a chain of blocks, a map of pages, a
message, a queue of bytes, a text), and the promises are proved of those functions, over every input and every run.

| files | what they model |
|---|---|
| `Prelude`, `Words` | options and minima; 32-bit words and their bytes |
| `HeapModel`, `HeapInvariant`, `HeapLive`, `HeapLedger`, `HeapSearch`, `HeapRun` | the heap as a chain of blocks in regions; its invariant; what a client sees; the byte ledger; first fit; runs of calls |
| `HeapGrants` | what the heap relies on when `ksbrk` answers, shown of `Mmu.Ksbrk` |
| `HeapBytes`, `Kmalloc` | the same heap as headers in byte memory, and the allocator working on it |
| `Frames` | the bitmap of physical frames and the run allocator |
| `PageTables`, `Mmu` | the four-level tables with their shadow pointers, and the code that maps pages and makes tables |
| `MmuExample` | a small directory in which two growths of the heap go wrong |
| `CloneExample` | the directory after boot, and what the processor finds of its clone |
| `MmuHardware` | the processor's own walk, and which frames cloning will get |
| `MmuCopy`, `MmuClone` | what it means to be a deep copy, and cloning a directory |
| `Sha1Spec`, `Sha1Vector`, `Sha1Stream`, `Sha1` | SHA-1 and HMAC by their standards, the digest of a known message, the buffered form, and the code |
| `RingModel`, `RingBuffer`, `RingInterrupt` | the byte queue, its code, and reads broken into by writes from an interrupt |
| `ChaCha`, `ChaChaVector` | the ChaCha20 block function, and a known block |
| `CsprngModel`, `CsprngTrace`, `Csprng` | the random generator that changes its own key, and what its inputs have in common over a run |
| `EntropyModel`, `Entropy` | the entropy that is hashed into a pool and stirred into that key |
| `Scheduling`, `Tasks` | round-robin scheduling and the task list |
| `FormatNumber`, `Format`, `FormatMeaning`, `FormatSyntax`, `Kprintf` | numbers as text, conversions and what they show, format strings, and printf with its two sinks |

## Conventions

- Every method of the allocator keeps `Valid`: the bytes describe the chain, the chain is well formed, and memory
  outside the regions that `ksbrk` handed out is as it was before the heap was made.
- A failed assertion stops the kernel. Where one can fail, the method's `ok` result is false; most else it promises is
  promised for `ok`. In the memory manager that of `get_frame` fails when no run of frames is left, that of
  `safe_allocation` when a region it found has gone to tables (`LastPage`), and that of `ksbrk` when `Stops` says so.
  `Ksbrk`, `SafeAllocation`, `MapFrames`, `CopyFrame` and `CloneDirectory` say exactly when they fail, from the state
  before the call. `OutOfFrames`, after a failure, says that no two neighbouring frames are free.
- Memory that is filled at random (`prng_get_pseudorandom`) holds arbitrary bytes, which are parameters.
- `ksbrk` is a parameter of the heap: its answers are fresh ranges, or nothing. `Mmu.Ksbrk` models the code behind it,
  and `HeapGrants` shows that its answers are such ranges. The parameters `noise`, `scrub` and `grant` carry them.
- Addresses in the memory manager are page numbers with an offset, frames are frame numbers; entries keep their bits.
- Words are `bv32` in the cryptographic code; 32-bit fields are written out (`U32`, `newtype u32`) elsewhere.
- The reserve that the recursion of the memory manager needs is the predicate `Covered`: free pages under tables that
  are present, counted from `heap_end`. Its opposite is `Stuck`: no page is free before the first one under no table;
  then a search for a page comes back to itself until the frames are gone. `Frontier` is the form in which `ksbrk`
  keeps the reserve, and a `Pool` the one in which cloning spends it: a pool that is tight ends at a missing table.
  `Plan` is where a growth ends, worked out from the tables of before the call; `Lands` and `Stops` say of that place
  whether the next growth has its reserve and whether this one fails.
- A directory table takes two pages, the second being its pointers. Pages of tables are mapped to taken frames, no two
  to the same (`TablesMapped`), so that the processor's walk through frames (`MmuHardware`) is well defined.

## Where the code departs from what it is for

Each of these has a lemma with the exact condition.

- The heap's 32-bit request size wraps: a call goes wrong if and only if the wrapped search finds a block (`OverrunsIff`,
  `WrappedRequestOverruns`, `FreshHeapServesWrapped`). Such calls, and no others, are excluded from the runs of the heap.
- The 32-bit size of a new block wraps (`TruncatedGrantIsTooSmall`). It needs a grant above 4 GiB, and 16384 frames hold
  64 MiB: `ksbrk` stops before it (`TruncatedGrantFails`), nor can the heap come to 4 GiB in all (`HeapSbrk`,
  `BackedIsSmall`).
- `1 << offset` is an `int` shift: `set_frame` and `get_frame` as written are right for the first 31 frames of a word
  only (`SetFrameAsWritten`, `GetFrameAsWritten`, `ReleaseOf32`). The model of the bitmap uses the intended 64-bit mask.
- `clone_pdpt` forgets a mask. The software walk is right as it stands, and that is what the deep copy is proved of.
  The processor finds the clone's tables if and only if `Fits` holds of the tables and the bitmap before the call
  (`CloneDirectory`). After boot that is so if and only if the heap, of at most 400 pages, has 4k or 4k + 1
  (`CloneAfterBoot`).
- A growth of the heap by more than 511 pages may end under no table, after which the next one runs out of frames, or
  stop at `ksbrk`'s own assertion; `Ksbrk` says exactly when, `GrowthsGoWrong` and `GrowthRunsDry` give a state.
- A search for pages that comes to a missing table with none left for it takes frame after frame (`Stuck`,
  `StuckOrRoom`); with one left where two are asked for, `safe_allocation` stops (`LastPage`, `LastPageTaken`).
- `allocate_next_pt` in the last group of a page directory table writes over a pointer (`NextPtAtLastEntry`).
- `ringbuffer_read` loads the write pointer for each of its tests; an interrupt between them leaves it without a number
  of bytes if and only if it takes the pointer around the end of the buffer and the read pointer has left the start
  (`TwoLoadsMiss`, `LostIffWraps`, `KeyboardReadMisses`).
- `GetCapacity` wraps for a ring without memory.
- `%lu` prints its argument as a signed number: from 2^63 on it is wrong, and 2^63 itself stops (`LongUnsigned`).
- The long level of a directive is put back by `d` and `i` only (`FormatsAsIntended`, `LongLevelStays`).
- `add_hash_pool` leaves `hash_pool_size` as it is, so that once 40 bytes were given every further call stirs the pool,
  with however few, until the count wraps (`SizeIsTotal`, `EveryGiftStirs`).
- `KEY_SIZE` has no parentheses, so that the digest reaches every fourth byte of a new key only (`FoldedReaches`).
- An empty text gets no terminator from `ksnprintf` (`Ksnprintf`).
- An event of three bytes may be cut by a queue of 383 (`EventIsWhole`, `KeyboardEventIsCut`).

## Model

| member | source | states |
|---|---|---|
| HeapRun.EveryRunIsSafe | kernel/kmalloc.c:31-43 | from `kmalloc_init`, after any run of calls, the chain is well formed, the byte ledger balances, and the live pointers with their bytes are exactly those of the client's own bookkeeping |
| HeapRun.RunIsSafe | kernel/kmalloc.c:174-312 | the same from any well-formed heap |
| HeapRun.StepRefines | kernel/kmalloc.c:174-312 | one call on a well-formed heap: well formed and balanced after it, the client's map changes only as the call says, and a new pointer is not one in use |
| HeapRun.KmallocRefines | kernel/kmalloc.c:174-230 | adds one pointer that was not live, holding the bytes given, or fails and changes no allocation; it fails if and only if no run of free neighbours is large enough and `ksbrk` gives nothing |
| HeapRun.KfreeRefines | kernel/kmalloc.c:207-220 | removes exactly the pointer freed; `NULL` changes nothing |
| HeapRun.KreallocRefines | kernel/kmalloc.c:239-261 | keeps the first min(old, new) bytes; shrinking returns the same pointer; on failure the old block is live and unchanged |
| HeapRun.KrecallocRefines | kernel/kmalloc.c:280-299 | keeps the first min(old, new) bytes and zeroes the rest; failure changes no allocation; a product that does not fit is refused |
| HeapRun.PokeRefines | kernel/kmalloc.c:216-228 | a store into a live payload changes the bytes of that allocation and of no other |
| HeapRun.FindIffRoom | kernel/kmalloc.c:105-131 | a block is found if and only if some run of free neighbours in one region holds the request and a header |
| HeapRun.MulRejectedIsOverflow | kernel/kmalloc.c:265-271 | the guard rejects exactly the products above SIZE_MAX |
| HeapSearch.WalkFindsFirstFit | kernel/kmalloc.c:113-131 | the answer starts the lowest run of free neighbours that is large enough; there is no answer if and only if no run is |
| HeapSearch.FailedWalkCompacts | kernel/kmalloc.c:113-131 | after a search without answer every free block is too small and no two neighbours can still be merged |
| HeapSearch.AbsorbIsRun | kernel/kmalloc.c:121-122 | repeated merging makes one block of the whole run, with the run's total and its last flag |
| HeapSearch.RetrySucceeds | kernel/kmalloc.c:176-183 | after memory has been added the second search succeeds |
| HeapSearch.GrantSizeSuffices | kernel/kmalloc.c:45-49 | the amount asked of `ksbrk` is whole pages and holds the request, its header and the next header |
| HeapSearch.GrantSizeIs | kernel/kmalloc.c:45-49 | less 256 KiB, the amount asked of `ksbrk` is the smallest number of whole pages strictly above both 256 KiB and the request with its header |
| HeapRun.ServedFromGrowth | kernel/kmalloc.c:176-204 | after a growth that is not in place the block served lies at the start of the new region, and all the rest of the growth is free behind it |
| HeapRun.GrowthServesTwice | kernel/kmalloc.c:45-71 | then a second request of the same size is served without `ksbrk` if and only if twice the size and three headers fit the growth; up to 256 KiB they do |
| HeapSearch.WalkPast | kernel/kmalloc.c:113-131 | a search passes blocks that are too small and cannot be merged, and leaves them as they are |
| HeapGrants.HeapSbrk | kernel/kmalloc.c:45-53 | `ksbrk` as the heap calls it: it answers if and only if `Stops` does not hold and there are frames for the pages and the tables; its answer is memory that the heap does not have, newly mapped, past every answer before it; the heap stays below the new end, and below 4 GiB without being asked to |
| HeapGrants.AnswerIsFresh | kernel/kmalloc.c:51-53 | any answer at or past the old end is fresh memory for the heap |
| HeapGrants.AnswersApart | kernel/arch/amd64/mmu.c:188-232 | no two answers of `ksbrk` share a page |
| HeapGrants.AnswerAdded | kernel/arch/amd64/mmu.c:188-232 | one more answer, from an end past those given, keeps the answers in order and shares no page with any of them |
| HeapGrants.BackedIsSmall | kernel/arch/amd64/mmu.c:66-75 | a heap whose memory lies in taken frames cannot be taken to 4 GiB by what is still free |
| HeapGrants.StaysBacked | kernel/arch/amd64/mmu.c:210-215 | an answer leaves it so |
| HeapGrants.TruncatedGrantFails | kernel/arch/amd64/mmu.c:69-75 | there are fewer frames than a grant has pages whose size does not fit 32 bits, so `ksbrk` never answers with one |
| HeapRun.OverrunsIff | kernel/kmalloc.c:105-131 | the block that the 32-bit search finds does not hold the request if and only if the call overruns: the request with its header reaches 4 GiB and the wrapped search finds a block |
| HeapRun.TooLarge | kernel/kmalloc.c:174-183 | for a request that with its header reaches 4 GiB there is neither a run in the heap nor an answer of `ksbrk`, so a call that does not overrun fails and changes no allocation |
| HeapSearch.WrappedRequestOverruns | kernel/kmalloc.c:105-107 | a block that passes the 32-bit test holds the split if and only if the sum did not wrap |
| HeapSearch.FreshHeapServesWrapped | kernel/kmalloc.c:105-131 | the heap of `kmalloc_init` serves such a request from its first block if and only if the wrapped sum fits, and that block is smaller than the request |
| HeapSearch.TruncatedGrantIsTooSmall | kernel/kmalloc.c:45-71 | the 32-bit size of a new block is large enough for its request if and only if the size fits 32 bits |
| HeapInvariant.BlocksAreDisjoint | kernel/kmalloc.c:16-21 | headers and payloads of different blocks never overlap |
| HeapInvariant.FinalIsTheFence | kernel/kmalloc.c:55-70 | `IS_FINAL` is set on exactly the last block of each region, and that block is free |
| HeapInvariant.EveryRegionHasAFence | kernel/kmalloc.c:63-70 | every region keeps its final block |
| HeapInvariant.MergeStaysInRegion | kernel/kmalloc.c:95-101 | a merge joins two blocks of one region and stays inside it |
| HeapInvariant.MergeKeepsInv | kernel/kmalloc.c:133-154 | merging keeps the chain ordered, inside its regions and fenced |
| HeapInvariant.AllocateKeepsInv | kernel/kmalloc.c:185-204 | so do splitting and the merge behind it |
| HeapInvariant.AllocateMerges | kernel/kmalloc.c:187-203 | the block becomes the request and, 24 bytes behind it, a free rest, which takes in the next block if and only if that is free and in the same region; every other block is kept |
| HeapInvariant.AllocateCompacts | kernel/kmalloc.c:202-202 | so if no two neighbours but those at the block could be merged before, none can after it |
| HeapInvariant.ReleaseKeepsInv | kernel/kmalloc.c:218-219 | so does freeing |
| HeapInvariant.ReleaseCompacts | kernel/kmalloc.c:218-219 | if no two neighbours could be merged before, then after freeing a block only a free one in front of it can be merged with it |
| HeapInvariant.ShrinkKeepsInv | kernel/kmalloc.c:247-250 | so does shrinking in place |
| HeapInvariant.FindKeepsInv | kernel/kmalloc.c:105-131 | so does the search with all its merges |
| HeapInvariant.GrowthContinuesRegion | kernel/kmalloc.c:55-61 | memory that starts where the last block ends also starts where the last region ends |
| HeapLedger.GrowBalanced | kernel/kmalloc.c:45-71 | growth, in place or as a new region, keeps: bytes obtained = bytes of the chain + 24 for each merge and each growth in place + bytes cut |
| HeapLedger.SplitFootprint | kernel/kmalloc.c:187-203 | a split conserves the bytes of the chain exactly |
| HeapLedger.AllocateBalanced | kernel/kmalloc.c:187-203 | allocation keeps the ledger |
| HeapLedger.ReleaseBalanced | kernel/kmalloc.c:218-219 | freeing keeps the ledger |
| HeapLedger.ShrinkBalanced | kernel/kmalloc.c:247-250 | shrinking keeps the ledger, counting the bytes cut |
| HeapLedger.FindBalanced | kernel/kmalloc.c:105-131 | the search keeps the ledger, whatever it merges |
| HeapLive.PointerIsUnique | kernel/kmalloc.c:185-185 | a pointer names one block of a well-formed heap, and is live if and only if that block is in use |
| HeapLive.LiveBlock | kernel/kmalloc.c:232-237 | a live pointer is the payload of a block in use whose size is the length of its bytes |
| HeapLive.AllocateLive | kernel/kmalloc.c:185-204 | allocation adds one pointer that was not live and leaves every other allocation |
| HeapLive.ReleaseLive | kernel/kmalloc.c:218-219 | freeing removes one pointer and leaves every other allocation |
| HeapLive.TryMergeLive | kernel/kmalloc.c:133-154 | merging touches no allocation |
| HeapLive.WalkLive | kernel/kmalloc.c:113-131 | searching touches no allocation |
| HeapLive.GrowLive | kernel/kmalloc.c:45-71 | growing touches no allocation |
| HeapBytes.StoreInside | kernel/kmalloc.c:147-149 | a store inside one block leaves the headers and payloads of all others in memory |
| HeapBytes.HeaderBytes | kernel/kmalloc.c:12-21 | where the fields of a header lie: eight bytes of magic, four of size, one of flags and eight of the link, least significant first |
| HeapBytes.MergeStores | kernel/kmalloc.c:147-149 | the three stores into the first header turn memory of the chain into memory of the merged chain |
| HeapBytes.SplitStores | kernel/kmalloc.c:187-192 | the header written at the split point turns memory of the chain into memory of the split chain |
| HeapBytes.AppendStores | kernel/kmalloc.c:63-69 | a new header and one link represent the chain with a region appended |
| HeapBytes.GrowStores | kernel/kmalloc.c:59-59 | one store into the last size represents the chain grown in place |
| HeapBytes.StoreUntouched | kernel/kmalloc.c:133-220 | a store into a block leaves alone all memory that `ksbrk` has not handed out |
| HeapBytes.GrowUntouched | kernel/kmalloc.c:45-71 | so does growth, in place or as a new region |
| Kmalloc.Allocator.constructor | kernel/kmalloc.c:31-43 | memory then represents one free final block over the first grant, and no other byte has changed |
| Kmalloc.KmallocInit | kernel/kmalloc.c:31-43 | there is a heap if and only if `ksbrk` gave memory for it |
| Kmalloc.Allocator.NextHeader | kernel/kmalloc.c:73-84 | reads the link of the block that memory holds at this address; the magic assertions hold |
| Kmalloc.Allocator.NextCloseHeader | kernel/kmalloc.c:95-101 | no successor across a fence |
| Kmalloc.Allocator.MergePartner | kernel/kmalloc.c:134-145 | names the next header if and only if both blocks are free and in one region |
| Kmalloc.Allocator.MergeHeaders | kernel/kmalloc.c:133-154 | merges if and only if both blocks are free and in one region; memory, `final` and the chain agree afterwards |
| Kmalloc.Allocator.FindFreeEntry | kernel/kmalloc.c:105-131 | for every 32-bit argument the in-place search gives the answer and the chain of the first-fit walk for the sum as it wraps |
| Kmalloc.Allocator.AddHeapMemory | kernel/kmalloc.c:45-71 | grows in place or appends a region; on failure nothing changes |
| Kmalloc.Allocator.IntKmalloc | kernel/kmalloc.c:174-205 | agrees with the specified allocation; recursion has depth one |
| Kmalloc.Allocator.TakeEntry | kernel/kmalloc.c:185-204 | cuts the request off the entry that was found |
| Kmalloc.Allocator.Kmalloc | kernel/kmalloc.c:223-230 | agrees with the specified allocation, filled with the given bytes |
| Kmalloc.Allocator.GetMemSize | kernel/kmalloc.c:232-237 | the length of the live payload |
| Kmalloc.Allocator.Kfree | kernel/kmalloc.c:207-220 | agrees with the specified release; the assertions on the header hold |
| Kmalloc.Allocator.Krealloc | kernel/kmalloc.c:239-261 | agrees with the specified reallocation |
| Kmalloc.Allocator.Kreallocarray | kernel/kmalloc.c:267-274 | agrees with the specified call, refused exactly when the product does not fit |
| Kmalloc.Allocator.Kallocarray | kernel/kmalloc.c:276-278 | agrees with the specified call on no old block |
| Kmalloc.Allocator.Kcalloc | kernel/kmalloc.c:301-312 | agrees with the specified zeroed allocation |
| Kmalloc.Allocator.Krecalloc | kernel/kmalloc.c:280-299 | agrees with the specified call |
| Frames.IntShiftIsIntended | kernel/arch/amd64/mmu.c:77-80 | the `int` shift of the source is the intended 64-bit mask if and only if the bit is among the low 31 |
| Frames.SetFrameAsWritten | kernel/arch/amd64/mmu.c:69-83 | as written, `set_frame` changes exactly the frame it names, in every bitmap, if and only if the frame is one of the first 31 of its word |
| Frames.GetFrameAsWritten | kernel/arch/amd64/mmu.c:95-99 | as written, the test of a frame is right in every bitmap if and only if the same holds |
| Frames.ReleaseOf32 | kernel/arch/amd64/mmu.c:79-81 | as written, releasing frame 32 of a full bitmap frees frame 0 and leaves 32 taken |
| Frames.RunIsGrabbed | kernel/arch/amd64/mmu.c:85-113 | which frames a request gets, and which are taken after it, as a function of those taken before |
| Frames.GetsIfRun | kernel/arch/amd64/mmu.c:85-119 | a request is served if and only if the frames taken before it leave a run |
| Frames.StoreBit | kernel/arch/amd64/mmu.c:76-81 | with the intended mask, a store into a word changes one frame's bit |
| Frames.FrameMap.SetFrame | kernel/arch/amd64/mmu.c:69-83 | out of range is refused; otherwise exactly the named frame changes |
| Frames.FrameMap.GetFrame | kernel/arch/amd64/mmu.c:85-119 | the lowest-addressed run of free frames, across words and past full ones; with allocation exactly that run is marked; the assertion fails only if there is no run |
| Frames.FrameMap.MarkRun | kernel/arch/amd64/mmu.c:108-111 | marks exactly the run |
| Frames.ScanFullWord | kernel/arch/amd64/mmu.c:90-93 | a full word may be skipped |
| Frames.ScanFree | kernel/arch/amd64/mmu.c:100-105 | a free frame extends the run; when it completes it, the run is the lowest one |
| Frames.TakenForGood | kernel/arch/amd64/mmu.c:106-112 | over any run of allocations a taken frame stays taken |
| Frames.NoFrameTwice | kernel/arch/amd64/mmu.c:85-119 | no frame is handed out twice, and none that was taken at the start |
| PageTables.WalkStep | kernel/arch/amd64/mmu.c:243-267 | one level of a walk, in a well-formed tree |
| PageTables.SetLeafChangesOnePage | kernel/arch/amd64/mmu.c:156-172 | storing one page's entry changes that page's translation and no other |
| PageTables.InstallAt | kernel/arch/amd64/mmu.c:305-339 | after a table is entered, walks find it at its own place and find nothing else new |
| PageTables.InstallEntry | kernel/arch/amd64/mmu.c:305-339 | and of the entries that lead to tables only its own changes |
| PageTables.InstallKeepsTree | kernel/arch/amd64/mmu.c:305-339 | the tree stays well formed, with no table shared by two places |
| PageTables.InstallKeepsLeaves | kernel/arch/amd64/mmu.c:305-339 | entering an empty table changes no translation |
| PageTables.UserLeafSame | kernel/arch/amd64/mmu.c:486-557 | pages below slot 511 keep their translations whatever happens to slot 511 |
| PageTables.KernelTablesAreShared | kernel/arch/amd64/mmu.c:553-554 | a table under slot 511 belongs to no single directory |
| Mmu.Mmu.VirtualToPhysical | kernel/arch/amd64/mmu.c:234-283 | frame plus the low 12 bits if the page is mapped, nothing otherwise |
| Mmu.Mmu.WriteLeaf | kernel/arch/amd64/mmu.c:156-172 | the entry of one page, which holds no table, changes, and no table |
| Mmu.Mmu.InstallTable | kernel/arch/amd64/mmu.c:306-311 | exactly one table appears, in pages and frames that no table had; the entry for it in the table above is f * 4096 + 3, for its frame f, and no other entry for a table changes; every translation is kept |
| Mmu.Mmu.SetDirectory | kernel/arch/amd64/mmu.c:562-565 | another well-formed directory becomes active, and the old one can become so again |
| Mmu.Mmu.FindFreeRegion | kernel/arch/amd64/mmu.c:125-141 | the first free region from `heap_end` on; every table that the scan meets missing is made, from the first free pages, each in the lowest free frame; nothing else is new. If no page is free before the first page under no table, it takes frames until none is left and the kernel stops; terminates with `AllocatePt` and `Check` |
| Mmu.Mmu.Check | kernel/arch/amd64/mmu.c:363-443 | answers whether the page was free; if it allocates, exactly that page and the pages for its tables are added, with the flags 3, and the entry of each new table is its frame with the flags 3; earlier translations are kept. Without room for a missing table it fails, with one table missing when every frame is taken |
| Mmu.Mmu.AllocatePt | kernel/arch/amd64/mmu.c:305-339 | the table is there afterwards; exactly as many pages are taken as tables were missing, each mapped with the flags 3, and the entry of each new table is its frame with the flags 3; without room for it the search for room comes back to it until the frames are gone |
| Mmu.Mmu.AllocateDirs | kernel/arch/amd64/mmu.c:306-320 | the same for the two upper tables |
| Mmu.Mmu.EnsureTable | kernel/arch/amd64/mmu.c:306-320 | the same for one level |
| Mmu.Mmu.SafeAllocation | kernel/arch/amd64/mmu.c:285-303 | the lowest free frames are mapped at the first free region, page v of it with the entry (f + v) * 4096 + 3, with no table made; it fails if and only if there is no such run of frames, or no page, or one page where two are asked for, is free before the first page under no table |
| Mmu.Mmu.MapRange | kernel/arch/amd64/mmu.c:295-300 | the pages are mapped in order to the frames, to page-aligned ones with the flags 3, and nothing else changes; the assertion fails if and only if the first page is mapped already |
| Mmu.Mmu.MapPage | kernel/arch/amd64/mmu.c:213-215 | one free page under a present table is mapped, an aligned frame with the flags 3, and nothing else changes |
| Mmu.Mmu.MapFrames | kernel/arch/amd64/mmu.c:143-154 | the frames are mapped in order at the first free region, aligned ones with the flags 3; no other translation changes and no frame is taken; it fails if and only if no page is free before the first page under no table |
| Mmu.Mmu.UnmapFrames | kernel/arch/amd64/mmu.c:174-184 | exactly the pages of the range lose their entries, if none of them is a page of a table |
| Mmu.Mmu.CopyFrame | kernel/arch/amd64/mmu.c:471-484 | the page is copied and every mapping is as before; both assertions hold; it fails if and only if fewer than two pages are free before the first page under no table |
| Mmu.Mmu.AllocateNextPt | kernel/arch/amd64/mmu.c:341-354 | the next table is there afterwards, at the cost of one page at most, the first free one |
| Mmu.NextPtAtLastEntry | kernel/arch/amd64/mmu.c:341-354 | in the last group of a PDT the test and the store at index 512 meet the pointer of entry 0: a table is always made, and the table of entry 0 is lost |
| Mmu.Mmu.FindHeapRegion | kernel/arch/amd64/mmu.c:188-197 | both searches end where the plan says; if the last page of the second region is under no table, the first goes to that table |
| Mmu.Mmu.Ksbrk | kernel/arch/amd64/mmu.c:188-232 | for every length: the planned region and the pages for tables are new, each mapped with the flags 3, each page of the region to a frame of its own that was free; exactly the planned tables are there, each entered in the table above with its frame and the flags 3; it succeeds if and only if `Stops` did not hold and the free frames were as many as the pages and the tables made; the reserve for the next growth is there again if and only if the new end is under a table, if and only if `Lands` held before |
| Mmu.Mmu.KsbrkNothing | kernel/arch/amd64/mmu.c:188-195 | a growth of no pages makes the next table and keeps the reserve; it succeeds if and only if that table is there or a frame is free |
| Mmu.StuckOrRoom | kernel/arch/amd64/mmu.c:125-141 | if any page is free, a search for one finds room if and only if it does not come to a page under no table first |
| Mmu.CoveredIsEnough | kernel/arch/amd64/mmu.c:125-141 | a reserve of one page rules out the first failure, one of two pages the second |
| Mmu.LastPageTaken | kernel/arch/amd64/mmu.c:125-141 | a search for two pages that finds only the last one free before a missing table spends it on that table, and returns a region that starts with it |
| Mmu.PlanIs | kernel/arch/amd64/mmu.c:188-197 | the second search ends where the plan, made from the tables of before, says |
| Mmu.SecondMissing | kernel/arch/amd64/mmu.c:196-196 | it meets a missing table if and only if the group of the region's last page has none |
| Mmu.Grew | kernel/arch/amd64/mmu.c:200-221 | what a growth leaves: all pages under tables stay so, and the frontier is kept if and only if the growth lands |
| Mmu.ShortGrowth | kernel/arch/amd64/mmu.c:188-221 | a growth of at most 511 pages always lands, and so does a longer one that ends in the group of the old end or the next one |
| Mmu.BareGrowth | kernel/arch/amd64/mmu.c:188-221 | with no table past `heap_end`'s, its offset in its group decides: where the growth ends, how many tables it makes, whether it lands, whether the kernel stops |
| Mmu.GrowthStaysCovered | kernel/arch/amd64/mmu.c:192-197 | from every offset a growth lands if and only if it is at most 511 pages long |
| Mmu.GrowthFails | kernel/arch/amd64/mmu.c:188-215 | at the last page of a group, 512 pages end under no table and 1024 pages stop the kernel |
| Mmu.UnservedHasNoReserve | kernel/arch/amd64/mmu.c:125-141 | an end under no table has no reserve, however far one looks |
| Mmu.AfterNextPt | kernel/arch/amd64/mmu.c:189-196 | before the second search: which groups have tables, which pages went to them, and that the search has its reserve |
| Mmu.AddedTwice | kernel/arch/amd64/mmu.c:363-443 | pages gained by two steps are disjoint and add up |
| Mmu.EnteredTwice | kernel/arch/amd64/mmu.c:305-339 | the entries made for tables by two steps are each the frame of the table's page with the flags 3, and those of before are kept |
| MmuExample.GrowthsGoWrong | kernel/arch/amd64/mmu.c:188-215 | a well-formed directory and bitmap in which a growth of 512 pages ends under no table and one of 1024 pages stops |
| MmuExample.GrowthRunsDry | kernel/arch/amd64/mmu.c:188-215 | in that state the growth of 512 pages succeeds, and the next one, of any length, stops the kernel with every frame taken |
| MmuHardware.HardwareAgreesIff | kernel/arch/amd64/mmu.c:523-529 | the entry made without the mask holds the new table's frame if and only if the original's frame bits are among that frame's; the masked entries always do |
| MmuHardware.FlagsKept | kernel/arch/amd64/mmu.c:505-550 | at every level the clone's entry has the low 12 bits of the original's, with the mask and without it |
| MmuHardware.LowIntFlags | kernel/arch/amd64/mmu.c:523-523 | an entry stored in an `int` keeps its low 32 bits, and the others become copies of the highest of these |
| MmuHardware.BitOfOr | kernel/arch/amd64/mmu.c:529-529 | a bit of the or is set if and only if one of the two is |
| MmuHardware.WhateverFrame | kernel/arch/amd64/mmu.c:523-529 | it does so for every new frame if and only if the original entry, as an `int`, has no frame bits |
| MmuHardware.FrameFiveToEight | kernel/arch/amd64/mmu.c:523-529 | a table of frame 5 copied to frame 8: the processor goes to frame 13 |
| MmuHardware.CostSuffices | kernel/arch/amd64/mmu.c:285-303 | two pages more than the tables take are enough for any copy |
| MmuHardware.OnlyChildMeans | kernel/arch/amd64/mmu.c:502-551 | for a table with one table below it: frames, pages and the condition on the entries are those of the table below |
| CloneExample.BootLeaf | kernel/arch/amd64/mmu.c:571-643 | the directory after boot with a heap of h pages: exactly its tables, its stack and its heap are mapped, each page to its frame |
| CloneExample.BootTablesMapped | kernel/arch/amd64/mmu.c:571-643 | its tables lie in taken frames of their own |
| CloneExample.BootCopy | kernel/arch/amd64/mmu.c:502-557 | there are pages and frames for its copy, and the condition on the copy's entries holds if and only if h leaves 0 or 1 when divided by 4 |
| CloneExample.CloneAfterBoot | kernel/arch/amd64/mmu.c:535-557 | so `mmu_clone_directory` succeeds on it, and in every memory that holds the tables the processor finds the clone's if and only if h leaves 0 or 1 when divided by 4 |
| MmuHardware.SomeMemoryHolds | kernel/arch/amd64/mmu.c:248-267 | tables in frames of their own can lie in memory together |
| MmuHardware.BitOrKeeps | kernel/arch/amd64/mmu.c:529-529 | or-ing changes nothing if and only if every bit is already there |
| MmuCopy.CopiedKept | kernel/arch/amd64/mmu.c:486-533 | a finished copy of a table stays a copy while cloning goes on |
| MmuCopy.CopiedWalk | kernel/arch/amd64/mmu.c:486-557 | walks in the clone end at copies of what walks in the original end at |
| MmuCopy.CopiedPages | kernel/arch/amd64/mmu.c:486-500 | below slot 511 every page has the same presence, flags and bytes, in a frame that was free |
| MmuCopy.CopiedFlags | kernel/arch/amd64/mmu.c:502-551 | below slot 511 the entry that leads to each table of the clone has the low 12 bits of the original's, and is zero where the original has no table |
| MmuCopy.CopiedFramesDiffer | kernel/arch/amd64/mmu.c:495-496 | two pages of the clone never share a frame |
| MmuCopy.SharedSlot | kernel/arch/amd64/mmu.c:553-554 | two roots with the same last entry agree on every table under it |
| MmuCopy.SharedPages | kernel/arch/amd64/mmu.c:553-554 | and on every page |
| MmuCopy.CopyIsDeep | kernel/arch/amd64/mmu.c:535-557 | copied tables and the shared slot make a deep copy |
| MmuCopy.CopyIsSource | kernel/arch/amd64/mmu.c:535-557 | a clone can be cloned again |
| MmuCopy.CopyIsDirectory | kernel/arch/amd64/mmu.c:535-569 | a clone that shares the active directory's slot 511 is well formed and finds the kernel's tables, as `mmu_set_directory` needs |
| MmuCopy.SharedReserve | kernel/arch/amd64/mmu.c:553-565 | a switch between such directories keeps every reserve |
| MmuCopy.SharedFrontier | kernel/arch/amd64/mmu.c:553-565 | and the heap's frontier |
| MmuCopy.PointsKept | kernel/arch/amd64/mmu.c:486-533 | whether a finished copy's entries hold its tables' frames does not change while cloning goes on |
| MmuCopy.HardwareFollowsIff | kernel/arch/amd64/mmu.c:502-557 | whatever else is in memory, the processor finds the clone's tables on the way to every page below slot 511 if and only if each entry holds the frame of the table it points to |
| MmuCopy.HardwareTranslates | kernel/arch/amd64/mmu.c:502-557 | then it translates every such page as the software does |
| MmuClone.NewTable | kernel/arch/amd64/mmu.c:285-303 | a fresh zeroed table; everything settled before is kept; it fails if and only if there are no frames, or no pages, for it |
| MmuClone.ClonePage | kernel/arch/amd64/mmu.c:495-496 | one page: same flags, same bytes, a frame that was free; it fails if and only if no frame, or fewer than two pages, are left |
| MmuClone.ClonePt | kernel/arch/amd64/mmu.c:486-500 | the new table is a copy of the old one, in the lowest free frames; it fails if and only if the tables, the bitmap and the pages of before say so |
| MmuClone.CloneDir | kernel/arch/amd64/mmu.c:502-551 | the same for the three directory levels, with exactly the pages they cost |
| MmuClone.CloneEntry | kernel/arch/amd64/mmu.c:505-512 | the body of their loops, for an entry that is present |
| MmuClone.CloneTable | kernel/arch/amd64/mmu.c:510-549 | the same for whichever table lies below |
| MmuClone.ForeseenChild | kernel/arch/amd64/mmu.c:502-533 | one more child: frames and entries go on as foretold from the tables and the bitmap of before |
| MmuClone.CloneDirectory | kernel/arch/amd64/mmu.c:535-557 | it succeeds if and only if the tables, the bitmap and the pages that are there after its own `ksbrk` suffice; then the result is a deep copy below slot 511, every entry for a table there has the flags of the original's, it shares that slot, can become active and can be cloned again; the original's translations and every settled frame are unchanged; the processor finds its tables if and only if the tables and the bitmap of before the call meet `Fits` |
| MmuClone.PoolAfterKsbrk | kernel/arch/amd64/mmu.c:535-543 | the pages that `ksbrk` leaves for the copy, told from the tables of before it, are there when the copying starts |
| MmuClone.BarePool | kernel/arch/amd64/mmu.c:535-543 | in the usual state they go from the second page after the old end to the end of the table that the call makes |
| MmuCopy.PoolShort | kernel/arch/amd64/mmu.c:285-303 | with too few pages left before the first missing table, a request finds none, or only the last |
| MmuClone.NeedsNext | kernel/arch/amd64/mmu.c:502-551 | one more entry: what is needed for the rest of a table is what was needed less what the entry took |
| Sha1Vector.DigestOfAbc | kernel/crypto/SHA1/sha1.c:115-178 | the digest of "abc" of FIPS 180: padding, schedule, eighty rounds, constants and byte order together |
| Sha1Spec.ChChooses | kernel/crypto/SHA1/sha1.c:78-81 | bit by bit, Ch is y where x is set and z where it is not |
| Sha1Spec.MajAgrees | kernel/crypto/SHA1/sha1.c:86-89 | where x and y agree Maj is with them |
| Sha1Spec.MajTurns | kernel/crypto/SHA1/sha1.c:86-89 | and so with any two, because it is the same when its arguments turn |
| Sha1Spec.ParityDecides | kernel/crypto/SHA1/sha1.c:82-85 | where x and y agree Parity is z, and where they differ its opposite |
| Sha1Spec.ConstantsAreRoots | kernel/crypto/SHA1/sha1.c:93-107 | the constants are the square roots of 2, 3, 5 and 10 times 2^30, rounded down |
| Sha1Spec.LengthBytes | kernel/crypto/SHA1/sha1.c:70-74 | the length is written in eight bytes, most significant first |
| Sha1Spec.HmacPads | kernel/crypto/SHA1/sha1.c:204-260 | HMAC of a key of at most 64 bytes is the hash of the key with 0x5c and of the hash of the key with 0x36 and the text |
| Sha1Spec.HmacOfLongKey | kernel/crypto/SHA1/sha1.c:204-260 | a longer key counts as its digest |
| Sha1Spec.PaddingIsSmallest | kernel/crypto/SHA1/sha1.c:56-64 | the padding is the smallest solution of section 5.1.1 of FIPS 180-4 |
| Sha1Stream.UpdateTracks | kernel/crypto/SHA1/sha1.c:180-200 | an update takes the context of one message to the context of the longer one |
| Sha1Stream.FinalIsSha1 | kernel/crypto/SHA1/sha1.c:161-178 | finishing gives the digest of the whole message, with one last block or two |
| Sha1Stream.StreamingIsSha1 | kernel/crypto/SHA1/sha1.c:161-200 | for every way of cutting a message, Init, Updates and Final give the one-shot digest of sections 5.1.1 and 6.1.2 of FIPS 180-4 |
| Sha1Stream.BlocksConcat | kernel/crypto/SHA1/sha1.c:193-195 | hashing blocks one after another is hashing their concatenation |
| Sha1.ReverseIsBigEndian | kernel/crypto/SHA1/sha1.c:37-40 | reversing a little-endian load reads the word most significant byte first |
| Sha1.ReversedBytes | kernel/crypto/SHA1/sha1.c:73-74 | storing a reversed word writes it most significant byte first |
| Sha1.PadPositions | kernel/crypto/SHA1/sha1.c:47-71 | the positions and the zero count computed in bits are those of the padding in bytes |
| Sha1.ReverseWords | kernel/crypto/SHA1/sha1.c:117-119 | all sixteen words are reversed in place and no byte outside the block changes |
| Sha1.PadMessage | kernel/crypto/SHA1/sha1.c:42-75 | the two blocks hold the buffered bytes, 0x80, the zeros and the length |
| Sha1.StoreLength | kernel/crypto/SHA1/sha1.c:70-74 | eight bytes hold the length, most significant first |
| Sha1.Context.SHA1_Init | kernel/crypto/SHA1/sha1.c:22-35 | the context of the empty message |
| Sha1.Context.AddBlock | kernel/crypto/SHA1/sha1.c:115-159 | the chaining value becomes the compression of section 6.1.2 of FIPS 180-4; only the block is overwritten |
| Sha1.Context.RunRounds | kernel/crypto/SHA1/sha1.c:135-158 | the eighty rounds and the five sums |
| Sha1.Context.SHA1_Update | kernel/crypto/SHA1/sha1.c:180-200 | agrees with the update of the context as a value |
| Sha1.Context.Append | kernel/crypto/SHA1/sha1.c:186-188 | the bytes follow those buffered, and the rest of the buffer stays zero |
| Sha1.Context.AbsorbBlock | kernel/crypto/SHA1/sha1.c:193-195 | a full buffer is compressed and empty again |
| Sha1.Context.SHA1_Final | kernel/crypto/SHA1/sha1.c:161-178 | agrees with the final step of the context as a value |
| Sha1.Context.WriteDigest | kernel/crypto/SHA1/sha1.c:171-177 | the five words, most significant byte first |
| Sha1.DigestOf | kernel/crypto/SHA1/sha1.c:222-228 | the one-shot digest |
| Sha1.DigestOfTwo | kernel/crypto/SHA1/sha1.c:242-249 | the one-shot digest of the concatenation |
| Sha1.SHA1_HMAC | kernel/crypto/SHA1/sha1.c:204-260 | HMAC of section 2 of RFC 2104 for every key length, shorter, equal and longer than a block |
| RingModel.PutAppends | kernel/ringbuffer.c:36-61 | a write appends the longest prefix that fits in `buffer_size - 1` |
| RingModel.TakeRemoves | kernel/ringbuffer.c:63-85 | a read removes and hands over min(len, used) bytes from the front |
| RingModel.PutKeepsUnread | kernel/ringbuffer.c:53-58 | no unread byte is overwritten by a write |
| RingModel.ChunkAppends | kernel/ringbuffer.c:40-58 | one turn of the loop makes progress and appends what it copied, also where it wraps |
| RingModel.NoRoomIsFull | kernel/ringbuffer.c:40-51 | there is no contiguous room if and only if the ring is full |
| RingModel.EveryRunIsFifo | kernel/ringbuffer.c:36-85 | over every run of writes and reads, bytes leave in the order of their acceptance, none lost, doubled or invented |
| RingModel.EventIsWhole | kernel/drivers/ps2_keyboard.c:152-152 | an event goes in whole if and only if there is room for all of it |
| RingModel.KeyboardEventIsCut | kernel/drivers/ps2_keyboard.c:152-156 | with 127 events queued, two of the three bytes of the next one are accepted |
| RingBuffer.Buffer.constructor | kernel/ringbuffer.c:7-17 | an empty ring over the memory given |
| RingBuffer.Buffer.Used | kernel/ringbuffer.c:19-26 | the number of unread bytes |
| RingBuffer.Buffer.GetCapacity | kernel/ringbuffer.c:28-30 | one less than the size, if and only if the size is not zero; then it wraps around |
| RingBuffer.Buffer.Unused | kernel/ringbuffer.c:32-34 | with the bytes used it makes up the capacity, if and only if the size is not zero; then it wraps around |
| RingBuffer.Buffer.IsEmpty | kernel/ringbuffer.c:87-89 | true if and only if nothing is unread |
| RingBuffer.Buffer.Write | kernel/ringbuffer.c:36-61 | agrees with the write on values; all arithmetic stays below 2^32; terminates |
| RingBuffer.Buffer.StoreChunk | kernel/ringbuffer.c:53-58 | one turn of the loop agrees with the one on values |
| RingBuffer.Buffer.Read | kernel/ringbuffer.c:63-85 | removes min(len, used) bytes with or without a destination; writes them to its front and nothing behind |
| RingInterrupt.EveryScheduleIsFifo | kernel/ringbuffer.c:63-85 | wherever interrupts fall between the steps of a read, each load of the write pointer being one, what is read is a prefix of what was accepted |
| RingInterrupt.StepIsSafe | kernel/ringbuffer.c:36-85 | each step of the reader and each interrupt keeps the ring sound and never takes back a byte delivered |
| RingInterrupt.TwoLoadsMiss | kernel/ringbuffer.c:70-74 | with a write between the two tests of the write pointer one of them succeeds if and only if the bytes do not reach the end of the buffer, or the read pointer is at its start, or is not behind the write pointer |
| RingInterrupt.LostIffWraps | kernel/ringbuffer.c:66-74 | over every run, a read is left without a number of bytes, or with a wrapped one, if and only if an interrupt took the write pointer around the end after the first test |
| RingInterrupt.KeyboardReadMisses | kernel/drivers/ps2_keyboard.c:107-156 | for the keyboard's ring of 384 bytes and an event of three: exactly if the write pointer is at 381 or more and the read pointer between its start and there |
| RingInterrupt.KeyboardExample | kernel/drivers/ps2_keyboard.c:107-156 | so with one event read and 126 waiting, and with one byte read and 381 waiting |
| RingInterrupt.InterruptKeepsUnread | kernel/drivers/ps2_keyboard.c:107-152 | an interrupt overwrites no unread byte, wherever the reader stands |
| RingInterrupt.PutKeepsRun | kernel/ringbuffer.c:70-74 | what a reader found readable stays readable while more is written |
| RingInterrupt.AloneIsTake | kernel/ringbuffer.c:63-85 | without interrupts the steps do exactly what one call does |
| ChaCha.QuarterRoundInverse | kernel/crypto/ChaCha20/chacha20.c:4-6 | the quarter round of section 2.1 of RFC 8439 has a two-sided inverse |
| ChaCha.DoubleRoundInverse | kernel/crypto/ChaCha20/chacha20.c:17-25 | so has the double round |
| ChaCha.CoreIsPermutation | kernel/crypto/ChaCha20/chacha20.c:16-26 | so have the rounds, however many: they are a permutation of states |
| ChaCha.CoreIsInjective | kernel/crypto/ChaCha20/chacha20.c:16-26 | different states stay different |
| ChaCha.QuarterRoundInPlace | kernel/crypto/ChaCha20/chacha20.c:4-6 | the macro on an array is the quarter round on the four words named |
| ChaCha.ChaChaBlock | kernel/crypto/ChaCha20/chacha20.c:9-30 | the block function of section 2.3 of RFC 8439 for every input, also in place |
| ChaChaVector.BlockOfVector | kernel/crypto/ChaCha20/chacha20.c:9-30 | the block of the test vector in section 2.3.2 of RFC 8439: the number of rounds, their order and the sum |
| CsprngModel.MixKeyIs | kernel/csprng.c:34-40 | after a change of key, key and nonce are the first 40 bytes of the 64 just requested, word by word, the count is 0 and all other words are kept |
| CsprngModel.AddHashPoolIs | kernel/csprng.c:67-87 | the stirring puts the folded key in place, keeps all other words, and changes the key from there |
| CsprngModel.BlockInBytes | kernel/csprng.c:56-58 | the words of a block lie one after another in its bytes |
| CsprngModel.RandomIsFresh | kernel/csprng.c:42-62 | a request never gives the block function a counter already used under the present key and nonce |
| CsprngModel.MixIsFresh | kernel/csprng.c:34-40 | nor does changing the key, at the turn of the counter or elsewhere |
| CsprngModel.AddHashPoolIsFresh | kernel/csprng.c:67-87 | nor does stirring in the hash pool, whatever its digest |
| CsprngModel.EveryRunUsesCountersOnce | kernel/csprng.c:34-87 | over every run from boot, two inputs with no write to key or nonce between them have different counters |
| CsprngTrace.EveryRunIsTraced | kernel/csprng.c:34-87 | over every run from boot, two inputs with no write to key or nonce between them agree in every word except the count, in which they differ; the first four words and the last are always those of boot |
| CsprngTrace.RunIsTraced | kernel/csprng.c:34-87 | what is given to the block function follows from the state at the start and the bytes written to it, event by event |
| CsprngTrace.InputsAgree | kernel/csprng.c:34-87 | with no write between them two inputs agree in every word but the count |
| CsprngTrace.WriteIsSeen | kernel/csprng.c:37-38 | a word that bytes were written to holds them, as a little-endian word, in every later input until the next write to it |
| CsprngModel.FoldedReaches | kernel/csprng.c:73-75 | the digest reaches every fourth byte of the key and no other: each gets the exclusive or of two digest bytes, the first four of three |
| CsprngModel.TurnSpendsTheLast | kernel/csprng.c:45-54 | at the turn the last counter value makes one block, of which bytes 0 to 31 become the key and 32 to 39 the nonce |
| CsprngModel.RandomIsKeystream | kernel/csprng.c:55-60 | the output is the keystream of just enough blocks, the last one cut |
| CsprngModel.InputsAreSuccessive | kernel/csprng.c:45-57 | each block's counter is one more than the last under the same key and nonce, or starts at zero under new ones |
| CsprngModel.RequestsJoin | kernel/csprng.c:42-62 | two requests give what one gives, if the first ends with a block |
| Csprng.Generator.constructor | kernel/csprng.c:12-32 | the state at boot, nothing used |
| Csprng.Generator.MixChacha | kernel/csprng.c:34-40 | agrees with the change of key on values; terminates with `GetRandom` |
| Csprng.Generator.GetRandom | kernel/csprng.c:42-62 | agrees with the request on values: state, bytes and everything given to the block function |
| Csprng.Generator.AddHashPool | kernel/csprng.c:67-87 | the steps of the stirring on the generator agree with those on values |
| EntropyModel.EveryRunLosesNothing | kernel/csprng.c:42-122 | over every run from boot: the bytes given, worked out from the calls alone, go into one message to be hashed, in order; each message starts with the digest of the one before and a block of the keystream; no counter is used twice under one key and nonce |
| EntropyModel.StepIsSound | kernel/csprng.c:42-117 | each call keeps that |
| EntropyModel.SizeIsTotal | kernel/csprng.c:99-107 | `hash_pool_size` is the number of bytes given since boot, modulo 2^32 |
| EntropyModel.EveryGiftStirs | kernel/csprng.c:99-107 | once it is 40, every further call stirs the pool, until it wraps |
| EntropyModel.StirsIff | kernel/csprng.c:99-107 | a call stirs the pool, with the message that ends with the fast state and its bytes, if and only if the count is then at least 40 |
| EntropyModel.StirringTakesTheDigest | kernel/csprng.c:67-87 | the stirring takes the digest of the message into the key, and the digest and a new block start the next message |
| EntropyModel.RunIsGiven | kernel/csprng.c:99-117 | what a run gives follows from the fast state and the calls |
| EntropyModel.XorShiftUndone | kernel/csprng.c:91-97 | the step of the fast state can be undone, and leads to zero from zero only |
| EntropyModel.MixingKeepsApart | kernel/csprng.c:109-117 | fast bytes lead different states to different states |
| EntropyModel.PlacedAt | kernel/csprng.c:111-111 | a fast byte is moved up to byte i % 8 of the state |
| EntropyModel.MixedEight | kernel/csprng.c:109-116 | eight fast bytes go into the eight bytes of the state, with one step after the first |
| EntropyModel.FastBytesMean | kernel/csprng.c:100-100 | the fast state goes into the message least significant byte first |
| EntropyModel.XorShiftOfWords | kernel/csprng.c:91-97 | the step of the fast state, on three words |
| Entropy.Pool.constructor | kernel/csprng.c:119-122 | the state at boot: an empty message in the pool |
| Entropy.Pool.Hash | kernel/csprng.c:80-84 | the bytes follow those that are in the pool |
| Entropy.Pool.AddHashPool | kernel/csprng.c:67-87 | the key takes the SHA-1 digest of exactly the message in the pool, by section 6.1.2 of FIPS 180-4, and the pool starts again with it; agrees with the stirring on values |
| Entropy.Pool.AddEntropy | kernel/csprng.c:99-107 | agrees with the call on values, stirring if and only if the count has reached 40 |
| Entropy.Pool.XorShift64 | kernel/csprng.c:91-97 | the three steps in place |
| Entropy.Pool.AddEntropyFast | kernel/csprng.c:109-117 | the loop agrees with the mixing on values |
| Scheduling.RoundRobin | kernel/task.c:51-62 | in as many switches as there are tasks each runs exactly once, and then the round repeats |
| Scheduling.WaitFalls | kernel/task.c:59-62 | a switch brings every other task one step nearer |
| Scheduling.WaitRises | kernel/task.c:39-40 | a creation puts a task off by one at most |
| Scheduling.NewTaskWaits | kernel/task.c:30-62 | a new task first runs when its parent and the tasks behind it have had their turns, and its parent runs on |
| Scheduling.NoTaskStarves | kernel/task.c:39-62 | with k creations among the switches each of n tasks runs within n + k switches |
| Tasks.Scheduler.TaskInit | kernel/task.c:11-23 | one task, running; without memory there is none |
| Tasks.Scheduler.TaskCreate | kernel/task.c:30-40 | the new task becomes the head and the parent runs on; without memory nothing changes |
| Tasks.Scheduler.TaskNext | kernel/task.c:51-57 | the next in the list, or the head after the last |
| Tasks.Scheduler.LegacySwitch | kernel/task.c:59-62 | the linked list moves on as the list of tasks does |
| FormatNumber.DigitsMean | kernel/kprintf.c:77-79 | the digits evaluate to the number |
| FormatNumber.DigitsAreMinimal | kernel/kprintf.c:77-79 | there are as few digits as there can be |
| FormatNumber.DigitsFit | kernel/kprintf.c:63-79 | a 64-bit number in base 8 or more has at most 22 digits, so `str` never overflows |
| FormatNumber.PrintedNumber | kernel/kprintf.c:60-106 | a printed number reads back as itself, has no needless digit, is max(prefix, length) wide, and is filled with blanks or zeros |
| FormatMeaning.NumberConverts | kernel/kprintf.c:253-316 | d, i, u, o, x and p send text if and only if there is an argument of the right size, a precision only for d and i, and not -2^63 |
| FormatMeaning.NumberMeans | kernel/kprintf.c:253-316 | the text reads back, in base 10, 8 or 16, as the argument's 32 or 64 bits, signed or not, at its place in the width asked for |
| FormatMeaning.LongUnsigned | kernel/kprintf.c:273-286 | `%lu` shows its argument if and only if it is below 2^63; 2^63 stops the formatter, and a larger one is shown as negative |
| FormatMeaning.StringMeans | kernel/kprintf.c:131-163 | a string comes in its width or cut to its precision, `NULL` as such, and the other combinations stop |
| FormatMeaning.CharacterMeans | kernel/kprintf.c:317-327 | %c sends the low byte of an argument, %% a percent sign and takes none |
| FormatSyntax.ParsesWritten | kernel/kprintf.c:187-340 | a format string written from directives is carried out directive by directive |
| FormatSyntax.InsideWidth | kernel/kprintf.c:224-248 | the digits of a width are read back as that width |
| FormatSyntax.DotNumber | kernel/kprintf.c:165-185 | the digits of a precision are read back as that precision |
| FormatSyntax.FormatsAsIntended | kernel/kprintf.c:249-286 | for arguments that fit, the text is the intended one if and only if no directive meets a harmful long level left by an earlier one; otherwise the formatter stops |
| FormatSyntax.LongLevelStays | kernel/kprintf.c:273-286 | `%lu%u` does not read its second argument as written |
| Kprintf.Context.SnWrite | kernel/kprintf.c:347-355 | the buffer holds as much as fits of all that was sent, then the terminator; nothing behind it changes |
| Kprintf.Context.SerialWrite | kernel/kprintf.c:373-378 | the port takes all that was sent |
| Kprintf.Context.StoreDigits | kernel/kprintf.c:73-80 | the digits, least significant first |
| Kprintf.Context.PrintNum | kernel/kprintf.c:60-106 | sends the number's text and returns its length, above -2^63 |
| Kprintf.Context.PrintUnum | kernel/kprintf.c:23-58 | the same for an unsigned number |
| Kprintf.Context.PrintString | kernel/kprintf.c:131-163 | sends the padded or cut string and counts it, or stops at an assertion |
| Kprintf.ParsePrecisionAt | kernel/kprintf.c:165-185 | the precision's value, or the argument's, and where the scan goes on |
| Kprintf.ParseFlag | kernel/kprintf.c:213-252 | a character inside a directive that sends nothing leaves the text to come as it was |
| Kprintf.Context.PrintConversion | kernel/kprintf.c:253-338 | a conversion sends its text, takes its arguments and resets the flags |
| Kprintf.Context.Vkcprintf | kernel/kprintf.c:187-340 | sends the formatted text and returns the number of characters sent, whichever the sink; stops exactly when the formatted text is not defined |
| Kprintf.Ksnprintf | kernel/kprintf.c:357-371 | the first min(size, n) characters of the same text, a terminator if and only if anything was sent, and n as the result |
| Kprintf.Kprintf | kernel/kprintf.c:387-393 | the whole text goes to the port |

## Left out

- The `KMALLOC_DEBUG` build, `kmalloc_scan`, and the initialisation of the heap inside `find_free_entry`: the kernel asserts `kmalloc_init` at boot, so `head` is set.
- The three bytes of padding in a header, which no code reads or writes.
- `total_heap_size` is kept by the allocator but nothing reads it.
- A failed `ksbrk` in the middle of a growth: it stops the kernel, and the heap only sees whole answers.
- `mmu_init` with its walk of the multiboot tags: the model starts from a valid tree and a filled bitmap. Page-table caching (`flush_tlb`), CR3 and stack switching are not modelled.
- `mmu_update_stack`, and `check_virtual_region_is_free` on pages outside the kernel's slot with no reserve.
- Kmalloc.Allocator.IntKmalloc: a call that overruns (`Overruns`) is excluded, because it writes a header past the block it found. That grants and the whole heap are below 4 GiB (`GrantOk`) is what `HeapGrants.HeapSbrk` ensures.
- Frames.FrameMap.SetFrame: uses the intended 64-bit mask, as does `GetFrame`.
- Mmu.Mmu.AllocateNextPt: the last entry of a page directory table is excluded, because there the source indexes one past the table; `NextPtAtLastEntry` says what happens instead, except for the word behind the table that is written too. `Frontier` keeps the heap away from it.
- Mmu.Mmu.Ksbrk: the frontier is free up to `top`, past all pages that the growth can reach.
- MmuClone.CloneDir: one method stands for `clone_pdt`, `clone_pdpt` and the loop of `mmu_clone_directory`, by level; a child's entry is stored once, with its flags, instead of in two stores.
- MmuClone.CloneDirectory: the struct that `ksbrk` makes room for is a page and two results, not memory; a pool that does not end at a missing table holds the whole copy.
- Mmu.Mmu.AllocatePt: for a group with two or three tables missing the reserve is one run of three or five pages, where the code would take two or three runs.
- Mmu.Mmu.SafeAllocation: one page or two, which is what its callers ask for; for two, a search that passes single free pages before it comes to a missing table is not modelled.
- Sha1.SHA1_HMAC: the message with its pad, and the key, are below 2^61 bytes.
- Csprng.Generator.AddHashPool: the digest of the hash pool is a parameter and the block fed back to it a result; `Entropy.Pool.AddHashPool` has the rest.
- Entropy.Pool.AddEntropy: a message between two stirrings is below 2^61 bytes.
- RingBuffer.Buffer.constructor: the answer of `ringbuffer_init` is whether there was memory, which is a parameter.
- RingInterrupt.StepIsSafe: a read that is lost stops there; the writer runs to completion, as an interrupt handler does; two ends stepping at once are not modelled.
- Tasks.Scheduler.TaskCreate: only the list; directories and stacks (`weird_switch`, `switch_to_task`) are left out.
- Kprintf.Context.Vkcprintf: widths, precisions and counts are unbounded where the source has `int`; an unknown conversion stops before the message about it; an argument of another size than asked for stops the model, where the source would read something undefined.
- Kprintf.Context.PrintUnum: bases from 8 up, which are those used; below, `str` is too short for 64 bits.
- Kprintf.Context.PrintNum: bases from 8 up, and -2^63 is excluded, because the source negates it in 64 bits.
- `ksnprintf` with a size above `INT_MAX`.
- Drivers, interrupt tables, PCI, AHCI, serial port, keyboard tables, log and framebuffer.
