# MmdOS: a verified model of memory, processes and files

This project models the core of MmdOS, an x86-64 kernel, in Dafny and proves what its parts promise each other:

- **Page tables** (`Bits`, `Pte`, `PageTable`, `VirtualMemory`, `VmmRuns`, `VmmInit`). The four-level trees that
  `vmm.c` edits in place refine a flat table with one entry per virtual page. `Slot(mem, root, v)` is that flat table,
  read off the words in physical memory. A ghost `shape` records where each table frame hangs; the separation
  invariant `Inv` says that every present upper entry leads to the place below it. From it follow the exact effect of
  each call on every page of every address space, the complete map that `vmm_init` ends with, and the agreement of all
  address spaces on the higher half over any sequence of calls.
- **Page frames** (`Bitmap`, `NextFit`, `PhysicalMemory`, `PmmInit`, `PmmThreads`). The byte bitmap refines a bit
  sequence, the scanning loop refines a next-fit choice defined without a loop, and any run of requests conserves
  pages. `PmmThreads` takes the same code apart into compare-and-swap, single scan iterations, single bit updates,
  release and zeroing, lets any number of threads interleave them, and proves exclusion, disjointness and that each
  allocation and release is atomic.
- **Kernel heap** (`KernelHeap`, `Boot`). `k_alloc` and `k_free` over the two parts above, then, from `vmm_init` on, any
  mix of them with `vmm_new` and with stores of the clients to their payloads.
- **Processes** (`Scheduling`, `SchedulerRuns`, `ProcessList`). `schedule()` on the linked list is proved against a
  function on values; about that function: the exact condition for termination, the run invariant, a bound on waiting,
  the fate of those that exit, and the integrity of saved contexts, page tables and stacks.
- **Files** (`Tar`, `Ustar`, `OpenFiles`, `Vfs`). A pure serializer for the "ustar Interchange Format" of
  IEEE Std 1003.1 (`pax`) and the kernel's reader as its inverse, reference counts of open files, and the read cursor.

A panic is the outcome `Halted`; what a method promises it promises when it returns, and it says when it halts. Words
are naturals with the C operators written out (`Bits`), and wrap-around is explicit wherever the code can wrap:
`% TWO64` in `vmm_new`, `vmm_init` and `k_alloc`, 16 bits for the quantum and the reference count.

## What the model assumes

- Loads and stores through the direct map are plain accesses to physical memory; there is no TLB and no page fault.
- Calls run to completion one after another, except in `PmmThreads`, which is about their interleaving.
- The boot protocol gives page-aligned, nonempty, disjoint usable entries, at most 255 of them, and page 0 is not
  usable (`MemoryMapOk`). `vmm_init` gets a higher-half image (`ImageOk`) and direct map (`DirectMapOk`).
- `timer_get_uptime` and the saved register context are parameters; uptime does not change within one tick.
- No code of the kernel puts a process to sleep. The scheduler's loop is nevertheless modelled with sleepers, and the
  results about single ticks cover them; the results about whole runs of ticks, creations and exits (`RunOk`) have none.

## Where the code does not do what it is for

- `walk_pte` links tables without `PTE_USER`, so user code can access no page, whatever flags it is mapped with
  (`PageTable.RightsAreLeaf`).
- `pmm_init` rounds `top / 8` down before aligning, so the last pages can lack a bit (`PmmInit.BitmapCoversIff`,
  `PmmInit.BitmapTooShort`).
- The wrapped search of `pmm_alloc_nozero` does not look across the cursor (`NextFit.ChooseFailsIff`,
  `NextFit.FailureBoundTight`).
- `vmm_virt2phys` need not answer 0 for an unbound page. A map call with a frame and no `PTE_PRESENT`, or a flag
  change that takes `PTE_PRESENT` from a bound page, leaves one whose lookup answers the frame
  (`PageTable.StaleLookup`, `PageTable.StaleAfterChangeFlag`); the calls that keep lookups exact are exactly the others
  (`PageTable.TidyAfterMapIff`, `PageTable.TidyAfterChangeFlagIff`), so they stay exact over every run whose flags all
  have `PTE_PRESENT` (`VmmRuns.FromBoot`).
- `vmm_new` adds the direct-map base twice. The two frames it uses are the allocator's next two choices
  (`VirtualMemory.Vmm.NewSpace`), so before the call it is known which pages it maps, and it changes translations
  unless both are bound (`VirtualMemory.NewUnchangedIff`). After `vmm_init` it leaves the kernel's map as it is exactly
  when both pages are in that map (`Boot.FirstSpace`); with the base a multiple of 2^47 that means exactly when both
  frames lie below 4 GiB (`Boot.FrameKeptIff`). The page of a higher frame comes to name a wrong frame
  (`Boot.FrameMisnamed`).
- `k_alloc` wraps for sizes near 2^64 (`KernelHeap.PayloadFitsIff`); the largest size gets one page
  (`KernelHeap.HugeSizeWraps`).
- A tick can leave the current process on the page table and stack of another. It does so exactly when the first
  process it meets awake is one that does not switch, as a woken sleeper, and is not the one already loaded
  (`SchedulerRuns.TickLoadsIff`, `SchedulerRuns.WakesOnForeignTables`).
- `oct_ascii_to_dec` skips the first digit (`Ustar.SizeRoundTripIff`).
- `is_already_open` compares the prefix field instead of the name, so it matches only the empty path
  (`OpenFiles.SharedIff`, `OpenFiles.OpenedTwice`), and a sixteen-bit count can wrap (`OpenFiles.OpenCountsIff`), as it
  does on the 65535th open of the empty path after one of a file (`OpenFiles.CountWraps`).

## Model

| member | source | states |
|---|---|---|
| Pte.AddrBits | src/kernel/mm/vmm.h:19-22 | masking with PTE_ADDR yields the byte address of the 40-bit frame number |
| Pte.Decode | src/kernel/mm/vmm.c:100-103 | the four masked shifts select the four indices of the page of the address |
| Pte.SamePage | src/kernel/mm/vmm.c:100-103 | two addresses select the same indices iff their page numbers agree modulo 2^36 |
| Pte.Pack | src/kernel/mm/vmm.c:125 | physical OR flags decodes to the same frame and flags when the flags have no address bits |
| Pte.OrDecodes | src/kernel/mm/vmm.c:125 | for any operands the word is present iff one of them is, and names no frame iff neither does |
| Pte.LinkWordDecodes | src/kernel/mm/vmm.c:37 | the entry that links a new table is present, leads to that table, forbids neither writing nor execution, and does not admit user code |
| Pte.DoubleOffset | src/kernel/mm/vmm.c:51-55 | adding twice a base that is a multiple of 2^47, modulo 2^64, selects the page without it |
| Pte.IsPresent | src/kernel/mm/vmm.h:15 | the PTE_PRESENT test is the lowest bit |
| Pte.GetAddr | src/kernel/mm/vmm.h:22 | PTE_GET_ADDR is the frame number times the page size |
| PageTable.WalkPlaces | src/kernel/mm/vmm.c:105-117 | in a separated tree a walk meets only known tables, each at the place its indices lead to |
| PageTable.LeafCellUnique | src/kernel/mm/vmm.c:105-125 | two walks that end in the same leaf cell are for the same page and share the level-3 table |
| PageTable.RightsAreLeaf | src/kernel/mm/vmm.c:33-38 | the rights on a page, combined over the four entries of its walk, are the write and execute rights of its leaf entry; user code may access no page, whatever its leaf says |
| PageTable.LinkTable | src/kernel/mm/vmm.c:33-38 | hanging a zeroed fresh table into an absent entry keeps separation and every translation of every root |
| PageTable.WriteLeaf | src/kernel/mm/vmm.c:125 | a leaf write changes the flat table for exactly the walks that end in that cell |
| PageTable.WritePage | src/kernel/mm/vmm.c:118-125 | a leaf write changes one page, in this root and the roots that share its root entry, and nothing else |
| PageTable.LinkGrows | src/kernel/mm/vmm.c:33-38 | the allocating branch only takes a free frame as a lower table and changes no translation |
| PageTable.WalkThenWrite | src/kernel/mm/vmm.c:105-125 | a walk that may allocate three tables, then a leaf write: one page changes, the state stays sound |
| PageTable.WrittenMapping | src/kernel/mm/vmm.c:118-125 | on the map of bound pages a write is an update, or a removal if the entry is not present |
| PageTable.MapBinds | src/kernel/mm/vmm.c:95-135 | for a frame below 2^40 and present flags without address bits, map inserts exactly that frame and flags and keeps an existing binding |
| PageTable.ChangeFlagBinds | src/kernel/mm/vmm.c:201-206 | for present flags without address bits a flag change keeps the frame of a bound page, gives it exactly these flags, and changes no other binding |
| PageTable.SpareKept | src/kernel/mm/vmm.c:33-38 | a table linked on a walk is one free frame less and one missing table less |
| PageTable.MapThenUnmap | src/kernel/mm/vmm.c:95-175 | mapping an unbound page and unmapping it restores every address space, sharing or not |
| PageTable.NotNewlyShared | src/kernel/mm/vmm.c:33-38 | a page bound in one root does not come to be shared with another, because new links lead to new tables |
| PageTable.TidyKept | src/kernel/mm/vmm.c:238-246 | unbound pages of all roots go on naming no frame iff the entry written is present or names none |
| PageTable.TidyAfterMapIff | src/kernel/mm/vmm.c:118-125 | for any arguments a map call keeps lookups of unbound pages at 0 iff the page was bound, the word has PTE_PRESENT, or it names no frame |
| PageTable.TidyAfterChangeFlagIff | src/kernel/mm/vmm.c:201-206 | for any flags a flag change keeps lookups of unbound pages at 0 iff the page was unbound, the flags have PTE_PRESENT, or no frame is left |
| PageTable.LookupExact | src/kernel/mm/vmm.c:238-246 | where unbound pages name no frame, the entry gives the frame of a bound page and 0 for an unbound one |
| PageTable.StaleLookup | src/kernel/mm/vmm.c:125-125 | a frame mapped without PTE_PRESENT leaves an unbound page whose lookup answers that frame |
| PageTable.StaleAfterChangeFlag | src/kernel/mm/vmm.c:206-206 | so does taking PTE_PRESENT from a bound page |
| PageTable.CopySound | src/kernel/mm/vmm.c:57-60 | copying all root entries gives a root that translates as the kernel's, and disturbs no other |
| PageTable.SpaceComposed | src/kernel/mm/vmm.c:42-63 | the steps of vmm_new together: two free frames, grown tables, a root that equals the kernel's entry by entry |
| PageTable.SpaceTranslates | src/kernel/mm/vmm.c:57-60 | the new address space translates every page exactly as the kernel's does then |
| PageTable.MappedTwice | src/kernel/mm/vmm.c:51-55 | every page of every root after two map calls: only the two pages change, only where unbound, in this root and the roots that share its entry |
| PageTable.UnchangedIff | src/kernel/mm/vmm.c:51-55 | so two map calls change no translation iff both pages were bound |
| PageTable.HigherHalfAgrees | src/kernel/mm/vmm.c:257-262 | roots holding the kernel's upper 256 present entries translate every higher-half page as the kernel does |
| PageTable.CoherenceKept | src/kernel/mm/vmm.c:23-39 | whatever only grows tables keeps those entries |
| PageTable.SpaceCoherent | src/kernel/mm/vmm.c:57-60 | a new address space joins the agreement |
| VirtualMemory.Vmm.WalkPte | src/kernel/mm/vmm.c:23-39 | the child table, or NULL, or a fresh one that leaves every translation as it was; no change at all without alloc; halts only when the entry is absent and no frame is free |
| VirtualMemory.Vmm.Walk | src/kernel/mm/vmm.c:105-117 | the leaf table of the address; allocation on the way changes no translation of any root; halts iff fewer frames are free than tables missing, else takes exactly these |
| VirtualMemory.Vmm.MapPage | src/kernel/mm/vmm.c:95-135 | halts iff the missing tables outnumber the free frames, and otherwise takes exactly as many; returns true; binds the page unless it is bound; no other page of any unshared root changes |
| VirtualMemory.Vmm.UnmapPage | src/kernel/mm/vmm.c:137-175 | succeeds iff the page was bound, then unbinds exactly it; allocates nothing |
| VirtualMemory.Vmm.ChangeFlag | src/kernel/mm/vmm.c:177-213 | succeeds iff the page was bound; it keeps its frame and gets the flags; an unbound page keeps its entry; frames taken and halt as for map |
| VirtualMemory.Vmm.VirtToPhys | src/kernel/mm/vmm.c:215-246 | the frame address in the entry; 0 for an unbound page of a tidy state; no translation changes; frames taken and halt as for map |
| VirtualMemory.Vmm.CopyRoot | src/kernel/mm/vmm.c:57-60 | the loop copies all 512 entries and nothing else |
| VirtualMemory.Vmm.NewSpace | src/kernel/mm/vmm.c:42-63 | its two frames are the allocator's next two choices; a new root equal to the kernel's; for any base, the translations there were change in exactly the two pages it maps (base added twice, modulo 2^64), where unbound, and to exactly the words it offers; with eight free frames it does not halt, and a halt leaves none free |
| VirtualMemory.NewUnchangedIff | src/kernel/mm/vmm.c:51-55 | all existing translations stay iff those two pages were bound before the call |
| VmmRuns.SharedForEver | src/kernel/mm/vmm.c:23-39 | once two roots hold the same present entry, every page below it translates alike in both from then on |
| VmmRuns.Perform | src/kernel/mm/vmm.c:42-246 | one call on any address space has exactly its effect on that space and keeps old tables, present upper entries and higher-half agreement; with PTE_PRESENT in its flags also exact lookups; a halt leaves no frame free |
| VmmRuns.Run | src/kernel/mm/vmm.c:42-246 | after any sequence of calls every address space translates every higher-half page as the kernel does; if all flags have PTE_PRESENT, lookups stay exact |
| VmmRuns.FromBoot | src/kernel/mm/vmm.c:42-311 | both hold after vmm_init and any sequence of calls, for every address space created on the way; a halt leaves no frame free |
| VmmInit.NewKernelRoot | src/kernel/mm/vmm.c:249-262 | an empty flat table whose upper 256 root entries are present |
| VmmInit.MapSegment | src/kernel/mm/vmm.c:274-280 | an image loop binds exactly its unbound pages to virtual minus virtual base plus physical base |
| VmmInit.MapLow | src/kernel/mm/vmm.c:300-311 | the last loop binds exactly the unbound low pages and their direct-map pages |
| VmmInit.Init | src/kernel/mm/vmm.c:248-311 | for every one of the 2^36 pages the entry after vmm_init, and the higher-half agreement; it halts only when no frame is left |
| VmmInit.BoundExactly | src/kernel/mm/vmm.c:264-311 | a page is bound iff it is in the image, in [4 KiB, 4 GiB), or hhdm above that range |
| VmmInit.LowFrames | src/kernel/mm/vmm.c:300-311 | every low page a leads to a, writable; hhdm + a leads to a, writable and not executable, unless the image is there |
| VmmInit.LowRights | src/kernel/mm/vmm.c:299-311 | low pages may be written and executed, their direct map may be written and not executed, all levels taken together |
| VmmInit.SegmentsDisjoint | linker.ld:27-49 | with a page between segments the rounded segments do not meet |
| VmmInit.SegmentPages | src/kernel/mm/vmm.c:264-273 | the pages of a rounded segment are exactly those that hold a byte of it |
| VmmInit.ImageEntry | src/kernel/mm/vmm.c:274-297 | every image page leads to its own frame with exactly the flags of its segment |
| VmmInit.ImageRights | src/kernel/mm/vmm.c:274-297 | text may be executed and not written, data written and not executed, rodata neither, all levels taken together |
| VmmInit.WriteXorExecute | src/kernel/mm/vmm.c:274-297 | so no page of the kernel image is both writable and executable |
| VmmInit.IdentityBound | src/kernel/mm/vmm.c:299-304 | every frame below 4 GiB but the first is bound at its own address after vmm_init |
| Bitmap.SetRefines | src/kernel/mm/bitmap.h:5-7 | the byte update sets exactly one bit of the page set |
| Bitmap.ClearRefines | src/kernel/mm/bitmap.h:9-11 | the byte update clears exactly one bit of the page set |
| Bitmap.Set | src/kernel/mm/bitmap.h:5-7 | in place: bit set, all others as before |
| Bitmap.Clear | src/kernel/mm/bitmap.h:9-11 | in place: bit cleared, all others as before |
| Bitmap.Get | src/kernel/mm/bitmap.h:13-15 | reads the bit of the page set |
| NextFit.FirstRun | src/kernel/mm/pmm.c:108-132 | the lowest free run of n pages within bounds, or none exists |
| NextFit.ScanStep | src/kernel/mm/pmm.c:112-128 | one loop iteration keeps what the scan knows, or completes the lowest run |
| NextFit.ScanEnd | src/kernel/mm/pmm.c:131 | a scan that reaches its limit proves that no run lies within it |
| NextFit.ChosenIsFree | src/kernel/mm/pmm.c:134-152 | the chosen block is a free run of n pages above page 0 |
| NextFit.ChooseIff | src/kernel/mm/pmm.c:134-147 | block s is chosen iff it is the lowest free run of n pages from the cursor on, or none starts there and it is the lowest one that lies below the cursor |
| NextFit.ChooseFailsIff | src/kernel/mm/pmm.c:137-146 | a request fails iff every free run of n pages straddles the cursor |
| NextFit.FailureBound | src/kernel/mm/pmm.c:140-146 | after a failure there is no free run of 2n - 1 pages, and for n = 1 no free page |
| NextFit.FailureBoundTight | src/kernel/mm/pmm.c:140-146 | for every n > 1 a pool with a free run of 2n - 2 pages on which the request fails |
| NextFit.AllocKeepsAccount | src/kernel/mm/pmm.c:134-152 | an allocation keeps: set bits are reserved pages plus disjoint live blocks |
| NextFit.FreeKeepsAccount | src/kernel/mm/pmm.c:165-181 | so does freeing a live block |
| NextFit.Conservation | src/kernel/mm/pmm.c:108-181 | so does any run; with all blocks returned the bitmap is the initial one |
| NextFit.NeverPageZero | src/kernel/mm/pmm.c:131-152 | with page 0 reserved no request is given page 0, so NULL is unambiguous |
| PhysicalMemory.Pmm.Scan | src/kernel/mm/pmm.c:112-128 | the loop stops behind the lowest run from the cursor on, or at the limit if there is none |
| PhysicalMemory.Pmm.PhysicalAlloc | src/kernel/mm/pmm.c:108-132 | takes exactly that run, or returns NULL and takes nothing |
| PhysicalMemory.Pmm.AllocNozero | src/kernel/mm/pmm.c:134-152 | lowest run above the cursor, else lowest below it, else halt; new bitmap and cursor exactly |
| PhysicalMemory.Pmm.Alloc | src/kernel/mm/pmm.c:154-163 | as above, and exactly the block's pages are zeroed |
| PhysicalMemory.Pmm.Free | src/kernel/mm/pmm.c:165-181 | halts iff a page of the block is free; otherwise clears exactly the block's bits; the allocator stays sound iff page 0 is not among them |
| PhysicalMemory.Pmm.Run | src/kernel/mm/pmm.c:108-181 | any run of requests on the byte bitmap follows the run on values: set bits are the initial ones plus disjoint live blocks, and the initial ones once all are returned |
| PmmInit.BitmapCoversIff | src/kernel/mm/pmm.c:58-59 | every page below top has a bit iff top % 8 == 0 or top / 8 is not a multiple of 4096 |
| PmmInit.BitmapTooShort | src/kernel/mm/pmm.c:58-59 | a memory map whose last usable page has no bit |
| PmmInit.HighestReached | src/kernel/mm/pmm.c:40-56 | the highest address is the end of a usable entry |
| PmmInit.FindTop | src/kernel/mm/pmm.c:40-58 | no usable entry ends above top, and some usable entry ends there |
| PmmInit.PlaceBitmap | src/kernel/mm/pmm.c:63-85 | the first usable entry that is large enough gives up its first bytes; no other entry changes |
| PmmInit.TrimOffers | src/kernel/mm/pmm.c:79-82 | that removes exactly the bitmap's own pages from what the map offers |
| PmmInit.ClearEntry | src/kernel/mm/pmm.c:101-104 | clears exactly the bits of the pages of one entry |
| PmmInit.ClearAll | src/kernel/mm/pmm.c:92-105 | a page is free iff some usable entry offers it |
| PmmInit.Init | src/kernel/mm/pmm.c:33-106 | halts iff no entry can hold the bitmap; else free pages are the offered pages less those of the bitmap |
| PmmInit.BitmapNeverHandedOut | src/kernel/mm/pmm.c:73-82 | from the state pmm_init leaves, in every run of requests, no live block contains a page of the bitmap |
| PmmInit.FromBoot | src/kernel/mm/pmm.c:33-181 | so in the code: pmm_init and then any requests on the bitmap it built; it halts exactly where pmm_init finds no room or the run on values cannot serve a request |
| PmmThreads.ExclusiveKept | src/kernel/lib/spinlock.h:18-26 | every step keeps: at most one thread is inside, and the lock is taken iff one is |
| PmmThreads.ScanKeeps | src/kernel/mm/pmm.c:112-128 | a single scan iteration keeps what the thread inside knows about bitmap and cursor |
| PmmThreads.OthersKnow | src/kernel/mm/pmm.c:134-181 | no step changes what another thread knows |
| PmmThreads.StepKeepsInv | src/kernel/mm/pmm.c:134-181 | every step of every thread keeps exclusion, the partition of pages and the threads' knowledge |
| PmmThreads.RunKeepsInv | src/kernel/mm/pmm.c:134-181 | so does every schedule |
| PmmThreads.ForeignPagesSafe | src/kernel/mm/pmm.c:154-163 | no step of one thread, zeroing included, changes or takes a page of another |
| PmmThreads.SinceRun | src/kernel/mm/pmm.c:134-181 | while a thread stays inside, bitmap and cursor are what it made of those it found on entry |
| PmmThreads.AllocIsAtomic | src/kernel/mm/pmm.c:134-152 | with page 0 reserved: at release the block, never at page 0, and the state are those of one atomic next-fit choice on the state at entry; a halt means that choice fails |
| PmmThreads.FreeIsAtomic | src/kernel/mm/pmm.c:165-181 | at release the bitmap is the one at entry with exactly the block cleared, and no halt happens |
| PmmThreads.AllocAlone | src/kernel/mm/pmm.c:134-163 | from any reachable state with the lock free, the steps of one thread together are the sequential allocation: next fit's block marked, cleared and held, cursor behind it, lock free, nothing else changed; without a block it panics |
| PmmThreads.FreeAlone | src/kernel/mm/pmm.c:165-181 | likewise a release of held pages: exactly the block cleared and given up, lock free, nothing else changed |
| PmmThreads.OwnFreeSucceeds | src/kernel/mm/pmm.c:173-178 | a thread that frees pages it owns never meets the already-free panic |
| PmmThreads.HandedOverZeroed | src/kernel/mm/pmm.c:154-163 | in every reachable state the block that pmm_alloc hands over, zeroed outside the lock, holds only zeros |
| PmmThreads.InterleavingSafe | src/kernel/lib/spinlock.c:3-10 | in every state reachable from boot: never two threads inside, and no page owned twice or reserved |
| KernelHeap.PayloadFitsIff | src/kernel/mm/kheap.c:38-42 | the pages hold header and payload iff size + 48 + 4095 does not wrap, and then exactly ceil((size + 48) / 4096) |
| KernelHeap.HugeSizeWraps | src/kernel/mm/kheap.c:38-42 | a request for 2^64 - 1 bytes gets a single page |
| KernelHeap.PayloadsApart | src/kernel/mm/kheap.c:52-84 | in every valid heap, for all sizes that do not wrap: a byte of a live payload is in no other payload or header, and is bound to its own frame |
| KernelHeap.PayloadWritable | src/kernel/mm/kheap.c:40-50 | every byte of a live payload may be written, all levels of its page taken together |
| KernelHeap.HeaderDescribes | src/kernel/mm/kheap.c:54-82 | the header names itself as base, whole pages as size, the end of the payload as offset, one allocation, no next arena, and is named by the metadata word |
| KernelHeap.HeapGrows | src/kernel/mm/kheap.c:38-82 | an allocation leaves every live block intact and adds one |
| KernelHeap.HeapShrinks | src/kernel/mm/kheap.c:106-111 | a release leaves every other live block intact |
| KernelHeap.Heap.MapBlock | src/kernel/mm/kheap.c:40-50 | binds exactly the unbound direct-map pages of the block to its frames; no other page of any root that does not share them changes |
| KernelHeap.Heap.Alloc | src/kernel/mm/kheap.c:9-85 | a new block of free frames with the pages for its size, headed and bound; arena list still empty; all blocks disjoint and well formed; tables kept; no other page of any address space changes; it halts only if there is no such block or no frame for a table |
| KernelHeap.Heap.FindArena | src/kernel/mm/kheap.c:88-90 | the metadata word leads from the payload pointer back to the block, its page count and its count of one allocation |
| KernelHeap.Heap.UnmapBlock | src/kernel/mm/kheap.c:109-111 | unbinds exactly the block's direct-map pages, allocates nothing, and changes no other page of any address space |
| KernelHeap.Heap.Free | src/kernel/mm/kheap.c:87-115 | returns exactly the pages that the allocation took and unbinds exactly those; no other page of any address space changes |
| KernelHeap.Heap.WriteWord | src/kernel/mm/kheap.c:76-84 | a client may store any word of a live payload: the heap stays valid and no translation changes |
| Boot.DirectWindow | src/kernel/mm/vmm.c:300-311 | after vmm_init every bound page of the direct map leads to its own frame and may be written |
| Boot.BootHeap | src/kernel/mm/vmm.c:248-311 | vmm_init leaves what the heap starts from: it begins valid and empty, with one root and the promised map |
| Boot.FrameKeptIff | src/kernel/mm/vmm.c:299-311 | with the base a multiple of 2^47, the page vmm_new names for a frame is bound by vmm_init iff the frame is below 4 GiB |
| Boot.FrameMisnamed | src/kernel/mm/vmm.c:51-55 | at base 0xffff800000000000 the word offered for frame f is writable and names frame f + 2^40 - 2^35 |
| Boot.BootMapKeptIff | src/kernel/mm/vmm.c:42-63 | vmm_new leaves the map of vmm_init as it is iff that map binds both pages it names |
| Boot.HeapKeepsSpaces | src/kernel/mm/kheap.c:9-115 | a call that changes only direct-map pages and keeps the tables leaves all address spaces in agreement on all pages |
| Boot.NewKeepsSpaces | src/kernel/mm/vmm.c:42-63 | so does vmm_new on machines below 512 GiB: old spaces see what it maps through the table they share with the kernel |
| Boot.NewKeepsHeap | src/kernel/mm/vmm.c:42-63 | a new address space leaves every live block as it is |
| Boot.KernelFromBoot | src/kernel/mm/kheap.c:9-115 | after vmm_init and any mix of k_alloc, k_free of pointers handed out, stores to live payloads and vmm_new: each call adds or removes exactly its pointer or address space, the heap is valid, its blocks are those behind the pointers still out, and every address space translates all 2^36 pages as the kernel does; a halt means a request without a block or no frame left |
| Boot.FirstSpace | src/kernel/mm/vmm.c:42-63 | after vmm_init, for any machine: vmm_new uses the allocator's next two frames, gives the new space the kernel's map, and leaves that map as it was iff it binds the pages of both frames |
| Scheduling.IterateDescends | src/kernel/scheduler/scheduler.c:54-129 | an iteration that goes on lowers (dead plus running, distance to the next process awake) |
| Scheduling.TerminatesIff | src/kernel/scheduler/scheduler.c:54-129 | the loop ends iff somebody is ready, running, spawned or due, or nobody is asleep |
| Scheduling.SettleThins | src/kernel/scheduler/scheduler.c:100-106 | for any mix of statuses a tick deletes only dead processes and keeps the others in order |
| Scheduling.DeleteMovesOn | src/kernel/scheduler/process.c:117-156 | a deletion makes current the process behind the current one, or behind the deleted one if that is it |
| Scheduling.SwitchedIff | src/kernel/scheduler/scheduler.c:54-129 | a context switch is due iff the first process met that is not asleep is ready, spawned, dead, or running with its quantum used up |
| Scheduling.UnswitchedPick | src/kernel/scheduler/scheduler.c:54-129 | without a switch it is that process that is picked, woken or charged one tick, and nothing else in the list changes |
| SchedulerRuns.TickIsRoundRobin | src/kernel/scheduler/scheduler.c:37-147 | in every run state schedule() is plain round robin, and returns the context of the process it leaves current |
| SchedulerRuns.FullTurn | src/kernel/scheduler/scheduler.c:73-85 | whom a tick dispatches goes on at the next two ticks |
| SchedulerRuns.TurnEnds | src/kernel/scheduler/scheduler.c:73-85 | then the next process in the list becomes current |
| SchedulerRuns.PanicsIff | src/kernel/scheduler/scheduler.c:39-58 | for any mix of statuses on which the loop ends, a tick panics iff everybody is dead |
| SchedulerRuns.ApplyKeepsRunOk | src/kernel/scheduler/scheduler.c:37-147 | ticks, creations and exits keep: distinct pids, only the current process runs or is dead, quantum 1 to 3, the rest ready |
| SchedulerRuns.TickLowersRank | src/kernel/scheduler/scheduler.c:73-144 | a tick dispatches a waiting process or lowers its rank by at least one |
| SchedulerRuns.BoundedWaiting | src/kernel/scheduler/scheduler.c:54-144 | rank ticks, and three more per creation, and a ready process has run, whatever exits in between |
| SchedulerRuns.EventsKept | src/kernel/scheduler/scheduler.c:37-147 | every event keeps the agreement with an independent log: a tick returns the context last saved for the current process and loads the page table and stack it was created with; no process is lost, and none that has exited stays listed |
| SchedulerRuns.ExitThenTick | src/kernel/scheduler/process.c:34-38 | after an exit the next tick leaves exactly the other processes in the list, and panics iff there is none |
| SchedulerRuns.ExitedNeverRuns | src/kernel/scheduler/process.c:34-38 | in no later state of any run is an exited process running |
| SchedulerRuns.RunsAreSafe | src/kernel/scheduler/scheduler.c:37-147 | run invariant, agreement with the log, and pids numbered by creations in every reachable state |
| SchedulerRuns.TickLoadsIff | src/kernel/scheduler/scheduler.c:37-147 | for any mix of statuses with somebody to run: a tick leaves the current process on its own page table (and stack) iff that first process switches or was the one loaded; the whole new state if it does not switch |
| SchedulerRuns.WakesOnForeignTables | src/kernel/scheduler/scheduler.c:87-98 | a due sleeper behind one that sleeps on is left running on the other's page table |
| ProcessList.Scheduler.Add | src/kernel/scheduler/process.c:90-107 | links the process, ready, behind the last one; the list stays acyclic and duplicate-free |
| ProcessList.Scheduler.Delete | src/kernel/scheduler/process.c:117-156 | unlinks exactly that process; current moves one on whether or not it was it |
| ProcessList.Scheduler.Visit | src/kernel/scheduler/scheduler.c:54-129 | one iteration on the linked list is one iteration on values |
| ProcessList.Scheduler.Select | src/kernel/scheduler/scheduler.c:51-129 | the loop on the linked list ends, and where the loop on values ends |
| ProcessList.Scheduler.Resume | src/kernel/scheduler/scheduler.c:137-146 | the picked process is current and running, and loaded with a full quantum if a switch is due |
| ProcessList.Scheduler.Schedule | src/kernel/scheduler/scheduler.c:37-147 | same list, current process, loaded tables and returned context as the tick on values, or a panic in the same cases |
| ProcessList.Scheduler.Create | src/kernel/scheduler/process.c:55-88 | the list grows by a ready process with a fresh pid and the given context, page table and stack |
| ProcessList.Scheduler.Exit | src/kernel/scheduler/process.c:34-38 | only the current process dies |
| ProcessList.Scheduler.Run | src/kernel/scheduler/scheduler.c:37-147 | any sequence of ticks, creations and exits on the linked list is the run on values, so run invariant and agreement with the log hold in every state the list reaches |
| Tar.ValueOfDigits | src/kernel/lib/util.c:78-91 | k octal digits of n read back as n modulo 8^k |
| Tar.HeaderLayout | src/kernel/fs/ustar.h:12-29 | where the serializer puts name, size and prefix in the 512 bytes |
| Tar.RecordAt | src/kernel/fs/ustar.c:162-168 | record i of an archive lies at the sum of the record sizes before it, whatever follows |
| Ustar.KPow | src/kernel/lib/util.c:69-76 | the power, by repeated multiplication |
| Ustar.OctAsciiToDec | src/kernel/lib/util.c:78-91 | for a field of 4 to 23 bytes the value of its digits without the first |
| Ustar.SizeRoundTripIff | src/kernel/lib/util.c:78-91 | a written size is read back modulo 8^10, so as itself iff it is below 8^10 |
| Ustar.KStrCpy | src/kernel/lib/util.c:38-46 | copies through the first NUL and at most size bytes; the rest of the buffer is untouched |
| Ustar.KStrCmp | src/kernel/lib/util.c:48-67 | true iff the strings are equal or agree on their first len characters, where a len of 0 counts as 2^32 |
| Ustar.IsZeroed | src/kernel/fs/ustar.c:123-131 | true iff all 512 bytes are zero |
| Ustar.CopyName | src/kernel/fs/ustar.c:145-150 | the name field; or, with a prefix, the prefix from byte 0 and the name from byte 155, each through its first NUL; every other byte stays |
| Ustar.ReadName | src/kernel/fs/ustar.c:145-155 | the buffer holds the terminated file name with backslashes turned round |
| Ustar.NextRecord | src/kernel/fs/ustar.c:161-167 | steps exactly over the record, padding included |
| Ustar.FileLookup | src/kernel/fs/ustar.c:133-171 | on every serialized archive: ends, and returns the header of the first file with the path, or NULL iff there is none |
| Ustar.DataAt | src/kernel/fs/ustar.c:255 | the bytes 512 behind a header are exactly the file's contents |
| OpenFiles.OpenCountsIff | src/kernel/fs/ustar.c:217-240 | a successful open adds one reference in all, and every slot is NULL iff its count is 0, iff no count wraps |
| OpenFiles.OpenSucceedsIff | src/kernel/fs/ustar.c:217-240 | an open succeeds iff a file has the path and a slot is NULL, or for the empty path a slot is open; a new slot is the lowest NULL one with one reference, and every other slot stays |
| OpenFiles.CloseCounts | src/kernel/fs/ustar.c:339-346 | a close takes one reference, and empties the slot iff it was the last |
| OpenFiles.FewHandlesFit | src/kernel/fs/ustar.c:220 | with fewer than 65535 handles outstanding no count can wrap |
| OpenFiles.SharedIff | src/kernel/fs/ustar.c:92-112 | two successive opens of a path share a slot iff the path is empty |
| OpenFiles.OpenedTwice | src/kernel/fs/ustar.c:92-112 | an archive whose one file gets two slots when opened twice |
| OpenFiles.EmptyOpens | src/kernel/fs/ustar.c:217-222 | k opens of the empty path add k to the count of the first slot and change nothing else |
| OpenFiles.CountWraps | src/kernel/fs/ustar.c:217-222 | for every archive with the file: from the empty table, one open of it and 65534 of the empty path are all in order, and the next leaves an open slot with count 0 |
| OpenFiles.HandlesConserved | src/kernel/fs/ustar.c:217-346 | over any run that closes open ids and wraps no count: references are opens minus closes, NULL iff count 0 |
| OpenFiles.Files.IsAlreadyOpen | src/kernel/fs/ustar.c:92-112 | the first open slot for the empty path, otherwise none |
| OpenFiles.Files.FindOpenId | src/kernel/fs/ustar.c:114-121 | the first NULL slot, or none |
| OpenFiles.Files.Open | src/kernel/fs/ustar.c:217-240 | the new table and id exactly; a new slot is backed by the first file with the path |
| OpenFiles.Files.Close | src/kernel/fs/ustar.c:339-346 | the new table exactly |
| OpenFiles.Files.Read | src/kernel/fs/ustar.c:242-265 | exactly the bytes of the archived file at the offset, cut at its end; the rest of the buffer is untouched |
| Vfs.Table.Read | src/kernel/fs/vfs.c:145-161 | the next bytes of the file; the cursor moves past exactly them and no other descriptor changes |
| Vfs.ReadsConcatenate | src/kernel/fs/vfs.c:153-160 | however reads are cut, together they deliver one contiguous stretch of the file |
| Vfs.WholeFile | src/kernel/fs/vfs.c:153-160 | reads that ask for at least its length deliver exactly the file |
| Vfs.ReadSeries | src/kernel/fs/vfs.c:145-161 | successive vfs_read calls of any sizes deliver the next bytes of the file in order and move the cursor past exactly them |
| OpenFiles.Chunk | src/kernel/fs/ustar.c:253-264 | a read is empty iff nothing was asked for or the offset is at or past the end |

## Left out

- `vmm_destroy`: never called, and its recursion does not stop at the leaf level, so there is no ownership to state.
- TLB and page faults: the code does no TLB maintenance, and `k_free` reads an arena header after unmapping it.
- Locks of `vmm_t`, `process_delete` and the terminal: calls are atomic here; only the allocator's lock is modelled.
- Fairness of the spinlock: a thread at a free lock comes through if left alone, and nothing is claimed under contention.
- The words of `vmm_t`: its frame is accounted for, but its fields are object fields and not words in that frame.
- The search of `k_alloc` through existing arenas: the list is empty in every reachable state, which is proved.
- `VirtualMemory.Vmm.VirtToPhys`: the `alloc` argument is ignored, as the code ignores it.
- VirtualMemory.Vmm.NewSpace: a halt is excluded by eight free frames; how many fewer suffice depends on the tables that its two walks share.
- VmmInit.Init: a halt leaves no frame free; how many frames it needs in all is not counted.
- Boot.KernelFromBoot: with `vmm_new` among the calls, a base that is a multiple of 2^47 and frames below 512 GiB; above that `vmm_new` can give the kernel a root entry that older address spaces lack. Without it any machine.
- PmmInit.FromBoot: as PmmInit.Init.
- PmmInit.Init: asks for a top whose pages all have a bit, because otherwise the code clears bits behind the bitmap.
- Ustar.KPow: unbounded, where a signed 64-bit overflow is undefined in C.
- Ustar.OctAsciiToDec: fields with other characters than octal digits, whose value wraps, and fields over 23 bytes.
- PhysicalMemory.Pmm.Free: says nothing about the bits cleared before a halt, after which nothing runs.
- SchedulerRuns.RunsAreSafe: starts from a state without sleepers, since no code creates one.
- `stay_idle`: it only looks, and its answer does not change what the loop does.
- Registers and stacks of a process: contexts, page tables and stacks are tokens that are saved and loaded.
- Wrap-around of pids and of the read cursor.
- Ustar.FileLookup: names of 1 to 99 bytes, no prefix field and sizes below 8^10; the code does not join prefix and name as the format says.
- `kalloc` in `ustar_open`: the descriptor is a value, so the one lost when the table is full is not seen.
- `ustar_read_dir` and its helpers: they read an uninitialised array and ignore the buffer size.
- `vfs_open`, `vfs_close` and mount points: a free descriptor is recognised by 0 but marked closed by -1, so the code keeps no uniqueness to prove; `Vfs.Table` takes any table of descriptors.
- Boot code, GDT, IDT, interrupts, drivers, terminal, formatter, logger and the user programs.
