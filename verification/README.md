# The ReaverOS kernel core, modelled and proved in Dafny

A model of the memory and scheduling core of the ReaverOS kernel, and of the loader's paging code that
prepares for it, with proofs of what that code keeps true. The kernel is a stack of structures that are
updated in place through pointers; each of them is modelled in that form and proved to agree with a
simple mathematical object:

- **Page tables** (`Levels`, `PageTables`, `PageMapping`, `PageNeeds`, `Window`, `Vm`, `VmUnmap`,
  `VmClone`, `Translation`, `Paging`, `PagingTheorems`, `PagingRuns`). A four-level, 512-way radix tree in physical
  frames, as in section 4.5 of volume 3A of the Intel 64 and IA-32 Architectures Software Developer's
  Manual, is changed by the recursive loops of the kernel and of the loader. It behaves as a flat map
  from page to frame. Upper halves are shared between address spaces because their tables are the same
  frames. `PageNeeds` says which tables a range needs, so that frames are accounted for exactly, and what
  stands in its way.
- **Frame allocator** (`Pmm`, `PmmRuns`). Three free lists threaded through the free frames.
- **AVL tree** (`AvlShape`, `AvlLinks`, `AvlOrder`, `AvlRotate`, `AvlErase`, `AvlWord`, `AvlTree`,
  `AvlRuns`). Elements carry left, right and parent pointers and a balance factor. `AvlShape` says what
  rebalancing does to shapes, `AvlLinks` how a shape lies in memory; the class refines one by the other,
  for every tree that is in order, balanced or not: a walk that would follow a null pointer is an
  outcome.
- **Tree heap** (`HeapIndex`, `HeapShape`, `TreeHeap`). A pointer-linked binary heap that finds its n-th
  slot from the digits of n. Its specification is a sequence of slots.
- **Memory objects and address spaces** (`Vmo`, `VasPages`, `VasTables`, `Vas`, `VasRuns`, `VasAccount`).
  Allocator, tree and page tables meet here. `VasRuns.System` has any number of objects and address spaces over one allocator and
  one set of page tables, at any 64-bit addresses. Its runs are proved to be made of what the commands
  mean, and the end-to-end theorems are about every moment of every run; `VasAccount` follows every frame.
- **Threads, mailboxes, handles** (`Fifo`, `Kernel`, `KernelPlaces`, `KernelLinks`, `KernelWaiting`,
  `KernelMail`, `KernelHandles`, `KernelSingle`, `KernelRuns`, `KernelReaders`, `KernelAccess`,
  `KernelPowers`, `KernelObjects`, `KernelCalls`, `KernelMachine`). One step for each system call or interrupt. `Kernel` defines the steps
  on values; `KernelCalls.Machine` has the handlers, with handle tables that are AVL trees and mailboxes
  that are pairs of intrusive queues, each proved to do such a step, and `KernelMachine` runs them.
  `KernelAccess` says what a step does and may do in terms of the handle tables alone, and `KernelPowers`
  what that amounts to in runs; the others prove what every run keeps.
- **Timers** (`Timer`). A heap of events that is drained whenever the clock is looked at, also from
  inside callbacks.

`Basics` holds what the others share. Sizes and addresses are unbounded numbers; 64-bit wrap-around is
written out where the code depends on it. Addresses inside the page tables are counted in 4 KiB pages.
Panics and running out of frames are outcomes of the methods that can meet them.

## Findings

Some properties that one would expect are false of the code as written. Each is given with its condition,
and with an input or a run that shows it:

- A mapping is linear in the frame number only if page and frame have the same offset at the highest
  level whose boundary the range crosses (`Translation.LinearIff`, `Translation.NotAlwaysLinear`).
- A range that reaches the top of the address space is silently not mapped, because its end wraps to
  zero or beyond (`Paging.EndPageIs`, `Paging.WrappedEmpty`). So the loader maps all of physical memory
  if the processor has at most 46 physical address bits, and nothing at all if it has more
  (`PagingTheorems.MapMemory`).
- A range that leaves the 256 TiB of one highest table without reaching the top makes the loops go on
  behind the last entry of that table (`Paging.MapPhysical`, `Paging.Unmap`, `Paging.AcrossWindow`).
  Mapping objects into the lower half never does (`Vas.Run`), nor does the loader's direct map.
- The call that maps an object takes any address. At an address of the direct map, which all address
  spaces share, no mapping is in the way but pages are (`Vas.DirectMapInTheWay`), so that the kernel
  panics about a page mapped already, or follows a huge page as a table. Such an object is never mapped,
  and in an address space that was in order this comes about only where an address beyond the lower half
  is involved (`Vas.Vas.MapVmo`, `Vas.Run`).
- Addresses above 2^48 that are not canonical stand for pages of the lower half. A mapping there is in the
  way of addresses that no mapping meets (`Vas.AliasedInput`); for canonical mappings it is the addresses
  themselves that count (`Vas.CanonicalCovered`).
- A mapping whose end wraps precedes itself in the tree of mappings and meets nothing that does not span
  it; the order of the tree is transitive at exactly the mappings that do not wrap (`Vas.WrappedStretch`,
  `Vas.BridgesIff`, `Vas.WrappedInput`).
- A byte range that starts inside a page may miss its last page (`Paging.CoversRange`,
  `Paging.NotAlwaysCovered`).
- Erasing the root of an AVL tree leaves it unbalanced exactly if the root leans left, its left child
  leans right, and its right child has no left child (`AvlTree.AvlTree.Erase`,
  `AvlErase.RootPullUnbalanced`). Two erasures later a null child can be read
  (`AvlErase.RootPullReadsMissing`); until such an erasure it cannot (`AvlRuns.Run`). Handle tables of
  processes are such trees (`KernelObjects.HandleTable.Unregister`).
- A search for the first element not before a key comes back empty-handed exactly if its last turn is to
  the right at an element that is not a left child, though elements follow further up
  (`AvlTree.AvlTree.LowerBound`, `AvlOrder.OverlooksNext`).
- Pushing into an empty heap gives a heap exactly if the element has no links; an element that was
  popped from among others still has them (`TreeHeap.TreeHeap.Push`, `TreeHeap.TreeHeap.EmptyAndRefill`).
- A thread carries the links of the heap it was in. Preempting it never puts it into an empty heap with
  links left over (`KernelLinks.PreemptionFits`), but waking it can, with two processes of one thread
  each (`KernelReaders.StaleLinks`). That no woken thread with such links enters an empty heap is a
  condition of every step (`Kernel.Wakes`), and so of all that is said about runs.
- An empty sparse object takes up a frame, and mapping it maps a page that no mapping covers
  (`Vas.Vas.MapVmo`, `Vas.EmptyObject`).
- A range of addresses may be granted although not all of it may be accessed. For a range within one mapping
  the answer is right (`Vas.Vas.LockAddressRange`). Otherwise it is right exactly if what lies before and
  after the mapping that the search hit upon may be accessed as well, which nothing looks at
  (`Vas.Vas.GrantedIff`): a gap before or after it and a read-only neighbour are examples
  (`Vas.Vas.GrantedBefore`, `Vas.Vas.GrantedBeyond`, `Vas.Vas.GrantedReadOnly`).
- In a process with two threads, a thread that reads a mailbox can be woken, find that the other took the
  message, and wait again without a continuation (`KernelReaders.TwoReaders`). As long as no process is
  given a second thread this cannot happen, whoever the handles to read have been handed over to
  (`KernelSingle.MailInOrder`, `KernelMail.ResumeFinds`). No system call gives a
  process a second thread. The kernel adds threads by itself in three places: to its own process
  (kernel/main.cpp:382), to the process whose handle its log acceptor received (kernel/main.cpp:228), and
  to the first user process, which has none before (kernel/main.cpp:316).
- Padding a length to whole frames wraps to zero for lengths within a frame of 2^64 (`Vmo.PaddedOk`,
  `Vmo.PaddingWraps`).

## Model

| member | source | states |
|---|---|---|
| `Pmm.Instance.Push` | kernel/memory/pmm.cpp:69-78 | the frame is on top of its list, lists stay threaded through memory, all frames stay aligned and apart |
| `Pmm.Instance.HolderWrites` | kernel/memory/pmm.cpp:69-104 | whatever a holder writes into its frame, the lists threaded through free frames survive |
| `Pmm.Instance.Refill` | kernel/memory/pmm.cpp:92-97 | splitting a frame of the next layer leaves its 512 parts on the list, last part on top |
| `Pmm.Instance.Take` | kernel/memory/pmm.cpp:100-103 | the top frame moves from the list to its holder |
| `Pmm.Instance.Pop` | kernel/memory/pmm.cpp:80-104 | fails exactly if this layer and all above are empty; otherwise a frame that was apart from all others is handed out, and its pages are exactly those that stop being free |
| `Pmm.PopKeeps` | kernel/memory/pmm.cpp:80-104 | popping, through any number of splits, keeps all frames aligned and pairwise apart and loses no page |
| `Pmm.PushKeeps` | kernel/memory/pmm.cpp:69-78 | giving a frame back keeps frames apart and frees exactly its pages |
| `Pmm.SplitHandsOut` | kernel/memory/pmm.cpp:92-103 | splitting and taking one part is the same as handing that part out |
| `PmmRuns.StepConserves` | kernel/memory/pmm.cpp:69-104 | one pop or push of a held frame keeps the set of free and held pages |
| `PmmRuns.RunConserves` | kernel/memory/pmm.cpp:69-104 | over every run of pops and pushes all frames stay aligned and apart and their union is constant |
| `PmmRuns.PushTile` | kernel/memory/pmm.cpp:153-159 | one frame of a free run joins the allocator |
| `PmmRuns.Climb` | kernel/memory/pmm.cpp:161-167 | the first loop nest pushes the largest frames that alignment allows, layer by layer |
| `PmmRuns.Descend` | kernel/memory/pmm.cpp:169-175 | the second loop nest pushes the largest frames that still fit |
| `PmmRuns.AddRun` | kernel/memory/pmm.cpp:149-176 | start-up covers a free run, up to whole pages, exactly, with frames that are aligned to their size, pairwise apart and as large as possible |
| `PageMapping.LeafStep` | kernel/arch/amd64/memory/vm.cpp:217-230 | writing an absent lowest entry maps exactly its pages and keeps all others |
| `PageMapping.InstallStep` | kernel/arch/amd64/memory/vm.cpp:234-237 | hanging a new table on an absent entry changes no translation |
| `PageMapping.MarkStep` | kernel/arch/amd64/memory/vm.cpp:239 | setting the user bit above the lowest level changes no frame and no last user bit |
| `PageMapping.ThroughChild` | kernel/arch/amd64/memory/vm.cpp:241-242 | what the table below came to map, the table above came to map |
| `PageMapping.MapsExtend` | kernel/arch/amd64/memory/vm.cpp:208-248 | two adjacent mapped ranges are one, with the physical address as the loop advances it |
| `PageTables.WalkFrames` | kernel/arch/amd64/memory/vm.cpp:196-249 | a walk that meets no changed entry gives the same translation |
| `Window.EntryEndIs` | kernel/arch/amd64/memory/vm.cpp:212-215 | the end of an entry, with its guard against overflow, is the end of the entry or of the range |
| `Vm.AddressSpaces.constructor` | kernel/arch/amd64/memory/vm.cpp:120-135 | one address space with nothing mapped |
| `Vm.AddressSpaces.MapLeaf` | kernel/arch/amd64/memory/vm.cpp:217-230 | an entry of the lowest level is a re-map panic exactly if it is present: a page of it is mapped, or it leads to a table; otherwise it comes to map its pages, and no table is added |
| `Vm.AddressSpaces.AddTable` | kernel/arch/amd64/memory/vm.cpp:232-237 | a blank table is hung on an absent entry, in a frame that was free, and one frame is taken exactly if there is one; no user bit is set that was not asked for |
| `Vm.AddressSpaces.OpenEntry` | kernel/arch/amd64/memory/vm.cpp:232-239 | an entry comes to lead to a table, new or old, with no translation changed; the frames that the allocator lost are exactly those of new tables; it stops only at a large frame, or with no frame for a table that is missing, and then nothing changed |
| `Vm.AddressSpaces.MapEntry` | kernel/arch/amd64/memory/vm.cpp:217-243 | one round of the loop maps exactly the chunk of its entry, at any granularity; whatever its outcome, it took exactly the frames of the tables it added, all on the way to pages of the chunk; it stops only if a page is mapped or split, or a table is missing and no frame is left |
| `Vm.AddressSpaces.NextEntry` | kernel/arch/amd64/memory/vm.cpp:212-215 | the chunk of one round lies in one entry and keeps alignment |
| `Vm.AddressSpaces.NextPhys` | kernel/arch/amd64/memory/vm.cpp:247 | the physical address after a round is the next entry boundary, wrapped |
| `Vm.AddressSpaces.MapChunk` | kernel/arch/amd64/memory/vm.cpp:208-248 | the loop has mapped one more chunk, with the frames taken so far those of the tables added; a panic means that a page of the range was mapped or split before the loop |
| `Vm.AddressSpaces.VmMap` | kernel/arch/amd64/memory/vm.cpp:196-249 | the recursive loop maps exactly the range, at any granularity, each page to its closed-form frame, and keeps all other translations; done only if no page was mapped or split before, stopped only if one was, by a large frame or otherwise, or a table is missing and no frame left; in any case the frames taken are exactly those of the new tables, and each of these leads to a page of the range |
| `VmUnmap.UnmapEntry` | kernel/arch/amd64/memory/vm.cpp:272-303 | one round unmaps exactly its chunk; it panics only if a page is not mapped, or is mapped by a large frame, whichever it says |
| `VmUnmap.UnmapRange` | kernel/arch/amd64/memory/vm.cpp:251-308 | the recursive loop unmaps exactly the range, and every page of it was mapped; it panics for the reason it says |
| `VmClone.FillEntry` | kernel/arch/amd64/memory/vm.cpp:447-454 | filling in an entry of the upper half changes no translation, and takes a frame exactly for a table that was missing |
| `VmClone.CopyUpper` | kernel/arch/amd64/memory/vm.cpp:447-458 | all of the upper half is filled in and copied, or frames ran out with an entry absent; the frames taken are those of the tables added |
| `VmClone.CloneUpperHalf` | kernel/arch/amd64/memory/vm.cpp:442-461 | the new address space has an empty lower half and the entries of the current one above; no existing translation changed; the frames taken are exactly that of the root and those of the tables right below absent entries; it fails only if no frame is left for one of these |
| `PageNeeds.AddsBelow` | kernel/arch/amd64/memory/vm.cpp:232-243 | tables that the table below needs for the pages, the table above needs |
| `PageNeeds.SplitEntry` | kernel/arch/amd64/memory/vm.cpp:217-230 | the entry of a page leads to a table exactly if there is a table at the place below it |
| `PageNeeds.TablesTookPages` | kernel/arch/amd64/memory/vm.cpp:124-127 | what stopped being free is exactly the frames of the new tables |
| `PageNeeds.TablesTookBoth` | kernel/arch/amd64/memory/vm.cpp:196-249 | two accounts of frames one after the other are one |
| `Vm.BlockedThrough` | kernel/arch/amd64/memory/vm.cpp:232-243 | through an opened entry, pages are mapped or split before exactly if they are in the table below |
| `Vm.StillBlocked` | kernel/arch/amd64/memory/vm.cpp:208-248 | a page that the loop has yet to reach is mapped or split exactly if it was before the loop |
| `Translation.LinearIff` | kernel/arch/amd64/memory/vm.cpp:208-248 | page k of a mapped range gets start frame + k for all k if and only if page and frame are congruent at the highest level the range crosses |
| `Translation.LastFrame` | kernel/arch/amd64/memory/vm.cpp:247 | by how much the last page misses its linear frame otherwise |
| `Translation.NotAlwaysLinear` | kernel/arch/amd64/memory/vm.cpp:247 | pages 511 and 512 mapped from frame 0 on: the second gets frame 512 |
| `Translation.UpperShared` | kernel/arch/amd64/memory/vm.cpp:442-461 | all address spaces translate the upper half to the same frames |
| `Translation.LowerIndependent` | kernel/arch/amd64/memory/vm.cpp:196-308 | a change through one address space leaves the lower halves of others alone |
| `Paging.EndPageIs` | kernel/arch/amd64/memory/vm.cpp:357-367 | for every start and size the computed end is the end of the range, modulo 2^64 |
| `Paging.WrappedEmpty` | kernel/arch/amd64/memory/vm.cpp:357-371 | the range is taken to be empty if and only if it reaches the top of the address space |
| `Paging.AcrossWindow` | kernel/arch/amd64/memory/vm.cpp:208-248 | two pages across 2^48 run off the highest table |
| `Paging.CoversRange` | kernel/arch/amd64/memory/vm.cpp:357-367 | the pages that get mapped cover the bytes of the range if and only if start offset and size do not spill into one more page |
| `Paging.NotAlwaysCovered` | kernel/arch/amd64/memory/vm.cpp:357-367 | 4 KiB from the middle of a page: the second page is missed |
| `Paging.MapPages` | kernel/arch/amd64/memory/vm.cpp:357-371 | the whole entries of the range are mapped from the root, at any granularity; nothing happens if it reaches the top of the address space; a panic about a page or a missing frame has its reason, and the frames taken are exactly those of the new tables |
| `Paging.MapPhysical` | kernel/arch/amd64/memory/vm.cpp:350-372 | for all 64-bit arguments: maps exactly the whole pages of the range; it panics about a mapped page only if one was mapped before, and about a missing frame only if a table is missing and none is left; the frames taken are exactly those of new tables on the way to pages of the range; it runs off the end of the highest table, after mapping all up to there, only if the range does, and then never returns as if done |
| `Paging.Unmap` | kernel/arch/amd64/memory/vm.cpp:379-396 | for all 64-bit arguments: unmaps exactly the pages of the range; it panics only if one of them is not mapped, or is in a large frame, whichever it says, and runs off the end of the highest table only if the range does |
| `PagingTheorems.MapIsFlat` | kernel/arch/amd64/memory/vm.cpp:196-249 | mapping refines a flat map: pages of the range were absent and get their frames, in reach of user code exactly if asked for; others keep theirs, supervisor pages stay out of reach, other address spaces are untouched |
| `PagingTheorems.UnmapUndoesMap` | kernel/arch/amd64/memory/vm.cpp:196-308 | unmapping a range just mapped restores every translation, exactly for supervisor mappings and up to upper user bits for user mappings |
| `PagingTheorems.ProbeAgrees` | kernel/arch/amd64/memory/vm.cpp:310-334 | the kernel's own lookup finds a page exactly if the hardware walk does, and gives the address in the entry: the frame of a 4 KiB page, the base of a larger one, where in it the page is left out |
| `PagingTheorems.LoaderMap` | loaders/uefi/cpu/amd64/paging.cpp:195-238 | for all 64-bit arguments the loader's three entry points map exactly the aligned range at their granularity, nothing if it reaches the top of the address space, or run off the end of the highest table exactly as the kernel's; at every granularity they stop only if a page of the range was mapped or split, or a table is missing and no frame left, and take exactly the frames of the tables they add |
| `PagingTheorems.GranularitiesAgree` | loaders/uefi/cpu/amd64/paging.cpp:120-185 | huge, large and 4 KiB loops define the same translation on a range aligned for both |
| `PagingTheorems.DirectMap` | loaders/uefi/main.cpp:124-137 | the direct map of any number of pages sends physmem base + p to p for every page p, if they are fewer than half the address space, and maps nothing otherwise |
| `PagingTheorems.MemoryFits` | loaders/uefi/cpu/amd64/cpuid.cpp:94-103 | physical memory of so many address bits is smaller than half the address space if and only if they are at most 46 |
| `PagingTheorems.NoSharedTables` | loaders/uefi/main.cpp:124-137 | below an empty upper half there is no table at any level |
| `PagingTheorems.UpperBlankOpen` | loaders/uefi/cpu/amd64/paging.cpp:120-185 | in an empty upper half nothing is in the way of a mapping, at any granularity |
| `PagingTheorems.MapMemory` | loaders/uefi/main.cpp:124-137 | for every number of physical address bits below 64: all of memory is in the direct map if they are at most 46, otherwise nothing is mapped; with an empty upper half, as the loader starts, it is done unless frames for tables run out |
| `PagingRuns.Perform` | kernel/arch/amd64/memory/vm.cpp:350-396 | a map, unmap or clone that returns does what its arguments mean and keeps all tables linked; one that does not has its reason: a page mapped or not mapped before, the end of the table, or no frame left for a table that is missing; frames go to new tables only |
| `PagingRuns.Run` | kernel/arch/amd64/memory/vm.cpp:196-461 | over every run of maps, unmaps and clones, up to the first that does not return, with its reason, tables stay linked, in every state all address spaces translate the upper half alike, and all frames taken are those of tables added |
| `PagingRuns.LowerUntouched` | kernel/arch/amd64/memory/vm.cpp:196-308 | over every run the lower half of an address space changes only through it |
| `AvlShape.PlugBalanced` | kernel/util/avl_tree.h:876-956 | a tree is balanced exactly if a subtree is and the rest is balanced around its height |
| `AvlShape.RebalanceLeftOk` | kernel/util/avl_tree.h:794-808 | one left rotation repairs a right subtree two higher that does not lean left, with exact factors and height |
| `AvlShape.RebalanceRightOk` | kernel/util/avl_tree.h:810-824 | the mirror image |
| `AvlShape.RebalanceRightLeftOk` | kernel/util/avl_tree.h:851-874 | two rotations repair a right subtree two higher that leans left |
| `AvlShape.RebalanceLeftRightOk` | kernel/util/avl_tree.h:826-849 | the mirror image |
| `AvlShape.InsertFixOk` | kernel/util/avl_tree.h:580-644 | in a balanced tree the walk up after an insertion finds every child it reads and makes every stored factor the real height difference within one |
| `AvlShape.InsertFixInOrder` | kernel/util/avl_tree.h:580-644 | in any tree the walk keeps the elements in order |
| `AvlShape.EraseFixOk` | kernel/util/avl_tree.h:646-722 | the same of the walk up after an erasure |
| `AvlShape.EraseFixInOrder` | kernel/util/avl_tree.h:646-722 | in any tree the walk keeps the elements in order |
| `AvlRotate.LeftRotationOk` | kernel/util/avl_tree.h:724-757 | the pointer writes of a left rotation turn the tree in memory into the rotated tree |
| `AvlRotate.RightRotationOk` | kernel/util/avl_tree.h:759-792 | the mirror image |
| `AvlErase.SpliceOutOk` | kernel/util/avl_tree.h:311-342 | an element with at most one child is replaced by it in memory |
| `AvlErase.PullUpOk` | kernel/util/avl_tree.h:345-381 | the right child without a left child takes the element's place in memory |
| `AvlErase.SupplantOk` | kernel/util/avl_tree.h:383-424 | the leftmost element of the right subtree is taken out and takes the element's place in memory |
| `AvlErase.RootPullOk` | kernel/util/avl_tree.h:372-381 | the root's special case keeps balance if and only if not (root leans left and left child leans right) |
| `AvlErase.ErasedInOrder` | kernel/util/avl_tree.h:296-434 | whichever way an element is erased, from whatever tree, the others stay in order |
| `AvlErase.ErasedBalanced` | kernel/util/avl_tree.h:296-434 | from a balanced tree no missing child is read, and what is left is balanced if and only if it is not the root case |
| `AvlErase.RootPullUnbalanced` | kernel/util/avl_tree.h:372-381 | a balanced tree of four elements that erasing its root unbalances |
| `AvlErase.RootPullReadsMissing` | kernel/util/avl_tree.h:684-692 | three erasures from a balanced tree of four elements, of which the last reads a child that is not there |
| `AvlOrder.Inserted` | kernel/util/avl_tree.h:239-287 | where the search ends, the new element keeps the order strict, in any tree; a balanced tree stays balanced |
| `AvlOrder.NoneMatches` | kernel/util/avl_tree.h:448-486 | a search that ran out has compared unequal to every element, for any comparator that is transitive at the elements it passed |
| `AvlOrder.OverlooksNext` | kernel/util/avl_tree.h:523-538 | a balanced tree of four elements in which the search for what comes after 25 overlooks 30 |
| `AvlOrder.ManyElements` | kernel/util/avl_tree.h:239-287 | a balanced tree of height h has at least Fib(h + 2) - 1 elements |
| `AvlOrder.HeightLogarithmic` | kernel/util/avl_tree.h:448-486 | so its height, and the number of steps of a search, is logarithmic in its size |
| `AvlWord.FactorRoundTrip` | kernel/util/avl_tree.h:58-74 | storing a factor leaves the parent address alone and gives the factor back if and only if it is within -4..3 |
| `AvlWord.ParentRoundTrip` | kernel/util/avl_tree.h:45-56 | storing a parent leaves the factor alone and gives the address back if and only if it is aligned |
| `AvlTree.AvlTree.constructor` | kernel/util/avl_tree.h:986-987 | an empty tree |
| `AvlTree.AvlTree.RotateLeft` | kernel/util/avl_tree.h:724-757 | the tree in memory is rotated, wherever it hangs |
| `AvlTree.AvlTree.RotateRight` | kernel/util/avl_tree.h:759-792 | the mirror image |
| `AvlTree.AvlTree.RebalanceLeft` | kernel/util/avl_tree.h:794-808 | rotation and factors in memory are those of the shape |
| `AvlTree.AvlTree.RebalanceRight` | kernel/util/avl_tree.h:810-824 | the mirror image |
| `AvlTree.AvlTree.RebalanceLeftRight` | kernel/util/avl_tree.h:826-849 | both rotations and all three factors in memory are those of the shape |
| `AvlTree.AvlTree.RebalanceRightLeft` | kernel/util/avl_tree.h:851-874 | the mirror image |
| `AvlTree.AvlTree.InsertRebalance` | kernel/util/avl_tree.h:580-644 | the loop leaves the tree in memory that the walk up gives, or reads a missing child exactly where that does |
| `AvlTree.AvlTree.EraseRebalance` | kernel/util/avl_tree.h:646-722 | the same of the loop after an erasure |
| `AvlTree.AvlTree.Descend` | kernel/util/avl_tree.h:248-281 | the way down ends at a matching element, or at the one empty place that keeps the order |
| `AvlTree.AvlTree.Insert` | kernel/util/avl_tree.h:239-287 | in any ordered tree, balanced or not: adds exactly the element, in order, or changes nothing if one matches; reads a missing child exactly where the walk on shapes does; a balanced tree never does and stays balanced |
| `AvlTree.AvlTree.Find` | kernel/util/avl_tree.h:448-486 | finds an element exactly if one matches, and looks at no more elements than the tree is high |
| `AvlTree.AvlTree.Next` | kernel/util/avl_tree.h:120-145 | the iterator steps to the next element in order, or to the end |
| `AvlTree.AvlTree.EraseSplice` | kernel/util/avl_tree.h:311-342 | erasing an element with at most one child leaves in memory what is left of the shape |
| `AvlTree.AvlTree.ErasePull` | kernel/util/avl_tree.h:345-381 | the same of an element whose right child has no left child |
| `AvlTree.AvlTree.EraseSupplant` | kernel/util/avl_tree.h:383-424 | the same of any other element |
| `AvlTree.AvlTree.Erase` | kernel/util/avl_tree.h:296-434 | in any ordered tree: removes exactly the element, keeps order and links, returns the next element, and reads a missing child exactly where the walk on shapes does; from a balanced tree it never does, and keeps balance if and only if it is not the root case |
| `AvlTree.AvlTree.LowerBound` | kernel/util/avl_tree.h:488-538 | a matching element, or else the first after the key, or none exactly where the last turn was to the right at an element that is not a left child |
| `AvlTree.AvlTree.UpperBound` | kernel/util/avl_tree.h:540-557 | the element after a matching one, or else, as the lower bound, the first after the key, or none exactly where the last turn was to the right at an element that is not a left child |
| `AvlRuns.Run` | kernel/util/avl_tree.h:239-434 | over every run of insertions and erasures the tree is balanced, and no missing child is read, as long as no erasure is of the root case |
| `HeapShape.SwapOk` | kernel/util/tree_heap.h:181-237 | the pointer writes of a swap exchange the elements of two slots and nothing else |
| `HeapShape.AttachOk` | kernel/util/tree_heap.h:50-64 | hanging an element below the parent of the first empty slot keeps the tree complete |
| `HeapShape.PromoteOk` | kernel/util/tree_heap.h:122-140 | moving the last element to the top keeps the tree complete |
| `HeapShape.RiseStep` | kernel/util/tree_heap.h:66-71 | one swap upwards leaves one slot less out of order |
| `HeapShape.SinkStep` | kernel/util/tree_heap.h:142-163 | one swap downwards with the better child leaves one slot less out of order |
| `HeapShape.TopIsFirst` | kernel/util/tree_heap.h:166-169 | no element comes before the top |
| `TreeHeap.TreeHeap.constructor` | kernel/util/tree_heap.h:176-179 | an empty heap |
| `TreeHeap.TreeHeap.GetNth` | kernel/util/tree_heap.h:239-279 | the arithmetic walk reaches the n-th slot in level order |
| `TreeHeap.TreeHeap.Swap` | kernel/util/tree_heap.h:181-237 | exchanges the elements of two slots in memory |
| `TreeHeap.TreeHeap.Rise` | kernel/util/tree_heap.h:66-71 | the loop restores the order upwards |
| `TreeHeap.TreeHeap.Sink` | kernel/util/tree_heap.h:142-163 | the loop restores the order downwards |
| `TreeHeap.TreeHeap.Best` | kernel/util/tree_heap.h:144-154 | the element or the better of its children |
| `TreeHeap.TreeHeap.Push` | kernel/util/tree_heap.h:41-74 | adds exactly the element; the result is a complete, parent-consistent, ordered heap if and only if it was not empty or the element had no links |
| `TreeHeap.TreeHeap.Pop` | kernel/util/tree_heap.h:76-164 | takes out exactly the top, which no element comes before, and keeps the heap; the element keeps its links |
| `TreeHeap.TreeHeap.EmptyAndRefill` | kernel/util/tree_heap.h:41-164 | a heap of two, emptied and given back its first element, is not a heap |
| `Fifo.Fifo.constructor` | kernel/util/fifo.h:70-75 | an empty queue |
| `Fifo.Fifo.PushBack` | kernel/util/fifo.h:29-48 | adds at the end, whatever the element's link was |
| `Fifo.Fifo.PopFront` | kernel/util/fifo.h:50-62 | takes out the first element, if any |
| `Vmo.PaddedOk` | kernel/memory/vmo.cpp:44-47 | a length is padded to the least multiple of the frame size that is no shorter if and only if it is not within a frame of 2^64 |
| `Vmo.PaddingWraps` | kernel/memory/vmo.cpp:44-47 | one byte short of 2^64 is padded to nothing |
| `Vmo.Vmo.Sparse` | kernel/memory/vmo.cpp:44-62 | a padded object with one piece without a frame, in its tree |
| `Vmo.Vmo.Physical` | kernel/memory/vmo.cpp:25-42 | a padded object at a given address |
| `Vmo.Vmo.Append` | kernel/memory/vmo.cpp:123-125 | a piece behind all others goes to the end of the tree, which stays balanced |
| `Vmo.Vmo.CommitFrom` | kernel/memory/vmo.cpp:113-129 | the inner loop splits the piece in the tree into pieces of one frame each, each with a frame of its own, and ends behind the last; however it ends, the frames taken are exactly those of the pieces, and it fails only if none is left with a piece to go |
| `Vmo.Vmo.CommitAll` | kernel/memory/vmo.cpp:86-143 | from the lower to the upper bound of the whole object in the tree, every piece has a frame, at its place, no two the same; they are exactly the pages that the allocator lost, and were nobody's before; fails only if no frame is left for a piece, and then too the frames taken are those of the pieces |
| `Vmo.Vmo.Destroy` | kernel/memory/vmo.cpp:64-84 | the walk over the tree gives back exactly the object's frames, and their pages; a physical or uncommitted object gives nothing back |
| `VasPages.PieceLinear` | kernel/memory/vas.cpp:135-140 | a piece maps to consecutive pages of its frame: congruence follows from frame alignment |
| `VasPages.MapsPiece` | kernel/memory/vas.cpp:126-141 | one more piece is shown, earlier ones still are, all other pages are kept |
| `VasPages.MappedElsewhere` | kernel/memory/vas.cpp:118-141 | mapping in one address space, in either half, keeps every other address space and its lower half, and what all of them showed |
| `VasPages.StillDisplays` | kernel/memory/vas.cpp:118-141 | an object on display stays on display |
| `VasPages.NeverShared` | kernel/memory/vmo.cpp:86-143 | objects that hold different frames share no physical page |
| `VasPages.NeverFolded` | kernel/memory/vmo.cpp:86-143 | two pages of one object are never the same physical page |
| `VasPages.NeverOverlaps` | kernel/memory/vas.cpp:79-154 | pages of any address spaces that show different pages of committed objects translate to different frames |
| `VasPages.TablesApart` | kernel/memory/pmm.cpp:80-104 | a free page is in no frame that anyone holds |
| `VasRuns.OwnedStays` | kernel/memory/pmm.cpp:80-104 | tables are added in frames that were free, so frames that an object holds do not become tables |
| `VasRuns.TookOwned` | kernel/memory/vmo.cpp:86-143 | an object takes frames that were free, so they are neither tables nor frames of other objects |
| `Vas.Vas.constructor` | kernel/memory/vas.cpp:32-36 | no mappings, and nothing of the lower half translates |
| `Vas.CreateVas` | kernel/memory/vas.cpp:32-45 | a new address space with the shared upper half, for exactly the frames of its root and of the tables added |
| `Vas.Vas.Occupy` | kernel/memory/vas.cpp:101-116 | a range is entered exactly if no mapping meets it; mappings stay disjoint if it does not wrap |
| `Vas.BridgesIff` | kernel/memory/vmo_mapping.h:93-114 | the order of mappings is transitive at a mapping if and only if that does not end before it starts |
| `Vas.WrappedStretch` | kernel/memory/vas.cpp:101-116 | a mapping whose end wraps precedes itself and meets only what spans it |
| `Vas.WrappedInput` | kernel/memory/vas.cpp:101 | two pages from the last page on end 4 KiB above address 0 |
| `Vas.CanonicalCovered` | kernel/arch/amd64/memory/vm.cpp:204 | if all mappings are canonical, a page of the lower half is covered exactly if its address is |
| `Vas.AliasedInput` | kernel/arch/amd64/memory/vm.cpp:204 | a mapping at 2^48 stands for page 0, though it does not meet address 0 |
| `Vas.Vas.MapPieces` | kernel/memory/vas.cpp:125-142 | at any address: every page of a committed sparse object translates to exactly its backing frame, and other address spaces keep their lower halves; a page in the way was there before the first piece; whatever happens, frames go to tables on the way to pages of the object only |
| `Vas.Vas.MapStretch` | kernel/memory/vas.cpp:118-123 | a physical object is mapped as one stretch, or not at all exactly if it reaches the top of the address space; it stops for lack of frames only if a table is missing |
| `Vas.Vas.MapVmo` | kernel/memory/vas.cpp:79-154 | end to end, for every 64-bit address: misaligned, occupied and uncommitted exactly if so; on success all pages show the object and none was mapped before, every other page of this address space keeps its frame, every other address space keeps its lower half and what it showed; mappings and translations still agree unless the object is sparse, empty and in the lower half; in an address space where they agreed a page of a non-empty object is mapped already only if an address beyond the lower half is involved; a wrapped range is an outcome; whatever the outcome, the allocator lost exactly the frames of the new tables, which lead to pages of the object |
| `Vas.DirectMapInTheWay` | kernel/memory/vas.cpp:220-245 | in every address space, the direct map is in the way of any object at its start, though no mapping is there |
| `Vas.Vas.Disjoint` | kernel/memory/vmo_mapping.h:93-114 | mappings are pairwise disjoint |
| `Vas.Vas.LockAddressRange` | kernel/memory/vas.cpp:166-185 | access is granted exactly if the search hits a mapping that allows it; it hits one exactly if some mapping meets the range, and that contains the range if and only if any does |
| `Vas.Vas.GrantedIff` | kernel/memory/vas.cpp:166-185 | all of a granted range may be accessed if and only if what lies before and after the mapping it hit may be |
| `Vas.Vas.GrantedBeyond` | kernel/memory/vas.cpp:166-185 | a granted range that goes on after the mapping it hit has an unmapped byte, unless another mapping adjoins |
| `Vas.Vas.GrantedBefore` | kernel/memory/vas.cpp:166-185 | a granted range that starts before the mapping it hit has an unmapped byte, unless another mapping adjoins |
| `Vas.Vas.GrantedReadOnly` | kernel/memory/vas.cpp:166-185 | a range granted for writing that runs into an adjoining read-only mapping has a byte that may only be read |
| `Vas.Run` | kernel/memory/vas.cpp:79-154 | over every run of mappings at any addresses, up to the first that does not succeed, mappings and translations agree and every object mapped stays on display, sparse or physical, frames go to page tables only; a page is found mapped already only if an address beyond the lower half is involved, and so never if all requests are for the lower half |
| `Vas.NowExposes` | kernel/memory/vas.cpp:118-123 | a physical object that was mapped shows, page by page, the frames of the closed form, with the user bit asked for |
| `Vas.EmptyObject` | kernel/memory/vas.cpp:101-141 | an empty sparse object has pages to map, but its range is empty and meets no mapping that starts at the same address |
| `VasRuns.System.constructor` | kernel/memory/vas.cpp:47-54 | no objects, and one address space that was there before |
| `VasRuns.System.Commit` | kernel/memory/vmo.cpp:86-143 | committing one object keeps: objects hold different frames, none of them a page table, in trees of their own; what is mapped is on display; it fails only if no frame is left for a piece of it |
| `VasRuns.System.NewVas` | kernel/memory/vas.cpp:32-45 | a new address space keeps it so, for exactly the frames of its tables |
| `VasRuns.System.Map` | kernel/memory/vas.cpp:79-154 | mapping an object at any address into one of several address spaces keeps it so, adds exactly this to what is on display and to the mappings of this one, and has its reason otherwise; in any case the frames taken are those of the tables added, on the way to pages of the object |
| `VasRuns.System.Destroy` | kernel/memory/vmo.cpp:64-84 | giving back the frames of an object that is mapped nowhere keeps it so; page tables stay apart from free frames |
| `VasRuns.System.Perform` | kernel/memory/vas.cpp:32-154 | each command that is performed does exactly what it means: one object more or less, one committed, one address space more, or one object on display; otherwise there is a reason |
| `VasRuns.System.Run` | kernel/memory/vas.cpp:32-154 | every run of commands, up to the first that is not performed, with its reason, goes through states each of which the command before it means, and in each it stays so |
| `VasRuns.NeverOverlap` | kernel/memory/vas.cpp:79-154 | so two pages on display, in whichever address spaces, translate to the same frame if and only if they are the same page of the same object, and never to a page table |
| `VasRuns.DisplayStays` | kernel/memory/vas.cpp:79-154 | what was put on display stays so over the rest of the run |
| `VasRuns.ShownApart` | kernel/memory/vas.cpp:79-154 | at every moment after two objects were shown, whatever was done since, their pages are in the same frame if and only if they are the same page of the same object |
| `VasRuns.ShownPhysical` | kernel/memory/vas.cpp:118-123 | at every moment after a physical object was shown, whatever was done since, each of its pages is in the frame of the closed form, with the user bit asked for |
| `VasAccount.StepBalanced` | kernel/memory/pmm.cpp:69-104 | whatever a command does, frames move only between the free lists, the objects and new page tables |
| `VasAccount.Conservation` | kernel/memory/pmm.cpp:69-104 | between any two states of a run, whatever objects and address spaces came and went, no frame is lost and none is handed out twice |
| `VasAccount.NothingLeaks` | kernel/memory/vmo.cpp:64-143 | a run that begins and ends without objects has used up frames for page tables only |
| `Kernel.Lightest` | kernel/scheduler/types.cpp:48-62 | the first core with the lowest load |
| `KernelPlaces.MovePlaced` | kernel/scheduler/types.cpp:117-184 | every step moves threads from one place to another and duplicates or loses none |
| `KernelPlaces.AlwaysPlaced` | kernel/scheduler/types.cpp:48-184 | in every state of every run, in which no thread with links left over is woken into an empty heap, each thread is in exactly one place: running, ready or waiting |
| `KernelPlaces.NotCurrent` | kernel/scheduler/types.cpp:127-130 | a woken thread is not current anywhere, so that panic is unreachable |
| `KernelLinks.StepLinks` | kernel/util/tree_heap.h:41-164 | every step keeps: no thread in a heap has links left over, and a current thread that has them goes back to a heap that is not empty |
| `KernelLinks.PreemptionFits` | kernel/scheduler/types.cpp:160-164 | preempting a thread never breaks the heap |
| `KernelReaders.StaleLinks` | kernel/util/tree_heap.h:41-95 | a run from start-up, with two processes of one thread each, after which writing a message would put a thread with links left over into an empty heap |
| `KernelWaiting.StepAhead` | kernel/scheduler/types.cpp:117-184 | while a thread is ready nobody new gets ahead of it, and each choice of its core leaves one less ahead |
| `KernelWaiting.StepClocked` | kernel/scheduler/types.cpp:136-164 | no step stamps a thread with a time that is still to come |
| `KernelWaiting.BoundedWaiting` | kernel/scheduler/types.cpp:117-226 | a ready thread is dispatched before its core has chosen more often than there were other threads not stamped later, whatever blocks, wakes or starts meanwhile |
| `KernelRuns.NeverStarved` | kernel/scheduler/types.cpp:117-226 | the same from any moment on of any run from start-up |
| `KernelWaiting.ReadyUntilTaken` | kernel/scheduler/types.cpp:153-173 | a ready thread stays ready until its core takes it |
| `KernelMail.ResumeFinds` | kernel/scheduler/thread.h:75-91 | if mailboxes are in order, a woken reader always finds a message |
| `KernelMail.StepMail` | kernel/scheduler/mailbox.cpp:79-190 | every step that begins a read only where none is under way keeps mailboxes in order: read + queued = written; at most one thread waits, in the middle of a read, and only when nothing is queued |
| `KernelMail.AlwaysMail` | kernel/scheduler/mailbox.cpp:32-190 | the same in every state of every run |
| `KernelSingle.SingleAlone` | kernel/scheduler/mailbox.cpp:56-136 | if processes have one thread each, no read begins while another of the same mailbox is under way, because the one handle to read it is in one place |
| `KernelSingle.StepSingle` | kernel/scheduler/process.cpp:28-190 | every step but giving a process another thread keeps that, also when the handle to read is handed over |
| `KernelSingle.MailInOrder` | kernel/scheduler/mailbox.cpp:32-190 | so mailboxes are in order in every state of every run in which no process is given another thread |
| `KernelMail.ReadInOrder` | kernel/scheduler/mailbox.cpp:105-190 | what was read is a prefix, in order, of what was written; a waiting reader has read all |
| `KernelReaders.TwoReaders` | kernel/scheduler/thread.h:75-91 | a run from start-up, with a process that is given a second thread, after which one of them waits without a continuation |
| `KernelHandles.StepHeld` | kernel/scheduler/mailbox.cpp:105-168 | every step keeps each handle in at most one table entry or queued message, and moves or loses one only as it may |
| `KernelHandles.AlwaysHeld` | kernel/scheduler/process.cpp:28-190 | the same in every state of every run |
| `KernelHandles.StaysUntilReleased` | kernel/scheduler/process.cpp:64-118 | a handle that may not be transferred stays under its token until its process releases it |
| `KernelHandles.RefusedUnchanged` | kernel/scheduler/mailbox.cpp:138-168 | a refused call changes nothing |
| `KernelAccess.Denials` | toolchain/thorn/generator.cpp:353-388 | the checks before a handler refuse exactly for want of a handle, of the right type, or of the permission |
| `KernelAccess.OnlyWriters` | kernel/scheduler/mailbox.cpp:138-190 | a step adds a message to a mailbox only if the caller has a handle to write to it, and exactly the message that it asked to write |
| `KernelAccess.WriterSends` | kernel/scheduler/mailbox.cpp:138-190 | a caller with that permission does write its message, to that mailbox only; the first waiting reader becomes ready on the core with the fewest ready threads; a handle that is sent leaves the caller's table |
| `KernelAccess.OnlyReaders` | kernel/scheduler/mailbox.cpp:79-136 | a step takes a message from a mailbox only if the caller has a handle to read it or is in the middle of a read, and takes the first |
| `KernelAccess.ReaderReceives` | kernel/scheduler/mailbox.cpp:79-136 | a caller with that permission gets the first message; without one it is told so or waits, and remembers the mailbox |
| `KernelAccess.OnlyReadersWait` | kernel/scheduler/mailbox.cpp:93-103 | a thread comes to be in the middle of a read only by a read of its own, with the permission to |
| `KernelAccess.OnlyReadersPark` | kernel/scheduler/mailbox.cpp:91-103 | a thread comes to wait at a mailbox only by reading from it, with the permission to or in the middle of a read, when there is no message |
| `KernelAccess.OnlyStarters` | kernel/scheduler/process.cpp:144-190 | a process is started only by a caller with a handle to it that may write, and a handle to give it, or by the kernel giving it a thread |
| `KernelAccess.StarterStarts` | kernel/scheduler/process.cpp:144-190 | such a caller starts it, unless it was started: one thread, ready, and the handle in its table and no longer in the caller's |
| `KernelAccess.Codes` | toolchain/thorn/generator.cpp:353-388 | each code that a caller can be told, exactly when: invalid token, wrong type, not allowed, invalid arguments |
| `KernelAccess.MailboxEnds` | kernel/scheduler/mailbox.cpp:56-77 | a new mailbox comes with two handles: one may read and not write, the other write and not read |
| `KernelAccess.ObjectHandles` | kernel/scheduler/process.cpp:120-142 | a new process or other object comes with one handle |
| `KernelAccess.PreemptSwitches` | kernel/scheduler/types.cpp:136-184 | preempting a core stamps its thread, makes it ready, and runs the one with the lowest timestamp |
| `KernelPowers.EveryMessageWritten` | kernel/scheduler/mailbox.cpp:138-190 | in every run, each message of a mailbox is the argument of a write by a process that then had a handle to write to it |
| `KernelPowers.EveryMessageRead` | kernel/scheduler/mailbox.cpp:79-136 | in every run, each message read was taken, as the first in the queue, by a process with a handle to read or in the middle of a read |
| `KernelPowers.PendingBegan` | kernel/scheduler/mailbox.cpp:93-103 | in every run, a thread in the middle of a read began it when its process had a handle to read |
| `KernelPowers.AlwaysEnds` | kernel/scheduler/mailbox.cpp:56-77 | in every run, a mailbox has one handle to write to it, and no handle both reads and writes one |
| `KernelPowers.SoleWriter` | kernel/scheduler/mailbox.cpp:56-77 | in every state reachable from start-up, at most one process may write to a mailbox, by one token |
| `KernelRuns.BootOk` | kernel/scheduler/scheduler.cpp:34-53 | idle cores and one ready thread satisfy every invariant |
| `KernelRuns.Reachable` | kernel/scheduler/mailbox.cpp:32-190 | in every state reachable from start-up threads are in one place, handles in at most one, timestamps past and heaps free of links left over; and mailboxes are in order, if no process was given another thread |
| `KernelObjects.HandleTable.FindToken` | kernel/scheduler/process.cpp:38-50 | the retry loop, with its searches of the tree, finds the token of the first reading that gives an unused one, within one more reading than tokens are in use, if the clock advances |
| `KernelObjects.TokensDiffer` | kernel/scheduler/process.cpp:40-44 | different readings give different tokens |
| `KernelObjects.HandleTable.Register` | kernel/scheduler/process.cpp:28-62 | the tree files exactly one handle more, under an unused token; in a balanced tree no missing child is read, and it stays balanced |
| `KernelObjects.HandleTable.Unregister` | kernel/scheduler/process.cpp:64-77 | the tree files exactly one handle less; in a balanced tree no missing child is read, and it stays balanced if and only if the token is not in the root case |
| `KernelObjects.HandleTable.Get` | kernel/scheduler/process.cpp:79-91 | the handle under the token, if there is one |
| `KernelObjects.Mailbox.PushMessage` | kernel/scheduler/mailbox.cpp:165-173 | the linked queue holds one message more at its end |
| `KernelObjects.Mailbox.PopMessage` | kernel/scheduler/mailbox.cpp:105 | the first message leaves the linked queue |
| `KernelObjects.Mailbox.PushWaiting` | kernel/scheduler/mailbox.cpp:99-100 | the linked queue holds one waiting thread more at its end |
| `KernelObjects.Mailbox.PopWaiting` | kernel/scheduler/mailbox.cpp:183-186 | the first waiting thread, if any, leaves the linked queue; its link still leads somewhere exactly if another waited |
| `KernelObjects.HandleTable.SizeIs` | kernel/scheduler/process.h:57-84 | the size of the tree is the number of tokens |
| `KernelCalls.Machine.constructor` | kernel/scheduler/scheduler.cpp:34-53 | the machine is in the start-up state of the runs |
| `KernelCalls.Machine.RegisterForToken` | kernel/scheduler/process.cpp:28-62 | one tree of many changes, the others and their separation stay, and the machine does the registering move |
| `KernelCalls.Machine.UnregisterToken` | kernel/scheduler/process.cpp:64-77 | one tree of many changes, the others stay, and the machine does the unregistering move; whether every tree is still balanced, exactly |
| `KernelCalls.Machine.Check` | toolchain/thorn/generator.cpp:353-388 | the generated checks refuse a call exactly as the step does, and exactly for want of a handle, of the right type, or of the permission |
| `KernelCalls.Machine.LowestLoad` | kernel/scheduler/types.cpp:48-62 | the loop over cores finds the first one with the lowest load |
| `KernelCalls.Machine.MailboxRead` | kernel/scheduler/mailbox.cpp:79-136 | the handler, on linked queues and trees, does the read step: refused, a message, not ready, or blocked; it gives the data of the first message, or the new token of its handle; a null child is never read while all trees are balanced |
| `KernelCalls.Machine.InvokeContinuation` | kernel/scheduler/thread.h:75-91 | the handler, on linked queues and trees, does the resume step, and gives the message as a read does; the continuation is gone even if it blocks again |
| `KernelCalls.Machine.MailboxWriteData` | kernel/scheduler/mailbox.cpp:170-190 | the handler, on linked queues, does the write step for data, whose effect is that of `KernelAccess.WriterSends`, or finds that the thread it wakes breaks the heap exactly if the step is not possible |
| `KernelCalls.Machine.MailboxWriteHandle` | kernel/scheduler/mailbox.cpp:138-190 | the handler, on linked queues and trees, does the write step for a handle: refused, invalid token, not allowed, or moved; all trees stay balanced if and only if the token given away is not in the root case |
| `KernelCalls.Machine.TokenRelease` | kernel/scheduler/process.cpp:107-118 | the handler, on the tree, does the release step; token zero is ignored; all trees stay balanced if and only if the token is not in the root case |
| `KernelCalls.Machine.ProcessStart` | kernel/scheduler/process.cpp:144-190 | the handler, on two trees, does the start step, with its refusals; all trees stay balanced if and only if the token handed over is not in the root case |
| `KernelCalls.Machine.CreateThread` | kernel/scheduler/process.cpp:93-105 | a process is given a thread, and is marked as started |
| `KernelCalls.Machine.MailboxCreate` | kernel/scheduler/mailbox.cpp:56-77 | the handler makes a mailbox whose queues are apart from all others, and registers both handles |
| `KernelCalls.Machine.ProcessCreate` | kernel/scheduler/process.cpp:120-142 | the handler makes a process whose tree is apart from all others, and registers its handle |
| `KernelCalls.Machine.ObjectCreate` | kernel/memory/vmo.cpp:145-164 | the handler registers the handle of a new object |
| `KernelCalls.Machine.PlacedApart` | kernel/scheduler/types.cpp:127-130 | where each thread is in one place, none that waits is current |
| `KernelMachine.NextAfter` | kernel/scheduler/types.cpp:153-173 | the thread with the lowest timestamp, the one that gives way included |
| `KernelMachine.Perform` | kernel/scheduler/mailbox.cpp:79-190 | every call that can be made goes through as a step that it stands for, with the code and the message that the step gives, breaks a heap only if the thread it wakes does, and reads a missing child only if a tree was or becomes unbalanced |
| `KernelMachine.ReaderTold` | kernel/scheduler/mailbox.cpp:105-136 | a reader gets the first message as it was written: its data, or a token for its handle |
| `KernelMachine.Run` | kernel/scheduler/process.cpp:28-190 | every run of calls on linked queues and trees, from any reachable state, goes through a run of the steps, up to the first that does not go through, with its reason; no missing child is read as long as no call drops a token in the root case |
| `Timer.LogRan` | kernel/time/time.cpp:131-144 | running the earliest due event is on time, in order, once, after it was set up and not after cancellation |
| `Timer.Timer.constructor` | kernel/time/time.h:136-151 | nothing set up |
| `Timer.Timer.Add` | kernel/time/time.cpp:97-117 | the event, with its callback, is due its delay after now |
| `Timer.Timer.Do` | kernel/time/time.cpp:90-122 | sets up an event, due its delay after a reading of the clock that is not old, and drains; the past is not rewritten |
| `Timer.Timer.Take` | kernel/time/time.cpp:131-139 | the earliest event leaves the heap, and runs exactly if it was not cancelled |
| `Timer.Timer.Fire` | kernel/time/time.cpp:131-148 | the callback that the event was set up with is carried out, operation by operation, however deep it nests |
| `Timer.Timer.ScheduleNext` | kernel/time/time.cpp:124-157 | no callback ever ran early, twice, out of order or after cancellation; every callback that ran was carried out; everything left is in the future of the last reading of the clock, taken after all callbacks, and the hardware is armed for the first of it |
| `Timer.Timer.Run` | kernel/time/time.cpp:136-139 | each operation of a callback takes effect, in order: every event is set up, under a number of its own, with its delay and its callback, and every cancellation is made |
| `Timer.Timer.Perform` | kernel/time/time.cpp:90-122 | one operation leaves its entry in the history: an event with this delay and this callback, or a cancellation |
| `Timer.Timer.StillSettled` | kernel/time/time.cpp:124-157 | what was carried out stays so: in the whole history every callback that ran was carried out |
| `Timer.Timer.CancelEvent` | kernel/time/time.cpp:166-170 | the event's callback does not run from now on |
| `Timer.DueHasRun` | kernel/time/time.cpp:124-157 | after draining, an event that was not cancelled has run exactly if its time has come |

## Left out

- Locks, lock bits, TLB invalidation, interrupt flags and inter-processor interrupts: a handler is one step, and what can happen in the middle of one is not modelled.
- Freeing of frames while unmapping: every caller passes `false` for it, and it would free frames that the caller still holds.
- `unmap_all`: it gives the lower half that the loader left behind back to the allocator, and those frames were never taken from it.
- `vas::unmap` beyond the page tables: it clears the range of a node that stays in the tree of mappings, so what is said about mappings is said about runs that only map.
- The vdso mapping of `create_vas` and the claim of an address space by a process: a flag and a cached pointer.
- The AVL tree's `operator--` and destructor, and insertion with a hint, which ignores the hint.
- Paging.MapPhysical: what lies in memory behind the end of a table of the highest level, and so what happens after the loop has run off it, is not modelled; running off is an outcome.
- Vmo.Vmo.CommitAll: only all of an object is committed, as every caller does, so the step back to the piece that holds an offset inside it is not reached.
- Vmo.Vmo.CommitFrom: the piece without a frame is the only one, because objects are committed as a whole. Which frame a piece has is kept in a map beside the tree.
- VasRuns.System.Map: what an address space shows goes away only with `vas::unmap`, which is left out, so an object that is mapped is not destroyed.
- Vas.Vas.MapVmo: after a range has wrapped, what later searches of a tree with such a mapping find, and where the pieces behind the wrapped one go, is not modelled; the wrap is an outcome.
- KernelPlaces.AlwaysPlaced: the heaps of ready threads are sets, from which an element with the lowest timestamp is taken; what the heap's links demand is a condition of the steps that wake threads.
- KernelCalls.Machine.MailboxWriteData: the heaps of ready threads of the machine are sets too. Its queues of waiting threads consist of nodes and not of the threads, which of them have links left over is a set, and its clock readings are arguments.
- KernelCalls.Machine.MailboxRead: reads with a timeout other than "poll" and "wait for ever" are a panic in the handler and not modelled.
- KernelSingle.MailInOrder: for processes with one thread each; with two it is false, as the run of `KernelReaders.TwoReaders` shows. The kernel's own logging threads make second handles to read a mailbox, which no system call does.
- KernelWaiting.BoundedWaiting: counts choices of the core, not time; the preemption timer that causes them is not connected.
- Process creation for an address space that already belongs to a process, thread contexts, and switching of address spaces on dispatch.
- Timer.Timer.Do: periodic events, which are a panic, and the exhaustion of event numbers.
- Statistics counters of the allocator and its report.
- ELF loading, boot modules, the vdso, ACPI, LAPIC, HPET, GDT, IDT, serial, screen, UEFI console and file system, the Thorn generator apart from the checks it puts before every handler, and build scripts.
