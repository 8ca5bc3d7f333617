# Movable ZFS caches: models and proofs

The repository makes the memory behind OpenZFS movable and reclaimable: ARC buffers join the kernel's page cache, ARC
headers and other slab objects are relocated so that their slabs can be handed back, readahead is filled a batch at a
time, and compaction looks for whole targets for large folios. Two observers show what is left behind. This project
models the parts of that with the most state and interleaving, and proves what each of them keeps.

`dafny verify dfyconfig.toml` checks everything. Modules, hardest first:

- **The ARC folio protocol** (`FolioMachine` and the other `Folio*` modules). A state machine over folios, buffers (ABDs)
  and tasks. One step is what other tasks may see in between: reading a scatterlist entry, taking a reference, taking
  a lock, each stage of a migration, each statement of the two free paths. `FolioInvariant` is what every
  reachable state satisfies; `FolioLight` to `FolioRepoint` show it step by step; `FolioRuns` assembles them for any
  interleaving of any number of tasks; `FolioTheorems` says what it means for counts, readers, live buffers and
  `VERIFY(found)`. `FolioReclaim` says that reclaim and readers get there where nobody is in the way. `FolioReuse`,
  `FolioHops` and `FolioReuseRun` are about the one step that breaks the invariant.
- **Its lock order** (`LockOrder`): owner lock, `abd_mtx`, folio lock, the spin on a frozen folio, and the move callback.
- **Reclaim** (`Reclaim`): `abd_lru_release_folio` with the ARC's half of it, on folios, buffers and a header changed in
  place, all or nothing.
- **Slab evacuation** (`SlabSpec`, `SlabMoves`, `SlabPass`, `SlabNode`). `SlabSpec` says on values what a pass makes of a
  slab, given what everybody else does at every moment the pass holds no lock, and `SlabMoves` which objects that moves;
  `SlabPass` has the code, free pointers in an array and freelists as chains through it, proved equal to that;
  `SlabNode` is one pass over a node, likewise.
- **The page cache against the file** (`PageCoherence`, `PageWrites`, `Readahead`): writers, hole punchers, faults, stores,
  writeback, eviction and readahead in any interleaving; and the copy loop of one readahead batch.
- **Header relocation and its charge** (`HeaderMove`, `HeaderCharge`).
- **Compaction's free scanner** (`CompactionScan`).
- **Buffer allocation and index ranges** (`ChunkAlloc`).
- **The observers** (`SiteTable`, `PixLayout`, `BandHeights`).

Upstream kernel and OpenZFS functions whose bodies are not in the repository follow contracts, stated where they are
used: `folio_migrate_mapping` succeeds only on the exact expected count, holds it at zero, and moves the per-page
references; `filemap_add_folio` may fail; `get_freelist_nofreeze` takes the whole freelist and counts every object as in
use; `__slab_free` lists a slab whose freelist was empty and may discard one with nothing in use; a hold of a file range
gives consecutive blocks that cover it. Allocation failures, contended locks, other tasks' changes and the move
callback's refusals are parameters: the theorems are about every one of them, and say when each refusal is given.

## Findings

Properties that fail as they would naturally be stated, each with a concrete input or run and the condition under which
the code does meet them:

- A migration may be handed, as its new folio, a page the free loop has just given back from the same buffer. That is the
  one step of the code that breaks the invariant, and it breaks it if and only if the page is still named by an entry of
  the buffer (`FolioRuns.StepKeepsIff`); `FolioReuse.NamedOnceIffUnnamed` says the same of the table a whole migration
  leaves. `FolioReuseRun.ReusedTarget` is a reachable state that leads there, and `FolioReuseRun.ForeignChunkFreed` a run
  of the code's own machine that goes on: the next migration repoints the wrong entry, the free loop comes to a page that
  is another buffer's chunk by now and frees it, and a page in the mapping keeps the address of a buffer that is gone. The
  theorems of `FolioTheorems` are about the runs in which no migration target is named.
- `emptied` may be false for a slab that ends up entirely free: an owner frees its object just before the callback, so
  nothing is moved and `moved == live` fails (`SlabSpec.OwnerWasFaster` is such a pass). A pass may therefore give up
  although its slabs did come free. `SlabSpec.EmptiedIff` says when `emptied` is reported: if and only if, when the
  callbacks are done, no owner has an object, nothing is free, and nothing was claimed that was not free at the start.
- `arc_hdr_move` runs inside an RCU read side, where nothing may block, and sleeps in `abd_lru_rebind` if and only if every
  test is passed and another task has the `abd_mtx` of one of the header's page-cache buffers (`HeaderMove.Arc.Move`;
  `HeaderMove.QuietHeaderWaits` is such a header). `LockOrder.CallbackWaits` is a run to it: reclaim has taken the mutex and
  not come to the hash lock yet. It closes no circle.
- `arc_hdr_move` says it leaves the old header owning nothing the new one owns. It does if and only if there was no raw
  buffer (`HeaderMove.Arc.Relocate`): that pointer stays in it.
- The first pixel column of a tile resolves to the tile before it unless the tile begins on a whole pixel
  (`PixLayout.FirstPixelResolves` gives the condition).
- `slabwho` counts the blocks of a site exactly if and only if the site is among the first 64 different ones of every block
  it is on (`SiteTable.ExactIffMarked`), which holds of every site while no block has more than 64
  (`SiteTable.FewSitesExact`). On a block with 65 the last is counted short (`SiteTable.SixtyFifthDropped`).

## Model

| member | source | states |
|---|---|---|
| `FolioRuns.StepKeeps` | patches/zfs/arc-folio-lru.patch:652-1134 | any step of join, grab, speculative reference, free, prelock, reclaim or migration onto an unnamed page, by any task, keeps the whole invariant |
| `FolioRuns.StepKeepsIff` | patches/zfs/arc-folio-lru.patch:945-980 | of all steps the code can take from a state that satisfies the invariant, exactly one kind breaks it: a migration taking a page that an entry of the same buffer still names |
| `FolioRuns.RunKeeps` | patches/zfs/arc-folio-lru.patch:610-631 | so every state of every run satisfies it in which no migration target is still named |
| `FolioTheorems.CountsAlways` | patches/zfs/arc-folio-lru.patch:616-626 | a folio's count is always the allocation's reference, one for the private word, one per page in the mapping and one per grab; only a migration that found exactly its own may hold it at zero |
| `FolioTheorems.FreeIffLetGo` | patches/zfs/arc-folio-lru.patch:1083-1129 | a page is free exactly when the protocol's share is gone and nobody holds a reference, and then no live entry stands for it |
| `FolioTheorems.DeadLeavesNothing` | patches/zfs/arc-folio-lru.patch:1063-1134 | once a buffer is freed no private word names it, no folio stands for one of its chunks and nobody holds its mutex |
| `FolioTheorems.ShareDropped` | patches/zfs/arc-folio-lru.patch:1113-1129 | on both free paths, before the last put, the protocol's own share is zero and the dropping task still has its reference |
| `FolioTheorems.NamedBufferLives` | patches/zfs/arc-folio-lru.patch:945-980 | a private word names a live buffer, and exactly one entry of it names the folio, save for a migration's new folio just before the entry follows |
| `FolioTheorems.LiveEntryHeld` | patches/zfs/arc-folio-lru.patch:1083-1129 | no entry of a live buffer that is not given back yet names a page the allocator has |
| `FolioTheorems.VerifyHolds` | patches/zfs/arc-folio-lru.patch:968-975 | `VERIFY(found)` never fails |
| `FolioTheorems.IdleHoldsNothing` | patches/zfs/arc-folio-lru.patch:853-1055 | a task outside the protocol holds no folio lock, no reference and no mutex of it |
| `FolioTheorems.ReclaimReturns` | patches/zfs/arc-folio-lru.patch:853-943 | in any interleaving reclaim returns with the one lock and one reference it entered with; on success the folio has left its buffer and is still in the mapping, on failure its buffer is alive and the folio is still one of its chunks |
| `FolioReclaim.ReclaimFrees` | patches/zfs/arc-folio-lru.patch:873-943 | from any reachable state in which reclaim has found the count exact, the mutex is free, nobody walks or frees the buffer and every other chunk is unlocked and not frozen, its own steps lead to success: buffer dead, every other chunk let go, the folio in the mapping without a private word |
| `FolioReclaim.PrelockFrees` | patches/zfs/arc-folio-lru.patch:805-838 | the same for the prelocked sweep of the other buffer, every chunk of it |
| `FolioReclaim.KernelFrees` | patches/zfs/arc-folio-lru.patch:616-626 | after a success the kernel, finding nobody else on the folio, frees its page |
| `FolioReclaim.ReclaimRun` | patches/zfs/arc-folio-lru.patch:853-943 | a run that builds two chunks, joins them and reclaims one: the buffer is dead and both pages are free |
| `FolioReclaim.ReaderGets` | patches/zfs/arc-folio-lru.patch:652-667 | unless a migration has the folio frozen, a reader of any entry of a live buffer comes by its own steps to a reference and to the bytes of that entry |
| `FolioTheorems.ReaderBytes` | patches/zfs/arc-folio-lru.patch:647-667 | a reader that holds a reference sees the bytes it asked for, and its folio is not free |
| `FolioTheorems.GrabbedBytes` | patches/zfs/arc-folio-lru.patch:652-667 | a grab that finds the entry unchanged hands out the bytes the buffer was built with |
| `FolioTheorems.StepOfOther` | patches/zfs/arc-folio-lru.patch:652-1134 | a task moves only by its own steps |
| `FolioTheorems.ReaderSteady` | patches/zfs/arc-folio-lru.patch:622-626 | over any continuation in which the reader takes no step, any number of migrations included, it keeps seeing the same bytes |
| `FolioReuse.NamedOnceIffUnnamed` | patches/zfs/arc-folio-lru.patch:968-975 | the exact condition under which the folio a migration leaves behind is named by one entry |
| `FolioReuse.LaterEntryStranded` | patches/zfs/arc-folio-lru.patch:968-974 | with two entries naming a folio its migration repoints the first and leaves the other naming the old page |
| `FolioReuseRun.ReusedTarget` | patches/zfs/arc-folio-lru.patch:1083-1129 | a reachable state from which such a migration is possible |
| `FolioReuseRun.ForeignChunkFreed` | patches/zfs/arc-folio-lru.patch:1093-1129 | a run of the code's own machine, two migrations and a free loop, after which a live buffer's chunk is the allocator's and a page in the mapping names a dead buffer |
| `LockOrder.StepKeeps` | patches/zfs/arc-folio-lru.patch:628-630 | every step keeps locks exclusive and waiting tasks free of the locks reclaim and migration take by trying |
| `LockOrder.LockRules` | patches/zfs/arc-folio-lru.patch:628-630 | in every run a task that blocks on a folio lock holds no folio lock, and one that holds a lock reclaim or migration took by trying blocks on nothing |
| `LockOrder.WaitDescends` | patches/zfs/arc-folio-lru.patch:628-630 | whoever is waited for waits, if at all, further in |
| `LockOrder.NoCycle` | patches/zfs/arc-folio-lru.patch:628-630 | no reachable state has a circle of waiting tasks, the spin on a frozen folio and reclaim inside a join's allocation included |
| `LockOrder.SomebodyMoves` | patches/zfs/arc-folio-lru.patch:805-1134 | from every task a chain of waits leads to one that can take a step |
| `LockOrder.CallbackBlockedIff` | patches/zfs/arc-folio-lru.patch:1026-1038 | in every run the move callback is blocked if and only if it has come to rebind a buffer whose mutex another task holds |
| `LockOrder.CallbackWaits` | patches/zfs/arc-folio-lru.patch:876-889 | a run in which it is, reclaim having the mutex and the folio |
| `Reclaim.UnlockSiblings` | patches/zfs/arc-folio-lru.patch:716-731 | the lock and reference of the first `n` chunks other than the kept one are given back, and of no other |
| `Reclaim.ClaimSiblings` | patches/zfs/arc-folio-lru.patch:891-917 | the sweep succeeds if and only if every other chunk is unlocked and still the one the table names; then it has each locked and referenced once, otherwise nothing has changed |
| `Reclaim.TryPrelock` | patches/zfs/arc-folio-lru.patch:805-838 | success if and only if there is nothing to take, or the mutex is free and every chunk can be had; it then holds all of them, otherwise the buffer is untouched |
| `Reclaim.PrelockRelease` | patches/zfs/arc-folio-lru.patch:840-851 | exactly what a prelock took is given back |
| `Reclaim.FreeChunks` | patches/zfs/arc-folio-lru.patch:1063-1134 | with every chunk taken, the reclaimed folio is only detached and each other chunk, joined or not, loses its whole share and the reclaimer's reference |
| `Reclaim.LruLock` | patches/zfs/arc-folio-lru.patch:1610-1630 | the owner's lock is taken if and only if it is free and the header has an identity, is in the hash table and has not moved; otherwise it is as it was |
| `Reclaim.LruEvict` | patches/zfs/arc-folio-lru.patch:1632-1696 | both buffers of the header go if and only if the header has data of its own, no I/O, write, buffer, callback, reference or hold, is in a list of a state that is evicted, the buffer is its own, the other one can be taken and the eviction happens; otherwise the header and both buffers are as they were |
| `Reclaim.EvictClaimed` | patches/zfs/arc-folio-lru.patch:919-942 | the private word tells whether the owner freed the buffer, and on a refusal everything claimed is given back |
| `Reclaim.ReleaseOwned` | patches/zfs/arc-folio-lru.patch:885-942 | both mutexes are released either way, and a refusal leaves both buffers intact |
| `Reclaim.ReleaseFolio` | patches/zfs/arc-folio-lru.patch:853-943 | reclaim is all or nothing, and which is decided exactly: true if and only if the folio has no private word, or its count is exact and the buffer can be released; then the header was unlocked, identified, hashed, unused and not held, both buffers are gone, every other chunk lost exactly the protocol's share and the folio keeps its lock and mapping; on false no lock, reference or field differs |
| `Reclaim.RefusedIff` | patches/zfs/arc-folio-lru.patch:1610-1696 | the reasons for which a buffer cannot be released, one by one, and no others |
| `SlabSpec.EmptiedIff` | patches/kernel/slab-object-mobility.patch:595-601 | `emptied` is reported if and only if, when the callbacks are done, no owner has an object, nothing is free and nothing was claimed beyond what was free at the start |
| `SlabSpec.EmptiedHasAll` | patches/kernel/slab-object-mobility.patch:585-601 | then the pass has every object of the slab just before it gives anything back |
| `SlabSpec.EvacuatedKeeps` | patches/kernel/slab-object-mobility.patch:474-604 | whatever owners, allocator and callback do, at the end the pass has no object, what was free at the start is free, and the slab is listed exactly while something is free, or discarded |
| `SlabSpec.VacatedKeeps` | patches/kernel/slab-object-mobility.patch:526-575 | over the loop claimed, vacated and held objects stay disjoint, apart from owners' and free ones, and no replacement is lost |
| `SlabSpec.HoldCounts` | patches/kernel/slab-object-mobility.patch:503-524 | claimed, vacated, free and owned objects are all the objects of the slab, each once |
| `SlabSpec.OwnerWasFaster` | patches/kernel/slab-object-mobility.patch:543-557 | a whole pass that reports `emptied` false and leaves the slab entirely free |
| `SlabMoves.EvacuatedMoves` | patches/kernel/slab-object-mobility.patch:526-574 | an object in use at the start is vacated if and only if its round is reached, memory was there in it and before it, the callback agrees and its owner still has it when called |
| `SlabMoves.EvacuatedOnly` | patches/kernel/slab-object-mobility.patch:503-575 | nothing else is vacated, and nothing twice |
| `SlabMoves.KeptIsMoved` | patches/kernel/slab-object-mobility.patch:560-574 | an object whose owner keeps it up to its round is moved, if the round is reached and the callback agrees |
| `SlabMoves.WillingIsEmptied` | patches/kernel/slab-object-mobility.patch:526-595 | with memory and agreement in every round and owners that free nothing, just the objects in use at the start are vacated, and the slab is reported emptied |
| `SlabMoves.EmptiedGoesBack` | patches/kernel/slab-object-mobility.patch:595-601 | a slab reported emptied, with nobody quicker at the end, is entirely free, and discarded if and only if the node has slabs enough |
| `SlabPass.Slab.InUseCounts` | patches/kernel/slab-object-mobility.patch:411-458 | the count in use is that of the owners' and the pass's objects, so a slab with any is not discarded |
| `SlabPass.Slab.Free` | patches/kernel/slab-object-mobility.patch:424-433 | one exchange of the freelist: the chain goes to its front, and the slab is listed, stays off or is discarded as upstream's function does |
| `SlabPass.Slab.Gather` | patches/kernel/slab-object-mobility.patch:446-450 | the walk over the chain notes exactly its objects and finds its end |
| `SlabPass.Slab.ClaimFree` | patches/kernel/slab-object-mobility.patch:411-458 | what was free joins the front of the claimed run, the bitmap naming exactly the claimed objects, and the slab is off the list with nothing free |
| `SlabPass.Slab.Meanwhile` | patches/kernel/slab-object-mobility.patch:483-500 | the slab is what any number of owners' frees and allocations make of it, and what the pass holds is untouched |
| `SlabPass.Slab.Replacement` | patches/kernel/slab-object-mobility.patch:530-540 | a replacement may come from the slab being emptied, and is then held apart from claimed and vacated objects |
| `SlabPass.Slab.MoveObject` | patches/kernel/slab-object-mobility.patch:560-574 | after a look that found nothing free, a relocation hands the replacement to the owner and the old object to the pass; the two are never the same |
| `SlabPass.Slab.TryObject` | patches/kernel/slab-object-mobility.patch:526-575 | one round of the loop is exactly the step of the specification, whichever way it goes |
| `SlabPass.Slab.MoveAll` | patches/kernel/slab-object-mobility.patch:526-575 | the loop vacates exactly the objects of the specification, in order, with the object array reused in place |
| `SlabPass.Slab.Vacate` | patches/kernel/slab-object-mobility.patch:509-575 | up to the bulk free: all live objects were moved if and only if no owner has an object of this slab, nothing is free and nothing more was claimed, and then every object is the pass's |
| `SlabPass.Slab.BulkChain` | patches/kernel/slab-object-mobility.patch:577-583 | the vacated objects are strung together in reverse, each once |
| `SlabPass.Slab.BulkFree` | patches/kernel/slab-object-mobility.patch:577-593 | they go back as one chain while the claimed ones still hold the slab, and are free |
| `SlabPass.Slab.Release` | patches/kernel/slab-object-mobility.patch:577-601 | the vacated objects go back in bulk and then the claimed ones, and with them the hold |
| `SlabPass.Slab.Evacuate` | patches/kernel/slab-object-mobility.patch:474-604 | slab, count, `emptied` and the objects vacated, in order, are those of the specification for the same doings of the others |
| `SlabNode.Choose` | patches/kernel/slab-object-mobility.patch:646-654 | exactly the listed slabs that are sparse enough become candidates and leave the list |
| `SlabNode.Work` | patches/kernel/slab-object-mobility.patch:656-683 | slabs, outcomes and count are those of evacuating the candidates in order, each as it then is |
| `SlabNode.WorkedStops` | patches/kernel/slab-object-mobility.patch:669-682 | candidates are left alone only when the last eight in a row kept an object, and the loop never goes on after eight such |
| `SlabNode.WorkedWilling` | patches/kernel/slab-object-mobility.patch:656-683 | with memory, agreement and quiet owners every candidate is emptied, none is given up on, and the objects moved are those in use on the candidates |
| `SlabNode.DefraggedQuiet` | patches/kernel/slab-object-mobility.patch:684-698 | early give-up included, every slab with a free object is on the list or was discarded, and the pass holds no object |
| `SlabNode.DefraggedWilling` | patches/kernel/slab-object-mobility.patch:631-698 | over the node, just the listed slabs with no more in use than the limit are emptied, and what they had in use is what was moved |
| `SlabNode.DefragNode` | patches/kernel/slab-object-mobility.patch:631-698 | the code on a node's slabs makes of them exactly that |
| `HeaderMove.InsertThenRemove` | patches/zfs/arc-hdr-mobility.patch:156-167 | insert after and then remove puts the copy exactly where the header was |
| `HeaderMove.Arc.Defers` | patches/zfs/arc-move-counters.patch:132-171 | a header is refused for exactly these reasons, and every one of them is counted |
| `HeaderMove.Arc.MayMove` | patches/zfs/arc-hdr-mobility.patch:94-133 | the hash lock is still held only if every test passed; each refusal gives it back |
| `HeaderMove.Arc.Relocate` | patches/zfs/arc-hdr-mobility.patch:135-181 | table, list, back pointers and old header after the move; the old header owns nothing if and only if there was no raw buffer |
| `HeaderMove.Arc.Replace` | patches/zfs/arc-folio-lru.patch:1594-1596 | the move keeps every header of the ARC consistent: the table has it for its identity, its buffers call it back, and it stands once on its sublist |
| `HeaderMove.Arc.Move` | patches/zfs/mobile-cache-rcu.patch:81-94 | `arc_hdr_move` as it finally stands: success if and only if the header is live, found, unused and its locks can be had, and then the identity, the list position and the buffers are the new header's and the old one is unlinked; any other answer, which of them being exact too, changes nothing but counters; it sleeps if and only if all tests are passed and a page-cache buffer's mutex is another's |
| `HeaderMove.QuietHeaderWaits` | patches/zfs/arc-folio-lru.patch:1026-1038 | a header for which it sleeps |
| `HeaderMove.NoBufferNoWait` | patches/zfs/arc-folio-lru.patch:1026-1038 | a header with no page-cache buffer never makes it sleep |
| `HeaderMove.OneOutcome` | patches/zfs/arc-move-counters.patch:90-189 | every call raises exactly one of the five outcome counters, by one |
| `HeaderMove.CountersTell` | patches/zfs/arc-move-counters.patch:90-189 | what every counter rises by, in terms of the header alone: the kind of refusal, and for a deferral each reason there is |
| `HeaderMove.MoveCallback` | patches/zfs/slab-mobility.patch:55-88 | construct first, then move: done if and only if the header could be moved, and then there are two different objects; whichever is freed has no identity and is on no list, even when the replacement is the old object itself |
| `HeaderCharge.ChargeIsOwned` | patches/zfs/arc-hdr-accounting.patch:13-30 | with any number of tasks between allocating and charging, or refunding and freeing, the charge is the header size times the full headers owned less those in between, and exact if and only if there are none |
| `HeaderCharge.StepKeeps` | patches/zfs/slab-mobility.patch:55-88 | every statement keeps that balance, those of a move and of a refused move with their constructor and destructor calls among them |
| `HeaderCharge.ConstructorExcess` | patches/zfs/arc-hdr-accounting.patch:13-30 | at rest the constructor's accounting exceeds the charge by the size of every object slabs were ever created with |
| `HeaderCharge.NothingOwnedNothingCharged` | patches/zfs/arc-hdr-accounting.patch:57-104 | with no header owned nothing is charged |
| `Readahead.FillPage` | patches/zfs/zpl-readahead-batch.patch:124-156 | over blocks of any size the copy loop stays within the blocks held and leaves the page equal to the file, zero after its end |
| `Readahead.FillPiece` | patches/zfs/zpl-readahead-batch.patch:113-166 | the same for all pages of a piece, or as many as the batch has |
| `Readahead.GetPages` | patches/zfs/zpl-readahead-batch.patch:86-173 | the pages taken are a prefix, short only where a hold failed; each holds the file's byte wherever the file reaches, zero after it, and is up to date, unlocked and released, the others are untouched, and the bytes counted are the file's bytes on them; for a block size that is not a power of two the file reaches no further than one block |
| `Readahead.IsPow2Iff` | patches/zfs/zpl-readahead-batch.patch:109-111 | the test for a power of two is exact, zero passing it |
| `PageCoherence.StepKeeps` | patches/zfs/update-pages-unfilled.patch:6-28 | every step of a writer, hole punch, fault, readahead, store, writeback or eviction keeps clean pages coherent and locks exclusive |
| `PageCoherence.CleanPageIsFile` | patches/zfs/update-pages-unfilled.patch:6-28 | in every run a clean up-to-date page holds the file's bytes wherever no writer holds the range |
| `PageWrites.PageIsFile` | patches/zfs/update-pages-unfilled.patch:6-28 | in every run, once no writer owes the byte, an up-to-date page, dirty or not, has the file's byte unless the byte was stored to since the last write or punch there |
| `PageWrites.FileKeeps` | patches/zfs/update-pages-unfilled.patch:43-54 | whatever else happens, the file keeps a byte until something newer is written, punched or stored over it |
| `PageWrites.WriteStays` | patches/zfs/update-pages-unfilled.patch:43-54 | so a byte written stays the file's, and every up-to-date page has it once the writers have come past |
| `PageWrites.FaultFills` | patches/zfs/zpl-readahead-batch.patch:13-30 | a fault that gets the range fills its page from the file by its own steps |
| `PageWrites.BatchFillsNext` | patches/zfs/zpl-readahead-batch.patch:113-166 | so does readahead with each page of its batch |
| `PageWrites.WritebackLands` | patches/zfs/update-pages-unfilled.patch:6-28 | writeback of a dirty page puts its bytes into the file and leaves it clean |
| `PageCoherence.GuardNeeded` | patches/zfs/update-pages-unfilled.patch:43-54 | without the guard the step leaves the page right, whatever an unfilled page holds, if and only if the page is up to date or dirty or no byte of it is left out by the writers |
| `PageCoherence.UnfilledReached` | patches/zfs/update-pages-unfilled.patch:13-28 | a run to a page nobody filled under a writer's lock, which the step without the guard would pass off as the file's |
| `PageCoherence.WaitDescends` | patches/zfs/zpl-readahead-batch.patch:13-19 | whoever waits for the range has no page locked; whoever has one locked waits for nothing |
| `PageCoherence.NoCircle` | patches/zfs/zpl-readahead-batch.patch:26-30 | no run comes to a circle of waits, or to a chain of more than three |
| `PageCoherence.SomebodyMoves` | patches/zfs/zpl-readahead-batch.patch:26-30 | in every run each chain of waits leads to a task that can take a step |
| `PageCoherence.OldCircle` | patches/zfs/zpl-readahead-batch.patch:79-84 | a run of the protocol in which a batch waits for the range, at the end of which batch and writer wait for each other |
| `CompactionScan.Control.HasFreeOrder` | patches/kernel/compaction-large-folio.patch:49-57 | true if and only if a list of at least the order is not empty |
| `CompactionScan.Control.FreeEnough` | patches/kernel/compaction-large-folio.patch:59-69 | true if and only if the migration list is covered and a page of the order is there or the limit reached |
| `CompactionScan.NextSample` | patches/kernel/compaction-large-folio.patch:93-108 | from an aligned sample the next is further on, aligned, and jumps over no aligned head |
| `CompactionScan.Control.IsolateBlock` | patches/kernel/compaction-large-folio.patch:78-131 | the lists are the old ones with exactly the blocks taken, order by order, and their frames counted; every stride-aligned free block before the stop is taken; the scan is cut short only by enough pages, contention or a refusal there; strictly the blocks follow without a gap, to the end or a frame that cannot be had, or nothing is reported |
| `CompactionScan.Control.Sample` | patches/kernel/compaction-large-folio.patch:91-131 | one round goes on to the next aligned sample, or is cut short with the block there isolated or not, and never leaves far more isolated than is enough |
| `CompactionScan.LargeBlocksTaken` | patches/kernel/compaction-large-folio.patch:16-21 | with a power-of-two stride an uncut scan isolates every free block at least as large |
| `CompactionScan.TiledCovers` | patches/kernel/compaction-large-folio.patch:120-131 | a strict scan leaves out no frame between its start and its end |
| `CompactionScan.Control.FindTarget` | patches/kernel/compaction-large-folio.patch:199-222 | for whatever the scans do, the retry loop makes just the scans there is a reason for and ends, for every order, at the first non-empty list or with none |
| `CompactionScan.GivenUp` | patches/kernel/compaction-large-folio.patch:206-222 | without a target there was at least one scan, and the order is 0, or the zone lock contended, the scanners met or too much isolated, or a later scan isolated nothing and did not move |
| `CompactionScan.KeptOn` | patches/kernel/compaction-large-folio.patch:206-222 | a scan is made only without a target, and after the first only with none of these reasons |
| `CompactionScan.Control.CompactionAlloc` | patches/kernel/compaction-large-folio.patch:197-222 | a target is found if and only if one is isolated after those scans; it is the first block of the smallest order there is; the frames isolated before are its own and those still isolated, and their number is right |
| `ChunkAlloc.AllocOrders` | patches/zfs/arc-folio-lru.patch:536-565 | under any failures the orders never rise, their pages sum to the need, and each is the largest its rest, the limit and the failures before it allow |
| `ChunkAlloc.LargestLeft` | patches/zfs/arc-folio-lru.patch:539-555 | a larger order that would have fitted, within the limit, has failed before or was not asked for because one no larger had |
| `ChunkAlloc.UnfailedLargest` | patches/zfs/arc-folio-lru.patch:539-555 | without failures each chunk is the largest power of two within the rest and the limit |
| `ChunkAlloc.FailedBounds` | patches/zfs/arc-folio-lru.patch:548-554 | after an order has failed no later chunk is as large |
| `ChunkAlloc.FillTable` | patches/zfs/arc-folio-lru.patch:574-585 | the entries sum to the size and only the last may be short |
| `ChunkAlloc.AllocChunks` | patches/zfs/arc-folio-lru.patch:515-603 | both together |
| `ChunkAlloc.IndicesApart` | patches/zfs/arc-folio-lru.patch:702-714 | under any interleaving the index ranges are aligned and each lies after all handed out before |
| `ChunkAlloc.MissedMeansMoved` | patches/zfs/arc-folio-lru.patch:708-711 | a compare-and-swap fails only because another one succeeded |
| `SiteTable.Table.SiteFor` | packages/slabwho/slabwho.c:337-367 | the probing index answers what a linear search would; a null answer means a new pair and 1024 entries |
| `SiteTable.Table.Probe` | packages/slabwho/slabwho.c:337-367 | the probe ends, at the key's slot or at the first empty one |
| `SiteTable.Table.Tally` | packages/slabwho/slabwho.c:455-463 | one object is counted for its site, or for none if it is new and the table is full |
| `SiteTable.Table.Attribute` | packages/slabwho/slabwho.c:465-477 | one object is counted for its site, and its block once if the site is among the first 64 different ones of it |
| `SiteTable.Table.WalkBlock` | packages/slabwho/slabwho.c:496-516 | over one block the counts stay those of the objects seen and of the blocks that remember each site |
| `SiteTable.WalkSites` | packages/slabwho/slabwho.c:486-521 | the sites are the different ones met, in order, up to 1024; each counts exactly its objects and the blocks among whose first 64 different sites it is |
| `SiteTable.ExactIffMarked` | packages/slabwho/slabwho.c:465-477 | the blocks of a site are exact if and only if it is among the first 64 different sites of every block it is on |
| `SiteTable.FewSitesExact` | packages/slabwho/slabwho.c:465-477 | so all are while no block has more than 64 |
| `SiteTable.SixtyFifthDropped` | packages/slabwho/slabwho.c:474-477 | on a block of 65 sites the last is counted short, and no other |
| `SiteTable.TakenIffStarts` | packages/slabwho/slabwho.c:448-451 | an object is taken for a page if and only if its first byte is on it |
| `SiteTable.OnePage` | packages/slabwho/slabwho.c:448-453 | over the pages of a slab every object is attributed to one page |
| `PixLayout.PixLayoutFor` | packages/fragview/pixmap.go:224-250 | slots for every block within the rows, tiles at least a pixel wide, the least row span that avoids strips, no more blocks to a column than needed |
| `PixLayout.SpansPartition` | packages/fragview/pixmap.go:252-257 | the tiles of a row follow without a gap, end at the right edge, and differ by at most a pixel |
| `PixLayout.RowsPartition` | packages/fragview/pixmap.go:259-261 | the rows of tiles follow from the top without a gap, each as high as its terminal rows, and end within the picture |
| `PixLayout.InnerPixelResolves` | packages/fragview/pixmap.go:652-654 | every pixel of a tile but the first resolves to it |
| `PixLayout.FirstPixelResolves` | packages/fragview/pixmap.go:652-654 | the first does so if and only if the tile begins on a whole pixel |
| `PixLayout.ProbedIff` | packages/fragview/pixmap.go:652-654 | a pixel column resolves to a tile if and only if it lies in it, a first column within a pixel counting for the tile before |
| `PixLayout.RowResolves` | packages/fragview/pixmap.go:646-649 | a terminal row lies in the tile row it is resolved to |
| `PixLayout.OverTile` | packages/fragview/pixmap.go:651-654 | a probed pixel inside a tile names that tile |
| `PixLayout.OverColumns` | packages/fragview/pixmap.go:655-658 | with several blocks to a column exactly those under the cell are named |
| `PixLayout.Frame.ResolveHover` | packages/fragview/pixmap.go:630-666 | of the blocks drawn just those are named that are painted where the mouse points: on the height of their row, and in their columns; off the picture none is, and never one past those drawn |
| `BandHeights.LeftoverSmall` | packages/fragview/pixmap.go:463-473 | what is left to hand out is less than one pixel per present class |
| `BandHeights.Trim` | packages/fragview/pixmap.go:478-499 | the overshoot is taken from the first of the tallest bands, evenly, a minimum that fits is kept, and below it the first bands pay |
| `BandHeights.Spread` | packages/fragview/pixmap.go:501-504 | one pixel each to the first classes in order, until the height is reached |
| `BandHeights.BandHeights` | packages/fragview/pixmap.go:455-506 | heights sum to `h` whenever a class is present, absent classes have none, minimums that fit are kept; if the whole parts and minimums fit, each band is within a pixel of its count's share of the height, or is the minimum or one more, largest fractions first; otherwise bands are only cut, the tallest first |

## Left out

- FolioRuns.StepKeeps: not for a migration onto a page an entry of the same buffer still names, which the code does not
  exclude; FolioRuns.StepKeepsIff has that step too, and FolioReuseRun.ForeignChunkFreed shows what comes of it.
- FolioRuns.RunKeeps: over runs without such a step.
- FolioTheorems.CountsAlways: over runs without such a step.
- FolioTheorems.FreeIffLetGo: over runs without such a step.
- FolioTheorems.DeadLeavesNothing: over runs without such a step.
- FolioTheorems.ShareDropped: over runs without such a step.
- FolioTheorems.NamedBufferLives: over runs without such a step.
- FolioTheorems.LiveEntryHeld: over runs without such a step.
- FolioTheorems.VerifyHolds: over runs without such a step.
- FolioTheorems.IdleHoldsNothing: over runs without such a step.
- FolioTheorems.ReclaimReturns: over runs without such a step.
- FolioReclaim.ReclaimFrees: over runs without such a step.
- FolioReclaim.PrelockFrees: over runs without such a step.
- FolioReclaim.ReaderGets: over runs without such a step.
- FolioTheorems.ReaderBytes: over runs without such a step.
- FolioTheorems.GrabbedBytes: over runs without such a step.
- FolioTheorems.ReaderSteady: over runs without such a step.
- Reclaim.FreeChunks: the prelocked loop; the one that waits for its locks is the `Free` and `Drop` of FolioMachine.
- SlabPass.Slab.Free: one outcome per atomic exchange of the freelist; the retry on a lost exchange is not modelled.
- HeaderMove.Arc.Relocate: `arc_buf_t`s attached to a header are not chased, since a header with a hold is never moved.
- HeaderCharge.ChargeIsOwned: the header size is the 240 bytes the patch reports; what else is charged is not counted.
- PageCoherence.StepKeeps: truncation is not among the steps, and a hole is punched under one range; ZFS's block cache
  below the file is the file itself.
- PageCoherence.CleanPageIsFile: over runs without truncation, likewise.
- CompactionScan.Control.FindTarget: `isolate_freepages` is any sequence of isolations and downward moves of the scanner;
  its walk over pageblocks, skip hints and the fast search are upstream's.
- CompactionScan.Control.CompactionAlloc: what follows the retry loop, taking the first block and halving it, is upstream's
  and follows its contract here.
- CompactionScan.Control.IsolateBlock: assumes that nothing seen before a free block is read as reaching into it; a
  compound page's order is read without a lock, and one that changes meanwhile may hide a block.
- SiteTable.Table.WalkBlock: the objects of a block are those whose tag could be read and is set.
- BandHeights.BandHeights: shares are exact rationals; the code computes them in floating point, so a fraction next to a
  whole number may fall on its other side. Classes are in the order the code stacks them.
- PixLayout.Frame.ResolveHover: the layout is one `pixLayoutFor` made, or none yet; which blocks are named is said for a
  picture a whole number of cells wide, as it is painted.
- Plain `migrate_folio` for a folio with no private word, and folio flags, ageing and generations.
- `abd_lru_hold_page` and `abd_lru_drop_page` for a bio's pages: the drop finds the page again through the scatterlist.
- Wrap-around of the 64-bit index in `abd_lru_index` and of 32-bit block counts.
- Sublist locks, the l2arc device lock and locks outside the protocol in the lock order.
- The free path of a buffer that never joined, beyond its chunks' counts; linear, gang and foreign-page buffers.
- Bodies of upstream functions: `arc_evict_hdr`, `buf_hash_insert`, `dmu_buf_hold_array_by_bonus`, `filemap_add_folio`,
  `folio_migrate_mapping`, `__slab_free`.
- The order of slabs on the partial list, per-cpu sheaves, the barn and the quarantine, `kmem_cache_defrag_locked` (which
  visits the nodes in turn), its deferral counter, and the refusals of `kmem_cache_setup_mobility`.
- `stat_for`, a linear search; sorting of the sites after the walk.
- Painting, terminal input and output, `/proc` and `/sys`, load generators and virtual machine definitions.
