# Verified model of the GraphScope buffer pool

The repository is a multi-threaded page cache: file pages are loaded into frames, pinned by readers
and writers, and evicted by a replacer. This project models the parts with the hardest logic and
proves what they are for.

**Page fetch and eviction** (`PageFetch*`, `PackedPte`). `PageFetch.Step` is one atomic operation of
one thread in `Pin`, `FetchPageSync` and `Victim`: a load, a store, a fetch-add, a successful
compare-and-swap, a disk transfer. `PageFetch.IsRun` is any sequence of such steps and of the events
of pin holders (write, set dirty, release), over any number of threads, pages and frames; effects
that the code wraps in `assert(...)` are executed, and a failing one leads to the point `Failed`.
Ghost fields of the pool record live pins, who holds each BUSY mapping and each frame, which thread
owes a decrement, and whose increments of a busy count were left behind ("strays").
`PageFetchInv` is the invariant, split into what holds of the pool, what holds of one thread, and
what a step may do to the others. `PageFetchSteps` treats one kind of change to the pool at a time,
`PageFetchThreads` one program point at a time, and `PageFetchSafety` has the theorems about all
runs. `PageFetchAlone` is about liveness of one fetch: when a thread left alone ends its fetch, and
what the fetch has then done to the pool, told without its phases. `PageFetchSieve` is the same
fetch with SIEVE itself as the replacer. `PageFetchProgress` and
`PageFetchJam` are about deadlock: with as many frames as threads, or as pages, the pool can come to
rest from every state in which no `Victim` has given up, and with fewer it can get stuck, with all
frames in the hands of threads that wait for the replacer's latch and its holder before an empty
list, where the code fails an assertion (include/replacer/sieve_replacer_v3.h:59). `PackedPte` shows
that the operations on the 64-bit word are the protocol's field updates.

**Replacers.** `ListArray` and `Sieve` are the index-linked list and the SIEVE replacer in use, as
classes over an array with a ghost newest-first sequence. `Lfu` is the LFU replacer, with the order
in which pages reached their use counts kept as ghost ages.

**Block handles** (`DirectCache`). The per-thread cache of pinned pages, blocks that own pages or
leave the pin to the cache, and the copy that takes a block's pages over. The ghost multiset `live`
is every block page there is; every pin is accounted to a slot, a block page or a fetch under way.

**Index structures.** `ExtendibleHash` has a directory of shared bucket objects. `RobinHood` is the
value of a Robin Hood table and `IdIndexer` the indexer over it, with its recursive rehash;
`LfIndexer` is the linear-probing index built from it.

**Addresses** (`Paging`, `PoolFile`, `Layout`, `Partition`). Byte ranges cut into pages and read and
written through the pool, page-padded objects and the decoding of multi-page blocks, and the
spreading of pages and table sizes over the pools. `PoolFile.File` holds a state of the page-fetch
protocol: each page is fetched, used through its pin and released, and in between all threads do
what a given schedule says; `PageFetchPins` is what any events do to pins and dirty bits. Its results are false where the schedule did not grant a pin or let
somebody else write to the file.

**Batch fetch** (`BatchState`, `BatchFetch`). `GetBlockBatchWithoutDirectCache` on one thread: the
phases of `FetchPageSync2`, repeated pages, rounds until every page is in its block.

`Bits` (masks and shifts as recursion over bits) and `Collections` are shared.

Some properties need a condition, which is then part of the statement together with its failing side.
`ExtendibleHash.Insert` ends for a key that `Fits`, and `InsertTurns` shows that for any other key
its loop does not leave in any number of turns. `DirectCache.Insert` keeps the accounts exactly when
the slot's 16-bit counter has not wrapped around to 0, and `WrapAround` is a run in which it has.
`GetBlockBatch` is served exactly when, in each pool, the pages asked for and those already pinned
are no more than the frames; for any other batch the replacer is left without a victim, where the
code fails an assertion (src/buffer_pool.cpp:617-620). `FetchAddIsIncrement` holds exactly below the
carry. `NeverJamsIffEnough` gives the number of frames that keeps fetches from getting stuck.

The comment at tests/cgraph/id_indexer.h:419 gives the index length as slots plus a logarithm of the
slots; the code, which the model follows, never uses fewer than 4 extra cells.

## Model

| member | source | states |
|---|---|---|
| PageFetchSafety.PinSafety | src/buffer_pool.cpp:319-444 | in every state of every run, a live pin's frame names the pin's page, holds that page's current bytes, is not locked and cannot be locked, so no eviction can take it |
| PageFetchSafety.PinnedFrameIsStable | src/buffer_pool.cpp:319-444 | whatever event comes next, a frame with a live pin keeps its page, and its bytes change only by a write through a pin on that frame |
| PageFetchSafety.BusyFrameHasNoHolder | include/page_table.h:271-291 | a busy PTE has no live pin and no thread owes it a decrement; its count is strays alone, at most one a thread, so zeroing the count in UnLock drops nothing else |
| PageFetchSafety.CountIsBounded | include/page_table.h:152-182 | every reference count lies between the live pins of the frame and that plus one for each thread |
| PageFetchSafety.MappingMatchesPte | include/page_table.h:639-674 | a page mapped to a frame is the page that frame's initialized, unlocked PTE names, the frame is listed and holds the page's bytes: the code's unchecked claim about a locked mapping |
| PageFetchSafety.FramesAreNotShared | include/page_table.h:433-455 | no two pages are mapped to the same frame |
| PageFetchSafety.AssertionsHold | src/buffer_pool.cpp:319-444 | no thread ever fails one of the asserted effects (UnLockMapping, DeleteMapping, CreateMapping), and Victim never finds its page's mapping EMPTY |
| PageFetchSafety.BusyHasOneHolder | include/page_table.h:479-502 | a mapping is BUSY exactly when some thread holds it, and never two threads do |
| PageFetchSafety.FramesAreConserved | src/buffer_pool.cpp:58-61 | from init on, every frame is in exactly one of the free list, the replacer list and one thread's hands, and neither list repeats a frame |
| PageFetchSafety.NothingUnannounced | src/buffer_pool.cpp:380-437 | a page that is not resident is on disk as last written; a listed frame that differs from disk is dirty or its writer still holds the pin |
| PageFetchSafety.ReadsSeeLastWrite | src/buffer_pool.cpp:319-444 | after a write through a pin, whatever fetches, evictions and reloads follow, any live pin on that page finds the bytes written, until the page is written again |
| PageFetchSafety.ContentStays | src/buffer_pool.cpp:319-444 | between two states of a run without a write to a page in between, the page's content is the same |
| PageFetchSafety.RunKeeps | src/buffer_pool.cpp:319-444 | the invariant holds in every state of every run |
| PageFetchSafety.EveryScheduleRuns | src/buffer_pool.cpp:319-444 | every schedule of events, from every initial state, is a run |
| PageFetchSafety.ApplyKeeps | src/buffer_pool.cpp:319-444 | every event, of a thread or of a pin holder, keeps the invariant of the pool and of all threads |
| PageFetchSafety.InitialInv | src/buffer_pool.cpp:58-61 | what init leaves behind satisfies the invariant |
| PageFetchThreads.StepKeeps | src/buffer_pool.cpp:319-444 | one operation of a thread at any program point keeps the pool's and the thread's invariant and does to the others only what they allow for |
| PageFetchThreads.PinAddOk | include/page_table.h:152-182 | the optimistic fetch-add keeps the invariant in all three outcomes: stray on a busy frame, owed decrement on another page's frame, live pin |
| PageFetchThreads.PinUndoOk | include/page_table.h:175-180 | the late fetch-sub takes back exactly the increment this thread owes |
| PageFetchThreads.BeginOk | include/page_table.h:479-502 | locking a mapping makes this thread its one holder |
| PageFetchThreads.LockPteOk | include/page_table.h:250-269 | PTE::Lock of a mapped frame succeeds only when no pin is live on it |
| PageFetchThreads.UnlockPteOk | include/page_table.h:271-291 | undoing the two locks on a resident page loses no pin although the count is zeroed |
| PageFetchThreads.PublishOk | include/page_table.h:433-455 | republishing a frame in its locked mapping finds the word BUSY |
| PageFetchThreads.InitOk | src/buffer_pool.cpp:342-346 | a frame polled from the free list is in this thread's hands only |
| PageFetchThreads.ScanLockVicOk | include/replacer/sieve_replacer_v3.h:84-88 | a victim candidate whose mapping and PTE are locked is the frame that mapping names |
| PageFetchThreads.ScanUnlockOk | include/replacer/sieve_replacer_v3.h:93-95 | giving a candidate up unlocks the same frame and page that were locked |
| PageFetchThreads.ScanTakeOk | include/replacer/sieve_replacer_v3.h:104-113 | the victim leaves the list into this thread's hands with its page still locked |
| PageFetchThreads.EvictWriteOk | src/buffer_pool.cpp:391-398 | writing a dirty victim back puts its page's current bytes on disk |
| PageFetchThreads.EvictDeleteOk | src/buffer_pool.cpp:407-410 | when the victim's mapping is emptied, its page is on disk as last written |
| PageFetchThreads.StoreOk | src/buffer_pool.cpp:426-431 | overwriting the PTE drops only strays, and grants the fetching thread its pin before the mapping is published |
| PageFetchThreads.InsertOk | src/buffer_pool.cpp:432 | the frame is listed once |
| PageFetchThreads.CreateOk | src/buffer_pool.cpp:434-437 | publishing the mapping finds the word BUSY and ends this thread's hold |
| PageFetchAlone.EndsWhenItCan | src/buffer_pool.cpp:319-444 | in every state of every run, a fetch left alone can end if and only if its page is resident, or the page's mapping and the replacer are not locked and some frame is free or can be evicted |
| PageFetchAlone.FetchAlone | src/buffer_pool.cpp:319-444 | the phases of a fetch, with their locks, come to exactly its purpose: a pin more on a resident page; else the page read into the first free frame, or into an evictable frame whose dirty bytes are written back and whose page loses its mapping; no lock and no other trace is left |
| PageFetchAlone.FetchDelivers | src/buffer_pool.cpp:319-444 | the pin granted is on the frame the page is mapped to, which holds its bytes as last written |
| PageFetchAlone.FetchSpares | src/buffer_pool.cpp:319-444 | any other page keeps its mapping, PTE, frame and disk bytes, or is the evicted one and is on disk as last written |
| PageFetchAlone.FetchResident | include/buffer_pool.h:243-258 | Pin of a resident page adds one to its count and changes nothing else |
| PageFetchAlone.FetchIntoFree | src/buffer_pool.cpp:342-346 | with a free frame no page is evicted |
| PageFetchAlone.FetchByEviction | src/buffer_pool.cpp:380-437 | without one the whole eviction and load come to the replacement of one page by the other |
| PageFetchAlone.TakeAlone | include/replacer/sieve_replacer_v3.h:76-113 | Victim on an unused frame ends with it off the list and its mapping and PTE locked |
| PageFetchAlone.GiveUpAlone | include/replacer/sieve_replacer_v3.h:90-95 | a candidate somebody counted himself on before its PTE was locked is given up: its page stays resident, nothing leaves the list and the scan goes on |
| PageFetchAlone.UndoAlone | src/buffer_pool.cpp:322-340 | a page found resident once its mapping is locked is mapped again, its PTE locked and unlocked only if it had no pin, and Pin is tried again |
| PageFetchAlone.HopelessAlone | include/replacer/sieve_replacer_v3.h:51-114 | when a mapping or the latch is locked by another thread or no frame can be evicted, no number of operations ends the fetch |
| PageFetchSieve.FetchPageSync | src/buffer_pool.cpp:319-444 | a lone fetch whose replacer is SIEVE, with any hand and counters, fails only when no choice of victim could have let it end; otherwise it ends within SIEVE's retries, having looked at the frames SIEVE looks at, with the pool as `Fetched` says and the replacer listing what the pool lists; a hit sets the frame's visited counter and no other, a frame loaded starts with counter 0, and a frame evicted for it was SIEVE's choice, with the hand and the other counters as SIEVE leaves them |
| PageFetchSieve.VictimFor | include/replacer/sieve_replacer_v3.h:51-114 | SIEVE run on the pool's own counts and mappings gives up only when no listed frame can be evicted, passes only frames in use, and takes SIEVE's choice |
| PageFetchSieve.Touch | include/buffer_pool.h:252-253 | a fetch without a victim sets exactly one counter: 1 for a page that was resident, 0 for one that was loaded |
| PageFetchSieve.LooksLeaveNoTrace | include/replacer/sieve_replacer_v3.h:76-103 | looking at frames in use, by count or by a mapping that is BUSY, changes nothing |
| PageFetchSieve.SearchThenReplace | src/buffer_pool.cpp:342-437 | a search that passes any frames in use and then takes one comes to the replacement of one page by the other |
| PageFetchProgress.ComesToRest | src/buffer_pool.cpp:319-444 | with enough frames, from any state that meets the invariant and in which no Victim gave up, some events end all fetches and release all pins |
| PageFetchProgress.Progress | src/buffer_pool.cpp:319-444 | until then some events bring the threads closer to their ends |
| PageFetchProgress.Downhill | src/buffer_pool.cpp:319-444 | an operation of a thread that has nothing to wait for brings it closer to its end whatever its outcome, except where a fetch begins anew |
| PageFetchProgress.SomeListed | src/buffer_pool.cpp:348-364 | a thread that needs a victim finds a listed frame: the threads are too few, or have too few pages, to have all frames in their hands |
| PageFetchProgress.ListedIsEvictable | include/replacer/sieve_replacer_v3.h:76-91 | once the others wait and pins are released, every listed frame can be evicted: no count, stray or lock is left on it |
| PageFetchProgress.NothingLocked | include/page_table.h:479-502 | threads that wait for one another's mappings do so only while one holds the latch: there is no cycle of mapping locks |
| PageFetchProgress.RestIsClean | src/buffer_pool.cpp:319-444 | when all fetches have ended and all pins are released, every count is 0, nothing is locked or BUSY and every frame is free or listed |
| PageFetchJam.NeverJamsIffEnough | src/buffer_pool.cpp:342-437 | deadlock freedom, exactly: from every reachable state without a Victim that gave up the pool can come to rest, if and only if it has as many frames as there are threads or as there are pages |
| PageFetchJam.Fill | src/buffer_pool.cpp:342-346 | as many threads as there are frames can each have one in hand at once |
| PageFetchJam.JammedForEver | include/replacer/sieve_replacer_v3.h:51-62 | whatever happens, a thread in Victim before an empty list stays there with the latch, the list stays empty, and the pool does not come to rest |
| PackedPte.UnpackPack | include/page_table.h:293-302 | a field tuple that fits packs into 64 bits and unpacks to itself |
| PackedPte.PackUnpack | include/page_table.h:293-302 | every 64-bit word is the packing of its own, fitting fields |
| PackedPte.FetchAddIsIncrement | include/page_table.h:152-156 | adding 1 to the word is adding 1 to ref_count with every other field unchanged, if and only if ref_count is not full |
| PackedPte.FetchSubIsDecrement | include/page_table.h:232-243 | subtracting 1 is a decrement of ref_count alone when it is positive, and borrows when it is 0 |
| PackedPte.MasksSetDirty | include/page_table.h:232-240 | or-ing and and-ing bit 30 set and clear the dirty field and no other |
| PackedPte.WordsFollowTheProtocol | include/page_table.h:152-243 | in every reachable state with fewer than 2^16 - 1 live pins plus threads, each PTE fits its word, the word operations are the protocol's field updates, and a held or owed count is positive |
| ListArray.UnlinkKeeps | include/replacer/list_array.h:144-152 | removeNode's writes leave both link directions running through the sequence without the node |
| ListArray.LinkFrontKeeps | include/replacer/list_array.h:155-161 | addNodeToFront's writes leave both link directions running through the sequence with the node in front |
| ListArray.ForwardIsItems | include/replacer/list_array.h:123-124 | following next from any place of the chain gives the rest of the sequence and the tail sentinel |
| ListArray.BackwardIsReverse | include/replacer/list_array.h:123-124 | following prev from any place gives the earlier part reversed and the head sentinel |
| ListArray.ListArray.constructor | include/replacer/list_array.h:29-36 | a new list is empty and well linked |
| ListArray.ListArray.InList | include/replacer/list_array.h:118-121 | inList is membership in the sequence, false for the sentinels |
| ListArray.ListArray.RemoveNode | include/replacer/list_array.h:144-152 | the node leaves the sequence, if it was there, and no value changes |
| ListArray.ListArray.AddNodeToFront | include/replacer/list_array.h:155-161 | the node becomes the first of the sequence and no value changes |
| ListArray.ListArray.MoveToFront | include/replacer/list_array.h:42-49 | a valid index ends in front exactly once; an invalid one changes nothing |
| ListArray.ListArray.RemoveFromIndex | include/replacer/list_array.h:64-72 | a valid index is not in the sequence afterwards; an invalid one changes nothing |
| ListArray.ListArray.GetPrevNodeIndex | include/replacer/list_array.h:99-105 | the newer neighbour, the head sentinel for the newest, INVALID for an unlisted or out-of-range index |
| ListArray.ListArray.GetTail | include/replacer/list_array.h:124 | the oldest item, or the head sentinel of an empty list |
| Sieve.SieveReplacer.constructor | include/replacer/sieve_replacer_v3.h:19-22 | the hand starts at the head sentinel of an empty list |
| Sieve.SieveReplacer.Insert | include/replacer/sieve_replacer_v3.h:26-38 | the frame becomes the newest with counter 0; other counters and the hand stay |
| Sieve.SieveReplacer.Promote | include/replacer/sieve_replacer_v3.h:40-46 | the frame's counter becomes 1; links, hand and other counters stay |
| Sieve.SieveReplacer.Advance | include/replacer/sieve_replacer_v3.h:72-74 | the hand's next place is the newer neighbour, and after the newest the oldest |
| Sieve.SieveReplacer.Cool | include/replacer/sieve_replacer_v3.h:69-75 | a turn of the inner loop clears a counter of 1 and happens in the first lap only |
| Sieve.SieveReplacer.CoolDown | include/replacer/sieve_replacer_v3.h:69-75 | the inner loop ends at a frame with counter 0 |
| Sieve.SieveReplacer.Pass | include/replacer/sieve_replacer_v3.h:77-87 | a frame in use costs one retry and the hand moves on |
| Sieve.SieveReplacer.Scan | include/replacer/sieve_replacer_v3.h:63-103 | the loops end within 2 * capacity retries; they find a frame exactly when some listed frame can be taken, and then SIEVE's choice; otherwise every counter ends 0 |
| Sieve.SieveReplacer.Victim | include/replacer/sieve_replacer_v3.h:51-114 | succeeds exactly when a listed frame is unpinned and lockable; the victim is the first such frame with counter 0 from the hand on, or with none the first such frame; counters passed are cleared, all others stay; the victim leaves the list and the hand goes to its newer neighbour |
| Sieve.SieveReplacer.Take | include/replacer/sieve_replacer_v3.h:108-113 | removing the victim moves the hand to a member or the head sentinel and changes no counter |
| Sieve.CoolStep | include/replacer/sieve_replacer_v3.h:69-75 | clearing a visited counter keeps the scan's account of what it passed, lap by lap |
| Sieve.PassStep | include/replacer/sieve_replacer_v3.h:77-87 | so does passing a frame in use |
| Sieve.StopIsChosen | include/replacer/sieve_replacer_v3.h:90-91 | where the scan stops is SIEVE's choice, with the counters SIEVE prescribes |
| Sieve.NoneLeft | include/replacer/sieve_replacer_v3.h:62-67 | when the retries are used up, the hand has gone round twice and no listed frame can be taken |
| Sieve.ChosenIsUnique | include/replacer/sieve_replacer_v3.h:51-114 | the choice is determined |
| Sieve.RingDistinct | include/replacer/sieve_replacer_v3.h:97-103 | one lap of the hand meets every listed frame exactly once |
| Lfu.LFUReplacer.constructor | include/replacer/LFU_replacer.h:47-53 | the replacer starts without pages |
| Lfu.LFUReplacer.Insert | include/replacer/LFU_replacer.h:74-92 | a new page has count 1 and arrives last among those; a known one changes nothing |
| Lfu.LFUReplacer.Promote | include/replacer/LFU_replacer.h:94-143 | a known page's count goes up by 1 and it arrives last at that count; an unknown one changes nothing; the least count stays right or unknown, and an emptied list goes with its node, but for that of count 1 |
| Lfu.LFUReplacer.Victim | include/replacer/LFU_replacer.h:145-165 | there is a victim exactly when there is a page; it has the least count and of those has been at it the longest, although min_freq may be 0; it alone is removed, from its list too, and min_freq is 0 afterwards exactly when that list has become empty |
| Lfu.LFUReplacer.Erase | include/replacer/LFU_replacer.h:192-210 | the page is removed, and no other |
| Lfu.LFUReplacer.UpdateMinFreq | include/replacer/LFU_replacer.h:311-320 | min_freq becomes the next count with a page, or stays when there is none |
| Lfu.LFUReplacer.GetMinFreqNode | include/replacer/LFU_replacer.h:322-336 | the node returned is that of the least count when there is a page, and otherwise null or empty |
| Lfu.LFUReplacer.Leave | include/replacer/LFU_replacer.h:192-210 | a page leaves its list, its count and its age together |
| Lfu.LFUReplacer.RemoveObj | include/replacer/LFU_replacer.h:272-293 | the page leaves its node's list and the count of objects matches |
| Lfu.LFUReplacer.AppendObj | include/replacer/LFU_replacer.h:295-309 | the page arrives at the end of its node's list and the count of objects matches |
| Lfu.LFUReplacer.MoveObj | include/replacer/LFU_replacer.h:107-127 | the page goes from its list to the end of the next count's, whose node is made if missing |
| Lfu.LFUReplacer.Recount | include/replacer/LFU_replacer.h:101-127 | the page's count, age and list change together and no other page's do |
| Lfu.LFUReplacer.AddNode | include/replacer/LFU_replacer.h:116-124 | a missing frequency node is made, empty; existing ones stay the same objects |
| Lfu.LFUReplacer.Settle | include/replacer/LFU_replacer.h:128-138 | after a promotion an emptied node is dropped unless it is that of count 1, and min_freq moves on when it was the least |
| Lfu.LFUReplacer.MinFound | include/replacer/LFU_replacer.h:311-320 | a scan started below all counts finds the least count, or there is no page |
| Lfu.FirstOfLeastList | include/replacer/LFU_replacer.h:148-153 | the first of the least count's list is the least used page, the earliest to reach that count |
| DirectCache.DirectCache.constructor | include/directcache/direct_cache_impl1.h:18-21 | a new cache has empty slots and owns no pin |
| DirectCache.DirectCache.Find | include/directcache/direct_cache_impl1.h:66-83 | a hit exactly when the page's slot holds a frame with that name; the frame is pinned and one more marked page is counted; every pin stays accounted for |
| DirectCache.DirectCache.Insert | include/directcache/direct_cache_impl1.h:44-65 | the slot takes the frame and its pin exactly when it is empty or counts 0, giving the old frame's pin back; the accounts stay in order if and only if that count had not wrapped around |
| DirectCache.DirectCache.TakeSlot | include/directcache/direct_cache_impl1.h:54-63 | the slot changes hands; the accounts stay in order if and only if no marked page relied on the old frame |
| DirectCache.DirectCache.EmptySlot | include/directcache/direct_cache_impl1.h:31-40 | a slot that gives up its frame gives exactly that frame's pin back |
| DirectCache.DirectCache.FillSlot | include/directcache/direct_cache_impl1.h:61-63 | an empty slot takes over the pin of a fetched frame and counts one marked page |
| DirectCache.DirectCache.Erase | include/directcache/direct_cache_impl1.h:84-98 | freeing a marked page takes exactly one off its frame's slot, which still holds the frame |
| DirectCache.DirectCache.Clean | include/directcache/direct_cache_impl1.h:29-42 | without marked pages every slot is emptied and exactly the slots' pins are given back |
| DirectCache.DirectCache.DecRefCount | include/bufferblock/buffer_block_imp9.h:224-225 | freeing an unmarked page gives one pin of its frame back |
| DirectCache.DirectCache.LivePagesArePinned | include/directcache/direct_cache_impl1.h:44-83 | every block page's frame is pinned by this thread, so the pool cannot reuse it |
| DirectCache.DirectCache.Fetch | src/buffer_pool_manager.cpp:1028-1030 | a fetch renames only a frame this thread has no pin on, so the accounts stay in order |
| DirectCache.DirectCache.Get | src/buffer_pool_manager.cpp:1014-1039 | one page through the cache or the pool: the frame carries the page's name, exactly one block page is added and no block page's frame is renamed; the accounts stay in order if and only if it was a hit or the slot had not wrapped around |
| DirectCache.DirectCache.NotWrapped | include/directcache/direct_cache_impl1.h:10-16 | with fewer than 2^16 marked block pages of its frame a slot's counter has not wrapped |
| DirectCache.WrapAround | include/directcache/direct_cache_impl1.h:44-83 | it can: after one miss and 65535 hits on a page, a miss on another page of the slot gives up the pin that all 2^16 block pages rely on |
| DirectCache.DirectCache.Load | src/buffer_pool_manager.cpp:1028-1038 | a miss: the page's own frame, or else one nobody has pinned, is fetched under the page's name and its pin goes to the slot or to the block page; it fails exactly when there is neither; the accounts stay in order if and only if the page's own slot had not wrapped around |
| DirectCache.BufferBlock.InsertPage | include/bufferblock/buffer_block_imp9.h:114-127 | the page goes to its place and the other places stay |
| DirectCache.BufferBlock.Free | include/bufferblock/buffer_block_imp9.h:220-246 | each page of the block is given back once, to the cache if marked, and the block ends empty |
| DirectCache.BufferBlock.ReleasePages | include/bufferblock/buffer_block_imp9.h:229-239 | the loop gives every page back exactly once |
| DirectCache.BufferBlock.GiveBack | include/bufferblock/buffer_block_imp9.h:233-238 | a marked page goes through the cache by its frame's current name, an unmarked one by its pin |
| DirectCache.BufferBlock.Move | include/bufferblock/buffer_block_imp9.h:193-209 | the target's pages are given back, it takes over the source's size and pages in their order, the source ends empty; moving a block to itself empties it |
| DirectCache.Thread.GetBlock | src/buffer_pool_manager.cpp:972-1078 | a new block of the asked size shows the requested pages in order in frames with their names; older blocks keep theirs and every pin stays accounted for; it fails only at a page for which there is no frame |
| DirectCache.Thread.FillBlock | src/buffer_pool_manager.cpp:1042-1068 | the loop over the pages adds exactly the block's pages to the live ones |
| DirectCache.Thread.AddPage | src/buffer_pool_manager.cpp:1043-1068 | one page is added to the block and earlier ones keep their frames and names |
| DirectCache.Thread.Assign | include/bufferblock/buffer_block_imp9.h:54-57 | after a copy or assignment the target has the source's size and pages, and the pages of all handles are still exactly the live ones |
| DirectCache.Thread.MoveBlock | include/bufferblock/buffer_block_imp9.h:193-209 | only the two handles change: the target has the source's size and pages, and exactly the target's old pages are given back |
| DirectCache.Thread.Destroy | include/bufferblock/buffer_block_imp9.h:66 | a handle going out of scope gives back its pages and no others |
| DirectCache.Thread.Finish | include/directcache/direct_cache_impl1.h:23-42 | once all handles are gone, cleaning the cache leaves the thread without a pin |
| ExtendibleHash.ExtendibleHash.constructor | src/extendible_hash.cpp:12-16 | an empty table of depth 0 with one bucket |
| ExtendibleHash.ExtendibleHash.Find | src/extendible_hash.cpp:68-77 | lookup in the finite map the table stands for |
| ExtendibleHash.ExtendibleHash.Remove | src/extendible_hash.cpp:89-98 | removal from that map; the result says whether the key was there |
| ExtendibleHash.ExtendibleHash.Insert | src/extendible_hash.cpp:106-148 | ends with the key mapped to the value and all else as before, for every key that is present or that some number of hash bits separates from all but fewer than bucketSize keys, and grows no deeper than such a number needs |
| ExtendibleHash.ExtendibleHash.NoRoomUnlessFits | src/extendible_hash.cpp:112-116 | the insertion loop's exit test succeeds only for such keys |
| ExtendibleHash.ExtendibleHash.InsertTurns | src/extendible_hash.cpp:108-148 | for any other key the loop does not leave, however many turns it takes; for a key that fits one turn more than the hash bits that separate it is enough |
| ExtendibleHash.SameHashDoesNotFit | src/extendible_hash.cpp:112-116 | bucketSize keys with the new key's hash make it such a key, on every number of bits |
| ExtendibleHash.ExtendibleHash.MustSplit | src/extendible_hash.cpp:112-120 | a full bucket without the key is shallower than every number of bits that would do |
| ExtendibleHash.ExtendibleHash.Split | src/extendible_hash.cpp:118-144 | a split keeps the table well-formed and its contents, adds one bucket, deepens the key's bucket by one and doubles the directory exactly when needed |
| ExtendibleHash.ExtendibleHash.Deepen | src/extendible_hash.cpp:118-127 | the bucket's depth goes up and the directory doubles exactly when that passes its depth; all else stays |
| ExtendibleHash.ExtendibleHash.DoubleDirectory | src/extendible_hash.cpp:121-127 | after doubling each hash is served by the same bucket and no key is lost |
| ExtendibleHash.ExtendibleHash.Distribute | src/extendible_hash.cpp:128-142 | the new bucket takes over half of the hash values and the table is well-formed again |
| ExtendibleHash.ExtendibleHash.Put | src/extendible_hash.cpp:112-116 | writing into the bucket with room maps the key to the value and keeps all else |
| ExtendibleHash.ExtendibleHash.Double | src/extendible_hash.cpp:121-127 | the directory is followed by a copy of itself |
| ExtendibleHash.ExtendibleHash.MoveHalf | src/extendible_hash.cpp:131-138 | the new bucket gets exactly the keys with the new hash bit set |
| ExtendibleHash.ExtendibleHash.Redirect | src/extendible_hash.cpp:139-142 | exactly the old bucket's slots with that bit set go to the new bucket |
| ExtendibleHash.DoubleKeeps | src/extendible_hash.cpp:121-127 | doubling keeps: 2^depth slots, shared exactly when they agree on the bucket's low bits |
| ExtendibleHash.DoubleServes | src/extendible_hash.cpp:121-127 | doubling keeps which bucket serves every hash |
| ExtendibleHash.SplitKeeps | src/extendible_hash.cpp:118-142 | a split keeps slots sharing a bucket exactly when they agree on its low bits |
| ExtendibleHash.SplitKeepsKeys | src/extendible_hash.cpp:131-142 | a split keeps every key in the bucket its hash selects, and the map |
| ExtendibleHash.SplitAddsOne | src/extendible_hash.cpp:128-130 | both halves of a split have slots, so exactly one bucket is added |
| ExtendibleHash.BucketHoldsColliding | src/extendible_hash.cpp:80-83 | the bucket getIdx leads to holds exactly the keys that agree with the key on its depth's bits |
| RobinHood.SearchReaches | tests/cgraph/id_indexer.h:655-667 | on the way to an entered key every distance is large enough, so a search cannot stop early |
| RobinHood.CarriedPastEntries | tests/cgraph/id_indexer.h:758-792 | an entry carried d cells past its home has d entries behind it |
| RobinHood.PutKeeps | tests/cgraph/id_indexer.h:764-778 | writing the carried entry into an empty cell or over one closer to its home keeps the table well-formed |
| RobinHood.SwapCarries | tests/cgraph/id_indexer.h:781-784 | the entry displaced is rightly carried on to the next cell |
| IdIndexer.IdIndexer.constructor | tests/cgraph/id_indexer.h:838-851 | the empty table is well-formed |
| IdIndexer.IdIndexer.GetIndex | tests/cgraph/id_indexer.h:655-667 | a key is found exactly when it was added, with its place in the key buffer |
| IdIndexer.IdIndexer.Search | tests/cgraph/id_indexer.h:450-461 | finds a key's cell, or stops where the key would be entered |
| IdIndexer.IdIndexer.Add | tests/cgraph/id_indexer.h:449-481 | a new key goes to the end of the keys and gets that place as id; a known key changes nothing and gets its id; the table stays well-formed, at most half full and complete |
| IdIndexer.IdIndexer.AddAll | tests/cgraph/id_indexer.h:449-481 | any sequence of adds numbers the keys by first appearance |
| IdIndexer.FirstSeenOrder | tests/cgraph/id_indexer.h:463-464 | a key's id is the number of different keys added before it; ids are dense and no key has two |
| IdIndexer.IdIndexer.EmplaceNewValue | tests/cgraph/id_indexer.h:758-792 | either exactly this id is entered and the size stays, or the table has grown and every key is entered; it ends, through displacements, growth in mid-chain and nested rehashes |
| IdIndexer.IdIndexer.Displace | tests/cgraph/id_indexer.h:770-791 | the displacement chain loses no entry, unless it grows the table and enters them all |
| IdIndexer.IdIndexer.Hop | tests/cgraph/id_indexer.h:771-791 | one cell of the chain: the carried entry is put down, exchanged for another, passed on, or all entries are in a larger table |
| IdIndexer.IdIndexer.Place | tests/cgraph/id_indexer.h:765-769 | an empty cell takes the carried entry and nothing else changes |
| IdIndexer.IdIndexer.Swap | tests/cgraph/id_indexer.h:770-773 | the cell takes the carried entry and its old one is carried on, rightly, to the next cell |
| IdIndexer.IdIndexer.Rehash | tests/cgraph/id_indexer.h:796-836 | afterwards every key is entered in a table of at least the asked size |
| IdIndexer.IdIndexer.FreshTable | tests/cgraph/id_indexer.h:811-832 | the new table is empty, well-formed and of the asked size |
| IdIndexer.IdIndexer.Grow | tests/cgraph/id_indexer.h:794 | the table gets strictly larger with every key entered |
| IdIndexer.IdIndexer.Emplace | tests/cgraph/id_indexer.h:743-756 | the id is entered, and all that were still are |
| IdIndexer.IdIndexer.Locate | tests/cgraph/id_indexer.h:743-753 | finds out whether an id is entered, and if not where it goes |
| IdIndexer.IdIndexer.TooFar | tests/cgraph/id_indexer.h:758-764 | a chain of max_lookups entries means the table is still small, so growth cannot go on for ever |
| LfIndexer.LfIndexer.Build | tests/cgraph/id_indexer.h:943-1024 | from any well-formed Robin Hood table, with entries past the last slot, a well-formed linear-probing table of the same keys |
| LfIndexer.LfIndexer.GetIndex | tests/cgraph/id_indexer.h:306-342 | probing ends and finds exactly the keys of the table it was built from, with the same ids: the answer IdIndexer.GetIndex gives, for present and absent keys |
| LfIndexer.LfIndexer.CopyInPlace | tests/cgraph/id_indexer.h:983-1004 | entries before the last slot keep their cell; exactly the others are left over, each once |
| LfIndexer.LfIndexer.InsertAll | tests/cgraph/id_indexer.h:1006-1021 | after the loop every left-over entry can be reached and every other still can |
| LfIndexer.LfIndexer.InsertExtra | tests/cgraph/id_indexer.h:1007-1021 | the entry goes to the first empty cell on its way, and no other cell changes |
| LfIndexer.CopiedReachable | tests/cgraph/id_indexer.h:983-1004 | a copied entry has only used cells between its home and itself |
| LfIndexer.FreeCellAhead | tests/cgraph/id_indexer.h:1010-1020 | from every home probing meets an empty cell before it comes full circle |
| LfIndexer.MetBeforeFree | tests/cgraph/id_indexer.h:306-342 | probing for a key in the table meets it before any empty cell |
| LfIndexer.ProbeReaches | tests/cgraph/id_indexer.h:338 | from every home, the last slot included, probing comes to every cell before the last slot |
| PageFetchPins.PinsComeAndGo | src/buffer_pool.cpp:319-444 | whatever happens, pins come under new numbers, an old one stays on its frame and page as long as it lives, pins on a file nobody writes to have no unannounced bytes, and a dirty frame stays dirty while a pin on it lives |
| PageFetchPins.Survives | include/page_table.h:232-243 | a pin lives until it is released |
| PoolFile.File.GetBlock | src/buffer_pool_manager.cpp:224-249 | the buffer gets exactly the requested range of the file as last written, as one byte array, and no more of it is written, whatever other threads fetch, evict and load meanwhile; the call was granted one pin for each page of the range and has given all of them back |
| PoolFile.File.ReadPage | src/buffer_pool_manager.cpp:231-247 | one turn of the loop copies as many bytes as the page still has, through a pin granted for the page, and releases that pin; it succeeds exactly when the schedule grants one and nobody writes to the file |
| PoolFile.File.GetObject | include/page_table.h:323-330 | as many bytes as the page still has are copied, and no more |
| PoolFile.File.SetBlock | src/buffer_pool_manager.cpp:251-279 | the file becomes the old one with exactly that range replaced, whatever other threads fetch, evict and load meanwhile; the call was granted one pin for each page of the range and has given all of them back |
| PoolFile.File.WritePage | include/page_table.h:232-243 | a page written through its pin has the new bytes as its content; the pin is gone when the call returns and the frame is dirty |
| PoolFile.File.MarkAndRelease | include/page_table.h:232-243 | DecRefCount(true): the frame is dirty and the pin is gone |
| PoolFile.File.FetchPage | src/buffer_pool.cpp:319-444 | a granted pin shows the page as last written; there is one exactly when the schedule grants it and nobody writes to the file |
| PoolFile.File.ReadAfterWrite | src/buffer_pool_manager.cpp:224-279 | GetBlock after SetBlock, with any events before, between and during them that do not write to the file, reads the written bytes where the ranges overlap and the old bytes elsewhere |
| PoolFile.SparedStays | src/buffer_pool.cpp:319-444 | events that do not write to a file leave the content of all its pages |
| Paging.SetObject | include/page_table.h:313-321 | the page gets as many bytes as fit at their place and keeps the others |
| Paging.NumPageIsOverlap | src/buffer_pool_manager.cpp:318-328 | the page count is the number of pages the range overlaps |
| Paging.GetBlockSync | src/buffer_pool_manager.cpp:318-383 | the block's pages are consecutive from the range's first page, the first at its offset, the others at 0 |
| Paging.Copy | include/bufferblock/buffer_block_imp9.h:129-151 | the slices of such a block concatenate to the requested bytes |
| Layout.ItemInPage | include/mmap_array.h:364-384 | for every item size from 1 to 4096 no item crosses a page |
| Layout.OpenAfterResize | include/mmap_array.h:190-215 | open after resize finds as many items as were asked for |
| Layout.ItemInFile | include/mmap_array.h:311-319 | every item of a resized file lies inside it |
| Layout.PagesOfGet | include/mmap_array.h:376-400 | the block of get has one page when the items fit behind the first one on its page, else one more for each page of the rest |
| Layout.SizeOfGet | include/mmap_array.h:376-400 | get asks for just the items' bytes when they fit behind the first one on its page; else for all bytes up to the end of the last item, or of its page when it is the last one there |
| Layout.DecodeFindsItem | include/bufferblock/buffer_block_imp9.h:435-484 | decoding item k of get(idx, len) addresses item idx + k, inside one page, on a page the block has |
| Partition.PartitionIsBijection | include/partitioner.h:30-50 | page ids and pairs of partition and id inside correspond one to one, and GetFPageIdGlobal is the inverse |
| Partition.CeilOfCeil | include/utils.h:35-37 | rounding up by b and then by c is rounding up by b * c |
| Partition.PoolSize | include/buffer_pool_manager.h:129-135 | ceil(ceil(B/n)/4096) = ceil(ceil(B/4096)/n) |
| Partition.PageHasEntry | include/buffer_pool.h:194-198 | every page of a file of B bytes has an index below its pool's table size |
| Partition.PageMapping.constructor | include/page_table.h:409-411 | a new table of the asked size is empty |
| Partition.PageMapping.Resize | include/page_table.h:505-533 | the table keeps all its entries and grows by empty ones, and never shrinks |
| Partition.BufferPoolManager.Resize | include/buffer_pool_manager.h:129-135 | after the loop over the pools each table has its old size or, if that is more, its share of the file's pages; every page of the file has its entry and no entry is lost |
| BatchState.PinKeeps | src/buffer_pool.cpp:586-601 | pinning a resident page finishes its request and keeps everything else |
| BatchState.DirectPinKeeps | src/buffer_pool_manager.cpp:734-739 | pinning a resident page at once keeps everything else |
| BatchState.LockKeeps | src/buffer_pool.cpp:580-585 | locking the mapping of an absent page makes this request its one holder |
| BatchState.NothingAvailable | src/buffer_pool.cpp:609-626 | when a request finds neither a free nor an evictable frame, every frame of its pool is in use for a different page that was asked for or pinned before, so these pages are more than the frames |
| BatchState.FreeUsedUp | src/buffer_pool.cpp:609-626 | as long as nothing was evicted, a request that finds no free frame shows that the absent pages were more than the free frames |
| BatchState.AllServed | src/buffer_pool_manager.cpp:688-787 | when all these pages are resident and pinned, they are no more than the frames of their pools |
| BatchState.TakeKeeps | src/buffer_pool.cpp:609-641 | taking a frame, from the free list or by evicting a page, loses no byte of any page |
| BatchState.LoadKeeps | src/buffer_pool.cpp:642-656 | a load is the first read of its page in this batch |
| BatchState.FinishKeeps | src/buffer_pool.cpp:657-678 | a finished load leaves the page resident, pinned once and with its bytes |
| BatchFetch.Batch.FetchPageSync2 | src/buffer_pool.cpp:568-685 | a request ends in the phase its old one and its page's mapping call for, and the call returns true exactly when it was finished or its page was resident and unpinned; phases only advance; pinned frames and the bytes of all pages stay |
| BatchFetch.Batch.BeginPhase | src/buffer_pool.cpp:580-605 | Begin goes to Initing for an absent page and to End for a resident one, and stays when the page is busy |
| BatchFetch.Batch.InitingPhase | src/buffer_pool.cpp:609-626 | Initing takes a free frame of the page's pool, and a victim of that pool only when none is free |
| BatchFetch.Batch.EvictingPhase | src/buffer_pool.cpp:627-641 | a dirty victim is written back before its mapping is deleted |
| BatchFetch.Batch.LoadingPhase | src/buffer_pool.cpp:642-656 | exactly one read is issued for the request's page |
| BatchFetch.Batch.FinishPhase | src/buffer_pool.cpp:657-678 | the request ends with its page resident in its frame, clean, and pinned once |
| BatchFetch.Batch.Poll | src/buffer_pool.cpp:611 | a free frame of the pool, or none is free |
| BatchFetch.Batch.Victim | src/buffer_pool.cpp:617 | a listed frame of the pool without a pin, or there is none |
| BatchFetch.Batch.AddPage | src/buffer_pool_manager.cpp:718-749 | a page is pinned into its slot at once, or gets exactly one request, which is called once |
| BatchFetch.Batch.PinPage | src/buffer_pool_manager.cpp:734-739 | a resident page is pinned once and shown in its slot |
| BatchFetch.Batch.RequestPage | src/buffer_pool_manager.cpp:740-745 | any other page gets a request of its own for its slot |
| BatchFetch.Batch.AddBlock | src/buffer_pool_manager.cpp:699-751 | a request's block has as many slots as its byte range has pages, each filled or with a request |
| BatchFetch.Batch.DriveAll | src/buffer_pool_manager.cpp:753-756 | a call for every request moves each on, unless it is finished or waits for a page being loaded, and keeps all slots in order |
| BatchFetch.Batch.Rounds | src/buffer_pool_manager.cpp:758-785 | the passes end, with every request inserted |
| BatchFetch.Batch.Turn | src/buffer_pool_manager.cpp:761-784 | a request's turn brings it closer to its end or finds it waiting for another one |
| BatchFetch.SlotsOwnThePins | src/buffer_pool_manager.cpp:688-787 | when all requests are inserted, a frame has its old pins and one for each slot that shows it |
| BatchFetch.AllDelivered | src/buffer_pool_manager.cpp:688-787 | when all requests are inserted, every slot shows its page's bytes in a pinned frame |
| BatchFetch.Batch.Round | src/buffer_pool_manager.cpp:758-785 | a pass over the unfinished requests always advances at least one of them |
| BatchFetch.NotAllStuck | src/buffer_pool_manager.cpp:758-785 | the unfinished requests cannot all be waiting for one another |
| BatchFetch.Batch.InsertPage | src/buffer_pool_manager.cpp:767-781 | a finished request's page goes into its slot, which was empty until then |
| BatchFetch.Batch.GetBlockBatch | src/buffer_pool_manager.cpp:688-787 | with an empty result vector, the batch is served if and only if in each pool the different pages asked for or already pinned are no more than the frames; then every page of every request, repeated ones too, is in its slot in a pinned frame with that page's bytes, each slot owns one pin and no other is taken, no page is read twice, no page's bytes and no pinned frame change; if in each pool the absent pages are no more than the free frames, no resident page is evicted; the rounds end either way |
| BatchFetch.ServedHadRoom | src/buffer_pool_manager.cpp:688-787 | a batch that was served had frames enough |
| BatchFetch.RepeatsNeedNoFrame | src/buffer_pool.cpp:580-601 | asking for the same pages again takes no more frames |

## Left out

- Input and output: disks are maps from pages to bytes with atomic reads and writes; io_uring, pread, the I/O and eviction servers, logging and CSV or YAML handling are not modelled.
- Memory orders: steps are sequentially consistent, and a compare-and-swap loop is its one successful attempt.
- FlushPage and Flush: with delete_from_memory false the mapping and PTE stay locked on a resident page, and with true a frame is in the free list and the replacer at once, so they are not steps of this protocol.
- FetchPageSync1, the asynchronous server path and lazy loading: variants of the same phases.
- PageFetch.Step: Victim looks at any listed frame next and may give up at any time, which allows for every order and budget of SIEVE; the order and the budget are the subject of Sieve, and of PageFetchSieve for a fetch that nobody disturbs.
- PageFetchJam.NeverJamsIffEnough: states in which a Victim has given up are set aside, since there the code has failed an assertion; that SIEVE's retries suffice while other threads change counts during its scan is not stated, and not true of every schedule.
- Fairness: that fetches can end is proved, not that every fair schedule ends them; a thread may retry while others keep its page busy.
- PageFetch.Client: a holder that wrote sets the dirty bit before it releases, as DecRefCount(true) does; writing through a pin that is released without it is not an event.
- Sieve.SieveReplacer.Victim: proved for counters 0 and 1, which Insert and Promote keep, and for a set of evictable frames that does not change during the call; PageFetchSieve takes that set from the pool, and the changing set is PageFetch's.
- SieveReplacer_v3 Clean and Erase do not repair the hand, Replace is not called and the vector Victim reads an unset variable; none of them is modelled. ListArray's size_ is never incremented and is not modelled either.
- Lfu.LFUReplacer.RemoveObj: the intrusive node pointers of each list are a sequence here, so aliasing between list nodes is not captured; use counts are unbounded.
- Lfu.LFUReplacer.AppendObj: the same.
- DirectCache.DirectCache.Insert: called after a miss, as all callers do; inserting a page whose slot already holds its frame is ruled out, as the code's own assertion does.
- DirectCache.DirectCache.Fetch: that the pool gives no other page a frame this thread has pinned is required here; it is PageFetchSafety.PinnedFrameIsStable.
- DirectCache.Thread.GetBlock: pages and frames only, not the addresses inside them; it requires that no frame's marked block pages go beyond 2^16 with the new ones, past which the code's counter wraps (DirectCache.WrapAround), and where the pool would wait for a frame it reports so instead of waiting.
- BufferBlockImp9 Copy with an offset, the SetBlock that takes a block, Compare and the other block implementations and direct caches.
- ExtendibleHash: one thread (the latches are not modelled); depths are unbounded, while the code shifts a 32-bit 1 and is undefined from depth 31 on. The constructor without arguments leaves the fields unset and GetLocalDepth is a getter.
- IdIndexer: the hash policy is any function into the slots with any next size at least as large as asked; distances and ids are unbounded integers, where the code has 8-bit distances and an index type. The public _rehash, which nothing calls, swap and serialization are not modelled.
- LfIndexer: the windows of items fetched at a time are one flat array; the key buffer with its padding and the load-rate check before the conversion are not modelled.
- PoolFile.File.SetBlock: no two threads write to one file at a time, which the code leaves to its callers; memcpy within a page is one write.
- mmap_array set writes at idx * item_size, which is the item's address only for sizes that divide 4096; BufferPool GetObject calls SetObject. Neither is modelled.
- Partition: byte sizes and page numbers are unbounded; NumFPage, which asserts false, is not modelled.
- BatchFetch.Batch.Poll: any free frame of the pool, not the queue's first.
- BatchFetch.Batch.Victim: any unpinned listed frame of the pool; the visited counters and the order are Sieve's.
- BatchFetch: one thread and no interference from others, so Pin of a mapped page succeeds; a read completes where it is issued, its page being locked until the wait. With a non-empty result vector the code would put late pages into the wrong block, so the vector is required to be empty. A request that finds no victim ends the program, as the code's assertion does.
- Other replacers, the flush server and the memory accounting: inactive variants or getters.
