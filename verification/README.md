# Verified models of the Hexahedron kernel

This project models the parts of the Hexahedron kernel whose correctness is hardest to see from the code, and proves what
they promise. Code that updates state in place is modelled as classes and loops over the same state; every such method is
proved against a specification function or a direct statement of its effect, and the promises are proved about that
specification. Code that runs concurrently is modelled as a machine of atomic steps, any number of threads, every
interleaving.

| file | component |
|---|---|
| `Slab.dfy` | slab allocator as a machine of lock-granular steps: magazines, depots, slabs; the address-to-slab lookup |
| `SlabLists.dfy` | the slab allocator's slow path on its three linked lists |
| `VirtqueueSpec.dfy`, `Virtqueue.dfy` | split virtqueue (section 2.7 of VIRTIO 1.2): descriptor list, rings, 16-bit indices |
| `Common.dfy`, `Links.dfy` | shared notions; doubly linked lists |
| `VmRange.dfy`, `VmList.dfy` | virtual range list: flag changes, freeing, unmapping, finding room, insertion |
| `XArray.dfy` | sparse array as a radix tree, against a map |
| `Pmm.dfy` | physical page allocator: bitmap, hint, counts, references, contiguous search |
| `DirtyPages.dfy` | dirty-page list and writeback of the page cache |
| `Poll.dfy`, `WaitQueue.dfy`, `Rwsem.dfy` | blocking protocols |
| `TimerQueue.dfy` | timer queue and interrupt |
| `DriverOrder.dfy` | driver load ordering |
| `Canonical.dfy` | path canonicalization |

Linked records are named by number and their links kept in sequences (`next`, `prev`, -1 for NULL), so that a list is a
field the methods reassign; the ghost sequence beside it says which records it holds, in order.

Where a promise fails for the code as written, the code is modelled as it is, a lemma or a short method gives a concrete
input, and a theorem states exactly when the promise holds:

- A flag change overruns a range that the request's start cuts and that ends before the request
  (`VmSpec.SetFlagsExactIff`; `VmSpec.OverrunMapsTooMuch`).
- Unmapping loses a file's offset where a file range without MMU flags straddles the end (`VmSpec.UnmapKeepsBackingIff`;
  `VmSpec.UnmapShiftsFile`), and a reference where one reaches out on both sides and the recycled record names a file
  (`VmSpec.UnmapHoldsIff`; `VmSpec.UnmapMissesReference`).
- Inserting a range that ends exactly where the first range starts fails an assertion (`VmList.Space.InsertRange`;
  `VmList.AbuttingBelowFails`).
- The first store into an empty sparse array above index 63 shows at other indices too (`XArray.FirstStoreIff`;
  `XArray.Store64ShowsAt65`), and later stores near it hit an assertion (`XArray.NextStoreAssertsIff`).
- A page allocation gets no page when another thread takes the last one between the unlocked look and the lock
  (`Pmm.Section.AllocatePage`, `Pmm.AllServedIff`; `Pmm.LastPageRace`, `Pmm.OnePageTwice`).
- Marking a loading page, or one in front of a permanent page, dirties it without listing it
  (`DirtySpec.MarkedConsistentIff`; `DirtySpec.LoadingPageIsMissed`, `DirtySpec.PermanentPageStopsMarking`), and it stays
  unlisted and unwritten until a mark covers it together with a clean page (`DirtySpec.StrandedUntilRescued`).
- Writeback drops a listed page that another thread is loading (`DirtySpec.SyncedConsistentIff`,
  `DirtySpec.SyncForsakesIff`; `DirtySpec.LoadingPageIsDropped`), and nothing ever lists or writes it again
  (`DirtySpec.ForsakenForever`).
- A magazine allocated for a free that then finds room is never used or freed (`SlabProtocol.RunLostIff`).
- A repeating timer with interval 0 in front of another expired one is lost (`TimerSpec.NoneLostIff`;
  `TimerSpec.ZeroIntervalIsLost`). Removing it then cuts the back link of the timer it still names, and a removal that
  meets a cut link leaves its timer queued (`TimerSpec.RunRightIff`; `TimerSpec.RemovedTimerStaysQueued`).
- A failed `rwsem_tryStartWrite` keeps readers out for good (`Rwsem.ReaderAdmittedIff`, `Rwsem.TryRestoresIff`;
  `Rwsem.FailedTryLeaks`).
- The slab lookup mask keeps bit 0 and one page, so it is right only for some object sizes (`SlabLookup.LookupRightIff`;
  `SlabLookup.OddSizeGoesWrong`). Likewise the freelist's links need objects of at least 8 bytes
  (`SlabLookup.LinksApartIff`).

Two remarks beside these. Ring slots are exact only for sizes that divide 65536 (`RingIndex.SlotsDistinctIffDivides`); any
other size is one that section 2.7 of VIRTIO 1.2 forbids, so a conforming device never offers it, and
`RingIndex.RingOfThreeCollides` only illustrates why. The documentation of `vfs_canonicalize` promises an error for a
result longer than `PATH_MAX`; the code already rejects one whose length plus one reaches it, and the model follows the
code.

Assumptions: atomics are sequentially consistent; a wakeup after prepare makes the sleep return; addresses, offsets and
counters are unbounded except where wrap-around is modelled (ring indices, the semaphore word); memory for records of the
virtual range list is always available.

## Model

| member | source | states |
|---|---|---|
| SlabProtocol.NextKeepsInv | hexahedron/mm/slab.c:168-470 | Every atomic step of every thread, on any CPU and in any interleaving, keeps the whole invariant: objects, magazines, depots, locks and slab lists agree |
| SlabProtocol.NextIsPossible | hexahedron/mm/slab.c:227-470 | No step is ever stuck: no magazine or freelist is popped when empty or pushed when full, also after the CPU's lock was dropped and retaken |
| SlabProtocol.RunInv | hexahedron/mm/slab.c:168-470 | The invariant holds in every state of every run from an unused cache |
| SlabProtocol.OnePlace | hexahedron/mm/slab.c:168-470 | Every object of every mapped slab is in exactly one place: live, on its way back, on its own slab's freelist, or one round of one magazine |
| SlabProtocol.RunLive | hexahedron/mm/slab.c:168-470 | In every run the live objects are exactly those clients were given and have not given back |
| SlabProtocol.RunReturnsFresh | hexahedron/mm/slab.c:168-270 | In every run an allocation returns an object no client holds, in a slab that is mapped |
| SlabProtocol.NextLive | hexahedron/mm/slab.c:168-470 | A step makes exactly its result live, which was not live, and takes from clients only what they give back |
| SlabProtocol.RunUnmapsIdleSlabs | hexahedron/mm/slab.c:353-373 | In every run all objects of a slab about to be unmapped are on its freelist: none live, being freed or in a magazine |
| SlabProtocol.RunMagazines | hexahedron/mm/slab.c:227-270 | In every run, on every CPU, the previous magazine is absent, empty or full, and the depots hold only full and only empty magazines |
| SlabProtocol.RunLostIff | hexahedron/mm/slab.c:435-458 | In every run a magazine is lost, held by nobody and in no depot, if and only if some thread allocated it, retook the lock and found room after all; it is empty for good, so no object is lost with it |
| SlabProtocol.AllocChooses | hexahedron/mm/slab.c:227-254 | An allocation takes the last round of the loaded magazine, else of the previous one, else the top magazine of the full depot, and goes on to the slabs exactly when there is none |
| SlabProtocol.FreeChooses | hexahedron/mm/slab.c:394-433 | A free goes into the loaded magazine if that has fewer than eight rounds, else into an empty previous one, else takes the top magazine of the empty depot, and asks for a new one exactly when there is none |
| SlabProtocol.LastInFirstOut | hexahedron/mm/slab.c:227-433 | Whatever thread allocates next on a CPU gets the object freed there last |
| SlabProtocol.SlowOutcome | hexahedron/mm/slab.c:168-345 | On the slow path an allocation takes the last object of a slab's freelist and a free puts it there; nothing else changes |
| SlabProtocol.SlowChooses | hexahedron/mm/slab.c:168-192 | A free slab is used only when none is partial, and a new one, or failure, only when all are full |
| SlabProtocol.RunListsSlabs | hexahedron/mm/slab.c:194-345 | In every run a slab is on the full list exactly when it has no free object, on the free list exactly when all are free, and on the partial list otherwise |
| SlabProtocol.NextLost | hexahedron/mm/slab.c:227-470 | The same for one step: lost magazines stay lost, and exactly the forgotten one joins them |
| SlabProtocol.AllocTryKeeps | hexahedron/mm/slab.c:227-254 | The locked part of an allocation (loaded, previous, depot) keeps the invariant |
| SlabProtocol.AllocLoadSafe | hexahedron/mm/slab.c:254-264 | A magazine stolen from the full depot always has a round to take, and loading it keeps the invariant |
| SlabProtocol.FreeTryKeeps | hexahedron/mm/slab.c:394-433 | The first locked part of a free keeps the invariant |
| SlabProtocol.FreeLoadSafe | hexahedron/mm/slab.c:419-430 | A magazine from the empty depot always has room, and loading it keeps the invariant |
| SlabProtocol.FreeRetrySafe | hexahedron/mm/slab.c:439-470 | A thread that retakes the lock with a new magazine finds room, or both magazines full and can load its own |
| SlabProtocol.FreeRetryKeeps | hexahedron/mm/slab.c:439-470 | The second locked part of a free keeps the invariant, whether the new magazine is used or forgotten |
| SlabProtocol.RoomOnSlab | hexahedron/mm/slab.c:322-334 | An object being freed always finds its slab's freelist shorter than the slab |
| SlabProtocol.WholeSlab | hexahedron/mm/slab.c:334-345 | A slab whose free count equals its object count has every one of its objects on its freelist |
| SlabProtocol.UnmapInv | hexahedron/mm/slab.c:347-373 | Giving a free slab back keeps the invariant |
| SlabProtocol.PopInv | hexahedron/mm/slab.c:40-41 | Taking a round keeps the invariant, and the object came from a magazine |
| SlabProtocol.PushInv | hexahedron/mm/slab.c:40-41 | Putting a round into a magazine with room keeps the invariant |
| SlabProtocol.RotateInv | hexahedron/mm/slab.c:80-101 | Loading a magazine and handing the previous one to a depot keeps the invariant |
| SlabLists.SlabCache.constructor | hexahedron/mm/slab.c:46-75 | A new cache has no slabs |
| SlabLists.SlabCache.SlabNew | hexahedron/mm/slab.c:106-132 | A new slab has every object on its freelist, the last one linked on top |
| SlabLists.SlabCache.Move | hexahedron/mm/slab.c:194-216 | Unlinking a slab from a doubly linked list and prepending it to another keeps all three lists linked and disjoint |
| SlabLists.SlabCache.SlowAllocate | hexahedron/mm/slab.c:168-222 | Takes the top object of a partial slab, else of a free one, else of a new one; the slab ends on the list its free count dictates, everything else is as it was |
| SlabLists.SlabCache.PutObject | hexahedron/mm/slab.c:322-345 | The object's slab takes it back and ends on the list its free count dictates |
| SlabLists.SlabCache.FreeSlow | hexahedron/mm/slab.c:322-389 | As PutObject; when the slab becomes whole, free slabs beyond two are unmapped, never the one just completed, and none in the cache of caches |
| SlabLists.SlabCache.Trim | hexahedron/mm/slab.c:347-373 | Exactly the free list's tail beyond two slabs is unmapped |
| SlabLists.SlabCache.CountFree | hexahedron/mm/slab.c:349-351 | Counts the free list |
| SlabLists.SlabCache.LastFree | hexahedron/mm/slab.c:354-356 | Finds the free list's last slab |
| SlabLists.SlabCache.DropLast | hexahedron/mm/slab.c:354-372 | Cuts the last free slab off, keeping the lists linked |
| SlabLookup.LookupRightIff | hexahedron/mm/slab.c:54-60 | The mask at line 326 traces every object to its slab if and only if a slab has one object or the object size is even and outside 4065..4080 |
| SlabLookup.OddSizeGoesWrong | hexahedron/mm/slab.c:326 | With 33-byte objects the second object of a slab is traced to an odd address |
| SlabLookup.LinksApartIff | hexahedron/mm/slab.c:118-122 | The 8-byte links a new slab writes into its objects lie apart and inside the slab if and only if objects have at least 8 bytes |
| Virtqueue.Queue.constructor | hexahedron/drivers/virtio.c:235-239 | A fresh queue of any 16-bit size: all descriptors on the free list; its validity asks that the size divide 65536, for the reason `RingIndex.SlotsDistinctIffDivides` gives |
| Virtqueue.Queue.LinkAll | hexahedron/drivers/virtio.c:235-239 | Links every descriptor to the next, the last to 0xFFFF |
| Virtqueue.Queue.Push | hexahedron/drivers/virtio.c:336-373 | Fails exactly when there are no buffers or too few free descriptors; otherwise the device finds exactly these buffers from the old first free descriptor on, the token stands in its slot, the head in the next slot of the available ring, and the 16-bit index has advanced |
| Virtqueue.Queue.Fill | hexahedron/drivers/virtio.c:341-357 | Fills exactly the first descriptors of the free list with the buffers and flags |
| Virtqueue.Queue.Publish | hexahedron/drivers/virtio.c:365-370 | Writes the head into its ring slot and advances the 16-bit index, overwriting nothing the device has not consumed |
| Virtqueue.Queue.Pop | hexahedron/drivers/virtio.c:390-423 | Takes a head exactly when the device has returned more than were popped, namely the one returned first; returns the token given to the push of the run whose buffers the device found under that head, a push not popped before, and frees its descriptors |
| Virtqueue.Queue.GiveBack | hexahedron/drivers/virtio.c:406-419 | Walking the chain returns exactly its descriptors to the front of the free list |
| Virtqueue.Queue.PeekUsed | hexahedron/drivers/virtio.c:391-400 | The two 16-bit indices are equal exactly when nothing is pending |
| Virtqueue.Queue.DeviceConsume | hexahedron/drivers/virtio.c:365-370 | The device takes heads in the order of the pushes, and under the k-th finds the buffers of the k-th push |
| Virtqueue.Queue.DeviceComplete | hexahedron/drivers/virtio.c:391-400 | The device returns any head it holds |
| VirtqueueSpec.RunPartitionsDescriptors | hexahedron/drivers/virtio.c:336-423 | In every run each descriptor is on the free list or in exactly one in-flight chain, each list without repetition |
| VirtqueueSpec.RunReturnsEachTokenOnce | hexahedron/drivers/virtio.c:336-423 | In every run, whatever the completion order, each push is popped at most once and is in flight or popped, never both, under the token given to it; with nothing in flight all are popped and all descriptors are free |
| VirtqueueSpec.RunRecorded | hexahedron/drivers/virtio.c:336-423 | In every run, against the run's events alone: the tokens are those pushed, in order; the chain of push k carries the buffers of push k; requests are taken in push order; returned heads are read in the order of their return |
| VirtqueueSpec.PopTakesOldest | hexahedron/drivers/virtio.c:390-423 | A pop after any run takes the head returned first and records its push, once, and gives its chain back |
| Virtqueue.RoundTrip | hexahedron/drivers/virtio.c:336-423 | For every size, buffers and token: pushed, consumed, completed and popped on a fresh queue, the token comes back |
| VirtqueueSpec.RunInv | hexahedron/drivers/virtio.c:336-423 | Every state of every run satisfies the queue's invariant |
| VirtqueueSpec.PushInv | hexahedron/drivers/virtio.c:336-373 | A push keeps the invariant |
| VirtqueueSpec.PopInv | hexahedron/drivers/virtio.c:390-423 | A pop keeps the invariant |
| VirtqueueSpec.RingHasRoom | hexahedron/drivers/virtio.c:365-370 | Neither ring ever holds more entries than slots |
| RingIndex.SlotsDistinctIffDivides | hexahedron/drivers/virtio.c:365-370 | Outstanding entries of a ring occupy distinct slots over unbounded index wrap-around if and only if the size divides 65536 |
| RingIndex.RingOfThreeCollides | hexahedron/drivers/virtio.c:365-370 | With three slots, a size VIRTIO forbids, the entries around the index wrap-around share a slot |
| RingIndex.IndicesMeet | hexahedron/drivers/virtio.c:391-397 | Two 16-bit indices less than 65536 apart are equal exactly when the distance is 0 |
| VmSpec.SetFlagsExactIff | hexahedron/mm/vmm.c:118-282 | Changing flags changes exactly the mapped pages of the request and keeps order, disjointness and every page's backing if and only if no range with other flags is cut by the request's start and ends before the request does |
| VmSpec.SetFlagsRight | hexahedron/mm/vmm.c:118-282 | Under that condition, address by address, the flags, coverage and file offsets are right |
| VmSpec.ViewAt | hexahedron/mm/vmm.c:118-282 | An address in a range sees its flags and, in a file range, the file at the offset plus its distance from the start |
| VmSpec.SetFlagsOutcome | hexahedron/mm/vmm.c:118-282 | Page by page, without an overrun: new flags inside the request, everything else as it was |
| VmSpec.UnmapOutcome | hexahedron/mm/vmm.c:427-442 | Page by page: nothing inside the interval, the same flags outside, and the same backing unless a file range without MMU flags straddles the end |
| VmSpec.SetFlagsWrong | hexahedron/mm/vmm.c:201-238 | A range that overruns leaves overlapping ranges or maps the address at its old end |
| VmSpec.OverrunMapsTooMuch | hexahedron/mm/vmm.c:215 | A concrete request that maps an unmapped page |
| VmSpec.SetFlagsHolds | hexahedron/mm/vmm.c:177-187 | Changing flags takes one file reference for every file range it adds, overrun or not |
| VmSpec.UnmapRight | hexahedron/mm/vmm.c:427-442 | Unmapping leaves a sorted disjoint list that maps exactly the old addresses outside the interval with their flags, although its first pass may leave overlaps |
| VmSpec.UnmapKeepsBackingIff | hexahedron/mm/vmm.c:427-442 | Every surviving page keeps its file and offset, whatever a recycled record held, if and only if no file range without MMU flags straddles the interval's end |
| VmSpec.UnmapHoldsIff | hexahedron/mm/vmm.c:427-442 | Unmapping keeps one reference per file range, for every file, if and only if no file range without MMU flags reaches out of the interval on both sides, or the recycled record names no file |
| VmSpec.UnmapMissesReference | hexahedron/mm/vmm.c:147-159 | Unmapping the middle page of a file mapped without flags, through a record that last named another file, gives that file a mapping without a reference |
| VmSpec.UnmapShiftsFile | hexahedron/mm/vmm.c:245-250 | A concrete unmap after which a file mapping shows the wrong page |
| VmSpec.UpdateHolds | hexahedron/mm/vmm.c:118-282 | The mappings of a file change by the references taken, except for the right parts of file ranges freed in the middle |
| VmSpec.UnmapIsEach | hexahedron/mm/vmm.c:427-442 | The two passes amount to treating every range on its own |
| VmSpec.InsertUnmap | hexahedron/mm/vmm.c:427-442 | Unmapping a range that was just inserted gives the list back as it was |
| VmList.Space.constructor | hexahedron/mm/vmm.c:76-81 | A new space has no ranges |
| VmList.Space.Update | hexahedron/mm/vmm.c:110-286 | The loop over the linked list computes the update of the list of ranges, and takes and drops exactly the references the model says |
| VmList.Space.SplitAround | hexahedron/mm/vmm.c:138-200 | A range around the request becomes three linked records |
| VmList.Space.CutLeft | hexahedron/mm/vmm.c:201-238 | A left cut appends a record that runs to the request's end |
| VmList.Space.CutRight | hexahedron/mm/vmm.c:239-278 | A right cut puts a record in front and moves the range's start and offset |
| VmList.Space.FreeAround | hexahedron/mm/vmm.c:147-159 | Freeing the middle links a right part whose file nobody sets |
| VmList.Space.Destroy | hexahedron/mm/vmmrange.c:258-268 | Unlinks a contained range and drops its file reference |
| VmList.Space.Unlink | hexahedron/mm/vmmrange.c:258-261 | Taking a record out keeps the list doubly linked |
| VmList.Space.Unmap | hexahedron/mm/vmm.c:427-442 | Clears flags, then frees; the list stays sorted, disjoint and inside the space |
| VmList.Space.FindFree | hexahedron/mm/vmmrange.c:41-80 | Returns the lowest aligned address at or above the hint whose interval lies in the space and misses every range, and 0 if there is none |
| VmList.Space.InsertRange | hexahedron/mm/vmmrange.c:87-133 | The assertions pass exactly when the aligned range is non-empty, in the space, misses every range and does not end where the first range starts; then the list stays sorted and disjoint with the range added |
| VmList.AbuttingBelowFails | hexahedron/mm/vmmrange.c:87-133 | In a space with one range, the insertion of the page right below it fails |
| VmList.Space.FindGap | hexahedron/mm/vmmrange.c:108-123 | Finds the first gap that holds the range, or the last record |
| VmList.Space.GetRange | hexahedron/mm/vmmrange.c:154-165 | Returns a range containing the whole allocation, NULL exactly when there is none |
| VmList.Space.Map | hexahedron/mm/vmm.c:318-401 | Maps at the lowest fitting address; the insertion succeeds unless the interval abuts the first range from below |
| Poll.NoLostWakeup | hexahedron/fs/poll.c:100-169 | In every reachable state a sleeping waiter whose ready flag is set has its wakeup delivered, or a signaler is committed to delivering it |
| Poll.SignalReachesEveryMatch | hexahedron/fs/poll.c:149-169 | When a signaler releases an event every registered waiter with a matching mask is ready; if asleep its wakeup is delivered or under way, and if spinning it can leave |
| Poll.SignalCallReaches | hexahedron/fs/poll.c:37-169 | For a whole call in any run: a waiter that registered before and has not given that up is ready afterwards if the signal shares a flag with what it wanted, and whatever it wanted if the signal holds hang-up or error |
| Poll.PassesOverOthers | hexahedron/fs/poll.c:37-163 | At a node that wants none of the signal's flags, without hang-up or error, no step of the signaler touches any waiter |
| Poll.ReadyHasCause | hexahedron/fs/poll.c:48-163 | A waiter is created not ready, and becomes ready only while adding interests or by such a signal |
| Poll.WaitsUntilReady | hexahedron/fs/poll.c:100-142 | A wait returns without sleeping only when ready, and goes to sleep only when not |
| Poll.WakesOnce | hexahedron/fs/poll.c:149-169 | sleep_wakeup is called at most once per waiter, only after it prepared and never for one that spins |
| Poll.NextKeepsInv | hexahedron/fs/poll.c:46-203 | Every step of any waiter or signaler keeps the handshake's invariant: creating, registering, sleeping, spinning without a thread, leaving with or without a wait, signaling |
| Poll.RunKeepsInv | hexahedron/fs/poll.c:46-203 | Every run keeps it |
| WaitQueueList.WaitQueue.Add | hexahedron/misc/waitqueue.c:31-50 | Appends the node to the linked queue |
| WaitQueueList.WaitQueue.Remove | hexahedron/misc/waitqueue.c:117-141 | Removes exactly the given node, keeping order, head and tail |
| WaitQueueProtocol.NoLostWakeup | hexahedron/misc/waitqueue.c:59-109 | A sleeper whose ready flag is set has its wakeup delivered or the waker holding the lock is committed to it; with the lock free it is always delivered |
| WaitQueueProtocol.WakeupIsFifo | hexahedron/misc/waitqueue.c:148-170 | At the end of a wakeup the nodes readied are, in queue order, the first that were not ready, up to the waker's limit |
| WaitQueueProtocol.WakeupCall | hexahedron/misc/waitqueue.c:148-170 | For a whole call in any run, from the state in which it takes the lock: exactly the first nthreads nodes not ready become ready when that is positive, the first 2^31 - 1 when it is 0, all when it is negative; it returns their number and leaves the queue as it was |
| WaitQueueProtocol.ArrivalOrder | hexahedron/misc/waitqueue.c:31-170 | In every run, of two nodes that stay queued the one added first stays ahead |
| WaitQueueProtocol.NoneOvertakes | hexahedron/misc/waitqueue.c:31-141 | In one step no node overtakes another, and a new one stands behind all |
| WaitQueueProtocol.ReadyByWaker | hexahedron/misc/waitqueue.c:31-170 | A node starts not ready and becomes ready only by a waker that holds the lock and stands at it |
| WaitQueueProtocol.WaitsUntilReady | hexahedron/misc/waitqueue.c:59-109 | A wait returns without sleeping exactly when it finds its node ready under the lock |
| WaitQueueProtocol.RunKeepsInv | hexahedron/misc/waitqueue.c:31-170 | Every run keeps the queue's invariant |
| WaitQueueProtocol.ExchangeKeepsInv | hexahedron/misc/waitqueue.c:148-170 | Marking a node ready keeps the invariant |
| WaitQueueProtocol.DeliverKeepsInv | hexahedron/misc/waitqueue.c:148-170 | Delivering a wakeup keeps the invariant |
| Rwsem.StepKeepsInv | hexahedron/lock/rwsem.c:24-129 | Every single atomic operation keeps the word equal to readers plus 2^31 times writers |
| Rwsem.RunKeepsInv | hexahedron/lock/rwsem.c:24-129 | So does every run of fewer than 2^31 threads |
| Rwsem.MutualExclusion | hexahedron/lock/rwsem.c:24-129 | In every run a writer never coexists with a reader or another writer, including through the try variants |
| Rwsem.FailedTryBlocksReaders | hexahedron/lock/rwsem.c:116-129 | After a failed tryStartWrite no run ever admits a new reader, because writers_waiting stays raised |
| Rwsem.ReaderAdmittedIff | hexahedron/lock/rwsem.c:24-40 | In every reachable state in which no thread writes or waits to write, a reader that starts is admitted by its next two steps if and only if no tryStartWrite of the run has failed |
| Rwsem.GateOpensIff | hexahedron/lock/rwsem.c:27-38 | The same for a reader that has loaded the word and stands before the test of writers_waiting |
| Rwsem.RunLeaks | hexahedron/lock/rwsem.c:116-129 | In every run writers_waiting exceeds the waiting writers by exactly the number of failed tries |
| Rwsem.TryRestoresIff | hexahedron/lock/rwsem.c:116-129 | Whatever other threads do in between, a finished tryStartWrite leaves writers_waiting as it found it if and only if the word it loaded last was 0, which is exactly when it takes the lock |
| Rwsem.FailedTryLeaks | hexahedron/lock/rwsem.c:116-129 | A run with one reader and one failed try ends with the lock free and writers_waiting at 1 |
| Rwsem.CallReturns | hexahedron/lock/rwsem.c:24-129 | Whatever other threads do, a finished start holds the lock it asked for or, in a try variant only, none; a try never sleeps |
| Rwsem.BusyOutcome | hexahedron/lock/rwsem.c:24-129 | A start that finds the semaphore busy gives up in the try variants and sleeps in the plain ones, and begins again after the sleep |
| Rwsem.WordChanges | hexahedron/lock/rwsem.c:24-85 | The word changes only by one reader, or by the writer bit on an empty word, when a start succeeds, and back when it finishes |
| XArray.XArray.constructor | hexahedron/include/kernel/misc/xarray.h:45 | An empty array |
| XArray.XArray.Load | hexahedron/misc/xarray.c:60-106 | Returns what the map holds at the index, NULL for a missing key, on every tree |
| XArray.XArray.Store | hexahedron/misc/xarray.c:117-254 | Returns what a load found at the index, and afterwards a load finds the new value there and at every other index what it found before, through growth, descent and pruning, unless it is the first store into an empty array at an index above XA_MASK; then the next stores that assert are exactly those in the same slot of the root, while no store asserts on a consistent array |
| XArray.XArray.StoreFirst | hexahedron/misc/xarray.c:123-146 | The first store makes the array hold exactly that value at exactly that index if and only if the index is at most XA_MASK |
| XArray.XArray.Grow | hexahedron/misc/xarray.c:149-163 | Adding roots keeps the tree standing for the same map until the index fits |
| XArray.XArray.Descend | hexahedron/misc/xarray.c:197-217 | Reaches the index's leaf, adding only the missing nodes, without changing the map |
| XArray.XArray.PutLeaf | hexahedron/misc/xarray.c:219-228 | Writes one slot and keeps the bitmap equal to the slots in use |
| XArray.XArray.Prune | hexahedron/misc/xarray.c:230-250 | Frees the empty leaf and every node that leaves empty, so that none is left; an empty map leaves a NULL head |
| XArray.XArray.Erase | hexahedron/misc/xarray.c:262-264 | Removes exactly one key and returns its value |
| XArray.XArray.EmptyIff | hexahedron/misc/xarray.c:123-146 | The head is NULL exactly when the map is empty |
| XArray.LookupIsMap | hexahedron/misc/xarray.c:60-106 | On every consistent tree the walk finds what the map holds, at every index |
| XArray.FirstStoreIff | hexahedron/misc/xarray.c:123-146 | The exact condition for the first store |
| XArray.Store64ShowsAt65 | hexahedron/misc/xarray.c:129-141 | Storing at 64 in an empty array shows the value at 65 |
| XArray.NextStoreAssertsIff | hexahedron/misc/xarray.c:197-217 | After a first store the next store, an erasure included, hits the assertion on a value above the leaves if and only if the first index is above XA_MASK and the next one lies in the same slot of the root |
| XArray.GrownNeverAsserts | hexahedron/misc/xarray.c:149-217 | A store that has to grow the tree never hits it, on any tree |
| XArray.TreeNeverAsserts | hexahedron/misc/xarray.c:197-217 | No store hits it on a consistent tree |
| XArray.GrowTree | hexahedron/misc/xarray.c:153-163 | A new root keeps every node's bitmap, parent and place right |
| XArray.AddTree | hexahedron/misc/xarray.c:203-212 | A new inner node or leaf keeps them right |
| XArray.PutTree | hexahedron/misc/xarray.c:219-228 | A store in a leaf turns the tree into one for the updated map |
| XArray.CutTree | hexahedron/misc/xarray.c:241-248 | Cutting an empty node off keeps the tree standing for the same map |
| XArray.HasKey | hexahedron/misc/xarray.c:230-250 | Below every node of a tree without empty nodes there is a key |
| XArray.FirstLevelFits | hexahedron/misc/xarray.c:129-133 | The level chosen from the bit length is one at which the index fits a node, and is above 0 exactly for indices above XA_MASK |
| Pmm.Section.AllocatePage | hexahedron/mm/pmm.c:335-398 | A page of the section is returned and no assertion fails if and only if the section has a free page when the lock is taken; the page is the lowest free one, exactly it is marked used, with one reference |
| Pmm.Section.FirstFreeByte | hexahedron/mm/pmm.c:383-391 | The hint moves to the first byte with a free page; the assertion in the loop cannot fail while one is free |
| Pmm.Section.Recover | hexahedron/mm/pmm.c:342-349 | Recomputes the hint from the start; its assertion fails only when the whole bitmap and the byte behind it are full, and then no page is free |
| Pmm.Section.LowBit | hexahedron/mm/pmm.c:352-365 | Finds the lowest clear bit of a byte, failing its assertion only on a set bit past the section |
| Pmm.Section.FindBlock | hexahedron/mm/pmm.c:338-368 | Finds the lowest free page if and only if there is one; otherwise an assertion fails or the block lies outside the section |
| Pmm.OnePageTwice | hexahedron/mm/pmm.c:335-398 | In a section of one page the second allocation under the lock gets none |
| Pmm.LastPageRace | hexahedron/mm/pmm.c:328-335 | Two callers that both see the last free page before either takes the lock: the second gets none |
| Pmm.AllServedIff | hexahedron/mm/pmm.c:328-335 | Whatever the order and with any frees in between, every caller past the unlocked look gets a page if and only if at no point more of them have taken the lock than pages were free at first or have been freed since |
| Pmm.ServedIff | hexahedron/mm/pmm.c:328-335 | With no page freed meanwhile, the i-th of them to take the lock is served if and only if more than i pages were free |
| Pmm.Section.TrySection | hexahedron/mm/pmm.c:403-485 | Takes the lowest run of the given number of free pages, and finds none exactly when none exists; the assertion fails only for a request of no pages on a full section |
| Pmm.Section.FindRun | hexahedron/mm/pmm.c:426-460 | The search returns the lowest run, skipping full bytes and blocked starts without missing one |
| Pmm.Section.MarkRun | hexahedron/mm/pmm.c:462-467 | Marks exactly the run |
| Pmm.Section.RetainPage | hexahedron/mm/pmm.c:533-538 | Adds one reference, which leaves the section consistent if and only if the page is in use |
| Pmm.Section.ReleasePage | hexahedron/mm/pmm.c:568-591 | Panics exactly on a page without references; drops one, and frees the page exactly when it was the last |
| Pmm.Section.FreeLast | hexahedron/mm/pmm.c:580-587 | Freeing keeps bitmap, hint, count, flag and references in agreement |
| Pmm.CountFreeUpdate | hexahedron/mm/pmm.c:323-398 | Changing one bit changes the free count by exactly that page |
| Pmm.MaskIsShift | hexahedron/mm/pmm.c:352-370 | Bit i of byte b stands for page 8 b + i, lowest bit first |
| Pmm.LowestFree | hexahedron/mm/pmm.c:323-398 | A positive count means a lowest free page exists |
| DirtyList.PageCache.constructor | hexahedron/mm/cache.c:151-168 | A cache of clean pages |
| DirtyList.PageCache.MarkRangeDirty | hexahedron/mm/cache.c:576-677 | Dirties and pins the range's pages up to a permanent one, and merges the fresh ones into the list: strictly ascending, exactly the old list plus them |
| DirtyList.PageCache.SetDirty | hexahedron/mm/cache.c:577-599 | Dirties and pins exactly the pages before the first permanent one and counts the clean ones |
| DirtyList.PageCache.Splice | hexahedron/mm/cache.c:608-661 | However range and list interleave, the result is the ordered union |
| DirtyList.PageCache.SpliceRun | hexahedron/mm/cache.c:612-660 | Splices one run of fresh pages in through the cursor |
| DirtyList.PageCache.Advance | hexahedron/mm/cache.c:624-626 | Moves the cursor to the first page at or after the target |
| DirtyList.PageCache.Gather | hexahedron/mm/cache.c:628-650 | Chains the longest run of fresh pages |
| DirtyList.PageCache.LinkRun | hexahedron/mm/cache.c:656-660 | Links the run in at the cursor |
| DirtyList.PageCache.Collect | hexahedron/mm/cache.c:722-771 | Claims a maximal contiguous run of at most 128 pages and consumes the page that broke it only if that is not to be taken |
| DirtyList.PageCache.WriteBatch | hexahedron/mm/cache.c:773-787 | A batch is written and its pages end clean, ready, not loading, without error, off the list and with one reference less; the dirty count drops by its size |
| DirtyList.PageCache.FinishRange | hexahedron/mm/cache.c:219-228 | Sets READY and clears LOADING on the pages of the range, and on no other |
| DirtyList.PageCache.ReleaseRange | hexahedron/mm/cache.c:513-517 | Drops one reference of each page |
| DirtyList.PageCache.SyncInner | hexahedron/mm/cache.c:711-792 | Terminates; the writes concatenated are the list restricted to claimable pages; each is contiguous with 1 to 128 pages |
| DirtyList.PageCache.SyncInode | hexahedron/mm/cache.c:798-816 | Empties the list and writes, in batches of 1 to 128, exactly the listed pages that are dirty, not loading and not truncated; each ends clean, ready, not loading, without error, with one reference less |
| DirtySpec.MarkedConsistentIff | hexahedron/mm/cache.c:576-663 | Marking keeps list, marks, flags and count in agreement if and only if every clean page before the first permanent one gets listed: no clean page is loading, and none precedes a permanent page |
| DirtySpec.SyncOutcome | hexahedron/mm/cache.c:711-792 | Flag by flag, for any cache: what writeback does to a page that is written, to a listed page that is not, and to the rest |
| DirtySpec.MarkOutcome | hexahedron/mm/cache.c:576-599 | Flag by flag, for any cache: exactly the pages before the first permanent one become dirty, change no other flag and gain a reference if they were clean |
| DirtySpec.MarkLists | hexahedron/mm/cache.c:601-661 | Marking lists exactly the pages of the range on no list and not loading, in file order, if the range has a clean page and no permanent one, and otherwise leaves list and count alone |
| DirtySpec.SyncedConsistentIff | hexahedron/mm/cache.c:711-792 | Writeback leaves the cache consistent if and only if every listed page is dirty, not loading and not truncated |
| DirtySpec.RunListsPending | hexahedron/mm/cache.c:576-816 | In every run in which marks and writebacks meet no loading, permanent or truncated page, the list is exactly the pages marked since the last writeback, in file order, each holding one more reference |
| DirtySpec.SyncWritesPending | hexahedron/mm/cache.c:711-816 | Every writeback of such a run writes exactly the pages marked since the one before, each once, in file order |
| DirtySpec.OrdinaryIsCalm | hexahedron/mm/cache.c:576-816 | A run without reads whose pages are ordinary at the start is such a run |
| DirtySpec.LoadingPageIsMissed | hexahedron/mm/cache.c:616-619 | A page being loaded when marked becomes dirty without being listed |
| DirtySpec.StrandedUntilRescued | hexahedron/mm/cache.c:576-816 | Through every run a page that is dirty but not listed stays so, and no writeback writes it, if and only if no mark covers it together with a clean page, without a permanent one, after its loading ended |
| DirtySpec.StrandedNextIff | hexahedron/mm/cache.c:576-816 | The same for one step |
| DirtySpec.RescueNeedsCleanPage | hexahedron/mm/cache.c:592-602 | Marking the page alone, or among dirty pages only, never lists it |
| DirtySpec.SyncForsakesIff | hexahedron/mm/cache.c:727-760 | A writeback of a consistent cache leaves dirty, marked as listed and on no list exactly the listed pages that it cannot take: those loading or truncated |
| DirtySpec.ForsakenForever | hexahedron/mm/cache.c:576-816 | Such a page is never listed or written again, in any run |
| DirtySpec.LoadingPageIsDropped | hexahedron/mm/cache.c:743-758 | A concrete run: a page is marked, marked for reading by another thread and dropped by writeback |
| DirtySpec.PermanentPageStopsMarking | hexahedron/mm/cache.c:584-588 | A permanent page behind a clean one leaves the clean one dirty, unlisted and uncounted |
| TimerQueue.TimerDevice.constructor | hexahedron/subsystems/timer.c:292-300 | No timer is queued |
| TimerQueue.TimerDevice.Insert | hexahedron/subsystems/timer.c:213-229 | Inserting a timer that is not queued, a lost one included, is the model's start event, and the device's calls so far are a run of the model |
| TimerQueue.TimerDevice.InsertLocked | hexahedron/subsystems/timer.c:37-83 | Links the timer in front of the first that expires no earlier |
| TimerQueue.TimerDevice.Remove | hexahedron/subsystems/timer.c:235-266 | Removing is the model's stop event, stale links of lost timers included, and extends the run; the queue is right afterwards if and only if the timer is not an active one queued without a back link; an inactive timer is left alone and reported |
| TimerQueue.TimerDevice.UnlinkOther | hexahedron/subsystems/timer.c:254-257 | The two link writes for a timer that is not the first |
| TimerQueue.TimerDevice.PositiveStaysValid | hexahedron/subsystems/timer.c:37-266 | A device whose repeating timers were all inserted with positive intervals is valid after any calls, with no timer lost and no back link cut |
| TimerQueue.TimerDevice.StopHardware | hexahedron/subsystems/timer.c:89-98 | Adds what the hardware counted to the total, when a timer is queued |
| TimerQueue.TimerDevice.Arm | hexahedron/subsystems/timer.c:26-31 | Arms the hardware with the time to the first expiry |
| TimerQueue.TimerDevice.Irq | hexahedron/subsystems/timer.c:128-187 | Fires exactly the timers due, in order, is the model's interrupt and leaves a valid device; the repeating ones among them are queued again if and only if no one with interval 0 stands before another |
| TimerQueue.TimerDevice.FireAll | hexahedron/subsystems/timer.c:145-171 | The loop ends, fires the due timers in order and leaves the model's queue, lost timers and cut links |
| TimerQueue.TimerDevice.FireNext | hexahedron/subsystems/timer.c:148-171 | One round fires one timer and queues it again if it repeats |
| TimerSpec.RunInv | hexahedron/subsystems/timer.c:37-266 | After any run, up to and including a removal that goes wrong, the queue is sorted, holds each timer once, expires nothing in the past, and every timer is due at its insertion plus a whole number of intervals |
| TimerSpec.RunRightIff | hexahedron/subsystems/timer.c:37-266 | A run leaves exactly the active timers queued, but for those lost to an interrupt, if and only if none of its removals meets a queued timer, not the first, whose back link is NULL |
| TimerSpec.RunOfPositiveIntervals | hexahedron/subsystems/timer.c:37-266 | In every run that starts repeating timers with positive intervals only, a timer is active exactly when it is queued, nothing is lost and no link is stale |
| TimerSpec.RemovedTimerStaysQueued | hexahedron/subsystems/timer.c:248-257 | A concrete run that loses a timer, removes it and then removes another: the other stays queued although inactive |
| TimerSpec.StopRightIff | hexahedron/subsystems/timer.c:248-259 | One removal leaves the queue right if and only if it does not meet such a timer |
| TimerSpec.ApplyInv | hexahedron/subsystems/timer.c:37-266 | Every insertion, removal and interrupt keeps order, uniqueness and the account of stale links |
| TimerSpec.EventTime | hexahedron/subsystems/timer.c:89-142 | Total ticks grow by what the hardware counted at every insertion and removal; an interrupt sets them to the first expiry |
| TimerSpec.RunTime | hexahedron/subsystems/timer.c:89-142 | In every run total ticks never fall behind what was counted, and equal it when there is no interrupt |
| TimerSpec.StartOutcome | hexahedron/subsystems/timer.c:37-83 | An insertion adds one entry, due one interval from now, and changes no other |
| TimerSpec.StopOutcome | hexahedron/subsystems/timer.c:248-259 | A removal takes out exactly the active timer's entry, unless that stands behind another without a back link, and clears its mark |
| TimerSpec.InterruptOutcome | hexahedron/subsystems/timer.c:145-171 | An interrupt leaves the entries not due as they are and, of those due, exactly the repeating ones that are not lost, each due exactly one interval later |
| TimerSpec.InterruptFiresExactlyTheDue | hexahedron/subsystems/timer.c:128-187 | An interrupt after any run fires exactly the timers whose time has come, each at insertion plus a whole number of intervals |
| TimerSpec.InterruptRequeues | hexahedron/subsystems/timer.c:128-187 | With positive intervals every repeating timer is queued again with a later expiry |
| TimerSpec.NoneLostIff | hexahedron/subsystems/timer.c:145-171 | An interrupt keeps every repeating timer queued if and only if no expired one with interval 0 stands before another expired one |
| TimerSpec.ZeroIntervalIsLost | hexahedron/subsystems/timer.c:145-171 | A concrete queue that loses a timer |
| TimerSpec.FiredOnTime | hexahedron/subsystems/timer.c:128-187 | Firing keeps every expiry at insertion plus a whole number of intervals: no drift |
| TimerSpec.FiredSorted | hexahedron/subsystems/timer.c:128-187 | Firing keeps the queue sorted with nothing in the past |
| TimerSpec.InsertKeepsOrder | hexahedron/subsystems/timer.c:37-83 | Insertion keeps the queue sorted |
| DriverOrder.Solve | buildscripts/create_driver_data.py:50-73 | Returns a permutation of the drivers respecting every constraint, raises exactly when the constraints contain a cycle or start at an unknown driver, and fails with a KeyError exactly when one names an unknown successor; duplicate constraints allowed |
| DriverOrder.Tally | buildscripts/create_driver_data.py:51-56 | The in-degrees count every constraint, duplicates included |
| DriverOrder.Release | buildscripts/create_driver_data.py:64-67 | Lowers the neighbours' in-degrees and queues exactly those that reach 0 |
| DriverOrder.OrderExcludesCycle | buildscripts/create_driver_data.py:50-73 | An order that respects the constraints rules a cycle out |
| DriverOrder.StuckMeansCycle | buildscripts/create_driver_data.py:69-71 | Drivers that all wait for one another contain a cycle |
| DriverOrder.WalkGoesForward | buildscripts/create_driver_data.py:50-73 | A walk along constraints goes forward in a respecting order |
| Canonical.Canonicalize | hexahedron/fs/vfs_new.c:145-194 | The loop over tokens and the component stack computes the canonical path or the error |
| Canonical.NextToken | hexahedron/fs/vfs_new.c:159-171 | Yields the next non-empty component and where to go on |
| Canonical.Build | hexahedron/fs/vfs_new.c:174-184 | Writes the components by position, failing where the buffer would be too short |
| Canonical.ResultIsNormal | hexahedron/fs/vfs_new.c:145-194 | The result starts with a slash, has no empty, dot or dot-dot component and no trailing slash except the root |
| Canonical.Idempotent | hexahedron/fs/vfs_new.c:145-194 | Canonicalizing a result gives it back, from any working directory |
| Canonical.Compositional | hexahedron/fs/vfs_new.c:145-194 | Canonicalizing the working directory first gives the same result, errors included |
| Canonical.TokensOfRender | hexahedron/fs/vfs_new.c:145-194 | Splitting a rendered path gives its components back |
| Canonical.ResolveInParts | hexahedron/fs/vfs_new.c:161-172 | Resolving a path is resolving its parts one after the other |
| Canonical.AbsoluteIgnoresDirectory | hexahedron/fs/vfs_new.c:149-150 | An absolute input ignores the working directory |
| Canonical.RelativeIsBelow | hexahedron/fs/vfs_new.c:151-153 | A relative input is the working directory, a slash and the input |
| Canonical.DotStays | hexahedron/fs/vfs_new.c:162-163 | A dot or a slash behind a path changes nothing |
| Canonical.SlashesCollapse | hexahedron/fs/vfs_new.c:159-171 | Repeated slashes count as one |
| Canonical.DownAndUp | hexahedron/fs/vfs_new.c:164-168 | A plain component and dot-dot behind a path lead back, unless the path is good and already has 49 components |
| Canonical.PlainGoesDown | hexahedron/fs/vfs_new.c:166-184 | A plain component behind a path goes to its end, or is an error at 50 components or without a spare byte |
| Canonical.DotDotGoesUp | hexahedron/fs/vfs_new.c:164-165 | Dot-dot behind a path takes its last component away; the root stays the root |
| Canonical.RootIsItsParent | hexahedron/fs/vfs_new.c:164-165 | Dot-dot at the root stays there, and what follows is taken from the root |
| Canonical.NameInDirectory | hexahedron/fs/vfs_new.c:145-194 | A plain name in a working directory is the directory's canonical path with the name at its end |
| Canonical.PlainPath | hexahedron/fs/vfs_new.c:145-194 | A path of plain components is its own canonical form, or is an error at 50 components or without a spare byte |

## Left out

- Pmm.Section.AllocatePage: when no page is free it says that none of the section is returned, not what the code does past a failed assertion or with a block outside the section.
- Pmm.AllServedIff: callers of the single-page allocation only.
- SlabLists.SlabCache.FreeSlow: is given the object's slab; when the mask at line 326 finds it is stated in `SlabLookup.LookupRightIff`.
- SlabProtocol.UnmapInv: in the step machine a free slab may be unmapped at any time, which allows more runs than the code; the exact choice is in `SlabLists.SlabCache.Trim`.
- XArray.XArray.Store: after a first store into an empty array at an index above XA_MASK it says which next stores assert, not what the others do to the array.
- Virtqueue.Queue.Pop: the length the device reports for a used buffer is not modelled.
- SlabLists.SlabCache.SlabNew: the freelist is a sequence of objects, which is what the links inside the objects amount to when objects have at least 8 bytes; see `SlabLookup.LinksApartIff`.
- SlabLists.SlabCache.constructor: object sizes, alignment and magazines of a new cache are not part of it.
- DirtyList.PageCache.constructor: places all pages of a cache at once.
- DirtyList.PageCache.WriteBatch: every write succeeds, as the code asserts.
- TimerQueue.TimerDevice.Insert: a timer that is already queued, which the code would link a second time, is not inserted.
- TimerQueue.TimerDevice.Remove: one device; a timer is removed on the CPU whose device queues it, although the code takes whichever device is the current CPU's.
- TimerSpec.RunRightIff: a run ends with the first removal that goes wrong; a timer that is queued is not inserted again, and the hardware counts no further than it was armed for.
- WaitQueueProtocol.WakeupCall: counts of threads do not overflow.
- The return codes of waits that end by a timeout or a signal.
- VmList.Space.Map: leaves out fixed and replacing mappings, page backing and usage metrics.
- VmList.Space.Create: always makes a new record; the bitmap of recycled records is represented only by the stale backing it can leave.
- DirtyList.PageCache.SyncInner: every write succeeds, as the code asserts, and no page is dirtied while it runs; the entry of a truncated page, which the code frees, keeps its mark here.
- DirtyList.PageCache.MarkRangeDirty: runs alone; its unlocked first loop is not interleaved with other threads.
- DriverOrder.Solve: file names are distinct.
- The magazine fast path is modelled as atomic steps rather than as a class, since its point is the interleaving.
- Zones and section lists of the page allocator, out-of-memory handling, and the address arithmetic around a block number.
- MMU, page tables, interrupts, context switching: only abstract flags and pages appear.
- Liveness of the semaphore and of the sleeping protocols: only safety is proved.
- Iteration over the sparse array (`xa_find`, `xa_findBackwards`), whose level check is exact only for shallow trees.
- `cache_getRange` and read coherence, eviction, truncation and the pruner of the page cache.
- Slab initializers, deinitializers, the fast-only flag and leak tracing.
- The branch of the canonicalizer that strips a trailing slash, which no input reaches.
- Event flags of the poll protocol are an abstract mask, since two of its constants are defined in files that are not part of this model.
- Device, terminal, video, audio, ELF loading, process execution and the remaining build scripts.
