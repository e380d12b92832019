# A verified model of the DingoCache node storage engine

This project models the storage engine of one cache node and proves what its layers promise
each other. It is written in Dafny 4.11; `dafny verify dfyconfig.toml` checks all of it.

The engine has three layers that share one slot discipline, and two small policies.

- **Slab allocator.** Fixed-size slots in equal extents, found through an open-addressing
  index, recycled through free lists, swept by CLOCK per size class and by age globally,
  pinned by holders and protected by retention deadlines. `Lifecycle` says what clients may
  see: a view of residents and the events that change it. `SlabPool`, `SlabInvariant`,
  `SlabKeeps`, `SlabFacts` and `SlabShape` hold the tables, the one invariant that ties every
  counter, list and ring to the residents, and the proof that each primitive change keeps it.
  `SlabAllocator` is the class with the methods of the source; each method is proved to be
  one event on the view. `FlatKeyIndex`, `SweepRing`, `FreeLists`, `ClockSweep`,
  `ColdSweep`, `StealOrder`, `RoomOrder`, `SizeClasses`, `RestoreBulk`, `Wheel`, `RetentionDrain` and
  `RetentionRun` are its parts, each proved against what the allocator needs from it.
- **Disk store.** A PUT reserves and pins under the lock, writes without it, and commits under
  it again, while reads, removals and background eviction interleave. `DiskStore` is the state
  machine of these steps over slot bytes, table records and maps; `DiskStoreSafety` proves its
  invariant over every interleaving and the results for readers; `DiskRemoval` and
  `DiskRetention` say what a removal and a retention guarantee over whole runs; `DiskSections` and
  `PayloadIndex` are the critical sections in the form of the source, on a slab allocator,
  proved to be enabled steps. `RecordCodec` and `SparseScan` are the record format and the
  scan, `Rebuild` the scan and bulk restore of an open, and `Restart` the life of a node with
  crashes and the clean and dirty epoch.
- **RAM tier.** A write-back tier with flush pins, read pins, hidden reservations, cancellation
  and a byte budget. `RamTier` is the state machine of its lock sections, `RamShard` the
  sections as methods, `RamOwnership` who owns an unflushed value, `RamAnswers`,
  `RamWaiters` and `RamRetries` what the answer of a PUT is worth, `RamBudget` the
  conservation of its counters, `RemoveFence`, `RemovalFinality` and `RemovalWait` what a
  removal from both tiers guarantees.
- **Policies.** Tenant quota of a batch of PUTs (`BatchAdmission` the decisions,
  `BatchAgreement` against single PUTs, `BatchDisks` the disks) and `DemandLatch`.

Things outside the engine are inputs: I/O outcomes are booleans chosen by an adversary, the
hash, the CRC, the routing function and the floating-point division of a slot size are
arbitrary functions, time is an argument, and callbacks of the allocator ask an oracle.

## What turned out to be false

- A wheel that is configured before the ninth second of its clock can leave a protection
  overdue by ten seconds and more. `OverdueOnlyWhenEarly` gives the exact condition and
  `EarlyWheelMisses` the run: configured at second 1, restored with one second to go, still
  protected after an expiry at second 25. A restore asks for no budget. A wheel configured
  while something is protected loses it (`ReconfiguringLoses`).
- An active demand latch does not imply remembered pressure; `RemembersUnlessEmptied` says
  exactly when it does.
- A batch and the same PUTs made one by one can differ once lengths overflow 64 bits, in two
  ways: `OverflowHidesDuplicate` is a batch that refuses what single PUTs accept, and
  `CutSumAccepted` one that accepts what they refuse and goes past the limit. `BatchAgrees`
  says exactly which batches answer alike, and `LimitBinds` which limits always hold.
- A removal that answers not-found is not always final. `FinalUnlessAwaited` says exactly when
  it is, and `OutrunHappens` and `OutrunRun` are the run in which the key comes back.
- The header of the allocator describes size classes made on demand; the model follows the
  fixed lattice that the constructor builds.
- Three pieces of code are unreachable, which the proofs show: the fallback after the CLOCK
  loop of an eviction, the last return of the search for an unbound extent, and the return
  after the probe loop of an index insert.


## Model

| member | source | states |
|---|---|---|
| `Lifecycle.ResidentsDisjoint` | src/cache/slab_allocator.cc:811-819 | Two residents never share a byte: slots of one extent are equal and apart, slots of different extents cannot overlap. |
| `Lifecycle.PinnedStays` | src/cache/slab_allocator.cc:889-936 | Over any run of allocator events, a resident whose pins outnumber its unpins stays on its slot, and its pin count is exactly pins minus unpins. |
| `Lifecycle.PinnedSlotExclusive` | src/cache/slab_allocator.cc:618-657 | While a resident is pinned no other key is ever placed on bytes of its slot. |
| `Lifecycle.PendingFreedAtLastUnpin` | src/cache/slab_allocator.cc:874-913 | A removal of a pinned key frees the slot exactly at the last unpin of the run, never earlier and never later. |
| `Lifecycle.PendingHidden` | src/cache/slab_allocator.cc:874-898 | From the moment such a removal returns until the slot is freed no event can pin, retain or insert the key. |
| `Lifecycle.RetainedStays` | src/cache/slab_allocator.cc:1015-1023 | A retained resident survives every capacity eviction of a run until its deadline or an explicit removal, on the same slot and with a deadline that never moves back. |
| `DiskStore.PwriteSlice` | src/cache/disk_slab_store.cc:1094-1111 | A payload write is read back through its own slot and is invisible through every slot that does not overlap it. |
| `DiskStoreSafety.ReserveKeeps` | src/cache/disk_slab_store.cc:1194-1223 | The reservation section of a PUT keeps the whole store invariant, whatever it evicts. |
| `DiskStoreSafety.WriteKeeps` | src/cache/disk_slab_store.cc:1226-1229 | The unlocked payload write, torn or complete, keeps the invariant: it touches no reader's and no committed key's bytes. |
| `DiskStoreSafety.RecordKeeps` | src/cache/disk_slab_store.cc:1068-1092 | The record write of a PUT keeps the invariant. |
| `DiskStoreSafety.CommitKeeps` | src/cache/disk_slab_store.cc:1231-1249 | The commit section keeps the invariant in all its cases: published, rolled back, or overtaken by a removal. |
| `DiskStoreSafety.AcquireKeeps` | src/cache/disk_slab_store.cc:1673-1684 | Acquiring a key for a read keeps the invariant. |
| `DiskStoreSafety.ReleaseKeeps` | src/cache/disk_slab_store.cc:1686-1708 | Releasing a hold keeps the invariant, also when it executes a deferred removal or that removal's record write fails. |
| `DiskStoreSafety.RemoveKeeps` | src/cache/disk_slab_store.cc:1787-1808 | A removal keeps the invariant, deferred or not. |
| `DiskStoreSafety.ReclaimKeeps` | src/cache/disk_slab_store.cc:1844-1900 | Background eviction keeps the invariant. |
| `DiskStoreSafety.RetainKeeps` | src/cache/disk_slab_store.cc:1639-1659 | A retention grant keeps the invariant. |
| `DiskStoreSafety.StepKeeps` | src/cache/disk_slab_store.cc:1175-1250 | Every step of every actor keeps the invariant. |
| `DiskStoreSafety.EmptyOk` | src/cache/disk_slab_store.cc:769-792 | A new store satisfies the invariant. |
| `DiskStoreSafety.ExecutionKeeps` | src/cache/disk_slab_store.cc:1167-1174 | The invariant holds in every state of every interleaving. |
| `DiskStoreSafety.ReaderSeesCommittedBytes` | src/cache/disk_slab_store.cc:1669-1684 | In every interleaving a reader sees, from acquire to release, exactly the bytes of the PUT that had committed its key, on the slot it acquired. |
| `DiskStoreSafety.WritersAvoidReaders` | src/cache/disk_slab_store.cc:1167-1174 | No PUT in progress writes to bytes of a slot that a reader holds. |
| `DiskStoreSafety.OnlyCommitsPublish` | src/cache/disk_slab_store.cc:1236-1246 | A key becomes readable only by the commit section of its own PUT. |
| `DiskStoreSafety.ValuesComeFromCommits` | src/cache/disk_slab_store.cc:1236-1246 | The value promised to readers changes only when a PUT commits, to that PUT's bytes. |
| `DiskStoreSafety.ResidentsExact` | src/cache/disk_slab_store.cc:1194-1223 | On a healthy store the allocator's residents are exactly the committed, the being-written and the deferred-removal keys, and each one's pin count is its in-flight count. |
| `DiskRemoval.StepBarred` | src/cache/disk_slab_store.cc:1793-1801 | Every step but a new reservation keeps a removed key barred: not committed, and not to be published by a PUT still in flight. |
| `DiskRemoval.RemovedIsUnreadable` | src/cache/disk_slab_store.cc:1787-1808 | Over every run, after a removal that found its key on a healthy store nobody can acquire the key until a PUT reserved after the removal has committed it. |
| `DiskRemoval.RemovedIsGone` | src/cache/disk_slab_store.cc:1686-1708 | When every reader and PUT that held the key at the removal has given it back, slot and record of the key are gone on a healthy store, unless the key was reserved anew after they had gone. |
| `DiskRetention.RetainGrants` | src/cache/disk_slab_store.cc:1639-1659 | A retention step is the allocator's retain event and keeps the key's record. |
| `DiskRetention.RetainedOutlives` | src/cache/disk_slab_store.cc:1844-1900 | Over every run a retained key stays committed on its slot through every PUT, reclaim and sweep until it is removed or an expiry reaches its deadline. |
| `DiskSections.Sections.Reserve` | src/cache/disk_slab_store.cc:1183-1222 | A committed key is kept, a key being written is followed, a key whose removal is deferred is waited for; otherwise the allocator places and pins the value and the section is an enabled reservation step on a slot of the lattice, or a failed one that evicted nothing. |
| `DiskSections.Sections.AcquireForRead` | src/cache/disk_slab_store.cc:1673-1684 | The acquire section, with its pin in the allocator, is the acquire step, and succeeds exactly for a committed, visible key on a healthy store. |
| `DiskSections.Sections.ReleaseInflight` | src/cache/disk_slab_store.cc:1686-1708 | The release section is the release step, with its answer. |
| `DiskSections.Sections.Finish` | src/cache/disk_slab_store.cc:1231-1249 | The last section of a PUT leader is the commit step, and success without a removal means the key is published with its length. |
| `DiskSections.Sections.Remove` | src/cache/disk_slab_store.cc:1787-1808 | The removal section, deferred or carried out in table and allocator, is the removal step, and finds exactly the visible keys of a healthy store. |
| `DiskSections.Sections.SweepToWatermark` | src/cache/disk_slab_store.cc:1866-1880 | The watermark sweep of the allocator, with the commit map following, is an enabled reclaim step. |
| `DiskSections.Sections.ReclaimClass` | src/cache/disk_slab_store.cc:1945-1954 | So is a batch of class reclaim. |
| `DiskSections.Sections.Rebalance` | src/cache/disk_slab_store.cc:1926-1932 | So is a rebalancing steal. |
| `PayloadIndex.CommitMap.Commit` | src/cache/disk_slab_store.cc:1113-1131 | Commit keeps the byte total and every tenant's counter equal to the sums over the commit map. |
| `PayloadIndex.CommitMap.Erase` | src/cache/disk_slab_store.cc:1133-1148 | Erasing keeps the same counters exact and reports the bytes that left. |
| `PayloadIndex.CommitMap.EraseAll` | src/cache/disk_slab_store.cc:1220-1221 | The loop over evicted keys erases exactly them and reports exactly the bytes they held. |
| `Rebuild.Reads` | src/cache/disk_slab_store.cc:862-908 | A position of a file that encodes a table reads as its valid record, or as nothing. |
| `Rebuild.ScanLists` | src/cache/disk_slab_store.cc:997-1015 | Scanning a file that encodes a table finds its valid records, each once, and rejects nothing. |
| `Rebuild.AcceptedIsAcceptable` | src/cache/disk_slab_store.cc:1031-1032 | Whether a new allocator accepts a batch depends only on the layout. |
| `Rebuild.SlottedFits` | src/cache/slab_allocator.cc:467-499 | An entry on a slot of the lattice fits. |
| `Rebuild.RestoredAt` | src/cache/slab_allocator.cc:505-550 | Every entry of a batch without repeated keys is resident with its own metadata. |
| `Rebuild.RestoredOnly` | src/cache/slab_allocator.cc:505-550 | Nothing else is. |
| `Rebuild.FileExists` | src/cache/disk_slab_store.cc:1068-1092 | Every table whose fields are in range is encoded by some file. |
| `Rebuild.RebuildTable` | src/cache/disk_slab_store.cc:997-1037 | Scan and bulk restore into a new allocator: it fails exactly when the found records do not fit together; otherwise the allocator shows exactly the restored residents. |
| `Restart.FoundAccepted` | src/cache/disk_slab_store.cc:1031-1032 | The allocator accepts the records of a preserved snapshot. |
| `Restart.ReopenedServes` | src/cache/disk_slab_store.cc:816-1052 | Opening the files of a snapshot rejects nothing, is accepted by the allocator, and serves exactly the snapshot: keys, slots, lengths and bytes. |
| `Restart.ClosedPreserves` | src/cache/disk_slab_store.cc:804-814 | A quiescent healthy store that synced its payloads and table leaves an image that preserves what was committed. |
| `Restart.EventKeeps` | src/cache/disk_slab_store.cc:720-767 | Every event of a node's life, including a crash between any two, keeps the relation between image, epoch and what is due. |
| `Restart.HistoryKeeps` | src/cache/disk_slab_store.cc:769-807 | That relation holds after every history of starts, steps, shutdowns and crashes. |
| `Restart.OpenExact` | src/cache/disk_slab_store.cc:262-267 | Every open of every history succeeds and serves exactly what is due: the snapshot of a clean shutdown, or nothing. |
| `Restart.CleanRestart` | src/cache/disk_slab_store.cc:816-1052 | After a clean shutdown the next open succeeds, and its store has exactly the committed keys with their slots, lengths and bytes. |
| `Restart.OpenPossible` | src/cache/disk_slab_store.cc:997-1037 | What an orderly shutdown leaves, or an empty table, always has a table file to open, if the keys fit their fields. |
| `Restart.DirtyRestart` | src/cache/disk_slab_store.cc:769-792 | After any run that did not reach the clean mark the next open succeeds with an empty store. |
| `RecordCodec.RoundTrip` | src/cache/disk_slab_store.cc:1068-1092 | A record written for a slot parses back field by field: restored when valid and fitting, skipped when invalidated, rejected when its geometry no longer fits. |
| `RecordCodec.OnlyIntactIsRestored` | src/cache/disk_slab_store.cc:868-908 | Whatever the bytes, an entry is restored only from a valid record with the magic and the right checksum that fits its position, and equals that record field by field. |
| `RecordCodec.BodyFields` | src/cache/disk_slab_store.cc:1068-1092 | Every field of a record is at its own offset and reads back. |
| `RecordCodec.ZerosAreNothing` | src/cache/disk_slab_store.cc:868-874 | A record that reads as zeros contributes nothing. |
| `RecordCodec.PositionRoundTrip` | src/cache/disk_slab_store.cc:862-867 | Table positions and record numbers correspond one to one. |
| `SparseScan.ReadsBack` | src/cache/disk_slab_store.cc:862-908 | A table of encoded and cleared records reads back, record by record, as what was written. |
| `SparseScan.ScanRange` | src/cache/disk_slab_store.cc:910-934 | The chunked scan of a range extends the sequential result by exactly that range. |
| `SparseScan.SparseWalk` | src/cache/disk_slab_store.cc:941-992 | The SEEK_DATA/SEEK_HOLE walk terminates, reads no record twice and misses none that holds anything, and yields the restore and rejected lists of the full scan, in its order, for every hole map in which holes read as zero. |
| `SparseScan.Scan` | src/cache/disk_slab_store.cc:994-1015 | A file system that rejects any seek costs a fresh sequential pass, never a different result. |
| `FlatKeyIndex.FlatKeyIndex.Find` | src/cache/slab_allocator.cc:37-48 | Find returns the bucket of a key exactly when the finite map contains it. |
| `FlatKeyIndex.FlatKeyIndex.Probe` | src/cache/slab_allocator.cc:37-48 | Probing ends at the key, at an empty bucket or after one lap, and a miss means the key is absent. |
| `FlatKeyIndex.FlatKeyIndex.Insert` | src/cache/slab_allocator.cc:83-109 | Insert updates the finite map at the key, reports whether the key is new, and never fails for an absent key. |
| `FlatKeyIndex.FlatKeyIndex.Erase` | src/cache/slab_allocator.cc:111-128 | Erase removes the key from the finite map and reports whether it was there. |
| `FlatKeyIndex.FlatKeyIndex.Reserve` | src/cache/slab_allocator.cc:72-81 | Reserve keeps the finite map and leaves room: keys expected plus tombstones stay within seven tenths of the capacity. |
| `FlatKeyIndex.FlatKeyIndex.Rehash` | src/cache/slab_allocator.cc:55-70 | Rehash keeps the finite map and drops all tombstones. |
| `FlatKeyIndex.FlatKeyIndex.Vacancy` | src/cache/slab_allocator.cc:91-107 | A new key goes to the first unoccupied bucket of its probe, which always exists. |
| `FlatKeyIndex.FlatKeyIndex.FreeBucket` | src/cache/slab_allocator.cc:62-65 | The probe of a rehash always ends at a free bucket. |
| `FlatKeyIndex.FlatKeyIndex.Compact` | src/cache/slab_allocator.cc:55-66 | Moving the occupied entries to a fresh table preserves the finite map. |
| `FlatKeyIndex.FlatKeyIndex.Size` | src/cache/slab_allocator.h:372-372 | The size counter is the size of the finite map, and with the tombstones stays below the capacity. |
| `FlatKeyIndex.PlaceKey` | src/cache/slab_allocator.cc:95-103 | Storing a key in a bucket its probe reaches keeps keys unique and every probe path unbroken. |
| `FlatKeyIndex.EraseKey` | src/cache/slab_allocator.cc:118-124 | A tombstone breaks no other key's probe path. |
| `FlatKeyIndex.ProbeMisses` | src/cache/slab_allocator.cc:41-47 | A probe that met an empty bucket or went all around has seen every bucket its key could be in. |
| `SweepRing.SweepRing.LinkBeforeHand` | src/cache/slab_allocator.cc:293-324 | Linking before the hand appends to the sweep order. |
| `SweepRing.SweepRing.Unlink` | src/cache/slab_allocator.cc:566-586 | Unlinking removes the element from the sweep order and never leaves the hand on it. |
| `SweepRing.SweepRing.Touch` | src/cache/slab_allocator.cc:374-411 | A read moves its element to the end of the sweep order, with or without the behind-hand shortcut. |
| `SweepRing.SweepRing.Advance` | src/cache/slab_allocator.cc:626-629 | Moving the hand rotates the sweep order by one. |
| `SweepRing.LinkOutSweep` | src/cache/slab_allocator.cc:566-586 | Taking an element out of the list takes it, and nothing else, out of the order read from the hand with wrap-around. |
| `SweepRing.BehindHand` | src/cache/slab_allocator.cc:380-384 | The shortcut test holds only for the last element of the sweep. |
| `SizeClasses.CanonicalSlotSize` | src/cache/slab_allocator.cc:243-269 | The loop computes the canonical size function, whatever the floating-point division yields. |
| `SizeClasses.BuildClasses` | src/cache/slab_allocator.cc:148-165 | The constructor builds exactly the lattice: alignment first, each size the next of the one before, the largest aligned size last. |
| `SizeClasses.NextFacts` | src/cache/slab_allocator.cc:152-162 | Each next size is larger, aligned, at most the largest, and within the waste bound of the shortest length that needs it. |
| `SizeClasses.NextIsWidest` | src/cache/slab_allocator.cc:257-265 | A step of the lattice is the largest one: any aligned size beyond it is too wide for the shortest length the previous class does not serve. |
| `SizeClasses.AlignUpHolds` | src/cache/slab_allocator.cc:15-19 | Rounding up gives the least aligned size that is large enough. |
| `SizeClasses.ClassForExactSize` | src/cache/slab_allocator.cc:275-280 | Finds the first class of exactly the given size, or none. |
| `SizeClasses.ClassForLen` | src/cache/slab_allocator.cc:271-273 | A length has a class exactly when it does not exceed the largest one, and that class holds it. |
| `SizeClasses.CanonicalIsSmallestClass` | src/cache/slab_allocator.cc:244-247 | The canonical size of a length is the smallest class that holds it. |
| `SizeClasses.CanonicalHolds` | src/cache/slab_allocator.cc:254-265 | It is aligned, at least the length, within an extent and 32 bits, and wastes at most the bound, up to how far the floating-point division rounds up. |
| `SizeClasses.CanonicalMonotone` | src/cache/slab_allocator.cc:243-269 | Longer values never get smaller slots. |
| `SizeClasses.CanonicalIdempotent` | src/cache/slab_allocator.cc:243-269 | The canonical size of a canonical size is itself, and is a class. |
| `SizeClasses.FixedPointsAreClasses` | src/cache/slab_allocator.cc:469-472 | The sizes a restore accepts are exactly the classes. |
| `SizeClasses.TooLongHasNoClass` | src/cache/slab_allocator.cc:264-266 | A length beyond the lattice is returned unchanged and matches no class. |
| `SizeClasses.Configured` | src/cache/slab_allocator.cc:141-147 | Every configuration gives a usable geometry: a positive alignment and a waste bound below one. |
| `FreeLists.PushFacts` | src/cache/slab_allocator.cc:181-187 | Pushing lists exactly one more slot and keeps the rotation exact. |
| `FreeLists.PopFacts` | src/cache/slab_allocator.cc:189-206 | Popping takes the last free slot of the extent whose turn it is and keeps the rotation exact. |
| `FreeLists.PopsInTurn` | src/cache/slab_allocator.cc:189-206 | While no extent runs out, allocations go around the rotation in order. |
| `FreeLists.Striped` | src/cache/slab_allocator.cc:189-206 | Up to one lap, consecutive allocations land on different extents. |
| `FreeLists.TakeFacts` | src/cache/slab_allocator.cc:219-233 | Taking a given slot removes exactly that slot from the list. |
| `FreeLists.DropExtentFacts` | src/cache/slab_allocator.cc:235-241 | Dropping an extent removes exactly its free slots from the class. |
| `FreeLists.DropFacts` | src/cache/slab_allocator.cc:208-217 | Dropping an extent from the rotation takes out that extent and no other. |
| `FreeLists.DropRotation` | src/cache/slab_allocator.cc:208-217 | The search loop of the rotation drop computes the specified rotation and turn. |
| `FreeLists.Carve` | src/cache/slab_allocator.cc:440-443 | The loop over a newly bound extent lists every slot exactly once, in ascending order, and the extent joins the rotation as the last. |
| `SlabFacts.SlotsPartitioned` | src/cache/slab_allocator.cc:181-241 | The slots of a bound extent split exactly into its free list and its residents, and free_slots plus resident_count is the number of slots. |
| `SlabFacts.SoundIsLaid` | src/cache/slab_allocator.cc:811-819 | Residents' byte ranges lie inside their extents and are disjoint. |
| `SlabKeeps.InstallKeeps` | src/cache/slab_allocator.cc:811-843 | Installing a resident keeps the partition, the rings and lists, and every counter exact. |
| `SlabKeeps.VacateKeeps` | src/cache/slab_allocator.cc:554-606 | Freeing a resident keeps them all. |
| `SlabKeeps.ReviseKeeps` | src/cache/slab_allocator.cc:889-913 | Pins, pending marks, deadlines and access times change with the counters that depend on them. |
| `SlabKeeps.BindKeeps` | src/cache/slab_allocator.cc:423-444 | Binding an extent keeps them all. |
| `SlabKeeps.ReleaseKeeps` | src/cache/slab_allocator.cc:608-615 | Returning an empty extent keeps them all. |
| `SlabKeeps.SweepKeeps` | src/cache/slab_allocator.cc:626-640 | A sweep that moves the hand and takes reference bits keeps them all. |
| `SlabFacts.FreeKeeps` | src/cache/slab_allocator.cc:554-616 | Freeing a slot, with the return of an emptied extent, keeps them all and removes exactly that key. |
| `SlabFacts.TouchKeeps` | src/cache/slab_allocator.cc:368-421 | A read keeps them all and changes nothing a client sees. |
| `SlabFacts.FreedRoom` | src/cache/slab_allocator.cc:607-615 | A class short of stripes keeps the extent it frees a slot in; an extent is given back exactly when it loses its last resident and more than eight extents would have a free slot. |
| `SlabFacts.StealEvictable` | src/cache/slab_allocator.cc:665-668 | In an extent whose pinned and protected counters are zero every resident may be evicted: the counters are exact. |
| `SlabAllocator.SlabAllocator.constructor` | src/cache/slab_allocator.cc:141-165 | A new allocator is sound, empty, and has the complete class lattice. |
| `SlabAllocator.SlabAllocator.FreeSlot` | src/cache/slab_allocator.cc:554-616 | Frees exactly one resident and keeps the allocator valid. |
| `SlabAllocator.SlabAllocator.Touch` | src/cache/slab_allocator.cc:368-421 | A read moves the key to the end of both orders and keeps the least-recently-used order. |
| `SlabAllocator.SlabAllocator.Get` | src/cache/slab_allocator.cc:846-853 | Returns the slot of a visible key, which becomes the most recent in both orders and is marked as used; otherwise changes nothing. |
| `SlabAllocator.SlabAllocator.GetAndPin` | src/cache/slab_allocator.cc:855-866 | Returns and pins the slot of a visible key, which becomes the most recent one and is marked as used. |
| `SlabAllocator.SlabAllocator.Pin` | src/cache/slab_allocator.cc:889-898 | Succeeds exactly for a visible key and is the pin event. |
| `SlabAllocator.SlabAllocator.Unpin` | src/cache/slab_allocator.cc:900-913 | Succeeds exactly for a pinned key, is the unpin event, and frees a pending key at its last pin. |
| `SlabAllocator.SlabAllocator.Remove` | src/cache/slab_allocator.cc:874-887 | Frees an unpinned key, hides a pinned one, and reports which. |
| `SlabAllocator.SlabAllocator.Sweep` | src/cache/slab_allocator.cc:618-640 | A sweep stops at the second-chance choice, or finds none; the hand ends behind it, and exactly the candidates it passed lost their reference bit. |
| `ClockSweep.SweepClass` | src/cache/slab_allocator.cc:622-640 | The CLOCK loop stops at the first unused candidate in sweep order, or at the first candidate when all were used; the order is turned to just behind it, exactly the candidates before it lost their bit, or all of them if all were used; two laps always decide, so the fallback after the loop never runs. |
| `ClockSweep.NoSecondChance` | src/cache/slab_allocator.cc:626-640 | A candidate that one eviction passed and nobody used since is not passed by the next one, whatever was inserted meanwhile. |
| `SlabAllocator.SlabAllocator.EvictOne` | src/cache/slab_allocator.cc:618-656 | Evicts the second-chance choice after making it durable, and wipes its record and no survivor's. The next sweep starts behind it, and only the candidates passed lost their bit. The class gains a free slot or gives an extent back; one short of slots keeps the extent. |
| `SlabAllocator.SlabAllocator.BindExtent` | src/cache/slab_allocator.cc:423-444 | Binds an unbound extent after wiping its records, or changes nothing. |
| `SlabAllocator.SlabAllocator.BindFreeExtent` | src/cache/slab_allocator.cc:446-453 | Is unavailable exactly when no extent is unbound. |
| `SlabAllocator.SlabAllocator.EmptyExtent` | src/cache/slab_allocator.cc:725-731 | Forgets every resident of the extent and nothing else. |
| `SlabAllocator.SlabAllocator.ClearExtent` | src/cache/slab_allocator.cc:725-737 | Leaves the extent unbound, whether or not the last resident already gave it back. |
| `StealOrder.StealsTransitive` | src/cache/slab_allocator.cc:353-366 | The steal order, which compares means by cross-multiplication, is transitive. |
| `StealOrder.StealsByMean` | src/cache/slab_allocator.cc:353-366 | The steal order means: empty extents first, then the smaller mean of last uses, then less read heat, then fewer useful bytes. |
| `StealOrder.HeatHalves` | src/cache/slab_allocator.cc:342-347 | Read heat halves every 64 operations. |
| `StealOrder.ReadHeats` | src/cache/slab_allocator.cc:414-418 | A read adds 1024 to what is left of its extent's heat and to no other. |
| `StealOrder.PickExtent` | src/cache/slab_allocator.cc:661-674 | One pass finds a candidate that no other candidate precedes, or reports that there is none. |
| `StealOrder.PickStealable` | src/cache/slab_allocator.cc:661-674 | Finds a stealable extent that no stealable extent precedes, or none exists. |
| `StealOrder.PickCold` | src/cache/slab_allocator.cc:684-705 | Finds a cold extent that no cold extent precedes in the order of cold steals, or none exists. |
| `StealOrder.PickMovable` | src/cache/slab_allocator.cc:750-759 | Finds a movable extent of the donor that no movable one precedes, or none exists. |
| `SlabAllocator.SlabAllocator.StealExtent` | src/cache/slab_allocator.cc:712-742 | Refuses an extent with a pinned or protected resident; otherwise wipes it before forgetting any resident, evicts exactly its residents and leaves the target class a free slot. |
| `SlabAllocator.SlabAllocator.StealExtentFor` | src/cache/slab_allocator.cc:658-676 | Steals an extent that no other stealable extent precedes; unavailable exactly when none is stealable. |
| `SlabAllocator.SlabAllocator.StealColdExtentFor` | src/cache/slab_allocator.cc:678-710 | Steals the first in the cold order of the extents whose youngest insert is older than the window; unavailable exactly when there is none. |
| `SlabAllocator.SlabAllocator.ColdMeans` | src/cache/slab_allocator.cc:680-692 | An extent is cold exactly if it is occupied, can be stolen, and more inserts than the window came after its youngest. |
| `SlabAllocator.SlabAllocator.StealFrom` | src/cache/slab_allocator.cc:744-763 | Moves the extent of the donor that the steal order puts first, evicting exactly its residents; with reliable callbacks it fails only when the donor has no movable extent. |
| `SlabAllocator.SlabAllocator.BindStripes` | src/cache/slab_allocator.cc:788-793 | Binds until eight extents have free slots or none is unbound, and none beyond the eighth; evicts nothing, and leaves the class without a slot only when nothing could be bound. |
| `SlabAllocator.SlabAllocator.GrowRoom` | src/cache/slab_allocator.cc:795-803 | Takes an extent of a class above the stripe floor, else a cold one; unavailable exactly when neither exists. |
| `SlabAllocator.SlabAllocator.TakeRoom` | src/cache/slab_allocator.cc:804-808 | Evicts the one second-chance choice of the class, and takes an extent of another class only if the class has no candidate. |
| `SlabAllocator.SlabAllocator.MakeRoom` | src/cache/slab_allocator.cc:795-808 | With reliable callbacks it makes a free slot exactly when something may be evicted for the class, and evicts the victims of the first choice that is open: an extent of a class above the stripe floor, a cold extent, one resident by second chance, any extent. |
| `SlabAllocator.SlabAllocator.Round` | src/cache/slab_allocator.cc:786-808 | A round that makes room leaves the class a free slot and no extent unbound; a round that starts so finds the slot. |
| `SlabAllocator.SlabAllocator.FindSlot` | src/cache/slab_allocator.cc:786-809 | The retry loop runs at most twice, a failure has evicted nothing, and with reliable callbacks it fails exactly when there is no free slot, no unbound extent and nothing to evict, and otherwise evicts the victims of the first open choice. |
| `SlabAllocator.SlabAllocator.Install` | src/cache/slab_allocator.cc:811-843 | The key becomes resident on the slot whose turn it is, as the newest of its extent and the last in both orders. |
| `SlabAllocator.SlabAllocator.ClassFor` | src/cache/slab_allocator.cc:779-784 | A class is found exactly for a storable length, and it is the class of the canonical size. |
| `SlabAllocator.SlabAllocator.Put` | src/cache/slab_allocator.cc:765-844 | A resident key keeps its slot; a new key is inserted on a free slot of its canonical size, apart from every other and acceptable to a later restore, while only evictable residents leave, their records and no others wiped; a failure evicts nothing and, with reliable callbacks, happens exactly when no class holds the value or the class is stuck. What a new key evicts is fixed by the state before: nothing if there is a free slot or an unbound extent, else the residents of the first extent in steal order for a class below the stripe floor, else of the first cold extent, else the one second-chance choice of the class, else of any first extent. A resident key is marked as used. |
| `SlabAllocator.SlabAllocator.ReclaimClass` | src/cache/slab_allocator.cc:980-995 | Evicts only evictable residents, at most the given number, never past the target number of free slots, and none while an extent is unbound; with callbacks that succeed it stops short of both numbers only when no resident of the class is evictable or an extent is unbound. |
| `SlabAllocator.SlabAllocator.EvictGlobal` | src/cache/slab_allocator.cc:1029-1043 | Makes one eviction durable by the extent or the slot callback and evicts exactly that key; it succeeds whenever a reliable slot callback is there or none is needed. |
| `SlabAllocator.SlabAllocator.ColdStep` | src/cache/slab_allocator.cc:1011-1043 | One step of the global sweep takes the element under the hand, passes it when held or protected, or stops with nothing changed. |
| `SlabAllocator.SlabAllocator.EvictColdToTarget` | src/cache/slab_allocator.cc:997-1046 | It evicts a prefix of what may be evicted in global order, with nothing held the front of that order, and never one more than the target needs; when every eviction can be made durable it stops only at the target, at the limit, after the last candidate, or when more than three times the limit is held or protected. |
| `ColdSweep.SweptNext` | src/cache/slab_allocator.cc:1006-1044 | Each step takes the next candidate or passes what is held; after one lap only the latter is left. |
| `ColdSweep.SweptPrefix` | src/cache/slab_allocator.cc:1006-1044 | What a sweep evicted is a prefix of the candidates in order, and short of all of them every step was an eviction or a pass. |
| `SlabShape.FrontIsOldest` | src/cache/slab_allocator.cc:1024-1026 | The front of the global order is the least recently accessed: no survivor was accessed before an evicted one. |
| `SlabShape.TouchLru` | src/cache/slab_allocator.cc:396-411 | A read keeps the global order sorted by access. |
| `SlabShape.InstallLru` | src/cache/slab_allocator.cc:836-841 | An insert keeps it sorted. |
| `SlabShape.FreeLru` | src/cache/slab_allocator.cc:578-586 | A removal keeps it sorted. |
| `RestoreBulk.Validate` | src/cache/slab_allocator.cc:467-499 | Validation accepts a batch exactly when every entry fits and no two entries are in each other's way. |
| `RestoreBulk.InstallKeepsFit` | src/cache/slab_allocator.cc:505-530 | Installing one entry leaves every compatible entry installable. |
| `RestoreBulk.BindKeepsFit` | src/cache/slab_allocator.cc:507-511 | So does binding its extent. |
| `RestoreBulk.ResidentsSlotted` | src/cache/slab_allocator.cc:811-819 | Every slot the allocator hands out is one a later restore accepts. |
| `RestoreBulk.ResidentsAcceptable` | src/cache/slab_allocator.cc:456-499 | Any list of the residents of an allocator is acceptable to a new one of its geometry. |
| `RestoreBulk.RestoredDeadline` | src/cache/slab_allocator.cc:530-548 | A restored protection ends with the persisted deadline or its lifetime from now, whichever comes first; a passed one does not come back. |
| `SlabAllocator.SlabAllocator.RestoreOne` | src/cache/slab_allocator.cc:505-550 | An entry that fits is bound, taken and installed without a failure. |
| `SlabAllocator.SlabAllocator.Restore` | src/cache/slab_allocator.cc:456-552 | All or nothing: true exactly for an acceptable batch, and then every entry is resident on its slot; false leaves residents, extents, index and retention unchanged. |
| `SlabAllocator.SlabAllocator.ConfigureRetention` | src/cache/slab_allocator.cc:1111-1123 | Any configuration at any clock; the wheel is in order afterwards exactly when nothing was protected before and, if enabled, the clock had reached its ninth second. |
| `SlabAllocator.SlabAllocator.SetDeadline` | src/cache/slab_allocator.cc:1212-1217 | A moved deadline always gets its wheel entry. |
| `Wheel.Deadline` | src/cache/slab_allocator.cc:1200-1202 | The deadline is the later of the old one and the clock plus the lifetime, short of the end of the clock. |
| `Wheel.Lifetime` | src/cache/slab_allocator.cc:1182-1185 | A refresh renews the stored lifetime, a set can only raise it, and neither passes the cap. |
| `SlabAllocator.SlabAllocator.Grant` | src/cache/slab_allocator.cc:1178-1216 | Denies a new protection exactly when the byte budget or the class cap has no room; a granted one gets its deadline and its lifetime, and is reported as new, raised, extended or unchanged accordingly. |
| `SlabAllocator.ProtectCapIsShare` | src/cache/slab_allocator.cc:1125-1130 | The class cap is the configured share of the class's slots, rounded down. |
| `SlabAllocator.SlabAllocator.Retain` | src/cache/slab_allocator.cc:1157-1231 | A granted request sets the deadline to the later of the old one and the clock plus the lifetime, short of the end of the clock; the lifetime is the stored one for a refresh and the longer of stored and requested for a set, both capped, and is stored for later refreshes. A refresh counts as a read, a set does not. Misses, hits without lifetime and denials are exact, the clock only moves forward, and protected bytes never rise above the budget. |
| `RetentionDrain.DrainBucket` | src/cache/slab_allocator.cc:1247-1267 | Draining a bucket ends exactly due protections whose deadline has not moved and keeps what is not due. |
| `RetentionDrain.DrainTicks` | src/cache/slab_allocator.cc:1246-1268 | The loop over ticks drains the buckets of the model, in order. |
| `SlabAllocator.SlabAllocator.ExpireRetention` | src/cache/slab_allocator.cc:1233-1270 | Ends only protections whose deadline the clock has reached; on a wheel in order nothing protected is overdue by ten seconds or more afterwards, after any stall. |
| `Wheel.DrainEnds` | src/cache/slab_allocator.cc:1240-1246 | One lap visits every bucket, so a drain, skipping or not, leaves no protection in a drained tick. |
| `Wheel.LapHits` | src/cache/slab_allocator.cc:1242-1244 | One lap of the wheel visits the bucket of every tick. |
| `Wheel.ExpireKeeps` | src/cache/slab_allocator.cc:1233-1270 | An expiry keeps the wheel in order and leaves nothing overdue by a whole tick. |
| `Wheel.ConfiguredIsOrdered` | src/cache/slab_allocator.cc:1111-1123 | A configured wheel is in order if and only if nothing is protected yet and, if enabled, the clock has reached its ninth second. |
| `RetentionRun.RunKeeps` | src/cache/slab_allocator.cc:1111-1270 | Over any run of clock moves, restores, grants, expiries, inserts and removals a wheel in order stays in order. |
| `RetentionRun.SetLasts` | src/cache/slab_allocator.cc:1233-1270 | Over every run a key set with a lifetime is released by no expiry before that lifetime is over, whatever else is granted, unless the key goes. |
| `RetentionRun.EarlyWheelMisses` | src/cache/slab_allocator.cc:534-546 | Configured before its ninth second, a wheel leaves a protection restored with one second to go in place at second 25, after an expiry, whatever the budget. |
| `RetentionRun.OverdueOnlyWhenEarly` | src/cache/slab_allocator.cc:1111-1270 | With nothing protected before, some run ends with an expiry that leaves a protection overdue by ten seconds if and only if the wheel is enabled and was configured before its ninth second, for every budget and class cap. |
| `RetentionRun.ReconfiguringLoses` | src/cache/slab_allocator.cc:1120-1121 | A protection that is there when the wheel is configured is left by an expiry ten seconds after its deadline. |
| `Wheel.WheelPushed` | src/cache/slab_allocator.cc:1151-1155 | A new deadline gets its entry in a tick still to come. |
| `RamOwnership.ClaimKeeps` | src/cache/ram_tier.cc:471-510 | Claiming a key keeps the ownership invariant. |
| `RamOwnership.FillArenaKeeps` | src/cache/ram_tier.cc:537-554 | Reserving and pinning an arena slot within the budget keeps it. |
| `RamOwnership.FillLargeKeeps` | src/cache/ram_tier.cc:519-535 | Reserving dedicated memory within both budgets keeps it. |
| `RamOwnership.GiveUpKeeps` | src/cache/ram_tier.cc:561-574 | An admission that found no room keeps it. |
| `RamOwnership.PublishKeeps` | src/cache/ram_tier.cc:588-615 | Publication keeps it: the entry appears with its flush pin and its queue item. |
| `RamOwnership.WithdrawKeeps` | src/cache/ram_tier.cc:611-624 | A canceled or destroyed admission keeps it. |
| `RamOwnership.CancelKeeps` | src/cache/ram_tier.cc:1002-1006 | Canceling an admission in progress keeps it. |
| `RamOwnership.ConcealKeeps` | src/cache/ram_tier.cc:733-740 | A reservation canceled while it was filled keeps it. |
| `RamOwnership.GetKeeps` | src/cache/ram_tier.cc:923-958 | Taking a read pin keeps it. |
| `RamOwnership.ReleaseTokenKeeps` | src/cache/ram_tier.cc:960-973 | Giving a read pin back keeps it, also when it drops the entry. |
| `RamOwnership.ReleaseHeldKeeps` | src/cache/ram_tier.cc:748-771 | So does the end of a published reservation. |
| `RamOwnership.HideKeeps` | src/cache/ram_tier.cc:1009-1027 | Hiding an entry keeps it. |
| `RamOwnership.DequeueKeeps` | src/cache/ram_tier.cc:1091-1110 | Taking a queued entry for flushing keeps it. |
| `RamOwnership.FlushDoneKeeps` | src/cache/ram_tier.cc:1133-1180 | Every outcome of a flush keeps it. |
| `RamOwnership.EvictKeeps` | src/cache/ram_tier.cc:403-411 | Erasing what the allocator evicted keeps it. |
| `RamOwnership.ReclaimLargeKeeps` | src/cache/ram_tier.cc:413-436 | Dropping durable large values to make room keeps it. |
| `RamOwnership.StepKeeps` | src/cache/ram_tier.cc:460-1184 | Every step of every actor keeps it. |
| `RamOwnership.StartOk` | src/cache/ram_tier.cc:72-77 | A new tier satisfies it. |
| `RamOwnership.ExecutionKeeps` | src/cache/ram_tier.cc:460-1184 | It holds in every state of every interleaving. |
| `RamOwnership.UnflushedIsOwnedOnce` | src/cache/ram_tier.cc:923-973 | An entry that is neither durable nor hidden holds its flush pin, and is queued once or owned by one flusher, never both; its slot is pinned once more than it has readers. |
| `RamOwnership.TokenNamesEntry` | src/cache/ram_tier.cc:960-973 | A read token always names the entry it was taken on, so the release never touches an erased entry. |
| `RamOwnership.EvictedIsDurable` | src/cache/ram_tier.cc:403-411 | What the allocator may evict is durable and held by nobody. |
| `RamOwnership.AcknowledgedUntilDurable` | src/cache/ram_tier.cc:588-615 | In every run an acknowledged value is served until its flusher has written it, unless a removal of the key starts or the retries are used up; until then it is always queued once or owned once, whatever late cleanups of older removals do. |
| `RamOwnership.Remove2Waits` | src/cache/ram_tier.cc:1030-1055 | The late cleanup of an old removal leaves a newly acknowledged generation alone. |
| `RamAnswers.StepJudged` | src/cache/ram_tier.cc:438-460 | An outcome once set never changes, and every step that sets one earns it, by publishing a durable value or by landing a written one, or denies it. |
| `RamAnswers.SuccessIsDurable` | src/cache/ram_tier.cc:1141-1158 | Over every run a write-back PUT that is answered success was written to the disk by the flusher of its own generation, which then found it not removed. |
| `RamAnswers.FailureIsExcused` | src/cache/ram_tier.cc:1132-1181 | Over every run an admission that is answered without success was canceled, or gave up for lack of memory, was aborted, hidden by a removal, or out of retries. |
| `RamAnswers.PromotedIfPublished` | src/cache/ram_tier.cc:715-744 | A promotion or reservation is answered success exactly if it was published uncanceled. |
| `RamWaiters.StepAnswers` | src/cache/ram_tier.cc:438-460 | No step forgets a waiter. |
| `RamWaiters.NobodyIsForgotten` | src/cache/ram_tier.cc:450-460 | Over every run a completion without an outcome belongs to an admission in progress, or to an entry that is queued once or owned by one flusher. |
| `RamRetries.StepTried` | src/cache/ram_tier.cc:1160-1164 | Every step keeps the retry counter of a generation equal to its failed writes. |
| `RamRetries.NeverTriedMore` | src/cache/ram_tier.cc:1160-1164 | Over every run no value fails more often than configured. |
| `RamRetries.GivenUpAtLastTry` | src/cache/ram_tier.cc:1160-1181 | After a failed write a value that nobody removed stays visible and queued once exactly if it has tries left. |
| `RamBudget.StepBooks` | src/cache/ram_tier.cc:367-436 | Every step keeps the byte budget equal to the capacities of all entries plus what admissions and canceled reservations hold, and the large and dirty counters exact. |
| `RamBudget.ExecutionBooks` | src/cache/ram_tier.cc:367-436 | In every state of every run the counters are exact and the budgets are not exceeded. |
| `RamBudget.IdleIsZero` | src/cache/ram_tier.cc:394-401 | Nothing leaks: in every run of a new tier, whenever no entry and no admission is left every counter is zero. |
| `RemoveFence.RemovedGenerationIsDead` | src/cache/ram_tier.cc:993-1057 | Once a removal that hid or canceled a generation has seen it done, no later state shows that generation or has a flusher on it, whatever newer generations do. |
| `RemoveFence.RemoveRaisesFence` | src/cache/ram_tier.cc:993-1028 | Unless another removal has hidden the entry and waits for it, the first removal section leaves nobody who could write the key without this removal waiting for it. |
| `RemoveFence.FenceCloses` | src/cache/kv_node_server.cc:1064-1081 | The disk removal of a removal that no longer waits leaves nobody to write the key. |
| `RemoveFence.FinalWhenNotOutrun` | src/cache/ram_tier.cc:993-1057 | A removal that did not meet an entry hidden by another removal and not yet written leaves the key in neither tier for good, whatever it answers. |
| `RemovalFinality.StepDry` | src/cache/ram_tier.cc:488-489 | No step brings a key to the disk while the tier has yet to write it: a write-back admission needs the key off the disk, and a PUT around the tier needs the tier to hold nothing unwritten. |
| `RemovalFinality.SuccessIsFinal` | src/cache/kv_node_server.cc:1064-1081 | A removal that answers success is final. |
| `RemovalFinality.RemovedFromBothTiers` | src/cache/kv_node_server.cc:1064-1081 | In every run of a new tier, a removal from both tiers that answers success leaves the key in neither tier in every later state, with no flusher left to write it, as long as nobody puts or promotes it from the removal's start on. |
| `RemovalFinality.OutrunRun` | src/cache/ram_tier.cc:1008-1008 | A removal that meets an entry hidden by another one and not yet written answers not-found, and the flusher writes the key. |
| `RemovalFinality.FinalUnlessOutrun` | src/cache/ram_tier.cc:1008-1008 | After an answer of success the key never comes back; after not-found a flusher can bring it if and only if the removal started while the entry was hidden and not yet written. |
| `RemovalWait.StepAwaited` | src/cache/ram_tier.cc:993-1036 | Every step keeps this: an entry hidden while a flusher has it belongs to a generation that some removal is still waiting for. |
| `RemovalWait.FinalUnlessAwaited` | src/cache/ram_tier.cc:993-1036 | In every state of every run of a new tier: a removal that starts there and answers success is final, and one that answers not-found can be followed by a write of the key if and only if another removal is waiting for a flusher that has yet to write. |
| `RemovalWait.OutrunHappens` | src/cache/ram_tier.cc:1008-1008 | A run of a new tier reaches that state in five steps. |
| `RamShard.Shard.DropLocked` | src/cache/ram_tier.cc:1059-1079 | Dropping is one settlement of the model: the entry goes with its memory and counters, or is hidden while held. |
| `RamShard.Shard.HideLocked` | src/cache/ram_tier.cc:1009-1027 | Hiding, with the queue loop, is the hide step. |
| `RamShard.Shard.Unqueue` | src/cache/ram_tier.cc:1013-1018 | The queue loop erases exactly the items of the key. |
| `RamShard.Shard.RemoveBegin` | src/cache/ram_tier.cc:998-1028 | The first removal section is the first removal step and decides what to wait for. |
| `RamShard.Shard.RemoveEnd` | src/cache/ram_tier.cc:1030-1055 | The second section is the second removal step. |
| `RamShard.Shard.GetPrep` | src/cache/ram_tier.cc:929-956 | The read section is the get step, and hits exactly for a visible entry. |
| `RamShard.Shard.Release` | src/cache/ram_tier.cc:965-972 | The release section is the release step. |
| `RamShard.Shard.Drain` | src/cache/ram_tier.cc:1087-1113 | The dequeue loop is a run of dequeue steps, its batch is what they take, and it ends with a full batch or an empty queue. |
| `RamShard.Shard.SettleFlushed` | src/cache/ram_tier.cc:1133-1180 | The section after a flush is the flush outcome of the model, in all five cases. |
| `RamShard.Shard.FinishOne` | src/cache/ram_tier.cc:1133-1180 | With the flush taken off the books it is the flush-done step. |
| `RamShard.Shard.Publish` | src/cache/ram_tier.cc:588-615 | The publication section is the publish step: canceled, write-back, promoted or reserved. |
| `BatchAdmission.Admit` | src/cache/disk_cache_group.cc:484-531 | The loop decides every item as the batch function does, for every batch. |
| `BatchAdmission.AnswerExact` | src/cache/disk_cache_group.cc:332-347 | When a single PUT is accepted, when its quota refuses it, and what it brings. |
| `BatchAdmission.Earlier` | src/cache/disk_cache_group.cc:499-517 | The inner loop stops at an accepted duplicate or at an overflow, with the bytes to charge so far. |
| `BatchAdmission.LookedExact` | src/cache/disk_cache_group.cc:499-517 | Short of an overflow it finds a duplicate exactly when an earlier item with the key was accepted, and otherwise sums up exactly the tenant's charges. |
| `BatchAgreement.PresentExact` | src/cache/disk_cache_group.cc:332-347 | After single PUTs a key is stored exactly if it was before or one of them accepted it. |
| `BatchAgreement.OverflowsIsPasses` | src/cache/disk_cache_group.cc:510-516 | Where the answers agree so far, the inner loop overflows exactly when the bytes the single PUTs brought pass 64 bits before they store the key. |
| `BatchAgreement.UsedExact` | src/cache/disk_cache_group.cc:489-530 | Where the answers agree so far, a tenant's charges are the bytes single PUTs bring, if its quota refuses a cut sum or the lengths add up within 64 bits. |
| `BatchAgreement.VerdictIsAnswer` | src/cache/disk_cache_group.cc:489-530 | After answers that agree, one batch decision equals that of a single PUT if and only if it is not one that differs, for every quota. |
| `BatchAgreement.BatchAgrees` | src/cache/disk_cache_group.cc:484-531 | A batch answers as the same PUTs made one by one if and only if no single PUT on the way is one that differs: the sum passed 64 bits before its key was stored, and either the key is stored by then and the quota refuses a cut sum, or it is not and the quota is the largest one with nothing used. |
| `BatchAgreement.BatchIsSequential` | src/cache/disk_cache_group.cc:484-531 | If the lengths add up within 64 bits, the batch decides as the same PUTs made one by one and charges exactly their new bytes. |
| `BatchAgreement.OverflowHidesDuplicate` | src/cache/disk_cache_group.cc:510-516 | A batch that refuses what single PUTs accept: a second PUT declared so long that the sum overflows before the first one is reached. |
| `BatchAgreement.CutSumAccepted` | src/cache/disk_cache_group.cc:511-514 | A batch that accepts what single PUTs refuse: with the largest limit and nothing used, a sum cut off at 64 bits fits. |
| `BatchAgreement.NeverPastLimit` | src/cache/disk_cache_group.cc:522-530 | No batch, whatever its lengths, charges a tenant past a limit that refuses cut sums. |
| `BatchAgreement.LimitBinds` | src/cache/disk_cache_group.cc:316-322 | The limit of a tenant with two keys to store binds every batch if and only if it is below the largest one or something is used. |
| `BatchDisks.GroupByDisk` | src/cache/disk_cache_group.cc:533-543 | Every admitted item is in the group of its disk, in caller order, and nothing else is. |
| `BatchDisks.OnOneDisk` | src/cache/disk_cache_group.cc:533-543 | An admitted item is in exactly one group, once. |
| `BatchDisks.Scatter` | src/cache/disk_cache_group.cc:545-560 | Every answer returns to its item's own position. |
| `BatchDisks.CacheDirectBatch` | src/cache/disk_cache_group.cc:466-583 | With every engine write succeeding the answers are those of the batch function, and those of single PUTs if and only if no decision differs. |
| `DemandLatch.NewPutDemandLatch.BeginTick` | src/cache/new_put_demand_latch.h:17-37 | The start of a tick is the begin transition. |
| `DemandLatch.NewPutDemandLatch.EndTick` | src/cache/new_put_demand_latch.h:39-47 | The end of a tick is the end transition. |
| `DemandLatch.NeverWithoutPressure` | src/cache/new_put_demand_latch.h:10-38 | Over any tick sequence quiet ticks never exceed 128, and an active or armed latch means some tick found more bytes than the high mark. |
| `DemandLatch.ActiveExactly` | src/cache/new_put_demand_latch.h:20-44 | After any ticks the latch is active exactly if some tick armed it, above the high mark or with new bytes above the low mark under remembered pressure, and none since ended at or below the low mark after two intervals without new bytes. |
| `DemandLatch.QuietWearsOff` | src/cache/new_put_demand_latch.h:32-47 | Every quiet tick brings an inactive latch one closer to forgetting. |
| `DemandLatch.QuietForgetsPressure` | src/cache/new_put_demand_latch.h:39-47 | From any inactive point 128 quiet ticks end with the pressure forgotten. |
| `DemandLatch.FewerDoNot` | src/cache/new_put_demand_latch.h:32-47 | Fewer quiet ticks do not, while data remains. |
| `DemandLatch.RemembersUnlessEmptied` | src/cache/new_put_demand_latch.h:21-28 | An active latch remembers pressure if and only if the store was not found empty since it was last above the high mark; no latch remembers pressure from before. |
| `DemandLatch.ActiveWithoutMemory` | src/cache/new_put_demand_latch.h:21-24 | A run that ends active without memory. |

## Left out

- RDMA serving, TCP handling, server startup, flags, metrics and config dumps: they depend on libraries that are not part of the repository or carry no deep property.
- io_uring submission and the draining of abandoned writes: a batch of writes is modelled as the steps of its items, each with its own outcome.
- File opening, O_DIRECT alignment, directory validation and init markers: only the epoch state, the table and the slot bytes are modelled.
- The diagnostic store in `src/cache/kv_store.cc` and the read coalescer: simpler versions of what is modelled, or timeouts.
- Agreement of RAM and disk bytes for values written around the tier: the code takes it from content-addressed keys and does not decide it.
- The dense slot table and slot handles: the allocator is keyed by block key, its index is a map (`FlatKeyIndex` shows the table is one) and its rings are sequences in sweep order (`SweepRing` shows the links are one). Extent resident lists are sequences too.
- Statistics, class heat, the choice of a donor class and the loop that drives background reclaim: easy members.
- What a retention grant persists and the write-back of deadlines into records: the record's deadline fields are in `RecordCodec`, not in the store's records.
- Waiting: followers of a PUT in flight, the bounded wait for a deferred removal, acknowledgement back-pressure and waiting for a drain are not modelled; a waiter's step is simply not enabled.
- Shards: one shard of the RAM tier is modelled; the shards share only the byte, large-value and dirty counters.
- The pair of updates of the byte budget and the large-value budget is one step, as nothing reads one between them to decide anything.
- Claiming and filling an admission are two steps for every kind of admission; a durable PUT does both in one section, which allows fewer interleavings than the model. Claiming and filling have no method form, only steps.
- 64-bit wrap-around of sequence counters and byte sums, except where the code tests for it.
- SlabAllocator.SlabAllocator.Grant: the class cap holds for the grant only; it is no invariant, because a class can lose extents, and a restore checks neither cap nor budget.
- SlabAllocator.SlabAllocator.EvictColdToTarget: that the evicted are the least recently accessed of all residents is stated for sweeps that meet nothing held or protected; passing a held element rotates the order.
- RestoreBulk.Validate: duplicate keys are found with a set; the source sorts and compares neighbours.
- RecordCodec.RoundTrip: integers are little-endian; the source writes host order.
- RemovalFinality.RemovedFromBothTiers: a PUT around the tier is taken to happen only while the tier holds no unwritten value of its key, which is what the admission check and the per-key PUT lock of the node establish; these two are not modelled step by step.
- RetentionRun.RunKeeps: a grant in these runs asks for no budget and a restored entry for no free slot, so the runs are more than the source has; the run of `EarlyWheelMisses` has no grant and restores any entry.
