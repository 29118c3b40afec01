# pegastore, modelled and proved in Dafny

pegastore is a write-once store of multi-slot objects. This project models its three engines and proves
what they keep, call by call and over whole runs:

- **The reference backend** (`Memory*.dfy`, `Segments.dfy`, `KeyOrder.dfy`): an ordered object map, one
  byte counter and one FIFO eviction queue per device, and replicas that are owned by the store or lent by
  a registered region.
- **The single-node backend** (`Local*.dfy`, `PinnedPool.dfy`, `PinnedRuns.dfy`): pinned pools with a
  first-fit coalescing free list, and a put/get/evict protocol that copies outside its lock. It is a
  machine over atomic steps: every section under the state lock, every pool call and every chunk of an
  unlocked copy is one step, and threads interleave freely. The locked sections are also methods of a class.
- **The RDMA engine** (`Handshake*.dfy`, `Sessions.dfy`, `Batch*.dfy`,
  `FanOut.dfy`, `RegisteredMemory.dfy`, `CpuList.dfy`): connection handshakes with any number of peers,
  the fan-out of a transfer over NICs and queue pairs, the windowed post/complete loop, the map of
  registered memory, and the CPU-list notation.

`dafny verify dfyconfig.toml` checks the whole project.

State that the source updates in place is a class whose methods carry loops and `modifies` clauses
(`Memory`, `Local`, `Pool`, `LocalMemoryMap`, `Backend`) or a method over loop variables (`ExecuteBatch`,
`BatchTransfer`, `ZipCopy`, `FormatCpuList`, `ParseCpuList`). Each method is tied to a function of the old
state, and the lemmas are about that function.

## The main results

1. **No interleaving reuses a referenced range** (`LocalRuns.RunSafe`, `NeverHandedOutAgain`,
   `ReferencedStays`), so a get copies exactly the bytes that its replica's put supplied for that slot of that key
   (`GetCopiesPutBytes`).
2. **Write-once under concurrency** (`LocalClaims.RunWriteOnce`): in every run where no remove of a key
   overlaps a put holding a claim on it. On every continuation without such an overlap a remove leaves one writer per
   slot exactly under that condition (`LocalOverlap.OneWriterExactly`); otherwise any two byte strings of one
   length can end up in one slot (`HeldSlotMixes`). If, besides, every re-created Cache key is wide enough
   for what is still queued under it, no put is ever blocked (`LocalProgress.NeverBlocked`), and a put
   returns however others interleave, as long as none of them installs (`PutReturns`). Width is exact: after
   a claim that is too narrow some scan panics (`LocalPanics.WideExactly`).
3. **Eviction is complete and no more than needed**, in both backends. `make_room` succeeds exactly when the
   bytes that may not be evicted leave enough room (`MemoryEvict.MakeRoomSpec`), and evicts the shortest
   prefix of the queue after which the request fits, nothing where it fits already (`MakeRoomEvicts`). In the
   single-node backend, under any interleaving, a put scans only after the pool has refused it
   (`LocalEffects.EvictsOnlyWhenRefused`); a scan drops exactly the first victim (`ScanExactly`); and a put
   loses a target only when its slot is longer than the pool or its last scan left nothing to drop
   (`NoSpaceOnlyWhenExhausted`), goes through its targets in order and gives up only after all of them
   (`LocalTurns.RunInTurn`, `GivesUpOnlyWhenAllLost`).
4. **Accounting and contents** (`MemoryRuns.RunAccounting`, `RunWithinCapacity`, `RunContents`): every counter
   is the sum of what is owned, and a get served by the store's own bytes reads what the last put of the slot
   supplied (`MemoryReads.GetAfterRun`). The capacity bound needs `Each` lists without repetition, and exactly that
   (`EachCapacityExactly`, counterexample `RepeatedDeviceOverflows`).
5. **Handshake safety** (`Handshake.RunInv`, `HandshakeRuns.AtMostOnePlace`) and **pairing**
   (`SwappedMetadataPairs`), with connections that stay as they are until their own invalidation
   (`ConnectionStays`), for queue-pair numbers that no outstanding metadata carries. A completion
   takes its own sessions, on every continuation, exactly then (`HandshakeRuns.CompletionTakesOwnExactly`);
   unique live numbers are not enough (`ReusedNumberLosesSession`).
6. **Byte conservation end to end**: from the descriptors through the work of each session to the totals of
   its finished batch (`FanOut.TransferConservesBytes` over `BatchExec.FinishedTotals`). A transfer is
   accepted exactly when every descriptor is routable (`RoutesExactly`), and what is posted and polled leaves
   one answer for a batch (`BatchAnswer.AnswerDetermined`). Ok means that the hardware has done every
   request, on every schedule, exactly when no completion owed to an earlier batch carries an id of this one,
   or an op is too long for any Ok (`BatchHardware.OkIsHonestExactly`). A session is honest until a batch
   fails (`SessionHonest`); one that fails in its second chain lets the next answer Ok with nothing done
   (`ErrorThenOk`).
7. **The pinned pool's free list** is the sorted, aligned list of maximal unused runs over every sequence
   of positive-size requests, and each request gets the lowest place where it fits (`RunExact`,
   `RunAllocFails`, `RunAllocLowest`, `RunDropsAll`); a zero-size request breaks this
   (`ZeroSizeFragments`), and exactly when is `ZeroSizeExactly`.

Hypotheses the code forces, all explicit preconditions: a re-created Cache key is not narrower than what
is still queued under its name on a pool that is scanned, since the scans index `slots[idx]` directly. In the
single-node backend every pool is scanned (`WideRun`, exact by `LocalPanics.WideExactly`); in the reference
backend only bounded ones are (`Reusable`, exact over pools of positive capacity by
`MemoryPanics.ReusableExactly`; `UnboundedNeverPanics`). Callers complete or abort a handshake once, with the
metadata their own prepare returned. The bytes a put copies from do not change while it copies.

The comments at `crates/pegastore-rdma/src/rc_backend/mod.rs:415` and in `engine.rs` speak of one receiver per
NIC. The code returns one per session that has work, and the model follows the code.

## Model

| member | source | states |
|---|---|---|
| Segments.ZipCopy | crates/pegastore-cuda/src/local.rs:230-265 | terminates with empty segments on either side; whether it ends well, past a list or on a failed copy callback, memory is as if the bytes moved so far had been read first and laid over the destination; without a failed callback it ends well exactly when no bytes are wanted or both lists are long enough |
| Segments.Gather | crates/pegastore/src/services/memory.rs:297-305 | the flattened bytes of the list, in order |
| Segments.ReadSegments | crates/pegastore/src/services/memory.rs:326-353 | the flattened bytes from the offset, as many as wanted or left |
| Segments.Scatter | crates/pegastore/src/services/memory.rs:307-315 | the first bytes laid over the flattened destination, nothing else touched |
| Segments.ReadThenScatter | crates/pegastore/src/services/memory.rs:572-574 | the reference backend's ranged copy leaves the memory that a `ZipCopy` of all bytes leaves |
| Segments.LayThenFlatten | crates/pegastore/src/services/memory.rs:297-315 | round trip: gathering a self-disjoint list returns what was scattered over it |
| KeyOrder.PrefixRunExact | crates/pegastore/src/services/memory.rs:594-600 | ordered range plus take-while yields exactly the keys that start with the prefix, each once |
| KeyOrder.PrefixConvex | crates/pegastore/src/services/memory.rs:594-599 | in byte order the keys with a prefix are one contiguous run |
| PinnedPool.Pool.constructor | crates/pegastore-cuda/src/pinned.rs:61-67 | one free range covers the pool |
| PinnedPool.Pool.Alloc | crates/pegastore-cuda/src/pinned.rs:87-103 | cuts the rounded size off the first entry that fits, or changes nothing |
| PinnedPool.Pool.Release | crates/pegastore-cuda/src/pinned.rs:105-118 | inserts in order and coalesces right, then left |
| PinnedPool.TakeSafe | crates/pegastore-cuda/src/pinned.rs:87-103 | handing out a range keeps free and live ranges apart and loses no byte |
| PinnedPool.GiveSafe | crates/pegastore-cuda/src/pinned.rs:105-118 | taking a range back does too, wherever the insertion point was found and whatever the sizes |
| PinnedPool.GiveTight | crates/pegastore-cuda/src/pinned.rs:105-118 | with positive sizes the list stays sorted, gapped and aligned |
| PinnedPool.EntriesAreMaximalRuns | crates/pegastore-cuda/src/pinned.rs:87-118 | every unused run lies inside one entry |
| PinnedPool.AllocFailsExactly | crates/pegastore-cuda/src/pinned.rs:87-90 | no entry fits exactly when no unused run is large enough |
| PinnedRuns.RunSafe | crates/pegastore-cuda/src/pinned.rs:61-118 | after any sequence of requests and drops, free and live ranges are pairwise disjoint, inside the pool and together all of it |
| PinnedRuns.RunExact | crates/pegastore-cuda/src/pinned.rs:87-118 | with positive sizes the list is also sorted, aligned and without adjacent entries |
| PinnedRuns.RunAllocFails | crates/pegastore-cuda/src/pinned.rs:87-103 | after any such run a request fails exactly when no unused run is large enough |
| PinnedRuns.RunAllocLowest | crates/pegastore-cuda/src/pinned.rs:87-103 | and one that can be served gets the lowest address with enough unused bytes behind it, as a new buffer, leaving all others as they were |
| PinnedRuns.RunDropsAll | crates/pegastore-cuda/src/pinned.rs:162-166 | dropping everything in any order restores the initial free list |
| PinnedRuns.ZeroSizeFragments | crates/pegastore-cuda/src/pinned.rs:105-118 | counterexample: one zero-size buffer, and a pool with nothing live cannot serve a request for all of it |
| PinnedRuns.ZeroSizeExactly | crates/pegastore-cuda/src/pinned.rs:105-118 | giving back a zero-size buffer keeps the list tight exactly when a free entry starts or ends at its offset |
| MemoryEvict.MakeRoomSpec | crates/pegastore/src/services/memory.rs:231-275 | succeeds exactly when the need plus Explicit and protected bytes on the device fit; keeps every counter exact and every queue covering; touches no other device, no Explicit object and not the protected key |
| MemoryEvict.MakeRoomEvicts | crates/pegastore/src/services/memory.rs:231-275 | nothing is evicted where the pool is unbounded, has room, or is smaller than the need; otherwise exactly the first n queued entries, n the least number after which used plus need fit the capacity (all when there is none); what stays queued keeps its order |
| MemoryData.EvictExactly | crates/pegastore/src/services/memory.rs:247-268 | a popped entry takes from its slot of a Cache object the owned replicas on the device, in place; every other slot and object is as it was; the object goes exactly when nothing is left in it |
| MemoryEvict.ReclaimSpec | crates/pegastore/src/services/memory.rs:238-273 | the scan's counter stays the sum of owned bytes, what stays spare stays queued, protected entries return |
| MemoryEvict.ReclaimShortestPrefix | crates/pegastore/src/services/memory.rs:239-273 | first in first out and no more than needed: the shortest queue prefix that makes room is evicted, protected entries keep their order |
| MemoryPut.PlaceSpec | crates/pegastore/src/services/memory.rs:426-452 | the candidate loop's targets and error are decided by the state before it; every target has room; only evictions elsewhere |
| MemoryRequest.PutSlotSpec | crates/pegastore/src/services/memory.rs:415-473 | a slot ends with one copy on each chosen target, or as it was, with the error of the deciding candidate |
| MemoryRequest.PutPrefixSpec | crates/pegastore/src/services/memory.rs:408-474 | slots are treated in order; each outcome is decided by the state its turn found |
| MemoryRequest.ChosenIsGood | crates/pegastore/src/services/memory.rs:416-452 | Strict one there, Prefer one with misplaced iff elsewhere, Each one per device in order, Anywhere one |
| MemoryRequest.ChosenExactly | crates/pegastore/src/services/memory.rs:416-452 | Strict: the device if it admits; Prefer: the device if it admits, else the first other in order that does; Each: all if all admit; Anywhere: the first in order that admits |
| MemoryRequest.FaultExactly | crates/pegastore/src/services/memory.rs:428-457 | the error of a slot that goes nowhere: of the device (Strict), of the first that does not admit (Each), of the last one tried (Prefer, Anywhere), NoSpace with none to try |
| MemoryFifo.PutSlotExactly | crates/pegastore/src/services/memory.rs:415-473 | one slot, whole: targets as above; the slot ends with one copy of the bytes per target, in order; each queue keeps its order and gains one entry at its end per copy on its device; devices that were not tried lose nothing |
| MemoryPanics.PutPasses | crates/pegastore/src/services/memory.rs:246-253 | a put panics in no scan when the queued entries of all other keys fit their objects, whatever is queued under its own key |
| MemoryPanics.NarrowPanics | crates/pegastore/src/services/memory.rs:246-268 | from any state with exact counters and an entry queued past the slots of its Cache object, on a pool of positive capacity, some legal run has a put whose scan panics |
| MemoryPanics.ReusableExactly | crates/pegastore/src/services/memory.rs:232-268 | over pools of positive capacity, putting a new Cache key goes through, and after it no operation of any legal run panics, exactly when no entry a bounded pool queues under the key is past its slots |
| MemoryRequest.PutContract | crates/pegastore/src/services/memory.rs:379-476 | the whole request: SpecMismatch changes nothing; AlreadyExists exactly for slots resident at entry, unchanged; Ok slots hold copies as placement demands; other failed slots end empty; own replicas are never evicted; other objects only lose evictable replicas |
| MemoryCapacity.PutSlotWithin | crates/pegastore/src/services/memory.rs:428-472 | one slot keeps the capacity bound unless its list names a device twice |
| MemoryCapacity.RepeatedDeviceOverflows | crates/pegastore/src/services/memory.rs:428-472 | counterexample, for every list with a repetition: the pool ends over its capacity |
| MemoryCapacity.EachCapacityExactly | crates/pegastore/src/services/memory.rs:428-472 | an `Each` list keeps every store within capacity exactly when it has no repetition (or the length is zero) |
| MemoryCapacity.PutWithin | crates/pegastore/src/services/memory.rs:379-476 | the whole request keeps the capacity bound |
| MemoryCapacity.KeptAfterSlot | crates/pegastore/src/services/memory.rs:459-472 | inside a request a landed slot adds its own bytes, and nothing else, to what its key keeps |
| MemoryOps.PublishInv | crates/pegastore/src/services/memory.rs:478-507 | lending keeps the bookkeeping invariant |
| MemoryOps.RetireInv | crates/pegastore/src/services/memory.rs:204-211 | retiring a region keeps it |
| MemoryOps.PublishExactly | crates/pegastore/src/services/memory.rs:478-507 | which requests are refused, with which error and no effect; otherwise one lent replica is appended to the slot and nothing else changes |
| MemoryOps.RetireExactly | crates/pegastore/src/services/memory.rs:204-211 | every slot keeps exactly the replicas not lent by the region, in order, and nothing else changes |
| MemoryOps.RemoveInv | crates/pegastore/src/services/memory.rs:580-589 | removing keeps it, removes exactly the keys named, and raises no counter |
| MemoryOps.RemovePrefixExact | crates/pegastore/src/services/memory.rs:591-607 | removes exactly the keys with the prefix, leaves the others as they were, and returns their number |
| MemoryOps.PublishThenRetire | crates/pegastore/src/services/memory.rs:496-505 | a lent replica goes with region r exactly when its first segment lies in r |
| MemoryOps.DistanceLaws | crates/pegastore/src/services/memory.rs:178-193 | distance is symmetric and zero exactly on the same device |
| MemoryOps.DistanceIsCloseness | crates/pegastore/src/services/memory.rs:178-193 | the table orders devices: for a GPU itself, other GPUs, its node's memory, other memory (all alike if its node is unknown); for host memory itself, its node's GPUs, other memory and GPUs of unknown node, GPUs of other nodes |
| MemoryOps.SourceUnique | crates/pegastore/src/services/memory.rs:562-565 | the replica a get reads is determined |
| MemoryRuns.ApplyInv | crates/pegastore/src/services/memory.rs:379-607 | every operation keeps: counters are sums of owned bytes, spare replicas are queued, queued indices are in range |
| MemoryRuns.RunAccounting | crates/pegastore/src/services/memory.rs:204-293 | in every reachable state each counter equals the owned bytes on its device, so no subtraction underflows |
| MemoryRuns.RunWithinCapacity | crates/pegastore/src/services/memory.rs:379-607 | no run with duplicate-free `Each` lists takes a pool over its capacity |
| MemoryRuns.RunContents | crates/pegastore/src/services/memory.rs:459-469 | in every reachable state each owned replica of a slot holds the bytes of the put that last filled it |
| MemoryReads.OwnedSliceOfLastPut | crates/pegastore/src/services/memory.rs:459-469 | in every reachable state any part of an owned replica is that part of the last put's bytes for its slot |
| MemoryReads.GetAfterRun | crates/pegastore/src/services/memory.rs:538-578 | after any run, a readable ranged get served by an owned replica succeeds, and its destination then reads as that range of the last put's bytes for the slot |
| MemoryRuns.ExplicitStays | crates/pegastore/src/services/memory.rs:247-268 | an owned replica of an Explicit object disappears only by removal of its key |
| MemoryRuns.RemoveLeavesStaleEntry | crates/pegastore/src/services/memory.rs:580-589 | removal does not purge the queue: on a bounded pool, re-creating the key with too few slots leaves an entry past them, for every such state |
| MemoryPanics.UnboundedNeverPanics | crates/pegastore/src/services/memory.rs:232-234 | over unbounded pools no operation of any run panics, whatever keys it re-creates |
| MemoryStore.Memory.constructor | crates/pegastore/src/services/memory.rs:73-110 | an empty store over the devices in the order listed, all counters zero; each pool has the capacity last listed for its device |
| MemoryStore.Memory.MakeRoom | crates/pegastore/src/services/memory.rs:231-275 | the scan loop with deferred entries computes the specified answer and state |
| MemoryStore.Memory.EvictSlot | crates/pegastore/src/services/memory.rs:253-268 | one popped entry: the slot's owned replicas on the device go, their bytes leave the counter, an empty object goes |
| MemoryStore.Memory.PlaceSlot | crates/pegastore/src/services/memory.rs:426-452 | the candidate loop computes the specified targets, error and state |
| MemoryStore.Memory.InstallSlot | crates/pegastore/src/services/memory.rs:461-472 | one replica and one charge per target |
| MemoryStore.Memory.Put | crates/pegastore/src/services/memory.rs:379-476 | invalid requests change nothing; otherwise reply and state are those of the specified request on the gathered bytes |
| MemoryStore.Memory.Publish | crates/pegastore/src/services/memory.rs:478-507 | NotFound, bad index and wrong length change nothing; otherwise one lent replica is added |
| MemoryStore.Memory.RetireRegion | crates/pegastore/src/services/memory.rs:204-211 | exactly the replicas recorded for the region go |
| MemoryStore.Memory.ReleaseObject | crates/pegastore/src/services/memory.rs:283-293 | each pool's counter drops by the object's owned bytes there, without underflow |
| MemoryStore.Memory.Remove | crates/pegastore/src/services/memory.rs:580-589 | the named keys go and their bytes are released |
| MemoryStore.Memory.RemovePrefix | crates/pegastore/src/services/memory.rs:591-607 | the keys with the prefix go, their number is returned |
| MemoryStore.Memory.Source | crates/pegastore/src/services/memory.rs:562-565 | the first replica to which no other is preferred: closer device first, then Dram before External before Ssd |
| MemoryStore.Memory.Get | crates/pegastore/src/services/memory.rs:538-578 | Ok exactly when the range is readable; then the destination holds exactly that slice of the first replica to which no other is preferred, in the order of devices and tiers; every error names its cause and leaves memory alone |
| MemoryStore.RetirementExactly | crates/pegastore/src/services/memory.rs:496-496 | retiring is complete for a published list exactly when all its segments are of the first one's region |
| LocalData.ScanRefs | crates/pegastore-cuda/src/local.rs:343-372 | a scan gives no slot a reference it did not have |
| LocalData.ClaimExactly | crates/pegastore-cuda/src/local.rs:429-453 | claiming makes a missing object and marks every slot without a replica; slots with one and other objects are as they were |
| LocalData.InstallExactly | crates/pegastore-cuda/src/local.rs:674-685 | the replicas are appended to the slot in order and its mark is cleared; every other slot and object is as it was |
| LocalData.UnclaimExactly | crates/pegastore-cuda/src/local.rs:465-468 | the slot's mark is cleared and nothing else changes |
| LocalData.PublishExactly | crates/pegastore-cuda/src/local.rs:494-502 | one lent replica is appended to the slot, which keeps its mark, and nothing else changes |
| LocalData.RetireExactly | crates/pegastore-cuda/src/local.rs:276-285 | every slot keeps exactly the replicas not lent by the region, in order, and its mark |
| LocalSafety.AllocSafe | crates/pegastore-cuda/src/local.rs:330-381 | whatever a pool answers, the safety invariant holds after it |
| LocalSafety.CopySafe | crates/pegastore-cuda/src/local.rs:658-666 | a chunk of an unlocked copy changes no byte of any other live buffer |
| LocalSafety.InstallSafe | crates/pegastore-cuda/src/local.rs:668-690 | only fully written buffers become visible |
| LocalSafety.ReadSafe | crates/pegastore-cuda/src/local.rs:568-576 | a chunk of an unlocked read returns the bytes supplied for the buffer |
| LocalSafety.ReleaseSafe | crates/pegastore-cuda/src/pinned.rs:162-166 | a buffer dropped with its last reference leaves every other buffer intact |
| LocalRuns.RunSafe | crates/pegastore-cuda/src/local.rs:330-690 | the safety invariant holds in every state of every schedule |
| LocalRuns.ReferencedStays | crates/pegastore-cuda/src/local.rs:330-690 | while a replica, an uninstalled put or a running get refers to a buffer, no step moves or frees its range |
| LocalRuns.NeverHandedOutAgain | crates/pegastore-cuda/src/pinned.rs:87-118 | a buffer that any step brings to life shares no byte with a referenced one |
| LocalRuns.CopiesStayInside | crates/pegastore-cuda/src/local.rs:658-666 | the next chunk of a put's copy always addresses a live range inside its pool |
| LocalRuns.ReadsStayInside | crates/pegastore-cuda/src/local.rs:568-576 | so does the next chunk of a get's copy |
| LocalRuns.GetCopiesPutBytes | crates/pegastore-cuda/src/local.rs:535-580 | in every interleaving, what a get has copied is exactly that part of the bytes which the put that made its replica supplied for that slot of that key |
| LocalClaims.RunWriteOnce | crates/pegastore-cuda/src/local.rs:422-473 | in every run without a remove overlapping a put: marks are exactly the held claims, each held once, on objects still there whatever was evicted, showing no pinned replica; all pinned replicas of a slot come from one put and have the slot's length |
| LocalClaims.MarkedIffHeld | crates/pegastore-cuda/src/local.rs:443-452 | `writing` is set exactly while some put holds the slot |
| LocalClaims.ScanMarks | crates/pegastore-cuda/src/local.rs:362-364 | no scan drops an object with a held claim |
| LocalWinding.WindUp | crates/pegastore-cuda/src/local.rs:454-473 | a put whose key is gone comes, by its own steps, to the failure of each slot it still holds |
| LocalClaims.RunGetsComplete | crates/pegastore-cuda/src/local.rs:561-576 | in such runs a running get can always copy on to the end of its range |
| LocalOverlap.HeldSlotMixes | crates/pegastore-cuda/src/local.rs:465-468 | counterexample, for every put that holds a slot of a removed key and any two byte strings of a length some node has room for twice: two later puts of the key both end up in the slot |
| LocalOverlap.OneWriterExactly | crates/pegastore-cuda/src/local.rs:582-588 | from every sound state with such room, a remove leaves one writer and one content per slot on every calm continuation exactly when no put held a claim on a removed key |
| LocalQueue.RunCovered | crates/pegastore-cuda/src/local.rs:343-372 | in every interleaving each pinned replica of a Cache object has an entry in its node's queue |
| LocalQueue.ScanEvictsIff | crates/pegastore-cuda/src/local.rs:346-372 | a scan drops replicas exactly when its queue names a spare one outside the protected key, and then it shortens the queue; otherwise only the protected key's entries are left |
| LocalQueue.ScanEvictsExactly | crates/pegastore-cuda/src/local.rs:346-372 | with a covering queue: exactly when some other Cache object has a pinned replica on the node |
| LocalQueue.ScanSpares | crates/pegastore-cuda/src/local.rs:347-354 | a scan never touches the protected key or an Explicit object |
| LocalQueue.NoSpaceOnlyWhenExhausted | crates/pegastore-cuda/src/local.rs:330-381 | under any interleaving, when a put gives up a target without a buffer, its slot is longer than that pool, or its last scan, unchanged since, left every pinned replica there Explicit or its own key's |
| LocalQueue.ScanDropsFirst | crates/pegastore-cuda/src/local.rs:346-372 | first in first out, one slot at a time: exactly the pinned replicas on the node of the first queued slot that may go are dropped; protected entries before it keep their order, the rest of the queue is untouched |
| LocalEffects.ScanExactly | crates/pegastore-cuda/src/local.rs:346-372 | the objects after a scan: only the victim's slot loses replicas, its pinned ones on the node, in place; an object goes exactly when a popped entry names it, it is an unprotected Cache object, and nothing is left or being written in it |
| LocalEffects.EvictsOnlyWhenRefused | crates/pegastore-cuda/src/local.rs:335-345 | under any interleaving a put scans a node only if its slot is no longer than the pool, and only after that pool refused it a buffer |
| LocalQueue.QueueExactly | crates/pegastore-cuda/src/local.rs:686-688 | every queue gains one entry at its end per buffer installed from its node, and no other entry |
| LocalPlacement.RunOnCourse | crates/pegastore-cuda/src/local.rs:622-656 | in every interleaving, under Each the buffers so far and the targets to come are the resolved list, otherwise one buffer for one of the resolved targets ends the search |
| LocalPlacement.InstallFollowsPlacement | crates/pegastore-cuda/src/local.rs:622-690 | in every interleaving an installed slot shows, behind what it had, one replica per filled buffer: one where asked (Strict), one marked misplaced iff elsewhere (Prefer), one per listed device in order (Each), one (Anywhere); its mark is cleared, every other slot and key is as it was |
| LocalTurns.TargetsExactly | crates/pegastore-cuda/src/local.rs:611-633 | the list a placement resolves to: the node; the nodes listed; the node, then all others ascending as misplaced; all ascending; none when a device has no pool |
| LocalTurns.RunInTurn | crates/pegastore-cuda/src/local.rs:638-653 | in every interleaving a put that wants one copy goes through that list in order, past exactly the targets where it asked for a buffer and got none |
| LocalTurns.GivesUpOnlyWhenAllLost | crates/pegastore-cuda/src/local.rs:638-656 | such a put gives a slot up for want of space only when it has asked every target in vain |
| LocalTurns.ElsewhereOnlyWhenLost | crates/pegastore-cuda/src/local.rs:626-645 | under Prefer a copy elsewhere means that the preferred node was asked in vain |
| LocalStore.ScanFits | crates/pegastore-cuda/src/local.rs:355-355 | where every queued entry fits its object no scan panics, and every entry still fits afterwards |
| LocalPanics.WideExactly | crates/pegastore-cuda/src/local.rs:343-442 | after a claim that makes a Cache object no scan ever panics, on any run with wide later claims, calm or not, exactly when no entry queued under its key is past its slots |
| LocalPanics.LurkingBreaks | crates/pegastore-cuda/src/local.rs:330-381 | from any safe state with an entry past the slots of an object that is being written, some run brings a put to a scan that panics |
| LocalProgress.StepFits | crates/pegastore-cuda/src/local.rs:330-690 | every step but a claim that is too narrow keeps all queued indices in range |
| LocalProgress.NeverBlocked | crates/pegastore-cuda/src/local.rs:330-690 | in every run whose removes spare the keys being written and whose claims are that wide, each put's next step is enabled in every state: no scan, install or release of a claim meets a bad index |
| LocalProgress.PutReturns | crates/pegastore-cuda/src/local.rs:342-380 | from every sound state a put returns after finitely many of its steps, eviction loops included, whatever calm and wide steps of others come between them, as long as no other put installs |
| LocalStore.Local.ClaimSlots | crates/pegastore-cuda/src/local.rs:429-453 | SpecMismatch changes nothing; otherwise exactly the slots without replica and writer are marked and reported |
| LocalStore.Local.InstallSlot | crates/pegastore-cuda/src/local.rs:668-690 | NotFound changes nothing; otherwise the slot's old replicas are followed by one per buffer in order, its mark is cleared, nothing else in the metadata changes, and each queue gains one entry at its end per buffer of its node |
| LocalStore.Local.ReleaseClaim | crates/pegastore-cuda/src/local.rs:465-468 | the mark goes when the object is still there |
| LocalStore.Local.EvictOne | crates/pegastore-cuda/src/local.rs:343-372 | the scan loop with its deferred entries computes the specified scan and the buffers it drops |
| LocalStore.ScanBufsExactly | crates/pegastore-cuda/src/local.rs:356-360 | these are the buffers of the first victim's pinned replicas on the node |
| LocalStore.Local.AllocOrEvict | crates/pegastore-cuda/src/local.rs:330-381 | on its own it ends by shrinking the queue; InvalidInput exactly without a pool; NoSpace only for an oversized request or an exhausted node; it scans only as often as needed, each time returning the dropped buffers to the pool, before each scan the request did not fit, and not at all for an oversized request; neither Explicit objects nor the protected key change |
| LocalStore.Local.RetireRegion | crates/pegastore-cuda/src/local.rs:276-285 | every slot loses exactly the replicas of the region |
| LocalStore.Local.Remove | crates/pegastore-cuda/src/local.rs:582-588 | exactly the named keys go |
| LocalStore.Local.RemovePrefix | crates/pegastore-cuda/src/local.rs:590-602 | exactly the keys with the prefix go, their number is returned |
| RegisteredMemory.NeighboursDecide | crates/pegastore-rdma/src/rc_backend/state.rs:49-59 | the check of two neighbours finds an overlap exactly when some registration overlaps |
| RegisteredMemory.InsertExactly | crates/pegastore-rdma/src/rc_backend/state.rs:37-68 | succeeds exactly for non-empty, non-overflowing regions that overlap nothing, and keeps the map valid |
| RegisteredMemory.FindIsLinearSearch | crates/pegastore-rdma/src/rc_backend/state.rs:77-81 | answers like a search of all regions for a covering one, unique for non-zero length |
| RegisteredMemory.Exec | crates/pegastore-rdma/src/rc_backend/state.rs:37-72 | after any registrations and removals, regions are pairwise disjoint, non-empty and inside the address space |
| RegisteredMemory.LocalMemoryMap.Insert | crates/pegastore-rdma/src/rc_backend/state.rs:37-68 | both error cases and the new map, against all registrations |
| RegisteredMemory.LocalMemoryMap.Remove | crates/pegastore-rdma/src/rc_backend/state.rs:70-72 | the entry goes and is returned |
| RegisteredMemory.LocalMemoryMap.FindEntry | crates/pegastore-rdma/src/rc_backend/state.rs:77-81 | found exactly when some registration covers the range |
| CpuList.FormatCpuList | crates/pegastore-rdma/src/numa.rs:49-79 | the loop over start and prev prints the list of runs |
| CpuList.RunsAreMaximal | crates/pegastore-rdma/src/numa.rs:54-76 | no two neighbouring runs of an ascending list could be one |
| CpuList.PrintIsCompact | crates/pegastore-rdma/src/numa.rs:49-79 | the parts of a printed list are its maximal runs in order, each spelt with a dash exactly when it has more than one CPU |
| CpuList.ParseCpuList | crates/pegastore-rdma/src/numa.rs:131-167 | the loops over parts and ranges compute the specified parse, errors included |
| CpuList.PrintThenParse | crates/pegastore-rdma/src/numa.rs:49-79 | parsing a printed list returns it, for every strictly ascending list, the empty one included |
| CpuList.ParseIsAscending | crates/pegastore-rdma/src/numa.rs:163-166 | every parsed list is strictly ascending and holds exactly the CPUs named |
| CpuList.ParsePrintParse | crates/pegastore-rdma/src/numa.rs:131-167 | parse, print, parse equals parse |
| BatchExec.RunInv | crates/pegastore-rdma/src/rc_backend/session.rs:302-363 | for any order of chains and completions, unknown and repeated ids included: ids go out in order and once, at most 128 in flight, each retired at most once, the count exact |
| BatchExec.FinishedTotals | crates/pegastore-rdma/src/rc_backend/session.rs:307-365 | a batch that ends has retired every id once and counts the saturated sum of the lengths |
| BatchExec.PostChain | crates/pegastore-rdma/src/rc_backend/session.rs:258-294 | nothing of a chain goes out when an op is too long or the post is refused, and which error it is |
| BatchExec.ExecuteBatch | crates/pegastore-rdma/src/rc_backend/session.rs:296-366 | chains go out between polls as long as any can, completions are looked at in order; Ok only when finished, after every op was reported successful, with the saturated sum; Waiting only when the polls are used up and nothing more can be posted; an op too long (InvalidArgument), a refused chain, a broken queue or a failed completion in flight (Backend) is answered when its turn comes |
| BatchAnswer.AnswerDetermined | crates/pegastore-rdma/src/rc_backend/session.rs:307-365 | that contract leaves one answer, and one course of events, for given posts and polls: no failure can be skipped and nothing after it is looked at |
| BatchHardware.OkIsHonestExactly | crates/pegastore-rdma/src/rc_backend/session.rs:303-303 | Ok means that the hardware completed every request, on every schedule, exactly when no completion owed to an earlier batch carries an id of this one, or an op is too long to be posted |
| BatchHardware.SessionHonest | crates/pegastore-rdma/src/rc_backend/session.rs:296-366 | in a session whose earlier batches all answered Ok nothing stale is owed, and an Ok means that the hardware completed the batch |
| BatchHardware.ErrorThenOk | crates/pegastore-rdma/src/rc_backend/session.rs:303-347 | counterexample: after any batch that fails in its second chain, any batch of up to one chain can answer Ok with nothing transferred |
| FanOut.FromRuntimes | crates/pegastore-rdma/src/rc_backend/mod.rs:51-85 | NIC indices grouped by known NUMA node, in index order |
| FanOut.NextNic | crates/pegastore-rdma/src/rc_backend/mod.rs:87-94 | for whatever counter value, a NIC of the asked node when there is one, any NIC otherwise |
| FanOut.Pick | crates/pegastore-rdma/src/rc_backend/mod.rs:36-41 | the chosen index is in range and on the asked node when that has a NIC |
| FanOut.PickExactly | crates/pegastore-rdma/src/rc_backend/mod.rs:36-94 | the ticket counts round exactly the NICs of the node, in index order, or round all where the node is unknown or has none |
| FanOut.ResolveFaithful | crates/pegastore-rdma/src/rc_backend/mod.rs:455-477 | a resolved op carries the descriptor's range inside both regions, with handle and key at the index of one NIC, on the region's node when that has a NIC |
| FanOut.ResolveExactly | crates/pegastore-rdma/src/rc_backend/mod.rs:455-477 | routed exactly when the length is positive, a registration covers the local range, the remote range lies in its region and the address space, and there is a key for the picked NIC; otherwise MemoryNotRegistered for uncovered memory and InvalidArgument for the rest |
| FanOut.RoutesExactly | crates/pegastore-rdma/src/rc_backend/mod.rs:455-477 | a list is routed exactly when each descriptor is, otherwise refused with the error of the first that is not |
| FanOut.BatchTransfer | crates/pegastore-rdma/src/rc_backend/mod.rs:416-498 | Done exactly when every descriptor is routable, otherwise the error of the first that is not; the loops compute the specified routes and buckets |
| FanOut.WorkShape | crates/pegastore-rdma/src/rc_backend/mod.rs:481-498 | each work item is a real session's whole bucket, none is empty, no session gets two |
| FanOut.WorkIsPartition | crates/pegastore-rdma/src/rc_backend/mod.rs:480-498 | every op is in exactly one session's work and nothing else is, whatever the counters were |
| FanOut.SharesAreEven | crates/pegastore-rdma/src/rc_backend/mod.rs:488-492 | without counter wrap each of a NIC's sessions gets the average number of ops, rounded down or up |
| FanOut.AnswersAddUp | crates/pegastore-rdma/src/rc_backend/session.rs:347-365 | answers that are each session's saturated share never exceed the bytes moved, and equal them exactly when no share saturates |
| FanOut.TransferConservesBytes | crates/pegastore-rdma/src/rc_backend/mod.rs:416-514 | end to end: one faithful op per descriptor, each in one session's work, and when every session's answer is the total of a finished batch of its work, the answers sum to the total length exactly when no share saturates |
| Sessions.TakeFinds | crates/pegastore-rdma/src/rc_backend/state.rs:94-100 | taking by number finds that very session wherever it stands and disturbs no other |
| Sessions.PopFinds | crates/pegastore-rdma/src/rc_backend/mod.rs:327-334 | popping an attempt's metadata yields exactly its sessions in metadata order |
| Handshake.JoinFinds | crates/pegastore-rdma/src/rc_backend/mod.rs:308-336 | completion finds all of its own sessions, however other handshakes reordered the queues |
| Handshake.JoinKeeps | crates/pegastore-rdma/src/rc_backend/mod.rs:311-336 | it never fails for a missing session and never meets a connected address |
| Handshake.ContinuationInv | crates/pegastore-rdma/src/rc_backend/mod.rs:232-409 | the handshake invariant survives every fresh continuation of a state that has it |
| Handshake.AbortKeeps | crates/pegastore-rdma/src/rc_backend/mod.rs:381-391 | aborting removes its own sessions or nothing, and finds its address marked |
| Handshake.FinishKeeps | crates/pegastore-rdma/src/rc_backend/mod.rs:355-377 | finishing finds its address marked and not connected, and leaves a full connection |
| Handshake.RunInv | crates/pegastore-rdma/src/rc_backend/mod.rs:232-409 | over all interleavings: no address both connecting and connected, connecting exactly while one handshake is under way, pending queues hold exactly the sessions whose metadata is out, connections are full |
| Handshake.MarkedUntilTheEnd | crates/pegastore-rdma/src/rc_backend/mod.rs:356-384 | the assertions in the source hold: whoever ends a handshake finds its address marked |
| Handshake.ConnectionsExactly | crates/pegastore-rdma/src/rc_backend/mod.rs:355-409 | finishing adds its own connection, invalidating takes one away, no other step touches any |
| Handshake.ConnectionStays | crates/pegastore-rdma/src/rc_backend/mod.rs:232-409 | over all interleavings a connection stays as it is until its own invalidation |
| Handshake.InvalidateThenBegin | crates/pegastore-rdma/src/rc_backend/mod.rs:404-409 | after an invalidation the peer is not connected, and a new handshake with it is marked instead of answered Existing |
| HandshakeRuns.RunOnePlace | crates/pegastore-rdma/src/rc_backend/mod.rs:232-409 | over all interleavings a session has one place |
| HandshakeRuns.AtMostOnePlace | crates/pegastore-rdma/src/rc_backend/state.rs:84-119 | a session is in at most one of pending queue, completion in progress and one peer's connection, and there at one NIC and one position |
| HandshakeRuns.CompletionTakesOwnExactly | crates/pegastore-rdma/src/rc_backend/mod.rs:232-391 | whatever fresh steps follow a prepare, its completion finds exactly the sessions it made, if and only if no outstanding attempt carries one of their numbers on the same NIC |
| HandshakeRuns.CompletesAsOffered | crates/pegastore-rdma/src/rc_backend/mod.rs:338-376 | whatever other handshakes do meanwhile, session (nic, qp) of the connection is the one made there, pointed at the peer endpoint there |
| HandshakeRuns.SwappedMetadataPairs | crates/pegastore-rdma/src/rc_backend/session.rs:160-182 | with swapped metadata, session (nic, qp) on each side targets the other's, with receive PSN equal to the peer's send PSN |
| HandshakeRuns.ReusedNumberLosesSession | crates/pegastore-rdma/src/rc_backend/mod.rs:381-391 | counterexample: a number reused while failed metadata is out, and an abort takes another peer's session |
| HandshakeStore.StepsAreSections | crates/pegastore-rdma/src/rc_backend/mod.rs:232-409 | each step of the handshake machine changes the shared state as the backend's locked sections do |
| HandshakeStore.Backend.RemovePendingByQpn | crates/pegastore-rdma/src/rc_backend/state.rs:94-100 | the search and removal compute the specified take |
| HandshakeStore.Backend.Reserve | crates/pegastore-rdma/src/rc_backend/mod.rs:265-274 | Existing, AlreadyConnecting, or marked |
| HandshakeStore.Backend.Unmark | crates/pegastore-rdma/src/rc_backend/mod.rs:278-279 | a failed preparation takes its mark back, and nothing else |
| HandshakeStore.Backend.Publish | crates/pegastore-rdma/src/rc_backend/mod.rs:251-258 | sessions join their NIC's queue in order; the metadata are their endpoints |
| HandshakeStore.Backend.CheckRemote | crates/pegastore-rdma/src/rc_backend/mod.rs:292-306 | InvalidArgument for a wrong number of NICs, Backend for a wrong number of queue pairs, none exactly for metadata of the right shape |
| HandshakeStore.Backend.Join | crates/pegastore-rdma/src/rc_backend/mod.rs:311-336 | the locked section, with both early ends, computes the specified pops and drops |
| HandshakeStore.Backend.Finish | crates/pegastore-rdma/src/rc_backend/mod.rs:355-376 | unmarked, connected, everything else as it was |
| HandshakeStore.Backend.Abort | crates/pegastore-rdma/src/rc_backend/mod.rs:381-389 | unmarked, own sessions dropped |
| HandshakeStore.Backend.Invalidate | crates/pegastore-rdma/src/rc_backend/mod.rs:404-409 | the connection goes, every other one is as it was |
| HandshakeStore.Backend.NumQps | crates/pegastore-rdma/src/rc_backend/state.rs:132-138 | connections times NICs times queue pairs per peer |

## Left out

- CUDA calls, memory mapping, host registration and stream synchronisation: a copy is an abstract byte move, and an engine's failure is a step that may happen at any time.
- ibverbs objects, link layers, address handles and queue-pair attributes other than number, PSN and destination; worker threads and their channels.
- Reading topology from sysfs or nvidia-smi, PCI addresses, logging, error texts and contexts (error kinds are kept).
- Serialisation of descriptors and handshake metadata: it is done by a library that is not part of this model.
- The `Store` and layer types, builders, `stat`, `info`, `used`, pool statistics: thin forwarding or plain projections.
- Contents of lent memory: the owner may change it at any time, so only its addresses are modelled; a get of the single-node machine opens pinned replicas only.
- The replies of a single-node put: each slot's answer goes with the step that ends it (Skip, Install, Abandon) and is not recorded; the errors of one allocation are in `LocalStore.Local.AllocOrEvict`.
- The choice of the nearest replica in the single-node backend: its machine opens any pinned replica, which covers every choice. The rule itself is `MemoryOps.SourceUnique` for the reference backend.
- 64-bit overflow of `used + need` and of rounding a request up to 2 MiB: sizes are unbounded naturals. Address arithmetic, work-request ids, round-robin counters and byte totals of transfers do model their width.
- Vector sort and deduplication, `partition_point`, ordered-map ranges, string splitting and number parsing are library calls and are functions here.
- Liveness beyond `LocalProgress.PutReturns`: a completion that never comes, lock fairness, and even spreading over round-robin wrap-around.
- BatchExec.ExecuteBatch: does not model endless polling, because the environment's polls are a finite list; an unfinished batch answers `Waiting` when they are used up.
- LocalMachine.Next: has no step for a panic on a stale queue index or a vanished slot, because the lock is poisoned then and no later locked step happens; `LocalPanics.Breaks` names the states where the source would panic, and `LocalPanics.WideExactly` says which claims lead to one.
- LocalStore.Local.AllocOrEvict: without other threads, dropped replicas hold the last reference to their buffers, so these return to the pool at once; concurrent readers are in the step machine.
- MemoryStore.Memory.Put: does not describe a call that creates a Cache key narrower than its entries queued on bounded pools, because a later scan may panic then (`MemoryPanics.ReusableExactly`); it also refuses such entries on a pool of capacity zero, where nothing is ever popped.
