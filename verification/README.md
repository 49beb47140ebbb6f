# Section demultiplexer software, proved in Dafny

This project models the DVB section demultiplexer of the repository and the structures it rests on,
and proves what they keep over whole runs:

- the section buffer pool with its channels and filters (`SRC/hld/dmx/dmx_adv.c`), over the intrusive
  circular lists of `inc/api/libc/list.h`;
- the slot layer, which shares channels and filters among callbacks (`SRC/hld/dmx/dmx_adv_slot.c`);
- the byte ring and the PID-shared hardware filters of `SRC/udi/ipanel/ipanel_demux.c`;
- the socket manager (`SRC/udi/ipanel/ipanel_socket.c`), the device registry (`SRC/hld/hld_dev.c`) and
  the wide-string helpers (`SRC/lib/libloader/ld_osd_common.c`).

`dafny verify dfyconfig.toml` checks all files.

## How the files fit together

Code that updates state in place is an object: the lists of `HeapList` and `DeviceRegistry` are nodes
on the heap, `AdvDmx`, `SlotTable`, `IpanelDemux` and `SocketManager` are classes whose fields are the
globals of the C file, arrays where the source has arrays. Each method is proved to compute a
transition function of the matching `*State` module (`DmxState`, `SlotState`, `SectionRing`,
`ChannelState`, `SocketState`, `RegistryState`, `DeviceGraph`). `HeapQueues` and `DeviceApi` tie the
heap to the whole state: all rings of the section layer, all devices ever allocated. The theorems are
about those functions, over all states and runs:

| part | files |
|---|---|
| lists | Select, HeapList, HeapQueues |
| section layer | Bytes, DmxState, DmxInvariant, DmxBehaviour, DmxEffects, AdvDmx, FilterMask, Arena |
| interleaving | NodeFlow, NodeRaces and FlowAlone (nodes), FilterRace and RaceAlone (statements of the channel and filter calls), LockPaths and LockOrder (mutexes) |
| slot layer | SlotState, SlotInvariant, SlotAllocation, SlotProtocol, SlotRelease, SlotRuns, SlotTable |
| end to end | History, Delivery, Handover, DeliveryRuns, AdmSteps, AdmProgress |
| iPanel | SectionRing, RingProtocol, ChannelState, ChannelBehaviour, IpanelDemux |
| sockets, strings | SocketState, SocketBehaviour, SocketManager, UniString |
| devices | RegistryState, DeviceRegistry, DeviceGraph, DeviceRuns, DeviceApi |

## What is assumed

- `adv_dmx_sec_cb` and `ali_get_section_callback` each run as one step, and a section is at most 4096
  bytes long (the size of the buffer the driver fills).
- `osal_task_dispatch_off` makes each list operation atomic. `NodeFlow` interleaves contexts between
  any two list operations and between the statements of `adv_dmx_alloc_channel` and
  `adv_dmx_free_channel` that store, test, return and clear `wk_buf`; `FilterRace` interleaves single
  statements of the channel and filter calls on all channels. The ADM task skips the mutex in both, and
  tests a channel once before its inner loop.
- Hardware, device table, memory allocator, mutex creation, `select`, `socket`, `connect` and `recv`
  answer through parameters, so every theorem holds for every answer unless it says otherwise.
- In `Delivery` the slot layer is the only client of the section layer, so each section callback is the
  slot callback, which always reports success, and the registered callbacks call neither layer. The
  slot mutex keeps `adv_dmx_slot_alloc` and `adv_dmx_slot_free` apart, but not from the ADM task, which
  takes no mutex around the slot callback. The test, peek, call, pop and return of the ADM task are
  separate steps, anything may come between them, and a test may miss a channel that a slot call has
  disabled for the moment. `adv_dmx_slot_alloc` is two events, split at `adv_dmx_en_channel`;
  `adv_dmx_slot_free` is the clearing of the callback position, one event for each node of its flush, and
  one for the rest. A slot counts as filled when `callback[0]`, its last field, is written. One slot
  callback is one step: it sees one slot table and the bytes the node then holds.
- `adv_dmx_slot_alloc` does not check that `length` fits the 16-byte arrays of a slot; callers must.
- Buffer addresses and sizes given to `adv_dmx_init` do not overflow 32 bits; `sizeof(BUF_NODE)` is 16
  and `sizeof(CHANNEL)` is a parameter.
- Device names fit the 16-byte field, and a device type has a zero lower half, as all constants do.
- Callers of the device registry pass devices that `dev_alloc` returned and `dev_free` has not freed.
- The network stack never returns a descriptor that is still open.

## Where the code does less than it promises

Where a lemma is named, it proves the exact condition or gives a concrete run.

- The ADM task delivers while slots come and go, and a section can miss its slot in three situations.
  `adv_dmx_slot_alloc` enables the channel before it fills the slot, so a section of the new filter can be
  reported as delivered although no callback saw it (`DeliveryRuns.EarlyCallHappens`). The flush in
  `adv_dmx_slot_free` can come between peek and call, and a new slot gets the flushed section
  (`DeliveryRuns.LateCallHappens`), or between call and pop, and the section of another slot is taken out
  uncalled (`DeliveryRuns.UncalledPopHappens`). There is no fourth (`Handover.RunHandsOver`).
- On the level of nodes, a release or flush between the peek and the pop can lose a node for good, or
  discard a section that was never called back (`NodeRaces.LeakHappens`, `NodeRaces.SkipHappens`).
- The ADM task skips the mutex. Channel calls from inside a callback race with API callers: two
  allocations can pick the same channel and lose a working buffer (`NodeRaces.RaceRun`,
  `NodeRaces.SafeIffSerialized`); filter calls can reach the fatal ASSERT
  (`FilterRace.SafeIffSerialized`).
- `adv_dmx_slot_alloc` leaks its new channel on PID 0x1fff or when the hardware does not start; writes
  out of bounds when no slot or callback position is left; and treats empty slots as the stream
  (0xffffffff, 0x1fff) (`SlotProtocol.AllocLeaksExactly`, `SlotProtocol.AllocOutOfBounds`,
  `SlotProtocol.AllocRegisters`, `SlotAllocation.AllocKeepsProtocol`). A shared channel whose close or
  reopen fails is left broken.
- `adv_dmx_get_pid` is a getter that flushes the queue.
- `adv_dmx_init` rounds an unaligned buffer down, to before its start (`Arena.InsideIffAligned`).
- The ring guard of `ipanel_demux.c` ignores the 36-byte header and acts after the runback
  (`RingProtocol.SafeIffRoom`, `RingProtocol.GuardIsTooWeak`).
- Every failed channel creation uses up a channel (`ChannelBehaviour.FailuresExhaust`).
- Socket events outlive their socket (`SocketBehaviour.StaleEventReachesNewOwner`).
- `hld_dev_remove` searches by name but links past its argument. Freeing a device whose registration was
  refused truncates the list (`DeviceGraph.FreeRefusedTruncates`); devices that fell off keep their
  links, so a later free can link a device to itself or list a name twice (`DeviceRuns.CycleHappens`,
  `DeviceRuns.RepeatHappens`; exact condition `DeviceGraph.FreeOkIff`). Ids repeat after a free.
- `adv_dmx_slot_init` ends without returning a value on success; the model gives it none.

## Model

| member | source | states |
|---|---|---|
| HeapList.RingDetermines | inc/api/libc/list.h:24-26 | the heap determines the sequence: two readings of one circular list are the same sequence |
| HeapList.ListAdd | inc/api/libc/list.h:52-55 | a new cell becomes the first entry; all others keep their order, links correct in both directions |
| HeapList.ListAddTail | inc/api/libc/list.h:65-68 | a new cell becomes the last entry |
| HeapList.ListDel | inc/api/libc/list.h:77-92 | exactly the given entry leaves, the others keep their order; the entry keeps its own links |
| HeapList.ListEmpty | inc/api/libc/list.h:108-111 | true exactly for the list without entries |
| HeapList.ListSplice | inc/api/libc/list.h:118-132 | the source entries, in order, come in front of the destination entries; an empty source changes nothing |
| HeapList.ListValidCheck | inc/api/libc/list.h:134-149 | terminates on every well-formed list, returns 0 exactly for the empty one and 1 otherwise, never -1 |
| HeapList.NodeReturn | SRC/hld/dmx/dmx_adv.c:63-75 | the node is appended at the tail |
| HeapList.NodeTryGet | SRC/hld/dmx/dmx_adv.c:99-118 | returns the first node and leaves it in place; null exactly for the empty list |
| HeapList.NodeGet | SRC/hld/dmx/dmx_adv.c:77-97 | the first node is returned and taken out; null exactly for the empty list |
| HeapList.NodeTryGetOne | SRC/hld/dmx/dmx_adv.c:146-166 | returns the earliest node with the filter id, or null if there is none |
| HeapList.NodeGetOne | SRC/hld/dmx/dmx_adv.c:120-144 | takes out the earliest node with the filter id; all others keep their order |
| HeapList.FlushAll | SRC/hld/dmx/dmx_adv.c:581-582 | the loop terminates; every node of one list moves, in order, behind the nodes of the other; both stay well formed |
| HeapList.FlushFilter | SRC/hld/dmx/dmx_adv.c:777-778 | exactly the nodes of one filter move, in order; the nodes of all other filters stay in order |
| HeapList.MoveFirst | SRC/hld/dmx/dmx_adv.c:581-582 | one round of the flush: the first node of one list becomes the last of the other; false exactly on the empty list |
| HeapList.MoveOne | SRC/hld/dmx/dmx_adv.c:777-778 | one round of the filter flush: the earliest node of the filter becomes the last of the other list; false exactly if there is none |
| HeapQueues.Flush | SRC/hld/dmx/dmx_adv.c:581-582 | on the rings of all channels at once: the heap that represented a state of the section layer represents the state after the flush |
| HeapQueues.FlushOneFilter | SRC/hld/dmx/dmx_adv.c:777-778 | the same for the flush of one filter |
| HeapQueues.Release | SRC/hld/dmx/dmx_adv.c:266-291 | the same for rel_sec, whose answer is that of the transition function |
| HeapQueues.Peek | SRC/hld/dmx/dmx_adv.c:232-258 | the cell returned is the cell of the node get_sec names, or null for none |
| HeapQueues.Accept | SRC/hld/dmx/dmx_adv.c:321-330 | the same for sec_cb once its tests hold; the filter id is written into the cell before it is queued |
| HeapQueues.TakeWork | SRC/hld/dmx/dmx_adv.c:512-569 | the same for alloc_channel: with a channel to open and a free cell, the first free cell leaves the free ring; otherwise no ring changes, as in the transition function, which then fails; no queue changes either way |
| HeapQueues.ReturnWork | SRC/hld/dmx/dmx_adv.c:571-597 | the same for free_channel: on an allocated, disabled channel the queue and then the working buffer end up on the free ring; otherwise no ring changes |
| HeapQueues.Carve | SRC/hld/dmx/dmx_adv.c:420-443 | builds disjoint rings: one empty queue per channel and all nodes in order on the free ring |
| HeapQueues.CarvedRepresents | SRC/hld/dmx/dmx_adv.c:420-443 | these rings represent any well-formed state with all nodes free in order and empty queues |
| HeapQueues.WfSpread | SRC/hld/dmx/dmx_adv.c:63-144 | in a well-formed state no two of the rings would share a cell |
| Select.SelectPartition | SRC/hld/dmx/dmx_adv.c:777-778 | picking out one filter and keeping the rest loses and duplicates nothing |
| Select.SelectMembers | SRC/hld/dmx/dmx_adv.c:777-778 | what is picked has the filter id, what is kept has another |
| Select.SelectInOrder | SRC/hld/dmx/dmx_adv.c:777-778 | picking and keeping preserve the order of the list |
| DmxInvariant.ExactlyOnePlace | SRC/hld/dmx/dmx_adv.c:310-335 | in a well-formed state every section node is in exactly one place: one index of the free list, one index of one queue, one working buffer, or one index of the list of nodes in no list |
| DmxInvariant.RunWf | SRC/hld/dmx/dmx_adv.c:310-335 | over every run of driver callbacks, ADM passes, single ADM rounds and API calls, with every hardware answer: each node stays in exactly one place, each queued section belongs to an allocated and enabled filter, and the ASSERT of free_filter is unreachable |
| DmxInvariant.StepWf | SRC/hld/dmx/dmx_adv.c:310-853 | each single operation keeps that invariant |
| DmxInvariant.SecCbWf | SRC/hld/dmx/dmx_adv.c:310-335 | accepting a section moves one free node to the tail of one queue and makes no section stale |
| DmxInvariant.FreeFilterWf | SRC/hld/dmx/dmx_adv.c:763-795 | freeing a filter leaves no section of it behind |
| DmxInvariant.SetFilterWf | SRC/hld/dmx/dmx_adv.c:797-831 | reconfiguring a filter keeps the invariant; what it does to each field is DmxEffects.SetFilterExact |
| DmxInvariant.AdmPassWf | SRC/hld/dmx/dmx_adv.c:345-373 | a pass of the ADM task keeps every node in exactly one place, whatever the callbacks answer |
| DmxInvariant.AdmRoundWf | SRC/hld/dmx/dmx_adv.c:351-369 | so does a single round of its inner loop, between which other operations may come |
| DmxInvariant.PopHeadWf | SRC/hld/dmx/dmx_adv.c:359 | the ADM pop takes a node out of one queue and makes it one that is in no list |
| DmxInvariant.ReturnLastWf | SRC/hld/dmx/dmx_adv.c:361 | the return behind it puts the node taken last back on the free list tail |
| DmxBehaviour.RetrieveIsEarliest | SRC/hld/dmx/dmx_adv.c:228-308 | retrieve_sec succeeds exactly when a qualifying section has a length in 1..max_len; it then returns the bytes of the earliest one, removes exactly the node get_sec peeked, keeps the order of the others and returns the node to the free list tail; a failed call changes nothing, but reports length and filter id of the earliest section, or length 0 when there is none |
| DmxBehaviour.SpecificGetMisses | SRC/hld/dmx/dmx_adv.c:241-249 | asking for one filter finds nothing exactly when no section of that filter is queued |
| DmxBehaviour.AllocFilterLeast | SRC/hld/dmx/dmx_adv.c:734-761 | returns the least unset index and adds only it; fails exactly when get_filter_num is 32, or on a channel that is not allocated; the count grows by one |
| DmxBehaviour.FreeUndoesAlloc | SRC/hld/dmx/dmx_adv.c:734-795 | free_filter after alloc_filter restores the state to the last field |
| DmxBehaviour.FreeFilterExact | SRC/hld/dmx/dmx_adv.c:763-795 | succeeds exactly on an allocated filter, moves exactly its sections, in order, to the free list, keeps all others, lowers get_filter_num by one; a failed call changes nothing |
| DmxBehaviour.AllocChannelFails | SRC/hld/dmx/dmx_adv.c:512-569 | fails exactly when one of its tests fails and then changes nothing; on success only the first idle channel changes: blank but for device, number, callback, crc flag and, as working buffer, the first free node |
| DmxBehaviour.FreeUndoesAllocChannel | SRC/hld/dmx/dmx_adv.c:512-597 | free_channel after alloc_channel restores every channel up to the remembered callback and rotates the working buffer to the free list tail |
| DmxBehaviour.EnableLetsIn | SRC/hld/dmx/dmx_adv.c:638-661 | enabling succeeds exactly on an allocated, disabled channel and a granted request; it then lets in exactly the sections of enabled filters, none of which was let in before, and disabling restores the state |
| DmxBehaviour.DisableShutsOut | SRC/hld/dmx/dmx_adv.c:663-692 | disabling succeeds exactly on an allocated, enabled channel that closes; then no section is accepted and the ADM task makes no call, while get_sec still finds what it found; enabling restores the state |
| DmxBehaviour.SetThenGetPid | SRC/hld/dmx/dmx_adv.c:599-636 | a pid that could be set is the pid that is read; both calls flush the queue, in order, to the free list tail, and change nothing else of the channel, so that it accepts what it accepted; calls on other channels change nothing |
| DmxBehaviour.ResetOutcomes | SRC/hld/dmx/dmx_adv.c:694-732 | a reset flushes unless a running channel will not close; every field of the channel but its queue is what it was, so it accepts exactly what it accepted before; after a failed restart it still counts as enabled, so enabling it is refused |
| DmxBehaviour.QuitReclaims | SRC/hld/dmx/dmx_adv.c:474-497 | the quit loop leaves every channel blank, or, where the hardware does not close it, enabled without filters and sections; so it unallocates every channel exactly when the hardware closes every enabled one, and then every node that was not lost before is back on the free list exactly once |
| DmxBehaviour.AdmPassPerChannel | SRC/hld/dmx/dmx_adv.c:345-373 | one pass removes from each enabled channel exactly the longest prefix its callback accepts, calls back once more for the first refused section, and touches nothing else of any channel |
| DmxEffects.SetFilterExact | SRC/hld/dmx/dmx_adv.c:797-831 | set_filter succeeds exactly on an allocated filter and a length of at most 32; then no section of the filter is queued, exactly those are behind the old free list, in order, all others keep their order, the two rows are the given bytes followed by zeros, the filter is enabled, and nothing else changed; a failed call changes nothing |
| DmxEffects.OldMaskForgotten | SRC/hld/dmx/dmx_adv.c:809-812 | after set_filter no get_sec finds a section that the old mask selected |
| DmxEffects.FilterNumIs | SRC/hld/dmx/dmx_adv.c:833-853 | get_filter_num is -1 exactly for a channel that does not exist, and otherwise the number of allocated filters, none on an idle channel |
| DmxEffects.FreeChNumIs | SRC/hld/dmx/dmx_adv.c:855-873 | get_free_ch_num is the cardinality of the set of channels not allocated, or -1 before initialisation |
| DmxEffects.AllocLowersFree | SRC/hld/dmx/dmx_adv.c:512-569 | a successful alloc_channel lowers it by one and hands out a channel without filters and pid |
| DmxEffects.FreeChannelExact | SRC/hld/dmx/dmx_adv.c:571-597 | free_channel succeeds exactly on an allocated, disabled channel, which is blank then but for its callback; its sections and then its working buffer are behind the old free list; one more channel is free |
| DmxEffects.SecCbExact | SRC/hld/dmx/dmx_adv.c:310-335 | a section is accepted exactly on an allocated, enabled channel for an enabled filter while a node is free; the first free node holds it and is the last of the queue; no other node and field changes |
| DmxEffects.GetSecExact | SRC/hld/dmx/dmx_adv.c:228-260 | get_sec names a node exactly when it is the head, or the earliest section of the filter asked for |
| DmxEffects.ReleaseExact | SRC/hld/dmx/dmx_adv.c:262-292 | rel_sec succeeds exactly when there is such a section, and moves it, and nothing else, to the free list tail |
| DmxEffects.PassInOrder | SRC/hld/dmx/dmx_adv.c:345-373 | a pass calls back in the order of the channels, and puts back exactly the nodes of the accepted sections, in the order of their calls |
| AdvDmx.AdvDmx.constructor | SRC/hld/dmx/dmx_adv.c:420-443 | after initialisation all nodes are free in address order, all channels blank, and the invariant holds |
| AdvDmx.AdvDmx.FlushQueue | SRC/hld/dmx/dmx_adv.c:581-582 | the loop terminates with the queue empty and its nodes, in order, behind the free list; nothing else changes; HeapQueues.Flush is the same step on the rings |
| AdvDmx.AdvDmx.FlushOneFilter | SRC/hld/dmx/dmx_adv.c:777-778 | the loop terminates with exactly the nodes of one filter moved, in order; the rest of the queue keeps its order; HeapQueues.FlushOneFilter is the same step on the rings |
| AdvDmx.AdvDmx.GetSec | SRC/hld/dmx/dmx_adv.c:228-260 | returns the head, or the earliest section of one live filter, or none; changes nothing |
| AdvDmx.AdvDmx.RelSec | SRC/hld/dmx/dmx_adv.c:262-292 | the node get_sec would peek, and no other, goes to the free list tail; fails exactly when get_sec finds none; keeps the invariant |
| AdvDmx.AdvDmx.RetrieveSec | SRC/hld/dmx/dmx_adv.c:294-308 | on success the section bytes fill the front of the caller buffer and the node is released; on failure buffer and queues are unchanged |
| AdvDmx.AdvDmx.SecCb | SRC/hld/dmx/dmx_adv.c:310-335 | an accepted section is stored in the first free node, which becomes the last of its queue; otherwise nothing changes; keeps the invariant |
| AdvDmx.AdvDmx.AdmCallback | SRC/hld/dmx/dmx_adv.c:351-369 | one round: the callback sees the head; on success the head and no other node goes to the free list |
| AdvDmx.AdvDmx.AdmChannel | SRC/hld/dmx/dmx_adv.c:349-371 | the inner loop terminates having removed exactly the accepted prefix of the queue |
| AdvDmx.AdvDmx.AdmPass | SRC/hld/dmx/dmx_adv.c:345-373 | the pass over all channels terminates with exactly the queues and calls AdmPassPerChannel describes |
| AdvDmx.AdvDmx.AllocChannel | SRC/hld/dmx/dmx_adv.c:512-569 | takes the first idle channel and the first free node as its working buffer, or changes nothing; keeps the invariant |
| AdvDmx.AdvDmx.FreeChannel | SRC/hld/dmx/dmx_adv.c:571-597 | returns queue and working buffer to the free list and blanks the channel; the ASSERT on a missing working buffer cannot fire |
| AdvDmx.AdvDmx.SetPid | SRC/hld/dmx/dmx_adv.c:599-617 | on a disabled channel the queue is flushed and the pid set; otherwise nothing changes |
| AdvDmx.AdvDmx.GetPid | SRC/hld/dmx/dmx_adv.c:619-636 | returns the pid and, as a side effect, flushes the queue |
| AdvDmx.AdvDmx.EnChannel | SRC/hld/dmx/dmx_adv.c:638-661 | a disabled channel becomes enabled exactly when the hardware grants the request; nothing else changes |
| AdvDmx.AdvDmx.DisChannel | SRC/hld/dmx/dmx_adv.c:663-692 | an enabled channel becomes disabled exactly when the hardware closes; its queue is kept |
| AdvDmx.AdvDmx.RstChannel | SRC/hld/dmx/dmx_adv.c:694-732 | flushes the queue unless the close fails; after a failed restart the channel stays marked enabled |
| AdvDmx.AdvDmx.AllocFilter | SRC/hld/dmx/dmx_adv.c:734-761 | the scan adds the least unallocated filter, or fails when all 32 are taken |
| AdvDmx.AdvDmx.FreeFilter | SRC/hld/dmx/dmx_adv.c:763-795 | filter deallocated, disabled and its sections moved to the free list; the ASSERT cannot fire |
| AdvDmx.AdvDmx.SetFilter | SRC/hld/dmx/dmx_adv.c:797-831 | rows replaced and zero padded, filter enabled, its old sections flushed; nothing else changes |
| AdvDmx.AdvDmx.GetFilterNum | SRC/hld/dmx/dmx_adv.c:833-853 | the bit-counting loop returns the size of the set of allocated filters |
| AdvDmx.AdvDmx.GetFreeChNum | SRC/hld/dmx/dmx_adv.c:855-873 | counts the channels that are not allocated |
| AdvDmx.AdvDmx.Quit | SRC/hld/dmx/dmx_adv.c:468-510 | the loops end in the state QuitReclaims describes, then device list and channel array are dropped; reports success exactly when no channel was allocated |
| AdvDmx.CountBitsIsSize | SRC/hld/dmx/dmx_adv.c:843-847 | counting set bits one by one gives the cardinality of the set |
| AdvDmx.InitialWf | SRC/hld/dmx/dmx_adv.c:420-443 | the state after carving satisfies the invariant |
| FilterMask.AllocBit | SRC/hld/dmx/dmx_adv.c:742-756 | on the 32-bit word: the least clear bit is set; fails exactly when all 32 are set |
| FilterMask.FreeBit | SRC/hld/dmx/dmx_adv.c:774 | on the 32-bit word: exactly the one bit is cleared |
| FilterMask.CountMask | SRC/hld/dmx/dmx_adv.c:843-847 | the loop over the 32-bit word returns the number of set bits |
| FilterMask.MembersUpdated | SRC/hld/dmx/dmx_adv.c:749-774 | or-ing 1<<i adds exactly i, and-ing its complement removes exactly i |
| FilterMask.MaskRefinesSet | SRC/hld/dmx/dmx_adv.c:734-795 | any sequence of allocations and frees does to the word what it does to the set of ids |
| Bits.SetThenClear | SRC/hld/dmx/dmx_adv.c:749-774 | clearing a freshly set bit restores the word |
| NodeFlow.StepPlaces | SRC/hld/dmx/dmx_adv.c:63-144 | no step of any context moves a node to two places or to none, whoever takes the mutex |
| NodeFlow.RunOnePlace | SRC/hld/dmx/dmx_adv.c:63-144 | under every interleaving of driver, ADM task and API contexts, with any of them skipping the mutex and with peeks on channels that were disabled or freed after the test, each node is once in exactly one of: free list, a queue, a working buffer, a context, lost |
| NodeRaces.IdleOnePlace | SRC/hld/dmx/dmx_adv.c:437-443 | initialisation puts every node in exactly one place |
| NodeFlow.LosesExactly | SRC/hld/dmx/dmx_adv.c:357-597 | a step loses nodes in exactly three cases: a pop of a head other than the peeked one, a wk_buf that is overwritten, a record that is reset while it still owns nodes; a list is damaged exactly when one wk_buf is returned twice |
| NodeFlow.RunWithoutInterference | SRC/hld/dmx/dmx_adv.c:351-363 | if nobody takes the peeked section between peek and pop, no pop loses a node and every pop removes the very section that was called back |
| NodeFlow.DisturbedSincePeek | SRC/hld/dmx/dmx_adv.c:351-363 | whenever the ADM task stands disturbed, the step that took its section can be pointed out, and it came after the peek that this pop belongs to |
| NodeRaces.LeakHappens | SRC/hld/dmx/dmx_adv.c:357-363 | a run from initialisation in which a release between peek and pop loses a node |
| NodeRaces.SkipHappens | SRC/hld/dmx/dmx_adv.c:357-363 | a run from initialisation in which the pop sees the same node refilled and discards a section that was never called back |
| NodeRaces.StepInv | SRC/hld/dmx/dmx_adv.c:512-597 | with serialized callers of the channel functions, an idle channel owns no working buffer and an allocated one its own, and only a pop can lose a node |
| NodeRaces.RaceRun | SRC/hld/dmx/dmx_adv.c:526-562 | whenever one of two callers skips the mutex: a run from initialisation in which two alloc_channel calls pick the same channel and the second overwrites the working buffer of the first, so a node is lost without any pop |
| NodeRaces.SafeIffSerialized | SRC/hld/dmx/dmx_adv.c:189-197 | in every run only late pops lose nodes and no list is damaged, if and only if at most one context calls the channel functions or all that do take the mutex |
| FlowAlone.ArriveMirrors | SRC/hld/dmx/dmx_adv.c:310-335 | the driver step of NodeFlow is sec_cb of DmxState |
| FlowAlone.ReleaseMirrors | SRC/hld/dmx/dmx_adv.c:262-292 | its two steps of rel_sec, taken with nobody in between, are rel_sec |
| FlowAlone.RoundMirrors | SRC/hld/dmx/dmx_adv.c:351-363 | peek, pop and return of its ADM task are one round |
| FlowAlone.RefusedMirrors | SRC/hld/dmx/dmx_adv.c:351-369 | peek and a refused callback change nothing |
| FlowAlone.SwitchMirrors | SRC/hld/dmx/dmx_adv.c:638-692 | its switch is en_channel and dis_channel where the hardware agrees |
| FlowAlone.AllocMirrors | SRC/hld/dmx/dmx_adv.c:512-569 | its three steps of alloc_channel are alloc_channel |
| FlowAlone.FreeMirrors | SRC/hld/dmx/dmx_adv.c:571-597 | its steps of free_channel, two for each queued node, are free_channel |
| FlowAlone.TestsMirror | SRC/hld/dmx/dmx_adv.c:526-578 | the contexts that enter find the tests of DmxState: alloc_channel the first idle channel, free_channel an allocated, disabled one |
| FilterRace.RunSound | SRC/hld/dmx/dmx_adv.c:512-831 | statement by statement, over every run from initialisation, with serialized calls of the functions that allocate, free, enable and disable channels and allocate, set and free filters: no section is stale outside a flush of its filter, no enabled filter is unallocated and no allocated channel is without wk_buf except between two statements, idle channels are blank, and neither ASSERT is reached |
| FilterRace.QuietIsClean | SRC/hld/dmx/dmx_adv.c:512-831 | whenever no such call is in progress, every queued section has an allocated and enabled filter, every allocated channel its working buffer, and every idle channel is blank |
| FilterRace.RaceRun | SRC/hld/dmx/dmx_adv.c:763-831 | whenever one of two contexts skips the mutex: a run from initialisation in which set_filter enables a filter that is being freed, and the next free_filter reaches its ASSERT |
| FilterRace.SafeIffSerialized | SRC/hld/dmx/dmx_adv.c:189-197 | for any number of channels, both ASSERTs are unreachable in every run exactly when every context takes the mutex or there is only one; a callback on the ADM task does not take it |
| RaceAlone.FreeFilterAlone | SRC/hld/dmx/dmx_adv.c:763-795 | the statements of free_filter in FilterRace, run alone, are free_filter of DmxState, and the ASSERT is not reached |
| RaceAlone.SetFilterAlone | SRC/hld/dmx/dmx_adv.c:797-831 | likewise set_filter |
| RaceAlone.FreeChannelAlone | SRC/hld/dmx/dmx_adv.c:571-597 | likewise free_channel |
| RaceAlone.AllocChannelAlone | SRC/hld/dmx/dmx_adv.c:526-562 | likewise alloc_channel, once its scan and node_get have succeeded |
| RaceAlone.AllocFilterAlone | SRC/hld/dmx/dmx_adv.c:742-750 | likewise alloc_filter, once its scan has succeeded |
| RaceAlone.SwitchAlone | SRC/hld/dmx/dmx_adv.c:638-692 | likewise en_channel and dis_channel, where the hardware agrees |
| RaceAlone.ArriveAlone | SRC/hld/dmx/dmx_adv.c:310-335 | a section is let in exactly when sec_cb accepts it, at the end of the queue |
| LockPaths.ChannelPathsReturn | SRC/hld/dmx/dmx_adv.c:512-732 | the lock paths of the channel functions, written branch by branch with every return site, return what the functions return |
| LockPaths.FilterPathsReturn | SRC/hld/dmx/dmx_adv.c:734-853 | the same for the filter functions |
| LockPaths.SlotAllocReturns | SRC/hld/dmx/dmx_adv_slot.c:138-256 | the lock path of slot_alloc, return site by return site, returns what slot_alloc returns, and ends at a stray write exactly when slot_alloc makes one |
| LockPaths.SlotFreeReturns | SRC/hld/dmx/dmx_adv_slot.c:258-322 | the lock path of slot_free returns what slot_free returns, however others change the section layer meanwhile |
| LockOrder.AdvPathsBalanced | SRC/hld/dmx/dmx_adv.c:512-853 | every return path of every adv_dmx function releases the mutex as often as it takes it, in turn |
| LockOrder.SlotAllocDisciplined | SRC/hld/dmx/dmx_adv_slot.c:138-256 | every return path of slot_alloc releases the slot mutex once and last, whatever the section layer answers at each call |
| LockOrder.SlotFreeDisciplined | SRC/hld/dmx/dmx_adv_slot.c:258-322 | so does every return path of slot_free, for any table |
| LockOrder.SlotAllocBracketed | SRC/hld/dmx/dmx_adv_slot.c:149-255 | on an initialised table every path of slot_alloc takes the slot mutex first, releases it last, and does neither in between |
| LockOrder.SlotFreeBracketed | SRC/hld/dmx/dmx_adv_slot.c:268-319 | so does every path of slot_free |
| LockOrder.AdvPathsLockOnce | SRC/hld/dmx/dmx_adv.c:512-853 | past its entry tests every adv_dmx function takes and releases the mutex exactly once; before them, and on the ADM task, not at all |
| LockOrder.SlotAllocLocks | SRC/hld/dmx/dmx_adv_slot.c:149-255 | the number of times slot_alloc takes the adv_dmx mutex on each path: once for each call it makes, roll-backs included, but for a set_pid with the invalid pid |
| LockOrder.DropLocks | SRC/hld/dmx/dmx_adv_slot.c:299-305 | taking a slot down locks twice, and four times when it was the last filter of the channel |
| LockOrder.CallsAreDisciplined | SRC/hld/dmx/dmx_adv_slot.c:138-322 | every call path of every function, early returns included, releases what it took and takes the slot mutex before the adv_dmx mutex |
| LockOrder.RunDisciplined | SRC/hld/dmx/dmx_adv_slot.c:138-322 | that discipline holds for every thread in every reachable state |
| LockOrder.OneAtATime | SRC/hld/dmx/dmx_adv_slot.c:149-319 | in every reachable state at most one thread stands between its lock and its unlock of the slot mutex, and at most one between those of the adv_dmx mutex |
| LockOrder.IdleThreads | SRC/hld/dmx/dmx_adv.c:168-197 | it holds when no thread is inside a call, where every run starts |
| LockOrder.NoDeadlock | SRC/hld/dmx/dmx_adv.c:168-197 | in every reachable state the wait-for relation has no cycle of any length |
| LockOrder.SomeoneCanRun | SRC/hld/dmx/dmx_adv.c:168-197 | whenever a thread is inside a call, some thread inside a call can take its next step |
| LockOrder.LockedCallbackWouldDeadlock | SRC/hld/dmx/dmx_adv.c:356-370 | had the ADM task kept the mutex around the callback, two threads could wait for each other |
| SlotInvariant.FiltersAreSlots | SRC/hld/dmx/dmx_adv_slot.c:299-300 | the filters allocated on a slot-owned channel are exactly the filters of its slots |
| SlotInvariant.InitialSlots | SRC/hld/dmx/dmx_adv_slot.c:104-136 | the table slot_init leaves, over any initialised section layer, satisfies the slot protocol |
| SlotInvariant.ShareChannelIffStream | SRC/hld/dmx/dmx_adv_slot.c:151-188 | two slots in use share a channel exactly when they share dmx id and pid, and never share a filter of it |
| SlotInvariant.AddFilterEffect | SRC/hld/dmx/dmx_adv_slot.c:213-241 | what allocating, setting and enabling a filter does to the channel in every outcome of the hardware |
| SlotAllocation.AllocKeepsProtocol | SRC/hld/dmx/dmx_adv_slot.c:138-256 | slot_alloc keeps the slot protocol if and only if the call is safe in the sense of AllocSafe, a condition on tables and hardware answers before the call |
| SlotAllocation.OpenEffect | SRC/hld/dmx/dmx_adv_slot.c:190-206 | opening a channel for a new stream, in every outcome |
| SlotAllocation.JoinEffect | SRC/hld/dmx/dmx_adv_slot.c:207-241 | closing a shared channel, adding a filter and reopening it, in every outcome |
| SlotProtocol.AllocOutOfBounds | SRC/hld/dmx/dmx_adv_slot.c:181-251 | slot_alloc writes outside a table exactly when the slot found has eight other callbacks, or a filter was obtained and no slot is left |
| SlotProtocol.AllocRegisters | SRC/hld/dmx/dmx_adv_slot.c:138-256 | a returned id names a slot of this stream, mask, value and length that has the callback besides those it had, in the first free position; a new slot has it first, and its rows are zero behind the length; no other slot changes; a call that fails changes no slot, except that with the key of the empty slots it leaves a stray callback, exactly when Strays says so |
| SlotProtocol.AllocLeaksExactly | SRC/hld/dmx/dmx_adv_slot.c:192-241 | slot_alloc leaks a channel exactly when it opened one and then met the invalid pid or hardware that would not start |
| SlotRelease.FreeInUse | SRC/hld/dmx/dmx_adv_slot.c:270-317 | slot_free on a slot in use: unknown callback, remaining callbacks, or release of the slot |
| SlotRelease.FreeUnknown | SRC/hld/dmx/dmx_adv_slot.c:270-317 | any other slot id, also the -1 of empty slots, changes nothing; the call fails, except for -1 and no callback while a slot is empty |
| SlotRelease.NothingBeforeInit | SRC/hld/dmx/dmx_adv_slot.c:145-264 | before slot_init both calls fail and change nothing |
| SlotRelease.DropEffect | SRC/hld/dmx/dmx_adv_slot.c:299-305 | taking down a filter takes only it and its sections from the channel; with the last one the channel is blank, or, if it does not close, enabled without filters and sections |
| SlotRelease.LastFilterIffLastSlot | SRC/hld/dmx/dmx_adv_slot.c:299-305 | a channel has one filter left exactly when one slot is left on it: reference counting without a counter |
| SlotRelease.ReleaseKeepsProtocol | SRC/hld/dmx/dmx_adv_slot.c:299-315 | releasing a slot keeps the protocol; the channel survives exactly when another slot uses it or the hardware will not close it |
| SlotRelease.FreeKeepsProtocol | SRC/hld/dmx/dmx_adv_slot.c:258-322 | slot_free keeps the protocol on every input and every hardware answer |
| SlotRelease.FreeLeaksExactly | SRC/hld/dmx/dmx_adv_slot.c:299-305 | slot_free leaks a channel exactly when it releases the last slot of one that will not close |
| SlotRuns.AllocGuarded | SRC/hld/dmx/dmx_adv_slot.c:138-256 | slot_alloc leaves no channel without a slot that could accept or hold a section, leaked channels included |
| SlotRuns.FreeGuarded | SRC/hld/dmx/dmx_adv_slot.c:258-322 | neither does slot_free |
| SlotRuns.RunKeepsProtocol | SRC/hld/dmx/dmx_adv_slot.c:104-322 | over every run of slot_alloc and slot_free from the initialised table whose allocations are safe: the slot protocol holds, channels without a slot are silent, and the channels of slots have the crc flag of slot_init; if no hardware answer leaves a channel behind, none is leaked |
| SlotTable.SlotTable.constructor | SRC/hld/dmx/dmx_adv_slot.c:68-72 | a zero-filled table, as a static C array, over a valid section layer |
| SlotTable.SlotTable.Init | SRC/hld/dmx/dmx_adv_slot.c:104-136 | resets the table once, later calls change nothing; over an initialised section layer the slot protocol then holds and, with no channel allocated, nothing is leaked |
| SlotTable.SlotTable.Alloc | SRC/hld/dmx/dmx_adv_slot.c:138-256 | table and section layer end as the theorems on slot_alloc describe, up to the write outside a table where the call makes one; both objects stay valid |
| SlotTable.SlotTable.Scan | SRC/hld/dmx/dmx_adv_slot.c:151-188 | the single loop finds the same slot, the last slot of the stream and the first empty slot |
| SlotTable.SlotTable.AddCallback | SRC/hld/dmx/dmx_adv_slot.c:165-185 | registers the callback once, in the first free position; reports the stray write when there is none |
| SlotTable.SlotTable.OpenSlot | SRC/hld/dmx/dmx_adv_slot.c:190-256 | for a new stream: channel, pid, filter and enabling in turn, with the roll-backs of the source; reports the stray write when no slot is empty |
| SlotTable.SlotTable.JoinSlot | SRC/hld/dmx/dmx_adv_slot.c:207-256 | for a known stream: its channel is closed, given a filter and reopened, with the roll-backs of the source; reports the stray write when no slot is empty |
| SlotTable.SlotTable.Free | SRC/hld/dmx/dmx_adv_slot.c:258-322 | the loop terminates; the callback is removed, and the last one takes filter, slot and possibly channel with it |
| SlotTable.SlotTable.Callback | SRC/hld/dmx/dmx_adv_slot.c:78-102 | calls the callbacks of the first slot with this channel and filter, in position order |
| SlotTable.SlotTable.GetPid | SRC/hld/dmx/dmx_adv_slot.c:324-339 | returns the pid of the first slot with this id, or the invalid pid |
| Delivery.RunDelivers | SRC/hld/dmx/dmx_adv.c:310-372 | over every run, with the test, peek, call, pop and return of the ADM task as separate steps and slot_alloc and slot_free split where the task can see it, down to the single nodes of the flush: each accepted section is waiting, delivered, flushed or lost; the queue is exactly the waiting ones in arrival order; none is overtaken; the calls of the delivered ones were made in arrival order |
| Delivery.StartOk | SRC/hld/dmx/dmx_adv.c:310-372 | any protocol state with empty queues can start such a run |
| Delivery.InitialStart | SRC/hld/dmx/dmx_adv_slot.c:104-136 | so can the table slot_init leaves over an initialised section layer |
| Delivery.HalvesMakeAlloc | SRC/hld/dmx/dmx_adv_slot.c:236-251 | the two events of slot_alloc together are slot_alloc, and the first one touches no slot it does not fill |
| Delivery.HalvesMakeFree | SRC/hld/dmx/dmx_adv_slot.c:277-315 | the two events of slot_free together are slot_free |
| Delivery.FlushNodeIsPart | SRC/hld/dmx/dmx_adv.c:777-778 | a node that slot_free flushes by itself is one that its last event need not flush: both ways end in the same state |
| Delivery.NextOk | SRC/hld/dmx/dmx_adv.c:310-372 | every single event keeps the invariant of RunDelivers |
| Handover.WaitingReachesItsSlot | SRC/hld/dmx/dmx_adv_slot.c:78-102 | in every reachable state a waiting section belongs to exactly one slot of the table as it will be when the allocation under way is through, and that slot gives it to each of its callbacks once, with its id and bytes, and to nobody else |
| Handover.CalledBackNow | SRC/hld/dmx/dmx_adv_slot.c:78-102 | called back now, it goes to exactly those callbacks, unless its slot is the one not yet filled: then to nobody |
| Handover.StepComplete | SRC/hld/dmx/dmx_adv_slot.c:78-102 | a step spoils the completeness of RunHandsOver exactly when it is a call or pop of the ADM task in one of the three situations |
| Handover.RunHandsOver | SRC/hld/dmx/dmx_adv_slot.c:78-256 | end to end, over every run: no section is lost, every delivered one was handed once to exactly the distinct callbacks of the one slot with its channel and filter, these calls were made in arrival order and no others were made, if and only if no step of the ADM task meets one of three situations: the slot of the head it calls back for is not filled yet; it calls somebody for a node that is no longer the head; it pops a head it has not called back for |
| DeliveryRuns.EarlyCallHappens | SRC/hld/dmx/dmx_adv_slot.c:236-251 | from every initialised system with a device and two nodes: a run in which a section is accepted, popped before the slot is filled, and handed to nobody, although the callback is registered in the end |
| DeliveryRuns.LateCallHappens | SRC/hld/dmx/dmx_adv.c:351-357 | a run in which slot_free flushes the peeked section before the call and the filter goes to a new slot: the callback of that slot gets the flushed section, which its mask has not selected |
| DeliveryRuns.UncalledPopHappens | SRC/hld/dmx/dmx_adv.c:357-363 | a run in which slot_free of one slot flushes the section being called back: the pop takes the section of the other slot, which was accepted, never flushed and is handed to nobody, and its node is in no list any more |
| Handover.StepDisturbs | SRC/hld/dmx/dmx_adv_slot.c:299-305 | only the flush in slot_free makes the ADM task hold a node that is not the head it peeked, or not have called back for the head |
| Handover.DisturbedByFlush | SRC/hld/dmx/dmx_adv_slot.c:299-305 | whenever the ADM task stands so, as at every late call and every uncalled pop, the flush that did it can be pointed out, and it came after the peek of this round |
| AdmSteps.FourStepsMakeRound | SRC/hld/dmx/dmx_adv.c:351-363 | peek, call, pop and return with nothing in between call the head back once and move it, and nothing else, to the free list tail |
| AdmSteps.LoopEmpties | SRC/hld/dmx/dmx_adv.c:349-371 | undisturbed, the steps of the inner loop come to an end with the whole queue delivered in order |
| AdmSteps.StepsMakePass | SRC/hld/dmx/dmx_adv.c:345-373 | undisturbed, the steps from the test of a channel to the end of the channel list are the rest of the pass as AdmPassPerChannel describes it, with callbacks that report success |
| AdmProgress.TestingDrains | SRC/hld/dmx/dmx_adv.c:340-373 | from every reachable state in which the task stands at a test, the end of the channel list included, some number of its steps empties the queue of every allocated, enabled channel and delivers everything that waited there, in arrival order, with no other calls; it starts over at channel 0 |
| AdmProgress.EverythingDelivered | SRC/hld/dmx/dmx_adv.c:340-373 | so from every other place where it is not disturbed: inside the loop, with a section peeked, called back or in hand |
| AdmProgress.QueuesEmpty | SRC/hld/dmx/dmx_adv.c:340-373 | disturbed or not, it comes back to a test and empties those queues |
| AdmProgress.AcceptedIsDelivered | SRC/hld/dmx/dmx_adv.c:310-373 | a section accepted at any time, after any pass, while the task is not disturbed, is handed by later steps to the callbacks of the slot table |
| AdmProgress.PopReturnsOrLoses | SRC/hld/dmx/dmx_adv.c:359-361 | the node popped goes back to the free list exactly if it is the one peeked; any other is in no list then |
| AdmProgress.LostForGood | SRC/hld/dmx/dmx_adv.c:359-361 | over every run, a node lost that way is never in a list again |
| AdmProgress.SkipIsTest | SRC/hld/dmx/dmx_adv.c:347 | a test that misses a channel is the test of that channel disabled |
| Handover.CallbackOfSlot | SRC/hld/dmx/dmx_adv_slot.c:86-97 | slot_callback reaches the first slot with this channel and filter |
| Handover.CallEachOnce | SRC/hld/dmx/dmx_adv_slot.c:90-94 | every registered callback is called exactly once |
| Handover.CallEachInOrder | SRC/hld/dmx/dmx_adv_slot.c:90-94 | and in position order |
| History.DeliverHistory | SRC/hld/dmx/dmx_adv.c:345-372 | one pass appends exactly the calls of all waiting sections, in order |
| History.SettleHistory | SRC/hld/dmx/dmx_adv.c:351-363 | settling the oldest waiting section takes it from the front and appends exactly its calls |
| History.FlushHistory | SRC/hld/dmx/dmx_adv.c:777-778 | flushing a filter turns exactly its waiting sections into flushed ones and makes no call |
| History.FlushOldestHistory | SRC/hld/dmx/dmx_adv.c:777-778 | flushing one node takes the first section of the filter out of the queue, makes no call |
| Delivery.ReleaseQueues | SRC/hld/dmx/dmx_adv_slot.c:299-305 | releasing a slot flushes exactly the sections of its filter |
| Arena.Init | SRC/hld/dmx/dmx_adv.c:394-443 | succeeds exactly when two nodes fit behind the channel records and device 0 exists; places records and nodes back to back and queues the nodes in address order |
| Arena.EnoughIs | SRC/hld/dmx/dmx_adv.c:394-433 | two nodes fit exactly when 8224 bytes are left behind the channel records, and as many nodes as fit are made |
| Arena.PiecesOrdered | SRC/hld/dmx/dmx_adv.c:413-443 | all channel records and nodes are pairwise disjoint and in address order |
| Arena.LeftoverBelowNode | SRC/hld/dmx/dmx_adv.c:431-443 | at least two nodes are placed and the bytes left over are fewer than one node |
| Arena.InsideIffAligned | SRC/hld/dmx/dmx_adv.c:406-413 | everything lies inside the caller buffer exactly when that buffer is 4-byte aligned, because the start is rounded down |
| Arena.DataApart | SRC/hld/dmx/dmx_adv.c:439-442 | the 4096 bytes of a node lie behind its header and touch no other piece |
| SectionRing.DecodeEncode | SRC/udi/ipanel/ipanel_demux.c:192-211 | the reader decodes the writer record exactly: pid, length, hit map and the bytes at the passed address |
| SectionRing.EncodeBytes | SRC/udi/ipanel/ipanel_demux.c:192-211 | the bytes of a record: length and PID high byte first, then 32 hit bytes, then the section |
| SectionRing.HoldsReads | SRC/udi/ipanel/ipanel_demux.c:244-303 | whenever the geometry invariant holds, the reader finds exactly the unread sections, in order, and stops |
| RingProtocol.PutKeeps | SRC/udi/ipanel/ipanel_demux.c:152-223 | a write with room adds the section at the end and keeps all others, or, refused, changes nothing the reader can see; which sections are refused is AcceptedIffFits |
| RingProtocol.PutExact | SRC/udi/ipanel/ipanel_demux.c:167-213 | in numbers: within 4132 bytes of the end the writer starts at 0; it stores a section that fits before the reader or else before the end, behind 36 bytes of header, and touches no other byte; of any other it leaves only the runback |
| RingProtocol.AcceptedIffFits | SRC/udi/ipanel/ipanel_demux.c:177-190 | exactly the sections that fit in that sense count as accepted in SafeIffRoom and RunDelivers |
| RingProtocol.DrainedTakesAny | SRC/udi/ipanel/ipanel_demux.c:167-213 | a drained ring, wherever its indices stand, takes every section of up to 4096 bytes, and the reader finds exactly that one |
| RingProtocol.AdvanceExact | SRC/udi/ipanel/ipanel_demux.c:244-303 | in numbers: the reader runs back under the same test and moves over the header and the length in its first two bytes |
| RingProtocol.AdvanceKeeps | SRC/udi/ipanel/ipanel_demux.c:244-303 | the reader takes the oldest unread section, which lies wholly inside the buffer, and leaves the rest |
| RingProtocol.SettleKeeps | SRC/udi/ipanel/ipanel_demux.c:249-256 | the runback of the reader alone keeps the unread sections |
| RingProtocol.EmptyIffMet | SRC/udi/ipanel/ipanel_demux.c:244 | with the geometry invariant the indices are equal exactly when nothing is unread |
| RingProtocol.SafeIffRoom | SRC/udi/ipanel/ipanel_demux.c:167-190 | a write of a given length is harmless for all contents if and only if Room holds, a test on rd, wr and the length |
| RingProtocol.PutBreaks | SRC/udi/ipanel/ipanel_demux.c:177-190 | without room some section of that length makes the reader miss the unread sections |
| RingProtocol.RunDelivers | SRC/udi/ipanel/ipanel_demux.c:152-303 | over any run whose writes find room: unread plus accepted equals dispatched plus still unread, in order, across any number of wraps |
| RingProtocol.AllDelivered | SRC/udi/ipanel/ipanel_demux.c:152-303 | from the empty ring, when the indices meet again everything accepted was dispatched exactly once, in order |
| RingProtocol.LandingOnReaderLosesAll | SRC/udi/ipanel/ipanel_demux.c:177-213 | a write that ends on rd makes a full ring look empty |
| RingProtocol.RefusedAfterWrapReadsStale | SRC/udi/ipanel/ipanel_demux.c:170-190 | a write refused after its runback leaves wr at 0; the reader then runs past the last section and decodes stale bytes at 0 |
| RingProtocol.GuardIsTooWeak | SRC/udi/ipanel/ipanel_demux.c:177-190 | from the empty ring, sections of 1024 bytes and one dispatch lead, with room throughout, to a ring on which the next section is accepted and lost, accepted over the oldest one, or refused, depending on its length, and each time the reader no longer finds the unread sections |
| IpanelDemux.IpanelDemux.OnSection | SRC/udi/ipanel/ipanel_demux.c:152-223 | in place: runback, guard, record bytes and new write index; every write stays inside the buffer |
| IpanelDemux.IpanelDemux.Store | SRC/udi/ipanel/ipanel_demux.c:192-211 | header, hit map and payload loops store exactly the encoded record and no other byte |
| IpanelDemux.IpanelDemux.DispatchOne | SRC/udi/ipanel/ipanel_demux.c:246-303 | one turn advances the reader and makes exactly the specified notifications |
| IpanelDemux.IpanelDemux.DispatchAll | SRC/udi/ipanel/ipanel_demux.c:244-312 | the inner loop terminates on a sound ring, announces every unread section in order and ends with an empty ring |
| IpanelDemux.NoticesExact | SRC/udi/ipanel/ipanel_demux.c:270-301 | a section is announced exactly once to each mask of each channel that is RUN, has its PID, has the mask enabled and an odd hit byte for it, in channel and mask order, and to nobody else |
| IpanelDemux.NoticeCarriesSection | SRC/udi/ipanel/ipanel_demux.c:264-301 | each announcement points at exactly the bytes of the section, inside the buffer |
| IpanelDemux.ClientLearns | SRC/udi/ipanel/ipanel_demux.c:244-303 | the announcements for the unread sections tell the client exactly these, in order, each to the masks it is for and with its own bytes |
| IpanelDemux.IpanelDemux.CreateChannel | SRC/udi/ipanel/ipanel_demux.c:327-425 | first idle channel becomes READY and gets the filter of its PID, or the first idle filter; a failure leaves the channel READY |
| IpanelDemux.IpanelDemux.StartChannel | SRC/udi/ipanel/ipanel_demux.c:431-462 | a READY channel becomes RUN exactly when a device exists; otherwise nothing changes |
| IpanelDemux.IpanelDemux.StopChannel | SRC/udi/ipanel/ipanel_demux.c:467-489 | a RUN channel becomes READY; otherwise nothing changes |
| IpanelDemux.StartedHears | SRC/udi/ipanel/ipanel_demux.c:431-489 | starting succeeds exactly for a READY channel with a device; only then is it told of a section, once per enabled mask that is hit; stopping restores the state |
| IpanelDemux.IpanelDemux.DestroyChannel | SRC/udi/ipanel/ipanel_demux.c:494-560 | a READY channel becomes idle, and an unshared running filter is closed first; if the close fails nothing changes |
| IpanelDemux.IpanelDemux.ExitDemux | SRC/udi/ipanel/ipanel_demux.c:871-883 | all channels are destroyed in turn as ExitReclaims describes, and both ring indices are 0 |
| ChannelState.ApplySound | SRC/udi/ipanel/ipanel_demux.c:327-560 | every call keeps the sharing invariant, whatever the driver answers |
| ChannelState.CreateSound | SRC/udi/ipanel/ipanel_demux.c:327-425 | creation keeps it, also when it fails half way and leaves a READY channel behind |
| ChannelState.DestroySound | SRC/udi/ipanel/ipanel_demux.c:494-560 | destruction keeps it |
| ChannelBehaviour.RunSound | SRC/udi/ipanel/ipanel_demux.c:327-560 | over every run: live channels point at running filters with their own PID, no PID has two filters in use, no filter runs without a non-idle channel |
| ChannelBehaviour.ResetStarts | SRC/udi/ipanel/ipanel_demux.c:757-826 | initialisation leads to a sound state without live channels |
| ChannelBehaviour.ShareIffSamePid | SRC/udi/ipanel/ipanel_demux.c:361-370 | two live channels share a hardware filter exactly when they have the same PID |
| ChannelBehaviour.OthersKeepReceiving | SRC/udi/ipanel/ipanel_demux.c:520-554 | destroying one channel leaves every other live channel with its running filter |
| ChannelBehaviour.ClosedIffLastUser | SRC/udi/ipanel/ipanel_demux.c:520-554 | destroying a live channel closes its filter exactly when no non-idle channel is left on it |
| ChannelBehaviour.CreateOutcome | SRC/udi/ipanel/ipanel_demux.c:343-424 | creation succeeds exactly when a channel is idle and a filter runs for the PID or an idle one is granted; every call, failed ones too, uses up an idle channel |
| ChannelBehaviour.CreateChannelPart | SRC/udi/ipanel/ipanel_demux.c:343-424 | creation takes the first idle channel and no other changes; after a failure it is READY and otherwise as it was; after a success it has the PID and a filter in use for it |
| ChannelBehaviour.CreateFilterPart | SRC/udi/ipanel/ipanel_demux.c:361-399 | a filter changes only if none is in use for the PID, one is idle and there is a device: the first idle one gets PID and handle and runs if the request is granted |
| ChannelBehaviour.CreateWithoutChannel | SRC/udi/ipanel/ipanel_demux.c:343-356 | without an idle channel the call fails and changes nothing |
| ChannelBehaviour.DestroyOutcome | SRC/udi/ipanel/ipanel_demux.c:509-560 | destroying succeeds exactly on a READY channel with a device and, where it is the last user of a running filter, a granted close; then exactly the channel and that filter are idle; a failed call changes nothing |
| ChannelBehaviour.StopOutcome | SRC/udi/ipanel/ipanel_demux.c:467-489 | stopping succeeds exactly on a RUN channel, and starting restores the state |
| ChannelBehaviour.ResetOutcome | SRC/udi/ipanel/ipanel_demux.c:757-826 | initialisation makes every channel and filter idle and takes the PID off every filter |
| ChannelBehaviour.FailuresExhaust | SRC/udi/ipanel/ipanel_demux.c:358-399 | as many failing creations as there are idle channels exhaust the channel table while no filter changes |
| ChannelBehaviour.ExitReclaims | SRC/udi/ipanel/ipanel_demux.c:871-883 | with a cooperating driver, exit leaves in use exactly the running channels and running exactly the filters they point at |
| SocketBehaviour.RunOk | SRC/udi/ipanel/ipanel_socket.c:315-460 | over all runs with fresh non-negative descriptors: n_idle counts the empty slots, fds_r and fds_w are the registered set, maxfds bounds it, slots are distinct |
| SocketBehaviour.NewOk | SRC/udi/ipanel/ipanel_socket.c:280-298 | a new manager satisfies it |
| SocketState.RegisterOk | SRC/udi/ipanel/ipanel_socket.c:315-335 | registering fails exactly when no slot is idle; otherwise exactly the one descriptor is added and found under the returned index |
| SocketState.UnregisterOk | SRC/udi/ipanel/ipanel_socket.c:337-355 | unregistering removes exactly the one descriptor and returns its index |
| SocketBehaviour.LookupsInverse | SRC/udi/ipanel/ipanel_socket.c:432-460 | the two index lookups are inverse on registered descriptors and occupied slots; a descriptor has no index exactly when it is not registered |
| SocketBehaviour.OpenOutcome | SRC/udi/ipanel/ipanel_socket.c:56-116 | opening succeeds exactly with an empty slot, a descriptor and a connection; -1, -2, -3 tell the failures apart and change nothing; the descriptor is in the first empty slot, both sets and within maxfds, and a CONNECT event waits unless 127 do |
| SocketBehaviour.CloseOutcome | SRC/udi/ipanel/ipanel_socket.c:175-191 | closing succeeds exactly on an occupied slot, which is empty then, its descriptor in no set; events stay |
| SocketBehaviour.CloseUndoesOpen | SRC/udi/ipanel/ipanel_socket.c:56-116 | closing what open returned restores slots, sets and count |
| SocketBehaviour.RunFifo | SRC/udi/ipanel/ipanel_socket.c:357-396 | over any run the event queue is first in first out; events are dropped exactly when 127 are waiting |
| SocketBehaviour.PollIntoEmpty | SRC/udi/ipanel/ipanel_socket.c:398-430 | polling into an empty queue queues one READ event per ready socket, in slot order, and drops none |
| SocketBehaviour.TimerReportsOldest | SRC/udi/ipanel/ipanel_socket.c:246-275 | the timer reports the oldest event under the index its descriptor has now, or -1 if it was closed meanwhile |
| SocketBehaviour.StaleEventReachesNewOwner | SRC/udi/ipanel/ipanel_socket.c:374-396 | an event queued for a closed socket is reported for the next socket that gets its descriptor |
| SocketManager.SocketManager.constructor | SRC/udi/ipanel/ipanel_socket.c:280-298 | builds the empty manager |
| SocketManager.SocketManager.Register | SRC/udi/ipanel/ipanel_socket.c:315-335 | the first empty slot takes the descriptor, sets, count and maxfds follow; -1 without an empty slot |
| SocketManager.SocketManager.Unregister | SRC/udi/ipanel/ipanel_socket.c:337-355 | the first slot with the descriptor is emptied, sets and count follow; -1 if there is none |
| SocketManager.SocketManager.PutEvent | SRC/udi/ipanel/ipanel_socket.c:357-372 | the ring update appends to the FIFO, or drops the event when 127 are waiting |
| SocketManager.SocketManager.PopEvent | SRC/udi/ipanel/ipanel_socket.c:374-396 | the ring update removes the oldest event and maps its descriptor |
| SocketManager.SocketManager.Poll | SRC/udi/ipanel/ipanel_socket.c:398-430 | offers one READ event per registered socket that select left in the set, in slot order |
| SocketManager.SocketManager.GetSocketByIndex | SRC/udi/ipanel/ipanel_socket.c:432-444 | the descriptor in the slot, or -1 |
| SocketManager.SocketManager.GetIndexBySocket | SRC/udi/ipanel/ipanel_socket.c:446-460 | the 1-based slot of the descriptor, or -1 |
| SocketManager.SocketManager.Open | SRC/udi/ipanel/ipanel_socket.c:56-116 | -1, -2 or -3 without change; otherwise a CONNECT event is queued and the descriptor registered |
| SocketManager.SocketManager.Recv | SRC/udi/ipanel/ipanel_socket.c:148-167 | queues a CLOSE event exactly when recv returned nothing |
| SocketManager.SocketManager.Close | SRC/udi/ipanel/ipanel_socket.c:175-191 | the descriptor of the slot is unregistered and handed to closesocket; -1 for an empty or unknown slot |
| SocketManager.SocketManager.OnTimer | SRC/udi/ipanel/ipanel_socket.c:246-275 | nothing while all slots are empty; otherwise the oldest event, polling first if none waits |
| SocketManager.ContentPut | SRC/udi/ipanel/ipanel_socket.c:357-372 | storing at the write index appends to the ring content |
| SocketManager.ContentPop | SRC/udi/ipanel/ipanel_socket.c:374-396 | clearing at the read index drops the oldest entry of the ring content |
| DeviceRegistry.LinkedDetermines | SRC/hld/hld_dev.c:49-56 | the heap determines the device list, so there is no cycle behind the base |
| DeviceRegistry.Registry.GetByName | SRC/hld/hld_dev.c:41-76 | returns the listed device of that name, or null |
| DeviceRegistry.Registry.GetByType | SRC/hld/hld_dev.c:86-124 | returns the first device of the type from the start node on, or null |
| DeviceRegistry.Registry.GetById | SRC/hld/hld_dev.c:134-166 | returns the first device with type and id, or null |
| DeviceRegistry.Registry.Alloc | SRC/hld/hld_dev.c:270-307 | fails exactly without memory or on a listed name; otherwise a fresh unlinked device whose id is the 16-bit count of its type |
| DeviceRegistry.Registry.Register | SRC/hld/hld_dev.c:175-218 | appends the device exactly when its name is new; otherwise no link of any device changes; the list stays acyclic with unique names |
| DeviceRegistry.Registry.Remove | SRC/hld/hld_dev.c:227-259 | for every argument, listed or not: the one link that led to the first device of that name now leads where the argument leads, no other link changes; if that is a list without a name of the front part, the list is the front part and it |
| DeviceRegistry.ListedRejoins | SRC/hld/hld_dev.c:227-259 | a listed device leads to the devices behind it, so removing it leaves all others in order |
| DeviceGraph.RegisterIs | SRC/hld/hld_dev.c:175-218 | over all devices, listed or not: a registration appends the device exactly when its name is new |
| DeviceGraph.AllocateIs | SRC/hld/hld_dev.c:270-307 | over all devices: an allocation is refused exactly for a listed name; otherwise there is one more device, that leads nowhere, and no link changes |
| DeviceGraph.FreeOkIff | SRC/hld/hld_dev.c:227-259 | a free leaves a list of live devices that ends in NULL with unique names, if and only if no listed device has its name or the device leads through live devices to NULL without repeating a name of the part in front |
| DeviceGraph.FreeListed | SRC/hld/hld_dev.c:227-259 | freeing a listed device takes exactly it off the list |
| DeviceGraph.AsPromisedIff | SRC/hld/hld_dev.c:227-259 | a free does what the comment in the source says, exactly when the device is listed, or no listed device has its name, or it happens to lead to the one that has |
| DeviceGraph.FreeRefusedTruncates | SRC/hld/hld_dev.c:175-259 | freeing a device that leads nowhere while another of its name is listed drops that one and every device behind it |
| DeviceRuns.RunOkIff | SRC/hld/hld_dev.c:175-339 | over every run of allocations, registrations and frees from a proper list: all lists are proper if and only if every free of the run is safe in the sense of FreeOkIff |
| DeviceRuns.RunIntended | SRC/hld/hld_dev.c:175-339 | a run in which dev_get_by_name never finds another device under the name of a freed one leaves exactly the intended list after every call |
| DeviceRuns.CycleHappens | SRC/hld/hld_dev.c:227-259 | a run from the empty registry that ends in a device linked to itself |
| DeviceRuns.RepeatHappens | SRC/hld/hld_dev.c:227-259 | a run from the empty registry that ends in a list with two devices of one name |
| DeviceApi.DevAlloc | SRC/hld/hld_dev.c:270-307 | on the heap: a heap that represented a graph of all devices represents the graph with the new device |
| DeviceApi.DevRegister | SRC/hld/hld_dev.c:316-319 | on the heap: represents the graph after the registration, and its list |
| DeviceApi.DevFree | SRC/hld/hld_dev.c:328-337 | on the heap: represents the graph after the free, whether or not its list is proper; where it is, that list |
| RegistryState.BootCounted | SRC/hld/hld_dev.c:270-307 | when each device is registered before the next is allocated and none is freed, ids of each type count up from 0 in list order, as long as no type exceeds the 16-bit id range |
| RegistryState.IdFindsJth | SRC/hld/hld_dev.c:134-149 | with counted ids, looking up type and j finds the j-th device of that type |
| RegistryState.IdFoundIffBelowCount | SRC/hld/hld_dev.c:134-149 | exactly the ids below the number of devices of the type are found |
| RegistryState.IdsWrap | SRC/hld/hld_dev.c:282-303 | the id is the count in 16 bits: device number 65536 of a type gets id 0 again |
| RegistryState.LateRegistrationRepeatsId | SRC/hld/hld_dev.c:282-303 | two devices allocated before either is registered share an id |
| RegistryState.FreeThenAllocRepeatsId | SRC/hld/hld_dev.c:282-303 | allocating after a free repeats the id of a listed device |
| UniString.ComAscStr2Uni | SRC/lib/libloader/ld_osd_common.c:5-23 | stores every character shifted by 8 and a terminator, nothing else, and returns the length |
| UniString.ComUniStrLen | SRC/lib/libloader/ld_osd_common.c:40-50 | returns the index of the first zero unit |
| UniString.ComUniStrCopyChar | SRC/lib/libloader/ld_osd_common.c:52-69 | copies exactly up to and including the first even pair of zero bytes and returns half its offset; the odd-index branch is dead |
| UniString.LengthsAgree | SRC/lib/libloader/ld_osd_common.c:40-69 | on every terminated wide string the unit loop and the byte loop find the same length |
| UniString.DecodeSwaps | SRC/lib/libloader/ld_osd_common.c:25-38 | decoding the memory image gives each unit with its two bytes swapped |
| UniString.RoundTrip | SRC/lib/libloader/ld_osd_common.c:5-69 | for every string without zero bytes, converting, copying and decoding gives it back, and all three lengths are its own |

## Left out

- AdvDmx.AdvDmx.FlushQueue: its fields are sequences of node numbers; the same step on the linked rings is HeapQueues.Flush, and likewise for the other list operations
- AdvDmx.AdvDmx.Quit: deleting the ADM task and the mutex is not modelled
- SlotTable.SlotTable.Alloc: stops in front of a write outside its tables, whose effect C leaves open; lengths above the 16 bytes of a slot are excluded for the same reason
- SlotTable.SlotTable.OpenSlot: lengths above the 16 bytes of a slot are excluded, for the same reason
- SlotTable.SlotTable.JoinSlot: lengths above the 16 bytes of a slot are excluded, for the same reason
- Delivery.RunDelivers: clients other than the slot layer and callbacks that call back into the section layer are excluded; NodeFlow, NodeRaces and FilterRace show what goes wrong with them
- DmxInvariant.RunWf: each call is one step; calls that overlap are the subject of NodeFlow, NodeRaces and FilterRace
- NodeFlow.RunOnePlace: the driver callback is one step; a list on which one node was returned twice is only marked as damaged
- FilterRace.SafeIffSerialized: sections are their filter ids and the hardware agrees to every enable and disable; where the nodes go is the subject of NodeFlow and NodeRaces
- RingProtocol.RunDelivers: the callback's early write of wr is not visible to the reader before the section is stored
- IpanelDemux.IpanelDemux.DispatchAll: on a spoiled ring the inner loop may not end; only the loop on a sound ring is modelled
- ChannelState.ApplySound: the masks of a filter (create, enable, disable, destroy filter) are not modelled; a channel's enable map is given
- DeviceRuns.RunOkIff: once a list is cyclic, or runs through freed memory, the next searches may not end or read anything, and the state after them is left open
- SocketManager.SocketManager.Poll: select is any answer with any set of descriptors
- adv_dmx_slot_exit and SystemSocketManager_delete: they only reset or free their tables
- Hardware section filtering, CRC, cache flushes, interrupts, task creation and debug output
- Big-endian builds, C bit-field layout, and the byte-sized handle stored into the 32-bit hw_flt
- The remote device list of DUAL_ENABLE: it needs a second CPU and functions not shown
- The wrappers around driver function pointers (dmx.c, deca, decv, snd, nim, ge, osddrv, smc, sto, venc, vpo), ipanel_nvram.c, pan.c, the allocator of ipanel_base.c and the rectangle helpers: they would only add easy members
