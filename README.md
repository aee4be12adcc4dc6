# Verified models of eleven cores of a Linux kernel tree

This project is a Dafny model of a handful of self-contained pieces of a Linux kernel tree, with proofs of the behaviour the code promises. Each core source file becomes one Dafny module and one `.dfy` file. Mutable kernel objects become classes whose methods are proved against specification functions. Pure computations become functions and lemmas. Hardware registers, allocators and calls into other subsystems are inputs of the operations that use them. Effects on the outside world are recorded in ghost logs.

- `vsp1_dl.dfy`, module `Vsp1Dl`: the display-list manager of the Renesas VSP1 video processor (`drivers/media/platform/vsp1/vsp1_dl.c`).
  - A manager owns a pool of display lists, numbered by position. Each list moves between the free queue, the caller, the active, queued and pending pipeline slots, and the chain of another list.
  - Each list holds a primary body of (register, value) entries, fragment bodies and, in header mode, a header.
  - The model proves that every operation keeps every list in exactly one place, and that put returns lists empty, in order, with their fragments on the garbage-collection queue.
  - It proves what the headers describe and how they link, and that commit and frame end follow the single-shot and continuous state machines, including the update-pending race.
- `sun4i_dma.dfy`, module `Sun4iDma`: the capture buffer handling of the Allwinner A10 CMOS sensor interface. Queued buffers wait in a FIFO, two hardware slots each hold at most one buffer, and completed buffers go back to videobuf2.
- `sun4i_v4l2.dfy`, module `Sun4iV4l2`: format negotiation of the same driver. It covers the format table, the alignment and clamping of a requested multi-planar format and its plane sizes, and the input and buffer-type checks.
- `lov_pool.dfy`, module `LovPool`: the duplicate-free, growable array of OST indices of a Lustre pool, and its debugfs iterator.
- `perf_map.dfy`, module `PerfMap`: the address-range maps of perf (`tools/perf/util/map.c`). It covers the filename classifiers, the overlap test, insertion into and lookup in the start-ordered tree, the splitting of overlapped maps, and the objdump address conversions.
- `vvp_dev.dfy`, module `Vvp`: the 64-bit position encoding of the Lustre page-cache debugfs file and its iteration step.
- `libcfs_module.dfy`, module `LibcfsModule`: the ioctl handler registry of libcfs, the validation of the user's ioctl buffer, the dispatch loop, and the debugfs position bookkeeping.
- `tsl2x7x.dfy`, module `Tsl2x7x`: the TAOS ambient-light and proximity sensor driver. It covers the integer lux computation, the calibrations, the register shadow written at power-on, lux-table validation, the IIO attribute mappings and the chip-ID check.
- `lu_object.dfy`, module `LuObject`: the Lustre object layer's context-key registry and its version counter, the context life cycle, the sizing of the object hash table, the cache-limit purge count, and slice lookup.
- `caam_ctrl.dfy`, module `CaamCtrl`: the Freescale CAAM controller. It covers the era lookup, the virtualisation decision, RNG4 state-handle instantiation and deinstantiation, the TRNG entropy-delay programming, and the probe's retry loop.
- `aerdrv.dfy`, module `Aer`: the PCI Express AER root-port driver. It covers the error-source ring filled by the interrupt, the masking on error resume, and the port-type filter. The registers are those of section 7.10 of the PCI Express Base Specification 3.0.
- `common.dfy`, module `Common`: shared vocabulary. It holds `Option`, the C integer ranges, the errno values, and a few sequence and arithmetic helpers.

Integer widths are modelled where the code relies on them: 32- and 64-bit wrap-around and C's truncating division. Each is written out explicitly. The exceptions are listed under "## Left out".

## Model

| member | source | states |
|---|---|---|
| Vsp1Dl.Body.constructor | drivers/media/platform/vsp1/vsp1_dl.c:133-148 | a body's DMA memory holds the requested number of entries plus the extra bytes, and starts with no entries written |
| Vsp1Dl.Body.Write | drivers/media/platform/vsp1/vsp1_dl.c:221-226 | a register write appends (reg, data) after the entries already written, which stay unchanged, and increments the entry count by exactly one |
| Vsp1Dl.StoreEntry | drivers/media/platform/vsp1/vsp1_dl.c:221-225 | the store of a write puts (reg, data) at index num_entries and leaves the entries before it unchanged |
| Vsp1Dl.InitialHeader | drivers/media/platform/vsp1/vsp1_dl.c:262-271 | a freshly allocated header is zeroed except that descriptor 0 points at the primary body |
| Vsp1Dl.LinkFor | drivers/media/platform/vsp1/vsp1_dl.c:467-491 | INT_ENABLE is set exactly for the last list of a chain or an unchained list; AUTO_START is set except for the end of a chain in single-shot mode; a chained list that is not last links to the next list, the end of a chain links to itself in continuous mode and leaves next_header alone in single-shot mode |
| Vsp1Dl.Filled | drivers/media/platform/vsp1/vsp1_dl.c:440-465 | a filled header keeps eight descriptors and the primary body's address |
| Vsp1Dl.Described | drivers/media/platform/vsp1/vsp1_dl.c:456-465 | the hardware reads num_lists + 1 bodies from a header |
| Vsp1Dl.FilledDescribesBodies | drivers/media/platform/vsp1/vsp1_dl.c:440-465 | a filled header describes exactly the primary body, with its byte count, followed by each fragment's address and byte count, in the order they were added |
| Vsp1Dl.RingLinks | drivers/media/platform/vsp1/vsp1_dl.c:591-606 | in the header pass each list but the last starts the next list of the ring, and only the last raises the interrupt and, in continuous mode, reloads itself |
| Vsp1Dl.UpdatePending | drivers/media/platform/vsp1/vsp1_dl.c:494-513 | reference definition of the update-pending test, with no contract of its own; CommitConserves, FrameEndFlags and FrameEndPrograms state what it decides for commit and frame end, and CommitRaceResolves plays the race out |
| Vsp1Dl.CommitConserves | drivers/media/platform/vsp1/vsp1_dl.c:542-589 | a commit keeps the slots ordered and loses or duplicates no list: the new slots plus the displaced list are the old slots plus the committed list; the committed list is programmed exactly when the hardware took the previous update or the manager is single-shot |
| Vsp1Dl.FrameEndConserves | drivers/media/platform/vsp1/vsp1_dl.c:641-697 | a frame end keeps the slots ordered, and the new slots plus the released list are the old slots |
| Vsp1Dl.FrameEndFlags | drivers/media/platform/vsp1/vsp1_dl.c:651-680 | single-shot frame end reports COMPLETED alone; continuous frame end reports COMPLETED exactly when a queued list became active, and INTERNAL exactly when that list was internal |
| Vsp1Dl.FrameEndPrograms | drivers/media/platform/vsp1/vsp1_dl.c:664-691 | frame end programs the hardware only in continuous mode once the update was taken, and then with the pending list; it releases the old active list exactly when a queued list replaces it, and in single-shot mode always releases the active list |
| Vsp1Dl.CommitRaceResolves | drivers/media/platform/vsp1/vsp1_dl.c:542-575 | a list committed while the hardware still has the queued update becomes pending, the next frame end makes the queued list active and programs the new one, and the frame end after that makes the new one active |
| Vsp1Dl.CommitStep | drivers/media/platform/vsp1/vsp1_dl.c:542-589 | reference definition of the three commit routines on the slots, with no contract of its own; CommitConserves, CommitRaceResolves and CommitKeepsPlaces state it and Manager.Commit and CommitLocked are proved against it |
| Vsp1Dl.FrameEndStep | drivers/media/platform/vsp1/vsp1_dl.c:641-697 | reference definition of vsp1_dlm_irq_frame_end on the slots, with no contract of its own; FrameEndConserves, FrameEndFlags, FrameEndPrograms and FrameEndKeepsPlaces state it and Manager.FrameEnd is proved against it |
| Vsp1Dl.ReleasedAll | drivers/media/platform/vsp1/vsp1_dl.c:319-346 | releasing lists one after the other keeps the pool size |
| Vsp1Dl.ReleasedAllAt | drivers/media/platform/vsp1/vsp1_dl.c:319-346 | releasing lists in turn releases each of them and leaves every other list as it was |
| Vsp1Dl.PutLists | drivers/media/platform/vsp1/vsp1_dl.c:315-347 | a put keeps the pool size |
| Vsp1Dl.PutListsAt | drivers/media/platform/vsp1/vsp1_dl.c:315-347 | a put releases the list and every list of its chain (no chain flag, no fragments, an empty primary body) and leaves every other list as it was |
| Vsp1Dl.PutWhere | drivers/media/platform/vsp1/vsp1_dl.c:315-347 | a put keeps the number of places |
| Vsp1Dl.PutWhereAt | drivers/media/platform/vsp1/vsp1_dl.c:315-347 | a put makes the list and every list of its chain free and leaves every other place as it was |
| Vsp1Dl.AppendKeepsPlaces | drivers/media/platform/vsp1/vsp1_dl.c:790-795 | adding a freshly allocated list at the tail of the free queue keeps every list in exactly one place |
| Vsp1Dl.GetKeepsPlaces | drivers/media/platform/vsp1/vsp1_dl.c:293-311 | handing the head of the free queue to the caller keeps every list in exactly one place |
| Vsp1Dl.HeldReleasable | drivers/media/platform/vsp1/vsp1_dl.c:319-330 | the chain of a list the caller holds is duplicate-free, does not contain the list, and its lists head no chain, so the recursive put terminates |
| Vsp1Dl.PutKeepsPlaces | drivers/media/platform/vsp1/vsp1_dl.c:315-347 | putting back a list the caller holds frees it and its chain and keeps every list in exactly one place |
| Vsp1Dl.ReassignKeepsPlaces | drivers/media/platform/vsp1/vsp1_dl.c:542-589 | moving lists between the caller and the slots keeps every list in exactly one place once the slots agree with the new places |
| Vsp1Dl.AddChainKeepsPlaces | drivers/media/platform/vsp1/vsp1_dl.c:428-438 | chaining a held list to another held list keeps every list in exactly one place |
| Vsp1Dl.AddChainChained | drivers/media/platform/vsp1/vsp1_dl.c:428-438 | after add_chain every chained list belongs to the chain of a list that may head one |
| Vsp1Dl.AddChainHeads | drivers/media/platform/vsp1/vsp1_dl.c:428-438 | after add_chain every head owns exactly the lists chained to it |
| Vsp1Dl.Reslotted | drivers/media/platform/vsp1/vsp1_dl.c:542-697 | re-slotting keeps the number of places |
| Vsp1Dl.ReslotKeepsPlaces | drivers/media/platform/vsp1/vsp1_dl.c:542-697 | moving lists in and out of the pipeline slots keeps every list in exactly one place |
| Vsp1Dl.CommitKeepsPlaces | drivers/media/platform/vsp1/vsp1_dl.c:542-589 | a commit puts the committed list in its slot and leaves the displaced list out, ready to be put, with every list in exactly one place |
| Vsp1Dl.FrameEndKeepsPlaces | drivers/media/platform/vsp1/vsp1_dl.c:641-697 | a frame end moves the lists up the slots and leaves the released list out, ready to be put, with every list in exactly one place |
| Vsp1Dl.ListAlloc | drivers/media/platform/vsp1/vsp1_dl.c:232-274 | a failed DMA allocation gives NULL; otherwise the list has a fresh 256-entry primary body at the allocated address, sized for the header in header mode, with no entries, fragments or chain; in header mode its header sits 256 x 8 bytes after the body and descriptor 0 points at the body |
| Vsp1Dl.FillHeader | drivers/media/platform/vsp1/vsp1_dl.c:440-492 | fill_header writes the header the reference Filled gives for the list's primary body and fragments with the link LinkFor gives |
| Vsp1Dl.FilledRing | drivers/media/platform/vsp1/vsp1_dl.c:597-606 | the header pass keeps the number of headers |
| Vsp1Dl.FilledRingFacts | drivers/media/platform/vsp1/vsp1_dl.c:597-606 | after the header pass every list of the ring has its filled header with its ring link, and every other header is as it was |
| Vsp1Dl.FillNext | drivers/media/platform/vsp1/vsp1_dl.c:601-605 | one step of the header pass fills the next list of the ring, linked to the one after it unless it is the last |
| Vsp1Dl.FillRing | drivers/media/platform/vsp1/vsp1_dl.c:597-606 | the header pass fills the head and then each chained list in order, passing is_last only to the last one (or to the head with an empty chain) |
| Vsp1Dl.FilledRingHeadersOk | drivers/media/platform/vsp1/vsp1_dl.c:597-606 | the header pass keeps every header of the pool well formed |
| Vsp1Dl.Manager.Init | drivers/media/platform/vsp1/vsp1_dl.c:768-788 | a new manager is headerless exactly when index is 0 and the device has no UAPI, single-shot exactly when it has, and starts with no lists, empty slots and no fragments to collect |
| Vsp1Dl.Manager.Create | drivers/media/platform/vsp1/vsp1_dl.c:768-801 | vsp1_dlm_create returns NULL exactly when the manager's own allocation or one of the prealloc list allocations fails; otherwise the free queue holds the prealloc fresh lists in allocation order, the slots are empty, and the mode and single-shot choice are as above |
| Vsp1Dl.Manager.Preallocate | drivers/media/platform/vsp1/vsp1_dl.c:790-797 | one round of the prealloc loop adds the next allocated list at the tail of the free queue, or reports failure with the pool unchanged |
| Vsp1Dl.Manager.Append | drivers/media/platform/vsp1/vsp1_dl.c:797 | list_add_tail puts a fresh list at the tail of the free queue and changes nothing else |
| Vsp1Dl.Manager.Get | drivers/media/platform/vsp1/vsp1_dl.c:291-312 | vsp1_dl_list_get hands out the head of the free queue with an empty chain, or returns NULL with nothing changed when the queue is empty |
| Vsp1Dl.Manager.Release | drivers/media/platform/vsp1/vsp1_dl.c:336-346 | releasing one list clears its chain flag, splices its fragments in front of the garbage-collection queue (scheduling the work when there were any), empties its primary body and appends it to the free queue |
| Vsp1Dl.Manager.ReleaseChain | drivers/media/platform/vsp1/vsp1_dl.c:326-329 | the loop over a chain releases its lists in order, appending them to the free queue, and leaves their fragments at the head of the garbage-collection queue, the last list's first |
| Vsp1Dl.Manager.ReleaseNext | drivers/media/platform/vsp1/vsp1_dl.c:326-329 | one round of the chain loop releases the next list of the chain, whose fragments go in front of the garbage-collection queue |
| Vsp1Dl.Manager.PutLocked | drivers/media/platform/vsp1/vsp1_dl.c:315-347 | __vsp1_dl_list_put releases the chain and then the list: the free queue gains the chain then the list, and the garbage-collection queue gains at its head the list's fragments, then its chain's from the last chained list to the first |
| Vsp1Dl.Manager.Put | drivers/media/platform/vsp1/vsp1_dl.c:358-368 | vsp1_dl_list_put on NULL changes nothing; otherwise the chained lists and then the list itself go to the tail of the free queue, their fragments go to the head of the garbage-collection queue as PutLocked states, and every list is still in exactly one place |
| Vsp1Dl.Manager.ListWrite | drivers/media/platform/vsp1/vsp1_dl.c:379-382 | a list write appends (reg, data) to the list's primary body, increments its entry count by one, and changes no other list |
| Vsp1Dl.Manager.AddFragment | drivers/media/platform/vsp1/vsp1_dl.c:400-409 | in header mode the fragment goes to the tail of the list's fragments and the result is 0; a headerless manager returns -EINVAL and changes nothing |
| Vsp1Dl.Manager.AddChain | drivers/media/platform/vsp1/vsp1_dl.c:428-438 | in header mode the list goes to the tail of the head's chain, the head's chain flag is set and the result is 0; a headerless manager returns -EINVAL and changes nothing |
| Vsp1Dl.Manager.FillHeaders | drivers/media/platform/vsp1/vsp1_dl.c:597-606 | the header pass of commit fills the headers of the list and its chain as FilledRing states, and changes nothing else |
| Vsp1Dl.Manager.CommitSingleshot | drivers/media/platform/vsp1/vsp1_dl.c:577-589 | single-shot commit programs the hardware with the list and makes it active |
| Vsp1Dl.Manager.CommitContinuous | drivers/media/platform/vsp1/vsp1_dl.c:542-575 | with the update still pending the list replaces the pending one, which is put back, with the warning exactly when that one was internal; otherwise the list is programmed and replaces the queued one, which is put back; the put-back list's fragments go to the head of the garbage-collection queue |
| Vsp1Dl.Manager.Commit | drivers/media/platform/vsp1/vsp1_dl.c:591-618 | commit fills the headers in header mode, records the internal flag, and then commits in single-shot or continuous mode as CommitStep states, putting back the displaced list with its fragments at the head of the garbage-collection queue |
| Vsp1Dl.Manager.CommitLocked | drivers/media/platform/vsp1/vsp1_dl.c:608-617 | the locked part of commit records the internal flag and commits as CommitStep states, the displaced list's fragments going to the head of the garbage-collection queue |
| Vsp1Dl.Manager.FrameEndSingleshot | drivers/media/platform/vsp1/vsp1_dl.c:651-656 | single-shot frame end puts back the active list, its fragments going to the head of the garbage-collection queue, empties the slot and reports COMPLETED |
| Vsp1Dl.Manager.FrameEndAdvance | drivers/media/platform/vsp1/vsp1_dl.c:671-691 | continuous frame end after the update was taken makes the queued list active, puts back the former active list with its fragments at the head of the garbage-collection queue, and programs a pending list and makes it queued |
| Vsp1Dl.Manager.AdvanceSlots | drivers/media/platform/vsp1/vsp1_dl.c:671-691 | the slot moves of a frame end, with the released list left to the caller |
| Vsp1Dl.Manager.FrameEnd | drivers/media/platform/vsp1/vsp1_dl.c:641-697 | vsp1_dlm_irq_frame_end does what FrameEndStep states (single-shot completion, nothing while the update is pending, otherwise promotion and programming), reports and clears the queued list's internal flag, and puts back the released list, its fragments going to the head of the garbage-collection queue |
| Vsp1Dl.Manager.FrameEndTake | drivers/media/platform/vsp1/vsp1_dl.c:671-691 | continuous frame end after the update was taken reports and clears the internal flag of the queued list and then advances the slots, the released list's fragments going to the head of the garbage-collection queue |
| Vsp1Dl.Manager.ClearQueuedInternal | drivers/media/platform/vsp1/vsp1_dl.c:672-674 | the INTERNAL flag is reported exactly when the queued list was internal, and that flag is cleared |
| Vsp1Dl.Manager.PutTwo | drivers/media/platform/vsp1/vsp1_dl.c:723-725 | putting back two lists in turn is two puts: the second list's fragments end up in front of the first's, which are in front of the old queue |
| Vsp1Dl.Manager.PutThree | drivers/media/platform/vsp1/vsp1_dl.c:723-725 | putting back three lists in turn is three puts, the fragments of each later put in front of those of the earlier ones |
| Vsp1Dl.Manager.Reset | drivers/media/platform/vsp1/vsp1_dl.c:717-732 | vsp1_dlm_reset puts back the active, queued and pending lists, in that order, so the pending list's fragments head the garbage-collection queue, then the queued list's, then the active list's; the three slots are emptied |
| Vsp1Dl.Manager.FragmentsFree | drivers/media/platform/vsp1/vsp1_dl.c:739-758 | the garbage-collection work frees every queued fragment from the head of the queue, so the fragments put back last are freed first, and leaves the queue empty |
| Sun4iDma.ReturnedAll | drivers/media/platform/sunxi/sun4i-csi/sun4i_dma.c:186-199 | handing back a list of buffers makes one completion per buffer |
| Sun4iDma.BufsOf | drivers/media/platform/sunxi/sun4i-csi/sun4i_dma.c:186-199 | the buffers of a list of completions, one per completion, in order |
| Sun4iDma.ReturnedAllBufs | drivers/media/platform/sunxi/sun4i-csi/sun4i_dma.c:186-199 | handing back a list of buffers hands back exactly those buffers, in their order, each in the given state without a sequence number |
| Sun4iDma.FlipSlot | drivers/media/platform/sunxi/sun4i-csi/sun4i_dma.c:158-160 | the slot flipped is a valid slot and never the one DBS says the hardware is using |
| Sun4iDma.SetupCount | drivers/media/platform/sunxi/sun4i-csi/sun4i_dma.c:53-54 | the buffer count is at least three and at least the count asked for, and a count of three or more is kept |
| Sun4iDma.Csi.constructor | drivers/media/platform/sunxi/sun4i-csi/sun4i_dma.c:348-350 | a registered interface has an empty list, empty slots, frame counter 0 and nothing handed back |
| Sun4iDma.Csi.QueueSetup | drivers/media/platform/sunxi/sun4i-csi/sun4i_dma.c:43-62 | returns 0, the raised buffer count, one plane per plane of the format, each sized to its sizeimage, and leaves the other sizes alone |
| Sun4iDma.Csi.BufferPrepare | drivers/media/platform/sunxi/sun4i-csi/sun4i_dma.c:64-82 | 0 exactly when every plane is at least its sizeimage, then all payloads set; otherwise -EINVAL at the first plane too small, with the payloads before it set and the rest untouched |
| Sun4iDma.Csi.FillSlot | drivers/media/platform/sunxi/sun4i-csi/sun4i_dma.c:84-119 | an occupied slot gives -EINVAL, an empty list -ENOMEM with the slot left empty, otherwise the oldest waiting buffer moves into the slot; no buffer is lost or duplicated |
| Sun4iDma.Csi.SetQueue | drivers/media/platform/sunxi/sun4i-csi/sun4i_dma.c:105-108 | the list and the slots become the given ones |
| Sun4iDma.Csi.FillAll | drivers/media/platform/sunxi/sun4i-csi/sun4i_dma.c:121-133 | slot 0 then slot 1 are filled, stopping at the first failure with its code |
| Sun4iDma.Csi.MarkDone | drivers/media/platform/sunxi/sun4i-csi/sun4i_dma.c:135-151 | an empty slot is left alone; otherwise its buffer is handed back done with the sequence number and the slot emptied |
| Sun4iDma.Csi.Flip | drivers/media/platform/sunxi/sun4i-csi/sun4i_dma.c:153-167 | the slot the hardware is not using is completed and refilled from the list head, -ENOMEM leaving it empty when the list is empty; the other slot is untouched |
| Sun4iDma.Csi.BufferQueue | drivers/media/platform/sunxi/sun4i-csi/sun4i_dma.c:169-178 | the buffer joins the tail of the list; a buffer not already held keeps the held buffers distinct |
| Sun4iDma.Csi.ReturnAllBuffers | drivers/media/platform/sunxi/sun4i-csi/sun4i_dma.c:180-200 | every waiting buffer, oldest first, then each occupied slot's buffer is handed back in the given state; the list and the slots end empty |
| Sun4iDma.Csi.ReturnList | drivers/media/platform/sunxi/sun4i-csi/sun4i_dma.c:186-189 | the waiting buffers are handed back in list order and the list ends empty |
| Sun4iDma.Csi.ReturnSlots | drivers/media/platform/sunxi/sun4i-csi/sun4i_dma.c:191-199 | the buffers of the occupied slots are handed back in slot order and both slots end empty |
| Sun4iDma.Csi.ReturnSlot | drivers/media/platform/sunxi/sun4i-csi/sun4i_dma.c:192-198 | an occupied slot hands its buffer back and is emptied; an empty one changes nothing |
| Sun4iDma.Csi.StartStreaming | drivers/media/platform/sunxi/sun4i-csi/sun4i_dma.c:202-276 | the counter restarts at 0; fewer than two buffers give -ENOBUFS and change nothing; a pipeline failure hands back every buffer queued; otherwise 0 exactly when both slots were empty, two buffers waited and s_stream succeeded or is absent, with both slots filled in list order and the capture running, and any later failure hands back everything queued; fewer than two buffers, a pipeline failure or a failed fill leave the capture as it was, and once both slots are filled the capture runs, also when s_stream then fails |
| Sun4iDma.Csi.StartCapture | drivers/media/platform/sunxi/sun4i-csi/sun4i_dma.c:244-275 | success exactly when both slots were empty, two buffers waited and s_stream succeeded or is absent; on failure every held buffer is handed back queued; a failed fill leaves the capture as it was, and after a good fill the capture runs even when s_stream fails |
| Sun4iDma.Csi.StartCaptureFixed | drivers/media/platform/sunxi/sun4i-csi/sun4i_dma.c:244-275 | the corrected start: as StartCapture, but a failing s_stream stops the capture it started, so a failed start never leaves a capture running that was not running before |
| Sun4iDma.Csi.FailAfterFill | drivers/media/platform/sunxi/sun4i-csi/sun4i_dma.c:269-273 | after a failed fill or s_stream every buffer that was held goes back in the given state |
| Sun4iDma.Csi.StopStreaming | drivers/media/platform/sunxi/sun4i-csi/sun4i_dma.c:278-294 | the capture stops and every held buffer is handed back in error, list first |
| Sun4iDma.Csi.Irq | drivers/media/platform/sunxi/sun4i-csi/sun4i_dma.c:306-331 | every interrupt advances the 32-bit frame counter with wrap-around; a frame-done interrupt flips the buffers with the old count, and a failed flip stops the capture; any other interrupt changes nothing else |
| Sun4iDma.FlipDone | drivers/media/platform/sunxi/sun4i-csi/sun4i_dma.c:141-148 | reference definition of what csi_buffer_mark_done hands back for a slot, with no contract of its own; Csi.MarkDone and Csi.Flip state that the completed buffer is appended to what was handed back |
| Sun4iDma.FillSlotKeeps | drivers/media/platform/sunxi/sun4i-csi/sun4i_dma.c:94-108 | filling a slot neither loses nor duplicates a buffer |
| Sun4iDma.FillSlotStep | drivers/media/platform/sunxi/sun4i-csi/sun4i_dma.c:84-119 | reference definition of csi_buffer_fill_slot on the list and the slots, with no contract of its own; Csi.FillSlot is proved against it and FillSlotKeeps states that it neither loses nor duplicates a buffer |
| Sun4iDma.FillAllKeeps | drivers/media/platform/sunxi/sun4i-csi/sun4i_dma.c:126-130 | filling both slots neither loses nor duplicates a buffer |
| Sun4iDma.FillAllCases | drivers/media/platform/sunxi/sun4i-csi/sun4i_dma.c:121-133 | the fill succeeds exactly when both slots are empty and two buffers wait, filling slots 0 and 1 in list order; each failure leaves the state it names |
| Sun4iDma.ReturnedAllHandedBack | drivers/media/platform/sunxi/sun4i-csi/sun4i_dma.c:180-200 | handing back any rearrangement of the held buffers hands back exactly the held buffers |
| Sun4iDma.SlotBufsAll | drivers/media/platform/sunxi/sun4i-csi/sun4i_dma.c:191 | the buffers of both slots in slot order are the held buffers |
| Sun4iDma.ReturnedAllSnoc | drivers/media/platform/sunxi/sun4i-csi/sun4i_dma.c:186-189 | handing back one more buffer adds one completion at the end |
| Sun4iDma.ReturnedAllSlot | drivers/media/platform/sunxi/sun4i-csi/sun4i_dma.c:191-199 | each round of the slot loop hands back one more slot's buffer |
| Sun4iDma.ReturnedAllAppend | drivers/media/platform/sunxi/sun4i-csi/sun4i_dma.c:186-199 | handing back two lists in turn is handing back their concatenation |
| Sun4iDma.DistinctInsert | drivers/media/platform/sunxi/sun4i-csi/sun4i_dma.c:176 | adding a buffer not already held keeps the held buffers duplicate-free |
| Sun4iV4l2.FormatsOk | drivers/media/platform/sunxi/sun4i-csi/sun4i_v4l2.c:24-36 | the format table is non-empty and each entry has a bit depth per plane, at most eight planes and a subsampling that divides the hardware limits |
| Sun4iV4l2.FirstFormatFirst | drivers/media/platform/sunxi/sun4i-csi/sun4i_v4l2.c:43-47 | the search finds the first entry with the fourcc, and finds nothing only when no entry has it |
| Sun4iV4l2.GetFormatByFourcc | drivers/media/platform/sunxi/sun4i-csi/sun4i_v4l2.c:38-48 | the loop returns the first table entry with the fourcc, or None |
| Sun4iV4l2.ChosenFormat | drivers/media/platform/sunxi/sun4i-csi/sun4i_v4l2.c:103-105 | the known requested format, otherwise the first of the table |
| Sun4iV4l2.Align | drivers/media/platform/sunxi/sun4i-csi/sun4i_v4l2.c:120-121 | ALIGN in 32 bits rounds x up to a multiple of the alignment below x plus the alignment, and wraps to a value below the alignment when the sum overflows |
| Sun4iV4l2.AlignEven | drivers/media/platform/sunxi/sun4i-csi/sun4i_v4l2.c:120-121 | aligning on the table's subsampling of 2 gives an even value |
| Sun4iV4l2.TryFmtSpec | drivers/media/platform/sunxi/sun4i-csi/sun4i_v4l2.c:94-143 | the try step keeps all eight plane entries |
| Sun4iV4l2.TryFmtBounds | drivers/media/platform/sunxi/sun4i-csi/sun4i_v4l2.c:94-143 | after the try step the format is a known one, the size is even and between 2 and 8192 in both directions, field NONE, colorspace SRGB, three planes laid out for YUV 4:2:0 |
| Sun4iV4l2.TryFmtKeepsValid | drivers/media/platform/sunxi/sun4i-csi/sun4i_v4l2.c:120-125 | an even size between 2 and 8192 is kept unchanged |
| Sun4iV4l2.TryFmtIdempotent | drivers/media/platform/sunxi/sun4i-csi/sun4i_v4l2.c:94-143 | trying an already tried format changes nothing |
| Sun4iV4l2.LargestWidthWraps | drivers/media/platform/sunxi/sun4i-csi/sun4i_v4l2.c:120-124 | the largest 32-bit width wraps to 0 when aligned and is clamped to 2, not 8192 |
| Sun4iV4l2.PixFormat.Value | drivers/media/platform/sunxi/sun4i-csi/sun4i_v4l2.c:95 | the in-place format read as a value keeps its eight planes |
| Sun4iV4l2.PixFormat.constructor | drivers/media/platform/sunxi/sun4i-csi/sun4i_v4l2.c:95 | the caller's format, with eight fresh plane entries |
| Sun4iV4l2.TryFmt | drivers/media/platform/sunxi/sun4i-csi/sun4i_v4l2.c:94-143 | the caller's format is changed in place exactly as the try step says, the chosen format is returned and the result is 0 |
| Sun4iV4l2.LayOutPlanes | drivers/media/platform/sunxi/sun4i-csi/sun4i_v4l2.c:127-137 | each of the format's planes gets its layout and the entries after them are left alone |
| Sun4iV4l2.CsiFmt.constructor | drivers/media/platform/sunxi/sun4i-csi/sun4i_v4l2.c:268-272 | the default format is YUV420M at 640x480 after the try step, and no table entry is recorded |
| Sun4iV4l2.CsiFmt.TryFmtVidCap | drivers/media/platform/sunxi/sun4i-csi/sun4i_v4l2.c:145-154 | buffers other than multi-planar capture give -EINVAL and leave the format alone; otherwise it is tried and the result is 0 |
| Sun4iV4l2.CsiFmt.SFmtVidCap | drivers/media/platform/sunxi/sun4i-csi/sun4i_v4l2.c:156-174 | buffers other than multi-planar capture give -EINVAL and change nothing; otherwise the tried format and its table entry become the current ones |
| Sun4iV4l2.CsiFmt.GFmtVidCap | drivers/media/platform/sunxi/sun4i-csi/sun4i_v4l2.c:176-187 | buffers other than multi-planar capture give -EINVAL; otherwise the current format is returned |
| Sun4iV4l2.EnumFmt | drivers/media/platform/sunxi/sun4i-csi/sun4i_v4l2.c:189-198 | reference definition of ENUM_FMT, with no contract of its own; EnumeratesTable and EnumeratedFormatsKept state what it lists |
| Sun4iV4l2.EnumeratesTable | drivers/media/platform/sunxi/sun4i-csi/sun4i_v4l2.c:189-198 | ENUM_FMT succeeds exactly for the indices below the table size, and the fourccs it can report are exactly those of the table |
| Sun4iV4l2.EnumeratedFormatsKept | drivers/media/platform/sunxi/sun4i-csi/sun4i_v4l2.c:189-198 | every enumerated fourcc is kept by the try step |
| Sun4iV4l2.InputCheck | drivers/media/platform/sunxi/sun4i-csi/sun4i_v4l2.c:65-92 | reference definition of the index test of ENUM_INPUT and S_INPUT, with no contract of its own; InputsAgree states what it accepts |
| Sun4iV4l2.GInput | drivers/media/platform/sunxi/sun4i-csi/sun4i_v4l2.c:77-83 | reference definition of G_INPUT: success, and input 0; InputsAgree relates it to the other two ioctls |
| Sun4iV4l2.InputsAgree | drivers/media/platform/sunxi/sun4i-csi/sun4i_v4l2.c:65-92 | the input G_INPUT reports is the only index ENUM_INPUT lists and S_INPUT selects, and every other index is refused with -EINVAL |
| LovPool.RemoveFirstDistinct | drivers/staging/lustre/lustre/lov/lov_pool.c:308-315 | in a duplicate-free array, removing a present index takes out exactly that one element: one shorter, the multiset less that index, still duplicate-free and without it |
| LovPool.CutMultiset | drivers/staging/lustre/lustre/lov/lov_pool.c:310-312 | the memmove that closes the gap at `i` takes exactly one occurrence of that element out |
| LovPool.CutDistinct | drivers/staging/lustre/lustre/lov/lov_pool.c:310-312 | closing the gap keeps a duplicate-free array duplicate-free and without the removed element |
| LovPool.AddThenRemove | drivers/staging/lustre/lustre/lov/lov_pool.c:277-320 | adding an absent index and removing it again gives the array back |
| LovPool.OstPool.Contents | drivers/staging/lustre/lustre/lov/lov_pool.c:288-296 | the indices in use are the first op_count slots |
| LovPool.OstPool.constructor | drivers/staging/lustre/lustre/lov/lov_pool.c:241-242 | a zeroed pool has no array and no indices |
| LovPool.OstPool.Init | drivers/staging/lustre/lustre/lov/lov_pool.c:237-251 | the pool is empty; it gets the requested size, or LOV_POOL_INIT_COUNT for a request of 0; a failed allocation gives -ENOMEM with size 0 |
| LovPool.OstPool.Extend | drivers/staging/lustre/lustre/lov/lov_pool.c:254-275 | with a free slot nothing changes; otherwise a new array of max(min_count, 2 * size) slots holds the same indices, or -ENOMEM leaves everything as it was; after success a slot is free |
| LovPool.OstPool.Add | drivers/staging/lustre/lustre/lov/lov_pool.c:277-300 | -ENOMEM exactly when the array was full and could not grow; otherwise a present index gives -EEXIST with the indices unchanged and an absent one is appended; a duplicate-free array stays duplicate-free |
| LovPool.OstPool.Remove | drivers/staging/lustre/lustre/lov/lov_pool.c:302-320 | the indices become the old ones with the first occurrence of `idx` cut out; 0 and one fewer when it was present, -EINVAL and no change otherwise |
| LovPool.OstPool.Free | drivers/staging/lustre/lustre/lov/lov_pool.c:322-336 | an unallocated pool is left alone; otherwise it ends with no array and no indices; the result is 0 |
| LovPool.PoolIterator.constructor | drivers/staging/lustre/lustre/lov/lov_pool.c:148-153 | a new iterator stands on entry 0 |
| LovPool.PoolIterator.Next | drivers/staging/lustre/lustre/lov/lov_pool.c:107-131 | the walk goes on exactly when the position is inside the pool and the next entry is not the count; then both move on by one, else neither moves, so an iterator on an entry stays on one |
| LovPool.ProcStart | drivers/staging/lustre/lustre/lov/lov_pool.c:133-171 | an empty pool or a position past its end shows nothing; a failed allocation is -ENOMEM; otherwise a new iterator stands on entry `pos` (entry 0 for position 0) |
| PerfMap.StrnEqPrefix | tools/perf/util/map.c:29-30 | strncmp over the length of the pattern is equal exactly when the pattern is a prefix of the name |
| PerfMap.StrEq | tools/perf/util/map.c:28 | strcmp (a compare running through the terminating NUL) is equal exactly when the two names are equal |
| PerfMap.StrnEqTail | tools/perf/util/map.c:28 | comparing from position `i` through the NUL is equal exactly when the two tails are equal |
| PerfMap.IsAnonMemory | tools/perf/util/map.c:25-31 | anonymous exactly when MAP_HUGETLB is set, the name is "//anon", or it starts with "/dev/zero" or "/anon_hugepage" |
| PerfMap.IsNoDsoMemory | tools/perf/util/map.c:33-38 | no object exactly when the name starts with "[stack" or "/SYSV" or is "[heap]" |
| PerfMap.IsAndroidLib | tools/perf/util/map.c:40-44 | an Android library exactly when the name starts with "/data/app-lib" or "/system/lib" |
| PerfMap.OverlapIff | tools/perf/util/map.c:377-389 | for non-empty maps the test is exactly the intersection of the two half-open ranges, is symmetric, and an overlap has a common address in the first |
| PerfMap.TouchingDoNotOverlap | tools/perf/util/map.c:385-388 | a map ending where the next starts overlaps it in neither order |
| PerfMap.EmptyMapsBreakSymmetry | tools/perf/util/map.c:379-388 | with an empty map the result depends on the order of the arguments when the starts tie |
| PerfMap.CountAtMost | tools/perf/util/map.c:772-779 | the landing position of the insertion descent is at most the number of maps |
| PerfMap.CountAtMostSplit | tools/perf/util/map.c:775-778 | where the maps starting at or below `ip` come first, the descent lands just after them |
| PerfMap.CountAtMostSorted | tools/perf/util/map.c:772-779 | in order of start, every map before the landing position starts at or below `ip` and every map after it above |
| PerfMap.RemoveFirstSorted | tools/perf/util/map.c:681 | erasing a map keeps the in-order walk sorted and takes exactly that map out of the multiset |
| PerfMap.InsertAtSorted | tools/perf/util/map.c:781-782 | linking the map at its landing position keeps the walk sorted and adds exactly that map |
| PerfMap.PlaceAllSorted | tools/perf/util/map.c:695-710 | inserting several pieces one after another keeps the walk sorted and adds exactly those pieces |
| PerfMap.Maps.constructor | tools/perf/util/map.c:531-539 | a new tree is empty and in order |
| PerfMap.Maps.Insert | tools/perf/util/map.c:765-791 | the new map is placed after every map starting at or below it, the tree stays in order and gains exactly that map |
| PerfMap.Maps.Find | tools/perf/util/map.c:806-829 | a map found is in the tree and holds `ip`; when none is found and the maps are disjoint, no map holds `ip` |
| PerfMap.Maps.Fixup | tools/perf/util/map.c:650-726 | the result and the maps left are those of the walk over the tree as it was, whose pieces keep the old file offset as map__clone copies it; the tree stays in order, and on success no map overlaps the new one |
| PerfMap.Replaced | tools/perf/util/map.c:681-714 | replacing an overlapped map by its pieces keeps the tree in order and swaps exactly that map for the pieces |
| PerfMap.WalkStep | tools/perf/util/map.c:661-720 | one step of the walk splits the current map as map.c does, stops with -ENOMEM when a clone fails and goes on to the next map otherwise |
| PerfMap.MultisetStep | tools/perf/util/map.c:661-720 | bookkeeping of the walk: the maps done and still to visit, less the current map and plus its pieces, are the maps done with the pieces and those after the current one |
| PerfMap.FixupStep | tools/perf/util/map.c:661-720 | one step of the walk keeps its bookkeeping: an overlapped map is still in the tree, and replacing it by its pieces keeps the tree equal, as a multiset, to the maps done, the pieces and the maps still to visit; a map that does not overlap moves to the maps done as itself |
| PerfMap.SameMapsNoOverlap | tools/perf/util/map.c:661-726 | no overlap with the new map is a property of the multiset of maps, whatever their order in the tree |
| PerfMap.AfterAsWritten | tools/perf/util/map.c:702-709 | the upper piece as written starts where the new map ends, ends where the old one did and keeps the old file offset unchanged |
| PerfMap.After | tools/perf/util/map.c:702-709 | the upper piece starts where the new map ends, ends where the old one did, keeps its object and relocation, with the file offset advanced by the part cut off |
| PerfMap.SplitWith | tools/perf/util/map.c:665-714 | a map that does not overlap the new one is kept unchanged and no clone is attempted; every piece of a step is the old map, its part below the new map, or the upper piece |
| PerfMap.SplitWithPieces | tools/perf/util/map.c:686-714 | every piece of a step is the old map, its part below the new map, or the given upper piece |
| PerfMap.SplitKeepsOffsets | tools/perf/util/map.c:686-714 | every piece of the step as written keeps the old map's file offset, object and relocation, since each is a copy of the old map with its ends moved |
| PerfMap.Split | tools/perf/util/map.c:686-714 | the step as written, SplitWith with the upper piece AfterAsWritten; SplitKeepsOffsets and SplitCovers state what its pieces are |
| PerfMap.SplitOverlapping | tools/perf/util/map.c:686-714 | an overlapped map gives its lower piece when the new map starts above it, then, unless that clone failed, its upper piece as written when the new map ends below it |
| PerfMap.SplitWithCovers | tools/perf/util/map.c:686-714 | whatever the upper piece from the new map's end to the old map's end, a completed split keeps exactly the old map's addresses outside the new one, in non-empty pieces clear of it, addresses below it translating as the old map did and those above as the upper piece does |
| PerfMap.SplitCovers | tools/perf/util/map.c:686-714 | a completed split as written keeps exactly the addresses of the old map outside the new one, in non-empty pieces clear of the new map; addresses below the new map keep their file offsets, while each address above it gets the file offset the old map gave the address `map->end - pos->start` lower |
| PerfMap.SplitFixedCovers | tools/perf/util/map.c:686-714 | with the upper piece's file offset advanced, a completed split keeps exactly the addresses outside the new map, in pieces clear of it, and every piece translates each of its addresses as the old map did |
| PerfMap.SplitFixed | tools/perf/util/map.c:686-714 | reference definition of the corrected split step, with no contract of its own; SplitFixedCovers and AfterTranslates state it |
| PerfMap.AfterAsWrittenTranslates | tools/perf/util/map.c:702-709 | the upper piece as written translates an address as the old map translated the address `map->end - pos->start` below it |
| PerfMap.AfterTranslates | tools/perf/util/map.c:709 | the upper piece with its offset advanced gives every address the file offset the old map gave it |
| PerfMap.AfterAsWrittenShifts | tools/perf/util/map.c:702-709 | the upper piece as written gives address 0x2000 of a split map the file offset 0 where the old map gave 0x1000 |
| PerfMap.Walk | tools/perf/util/map.c:654-725 | the walk ends with 0 or -ENOMEM |
| PerfMap.WalkNoOverlap | tools/perf/util/map.c:661-722 | when the walk succeeds no map left overlaps the new one |
| PerfMap.WalkSucceeds | tools/perf/util/map.c:687-707 | when every clone succeeds the walk succeeds |
| PerfMap.Add64Sub64 | tools/perf/util/map.c:445-454 | 64-bit subtraction undoes addition and the other way round, with wrap-around |
| PerfMap.ObjdumpRoundTrip | tools/perf/util/map.c:439-485 | an objdump address taken to memory, into the map and back to objdump is itself, in all four adjustment cases, when map_ip and unmap_ip are inverse |
| PerfMap.Rip2Objdump | tools/perf/util/map.c:439-455 | reference definition of map__rip_2objdump, with no contract of its own; ObjdumpRoundTrip states its round trip with Objdump2Mem |
| PerfMap.Objdump2Mem | tools/perf/util/map.c:469-485 | reference definition of map__objdump_2mem, with no contract of its own; ObjdumpRoundTrip states its round trip with Rip2Objdump |
| PerfMap.FindAms | tools/perf/util/map.c:601-615 | an address inside its map is translated and its symbol looked up there; outside it, -1 without groups, -1 and no map when no map of the groups holds it, and otherwise the lookup in the map found; 0 exactly when a symbol was found |
| Vvp.Unpack | drivers/staging/lustre/lustre/llite/vvp_dev.c:400-407 | a 64-bit position unpacks into a page index of 32 bits, a depth below 16 and a bucket of 28 bits |
| Vvp.Pack | drivers/staging/lustre/lustre/llite/vvp_dev.c:409-415 | packing an identifier gives a 64-bit position |
| Vvp.PackUnpack | drivers/staging/lustre/lustre/llite/vvp_dev.c:400-415 | every position is the packing of its unpacking |
| Vvp.UnpackPack | drivers/staging/lustre/lustre/llite/vvp_dev.c:372-415 | unpacking a packed identifier gives it back exactly when its bucket fits the 28 bucket bits |
| Vvp.Advance | drivers/staging/lustre/lustre/llite/vvp_dev.c:498-503 | moving to the next object steps the depth modulo 16, the bucket when the depth wraps, and resets the page index; it ends the walk exactly when the 32-bit bucket counter wraps to 0 |
| Vvp.FindFromFound | drivers/staging/lustre/lustre/llite/vvp_dev.c:473-504 | a page found lies in an existing bucket, no earlier in the walk than the start, at a live object and at the page index the lookup returned; FindFromComplete states the converse |
| Vvp.FindFrom | drivers/staging/lustre/lustre/llite/vvp_dev.c:473-504 | reference definition of the vvp_pgcache_find walk, with no contract of its own; FindFromFound and FindFromComplete state what it finds |
| Vvp.FindFromComplete | drivers/staging/lustre/lustre/llite/vvp_dev.c:473-504 | for object lookups in which no place after a ChainEnded place of the same bucket holds an object (ChainsEnd), the walk skips no page: no place of an existing bucket from the start up to the page found, or anywhere after the start when nothing is found, has a page to report. The lookup as written meets ChainsEnd only while no object is dying (AsWrittenChainsEndWithoutDying); a dying object ends its bucket early (DyingObjectHidesPage), and the corrected lookup meets it always (FixedWalkComplete) |
| Vvp.ObjAsWritten | drivers/staging/lustre/lustre/llite/vvp_dev.c:417-460 | reference definition of vvp_pgcache_obj over the hash chains, with no contract of its own: a dying object at the depth wraps the unsigned `vpi_curdep` and ends the bucket as a chain shorter than the depth does; AsWrittenChainsEndWithoutDying, ChainEndedSkipsBucket and DyingObjectHidesPage state what the walk then does |
| Vvp.ObjFixed | drivers/staging/lustre/lustre/llite/vvp_dev.c:417-460 | reference definition of the lookup with a dying object passed over like an object of another device, with no contract of its own; ObjFixedChainsEnd and FixedWalkComplete state its properties |
| Vvp.ObjFixedChainsEnd | drivers/staging/lustre/lustre/llite/vvp_dev.c:417-460 | the corrected lookup ends a bucket only where its chain has ended, so ChainsEnd holds for every hash table |
| Vvp.AsWrittenChainsEndWithoutDying | drivers/staging/lustre/lustre/llite/vvp_dev.c:417-460 | when no object of any chain is dying, the lookup as written ends a bucket only where its chain has ended |
| Vvp.ChainEndedSkipsBucket | drivers/staging/lustre/lustre/llite/vvp_dev.c:456-504 | once the lookup moves the depth to 15, the walk never reports a deeper place of that bucket |
| Vvp.DyingObjectHidesPage | drivers/staging/lustre/lustre/llite/vvp_dev.c:423-427 | with one chain whose first object is dying and whose second is live with a page, the walk as written from position 0 finds nothing though that page exists; with the corrected lookup it finds the page |
| Vvp.FixedWalkComplete | drivers/staging/lustre/lustre/llite/vvp_dev.c:434-504 | with the corrected lookup, for any hash chains, no place of an existing bucket from the start up to the page found, or anywhere after the start when nothing is found, has a page to report |
| Vvp.FoundPositionDecodes | drivers/staging/lustre/lustre/llite/vvp_dev.c:572-577 | with at most 2^28 hash chains the position stored for a page decodes back to that page |
| Vvp.Find | drivers/staging/lustre/lustre/llite/vvp_dev.c:462-505 | the while(1) loop returns what the walk from the unpacked position finds, stores the packed position of the page found and leaves the position alone at the end |
| Vvp.Start | drivers/staging/lustre/lustre/llite/vvp_dev.c:567-580 | a hash table of more bits than 64 - PGC_OBJ_SHIFT gives -EFBIG; otherwise the walk over its 2^bits chains, with a found position that decodes to the page found |
| Vvp.Next | drivers/staging/lustre/lustre/llite/vvp_dev.c:582-591 | the search goes on from the position after the given one |
| Vvp.NextResumesAfter | drivers/staging/lustre/lustre/llite/vvp_dev.c:587 | the position after that of a page is the next page index of the same object |
| LibcfsModule.Without | drivers/staging/lustre/lnet/libcfs/module.c:91 | unlinking a handler removes exactly that handler and keeps the list as is when it is not there |
| LibcfsModule.WithoutDistinct | drivers/staging/lustre/lnet/libcfs/module.c:83-95 | unlinking keeps the handlers distinct and shortens the list by exactly one when the handler was linked |
| LibcfsModule.WithoutAppended | drivers/staging/lustre/lnet/libcfs/module.c:68-95 | registering a new handler and deregistering it gives back the list it started from |
| LibcfsModule.IoctlRegistry.constructor | drivers/staging/lustre/lnet/libcfs/module.c:66 | the handler list starts empty |
| LibcfsModule.IoctlRegistry.Register | drivers/staging/lustre/lnet/libcfs/module.c:68-80 | a handler already linked is refused with -EBUSY and the list unchanged; otherwise it joins the tail and 0 is returned; handlers stay distinct |
| LibcfsModule.IoctlRegistry.Deregister | drivers/staging/lustre/lnet/libcfs/module.c:83-95 | a handler not linked is refused with -ENOENT and the list unchanged; otherwise it is unlinked and 0 is returned |
| Common.RoundUp8 | drivers/staging/lustre/lnet/libcfs/module.c:102-103 | cfs_size_round, like the ALIGN(x, 8) of vsp1_dl_list_alloc, gives the least multiple of 8 not below its argument |
| LibcfsModule.PackLen | drivers/staging/lustre/lnet/libcfs/module.c:98-105 | the packed length covers the structure and both inline buffers |
| LibcfsModule.IsInvalidIff | drivers/staging/lustre/lnet/libcfs/module.c:107-161 | the checks accept a buffer exactly when it is well formed: every length within 2^30, an inline pointer only with a nonzero length, a separate buffer pointer exactly with a nonzero length, the packed length equal to the header's, and both inline buffers NUL-terminated, the second at the rounded end of the first |
| LibcfsModule.IsInvalid | drivers/staging/lustre/lnet/libcfs/module.c:107-161 | reference definition of libcfs_ioctl_is_invalid, its checks in their order, with no contract of its own; IsInvalidIff states what it accepts |
| LibcfsModule.DataAdjust | drivers/staging/lustre/lnet/libcfs/module.c:163-178 | reference definition of libcfs_ioctl_data_adjust, with no contract of its own; AdjustedBuffersTerminated states where the adjusted buffers lie, and Ioctl states its -EINVAL for an invalid buffer |
| LibcfsModule.AdjustedBuffersTerminated | drivers/staging/lustre/lnet/libcfs/module.c:149-175 | after a successful adjustment each inline buffer lies inside the bulk and ends in its NUL byte |
| LibcfsModule.GetData | drivers/staging/lustre/lnet/libcfs/module.c:180-227 | the header read succeeds exactly when the first copy works, the version is one of the two known, the length is between the header size and LIBCFS_IOC_DATA_MAX, the allocation succeeds and the second copy repeats the header; a fault on the first copy is -EFAULT and an unknown version -EINVAL |
| LibcfsModule.DispatchNone | drivers/staging/lustre/lnet/libcfs/module.c:274-288 | when every handler answers -EINVAL so does the ioctl |
| LibcfsModule.DispatchFirst | drivers/staging/lustre/lnet/libcfs/module.c:276-286 | the first handler not answering -EINVAL decides the result, a success becoming -EFAULT when the copy back to the user fails |
| LibcfsModule.Dispatch | drivers/staging/lustre/lnet/libcfs/module.c:271-288 | the list walk returns what the dispatch model gives |
| LibcfsModule.DispatchFrom | drivers/staging/lustre/lnet/libcfs/module.c:271-288 | reference definition of the handler walk of libcfs_ioctl, with no contract of its own; DispatchNone and DispatchFirst state it and Dispatch is proved against it |
| LibcfsModule.Ioctl | drivers/staging/lustre/lnet/libcfs/module.c:229-293 | a header error is returned as is; an invalid version-1 buffer gives -EINVAL; otherwise clearing the debug buffer succeeds, marking it succeeds exactly for a version-1 buffer with a first inline buffer, and other commands return the dispatch result |
| LibcfsModule.PsdevIoctl | drivers/staging/lustre/lnet/libcfs/module.c:295-310 | a caller without CAP_SYS_ADMIN gets -EACCES, a command outside libcfs's type and number range -EINVAL, and any other the result of libcfs_ioctl |
| LibcfsModule.CallHandler | drivers/staging/lustre/lnet/libcfs/module.c:323-340 | a negative handler result is returned with the position and length untouched; a write moves the position by the length; a read sets the length to the handler's count and moves the position by it |
| LibcfsModule.FopsSelect | drivers/staging/lustre/lnet/libcfs/module.c:648-657 | reference definition of lnet_debugfs_fops_select, with no contract of its own; NoPermissionReadOnly states its fallback |
| LibcfsModule.NoPermissionReadOnly | drivers/staging/lustre/lnet/libcfs/module.c:650-651 | a mode with no permission bits at all still gets the read-only operations |
| Tsl2x7x.ScanFrom | drivers/staging/iio/light/tsl2x7x.c:409-433 | the largest in-range lux of the rows scanned is always between 0 and 65535 |
| Tsl2x7x.TableLux | drivers/staging/iio/light/tsl2x7x.c:409-436 | the lux computed from the table is always between 0 and 65535 |
| Tsl2x7x.RowLux | drivers/staging/iio/light/tsl2x7x.c:415-423 | reference definition of one lux equation in the unsigned int arithmetic of its coefficients, with no contract of its own; NegativeRowWraps, ScanUpper and ScanOverflow state what the scan makes of it |
| Tsl2x7x.NegativeRowWraps | drivers/staging/iio/light/tsl2x7x.c:415-423 | a row whose difference is negative wraps modulo 2^32: at the smallest divisor it counts as an overflow, at the largest it gives an in-range lux of 51 |
| Tsl2x7x.LuxRead | drivers/staging/iio/light/tsl2x7x.c:359-446 | reference definition of what get_lux does to the stored reading and returns, with no contract of its own; Chip.GetLux is proved against it, and Chip.AlsCalibrate and Chip.ReadRaw use it |
| Tsl2x7x.ScanUpper | drivers/staging/iio/light/tsl2x7x.c:427-432 | every row reached with an in-range lux is at most the maximum the scan keeps |
| Tsl2x7x.ScanAttained | drivers/staging/iio/light/tsl2x7x.c:409-432 | the maximum kept is 0 or the lux of some row reached |
| Tsl2x7x.ScanOverflow | drivers/staging/iio/light/tsl2x7x.c:427-430 | the scan records an overflow exactly when some row reached gives more than 65535 |
| Tsl2x7x.TableLuxIsMax | drivers/staging/iio/light/tsl2x7x.c:409-436 | the result bounds every in-range row reached, is 0, 65535 or the lux of some row, and is 65535 from an overflow only when no row gave a positive lux |
| Tsl2x7x.MaxTableLux | drivers/staging/iio/light/tsl2x7x.c:409-436 | the loop over a zero-terminated table computes exactly that lux |
| Tsl2x7x.ThresholdBytes | drivers/staging/iio/light/tsl2x7x.c:590-611 | a 16-bit threshold is its low register byte plus 256 times its high byte |
| Tsl2x7x.PersistenceFields | drivers/staging/iio/light/tsl2x7x.c:598-600 | with both filters below 16, PERSISTENCE holds the proximity filter in its high nibble and the ALS filter in its low nibble |
| Tsl2x7x.GainFields | drivers/staging/iio/light/tsl2x7x.c:621-625 | with each field below 4, GAIN holds the ALS gain, proximity gain, diode and power in four separate two-bit fields |
| Tsl2x7x.GainPacks | drivers/staging/iio/light/tsl2x7x.c:621-625 | the or of the shifted fields is their sum when each is below 4 |
| Tsl2x7x.Shadow | drivers/staging/iio/light/tsl2x7x.c:584-625 | the shadow has one byte per configuration register, sixteen |
| Tsl2x7x.ShadowDecodes | drivers/staging/iio/light/tsl2x7x.c:584-611 | reading the shadow back gives the four 16-bit thresholds, the three times, the gain byte and the untouched control byte |
| Tsl2x7x.Scale | drivers/staging/iio/light/tsl2x7x.c:628-632 | reference definition of the lux divisor, the integration time times the ALS gain, with no contract of its own; ScalePositive and ScaleZeroIff state when it vanishes |
| Tsl2x7x.ScalePositive | drivers/staging/iio/light/tsl2x7x.c:628-632 | for any als_time up to 255 the divisor and the saturation are positive |
| Tsl2x7x.ScaleZeroIff | drivers/staging/iio/light/tsl2x7x.c:628-632 | the lux divisor is 0 exactly when the saturation level is, which is exactly at als_time = 256, so a working chip never divides by it: get_lux then takes the saturation branch |
| Tsl2x7x.FirstRegFailure | drivers/staging/iio/light/tsl2x7x.c:646-658 | the first failing register write: every earlier one succeeded and this one failed, or sixteen when all succeeded |
| Tsl2x7x.OnResultSign | drivers/staging/iio/light/tsl2x7x.c:638-686 | chip_on succeeds exactly when the power-on write, all sixteen register writes, the control write and the interrupt clear succeed, and then returns the clear's result |
| Tsl2x7x.PowerOn | drivers/staging/iio/light/tsl2x7x.c:638-686 | the transfers stop at the first failure and return its code, else the clear's result |
| Tsl2x7x.WriteShadow | drivers/staging/iio/light/tsl2x7x.c:646-658 | the register loop returns the code of the first failing write, or a non-negative value when all succeed |
| Tsl2x7x.CalibrateGate | drivers/staging/iio/light/tsl2x7x.c:547-558 | the control byte passes exactly when both the power-on and ADC-enable bits are set, otherwise -EINVAL; the -ENODATA branch cannot be reached |
| Tsl2x7x.CalibrationRescales | drivers/staging/iio/light/tsl2x7x.c:567-568 | the new trim is the quotient of target times trim by the measured lux, rounded down |
| Tsl2x7x.ZeroLuxReachesDivision | drivers/staging/iio/light/tsl2x7x.c:397-568 | a working chip whose first valid reading after probe has ch0 = 0 gets back the stored lux, 0 since probe, and the test as written (only a negative lux is refused) lets that 0 through to the division |
| Tsl2x7x.SeqMax | drivers/staging/iio/light/tsl2x7x.c:751-754 | the running maximum from INT_MIN bounds every sample and is INT_MIN or one of them |
| Tsl2x7x.ProxThresholdAboveSamples | drivers/staging/iio/light/tsl2x7x.c:750-758 | for non-negative samples the new high threshold, twice the maximum minus the mean, is at least every sample |
| Tsl2x7x.FirstBadRead | drivers/staging/iio/light/tsl2x7x.c:741-748 | the first failing proximity read: every earlier one succeeded and this one failed, or n when all succeeded |
| Tsl2x7x.Samples | drivers/staging/iio/light/tsl2x7x.c:741-748 | reference definition of the history of n readings, with no contract of its own; Chip.CollectSamples states that the loop collects it and ProxThresholdAboveSamples bounds the threshold computed from it |
| Tsl2x7x.SumAndMax | drivers/staging/iio/light/tsl2x7x.c:750-755 | the second loop computes the sum and the maximum of the history |
| Tsl2x7x.StoredTableTerminated | drivers/staging/iio/light/tsl2x7x.c:865-881 | an accepted table holds the user's pairs in order, zero rows after them, and ends in a zero row within its nine rows |
| Tsl2x7x.DefaultTable | drivers/staging/iio/light/tsl2x7x.c:174-209 | each family's default table has nine rows, the last with a zero ch0 coefficient |
| Tsl2x7x.AlsGainIndex | drivers/staging/iio/light/tsl2x7x.c:1147-1163 | an intensity CALIBSCALE is accepted exactly when it is 1, 8, 16 or 120, giving the index of that gain |
| Tsl2x7x.ProxGainIndex | drivers/staging/iio/light/tsl2x7x.c:1164-1180 | any other CALIBSCALE is accepted exactly when it is 1, 2, 4 or 8, giving the index of that gain |
| Tsl2x7x.CalibscaleAsWrittenLosesAlsGain | drivers/staging/iio/light/tsl2x7x.c:1114-1120 | writing 120 to the intensity CALIBSCALE sets ALS gain index 3, yet read_raw as written reports 1 for it |
| Tsl2x7x.CalibscaleRoundTrip | drivers/staging/iio/light/tsl2x7x.c:1114-1182 | a CALIBSCALE write is accepted exactly for a gain of its channel's table; the corrected read gives the written value back, and writing back what it reads leaves the settings unchanged |
| Tsl2x7x.CalibscaleAsWritten | drivers/staging/iio/light/tsl2x7x.c:1114-1120 | reference definition of the CALIBSCALE read as written, testing IIO_LIGHT, with no contract of its own; CalibscaleAsWrittenLosesAlsGain states its defect |
| Tsl2x7x.Calibscale | drivers/staging/iio/light/tsl2x7x.c:1114-1120 | reference definition of the corrected CALIBSCALE read, testing IIO_INTENSITY as write_raw does, with no contract of its own; CalibscaleRoundTrip states it round-trips |
| Tsl2x7x.IntegrationTime | drivers/staging/iio/light/tsl2x7x.c:1127 | reference definition of the INT_TIME value, (256 - als_time) * 2720 microseconds, with no contract of its own; ReadWriteRoundTrip states that writing it back restores als_time |
| Tsl2x7x.ReadWriteRoundTrip | drivers/staging/iio/light/tsl2x7x.c:1114-1188 | writing back what read_raw reports for INT_TIME and CALIBBIAS, and for the proximity channel's CALIBSCALE, leaves the settings unchanged |
| Tsl2x7x.ReadSetting | drivers/staging/iio/light/tsl2x7x.c:1114-1130 | reference definition of the settings read of read_raw: CALIBSCALE by the IIO_LIGHT test, CALIBBIAS and INT_TIME; with no contract of its own; ReadWriteRoundTrip and IntensityWriteBackAsWritten state how it pairs with RawWrite |
| Tsl2x7x.RawWrite | drivers/staging/iio/light/tsl2x7x.c:1137-1194 | reference definition of the settings write of write_raw, None where it returns -EINVAL, with no contract of its own; AlsGainIndex, ProxGainIndex, CalibscaleRoundTrip and ReadWriteRoundTrip state what it accepts |
| Tsl2x7x.IntensityWriteBackAsWritten | drivers/staging/iio/light/tsl2x7x.c:1114-1182 | read_raw reports the proximity gain as the intensity channel's CALIBSCALE; writing that back is refused for the gains 2 and 4 and otherwise sets the ALS gain to 1 or 8, whatever it was |
| Tsl2x7x.DeviceIdVerif | drivers/staging/iio/light/tsl2x7x.c:1205-1224 | an unknown family gives -EINVAL; a known one gives 1 exactly when the upper nibble of the ID is the family's, else 0 |
| Tsl2x7x.DeviceIdRange | drivers/staging/iio/light/tsl2x7x.c:1205-1224 | a known family accepts exactly the sixteen ID bytes from its ID value up |
| Tsl2x7x.Chip.constructor | drivers/staging/iio/light/tsl2x7x.c:506-525 | a probed chip has unknown status, the nominal settings, its family's lux table, a zero shadow and no readings |
| Tsl2x7x.Chip.GetLux | drivers/staging/iio/light/tsl2x7x.c:359-446 | as LuxRead states: -EBUSY when not working; a failed read returns its error; an invalid ADC, or ch0 of 0, returns the last lux unchanged; ch0 at saturation gives 65535 (always so for an integration count of 0, where saturation and divisor are both 0); otherwise the table lux, stored with both channels |
| Tsl2x7x.Chip.GetProx | drivers/staging/iio/light/tsl2x7x.c:454-497 | the result is the read's, and a successful reading is stored as the proximity data |
| Tsl2x7x.Chip.AlsCalibrate | drivers/staging/iio/light/tsl2x7x.c:533-575 | a failed control read or a control byte without power and ADC returns its error and reads nothing; otherwise get_lux runs and updates the stored reading as LuxRead states, a failed lux reading returns its error, a zero lux gives -ERANGE (the corrected behaviour: the source divides by zero at tsl2x7x.c:567, see ZeroLuxReachesDivision and Findings), a trim outside 250..4000 gives -ERANGE, and otherwise the new trim is stored and returned |
| Tsl2x7x.Chip.ChipOn | drivers/staging/iio/light/tsl2x7x.c:577-687 | the non-gain registers are always shadowed; a working chip gets -EINVAL; otherwise the gain, saturation and scale are set, the result is that of the transfers and the chip is working exactly when they all succeeded |
| Tsl2x7x.Chip.ConfigureGain | drivers/staging/iio/light/tsl2x7x.c:620-632 | sets the gain byte of the shadow, the saturation and the lux divisor from the settings |
| Tsl2x7x.Chip.PowerUp | drivers/staging/iio/light/tsl2x7x.c:634-686 | the transfers' result, and working status exactly on success |
| Tsl2x7x.Chip.SetShadow | drivers/staging/iio/light/tsl2x7x.c:584-611 | the shadow array becomes the given bytes |
| Tsl2x7x.Chip.ChipOff | drivers/staging/iio/light/tsl2x7x.c:689-696 | the chip is suspended and the control write's result returned, nothing else changing |
| Tsl2x7x.Chip.InvokeChange | drivers/staging/iio/light/tsl2x7x.c:707-729 | a working chip is turned off first, stopping on a failed write with the chip suspended; then chip_on runs; the chip is working exactly when the result is non-negative |
| Tsl2x7x.Chip.CollectSamples | drivers/staging/iio/light/tsl2x7x.c:741-748 | the reads stop at the first failure with its code; otherwise the history is the n readings and the last one is the proximity data |
| Tsl2x7x.Chip.ProxCalibrate | drivers/staging/iio/light/tsl2x7x.c:737-758 | a sample count outside 1..200 gives -EINVAL; a failed read returns its error; otherwise the high threshold becomes twice the maximum minus the mean |
| Tsl2x7x.Chip.ProxCal | drivers/staging/iio/light/tsl2x7x.c:731-761 | a refused count or failed read fails with nothing set; otherwise the new threshold is stored and the chip is power-cycled, working exactly on success |
| Tsl2x7x.Chip.LuxTableStore | drivers/staging/iio/light/tsl2x7x.c:848-888 | a count that is odd, under 4 or over 16, or a last pair not (0, 0), gives -EINVAL; a failed power-off keeps the old table; otherwise the stored table is the user's pairs and the chip is reconfigured |
| Tsl2x7x.Chip.WriteRaw | drivers/staging/iio/light/tsl2x7x.c:1137-1194 | an unaccepted value or attribute gives -EINVAL with nothing changed; otherwise the setting is stored and the chip reconfigured, working exactly on success |
| Tsl2x7x.Chip.ReadRaw | drivers/staging/iio/light/tsl2x7x.c:1074-1135 | PROCESSED on a light channel and RAW on an intensity channel first run get_lux, which updates the stored reading as LuxRead states, and RAW on the proximity channel first runs get_prox, which stores a successful read; every other request leaves both alone; then PROCESSED gives the stored lux of a light channel, RAW the stored channel count of an intensity channel or the proximity data; CALIBSCALE the ALS gain for a light channel and the proximity gain for any other, as the IIO_LIGHT test does; CALIBBIAS and INT_TIME what the settings say |
| LuObject.NextVersion | drivers/staging/lustre/lustre/obdclass/lu_object.c:1372 | incrementing the unsigned key_set_version always gives a different value: one more, or 0 after 2^32 - 1 |
| LuObject.ContextKey.constructor | drivers/staging/lustre/lustre/obdclass/lu_object.c:1316-1340 | a key starts with its own tags and exit method, slot 0 and use count 0, before it is registered |
| LuObject.FirstFreeLowest | drivers/staging/lustre/lustre/obdclass/lu_object.c:1327-1337 | the slot search finds the lowest empty slot of lu_keys[], and finds none only when every slot is taken |
| LuObject.FirstFree | drivers/staging/lustre/lustre/obdclass/lu_object.c:1327-1337 | reference definition of the lu_keys[] slot search, with no contract of its own; FirstFreeLowest states it finds the lowest empty slot, KeyRegistry.Register uses it |
| LuObject.RegisterDegisterRestores | drivers/staging/lustre/lustre/obdclass/lu_object.c:1316-1396 | registering a key in the first free slot and clearing that slot again gives back the table as it was |
| LuObject.KeyRegistry.View | drivers/staging/lustre/lustre/obdclass/lu_object.c:1584-1590 | the table seen by keys_fill has one entry per slot, present exactly where a key is registered |
| LuObject.KeyRegistry.constructor | drivers/staging/lustre/lustre/obdclass/lu_object.c:1316-1340 | the table starts with all 40 slots empty and version 0 |
| LuObject.KeyRegistry.Register | drivers/staging/lustre/lustre/obdclass/lu_object.c:1316-1340 | a key goes into the lowest empty slot, records that index, has use count 1, and the version moves; with no empty slot the result is -ENFILE and nothing changes |
| LuObject.KeyRegistry.Quiesce | drivers/staging/lustre/lustre/obdclass/lu_object.c:1503-1535 | a key not yet quiescent gains LCT_QUIESCENT and the version moves; an already quiescent key and the version stay as they were |
| LuObject.KeyRegistry.Revive | drivers/staging/lustre/lustre/obdclass/lu_object.c:1537-1543 | the key loses LCT_QUIESCENT and the version moves |
| LuObject.KeyRegistry.Degister | drivers/staging/lustre/lustre/obdclass/lu_object.c:1364-1396 | the key is quiesced, its slot is cleared and no other slot changes, and the version moves once more |
| LuObject.FillStep | drivers/staging/lustre/lustre/obdclass/lu_object.c:1584-1627 | one slot of keys_fill, as a value; its own contract states only that the value array keeps its length (what it fills is stated by the lemmas below) |
| LuObject.FillFrom | drivers/staging/lustre/lustre/obdclass/lu_object.c:1559-1631 | one pass of keys_fill, as a value; its own contract states only that the value array keeps its length (what it fills is stated by the lemmas below) |
| LuObject.FillStepOnlyFillsWanted | drivers/staging/lustre/lustre/obdclass/lu_object.c:1584-1617 | one slot of keys_fill changes at most that slot, to what lct_init made for a wanted key, and only adds tags |
| LuObject.FillOnlyFillsWanted | drivers/staging/lustre/lustre/obdclass/lu_object.c:1559-1631 | keys_fill never overwrites a value: a changed slot was empty and holds what lct_init made for a registered, non-quiescent key sharing the context's tags; tags only gain bits |
| LuObject.FillComplete | drivers/staging/lustre/lustre/obdclass/lu_object.c:1559-1631 | a successful pass gives every wanted slot whose module can be pinned the value its lct_init made |
| LuObject.FillError | drivers/staging/lustre/lustre/obdclass/lu_object.c:1602-1606 | a failed pass returns the negated error number some key's lct_init gave |
| LuObject.ExitCallsExactly | drivers/staging/lustre/lustre/obdclass/lu_object.c:1714-1723 | lu_context_exit calls each exit method once, in increasing slot order, for exactly the filled slots whose key has one |
| LuObject.ExitCalls | drivers/staging/lustre/lustre/obdclass/lu_object.c:1714-1723 | reference definition of the exit methods lu_context_exit calls, with no contract of its own; ExitCallsExactly states which, Context.Exit and Context.ExitHooks call them |
| LuObject.Context.constructor | drivers/staging/lustre/lustre/obdclass/lu_object.c:1646-1666 | a context before lu_context_init is zeroed, with no value array, version 0 and not remembered |
| LuObject.Context.KeysFill | drivers/staging/lustre/lustre/obdclass/lu_object.c:1559-1631 | the values, tags and result are those of one pass over the table; the context records the table's version only on success |
| LuObject.Context.FillSlot | drivers/staging/lustre/lustre/obdclass/lu_object.c:1584-1617 | the loop body of keys_fill at one slot has the effect of the step function on that slot |
| LuObject.Context.Init | drivers/staging/lustre/lustre/obdclass/lu_object.c:1646-1666 | lu_context_init sets the state to INITIALIZED and the tags, remembers the context when LCT_REMEMBER is set, and fills a fresh value array; a failed allocation gives -ENOMEM, and any failure leaves the context FINALIZED with no values |
| LuObject.Context.KeysInit | drivers/staging/lustre/lustre/obdclass/lu_object.c:1633-1641 | a failed allocation gives -ENOMEM with the context unchanged; otherwise the value array starts empty and is filled by one pass |
| LuObject.Context.Fini | drivers/staging/lustre/lustre/obdclass/lu_object.c:1672-1687 | from INITIALIZED or LEFT the context becomes FINALIZED, its values are freed and it is forgotten |
| LuObject.Context.Enter | drivers/staging/lustre/lustre/obdclass/lu_object.c:1693-1697 | from INITIALIZED or LEFT the context becomes ENTERED |
| LuObject.Context.Exit | drivers/staging/lustre/lustre/obdclass/lu_object.c:1703-1728 | the context becomes LEFT; exit methods run only when LCT_HAS_EXIT is set and a value array exists, for exactly the filled slots with an exit method, in slot order |
| LuObject.Context.ExitHooks | drivers/staging/lustre/lustre/obdclass/lu_object.c:1714-1723 | the loop of lu_context_exit calls the exit methods the reference list names |
| LuObject.Context.Refill | drivers/staging/lustre/lustre/obdclass/lu_object.c:1736-1746 | a context at the table's version is left alone with result 0; otherwise one keys_fill runs |
| LuObject.EffectivePercent | drivers/staging/lustre/lustre/obdclass/lu_object.c:884-890 | the percentage used is in [1, 50]; it is the setting exactly when the setting is in range, and the default 20 otherwise |
| LuObject.OrderFromLeast | drivers/staging/lustre/lustre/obdclass/lu_object.c:894-895 | the doubling loop stops at the least order from its start whose power of two reaches the cache size |
| LuObject.OrderFrom | drivers/staging/lustre/lustre/obdclass/lu_object.c:894-895 | reference definition of the doubling loop, with no contract of its own; OrderFromLeast states it stops at the least order, HtableOrderBounds what the clamp makes of it |
| LuObject.CacheSize | drivers/staging/lustre/lustre/obdclass/lu_object.c:891-892 | reference definition of the cache size in kilobytes in unsigned long arithmetic, with no contract of its own; CacheTunables.HtableOrder sizes the table for it |
| LuObject.HtableOrderBounds | drivers/staging/lustre/lustre/obdclass/lu_object.c:859-897 | the hash order is in [12, 19] for the client device and [12, 24] otherwise, and inside those bounds it is the least order whose power of two reaches the cache size |
| LuObject.CacheTunables.constructor | drivers/staging/lustre/lustre/obdclass/lu_object.c:101-107 | the module parameters start at 20 percent and no object limit |
| LuObject.CacheTunables.HtableOrder | drivers/staging/lustre/lustre/obdclass/lu_object.c:859-897 | an out-of-range lu_cache_percent is reset to the default, and the order is the clamped least order covering the cache size |
| LuObject.PurgeTowardsLimit | drivers/staging/lustre/lustre/obdclass/lu_object.c:645-660 | with a non-negative limit, objects are purged exactly when the cache holds more than the limit, at most 512 at a time, reaching the limit when the excess is at most 512 |
| LuObject.UnlimitedNeverPurges | drivers/staging/lustre/lustre/obdclass/lu_object.c:649-650 | the unlimited setting never purges |
| LuObject.PurgeCount | drivers/staging/lustre/lustre/obdclass/lu_object.c:645-660 | reference definition of what lu_object_limit asks lu_site_purge_objects to purge, with no contract of its own; PurgeTowardsLimit and UnlimitedNeverPurges state it |
| LuObject.FirstLayerFirst | drivers/staging/lustre/lustre/obdclass/lu_object.c:1244-1254 | the search finds the first slice of the type, and finds none only when no slice has that type |
| LuObject.Locate | drivers/staging/lustre/lustre/obdclass/lu_object.c:1244-1254 | lu_object_locate returns the first slice whose device has the type, or NULL when none has it |
| LuObject.FirstLayer | drivers/staging/lustre/lustre/obdclass/lu_object.c:1244-1254 | reference definition of the slice search, with no contract of its own; FirstLayerFirst and Locate state it |
| CaamCtrl.CcbvidEra | drivers/crypto/caam/ctrl.c:425 | the era field of CCBVID is bits 31:24, below 256 |
| CaamCtrl.IpId | drivers/crypto/caam/ctrl.c:431 | the IP identifier of SECVID_MS is bits 31:16, below 65536 |
| CaamCtrl.MajRev | drivers/crypto/caam/ctrl.c:432 | the major revision of SECVID_MS is bits 15:8, below 256 |
| CaamCtrl.EraTableUnambiguous | drivers/crypto/caam/ctrl.c:405-419 | no two rows of the era table share an (IP identifier, major revision) pair, so the first match is the only match |
| CaamCtrl.GetEraFromHw | drivers/crypto/caam/ctrl.c:399-438 | a nonzero CCBVID era is returned as is; otherwise the result is -ENOTSUPP exactly when no table row matches, and else the era of the first matching row; every result is -ENOTSUPP or an era in 1..255 |
| CaamCtrl.VirtEn | drivers/crypto/caam/ctrl.c:638-651 | virt_en is 0 or 1, and 1 exactly when (VIRT_EN_INCL and (VIRT_EN_POR or SCFGR_VIRT_EN)) or (not VIRT_EN_INCL and VIRT_EN_POR) |
| CaamCtrl.VirtEnAtPowerOn | drivers/crypto/caam/ctrl.c:638-651 | VIRT_EN_POR alone turns virtualisation on, whatever VIRT_EN_INCL and SCFGR say |
| CaamCtrl.VirtEnIgnoresScfgrWhenExcluded | drivers/crypto/caam/ctrl.c:648-651 | without VIRT_EN_INCL the SCFGR value has no effect |
| CaamCtrl.InstantiationDesc | drivers/crypto/caam/ctrl.c:44-77 | reference definition of build_instantiation_desc, with no contract of its own; InstantiateSkipsSet states which descriptors instantiate_rng runs with it |
| CaamCtrl.RunStepsInOrder | drivers/crypto/caam/ctrl.c:208-239 | the state-handle loops run only descriptors of handles that reach a descriptor, each of its own handle, in increasing handle order |
| CaamCtrl.RunStepsOkBeforeLast | drivers/crypto/caam/ctrl.c:231-239 | every descriptor but the last one run succeeded |
| CaamCtrl.RunStepsEndOnFailure | drivers/crypto/caam/ctrl.c:231-239 | when some handle's descriptor would fail, the last descriptor run is a failing one |
| CaamCtrl.RunStepsAllRun | drivers/crypto/caam/ctrl.c:208-239 | when no descriptor fails the loop returns 0 and runs the descriptor of every handle it does not skip |
| CaamCtrl.RunStepsZeroIff | drivers/crypto/caam/ctrl.c:208-239 | when a step fails exactly when it returns nonzero, the loop returns 0 exactly when every step it runs succeeds |
| CaamCtrl.RunSteps | drivers/crypto/caam/ctrl.c:208-239 | reference definition of the state-handle loops of instantiate_rng and deinstantiate_rng, with no contract of its own; RunStepsInOrder, RunStepsOkBeforeLast, RunStepsEndOnFailure, RunStepsAllRun and RunStepsZeroIff state it |
| CaamCtrl.InstantiateStep | drivers/crypto/caam/ctrl.c:208-239 | one pass of the instantiate_rng loop fails exactly when it leaves a nonzero return value behind |
| CaamCtrl.InstantiateSteps | drivers/crypto/caam/ctrl.c:208 | the instantiate_rng loop has RNG4_MAX_HANDLES passes, pass `i` on handle `i` |
| CaamCtrl.InstantiateSkipsSet | drivers/crypto/caam/ctrl.c:208-217 | instantiate_rng runs descriptors only for handles whose mask bit is clear, in handle order, with secure-key generation on handle 0 only |
| CaamCtrl.InstantiateSucceeds | drivers/crypto/caam/ctrl.c:208-239 | instantiate_rng returns 0 exactly when every handle with a clear mask bit had DECO return 0, a success or jump-halt status and its RDSTA bit set afterwards |
| CaamCtrl.InstantiateStopsAtFailure | drivers/crypto/caam/ctrl.c:231-239 | every handle instantiated before the last descriptor succeeded, and a nonzero result comes from a last descriptor that failed |
| CaamCtrl.InstantiateAgain | drivers/crypto/caam/ctrl.c:234-239 | an error status that is not a jump halt, or a handle RDSTA bit left clear, makes instantiate_rng return -EAGAIN |
| CaamCtrl.InstantiateRng | drivers/crypto/caam/ctrl.c:195-249 | the loop returns what the step model of instantiate_rng gives: -ENOMEM without a descriptor buffer, otherwise the value and the descriptors run of the handle loop |
| CaamCtrl.InstantiateSpec | drivers/crypto/caam/ctrl.c:195-249 | reference definition of instantiate_rng, with no contract of its own; InstantiateRng is proved against it and InstantiateSucceeds, InstantiateStopsAtFailure and InstantiateAgain state its loop |
| CaamCtrl.DeinstantiateSteps | drivers/crypto/caam/ctrl.c:273 | the deinstantiate_rng loop has RNG4_MAX_HANDLES passes, pass `i` on handle `i` |
| CaamCtrl.DeinstantiateOnlySet | drivers/crypto/caam/ctrl.c:273-284 | deinstantiate_rng runs deinstantiation descriptors only for handles whose mask bit is set, in handle order |
| CaamCtrl.DeinstantiateStopsAtFailure | drivers/crypto/caam/ctrl.c:287-295 | every handle deinstantiated before the last one succeeded |
| CaamCtrl.DeinstantiateAll | drivers/crypto/caam/ctrl.c:273-297 | with no failure every handle whose mask bit is set is deinstantiated and the result is 0 |
| CaamCtrl.DeinstantiateStatusErrorReturnsZero | drivers/crypto/caam/ctrl.c:287-302 | an error status on a descriptor that DECO 0 ran stops the loop but the result is 0: only run_descriptor_deco0 errors are returned, not the -EAGAIN the header comment at lines 259-262 lists |
| CaamCtrl.DeinstantiateFixedZeroIff | drivers/crypto/caam/ctrl.c:252-302 | with the error status reported as the header comment says (-EAGAIN), deinstantiate_rng returns 0 exactly when every handle of the mask was deinstantiated |
| CaamCtrl.DeinstantiateRng | drivers/crypto/caam/ctrl.c:264-303 | the loop returns what the step model of deinstantiate_rng gives: -ENOMEM without a buffer, otherwise the value and descriptors of the handle loop |
| CaamCtrl.DeinstantiateSpec | drivers/crypto/caam/ctrl.c:264-303 | reference definition of deinstantiate_rng as written, with no contract of its own; DeinstantiateRng is proved against it and DeinstantiateStatusErrorReturnsZero states its defect |
| CaamCtrl.DeinstantiateStep | drivers/crypto/caam/ctrl.c:273-297 | reference definition of one pass of the deinstantiate_rng loop as written, with no contract of its own; DeinstantiateOnlySet, DeinstantiateStopsAtFailure and DeinstantiateAll state the loop of these passes |
| CaamCtrl.DeinstantiateStepFixed | drivers/crypto/caam/ctrl.c:252-302 | reference definition of the corrected pass, with -EAGAIN for an error status, with no contract of its own; DeinstantiateFixedZeroIff states the loop of these passes |
| CaamCtrl.DeinstantiateStepsFixed | drivers/crypto/caam/ctrl.c:273 | reference definition of the two corrected passes of the loop, with no contract of its own; DeinstantiateFixedZeroIff states what they return |
| CaamCtrl.RunModeLeavesProgramMode | drivers/crypto/caam/ctrl.c:366-396 | after the two clrsetbits_32 calls RTMCTL is out of program mode with raw sampling selected |
| CaamCtrl.KickNeverLowers | drivers/crypto/caam/ctrl.c:376-388 | kick_trng leaves the entropy delay as it is when the requested one is not longer, and otherwise programs it, keeping the sample size and setting the minimum frequency count to a quarter of the delay and the maximum count disabled |
| CaamCtrl.Trng.constructor | drivers/crypto/caam/ctrl.c:360-363 | the TRNG holds the given register values |
| CaamCtrl.Trng.Kick | drivers/crypto/caam/ctrl.c:354-397 | the registers after kick_trng are those of the register-level model of kick_trng |
| CaamCtrl.KickRegs | drivers/crypto/caam/ctrl.c:354-397 | reference definition of kick_trng on register values, with no contract of its own; KickNeverLowers states it and Trng.Kick is proved against it |
| CaamCtrl.Trng.SetRtmctl | drivers/crypto/caam/ctrl.c:366-396 | clrsetbits_32 on RTMCTL clears then sets the given bits and changes nothing else |
| CaamCtrl.PrependKicks | drivers/crypto/caam/ctrl.c:750-784 | reference definition of the kicks made before further attempts, with no contract of its own; Controller.RetryLoop, RetryKickDelays and RetryEndsWithoutHandles state what it builds |
| CaamCtrl.KickPlan | drivers/crypto/caam/ctrl.c:751-768 | reference definition of which attempts kick the TRNG, with no contract of its own; NoKickWithHandles, RetryKickDelays and RetryEndsWithoutHandles state its effect |
| CaamCtrl.AttemptRets | drivers/crypto/caam/ctrl.c:776-777 | reference definition of what each attempt's instantiate_rng returns, with no contract of its own; Controller.TryOnce states that one attempt returns it, and RetryEndsWithoutHandles uses it |
| CaamCtrl.RetryStops | drivers/crypto/caam/ctrl.c:784 | the loop ends only on a result other than -EAGAIN or with the delay at or above RTSDCTL_ENT_DLY_MAX |
| CaamCtrl.RetryKickDelays | drivers/crypto/caam/ctrl.c:762-768 | the delays passed to kick_trng are the current delay, then 400 more each time, the final delay is 400 above the start per kick, and attempts that do not kick leave it alone |
| CaamCtrl.NoKickWithHandles | drivers/crypto/caam/ctrl.c:762-768 | with a handle instantiated at probe time kick_trng is never called and the delay stays at RTSDCTL_ENT_DLY_MIN |
| CaamCtrl.RetryEndsWhenKicking | drivers/crypto/caam/ctrl.c:762-784 | while every attempt kicks, the loop ends once enough attempts have raised the delay to the maximum |
| CaamCtrl.RetryEndsWithoutHandles | drivers/crypto/caam/ctrl.c:750-784 | with no handle ever instantiated the loop ends within 24 attempts |
| CaamCtrl.RetrySpinsWithoutKicks | drivers/crypto/caam/ctrl.c:750-784 | without kicks and with -EAGAIN on every attempt the loop never ends and the delay does not move |
| CaamCtrl.RetryDoesNotEndWithHandles | drivers/crypto/caam/ctrl.c:750-784 | a handle instantiated at probe time and instantiate_rng returning -EAGAIN keep the loop running at the minimum delay whatever the number of attempts |
| CaamCtrl.OwnedHandlesComplement | drivers/crypto/caam/ctrl.c:793 | the handles found at probe time and those the driver records as its own are disjoint and together make up RDSTA_IFMASK |
| CaamCtrl.RetryAdvance | drivers/crypto/caam/ctrl.c:750-784 | one attempt either hands on to the next with the kick and delay it made, or ends the loop with its own result |
| CaamCtrl.RetryFrom | drivers/crypto/caam/ctrl.c:750-784 | reference definition of the do-while loop of caam_probe from one attempt on, with no contract of its own; RetryStops, RetryKickDelays, RetryEndsWhenKicking, RetrySpinsWithoutKicks and RetryAdvance state it |
| CaamCtrl.Retry | drivers/crypto/caam/ctrl.c:745-784 | reference definition of the loop from the minimum entropy delay, with no contract of its own; NoKickWithHandles, RetryEndsWithoutHandles, RetryDoesNotEndWithHandles and Controller.RetryLoop state it |
| CaamCtrl.Controller.constructor | drivers/crypto/caam/ctrl.c:476-478 | a fresh controller over the given TRNG, with no state handles recorded |
| CaamCtrl.Controller.InstantiateAll | drivers/crypto/caam/ctrl.c:745-793 | gen_sk is set exactly when RDSTA.SKVN is clear; the loop ends as the retry model does; rng4_sh_init is the complement of the handles found at probe time within RDSTA_IFMASK after success, and those handles otherwise; the TRNG registers have seen each kick in order |
| CaamCtrl.Controller.RetryLoop | drivers/crypto/caam/ctrl.c:750-784 | the do-while loop ends as the retry model does, with the TRNG registers after exactly the kicks the model lists |
| CaamCtrl.Controller.TryOnce | drivers/crypto/caam/ctrl.c:751-777 | one pass of the loop body: kick_trng at the current delay exactly when neither the probe-time nor the current handles are set, then instantiate_rng on the current handles, with the loop state moving on as the retry model does |
| Aer.NextIndex | drivers/pci/pcie/aer/aerdrv.c:195-197 | the producer index after `i` is `i + 1` modulo AER_ERROR_SOURCES_MAX, wrapping to 0 |
| Aer.Count | drivers/pci/pcie/aer/aerdrv.c:195-208 | the number of pending entries is below the ring size and takes the consumer index to the producer index |
| Aer.RingSeq | drivers/pci/pcie/aer/aerdrv.c:206-208 | the pending entries, oldest first, are the ring slots from the consumer index on, modulo the ring size |
| Aer.RingSeqOutside | drivers/pci/pcie/aer/aerdrv.c:206-207 | writing a slot outside the pending entries leaves them as they were |
| Aer.RingPush | drivers/pci/pcie/aer/aerdrv.c:195-208 | storing at the producer index of a ring that is not full appends that entry to the pending ones and counts one more |
| Aer.AerRpc.Pending | drivers/pci/pcie/aer/aerdrv.c:167-215 | fewer than AER_ERROR_SOURCES_MAX sources are ever pending |
| Aer.AerRpc.constructor | drivers/pci/pcie/aer/aerdrv.c:224-243 | the zeroed aer_rpc has both indices at 0, no pending source, no status written and no work scheduled |
| Aer.AerRpc.Irq | drivers/pci/pcie/aer/aerdrv.c:167-215 | without UNCOR_RCV or COR_RCV the result is IRQ_NONE and nothing changes; otherwise the status is written back and IRQ_HANDLED returned; a full ring (next producer index equal to the consumer index) drops the error with the ring and indices unchanged; else the source is stored at the producer index, appended to the pending sources, the producer index advances and the work is scheduled |
| Aer.ResumeStatus | drivers/pci/pcie/aer/aerdrv.c:354-357 | the uncorrectable status written back has no bit of the severity mask and, with the masked bits, makes up the status read |
| Aer.ResumeStatusUnique | drivers/pci/pcie/aer/aerdrv.c:356 | those two properties leave one value: exactly the severity-mask bits of the status are cleared |
| Aer.SetDeviceErrorReporting | drivers/pci/pcie/aer/aerdrv.c:54-72 | error reporting is switched exactly on root, upstream and downstream ports, to the requested setting; ECRC checking is turned on exactly when enabling |
| Aer.EndpointsUntouched | drivers/pci/pcie/aer/aerdrv.c:59-66 | devices of any other port type keep their error-reporting setting |

## Left out

- Locking is left out throughout: spinlocks, semaphores and mutexes. Every modelled operation runs as one atomic step, as it does under the lock it takes.
- Register reads and writes, DMA and memory allocation are not modelled as such. A read, or an allocator's success, is an input; a write is either left out or recorded in a ghost log, as each item below says.
- Vsp1Dl: the headers are kept in a manager-side sequence with one entry per list, not as bytes inside each list's DMA memory. The header offset and the byte layout are stated as constants but not as memory contents.
- Vsp1Dl: DMA addresses are unbounded naturals; their truncation to the 32-bit header fields is not modelled.
- Vsp1Dl.Manager.Create: the manager's own allocation is the input `dlmOk`. It does not state that the lists' entry arrays are newly allocated. Its invariant still gives each list a primary buffer of its own.
- Vsp1Dl: `vsp1_dl_list_hw_enqueue` keeps only which list was programmed, in a ghost log. The register values it writes are not modelled.
- Vsp1Dl: `vsp1_dlm_setup`, `vsp1_dlm_destroy`, `vsp1_dl_list_free`, `vsp1_dl_fragment_alloc` and `vsp1_dl_fragment_free` are not modelled. Freeing a fragment is recorded in the ghost log as each fragment leaves the garbage-collection queue.
- Vsp1Dl: the garbage-collection work runs when the model calls FragmentsFree. Scheduling it only sets a ghost flag.
- Vsp1Dl: the WARN_ON of the continuous commit sets a ghost flag.
- Vsp1Dl: list capacity and header capacity are preconditions. The driver checks neither the 256-entry capacity of a primary body nor the seven fragment descriptors of a header.
- Vsp1Dl: a list chained to another must not head a chain of its own. The chain node of the chained list becomes its link in the head's chain, so the driver cannot represent such a list.
- Sun4iDma: register writes, the media pipeline and the sub-device calls are not modelled. The result of `s_stream` is an input.
- Sun4iDma.Csi.constructor: takes the plane sizes of the current format as its input `planeSizes`, which `sizeimage` keeps. The driver sets `p_fmt` only in S_FMT (sun4i_v4l2.c:171); registration tries the default format without recording its table entry (sun4i_v4l2.c:268-272). So queue_setup, buffer_prepare, fill_slot and start_streaming dereference a NULL `p_fmt` when they run before the first S_FMT (sun4i_dma.c:56, 69, 110, 232). The model stands for the state after an S_FMT, with `sizeimage` in place of `p_fmt->num_planes` and the plane sizes of `v_fmt`; the calls before it are not modelled.
- Sun4iDma.Csi.StartStreaming: follows sun4i_dma.c as written, so an s_stream failure leaves the capture running. The corrected StartCaptureFixed is proved on its own and is not used by it.
- Sun4iDma: the failure paths of `csi_dma_register` that come from vb2 and the IRQ request are not modelled; only the initial state it sets up is.
- Sun4iDma: videobuf2's own bookkeeping is left out. The buffers handed back are recorded in a ghost log.
- Sun4iV4l2: `querycap`, `open` and `release` are not modelled, because they only fill strings or delegate to the V4L2 core.
- Sun4iV4l2: try_fmt's derived transfer function, YCbCr encoding and quantization are not modelled; they are macros of videodev2.h. The memsets of its reserved fields are not modelled either.
- LovPool: reallocation is an input saying whether it succeeds. The semaphore the callers hold is left out.
- PerfMap: the red-black tree is its in-order sequence of maps, and its descents are searches over that sequence.
- PerfMap: map reference counts, `verbose` output and `fprintf` are not modelled.
- PerfMap.Maps.Fixup: follows map.c as written, so the upper pieces it inserts keep the old file offset. The corrected step SplitFixed is proved on its own and is not used by the walk.
- PerfMap.Maps.Fixup: requires a non-empty new map. maps__fixup_overlappings has no such guard, but for an empty map the overlap test depends on the order of its arguments (EmptyMapsBreakSymmetry), and the walk's properties are stated only for non-empty maps.
- PerfMap: `map__map_ip` of map.h appears only as the reference translation `ip - start + pgoff`. It is used to state what the pieces of a split map must keep. `unmap_ip` is an input of the objdump conversions. map.h is not part of this model.
- Vvp: the object lookup and the page-cache lookups of `vvp_pgcache_find` are oracles of Find, Start and Next. The hash chains behind the object lookup are modelled (ChainObject, ObjAsWritten) only in the lemmas about dying objects; the references taken and dropped on objects are not modelled.
- Vvp.FindFromComplete: assumes ChainsEnd of the object lookup. The lookup as written breaks that assumption when an object is dying, and the walk then skips the rest of the bucket; this is the Findings row for vvp_dev.c:417-460.
- LibcfsModule: the copies from and to user memory, the allocation of the ioctl buffer and the handlers themselves are inputs.
- LibcfsModule: the debugfs read and write wrappers are modelled only through the position bookkeeping of `lprocfs_call_handler`. The text they copy is not modelled.
- Tsl2x7x: I2C transfers are inputs, either a result code or the value read. The event and interrupt configuration is not modelled.
- Tsl2x7x: the sysfs stores for the calibration target and the calibrate trigger are not modelled. The calibrations they start are.
- Tsl2x7x.GetProx: takes the family's valid-bit check folded into its input. It receives either the value read or the error of the read.
- Tsl2x7x.Chip.constructor: is the state of probe after the built-in defaults are loaded. `tsl2x7x_defaults` instead takes the platform settings and lux table when platform data supplies them; that path is not modelled. The `chip_on` that probe then calls is the separate ChipOn.
- Tsl2x7x.RowLux: the coefficients are unsigned int (tsl2x7x.c:830-832 prints them with `%u`), so each equation is computed modulo 2^32 and a negative difference wraps to a large value, as NegativeRowWraps shows. The int product of the quotient with the trim, which overflows in C for such a wrapped row with a large trim, is computed in mathematical integers and then counts as an overflow.
- LuObject.Context.KeysFill: performs one pass of `keys_fill`. The loop that repeats the pass when `key_set_version` changes during it needs a concurrent writer, so it is left out.
- LuObject: key values are not modelled, so `key_fini` does not release them. Module reference counts, `lu_context_remembered` (the list of remembered contexts) and the wait loop of `lu_context_key_degister` are left out; the wait loop needs concurrent users. A key's use count is kept only as set by registration.
- LuObject.CacheTunables.HtableOrder: computes `1 << bits` on unbounded integers. C's `int` shift overflows once the cache size passes 2^30 kilobytes, a case the model does not reproduce, and the 32-bit lowmem branch (`BITS_PER_LONG == 32`) is not modelled. PAGE_SIZE is 4096.
- CaamCtrl: the constants of regs.h are named constants, since regs.h is not part of this model.
- CaamCtrl: the DECO runs, register reads and descriptor buffer allocation are inputs. A descriptor is modelled by its kind and handle, not by its words.
- CaamCtrl: `caam_get_era` and its device-tree fallback are not modelled; only `caam_get_era_from_hw` is.
- CaamCtrl: the job-ring start after the virtualisation decision, `caam_remove`, and the probe-time state-handle record it uses are not modelled.
- CaamCtrl: the SCFGR_RDBENABLE write, `cpu_relax` and `dev_info` are not modelled.
- CaamCtrl.DeinstantiateRng: follows ctrl.c as written, so an error status stops the loop with 0. The corrected pass DeinstantiateStepsFixed is proved on its own and is not used by the method.
- CaamCtrl.Controller.RetryLoop: runs over a finite list of the hardware's answers, one per attempt. When the answers run out while the driver would still be retrying, the result says so instead of looping.
- Aer: the consumer side, `aer_isr` and its work handler, is not modelled beyond the pending entries it would read. The spinlock is left out.

## Findings

| source | as written | input that shows it | evidently intended | confidence | as-written member | corrected member |
|---|---|---|---|---|---|---|
| drivers/staging/iio/light/tsl2x7x.c:1114-1120 | read_raw's CALIBSCALE tests `chan->type == IIO_LIGHT`, but CALIBSCALE is an attribute of the IIO_INTENSITY and IIO_PROXIMITY channels only, so an intensity read returns the proximity gain | write 120 to the intensity channel's CALIBSCALE (als_gain becomes 3), then read it: the read gives 1 | test IIO_INTENSITY, as write_raw does, so the ALS gain written reads back | not executed | Tsl2x7x.CalibscaleAsWrittenLosesAlsGain | Tsl2x7x.CalibscaleRoundTrip |
| tools/perf/util/map.c:701-714 | the piece of an overlapped map above the new map gets `start = map->end` but keeps the old `pgoff`, so its addresses translate to file offsets shifted by the length cut off | a map over [0x1000, 0x3000) with pgoff 0 split by a new map over [0x1000, 0x2000): address 0x2000 maps to offset 0 instead of 0x1000 | advance `pgoff` by the distance the start moved, so every address keeps its translation | not executed | PerfMap.AfterAsWrittenShifts | PerfMap.SplitFixedCovers |
| drivers/staging/iio/light/tsl2x7x.c:560-568 | als_calibrate divides by `lux_val` after checking only that it is not negative, and get_lux can return a lux of 0 | the first valid reading after probe with ch0 = 0: get_lux returns the stored lux, 0 since probe, which reaches the division | refuse a zero reading before dividing (-ERANGE, the error the calibration already uses) | not executed | Tsl2x7x.ZeroLuxReachesDivision | Tsl2x7x.Chip.AlsCalibrate |
| drivers/crypto/caam/ctrl.c:252-302 | deinstantiate_rng breaks out of its loop when a descriptor ends with an error status, but returns `ret`, which holds only the result of run_descriptor_deco0, so the failure is reported as 0 | both state handles set in the mask, and DECO 0 runs the descriptor of handle 0 with return 0 and status 1: the loop stops with 0, and neither handle has been deinstantiated | return -EAGAIN for an error status, as the header comment at lines 259-262 says and instantiate_rng does | not executed | CaamCtrl.DeinstantiateStatusErrorReturnsZero | CaamCtrl.DeinstantiateFixedZeroIff |
| drivers/staging/lustre/lustre/llite/vvp_dev.c:417-460 | vvp_pgcache_obj_get tests `vpi_curdep-- > 0` before it checks for a dying object, so at the object at the depth the unsigned counter wraps to UINT_MAX; a dying object there returns no object, and vvp_pgcache_obj takes the counter above 0 for a chain shorter than the depth and moves to depth 15 | one hash chain whose first object is dying and whose second is live with a page at index 0: the dump from position 0 goes on with the next bucket and never shows that page | pass over a dying object like an object of another device, and end the bucket only when the chain is shorter than the depth | not executed | Vvp.DyingObjectHidesPage | Vvp.FixedWalkComplete |
| drivers/media/platform/sunxi/sun4i-csi/sun4i_dma.c:259-272 | csi_start_streaming starts the capture before calling s_stream, and the error path taken on an s_stream failure stops the pipeline and hands every buffer back without csi_capture_stop | both slots empty, two buffers queued and s_stream failing with -EIO: start_streaming returns -EIO with both buffers handed back, while the capture keeps running with their DMA addresses in the slot registers | stop the capture before handing the buffers back | not executed | Sun4iDma.Csi.StartCapture | Sun4iDma.Csi.StartCaptureFixed |
