# A model of the carl9170 firmware and its configuration language

The repository holds the firmware of the AR9170 wireless device and, to configure its
build, the Kconfig language of the Linux kernel. This project models the two parts whose
correctness no single function shows, and proves what they are for; and the smaller library
that the firmware tools use to store and load images.

**The descriptor queues and the transmit path** (`carlfw/`). A queue is a chain of
descriptors that ends in an empty one, the terminator. `dma_put` and `dma_reclaim` copy a
descriptor into the old terminator and make the emptied descriptor the new one, so a packet
changes descriptor whenever it is queued, and the hardware writes to the same memory.
- `Dma`: the three queue operations on an array of descriptors.
- `Pools`, `PoolView`: all queues together; every descriptor has one place, every data block one home;
  `SplitPool`: packets that are taken apart in their queue.
- `DmaHeap`: the memory as an object, its initialisation, what the hardware does to it, and
  the two loops that bring the down queue back into order.
- `TxSpec`: the handlers as functions on an abstract state, in which a queue is a sequence of frames.
- `BlockCount`: how many buffers refer to each data block.
- `TxRuns`, `TxSafety`: these functions and the steps of the hardware and the host as a state
  machine, and the invariant of all its runs.
- `TxPass`, `HostPass`: the loops of the handlers, and what they do to the order of the frames.
- `TxOutcome`, `HostLaws`: what the handlers do to a frame or packet, told by its bits, counters,
  lengths and ownership alone.
- `StatusRing`: the ring of tx statuses.
- `FirmwareView`, `Firmware`: the handlers as methods on descriptor memory. Each changes the
  abstract state exactly as its function says, so that what is proved about the functions
  holds for the memory.

**The Kconfig engine** (`config/`).
- `Expr`, `ExprEliminate`, `ExprDups`, `ExprTransform`: three-valued expressions and their
  rewriting, as functions; `ExprRewriter`: the passes as they are written, with `trans_count`.
- `ExprLaws`, `ValueLaws`: the passes find what they look for, and what values and comparisons mean;
  `Numerals`: written numbers.
- `Graphs`, `Symbols`, `DepCheck`: the recursion check.
- `SymbolSpec`, `SymbolSolve`, `SymbolEval`, `ConfRead`: the equations behind the values of
  symbols, their unique solution, and the memoising evaluator that finds it; `SymbolLaws`: what the
  solution gives to a symbol, by its user value, defaults, imply and select.
- `ConfData`, `ConfFile`, `ConfLaws`: quoting, the lines of `.config`, and reading back what was written.
- `MenuTree`: what finalizing does to a tree of menu entries, as functions; `MenuFinalize`: the same
  done in place on linked entries; `MenuWalk`: the traversal of linked entries; `MenuLaws`, `SubmenuLaws`:
  which entries move below which.
- `Macros`: macro expansion; `MacroLaws`: what a reference stands for.

**Firmware images** (`tools/lib/carlfw.c`).
- `Checksum`, `ChecksumLaws`: the CRC, which one it is, and what it detects.
- `FwImage`: the format of an image file, and storing and loading as functions; `FwRoundTrip`: what
  comes back; `Carlfw`: the library's object, with its list of descriptors, counters and loops.

## What is false of the code

Some properties that the code or its comments suggest do not hold. The model follows the
code; lemmas give the input and the exact condition.

- `(a='b') && (a!='c') -> (a='b')` (config/expr.c:422-436) takes distinct constants for unequal.
  `a="2" && a!=y` becomes `a="2"`, although `2` compares equal to `y`
  (`ExprDups.JoinEqNeCounterexample`); `ExprDups.JoinEqNeExact` tells for which constants the rule is right.
- The comment of `expr_eq` (config/expr.c:201-206) asks only that every operand equals some operand of the other
  expression. The code also counts them (`ExprLaws.ChainEqExact`): `A || A || B` and `A || B` are not equal for it
  (`ExprLaws.RepeatedOperand`).
- The comment at config/expr.c:451-453 says that `(a!='m') && (a!='n')` becomes `a='m'`; the code makes `a='y'`,
  which is right, while `a='m'` would be right for `a` = n only (`ExprDups.NeRuleComment`).
- `expr_trans_compare` is wrong below a NOT whose operand is m (`ExprTransform.TransCompareNot`), and for a
  symbol that is not bool or tristate when the symbol's text does not read as n, or reads as y where it is
  compared with y (`ExprTransform.TransCompareLeaf`). For a symbol without a type the name decides: `FOO != n`
  and `5 != n` are wrong, `0 != n` is right (`ExprTransform.TransCompareUndefined`); an int symbol with the
  value 7 is wrong as well (`ExprTransform.TransCompareTyped`).
- `expr_depends_symbol` calls `s=y`, `s=m` and `s!=n` dependencies that cannot be met while `s` is n. That is
  right exactly for bool and tristate symbols and for symbols without a type whose name makes the comparison
  fail (`ExprTransform.DependsSymbolExact`).
- `expr_transform` builds NOT from `e->left.expr` where the operand is a symbol (config/expr.c:649), so that
  `A!=y` of a bool symbol gives a malformed node (`ExprTransform.WrittenTransformFails`). This happens exactly for
  expressions that contain such a comparison (`ExprTransform.WrittenTransformExact`). For all others the code
  does what `Transform` does (`ExprTransform.WrittenTransformSound`); `Transform` itself follows the rule in the
  comment, `A!=y -> !A` (config/expr.c:573), and so do `TransformSound`, `TransformNormal` and
  `TransformIdempotent`. The submenu test brings in no such comparison (`ExprTransform.SimplifiedWritten`).
- An int or hex symbol whose value is not a number is written to `.config` in a way that is
  rejected when it is read (`ConfFile.LineRoundTrip`). Such a value arises from a default that
  names a symbol without a type (`ConfFile.DefaultIsNoNumber`).
- `wlan_tx` uses `vif_id`, which has three bits, to index the cab queues and their counters. A frame with the
  number of an interface that does not exist (`HostPass.StrayFrame`) has no queue; a frame has one exactly
  when it is not for a cab queue or its interface exists (`HostPass.EntryQueueIff`). The handlers are
  modelled for frames that have one.
- A report about a download that was too short is made from an unchecked superframe. It tells `rix` and `cnt`
  exactly when they fit into its two and three bits (`TxSpec.StatusCut`); `TxSpec.ShortReport` is a superframe
  for which it does not. For accepted frames they always fit (`TxSafety.ReportTellsAttempts`).
- The first loop of `handle_download_exception` ends exactly when the down queue is empty, or has an entry that
  the hardware does not own, or contains the hardware's current descriptor, also as its terminator
  (`DmaHeap.RotationEndsIff`); `DmaHeap.RotatesForever` is a queue for which it does not.
- The backward scan of `__carlfw_find_desc` does not look again at a byte that breaks a match. An OTUS
  descriptor of 82 bytes, whose length starts with the code of R, is therefore not found when its
  image is loaded (`FwRoundTrip.Length82`); `FwRoundTrip.RoundTripExact` gives the images that come back.
- `carlfw_store` replaces the first checksum descriptor only. If there is a second one, an image that would
  come back otherwise does so exactly when the sums in that one are right (`FwRoundTrip.RoundTripExact`,
  `FwRoundTrip.TwoChks`).

## Model

| member | source | states |
|---|---|---|
| Dma.DmaUnlinkHead | carlfw/src/dma.c:236-252 | exactly the first packet is taken out, with its buffers as they were and closed at its end; the rest of the queue and all other descriptors stay, and an empty queue gives NULL |
| Dma.DmaPut | carlfw/src/dma.c:191-234 | one packet is appended, with the same buffers in the same order for the hardware; the emptied first descriptor is the new terminator and no other descriptor is written |
| Dma.ClaimPacket | carlfw/src/dma.c:198-212 | every descriptor of the packet, and no other, gets the total length and the last descriptor of the first one and belongs to the hardware |
| Dma.DmaReclaim | carlfw/src/dma.c:140-184 | a packet of k descriptors is appended as k free single entries with the same data blocks in the same order |
| Dma.FreePacket | carlfw/src/dma.c:149-164 | every descriptor of the packet becomes free, stands alone and leads to the next one, the last one to the first |
| Dma.QueueHead | carlfw/include/dma.h:284-287 | a queue that is built up from its end can be taken apart from its head |
| Dma.EmptyIsEmpty | carlfw/include/dma.h:227-230 | head equals terminator exactly when there is no packet in the queue |
| Dma.SinglesAppend | carlfw/src/dma.c:166-183 | a chain of single descriptors that starts at the old terminator continues the queue |
| Pools.UnlinkPool | carlfw/src/dma.c:236-252 | taking a packet out keeps every descriptor in one place and every block at one descriptor, and leaves the other queues alone |
| Pools.PutPool | carlfw/src/dma.c:191-234 | so does dma_put, although the packet changes its first descriptor |
| Pools.ReclaimPool | carlfw/src/dma.c:140-184 | so does dma_reclaim |
| Pools.UnlinkContents | carlfw/src/dma.c:236-252 | seen as a sequence of packets, the queue loses its first element |
| Pools.PutContents | carlfw/src/dma.c:191-234 | seen as a sequence of packets, the queue gains one element at its end |
| Pools.ReclaimContents | carlfw/src/dma.c:140-184 | seen as a sequence of packets, the queue gains one free entry for every buffer |
| PoolView.BlocksApart | carlfw/include/wl.h:212-220 | packets in different places never share a data block |
| PoolView.HandApart | carlfw/include/wl.h:212-220 | a packet that is being handled shares no data block with a packet in a queue |
| PoolView.JoinQueue | carlfw/include/dma.h:232-235 | entries that the hardware makes one packet still form a queue of the same descriptors |
| DmaHeap.Heap.constructor | carlfw/src/dma.c:72-132 | afterwards all queues are empty but down and rx, which hold their shares of the blocks in order as free entries, and the two spare descriptors are set aside |
| DmaHeap.Heap.Unlink | carlfw/src/dma.c:236-252 | the first packet of the queue is in hand, the others are as they were, and descriptors set aside are untouched |
| DmaHeap.Heap.Put | carlfw/src/dma.c:191-234 | the packet in hand is the last one of the queue, the others are as they were |
| DmaHeap.Heap.Reclaim | carlfw/src/dma.c:140-184 | the buffers in hand are free entries at the end of the queue, the others are as they were |
| DmaHeap.Heap.DequeueNot | carlfw/include/dma.h:247-257 | a packet is taken out exactly when the head is not owned as given; an empty queue gives NULL |
| DmaHeap.Heap.HardwareGroup | carlfw/include/dma.h:232-235 | free entries that the hardware fills become one packet with the same buffers in the same order |
| DmaHeap.Heap.RotateTo | carlfw/src/hostif.c:124-133 | whenever the loop ends, it ends after at most as many rounds as there are entries; the buffers are rotated, and the head is the hardware's descriptor or not free |
| DmaHeap.RotatedStep | carlfw/src/hostif.c:128-133 | a round goes on only past a free entry that is not the one looked for, and moves its buffer to the end |
| DmaHeap.RoundKeepsDescriptors | carlfw/src/hostif.c:128-133 | a round keeps the set of descriptors of the queue and its terminator |
| DmaHeap.RotationEndsIff | carlfw/src/hostif.c:124-133 | the loop ends exactly when the queue is empty, has an entry that is not free, or has the descriptor looked for or has it as its terminator |
| DmaHeap.RotatesForever | carlfw/src/hostif.c:124-133 | with one free entry and a current descriptor elsewhere, the loop makes more than any number of rounds |
| SplitPool.SplitQueue | carlfw/include/dma.h:320-327 | a packet whose later descriptors stand alone can be taken apart into single entries where it is in its queue |
| DmaHeap.Heap.FixEntry | carlfw/include/dma.h:320-327 | the first buffer of the packet is freed and its other buffers are entries of their own; no other packet changes |
| DmaHeap.Heap.FixDown | carlfw/src/hostif.c:135-138 | the loop, which goes through the entries that it makes, ends and computes its specification |
| TxSpec.UnhideHide | carlfw/include/wl.h:222-237 | unhide_super undoes hide_super, with the lengths modulo 2^16 |
| TxSpec.ConsumeKeepsRetryOk | carlfw/src/wlantx.c:168-198 | a frame's attempts are always those of the rates used up and the tries of the current one |
| TxSpec.AttemptsBounded | carlfw/src/wlantx.c:168-198 | a frame is never sent more often than the sum of max(1, tries) over its rates; rix is at most 3 and cnt at most 7 |
| TxSpec.GivenUpWhenUsed | carlfw/src/wlantx.c:170-179 | a frame is given up only after all tries of its rate when there is no further rate |
| TxSpec.StatusCut | carlfw/src/wlantx.c:158-165 | a report tells rix and cnt exactly when they are below 4 and 8 |
| TxSpec.ShortReport | carlfw/src/hostif.c:66-82 | a download that is too short, and whose report tells neither |
| TxRuns.HostStartBooks | carlfw/src/wlantx.c:485-507 | taking a frame from the host keeps the counters equal to the frames in flight |
| TxRuns.HostEndBooks | carlfw/src/wlantx.c:441-451 | so does the end of a frame of the host, which is reported once |
| TxRuns.OwnEndBooks | carlfw/src/wlantx.c:431-439 | so does the end of the firmware's own frame, which is not reported |
| TxRuns.OneOfTotal | carlfw/src/wlantx.c:414-451 | no frame counts for more than all frames in flight together |
| TxSafety.InitialInv | carlfw/src/dma.c:72-132 | the initial state satisfies the invariant |
| TxSafety.StatusInv | carlfw/src/wlantx.c:322-459 | wlan_tx_status keeps the invariant: counters, queue fields, hidden superdescriptors, reports |
| TxSafety.StepInv | carlfw/src/wlantx.c:322-526 | every step of a handler, of the hardware or of the host keeps the invariant, and with it every data block in exactly one place |
| TxSafety.RunInv | carlfw/src/wlantx.c:322-526 | the invariant holds after every sequence of steps in any order |
| TxSafety.StepBlocks | carlfw/src/dma.c:140-252 | no step loses a data block or puts it into two places; the response buffer and the buffer of the firmware's own frame are in a queue exactly while they are not available |
| TxSafety.EveryBlockOnce | carlfw/src/dma.c:72-132 | in every state that can be reached, each data block that was handed out at the start is referred to by exactly one buffer in the queues |
| BlockCount.StatusCount | carlfw/src/wlantx.c:346-459 | wlan_tx_status changes the references to blocks only by taking out the firmware's own frame |
| BlockCount.GroupCount | carlfw/include/dma.h:232-235 | entries that become one packet refer to the same blocks |
| BlockCount.FixCount | carlfw/include/dma.h:320-327 | a packet that is taken apart refers to the same blocks |
| FirmwareView.CountedHome | carlfw/include/wl.h:212-220 | a block that is counted in the abstract queues is held by one descriptor, which is in a queue, and by no other |
| TxSafety.ReportedExactlyOnce | carlfw/src/wlantx.c:143-166 | in every reachable state an accepted frame is either in flight and not reported, or not in flight and reported exactly once; other numbers never occur |
| TxSafety.ReportTellsAttempts | carlfw/src/wlantx.c:158-166 | rix and tries of a report tell how often the frame was sent, within its rate budget and the bits of the status |
| TxSafety.OutcomeOk | carlfw/src/wlantx.c:346-425 | a frame that is to be sent again stays in the queue that it names; a failure is reported only when all attempts were made (which frame is reported how is TxOutcome.OutcomeIs) |
| TxSafety.CompletedIff | carlfw/src/wlantx.c:466-472 | in a reachable state the status loop can handle the head of a queue exactly when there is one that the hardware gave back |
| TxSafety.OwnFrameIff | carlfw/src/wlantx.c:431 | the address of its buffer tells the firmware's own frame from those of the host |
| TxSafety.ReportsStay | carlfw/src/wlantx.c:143-166 | reports are never changed or taken back |
| TxPass.PassShape | carlfw/src/wlantx.c:466-472 | the status loop takes out a prefix of the queue and stops only for a reason; the frames to be sent again are those of the prefix that failed for want of a BlockAck, in order |
| TxPass.QueuePassEffect | carlfw/src/wlantx.c:466-478 | a pass over one queue changes no other queue of the air side, leaves the retry queue empty and reports the finished frames in order |
| TxPass.CompletionPassEffect | carlfw/src/wlantx.c:461-483 | the handler passes over every tx queue once and terminates |
| TxPass.CompletionOrder | carlfw/src/wlantx.c:461-483 | after the handler a queue holds the unprocessed suffix, its first frame possibly rearmed, and then the BlockAck-failed frames in original order |
| TxPass.CabFlushEffect | carlfw/src/wlantx.c:585-615 | the cab queue is emptied into the tx queues that its frames name, in order, and all frames but the last announce more data |
| HostPass.RotationsInv | carlfw/src/hostif.c:128-133 | n rounds of the rotation keep the invariant |
| HostPass.FixAllInv | carlfw/src/hostif.c:135-138 | the rounds of the second loop are steps that keep the invariant |
| HostPass.FixedDownIs | carlfw/src/hostif.c:135-138 | the second loop takes exactly the packets apart that only software owns, frees those of their buffers that only software owns, and keeps everything else, in order |
| HostPass.NoneLeft | carlfw/src/hostif.c:135-138 | afterwards no entry is left that only software owns |
| HostPass.EntryQueueIff | carlfw/src/wlantx.c:495-505 | a frame has a queue exactly when it is not for a cab queue or its interface exists |
| HostPass.StrayFrame | carlfw/src/wlantx.c:495-505 | a superframe within its bit fields that has none |
| HostPass.DownloadNext | carlfw/src/hostif.c:66-82 | each round of handle_download finishes one packet and keeps the invariant |
| StatusRing.Ring.Add | carlfw/src/wlantx.c:128-141 | a status is added behind all others; when the ring is full, the others are sent first |
| StatusRing.Ring.SendBuffered | carlfw/src/wlantx.c:97-126 | all statuses reach the host in order, none lost or repeated, in messages of 1 to 30 |
| StatusRing.WindowSplit | carlfw/src/wlantx.c:101-124 | the part of the ring up to the end of the array, and then the rest, are the statuses in order |
| FirmwareView.SetHeadFrame | carlfw/src/wlantx.c:352-397 | writing to the superframe and the descriptor at the head of a queue changes no other frame |
| TxOutcome.OutcomeIs | carlfw/src/wlantx.c:344-425 | a frame is finished exactly when no fail bit is set or no attempt is left, as a success exactly when none is set; it is resent from the head exactly when TXFAIL is set and an attempt is left |
| TxOutcome.NextTryIs | carlfw/src/wlantx.c:168-198 | an attempt is left exactly when the rate has tries left or a next rate is set; the next one is one more try, or the first of the next rate with its phy and ampdu |
| TxOutcome.StatusLaw | carlfw/src/wlantx.c:322-459 | by fail bits, counters and rates alone: when a frame is reported and how, where it goes when it is sent again, and whether the loop goes on |
| TxOutcome.QueueLaw | carlfw/src/wlantx.c:461-483 | for one queue: the frames handled are those up to the first that cannot be handled or that failed for the last time; what stays, what is sent again and what is reported, in order |
| TxOutcome.CompletionReports | carlfw/src/wlantx.c:461-483 | the handler reports, queue by queue and in order, the handled frames that are not sent again, each as delivered exactly when no fail bit was set |
| HostLaws.ReleaseLaw | carlfw/src/wlantx.c:414-459 | a frame of the host that is done leaves free entries with its data blocks at the end of the down queue and the counters one lower; of the firmware's own frame only the buffer is available again |
| HostLaws.ReceiveLaw | carlfw/src/wlanrx.c:160-173 | the up queue gains exactly the packets of the finished prefix that are not filtered, in order and with their buffers; the rx queue is the rest and a free entry for each buffer of the others |
| HostLaws.UploadLaw | carlfw/src/hostif.c:89-111 | the finished prefix leaves the up queue; the response buffer is available again, all other buffers are free entries at the end of the rx queue |
| HostLaws.DownloadLaw | carlfw/src/hostif.c:35-87 | exactly the finished packets with 24 bytes or more and no less than their superframe says are accepted, numbered and put into their queues before a first attempt; the others are reported as failed and recycled |
| HostLaws.SendFwLaw | carlfw/src/wlantx.c:509-526 | nothing is sent while the firmware's own buffer is in use; otherwise the frame is in its queue before a first attempt |
| HostLaws.RespondLaw | carlfw/usb/main.c:129-178 | the response goes to the end of the up queue exactly while its buffer is available |
| Firmware.Firmware.constructor | carlfw/src/dma.c:72-132 | the memory that dma_init_descriptors sets up represents the initial state |
| Firmware.Firmware.BlocksAtHome | carlfw/src/dma.c:140-252 | on memory, between the steps of the handlers, each data block is held by exactly one descriptor, which is in a queue |
| Firmware.Firmware.HostWrites | carlfw/include/wl.h:212-220 | a superframe that the host writes into a block of the down queue changes no frame in the tx path |
| Firmware.Firmware.WlanTxConsumeRetry | carlfw/src/wlantx.c:168-198 | computes the specification of the next attempt |
| Firmware.Firmware.WlanTxComplete | carlfw/src/wlantx.c:143-166 | exactly one report is added, to the history and to the status ring |
| Firmware.Firmware.WlanTx | carlfw/src/wlantx.c:485-507 | on memory, the packet in hand becomes a numbered first attempt at the end of its cab or tx queue; only its own superframe is written |
| Firmware.Firmware.WlanTxStatus | carlfw/src/wlantx.c:322-459 | on memory: the loop goes on exactly without TXFAIL; a report has success exactly when no fail bit was set; a failed frame with attempts left is not reported but rearmed, at the head or at the end of the retry queue |
| Firmware.Firmware.HandleWlanTxCompletion | carlfw/src/wlantx.c:461-483 | on memory, does what CompletionPass says, which is TxOutcome.QueueLaw for every queue and TxOutcome.CompletionReports for the reports |
| Firmware.Firmware.WlanTxFw | carlfw/src/wlantx.c:509-526 | the firmware's own frame is sent only while the reserved descriptor is available |
| Firmware.Firmware.WlanCabFlushQueue | carlfw/src/wlantx.c:585-615 | on memory, does what CabFlush says |
| Firmware.Firmware.HandleDownload | carlfw/src/hostif.c:55-87 | on memory, for the superframes that the host had written when it began: the finished packets that fit are accepted and queued in order, each of the others is reported as failed and its buffers come back free |
| Firmware.Firmware.HandleUpload | carlfw/src/hostif.c:89-111 | on memory: the finished packets leave the up queue, the response descriptor is set aside, and every other buffer is a free entry at the end of the rx queue |
| Firmware.Firmware.RotateDown | carlfw/src/hostif.c:124-133 | on memory, whenever the first loop ends, it rotates the down queue and keeps the invariant |
| Firmware.Firmware.FixDownqueue | carlfw/src/hostif.c:135-138 | on memory, the second loop does what FixAll says, and keeps the invariant |
| Firmware.Firmware.HandleDownloadException | carlfw/src/hostif.c:113-144 | on memory, whenever the first loop ends, both loops do what RotatedBy and FixAll say, and keep the invariant |
| Firmware.Firmware.HandleWlanRx | carlfw/src/wlanrx.c:160-173 | on memory: the up queue gains exactly the finished packets that are not filtered, in order; behind the rest of the rx queue comes a free entry for each buffer of the filtered ones |
| Firmware.Firmware.UsbStatusIn | carlfw/usb/main.c:129-178 | the response descriptor goes to the up queue only while it is available |
| Firmware.Firmware.HardwareSends | carlfw/include/dma.h:195-201 | a step of the hardware on a tx queue is a step of the abstract state |
| Firmware.Firmware.HardwareFinishes | carlfw/include/dma.h:232-257 | a step of the hardware on the down, rx or up queue is a step of the abstract state |
| ExprEliminate.ElimYnSound | config/expr.c:267-308 | dropping constant operands keeps the value |
| ExprEliminate.ElimLeavesCommonOperand | config/expr.c:101-148 | what the walk removes from both expressions is one common operand, in every assignment |
| ExprEliminate.ElimEqCommonOperands | config/expr.c:179-199 | both passes together remove common operands |
| ExprEliminate.ExprEqSound | config/expr.c:207-254 | expressions that compare equal have equal values in every assignment |
| ExprEliminate.ElimEqSuperset | config/menu.c:433-441 | if the second expression is reduced to y, the first implies it |
| ExprDups.JoinSound | config/expr.c:313-470 | every join rule keeps the value; the rule (a='b') && (a!='c') does if no tristate compares equal to both constants |
| ExprDups.JoinEqNeExact | config/expr.c:422-436 | the rule (a='b') && (a!='c') is right exactly when no tristate compares equal to both constants |
| ExprDups.JoinEqNeCounterexample | config/expr.c:422-436 | an assignment in which it is wrong |
| ExprDups.NeRuleComment | config/expr.c:450-456 | the code joins `(a!='m') && (a!='n')` to `a='y'`, which keeps the value; what the comment says keeps it exactly when a is n |
| ExprDups.DupsWalkSound | config/expr.c:479-524 | the walk over two expressions keeps the value of the whole, unless it uses that rule where it is wrong |
| ExprDups.DupsWalkShrinks | config/expr.c:479-524 | a join between operands without constants costs a leaf |
| ExprDups.RoundDecreases | config/expr.c:537-561 | a round that joined something decreases leaves, size and a constant on the right, in this order, so the loop ends on every input |
| ExprDups.DupsIdempotent | config/expr.c:537-561 | a second call changes nothing |
| ExprDups.DupsSound | config/expr.c:537-561 | the value is kept in every assignment in which bool symbols are never m, unless a join uses that rule where it is wrong |
| ExprDups.DupsPlain | config/expr.c:537-561 | no join does so if tristate symbols are compared only with y, m, n or text that denotes no tristate |
| ExprTransform.TransformNormal | config/expr.c:593-711 | NOT is left over symbols other than y, m and n only |
| ExprTransform.TransformIdempotent | config/expr.c:593-711 | a second call changes nothing |
| ExprTransform.TransformSound | config/expr.c:593-711 | the value is kept in every assignment in which bool symbols are never m |
| ExprTransform.WrittenTransformExact | config/expr.c:593-711 | as it is written, the function builds a malformed node exactly when a bool symbol is compared by `A!=y`, and otherwise gives what Transform gives |
| ExprTransform.WrittenTransformSound | config/expr.c:593-711 | where it does not, the value is kept, NOT is left over symbols only, and a second call changes nothing |
| ExprTransform.WrittenTransformFails | config/expr.c:647-651 | the input for which it does |
| ExprTransform.TransCompareLeaf | config/expr.c:836-837 | a symbol is compared right exactly when it is bool or tristate, or its text reads as n when it is compared with n, and not as y when compared with y |
| ExprTransform.TransCompareExact | config/expr.c:784-846 | the result is y exactly when the comparison holds and n otherwise, if all leaves are compared right and no NOT is applied to m |
| ExprTransform.TransCompareNot | config/expr.c:809-812 | below a NOT that is so exactly when the operand is not m |
| ExprTransform.TransCompareUndefined | config/expr.c:836-837 | for a symbol without a type the name decides: `0` is right, `FOO` and `5` are not |
| ExprTransform.TransCompareTyped | config/expr.c:836-837 | an int symbol with the value 7 is compared wrong with n |
| ExprTransform.DependsSymbolSound | config/expr.c:741-768 | an absolute dependency on a logical symbol cannot be met while the symbol is n |
| ExprTransform.DependsSymbolExact | config/expr.c:751-762 | a comparison that counts as a dependency cannot hold while the symbol is n exactly when the symbol is bool or tristate, or has no type and a name for which the comparison never holds |
| ExprTransform.SubmenuTestSound | config/menu.c:409-441 | an entry is put below a symbol only if it depends on the symbol or on everything that the symbol's prompt depends on |
| ExprTransform.SimplifiedWritten | config/menu.c:409-434 | the expressions that the test compares are those of the code, unless a dependency compares a bool symbol by `A!=y` |
| SubmenuLaws.ContainsLaw | config/expr.c:713-739 | exactly the symbols of an expression are found |
| SubmenuLaws.DependsLaw | config/expr.c:741-768 | a dependency is absolute exactly when an operand of the conjunction is s, s=y, s=m or s!=n |
| SubmenuLaws.SupersetExact | config/menu.c:433-441 | nothing but y is left of a conjunction of basic operands exactly when the other expression has them all, equally often; two single operands are not compared |
| SubmenuLaws.SubmenuExact | config/menu.c:409-446 | when an entry goes below a symbol, in both directions, by the operands of the dependencies |
| SubmenuLaws.SupersetExample | config/menu.c:425-432 | the example of the comment: the entry goes below the symbol, and without the part R it does not |
| MenuLaws.AbsorbLaw | config/menu.c:413-446 | all entries taken depend on the symbol, and the next one does not |
| MenuLaws.FinalizeLaw | config/menu.c:380-494 | an entry with a submenu keeps exactly the entries below it; a symbol without one gets the entries behind it up to the first that does not depend on it; nothing else moves |
| MenuLaws.ChoiceLaw | config/menu.c:384-386 | inside a choice no entry moves |
| MenuLaws.SettledLaw | config/menu.c:384-446 | elsewhere no symbol without a submenu is followed by an entry that depends on it |
| MenuLaws.SubmenuLaw | config/menu.c:384-446 | both, below an entry all of whose descendants have a prompt text |
| MenuTree.FinalizeTree | config/menu.c:380-494 | the entries keep their order in preorder, and afterwards every entry below the root that has children has a prompt text |
| MenuTree.FlattenPrompted | config/menu.c:455-494 | one pass from the front undoes the submenus of all promptless entries of a list, also those that appear in the list during the pass |
| MenuTree.FlattenPreorder | config/menu.c:455-494 | flattening keeps the order of the entries in preorder |
| MenuFinalize.Finalize | config/menu.c:380-494 | on linked entries, does what the function on trees says, with every parent pointer naming the entry whose list holds it; no other entry is written |
| MenuFinalize.FinalizeMenu | config/menu.c:506-509 | on linked entries, for the whole tree: preorder kept, all submenus prompted, all parent pointers right |
| MenuFinalize.AbsorbSiblings | config/menu.c:413-451 | the siblings that depend on the entry become its children, finalized, and the others stay behind it |
| MenuFinalize.FinalizeList | config/menu.c:384-385 | the loop over the children finalizes each, although finalizing one may take siblings out of the list |
| MenuFinalize.SpliceKids | config/menu.c:485-492 | the children of an entry move behind it, with their new parent |
| MenuFinalize.FlattenList | config/menu.c:455-494 | the loop computes the flattened list |
| MenuFinalize.ListRedirect | config/menu.c:447-451 | a list ends where the `next` of its last entry says |
| MenuWalk.EntryLinks | config/menu.c:28-40 | first child, next sibling and parent of an entry are found in preorder behind it, behind all its descendants, and before it |
| MenuWalk.MenuNext | config/menu.c:28-40 | the step from an entry leads to the next one of the preorder, and from the last one to NULL, for the subtree of an entry and, with root NULL, for the whole tree |
| MenuWalk.ForEachSubEntry | config/lkc.h:76-79 | the loop visits the entries below the root, each once, in preorder |
| ExprLaws.BasicEq | config/expr.c:207-254 | a symbol, a comparison or a negated one equals an expression exactly when the two are the same |
| ExprLaws.ElimLeavesComplete | config/expr.c:101-142 | after the walk, operands of the two chains that still compare equal are y or n |
| ExprLaws.ElimLeavesDisjoint | config/expr.c:101-142 | no other symbol, comparison or negated one is an operand of both |
| ExprLaws.ElimLeavesExact | config/expr.c:101-142 | if one chain has basic operands only, both lose what they have in common, as often as both have it |
| ExprLaws.ChainEqExact | config/expr.c:207-254 | two chains of basic operands are equal exactly when they have the same operands equally often |
| ExprLaws.RepeatedOperand | config/expr.c:201-254 | an expression with an operand twice is not equal to the one that has it once |
| ExprLaws.DupsNoRepeats | config/expr.c:537-561 | afterwards no chain, however deep, holds the same symbol, comparison or negated one twice |
| ExprLaws.DupsJoined | config/expr.c:537-561 | at no connective can an operand on the left be joined with one on the right |
| ExprLaws.OrRulesFire | config/expr.c:341-361 | the three rules for or on comparisons of a tristate symbol |
| ExprLaws.AndRulesFire | config/expr.c:422-453 | the rules for and on comparisons of a tristate symbol |
| ExprLaws.SymbolRulesFire | config/expr.c:406-420 | the rules for and on a symbol and a comparison of it |
| ValueLaws.ConnectiveLaw | config/expr.c:891-911 | an and-expression is as strong as both operands, an or-expression as one of them, and NOT turns the order round |
| ValueLaws.TristateCompareLaw | config/expr.c:859-965 | bool and tristate symbols compare as n < m < y in all six comparisons |
| ValueLaws.IntCompareLaw | config/expr.c:859-965 | int symbols compare as the numbers that they are the decimal form of |
| ValueLaws.IntParsed | config/expr.c:859-889 | the decimal form of a number is read as that number, or as text if it does not fit into 64 bits |
| ValueLaws.HexCompareLaw | config/expr.c:859-965 | hex symbols compare as numbers |
| ValueLaws.StringCompareLaw | config/expr.c:925-965 | string symbols compare in the order of a dictionary |
| ExprRewriter.Rewriter.EliminateEq | config/expr.c:179-199 | the rewriting in place computes its specification |
| ExprRewriter.Rewriter.Equal | config/expr.c:207-254 | so does the comparison, which puts the counter back |
| ExprRewriter.Rewriter.EliminateDups | config/expr.c:537-561 | so does the loop that the counter controls, which terminates |
| Graphs.TopologicalNoCycle | config/symbol.c:1284-1313 | no node of a topological order is on a cycle |
| Graphs.BackEdgeCycle | config/symbol.c:1290-1294 | an edge back to a node of the path closes a cycle |
| DepCheck.Checker.CheckDeps | config/symbol.c:1284-1313 | a symbol that is returned is on a cycle; otherwise the symbol and all it reaches are off cycles; stack and marks are as before |
| DepCheck.CoveredAcyclic | config/symbol.c:1191-1236 | checking all entries is checking the whole graph |
| DepCheck.CheckAll | config/symbol.c:1284-1313 | over all symbols, no error is found exactly when the dependency graph is acyclic |
| SymbolSpec.SolutionValid | config/symbol.c:401-526 | in a solution bool symbols are never m |
| SymbolSpec.SolutionBounds | config/symbol.c:437-478 | in a solution every value is at least the value of its reverse dependency |
| SymbolSpec.ComputedLocal | config/symbol.c:401-526 | the value of a symbol depends only on the symbols that the recursion check follows from it |
| SymbolLaws.LogicalLaw | config/symbol.c:437-492 | in every solution a bool or tristate symbol has its user value cut by the prompts, or its default, raised by imply and cut by the dependency; then raised by select, and m becomes y for a two-valued symbol |
| SymbolLaws.LawApplies | config/symbol.c:120-130 | there is exactly one such default and one condition of the prompts |
| SymbolLaws.TextLaw | config/symbol.c:493-509 | an int, hex or string symbol has its user value if a prompt is visible, or the value of the symbol that its first default names, or 0, 0x0 or nothing |
| SymbolLaws.OtherLaw | config/symbol.c:433-436 | constants, undeclared symbols and symbols without a type have their name as value |
| SymbolLaws.WriteLaw | config/symbol.c:432-509 | a symbol is written exactly when a prompt is visible, it is selected or implied, or it has a default that is not n |
| SymbolLaws.WithinRangeExact | config/symbol.c:539-554 | a value can be set exactly when some user value makes the symbol take it and the user has a choice at all |
| SymbolLaws.DepsLaw | config/symbol.c:1191-1236 | the recursion check follows exactly the symbols in the dependencies and in properties other than select and imply |
| SymbolSolve.SolutionExists | config/symbol.c:401-526 | without cycles the equations have a solution |
| SymbolSolve.SolutionUnique | config/symbol.c:401-526 | and no other |
| SymbolSolve.SetThenGet | config/symbol.c:556-573 | a user value that is accepted is the value that the symbol gets |
| SymbolSolve.SetSameValue | config/symbol.c:563-570 | when the symbol had that value, no symbol changes, so nothing needs to be computed again |
| SymbolEval.Evaluator.CalcExpr | config/expr.c:967-978 | a cached or new value is the value in the solution |
| SymbolEval.Evaluator.CalcSymbol | config/symbol.c:401-526 | whatever was computed before, the symbol gets its value in the solution |
| SymbolEval.Evaluator.CalcAll | config/symbol.c:401-526 | all symbols get their values, in whatever order they are computed |
| SymbolEval.Evaluator.SetTristateValue | config/symbol.c:556-573 | setting a value keeps what is marked valid right |
| ConfRead.ReadConfig | config/symbol.c:401-526 | values are computed exactly when there is no cycle, and are then the one solution |
| ConfData.UnescapeEscaped | config/confdata.c:564-604 | reading undoes quoting for every string, whatever follows the closing quote |
| ConfData.EscapeStringValue | config/confdata.c:564-604 | the loops compute the quoted string, and the buffer has exactly its size |
| ConfData.UnescapeInPlace | config/confdata.c:273-287 | the loop in place leaves the unquoted string, ended by NUL, or fails exactly when there is no closing quote |
| ConfFile.LineRoundTrip | config/confdata.c:608-639 | the line of a symbol is read back as the value that was written, unless it is an int or hex symbol whose text is not a number |
| ConfFile.FileRoundTrip | config/confdata.c:408-481 | a file that was written is read back completely, but for the lines of int and hex symbols whose text is not a number |
| ConfFile.WrittenValue | config/confdata.c:462-481 | every symbol with one line that is accepted gets the value it had |
| ConfFile.WrittenOthers | config/confdata.c:462-481 | a symbol without a line that is accepted keeps what it had before |
| ConfLaws.WrittenText | config/confdata.c:608-639 | the lines letter by letter |
| ConfLaws.IntValidExact | config/symbol.c:655-667 | a text is accepted for an int symbol exactly when it is the decimal form of a number, or `-0` |
| ConfFile.DefaultIsNoNumber | config/symbol.c:495-508 | in every solution of a configuration with an int symbol whose default is an undefined symbol, the value is that symbol's name, and its line is rejected |
| Macros.SplitJoin | config/preprocess.c:371-407 | the pieces of a clause, joined by commas, are the clause |
| Macros.SplitAtDepthZero | config/preprocess.c:388-405 | clauses are split at commas outside parentheses, and only there |
| Macros.EnteredBudget | config/preprocess.c:264-271 | entering a variable lowers the number of variables that can be entered, the first part of the measure by which expansion terminates |
| Macros.LowerCounters | config/preprocess.c:255-281 | the counters only stop an expansion: with lower ones, one that succeeds gives the same text |
| Macros.ExpandAppend | config/preprocess.c:502-544 | a text that does not end in a dollar sign is expanded independently of what follows |
| MacroLaws.ArgumentLaw | config/preprocess.c:362-370 | inside a call, `$(k)` with a decimal k is the k-th argument |
| MacroLaws.VariableLaw | config/preprocess.c:255-281 | a call of a variable gives the value of a simple one as it is, and the expansion of the value of a recursive one with the expanded arguments; it fails when the variable is being expanded and there are no arguments, or more than a thousand times deep |
| MacroLaws.BuiltinLaw | config/preprocess.c:420-437 | without such a variable a built-in function is called; the environment is asked last, and only without arguments |
| MacroLaws.TooManyLaw | config/preprocess.c:388-411 | more than sixteen pieces are an error |
| MacroLaws.ParameterLaw | config/preprocess.c:350-446 | a recursive variable with the value `$(k)` gives the k-th of its plain arguments |
| MacroLaws.TwoParameters | config/preprocess.c:350-446 | with `f = $(1)-$(2)`, the call `$(f,x,y)` gives `x-y` |
| MacroLaws.DollarLaw | config/preprocess.c:471-474 | a dollar sign without a parenthesis stands for itself |
| MacroLaws.UnclosedLaw | config/preprocess.c:488-489 | a reference that is not closed is an error |
| MacroLaws.TokenLaw | config/preprocess.c:502-544 | a token ends at the first character that is not a letter, a digit, `_`, `-` or a dollar sign |
| Macros.SplitClause | config/preprocess.c:388-411 | the loop computes the pieces, or fails when there are more than 16 |
| Macros.Expander.ExpandString | config/preprocess.c:502-544 | computes its specification and terminates; all counters are restored on success |
| Macros.Expander.EvalClause | config/preprocess.c:350-446 | so does the evaluation of a clause |
| Macros.Expander.ExpandVariable | config/preprocess.c:255-281 | so does the expansion of a variable, also one that calls itself |
| Checksum.CrcChain | tools/lib/carlfw.c:356-365 | a checksum that is seeded with another is the checksum of both texts together |
| Checksum.OneByteChanges | tools/lib/carlfw.c:356-365 | the checksum detects every change of one byte |
| ChecksumLaws.CheckValue | tools/lib/carlfw.c:356-365 | it is CRC-32 (IEEE 802.3) without the last inversion: the digits 1 to 9 give its check value |
| ChecksumLaws.CrcLinear | tools/lib/carlfw.c:356-365 | the difference of two checksums is the checksum of the difference |
| ChecksumLaws.BurstChanges | tools/lib/carlfw.c:356-365 | the checksum detects every change within four neighbouring bytes |
| Checksum.Crc32Le | tools/lib/carlfw.c:356-365 | the two loops compute the checksum |
| FwRoundTrip.ScanThere | tools/lib/carlfw.c:196-207 | a scan that finds nothing behind the magic number OTAR finds it exactly when no R follows it |
| FwRoundTrip.FindsHeader | tools/lib/carlfw.c:184-221 | the header is found at the end of the firmware exactly when the first descriptor is an OTUS descriptor of a supported version and size whose length does not start with R, if no OTAR occurs behind it |
| FwRoundTrip.ParseStored | tools/lib/carlfw.c:336-350 | the descriptors are read back up to the first that is LAST or has 8192 bytes or more |
| FwRoundTrip.HeaderSumOfBoth | tools/lib/carlfw.c:496-517 | the descriptor checksum is that of the firmware and the descriptors together |
| FwRoundTrip.CheckExact | tools/lib/carlfw.c:370-402 | the check passes exactly for firmware and descriptors that have the two stored checksums |
| FwRoundTrip.RoundTripExact | tools/lib/carlfw.c:404-581 | for an image without a later OTAR: what was stored is loaded with the same firmware and descriptors and one fresh checksum descriptor at the end, exactly when there is firmware, the header is one that is found, no descriptor stops the reader, and no older checksum descriptor is left whose sums are wrong |
| FwRoundTrip.AppliedCheck | tools/lib/carlfw.c:474-522 | after storing, the check passes exactly when no older checksum descriptor is left or the first of them has the right sums |
| FwRoundTrip.OldSumsLost | tools/lib/carlfw.c:370-402 | an image with such a descriptor and other sums never comes back |
| FwRoundTrip.TwoChks | tools/lib/carlfw.c:486-491 | an image with two checksum descriptors that does not |
| FwRoundTrip.HeaderLost | tools/lib/carlfw.c:196-207 | an image whose header has a length that starts with R never comes back |
| FwRoundTrip.Length82 | tools/lib/carlfw.c:196-207 | a header of 82 bytes is well formed, and its image never comes back |
| FwRoundTrip.FirmwareChange | tools/lib/carlfw.c:370-402 | a stored file with one byte of the firmware changed is rejected |
| FwRoundTrip.DescriptorChange | tools/lib/carlfw.c:370-402 | so is one with one byte of a descriptor changed that is no checksum descriptor before or after, as long as the file can still be parsed |
| Carlfw.Carlfw.FindDesc | tools/lib/carlfw.c:184-221 | the loop finds what its specification says |
| Carlfw.Carlfw.DescAddTail | tools/lib/carlfw.c:235-246 | the descriptor is added as long as its length field says, and the counters follow |
| Carlfw.Carlfw.DescDel | tools/lib/carlfw.c:70-83 | one entry goes, and the counters follow |
| Carlfw.Carlfw.ApplyChecksums | tools/lib/carlfw.c:474-522 | an old checksum descriptor is replaced by a fresh one at the end; the test of the length never fails, because the counter is right |
| Carlfw.Carlfw.Store | tools/lib/carlfw.c:524-581 | writes the file that the specification says, or fails as it says |
| Carlfw.Carlfw.CheckCrc32s | tools/lib/carlfw.c:370-402 | computes its specification |
| Carlfw.Carlfw.ParseDescs | tools/lib/carlfw.c:336-350 | the loop collects the descriptors that its specification reads |
| Carlfw.Carlfw.CutOut | tools/lib/carlfw.c:446-461 | the header is taken out of the firmware, and what follows it moves down |
| Carlfw.Carlfw.Load | tools/lib/carlfw.c:404-472 | leaves the image that the specification loads, or fails as it says |

## Left out

- Registers, triggers, clocks and interrupts; a handler may run at any time.
- Aggregation marks, sequence numbers, timestamps and the hang check in `wlantx.c`, the traffic
  bit in beacons, and MAC resets.
- The contents of packets beyond the superframe fields that steer the tx path: `wlan_rx_filter` is a
  parameter, and so is the number of bytes in a response.
- The 16-entry response ring and the BlockAck cache.
- `serial`, `attempts`, `accepted` and the log of the status ring are history: they record what the handlers did.
- The firmware's own frames are neither BlockAck requests nor buffered for a beacon; this is required where they
  enter. The handlers for frames from the host require that a cab frame names an interface that exists.
- TxSpec.AttemptsBounded: counts how often a frame is handed to the hardware.
- Choices (`sym_calc_choice`, `sym_check_choice_deps`) and ranges of int and hex symbols, whose bounds the recursion check does not follow.
- The table of shared expressions: equal expressions are one value, and the cache is kept by structure.
- Warnings, the marks for changed symbols, and a change of `modules_val` during an evaluation.
- DepCheck.Checker.CheckDeps: the message that prints the cycle is not modelled.
- In `_menu_finalize`, whether an entry goes below another is a parameter (what the test means is
  `ExprTransform.SubmenuTestSound` and `SubmenuLaws.SubmenuExact`); spreading dependencies to entries and symbols, with `rewrite_m` and the
  reverse dependencies, and the warnings are not modelled.
- Carlfw.Carlfw.Load: a file whose descriptors lead behind its end gives the error Unspecified, where the
  code reads other memory; so does an OTUS descriptor of 8192 bytes or more, where it returns an unset variable.
- Separate header files, changes of the firmware's size, and the file system in `carlfw.c`.
- The built-in macros and the environment are parameters; variable definitions do not change during an expansion.
- The other tools, and the output formats other than `.config`.
- ExprTransform.TransformSound: follows the documented rule `A!=y -> !A`; ExprTransform.WrittenTransformSound is about the code.
- ExprTransform.TransformNormal: the same.
- ExprTransform.TransformIdempotent: the same.
- Firmware.Firmware.UsbStatusIn: the packing of responses into the buffer, and the case that there is none.
- Firmware.Firmware.WlanTx: requires that a cab frame names an interface that exists (HostPass.EntryQueueIff).
- Firmware.Firmware.HandleDownload: requires the same of the frames that the host sent.
- HostPass.DownloadNext: requires the same.
- SymbolEval.Evaluator.SetTristateValue: the modules symbol, which the code computes at once when values are cleared, is a parameter.
- SymbolEval.Evaluator.CalcSymbol: for symbols without choices and ranges.
- MenuFinalize.Finalize: the spreading of dependencies and the test for submenus are not part of it.
