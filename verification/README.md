# Verification of tommyOS's kernel core

A Dafny model of the hard parts of the kernel, and proofs about it. The xHCI driver comes
first: its rings, where a driver and a controller share memory without locks, the port
enumeration built on them, the interrupt hand-off to the main loop and the bookkeeping of
control transfers. Then the path of physical memory from the firmware's map to `sbrk`, the PCI
scan, and smaller pieces with hard arithmetic or list properties.

Code that updates state in place is a class whose methods are proved against functions of the
old state; the theorems are about those functions and about state machines that interleave
them with the hardware. The hardware's side follows the xHCI specification, sections 4.9.2 to
4.9.4 (rings), 4.3 and 4.6.5 (enumeration) and 6.4 (the words of TRBs), the PCI Local Bus
Specification, sections 3.2.2.3.2, 6.1 and 6.2, and the Intel SDM, volume 3A, section 4.5 (paging).

| file | what it models |
|---|---|
| `Wrappers.dfy`, `Bits.dfy` | shared types; bitwise arithmetic on 64-bit words |
| `Trb.dfy` | TRBs as four words, the control word's fields, the Link TRB's shifted pointer |
| `Ring.dfy` | the producer side of command and transfer rings against a lazily fetching controller, word by word |
| `EventRing.dfy` | the consumer side of the event ring against a controller that writes events in two stores |
| `Enumeration.dfy`, `Controller.dfy` | the port state machine as functions and runs; the handlers as methods |
| `Outcomes.dfy` | each handler from any state, case by case; no device is configured before its descriptors are read |
| `Dispatch.dfy` | from the words of an event in memory to its handler, over whole runs |
| `Progress.dfy`, `Liveness.dfy` | what every awaited event does to its port; every run ends, with all ports configured |
| `Stranding.dfy` | the run in which an unplugged port strands those behind it |
| `CommandRing.dfy` | enumeration and the 32-slot command ring composed |
| `Queue.dfy`, `Handoff.dfy` | the message queue; the interrupt handler and main loop, interleaved |
| `ArrayMap.dfy`, `ControlTransfer.dfy`, `ControlFailures.dfy` | the fixed-size map; control transfers on a ring whose slots are its keys, and what failed ones leave behind |
| `Bitmap.dfy`, `Allocations.dfy` | the packed frame bitmap and first fit; any sequence of allocations |
| `BootMemory.dfy`, `Paging.dfy` | memory map walk, heap, `sbrk`, end to end; identity page tables |
| `Pci.dfy`, `PciHeader.dfy` | depth-first PCI enumeration into a table of 32; the same told from the bytes of the machine's headers |
| `UsbMemory.dfy`, `Descriptors.dfy` | the USB memory pool; reading a configuration's endpoints |
| `Layers.dfy` | the layer stack and what drawing it leaves on the screen |
| `ElfLoader.dfy` | the boot loader's placing of load segments |

Where the code does less than its comments or its callers expect, the model keeps the code and
the exact condition is proved. The bitmap's comments speak of 32 frames a word; a word has 64
bits on this target, and 64 is modelled.

- `Ring::Push` has no full check. A push is lossless if and only if it overwrites no slot the
  consumer has still to read (`PushLossless`); N-2 outstanding TRBs always allow it, and no
  higher bound does (`BoundIsTight`). The command ring always meets it (`CommandRing.RunSafe`).
- A waiting port that was unplugged still stops the hand-over's search (`HandOverExact`), and a
  run reaches a state where it strands a connected port for good (`StrandingRun`,
  `StrandedForEver`).
- A failed transfer leaves its map entry behind (`CompletionKeepsInvExactly`). It can only fill
  the map, not mislead (`RunMatchesDespiteFailures`). A transfer length is kept only below 2^17
  (`LengthExact`).
- The memory map walk loses available memory exactly when a descriptor is out of order
  (`WalkExactly`, `UnsortedLoses`).
- The bitmap covers 128 GiB, the page tables 64 GiB (`BlockMappedExactly`).
- `sbrk` with a negative increment can move the break below the heap (`StaysInHeapExactly`).
- `AllocMem` grants a request larger than the pool when its end wraps past 2^64; those are the
  only bad ones (`GrantedInPoolExactly`, `HugeSizeGranted`).
- The configuration reader faults when an interface claims more endpoints than follow or than
  fit (`InitializePhase2`), and its search ends exactly when it meets no zero length on its way
  (`SearchEndsExactly`).
- A load segment longer in the file than in memory is written over the whole address space,
  because the count of zeros wraps (`WritesInPagesExactly`, `StaysInSegmentExactly`).
- `UpDown` with an unknown id and a height puts a null pointer into the layer stack (`NullExactly`).

Hypotheses the code relies on are preconditions or step guards: one successful completion for
each command; Enable Slot returns a free slot in 1..8; Address Device copies the input slot
context to the device context; port numbers are at least 1; memory is available to the driver;
`sti; hlt` is atomic; every posted event latches an interrupt; the memory map is page-aligned
and below 128 GiB.

## Model

| member | source | states |
|---|---|---|
| Trb.ControlIsWord | kernel/usb/xhci/trb.hpp:17-28 | the bit-field view of a control word loses nothing, and masking the word's low bit is setting the cycle field |
| Trb.LinkRoundTrip | kernel/usb/xhci/trb.hpp:164-195 | a Link TRB's shifted pointer gives its target back if and only if the target is 16-byte aligned; its words have the xHCI specification's layout |
| TransferRing.FourWordsAreOneTrb | kernel/usb/xhci/ring.cpp:30-37 | the four word stores together write exactly the TRB, stamped with the producer's cycle bit |
| TransferRing.PushIsStores | kernel/usb/xhci/ring.cpp:39-54 | a push is its four stores, or eight when it ends with the Link TRB, done one after another |
| TransferRing.StoreInv | kernel/usb/xhci/ring.cpp:30-54 | every single word store, in the middle of a TRB or of the Link TRB too, keeps the ring invariant and takes back no push |
| TransferRing.FetchTakesOldest | kernel/usb/xhci/ring.cpp:30-54 | a fetch that follows the cycle bit takes the oldest unread TRB and only that one |
| TransferRing.RunSafe | kernel/usb/xhci/ring.cpp:30-54 | in every interleaving of word stores and lazy fetches with at most N-2 outstanding, what was consumed is a prefix of what was pushed |
| TransferRing.StopsExactly | kernel/usb/xhci/ring.cpp:39-54 | the controller stops exactly when everything finished has been consumed, up to following one Link TRB |
| TransferRing.DrainDelivers | kernel/usb/xhci/ring.cpp:39-54 | left alone, the controller consumes everything pushed and then stops |
| TransferRing.PushLossless | kernel/usb/xhci/ring.cpp:39-54 | a push loses nothing if and only if the slots it writes are free of unread TRBs at that moment |
| TransferRing.BoundIsTight | kernel/usb/xhci/ring.cpp:39-54 | for every ring size there is a reachable state with N-2 outstanding and the consumer parked on the Link TRB in which one more push loses data |
| TransferRing.RunRemembers | kernel/usb/xhci/ring.cpp:30-54 | in every run the last N-2 pushes are still in memory, each in the slot it was pushed to |
| TransferRing.PushRemembers | kernel/usb/xhci/ring.cpp:39-54 | one whole push keeps the last N-2 TRBs where they are and adds its own, over the wrap too |
| TransferRing.Ring.Initialize | kernel/usb/xhci/ring.cpp:12-28 | a ring of zeroed slots with cycle bit 1 and write index 0, in working order if and only if it has at least three slots |
| TransferRing.Ring.CopyToLast | kernel/usb/xhci/ring.cpp:30-37 | writes the stamped TRB at the write index and nothing else |
| TransferRing.Ring.Push | kernel/usb/xhci/ring.cpp:39-54 | the new ring is the specified push of the old one, with the slot of the TRB returned |
| EventRings.PointerRoundTrip | kernel/usb/xhci/registers.hpp:324-339 | the dequeue pointer survives the register's shift if and only if it is 16-byte aligned, and the low bits stay |
| EventRings.PopMoves | kernel/usb/xhci/ring.cpp:101-114 | a pop moves to the next slot, and from the last slot to the first with the cycle bit flipped |
| EventRings.HasFrontExact | kernel/usb/xhci/ring.hpp:88-94 | there is a front if and only if an event is unread, and then it is the oldest one |
| EventRings.NextInv | kernel/usb/xhci/ring.cpp:95-114 | every store of the controller and every step of the consumer keeps the event ring invariant, half-written events included |
| EventRings.RunExactlyOnce | kernel/usb/xhci/xhci.cpp:488-505 | in every run the handled events are a prefix of the posted ones, each once and in order, across wraps |
| EventRings.EventRing.Initialize | kernel/usb/xhci/ring.cpp:56-93 | a cleared segment, cycle bit 1, the dequeue pointer at its first slot and a one-entry table, in working order if and only if the size fits in 16 bits |
| EventRings.EventRing.WriteDequeuePointer | kernel/usb/xhci/ring.cpp:95-99 | the register holds the aligned pointer and keeps its other bits |
| EventRings.EventRing.HasFront | kernel/usb/xhci/ring.hpp:88-90 | true if and only if the front slot's cycle bit is the consumer's |
| EventRings.EventRing.Pop | kernel/usb/xhci/ring.cpp:101-114 | the consumer becomes the specified successor and no slot changes |
| Enumeration.ResetPortGood | kernel/usb/xhci/xhci.cpp:88-110 | where the handlers call it, resetting a port cannot fail, keeps the invariant and changes no other port |
| Enumeration.EnableSlotGood | kernel/usb/xhci/xhci.cpp:112-129 | enabling a slot keeps the invariant and issues at most the one Enable Slot command then expected |
| Enumeration.AddressDeviceGood | kernel/usb/xhci/xhci.cpp:131-164 | with a fresh slot, Address Device succeeds, takes the finished command off the expected ones and adds its own |
| Enumeration.ClearingBreaks | kernel/usb/xhci/xhci.cpp:250-256 | clearing `addressing_port` alone breaks the exclusivity invariant |
| Enumeration.AddressedGood | kernel/usb/xhci/xhci.cpp:247-265 | the handler of a completed Address Device takes none of its error returns and has restored the invariant when it returns |
| Enumeration.HandOverExact | kernel/usb/xhci/xhci.cpp:254-265 | the hand-over goes to the lowest waiting port, and leaves nobody stranded if and only if no port waits or that one is still connected |
| Enumeration.OnTransferGood | kernel/usb/xhci/xhci.cpp:209-225 | a transfer event keeps the invariant and issues at most the Configure Endpoint command of its own slot |
| Enumeration.ConfigureEndpointsGood | kernel/usb/xhci/xhci.cpp:423-486 | configuring endpoints issues one command and moves its port on, or changes nothing and reports the error |
| Enumeration.CompleteConfigurationGood | kernel/usb/xhci/xhci.cpp:180-192 | the completed Configure Endpoint finds its port through the device context and ends its enumeration without error |
| Enumeration.HandleInv | kernel/usb/xhci/xhci.cpp:194-281 | handling the oldest event keeps the invariant, moves no port back, and a completion never ends in an error |
| Enumeration.NextInv | kernel/usb/xhci/xhci.cpp:88-281 | every step of driver or hardware keeps the system invariant |
| Enumeration.RunInv | kernel/usb/xhci/xhci.cpp:33-43 | between events `addressing_port` is 0 and no port is being reset, enabled or addressed, or it is the only such port |
| Enumeration.RunForward | kernel/usb/xhci/xhci.cpp:22-31 | over every run no port's phase rank decreases |
| Enumeration.AtMostSevenChanges | kernel/usb/xhci/xhci.cpp:22-31 | over every run a port changes phase at most seven times |
| Enumeration.CommandsArePorts | kernel/usb/xhci/xhci.cpp:227-281 | outstanding commands and ports in the three command phases correspond one to one |
| Enumeration.AtMostNinePending | kernel/usb/xhci/xhci.cpp:372-380 | with eight slots at most nine commands are outstanding |
| Enumeration.RunServed | kernel/usb/xhci/xhci.cpp:254-265 | while waiting ports stay connected, a waiting port implies that some port is being addressed |
| Outcomes.ResetPortExactly | kernel/usb/xhci/xhci.cpp:88-110 | from any state: a connected port is reset, waits or is out of turn, by `addressing_port` and its phase; an unplugged one is left alone |
| Outcomes.EnableSlotExactly | kernel/usb/xhci/xhci.cpp:112-129 | from any state: Enable Slot is sent if and only if the port is enabled and its reset has changed |
| Outcomes.PortStatusExactly | kernel/usb/xhci/xhci.cpp:194-207 | from any state: a status change is an error if and only if the port is neither unconnected nor being reset; what it sends and which phase it leads to |
| Outcomes.TransferExactly | kernel/usb/xhci/xhci.cpp:209-225 | from any state: Configure Endpoint is sent if and only if the transfer was good, the device's descriptors are read, its port is initializing and has a speed in 1..5; otherwise no phase changes and nothing is sent |
| Outcomes.EnabledExactly | kernel/usb/xhci/xhci.cpp:234-239 | from any state: when a completed Enable Slot is out of turn or names no slot, with nothing changed, and otherwise the device that is then addressed |
| Outcomes.AddressedExactly | kernel/usb/xhci/xhci.cpp:239-265 | from any state: when a completed Address Device is an error, with nothing changed, and otherwise its port's new phase, the device unread, and the hand-over |
| Outcomes.ConfiguredExactly | kernel/usb/xhci/xhci.cpp:266-278 | from any state: when a completed Configure Endpoint is an error; otherwise its port is configured and nothing else changes |
| Outcomes.RunReadsFirst | kernel/usb/xhci/xhci.cpp:219-224 | over every run, Configure Endpoint is outstanding only for a device that has read its descriptors, and only such a device's port gets configured |
| Progress.EventAdvances | kernel/usb/xhci/xhci.cpp:194-281 | the event a port waits for in its phase is handled without error, moves it exactly one phase on, sends exactly the next command, and touches another port only in a hand-over |
| Progress.AddressAdvances | kernel/usb/xhci/xhci.cpp:239-265 | after Address Device the addressed port is initializing and the lowest waiting port, if connected, is being reset |
| Progress.EnableSlotAdvances | kernel/usb/xhci/xhci.cpp:131-164 | the new device object belongs to the port whose slot was enabled |
| Progress.TransferAdvances | kernel/usb/xhci/xhci.cpp:209-225 | the last transfer of a device's initialization sends its Configure Endpoint command |
| Progress.QuietMeansDone | kernel/usb/xhci/xhci.cpp:194-281 | with waiting ports served and no command, reset or descriptor exchange under way, every port is unconnected or configured |
| Liveness.EnumerationFinishes | kernel/usb/xhci/xhci.cpp:194-281 | with hardware that does its part and no new port, every run ends within a computed number of steps, and where it ends every connected port is configured, unless the device slots have run out |
| Liveness.StepLighter | kernel/usb/xhci/xhci.cpp:194-281 | every useful step of controller or driver brings some port nearer its end and none further away |
| Liveness.OutOfSlotsMeansNine | kernel/usb/xhci/xhci.cpp:112-129 | the slots run out only when a ninth port is connected |
| Liveness.ConfigureReady | kernel/usb/xhci/xhci.cpp:416-421 | such runs can start after any ports have been found connected |
| Liveness.InitReady | kernel/usb/xhci/xhci.cpp:38-43 | and from the driver's initial state |
| Stranding.StrandingRun | kernel/usb/xhci/xhci.cpp:93-95 | a run from the start that ends with nobody being addressed while a connected port waits behind an unplugged one |
| Stranding.WaitingIsInvalid | kernel/usb/xhci/xhci.cpp:194-207 | a status change of a waiting port is answered with an error and changes nothing |
| Stranding.StrandedForEver | kernel/usb/xhci/xhci.cpp:254-265 | from there, over any number of steps in which no new port turns up, whoever waits goes on waiting |
| Controllers.Controller.ResetPort | kernel/usb/xhci/xhci.cpp:88-110 | the method does to phases, `addressing_port` and registers what the specified handler does, error included |
| Controllers.Controller.EnableSlot | kernel/usb/xhci/xhci.cpp:112-129 | the same for enabling a slot |
| Controllers.Controller.AllocDevice | kernel/usb/xhci/devmgr.cpp:70-82 | a device object in a free slot; errors for a slot too large or taken |
| Controllers.Controller.AddressDevice | kernel/usb/xhci/xhci.cpp:131-164 | the same for addressing a device |
| Controllers.Controller.InitializeDevice | kernel/usb/xhci/xhci.cpp:166-178 | the same for starting its initialization |
| Controllers.Controller.CompleteConfiguration | kernel/usb/xhci/xhci.cpp:180-192 | the same for the end of configuration |
| Controllers.Controller.ConfigureEndpoints | kernel/usb/xhci/xhci.cpp:423-486 | the same for configuring endpoints, with the unknown-speed error |
| Controllers.Controller.OnPortStatusChange | kernel/usb/xhci/xhci.cpp:194-207 | the same for a port status change |
| Controllers.Controller.OnTransferEvent | kernel/usb/xhci/xhci.cpp:209-225 | the same for a transfer event |
| Controllers.Controller.AddressNextWaiting | kernel/usb/xhci/xhci.cpp:254-262 | the loop that looks for a waiting port does the specified hand-over |
| Controllers.Controller.OnCommandCompletion | kernel/usb/xhci/xhci.cpp:227-281 | the same for a command completion, by the type of the TRB it names; any other type is an invalid phase and changes nothing |
| Controllers.Controller.ConfigurePort | kernel/usb/xhci/xhci.cpp:416-421 | resets a port that is still unconnected to the driver, and no other |
| Controllers.Controller.ProcessEvent | kernel/usb/xhci/xhci.cpp:488-505 | with no event nothing happens; otherwise the front event is decoded, with the completed command read from memory, handled as specified and popped |
| Dispatch.FieldsRead | kernel/usb/xhci/trb.hpp:358-441 | type, port, slot and command address are read where the xHCI specification puts them, whatever the other bits of the event hold |
| Dispatch.EventIsHandled | kernel/usb/xhci/xhci.cpp:488-505 | the words of an event lead to the handler of just that event, a completion's by the type of the command in memory at the address it names |
| Dispatch.OthersAreRefused | kernel/usb/xhci/xhci.cpp:493-502 | an event is not implemented if and only if its type is none of 32, 33 and 34, and then nothing changes; nor does it for the completion of another command |
| Dispatch.RunDispatches | kernel/usb/xhci/xhci.cpp:227-281 | over every run of the enumeration on its command ring, the words of the oldest event lead to the very step the run takes |
| CommandRing.PushWithinBound | kernel/usb/xhci/xhci.cpp:377 | every push the handlers make on the command ring is within its N-2 bound |
| CommandRing.RunSafe | kernel/usb/xhci/xhci.cpp:377-380 | with no bound assumed, enumeration on the 32-slot ring keeps the ring invariant in every run, with at most nine outstanding |
| CommandRing.CommandWords | kernel/usb/xhci/trb.hpp:221-312 | the driver's command TRBs have the words of the xHCI specification and carry type and slot; the context pointer survives if and only if it is 16-byte aligned |
| CommandRing.IssuerStillThere | kernel/usb/xhci/xhci.cpp:227-230 | the TRB at the address in a completion event, recorded when the controller fetched it, is still the command it completes when the driver reads it |
| CommandRing.RunNamesIssuer | kernel/usb/xhci/xhci.cpp:227-230 | over every run, what the driver reads at that address decodes to the very command that was completed |
| Queues.ArrayQueue.Push | kernel/queue/queue.hpp:30-42 | appends to the contents, or reports Full and changes nothing if and only if the queue is full |
| Queues.ArrayQueue.Pop | kernel/queue/queue.hpp:44-54 | removes the oldest element, or reports Empty and changes nothing |
| Queues.ArrayQueue.Front | kernel/queue/queue.hpp:66-68 | the oldest element |
| Queues.Fifo | kernel/queue/queue.hpp:30-54 | over any sequence of operations, what was accepted is what was taken out followed by what is in the queue |
| Handoff.NextInv | kernel/main/main.cpp:283-305 | every step of poster, handler and main loop keeps the hand-off invariant |
| Handoff.RunRemembers | kernel/main/main.cpp:104-108 | no lost wake-up: an unread event implies a latched interrupt, a handler about to push, a queued message or a main loop still draining, full queue included; the loop touches the queue only with interrupts off |
| Handoff.SleepsOnlyWhenDone | kernel/main/main.cpp:285-289 | a processor asleep with no interrupt in sight has no unread event |
| Handoff.EverythingGetsProcessed | kernel/main/main.cpp:283-305 | without new posts every run ends within a computed number of steps, with nothing unread |
| ArrayMaps.LookupAfterAdd | kernel/usb/arraymap.hpp:25-33 | after a put the value is found under its key if and only if a free cell comes before any equal key, or it was there already; other keys are unaffected |
| ArrayMaps.LookupAfterRemove | kernel/usb/arraymap.hpp:35-42 | after a delete a unique key is gone and other keys are unaffected |
| ArrayMaps.ArrayMap.Get | kernel/usb/arraymap.hpp:16-23 | the first value stored under the key, or none |
| ArrayMaps.ArrayMap.Put | kernel/usb/arraymap.hpp:25-33 | fills the first free cell, or silently nothing when there is none |
| ArrayMaps.ArrayMap.Delete | kernel/usb/arraymap.hpp:35-42 | frees the first cell with the key, if any |
| ControlTransfers.SetupRoundTrip | kernel/usb/xhci/device.cpp:10-19 | setup data packed into a Setup TRB is read back whole |
| ControlTransfers.SetupIsPacket | kernel/usb/xhci/device.cpp:10-19 | the first two words of a Setup TRB are the eight bytes of the USB setup packet |
| ControlTransfers.StageWords | kernel/usb/xhci/trb.hpp:30-162 | the last words of all TRBs have the xHCI specification's layout; an interrupt transfer's TRB asks for both interrupts |
| ControlTransfers.BufferRoundTrip | kernel/usb/xhci/device.cpp:21-28 | a buffer address survives Data and Normal TRBs; a length does if and only if it fits in 17 bits |
| ControlTransfers.StagesFollowProtocol | kernel/usb/xhci/device.cpp:107-199 | setup, data and status stages have the types, directions and transfer type the protocol asks for, and only the TRB used as the map's key raises an interrupt |
| ControlTransfers.StartInv | kernel/usb/xhci/device.cpp:107-199 | starting a transfer, in or out, with a buffer or without, keeps the bookkeeping invariant |
| ControlTransfers.CompletionMatches | kernel/usb/xhci/device.cpp:235-285 | a successful completion calls back with the setup data, buffer and length of its own transfer, and removes its entry only |
| ControlTransfers.CompletionKeepsInvExactly | kernel/usb/xhci/device.cpp:238-262 | the bookkeeping survives a completion if and only if it succeeded |
| ControlTransfers.OutcomeExactly | kernel/usb/xhci/device.cpp:235-285 | from any state: which events fail, call back, find no entry, and which change the map |
| ControlTransfers.LengthExact | kernel/usb/xhci/device.cpp:246-270 | the length called back is requested minus residual if and only if the request was below 2^17 |
| ControlTransfers.InterruptCompletes | kernel/usb/xhci/device.cpp:246-258 | an interrupt transfer gets its own buffer back and leaves the map alone |
| ControlTransfers.RunMatches | kernel/usb/xhci/device.cpp:107-285 | over any sequence of transfers and successful completions within the window and map size, every completion matches, across any number of ring laps |
| ControlFailures.PutExactly | kernel/usb/arraymap.hpp:25-33 | with stale entries in the map, a new entry is found if and only if a cell is free or its key is there already |
| ControlFailures.InitSound | kernel/usb/xhci/device.cpp:97-105 | a new ring and an empty map are sound books to start from |
| ControlFailures.RunMatchesDespiteFailures | kernel/usb/xhci/device.cpp:107-285 | with failures among them too: as long as each put finds a free cell or its key, no completion is mismatched and each failure is reported |
| ControlTransfers.Device.AllocTransferRing | kernel/usb/xhci/device.cpp:97-105 | gives the endpoint an empty ring, or null when there is no memory for it |
| ControlTransfers.Device.ControlIn | kernel/usb/xhci/device.cpp:107-152 | pushes the specified stages and registers the Setup TRB under the event TRB's slot; errors for a bad endpoint or no ring |
| ControlTransfers.Device.ControlOut | kernel/usb/xhci/device.cpp:154-199 | the same in the other direction |
| ControlTransfers.Device.InterruptIn | kernel/usb/xhci/device.cpp:201-223 | pushes one Normal TRB and registers nothing |
| ControlTransfers.Device.OnTransferEventReceived | kernel/usb/xhci/device.cpp:235-285 | the outcome and the new map are the specified ones, error branches included |
| Bits.TestIsAnd | kernel/memory_manager/memory_manager.cpp:51 | `x & (1 << b)` is nonzero if and only if bit b is set |
| Bits.MaskRoundsUp | kernel/usb/memory.cpp:6-9 | `(x + 2^k - 1) & ~(2^k - 1)` is the least multiple of 2^k from x on |
| Bits.AlignedIsMultiple | kernel/usb/memory.cpp:6-9 | the last k bits of a number are zero if and only if it is a multiple of 2^k |
| Bits.OrIsSum | kernel/paging/paging.cpp:17-21 | or-ing flags into an aligned address adds them |
| Bitmaps.OneBitRefines | kernel/memory_manager/memory_manager.cpp:54-63 | setting or clearing a bit of a packed word changes the represented set of frames by that frame alone |
| Bitmaps.FirstFitUnique | kernel/memory_manager/memory_manager.cpp:6-30 | the first-fit specification has one answer |
| Bitmaps.SkipMissesNothing | kernel/memory_manager/memory_manager.cpp:26-28 | no free run starts between the search position and the marked frame it jumps past |
| Bitmaps.BitmapMemoryManager.GetBit | kernel/memory_manager/memory_manager.cpp:47-52 | true if and only if the frame is in the represented set |
| Bitmaps.BitmapMemoryManager.SetBit | kernel/memory_manager/memory_manager.cpp:54-63 | adds or removes exactly the frame |
| Bitmaps.BitmapMemoryManager.MarkAllocated | kernel/memory_manager/memory_manager.cpp:40-44 | adds exactly the block |
| Bitmaps.BitmapMemoryManager.Free | kernel/memory_manager/memory_manager.cpp:32-38 | removes exactly the block |
| Bitmaps.BitmapMemoryManager.Allocate | kernel/memory_manager/memory_manager.cpp:6-30 | terminates; returns the least start of a free run in the range and adds exactly that run, or reports no memory if and only if there is none, changing nothing |
| Bitmaps.BitmapMemoryManager.SetMemoryRange | kernel/memory_manager/memory_manager.cpp:66-69 | sets the range and leaves the bitmap alone; the range is usable if and only if the bitmap covers it |
| Allocations.RunSafe | kernel/memory_manager/memory_manager.cpp:6-63 | over any sequence of Allocate, MarkAllocated and matching Free, live blocks are disjoint, in range and never on a frame reserved at the start, and free, live and reserved frames add up to all frames |
| Allocations.AllFreed | kernel/memory_manager/memory_manager.cpp:32-38 | once everything allocated is freed the bitmap is what it was |
| Allocations.FailsOnlyWhenFull | kernel/memory_manager/memory_manager.cpp:12-14 | a refused request means that a live or reserved frame touches every window of that size |
| BootMemory.WalkMemoryMap | kernel/main/main.cpp:148-174 | the loop over the descriptors marks exactly the frames of the specified walk and returns its end |
| BootMemory.WalkSafe | kernel/main/main.cpp:148-174 | for a map in any order, an unmarked frame below the end is in an available descriptor and in no other |
| BootMemory.WalkMarksExactly | kernel/main/main.cpp:148-174 | for every map the walk marks exactly the frames of non-available descriptors and of gaps, and ends where the last available descriptor ends |
| BootMemory.WalkKeepsExactly | kernel/main/main.cpp:148-174 | for every map the walk leaves all the memory that is only available if and only if none of it is above the end or in a gap |
| BootMemory.WalkExactly | kernel/main/main.cpp:148-174 | for disjoint descriptors the walk is exact if and only if every available one ends by the end and no gap cuts it |
| BootMemory.WalkExact | kernel/main/main.cpp:148-174 | for a sorted map the unmarked frames below the end are exactly the available ones |
| BootMemory.WalkEnd | kernel/main/main.cpp:147-173 | the walk's end is where the last available descriptor ends, or 0 without one |
| BootMemory.UnsortedLoses | kernel/main/main.cpp:166-168 | a disjoint map, out of order, whose available memory ends up above the end |
| BootMemory.Heap.InitializeHeap | kernel/memory_manager/memory_manager.cpp:74-86 | the heap is the first fit of 32768 frames, or the error leaves everything as it was |
| BootMemory.Heap.Sbrk | kernel/newlib_support.c:10-19 | returns the old break and moves it by the increment if and only if that stays in front of the heap's end; refuses otherwise, changing nothing |
| BootMemory.GrantedExactly | kernel/newlib_support.c:10-19 | a request is granted if and only if there is a heap and the new break, the sum, is in front of its end |
| BootMemory.AllGrantedExactly | kernel/newlib_support.c:10-19 | a sequence of growing calls is granted as a whole, block after block, if and only if all of it fits in the heap |
| BootMemory.StaysInHeapExactly | kernel/newlib_support.c:10-19 | the break stays in the heap if and only if the sum does not fall between null and its start |
| BootMemory.GrantedApart | kernel/newlib_support.c:10-19 | blocks of non-negative `sbrk` calls lie in the heap one after another |
| BootMemory.Boot | kernel/main/main.cpp:148-180 | walk, range and heap together: the allocator is left with the walk's frames and the heap marked |
| BootMemory.BootSafe | kernel/main/main.cpp:148-180 | whatever is allocated after start-up lies in available memory only, never in frame 0, and live blocks are disjoint |
| BootMemory.OfferedExactly | kernel/main/main.cpp:147-176 | for a sorted map, the allocator is offered every byte of memory types 3, 4 and 7 from the second page on, and no other |
| BootMemory.SbrkSafe | kernel/newlib_support.c:10-19 | every byte from non-negative `sbrk` calls is available memory that no other live allocation holds |
| Paging.PageTables.SetupIdentityPageTable | kernel/paging/paging.cpp:15-23 | the loops fill exactly the entries of the identity map, and CR3 points at them |
| Paging.IdentityExactly | kernel/paging/paging.cpp:15-23 | the 4-level walk maps every address below 64 GiB to itself, writable and supervisor, and finds every other 48-bit address not present |
| Paging.BlockMappedExactly | kernel/memory_manager/memory_manager.hpp:39-40 | a block of frames is wholly mapped if and only if it ends by 64 GiB |
| Pci.AddressReadBack | kernel/pci/pci.cpp:8-18 | bus, device, function and register can be read back from the address, so no two share one |
| Pci.OrderStable | kernel/pci/pci.cpp:31-77 | the first n entries of the depth-first preorder are the same at every bridge depth from n on |
| Pci.Enumerator.AddDevice | kernel/pci/pci.cpp:21-27 | appends the device, or reports Full if and only if the table has 32 |
| Pci.Enumerator.ScanFunction | kernel/pci/pci.cpp:31-46 | appends the function and what lies behind it in preorder as far as the table goes; Full if and only if that overflows |
| Pci.Enumerator.ScanDevice | kernel/pci/pci.cpp:48-65 | the same for the functions of a device |
| Pci.Enumerator.ScanBus | kernel/pci/pci.cpp:67-77 | the same for the devices of a bus |
| Pci.Enumerator.ScanAllBus | kernel/pci/pci.cpp:256-275 | terminates on every configuration space; the table is the first 32 entries of the whole preorder, Full if and only if there are more |
| Pci.TableIsPrefix | kernel/pci/pci.cpp:256-275 | the result does not depend on how deep beyond 32 bridges the preorder is taken |
| Pci.FiniteExactly | kernel/pci/pci.cpp:256-275 | the scan succeeds if and only if the traversal is finite with at most 32 entries |
| Pci.PathIsVisited | kernel/pci/pci.cpp:39-44 | every bridge on a path of buses is an entry of the traversal |
| Pci.CycleFillsTable | kernel/pci/pci.cpp:39-44 | any cycle of bridges that the scan can come to, through any functions, makes it end with Full |
| Pci.ScanFindsExactly | kernel/pci/pci.cpp:31-77 | the table holds only functions that bridges lead to from a root bus, and all of them unless it ends with Full |
| Pci.BusInOrder | kernel/pci/pci.cpp:48-77 | the functions of a bus come by device and function number, a bridge before what it leads to |
| PciHeaders.HeaderRead | kernel/pci/pci.cpp:93-131 | every field the scan reads is the byte of the function's header that the PCI Local Bus Specification says, secondary bus number included |
| PciHeaders.TableIsMachine | kernel/pci/pci.cpp:256-275 | on any machine, told from its headers' bytes: the table's entries are the functions reached through secondary buses, with their own fields, all of them unless it is full |
| PciHeaders.HeaderCycleFillsTable | kernel/pci/pci.cpp:39-44 | a cycle of bridges, told from the headers, makes the scan end with Full |
| UsbMemory.Pool.AllocMem | kernel/usb/memory.cpp:21-40 | the pointer goes to the specified place, past the block if it is granted, and stays there if not |
| UsbMemory.CeilIsLeast | kernel/usb/memory.cpp:6-9 | rounding up gives the least multiple of the constraint from an address on |
| UsbMemory.AllocExactly | kernel/usb/memory.hpp:17-26 | a request that the pool could hold is granted if and only if some aligned place from the pointer on keeps it inside the pool and one window, and gets the first such place |
| UsbMemory.PlaceExactly | kernel/usb/memory.cpp:21-31 | a block of any size goes to the first aligned address, or to the next boundary if it would reach into another window there |
| UsbMemory.GrantedInPoolExactly | kernel/usb/memory.cpp:21-40 | a granted block is inside the pool if and only if the requested size is at most the pool's |
| UsbMemory.HugeSizeGranted | kernel/usb/memory.cpp:32-35 | a size for which it wraps and is granted |
| UsbMemory.AllGoodAndApart | kernel/usb/memory.cpp:21-40 | over any sequence of requests of any size, all blocks are in the pool, disjoint, aligned and, when no larger than the boundary, in one boundary window, if and only if no request larger than the pool was granted |
| UsbMemory.SmallRequestsAreSafe | kernel/usb/memory.cpp:21-40 | so they are for every caller that asks for no more than the pool holds |
| Descriptors.NumberAndDirectionSurvive | kernel/usb/endpoint.hpp:30-44 | endpoint number and direction, and nothing else, survive the packing into an endpoint id |
| Descriptors.EndpointRoundTrip | kernel/usb/device.cpp:44-54 | number, direction, type, packet size and interval are read back from the bytes of an endpoint descriptor, whatever its other bits hold |
| Descriptors.ConfigurationRead | kernel/usb/descriptor.hpp:32-43 | a configuration descriptor is one of type 2, and its value is byte 5 |
| Descriptors.DriverExactly | kernel/usb/device.cpp:56-76 | told from an interface's bytes: a keyboard driver for class 3, subclass 1, protocol 1, a mouse driver for protocol 2, and none otherwise |
| Descriptors.ConfigurationDescriptorReader.Next | kernel/usb/device.cpp:21-27 | on any buffer, the reader goes on by the length it stands at, and returns nothing past the end |
| Descriptors.ConfigurationDescriptorReader.NextInterface | kernel/usb/device.cpp:29-36 | on any buffer on which the search ends, it stops at the next interface or past the end |
| Descriptors.SearchEndsExactly | kernel/usb/device.cpp:29-36 | on any buffer, some number of calls ends the search if and only if it meets no zero length before an interface |
| Descriptors.ZeroLengthHoldsSearch | kernel/usb/device.cpp:21-36 | from a length of zero the search ends if and only if the descriptor is an interface |
| Descriptors.SearchContained | kernel/usb/device.cpp:21-36 | on serialized descriptors the search visits them in order and finds the next interface |
| Descriptors.ZeroLengthStays | kernel/usb/device.cpp:21-27 | the reader comes back to a place if and only if the length there is zero |
| Descriptors.Device.ReadEndpoint | kernel/usb/device.cpp:44-54 | the endpoint's configuration from its bytes |
| Descriptors.Device.ReadEndpoints | kernel/usb/device.cpp:219-236 | stores the endpoints that follow, in order, with their driver; faults if and only if too few follow or more than 16 are claimed |
| Descriptors.Device.InitializePhase2 | kernel/usb/device.cpp:202-246 | the first supported interface decides: its endpoints are stored and configuration begins, or it faults; without one nothing happens |
| Descriptors.WellFormedStoresExactly | kernel/usb/device.cpp:202-246 | for a configuration whose interfaces have the endpoints they claim, with any other descriptors in front of and between them, exactly the endpoint list of the first supported interface is stored |
| Descriptors.UnsupportedStoresNothing | kernel/usb/device.cpp:206-214 | nothing is found to store if and only if no interface is a supported one |
| Descriptors.SerializedUnique | kernel/usb/device.cpp:12-27 | bytes are the serialization of one descriptor list only |
| Layers.LayerManager.NewLayer | kernel/layer/layer.cpp:40-43 | a new layer with the next id, not in the stack |
| Layers.LayerManager.FindLayer | kernel/layer/layer.cpp:96-104 | the layer with the id, or null |
| Layers.LayerManager.UpDown | kernel/layer/layer.cpp:60-86 | the stack stays free of duplicates; the layer, or null for an unknown id, is at the clamped height among the others, or out of it for a negative height |
| Layers.RaisedIsMoved | kernel/layer/layer.cpp:60-86 | by positions: the layer is at the height, or on top of the others if that is too high, or gone below zero, and the others are all there in their order |
| Layers.NullExactly | kernel/layer/layer.cpp:71-77 | null is in the stack afterwards if and only if an unknown layer was put there, or it was there and another layer was moved |
| Layers.LayerManager.Hide | kernel/layer/layer.cpp:88-94 | exactly that layer leaves the stack, or null for an unknown id |
| Layers.OthersInserted | kernel/layer/layer.cpp:75-85 | putting a layer anywhere leaves the others in their order |
| Layers.RaisedChangesOnlyItself | kernel/layer/layer.cpp:60-86 | moving a layer changes the screen only where that layer shows something |
| Layers.RaisedToTop | kernel/layer/layer.cpp:66-68 | a layer put on top shows everything it has |
| Layers.SeenIsTopmost | kernel/layer/layer.cpp:46-50 | what is seen at a point is the color of the topmost layer that has one there |
| Layers.ShownExactly | kernel/window/window.cpp:10-29 | a layer shows a color at a point if and only if a pixel of its window lies there, counted from its position, has that color and is not transparent |
| Layers.Screen.DrawWindow | kernel/window/window.cpp:10-29 | each screen pixel becomes the window's non-transparent pixel there, or stays |
| Layers.LayerManager.Draw | kernel/layer/layer.cpp:46-50 | painting from the bottom up leaves every pixel equal to the topmost color there, or unchanged |
| ElfLoader.CalcLoadAddressRange | BootLoaderPkg/Main.c:182-196 | the least first and greatest last address of the load segments, attained by one of them |
| ElfLoader.RangeUnique | BootLoaderPkg/Main.c:182-196 | the range has one answer |
| ElfLoader.WritesInPagesExactly | BootLoaderPkg/Main.c:198-215 | every byte written lies in the pages allocated from the first address on, if and only if no load segment is larger in the file than in memory |
| ElfLoader.PagesCover | BootLoaderPkg/Main.c:328 | the page count covers the range and no whole page more |
| ElfLoader.Machine.CopyLoadSegments | BootLoaderPkg/Main.c:198-215 | memory becomes what the last segment that writes each address leaves there, 64-bit wrap-around included, and is untouched elsewhere |
| ElfLoader.OversizeSegment | BootLoaderPkg/Main.c:207-213 | a segment larger in the file than in memory is written over the whole address space |
| ElfLoader.LoadedWhole | BootLoaderPkg/Main.c:198-215 | disjoint segments are each loaded whole: file bytes, then zeros |
| ElfLoader.StaysInSegmentExactly | BootLoaderPkg/Main.c:207-213 | loading a segment leaves all memory outside it alone if and only if its file size is at most its memory size |

## Left out

- TransferRing.RunSafe: the controller reads a TRB in one access; torn reads of a TRB that is being written are covered only as far as the cycle bit, stored last, hides it.
- CommandRing.RunSafe: what a command TRB's context pointer leads to is not followed, only its type and slot.
- Controllers.Controller.ProcessEvent: the driver's commands are a list in this class; that the list fits the ring is the composed system's theorem.
- Enumeration.RunServed: assumes that waiting ports stay connected, which the code needs; `HandOverExact` and `StrandingRun` say what happens otherwise.
- Liveness.EnumerationFinishes: hardware that reports each reset and each descriptor exchange once, and completes every command.
- UsbMemory.AllGoodAndApart: the pool lies below 2^63, as any memory the kernel maps does.
- ControlTransfers.RunMatches: one endpoint's ring, with addresses as slot numbers; choosing the ring by endpoint and `event_waiters_` are left out.
- Layers.LayerManager.UpDown: positions are indices, where the original keeps iterators over an erasure.
- Layers.LayerManager.Draw: windows lie on the screen, because the pixel writer does not check coordinates.
- Descriptors.Device.InitializePhase2: the buffer holds whole descriptors with their proper lengths, also where the length received ends inside the last one; descriptors too short for their fields are not modelled.
- ElfLoader.Machine.CopyLoadSegments: the file image and its header table stay as they are while the segments are loaded.
- The other phases of USB device initialization (`OnControlCompleted`, phases 1 and 3) and the class drivers: dispatch on a counter, easy members only.
- Controllers.Controller.EnableSlot: clearing the port's reset-change bit is a register write.
- Controllers.Controller.AddressDevice: the endpoint-0 context, its transfer ring and the device context pointer are set up once and not followed.
- Controllers.Controller.ConfigureEndpoints: endpoint contexts, intervals and transfer rings likewise.
- Controllers.Controller.InitializeDevice: the first descriptor request belongs to the control transfers.
- Controllers.Controller.CompleteConfiguration: the class drivers' call-backs are left out.
- Controllers.Controller.OnTransferEvent: the device object's verdict and the end of its initialization are parameters, as in `Dispatch.RunDispatches`.
- Dispatch.RunDispatches: the command ring lies below 2^64, and the completion code of a command event is not read, as in the code.
- Device removal: the code has no recovery path to model.
- Controller reset, BIOS hand-off, port registers' timing, doorbells and MSI set-up: hardware effects.
- Segment and interrupt tables, assembly routines and boot services: foreign code or one-shot field packing.
- Console, fonts, logging and the mouse cursor: user interface.
