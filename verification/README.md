# ESP-Hosted slave transport: a verified model

A Dafny model of the slave-side transport and control path of ESP-Hosted, with proofs about
every input, every run and every interleaving. `dafny verify dfyconfig.toml` checks it.

## What is modelled

Concurrent parts are state machines. A step is one queue, semaphore or pin operation, or
one stretch of code that touches nothing shared; any number of tasks interleave. Each main
state machine has a class beside it whose methods update queues, counters, flags and
buffers in place, as the tasks do, and are proved to take exactly the machine's steps; its
method `Play` runs any schedule on the fields. `FlowCtrl` and `SpiThrottleTasks` are on
values only. History fields record what was pushed, written, freed or handed over, so the
theorems can speak about whole runs.

| modules | part of the system |
|---|---|
| `SendPath`, `SendPathProof`, `SendPathResults`, `SendOrder`, `SendFlow`, `SendTasks` | the two-level priority send path: three data queues, the meta queue, send_task, what overtakes what, the data path's opening and closing, the fragmenter and the lifetime of its heap block |
| `Mailbox`, `RxPath`, `RxSchedule`, `RxFlow`, `FlowCtrl`, `RxTasks` | receive queues with their counting semaphore, and the throttling of the SDIO and SPI half-duplex drivers with the commands it gives the host (in the UART driver a compile-time switch leaves throttling out; a high threshold of 0 has the same effect) |
| `Mempool` | the free-list block pool, with the list threaded through the managed memory |
| `SpiDriver`, `SpiDriverProof`, `SpiDriverResults`, `SpiSignal`, `SpiPool`, `SpiChain`, `SpiOrder`, `SpiPolls`, `SpiTasks` | the SPI driver's use of the pool, the sizes the pool needs, the order of its frames, its transaction chain and its data-ready line; `SpiTasks` runs on the allocator of `Mempool` |
| `SpiThrottle`, `SpiThrottleTasks` | the throttle command in the SPI headers, for one task and for several |
| `Frame`, `UartStream`, `UartBytes`, `UartOffset`, `SpiFrame` | the 12-byte frame header, its checksum, the UART byte stream, the frames of the SPI driver |
| `Tlv`, `TlvWire`, `SerialSlot`, `SerialResults`, `SerialTasks` | the endpoint/data element codec with the host's reading of it, the reassembly slot and its two tasks |
| `Ipv4Text`, `Ipv4Print`, `Ipv4Digits` | the host's IPv4 text parser and printer |
| `SpiHdCounter` | the SPI half-duplex length register, with the host task that reads it |
| `Transport`, `Arithmetic` | shared types, and lemmas on products and quotients |

Integer widths are explicit: 8, 16 and 32-bit values are bounded types and every wrap is
written as a remainder. Machines are little-endian. Queue and semaphore calls with
portMAX_DELAY succeed once they can, and block until then. malloc succeeds, except that a
block pool can run out.

## Where the code does not do what one might expect

- Serial priority. A token stands for a class, not for a buffer. With two tasks that send
  serial buffers (pserial_task and, in the half-duplex driver, flow_ctrl_task) a published
  serial buffer can wait behind a Wi-Fi buffer. `OvertakesExactly` gives the
  systems in which it cannot.
- Throttling. With a low threshold of 0 and a high threshold between 1 and 99, throttling
  can stay on for ever after the traffic has ended (`ThrottlingSettlesExactly`). With a low
  threshold of at least 1, the command to start can reach the host after the command to stop
  (`HostMisledExactly`). `NoSafeThrottling` puts the two together.
- SPI data-ready. The failed semaphore take and the clearing of the line are two steps; a
  writer between them loses its signal until the line is next raised. `SignalledExactly`
  gives the exact schedules.
- SPI pool. The queues can hold more blocks than the pool has, and the code asserts that its
  allocations succeed. `PoolSufficesExactly` gives the size that is enough, and
  `ChainLastsExactly` the size with which the driver never runs out of transactions.
- SPI throttling. A task that sampled a full queue can set the flag after another one found
  the queue empty and cleared it. `ReleasedExactly` gives the systems in which it cannot.
- SPI half-duplex data-ready. A transaction loaded between the host's register read and its
  CMD9 loses its edge; `SleepsOnDataExactly` says the host sleeps on data exactly then.
- Reassembly. The room for a fragment is computed before the wait for the slot, so a fragment
  that arrives before the previous message is read is cut to the room beside that message.
  `EndToEndExactly` says that messages survive exactly if every fragment fits that room.
- Sequence numbers. The fragmenter takes a new number per fragment, the reassembler wants one
  per message. They are used in opposite directions and are not composed here.
- IPv4. The comment of the parser says that a leading 0 means octal, but the digits 8 and 9
  pass; numbers wrap at 32 bits instead of being refused (`RightExactly`,
  `WrappedPartAccepted`). The comment of the printer says that its argument is in network
  order, but it prints the most significant byte of the integer first. The model follows the
  code in each case.
- Pool memory supplied by the caller is measured in unaligned blocks
  (`StaticMemoryFitsExactly`).

## Model

| member | source | states |
|---|---|---|
| `SendPathProof.InvNext` | esp-hosted/slave/main/app_main.c:285-301 | Every step of any producer or of send_task keeps the whole invariant: token accounting, serial tokens first, per-class order, bookkeeping of calls, single release of heap blocks. |
| `SendPathProof.InvRun` | esp-hosted/slave/main/app_main.c:594-617 | The invariant holds after every run, for any number of producers interrupted between their two pushes. |
| `SendPathResults.TokensMatchBuffers` | esp-hosted/slave/main/app_main.c:594-617 | In every interleaving a data queue holds one buffer per token in the meta queue, per producer between its pushes and per token in send_task's hands; so the data receive after a token never blocks and a token push never meets a full meta queue. |
| `SendPathResults.DeliveredInOrder` | esp-hosted/slave/main/app_main.c:260-301 | Per class, the buffers handled, in hand and queued are exactly the buffers pushed, in order; with the data path never closed everything handled was written. |
| `SendPathResults.SerialOvertakes` | esp-hosted/slave/main/app_main.c:605-608 | The meta queue is serial tokens, then others; when a token of another class is at the front, the serial buffers still queued are as many as the serial producers between their two pushes. |
| `SendOrder.PublishedBuffersCounted` | esp-hosted/slave/main/app_main.c:594-617 | In every reachable state and for every class, the published buffers in a data queue number the tokens of the class, queued or held, plus the producers whose buffer send_task received before they pushed their token. |
| `SendOrder.OvertakenExactly` | esp-hosted/slave/main/app_main.c:285-301 | When a token of another class is at the front, no published serial buffer is left behind if and only if send_task has received no serial buffer whose producer has still to push the token. |
| `SendOrder.OvertakesExactly` | esp-hosted/slave/main/app_main.c:594-617 | In all runs a published serial buffer overtakes every buffer of another class whose token is not taken, if and only if at most one task sends serial buffers, or no task sends any other, or the data queue has room for one only. |
| `SendOrder.NotOvertaken` | esp-hosted/slave/main/spi_hd_slave_api.c:256-274 | For any queue size above 1, any two tasks that send serial buffers and any task but the first that sends others, a run after which a published serial buffer of an idle task waits behind a token of another class. |
| `SendPathResults.NoUseAfterFree` | esp-hosted/slave/main/app_main.c:635-663 | No buffer queued, being written or still to be pushed points into a heap block that has been freed. |
| `SendPathResults.DrainedDeliversAll` | esp-hosted/slave/main/app_main.c:260-301 | Once the path is drained, each class was handled as pushed, each call in full, and a call's heap block was freed exactly once if its last buffer owns it and never otherwise. |
| `SendPathResults.WorkNext` | esp-hosted/slave/main/app_main.c:285-301 | Each step of the path's own removes exactly one unit of outstanding work. |
| `SendPathResults.SomeStep` | esp-hosted/slave/main/app_main.c:290-300 | While the data path is open and work remains, some step of the path is enabled: no deadlock. |
| `SendPathResults.DrainsInExactlyWork` | esp-hosted/slave/main/app_main.c:285-301 | From any reachable state with the data path open, the path's own steps number at most the outstanding work, and after exactly that many the path is drained. |
| `SendFlow.WrittenWhileOpen` | esp-hosted/slave/main/app_main.c:260-275 | In every run, per class: exactly the buffers processed while the schedule has the data path open are written, in order; the open state is the initial one as the opening and closing steps change it. |
| `SendFlow.OwnerHandledIsFreed` | esp-hosted/slave/main/app_main.c:263-280 | In every run, the heap block of a buffer that owns one is freed once the buffer is done with, whether it was written or dropped. |
| `SendFlow.ClosedHoldsBack` | esp-hosted/slave/main/app_main.c:290-298 | While the data path stays closed, send_task takes no token but the one it was waiting for, and nothing is written. |
| `SendFlow.OtherTokensInOrder` | esp-hosted/slave/main/app_main.c:605-608 | In every run the tokens of the two other classes are taken in the order in which they were given. |
| `SendTasks.TransmitPath.Play` | esp-hosted/slave/main/app_main.c:285-301 | Any schedule, run on the fields in place, ends in the state of the corresponding run and keeps the invariant. |
| `SendTasks.SerialWriteData` | esp-hosted/slave/main/app_main.c:619-663 | The fragmenting loop sends exactly the cut of the message, and leaves the sequence counter at the last fragment's number. |
| `SendTasks.CutCarries` | esp-hosted/slave/main/app_main.c:635-646 | The fragments carry the message's bytes in order, at most 1500 each; only the last ends the message and owns its heap block. |
| `SendTasks.CutSizes` | esp-hosted/slave/main/app_main.c:635-646 | All fragments but the last carry 1500 bytes, the last one the rest, not empty unless the message is; all are of class 0. |
| `SendTasks.CutNumbers` | esp-hosted/slave/main/app_main.c:624-633 | Fragment i of a message has the i-th next sequence number, modulo 2^16: one number per fragment. |
| `SendTasks.MessageArrivesWhole` | esp-hosted/slave/main/app_main.c:619-663 | Fragmenter and send path together: once drained, the transport was given the message's bytes whole and in order, and its heap block was freed once. |
| `RxPath.InvNext` | esp-hosted/slave/main/sdio_slave_api.c:491-510 | Every step of the rx task or the reader keeps the semaphore accounting, the per-class order and the throttling facts. |
| `RxPath.SemaphoreTracksQueues` | esp-hosted/slave/main/uart_slave_api.c:310-335 | Total queue length is the semaphore count plus one if the writer has filed but not given, plus one if the reader has taken but not received; so giving never saturates and the reader's last poll never comes back empty. |
| `RxPath.ReceivedInOrder` | esp-hosted/slave/main/sdio_slave_api.c:500-505 | Per class, what the reader received followed by what is queued is exactly what was filed, in order. |
| `RxPath.AccountedNext` | esp-hosted/slave/main/sdio_slave_api.c:118-163 | With a low threshold of at least 1, no step leaves throttling on without a frame queued, a frame about to be queued, or a stop check under way. |
| `RxSchedule.ThrottlingByLoads` | esp-hosted/slave/main/sdio_slave_api.c:118-163 | Over whole runs, in the frames filed and received: when no store of the flag is pending, throttling is on if and only if some start check met 100 * load / q over the high threshold and no stop check after it met one under the low threshold. |
| `RxSchedule.PercentMeans` | esp-hosted/slave/main/sdio_slave_api.c:135-136 | The percentage is over a threshold t exactly if 100 * load is at least q * (t + 1), and under it exactly if 100 * load is below q * t. |
| `RxSchedule.EveryFrameIsChecked` | esp-hosted/slave/main/sdio_slave_api.c:118-163 | In every run each frame that arrives is tested once before it is filed, with the load measured exactly if there is a high threshold and throttling is off; each frame received is followed by one stop test, with the load read exactly if throttling is on. |
| `RxSchedule.FiledByType` | esp-hosted/slave/main/sdio_slave_api.c:575-581 | In every run queue 0 gets the frames of interface type 3, queue 1 those of type 4, queue 2 all others. |
| `RxSchedule.PolledInOrder` | esp-hosted/slave/main/sdio_slave_api.c:500-505 | When the reader, since its take, has come to a queue, every queue before it is empty but for frames filed since. |
| `RxPath.ThrottlingSettlesExactly` | esp-hosted/slave/main/sdio_slave_api.c:118-163 | Over all runs, throttling is off whenever everything is drained and both tasks rest, if and only if the low threshold is at least 1 or the high threshold is 0 or at least 100. |
| `RxPath.StuckRun` | esp-hosted/slave/main/spi_hd_slave_api.c:276-320 | For every other configuration and any frame with data for the OTHERS queue, a run of such frames after which throttling stays on with nothing left to clear it. |
| `RxFlow.FollowsNext` | esp-hosted/slave/main/spi_hd_slave_api.c:292-297 | Every step keeps track of how far the latest start has got and whether a stop has passed it. |
| `RxFlow.HostMisledExactly` | esp-hosted/slave/main/sdio_slave_api.c:135-140 | When all is drained and both tasks rest, the last command for the host disagrees with current_throttling if and only if a whole stop, both its stores, came between the two stores of the latest start. |
| `RxFlow.AlwaysToldExactly` | esp-hosted/slave/main/spi_hd_slave_api.c:276-320 | In all runs the two agree whenever idle if and only if the low threshold is 0 or the high threshold is 0 or at least 100. |
| `RxFlow.NoSafeThrottling` | esp-hosted/slave/main/spi_hd_slave_api.c:276-320 | Throttling that always settles and a host that always hears of it come together exactly in the configurations that never throttle. |
| `RxFlow.MisledRun` | esp-hosted/slave/main/sdio_slave_api.c:154-161 | For every other configuration and any such frame, a run after which the host is held back although current_throttling is clear. |
| `FlowCtrl.LastSentIsLastStored` | esp-hosted/slave/main/spi_hd_slave_api.c:256-274 | In every run of the storing tasks, their semaphore gives and flow_ctrl_task: whenever no give is due, the binary semaphore is taken and the task waits, the last frame sent carried the value stored last. |
| `FlowCtrl.FramesAreCalledFor` | esp-hosted/slave/main/spi_hd_slave_api.c:256-274 | Each store leads to one semaphore give, and no more frames are sent than there were gives. |
| `FlowCtrl.HostMisledByFrames` | esp-hosted/slave/main/spi_hd_slave_api.c:256-320 | With all drained and quiet, the command in the last flow-control frame disagrees with current_throttling if and only if a whole stop came between the two stores of the latest start. |
| `RxPath.PercentFits` | esp-hosted/slave/main/sdio_slave_api.c:135 | The load percentage fits the 8-bit variable without truncation. |
| `Mailbox.GiveKeeps` | esp-hosted/slave/main/spi_slave_api.c:828-839 | With the accounting in place, giving a counting semaphore of three times the queue size never meets the limit. |
| `Mailbox.PollKeeps` | esp-hosted/slave/main/spi_slave_api.c:950-957 | A receiver that took the semaphore finds an item in the remaining queues, although its polls are separate steps. |
| `RxTasks.RxDriver.Play` | esp-hosted/slave/main/sdio_slave_api.c:512-585 | Any schedule on the fields in place: the reader never reports an empty mailbox, and with a low threshold of at least 1 throttling is off whenever both tasks are idle. |
| `Mempool.OsMempool.Init` | esp-hosted/slave/main/mempool_ll.c:69-125 | The error cases; otherwise the free list visits all blocks in address order and ends in NULL, and nothing is allocated; a pool of no blocks has nothing free but a list head at its buffer. |
| `Mempool.OsMempool.Clear` | esp-hosted/slave/main/mempool_ll.c:145-182 | Every block is back in the free list and the low-water history restarts. |
| `Mempool.OsMempool.ChainBlocks` | esp-hosted/slave/main/mempool_ll.c:108-120 | The chaining loop links the blocks base + k * true size, k ascending, each once, NULL at the end. |
| `Mempool.OsMempool.Get` | esp-hosted/slave/main/mempool_ll.c:237-268 | NULL exactly when every block is allocated; otherwise a pool block nobody held, removed from the front of the free list, with the low-water mark still the least count in the history. |
| `Mempool.OsMempool.Put` | esp-hosted/slave/main/mempool_ll.c:270-291 | An allocated block returns to the front of the free list; the allocated set loses exactly it. |
| `Mempool.OsMempool.HolderWrites` | esp-hosted/slave/main/mempool_ll.c:280-282 | A holder may overwrite its block, link word included, without harm to the free list. |
| `Mempool.OsMempool.MemblockFrom` | esp-hosted/slave/main/mempool_ll.c:210-235 | 1 exactly for the start address of one of the pool's blocks. |
| `Mempool.OsMempool.IsSane` | esp-hosted/slave/main/mempool_ll.c:194-208 | The walk over the free list terminates and finds only pool blocks. |
| `Mempool.OsMempool.PartsAddUp` | esp-hosted/slave/main/mempool_ll.c:237-291 | Allocated blocks and the free count add up to the number of blocks. |
| `Mempool.ClientStep` | esp-hosted/slave/main/mempool_ll.c:237-305 | One action changes free list, holdings and history of free counts exactly so: a get serves the first free block, a put of a held block puts it first, a write changes nothing, a clear restores address order and restarts the history. |
| `Mempool.Client` | esp-hosted/slave/main/mempool_ll.c:145-305 | After any list of actions, free list, holdings and history are those the actions make of the initial ones; the recorded low-water mark is the least of the history; the sanity walk succeeds after every action. |
| `Mempool.BlocksShared` | esp-hosted/slave/main/mempool_ll.c:237-291 | After any actions, held and free blocks are disjoint, each free block listed once, and together they are the pool. |
| `Mempool.LowWaterMark` | esp-hosted/slave/main/mempool_ll.c:256-258 | From a fresh pool, after any actions, the least recorded count is the least number of free blocks there was at any moment since the last clear. |
| `Mempool.InBlocks` | esp-hosted/slave/main/mempool_ll.c:222-234 | The range and remainder tests hold exactly for the addresses base + k * size, k < n. |
| `Mempool.PoolGeometry` | esp-hosted/slave/main/mempool_ll.h:228-238 | OS_MEMPOOL_BYTES is n times the aligned block size, which is the next multiple of 4; the blocks lie inside the allocated buffer and do not overlap; the buffer's own rounding adds 1 to 4 bytes. |
| `Mempool.StaticMemoryFitsExactly` | esp-hosted/slave/main/mempool.c:42-48 | The size test for caller-supplied memory guarantees room for all blocks if and only if the block size is a multiple of the alignment. |
| `SpiDriverProof.InvNext` | esp-hosted/slave/main/spi_slave_api.c:605-709 | Every step of a writer, the post-process task, the reader or the host keeps block conservation, both semaphore accounts and the transaction chain. |
| `SpiDriverResults.BlocksConserved` | esp-hosted/slave/main/spi_slave_api.c:131-188 | Every pool block is free or in exactly one queue, transaction or task; releases match allocations one for one. |
| `SpiDriverResults.OneTransaction` | esp-hosted/slave/main/spi_slave_api.c:605-631 | Until a dummy buffer could not be allocated, exactly one transaction is queued, finished or being prepared; afterwards none ever again. |
| `SpiDriverResults.SemaphoresTrackQueues` | esp-hosted/slave/main/spi_slave_api.c:950-957 | Both semaphores count announced buffers: neither saturates, and a task that took one always finds a buffer. |
| `SpiDriverResults.SignalLostExactly` | esp-hosted/slave/main/spi_slave_api.c:397-425 | Only the clearing of the data-ready line can make waiting data invisible to the host, and only while no writer is between its give and its set. |
| `SpiSignal.LostAtExactly` | esp-hosted/slave/main/spi_slave_api.c:397-425 | In any run, a step loses the signal if and only if it lowers the line, a writer has given the semaphore since the failed take before it, and no writer is between its give and its set. |
| `SpiSignal.SignalledExactly` | esp-hosted/slave/main/spi_slave_api.c:397-425 | Over a whole run, waiting data is signalled at every moment if and only if there is no such step. |
| `SpiSignal.GaveBetween` | esp-hosted/slave/main/spi_slave_api.c:397-425 | Behind a take, the condition asks only whether one of the steps between the take and the clearing gives the semaphore. |
| `SpiSignal.LineByLastStep` | esp-hosted/slave/main/spi_slave_api.c:423-425 | In every run the line is high exactly if a writer set it and the post task has not cleared it since. |
| `SpiPool.PoolSufficesExactly` | esp-hosted/slave/main/spi_slave_api.c:131-188 | No run leads to a state where a task that allocates finds no block, if and only if the pool has more than 3 TX + 3 RX + writers + 4 blocks, for transmit and receive queues of TX and RX entries. |
| `SpiPool.ConfiguredPoolStarves` | esp-hosted/slave/main/spi_slave_api.c:131 | TX + RX + 6 blocks, the driver's own sizing, are never enough for that. |
| `SpiPool.StarvingRun` | esp-hosted/slave/main/spi_slave_api.c:619-622 | For every smaller pool, a run to a state where an idle writer, on its next call, finds no block. |
| `SpiPool.SizedNext` | esp-hosted/slave/main/spi_slave_api.c:131-188 | Every step keeps the number of free blocks plus the number of places that hold one equal to the pool size. |
| `SpiChain.ChainLastsExactly` | esp-hosted/slave/main/spi_slave_api.c:428-435 | In no run does the chain of transactions end for want of a dummy buffer, if and only if the pool has at least 3 TX + 3 RX + writers + 4 blocks. |
| `SpiChain.EndingRun` | esp-hosted/slave/main/spi_slave_api.c:605-617 | For every smaller pool, a run that ends the chain. |
| `SpiOrder.FramesKeepOrder` | esp-hosted/slave/main/spi_slave_api.c:605-709 | In every run: per class, the buffers chosen for sending followed by those queued are those written, in order; each transaction carries the next buffer chosen; transactions finish in the order queued and their receive buffers are examined in that order; per class, what the reader received followed by what is queued is what was filed. |
| `SpiPolls.SendsInOrder` | esp-hosted/slave/main/spi_slave_api.c:397-402 | When the post task, since its take, has come to a transmit queue, every queue of an earlier class is empty but for frames written since. |
| `SpiPolls.ReadsInOrder` | esp-hosted/slave/main/spi_slave_api.c:950-957 | The same for the reader and the receive queues. |
| `SpiDriverResults.SignalledRun` | esp-hosted/slave/main/spi_slave_api.c:923-933 | A run without such a step keeps waiting data signalled. |
| `SpiDriverResults.WaitingDataIsSignalled` | esp-hosted/slave/main/spi_slave_api.c:397-425 | If each failed take and its data-ready clear are one step, a positive transmit semaphore means that the line is high or a writer is about to raise it. |
| `SpiDriverResults.SignalCanBeLost` | esp-hosted/slave/main/spi_slave_api.c:397-425 | In any driver with a block and a writer, a run from its start in which the signal is lost. |
| `SpiDriverProof.UsedIsAllocated` | esp-hosted/slave/main/mempool_ll.c:270-291 | A block in use anywhere in the driver is a pool block and not free, so releasing it meets the allocator's unchecked precondition. |
| `SpiTasks.SpiSlave.AllocTx` | esp-hosted/slave/main/spi_slave_api.c:896-897 | A writer's transmit buffer comes from the allocator, nobody else holds it. |
| `SpiTasks.SpiSlave.EnqueueTx` | esp-hosted/slave/main/spi_slave_api.c:923-928 | The buffer joins the transmit queue of its class. |
| `SpiTasks.SpiSlave.TryTakeTx` | esp-hosted/slave/main/spi_slave_api.c:397 | The non-blocking take decides between polling and the idle branch. |
| `SpiTasks.SpiSlave.PollTxQueue` | esp-hosted/slave/main/spi_slave_api.c:398-402 | One of the three polls of the transmit queues. |
| `SpiTasks.SpiSlave.AllocDummyTx` | esp-hosted/slave/main/spi_slave_api.c:428-435 | A dummy buffer, or no transaction at all when the pool is empty. |
| `SpiTasks.SpiSlave.AllocRxBuffer` | esp-hosted/slave/main/spi_slave_api.c:620-622 | The receive buffer of the next transaction. |
| `SpiTasks.SpiSlave.QueueTransaction` | esp-hosted/slave/main/spi_slave_api.c:624-630 | The transaction joins the hardware queue. |
| `SpiTasks.SpiSlave.FreeTxBuffer` | esp-hosted/slave/main/spi_slave_api.c:687-688 | The transmit buffer of the finished transaction returns to the allocator, which holds it as allocated. |
| `SpiTasks.SpiSlave.DropRxBuffer` | esp-hosted/slave/main/spi_slave_api.c:695-702 | A refused receive buffer returns to the allocator. |
| `SpiTasks.SpiSlave.FileRxBuffer` | esp-hosted/slave/main/spi_slave_api.c:505-511 | An accepted receive buffer joins the queue of its class. |
| `SpiTasks.SpiSlave.ReadDone` | esp-hosted/slave/main/spi_slave_api.c:939-941 | The reader's buffer returns to the allocator. |
| `SpiTasks.SpiSlave.Play` | esp-hosted/slave/main/spi_slave_api.c:633-709 | Any schedule, run in place on the real allocator, is a run of the driver and keeps the driver's and the pool's invariants. |
| `SpiThrottle.HysteresisExactly` | esp-hosted/slave/main/spi_slave_api.c:214-242 | After any run of calls, the throttle flag is on if and only if some load exceeded the high threshold and neither it nor any later load was below the low threshold. |
| `SpiThrottle.EmptyQueueReleases` | esp-hosted/slave/main/spi_slave_api.c:236-239 | With a low threshold of at least 1, a call that nobody interrupts says go on if nothing waits. |
| `SpiThrottle.ThrottleState.FindWifiTxThrottling` | esp-hosted/slave/main/spi_slave_api.c:214-242 | The command is the flag over the loads examined so far; 0 for a load under the low threshold, 1 for one over the high threshold, as before for any other; without a high threshold it is 0 and nothing is examined. |
| `SpiThrottleTasks.ReleasedExactly` | esp-hosted/slave/main/spi_slave_api.c:214-242 | With any number of tasks in the function at once, in all runs: once a header was written on finding the queue empty, and nothing was queued since, the last command is to go on whenever no call is under way; this holds if and only if nobody calls, or the high threshold is 0 or at least 100, or the low one is above 100, or one task calls and the low threshold is at least 1. |
| `SpiThrottleTasks.LateStore` | esp-hosted/slave/main/spi_slave_api.c:231-241 | For two tasks and any other thresholds with a low one of at least 1, a run after which the host stays held back. |
| `SpiThrottleTasks.KeepsNext` | esp-hosted/slave/main/spi_slave_api.c:214-242 | Every step of the tasks keeps the facts behind this. |
| `SpiThrottleTasks.SoloCall` | esp-hosted/slave/main/spi_slave_api.c:214-242 | A call that nothing interrupts clears the flag for a load under the low threshold, sets it for one over the high threshold, leaves it otherwise, and writes what it then is. |
| `Frame.ComputeChecksum` | esp-hosted/common/include/adapter.h:260-271 | The 16-bit loop terminates for every length and returns the byte sum modulo 2^16. |
| `Frame.ChecksumDetects` | esp-hosted/common/include/adapter.h:260-271 | Changing any one byte changes the checksum. |
| `Frame.DecodeBlank` | esp-hosted/common/include/adapter.h:123-141 | A reader of the header gets back type, number, flags, sequence number, throttle command and payload. |
| `Frame.WireLayout` | esp-hosted/common/include/adapter.h:123-141 | Each field of a frame at its byte: interface, flags, length, offset 12, checksum, sequence number, throttle bits; low byte first; byte 11 and the reserved bits zero; then the payload. |
| `Frame.ChecksumIsSum` | esp-hosted/common/include/adapter.h:260-271 | The checksum is the sum of the bytes modulo 2^16. |
| `Frame.AcceptedExactlyIntact` | esp-hosted/slave/main/uart_slave_api.c:272-283 | Zeroing the checksum field and summing accepts a frame with at most one byte changed, outside len and offset, if and only if nothing was changed. |
| `SpiFrame.ProcessSpiRx` | esp-hosted/slave/main/spi_slave_api.c:452-511 | For every 1600-byte buffer: it is filed if and only if its length is not zero, length plus offset is at most 1600, and the sum of those bytes but the checksum's is the checksum; with the field cleared, the interface of byte 0, the whole length, in queue 0 for type 3, 1 for type 4 and 2 for others. |
| `SpiFrame.AcceptedExactly` | esp-hosted/slave/main/spi_slave_api.c:471-491 | The same if and only if, as a property of every buffer. |
| `SpiFrame.EmptyIsDropped` | esp-hosted/slave/main/spi_slave_api.c:471-472 | A buffer with a zero length, such as the host's dummy buffer, is dropped. |
| `SpiFrame.EspSpiWrite` | esp-hosted/slave/main/spi_slave_api.c:861-928 | An empty frame, or one of more than 1600 bytes, is refused; otherwise the block holds the encoded frame and zeros, goes to the queue of its interface type, with its length rounded up to a multiple of 4. |
| `SpiFrame.WrittenIsAccepted` | esp-hosted/slave/main/spi_slave_api.c:867-928 | What the writer builds passes the receiver's tests and decodes to the packet. |
| `SpiFrame.AcceptsExactlyIntact` | esp-hosted/slave/main/spi_slave_api.c:467-491 | A frame with payload at the start of a receive buffer with any other content is accepted exactly if intact, with its type, number and length. |
| `UartStream.HUartWrite` | esp-hosted/slave/main/uart_slave_api.c:344-399 | The bytes written are the encoding of the packet; an inactive interface or an empty packet without flow control is refused. |
| `UartStream.CheckFrame` | esp-hosted/slave/main/uart_slave_api.c:272-300 | The checksum test in the scratch buffer, and what is delivered. |
| `UartStream.ReadFrame` | esp-hosted/slave/main/uart_slave_api.c:247-317 | One round of the receive loop on the scratch buffer in place. |
| `UartStream.UartRxTask` | esp-hosted/slave/main/uart_slave_api.c:218-319 | The receive loop on a byte stream delivers what the specification of its rounds says, from any scratch content. |
| `UartStream.OneFrame` | esp-hosted/slave/main/uart_slave_api.c:246-318 | A frame in front of any stream is consumed whole and delivered exactly if intact. |
| `UartStream.StreamRoundTrip` | esp-hosted/slave/main/uart_slave_api.c:246-318 | For every list of frames, each intact or with one byte changed outside len and offset, the loop delivers exactly the intact ones in order and reads the stream to its end. |
| `UartBytes.FrameJudged` | esp-hosted/slave/main/uart_slave_api.c:247-300 | For every stream and scratch content: a frame within bounds is delivered if and only if the sum over its bytes in the scratch buffer but the checksum's is the checksum, and the loop goes on behind it. |
| `UartBytes.OversizeSkipped` | esp-hosted/slave/main/uart_slave_api.c:258-262 | A header that announces more than 1588 bytes is skipped, and only the header. |
| `UartBytes.Incomplete` | esp-hosted/slave/main/uart_slave_api.c:248-270 | A stream that ends inside a header or a payload leaves the task blocked with nothing delivered from it. |
| `UartBytes.MisplacedFaults` | esp-hosted/slave/main/uart_slave_api.c:264-265 | A payload that would leave the scratch buffer is reported as the fault. |
| `UartOffset.OffsetDamageKeepsStep` | esp-hosted/slave/main/uart_slave_api.c:256-270 | The same for lists in which frames may also have a byte of the offset changed, within the scratch buffer: the loop stays in step, every intact frame is delivered, every other damaged one dropped, and a displaced one is judged on the scratch buffer as it then is. |
| `UartOffset.LandedAt` | esp-hosted/slave/main/uart_slave_api.c:264-265 | Each byte of the scratch buffer under a displaced frame: payload where it landed, else header, else what an earlier frame left. |
| `UartOffset.PassesExactly` | esp-hosted/slave/main/uart_slave_api.c:272-283 | A frame displaced behind its header is delivered if and only if the changed offset byte and the exchange of payload for stale bytes cancel in the sum modulo 2^16. |
| `UartOffset.PassedIsWrong` | esp-hosted/slave/main/uart_slave_api.c:272-291 | Such a frame is never delivered with the payload that was sent. |
| `UartStream.DeliveredPacket` | esp-hosted/slave/main/uart_slave_api.c:290-300 | What is delivered for a written packet decodes to that packet. |
| `Tlv.ComposeTlv` | esp-hosted/slave/main/protocomm_pserial.c:76-118 | The buffer filled by the running index is the two elements, type, length and value each. |
| `TlvWire.ComposedBytes` | esp-hosted/slave/main/protocomm_pserial.c:97-113 | Byte by byte: type 1, the length of the name low byte first, the name, type 2, the length of the data, the data. |
| `TlvWire.HostParse` | esp-hosted/host/drivers/virtual_serial_if/serial_if.c:82-127 | The host's parser: the name element first, with one of its two names, then the data element, whose length it returns. |
| `TlvWire.HostReads` | esp-hosted/host/drivers/virtual_serial_if/serial_if.c:82-127 | The host finds the data of a composed message, with its length, if and only if it bears one of the two names. |
| `Tlv.ReqHandler` | esp-hosted/slave/main/protocomm_pserial.c:120-162 | The parse loop with its 16-byte name buffer yields the request, the failure or the overrun its specification gives. |
| `TlvWire.ElementsParsed` | esp-hosted/slave/main/protocomm_pserial.c:138-162 | Any list of data elements and of name elements of at most 14 bytes, in any order and number: each name is laid over those before it, the last data counts, and it fails only without a name or without data. |
| `TlvWire.UnknownFails` | esp-hosted/slave/main/protocomm_pserial.c:141-156 | A longer name, or any other type, fails the message whatever follows. |
| `TlvWire.CutShortIsOutside` | esp-hosted/slave/main/protocomm_pserial.c:56-74 | An element cut short leads outside the buffer. |
| `Tlv.ComposeThenParse` | esp-hosted/slave/main/protocomm_pserial.c:56-162 | For a name without zeros and data within the 16-bit length: parsing a composed message gives both back if the name has 1 to 14 characters and the data is not empty, and fails otherwise. |
| `Tlv.RoundTripExactly` | esp-hosted/slave/main/protocomm_pserial.c:56-162 | For every C string that the 16-bit index has room for and data of any size, parsing what was composed gives both back if and only if the name has 1 to 14 characters and the data 1 to 65535 bytes. |
| `SerialSlot.ProcessedGathers` | esp-hosted/slave/main/app_main.c:347-366 | The branches of the fragment handling on a slot that holds a partial message do what the reference reassembly does to that message. |
| `SerialSlot.HandshakeNext` | esp-hosted/slave/main/app_main.c:340-345 | Every step keeps: valid is set exactly while one request is pending, and its copy is the slot's content. |
| `SerialSlot.InvNext` | esp-hosted/slave/main/app_main.c:326-367 | Every step of recv_task, pserial_task or an event sender keeps the handshake and the slot's meaning. |
| `SerialResults.SlotHandshake` | esp-hosted/slave/main/app_main.c:580-592 | Over all runs the slot length stays within 4096, valid is set exactly while one hand-over is being queued, is queued or is taken but not read, and a reader with a request finds the bytes handed over. |
| `SerialResults.HandOversAreGathered` | esp-hosted/slave/main/protocomm_pserial.c:221-254 | Over all runs every hand-over is read once, in order, and equals the reference reassembly of the stored fragments. |
| `SerialResults.ServedInOrder` | esp-hosted/slave/main/protocomm_pserial.c:246-252 | Requests and events reach pserial_task in the order queued, each once. |
| `SerialResults.CallsCounted` | esp-hosted/slave/main/protocomm_pserial.c:290-297 | The request handler is called once for each hand-over read that is not empty. |
| `SerialResults.MismatchHandsOver` | esp-hosted/slave/main/app_main.c:352-357 | A sequence mismatch hands over the bytes gathered so far; and in every continuation the next read after the earlier hand-overs returns exactly those bytes, nothing of the new fragment. |
| `SerialResults.ReassemblyIsLossless` | esp-hosted/slave/main/app_main.c:336-366 | If every fragment arrived with valid clear and fits, the hand-overs are the reference reassembly of the fragments, uncut. |
| `SerialResults.StoredWholeExactly` | esp-hosted/slave/main/app_main.c:336-360 | Over a whole run nothing is cut if and only if every fragment fits the room computed when it arrived. |
| `SerialResults.EndToEndExactly` | esp-hosted/slave/main/app_main.c:326-367 | In every interleaving, for messages of any size cut anyhow: the hand-overs are exactly the messages if and only if every fragment fits the room computed when it arrived; and then the request handler is called with exactly their endpoints and data, in order. |
| `SerialResults.ClearIsRoomy` | esp-hosted/slave/main/app_main.c:340-345 | Fragments that arrive with valid clear, of messages that fit the slot, all fit their room. |
| `SerialResults.MessagesGather` | esp-hosted/slave/main/app_main.c:347-366 | The reference reassembles any cut of any messages, one number per message and MORE_FRAGMENT on all but the last fragment, into exactly their bodies. |
| `SerialResults.ControlMessagesEndToEnd` | esp-hosted/slave/main/protocomm_pserial.c:282-301 | Control messages that fit the slot, cut anyhow, each fragment arriving with valid clear, lead to one hand-over each, and the request handler is called with exactly their endpoints and data, in order. |
| `SerialResults.EarlyArrivalLost` | esp-hosted/slave/main/app_main.c:336-345 | For fragments no longer than a frame carries, a run in which a message arriving before the previous one is read loses what does not fit beside that one. |
| `SerialTasks.SerialPath.FragmentArrives` | esp-hosted/slave/main/app_main.c:326-336 | The room is computed from the slot as it is on arrival, before the wait. |
| `SerialTasks.SerialPath.ProcessSerialRxPkt` | esp-hosted/slave/main/app_main.c:347-366 | The slot fields and the data array are updated in place as specified. |
| `SerialTasks.SerialPath.SerialReadData` | esp-hosted/slave/main/app_main.c:580-592 | The caller's buffer gets the slot's bytes, at most as many as it asked for, and the slot is reset; an invalid slot and the buffer are left alone. |
| `SerialTasks.SerialPath.ServeArgument` | esp-hosted/slave/main/protocomm_pserial.c:282-301 | pserial_task reads the slot for a request and parses what it got; an event leaves the slot alone. |
| `SerialTasks.SerialPath.Play` | esp-hosted/slave/main/app_main.c:553-578 | Any schedule, run on the fields in place, ends in the state of the corresponding run and keeps the invariant. |
| `Ipv4Text.CollectDigits` | esp-hosted/host/utils/util.c:55-68 | The digit loop in 32-bit arithmetic yields what the specification of the scan says. |
| `Ipv4Text.ParseNumbers` | esp-hosted/host/utils/util.c:36-119 | The loop over the numbers, the trailing check and the range checks. |
| `Ipv4Text.ParsesExactlyForms` | esp-hosted/host/utils/util.c:36-119 | A text is accepted with value v if and only if it is one to four numerals (decimal, octal with 8 and 9, hexadecimal, each possibly without digits) with dots between, then end of text or whitespace and anything, whose 32-bit values are in range with weighted sum v. |
| `Ipv4Text.NumberIsValue` | esp-hosted/host/utils/util.c:48-68 | Each numeral is scanned to its end and yields its positional value modulo 2^32. |
| `Ipv4Text.ConcoctMeans` | esp-hosted/host/utils/util.c:91-114 | The four cases compute the weighted sum and refuse exactly the values out of range. |
| `Ipv4Text.RightExactly` | esp-hosted/host/utils/util.c:36-119 | For every dotted form, the answer is the one for the numbers as written if and only if all of them are below 2^32 or what 32 bits keep of them is out of range. |
| `Ipv4Digits.DecimalParses` | esp-hosted/host/utils/util.c:48-68 | Every 32-bit number in decimal digits parses to itself. |
| `Ipv4Digits.HexadecimalParses` | esp-hosted/host/utils/util.c:48-68 | So it does in hexadecimal digits of either case, behind 0x or 0X. |
| `Ipv4Digits.OctalParses` | esp-hosted/host/utils/util.c:48-68 | And in octal digits behind a 0. |
| `Ipv4Digits.LooseOctal` | esp-hosted/host/utils/util.c:55-60 | The digits 8 and 9 pass in octal and count as such. |
| `Ipv4Digits.PartsParse` | esp-hosted/host/utils/util.c:91-114 | Two, three or four decimal parts of any 32-bit size are accepted if and only if all but the last are below 256 and the last below what they leave of 2^32, with the value that gives. |
| `Ipv4Digits.FivePartsRefused` | esp-hosted/host/utils/util.c:75-79 | Five parts or more are refused. |
| `Ipv4Digits.TailDecides` | esp-hosted/host/utils/util.c:82-86 | Of the characters that do not continue a number, exactly NUL, tab, line feed, vertical tab, form feed, carriage return and space may follow it, whatever comes behind. |
| `Ipv4Text.GetIpaddrFromStr` | esp-hosted/host/utils/util.c:245-255 | The two byte swaps cancel: the answer is the parsed value in host order. |
| `Ipv4Text.SwapTwice` | esp-hosted/host/utils/common.c:61-76 | hton_long undoes itself on every 32-bit value. |
| `Ipv4Digits.SwapReverses` | esp-hosted/host/utils/common.c:61-76 | hton_long reverses the four bytes. |
| `Ipv4Print.InverseDigits` | esp-hosted/host/utils/util.c:145-151 | The do-while loop leaves the decimal digits of an octet in reverse order, one to three of them. |
| `Ipv4Print.AddrNtoa` | esp-hosted/host/utils/util.c:131-164 | NULL exactly when the buffer length is below text length plus one; otherwise the buffer starts with the text and its terminator; on failure it holds the part that fits; nothing beyond is touched. |
| `Ipv4Digits.AddressSpelled` | esp-hosted/host/utils/util.c:131-164 | The text is the four octets, most significant first, in decimal without leading zeros, with dots between them. |
| `Ipv4Print.DecimalDenotes` | esp-hosted/host/utils/util.c:145-151 | Decimal text denotes its number and has no leading zero. |
| `Ipv4Print.OverflowWraps` | esp-hosted/host/utils/util.c:55-68 | The decimal text of any number is accepted and read modulo 2^32. |
| `Ipv4Print.WrappedPartAccepted` | esp-hosted/host/utils/util.c:69-80 | A dotted form whose first part is 2^32 + a, with parts b, c and d, is accepted as a.b.c.d. |
| `Ipv4Print.PrintThenParse` | esp-hosted/host/utils/util.c:245-255 | For every 32-bit address, printing then parsing gives the address back. |
| `Ipv4Print.RoundTrip` | esp-hosted/host/utils/util.c:131-164 | Both functions on one buffer: the address comes back exactly if the buffer is long enough. |
| `SpiHdCounter.LoadedCounts` | esp-hosted/slave/main/spi_hd_slave_api.c:222-234 | cb_tx_ready adds the length modulo 2^24, keeps the interrupt bits, and leaves bits 26 to 31 zero. |
| `SpiHdCounter.DifferenceIsBacklog` | esp-hosted/host/drivers/transport/spi_hd/spi_hd_drv.c:537-538 | The host's masked 32-bit difference is the backlog modulo 2^24. |
| `SpiHdCounter.InvNext` | esp-hosted/slave/main/spi_hd_slave_api.c:222-254 | Every step of the callbacks and the host's read task keeps the counters and the data-ready accounting. |
| `SpiHdCounter.RegisterCountsBytes` | esp-hosted/slave/main/spi_hd_slave_api.c:222-254 | Over all runs the low 24 bits of the variable and of the register are the bytes loaded modulo 2^24. |
| `SpiHdCounter.FetchCatchesUpExactly` | esp-hosted/host/drivers/transport/spi_hd/spi_hd_drv.c:537-555 | A fetch catches up with the register read if and only if the backlog was below 2^24 bytes, and never runs ahead. |
| `SpiHdCounter.NothingLostWithoutOverrun` | esp-hosted/host/drivers/transport/spi_hd/spi_hd_drv.c:490-556 | With every backlog below 2^24 bytes, a host that is not busy has fetched exactly what was loaded at its last register read. |
| `SpiHdCounter.SleepsOnDataExactly` | esp-hosted/host/drivers/transport/spi_hd/spi_hd_drv.c:490-504 | The host's semaphore never exceeds one; it sleeps on unseen data without a pending wake-up if and only if the data was loaded between its register read and the CMD9 that followed. |
| `SpiHdCounter.DataCanWaitUnsignalled` | esp-hosted/slave/main/spi_hd_slave_api.c:245-254 | A run in which that happens, for any two transaction lengths. |
| `SpiHdCounter.Link.CbTxReady` | esp-hosted/slave/main/spi_hd_slave_api.c:222-237 | The callback on the variable and the register in place. |
| `SpiHdCounter.Link.SendCmd9` | esp-hosted/slave/main/spi_hd_slave_api.c:245-254 | CMD9 clears the interrupt bits and the data-ready line and keeps the length bits. |
| `SpiHdCounter.Link.HostFetches` | esp-hosted/host/drivers/transport/spi_hd/spi_hd_drv.c:537-555 | The host's transfer and counter update; a zero difference transfers nothing. |
| `SpiHdCounter.Link.Play` | esp-hosted/host/drivers/transport/spi_hd/spi_hd_drv.c:490-572 | Any schedule, run on the fields in place, is a run and keeps the invariant. |

## Left out

- SpiDriverResults.WaitingDataIsSignalled: for runs in which a failed take and the data-ready clear are one step; `SpiSignal.SignalledExactly` has all runs.
- UartStream.StreamRoundTrip: damage is one changed byte per frame outside the len and offset fields; `UartOffset.OffsetDamageKeepsStep` has the offset field; damage to the len field loses frame alignment, for which the loop has no recovery.
- UartOffset.PassesExactly: displaced frames that land behind their header; one that lands on it overwrites its own checksum or length, and `UartOffset.LandedAt` gives the bytes judged.
- UartStream.ReadFrame: a header whose offset puts the payload outside the scratch buffer is reported as a fault and not followed further.
- UartStream.HUartWrite: frames of up to 65535 bytes, the length the checksum loop can take, in a buffer allocated by size; a pool block holds 1600.
- UartStream.DeliveredPacket: payloads of up to 1588 bytes; a longer frame is dropped with its header and its payload is read as headers.
- Tlv.ComposeThenParse: data within the length field; `Tlv.RoundTripExactly` has all sizes.
- Tlv.ComposeTlv: names that fit the 16-bit index; the source composes for constant names of six characters.
- Tlv.ReqHandler: an element whose length leaves the buffer gives the outcome Outside; what the code then reads is not modelled.
- SendPathResults.NoUseAfterFree: heap blocks are named by the call that brought them, so reuse of an address by a later call is a new name.
- Mempool.OsMempool.Init: no blocks and no buffer together are excluded, because the code then writes a link through a null pointer. The other operations are stated for pools of at least one block. Address arithmetic does not wrap.
- SpiTasks.SpiSlave.AllocTx: asks for a free block; the code asserts that it got one, and `SpiPool.PoolSufficesExactly` says when it always does. The same holds for the receive buffer.
- RxFlow.HostMisledExactly: for the SDIO driver the command is the interrupt raised last; the host looks at START before STOP when both are pending, which is outside the claim.
- FlowCtrl.HostMisledByFrames: ends with the frames flow_ctrl_task hands to the send path; their way to the host is that of any serial buffer.
- SpiHdCounter.SleepsOnDataExactly: register reads and transfers succeed; the bus error paths of the host task are not modelled, and the slave code never sets the two interrupt bits.
- Extended pools and their put callbacks, memory poisoning, and the hosted_mempool wrapper beyond its buffer sizes.
- The pool of SPI transaction structures, which follows the life of a transaction.
- SpiThrottle.ThrottleState.FindWifiTxThrottling: taken as one step; `SpiThrottleTasks` takes its steps apart, on values. Changes of the thresholds while frames are in flight are not modelled.
- host_to_slave_reconfig, the private event messages and the startup event: field copying.
- The DUMMY_TRANS_DESIGN build of the SPI driver, the simplified SDIO build, driver reset and deinit, pins other than data-ready, interrupt latency and timing.
- Branches for failed allocation of fragments and requests, and for failed queue calls, which cannot fail with an unlimited wait.
- RPC handlers, protobuf packing, Wi-Fi, Bluetooth and OTA glue, statistics and logging: wrappers and display.
- SpiDriver is about blocks, not their contents: which queue a received block is filed in is a choice of the schedule there, and `SpiFrame.ProcessSpiRx` says what it is.
- The host side, except for the half-duplex read loop, the element parser of its serial interface and the IPv4 utilities.
