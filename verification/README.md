# Character drivers and a pointer list, modelled and proved

A Dafny model of the parts of the repository that carry real logic: in-memory structures of Linux example
drivers, the small concurrent protocols over them, and a doubly linked list.

| file | what it models |
|---|---|
| `Ring.dfy` | circular buffers as values |
| `PipeBuffer.dfy`, `PipeProtocol.dfy`, `PipeReopen.dfy`, `ReopenDeadlock.dfy` | the scull pipe: its ring updated in place, any number of readers and writers with semaphore, wait queues and unlocked looks, and opens in between |
| `ShortPrint.dfy` | the output half of shortprint: writers, the workqueue function, interrupts and timer |
| `Geometry.dfy`, `SparseFile.dfy`, `ScullDevice.dfy`, `ScullDriver.dfy` | scull storage: where a byte lives, the flat file it stands for, the list of arrays of blocks on the heap, several devices with ioctl and seek |
| `ScullClient.dfy` | programs that repeat a call until all is written or read |
| `SingleOpen.dfy`, `OwnerOpen.dfy`, `CloneList.dfy` | the access-controlled opens |
| `Snull.dfy`, `SnullPolling.dfy` | the snull twin interfaces: pools, queues, both interrupt handlers, poll; and polling in single steps |
| `Scullp.dfy`, `PageHistory.dfy` | scullp read, write and trim against the page-fault lookup, and what its zeroed pages hold |
| `PointerList.dfy` | the doubly linked list of `list/list.c` |

## How it is modelled

Code that updates fields in place is a class whose methods are proved against plain functions (`Fifo`, `File`,
`PageFile`, functions on sequences); what is promised is then proved of those. Concurrent code is a state
machine: a step is what one process does between two points where others can interfere, a script is any
sequence of possible steps, and the results hold after every script, for any number of processes. Signals and
faulting copies are steps the environment may take; in the sequential models `copies` says whether a copy to or
from user space succeeds and `memory` whether an allocation does. The scull allocator (`Slab`) may refuse any
allocation; its history variables record what is live and how often it refused, and freeing demands that the
object is live.

Findings, each stated as an exact condition:

- A scull pipe with a buffer of one byte can deadlock; any larger one cannot, while nobody opens it again
  (`DeadlockExactlyWithOneByte`).
- Opening a scull pipe of two bytes or more again empties the ring and wakes nobody. It forgets a writer exactly if one sleeps, or has
  seen a pointer other than the start and is going to use it, and no reader owes a wake-up
  (`ReopeningForgetsWriters`). Some run can then deadlock, with all the space free, exactly if that writer sleeps or
  has seen offset 1 (`OpenDeadlocksExactly`; `OneOpenDeadlocks` for a run from any fresh one); a writer that has seen a larger offset sleeps only on bytes that a reader will take (`ForgottenNotFatal`).
- Opening a scull pipe after its size parameter was changed takes over the new size for the old buffer. Some reads and
  writes then store outside it exactly if it is smaller (`SizeMustFit`), be it by one byte (`FillDrainWriteOversteps`).
- `spacefree` names the reader's pointer twice and nothing makes it volatile. All results about the pipe hold whether
  compiled code loads it once or twice (`reload`).
- `shortp_out_space` names the consumer's pointer twice. If compiled code loads it twice, a wake-up can be lost
  and output stalls with a writer asleep; with one load it never does (`StallsExactlyWithTwoLoads`). The source
  makes the bytes volatile, not the pointer, so either is allowed.
- A single-open attempt can fail although nobody holds the device (`BusyWithoutHolder`); it succeeds exactly when
  there is neither a holder nor an uncompensated failure.
- A snull pair starts in order exactly if a pool size of one or more was asked for and each interface was granted a
  packet; with none it would transmit from an empty pool (`Setup`, `SetupStarved`).
- The poll routine of snull tests for an empty queue and turns interrupts on without a lock. A packet is stranded
  exactly if its transmission lies wholly in between (`StrandedExactly`), and until the next one (`NextSendHelps`).
- `list_insert` accepts the null pointer, which `list_remove` never finds, so `list_delete` does not end then
  (`DeleteEndsExactly`, `AppendedNullStays`).

## Model

| member | source | states |
|---|---|---|
| `PipeBuffer.SpaceFreeIsExact` | LinuxDeviceDrivers3Ed/scull/pipe.c:181-186 | content and free space add up to one less than the buffer, wrapped or not; free space zero means full, content zero means equal pointers |
| `PipeBuffer.Fifo.Read` | LinuxDeviceDrivers3Ed/scull/pipe.c:138-148 | a read returns the oldest bytes, as many as lie before the wrap, and leaves exactly the rest |
| `PipeBuffer.Fifo.Write` | LinuxDeviceDrivers3Ed/scull/pipe.c:203-215 | a write appends the first bytes of the data, as many as fit before the wrap or the reader, and disturbs nothing stored |
| `PipeBuffer.TwoWritesSuffice` | LinuxDeviceDrivers3Ed/scull/pipe.c:203-215 | data that fits goes in with at most two write calls, each making progress, and then all of it is stored behind what was there |
| `PipeBuffer.TwoReadsSuffice` | LinuxDeviceDrivers3Ed/scull/pipe.c:138-148 | any content is drained, in order, by at most two read calls, each making progress |
| `PipeBuffer.Pipe.Open` | LinuxDeviceDrivers3Ed/scull/pipe.c:61-90 | open empties the ring, allocates only when there is no buffer, counts readers and writers, and changes nothing when memory is short; it takes over a changed size parameter whatever buffer is there |
| `PipeBuffer.SizeMustFit` | LinuxDeviceDrivers3Ed/scull/pipe.c:78-80 | after that some sequence of reads and writes stores outside the buffer if and only if the buffer is smaller than the size taken over |
| `PipeBuffer.FillDrainWriteOversteps` | LinuxDeviceDrivers3Ed/scull/pipe.c:78-80 | filling, draining and writing one byte more does it for every such size; where the buffer is one byte short, filling and draining alone do not |
| `PipeBuffer.Pipe.Release` | LinuxDeviceDrivers3Ed/scull/pipe.c:94-111 | the last close frees the buffer, an earlier one leaves data and offsets alone |
| `PipeBuffer.Pipe.Read` | LinuxDeviceDrivers3Ed/scull/pipe.c:126-155 | the in-place read is the ring read; EAGAIN exactly when empty, EFAULT exactly when the copy faults, and then nothing changes |
| `PipeBuffer.Pipe.Write` | LinuxDeviceDrivers3Ed/scull/pipe.c:161-226 | the in-place write is the ring write; EAGAIN exactly when no space is free, and a faulting copy makes no byte readable |
| `PipeBuffer.Pipe.Space` | LinuxDeviceDrivers3Ed/scull/pipe.c:181-186 | the free-space computation on the fields is what the stored content leaves |
| `PipeBuffer.Pipe.Poll` | LinuxDeviceDrivers3Ed/scull/pipe.c:228-247 | readable exactly when something is stored, writable exactly when there is room, and some direction is ready exactly when the buffer has two bytes or more |
| `PipeProtocol.ReaderCopies` | LinuxDeviceDrivers3Ed/scull/pipe.c:137-148 | the copy step of a reader, once the pointer is wrapped, is the read operation of the ring |
| `PipeProtocol.WriterCopies` | LinuxDeviceDrivers3Ed/scull/pipe.c:202-215 | the copy step of a writer, once the pointer is wrapped, is the write operation of the ring |
| `PipeProtocol.GapMeansFull` | LinuxDeviceDrivers3Ed/scull/pipe.c:181-186 | the space computed from raw pointers takes a ring for full only if it is, even while one stands past the end |
| `PipeProtocol.OwnReaderDue` | LinuxDeviceDrivers3Ed/scull/pipe.c:131 | falling asleep does not make a reader overdue for a wake-up: if it is overdue afterwards, it was already, by a pointer it loaded too early |
| `PipeProtocol.OwnWriterDue` | LinuxDeviceDrivers3Ed/scull/pipe.c:168-170 | falling asleep does not make a writer overdue for a wake-up: if it is overdue afterwards, it was already, by a pointer it loaded too early |
| `PipeProtocol.NewWriterDue` | LinuxDeviceDrivers3Ed/scull/pipe.c:146-152 | only a reader's transfer can make a sleeping writer overdue, and that reader then owes the wake-up |
| `PipeProtocol.NewReaderDue` | LinuxDeviceDrivers3Ed/scull/pipe.c:213-219 | only a writer's transfer can make a sleeping reader overdue, and that writer then owes the wake-up |
| `PipeProtocol.StepKeepsInv` | LinuxDeviceDrivers3Ed/scull/pipe.c:118-226 | every step of any process keeps the whole invariant: pointers, content, semaphore, queues, wake-ups |
| `PipeProtocol.FirstInFirstOut` | LinuxDeviceDrivers3Ed/scull/pipe.c:138-148 | in every run the bytes accepted are the bytes delivered followed by the content, pointers stay in range, and free space is what the content leaves |
| `PipeProtocol.MutualExclusion` | LinuxDeviceDrivers3Ed/scull/pipe.c:123-152 | in every run at most one process holds the semaphore, it is free exactly when none does, so every return leaves it released |
| `PipeProtocol.NoLostWakeUp` | LinuxDeviceDrivers3Ed/scull/pipe.c:159-178 | a reader asleep although there is data, or a writer asleep although there is space, is about to be woken by a process that has moved a pointer, although the unlocked looks load each pointer in a step of its own |
| `PipeProtocol.TestIsExact` | LinuxDeviceDrivers3Ed/scull/pipe.c:126-137 | holding the semaphore, a reader goes on to transfer exactly if there is data, a writer exactly if there is space |
| `PipeProtocol.CountsAreHonest` | LinuxDeviceDrivers3Ed/scull/pipe.c:137-155 | a copy moves as many bytes as it reports, the first ones of its request or of the content, and not none unless nothing was asked for; every other step passes the count on |
| `PipeProtocol.CountsOverRuns` | LinuxDeviceDrivers3Ed/scull/pipe.c:137-155 | in every run a call that returned a count has moved just that many bytes since it was made, the first ones of its data, and a call that returned an error has moved none |
| `PipeProtocol.ErrorsOverRuns` | LinuxDeviceDrivers3Ed/scull/pipe.c:123-145 | in every run a call that does not block never waits and returns EAGAIN exactly if it found no data, or no space, under the semaphore; one that blocks never returns it; EFAULT is returned exactly after a faulting copy, ERESTARTSYS only after a signal, and nothing else |
| `PipeProtocol.FaultEnds` | LinuxDeviceDrivers3Ed/scull/pipe.c:142-145 | a faulting copy ends the call with the semaphore given back and no pointer moved |
| `PipeProtocol.ReaderWaits` | LinuxDeviceDrivers3Ed/scull/pipe.c:131 | left alone, a reader that waits tries again exactly if there is data, and else falls asleep on the readers' queue |
| `PipeProtocol.ReaderWakes` | LinuxDeviceDrivers3Ed/scull/pipe.c:131 | one that has been woken goes back to sleep exactly if there is no data after all |
| `PipeProtocol.WriterWaits` | LinuxDeviceDrivers3Ed/scull/pipe.c:168-171 | left alone, a writer that waits tries again exactly if there is space, and else falls asleep on the writers' queue |
| `PipeProtocol.WriterWakes` | LinuxDeviceDrivers3Ed/scull/pipe.c:170-174 | one that has been woken leaves the queue and tries again without looking |
| `PipeProtocol.WhoIsStuck` | LinuxDeviceDrivers3Ed/scull/pipe.c:126-136 | when no process can step, the semaphore is free and everybody sleeps for a reason: no data, or no space |
| `PipeProtocol.OneByteDeadlocks` | LinuxDeviceDrivers3Ed/scull/pipe.c:181-186 | with a buffer of one byte a reader and a writer can fall asleep waiting for each other |
| `PipeProtocol.TwoBytesNeverDeadlock` | LinuxDeviceDrivers3Ed/scull/pipe.c:161-171 | with two bytes or more, while nobody opens the pipe again, no run ends with readers and writers asleep together and nobody able to step |
| `PipeProtocol.DeadlockExactlyWithOneByte` | LinuxDeviceDrivers3Ed/scull/pipe.c:126-131 | while nobody opens the pipe again, some run deadlocks if and only if the buffer has one byte |
| `PipeReopen.ReopeningForgetsWriters` | LinuxDeviceDrivers3Ed/scull/pipe.c:78-80 | opening again keeps the whole invariant if and only if no writer sleeps or looks on an old pointer, or a reader owes a wake-up, or the buffer has one byte |
| `PipeReopen.OpensAreSafe` | LinuxDeviceDrivers3Ed/scull/pipe.c:61-90 | with opens at any moment, in every run the ring holds what was accepted and not delivered since the latest, at most one process is inside, and readers miss no wake-up |
| `PipeReopen.CarefulNeverForgets` | LinuxDeviceDrivers3Ed/scull/pipe.c:78-80 | a run never forgets anybody if and only if every open in it is made at such a moment |
| `ReopenDeadlock.OpensDeadlockExactly` | LinuxDeviceDrivers3Ed/scull/pipe.c:78-80 | at the end of any run with opens: if the pipe is opened now, some run of reads, writes and signals after that deadlocks if and only if it has a single byte, or a writer sleeps or has seen the readers' pointer at offset 1 and is going to use it, and no reader owes a wake-up |
| `ReopenDeadlock.OpenDeadlocksExactly` | LinuxDeviceDrivers3Ed/scull/pipe.c:78-80 | the same from any state with all of the invariant but the part about writers' wake-ups |
| `ReopenDeadlock.MildNeverDeadlocks` | LinuxDeviceDrivers3Ed/scull/pipe.c:161-171 | with two bytes or more, no run whose opens all avoid such moments deadlocks |
| `ReopenDeadlock.ForgottenNotFatal` | LinuxDeviceDrivers3Ed/scull/pipe.c:168-170 | a state in which an open forgets a writer and yet no run after it deadlocks |
| `ReopenDeadlock.StepKeepsCovered` | LinuxDeviceDrivers3Ed/scull/pipe.c:118-226 | every step keeps this: a writer that misses space is owed a wake-up, or sleeps on bytes a reader will take, or will |
| `PipeReopen.OneOpenDeadlocks` | LinuxDeviceDrivers3Ed/scull/pipe.c:78-80 | for every size of two bytes or more a run with a single open deadlocks: a writer sleeps on a full pipe, the open empties it, a reader sleeps on the empty one |
| `Ring.Consume` | LinuxDeviceDrivers3Ed/scull/pipe.c:146-148 | advancing the consumer removes exactly the oldest bytes, those found at its pointer |
| `Ring.Produce` | LinuxDeviceDrivers3Ed/scull/pipe.c:213-215 | storing at the producer and advancing it appends the data and disturbs nothing older; without advancing, nothing shows |
| `ShortPrint.SpaceIsSafe` | LinuxDeviceDrivers3Ed/shortprint/shortprint.c:119-126 | contiguous space computed from any tail that was current at the comparison never exceeds what is free now |
| `ShortPrint.WorkerKeepsWriter` | LinuxDeviceDrivers3Ed/shortprint/shortprint.c:231-240 | the consumer's steps never invalidate what a writer has computed from an older tail |
| `ShortPrint.CopyIsInvisible` | LinuxDeviceDrivers3Ed/shortprint/shortprint.c:295-301 | bytes copied beyond the head overwrite nothing still to be printed |
| `ShortPrint.AdvancePublishes` | LinuxDeviceDrivers3Ed/shortprint/shortprint.c:302-304 | moving the head appends exactly the copied bytes to what is printed or waiting |
| `ShortPrint.WriterStepAccounts` | LinuxDeviceDrivers3Ed/shortprint/shortprint.c:271-317 | every step of a writer extends the stream by exactly what the writer counts as written |
| `ShortPrint.CountsOverRuns` | LinuxDeviceDrivers3Ed/shortprint/shortprint.c:271-317 | in every run a returned count is how many bytes the call has put into the stream, the first ones of its data, and all of them unless there was a signal; EFAULT comes exactly after a faulting copy, and a call interrupted at the semaphore has taken nothing |
| `ShortPrint.EndsEarly` | LinuxDeviceDrivers3Ed/shortprint/shortprint.c:279-300 | a signal at the semaphore ends the call untouched, a faulting copy ends it with the semaphore given back |
| `ShortPrint.LooksExactly` | LinuxDeviceDrivers3Ed/shortprint/shortprint.c:286-293 | with one load of the tail a writer goes on to copy exactly if there is room, and into all of it; else it evaluates again, queues, and sleeps, or gives up on a signal |
| `ShortPrint.WokenQueuesAgain` | LinuxDeviceDrivers3Ed/shortprint/shortprint.c:289-293 | a sleeper can be woken or signalled, and queues again before it looks |
| `ShortPrint.WakesExactly` | LinuxDeviceDrivers3Ed/shortprint/shortprint.c:346-348 | sleeping writers are woken exactly when more than half of the ring is free, but not by an empty ring |
| `ShortPrint.RoomIsExact` | LinuxDeviceDrivers3Ed/shortprint/shortprint.c:346 | the quantity compared with the wake-up threshold is the free room, except that an empty ring looks like none |
| `ShortPrint.SleepsOnlyWhenFull` | LinuxDeviceDrivers3Ed/shortprint/shortprint.c:288-293 | with one load of the tail a writer goes to sleep only on a full ring |
| `ShortPrint.StepKeepsInv` | LinuxDeviceDrivers3Ed/shortprint/shortprint.c:253-372 | every step of writers, worker, interrupt and timer keeps the whole invariant |
| `ShortPrint.PrintsInOrder` | LinuxDeviceDrivers3Ed/shortprint/shortprint.c:271-317 | in every run the bytes printed followed by the ring content are the accepted parts of all writes, one whole write after the other |
| `ShortPrint.StoredBytesMoveOn` | LinuxDeviceDrivers3Ed/shortprint/shortprint.c:253-265 | whenever the ring holds bytes, output is active or the one writer is between advancing the head and its locked check, and something in the driver can move |
| `ShortPrint.PrintsWithoutInterrupts` | LinuxDeviceDrivers3Ed/shortprint/shortprint.c:379-400 | from whatever any run has led to, everything stored can be printed, in order, without one interrupt from the printer: the timer makes up for lost ones |
| `ShortPrint.TimerLooks` | LinuxDeviceDrivers3Ed/shortprint/shortprint.c:388-399 | the timer sets itself again while the printer is busy and otherwise stands in for the interrupt |
| `ShortPrint.SleepersHaveBytesAhead` | LinuxDeviceDrivers3Ed/shortprint/shortprint.c:333-349 | with one load of the tail, a writer asleep for space has bytes before it and output active |
| `ShortPrint.SingleLoadNeverStalls` | LinuxDeviceDrivers3Ed/shortprint/shortprint.c:286-311 | with one load of the tail per evaluation no run stalls |
| `ShortPrint.TwoLoadsStall` | LinuxDeviceDrivers3Ed/shortprint/shortprint.c:119-126 | with two loads some run stalls, for every ring size: the writer compares before the consumer wraps and loads again after |
| `ShortPrint.StallsExactlyWithTwoLoads` | LinuxDeviceDrivers3Ed/shortprint/shortprint.c:286-311 | some run stalls if and only if the tail is loaded twice per evaluation |
| `Geometry.Locate` | LinuxDeviceDrivers3Ed/scull/main.c:309-312 | nested division finds the item, slot and offset that counting off the blocks of a flat file finds |
| `Geometry.SamePlace` | LinuxDeviceDrivers3Ed/scull/main.c:309-312 | two positions are in the same slot of the same item exactly when they are in the same block, at offsets as far apart as they are |
| `Geometry.NextBlock` | LinuxDeviceDrivers3Ed/scull/main.c:320-322 | the position after the rest of a block starts the next one |
| `SparseFile.LastWriteWins` | LinuxDeviceDrivers3Ed/scull/main.c:336-387 | after any history a position holds a byte exactly if the last event to touch it was a write, and then the byte that wrote |
| `SparseFile.SizeIsLargestEnd` | LinuxDeviceDrivers3Ed/scull/main.c:378-382 | the size is the largest end position any write has reached since the last trim, and is reached by one unless zero |
| `SparseFile.WriteKeepsValid` | LinuxDeviceDrivers3Ed/scull/main.c:371-382 | a write keeps every stored byte inside the file and inside an existing block |
| `SparseFile.ReadStopsExactly` | LinuxDeviceDrivers3Ed/scull/main.c:304-329 | how much a read call returns: none exactly at the end or in a hole, else up to the end of the request, the file or the block, whichever comes first |
| `SparseFile.WriteStops` | LinuxDeviceDrivers3Ed/scull/main.c:370-382 | a write call accepts all, or up to the end of the block, and something if anything is offered |
| `SparseFile.BlocksAreNeeded` | LinuxDeviceDrivers3Ed/scull/main.c:357-368 | the blocks that exist are those that some write since the last trim, faulty or not, was for |
| `SparseFile.ReplayGeometry` | LinuxDeviceDrivers3Ed/scull/main.c:79-81 | the device has the block and array sizes of its last trim |
| `SparseFile.WriteAllWrites` | LinuxDeviceDrivers3Ed/scull/main.c:370-382 | repeating write until all is accepted changes exactly the range written |
| `SparseFile.WriteAllCalls` | LinuxDeviceDrivers3Ed/scull/main.c:370-382 | that takes one call per block met and grows the size to the end of the range, never shrinks it |
| `SparseFile.ReadAllReads` | LinuxDeviceDrivers3Ed/scull/main.c:304-329 | repeating read over a written range returns it, with one call per block met |
| `SparseFile.RoundTrip` | LinuxDeviceDrivers3Ed/scull/main.c:292-387 | writing all of some data and reading it back returns the same data, in as many calls each way |
| `ScullClient.StoreAll` | LinuxDeviceDrivers3Ed/scull/main.c:336-387 | write calls repeated on the device until all is accepted, which fails exactly if an allocation is refused; the device holds the file those calls make |
| `ScullClient.StoredBytes` | LinuxDeviceDrivers3Ed/scull/main.c:370-382 | such calls write exactly what they accept, and accepting everything makes the file and the call count of WriteAll |
| `ScullClient.FetchAll` | LinuxDeviceDrivers3Ed/scull/main.c:292-334 | read calls repeated on the device until enough has come or none comes; the device is left alone |
| `ScullClient.FetchedAgrees` | LinuxDeviceDrivers3Ed/scull/main.c:304-329 | such calls return what the file holds and stop early only at or past the end of the file or at a block that does not exist |
| `ScullClient.FetchedAll` | LinuxDeviceDrivers3Ed/scull/main.c:304-329 | over a range that was written they return the bytes and make the calls of ReadAll |
| `ScullClient.StoreAndFetch` | LinuxDeviceDrivers3Ed/scull/main.c:292-387 | what the device accepted comes back from it, and if that is everything, in as many calls each way as there are blocks |
| `SparseFile.CallsByDivision` | LinuxDeviceDrivers3Ed/scull/main.c:310-312 | the number of calls is (p + n - 1) / quantum - p / quantum + 1 |
| `ScullDevice.Device.Find` | LinuxDeviceDrivers3Ed/scull/main.c:309-312 | the driver's divisions give item, slot and offset of the flat numbering |
| `ScullDevice.Device.Follow` | LinuxDeviceDrivers3Ed/scull/main.c:262-286 | the walk ends at the wanted item or fails exactly when an allocation is refused; it only appends items, and changes nothing at all when the item exists |
| `ScullDevice.Device.ObtainTable` | LinuxDeviceDrivers3Ed/scull/main.c:355-360 | the item has its pointer array afterwards, unless exactly one allocation was refused |
| `ScullDevice.Device.ObtainQuantum` | LinuxDeviceDrivers3Ed/scull/main.c:361-365 | the slot has its block afterwards, unless exactly one allocation was refused; everything allocated is owned |
| `ScullDevice.Device.StoreChunk` | LinuxDeviceDrivers3Ed/scull/main.c:366-382 | the copy into a block is the write to the flat file, and with a faulting copy leaves only the touched bytes unspecified |
| `ScullDevice.Device.Write` | LinuxDeviceDrivers3Ed/scull/main.c:336-387 | a write is the write to the flat file; it fails exactly if an allocation is refused, and then changes neither contents nor size, or if the copy faults; nothing is moved and nothing leaks |
| `ScullDevice.Device.ReadFinds` | LinuxDeviceDrivers3Ed/scull/main.c:304-315 | for any position below the size the item is already there, and the block exactly if the file has it |
| `ScullDevice.Device.ChunkIsFile` | LinuxDeviceDrivers3Ed/scull/main.c:324-325 | the bytes copied out of a block are those of the file wherever something was written |
| `ScullDevice.Device.Read` | LinuxDeviceDrivers3Ed/scull/main.c:292-334 | a read returns none exactly at the end or in a hole, else up to the end of the request, the file or the block; it agrees with the file and neither allocates nor changes anything |
| `ScullDevice.Device.FreeSlots` | LinuxDeviceDrivers3Ed/scull/main.c:70-71 | every block of an item is freed exactly once, no other |
| `ScullDevice.Device.FreeItem` | LinuxDeviceDrivers3Ed/scull/main.c:69-77 | an item, its array and its blocks are freed exactly once each, nothing else |
| `ScullDevice.Device.Trim` | LinuxDeviceDrivers3Ed/scull/main.c:63-84 | everything owned is freed exactly once, nothing else is, and the empty device takes over the given geometry |
| `ScullDriver.Driver.constructor` | LinuxDeviceDrivers3Ed/scull/main.c:648-654 | all devices start empty, apart from each other, with the geometry given to the module |
| `ScullDriver.Driver.Write` | LinuxDeviceDrivers3Ed/scull/main.c:336-387 | a write to one device appends itself to that device's history and leaves all others, and the accounting of memory, alone; the position moves by what was accepted |
| `ScullDriver.Driver.Read` | LinuxDeviceDrivers3Ed/scull/main.c:292-334 | each byte read is the one last written at its position since the last trim, as many as request, file and block have left, none exactly at the end or in a hole; no device changes |
| `ScullDriver.Driver.SaidIsHeld` | LinuxDeviceDrivers3Ed/scull/main.c:336-387 | what the history says was last written at a position is what the device holds there |
| `ScullDriver.Driver.Open` | LinuxDeviceDrivers3Ed/scull/main.c:238-253 | a write-only open trims the device to the geometry set by ioctl, frees exactly its objects and touches no other; any other open changes nothing |
| `ScullDriver.Driver.Ioctl` | LinuxDeviceDrivers3Ed/scull/main.c:393-494 | ioctl changes only the geometry for later trims and returns the value asked for or zero; setting needs the capability, querying and resetting do not |
| `ScullDriver.Driver.Llseek` | LinuxDeviceDrivers3Ed/scull/main.c:523-554 | seeking is relative to start, position or size; an unknown origin or a negative result is refused |
| `SingleOpen.AtMostOneHolder` | LinuxDeviceDrivers3Ed/scull/access.c:50-72 | in every run the counter is one less the holders less the failed openers not yet compensated, and there is never more than one holder |
| `SingleOpen.SucceedsExactlyWhenFree` | LinuxDeviceDrivers3Ed/scull/access.c:56-59 | an attempt succeeds if and only if nobody holds the device and no failed attempt is still uncompensated |
| `SingleOpen.BusyWithoutHolder` | LinuxDeviceDrivers3Ed/scull/access.c:56-59 | so an attempt can be refused although nobody has the device open: a run that does it |
| `SingleOpen.OneAttemptEach` | LinuxDeviceDrivers3Ed/scull/access.c:50-72 | in every run a call makes one attempt and ends busy exactly if that did not find the device free, in two steps either way |
| `SingleOpen.QuietMeansFree` | LinuxDeviceDrivers3Ed/scull/access.c:68-72 | with no failed attempt under way the counter is one exactly when nobody has the device open |
| `OwnerOpen.HandlesBelongToOwner` | LinuxDeviceDrivers3Ed/scull/access.c:100-133 | in every run the count is the number of open handles, and every one of them matches the owner by uid, euid or capability |
| `OwnerOpen.OwnerStays` | LinuxDeviceDrivers3Ed/scull/access.c:112-115 | no step changes the owner while anybody has the device open |
| `OwnerOpen.TurnedAwayExactly` | LinuxDeviceDrivers3Ed/scull/access.c:104-110 | a process is turned away if and only if the device is open and it does not match the owner |
| `OwnerOpen.TurnedAway` | LinuxDeviceDrivers3Ed/scull/access.c:104-110 | what being turned away means: EBUSY on the refusing device, EAGAIN or waiting on the other, the lock released |
| `OwnerOpen.AnswersOverRuns` | LinuxDeviceDrivers3Ed/scull/access.c:100-207 | in every run nobody waits on the refusing device and a refusal there is EBUSY; on the other a refusal is EAGAIN for those that do not block, who never wait, and ERESTARTSYS after a signal for the rest; releasing comes after close and only then |
| `OwnerOpen.AdmittedOpens` | LinuxDeviceDrivers3Ed/scull/access.c:112-116 | a process that passes the test has the device open three steps later, counted, and as its owner if nobody had it |
| `OwnerOpen.CloseReleases` | LinuxDeviceDrivers3Ed/scull/access.c:195-207 | a process that closes is no longer counted, and on the waiting device the last one wakes all that wait |
| `OwnerOpen.WaitsExactly` | LinuxDeviceDrivers3Ed/scull/access.c:177-183 | left alone, a process that waits tries again exactly if it would be admitted, and else falls asleep queued |
| `OwnerOpen.LooksAgain` | LinuxDeviceDrivers3Ed/scull/access.c:180 | so does one that has been woken, off the queue if it tries again |
| `OwnerOpen.SignalEndsWait` | LinuxDeviceDrivers3Ed/scull/access.c:180-181 | a signal to a sleeper that would not be admitted ends its call, off the queue |
| `OwnerOpen.NoLostWakeUp` | LinuxDeviceDrivers3Ed/scull/access.c:162-207 | a process asleep on the queue although it would be admitted is about to be woken by a releaser that saw zero, although the condition is read in three unlocked steps |
| `OwnerOpen.StepKeepsInv` | LinuxDeviceDrivers3Ed/scull/access.c:100-207 | every step of any process keeps lock, count, owners and wake-ups in order |
| `CloneList.Clones.LookFor` | LinuxDeviceDrivers3Ed/scull/access.c:246-270 | a known terminal gets its device and nothing changes; an unknown one gets a new empty device, listed first, unless memory is short |
| `CloneList.Clones.Open` | LinuxDeviceDrivers3Ed/scull/access.c:272-296 | opening needs a terminal, fails for memory only when the terminal is unknown, gives an unknown one an empty device of the geometry set, and never takes a device from a terminal |
| `CloneList.Clones.OneDeviceEach` | LinuxDeviceDrivers3Ed/scull/access.c:251-254 | two terminals have the same device exactly when they are the same terminal |
| `Snull.NetDev.SetupPool` | LinuxDeviceDrivers3Ed/snull/snull.c:98-115 | the pool has as many packets as asked for, or as many as the allocator grants if those are fewer, all different and all belonging to the interface |
| `Snull.NetDev.GetTxBuffer` | LinuxDeviceDrivers3Ed/snull/snull.c:132-147 | the first packet leaves the pool; the queue is stopped if that was the last |
| `Snull.NetDev.ReleaseBuffer` | LinuxDeviceDrivers3Ed/snull/snull.c:150-161 | the packet is first in the pool; the queue is started if the pool was empty |
| `Snull.NetDev.EnqueueBuf` | LinuxDeviceDrivers3Ed/snull/snull.c:163-172 | the packet is first on the receive queue |
| `Snull.NetDev.DequeueBuf` | LinuxDeviceDrivers3Ed/snull/snull.c:174-186 | the first packet leaves the receive queue, if there is one |
| `Snull.NetDev.TakeOne` | LinuxDeviceDrivers3Ed/snull/snull.c:253-281 | a frame taken off the queue is counted as received or, exactly if no buffer could be had, as dropped: packets, bytes and frames balance |
| `Snull.RegularInterrupt` | LinuxDeviceDrivers3Ed/snull/snull.c:333-376 | at most one packet is taken off, its frame handed up or dropped, the packet returned to its own pool, a finished transmission counted once |
| `Snull.NapiInterrupt` | LinuxDeviceDrivers3Ed/snull/snull.c:381-416 | reception is left to the poll routine with receive interrupts off, the queue untouched, a finished transmission counted once |
| `Snull.Setup` | LinuxDeviceDrivers3Ed/snull/snull.c:671-676 | after initialisation the invariant of the pair holds if and only if a packet or more is asked for and the allocator grants each interface one or more |
| `Snull.SetupStarved` | LinuxDeviceDrivers3Ed/snull/snull.c:105-110 | the default pool size with no memory for one interface: it is left with an empty pool and a transmit queue that is not stopped |
| `Snull.WithoutPacketsStopped` | LinuxDeviceDrivers3Ed/snull/snull.c:132-147 | the transmit queue is stopped exactly if all packets of the interface wait at its twin, so always if it has none |
| `Snull.OnePlaceEach` | LinuxDeviceDrivers3Ed/snull/snull.c:132-186 | every packet of an interface is in its pool or on its twin's queue, never both, never another interface's, and together they are as many as its pool was set up with |
| `Snull.HwTx` | LinuxDeviceDrivers3Ed/snull/snull.c:425-503 | a transmission keeps the invariant of the pair and the packets of both interfaces, hands nothing up on the sender, and on the twin nothing if polling: received plus dropped plus queued equals sent in packets, bytes and frames, counters count the log, queue stopped exactly when the pool is empty, no packet stranded; exactly this frame is sent, or none if it is too short |
| `Snull.Tx` | LinuxDeviceDrivers3Ed/snull/snull.c:509-533 | exactly one frame more is sent and counted, the caller's padded to the minimum length, so it is never too short to go out; packets and the invariant of the pair are kept |
| `Snull.Padded` | LinuxDeviceDrivers3Ed/snull/snull.c:515-522 | the padding is zeros up to the minimum length, and nothing is added to a longer frame |
| `Snull.PollLoop` | LinuxDeviceDrivers3Ed/snull/snull.c:287-316 | the loop ends though drops do not count against the quota, takes packets only off the front, and stops early only on an empty queue |
| `Snull.Poll` | LinuxDeviceDrivers3Ed/snull/snull.c:287-326 | it reports completion exactly when the queue is empty, with interrupts on again, otherwise the quota is used up; budgets shrink by the packets received; packets and the invariant of the pair are kept |
| `SnullPolling.StrandedExactly` | LinuxDeviceDrivers3Ed/snull/snull.c:320-324 | with poll and transmission in single steps, in every run a packet is left queued with no poll to come if and only if a transmission has queued it and looked at the interrupt switch both between the poll's test and its turning the switch on |
| `SnullPolling.QuotaIsKept` | LinuxDeviceDrivers3Ed/snull/snull.c:294-316 | a poll never receives more than its quota, and its loop ends exactly with that used up or the queue empty |
| `SnullPolling.SomeRunStrands` | LinuxDeviceDrivers3Ed/snull/snull.c:486-490 | a run that does it, after one packet has been delivered |
| `SnullPolling.OnlySendingHelps` | LinuxDeviceDrivers3Ed/snull/snull.c:320-324 | from there nothing can happen but another transmission |
| `SnullPolling.NextSendHelps` | LinuxDeviceDrivers3Ed/snull/snull.c:404-407 | which schedules a poll for both packets |
| `PageHistory.WriteChangesItsRange` | LinuxDeviceDrivers3Ed/scullp/main.c:238-260 | a write changes the bytes of its range within the page and no others, adds that page at most, and grows the size to the end of the range |
| `PageHistory.ReadIsBytes` | LinuxDeviceDrivers3Ed/scullp/main.c:180-204 | a read returns the bytes at its positions, as many as page and file have left, and none from a hole |
| `PageHistory.ReadAfterWrite` | LinuxDeviceDrivers3Ed/scullp/main.c:238-260 | a read where a write has just been returns the bytes accepted |
| `PageHistory.EventsHoldLast` | LinuxDeviceDrivers3Ed/scullp/main.c:238-260 | after any writes since a trim, whole or cut short by a fault, every byte is the last one written at its position |
| `PageHistory.ReadsLastByte` | LinuxDeviceDrivers3Ed/scullp/main.c:180-204 | so each byte a read returns is the last one written there |
| `PageHistory.UntouchedIsZero` | LinuxDeviceDrivers3Ed/scullp/main.c:240-243 | and zero where no write has been, as new pages are zeroed |
| `PageHistory.Recorded.Write` | LinuxDeviceDrivers3Ed/scullp/main.c:216-268 | a write on the device adds itself to the history, or what landed if its copy faulted, or nothing exactly if memory is short |
| `PageHistory.Recorded.Read` | LinuxDeviceDrivers3Ed/scullp/main.c:168-212 | each byte a read on the device returns is the one last written at its position since the last trim, zero if none was |
| `PageHistory.Recorded.Trim` | LinuxDeviceDrivers3Ed/scullp/main.c:482-510 | trimming starts the history over, unless the device is mapped |
| `Scullp.Device.Find` | LinuxDeviceDrivers3Ed/scullp/main.c:186-189 | the driver's divisions give the item and slot that counting off the page number gives |
| `Scullp.Device.Follow` | LinuxDeviceDrivers3Ed/scullp/main.c:151-162 | the walk ends at the wanted item and only appends items |
| `Scullp.Device.Lookup` | LinuxDeviceDrivers3Ed/scullp/main.c:186-196 | read and write reach exactly the page of the flat numbering, or a hole |
| `Scullp.Device.ObtainPage` | LinuxDeviceDrivers3Ed/scullp/main.c:238-245 | the slot has its page afterwards, zeroed if new, unless exactly one allocation was refused |
| `Scullp.Device.Read` | LinuxDeviceDrivers3Ed/scullp/main.c:168-212 | a read returns exactly the bytes of the file of zeroed pages, and changes neither contents nor pages |
| `Scullp.Device.Write` | LinuxDeviceDrivers3Ed/scullp/main.c:216-268 | a write is the write to the file of zeroed pages; it fails exactly if an allocation is refused or the copy faults; no page moves |
| `Scullp.Device.FreePages` | LinuxDeviceDrivers3Ed/scullp/main.c:492-495 | every page of an item is freed exactly once, no other |
| `Scullp.Device.Trim` | LinuxDeviceDrivers3Ed/scullp/main.c:482-510 | with active mappings nothing changes; otherwise all is freed exactly once, the head stays, and the new settings apply |
| `Scullp.Device.CountDown` | LinuxDeviceDrivers3Ed/scullp/mmap.c:76-81 | subtracting the array size from the page number while walking the list reaches exactly the page of the flat numbering, or a hole |
| `Scullp.Device.Nopage` | LinuxDeviceDrivers3Ed/scullp/mmap.c:60-91 | a fault gets that page, nothing beyond the size, and what it has handed out stays in place while the device is mapped |
| `Scullp.Device.FaultMatchesRead` | LinuxDeviceDrivers3Ed/scullp/mmap.c:70-82 | fault and read find the same hole or the same page, byte for byte |
| `Scullp.Device.Mmap` | LinuxDeviceDrivers3Ed/scullp/mmap.c:104-116 | mapping is refused exactly when the order is not zero and else counted |
| `Scullp.Device.VmaClose` | LinuxDeviceDrivers3Ed/scullp/mmap.c:40-45 | a mapping less; handed-out pages stay until the last one goes |
| `PointerList.InsertAnswers` | list/list.c:118-179 | each error exactly in its case and then the list as it was; else exactly the new element more, behind its reference, and the order of the rest kept |
| `PointerList.RemoveAnswers` | list/list.c:195-233 | not in the list, and then the list as it was, or exactly the first occurrence less and the order of the rest kept |
| `PointerList.NeighboursAt` | list/list.c:63-92 | the neighbours of an element are those next to it; an element that is not found has none |
| `PointerList.InsertedIsNext` | list/list.c:118-179 | what is inserted comes right after its reference and before what came there, and removing it gives back the old list |
| `PointerList.NextPrev` | list/list.c:63-92 | next and previous are mutually inverse; only the last has no next and only the first no previous |
| `PointerList.WalkVisitsAll` | list/list.c:63-75 | walking from the head visits every element once, in order, and stops |
| `PointerList.RunsStayDistinct` | list/list.c:118-233 | no sequence of operations makes a pointer occur twice, and the null pointer only gets in by being inserted |
| `PointerList.DeleteEndsExactly` | list/list.c:250-263 | deleting comes to an end if and only if the list does not hold the null pointer |
| `PointerList.AppendedNullStays` | list/list.c:184-190 | appending the null pointer to a new list succeeds, and deleting that list never ends |
| `PointerList.List.FindPos` | list/list.c:41-58 | the search finds the node of the first occurrence, never one for the null pointer |
| `PointerList.List.NextData` | list/list.c:63-75 | the next element on the nodes is the next one of the sequence |
| `PointerList.List.PrevData` | list/list.c:80-92 | the previous element on the nodes is the previous one of the sequence |
| `PointerList.List.Insert` | list/list.c:118-179 | insertion on the nodes is insertion into the sequence, with each error in its case and then no change |
| `PointerList.List.Append` | list/list.c:184-190 | appending is inserting after the last element |
| `PointerList.List.Remove` | list/list.c:195-233 | removal on the nodes is removal from the sequence, or an error and no change |
| `PointerList.List.Delete` | list/list.c:250-263 | deleting a list without the null pointer ends with the empty list |
| `PointerList.List.DeleteRounds` | list/list.c:250-263 | any number of rounds of the deleting loop on the nodes is as many removals from the sequence, null pointer or not |

## Left out

- Module set-up and removal, device registration, /proc and sequence files, ioctl argument copying, asynchronous notification: kernel plumbing.
- PipeBuffer.Pipe.Read: the call that finds data or does not block; waiting is the subject of `PipeProtocol`.
- PipeBuffer.Pipe.Write: the call that finds space or does not block, for the same reason.
- PipeBuffer.Pipe.Open: the size parameter is positive.
- PipeProtocol.NoLostWakeUp: the unlocked look may reuse a loaded readers' pointer but loads the writers' pointer anew each time it is named.
- PipeReopen: the last release and the buffer it frees, and a size parameter that changes between opens, which `PipeBuffer` has.
- Exclusive waiters and scheduling fairness: a wake-up makes every sleeper of a queue able to move, nothing says when it does.
- scull geometry read before the semaphore is taken: each scull read, write and trim is one step here, as is each scullp call and, outside `SnullPolling`, each snull handler.
- Overflow of `quantum * qset` and of file positions: mathematical integers, with positive geometry.
- Bytes of a scull block that were never written: unspecified, as the allocator leaves them.
- Waiting for the semaphore of a scull or scullp device: a signal there ends the call before anything is done.
- ScullDriver.Driver.Open: for that reason the write-only open always gets as far as its trim.
- CloneList.Clones.Open: the trim on a write-only open is the one of scull.
- SparseFile.ReadAllReads: on the flat file; `ScullClient` ties it to the calls of the device.
- SparseFile.RoundTrip: likewise, by `ScullClient.StoreAndFetch`.
- ScullDriver.Driver.Ioctl: values set are positive, the code takes any; the commands that pass values through user memory behave as Tell, Query and Shift and are not repeated; the copying can fault, which is not modelled.
- ShortPrint: the time-stamp input ring, the printer's ports and real time; the timer may fire whenever it is armed.
- ShortPrint.SleepersHaveBytesAhead: for rings of at least three bytes, as are the results built on it; the real one is a page.
- SnullPolling.StrandedExactly: counts packets instead of naming them, one transmission at a time as the kernel's transmit lock has it, and the device lock of the interrupt handler plays no part.
- Snull.Tx: called only while the transmit queue is not stopped, and Snull.Poll only while a poll is scheduled, as the kernel does.
- Snull.HwTx: a frame may have any length, while a packet of the source holds `ETH_DATA_LEN` octets (`snull/snull.c:69`) and a frame up to the MTU with its header can be 14 longer; what then happens to the memory behind the packet is not modelled.
- Snull: lock-up simulation, transmit time-out, interface down and up, pool removal, header rewriting and the checksum, which calls code that is not part of this model. Frames are what is handed over after rewriting. The receive queue is last in, first out, and no order is claimed.
- Scullp.Device.Read: order zero only, because items after the first have order zero of their own whatever the device has.
- Scullp.Device.Write: order zero only, for the same reason; that everything allocated stays owned is not stated as it is in scull.
- Scullp.Device.Lookup: walks by `Follow`, with what that leaves out.
- PointerList.List.Delete: lists without the null pointer, because a method has to end; `DeleteRounds` has the others.
- Scullp.Device.Follow: the item allocation, whose result the code does not look at, is taken to succeed.
- Page reference counts and the mapping of pages into processes.
- Printing, logging and `free` of list nodes: a removed node is no longer part of the list's footprint, nothing more is said of it.
- scullc, sculld and scullv (near copies of scullp), sbull, tiny_tty, tiny_serial, usb-skeleton, silly, skull, jit, jiq, misc-progs, fd2fp, example, gst-stmfrdk and script: hardware and kernel glue, or nothing harder than what is here.
