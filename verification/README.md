# KOZOS: a verified model of the kernel and of its flash writer

Two programs of the repository are modelled and proved here.

**The KOZOS kernel** (`mykozos/os/kozos.c`, with the save and restore code of `intr.S` and `startup.s`, and the
pools of `memory.c`).  The kernel is a step machine: each entry, a system call or another interrupt, saves the
running thread's stack pointer, runs a handler, and dispatches the head of the lowest-numbered non-empty ready
queue.

- `KernelSpec`: the kernel on values, one function for each function of the source, same branches.
- `KernelInvariant`: what every entry of every run keeps.
- `KernelScheduling`, `KernelLifecycle`, `KernelMail`: what follows for fairness, for who is ready and when the
  system goes down, and for the mailboxes, over runs of any length.
- `KernelEffects`: the whole state behind every call, service call and interrupt, spelled out.
- `KernelStacks`, `KernelDeliveries`: where stacks and parameter blocks lie, and which blocks an entry writes.
- `KernelHeap`: the static tables with their head, tail and next pointers, updated in place, refine `KernelSpec`;
  `Kernel.Trap`, `Kernel.Interrupt` and the constructor are whole entries, `Kernel.RunEntries` whole runs.
- `Context`, `CallBlocks`, `Machine`: byte memory, register frames, the kernel's stores into parameter blocks, and a
  machine of kernel, stacks and CPU in which a suspended thread resumes with exactly what it had and a caller finds
  its return value.  `Receive`: a blocking receive from its trap to its return, over runs of that machine.
- `MemPool`: the pools of `memory.c`, on values and as lists linked through the blocks.
- `KernelMemory`: kernel and pools together, with no assumption about the allocator left.

`memory.c` has no rows below, because it is not UTF-8 and its lines cannot be cited there.  Its parts are: lines 65-94,
`MemPool.KzMem.KzmemAlloc` refines `Alloc`, for which `AllocOk` (a block that nobody has, of the smallest pool that
fits), `AllocFailsIff` and `PoolOfSize` (exactly when it fails, and which pool serves which size) hold; lines 97-117, `KzMem.KzmemFree` refines `Free`, with `FreeOk`;
lines 30-62, the constructor of `KzMem` and `InitPool` build `Initial`, with `InitialOk`.  Over all of it `RunOk`: no
block is lost, in two places, or handed out twice; `AllocThenFree` and `FreeThenAlloc`: freeing restores the pools, and
a block freed last is handed out first.

**The flash writer** (`tools/kz_h8write/mot.c` and `kz_h8write.c`).

- `Srec`: S-record parsing, its printer, inversion, checksums.
- `Flash`: the memory image as an overlay of records, frames, an ideal device, the end-to-end theorem.
- `Writer`: the static image of the program, updated in place by the records of a file.
- `Link`: requests, responses and the grammar of a transfer, with a trace of writes and reads.
- `Port`: the serial port as an oracle, and the protocols over it in the form of the source.

`Prelude` holds shared types.

## What the kernel asks of its callers

The source does not check these; `KernelInvariant.CallLegal`, `SrvLegal` and `EntryLegal` state them.

- `kz_run`, `kz_start`: `func` is not null, `0 <= priority < 16`, `stacksize >= 36` (the nine words of a new stack).
- `kz_chpri`: the argument is below 16; a negative one keeps the priority.
- `kz_send`, `kz_recv`: the mailbox number is below 17.
- `kz_wakeup`: the target is a live thread that is not a mailbox receiver.  `KernelLifecycle.WakeupIff` shows that
  this is exactly what is needed.  Waking a thread that is already ready is legal and does nothing.
- `kz_kmfree`: a block in use that is not a message buffer linked in a mailbox; `KernelMemory.FreeIff` shows that the
  second half is exactly what is needed.
- `kz_setintr`: not the system call or soft error vector.
- Service calls do not include exit, chpri and recv, which read `current` while it is null.
- A parameter block lies on its caller's stack, where the library functions of `syscall.c` put it
  (`KernelStacks.EntryPlaced`); `Machine.EnterLegal` adds that it lies above the saved frame, and that `sizep` and
  `pp` of a receive point above the block, or to memory that is on no thread's stack, and not to overlapping places.

## Behaviour worth knowing

- `kz_sysdown` is a macro of `kozos.h` that prints and calls address 0.  That nothing of the kernel runs behind it is
  an assumption of the model: the outcome is `Down`, and no entry follows it in a run.
- A `kz_run` that finds no free TCB returns -1 without putting its caller back on a ready queue
  (`mykozos/os/kozos.c:155-156`).  A call of unknown type stores no return value and drops its caller as well.
  `KernelLifecycle.StaysReady` lists both with exit, sleep and a blocked receive.
- An allocation fails as soon as the smallest fitting pool is exhausted, even when larger pools have room
  (`MemPool.AllocFailsIff`).  A send goes down iff the 32 blocks of 64 bytes are all in use
  (`KernelMemory.SendDownIff`), so at most 32 messages are ever queued (`KernelMemory.RunCapacity`).
- The comment of `get_hex_num` promises a negative value for an error.  The function is unsigned, and no caller looks:
  a line with other characters can be accepted (`Srec.NonHexAccepted`).  `Srec.EncodeParse` gives the exact condition
  under which an accepted line is the printed form of what it delivers.
- A record of length 0, and one shorter than its address, make `parse_record` read bytes it has not stored; these are
  the result `Undefined`.  A record just long enough for its address but with no checksum delivers size -1.
- `program` does not look at the results of its first two writes.
- `putcurrent` does not set `next`; it relies on the null that `getcurrent` and `memset` leave there, and the proof of
  `KernelHeap.PushRep` shows that this is enough.

## Model

| member | source | states |
|---|---|---|
| KernelInvariant.StepInv | mykozos/os/kozos.c:503-527 | Every legal entry from a state of the invariant is defined (no index outside a table, no use of a null `current`) and, unless the system goes down, ends in a state of the invariant: queues, free TCBs, stacks, handlers, buffers, mail, and `current` at the head of the lowest-numbered non-empty queue |
| KernelInvariant.StartInv | mykozos/os/kozos.c:529-557 | `kz_start` establishes the invariant, with its thread in TCB 0 running |
| KernelInvariant.CallCore | mykozos/os/kozos.c:390-439 | Every legal system or service call, handled at any point of an entry, is defined and keeps the queue, stack, buffer and mail invariants |
| KernelInvariant.SrvCallsCore | mykozos/os/kozos.c:455-468 | So does every sequence of legal service calls, each of which clears `current` |
| KernelInvariant.SyscallCore | mykozos/os/kozos.c:442-452 | Popping the caller, handling its call and storing the return value keeps them, although the call rewrites `current` |
| KernelInvariant.GetCurrentCore | mykozos/os/kozos.c:82-101 | Taking `current` off the head of its queue keeps them, when it stands there |
| KernelInvariant.PutCurrentCore | mykozos/os/kozos.c:104-124 | Appending a live `current` that is no receiver keeps them |
| KernelInvariant.ThreadRunCore | mykozos/os/kozos.c:140-207 | Starting a thread in the first free TCB keeps them |
| KernelInvariant.ThreadExitCore | mykozos/os/kozos.c:210-220 | Zeroing a caller that is off the queues keeps them |
| KernelInvariant.ThreadChPriCore | mykozos/os/kozos.c:256-263 | Changing the priority of a caller that is off the queues keeps them |
| KernelInvariant.ThreadSendCore | mykozos/os/kozos.c:332-347 | Sending, with or without a waiting receiver, keeps them |
| KernelInvariant.ThreadRecvCore | mykozos/os/kozos.c:350-371 | Receiving, blocked or not, keeps them |
| KernelInvariant.RunningThread | mykozos/os/kozos.c:82-101 | Between entries the running thread is live, ready, at the head of its queue, and no receiver |
| KernelScheduling.GetCurrentPopsHead | mykozos/os/kozos.c:92-98 | The pop that does not look at the queue removes exactly the running thread from the front of its queue, and all queues of smaller number are empty |
| KernelScheduling.TrapEntry | mykozos/os/kozos.c:442-452 | At every system call of every run, the handler starts with the caller off its queue and nothing else changed |
| KernelScheduling.CallGrow | mykozos/os/kozos.c:390-439 | No call removes a thread from a ready queue or reorders one: every old queue is a prefix of the new one |
| KernelScheduling.SrvCallsGrow | mykozos/os/kozos.c:455-468 | The same for all service calls of a handler |
| KernelScheduling.StepGrow | mykozos/os/kozos.c:503-527 | An entry only appends to the queues, once the running thread is popped where the entry pops it |
| KernelScheduling.StepPosition | mykozos/os/kozos.c:471-487 | One entry lowers the index of a thread behind the head by one if its own queue is popped, else leaves it unchanged |
| KernelScheduling.RunPosition | mykozos/os/kozos.c:82-124 | Bounded bypass, over runs of any length: a thread at index i is at index i - n after its queue was popped n <= i times |
| KernelScheduling.WaitRotates | mykozos/os/kozos.c:223-227 | `kz_wait` rotates the running thread's queue by one, changes no other queue, and dispatches the new head |
| KernelScheduling.WaitRun | mykozos/os/kozos.c:223-227 | n consecutive waits are legal, never bring the system down, and rotate the top queue by n |
| KernelScheduling.RoundRobin | mykozos/os/kozos.c:471-487 | A full round of waits leaves all queues and `current` as they were |
| KernelScheduling.RoundRobinTurn | mykozos/os/kozos.c:471-487 | After j waits of the round thread number j of the queue runs |
| KernelScheduling.ReadyHasOnePlace | mykozos/os/kozos.c:68-72 | A TCB is ready iff it stands in exactly one place of exactly one queue, that of its priority |
| KernelScheduling.ThreadPartition | mykozos/os/kozos.c:149-168 | Between entries a live thread is exactly one of ready, waiting on one mailbox, asleep; a free TCB is zero and in no queue |
| KernelScheduling.RunningIsUrgent | mykozos/os/kozos.c:471-487 | The running thread has the smallest priority number of all ready threads, and is first in its queue |
| KernelScheduling.InterruptAppends | mykozos/os/kozos.c:455-487 | An interrupt with any legal service calls only appends to queues, keeps the interrupted thread first in its own, and dispatches a most urgent thread |
| KernelLifecycle.TrapCallerReady | mykozos/os/kozos.c:140-371 | After a system call its caller is ready iff the call is not exit, sleep, an unknown type, a receive on an empty box, or a `kz_run` with a full table |
| KernelLifecycle.StepLive | mykozos/os/kozos.c:494-500 | A system call or soft error changes who is live in no way but: run adds the first free TCB, exit and soft error remove the running thread |
| KernelLifecycle.CallLive | mykozos/os/kozos.c:140-220 | The same for one call, service calls included |
| KernelLifecycle.TrapDownIff | mykozos/os/kozos.c:281-487 | A system call brings the system down iff its allocation fails, or it receives on a box that has a receiver, or it drops its caller while no other thread is ready |
| KernelLifecycle.SoftErrDownIff | mykozos/os/kozos.c:471-500 | A soft error brings the system down iff no other thread is ready |
| KernelLifecycle.InterruptDownIff | mykozos/os/kozos.c:455-527 | Any other interrupt brings it down iff a service call of its handler fails to allocate |
| KernelLifecycle.WakeupIff | mykozos/os/kozos.c:236-246 | `thread_wakeup` takes any id; the kernel stays consistent iff the target is live and is no mailbox receiver |
| KernelEffects.ChPriEffect | mykozos/os/kozos.c:256-263 | The whole state behind `kz_chpri`: the caller has the new priority, the old one if the argument is negative, is last in the queue of that priority, and finds the old priority; nothing else changes |
| KernelEffects.RunEffect | mykozos/os/kozos.c:140-207 | The whole state behind `kz_run`: the first free TCB has function, arguments and priority of the call, a stack of the size asked for above all others and the frame 36 bytes below its top; caller, then new thread, are last in their queues; the caller finds the id |
| KernelEffects.RunFullEffect | mykozos/os/kozos.c:155-156 | With a full table the caller leaves its queue and its block says -1; nothing else changes |
| KernelEffects.BootEffect | mykozos/os/kozos.c:529-557 | The whole state that `kz_start` dispatches, field by field |
| KernelEffects.WakeupEffect | mykozos/os/kozos.c:236-246 | The whole state behind `kz_wakeup`: caller, then target, go last in their queues; a target that is ready stays where it is |
| KernelEffects.SetIntrEffect | mykozos/os/kozos.c:374-388 | The whole state behind `kz_setintr`: that vector, and no other, has the handler, none for a null pointer |
| KernelEffects.SendEffect | mykozos/os/kozos.c:332-347 | The whole state behind a send to a box without receiver: the message is last in the box, the caller finds the size |
| KernelEffects.SendHandsOver | mykozos/os/kozos.c:332-347 | The whole state behind a send to a waiting receiver: the message in its block, it last in its queue behind the caller, the box empty, the buffer free |
| KernelEffects.RecvWaits | mykozos/os/kozos.c:354-365 | The whole state behind a receive on an empty box |
| KernelEffects.RecvTakes | mykozos/os/kozos.c:304-370 | The whole state behind a receive on a box with mail |
| KernelEffects.ExitEffect | mykozos/os/kozos.c:210-220 | The whole state behind `kz_exit`: the TCB is all zero and off its queue |
| KernelEffects.SleepEffect | mykozos/os/kozos.c:230-233 | The whole state behind `kz_sleep` |
| KernelEffects.PlainEffect | mykozos/os/kozos.c:223-278 | The whole state behind wait, getid, kmalloc and kmfree: the caller goes to the back of its queue and finds 0, its id, the address allocated, 0 |
| KernelEffects.UnknownEffect | mykozos/os/kozos.c:436-442 | The whole state behind a call of unknown type: the caller leaves its queue, its block is untouched |
| KernelEffects.SrvCallEffect | mykozos/os/kozos.c:455-468 | The whole state and the return value of each service call: the same without a caller to put back, and with a null sender |
| KernelEffects.SoftErrEffect | mykozos/os/kozos.c:494-500 | The whole state behind a soft error |
| KernelEffects.InterruptEffect | mykozos/os/kozos.c:503-527 | The whole state behind any other interrupt: the stack pointer saved, then the service calls of the handler one after another |
| KernelMail.TrapMail | mykozos/os/kozos.c:281-371 | The mail of one system call: a send records one message with the caller as sender, handed over at once iff a receiver waits; a receive takes the oldest message iff there is one |
| KernelMail.CallMail | mykozos/os/kozos.c:390-439 | The same for one call; a service call sends with a null sender |
| KernelMail.RunFifo | mykozos/os/kozos.c:281-347 | Exactly once, in order, over every run from `kz_start`: messages sent to a box are those delivered from it followed by those queued in it |
| KernelMail.SendWakes | mykozos/os/kozos.c:332-347 | A send to a box with a waiting receiver makes it ready with the sender, size and pointer of that message in its parameter block |
| KernelMail.StepProgress | mykozos/os/kozos.c:390-431 | One entry leaves a blocked receiver's call and block untouched and sends nothing to its box, or delivers to it and makes it ready |
| KernelMail.StepKeeps | mykozos/os/kozos.c:390-431 | One entry leaves flag, call and block of a ready thread that is not running untouched: the return value of another call is never stored there |
| KernelMail.BlockedReceive | mykozos/os/kozos.c:350-371 | No lost wakeup, over any run in which the thread does not run: it still waits with its block unchanged and nothing was sent to its box since, or it is ready with its block holding a message delivered to it from that box |
| KernelMail.ReceiveReturns | mykozos/os/kozos.c:304-325 | When a blocked thread is dispatched again, its receive was served |
| KernelMail.ReceiveBlocks | mykozos/os/kozos.c:354-365 | A receive on an empty box registers the caller and stores -1 |
| KernelMail.ReceiveTakes | mykozos/os/kozos.c:304-370 | A receive on a box with mail returns the oldest message in the block and keeps its caller ready |
| KernelMail.BoxesExclusive | mykozos/os/kozos.c:281-371 | No box has both a receiver and a message; a receiver is live, not ready, and waits on one box |
| KernelMail.BufferConservation | mykozos/os/kozos.c:281-329 | Between entries the message buffers in use are exactly those linked in the 17 mailboxes, one for each queued message |
| KernelMail.CountLinked | mykozos/os/kozos.c:294-300 | Buffers linked in any number of boxes are as many as their messages: none is linked twice |
| KernelDeliveries.StepDeliveries | mykozos/os/kozos.c:304-347 | An entry writes the block of a thread that is not running by the deliveries to it only, in their order |
| KernelDeliveries.CallerDeliveries | mykozos/os/kozos.c:390-439 | The block of a caller after its call is what was delivered to it during the call, with the return value stored last |
| KernelDeliveries.StepServes | mykozos/os/kozos.c:332-371 | An entry delivers only to threads that waited, or to a running thread that receives; nobody else comes to wait |
| KernelStacks.EntryStack | mykozos/os/kozos.c:170-197 | An entry gives no live thread another stack, frame, call or block, and new threads stacks that nobody had |
| KernelStacks.PlacedStep | mykozos/os/kozos.c:560-565 | Between entries the parameter block of each thread lies on its own stack, if each call passes one there |
| KernelStacks.BlocksApart | mykozos/os/kozos.c:560-565 | So no two threads have the same parameter block |
| KernelMemory.AskedLegal | mykozos/os/kozos.c:285-288 | With the pools as allocator, the buffer that a send gets is none of those linked in a mailbox: the kernel needs no freshness assumption |
| KernelMemory.CallBacked | mykozos/os/kozos.c:265-329 | Every call keeps the linked buffers in blocks that the pools have in use: sends allocate, deliveries free |
| KernelMemory.FreeIff | mykozos/os/kozos.c:273-278 | `kz_kmfree` frees whatever it is given; the mailboxes keep their buffers iff the block is none of them |
| KernelMemory.JointStep | mykozos/os/kozos.c:503-527 | One entry of kernel and pools together is legal for the kernel and keeps the invariant of both |
| KernelMemory.JointIsRun | mykozos/os/kozos.c:503-527 | Every run with the pools is a legal run of the kernel with the same outcome, so all results over runs hold of it |
| KernelMemory.JointBoot | mykozos/os/kozos.c:529-557 | `kz_start` on fresh pools establishes the invariant of both |
| KernelMemory.RunCapacity | mykozos/os/kozos.c:281-301 | Over every run from `kz_start` all mailboxes together hold at most 32 messages |
| KernelMemory.SendDownIff | mykozos/os/kozos.c:285-288 | A send brings the system down iff all 32 blocks of 64 bytes are in use |
| KernelMemory.KMallocEffect | mykozos/os/kozos.c:266-270 | `kz_kmalloc` goes down iff the size is negative, above 2040, or the pool that serves it is exhausted; else the caller finds the first free block of that pool, now in use |
| KernelMemory.KMFreeEffect | mykozos/os/kozos.c:273-278 | `kz_kmfree` puts the block in front of the free list of its pool |
| KernelMemory.SendPools | mykozos/os/kozos.c:281-347 | A send takes one block of 64 bytes for the message, and gives it back at once iff a receiver waits |
| KernelMemory.RecvPools | mykozos/os/kozos.c:304-329 | A receive with mail gives the block of the oldest message back |
| KernelMemory.OtherPools | mykozos/os/kozos.c:390-439 | Every other call leaves the pools alone |
| KernelMemory.AnswersEffect | mykozos/os/kozos.c:455-468 | The service calls of a handler are answered one after another from the pools that the calls before left |
| KernelHeap.Kernel.GetCurrent | mykozos/os/kozos.c:82-101 | The head and tail pointer stores take `current` off its queue, with the three return codes |
| KernelHeap.Kernel.PutCurrent | mykozos/os/kozos.c:104-124 | The pointer stores append `current` to the chain of its priority, with the three return codes |
| KernelHeap.Kernel.ThreadRun | mykozos/os/kozos.c:140-207 | The search loop takes the first free TCB, initialises it, appends the caller and then the new thread; with a full table it returns -1 and leaves the caller off |
| KernelHeap.Kernel.ThreadExit | mykozos/os/kozos.c:210-220 | The TCB of `current` is zeroed and no chain is broken |
| KernelHeap.Kernel.ThreadWakeup | mykozos/os/kozos.c:236-246 | The caller and then the target are appended; `current` is left as the target |
| KernelHeap.Kernel.ThreadGetId | mykozos/os/kozos.c:249-253 | Returns `current`, null for a service call |
| KernelHeap.Kernel.ThreadChPri | mykozos/os/kozos.c:256-263 | Returns the old priority and queues the caller by the new one, by the old one if the argument is negative |
| KernelHeap.Kernel.SendMsg | mykozos/os/kozos.c:281-301 | A buffer is linked behind the tail of the mailbox; without one the system goes down |
| KernelHeap.Kernel.LinkMsg | mykozos/os/kozos.c:289-300 | The stores into the new buffer, the old tail and the mailbox append to the chain and leave the other 16 mailboxes alone |
| KernelHeap.Kernel.RecvMsg | mykozos/os/kozos.c:304-329 | The first buffer leaves its chain, fills the block of the receiver, and is freed; no receiver is left |
| KernelHeap.Kernel.UnlinkMsg | mykozos/os/kozos.c:309-328 | The stores into the mailbox and its first buffer remove it from the chain |
| KernelHeap.UnlinkFirst | mykozos/os/kozos.c:309-328 | The exact new mailbox and buffers |
| KernelHeap.Kernel.Fill | mykozos/os/kozos.c:316-322 | Sender always, size and pointer only where the receiver passed a place for them |
| KernelHeap.Kernel.ThreadSend | mykozos/os/kozos.c:332-347 | Send, and hand over at once to a waiting receiver, which becomes `current` |
| KernelHeap.Kernel.ThreadRecv | mykozos/os/kozos.c:350-371 | Down on a second receiver; -1 and blocked on an empty box; else the oldest message |
| KernelHeap.Kernel.ThreadSetIntr | mykozos/os/kozos.c:374-388 | The handler table entry is replaced and the caller appended |
| KernelHeap.Kernel.CallFunctions | mykozos/os/kozos.c:390-439 | The dispatch on the call type |
| KernelHeap.Kernel.StoreRet | mykozos/os/kozos.c:390-439 | A return value goes to the block that the call was made with, whoever `current` is by then |
| KernelHeap.Kernel.SyscallProc | mykozos/os/kozos.c:442-452 | Pop the caller, handle its call |
| KernelHeap.Kernel.SrvcallProc | mykozos/os/kozos.c:455-468 | Clear `current`, handle the call |
| KernelHeap.Kernel.Schedule | mykozos/os/kozos.c:471-487 | `current` becomes the head of the first non-empty queue; the system goes down if there is none |
| KernelHeap.Kernel.SoftErrIntr | mykozos/os/kozos.c:494-500 | The running thread is popped and its TCB zeroed |
| KernelHeap.Kernel.ThreadIntr | mykozos/os/kozos.c:503-527 | Save the stack pointer, run the registered handler, schedule |
| KernelHeap.Kernel.KzSyscall | mykozos/os/kozos.c:560-565 | The call and its block, anywhere on the caller's stack, are recorded before the trap |
| KernelHeap.Kernel.Trap | mykozos/os/kozos.c:503-565 | A whole system call on the pointer structures: the abstract kernel takes exactly its next state, every chain is again well formed, and the system goes down iff the abstract one does |
| KernelHeap.Kernel.Interrupt | mykozos/os/kozos.c:503-527 | The same for every other vector |
| KernelHeap.Kernel.RunEntries | mykozos/os/kozos.c:503-565 | The same for a whole run of entries |
| KernelHeap.Kernel.constructor | mykozos/os/kozos.c:529-557 | `kz_start` clears the tables, registers its two handlers and starts the first thread, on the pointer structures |
| KernelHeap.PopRep | mykozos/os/kozos.c:92-98 | Moving the head pointer removes the head of one chain and keeps all chains acyclic, disjoint and ended by the tail |
| KernelHeap.PushRep | mykozos/os/kozos.c:114-121 | Linking behind the tail appends to one chain and keeps all of them so |
| KernelHeap.SendRep | mykozos/os/kozos.c:289-300 | The same for the chain of a mailbox, against all 17 mailboxes |
| KernelHeap.RecvRep | mykozos/os/kozos.c:309-328 | The same for unlinking and freeing the first buffer |
| KernelHeap.ChainAppend | mykozos/os/kozos.c:289-300 | Linking a buffer behind the tail makes the chain of messages the old one with that message behind it |
| KernelHeap.ChainPop | mykozos/os/kozos.c:309-328 | Moving the head and freeing the first buffer makes it the old one without its first message |
| Context.LoadStore | mykozos/os/startup.s:14-23 | A stored 32-bit word is loaded back |
| Context.Pushed | mykozos/os/intr.S:31-37 | Pushed words are read back in reverse, and no byte outside them changes |
| Context.PushedFrame | mykozos/os/intr.S:56-63 | The pushes of an interrupt entry leave the frame of the interrupted registers at the stack pointer |
| Context.FrameSurvives | mykozos/os/kozos.c:170-197 | A frame is unaffected by writes anywhere else |
| Context.FrameDetermines | mykozos/os/startup.s:14-23 | A frame holds one set of registers only |
| Context.NewStackFrame | mykozos/os/kozos.c:176-197 | The nine words pushed for a new thread are a frame that `_dispatch` accepts, with `thread_end` as the return address above it, and no other byte changes |
| Context.BuildStack | mykozos/os/kozos.c:176-197 | The stores through `sp` leave, from `sp` up, the TCB, six zeros, `thread_init` with 0xc0 above it iff the priority is 0, and `thread_end` |
| Context.Cpu.PushFrame | mykozos/os/intr.S:56-63 | ER0 to ER6 stand at 0 to 24 above the new stack pointer, CCR and PC in the word at 28 |
| Context.Cpu.PopFrame | mykozos/os/startup.s:16-23 | The loads, in the order of the source, give back ER0-ER6, stack pointer, CCR and PC |
| Context.Cpu.EnterAndReturn | mykozos/os/intr.S:56-78 | An interrupt whose vector is empty changes no register, over the switch to the interrupt stack and back |
| Context.Cpu.Dispatch | mykozos/os/startup.s:14-23 | `_dispatch` loads ER0 to ER6 from 0 to 24 above the saved stack pointer, CCR and PC from the word at 28, and leaves the stack pointer behind it |
| CallBlocks.ReturnInMemory | mykozos/os/kozos.c:394-435 | Storing a return value, with the offset and width of its call, is read back from the block |
| CallBlocks.InMemoryMeans | mykozos/os/kozos.c:394-435 | What the bytes at that place are: the low 16 or 32 bits of a number, or the address of a TCB |
| CallBlocks.RetPlace | mykozos/os/kozos.c:394-435 | The offset of each `ret` follows from the sizes of the members before it |
| CallBlocks.DeliveriesInMemory | mykozos/os/kozos.c:316-322 | After any deliveries to a thread and to others, the return value in its block in memory is the one of the kernel's state |
| CallBlocks.DeliveriesPlaces | mykozos/os/kozos.c:318-322 | The same for `*sizep` and `*pp` where they lie on the stack of the receiver |
| CallBlocks.DeliveriesMiss | mykozos/os/kozos.c:316-322 | Deliveries change no byte outside the blocks of their receivers and what those point to |
| Machine.StoresMissFrame | mykozos/os/kozos.c:316-322 | No store of the kernel during an entry, into blocks, through `sizep` and `pp`, or into new stacks, touches the saved frame of any thread |
| Machine.EnterFrames | mykozos/os/kozos.c:503-525 | After every entry each live thread has its frame on its own stack |
| Machine.EnterResumes | mykozos/os/kozos.c:503-525 | The dispatched thread gets exactly the registers with which it last entered the kernel, or its start registers, and the machine invariant holds again |
| Machine.ActInv | mykozos/os/kozos.c:503-525 | It is kept while threads compute, writing anywhere but on the stacks of others |
| Machine.ResumeExactly | mykozos/os/startup.s:14-23 | Over runs of any length, a suspended thread resumes with exactly the ER0-ER6, stack pointer, PC and CCR it had |
| Machine.EnterReturns | mykozos/os/kozos.c:394-435 | A system call leaves its return value, and the size and pointer of a message delivered at once, on its caller's stack |
| Machine.EnterKeepsReturn | mykozos/os/kozos.c:304-322 | Entries of others keep it there, or replace it by the sender, size and pointer of what they deliver |
| Machine.CallReturns | mykozos/os/kozos.c:390-439 | Over runs of any length, a caller runs on with exactly the registers with which it trapped, and finds in memory the return value, and after a receive the size and pointer, of the kernel's state |
| Receive.MachineRun | mykozos/os/kozos.c:503-525 | Every run of the machine, with threads that compute in between, is a legal run of its kernel |
| Receive.ReceiveReturnsMessage | mykozos/os/kozos.c:304-371 | A receive that blocked: whenever its thread runs again, over runs of any length, it has its registers back and finds in memory the sender, size and pointer of a message delivered to it from that mailbox |
| Machine.BootInv | mykozos/os/kozos.c:529-557 | It holds when the first thread is dispatched |
| Machine.BootResumes | mykozos/os/kozos.c:529-557 | The first thread starts in `thread_init` with its TCB in ER0, zeros in ER1-ER6, and interrupts masked iff its priority is 0 |
| Machine.NewThreadStarts | mykozos/os/kozos.c:176-197 | A thread that an entry creates is to start with its TCB in ER0, zeros in ER1-ER6, PC `thread_init`, interrupts masked iff its priority is 0, and has that frame on its stack |
| Machine.RunStarts | mykozos/os/kozos.c:140-207 | For `kz_run`: with the priority and on the stack of the call |
| Machine.FirstDispatch | mykozos/os/startup.s:14-23 | Its first dispatch, at once or after any run without it, loads exactly those registers |
| Srec.GetHexNum | tools/kz_h8write/mot.c:66-74 | The value of an upper-case hexadecimal digit, 2^32 - 1 for any other character |
| Srec.HexPair | tools/kz_h8write/mot.c:113-113 | Two digits in the wrapping unsigned arithmetic of the source, as an int and as the byte stored by line 130 |
| Srec.FillBuffer | tools/kz_h8write/mot.c:128-134 | The buffer holds the bytes behind the length, `chksum` the length plus all of them but the last, modulo 256 |
| Srec.ParseRecord | tools/kz_h8write/mot.c:83-234 | The error codes -1 to -5 in order, or the address, data and size handed over, or the reads of unstored bytes |
| Srec.ParseCodes | tools/kz_h8write/mot.c:90-116 | Exactly which lines get -1, -2, -3 and -4 |
| Srec.DeliveryMeaning | tools/kz_h8write/mot.c:147-231 | For a line that passes: nothing for types 0 and 4-9; address from 2, 3 or 4 bytes, high byte first, and the bytes up to the checksum for types 1, 2, 3; unstored bytes are read iff it is shorter than its address |
| Srec.ByteOfLine | tools/kz_h8write/mot.c:129-131 | Each byte is 16 times one digit plus the next, modulo 256 |
| Srec.Deliver | tools/kz_h8write/mot.c:147-231 | Address and data of types 1, 2 and 3; other types hand over nothing |
| Srec.ParseEncode | tools/kz_h8write/mot.c:83-189 | Parsing the printed form of (type, address, data) hands over exactly that address and data |
| Srec.EncodeParse | tools/kz_h8write/mot.c:83-189 | A line that hands over data is the printed form of what it hands over iff every character behind the type is an upper-case hexadecimal digit |
| Srec.NonHexAccepted | tools/kz_h8write/mot.c:66-74 | A line that is accepted although it holds a character that is no digit |
| Srec.ReadPrinted | tools/kz_h8write/mot.c:51-189 | The same as ParseEncode behind any LF, CRLF or empty ending |
| Srec.AcceptedIff | tools/kz_h8write/mot.c:113-138 | A line of matching length passes iff length plus all bytes, checksum included, is 255 modulo 256, and fails with -5 otherwise |
| Srec.WrongByteRejected | tools/kz_h8write/mot.c:128-138 | An accepted line with one pair behind the length replaced by one of another value is rejected with -5 |
| Srec.ShortRecordAddress | tools/kz_h8write/mot.c:128-189 | A record one byte too short for its address hands over size -1 and an address that is never 0 |
| Srec.TextTrim | tools/kz_h8write/mot.c:51-58 | Exactly the control characters of the string become NUL, which cuts it at the first |
| Srec.TrimEnding | tools/kz_h8write/mot.c:51-58 | An LF or CRLF ending is removed and nothing else |
| Writer.Writer.constructor | tools/kz_h8write/kz_h8write.c:751-753 | The image starts erased |
| Writer.Writer.MotCallback | tools/kz_h8write/kz_h8write.c:116-128 | The loop overlays the data on the image; `memory_lastaddr` rises to the end of the record |
| Writer.Writer.MotRead | tools/kz_h8write/mot.c:268-286 | Returns 0 iff every line is empty, of a type without data, or delivers, and -2 iff the first that is not is refused; the image is that of exactly the deliveries before it, in order |
| Writer.Writer.ReadOne | tools/kz_h8write/mot.c:272-275 | An empty line is skipped, any other is trimmed and parsed |
| Writer.ReadStops | tools/kz_h8write/mot.c:275-278 | Lines behind a refused one do not matter |
| Writer.ReadEnds | tools/kz_h8write/mot.c:268-286 | The records are the deliveries of the lines before the first that is not accepted; a refused line gives -2, none gives 0 |
| Flash.ImageByte | tools/kz_h8write/kz_h8write.c:116-128 | After any list of in-range records each image byte is that of the last record covering it, 0xff where none does |
| Flash.ByteSource | tools/kz_h8write/kz_h8write.c:116-128 | That byte is one of a record that covers the address, with no later one covering it, or 0xff if none does |
| Flash.LastIsMax | tools/kz_h8write/kz_h8write.c:125-127 | `memory_lastaddr` is the maximum of the ends of all records |
| Flash.OrderIrrelevant | tools/kz_h8write/kz_h8write.c:116-128 | Records with pairwise disjoint ranges give the same image in any order |
| Flash.LimitInside | tools/kz_h8write/kz_h8write.c:62-62 | `ROUND_OUT(last, 128)` is the next multiple of 128, and inside the image for any end inside it |
| Flash.AllIsSent | tools/kz_h8write/kz_h8write.c:539-549 | Every address a record covers lies below the bound of the sending loop, and that inside the image |
| Flash.FrameParts | tools/kz_h8write/kz_h8write.c:542-553 | A frame starts with 0x50, carries its address big-endian and the 128 image bytes, and sums to 0 modulo 256 |
| Flash.DeviceHolds | tools/kz_h8write/kz_h8write.c:539-556 | A device that stores the payload of well-formed frames holds, after n frames, exactly the first n * 128 image bytes |
| Flash.FileReachesFlash | tools/kz_h8write/kz_h8write.c:539-556 | From the lines of a file to the device: below the bound each address holds the byte of the last record covering it, or 0xff |
| Flash.PrintedFile | tools/kz_h8write/mot.c:268-286 | A file of printed records with any line endings is read as exactly those records |
| Link.RequestArrives | tools/kz_h8write/kz_h8write.c:174-269 | For every command and up to 255 data bytes, `read_response` on what `write_request` emits returns 0 with the same command, length and data |
| Link.WrongByteNoticed | tools/kz_h8write/kz_h8write.c:255-268 | One changed byte, the length byte excepted, always makes it return -5 |
| Link.ResponseCodes | tools/kz_h8write/kz_h8write.c:227-269 | Exactly which bytes give which code; fewer than the length announces never give 0 |
| Link.CompleteDelivers | tools/kz_h8write/kz_h8write.c:480-619 | A complete trace hands exactly the data frames to the device, in order |
| Link.CompleteMeans | tools/kz_h8write/kz_h8write.c:503-616 | A complete trace writes 0x40, 0x43, each frame in order and 50 ff ff ff ff b4, and behind each write has at most 80, 1, 6 and 1 reads of which the last, and only the last, is 0x06 |
| Link.MeansComplete | tools/kz_h8write/kz_h8write.c:503-616 | And every such trace is complete |
| Link.StoppedMeans | tools/kz_h8write/kz_h8write.c:512-611 | A stopped trace is the same up to one exchange, whose write failed or whose reads, exhausted, were not 0x06; one more read, and nothing else, follows |
| Link.StoppedIncomplete | tools/kz_h8write/kz_h8write.c:521-616 | A trace that ends in a failed exchange is not complete, nor is any continuation of it |
| Link.StoppedWrote | tools/kz_h8write/kz_h8write.c:521-616 | Nothing is written behind the bytes of the exchange that failed |
| Link.StoppedDelivers | tools/kz_h8write/kz_h8write.c:554-582 | On any failure the data frames the device received are a prefix of those to be sent |
| Link.PollFails | tools/kz_h8write/kz_h8write.c:504-510 | A poll without an ACK in the allowed number of reads is no exchange, whatever follows |
| Link.TransferReachesFlash | tools/kz_h8write/kz_h8write.c:480-619 | After a complete transfer of a file's image the device holds the byte of the last record covering each address, 0xff where none does, and all that any record covers |
| Port.Serial.WriteRequest | tools/kz_h8write/kz_h8write.c:174-209 | The trace: command, length, data, checksum, each written once and in order, up to the write that fails and gives the code |
| Port.Serial.ReadResponse | tools/kz_h8write/kz_h8write.c:227-269 | The code and buffer that follow from the bytes arriving before the next timeout |
| Port.Serial.ReadBytes | tools/kz_h8write/kz_h8write.c:232-250 | All bytes, or failure at the first timeout |
| Port.Serial.ComGetc | tools/kz_h8write/kz_h8write.c:138-145 | The next byte; a timeout reads as 0xff in an unsigned char |
| Port.Serial.Perform | tools/kz_h8write/kz_h8write.c:503-582 | One write and its polls end in an ACK, or in a failed exchange with one more read for the error code |
| Port.Serial.BuildFrame | tools/kz_h8write/kz_h8write.c:540-553 | The loops fill the buffer with the frame of the next 128 image bytes |
| Port.Serial.Program | tools/kz_h8write/kz_h8write.c:480-619 | Returns NoError iff the trace is erase, ACK, select, ACK, each frame in order with its ACK, end frame, ACK, with at most 79 non-ACK reads after erase and 5 after a frame; otherwise the trace stops at one failed exchange |
| Port.FlashFile | tools/kz_h8write/kz_h8write.c:751-863 | Erase the image, read the file, program: a refused file sends nothing; else NoError iff the trace is the complete transfer of its image, and then the device holds what the file says |

## Left out

- Thread names, console output, and the clearing of a stack's contents: no kernel decision depends on them.
- The system call stubs of `syscall.c`, but for the place of their parameter blocks, and the drivers and network code above the kernel.
- `softvec_setintr` and `interrupt`: an entry of any vector below 6 reaches `thread_intr`, with or without a handler, which includes all that can happen; an empty soft vector is `Context.Cpu.EnterAndReturn`.
- The break point vector's own entry code, which relies on a debugger stub.
- `thread_init` and `thread_end` themselves, which call the thread's function and then `kz_exit`.
- Interrupts while the kernel itself runs: it runs with interrupts masked.
- The upper end of the stack area: stacks are disjoint and above the mark, but the area is taken to be large enough.
- 16-bit overflow of priorities, sizes and counts: these are unbounded integers in the kernel model.
- KernelHeap.Kernel.Trap: TCB pointers are table indices and buffers are addresses in a map, so pointers outside the tables are not modelled; the answer of the allocator is an argument, which `KernelMemory.JointIsRun` supplies from the pools.
- KernelHeap.Kernel.ThreadRun: the contents of the new stack are in `Context.BuildStack` and `Machine`, not in this class.
- KernelHeap.Kernel.Fill: only the three output cells of a parameter block are modelled, and no two of them are aliases.
- Machine.EnterLegal: the input half of a block is not read from memory; the call is a value of the entry.
- Machine.CallReturns: for `*sizep` and `*pp` the memory theorem speaks of places on the caller's own stack; elsewhere other threads may write before the caller runs. The blocks of service calls are on the interrupt stack and are not modelled.
- Machine.ActInv: a thread that writes on the stack of another is not modelled.
- MemPool.KzMem.KzmemFree: the caller passes a block that is in use; for any other address the source reads whatever lies there.
- MemPool.AllocOk: the header of 8 bytes and the message buffer of 16 are those of 32-bit pointers, 16-bit ints and 4-byte alignment, as in the shipped `mykozos/os/kozos.elf`.
- Writer.Writer.MotCallback: requires the record to end inside the image; the source does not check.
- Writer.Writer.MotRead: `fgets` splitting lines longer than its buffer, and failure to open the file (-1), are not modelled; a null callback neither.
- Srec.ParseRecord: a type 3 address of 0x80000000 or more overflows a signed multiplication in C; the model takes the wrapped value.
- Port.Serial.Program: requires `memory_lastaddr` inside the image, which `Flash.LastInside` proves for in-range records.
- Port.Serial.ReadBytes: time is not modelled; bytes stored before a timeout are not specified.
- Port.FlashFile: the bitrate, inquiry and device, clock and rate selection sequences that `main` runs between reading and programming, and option parsing.
- `motdump`, XMODEM and ELF loading, the Python and shell scripts.
