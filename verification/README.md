# Proofs about sbox

sbox runs a library in a sandbox and lets a host program call it. Its process
backend (pbox) keeps the library in a child process and hands each call over a
shared-memory channel; dyfn turns the argument bytes into a native call and
native calls into callbacks. Two more backends run the library in the host
process, by reference (passthrough) or on a software-isolated stack (LFI).

This project models those parts and proves what they are for.

- **The call channel** (`Direct`, `Channel`, `ChannelRuns`, `ChannelTheorems`,
  `ChannelAlone`): host and worker as two programs over one state word and one
  payload, interleaved one atomic step at a time, with store and wake apart,
  stale wakes, retried waits and waits that end without a wake. Any number of
  threads, each with its own channel and worker, share one host memory and one
  sandbox memory. Callees and host callbacks are arbitrary functions of the thread
  they run on and of both memories, so either may use memory mapped into both
  processes, and calls need not end. Every run is an interleaving of the threads
  calling directly; ownership and wakeups hold in every state; every schedule is
  linear in the callbacks it makes. For one thread the channel gives exactly what
  the plain sequence of calls gives, and ends exactly when that sequence does.
- **Threads** (`Threads`): any number of host threads creating and giving up
  channels under `channel_lock`, with one control channel and one worker each.
- **Marshalling** (`Types`, `Marshal`, `CallFrame`, `CallResult`, `Layout`): the
  register and spill placement, its inverse in the closure path, both
  architectures' assembly on a machine state, results on their way back, and the
  structure offsets, against the calling conventions (sections 3.2.2 and 3.2.3 of
  the System V AMD64 psABI, section 6.8.2 of AAPCS64).
- **Callbacks** (`Registry`): registration store by store, the unlocked reads of
  dispatching threads, closures and stub slots, over all runs.
- **Identity memory** (`ProcMaps`, `Identity`, `Arena`, `ArenaContexts`,
  `ChunkedCopy`): the common-address search, the two-phase mapping, the bump
  arenas, the contexts that take cells from them, and the chunked copies.
- **CallContext** (`CallContext`, `CallContextSharing`): copy in, copy back,
  against by reference.
- **Descriptors** (`FdCache`), **filters** (`Seccomp`) and the **LFI stack**
  (`LfiStack`). `Common`, `Memory` and `Alignment` are shared helpers.

Code that changes state in place is a class or a method with loops, proved
against functions whose properties the lemmas state. The two-party protocols are
step functions over a state value, because what matters about them is every
interleaving. The assembly works on a value holding registers and memory, one
statement to an instruction or a run of like instructions.

System calls, allocation, symbol lookup and the kernel's choices enter as
parameters: any answer they could give is allowed for.

## Where a promise holds only under a condition

- Ten is the largest argument count for which four spill slots suffice on x86-64
  (`Marshal.SpillBoundExact`).
- `pbox_mmap_identity` is all-or-nothing exactly when each munmap it makes works
  (`Identity.AllOrNothing`): it ignores their answers, and without a munmap
  symbol in the sandbox none is made there (`Identity.AllOrNothingSymbol`). The
  descriptor sent to the sandbox stays open there on every path, although the
  comment at src/pbox/pbox.c:877-878 calls it temporary.
- Copying in and back equals passing by reference exactly when out bytes are
  written before they are read and before the call ends, and in variables end
  unchanged (`CallContext.AgreementExact`). So an out variable the callee does
  not fill comes back as whatever the arena held, also when a context is unwound
  before its call (`CallContext.UncalledContext`). It takes parameters that share
  no byte of a variable, no more and no less (`CallContextSharing.SharingExact`).
- Destroying a process-backend context resets the arena under every context open
  on the thread. Their cells stay apart exactly while what is granted after a
  reset stays below every non-empty cell still held from before it
  (`ArenaContexts.ApartExact`); two contexts and two cells are enough for a clash
  (`ArenaContexts.ClashReachable`). Granting no non-empty cell while such a cell is
  held is enough but more than is needed (`ArenaContexts.UnriskyIsApart`,
  `ArenaContexts.RiskyYetApart`). LFI contexts nest (`LfiStack.ContextRestores`).
- Between `close` in the sandbox and the cache update, sends of the descriptor
  being closed answer with it though it is closed or another file's; afterwards
  the cache is right unless the sandbox handed the number out again for a host
  descriptor that lies below it in the direct table (`FdCache.CloseAmid`; from a
  new cache and for any two descriptors, `FdCache.WrongEntry`). However several
  closes and sends interleave, only entries for descriptors closed meanwhile are
  lost or wrong (`FdCache.Mingle`).
- A dispatch for an id the sandbox made up finds a fully initialised entry, in
  every run, exactly when no registration is withdrawn for want of a channel
  (src/pbox/pbox.c:794-799); with a withdrawal it can find one being filled again
  (`Registry.MadeUpIdsExact`). A stub's id always finds its own entry.
- The offset check of a dispatched callback keeps its reads inside the channel;
  they stay inside arg_storage exactly when each argument also ends there
  (`Channel.DispatchReadsExact`).
- `channel_lock` is held for good exactly when the sandbox has failed to start a
  worker (`Threads.LockKeptExact`); otherwise it is released within twelve steps
  made for its holder (`Threads.LockReleased`).
- The comment at include/sbox/lfi.hh:142-146 says the callee sees stack
  arguments from RSP+8; they are at the staged stack pointer, which is that
  place once the trampoline has pushed a return address.

## Model

| member | source | states |
|---|---|---|
| Types.WordRoundTrip | src/dyfn/dyfn.c:61-80 | the bytes of a slot are recovered from the little-endian word the assembly moves |
| Types.WordOfAppend | src/dyfn/dyfn.c:61-80 | words are little-endian: the byte at offset n weighs 256^n |
| Types.ZeroExtends | src/dyfn/dyfn.c:53-80 | a value copied into a cleared slot is the same number |
| Types.WidthsAreC | src/dyfn/dyfn.c:23-48 | the width of every type code |
| Marshal.SpillsClosedForm | src/dyfn/dyfn.c:57-81 | spills are max(0, ints - R) + max(0, floats - 8), for every argument list |
| Marshal.SpillBound | src/dyfn/dyfn.h:11-20 | up to ten arguments of any mix never spill more than the four slots of stack_args |
| Marshal.SpillBoundExact | src/dyfn/dyfn.h:44-54 | ten is exactly the largest count for which that holds on x86-64 |
| Marshal.PlacesDistinct | src/dyfn/dyfn.c:61-80 | no two arguments share a register or spill slot |
| Marshal.PlaceInRange | src/dyfn/dyfn.c:61-80 | every argument's place is a register its file has, or a slot in use |
| Marshal.ConventionExact | src/dyfn/dyfn.c:57-81 | the placement is the only one in which each argument has the first free register of its class, six or eight and eight of them, or the next stack slot when none is free |
| Marshal.PlacedAt | src/dyfn/dyfn.c:53-81 | each argument's bytes sit in the low bytes of the place the convention assigns it; all else is as it was |
| Marshal.ArgumentValue | src/dyfn/dyfn.c:53-81 | every argument is zero-extended in its place and every other place is zero |
| Marshal.NextIsPlace | src/dyfn/dyfn.c:57-81 | the running counters pick, for argument i, the place that counting the earlier arguments of its class assigns |
| Marshal.CountersMeaning | src/dyfn/dyfn.c:57-81 | what int_count, float_count and stack_count are after n arguments |
| Marshal.RegisterRoundTrip | src/pbox/pbox_sandbox.c:39-61 | reading back any register image that agrees on the places in use recovers every argument, across both files and the spill area |
| Marshal.PackRoundTrip | src/pbox/pbox.c:604-616 | bytes packed at running offsets are recovered by offset and size |
| Marshal.MarshalRoundTrip | include/sbox/process.hh:104-124 | pack, place, save, repack and unpack gives back the original arguments, in order |
| Marshal.CallArgs.File | src/dyfn/dyfn.c:61-80 | one argument goes to the next place of its class and nothing else changes |
| Marshal.CallArgs.PrepCall | src/dyfn/dyfn.c:50-83 | the whole loop leaves the register image of the convention and the three counts, staying in bounds |
| Marshal.NextSaved | src/pbox/pbox_sandbox.c:45-59 | the closure's indices read the place of the next argument |
| Marshal.ArgArea.PackCall | src/pbox/pbox.c:608-616 | pbox_call leaves the packed bytes and offsets and no other byte of arg_storage or args changed |
| Marshal.ArgArea.ExtractSaved | src/pbox/pbox_sandbox.c:39-61 | the closure overwrites arg_storage with exactly the saved arguments |
| CallFrame.PushSpilled | src/dyfn/dyfn_x86_64.S:34-40 | the push loop copies the spill area word for word below the old stack pointer, for any count |
| CallFrame.Spill | src/dyfn/dyfn_x86_64.S:25-41 | spilled word i is at RSP+8i, the drop is even, memory outside it is unchanged |
| CallFrame.Prologue | src/dyfn/dyfn_x86_64.S:8-50 | at the call RSP is 16-aligned, registers and target are loaded, spilled arguments lie at RSP+8i, memory above is unchanged |
| CallFrame.Epilogue | src/dyfn/dyfn_x86_64.S:52-59 | rax and xmm0 go to the result; RSP and callee-saved registers return |
| CallFrame.DyfnCall | src/dyfn/dyfn_x86_64.S:7-59 | the whole call for any spill count and any given callee that keeps to the convention |
| CallFrame.ClosureEntry | src/dyfn/dyfn_x86_64.S:93-127 | the stub saves registers and the four words above the return address, with the stack aligned for dispatch |
| CallFrame.ClosureExit | src/dyfn/dyfn_x86_64.S:129-133 | the dispatch result reaches rax and xmm0 and the caller gets its stack back |
| CallFrame.CopyStack | src/dyfn/dyfn_aarch64.S:29-35 | the copy loop moves all n words and touches nothing else |
| CallFrame.Spill64 | src/dyfn/dyfn_aarch64.S:20-36 | rounding to even keeps alignment; spilled word i is at SP+8i |
| CallFrame.Prologue64 | src/dyfn/dyfn_aarch64.S:8-44 | the AArch64 call site meets the convention |
| CallFrame.Epilogue64 | src/dyfn/dyfn_aarch64.S:46-52 | x0 and d0 go to the result; SP and saved registers return |
| CallFrame.DyfnCall64 | src/dyfn/dyfn_aarch64.S:7-52 | the whole AArch64 call, for any given callee |
| CallFrame.ClosureEntry64 | src/dyfn/dyfn_aarch64.S:90-113 | the AArch64 stub saves registers and the four words at SP |
| CallFrame.ClosureExit64 | src/dyfn/dyfn_aarch64.S:115-119 | the dispatch result reaches x0 and d0; SP, x29 and x30 return |
| CallFrame.StubSeesArguments | src/pbox/pbox_sandbox.c:25-61 | through both pieces of assembly, a closure called by dyfn_call reads back every argument filed by dyfn_prep_call |
| CallFrame.SpilledLast | src/dyfn/dyfn.h:11-20 | an argument is on the stack only when an earlier one has each register of its class that the call loads |
| CallResult.StoreResult | src/dyfn/dyfn.c:85-93 | the stored bytes are the low bytes of int_val for every type but float and double, and of float_val for those |
| CallResult.CallAndStore | src/pbox/pbox_sandbox.c:120-127 | on x86-64 a call hands back what its function left in rax or xmm0, by class, as the reference does |
| CallResult.CallAndStore64 | src/pbox/pbox_sandbox.c:120-127 | the same for x0 and d0 on AArch64 |
| CallResult.StoreClosureResult | src/pbox/pbox_sandbox.c:69-76 | the host's result goes to int_val or float_val, by class, and nothing else changes |
| CallResult.StubReturns | src/dyfn/dyfn_x86_64.S:129-133 | a stub's caller finds the host's result in rax or xmm0, by class |
| CallResult.StubReturns64 | src/dyfn/dyfn_aarch64.S:115-119 | the same for x0 and d0 |
| Layout.OneLayout | src/dyfn/dyfn_offsets_check.c:6-8 | the layout rule of C leaves one offset for each field |
| Layout.CallArgsLayout | src/dyfn/dyfn_offsets_check.c:10-17 | the assembly uses the offsets of DyfnCallArgs |
| Layout.ClosureLayout | src/dyfn/dyfn_offsets_check.c:23-38 | and those of the closure structures, which together are an aligned frame |
| Layout.ChannelLayout | src/pbox/pbox_internal.h:39-78 | arg_storage, result_storage and mem_storage lie where the model of the channel has them |
| Layout.FilterLayout | src/pbox/pbox_seccomp.c:34-43 | the filters load the number, the architecture and the first argument |
| Channel.DispatchStaysInChannel | src/pbox/pbox.c:552-565 | whatever the payload, a dispatch that passes the offset check reads arg_storage and at most seven bytes behind it, inside the channel |
| Channel.DispatchReadsExact | src/pbox/pbox.c:555-561 | and inside arg_storage exactly when each argument also ends there |
| Channel.DispatchRefusedExact | src/pbox/pbox.c:555-561 | a dispatch is refused exactly when an offset lies outside arg_storage |
| ChannelRuns.CallRoundTrip | src/pbox/pbox_sandbox.c:108-120 | what the callee receives is what pbox_call was given |
| ChannelRuns.CallbackRoundTrip | src/pbox/pbox.c:545-566 | what the host callback receives is what the stub was called with, over the outer call's buffers, and its offsets pass the check |
| ChannelRuns.ResultRoundTrip | src/dyfn/dyfn.c:85-93 | a stored result reads back by its type |
| ChannelRuns.StepRefines | src/pbox/pbox_sandbox.c:178-242 | every step of either side keeps the protocol invariant and performs the next segment of the direct execution, or none |
| ChannelRuns.StepSpends | src/pbox/pbox_internal.h:90-114 | every possible step lowers the rank, retries and stale wakes included; only a callback, by at most 32, and a wait ended without a wake, by less than 5, raise it |
| ChannelTheorems.ExclusiveOwnership | src/pbox/pbox.c:599-624 | in every run the worker touches its payload only under REQUEST, the host only under IDLE, CALLBACK or, for exactly the requests answered early, RESPONSE |
| ChannelTheorems.UntouchedPayload | src/pbox/pbox_internal.h:39-78 | every other step leaves the payload alone and does not depend on it |
| ChannelTheorems.NoLostWakeup | src/pbox/pbox_internal.h:99-114 | a sleeper whose word is ready always has a wake coming; both are never asleep |
| ChannelTheorems.NoDeadlock | src/pbox/pbox.c:569-587 | a channel's two sides are both stuck if and only if its thread has finished |
| ChannelTheorems.Refinement | src/pbox/pbox_sandbox.c:25-77 | every run of any number of channels is the direct execution of the threads in the order of the run's segments |
| ChannelTheorems.FleetTransparency | src/pbox/pbox.c:589-625 | after every schedule some order of the threads' direct segments leaves the same memories, with each thread's results a prefix of its direct ones, equal when it has finished |
| ChannelTheorems.Termination | src/pbox/pbox.c:569-620 | every schedule takes at most 32 steps per callback it makes, 48 per operation, 22 per thread and 5 per wait ended without a wake, whatever the callees do |
| ChannelTheorems.BoundedCallbacks | src/pbox/pbox.c:569-620 | so every schedule ends if the direct calls make boundedly many callbacks and boundedly many waits end without a wake |
| ChannelAlone.ScriptIsSegments | src/pbox/pbox.c:589-625 | the segments of a script are its calls made one after the other |
| Direct.CallReturns | src/pbox/pbox_sandbox.c:63-76 | a direct call has the value its function returns with after its last callback result |
| Direct.SegmentReturns | src/dyfn/dyfn.c:85-93 | a segment that returns adds the low bytes of the return register of the class |
| ChannelAlone.CallTransparency | src/pbox/pbox.c:589-625 | a run that can go no further shows that the direct calls end and has their results and both memories |
| ChannelAlone.CallAnswers | src/pbox/pbox.c:620-624 | a call through the channel answers with the value its function leaves in the return register of its class |
| ChannelAlone.CallsComplete | src/pbox/pbox.c:569-625 | calls that end directly end through the channel too, with the direct results and memories |
| ChannelAlone.ResultsSoFar | src/pbox/pbox.c:620-624 | at every moment the results so far are a prefix of the direct ones |
| ChannelAlone.LinearTermination | src/pbox/pbox.c:569-620 | calls that make k callbacks take every schedule at most 32k + 48 per operation + 22 steps, and 5 per wait ended without a wake |
| ChannelAlone.TerminationExact | src/pbox/pbox_sandbox.c:63-67 | the schedules are bounded, but for 5 steps per wait ended without a wake, if and only if the direct calls end |
| Threads.WithoutMeaning | src/pbox/pbox.c:140-145 | the swap-remove deletes exactly the given channel and keeps the list duplicate-free |
| Threads.StepKeeps | src/pbox/pbox.c:157-259 | every step of any thread, the sandbox or a worker keeps the four invariants |
| Threads.RunKeeps | src/pbox/pbox.c:116-259 | so does every run of any number of threads |
| Threads.ChannelsArePrivate | src/pbox/pbox.c:241-259 | two threads never share a channel |
| Threads.UsedChannelsAreServed | src/pbox/pbox_sandbox.c:135-163 | a channel in use is listed, had exactly one worker started, which is ready and not told to exit |
| Threads.ListIsLiveChannels | src/pbox/pbox.c:139-147 | channels is duplicate-free and equal to the registered channels of live threads |
| Threads.FailingExact | src/pbox/pbox.c:157-230 | a step leaves a thread without a channel if and only if a system call or allocation of its own failed in it |
| Threads.ChannelGranted | src/pbox/pbox.c:157-259 | from every reachable state with the lock free, a thread without a channel has a new, listed and served one after a run in which nothing fails |
| Threads.RetryGranted | src/pbox/pbox.c:249-259 | so has a thread whose creation failed, when it tries again |
| Threads.ChannelGivenUp | src/pbox/pbox.c:116-155 | a thread that exits takes its channel, and no other, off the list, and its worker stops |
| Threads.WorkersCanStop | src/pbox/pbox.c:121-123 | whichever way a thread gave its channel up, a worker still serving it has been told to exit |
| Threads.ControlNeverShared | src/pbox/pbox.c:178-195 | the control channel never carries two outstanding requests, and the waiting thread is the one served |
| Threads.AnswersAreOwn | src/pbox/pbox.c:178-195 | a thread goes on only with the answer to its own request |
| Threads.LockAlwaysMoves | src/pbox/pbox.c:197-200 | the lock holder, or the sandbox serving it, can take a step if and only if it does not wait for a worker that failed |
| Threads.LockReleased | src/pbox/pbox.c:157-255 | twelve steps made for the holder are the most any run takes without releasing the lock |
| Threads.DoomedExact | src/pbox/pbox_sandbox.c:135-176 | in every run the holder waits for a worker that will never be ready if and only if the sandbox has failed to start one |
| Threads.LockKeptExact | src/pbox/pbox.c:197-200 | a held lock is kept in every continuation if and only if the sandbox has failed to start a worker |
| Threads.OrphanReachable | src/pbox/pbox_sandbox.c:167-175 | that state is reached when thread creation fails in the sandbox |
| Threads.ChannelList.Append | src/pbox/pbox.c:220-235 | appending with doubling from four keeps the earlier entries; a failed growth changes nothing |
| Threads.ChannelList.RemoveChannel | src/pbox/pbox.c:139-147 | the removal loop is the swap-remove of the first match |
| Registry.TotalUpdate | src/dyfn/dyfn.c:97-116 | how one worker's closure table changes the sum over workers |
| Registry.StepKeeps | src/pbox/pbox.c:764-817 | every step of registering, dispatching and thread exit, in any order, keeps the three invariants |
| Registry.RunKeeps | src/pbox/pbox.c:764-817 | so does every run |
| Registry.PublishedIsInitialised | src/pbox/pbox.c:778-791 | at every moment each id below callback_count names a fully initialised entry |
| Registry.StubsReach | src/pbox/pbox.c:545-566 | a stub's dispatch passes the unlocked check and reads the entry it was registered with, whatever registrations run meanwhile |
| Registry.StubDispatches | src/pbox/pbox_sandbox.c:27-34 | stub k of a thread dispatches the callback it was created for, whatever other threads do before the check and between check and read |
| Registry.ClosuresHoldIds | src/dyfn/dyfn.c:97-116 | every live closure holds an id below the count, and all together never exceed the count or 64 |
| Registry.AllocationSucceeds | src/dyfn/dyfn.c:97-112 | closure creation never fails once the cap check passed |
| Registry.AllocateExact | src/dyfn/dyfn.c:97-112 | a closure is added behind the others exactly below 64 |
| Registry.LeaveExact | src/dyfn/dyfn.c:114-116 | a thread that exits takes its stubs with it and leaves all callbacks and other threads' stubs |
| Registry.MadeUpIdsExact | src/pbox/pbox.c:794-799 | every dispatch past its check, of a made-up id too, finds a fully initialised entry in all runs if and only if no registration is withdrawn for want of a channel |
| Registry.CallbackRegistry.PublishId | src/pbox/pbox.c:768-791 | an id is given exactly below the cap, its entry full and earlier ones unchanged |
| Registry.CallbackRegistry.CreateClosure | src/pbox/pbox.c:793-816 | the stub is the next slot of the thread's table and nothing else changes |
| Registry.CallbackRegistry.RegisterCallback | src/pbox/pbox.c:764-817 | succeeds exactly below the cap with a channel; a failure leaves count and tables as they were |
| Registry.CallbackRegistry.Invoke | src/pbox/pbox_sandbox.c:27-34 | invoking stub k reads the entry of the callback it was created for |
| Registry.CallbackRegistry.RegisterAll | src/pbox/pbox.c:764-817 | of any list of registrations the first 64 succeed, and each stub handed out dispatches its own callback |
| ProcMaps.OverlapsIsMeets | src/pbox/pbox_procmaps.c:55-65 | for a range that does not wrap, the two comparisons hold exactly when an address is shared |
| ProcMaps.OverlapsWraps | src/pbox/pbox_procmaps.c:55-65 | for one that passes the end of the address space, its end is compared from zero |
| ProcMaps.RangeOverlaps | src/pbox/pbox_procmaps.c:55-65 | true exactly when some region overlaps |
| ProcMaps.GridExact | src/pbox/pbox_procmaps.c:83-92 | the addresses tried are the multiples of 64 KiB in six windows of one TiB, in ascending order |
| ProcMaps.FindCommonFreeAddress | src/pbox/pbox_procmaps.c:67-105 | the first grid address, in search order, free in both maps, and 64 KiB-aligned; NULL only if none is |
| ProcMaps.FoundIsUsable | src/pbox/pbox_procmaps.c:67-105 | no address of either process's regions lies in the page-rounded result, where it does not wrap |
| Identity.Mapper.TryBox | src/pbox/pbox.c:892-910 | one sandbox attempt maps at the wanted address, or leaves a mapping only if its unmap did not work |
| Identity.Mapper.TryHost | src/pbox/pbox.c:920-926 | the same for the host's attempt at the searched address |
| Identity.Mapper.SecondAttempt | src/pbox/pbox.c:913-944 | the fallback adds the mapping to both sides or to neither, apart from failed unmaps |
| Identity.Mapper.MmapIdentity | src/pbox/pbox.c:856-945 | for every answer of the kernel, failed unmaps included: each side gains the returned mapping of the memfd's memory and what could not be unmapped; the host memfd is closed |
| Identity.ResultExact | src/pbox/pbox.c:856-945 | the call succeeds exactly when the sandbox got the host's address, or, failing in any way, both sides got the searched one |
| Identity.PagesCover | src/pbox/pbox.c:869-906 | a mapping covers the 4096-byte pages that hold its bytes |
| Identity.LayoutExact | src/pbox/pbox.c:869-906 | byte x of a mapping is byte x of the memory object |
| Identity.MappedAlike | src/pbox/pbox.c:903-906 | a returned address is the same memory, page for page, in both processes, on pages free before |
| Identity.AllOrNothing | src/pbox/pbox.c:908-941 | on every path both sides change by the returned mapping alone if and only if each unmap made works |
| Identity.AllOrNothingSymbol | src/pbox/pbox.c:844-854 | where no munmap fails, that holds on every path if and only if the sandbox has munmap |
| Arena.UsedGrows | src/pbox/pbox.c:1072-1081 | later blocks start at or above the end of earlier ones |
| Arena.AfterGood | src/pbox/pbox.c:1057-1088 | a request, granted or refused, and a reset keep the live blocks tiling the used part |
| Arena.RunGood | src/pbox/pbox.c:1057-1088 | so does every run |
| Arena.LiveBlocks | src/pbox/pbox.c:1072-1081 | live blocks are 16-aligned, inside the region and pairwise disjoint |
| Arena.ServedExact | src/pbox/pbox.c:1057-1088 | a new or reset arena serves a list of requests exactly when their rounded sizes come to at most one MiB |
| Arena.Idmem.Alloc | src/pbox/pbox.c:1057-1082 | a block is given exactly when the rounded sizes so far and this one fit; lazy mapping included |
| Arena.Idmem.Reset | src/pbox/pbox.c:1084-1088 | all blocks are freed and the region kept |
| Arena.InIdmem | src/pbox/pbox.c:1090-1108 | true exactly when one arena contains the whole range |
| Arena.InIdmemMeaning | src/pbox/pbox.c:1090-1108 | a non-empty range is accepted exactly when one arena holds all of it; every live block is |
| ArenaContexts.ApartExact | include/sbox/process.hh:486-489 | the cells of open contexts stay apart throughout a run if and only if what is granted after a reset stays below every non-empty cell held from before it |
| ArenaContexts.UnriskyIsApart | include/sbox/process.hh:504-537 | granting no non-empty cell while one from before the latest reset is held keeps them apart |
| ArenaContexts.RiskyYetApart | include/sbox/process.hh:486-489 | that is not necessary: a run that breaks it and keeps them apart |
| ArenaContexts.FirstCellClashes | src/pbox/pbox.c:1084-1088 | but after a reset the next non-empty cell always lies on the arena's first one, if still held |
| ArenaContexts.EndingFreesAll | include/sbox/process.hh:486-489 | destroying a context or a reset frees the whole arena under every other context: the next cell lies at its base |
| ArenaContexts.ClashReachable | include/sbox/process.hh:486-489 | a run of two opens, a cell, a destruction and a cell leaves one open context with two cells on the same bytes |
| Arena.PassthroughArena.Alloc | include/sbox/passthrough.hh:33-43 | granted exactly when it fits; the offset is rounded even on refusal; aligned exactly when the arena is |
| Arena.StackedApart | include/sbox/passthrough.hh:33-43 | passthrough blocks are pairwise disjoint |
| ChunkedCopy.ReceivedMore | src/pbox/pbox.c:1017-1036 | adjoining chunks make one copy that disturbs nothing else |
| ChunkedCopy.Link.CopyTo | src/pbox/pbox.c:998-1037 | for every n the destination equals the source and nothing else outside the channel changes; each refusal changes nothing |
| ChunkedCopy.Link.CopyFrom | src/pbox/pbox.c:1110-1150 | the same towards the host, the sandbox unchanged outside the channel |
| ChunkedCopy.Link.CopyThereAndBack | src/pbox/pbox.c:998-1150 | copying to and then from returns the original bytes |
| CallContext.Lockstep | include/sbox/process.hh:504-537 | cells follow variables byte by byte while no unwritten out byte is read |
| CallContext.DisciplineSuffices | include/sbox/passthrough.hh:71-86 | a disciplined callee sees and leaves the same under both backends, whatever the arena held |
| CallContext.AgreementExact | include/sbox/process.hh:494-537 | and discipline is exactly what it takes, for every callee and step count |
| CallContext.UncalledContext | include/sbox/process.hh:486-502 | a context unwound before its call keeps host variables exactly when no out parameter has a byte |
| CallContextSharing.SharingExact | include/sbox/process.hh:504-537 | every disciplined callee agrees under both backends if and only if no two parameters share a byte of a variable |
| CallContext.CopyBacksFinalize | include/sbox/process.hh:494-502 | running the copy-back list is copying back each out and inout parameter |
| CallContext.FinalizedAt | include/sbox/process.hh:494-502 | where no byte is shared each variable ends with its own cell |
| CallContext.LastCopyWins | include/sbox/process.hh:494-502 | shared or not, a variable ends with the cell of the last parameter copied back to it |
| CallContext.Context.Pass | include/sbox/process.hh:504-537 | a cell and, unless in, a copy-back; a full arena throws before recording anything |
| CallContext.Context.Finalize | include/sbox/process.hh:494-502 | copies back once; a second call does nothing |
| CallContext.Context.Call | include/sbox/process.hh:545-557 | the call then the copy-backs, or none if already finalized |
| CallContext.CallOnce | include/sbox/process.hh:476-557 | a fresh context used once equals by reference for a disciplined callee |
| FdCache.SwapRemoveDeletes | src/pbox/pbox.c:735-741 | swap-remove removes exactly one key of the map |
| FdCache.HitMeaning | src/pbox/pbox.c:726-742 | a miss in both tables means no value of the map; a hit names a key that maps to it |
| FdCache.UncachedView | src/pbox/pbox.c:725-742 | with an injective map that is exactly the closed entry |
| FdCache.StaleIsClosing | src/pbox/pbox.c:744-759 | a cached descriptor that is not open is one whose close has yet to uncache it |
| FdCache.QuietIsInjective | src/pbox/pbox.c:696-762 | with no close under way the cache is injective and all it holds is open |
| FdCache.CloseWindow | src/pbox/pbox.c:748-759 | which of two entries is dropped when a descriptor is handed out again between close and uncache |
| FdCache.CloseAmid | src/pbox/pbox.c:744-762 | with any sends between the halves of a close: which answers are not the right descriptor, and when the cache is right afterwards, both exactly |
| FdCache.WrongEntry | src/pbox/pbox.c:744-762 | from a new cache, for any two descriptors: the wrong entry stays if and only if the second is the lower one and among the first 128 |
| FdCache.Mingle | src/pbox/pbox.c:696-762 | for any interleaving of sends and halves of any closes: entries of descriptors not closed survive and are right, and every answer is an error, a closed descriptor or one that stays open for its file |
| FdCache.Cache.Lookup | src/pbox/pbox.c:685-694 | lookup is the map |
| FdCache.Cache.CacheFd | src/pbox/pbox.c:662-682 | adds the pair, or nothing when growth fails |
| FdCache.Cache.UncacheFd | src/pbox/pbox.c:726-742 | removes the key of the first position that holds the descriptor |
| FdCache.Cache.SendFd | src/pbox/pbox.c:696-723 | cached answer, error or a new pair, on every path |
| FdCache.Cache.CloseInSandbox | src/pbox/pbox.c:744-755 | closes in the sandbox and leaves the cache as it was |
| FdCache.Cache.FinishClose | src/pbox/pbox.c:755-759 | drops at most one entry and keeps the count of entries against open and closing descriptors |
| FdCache.Cache.Close | src/pbox/pbox.c:744-762 | uninterrupted: after success no key maps to the closed descriptor; after failure nothing changed |
| Seccomp.EmitRuns | src/pbox/pbox_seccomp.c:45-48 | one line's jump offsets allow its syscall or fall through with the number still loaded |
| Seccomp.BaseFilterCorrect | src/pbox/pbox_seccomp.c:53-153 | for every allowlist the program ends: kill on a foreign architecture, allow what is listed, else ENOSYS |
| Seccomp.WorkerFilterCorrect | src/pbox/pbox_seccomp.c:173-193 | the worker filter refuses exactly its list |
| Seccomp.FiltersChecked | src/pbox/pbox_seccomp.c:54-153 | for every list all jumps stay in range and the last instruction returns |
| Seccomp.LinesArePolicy | src/pbox/pbox_seccomp.c:63-149 | the lines of the file are the policy, whichever numbers the architecture has |
| Seccomp.SandboxFilterCorrect | src/pbox/pbox_seccomp.c:53-153 | the installed filter allows exactly the policy |
| Seccomp.WorkerStackCorrect | src/pbox/pbox_seccomp.c:178-206 | stacked, most restrictive first: the same policy minus clone and clone3 |
| Seccomp.WorkerLocksItself | src/pbox/pbox_sandbox.c:147-152 | a worker may install its filter and can then start no thread |
| LfiStack.AfterGood | src/sbox_lfi.cc:163-180 | opening a context, pushing a cell and closing keep the stack discipline |
| LfiStack.RunGood | include/sbox/lfi.hh:469-522 | so does every run |
| LfiStack.LiveCells | include/sbox/lfi.hh:496-521 | live cells of all open contexts are aligned, disjoint and above the stack pointer |
| LfiStack.PushIsHighest | src/sbox_lfi.cc:163-170 | a cell takes the highest aligned place below the stack pointer, and no more |
| LfiStack.StagedIsHighest | include/sbox/lfi.hh:147-160 | spilled arguments lie at the highest 16-aligned place with room for them; without any the stack stays |
| LfiStack.StagedBelowCells | include/sbox/lfi.hh:147-160 | staged arguments lie strictly below every live cell |
| LfiStack.ContextRestores | include/sbox/lfi.hh:477-483 | after any properly nested body, closing a context gives back the same stack |
| LfiStack.MarshalledAt | include/sbox/lfi.hh:105-128 | the same placement as the process backend, zero-extended; other registers unchanged |
| LfiStack.MarshalArg | include/sbox/lfi.hh:105-128 | one argument goes to the next register or overflow slot |
| LfiStack.MarshalAll | include/sbox/lfi.hh:130-140 | all arguments are placed and n_stack is the convention's spill count |
| LfiStack.Context.StackPush | src/sbox_lfi.cc:163-170 | an aligned cell below everything pushed before |
| LfiStack.Context.CloseContext | src/sbox_lfi.cc:177-180 | the stack pointer the context saved is back |
| LfiStack.Context.StageStackArgs | include/sbox/lfi.hh:147-160 | argument i is at SP+8i, SP is 16-aligned, nothing outside that area changes |
| LfiStack.Context.TakeReturn | include/sbox/lfi.hh:280-292 | the result is taken from the return register of its class |
| LfiStack.Context.CallPtr | include/sbox/lfi.hh:248-293 | any code finds every argument and every live cell on entry; the result is what it left in the return register, and the stack pointer is back |

## Left out

- Nested pbox calls from inside a host callback: a nested REQUEST would be taken by the waiting closure as its reply (src/pbox/pbox_sandbox.c:67), so callbacks are modelled as not calling back in.
- Concurrent descriptor sends over the shared socket: nothing ties a received message to its sender (src/pbox/pbox.c:649-656); sends are taken one at a time.
- A closure invoked on a thread other than the one that registered it: `dyfn_closure_info` is thread-local, so this is not supported.
- The watcher thread, the DEAD state and liveness once the sandbox has died: DEAD reaches only the control channel.
- Runs with a sandbox that breaks the protocol: of those only the dispatch reads (`Channel`) and the lookup of a made-up id (`Registry`) are modelled, not the kill at src/pbox/pbox.c:557-561.
- ChannelTheorems.FleetTransparency: sandboxed code between two handoffs, a host callback, and a request are one step each on the shared memories; races inside them are not modelled.
- The channel's dlsym, receive and closure requests share one step shape in `Channel` (a query answered from sandbox memory); what each answers is in the other modules.
- `Threads` takes a request on the control channel as asked, served and collected in three steps; the steps inside a handoff are those of `Channel`.
- Memory ordering weaker than sequential consistency, and spinning before the futex wait (the spin count is zero).
- Arena.Idmem.Alloc: requires sizes whose rounding and sum stay below 2^64, because the source's `size_t` arithmetic wraps beyond that.
- Arena.InIdmem: requires an address and size whose sum stays below 2^64, for the same reason.
- LfiStack.Context.StackPush: requires room below the stack pointer; the source neither checks for it nor for wrap-around.
- Masks with ~(align - 1) are modelled by remainders, which agree with them for powers of two.
- ChunkedCopy.Link.CopyTo: host and sandbox memory are separate, so buffers in identity-mapped memory, which is both, are not covered.
- Sign extension of narrow integers: only the low bytes of the argument's own size are claimed.
- The upper halves of vector registers, and `long double` arguments on the LFI backend.
- ProcMaps.FoundIsUsable: requires a range that does not wrap; `FindCommonFreeAddress` itself is modelled with the source's wrap-around.
- FdCache.CloseAmid: sends in the window of one close; for several closes at once `FdCache.Mingle` says what survives, not which entry of a closed descriptor is dropped.
- Descriptor closes that fail but still close: `FdCache` treats a failed close as leaving the descriptor open.
- CallContext.Context.Call: callee accesses outside its cells do nothing in the model, and cells are taken to be apart; `ArenaContexts.ApartExact` says when they are.
- Process creation and teardown, SCM_RIGHTS messages, parsing of /proc/pid/maps, the LFI runtime and its trampoline, dlopen and symbol caches: system calls and library code with no property of their own here.
- Installing the filters with prctl, and the type-level checks of the C++ headers.
