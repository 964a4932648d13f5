# VMKit runtime core: a model and its proofs

VMKit is a runtime library for managed languages on top of MMTk.  This project models the parts of
it on which the soundness of garbage collection rests, and proves properties of them.

**The stop-the-world handshake** (`ThreadProgram`, `MonitorDiscipline`, `StopFacts`, `RequestFacts`,
`WakeFacts`, `ThreadCell`, `System`, `SystemInvariant`, `SystemSteps`, `CollectorSteps`,
`StopTheWorld`, `StopCoverage`, `ResumeTheWorld`, `Requesters`, `RegistryQueue`, `Yieldpoints`,
`Acknowledge`, `Progress`, `CollectorProgress`, `HandshakeRuns`).  A step relation
with one step per atomic access, lock, wait or notify, for any number of threads, any number of
block adapters and any number of requesters, sequentially consistent.  `ThreadProgram` gives the
code of a thread and of a requester as control-flow edges; `ThreadCell` puts one thread together
with everyone acting on it; `System` adds the registry, the locks of `lock_with_handshake` and the
collector.  The three `...Facts` modules prove what each edge keeps, `ThreadCell` and
`SystemSteps`/`CollectorSteps` lift that to every interleaving, and the others state the results:
safety in `StopTheWorld`, what one collection achieves in `StopCoverage` and `ResumeTheWorld`, what
one request achieves in `Requesters`, what the thread does about it in `Yieldpoints` and
`Acknowledge`, and that operations and passes come to their end in `Progress` and
`CollectorProgress`.  `HandshakeRuns` gives three runs of the whole system, from its start, in which
the code does not keep a promise; a second thread, which ignores GC, has asked for the collection
there.  Where a thread is (its program counter) is kept apart from what it claims (`exec_status`);
`Executing` is about the former.

* A requester (`block_unchecked` and `unblock` called on another thread) is an agent that may act at
  any time; mutators that act as requesters are among them.
* Each thread's monitor is a re-entrant lock with a set of waiters that have not been notified.
  `ReentrantMonitor.RunRefinesLock` is why that abstraction is allowed.  There are no spurious
  wakeups, as in the library the code uses.
* The registry stays locked for a whole pass of `block_all_mutators_for_gc`: its guard is shadowed,
  not dropped (`vmkit/src/threading.rs:1494-1506`).  The thread of `main` is registered twice.
* The documentation says a thread is `New` until its native thread is spawned.  In the code this is
  so for `start` and `main` only; `register_mutator_manual` leaves it `New` while it runs.  `System`
  records which threads the requests of a collection found `New`, and which the resume has been
  through (`found`, which nobody reads).  A mutator of the final snapshot is stopped unless its last
  request found it `New`; such a request leaves its thread unstopped, though the thread may still
  stop by itself at a later yieldpoint.
* A deferred yieldpoint is restored by `enable_yieldpoints` on the way from 0 to 1 only.  The code
  allows a count of 2 (`vmkit/src/threading.rs:1045`), and getting back to 1 by
  `disable_yieldpoints` restores nothing.
* `main` is registered before it goes through `add_thread`, and its `process_about_to_terminate`
  takes the registry in managed state, outside the parked scope.  If the collector, which holds the
  registry, waits for it then, both wait for ever.

**The re-entrant monitor** (`ReentrantMonitor`, `MonitorProgress`, `MonitorMisuse`), one step per
access to the mutex, the holder word, the count or the condition variable, for any number of
threads.  Guards may be dropped in any order, and inside an unlocked scope the guards from before it may be used too, as the borrow checker
allows. The monitor does not survive that: `ReentrantMonitor.KeepsItsWordExactly` says when it keeps
its word, and `MonitorMisuse` gives two runs in which it does not.

**Suspension by signals** (`SignalSuspend`): a requester under the suspend locker, the signal
handlers of any number of threads, the semaphore, the target pointer and the nesting counts;
`sigsuspend` is an atomic unblock-and-wait, as POSIX.1 defines it.  A running thread also stores its
own stack pointer (`vmkit/src/threading.rs:739`, `754`, `976`), and after a handler has backed off
from an alternative stack `suspend` can take that store for the handler's; the lemmas say exactly
what depends on it.

**Objects** (`Bits`, `Header`, `ObjectMove`): the header word as bits, and moving objects with
address-based hashing in a word-addressed memory, overlapping copies included.  `move_object` is
modelled as written: its last branch marks the object `Hashed` whether it was `Unhashed` or
`HashedAndMoved` (`vmkit/src/object_model.rs:223-225`), and the lemmas say exactly what that costs.

**Allocation** (`Align`, `OneAllocator`, `Allocation`, `VoBitmap`): the TLAB in front of MMTk's bump
pointer.  `OneAllocator` describes one allocator without a TLAB and what MMTk promises; `Allocation`
is the code, method by method, proved to do the same; `VoBitmap` is the table of valid objects.

**Compressed pointers** (`Compression`) and **finalizers** (`Finalization`).

## Model

| member | source | states |
|---|---|---|
| StopTheWorld.StopSafety | vmkit/src/threading.rs:640-683 | In every state of every run, a thread whose blocked flag is set for any adapter is not executing managed code. |
| StopTheWorld.ReentryIsClear | vmkit/src/threading.rs:640-683 | A parked thread gets back to managed code only by a step of its own, and only while no adapter has it blocked, before and after that step. |
| StopTheWorld.WorldIsStopped | vmkit/src/threading.rs:1490-1561 | From the return of `block_all_mutators_for_gc` until the world is resumed, every mutator of the final snapshot that its last request did not find `New` is outside managed code, and is either blocked for GC and in the returned list, or about to terminate; threads from `start` and `main` are never found `New`. |
| StopCoverage.RegisteredAreStopped | vmkit/src/threading.rs:1490-1561 | When `block_all_mutators_for_gc` has returned, every mutator that was registered when it was called, and that was started or that its last request did not find `New`, is outside managed code, and either blocked for GC and in the returned list, or terminating: the loop cannot end with fewer threads seen. |
| StopCoverage.RunningAreStopped | vmkit/src/threading.rs:1393-1412 | The same for every mutator that had been through its own registration when it was called, whatever it was doing: `add_thread` has put it in the registry. |
| StopCoverage.ReturnedExactly | vmkit/src/threading.rs:1541-1551 | The returned list is exactly the threads that were blocked for GC when the final filter came by them, and it came by every thread registered then, those that registered after the last pass included. |
| StopTheWorld.ReturnedAreBlocked | vmkit/src/threading.rs:1541-1551 | Everyone in the returned list is blocked for GC and parked for as long as the world is stopped. |
| StopTheWorld.StopLasts | vmkit/src/threading.rs:1584-1603 | Until `unblock_all_mutators_for_gc` begins, snapshot, returned list and record stay those of the return, whatever anybody does. |
| StopTheWorld.NoLostStopRequest | vmkit/src/threading.rs:811-825 | A request pending on a thread that was started or has left `New`, and that is outside its critical sections and not terminating has marked it `InManagedToBlock`, and is recorded in `take_yieldpoint` or as deferred, unless a requester is still placing it. |
| StopTheWorld.NoLostWakeup | vmkit/src/threading.rs:591-596 | Whenever a monitor is free, a thread asleep on it without notification is blocked and has acknowledged every request, and a requester asleep without notification still must wait. |
| StopTheWorld.SecondPassFindsNobody | vmkit/src/threading.rs:1493-1532 | A pass of the fixpoint keeps only threads that registered since the previous pass and threads some request found `New`; without either it keeps nobody, so the loop ends by its second pass. |
| CollectorProgress.AnotherPassSeesMore | vmkit/src/threading.rs:1493-1538 | A pass that is followed by another has seen at least as many threads as the one before, and strictly more if no request found a thread `New`: passes are then at most two more than the threads that register during the call. |
| CollectorProgress.PassEnds | vmkit/src/threading.rs:1493-1538 | Within a pass the collector takes a bounded number of steps between its requests, whatever the threads and the other requesters do. |
| StopTheWorld.SynchronousBlockSettles | vmkit/src/threading.rs:883-908 | When the collector's synchronous request returns, its target is blocked for GC or about to terminate, or was never started and found `New`. |
| Requesters.SynchronousRequestSettles | vmkit/src/threading.rs:849-911 | For any requester and any adapter: when a synchronous `block_unchecked` is over and nobody has unblocked the thread for that adapter meanwhile, the thread is blocked for it or terminating, or was never started and found `New`. |
| Requesters.RequestOutcome | vmkit/src/threading.rs:849-911 | For any requester and any adapter, the answer of an asynchronous request tells what was done: `Terminated` for a terminating thread; `BlockedInNative` for one that is blocked with its request taken back; `InManagedToBlock` and `New` for one with that status, the request pending, and its next yieldpoint taken. |
| StopTheWorld.QueuedThreadIsStoppable | vmkit/src/sync/monitor.rs:105-124 | A thread queued on a lock by `lock_with_handshake`, or stopping on its way to queue again, is in native state and does not hold the lock, and no requester sleeps waiting for it. |
| StopTheWorld.HandshakeLockReturns | vmkit/src/sync/monitor.rs:89-124 | `lock_with_handshake` gets back to managed code only with the lock held and by the thread's own transition from `InNative` to `InManaged`. |
| StopTheWorld.LeavesStoppedUnlessNew | vmkit/src/threading.rs:1507-1519 | A thread dropped from the worklist is blocked for GC or terminating, or was found `New`; a thread from `start` or `main` is never the latter. |
| StopTheWorld.StoppedExactlyUnlessNew | vmkit/src/threading.rs:1507-1519 | When the collector gives up the monitor of a thread that is to leave the worklist, the thread is stopped exactly if the request did not find it `New`. |
| StopTheWorld.UnstoppedExactlyIfNew | vmkit/src/threading.rs:1507-1519 | This can be read off the thread as soon as its monitor is held: a request that lets it leave the worklist leaves it unstopped exactly if it was `New`, and neither blocked for GC nor terminating, then. |
| ResumeTheWorld.EverybodyIsResumed | vmkit/src/threading.rs:1584-1603 | When `unblock_all_mutators_for_gc` is about to return, every registered thread but the collector's own has been left, at some point of this resume, without GC request and GC flag and with everybody asleep on its monitor notified. |
| ResumeTheWorld.ResumeClears | vmkit/src/threading.rs:1027-1033 | What `unblock` has done to a thread when the collector leaves its monitor, whatever other requesters do meanwhile. |
| Requesters.UnblockClears | vmkit/src/threading.rs:1027-1033 | `unblock`, by any requester and for any adapter, leaves neither request nor flag for it and nobody asleep without notification when the monitor is given up. |
| RegistryQueue.RegistryQueueIsStoppable | vmkit/src/threading.rs:1393-1412 | A registered thread queued on the registry, which the collector may hold for a whole pass, is in native state exactly if it is past `process_about_to_terminate`, and then nobody sleeps waiting for it; only the thread that `main` registered can be there. |
| RegistryQueue.AskedWhileQueued | vmkit/src/threading.rs:1393-1394 | If the collector waits for a thread that is marked to block and queued in `process_about_to_terminate`, that is a deadlock: it holds the registry, and the thread must still be waited for. |
| RegistryQueue.DeadlockForEver | vmkit/src/threading.rs:1494-1532 | With any number of threads and requesters, no continuation ever leaves such a deadlock. |
| HandshakeRuns.MainAndCollectorDeadlock | vmkit/src/threading.rs:1393-1394 | A run that ends in it: `main` waits for the registry, the collector, which holds it, for `main`, and a third party has asked for the collection. |
| HandshakeRuns.NewMutatorEscapes | vmkit/src/threading.rs:284-341 | A run that ends with the world stopped and a mutator of the snapshot, `New` since `register_mutator_manual`, executing managed code. |
| Yieldpoints.RestoredExactly | vmkit/src/threading.rs:1041-1058 | Throughout a run, enabled yieldpoints leave no deferred request behind exactly if the thread never calls `disable_yieldpoints` at a count of 2 with a request deferred. |
| Yieldpoints.RequestIsTaken | vmkit/src/threading.rs:1251-1286 | In a run without such a call, a request pending on a thread that was started or has left `New`, with yieldpoints enabled, outside `enable_yieldpoints`, has `take_yieldpoint` set; `Acknowledge` says what the yieldpoint does then. |
| Yieldpoints.RequestIsTakenUpToOne | vmkit/src/threading.rs:1041-1052 | The same holds wherever the count has never gone beyond 1. |
| Acknowledge.TakenYieldpointBlocks | vmkit/src/threading.rs:1280-1288 | A yieldpoint that finds `take_yieldpoint` set blocks the thread for every adapter with a request before it returns to managed code. |
| Acknowledge.EnabledYieldpointBlocks | vmkit/src/threading.rs:1269-1288 | In a run without a stranding call, the yieldpoint's test finds it set whenever there is a request, so every yieldpoint that gets to the test blocks the thread for every adapter with a request. |
| Acknowledge.YieldpointArrives | vmkit/src/threading.rs:1267-1280 | With yieldpoints enabled a yieldpoint gets to that test before it returns; with yieldpoints disabled it leaves the record that it was deferred. |
| Acknowledge.SelfBlockBlocks | vmkit/src/threading.rs:859-862 | A thread that blocks itself is blocked for the adapter before it returns to managed code. |
| Acknowledge.NativeEntryBlocks | vmkit/src/threading.rs:787-797 | A thread that enters native code with a request pending is blocked for it before it gives its monitor up. |
| Acknowledge.CountIsBalance | vmkit/src/threading.rs:1041-1058 | Over every run, the count of yieldpoints is the calls of `enable_yieldpoints` less those of `disable_yieldpoints`. |
| Progress.OperationsReturn | vmkit/src/threading.rs:640-683 | While nobody asks a thread to block and nothing keeps it blocked, `check_block` and every other operation it is in is over after a bounded number of its own steps, whatever the others do. |
| Progress.OperationsGoOn | vmkit/src/threading.rs:640-683 | And it has a next step, asleep or not, unless its monitor, the registry or a lock it queues on is with somebody else. |
| HandshakeRuns.EnablingTwiceLosesRequest | vmkit/src/threading.rs:1041-1058 | A run that ends with the collector asleep waiting for a thread whose yieldpoints are enabled while its yieldpoint is not going to be taken. |
| ReentrantMonitor.KeepsItsWordExactly | vmkit/src/sync/monitor.rs:60-259 | A run of the monitor is a run of a re-entrant lock, with a count that equals its owner's guards and is written by the owner alone, and a mutex and holder word that are with a thread at rest exactly while it has the lock, exactly if no guard from before an unlocked scope is dropped in it, nor waited or unlocked through without a guard from within. |
| MonitorMisuse.DropInScopeKeepsMutex | vmkit/src/sync/monitor.rs:235-259 | A run in which a guard is dropped in an unlocked scope of a later one; when all guards are gone the mutex is still locked. |
| MonitorMisuse.DropInScopeAdmitsTwo | vmkit/src/sync/monitor.rs:235-259 | A run in which the same drop releases the mutex under a guard taken in the scope; two threads end up with a guard each. |
| ReentrantMonitor.HolderOwnsMutex | vmkit/src/sync/monitor.rs:70-87 | Up to the first such use, a non-zero holder word names the thread that owns the mutex, although it is read without the mutex. |
| ReentrantMonitor.CountIsLiveGuards | vmkit/src/sync/monitor.rs:70-87 | Up to then, outside the operations the count is the number of live guards of the owner, and nobody else has the lock. |
| ReentrantMonitor.ReleasedExactly | vmkit/src/sync/monitor.rs:252-259 | Up to then, nothing releases the mutex but the drop of the last guard, a wait or an unlocked scope, which give up every level, or a retry of `lock_with_handshake`; holder and count are then clear. |
| ReentrantMonitor.GivenUpExactly | vmkit/src/sync/monitor.rs:185-259 | Conversely, up to then a thread at rest has the mutex, and is named by the holder word, exactly if it has the lock at some level: the last drop, a wait and an unlocked scope do release it. |
| ReentrantMonitor.LockAddsOne | vmkit/src/sync/monitor.rs:70-87 | In every run, a lock that returns leaves its thread with one guard more, and those from before unlocked scopes as they were. |
| ReentrantMonitor.DropTakesOne | vmkit/src/sync/monitor.rs:252-259 | A drop that returns leaves one guard less, in the scope the guard is from; with the rows above and below, that is a level of the lock given up. |
| ReentrantMonitor.WaitKeepsAll | vmkit/src/sync/monitor.rs:185-191 | A wait that returns leaves all guards in place. |
| ReentrantMonitor.ScopeBegins | vmkit/src/sync/monitor.rs:235-243 | An unlocked scope begins without guards of its own, and keeps account of those from before. |
| ReentrantMonitor.ScopeEnds | vmkit/src/sync/monitor.rs:243-249 | When it ends they are back, beside those it leaves behind. |
| MonitorProgress.WaitLetsGo | vmkit/src/sync/monitor.rs:185-191 | A wait that returns has been asleep on the condition variable with the mutex free. |
| MonitorProgress.OperationEnds | vmkit/src/sync/monitor.rs:70-124 | In every run an operation is over after a bounded number of its thread's steps, and two more for each retry of `lock_with_handshake`. |
| MonitorProgress.OperationGoesOn | vmkit/src/sync/monitor.rs:70-259 | And it has a next step unless it is about to take the mutex and somebody has it. |
| ReentrantMonitor.IdleMonitorIsFree | vmkit/src/sync/monitor.rs:60-68 | Up to then, when all threads are at rest without the lock, mutex, holder and count are as in a new monitor. |
| ReentrantMonitor.RefinesLock | vmkit/src/sync/monitor.rs:185-259 | Each other access is a step of a re-entrant lock or invisible; in particular a wait and an unlocked scope get back the depth they gave up. |
| ReentrantMonitor.RunRefinesLock | vmkit/src/sync/monitor.rs:60-259 | A run without such a use, with guards dropped in any order, is a run of a re-entrant lock, whose owner, when at rest, is the one with the mutex and in the holder word. |
| SignalSuspend.FreeLockerState | vmkit/src/threading.rs:1872-1936 | In every run, whenever the suspend locker is free the semaphore is empty, no signal is on its way, every thread is running or stopped, and a stopped one has a positive suspend count. |
| SignalSuspend.SoundExactly | vmkit/src/threading.rs:1872-1936 | The count can be relied on throughout a run (a positive count means a stopped thread, `suspend` counts only stopped threads, `resume` gives up the last level only of a running one and never waits in vain) exactly if no `suspend` reads a stack pointer its target stored between its handler's post and the read. |
| SignalSuspend.SoundWithoutBackOff | vmkit/src/threading.rs:1965-1985 | So it can in every run in which no handler runs on an alternative stack. |
| SignalSuspend.ResumeEndsExactly | vmkit/src/threading.rs:1913-1936 | Once `resume` has sent its signal, its wait can never end, whatever happens, exactly if its target was running; else it can. |
| SignalSuspend.PostDrawsNearer | vmkit/src/threading.rs:1946-2023 | While the target of a waiting `resume` is on its way out of `sigsuspend`, nobody's step sends it back, each of its own steps brings the post nearer, and the requester's ends the wait. |
| SignalSuspend.SuspendedWhileRunning | vmkit/src/threading.rs:1880-1905 | A run in which the handler backs off, the thread enters native code, and `suspend` returns with the thread counted and running. |
| SignalSuspend.ResumeGetsStuck | vmkit/src/threading.rs:1913-1936 | The run goes on to a `resume` that waits while nobody will post. |
| SignalSuspend.StuckStaysStuck | vmkit/src/threading.rs:1946-1970 | No step of anybody ends such a wait. |
| SignalSuspend.HandlerReadsItself | vmkit/src/threading.rs:1946-2023 | Every read of the target pointer in the handler yields the thread the handler runs on, and a handler nested in `sigsuspend` does not suspend again. |
| SignalSuspend.NoStrayToken | vmkit/src/threading.rs:1872-1936 | In every run there is at most one token, and only while the requester waits for it: alternate-stack retries leave none behind. |
| SignalSuspend.RequestsComplete | vmkit/src/threading.rs:1872-1936 | Up to the first such read, `suspend` leaves its loop only with the target stopped, however often the handler backed off, `resume` gives up the last level only of a target that runs again and is never stuck, and the stopped threads are those with a positive count. |
| SignalSuspend.SuspensionLasts | vmkit/src/threading.rs:1913-1936 | A suspended thread leaves the handler's wait only during the `resume` that takes its count to zero. |
| SignalSuspend.CountIsNesting | vmkit/src/threading.rs:1872-1936 | Over every run, whenever no call is under way, a thread's suspend count is the number of calls of `suspend` on it less the number of calls of `resume`. |
| SignalSuspend.StoppedWhileNested | vmkit/src/threading.rs:1872-1936 | So, up to the first read of a late store, a thread is stopped exactly while it has been suspended more often than resumed. |
| Header.TwoVariables | vmkit/src/object_model/header.rs:69-96 | Over any sequence of `set_metadata` and `set_hash_state`, the header word reads back the metadata last written and the state last written. |
| Header.FieldsAreBits | vmkit/src/object_model/header.rs:14-96 | The state is the top two bits, 0, 1 or 2, and the metadata the 62 below; storing one leaves the bits of the other as they are. |
| Header.SetStateKeepsMetadata | vmkit/src/object_model/header.rs:84-86 | Setting the hash state never disturbs the metadata. |
| Header.SetMetadataKeepsState | vmkit/src/object_model/header.rs:92-95 | Setting metadata that fits the field never disturbs the hash state. |
| Header.NewHeaderIsUnhashed | vmkit/src/object_model/header.rs:70-75 | A new header, which is the metadata stored unmasked, is unhashed with that metadata exactly if the metadata is below 2^62. |
| ObjectMove.Heap.Hashcode | vmkit/src/object_model/object.rs:265-279 | Returns the stored hash or the address hash, marks the object so that the next call returns the same, and touches nothing but the header. |
| ObjectMove.Heap.MoveObject | vmkit/src/object_model.rs:161-228 | For every hash state, size and target, overlapping or not: in memory, the payload words and the metadata bits at the new place are those of the old, the state and the hash word are what the branch of the code makes them, the reference is the predicted one, and only the reserved bytes are written. |
| ObjectMove.Heap.Copy | vmkit/src/object_model.rs:74-93 | With the bytes, alignment and offset it asks for, `copy` yields an aligned object at the address `get_reference_when_copied_to` gives, with the same payload and metadata in memory, and the old address for a hash if it was hashed. |
| ObjectMove.SizesInWords | vmkit/src/object_model/object.rs:160-193 | `bytes_used` and `bytes_required_when_copied` are the header, the payload rounded to words, and the hash word exactly when there is, or will be, one. |
| ObjectMove.LayoutIs | vmkit/src/object_model/object.rs:160-247 | Sizes, object start and offsets in bytes for each hash state: one word of header, the payload rounded up, and a word for the hash in place once moved with it, in a copy as soon as hashed. |
| ObjectMove.MoveKeepsLayout | vmkit/src/object_model.rs:172-225 | After one move, `object_start` is the allocation address and `bytes_used` the bytes reserved exactly if the object did not already carry a hash word. |
| ObjectMove.MoveKeepsHash | vmkit/src/object_model.rs:208-225 | A hash already returned survives one move exactly if the object did not carry a hash word, or its new address happens to hash to the same value. |
| ObjectMove.LayoutOverRuns | vmkit/src/object_model.rs:161-228 | Over any run of hashing and moving, the layout is intact at every point exactly if no object is moved out of `HashedAndMoved`. |
| ObjectMove.HashOverRuns | vmkit/src/object_model/object.rs:265-279 | Over every such run, every hash ever returned is still what `hashcode` returns. |
| ObjectMove.HashKeptExactly | vmkit/src/object_model.rs:208-225 | Over any run, every hash handed out is kept throughout exactly if no object whose hash was handed out is moved out of `HashedAndMoved` to an address that hashes differently. |
| ObjectMove.SecondMoveLosesHash | vmkit/src/object_model.rs:223-225 | Hash once, move twice: the hash returned and the layout are both lost. |
| ObjectMove.ThirdMoveLosesLayout | vmkit/src/object_model.rs:223-225 | An object never hashed loses its layout at its third move, since the first marks it hashed. |
| Align.AlignAllocationIsLeast | vmkit/src/mm/align.rs:18-42 | For every power of two the two's-complement mask form gives the least address at or above the cursor that is aligned at the offset. |
| Align.RoundUpIsLeast | vmkit/src/mm/align.rs:9-11 | `round_up` gives the least such address too. |
| Align.RoundDownIsMultiple | vmkit/src/mm/align.rs:5-7 | `round_down` by `x & -align` takes off exactly the remainder. |
| Allocation.Tlab.Allocate | vmkit/src/mm/tlab.rs:21-35 | Succeeds exactly if the least aligned address plus the rounded size fits the limit, and then returns it and moves the cursor past the object; otherwise changes nothing. |
| Allocation.Mutator.FlushTlab | vmkit/src/mm.rs:303-336 | Empties the TLAB without losing or inventing free memory, and its assertions hold. |
| Allocation.Mutator.RefillTlab | vmkit/src/mm.rs:338-363 | Hands the allocator's window back to the TLAB; the free memory is the same. |
| Allocation.Mutator.MmtkAlloc | vmkit/src/mm.rs:256-278 | The contract of MMTk's `alloc`; its precondition, met at every call, is that the TLAB is empty and the cursor is past every object allocated from the window. |
| Allocation.Mutator.ResetByCollection | vmkit/src/mm/collection.rs:16-31 | The contract of a collection on an allocator whose TLAB was flushed: what survives is where MMTk says, and no free memory is left behind. |
| Allocation.Mutator.AllocateFromMmtk | vmkit/src/mm.rs:167-278 | The large, immortal, non-moving and slow paths flush, allocate and refill so that the result is MMTk's answer on one allocator; they mark the new object and no other, and leave large objects to MMTk. |
| Allocation.Mutator.AllocateOutOfLine | vmkit/src/mm.rs:76-111 | The out-of-line path does the same for every allocation semantics; the new object's range holds header and object, and it is marked unless large. |
| Allocation.Mutator.Allocate | vmkit/src/mm.rs:119-164 | Allocation with the TLAB is one allocator's allocation: the same address, the same free memory afterwards, one more valid object, whose range holds the header and all bytes asked for. |
| Allocation.StopAllMutators | vmkit/src/mm/collection.rs:16-31 | Flushing the stopped threads, some of them listed twice, empties every TLAB and changes nobody's free memory or objects. |
| OneAllocator.ObjectsNeverOverlap | vmkit/src/mm.rs:76-278 | Over every run of allocations through either entry point and of collections, a thread's objects are pairwise disjoint, each inside a region MMTk gave it, and the cursor is past them. |
| OneAllocator.SizeHoldsObject | vmkit/src/mm.rs:127-135 | The rounded size has room for the header and the whole object, is a multiple of the alignment, and no more than the least one. |
| OneAllocator.NewObjectHasRoom | vmkit/src/mm.rs:76-164 | The range an allocation adds starts a header below the address returned and holds the header and all bytes asked for. |
| OneAllocator.ObjectOwnsItsBytes | vmkit/src/mm.rs:76-278 | Over every run, until the next collection, the header and the bytes asked for are the object's alone: no other object and no free memory overlaps them. |
| OneAllocator.LargeObjectsGoAside | vmkit/src/mm.rs:76-164 | A default request goes to the large-object space exactly if object and header reach the limit; it is not served from the window, moves no cursor, and its object is aligned. |
| OneAllocator.ObjectsStay | vmkit/src/mm.rs:119-278 | Between collections every object keeps its range, and each allocation adds exactly one. |
| OneAllocator.AllocatedIsAligned | vmkit/src/mm.rs:119-164 | On the fast, slow, large, immortal and non-moving paths the object address is aligned as requested. |
| OneAllocator.MaskFindsLeastStart | vmkit/src/mm/align.rs:65-71 | The address the TLAB computes is the one a single allocator would pick by rounding. |
| VoBitmap.BitsAreGranules | vmkit/src/mm.rs:283-293 | Two addresses share a bit exactly if they lie in the same 8 bytes, so 8-aligned addresses and bits correspond one to one. |
| VoBitmap.EveryBitHasAnAddress | vmkit/src/mm.rs:283-293 | Every bit of the table belongs to an 8-aligned address. |
| VoBitmap.VoBitmap.SetVoBit | vmkit/src/mm.rs:283-293 | One update marks one granule more and leaves every other bit as it was. |
| VoBitmap.TableIsTheSetOfAddresses | vmkit/src/mm.rs:283-293 | After any run of updates an 8-aligned address is marked exactly if it was one of those set, or was marked before. |
| VoBitmap.VoBitmap.TakesSlowPath | vmkit/src/mm.rs:390-396 | The write barrier reads, in its own table, the bit of the same granule. |
| Compression.RoundTripExactly | vmkit/src/object_model/compression.rs:116-137 | Decoding the encoding of an address gives it back exactly if it is null, or above the base, a multiple of the unit from it, and within 2^32 units. |
| Compression.OrderPreserved | vmkit/src/object_model/compression.rs:130-137 | Among encodable addresses encoding is injective, keeps the order, and never yields the null value. |
| Compression.HeapRoundTripsExactly | vmkit/src/object_model/compression.rs:60-106 | In each regime `init` selects, every object of a page-aligned heap survives the round trip exactly if the heap spans no more than 2^32 units from the base. |
| Compression.HeapFitsExactly | vmkit/src/object_model/compression.rs:60-106 | The same in the bounds of the heap alone: with tagging a heap survives exactly up to 16 GiB less a page; without, exactly if it ends within 2^32 units of the least alignment or spans that many units less a page. |
| Compression.LowHeapIsUnscaled | vmkit/src/object_model/compression.rs:85-95 | Without tagging, in a heap below 4 GiB the 32-bit value of an object is its address. |
| Compression.ZeroBaseAlwaysFits | vmkit/src/object_model/compression.rs:84-99 | Whenever `init` selects a zero base, the span condition holds by itself. |
| Compression.TaggedHeapTooLong | vmkit/src/object_model/compression.rs:64-77 | With tagging nothing checks the span: every heap of 16 GiB has an object that is lost. |
| Finalization.FinalizerProcessing.Process | vmkit/src/object_model/finalization.rs:70-112 | The in-place pass keeps, revives or drops each finalizer as the specified pass does, and returns true exactly if it revived one. |
| Finalization.FinalizerProcessing.RunFinalizers | vmkit/src/object_model/finalization.rs:129-137 | Whatever callbacks and other threads do to the lists after each turn, the loop ends with nothing pending and has run one finalizer a turn; left alone it runs every pending one once, the latest first, and counts them. |
| Finalization.FinalizerProcessing.GetFinalizedObject | vmkit/src/object_model/finalization.rs:139-141 | Hands out the latest pending finalizer, if any, and removes it. |
| Finalization.TrueMeansUnreachable | vmkit/src/object_model/finalization.rs:89-112 | `process` returns false exactly if every registered object was already reachable, and then it has traced nothing. |
| Finalization.KeptAreReachable | vmkit/src/object_model/finalization.rs:89-112 | Whatever stays registered is reachable where it now is; each pass that returns true leaves fewer registered. |
| Finalization.EachGoesOneWay | vmkit/src/object_model/finalization.rs:89-112 | Every finalizer goes exactly one way, in order: it stays or becomes pending, with its callback and the address its object has now, or it is dropped because its object is null; only unreachable ones become pending. |
| Finalization.FirstOfEachObject | vmkit/src/object_model/finalization.rs:94-109 | With several finalizers on one unreachable object, one pass moves exactly the first of them. |
| Finalization.TruePassesAreBounded | vmkit/src/object_model/finalization.rs:70-112 | There are never more passes returning true than finalizers registered, however the closure grows in between. |
| Finalization.CallbacksAreConserved | vmkit/src/object_model/finalization.rs:70-141 | Over every run a callback on an object is in exactly as many of the places registered, pending and consumed as it was registered, and runs at most that often: once, if registered once. |

## Left out

- StopCoverage.RegisteredAreStopped: a thread that registers after the last pass may run during the collection, in the code as in the model.
- Progress.OperationsReturn: that the thread gets to take its steps, and that whoever has its monitor, the registry or a lock gives it up, is not modelled.
- Requesters.SynchronousRequestSettles: an `unblock` for the same adapter while the request is under way ends its wait, in the code as in the model, and then nothing is promised.
- ResumeTheWorld.EverybodyIsResumed: another requester may ask a thread to block for GC again before the resume is over.
- SignalSuspend.PostDrawsNearer: that the handler goes on taking steps (scheduling) is not modelled.
- StopTheWorld.StoppedExactlyUnlessNew: speaks of the moment the request is over; a thread found `New` may still stop by itself, at a yieldpoint, before the collection begins.
- CollectorProgress.PassEnds: that each wait within a pass ends (fair scheduling, threads reaching yieldpoints) is not modelled.
- ObjectMove.Heap.MoveObject: the `ToObject` target, used by `copy_to` only, is not modelled; `copy_to` sizes the object by the target's header, whose content is up to MMTk.
- Allocation.Mutator.AllocateOutOfLine: its default branch passes offset 0, so only the object's start is aligned there, not the object.
- Allocation.Mutator.MmtkAlloc: MMTk is not part of this model; what it returns is a parameter that meets the stated contract (fresh regions, aligned starts, a collection that resets the bump pointer).
- Compression.HeapRoundTripsExactly: the heap bounds are whole pages and the least alignment at most a page; object references are aligned to it (to 16 bytes with tagging).
- Allocation.Mutator.Allocate: takes for granted that the table of valid objects covers the address handed out.
- Finalization.FirstOfEachObject: takes for granted that no object moves onto the old address of another registered one; that copies of reachable objects are reachable, and not null, is MMTk's part in all lemmas about `process`.
- `soft_handshake`: nothing in the code decrements its counter or acts on its flag, so there is no completion to prove.
- Access to the protected data through a guard inside an unlocked scope; 2^64 - 1 guards of one thread.
- `wait_with_handshake`, `wait_for_no_handshake`, `notify_one`: other ways to use the monitor; the first leaves a depth that depends on when the consumed guard is dropped.
- `process_about_to_terminate` and `join_all`: no code sets `Terminated`, so the former removes nobody; only its taking of the registry in `add_thread` is modelled, not the collector's own.
- `set_take_yieldpoint` as a public setter: its documentation (`vmkit/src/threading.rs:567-572`) calls any value safe, but storing 0 would undo a pending request, against `StopTheWorld.NoLostStopRequest`; the model stores what the runtime itself stores.
- `is_blocking`, `is_in_managed`, the yieldpoint hooks, stack pointers and saved registers: not read by the protocol proved here.
- `communication_lock`: pairing threads around `block` and `async_block` only restricts the runs.
- Requests to a thread object that was never started; calls of `enable_yieldpoints` and `disable_yieldpoints` that wrap the 8-bit counter.
- The uncooperative branches of `block_all_mutators_for_gc` and `unblock_all_mutators_for_gc`, and the signal handler's own TLAB flush and unlocked acknowledgement of block requests; `SignalSuspend` assumes live targets and balanced calls.
- Weak memory orderings: every access is sequentially consistent.
- Storing the header at allocation and `fill_alignment_gap`; address sums are taken to stay below 2^64.
- `instance_size` and `compute_size` of an object's metadata: the two together are a size parameter, the same before and after a move because the metadata is.
- Builds without address-based hashing, where the header has one state bit less and objects never carry a hash word.
- What a finalizer's callback does beyond the two lists; a finalizer on null is dropped by `process` together with its callback.
- The C shim, the derive macro, field accessors, `GcPtr`, stack bounds, address-space layout, conservative roots and the GC-disable counter.
