# PothosCore, verified

PothosCore runs dataflow designs: blocks connected by ports, packed into processes, fed with zero-copy
buffers and driven by a thread pool. This project models the parts of it that are hardest to get right
and proves what they are for.

- **Zero-copy buffers** (`Buffers`, `BufferQueue`, `QueueMerging`, `BufferPools`, `Accumulator`, `RefCounts`, `PoolUse`). The
  input queue of a port is a list of address windows that grow into each other, by address or through the
  second mapping of a circular slab, that are copied into a pool buffer when contiguity is asked for, and
  that hand pool bytes back to the next window. Memory is a function from addresses to bytes, and the
  queue is proved to be a plain byte FIFO. The coherence that the give-back relies on is part of what
  `push` asks: the bytes below a pushed window, inside its own buffer, are the end of the stream so far;
  it is also proved to be needed. Reference counts are proved to be the number of live references over
  every operation on chunks and handles, and a pooled buffer is reused exactly when only the pool refers to it.
- **Streams and labels** (`Labels`, `PortStream`). A label stays on its stream element while it is carried in
  bytes, divided into elements and moved on with consumption; every subscriber gets the same bytes and labels.
- **Concurrency** (`ActorInterface`, `ActorRuns`, `ThreadEnvironment`, `ThreadProgress`, `RpcTransact`,
  `RpcProgress`). Each protocol is a step system whose steps are single atomic accesses, or sections under a
  mutex, of any number of threads. The theorems are about every state of every run: what never happens, and
  that what is under way can end.
- **Topology compiler** (`Flatten`, `SquashFlows`, `FlattenLimits`, `FlattenChains`, `DumpBridges`,
  `DumpFlatten`, `DumpChains`, `NetworkFlows`, `DomainFlows`, `SubCommit`). Flattening, in the commit and in
  the dump, is compared with paths in the graph of ports; the network and domain passes are undone by
  contraction; the commit is compared with the set of active flows.
- **Wire formats and registry** (`Leb128`, `Datagrams`, `Registry`). Round trips, buffer growth, and the
  plugin tree with its event handlers.

Where a property fails outside a condition, the exact condition is stated: `BufferQueue.GiveBackExact`,
`Accumulator.PushNeedsCoherence`, `BufferQueue.AliasMergeExact`, `Labels.RetireExact`,
`RpcTransact.OwnReplyExactly`, `FlattenLimits.BoxExact`, `FlattenChains.RowExact`, `FlattenChains.CrossedExact`,
`DumpChains.RowDumpExact`, `RefCounts.Objects.AssignChunk` (with `RefCounts.AssignAmalgamated`, where it fails),
`RefCounts.SelfAssignment`, `NetworkFlows.TagExact`, `Leb128.SignedRoundTrip`, `Datagrams.FrameRoundTrip`.

`dafny verify dfyconfig.toml` checks the whole project with Dafny 4.11.

## Model

| member | source | states |
|---|---|---|
| `Accumulator.BufferAccumulator.constructor` | lib/Framework/BufferAccumulator.cpp:16-23 | a new accumulator is the empty stream, with a placeholder in the queue |
| `Accumulator.BufferAccumulator.Clear` | lib/Framework/BufferAccumulator.cpp:25-34 | back to the empty stream, with an empty pool |
| `Accumulator.BufferAccumulator.Push` | lib/Framework/BufferAccumulator.cpp:39-111 | push appends exactly the bytes of the window to the stream and touches no memory; the windows at the back that start where the one before ends, or one slab length below that, become one window, nothing else is merged, and if all of them follow on each other the front window holds the whole stream |
| `Accumulator.BufferAccumulator.Enqueue` | lib/Framework/BufferAccumulator.cpp:51-107 | the queue part of push: the window appended, the windows that follow on each other merged, a spent last window of the same buffer gone, and the next buffers behind |
| `Accumulator.BufferAccumulator.AmalgamateBack` | lib/Framework/BufferAccumulator.cpp:63-93 | all bytes of the windows at the back that follow on each other are in the first of them; the last window goes exactly if it is merged into one of its own buffer; the stream is kept |
| `Accumulator.BufferAccumulator.Amalgamate` | lib/Framework/BufferAccumulator.cpp:65-80 | the merge loop keeps the stream and the buffers, and puts all bytes of the windows at the back that follow on each other into the first of them |
| `Accumulator.BufferAccumulator.RestoreNexts` | lib/Framework/BufferAccumulator.cpp:100-107 | each next buffer of an upstream amalgamation comes back as an empty window at its base, in chain order; the stream is unchanged |
| `Accumulator.BufferAccumulator.Pop` | lib/Framework/BufferAccumulator.cpp:116-171 | pop drops exactly the first numBytes of the stream; what is left of the front window moves below the second one exactly if the front is a pool buffer and the second has room, or the front is past its own buffer and the second goes on from it; only spent windows are dropped; the flag stays set only while the pool window stays |
| `Accumulator.BufferAccumulator.Dequeue` | lib/Framework/BufferAccumulator.cpp:122-167 | the queue part of pop: the rest of the stream, and no spent window in front |
| `Accumulator.BufferAccumulator.Settle` | lib/Framework/BufferAccumulator.cpp:133-161 | the give-back, the removal and the move into the next window each keep the stream, whatever _inPoolBuffer says |
| `Accumulator.BufferAccumulator.DropFront` | lib/Framework/BufferAccumulator.cpp:167-167 | dropping spent windows keeps the stream |
| `Accumulator.BufferAccumulator.Require` | lib/Framework/BufferAccumulator.cpp:176-230 | require leaves the stream unchanged and makes the front window hold min(numBytes, total) bytes; it copies nothing if the front has enough or a single window can still fill up, and otherwise fills a pool buffer that nothing queued refers to and takes exactly those bytes off the windows behind |
| `Accumulator.BufferAccumulator.Gather` | lib/Framework/BufferAccumulator.cpp:193-229 | the copied prefix replaces the windows it came from: same stream, the front is the pool buffer, full or with everything, and the windows behind keep their ends |
| `Accumulator.CopyIn` | lib/Framework/BufferAccumulator.cpp:200-225 | the copy loop fills the buffer or drains the queue, keeps the stream at every round, leaves the ends of the windows behind where they were and writes only inside the buffer |
| `Accumulator.BufferAccumulator.FrontEmpty` | lib/Framework/BufferAccumulator.cpp:166-170 | the front window is empty exactly when nothing is queued |
| `Accumulator.BufferAccumulator.ReserveReached` | lib/Framework/WorkerActor.cpp:364-369 | after the require of pre-work, the reserve is reported reached exactly when that many whole elements are queued, and the front window holds a whole element or everything |
| `Accumulator.BufferAccumulator.Overwrite` | lib/Framework/WorkerActor.cpp:329-335 | the environment: upstream blocks write into buffers that they hold, and what no queued window or held buffer looks at does not disturb the queue |
| `Accumulator.AppendPushed` | lib/Framework/BufferAccumulator.cpp:51-59 | the window that push asks for keeps the queue sound and extends the stream |
| `QueueMerging.AdjoinsIsFollows` | lib/Framework/BufferAccumulator.cpp:73-75 | in a sound queue the test of the loop, by address or by alias, holds if and only if the window starts where the one before ends or one slab length below that |
| `QueueMerging.AmalgamatedExact` | lib/Framework/BufferAccumulator.cpp:65-80 | after the loop the windows at the back that follow on each other are one window with all their bytes, each of the others has moved to its end, and no other window has changed |
| `QueueMerging.TrimmedExact` | lib/Framework/BufferAccumulator.cpp:82-93 | the last window goes if and only if it was merged into one of the same buffer |
| `BufferQueue.PoppedExact` | lib/Framework/BufferAccumulator.cpp:126-167 | what pop makes of the queue, told in addresses and lengths |
| `BufferQueue.MergeIsTransfer` | lib/Framework/BufferAccumulator.cpp:73-78 | whenever the loop merges neighbours, by address or through the alias, the bytes after the front window are the merged bytes |
| `BufferQueue.MergeStep` | lib/Framework/BufferAccumulator.cpp:65-80 | one merge keeps soundness of the whole queue and its stream |
| `BufferQueue.Transfer` | lib/Framework/BufferAccumulator.cpp:73-78 | moving bytes to the window before keeps the stream and the soundness of everything around it |
| `BufferQueue.GiveBack` | lib/Framework/BufferAccumulator.cpp:133-140 | under coherence the give-back keeps stream and soundness |
| `BufferQueue.GiveBackExact` | lib/Framework/BufferAccumulator.cpp:133-140 | the give-back keeps the stream if and only if the bytes below the second window are those of the front window |
| `BufferQueue.GiveBackCorrupts` | lib/Framework/BufferAccumulator.cpp:133-140 | a queue without that coherence whose stream the give-back changes, although the distance that it compares is large enough |
| `BufferQueue.PopExact` | lib/Framework/BufferAccumulator.cpp:116-171 | with a pool window in front, one pop drops the first bytes of the stream if and only if it gives nothing back or the bytes it gives back lie below the second window |
| `BufferQueue.CoherenceNeeded` | lib/Framework/BufferAccumulator.cpp:116-171 | with a pool window in front, every pop is right if and only if the second window is coherent with it |
| `Accumulator.PushNeedsCoherence` | lib/Framework/BufferAccumulator.cpp:39-171 | push behind a pool window and then pop: every pop is right if and only if the pushed window was coherent with the stream |
| `BufferQueue.MoveOn` | lib/Framework/BufferAccumulator.cpp:145-161 | the move out of a passed buffer keeps stream and soundness |
| `BufferQueue.PopBytes` | lib/Framework/BufferAccumulator.cpp:126-127 | advancing the front window drops that many bytes and keeps the queue sound |
| `BufferQueue.CopyRound` | lib/Framework/BufferAccumulator.cpp:200-225 | one round of the copy loop keeps the stream in copy plus queue |
| `BufferQueue.SoundFrame` | lib/Framework/BufferAccumulator.cpp:199-225 | memory that no held buffer looks at may change |
| `BufferQueue.AliasMergeExact` | include/Pothos/Framework/BufferChunk.hpp:406-412 | an alias merge reads the right bytes for every memory if and only if it stays inside the double mapping |
| `BufferQueue.OneTurnOfBytesIsNotEnough` | lib/Framework/BufferAccumulator.cpp:73-78 | one slab length of queued bytes does not keep an alias merge inside the double mapping: the bound has to count from the base of the front buffer |
| `BufferPools.BufferPool.constructor` | lib/Framework/BufferPool.cpp:9-13 | an empty pool of the default size |
| `BufferPools.BufferPool.Clear` | lib/Framework/BufferPool.cpp:15-19 | an empty pool of the default size |
| `BufferPools.BufferPool.Get` | lib/Framework/BufferPool.cpp:21-39 | at least the bytes asked for, in the first buffer that no live chunk outside refers to; a new one only when every pooled one is in use; a larger request drops all others |
| `PoolUse.GetUnique` | lib/Framework/BufferPool.cpp:21-39 | with the real reference counts: a buffer that is large enough and that no live object but the pool refers to, or a new one, and that only when every pooled one is referred to elsewhere |
| `PoolUse.SharedAreInUse` | lib/Framework/BufferPool.cpp:31-34 | unique() holds of exactly the pooled buffers that no other live object refers to |
| `RefCounts.Objects.constructor` | include/Pothos/Framework/ManagedBuffer.hpp:176-180 | no object and no reference |
| `RefCounts.Objects.IncrNextBuffers` | lib/Framework/BufferChunk.cpp:47-62 | one more count for exactly the next buffers, in chain order, that hold the bytes of the window past its buffer: without the last of them they would not, and they do unless the chain ends |
| `RefCounts.CoveredExact` | lib/Framework/BufferChunk.cpp:53-61 | the number of next buffers that is counted is the one number for which their lengths add up to what the window has past its buffer, or the chain ends, and do not without the last |
| `RefCounts.ExactSpans` | lib/Framework/BufferChunk.cpp:47-62 | a chunk matches its window if and only if the lengths of its next buffers do |
| `RefCounts.Objects.DecrNextBuffers` | lib/Framework/BufferChunk.cpp:64-79 | the next buffers are let go in chain order, each still counted when its next pointer is read |
| `RefCounts.GoingStep` | lib/Framework/BufferChunk.cpp:70-78 | the buffer that the loop comes to has a count of at least one |
| `RefCounts.Objects.Decr` | include/Pothos/Framework/ManagedBuffer.hpp:163-171 | cleanup is called when the count was one |
| `RefCounts.Objects.CopyChunk` | include/Pothos/Framework/BufferChunk.hpp:325-332 | after copy construction every counter is the number of live references; the copy counts its buffer and exactly the next buffers that its window needs |
| `RefCounts.Objects.Move` | include/Pothos/Framework/BufferChunk.hpp:334-344 | references change hands; counters and live references agree, and nothing is cleaned up |
| `RefCounts.Objects.AssignChunk` | include/Pothos/Framework/BufferChunk.hpp:351-360 | after copy assignment counters are exact, the copy counts exactly the next buffers that its window needs, and cleanup was called for exactly the buffers that lost their last reference if and only if no buffer that the copy takes up loses its last reference while the old ones are let go |
| `RefCounts.AssignAmalgamated` | include/Pothos/Framework/BufferChunk.hpp:351-360 | operations after which a live chunk refers to a buffer that was cleaned up: a window that runs past its counted next buffers is copied, and assigned to its copy |
| `RefCounts.RevivedExactly` | include/Pothos/Framework/BufferChunk.hpp:351-360 | cleanup stays right after taking references up if and only if nothing is taken up that was just cleaned up |
| `RefCounts.ExactLasts` | include/Pothos/Framework/BufferChunk.hpp:351-360 | a chunk whose next buffers match its window meets that condition for every target |
| `RefCounts.Objects.MoveAssign` | include/Pothos/Framework/BufferChunk.hpp:362-374 | after move assignment counters are exact and cleanup was called exactly for last references |
| `RefCounts.Objects.Clear` | include/Pothos/Framework/BufferChunk.hpp:376-384 | after clear or reset counters are exact and cleanup was called exactly for last references |
| `RefCounts.Objects.Destroy` | include/Pothos/Framework/BufferChunk.hpp:346-349 | after destruction counters are exact and cleanup was called exactly for last references |
| `RefCounts.Objects.NewHandle` | include/Pothos/Framework/ManagedBuffer.hpp:210-214 | a handle counts one reference |
| `RefCounts.Objects.AssignHandle` | include/Pothos/Framework/ManagedBuffer.hpp:222-228 | handle assignment keeps counters exact and cleans up exactly last references |
| `RefCounts.Objects.MakeChunk` | include/Pothos/Framework/BufferChunk.hpp:315-323 | a chunk on a handle counts one more reference |
| `RefCounts.Objects.SetEnd` | include/Pothos/Framework/BufferChunk.hpp:414-417 | changing a window changes no count |
| `RefCounts.LetGo` | include/Pothos/Framework/ManagedBuffer.hpp:163-171 | letting go of all that an object holds keeps counts exact and cleans up each buffer once at its last reference |
| `RefCounts.DropsLast` | include/Pothos/Framework/ManagedBuffer.hpp:163-171 | over any series of releases a buffer is cleaned up once if its last reference is among them and otherwise not |
| `RefCounts.NothingRevived` | include/Pothos/Framework/BufferChunk.hpp:351-360 | taking up what another live object holds revives nothing that was cleaned up |
| `RefCounts.SelfAssignment` | include/Pothos/Framework/BufferChunk.hpp:351-360 | assigned to itself, a chunk has a buffer cleaned up that it still refers to if and only if no other object refers to it |
| `RefCounts.UniqueIsAlone` | include/Pothos/Framework/ManagedBuffer.hpp:249-253 | the count of a buffer that a slot refers to once is one if and only if no other live object refers to it |
| `Labels.InputPort.constructor` | lib/Framework/InputPort.cpp:17-30 | an empty stream without labels |
| `Labels.InputPort.BufferLabelPush` | lib/Framework/InputPort.cpp:187-236 | labels go in behind the queued bytes, each with its id, data and width, and buffers are appended, the same whether moved or copied; labels in order and not past their buffers stay in order |
| `Labels.InputPort.Front` | include/Pothos/Framework/InputPortImpl.hpp:162-172 | the labels that were there stay, and every queued label follows in order with its id and data, width and index divided by the element size, so that consumed elements plus index is its byte position divided by that size |
| `Labels.InputPort.Consume` | include/Pothos/Framework/InputPortImpl.hpp:70-73 | consumption within the front buffer keeps the invariant |
| `Labels.InputPort.RemoveLabel` | include/Pothos/Framework/InputPortImpl.hpp:103-116 | the first equal label goes and no other label moves |
| `Labels.InputPort.RetireLabels` | lib/Framework/WorkerActor.cpp:411-434 | passed labels are erased and the others moved on; every label is still on its element if and only if the passed labels came first |
| `Labels.InputPort.Pop` | lib/Framework/InputPort.cpp:165-185 | in-bounds pops leave every queued label, with its id, data and width, at its place in the stream, with no position below zero |
| `Labels.InputPort.PostWork` | lib/Framework/WorkerActor.cpp:405-446 | as many labels go as were passed, each that is left keeps its id, data and width and moves on by what was consumed; every label is on its element if and only if the passed labels came first, and always when labels are in stream order |
| `Labels.RetireExact` | lib/Framework/WorkerActor.cpp:411-434 | counting the passed labels and erasing that many in front is right if and only if the passed labels come first |
| `Labels.RetiredAreLeft` | lib/Framework/WorkerActor.cpp:411-434 | what is left are the last labels, unchanged but for their index, and exactly as many have gone as are before the consumed elements |
| `Labels.PostedArrives` | include/Pothos/Framework/OutputPortImpl.hpp:118-125 | a label posted on an element, counted in bytes on the way, arrives on that element behind the elements that are queued, with the same width |
| `Labels.ErasedArePassed` | lib/Framework/WorkerActor.cpp:411-434 | the erased labels are the passed ones if and only if those come first |
| `Labels.OrderlyPassesFirst` | lib/Framework/WorkerActor.cpp:413-418 | labels in stream order have their passed labels first, for every amount consumed |
| `Labels.PushKeepsOrder` | lib/Framework/InputPort.cpp:195-228 | labels posted in order and not past their buffers go in behind all others |
| `Labels.PastItsBuffer` | lib/Framework/WorkerActor.cpp:411-434 | a label posted past the end of its buffer is erased in place of a later one that is passed |
| `Labels.SendToSubscribers` | lib/Framework/WorkerActor.cpp:514-522 | every subscriber gets the same bytes and the same labels at the end of its own stream, whether copied or moved |
| `PortStream.BufferedPort.Push` | lib/Framework/InputPort.cpp:187-236 | the stream that labels are placed on stays what the accumulator holds when a buffer with labels is pushed, also during work |
| `PortStream.BufferedPort.BeginWork` | lib/Framework/WorkerActor.cpp:364-373 | pre-work on the accumulator: same stream, and the block sees the required bytes or all there are |
| `PortStream.BufferedPort.EndWork` | lib/Framework/WorkerActor.cpp:405-446 | post-work on the accumulator: the same bytes go from the stream and the accumulator, and labels stay on their elements if and only if the passed ones came first |
| `Labels.DivShift` | include/Pothos/Framework/InputPortImpl.hpp:168-169 | whole elements in front of a byte position shift its element index by their number |
| `ActorInterface.StepKeepsLocksAndCount` | lib/Framework/ActorInterface.hpp:145-239 | every atomic access keeps the call lock with one thread, the mutex with one thread and the counter exact |
| `ActorInterface.StepKeepsChange` | lib/Framework/ActorInterface.hpp:168-239 | every atomic access keeps a pending change raised or carried by a worker |
| `ActorInterface.RunInv` | lib/Framework/ActorInterface.hpp:145-239 | the invariant holds in every state of every run |
| `ActorInterface.MutualExclusion` | lib/Framework/ActorInterface.hpp:145-180 | in every reachable state at most one thread, caller or worker, holds the actor |
| `ActorInterface.CounterIsExact` | lib/Framework/ActorInterface.hpp:145-166 | in every reachable state the external counter is the number of callers between increment and decrement |
| `ActorInterface.NoLostChange` | lib/Framework/ActorInterface.hpp:168-239 | from a flagged change until a work task starts, the flag is raised or some worker has consumed it and is about to lock, work or flag again |
| `ActorRuns.TakenOnce` | lib/Framework/ActorInterface.hpp:189-193 | between two accesses that take the change flag some access raised it |
| `ActorRuns.WorkNeedsChanges` | lib/Framework/ActorInterface.hpp:168-239 | over every run, work tasks never outnumber the changes that were flagged |
| `ActorRuns.CallersFirst` | lib/Framework/ActorInterface.hpp:189-193 | in every run a worker looks at the change flag if and only if no caller is between acquire and release |
| `ActorRuns.AcquireAlone` | lib/Framework/ActorInterface.hpp:168-208 | run alone, workerThreadAcquire takes the actor if and only if a change is flagged, there is no caller and the lock is free, and otherwise leaves everything as it was |
| `ActorRuns.WorkAlone` | lib/Framework/ActorInterface.hpp:210-215 | run alone, a work task and its release leave the actor free |
| `ActorRuns.CallAlone` | lib/Framework/ActorInterface.hpp:145-156 | run alone, externalCallAcquire comes to the call if the actor is free, and otherwise sleeps without the mutex, counted |
| `ActorRuns.ReleaseAlone` | lib/Framework/ActorInterface.hpp:158-166 | run alone, externalCallRelease leaves the actor free, the call uncounted and a change flagged |
| `ActorRuns.WaitAnnounced` | lib/Framework/ActorInterface.hpp:195-204 | with one worker at a time, a flagger finds a wait announced exactly while the worker waits |
| `ThreadEnvironment.StepInv` | lib/Framework/ThreadEnvironment.cpp:115-220 | every step of a pool or single-task thread keeps the invariant |
| `ThreadEnvironment.StepMovesOwnFlags` | lib/Framework/ThreadEnvironment.cpp:115-133 | a thread holds exactly the flags of the tasks it runs or probes |
| `ThreadEnvironment.StepKeepsOthersFlags` | lib/Framework/ThreadEnvironment.cpp:115-133 | no step sets or clears a flag that another thread has set |
| `ThreadEnvironment.OnlyJoinedExits` | lib/Framework/ThreadEnvironment.cpp:163-174 | the step that leaves a loop is of the thread being joined |
| `ThreadEnvironment.RegisterInv` | lib/Framework/ThreadEnvironment.cpp:34-39 | registration keeps the invariant |
| `ThreadEnvironment.UnregisterInv` | lib/Framework/ThreadEnvironment.cpp:71-77 | the first part of unregistration keeps the invariant |
| `ThreadEnvironment.SpawnInv` | lib/Framework/ThreadEnvironment.cpp:41-56 | starting a thread, or not, fits the pool to the tasks |
| `ThreadEnvironment.JoinInv` | lib/Framework/ThreadEnvironment.cpp:83-99 | joining a thread, or not, fits the pool to the tasks |
| `ThreadEnvironment.DrainInv` | lib/Framework/ThreadEnvironment.cpp:101-102 | waiting until the task is unique leaves no table with it |
| `ThreadEnvironment.RunInv` | lib/Framework/ThreadEnvironment.cpp:26-220 | the invariant holds in every state of every run |
| `ThreadEnvironment.OneRunner` | lib/Framework/ThreadEnvironment.cpp:176-193 | no task is ever run by two threads at once, however stale their tables are |
| `ThreadEnvironment.UnregisteredIsGone` | lib/Framework/ThreadEnvironment.cpp:62-106 | from the return of unregisterTask on no thread runs its task or has it in its table, and none has its handle until that is registered again |
| `ThreadEnvironment.PoolFits` | lib/Framework/ThreadEnvironment.cpp:41-56 | whenever no registration is under way the pool has exactly min(numThreads, tasks) threads, or each handle its own, and none has left its loop |
| `ThreadEnvironment.OnlyTheJoinedLeave` | lib/Framework/ThreadEnvironment.cpp:163-174 | only the thread being joined ever leaves its loop |
| `ThreadEnvironment.DispatchFindsWork` | lib/Framework/ThreadEnvironment.cpp:161-178 | a dispatching thread has the table of the version it recorded and finds a task in it |
| `ThreadProgress.DispatchesCurrent` | lib/Framework/ThreadEnvironment.cpp:161-174 | a thread that comes to dispatch has the table that is current at that moment |
| `ThreadProgress.RunsUnlessBusy` | lib/Framework/ThreadEnvironment.cpp:176-193 | a thread of the pool that tries a task runs it if and only if no other thread has it |
| `ThreadProgress.WakesAll` | lib/Framework/ThreadEnvironment.cpp:115-133 | after a task that did its work a thread has come to every other task of its table before it clears the flag |
| `ThreadProgress.CatchUp` | lib/Framework/ThreadEnvironment.cpp:150-220 | left alone, a thread with an old table comes to copy the current one, wherever it stands |
| `ThreadProgress.CanReturn` | lib/Framework/ThreadEnvironment.cpp:26-106 | from every reachable state the registration or unregistration that is under way can return: no deadlock |
| `RpcTransact.StepInv` | lib/Remote/RemoteProxy.cpp:39-95 | every step of a client or the server keeps the invariant |
| `RpcTransact.ServerConserves` | lib/Remote/ServerHandler.cpp:57-177 | the server answers each request once, with the id it came with |
| `RpcTransact.RunInv` | lib/Remote/RemoteProxy.cpp:39-95 | the invariant holds in every state of every run |
| `RpcTransact.OwnReply` | lib/Remote/RemoteProxy.cpp:39-95 | with distinct ids every transact returns the reply to its own request |
| `RpcTransact.ExactlyOnePlace` | lib/Remote/RemoteProxy.cpp:39-95 | the message of each waiting thread is in exactly one place: request, server, reply, reader or cache; and nothing else is anywhere |
| `RpcTransact.ReaderAndSleepers` | lib/Remote/RemoteProxy.cpp:55-79 | at most one thread reads, and while any sleeps one reads or is about to notify |
| `RpcTransact.SharedIdMixesReplies` | lib/Remote/RemoteProxy.cpp:81-88 | for any two threads with one id there is a run in which one returns the reply to the other |
| `RpcTransact.OwnReplyExactly` | lib/Remote/RemoteProxy.cpp:39-95 | every run returns every thread its own reply if and only if no two threads share an id |
| `RpcProgress.ProperRunsDown` | lib/Remote/RemoteProxy.cpp:39-95 | every step but a new request or a spurious wake-up goes down in one well-founded order, so no schedule is endless |
| `RpcProgress.StuckIsDone` | lib/Remote/RemoteProxy.cpp:39-95 | when no step is left every transact has returned: nothing waits for a reply that is in the cache, and no sleeper is forgotten |
| `RpcProgress.RunReaderLacks` | lib/Remote/RemoteProxy.cpp:55-79 | in every reachable state the thread that reads has no reply in the cache |
| `RpcProgress.AllCanReturn` | lib/Remote/RemoteProxy.cpp:39-95 | from every reachable state every transact that is under way can return, without new requests or spurious wake-ups |
| `SquashFlows.ResolvePortsFromTopology` | lib/Framework/TopologySquashFlows.cpp:12-32 | exactly the blocks behind a port of a topology and the far ports of its pass-throughs |
| `SquashFlows.ResolvePorts` | lib/Framework/TopologySquashFlows.cpp:44-68 | exactly the ports behind one end of a flow |
| `SquashFlows.CombinePorts` | lib/Framework/TopologySquashFlows.cpp:146-159 | all combinations of sources and destinations and no other |
| `SquashFlows.LocalFlows` | lib/Framework/TopologySquashFlows.cpp:117-171 | exactly the flows between objects, or the pass-throughs, of one topology |
| `SquashFlows.Objects` | lib/Framework/TopologySquashFlows.cpp:128-134 | every object that the flows name, by uid |
| `SquashFlows.Squash` | lib/Framework/TopologySquashFlows.cpp:113-181 | exactly the flows of the topology and of everything below it, with the pass-throughs |
| `SquashFlows.CompleteTail` | lib/Framework/TopologyCommit.cpp:174-188 | the flows that one pass-through and one tail complete |
| `SquashFlows.CompletePass` | lib/Framework/TopologyCommit.cpp:171-188 | the flows that one pass-through completes |
| `SquashFlows.CompletePassThroughFlows` | lib/Framework/TopologyCommit.cpp:161-197 | exactly the flows between blocks and those that a pass-through, a tail and a head complete |
| `SquashFlows.FlattenFlows` | lib/Framework/TopologyCommit.cpp:273-276 | the flows that remain are exactly the pairs of block ports that a path through hierarchy ports links |
| `Flatten.FlattenPreservesLinks` | lib/Framework/TopologySquashFlows.cpp:113-181 | for every finite hierarchy in which no connection joins two pass-throughs and pass-throughs that share a port have the same ports on the other side, flows and paths agree in both directions |
| `Flatten.CompletedIsLinked` | lib/Framework/TopologyCommit.cpp:161-197 | every completed flow is a path |
| `Flatten.LinkedIsCompleted` | lib/Framework/TopologyCommit.cpp:161-197 | every path becomes a flow, if no connection joins two pass-throughs |
| `Flatten.ResolvedIsLinked` | lib/Framework/TopologySquashFlows.cpp:44-68 | a resolved port is linked to the end it was resolved from |
| `FlattenLimits.BoxExact` | lib/Framework/TopologyCommit.cpp:161-197 | for a topology of pass-throughs, flattening is right about every pair of its ports if and only if its pass-throughs tile |
| `FlattenLimits.BoxCompleted` | lib/Framework/TopologyCommit.cpp:161-197 | what completion connects through such a topology: the ends of three pass-throughs, the middle one backwards |
| `FlattenLimits.ChainIsLost` | lib/Framework/TopologyCommit.cpp:161-197 | an instance: two pass-throughs in a row, a path and no flow |
| `FlattenChains.RowExact` | lib/Framework/TopologyCommit.cpp:161-197 | for any two topologies of pass-throughs in a row, fed and drained at any ports, flattening agrees with the paths if and only if the row does not lead through |
| `FlattenChains.CrossedExact` | lib/Framework/TopologyCommit.cpp:161-197 | with one more block at either side of their connection, completion makes a flow that no path has if and only if something passes to the connection and from it |
| `FlattenChains.JointExact` | lib/Framework/TopologyCommit.cpp:161-197 | a connection between two such topologies is flattened right wherever they are fed if and only if nothing passes at it |
| `FlattenChains.RowCompleted` | lib/Framework/TopologyCommit.cpp:161-197 | what completion makes of such a row: never a flow along it, and a flow across its connection |
| `DumpFlatten.ResolvePorts` | lib/Framework/TopologyDumpJSON.cpp:17-60 | exactly the ports one level below, or the port itself |
| `DumpFlatten.UnfoldConns` | lib/Framework/TopologyDumpJSON.cpp:89-105 | the connections of the top level, unfolded by one level |
| `DumpFlatten.BridgePass` | lib/Framework/TopologyDumpJSON.cpp:124-143 | the pairs of connections that meet at a pass-through |
| `DumpFlatten.HierConns` | lib/Framework/TopologyDumpJSON.cpp:107-145 | the internal connections of one hierarchy and those its pass-throughs complete |
| `DumpFlatten.NextBlocks` | lib/Framework/TopologyDumpJSON.cpp:66-87 | hierarchies give way to what they contain, by uid |
| `DumpFlatten.FlattenDump` | lib/Framework/TopologyDumpJSON.cpp:62-152 | one call makes exactly the next level and says whether there was a hierarchy |
| `DumpFlatten.NextSays` | lib/Framework/TopologyDumpJSON.cpp:62-152 | dissolving one level does not change what the dump says of any two blocks, if pass-throughs are connected to blocks alone, each in one topology |
| `DumpFlatten.NextPlain` | lib/Framework/TopologyDumpJSON.cpp:62-152 | that pass-throughs are connected to blocks alone stays so on every level |
| `DumpFlatten.NextHasSame` | lib/Framework/TopologyDumpJSON.cpp:66-87 | one level loses no block and adds none |
| `DumpBridges.DumpedExactly` | lib/Framework/TopologyDumpJSON.cpp:107-145 | in such a hierarchy two blocks are linked if and only if flows, or a bridge over one pass-through, link them, whether or not pass-throughs share ports |
| `DumpChains.HierNeighbourIsLost` | lib/Framework/TopologyDumpJSON.cpp:131-141 | a connection made at a pass-through whose neighbour is a hierarchy of the same level is gone on the next |
| `DumpChains.RowDumpExact` | lib/Framework/TopologyDumpJSON.cpp:62-152 | for any two topologies of pass-throughs in a row, the dump agrees with the paths if and only if the row does not lead through |
| `DumpFlatten.DumpFlat` | lib/Framework/TopologyDumpJSON.cpp:165-249 | the repeated flattening ends on every finite hierarchy with exactly the blocks that some topology of it connects; its connections are exactly the paths between blocks if pass-throughs are connected to blocks alone, each in one topology; without pass-throughs they are those of the recursive squash |
| `DumpFlatten.NoPassCompleted` | lib/Framework/TopologySquashFlows.cpp:113-181 | without pass-throughs the squashed flows are the completed ones and the paths |
| `NetworkFlows.TagInjective` | lib/Framework/TopologyImpl.hpp:16-21 | a tagged port names one port and one process, if no process id holds the arrow head |
| `NetworkFlows.TagExact` | lib/Framework/TopologyImpl.hpp:16-21 | two process ids can be told apart in every tag if and only if neither is the other behind an arrow |
| `NetworkFlows.KeyExact` | lib/Framework/TopologyImpl.hpp:16-21 | two flows share a network pair if and only if they come from one port and go to one process |
| `NetworkFlows.Impl.CreateNetworkFlow` | lib/Framework/TopologyNetworkFlows.cpp:14-51 | whichever side binds, the sink is made in the process of the source and the source in the process of the destination; the sink binds, first, unless its node is the local one, and the side that binds is local only if both are |
| `NetworkFlows.Group` | lib/Framework/TopologyNetworkFlows.cpp:60-71 | flows within a process are kept and the others grouped by tagged source |
| `NetworkFlows.Impl.FillCache` | lib/Framework/TopologyNetworkFlows.cpp:72-85 | every group has a pair in the cache, pairs that were there stay, all are placed right, and two blocks are made for each new key and no other |
| `NetworkFlows.EmitGroup` | lib/Framework/TopologyNetworkFlows.cpp:93-107 | one flow into the sink and then one out of the source for each destination, in order |
| `NetworkFlows.Emit` | lib/Framework/TopologyNetworkFlows.cpp:87-108 | the flows of all groups |
| `NetworkFlows.Impl.CreateNetworkFlows` | lib/Framework/TopologyNetworkFlows.cpp:56-111 | flows within a process are kept, and each other flow goes into a sink beside its source and out of a source block beside its destination; nothing else comes out, nothing twice, and nothing changes if no flow crosses; contracting each sink and source gives back exactly the flows that went in |
| `NetworkFlows.NetworkPreserves` | lib/Framework/TopologyNetworkFlows.cpp:56-111 | contraction of the network pairs, both directions |
| `NetworkFlows.BridgesWhereNeeded` | lib/Framework/TopologyNetworkFlows.cpp:60-108 | the flows that come out are the local ones and the legs of the others |
| `NetworkFlows.NetworkedIsLocal` | lib/Framework/TopologyNetworkFlows.cpp:60-108 | both ends of an output flow are in one process |
| `NetworkFlows.Impl.Prune` | lib/Framework/TopologyCommit.cpp:333-343 | only the keys of current flows stay in the cache, and the cache stays right for the next commit |
| `DomainFlows.IsDomainCrossingAcceptable` | lib/Framework/TopologyDomainFlows.cpp:31-71 | not acceptable exactly when two of the peers, or one, clash with the port: two domains, a mode of error, or a custom mode that meets a second peer of an input or a peer that does not abdicate |
| `DomainFlows.AcceptableExact` | lib/Framework/TopologyDomainFlows.cpp:47-71 | the decision is that no two peers clash |
| `DomainFlows.NeedsExact` | lib/Framework/TopologyDomainFlows.cpp:93-121 | a port needs a copier if and only if it has flows that clash |
| `DomainFlows.ListPeers` | lib/Framework/TopologyDomainFlows.cpp:112-121 | the peers of each port, as often as the double loop pushes them |
| `DomainFlows.ListedPeers` | lib/Framework/TopologyDomainFlows.cpp:112-121 | the listed peers are exactly the ports that a flow connects |
| `DomainFlows.InspectDomains` | lib/Framework/TopologyDomainFlows.cpp:93-105 | a copier for exactly the ports whose crossing is not acceptable, each its own, in the process of the port |
| `DomainFlows.InsertCopiers` | lib/Framework/TopologyDomainFlows.cpp:127-154 | each flow goes through the copier of its destination, else of its source, else straight; without copiers the flows stay as they are, and none comes out twice |
| `DomainFlows.RectifyDomainFlows` | lib/Framework/TopologyDomainFlows.cpp:110-157 | a port has a copier if and only if it has flows that clash; each flow goes through the copier of its destination, else of its source; if every port abdicates and each port's peers are in one domain nothing changes; flows stay within processes, none comes twice, and contracting each copier gives back exactly the flows that went in |
| `DomainFlows.RepeatsDoNotMatter` | lib/Framework/TopologyDomainFlows.cpp:112-121 | that the double loop lists a peer once for every flow of the port does not change the decision |
| `DomainFlows.DomainPreserves` | lib/Framework/TopologyDomainFlows.cpp:127-154 | contraction of the copiers, both directions |
| `DomainFlows.RewriteFlows` | lib/Framework/TopologyCommit.cpp:278-282 | both passes together: every output flow within one process, and contracting copiers and network pairs gives back exactly the input flows; none comes out twice |
| `SubCommit.Subscribe` | lib/Framework/WorkerActor.cpp:117-174 | a subscription fails exactly when it exists on add or is missing on remove |
| `SubCommit.SubscribeMirrors` | lib/Framework/WorkerActor.cpp:117-174 | a subscription that does not fail changes the relation by that one flow |
| `SubCommit.Missing` | lib/Framework/TopologyCommit.cpp:213-225 | exactly the flows of one list that are not in the other |
| `SubCommit.ObjSet` | lib/Framework/TopologyImpl.hpp:55-71 | the blocks of the flows less those of the excluded flows |
| `SubCommit.SubTopology.constructor` | lib/Framework/TopologyImpl.hpp:28-28 | no flows, no subscriptions, no active blocks |
| `SubCommit.SubTopology.Connect` | lib/Framework/Topology.cpp:190-194 | a flow that exists is refused, and any other is appended |
| `SubCommit.SubTopology.DisconnectAll` | lib/Framework/Topology.cpp:234-262 | no flows are left to commit |
| `SubCommit.SubTopology.SubscribePort` | lib/Framework/TopologyCommit.cpp:129-139 | both ports of a flow change, or neither; it fails exactly when the flow is there on add or missing on remove |
| `SubCommit.SubTopology.UpdateFlows` | lib/Framework/TopologyCommit.cpp:141-156 | every change is made; no call fails if and only if the flows are all new, or all there, and none comes twice |
| `SubCommit.SubTopology.Commit` | lib/Framework/TopologyCommit.cpp:207-260 | over every sequence of commits the list of every source port holds exactly its destinations and that of every destination port its sources, the active blocks exactly theirs, no add or remove fails, and activation reaches exactly the blocks that come and go |
| `Leb128.SaveSigned` | include/Pothos/Archive/Numbers.hpp:102-120 | the loop ends and emits the signed encoding |
| `Leb128.LoadSigned` | include/Pothos/Archive/Numbers.hpp:122-142 | the decoded value and the rest of the stream, or the end of the stream |
| `Leb128.SaveUnsigned` | include/Pothos/Archive/Numbers.hpp:147-163 | the loop ends and emits the unsigned encoding |
| `Leb128.LoadUnsigned` | include/Pothos/Archive/Numbers.hpp:165-181 | the decoded value and the rest of the stream, or the end of the stream |
| `Leb128.EncodedSigned` | include/Pothos/Archive/Numbers.hpp:109-120 | the groups and the sign bit of the last byte are the number |
| `Leb128.SignedLength` | include/Pothos/Archive/Numbers.hpp:109-120 | a number takes at most n bytes if and only if it fits in 7n bits with its sign |
| `Leb128.UnsignedLength` | include/Pothos/Archive/Numbers.hpp:154-163 | an unsigned number takes at most n bytes if and only if it fits in 7n bits |
| `Leb128.UnsignedRoundTrip` | include/Pothos/Archive/Numbers.hpp:147-181 | load undoes save for every unsigned 32-bit and 64-bit number, with any suffix left untouched |
| `Leb128.SignedRoundTrip` | include/Pothos/Archive/Numbers.hpp:102-142 | load undoes save whatever an undefined shift gives if and only if the sign mask needs none: every 32-bit number, and 64-bit numbers from -2^27 up or below -2^62 |
| `Leb128.SignedDecode` | include/Pothos/Archive/Numbers.hpp:129-141 | the decoded value of a saved number with a defined mask |
| `Leb128.SignedSuffix` | include/Pothos/Archive/Numbers.hpp:102-142 | what follows a signed number is left untouched |
| `Datagrams.FrameRoundTrip` | lib/Remote/RemoteProxyDatagram.cpp:46-63 | a datagram is received as the payload that was sent if and only if its length fits in 32 bits |
| `Datagrams.ReceiveExact` | lib/Remote/RemoteProxyDatagram.cpp:105-141 | a payload and a rest are received if and only if the stream is the frame of the payload and then the rest |
| `Datagrams.ReceiveFails` | lib/Remote/RemoteProxyDatagram.cpp:108-136 | each error, and exactly when it comes: a wrong first word, too few bytes, a wrong last word |
| `Datagrams.WordIsBigEndian` | lib/Remote/RemoteProxyDatagram.cpp:50-57 | the length goes out with its most significant byte first |
| `Datagrams.StreamRoundTrip` | lib/Remote/RemoteProxyDatagram.cpp:105-141 | datagrams written back to back are read back as the same payloads, and what follows is left |
| `Datagrams.Obuf.EnsureSize` | lib/Remote/RemoteProxyDatagram.cpp:65-72 | room for the bytes, with everything written kept, and a grown buffer less than twice what is needed |
| `Datagrams.Obuf.Overflow` | lib/Remote/RemoteProxyDatagram.cpp:74-81 | the character is appended, within the buffer |
| `Datagrams.Obuf.Xsputn` | lib/Remote/RemoteProxyDatagram.cpp:83-92 | the bytes are appended, within the buffer |
| `Datagrams.Obuf.Datagram` | lib/Remote/RemoteProxyDatagram.cpp:50-61 | header, length, contents and trailer |
| `Datagrams.Send` | lib/Remote/RemoteProxyDatagram.cpp:42-63 | any series of writes gives the frame of their concatenation |
| `Datagrams.Ibuf.Underflow` | lib/Remote/RemoteProxyDatagram.cpp:143-148 | the next unread character, without reading it |
| `Datagrams.Ibuf.Uflow` | lib/Remote/RemoteProxyDatagram.cpp:150-155 | the next unread character is read |
| `Datagrams.Ibuf.Pbackfail` | lib/Remote/RemoteProxyDatagram.cpp:162-170 | only the character just read goes back |
| `Datagrams.Ibuf.Xsgetn` | lib/Remote/RemoteProxyDatagram.cpp:172-180 | reads a prefix of what is unread, as long as asked for and available |
| `Registry.PutAt` | lib/Plugin/Registry.cpp:155-182 | a plugin is stored or cleared at its path and nowhere else |
| `Registry.PutOrder` | lib/Plugin/Registry.cpp:159-166 | add notes one name at every node above, in front of none, unless it is there |
| `Registry.PutWellFormed` | lib/Plugin/Registry.cpp:155-182 | the name of every child with plugins is noted, once |
| `Registry.Counted` | lib/Plugin/Registry.cpp:32-41 | a plugin at or below a node is counted |
| `Registry.CountedSomewhere` | lib/Plugin/Registry.cpp:32-41 | what is counted is a plugin at or below the node |
| `Registry.MissedExact` | lib/Plugin/Registry.cpp:110-124 | the recursion comes to every plugin strictly below exactly once |
| `Registry.NoticesBalance` | lib/Plugin/Registry.cpp:80-106 | each handler above is told once |
| `Registry.AllNoticesBalance` | lib/Plugin/Registry.cpp:80-106 | the same for every path: an event of the root goes to no handler but the root's own |
| `Registry.NoticesInOrder` | lib/Plugin/Registry.cpp:80-106 | the calls go to installed handlers above and to no other, the nearest first |
| `Registry.MissedInOrder` | lib/Plugin/Registry.cpp:110-124 | the recursion comes to a node before what is below it, and to children in the order of first insertion |
| `Registry.NewHandlerTold` | lib/Plugin/Registry.cpp:184-186 | a new handler has one unmatched add for every plugin strictly below it |
| `Registry.StaysTold` | lib/Plugin/Registry.cpp:80-106 | an add or remove keeps every other handler told |
| `Registry.PluginRegistry.HandlePluginEvent` | lib/Plugin/Registry.cpp:80-106 | the handlers above are called, from the nearest up; for the root, its own plugin |
| `Registry.PluginRegistry.Add` | lib/Plugin/Registry.cpp:146-186 | add keeps it that every installed handler has exactly one unmatched add for every plugin strictly below it, whichever came first, calls no other handler, and fails exactly when the path is taken |
| `Registry.PluginRegistry.Remove` | lib/Plugin/Registry.cpp:209-240 | remove keeps the same, calls only handlers above, and fails exactly when there is no plugin |
| `Registry.ListExact` | lib/Plugin/Registry.cpp:272-290 | list names exactly the children with a plugin at or below them |
| `Registry.PluginRegistry.List` | lib/Plugin/Registry.cpp:272-290 | the non-empty children in the order of first insertion |

## Left out

- Allocation of slabs, the double mapping of circular slabs, NUMA, thread priorities and affinity, sockets and processes: the double mapping is an assumption on memory, a new allocation and the process of a block are parameters.
- Buffer managers, SpinLock, RingDeque and SpinLockRW: an abstract source of buffers, an atomic try-lock, a sequence, and one thread.
- Accumulator.BufferAccumulator.Push: asks for non-empty windows whose bytes below, in their own buffer, repeat the end of the stream, for buffers that tile their slab, and for at most one turn of a circular slab from the base of a held buffer; a bound of one slab length on the queued bytes alone is not enough (`BufferQueue.OneTurnOfBytesIsNotEnough`). Slabs are at least one alias offset apart, because getAlias can name an address that far above the double mapping.
- Accumulator.BufferAccumulator.Pop: asks for at most the front window's length, as the source asserts.
- BufferPools.BufferPool.Get: which buffers others hold is a parameter, which `PoolUse.GetUnique` takes from the reference counts; the end of the pooled chunks that a larger request drops is not modelled.
- Labels.InputPort.Consume: consumption past the front buffer, which the source reports as an error after the fact, is outside the invariant; so are buffers that are dropped for their type and labels pushed from outside with pushLabel.
- Labels.InputPort.BufferLabelPush: positions are natural numbers; a position of 2^64 bytes or more is not modelled.
- Labels.SendToSubscribers: that the posted labels are sorted first is taken as part of `Fits`, not as a sorting algorithm; subscribers are distinct, which `SubCommit` proves of the lists.
- RefCounts.Objects.IncrNextBuffers: the remaining length is an unbounded integer, where the source keeps it in an int; the chain of next buffers does not change while chunks are alive, and no buffer in it is empty.
- The manager's side of cleanup (the buffer goes back to its manager's queue) and concurrent counting: each operation runs alone.
- Weak memory, fairness and timing: steps interleave one at a time, and nothing is said about when they happen, only that what is under way can end (`ThreadProgress.CanReturn`, `RpcProgress.AllCanReturn`). In `ThreadEnvironment` a thread may try any task of its table next, which covers the round robin and the wait mode.
- ThreadEnvironment.RegisterInv: the handle is not registered already, and one that is unregistered is; registering a handle twice replaces its task without waiting for the threads that run it.
- RpcTransact.OwnReply: the failure of a stream during transact, and the meaning of requests, are not modelled.
- Language bindings' inner blocks (getInternalBlock): a block is its own inner block.
- SquashFlows.Squash: the flows are compared as a set; the order in which futures deliver and the number of times that parallel routes give the same flow are not modelled.
- DumpFlatten.DumpFlat: for other hierarchies with pass-throughs the connections are modelled as the source makes them, and claimed for rows of two in `DumpChains`; display names and port descriptions are not modelled.
- NetworkFlows.TagInjective: the passes ask that no process id contains the character '>'; `NetworkFlows.TagExact` says exactly which ids clash.
- NetworkFlows.Impl.CreateNetworkFlow: addresses and ports of the connection are not modelled.
- DomainFlows.IsDomainCrossingAcceptable: what ports answer about domains and modes is a parameter; installing buffer managers is not modelled.
- SubCommit.SubTopology.Commit: the calls of one commit are made in the order of the list, and blocks that throw in activate are not modelled.
- Port existence checks and automatic ports in connect and disconnect.
- Leb128.SignedRoundTrip: a 64-bit number below -2^27 and not below -2^62 is decoded with a mask that C++ leaves undefined, so no value is claimed for it; 8-bit, 16-bit, floating-point and container archives are not modelled.
- Datagrams.StreamRoundTrip: a stream error other than its end is not modelled, and neither is what a payload means.
- Registry.PluginRegistry.Add: handlers that change the registry or throw while they are called, concurrent use and the association with modules are not modelled.
- Registry.PluginRegistry.List: the source's lookups make empty nodes on the way; only remove's are modelled, and none of them is ever listed.
- Expression evaluation, documentation parsing, JSON and DOT printing, object conversion, type hashing, statistics, SIMD, logging and command-line tools.
