# Verified model of the ISC message router

The system is a TCP message router and the nodes that talk through it. A node connects, announces
a three-digit id, and then exchanges 32-byte frames
(source id, MTI, TRACE, PAN, destination id). The router's listener accepts connections and queues
sockets that are ready; reader threads take frames off the sockets and queue write tasks; writer
threads send them on. Three shared structures hold it together: a session registry, two signaling
queues, and one mutex per session.

The project models that router as a step system with any number of readers and writers, the
codec shared by router and nodes, and the individual calls in imperative form, and proves what
holds in every run. The main results:

- **Routing** (`RouterRouting`): under every interleaving, a frame with a proper destination is
  only ever queued for, and sent to, a session that registered under that destination, and a node
  with that id does not turn it away. For destinations that do not parse this fails, exactly when
  the claim log says, and `RouterScenarios` gives the run.
- **Accounting** (`RouterOutcomes`): no frame is duplicated or lost once read; what is read from a
  well-behaved connection is exactly its first frames, also if it ends, and after the end nothing
  more; with one writer the frames sent from a source to a destination are a subsequence of those
  read from it. A failed send costs the session (`RouterFates`).
- **Order** (`RouterScenarios`): all runs of a system with a reader end tasks in queue order if and
  only if it has at most one writer.
- **Registry** (`Registry`, `RegistryLog`): the three views of the clients agree; the id index is
  determined by the log of claims and removals; at each id it is exact precisely as long as nobody
  claims that id while it is indexed.
- **Below the critical sections** (`FineRouter`, `FineLocks`, `FineQueues`): the router with every
  mutex and both condition variables explicit has exactly the behaviours of the step system; it
  obeys the lock order, never deadlocks, and loses no wakeup.
- **Codec** (`Text`, `RouterMessage`, `NodeMessage`): the law of `std::stoi`; router and nodes parse
  alike, printing and parsing are inverse, and a conversation has period 1000.
- **Calls** (`RouterCalls`, `RouterSolo`, `RouterOutcomes`): left alone, a reader, a writer and the
  event loop do in one turn exactly what their sequential code does.

`dafny verify dfyconfig.toml` checks everything.

## Files

| file | contents |
|---|---|
| `Options.dfy` | a value that may be absent |
| `Text.dfy` | `std::stoi` and zero-padded printing on bytes |
| `RouterMessage.dfy`, `NodeMessage.dfy` | the two `Message` classes |
| `Transport.dfy` | `recv` as a tape of outcomes, `read_async`, `reset_fd_set`, frame boundaries |
| `Registry.dfy`, `RegistryLog.dfy`, `SessionsObject.dfy` | the registry as a value, against its log, and as objects |
| `SignalingQueue.dfy` | the blocking queue, its condition variable, and its class |
| `RouterSystem.dfy` | the step system |
| `RouterCore.dfy`, `RouterLedger.dfy`, `RouterStreams.dfy`, `RouterInvariant.dfy` | its invariant, step by step |
| `RouterRouting.dfy`, `RouterOutcomes.dfy`, `RouterFates.dfy` | the theorems about all runs |
| `RouterScenarios.dfy` | runs that exist in every initial system |
| `LockOrder.dfy` | the lock order on its own: requesting, acquiring, releasing |
| `FineRouter.dfy`, `FineLocks.dfy`, `FineQueues.dfy` | the router with all mutexes and condition variables explicit, projected to the step system, the lock order and the signaling queue |
| `RouterCalls.dfy`, `RouterSolo.dfy` | the calls as methods, and their agreement with the step system |

## How the source is represented

- A session is a handle into the list of all sessions ever created, so that pointers can outlive
  their registration, as `shared_ptr`s do. An id slot may be null, because reading it with
  `operator[]` creates it.
- One step is one critical section of one thread; registry and queue mutexes are taken and released
  within a step, session mutexes are explicit.
- `FineRouter` opens the critical sections up again: each thread asks for the mutex its program
  point needs, enters when it is free, takes the step, and leaves; a consumer that finds its queue
  empty sleeps until a push picks it, or wakes for no reason. `FineRouter.RefinesSystem` and
  `FineLocks.LiftsSystem` say that this changes nothing about what the router can do.
- A connection is a *tape*: the outcomes `recv` will report on it, in order. Any run of results is
  such a tape. `send` and `accept` report what the environment chooses.
- History (what was read, routed, popped, ended) is part of the state, for stating the theorems.

Assumptions about the environment: `accept` returns a descriptor that is not open; `recv` returns
between one and the requested number of bytes in stream order, or would-block, or closed, or an
error; `select` reports a subset of the monitored sockets; `notify_one` picks any sleeper; the
effect of a critical section is one step (that nobody else is in one on the same mutex meanwhile is
`FineLocks.MutualExclusion`); the listener's copy of the accepted list is an atomic snapshot,
although the code reads it without the mutex (router/src/sessions.cpp:21-23).

Behaviour kept as it is, not as one might wish it: a failed id parse yields -1, which equals `NONE`
and is accepted as a key of the id index (`RegistryLog.NoneEntryGoesStale`,
`RouterScenarios.FramesGoAstray`); removing a superseded session erases the entry of its successor
(`RegistryLog.RemovalHidesSuccessor`); partial reads are dropped (`Transport.PartialReadExactly`
says exactly when they occur); `do_writes` does not look again once it has the mutex; id 999 is
refused. Where the class comment of `Sessions` calls the node id unique, the code lets two sessions
hold it; the model follows the code.

## Model

| member | source | states |
|---|---|---|
| `Text.StoiStopsAtNul` | router/include/message.h:32-53 | bytes behind a NUL never influence a parse, whatever they are |
| `Text.StoiShort` | router/include/message.h:30-58 | fields of up to four bytes never overflow `int`, so the uncaught `out_of_range` cannot occur; bounds on the value, a sign costing one digit |
| `Text.StoiLaw` | router/include/message.h:30-58 | every text of the form white space, optional sign, digits, no further digit denotes the number of the digits, negated by a minus, or overflows `int`; it is invalid iff it has no such form |
| `Text.PaddedRoundTrip` | node/include/message.h:83-89 | for every number that fits, zero-padded printing has the exact width and parses back to the number |
| `Text.DigitsRoundTrip` | node/include/message.h:56-60 | for every digit string, parsing and printing in the same width gives the string back |
| `RouterMessage.ExtractExactly` | router/include/message.h:26-60 | for received messages of every length, behind any stale bytes: short ones and unparseable fields give -1, an escaping exception iff the number overflows |
| `RouterMessage.DstParseIsSliceParse` | router/include/message.h:47-60 | on every frame, with any stale bytes behind it, the router's terminated parse of the destination is the parse of the three-byte slice the node makes, -1 when that fails |
| `RouterMessage.SrcParseIsSliceParse` | router/include/message.h:26-39 | the same for the id message; the id lies between -99 and 999 |
| `NodeMessage.NextMtiFits` | node/include/message.h:56-60 | the next MTI prints in four characters for every four-character MTI that parses, signed or short ones included |
| `NodeMessage.NextMtiExactly` | node/include/message.h:56-60 | the next MTI digit by digit, for every MTI of the wire; negative sums keep their sign behind the zero fill |
| `NodeMessage.ReplyExactly` | node/include/message.h:37-64 | exactly which frames a node answers, ignores or throws on; every answer is 32 bytes with addresses swapped and TRACE and PAN kept |
| `NodeMessage.ReplyIteration` | node/include/message.h:37-64 | after n replies between two nodes the MTI is (m + 10n) mod 10000, addresses are swapped iff n is odd, the rest is unchanged |
| `NodeMessage.ConversationPeriod` | node/src/node.cpp:52-57 | the opening frame recurs after n replies iff 1000 divides n |
| `NodeMessage.FirstMessageRoundTrip` | node/include/message.h:78-109 | for all ids 0 to 999 the id message and first message have lengths 3 and 32 and are read back by router and node as the same ids |
| `NodeMessage.FirstMessageExactly` | node/include/message.h:78-99 | for all ids 0 to 999 the opening frame field by field: MTI 2200, TRACE 123456, PAN sixteen ones, ids zero-padded |
| `NodeMessage.OpenedConversation` | node/include/message.h:37-99 | frame n of the conversation a node opens has MTI (2200 + 10n) mod 10000, the same TRACE and PAN, and the ids in turn |
| `NodeMessage.NodeAcceptsWhatRouterAddresses` | node/include/message.h:52-54 | if the router reads destination d, node d answers with 32 bytes (or throws on its MTI) and every other node ignores the frame |
| `Transport.ReadNExactly` | router/src/tcpserver.cpp:82-118 | the result of a read depends only on the bytes available before the next gap and the kind of gap, for every splitting into chunks |
| `Transport.ReadNConsumes` | router/src/tcpserver.cpp:82-118 | the bytes stored are the next ones of the stream, and a non-negative result counts them |
| `Transport.PartialReadExactly` | router/src/tcpserver.cpp:96-101 | a read is partial iff some but not all bytes arrived before the socket ran dry |
| `Transport.Connection.Recv` | router/src/tcpserver.cpp:88-89 | the contract of `recv`: one outcome of the tape, at most the requested bytes, stored in place; a request for zero bytes is not allowed |
| `Transport.ReadAsync` | router/src/tcpserver.cpp:82-118 | the loop terminates, never asks for zero bytes, computes the specified result, and leaves the buffer behind the received bytes unchanged |
| `Transport.SendToClient` | router/src/tcpserver.cpp:120-128 | the result is the full size iff all bytes went out, and the error code otherwise |
| `Transport.ResetFdSet` | router/src/tcpserver.cpp:129-145 | the monitored set is server plus clients, the result its maximum |
| `Transport.ReadNUntil` | router/src/tcpserver.cpp:82-118 | up to the end of the connection, the bytes a read stores are the next ones; an error means the end has been reached |
| `Transport.AlignedRead` | router/src/router.cpp:161-163 | on a stream that pauses at boundaries only, a read at a boundary takes a whole unit, or nothing, or meets the end of the connection |
| `Registry.EraseFirstContents` | router/src/sessions.cpp:80-83 | erasing the found element of a duplicate-free list removes that element and no other |
| `Registry.AcceptKeeps` | router/src/sessions.cpp:8-20 | a descriptor no session ever had is registered without the self-locking branch; the three views stay in agreement and old sessions are untouched |
| `Registry.RemoveKeeps` | router/src/sessions.cpp:62-84 | the socket leaves both views, its id leaves the index, no null slot survives, everything else is unchanged |
| `Registry.AddNodeKeeps` | router/src/sessions.cpp:24-45 | a claim keeps the views in agreement iff the session is not already indexed under another id |
| `Registry.FirstClaim` | router/src/sessions.cpp:24-45 | what a claim by a nameless session changes and leaves alone; ids from 999 on are refused |
| `RegistryLog.IndexIsItsLog` | router/src/sessions.cpp:24-76 | after any calls, an id is indexed iff its last log entry is a claim, and then to that claimant |
| `RegistryLog.RunKeepsConsistent` | router/src/sessions.cpp:8-84 | the registry invariant holds after every run of fresh accepts, claims by nameless sessions, and removals |
| `RegistryLog.OpKeepsExact` | router/src/sessions.cpp:37-44 | one call leaves the index exact at an id iff it does not claim that id while it is indexed |
| `RegistryLog.ExactIffUncontested` | router/src/sessions.cpp:24-76 | the index is exact at an id throughout a run iff no claim of that id in it is contested; other ids do not matter |
| `RegistryLog.RunExplainsNames` | router/src/sessions.cpp:24-76 | after any run of calls, a session has an id iff it made a real claim, and the session indexed under -1 has one iff it made a real claim since |
| `RegistryLog.RemovalHidesSuccessor` | router/src/sessions.cpp:71-75 | whenever two live sessions hold an id, removing the one not indexed makes the other unreachable by id |
| `RegistryLog.DuplicateIdsArise` | router/src/sessions.cpp:37-44 | that situation is reachable for any two sockets and any id |
| `RegistryLog.NoneEntryGoesStale` | router/src/sessions.cpp:32-44 | the entry under -1 outlives the naming and the removal of its session |
| `SessionsObject.Session.constructor` | router/include/session.h:17-21 | a new session has its socket and no id |
| `SessionsObject.Session.SetId` | router/include/session.h:50-52 | sets the id |
| `SessionsObject.Sessions.AcceptClient` | router/src/sessions.cpp:8-20 | the object's new state is the value model's; `stuck` iff the socket already had a session |
| `SessionsObject.Sessions.AddNode` | router/src/sessions.cpp:24-45 | the object's new state is the value model's |
| `SessionsObject.Sessions.FindSessionBySocket` | router/src/sessions.cpp:46-53 | the session the value model finds, or null |
| `SessionsObject.Sessions.FindSessionById` | router/src/sessions.cpp:54-61 | the session the value model finds, or null |
| `SessionsObject.Sessions.RemoveSession` | router/src/sessions.cpp:62-84 | the object's new state is the value model's |
| `SessionsObject.Sessions.EraseId` | router/src/sessions.cpp:71-75 | the subscript read and the erasure together remove exactly that key |
| `SignalingQueue.NoLostWakeup` | router/include/signaling_queue.h:25-58 | in every run, if a consumer sleeps then the queue is no longer than the number of notified consumers still to run; a non-empty queue with a sleeper has a notified consumer |
| `SignalingQueue.CoalescingKeepsChanges` | router/include/signaling_queue.h:25-58 | for any mix of pushes, popped plus queued equals the pushes up to immediate repetitions and is a subsequence of them |
| `SignalingQueue.CoalescedQueueHasNoRepetition` | router/src/router.cpp:105-111 | if every push may be skipped, no two neighbours in the queue are equal |
| `SignalingQueue.PlainPushesAreFifo` | router/src/router.cpp:262 | if no push may be skipped, popped plus queued is exactly what was pushed |
| `SignalingQueue.Queue.Push` | router/include/signaling_queue.h:25-41 | the new state is a push step of the machine; the item is at the back afterwards, skipped or not |
| `SignalingQueue.Queue.TryPop` | router/include/signaling_queue.h:48-58 | one turn of `pop` under the mutex: the front, or to sleep |
| `RouterCore.AcceptNeverSelfLocks` | router/src/sessions.cpp:16-18 | given the invariant, a descriptor that is not open has no session, so the relocking branch is not taken |
| `RouterCore.StepKeepsCore` | router/src/router.cpp:115-263 | every step of every thread keeps registry, mutexes and each worker's local knowledge in order |
| `RouterInvariant.StepKeepsInv` | router/src/router.cpp:74-263 | every step keeps the full invariant: core, balances, source order, stream positions |
| `RouterInvariant.Reachable` | router/src/router.cpp:20-113 | the full invariant holds in every state any run reaches |
| `RouterRouting.OnlyMutexHolderActs` | router/src/router.cpp:124-154 | a step names or removes a session only by the worker holding its mutex |
| `RouterRouting.IdentityIsWriteOnce` | router/include/session.h:50-52 | from any reachable state on, sockets are fixed and an id once set never changes |
| `RouterRouting.HandshakeIsNeverOrphaned` | router/src/router.cpp:206-214 | a reader about to register finds its session live, nameless and locked by itself, and the claim takes effect |
| `RouterRouting.RoutingSafety` | router/src/router.cpp:174-185 | in every reachable state, every task ever queued is for a socket whose only session carries the frame's destination |
| `RouterRouting.SentFramesAreWelcome` | router/src/router.cpp:230-241 | every frame with a proper destination that went out reached a session whose node does not turn it away, while any other node would |
| `RouterRouting.LookupCarriesExactly` | router/src/router.cpp:174-185 | in every reachable state, the session found for a frame carries its destination iff the destination is not -1, or that session has claimed no real id since it claimed -1 |
| `RouterRouting.RoutingExactly` | router/src/router.cpp:174-185 | every task ever queued is for a session that carries its destination iff the destination is not -1 or the session never made a real claim |
| `RouterRouting.DeliveredFrames` | node/include/message.h:50-60 | what a node does with a delivered frame, by its destination field: unparseable, the node throws, whoever it is; "-1", registered nodes ignore it; otherwise it is that node's id and only that node takes it |
| `RouterRouting.RegistryOfRun` | router/src/router.cpp:100-214 | the registry of every run is the outcome of disciplined registry calls |
| `RouterRouting.LookupIsLastClaim` | router/src/router.cpp:174-176 | in every reachable state a lookup by id answers with the last claimant unless a holder was removed since |
| `RouterRouting.LookupIsExact` | router/src/sessions.cpp:54-61 | in the running router, the index is exact at an id throughout a run iff no claim of that id in it is contested |
| `RouterRouting.RoutingCompleteness` | router/src/router.cpp:174-186 | if the destination of a frame was never claimed while indexed, the frame is dropped iff no live session carries it, and otherwise goes to the one that does |
| `RouterOutcomes.ListenerDispatches` | router/src/router.cpp:104-111 | the listener's loop adds every ready socket to the read queue, up to immediate repetitions, and changes nothing else |
| `RouterOutcomes.MonitorsAccepted` | router/src/router.cpp:80-89 | `select` may report a choice of sockets iff all of them are accepted clients |
| `RouterOutcomes.ListenerRound` | router/src/router.cpp:78-112 | one whole turn of the event loop, for every choice of ready sockets, with no, a failing or a successful accept: the new client is registered, all ready sockets are pushed up to immediate repetitions; after a failing accept nothing is |
| `RouterOutcomes.FailedSelect` | router/src/router.cpp:84-90 | a failing select leaves everything as it was |
| `RouterOutcomes.FrameConservation` | router/src/router.cpp:158-263 | in every reachable state, frames read = held by readers + unroutable + queued + held by writers + sent + failed + without session, as multisets |
| `RouterFates.FatesAreTrue` | router/src/router.cpp:241-257 | in every reachable state a failed send has cost the session its place in the registry, or its writer is at the removal; a task without a session is for a socket that has none |
| `RouterOutcomes.SourceOrder` | router/src/router.cpp:126-149 | for any number of readers, frames of a source are routed and queued in stream order, at most one being in hand |
| `RouterOutcomes.SingleWriterOrder` | router/src/router.cpp:64-72 | with one writer, tasks end in the order they were queued |
| `RouterOutcomes.DeliveredInOrder` | router/src/router.cpp:115-263 | with one writer, the k-th task to end is the k-th one queued, and the frames sent from a source to a socket are a subsequence of the frames read from that source |
| `RouterOutcomes.TwoWritersCanReorder` | router/src/router.cpp:235-241 | from every state with two idle writers and two queued tasks for one free session, the second can be sent first |
| `RouterOutcomes.FrameReconstruction` | router/src/router.cpp:136-149 | from a connection that keeps the protocol and may end anywhere, the frames taken are its first frames in order, and until it has ended the bytes left are exactly the rest, for any workers and any splitting |
| `RouterOutcomes.NothingBeforeTheId` | router/src/router.cpp:136-149 | a connection that ends before its id message is complete yields no frame and no id |
| `RouterOutcomes.EndedForGood` | router/src/router.cpp:150-155 | once a reader has met the end of a connection, or its session was removed, nothing more is read from it in any later state |
| `RouterScenarios.OneConnection` | router/src/router.cpp:74-157 | from every initial system with a reader, for every stream, there is a run in which the connection is accepted and served to its end with exactly the sequential loop's effect |
| `RouterScenarios.NodesAreNamed` | router/src/sessions.cpp:24-45 | in numbers: the id message of every node 0 to 998 names a nameless session and indexes it, that of node 999 changes nothing |
| `RouterScenarios.EveryNodeRegisters` | router/src/router.cpp:200-229 | from every initial system with a reader, each node 0 to 998 has a run after which it is registered; node 999 stays nameless |
| `RouterScenarios.TwoWritersOvertake` | router/src/router.cpp:230-241 | every initial system with a reader and two writers has a run that ends tasks out of queue order |
| `RouterScenarios.PushOrderIffOneWriter` | router/src/router.cpp:64-72 | for every initial system with a reader, all runs end tasks in queue order iff there is at most one writer |
| `RouterScenarios.FramesGoAstray` | router/src/router.cpp:171-214 | every initial system with a reader and a writer has runs that send a frame with an unparseable destination to a registered node, which is not its destination and throws on it |
| `RouterScenarios.AstrayMessages` | router/include/message.h:26-60 | "abc", "005" and a frame ending in "xyz" are such messages |
| `RouterOutcomes.NobodyIsStuck` | router/src/router.cpp:115-257 | in every reachable state a worker can go on, or waits for work, or waits for a mutex whose holder can go on |
| `RouterOutcomes.ListenerIsNeverStuck` | router/src/router.cpp:92-100 | the listener never waits for its own mutex in any run |
| `LockOrder.WaitsForIsAcyclic` | router/src/sessions.cpp:9-64 | threads that nest mutexes as the lock order says never wait in a circle |
| `LockOrder.SomebodyCanGoOn` | router/include/signaling_queue.h:28-50 | the chain of waiting that starts at a blocked thread ends, after at most two links, with a thread that can go on |
| `LockOrder.SelfLockIsACycle` | router/src/sessions.cpp:16-18 | the relocking branch, if taken, would make the listener wait for itself |
| `FineRouter.RefinesSystem` | router/src/router.cpp:50-157 | every run of the fine-grained router is, without its mutex actions, a run of the step system |
| `FineLocks.LiftsSystem` | router/src/router.cpp:50-157 | and every run of the step system is such a run of the fine-grained router |
| `FineLocks.StepIsGuarded` | router/src/sessions.cpp:8-84 | whatever a step changes of the registry, of either queue or of who holds a session, it changes under the mutex the thread asked for |
| `FineLocks.StepReadsGuarded` | router/src/sessions.cpp:46-61 | what a step looks at of the registry's collections and of the queues it looks at under that mutex: exchange everything else shared and it does the same; the listener's copy of the accepted list excepted |
| `FineLocks.LookupsShare` | router/src/sessions.cpp:46-61 | two steps on one mutex keep each other out unless both are lookups |
| `FineLocks.RequestsAreDisciplined` | router/src/router.cpp:92-262 | what each program point of every worker and of the listener asks for is what the lock order allows |
| `FineLocks.NeverRelocks` | router/src/sessions.cpp:16-18 | the listener never asks for the registry while it holds it |
| `FineLocks.ObeysLockOrder` | router/src/router.cpp:115-257 | the mutex actions of every run of the fine-grained router are a run of the lock order |
| `FineLocks.RouterWaitsForIsAcyclic` | router/src/router.cpp:115-257 | in every reachable state of the fine-grained router the waits-for relation has no cycle |
| `FineLocks.MutualExclusion` | router/src/sessions.cpp:9-64 | in every reachable state no two threads hold a mutex in conflicting modes |
| `FineLocks.NoDeadlock` | router/src/router.cpp:20-113 | in every reachable state every thread, listener included, can move, or sleeps on a condition variable, or waits along a chain that ends with a thread that can move |
| `FineQueues.ReadQueueIsSound` | router/src/router.cpp:50-62 | in every run the read queue with its readers is a run of the signaling queue: no wakeup is lost, what the listener handed over is popped or queued in order up to immediate repetitions, and the queue has no repetition |
| `FineQueues.WriteQueueIsSound` | router/src/router.cpp:64-72 | in every run the write queue with its writers is a run of the signaling queue: no wakeup is lost, and popped plus queued is exactly what was forwarded |
| `RouterCalls.TurnConsumes` | router/src/router.cpp:137-149 | a turn of the loop that reports bytes has taken at least one off the stream |
| `RouterCalls.Drain` | router/src/router.cpp:136-155 | the loop terminates on every tape and ends quietly or in an error |
| `RouterCalls.DrainOutcome` | router/src/router.cpp:136-155 | after an error the socket is in neither view; after a quiet end its session is still there; bytes leave at the front, tasks arrive at the back |
| `RouterCalls.ParseId` | router/src/router.cpp:210-213 | terminating and parsing the buffer gives the id of the three bytes received |
| `RouterCalls.ParseDestination` | router/src/router.cpp:171-174 | terminating and parsing the buffer gives the destination of the frame and keeps the frame |
| `RouterCalls.Router.Forward` | router/src/router.cpp:258-263 | appends one task for the session's socket |
| `RouterCalls.Router.HandleHandshake` | router/src/router.cpp:200-229 | registry, stream and result are as specified |
| `RouterCalls.Router.Dispatch` | router/src/router.cpp:171-186 | a known destination adds one task for its socket, an unknown one changes nothing |
| `RouterCalls.Router.ProcessMessage` | router/src/router.cpp:158-199 | stream, write queue and result are as specified |
| `RouterCalls.Router.DoReads` | router/src/router.cpp:115-157 | the whole call has the specified effect, including the removal after an error |
| `RouterCalls.Router.DoWrites` | router/src/router.cpp:230-257 | the fate of a task and the registry afterwards, for every result of `send` and for an absent session |
| `RouterSolo.LoopRefinesDrain` | router/src/router.cpp:136-155 | a worker left alone takes the step system through exactly the effect of the sequential loop |
| `RouterSolo.ReaderRefinesDoReads` | router/src/router.cpp:50-157 | a reader left alone goes from pop to pop with exactly the effect of the sequential call, session present or absent |
| `RouterSolo.WriterRefinesDoWrites` | router/src/router.cpp:64-257 | a writer left alone goes from pop to pop, and the whole new state is what the sequential call makes of it: complete send, failed send, no session |

## Left out

- Socket creation, bind, listen, connect, Winsock start-up and non-blocking mode: foreign calls of which only the contracts of `accept`, `recv`, `send` and `select` are used.
- The `FD_SETSIZE` limit and the layout of `fd_set`: platform detail.
- Data races below critical sections, such as the unlocked read of the accepted list: a step model cannot justify them, they are assumptions.
- The node's reconnection loop, its send retries and its receive loop (node/src/node.cpp:33-89): easy members; only the reply step is modelled.
- Thread creation and the split into readers and writers (router/src/router.cpp:20-37): the model takes any numbers of both.
- Logging and command-line handling: no properties of interest.
- Fairness and throughput: the code gives no scheduling guarantee to rest them on.
- RouterCalls.Router.DoReads: describes the call run to completion without interference, which `RouterSolo.ReaderRefinesDoReads` ties to the step system; what other threads may do in between, and the second lookup under the mutex, are in the step system.
- RouterCalls.Router.DoWrites: describes the call run to completion without interference, which `RouterSolo.WriterRefinesDoWrites` ties to the step system; the missing second lookup is in the step system.
- SignalingQueue.Queue.TryPop: one turn under the mutex; sleeping and waking between turns are steps of the queue's state machine, and actions in `FineRouter`, not of the method.
- RouterOutcomes.FrameReconstruction: speaks of connections that pause between messages only; a pause inside a message tears it, exactly as `Transport.PartialReadExactly` says.
- RouterOutcomes.ListenerDispatches: the dispatch loop without pops in between, the whole turn being `RouterOutcomes.ListenerRound`; with any pops by readers in between it is `FineQueues.ReadQueueIsSound`.
- RouterRouting.RoutingSafety: makes no promise for frames whose destination parses to -1, for which it is false (`RouterScenarios.FramesGoAstray`); exactly when is said by `RouterRouting.LookupCarriesExactly` and `RouterRouting.RoutingExactly`.
- RouterRouting.SentFramesAreWelcome: speaks of proper destinations only; all delivered frames are in `RouterRouting.DeliveredFrames`.
- RouterOutcomes.TwoWritersCanReorder: starts from a state with two queued tasks; that every initial system with two writers reaches one is `RouterScenarios.TwoWritersOvertake`.
