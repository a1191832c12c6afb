# Verified model of the netstack engine and its support code

This project models, in Dafny, the parts of the network stack in which state is shared: the in-memory
socket layer of `netstack.process`, the message protocol through which client tasks reach it, the
condition variable of the OS abstraction layer, the single-producer single-consumer descriptor ring of
the driver interface, and the compare-and-swap loops and word tricks the rump kernel links against.
`dafny verify dfyconfig.toml` checks all of it.

## How it is built

**Socket layer.** `SocketSpec` is the sequential specification: a map from descriptors to sockets whose
backlog and receive queue are plain sequences, and one function per request. `DescriptorTable` is the
table as the engine keeps it (128 slots updated in place, backlog rings with head, tail and count,
4096-byte receive buffers that are compacted on send); each dispatcher is a method proved to do exactly
what the specification does, for every request and every table, so every index is in range and the
representation invariant holds for ever. `Outcomes` says of every request, without reference to how the
specification computes it, which answer it gets exactly when and how the table changes. `EngineLoop` adds the opcode switch and the drain loop, `Client`
the copying halves of send and recv. What the layer promises is proved about runs of the specification:
`Pairing` (peer links and backlogs), `Stream` (bytes end to end, close and reuse), `Ledger` (descriptors,
backlog order, held ports), `Listeners` (when a port has one listener).

**Message protocol.** `Rpc` is a step system of any number of client tasks and one engine, interleaved at
the level of FindPort/PutMsg/WaitPort/GetMsg/ReplyMsg, with messages that are filled and answered in place
and reply ports handed out by the slot table of `ReplySlots`. `RpcSafety` has the invariants;
`Linearizability` and `Progress` what follows for every interleaving: the table seen by concurrent clients
is a sequential one, and a request is answered exactly when the engine will still look at its port, within
a number of engine steps given by the queue before it. `SystemStream` puts the two halves together: the
byte-stream theorems hold of the questions and answers exchanged with concurrent callers. `Service` is about
stopping and sleeping (the engine stops when, and only when, it has been asked to), `Calls` about reply ports
and calls from beginning to end. `LateRequest` is the run that misses the window.

**Condition variable.** `WaiterRing` is the ring of waiters with its order-preserving removal, refined to a
sequence. `CvProtocol` is wait, timed wait, signal and broadcast as a step system over any number of such
sequences, mutexes and tasks, with a token-counting invariant over all of them, since a task has one signal
bit for all its condition variables. `CvCalls` says what a whole signal, broadcast or wait does
whatever others do meanwhile, `CvCapacity` when a ring overflows, `TimedWait` what the race does that breaks
the invariant.

**Descriptor ring.** `SpscRing` has the ring and the arithmetic of 64-bit sequence numbers that wrap,
`SpscProtocol` producer and consumer interleaved at single loads and stores.

**Words.** `Atomics` has the retry loops with any number of threads on one 32-bit word, `AtomicLaws` what the
operations compute (as arithmetic modulo 2^32 and digit by digit, on the binary digits of `Bits`) and what many
threads compute together. `Words` has the byte swaps and the population count on bit vectors.

## Facts of the code that shape the theorems

- `close` does not take a descriptor out of a backlog it waits in. The pairing invariant therefore holds
  for *tame* runs, in which no descriptor is closed while it waits for an accept, and only for those:
  `Pairing.PairingStep` and `Pairing.PairingExact` are equivalences, and `Pairing.SelfPairWitness` is a run
  that ends with a descriptor connected to itself.
- The engine tests its shutdown flag after it has found its port empty. A request put in between is never
  answered (`Progress.StrandedForEver`), which can happen to any task and any request
  (`LateRequest.LateRequestStranded`). `Progress.AnsweredFromPut` proves that this is the only way to stay
  unanswered for requests put while the engine's port exists, in every interleaving: the state of the engine
  at the PutMsg decides.
- `bind` looks at listeners and connections only, and `listen` does not look again. A port has at most one
  listener throughout a run exactly when no socket is told to listen on a port that has one
  (`Listeners.OneListenerExact`); `Listeners.TwoListenersWitness` is a run with two.
- A timed wait does not look at its signal bit again before it withdraws its entry. A signaller that dequeues
  it in between leaves a token behind. `CvProtocol.PunctualExact` proves that the token invariant holds
  throughout a run exactly when no timed wait is overtaken like this, so in particular for every run of wait,
  signal and broadcast (`CvProtocol.UntimedPunctual`); `TimedWait.SpuriousWakeup` is a run in which the late
  signal wakes the task from its next wait.
- The size in bytes of a descriptor ring is computed in 32 bits, so from 2^30 slots up `netdev_ring_init`
  asks for no memory and, if that request succeeds, sets up a ring without slots; below that it does what it
  promises (`SpscRing.NetDevRing.Init`).

Where comments and code differ the code is followed: the header comments that know only ping and shutdown
(`src/phase2_engine/engine_main.c:8-11`, `include/netstack/netstack_client.h:49`) are older than the switch
that routes all ten opcodes, and the receive buffer is compacted on send, not on read
(`src/phase2_engine/fdtable.c:52-53`).

## Model

| member | source | states |
|---|---|---|
| `SocketSpec.FreeFrom` | src/phase2_engine/fdtable.c:63-74 | the descriptor given out is the lowest free one, and -1 means that none is free |
| `SocketSpec.ListenerFrom` | src/phase2_engine/fdtable.c:83-93 | the listener found is the lowest descriptor listening on the port, and -1 means that there is none |
| `SocketSpec.StepWellFormed` | src/phase2_engine/fdtable.c:123-327 | every request keeps descriptors in range, backlogs at most 4, receive queues at most 4096 bytes, and peers and waiting clients in range |
| `SocketSpec.ErrorChangesNothing` | src/phase2_engine/fdtable.c:123-327 | no request is answered with a positive code, and one answered with an error leaves the table as it was |
| `Outcomes.SocketExact` | src/phase2_engine/fdtable.c:123-138 | EMFILE exactly when descriptors 3 to 127 are all open; otherwise the lowest free one becomes an unbound socket with the attributes asked for, and nothing else changes |
| `Outcomes.CloseExact` | src/phase2_engine/fdtable.c:140-157 | EBADF exactly for a descriptor that is not open; otherwise it goes, and of the others only the peer of a connection changes, losing its link |
| `Outcomes.BindExact` | src/phase2_engine/fdtable.c:159-172 | EBADF, EINVAL and EADDRINUSE each exactly in its case, and otherwise only the local port changes |
| `Outcomes.ListenExact` | src/phase2_engine/fdtable.c:174-188 | EBADF and EINVAL each exactly in its case, and otherwise the socket becomes a listener with nobody waiting |
| `Outcomes.ConnectExact` | src/phase2_engine/fdtable.c:190-215 | EBADF, EINVAL, ECONNREFUSED (nobody listens) and EAGAIN (four wait at the lowest listener) each exactly in its case, and otherwise the socket waits last there as a connection without a peer |
| `Outcomes.AcceptExact` | src/phase2_engine/fdtable.c:217-259 | EBADF, EINVAL, EAGAIN (nobody waits) and EMFILE each exactly in its case, and otherwise the lowest free descriptor and the listener's port are reported |
| `Outcomes.AcceptTable` | src/phase2_engine/fdtable.c:231-254 | the table after an accept, also when the oldest client has been closed or reused |
| `Outcomes.SendExact` | src/phase2_engine/fdtable.c:261-292 | EBADF, ENOTCONN, EMSGSIZE and EAGAIN (4096 bytes queued) each exactly in its case, and otherwise as many bytes as fit are appended to the peer's queue |
| `Outcomes.RecvExact` | src/phase2_engine/fdtable.c:294-327 | EBADF, ENOTCONN and EAGAIN each exactly in its case, and otherwise the clamped number of oldest bytes is delivered, none at end of file |
| `Outcomes.OthersExact` | src/phase2_engine/engine_main.c:35-78 | ping echoes its number and adds one to its payload modulo 2^32, shutdown is acknowledged, other opcodes get ENOSYS; the table stays |
| `DescriptorTable.PushAppends` | src/phase2_engine/fdtable.c:211-213 | the tail write of a connect appends to the backlog queue and keeps tail = (head + count) mod 4 |
| `DescriptorTable.PopDropsOldest` | src/phase2_engine/fdtable.c:231-233 | the head read of an accept takes exactly the oldest waiting client |
| `DescriptorTable.UnpopRestores` | src/phase2_engine/fdtable.c:239-241 | putting the client back after a failed allocation restores the ring exactly, indices and slots included |
| `DescriptorTable.Compact` | src/phase2_engine/fdtable.c:111-119 | compaction keeps the live bytes and turns all consumed space into room |
| `DescriptorTable.Append` | src/phase2_engine/fdtable.c:286-288 | the copy of a send appends to the live bytes within the buffer |
| `DescriptorTable.Consume` | src/phase2_engine/fdtable.c:320-323 | a receive drops exactly the bytes taken, also when the indices are reset |
| `DescriptorTable.AbsWellFormed` | src/phase2_engine/fdtable.c:35-59 | valid slots represent a well-formed table of sockets |
| `DescriptorTable.FdTable.constructor` | src/phase2_engine/fdtable.c:59-59 | the zeroed table represents no open descriptor |
| `DescriptorTable.FdTable.FdValid` | src/phase2_engine/fdtable.c:76-81 | the validity test holds exactly of the open descriptors |
| `DescriptorTable.FdTable.AllocFd` | src/phase2_engine/fdtable.c:63-74 | returns the lowest free descriptor, clears that slot and no other, and opens nothing yet |
| `DescriptorTable.FdTable.FindListener` | src/phase2_engine/fdtable.c:83-93 | the loop finds the specification's listener |
| `DescriptorTable.FdTable.PortInUse` | src/phase2_engine/fdtable.c:95-106 | true exactly when some listener or connection has the port as its local port |
| `DescriptorTable.FdTable.RxCompact` | src/phase2_engine/fdtable.c:111-119 | compaction in place changes one slot and not what the table represents |
| `DescriptorTable.FdTable.DispatchSocket` | src/phase2_engine/fdtable.c:123-138 | refines the specification of socket, table and answered request |
| `DescriptorTable.FdTable.DispatchClose` | src/phase2_engine/fdtable.c:140-157 | refines the specification of close, including the cut peer link |
| `DescriptorTable.FdTable.DispatchBind` | src/phase2_engine/fdtable.c:159-172 | refines the specification of bind |
| `DescriptorTable.FdTable.DispatchListen` | src/phase2_engine/fdtable.c:174-188 | refines the specification of listen |
| `DescriptorTable.FdTable.DispatchConnect` | src/phase2_engine/fdtable.c:190-215 | refines the specification of connect: the client waits last in the backlog of the listener found |
| `DescriptorTable.FdTable.PopPending` | src/phase2_engine/fdtable.c:231-233 | takes the oldest client off the listener's queue and changes nothing else |
| `DescriptorTable.FdTable.PutBack` | src/phase2_engine/fdtable.c:236-241 | restores the whole table exactly as it was before the client was taken |
| `DescriptorTable.FdTable.Pair` | src/phase2_engine/fdtable.c:246-254 | links the new server end and the client with each other |
| `DescriptorTable.FdTable.AcceptPending` | src/phase2_engine/fdtable.c:231-254 | pairs the oldest client with the lowest free descriptor or, with none free, changes nothing |
| `DescriptorTable.FdTable.DispatchAccept` | src/phase2_engine/fdtable.c:217-259 | refines the specification of accept, including EAGAIN and EMFILE |
| `DescriptorTable.FdTable.WriteRx` | src/phase2_engine/fdtable.c:286-288 | appends bytes to one socket's queue |
| `DescriptorTable.FdTable.DispatchSend` | src/phase2_engine/fdtable.c:261-292 | refines the specification of send: a bounded queue of 4096 bytes loses no capacity to consumed space |
| `DescriptorTable.FdTable.ReadRx` | src/phase2_engine/fdtable.c:320-323 | returns and removes the oldest bytes of one socket's queue |
| `DescriptorTable.FdTable.DispatchRecv` | src/phase2_engine/fdtable.c:294-327 | refines the specification of recv, with end of file and EAGAIN told apart by the peer |
| `Runs.RunWellFormed` | src/phase2_engine/fdtable.c:123-327 | every table of every run, tame or not, is well formed |
| `Pairing.AcceptLinks` | src/phase2_engine/fdtable.c:246-258 | under the invariant a successful accept links the oldest client and a new descriptor, both with empty queues, and touches no other socket but the listener |
| `Pairing.PairingStep` | src/phase2_engine/fdtable.c:123-327 | a request keeps the pairing invariant if and only if it does not close a descriptor that waits in a backlog |
| `Pairing.PairingRun` | src/phase2_engine/fdtable.c:140-259 | tame runs keep the invariant: links symmetric, never to oneself, between connections; each waiting client waits once, unlinked and with an empty queue |
| `Pairing.PairingExact` | src/phase2_engine/fdtable.c:140-259 | a run from start-up satisfies the invariant throughout if and only if it is tame |
| `Pairing.WildCloseBreaks` | src/phase2_engine/fdtable.c:140-157 | closing a waiting descriptor always breaks the invariant |
| `Pairing.SelfPairWitness` | src/phase2_engine/fdtable.c:140-259 | socket, bind, listen, socket, connect, close, accept ends with a descriptor paired with itself |
| `Stream.StreamStep` | src/phase2_engine/fdtable.c:123-327 | until one end is closed, any request changes its queue only by what the other end sends and it receives |
| `Stream.StreamRun` | src/phase2_engine/fdtable.c:217-327 | over any tame run, queued bytes plus accepted bytes equal received bytes followed by those still queued |
| `Stream.AcceptOpensStream` | src/phase2_engine/fdtable.c:246-258 | an accept starts two empty streams, one in each direction |
| `Stream.EndToEnd` | src/phase2_engine/fdtable.c:217-327 | in every tame run from start-up, for a pair formed by accept, the bytes accepted at one end since then are the bytes received at the other followed by its queue, in both directions |
| `Stream.OrphanAtEof` | src/phase2_engine/fdtable.c:303-316 | an end whose peer is gone drains its queue, then always gets OK with length 0, and can send nothing |
| `Stream.CloseAndReuse` | src/phase2_engine/fdtable.c:140-157 | after one end closes, the other gets exactly the queued bytes and then end of file, whatever the freed descriptor is reused for |
| `Ledger.StepKeys` | src/phase2_engine/fdtable.c:123-259 | which descriptors a request opens or closes |
| `Ledger.FullExactly` | src/phase2_engine/fdtable.c:63-74 | at most 125 descriptors are open, and allocation fails if and only if 125 are |
| `Ledger.AllocationExact` | src/phase2_engine/fdtable.c:123-138 | socket and accept answer EMFILE exactly when 125 descriptors are open and otherwise give out the lowest free one |
| `Ledger.DescriptorConservation` | src/phase2_engine/fdtable.c:63-157 | at every point of every run the open descriptors number the successful sockets and accepts minus the successful closes |
| `Ledger.FifoStep` | src/phase2_engine/fdtable.c:190-259 | a request adds to a backlog only at its end and takes only from its front |
| `Ledger.BacklogFifo` | src/phase2_engine/fdtable.c:174-259 | over every run a listener hands out clients in the order in which their connects succeeded |
| `Ledger.HolderKeeps` | src/phase2_engine/fdtable.c:95-106 | a listener or connection keeps its port under every request but its own close |
| `Ledger.PortStep` | src/phase2_engine/fdtable.c:95-157 | a port in use stays in use under a request if and only if the request does not close its last holder |
| `Ledger.PortRun` | src/phase2_engine/fdtable.c:95-172 | a port stays in use over any run that does not close its last holder |
| `Ledger.AcceptInherits` | src/phase2_engine/fdtable.c:246-258 | an accepted connection has the listener's domain, type, protocol and port, and so keeps the port held |
| `Ledger.PortHold` | src/phase2_engine/fdtable.c:159-188 | from a successful listen until the last holder of the port closes, every bind of it by an unbound socket gets EADDRINUSE |
| `Listeners.ListenersKept` | src/phase2_engine/fdtable.c:174-188 | only a successful listen makes a listener, and no request changes the port of one |
| `Listeners.OneListenerStep` | src/phase2_engine/fdtable.c:174-188 | from a table with at most one listener per port, a request keeps it so if and only if it is not a listen by a bound socket whose port has a listener |
| `Listeners.OneListenerExact` | src/phase2_engine/fdtable.c:95-188 | throughout a run from start-up every port has at most one listener if and only if no request is such a listen |
| `Listeners.ConnectReachesListener` | src/phase2_engine/fdtable.c:190-215 | with one listener per port, a successful connect joins the backlog of whatever listens on the port |
| `Listeners.TwoListenersWitness` | src/phase2_engine/fdtable.c:95-106 | on every port but 0, a run from start-up ends with two listeners, and its connect goes to the lower one |
| `EngineLoop.Engine.DispatchRequest` | src/phase2_engine/engine_main.c:35-78 | the opcode switch does what the specification does, and only a shutdown request sets the shutdown flag |
| `EngineLoop.Engine.ServeNext` | src/phase2_engine/engine_main.c:115-118 | one turn of the drain loop answers the oldest message in place and returns it |
| `EngineLoop.Engine.Drain` | src/phase2_engine/engine_main.c:113-119 | draining serves all messages in port order as a sequential run, returns each exactly once and in order, and asks for shutdown if and only if one of them did |
| `Client.Client.PutAndWait` | src/phase3_bsdsocket/socket_ipc.c:124-126 | a request is answered in place, in the table left by all those queued before it |
| `Client.Client.IpcCall` | src/phase3_bsdsocket/socket_ipc.c:112-128 | fails with -1 and without effect exactly when the engine's port is missing, or the caller owns no slot and none can be had |
| `Client.CopyIn` | src/phase3_bsdsocket/socket_ipc.c:254-257 | the request carries the caller's bytes |
| `Client.CopyOut` | src/phase3_bsdsocket/socket_ipc.c:274-277 | the caller's buffer gets the received bytes at its front and keeps the rest |
| `Client.SendAnswered` | src/phase2_engine/fdtable.c:261-292 | a send takes bytes up to the full 4096 or is refused with EBADF, ENOTCONN or EAGAIN, each in exactly its own case |
| `Client.RecvAnswered` | src/phase2_engine/fdtable.c:294-327 | a recv delivers a prefix of the queue, all of it unless limited by the caller or by 1024 bytes, and leaves the rest |
| `Client.Client.Send` | src/phase3_bsdsocket/socket_ipc.c:246-261 | the value returned says exactly which prefix of the caller's buffer was appended to the peer's queue; lengths outside 0..1024 are refused before anything is sent |
| `Client.Client.Fetch` | src/phase3_bsdsocket/socket_ipc.c:268-273 | the round trip of a recv leaves in the payload exactly the bytes taken off the queue |
| `Client.Client.Recv` | src/phase3_bsdsocket/socket_ipc.c:263-279 | the value returned says exactly which bytes were taken off the queue and, if there is a buffer, written to its front |
| `Client.SendThenRecv` | src/phase2_engine/fdtable.c:261-327 | bytes sent and then received arrive unchanged behind those already queued, and no other socket changes |
| `ReplySlots.EnsureExclusive` | src/phase3_bsdsocket/socket_ipc.c:69-100 | a reply port belongs to one task, slots never change hands, and a task that has a port gets the same one for ever |
| `ReplySlots.EnsureExact` | src/phase3_bsdsocket/socket_ipc.c:69-100 | a task gets a port exactly when it owns a slot, or allocation succeeds and some slot is unused; a new port goes into the first unused slot |
| `ReplySlots.SlotOwnerUnique` | src/phase3_bsdsocket/socket_ipc.c:58-67 | no two tasks share a reply port |
| `ReplySlots.ReplyTable.EnsureReplyPort` | src/phase3_bsdsocket/socket_ipc.c:69-100 | the two loops find or fill the slot the specification says, or return none |
| `RpcSafety.OwnReply` | src/phase3_bsdsocket/socket_ipc.c:124-127 | the message a caller takes off its reply port is its own, answered |
| `RpcSafety.ReplyPortEmpty` | src/phase2_engine/engine_main.c:115-118 | a reply always finds its port existing and empty |
| `RpcSafety.PlacedStep` | src/phase3_bsdsocket/socket_ipc.c:112-128 | every step keeps each message in exactly one place, known to its sender |
| `Linearizability.InvStep` | src/phase2_engine/engine_main.c:110-120 | every step of a client or the engine keeps placement, answers and order |
| `Linearizability.RunInv` | src/phase2_engine/engine_main.c:82-127 | the protocol invariant holds in every state of every interleaving |
| `Linearizability.ServedInPortOrder` | src/phase2_engine/engine_main.c:110-120 | the table and all answers are those of a sequential run of the requests in the order of their PutMsgs |
| `Linearizability.ExactlyOnceInOrder` | src/phase3_bsdsocket/socket_ipc.c:112-128 | a task's requests in that run are its completed calls in program order with the answers it got, each once, plus at most one answer on its way |
| `Linearizability.RealTimeOrder` | src/phase3_bsdsocket/socket_ipc.c:112-128 | each call takes effect between its beginning and its return, and calls that do not overlap take effect in their order |
| `Linearizability.NoLostWakeup` | src/phase2_engine/engine_main.c:110-120 | whenever the engine is at Wait with messages in its port, its signal is pending |
| `Linearizability.ShutdownDrains` | src/phase2_engine/engine_main.c:103-127 | when the engine has stopped, exactly the requests put before its last empty GetMsg have been dispatched, in order |
| `Linearizability.ShutdownReplies` | src/phase2_engine/engine_main.c:103-127 | and each of them has been replied to: a caller still waiting has its answer on its reply port or put its request later |
| `Service.FlagExact` | src/phase2_engine/engine_main.c:43-50 | in every run the shutdown flag is set exactly when a shutdown request has been dispatched, and the engine has not stopped otherwise |
| `Service.ServesForEver` | src/phase2_engine/engine_main.c:110-120 | while nobody asks for shutdown the engine does not stop, and every request put is guaranteed its answer |
| `Service.StopsWhenAsked` | src/phase2_engine/engine_main.c:110-127 | once a shutdown request has been dispatched, the engine left to itself stops |
| `Service.NoBusyLoop` | src/phase2_engine/engine_main.c:111-115 | the engine comes out of Wait at most once per request put |
| `Calls.PortsSuffice` | src/phase3_bsdsocket/socket_ipc.c:58-100 | with at most 16 tasks, in every run, a call whose port allocation succeeds gets its reply port |
| `Calls.CallCompletes` | src/phase3_bsdsocket/socket_ipc.c:112-128 | with at most 16 tasks and the engine serving, an idle task can make any request and return from it with its answer, in every reachable state |
| `Calls.BeginsCall` | src/phase3_bsdsocket/socket_ipc.c:112-128 | an idle task can begin a call, whose time of beginning is that step |
| `Calls.ReturnsFromCall` | src/phase3_bsdsocket/socket_ipc.c:124-127 | an answered call returns with the answer in its message, at that step |
| `Calls.LogsTime` | src/phase2_engine/engine_main.c:115-118 | a dispatch is logged at the step at which it happens |
| `Calls.TimesAreSteps` | src/phase3_bsdsocket/socket_ipc.c:112-128 | the times compared by the real-time order are numbers of steps |
| `SystemStream.CallIsAtomic` | src/phase3_bsdsocket/socket_ipc.c:112-128 | every completed call of every concurrent client got the answer of one step of the sequential table at its place in the log |
| `SystemStream.ConcurrentSend` | src/phase3_bsdsocket/socket_ipc.c:246-261 | a completed send of a concurrent client reports exactly the prefix of its bytes that was appended to the peer's queue |
| `SystemStream.ConcurrentRecv` | src/phase3_bsdsocket/socket_ipc.c:263-279 | a completed recv of a concurrent client carries exactly the bytes that were taken off its queue |
| `SystemStream.ConcurrentEndToEnd` | src/phase2_engine/fdtable.c:217-327 | in every interleaving with a tame log, the bytes callers were told were accepted at one end of an accepted connection are the bytes callers received at the other followed by its queue, in both directions |
| `SystemStream.ConcurrentCloseAndReuse` | src/phase2_engine/fdtable.c:140-157 | in every such interleaving, after one end is closed callers get from the other exactly its queued bytes and then end of file |
| `Progress.EngineStep` | src/phase2_engine/engine_main.c:110-120 | while a request is unanswered and the engine will look at its port again, the engine is never stuck and each of its steps brings the answer nearer |
| `Progress.AnyStep` | src/phase2_engine/engine_main.c:110-120 | whatever is done next, a request the engine will still see is answered or stays so, no farther from its answer, and nearer if the engine moved |
| `Progress.EveryContinuation` | src/phase2_engine/engine_main.c:110-120 | the same over every continuation: a bound on the engine steps to the answer that no client can raise |
| `Progress.AnsweredExactly` | src/phase2_engine/engine_main.c:110-127 | a put request without an answer gets it in every continuation with as many engine steps as its rank if and only if the engine will look at its port again; otherwise nothing anybody does brings it |
| `Progress.AnsweredFromPut` | src/phase3_bsdsocket/socket_ipc.c:124-126 | a request is guaranteed its answer, within 3 engine steps for itself and each message before it and at most 2 more, if and only if it is not put between the engine's last empty GetMsg and its look at the shutdown flag |
| `LateRequest.LateRequestStranded` | src/phase2_engine/engine_main.c:110-120 | for any two tasks and any request, a run puts the request in that window and strands it |
| `Progress.StrandedForEver` | src/phase2_engine/engine_main.c:110-127 | a request left in the port after the last empty GetMsg stays unanswered in every continuation |
| `WaiterRing.SlotIsModular` | src/phase1_osal/osal_lock.c:120-129 | stepping an index modulo 32 forwards or backwards is stepping in the queue |
| `WaiterRing.RemoveAt` | src/phase1_osal/osal_lock.c:170-191 | dropping the first entry of a waiter keeps the order of all others |
| `WaiterRing.CvRing.Push` | src/phase1_osal/osal_lock.c:120-129 | appends a waiter and keeps head = (tail + count) mod 32, or reports overflow exactly when 32 wait |
| `WaiterRing.CvRing.Pop` | src/phase1_osal/osal_lock.c:201-204 | removes and returns the oldest waiter |
| `WaiterRing.CvRing.PopAll` | src/phase1_osal/osal_lock.c:212-223 | broadcast empties the ring and wakes the waiters in queue order |
| `WaiterRing.CvRing.CopyDown` | src/phase1_osal/osal_lock.c:180-184 | one turn of the compaction loop moves one entry one place down |
| `WaiterRing.CvRing.ShiftDown` | src/phase1_osal/osal_lock.c:180-184 | the compaction loop moves every entry behind the gap one place down |
| `WaiterRing.CvRing.DropLast` | src/phase1_osal/osal_lock.c:185-186 | the head step gives up the last place |
| `WaiterRing.CvRing.CloseGap` | src/phase1_osal/osal_lock.c:180-186 | compaction removes exactly the entry at the given place, also in a full or wrapped ring |
| `WaiterRing.CvRing.Remove` | src/phase1_osal/osal_lock.c:170-191 | a timeout deletes exactly the first entry of the calling task, or nothing if it is gone |
| `CvProtocol.InvStep` | src/phase1_osal/osal_lock.c:110-223 | a step keeps the token, balance and lock invariants if and only if it is not a timed wait that finds its entry already dequeued |
| `CvProtocol.RunInv` | src/phase1_osal/osal_lock.c:110-223 | they hold in every state of every run without such a step, with any number of tasks, condition variables and mutexes |
| `CvProtocol.PunctualExact` | src/phase1_osal/osal_lock.c:136-195 | a run has the invariants throughout if and only if none of its timed waits is overtaken |
| `CvProtocol.UntimedPunctual` | src/phase1_osal/osal_lock.c:110-134 | in particular every run that uses only wait, signal and broadcast has them |
| `CvProtocol.OvertakenLeavesToken` | src/phase1_osal/osal_lock.c:163-191 | an overtaken timed wait leaves exactly one signal under way to a task that no longer waits |
| `TimedWait.LeftoverAtNextWait` | src/phase1_osal/osal_lock.c:116-118 | the next wait of the task starts without it if and only if that signal has been sent by the time the wait clears its bit |
| `TimedWait.SpuriousWakeup` | src/phase1_osal/osal_lock.c:163-191 | with any two tasks, at any condition variable, a run in which it has not wakes the task while it is still queued |
| `CvProtocol.ExactlyOnceWakeup` | src/phase1_osal/osal_lock.c:197-223 | a task between enqueue and wake has exactly one of a ring entry, a signal under way and a pending bit, over all condition variables, every other task none; each condition variable dequeues in order those that did not withdraw, and each dequeueing wakes once; in every run without an overtaken timed wait |
| `CvProtocol.NoCrosstalk` | src/phase1_osal/osal_lock.c:114-128 | although condition variables share a task's signal bit, a task is queued at and signalled from only the one it waits on, and the bit is never left over for another |
| `CvProtocol.NoLostWakeup` | src/phase1_osal/osal_lock.c:131-133 | a sleeper that is neither queued at its condition variable nor about to be signalled can run |
| `CvProtocol.SignalStep` | src/phase1_osal/osal_lock.c:205-206 | a signal sent after the guard is dropped still finds its target waiting on that condition variable with its bit clear, so no two merge |
| `CvProtocol.ClearIsQuiet` | src/phase1_osal/osal_lock.c:116-118 | the bit cleared at the start of a wait is never a wakeup that is still owed |
| `CvProtocol.GuardExclusive` | src/phase1_osal/osal_lock.c:120-129 | the locked sections of a condition variable exclude each other and can always be left |
| `CvProtocol.ReleaseAndWaitAtomic` | src/phase1_osal/osal_lock.c:110-134 | a waiter that has given up the mutex is already enqueued or chosen |
| `CvCalls.BroadcastWakesAll` | src/phase1_osal/osal_lock.c:212-223 | from the taking of the guard until it returns, whatever others do, a broadcast dequeues exactly the waiters then queued, in order, and leaves none; each of them has been woken since or is about to be |
| `CvCalls.SignalPicksOldest` | src/phase1_osal/osal_lock.c:197-210 | when a signal drops the guard it has dequeued the oldest waiter and no other, and is about to signal it, or has found nobody |
| `CvCalls.BroadcastAlone` | src/phase1_osal/osal_lock.c:212-223 | undisturbed, a broadcast comes back with every waiter's bit set, the ring empty and the guard free |
| `CvCalls.SignalAlone` | src/phase1_osal/osal_lock.c:197-210 | undisturbed, a signal comes back with the oldest waiter's bit set, if there is one, and the guard free |
| `CvCalls.WaitReturnsLocked` | src/phase1_osal/osal_lock.c:131-134 | a wait, timed or not, returns with its mutex held |
| `CvCapacity.OverflowUnreachable` | src/phase1_osal/osal_lock.c:120-124 | with at most 32 tasks the overflow panic is never reached at any condition variable, in a run without an overtaken timed wait |
| `CvCapacity.OverflowReachable` | src/phase1_osal/osal_lock.c:120-124 | with more than 32 tasks some run of plain waits reaches it, at any condition variable |
| `Bits.OrDigits` | src/phase1_osal/rump_atomics.c:154-162 | bitwise disjunction, digit by digit |
| `Bits.AndDigits` | src/phase1_osal/rump_atomics.c:170-178 | bitwise conjunction, digit by digit |
| `SpscRing.SizeTest` | src/phase4_netdev/netdev_ring.c:53-54 | the bit test accepts exactly the powers of two |
| `SpscRing.AcceptedSizesDivide` | src/phase4_netdev/netdev_ring.c:50-60 | every accepted size divides 2^64 |
| `SpscRing.SlotOfWrapped` | src/phase4_netdev/netdev_ring.c:27-27 | wrapping a sequence number at 64 bits does not change its slot |
| `SpscRing.NearSlotsDiffer` | src/phase4_netdev/netdev_ring.c:25-27 | buffers less than a ring size apart have different slots |
| `SpscRing.WrappedDistance` | src/phase4_netdev/netdev_ring.c:25-25 | the unsigned difference of wrapped numbers is the true number of outstanding buffers |
| `SpscRing.BytesWrap` | src/phase4_netdev/netdev_ring.c:55-55 | the 32-bit product that sizes the allocation is right for accepted sizes below 2^30 and zero from there on |
| `SpscRing.WrapIsReached` | src/phase4_netdev/netdev_ring.c:53-54 | 2^30 is a size that init accepts |
| `SpscRing.NetDevRing.Init` | src/phase4_netdev/netdev_ring.c:50-60 | succeeds exactly for powers of two when there is memory, and gives a usable, empty ring exactly for sizes below 2^30 |
| `SpscRing.NetDevRing.Publish` | src/phase4_netdev/netdev_ring.c:20-31 | appends a buffer, or refuses exactly when the ring is full, at any sequence number |
| `SpscRing.NetDevRing.Consume` | src/phase4_netdev/netdev_ring.c:35-46 | takes the oldest buffer, or refuses exactly when the ring is empty |
| `SpscProtocol.RunInv` | src/phase4_netdev/netdev_ring.c:20-46 | the ring invariant holds in every interleaving of single loads and stores |
| `SpscProtocol.SpscSafety` | src/phase4_netdev/netdev_ring.c:20-46 | the consumed buffers are a prefix of the published ones, at most ring-size are outstanding, and no live slot is overwritten, across any number of wraps |
| `SpscProtocol.RefusalsJustified` | src/phase4_netdev/netdev_ring.c:23-40 | a refusal as full or empty happens exactly when the ring was so at the load of the other side's index |
| `SpscProtocol.PublishAlone` | src/phase4_netdev/netdev_ring.c:20-31 | in every reachable state an idle producer can publish into a ring that is not full |
| `SpscProtocol.ConsumeAlone` | src/phase4_netdev/netdev_ring.c:35-46 | in every reachable state an idle consumer can take the oldest buffer of a ring that is not empty |
| `Atomics.ApplyComputes` | src/phase1_osal/rump_atomics.c:88-196 | add is addition less 2^32 when it does not fit; or and and are right in every binary digit; swap installs its operand |
| `AtomicLaws.ComputesOnce` | src/phase1_osal/rump_atomics.c:88-196 | that determines the result |
| `AtomicLaws.Decrement` | src/phase1_osal/rump_atomics.c:135-150 | adding the word for -1 takes one away and wraps at zero |
| `AtomicLaws.CommitsCompute` | src/phase1_osal/rump_atomics.c:88-196 | in every run each commit does that to the word the one before it left |
| `AtomicLaws.CounterLaw` | src/phase1_osal/rump_atomics.c:88-150 | if the threads only add, the word is the initial word plus all operands modulo 2^32, whatever the interleaving |
| `AtomicLaws.FlagsLaw` | src/phase1_osal/rump_atomics.c:152-184 | if the threads only set digits, or only mask, the word has just the digits that were or became set, or that nobody cleared |
| `AtomicLaws.AloneCommits` | src/phase1_osal/rump_atomics.c:88-196 | an idle thread can call, and left alone for one turn it commits |
| `Atomics.CasLinearizable` | src/phase1_osal/rump_atomics.c:88-196 | the word is the operations applied in the order of successful CASes, modulo 2^32, and each result is what its own commit replaced and installed |
| `Atomics.FailureMeansCommit` | src/phase1_osal/rump_atomics.c:92-95 | a CAS fails only if another thread committed since the load |
| `Atomics.RetriesPaidFor` | src/phase1_osal/rump_atomics.c:88-196 | failed CASes of a thread, per call and in all, number at most the commits of others meanwhile |
| `Atomics.TotalRetries` | src/phase1_osal/rump_atomics.c:88-196 | failed CASes of all threads together number at most the commits times the other threads |
| `Atomics.RunInv` | src/phase1_osal/rump_atomics.c:22-37 | the invariant behind both holds in every interleaving |
| `Atomics.AtomicUpdate` | src/phase1_osal/rump_atomics.c:88-196 | the retry loop installs what its operation computes from the word it loaded last, after failing in just those turns in which others changed the word between load and CAS |
| `Words.Bswap32Reverses` | src/phase1_osal/rump_atomics.c:207-212 | bswap32 reverses the four bytes and is its own inverse |
| `Words.Bswap64Reverses` | src/phase1_osal/rump_atomics.c:214-219 | bswap64 reverses the eight bytes and is its own inverse, from the 32-bit result |
| `Words.PopCountCorrect` | src/phase1_osal/rump_link_stubs.c:252-257 | popcount32 is the plain count of one bits for every word |

## Left out

- The time limit of `osal_cv_timedwait`: a timed wait may look at its bit, or time out, at any moment after it has gone to sleep; its return code is not modelled.
- A break signal (CTRL_C) ends the engine loop before the port is drained; the drain, reply and progress theorems are about engines without it.
- `NetstackEngine_Start`, `NetstackEngine_Stop` and the ready/stopped handshake with the launcher; a shutdown request is modelled as one put by a client task with a reply port of its own.
- A PutMsg through the cached port pointer after the engine has freed its port, and `netstack_client_shutdown` with calls pending.
- In the step system of `Rpc` the engine's port exists from the start; a FindPort that fails is modelled in `Client` alone.
- Client.Client.PutAndWait: the engine serves the queue at once instead of interleaving with other tasks; what concurrent callers get is in `SystemStream`.
- Client.Client.IpcCall: the same.
- Client.Client.Send: the same.
- Client.Client.Fetch: the same.
- Client.Client.Recv: the same.
- Lazy semaphore initialisation and reply slots of tasks that have ended, whose address a new task may get.
- The wrappers for ping, socket, close, bind, listen, connect and accept in the client library only fill and unpack a request.
- Slots of the descriptor table are value records stored in one array, since the code embeds its arrays in the slot; pointers into a slot are written as reads and stores of the whole slot.
- 32-bit signed fields are unbounded integers; the values stored in them are proved small, and those passed through (domain, type, protocol, lengths) are only copied or compared.
- Exec semaphores are locks that do not nest, message ports are sequences, signals are bits; allocation results are parameters. Only condition variable code sets a task's SIGF_SINGLE bit.
- Memory barriers and torn 64-bit accesses: the descriptor ring is proved under sequential consistency, which the missing barriers do not give on weakly ordered processors.
- Atomics.AtomicUpdate: the interference of other threads is a parameter, finite and given in advance; arbitrary interleavings are in the step system of the same module.
- `atomic_cas_32` is one atomic step; its reservation loop in assembly and the unused `atomic_fetchop_32` are not modelled.
- Thin wrappers and stubs: threads, timers, memory, diagnostics, reader-writer locks, library open and close counting, engine start-up configuration, benchmarks and the other link stubs; also the mbuf pool, the device registry and the drivers.
