# ChatterboxLite: a verified model

ChatterboxLite is a chat server: one core thread reads requests from connections and queues them,
and a pool of slaves takes them from the queue, runs SQL statements and writes replies and
notifications to the connections. This project models its hand-written synchronisation, the message
store and the byte framing in Dafny, and proves what they keep. `dafny verify dfyconfig.toml` checks
all of it.

## How it is organised

**Protocols as state machines.** Each synchronisation protocol is a datatype of states with
`Enabled` and `Apply` for its steps, for any number of threads. A step is a stretch of code that
no other thread can observe in the middle. Condition variables are a set of sleepers and a set of
woken threads that must test again; wakeups without cause are steps; flags written outside the
mutex are steps of their own. A run starts in the initial state and takes any enabled steps.

- `DbGate`: the readers/writer gate of `exec_query` with its termination flag.
- `JobQueue`: the blocking queue with its shutdown.
- `WriteLock`: the lock on a descriptor; the slot at which a scan resumes after a wait is a
  parameter, because the code and its comment disagree about it.
- `Admission`: the table of operations in progress, with its class over the two arrays.
- `Server`, `Tokens`, `ServerSafety`, `ServerTheorems`, `StaleSlots`, `CarriedOut`, `Progress`,
  `ServerShutdown`: core and slaves over these four, with what has been created, opened, closed and
  released, what slaves have done for each request, and that somebody can always go on.
- `Frames`: the bytes that slaves write under the write lock.
- `ConnectRace` and `PostRace`: CONNECT requests for one nickname, and direct posts, that overlap.

**Code in the source's form.** `ExecQuery`, `BlockingQueue` and `SafeWriting` hold the source's loops
over mutable fields. Other threads act wherever the code can be interrupted, as an arbitrary
schedule says. The classes keep a ghost trace, and every method proves that the trace is still a run
of the state machine: so the theorems about runs hold of this code. `Wire` (send and receive
loops), `Client` (reply loop), `CoreLoop` (the core's dispatch), `Replies` (the slaves' dispatch),
`FileRepack`, `OnlineList` and `Store` (the `manage_*` operations) are classes and methods as well.

**The store.** `Relations` gives the meaning of the SQL strings and of the operations on users,
chats, members and messages; `StoreInvariant` what any sequence of operations keeps; `StoreTheorems`
what posting, leaving and unregistering do to everybody's history; `Outcomes` what each operation answers
and whom a post concerns, over the tables alone; `FormerUsers` what a later user of an unregistered name
gets; `Store` the operations in place. `Requests` puts store and dispatch together, from a request to what
is sent.

`Prelude` and `Jobs` hold the shared vocabulary.

## Where code and comments disagree

The model follows the code.

- After a wait the scan for other writers sets its index to 0 and the loop increments it, so slot 0
  is not looked at again (src/slaves.c:74-81). `WriteLock.IntendedRestartExcludes` is about the
  comment; `LiteralRestartExcludes`, `LiteralScanBreachesIff` and `LiteralRestartBreach` say what the
  code gives, `Frames.LiteralRestartFrames` what it means for the bytes, and `SafeWriting` shows that the
  code's index is that restart.
- The admission check is not symmetric: signups are always admitted, generic operations are admitted
  during an ending (src/slaves.c:186-220). `Admission.AdmittedDuringEndingIff`.
- The check for an existing name is a cross join and finds nothing while either table is empty
  (src/queries.h:306-310). `StoreTheorems.CheckExistNameMeans`, `RegisterCollidesIff`,
  `CreateGroupCollidesIff`, `NamesCanCollide`.
- A user already connected can be "connected" again by an overlapping request, which is answered
  OP_OK without effect (src/queries.h:400-401, src/queries.c:487-533). `ConnectRace.HollowOkIff`.
- The header loops advance a struct pointer by a byte count (src/connections.c:130, 164, 198, 264). What
  one unit is worth is a parameter of `Wire.Socket`; `Wire.StructStrideWritesIff` and
  `StructStrideReadsIff` say exactly what the code's pointer gives.
- A post looks for the pair's chat and creates it in separate statements (src/queries.c:671-680), so two
  posts can create two. `PostRace.DuplicatesIff` says exactly when.
- The branch for unknown operations goes back to the queue without cleaning its slot
  (src/slaves.c:533-538). `StaleSlots.EndingRefusedIff`, `RefusedForNobody`.
- The guard against codes reserved for the application tests for a negative code (src/core.c:461-463).
  The enumeration has no negative constant, and gcc makes such a one unsigned, so the guard never fires.
  Signedness is a parameter of `CoreLoop`: `RequestArrivesIff`, `HighCodesAreUnknown`.
- The client takes it that the list of online users is never empty (src/client.c:279);
  `OnlineList.ListOnlineUsers` says when it is.
- A file is limited before its name is added to it (src/core.c:425, 441); `CoreLoop.AnnouncedIff`.

## Model

| member | source | states |
|---|---|---|
| DbGate.StepKeepsInv | src/queries.c:130-264 | every step of every thread, wakeups without cause, the unlocked flag and the unlocked broadcast keep the gate's invariant: mutex ownership, exact counting, sound tests, no lost wakeup |
| DbGate.ExactGate | src/queries.c:191-264 | in every state of every run `writing` holds iff exactly one thread is in a write, `reading` iff the reader count is positive, the count is the number of threads in a read, `noop` iff nobody is inside, and a writer is alone |
| DbGate.EntryIsSound | src/queries.c:194-225 | two separate reads of the termination flag are sound: a thread past them finds the gate open to its request, so no call returns with the mutex locked |
| DbGate.NoLostWakeup | src/queries.c:217-222 | sleepers on an idle gate have a thread due to test it, even with the unlocked flag and broadcast; while the gate is `reading` only writers sleep, so one signal suffices |
| DbGate.SomeThreadCanAdvance | src/queries.c:191-264 | as long as a call is in progress some thread has a step that is not a wakeup without cause |
| DbGate.RankFalls | src/queries.c:197-204 | once the flag is set, every step in the gate brings its thread strictly nearer to leaving and moves nobody back |
| ExecQuery.QueryGate.ExecRead | src/queries.c:191-225 | under any schedule of the other threads the SELECT branch takes only steps of the gate machine and releases everything; it has executed its statement inside the gate exactly once, or not at all and the flag is set |
| ExecQuery.QueryGate.ExecWrite | src/queries.c:226-264 | the same for writing statements: the first attempt is executed exactly once, the second exactly once if the first was busy and never otherwise; a call ended by the flag has executed nothing, or only a busy first attempt |
| ExecQuery.QueryGate.EnterGate | src/queries.c:193-204 | lock, wait loop and second test of the flag, for both kinds of request: ends owning the mutex with the gate open, or out with the flag set |
| ExecQuery.QueryGate.TerminateDb | src/queries.c:130-134 | flag and broadcast outside the mutex, with other threads in between: nobody is left asleep |
| JobQueue.StepKeepsInv | src/queues.c:58-143 | every step of poppers, pushers and the thread in `queue_free` keeps the queue's invariant |
| JobQueue.ShutdownReachesEveryone | src/queues.c:121-143 | once `queue_free` has returned nobody sleeps in a pop or can go to sleep; no pop ever takes the head of an empty queue |
| JobQueue.NothingTakenAfterShutdown | src/queues.c:83-105 | after that no job is ever taken again: every later pop yields the termination descriptor |
| JobQueue.FirstInFirstOut | src/queues.c:58-114 | pops and the final drain take jobs in push order; what is left is exactly the rest |
| JobQueue.NoLostWakeup | src/queues.c:64-67 | while some popper sleeps, at least as many woken poppers as queued jobs are on their way |
| JobQueue.RankFalls | src/queues.c:83-105 | after shutdown every step of a pop brings it nearer to the termination descriptor, takes no job, and leaves the other pops alone |
| JobQueue.SomePopperCanAdvance | src/queues.c:75-114 | while a pop is under way after shutdown, it or the thread holding the mutex can step |
| BlockingQueue.SharedQueue.QueuePush | src/queues.c:58-68 | under any schedule: the job is the last of the queue, and the queue has gone through a run |
| BlockingQueue.SharedQueue.QueuePop | src/queues.c:75-114 | under any schedule the pop takes only steps of the machine and yields a job or, with the flag set, termination |
| BlockingQueue.SharedQueue.TakeHead | src/queues.c:106-113 | the queue is never empty here, whatever the others did since the test, and the job is its head |
| BlockingQueue.SharedQueue.QueueFree | src/queues.c:121-143 | under any schedule: when it returns nobody sleeps, is about to sleep or is about to take a job |
| BlockingQueue.SharedQueue.Drain | src/queues.c:128-137 | the drain loop releases every queued job, in queue order |
| WriteLock.IntendedRestartExcludes | src/slaves.c:60-84 | with the restart the comment intends, no two slaves ever write on one descriptor |
| WriteLock.LiteralRestartExcludes | src/slaves.c:74-81 | with the restart the code has, two writers on one descriptor are possible only if one is slave 0 |
| WriteLock.LiteralScanBreachesIff | src/slaves.c:74-82 | exactly when a scan makes a second writer: the slave has waited, is not slave 0, and slave 0 writes on the descriptor it wants |
| WriteLock.LiteralRestartBreach | src/slaves.c:74-81 | a run of three slaves, without a wakeup without cause, that ends with two writers on one descriptor |
| WriteLock.FreshScanIsSafe | src/slaves.c:73-82 | a scan before the first wait succeeds iff no other slave writes on the descriptor, for any restart |
| WriteLock.SleeperHasActiveWriter | src/slaves.c:73-99 | every sleeper's descriptor is held by a slave that is not asleep and can release it, and that release leaves nobody asleep |
| WriteLock.RankFalls | src/slaves.c:67-99 | a release costs its slave more than all the rescans it causes |
| SafeWriting.WritingTable.StartSafeWriting | src/slaves.c:67-84 | the loop with its index arithmetic, under any schedule, goes through runs of the lock, with the literal restart when that is 1; for every slave, when it succeeds no other slave from the restart slot on writes on the descriptor; it can only fail asleep on another's descriptor |
| SafeWriting.WritingTable.StopSafeWriting | src/slaves.c:93-99 | frees the slot and leaves nobody asleep |
| Admission.LaterSlotIsCompatible | src/slaves.c:183-234 | over all interleavings, stale slots included: of two slots on one descriptor the later is never an ending, and never generic behind a signup |
| Admission.OneEndingPerDescriptor | src/slaves.c:213-219 | at most one slot per descriptor holds a disconnection or an unregistration |
| Admission.EndingAdmittedIff | src/slaves.c:213-219 | an ending is admitted iff no other slot names its descriptor |
| Admission.AdmittedDuringEndingIff | src/slaves.c:208-220 | while an ending is in progress exactly the other endings are refused |
| Admission.CriticZone.CheckOpConsistence | src/slaves.c:183-227 | the loop over the table admits iff no other slot conflicts, and then records the operation; otherwise the table is unchanged |
| Admission.CriticZone.CleanCriticZone | src/slaves.c:229-234 | only the slave's own slot is released |
| ServerSafety.StepKeepsInv | src/slaves.c:247-551 | every step of the composed server keeps the four components' invariants, the agreement of each slave's code with its place in them, and three conservation laws |
| ServerTheorems.MessageConservation | src/slaves.c:293-299 | in every run each message created is in exactly one place: one queue position, one slave's hand, released, or lost in the unknown-operation branch |
| ServerTheorems.AtMostOneDisconnect | src/core.c:391-403 | queue and slaves together hold at most one unexecuted disconnection per descriptor; while there is one the core enqueues nothing for it |
| ServerTheorems.OneDisconnectPerAccept | src/slaves.c:347-356 | a slave that holds a disconnection is the only one, none is queued, and the descriptor is still open |
| ServerTheorems.ClosedAtMostOncePerAccept | src/core.c:477-480 | per descriptor, accepts less closes is one while it is open and zero otherwise; a slave about to close closes an open descriptor that the core has let go of |
| ServerTheorems.NeverTwoLocks | src/slaves.c:109-116 | no slave is ever inside two of queue, database gate and write lock |
| ServerTheorems.OneEndingServed | src/slaves.c:293-299 | at most one slave at a time serves a disconnection or unregistration for a descriptor |
| CarriedOut.HistoryPlusRest | src/slaves.c:301-538 | in every state of every run, for every slave serving a request: what it has done and what is left make up the request's plan, each act once and in order, every statement inside the gate, every send under the write lock on exactly its descriptor; none is cut short before the termination flag is set |
| CarriedOut.HeldIsBorn | src/slaves.c:293-299 | whatever is queued or in hand, after any number of refusals, is a request exactly as the core created it |
| CarriedOut.BornOnce | src/core.c:391-471 | a message's number determines its request |
| CarriedOut.ReleasedWhenDone | src/slaves.c:531-545 | every step that releases or forgets a message is the shutdown drain, or a slave's that has done the whole plan its request came in with; a slave frees exactly the known operations and forgets exactly the unknown ones |
| CarriedOut.GoneWasServed | src/slaves.c:301-545 | every message that is gone was drained at shutdown, or a slave has done everything its request asked for |
| Progress.NoDeadlock | src/slaves.c:247-551 | in every state of every run, as long as some slave has a request in hand, is on its way through a pop, or sleeps while a message is queued, some slave can step |
| StaleSlots.SlotNamesIff | src/slaves.c:533-542 | in every state of every run a slot names a descriptor iff its slave is serving an admitted job there, or last served an unknown operation there, whose branch does not clean the slot |
| StaleSlots.AdmittedIff | src/slaves.c:183-227 | in every state of every run, for every kind of operation: admitted iff no other slave serves a job on the descriptor that excludes it and, for an ending, none has left a stale slot there |
| StaleSlots.EndingRefusedIff | src/slaves.c:533-542 | an ending is refused iff another slave is serving an admitted job on its descriptor or last served an unknown operation there |
| StaleSlots.RefusedWhileServed | src/slaves.c:213-219 | before the first unknown operation has been served, an ending is refused iff another slave is serving its descriptor |
| StaleSlots.RefusedForNobody | src/slaves.c:533-538 | a run in which a disconnection is refused and put back although nobody serves the descriptor |
| ServerShutdown.SlaveStepLowersWork | src/core.c:506-518 | after `queue_free` and `terminate_db` every step of a slave lowers a natural measure of the whole pool, requeues included |
| ServerShutdown.SpuriousRaisesByOne | src/core.c:506-518 | a wakeup without cause raises it by at most one |
| ServerShutdown.SomeSlaveCanStep | src/core.c:506-518 | as long as some slave has not exited, some slave can step |
| ServerShutdown.ShutdownIsBounded | src/core.c:506-518 | an execution after shutdown has at most as many steps as there was work, plus two per wakeup without cause |
| ServerShutdown.ShutdownEndsWithAllDone | src/core.c:510-518 | in a run of the server, an execution after shutdown that no slave can continue has let every slave exit |
| Frames.StepKeeps | src/slaves.c:109-133 | every step, a failed write included, keeps sent and unsent bytes making up the frame, and every send begun on a descriptor ended or one slave's |
| Frames.AtomicUntilBreach | src/slaves.c:67-133 | for any restart slot and any descriptor: exactly the scans that gain the lock past an overlooked writer end the exclusion, and until the first of them sends are atomic |
| Frames.FramesAreAtomic | src/slaves.c:109-133 | with the intended restart, at all times the bytes on a descriptor are the sends begun there one after the other: each ended send has written a prefix of its frame, the whole frame unless a write failed, at most one send is under way with a prefix written, and every frame begun is accounted for exactly once |
| Frames.LiteralRestartFrames | src/slaves.c:74-81 | with the literal restart, writers on a descriptor exclude each other up to a state iff no slave but slave 0, woken from a wait for it, has gained the lock while slave 0 was writing there; until then the sends on it are atomic in the same sense |
| Frames.LiteralRestartInterleaves | src/slaves.c:74-81 | a run with the literal restart, no write failing, whose bytes on a descriptor are neither order of the two frames begun there |
| Frames.ClientReadsWhatSlavesWrote | src/client.c:219-264 | end to end, for any restart and as long as there was no breach on the descriptor: if all sends begun there are notifications and replies, no ended one failed and one reply was sent, the client's loop keeps exactly the notifications before the first reply, in order, and recognises that reply, whatever follows |
| Replies.Dispatcher.Serve | src/slaves.c:301-551 | for every operation code and every answer of the database calls: exactly the specified sends, in order; only a disconnection closes its descriptor; a known code cleans its slot, if it was admitted, and frees the message, an unknown one does neither |
| Replies.OneReply | src/slaves.c:339-538 | every request but a disconnection begins exactly one reply on its own descriptor, plus one for each row of its history that is neither text nor file; on other descriptors none |
| Replies.FramesIff | src/slaves.c:384-520 | a request puts only whole frames on the streams iff what it announces and what it lists is within the limit for bodies |
| Replies.PlanIsGood | src/slaves.c:345-356 | whatever statements come in between, what serving a request does is a plan as the composed server assumes it: only disconnections close, at the end, and nothing is sent to no descriptor |
| Replies.Classify | src/slaves.c:273-282 | which kind of operation a code is, and that exactly the core's own two codes are not admitted |
| Replies.KindsOfCodes | src/ops.h:24-69 | by number: 0 signs up, 8 and 9 end a session, 25 and 28 need no admission, and the dispatch has a branch for those and 0 to 13 |
| Replies.AnnouncementsSay | src/slaves.c:384-385 | every send of a post but its reply reads back as the request's sender, receiver and body under FILE_MESSAGE for a file and TXT_MESSAGE for a text, or is refused if the body is over the limit |
| Replies.AnnouncedAsOften | src/slaves.c:387-426 | one announcement for every entry of the list of descriptors, but for users not connected and, outside groups, the sender's own |
| Replies.PlainReplySays | src/slaves.c:127-133 | a reply without data reads back as its code, signed by the server, and ends the request's sends |
| Replies.DataReplySays | src/slaves.c:340-341 | a request answered with data gets exactly that message, and nothing else |
| Replies.CountSays | src/slaves.c:474-480 | the reply to a request for the history reads back as the number of messages that follow it |
| Replies.HistorySays | src/queries.c:344-378 | each of them reads back as its row: text or file name, terminated, under its code, from the row's sender to the user who asked |
| Replies.ClientReturns | src/client.c:219-264 | the client returns 0 for OP_OK, the negated code for every other reply the server can give, and -1 for a missing file |
| Replies.ClientGetsItsReply | src/client.c:219-264 | end to end: if the sends begun on a client's descriptor belong to served requests, none that ended failed and a reply to one of its requests was sent, then as long as there was no breach the client takes for its answer the reply to a request of its own, and keeps only notifications that served requests sent it |
| Requests.AskStore | src/slaves.c:308-516 | for every code: exactly the operations of the store that the dispatch runs, with sender, receiver and descriptor in their places, and their answers |
| Requests.ServeRequest | src/slaves.c:301-538 | asking and sending together |
| Requests.PostIsAnnounced | src/slaves.c:366-454 | from every reachable store, for every post and every descriptor: an announcement is sent there iff the receiving user is on it and it is not the sender's, or a connected member of the receiving group is on it and the sender's descriptor, not 0, is a connected member's, or, for a post to all, anybody but the sender |
| Requests.AnnouncedToEach | src/slaves.c:387-426 | and exactly once for each of the users on it whom the post concerns |
| Requests.PostIsAnswered | src/slaves.c:456-465 | what the sender of a post is answered, over the tables alone: failure iff the post is to its own name or to a name nobody has, unknown nickname iff the group is closed to it |
| Requests.OperationIsAnswered | src/slaves.c:308-516 | every other operation on the store is answered with the store's code |
| Requests.RequestIsTaken | src/core.c:391-471 | nothing else keeps a request out: on a selected descriptor, with the queue's mutex free, every request can be queued |
| Requests.SendsAreMade | src/slaves.c:109-133 | a slave that has done a request's plan has held the write lock once for each of the request's sends, in order, and has closed the descriptor iff it is a disconnection |
| Wire.DataRoundTrip | src/connections.c:185-308 | data parses back unchanged, leaving what follows, exactly when the body has at most 13107200 bytes; otherwise it is refused |
| Wire.MessageRoundTrip | src/connections.c:319-359 | the same for whole messages, followed by anything |
| Wire.Layout | src/message.h:34-77 | how headers lie in memory: little-endian code and length, names at their offsets, zero padding |
| Wire.TruncatedIsRefused | src/connections.c:151-172 | a message cut anywhere is never taken for a message |
| Wire.OnStreamReads | src/connections.c:205-217 | what a reliable connection carries after a send is read back as the message iff the body is within the limit, and refused otherwise, whatever follows the two headers |
| Wire.StructStrideWritesIff | src/connections.c:116-136 | with the struct pointer the code has, a header is written as it is, whatever lies behind it in memory, iff the system takes it in one piece |
| Wire.StructStrideReadsIff | src/connections.c:153-169 | with the struct pointer the code has, a header is read as it was sent, whatever it held before, iff it arrives in one piece |
| Wire.Socket.WritePieces | src/connections.c:122-136 | the header loop for any pointer stride: what is on the stream is what lies in memory where the pointer has got to, piece by piece |
| Wire.Socket.ReadHeaderBytes | src/connections.c:156-169 | the header loop for any pointer stride: what the header holds is what the pieces leave in it; the header's bytes are taken from the stream in order |
| Wire.Socket.WriteFully | src/connections.c:219-234 | the loop for bodies: for every split into chunks either all bytes are on the stream or a proper prefix and a failure is reported |
| Wire.Socket.ReadFully | src/connections.c:289-305 | the loop for bodies: for every split into chunks exactly the requested bytes are taken, in order, or a failure is reported |
| Wire.Socket.SendHeader | src/connections.c:113-138 | for any stride the header, or on failure a part of it, has been written piece by piece; with the intended stride or whole headers it is whole on the stream, or a proper part of it and a failure is reported |
| Wire.Socket.SendData | src/connections.c:185-237 | succeeds on a reliable connection iff the body is within the limit; for any stride the stream gets the header as the loop writes it and then the body, or on failure a part of that; with the intended stride or whole headers it is the encoding, and an over-long body leaves exactly its header |
| Wire.Socket.SendRequest | src/connections.c:347-359 | for any stride the stream gets both headers as the loops write them and the body, or on failure a part of that; with the intended stride or whole headers it is the encoding or a proper part of it, and a reliable connection refuses exactly an over-long body, with the two headers sent |
| Wire.Socket.ReadHeader | src/connections.c:151-172 | for any stride the header is what the loop has put there; with the intended stride or whole headers it agrees with the specified parse of the stream |
| Wire.Socket.ReadData | src/connections.c:249-308 | for any stride receiver and length are what the loop has put into the header and the body is that many bytes; a reliable connection fails only if that length is over the limit or not there; with the intended stride or whole headers it agrees with the specified parse |
| Wire.Socket.ReadMsg | src/connections.c:319-334 | the same for header and data together; with the intended stride, or with the literal one and whole headers, it agrees with the specified parse for every split into chunks |
| Wire.SendAndReceive | src/connections.c:319-359 | both loops together: sent and received in any chunks, with the intended stride or with whole headers, a message arrives unchanged iff its body is within the limit, on both ends alike |
| Client.AwaitReply | src/client.c:219-264 | any number of whole notifications before a reply are kept in order, the reply is recognised, and what follows stays on the stream |
| Client.RequestReply.ReadMessage | src/client.c:78-105 | one notification is appended whole, or nothing is |
| Client.RequestReply.AwaitAck | src/client.c:219-264 | on a reliable connection the loop does what the specification says of the stream, for every split into chunks, and ends; a failing one can only end it earlier, with a prefix of the notifications kept |
| CoreLoop.Core.HandleReadable | src/core.c:383-472 | exactly one message is pushed per readable descriptor; on a reliable connection it is the specified one, for signed and unsigned codes, a failure can only make it a disconnection, wiped or, after the first half of a post, with sender and name; the descriptor is let go only with a disconnection |
| CoreLoop.Core.ReceiveFile | src/core.c:405-450 | the second half of a posted file: assembled, refused as too long, or turned into a disconnection that keeps sender, receiver and name |
| CoreLoop.RequestArrivesIff | src/core.c:452-471 | a request reaches the slaves unchanged iff its body is within the limit and, where operation codes are signed, the top bit of its code is not set; which refusal arrives otherwise; the next request is untouched |
| CoreLoop.HighCodesAreUnknown | src/core.c:461-468 | the guard lets no code from 2^31 on through where codes are signed; where they are unsigned, as gcc makes them, each arrives unchanged and takes the slave's branch for unknown operations after admission |
| CoreLoop.PostedFileArrives | src/core.c:405-450 | a posted file, as the client sends it, arrives as one message from which base name and content are recovered byte for byte, iff the content is within the limit |
| CoreLoop.PostedFileIsNamed | src/core.c:436-444 | a file posted from any directory reaches the slaves under its own name, with its content |
| CoreLoop.LetGoIff | src/core.c:391-418 | the core lets go of a descriptor exactly when the request cannot be read whole, and then pushes a disconnection, in which sender and data of a post that had been read are kept and everything else is wiped |
| CoreLoop.UndefinedIff | src/core.c:436-438 | exactly the posts without a name, read whole and with a content within the limit, are given no meaning |
| CoreLoop.AnnouncedIff | src/slaves.c:384-395 | an accepted file is announced to a receiver iff base name, NUL and content together are within the limit for bodies; otherwise only the two headers go out and the receiver refuses them whatever follows |
| CoreLoop.AllAnnouncedIff | src/core.c:425-450 | every file that the dispatch accepts under a path is announced to its receivers iff the configured limit leaves room for the base name and its NUL |
| FileRepack.BaseNameIsComponent | src/core.c:439-439 | a base name is one component: not empty, no NUL, no slash unless the path was only slashes, and its own base name |
| FileRepack.BaseNameInDirectory | src/core.c:439-439 | for every directory, every name without a slash and any slashes behind it, the base name is the name |
| FileRepack.BaseNameAlone | src/core.c:439-439 | the same for a path without a directory |
| FileRepack.StoredUnder | src/core.c:438-444 | so a path sent as directory, slash and name, terminated, is stored under the name |
| FileRepack.RepackRoundTrip | src/core.c:441-444 | for every content, zero bytes included, and every NUL-free name, taking apart undoes putting together, and the written length is the content's length |
| FileRepack.UnpackRoundTrip | src/queries.c:694-698 | putting together undoes taking apart for every buffer with a NUL |
| FileRepack.CombinedLengthFits | src/core.c:441-441 | the combined length never overflows the 32-bit field |
| FileRepack.AssembleFile | src/core.c:424-450 | the buffer filled in place is base name, NUL, content; refused iff the content is over the limit |
| FileRepack.TakeFile | src/queries.c:694-722 | name and content as they were put in; an empty content is the fatal write of zero bytes |
| FileRepack.StoreFile | src/queries.c:692-740 | the whole path from the client's two buffers to the stored name and content |
| OnlineList.StringList.Callback | src/queries.c:300-314 | a row stays inside its slot with its terminator, no other slot changes, rows beyond the size are ignored |
| OnlineList.BufferHoldsSlotsIff | src/queries.h:680-682 | the buffer has room for all slots iff their size fits the 32-bit variable; otherwise it has less |
| OnlineList.ExecGetOnlineUser | src/queries.h:669-686 | whatever the count and the later rows, the first slots hold the first rows in order and the rest are zero; it has a meaning iff the count does not fit or the 32-bit buffer size is the size of all slots |
| OnlineList.ShowUsers | src/client.c:278-284 | the client's assertion ends it iff there is not one slot; otherwise its stride reads every slot |
| OnlineList.ListOnlineUsers | src/queries.h:656-686 | for any two database states seen by COUNT and SELECT the client shows exactly the first min(count, rows) names in order, then empty names; its assertion ends it iff the count is zero or does not fit |
| OnlineList.OnlineNamesFit | src/queries.c:412-417 | in every reachable state of the store all online names fit a slot |
| StoreInvariant.OpKeepsInv | src/queries.c:398-864 | every operation keeps: direct chats of at most two, one direct chat per pair, unique group names, consistent ids, registered names that fit and do not start with punctuation |
| StoreInvariant.DirectChatUniqueness | src/queries.c:665-685 | after any sequence of operations two distinct names share at most one direct chat, with exactly those two members, found from either side |
| StoreTheorems.ExactDelivery | src/queries.c:584-689 | from any reachable state, a direct post adds one entry to the receiver's history only, a group post one to every other member's only |
| StoreTheorems.ExactDeliveryToAll | src/queries.c:651-685 | POSTTXT_ALL adds exactly one entry to every other registered user's history and to no other, in whatever order users are listed |
| StoreTheorems.GroupsLeaveDirectChats | src/queries.c:794-864 | group operations change neither members nor messages of any direct chat |
| StoreTheorems.UnregisterKeepsHistories | src/queries.h:248-255 | unregistering keeps the message count and every other registered user's history up to the re-attributed sender; the name's own history is empty then |
| FormerUsers.InheritsIff | src/queries.h:248-255 | whatever operations follow an unregistration, a message from before is still there and is delivered to a later user of the name iff the name has been added to that message's group again and not left since |
| FormerUsers.InheritsNothing | src/queries.c:665-685 | so nothing from before reaches the name through a direct chat, nor at all while nobody adds it to a group |
| FormerUsers.LaterUserStartsAfresh | src/queries.h:929-936 | while nobody adds it to a group, the name's history after any operations holds only messages from after the unregistration |
| FormerUsers.AddingBringsBack | src/queries.c:815-830 | adding the name to a group gives it every message of that group from before, the former user's own included |
| FormerUsers.OldMembersIff | src/queries.c:551-864 | for every operation, exactly who is in a chat that existed before: the members who have not left and the one added |
| StoreTheorems.RemovalFromGroupKeepsHistories | src/queries.h:852-882 | removing a member keeps every other registered user's entries in order and changes the sender on exactly those that the member sent to this group; the member keeps exactly the entries of its other chats |
| StoreTheorems.CheckExistNameMeans | src/queries.h:306-330 | the cross join counts something iff both tables have rows and the name is taken |
| StoreTheorems.RegisterCollidesIff | src/queries.c:398-443 | a registration gives a user a group's name iff the name is valid, a group's, and no user exists yet |
| StoreTheorems.CreateGroupCollidesIff | src/queries.c:794-813 | a group takes a user's name iff the name is a user's and no chat exists yet |
| StoreTheorems.NamesCanCollide | src/queries.h:306-330 | the collision is reachable with every name a user can have |
| StoreTheorems.RegisterOkIff | src/queries.c:398-443 | exactly when a registration succeeds, a group's name being refused only once some user exists; a refusal leaves the tables alone |
| StoreTheorems.CreateGroupOkIff | src/queries.c:794-813 | exactly when a group can be created, a user's name being refused only once some chat exists |
| StoreTheorems.RegisterThenUnregisterIff | src/queries.h:222-278 | registering and unregistering a name restores the tables iff the name was in no chat and on no message |
| StoreTheorems.JoinThenLeave | src/queries.c:815-864 | joining a group twice is refused, and leaving restores the members |
| StoreTheorems.ConnectThenDisconnect | src/queries.c:456-539 | disconnecting a descriptor that one user is on takes back exactly that connection |
| StoreTheorems.GroupPostIff | src/queries.c:589-624 | a post goes to a group iff no user has that name and the requester's descriptor, not 0, is a connected member's; a post that goes nowhere changes nothing |
| StoreTheorems.RemovalAllowedIff | src/queries.c:832-864 | a removal is carried out iff the requester's descriptor, not 0, is a connected member's; otherwise nothing changes |
| Outcomes.GroupPostReaches | src/queries.c:589-624 | from every reachable store, the descriptors of a group post are exactly those on which a member of the group is connected, one for each such member |
| Outcomes.UserPostReaches | src/queries.c:626-633 | a post to a user finds exactly that user's descriptor |
| Outcomes.AllPostReaches | src/queries.c:635-650 | a post to all finds exactly the descriptors on which some user is connected, and none if there is at most one user |
| Outcomes.CreateGroupMakes | src/queries.c:794-813 | after OP_OK there is exactly one chat more, with the group's name and the creator as its only member; nothing else changes |
| Outcomes.CreatorMayPost | src/queries.c:794-813 | so the creator, connected on a descriptor above 0, can post to the new group at once, if no user has its name, and is the only one told |
| Outcomes.RegisterAnswers | src/queries.c:398-443 | which answer a registration gets, over the tables alone |
| Outcomes.PunctuationIs | src/queries.c:91-92 | the characters a name must not begin with, one by one |
| Outcomes.UnregisterAnswers | src/queries.c:445-454 | always OP_OK; exactly the user and its memberships go |
| Outcomes.ConnectAnswers | src/queries.c:456-534 | which answer a connection gets; after OP_OK the user is on the descriptor, otherwise nothing has changed |
| Outcomes.CreateGroupAnswers | src/queries.c:794-813 | which answer the creation of a group gets: a taken name is refused with different codes before and after there are users |
| Outcomes.AddToGroupAnswers | src/queries.c:815-830 | which answer joining gets; exactly that user enters exactly that group |
| Outcomes.RemoveAnswers | src/queries.c:832-864 | which answer a removal gets: OP_FAIL iff no member is connected, OP_OK iff one is on the requester's descriptor |
| Outcomes.PostAnswers | src/queries.c:551-624 | over the tables alone, whether a post is refused, not for this sender, to a user or to a group |
| Store.Database.ExecCheckExistingChat | src/queries.h:516-550 | finds the pair's direct chat, whichever row comes last |
| Store.Database.ExecCheckExistingGroup | src/queries.h:362-385 | finds the group's id, whichever row comes last |
| Store.Database.FindInGroup | src/queries.h:884-925 | the descriptors of the online members, and whether the requester's, if not 0, is among them |
| Store.Database.ManageInsertUser | src/queries.c:398-443 | the tables and the answer are those of `Relations.Register`; the state stays one that a sequence of operations reaches |
| Store.Database.ManageUnregisterUser | src/queries.c:445-454 | the same for `Relations.Unregister` |
| Store.Database.ManageConnectUser | src/queries.c:456-534 | the same for `Relations.Connect` |
| Store.Database.ManageDisconnectUser | src/queries.c:536-539 | the same for `Relations.DisconnectRows` |
| Store.Database.ManageCreateGroup | src/queries.c:794-813 | the same for `Relations.CreateGroup` |
| Store.Database.ManageAddToGroup | src/queries.c:815-830 | the same for `Relations.AddToGroup` |
| Store.Database.ManageRemoveUserFromGroup | src/queries.c:832-864 | the same for `Relations.RemoveFromGroup` |
| Store.Database.FindOrCreateChat | src/queries.c:671-680 | the pair's direct chat, created with exactly these members iff there was none |
| Store.Database.ManagePostMessage | src/queries.c:551-750 | the tables are those of `Relations.Post` and the descriptors returned are those of its receivers, or the code of its refusal |
| Store.Database.ManagePostToAll | src/queries.c:635-689 | the loop over all names, in any order the database lists them, is `Relations.PostAll` |
| Store.NotifyReceivers | src/slaves.c:387-426 | the loop over the descriptors writes to the ones `Targets` lists, in order |
| Store.NotifiedIff | src/slaves.c:387-426 | a post is announced on a descriptor iff a receiver is connected there and, outside groups, it is not the sender's own |
| Store.TargetsCount | src/slaves.c:387-426 | each entry of the list that counts is written to once |
| ConnectRace.OneUpdateTakesEffect | src/queries.h:389-414 | however any number of CONNECT requests for a nickname interleave, at most one update takes effect and the row keeps its descriptor |
| ConnectRace.HollowOkIff | src/queries.c:487-533 | a request is answered OP_OK without an update of its own iff it read its own descriptor there, or read the row as free and another request took it before; either way another request has taken it |
| ConnectRace.OkMeans | src/queries.c:487-533 | after an OP_OK the nickname is connected, and on another connection than the requester's iff a request from there took it after the look |
| ConnectRace.BothAnsweredOk | src/queries.c:487-533 | it happens to any two requests that both read before either updates |
| ConnectRace.AloneIsConnect | src/queries.c:456-534 | without interleaving the two statements are the CONNECT operation of the store |
| PostRace.StepKeepsInv | src/queries.c:665-685 | every statement of any number of overlapping direct posts keeps the old chats as they were and every new chat one post's, with the members that post has entered |
| PostRace.LookMissesIff | src/queries.c:671-672 | a look finds no chat iff there was none at the start and no post of the pair has finished making one |
| PostRace.UniqueIff | src/queries.c:665-685 | in every state direct chats are unique iff no two posts of one pair have both made one |
| PostRace.DuplicatesIff | src/queries.c:671-680 | whenever no post is in the middle of making a chat, uniqueness is lost iff two posts of one pair have both been between a look that found nothing and the second member at the same time |
| PostRace.NoOverlapKeepsUnique | src/queries.c:671-680 | posts that never overlap in this way keep direct chats unique at all times |
| PostRace.TwoChats | src/queries.c:671-680 | for every pair without a chat in every good store, two posts that both look first end with two chats |
| PostRace.AloneIsPostDirect | src/queries.c:665-747 | without interleaving the statements are the direct post of the store |

## Left out

- Sockets, `select`, `accept`, eventfd, signals, files and SQLite: system calls are nondeterministic results, statements are relational steps that return.
- Errors of SQLite other than a constraint, and a database that is busy twice: the source prints a message and ends the process.
- The build with write-ahead logging (src/queries.c:142-167): compiled out in the source.
- `exec_delgroup` and `manage_deletegroup`: the statement is not valid for SQLite. In `Server` they are a job like any other.
- Statistics: running totals are added once per receiver, so they do not equal the number of sends.
- A one-to-one relation of users and descriptors: one descriptor may register or connect several names, and the code does not prevent it.
- History order and limit: `Relations.Select` lists entries in order of insertion, without the LIMIT; times have a resolution of a second in the source.
- Quoting: a name or text with a quote character changes the SQL string in the source; here statements take values.
- `manage_getfile`, `manage_receive`, command lines, configuration, logging and start-up: they would add only easy members.
- Server: what serving a job does is a finite list of statements and sends fixed when the job is created; it is arbitrary and nothing looks at it before the job is admitted. Clients are assumed never to send the disconnect operation themselves.
- Server: after shutdown a refused job that is pushed back stays in the queue, as in the source; the process then ends.
- ServerShutdown.ShutdownEndsWithAllDone: statements and socket calls are assumed to return, and wakeups without cause to be finitely many.
- Frames.FramesAreAtomic: its pieces are taken from the frame in order, as the loops do for bodies and, by Wire.StructStrideWritesIff, for headers that go out in one piece.
- Wire.SendAndReceive: with the code's pointer and headers in several pieces it does not say what arrives; Wire.Socket.SendRequest and Wire.Socket.ReadMsg say what each end then writes and reads.
- Replies.Dispatcher.Serve: the answers of the database calls are parameters, and whether a send fails is looked at only in `Frames`.
- Requests.AskStore: the list of online users, files and history rows that go into replies come from outside (`OnlineList` and `FileRepack` are about them), and so does the answer of `manage_deletegroup`; a text without bytes, which the source passes on as a null pointer, counts as empty.
- Replies.ClientGetsItsReply: that the client waits for one reply before it sends the next request is not used; with several requests under way the reply is to one of them.
- WriteLock.LiteralRestartExcludes: says nothing of slave 0, because exclusion then fails; the exact condition is WriteLock.LiteralScanBreachesIff.
- CoreLoop.Core.HandleReadable: nothing is promised after a request without meaning; CoreLoop.UndefinedIff says which these are.
- FileRepack.StoreFile: `write` is taken to write everything or nothing; the copy under the original name, the primary key as file name and the file system are left out.
- OnlineList.ExecGetOnlineUser: nothing is promised of a count between 65 075 263 and 2 147 483 647, whose buffer would be too small.
- ExecQuery.QueryGate.ExecRead: a call that is blocked when the schedule ends is reported as stuck; the same holds of the other two modules with schedules. Progress is proved on the state machines.
- Client.RequestReply.AwaitAck: the kept messages are a growing sequence; the source's reallocation by a byte count is left out.
- ConnectRace.OneUpdateTakesEffect: nobody disconnects during the race.
- Store: operations run one at a time; overlapping operations are modelled, statement by statement, only for CONNECT and direct posts. The build with MAKE_TEST_HAPPY also disconnects a descriptor after a registration on it, which is the operation DisconnectOp.
