# epoll_threads, modelled and verified in Dafny

epoll_threads is an epoll server: one listener thread accepts connections and hands each to one of n
worker threads, which serve it from an edge-triggered epoll instance. Listener and workers share one
atomic connection counter per worker and no lock. A small client (Test) talks to the server.

The model has six parts.

* **The server** (`Server.dfy`): listener, workers and kernel as one interleaved system. Every access
  to shared memory and every system call is a step of its own; what the kernel, the network and the
  scheduler choose is part of the action, so "for every sequence of actions" means every interleaving
  and every kernel. Descriptor numbers are reused; every accept gets a fresh incarnation number.
  `Ownership`, `Accounting`, `Dispatch`, `Decision`, `Wakeups`, `Batches`, `Modes`, `Closures` and `RoundRobin` hold
  one invariant each, `Safety` the theorems about reachable states and runs. `Threads.dfy` is the thread code itself
  (`AssignTask`, `i_epoll_wait`, the handlers) as methods on objects, with interference from an
  arbitrary schedule before every shared access; its `Valid()` says that whatever has happened is a
  run of the system, so every theorem of `Safety` applies to it.
* **Byte transport** (`Transport.dfy`, `Exchange.dfy`, `Handlers.dfy`): `sendn` and `recvn` against a
  kernel that fragments, interrupts and fails, and the conversation of server and client on top.
* **Both together** (`EndToEnd.dfy`): one connection from the worker's epoll to the client, the two systems
  joined at the recvn and sendn calls of the worker.
* **Concurrency primitives** (`Atomic.dfy`, `SeqLock.dfy`): the compare-and-swap and reservation loops
  and the begin/end sequence lock of iAtomic.h, as systems of any number of threads and as methods.
* **Descriptor capacity** (`Capacity.dfy`).
* **The configuration file** (`ConfigText.dfy`, `Settings.dfy`, `ConfigLoader.dfy`): what a text means, what
  its settings mean, and the loader that cuts its line buffer in place.

What the proofs found about the code, beyond what it promises:

* `AssignTask` reads `m_taskthread[1]` first, so it is in range exactly if there are two workers, while
  the configuration accepts one (`TargetInRangeIffTwoWorkers`, `OneThreadOverruns`).
* The handlers ignore a failed `i_epoll_change_mode`.  The wakeup is lost exactly if the call failed, no new
  event was queued meanwhile and the old condition still holds (`IgnoredFailureLosesEvents`); `LostWakeup`
  is a run in which that happens, and `AbandonedForGood` says nobody looks at the connection again until
  one of the conditions it is armed for comes up anew.
* `recvn` looks at `errno` after `recv` has returned 0, which does not set it.  If it holds EINTR, from before
  the call or from an interruption earlier in the same call, recvn goes round for as long as end of file
  lasts (`EndOfFileSpins`).
* If a message is read in pieces, both ends get to write and the turn-taking is gone; it is kept exactly
  as long as every read finds the whole message (`OneTokenIffWhole`, `FragmentsBreakTurns`).
* `atomic_dec_if_positive` also decrements the smallest int, and from there on 2^31 calls succeed
  (`PassesExactly`, `TicketsMatchDecrease`).
* The sequence lock accepts a torn read after exactly 2^32 writes (`TornReadAfterWrap`).
* `nRet` can mislead only for an event that is armed for both directions or reports nothing
  (`CloseDecision`); server connections never are.

## Model

| member | source | states |
|---|---|---|
| Safety.LoadBound | ListenThread.cpp:127-161 | in every reachable state no worker counts or holds more than ceil(maxclients / n) connections, although the scan's reads race with decrements |
| Dispatch.ShareIsCeiling | ListenThread.cpp:132-151 | the share of LoadBound is the least number per worker with which n workers can hold maxclients connections |
| Safety.NeverOverAdmits | ListenThread.cpp:132-151 | neither the counters nor the registered connections ever add up to more than maxclients |
| Safety.AdmissionLinearises | ListenThread.cpp:127-151 | an admission means the live sum was below maxclients when the scan ended, a rejection that it was exactly maxclients when the connection was accepted |
| Safety.ChoiceIsLeastLoaded | ListenThread.cpp:129-141 | when the scan is over the chosen counter is at most every value compared, for either operand order, and the sum variable lies in 1..maxclients+1 |
| Safety.TargetInRangeIffTwoWorkers | ListenThread.cpp:129-137 | in all runs the index `target` is in range during a scan exactly if there are at least two workers |
| Safety.OneThreadOverruns | main.cpp:306-318 | the failing input: a configuration with one thread is accepted, and the first connection sets the scan going with `target` past the end |
| Dispatch.CompareKeeps | ListenThread.cpp:136-140 | one comparison with its conditional replacement of `target` keeps the scan invariant, whichever operand was read first |
| Dispatch.Lower | TaskThread.cpp:97-97 | decrements of any counters at any point of AssignTask keep its invariant |
| Dispatch.ScanEnd | ListenThread.cpp:143-151 | at the admission test: rejected means all places were taken at the accept, admitted means room overall and on the chosen worker |
| Safety.WorkersGoOn | iEpoll.cpp:54-90 | in every reachable state a worker can wait, for any choice of the kernel, or go on, with either outcome of the call it is at |
| Safety.ListenerGoesOn | ListenThread.cpp:127-162 | in every reachable state the listener can go on: any free number may be accepted, every read of the scan is in range, the kernel may register or refuse |
| Safety.ExactAccounting | TaskThread.cpp:31-39 | a counter is the registrations plus one between del and dec minus one between add and increment; never below -1, never negative during a scan, exact between operations |
| Safety.Conservation | ListenThread.cpp:34-47 | accepted = rejected + add-failed + registered + torn down + being closed + at most one held; increments minus decrements is the sum of the counters |
| Safety.EveryDescriptorIsClosed | ListenThread.cpp:143-161 | every connection accepted is open or has been closed, never both; the listener has closed exactly the rejected ones, the workers exactly those torn down; the descriptors open are those registered, being closed, refused by epoll_ctl, or held by the listener |
| Safety.EventsAreLive | iEpoll.cpp:54-90 | every unprocessed event of a batch names a file still open under that number and still registered with that worker, and no other event of the batch names it |
| Safety.EveryEventSettled | iEpoll.cpp:47-93 | what epoll_wait has reported is, in order, the events dealt with, the one being handled and the rest of the batch; dealt with means closed by this very worker, as always when an error or hang-up was reported, re-armed by a mode change that succeeded, or left as it was by one that failed |
| Safety.OwnersAreUnique | iEpoll.cpp:95-130 | interest sets are disjoint, and the descriptor a worker is about to close still names the connection it handled |
| Safety.ClosedOnceByOwner | TaskThread.cpp:89-103 | no incarnation is closed twice; workers close only what was placed with them, the listener only what was placed nowhere |
| Safety.ClosedIsGone | TaskThread.cpp:93-95 | an incarnation that has been closed is registered nowhere any more, though its number may be |
| Ownership.CloseForgetsNothing | TaskThread.cpp:93-95 | close() in iClose hits the handled incarnation and drops no registration, because i_epoll_del has come first |
| Safety.DecisionIsNeverStale | iEpoll.cpp:58-88 | in every reachable state all connections of all workers are armed for exactly one direction; so iClose follows an event exactly if a handler of that event failed, whatever nRet held before |
| Safety.ModesAlternate | TaskThread.cpp:41-79 | the events of an incarnation that its worker has re-armed are about writing, reading, writing, ... in turn, and in every reachable state its mask is the set of flags their number calls for, written out: OUT, ERR, HUP, RDHUP, ET at first, then IN, ERR, HUP, ET and OUT, ERR, HUP, ET in turn |
| Safety.TroubleIsArmed | iEpoll.cpp:95-120 | every registered connection asks for errors and hang-ups, edge-triggered, at any time; for a half-close exactly until its first mode change that succeeds |
| Safety.TroubleIsServed | iEpoll.cpp:76-88 | a connection in such trouble is queued, reported or being handled, and an event fetched for it tells of the trouble; EveryEventSettled says that such an event ends in iClose |
| Safety.OneReportPerEdge | iEpoll.cpp:102-105 | a descriptor that epoll_wait has taken is queued again only by a registration, a mode change that succeeds or a condition that comes up |
| Epoll.AskedFor | iEpoll.cpp:95-185 | which flags i_epoll_add and i_epoll_change_mode ask for in each mode: the one or two directions, errors and hang-ups always, edge-triggering if wanted, half-closes only at the add |
| Epoll.CloseDecision | iEpoll.cpp:62-88 | for any event and any earlier nRet: the decision agrees with the event's own handlers except in two named cases |
| Decision.ChainStep | iEpoll.cpp:62-88 | the steps of the system through one event compute the handler chain of CloseDecision: nRet, the failures and the decision |
| Safety.NoLostWakeup | TaskThread.cpp:41-79 | in every reachable state a registered connection whose armed condition holds is queued, in the batch, or being handled and not yet re-armed, and queued once its worker waits; the one exception is a connection whose own last mode change has failed |
| Safety.NothingStuckWithoutFailure | TaskThread.cpp:55-57 | in a run in which no mode change fails there is no such exception, and no event has ended in a failed change |
| Safety.ModeChangeIsPossible | iEpoll.cpp:144-185 | a mode change always meets a registered descriptor |
| Safety.IgnoredFailureLosesEvents | TaskThread.cpp:55-57 | after a mode change an armed connection is served exactly if the change succeeded, or it was queued again already, or the condition it was armed for before no longer holds |
| Safety.LostWakeup | TaskThread.cpp:60-79 | a run, with one failed mode change, after which a connection that is writable and armed for writing is neither queued nor reported nor handled |
| Safety.AbandonedForGood | iEpoll.cpp:144-185 | a connection its worker has lost sight of stays registered and unserved over any run in which none of the conditions it is armed for comes up anew |
| Safety.CapacitySuffices | ListenThread.cpp:104-125 | with maxclients within n times the capacity every worker's registrations fit its event buffer and all fit the descriptor limit, in every reachable state |
| Capacity.CapacityIsLargest | ListenThread.cpp:117-124 | c connections per worker fit the limit exactly if c is at most GetWorkerCapacity; if not even the fixed descriptors fit, no number does and the capacity is not positive |
| RoundRobin.RoundRobinService | ListenThread.cpp:127-161 | in every run in which nobody leaves, connection k goes to worker 1, 0, 2, 3, ... in turn while k < maxclients and is rejected after; counters differ by at most one |
| Threads.Machine.constructor | ListenThread.cpp:63-85 | InitTaskThread yields n workers with zero counters, empty epolls and event buffers of the capacity |
| Threads.Machine.ShareKept | ListenThread.cpp:127-161 | the load bound, on the counter fields of the thread objects |
| Threads.ListenThread.Scan | ListenThread.cpp:129-141 | the loop of AssignTask under interference is a run of the system with the loop's locals as the system's; the counter of the target is at most every value compared, and it has room if the sum read allows an admission |
| Threads.ListenThread.AssignTask | ListenThread.cpp:127-162 | exactly one of: rejected, with all places taken at the accept, and then the descriptor has been closed by the listener; add failed, which is what the kernel answered, and the descriptor is left open; registered and counted with the target of the scan, which was least loaded and had room overall and within its share |
| Threads.ListenThread.Run | ListenThread.cpp:34-47 | for any arrivals and interference every arrival is accepted and disposed of exactly once (rejections, failed adds and increments add up to the arrivals, one placement per increment), and every counter is within its share |
| Threads.TaskThread.CallHandlers | iEpoll.cpp:62-81 | the handlers compute the handler chain on what recvn and sendn return: nRet is negative exactly if a handler of this event failed, and otherwise the connection is armed the other way round, unless the change was refused |
| Threads.TaskThread.HandleEvent | iEpoll.cpp:58-89 | afterwards this worker has closed this very connection, if a handler failed, or the connection is registered for the opposite of what the event was about, unless the kernel has refused that |
| Threads.TaskThread.IClose | TaskThread.cpp:89-103 | unregister, close, decrement, each under interference: the handled incarnation is closed by this worker and registered nowhere, and the counter is exact again |
| Threads.TaskThread.IEpollWait | iEpoll.cpp:47-93 | the event loop fetches the given number of batches; afterwards every event ever reported to this worker has been dealt with in order: connection closed by this worker, re-armed, or the change failed; and every connection is armed for what its re-armed events, taken in turn, call for |
| Transport.Stream.Sendn | iSocket.cpp:194-217 | the whole message is on the wire, or -1 and exactly the prefix the replies moved; gives up only at a reply that is neither progress nor an interruption; errno is whatever the thread had before |
| Transport.Stream.Recvn | iSocket.cpp:219-242 | returns the number of bytes read, which are the next of the wire, at the front of the buffer, with bytes arriving between the recv calls; how many each call moves is fixed by replies and arrivals; stops short only at a reply it does not go on from |
| Transport.EndOfFileSpins | iSocket.cpp:226-235 | whatever a recvn has done so far: at end of file it goes round again exactly if errno holds EINTR, however often the answer repeats; and errno does so exactly if it did at the call or a recv() of this call was interrupted |
| Transport.GoesOnExactly | iSocket.cpp:199-239 | sendn and recvn go on exactly while every reply moves bytes, is an interruption, or moves none with EINTR in errno; and then they have moved what the replies move |
| Transport.RecvnAtEndOfFile | iSocket.cpp:226-235 | the same of a whole recvn with its arrivals: answers of 0 end it at once with what it has, unless errno holds EINTR, and then they never do |
| Transport.RecvnDrains | iSocket.cpp:219-242 | if the replies only move bytes or interrupt, recvn stops when the buffer is full or nothing that has arrived is left, not before |
| Exchange.StreamFidelity | iSocket.cpp:194-242 | in every run and direction the bytes read are the first of the bytes sent, and those are the messages sent whole, in order, followed by at most one proper prefix of a message, after which the writer is closed and sends no more |
| Exchange.NeverDeadlocks | Test.cpp:42-83 | from server armed WRITE and client armed READ, while both are open some write, delivery or read is possible |
| Exchange.OneTokenIffWhole | Test.cpp:42-83 | there is exactly one turn token throughout exactly if every read empties the wire |
| Exchange.SendsAlternate | TaskThread.cpp:41-79 | with whole reads the completed sends strictly take turns, server first, and the reads return the messages sent, one each |
| Exchange.FragmentsBreakTurns | Test.cpp:46-57 | a run with a message read in two pieces, after which one end sends twice in a row |
| Handlers.Conversation.OnWritable | TaskThread.cpp:60-79 | iWrite with iClose on failure is one step of the conversation: the bytes the replies move, a whole message or else a proper prefix and the end closes |
| Handlers.Conversation.OnReadable | Test.cpp:42-60 | iRead with iClose on failure is an arrival and one step: the bytes that arrivals and replies move, at least one and the end turns to writing, or none and it closes; what recvn returned, the next bytes of the wire, is kept; for any errno before the call |
| Handlers.Conversation.Session | Test.cpp:37-83 | for any events, kernel replies, arrivals and errno values: every event that can occur at its turn is handled by exactly one write, read or close, of exactly the bytes that its replies and arrivals move, in order; the others leave the conversation alone |
| Handlers.Conversation.Faithfully | iSocket.cpp:194-242 | on the wires, flags and received data of the two ends, open or closed: the concatenated results of recvn are the first of what was sent, which is the messages sent whole and at most a proper prefix of one more; and something can happen next while both ends are open |
| EndToEnd.TransferIsDue | TaskThread.cpp:41-79 | in the joint system, when a worker calls recvn on a connection the server's end of the conversation is open and due to read, and due to write at sendn |
| EndToEnd.ConversationGoesOn | Test.cpp:42-83 | in every joint run in which no mode change of the connection is refused: if what the server's end waits for holds, the connection is queued, reported or being handled; and while both ends are open that is so, or the client can act, or bytes are on their way |
| CompareSwap.RefinesAtomicAddition | iAtomic.h:255-281 | for any threads and interleaving the counter is the initial value plus the logged operations, each finished call returned the value at its own place, and the operations each thread has begun are logged once in program order, but for the one under way |
| CompareSwap.AtomicCounter.constructor | iAtomic.h:238-238 | atomic_set: no thread has begun an operation, and the counter holds the initial value |
| CompareSwap.AtomicCounter.AtomicAdd | iAtomic.h:255-267 | on return the addition has just taken effect, once, and the result is the counter at that point |
| CompareSwap.AtomicCounter.AtomicSub | iAtomic.h:269-281 | on return the subtraction has just taken effect, once, and the result is the counter at that point |
| Reservation.TicketsMatchDecrease | iAtomic.h:642-663 | for any initial value: a non-negative counter stays so, the successful calls number its decrease and return initial-1, initial-2, ..., and calls are refused only at 0 or below; a negative counter is left alone, but the smallest int wraps and then counts down |
| Reservation.PassesExactly | iAtomic.h:650-653 | the loop goes on to the store exactly for positive counters and the smallest int |
| Reservation.ReservedCounter.AtomicDecIfPositive | iAtomic.h:646-663 | for any counter: a non-negative result is the new value of a decrement that has just happened; a negative one means the counter was found at 0 or below and is left alone, and is one less |
| SeqLock.AcceptedReadIsSnapshot | iAtomic.h:1079-1112 | with fewer than 2^32 writes in the window, during an accepted read no write was under way, the record stood still, and every word copied is that of the latest complete write |
| SeqLock.AcceptsExactly | iAtomic.h:1102-1112 | over any run: read_ok accepts exactly if the writes under way at read_begin or begun since are a multiple of 2^32 |
| SeqLock.GoodReadIsAccepted | iAtomic.h:1102-1112 | a read that no write overlaps is accepted |
| SeqLock.TornReadAfterWrap | iAtomic.h:1108-1112 | the bound is sharp: after exactly 2^32 writes a read of two words that never stood together is accepted |
| SeqLock.Guarded.BeginRead | iAtomic.h:1102-1105 | read_begin notes the current end |
| SeqLock.Guarded.CheckRead | iAtomic.h:1108-1112 | the comparison of the noted end with begin decides as stated, and acceptance gives the snapshot |
| ConfigText.ShownIsRead | main.cpp:139-186 | a line showing a name and a value, with any blanks around them, is read as that pair |
| ConfigText.ReadIsShown | main.cpp:139-186 | conversely only such lines yield a setting, and the one they show |
| ConfigText.IgnoredExactly | main.cpp:149-152 | the lines passed over are exactly those with, behind blanks, a # or at most two characters |
| ConfigText.MalformedExactly | main.cpp:154-184 | the lines refused are exactly those that are neither to be passed over nor show a setting |
| ConfigText.NameAloneIsMalformed | main.cpp:154-184 | a name with nothing but blanks behind it is refused, unless it is no longer than two characters |
| ConfigText.SettingLine | main.cpp:188-323 | a line under 1023 characters that shows a setting has exactly the effect of that setting on the load; numbers are read into an int, and outside its range atoi may yield any int |
| ConfigText.IgnoredLine | main.cpp:149-152 | such a line of a file has no effect on the load |
| ConfigText.MalformedLine | main.cpp:154-184 | a line that is refused stops the load with -1 |
| ConfigText.LongLineIsCut | main.cpp:139-139 | a line is cut after 1023 characters and what is left is read as another line |
| ConfigText.NumberIs | main.cpp:214-214 | atoi: white space, an optional sign, then the value of the digits up to the first other character, 0 if there are none |
| ConfigText.LoadAppend | main.cpp:139-332 | loading is a fold over the lines that stops at the first bad one |
| ConfigText.AcceptedIsSound | main.cpp:114-332 | if the file is accepted: port in 0..65535, maxclients and maxthreads at least 1, timeout not negative, a known log level |
| Settings.OnlyItsOwnField | main.cpp:188-323 | a setting, its name in any case, changes at most the one field its name stands for; what becomes of that field and whether the setting is accepted depends on no other field |
| Settings.ReadLoosely | main.cpp:188-323 | names are recognised exactly if they are the same but for capitals; a name that stands for no field is passed over; a number is accepted exactly if the server can run with the result |
| Settings.WordsAreRead | main.cpp:190-292 | yes and no, the four log levels and stdout are read in any case, each with its meaning; stdout is accepted whatever the files and changes nothing; other words are refused with nothing changed, or are file names that must be possible to open |
| Settings.NegativeIsRefused | main.cpp:214-318 | no negative number is accepted |
| Settings.LinesCommute | main.cpp:139-323 | two acceptable lines with different names may change places without changing the result of the load |
| Settings.RenderedIsLoaded | main.cpp:114-332 | a configuration written to a file, its fields in any order and comments and empty lines anywhere, is loaded back exactly; fields that are as before already may be left out |
| Settings.LimitsRoundTrip | main.cpp:212-318 | port, maxclients and maxthreads, up to the largest int, written to a file in decimal are loaded back exactly |
| Settings.EmptyFile | main.cpp:102-112 | the values the server runs with if the file says nothing |
| ConfigLoader.FGets | main.cpp:139-139 | one fgets leaves the next line, or its first 1023 characters, as a C string in the buffer |
| ConfigLoader.ParseLine | main.cpp:141-186 | cutting the buffer in place yields the two C strings that the line means, or the verdict skip or missing |
| ConfigLoader.Server.LoadServerConfig | main.cpp:114-332 | the fields and the return value are those of the fold over the text |

## Left out

- Safety.NoLostWakeup: excepts connections whose last mode change has failed, because the handlers ignore that; IgnoredFailureLosesEvents says exactly what a failure costs.
- Threads.ListenThread.AssignTask: needs at least two workers; with one it reads past the deque (TargetInRangeIffTwoWorkers).
- Threads.TaskThread.IRead: takes the result of recvn as any int; the bytes are modelled in Transport and Handlers. IWrite likewise for sendn.
- Threads.TaskThread.IEpollWait: `shutdown` is a number of rounds after which the loop ends; ListenThread.Run likewise ends with its list of arrivals.
- Server.Next: counters are unbounded ints; LoadBound and ChoiceIsLeastLoaded keep all of them within -1..maxclients+1.
- ConfigText.Atoi: a number outside int yields an arbitrary int, given as a parameter, as C leaves it open.
- Handlers.Conversation.Session: a handler's own send and recv calls are not interleaved with those of the other end; what has been sent but not arrived is invisible to the reader, and it arrives in pieces during a recvn.
- EndToEnd.ConversationGoesOn: that the socket shows as writable, and as readable when bytes are there, is a premise about the kernel; the client's own epoll loop is not part of the joint system.
- Handlers.Conversation.OnWritable: message text is any non-empty byte string under 1024; the client's one-second pause is not modelled.
- Accepted connections whose epoll_ctl ADD failed stay open and uncounted, as in the code; the limits are about registered connections.
- Socket setup (Bind, Listen, Connect, socket options): only "accept yields a number that is not open" is kept.
- Logging and its mutex, daemonising, pid file, option parsing, time of day: input and output.
- Signal handling, shutdown of the threads and deletion of the objects: process teardown.
- iThread: thin wrappers around pthreads.
- Memory barriers and weak memory: every instruction or locked operation is one atomic step.
- iTimeout and maxidletime: the handler does nothing and the limit is never enforced.
- The return conventions of atomic_inc_and_test, which differ between architectures, and the other operations of iAtomic.h.
- Whether a log file can be opened, and whether the configuration file can: parameters.
