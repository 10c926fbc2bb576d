# A verified model of a layered network stack

The repository builds a toy network stack twice. `PerProtocol.h` is a pipeline: one thread per
protocol and direction, joined by pipes and mutexes. `PerMessage.h` is a set of nested calls, run
by a thread pool, one job per datagram. Both sit on a chunked message buffer
(`ourLibs/Message.h`), and the pool comes with a timed event scheduler (`newLibs/`). This project
models all five and proves what they promise for every input, every run and every interleaving,
and, where the code does not keep a promise, exactly when it does.

`dafny verify dfyconfig.toml` checks everything.

## The files

| files | what they model |
|---|---|
| `Ints.dfy`, `Headers.dfy`, `Stack.dfy` | machine integers; header records as bytes; the frame shape; both receivers as functions |
| `Message.dfy` | the chunked message, as a class |
| `PerMessage.dfy`, `MessagePool.dfy` | the nested calls, on message objects; the same driven by the pool |
| `PerProtocolStages.dfy` | the sixteen stage bodies, on message objects |
| `Pipeline.dfy` and `Pipeline*.dfy` | the pipeline as a transition system: invariant, progress, order, sides, delivery, capacity, overload |
| `ThreadPool.dfy` | the pool: critical sections as a class, interleavings as a transition system |
| `EventTime.dfy`, `EventHeap.dfy`, `Scheduler.dfy`, `SchedulerRuns.dfy` | the scheduler: deadline arithmetic, heap, critical sections, interleavings |
| `SchedulerProgress.dfy` | when the dispatcher fires and when it leaves, that it empties the queue, and what a call schedules |
| `SchedulerCapacity.dfy`, `SchedulerInversion.dfy`, `SchedulerPool.dfy` | runs that attain the scheduler's bounds; the scheduler with the pool it owns |
| `Counter.dfy` | the unlocked delivery counter |
| `Sums.dfy`, `Seqs.dfy` | sums and sequences |

## How the pipeline is modelled

* A stage unlocks its own mutex, reads its pipe and locks the mutex again (`PerProtocol.h:490-494`),
  so while it works and writes it holds the mutex of its own input pipe, and takes the mutex of the
  next pipe on top of it. A stage is therefore a program counter: parked at the read, wanting its
  own mutex, holding it, wanting the next one, holding it, having written, closing. Locks, pipes,
  reads, writes and the work in between are separate steps, and any thread may take the next step.
* The first thing a stage does is unlock a mutex it never took (`PerProtocol.h:423`). The model
  starts after that: every stage parked at its first read, all mutexes free.
* Writing one `pipe_unit` is one step. POSIX.1-2008 makes a `write()` of at most PIPE_BUF bytes
  atomic. A pipe holds `cap` units, and a write to a full pipe waits.
* The socket and the wire are one FIFO that may lose any datagram at any time. One direction of a
  conversation is modelled: the eight sending stages of one host and the eight receiving stages and
  the socket reader of the other. The other direction is a copy that shares nothing with it.
* Clients call `msg_send`, or lock and write an application's pipe themselves as `SpeedTest.cc`
  does, or are senders of `PerMessage.h`, each of whose calls puts a whole well-formed frame on the
  wire (`SpeedTest.cc:104-118`). There can be any number of each. `remote` is the set of those of the
  last kind. They join the path in the middle, so messages keep their order among the local clients and
  among the remote ones, and each client's own order is kept in either case.
* A `Unit` carries its origin (client, application, payload) for the proofs. No step looks at it.
* The results about runs are for submissions within the payload limit (960 bytes, 956 for RDP; any
  protocol id). `PipelineInvariant.EthSendCrashes` says that this is exactly the traffic on which the
  Ethernet stage does not overrun its buffer.
* The load of the clients is the number of their submissions, but for those `msg_send` refuses.
* Header fields that the code leaves unset hold arbitrary bytes, chosen anew for every header.

Integers in headers are 32-bit, two's complement, least significant byte first. `size_t` arithmetic
in `Message` wraps at 2^64 and the comparison of a `size_t` with a negative `int` is modelled as
C++ makes it. The scheduler's heap follows the contracts of section 25.4.6 of ISO/IEC 14882:2011.

## What the code does not do

Each of these is proved, with the exact condition.

* **A pipe can clog.** A stage that has read a unit wants its mutex; a writer holds that mutex and
  waits for room in the stage's full pipe. This is the only way the pipeline can stop with work
  left, and it is permanent. It can happen if and only if the load is at least `cap + 2` messages,
  whoever sends them to whom; and everything is always delivered if and only if the load is at most
  `cap + 1`.
* **`msgSplit` gives the second message a wrong length** unless the cut lies within the first chunk
  that is not empty: line 204 already takes whole chunks off `m_MsgLen` before line 210 takes off
  `len`. The second length is short by all chunks before the one that is cut. The bytes of both halves
  are right, and joining them again restores the bytes.
* **Deadlines are not normalised** (`newLibs/eventscheduler.h:40-41`), so the dispatcher may fire an
  event before one that is due earlier. It does so if and only if the other deadline has exactly one
  second more and over 10^9 nanoseconds less (with negative timeouts also two seconds and
  2 * 10^9). The event is then up to 998,999,999 ns too early (1,997,999,999 ns), and runs attain both
  bounds. The carry in lines 36-39 never happens, because the nanoseconds of a timeout stay below 10^9.
* **`maxEvents` can be exceeded** by one less than the number of concurrent callers, since the check
  is made without the lock. It is a limit if and only if there is at most one caller or it is 0.
* **The pool's shutdown loses a wakeup** when a worker has tested `terminate` and not yet taken the
  lock. The number of workers that sleep forever, and which jobs are dropped, is exact.
* **`mCounter` is sound only from a clean reset**, without an increment under way that has read a
  value above 0. It loses increments, and it can fall back as far as it has come.
* **The receivers differ** on frames that name a foreign protocol to Ethernet: `PerMessage.h` prints a
  complaint and goes on to IP all the same, `PerProtocol.h` drops the message. They also differ on
  frames longer than 1024 bytes whose headers name an application. On all other bytes they agree.

## Model

| member | source | states |
|---|---|---|
| `Headers.Layout` | Headers.h:13-59 | a record is `hlp` in four bytes, least significant first, then `otherInfo`, then `length` in four bytes |
| `Headers.DecodeEncode` | Headers.h:13-59 | reading a header record back gives the record that was written, for every `hlp`, `length` and filler |
| `Headers.EncodeDecode` | Headers.h:13-59 | every byte string of header size is the image of exactly the record read from it |
| `Stack.AddHeaderCarries` | PerMessage.h:91-103 | adding the header of the next layer turns n well-formed headers around a payload into n + 1 |
| `Stack.CarriesSize` | PerMessage.h:208-217 | a message under n headers has the payload's length plus the sizes of these headers |
| `Stack.FrameFits` | PerProtocol.h:432-440 | a frame fits the 1024-byte buffer if and only if the payload is at most 960 bytes, 956 for RDP |
| `Stack.StageUp` | PerProtocol.h:463-480 | a receiving stage that meets its own header hands exactly the rest to exactly the stage of the layer inside |
| `Stack.ClimbDelivers` | PerProtocol.h:520-727 | the whole receiving chain of PerProtocol.h takes a well-formed message of any level to its application |
| `Stack.ReceiversDeliver` | SpeedTest.cc:104-118 | every well-formed frame, whichever stack built it and whatever its unset fields hold, is delivered by both receivers with exactly its payload to exactly its application |
| `Stack.DeliveredIsTail` | PerProtocol.h:447-727 | on arbitrary bytes, what an application gets is a tail of what was received |
| `Stack.ForeignFrames` | PerMessage.h:113-117 | with another Ethernet `hlp` PerProtocol.h rejects the frame there and PerMessage.h never does the same |
| `Stack.AddresseeDecides` | PerMessage.h:108-206 | the receiver of PerMessage.h hands a frame to the application its IP and transport headers name, and delivers no other frame |
| `Stack.RejectsUnnamed` | PerProtocol.h:520-727 | a long frame is rejected by PerProtocol.h if and only if its IP and transport headers name no application |
| `Stack.LongFrames` | PerProtocol.h:315-320 | beyond 1024 bytes the receivers agree if and only if the IP and transport headers name no application |
| `Stack.ReceiversAgree` | PerMessage.h:108-206 | on every byte string of any length: the exact condition on length and header fields under which both receivers do the same |
| `Messages.Message.Empty` | ourLibs/Message.h:39-43 | an empty message |
| `Messages.Message.constructor` | ourLibs/Message.h:45-50 | a message of one chunk stands for the first `len` bytes of the buffer |
| `Messages.Message.MsgAddHdr` | ourLibs/Message.h:57-63 | the header's bytes come before the old text, as a chunk of their own |
| `Messages.Message.MsgStripHdr` | ourLibs/Message.h:65-142 | NULL if and only if `len` is zero, negative or beyond the message, and then nothing changes; otherwise take and drop of the text, in all three branches and for any chunking, and the length field stays the sum of the chunks |
| `Messages.Message.StripSeveral` | ourLibs/Message.h:100-140 | the loop over several chunks splits the text after `len` bytes |
| `Messages.Message.MsgSplit` | ourLibs/Message.h:144-217 | take and drop of the text; the first length is right, the second is as the code computes it, and right if and only if the cut is within the first non-empty chunk |
| `Messages.Message.CutInLoop` | ourLibs/Message.h:166-207 | the loop splits the text after `len` bytes and takes every whole chunk it moves off the length |
| `Messages.SecondLengthRight` | ourLibs/Message.h:204-210 | the second length equals what is left if and only if the cut is within the first non-empty chunk, for every chunk list and cut |
| `Messages.CutChunk` | ourLibs/Message.h:170-187 | every cut lies in exactly one chunk |
| `Messages.SecondLengthShort` | ourLibs/Message.h:204-210 | the second length is short by the sum of all chunks before the one that is cut, modulo 2^64 |
| `Messages.SecondLengthFour` | ourLibs/Message.h:204-210 | chunks of 24, 4, 5 and 100 bytes cut after 50: the second half of 83 bytes claims 50 |
| `Messages.SecondLengthWrong` | ourLibs/Message.h:204-210 | a message of 4 + 5 bytes split after 6 gives a second length of 2^64 - 1 |
| `Messages.Message.MsgJoin` | ourLibs/Message.h:219-234 | the text of the second message is appended and that message is left empty |
| `Messages.Message.SplitAndJoin` | ourLibs/Message.h:144-234 | split then join is the identity on the text, and on the length if and only if the cut is within the first non-empty chunk |
| `Messages.Message.MsgFlat` | ourLibs/Message.h:242-258 | the text is written to the front of the buffer and the rest of the buffer is untouched |
| `PerMessageStack.AppFrameCarries` | PerMessage.h:208-250 | the frame built by the four nested sends is the payload under the four headers of its application |
| `PerMessageStack.FrameLayout` | PerMessage.h:91-250 | the frame byte by byte: the ids 2, 3 or 4, and 5 to 8 at the front of the Ethernet, IP and transport records, the Ethernet filler, the caller's protocol in the application's record, every length, the payload at the end |
| `PerMessageStack.FillerLayout` | PerMessage.h:97 | the filler of the Ethernet record is eight times the letter f |
| `PerMessageStack.PerMessage.PushHeader` | PerMessage.h:120-126 | one layer's header is put in front, its `length` counting what was there |
| `PerMessageStack.PerMessage.EthernetSend` | PerMessage.h:91-106 | exactly one datagram is sent, the message under an Ethernet header |
| `PerMessageStack.PerMessage.IpSend` | PerMessage.h:120-128 | the same under IP and Ethernet, with IP named to Ethernet |
| `PerMessageStack.PerMessage.TransportSend` | PerMessage.h:149-186 | the same under TCP or UDP, with the right one named to IP |
| `PerMessageStack.PerMessage.AppSend` | PerMessage.h:208-250 | exactly one datagram is sent, the frame of its application with the caller's protocol in the innermost header; it is well-formed and fits the buffer, and both receivers deliver exactly the payload to exactly the application |
| `PerMessageStack.PerMessage.AppRecv` | PerMessage.h:252-294 | the application gets what is left after its header, and counts it |
| `PerMessageStack.PerMessage.TransportRecv` | PerMessage.h:160-206 | demultiplexing by `hlp`, complaint included; the counter rises exactly on delivery |
| `PerMessageStack.PerMessage.IpRecv` | PerMessage.h:130-147 | the same one layer below |
| `PerMessageStack.PerMessage.EthernetRecv` | PerMessage.h:108-118 | the same for Ethernet, which goes on to IP whatever its `hlp` |
| `PerMessageStack.PerMessage.Datagram` | PerMessage.h:77-89 | a datagram of any bytes has the outcome of the receiver function, after being cut to 4096 bytes |
| `MessagePool.OutcomesPermute` | PerMessage.h:77-89 | datagrams handled in another order have the same outcomes in another order |
| `MessagePool.LettersAreDelivered` | PerMessage.h:108-294 | what a list of datagrams delivers can be read off the bytes of those whose headers name an application and whose message fits |
| `MessagePool.WellFormedIsLetter` | PerMessage.h:108-294 | a well-formed datagram is one of these, with exactly its payload |
| `MessagePool.DeliversAtEveryMoment` | PerMessage.h:77-118 | for any datagrams at all, in every state of every run: the outcomes of those finished, running and queued are the outcomes of those received, as a multiset, and the delivered ones among them are the letters received |
| `MessagePool.DeliversPermutation` | PerMessage.h:77-118 | for any datagrams at all, once the workers rest, a permutation of the letters received has been delivered |
| `PerProtocolStages.StageBody` | PerProtocol.h:418-991 | each stage's loop body, on a message object of any chunking, has the effect the transition system gives it |
| `PerProtocolStages.PushBody` | PerProtocol.h:500-505 | a sending stage puts its header in front of the message |
| `PerProtocolStages.Transmit` | PerProtocol.h:438-443 | what goes on the wire is exactly the message; a message over 1024 bytes overruns the buffer |
| `PerProtocolStages.Demultiplex` | PerProtocol.h:463-480 | strip and branch on `hlp`, as the transition system does for every filler |
| `PerProtocolStages.Consume` | PerProtocol.h:782-791 | the application gets what is left after its header; the newline is in bounds if and only if that is shorter than 1024 bytes |
| `PipelineInvariant.InitialInv` | PerProtocol.h:106-290 | the invariant holds when every stage is parked at its first read |
| `PipelineInvariant.MutualExclusion` | PerProtocol.h:494-516 | no mutex is held by two threads |
| `PipelineInvariant.SendStageWork` | PerProtocol.h:484-518 | a sending stage turns a unit that belongs in its pipe into one that belongs in the next pipe of its application |
| `PipelineInvariant.ReceiveStageWork` | PerProtocol.h:520-563 | a receiving stage does the same upwards, or hands exactly the payload to the application |
| `PipelineInvariant.StageWorkOk` | PerProtocol.h:447-727 | no stage crashes or takes an "invalid protocol" branch on a unit that belongs in its pipe, whatever the fillers |
| `PipelineInvariant.EthSendCrashes` | PerProtocol.h:438-440 | the send buffer is overrun if and only if the payload is over the limit |
| `Pipeline.TargetRight` | PerProtocol.h:334-391 | msg_send takes exactly the ids 5 to 8, each to the pipe of that number less 5, which is that of the application with this id |
| `PipelineInvariant.SubmissionOk` | PerProtocol.h:334-391 | what a client takes up - a message for a pipe, a frame for the wire, or one that is refused - is in the place of the application its protocol id, pipe or frame says |
| `PipelineInvariant.WireNamesApplication` | PerProtocol.h:565-682 | every frame on the wire has the protocol id of its message's application in its transport header, and is addressed to it alone |
| `PipelineInvariant.WireFramesInterop` | SpeedTest.cc:104-118 | every frame on the wire in a reachable state is delivered rightly by the receiver of PerMessage.h too |
| `PipelineInvariant.NextInv` | PerProtocol.h:305-991 | every step of every thread, and every loss, keeps locks exclusive, pipes within capacity and every unit under exactly the headers of its place |
| `PipelineInvariant.RunInv` | PerProtocol.h:305-991 | so does every run, and nothing is ever rejected or crashes |
| `PipelineProgress.HolderWaitsHigher` | PerProtocol.h:494-516 | whoever holds a mutex waits, if at all, only for one further down the path |
| `PipelineProgress.Progress` | PerProtocol.h:484-563 | deadlock freedom: with work left and no clogged pipe, some thread can step |
| `PipelineProgress.StuckIffIdle` | PerProtocol.h:484-563 | a state where no thread can step has no work left if and only if no pipe is clogged |
| `PipelineProgress.CloggedForever` | PerProtocol.h:490-514 | a clogged pipe stays clogged whatever the other threads do |
| `PipelineProgress.CloggedRun` | PerProtocol.h:490-514 | no run from a clogged state ever finishes the work |
| `PipelineProgress.NextDecreases` | PerProtocol.h:305-991 | every step lowers a natural number |
| `PipelineProgress.RunsEnd` | PerProtocol.h:305-991 | every run ends, within a bound that its first state gives |
| `PipelineOrder.MoveKeepsOrder` | PerProtocol.h:507-516 | a message passed to the next thread of its path keeps its place in the order of its application, and that of all others |
| `PipelineOrder.WriteJourney` | PerProtocol.h:334-391 | a write changes the order only when a client makes it, and then it adds at the end |
| `PipelineOrder.WorkJourney` | PerProtocol.h:729-793 | a stage's work leaves delivered followed by on-the-way as it was, also when it delivers or sends on the wire |
| `PipelineSides.InjectJourney` | SpeedTest.cc:104-118 | a frame of PerMessage.h comes before exactly the messages still on the send path |
| `PipelineSides.NextSources` | SpeedTest.cc:104-118 | every step keeps it so that every message on the path comes from a client, and none on the send path from a remote one |
| `PipelineSides.NextSide` | PerProtocol.h:305-991 | every step without loss leaves the order of each side as it was and adds at its end what is submitted there |
| `PipelineSides.NextJourney` | PerProtocol.h:305-991 | without new frames on the wire, this is one order for all clients |
| `PipelineSides.LoseJourney` | PerProtocol.h:442-443 | a loss takes at most one message out of the order and moves none |
| `PipelineDelivery.LosslessOrder` | PerProtocol.h:393-991 | in every state of a lossless run, per application and side: delivered, followed by what is on its way in path order, is what was submitted |
| `PipelineDelivery.LossyOrder` | PerProtocol.h:393-991 | with losses it is a subsequence of what was submitted |
| `PipelineDelivery.DeliveredInOrder` | PerProtocol.h:393-991 | so an application has received from each side a subsequence of its submissions at any moment, and a prefix if nothing was lost; without remote clients this is the order of all submissions |
| `PipelineDelivery.ProgramKept` | SpeedTest.cc:183-265 | what a client has submitted followed by what its program still has to submit never changes |
| `PipelineDelivery.ProgramSplit` | SpeedTest.cc:183-265 | at every moment of a lossless run, of each client's program: delivered, on the way and still to come are the whole, in program order |
| `PipelineDelivery.EverythingDelivered` | PerProtocol.h:305-991 | a lossless run that cannot go on, with no pipe clogged, has delivered to each application exactly what each client's program sends it - by protocol id, pipe or frame - in program order |
| `PipelineDelivery.MsgSendDelivered` | PerProtocol.h:334-391 | a single msg_send with id 5 to 8 has then arrived at the application of that number less 5 and nowhere else |
| `PipelineDelivery.CloggedLosesMessages` | PerProtocol.h:490-514 | with a clogged pipe some client's program has not been delivered completely |
| `PipelineCapacity.CloggedOutstanding` | PerProtocol.h:490-514 | a clogged pipe takes at least `cap + 2` messages under way |
| `PipelineCapacity.ProgressWithinCapacity` | PerProtocol.h:484-563 | in every reachable state with work left and at most `cap + 1` messages under way, some thread can step |
| `PipelineCapacity.LightLoadDelivered` | PerProtocol.h:305-991 | a lossless run that cannot go on with at most `cap + 1` messages under way has delivered everything, however much was submitted |
| `PipelineCapacity.NeverClogged` | PerProtocol.h:490-514 | with a load of at most `cap + 1` messages no run clogs a pipe |
| `PipelineCapacity.SmallLoadDelivered` | PerProtocol.h:305-991 | such a load is delivered completely under every schedule |
| `PipelineOverload.SendProgress` | PerProtocol.h:484-518 | whatever is on the wire, while no pipe is clogged the sending side alone can go on until all is sent |
| `PipelineOverload.Drain` | PerProtocol.h:393-445 | letting it run brings every message onto the wire, unless a pipe clogs on the way |
| `PipelineOverload.CanClog` | PerProtocol.h:490-514 | every load of at least `cap + 2` messages, from whatever clients to whatever applications, has a lossless run that clogs a pipe |
| `PipelineOverload.ClogsIff` | PerProtocol.h:490-514 | some run clogs a pipe if and only if the load is at least `cap + 2` |
| `PipelineOverload.DeliversIff` | PerProtocol.h:305-991 | every lossless run that has ended has delivered every client's program completely and in order, if and only if the load is at most `cap + 1` |
| `ThreadPools.ThreadPool.constructor` | newLibs/threadpool.cpp:8-15 | a new pool shows the initial state, all threads available |
| `ThreadPools.ThreadPool.DispatchThread` | newLibs/threadpool.cpp:31-39 | the job goes to the end of the list; the pool's fields show the state after a dispatch step |
| `ThreadPools.ThreadPool.ThreadAvail` | newLibs/threadpool.cpp:41-47 | true if and only if some worker is neither running a job nor about to give itself back |
| `ThreadPools.ThreadPool.Take` | newLibs/threadpool.cpp:56-69 | a worker takes the oldest job, or waits if and only if there is none; the fields show the state after that step |
| `ThreadPools.ThreadPool.Return` | newLibs/threadpool.cpp:72-74 | the fields show the state after a worker gives itself back |
| `ThreadPools.ThreadPool.Shutdown` | newLibs/threadpool.cpp:18-21 | the fields show the state after termination |
| `ThreadPools.NextFifo` | newLibs/threadpool.cpp:31-69 | jobs started, followed by the queue, equal jobs dispatched, after every step |
| `ThreadPools.NextAvailable` | newLibs/threadpool.cpp:65-74 | available threads plus workers between take and give-back stay constant |
| `ThreadPools.NextBookkeeping` | newLibs/threadpool.cpp:31-79 | order, conservation and counting are kept by every step of any number of workers and dispatchers |
| `ThreadPools.NothingLost` | newLibs/threadpool.cpp:31-79 | finished, running and queued jobs are together the dispatched ones, each as often |
| `ThreadPools.NextWorkConserving` | newLibs/threadpool.cpp:31-63 | no lost wakeup: before termination, while a worker waits, queued jobs do not outnumber awake idle workers, spurious wakeups included |
| `ThreadPools.DispatchWakesOne` | newLibs/threadpool.cpp:36 | a dispatch wakes exactly one waiting worker, if there is one |
| `ThreadPools.RunInv` | newLibs/threadpool.cpp:31-79 | all of this in every state of every run |
| `ThreadPools.WorkersRest` | newLibs/threadpool.cpp:50-80 | left alone, workers come to rest after a bounded number of steps |
| `ThreadPools.RestMeansDone` | newLibs/threadpool.cpp:50-80 | at rest and before termination every dispatched job has been run to its end exactly once |
| `ThreadPools.ShutdownOutcome` | newLibs/threadpool.cpp:17-28 | after termination, however the workers go on: the exact number that sleep forever and of jobs dropped; the joins return if and only if no more workers were between test and lock than jobs queued |
| `ThreadPools.ShutdownSpurious` | newLibs/threadpool.cpp:17-28 | a spurious wakeup during shutdown saves no job |
| `ThreadPools.ShutdownHangs` | newLibs/threadpool.cpp:53-61 | a run of one worker and no job that never ends |
| `EventTime.DeadlineExact` | newLibs/eventscheduler.h:33-41 | the deadline is exactly `timeout` milliseconds after the clock reading, normalised or not, negative timeouts included |
| `EventTime.DeadlineSplit` | newLibs/eventscheduler.h:33-41 | the seconds added are the timeout's whole seconds, rounded towards zero, and its rest is added to the nanoseconds |
| `EventTime.DeadlineNoCarry` | newLibs/eventscheduler.h:33-41 | what is added to seconds and to nanoseconds does not depend on the clock: nothing is carried over |
| `EventTime.DeadlineNormalised` | newLibs/eventscheduler.h:33-41 | for timeouts that are not negative, a deadline is normalised if and only if the clock's nanoseconds and the timeout's rest stay below 10^9 |
| `EventTime.DeadlineRange` | newLibs/eventscheduler.h:33-41 | the range of its nanoseconds, by the sign of the timeout |
| `EventTime.DifferenceExact` | newLibs/eventscheduler.cpp:61 | the dispatcher's difference is the difference of the instants |
| `EventTime.NormalisedExact` | newLibs/eventscheduler.h:52-64 | with normalised deadlines the comparator is the order of instants |
| `EventTime.InversionBound` | newLibs/eventscheduler.h:52-64 | how far the comparator can be wrong, from the ranges of the nanoseconds |
| `EventTime.InversionExact` | newLibs/eventscheduler.h:52-64 | the comparator is wrong about two deadlines if and only if the later one has one second less and over 10^9 nanoseconds more, or, with a negative timeout, two and over 2 * 10^9 |
| `EventTime.InversionAttained` | newLibs/eventscheduler.h:32-64 | two events for which it is wrong by 998,999,999 ns |
| `EventHeap.FrontIsEarliest` | newLibs/eventscheduler.cpp:55 | the front of a heap is later than no element |
| `EventHeap.PushHeap` | newLibs/eventscheduler.cpp:37 | a heap with an element added at the end becomes a heap of the same elements |
| `EventHeap.SiftDown` | newLibs/eventscheduler.cpp:56 | an element over two heaps finds its place, and no element is lost |
| `EventHeap.PopHeap` | newLibs/eventscheduler.cpp:56 | the front goes to the back, the others form a heap, and no element is lost |
| `EventHeap.MakeHeap` | newLibs/eventscheduler.cpp:85 | any vector becomes a heap of the same elements |
| `Scheduler.EventScheduler.constructor` | newLibs/eventscheduler.cpp:8-17 | an empty, valid scheduler |
| `Scheduler.EventScheduler.EventSchedule` | newLibs/eventscheduler.cpp:28-44 | -1 and no change if and only if it is full; otherwise a fresh id and exactly this event more in the heap; a single caller never exceeds `maxEvents` |
| `Scheduler.EventScheduler.Insert` | newLibs/eventscheduler.cpp:34-39 | the critical section keeps heap and count and adds exactly one event |
| `Scheduler.EventScheduler.Execute` | newLibs/eventscheduler.cpp:51-74 | one round waits and loses nothing, or removes exactly the front if it is due, which is later than nothing it leaves |
| `Scheduler.EventScheduler.EventCancel` | newLibs/eventscheduler.cpp:80-92 | removes exactly the first event with the id, or changes nothing, and keeps heap and count |
| `Scheduler.EventScheduler.Terminate` | newLibs/eventscheduler.cpp:19-23 | only the flag is set |
| `SchedulerRuns.NextInv` | newLibs/eventscheduler.cpp:28-92 | every step of callers, cancellers, dispatcher and destructor keeps the queue a heap, the count its size, and every event in as many places as it was made |
| `SchedulerRuns.RunInv` | newLibs/eventscheduler.cpp:28-92 | so does every run |
| `SchedulerRuns.ExactlyOnePlace` | newLibs/eventscheduler.cpp:28-92 | in every reachable state every id given out belongs to one event that is under way, queued, fired or cancelled, in exactly one of these, once |
| `SchedulerRuns.NothingElse` | newLibs/eventscheduler.cpp:28-92 | nothing else is queued, fired or cancelled |
| `SchedulerRuns.NeverEarly` | newLibs/eventscheduler.cpp:58-73 | every fired event has a clock reading at or past the time it was scheduled plus its timeout |
| `SchedulerRuns.FiresNearlyEarliest` | newLibs/eventscheduler.cpp:54-73 | in every run, against every event left in the queue: the fired event is due later if and only if the deadlines are inverted, then by at most 998,999,999 ns (1,997,999,999 ns for a negative timeout), and never if both are normalised |
| `SchedulerInversion.InversionRun` | newLibs/eventscheduler.cpp:54-73 | runs that fire an event while another, due 998,999,999 ns to 1,997,999,999 ns earlier, waits in the queue |
| `SchedulerRuns.LeavesEmpty` | newLibs/eventscheduler.cpp:50 | the loop test lets the dispatcher leave only after termination and with nothing queued |
| `SchedulerProgress.FinishedTerminated` | newLibs/eventscheduler.cpp:50-75 | in every run the dispatcher has left its loop only if `terminate` is set |
| `SchedulerProgress.FinishedEmpty` | newLibs/eventscheduler.cpp:19-78 | in every run, with no caller under way at termination and none later, it has left only with nothing queued |
| `SchedulerProgress.FiresIffDue` | newLibs/eventscheduler.cpp:54-73 | a round fires the front of the queue if and only if the clock has reached its deadline |
| `SchedulerProgress.DispatcherCanStep` | newLibs/eventscheduler.cpp:50-75 | the dispatcher is never blocked until it has left its loop |
| `SchedulerProgress.DrainsInTime` | newLibs/eventscheduler.cpp:50-75 | after termination, with the clock past every deadline, every run of the dispatcher's own ends within a bound |
| `SchedulerProgress.NothingStuck` | newLibs/eventscheduler.cpp:46-75 | in every run, with the clock past every deadline, the dispatcher on its own can go on until every queued event has been dispatched |
| `SchedulerProgress.ShutsDown` | newLibs/eventscheduler.cpp:19-24 | in every run, with no caller under way at termination, it can then also leave its loop, with every queued event dispatched |
| `SchedulerProgress.CallSchedules` | newLibs/eventscheduler.cpp:28-40 | a call that finds room queues an event with its job, a fresh id and the deadline of its timeout, whatever other threads do between its steps |
| `SchedulerProgress.CallRefused` | newLibs/eventscheduler.cpp:28-43 | a call changes nothing if and only if the limit is reached |
| `SchedulerRuns.AllDone` | newLibs/eventscheduler.cpp:19-92 | from there, without later scheduling, every event ever made has been dispatched or cancelled, for good |
| `SchedulerRuns.Capacity` | newLibs/eventscheduler.cpp:29-35 | k concurrent callers never bring `numEvents` above `maxEvents` + k - 1, in any run |
| `SchedulerCapacity.BoundAttained` | newLibs/eventscheduler.cpp:29-35 | for every positive limit and every k there is a run that reaches this |
| `SchedulerCapacity.LimitHoldsIff` | newLibs/eventscheduler.cpp:29-35 | no run exceeds `maxEvents` if and only if it is 0 or there is at most one caller |
| `SchedulerPool.NextInv` | newLibs/eventscheduler.cpp:46-78 | with the pool: its jobs are the events handed over, in that order, and it is shut down only after the dispatcher has left |
| `SchedulerPool.FiredEventsKept` | newLibs/eventscheduler.cpp:71-74 | in every reachable state the events finished, running and queued in the pool are those handed over, each as often |
| `SchedulerPool.AcceptedAreRun` | newLibs/eventscheduler.cpp:19-92 | when all is quiet before the pool is shut down, every event ever accepted has been run to its end or cancelled, exactly once |
| `SchedulerPool.ShutdownDrops` | newLibs/eventscheduler.cpp:19-26 | however the system goes on after the pool's shutdown, exactly the last events handed over are dropped, as many as were queued beyond the workers between test and lock, and all others have been run, exactly once |
| `Counter.LowerBoundIff` | SpeedTest.cc:62-67 | after a reset the counter is a lower bound on completed increments in every run if and only if no increment was under way with a value above 0 |
| `Counter.ThresholdReached` | SpeedTest.cc:118-122 | so after such a reset the wait ends only after that many deliveries |
| `Counter.UpdatesLost` | PerProtocol.h:789 | runs of any length in which half of the increments are lost |
| `Counter.CounterFalls` | PerProtocol.h:789 | a run in which the counter, after any number of increments, falls back to one above where it began |

## Left out

- PerProtocolStages.StageBody: for messages below 0x7000_0000 bytes only, because lengths are `int`s in the source and overflow beyond.
- Messages.Message.MsgAddHdr: for messages that stay within INT_MAX bytes, for the same reason.
- Messages.Message.MsgSplit: not on a message without chunks cut after 0 bytes, where the source looks at the front of an empty list and C++ leaves the effect undefined.
- PerMessageStack.PerMessage.AppSend: only payloads whose frame fits the 1024-byte buffer of `ethernetSend`; a longer one overruns it and has no defined effect. `Stack.FrameFits` says which.
- PerMessageStack.PerMessage.Datagram: runs one job at a time; `rCounter` is incremented without a lock by several workers in the source, for which `Counter` has the general argument.
- ThreadPools.ShutdownOutcome: without dispatches or spurious wakeups after the destructor has started; `SchedulerPool.ShutdownDrops` allows spurious wakeups and proves that no dispatch can come.
- MessagePool.DeliversAtEveryMoment: a datagram whose outcome is Fault would end the process, while the runs here go on.
- SchedulerPool.ShutdownDrops: from a state in which the dispatcher has left; a destructor that runs while callers still schedule leaves their events queued for nobody.
- Chunk buffers are values, so two messages that point into one buffer are not distinguished from two with equal buffers, and "a buffer of its own for every datagram" is not stated.
- The endless loops of stages, workers and dispatcher are program counters of transition systems; their bodies are methods.
- The default constructors that build and discard a temporary, and destructors beyond what they do under the lock.
- A failed `recvfrom`, whose result -1 would become a length; sockets, ports, host lookup, printing and timing.
- The 32-bit wrap-around of `nextId` and `numEvents`.
- Memory release, leaks and the `delete` of arrays.
- The step before the first unlock of each stage, and the effect of unlocking a mutex nobody holds.
- Fairness: runs end and end well under every schedule, so none is assumed; nothing is said about how long a step takes.
- `newLibs/message.cpp`, which neither stack includes; `ourLibs/EventScheduler.h`, `ourLibs/ThreadPool.h`, `ourLibs/ThreadPool_new.h` and `newLibs/cj`, other versions of the same parts.
