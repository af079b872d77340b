# Shared-memory protocols and file libraries, modelled and proved

The repository is a set of systems-programming exercises in C. This project models its protocols and its file code
in Dafny and proves what they keep, what they promise and, where they break a promise, exactly when.

**Message queue** (`TME10-11/src/myqueue.c`). A POSIX-style priority queue in one shared segment: 32 message slots
and 32 list cells, linked by index, with -1 as the end of the list, -2 as a free cell and a length of -1 as a free
slot. It is modelled twice. `SharedQueue` is a class with the arrays and the search, walk and link loops of the
library; every method is proved against `QueueSegment`, where the two critical sections are shown to be insertion
into, and removal from the head of, the atomic queue of `PriorityQueue`. `QueueSystem` is the interleaving of any
number of processes making any calls, one semaphore operation, counter update or critical section at a time; its
token counts are what makes the preconditions of the class hold in every run. `QueueProgress` and `QueueDelivery`
say how runs end and that every message is delivered once, `QueueCalls` what every single call has done by the value
it returns, and `QueueOrder` when the queue is the FIFO queue of POSIX. `QueueReaders` says when the waiting counter
misleads the notification test, with a run in which it does, `QueueModes` which calls are refused or fail and what
the mode of the queue does to them, and `QueueNotes` who is notified of what. `QueueNotice` and `CStrings` are the notification record and the payload bytes.

**Converter server** (`TME9/src/multi_converter.c`, `converters_client.c`). A father scatters a request to n children
and gathers their results through semaphores. `ConverterServer` is the state machine for any n and any number of
requests; `ConverterOverlap` shows that the `check` semaphore is not a reusable barrier, says exactly which rounds
are complete under every schedule, and has runs in which a client reads a wrong amount.

**Indexed record files** (`TME7/src/ficindex.c`). `RecordFiles` says what the calls do to the bytes and the cursor;
`RecordTables` shows that this is a list of records with an index into it; `IndexedFiles` is the class with the
loops, proved against `RecordFiles`.

**Smaller protocols and scanners.** `SignalBarrier` (`TME5/src/synchro3.c`), `TextScanner`, `FileFusion` and `FindWord`
(`TME6/src/filefusion.c`, `findword.c`), and `Capitalize` (`TME9/src/capitalize.c`).

Integers are unbounded except where a width decides a branch: the cast of a priority to `int`, the 4-byte header,
the comparison of a negative record size with a `size_t`, and characters read into a signed `char`. Message payloads,
the memory found in slots and buffers, process schedules, file contents, search predicates and the conversion of
amounts are parameters. A payload in which no NUL shows is taken to be followed by its terminator.

Where the code and its documents disagree, the code is followed:

- `TME10-11/tme10-11.html:36` asks for FIFO order among equal priorities; the comparisons of the code give the
  latest sent first. The queue is FIFO as long as no message is sent while one of its own priority is queued, and
  only then (`PriorityQueue.FifoExactly`, `QueueOrder.RunFifoExactly`, `PriorityQueue.EqualPrioritiesAreLifo`).
- `TME10-11/README:68-70` quotes that a notification is withheld while a receiver waits. This holds in blocking use
  (`QueueReaders.BlockingTest`) and fails as soon as a non-blocking receive has got a message, because such a receive
  raises the counter without having lowered it (`QueueReaders.MisfireExactly`, `QueueReaders.NotifiedInVain`).
- A silent registration (`TME10-11/src/myqueue.c:402-406`) leaves the signal of an earlier subscriber on record, so
  the next notification sends it to the silent one (`QueueNotes.OwnSignalExactly`, `QueueNotes.StraySignal`).
- `TME7/README` marks `indxchg` as not done; the code that is there is modelled.

## Model

| member | source | states |
|---|---|---|
| CStrings.CopyDelivers | TME10-11/src/myqueue.c:222 | A terminated payload is read back whole from a reused slot; an unterminated one is read back as a text that begins with the bytes given |
| CStrings.RoundTripExactly | TME10-11/src/myqueue.c:222-370 | Whatever the slot held before, strncpy then strcpy return the payload and stay in the slot if and only if its terminator (the first NUL, or the end of the bytes where none shows) is among the `len` bytes copied |
| CStrings.StaleTail | TME10-11/src/myqueue.c:222 | Two concrete messages in one slot: the second is read back with the tail of the first |
| PriorityQueue.InsertKeepsSorted | TME10-11/src/myqueue.c:235-288 | Insertion in front of the first entry of no greater priority keeps priorities non-increasing |
| PriorityQueue.DrainingEntries | TME10-11/src/myqueue.c:235-288 | After any sends the queue holds exactly the messages sent, as a multiset |
| PriorityQueue.DrainingOrder | TME10-11/src/myqueue.c:235-288 | After any sends the queue is in the strict order "greater priority first, then latest sent first" |
| PriorityQueue.OrderedUnique | TME10-11/src/myqueue.c:237-269 | Only one sequence of the same entries is in a strict order, so the draining order is the only one the comparisons allow |
| PriorityQueue.InsertFifoExactly | TME10-11/src/myqueue.c:237-269 | One insertion of a new entry is the FIFO insertion if and only if no queued entry has its priority |
| PriorityQueue.FifoExactly | TME10-11/tme10-11.html:36 | With sends and receives in any order the queue is the FIFO priority queue asked for after every operation if and only if no send finds a queued message of its own priority |
| PriorityQueue.FifoDrainExactly | TME10-11/tme10-11.html:36 | A queue that is filled and only then drained comes out in FIFO order if and only if no two of the messages share a priority |
| PriorityQueue.EqualPrioritiesAreLifo | TME10-11/src/myqueue.c:253-257 | Two messages of one priority come out last-in first-out |
| QueueSegment.OrderUnique | TME10-11/src/myqueue.c:9-13 | Following `next` from `ind` visits exactly the cells of the list, in order, and stops |
| QueueSegment.OpenedEmpty | TME10-11/src/myqueue.c:103-110 | What mq_open leaves is a well-formed segment with an empty queue, whatever the slots hold |
| QueueSegment.RoomFound | TME10-11/src/myqueue.c:215-282 | With fewer than 32 messages the unbounded searches find a slot and a cell not in use; on an empty list that cell is cell 0 |
| QueueSegment.RelinkedChain | TME10-11/src/myqueue.c:225-289 | The link updates of all insertion branches give the same list with one cell put in at one position, each cell still pointing to its own slot |
| QueueSegment.SendRefines | TME10-11/src/myqueue.c:203-289 | The critical section of a send keeps the representation invariant and inserts the message, with its priority and delivered text, into the atomic queue |
| QueueSegment.ReceiveRefines | TME10-11/src/myqueue.c:363-373 | The critical section of a receive keeps the representation invariant, hands out the head of the atomic queue and removes it |
| QueueSegment.DrainedContents | TME10-11/src/myqueue.c:363-373 | Receives until empty return the contents in order |
| QueueSegment.SendsThenReceives | TME10-11/src/myqueue.c:203-373 | Any terminated sends within capacity to an empty queue, then receives, return the messages in the draining order |
| QueueNotice.UnsubscribesAfterSignal | TME10-11/src/myqueue.c:295-302 | The internal mq_notify(fd, NULL) after a signal always finds a subscriber, so it unsubscribes and never dereferences its null event; a second signal needs a new registration |
| QueueNotice.SubscriptionConsistent | TME10-11/src/myqueue.c:384-412 | Every mq_notify keeps "a signal on record has a subscriber" |
| SharedQueue.Queue.Open | TME10-11/src/myqueue.c:92-110 | The loop of mq_open frees every cell and leaves an empty, valid queue without subscriber |
| SharedQueue.Queue.PrintQueue | TME10-11/src/myqueue.c:5-16 | The walk prints the priorities of all messages in queue order and ends |
| SharedQueue.Queue.PrepareSlots | TME10-11/src/myqueue.c:203-212 | Slots are marked free once, on the first send, with their bytes kept |
| SharedQueue.Queue.FindFreeSlot | TME10-11/src/myqueue.c:215 | The search stops on the first free slot |
| SharedQueue.Queue.FindFreeCell | TME10-11/src/myqueue.c:250-283 | The search stops on the first free cell |
| SharedQueue.Queue.Store | TME10-11/src/myqueue.c:203-222 | The first free slot, and no other, is written, with stale bytes beyond the length kept |
| SharedQueue.Queue.Seek | TME10-11/src/myqueue.c:235-242 | The walk passes only greater priorities and stops on the first other cell, or on the last cell |
| SharedQueue.Queue.Attach | TME10-11/src/myqueue.c:246-288 | Each of the four branches links the new cell at the place where the walk stopped and changes no other link |
| SharedQueue.Queue.Link | TME10-11/src/myqueue.c:225-289 | The new cell goes in front of the first cell of no greater priority, also on an empty list |
| SharedQueue.Queue.InsertMessage | TME10-11/src/myqueue.c:203-289 | Copy and link together are the specified send, and tell whether the list was empty |
| SharedQueue.Queue.Announce | TME10-11/src/myqueue.c:291-306 | One signal to the subscriber exactly when the queue was empty, a signal is on record and the counter is not negative; the registration is then gone |
| SharedQueue.Queue.SendSection | TME10-11/src/myqueue.c:203-308 | The whole critical section: the specified segment, notification record, signal and printed priorities |
| SharedQueue.Queue.ReceiveSection | TME10-11/src/myqueue.c:363-373 | The critical section of a receive: the specified segment, and the head entry for the caller |
| SharedQueue.Queue.Notify | TME10-11/src/myqueue.c:384-412 | A registration records the caller's own process id and its signal; a silent one the process id only; other kinds are refused; a null event unsubscribes, or without a subscriber is dereferenced |
| SharedQueue.Queue.SetAttr | TME10-11/src/myqueue.c:153-167 | Only the non-blocking flag changes, to the O_NONBLOCK bit given; the old one is handed out on demand; a closed descriptor is refused |
| QueueSystem.InitInv | TME10-11/src/myqueue.c:80-110 | The values that mq_open establishes satisfy the invariant |
| QueueSystem.SendCallExactly | TME10-11/src/myqueue.c:179-196 | A send returns -1 at once if and only if the descriptor is closed, the length over 32 or the priority over 32; else the mode alone decides whether it tries or waits |
| QueueSystem.ReceiveCallExactly | TME10-11/src/myqueue.c:320-353 | A receive returns -1 at once if and only if the descriptor is closed, the buffer under 32 bytes or the priority pointer null; else the mode alone decides whether it tries or waits |
| QueueSystem.SetAttrCallExactly | TME10-11/src/myqueue.c:153-167 | mq_setattr sets the mode to what is given and changes nothing else |
| QueueSystem.NotifyCallExactly | TME10-11/src/myqueue.c:384-412 | What each kind of event leaves in the notification record, and what the call returns |
| QueueSystem.SectionsDefined | TME10-11/src/myqueue.c:188-250 | Whoever is in the critical section of a send has a free slot and cell to find; whoever is in that of a receive finds a message |
| QueueSystem.SendStep | TME10-11/src/myqueue.c:203-308 | In any state of any run a send's critical section is one insertion into the bounded atomic queue |
| QueueSystem.ReceiveStep | TME10-11/src/myqueue.c:363-373 | In any state of any run a receive's critical section is one removal of the head |
| QueueSystem.StepRefines | TME10-11/src/myqueue.c:188-378 | Every step of any process is one operation of the atomic queue or changes nothing of it |
| QueueSystem.StepCounts | TME10-11/src/myqueue.c:188-378 | Every step keeps the token and mutex counts |
| QueueSystem.StepNotices | TME10-11/src/myqueue.c:291-412 | Every step keeps the notification laws |
| QueueSystem.StepKeepsInv | TME10-11/src/myqueue.c:188-412 | Every step of every process keeps the whole invariant |
| QueueSystem.RunInv | TME10-11/src/myqueue.c:188-412 | In every state of every run: no undefined access, the representation invariant, write tokens + holders + messages + removers = 32, messages = read tokens + inserters + receivers past their token, signals never exceed registrations, the exact value of nb_blocked_readers, and a log of operations that the atomic queue replays |
| QueueSystem.MutualExclusion | TME10-11/src/myqueue.c:199-376 | At most one process is in a critical section and at most one updates the waiting counter |
| QueueSystem.MessagesConserved | TME10-11/src/myqueue.c:203-373 | Over any run with terminated payloads, messages put in = messages handed out + messages queued, as multisets of text and priority |
| QueueSystem.SignalStep | TME10-11/src/myqueue.c:295-302 | A step sends a signal if and only if it is a send that found the queue empty with a signal on record and the counter not negative; it is one signal, to a non-zero subscriber, and the registration is used up |
| QueueCalls.RunFulfils | TME10-11/src/myqueue.c:169-412 | In every state of every run, for every process: its calls are made in program order, and its operations on the queue are one for each send or receive that returned 0 or is returning, in order, each send putting in its own message; a call that returned -1 has done nothing |
| QueueModes.RunRefuses | TME10-11/src/myqueue.c:169-413 | In every state of every run refused calls have returned -1; in the blocking mode they are the only ones that have |
| QueueModes.TrySendExactly | TME10-11/src/myqueue.c:188-192 | A non-blocking send fails if and only if messages queued, about to go in or just taken out are 32 together |
| QueueModes.TryReceiveExactly | TME10-11/src/myqueue.c:340-345 | A non-blocking receive fails if and only if every message queued is not announced yet or promised to another receive |
| QueueModes.RunPolling | TME10-11/src/myqueue.c:188-192 | In runs in the non-blocking mode nobody ever waits for a token |
| QueueModes.PollingFinishes | TME10-11/src/myqueue.c:188-378 | Runs in the non-blocking mode that cannot go on have all processes finished |
| QueueNotes.RunRecords | TME10-11/src/myqueue.c:153-413 | The history of registrations and mode changes is, for every process, that of its calls that returned 0, in order |
| QueueNotes.RunTraced | TME10-11/src/myqueue.c:291-413 | In every state of every run the subscriber made the latest registration, the signal on record is that of the latest registration for a signal, every signal sent agrees with this at its time, and the mode is the one set last |
| QueueNotes.SignalsWereAskedFor | TME10-11/src/myqueue.c:295-413 | For every signal sent, the process that got it registered and some process registered for this signal; without silent registrations it is the same process |
| QueueNotes.OwnSignalExactly | TME10-11/src/myqueue.c:402-409 | A signal goes to a process whose own latest registration asked for it if and only if the latest registration of all is one for a signal |
| QueueNotes.StraySignal | TME10-11/src/myqueue.c:402-406 | A run in which a process that only registered silently is sent the signal of another |
| QueueOrder.RunFifoExactly | TME10-11/tme10-11.html:36 | In every state of every run the queue has been the FIFO priority queue after every operation if and only if every message put in found no queued message of its own priority |
| QueueReaders.StepBlocking | TME10-11/src/myqueue.c:340-357 | Blocking use stays blocking use and never raises the counter without lowering it first |
| QueueReaders.BlockingTest | TME10-11/README:68-70 | In every state of every run in the blocking mode the counter test of a send says exactly that no receive waits |
| QueueReaders.MisfireExactly | TME10-11/README:68-70 | From a state with nobody in a call, an empty queue, a subscriber on record, the mode blocking for good, and a receive and a send to come, some schedule notifies while a receive waits if and only if a non-blocking receive has got a message before |
| QueueReaders.NotifiedInVain | TME10-11/src/myqueue.c:295-357 | A run from mq_open in which the one registered subscriber is sent its signal while a receive waits |
| QueueProgress.StuckShape | TME10-11/src/myqueue.c:188-378 | Deadlock freedom: when nobody can move, everybody has finished or waits, either as a sender on 32 messages or as a receiver on none, never both |
| QueueProgress.StepWorks | TME10-11/src/myqueue.c:188-378 | Every step uses up some of the work left |
| QueueProgress.RunBounded | TME10-11/src/myqueue.c:188-378 | Every run of finite programs is finite under every schedule |
| QueueProgress.RunSurplus | TME10-11/src/myqueue.c:188-378 | Among blocking senders and receivers, sends to make - receives to make + messages queued never changes, and no call is lost |
| QueueProgress.CompletionExactly | TME10-11/src/test1_myqueue.c:20-43 | Blocking senders and receivers all finish, under every schedule, if and only if receives <= sends <= receives + 32; every call then succeeded and the difference is left in the queue |
| QueueDelivery.RunDelivers | TME10-11/src/myqueue.c:169-316 | In every state: messages inserted + messages still to insert = messages handed over in the calls |
| QueueDelivery.EverythingDelivered | TME10-11/src/test1_myqueue.c:20-43 | With as many receives as sends the receivers get exactly the messages of the senders' calls, each once, and the queue ends empty; with more sends the rest is still queued |
| ConverterServer.InitInv | TME9/src/multi_converter.c:99-142 | The initial semaphore values satisfy the invariant, for any number of children |
| ConverterServer.StepKeepsInv | TME9/src/multi_converter.c:172-218 | Every step of father, client or child keeps the invariant, also when rounds overlap on `check` |
| ConverterServer.RunInv | TME9/src/multi_converter.c:172-218 | In every state of every run: work tokens + children at work + completions pending + completions collected = work posted, and the `check` count |
| ConverterServer.NobodyConverts | TME9/src/multi_converter.c:174-203 | No child converts while the father overwrites the request, releases, copies the results or answers, in any round |
| ConverterServer.AllGathered | TME9/src/multi_converter.c:187-191 | When n completions are collected no child is at work; in a round that started with `check` at 0 all are at `check` |
| ConverterServer.CheckBetweenRounds | TME9/src/multi_converter.c:195-217 | Between rounds `check` is the number of children still to pass it |
| ConverterServer.ConversionsPerRound | TME9/src/multi_converter.c:179-213 | Every round, overlapping or not, makes exactly n conversions in all |
| ConverterServer.TidyRepliesComplete | TME9/src/converters_client.c:42-62 | The client of the first round, and of every round that started with `check` at 0, reads convert(request, i) for every child i |
| ConverterServer.RunRequests | TME9/src/converters_client.c:42-62 | Replies answer the requests made, in order, none twice |
| ConverterServer.GatherProgress | TME9/src/multi_converter.c:187-217 | While completions are missing some child can move, even with leftover `check` tokens |
| ConverterServer.StuckMeansServed | TME9/src/multi_converter.c:172-218 | No state with a pending request is stuck |
| ConverterServer.StepWorks | TME9/src/multi_converter.c:172-218 | Every step uses up some of the work left |
| ConverterServer.RunBounded | TME9/src/multi_converter.c:172-218 | Every run over finitely many requests is finite under every schedule |
| ConverterServer.AllServed | TME9/src/multi_converter.c:172-218 | A run that cannot go on has answered every request |
| ConverterOverlap.StarveChild | TME9/src/multi_converter.c:210-217 | As long as another child can take the tokens, some schedule leaves a child out of the round |
| ConverterOverlap.LeftoverStarves | TME9/src/multi_converter.c:174-217 | With two or more children and a leftover `check` token some schedule ends the round without a conversion by some child |
| ConverterOverlap.TidyPath | TME9/src/multi_converter.c:174-217 | A round that starts with `check` at 0 stays without overlap until its end, under every schedule |
| ConverterOverlap.CompleteExactly | TME9/src/multi_converter.c:174-217 | A round has one conversion by every child under every schedule if and only if it starts with `check` at 0 or there is at most one child |
| ConverterOverlap.FirstRoundServed | TME9/src/multi_converter.c:172-203 | Some schedule ends the first round with every result in place and no child past `check` |
| ConverterOverlap.OverlapReachable | TME9/src/multi_converter.c:172-218 | For any number of children and any two requests, some run starts its second round with `check` at n and the results of the first request |
| ConverterOverlap.StaleReply | TME9/src/converters_client.c:42-62 | For two or more children, any two requests and any child, some run answers the second request with this child's conversion of the first |
| RecordFiles.DecodeEncode | TME7/src/ficindex.c:71-80 | A record size read back from its header is the one written |
| RecordFiles.EncodeExactly | TME7/src/ficindex.c:71 | The bytes of an int in the header are its digits to base 256, least significant first |
| RecordFiles.WriteExactly | TME7/src/ficindex.c:121-136 | What a write leaves in any file, byte by byte, with zeros in a gap |
| RecordFiles.ReadExactly | TME7/src/ficindex.c:103-116 | What a read returns from any file, byte by byte |
| RecordFiles.WriteThenRead | TME7/src/ficindex.c:103-136 | What was written is read back from where it was written |
| RecordFiles.ReadKeepsSound | TME7/src/ficindex.c:103-116 | A read of m records returns the next m (or the rest) and moves them behind the cursor |
| RecordFiles.WriteKeepsSound | TME7/src/ficindex.c:121-136 | A write of whole records replaces the records from the cursor on, appending past the end, and touches no other |
| RecordFiles.SeekToRecord | TME7/src/ficindex.c:141-157 | Seeking to k puts exactly the first k records behind the cursor |
| RecordFiles.SeekThenRead | TME7/src/ficindex.c:103-157 | Seeking to k and reading one record returns record k |
| RecordFiles.UseKeepsSound | TME7/src/ficindex.c:103-157 | In-range seeks and whole-record reads and writes keep header, record size and the cursor on a boundary |
| RecordFiles.RunKeepsSound | TME7/src/ficindex.c:103-157 | The same over any run of them |
| RecordTables.SeekRefines | TME7/src/ficindex.c:141-157 | A seek from the start, the cursor or the end stays in the file if and only if the index it leads to is between 0 and the number of records, and then moves the index there |
| RecordTables.ReadRefines | TME7/src/ficindex.c:103-116 | A read returns the bytes of the records from the index on and moves the index behind them |
| RecordTables.UseRefines | TME7/src/ficindex.c:103-157 | Each whole-record use of the file is the operation on the list of records and the index |
| RecordTables.RunRefines | TME7/src/ficindex.c:103-157 | Over any run of seeks, whole-record reads and writes, records and cursor are what the same operations make of the list and the index |
| RecordFiles.SizeExactly | TME7/src/ficindex.c:77-81 | The record size found on opening depends on nothing but the file if and only if the file has a whole header |
| RecordFiles.ReopenSound | TME7/src/ficindex.c:77-81 | Reopening gives the same record size and records, with the cursor at the first |
| RecordFiles.Persistence | TME7/src/ficindex.c:52-136 | Create, write, close, reopen recovers the record size and the records |
| RecordFiles.FilterFirst | TME7/src/ficindex.c:176-182 | The matching records are the first match followed by the matching records behind it |
| RecordFiles.GrowShrink | TME7/src/ficindex.c:219-222 | Growing records and shrinking them back restores them, whatever the buffer held |
| RecordFiles.RestoredExactly | TME7/src/ficindex.c:219-222 | Changing the size and back restores the records, whatever the buffers hold, if and only if the size did not shrink or there are no records |
| RecordFiles.GrowShrinkBytes | TME7/src/ficindex.c:191-228 | Growing and shrinking back restores the file byte for byte |
| RecordFiles.ChainKeepsPrefix | TME7/src/ficindex.c:191-228 | Chained re-indexing keeps count and order, and of each record the prefix of the smallest size used |
| IndexedFiles.IndexedFile.Create | TME7/src/ficindex.c:68-76 | Opening a new or truncated file writes the header |
| IndexedFiles.IndexedFile.Open | TME7/src/ficindex.c:77-81 | Opening an existing file reads the header, of which a short file leaves bytes unset |
| IndexedFiles.IndexedFile.SystemRead | TME7/src/ficindex.c:115-176 | A read fills the start of a reused buffer and keeps the rest |
| IndexedFiles.IndexedFile.Read | TME7/src/ficindex.c:103-116 | indread refuses if and only if the descriptor is not open or the request is below the record size as an unsigned number; nothing moves then |
| IndexedFiles.IndexedFile.Write | TME7/src/ficindex.c:121-136 | indwrite refuses if and only if the descriptor is not open or the request is below the record size as an unsigned number; nothing changes then |
| IndexedFiles.IndexedFile.Seek | TME7/src/ficindex.c:141-157 | indlseek: offsets in records, the header skipped from the start only, a negative target refused without moving |
| IndexedFiles.IndexedFile.Search | TME7/src/ficindex.c:162-186 | The loop returns the first remaining match with the cursor right behind it, or nothing with the cursor at the end |
| IndexedFiles.SearchAll | TME7/src/ficindex.c:162-186 | Repeated searches until nothing is found return exactly the remaining matching records, in file order, each once, and leave the file unchanged with the cursor at its end |
| IndexedFiles.Indxchg | TME7/src/ficindex.c:191-228 | The copying loop gives a sound file of the new size whose records are the old ones in order, each cut or filled up from the buffer |
| SignalBarrier.FatherKeepsInv | TME5/src/synchro3.c:73-91 | Every step of the father keeps "a signal is pending exactly between its sending and the suspend that waits for it" |
| SignalBarrier.ChildKeepsInv | TME5/src/synchro3.c:47-72 | So does every step of a child |
| SignalBarrier.RunInv | TME5/src/synchro3.c:35-91 | It holds in every state of every run |
| SignalBarrier.Barrier | TME5/src/synchro3.c:47-91 | Nobody starts calcul_2 before all three have finished calcul_1 |
| SignalBarrier.RunBounded | TME5/src/synchro3.c:35-91 | Every run has at most 20 steps |
| SignalBarrier.EndsFinished | TME5/src/synchro3.c:35-91 | No wake-up is lost: every run that cannot go on has all three finished |
| TextScanner.WordEndIs | TME6/src/filefusion.c:67-71 | The end of a word is the only stop reached without passing another |
| TextScanner.CharExactly | TME6/src/filefusion.c:67-69 | A character read is the byte of the file as a signed char, and EOF behind the last one |
| TextScanner.WordsAreBytes | TME6/src/filefusion.c:67-71 | The words read are the pieces of the file between spaces, newlines and bytes 255, byte for byte |
| TextScanner.Reset | TME6/src/filefusion.c:12-20 | All 100 characters become NUL |
| TextScanner.ReadWord | TME6/src/filefusion.c:67-79 | The inner loop puts the word, and nothing else, into the buffer and stops right behind its separator |
| FileFusion.FusePair | TME6/src/filefusion.c:65-83 | One turn writes word, space, word, space, and leaves the buffer clean |
| FileFusion.Fuse | TME6/src/filefusion.c:62-84 | The program writes the specified output for all files whose word pairs fit the buffer |
| FileFusion.WordsAreText | TME6/src/filefusion.c:67-71 | The words are the text: written with spaces they give its bytes back, with its separators as spaces |
| FileFusion.FitsExactly | TME6/src/filefusion.c:30-80 | The word pairs fit the buffer if and only if each has less than 98 bytes |
| FileFusion.ReadsPrefix | TME6/src/filefusion.c:63-71 | The words read from the first file are all the words before its first byte 255 |
| FileFusion.FusedWords | TME6/src/filefusion.c:62-84 | The output of NUL-free files is the words of both, alternating, with empty words once the second is exhausted |
| FileFusion.CutSpaced | TME6/src/filefusion.c:72-82 | Cutting at spaces undoes writing with spaces |
| FileFusion.Unfusion | TME6/src/filefusion.c:62-84 | Cutting the output at its spaces gives, byte for byte, the pieces of the first file at the even places and those of the second at the odd places |
| FindWord.NextWord | TME6/src/findword.c:49-54 | The inner loop leaves the C string of the word in the buffer |
| FindWord.Find | TME6/src/findword.c:46-60 | The program prints the specified matches for all files whose words fit the buffer |
| FindWord.CleanIsExact | TME6/src/findword.c:46-60 | In a clean text the matches are exactly the separator-terminated words whose first bytes are the key, each once, in order, with their own positions and bytes |
| FindWord.FitsExactly | TME6/src/findword.c:27-54 | The words fit the buffer if and only if each has less than 100 bytes |
| FindWord.ExactExactly | TME6/src/findword.c:46-60 | The scan is exact for every key if and only if no NUL and no byte 255 stands before a separator |
| Capitalize.HeldNext | TME9/src/capitalize.c:81 | The index computed for the stored NUL is 1024 for every word and at the end of the input, whatever the operator precedence suggests |
| Capitalize.StepKeepsInv | TME9/src/capitalize.c:78-103 | Every step keeps one token in all and no torn line |
| Capitalize.RunInv | TME9/src/capitalize.c:57-103 | So it is in every state of every run |
| Capitalize.PrintsInOrder | TME9/src/capitalize.c:78-103 | The lines printed are the words read, cut to 1024 characters, each letter a to z as its capital and all else unchanged, in order, each once; after the end of the input the last word repeats |
| Capitalize.AlternateForever | TME9/src/capitalize.c:78-103 | The two processes never use the slot together and one of them can always go on |

## Left out

- System call plumbing of mq_open: shared memory, naming of the semaphores, the descriptor scan; one mq_open followed by forks is assumed, and the test of a descriptor is a flag of each call.
- mq_close, mq_unlink and mq_getattr: mq_close resets `init` even while messages remain and may come only once the queue is no longer used.
- `nb_blocked_writers`: it is overwritten with a semaphore value and decides nothing.
- Interrupted or failing semaphore calls, a null `new` attribute, and the return value of mq_receive, which is 0 and not the length.
- The critical section of a send or a receive, and an mq_notify or mq_setattr call, are one step each in the interleaving; mq_notify takes no lock in the code.
- A process that dies in mq_notify(fd, NULL) without a subscriber makes no further call; the death itself is not modelled.
- The strcpy of an unterminated slot runs on past the slot in the code; in the model its text ends with the slot.
- The message pointers of cells are slot indices.
- Converter server: the client's steps run one client at a time, a copy or a conversion is one step, amounts are reals and `convert` is opaque; the SIGINT cleanup is left out.
- Indexed files: permissions, failing system calls, partial writes, record sizes of 2^31 and more, 64-bit offset overflow, descriptors that are closed twice (`tab` is never reset).
- IndexedFiles.IndexedFile.Search: for files of a positive record size and whole records only; a partial last record is not modelled.
- IndexedFiles.SearchAll: for the same files as IndexedFiles.IndexedFile.Search.
- IndexedFiles.Indxchg: for an old file of a positive record size and whole records and a positive new size below 2^31 only.
- Signal barrier: signals from other processes and the length of the computations.
- FileFusion.Fuse: for word pairs that fit the 100-byte buffer only; longer ones overflow it in the code.
- FindWord.Find: for words that fit the 100-byte buffer only; the last word of a file without a final separator is not reported, as in the code.
- Capitalize: words longer than the shared array, and characters outside ASCII.
- The list and stack exercises, the process, pipe and exec demos, and the arithmetic of the currencies.
