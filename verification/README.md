# Verification models of the 80s/90s server

The repository is an event-loop server: a C core (`src/80s`) and a C++ coroutine layer (`src/90s`).
This project models its hardest stateful parts in Dafny and proves what they promise. It stands on its
own: `dafny verify dfyconfig.toml` checks everything.

## What is modelled

**Pattern search and the stream reader.** `Kmp` has `build_kmp` and `kmp` with their loops, proved
against a plain definition of "first occurrence, else longest partial match". `DelimiterScan` studies
the resumable scan that `read_until` builds on it. `StreamReader.Reader` is the read side of `afd`: its
buffer, offset, command queue and scan state, with `on_data`, the reads and `on_close`. Each method
computes a function on views of the object, and the laws of these functions are lemmas; `ReaderSessions`
has those about whole sessions, in which bytes arrive in any pieces and resumed coroutines issue reads.
`Packets` is the MySQL packet reader as a client of it, `Template` the template compiler's segmentation on
top of `kmp`.

**Concurrent protocols.** `TicketQueue`, `FreeList`, `Semaphore`, `Mailbox` and `ThreadPool` are state
machines in which any number of threads take one atomic operation a step, in any order. Their theorems
hold in every state of every run. The state of a thread is its place in the code with the values its
local variables hold; fields called history record what happened and no step depends on them.
`PoolSemaphore` runs the pool over the semaphore's own operations, and shows that this is a run of the pool.

**Coroutine coordination.** `Writer.Writer` is the write side of `afd`. `AioLock` and `CommandLock` are
the coroutine lock and the pairing of queries with answers that rests on it, `Transaction` the
transaction driver against an abstract database, `SingleFlight` the asynchronous cache. Resolving a
promise resumes a coroutine inside the call. The two `afd` classes carry a script of what resumed
coroutines do, an arbitrary finite list for each resumption, and every contract holds for all scripts.

**Formats.** `Json` is the printer and the schema-driven parser, `Url` percent-encoding and query strings.

## What the models show about the code

- `read_until` does not always split the stream at the first delimiter. It does, for every way the stream
  can arrive with later pieces of at least `n` bytes, exactly if no entry of the delimiter's failure table
  before the last is above 0 and `n >= |delim| - 1` (`DelimiterScan.UntilAgreesIff`). Both conditions hold
  for `"\r\n"` with `n = 1`; `"\r\n\r\n"` needs `n = 3`. Whatever the pieces, a read that completes
  ends at a real delimiter.
- What goes wrong is one attempt: one that stands on a partial match, on bytes that neither complete nor
  contradict it, drops it although it is the longest (`DelimiterScan.AttemptIsSearch`, an equivalence). It
  happens without any short piece when a coroutine resumed inside the command loop
  (`src/90s/afd.cpp:73-170`) issues a `read_until`: the nested run of the loop blocks on the partial match,
  and the outer loop tries the same command once more before any byte has arrived. With the pieces
  `"a\r\nb\r"` and `"\nc\r\n"`, a coroutine that reads line after line gets `"a"` and `"b\r\nc"`
  (`ReaderSessions.RescanLosesDelimiter`, and `ReaderSessions.TwoLines` on the object). For all sessions and
  all scripts, what arrives next is split right, whatever it is, exactly if no attempt so far was of that
  kind (`ReaderSessions.SessionRightIff`). None is if no piece ends inside a delimiter that is being read
  (`ReaderSessions.UncutSession`).
- The second branch of `aiolock::lock` is dead after every sequence of calls (`AioLock.SecondBranchIsDead`).
  `unlock` checks nobody: at most one caller is inside, at every moment and whoever asks next, exactly if nobody
  unlocks the lock while somebody else holds it (`AioLock.ExclusiveIff`). A stranger's `unlock` lets a second
  caller in (`AioLock.StrangerUnlocks`); unlocking a free lock does no harm (`AioLock.IdleUnlock`).
- A dequeue can fail although the queue is never empty while it is inside: it compares its ticket with an
  overcommit it read before others lost (`TicketQueue.FailsOnNonEmpty`). `wait_dequeue` therefore has to retry,
  and always has an element to retry for (`PoolSemaphore.WakesForElement`).
- Accepted sockets go round the workers in turn only until worker 0 restarts its loop: a reload starts the
  turn over, so the next socket is worker 0's own (`Mailbox.RoundRobin`, `Mailbox.AfterRestart`).
- `atomically` reports success although its COMMIT failed; its report is right exactly if the COMMIT
  worked (`Transaction.SuccessIsRightIff`). One statement and a COMMIT that fails are enough
  (`Transaction.FailedCommitIsSuccess`).
- `exec_subproc` and `select_subproc` read exactly the answers they are meant for, and no others. As
  `atomically` chooses by the prefix `"SELECT "`, a query spelled `"select ..."` leaves its result table
  on the wire (`CommandLock.EndsIff`, `CommandLock.SpellingMatters`), and the next caller reads it as its own
  answer. Queries and packets are paired in all runs exactly if no query for `exec_subproc` can be answered by
  a table (`CommandLock.PairedIff`).
- The asynchronous cache keeps cached and racing keys apart, except when the synchronous `cache` is called for
  a key whose factory is in flight and its own factory yields a value (`SingleFlight.DisjointIff`, `SingleFlight.ResultIsDropped`).

## Model

| member | source | states |
|---|---|---|
| Kmp.BuildKmp | src/80s/algo.c:5-23 | every entry below m is the longest border whose next byte differs, or -1, and the last the longest proper border; at most 2(m-1) loop iterations |
| Kmp.FallBack | src/80s/algo.c:16-18 | the inner loop ends at the longest border that the next byte extends, or at -1 |
| Kmp.NextLongestBorder | src/80s/algo.c:11-22 | such a border, extended by one byte, is the longest border of the longer prefix |
| Kmp.FallKeepsCandidates | src/80s/algo.c:16-18 | following the strong table skips no border that the next byte could extend |
| Kmp.CopiedEntry | src/80s/algo.c:12-14 | an entry copied from a shorter border is the right strong entry |
| Kmp.ScanFalls | src/80s/algo.c:70-75 | a fall along the table loses neither an occurrence nor a longer partial match |
| Kmp.ScanAdvances | src/80s/algo.c:58-68 | an equal byte keeps the match the longest partial one and every earlier position excluded |
| Kmp.ScanFromSearches | src/80s/algo.c:56-80 | with a right table the scan is the search: first occurrence, else longest partial match at the end |
| Kmp.Scan | src/80s/algo.c:56-80 | the loop computes that scan in at most 2(len - offset) iterations |
| Kmp.FindByte | src/80s/algo.c:37-43 | the one-byte path is the first occurrence |
| Kmp.ByteSearch | src/80s/algo.c:37-43 | for one byte the search has no partial matches, so both paths agree |
| Kmp.Find | src/80s/algo.c:25-81 | kmp is the search, for its three paths, with the empty cases and the limit of 256 bytes without a table |
| DelimiterScan.FlatIsInTheTable | src/80s/algo.c:5-23 | the condition on the delimiter can be read off its table: no entry before the last is above 0 |
| DelimiterScan.AttemptIsSearch | src/90s/afd.cpp:107-167 | for a flat delimiter, one resumed attempt is the search of the whole window exactly if the new bytes decide the partial match it stands on |
| DelimiterScan.OpenIsLost | src/90s/afd.cpp:123-133 | bytes that leave the match open make the attempt drop it, although it is the longest |
| DelimiterScan.KeptAgrees | src/90s/afd.cpp:107-167 | a run of attempts that could all decide is the split at the first delimiter |
| DelimiterScan.KeptIff | src/90s/afd.cpp:107-167 | the attempts could all decide exactly if at each moment, whatever comes next, the outcome is the split |
| DelimiterScan.FlatAgrees | src/90s/afd.cpp:107-167 | in particular, every run with long enough later pieces is the split |
| DelimiterScan.TwoBytesAreFlat | src/90s/afd.cpp:107-167 | for a delimiter of two bytes it is enough that no later piece is empty |
| DelimiterScan.BlankLineIsFlat | src/90s/afd.cpp:107-167 | for the blank line behind HTTP headers, that later pieces have three bytes |
| DelimiterScan.OverlapIsLost | src/90s/afd.cpp:123-133 | a delimiter with a table entry above 0 has pieces on which the scan misses an occurrence |
| DelimiterScan.SliceIsLost | src/90s/afd.cpp:123-133 | pieces too short to complete the delimiter make the scan miss it |
| DelimiterScan.EmptyAttemptLosesMatch | src/90s/afd.cpp:123-133 | an attempt on no new bytes loses a partial match |
| DelimiterScan.UntilAgreesIff | src/90s/afd.cpp:107-167 | the scan agrees with the split on all pieces exactly if the delimiter is flat and the pieces are long enough |
| DelimiterScan.DoneIsReal | src/90s/afd.cpp:107-167 | for all pieces, a finished scan ends behind a real occurrence and a blocked one tracks a real partial match |
| StreamReader.UntilStep | src/90s/afd.cpp:107-167 | one more attempt extends the run of attempts, and if it is done yields a delivery that ends at the delimiter |
| StreamReader.ServedKeeps | src/90s/afd.cpp:71-170 | the command loop conserves bytes and order, and ends only when the front command is blocked, for mixed commands and re-entrant reads |
| StreamReader.IssuedKeeps | src/90s/afd.cpp:307-360 | so does a read issued at any moment, also inside another call |
| StreamReader.ArrivedKeeps | src/90s/afd.cpp:28-185 | so does the arrival of bytes, the callback for an empty queue included; a match is lost only by an attempt that could not decide |
| StreamReader.EachFailsInOrder | src/90s/afd.cpp:270-275 | what closing fails contains every waiting read once, in order, at places the script determines |
| StreamReader.Reader.constructor | src/90s/afd.cpp:28-66 | a new reader is empty, open and has nothing to serve |
| StreamReader.Reader.AttemptUntil | src/90s/afd.cpp:107-167 | the two searches and the case analysis behind them are one attempt; the scan state is its outcome |
| StreamReader.Reader.Deliver | src/90s/afd.cpp:79-106 | a delivery takes exactly its bytes off the window and its command off the queue |
| StreamReader.Reader.Serve | src/90s/afd.cpp:79-148 | the command is popped first, then its coroutine runs |
| StreamReader.Reader.ServeUntil | src/90s/afd.cpp:107-167 | an until command is delivered up to its delimiter, or blocked with the scan remembered |
| StreamReader.Reader.RunCommands | src/90s/afd.cpp:71-170 | the loop is the command loop of the model, re-entrant reads included |
| StreamReader.Reader.Read | src/90s/afd.cpp:307-360 | a read is queued and served in order, or fails at once on a closed object |
| StreamReader.Reader.OnData | src/90s/afd.cpp:28-185 | what arrived is what was delivered, delimiters included, followed by the unread buffer; afterwards the front command is blocked |
| StreamReader.Reader.OnClose | src/90s/afd.cpp:235-240 | closing fails each waiting read once, in order, and behind each what its coroutine asks for, for all scripts |
| ReaderSessions.DeliveriesSplit | src/90s/afd.cpp:71-170 | deliveries whose attempts could all decide are the split of the rest of the stream, and the window waits for its own split |
| ReaderSessions.ReadsSplitTheStream | src/90s/afd.cpp:28-185 | then the object has delivered the stream split by the reads issued, from outside or by resumed coroutines |
| ReaderSessions.KeptGoesRight | src/90s/afd.cpp:28-185 | an object that waits with its matches kept splits whatever arrives next |
| ReaderSessions.LostGoesWrong | src/90s/afd.cpp:123-133 | one that waits with a match lost misses a delimiter on some next bytes |
| ReaderSessions.SessionRightIff | src/90s/afd.cpp:28-185 | for all sessions and scripts, every next piece is split right exactly if no object in the session waits with a lost match |
| ReaderSessions.UncutSession | src/90s/afd.cpp:28-185 | sessions with any script go right if no unread bytes ever end inside the delimiter being read |
| ReaderSessions.StreamUncut | src/90s/afd.cpp:28-185 | for that it is enough that the stream so far ends inside no delimiter waited for |
| ReaderSessions.RescanLosesDelimiter | src/90s/afd.cpp:73-170 | the input: a resumed coroutine's read for a line blocks inside its delimiter, the outer loop retries it, and the next line comes joined |
| ReaderSessions.TwoLines | src/90s/afd.cpp:73-170 | the same run on a reader object |
| ReaderSessions.LongPiecesKeepAll | src/90s/afd.cpp:28-185 | with no coroutine to resume, pieces that can decide every delimiter keep all matches |
| ReaderSessions.ShortReadsKeepAll | src/90s/afd.cpp:307-360 | and so does a read issued from outside |
| Packets.AnnouncedLength | src/90s/sql/mysql.cpp:33-34 | the three length bytes give the payload's length back |
| Packets.PairsArePackets | src/90s/sql/mysql.cpp:26-43 | each pair of reads is the next packet, for every cutting of the stream |
| Packets.NextHasArrived | src/90s/sql/mysql.cpp:26-43 | while a packet is missing, what is waited for is no more than what was sent |
| Packets.AllPacketsRecovered | src/90s/sql/mysql.cpp:26-43 | once all bytes have arrived every packet has been read |
| Packets.FollowsAsks | src/90s/sql/mysql.cpp:26-43 | the second read of each pair is what the header just delivered announces |
| Packets.SpreadIsSequential | src/90s/aiopromise.hpp:101-109 | however the reads fall on resumptions, with any run of them served at once, the script is sequential |
| Packets.OutOfTurn | src/90s/afd.cpp:319-330 | where another script has requests in the next entry, a read served at once lets them come before the rest of the running one |
| Packets.ReadPackets | src/90s/sql/mysql.cpp:26-43 | driving a reader with read_packet, over any pieces of the packets' bytes and with any sequential script, yields every packet |
| TicketQueue.WinnersBounded | src/90s/lib/concurrentqueue.h:1954-2052 | the counting argument: if each winner has fewer than tail undefeated tickets before it, there are at most tail winners |
| TicketQueue.WriteInv | src/90s/lib/concurrentqueue.h:2487-2548 | constructing an element keeps the counters' invariant |
| TicketQueue.PublishInv | src/90s/lib/concurrentqueue.h:2487-2548 | publishing tailIndex keeps it |
| TicketQueue.EnterInv | src/90s/lib/concurrentqueue.h:2551-2559 | taking a ticket keeps it, with an overcommit read earlier |
| TicketQueue.DecideInv | src/90s/lib/concurrentqueue.h:2560-2615 | winning an index, or giving up, keeps it |
| TicketQueue.RunSafe | src/90s/lib/concurrentqueue.h:2486-2619 | in every run headIndex stays at or below tailIndex, every claim is below it and belongs to one dequeuer, and yields the element enqueued there |
| TicketQueue.ReturnedForGood | src/90s/lib/concurrentqueue.h:2551-2619 | an element handed out is never handed out again |
| TicketQueue.QuiescentCounts | src/90s/lib/concurrentqueue.h:1954-2052 | at rest the optimistic count minus the overcommit is the number of claims |
| TicketQueue.SoloDequeue | src/90s/lib/concurrentqueue.h:2551-2619 | alone, a dequeue succeeds exactly on a non-empty queue and takes the oldest element |
| TicketQueue.LosesIff | src/90s/lib/concurrentqueue.h:2551-2619 | a ticket fails exactly if the tickets before it that have not lost, with the lost ones it has not heard of, are as many as the elements it saw |
| TicketQueue.FailsOnNonEmpty | src/90s/lib/concurrentqueue.h:2551-2619 | the run in which a dequeue fails although the queue is never empty while it is inside |
| FreeList.EffectFits | src/90s/lib/concurrentqueue.h:1449-1550 | one atomic operation keeps count, flag and responsibility of its node in step |
| FreeList.RunSafe | src/90s/lib/concurrentqueue.h:1449-1550 | in every run the list is acyclic and duplicate-free, no node has two takers or adders, and a pending node has a thread that will release it |
| FreeList.SwapTakesTheFirst | src/90s/lib/concurrentqueue.h:1473-1502 | no ABA: a successful swap takes the first node and leaves exactly the rest |
| FreeList.BitIsClear | src/90s/lib/concurrentqueue.h:1493 | the assertion that the flag is clear on a node just taken |
| FreeList.NeverFreed | src/90s/lib/concurrentqueue.h:3067-3078 | a node that is in the list, or that a thread inside it has a pointer to, is never destroyed: only nodes of the initial pool get there |
| FreeList.PendingHasReleaser | src/90s/lib/concurrentqueue.h:1515-1545 | a node that should be on the list is held by a thread that adds it when it drops the last reference |
| Semaphore.EffectConserves | src/90s/lib/lightweightsemaphore.h:278-424 | every atomic operation preserves its thread's share of both balances |
| Semaphore.RunConserves | src/90s/lib/lightweightsemaphore.h:278-424 | in every run debt, tokens and pending releases equal registered waiters, and initial plus signalled equals free, pending and acquired permits |
| Semaphore.NoLostWakeup | src/90s/lib/lightweightsemaphore.h:357-418 | a waiter nobody is on the way to wake waits for a permit that does not exist |
| Semaphore.RetractIsServed | src/90s/lib/lightweightsemaphore.h:304-311 | a timed-out waiter that reads a count of 0 or more has a token there or owed to it |
| Semaphore.WaiterCanProgress | src/90s/lib/lightweightsemaphore.h:278-312 | a waiter while permits are left can be served by a step of some thread |
| Mailbox.SendWakes | src/80s/80s_common.c:360-380 | a sender's operation keeps the number of MAIL bytes under way equal to signaled |
| Mailbox.ReceiveWakes | src/80s/80s_common.c:410-419 | so does each operation of the receiving worker |
| Mailbox.ReceiveOrder | src/80s/80s_common.c:410-467 | taking and delivering the batch loses and reorders nothing |
| Mailbox.RunSafe | src/80s/80s_common.c:360-467 | in every run MAIL bytes not yet processed number signaled, stored mail is signalled, and delivered, batch and stored are what was sent in lock order |
| Mailbox.EachSocketOnce | src/80s/serve.epoll.c:166-220 | each accepted socket is registered with, or on its way to, the worker it was given to, exactly once, and no other, reloads included |
| Mailbox.OwnersGrow | src/80s/serve.epoll.c:179-216 | a socket stays with the worker it was given to |
| Mailbox.RoundRobin | src/80s/serve.epoll.c:213-216 | between two states without a restart of worker 0 the sockets go round the workers from its counter on |
| Mailbox.InTurn | src/80s/serve.epoll.c:166-216 | if worker 0 never restarts, accepted socket k is given to worker k modulo workers |
| Mailbox.AfterRestart | src/80s/serve.epoll.c:60 | the first socket after a restart of worker 0 is its own |
| Mailbox.RestIsDone | src/80s/serve.epoll.c:217-235 | with no MAIL byte left and nobody inside, all mail is delivered and each worker has the sockets given to it |
| ThreadPool.NeverSpinsOnEmpty | src/90s/lib/blockingqueue.h:358-367 | a thread that retries its dequeue always has an element for it in the queue |
| ThreadPool.RunSafe | src/90s/context.cpp:67-100 | in every run a pooled task is in one place, a promise is resolved at most once, with a result of its own work |
| ThreadPool.QuietIsDone | src/90s/context.cpp:249-267 | when all is quiet every promise still held has been resolved |
| ThreadPool.ExecInv | src/90s/context.cpp:530-536 | starting a task keeps the invariant |
| ThreadPool.PoolInv | src/90s/context.cpp:87-99 | waiting, dequeuing, running and mailing keep it |
| ThreadPool.ReceivePromises | src/90s/context.cpp:249-267 | a completion resolves a promise that was not resolved before |
| PoolSemaphore.StepRefines | src/90s/lib/blockingqueue.h:358-367 | each operation of the semaphore, on behalf of a pool thread or the event loop, is a step of the pool with the permits signalled and not acquired, or none |
| PoolSemaphore.RunRefines | src/90s/lib/blockingqueue.h:123-144 | so every run of the pool over the semaphore is a run of the pool |
| PoolSemaphore.WakesForElement | src/90s/lib/blockingqueue.h:358-367 | a thread that got its permit from the semaphore always has an element in the queue |
| Writer.Writer.constructor | src/90s/afd.cpp:379-420 | a new writer is empty |
| Writer.Writer.PerformWrite | src/90s/afd.cpp:362-373 | bytes taken by the system come off the unsent buffer, or the object starts closing |
| Writer.Writer.Distribute | src/90s/afd.cpp:195-216 | accepted bytes are assigned to writes in order, promises complete as they fill, whatever resumed coroutines do |
| Writer.Writer.Pass | src/90s/afd.cpp:189-227 | one pass distributes, then offers the rest when no bytes were given |
| Writer.Writer.OnWrite | src/90s/afd.cpp:187-233 | afterwards no accepted byte is unassigned; unsent bytes are offered |
| Writer.Writer.Write | src/90s/afd.cpp:397-420 | a write is queued last and, alone, offered at once; on a closing object it is refused |
| Writer.Writer.HandleFailure | src/90s/afd.cpp:276-286 | all queued writes come false, in order, once |
| Writer.Writer.OnClose | src/90s/afd.cpp:235-240 | closing does so the first time only |
| Writer.Writer.Close | src/90s/afd.cpp:288-297 | close fails pending writes at once, or leaves them to on_close |
| Writer.Writer.Exact | src/90s/afd.cpp:187-233 | between calls missing bytes equal unsent buffer, only the front is partly sent, and exactly the fully accepted writes have come true |
| Writer.Writer.Outcomes | src/90s/afd.cpp:187-286 | accepted bytes are a prefix of all writes, true promises are a paid-for prefix, and none is left after a close |
| Writer.OkSettles | src/90s/afd.cpp:187-233 | the invariant gives both balances and the exact outcomes |
| AioLock.AioLock.Lock | src/90s/util/aiolock.hpp:24-40 | lock grants a free lock, else queues; history stays fair |
| AioLock.AioLock.Unlock | src/90s/util/aiolock.hpp:42-51 | unlock hands over to the first waiter, or frees the lock |
| AioLock.LockingFair | src/90s/util/aiolock.hpp:24-40 | asking keeps one holder, arrival order, and nobody waiting for a free lock |
| AioLock.UnlockingFair | src/90s/util/aiolock.hpp:42-51 | so does releasing |
| AioLock.ArrivalOrder | src/90s/util/aiolock.hpp:24-51 | after every sequence of calls, whoever unlocks, promises were granted in the order asked for, and nobody waits for a free lock |
| AioLock.SecondBranchIsDead | src/90s/util/aiolock.hpp:29-35 | after every sequence of calls, lock takes its first or third branch |
| AioLock.HolderIsInside | src/90s/util/aiolock.hpp:24-51 | if nobody unlocks for somebody else, the one inside is the caller granted last, while the flag is down, and nobody otherwise |
| AioLock.ExclusiveIff | src/90s/util/aiolock.hpp:24-51 | at most one caller is inside at every moment, whoever asks next, exactly if nobody unlocks the lock while somebody else holds it |
| AioLock.StrangerUnlocks | src/90s/util/aiolock.hpp:42-51 | the input: one has the lock, another unlocks it, a third asks, and two are inside |
| AioLock.IdleUnlock | src/90s/util/aiolock.hpp:42-51 | unlocking a free lock changes nothing, and is not such a call |
| CommandLock.EndsIff | src/90s/sql/mysql.cpp:357-428 | a subprocedure reads exactly the answer if and only if it is of the kind it is meant for |
| CommandLock.NoEarlyIff | src/90s/sql/mysql.cpp:357-428 | a subprocedure stops in the middle of an answer only if it is exec_subproc and the answer is a table |
| CommandLock.SpellingMatters | src/90s/sql/mysql.cpp:313-317 | a result table is read to its end after "SELECT", not after "select" |
| CommandLock.ReadWire | src/90s/sql/mysql.cpp:357-428 | each packet read belongs to the reader's own query, and after the last nothing of the answer is left |
| CommandLock.RunSafe | src/90s/sql/mysql.cpp:228-271 | in every run without such an answer one caller is inside, turns follow requests, and every finished subprocedure read the answer to its own query |
| CommandLock.PairedIff | src/90s/sql/mysql.cpp:228-428 | every packet read answers the reader's own query, in all runs, exactly if no query for exec_subproc can be answered by a table |
| Transaction.Attempt | src/90s/sql/mysql.cpp:288-335 | one attempt stops at the first marker that triggers or the first failure, and rolls back where it must |
| Transaction.Atomically | src/90s/sql/mysql.cpp:273-351 | each START is closed once, at most one retry and only after an undone deadlock, one unlock, and all of the list or nothing is committed |
| Transaction.UndoneIsUnchanged | src/90s/sql/mysql.cpp:298-333 | a reported error or rollback leaves the database unchanged, and no transaction open if the last command worked |
| Transaction.SuccessIsRightIff | src/90s/sql/mysql.cpp:339-347 | a reported success is right exactly if the COMMIT worked |
| Transaction.FailedCommitIsSuccess | src/90s/sql/mysql.cpp:339-347 | the input: a statement that works and a COMMIT that fails are reported as success, with nothing committed |
| SingleFlight.StartInv | src/90s/cache/cache.hpp:132-143 | a call that hits, joins or leads keeps the invariant |
| SingleFlight.FinishInv | src/90s/cache/cache.hpp:143-147 | so does the arrival of the factory's result |
| SingleFlight.ResolvedOne | src/90s/cache/cache.hpp:148-150 | the leader's loop resolves a call that still waits for it |
| SingleFlight.RunSafe | src/90s/cache/cache.hpp:123-156 | in every run a race entry exists exactly while one factory for its key is in flight, and calls get their own leader's result |
| SingleFlight.ReturnedOnce | src/90s/cache/cache.hpp:148-150 | a call returns once |
| SingleFlight.NobodyForgotten | src/90s/cache/cache.hpp:148-154 | a leader that is done has nobody waiting for it |
| SingleFlight.DisjointIff | src/90s/cache/cache.hpp:97-156 | cached and racing keys stay disjoint over a step exactly if the step is not the synchronous cache, called for a racing key, whose own factory yields a value |
| SingleFlight.RunDisjoint | src/90s/cache/cache.hpp:123-156 | so they are disjoint in every run without such a step |
| SingleFlight.ResultIsStored | src/90s/cache/cache.hpp:60-62 | then the set that does not overwrite always stores the leader's result |
| SingleFlight.ResultIsDropped | src/90s/cache/cache.hpp:97-156 | with such a step the result can be dropped |
| Json.JsonEncode | src/90s/orm/json.hpp:20-67 | the printing loop writes the escaped string |
| Json.ReadStr | src/90s/orm/json.hpp:249-373 | the reading loop is the string reader of the model, on every input |
| Json.ReadNextToken | src/90s/orm/json.hpp:202-229 | so is the loop that reads a token |
| Json.StringBack | src/90s/orm/json.hpp:249-373 | reading what was escaped gives the string back, control characters through the UTF-16 buffer included |
| Json.EscapesAreClean | src/90s/orm/json.hpp:20-67 | printed strings have no raw control character and no bare quote |
| Json.BareNumbersAreExact | src/90s/orm/json.hpp:112-122 | integers printed without quotes are exact in a double |
| Json.CharEscapeBack | src/90s/orm/json.hpp:249-373 | every character written as one or two UTF-16 escapes is read as its UTF-8 form |
| Json.ToNativePrint | src/90s/orm/orm.hpp:281-349 | a printed integer of 8 to 64 bits, quoted or not, converts back |
| Json.NumericBack | src/90s/orm/json.hpp:548-560 | a printed number or bool is one token, and the delimiter behind it is carried |
| Json.ItemsBack | src/90s/orm/json.hpp:410-440 | the array loop reads back exactly the elements printed |
| Json.SlotBack | src/90s/orm/json.hpp:389-408 | an optional field is read back, present or null |
| Json.FieldsBack | src/90s/orm/json.hpp:441-532 | the object loop reads back exactly the members printed |
| Json.DecodeEncode | src/90s/orm/json.hpp:383-563 | the parser, standing before a printed value, returns it and stands behind it, carried character included |
| Json.RoundTrip | src/90s/orm/json.hpp:69-563 | decode of encode is the value, and consumes exactly the text, within the depth limit |
| Json.DecodeFits | src/90s/orm/json.hpp:383-563 | on any input a parse that succeeds yields a value of the type |
| Template.ReplaceOnce | src/90s/httpd/template_compiler.cpp:175-206 | one pass terminates and replaces the pieces of the split, each in its way, counting the blocks |
| Template.SplitIsCut | src/90s/httpd/template_compiler.cpp:180-206 | the pieces alternate, each ends at the first marker that can end it, and re-inserting the markers gives the input |
| Template.CutIsSplit | src/90s/httpd/template_compiler.cpp:180-206 | no other sequence of pieces is cut like that |
| Template.Lossless | src/90s/httpd/template_compiler.cpp:180-206 | the input comes back, no piece contains the marker that ends it, and only the last block can be unclosed |
| Url.Encode | src/90s/util/util.cpp:58-76 | the loop of url_encode is percent-encoding |
| Url.Decode | src/90s/util/util.cpp:19-56 | the loop of url_decode, short views included, and its output never outgrows its input |
| Url.EncodedChars | src/90s/util/util.cpp:58-76 | encoded text has only unreserved characters and percent signs |
| Url.UnreservedKept | src/90s/util/util.cpp:9-18 | unreserved text is left as it is |
| Url.DecodeEncode | src/90s/util/util.cpp:19-76 | decoding an encoded string gives it back, for all lengths and whatever lies beyond the view |
| Url.ParseQueryString | src/90s/util/util.cpp:150-172 | the loop of parse_query_string is the parser of the model |
| Url.BuildUrl | src/90s/httpd/environment.cpp:144-178 | url without encryption appends the query of its entries, in enumeration order |
| Url.PairBack | src/90s/util/util.cpp:165-170 | an encoded entry parses to its key and value |
| Url.QueryRoundTrip | src/90s/util/util.cpp:150-172 | parsing the query built from a dictionary gives the dictionary back, in whatever order it was enumerated |

## Left out

- Sockets, epoll, processes, signals, logging, TLS, zlib, the filesystem and the Lua interface; the system's part in a write is a list of how much it takes.
- Memory orderings, index wrap-around, block-index growth and the thread-id hash of the lock-free queue: operations are sequentially consistent and numbers unbounded.
- `TicketQueue` has one sub-queue with one enqueuer, as each producer has; the choice between producers is not modelled.
- `FreeList` bounds neither the reference count nor the number of threads; the 31 bits of the count are not modelled.
- The destructors, and promises whose coroutine is gone, except in the thread pool: waiters of the lock and of the cache are alive.
- `SingleFlight`, `ThreadPool` and `CommandLock` are step machines on values: the maps, counters and queues that the code updates in place are fields of one state.
- The sizes of `int` in the scan state, of `size_t` in buffers and of `int` in the results of writes: all are unbounded.
- StreamReader.Reader.OnData: does not model the decoding of TLS records; and a coroutine resumed by a read does not close the object.
- ReaderSessions.SessionRightIff: is about `read_n` and `read_until` with a flat delimiter, because what `read_any` and an empty delimiter yield depends on the pieces, and other delimiters fail without any resumed coroutine (`DelimiterScan.OverlapIsLost`). A session ends before its object is closed.
- Packets.ReadPackets: is about packets with at least one byte, because a read of 0 bytes, for the empty packet behind a payload of 2^24-1 bytes, waits until a byte of the next packet arrives.
- Writer.Writer.OnWrite: a system that keeps taking 0 bytes makes the loop spin; the script of its answers is finite, and its end is an error.
- Writer.Writer.Write: an empty write on an empty queue stays pending until another event, as in the code.
- Writer.Writer.HandleFailure: resolves the writes only; the reads it fails first are part of the reader.
- `Semaphore` has `wait` and `tryWait` as the many-permit operations with a maximum of 1, for which their swaps are the same.
- `Mailbox` leaves out failed allocations, and lets a worker's own sends run beside its receiving, which allows more interleavings than the code.
- The barrier of the live reload, where workers wait for each other; STOP and QUIT bytes and a restart of the loop are in the mailbox model, where a QUIT may be followed by a restart as well.
- `CommandLock` takes a packet for what its first byte says, so a row that starts with 0xFE, or an error packet in the middle of rows, does not occur; connecting and the handshake are not modelled.
- Transaction.Atomically: statements that end the transaction themselves, such as a COMMIT in the list, are not modelled.
- SingleFlight.DisjointIff: the synchronous `cache` is one step, although its factory runs inside it and can itself start `async_cache` for the same key, which then races only after the test.
- `SingleFlight` leaves out the clock (any entry may expire at any time) and factories that throw.
- Json.DecodeEncode: is about functions that pass the input along, where the code updates a stream and a target object in place; the scanning loops are methods. Error texts are not modelled.
- Skipping members an object's type does not have, floats, dates, `varchar` and optional array elements in JSON: parsing an unknown member has an outcome of its own, and nothing is claimed of it.
- Template.ReplaceOnce: is one pass; the repetition until nothing matches is not modelled, as the replacement may produce markers again.
- The encrypted forms of `url`, HTML escaping, websockets, the disk cache, snowflake ids and the tick scheduler.
