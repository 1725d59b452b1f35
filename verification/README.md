# Verification of the network disk server

This project models the parts of the server in which the hard guarantees live, and proves them in Dafny.

* **Task queue and thread pool** (`tcppart/TaskQueue.cc`, `ThreadPool.cc`, `Thread.cc`). `PoolModel` is a transition
  system of any number of producers, workers and one control thread. Every thread has a program counter; the mutex and
  the condition variables follow POSIX.1-2017 (atomic release-and-block, a signal wakes at most one blocked thread,
  spurious wakeups). The loop test of `pop` and the sleep that follows it are separate steps, and `wakeup` and the drain
  test of `stop` act without the mutex, as in the code. `PoolInvariant` is the inductive invariant; `PoolSafety`,
  `PoolLiveness`, `PoolShutdown` and `PoolLeftover` hold the results. `PoolThreads` has the same code in imperative form:
  `push`, `pop`, `doTask`, `start`, `stop` and `wakeup` with their loops, each running on one thread, from any pool state
  that satisfies the invariant, while a schedule lets all others act between two atomic actions. The object invariant says
  that every turn of the schedule was taken in the state it found, so that everything that happens is a run of the system
  and no turn is lost. `PoolCalls` draws the consequences for calls that nobody stands in the way of.
* **Message codec** (`httppart/FileManager.pb.cc`). `Wire` has the wire-format primitives after the Protocol Buffers
  Encoding specification, and `Utf8` the validity test for strings, after the Unicode Standard. `MessageCodec` gives parsing, serializing and merging as functions on message values.
  `FileManagerPb` has the generated classes `DirInfo` and `DirRet` statement by statement.
* **Transport** (`tcppart/SocketIO.cc`, `TcpConnection.cc`). The kernel is a script of outcomes: short transfers, EINTR,
  faults. The loops write into the caller's array in place.
* **Upload store and download stream** (`tcppart/FileServer.cc`). `FileStore` is the disk, the table and the cache as a
  state machine over requests; MD5 is any function to 16 bytes. `Frames` is the byte stream of a download and its
  decoder. `FileTasks` has `FileTask` in imperative form over `TcpConnection`.
* **Connection registry** (`tcppart/EventLoop.cc`). `Registry` is a state machine with the epoll interest set, `_conns`,
  the descriptor table, the references held by tasks, and the two `close` calls that every dying connection makes.
  `EventLoops` has the event loop in imperative form and proves that handling a batch is a run of that machine.

`dafny verify dfyconfig.toml` checks everything.

What the proofs found, besides confirming what the code is meant to do:

* `stop` can hang. `wakeup` takes no mutex, so a worker that has tested the loop condition of `pop` and not yet blocked
  misses the broadcast. `PoolShutdown.StopHangsExactly` says exactly when this makes `stop` hang: if no producer is inside
  `addTask` at that moment (or the capacity is 0). `StopReturns` says that `stop` returns otherwise, and
  `HangIsReachable` gives the schedule.
* `stop` can leave tasks in the queue for ever, and callers blocked: `PoolLeftover.LeftoverExactly` says exactly when
  (a producer is inside `addTask` with an unpushed task when `stop` finds the queue empty), and
  `LeftoverIsReachable` gives a state with both.
* Before `_flag` is cleared the pool can deadlock: exactly if every worker has left, every caller is blocked, and `start`
  has no thread left to create (`PoolLeftover.DeadExactly`, `DeadlockIsReachable`).
* A message whose strings are not valid UTF-8 is serialized all the same and then rejected by the parser
  (`MessageCodec.RoundTrip`, an if-and-only-if; `NotEveryMessageReturns` gives such a message).
* `send` and `receive` move a `long long` size through an `int`: from 2^31 bytes on they transfer less
  (`TcpConnections.AskedIsSize`), and the download stream then no longer decodes (`Frames.StreamDecodes`).
* `readLine` returns its byte count except when the input ends early; the value can then even be -1
  (`SocketIO.ReturnIsCount`, `SocketIO.ReturnLooksLikeError`).
* The retry loop of `savefile` ends only if one of the first blocks matches (`FileTasks.RetryEndsEarlyOrNever`); after
  the end of the input it spins for ever, unless the buffer happens to match (`FileTasks.RetrySpinsAtTheEnd`).
* `downloadfile` opens the logical name, not the name under which the bytes are stored, and sends as many bytes as the row
  says. `FileStore.DownloadServesTheUpload` says exactly when these are the right bytes, `OrdinaryDownloadFails` that they
  are not after an ordinary upload, and `WrongBytesAreServed` gives a download of other bytes.
* A connection that dies on a worker thread closes its descriptor twice with room for an `accept` in between; then the
  second `close` hits a live connection, which stays registered but is closed and no longer watched
  (`Registry.StrayCloseIsReachable`). A file that a worker has opened in between makes the window longer
  (`LostFileIsReachable`). `Registry.AcceptIsSafe` says for every reachable state exactly when an accepted connection
  keeps its descriptor. The callback order holds all the same (`Registry.CallbackOrder`).

Where comments or messages in the code promise more than it does (the comment of `wakeup` says that all waiting threads
are woken), the model follows the code.

## Model

| member | source | states |
|---|---|---|
| PoolInvariant.InitInv | tcppart/ThreadPool.cc:9-17 | the fresh pool satisfies the invariant, for any numbers of threads and any capacity |
| PoolInvariant.PushInv | tcppart/TaskQueue.cc:20-35 | every atomic step of a producer inside `push` keeps the whole invariant |
| PoolInvariant.PopWaitInv | tcppart/TaskQueue.cc:38-47 | every step of a worker up to the second test of `_flag` keeps the invariant |
| PoolInvariant.PopTakeInv | tcppart/TaskQueue.cc:47-60 | taking the front, signalling and unlocking keep the invariant |
| PoolInvariant.TaskLoopInv | tcppart/ThreadPool.cc:88-99 | the steps of `doTask` around `pop` keep the invariant, so no task is called twice |
| PoolInvariant.ControlInv | tcppart/ThreadPool.cc:25-58 | the steps of `start` and `stop` keep the invariant |
| PoolInvariant.StepInv | tcppart/TaskQueue.cc:20-78 | one step of any thread, spurious wakeups included, keeps the invariant |
| PoolSafety.ReachableInv | tcppart/TaskQueue.cc:20-78 | every state of every interleaving satisfies the invariant |
| PoolSafety.BoundedFifo | tcppart/TaskQueue.cc:20-71 | over every interleaving popped ++ queue == pushed, the capacity is never exceeded, and `front` is never taken of an empty queue |
| PoolSafety.MutualExclusion | tcppart/TaskQueue.cc:20-60 | at most one thread is between lock and unlock |
| PoolSafety.NoLostWakeup | tcppart/TaskQueue.cc:20-60 | with the mutex free, a sleeping worker (before `wakeup`) means that every queued task is matched by a woken worker; a sleeping producer means the same for every free slot |
| PoolSafety.TasksAreSplit | tcppart/ThreadPool.cc:61-99 | every pushed task is queued, held by exactly one worker, or finished; it is called at most once, and the worker has the callback that was pushed |
| PoolSafety.ShutdownIsExactlyOnce | tcppart/ThreadPool.cc:40-58 | when `stop` returns, every task pushed before its successful emptiness test has run exactly once, and what is left was pushed after it |
| PoolSafety.NothingRunsAfterStop | tcppart/ThreadPool.cc:40-58 | after `stop` no callback is called, the queue keeps what it holds, and on a full queue nobody gets to push |
| PoolLiveness.AcceptedArePushed | tcppart/ThreadPool.cc:61-67 | over every run the number of non-empty tasks given to `addTask` is the number pushed plus those still inside `push` |
| PoolLiveness.WorkIsBounded | tcppart/TaskQueue.cc:20-60 | while `_flag` is set, the steps of all producers and workers are bounded by what is pending plus what new calls and spurious wakeups add, under any scheduler; the control thread adds nothing, however often it polls |
| PoolLiveness.NoDeadlock | tcppart/TaskQueue.cc:26-51 | before `_flag` is cleared, with capacity at least 1 and a task queued or a producer inside `addTask`: some producer or worker can step at once if and only if not (all started workers have left and all callers are blocked) |
| PoolLiveness.QuietMeansDone | tcppart/ThreadPool.cc:88-99 | when no producer or worker can step and a worker has not left, every accepted task has been called and has returned exactly once |
| PoolLiveness.DrainLoopEnds | tcppart/ThreadPool.cc:42-46 | while `stop` polls, the work of all threads is bounded; as long as a task is queued some thread can step; after that much work the queue is empty and the next test succeeds |
| PoolShutdown.BroadcastWakesEverybody | tcppart/TaskQueue.cc:74-78 | no worker ever sleeps again after the broadcast, in any continuation, if and only if none was between the loop test and the sleep when it happened |
| PoolShutdown.StopHangsExactly | tcppart/TaskQueue.cc:42-78 | from the broadcast on, without new calls and spurious wakeups, a state is reachable in which nobody can step and `stop` has not returned, if and only if a worker was between the loop test and the sleep and no producer was inside `addTask` (or the capacity is 0) |
| PoolShutdown.StopReturns | tcppart/ThreadPool.cc:48-57 | otherwise, in every run, the steps of all threads are bounded and until `stop` has returned some thread can step |
| PoolShutdown.ShutdownIsBounded | tcppart/ThreadPool.cc:48-57 | once `wakeup` has returned, all threads together make at most a computed number of steps, plus five for each new call or spurious wakeup |
| PoolShutdown.RescuedRun | tcppart/TaskQueue.cc:31-44 | every run keeps that nobody sleeps, or that there is one sleeper and a producer on its way to wake it |
| PoolShutdown.ShutdownGoesOn | tcppart/ThreadPool.cc:54-57 | under that condition some thread can step until every thread is joined |
| PoolShutdown.TrappedForEver | tcppart/TaskQueue.cc:42-45 | a worker that missed the broadcast, with nobody on the way, stays blocked and `stop` does not return, unless there is a new call or a spurious wakeup |
| PoolShutdown.HangIsReachable | tcppart/TaskQueue.cc:42-78 | such a state is reachable, for every capacity |
| PoolLeftover.LeftoverExactly | tcppart/ThreadPool.cc:40-58 | let `stop` find the queue empty: in every run without new calls the queue is empty when `stop` returns, if and only if no producer was carrying an unpushed task (or the capacity is 0) |
| PoolLeftover.LeftoverIsReachable | tcppart/ThreadPool.cc:40-58 | a reachable state in which `stop` has returned, the queue is full and a caller is blocked, for every task |
| PoolLeftover.DeadExactly | tcppart/ThreadPool.cc:25-58 | in that situation no producer or worker ever steps again, in any run without new calls and spurious wakeups, if and only if all started workers have left, all callers are blocked and `start` has no thread left to create |
| PoolLeftover.DeadlockIsReachable | tcppart/ThreadPool.cc:48-51 | such a deadlock is reachable, for every task |
| PoolThreads.PlayIsRun | tcppart/TaskQueue.cc:20-78 | taking every turn of any schedule, where it is enabled, is a run of the transition system |
| PoolThreads.Pool.NowIsPlayed | tcppart/TaskQueue.cc:20-78 | the state is what taking every turn used so far gives: no enabled step of this or another thread has been skipped, and nothing else has happened |
| PoolThreads.Pool.Pause | tcppart/TaskQueue.cc:20-78 | between two atomic actions others act, until this thread has a turn at which its next step is enabled; if there is none, the whole schedule has been played while it stood still |
| PoolThreads.OtherStays | tcppart/TaskQueue.cc:20-78 | other threads do not move a thread except to wake it, and histories only grow |
| PoolThreads.Pool.constructor | tcppart/ThreadPool.cc:9-17 | one thread's view of any pool state that satisfies the invariant, such as the initial one, with its whole schedule ahead |
| PoolThreads.Pool.Push | tcppart/TaskQueue.cc:20-35 | when `push` returns, its task has entered the queue under the returned number, pushed by this thread during this call, whatever other threads did; otherwise every turn of the schedule has been taken and this thread is still inside the call |
| PoolThreads.Pool.AddTask | tcppart/ThreadPool.cc:61-67 | a non-empty task has been pushed by this thread, under the returned number, before `addTask` returns; an empty one is ignored and takes no turn; otherwise as for `push` |
| PoolThreads.Pool.Pop | tcppart/TaskQueue.cc:38-60 | a returned task was taken from the queue by this call for this worker; the empty function is returned only after `_flag` was cleared; otherwise every turn has been taken and the worker is still inside `pop` |
| PoolThreads.Pool.DoTask | tcppart/ThreadPool.cc:88-99 | returns only after `_isExit` was set; then every task this worker has taken has been called, and has returned, exactly once; otherwise every turn has been taken and the worker has not left |
| PoolThreads.Pool.ReturnFromTask | tcppart/ThreadPool.cc:91-94 | a task that has returned was called exactly once and has returned exactly once |
| PoolThreads.Pool.Start | tcppart/ThreadPool.cc:25-38 | every thread is tried; the running threads are exactly those whose creation has succeeded, and the others have not been started; otherwise every turn has been taken and `start` has not returned |
| PoolThreads.Pool.Wakeup | tcppart/TaskQueue.cc:74-78 | `_flag` is cleared and nobody is blocked on `_notEmpty` when it returns; the two steps take no mutex; otherwise every turn has been taken |
| PoolThreads.Pool.Stop | tcppart/ThreadPool.cc:40-58 | when `stop` returns, every task that was pushed when it was called has been called, and has returned, exactly once; otherwise every turn has been taken and `stop` has not returned |
| PoolThreads.Pool.Join | tcppart/Thread.cc:47-60 | returns only when the thread has left `doTask` or was never started, with `_isRunning` cleared |
| PoolCalls.PushAlone | tcppart/TaskQueue.cc:20-35 | with the mutex free, room in the queue and five turns of its own, `push` returns and the queue is the old queue with the task at its end |
| PoolCalls.PopAlone | tcppart/TaskQueue.cc:38-60 | with the mutex free, `_flag` set, a task in the queue and six turns of its own, `pop` returns the front of the queue and leaves the rest |
| PoolCalls.StartAlone | tcppart/ThreadPool.cc:25-38 | with a turn for each thread and one more, `start` returns, and exactly the threads whose creation succeeds at their turn are in `doTask` |
| PoolCalls.StopIdle | tcppart/ThreadPool.cc:40-58 | on a pool whose queue is empty and whose workers, any number of them, are asleep, `stop` returns once every worker has had its turns to leave |
| Wire.VarintRoundTrip | httppart/FileManager.pb.cc:230-234 | both varint readers undo the writer, the 32-bit one up to truncation |
| Wire.VarintLength | httppart/FileManager.pb.cc:398-402 | the size computed for a varint is its length, up to ten bytes |
| Wire.RawVarintMeaning | httppart/FileManager.pb.cc:230-234 | a varint is read from any bytes as the sum of their seven-bit groups, whether or not it is the shortest spelling |
| Wire.SkipFieldRoundTrip | httppart/FileManager.pb.cc:278-279 | a written record of any type, nested groups included, is read back as an unknown field with nothing more consumed |
| Wire.SkipFieldWellFormed | httppart/FileManager.pb.cc:278-279 | what is kept as an unknown field can be written again and read back |
| Wire.NestingLimit | httppart/FileManager.pb.cc:278-279 | groups nested up to 100 deep are read back as an unknown field, and deeper ones are refused |
| Wire.RecordsSizeIsLength | httppart/FileManager.pb.cc:377-381 | the computed size of unknown fields is the number of bytes they are written to |
| MessageCodec.IntegerRoundTrip | httppart/FileManager.pb.cc:230-234 | sign extension to 64 bits and truncation undo each other for every int64 and int32 |
| MessageCodec.FieldRanges | httppart/FileManager.pb.cc:230-234 | `dirid` holds any integer from -2^63 to 2^63 - 1 and `code` any from -2^31 to 2^31 - 1, and each of them is read back from its varint |
| MessageCodec.FromVarintMeaning | httppart/FileManager.pb.cc:230-234 | whatever varint is on the wire, the field gets the value in its range that is congruent to it |
| Utf8.ValidExactly | httppart/FileManager.pb.cc:247-250 | a string passes the validity test if and only if it is the concatenation of the encodings of code points below 0x110000 that are no surrogates |
| MessageCodec.NegativeTakesTenBytes | httppart/FileManager.pb.cc:614-617 | a negative int32 or int64 takes ten bytes |
| MessageCodec.ParseSerialized | httppart/FileManager.pb.cc:217-329 | parsing a serialized message into another one merges it and goes on with what follows; invalid UTF-8 makes it fail |
| MessageCodec.ParseStops | httppart/FileManager.pb.cc:222-282 | where the parser stops: the end of the input, a zero tag and an overlong tag leave the message as it is, and only the first counts as the end of the message |
| MessageCodec.ConcatenationIsMerge | httppart/FileManager.pb.cc:217-441 | parsing two serialized messages in a row gives the first merged with the second |
| MessageCodec.RoundTrip | httppart/FileManager.pb.cc:217-329 | a serialized message is parsed back if and only if its strings are valid UTF-8; otherwise parsing fails |
| MessageCodec.NotEveryMessageReturns | httppart/FileManager.pb.cc:246-249 | a message that is serialized and then rejected, for every message type with a string |
| MessageCodec.MergeDefault | httppart/FileManager.pb.cc:423-441 | merging with an empty message, on either side, changes nothing |
| MessageCodec.MergeAssociative | httppart/FileManager.pb.cc:423-441 | merging is associative |
| MessageCodec.ByteSizeIsLength | httppart/FileManager.pb.cc:373-406 | the computed size of any message is the number of bytes it is serialized to |
| MessageCodec.ParseKeepsValid | httppart/FileManager.pb.cc:217-291 | whatever is parsed is a message with values in range, valid UTF-8 and well-formed unknown fields |
| MessageCodec.Canonical | httppart/FileManager.pb.cc:217-329 | whatever bytes parse to a message, its serialization parses to the same message and is consumed completely |
| FileManagerPb.LowBits | httppart/FileManager.pb.cc:561-564 | reading an int32 through the 64-bit or the 32-bit varint reader gives the same value |
| FileManagerPb.DirInfoBytes | httppart/FileManager.pb.cc:293-329 | the bytes of a `DirInfo`: tag 0x08 with `dirid`, tag 0x12 with `name` and tag 0x1a with `uuid`, in this order, each left out if it has its default |
| FileManagerPb.DirRetBytes | httppart/FileManager.pb.cc:608-634 | the bytes of a `DirRet`: tag 0x08 with `code` and tag 0x12 with `jsoninfo` |
| FileManagerPb.DirInfo.Clear | httppart/FileManager.pb.cc:205-215 | all fields get their defaults; the cached size stays |
| FileManagerPb.DirInfo.Turn | httppart/FileManager.pb.cc:222-282 | one turn of the parse loop consumes at least one byte or stops, and what remains to be parsed gives the same result |
| FileManagerPb.DirInfo.MergePartialFromCodedStream | httppart/FileManager.pb.cc:217-291 | returns false exactly if parsing fails, and otherwise leaves the parsed message |
| FileManagerPb.DirInfo.SerializeWithCachedSizes | httppart/FileManager.pb.cc:293-329 | appends the serialization of the message to the stream |
| FileManagerPb.DirInfo.InternalSerializeWithCachedSizesToArray | httppart/FileManager.pb.cc:331-371 | writes the same bytes at the given position of the buffer, changes nothing else, and returns the end |
| FileManagerPb.DirInfo.ByteSizeLong | httppart/FileManager.pb.cc:373-406 | returns the number of bytes both serializers write, and caches it as an int |
| FileManagerPb.DirInfo.MergeFrom | httppart/FileManager.pb.cc:423-441 | the message becomes the merge of its old value and the other message |
| FileManagerPb.DirInfo.CopyFrom | httppart/FileManager.pb.cc:450-455 | the message becomes equal to the other one, also if they are the same object |
| FileManagerPb.DirRet.Clear | httppart/FileManager.pb.cc:537-546 | all fields get their defaults; the cached size stays |
| FileManagerPb.DirRet.Turn | httppart/FileManager.pb.cc:553-597 | as for DirInfo, with a 32-bit code |
| FileManagerPb.DirRet.MergePartialFromCodedStream | httppart/FileManager.pb.cc:548-606 | returns false exactly if parsing fails, and otherwise leaves the parsed message |
| FileManagerPb.DirRet.SerializeWithCachedSizes | httppart/FileManager.pb.cc:608-634 | appends the serialization of the message to the stream |
| FileManagerPb.DirRet.InternalSerializeWithCachedSizesToArray | httppart/FileManager.pb.cc:636-665 | writes the same bytes at the given position of the buffer, changes nothing else, and returns the end |
| FileManagerPb.DirRet.ByteSizeLong | httppart/FileManager.pb.cc:667-693 | returns the number of bytes both serializers write, and caches it as an int |
| FileManagerPb.DirRet.MergeFrom | httppart/FileManager.pb.cc:710-724 | the message becomes the merge of its old value and the other message |
| FileManagerPb.DirRet.CopyFrom | httppart/FileManager.pb.cc:733-738 | the message becomes equal to the other one, also if they are the same object |
| SocketIO.SocketIO.Readn | tcppart/SocketIO.cc:20-50 | for any fragmentation and any EINTRs it delivers the first min(len, available) bytes in order at the right place, changes nothing else in the buffer, consumes exactly those bytes, and terminates |
| SocketIO.SocketIO.Writen | tcppart/SocketIO.cc:102-131 | without faults all len bytes are written in order; in every case a prefix is, and the result is its length or -1 |
| SocketIO.SocketIO.ReadLine | tcppart/SocketIO.cc:52-100 | consumes exactly one line (or len-1 bytes, or what is there), leaves exactly those bytes and a NUL in the buffer, however the peeks are cut; also after faults it has consumed at most len-1 bytes, from the front |
| SocketIO.AnyOutcome | tcppart/SocketIO.cc:26-49 | the modelled kernel is unrestricted: each call can be interrupted, fail or move any number of bytes from one to what there is |
| SocketIO.LineLengthMeaning | tcppart/SocketIO.cc:77-93 | that line goes through the first newline, or to the end of the room or the input if there is none |
| SocketIO.ReturnIsCount | tcppart/SocketIO.cc:86-98 | the returned value is the byte count if and only if the line is complete or the buffer is full |
| SocketIO.ReturnLooksLikeError | tcppart/SocketIO.cc:98-98 | an input on which one byte is read and -1 is returned |
| TcpConnections.AskedIsSize | tcppart/TcpConnection.cc:25-35 | the narrowed size is the size if and only if it is below 2^31 |
| TcpConnections.AskedIsLowBits | tcppart/TcpConnection.cc:25-35 | any size is narrowed to its low 32 bits, and if they are negative as an int nothing is transferred |
| TcpConnections.TcpConnection.Send | tcppart/TcpConnection.cc:25-28 | without faults the bytes asked for after narrowing are written in order, and in every case a prefix of them |
| TcpConnections.TcpConnection.Receive | tcppart/TcpConnection.cc:32-35 | without faults the bytes asked for after narrowing, or what is there, replace the front of the buffer, whose tail keeps its old bytes; after a fault a prefix of them does |
| TcpConnections.TcpConnection.IsClosed | tcppart/TcpConnection.cc:38-44 | true exactly if the input is at its end and the call neither fails nor is interrupted |
| TcpConnections.Exchange | tcppart/TcpConnection.cc:25-35 | a message of up to 2^31 - 1 bytes sent by one end is received unchanged by the other, under any fragmentation and interruptions on both sides |
| FileStore.PathInjective | tcppart/FileServer.cc:171-178 | different hashes are stored under different paths |
| FileStore.PathSpells | tcppart/FileServer.cc:171-178 | behind the fixed prefix the path spells the hash, two hex digits to the byte with the more significant one first |
| FileStore.BuildName | tcppart/FileServer.cc:171-178 | the loop over 16 bytes spells the path of the hash |
| FileStore.ExistsIsMembership | tcppart/FileServer.cc:151-165 | whatever the cache holds, the existence test answers exactly whether the table has the path |
| FileStore.AppendsToEmpty | tcppart/FileServer.cc:215-217 | the append of an upload always lands in an empty file |
| FileStore.StepInv | tcppart/FileServer.cc:86-98 | uploads, loss of cache keys, soft deletes, new directories and downloads keep the store's invariant |
| FileStore.ContentAddressed | tcppart/FileServer.cc:168-219 | over every run of requests each path in the table is on disk with content whose MD5 it spells, and every other file is empty |
| FileStore.FilesAreImmutable | tcppart/FileServer.cc:180-217 | a stored file is never changed or lost by later requests |
| FileStore.DiskIsTable | tcppart/FileServer.cc:86-92 | without downloads the paths on disk are exactly the non-empty paths in the table |
| FileStore.PathsRemoved | httppart/dirinfoserver.cc:121-123 | the soft delete of a directory keeps the set of stored paths |
| FileStore.DirectoryRows | httppart/dirinfoserver.cc:121-123 | the soft delete gives exactly the rows of that user and directory the number -2 and changes no other field or row; a new directory adds one row without a file |
| FileStore.CacheOfUsers | tcppart/FileServer.cc:93-95 | an upload adds its path to the cached set of its user, the expiry of a key removes that user's set, and nothing changes the set of another user |
| FileStore.DownloadCreates | tcppart/FileServer.cc:131-131 | a download changes no table, cache or existing file, and creates an empty file under the logical name exactly if there is none and a row is selected |
| FileStore.DownloadServesTheUpload | tcppart/FileServer.cc:127-146 | a download sends what is stored under the row's hash if and only if the row has the stored length, and the opened file is the stored one, or the stored one is empty, or the logical name is another stored file that begins with the same bytes |
| FileStore.OrdinaryDownloadFails | tcppart/FileServer.cc:127-146 | after an upload of any non-empty file under any name that is not its stored path, the opened file does not have the bytes to send |
| FileStore.WrongBytesAreServed | tcppart/FileServer.cc:127-146 | a run of two uploads after which a download sends one byte of a longer stored file, for every content |
| FileStore.AnotherFileServes | tcppart/FileServer.cc:127-146 | a run of two uploads after which a download sends the right bytes from another stored file |
| FileStore.RowSizeIsStoredSize | tcppart/FileServer.cc:88-92 | if an upload of a new file has the announced length, the added row has the length of the stored file if and only if the file was new or the announced length is the right one |
| Frames.HeaderRoundTrip | tcppart/CusInfo.h:11-17 | directory, index and file length are read back from a header, and the upload flag is false, whatever the uninitialised bytes hold |
| Frames.StreamDecodes | tcppart/FileServer.cc:127-148 | the stream of a download decodes to exactly the rows' indices and bytes, for any list and any lengths, if and only if every file is below 2^31 bytes |
| FileTasks.ChannelShrinks | tcppart/FileServer.cc:196-197 | n turns of the retry loop have consumed n times the asked size, or everything |
| FileTasks.RetryEndsEarlyOrNever | tcppart/FileServer.cc:196-214 | if the retry loop ends at all, it does so within as many turns as there are input bytes, plus one |
| FileTasks.RetrySpinsAtTheEnd | tcppart/FileServer.cc:196-214 | with no input left the loop ends if and only if the buffer already has the announced hash |
| FileTasks.FirstMatchingBlock | tcppart/FileServer.cc:196-214 | on a stream of blocks the loop stops at the first block with the announced hash, with exactly that block in the buffer and everything behind it unread |
| FileTasks.FileListEmpty | tcppart/FileServer.cc:102-119 | the list is empty exactly if no row has the user, the directory and the name |
| FileTasks.OthersRow | tcppart/FileServer.cc:102-103 | adding or removing a row of another user anywhere in the table changes no list |
| FileTasks.OthersChangeNothing | tcppart/FileServer.cc:102-103 | no run of requests of other users changes what a user can download |
| FileTasks.RemovedIsGone | tcppart/FileServer.cc:102-103 | nothing of a removed directory is listed any more |
| FileTasks.FileTask.IsFileExits | tcppart/FileServer.cc:151-165 | true exactly if the user's cached set holds the path or some row of the table does |
| FileTasks.FileTask.ReceiveMatching | tcppart/FileServer.cc:196-214 | stops at the first block with the right hash, has sent exactly one error for every earlier block, and has consumed nothing beyond the match; terminates exactly under its precondition |
| FileTasks.FileTask.SaveFile | tcppart/FileServer.cc:168-219 | the first byte sent reads as true exactly if the table holds the path; a known file is answered and nothing else happens; otherwise the first matching block, and only it, is appended to the file of its hash |
| FileTasks.FileTask.GetFileList | tcppart/FileServer.cc:101-120 | the entries are, in the order of the table, the index, path and size of exactly the rows whose user, directory and name are the requested ones |
| FileTasks.FileTask.DownloadFile | tcppart/FileServer.cc:122-149 | the bytes sent decode to one frame for each row with the user, directory and name, in the order of the table, with the row's index and the mapped bytes, if every file is below 2^31 bytes; the store is changed as by the store's download |
| FileTasks.FileTask.Process | tcppart/FileServer.cc:66-99 | the first byte sent reads as true exactly if there is a session, and without one nothing else happens; for an upload the second reads as true exactly if the table holds the path, a new file gets the first matching block, the row is added and the user's cache key is gone; a download sends the frames of exactly the selected rows |
| Registry.StepInv | tcppart/EventLoop.cc:95-145 | every step of the loop thread, of workers and of other threads keeps the registry's invariant, if no number is reused between two close calls |
| Registry.CallbackOrder | tcppart/EventLoop.cc:95-145 | over every run, also when numbers are reused: each connection's callbacks are one connect, then messages, then at most one close and nothing after it |
| Registry.EveryEventCallsBack | tcppart/EventLoop.cc:95-145 | over every run there are as many connections as accepts, and each has got one connect callback, one message callback for each event handled for it with the peer open, and one close callback for each that found the peer gone, of which there is at most one |
| Registry.ReferencesBalance | tcppart/FileServer.cc:259-263 | over every run the references that message callbacks hand to tasks are those still held plus those released |
| Registry.AgreementIsOwnership | tcppart/EventLoop.cc:95-145 | over every run the interest set is the listening descriptor plus the registered descriptors that are open and their connection's own; the tables agree if and only if all of them are |
| Registry.RegistryAgrees | tcppart/EventLoop.cc:95-145 | over every run that reuses no number between two close calls the interest set is the listening descriptor plus the keys of `_conns`, a connection is registered exactly until its close callback, its descriptor is open exactly while somebody refers to it, and no late close is about to hit an open descriptor |
| Registry.NothingAfterClose | tcppart/EventLoop.cc:127-132 | after any run, a closed connection gets no more callbacks in any continuation, whatever happens to its number |
| Registry.SecondCloseIsHarmless | tcppart/Socket.cc:23-26 | the second close of a connection finds its number closed and has no effect |
| Registry.LoopThreadIsCareful | tcppart/EventLoop.cc:118-132 | if connections die on the loop thread only and workers open no descriptors, no number is reused in between |
| Registry.LoopThreadSparesConnections | tcppart/SocketIO.cc:14-17 | in every run without any condition, the second close made by the loop thread never hits a connection |
| Registry.AcceptIsSafe | tcppart/EventLoop.cc:95-115 | in every state that any run can reach: an accepted connection keeps its descriptor until its close callback in every continuation, if and only if no other thread takes the number for its own file, no earlier connection with it is still referred to, and no late close for it is to come |
| Registry.CarefulIsUnthreatened | tcppart/EventLoop.cc:95-115 | after a run that has reused no number, only a late close can threaten the accepted number |
| Registry.LateCloseIsSafe | tcppart/EventLoop.cc:95-115 | after such a run the late close calls that are to come leave the registry in agreement if and only if none of them is for the accepted number |
| Registry.LostFileIsReachable | tcppart/EventLoop.cc:95-115 | for every number a state is reachable in which the tables agree and no late close is to come, and still the next accepted connection loses its descriptor to a worker's own close |
| Registry.StrayCloseIsReachable | tcppart/SocketIO.cc:14-17 | for every descriptor number there is a run after which a live connection is registered under it while the descriptor is closed and no longer watched |
| Registry.StrayCloseOfAFile | tcppart/Socket.cc:23-26 | a file that another thread opens between the two close calls under the same number is closed |
| Registry.LoopClosesAFile | tcppart/SocketIO.cc:14-17 | for every number a state is reachable in which the loop thread is about to close a file that another thread has opened between its two close calls |
| EventLoops.BatchIsRun | tcppart/EventLoop.cc:72-90 | from any state, handling any batch, stale events and unknown descriptors included, is a run of the registry in which connections die on the loop thread only |
| EventLoops.EveryEventActs | tcppart/EventLoop.cc:72-90 | every event of a batch acts in the state that the events before it have left: an event that is not readable or for an unknown descriptor changes nothing, a readable one accepts, calls back or closes, with its exact effect on every table |
| EventLoops.BatchCallsBack | tcppart/EventLoop.cc:72-90 | over a batch a connection gets one message callback for each readable event that is for it and finds the peer open, and one close callback for each that finds it gone |
| EventLoops.AgreementAfterEveryEvent | tcppart/EventLoop.cc:72-90 | after every event of a batch the interest set is the listening descriptor plus the keys of `_conns`, also while workers are between their close calls, as long as `accept` returns none of their numbers |
| EventLoops.InterestAfterEveryEvent | tcppart/EventLoop.cc:72-90 | without that condition it is the listening descriptor plus the registered descriptors that are still their connection's own |
| EventLoops.EventLoop.constructor | tcppart/EventLoop.cc:14-22 | only the listening descriptor is watched, and there are no connections |
| EventLoops.EventLoop.AddEpollReadFd | tcppart/EventLoop.cc:160-172 | the descriptor joins the interest set |
| EventLoops.EventLoop.DelEpollReadFd | tcppart/EventLoop.cc:175-187 | the descriptor leaves the interest set |
| EventLoops.EventLoop.HandleNewConnection | tcppart/EventLoop.cc:95-115 | an accepted connection is watched, entered and announced, and an entry it replaces is let go; a failed accept changes nothing |
| EventLoops.EventLoop.HandleMessage | tcppart/EventLoop.cc:118-145 | a closed connection gets its close callback, is no longer watched and leaves the map; an open one gets its message callback; an unknown descriptor changes nothing |
| EventLoops.EventLoop.WaitEpollFd | tcppart/EventLoop.cc:46-92 | the first result that is no EINTR decides: the events of a batch are all handled in order, and an error, a timeout or EINTR alone changes nothing |

## Left out

- The wire-format library: `WireFormatLite`, `CodedInputStream` and `WireFormat` are modelled from the Protocol Buffers
  Encoding specification; their C++ code is not part of this model. Unknown fields are assumed to be preserved.
- FileManagerPb.DirInfo.MergePartialFromCodedStream: after a failed parse the partly updated message is left
  unspecified; a malformed tag ends the loop with true, as the reader returns tag 0, and only the reader's end flag tells
  the two apart.
- FileManagerPb.DirRet.MergePartialFromCodedStream: as for DirInfo.
- SocketIO.SocketIO.ReadLine: after a failed call other than EINTR it does not say what is in the buffer and what is
  returned; the code ignores the result of the inner `readn`.
- FileTasks.FileTask.ReceiveMatching: the precondition is that some block matches; without it the loop of the source does
  not end.
- FileStore.DownloadServesTheUpload: bytes mapped beyond the end of the opened file count as not served; what the
  platform puts there is not modelled.
- FileTasks.FileTask.SendFlag: like every method of `FileTask` that sends or receives, it requires that no system call on
  the connection fails other than by EINTR (`Faultless`); what such a request leaves behind after a failure is not stated.
- FileTasks.FileTask.Process: starts after the request's structs have been decoded and the session has been looked up.
- FileTasks.FileTask.DownloadFile: the mapped bytes are parameters, as many as the row says.
- PoolThreads.Pool.DoTask: callbacks are assumed to return, and callbacks that call `addTask` themselves are not
  modelled.
- PoolThreads.Pool.Push: like the other calls, returns false when every turn of the schedule has been taken and the call
  has not returned; without fairness it need not return.
- Registry.RegistryAgrees: system calls other than `accept` are assumed to succeed.
- EventLoops.EventLoop.WaitEpollFd: batches may have any length; the code keeps `_evtList` at 1024 entries, because
  `reserve` does not change its size.
- Reading `_que.size()` and the flags without the mutex is treated as an atomic access; their data races in the sense of
  the C++ standard are not modelled.
- The `FileTask` that `onMessage` binds by address has left the stack when it runs; tasks are modelled as values that
  live until they have run.
- Concurrent uploads of one file: the existence test and the append are not atomic; the store handles one request at a
  time, and `write` to disk is assumed to be complete.
- SQL, Redis, MySQL and RabbitMQ: an abstract table, a map and nothing. The `setex` after an upload replaces the set, and
  is modelled as its loss; the type error that a later `sismember` would give is not modelled. The insert statement for
  new directories in `dirinfoserver.cc` is malformed; the model adds the row it is meant to add.
- The layout of `struct fileheader` is that of x86-64; MD5 is an uninterpreted function.
- `loop` and `unloop`, address conversion, socket options, descriptors, reflection, arenas, swap and accessors of the
  messages, `UserSign.pb.cc`, the RPC and HTTP wiring and the logger: platform detail, or they would only add easy
  members.
