# A verified model of squidHelper

squidHelper is a multi-threaded external ACL helper for Squid. One main thread cuts standard
input into lines and feeds a bounded queue; worker threads parse each line, ask a chain of
plugins, answer on standard output and may fill a memcached cache; at exit one NULL job per
worker drains the pool. This project models those parts and proves, for all inputs, all
interleavings and all numbers of threads, what the code guarantees and exactly where it stops.

`dafny verify dfyconfig.toml` checks the whole project.

## Parts

| file | what it models |
|---|---|
| Pool.dfy | main thread, workers, job and signal queue, shutdown, as a step system |
| LoopPhase.dfy | the pool while the event loop runs: answering, ending by itself, reaching shutdown |
| PoolQueues.dfy | the pool's two queues as the blocking FIFO queues of Monitor.dfy |
| Threads.dfy | the threads' own control over two such monitors and the memory of line buffers, every lock, wait and broadcast a step; the pool is what one sees of them |
| ThreadRuns.dfy | whole runs of these threads: lines, shutdown, event loop |
| Monitor.dfy | queue.c at the level of mutex, condition variables, broadcasts and spurious wakeups |
| RingBuffer.dfy | the ring buffer of queue.c: field arithmetic and the queue object |
| Chain.dfy | plugin dispatch, memcached lookup and store, evictions and reloads, as a step system and as the worker's loop body |
| Transparency.dfy | which replies are current although tables are reloaded, and exactly when cached ones are |
| Steadiness.dfy | exactly when neither reloads nor the cache change any reply |
| Service.dfy | worker pool and plugin chain as one step system that writes responses |
| Currency.dfy | exactly when every response of the service is current |
| Splitter.dfy | the standard-input callback over the remainder buffer |
| Buffer.dfy | the growable buffer |
| TxtFile.dfy | host-file parsing, the linked list, lookup |
| Reload.dfy | reload against concurrent lookups, step by step |
| HostFiles.dfy | the txtfile plugin as a backend of the chain, and where cached verdicts come from |
| RequestLine.dfy | the fields of a request line and the response line |
| Truncate.dfy | in-place elision of a string |
| EndToEnd.dfy | input bytes to responses: splitter and service together |
| Process.dfy | all of it: threads over queue.c, plugins, cache and responses, from chunks to responses |
| Squid.dfy | what Squid reads in these responses, down to address parsers, statuses and host file |
| Handlers.dfy, Sums.dfy | handler results; counting threads |

Concurrent parts are step systems: `Enabled` and `Apply` give the atomic steps, `Feasible` and
`Exec` the runs, and theorems speak of every run. `Pool` takes a queue operation as one atomic
blocking step. In `Threads` there is no such step: threads know their own control, the values their
calls return and the buffers these point to, and queue.c runs step by step. The pool is read off
control, rings and memory, and `Threads.ThreadsRefinePool` shows what one sees to be a run of `Pool`.
`Service` runs `Pool` and `Chain` together; each of its runs is a run of both, and each run of `Pool`
is part of one. `Process` puts plugins, cache and responses on top of `Threads`, and
`Process.ProcessRefinesService` shows it to be a run of `Service`. Loops and objects of the source
are methods and classes proved against the same functions the step systems use.

## What the proofs show about the code

- Shutdown always completes if and only if, when the event loop ends, at most eight termination
  messages are still unreceived and the sentinels find room in the job queue (`CanComplete`).
  Eight workers with one serving are fine; nine silent ones never finish.
- `active_workers` can stay above zero with every worker gone: two workers whose thread_init fails
  may have their asynchronous sends coalesced into one callback. The debug text "All workers died.
  Shutting down." is therefore not always reached.
- The loop ends by itself, without further input or signals, exactly as `EndsByItself` says. Told
  to end, it does if the lines being read fit the job queue or a worker is in service. Not yet told,
  it does if they fit, there are workers, all are past their service, and the messages not received
  are no more than the callback in progress plus one for all sends still to come. With `-t 0` it
  never is told.
- A loop that does not end by itself can be ended by a signal, except in one case: if no worker
  serves or is starting and more lines are queued and being read than the job queue holds, the
  main thread sits in queue_enqueue inside the input callback forever and no signal is handled.
- The splitter never scans the byte behind a newline. Non-empty requests are unaffected, but the
  number of lines enqueued, and so the number of error answers to blank lines, depends on how the
  input is cut into chunks. It does not exactly when the stream has no two newlines in a row. The
  lines are those of the stream for every cutting exactly when, besides, no NUL stands in front of
  a newline.
- Lines are copied as C strings and a remainder beginning with NUL is dropped: every cutting keeps
  every byte exactly when the input holds no NUL, and every request exactly when no NUL stands in
  front of a newline.
- A reply is current if the backends, asked in order while the request was in progress, may give
  it. Replies that do not come from the memcached cache always are. Cached ones are exactly when
  every verdict a request can find there is still one the backends may give while that request
  asks its plugins up to the cache; for the service, only addresses some line asks about count.
  A denial stored before a reload that allows the address is not such a verdict: the next request is
  denied although it begins and ends under the new table.
- The elision of `truncate_string` is right for every text exactly when the separator has even
  length or fills the whole result.
- In a host file a second blank between address and flag silently turns ALLOW into a denial.
- webcontrol.conf describes a configurable memcached key prefix followed by an underscore; the code
  uses the fixed prefix "webcontrol_host_", and so does the model.

## Model

| member | source | states |
|---|---|---|
| Pool.ShutdownCompletesExactlyWhen | src/core/main.c:652-667 | from every reachable state behind the event loop, all maximal runs join all workers if and only if the unreceived messages fit the signal queue and the sentinels fit the job queue |
| Pool.ShutdownFinite | src/core/main.c:346-364 | behind the event loop every interleaving is finite, bounded by an explicit measure of queue, workers and main thread |
| Pool.RunToEnd | src/core/main.c:652-667 | every shutdown state has a run to a state in which nothing can move |
| Pool.EightWorkersComplete | src/core/webcontrol.h:133-141 | with at most eight workers, one of them serving, every maximal run joins all workers |
| Pool.NineWorkersStick | src/core/main.c:357-359 | with more than eight workers none of which was heard before the loop ended, no run ever joins all workers |
| Pool.LinesConserved | src/core/main.c:235-344 | in every reachable state lines received are, in order, lines taken then lines queued, and each taken line is held or answered once |
| Pool.EveryLineAnsweredOnce | src/core/main.c:652-667 | after the joins every line was answered exactly once if and only if some worker served or no line came; else none was answered |
| Pool.SingleWorkerAnswersInOrder | src/core/main.c:235-344 | a single worker answers in the order of arrival |
| Pool.CallbackNeverBlocks | src/core/main.c:386-413 | callbacks run, in progress and pending never exceed sends, sends never exceed messages, so the callback always finds a message; active_workers never underflows and is zero only when every worker is gone |
| LoopPhase.LoopEndsExactlyWhenAllReported | src/core/main.c:402-406 | without signals the loop is told to end if and only if there are workers and the messages of all of them were received; with signals no later than that |
| LoopPhase.LoopEndsByItselfExactlyWhen | src/core/main.c:48-413 | from every reachable loop state, for any number of workers, all runs that go on without input and signals until they cannot leave the loop if and only if it is told to end and the lines being read fit the queue or a worker serves, or it is not and they fit, there are workers, all departing, and enough callbacks are sure to come; with all workers gone: they fit, and it is told or there are workers and as many callbacks as messages |
| LoopPhase.ShutdownReachableExactlyWhen | src/core/main.c:48-100 | from a reachable loop state some run, signals allowed, reaches shutdown if and only if the main thread is not reading more lines than the job queue has room for with no worker serving or starting |
| LoopPhase.JammedForever | src/core/main.c:100-100 | such a main thread never leaves the input callback, whatever happens |
| LoopPhase.CoalescingStalls | src/core/main.c:402-406 | a reachable state in which all workers are gone, no callback is pending and active_workers is not zero |
| LoopPhase.StalledForever | src/core/main.c:386-413 | such a state persists under every step except a signal, whatever is read |
| LoopPhase.EveryLineGetsAnswered | src/core/main.c:235-344 | while the loop runs and some worker serves, every run without input, signals and leaving is finite, and where it cannot go on the main thread idles, the queue is empty and all lines received are answered, each once |
| Pool.ReceivedIsInput | src/core/main.c:48-100 | in every run the lines received followed by those being read are the lines the reading steps brought, in order |
| Pool.QuietRunsFinite | src/core/main.c:48-413 | without input and signals every interleaving is finite, in every phase |
| Pool.StuckIsFinished | src/core/main.c:663-667 | a shutdown state that can complete and cannot move has all workers joined |
| Pool.DoomedExec | src/core/main.c:652-659 | a shutdown state that cannot complete and has no starting worker never completes |
| RingBuffer.PutAppends | src/thirdparty/c-pthread-queue/queue.c:9-12 | storing at in and advancing modulo the capacity appends to the queued sequence and keeps the position equation |
| RingBuffer.DropRemoves | src/thirdparty/c-pthread-queue/queue.c:22-26 | reading at out and advancing modulo the capacity removes the oldest queued value |
| RingBuffer.Queue.Enqueue | src/thirdparty/c-pthread-queue/queue.c:9-12 | the enqueued history grows by the value; dequeued history followed by ring contents stays the enqueued history |
| RingBuffer.Queue.Dequeue | src/thirdparty/c-pthread-queue/queue.c:22-29 | returns the oldest value not yet dequeued, in enqueue order |
| Monitor.NoLostWakeup | src/thirdparty/c-pthread-queue/queue.c:5-28 | in every reachable state a taker asleep with values queued implies a thread that stored and has not broadcast yet, dually for putters; mutual exclusion; dequeued then queued is enqueued |
| Monitor.MonitorRefinesFifo | src/thirdparty/c-pthread-queue/queue.c:3-30 | every step of every run is invisible or one atomic event of a blocking FIFO queue |
| Monitor.OnlyBlockedCallsSleep | src/thirdparty/c-pthread-queue/queue.c:6-21 | when no thread can step, the mutex is free and each pending call is one the FIFO queue blocks: putters face a full, takers an empty queue |
| Monitor.WokenTestsAgain | src/thirdparty/c-pthread-queue/queue.c:6-21 | a thread woken for no reason repeats its test once it has the mutex |
| Monitor.CallsSettle | src/thirdparty/c-pthread-queue/queue.c:13-28 | without new calls and spurious wakeups every interleaving is finite |
| PoolQueues.JobStepIsFifo | src/core/main.c:100-237 | on the job queue every step of the pool is a sequence of atomic events of the acting thread in a FIFO queue of 256 values, NULL for a sentinel |
| PoolQueues.JobCallsBlockAlike | src/thirdparty/c-pthread-queue/queue.c:6-21 | a thread of the pool can complete its put or take exactly when that queue does not block it |
| PoolQueues.SignalStepIsFifo | src/core/main.c:346-406 | the same for the termination messages in a queue of eight |
| Threads.ThreadsRefinePool | src/thirdparty/c-pthread-queue/queue.c:3-30 | in every interleaving of main thread and workers with all locks, tests, waits, spurious wakeups, unlocks and broadcasts inside both queues, the pool read off the threads' control, the rings and the line buffers makes a run of Pool, step by step |
| Threads.CommitTake | src/thirdparty/c-pthread-queue/queue.c:22-29 | where a worker's call removes a value, the pool can take a job, the value handed to the worker points to the line of the pool's oldest job or is NULL for a sentinel, and the pool moves by that step |
| Threads.CommitPut | src/core/main.c:78-100 | where the main thread's call stores a value, the pool can put its next line or sentinel, and the value points to a buffer with that line or is NULL |
| Threads.RestIsStuck | src/thirdparty/c-pthread-queue/queue.c:6-28 | where no thread can take any of these steps the pool itself is stuck: no call sleeps that its queue would let through |
| Threads.WokenTestsAgain | src/thirdparty/c-pthread-queue/queue.c:6-21 | a thread of the pool woken for no reason tests its queue again once it has the mutex |
| Threads.ThreadsSettle | src/thirdparty/c-pthread-queue/queue.c:3-30 | without input, signals and spurious wakeups every such interleaving is finite, bounded by an explicit measure |
| ThreadRuns.LinesOverQueues | src/core/main.c:48-344 | in every reachable state the lines behind the pointers enqueued, then those being read, are the lines the main thread read; what was dequeued followed by the ring is what was enqueued; each line dequeued is held or answered once |
| ThreadRuns.ThreadsAnswerOnce | src/core/main.c:652-667 | over these queues, when all workers are joined the lines answered are those the main thread read, each once, if and only if some worker served or there was none, and then all of them were dequeued |
| ThreadRuns.ThreadsCompleteExactlyWhen | src/core/main.c:652-667 | over these queues, from every reachable state behind the event loop, all interleavings that come to rest have the workers joined if and only if the messages fit the signal queue and the sentinels the job queue |
| ThreadRuns.ThreadsShutDown | src/core/main.c:652-667 | with that room every run that comes to rest has all workers joined, whatever spurious wakeups there are |
| ThreadRuns.ThreadsDoomed | src/core/main.c:652-667 | without it and with no worker still starting none has |
| ThreadRuns.ThreadsLeaveExactlyWhen | src/core/main.c:48-413 | over these queues, too, the event loop ends by itself in all runs without input and signals exactly as LoopPhase.LoopEndsByItselfExactlyWhen says |
| ThreadRuns.ThreadsAnswerEveryLine | src/core/main.c:235-344 | over these queues, while the loop runs and some worker serves, where no thread can go on the ring is empty and every line enqueued is answered once |
| Monitor.EnabledExtends | src/thirdparty/c-pthread-queue/queue.c:3-30 | every enabled step extends a run |
| Chain.CacheProvenance | src/plugins/mod_memcached/webcontrol_memcached.c:141-207 | under reloads, evictions and any interleaving a cached verdict was decided earlier for that very address by a backend under a table version then current, after all earlier backends went on |
| Chain.CacheTransparency | src/core/main.c:290-337 | with fixed backends and a coherent initial cache every reply is that of the plugin list without its cache plugins |
| Chain.EveryReplySaysTheDecision | src/core/main.c:291-324 | in every run every answer is OK exactly for ALLOW or, unless denied by default, where no plugin gave a verdict; its message is missing exactly for ALLOW and DENIED exactly for DENY; and its status is accounted for by a backend, the cache or nobody |
| Chain.EvictedIsAskedAnew | src/plugins/mod_memcached/webcontrol_memcached.c:139-156 | after its entry is evicted an address is decided as without the cache plugins; entries of other addresses stay |
| Transparency.CurrentExactlyWhen | src/core/main.c:290-337 | for any configuration, initial cache and positive number of workers, every reply of every run is one the backends may give between the beginning of the request and its answer, if and only if every verdict that a request can find in the cache, decided before it began (with several workers: before it looks), is one they may give while it asks its plugins up to the cache |
| Transparency.OnlyCachedRepliesAreStale | src/core/main.c:291-309 | whatever is reloaded, evicted and interleaved, replies decided by a backend or by nobody are always current |
| Transparency.WithoutCacheCurrent | src/core/main.c:291-309 | without a cache plugin all replies are current |
| Transparency.StaleHit | src/plugins/mod_memcached/webcontrol_memcached.c:141-207 | a run in which a denial is stored, the table reloaded to allow the address, and the next request, begun and answered under the new table, still told ERR and DENIED |
| Steadiness.PureExactlyWhen | src/core/main.c:290-337 | every reply of every run is the one the plugin list without its cache gave at first if and only if no reload, between or during requests, changes a reply of the backends and the reachable entries of the initial cache give it |
| Steadiness.FixedIsSteady | src/core/main.c:290-337 | fixed backends and a coherent initial cache meet that condition |
| HostFiles.HostVerdict | src/plugins/mod_txtfile/webcontrol_txtfile.c:170-198 | the plugin gives a verdict if and only if the last line naming the address carries it |
| HostFiles.OneLineDecides | src/plugins/mod_txtfile/webcontrol_txtfile.c:65-198 | a file of one line decides about exactly the texts of the same address: the same IPv6 bytes if IPv6 is compiled in and its parser takes either text, else the same IPv4 bytes; it allows exactly if the flag reads ALLOW in any case |
| HostFiles.LookupsAreBackendAnswers | src/plugins/mod_txtfile/webcontrol_txtfile.c:105-198 | each lookup a run of lookups and reloads finishes is that plugin's answer for the address its reader asked about, in the file the run opened and loaded last before |
| HostFiles.CachedVerdictsComeFromFiles | src/plugins/mod_memcached/webcontrol_memcached.c:141-207 | a cached verdict that was not in the initial cache and that the txtfile plugin decided is the flag of the last line naming the address in some file loaded by then |
| Service.RunsOfBothParts | src/core/main.c:235-344 | every run of pool and chain together is a run of the pool and a run of the chain |
| Service.EveryPoolRunHappens | src/core/main.c:235-344 | every run of the pool is the pool's part of a run of the service, whatever the plugins answer |
| Service.ServiceCompletesExactlyWhen | src/core/main.c:235-364 | with plugins, cache, evictions and reloads going on, shutdown always completes under exactly the condition of the pool |
| Service.ServiceSettles | src/core/main.c:235-344 | without input and signals main thread and workers take finitely many steps, bounded by an explicit measure, whatever is reloaded and evicted |
| Service.EveryRequestGetsItsResponse | src/core/main.c:235-344 | while the loop runs and some worker serves, where no worker can go on every line received has its response written, each once |
| Service.EveryResponseAccounted | src/core/main.c:281-320 | every response written rejects its line, which has no valid address, or formats the chain's answer to that very line; that answer a backend decided, the cache held for a genuine reason, or nobody decided, and unless cached it is current |
| Service.OwnAnswer | src/core/main.c:290-320 | two lines never share an answer |
| Service.ResponsesAreCurrent | src/core/main.c:281-320 | if the condition on cached verdicts holds for the addresses lines ask about, every response written is a rejection or formats the answer to its own line, and that answer is current |
| Currency.ServiceCurrentExactlyWhen | src/core/main.c:281-320 | for any positive number of workers, every response of every run of the service is current if and only if that condition holds for every address some line asks about |
| Currency.ChainRunHappens | src/core/main.c:235-344 | every run of the chain with requests for one line's address only is the chain's part of a run of the service |
| Service.ResponsesArePure | src/core/main.c:281-320 | where reloads change no reply and the initial cache agrees, each response written is the one of the plugin list without its cache plugins |
| Chain.GenuineIsPure | src/core/main.c:291-309 | a decision reached by a backend is the decision of the uncached list |
| Chain.CodecRoundTrip | src/plugins/mod_memcached/webcontrol_memcached.c:185-194 | TRUE and FALSE decode to the verdict they encode |
| Chain.StoredVerdicts | src/plugins/mod_memcached/webcontrol_memcached.c:145-194 | a value allows exactly if it opens with TRUE; permissions are stored as TRUE, denials as FALSE |
| Chain.KeysDiffer | src/plugins/mod_memcached/webcontrol_memcached.c:106-115 | different addresses have different keys |
| Chain.GenerateKey | src/plugins/mod_memcached/webcontrol_memcached.c:106-115 | the key array holds webcontrol_host_ and the address and nothing else changes |
| Chain.DecidedAt | src/core/main.c:291-309 | the loop stops at the first plugin whose status is not GO_ON, and all plugins before it went on |
| Chain.HandleRequest | src/plugins/mod_memcached/webcontrol_memcached.c:117-161 | a hit yields the cached verdict and sets the skip flag, a miss goes on and leaves it |
| Chain.Serve | src/core/main.c:290-337 | the reply says what the first decisive plugin decided: OK exactly for ALLOW or, unless denied by default, without a verdict, DENIED exactly for DENY; the cache is written only after ALLOW or DENY not taken from it |
| Chain.ServeIsARun | src/core/main.c:235-344 | a worker left alone in the step system says and leaves in the cache what Serve does, or leaves the cache alone where the server loses what is stored |
| Splitter.SplitConserves | src/core/main.c:70-120 | without NUL bytes the enqueued lines, each with a newline, and the remainder are exactly the bytes read; a newline inside them stands in front |
| Splitter.BytesConservedExactlyWhen | src/core/main.c:74-120 | all cuttings of a stream keep all its bytes if and only if it holds no NUL |
| Splitter.RequestsIgnoreChunking | src/core/main.c:74-108 | the non-empty requests enqueued are those of the stream's lines, for every cutting of a stream without NUL in front of a newline |
| Splitter.RequestsInvisibleExactlyWhen | src/core/main.c:74-120 | all cuttings of a stream enqueue its non-empty requests if and only if no NUL stands in front of a newline |
| Splitter.ChunkingInvisibleExactlyWhen | src/core/main.c:74-120 | the lines enqueued equal the stream's lines for all cuttings if and only if no two newlines follow each other and no NUL stands in front of a newline |
| Splitter.CountInvisibleExactlyWhen | src/core/main.c:74-120 | all cuttings of a stream enqueue the same number of lines if and only if no two newlines follow each other, NUL bytes or not; then it is the number of newlines |
| Splitter.HideBlankLine | src/core/main.c:104-107 | for every blank line a cutting that loses it |
| Splitter.StdinReader.ReadChunk | src/core/main.c:63-120 | lines and remainder stay those of all chunks read, NUL bytes included, and the remainder buffer stays bounded |
| Splitter.StdinReader.ScanChunk | src/core/main.c:67-120 | one chunk enqueues and keeps what the scan with its double increment yields |
| Splitter.StdinReader.EnqueueLine | src/core/main.c:77-104 | the enqueued line is the remainder followed by the text up to its first NUL, and the remainder is emptied |
| Splitter.StdinReader.KeepRest | src/core/main.c:110-120 | the text behind the last newline is appended to the remainder, which is emptied instead if that text is empty or begins with NUL |
| Buffer.Buffer.PrepareCopy | src/core/webcontrol_buffer.c:66-84 | a new block is the first multiple of 64 above the request, an old one is kept if large enough |
| Buffer.Buffer.PrepareAppend | src/core/webcontrol_buffer.c:131-154 | room for a request of any size behind the text, which stays |
| Buffer.Buffer.CopyString | src/core/webcontrol_buffer.c:86-99 | the text becomes the C string |
| Buffer.Buffer.CopyStringLen | src/core/webcontrol_buffer.c:111-128 | the text becomes the given bytes |
| Buffer.Buffer.CopyBuffer | src/core/webcontrol_buffer.c:101-109 | the text becomes the other buffer's text |
| Buffer.Buffer.AppendString | src/core/webcontrol_buffer.c:156-171 | the C string is appended to the text |
| Buffer.Buffer.AppendStringLen | src/core/webcontrol_buffer.c:173-186 | the bytes are appended; capacity stays at most max(256, 2 len + 65) |
| Buffer.Buffer.Reset | src/core/webcontrol_buffer.c:196-209 | the text is empty; a block of more than 256 bytes is freed, a smaller one kept |
| TxtFile.LastLineWins | src/plugins/mod_txtfile/webcontrol_txtfile.c:122-130 | looking an address up in the prepended list yields the flag of the last line naming it |
| TxtFile.UnnamedGoesOn | src/plugins/mod_txtfile/webcontrol_txtfile.c:170-198 | an address no line names is left to the next plugin |
| TxtFile.HostLine | src/plugins/mod_txtfile/webcontrol_txtfile.c:65-103 | a line of address, blank and flag is skipped exactly if neither parser compiled in takes the address, else has the IPv6 bytes where that parser is compiled in and takes it and the IPv4 bytes otherwise, and allows exactly when the flag is five letters reading ALLOW, each in either case |
| TxtFile.FaultsExactlyWhen | src/plugins/mod_txtfile/webcontrol_txtfile.c:72-100 | of all lines the parser lacks a token it dereferences exactly in those of blanks only and in those with a valid address and no flag behind one blank |
| TxtFile.SecondBlankDenies | src/plugins/mod_txtfile/webcontrol_txtfile.c:96-100 | a second blank in front of the flag makes the entry deny, whatever follows |
| TxtFile.CompareAddresses | src/plugins/mod_txtfile/webcontrol_txtfile.c:155-168 | 1 exactly for equal family and bytes, -1 exactly for different families, 0 exactly for the same family with different bytes |
| TxtFile.HostTable.ClearEntries | src/plugins/mod_txtfile/webcontrol_txtfile.c:44-52 | the list is emptied |
| TxtFile.HostTable.ParseFile | src/plugins/mod_txtfile/webcontrol_txtfile.c:105-137 | a readable file replaces the table by its entries, an unreadable one changes nothing |
| TxtFile.HostTable.HandleRequest | src/plugins/mod_txtfile/webcontrol_txtfile.c:170-198 | the walk returns the flag of the first matching entry |
| Reload.ReloadIsAtomic | src/plugins/mod_txtfile/webcontrol_txtfile.c:105-198 | under any interleaving each lookup finished is one of the address its reader requested in the whole file loaded last before, never an older one than a lookup before it; requests, files opened and loads completed are read off the run alone |
| Reload.FilesAreThoseOpened | src/plugins/mod_txtfile/webcontrol_txtfile.c:105-137 | files loaded followed by the one being loaded are those the run opened, in order and unchanged; a failed open is none |
| Reload.ReloadSettles | src/plugins/mod_txtfile/webcontrol_txtfile.c:105-198 | without new requests and opens every interleaving of lookups and loads is finite, bounded by an explicit measure |
| Reload.NothingWaitsAtRest | src/plugins/mod_txtfile/webcontrol_txtfile.c:105-198 | where such a run cannot go on the lock is free, every lookup is finished and every file opened is loaded |
| RequestLine.RequestRoundTripExactlyWhen | src/core/main.c:262-266 | channel and address written as a request are parsed back if and only if the channel is below 2^64 and the word fits the field width |
| RequestLine.RequestFields | src/core/main.c:262-266 | larger channels saturate and longer words are cut to the field width, with or without blanks between numeral and word, and with no word at all |
| RequestLine.NegativeChannelWraps | src/core/main.c:262-266 | a channel behind a minus sign wraps around 2^64, and saturates if too large |
| RequestLine.PlusSignIgnored | src/core/main.c:262-266 | a plus sign in front of the channel changes nothing |
| RequestLine.NoNumberNoFields | src/core/main.c:248-266 | a line without a number, signed or not, leaves channel 0 and no address |
| RequestLine.ValueIsPlaceValue | src/core/main.c:262-266 | a numeral has its value in base ten |
| RequestLine.NumeralRoundTripExactlyWhen | src/core/main.c:204-266 | reading a numeral and writing it gives it back if and only if it has no superfluous zero in front |
| RequestLine.LeadingBlanksIgnored | src/core/main.c:262-266 | blanks in front of a request change nothing |
| RequestLine.ResponseReadsBackExactlyWhen | src/core/main.c:200-210 | a reader of numeral, blank, word and log= text gets from the line written the channel, OK for status 0 and ERR otherwise, and the message or none, if and only if the message holds no newline |
| RequestLine.ResponseNamesChannel | src/core/main.c:200-210 | the numeral opening the response re-parses to the channel of the request |
| Truncate.TruncateString | src/core/webcontrol_buffer.c:223-261 | the array ends up holding the block computed from the original text: no byte is read after it was overwritten; short strings stay |
| Truncate.ElidesExactlyWhen | src/core/webcontrol_buffer.c:231-258 | the result is front, separator and end of the text for every text if and only if the separator has even length or fills the result |
| Truncate.OddSeparatorFails | src/core/webcontrol_buffer.c:241-244 | with a shorter separator of odd length a text whose result is not the elision |
| EndToEnd.ResponsesAreThoseOfTheStream | src/core/main.c:48-344 | whatever the chunks, the number of workers and the interleaving, for any way of responding that ignores a leading newline and input without NUL in front of a newline, the responses to non-blank lines are, as a multiset, those to the lines of the stream |
| EndToEnd.WorkersAreIndifferent | src/core/main.c:262-288 | parsing as the code does it, and so a worker's response, does not depend on a newline in front of the line, whatever addresses are valid |
| EndToEnd.AllReceivedAndAnswered | src/core/main.c:48-344 | a run whose reading steps bring what the scan of each chunk yields receives the lines of the chunks and, some worker serving, answers each of them once |
| EndToEnd.WorkersAnswerTheStream | src/core/main.c:48-344 | whatever is cached, evicted and reloaded and however the stream is cut, the non-blank requests answered when all workers are joined, one of which served, are as a multiset those of the stream's lines; each carries a rejection or the formatted answer to itself, that answer is accounted for, and no answer is given twice; no NUL in front of a newline |
| EndToEnd.ResponsesToTheStreamAreCurrent | src/core/main.c:48-344 | under the condition on cached verdicts the answer in each of these exchanges is current |
| EndToEnd.ResponsesToTheStreamArePure | src/core/main.c:48-344 | where reloads change no reply and the initial cache agrees, these responses are, as a multiset, those of the plugin list without its cache to the lines of the stream |
| EndToEnd.LinesAnsweredAreThoseOfTheStream | src/core/main.c:48-344 | for input without a blank line behind another line and without NUL in front of a newline, every line of the stream is answered exactly once and nothing else is |
| Process.ProcessRefinesService | src/core/main.c:235-364 | every interleaving of queue.c, threads, plugins, cache, reloads, evictions and responses is a run of the service read off it |
| Process.ProcessAnswersTheStream | src/core/main.c:48-344 | EndToEnd.WorkersAnswerTheStream for the whole process, from the chunks read to the responses written |
| Process.ProcessResponses | src/core/main.c:281-320 | at any time every response written is a rejection or formats the accounted answer to its own line, and under the condition on cached verdicts that answer is current |
| Squid.ProcessTells | src/core/main.c:262-322 | in every run of the process Squid reads in each response the channel of the line answered, ERR and the reason exactly if neither parser compiled in takes the line's address word, else OK exactly if the chain's own answer to that address is ALLOW or, unless denied by default, no verdict, and the message for that status |
| Squid.EveryResponseTells | src/core/main.c:262-322 | the same in every run of the service |
| Squid.HostFileDecides | src/core/main.c:262-322 | of the process with the txtfile plugin behind its cache, under all interleavings, evictions and reloads of one file: Squid reads OK exactly if the line has an address and the last line of the file naming it allows it, or none denies it and nothing is denied by default |
| Squid.RequestWholeExactlyWhen | src/core/main.c:262-266 | as a worker reads it, a request comes through whole if and only if the channel is below 2^64 and the address has at most 45 characters, 15 without IPv6, whatever follows a blank or NUL |
| Squid.TextBehindNulIgnored | src/core/main.c:262-266 | text behind a NUL is not read |
| Squid.BlankLineTells | src/core/main.c:248-281 | a blank line is told ERR on channel 0 |
| Process.ProcessSettles | src/core/main.c:235-364 | without input, signals, wakeups, evictions and reloads every such interleaving is finite, bounded by an explicit measure |
| Process.ProcessCompletesExactlyWhen | src/core/main.c:652-667 | from every reachable state behind the event loop, every run of the process that comes to rest has all workers joined if and only if messages and sentinels find room |

## Left out

- libev, pthreads and signal delivery: only the atomic steps and the asynchronous flag are modelled; leaving the event loop may happen at any point after it was requested.
- memcached client and server: a map with atomic reads and writes, lost writes and arbitrary removals.
- LDAP plugin and reverse DNS: an arbitrary function of table version, backend and address string.
- inet_pton: an arbitrary partial function from strings to addresses.
- dlopen, plugin and configuration loading, command line, logging: no part of the protocol.
- End of input and read errors in stdin_read_cb: the callback returns; an unterminated last line is never enqueued.
- Failing malloc and size_t wrap-around in buffer sizes: excluded.
- When the remainder is emptied the input callback returns before reading on; that only delays the next chunk.
- buffer_getline: delegates to libc and does not keep the buffer's length convention.
- Host-file lines of LINE_MAX bytes or more, which fgets cuts: lines are given whole.
- In-place tokenising of a host-file line by strtok_r: modelled on values; the overwritten line is not observed again.
- Lines without a token the parser dereferences: excluded by WellFormed; the code reads a null pointer there.
- Progress when no worker serves: not guaranteed by the code; the conditions under which loop and shutdown end say when it is missing.
- RingBuffer.Queue.Enqueue: requires a free slot; waiting for one is modelled in Monitor on values, not in the class.
- RingBuffer.Queue.Dequeue: requires a queued value, for the same reason.
- EndToEnd.WorkersAnswerTheStream: input without NUL in front of a newline; with one it is false, as Splitter.RequestsInvisibleExactlyWhen shows.
- Other text on standard output: the notes at end of input (src/core/main.c:124) and when a host file cannot be opened (src/plugins/mod_txtfile/webcontrol_txtfile.c:115) stand between responses; `written` holds the responses only.
- Freeing line buffers: the memory of Threads only grows. A worker frees its buffer (src/core/main.c:343) after its response; no address is used again in the model.
- Order of responses with several workers: only SingleWorkerAnswersInOrder; the others are stated as multisets.
- Service steps in which two workers write at once: a response is written whole, as stdio does for one printf call.
- queue_size, strtoupper and strtolower on their own, the pre_handle_request hook, which nothing calls.
