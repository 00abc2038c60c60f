# Verified models of the jaf library's timers and read/write helper, and the algorithms of the googletest tree it ships

This project models two groups of code and proves what they promise, over every input, every run or every reachable
state.

**The concurrent machinery of the library.** `Timer` and `Timer2` run a worker over a queue of deadlines while clients
start and stop tasks and shut the timer down. `ChannelReadWriteHelper` and `RWAwaitable` queue reads and writes, and
each operation is resumed either by its I/O or by its timer task. Each is a state machine whose steps are what the
source does between two points where threads can interleave: a section under a lock, one access to an atomic flag, one
callback, one resume. `TimerSpec`, `TimerRuns` and `TimerOrder` hold the timers' machine and its theorems,
`TimerWorld` says what a worker and the client calls around it do together, and `Timers` holds the two classes with
their fields and loops, each section proved to be a step of the machine and the worker's loop to be its run.
`ReadWriteSpec`, `ReadWriteProof` and `ReadWriteRuns` do the same for the helper; `ReadWriteEnds`, `ReadWriteResults`
and `ReadWriteOrder` say what becomes of waiting operations after a stop or a failure, what a result tells, and what
is tried in what order; `ReadWriteWorld` says where a thread's sections lead among the actions of others,
`ReadWriteHelper` is the class, whose loops run with arbitrary actions of other threads between any two of their
sections, and `TimedChannel` composes the helper's machine with the timer's.

**Algorithms of the bundled googletest and googlemock.** Maximum bipartite matching and the decision built on it
(`BipartiteMatching`), the walk through all match matrices (`MatchMatrices`), glob matching and test filters
(`GlobFilter`), edit scripts (`EditDistance`, `EditOptimality`) and unified diffs (`UnifiedDiff`), the simple regular
expressions (`SimpleRegex`, `RegexMeaning`, `RegexMatcher`), the walks over the graph of prerequisites and the
handling of mock calls (`Expectations`), UTF-8 (`Utf8`), decimal printing of 128-bit integers (`Int128`) and prime
tables (`PrimeTables`).

Where the source changes things step by step the model does, too: classes with the same fields, loops over the same
variables, proved against functions and predicates that say what is computed. Everything else is functions and lemmas.

`dafny verify dfyconfig.toml` checks the whole project.

## Findings

- `Timer::StopTask` (src/Time/impl/timer.cpp:78-98) trusts `timing_flag_`, which the drain at line 151 does not clear.
  A task stopped after that swap is moved to a stop list that nobody reads any more, and its callback never runs.
  `TimerRuns.ExactlyOnce` shows that this is the only way to lose a callback. The same stop erases the node through the
  emptied tree (line 96), so the tree being drained keeps its own `root_` and `min_`, and a record that is its root or
  its first may be freed under the walk at lines 157-167; after such a stop nothing is claimed for the other records.
  `Timer2` looks its key up and is not affected.
- `Timer` takes records with time <= now + lead. `Timer2` (src/Time/impl/timer2.cpp:178) bounds its keys by
  (now + lead, 0), so a record whose time is exactly now + lead waits for the next gather unless its id is 0.
- `DoOperate` sets `operateable_flag_` (src/Communication/Impl/linux/channel_read_write_helper.cpp:92-95) after the loop
  has released its mutex. An operation submitted in between finds the flag off and returns; then the flag is set although
  the operation waits, and unless another event or submission comes it is only resumed by its timer task.
  `ReadWriteOrder.FlagMayMissOperation` is such a run, `CallSetsFlag` says what the flag tells without interference, and
  `CallTries` what a call has done in any case.
- With context 0 `CreateUnifiedDiff` (3rdparty/googletest/googletest/src/gtest.cc:1533-1541) gives up before the first
  edit, and the diff is empty whatever the texts.
- The edit script is called optimal (3rdparty/googletest/googletest/include/gtest/internal/gtest-internal.h:168-170).
  It is not: ties between adding and removing go to the dearer replacement. `EditOptimality.OptimalExactly` states for
  which tables nothing is lost.
- The comment at 3rdparty/googletest/googletest/src/gtest.cc:2026-2029 promises a message for every code point above
  0x10FFFF. The code tests against 0x1FFFFF, and the numbers between become four bytes that are not UTF-8.
- `RE::FullMatch` (3rdparty/googletest/googletest/src/gtest-port.cc:991-994) takes a final escaped dollar for an anchor
  and then accepts every string that starts with a match.
- The pruned search for unsatisfied prerequisites is exact although a `Times(0)` expectation that is called anyway does
  not retire its prerequisites: such an expectation is itself unsatisfied, so the search reports it.

## Model

| member | source | states |
|---|---|---|
| TimerRuns.ExactlyOnce | src/Time/impl/timer.cpp:57-203 | When the worker has returned, every record ever started has been called back exactly once if and only if no `StopTask` reached a record after the drain swap; for the map timer that never happens |
| TimerRuns.ReturnsExactly | src/Time/impl/timer.cpp:57-203 | The same from any state in which no stop request is stranded, for the classes to use |
| TimerRuns.AtMostOnce | src/Time/impl/timer.cpp:57-203 | In every reachable state no record has been called back twice and nothing that was not started has been called back |
| TimerRuns.StopDuringDrainLosesCallback | src/Time/impl/timer.cpp:147-167 | A concrete run of the tree timer with two tasks, in which the later one is stopped between the drain swap and its turn: the worker returns, the first task was called back and the stopped one never is |
| TimerRuns.OutcomeMeansHistory | src/Time/impl/timer.cpp:190-203 | Over the whole run: a callback reports success exactly for a record that some gather of the run found queued and within its own deadline, a task stop exactly for one that some `StopTask` of the run on its own task found queued, and a timer stop only if the run holds a shutdown |
| TimerRuns.MarksOfRun | src/Time/impl/timer.cpp:78-188 | The marks the machine keeps are that history: a record is due or stopped at the end of a run exactly if it was at the start or some step of the run gathered or stopped it, and the run flag is set exactly if no shutdown happened |
| TimerRuns.RunKeeps | src/Time/impl/timer.cpp:57-203 | On every run the records stay as they are and the log only grows |
| TimerRuns.StartsAreRecorded | src/Time/impl/timer.cpp:67-75 | Every start of a run has a record of its own at the end, with its task and time, under a number not used before |
| TimerRuns.StoppedMeansStopRequest | src/Time/impl/timer.cpp:78-98 | A step makes a record stopped exactly if it is a `StopTask` on the record's own task while the record is queued |
| TimerRuns.DueMeansGathered | src/Time/impl/timer.cpp:170-188 | A gather makes due exactly the queued records within its deadline |
| TimerRuns.GatherExact | src/Time/impl/timer.cpp:170-188 | A gather takes exactly the due records, as a prefix of the queue in nondecreasing time order and first-started first among equals, leaves the rest in place, and takes over all stop requests |
| TimerOrder.AlwaysInOrder | src/Time/impl/timer.cpp:100-203 | On every run, told from the log alone: from a gather to the worker's next section that calls nothing back, the log gains the successes of exactly the due queued records, earliest first and first-started first among equals, then the stop requests taken over, in order; from the drain swap on, the stop requests and then what was queued, earliest first; and stopped tasks are reported in the order in which they were stopped |
| TimerOrder.GatherIsInOrder | src/Time/impl/timer.cpp:111-116 | The part about a gather: a first part of those callbacks at any time before that section, all of them at it, whatever clients do in between |
| TimerOrder.DrainIsInOrder | src/Time/impl/timer.cpp:147-167 | The part about the drain, as long as no `StopTask` takes a record out of it |
| TimerOrder.StopsFollowRequests | src/Time/impl/timer.cpp:78-98 | The stops the log reports, followed by those still to be reported, are exactly the `StopTask`s that found their task queued, in the order of the requests |
| TimerRuns.WakeInstantExact | src/Time/impl/timer.cpp:136-137 | The wrapped 64-bit wait, read as signed, ends at the deadline exactly when deadline and clock are less than 2^63 apart |
| TimerRuns.SleepsSoundly | src/Time/impl/timer.cpp:118-145 | While the worker sleeps unnotified no stop request and no batch is pending, it has no bound exactly if nothing is queued, and otherwise its bound is set for a record no other record precedes |
| TimerRuns.WorkLeftStep | src/Time/impl/timer.cpp:147-167 | After shutdown every worker section uses up at least one unit of a bound that no client step raises |
| TimerRuns.WorkerReturns | src/Time/impl/timer.cpp:111-168 | After shutdown the worker returns within that bound, whatever clients do in between, and never sleeps without having been notified: no wake-up is lost |
| TimerSpec.NextKeepsInv | src/Time/impl/timer.cpp:57-203 | Every step of every client and of the worker keeps the invariant: each started record is in exactly one of queue, stop list, batch, residue and log, the queue is ordered, and every entry of the log is justified |
| TimerSpec.InsertIndexSplits | src/Time/impl/timer.cpp:71 | The place of insertion splits the queue into records not later and records later than the new one |
| TimerSpec.DueCountSplits | src/Time/impl/timer.cpp:175-180 | The upper bound splits the queue into the due and the other records |
| Timers.DueCountIsUpperBound | src/Time/impl/timer.cpp:175 | The upper bound on times counts the due records |
| Timers.Timer.StartTask | src/Time/impl/timer.cpp:57-76 | The class's new state is the machine's `StartTask` step, with the record's `timing_flag_` set |
| Timers.Timer.StopTask | src/Time/impl/timer.cpp:78-98 | The class's new state is the machine's `StopTask` step, decided by `timing_flag_` alone |
| Timers.Timer.Shutdown | src/Time/impl/timer.cpp:40-55 | The class's new state is the machine's shutdown step |
| Timers.Timer.GainNeedExecuteTasks | src/Time/impl/timer.cpp:170-188 | The two loops over the queue, the flags they clear and the swap of the stop lists are the machine's gather |
| Timers.Timer.WorkSection | src/Time/impl/timer.cpp:100-168 | Each section of the worker between two lock releases or callbacks is the machine's worker step |
| Timers.Timer.Work | src/Time/impl/timer.cpp:100-168 | The worker's loop in the source's form, with turns of clients that start, stop, shut down and set the lead time before each of its sections: the state it leaves is exactly the one the machine's run of those calls and sections leads to from the state at entry; it only ends early while the timer runs on and nobody calls any more; and when it returns, every record has been called back exactly once if and only if that run holds no stop after the drain swap; the callbacks of that run come in the order above |
| Timers.Timer2.Work | src/Time/impl/timer2.cpp:106-171 | Likewise for the map timer, where every record has been called back exactly once without exception, and in the same order |
| TimerWorld.AfterTurn | src/Time/impl/timer.cpp:100-168 | A turn more is the run of that turn's accepted calls and of the worker's next section |
| TimerWorld.TurnIsCallsAndWork | src/Time/impl/timer.cpp:57-168 | Before the worker has returned, its section is possible after any calls, and after a shutdown the turn uses up some of the work left, whatever the calls were |
| TimerWorld.StartsFromNow | src/Time/impl/timer.cpp:63 | A task is started for its interval from now, in 64 bits |
| TimerWorld.LastLeadCounts | src/Time/impl/timer.cpp:173 | The lead time a section uses is the last that was set before it |
| Timers.Timer.Execute | src/Time/impl/timer.cpp:190-203 | A callback is the machine's delivery of the front of its batch, with the task's data cleared first |
| Timers.GatherFlags | src/Time/impl/timer.cpp:176-181 | Clearing the flags of the gathered records keeps the flag of every live record equal to being queued or in the residue |
| Timers.StopFlags | src/Time/impl/timer.cpp:89-96 | So does a stop request |
| Timers.FireFlags | src/Time/impl/timer.cpp:190-203 | So does a callback |
| Timers.CutGathers | src/Time/impl/timer2.cpp:178-183 | In the map of unique keys, the keys not after (deadline, 0) are exactly the due records of the map timer |
| Timers.CutInserts | src/Time/impl/timer2.cpp:68-72 | Inserting a fresh (time, id) key in key order is inserting after all records that are not later |
| Timers.FoundIsQueued | src/Time/impl/timer2.cpp:91-103 | A key lookup finds a live record's key exactly if the record is queued |
| Timers.EraseIsWithout | src/Time/impl/timer2.cpp:101-102 | Erasing the found key removes exactly that record from the queue |
| Timers.Timer2.StartTask | src/Time/impl/timer2.cpp:56-77 | The class's new state is the machine's `StartTask` step |
| Timers.Timer2.StopTask | src/Time/impl/timer2.cpp:79-104 | The class's new state is the machine's `StopTask` step, decided by the key lookup alone |
| Timers.Timer2.GainNeedExecuteTasks | src/Time/impl/timer2.cpp:173-186 | The loop, the range erase and the swap are the machine's gather |
| Timers.Timer2.WorkSection | src/Time/impl/timer2.cpp:106-171 | Each section of the worker is the machine's worker step |
| ReadWriteProof.NextKeepsInv | src/Communication/Impl/linux/channel_read_write_helper.cpp:54-252 | Every step that any thread, timer callback or socket event can interleave keeps the invariant of the helper: flags exclude each other and account for every resume, the queues hold a contiguous stretch of arrivals, and the wire is the join of the transfers |
| ReadWriteRuns.ResumedAtMostOnce | src/Communication/Impl/linux/channel_read_write_helper.cpp:108-252 | At any moment an operation has at most one of its two flags and has been resumed at most once, by I/O only if it finished and by the timer only if it timed out |
| ReadWriteRuns.ResumedExactlyOnce | src/Communication/Impl/linux/channel_read_write_helper.cpp:108-252 | Once no call is under way, every operation that was decided or whose timer task was called back has been resumed exactly once |
| ReadWriteRuns.ResumedResult | src/Communication/Impl/linux/channel_read_write_helper.cpp:146-158 | A resumed operation reports success exactly if it moved bytes and a timeout exactly if it timed out; a timed-out one moved nothing |
| ReadWriteRuns.WireIsTransfers | src/Communication/Impl/linux/channel_read_write_helper.cpp:116-161 | The bytes that went over the wire are exactly the bytes of the transfers joined in the order performed; they are performed in arrival order and each belongs to one operation |
| ReadWriteRuns.AttemptedInArrivalOrder | src/Communication/Impl/linux/channel_read_write_helper.cpp:108-161 | No read or write is attempted for an operation that arrived before one already attempted, and what is still queued arrived no earlier than anything attempted |
| ReadWriteRuns.StopNeverMasksSuccess | src/Communication/Impl/linux/channel.cpp:117-127 | What `Read` and `Write` return after the wait is success with the bytes exactly if the bytes moved, the channel-end result exactly if the channel was stopped and they did not, and without a stop the time-out exactly if the operation timed out, a failure or a disconnection for every other operation without bytes |
| ReadWriteResults.ResultMeansHistory | src/Communication/Impl/linux/channel_read_write_helper.cpp:134-155 | Over the whole run: an operation called back by I/O reports a failure exactly if a read or write made for it failed, a disconnection exactly if it was ended without a failure and without bytes, and success exactly if it moved bytes |
| ReadWriteEnds.FailureOrStopEndsAll | src/Communication/Impl/linux/channel_read_write_helper.cpp:60-64 | Once everything is quiet after a failed read or write or after a `Stop`, every operation submitted before it has been resumed, unless the helper was started again |
| ReadWriteEnds.EndsEverything | src/Communication/Impl/linux/channel_read_write_helper.cpp:86-152 | A thread that has had a failure, is in `DoOperate` with the run flag off, or is about to end all operations leaves nothing queued that was submitted before, once it is through, unless somebody starts the helper |
| ReadWriteEnds.StoppedOperateEndsAll | src/Communication/Impl/linux/channel_read_write_helper.cpp:102-105 | After a `Stop`, whichever thread goes through `DoOperate` ends everything submitted before it went in, until the helper is started again |
| ReadWriteEnds.CallEndsWhenStopped | src/Communication/Impl/linux/channel_read_write_helper.cpp:86-106 | The same for one call of `DoOperate` among the others: if a read or write of the call failed, or the helper was stopped when it began, everything submitted before has been called back, has timed out, or is being ended by another thread when the call is done |
| ReadWriteOrder.CalledBackInArrivalOrder | src/Communication/Impl/linux/channel_read_write_helper.cpp:97-100 | Of two operations a thread has in hand the one that arrived first is called back first, unless it times out |
| ReadWriteOrder.CallTries | src/Communication/Impl/linux/channel_read_write_helper.cpp:86-162 | A call of `DoOperate` that is done has made some socket call since it began, or nothing that had been submitted by then is waiting any more |
| ReadWriteOrder.CallSetsFlag | src/Communication/Impl/linux/channel_read_write_helper.cpp:86-95 | With nobody else about, the operateable flag is on after the call exactly if its loop left the queue empty and every operation it had finished got all it asked for |
| ReadWriteOrder.EventOpensDoor | src/Communication/Impl/linux/channel_read_write_helper.cpp:67-84 | From a socket event until a thread begins to serve it, another thread that submits an operation goes into `DoOperate`, too |
| ReadWriteOrder.FlagMayMissOperation | src/Communication/Impl/linux/channel_read_write_helper.cpp:67-95 | With another thread about it may be wrong: a run after which all is quiet, the helper runs, the flag is on and an operation waits that nobody has tried |
| TimedChannel.NextKeepsInv | src/Communication/Impl/linux/channel_read_write_helper.cpp:217-252 | Helper and timer composed, with tasks of others on the same timer: every step keeps both invariants and their coupling, including an I/O that completes before `StartTask` runs |
| TimedChannel.EveryOperationResumedExactlyOnce | src/Communication/Impl/linux/channel_read_write_helper.cpp:217-252 | With the map timer, and with the tree timer on every run without a stop after the drain swap, whatever tasks of their own others start and stop on the timer: once the worker has returned and the helper is quiet, every operation ever submitted has been resumed exactly once and has exactly one of its two flags |
| TimedChannel.NothingOwed | src/Communication/Impl/linux/channel_read_write_helper.cpp:230-234 | In those states the timer owes no callback to any operation |
| TimedChannel.StoppedHasFinished | src/Communication/Impl/linux/channel_read_write_helper.cpp:230-234 | Every operation's timer task that waits on a stop list belongs to an operation that I/O has finished, on every run and with either timer |
| TimedChannel.StoppedTaskIsNeverDue | src/Communication/Impl/linux/channel_read_write_helper.cpp:230-234 | When I/O calls back an operation whose timer task had been started, the timer does not have that task queued from then on, so it never finds it due |
| TimedChannel.ForeignKeepsInv | src/Time/impl/timer.cpp:57-98 | Starts and stops by others, such as the channel's other helper, leave the helper's share of the timer alone |
| TimedChannel.MapTimerStaysIntact | src/Time/impl/timer2.cpp:91-103 | With the map timer no run holds a stop after the drain swap |
| ReadWriteWorld.OthersStayAway | src/Communication/Impl/linux/channel_read_write_helper.cpp:108-162 | No action of others moves a thread or, while it holds the operating mutex, changes the operating queue, the wire, the transfers made or the bytes of any operation |
| ReadWriteWorld.DrivenReachable | src/Communication/Impl/linux/channel_read_write_helper.cpp:54-252 | A thread's sections with any actions of others between them only pass through states the machine can reach |
| ReadWriteHelper.OthersLeaveExpiry | src/Communication/Impl/linux/channel_read_write_helper.cpp:236-252 | No action of others interferes with a timer callback under way for an operation |
| ReadWriteHelper.ChannelReadWriteHelper.DoOperateImp | src/Communication/Impl/linux/channel_read_write_helper.cpp:108-162 | The loop, with arbitrary actions of other threads before each of its sections, is the machine's run of those turns from where the call began, terminates and releases the mutex. A first part of the queue it found (both queues joined) is gone, each operation of that part is finished or has timed out, exactly the bytes of the finished ones, in their order, were added to the wire, it stops at the first operation that did not get all it asked for, and it reports ready exactly if the queue is empty and all got that |
| ReadWriteHelper.ChannelReadWriteHelper.DoOperate | src/Communication/Impl/linux/channel_read_write_helper.cpp:86-106 | The whole call, with its callbacks and a possible end of all operations, is the machine's run of its turns. Every operation it took and let go of has been called back or had timed out, and if it ended all operations none submitted before is queued. When it is done: if one of its reads or writes failed or the helper was stopped when it began, everything submitted before has been called back, has timed out or is being ended by another thread; it has made a socket call or left nothing waiting; and with nobody else about the flag tells how its loop ended. It is done at the end of its code, or it still waits for the taken mutex and nothing more happens around it |
| ReadWriteHelper.ChannelReadWriteHelper.EndAllOperate | src/Communication/Impl/linux/channel_read_write_helper.cpp:164-190 | The sections are the machine's run of their turns; when the call is done no operation submitted before it is on a queue any more, and those taken have been called back or had timed out; otherwise it still waits for the taken mutex and nothing more happens around it |
| ReadWriteHelper.ChannelReadWriteHelper.Stop | src/Communication/Impl/linux/channel_read_write_helper.cpp:60-64 | The run starts with clearing the run flag and goes on with the call's turns; when the call is done no operation submitted before it is on a queue any more; otherwise it still waits for the taken mutex and nothing more happens around it |
| ReadWriteWorld.ActionAdvances | src/Communication/Impl/linux/channel_read_write_helper.cpp:54-252 | No action takes back a time-out or finish mark, puts an operation back on a queue or takes back a callback |
| ReadWriteWorld.HandIsServed | src/Communication/Impl/linux/channel_read_write_helper.cpp:86-190 | Whatever operation a thread has taken in hand and let go of again has been called back or had timed out |
| ReadWriteWorld.EndingEmptiesQueues | src/Communication/Impl/linux/channel_read_write_helper.cpp:164-190 | Once a thread that set out to end all operations has passed that point, no operation submitted before is on a queue any more, whatever others do |
| ReadWriteWorld.CallIsDone | src/Communication/Impl/linux/channel_read_write_helper.cpp:86-190 | All of this holds of any stretch of a thread's turns, together with nothing ever being taken back |
| ReadWriteHelper.ServedTransfer | src/Communication/Impl/linux/channel_read_write_helper.cpp:137-155 | A transfer extends the served part of the queue by its front and the wire by exactly that operation's bytes |
| ReadWriteHelper.ChannelReadWriteHelper.AwaitSuspend | src/Communication/Impl/linux/channel_read_write_helper.cpp:217-223 | The run starts with the submission under the next number in arrival order and goes on with the call's turns; when the call is done the operation's timer task has been started, and if the flag was on when it was tested, a whole call of `DoOperate` has been done; otherwise it still waits for the taken mutex and nothing more happens around it |
| ReadWriteHelper.ChannelReadWriteHelper.OnOperate | src/Communication/Impl/linux/channel_read_write_helper.cpp:80-84 | The socket event's call: the machine's run of its first step and its turns, and then as for the whole call |
| ReadWriteHelper.ChannelReadWriteHelper.OnTimeout | src/Communication/Impl/linux/channel_read_write_helper.cpp:236-252 | The timer's callback is the machine's three steps with the actions of others between them, and resumes the operation exactly if the operation had not finished when the callback took its mutex |
| BipartiteMatching.MaxBipartiteMatchState.TryAugment | 3rdparty/googletest/googlemock/src/gmock-matchers.cc:184-208 | Terminates; on failure both sides are unchanged and everything reachable was seen; on success exactly one new left node is matched, all others stay matched, nothing seen before is touched, and only the searched node's former partner may still point at it |
| BipartiteMatching.MaxBipartiteMatchState.Compute | 3rdparty/googletest/googlemock/src/gmock-matchers.cc:132-163 | The result is a matching made of graph edges, no matching of the graph is larger, and its pairs come in order of the left node; each left node is searched from once |
| BipartiteMatching.LinkAfter | 3rdparty/googletest/googlemock/src/gmock-matchers.cc:199-204 | Making the last link after the recursion restores the mutual reference that the recursion left broken at one right node |
| BipartiteMatching.FailureGrowsDead | 3rdparty/googletest/googlemock/src/gmock-matchers.cc:132-156 | A failed search adds the right nodes it saw to a closed set of matched right nodes that no later search can leave |
| BipartiteMatching.SuccessKeepsDead | 3rdparty/googletest/googlemock/src/gmock-matchers.cc:132-156 | A successful search leaves that set closed, so a left node need not be tried again |
| BipartiteMatching.NoLargerMatching | 3rdparty/googletest/googlemock/src/gmock-matchers.cc:132-163 | That set, with the other matched left nodes, bounds the size of every matching |
| BipartiteMatching.FindMaxBipartiteMatching | 3rdparty/googletest/googlemock/src/gmock-matchers.cc:228-230 | A maximum matching of any graph |
| BipartiteMatching.CoverBySize | 3rdparty/googletest/googlemock/src/gmock-matchers.cc:440-460 | A matching leaves nobody out on a side exactly if it is as large as the side |
| BipartiteMatching.SizeDecides | 3rdparty/googletest/googlemock/src/gmock-matchers.cc:436-474 | A pairing that leaves nobody out on the required sides exists exactly if a maximum matching is large enough |
| BipartiteMatching.RequirementMeans | 3rdparty/googletest/googlemock/src/gmock-matchers.cc:369-434 | A superset has a partner for every matcher, a subset for every element, and an exact match for both |
| BipartiteMatching.FindPairing | 3rdparty/googletest/googlemock/src/gmock-matchers.cc:436-474 | Accepts exactly when such a pairing exists |
| BipartiteMatching.VerifyMatchMatrix | 3rdparty/googletest/googlemock/src/gmock-matchers.cc:369-434 | Accepts exactly when sizes agree where they must and nobody on a required side matches nothing |
| BipartiteMatching.SaturatingIsPlausible | 3rdparty/googletest/googlemock/src/gmock-matchers.cc:369-434 | The quick check rejects no matrix that has such a pairing |
| BipartiteMatching.MatchAndExplain | 3rdparty/googletest/googlemock/include/gmock/gmock-matchers.h:3680-3690 | Both checks in sequence accept exactly when such a pairing exists |
| MatchMatrices.SuccessorAddsOne | 3rdparty/googletest/googlemock/include/gmock/gmock-matchers.h:3568-3571 | The successor of a matrix, read as a number, is one more, and zero only after the full matrix |
| MatchMatrices.ValueInjective | 3rdparty/googletest/googlemock/include/gmock/gmock-matchers.h:3568-3571 | Two matrices of one size with the same number are equal |
| MatchMatrices.WalkMeetsEveryMatrixOnce | 3rdparty/googletest/googlemock/include/gmock/gmock-matchers.h:3553-3554 | Stepping on from the empty matrix meets every matrix of the size exactly once before it is empty again |
| MatchMatrices.MatchMatrix.NextGraph | 3rdparty/googletest/googlemock/src/gmock-matchers.cc:246-258 | The nested loops turn the matrix into its successor and return whether an edge is left |
| MatchMatrices.MatchMatrix.SetEdge | 3rdparty/googletest/googlemock/include/gmock/gmock-matchers.h:3560-3579 | Changes the one edge and no other |
| GlobFilter.PatternMatchesString | 3rdparty/googletest/googletest/src/gtest.cc:729-774 | Terminates and accepts exactly the names the pattern's declarative meaning matches |
| GlobFilter.NewerStarSuffices | 3rdparty/googletest/googletest/src/gtest.cc:755-763 | When a further star is reached, any match the older restart could still find is also found from here |
| GlobFilter.StarlessAdvance | 3rdparty/googletest/googletest/src/gtest.cc:739-754 | A stretch of pattern without stars consumes one character each, which is why the older restart is no better |
| GlobFilter.LiteralMatchesItself | 3rdparty/googletest/googletest/src/gtest.cc:778-781 | A pattern without wildcards matches itself and nothing else |
| GlobFilter.CharactersMean | 3rdparty/googletest/googletest/src/gtest.cc:738-754 | A star stands for any text, a question mark for any one character, every other character for itself |
| GlobFilter.PatternConcat | 3rdparty/googletest/googletest/src/gtest.cc:729-774 | A pattern after a pattern matches what the one matches followed by what the other does |
| GlobFilter.SplitString | 3rdparty/googletest/googletest/src/gtest.cc:1277-1292 | The pieces hold no delimiter and rejoin to the text |
| GlobFilter.SplitIsUnique | 3rdparty/googletest/googletest/src/gtest.cc:1277-1292 | No other pieces do |
| GlobFilter.MakeFilter | 3rdparty/googletest/googletest/src/gtest.cc:787-801 | The globs and the exact names together are exactly the patterns of the `:`-separated list, each on its side |
| GlobFilter.FilterIsList | 3rdparty/googletest/googletest/src/gtest.cc:783-818 | Looking exact names up in a set and trying only the globs accepts a name exactly if some pattern of the `:`-separated list matches it |
| GlobFilter.NegativeFilter | 3rdparty/googletest/googletest/src/gtest.cc:836-856 | A filter that starts with a dash selects exactly the names its negative list does not match |
| GlobFilter.MatchesName | 3rdparty/googletest/googletest/src/gtest.cc:805-813 | Accepts exactly the names in the set or matched by a glob |
| GlobFilter.MakeFilters | 3rdparty/googletest/googletest/src/gtest.cc:830-852 | The two filters built together select exactly what the text means: the part before the first dash (everything if that is empty), without what the whole text after that dash lists |
| GlobFilter.MatchesTest | 3rdparty/googletest/googletest/src/gtest.cc:858-868 | A test is selected exactly if its full name is |
| EditDistance.CalculateOptimalEdits | 3rdparty/googletest/googletest/src/gtest.cc:1335-1389 | The filled table and the path read back from it give the path of the defining recurrence, and it is a script from left to right: matches only on equal elements, replacements only of different ones |
| EditDistance.PathIsScript | 3rdparty/googletest/googletest/src/gtest.cc:1380-1388 | The path to any table entry is a script for the two prefixes and costs exactly what the entry says |
| EditDistance.ReplayGivesRight | 3rdparty/googletest/googletest/src/gtest.cc:1335-1389 | A script replayed on the left sequence produces the right sequence |
| EditDistance.ReplacementsOrOneMore | 3rdparty/googletest/googletest/src/gtest.cc:1361-1376 | A replacement is dearer than an add or a remove, but as many replacements as one likes below 100000 are cheaper than one add or remove more |
| EditDistance.ScriptFromTheEnd | 3rdparty/googletest/googletest/src/gtest.cc:1380-1388 | A script with one more edit is one for the sequences without the last elements that edit takes |
| EditOptimality.OptimalExactly | 3rdparty/googletest/googletest/src/gtest.cc:1364-1375 | All table entries are least costs exactly when no entry is filled from a tie, that is, by the third branch although adding or removing would be cheaper |
| EditOptimality.ScriptIsCheapest | 3rdparty/googletest/googletest/src/gtest.cc:1335-1389 | Without such ties no script costs less than the one returned |
| EditOptimality.NotAlwaysOptimal | 3rdparty/googletest/googletest/src/gtest.cc:1364-1375 | With them it can: three replacements for "aba" and "bab", where one removal and one addition do |
| UnifiedDiff.InternalStrings.GetId | 3rdparty/googletest/googletest/src/gtest.cc:1394-1406 | Equal strings get equal numbers, different strings different ones, and numbers once given stay |
| UnifiedDiff.ScriptOfIds | 3rdparty/googletest/googletest/src/gtest.cc:1410-1424 | A script for the numbers is a script for the lines |
| UnifiedDiff.EditsOfLines | 3rdparty/googletest/googletest/src/gtest.cc:1410-1424 | Interning changes nothing: the edits are the path the table gives for the lines themselves, and a script |
| EditDistance.SamePath | 3rdparty/googletest/googletest/src/gtest.cc:1335-1389 | The path depends only on which elements are equal, so results about costs hold for the lines too |
| UnifiedDiff.Hunk.PushLine | 3rdparty/googletest/googletest/src/gtest.cc:1441-1458 | Moving removes before pending adds changes neither the old nor the new text of the hunk, and the three counts stay right; between two common lines all removed lines stay before all added ones |
| UnifiedDiff.RemoveBeforeAdds | 3rdparty/googletest/googletest/src/gtest.cc:1450-1453 | The regrouping alone: both texts are as if the removed line had been appended |
| UnifiedDiff.BodyGrouped | 3rdparty/googletest/googletest/src/gtest.cc:1448-1475 | Pending removes before pending adds, after a common line, keep a hunk grouped |
| UnifiedDiff.Hunk.Print | 3rdparty/googletest/googletest/src/gtest.cc:1460-1495 | The header shows a side's start and the number of its lines exactly if the side has edits |
| UnifiedDiff.CollectEdits | 3rdparty/googletest/googletest/src/gtest.cc:1531-1562 | The hunk's body stands for exactly the lines from its first context line to here, shows every edit's lines once, has the context it started with in front, at most `context` common lines after its last edit and never twice `context` of them between two edits, and stops short of the end only `context` lines behind the last edit with the next edit at least as far again |
| UnifiedDiff.HunkApplies | 3rdparty/googletest/googletest/src/gtest.cc:1509-1570 | Such a hunk applies at the place its printed header gives |
| UnifiedDiff.CreateUnifiedDiff | 3rdparty/googletest/googletest/src/gtest.cc:1509-1570 | Applied as a patch, the hunks turn the left text into the right one exactly if the context is positive or the texts are equal; they show exactly as many removed and added lines as the edits of the lines make; and every hunk has `context` common lines around its edits, fewer only at the start and the end of the texts, and never twice as many between edits; in every hunk removed lines come before added ones between two common lines, and the header shows a side exactly if it has a change |
| UnifiedDiff.FramedChange | 3rdparty/googletest/googletest/src/gtest.cc:1539-1562 | Putting a changed line into a hunk, after or before its pending adds, keeps its frame |
| SimpleRegex.ValidateRegex | 3rdparty/googletest/googletest/src/gtest-port.cc:822-875 | Accepts exactly the texts of the grammar |
| SimpleRegex.ValidExactly | 3rdparty/googletest/googletest/src/gtest-port.cc:822-875 | A text is accepted exactly if it is written from some valid regular expression, and from only one |
| SimpleRegex.ParseSound | 3rdparty/googletest/googletest/src/gtest-port.cc:822-875 | Parsing a valid text loses nothing |
| SimpleRegex.ParseComplete | 3rdparty/googletest/googletest/src/gtest-port.cc:822-875 | The text of a valid expression is valid and is parsed back into it |
| RegexMeaning.EscapeMeans | 3rdparty/googletest/googletest/src/gtest-port.cc:781-812 | What each escape matches, with every class listed character by character, the capital ones as complements and escaped punctuation as itself |
| RegexMeaning.PlainMeans | 3rdparty/googletest/googletest/src/gtest-port.cc:808-812 | An unescaped character matches itself, and a dot everything but a line feed |
| RegexMeaning.EscapesAre | 3rdparty/googletest/googletest/src/gtest-port.cc:775-777 | What may be escaped, listed character by character |
| RegexMeaning.PlainAre | 3rdparty/googletest/googletest/src/gtest-port.cc:839-880 | What an unescaped character of a valid pattern may be |
| RegexMeaning.OneItemMeans | 3rdparty/googletest/googletest/src/gtest-port.cc:882-901 | How often a character followed by `?`, `*`, `+` or nothing may match |
| RegexMeaning.ItemsConcat | 3rdparty/googletest/googletest/src/gtest-port.cc:906-930 | Items after items match what the first match followed by what the others do |
| RegexMeaning.AnchorsMean | 3rdparty/googletest/googletest/src/gtest-port.cc:940-950 | A pattern is found exactly in strings of which some part is in its language, a first part with a caret and a last part with a dollar |
| RegexMeaning.FindsWord | 3rdparty/googletest/googletest/src/gtest-port.cc:940-950 | For all strings: `\w` is found exactly if some character is a letter, a digit or an underscore, and `\W` exactly if some character is not |
| RegexMatcher.HeadOfItems | 3rdparty/googletest/googletest/src/gtest-port.cc:906-930 | Matching a sequence of items at the head is taking some number of the first and matching the rest there |
| RegexMatcher.MatchRepetitionAndRegexAtHead | 3rdparty/googletest/googletest/src/gtest-port.cc:882-901 | Accepts exactly when an allowed number of matching characters is followed by a match of the rest |
| RegexMatcher.MatchRegexAtHead | 3rdparty/googletest/googletest/src/gtest-port.cc:906-930 | Terminates, through the mutual recursion, and accepts exactly when some prefix of the string is in the language; with a final dollar, the whole string |
| RegexMatcher.MatchRegexAnywhere | 3rdparty/googletest/googletest/src/gtest-port.cc:940-950 | Accepts exactly when some substring is in the language, from the start with a caret and to the end with a dollar |
| RegexMatcher.FullText | 3rdparty/googletest/googletest/src/gtest-port.cc:968-995 | The anchored pattern built by looking at the first and last characters is the text of the expression with both anchors, unless the pattern ends in an escaped dollar |
| RegexMatcher.RE.constructor | 3rdparty/googletest/googletest/src/gtest-port.cc:968-995 | The object is valid exactly if its pattern is, and then holds the anchored pattern |
| RegexMatcher.RE.PartialMatch | 3rdparty/googletest/googletest/src/gtest-port.cc:963-966 | Accepts exactly when a valid pattern is found |
| RegexMatcher.RE.FullMatch | 3rdparty/googletest/googletest/src/gtest-port.cc:957-960 | Accepts exactly when the anchored expression is found |
| RegexMatcher.FullMatchExactly | 3rdparty/googletest/googletest/src/gtest-port.cc:957-995 | That means the whole string is in the language, for all strings, exactly if the pattern does not end in an escaped dollar |
| Expectations.AllPrerequisitesAreSatisfied | 3rdparty/googletest/googlemock/src/gmock-spec-builders.cc:136-153 | On any acyclic graph the walk without a visited set terminates and answers whether all transitive prerequisites are satisfied |
| Expectations.ChainLeadsToAncestor | 3rdparty/googletest/googlemock/src/gmock-spec-builders.cc:136-153 | Whatever a chain of immediate prerequisites leads to is a transitive prerequisite |
| Expectations.AncestorHasChain | 3rdparty/googletest/googlemock/src/gmock-spec-builders.cc:136-153 | Every transitive prerequisite is the end of such a chain |
| Expectations.FindUnsatisfiedPrerequisites | 3rdparty/googletest/googlemock/src/gmock-spec-builders.cc:156-183 | Adds exactly the unsatisfied prerequisites reached through satisfied ones without calls |
| Expectations.ReportedIsUnsatisfied | 3rdparty/googletest/googlemock/src/gmock-spec-builders.cc:156-183 | Only unsatisfied transitive prerequisites are reported |
| Expectations.ReportChainIsReported | 3rdparty/googletest/googlemock/src/gmock-spec-builders.cc:156-183 | Every unsatisfied prerequisite at the end of a chain of satisfied ones without calls is reported |
| Expectations.ReportedHasChain | 3rdparty/googletest/googlemock/src/gmock-spec-builders.cc:156-183 | Everything reported is at the end of such a chain |
| Expectations.NothingReportedExactly | 3rdparty/googletest/googlemock/src/gmock-spec-builders.cc:168-174 | If whoever is satisfied by calls has only satisfied prerequisites, nothing is reported exactly if nothing is missing |
| Expectations.ReportIsExact | 3rdparty/googletest/googlemock/src/gmock-spec-builders.cc:156-183 | In every state that calls lead to that condition holds, so the report is empty exactly if nothing is missing |
| Expectations.RetireAllPreRequisites | 3rdparty/googletest/googlemock/src/gmock-spec-builders.cc:109-132 | If the retired set is closed, every transitive prerequisite ends up retired, with the early return and the skipping of retired ones |
| Expectations.ClosedReachesAll | 3rdparty/googletest/googlemock/src/gmock-spec-builders.cc:110-115 | A set closed at an expectation and at its own members holds all transitive prerequisites |
| Expectations.GetActionForArguments | 3rdparty/googletest/googlemock/include/gmock/gmock-spec-builders.h:1218-1252 | The whole change of state: the call is counted, and unless it is excessive all transitive prerequisites are retired, and the expectation itself if it asks for that and has had enough |
| Expectations.HandleCall | 3rdparty/googletest/googlemock/include/gmock/gmock-spec-builders.h:1218-1252 | Any call handled by an active expectation with satisfied prerequisites turns the mock, as a value, into the one in which that call is counted and the right expectations are retired, leaves every retired flag alone if the call is excessive, keeps the retired set closed, and keeps prerequisites of called expectations satisfied and retired |
| Expectations.FindMatchingExpectation | 3rdparty/googletest/googlemock/include/gmock/gmock-spec-builders.h:1677-1692 | The last declared expectation that is active, matches and has its prerequisites satisfied, or none; the same as in the mock as a value |
| Expectations.Replay | 3rdparty/googletest/googlemock/include/gmock/gmock-spec-builders.h:1643-1665 | Over any run of calls from any sound state: who handles each call, which calls are excessive and the counts and retired flags left are exactly those of the run of the mock as a value; and once a call that is not excessive was handled, no prerequisite of its handler handles a call again |
| Expectations.NoPrerequisiteAgain | 3rdparty/googletest/googlemock/include/gmock/gmock-spec-builders.h:1643-1665 | On such a run, no prerequisite of the handler of a call that was not excessive handles a later call |
| Expectations.PrerequisitesStayMet | 3rdparty/googletest/googlemock/src/gmock-spec-builders.cc:109-153 | On such a run those prerequisites are satisfied at that call and stay so whatever calls follow |
| Expectations.CountsAreCalls | 3rdparty/googletest/googlemock/include/gmock/gmock-spec-builders.h:1218-1239 | On such a run every expectation's count is the number of calls it handled, and a call is excessive exactly if its handler had handled its maximum before |
| Expectations.SatisfiedByCount | 3rdparty/googletest/googlemock/include/gmock/gmock-spec-builders.h:790-799 | On such a run an expectation is satisfied exactly while the number of calls it has handled is within its bounds |
| Expectations.HandlerIsLast | 3rdparty/googletest/googlemock/include/gmock/gmock-spec-builders.h:1677-1692 | On such a run a call is handled by the last declared expectation of its mock function that is not retired, matches the arguments and whose transitive prerequisites have all had a number of calls within their bounds, and by none if there is none |
| Expectations.RetiredByCalls | 3rdparty/googletest/googlemock/include/gmock/gmock-spec-builders.h:1239-1244 | On such a run an expectation is retired exactly if it was at the start, or some call that was not excessive was handled by an expectation it is a prerequisite of, or by itself to saturation while it asks to retire then |
| Expectations.StartsSound | 3rdparty/googletest/googlemock/include/gmock/gmock-spec-builders.h:1643-1665 | Declared expectations before the first call are in a sound state |
| Utf8.IsValidUTF8 | 3rdparty/googletest/googletest/src/gtest-printers.cc:483-514 | Accepts exactly the byte strings of the grammar in section 4 of RFC 3629 |
| Utf8.CharIsUnique | 3rdparty/googletest/googletest/src/gtest-printers.cc:483-514 | Two characters of that grammar that spell the same code point are the same bytes |
| Utf8.SpellingIsUnique | 3rdparty/googletest/googletest/src/gtest-printers.cc:483-514 | A byte string spells one sequence of code points only |
| Utf8.SpelledIsValid | 3rdparty/googletest/googletest/src/gtest-printers.cc:483-514 | Whatever spells code points is valid |
| Utf8.ValidIsSpelled | 3rdparty/googletest/googletest/src/gtest-printers.cc:483-514 | Every valid byte string spells some sequence of code points |
| Utf8.CodePointToUtf8 | 3rdparty/googletest/googletest/src/gtest.cc:2030-2056 | Chopping six bits at a time and reading the buffer back as a C string gives the defined bytes; nothing for NUL |
| Utf8.NarrowSpells | 3rdparty/googletest/googletest/src/gtest.cc:2036-2055 | A scalar value other than NUL becomes one character of the grammar, and that spells the value |
| Utf8.NarrowOutsideUnicode | 3rdparty/googletest/googletest/src/gtest.cc:2030-2056 | Any other number up to 0x1FFFFF becomes bytes that no valid text starts with |
| Utf8.HexReadsBack | 3rdparty/googletest/googletest/src/gtest.cc:2030-2033 | The number in the message is written in upper-case hexadecimal digits without a leading zero and reads back as the code point |
| Utf8.WideStringToUtf8 | 3rdparty/googletest/googletest/src/gtest.cc:2096-2117 | Converts exactly the part before the first NUL or the given number of units, all of it for -1 and nothing for any other negative number, pairing surrogates where units are 16 bits wide |
| Utf8.WideTextSurvives | 3rdparty/googletest/googletest/src/gtest.cc:2096-2117 | Well-formed NUL-free UTF-16 or UTF-32 becomes valid UTF-8 that spells the same code points and no others |
| Utf8.ConvertedTextSurvives | 3rdparty/googletest/googletest/src/gtest.cc:2096-2117 | From end to end: what is made of well-formed NUL-terminated UTF-16 or UTF-32, converted whole or with a limit it does not reach, whatever follows the NUL, spells that text and no other |
| Utf8.ReadingIsLossless | 3rdparty/googletest/googletest/src/gtest.cc:2063-2085 | Reading loses nothing: the code points read from any units, with paired or unpaired surrogates, give exactly these units back |
| Utf8.ValidExactly | 3rdparty/googletest/googletest/src/gtest.cc:2096-2117 | For any wide string the output is valid exactly if no code point read is an unpaired surrogate or lies in 0x110000-0x1FFFFF |
| Int128.DivideBy10 | 3rdparty/googletest/googletest/src/gtest-printers.cc:306-317 | One step of the two-word division is exact, and none of its 64-bit operations overflows |
| Int128.PrintUnsigned | 3rdparty/googletest/googletest/src/gtest-printers.cc:291-323 | For every 128-bit value the result is its decimal numeral without a leading zero, at most 39 digits, written without leaving the 40-byte buffer |
| Int128.PrintSigned | 3rdparty/googletest/googletest/src/gtest-printers.cc:324-331 | Likewise with a sign, the least value included |
| Int128.CanonicalIsUnique | 3rdparty/googletest/googletest/src/gtest-printers.cc:291-323 | There is only one such numeral for a number |
| PrimeTables.SurvivorsArePrime | 3rdparty/googletest/googletest/samples/prime_tables.h:55-64 | Divisors whose square is within the number decide whether it is prime |
| PrimeTables.OnTheFlyPrimeTable.IsPrime | 3rdparty/googletest/googletest/samples/prime_tables.h:55-64 | Trial division decides primality |
| PrimeTables.PrimeAbove | 3rdparty/googletest/googletest/samples/prime_tables.h:66-72 | There is a prime above every number |
| PrimeTables.OnTheFlyPrimeTable.GetNextPrime | 3rdparty/googletest/googletest/samples/prime_tables.h:66-72 | Terminates with the least prime above the number, or -1 for a negative one |
| PrimeTables.CompositeAddsNothing | 3rdparty/googletest/googletest/samples/prime_tables.h:104-115 | A number already crossed out has no multiple left to cross out |
| PrimeTables.EvenAddsNothing | 3rdparty/googletest/googletest/samples/prime_tables.h:104 | Leaving out even numbers above 2 loses nothing |
| PrimeTables.PreCalculatedPrimeTable.CalculatePrimesUpTo | 3rdparty/googletest/googletest/samples/prime_tables.h:100-116 | The sieve marks exactly the primes |
| PrimeTables.PreCalculatedPrimeTable.CrossOut | 3rdparty/googletest/googletest/samples/prime_tables.h:110-114 | The inner loop makes the table that was right for divisors below i right for divisors up to i, starting at i*i |
| PrimeTables.PreCalculatedPrimeTable.IsPrime | 3rdparty/googletest/googletest/samples/prime_tables.h:87-89 | True exactly for the primes the table holds |
| PrimeTables.PreCalculatedPrimeTable.GetNextPrime | 3rdparty/googletest/googletest/samples/prime_tables.h:91-97 | The least prime above the number if the table holds one, and -1 exactly otherwise; asked from -1 on |
| PrimeTables.HybridPrimeTable.IsPrime | 3rdparty/googletest/googletest/samples/sample8_unittest.cc:61-66 | Whichever table answers, the answer is whether the number is prime |
| PrimeTables.HybridPrimeTable.GetNextPrime | 3rdparty/googletest/googletest/samples/sample8_unittest.cc:68-74 | Whichever table answers, the answer is the least prime above the number; for a negative number it is 2 if there is a table that holds 2, and -1 otherwise |

## Left out

- Timers: `StopTask` is one step, although it reads `timer_data_` before it takes the lock; `StartTask` requires
  `run_flag_`, as the source asserts, and a task that is not started already; `next_task_id_` does not wrap.
- Timers: the red-black tree (src/util/include/util/red_black_tree.h) is used by its contract as an ordered multimap
  that inserts behind equal keys, `std::map` as an ordered map; condition variables may wake at any time, and the clock
  gives any value at any step.
- Timers: records and tasks are identities and values; shared ownership, the task's function object and the moment it
  is destroyed are not modelled.
- Timers: after a `StopTask` of `Timer` that reaches a record of the tree being drained, the machine takes the record
  out of the residue and goes on. That stands for the source only where the tree survives the erasure through another
  tree, as in the run of `StopDuringDrainLosesCallback`; theorems about what every task or operation is owed exclude such
  runs, or say exactly that they are excluded.
- TimerRuns.WorkerReturns: bounds the worker's sections after shutdown and shows that a sleeper has been notified; that
  the operating system lets the worker run is not modelled.
- Timers.Timer.Work: what clients do around the worker is a finite list of turns; while the timer runs, the loop ends
  with the list. `TimerRuns` has no such limit.
- Helper: the operations are records with a number, so that two queues of pointers become two queues of numbers; error
  texts, sockets, epoll and the closing of the socket on an error are not modelled, and a read or write has any outcome
  (negative, zero, or at most the requested number of bytes).
- Helper: `Channel.Run`, its stop handling, the counter of running tasks and the early return of `Read` and `Write` when
  the channel is already stopped; coroutine frames, so that a resume is an event that is counted.
- ReadWriteHelper.ChannelReadWriteHelper.DoOperate: what happens around the helper is a finite list of turns; if the list
  ends while the thread waits for the mutex, the call ends there, and its contract says that the mutex is taken.
  `ReadWriteRuns` has no such limit.
- TimedChannel: one helper is composed with the timer; the channel's other helper takes part through the tasks it starts
  and stops, whose callbacks do nothing to this helper.
- The Windows implementation of the channel.
- BipartiteMatching: the texts written to the listener.
- GlobFilter: environment variables and flags that supply the filter, sharding and disabled tests.
- EditOptimality.OptimalExactly: is about the whole table; an entry filled from a tie need not lie on the way to the last
  entry, so for the returned script alone only one direction is stated, in `ScriptIsCheapest`.
- EditDistance: costs are real numbers, so that rounding of repeated 1.00001 is not modelled.
- UnifiedDiff: hunks are printed as values, two optional extents and tagged lines, not as text; a line that contains a
  line break or a NUL character would not survive printing.
- RegexMatcher: strings are limited to the longest that `size_t` can index, as the source demands; the failure messages
  of `ValidateRegex`.
- Expectations: prerequisites are fixed once declared, and the graph is acyclic because declarations only refer to
  earlier ones; matching of arguments is a set given with each call; cardinalities are a lower and an upper bound;
  actions, logging and the global lock.
- Utf8: characters are bytes and units are numbers; the pair of `sizeof(wchar_t)` cases is a parameter. A NUL inside a
  string of bytes is valid UTF-8, as in the source.
- PrimeTables: `int` is unbounded, and a table is made for max >= 1 and asked for a prime above -1 or more only: for
  less the source writes or reads outside its array.
- The rest of googletest: death tests, output formats, flag parsing, stack traces, the registry of mocks; and of the
  library: set-up of serial, TCP and UDP channels, logging, and the holders of global timers and thread pools.
