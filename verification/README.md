# ProcScope, modelled and proved

ProcScope watches processes and keeps price-like histories of their CPU use; several processes share
one memory segment under a lock built from three System V semaphores. This project models the parts of
it whose correctness rests on more than one function, and proves what those parts promise.

**The shared segment (`src/ipc.c`).** `RwLock` is the readers-writer lock as a transition system: one
step is one `semop` or `semctl` call of one process, for any number of processes, with the kernel's
`SEM_UNDO` adjustments and process exits, at which the kernel undoes them without going below zero. The inductive invariant ties the three semaphore values to the
program counters. `LockedRuns` puts arbitrary operations under that lock. A body is cut into single
assignments and tests, processes interleave after each of them, and the unlocked initialisation of the
segment runs beside them. It proves that every such run is a serial run of atomic operations, that
readers see only states of that serial run, that runs are bounded and never stuck, and that they end
with the semaphores at (1, 0, 1). `MessageQueue`, `StockTable`, `WorkerTable` and `Statistics` each give
the operations of one part of the segment three times: as a function on abstract data (a bounded queue, an
ordered map, a set of workers, counters), as a class that changes arrays in place, and as steps. The
class and the steps are both proved to do what the function says. `SharedMemory` joins them: every
concurrent run of all the operations gives the answers and the data of a serial run on the abstract data.
`StockAnswers`, `WorkerAnswers` and `RunAnswers` say what those answers are from the logged calls alone: a
map of last writes, a roster of workers with their last heartbeats, and the messages still pending.

**The price history (`src/ai.c`, `src/history.c`).** `PriceRing` is the 60-slot ring as a class, proved
to hold the last sixty accepted samples. `Indicators` states the indicators on that window and proves
their laws, with `real` for `double`; `IndicatorLaws` says what each of them is in sums and products of the
samples. `HistoryFile` is the saved table and proves that samples,
saves, loads and restarts, interleaved in any way, behave like a bounded map of sample streams, so that
persistence is invisible to the rings when nothing unsaved is reloaded.

**Text (`src/ai_insights.c`).** `JsonText` proves that extraction undoes escaping under any truncation
and that the output is valid by section 7 of RFC 8259. `WordWrap` proves that the wrapper keeps the
words and that no admissible arrangement of a paragraph uses fewer lines; `KeptText` proves that a reader
sees the same characters, side by side or apart as before.

**The watch mode (`src/monitor.c`, `src/proc.c`).** `WatchMode` is the refresh loop over four parallel
arrays with in-place compaction, key presses, pauses and exits; it proves that watching many processes
together is watching each of them alone. `CpuUsage` is the 64-bit tick arithmetic with the error bound of
successive percentages.

Oracles and inputs: clock readings, the samples a child process reports, the permutation `qsort` leaves,
the symbols and messages of callers, and every scheduling decision are parameters, so each theorem holds
for all of them.

Where the code and its comments differ, the code is modelled. `sem_wait` comments its flag as "Undo on
process exit", but what the kernel undoes is one process's net change. The first reader takes the writer
token and the last reader returns it, so a reader's exit can hand the token back too early:
`RwLock.ReaderExitBreaksExclusion` is such a run, and `RwLock.ExitKeepsExclusionExactlyWhen` says which
exits are harmless: those whose adjustment of the writer token is no more than the tokens that leave with
the process or are lost already, and those that leave fewer than two processes. An exit can also lose the
token, after which nobody gets in (`RwLock.DeficitExitLocksOut`). `calculate_ema` starts from the mean of the newest samples (`calculate_moving_average`)
and then blends in the samples from position `count - 1 - periods` down to the newest one, so some samples
are weighted twice; `Indicators.EmaIsWeightedMean` proves that the weights still add up to one.
`calculate_rsi` gives 100, not 50, on a flat window, as `Indicators.RsiSign` states. The extractor takes an
escape it does not know for the letter itself, so it differs from RFC 8259 on backspace, form feed and
code units, and on nothing else (`JsonText.ExtractIsStandardExactlyWhen`).

## Model

| member | source | states |
|---|---|---|
| `RwLock.LockIsSafe` | src/ipc.c:282-345 | after any steps of any number of processes from the created state, with writers exiting anywhere: a write lock excludes every other lock, nobody holds a lock before SETVAL, and each semaphore value plus all adjustments is its initial value |
| `RwLock.StepKeepsShape` | src/ipc.c:282-345 | one semaphore call, call or section end keeps mutex and reader count tied to the program counters and neither makes nor loses a writer token, even after exits have |
| `RwLock.StepKeepsInv` | src/ipc.c:282-345 | with exactly one token around, it keeps the whole invariant |
| `RwLock.StepKeepsUndo` | src/ipc.c:219-253 | each process's adjustments undo its own mutex and reader count through every step, and the ledger stays balanced if and only if the step is not an exit that the kernel cuts short at zero |
| `RwLock.SetValKeepsInv` | src/ipc.c:380-414 | the SETVAL that publishes the segment adds exactly the token and clears no adjustment that mattered |
| `RwLock.InitiallyInv` | src/ipc.c:139-187 | (1, 0, 0) with processes that have done nothing satisfies invariant and ledger |
| `RwLock.GateShut` | src/ipc.c:173-178 | before SETVAL there is no token and nobody is about to return one |
| `RwLock.RunsKeepInv` | src/ipc.c:282-345 | the invariant, the adjustments and the ledger hold after every run without exits of readers |
| `RwLock.InvExcludes` | src/ipc.c:282-345 | the invariant implies mutual exclusion, and an empty lock before SETVAL |
| `RwLock.ExitKeepsExclusionExactlyWhen` | src/ipc.c:219-345 | from every state that harmless exits can lead to: after an exit, exclusion holds in all exit-free continuations if and only if the exit gives back no token beyond those it frees or that are lost, or leaves fewer than two processes |
| `RwLock.ExcessBreaksExclusion` | src/ipc.c:219-345 | an exit with an excess token and two other processes has a continuation in which everybody finishes and both of them then hold the write lock |
| `RwLock.LockSurvivesHarmlessExits` | src/ipc.c:282-345 | in every run from the created state whose exits, of readers or writers, give back nothing in excess, exclusion holds and nobody is inside before SETVAL |
| `RwLock.ExitKeepsSafeExactlyWhen` | src/ipc.c:219-253 | an exit leaves at most one token, in the semaphore and in hands, if and only if it gives back none in excess |
| `RwLock.WriterExitIsHarmless` | src/ipc.c:335-345 | a process that never read gives back nothing in excess |
| `RwLock.DeficitExitLocksOut` | src/ipc.c:219-345 | after an exit that gives back less than it frees nobody ever holds a lock again, without a further exit |
| `RwLock.ExitKeepsInvExactlyWhen` | src/ipc.c:219-253 | an exit restores the lock completely if and only if what the kernel gives back, stopping at zero, is what leaves with the process |
| `RwLock.WriterExitKeepsInv` | src/ipc.c:335-345 | a process that never read may exit at any point: undo returns exactly the token it holds |
| `RwLock.ReaderExitBreaksExclusion` | src/ipc.c:282-330 | a concrete run in which the first reader exits and a writer enters beside the second reader |
| `RwLock.LeavingNeverBlocks` | src/ipc.c:311-345 | no semaphore call after P(mutex) of an unlock ever blocks |
| `RwLock.SomebodyMoves` | src/ipc.c:282-345 | if any process is in a call, some process is inside a section or can make its semaphore call: the first reader that waits with the mutex held waits only for a writer that needs no mutex |
| `LockedRuns.Program.Serializable` | src/ipc.c:282-345 | for any operations cut into any steps: the finished calls are those of a serial run in the order of the log, each client gets its own results in its own order, and outside write sections the memory is that of the serial run |
| `LockedRuns.Program.ReadersSeeSerialMemory` | src/ipc.c:282-330 | a reader inside its section sees the memory of the serial run |
| `LockedRuns.Program.RealTimeOrder` | src/ipc.c:282-345 | a call that has been answered before another begins precedes it in the serial order |
| `LockedRuns.Program.RunsAreBounded` | src/ipc.c:282-345 | no run is longer than the effort its calls need |
| `LockedRuns.Program.StopsOnlyWhenDone` | src/ipc.c:282-345 | a reachable state without a possible move has answered all calls, has semaphores (1, 0, 1) and the memory of the serial run |
| `LockedRuns.Program.Progress` | src/ipc.c:282-345 | an unfinished reachable state has a possible move |
| `SharedMemory.EveryRunIsSerial` | src/ipc.c:505-839 | every interleaving of all operations returns what atomic operations on a queue, an ordered map, a worker set and counters return at their place in the log, and leaves their data |
| `RunAnswers.StockAnswersOfEveryRun` | src/ipc.c:505-621 | in every concurrent run with symbols that fit, each call on the stock table answers what the map and the list of names say that the calls logged before it leave: entry, index, found, full |
| `RunAnswers.GetReturnsLastUpdate` | src/ipc.c:573-593 | in particular a get returns an entry if and only if some call before it wrote the symbol, finding room, and none removed it since; it is what the last update wrote with that update's time, or blank after an addition alone, and -1 otherwise |
| `RunAnswers.WorkerAnswersOfEveryRun` | src/ipc.c:628-719 | in every concurrent run that registers no registered pid, each call on the worker slots answers what the workers say that the calls logged before it leave |
| `RunAnswers.SilentWorkersAreReported` | src/ipc.c:703-719 | in every such run a dead scan reports a worker that has kept its slot only if its last heartbeat is more than 30 s before the scan's reading, and always then if there is room for all |
| `RunAnswers.QueueAnswersOfEveryRun` | src/ipc.c:726-805 | in every concurrent run each call on the ring answers what the messages say that the calls logged before it leave: the oldest, their number, or that there is none |
| `RunAnswers.SegmentOfEveryRun` | src/ipc.c:505-805 | and whenever nobody writes the segment holds exactly those stocks in that order, those workers and those messages |
| `SharedMemory.EveryRunEndsInOrder` | src/ipc.c:505-839 | a run that can go no further has answered every call, is within the bound, has semaphores (1, 0, 1) and the data of the serial run |
| `SharedMemory.ReadersSeeSoundData` | src/ipc.c:573-593 | a reader sees the data of the serial run: a queue of at most 100, at most 50 stocks with distinct symbols, workers in their slots, total = successful + failed, and, if no live pid was registered, distinct live pids with an exact active count |
| `SharedMemory.OperationKeepsSound` | src/ipc.c:505-839 | every operation with a symbol that fits keeps those invariants of the data |
| `LockedRuns.Program.SerialKeeps` | src/ipc.c:282-345 | for any operations: what every atomic operation keeps holds of the memory of every serial run |
| `SharedMemory.ReplayIsSound` | src/ipc.c:505-839 | so every serial run of operations with symbols that fit keeps the invariants |
| `SharedMemory.AtomicMeans` | src/ipc.c:505-839 | each body run alone does to its part of the segment what the abstract operation does, and touches no other part |
| `SharedMemory.ActiveCountIsExact` | src/ipc.c:628-678 | in runs that never register a live pid, live pids are distinct and active_workers is their number |
| `SharedMemory.InitialiseFinishes` | src/ipc.c:380-410 | the initialisation leaves the empty segment whatever was there |
| `SharedMemory.QueueOfLog` | src/ipc.c:726-805 | the queue of every serial run is the ring of a whole run of sends, receives and clears |
| `SharedMemory.MessagesOfLog` | src/ipc.c:726-805 | what that ring was given is what the send calls of the log sent, what it gave is what the receive calls returned, what it dropped is the oldest message at each send to a full queue, and what was cleared is the queue at each clear |
| `SharedMemory.MessagesOfEveryRun` | src/ipc.c:726-805 | in every concurrent run each message sent has one fate or is still queued, in order of sending: received exactly if a call returned it, dropped exactly if it was the oldest at a send to a full queue, cleared exactly if it was queued at a clear; sent = received + dropped + cleared + queued |
| `SharedMemory.StatisticsOfEveryRun` | src/ipc.c:809-839 | in every concurrent run, whenever nobody writes: each counter is the number of the logged calls it counts, the average is between 0 and any bound on the times, and it is their exact mean if requests and times alternate in the log, with anything else in between, or if no time came in harmfully |
| `SharedMemory.StatsOfLog` | src/ipc.c:809-839 | the counters of every serial run are those of its statistics operations alone |
| `SharedMemory.FreshWorkersAreNeverReported` | src/ipc.c:628-719 | in every concurrent run that never registers a live pid, with a clock that does not go back, a dead scan returns no pid with a heartbeat in the 30 s before its clock reading |
| `SharedMemory.FreshWorkersAreNotReported` | src/ipc.c:628-719 | the same of every serial run |
| `SharedMemory.BeatsAreKept` | src/ipc.c:628-698 | in such runs every live worker's heartbeat is at least every one recorded for its pid |
| `MessageQueue.SentPushes` | src/ipc.c:726-742 | sending on a linked ring appends to the queue, drops the oldest exactly when full, and keeps tail = head + count modulo the capacity |
| `MessageQueue.MessageRing.Send` | src/ipc.c:726-742 | the ring in place holds the pushed queue |
| `MessageQueue.MessageRing.Receive` | src/ipc.c:747-762 | returns the oldest message and removes only it, or reports an empty queue |
| `MessageQueue.MessageRing.Peek` | src/ipc.c:767-779 | returns the oldest message, or reports an empty queue |
| `MessageQueue.MessageRing.Count` | src/ipc.c:784-792 | returns the length of the queue |
| `MessageQueue.MessageRing.Clear` | src/ipc.c:797-805 | leaves the empty queue |
| `MessageQueue.NothingIsLost` | src/ipc.c:726-805 | over any run: the ring is the end of the sent log, received messages are a subsequence of it, and sent = received + dropped + cleared + queued |
| `MessageQueue.PerformAccounts` | src/ipc.c:726-805 | a send drops the oldest message if and only if the ring is full, a receive takes the oldest if there is one, a clear takes all, and every other fate stays as it was |
| `MessageQueue.ClearForgets` | src/ipc.c:797-805 | after a clear the queue is the end of the sent log, and no longer than what was sent since |
| `MessageQueue.BodiesMean` | src/ipc.c:726-805 | the single assignments of a body add up to the queue operation |
| `StockTable.AddKeepsDistinctExactlyWhen` | src/ipc.c:505-536 | adding keeps the symbols distinct if and only if the symbol fits, the table is full, or its cut-off form is not there yet |
| `StockTable.UpdateKeepsDistinct` | src/ipc.c:542-567 | updating keeps the symbols distinct |
| `StockTable.RemoveKeepsDistinct` | src/ipc.c:598-621 | removing keeps the symbols distinct |
| `StockTable.LookupAfterAdd` | src/ipc.c:505-536 | a new symbol that fits is found blank, unless the table is full; no other symbol changes |
| `StockTable.LookupAfterUpdate` | src/ipc.c:542-567 | get after update returns what was written apart from the timestamp; no other symbol changes; a full table is left as it is |
| `StockTable.LookupAfterRemove` | src/ipc.c:598-621 | remove deletes this symbol and no other |
| `StockAnswers.TableIsAMap` | src/ipc.c:505-621 | over any calls with symbols that fit, the table holds the symbols in the order in which they came in, each with the entry of a map of at most fifty |
| `StockAnswers.KnownExactlyWhen` | src/ipc.c:505-621 | a symbol is in that map if and only if some call wrote it, finding room, and none removed it since |
| `StockAnswers.KnownIsLastUpdate` | src/ipc.c:542-567 | its entry is what the last update wrote, with that update's time |
| `StockAnswers.KnownIsBlank` | src/ipc.c:505-536 | or all zeros when it was added and never updated |
| `StockTable.SharedStocks.FindIndex` | src/ipc.c:491-499 | the scan finds the first entry with the symbol |
| `StockTable.SharedStocks.Add` | src/ipc.c:505-536 | the table in place, and the index returned |
| `StockTable.SharedStocks.Update` | src/ipc.c:542-567 | the table in place, and the code returned |
| `StockTable.SharedStocks.Get` | src/ipc.c:573-593 | 0 and the entry if the symbol is there, -1 otherwise |
| `StockTable.SharedStocks.Remove` | src/ipc.c:598-621 | shifting in place deletes one entry and keeps the order of the rest |
| `StockTable.BodiesMean` | src/ipc.c:505-621 | the single assignments of a body add up to the map operation |
| `WorkerTable.RegisterKeepsSettledExactlyWhen` | src/ipc.c:628-656 | registering keeps live pids distinct and the active count exact if and only if the pid is not live |
| `WorkerTable.UnregisterAndHeartbeatKeepSettled` | src/ipc.c:661-698 | unregistering removes the pid and keeps the count exact; a heartbeat keeps both |
| `WorkerTable.DeadExactlyWhenStale` | src/ipc.c:703-719 | a live worker is reported only if it has a positive pid, runs, and its own heartbeat is older than 30 s, and always if so and there is room |
| `WorkerTable.StalePidsAreStale` | src/ipc.c:703-719 | the pids collected from the first slots are those of their stale workers |
| `WorkerTable.DeadFromContinues` | src/ipc.c:703-719 | the scan with an early stop returns the first max_count stale pids in slot order |
| `WorkerAnswers.SlotsAreARoster` | src/ipc.c:628-698 | over any calls that register no registered pid, the slots hold exactly the registered workers, at most twenty, each as its registration and its last heartbeat left it |
| `WorkerAnswers.ScanReports` | src/ipc.c:703-719 | a dead scan reports pids silent for more than 30 s, each once, as many as there is room for, and all if there is room |
| `WorkerAnswers.ReportedExactlyWhenSilent` | src/ipc.c:703-719 | for a worker that has kept its slot and room for all, that is: if and only if its last heartbeat is that old |
| `WorkerTable.SharedWorkers.Register` | src/ipc.c:628-656 | the slots in place: the first slot free or with this pid, with every live slot below the mark; pid 0 only raises the active count |
| `WorkerTable.SharedWorkers.Unregister` | src/ipc.c:661-678 | the slots in place: the scan up to the mark misses no live worker; pid 0 lowers the active count if and only if a slot below the mark is free |
| `WorkerTable.SharedWorkers.Heartbeat` | src/ipc.c:683-698 | the slots in place: only this worker's heartbeat changes, and none for pid 0 |
| `WorkerTable.SharedWorkers.DeadWorkers` | src/ipc.c:703-719 | the scan up to the mark returns the first stale pids of all slots |
| `WorkerTable.BodiesMean` | src/ipc.c:628-719 | the single assignments and tests of a body add up to the operation on the live workers |
| `Statistics.AverageStaysInRange` | src/ipc.c:809-833 | in every sequence of requests, times and alerts the average stays between 0 and any bound on the times, and total = successful + failed |
| `Statistics.AlternatingRunIsMean` | src/ipc.c:809-833 | when requests and times alternate, with alerts anywhere, the average is the exact mean of the times so far |
| `Statistics.OverlapMissesMean` | src/ipc.c:822-833 | with two requests under way, two times of 8 give the average 6 |
| `Statistics.TimeKeepsMeanExactlyWhen` | src/ipc.c:822-833 | a time keeps the average the mean of the times if and only if it is the only one missing, or equals the average |
| `Statistics.AlwaysMeanExactlyWhen` | src/ipc.c:809-833 | the average is the mean of the times at every moment of a run if and only if every time comes in like that |
| `Statistics.CountersCount` | src/ipc.c:809-839 | each counter is the number of the calls it counts: successes, failures, both, alerts |
| `Statistics.SharedStats.CountRequest` | src/ipc.c:809-820 | the counters in place: the total and one of the two outcomes grow |
| `Statistics.SharedStats.UpdateResponseTime` | src/ipc.c:822-833 | the average in place, which stays as it is before the first request |
| `Statistics.SharedStats.CountAlert` | src/ipc.c:835-839 | the alert counter in place |
| `Statistics.BodiesMean` | src/ipc.c:809-839 | the single assignments of a body add up to the counter operation |
| `PriceRing.RingHoldsLatest` | src/ai.c:35-62 | get_price_at(p) is the p-th newest accepted sample, whatever the rotation |
| `PriceRing.FedIsLatest` | src/ai.c:35-46 | the window is the last sixty accepted samples, all of them positive |
| `PriceRing.AddedPushes` | src/ai.c:35-46 | add_price on a ring of any rotation pushes onto the window and drops the oldest when full |
| `PriceRing.SignalsIgnoreUnits` | src/ai.c:173-253 | two rings fed the same stream, one multiplied by a positive constant, agree on momentum, crossover, RSI and prediction after every push |
| `PriceRing.PriceHistory.AddPrice` | src/ai.c:35-46 | the ring in place, held samples stay positive |
| `PriceRing.PriceHistory.GetPriceAt` | src/ai.c:52-62 | the sample at a position of the window, or -1 outside it |
| `PriceRing.PriceHistory.CalculateMovingAverage` | src/ai.c:75-92 | depends on the window alone; the guard on negative samples never fires |
| `PriceRing.PriceHistory.CalculateEma` | src/ai.c:102-126 | depends on the window alone |
| `PriceRing.PriceHistory.CalculateVariance` | src/ai.c:136-163 | the square of the volatility, from the window alone |
| `PriceRing.PriceHistory.CalculateMomentum` | src/ai.c:173-189 | depends on the window alone |
| `PriceRing.PriceHistory.CalculateRsi` | src/ai.c:200-228 | the loop's gains and losses are those of the window |
| `PriceRing.PriceHistory.DetectMaCrossover` | src/ai.c:236-253 | depends on the window alone |
| `PriceRing.PriceHistory.PredictDirection` | src/ai.c:426-447 | depends on the window alone |
| `Indicators.AverageBetween` | src/ai.c:75-92 | the mean lies between any bounds on the samples |
| `Indicators.VarianceIsMeanOfSquares` | src/ai.c:136-163 | volatility squared is the mean of squares minus the square of the mean |
| `Indicators.VarianceZeroExactlyWhenFlat` | src/ai.c:136-163 | it is zero if and only if all held samples are equal |
| `Indicators.VarianceAtMostQuarterRange` | src/ai.c:136-163 | it is at most a quarter of the squared range |
| `Indicators.EmaIsWeightedMean` | src/ai.c:102-126 | the EMA is a weighted sum with nonnegative weights that add up to 1, so it stays between minimum and maximum |
| `Indicators.GainsMinusLosses` | src/ai.c:200-228 | gains minus losses telescope to the newest sample minus the one `periods` back |
| `Indicators.RsiSign` | src/ai.c:200-228 | RSI lies in [0, 100], and exceeds 50 if and only if that difference is positive or the window is flat |
| `Indicators.SignalsScale` | src/ai.c:173-253 | momentum, crossover, RSI and prediction of a scaled window are those of the window |
| `IndicatorLaws.AverageIsMean` | src/ai.c:75-92 | the moving average times its periods is the total of the newest samples; -1 without enough of them |
| `IndicatorLaws.EmaRecurrence` | src/ai.c:102-126 | the EMA starts from the mean of the newest samples, and each later sample counts twice in periods + 1 |
| `IndicatorLaws.VarianceIsOfTotals` | src/ai.c:136-163 | the variance times n squared is n times the total of the squares minus the square of the total |
| `IndicatorLaws.MomentumIsChange` | src/ai.c:173-189 | momentum is the change over five samples in percent of the older one, 0 with fewer than six |
| `IndicatorLaws.RsiIsShare` | src/ai.c:200-228 | RSI is 50 plus half of the net rise in percent of all moves of the window, 100 when nothing moves, 50 without enough samples |
| `IndicatorLaws.CrossoverPoints` | src/ai.c:236-253 | with at least ten samples and s5, s10 the totals of the newest five and ten: 1 if and only if 400 s5 > 201 s10, -1 if and only if 400 s5 < 199 s10, otherwise 0; 0 with fewer samples |
| `IndicatorLaws.PredictionIsVote` | src/ai.c:426-447 | the prediction is up or down when two of momentum, trend and reversed RSI outweigh the rest, each stated in samples and totals |
| `HistoryFile.PersistenceIsAMap` | src/history.c:75-115 | over any interleaving of samples, saves, loads and restarts of any symbols: every ring is the one its stream of samples feeds, where a load or restart goes back to the stream of the last save, and the saved rings are a map of at most fifty symbols that a 51st leaves unchanged |
| `HistoryFile.ReloadsAreInvisible` | src/history.c:75-115 | so when at most fifty symbols are saved and nothing unsaved is reloaded, every ring is the one of a program that never stopped |
| `HistoryFile.LoadReturnsSavedExactlyWhen` | src/history.c:75-115 | a saved ring is loaded back if and only if the symbol has at most 15 characters and has or finds a slot |
| `HistoryFile.SaveKeepsOthers` | src/history.c:90-115 | a save touches no other symbol and keeps symbols distinct |
| `HistoryFile.SaveStamps` | src/history.c:108-111 | the saved entry carries the time of the save, every other one stays as it was |
| `HistoryFile.Histories.Load` | src/history.c:75-88 | the saved ring, or what the caller had |
| `HistoryFile.Histories.Save` | src/history.c:90-115 | the table in place; a 51st symbol changes nothing |
| `JsonText.ExtractGives` | src/ai_insights.c:84-111 | for every string content, every text it stands for character by character, every output size and every document in which the key comes no earlier: the extractor gives that text, cut off at the size |
| `JsonText.ExtractIsStandardExactlyWhen` | src/ai_insights.c:93-104 | the text extracted from valid content is the one section 7 of RFC 8259 gives if and only if the content has no escape of a backspace, a form feed or a code unit |
| `JsonText.EscapeThenExtract` | src/ai_insights.c:25-111 | so for every source and all buffer sizes, extracting the escaped source gives the source with control characters other than newline, return and tab as spaces, cut off where a buffer was full |
| `JsonText.RoundTrip` | src/ai_insights.c:25-111 | the same inside any document in which the key does not come earlier |
| `JsonText.WholeSourceFitsExactlyWhen` | src/ai_insights.c:25-39 | nothing is cut off if and only if seven bytes are left before the last character |
| `JsonText.EscapeAllIsValid` | src/ai_insights.c:25-39 | the output is valid string content: no escape is ever cut in half |
| `JsonText.EscapedHidesPattern` | src/ai_insights.c:84-111 | escaped text never contains the key the extractor looks for |
| `JsonText.JsonEscape` | src/ai_insights.c:25-39 | the buffer holds the escapes of the characters that fit, terminated inside the buffer |
| `JsonText.ExtractTextField` | src/ai_insights.c:84-111 | -1 if and only if the key occurs nowhere, otherwise the decoded value, terminated inside the output |
| `WordWrap.PrintWrappedText` | src/ai_insights.c:42-80 | the loop prints every paragraph arranged greedily, indented by two spaces |
| `KeptText.WrappingKeepsText` | src/ai_insights.c:42-80 | the output has the visible characters of the text, next to each other exactly where they were in the text, with all its line breaks, and adds only single line breaks where characters were apart, and one at the end if there was none |
| `WordWrap.WrappingKeepsWords` | src/ai_insights.c:42-80 | the output has the words of the input, in order |
| `WordWrap.PrintedLinesFit` | src/ai_insights.c:42-80 | every printed line is empty, or an indent of two spaces and then at most `width` characters or a single word |
| `WordWrap.JoinWidth` | src/ai_insights.c:64-77 | the column counter is the number of characters printed after the indent |
| `WordWrap.GreedyIsArrangement` | src/ai_insights.c:42-80 | the lines of a paragraph hold its words in order, and each fits the width or is a single word |
| `WordWrap.GreedyStaysAhead` | src/ai_insights.c:42-80 | on every prefix the greedy lines are fewer, or as many with no longer last line, than in any other arrangement |
| `WordWrap.GreedyIsOptimal` | src/ai_insights.c:42-80 | no admissible arrangement of a paragraph uses fewer lines |
| `WatchMode.WatchingTogetherIsWatchingAlone` | src/monitor.c:520-593 | after any refreshes, exits, pauses and keys, where the child of each slot is asked for the pid in it: the slots are the processes still there, in their first order, each with the snapshot and history it would have alone |
| `WatchMode.EachHistoryIsItsOwn` | src/monitor.c:520-593 | each slot holds the pid of one of the first processes, whose reports were all valid; every percentage in it compares two neighbouring reports of that process, and its history is the ring of those percentages |
| `WatchMode.EveryProcessHasItsSlot` | src/monitor.c:524-537 | every process whose reports were all valid has a slot with its pid, and slots keep the first order |
| `WatchMode.SnapshotIsOfItsPid` | src/monitor.c:249-282 | when children report on the pid they were asked for, the snapshot kept in a slot is of the pid in that slot |
| `WatchMode.RefreshIsEveryoneAlone` | src/monitor.c:520-593 | one refresh of the slots, each asked for its own pid, is one refresh of everybody, keeping the living |
| `WatchMode.RunWatchMode` | src/monitor.c:484-645 | the arrays in place hold those slots, and the controls those of the keys and overlays, after every event up to the first that divides by zero: the insight key, pressed while insights are shown and no process is left |
| `WatchMode.Watch.CollectParallel` | src/monitor.c:249-282 | slot i of curr gets what the child of slot i reports on the pid in slot i, compared with slot i of prev; a failed read only clears the flag |
| `WatchMode.Watch.Compact` | src/monitor.c:524-537 | compaction in place keeps the survivors of all arrays aligned and in order, and pushes each percentage onto its own history |
| `WatchMode.Watch.Refresh` | src/monitor.c:520-593 | a whole refresh leaves exactly the survivors in the slots |
| `WatchMode.Watch.HandleKeypress` | src/monitor.c:124-167 | keys change the controls and may permute curr, but never pids, snapshots kept for the next refresh, or histories; the result says whether a division by zero was reached |
| `WatchMode.KeyMovesControls` | src/monitor.c:129-163 | s goes through the four orders, + and - move the interval within 1 and 30, i opens the insights at the first process and then goes round, a asks for the overlay |
| `WatchMode.SortAndInterval` | src/monitor.c:129-145 | after any run the order is the number of handled s keys modulo 4, and the interval is within 1 and 30 if it was at the start |
| `CpuUsage.PercentagesAddUp` | src/proc.c:202-233 | the CPU nanoseconds implied by n successive percentages never exceed the true total and fall short by less than n |
| `CpuUsage.StepError` | src/proc.c:202-233 | one percentage falls short of the true CPU time by less than a nanosecond |
| `CpuUsage.PercentMeans` | src/proc.c:202-233 | the percentage of the wall-clock time is the CPU time rounded down to a nanosecond |
| `CpuUsage.ComputedMeans` | src/proc.c:202-233 | without two valid samples in order the percentage is 0; otherwise the ticks it started from are kept; all else stays |
| `CpuUsage.Snapshot.ComputeCpuPercent` | src/proc.c:202-233 | the current snapshot in place, for every clock and tick value including wrap-around; the clamp at 0 never fires |

## Left out

- RwLock.LockIsSafe: exits of processes that have used the read lock are excluded, because exclusion can fail there; `RwLock.ReaderExitBreaksExclusion` shows a run, `RwLock.ExitKeepsExclusionExactlyWhen` the exact condition, and `RwLock.LockSurvivesHarmlessExits` the runs that meet it.
- LockedRuns.Program.Serializable: process exits are not part of these runs, because a writer that dies in its body leaves the shared data half written, whatever the lock does.
- RwLock.SomebodyMoves: says that some process can move, not that a given one will; the lock lets readers starve a writer.
- Semaphore calls that fail for a reason other than an interruption, and the rollbacks for them, are not modelled; an interrupted wait is retried and so is a step that has not happened.
- CpuUsage.PercentagesAddUp: assumes increasing clocks, nondecreasing ticks and no wrap of the 64-bit product, outside which the sum means nothing; `CpuUsage.Computed` itself models the wrap.
- PriceRing.PriceHistory.CalculateVariance: returns the square of what calculate_volatility returns; the square root is not modelled.
- Floating-point rounding, infinities and NaN: prices, averages and percentages are real numbers.
- WorkerTable.BodiesMean: pids other than 0 only, because the code marks a free slot with pid 0; what the operations do with pid 0 is in the contracts of `WorkerTable.SharedWorkers`.
- HistoryFile.PersistenceIsAMap: symbols of at most 15 characters; a longer symbol is never loaded back, as `HistoryFile.LoadReturnsSavedExactlyWhen` says.
- HistoryFile.ReloadsAreInvisible: nothing unsaved is reloaded and at most fifty symbols are saved; what happens otherwise is `HistoryFile.PersistenceIsAMap`.
- WatchMode.RunWatchMode: quits, pauses and the AI overlay are events in any order, so the length of the refresh interval, how many keys are read between two refreshes, and when the loop gets to the overlay are arbitrary; what the overlay prints is not modelled.
- The order `qsort` produces: any permutation of the displayed snapshots is allowed.
- Counters of requests, alerts and workers are unbounded integers; their 32-bit overflow is not modelled.
- Copying one struct (`memcpy`) or clearing one (`memset`) is a single step of a body, and so is one read of a field.
- The segment before initialisation may hold anything except indices outside their arrays: `shmget` fills a new segment with zeros. The magic number, version and ready flag that no operation reads are left out.
- `sem_trywait` and the removal of segment and semaphores, which no operation modelled here calls.
- `run_top_mode`, `run_list_mode`, table rendering, sparklines, colours, the terminal, the FIFO stream, the daemon, alerts, log rotation, the command line and configuration: user interface, I/O or flat dispatch.
- Kernel calls (`sysctl`, `proc_pidinfo`, `mmap`, `fork`, `pipe`), the `curl` call, and the contents of prompts.
- `analyze_stock`'s texts, `str_trim`, number formatting and the selection sorts in `src/ai_insights.c`, which would only add easy members.
- JsonText: characters are bytes; a surrogate pair or other multi-byte text passes through unexamined.
