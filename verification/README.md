# ClusteredPoller: a verified model

ClusteredPoller is a small multi-threaded daemon that polls SNMP counters and stores their growth in
MySQL. This project models its logic in Dafny and proves what the daemon relies on. Run
`dafny verify dfyconfig.toml` to check everything.

The model has five parts.

**Polling rounds** (`Rounds`, `Monitor`, `Cltime`). Poller threads wait on a condition, count
themselves into `active_threads`, take hosts from a shared cursor until it is exhausted, and count
themselves out. The monitor starts a round when the counter is zero and the clock has reached the next
start. `Rounds` is a transition system of any number of pollers, the monitor and the signal handlers.
The monitor's check, its reset and its second check are separate steps. What the 250 ms sleeps are for
is an explicit guard, `Allowed`: unless a stop is requested, the monitor reads the counter only when no
woken poller has yet to count itself in; a last lemma shows by a concrete run that without the guard two
pollers can hold one host. `Monitor` and `Cltime` are the schedule: starts, alignment, and what is
carried over a reload.

**The insert queue** (`Clbuf`, `Ownership`). `Clbuf` is the circular buffer without a count field,
refined to a bounded queue. `Ownership` is a transition system of any number of pollers and database
threads around it, in which the check before a push or pop is a step of its own; its queue is proved to
be that buffer, and an insert to be queued or freed by what its poller's check and push found.

**The sample pipeline** (`Rate`, `Targets`, `Clinsert`, `Poller`, `History`, `Ledger`, `Clgstr`, `Decimal`,
`Sql`, `Database`, `EndToEnd`, `Daemon`, `Traffic`, `Miscount`). Readings become wrap-aware differences and
rates, pass the speed check, are clustered into one insert per table, queued, and written as SQL text by
appends to a growing buffer. `Sql` holds a decoder of that text. `History` follows one row, counter or gauge,
through any number of polls, `Ledger` a counter through polls, failures and reloads.
`EndToEnd` joins clustering, ownership and the decoder into one equation from the samples accepted to
the rows in the text MySQL takes. `Daemon` puts rounds, queue, caches and statistics together: each
poller takes the host it holds through `get_clinserts` and `process_queries` before it lets go of it,
and the results are about every moment of every run and about whole rounds. `Traffic` keeps the books of
`Ledger` on what such a run does to one row: its true growth, from the first successful get on, is at every
moment what its rows in the executed text, the filtered, freed and refused ones, what is under way and what
was discarded add up to. `Miscount` has two runs in which the statistics go wrong.

**The target files** (`Scan`, `NewStyle`, `Document`, `OldStyle`, `OldDocument`, `Reload`). `NewStyle` is
the nested keyword reader with duplicate suppression, `Document` the files it is meant for and the proof that
reading one gives back what was written. `OldStyle` is the tab-separated reader with its
current-host shortcut, `OldDocument` the same for its files. `Reload` joins the readers with the cache
copy and with the poller.

**That it gets done** (`Liveness`). Bounds on the steps of a round, of a stop and of the inserts under way;
how the steps are scheduled is left open.

Objects the daemon updates in place are classes (`Clbuf`, `Clgstr`, `Clinsert`, `QueryRow`, `QueryHost`,
`RtgTargets`, `Statistics`, `Connection`, `Stream`), and its loops are methods proved against functions
on values; the lemmas are about those functions. What the code shares with other threads or asks of the
outside world (SNMP answers, MySQL's verdicts, clock readings, scheduling) is an arbitrary sequence of
answers, observations or steps.

Where the code departs from what it promises, the exact condition is proved:

- The commit interval holds below 2^32 successful statements per drain. Past that the 32-bit counter
  wraps: up to 195 statements wait at a loop head, and if it ends at zero 96 are left uncommitted
  (`Database.UncommittedBound`, `Database.ReturnCommitsExactly`, `Database.PromisesCanBreak`).
- The speed check bounds the growth exactly while growth per second is below 2^32 or below the limit
  (`Rate.SpeedCheckIsExact`); `Rate.SpeedCheckCanBeFooled` gives an input beyond it.
- A reload keeps a row's cache exactly if the row is the one a lookup by host name and OID finds; with a
  host named twice it can lose even a row that is unique (`Targets.SurvivorKeepsCache`,
  `Targets.RepeatedHostLosesCache`).
- The statistics at the end of a round are those of that round if and only if it found the counters at zero
  when it started (`Daemon.RoundIsCounted`). It did, unless the round before had not been ended or it is the
  first after a reload, which keeps the counts of failed and successful gets (src/main.c:225-236). Each of
  the two can happen: `Miscount.OverrunIsMiscounted`, `Miscount.LeftoverIsMiscounted`.
- An old-style file reads as it was written when its lines fit the buffer
  (`OldDocument.ReadsWhatWasWritten`); what a longer one is read as is stated for all lines
  (`OldDocument.LinesRoundTrip`), and the end of a long comment can be read as a target
  (`OldDocument.LongCommentIsRead`).
- The check that there is a value to compare with is made on the counter: a reading other than zero is not
  inserted when the last one was zero or there was none, for a gauge as well (`History.GaugeInserts`,
  `History.CounterInserts`).
- A 32-bit row's difference is the residue modulo 2^32 exactly when the two readings are at most one
  wrap apart (`Rate.DiffIsResidue`).
- The `currvalue` column is printed with `%u`: it is right exactly below 2^32 (`Database.RowSaysItsValue`).
- A clock that goes back between two polls makes the rate zero or one, whatever the traffic
  (`Rate.ClockBackHidesRate`).
- The next start is at most one interval away exactly when the clock is not before the epoch, or is
  aligned (`Cltime.NextStartIsAligned`).

## Model

| member | source | states |
|---|---|---|
| Rounds.NoHostHeldTwice | src/rtgtargets.c:377-390 | in every run of any number of pollers and the monitor, stops included, a host held by one poller is held by no other, lies below the cursor and has not yet been processed in this round |
| Rounds.HandedOutInOrder | src/rtgtargets.c:377-390 | the hosts handed out since the last reset are the first `next_host` hosts, each once and in order |
| Rounds.CounterIsExact | src/poller.c:60-86 | in every run, whether or not the sleeps do their work, `active_threads` is the number of pollers past their increment and not past the matching decrement, including those stopped in between, so the decrement guarded only by the thread's own round count never underflows |
| Rounds.RunInv | src/monitor.c:39-60 | the invariant behind these holds in every reachable state, also between the monitor's check and its reset |
| Rounds.RoundIsComplete | src/poller.c:50-55 | without a stop, once a poller has left its host loop, a zero counter implies that the cursor is at the end and every host was processed exactly once in the round |
| Rounds.EndOfRoundIsComplete | src/monitor.c:54-59 | when the monitor ends a round that woke a poller, every host was processed exactly once |
| Rounds.SleepAssumptionIsNeeded | src/monitor.c:36-52 | without the assumption the sleeps stand for, a run exists in which two pollers hold the same host |
| Liveness.RoundIsBounded | src/poller.c:46-86 | in every run, stops included: between two wake-ups the pollers take at most as many steps as is left of the round, never more than 3 for each host and 6 for each poller |
| Liveness.AnyoneMayMove | src/main.c:314-333 | a stop may be requested at any time, and a thread that neither waits nor has left can always take its next step |
| Liveness.StopIsBounded | src/poller.c:46-86 | after a stop request pollers and monitor take at most 4 steps each, whatever else happens |
| Liveness.StoppedThreadsLeave | src/main.c:314-333 | when no thread can move after a stop, the monitor and all pollers but those waiting have left, and a broadcast leaves nobody waiting |
| Liveness.NobodyLeavesUnasked | src/poller.c:46-55 | no thread leaves before a stop is requested |
| Liveness.StartsWhenIdleAndDue | src/monitor.c:42-48 | the monitor starts a round only if its last check found no thread active and the clock past the next start |
| Liveness.IdleAndDueStarts | src/monitor.c:68-83 | and then it does: the cursor goes back to the first host and every waiting poller wakes |
| Cltime.NextStartIsAligned | src/cltime.c:20-23 | the next start is a multiple of the interval and later than now for any clock reading; it is at most one interval away exactly for readings not before the epoch or already aligned |
| Cltime.NextStartLeavesSlot | src/cltime.c:20-23 | a reading that has reached the next start lies in a later aligned slot |
| Monitor.StartsAreSpaced | src/monitor.c:39-63 | over any run of the loop, whatever the clock does, no start comes before its time, no two starts share an aligned slot, and the next start follows the last |
| Monitor.IdleSlotGetsRound | src/monitor.c:42-48 | over a whole life of runs with reloads between, under a clock that does not go back, every slot at or after the first start's time in which the monitor finds the threads idle has a round |
| Monitor.ScheduleIs | src/monitor.c:42-48 | over a whole life of runs, whatever the clock does: a pass starts a round exactly if it finds the threads idle and the clock has reached the first start and the next start after every start before it |
| Monitor.RoundsAre | src/monitor.c:39-60 | the same for one run, and a pass ends a round exactly if it is the first to find the threads idle at its end since the last start (one at clock zero apart) |
| Monitor.ReloadsAreInvisible | src/main.c:225-256 | since the next start is carried over, a life of many runs with reloads between has the schedule of one long run |
| Monitor.OneRoundPerSlot | src/main.c:225-256 | at most one round starts in each aligned interval slot, reloads included |
| Monitor.RoundsEndOnce | src/monitor.c:54-59 | no round ends twice or before it starts, the one taken to be running is the last to have started, and an idle check leaves none running |
| Monitor.MonitorRun | src/monitor.c:22-66 | the loop's starts, ends and next start are those of its passes over the observations, the round number counts the starts, and the first end resets every other counter |
| Monitor.Scheduler.RunThreads | src/main.c:225-256 | one run continues the schedule from the saved next start and saves the new one |
| Monitor.ReloadLoop | src/main.c:163-199 | over the whole reload loop the starts are those of one run, one per slot at most |
| Clbuf.EmptyOrFull | src/clbuf.c:108-119 | at equal indices the null test tells an empty from a full buffer, and the index difference is the length otherwise |
| Clbuf.Clbuf.constructor | src/clbuf.c:23-40 | a new buffer stands for the empty queue |
| Clbuf.Clbuf.Push | src/clbuf.c:48-72 | a push appends the pointer and returns it; it returns null and changes nothing exactly when the pointer is null or the queue is full |
| Clbuf.Clbuf.Pop | src/clbuf.c:74-99 | a pop removes and returns the oldest entry, or returns null exactly when the queue is empty |
| Clbuf.Clbuf.CountUsed | src/clbuf.c:101-124 | the used count is the queue's length in all four index cases |
| Clbuf.Clbuf.CountFree | src/clbuf.c:126-135 | the free count is the capacity less the length |
| Clbuf.RunOps | src/clbuf.c:48-99 | any sequence of operations answers and ends as a bounded first-in first-out queue does |
| Clbuf.DeliveredInOrder | src/clbuf.c:48-99 | over any run what was delivered, followed by what is queued, is what was queued at first followed by what was accepted |
| Ownership.RunConserves | src/poller.c:113-124 | for any interleaving and any measure of inserts, the pollers' lists, the queue, the database threads' hands and what was freed together weigh what has been built |
| Ownership.ExactlyOnePlace | src/poller.c:113-124 | every insert built is at every moment in exactly one of these places |
| Ownership.PoppedIsPrefix | src/database.c:92-107 | what was popped, followed by what is queued, is what was pushed; the queue never exceeds its capacity although check and push are separate steps |
| Ownership.QueueIsBuffer | src/clbuf.c:48-99 | in every run the queue, what was pushed and what was popped are those of the circular buffer under the operations of the threads, in the order they made them |
| Ownership.QueuedIfRoom | src/poller.c:115-122 | in every run a poller's insert is queued, as the last, if the queue held fewer entries than its capacity both at the poller's last check and at its push, and freed otherwise |
| Ownership.FreedOnlyWhenFull | src/poller.c:115-122 | every insert freed by a poller met a queue of exactly its capacity, at its check or at its push |
| Ownership.QueuedOnlyWithRoom | src/poller.c:115-122 | every insert queued met fewer at both |
| Ownership.PopsIfUsed | src/database.c:92-94 | a database thread goes on to pop exactly if its check finds an entry |
| Ownership.TakesOldest | src/database.c:93-94 | the pop hands it the oldest entry, or nothing if the queue has been emptied since |
| Ownership.VerdictsAreKept | src/database.c:98-102 | in every run the inserts done with and those refused are, in order, those MySQL took and those it refused |
| Ownership.AnyAnswerAnyVerdict | src/database.c:98-102 | a statement may be taken or refused at any time, and a poller with nothing left may meet any answers |
| Liveness.SomeoneCanGoOn | src/poller.c:113-124 | while an insert is in a list, the queue or a hand, some thread can take a step towards rest, whatever the capacity, so none gets stuck |
| Liveness.CanComeToRest | src/database.c:92-107 | from any state the threads can bring every insert to its place in a bounded number of steps |
| Rate.CalculateRate | src/poller.c:141-165 | the word arithmetic computes the difference and rate of two readings, truncation and conversions included; for a gauge both are the reading, the rate modulo 2^32, whatever the one before |
| Rate.DiffIsTrueGrowth | src/poller.c:153-161 | the difference of two readings of a 32- or 64-bit counter is its true growth when that is below the modulus, wrap or no wrap |
| Rate.DiffIsResidue | src/poller.c:153-161 | for arbitrary readings: always the residue modulo 2^64 for 64 bits, and modulo 2^32 for 32 bits exactly when they are at most one wrap apart |
| Rate.RateBounds | src/poller.c:163 | while the quotient is below 2^32, rate × dt ≤ diff < (rate + 1) × dt |
| Rate.SpeedCheckIsExact | src/poller.c:197 | for every limit, a sample that passes grew by less than speed × dt exactly when the quotient is below 2^32 or below the limit; for limits up to 2^32, exactly when it is below 2^32 |
| Rate.SpeedCheckCanBeFooled | src/poller.c:163-197 | a 64-bit counter growing by 2^32 in a second passes a limit of 1 |
| Rate.AcceptedTrafficIsBounded | src/rtgtargets.c:234-240 | a sample that passes within one interval grew by less than the configured limit |
| Rate.ClockBackHidesRate | src/poller.c:163 | when the clock has gone back the rate is zero, or one if the difference reaches the divisor |
| Targets.RtgTargets.Next | src/rtgtargets.c:377-385 | hands out the host at the cursor and moves it on, or null at the end |
| Targets.HandOutAll | src/poller.c:50-52 | after a reset, a poller alone is handed all hosts in order |
| Targets.RtgTargets.AddHost | src/rtgtargets.c:69-78 | pushing a host appends its subtree and adds its rows to `ntargets`, which stays the sum of row counts |
| Targets.FindRow | src/rtgtargets.c:403-412 | finds the first row with the OID, or null exactly if there is none |
| Targets.RtgTargets.FindHost | src/rtgtargets.c:392-401 | finds the first host with the name, or null exactly if there is none |
| Targets.CopyCache | src/rtgtargets.c:414-431 | every destination row ends as the pointwise meaning says: the cache of the last source row with its host name and OID if it is the first such row of the first such host, otherwise unchanged |
| Targets.LastCacheIsLast | src/rtgtargets.c:421-427 | the cache that counts is that of an entry no later one for the same row follows |
| Targets.CopyReproduces | src/rtgtargets.c:414-431 | copying between duplicate-free trees of the same shape reproduces every cache |
| Targets.SurvivorKeepsCache | src/rtgtargets.c:414-431 | whatever else the reload changes and whatever other rows repeat, the last source row with its host name and OID hands its cache to a destination row of that name and OID if and only if that is the row a lookup finds, the first of the first such host (or it has that cache already) |
| Targets.RepeatedHostLosesCache | src/rtgtargets.c:392-431 | a host named twice: a row whose host name and OID occur once on both sides loses its cache |
| Targets.UnmatchedRowUnchanged | src/rtgtargets.c:418-427 | a row no source row matches is left as it was |
| Clinsert.GroupIsStable | src/clinsert.c:49-60 | clustering yields pairwise distinct tables in order of first use, each with exactly its samples in order |
| Clinsert.GroupingIsUnique | src/clinsert.c:49-60 | that description determines the inserts |
| Clinsert.GroupKeepsSum | src/clinsert.c:33-60 | clustering neither loses nor invents samples: any measure adds up to the same before and after |
| Clinsert.GroupFits | src/clinsert.c:57 | a host whose rows name at most so many tables never needs more inserts |
| Clinsert.Clinsert.PushValue | src/clinsert.c:33-47 | the value becomes the last one through any growth of the array, and the table and other values stay |
| Clinsert.ForTable | src/clinsert.c:49-60 | returns the insert of the table, opened as the last one only if there is none, and disturbs no other |
| Clinsert.PushSample | src/poller.c:198-199 | finding the insert and pushing into it is one step of the group-by on the whole list |
| Clinsert.Count | src/clinsert.c:62-67 | counts the non-null prefix of a list that is not full |
| Poller.PollRow | src/poller.c:188-215 | one row: its sample, if any, and its refreshed cache; a failed get leaves the cache alone |
| Poller.PollAllRows | src/poller.c:179-220 | the loop leaves rows, inserts and counts as a pass over the rows up to the stopping point does, through every update in place |
| Poller.GetClinserts | src/poller.c:167-232 | the inserts of a round of a host are those of the pass, and the statistics grow by the number of its polled rows whose get failed and of those whose get succeeded |
| Poller.StopsAtLimit | src/poller.c:216-219 | polling stops exactly at the first row up to which as many gets have failed as the limit says |
| Poller.FailuresAreCounted | src/poller.c:208-215 | the errors counted among the first rows are the gets that failed, and the rest are those that succeeded |
| Poller.NotGivenUp | src/poller.c:216-219 | a host is not given up within answers of which none failed |
| Poller.PollCountsGets | src/poller.c:208-219 | what a poll counts as failed and as succeeded are the failed and the successful gets of its polled rows |
| Poller.PassRefreshes | src/poller.c:208-215 | exactly the polled rows with an answer are refreshed |
| Poller.PassGroups | src/poller.c:197-199 | the inserts are the group-by of the samples in row order |
| Poller.ClusteringIsStableGroupBy | src/poller.c:183-210 | the inserts of a host are the stable group-by of its accepted samples, with nothing lost or invented |
| Poller.NoInsertRepeatsAnId | src/poller.c:197-199 | rows with distinct (table, id) never yield an insert with two values of the same id |
| Poller.QueueInsert | src/poller.c:115-116 | whatever other threads do to the queue before the check and between check and push, an insert is queued, as the last, exactly if there was room at both |
| Poller.QueueAll | src/poller.c:113-124 | whatever other threads do before and within every insert, each insert is queued or freed as there was room for it, the freed ones come back in order, and exactly the queued ones and their values are counted |
| Poller.QueuedAndFreedAreAll | src/poller.c:113-124 | queued and freed inserts are together the whole list, and as many are queued as are counted |
| Poller.QueuedValuesAreAll | src/poller.c:117-121 | the values counted are those in the inserts queued |
| Poller.AloneItQueuesWhatFits | src/poller.c:113-124 | a poller alone at the queue queues the inserts that fit and frees the rest |
| Poller.ProcessQueries | src/poller.c:100-139 | the same with the statistics: the inserts queued and their values are added modulo 2^32, the queue depth keeps its maximum, and the dropped count never moves |
| History.CacheIsLastReading | src/poller.c:208-209 | after any polls the cache of a row is its last successful reading with its time |
| History.GaugeInserts | src/poller.c:188-206 | over any polls of a gauge: exactly which readings are inserted, each with itself as counter, rate and current value and with its own time |
| History.CounterInserts | src/poller.c:188-206 | over any polls of a 32- or 64-bit counter: exactly which readings are inserted, each as the difference to the last successful one modulo the width, per second of the time between, with its own time and value |
| History.NothingToCompareWith | src/poller.c:188-206 | a failed get inserts nothing, nor does a first reading that is not a gauge at zero |
| Ledger.DifferencesTelescope | src/poller.c:188-215 | over any run of polls, failures and reloads of a 32- or 64-bit row growing by less than its modulus between successes, from any books that balance, inserted plus discarded differences are true final minus true first value |
| Ledger.DiscardedOnlyForCause | src/poller.c:193-206 | a poll's growth is discarded exactly when the speed check or the zero-previous-value check says so, and recorded in full otherwise |
| Ledger.ReloadIsAStep | src/main.c:187-191 | a reload carries a row's cache over as the ledger assumes if and only if its new place is the one a lookup finds (or has that cache anyway) |
| Clgstr.Clgstr.Append | src/clgstr.c:35-50 | appending is concatenation, however often the buffer moves, and the text stays terminated |
| Clgstr.Clgstr.String | src/clgstr.c:52-55 | reading up to the terminator gives the whole text |
| Clgstr.Clgstr.Length | src/clgstr.c:57-60 | the length is that of the text |
| Decimal.NumberRoundTrip | src/database.c:189 | a printed number is read back from in front of anything that is not a digit |
| Decimal.BufferSuffices | src/database.c:168-169 | every 64-bit number fits the 32-byte buffer |
| Sql.RowRoundTrip | src/database.c:185-217 | a row's text is read back as the row, whatever follows it |
| Sql.RowsRoundTrip | src/database.c:180-220 | the rows are read back in order, separators included |
| Sql.ColumnsDiffer | src/database.c:173-178 | the end of the header tells the four column lists apart |
| Sql.DecodeQuery | src/database.c:163-229 | a decoder recovers from the statement its table, whatever its name, its columns and exactly the values the zero filter keeps, in order; the statement is null exactly when none is kept |
| Sql.StatementHasRows | src/database.c:180-229 | the rows decoded are, field by field and in order, those of exactly the values with a rate other than zero, or of all values if zero is allowed; the statement is null exactly if there are no values or zero is not allowed and every rate is zero |
| Sql.OneRowText | src/database.c:163-229 | the text of a statement of one row, letter by letter, for every configuration |
| Database.BuildInsertQuery | src/database.c:163-229 | the appends write exactly that statement |
| Database.EqualQueriesEqualRows | src/database.c:163-229 | equal statements come from the same table and the same kept rows |
| Database.RowSaysItsValue | src/database.c:210-215 | a row says exactly what its value says if and only if the current value is below 2^32 |
| Database.ProcessDatabaseQueue | src/database.c:88-121 | for every pattern of failures, empty statements and pops that find nothing, the statements executed are the successes in order, the result counts them modulo 2^32, and the uncommitted ones are as stated |
| Database.SuccessesAre | src/database.c:96-102 | the successes are, in order, the statements of exactly the turns that have one which MySQL takes |
| Database.DrainTurn | src/database.c:92-113 | one pass of the loop keeps executed, committed and counted statements in step |
| Database.UncommittedBound | src/database.c:109-112 | fewer than 100 successes are uncommitted at a loop head exactly unless the counter has wrapped and stands at 4 to 99 |
| Database.ReturnCommitsExactly | src/database.c:115-118 | nothing is left uncommitted on return exactly unless there were successes and the counter wrapped to zero; then 96 are |
| Database.DrainKeepsPromises | src/database.c:88-121 | below 2^32 successes: fewer than 100 uncommitted at every loop head, none on return, and the result is their number |
| Database.PromisesCanBreak | src/database.c:109-118 | drains of 2^32 + 4 and 2^32 successes: 100 uncommitted at a loop head, and 96 left on return |
| EndToEnd.MadeIsAccepted | src/poller.c:183-210 | in every interleaving the places together hold what was built, and that is what get_clinserts accepted from the rows and answers of the hosts polled |
| EndToEnd.StatementsShow | src/database.c:180-220 | reading the text of all statements gives, for any measure of table rows, what the inserts hold unfiltered |
| EndToEnd.EveryRowIsAccountedFor | src/database.c:92-107 | in every interleaving, at every moment and for any measure of table rows: the samples get_clinserts accepted weigh what is under way in a list, the queue or a hand, plus the rows in the text of the statements taken, plus those the zero filter left out, plus those in inserts freed for lack of space, plus those in inserts recorded as refused |
| EndToEnd.AtRestAllIsSettled | src/database.c:92-107 | once nothing is under way, the same without that part |
| Daemon.RunInv | src/poller.c:28-139 | in every run of pollers, monitor, signal handlers, queue and database threads together: who holds a host, who has polled it, what the hosts reported, the caches, the books of the queue and the counters agree |
| Daemon.EveryHostReports | src/poller.c:88-98 | when the monitor ends a round that woke a poller, without a stop, every host has been polled exactly once, from the caches the round found, and has the caches that poll left |
| Daemon.RoundIsAccountedFor | src/poller.c:88-98 | at every moment of every run and for any measure of table rows: what was under way when the round began plus the samples get_clinserts accepted over its hosts so far is what is under way now plus what was executed as text, filtered, freed or refused since |
| Daemon.RestedRoundIsSettled | src/poller.c:88-98 | at the end of a round this is about all hosts, each polled once, and with the queue at rest all of it is settled |
| Daemon.RoundIsCounted | src/monitor.c:85-113 | the statistics that the end of a round reports are, modulo 2^32 and counter by counter, what the round found plus the values and inserts queued in it and the failed and successful gets of all hosts; they are the round's own if and only if it found zero; unless the round before had not been ended, it found zero or what an earlier run of the threads left, and that only of gets; they are zero afterwards |
| Daemon.ReportsCountGets | src/poller.c:208-229 | what each host of the round adds there are the numbers of its polled rows whose get failed and succeeded |
| Daemon.HolderCanGoOn | src/poller.c:88-98 | a poller that holds a host can always take its next step, whatever the host answers |
| Miscount.OverrunIsMiscounted | src/monitor.c:42-59 | a run in which a round starts before the finished one before it was ended, and ends with two failed gets reported where one failed |
| Miscount.LeftoverIsMiscounted | src/main.c:225-236 | a run in which the first round after a reload reports the failed gets the threads before had left, too |
| Traffic.RunIsBooked | src/poller.c:188-215 | over any run of the daemon in which the answers for one row are those of a growing counter and no other row shares its table and id, the ledger kept on the polls of its host follows its cache, and what it counts as inserted is what the accepted samples carry under its key |
| Traffic.TrafficIsAccountedFor | src/poller.c:88-98 | in such a run, at every moment: the row's true growth since its first successful get is the sum of the counters under its key that are under way, in the text of the statements taken, filtered out, freed and refused, and of what the speed check and the zero-previous-value check discarded |
| Scan.Word | src/rtgtargets.c:90 | reading a word always consumes input, so the readers end |
| Scan.WordRoundTrip | src/rtgtargets.c:90 | a written word is read back up to the next white space, or as far as the buffer holds |
| Scan.IntRoundTrip | src/rtgtargets.c:228 | a written number is read back up to the next other character |
| Scan.SignedRoundTrip | src/rtgtargets.c:136 | so is one with a sign |
| Scan.NoNumber | src/rtgtargets.c:228 | without a digit there is no number, and only white space and a sign are consumed |
| Scan.UnsignedKeepsLowBits | src/rtgtargets.c:228-236 | a number within 64 bits, negated or not, keeps its low bits; any other becomes the largest word |
| Scan.IntKeepsLowBits | src/rtgtargets.c:136 | a number that fits a long keeps its low 32 bits as a signed int; a larger one becomes -1, a smaller one 0 |
| Scan.SpaceIs | src/rtgtargets.c:90 | white space is the space, tab, newline, vertical tab, form feed and carriage return |
| Scan.CommentSkipped | src/rtgtargets.c:93-98 | a comment of any length is passed over together with its line |
| Scan.TokenIs | src/rtgtargets.c:249-268 | however the letters of a keyword are spelled, in capitals or not, its token is the keyword, also with a semicolon after it |
| Scan.ToLower | src/rtgtargets.c:249-256 | every character of the string is lowered in place |
| NewStyle.ReadRow | src/rtgtargets.c:209-247 | reads the row that the text spells out, and stops behind its brace |
| NewStyle.CheckForDuplicate | src/rtgtargets.c:282-297 | true exactly if a row of the host has the same OID, or the same table and the same id |
| NewStyle.TargetJoins | src/rtgtargets.c:137-147 | a target joins its host as the last row unless one of the host's rows has its OID, or its table and its id; then the host stays as it is |
| NewStyle.LongValueIsCut | src/rtgtargets.c:133 | a value takes at most 128 characters; the rest of a longer word is read next |
| NewStyle.NoNumberNoChange | src/rtgtargets.c:228-236 | a keyword without a number leaves its field as it was, but a speed becomes what its variable happens to hold |
| NewStyle.NumbersAreCut | src/rtgtargets.c:228-236 | a number out of range keeps its low bits, unless it does not fit 64 bits; a version keeps them as a signed int |
| NewStyle.EndOfFile | src/rtgtargets.c:100-103 | at the end of the file a value is what the buffer holds, up to a semicolon, and a host is called "host" |
| NewStyle.ReadHost | src/rtgtargets.c:113-154 | reads the host that the text spells out, with separate row objects, and stops behind its brace |
| NewStyle.ReadNewStyleTargets | src/rtgtargets.c:80-111 | builds the tree that the text spells out from new, separate objects, with `ntargets` the sum of row counts |
| NewStyle.HostsHaveNoDuplicates | src/rtgtargets.c:137-147 | whatever the file says, no host has two rows with the same OID or the same table and id |
| Document.RowRoundTrip | src/rtgtargets.c:209-247 | a written row block is read back, with keywords in capitals or not, any white space after keywords, semicolons and braces, and any comments and meaningless words between its items |
| Document.HostRoundTrip | src/rtgtargets.c:113-154 | a written host block is read back, its rows less the duplicates |
| Document.ReadsWhatWasWritten | src/rtgtargets.c:80-154 | reading any written document gives back exactly its hosts, each with its rows less the duplicates |
| Document.DocumentedRow | src/rtgtargets.c:227-240 | a row with one bits before one speed, one table and one id says exactly that, in whatever order and with whatever between; its speed is the limit for a gauge, and for a counter the limit per second of the interval, rounded down |
| Document.LastItemHolds | src/rtgtargets.c:227-240 | of each kind of item the last holds, and a limit is spread over the interval exactly if the bits said before it are not zero |
| Document.UnsaidIsDefault | src/rtgtargets.c:179-190 | what a row does not say is zero, or no table |
| Document.LastHostItemHolds | src/rtgtargets.c:132-136 | of communities and versions of a host the last holds |
| Document.UnsaidHostDefault | src/rtgtargets.c:156-165 | without one there is no community, and version zero |
| Document.KeptRows | src/rtgtargets.c:137-147 | of the target blocks of a host, in order, exactly those rows are dropped that share OID, or table and id, with one kept before |
| Document.NothingSuppressed | src/rtgtargets.c:144-147 | a host whose target blocks have pairwise distinct OIDs and pairwise distinct pairs of table and id keeps all their rows in order |
| Document.ParsedAsWritten | src/rtgtargets.c:58-67 | a document with a host is parsed as written, never in the old style |
| OldStyle.HostFor | src/rtgtargets.c:333-360 | the current-host shortcut finds the host a full first-match search finds, or opens one as the last |
| OldStyle.GatheredIsGathering | src/rtgtargets.c:311-371 | host names are pairwise distinct in order of first mention; each host has the community of its first line, version 2, and the rows of exactly the valid lines naming it, in file order |
| OldStyle.EveryLineCounts | src/rtgtargets.c:355-369 | the row counts add up to the number of valid lines |
| OldStyle.ParseLine | src/rtgtargets.c:312-331 | the fields of a line as tabs, comments and conversions give them |
| OldStyle.FieldNumbers | src/rtgtargets.c:325-331 | a numeric field is read with its sign up to the next other character, and is zero without a digit |
| OldStyle.ReadOldStyleTargets | src/rtgtargets.c:299-375 | builds the gathered tree from new, separate objects, with `ntargets` the sum of row counts although hosts are pushed while empty |
| OldDocument.LinesRoundTrip | src/rtgtargets.c:311-331 | in a file of lines of any length, the last with or without a newline, the lines found are those of the pieces the buffer cuts each written line into, whether it ends at the id or goes on with a description, a comment or anything else that does not continue the number, and whatever comment lines and empty lines there are |
| OldDocument.ShortLineIsSaid | src/rtgtargets.c:311-331 | a line that fits the buffer is one piece and says what was written |
| OldDocument.LongCommentIsRead | src/rtgtargets.c:311-331 | any valid target line at the end of a comment just long enough is read as a target |
| OldDocument.ReadsWhatWasWritten | src/rtgtargets.c:299-375 | reading a file of lines that fit the buffer gives back what was written, grouped by host |
| OldDocument.ParsedAsWritten | src/rtgtargets.c:58-67 | such a file is parsed as written unless one of its words is "host" |
| OldStyle.Parse | src/rtgtargets.c:58-67 | builds the tree of the style the file is in |
| OldStyle.OldStyleWithoutHost | src/rtgtargets.c:58-67 | a file is read in the old style exactly if none of its tokens is "host" |
| Reload.ReadTargets | src/main.c:180-191 | the targets of a reload are the parsed tree with the caches of the old one copied in |
| Reload.NoIdTwice | src/rtgtargets.c:282-297 | no insert built from a host of a new-style file ever holds two values with the same id, in any round |
| Reload.UnchangedFileKeepsCaches | src/main.c:187-191 | reading an unchanged new-style file with distinct host names again loses no cache |

## Left out

- MySQL and SNMP themselves: their answers are arbitrary sequences; only a session that opened is
  modelled, because a null session is freed as well (src/poller.c:224).
- Fairness: `Liveness` bounds the number of steps but not when they are taken. The wait has no predicate
  loop (src/poller.c:74), so a stop can be missed by a poller about to wait until the next broadcast, and
  inserts still queued when the queue is freed (src/main.c:254) are not drained.
- Spurious wake-ups, and runs in which, with no stop requested, a woken poller has not counted itself in
  when the monitor looks: excluded by the guard `Rounds.Allowed`, as the sleeps intend.
- Each poller's own round counter is a natural number; its wrap after 2^32 rounds is not modelled.
- The dropped-queries statistic: computed after a loop that always runs to the end, it is always zero
  (src/poller.c:113-127); that queued plus freed is the whole list is proved instead.
- The queue depth and the round number in `Daemon`.
- Poller.QueueAll: takes the number of values before the push; the code reads it from the insert
  afterwards (src/poller.c:120), when a database thread may have freed it.
- The lists in `Ownership` are not limited to 64 inserts, and a step that finishes an insert without rows
  may be recorded as either outcome.
- Edge inputs the code does not survive or guard: queue capacity 0, interval 0, two polls of a counter
  in the same second (the program exits), rows without a table, and 64 or more tables per host, where
  `clinsert_count` reads past its array.
- NewStyle.CheckForDuplicate: compares missing tables as equal, where the code would dereference a null
  pointer.
- NewStyle.ReadRow: numbers out of range convert as glibc converts them; values of uninitialised
  variables after a failed conversion are parameters.
- OldStyle.ParseLine: the speed constant is a parameter, since its conversion to unsigned is out of
  range (src/rtgtargets.c:367).
- Document.ReadsWhatWasWritten: values shorter than the buffer by one, so that the semicolon is read with
  them; items in the order keyword, value, semicolon.
- Traffic.TrafficIsAccountedFor: within one run of the threads, for a row whose table and id no other row of
  any host has; the text tells rows apart by nothing else, and what is queued at a reload is dropped.
- OldDocument.ReadsWhatWasWritten: lines of up to 254 characters; longer ones are cut by the reader.
- Files with NUL characters.
- Times are natural numbers without a width; a time difference is converted to an unsigned word as the
  division does.
- The growth of the host and row arrays: they are sequences here, as the same growth is modelled in
  `Clinsert.Clinsert.PushValue`. Capacities grow by 3/2 in integers.
- The statistics in floating point of the end of a round, logging, daemonizing, signals beyond setting
  the stop flag, options, `rtgconf` parsing, thread creation and allocation failure.
- `print_database_queue`, the drain without a database, which adds nothing to `process_database_queue`.
