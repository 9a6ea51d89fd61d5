# Dara, proved

Dara is a record/replay model checker for Go programs. This project models seven of its parts in
Dafny and proves what each of them is for. Every file is one module; `dafny verify dfyconfig.toml`
checks them all; `Basics` has what they share.

**The key-value service** (`KvService`, `KvProtocol`, `KvClients`, `KvAgreement`, `KvLib`). A
replica holds every Get and Put until `check_stability` says that no request with an earlier stamp
can still arrive. `KvService` has the tables and the lock sections of the handlers as a class.
`KvProtocol` interleaves the lock sections of all handlers in any order and keeps the history of a
run; its method `Perform` runs the lock section of each event on the class. Requests are then
applied in total order, with at most one between acceptance and clearing, if and only if no request
arrives too late: before something already applied or accepted (`Timely`,
`OrderedExactlyWhenTimely`). `KvClients` says from the events alone what the client table holds and
which requests `check_stability` accepts: a client that has disconnected holds up nobody.
`KvAgreement` compares runs of different replicas, which never talk to each other, under the same
guard; that the store is what the log produces needs no guard. The predicate `ClientsBehave` says
what is assumed of the clients in every run: known ids, one outstanding request per client, stamps
from 1 up and not reused, only clock updates after a disconnect. `KvLib` proves that the client
library issues such stamps. If there are no more clients than the replicas were told and the
messages of one client arrive in nondecreasing clock order, the guard is met (`InOrderIsTimely`).
The program does not see to that: `Put` visits the replicas one after another while the clock update
runs, and `OvertakenPut` is a run in which a replica applies two puts in the wrong order.

**The coverage instrumenter** (`GoSyntax`, `SourcePositions`, `GoSemantics`, `BasicBlocks`,
`Instrumenter`, `InstrumentedMeaning`, `CounterAdequacy`, `InstrumenterFile`, `RecordedBlocks`,
`BlocksDisjoint`, `TerminatingStatements`, `TerminatingRuns`). A statement language with loops,
labels, switches, panics and function literals gets a semantics with fuel. `Instrumenter` says where
counters go; the class in `InstrumenterFile` does it with the loops and the block list of the
program and is proved against it. The instrumented tree then means the same as the original one, and
still meets the rules of The Go Programming Language Specification, sections "Terminating
statements" and "Fallthrough statements"; so control still never runs off the end of a function that
ends in a terminating statement. Function literals in the header of an if, or of a switch without
clauses, are not walked. The counter of every segment outside of them is reported once per entry,
and those inside are never counted (`CountersAreExact`, `ExactWhenWalked`);
`HeaderLiteralIsNotCounted` is such a program. Each recorded block is exactly the source of its
statements (`BlocksOfList`), and the start of every statement of a list lies in one block of the
list. Over a whole function body no two blocks share source, as the program wants it, if and only if
no literal that is walked stands in the guard of a clause, or in the guard of a type switch whose
init statement holds none (`BlocksAreDisjoint`); `GuardLiteralOverlaps` and `TypeLiteralOverlaps` are programs
where source is counted twice.

**The ShiViz converter** (`ShiViz`, `ShiVizSchedule`). The replay of a schedule into vector clocks:
the lines satisfy the strong clock condition exactly when no change of process lands back on the
routine taken to be running. `ShiVizSchedule` says from the schedule alone who is running before
each event, which lines are written and when the converter panics; and the vectors of two events are
ordered exactly as the events happen before each other, on every schedule that is converted.

**The explorer** (`Printing`, `Actions`, `Search`, `Fingerprint`, `ExplorerRules`, `ExplorerChoice`,
`Explorer`). The schedules it has visited are strings, and so are the states it has counted. Both
can be read back: schedules always, states if no block id contains a comma. So the visited strings
are the trie of schedules tried, the k-th run has at most k times the depth bound actions, and the
state counter is exact. The class `Explorer` keeps these facts, the dominance of the total coverage
over the current one, and the rule for initialised processes as its invariant; `GetNextAction` is
proved to schedule only what may run, and what the strategy chooses among it. `ExplorerChoice` says
what that comes down to: what the estimates leave in the tables, and when they improve on the score.

**Virtual clock and coverage scores** (`Sums`, `VirtualClock`, `TimerRuns`, `PeriodicTimers`,
`Coverage`). The clock is a class proved against a specification of one call. Runs of calls lose no
timer, and return timers earliest first as long as no addition wraps; `WrappedTimerComesLate` is a
run with a wrap in which a timer due at 100 comes before one due at 4. `IsSleeping` is exact all
along a run if and only if the clock never moves to a time between the ends of two sleeps of one
goroutine, and `OverlappingSleeps` is a run in which it does. Periodic timers keep time. Scores are
exact rationals, and what an action adds to them is known exactly for new blocks and for single
known ones.

**The recording scheduler** (`RoundRobin`, `RecordLoop`, `Recorder`, `RecordedContext`). The choice
of the next process is fair. The record loop is a machine of atomic steps against runtimes that may
do anything with a lock in hand: at most one of them is ever free, and no event is lost. One write
of the scheduler comes after the lock has been released, and `CommandOverwritesReport` is a run in
which it overwrites what a runtime has just reported. Extracted batches make schedules from which
the property-check context can be rebuilt, and the explorer's first statistics conserve their
counts.

**The local dining philosophers** (`Philosophers`). A ring of any size from two: neighbours never
eat together, no return of a chopstick blocks, and from every state everybody can still eat.

## Model

| member | source | states |
|---|---|---|
| KvService.ByteCounterIsExact | structured/rsm/kvservicemain.go:106-138 | the byte counter of the stability check cannot be fooled by wrapping: it equals the number of clients exactly when the table has that many entries |
| KvService.KeyValService.CheckStability | structured/rsm/kvservicemain.go:106-138 | the counting loop with early returns decides stability: all clients known and none blocking, in whatever order the map is traversed |
| KvService.KeyValService.UpdateAddClientClock | structured/rsm/kvservicemain.go:82-90 | the clock of a known client is replaced, an unknown client is added alive without a request |
| KvService.KeyValService.AddClientRequestInfo | structured/rsm/kvservicemain.go:92-97 | the pending request of a known client is set, nothing else changes |
| KvService.KeyValService.DeleteClientRequestInfo | structured/rsm/kvservicemain.go:99-104 | the pending request of a known client is cleared, nothing else changes |
| KvService.KeyValService.BeginRequest | structured/rsm/kvservicemain.go:161-164 | first lock section of Get and Put: clock and pending request are recorded together |
| KvService.KeyValService.ApplyGet | structured/rsm/kvservicemain.go:166-173 | a missing key reads as the empty string; the store is unchanged |
| KvService.KeyValService.ApplyPut | structured/rsm/kvservicemain.go:191-197 | the store after a put |
| KvService.KeyValService.EndRequest | structured/rsm/kvservicemain.go:198-200 | last lock section of Get and Put |
| KvService.KeyValService.ClockUpdate | structured/rsm/kvservicemain.go:206-215 | the client table after a clock update |
| KvService.KeyValService.Disconnect | structured/rsm/kvservicemain.go:218-230 | a known client is marked as dead, nothing else changes; what that does to a run is KvClients.LeftBlocksNobody |
| KvProtocol.Perform | structured/rsm/kvservicemain.go:82-230 | each lock section, run on the class, does to the client table and the store what the event does in the interleaving, and replies what the log records |
| KvProtocol.StepKeepsOrder | structured/rsm/kvservicemain.go:82-230 | every lock section of every handler that is no late arrival keeps the order: closed stamps, sorted log, one critical request |
| KvProtocol.AcceptedIsLeast | structured/rsm/kvservicemain.go:119-130 | a request that passes the stability check comes before every other pending one, ties included |
| KvProtocol.TotalOrder | structured/rsm/kvservicemain.go:140-203 | on every run in which no request arrives too late, at every moment, requests have been applied in strictly increasing (clock, client id) order, and at most one is between acceptance and clearing |
| KvProtocol.OrderedExactlyWhenTimely | structured/rsm/kvservicemain.go:140-203 | a run that ends with everything applied, whatever the order of delivery, was in order and exclusive at every moment if and only if no request arrived too late |
| KvProtocol.InOrderIsTimely | structured/rsm/kvservicemain.go:106-138 | with at most numClients clients, no request arrives too late when the messages of each client arrive in nondecreasing clock order |
| KvProtocol.AcceptancePersists | structured/rsm/kvservicemain.go:106-154 | on every run with in-order delivery, an accepted request stays acceptable until it is cleared |
| KvClients.TableMatchesEvents | structured/rsm/kvservicemain.go:82-230 | at every moment of every run the table holds exactly the clients that have sent a message; those are alive that have not disconnected since, with the clock of their latest message and the clock of their pending request |
| KvClients.LeftBlocksNobody | structured/rsm/kvservicemain.go:111-114 | a client that was known when it disconnected blocks no request from then on |
| KvClients.StableExactly | structured/rsm/kvservicemain.go:106-138 | from the events alone: a pending request passes the check exactly if all expected clients have been heard of and each other one has left, or has sent a later clock and has no earlier request pending |
| KvClients.PollAcceptsExactly | structured/rsm/kvservicemain.go:140-155 | so a waiting request is accepted by a poll exactly then |
| KvClients.LeastPendingAccepted | structured/rsm/kvservicemain.go:106-138 | on every run, whatever the order of delivery, when all expected clients have been heard of and each that has not disconnected has sent a clock past the least pending stamp, exactly that request is accepted |
| KvAgreement.LogClosedUnderEarlier | structured/rsm/kvservicemain.go:140-203 | if no request arrives too late, at every moment the log already holds every request of the whole run, also later arrivals, that precedes one of its entries |
| KvAgreement.PutLogIsPrefixOfListing | structured/rsm/kvservicemain.go:182-203 | if no request arrives too late, at every moment the put log is a prefix of the sorted listing of all puts the replica ever receives |
| KvAgreement.ReplicasAgree | structured/rsm/kvservicemain.go:140-203 | at any moments of the runs of two replicas at which no request arrives too late, one put log is a prefix of the other, if the puts applied at one are eventually delivered to the other |
| KvAgreement.StoreIsReplay | structured/rsm/kvservicemain.go:191-197 | on every run, whatever the order of delivery, the store of a replica is what its put log produces |
| KvAgreement.EqualLengthEqualStores | structured/rsm/kvservicemain.go:140-203 | two such replicas that have applied equally many puts hold equal stores |
| KvAgreement.RepliesFromStore | structured/rsm/kvservicemain.go:157-203 | on every run, whatever the order of delivery, every reply is the answer of the store built by the earlier log entries |
| KvAgreement.GetReadsLastPut | structured/rsm/kvservicemain.go:157-179 | if no request arrives too late, a Get returns the last put on its key with a smaller stamp among all puts that ever arrive |
| KvAgreement.OvertakenPut | structured/rsm/kvlib/kvlib.go:65-113 | a concrete run in which a put arrives too late applies two puts in the wrong order and accepts both at once |
| KvLib.KVService.Get | structured/rsm/kvlib/kvlib.go:49-63 | a Get bumps the clock once, asks replicas until one answers, and fails exactly when there are replicas and all fail |
| KvLib.KVService.Put | structured/rsm/kvlib/kvlib.go:65-83 | a Put bumps the clock once, and fails exactly when every replica fails, also when there is none |
| KvLib.KVService.Bump | structured/rsm/kvlib/kvlib.go:85-105 | disconnecting and clock updates bump the clock |
| KvLib.IssuedStampsIncrease | structured/rsm/kvlib/kvlib.go:49-113 | as long as the clock does not wrap, the requests of one client carry strictly increasing clocks |
| KvLib.FreshClientStamps | structured/rsm/kvlib/kvlib.go:115-127 | a fresh client's stamps start from 1 and are never reused, as the replicas assume |
| KvLib.Work | structured/rsm/kvlib/kvlib.go:49-113 | the requests that the calls of a client send out are the ones those results speak of |
| Instrumenter.BlockLength | instrumenter/instrumenter.go:284-293 | a basic block ends at the first statement that ends one, or with the list |
| Instrumenter.InstrKeepsShape | instrumenter/instrumenter.go:46-115 | walking a statement changes neither its position and boundary nor whether it ends a basic block |
| Instrumenter.WeaveCommutes | instrumenter/instrumenter.go:46-115 | counters can be placed before or after the statements themselves are walked |
| BasicBlocks.GoesOnExactly | instrumenter/instrumenter.go:397-431 | a basic block goes on after plain and return statements without function literals, labelled or not, and after no others |
| BasicBlocks.BlockRunsThrough | instrumenter/instrumenter.go:262-271 | every run executes the statements of a basic block one right after the other, unless one of them returns or panics |
| RecordedBlocks.BlocksOfList | instrumenter/instrumenter.go:272-308 | the recorded blocks of a list are those of its basic blocks: from the opening position or the first statement to the boundary of the last one, or to the closing brace when nothing breaks the list up, with the number of statements; none when there is no source |
| RecordedBlocks.UnbrokenBlock | instrumenter/instrumenter.go:272-296 | a list in braces that nothing breaks up has one block, up to just past the closing brace, and so has an empty list |
| RecordedBlocks.StartInOneBlock | instrumenter/instrumenter.go:272-308 | the start of each statement of a list lies in exactly one recorded block of the list, that of a bare block in none |
| RecordedBlocks.BoundaryIsFirstLiteral | instrumenter/instrumenter.go:326-392 | a statement stops at the first function literal of its header, or where its body opens or it ends |
| BlocksDisjoint.BlocksAreDisjoint | instrumenter/instrumenter.go:326-331 | no two blocks recorded for a function body share source, if and only if no walked literal stands in the guard of a clause, or in the guard of a type switch whose init statement holds none |
| BlocksDisjoint.GuardLiteralOverlaps | instrumenter/instrumenter.go:51-57 | a program with a literal in the guard of a clause records overlapping blocks |
| BlocksDisjoint.TypeLiteralOverlaps | instrumenter/instrumenter.go:376-381 | so does one with a literal in the guard of a type switch |
| InstrumentedMeaning.InstrumentationPreservesMeaning | instrumenter/instrumenter.go:46-115 | for every environment, fuel and start, the instrumented statement has the same outcome and, with reports erased, the same trace |
| InstrumentedMeaning.InstrumentedBodyPreservesMeaning | instrumenter/instrumenter.go:272-308 | the same for a function body with its counters |
| CounterAdequacy.ReportsPairWithEntries | instrumenter/instrumenter.go:272-308 | in every run, for every segment outside the literals that the walk misses, each report is followed at once by the segment it stands for, and each segment preceded by its report |
| CounterAdequacy.CountersAreExact | instrumenter/instrumenter.go:272-308 | the counter of a segment outside those literals is reported exactly as often as the original program enters its first statement; a segment that the walk does not reach is never reported |
| CounterAdequacy.ExactWhenWalked | instrumenter/instrumenter.go:46-115 | so a segment is counted right if and only if it is outside those literals or the run never enters it |
| CounterAdequacy.HeaderLiteralIsNotCounted | instrumenter/instrumenter.go:67-97 | a function literal in the header of an if is not reached by the walk, and runs once without being counted |
| InstrumenterFile.File.NewCounter | instrumenter/instrumenter.go:241-258 | a new counter is recorded as a block of the file |
| InstrumenterFile.File.AddCounters | instrumenter/instrumenter.go:272-308 | the splitting loop yields the specified list and records exactly its counters, in order |
| InstrumenterFile.File.FirstBlock | instrumenter/instrumenter.go:282-296 | the inner loop finds the end of the first basic block and where it stops in the source; which source that is, is RecordedBlocks.BlocksOfList |
| InstrumenterFile.File.Visit | instrumenter/instrumenter.go:46-115 | the walk yields the specified tree, and records exactly the counters it holds |
| InstrumenterFile.File.VisitSwitch | instrumenter/instrumenter.go:48-65 | the same for switch and select, counters going into the clauses |
| InstrumenterFile.File.VisitElseIf | instrumenter/instrumenter.go:84-90 | the same for the hidden block of an else-if |
| TerminatingStatements.WeaveKeepsLast | instrumenter/instrumenter.go:297-304 | counters never take the last place of a list |
| TerminatingStatements.InstrKeepsTerminating | instrumenter/instrumenter.go:46-115 | instrumenting neither makes nor breaks a terminating statement |
| TerminatingStatements.BodyKeepsEnd | instrumenter/instrumenter.go:272-308 | a function body ends in a terminating statement, or a clause in fallthrough, exactly when the original does |
| TerminatingStatements.InstrKeepsBreaks | instrumenter/instrumenter.go:46-115 | the breaks that refer to an enclosing statement stay the same |
| TerminatingRuns.NeverRunsOff | instrumenter/instrumenter.go:297-304 | no run gets past the end of a list that ends in a terminating statement |
| TerminatingRuns.InstrumentedNeverRunsOff | instrumenter/instrumenter.go:297-304 | nor past the end of the instrumented body of a function that ends in one |
| ShiViz.ParseSchedule | tools/shiviz_converter.go:46-141 | the conversion loop writes the lines of the replay, and panics exactly when the replay does |
| ShiViz.BuiltIsCausal | tools/shiviz_converter.go:57-140 | the clock of a line counts, for every routine, its lines in the causal past |
| ShiViz.BuiltIsStrong | tools/shiviz_converter.go:57-140 | lines built by the clock rule satisfy the strong clock condition in both directions |
| ShiViz.StrongClockCondition | tools/shiviz_converter.go:46-141 | vectors are ordered exactly as the lines reach each other, if and only if no change of process lands back on the running routine |
| ShiViz.OwnEntryCountsLines | tools/shiviz_converter.go:65-140 | the k-th line of a routine carries k as its own entry |
| ShiViz.OneProcessNeverSelfSwitches | tools/shiviz_converter.go:68-68 | with one process the condition always holds |
| ShiViz.StartingWithMainNeverPanics | tools/shiviz_converter.go:46-71 | a schedule that starts with routine 1:1 is converted to the end |
| ShiVizSchedule.RunningIsLastNonThread | tools/shiviz_converter.go:137-139 | the routine running is that of the last event that is not a thread event, or 1:1 |
| ShiVizSchedule.LinesOfSchedule | tools/shiviz_converter.go:65-140 | each event gets one line of its own routine, and before it a switching line of the running one exactly for a schedule event of another routine or a change of process; nothing else is written |
| ShiVizSchedule.PanicsExactly | tools/shiviz_converter.go:68-71 | the converter panics exactly when an event switches away from a routine that no event up to it belongs to |
| ShiVizSchedule.EventVectorsAreExact | tools/shiviz_converter.go:46-141 | on every converted schedule, with or without self-switches, the vectors of two events are ordered exactly if the one happens before the other: through later events of a routine, and through switches |
| ShiVizSchedule.SelfSwitchesInSchedule | tools/shiviz_converter.go:68-71 | whether there is a self-switch can be read off the schedule |
| Printing.DigitsRoundTrip | explorer/explorer.go:84-93 | printed numbers can be read back, in base ten and sixteen |
| Printing.JoinInjective | explorer/explorer.go:471-490 | parts without commas can be told apart after joining |
| Actions.KeyStringInjective | explorer/explorer.go:84-93 | different goroutines and timers have different strings |
| Actions.SchedulesDecodable | explorer/explorer.go:390-421 | no two schedules are written as the same string |
| Search.StepKeepsInv | explorer/explorer.go:180-194 | issuing an action below the bound and restarting keep the trie, the depth and the bound on all runs |
| Search.VisitedExactly | explorer/explorer.go:390-421 | the visited schedules are exactly those that a run has begun with |
| Search.DepthMeansNew | explorer/explorer.go:390-421 | the depth is positive exactly when no earlier run began like this one |
| Search.RunLengthBound | explorer/explorer.go:504-514 | the k-th run issues at most k times the depth bound actions, and then must restart |
| Search.BoundIsReached | explorer/explorer.go:504-514 | the bound cannot be improved: for every k some exploration has a k-th run of exactly that length |
| Fingerprint.PrintState | explorer/explorer.go:471-490 | the printing loops yield the fingerprint of the tables in order |
| Fingerprint.SortedOneWay | explorer/explorer.go:479-482 | any sorted list of the keys of a map without duplicates is the sorted listing of its keys: the order of traversal does not matter |
| Fingerprint.CollectKeys | explorer/explorer.go:477-481 | the loop collects every key once, in any order of traversal |
| Fingerprint.PrintProcState | explorer/explorer.go:475-487 | collecting, sorting and printing yields the same string whatever the order of traversal |
| Fingerprint.FingerprintExact | explorer/explorer.go:471-490 | if no block id contains a comma, fingerprints are equal exactly when the tables of all processes are |
| Fingerprint.CommasCollide | explorer/explorer.go:483-487 | with a comma in a block id, different tables can share a fingerprint |
| ExplorerRules.CreditedKeepsDominance | explorer/explorer.go:249-317 | the estimates written into the total table keep it above the current one, also after those for some goroutines are written there |
| ExplorerRules.CountIsExact | explorer/explorer.go:490-494 | without commas there are as many recorded states as different tables seen |
| ExplorerRules.IssueKeepsMainFirst | explorer/explorer.go:348-373 | in every run the first goroutine scheduled on a process is goroutine 1, and the initialised processes are those scheduled on |
| ExplorerChoice.CreditedCounts | explorer/explorer.go:252-275 | the estimates stay: each count of a table grows by what the listed goroutines of its process are expected to cover |
| ExplorerChoice.UniqueImprovesExactly | explorer/explorer.go:252-275 | under UNIQUE the estimates improve on the score if and only if some goroutine is expected to reach a block that no process has covered |
| ExplorerChoice.FrequencyImprovesOnNewBlocks | explorer/explorer.go:252-275 | under FREQUENCY they improve only then |
| ExplorerChoice.NewBlocksFirst | explorer/explorer.go:252-275 | under every objective they improve when the first goroutine is expected to reach new blocks only |
| ExplorerChoice.LeftOutExactly | explorer/explorer.go:288-293 | the second pass leaves out exactly the goroutines with which an earlier run went on from here |
| ExplorerChoice.MayRunByHistory | explorer/explorer.go:348-373 | what may run, by what the run has scheduled: runnable, awake and not blocked on a process in use, and only goroutine 1 on another |
| Explorer.Explorer.constructor | explorer/explorer.go:553-574 | a mounted explorer satisfies the invariant |
| Explorer.Explorer.RestartExploration | explorer/explorer.go:180-194 | a restart ends the run, keeps the invariant, empties the current coverage and records the state count |
| Explorer.Explorer.UpdateActionCoverage | explorer/explorer.go:460-496 | coverage is added to the action and to both tables of the process, the state is counted once, the invariant holds |
| Explorer.WithStatsSays | explorer/explorer.go:443-458 | of the executed action alone, each block is known to have been covered more often: by what it has covered now |
| Explorer.AfterActionSays | explorer/explorer.go:465-470 | in the table of its process alone, each count has grown by what the action has covered |
| Explorer.Explorer.GetNextCoverageThread | explorer/explorer.go:249-317 | which candidate is returned: the last one if an estimate beats the total score, else one without statistics, else the last one if an estimate beats the score of the run, else any; every estimate stays in its table, and the total table still dominates |
| Explorer.CompareTotals | explorer/explorer.go:252-277 | the first pass improves exactly if some estimate beats the score; it leaves every estimate in the total table, and lists exactly the goroutines without statistics |
| Explorer.ComparePaths | explorer/explorer.go:284-311 | the same for the second pass, over the goroutines that lead to no visited schedule |
| Explorer.Explorer.GetNextPossibleThreads | explorer/explorer.go:348-373 | the candidates are exactly the goroutines that may be scheduled with the clocks as they are, in the order in which they are listed |
| Explorer.Explorer.GetNextThread | explorer/explorer.go:376-396 | the goroutine that the strategy chooses is added to the schedule, keeping the trie; under a coverage strategy the total table has received every estimate, at random the tables are unchanged |
| Explorer.Explorer.ChooseThread | explorer/explorer.go:378-389 | each strategy makes the choice of GetNextCoverageThread by its own objective, in every case; the random one leaves the tables alone |
| Explorer.NoWaitingEvents | explorer/explorer.go:399-407 | true exactly when no clock has a waiting event |
| Explorer.Explorer.GetNextTimer | explorer/explorer.go:409-422 | a fired timer is added to the schedule; without one the explorer is unchanged |
| Explorer.Explorer.GetAnyTimer | explorer/explorer.go:520-534 | after clocks that only woke goroutines, the candidates are those of the clocks as they stand |
| Explorer.Explorer.GetNextAction | explorer/explorer.go:504-543 | a restart exactly at the depth bound or when nothing is left; a scheduled goroutine is what the strategy chooses among those that may run with the clocks as they stand, and leaves the tables as the strategy does; the current action is its string; the invariant holds after every action |
| Explorer.Explorer.RunsWithinBound | explorer/explorer.go:504-543 | in every state of the explorer all runs are within their bound |
| Explorer.Explorer.StatesCountedExactly | explorer/explorer.go:490-494 | the counter is the number of different tables seen, and the results never fall |
| VirtualClock.VirtualClock.AddTimerEvent | explorer/vclock.go:106-112 | the event is queued relative to the tick, wrapping; a sleep marks its goroutine |
| VirtualClock.VirtualClock.IsSleepingNow | explorer/vclock.go:99-104 | whether the goroutine is marked as sleeping |
| VirtualClock.VirtualClock.UpdateQs | explorer/vclock.go:114-129 | in whatever order the map is traversed while it changes, everything due leaves: timers to the ready array, sleepers woken, periodic entries queued again |
| VirtualClock.VirtualClock.GetNextEventFromReady | explorer/vclock.go:35-59 | the last timer of the ready array is taken by swap-remove; index -1 is never used |
| VirtualClock.VirtualClock.GetNextEvent | explorer/vclock.go:61-87 | a ready timer is fired, or the clock moves on to the earliest waiting one |
| VirtualClock.VirtualClock.SetTick | explorer/vclock.go:89-92 | the tick is set and everything due released |
| TimerRuns.EarliestFirst | explorer/vclock.go:35-112 | on every run without wrap, a returned timer is due no later than any timer still queued and no earlier than any returned before |
| TimerRuns.AddKeepsOrderUnlessItWraps | explorer/vclock.go:106-112 | queueing an event keeps the queues in order if and only if it is a sleep or the addition does not wrap |
| TimerRuns.NilMakesDelaysWrap | explorer/vclock.go:61-87 | when only sleepers wait the tick jumps to the maximum, and every later timer with a delay is queued at its delay less one |
| TimerRuns.WrappedTimerComesLate | explorer/vclock.go:61-112 | a run from a fresh clock returns a timer due at 100 and then, after a nil, one due at 4 |
| TimerRuns.TimersConserved | explorer/vclock.go:35-129 | with fresh ids and one-time sleeps, each one-shot timer is in exactly one of waiting, ready and returned, and the ready array holds timers only |
| TimerRuns.NilLeavesNothing | explorer/vclock.go:61-87 | a nil result leaves no waiting event and no sleeping goroutine |
| TimerRuns.SleepingIsExact | explorer/vclock.go:61-129 | on every run, IsSleeping holds at every moment exactly of the goroutines with a sleep waiting, if and only if no call moves the tick to a time between the ends of two waiting sleeps of one goroutine |
| TimerRuns.OneSleepEachIsExact | explorer/vclock.go:99-129 | so it does on every run in which no goroutine goes to sleep while asleep |
| TimerRuns.OverlappingSleeps | explorer/vclock.go:114-119 | a run from a fresh clock ends with a sleep of a goroutine waiting that is not taken to be asleep: the first of its sleeps to end has cleared the mark |
| PeriodicTimers.PeriodicTimersKeepTime | explorer/vclock.go:61-129 | on every run without wrap a periodic timer is never lost, and the k-th time it is returned it is due k periods after the first |
| PeriodicTimers.ReturnedAsQueued | explorer/vclock.go:35-112 | a returned timer carries the timer id, goroutine and period it was queued with, and a one-time timer its time |
| Coverage.CoverageUnion | explorer/coverage.go:48-64 | the accumulating loop adds counts block by block |
| Coverage.MergeCoverage | explorer/coverage.go:83-97 | in any order of merging, each block ends up with the number of processes that covered it and the sum of their counts |
| Coverage.CalcScore | explorer/coverage.go:99-114 | in any order of summing, the score is the sum of what each block is worth; what that is, is Coverage.NewBlockRaises and Coverage.KnownBlockLowers |
| Coverage.CalcFullCoverageScore | explorer/coverage.go:123-126 | merging and scoring yield the score of the tables |
| Coverage.GetCoverageEstimate | explorer/coverage.go:128-138 | the estimate is the score of the table with the new coverage, and stays in that table |
| Coverage.ScoresAreOrdered | explorer/coverage.go:99-126 | FREQUENCY at most NODE_FREQUENCY at most UNIQUE, which is the number of blocks |
| Coverage.UniqueEstimateFindsNewBlocks | explorer/coverage.go:128-138 | under UNIQUE an estimate beats the score exactly when some block was covered by no process |
| Coverage.FrequencyEstimateFindsNewBlocks | explorer/coverage.go:128-138 | under FREQUENCY an estimate beats the score only then |
| Coverage.NewBlocksAddTheirScore | explorer/coverage.go:99-138 | under every objective, coverage of blocks that no process has covered adds to the score what it scores alone |
| Coverage.NewBlockRaises | explorer/coverage.go:99-138 | one new block covered c times raises the score by the reciprocal of c, under UNIQUE by 1 |
| Coverage.KnownBlockLowers | explorer/coverage.go:104-107 | under FREQUENCY one known block covered c times more lowers it from the reciprocal of its total to that of the new total |
| Coverage.NewBlocksImprove | explorer/coverage.go:128-138 | an action that reaches no known block improves on the score exactly if it reaches any |
| Coverage.OneNodeEach | explorer/coverage.go:104-112 | as long as no block is covered by two processes, FREQUENCY and NODE_FREQUENCY agree |
| Coverage.NodeFrequencyEstimateFindsRewards | explorer/coverage.go:108-138 | under NODE_FREQUENCY an estimate beats the score only if some block was covered by no process, or is new to this process and has a total count above the number of its processes times the new count |
| Coverage.WorthGrowsWhenRewarded | explorer/coverage.go:108-112 | the worth of a known block grows exactly in the second case |
| Coverage.SingleKnownBlockRewarded | explorer/coverage.go:108-138 | for an action with a single, known block the estimate beats the score exactly in the second case |
| RoundRobin.Scheduler.RoundRobin | scheduler.go:158-173 | the loop ends at the first alive process in cyclic order |
| RoundRobin.Fair | scheduler.go:158-173 | a process that stays alive is chosen within as many calls as there are processes |
| RoundRobin.NextAliveIsCyclic | scheduler.go:158-173 | the next process is the first one alive with a larger id, or if there is none the first one alive from 1 on |
| RecordLoop.SchedulerKeepsInv | scheduler.go:591-674 | every step of the scheduler keeps the ownership of locks and the record of events |
| RecordLoop.RuntimeKeepsInv | scheduler.go:586-674 | and so does anything a runtime may do with the lock in hand, and the signal after a network wait |
| RecordLoop.RecordingIsSerialised | scheduler.go:586-674 | the scheduler owns every lock when it chooses a process, and otherwise all but the chosen one: at most one runtime is free |
| RecordLoop.NothingLost | scheduler.go:586-674 | what is recorded of a process, followed by its buffer, is all its runtime has written, in order |
| RecordLoop.WritesAreGuarded | scheduler.go:599-664 | the scheduler changes the fields of a process with its lock in hand, except for the command after a network wait |
| RecordLoop.CommandOverwritesReport | scheduler.go:641-648 | that command can overwrite what the runtime has just reported |
| RecordLoop.EndsNearTheLimit | scheduler.go:651-664 | a process whose events have been taken is told to end when no more room is left than one event of each process, and to go on otherwise |
| Recorder.Recorder.ConsumeVars | scheduler.go:226-240 | variables are recorded, decoded for log events only, and the context follows them |
| Recorder.Recorder.QueueTimers | scheduler.go:249-266 | installed timers and sleeps are queued under new ids |
| Recorder.Recorder.ConsumeLog | scheduler.go:213-271 | a batch is recorded event by event, the context is the fold over what is recorded, the timers go to the clock |
| Recorder.NewIdsAreFresh | scheduler.go:249-266 | a batch queues its timers under new ids and replaces no event that waits |
| RecordedContext.ContextSays | scheduler.go:226-240 | a variable is in the context, after any batches, exactly if the last event that touches it logs it, with the value decoded from its last entry there |
| RecordedContext.QueuedSays | scheduler.go:249-266 | an installed timer waits for its second argument and again for its third; a sleep waits for its first and its goroutine is asleep; both get the next ids |
| Recorder.Recorder.ExtractDataFromProc | scheduler.go:559-583 | after any number of extractions the index is the log length, event indexes are batch ends, and the context is the fold over the recorded log |
| Recorder.ConsumeCoverage | scheduler.go:192-201 | a block is in the result exactly when it is listed, with the count of its last listing |
| Recorder.FirstBatchDecides | explorer/explorer.go:431-434 | recorded indexes stay inside the log exactly when the first batch had an event |
| Recorder.BuildActionStats | explorer/explorer.go:431-448 | a panic exactly when an index is out of range; otherwise every action gets what its batches covered, and nothing is lost |
| RecordedContext.StatsOfGoroutine | explorer/explorer.go:431-448 | they say of each goroutine of the explorer what the batches that end with one of its events covered |
| Philosophers.MakeRing | structured/dphil_local/dining_philosophers.go:79-88 | the loop links the philosophers into one ring, each with one token |
| Philosophers.Act | structured/dphil_local/dining_philosophers.go:36-74 | what a philosopher does to his own channel and to his neighbour's is the move of the table |
| Philosophers.MoveKeepsInv | structured/dphil_local/dining_philosophers.go:36-74 | every send, receive and timeout keeps each chopstick in exactly one place |
| Philosophers.NeighborsExclude | structured/dphil_local/dining_philosophers.go:36-74 | neighbours never hold the chopstick between them at once |
| Philosophers.NoReturnBlocks | structured/dphil_local/dining_philosophers.go:53-65 | whoever puts a chopstick back finds room for it |
| Philosophers.NeverStuck | structured/dphil_local/dining_philosophers.go:36-74 | from every state of every dinner everybody can still eat, and unless all are finished somebody can move |
| Philosophers.TimeoutsAreNeeded | structured/dphil_local/dining_philosophers.go:45-58 | in a ring of any size everybody can take his own chopstick, and then only timeouts help |

## Left out

- Integer widths: coverage counts, the state counter and the clocks a replica stores are unbounded; the clock of the client library, ticks and the byte counter of the stability check wrap as in the program.
- Pointers: nil tables and the aliasing of one coverage table by two maps; tables are values that the fields hold.
- Coverage.CalcScore: counts are positive by type, so a block listed with count 0, where floating point gives infinity, is not modelled; floating-point rounding is not, either.
- Explorer.Explorer.GetNextCoverageThread: that the best candidate is chosen is not claimed and not true: the program returns the address of a loop variable, which before Go 1.22 ends up at the last candidate.
- Explorer.Explorer.GetNextAction: with no goroutine to choose and no timer to fire the program panics on an empty list; the result then is Nothing, and no invariant is claimed.
- Explorer.Explorer.SetMaxDepth: called once before the first action, as both callers do.
- InstrumenterFile.File.Visit: the walk rebuilds the tree instead of assigning to its nodes, and visits lists and expressions in its own order, so blocks are compared as multisets.
- CounterAdequacy.CountersAreExact: source positions are assumed to be those of a program, `PlacedList`.
- CounterAdequacy.ExactWhenWalked: assumes besides that a position does not belong to a statement that is walked and to one that is not, as no two statements of a program start at one position.
- Fingerprint.FingerprintExact: that no block id contains a comma is enough, but not needed: only this half is claimed. Some ids with commas are harmless.
- GoSemantics: goto, deferred calls, goroutines and the order in which case guards are evaluated; a range statement is modelled as a for.
- Block ids by line: two blocks on the same lines share an id in the program; here blocks are told apart by position.
- KvProtocol.TotalOrder: the ticker that repeats the stability check is any sequence of polls; that a request is finally served is not claimed.
- KvLib: dialling, errors of single calls and the connection list; what remote calls answer is a parameter.
- ShiViz: texts, names, coverage and property notes of the lines.
- VirtualClock: that every timer eventually fires is not claimed; entries left in the ready array are not looked at while nothing waits.
- RecordLoop: goroutine tables, process ids, pauses and the end of recording near its length limit beyond the command it sends; events are opaque there.
- Recorder.Recorder.ExtractDataFromProc: a batch and the result of the property check are parameters; decoding of values is left to the runtime.
- Replaying, the exploring loop of the scheduler, property plugins, remote calls, shared memory and files.
- Philosophers: time, and the channels that are closed one second after their owners are done.
