# A verified model of wield's scheduling toolkit

wield schedules worker threads over the stages of a message pipeline. A worker claims a stage, drains the stage's
queue, and claims another. This project models the code that decides who works where, and the code that moves
messages, for any number of stages and threads, and proves what that code keeps over all runs.

| file | models |
|---|---|
| ThreadAssignments.dfy | the claim table of `ThreadAssignments` as a class over its arrays; the pigeonhole argument |
| ClaimProtocol.dfy | the same code as a concurrent protocol: every load, exchange, decrement and slot write is a step |
| ConcurrentSearch.dfy | any number of round-robin or SRPT searches at once, over that protocol |
| RoundRobin.dfy, Srpt.dfy, RandomVisit.dfy, Color.dfy, ColorMinus.dfy | the five scheduling policies |
| StageSearch.dfy | "the first stage with room in this order", which three of the search loops look for |
| MessageCount.dfy | the wrapping depth counters behind Color-minus |
| Worker.dfy | the drain loop under exhaustive polling |
| WorkSignals.dfy, WorkProgress.dfy, StrandedWork.dfy | dispatchers and workers of Color and Color-minus together: the system, the runs that reach waiting work, the runs that abandon it |
| Waiting.dfy | how long a signal waits under Color and under Color-minus |
| StageOrder.dfy | the order in which a stage handles its messages |
| PillFlow.dfy, PoisonPill.dfy, PillOnGraphs.dfy | the shutdown protocol: the system on any graph of stages, on trees, and where branches join |
| RefCount.dfy, Dispatching.dfy | reference counts of messages: all interleavings, with raising a count and pushing as separate steps, and the code itself |
| MultipleInputQueue.dfy | the round-robin reader of several input queues |
| Counting.dfy | sums and occurrence counts |

A stage is its number; the number of stages stands for `NumberOfEntries`. The classes are the source's classes: fields
and arrays updated in place, one thread at a time, each method tied to a function of the old state. The protocols are
transition systems, and their theorems are about every finite run of any number of agents. Steps are sequentially
consistent. `size_t` has 64 bits and `int` has 32; subtraction, addition and accumulation wrap where the code's do.

## What the proofs found

- A claim can fail although the stage has room. The comment at `ThreadAssignments.hpp:33-41` promises success when there
  is room; the code loads the counter and exchanges it later, and a claim or release in between makes the exchange fail
  (`ClaimProtocol.FailureWithRoom` gives the run). In all runs exchanges on a stage fail only when it is full if and
  only if its maximum is at most one or there is at most one thread (`ClaimProtocol.FailsOnlyWhenFullExactly`). Safety
  does not suffer (`ClaimProtocol.RunRefinesAtomic`), and the failures are bounded (`ClaimProtocol.LockFreedom`, with a
  bound that is reached).
- Color drops a token, and Color-minus zeroes a depth, when a claim fails. A message is abandoned if, unless another one
  is dispatched to its stage, no continuation ever brings a worker to poll that stage. With at least one worker and one
  producer, a stage never abandons a message in any run exactly under these conditions
  (`StrandedWork.NeverAbandonsExactly`):
  - stage 0 of Color-minus: its maximum is positive, since a worker that finds no work anywhere visits stage 0;
  - every other stage: its maximum is at least the number of threads, and claims are one step or there is one thread,
    and, for Color-minus, counting a message is one step.

  The code's claims are a load and an exchange, so with two threads every stage but stage 0 of Color-minus can abandon
  messages, however large its maximum. Its `+=` on a message count is a load and a store, so in Color-minus every stage
  but stage 0 can, even with one worker and one producer (`StrandedWork.LostIncrementAbandons`). All this takes a worker
  of Color that finds no token to try again later; the code's worker then leaves its arrays (see below), and no
  condition holds from there on.
- A token of Color is picked in its turn. Under Color-minus a stage with work can be passed over any number of times: a
  bound on the picks until it is picked exists, from each state, exactly under Color or if there is no other stage
  (`Waiting.WaitIsBoundedExactly`).
- `dispatch` has to raise the count before it pushes: the other order has a run that frees a message still in use, for
  any stages and any two or more agents (`RefCount.SafeExactlyIfCountFirst`).
- All the searches of RoundRobin or SRPT together get on: with no more threads than units of concurrency, some counter
  changes within T * (N + 1) + 1 steps (`ConcurrentSearch.SomeoneGetsOn`). A single search can be overtaken: there is a
  bound on the tries of every search, in all runs, if and only if there is no second thread
  (`ConcurrentSearch.SingleSearchBoundedExactly`; `OvertakenForEver` gives the runs).
- Color with an empty work queue passes `NumberOfEntries` to `tryAssign`, which indexes past its arrays
  (`Color.Color.NextStage` says exactly when).
- The thread count of the map-only constructor is summed in an `int`: it is the sum exactly while the sum is below 2^31
  (`Assignments.ThreadsFromConcurrency`).
- SRPT under exhaustive polling never remembers that a batch had messages, and so it is round robin on the reversed
  stage numbers (`Srpt.SimulatesRoundRobin`).
- Each poison pill stops the application once, after everything dispatched before it, on any tree of stages
  (`PoisonPill.StopsOnceAfterEverything`). Where messages come to a stage in more than one way, the pill is counted for
  each. On graphs without circles the callback always comes after all lines are done with if and only if no two stages
  forward to the same one and none forwards twice to the same one, except at the end of a pipeline that is a single chain
  (`PillOnGraphs.StopsAfterAllLinesExactly`).
- A stage handles its messages in the order they were pushed, in every run, if and only if it can have one visitor at
  most (`StageOrder.InOrderExactlyIfSerial`).

## Model

| member | source | states |
|---|---|---|
| `ClaimProtocol.CountersAreHolders` | wield/schedulers/utils/ThreadAssignments.hpp:109-158 | in every interleaving each counter equals the number of threads that hold the stage and is at most its maximum, and no decrement finds a zero |
| `ClaimProtocol.StepKeepsInv` | wield/schedulers/utils/ThreadAssignments.hpp:124-158 | each of the five steps keeps that; a successful exchange claims a stage with room at that very moment, whatever the counter did since the load |
| `ClaimProtocol.RunRefinesAtomic` | wield/schedulers/utils/ThreadAssignments.hpp:124-158 | every run is a run of the simple system in which checking for room and taking the place are one step; both end with the same holders |
| `ClaimProtocol.UnassignedThreadHasRoom` | wield/schedulers/utils/ThreadAssignments.hpp:64-107 | with no more threads than units of concurrency, in every reachable state of the protocol a thread that holds nothing finds a counter below its maximum |
| `ClaimProtocol.UndisturbedTryAssign` | wield/schedulers/utils/ThreadAssignments.hpp:139-158 | from any consistent state, the claim steps of one thread alone have the effect and the success condition of the sequential method |
| `ClaimProtocol.UndisturbedRelease` | wield/schedulers/utils/ThreadAssignments.hpp:124-137 | likewise for the two release steps |
| `ClaimProtocol.FailuresHaveCauses` | wield/schedulers/utils/ThreadAssignments.hpp:147-155 | a thread fails on a stage at most as often as other threads change that stage's counter |
| `ClaimProtocol.LockFreedom` | wield/schedulers/utils/ThreadAssignments.hpp:139-158 | in every run the failed exchanges are at most (T - 1) times the counter changes |
| `ClaimProtocol.LockFreedomIsTight` | wield/schedulers/utils/ThreadAssignments.hpp:139-158 | for every T some run has one change and T - 1 failures |
| `ClaimProtocol.FailureWithRoom` | wield/schedulers/utils/ThreadAssignments.hpp:139-158 | for every stage with a maximum from two and every T from two, a run after which a thread's exchange fails although the stage has room |
| `ClaimProtocol.FailsOnlyWhenFullExactly` | wield/schedulers/utils/ThreadAssignments.hpp:139-158 | exchanges on a stage fail, in all runs, only when it has no room, if and only if its maximum is at most 1 or T is at most 1 |
| `ConcurrentSearch.FuelUsed` | wield/schedulers/RoundRobin.hpp:104-120 | while no counter changes, each step of any search brings it nearer to where its next step must change one |
| `ConcurrentSearch.LeaveAndSearchAlone` | wield/schedulers/RoundRobin.hpp:104-120 | from any reachable state, the steps of one thread that leaves its stage and searches undisturbed bring it to the stage that the class `RoundRobin` gives, or `Srpt` without messages, and move no other thread |
| `ConcurrentSearch.SomeoneGetsOn` | wield/schedulers/RoundRobin.hpp:104-120 | with T at most the sum of the maxima, in every run of T concurrent searches, upward or downward, and releases at most T * (N + 1) steps pass between counter changes |
| `ConcurrentSearch.ClaimsKeepComing` | wield/schedulers/RoundRobin.hpp:104-120 | such a run with c successful claims has fewer than (2c + 1) * (T * (N + 1) + 1) steps |
| `ConcurrentSearch.OvertakenForEver` | wield/schedulers/SRPT.hpp:126-150 | for T from two and every k a run, upward or downward, in which a search makes k tries and claims nothing |
| `ConcurrentSearch.SingleSearchBoundedExactly` | wield/schedulers/RoundRobin.hpp:104-120 | with T at most the sum of the maxima, the tries of every single search, in all runs, have a bound if and only if T is at most 1; then N is one |
| `Assignments.ThreadAssignments.OnePerStage` | wield/schedulers/utils/ThreadAssignments.hpp:64-75 | all maxima one, as many empty slots as threads, counters matching |
| `Assignments.ThreadAssignments.WithThreads` | wield/schedulers/utils/ThreadAssignments.hpp:85-91 | the given maxima, as many empty slots as threads, counters matching |
| `Assignments.ThreadAssignments.FromConcurrency` | wield/schedulers/utils/ThreadAssignments.hpp:77-83 | as many slots as the wrapping accumulation says, never more than the true sum |
| `Assignments.ThreadAssignments.Init` | wield/schedulers/utils/ThreadAssignments.hpp:109-116 | zeroed counters agree with empty slots, whatever the counters held |
| `Assignments.ThreadAssignments.RemoveCurrentAssignment` | wield/schedulers/utils/ThreadAssignments.hpp:124-137 | returns the old slot and empties it; the counters stay the occurrence counts of the slots |
| `Assignments.ThreadAssignments.TryAssign` | wield/schedulers/utils/ThreadAssignments.hpp:139-158 | alone, succeeds exactly if the stage has fewer visitors than its maximum, and then only the slot changes; the counters stay the occurrence counts of the slots |
| `Assignments.ThreadsFromConcurrency` | wield/schedulers/utils/ThreadAssignments.hpp:77-83 | the accumulated thread count is the sum of the maxima less a multiple of 2^32, in the range of an `int`: the sum itself if and only if that is below 2^31, and never more |
| `Assignments.NumberOfThreads` | wield/src/NumberOfThreads.cpp:8-12 | workers never outnumber slots, nor cores (one is always allowed), and there are as many as that permits |
| `Assignments.OnePerStageFits` | wield/schedulers/utils/ThreadAssignments.hpp:64-75 | the default constructor's thread count equals its total concurrency |
| `Assignments.RoomExactly` | wield/schedulers/utils/ThreadAssignments.hpp:139-158 | some stage has room if and only if fewer threads are assigned than the maxima add up to |
| `Assignments.Pigeonhole` | wield/schedulers/utils/ThreadAssignments.hpp:64-107 | with no more threads than the maxima add up to, a thread without a stage always has one with room |
| `Assignments.PigeonholeIsTight` | wield/schedulers/utils/ThreadAssignments.hpp:85-107 | exactly then: for any larger thread count there is a full table with a thread left over |
| `RoundRobin.RoundRobin.NextStage` | wield/schedulers/RoundRobin.hpp:104-120 | the search ends within N tries, placing the thread at the cyclically first stage with room and moving no other |
| `RoundRobin.RoundRobin.Search` | wield/schedulers/RoundRobin.hpp:108-117 | it tries exactly the stages up to the first with room, in cyclic order |
| `RoundRobin.UpFromIsIncrement` | wield/schedulers/RoundRobin.hpp:122-140 | repeated increments, with the reset past the last stage, list every stage in cyclic order |
| `RoundRobin.NextIsCyclicallyFirst` | wield/schedulers/RoundRobin.hpp:106-140 | compared with any stage that has room, the stage given comes first: smallest above the one left, or else smallest |
| `RoundRobin.LoneVisitIsWalk` | wield/schedulers/RoundRobin.hpp:106-140 | a lone worker's visits walk the list of unmasked stages in order, over and over; a masked stage never comes up |
| `RoundRobin.LoneWorkerIsFair` | wield/schedulers/RoundRobin.hpp:106-140 | any E consecutive visits are a permutation of the E stages of non-zero maximum |
| `Worker.DrainBatch` | wield/SchedulerBase.hpp:112-129 | whatever arrives between polls, a visit handles in order everything that was there or came before its last poll, leaves the queue empty, and ends with the information of an empty poll |
| `Worker.StageQueue.TryPop` | wield/tests/unit_test/test_adapter/SimpleConcurrentQueue.hpp:21-34 | succeeds exactly on a non-empty queue; the popped message and the rest are the old contents |
| `Srpt.Srpt.NextStage` | wield/schedulers/SRPT.hpp:126-150 | the search ends within N tries, placing the thread at the first stage with room downward from the right start and moving no other |
| `Srpt.Srpt.Search` | wield/schedulers/SRPT.hpp:138-147 | it tries exactly the stages up to the first with room, in cyclic downward order |
| `Srpt.DownFromIsDecrement` | wield/schedulers/SRPT.hpp:152-171 | repeated decrements of the wrapping index list every stage in cyclic downward order |
| `Srpt.NextIsCyclicallyLast` | wield/schedulers/SRPT.hpp:128-171 | after messages at a stage other than the last: the highest stage with room; otherwise the largest with room below the one left, or else the largest |
| `Srpt.BatchForgets` | wield/schedulers/SRPT.hpp:61-63 | the end of an exhaustive batch wipes out the memory of messages, whatever it was, and moves no thread |
| `Srpt.Process` | wield/SchedulerBase.hpp:112-129 | one turn of a worker: it drains the stage that SRPT gives it, touches no other queue, and the policy is left without a memory of messages |
| `Srpt.MirrorNext` | wield/schedulers/SRPT.hpp:126-171 | without messages, a call of SRPT and a call of round robin on the mirrored table give mirrored stages and tables |
| `Srpt.SimulatesRoundRobin` | wield/schedulers/SRPT.hpp:63-171 | in every run of visits and exhaustive batches the memory stays off, and the placement of all threads is round robin's on the reversed stage numbers |
| `RandomVisit.RandomVisit.constructor` | wield/schedulers/RandomVisit.hpp:75-125 | one table per thread, a multiple of the stage count long; the tables one after the other are the first of the accepted samples, in order, and so hold stages with non-zero maximum only |
| `RandomVisit.RandomVisit.InitVisitTable` | wield/schedulers/RandomVisit.hpp:177-203 | the tables one after the other are the first of the accepted samples, in order; every entry is a stage with non-zero maximum, and every cursor is at the start |
| `RandomVisit.RandomVisit.FillRow` | wield/schedulers/RandomVisit.hpp:185-195 | the row is the accepted samples, in order, with none lost or reused |
| `RandomVisit.AcceptedCounts` | wield/schedulers/RandomVisit.hpp:185-195 | a stage with non-zero maximum is accepted as often as it is sampled, a masked one never |
| `RandomVisit.AcceptedInTurn` | wield/schedulers/RandomVisit.hpp:185-195 | samples are accepted in the order they are drawn |
| `RandomVisit.RandomVisit.RandomShuffle` | wield/schedulers/RandomVisit.hpp:164-175 | the table becomes what Fisher and Yates make of it with the numbers drawn from the random device, one for each place but the first: the pick for a place is among the places left and differs from the number drawn by a multiple of how many there are; no other thread's table changes |
| `RandomVisit.ShuffleIsDetermined` | wield/schedulers/RandomVisit.hpp:170-174 | the numbers drawn leave no choice: they shuffle a table to one order only |
| `RandomVisit.ShuffleKeepsMultiset` | wield/schedulers/RandomVisit.hpp:170-174 | whatever the picks, the entries and how often they occur stay the same |
| `RandomVisit.EveryOrderIsAShuffle` | wield/schedulers/RandomVisit.hpp:170-174 | for every permutation of the table there are random numbers that shuffle the table to it |
| `RandomVisit.RandomVisit.RandomStage` | wield/schedulers/RandomVisit.hpp:152-162 | a draw reads the next entry and uses no random number, or starts over on the table shuffled by the numbers drawn; the cursor stays in range and other threads' cursors do not move |
| `RandomVisit.EveryAlignedPass` | wield/schedulers/RandomVisit.hpp:152-175 | in any run each aligned pass of tableSize draws is the table's multiset exactly once |
| `RandomVisit.DrawnWithinTwoPasses` | wield/schedulers/RandomVisit.hpp:152-175 | wherever the cursor stands, every stage of the table is among the next 2 * tableSize - 1 draws |
| `RandomVisit.TwoPassesAreNeeded` | wield/schedulers/RandomVisit.hpp:152-175 | one draw fewer is not enough, for any table size from two |
| `RandomVisit.RandomVisit.NextStage` | wield/schedulers/RandomVisit.hpp:134-150 | if the thread's table holds a stage with room, the search ends within 2 * tableSize - 1 draws at the first drawn stage with room, and takes from the random device exactly the numbers of its shuffles |
| `RandomVisit.NoRoomNoClaim` | wield/schedulers/RandomVisit.hpp:141-147 | and if it holds none, no draw of any run is ever a claim |
| `MessageCount.MessageCount.Increment` | wield/schedulers/utils/MessageCount.hpp:51-56 | the operation of the same name on the counter values, wrapping |
| `MessageCount.MessageCount.UpdatePrevious` | wield/schedulers/utils/MessageCount.hpp:58-63 | the operation of the same name on the counter values |
| `MessageCount.MessageCount.EstimatedDepth` | wield/schedulers/utils/MessageCount.hpp:65-74 | the stage's entry of the depth sequence that the theorems below are about |
| `MessageCount.MessageCount.HighwaterStage` | wield/schedulers/utils/MessageCount.hpp:76-93 | the lowest-numbered stage of greatest estimated depth |
| `MessageCount.MessageCount.ResetAll` | wield/schedulers/utils/MessageCount.hpp:95-100 | all counters zero, whatever the arrays held |
| `MessageCount.EstimateIsExactUntilWrap` | wield/schedulers/utils/MessageCount.hpp:51-100 | after any history the estimate is the number of increments since the last update or reset if and only if the counter has not wrapped since; while the total is below 2^64 it is |
| `MessageCount.SinceAddsUp` | wield/schedulers/utils/MessageCount.hpp:51-100 | the increments since the last update or reset, which that theorem is about, are the sum of the amounts, and an update or reset starts again from none |
| `MessageCount.HighwaterIsBusiest` | wield/schedulers/utils/MessageCount.hpp:76-93 | then the high-water stage has the most increments since its last update, the lowest-numbered on a tie |
| `Color.Color.DequeNextStage` | wield/schedulers/color/Color.hpp:132-140 | the head token, or `NumberOfEntries` from an empty queue |
| `Color.Color.NextStage` | wield/schedulers/color/Color.hpp:109-130 | alone, the thread gets the first queued stage with room and the tokens before it are dropped; if no queued stage has room, all are dropped and the search leaves the arrays |
| `ColorMinus.ColorMinus.NextStage` | wield/schedulers/color_minus/ColorMinus.hpp:119-141 | alone, the search tries exactly the sequence `Tried`, ends at its last stage, zeroes the depths of exactly the stages tried, and moves no other thread |
| `ColorMinus.ColorMinus.TryHighwater` | wield/schedulers/color_minus/ColorMinus.hpp:126-136 | one round: the high-water stage is tried and its depth zeroed whether or not the claim succeeds |
| `ColorMinus.TriedIsSearch` | wield/schedulers/color_minus/ColorMinus.hpp:119-148 | the stage found is the busiest with room (lowest-numbered on a tie), or stage 0 if no stage with work has room; exactly the busier stages were tried before, each once |
| `ColorMinus.FewTries` | wield/schedulers/color_minus/ColorMinus.hpp:126-138 | at most one try more than there are stages of positive depth |
| `ColorMinus.NotPlaceableSpins` | wield/schedulers/color_minus/ColorMinus.hpp:126-138 | if no stage of positive depth has room and neither has stage 0, no try ever succeeds |
| `WorkSignals.EverythingSignalled` | wield/schedulers/color/Color.hpp:109-140 | in every reachable state of Color and of Color-minus a stage where no claim fails and no signal is lost has at most as many messages as signals and dispatches in flight, or a thread on its way to poll it |
| `WorkSignals.DispatchKeepsInv` | wield/schedulers/color/Dispatcher.hpp:35-50 | pushing the message and then the token (or counting it in one step) never leaves more messages than signals present or due |
| `WorkSignals.ClaimKeepsInv` | wield/schedulers/color_minus/ColorMinus.hpp:119-141 | neither does a claim, in one step or two, where no claim can fail |
| `WorkSignals.QuietMeansEmpty` | wield/SchedulerBase.hpp:112-129 | at such a stage, no signals, nothing in flight and nobody on the way to a poll mean an empty queue |
| `WorkProgress.PollIsAhead` | wield/schedulers/color_minus/ColorMinus.hpp:119-148 | from every state in which a message waits at such a stage, and for stage 0 of Color-minus from every state at all if it takes a visitor, some continuation without dispatches brings a worker to poll the stage |
| `StrandedWork.ForsakenForGood` | wield/schedulers/color/Color.hpp:132-140 | a stage with no signal, nothing in flight to it and nobody on the way is never polled, whatever happens, unless a message is dispatched to it; except stage 0 of Color-minus |
| `StrandedWork.FullStageAbandons` | wield/schedulers/color/Color.hpp:116-127 | for every configuration, a stage that does not take all threads has a run that abandons a message; except stage 0 of Color-minus |
| `StrandedWork.MaskedStageAbandons` | wield/schedulers/utils/ThreadAssignments.hpp:144-147 | a stage of maximum 0 has one under either policy, stage 0 of Color-minus included |
| `StrandedWork.DisturbedClaimAbandons` | wield/schedulers/utils/ThreadAssignments.hpp:147-155 | with claims in two steps, two threads and any maximum from two, a reachable state in which an exchange fails, the stage has room, and the message the claim was for is abandoned; except at stage 0 of Color-minus |
| `StrandedWork.LostIncrementAbandons` | wield/schedulers/utils/MessageCount.hpp:51-56 | with counting in two steps, one worker and one producer are enough for a run of Color-minus that abandons a message, at any stage but stage 0 |
| `StrandedWork.NeverAbandonsExactly` | wield/schedulers/color_minus/ColorMinus.hpp:119-148 | no run ever abandons a message at a stage if and only if it is stage 0 of Color-minus with a positive maximum, or its maximum is at least T, claims are atomic or T is at most 1, and no count is incremented in two steps |
| `Waiting.TokenInTurn` | wield/schedulers/color/Color.hpp:132-140 | in every run of Color, a token with k tokens ahead is the (k + 1)-th to be picked |
| `Waiting.ColorMinusPasses` | wield/schedulers/color_minus/ColorMinus.hpp:119-148 | for every configuration of Color-minus with a second stage and every stage, a reachable state in which the stage has a signal and from which, for every number, a run picks another stage so often and never this one |
| `Waiting.WaitIsBoundedExactly` | wield/schedulers/utils/MessageCount.hpp:76-93 | from every reachable state in which a stage has a signal there is a bound on the picks until it is picked, for all runs, if and only if the policy is Color or there is one stage |
| `StageOrder.BatchesDoNotOverlap` | wield/SchedulerBase.hpp:112-129 | in every run two threads are never on a visit to the same stage if its maximum is 1 or there is one thread |
| `StageOrder.VisitEnds` | wield/SchedulerBase.hpp:112-129 | a visit on which nothing arrives is, from any state, a poll and a finish for each queued message, an empty poll and the release, all possible: it has then handled exactly the old queue, in order, and the thread is idle |
| `StageOrder.InOrderExactlyIfSerial` | wield/StageBase.hpp:71-91 | in every run the messages handled at a stage are, in order, a prefix of those pushed to it, if and only if its maximum is at most 1 or there is at most one thread |
| `PoisonPill.ChildFollowsParent` | wield/tests/unit_test/poison_pill/ProcessingFunctor.hpp:38-69 | in every run on any tree of stages, with any inputs, what a stage has handled and what it has queued form a prefix of what its parent handled |
| `PoisonPill.ReceivedNext` | wield/adapters/dynamic/FanoutProcessingFunctor.hpp:54-61 | one dispatch of the fan-out loop adds the message to what the child in turn has received, and to nothing else; no other step adds anything, but for an input at the root |
| `PoisonPill.StopsOnceAfterEverything` | wield/tests/unit_test/poison_pill/Message.hpp:34-40 | the callback of a pill dispatched once fires at most once, and has fired if and only if every stage has begun to handle that pill; by then every stage has handled everything dispatched before it |
| `PoisonPill.FiredInOrder` | wield/tests/unit_test/poison_pill/Message.hpp:34-40 | the callbacks of different pills fire in the order the pills were dispatched |
| `PoisonPill.FiredEarlier` | wield/tests/unit_test/poison_pill/Message.hpp:34-40 | and the record of callbacks has them in that order |
| `PoisonPill.EveryRunEndsStopped` | wield/tests/unit_test/poison_pill/ProcessingFunctor.hpp:28-69 | with any inputs, every run has at most three steps per stage and input; a run that cannot go on has exactly so many, all stages have handled all inputs, the leaves have counted all lines and other stages none, and the callback of each pill among the inputs, and of no other, has fired, once |
| `PillFlow.BeginKeepsCounted` | wield/tests/unit_test/poison_pill/Message.hpp:34-40 | on any graph, each pill has a count of its own, which is how often the stages have begun it, and its callback has run, once, exactly if that has reached the number of stages; a leaf has counted the lines it has begun, and no other stage has counted any |
| `PillFlow.OneMessageHandled` | wield/StageBase.hpp:78-91 | a stage that begins a message can go on to its end by itself, with one dispatch to each child; then it waits again, every child has the message once for each time it is listed, and nothing else has changed |
| `PillFlow.ForwardsInOrder` | wield/adapters/dynamic/FanoutProcessingFunctor.hpp:54-61 | after j dispatches the first j children in the list have the message, in that order |
| `PillOnGraphs.RunOn` | wield/tests/unit_test/poison_pill/ProcessingFunctor.hpp:38-69 | on any graph without circles, every run can be continued, even with one stage held up, to where nothing else can happen |
| `PillOnGraphs.JoinStopsEarly` | wield/tests/unit_test/poison_pill/Message.hpp:34-40 | where two stages forward to the same one, a run in which the callback fires while a line is queued or at work |
| `PillOnGraphs.DoubleStopsEarly` | wield/tests/unit_test/poison_pill/Message.hpp:34-40 | where a stage forwards twice to the same one and there is a leaf elsewhere, such a run too |
| `PillOnGraphs.OrderlyStopsAfterAllLines` | wield/tests/unit_test/poison_pill/Message.hpp:34-40 | where the condition below holds, no run has a line queued or at work once the callback has fired |
| `PillOnGraphs.StopsAfterAllLinesExactly` | wield/tests/unit_test/poison_pill/Message.hpp:34-40 | on any graph without circles, the callback comes after every line is done with at every stage, in all runs, if and only if no two stages forward to the same one and none forwards twice to the same one, except at the end of a single chain |
| `RefCount.CountsAreOccurrences` | wield/DispatcherBase.hpp:82-104 | in every run of any number of agents, also between raising a count and pushing, a message's count is its occurrences in queues, handles, half-done dispatches and inline pushes, and it is freed exactly when there is none |
| `RefCount.NoUseAfterFreeNoLeak` | wield/StageBase.hpp:78-91 | nothing queued or in use is freed, and once queues and frames are empty every message ever made is freed |
| `RefCount.SafeExactlyIfCountFirst` | wield/DispatcherBase.hpp:84-91 | no run frees a message in use if and only if `dispatch` raises the count before it pushes |
| `RefCount.ConsumerFrees` | wield/DispatcherBase.hpp:84-91 | in the other order, a run in which a consumer frees the message while the dispatcher holds it and has yet to count it |
| `RefCount.ReleaseKeepsInv` | wield/adapters/polymorphic/PassThroughStageQueue.hpp:45-54 | giving up one reference keeps counts and occurrences equal, and frees the message if it was the last |
| `RefCount.EveryFunctorRuns` | wield/adapters/ProcessingFunctorChain.hpp:68-80 | in every run the functors run so far and those that inline pushes under way have left are together the functors of all inline pushes begun |
| `Dispatching.Application.Dispatch` | wield/DispatcherBase.hpp:82-91 | it makes exactly the two steps of raising the count and then pushing; the message goes to the end of the queue or into an inline push, with one reference more |
| `Dispatching.Application.DispatchClone` | wield/DispatcherBase.hpp:93-104 | likewise the two steps for a new message with a count of its own |
| `Dispatching.Application.Process` | wield/StageBase.hpp:78-91 | false and no step on an empty queue; otherwise the one step that moves the head to an uncounted handle |
| `Dispatching.Application.ReleaseLast` | wield/StageBase.hpp:84-87 | the handle goes and with it one count; the last one frees the message |
| `Dispatching.Application.RunInline` | wield/adapters/ProcessingFunctorChain.hpp:68-80 | for any number of functors, each dispatching the message to any list of stages, inline ones included: it reaches the queues they lead to, in order, and the push releases its reference once, at the end |
| `Dispatching.Application.DispatchWhole` | wield/adapters/polymorphic/PassThroughStageQueue.hpp:45-54 | the net effect of a dispatch through any nest of inline stages: one reference for each queue reached and none left over from the inline pushes |
| `Dispatching.Fanout.Dispatch` | wield/adapters/dynamic/FanoutProcessingFunctor.hpp:54-61 | the whole loop has the net effect that `FanoutReaches` describes, and the caller's frames are untouched |
| `Dispatching.Fanout.DispatchClones` | wield/adapters/dynamic/FanoutProcessingFunctor.hpp:63-71 | the whole loop has the net effect that `FanoutCopies` and `CopiesReach` describe |
| `Dispatching.FanoutReaches` | wield/adapters/dynamic/FanoutProcessingFunctor.hpp:54-61 | every queue gets the message once for every way the list of stages reaches it, at its end; the count goes up by the queues reached, and nothing else changes |
| `Dispatching.ReachedInAllWays` | wield/adapters/polymorphic/PassThroughStageQueue.hpp:45-54 | a dispatch to a stage comes to a queue as often as there are paths to it: from an inline stage along any entry of any of its functors' lists, to the stage with that queue |
| `Dispatching.AllReachedInAllWays` | wield/adapters/dynamic/FanoutProcessingFunctor.hpp:54-61 | a fan-out comes to a queue once for every listed stage, as often as it is listed, and every path from it |
| `Dispatching.ReachedInOrder` | wield/adapters/dynamic/FanoutProcessingFunctor.hpp:54-61 | queues are reached in the order of the list: those of its first part, then those of the rest, inline stages included |
| `Dispatching.FunctorsInOrder` | wield/adapters/ProcessingFunctorChain.hpp:68-80 | at an inline stage, in the order of the functors |
| `Dispatching.ReachOfQueued` | wield/adapters/dynamic/FanoutProcessingFunctor.hpp:54-61 | where no listed stage is inline, the queues reached are the stages listed, in order and as often as listed |
| `Dispatching.FanoutCopies` | wield/adapters/dynamic/FanoutProcessingFunctor.hpp:63-71 | existing messages keep their counts; there is one new message per listed stage, with one reference for each queue it reaches and freed again if it reaches none |
| `Dispatching.CopiesReach` | wield/adapters/dynamic/FanoutProcessingFunctor.hpp:63-71 | each queue gets exactly the copies that reach it, in the order of the list |
| `MultipleInputQueue.MultipleInputQueueAdapter.TryPop` | wield/adapters/polymorphic/MultipleInputQueueAdapter.hpp:97-110 | succeeds exactly if some queue holds a message; a success takes the head of the first non-empty queue in turn, lowers the total by one and passes the turn on; a failure polls every queue once and changes nothing |
| `MultipleInputQueue.MultipleInputQueueAdapter.PollOne` | wield/adapters/polymorphic/MultipleInputQueueAdapter.hpp:105-106 | the queue whose turn it is gives up its head, if any, and the turn passes on |
| `MultipleInputQueue.MultipleInputQueueAdapter.UnsafeSize` | wield/adapters/polymorphic/MultipleInputQueueAdapter.hpp:112-122 | the sum of the queue lengths, the total that a success lowers by one; zero exactly if no queue holds a message |
| `MultipleInputQueue.SizeIsPushesLessSuccesses` | wield/adapters/polymorphic/MultipleInputQueueAdapter.hpp:97-122 | over every run the total grows by the number of pushes less the number of successful polls |
| `MultipleInputQueue.EmptyPolls` | wield/adapters/polymorphic/MultipleInputQueueAdapter.hpp:131-139 | polls that find nothing only pass the turn on, cyclically |
| `MultipleInputQueue.DeliveredIsPrefix` | wield/adapters/polymorphic/MultipleInputQueueAdapter.hpp:97-110 | over every run of pushes and polls, what is delivered from a queue is a prefix of what was pushed to it |
| `MultipleInputQueue.Drive` | wield/adapters/polymorphic/MultipleInputQueueAdapter.hpp:71-110 | the class, set up queue by queue and driven through any events, makes the run that the theorems on runs are about, and delivers what that run delivers |
| `MultipleInputQueue.DeliveredByPolls` | wield/adapters/polymorphic/MultipleInputQueueAdapter.hpp:97-139 | whatever is pushed in between, the message with p ahead of it is delivered by exactly the poll computed from the cyclic distance and no earlier |
| `MultipleInputQueue.BoundedWaiting` | wield/adapters/polymorphic/MultipleInputQueueAdapter.hpp:97-139 | within (p + 1) * n successful calls that very message has been delivered |

## Left out

- Real threads, memory orderings, thread start and join, affinity, the `done` flag: runs are sequentially consistent interleavings of steps.
- The queues of TBB and PPL, and the intrusive pointer: a queue is a sequence, `push` and `try_pop` are single steps, and a handle is one counted reference.
- Exceptions: functors do not throw; duplicate registration, pushing to the input adapter and impossible vector sizes end the original with an exception and are not modelled.
- `Assignments.ThreadAssignments.FromConcurrency`: does not model a negative accumulator, with which the original's constructor throws.
- `RandomVisit.RandomVisit.InitVisitTable`: does not model rejection sampling that never ends; the samples are a given sequence with enough stages to accept. The random device may draw any numbers; how likely a sample or a shuffle is, is left out.
- `Color.Color.NextStage`: does not model what follows the access past the arrays.
- The exact results of the searches are proved for a thread running alone. What other threads can do meanwhile is in `ClaimProtocol`, `ConcurrentSearch` (the orders of round robin and of SRPT under exhaustive polling; not RandomVisit's tables), `WorkSignals` and `StageOrder`.
- `WorkSignals.EverythingSignalled`: does not model the high-water scan stage by stage, `updatePrevious` in two steps, or message counts beyond 2^64; the wrapping is in `MessageCount`. A worker that finds no token tries again later.
- `Dispatching.Application.RunInline`: does not model inline functors that dispatch other messages than their own, or that choose the stages by the message; the runs of `RefCount` cover those. Inline stages that lead round in a circle are excluded: in the original such a push never returns.
- `Dispatching.Application.DispatchWhole`: as `RunInline`.
- `Dispatching.Fanout.Dispatch`: as `RunInline`, for the inline stages it reaches.
- `Dispatching.Fanout.DispatchClones`: as `RunInline`, for the inline stages it reaches.
- `PoisonPill.EveryRunEndsStopped`: does not model workers that leave once the callback has stopped the scheduler; they are taken to finish the queued messages. One thread serves each stage.
- `PillOnGraphs.StopsAfterAllLinesExactly`: does not cover circles, in which messages never end.
- `MultipleInputQueue.BoundedWaiting`: does not model adding queues while messages wait.
- Stage registration and lookup, `ThreadPerStage`, `QueueAdapter`, and forwarding constructors: one-line forwards.
- The raw-pointer message variant, batch messages, timers, logging, stage names, and polling policies other than exhaustive polling: they would only add easy members.
- Message double dispatch, traits and policy templates: a matter of types.
