# Verified models of a currency exchange and the libraries it carries

The repository is a Rails exchange for digital currencies that ships its own copies of
`concurrent-ruby` and `active_support`. This project models the three parts of it whose
correctness cannot be read off any single method, and proves what they promise.

**The books** (`Amounts`, `Estimate`, `Accounts`, `Orders`, `Ledger`, `Logs`, `Lifecycles`, `Journeys`,
`Statements`, `Exchange`). Accounts
hold a balance and a locked amount and keep a log of version rows. Orders lock funds, are
struck trade by trade and release what is left; withdraws and deposits are event-driven
machines over the same accounts. `Accounts` and `Exchange` are the objects, changed step by
step; `Ledger` is the transition system they implement, in which every process may guard on an
arbitrarily stale copy of an account. Over every run it proves that no money appears or
vanishes in any currency, that every single balance is accounted for by its deposits, withdraws
and trades, that what is locked is exactly what open orders and withdraws under way hold, that
nobody is overdrawn, that the audit never suspects anybody, which guards can raise at all, where
withdraws, deposits and orders can get to, and what whole journeys through the books come to.

**The concurrency protocols** (`Exchanger`, `ExchangerProgress`, `IVar`, `IVarOutcome`, `Dataflow`, `Agent`,
`AgentHistory`, `Async`). Each is a
state machine whose steps are the single reads, compare-and-sets and synchronized blocks of the
code, interleaved in any order by any number of threads.

**Compile-and-run code** (`CallbackMeaning`, `CallbackLaw`, `Callbacks`, `WatchStack`, `Paths`). The callback
chain is compiled to nested sequences, cached, and run by a loop that re-enters itself; it is
proved to do what a short recursion over the chain does, and that to be the one run that a law
about traces allows. The watch stack behind constant loading
and the path filter of the file checker are two loops over mutable collections.

Ten promises turned out to hold only under a condition, which is then stated and proved
together with what happens without it:

- an agent's `restart` is safe exactly when the failing worker is gone; called earlier, by the
  error handler for instance, some schedule runs the failed job twice, or with `clear_actions`
  loses the next one (`Agent.RestartIsSafeIff`, `Agent.ClearingRestartIsSafeIff`);
- `await` waits for what its thread has just sent exactly when no caller was left behind on that
  thread: an action that raises leaves the thread-local caller set on the pool thread that ran it,
  and an action sent later from a plain task on that thread is filed under the wrong caller, so
  that its `await` returns with the action still queued (`Agent.AwaitWaitsIff`,
  `Agent.FailureIsReachable`);
- a trade the engine publishes goes through exactly when it fits two open orders and its volume is
  positive, which the executor does not check; with half a coin of lock left at a price of one
  thousand and two digits the engine publishes volume 0, and crediting the bid raises
  (`Ledger.TradeGoesThrough`, `Orders.DustExample`);
- a limit bid keeps within its limit exactly when its trades took no more than that for the volumes
  published: the engine cuts a volume to the market's precision but charges for the uncut one, so
  a bid at 3.20 may pay 5.00 on average, or end with volume left and nothing locked, and then it
  can neither be filled nor cancelled any more (`Ledger.LimitBidsAreWellIff`,
  `Orders.OverpaidBidRunsDry`, `Orders.OverpaidBidAverages`, `Ledger.DryBidStaysOpen`);
- an open order can be cancelled exactly when something is locked for it, which is so for all but
  such bids (`Ledger.OpenOrdersCanBeCancelled`);
- a cell on which `set` or `fail` was called is completed by exactly one call, unless the block
  given to `set` was left by an exception that is no `StandardError`, or by `break`, and nobody
  calls `fail`: then no call ever wins (`IVar.OneCallWins`, `IVar.StalledForGood`);
- an `async` mailbox can be emptied exactly when it is empty or has its loop and no call still due
  has its result; it stops for good when a client completes such a result itself, or a method
  raises what is no `StandardError` (`Async.MailboxDrainsIff`, `Async.MeddlingStopsTheMailbox`,
  `Async.AbortStopsTheMailbox`);
- a dataflow runs its block exactly once when its inputs are distinct; with any repeated input
  some schedule completes everything and never runs it (`Dataflow.RepeatedInputCanHang`);
- `longest_common_subpath` meets its documentation exactly when no path after the first lies at
  or above all the others (`Paths.LongestCommonSubpath`);
- an exchanged item arrives as it was offered exactly when it is not the sentinel that stands
  for nil (`Exchanger.ExchangesAreAMatching`).

Money is `real`. Ruby's `nil` is modelled where the code meets it, as an `Option` or as an error.

## Model

| member | source | states |
|---|---|---|
| `Exchanger.ExchangesAreAMatching` | lib/concurrent/exchanger.rb:255-287 | in any interleaving of any number of calls, whoever returned a value or met a partner is in exactly one pair, never with itself, and each holds what the other offered; nil survives the sentinel both ways |
| `Exchanger.SwapIsForever` | lib/concurrent/exchanger.rb:259-285 | a pair once made is never remade, whatever happens later |
| `Exchanger.CancelledIsNeverDelivered` | lib/concurrent/exchanger.rb:274-284 | the item of a call that returned CANCEL is delivered to nobody, then or later, including calls that looped on with a spent hole |
| `Exchanger.UntimedNeverCancels` | lib/concurrent/exchanger.rb:257-284 | a call without timeout never returns CANCEL |
| `Exchanger.SentinelArrivesAsNil` | lib/concurrent/exchanger.rb:255-287 | a concrete run in which the sentinel is offered and nil received |
| `Exchanger.NoLostWakeUp` | lib/concurrent/exchanger.rb:259-273 | when no call can move, all have returned except at most one: unmatched, untimed, and sitting in the slot |
| `ExchangerProgress.MeetsTheOccupier` | lib/concurrent/exchanger.rb:259-266 | a call that runs alone takes whoever waits in the slot out of it and, exactly if the other's hole is not spent, returns with its item in its fourth action |
| `ExchangerProgress.OccupierReturns` | lib/concurrent/exchanger.rb:267-284 | the one met, running alone, returns with the other's item, were it on its way out or not |
| `ExchangerProgress.UnmetOccupierLeaves` | lib/concurrent/exchanger.rb:267-276 | an occupier nobody met waits while it has time, and then leaves the slot and returns CANCEL |
| `ExchangerProgress.LostOccupierGoesOn` | lib/concurrent/exchanger.rb:277-284 | one that lost the slot blocks its hole and starts over, unless its time is up; or finds the hole filled and returns that |
| `ExchangerProgress.LateCallsReturn` | lib/concurrent/exchanger.rb:257-284 | from any reachable state a timed call returns within six actions of its own once its deadline has passed |
| `Exchanger.RunKeepsInv` | lib/concurrent/exchanger.rb:259-285 | a node is in the slot only while its owner waits or withdraws, and a hole leaves nil at most once, after every action |
| `IVar.OutcomeIsFinal` | lib/concurrent/ivar.rb:194-198 | once complete, state, value and completer never change |
| `IVar.OneCallWins` | lib/concurrent/ivar.rb:112-136 | when no call can go on and `set` or `fail` was called, exactly one of those calls has returned normally, the one that completed the cell, and all the others raised; none exactly if the claiming `set` was left by what its rescue does not take and nobody called `fail` |
| `IVarOutcome.WinnerDecides` | lib/concurrent/ivar.rb:112-198 | a complete cell holds what its winner's block or task did in the run: fulfilled with the value it returned, rejected if it raised; one completed by `fail` or `cancel` is rejected |
| `IVarOutcome.FirstSetSucceeds` | lib/concurrent/ivar.rb:112-125 | a `set` that finds the cell pending and is not interfered with completes it with its block's outcome |
| `IVarOutcome.FailSucceeds` | lib/concurrent/ivar.rb:135-136 | a `fail` that finds it incomplete rejects it |
| `IVarOutcome.FirstAssignSchedules` | lib/concurrent/future.rb:80-90 | a future's `set` schedules its task exactly if none was scheduled, and else raises |
| `IVarOutcome.LateAssignRaises` | lib/concurrent/future.rb:80-90 | one that comes too late does nothing but raise, whatever happens meanwhile |
| `IVar.StalledForGood` | lib/concurrent/ivar.rb:112-125 | after such a `set`, as long as nobody calls `fail`, the cell stays incomplete and every further `set` raises, in every later state |
| `IVar.FuturesNeverStall` | lib/concurrent/future.rb:53-106 | a future cannot get there: its task runs where every exception is rescued |
| `IVar.QuietCellsAreComplete` | lib/concurrent/future.rb:53-106 | when no call can go on, a cell on which `set` or `fail`, or for a future also `execute`, was called is complete if and only if it did not stall that way, and its completer has returned |
| `IVar.ReturningCallWon` | lib/concurrent/ivar.rb:194-198 | at any time, a `set` or `fail` that returned normally is the one that completed the cell |
| `IVar.ObserversAreToldOnce` | lib/concurrent/ivar.rb:80-99 | an observer is told at most once, only after completion, and when all calls are through and one of them settles the cell exactly once, or not at all exactly if the cell stalled, whichever way registration and completion raced |
| `IVar.RunKeepsInv` | lib/concurrent/ivar.rb:167-198 | every observer is in exactly one place: the set, the winner's hands, on its own way, or told |
| `IVar.CancelExcludesTheTask` | lib/concurrent/future.rb:99-106 | after a cancel that succeeded the future's task is not being run, and never will be |
| `IVarOutcome.EarlyCancelSucceeds` | lib/concurrent/future.rb:99-106 | a cancel that comes before the task is picked up rejects the future, and the task is never run |
| `IVar.TaskExcludesCancelling` | lib/concurrent/ivar.rb:167-173 | while the task is being run no cancel has succeeded, and none ever will |
| `Dataflow.BlockWaitsForAll` | lib/concurrent/dataflow.rb:9-18 | for any inputs and schedule the block runs at most once, and only when the registering loop is through and all inputs are complete |
| `Dataflow.DistinctInputsRunOnce` | lib/concurrent/dataflow.rb:63-79 | with distinct inputs, when all has happened the block has run exactly once |
| `Dataflow.RepeatedInputCanHang` | lib/concurrent/dataflow.rb:71-75 | for every input list with a repetition there is a schedule in which all inputs complete, every notification arrives and the block never runs |
| `Agent.JobsAreSerial` | lib/concurrent/agent.rb:528-567 | at most one worker, at the head of the queue, and one exactly while there is work and no failure |
| `Agent.JobsRunInOrder` | lib/concurrent/agent.rb:509-567 | no job runs twice, actions run in the order sent, and the actions and awaits filed under one thread in that order too |
| `Agent.AwaitMeansDone` | lib/concurrent/agent.rb:335-347 | when a latch is open, none of the actions its thread had dispatched before, itself or from within an action of its own, is left in the queue, provided no thread sends with a caller left behind on it |
| `Agent.AwaitMeansFiledIsDone` | lib/concurrent/agent.rb:515-526 | when a latch is open, no job filed before under its thread is left in the queue, in any run |
| `Agent.AwaitWaitsIff` | lib/concurrent/agent.rb:509-548 | a thread that sends an action and awaits it finds it over in every schedule if and only if its `@caller` was unset or itself |
| `Agent.FailureIsReachable` | lib/concurrent/agent.rb:542-567 | an action that raises on a pool thread leaves its caller's number there, and with mode `:fail` a failed agent whose worker is in its error handler |
| `Agent.NoJobIsLost` | lib/concurrent/agent.rb:528-567 | unless a restart takes effect and clears the queue, every job dispatched was called, opened its latch or is still pending |
| `Agent.NoUpdateIsLost` | lib/concurrent/agent.rb:542-573 | the value is the initial one carried through a chain of validated updates, each computed from the value the one before it left |
| `AgentHistory.ValueIsTheLastBrought` | lib/concurrent/agent.rb:542-573 | in any run the updates of the value are, in order, exactly the values returned by the actions called that the validator took and those of the restarts that took effect; the value is the last of them, or the initial one |
| `AgentHistory.FailsIff` | lib/concurrent/agent.rb:542-567 | an agent is failed exactly if its mode is `:fail`, an action raised, returned what the validator refuses or made an observer raise since the last effective restart, and that has been recorded |
| `AgentHistory.EveryDispatchCounts` | lib/concurrent/agent.rb:509-567 | jobs are numbered by the dispatches a run makes; unless a restart clears the queue, each of them was called, opened its latch or is pending |
| `Agent.InsertionNeverReorders` | lib/concurrent/agent.rb:528-536 | `send` and `await` insert one job and leave the others in their order |
| `Agent.LastOf` | lib/concurrent/agent.rb:583-585 | the last job of the caller, or none |
| `Agent.RestartIsSafeIff` | lib/concurrent/agent.rb:423-434 | after a restart that keeps the queue jobs run at most once in every schedule if and only if no worker was about |
| `Agent.ClearingRestartIsSafeIff` | lib/concurrent/agent.rb:423-434 | after one that clears it no later job is lost or run twice, in any schedule, if and only if no worker was about |
| `Agent.EarlyClearLosesAJob` | lib/concurrent/agent.rb:430-431 | a clearing restart while the failing worker is still leaving makes it remove the next job sent, which no later schedule ever runs |
| `Async.OneLoopWhileThereAreCalls` | lib/concurrent/async.rb:323-356 | a drain loop exists exactly while the queue is not empty, and never two, as long as no client completes a result still due and no method raises what is no `StandardError` |
| `Async.CallsArePerformedInOrder` | lib/concurrent/async.rb:340-356 | every call made arrives, calls are performed in the order of arrival, each at most once and with the outcome its method had in the run, whatever clients and methods do |
| `Async.EveryCallIsAnswered` | lib/concurrent/async.rb:345-349 | under the same conditions a result is what its call gave, and with an empty queue every call has one |
| `Async.ResultsAreFinal` | lib/concurrent/async.rb:345-349 | a result once there never changes |
| `Async.MeddlingStopsTheMailbox` | lib/concurrent/async.rb:345-354 | once a client completes the result of a call still due, in no schedule is a later call performed |
| `Async.AbortStopsTheMailbox` | lib/concurrent/async.rb:340-354 | once a method raises what is no `StandardError`, its call stays at the head of the queue, and in no schedule is there a loop or another call performed |
| `Async.MailboxDrainsIff` | lib/concurrent/async.rb:340-356 | in every reachable state some schedule empties the queue if and only if it is empty, or there is a loop and none of the calls still to be completed has its result |
| `CallbackMeaning.CompileKeepsMeaning` | lib/active_support/callbacks.rb:563-570 | running the compiled nested form equals the recursion over the chain: same trace, halted flag and value, for all chains and conditions |
| `CallbackLaw.RunsAreLawful` | lib/active_support/callbacks.rb:103-127 | every run obeys the law of its trace: a callback that is not passed over asks its conditions in turn up to the first unfavourable answer, and runs exactly if all were favourable; a before halts exactly if the user says so; an after is silent after a halt exactly under `skip_after_callbacks_if_terminated`; the block runs exactly if it is given, nothing halted and every around that started yielded, and the value is then what the block produced |
| `CallbackLaw.OnlyRunsAreLawful` | lib/active_support/callbacks.rb:103-127 | the law determines the run: a trace and a value obey it if and only if they are the run's |
| `CallbackLaw.RunsInOrder` | lib/active_support/callbacks.rb:651-655 | after a halt nothing is entered, asked or yielded to and the value is false; exactly the arounds that started end |
| `CallbackLaw.SteadyConditions` | lib/active_support/callbacks.rb:365-372 | with conditions that do not depend on what happened before, a callback runs if and only if all its `if`s hold and none of its `unless`es |
| `CallbackMeaning.ApplyMeans` | lib/active_support/callbacks.rb:334-346 | applying a before or an after to a sequence puts its effect before or after the sequence's |
| `Callbacks.CallbackSequence.Apply` | lib/active_support/callbacks.rb:482-494 | changes the sequence in place, or wraps it, as the pure `Apply` does to its value |
| `Callbacks.Run.InvokeBefore` | lib/active_support/callbacks.rb:512-514 | the befores of a level, in turn |
| `Callbacks.Run.InvokeAfter` | lib/active_support/callbacks.rb:516-518 | the afters of a level, in turn |
| `Callbacks.Run.PopSkipped` | lib/active_support/callbacks.rb:124-124 | the afters of the skipped levels, last skipped first |
| `Callbacks.Run.CallAround` | lib/active_support/callbacks.rb:115-121 | an around callback given the loop itself as its block; the next sequence is put back |
| `Callbacks.Run.Enter` | lib/active_support/callbacks.rb:106-122 | one level of the loop: its befores, then block, skip or around; with its afters still to run that is the meaning of the level |
| `Callbacks.Run.InvokeSequence` | lib/active_support/callbacks.rb:103-127 | the loop with its stack of skipped levels computes the meaning of the nested sequences, and ends |
| `Callbacks.RunCallbacks` | lib/active_support/callbacks.rb:94-139 | whatever is cached, trace and value are the ones the law allows for the current chain, and those of the recursion over it; an empty chain without a block does nothing |
| `Callbacks.CallbackChain.Compile` | lib/active_support/callbacks.rb:563-570 | returns and caches the sequences of the current chain |
| `Callbacks.CallbackChain.RemoveDuplicates` | lib/active_support/callbacks.rb:597-600 | drops the cache and every callback the new one duplicates |
| `Callbacks.CallbackChain.Append` | lib/active_support/callbacks.rb:572-589 | the cache stays coherent; the chain is the one registration promises |
| `Callbacks.CallbackChain.Prepend` | lib/active_support/callbacks.rb:576-595 | the same at the other end |
| `Callbacks.DeleteUndoesInsert` | lib/active_support/callbacks.rb:541-549 | deleting a callback undoes its insertion, wherever that was |
| `Callbacks.DeleteRemovesOne` | lib/active_support/callbacks.rb:546-549 | deleting takes off exactly that callback and leaves the others in order |
| `Callbacks.CallbackChain.SkipOne` | lib/active_support/callbacks.rb:697-710 | raises exactly when asked to and nothing matches; else the chain is the skipped one and the cache coherent |
| `Callbacks.SetKeepsUnique` | lib/active_support/callbacks.rb:667-679 | registration leaves each symbol at most once per kind, the last one at the end that was asked for |
| `Callbacks.SetKeepsOrder` | lib/active_support/callbacks.rb:572-600 | callbacks that do not duplicate one another all end up at the end asked for, in the order given or reversed, behind or before the rest of the chain in its order: all but the callbacks of their kind that name the same method |
| `Callbacks.SkipTouchesOne` | lib/active_support/callbacks.rb:691-713 | skipping removes one callback, or replaces it where it stood, and leaves the rest alone |
| `Callbacks.MergedRunsUnlessSkipped` | lib/active_support/callbacks.rb:308-318 | a callback skipped under conditions runs if and only if it would have, no skipping `if` holds and every skipping `unless` does |
| `Callbacks.SkipKeepsUnique` | lib/active_support/callbacks.rb:697-710 | skipping never brings back a duplicate |
| `Callbacks.UpdatesKeepUnique` | lib/active_support/callbacks.rb:324-331 | after any registrations and skips a symbol occurs at most once per kind |
| `Callbacks.Find` | lib/active_support/callbacks.rb:320-322 | the first callback of a kind and filter, or none; a block is named by its identity and found by nothing |
| `Callbacks.ProcsAreNeverSkipped` | lib/active_support/callbacks.rb:365-373 | so skipping a block finds nothing and leaves any chain as it is |
| `WatchStack.EachConstantIsReportedOnce` | lib/active_support/dependencies.rb:113-148 | over any nesting of watches no constant is reported twice, each by the watch that was innermost on its namespace when it appeared, and none owed to a closed watch is missing |
| `WatchStack.StacksAreRestored` | lib/active_support/dependencies.rb:145-166 | with all watches closed every list is off its stack and everything owed is reported |
| `WatchStack.OwedToTheInnermost` | lib/active_support/dependencies.rb:86-98 | a constant becomes owed exactly when it appears under a watched namespace, to the innermost watch on it, for good |
| `WatchStack.WatchStack.WatchNamespaces` | lib/active_support/dependencies.rb:152-161 | pushes the names and the constants present now |
| `WatchStack.WatchStack.NewConstants` | lib/active_support/dependencies.rb:115-148 | reports, teaches every outer list and pops, as the specification functions say |
| `WatchStack.WatchStack.PopModules` | lib/active_support/dependencies.rb:164-166 | one list off each named stack |
| `WatchStack.LearnAllLearns` | lib/active_support/dependencies.rb:119-137 | every list of a watched namespace learns what was new under it, once even if it is named twice |
| `WatchStack.FoundIsFresh` | lib/active_support/dependencies.rb:128-142 | reported is exactly what the innermost list did not hold |
| `Paths.FilterOutDescendants` | lib/active_support/evented_file_update_checker.rb:178-194 | in original order, exactly the paths with no proper ancestor in the collection |
| `Paths.RootsAreTopMost` | lib/active_support/evented_file_update_checker.rb:177-194 | membership of the result: in the collection and no proper ancestor in it |
| `Paths.RootsCover` | lib/active_support/evented_file_update_checker.rb:177-202 | every path lies at or below one kept, and none kept lies below another |
| `Paths.Reject` | lib/active_support/evented_file_update_checker.rb:187-189 | keeps those not below the directory and collects those below it, in order |
| `Paths.LongestCommonSubpath` | lib/active_support/evented_file_update_checker.rb:149-168 | the longest prefix of the first path properly above all the others, none exactly if there is no path or a later one is the root; it is the documented longest common path if and only if no later path lies at or above all the others |
| `Paths.MeetsItsDocumentation` | lib/active_support/evented_file_update_checker.rb:147-168 | that equivalence for any result of the loop |
| `Paths.OrderMatters` | lib/active_support/evented_file_update_checker.rb:154-165 | a concrete case: of /a and /a/b the result depends on which comes first |
| `Amounts.TruncateMonotone` | app/models/market.rb:45-48 | cutting to a market's precision preserves order |
| `Amounts.TruncateShrinks` | app/models/market.rb:45-48 | it moves toward zero by less than one unit of the last digit |
| `Amounts.TruncateToNothing` | app/models/market.rb:45-48 | it cuts to nothing exactly what is less than one unit |
| `Amounts.TruncateIdempotent` | app/models/market.rb:45-48 | a price at that precision is left alone |
| `Estimate.EstimateRequiredFunds` | app/models/order.rb:137-157 | the loop computes the funds or fails as the recursive specification does |
| `Estimate.EstimateIsOptimal` | app/models/order.rb:144-151 | on an ascending book the walk's cost is the least over all allocations filling the volume within the level sizes |
| `Estimate.NothingCheaper` | app/models/order.rb:144-151 | no allocation is cheaper than the walk |
| `Estimate.UnfilledIsShortfall` | app/models/order.rb:144-153 | the walk runs dry by exactly what the book is short of |
| `Estimate.BidEstimate` | app/models/order.rb:137-157 | a bid's estimate: beyond the depth the market is not deep enough; else, if the level that fills the volume is over 90% above the first, the volume is too large; else what the levels up to it cost, between start * volume and 1.9 * start * volume |
| `Estimate.AskEstimate` | app/models/order.rb:137-157 | an ask's: the same with a level that pays less than a tenth of the first, and else the volume |
| `Estimate.DegenerateBooks` | app/models/order.rb:141-154 | an empty book fails for want of a first price, or of depth if there is a volume to fill; a first price of zero always fails |
| `Estimate.AskEstimateIsVolume` | app/models/order_ask.rb:24-31 | for a market ask the estimate is the volume, of any book |
| `Accounts.ApplyIsSound` | app/models/account.rb:58-116 | from any stale copy, a committed operation leaves both amounts non-negative and a log the audit accepts; it commits exactly when the guard passes on the copy and the row can bear the change, and does to the row what it does from a current copy |
| `Accounts.GuardIff` | app/models/account.rb:58-83 | a guard passes exactly if the amount is positive, fee or part fit, and the change leaves the copy without overdraft; and which of the two errors it raises |
| `Accounts.ApplyMoves` | app/models/account.rb:58-83 | what each of the five operations does to balance and lock |
| `Accounts.ApplyRecords` | app/models/account.rb:118-132 | the version records by how much balance and lock have each changed and what they come to |
| `Logs.LogsAddUp` | app/models/account.rb:118-132 | over any run, the balance column of an account's log adds up to its balance and the locked column to its lock |
| `Accounts.OneMoreVersion` | app/models/account_version.rb:78-80 | a version whose amount continues the running sum keeps the log examinable |
| `Accounts.LateVersionAddsUpIff` | app/models/deposit.rb:103-105 | when the balance is raised outside a transaction and its version inserted afterwards, the log adds up if and only if no other operation came in between |
| `Accounts.Account.RecordVersion` | app/models/account.rb:85-116 | appends one version or raises, after at most one retry |
| `Accounts.Account.Operate` | app/models/account.rb:47-116 | a fund operation as one transaction: exactly what `Apply` says, or an error and the row as it was |
| `Accounts.AccountRecord.OptimisticallyInsert` | app/models/account_version.rb:43-68 | inserts exactly when the passed balances are the row's |
| `Accounts.AccountRecord.Examine` | app/models/account.rb:142-150 | true exactly when every version's amount is the running sum and the last is the account's |
| `Orders.PreparedIff` | app/models/order.rb:121-133 | which new orders are taken, and what is kept of them: price at the quote's, volumes at the base's precision, everything else as it was or at its start |
| `Orders.PreparedIsOk` | app/services/ordering.rb:35-42 | an order whose lock went through is sound: positive volume and lock, price at the market's precision, a limit bid's lock its limit times its volume |
| `Orders.AskLocksItsVolume` | app/models/order_ask.rb:24-31 | an ask of either type locks exactly its volume |
| `Orders.LimitBidLocksEnough` | app/models/order_bid.rb:26-28 | what a limit bid locks covers any trades within its limit and volume |
| `Orders.MarketBidLocksTheBuffer` | app/models/order_bid.rb:29-31 | what a market bid locks is 1.1 times the least its volume costs on the book |
| `Orders.DustIsPublishedAsNothing` | app/models/matching/engine.rb:93-95 | the engine publishes volume 0 for a market bid exactly when less than one unit's worth of its lock is left |
| `Orders.DustExample` | app/models/matching/engine.rb:93-95 | a concrete one |
| `Orders.StrikeKeepsOrder` | app/models/order.rb:60-92 | a matching trade, be its funds those of the cut or the uncut volume, keeps an open order sound; only a market bid can be cancelled by it |
| `Orders.StrikeDecides` | app/models/order.rb:80-90 | a matching trade on an open order of any side and type: DONE if it is all that was left, CANCEL if it is a market bid with volume left and nothing locked, else WAIT |
| `Orders.CoveredIffWithinLimit` | app/models/order_bid.rb:26-28 | the lock of a limit bid covers the rest of its volume if and only if it paid no more than its limit for what it received |
| `Orders.StrikeKeepsCoverIff` | app/models/matching/engine.rb:93-95 | one trade leaves it covered exactly if its funds are within the limit for the published volume and the margin there was |
| `Orders.CoveredBidIsSound` | app/models/order_bid.rb:19-28 | a covered bid has an average price within its limit and, while open, something locked |
| `Orders.OverpaidBidRunsDry` | app/models/matching/engine.rb:90-104 | two concrete trades of the engine after which a limit bid is open with volume 0.0001 and nothing locked |
| `Orders.OverpaidBidAverages` | app/models/matching/engine.rb:90-104 | a concrete trade after which a bid at 3.20 has paid 5.00 on average |
| `Orders.AvgPriceRespectsLimit` | app/models/order_bid.rb:19-22 | the truncated average price of an ask is never below its limit; that of a bid is not above if and only if it paid less than one unit of the price more than its limit, for what it received |
| `Orders.MarketBidEndsDone` | app/models/order.rb:75-89 | a market bid struck by trades of exactly its volume and at most its lock ends DONE, passing through no other final state |
| `Orders.BufferedBidEndsDone` | app/models/order_bid.rb:24-33 | so does one with the 1.1 buffer, for any trades costing at most 1.1 times the estimate |
| `Statements.StrikeMoves` | app/models/order.rb:60-92 | what a committed strike does to the balance and the lock of every account |
| `Statements.MarketBidIsSettled` | app/models/order.rb:60-92 | after its strikes exactly the unspent part of a market bid's lock is back on the balance, nothing of it locked, and the gain credited less the fees |
| `Statements.BufferedBidIsSettled` | app/models/order_bid.rb:24-33 | the same for the lock of 1.1 times the estimate |
| `Statements.BalancesAreAccountedFor` | app/models/account.rb:161-167 | in every reachable state every balance is its credited deposits, less its withdraws done, plus what trades brought and less what they took, less what is on hold |
| `Statements.TradeFlow` | app/models/matching/executor.rb:55-61 | the two strikes of a trade move on every account exactly what the trade brings and takes |
| `Ledger.FundsAreConserved` | app/models/order.rb:60-92 | over every run and in every currency, accounts hold the accepted deposits less the withdraws done and the fees of all trades; exactly so once the crediting hooks have run |
| `Ledger.DepositsAreCreditedOnce` | app/models/deposit.rb:34-66 | an accepted deposit has one crediting hook, due or run, however events and payment checks interleave, and a due one goes through |
| `Ledger.LockedIsOnHold` | app/models/account.rb:58-83 | in every reachable state locked is the sum of the open orders' locks and the withdraws under way, both amounts are non-negative and the log adds up |
| `Ledger.AuditNeverSuspects` | app/models/withdraw.rb:138-149 | in every reachable state the audit accepts a submitted withdraw, processes a quick one, and never reaches the suspecting branch |
| `Ledger.OrdersAreBooked` | app/models/order.rb:39-41 | in every reachable state funds used and received and the number of trades are those of the order's trades, it is DONE if and only if no volume is left, and, unless it is a limit bid, has something locked while open; an ask locks what is left of it and sells at its limit or better |
| `Lifecycles.TermsNeverChange` | app/models/order.rb:60-92 | over any run an order's terms never change, what is left and what was filled always make the same volume, and an order that is no longer open never changes at all |
| `Ledger.LimitBidsAreWellIff` | app/models/order_bid.rb:19-28 | over runs: a limit bid's lock covers the rest of its volume if and only if its trades took no more than its limit for what they brought, and its average price is within the limit if and only if they took less than one unit of the price more |
| `Ledger.LimitBidsAreWell` | app/models/order_bid.rb:19-28 | over runs: both hold, and the lock of an open one is positive, if each of its trades took no more than the limit for the published volume |
| `Ledger.StaleCopyCovers` | app/services/ordering.rb:48-54 | a copy of the held account taken at any time since the order was submitted shows enough locked for what the order still holds |
| `Ledger.CancelGoesThrough` | app/services/ordering.rb:48-59 | so cancelling an open order raises exactly if nothing is locked for it, which can only be so for a limit bid |
| `Ledger.DryBidStaysOpen` | app/services/ordering.rb:48-59 | such a bid stays as it is in every later state: no trade can be executed on it and no copy lets it be cancelled |
| `Ledger.OpenOrdersCanBeCancelled` | app/services/ordering.rb:48-59 | over runs: with a copy taken at any time since submission, an open order can be cancelled if and only if something is locked for it |
| `Ledger.StrikeGoesThrough` | app/models/order.rb:60-92 | nor does a strike of a matching trade under fees of at most one half |
| `Ledger.TradeGoesThrough` | app/models/matching/executor.rb:22-62 | a trade the engine makes goes through on both sides if and only if both orders are open and its volume, which must be positive, and price fit both |
| `Ledger.TradesGoThroughInRuns` | app/models/matching/executor.rb:22-62 | over runs: the same, with copies taken at any time since the orders were submitted and the last one loaded inside the transaction |
| `Ledger.InsideCopyCovers` | app/models/order.rb:83-85 | the copy loaded inside the transaction shows enough locked for the last unlocking |
| `Ledger.WithdrawGoesThrough` | app/models/withdraw.rb:84-128 | a withdraw event goes through exactly from its listed states, submitting exactly if the balance suffices, and leads to its listed state |
| `Lifecycles.WithdrawsStayInReach` | app/models/withdraw.rb:72-128 | over any run a withdraw keeps its account and sum and gets only to the states listed for where it is; done, canceled, rejected, suspect and failed are final |
| `Lifecycles.WithdrawsReach` | app/models/withdraw.rb:72-128 | and to each of those some legal run brings it |
| `Lifecycles.DepositsStayInReach` | app/models/deposit.rb:34-66 | the same of a deposit |
| `Lifecycles.DepositsReach` | app/models/deposit.rb:34-66 | and to each of those some legal run brings it |
| `Journeys.CheckDecides` | app/models/payment_transaction.rb:20-51 | checking a payment accepts exactly the submitted deposit it was made for, exactly with enough confirmations, and makes the payment confirming or confirmed by its two thresholds |
| `Journeys.MoneyComesIn` | app/models/deposit.rb:43-105 | from any reachable state: a deposit asked for, submitted, paid, checked and credited raises its account by exactly its amount if there are enough confirmations, and else changes no account |
| `Journeys.FirstDeposit` | app/models/deposit.rb:43-105 | from nothing: an account is opened, empty, and holds what its first deposit brings |
| `Journeys.EventMoves` | app/models/withdraw.rb:84-170 | what each withdraw event moves between balance and lock of its own account, and that nothing else changes |
| `Journeys.MoneyGoesOut` | app/models/withdraw.rb:84-170 | from any reachable state: a withdraw the balance covers, submitted, audited, sent and done, takes exactly its sum off the balance |
| `Journeys.CancelledWithdrawLeavesNothing` | app/models/withdraw.rb:89-94 | submitted and cancelled, it leaves every account as it was |
| `Journeys.SubmitGoesThrough` | app/services/ordering.rb:35-42 | an order is taken exactly if it can be prepared and both the copy and the row have its positive lock, and moves exactly that to the lock |
| `Journeys.CancelUndoesSubmit` | app/services/ordering.rb:48-59 | cancelled at once, it leaves every account as it was |
| `Ledger.ReachableIsInv` | app/models/order.rb:60-92 | the invariant behind these holds after every legal run |
| `Ledger.TradeKeepsInv` | app/models/matching/executor.rb:48-62 | both strikes of a trade keep it: they leave nothing behind but the fees |
| `Ledger.SubmitAllKeepsInv` | app/services/ordering.rb:9-12 | so does a batch of orders |
| `Ledger.CancelAllKeepsInv` | app/services/ordering.rb:27-31 | and a batch of cancellations |
| `Ledger.WithdrawKeepsInv` | app/models/withdraw.rb:153-170 | and every withdraw event with its fund operation |
| `Ledger.CheckingKeepsInv` | app/models/payment_transaction.rb:20-51 | and checking a payment, any number of times |
| `Ledger.CreditKeepsInv` | app/models/deposit.rb:103-105 | and crediting a deposit |
| `Ledger.PostingsAddUp` | app/models/account.rb:161-167 | a committed list of fund operations keeps every row sound and moves exactly its net |
| `Exchange.Books.Strike` | app/models/order.rb:60-92 | the steps of `strike`, and when one raises |
| `Exchange.Books.ExecuteTrade` | app/models/matching/executor.rb:48-62 | the executor's transaction is the ledger's trade event |
| `Exchange.Books.DoSubmit` | app/services/ordering.rb:35-42 | the steps of submitting one order |
| `Exchange.Books.Submit` | app/services/ordering.rb:9-21 | all orders or none: a failing batch changes nothing |
| `Exchange.Books.Cancel` | app/services/ordering.rb:27-31 | all orders or none |
| `Exchange.Books.Fire` | app/models/withdraw.rb:84-128 | an event with its fund operation, or nothing |
| `Exchange.Books.AuditWithdraw` | app/models/withdraw.rb:138-149 | the audit is the ledger's audit event |

## Left out

- The concurrency files are modelled as state machines over their atomic steps, not as objects: the interleaving is the point, and a method contract cannot speak of it.
- Time: a timed wait may time out at any moment, and a deadline may have passed at any check. `exchange`, `exchange!` and `try_exchange` only translate the result of the modelled call.
- Exceptions inside callbacks: conditions, callbacks and the block return. An around callback yields at most once.
- Callback templates, scopes and custom terminators: a filter is a symbol or an object, and a before callback halts or does not. Calls made inside user code are decided by an arbitrary function of the trace so far.
- `Callbacks.UpdatesKeepUnique`: follows one class, because registration treats its descendants one after the other in the same way.
- Which task an unscheduled future is given by `set`: only that it is given one and executed.
- Observers that raise, except an agent's; exceptions that are no `StandardError`, except from a cell's block, an agent's action and an `async` method; dereferencing options and timed waits on results.
- The reads of an input's value inside a dataflow's task, and the executors.
- Namespaces are named by their normalized constant names; constants are never removed while files are loaded, and a namespace that is not a module has none.
- `Paths.LongestCommonSubpath`: paths have one root; drives are not modelled.
- State machine library: an event fires only from a listed state, with its callbacks, on the current row. `AASM::Locking` takes the row lock only when the state is written, so two processes that both checked a stale state are outside this model; so are callbacks that run before the row lock.
- `Ledger.DepositsAreCreditedOnce`: takes the after-commit hook to run once per entry into the accepted state, in a transaction of its own, though app/models/deposit.rb:103 opens none. `Accounts.LateVersionAddsUpIff` says what becomes of the log when there is none.
- The database: a transaction is atomic and row locks are held to its end; decimal columns do not round.
- The matching engine: its trades are taken to have a positive price, funds of at least price times the published volume and within what the bid has locked, and both orders in one market.
- `Ledger.TradeGoesThrough`: takes fee rates in [0, 1/2], different base and quote currencies, and copies of the held accounts that show enough locked; `Ledger.TradesGoThroughInRuns` has the copies from anywhere in the run.
- `Ledger.CancelGoesThrough`: takes such a copy too; `Ledger.OpenOrdersCanBeCancelled` has it from anywhere in the run.
- `Agent.AwaitWaitsIff`: takes some value to pass the validator, without which a failed agent could never be restarted.
- Escrows and money exchange, whose locks bypass the version rows; other reasons to lock funds would appear as one more term in the sums.
- Withdraw fees and precision: `sum` is the amount moved. Address checks before a coin withdraw's audit, sending coins, mail, messages, caches and push notifications are input and output.
- The other members of the account's version rows: reason, reference and time.
