# A verified model of the exchange core

The repository runs a spot exchange on one core thread: orders, deposits and withdrawals arrive as commands, change
books and balances in memory, and are answered only after a journal worker has made them durable; an output worker
publishes what was committed. This project models that core and proves what it promises, in six layers.

1. `Amount`, `Acceptance`, `Text`: exact money, and what every check accepts. Amounts are counts of 1e-9 units; every
   operation fails instead of rounding, and the largest quantity a budget can pay for exactly is found by number theory.
   Printing and reading are inverse.
2. `Types`, `Matcher`, `MatchingLaws`, `OrderLaws`, `PriorityLaws`, `BookLaws`, `PlanFailures`, `Edges`: one side of a
   book is a list in price-time priority, and a plan is a walk over it. `OrderBooks` and `Planner` are the stored form,
   queues per price and a plan updated in place, proved equal to the walk.
3. `Balances`, `BalanceLaws`, `BalanceCaches`, `Submission`, `SubmissionLaws`, `TradeLaws`, `Workspace`: reservation,
   settlement with fees and refund of one order, on a sparse copy.
4. `Core`, `CoreLaws`, `ReserveLaws`, `BackingLaws`, `ConservationLaws`, `MoneyLaws`, `RetryLaws`, `RefusalLaws`: the
   command machine with its dedup indexes, and what holds over every run. `Engine` is the same machine as mutable state.
5. `Market`, `MarketLaws`, `MarketRuns`, `SnapshotLaws`, `MarketProjection`: the public order book, rebuilt from the journal alone.
6. `Journal`, `EventLaws`, `Store`, `Output`, `Audit`, `Protocol`, `JournalSafety`, `DeliverySafety`, `ReplyLaws`: commit,
   acknowledge, deliver, crash and recover, as interleaved steps of three threads.

Where the source works on fields step by step, a class with methods does too, and each method's contract equates the new
state with a function of the old one; the laws are proved about those functions. What a command does to each account, each
book, each event and each snapshot is also stated in plain arithmetic, without naming the functions that compute it.
`dafny verify dfyconfig.toml` checks everything.

Some things one might expect are not so, and each has its exact condition.

- A book can be crossed: `Edges.OwnOrdersCrossInARun` is a run, `Edges.CrossedExactly` says when, and
  `CoreLaws.ReachableBooksUncrossed` that it is only ever one user's orders that meet.
- A market buy can pass over a better price (`Edges.MarketBuyMayTradeAtAWorsePrice`); `Edges.PassedOverExactly` says when.
- A resting sell need not be quotable at its own price (`Edges.SellRemainderMayBeInexact`);
  `Edges.RemainderIsExactWhenFilledIs` says when it is. Such a sell at the front refuses every limit buy that would take all
  of it (`PlanFailures.FrontAskRefusesBuys`).
- A refused withdrawal step need not stay refused (`RefusalLaws.RefusedReleaseSucceedsLater`);
  `RefusalLaws.RefusedForGoodExactly` says when it does.
- The output worker can end well with a committed record unsent (`DeliverySafety.AmbiguousCommitEndsEarly`), until the next
  start delivers it; `DeliverySafety.OutputEndsWhenAllIsDelivered` says when.

## Model

| member | source | states |
|---|---|---|
| Amount.UnitsOfDecimalOf | src/domains/cex/engine/amount.rs:13-37 | `units(decimal(a)) = a` for every in-range count; a decimal exists exactly when the shortest mantissa fits 96 bits |
| Amount.DecimalOfUnits | src/domains/cex/engine/amount.rs:13-37 | every decimal accepted by `units` has a storable count, and the count gives the normalized decimal back |
| Amount.UnitsAcceptsExactlyWholeUnits | src/domains/cex/engine/amount.rs:13-28 | `units` accepts a decimal with a count if and only if the decimal is worth exactly that many 1e-9 units, within NUMERIC(30,9) |
| Amount.QuoteMeaning | src/domains/cex/engine/amount.rs:40-49 | a quote is the exact product, in range and storable, and positive for positive operands; it never rounds |
| Amount.FeeMeaning | src/domains/cex/engine/amount.rs:92-99 | a fee is the truncated product: never negative, never above what is received, and within one unit of the exact share |
| Amount.ExactSplit | src/domains/cex/engine/amount.rs:40-49 | splitting off an exactly quotable part splits the value, and the rest is exact if and only if the whole is |
| Amount.ExactIffStepDivides | src/domains/cex/engine/amount.rs:79-87 | price times quantity is a whole number of units if and only if FACTOR/gcd(price, FACTOR) divides the quantity |
| Amount.PayableIff | src/domains/cex/engine/amount.rs:74-87 | a quantity is exact and within the budget if and only if it is a multiple of the step and at most budget*FACTOR/price |
| Amount.BudgetQuantityIsGreatest | src/domains/cex/engine/amount.rs:68-88 | the result is the greatest quantity within the maker remainder that can be paid for exactly within the budget |
| Amount.BudgetQuantityCanBeQuoted | src/domains/cex/engine/amount.rs:68-88 | quoting the chosen quantity can fail only because its value has no decimal: never for rounding, range or overspending |
| Amount.QuantityForBudget | src/domains/cex/engine/amount.rs:68-88 | the remainder loop on two mutable numbers computes that quantity, with the same failures in the same order |
| Acceptance.StorableExactly | src/domains/cex/engine/amount.rs:31-37 | a count is storable if and only if some 96-bit decimal of scale at most 28 is worth exactly that many units |
| Acceptance.AddAccepts | src/domains/cex/engine/amount.rs:52-58 | adding succeeds if and only if both amounts are nonnegative and the sum is in range and storable, and gives the sum |
| Acceptance.SubtractAccepts | src/domains/cex/engine/amount.rs:60-64 | subtracting succeeds if and only if the difference of two amounts in range is nonnegative and storable, and gives it |
| Acceptance.QuoteAccepts | src/domains/cex/engine/amount.rs:40-50 | a quote is v if and only if v units are exactly the product, within range and storable |
| Acceptance.FeeAccepts | src/domains/cex/engine/amount.rs:92-99 | a fee is f if and only if the rate is below one with at most six places and f is the share rounded down, storable |
| Text.PrintQuantity | src/domains/cex/engine/runtime/market.rs:56-63 | padding, inserting the point and trimming in place produce the specified text |
| Text.QuantityTextIsDecimalText | src/domains/cex/engine/runtime/market.rs:56-63 | the public quantity text and the text a decimal is parsed from agree for every count |
| Text.PrintedReadsBack | src/domains/cex/engine/runtime/market.rs:56-63 | reading the printed text gives the normalized decimal of the count, worth exactly that many units, for every nonnegative integer |
| Text.TextsAreDistinct | src/domains/cex/engine/runtime/market.rs:56-63 | two different counts never print alike |
| Text.PrintedIsShortest | src/domains/cex/engine/runtime/market.rs:56-63 | no text that reads as the same value is shorter than the one printed |
| Text.DecimalIsReadFromItsText | src/domains/cex/engine/amount.rs:31-37 | formatting with nine places, trimming and parsing exactly succeeds for exactly the storable counts and yields their normalized decimal |
| Matcher.VisitMeaning | src/domains/cex/engine/matcher.rs:81-150 | a maker that passes every check is left alone only if it is the taker's own or no quantity is payable; otherwise one fill changes both orders, both totals and the change record as stated, and its trade names both orders, each on its side with its own fee rate, at the maker's price |
| MatchingLaws.WalkTotals | src/domains/cex/engine/matcher.rs:64-154 | totals, fills, budget and remaining quantity account for exactly the planned trades |
| MatchingLaws.WalkTradesSettle | src/domains/cex/engine/matcher.rs:124-141 | every planned trade is exact, between two users, in the order's pair, with the order's id, user and fee rate on its side, and no worse than the limit |
| TradeLaws.PlanTradesWith | src/domains/cex/engine/matcher.rs:75-141 | the planned trades are with makers of the other side, in their order: each carries that maker's id, user, price and fee rate, and the order's own id, user and fee rate |
| MatchingLaws.WalkTakesPrefix | src/domains/cex/engine/matcher.rs:64-154 | for quantity orders, from any point of the walk: the trades are the price-time prefix of eligible makers |
| MatchingLaws.WalkExhaustsBudget | src/domains/cex/engine/matcher.rs:75-151 | for budget orders, from any point of the walk: no other user's maker left behind admits a payable quantity |
| MatchingLaws.WalkClearsLimit | src/domains/cex/engine/matcher.rs:69-102 | if a quantity order is not filled, only its own orders and prices beyond its limit remain opposite |
| MatchingLaws.WalkKeepsOrders | src/domains/cex/engine/matcher.rs:28-38 | makers are only reduced or removed; every order left passes validation and continues one that was there |
| MatchingLaws.WalkKeepsPriority | src/domains/cex/engine/orderbook.rs:64-81 | the queue stays in price-time order with distinct ids |
| MatchingLaws.WalkCommits | src/domains/cex/engine/matcher.rs:28-38 | replacing the recorded makers in place and dropping the emptied ones gives exactly the walked queue, and every change names a maker of it |
| BookLaws.AcceptedOrderLeaves | src/domains/cex/engine/matcher.rs:28-38 | in the book after an accepted order each maker has lost exactly what was traded with it and is gone when nothing remains; the own side gains the unfilled part of a limit order and is otherwise as it was |
| PriorityLaws.StepKeepsTime | src/domains/cex/engine/orderbook.rs:40-81 | no command reorders what rests at one price, and what is new stands last there |
| PriorityLaws.PriceTimePriority | src/domains/cex/engine/matcher.rs:64-75 | in every reachable state one order stands before another on its side if and only if its price is better or the prices are equal and it was submitted earlier |
| OrderLaws.QuantityOrderTakesThePrefix | src/domains/cex/engine/matcher.rs:46-154 | limit orders and market sells trade with exactly the leading other users' makers within the limit, each in full except possibly the last, for min(amount, what they have) |
| OrderLaws.MarketBuyLeavesNothingPayable | src/domains/cex/engine/runtime/submission.rs:83-119 | after a market buy no other user's sell in the resulting book admits a further positive exact quantity within the refund |
| OrderLaws.MarketOrderReports | src/domains/cex/engine/runtime/submission.rs:101-119 | the completion names the order's id, user, side and assets and reports the true totals; reserved = used + refund; filled if and only if the refund is zero |
| OrderLaws.LimitOrderClearsItsLimit | src/domains/cex/engine/matcher.rs:69-102 | what a resting limit order leaves opposite it is its own user's or beyond its limit |
| Planner.MatchPlan.ChooseQuantity | src/domains/cex/engine/matcher.rs:103-108 | the budget loop or the smaller remainder, as specified |
| Planner.MatchPlan.Record | src/domains/cex/engine/matcher.rs:142-149 | records a changed maker under its price and refuses a second change of it |
| Planner.MatchPlan.Exchange | src/domains/cex/engine/matcher.rs:112-149 | one fill updates the plan's fields step by step and equals the specified fill, whose trade is `Matcher.VisitMeaning`, or fails with its first failure |
| Planner.MatchPlan.Consider | src/domains/cex/engine/matcher.rs:81-150 | one pass of the inner loop equals the specified visit of that maker |
| Planner.MatchPlan.PlanLevel | src/domains/cex/engine/matcher.rs:75-151 | the loop over one queue continues the walk past that level, whatever lies behind it |
| Planner.MatchPlan.PlanLevels | src/domains/cex/engine/matcher.rs:64-154 | the nested loops over sorted price levels and their queues compute the walk of the flat priority list |
| Planner.PlanOrder | src/domains/cex/engine/matcher.rs:46-62 | planning a stored book equals the specified plan, and changes nothing but the new plan |
| Acceptance.ValidateAccepts | src/domains/cex/engine/matcher.rs:159-225 | an order is valid, incoming or resting, if and only if its fields meet the stated terms |
| Planner.MatchPlan.CommitBook | src/domains/cex/engine/matcher.rs:28-38 | committing writes the changed makers and rests the remainder, as specified |
| Edges.PassedOverExactly | src/domains/cex/engine/matcher.rs:100-111 | a maker is passed over if and only if it is the order's own, or the order has a budget and no quantity of it is payable; that is, if and only if min(budget*FACTOR/price, remaining) is below the step of the price |
| Edges.OwnOrdersAreLeft | src/domains/cex/engine/matcher.rs:100-102 | an order that meets only its own user's orders trades nothing and leaves them all |
| Edges.OwnOrdersMayCross | src/domains/cex/engine/matcher.rs:100-102 | any two orders of one user whose prices meet leave a crossed book |
| Edges.CrossedExactly | src/domains/cex/engine/matcher.rs:28-38 | a limit order leaves a book crossed that was not if and only if it asks for more than all other users offer within its limit while an order of its own user stands within that limit |
| Edges.OwnOrdersCrossInARun | src/domains/cex/engine/matcher.rs:100-102 | a run of two submissions from a genesis after which the book is crossed |
| Edges.OwnMakersStay | src/domains/cex/engine/matcher.rs:100-102 | an order's own makers come out of any successful walk unchanged |
| Edges.MarketBuyMayTradeAtAWorsePrice | src/domains/cex/engine/matcher.rs:103-111 | an example in which a market buy skips the better price and trades at a worse one |
| Edges.RemainderIsExactWhenFilledIs | src/domains/cex/engine/runtime/submission.rs:84-90 | a limit order's remainder can be quoted at its own price if and only if min(amount, what other users offer within the limit) can |
| Edges.SellRemainderMayBeInexact | src/domains/cex/engine/runtime/submission.rs:84-90 | an example of a resting sell whose remainder cannot be quoted at its price |
| PlanFailures.PlanFailsOnlyFor | src/domains/cex/engine/matcher.rs:46-154 | planning a well-formed new order against a well-formed book fails only for rounding, range or storability, and never for rounding when it is a market buy |
| PlanFailures.FrontAskRefusesBuys | src/domains/cex/engine/matcher.rs:103-112 | an ask of another user at the front whose remainder cannot be quoted refuses, for rounding, every limit buy that would take all of it |
| OrderBooks.OrderBookSide.AddOrder | src/domains/cex/engine/orderbook.rs:40-44 | appends to the queue of the price and counts; as a flat list this is insertion last in time at its price |
| OrderBooks.OrderBookSide.RemoveOrder | src/domains/cex/engine/orderbook.rs:47-59 | finds by id within one level, drops an emptied level, keeps the count; with unique ids this is removal from the flat list |
| OrderBooks.ApplyToLevel | src/domains/cex/engine/orderbook.rs:64-78 | popping until the last change and pushing the kept prefix back equals mapping the changed makers in place; no change is ever missing |
| OrderBooks.OrderBookSide.ApplyPreparedLevel | src/domains/cex/engine/orderbook.rs:64-81 | one level: queue, cached count and empty level together |
| OrderBooks.OrderBookSide.ApplyPreparedOrders | src/domains/cex/engine/orderbook.rs:64-81 | all levels: the flat list becomes the committed list; order, no empty level and the cached count are kept |
| OrderBooks.RemoveAtIsRemove | src/domains/cex/engine/orderbook.rs:47-59 | where ids are unique, removing by id and price is removing by id |
| OrderBooks.OrderBook.AddOrder | src/domains/cex/engine/orderbook.rs:147-153 | adds to the side of the order |
| OrderBooks.OrderBook.RemoveOrder | src/domains/cex/engine/orderbook.rs:156-162 | removes from the named side |
| BalanceCaches.BalanceCache.ChangeReservation | src/domains/cex/engine/balance_cache.rs:150-174 | moves an amount between available and locked, or changes nothing |
| BalanceCaches.BalanceCache.StageChanges | src/domains/cex/engine/balance_cache/settlement.rs:58-92 | the loop over the four movements coalesces those of one account and stops at the first failure |
| BalanceCaches.BalanceCache.SettleTrade | src/domains/cex/engine/balance_cache/settlement.rs:14-111 | settles both assets of a trade, or changes nothing, not even by creating a row |
| BalanceCaches.BalanceCache.CopyAccountFrom | src/domains/cex/engine/balance_cache.rs:177-183 | copies an account once; a missing one stays missing |
| BalanceCaches.BalanceCache.CommitPrepared | src/domains/cex/engine/balance_cache.rs:187-189 | inserting the prepared rows one by one overlays them on the rest |
| Balances.SettleMoves | src/domains/cex/engine/balance_cache/settlement.rs:40-106 | a settled trade moves exactly its value and amount out of the two locks and pays them in less the fees, in its four accounts only |
| BalanceLaws.SettleTotal | src/domains/cex/engine/balance_cache/settlement.rs:40-57 | per asset, one settlement changes the total over all users by exactly its fees |
| BalanceLaws.SettleOnlyRange | src/domains/cex/engine/balance_cache/settlement.rs:40-106 | with both locks covered, a sound trade fails only for range or representability |
| BalanceLaws.SettleAllMirrors | src/domains/cex/engine/runtime/submission.rs:65-99 | settling on a sparse copy succeeds or fails exactly as on the whole map, with the same result |
| Workspace.ChargeMirrors | src/domains/cex/engine/runtime/submission.rs:65-99 | locking, settling and refunding on the copied accounts and then committing equals the same steps on the whole map, failure or success |
| Workspace.Prepare | src/domains/cex/engine/runtime/submission.rs:65-78 | the loops copy the order's account and the four of each trade, and nothing else |
| Workspace.ChargeOn | src/domains/cex/engine/runtime/submission.rs:79-99 | the loop over trades on the prepared cache charges the order as specified |
| SubmissionLaws.ImprovementMeaning | src/domains/cex/engine/runtime/submission.rs:91-99 | price improvement over the limit equals what the fills cost less than their quantity at the limit |
| SubmissionLaws.ReservationCovers | src/domains/cex/engine/runtime/submission.rs:57-99 | the reservation covers the trades and the remainder; the refund is the price improvement, zero, or the unspent amount, by kind |
| SubmissionLaws.RefundNeverNegative | src/domains/cex/engine/runtime/submission.rs:91-99 | neither refund subtraction ever goes negative |
| SubmissionLaws.ChargeAddsUp | src/domains/cex/engine/runtime/submission.rs:57-119 | for every successful order, reserved = used + still reserved + refund |
| TradeLaws.AcceptedOrderMoves | src/domains/cex/engine/runtime/submission.rs:60-99 | every account changes by exactly what the fills pay: the buyer receives the quantity and the seller its worth, each less its own order's rate rounded down; the order's account also sets aside what its fills use and what still rests |
| TradeLaws.SubmitMoves | src/domains/cex/engine/runtime/journal.rs:144-165 | a new order is recorded and either refused, moving nothing, or accepted, moving every account as its published trades say, with the fees of the two orders |
| TradeLaws.FeesAreRecorded | src/domains/cex/engine/runtime/output.rs:49-66 | the fees recorded with each trade are the quantity and the worth times the rates of its buy and its sell order, rounded down |
| SubmissionLaws.CommitKeepsBook | src/domains/cex/engine/runtime/submission.rs:120-127 | every accepted order leaves the book in priority order, with distinct ids, valid orders, and uncrossed between users |
| Engine.PlanNamesMakers | src/domains/cex/engine/orderbook.rs:64-73 | committing a plan to the book it was made from never misses a price or a maker |
| Engine.EngineState.BookFor | src/domains/cex/engine/runtime/submission.rs:47-49 | the stored book, or a new empty one that is not part of the state |
| Engine.EngineState.Compute | src/domains/cex/engine/runtime/submission.rs:47-119 | planning and charging read the state and change none of it |
| Engine.EngineState.ProcessSubmit | src/domains/cex/engine/runtime/submission.rs:41-133 | on success the book and the balances are those specified; on failure both are untouched |
| Engine.ExecutedFeesExist | src/domains/cex/engine/runtime/output.rs:49-66 | the fees and values of accepted trades can always be computed again |
| Engine.BuildOutputs | src/domains/cex/engine/runtime/output.rs:45-76 | each trade is recorded with its two fees, without failing |
| Engine.Search | src/domains/cex/engine/runtime/threads.rs:229-247 | the scan of levels and queues finds the order of that id, if it rests on the side |
| Engine.CheckCancel | src/domains/cex/engine/runtime/threads.rs:228-278 | the checks of a cancellation, in their order; the counter check never fires |
| Engine.EngineState.ProcessCancel | src/domains/cex/engine/runtime/threads.rs:221-283 | unlocks what the order reserves and removes it, or changes nothing |
| Engine.EngineState.Submit | src/domains/cex/engine/runtime/journal.rs:144-167 | an id is executed once; repeated content is silent, other content a conflict |
| Engine.EngineState.Cancel | src/domains/cex/engine/runtime/journal.rs:118-182 | a recorded cancellation answers its owner again; any other asker is refused |
| Engine.EngineState.Deposit | src/domains/cex/engine/runtime/deposit.rs:37-87 | the once-only credit with a remembered rejection equals the specified step, whose money is `MoneyLaws.DepositMoves` |
| Engine.EngineState.Withdraw | src/domains/cex/engine/runtime/withdrawal.rs:64-156 | the lifecycle of one withdrawal id, step by step |
| Engine.EngineState.Adjust | src/domains/cex/engine/runtime/journal.rs:183-205 | a direct balance change, checked before the account is created |
| Engine.EngineState.MoveWithdrawal | src/domains/cex/engine/runtime/withdrawal.rs:111-142 | locks, unlocks or pays out the amount, or changes nothing |
| Engine.EngineState.Reservation | src/domains/cex/engine/runtime/journal.rs:206-225 | explicit Lock and Unlock commands |
| Engine.EngineState.ApplyCommand | src/domains/cex/engine/runtime/journal.rs:118-227 | after any command the mutable state is the core machine's and so is the outcome; well-built books and the invariant are kept |
| CoreLaws.StepKeepsInv | src/domains/cex/engine/runtime/journal.rs:140-227 | every command keeps balances in range and every resting order valid, in order, and traceable to the submission of its id |
| CoreLaws.RunKeepsInv | src/domains/cex/engine/runtime/journal.rs:118-227 | so does every run |
| CoreLaws.ReachableBooksUncrossed | src/domains/cex/engine/matcher.rs:28-38 | in every reachable state a resting buy and sell whose prices meet belong to one user |
| CoreLaws.ReachableIdsUnique | src/domains/cex/engine/runtime/journal.rs:144-153 | in every reachable state an order id rests at most once across all books and sides |
| ReserveLaws.WalkReserves | src/domains/cex/engine/matcher.rs:112-141 | matching takes out of the makers' reserves exactly what their trades consume |
| ReserveLaws.ExecuteKeepsBacking | src/domains/cex/engine/runtime/submission.rs:57-127 | an accepted order changes each account's locked funds by exactly the change in what its book reserves |
| ReserveLaws.ChargeFailsOnlyFor | src/domains/cex/engine/runtime/submission.rs:79-99 | with covered locks, charging fails only in taking the lock, in quoting a buy's remainder, or for numeric range |
| BackingLaws.LockedFundsAreBacked | src/domains/cex/engine/runtime/submission.rs:57-99 | over every run from a genesis, each account's locked funds equal its resting orders' reserves, its reserved withdrawals and the net of Lock and Unlock commands |
| BackingLaws.RunsWithoutUnlockAreSolvent | src/domains/cex/engine/runtime/threads.rs:221-283 | in every state reached without Unlock, locks cover all orders and withdrawals |
| BackingLaws.SubmitNeverShort | src/domains/cex/engine/balance_cache/settlement.rs:58-106 | in such states settlement after a successful lock never fails for funds or rounding |
| BackingLaws.SubmitRefusedOnlyFor | src/domains/cex/engine/runtime/submission.rs:41-99 | in such states a well-formed new order is refused only by locking its own funds, or for rounding, range or storability |
| BackingLaws.OwnerCancelNeverShort | src/domains/cex/engine/runtime/threads.rs:221-283 | in such states the owner's cancellation of a resting order succeeds or fails only for numeric range |
| BackingLaws.ReservedWithdrawalNeverShort | src/domains/cex/engine/runtime/withdrawal.rs:131-141 | in such states releasing or completing a reserved withdrawal succeeds or fails only for numeric range |
| ConservationLaws.RunConserves | src/domains/cex/engine/runtime/journal.rs:140-227 | over every run and asset, the total over all users is genesis plus deposits plus adjustments minus completed withdrawals minus exactly the recorded fees |
| ConservationLaws.SettledFeesExist | src/domains/cex/engine/runtime/output.rs:49-66 | the fees of settled trades are defined |
| MoneyLaws.DepositMoves | src/domains/cex/engine/runtime/deposit.rs:67-87 | a new deposit is credited if and only if its fields and the resulting balance are acceptable, and then exactly its user's account in its asset grows by its amount |
| MoneyLaws.DepositRejectedFor | src/domains/cex/engine/runtime/deposit.rs:67-87 | a well-formed new deposit that cannot be credited is recorded with its reason, range exactly when the sum is too large |
| Acceptance.DepositAccepts | src/domains/cex/engine/runtime/deposit.rs:52-66 | which deposits are well formed |
| MoneyLaws.WithdrawalMoves | src/domains/cex/engine/runtime/withdrawal.rs:64-156 | a withdrawal step applies if and only if it is well formed, in order and covered, and then moves exactly its user's account: available to locked, back, or out of locked |
| MoneyLaws.ReservationRefusedFor | src/domains/cex/engine/runtime/withdrawal.rs:113-129 | a well-formed new reservation that cannot be made is recorded with its reason: no account, too little available, or numeric |
| Acceptance.WithdrawalAccepts | src/domains/cex/engine/runtime/withdrawal.rs:68-86 | which withdrawals are well formed |
| MoneyLaws.AdjustMoves | src/domains/cex/engine/runtime/journal.rs:183-205 | an adjustment applies if and only if its account and result are acceptable, and changes one available balance by its delta |
| MoneyLaws.LockMoves | src/domains/cex/engine/runtime/journal.rs:206-226 | Lock and Unlock apply if and only if the account exists and can move the amount, and move it within that account |
| MoneyLaws.CancelMoves | src/domains/cex/engine/runtime/threads.rs:221-283 | a cancel takes out exactly one order of the asking user with that id and pair, keeps the rest of the book in place, and gives back exactly what the order still reserved |
| RetryLaws.RunRemembers | src/domains/cex/engine/runtime/journal.rs:118-227 | no later command forgets or alters a submission, cancellation or receipt, except that a reservation may be finalized |
| RetryLaws.SubmitOnce | src/domains/cex/engine/runtime/journal.rs:144-151 | re-delivering a submission at any later point changes nothing and emits nothing; other content is refused |
| RetryLaws.DepositOnce | src/domains/cex/engine/runtime/deposit.rs:41-87 | delivered again at any later point a deposit moves nothing and gets its first verdict; content other than the recorded original is a conflict |
| RetryLaws.DepositVerdictStands | src/domains/cex/engine/runtime/deposit.rs:41-51 | a recorded deposit id answers every later command by its record: conflict, the first rejection, or silence |
| RetryLaws.MalformedDepositIsInert | src/domains/cex/engine/runtime/deposit.rs:52-66 | a malformed deposit moves and records nothing |
| RetryLaws.ReserveOnce | src/domains/cex/engine/runtime/withdrawal.rs:87-129 | delivered again at any later point a reservation moves nothing; same content is acknowledged while reserved, keeps its rejection if it was rejected, and is refused once finalized; other content is refused |
| RetryLaws.FinalizeOnce | src/domains/cex/engine/runtime/withdrawal.rs:87-154 | an applied release or completion is acknowledged again and moves nothing; the same step with other content is refused |
| RetryLaws.OtherFundsAreRefused | src/domains/cex/engine/runtime/withdrawal.rs:87-91 | a recorded withdrawal id with other content is refused for every step in every later state, and changes nothing |
| RetryLaws.NeverBothFinalized | src/domains/cex/engine/runtime/withdrawal.rs:87-101 | after one of release and completion the other is refused for good |
| RetryLaws.CancelOnce | src/domains/cex/engine/runtime/journal.rs:118-134 | an applied cancellation is answered with the same order to its owner for its pair, and refused to anyone else or for another pair, for good |
| RetryLaws.CancellationStands | src/domains/cex/engine/runtime/journal.rs:118-134 | the same for any recorded cancellation, from any state |
| RetryLaws.RefusalLeavesNoTrace | src/domains/cex/engine/runtime/deposit.rs:67-87 | a refusal leaves the state as it was unless it rejects a well-formed deposit for the first time, and then only its receipt is added |
| RefusalLaws.RefusedByRecordStays | src/domains/cex/engine/runtime/withdrawal.rs:69-102 | a withdrawal step that is malformed or at odds with its record is refused in every later state |
| RefusalLaws.RefusedForGoodExactly | src/domains/cex/engine/runtime/withdrawal.rs:69-142 | a withdrawal step is refused in every later state if and only if it is malformed or at odds with its record now; every other refusal can be followed by success |
| RefusalLaws.RefusedReleaseSucceedsLater | src/domains/cex/engine/runtime/withdrawal.rs:103-110 | a run in which a release is refused, then its reservation is made, then the same release is applied |
| MarketProjection.MarketView.Reduce | src/domains/cex/engine/runtime/market.rs:65-91 | reduces a resting order and its level in place and drops what is empty |
| MarketProjection.MarketView.ReduceMakers | src/domains/cex/engine/runtime/market.rs:104-122 | the loop over trades reduces each maker and totals the fills |
| MarketProjection.MarketView.Apply | src/domains/cex/engine/runtime/market.rs:94-189 | one record updates orders, levels and the latest snapshot as specified; what the snapshot shows is `SnapshotLaws.SnapshotsShowTheBook` |
| MarketProjection.TopLevels | src/domains/cex/engine/runtime/market.rs:171-183 | the loop takes the best levels of one side in order |
| MarketProjection.TopMeans | src/domains/cex/engine/runtime/market.rs:171-183 | these are distinct levels with their quantities, strictly best first, at most the count, and better than every level left out |
| MarketLaws.ReduceTracks | src/domains/cex/engine/runtime/market.rs:65-90 | reducing a shown order keeps the projection equal to the books |
| MarketLaws.StepIsFollowed | src/domains/cex/engine/runtime/market.rs:94-158 | on every well-formed state the next record is followed without error and shows the resulting books |
| MarketRuns.ProjectionFollowsEveryRun | src/domains/cex/engine/runtime/market.rs:94-189 | on every journal the core can write the projection never errors and shows exactly the core's books |
| MarketRuns.PublicDepthIsCoreDepth | src/domains/cex/engine/runtime/market.rs:94-189 | every public price level is the sum of the resting remainders at that price, and a level is listed if and only if an order rests there |
| MarketRuns.SnapshotsFormAChain | src/domains/cex/engine/runtime/market.rs:159-188 | each snapshot names the pair's preceding snapshot |
| SnapshotLaws.SnapshotsShowTheBook | src/domains/cex/engine/runtime/market.rs:94-189 | over every journal: a snapshot comes exactly with an accepted order or a cancel, names its pair, lists the best min(20, occupied) prices of the bids descending and of the asks ascending with the sums resting there, and the recorded trades with the incoming side; it becomes the latest |
| Journal.WrittenLogReplays | src/domains/cex/engine/runtime/journal/store.rs:193-210 | a journal written by the core replays to the state the core was in |
| Journal.OnlyWrittenLogsReplay | src/domains/cex/engine/runtime/journal/store.rs:193-210 | conversely only such journals pass the replay |
| Journal.RecoverExactly | src/domains/cex/engine/runtime/journal/store.rs:162-216 | recovery succeeds if and only if the journal is one the core would write and the cursor is within it, and yields its fold |
| Journal.StreamIdsDistinct | src/domains/cex/engine/runtime/output.rs:92-214 | in the event stream of a journal no two events share an id |
| EventLaws.EventsAre | src/domains/cex/engine/runtime/output.rs:92-214 | the events of a record carry its number and their position, and exactly its payloads |
| EventLaws.StepTellsTruly | src/domains/cex/engine/runtime/output.rs:97-143 | a deposit, withdrawal or cancellation event is published with a command if and only if the state did not say so before and does after |
| EventLaws.SubmissionEvents | src/domains/cex/engine/runtime/output.rs:131-195 | a new submission publishes its own terms when refused, else its trades in order followed by the completion of a market order only; a known one nothing |
| EventLaws.OnlySubmissionsTrade | src/domains/cex/engine/runtime/output.rs:149-195 | only a new submission publishes trades, completions or rejections |
| EventLaws.StreamTellsState | src/domains/cex/engine/runtime/output.rs:92-214 | from a genesis, a deposit, withdrawal step, refused reservation or cancellation is in the stream if and only if the state holds it |
| Store.SeedsRestore | src/domains/cex/engine/runtime/journal/store.rs:146-192 | the genesis row of a state restores exactly its balances, unless an account is unacceptable |
| Store.JournalSeed | src/domains/cex/engine/balance_cache.rs:231-235 | the loop lists every account once, sorted by user and asset |
| Store.OneGenesisRow | src/domains/cex/engine/balance_cache.rs:231-235 | so the balances alone determine the genesis row |
| Store.Store.Initialize | src/domains/cex/engine/runtime/journal/store.rs:146-161 | writes the sorted genesis row once, for a state without history on an empty journal |
| Store.Store.Append | src/domains/cex/engine/runtime/journal/store.rs:249-284 | a group's commands are appended atomically, numbered on; a query adds no record; an unconfirmed commit does not move the worker's sequence |
| Store.Store.MarkDelivered | src/domains/cex/engine/runtime/journal/store.rs:241-248 | moves the cursor by one record or refuses |
| Store.Store.ReadRecord | src/domains/cex/engine/runtime/journal/store.rs:231-240 | on the table of a journal, reading yields the record of that number if and only if there is one; a misnumbered row is never returned |
| Store.ReplayRows | src/domains/cex/engine/runtime/journal/store.rs:193-210 | the loop replays rows into the mutable state, refusing gaps, misnumbered rows and outcomes that differ |
| Store.RestoreInto | src/domains/cex/engine/runtime/journal/store.rs:173-192 | the loop opens the genesis accounts, refusing bad and repeated ones |
| Store.Store.Recover | src/domains/cex/engine/runtime/journal/store.rs:162-216 | recovery as performed equals the specified recovery of the stored rows |
| Store.RecoveredIsRecover | src/domains/cex/engine/runtime/journal/store.rs:162-216 | on the table of a journal, recovery of the rows is recovery of the journal |
| JournalSafety.StepSafe | src/domains/cex/engine/runtime/journal/store.rs:311-339 | every step of core, journal worker and output worker, and every crash, keeps the commit invariant |
| JournalSafety.PublishNeverFindsTheQueueFull | src/domains/cex/engine/runtime/threads.rs:32-42 | in every interleaving the slot found free before computing is free when publishing |
| JournalSafety.RecoveryAlwaysSucceeds | src/domains/cex/engine/runtime/journal/store.rs:162-216 | after any interleaving and crash, recovery succeeds and yields the fold of the committed journal |
| JournalSafety.RepliesAreCommitted | src/domains/cex/engine/runtime/journal.rs:75-114 | every reply is about committed commands only: a command's recorded outcome, or a query answered from a committed prefix |
| JournalSafety.AcknowledgedIsNeverLost | src/domains/cex/engine/runtime/journal/store.rs:311-339 | a record behind a reply stays in place across every later step, crash and recovery |
| JournalSafety.JournalIsAlwaysProjectable | src/domains/cex/engine/runtime/output.rs:262-309 | the projection follows every journal the system ever has |
| ReplyLaws.AcknowledgedIsInTheState | src/domains/cex/engine/runtime/journal.rs:75-114 | whenever a caller was told yes, the state rebuilt from the committed journal holds what it asked for; a cancellation is never answered with an invalid outcome |
| ReplyLaws.AnswersAreExact | src/domains/cex/engine/runtime/journal.rs:75-114 | in every interleaving a caller is told yes if and only if the journal replayed up to that command holds what was asked for, a cancel is told the cancelled order, and every other answer is a refusal |
| ReplyLaws.QueriesAreCommitted | src/domains/cex/engine/runtime/threads.rs:149-190 | in every interleaving a query gets both parts of the balance, or the leading bids and asks, of a committed state |
| DeliverySafety.StepDelivers | src/domains/cex/engine/runtime/output.rs:249-336 | every step and crash keeps the delivery invariant |
| DeliverySafety.CursorsAreOrdered | src/domains/cex/engine/runtime/output.rs:277-326 | in every interleaving delivered <= committed, and delivered <= durable <= committed while the process is up |
| DeliverySafety.PublishedIsAPrefix | src/domains/cex/engine/runtime/output.rs:92-214 | across crashes, ambiguous commits and ambiguous sends, the published events without repeated ids are a prefix of the journal's stream, covering every delivered record |
| DeliverySafety.RepeatsAreIdentical | src/domains/cex/engine/runtime/output.rs:92-214 | a repeated id always carries the same payload |
| DeliverySafety.MarkDeliveredNeverFails | src/domains/cex/engine/runtime/journal/store.rs:241-248 | the stored cursor is always the one being advanced |
| DeliverySafety.OpensOnlyWhenAllIsDelivered | src/domains/cex/engine/runtime/engine.rs:160-195 | after a start, commands are accepted only once everything committed before is delivered |
| DeliverySafety.OutputEndsWhenAllIsDelivered | src/domains/cex/engine/runtime/output.rs:329-332 | when the output worker ends well everything durable is delivered; that is everything committed if and only if, since the last start, no commit of a group with a command was reported failed although it was written |
| DeliverySafety.RunTail | src/domains/cex/engine/runtime/journal/store.rs:311-339 | over every run: once the journal worker has ended, the journal is ahead of what was shown if and only if such a commit happened; while it runs none has |
| DeliverySafety.AmbiguousCommitEndsEarly | src/domains/cex/engine/runtime/output.rs:329-332 | an interleaving in which it ends well with a committed record undelivered |
| DeliverySafety.CleanHaltLeavesNothing | src/domains/cex/engine/runtime/engine.rs:202-245 | a halt in which both workers ended well leaves nothing queued and nothing undelivered |
| Output.OutputWorker.SendBatch | src/domains/cex/engine/runtime/output.rs:92-214 | sends a record's events in order up to the first unconfirmed one |
| Output.OutputWorker.DeliverNext | src/domains/cex/engine/runtime/output.rs:278-326 | the cursor moves by one record, and only once its events and its snapshot were sent and confirmed; what the events say is `EventLaws` |
| Output.OutputWorker.Rebuild | src/domains/cex/engine/runtime/output.rs:261-267 | the loop rebuilds the projection of the delivered prefix |
| Output.OutputWorker.RunStore | src/domains/cex/engine/runtime/output.rs:271-334 | over any growing sequence of durable positions: only durable records are sent, in stream order; records behind the cursor are fully sent; the core is opened only once the starting position is reached; the loop ends well only when a finished journal worker has nothing more; and while it runs it delivers one record per look or keeps up |
| Audit.AddEvents | src/domains/cex/engine/runtime/audit.rs:107-131 | events are added while they fit the size cap |
| Audit.ReadPage | src/domains/cex/engine/runtime/audit.rs:55-139 | a page is whole consecutive records within cut, limit and size; each denial has its stated reason |
| Audit.OnlySizeDenies | src/domains/cex/engine/runtime/audit.rs:55-139 | on an intact journal a request within range is denied only for size, and otherwise covers min(limit, cut) records |
| Audit.PagesAreTheStream | src/domains/cex/engine/runtime/audit.rs:79-138 | pages of any limits over a growing journal concatenate to exactly the event stream of the records they cover |
| Audit.EnoughPagesReachTheCut | src/domains/cex/engine/runtime/audit.rs:79-138 | every page makes progress, so the cut is reached |
| Audit.AuditEqualsDelivery | src/domains/cex/engine/runtime/audit.rs:79-138 | what is read up to a delivered cut is, event by event, what the output worker delivered |

## Left out

- The exchange core's HTTP layer, service tokens, the PostgreSQL receipt adapter and startup inspection: no state of the core.
- SQLite, fsync, file locks, JSON and checksums: a commit is atomic, the log is append-only, decoding undoes encoding. Corrupt payloads are not modelled, misplaced and missing rows are.
- Kafka: a send lands or not and is confirmed or not. Serialized text is replaced by the event itself; its length is a parameter of the audit page.
- Timestamps, UUID generation and CPU pinning: ids are numbers, `created_at` is kept and ignored in the comparison that ignores it.
- Decimals finer than one unit appear only in `Amount` and `Text`; the layers above work on unit counts, which `units` makes of every amount before it is used. A finer decimal is refused there before any change.
- Asset names: white space is space, tab and line ends, and lengths count characters, not bytes.
- Sequence numbers and ids do not overflow: the checks against 64-bit exhaustion of the journal sequence are left out.
- Error texts: one value of `Fault` per reason; outcomes compare by it as the journal compares by text.
- The price text of snapshots, and which of two equal-valued decimals (1.0 or 1.00) is kept.
- Iteration order where it cannot be observed: changed levels of a commit, rows of a cache.
- Output.OutputWorker.RunStore: reads the table as it finally is, because rows are only appended while it runs.
- The snapshots re-sent when the output worker starts, and its sleeping between looks; a failed read or re-send ends the worker in the protocol.
- The receiving loop of the core thread as a method: its steps, the capacity check, the queue and its two ways of stopping are the actions of `Protocol`. The journal worker's loop likewise; its commit is `Store.Append`.
- Planner.MatchPlan.PlanLevels: after a failure the plan's fields are unspecified, because the source drops the plan.
- Workspace.ChargeOn: after a failure the prepared copy is unspecified, because the source drops it.
- MarketProjection.MarketView.Apply: after an error the view is unspecified, because the output worker ends.
- Helpers off the command path: `add_available`, `get_spread`, `get_mid_price`, `total_value`, the bench mode.
- Resource exhaustion and memory ordering: steps are sequentially consistent, and `journal_done` is read before `durable` as in the source.
