# Order execution core of the options trading system

A Dafny model of the part of the system that turns intents into broker orders and broker
reports into positions, with proofs about whole runs.

* **Orders** (`Orders`, `OrderChains`, `OrderTheorems`, `OrderBirth`, `Repricing`, `BrokerTruth`, `OrderSurvival`,
  `OrderRaces`, `OrderManager`). The order
  manager and its repricers are a state machine whose step is the code between two suspension
  points; the environment chooses the next step, so submissions, broker callbacks, cancels, the
  stuck-cancel sweep and any number of repricers interleave freely. One invariant is proved for
  every step; conservation, chain structure and the effect of hard cancels follow for every run.
  `OrderBirth`, `Repricing` and `BrokerTruth` say where orders, their prices and their fills come from.
  `OrderSurvival` says exactly which replacement chains can still come to a working order.
  `OrderRaces` holds the places where the promises stop, with runs that lead there.
* **Accounting** (`Positions`, `CashFlow`, `Ownership`, `Netting`, `Fifo`, `FifoOrder`, `FifoAgreement`, `MockBroker`,
  `Reconciliation`). Average-cost positions, FIFO lots, the simulated broker's signed nets and the
  reconciliation engine, and the theorems by which they agree on the same fills.
* **Runner** (`Runner`, `ActiveOrders`, `LegCoordination`, `OverClose`, `Risk`, `Exits`, `ExitRules`). The fail-closed lock and
  its two ways out, all a tick does to the orders it finds, the gate in front of entries, multi-leg
  failure handling over replacement chains, what the exits of a position may sell together, the
  quantity clamp, exits and flatten-all.
* **Market state** (`Bars`, `LiveBars`, `EmaMachine`, `TrailingFloor`). One-minute bars, the 5-minute
  bars made of them, the EMA signal machine and the trailing exit floor, each against a fold or a
  closed form that knows nothing of call times.
* **Plumbing with a contract** (`Pricing`, `Eviction`, `EventWriter`). Tick rounding, subscription
  eviction and the batching event writer.

Objects the program mutates are classes here (`OrderManager`, `PositionManager`, `MockBroker`,
`LegCoordinator`, `Runner`, `BarBuilder`, `Provider`, `PositionContext`, `Subscriptions`,
`EventStore`). Each of their methods is proved to take a step of a specification function, and
the theorems are about those functions. Prices are reals and times integers.

Some properties the code does not have as its comments or its caller might expect. Each is stated
with the input that shows it or the condition under which it holds: an early hard cancel can be
lost (`HardCancelLostIff`), a replacement or a late placement can bypass the
one-order-per-position guard (`OneActiveIff`), the exits of a position can sell more than it held, even
when that guard holds throughout (`UnclashedOvercommitsIff`, `OverClosesWithoutClash`), a softly cancelled chain goes on under the lock
(`SurvivesLockIff`) and out of an abandoned entry (`PeerEscapesIff`), a routine cancel can be judged a
failed leg (`FailedLegComesBackIff`), and so can a leg that holds contracts (`FailedLegEmptyIff`), a failed leg can hide another (`PeerFailureMissedIff`), rounding can
lift a limit past its cap (`CapHoldsIff`), the reported result doubles when fills are logged twice
(`LoggedTwiceCountsTwice`), an early read splits a minute (`StepAgreesIff`), one position priced at
half a cent or less fails the whole exit check (`CheckFailsIff`), a disconnect relabels an operator
lock (`DisconnectRelabelsLock`), the fallback stop can act below a locked floor
(`FallbackWhileLockedIff`), and a cancelled writer gives up the batch in hand although its
comment promises that no event is silently lost (`FailedOnlyIf`, `FinishesWithAllIff`).

## Assumptions

* The broker returns a broker id from every successful placement, and statuses come from the
  mapped set where a theorem says `Mapped`. `Honest` names the theorems that need reports not to
  exceed the quantity ordered; no other theorem assumes it. `Plausible` adds that reports never take a
  fill back and that no sweep is dated ahead of the clock, for the theorems on which chains survive.
* A repricer may wake at any time: its sleep interval is not carried. So "can still replace" is exact for
  sleeps of any length; with a fixed interval a repricer that would oversleep its timeout is counted as
  able to go on.
* Everything between two suspension points is atomic.
* An order's id is its place in the order of creation; orders are never removed.
* Fresh position ids are new (`Sound`), and a contract has one multiplier where a theorem says so.
* For the EMA machine the live bar and the historical close of a boundary do not depend on when
  they are asked for.

## Model

| member | source | states |
|---|---|---|
| `OrderTheorems.ChainConservation` | src/execution/order_manager.py:641-718 | In every reachable book, along every replacement chain: recorded fills of the earlier orders plus the quantity of the k-th equal the first quantity; terms (strategy, contract, side, position, batch, first limit) never change; every order but the last is over |
| `OrderTheorems.ChainNeverOverfills` | src/execution/order_manager.py:394-439 | If no report exceeds the quantity of the order it is about, the fills of a whole chain stay within its first quantity |
| `Risk.FillsStayWithinAllowed` | src/execution/order_manager.py:154-181 | Whatever happens before and after, an accepted submission and all its replacements together fill at most the quantity the risk decision allowed |
| `Risk.ComputeAllowedQuantity` | src/risk/risk_engine.py:448-485 | Result is the largest quantity within request, contract limit and premium budget, and at least one; only a single contract may exceed the budget |
| `Risk.BudgetCovers` | src/risk/risk_engine.py:448-485 | A quantity is within budget exactly when a hundred times quantity times limit is; without a limit or a budget always |
| `OrderTheorems.AttemptsBounded` | src/execution/order_manager.py:541-550 | Replacements plus in-place price changes of a repricer never exceed its attempt limit |
| `OrderTheorems.ReplacedByOneRepricer` | src/execution/order_manager.py:507-516 | Every replaced order is on the chain of exactly one repricer, and its chain has at most that many links, so the chain walk ends |
| `OrderTheorems.TrailsAreChains` | src/execution/order_manager.py:641-718 | The orders a repricer has worked are exactly the chain walked from its first order |
| `OrderTheorems.StepMove` | src/execution/order_manager.py:92-757 | Every step changes an existing order in one of nine listed ways, each tied to the event that may cause it |
| `OrderTheorems.StepEvolves` | src/execution/order_manager.py:373-450 | No step of any kind changes terms or quantity, drops a hard-cancel flag, a broker id or a link, revives a superseded order, or changes the fills of an order that is over |
| `OrderTheorems.SupersededFrozen` | src/execution/order_manager.py:394-401 | Over any run a superseded order keeps its successor and its fills and stays over |
| `OrderTheorems.NoReplacementAfterHardCancel` | src/execution/order_manager.py:641-718 | A hard-cancelled last order never gets a successor, whatever interleaves, also while its own placement is outstanding |
| `OrderTheorems.ChainStopsAtHardCancel` | src/execution/order_manager.py:517-518 | The chain through a hard-cancelled last order is the same after any run |
| `OrderTheorems.TerminalClosed` | src/execution/order_manager.py:394-401 | With a broker id the terminal statuses are closed over any run and the fills fixed |
| `OrderTheorems.TerminalLeftIff` | src/execution/order_manager.py:217-220 | An order leaves the terminal statuses exactly when its placement returns a live status after it was given up locally |
| `OrderTheorems.TripsIffWorking` | src/execution/order_manager.py:403-450 | A broker report puts an order in the rejected set exactly when it ends, badly, an order that was still working |
| `OrderTheorems.OwnCancelNeverTrips` | src/execution/order_manager.py:403-431 | Once our own cancellation marked an order with a broker id, no later run puts it in the rejected set or makes it work again |
| `OrderTheorems.RejectionStopsTheBook` | src/app/runner.py:885-914 | After the reaction to a rejection, with any interleaving during each cancellation, no order the broker knew at its start or at its turn is working, each one working at its turn is hard-cancelled without successor, and the rejected set is empty |
| `OrderTheorems.EachIsStopped` | src/app/runner.py:898-907 | Cancelling a list of orders one awaited call after the other: each order the broker knew at its turn ends not working, each one working at its turn ends hard-cancelled with no successor |
| `OrderTheorems.CancelEachIsRun` | src/app/runner.py:898-907 | Such a list of cancellations with whatever interleaves is a run of the machine |
| `OrderTheorems.SweepAllIsRun` | src/execution/order_manager.py:302-367 | The stuck-cancel sweep with whatever interleaves is a run of the machine |
| `OrderSurvival.AliveIff` | src/execution/order_manager.py:507-745 | Some continuation leaves a chain with a working order nobody hard-cancelled exactly when its present end is not hard-cancelled and is working, awaits its placement, or is softly cancelled with a repricer that can still replace it |
| `OrderSurvival.HopeFulfilled` | src/execution/order_manager.py:552-718 | Every repricer in a state the condition accepts has a continuation in which it replaces its order |
| `OrderSurvival.StepStaysDead` | src/execution/order_manager.py:507-745 | No plausible step makes a dead end of a chain alive again |
| `OrderSurvival.SurvivesLockIff` | src/app/runner.py:885-914 | Exactly the chains whose end is alive after the reaction can still come to such an order under the lock; never one whose order was working at its turn; an end the broker knew throughout only if it is resumable |
| `OrderSurvival.CanWorkIff` | src/execution/order_manager.py:217-246 | Some continuation has an order working exactly when it is working, or has no broker id and its placement is outstanding |
| `OrderSurvival.HardCancelLostIff` | src/execution/order_manager.py:254-286 | A hard cancel of a working order can be lost exactly when the order has no broker id and its placement is outstanding |
| `OrderSurvival.WorksUnderLockIff` | src/app/runner.py:885-914 | After the reaction to a rejection an order can work again exactly when it is working or awaits its placement without a broker id; never one the broker knew at its turn |
| `OrderChains.Chain` | src/app/runner.py:1016-1020 | The walk along replacement links: starts at the order, follows every link, ends at an order without one |
| `OrderChains.StepKeeps` | src/execution/order_manager.py:92-757 | Every step keeps the invariant: link arithmetic, one repricer per chain, trails, attempt counts, injective links |
| `OrderChains.RunKeeps` | src/execution/order_manager.py:92-757 | The invariant holds after any sequence of submissions, reports, cancels, sweeps and repricer steps |
| `OrderChains.ReplaceKeeps` | src/execution/order_manager.py:663-718 | Appending a replacement keeps the invariant: the link carries exactly the unfilled quantity |
| `OrderRaces.CancelBeforePlacementIsLost` | src/execution/order_manager.py:276-286 | A hard cancel before the placement returns is only local: the order comes back working and no cancel was sent |
| `OrderRaces.CancelOfSupersededIsInert` | src/execution/order_manager.py:254-276 | A cancel addressed to a superseded order changes only its flag; the end of its chain goes on |
| `OrderRaces.AnnouncedCancelEscapesLock` | src/execution/order_manager.py:423-450 | A broker cancellation announced as pending first never trips the lock, though the same cancellation unannounced does |
| `OrderRaces.OneActiveIff` | src/execution/order_manager.py:121-139 | One step keeps one active order per position exactly when it is neither a replacement nor a revived placement while another order of the position is active |
| `OrderRaces.GuardHoldsIff` | src/execution/order_manager.py:121-139 | A run never has two active orders for one position exactly when none of its steps clashes in that sense |
| `OrderRaces.ReplacementBypassesGuard` | src/execution/order_manager.py:689-712 | With a replacement due, an accepted submission for the same position followed by the replacement leaves two active orders |
| `OrderRaces.LatePlacementBypassesGuard` | src/execution/order_manager.py:217-220 | A run in which a placement given up before it returned comes back beside a second order of the position |
| `OrderRaces.ReplacementCanBeDue` | src/execution/order_manager.py:507-718 | A book with a replacement due is reached in six events from the empty book |
| `OrderRaces.SoftCancelSurvivesLock` | src/app/runner.py:885-914 | A run to a book in which one order has been rejected and another is softly cancelled: the reaction only clears the rejected set, and the chain of the softly cancelled order can go on working under the lock |
| `BrokerTruth.FillsAsLastTold` | src/execution/order_manager.py:373-439 | Over any run the fills recorded for an order are those of the last report about it that counts - it found the order not over and was no rejection of an order being cancelled - and none before the first |
| `BrokerTruth.ReportsStand` | src/execution/order_manager.py:394-439 | While only reports move an order, its status and fills are those of the first final report, else of the latest; while it is being cancelled live reports tell fills only, and a rejection makes it cancelled and tells nothing |
| `BrokerTruth.QuietSweep` | src/execution/order_manager.py:302-367 | When nothing interleaves, a sweep gives every overdue cancellation exactly the status the broker answers (cancelled when unknown), restarts the clock of those called again, and touches nothing else |
| `BrokerTruth.NeverReplaced` | src/execution/order_manager.py:663-718 | An order that is over as filled, rejected or failed stays so over any run, keeps its fills and never gets a successor |
| `BrokerTruth.SweptIsNeverReplaced` | src/execution/order_manager.py:302-367 | Whatever interleaves with the sweep and follows it: an order overdue at its turn that the broker answers is filled, rejected or failed takes that status and never gets a successor |
| `BrokerTruth.CancelGetsItsTime` | src/execution/order_manager.py:254-276 | For twenty seconds after our cancel no sweep touches the order |
| `BrokerTruth.ReportRestartsTheClock` | src/execution/order_manager.py:421-436 | A report that counts restarts those twenty seconds |
| `BrokerTruth.NewCallRestartsTheClock` | src/execution/order_manager.py:350-361 | So does the new cancel call of the sweep |
| `OrderBirth.RefusedIff` | src/execution/order_manager.py:92-152 | A submission is refused exactly when it is not approved, names another decision, is not alone for its position or allows nothing, for the first of these reasons |
| `OrderBirth.SubmissionOutcome` | src/execution/order_manager.py:154-217 | An acceptable submission appends one order with the terms of the intent and the quantity of the decision, to be placed; any other changes nothing |
| `OrderBirth.PlacementOutcome` | src/execution/order_manager.py:217-246 | A returned placement gives the order id and status, and starts a repricer exactly when one was asked for, counting from now |
| `OrderBirth.PlacementFailureOutcome` | src/execution/order_manager.py:228-238 | A placement that fails ends the order in error and starts no repricer |
| `OrderBirth.RepricerOrigin` | src/execution/order_manager.py:239-246 | Every repricer of every reachable book works an order whose submission asked for repricing under that configuration and was no emergency, and counts its time from the return of that placement |
| `OrderBirth.OrderOrigin` | src/execution/order_manager.py:154-217 | Every order of every reachable book has the terms and quantity of its submission, or was linked as the successor of an older one |
| `Repricing.FirstMoveHalves` | src/execution/order_manager.py:574-594 | The first move goes half the way to the touch up to rounding, and to the touch from beyond it |
| `Repricing.LaterMovesReach` | src/execution/order_manager.py:574-594 | Every later move before crossing goes to the rounded touch, wherever the order stands |
| `Repricing.UnacceptableStays` | src/execution/order_manager.py:574-603 | A touch beyond the configured bound moves nothing but rounding |
| `Repricing.TwoMovesReachTheTouch` | src/execution/order_manager.py:574-603 | On a quote that stands still two moves reach the rounded touch and a third look moves nothing |
| `Repricing.CrossingIsMarketable` | src/execution/order_manager.py:570-594 | Once crossing, the limit is through the touch by the offset as far as the configured bound lets it |
| `Repricing.LastQuote` | src/execution/order_manager.py:552-645 | In every reachable book a repricer carrying a price got it from the last quote it looked at, for the same order at the same limit |
| `Repricing.ReplacementIsRepriced` | src/execution/order_manager.py:663-718 | In every reachable book a poll that appends an order gives it the price the last quote led to: positive, on the tick grid, at least a cent from the limit replaced |
| `Repricing.AmendmentIsRepriced` | src/execution/order_manager.py:616-640 | An accepted change in place moves that order, and no other, to such a price |
| `Repricing.LookOutcome` | src/execution/order_manager.py:552-645 | What one look comes to: sleep when nothing is worth moving, end when nothing is left, amend or soft-cancel at the price of the quote |
| `Repricing.AmendmentOutcome` | src/execution/order_manager.py:616-645 | An accepted amendment uses up an attempt, a refused one begins a soft cancel to the same price |
| `Repricing.PollOutcome` | src/execution/order_manager.py:648-718 | A poll waits while there is time, replaces exactly a soft-cancelled order short of its quantity at a price that can be sent, and ends the repricer in any other case |
| `Repricing.WakesToLookIff` | src/execution/order_manager.py:513-550 | A waking repricer looks for a quote exactly when its order can still be moved and it is not out of time or attempts |
| `Repricing.OutOfTimeEndsTheChain` | src/execution/order_manager.py:529-550 | Waking out of time it sends a hard cancel, and whatever follows that order never works again and its chain ends there |
| `OverClose.StepExposure` | src/execution/order_manager.py:121-139 | What the orders of a position may fill (all of an active order, the fills of one that is over) moves by exactly what a submission, replacement or revived placement adds, and no other honest step raises it |
| `OverClose.WithinIff` | src/execution/order_manager.py:121-139 | From within what is held, an honest step stays within it exactly when it does not overcommit |
| `OverClose.AlwaysWithinIff` | src/execution/order_manager.py:121-139 | Over any honest run the orders of a position stay within what it held exactly when no step overcommits |
| `OverClose.NeverOverCloses` | src/execution/order_manager.py:121-139 | Then all exits of the position together, with all their replacements, never fill more than it held |
| `OverClose.UnclashedOvercommitsIff` | src/execution/order_manager.py:121-139 | A step that clashes with nothing overcommits exactly when it asks for more than is held and not yet filled |
| `OverClose.CanOverCloseIff` | src/execution/order_manager.py:373-450 | With active orders told apart by broker id, honest reports alone can take the fills past a quantity exactly when the exposure is past it |
| `OverClose.BookedRightIff` | src/portfolio/position_manager.py:119-165 | Exit fills draw a position down to what is left and no further, so its quantity is right exactly when they stay within it |
| `OverClose.PositionStaysRight` | src/portfolio/position_manager.py:119-165 | With honest reports, no overcommitment and every reported fill booked, the position shows what it held less what its exits filled |
| `OverClose.OverClosesWithClash` | src/execution/order_manager.py:649-712 | A run in which a second exit is active when the first is replaced: it clashes, and two contracts are sold of one |
| `OverClose.OverClosesWithoutClash` | src/execution/order_manager.py:649-712 | A run of the same events in which the second exit is filled before that poll: nothing clashes, and two contracts are sold of one |
| `OrderManagement.OrderManager.SubmitIntent` | src/execution/order_manager.py:92-217 | Refuses or appends exactly as the state machine does; says which |
| `OrderManagement.OrderManager.FindActiveFor` | src/execution/order_manager.py:121-139 | Found exactly when some active order has the position |
| `OrderManagement.OrderManager.PlacementReturned` | src/execution/order_manager.py:217-246 | Takes the step of a returned placement, starting the repricer when asked |
| `OrderManagement.OrderManager.PlacementFailed` | src/execution/order_manager.py:228-238 | Takes the step of a failed placement |
| `OrderManagement.OrderManager.BeginCancel` | src/execution/order_manager.py:248-288 | Takes the cancel step up to the broker call and says whether there is one |
| `OrderManagement.OrderManager.CancelOrder` | src/execution/order_manager.py:248-300 | New book is the cancel step; accepted exactly when the order was not over |
| `OrderManagement.OrderManager.CancelCallRaised` | src/execution/order_manager.py:290-300 | Takes the step of a broker cancellation that raised |
| `OrderManagement.OrderManager.SweepOne` | src/execution/order_manager.py:316-356 | One stuck order is resolved from the broker answer, any other left alone; says whether its cancel must be issued again |
| `OrderManagement.OrderManager.ResolveStuckCancels` | src/execution/order_manager.py:302-367 | The sweep resolves order after order, with whatever interleaves while a new cancel call waits |
| `OrderManagement.OrderManager.FindOrderByBrokerId` | src/execution/order_manager.py:751-757 | The first order carrying the broker id |
| `OrderManagement.OrderManager.OnBrokerOrderUpdate` | src/execution/order_manager.py:373-450 | New book is the report step: freeze, cancel-pending rules and rejected set |
| `OrderManagement.OrderManager.RepricerWakes` | src/execution/order_manager.py:513-550 | Takes the step of a repricer waking up |
| `OrderManagement.OrderManager.RepricerQuoted` | src/execution/order_manager.py:552-616 | Takes the step of a received quote up to the next suspension |
| `OrderManagement.OrderManager.RepricerModifyReplied` | src/execution/order_manager.py:616-642 | Takes the step of an in-place modification reply |
| `OrderManagement.OrderManager.RepricerStartsReplacement` | src/execution/order_manager.py:641-645 | Starts cancelling the current order, not as a hard cancel |
| `OrderManagement.OrderManager.RepricerCancelReplied` | src/execution/order_manager.py:645-647 | Takes the step of the cancellation reply |
| `OrderManagement.OrderManager.RepricerPollsAck` | src/execution/order_manager.py:654-718 | Takes the step of one poll for the acknowledgement, appending the replacement when due |
| `OrderManagement.OrderManager.RepricerPlaced` | src/execution/order_manager.py:720-734 | Takes the step of a placed replacement |
| `OrderManagement.OrderManager.RepricerPlacementFailed` | src/execution/order_manager.py:735-745 | Takes the step of a failed replacement placement |
| `Pricing.TickIsNearest` | src/broker/ibkr_broker.py:340-346 | The rounded price is the nearest cent below 3.00 and the nearest nickel from there up, ties going to the even one |
| `Pricing.TickIdempotent` | src/execution/order_manager.py:595-603 | Rounding a rounded price changes nothing, so the broker leaves a repriced limit as it is |
| `Pricing.TickMonotone` | src/broker/ibkr_broker.py:340-346 | Rounding is monotone, also across 3.00 where the tick changes |
| `Pricing.TickWithinTolerance` | src/portfolio/reconciliation.py:200-204 | Rounding moves a price by at most 0.025 and never trips the 0.0501 check |
| `Pricing.RepricedLimitBounds` | src/execution/order_manager.py:563-603 | A repriced limit respects the rounded touch or cross and the rounded acceptable price, and survives the broker rounding unchanged |
| `Pricing.CapHoldsIff` | src/execution/order_manager.py:574-603 | The configured buy cap binds for every quote exactly when rounding does not lift the highest unrounded price past it |
| `Pricing.FloorHoldsIff` | src/execution/order_manager.py:574-603 | The same for the sell floor |
| `Pricing.CapCanBeOvershot` | src/execution/order_manager.py:595-603 | A cap of 3.03 is overshot |
| `Positions.PositionManager.ApplyFill` | src/portfolio/position_manager.py:48-173 | New positions are exactly those of the specified fill handling: open, add, reduce, close |
| `Positions.PositionManager.Add` | src/portfolio/position_manager.py:104-118 | A fill on the same side gives the specified larger position at the blended price |
| `Positions.PositionManager.Reduce` | src/portfolio/position_manager.py:119-165 | A fill on the other side exits at most what is held, with the specified gain and exit order |
| `Positions.PositionManager.ForceClosePosition` | src/portfolio/position_manager.py:175-207 | New positions are those of the specified forced close |
| `Positions.PositionManager.GetOpenPositions` | src/portfolio/position_manager.py:41-46 | Exactly the opening and open positions, in order |
| `Positions.PositionManager.FindOpen` | src/portfolio/position_manager.py:61-72 | The oldest open position of the strategy and contract |
| `Positions.PositionManager.OnCommission` | src/app/runner.py:1724-1743 | The commission is taken from the oldest position whose entry or exit the order was |
| `CashFlow.CashFlowIdentity` | src/portfolio/position_manager.py:104-207 | For every position of every run: realized result plus netted commissions equals signed trade cash plus the signed cost of what is held, and what is held is the net traded |
| `CashFlow.StepBalances` | src/portfolio/position_manager.py:104-207 | Each fill, forced close or commission moves worth and holding of each position by its ledger entry |
| `CashFlow.FilledBalances` | src/portfolio/position_manager.py:104-171 | A fill carrying the multiplier of the position moves its worth by the cash of the clipped quantity |
| `CashFlow.BalancesIffSameMultiplier` | src/portfolio/position_manager.py:64-70 | The multiplier is not part of the identity: a fill balances exactly when it carries the one of the position |
| `Ownership.FillOpens` | src/portfolio/position_manager.py:74-101 | A fill that reaches no position opens one: its terms, quantity, price, entry order and entry time, with no exit rules yet |
| `Ownership.FillReaches` | src/portfolio/position_manager.py:103-171 | A fill that reaches a position leaves every other alone and changes only quantity, average, result, status and exit orders of its own |
| `Ownership.CloseOutcome` | src/portfolio/position_manager.py:175-207 | A forced close empties the first position of the id unless it is closed already, and touches no other |
| `Ownership.OwnsIff` | src/portfolio/position_manager.py:74-171 | After any run a position answers for exactly the orders that opened it or took some of it back |
| `Ownership.CommissionLands` | src/app/runner.py:1724-1743 | A commission is taken in full out of the oldest position its order was registered with, and from no other |
| `Netting.BookedTidy` | src/portfolio/position_manager.py:59-171 | After any fills every strategy and contract has at most one open position, and open ones hold something |
| `Netting.BookedHoldsNet` | src/portfolio/position_manager.py:59-171 | After any fills that close no more than is held, the positions of every group hold the net of the fills |
| `Netting.NetKeptIffCovered` | src/portfolio/position_manager.py:129-165 | One fill keeps the net exactly when it does not over-close: the excess is dropped |
| `Netting.FlatRealizedIsCash` | src/portfolio/position_manager.py:104-171 | Once a group is flat, the realized results of its positions sum to its trade cash |
| `Fifo.MatchLots` | src/analytics/execution_quality.py:358-381 | The loop that pops and shrinks lots computes exactly the specified first-in first-out match |
| `FifoOrder.MatchesOldestFirst` | src/analytics/execution_quality.py:358-381 | A fill closes of each lot what the older ones leave it, earns on each its own price, and leaves the rest in order: in closed form over the lots |
| `FifoOrder.ClosesOldestFirst` | src/analytics/execution_quality.py:358-389 | After fills of one side, a fill against them earns fill by fill from the oldest on |
| `Fifo.AddGain` | src/analytics/execution_quality.py:391-392 | Adds the gain to its account and leaves every other figure alone |
| `Fifo.ComputeRealizedPnl` | src/analytics/execution_quality.py:314-394 | The report of every account is the sum of the FIFO gains of its fills |
| `FifoAgreement.MatchShape` | src/analytics/execution_quality.py:361-389 | Matching keeps the lots on one side with positive quantity, and what is left over meets no opposite lot |
| `FifoAgreement.InventoryBalances` | src/analytics/execution_quality.py:355-392 | For any fills: inventories are one-sided and positive, net to the fills, and gains equal cash plus the cost of open lots |
| `FifoAgreement.FlatFifoIsCash` | src/analytics/execution_quality.py:355-392 | When a group nets to nothing its FIFO gain is its trade cash |
| `FifoAgreement.FifoAgreesWithAverageCost` | src/analytics/execution_quality.py:355-392 | For any covered fills with one multiplier: once a group is flat, FIFO gain times multiplier equals the summed realized results at average cost |
| `FifoAgreement.OverCloseParts` | src/analytics/execution_quality.py:384-389 | From equal holdings, one fill leaves lots and position equal exactly when it does not over-close |
| `FifoAgreement.LoggedTwiceCountsTwice` | src/broker/mock_broker.py:493-500 | Fills logged by both broker and order manager double the reported result of a flat group |
| `MockBroking.MockHoldsNet` | src/broker/mock_broker.py:502-547 | Whatever the fills, the simulated book is their signed net, one entry per key, each holding something |
| `MockBroking.ShiftMovesNet` | src/broker/mock_broker.py:502-547 | Opening, changing, flipping or removing an entry moves the net by the signed quantity |
| `MockBroking.MockBroker.PlaceOrder` | src/broker/mock_broker.py:158-186 | Adds the order at the end, new, with its lifecycle about to start, and returns its id |
| `MockBroking.MockBroker.CancelOrder` | src/broker/mock_broker.py:193-225 | Cancels exactly the orders that are not over and reports whether it did |
| `MockBroking.MockBroker.Accept` | src/broker/mock_broker.py:329-371 | The acceptance phase: rejected, cancelled meanwhile, or submitted |
| `MockBroking.MockBroker.FillPhase` | src/broker/mock_broker.py:373-478 | The fill phase emits at most what the order asks for, and books what it emits |
| `MockBroking.MockBroker.FillRest` | src/broker/mock_broker.py:418-449 | The rest of a partial fill completes the order, unless it was cancelled meanwhile |
| `Reconciliation.InternalNets` | src/portfolio/reconciliation.py:79-93 | The net of every contract over all strategies |
| `Reconciliation.BrokerNets` | src/portfolio/reconciliation.py:102-115 | The broker net of every contract |
| `Reconciliation.ComparePositions` | src/portfolio/reconciliation.py:117-156 | Details name exactly the contracts whose nets differ, each with the right kind and both nets |
| `Reconciliation.CompareBrokerOrders` | src/portfolio/reconciliation.py:161-224 | Details for broker orders: unknown, or differing in contract, side, quantity or limit beyond 0.0501 |
| `Reconciliation.CompareOrders` | src/portfolio/reconciliation.py:161-233 | Order details are exactly those of the two directions of the comparison |
| `Reconciliation.Reconcile` | src/portfolio/reconciliation.py:62-257 | Clean exactly when all nets match and the identified orders correspond; locks exactly when something held internally is held differently at the broker |
| `Reconciliation.BrokerOrderToldIff` | src/portfolio/reconciliation.py:161-224 | A broker order is told unknown exactly when no internal order has its id, and differing exactly when contract, side or quantity differ from the newest that has or the limits are more than 0.0501 apart |
| `Reconciliation.PositionToldIff` | src/portfolio/reconciliation.py:117-156 | A contract is told internal-only, broker-only or mismatched exactly when it is |
| `Reconciliation.RoundedLimitAgrees` | src/portfolio/reconciliation.py:200-204 | An order the broker holds with its limit rounded to the tick is never told to differ |
| `Reconciliation.BooksAgree` | src/portfolio/reconciliation.py:77-157 | After any covered fills, position manager and mock broker hold the same per key, one entry each, and no position is reported |
| `Reconciliation.BooksPartIffOverClose` | src/broker/mock_broker.py:502-547 | From agreeing books the next fill keeps them agreeing exactly when it does not over-close |
| `Reconciliation.OverrideManager.LockSystem` | src/control/overrides.py:126-132 | Locks and says whether that changed anything |
| `Reconciliation.OverrideManager.UnlockSystem` | src/control/overrides.py:134-140 | Unlocks and says whether that changed anything |
| `LegCoordination.LegRules` | src/app/runner.py:970-994 | A leg counts as failed exactly when it is the unreplaced end of an entry, dead and unfilled; its peers are the other ends of its strategy and batch, or day when untagged |
| `LegCoordination.FlagRules` | src/app/runner.py:1003-1039 | A failed leg flags a position exactly when it was entered in its batch on another chain, or by an unknown order within three minutes of it in another contract |
| `LegCoordination.PeersStopped` | src/app/runner.py:975-1001 | Once a group has a failed leg, whatever interleaves: every captured peer the broker knows when the group is judged or at its turn is not working when the pass ends, and every peer working at its turn is hard-cancelled and ends its chain |
| `LegCoordination.PeerEscapesIff` | src/app/runner.py:991-1001 | After its turn the chain of a peer can still come to a working order nobody hard-cancels exactly when the peer was not working at its turn and the end of its chain was alive |
| `LegCoordination.UnreplacedPeerEscapesIff` | src/app/runner.py:991-1001 | For a peer the broker knows and that is not replaced: exactly when it was not working and its repricer can still replace it |
| `LegCoordination.PeerEscapes` | src/app/runner.py:991-1001 | A run to a book where the pass leaves a softly cancelled peer of a failed leg alone and its chain can go on working |
| `LegCoordination.FailedLegComesBackIff` | src/app/runner.py:979-989 | A leg judged failed comes back exactly when its repricer can still replace it or its placement is outstanding |
| `LegCoordination.RoutineCancelLooksFailed` | src/app/runner.py:979-989 | A run to a book where a leg in the middle of a routine replacement is judged failed |
| `LegCoordination.FlaggedForAnotherChain` | src/app/runner.py:1003-1046 | A position with a known, batch-tagged entry is flagged only if the last order of a leg of the same strategy and batch was dead with no fill of its own, and that order shares no chain with the entry order; what the whole leg had filled is what its last order no longer asked for |
| `LegCoordination.FailedLegHolds` | src/app/runner.py:979-989 | The chain of a leg judged failed has filled its first quantity less the quantity of its last order |
| `LegCoordination.FailedLegEmptyIff` | src/app/runner.py:979-989 | In every reachable book a leg judged failed has come to nothing exactly when its last order still asked for the whole quantity |
| `LegCoordination.PartFilledLegLooksFailed` | src/app/runner.py:979-1001 | A run to a book where a leg that holds a contract is judged failed and its working peer is abandoned for it |
| `LegCoordination.PeerFailureMissedIff` | src/app/runner.py:979-1022 | A failed peer leaves a position unflagged exactly when the first failed leg found is its own |
| `LegCoordination.PeerFailureCanBeMissed` | src/app/runner.py:979-1022 | A run to a book where the position of the first leg goes unflagged though the second leg failed |
| `LegCoordination.PassIsRun` | src/app/runner.py:968-1046 | The whole pass with whatever interleaves is a run of the machine |
| `LegCoordination.QuietPass` | src/app/runner.py:968-1001 | When nothing interleaves exactly the working captured legs of failed groups are hard-cancelled and nothing else changes |
| `LegCoordination.QuietFlags` | src/app/runner.py:1003-1046 | When nothing interleaves exactly the positions are flagged that the first failed leg of some group makes asymmetric |
| `LegCoordination.LegCoordinator.FindFailedLeg` | src/app/runner.py:979-989 | The first dead, unfilled last-of-chain leg of the group among the captured orders, if there is one |
| `LegCoordination.LegCoordinator.GroupsOf` | src/app/runner.py:916-925 | Every group with a captured entry order, once, strategy by strategy and batch by batch in order of first appearance |
| `LegCoordination.LegCoordinator.ListPeers` | src/app/runner.py:975-994 | The captured last-of-chain legs of the group other than the failed one, in order |
| `LegCoordination.LegCoordinator.IsOwnChain` | src/app/runner.py:1016-1022 | True exactly when the failed leg is on the chain of the entry order |
| `LegCoordination.LegCoordinator.IsFlagged` | src/app/runner.py:1005-1039 | Flags exactly as specified: batch, own chain, or proximity and contract without a known entry |
| `LegCoordination.LegCoordinator.CancelPeers` | src/app/runner.py:991-1001 | The orders end as the list of awaited cancellations leaves them |
| `LegCoordination.LegCoordinator.FlagPositions` | src/app/runner.py:1003-1046 | Adds exactly the flagged open positions |
| `LegCoordination.LegCoordinator.HandleGroup` | src/app/runner.py:975-1046 | One group: the orders end as its pass leaves them and exactly the positions it flags are added |
| `LegCoordination.LegCoordinator.Coordinate` | src/app/runner.py:968-1046 | The orders end as the whole pass over the captured orders leaves them, whatever interleaves, and exactly the positions it flags are added |
| `Running.ReleaseFound` | src/app/runner.py:791-821 | Over any run that ends unlocked there was a step at which the books agreed and which was one of these two |
| `Running.LockTable` | src/app/runner.py:791-821 | After any action the system is locked, and locked by a disconnect, exactly in the listed cases |
| `Running.LockHolds` | src/app/runner.py:791-821 | A lock no disconnect took survives any run without a disconnect and without a clean operator unlock |
| `Running.GateStaysShut` | src/app/runner.py:1048-1128 | Such a lock keeps the entry gate shut in every pass of any such run of the main loop |
| `Running.DisconnectRelabelsLock` | src/app/runner.py:1053-1056 | A later disconnect turns an operator lock into one that auto-resume releases; an operator lock that no disconnect labelled before or since is not released by it |
| `Running.PolledAreFlat` | src/app/runner.py:1109-1128 | Whoever is asked for an entry has, in the order book and the positions reached at its turn by whatever happened since the gate, no working or cancelling order and no opening or open position |
| `Running.PolledIff` | src/app/runner.py:1073-1128 | Exactly those strategies are asked that pass the window, once-a-day, back-off and flatness tests in the world their turn finds |
| `Running.EntryRules` | src/app/runner.py:1073-1128 | A strategy is asked exactly when it is enabled, not paused, inside its window, flat at its turn and, unless fired by an operator, neither backing off nor done for the day |
| `Running.OneClickOneAttempt` | src/app/runner.py:1076-1084 | A fire request outlives a tick exactly when the tick is disconnected, its gate is shut, or the strategy is disabled or paused |
| `Running.LoopIsRun` | src/app/runner.py:827-1128 | Any run of the main loop is a run of the order machine and a run of position events, so every theorem about those covers the books the runner looks at |
| `Running.RejectionLocksAndStops` | src/app/runner.py:876-914 | A report that badly ends a working order shuts the gate of the next connected pass, also when the sweep waits first; the pass ends locked, with the set cleared and no order the broker knew still working |
| `ActiveOrders.OverdueIff` | src/app/runner.py:927-942 | The entries listed for cancellation are exactly those of configured strategies that have reached their timeout |
| `ActiveOrders.OverdueIsStopped` | src/app/runner.py:927-948 | In a tick without rejections an overdue entry the broker knows ends not working, and one working at its turn ends hard-cancelled with no successor, whatever interleaves |
| `ActiveOrders.QuietTick` | src/app/runner.py:876-1001 | When nothing interleaves: overdue cancellations are settled as the broker answers; with a rejection exactly the working orders are hard-cancelled and no more; without, exactly the working entries past their timeout and then the working legs of failed groups |
| `ActiveOrders.ReplacementRestartsTimeout` | src/app/runner.py:938-942 | The timeout of an entry starts again with each replacement |
| `ActiveOrders.ManagedIsRun` | src/app/runner.py:876-1046 | All a tick does to the order book - sweep, reaction or timeouts and leg coordination - is a run of the machine |
| `ActiveOrders.RejectionIsActedOn` | src/app/runner.py:876-914 | A rejection found by a tick survives its sweep: no order the broker knew when the tick found the book still works, and the set is cleared |
| `Running.Runner.RunReconciliation` | src/app/runner.py:435-469 | Returns whether the books agree, nothing when the broker cannot be read, and locks when they do not |
| `Running.Runner.ProcessCommands` | src/app/runner.py:471-588 | The lock after a list of commands is the run of their lock actions; flatten latches; fire requests are collected |
| `Running.Runner.TryAutoResume` | src/app/runner.py:791-821 | Takes the auto-resume step of the lock machine |
| `Running.Runner.IsFlat` | src/app/runner.py:1109-1123 | True exactly when the strategy has no open position in the position manager and no active order in the order manager |
| `Running.Runner.ManageRejections` | src/app/runner.py:885-914 | Locks and leaves the book as the reaction does |
| `Running.Runner.EnforceTimeouts` | src/app/runner.py:927-948 | The book ends as cancelling the overdue captured entries one awaited call after the other leaves it |
| `Running.Runner.ManageActiveOrders` | src/app/runner.py:876-1046 | Book, positions, lock and asymmetric exits after the sweep and either the reaction or timeouts and leg coordination, with whatever interleaves |
| `Running.Runner.TakeTurn` | src/app/runner.py:1076-1128 | Uses up the fire request of a reachable strategy and says whether it may be asked in the present world |
| `Running.Runner.PollEntries` | src/app/runner.py:1073-1128 | Asks exactly the strategies that may enter, each in the world its turn finds in the two managers, none while locked, and uses up each fire request it reaches |
| `Running.Runner.ProcessTick` | src/app/runner.py:1048-1128 | Lock, order book, positions, fire requests, flatten flag and asymmetric exits end as the specified tick leaves them; it asks exactly the strategies its gate lets through |
| `Running.Runner.MainLoopPass` | src/app/runner.py:827-874 | The same for a whole pass, with auto-resume before and the periodic reconciliation after the tick |
| `Bars.CandlesRight` | src/marketdata/bars.py:71-100 | The fold of the ticks: minutes increase, each bar is first, max, min, last and count of the accepted prices of its minute, no accepted tick lacks a bar |
| `Bars.RefinesFold` | src/marketdata/bars.py:71-169 | Over any run without a late tick the builder holds the latest bars of the fold of the ticks alone |
| `Bars.StepAgreesIff` | src/marketdata/bars.py:81-100 | One tick or read keeps agreement with the fold exactly when it is not a tick for a minute already closed by a read |
| `Bars.LateTickParts` | src/marketdata/bars.py:81-100 | The first late tick breaks the agreement |
| `Bars.TimelyNeverLate` | src/marketdata/bars.py:153-169 | If no tick is older than the minute of an earlier read, no tick is late |
| `Bars.ReadsAreInvisible` | src/marketdata/bars.py:106-124 | Two schedules with the same ticks show the same bars, wherever their reads fall |
| `Bars.EarlyReadSplitsMinute` | src/marketdata/bars.py:153-169 | One read too early makes two bars of one minute |
| `Bars.Bar.Update` | src/marketdata/bars.py:39-43 | Folds one price into the bar |
| `Bars.BarBuilder.OnTick` | src/marketdata/bars.py:71-100 | New state of the symbol is the fold step; other symbols and finished bars untouched |
| `Bars.BarBuilder.Roll` | src/marketdata/bars.py:126-131 | Moves the working bar to the finished ones, dropping the oldest beyond the cap |
| `Bars.BarBuilder.MaybeRollStale` | src/marketdata/bars.py:153-169 | Closes the working bar exactly when its minute is past |
| `Bars.BarBuilder.GetLatestCompletedBar` | src/marketdata/bars.py:106-110 | The last finished bar after the read rolled a stale one |
| `Bars.BarBuilder.GetCompletedBars` | src/marketdata/bars.py:112-124 | The last finished bars after the read rolled a stale one |
| `LiveBars.CoverageSuffices` | src/strategies/xsp_5_ema.py:147-171 | When the oldest kept bar is not after the window opens, the cap has dropped nothing of the window |
| `LiveBars.LiveBarBounds` | src/strategies/xsp_5_ema.py:166-171 | The assembled bar bounds every accepted tick of its window and attains both bounds |
| `LiveBars.LiveBarEnds` | src/strategies/xsp_5_ema.py:162-171 | It opens with the first price of the first traded minute of the window and closes with the last of the last |
| `LiveBars.LiveFeedWellFormed` | src/strategies/xsp_5_ema.py:147-171 | Every live bar the builder yields has its low at or below its high |
| `EmaMachine.CatchUpFolds` | src/strategies/xsp_5_ema.py:173-283 | One call goes from one prefix of the boundary fold to a longer one, at most to what is due, and three or more further unless it catches up |
| `EmaMachine.CallsFold` | src/strategies/xsp_5_ema.py:173-283 | After any calls of a day, at any times, the state is the fold of a prefix of the 9:35 to 16:00 boundaries |
| `EmaMachine.ScheduleIndependent` | src/strategies/xsp_5_ema.py:173-283 | Two call schedules that have come equally far hold the same state |
| `EmaMachine.BudgetOnlyDelays` | src/strategies/xsp_5_ema.py:195-197 | k calls at or after a time process at least 3k boundaries or all that were due |
| `EmaMachine.DayCompletes` | src/strategies/xsp_5_ema.py:173-283 | 26 calls at or after the close leave the whole day folded |
| `EmaMachine.FailedIff` | src/strategies/xsp_5_ema.py:195-212 | The backfill counts as failed from the first boundary that neither source can price, for the rest of the day |
| `EmaMachine.PriceIff` | src/strategies/xsp_5_ema.py:180-212 | A live bar always prices its boundary, the history only while no boundary of the day has failed |
| `EmaMachine.EmaWithinPrices` | src/strategies/xsp_5_ema.py:214-218 | The average exists once a price was folded and lies between any bounds of the folded prices |
| `EmaMachine.EmaIsWeightedMean` | src/strategies/xsp_5_ema.py:214-218 | After any boundaries the average is the exponentially weighted mean of the prices folded, with the factor 2/(5+1) of a period of five |
| `EmaMachine.WeightsAddToOne` | src/strategies/xsp_5_ema.py:214-218 | Its weights add to one |
| `EmaMachine.PutSignalIff` | src/strategies/xsp_5_ema.py:221-283 | A put is signalled exactly when a price comes down to the low of a live bar that stood wholly above the average, with no live bar or lower close since; stop at its high |
| `EmaMachine.CallSignalIff` | src/strategies/xsp_5_ema.py:221-283 | A call exactly in the mirror case, and never with puts only |
| `EmaMachine.AlertOrigin` | src/strategies/xsp_5_ema.py:226-283 | What is held as armed comes from the latest live bar, which lay wholly on one side of the average, fired nothing and was not broken since |
| `EmaMachine.ArmedIsHeld` | src/strategies/xsp_5_ema.py:226-283 | Conversely such a bar is what is held |
| `EmaMachine.FiresIff` | src/strategies/xsp_5_ema.py:221-250 | A boundary fires exactly when its price breaks an armed bar, with the levels of that bar |
| `EmaMachine.TriggerIsLatest` | src/strategies/xsp_5_ema.py:252-256 | A standing trigger was fired by the last boundary that had a price |
| `EmaMachine.TriggerStop` | src/strategies/xsp_5_ema.py:228-250 | The stop of a put trigger is at or above its entry, of a call at or below; with puts only it is a put |
| `EmaMachine.Provider.ResetDay` | src/strategies/xsp_5_ema.py:137-145 | Starts the day afresh; the day whose backfill failed is remembered |
| `EmaMachine.Provider.UpdateMarketState` | src/strategies/xsp_5_ema.py:173-283 | The loop takes exactly the specified catch-up from the start-of-day or current state |
| `EmaMachine.Provider.Process` | src/strategies/xsp_5_ema.py:214-283 | Folds one close: average, armed bar, then the bar itself |
| `TrailingFloor.TrailedClosedForm` | src/strategies/xsp_5_ema.py:539-554 | After any price path the peak is that of the path and the floor that of the peak before the last price |
| `TrailingFloor.TrailNeverFalls` | src/strategies/xsp_5_ema.py:548-554 | Neither the peak nor the locked floor ever comes down |
| `TrailingFloor.FloorBetween` | src/strategies/xsp_5_ema.py:546-550 | A locked floor lies strictly above entry and strictly below its peak and keeps at least 3/8 of the best gain |
| `TrailingFloor.FloorMonotone` | src/strategies/xsp_5_ema.py:546-550 | A higher peak never unlocks or lowers the floor |
| `TrailingFloor.FloorLocksIff` | src/strategies/xsp_5_ema.py:548-550 | A floor is locked exactly from 20% above entry |
| `TrailingFloor.TrailFiresIff` | src/strategies/xsp_5_ema.py:551-554 | A price fires exactly when an earlier peak was lifted 20% and the price is at or below the floor of that peak |
| `TrailingFloor.TrailReasonIff` | src/strategies/xsp_5_ema.py:513-554 | The trail closes a position exactly at such a price when neither clock nor underlying stop applies |
| `TrailingFloor.FloorPerStep` | src/strategies/xsp_5_ema.py:546-550 | The floor keeps fifteen hundredths of the premium for each full fifth the peak has gained |
| `TrailingFloor.StopReasonIff` | src/strategies/xsp_5_ema.py:513-523 | Before 15:45 the stop on the underlying closes a position exactly when the underlying is at it or beyond |
| `TrailingFloor.TargetReasonIff` | src/strategies/xsp_5_ema.py:525-537 | The fixed target closes it exactly when, short of the stop, the underlying has earned three times what was at risk |
| `TrailingFloor.StopAndTargetApart` | src/strategies/xsp_5_ema.py:513-537 | With its stop on the losing side a position is never at both at once |
| `TrailingFloor.FallbackReasonIff` | src/strategies/xsp_5_ema.py:556-562 | Without levels the fallback stop does exactly at a fifth below the entry premium |
| `TrailingFloor.FallbackWhileLockedIff` | src/strategies/xsp_5_ema.py:556-562 | With a floor locked the fallback stop closes a position exactly when its levels are lost and the price falls between the two fetches from above the floor to 20% below entry |
| `TrailingFloor.FallbackOnlyUnlocked` | src/strategies/xsp_5_ema.py:556-562 | When both fetches see one price, the fallback stop never closes a position with a locked floor |
| `TrailingFloor.FiringPriceBelowPeak` | src/strategies/xsp_5_ema.py:543-554 | The price that fires is below the peak |
| `TrailingFloor.PositionContext.CheckExit` | src/strategies/xsp_5_ema.py:510-562 | Reason and new peak and floor are exactly the specified ones |
| `TrailingFloor.PositionContext.FollowTrail` | src/strategies/xsp_5_ema.py:539-554 | Floor from the earlier peak first, then the peak moves |
| `Exits.CheckExits` | src/portfolio/exit_manager.py:71-309 | The loop yields exactly the specified signals in order, or fails as a whole |
| `Exits.Evaluate` | src/portfolio/exit_manager.py:87-243 | The first condition that applies and its price: flatten, time, strategy, stop, target |
| `ExitRules.LongStopIff` | src/portfolio/exit_manager.py:140-223 | A long on a trusted quote is stopped out exactly when there is a bid and the low of the counting bar is at its stop or the middle 15% below it, or without such a bar the exit price is at it; it goes out at the bid |
| `ExitRules.ShortStopIff` | src/portfolio/exit_manager.py:140-223 | The mirror for a short; it goes out at the ask |
| `ExitRules.StopsAreMonotone` | src/portfolio/exit_manager.py:186-214 | Lower prices never take back the stop of a long nor give a short one |
| `ExitRules.UntrustedHolds` | src/portfolio/exit_manager.py:107-138 | Neither stop nor target acts without a quote that is fresh, narrow and ten seconds after entry |
| `ExitRules.TargetIff` | src/portfolio/exit_manager.py:224-231 | Profit is taken exactly at an exit price that has reached the target of a position not stopped out, at that price |
| `ExitRules.SentIsNear` | src/portfolio/exit_manager.py:276-281 | What is sent for a positive price is within half a cent of it |
| `ExitRules.EarlyExitIff` | src/portfolio/exit_manager.py:81-105 | Flatten, time exit and strategy exit are sent exactly for the first that applies, at the best price known, if there is one |
| `Exits.CheckFailsIff` | src/portfolio/exit_manager.py:278-296 | The whole check fails exactly when some triggered open position is priced in (0, 0.005] |
| `Exits.SignalsReduceOnly` | src/portfolio/exit_manager.py:284-296 | Every signal is reduce-only: opposite side, full size, never an entry |
| `Exits.FlattenCoversIff` | src/portfolio/exit_manager.py:87-95 | Flatten-all sends exactly one exit per open position, in order, exactly when every one can be priced |
| `Exits.FillsDrain` | src/portfolio/position_manager.py:149-171 | Fills that together take what each position holds leave nothing open, however cut and interleaved |
| `Exits.FlattenDrains` | src/portfolio/exit_manager.py:71-309 | Flatten-all over priceable positions succeeds, and its exits filled in full in any parts and order leave no open position |
| `Eviction.Subscriptions.EvictIdle` | src/broker/ibkr_broker.py:730-767 | No pinned symbol goes, every idle one does, beyond them only the least recently used and only down to the larger of cap and pinned; both maps keep one domain |
| `Eviction.Subscriptions.Touch` | src/broker/ibkr_broker.py:657-667 | Opens a line only for a new symbol and records the access |
| `Eviction.Subscriptions.OnDisconnected` | src/broker/ibkr_broker.py:247-252 | Forgets every line |
| `Eviction.Subscriptions.ListEvictable` | src/broker/ibkr_broker.py:736-740 | Exactly the unpinned live symbols with their last access |
| `Eviction.Subscriptions.FindIdle` | src/broker/ibkr_broker.py:742-747 | Splits them into the idle ones and the rest |
| `Eviction.SortSorts` | src/broker/ibkr_broker.py:752-755 | Sorting by age yields an ordered permutation |
| `Eviction.EvictionRules` | src/broker/ibkr_broker.py:730-767 | No pinned line is closed, every one idle for longer than allowed is, one in use only while more than the cap are live and none kept has been idle longer |
| `Eviction.EvictionUnique` | src/broker/ibkr_broker.py:730-767 | Unless two symbols share an access time, the policy leaves no choice |
| `EventWriter.ReachedGood` | src/storage/event_log.py:112-270 | In every reachable state disposed of, in hand and queued is exactly what was logged, in order; inserts take 1 to 100; memory is a suffix of at most 20000 entries, and all of it or over 10000 |
| `EventWriter.FillMoves` | src/storage/event_log.py:225-240 | Collecting a batch moves entries from the front of the queue in order and loses none |
| `EventWriter.TakeTakes` | src/storage/event_log.py:214-239 | A batch takes in order all entries ahead of the first sentinel, or the first hundred of them |
| `EventWriter.FinishesIff` | src/storage/event_log.py:241-266 | The writer ends exactly when it finds the queue drained or is cancelled once more while flushing |
| `EventWriter.WrittenIff` | src/storage/event_log.py:243-250 | What reached the database is all that was disposed of exactly when every insert succeeded |
| `EventWriter.StopFlushes` | src/storage/event_log.py:96-106 | When the writer that stop waits for has ended, everything logged before is disposed of once and in order, and written if no insert failed |
| `EventWriter.EventStore.LogCallback` | src/storage/event_log.py:112-162 | Enqueues, appends to memory and trims it |
| `EventWriter.EventStore.RequestStop` | src/storage/event_log.py:96-101 | Enqueues the sentinel unless the writer has ended |
| `EventWriter.EventStore.TakeBatch` | src/storage/event_log.py:214-239 | The loop collects exactly the specified batch and stops at a sentinel |
| `EventWriter.EventStore.InsertReturned` | src/storage/event_log.py:240-250 | The entries in hand are disposed of |
| `EventWriter.EventStore.DrainOne` | src/storage/event_log.py:252-266 | One turn of the drain loop |
| `EventWriter.EventStore.CancelWriter` | src/storage/event_log.py:241-250 | The insert in progress is given up and the rest drained; a second cancellation ends the writer |

## Left out

- Broker connections, contract qualification, market-data warm-up, reconnection and the live-trading gates: foreign calls and I/O.
- SQLite stores, YAML configuration, dashboards, command line and reports: storage and presentation. Commands are input values.
- Time zones and daylight saving: times are integer seconds, minutes or days of one clock.
- Floating-point error: prices are reals; explicit rounding and truncation are kept.
- Event payloads, log texts, order references and metadata other than the hard-cancel flag: no decision depends on them.
- Slippage statistics, commission metadata on orders and the other figures of the execution-quality report: single-pass statistics.
- The individual risk checks of the risk engine: single-branch tests on the decision, which is an input here.
- The other strategies, the contract selector and the validators: they choose inputs of this core.
- Case normalisation in contract keys: contracts are compared as given.
- Match counts in the reconciliation report: no decision reads them.
- The retry throttle for exits and the pre-exit cancellation of opposite orders: bookkeeping in front of submission.
- Sorting ties in eviction: symbols with one access time may go in either order.
- The cancellation after a partial entry fill: a cancel event the environment may choose at any time, so the theorems about runs cover it.
- What a strategy that is asked then submits, and the exit checks of the same tick: happenings the environment may choose before the next strategy's turn or the next pass.
- Persisting bars to a file and the option-premium quotes behind an exit: I/O; prices are inputs.
- Fifo.ComputeRealizedPnl: events are taken as already normalised, with every field present.
- EventWriter.EventStore.RequestStop: closing the connection afterwards is not modelled.
