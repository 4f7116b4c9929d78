# Verified model of the ladder bot's accounting, recovery and rate-limit cores

This project models the parts of the Binance Spot ladder bot on which money and safety rest, and proves what
their comments, tests and documentation promise. Each component is written in the form the bot has it: classes
whose methods update their fields, loops where the bot loops. Every such method is proved equal to a function
of the old state and the inputs, and the theorems are about those functions: over all histories, all runs and
every pattern of failures, and, in terms of what goes in and what is left, what each of them means.

* **FIFO accounting.** `FifoLots` is the shared closed form: after any order of sales lot *i* is left with
  `clamp(C_i - S, 0, q_i)`, where `C_i` is cumulative purchased quantity and `S` everything sold. The legacy
  cost-basis importer (`CostBasisImport`, `CostBasisApply`), the live lot table (`InventoryLots`,
  `InventoryHistory`) and the reporting digest (`DigestFifo`, `DigestConservation`) are all proved to reach it,
  and `FifoAgreement` says that they hold the same quantities for the same history. `StoredText` and
  `UnreadableLots` are about the text comparison by which the table updates its rows. `TradeCursor` and
  `CursorHistory` are the poller that feeds the table. What each of these amounts to in the terms of its input is
  said beside it: `FillTerms`, `CostBasisSources` (from the raw rows), `CoverageFigures`, `ImportedRows`,
  `SaleOrder`, `DigestFigures` and `PollOutcomes`.
* **Order lifecycle.** `OrderJournal` is the durable journal, one transaction per method; `JournalHistory` says
  what no transaction undoes. `ProtectionQuantity` and `ProtectionRecovery` check exchange evidence and commit;
  `ProtectionConvergence` (crashes and reruns), `ProtectionCoverage` (what an answer means),
  `ProtectionLifecycle` (whole runs against an evolving exchange), `ProtectionSales` and
  `ProtectionConservation` (what the exchange sells, against what is recorded) are the theorems, with runs that
  exist in `ProtectionExample` and `ProtectionOversale`. `CancelReplace`, `StartupReconciliation`,
  `CancelReplaceSafety` and `CancelReplaceSession` are the cancelReplace protocol under lost answers.
  `JournalRecords`, `ProtectionOutcomes`, `CancelReplaceOutcomes` and `StartupAnswers` say in statuses and rows what
  each transaction, recovery, replacement and reconciliation leaves.
* **Transport.** `SignedRequest` has the two request loops, `RequestSafety` their guarantees over sessions, and
  `RequestOutcomes` says what a request is reported as.
* **Timed and windowed machines.** `NetworkRecovery` is the host's escalation ladder and reboot latch,
  `NetworkEvents` what it announces and remembers; `RateLimiter` and `RateWindows` the dashboard's sliding-window limit.
* **Exact arithmetic.** `ExactDecimal`, `BuySettlement`, `SettlementExactness`, `FillEvidence` and
  `FillExactness` are the BUY settlement and the fill reader, and why 512 digits never round; `ExchangeMath` and
  `OrderValues` are step and tick arithmetic with exact printing (`DecimalText` has the digits).

Several promises hold only under a condition. Each has a theorem that gives the condition exactly, or a lemma
with the input that breaks it:

* Two reboot decisions are a day apart unless the first was made at wall-clock second 0
  (`NetworkRecovery.DaySpacingExactly`).
* A sale is refused, and every later sale with it, when it reaches an imported lot below one millionth that has
  not been cut: its quantity is stored in fixed point and looked up in scientific notation
  (`UnreadableLots.SaleAcceptedExactly`, `SalesBlockedForever`, `BlockingLotIsReachable`).
* A redelivered BUY is recognised only while none of it has been sold, because the lot's *remaining* quantity is
  compared (`InventoryHistory.PurchaseReplayExactly`, `CursorHistory.WedgedByRedeliveryExactly`); after a failed
  cursor write this can wedge the poller for good (`CursorHistory.WedgeIsReachable`, `WedgedForever`), and without
  one, or a failed trade in a strict poll, it cannot (`CursorHistory.UndisturbedKeepsUp`).
* The cursor moves back exactly when a lenient poll cannot read it and delivers again only a part of what lies
  below it (`CursorHistory.CursorMovesBackExactly`, with a run in `CursorMovesBack`).
* All protections of a BUY together sell no more than it acquired, if each is replaced only on evidence that
  settles how it ended. "Not covered" alone is not such evidence: exactly which answers are is
  `ProtectionSales.UncoveredExactly`, and `ProtectionOversale.OversoldRun` sells everything twice.
* A finished exit is closed exactly when the protection's list id is on record and nothing contradicts it; without
  the list id every retry of the recovery is refused (`ProtectionCoverage.ClosesExactly`, `StuckWithoutListId`,
  and a case of it in `ProtectionExample.RestCanBeStuck`).
* That the exchange knows no replacement order is final exactly when the request is no longer on its way or the old
  order is no longer new (`CancelReplaceSafety.AbsentIsFinalExactly`).
* The startup halt on a lost order is bypassed exactly when a failed query came before the absent answer
  (`StartupReconciliation.WrittenOffExactly`, `WrittenOffInJournalExactly`).
* A rate limit answering the server-time request is not respected (`RequestSafety.ClockLimitIsIgnored`); all others
  are.

## Model

| member | source | states |
|---|---|---|
| NetworkRecovery.RecoveryRecord.Advance | deploy/network_recovery.py:62-114 | one observation changes the record, emits events and decides exactly as the specification step does |
| NetworkRecovery.RecordFollowsObservations | deploy/network_recovery.py:62-97 | over any run the record knows the last observation and no failure or health it has not seen |
| NetworkRecovery.StepIsStage | deploy/network_recovery.py:72-114 | the stored step is a function of the outage's age: no stage is skipped because gaps are limited to 180 seconds |
| NetworkRecovery.OutageLadder | deploy/network_recovery.py:95-114 | inside an outage each action is emitted exactly at the first observation past its threshold, and a reboot is taken or announced as suppressed |
| NetworkRecovery.ActionsOnlyWhileFailing | deploy/network_recovery.py:76-114 | actions, suppressions and loss announcements happen only on an unblocked unreachable observation |
| NetworkRecovery.RebootIsLastResort | deploy/network_recovery.py:95-114 | every reboot ends at least 900 seconds of unbroken same-boot failure in which one reconnect and then one restart came first and nothing else |
| NetworkRecovery.AtMostOncePerOutage | deploy/network_recovery.py:95-114 | within one outage no action and no reboot suppression is repeated |
| NetworkRecovery.LatchNeedsHealthyStretch | deploy/network_recovery.py:76-107 | after a reboot decision the latch opens only after an unbroken reachable stretch of 1800 uptime seconds |
| NetworkRecovery.LastRebootNeverMovesBack | deploy/network_recovery.py:98-107 | after a reboot decision the recorded time of the last reboot never falls below that decision's time |
| NetworkRecovery.RebootsAreRare | deploy/network_recovery.py:76-107 | two reboots enclose a reachable stretch of 1800 seconds and 86400 wall-clock seconds, whatever the clock did between |
| NetworkRecovery.DaySpacingExactly | deploy/network_recovery.py:98-107 | runs with reboots less than a day apart exist exactly when the first decision may fall on wall-clock second zero |
| NetworkEvents.EventsExactly | deploy/network_recovery.py:66-111 | what is announced at each observation of a run, from the observations alone: the boot that was asked for, restoration when an outage has just ended, loss when one begins, a blocker when it is another than before, a reboot suppressed when its time comes in vain |
| NetworkEvents.RebootExactly | deploy/network_recovery.py:97-107 | in an outage a reboot is taken exactly when its age reaches 900 seconds and it may be, and announced as suppressed exactly when it may not |
| NetworkEvents.LatchExactly | deploy/network_recovery.py:80-106 | the latch closes with a reboot and opens exactly once the network has been reachable for 1800 seconds without a break, a day after the last reboot |
| NetworkEvents.IncidentExactly | deploy/network_recovery.py:92-95 | an outage is remembered by the wall clock of its first observation until the next begins |
| FifoLots.DrainClosedForm | ladder_dragon/execution/cost_basis_import.py:337-350 | draining lots oldest first leaves lot i with clamp(C_i - S, 0, q_i): a suffix of which only the first lot may be cut |
| FifoLots.DrainTwice | ladder_dragon/execution/inventory_lots.py:226-296 | two sales in a row drain what one sale of their sum drains |
| FifoLots.DrainAppend | ladder_dragon/execution/cost_basis_import.py:313-350 | a sale within the lots on hand commutes with a later purchase |
| FifoLots.ReplayClosedForm | ladder_dragon/execution/cost_basis_import.py:303-350 | a history can be replayed exactly when no prefix goes below zero, and then leaves all purchases drained by all sales |
| TradeAccounting.BuyCostPositive | ladder_dragon/execution/trade_accounting.py:154-185 | an executable BUY has a positive cost and unit cost, fees inside or outside |
| FillTerms.InEngines | ladder_dragon/execution/trade_accounting.py:122-185 | a base commission is taken out of a purchase and added to a sale; any other is paid in cash at its value, which must be known; cost and proceeds are price times quantity with that cash added or taken off |
| CostBasisImport.SortedPermutes | ladder_dragon/execution/cost_basis_import.py:251-259 | ordering the history loses and invents no trade |
| CostBasisImport.SortedSorts | ladder_dragon/execution/cost_basis_import.py:251-259 | the ordered history is chronological, ties by trade id |
| CostBasisImport.MinimumIsLeast | ladder_dragon/execution/cost_basis_import.py:261-278 | the first pass finds the least running balance over all prefixes |
| CostBasisImport.ResetAttainsMinimum | ladder_dragon/execution/cost_basis_import.py:264-278 | the reset trade is the first at which that minimum is reached |
| CostBasisImport.ReplayNeverShort | ladder_dragon/execution/cost_basis_import.py:303-350 | after each trade the open lots hold prehistory plus running balance, so no SELL ever exceeds them |
| CostBasisImport.ResetEmptiesBook | ladder_dragon/execution/cost_basis_import.py:280-312 | the reset trade empties the book, the unpriced seed included |
| CostBasisImport.SalesCoverPrehistory | ladder_dragon/execution/cost_basis_import.py:280-285 | more has been sold than the inferred prehistory ever held |
| CostBasisImport.ReplayIsSurvivors | ladder_dragon/execution/cost_basis_import.py:303-378 | the seeded replay leaves the closed form over recorded purchases alone |
| CostBasisImport.SurvivorIsLatePurchase | ladder_dragon/execution/cost_basis_import.py:303-378 | survivors are a suffix of the purchases, each with its own cost, whole except possibly the first |
| CostBasisImport.SellOldest | ladder_dragon/execution/cost_basis_import.py:337-350 | the inner loop drains the oldest lots and reports what it could not sell |
| CostBasisImport.FirstPass | ladder_dragon/execution/cost_basis_import.py:261-278 | the loop computes running balance, its minimum and the reset trade |
| CostBasisImport.SecondPass | ladder_dragon/execution/cost_basis_import.py:303-364 | the loop leaves the survivors and never meets its two alarms |
| CostBasisImport.BuildCostBasisPlan | ladder_dragon/execution/cost_basis_import.py:227-423 | the builder with its run-time checks answers exactly what the specification without them answers |
| CostBasisImport.PlanReconciles | ladder_dragon/execution/cost_basis_import.py:284-388 | every plan agrees with the account within tolerance plus dust, and its totals with its lots |
| CostBasisImport.PlanLotsAreLatestPurchases | ladder_dragon/execution/cost_basis_import.py:303-377 | every imported lot is one of the latest purchases with its price, time and ids |
| CostBasisImport.AlarmsAreUnreachable | ladder_dragon/execution/cost_basis_import.py:346-388 | "SELL exceeds history", "prehistory survives" and the late mismatch can never be raised |
| CostBasisImport.RefusalIsAboutOneRow | ladder_dragon/execution/cost_basis_import.py:171-224 | a history refused while its rows are read is refused with the error of one of its rows |
| CostBasisSources.CanBeArranged | ladder_dragon/execution/cost_basis_import.py:251-278 | rows with distinct ids can be put in order of time, and something definite must have been on hand before them |
| CostBasisSources.PlanExactly | ladder_dragon/execution/cost_basis_import.py:227-412 | said of the raw rows: there is a plan exactly when no input is negative, every row is readable, ids are distinct, every purchase brings something in and the account is explained; its quantities are those of the rows |
| CostBasisSources.RefusedBecause | ladder_dragon/execution/cost_basis_import.py:284-302 | which of account, dust and purchases refuses a readable history |
| CostBasisSources.LotsArePaidFor | ladder_dragon/execution/cost_basis_import.py:156-377 | every imported lot is what is left of one raw row under its ids and time, and its unit cost times what that row brought in is price times quantity plus the commission: as it is in quote, nothing in base, at its stated conversion otherwise; only the first lot can be cut |
| CostBasisSources.LotsAreInTime | ladder_dragon/execution/cost_basis_import.py:251-377 | imported lots are in the order of their purchases |
| CostBasisSources.OnlyTheOldestAreGone | ladder_dragon/execution/cost_basis_import.py:303-377 | a purchase without a lot was made before those of all lots |
| CostBasisSources.IdsAreExtreme | ladder_dragon/execution/cost_basis_import.py:400-412 | first and last trade id of a plan are the least and the greatest among the rows |
| CostBasisApply.CostBasisCoverage | ladder_dragon/execution/inventory_lots.py:165-223 | the loop over open lots computes quantity, cost and verdict of the coverage check |
| CostBasisApply.SumByAge | ladder_dragon/execution/inventory_lots.py:165-223 | coverage sums do not depend on the order in which rows are read |
| CostBasisApply.ReconciledPlanVerifies | ladder_dragon/execution/cost_basis_import.py:612-649 | whatever the table held, an imported plan passes both checks with exactly its own quantity and average price |
| CostBasisApply.RebuiltPlanApplies | ladder_dragon/execution/cost_basis_import.py:524-649 | a plan rebuilt identically from the exchange is applied exactly when the risk ledger accepts it or it was applied before |
| CostBasisApply.ReapplyIsSilent | ladder_dragon/execution/cost_basis_import.py:547-555 | applying a plan again returns its batch and changes nothing, whatever was applied in between |
| CostBasisApply.ImportLog.Apply | ladder_dragon/execution/cost_basis_import.py:524-729 | one transaction: all of the import, its audit record included, or none of it |
| CostBasisApply.ImportLog.ReplaceOpenLots | ladder_dragon/execution/cost_basis_import.py:612-635 | open lots of the symbol are superseded and the plan's lots appended, their quantities stored as fixed-point text |
| CostBasisApply.GapIsMissingTrades | ladder_dragon/execution/cost_basis_import.py:556-582 | the statistics gap an import reports is exactly the range of its trades that the statistics have not reached |
| CostBasisApply.RealisedProfitIsKept | ladder_dragon/execution/cost_basis_import.py:583-726 | no import changes realised profit, and each records the profit it found |
| CoverageFigures.CoverageExactly | ladder_dragon/execution/inventory_lots.py:165-223 | said of the table: an account is covered exactly when every open lot is priced and attributed and they hold it within the tolerance, of which a negative one counts as none; otherwise the reason tells which failed; the average price times what is held is its cost |
| CoverageFigures.CheckedExactly | ladder_dragon/execution/cost_basis_import.py:636-649 | imported rows pass their check exactly when they hold something that covers the account within tolerance plus dust at the price of the plan to eighteen places |
| ImportedRows.AppliedExactly | ladder_dragon/execution/cost_basis_import.py:524-649 | a plan is applied exactly when it is the one rebuilt now and was applied before, or its rows pass their checks and the risk ledger accepts; otherwise the first that fails is reported |
| ImportedRows.ImportExactly | ladder_dragon/execution/cost_basis_import.py:612-726 | a first application retires the open rows of its symbol only, adds one row a lot, and sets the inventory of its symbol only |
| ImportedRows.QueueIsPlan | ladder_dragon/execution/cost_basis_import.py:612-635 | the imported lots are the whole queue of the symbol in the order of the plan |
| ImportedRows.OthersDoNotNotice | ladder_dragon/execution/cost_basis_import.py:612-615 | the lots of every other symbol are the same as before, in the same order |
| InventoryLots.ByAgeIsOrdered | ladder_dragon/execution/inventory_lots.py:126-151 | lots are read oldest first, every row once |
| InventoryLots.ConsumptionIsFifo | ladder_dragon/execution/inventory_lots.py:226-296 | updating rows in place is draining the symbol's lots |
| InventoryLots.ConsumptionIsLocal | ladder_dragon/execution/inventory_lots.py:226-296 | other symbols' lots are untouched |
| InventoryLots.AppendAdds | ladder_dragon/execution/inventory_lots.py:76-123 | a new row adds its quantity to its own symbol wherever its age puts it |
| InventoryLots.AppendYoungest | ladder_dragon/execution/inventory_lots.py:76-123 | the youngest lot joins the end of the queue |
| InventoryLots.LotTable.ReadOldest | ladder_dragon/execution/inventory_lots.py:126-151 | reads exactly the positive open lots, oldest first |
| InventoryLots.LotTable.AddLot | ladder_dragon/execution/inventory_lots.py:76-123 | inserts a purchase once; a repeated one is compared with what is left of its lot |
| InventoryLots.TouchedExactly | ladder_dragon/execution/inventory_lots.py:232-252 | a sale touches exactly the lots before which the older ones do not suffice |
| InventoryLots.LotTable.ConsumeFifo | ladder_dragon/execution/inventory_lots.py:226-296 | all or nothing: refused when the sale exceeds the lots, and also when a lot it touches is not stored as the text of its value |
| InventoryLots.LotTable.UpdateRow | ladder_dragon/execution/inventory_lots.py:265-284 | the conditional update succeeds exactly while the row is open and its stored text is that of the quantity read |
| InventoryLots.LotTable.SyncExchangeFill | ladder_dragon/execution/inventory_lots.py:299-386 | one fill at most once; a refused fill changes nothing |
| InventoryHistory.QuantityIsConserved | ladder_dragon/execution/inventory_lots.py:299-386 | over any calls open quantity moves by exactly the purchases and sales that took effect |
| InventoryHistory.EffectAtMostOnce | ladder_dragon/execution/inventory_lots.py:299-386 | a trade changes the lots at most once, with whatever payload it is repeated |
| InventoryHistory.RecordedForever | ladder_dragon/execution/inventory_lots.py:299-386 | a recorded fill is never forgotten |
| InventoryHistory.SaleReplayExactly | ladder_dragon/execution/inventory_lots.py:340-364 | a sale sent again at any later time changes nothing; it is refused exactly when it names no order and another submission of the trade has named one |
| InventoryHistory.PurchaseReplayExactly | ladder_dragon/execution/inventory_lots.py:93-110 | a repeated purchase is accepted exactly while its lot still holds its whole quantity |
| InventoryHistory.TableIsReplay | ladder_dragon/execution/inventory_lots.py:226-386 | fills whose exchange times, a second or more after the epoch, do not decrease leave exactly the lots of the FIFO replay |
| InventoryHistory.TableIsClosedForm | ladder_dragon/execution/inventory_lots.py:226-386 | and so all purchases drained by all sales |
| SaleOrder.NewPurchaseExactly | ladder_dragon/execution/inventory_lots.py:299-339 | a purchase not on record is accepted exactly when its amounts are possible and its fee is valued; its row holds what was received, opens in the second of the trade, and its price times its quantity is price times quantity plus the fee, unless that was paid in base |
| SaleOrder.NewSaleExactly | ladder_dragon/execution/inventory_lots.py:226-386 | a sale not on record is accepted exactly when its amounts are possible, the lots hold it and every lot it reaches is stored as the text of its value |
| SaleOrder.KnownPurchaseExactly | ladder_dragon/execution/inventory_lots.py:93-110 | a purchase on record is accepted, without a change, exactly when the row of its trade still holds all it received at the same cost and under the same order |
| SaleOrder.KnownSaleExactly | ladder_dragon/execution/inventory_lots.py:340-364 | a sale on record is accepted exactly when quantity and price are those on record and its order too, unless none is; no lot changes |
| SaleOrder.FirstInFirstOut | ladder_dragon/execution/inventory_lots.py:126-296 | of two purchases at least a second apart on the exchange no sale takes anything of the second before the first is sold out, in whatever order they were submitted |
| StoredText.TextsDifferExactly | ladder_dragon/execution/inventory_lots.py:272-278 | a fixed-point text reads back as its number, and differs from the text written back exactly below one millionth |
| UnreadableLots.SaleAcceptedExactly | ladder_dragon/execution/inventory_lots.py:226-284 | a new sale is accepted exactly when the lots hold it and every lot it reaches is stored as the text of its value |
| UnreadableLots.UnreadableLotStays | ladder_dragon/execution/inventory_lots.py:265-284 | a lot that is not stays as it is through any fills whatever |
| UnreadableLots.SalesBlockedForever | ladder_dragon/execution/inventory_lots.py:226-386 | with such a lot at the front every new sale of the symbol is refused, whatever is bought at later exchange times |
| UnreadableLots.ImportedUnreadableExactly | ladder_dragon/execution/cost_basis_import.py:612-635 | an import leaves such a lot exactly where its plan has one below one millionth |
| UnreadableLots.BlockingLotIsReachable | ladder_dragon/execution/cost_basis_import.py:612-635 | a purchase with a base commission and a sale of nearly all of it, imported, lead there |
| FifoAgreement.ReplayQuantities | ladder_dragon/execution/cost_basis_import.py:303-350 | histories of equal quantities leave equal quantities, whatever the lots are tagged with |
| FifoAgreement.TableAndDigestAgree | ladder_dragon/execution/digest_fifo.py:16-114 | for the same chronological fills the live table and the digest hold the same quantities, oldest first, and the digest does not exclude the symbol |
| FifoAgreement.TableAndImportAgree | ladder_dragon/execution/cost_basis_import.py:261-378 | for the same trades from the first one on the importer finds no prehistory and its surviving lots hold what the table holds |
| TradeCursor.TradePoller.PollOnce | ladder_dragon/execution/executor_stats.py:68-194 | one poll under any failures changes statistics, sink and cursor as specified |
| TradeCursor.TradePoller.DeliverPrefix | ladder_dragon/execution/executor_stats.py:115-186 | the first trade that fails in any way ends the page; all before it are stored and delivered |
| PollOutcomes.PollExactly | ladder_dragon/execution/executor_stats.py:79-194 | the page is delivered up to the first trade that is struck or refused; the cursor moves to the last delivered one if that lies beyond, it can be written and the poll is not a strict one that stopped short; a strict poll reports what failed |
| PollOutcomes.PollWithoutPage | ladder_dragon/execution/executor_stats.py:79-114 | a poll without a page changes nothing; a strict one reports the first thing that failed |
| CursorHistory.PollKeepsContiguity | ladder_dragon/execution/executor_stats.py:79-194 | a poll that reads its cursor never moves it back nor past an undelivered trade, the sink holds delivered trades once, and an undisturbed poll does not let the cursor fall behind |
| CursorHistory.RunIsContiguous | ladder_dragon/execution/executor_stats.py:79-194 | the same over any sequence of polls |
| CursorHistory.NoGapNoDuplicate | ladder_dragon/execution/executor_stats.py:79-194 | every trade between the first and the current cursor was applied and delivered in order without a gap, each affecting the lots once |
| CursorHistory.RedeliveryExactly | ladder_dragon/execution/inventory_lots.py:299-386 | redelivering a fill that is on record as itself never changes the book and is refused exactly when it is a purchase of which something has been sold |
| CursorHistory.ClearPollAdvancesExactly | ladder_dragon/execution/executor_stats.py:115-194 | an undisturbed poll advances exactly when the sink accepts the next trade |
| CursorHistory.WedgedForever | ladder_dragon/execution/executor_stats.py:165-186 | a poller whose next trade is refused for any reason never moves again |
| CursorHistory.WedgedByRedeliveryExactly | ladder_dragon/execution/executor_stats.py:165-186 | a refused next trade is a redelivery exactly when it was delivered before, is a purchase and its lot is no longer whole |
| CursorHistory.UndisturbedKeepsUp | ladder_dragon/execution/executor_stats.py:79-194 | while every cursor write succeeds and no poll ends with a failed trade, the cursor is at the end of what was delivered, so that nothing is redelivered |
| CursorHistory.WedgeIsReachable | ladder_dragon/execution/executor_stats.py:165-194 | one failed cursor write can lead there |
| CursorHistory.CursorMovesBackExactly | ladder_dragon/execution/executor_stats.py:80-194 | the cursor moves back exactly when a lenient poll cannot read it and the first trade of the page that is struck by a fault or refused by the sink comes after one below the cursor |
| CursorHistory.PagesAreKnown | ladder_dragon/execution/executor_stats.py:80-114 | in a run the sink has every trade of a page up to the cursor on record |
| CursorHistory.CursorMovesBack | ladder_dragon/execution/executor_stats.py:80-194 | it happens: one blind poll takes the cursor back behind a purchase that has been partly sold, where the poller is wedged |
| DigestFifo.Digest.Summarise | ladder_dragon/execution/digest_fifo.py:16-114 | one pass over an interleaved ledger leaves every symbol in the state of its own replay |
| DigestFifo.Digest.MatchSale | ladder_dragon/execution/digest_fifo.py:83-106 | the inner loop takes from the front of the queue and reports takes, rest and shortfall |
| DigestFifo.SymbolsAreIndependent | ladder_dragon/execution/digest_fifo.py:32-114 | lots, window figures and exclusion of a symbol are those of its rows alone |
| DigestConservation.PartialShare | ladder_dragon/execution/digest_fifo.py:88-106 | a partial take leaves a smaller lot at the same unit cost |
| DigestConservation.MatchConserves | ladder_dragon/execution/digest_fifo.py:83-106 | taken cost plus remaining cost is the queue's cost, and the rest is the plain FIFO remainder |
| DigestConservation.CostIsConserved | ladder_dragon/execution/digest_fifo.py:46-112 | at every moment all BUY cost is the cost in the queue plus the cost matched |
| DigestConservation.QueueIsReplay | ladder_dragon/execution/digest_fifo.py:46-112 | a symbol of usable rows is excluded exactly when a sale exceeds its history; otherwise its queue is the FIFO replay |
| DigestConservation.RealisedIsProceedsLessCost | ladder_dragon/execution/digest_fifo.py:83-112 | for an included symbol realised is in-window proceeds less FIFO cost, and prior cost is between zero and that cost |
| DigestConservation.WindowsAreIndependent | ladder_dragon/execution/digest_fifo.py:45-112 | a window's figures do not depend on which others are reported |
| DigestConservation.AdjacentWindowsAddUp | ladder_dragon/execution/digest_fifo.py:45-112 | figures of adjacent windows add up to those of the window that spans them |
| DigestFigures.FiguresAreTallied | ladder_dragon/execution/digest_fifo.py:46-75 | cash, fees and counts of an included symbol are those of its fills in the window: a purchase pays quote and cash fee, a sale brings its quote less its cash fee |
| DigestFigures.ExcludedAt | ladder_dragon/execution/digest_fifo.py:32-108 | a symbol is excluded at its first row that cannot be accounted for, is in another quote asset or sells more than its queue holds, for that reason, and nothing of it changes from then on |
| DigestFigures.PriorIsBefore | ladder_dragon/execution/digest_fifo.py:88-99 | if nothing was bought before a window none of the cost charged to it is of the prior period, and if everything was, all of it |
| DigestFigures.LegacyIsMarked | ladder_dragon/execution/digest_fifo.py:68-100 | a window is marked as legacy exactly when one of its rows is, or when it sells and everything was bought so |
| OrderJournal.Journal.PrepareIntent | ladder_dragon/execution/order_recovery.py:478-573 | an intent is written once; the same intent is accepted again, a different one under its id refused |
| OrderJournal.Journal.RecordExchangeOrder | ladder_dragon/execution/order_recovery.py:750-777 | the reply's status decides the state; an ended order with executions awaits protection |
| OrderJournal.Journal.RecordOrderList | ladder_dragon/execution/order_recovery.py:779-793 | list status mapped to a state, list id stored; a reply without a list id takes back the one on record |
| OrderJournal.Journal.SettleBuy | ladder_dragon/execution/journal/buy_inventory.py:17-69 | settlement evidence is written only if it agrees with the order on record, is immutable, and is not written on a closed BUY |
| OrderJournal.Journal.InsertLegs | ladder_dragon/execution/order_recovery.py:892-929 | legs are stored one by one; a conflict takes all of them back |
| OrderJournal.Journal.RecordVerifiedProtectionLegs | ladder_dragon/execution/order_recovery.py:837-865 | two distinct legs and their identities, all or nothing |
| OrderJournal.Journal.MarkVerified | ladder_dragon/execution/order_recovery.py:931-969 | legs, list id and both protected states in one transaction |
| OrderJournal.Journal.MarkSingleProtected | ladder_dragon/execution/order_recovery.py:798-824 | a single stop and its BUY become protected together |
| OrderJournal.Journal.MarkExactLifecycleClosed | ladder_dragon/execution/order_recovery.py:971-1058 | closes protection, BUY and lifecycle only on an exit of exactly the residual by a known leg |
| OrderJournal.Journal.RecordPartialProtectionExit | ladder_dragon/execution/order_recovery.py:1060-1156 | records a terminal partial exit once and reopens the BUY |
| OrderJournal.Journal.PartialExitQuantity | ladder_dragon/execution/order_recovery.py:1158-1182 | the loop sums the exits of one BUY |
| JournalRecords.IntentIsPrepared | ladder_dragon/execution/order_recovery.py:478-573 | an intent under a new id is appended; under a known one it is accepted, without a change, exactly when it asks for the same and nothing has come of it yet |
| JournalRecords.OrderIsRecorded | ladder_dragon/execution/order_recovery.py:750-777 | which state each status of a report leads to, and that its ids and amounts are kept |
| JournalRecords.SettlementIsRecorded | ladder_dragon/execution/journal/buy_inventory.py:17-69 | evidence is written on an open BUY whose order id, quantities and quote it repeats, once |
| JournalRecords.LegsAreStored | ladder_dragon/execution/order_recovery.py:837-929 | two legs are stored exactly when they are two orders and neither is on record as another leg |
| JournalRecords.PairIsProtected | ladder_dragon/execution/order_recovery.py:931-969 | a pair protects its own BUY: legs, list id and both states together, or nothing |
| JournalRecords.ExitIsRecorded | ladder_dragon/execution/order_recovery.py:1060-1156 | a partial exit is recorded for a positive quantity of an ended order that is a leg, for the reason of its kind, unless another is on record; both rows change and the exit is there once |
| JournalRecords.CloseIsRecorded | ladder_dragon/execution/order_recovery.py:971-1058 | a lifecycle is closed exactly on an order that sells the residual, for the reason of its kind, unless closed on another order or for another reason |
| JournalHistory.VerifiedLegsKeep | ladder_dragon/execution/order_recovery.py:837-929 | leg identities once written stay, and exits and closures are untouched |
| JournalHistory.VerifiedProtectedKeeps | ladder_dragon/execution/order_recovery.py:931-969 | protecting keeps identities, earlier legs, exits and closures |
| JournalHistory.ExactCloseKeeps | ladder_dragon/execution/order_recovery.py:971-1058 | closing keeps identities, legs, exits and earlier closures |
| JournalHistory.PartialExitKeeps | ladder_dragon/execution/order_recovery.py:1060-1156 | a partial exit keeps identities, legs, closures and earlier exits |
| ProtectionQuantity.VerifyQuantities | ladder_dragon/execution/protection_quantity.py:22-72 | accepts exactly when sizes, statuses, executions and, for live or closing protection, the residual agree |
| ProtectionRecovery.RecoverExistingProtection | ladder_dragon/execution/executor_recovery.py:348-574 | reading, checking and committing step by step is committing the plan the evidence authorises |
| ProtectionRecovery.RecoverPair | ladder_dragon/execution/executor_recovery.py:433-484 | the two-leg branch for OCO and OTOCO |
| ProtectionRecovery.CommitExit | ladder_dragon/execution/executor_recovery.py:505-533 | a finished pair is closed or noted as partial after its legs are stored |
| ProtectionRecovery.RecoverSingle | ladder_dragon/execution/executor_recovery.py:551-574 | the single-stop branch |
| ProtectionConvergence.Converges | ladder_dragon/execution/executor_recovery.py:435-550 | a recovery killed after any of its transactions and run again ends in the same tables with the same answer |
| ProtectionConvergence.Idempotent | ladder_dragon/execution/executor_recovery.py:348-574 | a finished recovery run again changes nothing and answers the same |
| ProtectionConvergence.CloseAgain | ladder_dragon/execution/order_recovery.py:1013-1058 | an exact close is absorbed when it comes again |
| ProtectionConvergence.PartialAgain | ladder_dragon/execution/order_recovery.py:1115-1156 | a partial exit is absorbed when it comes again |
| ProtectionCoverage.CoveredMeans | ladder_dragon/execution/executor_recovery.py:348-574 | an answer "covered" means every leg live for exactly acquired less exits, or closed with exits plus final fill equal to acquired |
| ProtectionCoverage.ClosesExactly | ladder_dragon/execution/journal/exit_evidence.py:12-43 | a fully filled ended pair is closed exactly when the list id is recorded and legs and closure do not conflict |
| ProtectionCoverage.StuckWithoutListId | ladder_dragon/execution/journal/exit_evidence.py:12-24 | without a recorded list id every retry of the recovery is refused |
| ProtectionOutcomes.NotCoveredMeans | ladder_dragon/execution/executor_recovery.py:348-574 | the counterpart of an answer "covered", in statuses and rows: an answer "not covered" with a protection means a pair that ended unsold (protection failed, BUY pending), one that ended partly sold (exit recorded, BUY pending), one still unsettled (no change), an OTOCO whose working order is not filled (list noted if it ended partly filled), a single stop that ended unsold (reply recorded) or is unknown |
| ProtectionOutcomes.UnsoldPairReopens | ladder_dragon/execution/executor_recovery.py:465-471 | a verified pair that ended without selling under a list that is done leaves its protection failed and the BUY protection-pending, and nothing else changed (also 533-539) |
| ProtectionOutcomes.PartialSaleReopens | ladder_dragon/execution/executor_recovery.py:435-464 | a verified pair that sold a part leaves the exit recorded and the BUY reopened, or is refused after its legs are stored |
| ProtectionOutcomes.WholeSaleCloses | ladder_dragon/execution/executor_recovery.py:435-456 | a verified pair that sold everything closes the lifecycle, or is refused if list id, legs or an earlier closure say otherwise |
| ProtectionOutcomes.LivePairProtects | ladder_dragon/execution/executor_recovery.py:472-484 | a verified live pair of an executing list protects the BUY |
| ProtectionOutcomes.UnsettledPairWaits | ladder_dragon/execution/executor_recovery.py:472-473 | everything else that a verified pair can show changes nothing |
| ProtectionOutcomes.DoubtfulPairIsRefused | ladder_dragon/execution/protection_quantity.py:22-72 | orders that do not agree with the protection and its BUY, or do not tell how it stands, are refused without a change |
| ProtectionOutcomes.UnfilledOtocoWaits | ladder_dragon/execution/executor_recovery.py:403-429 | an OTOCO whose working order is not filled covers nothing; its list is noted exactly if it was ended with something executed, is done and both SELL orders have ended |
| ProtectionOutcomes.SingleExactly | ladder_dragon/execution/executor_recovery.py:551-574 | a single stop protects while it is live, has its report recorded when it ended unsold, is refused when it ended after a sale or does not agree |
| ProtectionLifecycle.EvidenceFrozen | ladder_dragon/execution/executor_recovery.py:366-433 | evidence of an ended pair stays the same while the exchange evolves |
| ProtectionLifecycle.RecoveryRepeats | ladder_dragon/execution/executor_recovery.py:433-550 | once a pair has ended by one leg, recovery refuses or repeats that exit |
| ProtectionLifecycle.StepKeeps | ladder_dragon/execution/order_recovery.py:971-1182 | every event keeps closures exact and exits within what was acquired |
| ProtectionLifecycle.ClosesOnRecordedExits | ladder_dragon/execution/order_recovery.py:971-1182 | over every run a lifecycle closes only when recorded exits plus final fill are everything acquired, and at most once per BUY |
| ProtectionLifecycle.RecordedExitsFit | ladder_dragon/execution/protection/buy_inventory.py:40-64 | over every run recorded exits never exceed what the BUY acquired |
| ProtectionLifecycle.RunRemembers | ladder_dragon/execution/order_recovery.py:1013-1156 | closures and exits once written are there unchanged at the end of every run |
| ProtectionExample.LifeIsLegal | ladder_dragon/execution/protection/runtime.py:487-505 | for every quantity and smaller partial exit a legal run records the exit and replaces the protection for exactly the rest |
| ProtectionExample.RestCanClose | ladder_dragon/execution/executor_recovery.py:505-525 | and from there a recovery closes the lifecycle on that rest |
| ProtectionExample.RestCanBeStuck | ladder_dragon/execution/journal/exit_evidence.py:12-24 | with the answer to the second submission lost, the same completed exit is refused on every retry |
| ProtectionSales.OcoReadInTurnIsReadOnce | ladder_dragon/execution/executor_recovery.py:487-493 | reading a list and then its legs while the exchange goes on gives what some exchange in between would show at once |
| ProtectionSales.OtocoReadInTurnIsReadOnce | ladder_dragon/execution/executor_recovery.py:366-402 | the same for list, working order and SELL orders of an OTOCO |
| ProtectionSales.RecordedIsEvidence | ladder_dragon/execution/order_recovery.py:1115-1156 | a protection has at most one recorded exit, and it is the exact execution of the leg by which the exchange ended it |
| ProtectionSales.StepKeepsEvidence | ladder_dragon/execution/order_recovery.py:1115-1156 | every event keeps recorded exits backed by the exchange in this way |
| ProtectionSales.UncoveredExactly | ladder_dragon/execution/executor_recovery.py:403-574 | an answer "not covered" leaves nothing of the protection sold, or still to be sold, without a record exactly when the evidence settles how it ended |
| ProtectionConservation.StepKeepsSales | ladder_dragon/execution/protection/runtime.py:487-505 | replacing only on such evidence keeps superseded protections finished, recorded in full and within what was acquired |
| ProtectionConservation.NeverOversold | ladder_dragon/execution/protection/runtime.py:487-505 | over every such run the exchange has executed no more for all SELL intents of a BUY together than the BUY acquired |
| ProtectionConservation.ClosedMeansSold | ladder_dragon/execution/order_recovery.py:1013-1058 | over every such run a closed lifecycle has sold exactly what was acquired, on the exchange and not only on record |
| ProtectionOversale.OversoldRun | ladder_dragon/execution/executor_recovery.py:487-542 | otherwise it fails: a leg that fills before its list is reported done is answered "not covered", and a legal run sells every quantity twice and closes |
| ProtectionOversale.LifeIsCareful | ladder_dragon/execution/protection/runtime.py:487-505 | the replacement of a partly sold protection for the rest is such a run |
| CancelReplace.AtomicCancelReplaceBuy | ladder_dragon/execution/cancel_replace.py:51-255 | the protocol's durable states, requests, halt and answer are those of its specification |
| CancelReplace.PrepareAndPost | ladder_dragon/execution/cancel_replace.py:61-134 | inputs checked, intent journalled, then one request |
| CancelReplace.ReconcileBoth | ladder_dragon/execution/cancel_replace.py:136-211 | the bounded loop stops at the first look that proves the replacement, otherwise marks it unknown and halts |
| CancelReplaceOutcomes.SentExactly | ladder_dragon/execution/cancel_replace.py:61-134 | exactly one request leaves, for the old quantity at the new price, after its intent was written, if the wish is acceptable and the old order on record; otherwise nothing |
| CancelReplaceOutcomes.AnswerExactly | ladder_dragon/execution/cancel_replace.py:136-255 | in statuses: a replacement is answered exactly when the reply gives it, or it settles nothing and one of max(1, attempts) looks shows the old order canceled, expired or rejected and the new one new, partly or completely filled, the first that does; otherwise ambiguous, and then only is trading halted |
| CancelReplaceOutcomes.RecordedExactly | ladder_dragon/execution/cancel_replace.py:155-211 | afterwards only the rows of the two orders differ, and they are as the exchange reports them, failed or unknown, as the answer says |
| CancelReplaceSafety.ThreeOutcomes | ladder_dragon/execution/cancel_replace.py:136-255 | replaced and true from then on, not replaced and never will be, or unknown and halted |
| CancelReplaceSafety.AbsentIsFinalExactly | ladder_dragon/execution/executor_recovery.py:251-263 | absence is final exactly when the request is decided or the old order is no longer new |
| CancelReplaceSafety.EveryOutcomeOccurs | ladder_dragon/execution/cancel_replace.py:136-255 | each of the three outcomes occurs for every acceptable wish |
| CancelReplaceSafety.CrashThenRestart | ladder_dragon/execution/executor_recovery.py:219-279 | after a crash at any transaction a complete startup reconciliation gives both orders the exchange's state |
| CancelReplaceSession.NeverTwoLive | ladder_dragon/execution/cancel_replace.py:119-134 | over any tries, crashes and restarts, with any number of requests on their way, at most one of the old BUY and its replacements is live |
| CancelReplaceSession.NeverOverbought | ladder_dragon/execution/cancel_replace.py:119-134 | and together they never buy more than the old BUY was for |
| CancelReplaceSession.EveryRequestIsOnRecord | ladder_dragon/execution/cancel_replace.py:80-134 | every request that ever left asked for both modes, was within the cap of its wish, and has its intent in the journal, before it leaves and for good |
| CancelReplaceSession.StopOnFailureIsNeeded | ladder_dragon/execution/cancel_replace.py:123-123 | without STOP_ON_FAILURE two orders can be live |
| CancelReplaceSession.OnlyNewIsNeeded | ladder_dragon/execution/cancel_replace.py:124 | without ONLY_NEW half as much again can be bought |
| CancelReplaceSession.TwoInFlight | ladder_dragon/execution/cancel_replace.py:190-211 | after a lost answer the order can be tried again, and then two requests are on their way |
| StartupReconciliation.ReconcileNonterminalOrders | ladder_dragon/execution/executor_recovery.py:219-279 | each pending row gets the exchange's answer up to the first that settles nothing; later rows are untouched |
| StartupReconciliation.NothingLeftInDoubt | ladder_dragon/execution/executor_recovery.py:222-228 | afterwards nothing is prepared or unknown unless the exchange's own status is unknown, and a second pass changes nothing |
| StartupReconciliation.WrittenOffExactly | ladder_dragon/execution/executor_recovery.py:232-269 | a confirmed order reported absent is written off silently exactly when a failed query came before |
| StartupReconciliation.RowIsAsked | ladder_dragon/execution/executor_recovery.py:219-279 | over repeated startups a row lives through the answers heard about it, in passes not stopped before it |
| StartupReconciliation.WrittenOffInJournalExactly | ladder_dragon/execution/executor_recovery.py:232-269 | the same on the whole journal, where any row may stop a pass |
| StartupReconciliation.RecoverPendingBuyOrderIds | ladder_dragon/execution/executor_recovery.py:282-345 | BUYs of a resuming worker get the exchange's answer and their ids are returned |
| StartupReconciliation.ResumedExactly | ladder_dragon/execution/executor_recovery.py:320-345 | the ids are exactly those of BUYs still worked on or filled, without repetition |
| StartupReconciliation.OnlyStartupWritesOff | ladder_dragon/execution/executor_recovery.py:309-322 | a never confirmed absent BUY is kept by the resuming pass and failed by the startup pass |
| StartupAnswers.RowExactly | ladder_dragon/execution/executor_recovery.py:219-345 | in states: which rows either pass asks about, and what each answer makes of a row that the pass reaches |
| StartupAnswers.ResumedIdsExactly | ladder_dragon/execution/executor_recovery.py:282-345 | a worker resumes with exactly the BUYs it asked about that the exchange still works on or has filled something of |
| SignedRequest.Silence | ladder_dragon/execution/binance_transport.py:113-124 | the cooldown is between one second and three days |
| SignedRequest.Transport.TryOnce | ladder_dragon/execution/binance_transport.py:366-465 | one signed attempt ends, goes on or goes on with a corrected clock as specified |
| SignedRequest.Transport.SignedRequest | ladder_dragon/execution/binance_transport.py:330-465 | the signed loop terminates and is the specification's attempts |
| SignedRequest.Transport.RequestWithBackoff | ladder_dragon/execution/binance_transport.py:205-290 | the unsigned loop likewise |
| SignedRequest.Transport.ResyncClock | ladder_dragon/execution/binance_transport.py:168-192 | the offset is server time less the midpoint of the exchange, or the request fails |
| RequestSafety.SendsBounded | ladder_dragon/execution/binance_transport.py:343-366 | a request goes out at most allowed tries plus one times, a mutation twice, and in dry mode never |
| RequestSafety.MutationsAreNotReplayed | ladder_dragon/execution/binance_transport.py:353-465 | a mutation is repeated only after a stale-clock rejection and a clock correction; it is reported in doubt exactly when it is |
| RequestSafety.RateLimitsAreHonoured | ladder_dragon/execution/binance_transport.py:126-161 | over any sequential session nothing goes out before the silence asked for by a 418 or 429 is over |
| RequestSafety.CoolsOnlyForOwnRequests | ladder_dragon/execution/binance_transport.py:126-161 | between calls the client cools down exactly when its last answer rate limited its own request |
| RequestSafety.ClockLimitIsIgnored | ladder_dragon/execution/binance_transport.py:168-190 | a rate limit answering the server-time request sets no cooldown: a concrete session |
| RequestOutcomes.TriesAllowed | ladder_dragon/execution/binance_transport.py:343-353 | a mutation is tried once, a read as often as asked for, at least once, and three times if nothing is said |
| RequestOutcomes.SilenceExactly | ladder_dragon/execution/binance_transport.py:113-124 | the silence is the least whole number of seconds not less than what was asked for, from one second to three days |
| RequestOutcomes.OffsetIsMidpoint | ladder_dragon/execution/binance_transport.py:168-192 | with the corrected offset the local time half way through the exchange reads as the server's |
| RequestOutcomes.SignedExactly | ladder_dragon/execution/binance_transport.py:330-465 | a signed request is reported by what its last transmission means: delivered exactly for an answer without an error status and without an error code that is retried, in doubt, rejected or rate limited otherwise |
| RequestOutcomes.PlainExactly | ladder_dragon/execution/binance_transport.py:205-290 | the same of an unsigned request |
| ExactDecimal.ExactSum | ladder_dragon/execution/buy_settlement.py:95-97 | unrounded addition is addition of units at a common scale |
| ExactDecimal.ExactComparison | ladder_dragon/execution/buy_settlement.py:98-101 | comparison is comparison of units |
| ExactDecimal.HalfEvenIsNearest | ladder_dragon/execution/buy_settlement.py:50-54 | rounding is to the nearest multiple, and to the even one of two equally near |
| ExactDecimal.AmountBounds | ladder_dragon/execution/buy_settlement.py:31-41 | an amount text of n characters has fewer than n digits after the point and a coefficient below 10^n |
| BuySettlement.SettleBuy | ladder_dragon/execution/buy_settlement.py:44-102 | the loop in 512 digits is the settlement specification |
| BuySettlement.ReadFill | ladder_dragon/execution/buy_settlement.py:73-97 | one fill is accepted with exactly its gross, net and quote |
| SettlementExactness.ProductFits | ladder_dragon/execution/buy_settlement.py:50-54 | a product of two amounts has at most 256 digits |
| SettlementExactness.SumsFit | ladder_dragon/execution/buy_settlement.py:50-54 | with 258 digits no running sum of up to 10000 fills is rounded |
| SettlementExactness.SettlementNeverRounds | ladder_dragon/execution/buy_settlement.py:44-54 | the settlement in 512 digits is the settlement in unlimited precision |
| SettlementExactness.DefaultPrecisionLosesCommission | ladder_dragon/execution/buy_settlement.py:50-54 | in 28 digits a commission can vanish: a concrete amount |
| SettlementExactness.SettledMeans | ladder_dragon/execution/buy_settlement.py:57-102 | read independently, in whole units of the texts: a settlement exists exactly when the order is a terminal BUY, every fill is its own, priced and brings something in, ids are distinct and exact totals match; net is the sum of quantities less the sum of the commissions paid in base |
| SettlementExactness.OrderOfFillsIsIrrelevant | ladder_dragon/execution/buy_settlement.py:70-102 | the result does not depend on the order of the fills |
| FillEvidence.CheckFills | ladder_dragon/execution/order_fill_evidence.py:33-55 | the loop in 512 digits is the check that `FillExactness.CompleteMeans` characterises |
| FillExactness.CompleteMeans | ladder_dragon/execution/order_fill_evidence.py:11-55 | read independently, in whole units of the texts: fills are complete evidence of an order of either side exactly when the order is an identified terminal one, each fill is whole in itself and of that order and side, ids are distinct and exact totals match; the answer is their ids |
| FillExactness.CompletenessNeverRounds | ladder_dragon/execution/order_fill_evidence.py:37-40 | the check in 512 digits is the check in unlimited precision |
| FillExactness.ListingOrderIsIrrelevant | ladder_dragon/execution/order_fill_evidence.py:41-55 | the answer does not depend on the order of the fills |
| FillEvidence.SettledFillsAreComplete | ladder_dragon/execution/order_fill_evidence.py:11-55 | what the settlement accepted this reader accepts too, for the same trades |
| RateLimiter.Limiter.Request | ladder_dragon/dashboard/access_policy.py:68-83 | admitted exactly when fewer than the limit were admitted in the last 60 seconds of the whole history |
| RateLimiter.Limiter.Prune | ladder_dragon/dashboard/access_policy.py:30-40 | pruning drops only expired admissions and leaves no empty or expired bucket front |
| RateLimiter.Limiter.PopExpired | ladder_dragon/dashboard/access_policy.py:71-75 | popping leaves the part of the bucket after the cutoff |
| RateLimiter.LiveCounts | ladder_dragon/dashboard/access_policy.py:30-40 | a popped bucket is what popping the whole history would leave, and counts the recent admissions |
| RateWindows.NoWindowExceeds | ladder_dragon/dashboard/access_policy.py:70-82 | no sixty seconds see more admissions of a client than the limit |
| RateWindows.AnnouncedWaitSuffices | ladder_dragon/dashboard/access_policy.py:76-81 | waiting the announced Retry-After (section 10.2.3 of RFC 9110) suffices, nothing shorter than the expiry does, and it is at most a second late |
| ExchangeMath.DownIsGreatest | ladder_dragon/execution/exchange_math.py:66-78 | rounding down gives the largest multiple not above the value |
| ExchangeMath.UpIsLeast | ladder_dragon/execution/exchange_math.py:66-78 | rounding up gives the least multiple not below it |
| ExchangeMath.NearestIsClose | ladder_dragon/execution/exchange_math.py:66-78 | rounding to nearest is within half a step, exact halves away from zero |
| ExchangeMath.MultiplesAreFixed | ladder_dragon/execution/exchange_math.py:66-78 | rounding a multiple changes nothing in any mode |
| ExchangeMath.FormattedReadsBack | ladder_dragon/execution/exchange_math.py:81-84 | a multiple of any positive decimal step is printed so that it reads back as exactly that number |
| OrderValues.BoundedOrderIsSound | ladder_dragon/execution/exchange_math.py:87-120 | accepted values are on the lattice, meet minima and maximum, and the quantity is the wanted one floored or, for a BUY, the least that meets the minima |
| OrderValues.RaisedExactlyWhenPossible | ladder_dragon/execution/exchange_math.py:103-119 | a BUY too small in notional is placed exactly when some lattice quantity meets the minima within the maximum |
| OrderValues.PrintedOrderReadsBack | ladder_dragon/execution/exchange_math.py:120 | both texts of an accepted order read back as its values |
| OrderValues.PriceOnLattice | ladder_dragon/execution/exchange_math.py:95-102 | the price is the tick nearest to the wanted one, never above it for a BUY and never below it for a SELL |
| OrderValues.AcceptedExactly | ladder_dragon/execution/exchange_math.py:87-120 | what an order of m steps at the k-th tick becomes, either side: nothing, as it is, raised to the least sufficient number of steps (BUY only), nothing above the maximum, invalid for a negative one |
| OrderValues.NormalizedIsLeast | ladder_dragon/execution/exchange_math.py:123-152 | normalisation gives the least lattice quantity from the floored one up that meets both minima, and refuses only a price that rounds to nothing |

## Left out

- Decimal rounding outside the BUY settlement and `format_step`: amounts are exact rationals, so the 28-digit context of lot arithmetic, digest shares and step division is not modelled.
- Text form of stored decimals, apart from the quantity of a lot, which is modelled as far as it decides whether an update finds its row: everything else is compared by value, and a partial exit's stored text and status as value and status.
- Intents are compared by their immutable fields with the metadata taken as one opaque tag; venue is one fixed venue.
- Plan digests and client order ids are opaque: a plan's digest is the plan itself, and cancelReplace is proved for a client id that the journal does not hold yet.
- The risk-ledger copy of the lots that a cost-basis import rebuilds (only its verdict is a parameter), the migration of old inventory tables that lack exact columns, and writing or reading plan files.
- Commission valuation through market prices: whether a commission is priced is an input.
- `symbol_assets`: base and quote assets are given. Asset names in the settlement are ASCII letters and digits; name and commission validation of the sibling fill reader is a parameter.
- The digest's exclusion texts and its final aggregation over symbols; exclusion itself and every per-symbol figure are modelled.
- Threads and processes: transactions are atomic and sessions sequential. A second writer between the two passes of a lot consumption is outside the model.
- `created_at` ties: intents are ordered by creation, so the latest SELL intent of a BUY is unique.
- OrderJournal.Journal.SettleBuy: takes the evidence as its order id, quantities and an opaque tag for the fills; that settling the fills gives these quantities is the subject of `BuySettlement`, and the size limit of the stored evidence is not modelled.
- ProtectionLifecycle.ClosesOnRecordedExits: covers closures made by this recovery; the placement paths, the supervisor's snapshot and the statistics worker call the same journal transactions on their own evidence. It assumes that an order or list reported as ended does not change, and that a further SELL intent of a BUY is prepared only when it has none or right after a recovery that found it uncovered.
- ProtectionLifecycle.RecordedExitsFit: speaks of recorded exits only, and assumes in addition that such an intent asks for no more than the residual, as the caller computes it.
- ProtectionConservation.NeverOversold: assumes that protections are replaced on settling evidence only, which the caller does not ensure; that the exchange forgets no order and takes nothing back; that the latest protection sells no more than it was placed for; and that the first asked for no more than was acquired, which an OTOCO placed before its BUY has filled need not do.
- Market orders that flatten an unprotected fill, the gap watchdog and user-stream handling.
- CancelReplaceSafety.ThreeOutcomes: assumes that the exchange honours STOP_ON_FAILURE and ONLY_NEW and that an answer which arrives is true.
- Sleep lengths, backoff growth and jitter of the transport: time only moves forward between attempts. Signing, credentials and response body limits are not modelled.
- RequestSafety.RateLimitsAreHonoured: is about requests answered 418 or 429 themselves; a rate limit on the server-time request is shown not to be respected.
- Reading and writing the network recovery record, probing, blockers and notifications: an observation is the input.
- Authentication, cross-site checks and client address selection of the dashboard: only the buckets.
- `plan_buy_order_decimal`, indicators, statistics models, dashboards and launchers.
