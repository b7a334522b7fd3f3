# Tehran option workbench: verified model

A Dafny 4.11 model of the accounting, order-book, payoff and recording logic of a Tehran
option-market workbench, with proofs. `dafny verify dfyconfig.toml` checks all of it. Prices and
money are exact `real` numbers, quantities, dates and times are integers, and everything that
comes from outside (market data, clocks, calendars, price models, storage faults) is a parameter.

| file | what it models |
|---|---|
| Common.dfy | options, sums, a product in the form of repeated addition, the stable sort |
| PaperAccount, PaperTradingStore, PaperBroker | the paper account: valuation and reconciliation, nested transactions over a committed and a working copy, orders and settlements |
| PaperLedger, PaperGuarantees | what every run of the paper account keeps |
| PaperEffects, PaperValuation | what orders and settlements move, what the records add up to, what leaving would bring |
| OrderBook, Fees, Risk | greedy fills, the fee schedule, position sizes |
| Tradability, SignalGenerator, SignalGuarantees, SignalDelivery | the liquidity gate, the generator with leg groups and its memory of repeats, why shrinking a leg after the gate is sound, and what has to come out |
| Payoff, Scanner, ScannerQuotes | expiry payoffs by finitely many probes, iron condors and vertical spreads, and what they are worth in quotes |
| RawSnapshot, MarketRecorder, MarketRecorderGuarantees | one-pass conflict resolution, the append-only database, the life of a snapshot id |
| RecordingLoop | aligned ticks and the loop that follows them |
| CorporateActions, ImpliedVolatility, Drawdown, TradingCalendar | contract adjustment, bisection, drawdown passes, learned holidays |

Objects whose methods change fields are classes here (broker, store, generator, collector,
recorder, action log, calendar); each method is proved against a function of the old state, and
the guarantees are lemmas about runs of those functions. What such a function decides is also said
once without it, as a condition on the inputs.

Where the code does not do what its documentation says, the model follows the code and a lemma
gives the exact condition or a concrete input:

- A finite `max_profit` is wrong exactly when the payoff still rises above the last strike, for
  instance with two share lots against one sold call, or with unequal contract sizes.
- `record_failure` deletes an old failed row before it encodes the payload and outside the
  transaction of the insert. If encoding raises (a lone surrogate in the payload is enough), the
  deletion stays pending, and the next call on that connection that commits makes it final (a
  repeated recording that is already stored succeeds without committing anything).
- The fingerprint of a snapshot is documented to cover the extraction and the times. It covers six
  counts of the one and leaves the stored time of the source out of the other, so a second
  recording of the same payload with other rows and the same counts passes as a retry.
- The reconciliation of the paper account is exact while every contract keeps its size. A size
  revised between purchase and sale, or between purchase and quote, breaks it by the cost so made
  up, also with nothing open any more.
- The take profit "after fees" charges the rate of the leaving order on the entry premium and
  leaves the fixed fee per order out: a buyer falls short, a seller overshoots by the buying fee on
  the move less both fixed fees.
- A capital increase keeps strike times size only if the new size comes out whole.
- A weekday is learned as a holiday exactly when some history whose range covers it lacks it, so a
  thinner history closes a day that another one saw traded. The table of fixed holidays speaks, as
  documented, only where no history covers the day, but not everywhere there: its days before the
  first history and in a gap between two count as trading days.
- `skipped_ticks` and `next_tick` agree across midnight only if the interval divides the days
  between.
- Without a multi-level book the age of a quote is never known, so no chain quote alone is ever
  tradable.
- The bounds check of the implied volatility ignores the dividend yield that the search uses.
- Both occurrences of a contradicting contract are reported, but the earlier one with the side of
  the later one.
- A leg ratio below 1 counts as 1 when the structures are counted and as itself in the emitted
  quantity, which is then not positive.

## Model

| member | source | states |
|---|---|---|
| PaperReconciliation.EveryRunReconciles | option_signal_bot/execution/paper_account.py:310-334 | After any sequence of orders, settlements, resets, reopenings with other fees and calls that raise midway, the reconciliation can be asked exactly when all costs are known and everything is priced, and then its difference is 0 (one contract size per symbol). |
| PaperLedger.RunKeepsLedger | option_signal_bot/execution/paper_broker.py:202-239 | The unconditional invariant behind it, whatever contract sizes are quoted: cash plus the money spent on what is open equals initial balance plus gross P&L of what is closed minus every fee paid plus what sales at revised sizes have made up; recorded fees plus the shares hidden with unknown entry costs equal the fees paid. |
| PaperLedger.RunKeepsSizes | option_signal_bot/execution/paper_broker.py:202-239 | With one contract size per symbol, over any run the money spent is the average price of every open position at its size, and nothing slips. |
| PaperLedger.EventKeepsLedger | option_signal_bot/execution/paper_broker.py:612-678 | Every single event (order, settlement, reset, reopening, exception) keeps that invariant, the audit moving by exactly the money and fee of the event. |
| PaperLedger.BuyKeepsLedger | option_signal_bot/execution/paper_broker.py:293-332 | Buying into a new or existing position at any contract size keeps the ledger: the money spent grows by the cost of the fill, the fees paid by its fee. |
| PaperLedger.SellKeepsLedger | option_signal_bot/execution/paper_broker.py:334-382 | A partial or full sale at any contract size keeps the ledger: the money spent leaves by the share of the contracts sold, as the entry fee does, and what the trade books beyond it is the slip. |
| PaperLedger.MoneyOfAverage | option_signal_bot/execution/paper_broker.py:310-332 | Averaged price times joint quantity is the sum of what the two purchases cost. |
| PaperLedger.SettleIsSale | option_signal_bot/execution/paper_broker.py:612-678 | Settling an expired position has exactly the effect of selling all of it at the given price. |
| PaperReconciliation.ReconciliationDifference | option_signal_bot/execution/paper_account.py:310-334 | In any ledger state the reported difference is the open cost at the quoted contract sizes minus the money really spent on what is open plus the slip of earlier sales, and nothing else. |
| PaperReconciliation.SizeRevisionBreaksIt | option_signal_bot/execution/paper_broker.py:511-563 | For every run, sizes changing at will: the difference is that sum, and so 0 if and only if quoted open cost and slip make up the money spent. |
| PaperReconciliation.RevisedCloseBreaksIt | option_signal_bot/execution/paper_broker.py:334-382 | After any run at fixed sizes, a sale or settlement of one position at a size of its own leaves the account reconciled if and only if that is the size it was bought at. |
| PaperReconciliation.RevisedQuoteBreaksIt | option_signal_bot/execution/paper_broker.py:511-563 | After any run at fixed sizes, one open position quoted at a size of its own leaves the account reconciled if and only if that is the size it was bought at. |
| PaperReconciliation.RevisionBeforeSaleFails | option_signal_bot/execution/paper_broker.py:334-382 | A concrete run: one contract bought at size 1000 and sold at size 1100 leaves nothing open and 1000 unexplained. |
| PaperReconciliation.SnapshotMirrors | option_signal_bot/execution/paper_broker.py:578-591 | The snapshot built from the tables shows their cash, fees, closed trades and cost knowledge, valued at the quoted sizes. |
| PaperValuation.StatusByMarket | option_signal_bot/execution/paper_broker.py:511-566 | A position is priced if and only if its contract is known with a code and not expired and the bids of its book hold all of it; partial depth, no depth, expired and unavailable each by their own condition. |
| PaperValuation.ValuationShowsPosition | option_signal_bot/execution/paper_broker.py:511-541 | It shows the position itself, its open fees and what is known of them, at the quoted contract size. |
| PaperValuation.MarkIsBestExit | option_signal_bot/execution/paper_broker.py:553-566 | The mark price is the average of the most money any way of selling the whole position to the bids brings. |
| PaperValuation.EquityIsCashPlusExits | option_signal_bot/execution/paper_account.py:281-290 | Equity is known if and only if every position could leave in full, and is then cash plus what that brings at the quoted contract sizes. |
| PaperAccount.ReconcileIgnoresPrices | option_signal_bot/execution/paper_account.py:220-334 | Market prices cancel: the difference depends on cash, open cost, realized gross and recorded costs only, and is called ok exactly up to 0.01 either way. |
| PaperCosts.IgnoranceIsAbsorbing | option_signal_bot/execution/paper_account.py:260-269 | Once some cost is unknown no single event but a reset makes the costs known again. |
| PaperCosts.IgnoranceLasts | option_signal_bot/execution/paper_account.py:260-269 | So over any run without a reset they stay unknown. |
| PaperCosts.RecordedCostsAreFeesPaid | option_signal_bot/execution/paper_account.py:271-277 | Over every run the recorded costs are the fees paid since the last reset while the costs are known, and never exceed them with non-negative schedules. |
| PaperCosts.EveryRunKeepsCash | option_signal_bot/execution/paper_account.py:346-364 | With no fixed fee and sell rates of at most 1 in all, no run takes cash below minus the tolerance. |
| PaperCosts.CashStaysAboveFloor | option_signal_bot/execution/paper_broker.py:180-200 | One purchase overdraws by at most the affordability tolerance; sales and settlements do not lower cash then. |
| PaperAccount.EntryFeesLandOnce | option_signal_bot/execution/paper_account.py:367-378 | Closing a position in any pieces down to flat hands out entry-fee shares that add up to exactly the fees paid. |
| PaperAccount.SharesAreLinear | option_signal_bot/execution/paper_account.py:367-378 | Every piece takes the fees of its own contracts, whatever the order and size of the pieces. |
| PaperAccount.SummarizeTrades | option_signal_bot/execution/paper_account.py:381-409 | The accumulating loop totals the trades, and calls the costs complete exactly when no closed trade lacks a fee. |
| PaperAccount.TotalsAreSums | option_signal_bot/execution/paper_account.py:381-409 | Gross, entry and exit costs of the totals are the sums over the trades, with missing fees of each kind noticed. |
| PaperAccount.CompleteMeansNoMissingFee | option_signal_bot/execution/paper_account.py:182-185 | Complete costs mean every closed trade has both fees. |
| PaperBrokers.PaperBroker.PlaceOrder | option_signal_bot/execution/paper_broker.py:119-239 | An order takes its whole effect in memory and on disk or raises and changes nothing, and raises exactly when the storage does not take its statements. It is filled only if nothing blocks it: quantity of at least 1, known side, enough held for a sale, known contract with a code, not expired, a book with depth, and for a purchase money plus fee within cash plus tolerance; the fill is the smaller of order and depth, at the money of the levels eaten and the fee of its side. Otherwise it is refused for the first of these that fails, which changes the order log only. |
| PaperBrokers.FilledIffNothingBlocks | option_signal_bot/execution/paper_broker.py:119-200 | Filled if and only if none of the eight conditions on request, tables and market blocks the order; refused for a reason if and only if that one blocks and none before it does. |
| PaperEffects.FilledOrderMoves | option_signal_bot/execution/paper_broker.py:293-382 | A purchase takes the money of the eaten asks and its fee from cash and adds contracts, money, fee and cost knowledge to the position; a sale adds the money of the eaten bids less its fee, leaves the rest of the position its price, time and proportional fees, and records one closed trade with both prices, both dates, its gross and its net result. Nothing else moves. |
| PaperEffects.OrderIsLogged | option_signal_bot/execution/paper_broker.py:462-498 | The order log gets exactly one row: the fill at its average with its fee and status, or a rejection with zeros. |
| PaperBrokers.PaperBroker.SettlePosition | option_signal_bot/execution/paper_broker.py:612-678 | A settlement books cash, trade and removal together or changes nothing; it needs an open position, a finite price of at least zero and a known contract past its expiry, and fails with the first of these that is missing; a valid settlement raises exactly when the storage does not take its three statements. |
| PaperBrokers.SettledIffNothingPrevents | option_signal_bot/execution/paper_broker.py:612-650 | Valid if and only if those conditions hold; an error if and only if its condition is the first to fail. |
| PaperEffects.SettlementMoves | option_signal_bot/execution/paper_broker.py:650-678 | A settlement moves cash and position and records its trade as a sale of all of it for the given price would. |
| PaperEffects.FlatCashIsResults | option_signal_bot/execution/paper_broker.py:711-744 | Over every run at fixed contract sizes: with nothing open and every entry cost known, cash is the opening balance plus the recorded net results of all closed trades. |
| PaperBrokers.PaperBroker.ApplyBuy | option_signal_bot/execution/paper_broker.py:293-332 | Inside the transaction: new cash and the enlarged position, nothing committed; fails exactly when one of the two statements does. |
| PaperBrokers.PaperBroker.ApplySell | option_signal_bot/execution/paper_broker.py:334-441 | Inside the transaction: cash, reduced or removed position and the closed trade with its fee shares, nothing committed; fails exactly when one of the three statements does. |
| PaperBrokers.PaperBroker.Reset | option_signal_bot/execution/paper_broker.py:775-779 | Reset is a fresh account with the initial balance, or nothing; nothing exactly when one of the four statements fails. |
| PaperBrokers.PaperBroker.constructor | option_signal_bot/execution/paper_broker.py:104-117 | Another broker over an existing account changes nothing; a missing account is opened whenever the storage takes the statement. |
| Transactions.TransactionsAreAtomic | option_signal_bot/storage/paper_trading_store.py:136-166 | Arbitrarily nested blocks, writes, exceptions and swallowed exceptions over the depth counter mean exactly all-or-nothing of the outermost blocks, ending clean. |
| Transactions.InsideNothingIsCommitted | option_signal_bot/storage/paper_trading_store.py:136-166 | Inside a block nothing reaches the disk, and inner blocks change neither depth nor effect. |
| PaperTradingStores.PaperTradingStore.LeaveTransaction | option_signal_bot/storage/paper_trading_store.py:136-161 | Only the outermost exit commits or restores the committed copy. |
| PaperTradingStores.PaperTradingStore.Execute | option_signal_bot/storage/paper_trading_store.py:163-166 | A statement outside any block is on disk at once; a failing one has no effect, and it fails exactly when none is left. |
| PaperTradingStores.PaperTradingStore.Reset | option_signal_bot/storage/paper_trading_store.py:396-415 | The four statements of a reset happen together or not at all; not at all exactly when one of them fails. |
| OrderBooks.FillPrice | option_signal_bot/data/order_book.py:151-173 | The greedy loop fills min(quantity, real depth), a purchase from the asks and a sale from the bids, at the average of the levels eaten front to back. |
| OrderBooks.FillIsBest | option_signal_bot/data/order_book.py:151-173 | On an ordered side the money of that fill is the least paid (or the most received) over every allocation of the same size to the levels, and some allocation attains it. |
| OrderBooks.AverageNeverImproves | option_signal_bot/data/order_book.py:151-173 | A larger order never gets a better average, buying or selling. |
| OrderBooks.SlippageWithinBand | option_signal_bot/data/order_book.py:118-136 | Any order up to depth_within(side, pct) fills completely with a slippage between 0 and pct/100. |
| OrderBooks.DepthWithinIsBand | option_signal_bot/data/order_book.py:118-136 | The depth within a percentage is all that the levels no farther than that from the best price hold. |
| OrderBooks.FromDepth | option_signal_bot/data/order_book.py:193-225 | Each side holds, best price first, exactly the levels that its own price and quantity columns give, as often as the rows give them: a positive price and the whole part of a quantity of at least 1. |
| OrderBooks.GreedyIsOptimal | option_signal_bot/data/order_book.py:151-173 | No allocation of the same total costs less than eating front to back. |
| TradabilityScreening.TradableIsDownwardClosed | option_signal_bot/market/tradability_screener.py:91-220 | On the same reading of the market an order tradable at q is tradable at every smaller positive size. |
| TradabilityScreening.TradableSizesEndAt | option_signal_bot/market/tradability_screener.py:69-82 | One number, at most the exit depth, says exactly which sizes are tradable. |
| TradabilityScreening.TradableExitFillsInFull | option_signal_bot/market/tradability_screener.py:142-197 | A tradable order can leave in full on the exit side of the book. |
| TradabilityScreening.NoBookNeverTradable | option_signal_bot/market/tradability_screener.py:199-220 | Without a multi-level book of known age nothing is ever tradable. |
| TradabilityConditions.TradableIff | option_signal_bot/market/tradability.py:407-521 | Tradable if and only if days to expiry, open interest, trades, relative spread, exit depth over size, exit slippage, age and the share of traded sessions are all known and each meets its own threshold, said of chain quote, book, age and history. |
| TradabilityConditions.RejectedIff | option_signal_bot/market/tradability.py:407-521 | Rejected if and only if one of these figures is known and misses its own threshold. |
| TradabilityConditions.SignalGateIff | option_signal_bot/market/tradability_screener.py:60-81 | The gate of a signal is that condition at its suggested size, at least 1. |
| Risk.QuantityIsLargestThatFits | option_signal_bot/risk/risk_calculator.py:69-115 | The size is the largest that meets contract cap, exposure cap and risk budget: a size of at least 1 fits them if and only if it is not larger. |
| Risk.SizeByLimits | option_signal_bot/risk/risk_calculator.py:69-115 | The same in figures of the account: number, cost against the position percentage, and loss (stop-loss share for a buyer, twice the premium for a seller, plus the fees of both orders) against the risk percentage. |
| Risk.SuggestionTells | option_signal_bot/risk/risk_calculator.py:77-115 | The stop lies the stop-loss percentage of the premium away on the losing side; target, planned loss and fees are those of the size; there is no stop without a size. |
| Risk.TakeProfitDistance | option_signal_bot/risk/fees.py:75-122 | For every schedule, target, size and side: the gain of the whole position at the proposed price after both fees is the target plus the exit rate charged on the premium instead of the price, less two fixed fees. |
| Risk.TakeProfitReachesIff | option_signal_bot/risk/fees.py:111-122 | So the target is reached if and only if that surplus, a figure of the inputs, is not negative, and met exactly if and only if it is 0. |
| Risk.PositionStaysWithinBudget | option_signal_bot/risk/risk_calculator.py:77-115 | Planned loss of the whole position plus the round-trip fee of its whole notional stays within the budget, also with a fixed fee per order. |
| Risk.NothingInvalidIsSized | option_signal_bot/risk/risk_calculator.py:69-102 | The size is never negative, and 0 exactly for an invalid price or contract size or when not even one contract fits the limits. |
| Risk.TakeProfitFallsShort | option_signal_bot/risk/fees.py:111-122 | Against its documentation a buyer never gets more than the target after the fees of both orders, and gets it if and only if there is no fixed fee and either no selling fee or no move (fees and target not negative). |
| Risk.BuyerMissesSeventyPercent | option_signal_bot/risk/fees.py:111-122 | Concrete rates and a target of 70 % that a buyer misses. |
| Risk.TakeProfitOvershoots | option_signal_bot/risk/fees.py:111-122 | A seller whose price stays above 0 gets the buying fee on the move on top of the target, less two fixed fees; nothing extra if and only if there is no buying fee or no move. |
| SignalGeneration.SignalGenerator.ProcessBatch | option_signal_bot/signals/signal_generator.py:164-192 | A batch processes single signals first, then groups in order of first appearance, with the memory, records and dropped groups of the specification. |
| SignalGeneration.SignalGenerator.ProcessLegGroup | option_signal_bot/signals/signal_generator.py:194-248 | Wrong leg counts, the first blocking leg, size 0 and repeats drop the group; otherwise all legs come out resized and remembered once. |
| SignalGeneration.SignalGenerator.PostProcess | option_signal_bot/signals/signal_generator.py:317-387 | Confidence, risk size, gate and memory in this order; a screening that raises rejects without a record. |
| SignalGeneration.SignalGenerator.ResetDedupeCache | option_signal_bot/signals/signal_generator.py:406-408 | Forgets the emissions and nothing else. |
| SignalGuarantees.GroupIsWholeOrNothing | option_signal_bot/signals/signal_generator.py:194-248 | A group is emitted with every leg at k times its ratio, k the largest number of structures that every leg's risk size allows, or not at all. |
| SignalGuarantees.GroupIsEmittedIff | option_signal_bot/signals/signal_generator.py:194-248 | A group is emitted if and only if it is complete, every leg passes confidence and gate, every leg allows one structure, and the structure is no repeat. |
| SignalGuarantees.CompleteGroupIsEmittedIff | option_signal_bot/signals/signal_generator.py:194-248 | The same in inputs: the announced number of legs, confidence, size and gate of each, room for one structure, and no emission of the same symbols, sides and strikes by that strategy less than a window ago. |
| SignalGuarantees.EmittedLegsAreSized | option_signal_bot/signals/signal_generator.py:220-248 | Every leg comes out as its own risk suggestion sized it, but for the quantity. |
| SignalGuarantees.EmittedQuantityIsPositiveIff | option_signal_bot/signals/signal_generator.py:220-237 | A leg of an emitted group has a positive quantity if and only if its ratio is positive, and quantity 0 if and only if its ratio is 0. |
| SignalGuarantees.ZeroRatioIsEmitted | option_signal_bot/signals/signal_generator.py:220-237 | A concrete group with ratios 1 and 0 comes out with a leg of quantity 0. |
| SignalGuarantees.IncompleteGroupIsDropped | option_signal_bot/signals/signal_generator.py:196-228 | A missing leg or one failing leg drops the whole group without touching the memory of repeats. |
| SignalGuarantees.BlockedGroupIsNoted | option_signal_bot/signals/signal_generator.py:205-219 | A complete group with a failing leg leaves a note of all its symbols and of the first leg that failed. |
| SignalGuarantees.BatchEmitsWholeGroups | option_signal_bot/signals/signal_generator.py:164-192 | Over a whole batch each group id comes out with all its legs or none. |
| SignalGuarantees.SingleIsEmittedIff | option_signal_bot/signals/signal_generator.py:317-387 | A single comes out if and only if it is confident enough, worth a contract, tradable at that size and not emitted less than a window ago, and then with size, stop and target of the risk suggestion and its validity, all else unchanged; each answered screening leaves one record. |
| SignalGuarantees.BatchIsTradableAsEmitted | option_signal_bot/signals/signal_generator.py:204-248 | Everything emitted, shrunk legs included, passes the gate at the size it is emitted with (the gate itself screens a size below 1 as 1). |
| SignalGuarantees.EveryRunIsSpaced | option_signal_bot/signals/signal_generator.py:389-404 | Over every run of batches and resets, accepted times per key never decrease and lie at least one window apart, for any order of creation times. |
| SignalGuarantees.BatchIsLogged | option_signal_bot/signals/signal_generator.py:164-248 | The log those theorems speak of grows by exactly the emitted signals of a batch: one entry per single and one per whole group, at their creation times. |
| SignalDelivery.FreshSingleIsEmitted | option_signal_bot/signals/signal_generator.py:164-192 | A single that works comes out of its batch, as sized, unless its key was emitted less than a window ago or came before it in the batch. |
| SignalDelivery.FreshGroupIsEmitted | option_signal_bot/signals/signal_generator.py:164-248 | A complete group whose legs all work comes out of its batch with all its legs, unless its structure was emitted less than a window ago or an earlier group of the batch has the same. |
| SignalDelivery.BatchIsDivided | option_signal_bot/signals/signal_generator.py:164-192 | Every raw signal is handled either as a single or as a leg of its own group. |
| SignalGuarantees.RefusedIffRecent | option_signal_bot/signals/signal_generator.py:394-404 | In every run a candidate is refused as a repeat if and only if its key was emitted less than a window ago. |
| Payoffs.MaxProfitExact | option_signal_bot/strategies/payoff.py:248-261 | A reported maximum profit is attained, and is the maximum over all prices if and only if the payoff does not rise above every strike. |
| Payoffs.MaxLossExact | option_signal_bot/strategies/payoff.py:263-270 | A reported maximum loss is attained, and is the minimum over all prices if and only if the payoff does not fall above every strike. |
| Payoffs.UnlimitedExact | option_signal_bot/strategies/payoff.py:272-303 | The payoff is unbounded above (below) if and only if it rises (falls) above every strike. |
| Payoffs.UniformStructures | option_signal_bot/strategies/payoff.py:248-323 | With one contract size and no short shares: losses are always right, a reported unlimited profit is real, and a finite one is the maximum exactly when long calls plus shares do not exceed short calls. |
| Payoffs.PriceIsBracketed | option_signal_bot/strategies/payoff.py:305-323 | Every price lies between two probes whose payoffs bound it, so finitely many probes are enough. |
| Payoffs.PartlyCoveredCallIsMisread | option_signal_bot/strategies/payoff.py:272-285 | Two share lots against one sold call: a finite maximum profit is reported although none exists. |
| Payoffs.UnequalSizesAreMisread | option_signal_bot/strategies/payoff.py:287-303 | A small bought call against a large sold one: a finite maximum loss is reported although none exists. |
| Scanner.ScanIronCondor | option_signal_bot/strategies/scanner.py:217-285 | The nested loops emit exactly the admissible combinations of the five puts and calls nearest the spot per expiry, best return first, cut at the limit; the rows of the two scanner guarantees below say what that is in contracts and quotes. |
| Scanner.VerticalSpreads | option_signal_bot/strategies/scanner.py:290-371 | The loop emits exactly the pairs that pass width, consistency and profit checks, best return first, cut at the limit. |
| ScannerGuarantees.EmittedCondor | option_signal_bot/strategies/scanner.py:217-285 | Every emitted condor is four accepted contracts of one expiry with strikes ascending around the spot, bringing a credit, and fewer than five puts (calls) of that expiry lie between the spot and its outer put (call). |
| ScannerGuarantees.CondorIsFound | option_signal_bot/strategies/scanner.py:231-282 | Every such condor is a candidate if at most five puts (calls), equal strikes included, are as near to the spot as its outer put (call). |
| ScannerGuarantees.CandidatesAreTheNear | option_signal_bot/strategies/scanner.py:231-282 | With one put and one call per strike the candidates are exactly the condors of four accepted contracts whose outer ones have fewer than five between them and the spot: none is missed, none is added. |
| ScannerGuarantees.CondorExtremes | option_signal_bot/strategies/scanner.py:255-282 | At one contract size the probe engine reports credit less commission as its maximum profit and that less the wider wing times the size as its maximum loss. |
| ScannerQuotes.LegTakesQuote | option_signal_bot/strategies/payoff.py:495-512 | A bought leg costs the ask and a sold one brings the bid; only for a missing or zero quote the last price stands in, or 0. |
| ScannerQuotes.CondorIffCredit | option_signal_bot/strategies/scanner.py:255-282 | Four accepted contracts of one size are a condor if and only if the bids of the short ones exceed the asks of the long ones (a last price standing in for a missing quote), and the credit is that per share times the size. |
| ScannerQuotes.CondorInQuotes | option_signal_bot/strategies/payoff.py:495-512 | Credit, maximum profit and maximum loss of a condor in the bids and asks of its four contracts, the commission on all four and the wider wing. |
| ScannerGuarantees.SpreadIsFound | option_signal_bot/strategies/scanner.py:290-371 | The candidates are exactly the spreads of two accepted contracts of one kind and expiry that pass the checks: none is missed, none is added. |
| ScannerGuarantees.EmittedSpread | option_signal_bot/strategies/scanner.py:290-371 | Every emitted vertical spread is two accepted contracts of one kind and expiry that pass the checks. |
| ScannerGuarantees.SpreadExtremes | option_signal_bot/strategies/scanner.py:320-366 | In all four variants maximum profit minus maximum loss is the width times the size; the profit is positive and the loss smaller than the width. |
| ScannerQuotes.SpreadInQuotes | option_signal_bot/strategies/scanner.py:317-371 | Net premium, maximum profit and maximum loss of a spread in the ask of its long and the bid of its short contract, its width and the commission on both. |
| ScannerQuotes.SpreadPremium | option_signal_bot/strategies/payoff.py:495-512 | Its premium also where a quote is missing and the last price stands in. |
| ScannerQuotes.SpreadIffQuotes | option_signal_bot/strategies/scanner.py:317-371 | Two contracts of one kind and size are emitted as a spread if and only if, in these quotes, the width fits the spot, the premium is no more than the width either way, and there is something to win after commission. |
| ScannerQuotes.AcceptedIff | option_signal_bot/strategies/scanner.py:56-81 | A contract is usable if and only if it expires within the window of days, is liquid, and has sound quotes on both sides or, where that is not asked for, some price. |
| ScannerQuotes.ReturnOnRisk | option_signal_bot/strategies/payoff.py:194-217 | The return is the maximum profit over what the structure costs, or over what it can lose when it costs nothing. |
| ScannerQuotes.EmittedCount | option_signal_bot/strategies/scanner.py:284-285 | The list holds candidates only, and as many as the limit allows. |
| ScannerQuotes.EmittedBestFirst | option_signal_bot/strategies/scanner.py:284-285 | The list is ordered by return, and no candidate left out returns more than one in it. |
| RawSnapshots.Extract | option_signal_bot/data/raw_snapshot.py:274-326 | A contract is kept exactly when all its readings agree, and once; so is an underlying; conflicts name exactly the contested contracts and rows that read them; what cannot be read is rejected row by row and side by side in order; and twice the dictionary rows equals kept plus duplicates plus contract conflicts plus rejected sides. |
| RawSnapshots.KeptIgnoresOrder | option_signal_bot/data/raw_snapshot.py:300-326 | What is kept does not depend on the order of the rows. |
| RawSnapshots.EarlierReadingIsMisplaced | option_signal_bot/data/raw_snapshot.py:359-375 | The earlier of two contradicting readings is reported with its own row and the side of the later one. |
| RawSnapshots.Collector.CollectSide | option_signal_bot/data/raw_snapshot.py:329-374 | First reading, identical repeat, first and further contradiction and rejection, each with its effect on the lists. |
| RawSnapshots.Collector.CollectUnderlying | option_signal_bot/data/raw_snapshot.py:377-416 | Identical repeats are silent; the first contradiction of an underlying is reported once. |
| MarketRecorders.MarketRecorder.Record | option_signal_bot/storage/market_recorder.py:364-482 | Kind guard, idempotent retry, conflict on another fingerprint, else the whole snapshot at once or nothing; nothing exactly when the storage does not take all its statements. |
| MarketRecorders.MarketRecorder.RecordFailure | option_signal_bot/storage/market_recorder.py:484-556 | Never over a usable snapshot; replaces an older failure; an encoding error leaves the deletion of the old row pending; fails exactly at the statement the storage does not take. |
| MarketRecorders.MarketRecorder.WriteRows | option_signal_bot/storage/market_recorder.py:567-644 | The loops write every quote with its spec version, every underlying, rejection, conflict and invalid field, count the quotes, and fail exactly when one of these statements does. |
| MarketRecorders.FindSpec | option_signal_bot/storage/market_recorder.py:646-683 | The version found has exactly the same terms and is the first such. |
| MarketRecorderGuarantees.EveryRunKeeps | option_signal_bot/storage/market_recorder.py:364-556 | Over every run: no partial row is committed, every row has the database's kind, failed ids own no child rows, a usable snapshot shows exactly its extraction, and it, its rows and the specs they point to never change. |
| MarketRecorderGuarantees.EveryHistoryKeeps | option_signal_bot/storage/market_recorder.py:364-556 | From an empty database: whatever was usable at any moment of any history is unchanged at its end. |
| MarketRecorderGuarantees.RetryChangesNothing | option_signal_bot/storage/market_recorder.py:401-420 | A second recording of an id changes nothing; it is answered with the first count if and only if the fingerprints agree, and refused otherwise. |
| MarketRecorderGuarantees.OtherRowsPassAsRetry | option_signal_bot/storage/market_recorder.py:763-797 | Two concrete recordings of one payload, with another value read and another time of the source: the fingerprints agree, and the second is answered as a retry. |
| MarketRecorderGuarantees.RecordAnswers | option_signal_bot/storage/market_recorder.py:364-482 | Every answer of a recording by its own condition on kind, encoding, what is stored under the id (payload, origin, times and six counts alike or not) and the storage. |
| MarketRecorderGuarantees.FailureAnswers | option_signal_bot/storage/market_recorder.py:484-556 | Every answer of recording a failure likewise. |
| MarketRecorderGuarantees.RecordedRowTells | option_signal_bot/storage/market_recorder.py:421-469 | The row of a recording is complete if and only if there was no conflict, no rejection and no invalid field in any quote or underlying, and complete with issues otherwise; it shows kind, time, content and count. |
| MarketRecorderGuarantees.FailedRowTells | option_signal_bot/storage/market_recorder.py:513-556 | A recorded failure shows kind, time and error, and no other row changes. |
| MarketRecorderGuarantees.SpecsAreDated | option_signal_bot/storage/market_recorder.py:646-683 | Versions of contract terms stay, and new ones carry the time of the recording that brought them. |
| MarketRecorderGuarantees.LifeStep | option_signal_bot/storage/market_recorder.py:364-556 | Each id follows a machine of four states (unknown, failed, failed with its deletion pending, usable), moved only by what the call commits, rolls back or deletes astray. |
| MarketRecorderGuarantees.FailedIsLeft | option_signal_bot/storage/market_recorder.py:484-556 | One call makes a failed id leave that stage if and only if its deletion is pending, the call commits, and it is not a failure for the same id. |
| MarketRecorderGuarantees.FailedIsLostIff | option_signal_bot/storage/market_recorder.py:484-556 | Over any run from a clean state a failed id stays failed throughout if and only if no call commits one of its stray deletions. |
| MarketRecorderGuarantees.LifeOverARun | option_signal_bot/storage/market_recorder.py:484-556 | Without a stray deletion an id only goes from absent to failed or usable; failed stays failed and usable stays usable. |
| MarketRecorderGuarantees.OnlyStrayDeletesStayPending | option_signal_bot/storage/market_recorder.py:513-533 | A deletion stays pending if and only if a failure call for an id already failed has a payload that cannot be encoded. |
| MarketRecorderGuarantees.StrayDeleteForgetsAFailure | option_signal_bot/storage/market_recorder.py:513-533 | From every clean state: after such a call the next recording of that id makes the failed id usable. |
| MarketRecorderGuarantees.StrayDeleteLosesAFailure | option_signal_bot/storage/market_recorder.py:513-533 | From every clean state: after such a call any other call makes the failed id unknown again if and only if it commits. |
| MarketRecorderGuarantees.FailureForgottenFromEmpty | option_signal_bot/storage/market_recorder.py:484-556 | Three concrete calls on an empty database turn a failed id into a usable one. |
| MarketRecorderGuarantees.ExtractedIsShown | option_signal_bot/storage/market_recorder.py:567-644 | What a recorded extraction leaves behind: every quote and underlying is there with its values, the stored count is right, and the details tables hold exactly its rejections, conflicts and invalid fields. |
| MarketRecorderGuarantees.NotesTell | option_signal_bot/storage/market_recorder.py:567-644 | Those notes are every invalid field under the code of its contract, or the code of its underlying (its symbol where it has no code), every rejection and every conflict, and no others. |
| MarketRecorderGuarantees.StoredCountIsRowCount | option_signal_bot/storage/market_recorder.py:455-465 | The stored count is the number of quote rows if and only if no contract code came twice. |
| RecordingLoop.LoopForever | option_signal_bot/scripts/record_market.py:529-584 | For any non-decreasing clock, calendar and recording results: the first round asks at the first reading and each one right behind the last, every target is the next tick after asking and the first reading that reaches it wakes, targets strictly increase, no slot is recorded twice, a round records if and only if the calendar does not rule out its day and its moment lies between the start and the end of the session with its grace, and only misuse or the end of readings or results ends the loop. |
| RecordingLoop.SleepUntil | option_signal_bot/scripts/record_market.py:587-598 | Wakes at the first reading that is not before the target, and not at all only if there is none. |
| Schedules.NextTickIsFirst | option_signal_bot/market/schedule.py:121-136 | The next tick is the first moment after now on the grid of now's day. |
| Schedules.DecisionByTime | option_signal_bot/market/schedule.py:167-185 | No trading day, session open, closing grace and outside the window, each by its own condition on the time of day. |
| Schedules.SameDayCount | option_signal_bot/market/schedule.py:139-149 | Within a day the next tick after a delay is the expected one plus skipped plus one intervals. |
| Schedules.OtherDayCount | option_signal_bot/market/schedule.py:139-149 | Across midnights that holds if and only if the interval divides the days between. |
| Schedules.SevenHoursDoNotFit | option_signal_bot/market/schedule.py:139-149 | A concrete night at an interval of seven hours where it does not hold. |
| Schedules.WakesInLaterSlot | option_signal_bot/scripts/record_market.py:550-553 | Whoever waits for the next tick wakes in a strictly later slot than anything before. |
| CorporateActions.AdjustmentComposes | option_signal_bot/market/corporate_actions.py:179-204 | Adjusting from a to b and from b to c is adjusting from a to c, for any mix of dividends and capital increases. |
| CorporateActions.NetRatioComposes | option_signal_bot/market/corporate_actions.py:240-251 | The net ratio is multiplicative over the same split. |
| CorporateActions.SinceIsInterval | option_signal_bot/market/corporate_actions.py:174-177 | The pending actions are exactly those behind the reference day and not behind the end. |
| CorporateActions.StrikeFollowsNetRatio | option_signal_bot/market/corporate_actions.py:121-136 | With capital increases only, the strike is the original times the net ratio. |
| CorporateActions.DividendsLowerTheStrike | option_signal_bot/market/corporate_actions.py:121-136 | With dividends only, the strike is the original less all of them together, never below zero, and the size stays. |
| CorporateActions.SizeIsRounded | option_signal_bot/market/corporate_actions.py:121-136 | The new size is the old one over the ratio, rounded to the nearest whole number (of two the even one), and at least 1. |
| CorporateActions.DriftIsBounded | option_signal_bot/market/corporate_actions.py:121-136 | Rounding moves strike times size by at most half the sum of the strikes passed, while no size is lifted to 1. |
| CorporateActions.ValueIsKeptExactly | option_signal_bot/market/corporate_actions.py:121-136 | One capital increase keeps strike times size if and only if the new size comes out whole (or the strike is 0). |
| CorporateActions.SevenTenthsMoveTheValue | option_signal_bot/market/corporate_actions.py:121-136 | A concrete contract whose value a ratio of 0.7 changes. |
| CorporateActions.AdjustedHistoryHasNoJump | option_signal_bot/market/corporate_actions.py:206-238 | Two candles come out with the same prices in adjusted history if and only if the ratios between their dates are all that moved them. |
| CorporateActions.AdjustedKeeps | option_signal_bot/market/corporate_actions.py:206-238 | Date and volume of a candle stay, and a candle on or behind the last capital increase stays as it is. |
| CorporateActions.CorporateActionLog.Add | option_signal_bot/market/corporate_actions.py:170-172 | The log stays in order; the new action goes behind those of the same date. |
| CorporateActions.CorporateActionLog.Adjust | option_signal_bot/market/corporate_actions.py:179-204 | The loop applies exactly the actions after issue up to the given day, or the current one if none is given, in order. |
| CorporateActions.CorporateActionLog.NetRatio | option_signal_bot/market/corporate_actions.py:240-251 | The loop multiplies the ratios of the capital increases in the interval. |
| CorporateActions.CorporateActionLog.AdjustHistory | option_signal_bot/market/corporate_actions.py:206-238 | Every candle is rescaled by the product of the ratios after its own date, and nothing else changes. |
| ImpliedVolatilities.ImpliedVolatility | option_signal_bot/pricing/implied_volatility.py:34-93 | An answer if and only if premium and time are positive and the premium lies between the dividend-free prices at the ends of the range; strictly inside the range, and pricing within tolerance or the middle of an n times halved bracket, for any price and vega functions. |
| ImpliedVolatilities.Bisect | option_signal_bot/pricing/implied_volatility.py:108-132 | Always answers, strictly inside the range, keeping a bracket halved at every step. |
| ImpliedVolatilities.BracketsEnclose | option_signal_bot/pricing/implied_volatility.py:18-31 | Brackets enclose the premium if and only if the ends of the range do. |
| ImpliedVolatilities.AnswerAtTheEdge | option_signal_bot/pricing/implied_volatility.py:108-132 | For an increasing price whose ends do not enclose the premium, the answer is within tolerance or lies half a last bracket from the end it should have passed. |
| ImpliedVolatilities.DividendsEscapeTheCheck | option_signal_bot/pricing/implied_volatility.py:18-31 | A concrete pair of prices, with and without dividends, where the check passes and the brackets do not enclose the premium. |
| ImpliedVolatilities.AnswerIsNear | option_signal_bot/pricing/implied_volatility.py:108-132 | For an increasing price the answer is within half a bracket of the exact volatility, or prices within tolerance. |
| Drawdowns.MaxDrawdown | option_signal_bot/backtest/metrics.py:136-151 | The single pass gives the largest fall over all pairs of points of the cumulative curve, None for no results. |
| Drawdowns.EquityCurve | option_signal_bot/backtest/metrics.py:120-133 | Point k of the curve is the sum of the first k results. |
| Drawdowns.LongestLosingStreak | option_signal_bot/backtest/metrics.py:154-166 | The most losses in any stretch without a win; zeros neither break nor count. |
| Drawdowns.RealizedDrawdownOf | option_signal_bot/execution/paper_broker.py:711-773 | Opening balance plus the results of the window is initial balance plus all results, and the loop computes both worst falls over the window's balances. |
| Drawdowns.RealizedIsLargestFall | option_signal_bot/execution/paper_broker.py:746-764 | The currency figure is the largest fall from any balance, the opening one included, to a later one. |
| Drawdowns.RealizedPctIsLargest | option_signal_bot/execution/paper_broker.py:746-764 | The percentage figure: no fall from a positive highest balance so far is a larger part of it, and a figure above 0 is such a fall. |
| Drawdowns.WorstIsLargest | option_signal_bot/execution/paper_broker.py:750-764 | Each figure is the largest of its falls, dated by the first trade that reached it. |
| Drawdowns.WindowIsSuffix | option_signal_bot/storage/paper_trading_store.py:384-393 | The day filter of a list in closing order is a suffix of it, and takes exactly the trades closed on or after that day. |
| TradingCalendars.LearnedRangeIsExact | option_signal_bot/market/trading_calendar.py:230-268 | Right after a learning, a weekday in its range is a trading day if and only if it was traded and was no known holiday before. |
| TradingCalendars.CountIsNumberOfDays | option_signal_bot/market/trading_calendar.py:353-362 | For days that were no known holidays, the trading days between first and last are exactly those days, weekends aside. |
| TradingCalendars.HolidaysStay | option_signal_bot/market/trading_calendar.py:230-268 | However much is learned later, a known holiday stays one. |
| TradingCalendars.WeekendAfterMonday | option_signal_bot/market/trading_calendar.py:136-142 | The weekend is the third and fourth day behind a Monday. |
| TradingCalendars.LearnedAreTheLacking | option_signal_bot/market/trading_calendar.py:230-268 | After any list of histories a day is a learned holiday if and only if it was one before or is a weekday that some history covers and lacks, whatever the other histories say. |
| TradingCalendars.AnswerIsExact | option_signal_bot/market/trading_calendar.py:320-334 | The whole answer after any list of histories: weekends, known holidays, weekdays lacking in a covering history, and behind the end of all of them the fixed table. |
| TradingCalendars.UncoveredDaysCountAsOpen | option_signal_bot/market/trading_calendar.py:320-334 | The fixed table speaks only for days no history covers; compared with letting it speak for all of them, the answer differs if and only if the day is an unlearned weekday of the table that no history covers and that does not lie behind them all. |
| TradingCalendars.GapBetweenHistories | option_signal_bot/market/trading_calendar.py:320-334 | A concrete day of the table between two histories that counts as open. |
| TradingCalendars.ThinnerHistoryCloses | option_signal_bot/market/trading_calendar.py:230-268 | A concrete traded day that a later, thinner history of the same range closes. |
| TradingCalendars.TradingCalendar.LearnFromHistory | option_signal_bot/market/trading_calendar.py:230-268 | The walk adds exactly the untraded weekdays of the range, counts the new ones, and widens the observed range. |
| TradingCalendars.TradingCalendar.IsHoliday | option_signal_bot/market/trading_calendar.py:310-334 | A weekend answers before any learning; any other question uses the deferred learner up, once. |
| TradingCalendars.TradingCalendar.TradingDaysBetween | option_signal_bot/market/trading_calendar.py:353-362 | The loop counts the trading days of the interval, both ends included, as the calendar knows them afterwards; the deferred learner is used up if and only if the interval has a weekday. |

## Left out

- Floating-point rounding and the rounding of displayed prices: all arithmetic is exact.
- Network clients, broker adapters, notifiers, the dashboard, command lines: no core logic.
- SQL text, compression, hashing, JSON: tables are maps and sequences, the fingerprint is the record of what is hashed, and so injective.
- Black-Scholes formulas: price, vega and the initial guess are parameters of the search.
- The Jalali conversion and the table of fixed holidays: one predicate on days.
- Breakevens, calendar spreads, straddles, collars, ranking and liquidity scores: approximations by design or easy members.
- Walk-forward folds, health checks, reports, configuration, migrations, process locks: mostly text or guarantees of the platform.
- Open orders, cancelling, modifying and the average-based ratios of the account: constants or short arithmetic.
- Entry-side figures and display fields of a liquidity observation: the verdict does not use them.
- Blocked cash: the paper account has none, so available cash is cash.
- PaperReconciliation.EveryRunReconciles: sums over open positions do not depend on their order, which the model takes from mathematics; the code adds floats in table order.
- PaperReconciliation.RevisedCloseBreaksIt: the other open positions keep their sizes; several revisions could cancel each other, which PaperReconciliation.SizeRevisionBreaksIt covers.
- ScannerGuarantees.CondorIsFound: where equal strikes straddle the fifth place, the order of the table decides which contract is kept, and the lemma does not say which.
- PaperCosts.EveryRunKeepsCash: not for a fixed fee per order, which may exceed the proceeds of a sale, since sales and settlements have no affordability check.
- PaperTradingStores.PaperTradingStore.Execute: statements may fail, commits may not.
- MarketRecorders.MarketRecorder.Record: statements may fail at any point of the writing, commits may not; foreign keys are not enforced but proved never to be violated.
- MarketRecorders.MarketRecorder.RecordFailure: the texts of errors and the stored payload of a failure are not kept.
- RawSnapshots.Extract: reading the single fields of a row is not modelled; a side of a row comes in as read or refused, and a payload that is no list of rows is refused before.
- SignalGeneration.SignalGenerator.ProcessBatch: the joined text of a key is taken to be injective, a signal is a value (the metadata dictionary that a sized signal shares with the raw one is not), and metadata that is no number would raise before.
- SignalGuarantees.BatchIsTradableAsEmitted: over one reading of the market per symbol, and with books as `from_depth` builds them.
- TradabilityScreening.TradableIsDownwardClosed: reading the book again may of course bring another book.
- RecordingLoop.LoopForever: an interrupt is the end of the clock readings or of the recording results; time zones are fixed offsets; locks and the opening of the database are not modelled.
- CorporateActions.CorporateActionLog.Adjust: the other fields of a contract and the parsing of share-change rows are not modelled.
- ImpliedVolatilities.AnswerIsNear: assumes that some volatility of the range prices exactly, as a continuous price would give.
- Drawdowns.RealizedDrawdownOf: trades closed at the same instant are taken in table order.
- TradingCalendars.TradingCalendar.IsHoliday: a deferred learner brings trading days or fails silently; the cache file is not modelled.
