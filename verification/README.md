# Aleph-One, in Dafny

This project models the parts of Aleph-One in which state, arithmetic and concurrency meet, and proves
what they are for:

- **The virtual broker** (`Broker`, `BrokerLedger`, `BrokerValue`, `BrokerStore`, `BrokerConcurrency`):
  two cash accounts, a holdings table, an order log and an audit log, changed by orders and resets.
  `Broker` says what one call does to the committed tables. `BrokerStore` runs the statements in place
  and is proved against it. `BrokerLedger` and `BrokerValue` prove what every run keeps.
  `BrokerConcurrency` splits each call into its locking, reading, writing and commit steps and proves
  that every schedule equals some one-after-another order.
- **Portfolio summary and cache** (`Portfolio`), **sector allocation** (`Allocation`) and the
  **market table refresh** (`MarketUpsert`).
- **Backtest** and **RSI** (`Backtest`, `Rsi`): the vectorised program equals the trading it stands for.
- **Server-sent events**: words to frames to chunks to text (`TokenStream`, with `JsonText` as a witness
  that its requirement on JSON can be met), the browser's reconnect machine (`Reconnect`), and the alert
  ring and collector task of the server (`LiveState`).

## Conventions

Cash, initial balances, average costs, notionals and commissions are integers in units of 10^-4. Stored
quantities and the slipped fill price are integers in units of 10^-6. What callers pass in (quantity,
price, rates, live prices) is an exact real. Percentages are kept in the unit of their last decimal.

Two roundings are mixed by the source and kept apart here (`Rounding`): Python's `round` (ties to even)
before a value is sent, and the cast to a `NUMERIC(_, s)` column (ties away from zero) on arrival. Apart
from the exact conditions on stored quantities, the lemmas about ties and the concrete examples below, the
proofs use only what the two share: they are monotone, leave grid points alone and stay within half a unit.

Clocks, random numbers, live prices and the order in which a reset's scan meets the two account rows are
parameters. Objects that the source mutates are classes whose methods are proved equal to a step of a
specification; the properties are lemmas about that specification.

## What turned out to need a condition

- *Holdings equal the fold of the order log.* A sale whose quantity lies half-way between two stored
  quantities leaves one unit too many in the row, because both columns round the half upwards. Over any
  run the difference is the number of such sales filled since the last reset (`HoldingsDrift`), so the
  property holds if and only if there was none (`HoldingsMatchExactly`, with `HalfwaySaleDrifts` as the
  example); quantities on the 10^-6 grid never are half-way.
- *Holdings rows are strictly positive.* Off the grid a fill can store 0; `RowPositiveExactly` gives the
  exact condition over any run and `OffGridPurchaseLeavesEmptyRow` an example.
- *No free money.* For a price and slippage it holds for all quantities on the grid exactly when the rounded
  fill price is not better than the quoted price (`FreeMoneyExactly`); price times slippage of half a unit
  of 10^-6 is enough. For a quantity it holds at all such prices exactly when the stored quantity does not
  round in the trader's favour (`QuantityFairExactly`); quantities on the grid never do. The failing side
  is always an order that some database reached from a fresh one fills; `SeededOrdersPay` has two.
- *The columns of a snapshot add up.* Exactly unless the holdings value lies half-way between two units and
  the cash is odd, since the total is rounded on its own (`ColumnsAddUpExactly`, `OddCashHalfUnit`).
- *Locks never deadlock.* While all resets meet the account rows in one order, every schedule can be run to
  its end (`EveryScheduleCanFinish`); two that disagree can wait for each other
  (`DisagreeingResetsDeadlock`).
- *Live and backtest dead crosses agree.* They differ exactly on the ties described in
  `LiveDeadAgreesExactly` (`FallOntoTie`, `FallOffTie`), and with exactly 20 bars only the backtest can
  report a cross (`FirstBarCross`).
- *Mirrored prices mirror the RSI.* Exactly unless one of the averages lies strictly between 0 and the
  cut-off, or both are 0 (`MirroredRsi`); a flat series is the plain example (`FlatSeriesReadsHundred`).
- *A falling series reads 0.* Exactly when its average fall reaches the cut-off; a slower fall reads 100
  (`FallingReadsZeroExactly`).
- *The retry count is the number of errors since the last good frame, up to 5.* Exactly when none of them
  found a retry due, or five did not (`RetryCountExactly`); a mount during the wait makes the difference
  (`MountDuringWait`).
- *Retry delays stay under 30 s.* The cap is applied before the jitter, so a delay exceeds it exactly in
  the upper half of the jitter once the count has reached 4 (`CapExceededExactly`); five errors in a row
  are enough (`FifthRetryExceedsCap`).
- *The refresh deletes only what it fetches again.* Exactly when every row of a fetched ticker at or after
  the start of the window is fetched (`RefreshKeepsRowsExactly`); a bar that the next fetch of its ticker
  leaves out is lost (`SkippedRowIsLost`).
- *The refresh keeps what a window per ticker would keep.* All fetched tickers share one window start, so
  it fails exactly when the table holds a row between that start and its own ticker's first fetched row
  (`SharedWindowLosesRowsExactly`, with `MiddleRowIsLost` as the example).
- *The collector is cancelled when the last client leaves.* No task is kept exactly when every opened stream
  has been finalised (`CollectorLifecycle`), so not if the generator of one of them never runs
  (`UnstartedStreamKeepsCollector`).

Where comments and code disagree the code is modelled: the "30 s cap" of the reconnect module, and the
"DELETE existing rows in that date window for the affected tickers" of the market refresh.

## Model

| member | source | states |
|---|---|---|
| Rounding.TiesDiffer | src/database.py:1645-1651 | Half-way between two units, Python's round goes to the even one and a column away from zero. |
| BrokerStore.VirtualBroker.constructor | src/database.py:337-384 | A fresh database is the seeded one: both accounts at their opening balances, no holdings, no orders. |
| BrokerStore.VirtualBroker.ExecuteVirtualOrder | src/database.py:1637-1765 | Statement by statement, the four tables and the answer become those of the order's specification; a rejected order leaves every table as it was. |
| BrokerStore.VirtualBroker.UpsertHolding | src/database.py:1681-1687 | An existing row keeps its currency column; a new one gets the order's. |
| BrokerStore.VirtualBroker.AddCash | src/database.py:1688-1692 | Only the cash of one account moves, by the given amount. |
| BrokerStore.VirtualBroker.ResetVirtualPortfolio | src/database.py:1953-1958 | Every balance is back at its initial value and holdings and orders are gone, while the audit log and the id sequence stay. |
| BrokerStore.VirtualBroker.GetPortfolioHoldings | src/database.py:1774-1789 | The rows returned are the table: each ticker once, with its current row, in ascending order of ticker. |
| BrokerStore.MarkToMarket | src/database.py:1830-1839 | The dictionary built by the loop holds, for every currency, the mark-to-market value of its rows, and nothing for a currency without rows. |
| BrokerStore.ListingWorthTable | src/database.py:1830-1839 | Any listing of the table is worth what the table is worth, whatever order the rows come in. |
| BrokerStore.PriceMovesValue | src/database.py:1836-1839 | A change of one live price moves the table's value by the shares held times the change, in the row's currency and no other. |
| BrokerStore.FirstDifferenceDecides | src/database.py:1779 | The ticker order is alphabetical: the first differing character decides, and a name precedes its extensions. |
| BrokerStore.VirtualBroker.RecordPortfolioNav | src/database.py:1824-1860 | One snapshot per account: its cash column is the account's cash, its holdings column the value of the whole table to half a unit, and its total the one returned, which is their exact sum to half a unit; an earlier snapshot of the same instant is kept and no other row appears. |
| BrokerStore.VirtualBroker.InsertSnapshots | src/database.py:1844-1857 | The insert loop stores such a row for every account, keeps conflicting rows and returns the stored totals. |
| BrokerStore.ColumnsAddUpExactly | src/database.py:1848-1854 | Total is cash plus holdings column, if and only if the holdings value is not half-way between two units while the cash is odd. |
| BrokerStore.OddCashHalfUnit | src/database.py:1848-1854 | Cash of one unit and half a unit of holdings are stored as 1, 0 and a total of 2. |
| BrokerLedger.NotionalNonNegative | src/database.py:1644-1651 | With rates in [0, 1] no fill price, notional or commission is negative, and the commission never exceeds the notional. |
| BrokerLedger.CodesAndNames | src/database.py:1596-1598 | Six-digit codes are won, and any ticker with another character, or none at all, is dollars. |
| BrokerLedger.FilledExactly | src/database.py:1637-1700 | An order is filled if and only if quantity and price are positive, its currency has an account, and it neither overdraws that account nor sells more than is held; otherwise no table changes. |
| BrokerLedger.RejectionExplained | src/database.py:1637-1700 | The reason answered is the first that applies, with the figures that decided. |
| BrokerLedger.FillIsRecorded | src/database.py:1688-1765 | A fill appends one row to each log under the next id; the audit row keeps what was ordered and what it came to, the order row is that to its columns' precision, the answer repeats it, and exactly that moves the one account. |
| BrokerLedger.FillMovesHolding | src/database.py:1679-1720 | A fill moves the holding by exactly the quantity the order log records, plus one unit of 10^-6 in the trader's favour if and only if it is a sale half-way between two stored quantities. |
| BrokerLedger.HalfwaySaleDrifts | src/database.py:1701-1708 | From a fresh account, buying 2 units and selling 1.5 leaves one unit in the row while the order log says none is left. |
| BrokerLedger.FilledRowPositive | src/database.py:1679-1708 | A row left by a fill is strictly positive if and only if the exact new quantity is at least half a unit of 10^-6. |
| BrokerLedger.RowPositiveExactly | src/database.py:1679-1708 | After any run, a holdings row is strictly positive if and only if its last fill left at least half a unit of 10^-6 before rounding. |
| BrokerLedger.OffGridPurchaseLeavesEmptyRow | src/database.py:1679-1687 | From a fresh account, a purchase of 0.4 units of 10^-6 leaves a row of zero shares. |
| BrokerLedger.RunKeepsSolvent | src/database.py:1670-1714 | No run with rates in [0, 1] overdraws an account, whatever the quantities. |
| BrokerLedger.RunKeepsCash | src/database.py:1688-1743 | After any run at all, cash is the initial balance plus the exact fold of the audit notionals and commissions written since the last reset. |
| BrokerLedger.HoldingsDrift | src/database.py:1679-1720 | After any run at all, a holding exceeds the fold of the order log since the last reset by one unit for each half-way sale filled since then, and by nothing else. |
| BrokerLedger.HoldingsMatchExactly | src/database.py:1679-1720 | So after a run holdings equal that fold, with the currency of their ticker, if and only if no half-way sale has been filled since the last reset. |
| BrokerLedger.RunKeepsRows | src/database.py:1679-1743 | After any run on the 10^-6 grid every holdings row is strictly positive, and the order log is the tail of the audit log seen through its own columns. |
| BrokerLedger.AuditIsAppendOnly | src/database.py:1724-1743 | Whatever a run does, resets included, the old audit rows stay in front and the id sequence never goes back. |
| BrokerLedger.RunKeepsIds | src/database.py:1716-1743 | Order ids in the audit log ascend and stay below the next one over any run. |
| BrokerLedger.RunKeepsAccounts | src/database.py:1653-1660 | No run opens or closes an account or changes an initial balance. |
| BrokerLedger.RebuiltCashError | src/database.py:271-283 | Cash rebuilt from any order log with four-decimal fill prices is off from the audited cash by at most half a unit of 10^-4 times (quantity + 1) per order. |
| BrokerLedger.BooksBalance | src/database.py:1637-1744 | Main result for runs from a fresh database: solvency, positive rows, holdings and cash as folds of the two logs, and the bound on cash rebuilt from the order log alone, all at once. |
| BrokerValue.NestedRoundingError | src/database.py:1618-1651 | The cash a fill moves differs from the documented quantity * price * (1 +- slippage) * (1 +- rate) by no more than the three nested roundings can add up to. |
| BrokerValue.FillPriceTie | src/database.py:1645-1648 | A fill price half-way between two units of 10^-6 goes to the even one. |
| BrokerValue.ChargesTie | src/database.py:1650-1651 | So do a notional and a commission half-way between two units of 10^-4. |
| BrokerValue.QuantityTie | src/database.py:285-292 | A quantity half-way between two stored ones goes up in the holdings column. |
| BrokerValue.CostTie | src/database.py:285-292 | And so does an average cost. |
| BrokerValue.SlippageMakesFillFair | src/database.py:1645-1648 | If price times slippage is at least half a unit of 10^-6, rounding cannot make the fill better than the quote. |
| BrokerValue.FairFillGainsNothing | src/database.py:1645-1651 | An order with a fair fill gains at most half a unit of 10^-4 on paper. |
| BrokerValue.FreeMoneyExactly | src/database.py:1645-1651 | At a price and slippage, no quantity on the grid, at whatever commission rate, is filled at a gain of more than half a unit on any reachable database, if and only if the fill price is fair. |
| BrokerValue.FilledGain | src/database.py:1670-1714 | The value a fill moves into cash and holdings, at its own price, is its gain on paper plus what rounding the stored quantity adds, whatever was held before. |
| BrokerValue.TableGainBound | src/database.py:1645-1714 | With enough slippage and a quantity that does not round in the trader's favour, that value is at most half a unit of 10^-4. |
| BrokerValue.QuantityFairExactly | src/database.py:1679-1708 | For a side and quantity, no order at any price with enough slippage is filled at such a gain on any reachable database, if and only if the stored quantity does not round in the trader's favour. |
| BrokerValue.SeededOrdersPay | src/database.py:1679-1708 | On the seeded database, at 200 dollars and the default rates, a purchase of half a unit and a sale of one and a half each create a whole unit of 10^-4. |
| BrokerValue.SomewhereFilled | src/database.py:1653-1714 | Every order with a positive quantity and price is filled by some database reached from a fresh one, a sale after a purchase. |
| BrokerValue.ExecuteGain | src/database.py:1670-1714 | One such order at its mark raises cash plus the value of the whole holdings table by at most half a unit. |
| BrokerValue.NoFreeMoney | src/database.py:1670-1714 | Main result: n such orders at fixed marks, of any tickers and sides, raise the total value of a currency by at most n half units. |
| BrokerValue.BuyBlendsCost | src/database.py:1679-1687 | A purchase moves the stored average cost towards its own unit cost and never past it; the first purchase of a position sets it. |
| BrokerValue.PurchaseConservesCost | src/database.py:1679-1687 | A purchase conserves the cost basis: the new quantity at the new average cost is the old basis plus the notional, to half a unit of 10^-4 for each unit of quantity. |
| BrokerValue.CostBasisConserved | src/database.py:1679-1708 | Main result over any run of orders and resets: quantity times average cost is the notionals paid less the average cost of the units sold, to half a unit of 10^-4 for each unit held after a purchase, and half a unit of 10^-6 at cost for a purchase off the grid. |
| BrokerValue.AverageCostNeverDrifts | src/database.py:1679-1708 | While a position is open its stored average cost lies between the rounded unit costs of its cheapest and its dearest purchase, through any mix of orders and resets. |
| BrokerConcurrency.ExecKeepsInv | src/database.py:1653-1744 | In every state any schedule can reach, locks match phases, what a transaction has read is still what is committed, and the tables are those of a serial order. |
| BrokerConcurrency.OtherReadsStable | src/database.py:1653-1666 | While an order holds its account row, its commit changes nothing that another running transaction has read. |
| BrokerConcurrency.EveryScheduleIsSerial | src/database.py:1653-1744 | Main result: any interleaving of orders, resets and rollbacks ends in the tables, and gives each committed call the answer, of running the committed calls one after another; if all commit, that is every call once. |
| BrokerConcurrency.ConcurrentBooksBalance | src/database.py:1653-1744 | On any schedule no account is overdrawn and every row is positive; the committed order rows, listed once each with different ids and paired with their audit rows, account for every share held and for all cash, and cash rebuilt from the order rows alone stays within its error budget. |
| BrokerConcurrency.SerialIds | src/database.py:1716-1722 | No two rows of the order log of a serial order carry the same id, and each id is that of a filled call. |
| BrokerConcurrency.FilledIdsAreFresh | src/database.py:1716-1722 | No two fills get the same order id and none reuses an old one, however transactions interleave and roll back. |
| BrokerConcurrency.BlockedMeansWaiting | src/database.py:1655-1666 | A transaction that has not ended can take its next step if and only if it waits for no other. |
| BrokerConcurrency.OnlyAccountRowsAreWaitedFor | src/database.py:1655-1666 | Because the account row comes first, the holdings rows behind it are never waited for, and only a reset waits while holding a row. |
| BrokerConcurrency.WaitGraphIsAcyclic | src/database.py:1653-1666 | When resets agree on the row order, no path in the wait-for graph returns to its start and none has more than two edges. |
| BrokerConcurrency.SomeoneCanMove | src/database.py:1653-1744 | Then, as long as a call has not ended, some call can take a step. |
| BrokerConcurrency.SchedulesEnd | src/database.py:1653-1744 | No schedule, rollbacks included, is longer than six actions for each call. |
| BrokerConcurrency.EveryScheduleCanFinish | src/database.py:1653-1744 | So when resets agree, every schedule can be continued by plain steps until all calls have ended, and all of them commit if nothing was rolled back before. |
| BrokerConcurrency.DisagreeingResetsDeadlock | src/database.py:1955-1958 | Two resets that meet the account rows in opposite orders wait for each other after one step each. |
| Portfolio.Summarize | src/main.py:405-437 | The loop yields one enriched row per holding in order and, per account, the totals of the individually rounded market values. |
| Portfolio.ValuationsAgree | src/main.py:405-437 | With k holdings in a currency, the total stored in the NAV snapshot and the total shown in the summary differ by at most (k + 1) half units of 10^-4. |
| Portfolio.HoldingShowsProfit | src/main.py:408-423 | A holding shows its price and its market value to half a unit, and as profit its shares times price less cost, to one unit. |
| Portfolio.AccountShowsProfit | src/main.py:425-437 | An account shows cash, market value, their sum, and the profit over its initial balance as an amount and in percent, 0 % for an account opened empty. |
| Portfolio.ProfitIsFlowPlusHoldings | src/main.py:425-437 | After any run the profit shown is the cash moved by the fills since the last reset plus the market value of what they left. |
| Portfolio.CacheComesFromThePast | src/main.py:392-403 | Over any run, the cache entry is what the database held at some instant since which no order was filled by the tool and no reset happened. |
| Portfolio.SummaryIsRecent | src/main.py:392-403 | Main result: every summary shows the accounts and holdings of one instant less than ten seconds ago, no older than the last order filled by the tool and the last reset. |
| Portfolio.SecondReadIsCached | src/main.py:392-403 | Within ten seconds a second read shows what the first did, whatever was written behind the service's back; later, or forced, it shows the new rows. |
| Portfolio.RejectedOrderKeepsCache | src/main.py:1099-1101 | A rejected order leaves database and cache alone. |
| Portfolio.SidesExactly | src/main.py:1091-1093 | The side is BUY or SELL in any mix of cases, and nothing else is a side. |
| Portfolio.PortfolioService.BuildPortfolioSummary | src/main.py:392-437 | The cache becomes what the cache machine says, and the summary is computed from a listing of exactly the cached table. |
| Portfolio.PortfolioService.ExecuteVirtualOrderTool | src/main.py:1091-1102 | Bad side and missing or zero price change nothing; otherwise the order runs at the live price with default rates, and only a fill refreshes the cache. |
| Portfolio.PortfolioService.PortfolioReset | src/main.py:2346-2347 | The tables are reset and the cache is dropped. |
| Backtest.PositionIsBullish | src/engines.py:681-689 | The forward-filled position of masked signals is 1 exactly on the bars whose fast average is above the slow one. |
| Backtest.BullishExactly | src/engines.py:678-681 | A bar is bullish when there are twenty bars up to it and four times the sum of its last five closes exceeds the sum of its last twenty. |
| Backtest.EquityFollowsPrice | src/engines.py:692-694 | The cumulative product starts at the capital and moves with the price exactly on the bars after a bullish one. |
| Backtest.EquityPositive | src/engines.py:692-694 | With positive prices the equity never reaches zero. |
| Backtest.VectorisedIsEventDriven | src/engines.py:677-694 | Main result: at every close the vectorised equity is the marked-to-market book that buys all-in at golden crosses and sells all at dead crosses. |
| Backtest.CurveIsBookCurve | src/engines.py:677-694 | The whole vectorised curve is the curve of the book's worth. |
| Backtest.ReportDescribesTrading | src/engines.py:698-709 | The reported bars, initial and final value, return and every curve point are those of that book, up to half a unit of the decimals kept. |
| Backtest.TwentyBarsNeeded | src/engines.py:674-675 | There is a report if and only if there are at least twenty bars. |
| Backtest.EquityTelescopes | src/engines.py:692-698 | Equity is the capital times the exit/entry ratios of the closed trades, with an open trade marked at the current close. |
| Backtest.TradesReported | src/engines.py:708 | The reported trade count is two per closed trade plus one for an open one. |
| Backtest.DrawdownIsWorstPair | src/engines.py:696-697 | The minimum found in one running-maximum pass is the worst relative change over all pairs of bars i <= j, is attained, and lies in (-1, 0]. |
| Backtest.DrawdownReported | src/engines.py:696-707 | Main result: the drawdown reported for a price history is, to half of its last decimal, the worst relative fall of the book's worth between any two closes in order. |
| Backtest.ReturnNotBelowDrawdown | src/engines.py:706-707 | The reported return is never below the reported drawdown although both are rounded, and the drawdown lies in [-100 %, 0]. |
| Backtest.NoLookAhead | src/engines.py:681-694 | The curve of any prefix of the history is a prefix of the curve. |
| Backtest.LiveCrossesExactly | src/engines.py:243-254 | The live crosses, by the sums of the last five and twenty closes at the last two bars: above after at most level, below after at least level, and never with fewer than 21 bars. |
| Backtest.LiveGoldenAgrees | src/engines.py:247-253 | On 21 bars or more the live golden cross is the backtest's at the last bar. |
| Backtest.LiveDeadAgreesExactly | src/engines.py:247-254 | The two dead crosses agree if and only if no tie of the averages separates their comparisons. |
| Backtest.FirstCompleteBar | src/engines.py:247-254 | With exactly 20 bars the live engine reports no cross, and the backtest reports one if the first complete averages are bullish. |
| Backtest.FallOntoTie | src/engines.py:254 | A positive series of 21 bars on which only the backtest exits. |
| Backtest.FallOffTie | src/engines.py:254 | A positive series of 21 bars on which only the live engine reports a dead cross. |
| Backtest.FirstBarCross | src/engines.py:253 | A positive series of 20 bars on which only the backtest reports a golden cross. |
| Rsi.SmoothedAverages | src/engines.py:483-490 | The smoothing loop keeps both averages equal to the recurrence over all values seen. |
| Rsi.ComputeRsi | src/engines.py:471-496 | Main result: for n or fewer closes the method returns 50; otherwise, with G and L the rises and falls of the closes weighted by ((n-1)/n)^m / n for m bars from the end, it returns 100 if L is under the cut-off and else the share of G in G + L out of 100, which reaches 70 if and only if 3G reaches 7L; always in [0, 100]. |
| Rsi.WilderIsWeighted | src/engines.py:483-490 | Wilder's recurrence equals that weighted sum, in which the first n values share one carried mean. |
| Rsi.RisingReadsHundred | src/engines.py:492-496 | A series that never falls reads 100. |
| Rsi.FallingReadsZeroExactly | src/engines.py:492-496 | A series that never rises reads 0 if its average fall reaches the cut-off, and 100 otherwise. |
| Rsi.FallingReadsZero | src/engines.py:492-496 | Falls of at least the cut-off at every step are enough to read 0. |
| Rsi.WilderWithin | src/engines.py:483-490 | Any bound on all values seen, from below or above, bounds the smoothed average. |
| Rsi.GainMinusLoss | src/engines.py:479-490 | The difference of the two averages is the same smoothing of the raw price changes. |
| Rsi.IndexIsShare | src/engines.py:492-496 | Above the cut-off the index is the gains' share of gains plus losses, out of 100. |
| Rsi.OverboughtExactly | src/engines.py:468-496 | The index reaches 70 if and only if three times the average gain reaches seven times the average loss. |
| Rsi.MirroredRsi | src/engines.py:471-496 | Mirroring every price change gives 100 minus the index, if and only if neither average lies strictly between 0 and the cut-off and they are not both 0. |
| Rsi.FlatSeriesReadsHundred | src/engines.py:492-493 | A flat series, which is its own mirror image, has index 100. |
| TokenStream.WordsKeepContent | src/main.py:2927 | Splitting into words loses nothing but white space. |
| TokenStream.WordsAreOneLine | src/main.py:2927 | No word holds a blank, a tab or a line break. |
| TokenStream.AsciiSpaces | src/main.py:2927 | Which ASCII characters separate words. |
| TokenStream.WordsOfJoin | src/main.py:2927-2929 | Words joined by single spaces split into the same words again. |
| TokenStream.StreamCommand | src/main.py:2917-2936 | The generator's events: the meta event, one token per word with a space before the next, and the end. |
| TokenStream.StreamNews | src/main.py:2151-2154 | The generator's events: one token per word, each with a space, and the end. |
| TokenStream.SplitResumes | apps/frontend/hooks/useOmniStream.ts:89-91 | Splitting can be resumed from the unfinished line: complete lines and remainder do not depend on where the text was cut. |
| TokenStream.ReadStream | apps/frontend/hooks/useOmniStream.ts:84-118 | Whatever the chunks, the state after the read loop is that of the complete lines of all the text received. |
| TokenStream.HandleLines | apps/frontend/hooks/useOmniStream.ts:92-117 | Lines that are not data lines or do not parse never change the state; the others are handled in order. |
| TokenStream.WireLines | src/main.py:2924-2936 | The data lines of a written stream that parse are exactly its events, with either line ending and any comment or other field lines between. |
| TokenStream.FrameIsThreeLines | src/main.py:2930-2933 | A frame on the wire is its name, its data and a blank line. |
| TokenStream.CommandStreamDelivers | apps/frontend/hooks/useOmniStream.ts:82-118 | The complete lines of the whole wire text fold to the report's words joined by single spaces, with the meta data in place and streaming ended. |
| TokenStream.ReceiveCommand | apps/frontend/hooks/useOmniStream.ts:82-118 | Main result: for every report and every way of cutting the wire text, what the hook's loop computes is the words joined by single spaces, with the meta data in place and streaming ended. |
| TokenStream.NewsStreamDelivers | apps/frontend/hooks/useNewsSummary.ts:51-70 | The complete lines of the whole wire text fold to the words joined by single spaces with one trailing space, done and without error. |
| TokenStream.ReceiveNews | apps/frontend/hooks/useNewsSummary.ts:51-70 | The same for what the news hook's loop computes from any chunks. |
| JsonText.StringRoundTrip | src/main.py:2931 | Reading an escaped string gives it back, up to whatever follows its closing quote. |
| JsonText.JsonCodecRoundTrips | src/main.py:2924-2936 | Events printed as JSON objects, with the meta data as one string member, satisfy what the stream results require: they parse back despite trailing white space and hold no raw line break. |
| Reconnect.AlephStream.constructor | apps/frontend/hooks/useAlephStream.ts:121-126 | The module starts unconnected, with no listener and no timer. |
| Reconnect.AlephStream.Connect | apps/frontend/hooks/useAlephStream.ts:69-74 | A second connect is a no-op; otherwise one source is opened and CONNECTING announced. |
| Reconnect.AlephStream.ScheduleRetry | apps/frontend/hooks/useAlephStream.ts:58-67 | With a timer pending nothing happens; otherwise one timer is set with the jittered delay of the old count. |
| Reconnect.AlephStream.Disconnect | apps/frontend/hooks/useAlephStream.ts:100-107 | The source is closed and the timer cleared. |
| Reconnect.AlephStream.OnMount | apps/frontend/hooks/useAlephStream.ts:131-132 | Refines the mount step. |
| Reconnect.AlephStream.OnUnmount | apps/frontend/hooks/useAlephStream.ts:133-137 | Refines the unmount step: only the last listener disconnects. |
| Reconnect.AlephStream.OnMessage | apps/frontend/hooks/useAlephStream.ts:76-87 | Refines the frame step: error and malformed frames change nothing. |
| Reconnect.AlephStream.OnError | apps/frontend/hooks/useAlephStream.ts:93-97 | Refines the error step. |
| Reconnect.AlephStream.OnTimer | apps/frontend/hooks/useAlephStream.ts:63-66 | Refines the timer step. |
| Reconnect.AlephStream.OnVisible | apps/frontend/hooks/useAlephStream.ts:110-117 | Refines the visibility step. |
| Reconnect.StepKeepsInv | apps/frontend/hooks/useAlephStream.ts:58-117 | Every handler keeps: what is open is what the variables name, listeners exist exactly when a source or timer does, count at most 5, every delay in the range of the count it was scheduled with. |
| Reconnect.ReachableStates | apps/frontend/hooks/useAlephStream.ts:58-137 | Main result from the start of the module: every run has at most one open source and one pending timer, listeners exactly when there is one of them, a visibility handler that never acts, and every delay in [0.75, 1.25) times the capped backoff of its own count. |
| Reconnect.JitterInRange | apps/frontend/hooks/useAlephStream.ts:44-46 | A delay lies in [0.75, 1.25) times its backoff. |
| Reconnect.BackoffNeverFalls | apps/frontend/hooks/useAlephStream.ts:48-61 | Between two good frames neither the count nor the capped backoff ever falls. |
| Reconnect.RetryCountExactly | apps/frontend/hooks/useAlephStream.ts:58-88 | Main result: over any run the count is the number of errors since the last good frame that found no retry due, capped at 5; that is the number of all errors if and only if none found one due or five did not. |
| Reconnect.MountDuringWait | apps/frontend/hooks/useAlephStream.ts:58-132 | A mount while a retry is due opens a source whose error is not counted: two errors and a count of one. |
| Reconnect.ErrorSchedules | apps/frontend/hooks/useAlephStream.ts:58-67 | Over any run an error with no retry due schedules the delay of the count so far, and the first one after a good frame or the start a delay of 2.25 s to 3.75 s. |
| Reconnect.StepShowsFrame | apps/frontend/hooks/useAlephStream.ts:76-87 | A good frame is shown live with its data and time and clears the count; data and time change with good frames only. |
| Reconnect.StepShowsStatus | apps/frontend/hooks/useAlephStream.ts:58-74 | Opening a source shows connecting, setting a timer shows the error, and no other event but a good frame changes the status shown. |
| Reconnect.ShowsLastFrame | apps/frontend/hooks/useAlephStream.ts:76-87 | After any run the data and time shown are those of the last good frame. |
| Reconnect.CapExceededExactly | apps/frontend/hooks/useAlephStream.ts:44-50 | A delay exceeds 30 s if and only if the count has reached 4 and the jitter is in its upper half. |
| Reconnect.OutageDelays | apps/frontend/hooks/useAlephStream.ts:58-67 | While the server stays down, errors in a row schedule the delays of successive counts, and stay at count 5 once it is reached. |
| Reconnect.FifthRetryExceedsCap | apps/frontend/hooks/useAlephStream.ts:58-67 | From the start of the module, one listener and five errors in a row schedule a delay of 36 s. |
| LiveState.AlertCentre.ObserveRegime | src/main.py:703-707 | Refines the observation step: a task is created only when a non-empty last label changes. |
| LiveState.AlertCentre.RunNextTask | src/main.py:294-300 | Refines the task step: the oldest task records its alert before it first awaits. |
| LiveState.AlertCentre.RecordRegimeAlert | src/main.py:276-291 | The ring gains the alert in front, and one that held no more than 30 still does. |
| LiveState.AlertsAreChanges | src/main.py:703-707 | Main result over any run and any task timing: alerts recorded and still queued are the adjacent pairs of the stutter-free labels, and the ring is the newest 30 recorded, newest first. |
| LiveState.RingShowsTransitions | src/main.py:276-291 | Over any run the ring shows, newest first, the last thirty transitions recorded: each entry names the old and the new label and is critical if and only if the new one mentions CRISIS. |
| LiveState.AlertsChainOverRuns | src/main.py:703-707 | With non-empty labels every alert announces a change and starts from the regime the one before announced. |
| LiveState.CollectorLife.OpenStream | src/main.py:2790-2796 | Refines the opening step: a task is created only if there is none or it has ended. |
| LiveState.CollectorLife.OnSseDisconnect | src/main.py:626-633 | Refines the finalising step: the last one cancels and forgets the task. |
| LiveState.CollectorLifecycle | src/main.py:2790-2818 | Main result over any run from the idle server in which streams are finalised at most once: the count is the number of live streams, a task is named exactly while there is one, no other task runs uncancelled, and the clip at zero never bites. |
| LiveState.OpenFindsCollector | src/main.py:2790-2796 | Whoever connects finds a running collector, also after the last one has ended on its own, and a running one is kept. |
| LiveState.LastOneStopsCollector | src/main.py:626-633 | Whoever leaves last asks the running collector to stop; everyone else leaves it alone. |
| LiveState.UnstartedStreamKeepsCollector | src/main.py:2790-2820 | A stream opened but never finalised keeps the collector for ever. |
| MarketUpsert.MarketTicks.Refresh | src/database.py:1164-1184 | One delete and a row-by-row copy leave the table of the specification, ending in the fetched rows; without rows nothing changes. |
| MarketUpsert.TableAfterwards | src/database.py:1168-1184 | Afterwards the table holds exactly the fetched rows plus the old rows of other tickers or before the shared start, each as often as before. |
| MarketUpsert.RefreshIsIdempotent | src/database.py:1168-1184 | Repeating the refresh with the same fetch changes nothing. |
| MarketUpsert.RefreshKeepsKeys | src/database.py:1168-1184 | No second row for a ticker and timestamp appears if table and fetch had none. |
| MarketUpsert.RefreshKeepsRowsExactly | src/database.py:1168-1184 | Every old row is still there afterwards if and only if every row of a fetched ticker at or after the shared start is itself fetched. |
| MarketUpsert.SkippedRowIsLost | src/database.py:1168-1184 | A row that the next fetch of its own ticker leaves out is lost. |
| MarketUpsert.SharedWindowLosesRowsExactly | src/database.py:1168-1176 | Rows that a window per ticker would keep are lost if and only if the table holds a fetched ticker's row between the shared start and that ticker's own first fetched row. |
| MarketUpsert.MiddleRowIsLost | src/database.py:1168-1176 | A table of one row and a fetch of two tickers that loses such a row. |
| Allocation.GroupRows | apps/api/routers/fundamentals.py:171-186 | The grouping loop yields every sector of the rows once, with its tickers in order, its cost and its last currency, and the group values add up to the total cost. |
| Allocation.ListItems | apps/api/routers/fundamentals.py:198-215 | The item loop keeps the order, adds up the squared weights and remembers the first sector and its weight. |
| Allocation.SortKeepsGroups | apps/api/routers/fundamentals.py:202 | Sorting by value keeps the groups: same sectors, each once, none lost. |
| Allocation.FetchAllocation | apps/api/routers/fundamentals.py:159-230 | No holdings and zero cost give their two empty reports; otherwise the report describes one grouping of the rows from the largest value down, whose values add up to the total. |
| Allocation.IndexBounds | apps/api/routers/fundamentals.py:202-204 | For k non-negative values with a positive sum, the sum of squared weights lies in [1/k, 1] (Cauchy-Schwarz). |
| Allocation.IndexInRange | apps/api/dto/fundamentals.py:40 | For holdings with non-negative costs the reported index satisfies those bounds, and rounded it lies in [0, 1] as the response model requires. |
| Allocation.TopSectorIsLargest | apps/api/routers/fundamentals.py:202-208 | No sector of the holdings has a larger cost than the top sector reported. |
| Allocation.UnpricedRowsWorthCost | apps/api/routers/fundamentals.py:171-184 | The total cost is what the two currencies' holdings are worth to a snapshot taken without any live price. |
| Allocation.ReportDescribesGroups | apps/api/routers/fundamentals.py:198-230 | Each item names its group's sector, tickers and currency, its value to half a unit and its share in percent to half of the last decimal; the top sector is the first, and there is a warning if and only if its weight exceeds 40.0. |
| Allocation.WeightsAddUp | apps/api/routers/fundamentals.py:202-213 | The weights of k sectors add up to 100 %, to k times half of the last decimal. |
| Allocation.IndexReported | apps/api/routers/fundamentals.py:202-228 | The index reported is, to half of its last decimal, one less the chance that two units of money lie in different sectors. |
| Allocation.SectorsTold | apps/api/routers/fundamentals.py:42-59 | Listed tickers have their sector and any other falls under Other. |

## Left out

- IEEE floating point: prices, weights, averages and equity are exact reals; only the decimal roundings the source writes are modelled.
- `NUMERIC` overflow, over-long `VARCHAR` values and lost database connections: they raise, and appear only as rollbacks in `BrokerConcurrency` (an order then reports an error instead of an answer).
- BrokerConcurrency.EveryScheduleIsSerial: assumes that the database holds exactly the two accounts init_db seeds; a missing account is covered by the sequential model only. Order and audit tables are sets of rows there, since rows appear in commit order and not in id order.
- BrokerConcurrency.FilledIdsAreFresh: the id sequence is never reset or exhausted.
- BrokerStore.VirtualBroker.RecordPortfolioNav: holdings and accounts are read in two transactions; no order commits between them here, and both reads succeed.
- Portfolio.SummaryIsRecent: each call is one step and both database reads succeed; races between threads inside one summary are not modelled.
- Portfolio.PortfolioService.ExecuteVirtualOrderTool: `str.upper` and `str.isdigit` are modelled for ASCII letters and digits only.
- BrokerStore.VirtualBroker.GetPortfolioHoldings: `ORDER BY ticker` is code-point order; a database collation that orders other characters differently is not modelled.
- The price cache keyed by ticker alone, although callers ask for different row counts (src/main.py:331).
- TokenStream.ReadStream: works on decoded text; partial characters between byte chunks are the decoder's business, and the error path of an exception thrown while reading is not modelled.
- TokenStream.CommandStreamDelivers: the meta event's payload is one opaque string; how the panel takes it apart is not modelled. An exception in the generator is not modelled either.
- JsonText.JsonCodecRoundTrips: covers the shapes of the stream's events with non-ASCII characters printed raw, as the command stream prints them; the news stream's ASCII escapes with surrogate pairs are only covered by the assumption on the codec.
- LiveState.AlertsAreChanges: timestamps, confidence and message text of an alert, and the e-mail and push channels after it is recorded, are not part of this model.
- The collector's own loop: a task can end at any time (`TaskEnds`), but what it fetches is not modelled.
- MarketUpsert.MarketTicks.Refresh: the Milvus price alerts after the commit and the retries before it are not modelled.
- Allocation.FetchAllocation: the two-minute cache around it and the Korean warning text are not modelled.
- QuantEngine's momentum score, persona blending, preset and label tables, DTO mappers and enum logic: case listing would settle them.
- News, macro, embedding, agent, authentication and rendering code, and price simulation.
