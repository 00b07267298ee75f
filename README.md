# news-driven-trader, modelled in Dafny

This project models the core of news-driven-trader. That core is the offline strategy simulator and
its parameter sweep, the hand-rolled FIFO investment list, the `key=value` settings loader, the
news-response field scanner and the live per-signal decision rule. Each component of the C++
source has its own module:

| module | file | models |
|---|---|---|
| `Wrappers` | wrappers.dfy | `Option` and `Result` |
| `Prices` | prices.dfy | a ticker's price series, the `lower_bound` search (binary search, as a method) and the price it resolves |
| `Ledger` | ledger.dfy | lots, the account (balance, counters, win/loss lists), `investmentMap` as a map plus its key order, the sell-all loop and the forced-sell loop as functions |
| `Simulation` | simulation.dfy | one event (`Step`) and one run (`Run`) of `simulate`, as functions, with their properties |
| `Simulator` | simulator.dfy | class `Simulator`: the globals of the simulator and the imperative `simulate` and sweep loops, each proved equal to the functions above |
| `Statistics` | statistics.dfy | `medianOf` (in-place insertion sort on an array), `max_element`/`min_element`, the accuracy and the expected return |
| `Sweep` | sweep.dfy | the per-configuration report and the best-so-far trackers of `main` |
| `Globals` | globals.dfy | `InvestmentList` as a class over heap nodes with `head`/`tail`/`next`/`prev`, a ghost node sequence and a `Repr` footprint; the default strategy |
| `Settings` | settings.dfy | `loadSettings` over a sequence of lines, `std::stoi`, `find('=')` |
| `NewsParser` | news_parser.dfy | `extractNewsFromResponse`: `std::string::find`/`substr` with 64-bit `size_t` arithmetic (`npos` is 2^64-1 and `npos + 1` wraps to 0), the scan as written and as corrected, and class `NewsFeed` holding `newsQueue` and `seenUrls` |
| `LiveStrategy` | strategy.dfy | the decision of `executeInvestmentStrategy` (buy tested before sell) against the simulator's (sell before buy) |

Prices, quantities and balances are `real`. Timestamps are `int` seconds. A price series is
required to be sorted by time, with positive prices (`Prices.ValidPriceData`). `lower_bound`
assumes the sorted order, and the buy divides by the price. The article fetch `getArticleText`
is a parameter `fetch: string -> Option<string>`, where `None` stands for the exception.

Three behaviours of the code are easy to misread, and the model follows the code in each:
- The median of an even count is the upper of the two middle elements: `medianOf` returns
  `v[size/2]` of the sorted vector (simulation/simulate_investment.cpp:255-261).
- The accuracy is a percentage: the fraction of profitable trades is multiplied by 100
  (simulation/simulate_investment.cpp:150-152).
- The forced-sell lookup searches `prices`, the series of the current event's ticker bound at
  line 80, for every deque swept (line 129), not each deque's own series.

## Model

| member | source | states |
|---|---|---|
| Prices.Series | simulation/simulate_investment.cpp:80 | the series of a ticker without records is empty; every series of valid price data is sorted with positive prices |
| Prices.FirstAtOrAfter | simulation/simulate_investment.cpp:81-82 | reference index: every earlier record is before `t` and the record at the index (if any) is at or after `t` |
| Prices.FirstAtOrAfterUnique | simulation/simulate_investment.cpp:81-82 | those two properties single out one index |
| Prices.AfterFirstAtOrAfter | simulation/simulate_investment.cpp:81-82 | on a sorted series every record from that index on is at or after `t` |
| Prices.LowerBound | simulation/simulate_investment.cpp:81-82 | the binary search returns exactly the reference index on a sorted series |
| Prices.PriceAtOrAfter | simulation/simulate_investment.cpp:80-84 | the price `simulate` resolves for an event time, or none where it skips the event; `PriceIsEarliestAtOrAfter` states that a resolved price is the earliest record at or after the time, and `ResolvedPricePositive` that it is positive |
| Prices.PriceIsEarliestAtOrAfter | simulation/simulate_investment.cpp:80-84 | the resolved price is that of the earliest record at or after the event time |
| Prices.ResolvedPricePositive | simulation/simulate_investment.cpp:84 | a resolved price of a valid series is positive |
| Ledger.PnlsAt | simulation/simulate_investment.cpp:92 | one P&L per lot, the i-th being quantity × (price − buy price) |
| Ledger.Pnl | simulation/simulate_investment.cpp:92 | the P&L of one lot, quantity × (price − buy price); `PnlsAt` states it is what each closed lot contributes, and line 133 computes it the same way at the forced-sell price |
| Ledger.Close | simulation/simulate_investment.cpp:93-103 | closing one lot credits quantity × price and appends its P&L to the win list (counting a profitable trade) when positive, to the loss list otherwise; `SellAllEffect` and `ForceSellQueueTally` state its effect summed over a deque |
| Ledger.PositivesSplit | simulation/simulate_investment.cpp:93-101 | the positive and the non-positive P&Ls of a concatenation are those of its parts, in order |
| Ledger.SellAll | simulation/simulate_investment.cpp:87-105 | the pop-front loop that closes a whole deque at one price; its effect on every account field is stated by `SellAllEffect` and its parts below |
| Ledger.SellAllEffect | simulation/simulate_investment.cpp:87-105 | closing a whole deque credits price × total quantity, counts no trade, appends the positive P&Ls to the wins and the others to the losses in deque order, adds the number of positive P&Ls to `profitableTrades`, closes exactly one entry per lot and keeps the tally invariant |
| Ledger.SellAllBalance | simulation/simulate_investment.cpp:102 | the balance rises by price × total quantity, and the trade count stays |
| Ledger.SellAllLists | simulation/simulate_investment.cpp:93-101 | wins and losses gain exactly the positive and the non-positive P&Ls, in closing order |
| Ledger.SellAllCounts | simulation/simulate_investment.cpp:93-97 | `profitableTrades` rises by the number of positive P&Ls, and one list entry is made per lot |
| Ledger.SellAllTallied | simulation/simulate_investment.cpp:93-101 | `profitableTrades == |winTrades|`, wins positive and losses non-positive, is preserved |
| Ledger.ForceSellQueue | simulation/simulate_investment.cpp:122-145 | the forced-sell loop over one deque, with its `lower_bound` lookup and `break`; which lots it closes, why it stops and what it records are stated by `ForceSellQueueShape`, `ForceSellQueueLists`, `ForceSellQueueBalance` and `ForceSellQueueTally` below |
| Ledger.Due | simulation/simulate_investment.cpp:122-124 | the loop test: the deque is non-empty and its front lot has been held at least the hold duration; `ForceSellQueueShape` states that exactly the due prefix, up to a missing price, is closed |
| Ledger.ForcedCount | simulation/simulate_investment.cpp:122-131 | the number of front lots a forced sell closes is at most the deque's length |
| Ledger.ForceSellQueueShape | simulation/simulate_investment.cpp:119-145 | the forced sell removes a prefix: it keeps `lots[n..]`; every closed lot was held at least `hold` seconds and had a price at buyTime + hold; the loop stopped because the next lot is not due or has no price |
| Ledger.ForceSellQueueRest | simulation/simulate_investment.cpp:122-131 | what remains is the suffix after the closed lots, and the stop reason is "not due" or "no price" |
| Ledger.ForcedLotsDue | simulation/simulate_investment.cpp:122-131 | every closed lot was due and had a price at its buyTime + hold |
| Ledger.ForceSellQueueLists | simulation/simulate_investment.cpp:133-142 | the forced P&Ls go to wins or losses by sign, in closing order |
| Ledger.ForcedPnlsAt | simulation/simulate_investment.cpp:126-133 | there is one forced P&L per closed lot, and the i-th is lot i's P&L at the price found for its buyTime + hold |
| Ledger.ForceSellQueueBalance | simulation/simulate_investment.cpp:143 | a forced sell of one deque raises the balance by exactly `ForcedProceeds`, the quantity × sell price of each lot it closes |
| Ledger.ForcedProceedsPrefix | simulation/simulate_investment.cpp:126-143 | the forced proceeds are those of the ForcedCount oldest lots, each sold at the price found for its own buyTime + hold |
| Ledger.ForceSellQueueTally | simulation/simulate_investment.cpp:133-144 | the forced sell counts no trade, records one entry per closed lot and keeps the tally invariant |
| Ledger.ForceSellRestIndependent | simulation/simulate_investment.cpp:122-131 | which lots remain does not depend on the account credited |
| Ledger.RemainingStable | simulation/simulate_investment.cpp:122-131 | a second forced sell at the same time and price series closes nothing |
| Ledger.InsertTickerSorted | simulation/simulate_investment.cpp:113 | inserting a key keeps the key order strict and adds exactly that key |
| Ledger.InsertTicker | simulation/simulate_investment.cpp:113 | operator[] adding a key to the ordered key list; `InsertTickerSorted` states that the order stays strict and the keys become the old ones plus the new one |
| Ledger.Less | simulation/simulate_investment.cpp:119 | `std::string`'s `<`, the order in which the map's deques are visited; `LessIrreflexive`, `LessTransitive` and `LessTotal` state that it is a strict total order |
| Ledger.LessIrreflexive | simulation/simulate_investment.cpp:119 | no key is below itself |
| Ledger.LessTransitive | simulation/simulate_investment.cpp:119 | the key order is transitive |
| Ledger.LessTotal | simulation/simulate_investment.cpp:119 | of two different keys one is below the other |
| Ledger.EmptyBook | simulation/simulate_investment.cpp:283 | the cleared map is a valid book |
| Ledger.SetQueue | simulation/simulate_investment.cpp:113 | `investmentMap[ticker] = q` sets that deque to `q`, leaves every other deque alone and keeps the book valid |
| Ledger.QueueOf | simulation/simulate_investment.cpp:88 | `investmentMap[ticker]` read: the stored deque, or empty for an absent key; `SetQueue` states that a write is then read back and no other key's deque changes |
| Ledger.ForceSellAll | simulation/simulate_investment.cpp:119-146 | the pass keeps the key set of the map |
| Ledger.ForceSellAllEffect | simulation/simulate_investment.cpp:119-146 | every listed deque becomes what a forced sell of its own lots leaves; other keys stay; no trade is counted; the tally invariant is kept |
| Ledger.ForceSellAllBalance | simulation/simulate_investment.cpp:119-146 | over the pass across distinct keys, the balance rises by the forced proceeds of every deque, summed in key order |
| Ledger.ForceSellAllWins | simulation/simulate_investment.cpp:133-137 | over the pass, the wins gain the positive forced P&Ls of every deque, deque by deque in key order |
| Ledger.ForceSellAllLosses | simulation/simulate_investment.cpp:138-141 | over the pass, the losses gain the non-positive forced P&Ls of every deque, deque by deque in key order |
| Ledger.SetQueueLots | simulation/simulate_investment.cpp:103-113 | replacing a deque changes the open-lot count by the difference in length |
| Ledger.ForceSellAllLots | simulation/simulate_investment.cpp:119-146 | every lot taken out of a deque by the pass is recorded as closed |
| Simulation.ForceSweep | simulation/simulate_investment.cpp:119-146 | the forced-sell pass keeps the book valid |
| Simulation.Step | simulation/simulate_investment.cpp:74-147 | one event keeps the book valid |
| Simulation.Run | simulation/simulate_investment.cpp:74-147 | a run keeps the book valid |
| Simulation.GateSkips | simulation/simulate_investment.cpp:77 | an event with similarity below the threshold leaves the whole state, forced sells included, unchanged |
| Simulation.NoPriceSkips | simulation/simulate_investment.cpp:80-83 | an event with no price record at or after its time leaves the whole state unchanged |
| Simulation.SellBranch | simulation/simulate_investment.cpp:87-105 | the sell branch of one event; `SellBranchEffect` states its whole effect and what stays |
| Simulation.SellBranchEffect | simulation/simulate_investment.cpp:87-105 | the ticker's deque ends empty and every other deque stays; the balance rises by price × total quantity; the lists and `profitableTrades` gain exactly the deque's P&Ls by sign; no trade is counted |
| Simulation.BuyBranch | simulation/simulate_investment.cpp:107-116 | the buy branch of one event; `BuyBranchEffect` states the new balance, the one lot appended at the back, the counter and the frame |
| Simulation.BuyBranchEffect | simulation/simulate_investment.cpp:107-116 | the balance drops by balance × investPercent; exactly one lot {toInvest / price, price, event time} is appended at the back of the ticker's deque; other deques, the lists and `profitableTrades` stay; one trade is counted |
| Simulation.NewLot | simulation/simulate_investment.cpp:113-115 | the lot a buy appends: ticker, toInvest / price, the price and the event time; `BuyBranchEffect` states it is the one lot added |
| Simulation.ForceSweepEffect | simulation/simulate_investment.cpp:119-146 | every deque of the map, whatever its ticker, becomes what a forced sell priced in the current event's series leaves; keys and key order stay; the balance rises by the proceeds of every deque's closed lots; wins and losses gain those lots' P&Ls by sign, deque by deque in key order; no trade is counted; the tally invariant is kept |
| Simulation.StepCountsBuys | simulation/simulate_investment.cpp:86-116 | `totalTrades` rises by one exactly when the event passes the gate, has a price, does not meet the sell test and meets the buy test |
| Simulation.SellWinsOverBuy | simulation/simulate_investment.cpp:87-107 | an event meeting both thresholds takes the sell branch and counts no trade |
| Simulation.StepTallied | simulation/simulate_investment.cpp:92-141 | every event keeps `profitableTrades == |winTrades|`, wins positive and losses non-positive |
| Simulation.RunTallied | simulation/simulate_investment.cpp:74-147 | a run from a tallied account ends tallied |
| Simulation.StartTallied | simulation/simulate_investment.cpp:68-71 | the fresh account of `Simulation.StartingBalance` (10000) with cleared counters and lists is tallied |
| Simulation.Start | simulation/simulate_investment.cpp:68-71 | the state a run starts from: balance `StartingBalance` (10000.0), counters 0, lists empty, `investmentMap` as given; `StartTallied` states it is tallied |
| Simulation.RunCountsBuys | simulation/simulate_investment.cpp:107-116 | over a run, `totalTrades` counts exactly the events that buy |
| Simulation.RunIgnoresGatedEvents | simulation/simulate_investment.cpp:77 | dropping the events below the similarity threshold does not change the run |
| Simulation.TradeConservesLots | simulation/simulate_investment.cpp:87-116 | closed + open lots change by exactly the trades the branch counts |
| Simulation.SweepConservesLots | simulation/simulate_investment.cpp:119-146 | the forced-sell pass moves lots from open to closed and counts no trade |
| Simulation.StepConservesLots | simulation/simulate_investment.cpp:74-147 | one event changes closed + open lots by exactly the trades it counts |
| Simulation.RunConservesLots | simulation/simulate_investment.cpp:74-147 | over a run, closed + open lots − trades counted is unchanged: every bought lot is closed exactly once or still open |
| Simulation.FreshRunAccountsForEveryLot | simulation/simulate_investment.cpp:68-147 | from a cleared map and a fresh account, closed lots + open lots == `totalTrades` |
| Simulator.SellDeque | simulation/simulate_investment.cpp:89-104 | the imperative pop-front loop computes SellAll |
| Simulator.ForceSellDeque | simulation/simulate_investment.cpp:122-145 | the imperative forced-sell loop, with its `lower_bound` and `break`, computes ForceSellQueue |
| Simulator.MedianOfCopy | simulation/simulate_investment.cpp:296-297 | `medianOf` on a vector holding `s` returns Median(s) |
| Simulator.Summarise | simulation/simulate_investment.cpp:293-298 | the figures computed after a run are those of ReportOf |
| Simulator.TrackRun | simulation/simulate_investment.cpp:291-317 | the tracker updates after one run are Track |
| Simulator.Simulator.ForceSellPass | simulation/simulate_investment.cpp:119-146 | the in-place pass over every deque leaves the account and `investmentMap` as ForceSweep does |
| Simulator.Simulator.SetQueueOf | simulation/simulate_investment.cpp:113 | `investmentMap[ticker] = q` in place is SetQueue |
| Simulator.Simulator.Trade | simulation/simulate_investment.cpp:86-116 | the in-place sell or buy branch is SellBranch or BuyBranch, and neither when the sentiment lies between the thresholds |
| Simulator.Simulator.HandleEvent | simulation/simulate_investment.cpp:74-147 | one in-place iteration of the event loop is Step |
| Simulator.Simulator.Simulate | simulation/simulate_investment.cpp:58-164 | the outputs and the new `investmentMap` are those of Run from a fresh account of 10000; `profitableSimulations` rises by one exactly when the final balance exceeds 10000 |
| Simulator.Simulator.RunConfig | simulation/simulate_investment.cpp:283-298 | clearing the map, running and summarising gives FreshReport, with `profitableSimulations` counted |
| Simulator.Simulator.SweepOne | simulation/simulate_investment.cpp:283-317 | one pass of the sweep loop appends the configuration's fresh report and updates the trackers by Track |
| Simulator.Simulator.ParameterSweep | simulation/simulate_investment.cpp:268-317 | report i is the fresh run of configuration i on a cleared map; the trackers are the fold of Track over the reports from all-zero values; `profitableSimulations` rises by the number of reports above 10000 |
| Statistics.InsertSorted | simulation/simulate_investment.cpp:259 | insertion adds exactly the element (as a multiset) and one to the length |
| Statistics.InsertSortedSorted | simulation/simulate_investment.cpp:259 | insertion into a sorted sequence keeps it sorted |
| Statistics.SortedCopy | simulation/simulate_investment.cpp:259 | the reference sort is a permutation of its input |
| Statistics.SortedCopySorted | simulation/simulate_investment.cpp:259 | the reference sort's result is sorted |
| Statistics.SortedUnique | simulation/simulate_investment.cpp:259 | two sorted sequences with the same multiset of elements are equal |
| Statistics.SortInPlace | simulation/simulate_investment.cpp:259 | the array ends sorted and a permutation of what it held |
| Statistics.SinkLast | simulation/simulate_investment.cpp:259 | one insertion step extends the sorted prefix by one and permutes the array |
| Statistics.Median | simulation/simulate_investment.cpp:255-261 | the value `medianOf` returns, 0 for an empty vector; `MedianRank` characterises it by rank and `MedianIsUpperMiddle` shows it is the upper middle element |
| Statistics.MedianOf | simulation/simulate_investment.cpp:255-261 | an empty vector gives 0 and stays as it was; otherwise the vector is sorted in place (a permutation) and the result is its element size/2, which is Median of the original contents |
| Statistics.MedianRank | simulation/simulate_investment.cpp:255-261 | the median is an element with at most ⌊n/2⌋ elements below it and at most ⌊(n−1)/2⌋ above it |
| Statistics.SortedRank | simulation/simulate_investment.cpp:260 | in a sorted sequence at most k elements lie below t[k] and at most n−1−k above it |
| Statistics.MedianOfArrangement | simulation/simulate_investment.cpp:259-260 | the median is the middle element of any sorted arrangement of the input |
| Statistics.MedianIsUpperMiddle | simulation/simulate_investment.cpp:260 | of four values w < x < y < z, in whatever order, the median is y, the upper middle one |
| Statistics.BestWin | simulation/simulate_investment.cpp:294 | 0 for no wins; otherwise an element of the wins that no win exceeds |
| Statistics.WorstLoss | simulation/simulate_investment.cpp:295 | 0 for no losses; otherwise an element of the losses that no loss is below |
| Statistics.Accuracy | simulation/simulate_investment.cpp:150-152 | 0 when nothing was bought; otherwise accuracy × trades == profitable × 100 |
| Statistics.ExpectedReturn | simulation/simulate_investment.cpp:298 | profitable trades earn the median win and the others the median loss; `ExpectedReturnBetween` bounds it by those medians |
| Statistics.ExpectedReturnBetween | simulation/simulate_investment.cpp:298 | when the median loss is at most the median win and 0 ≤ profitable ≤ trades, the expected return lies between trades × median loss and trades × median win |
| Statistics.MedianSigns | simulation/simulate_investment.cpp:296-297 | with all wins positive the median win is positive, and with all losses non-positive the median loss is non-positive |
| Sweep.ReportOf | simulation/simulate_investment.cpp:293-298 | the figures of one run as `main` computes them; their bounds are stated by `FreshReportBounds` and `FreshExpectedReturnBounds` |
| Sweep.FreshReport | simulation/simulate_investment.cpp:283-298 | the report of a run on a cleared `investmentMap`; `FreshReportBounds` and `FreshExpectedReturnBounds` state its bounds |
| Sweep.FreshReportsAt | simulation/simulate_investment.cpp:283-298 | the sweep's reports are those of fresh runs of the configurations, one each, in order |
| Sweep.FreshReportBounds | simulation/simulate_investment.cpp:283-298 | for every fresh run, 0 ≤ profitable ≤ trades, the accuracy lies in [0, 100], the median win is at most the best win and positive when a trade was profitable, and worst loss ≤ median loss ≤ 0 |
| Sweep.ReportExpectedReturnBounds | simulation/simulate_investment.cpp:298 | a report whose medians are ordered has its expected return between trades × median loss and trades × median win |
| Sweep.FreshExpectedReturnBounds | simulation/simulate_investment.cpp:283-298 | for every fresh run the expected return lies between trades × median loss and trades × median win |
| Sweep.AccuracyBounds | simulation/simulate_investment.cpp:150-152 | with 0 ≤ profitable ≤ trades the accuracy lies in [0, 100] |
| Sweep.Track | simulation/simulate_investment.cpp:291-317 | one configuration's effect on the trackers; `TrackResult` and `TrackExpected` state that each record is replaced only on a strictly larger value |
| Sweep.TrackResult | simulation/simulate_investment.cpp:309-312 | the best result is replaced, with its parameters, only on a strictly larger result |
| Sweep.TrackExpected | simulation/simulate_investment.cpp:313-317 | the best expected return is replaced, with its parameters and final balance, only on a strictly larger expected return |
| Sweep.Fold | simulation/simulate_investment.cpp:275-317 | the trackers after the sweep, in order; `FoldBestResult`, `FoldBestExpected` and `FoldCountsSimulations` state what they end holding |
| Sweep.FoldBestResult | simulation/simulate_investment.cpp:268-312 | after the sweep the best result is at least its start and every run's result; it stays (with its parameters) when no run beats the start, and otherwise is the first run achieving the maximum |
| Sweep.FoldResultBound | simulation/simulate_investment.cpp:309-312 | the best result never falls and bounds every run's result |
| Sweep.FoldResultUnchanged | simulation/simulate_investment.cpp:309-312 | the best result and its parameters stay when no run beats the start |
| Sweep.FoldResultWitness | simulation/simulate_investment.cpp:309-312 | when a run beats the start, the recorded run is the first one attaining the maximum (ties keep the earlier) |
| Sweep.FoldBestExpected | simulation/simulate_investment.cpp:268-317 | the same for the expected return, which also records the final balance of the configuration that set it |
| Sweep.FoldExpectedBound | simulation/simulate_investment.cpp:313-317 | the best expected return never falls and bounds every run's expected return |
| Sweep.FoldExpectedUnchanged | simulation/simulate_investment.cpp:313-317 | the expected-return record stays when no run beats the start |
| Sweep.FoldExpectedWitness | simulation/simulate_investment.cpp:313-317 | when a run beats the start, the recorded run is the first one attaining the maximal expected return |
| Sweep.FoldCountsSimulations | simulation/simulate_investment.cpp:291 | `totalSimulations` counts one per configuration |
| Sweep.NoGainKeepsZeroParams | simulation/simulate_investment.cpp:268-312 | a sweep from `Sweep.Initial` (everything 0) in which no run ends above 0 reports 0 and the value-initialised parameter tuple |
| Globals.Investments | include/globals.h:76-83 | the data of a run of nodes has one entry per node |
| Globals.InvestmentsAt | include/globals.h:76-83 | entry i is node i's symbol, amount and sell time |
| Globals.InvestmentsAppend | src/globals.cpp:47-64 | a node added at the end adds its data at the end |
| Globals.InvestmentList.InsertBack | src/globals.cpp:47-64 | the contents gain the investment at the end; the new tail is fresh with `next` null and `prev` the old tail; on an empty list head and tail are the new node; otherwise head stays and the old tail's `next` is the new node; head is null exactly when tail is |
| Globals.InvestmentList.Front | src/globals.cpp:67-70 | returns `head`, which is null exactly when the list is empty and otherwise holds the oldest remaining investment; nothing changes |
| Globals.InvestmentList.PopFront | src/globals.cpp:73-98 | on an empty list nothing changes; otherwise the contents lose their first element, `head` becomes the old head's `next`, the new head's `prev` is null, and `tail` is null when the list became empty |
| Globals.FifoOrder | src/globals.cpp:47-98 | after inserting a then b, the front is a and, once popped, b |
| Settings.Stoi | src/utils.cpp:95-96 | `std::stoi` on a setting's value; `StoiSkipsSpaces` states that leading white space is skipped, `StoiOfDigits`, `StoiOfPlus` and `StoiOfSign` give its result for no sign, `+` and `-` with the out_of_range bound, `StoiNeedsDigit` the invalid_argument case, and `StoiReadsDecimal` and `StoiReadsNegative` that it reads back every 32-bit integer |
| Settings.IsSpace | src/utils.cpp:95-96 | the white space `stoi` skips (space, tab, newline, vertical tab, form feed, carriage return); `StoiSkipsSpaces` states that such a prefix does not change the result |
| Settings.ParseSigned | src/utils.cpp:95-96 | `stoi` after the white space: optional sign, digits, 32-bit range; `StoiOfDigits`, `StoiOfPlus`, `StoiOfSign` and `StoiNeedsDigit` state its results and errors |
| Settings.SkipSpaces | src/utils.cpp:95-96 | `stoi` skips leading white space: the rest is no longer and does not start with a space |
| Settings.DigitRun | src/utils.cpp:95-96 | the length of the longest prefix of digits |
| Settings.NatToString | src/utils.cpp:95-96 | a decimal rendering is a non-empty run of digits |
| Settings.NatToStringValue | src/utils.cpp:95-96 | the digits of a rendering read back as the number |
| Settings.StoiReadsDecimal | src/utils.cpp:95-96 | `stoi` reads back every 32-bit integer written in decimal, whatever non-digit text follows |
| Settings.StoiReadsNegative | src/utils.cpp:95-96 | a minus sign and the digits of a negative 32-bit integer read back as it |
| Settings.StoiOfDigits | src/utils.cpp:95-96 | a value starting with a digit reads its digit run, out of range above 2^31−1 |
| Settings.StoiOfSign | src/utils.cpp:95-96 | a minus sign before digits reads the negated digit run, out of range below −2^31 |
| Settings.StoiOfPlus | src/utils.cpp:95-96 | a plus sign then digits reads the digit run, and a value above 2^31−1 is out_of_range |
| Settings.StoiSkipsSpaces | src/utils.cpp:95-96 | a value preceded by C white space reads exactly as the value without it |
| Settings.SkipSpacesPrefix | src/utils.cpp:95-96 | skipping the white space of any run of C space characters followed by a non-space leaves exactly the text after the run |
| Settings.StoiNeedsDigit | src/utils.cpp:95-96 | a value with no digit after the white space and optional sign raises invalid_argument |
| Settings.FirstIndex | src/utils.cpp:85 | `find('=')`: none exactly when there is no `=`; otherwise the first position holding one |
| Settings.SplitAtFirstDelimiter | src/utils.cpp:85-92 | a line holds a setting exactly when it contains `=`; then line == key + "=" + value with no `=` in the key |
| Settings.Split | src/utils.cpp:85-92 | the split at the first `=`, or no setting; `SplitAtFirstDelimiter` states when a line holds a setting and what its key and value are |
| Settings.SplitJoined | src/utils.cpp:91-92 | any key without `=` and any value, later `=` included, come back out of key=value |
| Settings.LoadSettings | src/utils.cpp:67-108 | the imperative loop over the lines computes LoadFrom from the fresh `Config` |
| Settings.Assign | src/utils.cpp:95-104 | the dispatch on one key; `AssignEffect` states the field each key sets and that all others stay, `AssignUnknown` that an unknown key changes nothing |
| Settings.AssignEffect | src/utils.cpp:95-104 | an unknown key changes nothing; a known key fails exactly when its value does not decode (and with that error); otherwise its field becomes the decoded value and every other field stays |
| Settings.ApplyLine | src/utils.cpp:85-104 | one loop iteration: a line without `=` changes nothing, otherwise its key and value are assigned; `LoadFails` and `LoadIsLastAssignment` state its effect over all lines |
| Settings.Decode | src/utils.cpp:95-104 | the value a key's field receives: `stoi` for the two integer keys, `value == "true"` for the three flags, the text itself otherwise; `AssignEffect` states that the field of the key gets exactly this |
| Settings.LoadFrom | src/utils.cpp:82-105 | the line loop of `loadSettings`; `LoadFails` states when and with which error it fails, `LoadIsLastAssignment` which value each field ends with |
| Settings.LoadFails | src/utils.cpp:82-105 | a load fails exactly when some line gives an integer key a value `stoi` rejects, and then with the first such line's error |
| Settings.FirstErrorExists | src/utils.cpp:82-105 | there is a first error exactly when there is a bad line |
| Settings.BadLineGivesError | src/utils.cpp:95-96 | a bad line anywhere makes the load's first error exist |
| Settings.ErrorHasBadLine | src/utils.cpp:95-96 | the first error comes from some bad line |
| Settings.LoadIsLastAssignment | src/utils.cpp:82-105 | after a successful load each field holds what the last line naming its key decodes to, or its start value when no line names it |
| Settings.PaddedKeyIgnored | src/utils.cpp:91-104 | keys match only exactly: `key =value` sets nothing |
| Settings.AssignUnknown | src/utils.cpp:95-104 | an unknown key changes nothing |
| NewsParser.NposWraps | src/news_parser.cpp:70 | `NewsParser.NPOS` is 2^64 − 1 and `npos + 1` is 0 in `size_t` |
| NewsParser.Add | src/news_parser.cpp:70 | `size_t` addition modulo 2^64; `NposWraps` states that `npos + 1` is 0 and `AddNoWrap` that it is plain addition below npos |
| NewsParser.Sub | src/news_parser.cpp:72 | `size_t` subtraction modulo 2^64; `SubNoWrap` states that it is plain subtraction when no wrap occurs |
| NewsParser.AddNoWrap | src/news_parser.cpp:70 | below npos, `size_t` addition is plain addition |
| NewsParser.SubNoWrap | src/news_parser.cpp:72 | `end - start` with start ≤ end ≤ npos is plain subtraction |
| NewsParser.Find | src/news_parser.cpp:58 | `find` returns npos or a position at or after `from` where the pattern occurs |
| NewsParser.FindReaches | src/news_parser.cpp:58 | an occurrence at j is found at j or earlier |
| NewsParser.FindIsFirst | src/news_parser.cpp:58 | no occurrence lies between `from` and the position found |
| NewsParser.Substr | src/news_parser.cpp:72 | `substr(start, len)` is at most len characters from start |
| NewsParser.Quoted | src/news_parser.cpp:70-72 | a value read ends after `from`, at npos or inside the string |
| NewsParser.Field | src/news_parser.cpp:76-84 | a field read ends after `from`, at npos or inside the string |
| NewsParser.ScanStep | src/news_parser.cpp:58-96 | a corrected pass from beyond the end stops; a found header's next position is npos or advances inside the string |
| NewsParser.QuotedAsWritten | src/news_parser.cpp:70-73 | the quote-to-quote read as written, with `npos + 1` wrapping to 0; `QuotedAgrees` states it equals `Quoted` whenever an opening quote follows, and `LoopTitle` shows the wrap |
| NewsParser.FieldAsWritten | src/news_parser.cpp:76-84 | the marker search followed by the as-written read; `LoopUrl`, `LoopDate`, `CompactTitle`, `CompactUrl` and `CompactDate` state its results on two concrete responses |
| NewsParser.ScanStepAsWritten | src/news_parser.cpp:58-96 | one pass of the scan as written, with the +16 offset; `ScanLoopsAsWritten` shows a pass that returns to its start and `PublishedOffsetAsWritten` one that reads `,` as the date |
| NewsParser.QuotedValue | src/news_parser.cpp:70-72 | the value is the text after the first quote at or after `from`, up to the next quote or the end |
| NewsParser.QuotedHasNoQuote | src/news_parser.cpp:70-72 | a value never contains a quote |
| NewsParser.QuotedMissing | src/news_parser.cpp:70 | no value is read exactly when no quote follows `from` |
| NewsParser.NoMatchFindsNothing | src/news_parser.cpp:58-65 | with no occurrence at or after `from`, `find` returns npos |
| NewsParser.StopsWithoutTitle | src/news_parser.cpp:58-65 | with no `"title":` at or after the position, the scan queues and marks nothing more |
| NewsParser.StopsWithoutUrlOrDate | src/news_parser.cpp:76-92 | a title without a later url marker, or a url without a later published_at marker, ends the whole scan: later content is not processed |
| NewsParser.Admit | src/news_parser.cpp:99-128 | de-duplication and fetch of one header; `DuplicateSkipped` and `FetchOutcome` state its three outcomes |
| NewsParser.Extract | src/news_parser.cpp:55-129 | the whole scan from a position; `ExtractAdmitsHeaders` states it admits the scanned headers in order, and `AdmitAllAppends` and `AdmitAllSeen` what admission adds |
| NewsParser.DuplicateSkipped | src/news_parser.cpp:99-103 | a URL already seen is neither fetched (any oracle gives the same result) nor queued, and the scan goes on |
| NewsParser.FetchOutcome | src/news_parser.cpp:105-128 | a new URL whose fetch succeeds is queued at the back with its text and marked seen; when the fetch fails neither happens |
| NewsParser.ExtractAdmitsHeaders | src/news_parser.cpp:55-129 | the scan is the admission of the headers it reads, in title-marker order |
| NewsParser.AdmitAllAppends | src/news_parser.cpp:99-118 | admission only appends: each item added has a new URL, now seen, and the text its fetch returned; no two added items share a URL |
| NewsParser.AdmitAllSeen | src/news_parser.cpp:114-118 | the seen set grows by exactly the URLs of the items queued |
| NewsParser.LoopTitle | src/news_parser.cpp:70-73 | on LoopResponse the title read as written from position 29 wraps to position 0 and reads `{` |
| NewsParser.LoopUrl | src/news_parser.cpp:76-84 | the url read as written after that is `u` |
| NewsParser.LoopDate | src/news_parser.cpp:88-96 | the published_at read as written after that is `p`, ending at position 29 again |
| NewsParser.ScanLoopsAsWritten | src/news_parser.cpp:70-73 | on LoopResponse the as-written pass from position 29 returns to position 29 with a header whose URL is already seen, so the loop never ends |
| NewsParser.ScanStopsCorrected | src/news_parser.cpp:58-96 | on the same response the corrected pass from position 29 ends the scan |
| NewsParser.CompactTitle | src/news_parser.cpp:69-73 | the title of CompactResponse, as written, is `T` |
| NewsParser.CompactUrl | src/news_parser.cpp:75-84 | its url, as written, is `U` |
| NewsParser.CompactDate | src/news_parser.cpp:93-95 | its published_at, as written, is `,`: the +16 offset skips the opening quote |
| NewsParser.PublishedOffsetAsWritten | src/news_parser.cpp:93-95 | the as-written pass over CompactResponse reads the header (T, U, `,`) |
| NewsParser.CompactTitleCorrected | src/news_parser.cpp:69-73 | the corrected title read of CompactResponse is `T` |
| NewsParser.CompactUrlCorrected | src/news_parser.cpp:75-84 | the corrected url read is `U` |
| NewsParser.CompactDateCorrected | src/news_parser.cpp:93-95 | the corrected published_at read is `P` |
| NewsParser.PublishedOffsetCorrected | src/news_parser.cpp:93-95 | the corrected pass over CompactResponse reads the header (T, U, P) |
| NewsParser.PublishedValueCorrected | src/news_parser.cpp:93-95 | with a quote right after the marker, the corrected reader takes the text after it |
| NewsParser.QuotedAgrees | src/news_parser.cpp:70-72 | when an opening quote is present the as-written and corrected readers agree |
| NewsParser.OffsetAgrees | src/news_parser.cpp:93 | the +16 and +15 offsets find the same quote unless the marker is directly followed by one |
| NewsParser.WellQuoted | src/news_parser.cpp:58-93 | the input shape on which both corrections are silent: a quote follows every `"title":`, `"url":` and `"published_at":` marker at the offset the code reads from, and no quote directly follows `"published_at":` |
| NewsParser.QuotedSameFind | src/news_parser.cpp:70-72 | two start positions that reach the same first quote read the same value |
| NewsParser.FieldAgrees | src/news_parser.cpp:76-84 | when the marker is missing, or a quote follows it, the corrected and as-written field reads agree |
| NewsParser.DateAgrees | src/news_parser.cpp:88-95 | when a quote follows `"published_at":` but not directly, reading its value from +15 and from +16 gives the same result |
| NewsParser.TitleAgrees | src/news_parser.cpp:58-73 | on well-quoted input both title reads agree from any position |
| NewsParser.UrlAgrees | src/news_parser.cpp:76-84 | on well-quoted input both url reads agree from any position |
| NewsParser.DateStepAgrees | src/news_parser.cpp:88-95 | on well-quoted input both published_at reads agree from any position |
| NewsParser.StepFromFields | src/news_parser.cpp:58-96 | the corrected and as-written passes agree once their three field reads agree |
| NewsParser.ScanStepAgrees | src/news_parser.cpp:58-96 | on every well-quoted response the corrected pass equals the pass as written, from every position: the corrections change only malformed input |
| NewsParser.NewsFeed.ExtractNewsFromResponse | src/news_parser.cpp:51-130 | the in-place loop leaves `newsQueue` and `seenUrls` as Extract (the corrected scan) from position 0 |
| NewsParser.ScanOnce | src/news_parser.cpp:58-96 | one imperative pass reports a header exactly when ScanStep finds one, and that header |
| NewsParser.ReadField | src/news_parser.cpp:76-84 | the imperative read succeeds exactly when Field does, with its value and end |
| NewsParser.ReadQuoted | src/news_parser.cpp:81-84 | the imperative quote-to-quote read succeeds exactly when Quoted does, with its value and end |
| NewsParser.SubstrUpTo | src/news_parser.cpp:82-83 | `substr(start, end − start)` is the text from start to end, or to the end of the string when end is npos |
| LiveStrategy.Decide | src/investment_strategy.cpp:55-79 | the live decision for one signal; `DecideCases` states exactly when it buys, sells or skips |
| LiveStrategy.DecideCases | src/investment_strategy.cpp:55-79 | buy exactly when the gate passes and sentiment ≥ the positive threshold; sell exactly when the gate passes, sentiment is below it and at most the negative threshold; skip exactly when the gate fails or the sentiment lies strictly between |
| LiveStrategy.BuyWinsOverSell | src/investment_strategy.cpp:63-68 | a score meeting both thresholds buys |
| LiveStrategy.BuyPercent | src/investment_strategy.cpp:13 | a fraction of the portfolio between 0 and 1 is reported as a percentage between 0 and 100 |
| LiveStrategy.BuyPercentMonotone | src/investment_strategy.cpp:13 | a larger investment fraction never reports a smaller percentage |
| LiveStrategy.DefaultStrategyDecisions | src/globals.cpp:30-36 | the default strategy `Globals.DefaultStrategy` (0.01, 0.9, −0.3, 0.7, 86400) reports 1%; similarity 0.7 passes and 0.69 does not; 0.9 buys, −0.3 sells, 0.5 is skipped |
| LiveStrategy.SimulatorDecision | simulation/simulate_investment.cpp:77-107 | the simulator's classification of a signal, sell tested first; `DecisionsAgree` relates it to `Decide` and `StepFollowsSimulatorDecision` to `Step` |
| LiveStrategy.DecisionsAgree | src/investment_strategy.cpp:63-73 | the live and simulator orders differ exactly when the gate passes and the sentiment meets both thresholds |
| LiveStrategy.DefaultStrategiesAgree | src/globals.cpp:30-36 | under the default strategy the two orders agree on every signal |
| LiveStrategy.StepFollowsSimulatorDecision | simulation/simulate_investment.cpp:77-147 | the simulator's decision (sell tested first) is the branch Step takes, each followed by the forced-sell pass |

## Left out

- `loadNews`, `loadPrices` and `parseTime` (simulation/simulate_investment.cpp:168-251) do file I/O, `stod` and local-time conversion, so they are not modelled. Events and price series are given as sequences, and timestamps as whole seconds.
- The grid loops of `main` (simulation/simulate_investment.cpp:275-281) step doubles, so their iteration count depends on rounding. The sweep runs over a given list of configurations.
- All console output (`cout`, `safeCout`, `safeCerr`, the summary of lines 300-336) is printing only.
- Floating point: balances, prices and P&Ls are `real`. IEEE rounding, infinities and NaN are not modelled. Division by a price is guarded by the positive-price requirement on price data.
- `priceData[ticker]` inserts an empty series for an unknown ticker. The model only reads it: an unknown ticker has the empty series, which is what the lookup then sees.
- Threads, mutexes, the `while(true)` queue-draining loop of `executeInvestmentStrategy` and the hold-duration check marked "to do" are not modelled. Only the decision of lines 55-79 is.
- `newsPolling`, `fetchNewsFromAPI`, `processNewsArticles`, `detectCompanyInNews`, `analyzeSentiment`, `startDebugMonitor`, `main.cpp` and the Python scripts wrap subprocesses and network services, so they are not modelled.
- `getArticleText` runs a Python script. It is the `fetch` parameter; an exception is `None`. The parameter answers the same for a URL on every call, so a URL met twice in one response whose first fetch failed (and so was not marked seen, src/news_parser.cpp:109-128) fails again in the model, where the scraper may succeed on the second attempt.
- `stockInvestmentsMap` and the global `investmentList` instance are declared but used by no modelled logic.
- The opening of the settings file and its exception are not modelled. `loadSettings` takes the file's lines. `getline`'s splitting is left out.
- Globals.InvestmentList.PopFront: `delete tmp` becomes dropping the node from `Repr`. Freed memory is not modelled.
- Globals.InvestmentList.InsertBack: `std::chrono` time points are whole seconds (`int`).
- The integer and boolean fields of the C++ `Config` are uninitialised until a line sets them. Here they are `None` until then.
- LiveStrategy.BuyPercent: `to_string`'s six-decimal formatting of the percentage is not modelled, only its value.
- NewsParser.NewsFeed.ExtractNewsFromResponse: models the scan with both corrections of "## Findings" (a missing opening quote stops, and the published_at offset is 15). The scan as written is modelled by `NewsParser.ScanStepAsWritten`; `NewsParser.ScanStepAgrees` proves the two steps equal on every well-quoted response (`NewsParser.WellQuoted`: a quote follows each marker, and none directly follows `"published_at":`), so the corrections change only malformed input.
- NewsParser.NewsFeed.ExtractNewsFromResponse: the function's own `lock_guard` around the push (src/news_parser.cpp:113) is dropped, and its contract assumes exclusive access to `newsQueue` and `seenUrls`. In the program `processNewsArticles` pops `newsQueue` concurrently (src/news_processing.cpp:181-186), each polling cycle detaches a new extraction thread (src/news_fetcher.cpp:76-79), and `seenUrls` is read and written at src/news_parser.cpp:99 and 118 without any lock, so two extractions can interleave.
- Simulator.Simulator.Simulate and Sweep.Fold: the 32-bit `int` counters `totalTrades`, `profitableTrades`, `totalSimulations` and `profitableSimulations` are unbounded integers. Overflow would need more than 2^31 trades or configurations.
- NewsParser.Find: responses are assumed shorter than npos (2^64−1 characters), the limit of `size_t` positions.

## Findings

| source | as written | input that shows it | evidently intended | confidence | as-written member | corrected member |
|---|---|---|---|---|---|---|
| src/news_parser.cpp:70-93 | when no `"` follows a marker, `find` returns npos and `npos + 1` wraps to 0, so the value search restarts at the head of the response. The wrap needs a marker with no `"` anywhere after it, which the program's own responses (`json.dumps(..., indent=4)`, scripts/marketaux_fetcher.py:23) never contain, so the defect is latent | LoopResponse `{"url":"u","published_at": "p","title":` scanned from position 29 with `u` already seen: the pass reads title `{`, url `u`, published_at `p` and returns to position 29, so the `while(true)` loop never ends | a field without an opening quote ends the scan | not executed | NewsParser.ScanLoopsAsWritten | NewsParser.ScanStopsCorrected |
| src/news_parser.cpp:93 | the value search starts 16 characters after `"published_at":`, a 15-character marker, so a quote directly after the marker is skipped. The program's own responses never trigger this: the only caller (src/news_fetcher.cpp:73-77) passes the output of `json.dumps(..., indent=4)` (scripts/marketaux_fetcher.py:23), which always puts a space after the colon | CompactResponse `"title":"T","url":"U","published_at":"P","x":1` read from 0: published_at comes out as `,`. This is a latent defect for JSON written without the space, not a misread seen in normal use | more robust rather than evidently intended: start the search right after the marker (offset 15). It agrees with +16 whenever no quote directly follows the marker (NewsParser.OffsetAgrees), and the whole corrected step equals the step as written on every well-quoted response (NewsParser.ScanStepAgrees), so on the program's own indented output nothing changes | not executed | NewsParser.PublishedOffsetAsWritten | NewsParser.PublishedOffsetCorrected |
