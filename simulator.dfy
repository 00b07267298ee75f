/**
 * The simulator's global state and its two entry points (simulation/simulate_investment.cpp):
 * `simulate`, which runs the event loop updating `investmentMap` in place, and the parameter
 * sweep of `main`. Each is proved equal to the value-level model in modules Simulation and
 * Sweep.
 */
module Simulator {

  import opened Prices
  import opened Ledger
  import opened Simulation
  import opened Statistics
  import opened Sweep


  /**
   * Closes every lot of one deque at `price`, front first (the sell branch's loop,
   * lines 89-104).
   */
  method SellDeque(acc: Account, lots: seq<InvestmentNode>, price: real) returns (acc': Account)
    ensures acc' == SellAll(acc, lots, price)
  {
    acc' := acc;
    var invList := lots;
    while invList != []
      invariant SellAll(acc', invList, price) == SellAll(acc, lots, price)
      decreases |invList|
    {
      var node := invList[0];
      acc' := Close(acc', node, price);
      invList := invList[1..];
    }
  }

  /**
   * The forced sell of one deque (lines 124-144): pops lots while the front one has been
   * held at least `hold` seconds at `now`, each at the first price at or after its
   * buyTime + hold in `prices`, and stops at the first lookup that finds none.
   */
  method ForceSellDeque(acc: Account, lots: seq<InvestmentNode>, prices: seq<PriceEntry>,
                        now: int, hold: int) returns (acc': Account, rest: seq<InvestmentNode>)
    requires SortedByTime(prices)
    ensures (acc', rest) == ForceSellQueue(acc, lots, prices, now, hold)
  {
    acc', rest := acc, lots;
    while rest != [] && now - rest[0].buyTime >= hold
      invariant ForceSellQueue(acc', rest, prices, now, hold) == ForceSellQueue(acc, lots, prices, now, hold)
      decreases |rest|
    {
      var node := rest[0];
      var sellTime := node.buyTime + hold;
      var it2 := LowerBound(prices, sellTime);
      if it2 == |prices| {
        break;
      }
      var sellPrice := prices[it2].price;
      acc' := Close(acc', node, sellPrice);
      rest := rest[1..];
    }
  }

  /** `medianOf` applied to a vector holding `s` (the caller's vector is sorted in place and dropped). */
  method MedianOfCopy(s: seq<real>) returns (m: real)
    ensures m == Median(s)
  {
    var v := new real[|s|](i requires 0 <= i < |s| => s[i]);
    assert v[..] == s;
    m := MedianOf(v);
  }

  /**
   * The figures `main` computes after one run (lines 293-298) and the accuracy `simulate`
   * prints (lines 150-152).
   */
  method Summarise(cfg: Strategy, result: real, trades: int, profitable: int,
                   wins: seq<real>, losses: seq<real>) returns (report: RunReport)
    ensures report == ReportOf(cfg, Account(result, trades, profitable, wins, losses))
  {
    var accuracy := Accuracy(trades, profitable);
    var bestWin := if wins == [] then 0.0 else BestWin(wins);
    var bestLoss := if losses == [] then 0.0 else WorstLoss(losses);
    var medWin := MedianOfCopy(wins);
    var medLoss := MedianOfCopy(losses);
    var expectedReturn := ExpectedReturn(trades, profitable, medWin, medLoss);
    report := RunReport(ParamsOf(cfg), result, trades, profitable, accuracy,
                        bestWin, medWin, bestLoss, medLoss, expectedReturn);
  }

  /** The tracker updates after one run (line 291 and lines 309-317). */
  method TrackRun(tr: Tracker, report: RunReport) returns (tr': Tracker)
    ensures tr' == Track(tr, report)
  {
    var total := tr.totalSimulations + 1;
    var bestResult, bestResultParams := tr.bestResult, tr.bestResultParams;
    if report.result > bestResult {
      bestResult, bestResultParams := report.result, report.params;
    }
    var bestExpectedReturn, bestExpectedParams, bestExpectedResult :=
      tr.bestExpectedReturn, tr.bestExpectedParams, tr.bestExpectedResult;
    if report.expectedReturn > bestExpectedReturn {
      bestExpectedReturn, bestExpectedParams, bestExpectedResult :=
        report.expectedReturn, report.params, report.result;
    }
    tr' := Tracker(bestResult, bestResultParams, bestExpectedReturn, bestExpectedParams,
                   bestExpectedResult, total);
  }

  /** The globals `priceData`, `newsData`, `investmentMap` and `profitableSimulations`. */
  class Simulator {
    const priceData: PriceData
    const newsData: seq<NewsEntry>
    var investmentMap: map<string, seq<InvestmentNode>>
    /** The keys of `investmentMap` in the order a std::map iterates them. */
    var tickers: seq<string>
    var profitableSimulations: int

    ghost predicate Valid()
      reads this
    {
      ValidPriceData(priceData) && ValidBook(BookOf())
    }

    function BookOf(): Book
      reads this
    {
      Book(investmentMap, tickers)
    }

    /** The state after the loaders ran: price and news data loaded, nothing held. */
    constructor(pd: PriceData, news: seq<NewsEntry>)
      requires ValidPriceData(pd)
      ensures Valid()
      ensures priceData == pd && newsData == news
      ensures BookOf() == EmptyBook() && profitableSimulations == 0
    {
      priceData := pd;
      newsData := news;
      investmentMap := map[];
      tickers := [];
      profitableSimulations := 0;
    }

    /**
     * The forced-sell pass over every deque in key order (lines 119-146), all priced in
     * `prices`.
     */
    method ForceSellPass(acc: Account, prices: seq<PriceEntry>, now: int, hold: int) returns (acc': Account)
      requires Valid() && SortedByTime(prices)
      modifies this
      ensures Valid()
      ensures SimState(acc', BookOf()) == ForceSweep(SimState(acc, old(BookOf())), prices, now, hold)
      ensures profitableSimulations == old(profitableSimulations)
    {
      ghost var q0 := investmentMap;
      acc' := acc;
      var j := 0;
      while j < |tickers|
        invariant 0 <= j <= |tickers|
        invariant tickers == old(tickers) && profitableSimulations == old(profitableSimulations)
        invariant investmentMap.Keys == q0.Keys
        invariant forall t :: t in tickers ==> t in investmentMap
        invariant ForceSellAll(acc', investmentMap, tickers[j..], prices, now, hold)
               == ForceSellAll(acc, q0, tickers, prices, now, hold)
      {
        var t := tickers[j];
        assert tickers[j..][1..] == tickers[j + 1..];
        var acc1, rest := ForceSellDeque(acc', investmentMap[t], prices, now, hold);
        acc' := acc1;
        investmentMap := investmentMap[t := rest];
        j := j + 1;
      }
      assert ValidBook(ForceSweep(SimState(acc, old(BookOf())), prices, now, hold).book);
    }

    /** `investmentMap[ticker] = q`, which inserts the key when it is missing. */
    method SetQueueOf(ticker: string, q: seq<InvestmentNode>)
      requires Valid()
      modifies this
      ensures Valid() && profitableSimulations == old(profitableSimulations)
      ensures BookOf() == SetQueue(old(BookOf()), ticker, q)
    {
      InsertTickerSorted(tickers, ticker);
      investmentMap := investmentMap[ticker := q];
      tickers := InsertTicker(tickers, ticker);
    }

    /**
     * The sell or buy branch for one event already past the gate and priced
     * (lines 86-116); neither branch when the sentiment lies strictly between the thresholds.
     */
    method Trade(cfg: Strategy, news: NewsEntry, currentPrice: real, acc: Account) returns (acc': Account)
      requires Valid() && currentPrice > 0.0
      modifies this
      ensures Valid() && profitableSimulations == old(profitableSimulations)
      ensures var st := SimState(acc, old(BookOf()));
        SimState(acc', BookOf())
          == if news.sentiment <= cfg.sellThreshold then SellBranch(st, news.ticker, currentPrice)
             else if news.sentiment >= cfg.buyThreshold then BuyBranch(st, cfg, news, currentPrice)
             else st
    {
      acc' := acc;
      if news.sentiment <= cfg.sellThreshold {
        acc' := SellDeque(acc, QueueOf(BookOf(), news.ticker), currentPrice);
        SetQueueOf(news.ticker, []);
      } else if news.sentiment >= cfg.buyThreshold {
        var toInvest := acc.balance * cfg.investPercent;
        var qty := toInvest / currentPrice;
        acc' := acc.(balance := acc.balance - toInvest, totalTrades := acc.totalTrades + 1);
        var lot := InvestmentNode(news.ticker, qty, currentPrice, news.timestamp);
        SetQueueOf(news.ticker, QueueOf(BookOf(), news.ticker) + [lot]);
      }
    }

    /** One iteration of the event loop (lines 74-147). */
    method HandleEvent(cfg: Strategy, news: NewsEntry, acc: Account) returns (acc': Account)
      requires Valid()
      modifies this
      ensures Valid() && profitableSimulations == old(profitableSimulations)
      ensures SimState(acc', BookOf()) == Step(cfg, priceData, SimState(acc, old(BookOf())), news)
    {
      acc' := acc;
      if news.similarity < cfg.similarityThreshold {
        return;
      }
      var prices := Series(priceData, news.ticker);
      var it := LowerBound(prices, news.timestamp);
      if it == |prices| {
        return;
      }
      var currentPrice := prices[it].price;
      acc' := Trade(cfg, news, currentPrice, acc);
      acc' := ForceSellPass(acc', prices, news.timestamp, cfg.holdDurationSecs);
    }

    /**
     * `simulate` (lines 58-164): the whole event loop from a fresh account of 10000. The
     * outputs and the new `investmentMap` are those of Run from that account and the map as
     * it stood (`simulate` itself does not clear it), and a final balance above 10000 counts
     * one more profitable simulation.
     */
    method Simulate(cfg: Strategy)
      returns (balance: real, totalTrades: int, profitableTrades: int,
               winTrades: seq<real>, lossTrades: seq<real>)
      requires Valid()
      modifies this
      ensures Valid()
      ensures var r := Run(cfg, priceData, Start(old(BookOf())), newsData);
        && Account(balance, totalTrades, profitableTrades, winTrades, lossTrades) == r.account
        && BookOf() == r.book
      ensures profitableSimulations
           == old(profitableSimulations) + (if balance > StartingBalance then 1 else 0)
    {
      ghost var start := Start(BookOf());
      var acc := Account(StartingBalance, 0, 0, [], []);
      for i := 0 to |newsData|
        invariant Valid()
        invariant profitableSimulations == old(profitableSimulations)
        invariant Run(cfg, priceData, SimState(acc, BookOf()), newsData[i..])
               == Run(cfg, priceData, start, newsData)
      {
        assert newsData[i..][0] == newsData[i] && newsData[i..][1..] == newsData[i + 1..];
        acc := HandleEvent(cfg, newsData[i], acc);
      }
      balance, totalTrades, profitableTrades := acc.balance, acc.totalTrades, acc.profitableTrades;
      winTrades, lossTrades := acc.winTrades, acc.lossTrades;
      if balance > StartingBalance {
        profitableSimulations := profitableSimulations + 1;
      }
    }

    /**
     * One configuration of the sweep (lines 283-298): clear `investmentMap`, run, and
     * compute best and median win and loss (`medianOf` sorting each vector in place) and the
     * expected return.
     */
    method RunConfig(cfg: Strategy) returns (report: RunReport)
      requires Valid()
      modifies this
      ensures Valid()
      ensures report == FreshReport(cfg, priceData, newsData)
      ensures profitableSimulations
           == old(profitableSimulations) + (if report.result > StartingBalance then 1 else 0)
    {
      investmentMap := map[];
      tickers := [];
      assert BookOf() == EmptyBook();
      var result, trades, profitable, wins, losses := Simulate(cfg);
      ghost var acc := Run(cfg, priceData, Start(EmptyBook()), newsData).account;
      assert Account(result, trades, profitable, wins, losses) == acc;
      report := Summarise(cfg, result, trades, profitable, wins, losses);
    }

    /** One pass of the sweep's loop: run `cfg` fresh, record its report and update the trackers. */
    method SweepOne(cfg: Strategy, reports: seq<RunReport>, tr: Tracker)
      returns (reports': seq<RunReport>, tr': Tracker)
      requires Valid()
      modifies this
      ensures Valid()
      ensures reports' == reports + [FreshReport(cfg, priceData, newsData)]
      ensures tr' == Track(tr, FreshReport(cfg, priceData, newsData))
      ensures profitableSimulations == old(profitableSimulations)
        + (if FreshReport(cfg, priceData, newsData).result > StartingBalance then 1 else 0)
    {
      var report := RunConfig(cfg);
      tr' := TrackRun(tr, report);
      reports' := reports + [report];
    }

    /**
     * The sweep of `main` over `configs` (lines 268-317): each configuration runs on a
     * cleared `investmentMap`, so its report is that of a fresh run whatever ran before; the
     * trackers fold the reports in order, and every run above 10000 counts once in
     * `profitableSimulations`.
     */
    method ParameterSweep(configs: seq<Strategy>) returns (reports: seq<RunReport>, tr: Tracker)
      requires Valid()
      modifies this
      ensures Valid()
      ensures reports == FreshReports(configs, priceData, newsData)
      ensures |reports| == |configs|
      ensures forall i :: 0 <= i < |configs| ==> reports[i] == FreshReport(configs[i], priceData, newsData)
      ensures tr == Fold(Initial, reports)
      ensures profitableSimulations == old(profitableSimulations) + ProfitableRuns(reports)
    {
      tr := Initial;
      reports := [];
      for c := 0 to |configs|
        invariant Valid()
        invariant reports == FreshReports(configs[..c], priceData, newsData)
        invariant tr == Fold(Initial, reports)
        invariant profitableSimulations == old(profitableSimulations) + ProfitableRuns(reports)
      {
        ghost var before := reports;
        reports, tr := SweepOne(configs[c], reports, tr);
        FreshReportsAt(configs[..c], priceData, newsData);
        assert reports[..c] == before;
        assert configs[..c + 1][..c] == configs[..c];
      }
      assert configs[..|configs|] == configs;
      FreshReportsAt(configs, priceData, newsData);
    }
  }
}
