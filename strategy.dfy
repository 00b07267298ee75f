/**
 * The live trader's per-signal decision (src/investment_strategy.cpp, lines 55-79) and how it
 * relates to the classification the offline simulator applies to the same scores.
 */
module LiveStrategy {

  import opened Prices
  import opened Ledger
  import opened Globals
  import opened Simulation

  datatype Decision = Skip | Buy | Sell

  /**
   * Lines 55-79: a similarity below the threshold skips the signal; otherwise a sentiment at
   * or above the positive threshold buys, else one at or below the negative threshold sells,
   * else the signal is skipped. (The sell branch of the source does nothing yet.)
   */
  function Decide(strategy: InvestmentStrategy, similarity: real, sentiment: real): Decision
  {
    if similarity < strategy.similarityThreshold then Skip
    else if sentiment >= strategy.positiveSentimentThreshold then Buy
    else if sentiment <= strategy.negativeSentimentThreshold then Sell
    else Skip
  }

  /** The decision in closed form: each outcome and exactly when it is taken. */
  lemma DecideCases(strategy: InvestmentStrategy, similarity: real, sentiment: real)
    ensures Decide(strategy, similarity, sentiment) == Buy <==>
      similarity >= strategy.similarityThreshold && sentiment >= strategy.positiveSentimentThreshold
    ensures Decide(strategy, similarity, sentiment) == Sell <==>
      && similarity >= strategy.similarityThreshold
      && sentiment < strategy.positiveSentimentThreshold
      && sentiment <= strategy.negativeSentimentThreshold
    ensures Decide(strategy, similarity, sentiment) == Skip <==>
      || similarity < strategy.similarityThreshold
      || (strategy.negativeSentimentThreshold < sentiment < strategy.positiveSentimentThreshold)
  {
  }

  /** Buy is tested first: a score meeting both thresholds buys. */
  lemma BuyWinsOverSell(strategy: InvestmentStrategy, similarity: real, sentiment: real)
    requires similarity >= strategy.similarityThreshold
    requires sentiment >= strategy.positiveSentimentThreshold
    requires sentiment <= strategy.negativeSentimentThreshold
    ensures Decide(strategy, similarity, sentiment) == Buy
  {
  }

  /**
   * The percentage the buy message reports (line 13): a fraction of the portfolio between
   * none and all of it is reported between 0% and 100%, and a larger fraction never reports less.
   */
  function BuyPercent(strategy: InvestmentStrategy): (p: real)
    ensures 0.0 <= strategy.investmentPercentage <= 1.0 ==> 0.0 <= p <= 100.0
  {
    strategy.investmentPercentage * 100.0
  }

  /** The reported percentage grows with the fraction invested. */
  lemma BuyPercentMonotone(a: InvestmentStrategy, b: InvestmentStrategy)
    requires a.investmentPercentage <= b.investmentPercentage
    ensures BuyPercent(a) <= BuyPercent(b)
  {
  }

  /** With the default strategy a buy reports 1% and a signal passes at similarity 0.7. */
  lemma DefaultStrategyDecisions()
    ensures BuyPercent(DefaultStrategy) == 1.0
    ensures Decide(DefaultStrategy, 0.7, 0.9) == Buy
    ensures Decide(DefaultStrategy, 0.7, -0.3) == Sell
    ensures Decide(DefaultStrategy, 0.69, 1.0) == Skip
    ensures Decide(DefaultStrategy, 0.7, 0.5) == Skip
  {
  }

  // ---------------------------------------------------------------------------------------
  // The simulator tests the same scores with sell before buy.

  /** Which branch `simulate` takes for a signal that passed its price lookup (lines 77, 87, 107). */
  function SimulatorDecision(cfg: Strategy, similarity: real, sentiment: real): Decision
  {
    if similarity < cfg.similarityThreshold then Skip
    else if sentiment <= cfg.sellThreshold then Sell
    else if sentiment >= cfg.buyThreshold then Buy
    else Skip
  }

  /** The simulator's strategy with the thresholds of a live strategy. */
  function SimulatorConfig(strategy: InvestmentStrategy): Strategy
  {
    Strategy(strategy.investmentPercentage, strategy.positiveSentimentThreshold,
             strategy.negativeSentimentThreshold, strategy.similarityThreshold,
             strategy.holdTimeSeconds)
  }

  /**
   * When the sell threshold lies below the buy threshold the two orders agree on every
   * signal; otherwise they disagree exactly on the scores that meet both thresholds.
   */
  lemma DecisionsAgree(strategy: InvestmentStrategy, similarity: real, sentiment: real)
    ensures var cfg := SimulatorConfig(strategy);
      (Decide(strategy, similarity, sentiment) != SimulatorDecision(cfg, similarity, sentiment)) <==>
        && similarity >= strategy.similarityThreshold
        && strategy.positiveSentimentThreshold <= sentiment <= strategy.negativeSentimentThreshold
  {
  }

  lemma DefaultStrategiesAgree(similarity: real, sentiment: real)
    ensures Decide(DefaultStrategy, similarity, sentiment)
         == SimulatorDecision(SimulatorConfig(DefaultStrategy), similarity, sentiment)
  {
    DecisionsAgree(DefaultStrategy, similarity, sentiment);
  }

  /**
   * SimulatorDecision is the branch Step takes: a priced event the simulator classifies as
   * Sell closes the ticker's lots, Buy opens one, Skip leaves the account and deques to the
   * forced-sell pass alone.
   */
  lemma StepFollowsSimulatorDecision(cfg: Strategy, pd: PriceData, st: SimState, e: NewsEntry)
    requires ValidPriceData(pd) && ValidBook(st.book)
    requires PriceAtOrAfter(Series(pd, e.ticker), e.timestamp).Some?
    ensures var prices := Series(pd, e.ticker);
      var p := PriceAtOrAfter(prices, e.timestamp).value;
      var hold := cfg.holdDurationSecs;
      p > 0.0 &&
      match SimulatorDecision(cfg, e.similarity, e.sentiment)
      case Skip =>
        Step(cfg, pd, st, e) == if e.similarity < cfg.similarityThreshold then st
                                else ForceSweep(st, prices, e.timestamp, hold)
      case Sell => Step(cfg, pd, st, e) == ForceSweep(SellBranch(st, e.ticker, p), prices, e.timestamp, hold)
      case Buy => Step(cfg, pd, st, e) == ForceSweep(BuyBranch(st, cfg, e, p), prices, e.timestamp, hold)
  {
    ResolvedPricePositive(Series(pd, e.ticker), e.timestamp);
  }
}
