/**
 * One run of the offline strategy simulator (`simulate`, simulation/simulate_investment.cpp),
 * as a function of the strategy, the price data, the starting state and the news events.
 * Class Simulator (simulator.dfy) performs the same run in place and is proved equal to Run.
 */
module Simulation {

  import opened Wrappers
  import opened Prices
  import opened Ledger

  /** A news event: `NewsEntry` of the simulator. */
  datatype NewsEntry = NewsEntry(ticker: string, similarity: real, sentiment: real, timestamp: int)

  /** The parameters of one `simulate` call. */
  datatype Strategy = Strategy(
    investPercent: real,
    buyThreshold: real,
    sellThreshold: real,
    similarityThreshold: real,
    holdDurationSecs: int)

  /** The account (balance, counters, win/loss lists) and `investmentMap`. */
  datatype SimState = SimState(account: Account, book: Book)

  /** Cash every run starts with, and the bar for a profitable simulation. */
  const StartingBalance: real := 10000.0

  /** The state `simulate` starts from: fresh account, whatever `investmentMap` holds. */
  function Start(book: Book): SimState
  {
    SimState(Account(StartingBalance, 0, 0, [], []), book)
  }

  /** Lines 87-105: close every lot of `ticker` at `price`; the key is left with an empty deque. */
  function SellBranch(st: SimState, ticker: string, price: real): SimState
    requires ValidBook(st.book)
  {
    SimState(SellAll(st.account, QueueOf(st.book, ticker), price), SetQueue(st.book, ticker, []))
  }

  /** The lot a buy at `price` for event `e` opens. */
  function NewLot(st: SimState, cfg: Strategy, e: NewsEntry, price: real): InvestmentNode
    requires price != 0.0
  {
    InvestmentNode(e.ticker, st.account.balance * cfg.investPercent / price, price, e.timestamp)
  }

  /** Lines 107-116: invest `investPercent` of the balance in one new lot at the back of the deque. */
  function BuyBranch(st: SimState, cfg: Strategy, e: NewsEntry, price: real): SimState
    requires ValidBook(st.book)
    requires price != 0.0
  {
    var toInvest := st.account.balance * cfg.investPercent;
    SimState(
      st.account.(balance := st.account.balance - toInvest, totalTrades := st.account.totalTrades + 1),
      SetQueue(st.book, e.ticker, QueueOf(st.book, e.ticker) + [NewLot(st, cfg, e, price)]))
  }

  /** Lines 119-146: the forced sell of every deque, priced in the current event's series. */
  function ForceSweep(st: SimState, prices: seq<PriceEntry>, now: int, hold: int): (r: SimState)
    requires ValidBook(st.book)
    ensures ValidBook(r.book)
  {
    var (acc, queues) := ForceSellAll(st.account, st.book.queues, st.book.tickers, prices, now, hold);
    SimState(acc, Book(queues, st.book.tickers))
  }

  /** One iteration of the event loop (lines 74-147). */
  function Step(cfg: Strategy, pd: PriceData, st: SimState, e: NewsEntry): (r: SimState)
    requires ValidPriceData(pd) && ValidBook(st.book)
    ensures ValidBook(r.book)
  {
    if e.similarity < cfg.similarityThreshold then st
    else
      var prices := Series(pd, e.ticker);
      match PriceAtOrAfter(prices, e.timestamp)
      case None => st
      case Some(currentPrice) =>
        ResolvedPricePositive(prices, e.timestamp);
        var traded :=
          if e.sentiment <= cfg.sellThreshold then SellBranch(st, e.ticker, currentPrice)
          else if e.sentiment >= cfg.buyThreshold then BuyBranch(st, cfg, e, currentPrice)
          else st;
        ForceSweep(traded, prices, e.timestamp, cfg.holdDurationSecs)
  }

  /** The whole event loop: the events in the order given. */
  function Run(cfg: Strategy, pd: PriceData, st: SimState, events: seq<NewsEntry>): (r: SimState)
    requires ValidPriceData(pd) && ValidBook(st.book)
    ensures ValidBook(r.book)
    decreases |events|
  {
    if events == [] then st else Run(cfg, pd, Step(cfg, pd, st, events[0]), events[1..])
  }

  // ---------------------------------------------------------------------------------------
  // Properties of one event.

  /** An event below the similarity threshold changes nothing, forced sells included. */
  lemma GateSkips(cfg: Strategy, pd: PriceData, st: SimState, e: NewsEntry)
    requires ValidPriceData(pd) && ValidBook(st.book)
    requires e.similarity < cfg.similarityThreshold
    ensures Step(cfg, pd, st, e) == st
  {
  }

  /** An event with no price record at or after its time changes nothing, forced sells included. */
  lemma NoPriceSkips(cfg: Strategy, pd: PriceData, st: SimState, e: NewsEntry)
    requires ValidPriceData(pd) && ValidBook(st.book)
    requires forall i :: 0 <= i < |Series(pd, e.ticker)| ==> Series(pd, e.ticker)[i].timestamp < e.timestamp
    ensures Step(cfg, pd, st, e) == st
  {
    FirstAtOrAfterUnique(Series(pd, e.ticker), e.timestamp, |Series(pd, e.ticker)|);
  }

  /**
   * The sell branch empties the ticker's deque, oldest lot first, credits price times the
   * quantity held, records one P&L per lot in the list its sign selects, and leaves the
   * trade count and every other deque alone.
   */
  lemma SellBranchEffect(st: SimState, ticker: string, price: real)
    requires ValidBook(st.book)
    ensures var r := SellBranch(st, ticker, price);
      var lots := QueueOf(st.book, ticker);
      && QueueOf(r.book, ticker) == []
      && (forall t :: t != ticker ==> QueueOf(r.book, t) == QueueOf(st.book, t))
      && r.account.balance == st.account.balance + price * TotalQuantity(lots)
      && r.account.totalTrades == st.account.totalTrades
      && r.account.winTrades == st.account.winTrades + Positives(PnlsAt(lots, price))
      && r.account.lossTrades == st.account.lossTrades + NonPositives(PnlsAt(lots, price))
      && r.account.profitableTrades == st.account.profitableTrades + |Positives(PnlsAt(lots, price))|
  {
    SellAllEffect(st.account, QueueOf(st.book, ticker), price);
  }

  /**
   * The buy branch debits balance * investPercent, appends exactly one lot
   * {qty = toInvest / price, buyPrice = price, buyTime = event time} at the back of the
   * ticker's deque, counts one trade, and leaves the lists and every other deque alone.
   */
  lemma BuyBranchEffect(st: SimState, cfg: Strategy, e: NewsEntry, price: real)
    requires ValidBook(st.book) && price != 0.0
    ensures var r := BuyBranch(st, cfg, e, price);
      var toInvest := st.account.balance * cfg.investPercent;
      && r.account.balance == st.account.balance - toInvest
      && QueueOf(r.book, e.ticker)
         == QueueOf(st.book, e.ticker) + [InvestmentNode(e.ticker, toInvest / price, price, e.timestamp)]
      && (forall t :: t != e.ticker ==> QueueOf(r.book, t) == QueueOf(st.book, t))
      && r.account.totalTrades == st.account.totalTrades + 1
      && r.account.profitableTrades == st.account.profitableTrades
      && r.account.winTrades == st.account.winTrades
      && r.account.lossTrades == st.account.lossTrades
  {
  }

  /**
   * The forced-sell pass reduces every deque of the map, whatever its ticker, to what a forced
   * sell priced in `prices` (the current event's series) leaves of it, and counts no trade.
   * It credits the proceeds of every deque's closed lots and records their P&Ls by sign,
   * deque by deque in key order.
   */
  lemma ForceSweepEffect(st: SimState, prices: seq<PriceEntry>, now: int, hold: int)
    requires ValidBook(st.book)
    ensures var r := ForceSweep(st, prices, now, hold);
      var pnls := PassPnls(st.book.queues, st.book.tickers, prices, now, hold);
      && r.book.tickers == st.book.tickers
      && r.book.queues.Keys == st.book.queues.Keys
      && (forall t :: t in st.book.queues ==>
            r.book.queues[t] == Remaining(st.book.queues[t], prices, now, hold))
      && r.account.balance == st.account.balance + PassProceeds(st.book.queues, st.book.tickers, prices, now, hold)
      && r.account.winTrades == st.account.winTrades + Positives(pnls)
      && r.account.lossTrades == st.account.lossTrades + NonPositives(pnls)
      && r.account.totalTrades == st.account.totalTrades
      && (Tallied(st.account) ==> Tallied(r.account))
  {
    var b := st.book;
    ForceSellAllEffect(st.account, b.queues, b.tickers, prices, now, hold);
    SortedDistinct(b.tickers);
    ForceSellAllBalance(st.account, b.queues, b.tickers, prices, now, hold);
    ForceSellAllWins(st.account, b.queues, b.tickers, prices, now, hold);
    ForceSellAllLosses(st.account, b.queues, b.tickers, prices, now, hold);
  }

  /** True when event `e` passes the gate, finds a price and takes the buy branch. */
  predicate Buys(cfg: Strategy, pd: PriceData, e: NewsEntry)
  {
    && e.similarity >= cfg.similarityThreshold
    && PriceAtOrAfter(Series(pd, e.ticker), e.timestamp).Some?
    && !(e.sentiment <= cfg.sellThreshold)
    && e.sentiment >= cfg.buyThreshold
  }

  /**
   * `totalTrades` counts buys and nothing else. In particular an event that meets both the
   * sell and the buy condition sells: sell is tested first.
   */
  lemma StepCountsBuys(cfg: Strategy, pd: PriceData, st: SimState, e: NewsEntry)
    requires ValidPriceData(pd) && ValidBook(st.book)
    ensures Step(cfg, pd, st, e).account.totalTrades
         == st.account.totalTrades + (if Buys(cfg, pd, e) then 1 else 0)
  {
    if e.similarity >= cfg.similarityThreshold {
      var prices := Series(pd, e.ticker);
      match PriceAtOrAfter(prices, e.timestamp)
      case None =>
      case Some(p) =>
        ResolvedPricePositive(prices, e.timestamp);
        var traded :=
          if e.sentiment <= cfg.sellThreshold then SellBranch(st, e.ticker, p)
          else if e.sentiment >= cfg.buyThreshold then BuyBranch(st, cfg, e, p)
          else st;
        if e.sentiment <= cfg.sellThreshold {
          SellBranchEffect(st, e.ticker, p);
        }
        ForceSweepEffect(traded, prices, e.timestamp, cfg.holdDurationSecs);
    }
  }

  /** An event that meets both conditions opens no lot and closes the whole deque. */
  lemma SellWinsOverBuy(cfg: Strategy, pd: PriceData, st: SimState, e: NewsEntry)
    requires ValidPriceData(pd) && ValidBook(st.book)
    requires e.similarity >= cfg.similarityThreshold
    requires PriceAtOrAfter(Series(pd, e.ticker), e.timestamp).Some?
    requires e.sentiment <= cfg.sellThreshold && e.sentiment >= cfg.buyThreshold
    ensures Step(cfg, pd, st, e).account.totalTrades == st.account.totalTrades
    ensures var prices := Series(pd, e.ticker);
      var p := PriceAtOrAfter(prices, e.timestamp).value;
      Step(cfg, pd, st, e) == ForceSweep(SellBranch(st, e.ticker, p), prices, e.timestamp, cfg.holdDurationSecs)
  {
    StepCountsBuys(cfg, pd, st, e);
  }

  /** Every event keeps the tally invariant (profitableTrades == |winTrades|, signs of the lists). */
  lemma StepTallied(cfg: Strategy, pd: PriceData, st: SimState, e: NewsEntry)
    requires ValidPriceData(pd) && ValidBook(st.book)
    requires Tallied(st.account)
    ensures Tallied(Step(cfg, pd, st, e).account)
  {
    if e.similarity >= cfg.similarityThreshold {
      var prices := Series(pd, e.ticker);
      match PriceAtOrAfter(prices, e.timestamp)
      case None =>
      case Some(p) =>
        ResolvedPricePositive(prices, e.timestamp);
        var traded :=
          if e.sentiment <= cfg.sellThreshold then SellBranch(st, e.ticker, p)
          else if e.sentiment >= cfg.buyThreshold then BuyBranch(st, cfg, e, p)
          else st;
        SellAllEffect(st.account, QueueOf(st.book, e.ticker), p);
        ForceSweepEffect(traded, prices, e.timestamp, cfg.holdDurationSecs);
    }
  }

  // ---------------------------------------------------------------------------------------
  // Properties of whole runs.

  /**
   * After any run from a fresh account: profitableTrades == |winTrades|, every win is
   * positive and every loss is not.
   */
  lemma {:induction false} RunTallied(cfg: Strategy, pd: PriceData, st: SimState, events: seq<NewsEntry>)
    requires ValidPriceData(pd) && ValidBook(st.book)
    requires Tallied(st.account)
    ensures Tallied(Run(cfg, pd, st, events).account)
    decreases |events|
  {
    if events != [] {
      StepTallied(cfg, pd, st, events[0]);
      RunTallied(cfg, pd, Step(cfg, pd, st, events[0]), events[1..]);
    }
  }

  lemma StartTallied(book: Book)
    ensures Tallied(Start(book).account)
  {
  }

  /** Over a whole run, totalTrades counts exactly the events that buy. */
  function CountBuys(cfg: Strategy, pd: PriceData, events: seq<NewsEntry>): nat
  {
    if events == [] then 0 else (if Buys(cfg, pd, events[0]) then 1 else 0) + CountBuys(cfg, pd, events[1..])
  }

  lemma {:induction false} RunCountsBuys(cfg: Strategy, pd: PriceData, st: SimState, events: seq<NewsEntry>)
    requires ValidPriceData(pd) && ValidBook(st.book)
    ensures Run(cfg, pd, st, events).account.totalTrades == st.account.totalTrades + CountBuys(cfg, pd, events)
    decreases |events|
  {
    if events != [] {
      StepCountsBuys(cfg, pd, st, events[0]);
      RunCountsBuys(cfg, pd, Step(cfg, pd, st, events[0]), events[1..]);
    }
  }

  /** Events below the similarity threshold can be dropped from the stream without effect. */
  function Passing(cfg: Strategy, events: seq<NewsEntry>): seq<NewsEntry>
  {
    if events == [] then []
    else (if events[0].similarity < cfg.similarityThreshold then [] else [events[0]]) + Passing(cfg, events[1..])
  }

  lemma {:induction false} RunIgnoresGatedEvents(cfg: Strategy, pd: PriceData, st: SimState, events: seq<NewsEntry>)
    requires ValidPriceData(pd) && ValidBook(st.book)
    ensures Run(cfg, pd, st, events) == Run(cfg, pd, st, Passing(cfg, events))
    decreases |events|
  {
    if events != [] {
      var e := events[0];
      RunIgnoresGatedEvents(cfg, pd, Step(cfg, pd, st, e), events[1..]);
      if e.similarity >= cfg.similarityThreshold {
        var p := [e] + Passing(cfg, events[1..]);
        assert p[0] == e && p[1..] == Passing(cfg, events[1..]);
      } else {
        assert Passing(cfg, events) == Passing(cfg, events[1..]);
      }
    }
  }

  /** The sell branch closes the deque's lots; the buy branch opens one lot and counts it. */
  lemma TradeConservesLots(cfg: Strategy, st: SimState, e: NewsEntry, p: real)
    requires ValidBook(st.book) && p != 0.0
    ensures var traded :=
        if e.sentiment <= cfg.sellThreshold then SellBranch(st, e.ticker, p)
        else if e.sentiment >= cfg.buyThreshold then BuyBranch(st, cfg, e, p)
        else st;
      Closed(traded.account) + OpenLots(traded.book) + st.account.totalTrades
      == Closed(st.account) + OpenLots(st.book) + traded.account.totalTrades
  {
    if e.sentiment <= cfg.sellThreshold {
      SellAllEffect(st.account, QueueOf(st.book, e.ticker), p);
      SetQueueLots(st.book, e.ticker, []);
    } else if e.sentiment >= cfg.buyThreshold {
      SetQueueLots(st.book, e.ticker, QueueOf(st.book, e.ticker) + [NewLot(st, cfg, e, p)]);
    }
  }

  /** The forced-sell pass moves lots from open to closed and counts no trade. */
  lemma SweepConservesLots(st: SimState, prices: seq<PriceEntry>, now: int, hold: int)
    requires ValidBook(st.book)
    ensures var r := ForceSweep(st, prices, now, hold);
      Closed(r.account) + OpenLots(r.book) == Closed(st.account) + OpenLots(st.book)
      && r.account.totalTrades == st.account.totalTrades
  {
    SortedDistinct(st.book.tickers);
    ForceSellAllLots(st.account, st.book.queues, st.book.tickers, prices, now, hold);
    ForceSweepEffect(st, prices, now, hold);
  }

  /** An event changes (closed lots + open lots) by exactly the trades it counts. */
  lemma StepConservesLots(cfg: Strategy, pd: PriceData, st: SimState, e: NewsEntry)
    requires ValidPriceData(pd) && ValidBook(st.book)
    ensures var r := Step(cfg, pd, st, e);
      Closed(r.account) + OpenLots(r.book) + st.account.totalTrades
      == Closed(st.account) + OpenLots(st.book) + r.account.totalTrades
  {
    if e.similarity >= cfg.similarityThreshold {
      var prices := Series(pd, e.ticker);
      match PriceAtOrAfter(prices, e.timestamp)
      case None =>
      case Some(p) =>
        ResolvedPricePositive(prices, e.timestamp);
        var traded :=
          if e.sentiment <= cfg.sellThreshold then SellBranch(st, e.ticker, p)
          else if e.sentiment >= cfg.buyThreshold then BuyBranch(st, cfg, e, p)
          else st;
        TradeConservesLots(cfg, st, e, p);
        SweepConservesLots(traded, prices, e.timestamp, cfg.holdDurationSecs);
    }
  }

  /**
   * Every lot a run opens is closed exactly once or still open at the end: closed lots plus
   * open lots, less the trades counted, is the same before and after the run.
   */
  lemma {:induction false} RunConservesLots(cfg: Strategy, pd: PriceData, st: SimState, events: seq<NewsEntry>)
    requires ValidPriceData(pd) && ValidBook(st.book)
    ensures var r := Run(cfg, pd, st, events);
      Closed(r.account) + OpenLots(r.book) + st.account.totalTrades
      == Closed(st.account) + OpenLots(st.book) + r.account.totalTrades
    decreases |events|
  {
    if events != [] {
      StepConservesLots(cfg, pd, st, events[0]);
      RunConservesLots(cfg, pd, Step(cfg, pd, st, events[0]), events[1..]);
    }
  }

  /** From a cleared map and a fresh account, every bought lot is open or was closed once. */
  lemma FreshRunAccountsForEveryLot(cfg: Strategy, pd: PriceData, events: seq<NewsEntry>)
    requires ValidPriceData(pd)
    ensures var r := Run(cfg, pd, Start(EmptyBook()), events);
      Closed(r.account) + OpenLots(r.book) == r.account.totalTrades
  {
    RunConservesLots(cfg, pd, Start(EmptyBook()), events);
  }
}
