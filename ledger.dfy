/**
 * The bookkeeping of the simulator (simulation/simulate_investment.cpp): open lots kept per
 * ticker in FIFO deques (`investmentMap`), the cash balance, the trade counters and the
 * realised win/loss lists, and the two ways lots are closed (the sell-everything branch and the
 * hold-duration forced sell). Everything here is a value; the class in module Simulator
 * performs the same updates in place.
 */
module Ledger {

  import opened Wrappers
  import opened Prices

  /** One open lot: `InvestmentNode` of the simulator. */
  datatype InvestmentNode = InvestmentNode(ticker: string, quantity: real, buyPrice: real, buyTime: int)

  /** Cash balance, `totalTrades`, `profitableTrades`, `winTrades` and `lossTrades` of one run. */
  datatype Account = Account(
    balance: real,
    totalTrades: int,
    profitableTrades: int,
    winTrades: seq<real>,
    lossTrades: seq<real>)

  /** Realised profit or loss of closing `lot` at `price`. */
  function Pnl(lot: InvestmentNode, price: real): real
  {
    lot.quantity * (price - lot.buyPrice)
  }

  /** Closing one lot: route its P&L to the win or the loss list and credit the proceeds. */
  function Close(acc: Account, lot: InvestmentNode, price: real): Account
  {
    var pnl := Pnl(lot, price);
    var acc' := acc.(balance := acc.balance + lot.quantity * price);
    if pnl > 0.0 then
      acc'.(profitableTrades := acc.profitableTrades + 1, winTrades := acc.winTrades + [pnl])
    else
      acc'.(lossTrades := acc.lossTrades + [pnl])
  }

  /** The bookkeeping invariant: one profitable trade per win, wins positive, losses not. */
  ghost predicate Tallied(acc: Account)
  {
    && acc.profitableTrades == |acc.winTrades|
    && (forall i :: 0 <= i < |acc.winTrades| ==> acc.winTrades[i] > 0.0)
    && (forall i :: 0 <= i < |acc.lossTrades| ==> acc.lossTrades[i] <= 0.0)
  }

  /** Number of closed lots recorded in an account. */
  function Closed(acc: Account): nat
  {
    |acc.winTrades| + |acc.lossTrades|
  }

  // ---------------------------------------------------------------------------------------
  // Independent reference for the win/loss lists: the positive and the non-positive P&Ls
  // in the order the lots were closed.

  function Positives(s: seq<real>): seq<real>
  {
    if s == [] then [] else (if s[0] > 0.0 then [s[0]] else []) + Positives(s[1..])
  }

  function NonPositives(s: seq<real>): seq<real>
  {
    if s == [] then [] else (if s[0] > 0.0 then [] else [s[0]]) + NonPositives(s[1..])
  }

  /** The P&Ls of closing every lot of `lots` at the same price. */
  function PnlsAt(lots: seq<InvestmentNode>, price: real): (r: seq<real>)
    ensures |r| == |lots|
    ensures forall i :: 0 <= i < |lots| ==> r[i] == Pnl(lots[i], price)
  {
    if lots == [] then [] else [Pnl(lots[0], price)] + PnlsAt(lots[1..], price)
  }

  function TotalQuantity(lots: seq<InvestmentNode>): real
  {
    if lots == [] then 0.0 else lots[0].quantity + TotalQuantity(lots[1..])
  }

  lemma PositivesSplit(a: seq<real>, b: seq<real>)
    ensures Positives(a + b) == Positives(a) + Positives(b)
    ensures NonPositives(a + b) == NonPositives(a) + NonPositives(b)
  {
    PositivesAppend(a, b);
    NonPositivesAppend(a, b);
  }

  lemma {:induction false} PositivesAppend(a: seq<real>, b: seq<real>)
    ensures Positives(a + b) == Positives(a) + Positives(b)
    decreases |a|
  {
    if a == [] {
      assert a + b == b;
    } else {
      var head := if a[0] > 0.0 then [a[0]] else [];
      assert (a + b)[0] == a[0] && (a + b)[1..] == a[1..] + b;
      assert Positives(a + b) == head + Positives(a[1..] + b);
      PositivesAppend(a[1..], b);
      AppendAssoc(head, Positives(a[1..]), Positives(b));
    }
  }

  lemma {:induction false} NonPositivesAppend(a: seq<real>, b: seq<real>)
    ensures NonPositives(a + b) == NonPositives(a) + NonPositives(b)
    decreases |a|
  {
    if a == [] {
      assert a + b == b;
    } else {
      var head := if a[0] > 0.0 then [] else [a[0]];
      assert (a + b)[0] == a[0] && (a + b)[1..] == a[1..] + b;
      assert NonPositives(a + b) == head + NonPositives(a[1..] + b);
      NonPositivesAppend(a[1..], b);
      AppendAssoc(head, NonPositives(a[1..]), NonPositives(b));
    }
  }

  // ---------------------------------------------------------------------------------------
  // The sell branch (lines 87-105): every lot of the ticker, oldest first, at one price.

  function SellAll(acc: Account, lots: seq<InvestmentNode>, price: real): Account
    decreases |lots|
  {
    if lots == [] then acc else SellAll(Close(acc, lots[0], price), lots[1..], price)
  }

  /**
   * Selling all lots credits `price` times their total quantity, records exactly one P&L per
   * lot and puts each in the list its sign selects, in the lots' insertion order.
   */
  lemma {:induction false} SellAllEffect(acc: Account, lots: seq<InvestmentNode>, price: real)
    ensures SellAll(acc, lots, price).balance == acc.balance + price * TotalQuantity(lots)
    ensures SellAll(acc, lots, price).totalTrades == acc.totalTrades
    ensures SellAll(acc, lots, price).winTrades == acc.winTrades + Positives(PnlsAt(lots, price))
    ensures SellAll(acc, lots, price).lossTrades == acc.lossTrades + NonPositives(PnlsAt(lots, price))
    ensures SellAll(acc, lots, price).profitableTrades
         == acc.profitableTrades + |Positives(PnlsAt(lots, price))|
    ensures Closed(SellAll(acc, lots, price)) == Closed(acc) + |lots|
    ensures Tallied(acc) ==> Tallied(SellAll(acc, lots, price))
    decreases |lots|
  {
    SellAllBalance(acc, lots, price);
    SellAllLists(acc, lots, price);
    SellAllCounts(acc, lots, price);
    SellAllTallied(acc, lots, price);
  }

  lemma {:induction false} SellAllBalance(acc: Account, lots: seq<InvestmentNode>, price: real)
    ensures SellAll(acc, lots, price).balance == acc.balance + price * TotalQuantity(lots)
    ensures SellAll(acc, lots, price).totalTrades == acc.totalTrades
    decreases |lots|
  {
    if lots != [] {
      var acc1 := Close(acc, lots[0], price);
      SellAllBalance(acc1, lots[1..], price);
      var q, rest := lots[0].quantity, TotalQuantity(lots[1..]);
      assert price * (q + rest) == q * price + price * rest;
    }
  }

  lemma SellAllLists(acc: Account, lots: seq<InvestmentNode>, price: real)
    ensures SellAll(acc, lots, price).winTrades == acc.winTrades + Positives(PnlsAt(lots, price))
    ensures SellAll(acc, lots, price).lossTrades == acc.lossTrades + NonPositives(PnlsAt(lots, price))
  {
    SellAllWins(acc, lots, price);
    SellAllLosses(acc, lots, price);
  }

  lemma {:induction false} SellAllWins(acc: Account, lots: seq<InvestmentNode>, price: real)
    ensures SellAll(acc, lots, price).winTrades == acc.winTrades + Positives(PnlsAt(lots, price))
    decreases |lots|
  {
    if lots != [] {
      var pnl := [Pnl(lots[0], price)];
      var later := PnlsAt(lots[1..], price);
      SellAllWins(Close(acc, lots[0], price), lots[1..], price);
      assert PnlsAt(lots, price) == pnl + later;
      PositivesAppend(pnl, later);
      CloseLists(acc, lots[0], price);
      AppendAssoc(acc.winTrades, Positives(pnl), Positives(later));
    }
  }

  lemma {:induction false} SellAllLosses(acc: Account, lots: seq<InvestmentNode>, price: real)
    ensures SellAll(acc, lots, price).lossTrades == acc.lossTrades + NonPositives(PnlsAt(lots, price))
    decreases |lots|
  {
    if lots != [] {
      var pnl := [Pnl(lots[0], price)];
      var later := PnlsAt(lots[1..], price);
      SellAllLosses(Close(acc, lots[0], price), lots[1..], price);
      assert PnlsAt(lots, price) == pnl + later;
      NonPositivesAppend(pnl, later);
      CloseLists(acc, lots[0], price);
      AppendAssoc(acc.lossTrades, NonPositives(pnl), NonPositives(later));
    }
  }

  lemma {:induction false} SellAllCounts(acc: Account, lots: seq<InvestmentNode>, price: real)
    ensures SellAll(acc, lots, price).profitableTrades
         == acc.profitableTrades + |Positives(PnlsAt(lots, price))|
    ensures Closed(SellAll(acc, lots, price)) == Closed(acc) + |lots|
    decreases |lots|
  {
    if lots != [] {
      var pnl := [Pnl(lots[0], price)];
      var later := PnlsAt(lots[1..], price);
      SellAllCounts(Close(acc, lots[0], price), lots[1..], price);
      assert PnlsAt(lots, price) == pnl + later;
      PositivesSplit(pnl, later);
      assert pnl[1..] == [];
    }
  }

  lemma {:induction false} SellAllTallied(acc: Account, lots: seq<InvestmentNode>, price: real)
    ensures Tallied(acc) ==> Tallied(SellAll(acc, lots, price))
    decreases |lots|
  {
    if lots != [] {
      SellAllTallied(Close(acc, lots[0], price), lots[1..], price);
    }
  }

  // ---------------------------------------------------------------------------------------
  // The forced sell of one deque (lines 122-145): pop while the oldest lot is old enough,
  // each priced at the first record at or after buyTime + hold in `prices`, and stop at the
  // first lookup that finds nothing.

  /** True when the deque's front lot is due for a forced sell at `now`. */
  predicate Due(lots: seq<InvestmentNode>, now: int, hold: int)
  {
    lots != [] && now - lots[0].buyTime >= hold
  }

  function ForceSellQueue(acc: Account, lots: seq<InvestmentNode>, prices: seq<PriceEntry>,
                          now: int, hold: int): (Account, seq<InvestmentNode>)
    decreases |lots|
  {
    if !Due(lots, now, hold) then (acc, lots)
    else match PriceAtOrAfter(prices, lots[0].buyTime + hold)
      case None => (acc, lots)
      case Some(p) => ForceSellQueue(Close(acc, lots[0], p), lots[1..], prices, now, hold)
  }

  /** How many lots from the front of `lots` a forced sell at `now` closes. */
  function ForcedCount(lots: seq<InvestmentNode>, prices: seq<PriceEntry>, now: int, hold: int): (n: nat)
    ensures n <= |lots|
    decreases |lots|
  {
    if !Due(lots, now, hold) then 0
    else match PriceAtOrAfter(prices, lots[0].buyTime + hold)
      case None => 0
      case Some(_) => 1 + ForcedCount(lots[1..], prices, now, hold)
  }

  /** The P&Ls a forced sell of `lots` at `now` realises, in closing order. */
  function ForcedPnls(lots: seq<InvestmentNode>, prices: seq<PriceEntry>, now: int, hold: int): seq<real>
    decreases |lots|
  {
    if !Due(lots, now, hold) then []
    else match PriceAtOrAfter(prices, lots[0].buyTime + hold)
      case None => []
      case Some(p) => [Pnl(lots[0], p)] + ForcedPnls(lots[1..], prices, now, hold)
  }

  /**
   * The forced sell closes a prefix of the deque, oldest first: every closed lot was due and
   * had a price at buyTime + hold in `prices`, the deque keeps the rest, and the sweep stopped
   * because the deque ran out, its front lot is too young, or that lot's lookup failed.
   */
  lemma ForceSellQueueShape(acc: Account, lots: seq<InvestmentNode>,
                             prices: seq<PriceEntry>, now: int, hold: int)
    ensures var n := ForcedCount(lots, prices, now, hold);
      && ForceSellQueue(acc, lots, prices, now, hold).1 == lots[n..]
      && (forall i :: 0 <= i < n ==> now - lots[i].buyTime >= hold)
      && (forall i :: 0 <= i < n ==> PriceAtOrAfter(prices, lots[i].buyTime + hold).Some?)
      && (!Due(lots[n..], now, hold) || PriceAtOrAfter(prices, lots[n].buyTime + hold).None?)
  {
    ForceSellQueueRest(acc, lots, prices, now, hold);
    ForcedLotsDue(lots, prices, now, hold);
  }

  /** The deque keeps what follows the closed prefix, and the sweep stopped for a reason. */
  lemma {:induction false} ForceSellQueueRest(acc: Account, lots: seq<InvestmentNode>,
                                              prices: seq<PriceEntry>, now: int, hold: int)
    ensures var n := ForcedCount(lots, prices, now, hold);
      && ForceSellQueue(acc, lots, prices, now, hold).1 == lots[n..]
      && (!Due(lots[n..], now, hold) || PriceAtOrAfter(prices, lots[n].buyTime + hold).None?)
    decreases |lots|
  {
    if Due(lots, now, hold) {
      match PriceAtOrAfter(prices, lots[0].buyTime + hold)
      case None =>
      case Some(p) =>
        ForceSellQueueRest(Close(acc, lots[0], p), lots[1..], prices, now, hold);
        var n := ForcedCount(lots, prices, now, hold);
        assert lots[1..][n - 1..] == lots[n..];
    }
  }

  /** Every closed lot was due and had a price at its buyTime + hold. */
  lemma {:induction false} ForcedLotsDue(lots: seq<InvestmentNode>, prices: seq<PriceEntry>, now: int, hold: int)
    ensures var n := ForcedCount(lots, prices, now, hold);
      && (forall i :: 0 <= i < n ==> now - lots[i].buyTime >= hold)
      && (forall i :: 0 <= i < n ==> PriceAtOrAfter(prices, lots[i].buyTime + hold).Some?)
    decreases |lots|
  {
    if Due(lots, now, hold) {
      match PriceAtOrAfter(prices, lots[0].buyTime + hold)
      case None =>
      case Some(p) =>
        ForcedLotsDue(lots[1..], prices, now, hold);
        var n := ForcedCount(lots, prices, now, hold);
        forall i | 0 < i < n
          ensures now - lots[i].buyTime >= hold
          ensures PriceAtOrAfter(prices, lots[i].buyTime + hold).Some?
        {
          assert lots[i] == lots[1..][i - 1];
        }
    }
  }

  /**
   * What the forced sell records: its P&Ls, each in the list its sign selects, in closing
   * order; the i-th P&L is that of the i-th lot priced at its own buyTime + hold.
   */
  lemma ForceSellQueueLists(acc: Account, lots: seq<InvestmentNode>,
                             prices: seq<PriceEntry>, now: int, hold: int)
    ensures var acc' := ForceSellQueue(acc, lots, prices, now, hold).0;
      && acc'.winTrades == acc.winTrades + Positives(ForcedPnls(lots, prices, now, hold))
      && acc'.lossTrades == acc.lossTrades + NonPositives(ForcedPnls(lots, prices, now, hold))
  {
    ForceSellQueueWins(acc, lots, prices, now, hold);
    ForceSellQueueLosses(acc, lots, prices, now, hold);
  }

  lemma {:induction false} ForceSellQueueWins(acc: Account, lots: seq<InvestmentNode>,
                                              prices: seq<PriceEntry>, now: int, hold: int)
    ensures ForceSellQueue(acc, lots, prices, now, hold).0.winTrades
         == acc.winTrades + Positives(ForcedPnls(lots, prices, now, hold))
    decreases |lots|
  {
    if Due(lots, now, hold) {
      match PriceAtOrAfter(prices, lots[0].buyTime + hold)
      case None =>
      case Some(p) =>
        var pnl := [Pnl(lots[0], p)];
        var later := ForcedPnls(lots[1..], prices, now, hold);
        ForceSellQueueWins(Close(acc, lots[0], p), lots[1..], prices, now, hold);
        PositivesAppend(pnl, later);
        CloseLists(acc, lots[0], p);
        AppendAssoc(acc.winTrades, Positives(pnl), Positives(later));
    }
  }

  lemma {:induction false} ForceSellQueueLosses(acc: Account, lots: seq<InvestmentNode>,
                                                prices: seq<PriceEntry>, now: int, hold: int)
    ensures ForceSellQueue(acc, lots, prices, now, hold).0.lossTrades
         == acc.lossTrades + NonPositives(ForcedPnls(lots, prices, now, hold))
    decreases |lots|
  {
    if Due(lots, now, hold) {
      match PriceAtOrAfter(prices, lots[0].buyTime + hold)
      case None =>
      case Some(p) =>
        var pnl := [Pnl(lots[0], p)];
        var later := ForcedPnls(lots[1..], prices, now, hold);
        ForceSellQueueLosses(Close(acc, lots[0], p), lots[1..], prices, now, hold);
        NonPositivesAppend(pnl, later);
        CloseLists(acc, lots[0], p);
        AppendAssoc(acc.lossTrades, NonPositives(pnl), NonPositives(later));
    }
  }

  /** The cash a forced sell of `lots` at `now` credits: quantity × sell price per closed lot. */
  function ForcedProceeds(lots: seq<InvestmentNode>, prices: seq<PriceEntry>, now: int, hold: int): real
    decreases |lots|
  {
    if !Due(lots, now, hold) then 0.0
    else match PriceAtOrAfter(prices, lots[0].buyTime + hold)
      case None => 0.0
      case Some(p) => lots[0].quantity * p + ForcedProceeds(lots[1..], prices, now, hold)
  }

  /**
   * What the lots would fetch, each sold at the price found for its own buyTime + hold
   * (nothing for a lot without one).
   */
  function ProceedsAtHold(lots: seq<InvestmentNode>, prices: seq<PriceEntry>, hold: int): real
    decreases |lots|
  {
    if lots == [] then 0.0
    else
      var p := PriceAtOrAfter(prices, lots[0].buyTime + hold);
      (if p.Some? then lots[0].quantity * p.value else 0.0) + ProceedsAtHold(lots[1..], prices, hold)
  }

  /** Line 143: the forced sell credits exactly the proceeds of the lots it closes. */
  lemma {:induction false} ForceSellQueueBalance(acc: Account, lots: seq<InvestmentNode>,
                                                 prices: seq<PriceEntry>, now: int, hold: int)
    ensures ForceSellQueue(acc, lots, prices, now, hold).0.balance
         == acc.balance + ForcedProceeds(lots, prices, now, hold)
    decreases |lots|
  {
    if Due(lots, now, hold) {
      match PriceAtOrAfter(prices, lots[0].buyTime + hold)
      case None =>
      case Some(p) =>
        ForceSellQueueBalance(Close(acc, lots[0], p), lots[1..], prices, now, hold);
    }
  }

  /** The forced proceeds are those of the ForcedCount oldest lots, each at buyTime + hold. */
  lemma {:induction false} ForcedProceedsPrefix(lots: seq<InvestmentNode>, prices: seq<PriceEntry>,
                                                now: int, hold: int)
    ensures ForcedProceeds(lots, prices, now, hold)
         == ProceedsAtHold(lots[..ForcedCount(lots, prices, now, hold)], prices, hold)
    decreases |lots|
  {
    var n := ForcedCount(lots, prices, now, hold);
    if n == 0 {
      assert lots[..n] == [];
    } else {
      ForcedProceedsPrefix(lots[1..], prices, now, hold);
      assert lots[..n][0] == lots[0] && lots[..n][1..] == lots[1..][..n - 1];
    }
  }

  /** The forced P&Ls are those of the ForcedCount oldest lots, each at buyTime + hold. */
  lemma ForcedPnlsAt(lots: seq<InvestmentNode>, prices: seq<PriceEntry>, now: int, hold: int)
    ensures |ForcedPnls(lots, prices, now, hold)| == ForcedCount(lots, prices, now, hold)
    ensures forall i :: 0 <= i < ForcedCount(lots, prices, now, hold) ==>
      && PriceAtOrAfter(prices, lots[i].buyTime + hold).Some?
      && ForcedPnls(lots, prices, now, hold)[i] == Pnl(lots[i], PriceAtOrAfter(prices, lots[i].buyTime + hold).value)
  {
    ForcedPnlsCount(lots, prices, now, hold);
    ForcedPnlsElems(lots, prices, now, hold);
  }

  lemma {:induction false} ForcedPnlsCount(lots: seq<InvestmentNode>, prices: seq<PriceEntry>, now: int, hold: int)
    ensures |ForcedPnls(lots, prices, now, hold)| == ForcedCount(lots, prices, now, hold)
    decreases |lots|
  {
    if Due(lots, now, hold) && PriceAtOrAfter(prices, lots[0].buyTime + hold).Some? {
      ForcedPnlsCount(lots[1..], prices, now, hold);
    }
  }

  lemma {:induction false} ForcedPnlsElems(lots: seq<InvestmentNode>, prices: seq<PriceEntry>, now: int, hold: int)
    ensures forall i :: 0 <= i < |ForcedPnls(lots, prices, now, hold)| ==>
      && i < |lots|
      && PriceAtOrAfter(prices, lots[i].buyTime + hold).Some?
      && ForcedPnls(lots, prices, now, hold)[i] == Pnl(lots[i], PriceAtOrAfter(prices, lots[i].buyTime + hold).value)
    decreases |lots|
  {
    if Due(lots, now, hold) {
      match PriceAtOrAfter(prices, lots[0].buyTime + hold)
      case None =>
      case Some(p) =>
        ForcedPnlsElems(lots[1..], prices, now, hold);
        var later := ForcedPnls(lots[1..], prices, now, hold);
        var all := ForcedPnls(lots, prices, now, hold);
        assert all == [Pnl(lots[0], p)] + later;
        assert all[0] == Pnl(lots[0], PriceAtOrAfter(prices, lots[0].buyTime + hold).value);
        forall i | 0 < i < |all|
          ensures i < |lots|
          ensures PriceAtOrAfter(prices, lots[i].buyTime + hold).Some?
          ensures all[i] == Pnl(lots[i], PriceAtOrAfter(prices, lots[i].buyTime + hold).value)
        {
          assert all[i] == later[i - 1];
          assert i - 1 < |lots[1..]|;
          assert lots[i] == lots[1..][i - 1];
        }
    }
  }

  /** Closing one lot appends its P&L to the list its sign selects. */
  lemma CloseLists(acc: Account, lot: InvestmentNode, price: real)
    ensures Close(acc, lot, price).winTrades == acc.winTrades + Positives([Pnl(lot, price)])
    ensures Close(acc, lot, price).lossTrades == acc.lossTrades + NonPositives([Pnl(lot, price)])
  {
    assert [Pnl(lot, price)][1..] == [];
  }

  /** The forced sell counts no trade, closes ForcedCount lots and keeps the tally invariant. */
  lemma {:induction false} ForceSellQueueTally(acc: Account, lots: seq<InvestmentNode>,
                                               prices: seq<PriceEntry>, now: int, hold: int)
    ensures var acc' := ForceSellQueue(acc, lots, prices, now, hold).0;
      && acc'.totalTrades == acc.totalTrades
      && Closed(acc') == Closed(acc) + ForcedCount(lots, prices, now, hold)
      && (Tallied(acc) ==> Tallied(acc'))
    decreases |lots|
  {
    if Due(lots, now, hold) {
      match PriceAtOrAfter(prices, lots[0].buyTime + hold)
      case None =>
      case Some(p) =>
        ForceSellQueueTally(Close(acc, lots[0], p), lots[1..], prices, now, hold);
    }
  }

  /** What the forced sell leaves in a deque does not depend on the account it credits. */
  lemma {:induction false} ForceSellRestIndependent(a1: Account, a2: Account, lots: seq<InvestmentNode>,
                                                    prices: seq<PriceEntry>, now: int, hold: int)
    ensures ForceSellQueue(a1, lots, prices, now, hold).1 == ForceSellQueue(a2, lots, prices, now, hold).1
    decreases |lots|
  {
    if Due(lots, now, hold) {
      match PriceAtOrAfter(prices, lots[0].buyTime + hold)
      case None =>
      case Some(p) =>
        ForceSellRestIndependent(Close(a1, lots[0], p), Close(a2, lots[0], p), lots[1..], prices, now, hold);
    }
  }

  // ---------------------------------------------------------------------------------------
  // `investmentMap`: a std::map, so its deques are visited in ascending key order.

  /** std::string's `<`: lexicographic on characters. */
  predicate Less(a: string, b: string)
  {
    if a == [] then b != []
    else if b == [] then false
    else if a[0] != b[0] then a[0] < b[0]
    else Less(a[1..], b[1..])
  }

  lemma {:induction false} LessIrreflexive(a: string)
    ensures !Less(a, a)
  {
    if a != [] {
      LessIrreflexive(a[1..]);
    }
  }

  lemma {:induction false} LessTransitive(a: string, b: string, c: string)
    requires Less(a, b) && Less(b, c)
    ensures Less(a, c)
  {
    if a != [] && a[0] == b[0] && b[0] == c[0] {
      LessTransitive(a[1..], b[1..], c[1..]);
    }
  }

  lemma {:induction false} LessTotal(a: string, b: string)
    requires a != b
    ensures Less(a, b) || Less(b, a)
  {
    if a != [] && b != [] && a[0] == b[0] {
      assert a == [a[0]] + a[1..] && b == [b[0]] + b[1..];
      LessTotal(a[1..], b[1..]);
    }
  }

  ghost predicate StrictlySorted(ts: seq<string>)
  {
    forall i, j :: 0 <= i < j < |ts| ==> Less(ts[i], ts[j])
  }

  /** Adding a key to the ordered key list of the map (a no-op for a key already present). */
  function InsertTicker(ts: seq<string>, k: string): seq<string>
  {
    if ts == [] then [k]
    else if ts[0] == k then ts
    else if Less(k, ts[0]) then [k] + ts
    else [ts[0]] + InsertTicker(ts[1..], k)
  }

  /** Inserting keeps the list strictly ordered and adds exactly `k` to its elements. */
  lemma {:induction false} InsertTickerSorted(ts: seq<string>, k: string)
    requires StrictlySorted(ts)
    ensures StrictlySorted(InsertTicker(ts, k))
    ensures forall x :: x in InsertTicker(ts, k) <==> x in ts || x == k
  {
    if ts == [] {
    } else if ts[0] == k {
    } else if Less(k, ts[0]) {
      var r := [k] + ts;
      forall i, j | 0 <= i < j < |r| ensures Less(r[i], r[j]) {
        if i == 0 && j > 1 {
          LessTransitive(k, ts[0], ts[j - 1]);
        }
      }
    } else {
      LessTotal(k, ts[0]);
      InsertTickerSorted(ts[1..], k);
      var tail := InsertTicker(ts[1..], k);
      var r := [ts[0]] + tail;
      forall i, j | 0 <= i < j < |r| ensures Less(r[i], r[j]) {
        if i == 0 {
          assert r[j] in tail;
          var x := r[j];
          if x != k {
            var m :| 0 <= m < |ts[1..]| && ts[1..][m] == x;
            assert ts[m + 1] == x;
          }
        }
      }
      forall x ensures x in r <==> x in ts || x == k {
        assert ts == [ts[0]] + ts[1..];
      }
    }
  }

  /** `investmentMap` with its keys in iteration order. */
  datatype Book = Book(queues: map<string, seq<InvestmentNode>>, tickers: seq<string>)

  ghost predicate ValidBook(b: Book)
  {
    && (forall t :: t in b.tickers <==> t in b.queues)
    && StrictlySorted(b.tickers)
  }

  /** The cleared map of line 283. */
  function EmptyBook(): (b: Book)
    ensures ValidBook(b)
  {
    Book(map[], [])
  }

  /** The deque `investmentMap[ticker]` reads (an absent key reads as empty). */
  function QueueOf(b: Book, ticker: string): seq<InvestmentNode>
  {
    if ticker in b.queues then b.queues[ticker] else []
  }

  /** `investmentMap[ticker] = q`: operator[] also inserts the key. */
  function SetQueue(b: Book, ticker: string, q: seq<InvestmentNode>): (r: Book)
    requires ValidBook(b)
    ensures ValidBook(r)
    ensures QueueOf(r, ticker) == q
    ensures forall t :: t != ticker ==> QueueOf(r, t) == QueueOf(b, t)
  {
    InsertTickerSorted(b.tickers, ticker);
    Book(b.queues[ticker := q], InsertTicker(b.tickers, ticker))
  }

  // ---------------------------------------------------------------------------------------
  // The forced-sell pass over every deque (lines 119-146), in key order, all priced in the
  // one series `prices`.

  function ForceSellAll(acc: Account, queues: map<string, seq<InvestmentNode>>, ts: seq<string>,
                        prices: seq<PriceEntry>, now: int, hold: int): (r: (Account, map<string, seq<InvestmentNode>>))
    requires forall t :: t in ts ==> t in queues
    ensures r.1.Keys == queues.Keys
    decreases |ts|
  {
    if ts == [] then (acc, queues)
    else
      var (acc', rest) := ForceSellQueue(acc, queues[ts[0]], prices, now, hold);
      ForceSellAll(acc', queues[ts[0] := rest], ts[1..], prices, now, hold)
  }

  /** What one deque keeps after a forced sell (any account; see ForceSellRestIndependent). */
  function Remaining(lots: seq<InvestmentNode>, prices: seq<PriceEntry>, now: int, hold: int): seq<InvestmentNode>
  {
    ForceSellQueue(Account(0.0, 0, 0, [], []), lots, prices, now, hold).1
  }

  /** A second forced sell at the same time leaves a deque as the first one did. */
  lemma {:induction false} RemainingStable(acc: Account, lots: seq<InvestmentNode>, prices: seq<PriceEntry>,
                                           now: int, hold: int)
    ensures var rest := Remaining(lots, prices, now, hold);
      ForceSellQueue(acc, rest, prices, now, hold) == (acc, rest)
  {
    var n := ForcedCount(lots, prices, now, hold);
    ForceSellQueueShape(Account(0.0, 0, 0, [], []), lots, prices, now, hold);
    ForceSellQueueShape(acc, lots[n..], prices, now, hold);
    assert ForcedCount(lots[n..], prices, now, hold) == 0;
  }

  /**
   * The pass touches every listed deque and only those, each as a forced sell of its own
   * lots; lots of other tickers and the key set stay as they were.
   */
  lemma {:induction false} ForceSellAllEffect(acc: Account, queues: map<string, seq<InvestmentNode>>,
                                              ts: seq<string>, prices: seq<PriceEntry>, now: int, hold: int)
    requires forall t :: t in ts ==> t in queues
    ensures var (acc', queues') := ForceSellAll(acc, queues, ts, prices, now, hold);
      && queues'.Keys == queues.Keys
      && (forall t :: t in queues && t in ts ==> queues'[t] == Remaining(queues[t], prices, now, hold))
      && (forall t :: t in queues && t !in ts ==> queues'[t] == queues[t])
      && acc'.totalTrades == acc.totalTrades
      && (Tallied(acc) ==> Tallied(acc'))
    decreases |ts|
  {
    if ts != [] {
      var t0 := ts[0];
      var (acc1, rest) := ForceSellQueue(acc, queues[t0], prices, now, hold);
      ForceSellQueueTally(acc, queues[t0], prices, now, hold);
      ForceSellRestIndependent(acc, Account(0.0, 0, 0, [], []), queues[t0], prices, now, hold);
      var q1 := queues[t0 := rest];
      ForceSellAllEffect(acc1, q1, ts[1..], prices, now, hold);
      var (acc', queues') := ForceSellAll(acc1, q1, ts[1..], prices, now, hold);
      forall t | t in queues && t in ts
        ensures queues'[t] == Remaining(queues[t], prices, now, hold)
      {
        if t == t0 && t !in ts[1..] {
        } else if t == t0 {
          RemainingStable(Account(0.0, 0, 0, [], []), queues[t0], prices, now, hold);
          ForceSellRestIndependent(Account(0.0, 0, 0, [], []), acc, rest, prices, now, hold);
        } else {
          assert t in ts[1..];
        }
      }
    }
  }

  /** The cash the pass would credit, deque by deque in key order, on the deques as they stand. */
  function PassProceeds(queues: map<string, seq<InvestmentNode>>, ts: seq<string>,
                        prices: seq<PriceEntry>, now: int, hold: int): real
    decreases |ts|
  {
    if ts == [] then 0.0
    else (if ts[0] in queues then ForcedProceeds(queues[ts[0]], prices, now, hold) else 0.0)
         + PassProceeds(queues, ts[1..], prices, now, hold)
  }

  /** The P&Ls the pass would realise, deque by deque in key order, each deque oldest first. */
  function PassPnls(queues: map<string, seq<InvestmentNode>>, ts: seq<string>,
                    prices: seq<PriceEntry>, now: int, hold: int): seq<real>
    decreases |ts|
  {
    if ts == [] then []
    else (if ts[0] in queues then ForcedPnls(queues[ts[0]], prices, now, hold) else [])
         + PassPnls(queues, ts[1..], prices, now, hold)
  }

  lemma {:induction false} PassUpdateOutside(q: map<string, seq<InvestmentNode>>, ts: seq<string>,
                                             k: string, v: seq<InvestmentNode>,
                                             prices: seq<PriceEntry>, now: int, hold: int)
    requires k !in ts
    ensures PassProceeds(q[k := v], ts, prices, now, hold) == PassProceeds(q, ts, prices, now, hold)
    ensures PassPnls(q[k := v], ts, prices, now, hold) == PassPnls(q, ts, prices, now, hold)
    decreases |ts|
  {
    if ts != [] {
      PassUpdateOutside(q, ts[1..], k, v, prices, now, hold);
    }
  }

  lemma DistinctTail(ts: seq<string>)
    requires ts != [] && Distinct(ts)
    ensures Distinct(ts[1..]) && ts[0] !in ts[1..]
  {
    forall i | 0 <= i < |ts[1..]| ensures ts[1..][i] != ts[0] {
      assert ts[1..][i] == ts[i + 1];
    }
  }

  /** Over the whole pass, the balance rises by the proceeds of every deque's forced sell. */
  lemma {:induction false} ForceSellAllBalance(acc: Account, queues: map<string, seq<InvestmentNode>>,
                                               ts: seq<string>, prices: seq<PriceEntry>, now: int, hold: int)
    requires forall t :: t in ts ==> t in queues
    requires Distinct(ts)
    ensures ForceSellAll(acc, queues, ts, prices, now, hold).0.balance
         == acc.balance + PassProceeds(queues, ts, prices, now, hold)
    decreases |ts|
  {
    if ts != [] {
      var t0 := ts[0];
      var (acc1, rest) := ForceSellQueue(acc, queues[t0], prices, now, hold);
      ForceSellQueueBalance(acc, queues[t0], prices, now, hold);
      DistinctTail(ts);
      ForceSellAllBalance(acc1, queues[t0 := rest], ts[1..], prices, now, hold);
      PassUpdateOutside(queues, ts[1..], t0, rest, prices, now, hold);
    }
  }

  /** Over the whole pass, the wins gain the positive P&Ls of every deque, in key order. */
  lemma {:induction false} ForceSellAllWins(acc: Account, queues: map<string, seq<InvestmentNode>>,
                                            ts: seq<string>, prices: seq<PriceEntry>, now: int, hold: int)
    requires forall t :: t in ts ==> t in queues
    requires Distinct(ts)
    ensures ForceSellAll(acc, queues, ts, prices, now, hold).0.winTrades
         == acc.winTrades + Positives(PassPnls(queues, ts, prices, now, hold))
    decreases |ts|
  {
    if ts != [] {
      var t0 := ts[0];
      var (acc1, rest) := ForceSellQueue(acc, queues[t0], prices, now, hold);
      var first := ForcedPnls(queues[t0], prices, now, hold);
      var later := PassPnls(queues, ts[1..], prices, now, hold);
      ForceSellQueueWins(acc, queues[t0], prices, now, hold);
      DistinctTail(ts);
      ForceSellAllWins(acc1, queues[t0 := rest], ts[1..], prices, now, hold);
      PassUpdateOutside(queues, ts[1..], t0, rest, prices, now, hold);
      PositivesAppend(first, later);
      AppendAssoc(acc.winTrades, Positives(first), Positives(later));
    }
  }

  /** Over the whole pass, the losses gain the non-positive P&Ls of every deque, in key order. */
  lemma {:induction false} ForceSellAllLosses(acc: Account, queues: map<string, seq<InvestmentNode>>,
                                              ts: seq<string>, prices: seq<PriceEntry>, now: int, hold: int)
    requires forall t :: t in ts ==> t in queues
    requires Distinct(ts)
    ensures ForceSellAll(acc, queues, ts, prices, now, hold).0.lossTrades
         == acc.lossTrades + NonPositives(PassPnls(queues, ts, prices, now, hold))
    decreases |ts|
  {
    if ts != [] {
      var t0 := ts[0];
      var (acc1, rest) := ForceSellQueue(acc, queues[t0], prices, now, hold);
      var first := ForcedPnls(queues[t0], prices, now, hold);
      var later := PassPnls(queues, ts[1..], prices, now, hold);
      ForceSellQueueLosses(acc, queues[t0], prices, now, hold);
      DistinctTail(ts);
      ForceSellAllLosses(acc1, queues[t0 := rest], ts[1..], prices, now, hold);
      PassUpdateOutside(queues, ts[1..], t0, rest, prices, now, hold);
      NonPositivesAppend(first, later);
      AppendAssoc(acc.lossTrades, NonPositives(first), NonPositives(later));
    }
  }

  // ---------------------------------------------------------------------------------------
  // Counting open lots: a lot leaves a deque only by being closed.

  function LotCount(queues: map<string, seq<InvestmentNode>>, ts: seq<string>): nat
  {
    if ts == [] then 0
    else (if ts[0] in queues then |queues[ts[0]]| else 0) + LotCount(queues, ts[1..])
  }

  /** Number of open lots in all deques of the map. */
  function OpenLots(b: Book): nat
  {
    LotCount(b.queues, b.tickers)
  }

  ghost predicate Distinct(ts: seq<string>)
  {
    forall i, j :: 0 <= i < j < |ts| ==> ts[i] != ts[j]
  }

  lemma SortedDistinct(ts: seq<string>)
    requires StrictlySorted(ts)
    ensures Distinct(ts)
  {
    forall i, j | 0 <= i < j < |ts| ensures ts[i] != ts[j] {
      LessIrreflexive(ts[i]);
    }
  }

  lemma {:induction false} LotCountUpdateOutside(q: map<string, seq<InvestmentNode>>, ts: seq<string>,
                                                 k: string, v: seq<InvestmentNode>)
    requires k !in ts
    ensures LotCount(q[k := v], ts) == LotCount(q, ts)
  {
    if ts != [] {
      LotCountUpdateOutside(q, ts[1..], k, v);
    }
  }

  lemma {:induction false} LotCountUpdateInside(q: map<string, seq<InvestmentNode>>, ts: seq<string>,
                                                k: string, v: seq<InvestmentNode>)
    requires k in ts && k in q && Distinct(ts)
    ensures LotCount(q[k := v], ts) + |q[k]| == LotCount(q, ts) + |v|
  {
    if ts[0] == k {
      assert k !in ts[1..] by {
        forall i | 0 <= i < |ts[1..]| ensures ts[1..][i] != k {
          assert ts[1..][i] == ts[i + 1];
        }
      }
      LotCountUpdateOutside(q, ts[1..], k, v);
    } else {
      LotCountUpdateInside(q, ts[1..], k, v);
    }
  }

  lemma {:induction false} LotCountInsert(q: map<string, seq<InvestmentNode>>, ts: seq<string>, k: string)
    requires k !in ts
    ensures LotCount(q, InsertTicker(ts, k)) == LotCount(q, ts) + (if k in q then |q[k]| else 0)
  {
    if ts != [] && !Less(k, ts[0]) {
      LotCountInsert(q, ts[1..], k);
      assert ([ts[0]] + InsertTicker(ts[1..], k))[1..] == InsertTicker(ts[1..], k);
    } else if ts != [] {
      assert ([k] + ts)[1..] == ts;
    }
  }

  lemma InsertPresentTicker(ts: seq<string>, k: string)
    requires StrictlySorted(ts) && k in ts
    ensures InsertTicker(ts, k) == ts
  {
    if ts[0] != k {
      var m :| 0 <= m < |ts| && ts[m] == k;
      if Less(k, ts[0]) {
        LessTransitive(k, ts[0], k);
        LessIrreflexive(k);
      }
      assert ts[1..][m - 1] == k;
      InsertPresentTicker(ts[1..], k);
      assert ts == [ts[0]] + ts[1..];
    }
  }

  /** Replacing one deque changes the open-lot count by the difference in that deque's length. */
  lemma SetQueueLots(b: Book, k: string, v: seq<InvestmentNode>)
    requires ValidBook(b)
    ensures OpenLots(SetQueue(b, k, v)) + |QueueOf(b, k)| == OpenLots(b) + |v|
  {
    SortedDistinct(b.tickers);
    if k in b.tickers {
      InsertPresentTicker(b.tickers, k);
      LotCountUpdateInside(b.queues, b.tickers, k, v);
    } else {
      LotCountInsert(b.queues[k := v], b.tickers, k);
      LotCountUpdateOutside(b.queues, b.tickers, k, v);
    }
  }

  /** Every lot the forced-sell pass takes out of a deque is recorded as closed. */
  lemma {:induction false} ForceSellAllLots(acc: Account, queues: map<string, seq<InvestmentNode>>,
                                            ts: seq<string>, prices: seq<PriceEntry>, now: int, hold: int)
    requires forall t :: t in ts ==> t in queues
    requires Distinct(ts)
    ensures var (acc', queues') := ForceSellAll(acc, queues, ts, prices, now, hold);
      Closed(acc') + LotCount(queues', ts) == Closed(acc) + LotCount(queues, ts)
    decreases |ts|
  {
    if ts != [] {
      var t0 := ts[0];
      var (acc1, rest) := ForceSellQueue(acc, queues[t0], prices, now, hold);
      ForceSellQueueShape(acc, queues[t0], prices, now, hold);
      ForceSellQueueTally(acc, queues[t0], prices, now, hold);
      var q1 := queues[t0 := rest];
      assert t0 !in ts[1..] by {
        forall i | 0 <= i < |ts[1..]| ensures ts[1..][i] != t0 {
          assert ts[1..][i] == ts[i + 1];
        }
      }
      assert Distinct(ts[1..]) by {
        forall i, j | 0 <= i < j < |ts[1..]| ensures ts[1..][i] != ts[1..][j] {
          assert ts[1..][i] == ts[i + 1] && ts[1..][j] == ts[j + 1];
        }
      }
      LotCountUpdateOutside(queues, ts[1..], t0, rest);
      ForceSellAllLots(acc1, q1, ts[1..], prices, now, hold);
      ForceSellAllEffect(acc1, q1, ts[1..], prices, now, hold);
    }
  }
}
