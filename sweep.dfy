/**
 * The parameter sweep of `main` (simulation/simulate_investment.cpp, lines 263-317) as
 * values: the figures computed after each run and the two "best so far" trackers, which
 * start at 0 and move only on a strictly greater value.
 */
module Sweep {

  import opened Prices
  import opened Ledger
  import opened Simulation
  import opened Statistics

  /** The four swept parameters, as `main` records them (the hold duration is fixed). */
  datatype Params = Params(invest: real, buyT: real, sellT: real, simT: real)

  function ParamsOf(cfg: Strategy): Params
  {
    Params(cfg.investPercent, cfg.buyThreshold, cfg.sellThreshold, cfg.similarityThreshold)
  }

  /** What `simulate` and `main` compute (and print) for one configuration. */
  datatype RunReport = RunReport(
    params: Params,
    result: real,
    trades: int,
    profitable: int,
    accuracy: real,
    bestWin: real,
    medWin: real,
    worstLoss: real,
    medLoss: real,
    expectedReturn: real)

  /** The figures of lines 150-152 and 294-298 for a run that ended in `acc`. */
  function ReportOf(cfg: Strategy, acc: Account): RunReport
  {
    RunReport(
      ParamsOf(cfg), acc.balance, acc.totalTrades, acc.profitableTrades,
      Accuracy(acc.totalTrades, acc.profitableTrades),
      BestWin(acc.winTrades), Median(acc.winTrades),
      WorstLoss(acc.lossTrades), Median(acc.lossTrades),
      ExpectedReturn(acc.totalTrades, acc.profitableTrades, Median(acc.winTrades), Median(acc.lossTrades)))
  }

  /** The report of a run on a cleared `investmentMap` (line 283). */
  function FreshReport(cfg: Strategy, pd: PriceData, news: seq<NewsEntry>): RunReport
    requires ValidPriceData(pd)
  {
    ReportOf(cfg, Run(cfg, pd, Start(EmptyBook()), news).account)
  }

  /** The reports of a sweep over `cfgs`, each run fresh, in order. */
  function FreshReports(cfgs: seq<Strategy>, pd: PriceData, news: seq<NewsEntry>): seq<RunReport>
    requires ValidPriceData(pd)
  {
    if cfgs == [] then []
    else FreshReports(cfgs[..|cfgs| - 1], pd, news) + [FreshReport(cfgs[|cfgs| - 1], pd, news)]
  }

  /** The sweep's reports are those of fresh runs of the configurations, one each. */
  lemma {:induction false} FreshReportsAt(cfgs: seq<Strategy>, pd: PriceData, news: seq<NewsEntry>)
    requires ValidPriceData(pd)
    ensures |FreshReports(cfgs, pd, news)| == |cfgs|
    ensures forall i :: 0 <= i < |cfgs| ==> FreshReports(cfgs, pd, news)[i] == FreshReport(cfgs[i], pd, news)
    decreases |cfgs|
  {
    if cfgs != [] {
      var n := |cfgs| - 1;
      FreshReportsAt(cfgs[..n], pd, news);
      var rs := FreshReports(cfgs[..n], pd, news);
      assert FreshReports(cfgs, pd, news) == rs + [FreshReport(cfgs[n], pd, news)];
      forall i | 0 <= i < n
        ensures FreshReports(cfgs, pd, news)[i] == FreshReport(cfgs[i], pd, news)
      {
        assert cfgs[..n][i] == cfgs[i];
      }
    }
  }

  /**
   * The figures of a fresh run are consistent: accuracy is a percentage, the best win is at
   * least the median win, which is positive when there was a win, and the worst loss is at
   * most the median loss, which is never positive.
   */
  lemma FreshReportBounds(cfg: Strategy, pd: PriceData, news: seq<NewsEntry>)
    requires ValidPriceData(pd)
    ensures var r := FreshReport(cfg, pd, news);
      && 0 <= r.profitable <= r.trades
      && 0.0 <= r.accuracy <= 100.0
      && r.medWin <= r.bestWin
      && (r.profitable > 0 ==> r.medWin > 0.0)
      && r.worstLoss <= r.medLoss <= 0.0 <= r.medWin
  {
    var acc := Run(cfg, pd, Start(EmptyBook()), news).account;
    StartTallied(EmptyBook());
    RunTallied(cfg, pd, Start(EmptyBook()), news);
    FreshRunAccountsForEveryLot(cfg, pd, news);
    MedianSigns(acc.winTrades, acc.lossTrades);
    if acc.winTrades != [] {
      MedianRank(acc.winTrades);
      var m := Median(acc.winTrades);
      var i :| 0 <= i < |acc.winTrades| && acc.winTrades[i] == m;
    }
    if acc.lossTrades != [] {
      MedianRank(acc.lossTrades);
      var m := Median(acc.lossTrades);
      var i :| 0 <= i < |acc.lossTrades| && acc.lossTrades[i] == m;
    }
    if acc.totalTrades != 0 {
      AccuracyBounds(acc.totalTrades, acc.profitableTrades);
    }
  }

  /** The expected return lies between all trades earning the median loss and all earning the median win. */
  predicate ExpectedWithinMedians(r: RunReport)
  {
    r.trades as real * r.medLoss <= r.expectedReturn <= r.trades as real * r.medWin
  }

  /** A report whose median loss does not exceed its median win has its expected return within them. */
  lemma ReportExpectedReturnBounds(r: RunReport)
    requires 0 <= r.profitable <= r.trades && r.medLoss <= r.medWin
    requires r.expectedReturn == ExpectedReturn(r.trades, r.profitable, r.medWin, r.medLoss)
    ensures ExpectedWithinMedians(r)
  {
    ExpectedReturnBetween(r.trades, r.profitable, r.medWin, r.medLoss);
  }

  /** The report of every fresh run has its expected return within its medians. */
  lemma FreshExpectedReturnBounds(cfg: Strategy, pd: PriceData, news: seq<NewsEntry>)
    requires ValidPriceData(pd)
    ensures ExpectedWithinMedians(FreshReport(cfg, pd, news))
  {
    FreshReportBounds(cfg, pd, news);
    ReportExpectedReturnBounds(FreshReport(cfg, pd, news));
  }

  lemma AccuracyBounds(trades: int, profitable: int)
    requires 0 <= profitable <= trades && trades != 0
    ensures 0.0 <= Accuracy(trades, profitable) <= 100.0
  {
    var a := Accuracy(trades, profitable);
    assert a * trades as real == profitable as real * 100.0;
  }

  // ---------------------------------------------------------------------------------------
  // The trackers.

  datatype Tracker = Tracker(
    bestResult: real,
    bestResultParams: Params,
    bestExpectedReturn: real,
    bestExpectedParams: Params,
    bestExpectedResult: real,
    totalSimulations: int)

  /** Lines 268-272: everything 0, the parameter tuples value-initialised. */
  const Initial := Tracker(0.0, Params(0.0, 0.0, 0.0, 0.0), 0.0, Params(0.0, 0.0, 0.0, 0.0), 0.0, 0)

  /** One configuration's effect on the trackers (line 291 and lines 309-317). */
  function Track(tr: Tracker, r: RunReport): Tracker
  {
    var tr1 := tr.(totalSimulations := tr.totalSimulations + 1);
    var tr2 := if r.result > tr1.bestResult then tr1.(bestResult := r.result, bestResultParams := r.params) else tr1;
    if r.expectedReturn > tr2.bestExpectedReturn then
      tr2.(bestExpectedReturn := r.expectedReturn, bestExpectedParams := r.params, bestExpectedResult := r.result)
    else tr2
  }

  /** What Track does to the best-result tracker. */
  lemma TrackResult(tr: Tracker, r: RunReport)
    ensures var t := Track(tr, r);
      if r.result > tr.bestResult then t.bestResult == r.result && t.bestResultParams == r.params
      else t.bestResult == tr.bestResult && t.bestResultParams == tr.bestResultParams
  {
  }

  /** What Track does to the best-expected-return tracker. */
  lemma TrackExpected(tr: Tracker, r: RunReport)
    ensures var t := Track(tr, r);
      if r.expectedReturn > tr.bestExpectedReturn then
        t.bestExpectedReturn == r.expectedReturn && t.bestExpectedParams == r.params
        && t.bestExpectedResult == r.result
      else
        t.bestExpectedReturn == tr.bestExpectedReturn && t.bestExpectedParams == tr.bestExpectedParams
        && t.bestExpectedResult == tr.bestExpectedResult
  {
  }

  /** The trackers after the reports, in sweep order. */
  function Fold(tr: Tracker, rs: seq<RunReport>): Tracker
  {
    if rs == [] then tr else Track(Fold(tr, rs[..|rs| - 1]), rs[|rs| - 1])
  }

  /** How many of the runs ended above the starting balance. */
  function ProfitableRuns(rs: seq<RunReport>): nat
  {
    if rs == [] then 0
    else ProfitableRuns(rs[..|rs| - 1]) + (if rs[|rs| - 1].result > StartingBalance then 1 else 0)
  }

  /** `i` is the first position of a strict maximum of `xs`, and that maximum exceeds `floor`. */
  predicate FirstMaxResult(rs: seq<RunReport>, i: int, floor: real)
  {
    && 0 <= i < |rs|
    && rs[i].result > floor
    && (forall j :: 0 <= j < |rs| ==> rs[j].result <= rs[i].result)
    && (forall j :: 0 <= j < i ==> rs[j].result < rs[i].result)
  }

  predicate FirstMaxExpected(rs: seq<RunReport>, i: int, floor: real)
  {
    && 0 <= i < |rs|
    && rs[i].expectedReturn > floor
    && (forall j :: 0 <= j < |rs| ==> rs[j].expectedReturn <= rs[i].expectedReturn)
    && (forall j :: 0 <= j < i ==> rs[j].expectedReturn < rs[i].expectedReturn)
  }

  /**
   * The best result is the largest final balance when one exceeds the starting tracker, with
   * the parameters of the first configuration that reached it; otherwise the tracker keeps
   * its starting value and parameters.
   */
  lemma FoldBestResult(tr: Tracker, rs: seq<RunReport>)
    ensures var r := Fold(tr, rs);
      && r.bestResult >= tr.bestResult
      && (forall j :: 0 <= j < |rs| ==> rs[j].result <= r.bestResult)
      && ((forall j :: 0 <= j < |rs| ==> rs[j].result <= tr.bestResult) ==>
            r.bestResult == tr.bestResult && r.bestResultParams == tr.bestResultParams)
      && ((exists j :: 0 <= j < |rs| && rs[j].result > tr.bestResult) ==>
            exists i :: FirstMaxResult(rs, i, tr.bestResult)
                     && r.bestResult == rs[i].result && r.bestResultParams == rs[i].params)
  {
    FoldResultBound(tr, rs);
    if forall j :: 0 <= j < |rs| ==> rs[j].result <= tr.bestResult {
      FoldResultUnchanged(tr, rs);
    }
    if exists j :: 0 <= j < |rs| && rs[j].result > tr.bestResult {
      var i := FoldResultWitness(tr, rs);
    }
  }

  /** The best result never falls and is at least every run's result. */
  lemma {:induction false} FoldResultBound(tr: Tracker, rs: seq<RunReport>)
    ensures Fold(tr, rs).bestResult >= tr.bestResult
    ensures forall j :: 0 <= j < |rs| ==> rs[j].result <= Fold(tr, rs).bestResult
    decreases |rs|
  {
    if rs != [] {
      var n := |rs| - 1;
      var pre := rs[..n];
      FoldResultBound(tr, pre);
      TrackResult(Fold(tr, pre), rs[n]);
      forall j | 0 <= j < n ensures rs[j].result <= Fold(tr, rs).bestResult {
        assert rs[j] == pre[j];
      }
    }
  }

  /** When no run beats the starting tracker, the best result and its parameters stay. */
  lemma {:induction false} FoldResultUnchanged(tr: Tracker, rs: seq<RunReport>)
    requires forall j :: 0 <= j < |rs| ==> rs[j].result <= tr.bestResult
    ensures Fold(tr, rs).bestResult == tr.bestResult
    ensures Fold(tr, rs).bestResultParams == tr.bestResultParams
    decreases |rs|
  {
    if rs != [] {
      var n := |rs| - 1;
      var pre := rs[..n];
      forall j | 0 <= j < n ensures pre[j].result <= tr.bestResult {
        assert pre[j] == rs[j];
      }
      FoldResultUnchanged(tr, pre);
      TrackResult(Fold(tr, pre), rs[n]);
    }
  }

  /** When some run beats the starting tracker, the first maximal run is the one recorded. */
  lemma {:induction false} FoldResultWitness(tr: Tracker, rs: seq<RunReport>) returns (i: int)
    requires exists j :: 0 <= j < |rs| && rs[j].result > tr.bestResult
    ensures FirstMaxResult(rs, i, tr.bestResult)
    ensures Fold(tr, rs).bestResult == rs[i].result && Fold(tr, rs).bestResultParams == rs[i].params
    decreases |rs|
  {
    var n := |rs| - 1;
    var pre := rs[..n];
    var p := Fold(tr, pre);
    assert rs == pre + [rs[n]];
    FoldResultBound(tr, pre);
    TrackResult(p, rs[n]);
    if exists j :: 0 <= j < n && pre[j].result > tr.bestResult {
      var k := FoldResultWitness(tr, pre);
      if rs[n].result > p.bestResult {
        NewFirstMaxResult(pre, rs[n], tr.bestResult);
        i := n;
      } else {
        KeepFirstMaxResult(pre, rs[n], k, tr.bestResult);
        i := k;
      }
    } else {
      forall j | 0 <= j < n ensures pre[j].result <= tr.bestResult {
      }
      FoldResultUnchanged(tr, pre);
      var j :| 0 <= j < |rs| && rs[j].result > tr.bestResult;
      assert j == n;
      NewFirstMaxResult(pre, rs[n], tr.bestResult);
      i := n;
    }
  }

  lemma NewFirstMaxResult(pre: seq<RunReport>, x: RunReport, floor: real)
    requires x.result > floor
    requires forall j :: 0 <= j < |pre| ==> pre[j].result < x.result
    ensures FirstMaxResult(pre + [x], |pre|, floor)
  {
    var rs := pre + [x];
    forall j | 0 <= j < |pre| ensures rs[j].result < x.result {
      assert rs[j] == pre[j];
    }
  }

  lemma KeepFirstMaxResult(pre: seq<RunReport>, x: RunReport, i: int, floor: real)
    requires FirstMaxResult(pre, i, floor) && x.result <= pre[i].result
    ensures FirstMaxResult(pre + [x], i, floor)
  {
    var rs := pre + [x];
    forall j | 0 <= j < |pre| ensures rs[j] == pre[j] {
    }
  }

  /**
   * The same for the expected return, which also records the final balance of the
   * configuration that set it.
   */
  lemma FoldBestExpected(tr: Tracker, rs: seq<RunReport>)
    ensures var r := Fold(tr, rs);
      && r.bestExpectedReturn >= tr.bestExpectedReturn
      && (forall j :: 0 <= j < |rs| ==> rs[j].expectedReturn <= r.bestExpectedReturn)
      && ((forall j :: 0 <= j < |rs| ==> rs[j].expectedReturn <= tr.bestExpectedReturn) ==>
            r.bestExpectedReturn == tr.bestExpectedReturn && r.bestExpectedParams == tr.bestExpectedParams
            && r.bestExpectedResult == tr.bestExpectedResult)
      && ((exists j :: 0 <= j < |rs| && rs[j].expectedReturn > tr.bestExpectedReturn) ==>
            exists i :: FirstMaxExpected(rs, i, tr.bestExpectedReturn)
                     && r.bestExpectedReturn == rs[i].expectedReturn && r.bestExpectedParams == rs[i].params
                     && r.bestExpectedResult == rs[i].result)
  {
    FoldExpectedBound(tr, rs);
    if forall j :: 0 <= j < |rs| ==> rs[j].expectedReturn <= tr.bestExpectedReturn {
      FoldExpectedUnchanged(tr, rs);
    }
    if exists j :: 0 <= j < |rs| && rs[j].expectedReturn > tr.bestExpectedReturn {
      var i := FoldExpectedWitness(tr, rs);
    }
  }

  /** The best expected return never falls and is at least every run's expected return. */
  lemma {:induction false} FoldExpectedBound(tr: Tracker, rs: seq<RunReport>)
    ensures Fold(tr, rs).bestExpectedReturn >= tr.bestExpectedReturn
    ensures forall j :: 0 <= j < |rs| ==> rs[j].expectedReturn <= Fold(tr, rs).bestExpectedReturn
    decreases |rs|
  {
    if rs != [] {
      var n := |rs| - 1;
      var pre := rs[..n];
      FoldExpectedBound(tr, pre);
      TrackExpected(Fold(tr, pre), rs[n]);
      forall j | 0 <= j < n ensures rs[j].expectedReturn <= Fold(tr, rs).bestExpectedReturn {
        assert rs[j] == pre[j];
      }
    }
  }

  /** When no run beats the starting tracker, the expected-return record stays. */
  lemma {:induction false} FoldExpectedUnchanged(tr: Tracker, rs: seq<RunReport>)
    requires forall j :: 0 <= j < |rs| ==> rs[j].expectedReturn <= tr.bestExpectedReturn
    ensures Fold(tr, rs).bestExpectedReturn == tr.bestExpectedReturn
    ensures Fold(tr, rs).bestExpectedParams == tr.bestExpectedParams
    ensures Fold(tr, rs).bestExpectedResult == tr.bestExpectedResult
    decreases |rs|
  {
    if rs != [] {
      var n := |rs| - 1;
      var pre := rs[..n];
      forall j | 0 <= j < n ensures pre[j].expectedReturn <= tr.bestExpectedReturn {
        assert pre[j] == rs[j];
      }
      FoldExpectedUnchanged(tr, pre);
      TrackExpected(Fold(tr, pre), rs[n]);
    }
  }

  /** When some run beats the starting tracker, the first maximal run is the one recorded. */
  lemma {:induction false} FoldExpectedWitness(tr: Tracker, rs: seq<RunReport>) returns (i: int)
    requires exists j :: 0 <= j < |rs| && rs[j].expectedReturn > tr.bestExpectedReturn
    ensures FirstMaxExpected(rs, i, tr.bestExpectedReturn)
    ensures Fold(tr, rs).bestExpectedReturn == rs[i].expectedReturn
    ensures Fold(tr, rs).bestExpectedParams == rs[i].params && Fold(tr, rs).bestExpectedResult == rs[i].result
    decreases |rs|
  {
    var n := |rs| - 1;
    var pre := rs[..n];
    var p := Fold(tr, pre);
    assert rs == pre + [rs[n]];
    FoldExpectedBound(tr, pre);
    TrackExpected(p, rs[n]);
    if exists j :: 0 <= j < n && pre[j].expectedReturn > tr.bestExpectedReturn {
      var k := FoldExpectedWitness(tr, pre);
      if rs[n].expectedReturn > p.bestExpectedReturn {
        NewFirstMaxExpected(pre, rs[n], tr.bestExpectedReturn);
        i := n;
      } else {
        KeepFirstMaxExpected(pre, rs[n], k, tr.bestExpectedReturn);
        i := k;
      }
    } else {
      forall j | 0 <= j < n ensures pre[j].expectedReturn <= tr.bestExpectedReturn {
      }
      FoldExpectedUnchanged(tr, pre);
      var j :| 0 <= j < |rs| && rs[j].expectedReturn > tr.bestExpectedReturn;
      assert j == n;
      NewFirstMaxExpected(pre, rs[n], tr.bestExpectedReturn);
      i := n;
    }
  }

  lemma NewFirstMaxExpected(pre: seq<RunReport>, x: RunReport, floor: real)
    requires x.expectedReturn > floor
    requires forall j :: 0 <= j < |pre| ==> pre[j].expectedReturn < x.expectedReturn
    ensures FirstMaxExpected(pre + [x], |pre|, floor)
  {
    var rs := pre + [x];
    forall j | 0 <= j < |pre| ensures rs[j].expectedReturn < x.expectedReturn {
      assert rs[j] == pre[j];
    }
  }

  lemma KeepFirstMaxExpected(pre: seq<RunReport>, x: RunReport, i: int, floor: real)
    requires FirstMaxExpected(pre, i, floor) && x.expectedReturn <= pre[i].expectedReturn
    ensures FirstMaxExpected(pre + [x], i, floor)
  {
    var rs := pre + [x];
    forall j | 0 <= j < |pre| ensures rs[j] == pre[j] {
    }
  }

  /** Every configuration counts one simulation. */
  lemma {:induction false} FoldCountsSimulations(tr: Tracker, rs: seq<RunReport>)
    ensures Fold(tr, rs).totalSimulations == tr.totalSimulations + |rs|
    decreases |rs|
  {
    if rs != [] {
      FoldCountsSimulations(tr, rs[..|rs| - 1]);
    }
  }

  /** A sweep in which no run ends above 0 reports the value-initialised parameter tuple. */
  lemma NoGainKeepsZeroParams(rs: seq<RunReport>)
    requires forall j :: 0 <= j < |rs| ==> rs[j].result <= 0.0
    ensures Fold(Initial, rs).bestResult == 0.0
    ensures Fold(Initial, rs).bestResultParams == Params(0.0, 0.0, 0.0, 0.0)
  {
    FoldBestResult(Initial, rs);
  }
}
