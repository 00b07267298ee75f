/**
 * Historical price series of the simulator (simulation/simulate_investment.cpp) and the
 * `lower_bound` query it runs on them: the first record whose timestamp is at or after a time.
 * Timestamps are whole seconds since the epoch.
 */
module Prices {

  import opened Wrappers

  /** One price record: `PriceEntry` of the simulator. */
  datatype PriceEntry = PriceEntry(ticker: string, price: real, timestamp: int)

  /** `priceData`: every ticker's records, in the order the loader appended them. */
  type PriceData = map<string, seq<PriceEntry>>

  /** The order `lower_bound` assumes: timestamps never decrease along the series. */
  predicate SortedByTime(s: seq<PriceEntry>)
  {
    forall i, j :: 0 <= i < j < |s| ==> s[i].timestamp <= s[j].timestamp
  }

  /** A series the simulator can trade on: sorted, and every price positive (a buy divides by it). */
  predicate ValidSeries(s: seq<PriceEntry>)
  {
    SortedByTime(s) && forall i :: 0 <= i < |s| ==> s[i].price > 0.0
  }

  predicate ValidPriceData(pd: PriceData)
  {
    forall t :: t in pd ==> ValidSeries(pd[t])
  }

  /** `priceData[ticker]`: a ticker without records has the empty series. */
  function Series(pd: PriceData, ticker: string): (s: seq<PriceEntry>)
    ensures ValidPriceData(pd) ==> ValidSeries(s)
  {
    if ticker in pd then pd[ticker] else []
  }

  /**
   * Reference definition of the index `lower_bound` returns: the first record not
   * earlier than `t`, or `|s|` when every record is earlier.
   */
  function FirstAtOrAfter(s: seq<PriceEntry>, t: int): (k: nat)
    ensures k <= |s|
    ensures forall i :: 0 <= i < k ==> s[i].timestamp < t
    ensures k < |s| ==> s[k].timestamp >= t
  {
    if s == [] then 0
    else if s[0].timestamp >= t then 0
    else 1 + FirstAtOrAfter(s[1..], t)
  }

  /** The two properties of FirstAtOrAfter single out one index. */
  lemma FirstAtOrAfterUnique(s: seq<PriceEntry>, t: int, k: nat)
    requires k <= |s|
    requires forall i :: 0 <= i < k ==> s[i].timestamp < t
    requires k < |s| ==> s[k].timestamp >= t
    ensures k == FirstAtOrAfter(s, t)
  {
  }

  /** On a sorted series every record from the found index on is at or after `t`. */
  lemma {:induction false} AfterFirstAtOrAfter(s: seq<PriceEntry>, t: int, i: int)
    requires SortedByTime(s)
    requires FirstAtOrAfter(s, t) <= i < |s|
    ensures s[i].timestamp >= t
  {
    var k := FirstAtOrAfter(s, t);
    assert s[k].timestamp <= s[i].timestamp;
  }

  /**
   * `lower_bound(prices.begin(), prices.end(), t, p.timestamp < t)`: a binary search on a
   * sorted series, which finds the reference index.
   */
  method LowerBound(s: seq<PriceEntry>, t: int) returns (k: nat)
    requires SortedByTime(s)
    ensures k == FirstAtOrAfter(s, t)
  {
    var lo, hi := 0, |s|;
    while lo < hi
      invariant 0 <= lo <= hi <= |s|
      invariant forall i :: 0 <= i < lo ==> s[i].timestamp < t
      invariant forall i :: hi <= i < |s| ==> s[i].timestamp >= t
    {
      var mid := lo + (hi - lo) / 2;
      if s[mid].timestamp < t {
        lo := mid + 1;
      } else {
        hi := mid;
      }
    }
    FirstAtOrAfterUnique(s, t, lo);
    k := lo;
  }

  /** The price the simulator resolves for time `t`, or None where it `continue`s or `break`s. */
  function PriceAtOrAfter(s: seq<PriceEntry>, t: int): (r: Option<real>)
  {
    var k := FirstAtOrAfter(s, t);
    if k == |s| then None else Some(s[k].price)
  }

  /** A resolved price is that of the earliest record at or after `t`. */
  lemma PriceIsEarliestAtOrAfter(s: seq<PriceEntry>, t: int, i: int)
    requires SortedByTime(s)
    requires 0 <= i < |s| && s[i].timestamp >= t
    requires forall j :: 0 <= j < i ==> s[j].timestamp < t
    ensures PriceAtOrAfter(s, t) == Some(s[i].price)
  {
    FirstAtOrAfterUnique(s, t, i);
  }

  /** Resolved prices on a valid series are positive. */
  lemma ResolvedPricePositive(s: seq<PriceEntry>, t: int)
    requires ValidSeries(s)
    ensures PriceAtOrAfter(s, t).Some? ==> PriceAtOrAfter(s, t).value > 0.0
  {
  }
}
