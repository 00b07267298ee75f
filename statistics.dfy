/**
 * The per-run statistics of the parameter sweep (simulation/simulate_investment.cpp): accuracy,
 * best win and worst loss, and `medianOf`, which sorts its vector in place and returns the
 * element at index size/2 (the upper of the two middle elements for an even count).
 */
module Statistics {

  predicate SortedReals(s: seq<real>)
  {
    forall i, j :: 0 <= i < j < |s| ==> s[i] <= s[j]
  }

  // ---------------------------------------------------------------------------------------
  // A reference sort: insertion into a sorted sequence.

  function InsertSorted(x: real, s: seq<real>): (r: seq<real>)
    ensures multiset(r) == multiset(s) + multiset{x}
    ensures |r| == |s| + 1
  {
    if s == [] || x <= s[0] then [x] + s
    else
      assert s == [s[0]] + s[1..];
      [s[0]] + InsertSorted(x, s[1..])
  }

  /** Inserting into a sorted sequence keeps it sorted. */
  lemma {:induction false} InsertSortedSorted(x: real, s: seq<real>)
    requires SortedReals(s)
    ensures SortedReals(InsertSorted(x, s))
    decreases |s|
  {
    if s == [] || x <= s[0] {
      forall k | 0 <= k < |s| ensures x <= s[k] {
      }
      SortedCons(x, s);
    } else {
      SortedTail(s);
      InsertSortedSorted(x, s[1..]);
      forall k | 0 <= k < |s[1..]| ensures s[0] <= s[1..][k] {
        assert s[1..][k] == s[k + 1];
      }
      InsertedBound(x, s[1..], s[0]);
      SortedCons(s[0], InsertSorted(x, s[1..]));
    }
  }

  /** A lower bound of `s` and of `x` bounds their insertion. */
  lemma {:induction false} InsertedBound(x: real, s: seq<real>, b: real)
    requires b <= x && forall k :: 0 <= k < |s| ==> b <= s[k]
    ensures forall k :: 0 <= k < |InsertSorted(x, s)| ==> b <= InsertSorted(x, s)[k]
    decreases |s|
  {
    if s != [] && x > s[0] {
      forall k | 0 <= k < |s[1..]| ensures b <= s[1..][k] {
        assert s[1..][k] == s[k + 1];
      }
      InsertedBound(x, s[1..], b);
    }
  }

  /** A lower bound put in front of a sorted sequence keeps it sorted. */
  lemma SortedCons(b: real, s: seq<real>)
    requires SortedReals(s) && forall k :: 0 <= k < |s| ==> b <= s[k]
    ensures SortedReals([b] + s)
  {
    var r := [b] + s;
    forall i, j | 0 <= i < j < |r| ensures r[i] <= r[j] {
      assert r[j] == s[j - 1];
      if i > 0 {
        assert r[i] == s[i - 1];
      }
    }
  }

  /** The sorted permutation of `s` (insertion sort). */
  function SortedCopy(s: seq<real>): (r: seq<real>)
    ensures multiset(r) == multiset(s)
    ensures |r| == |s|
  {
    if s == [] then []
    else
      assert s == [s[0]] + s[1..];
      InsertSorted(s[0], SortedCopy(s[1..]))
  }

  /** SortedCopy's result is sorted. */
  lemma {:induction false} SortedCopySorted(s: seq<real>)
    ensures SortedReals(SortedCopy(s))
    decreases |s|
  {
    if s != [] {
      SortedCopySorted(s[1..]);
      InsertSortedSorted(s[0], SortedCopy(s[1..]));
    }
  }

  /** A sorted sequence is determined by its multiset of elements. */
  lemma {:induction false} SortedUnique(a: seq<real>, b: seq<real>)
    requires SortedReals(a) && SortedReals(b)
    requires multiset(a) == multiset(b)
    ensures a == b
    decreases |a|
  {
    assert |a| == |multiset(a)| == |multiset(b)| == |b|;
    if a != [] {
      HeadIsLeast(a, b[0]);
      HeadIsLeast(b, a[0]);
      assert a[0] == b[0];
      MultisetTail(a);
      MultisetTail(b);
      SortedTail(a);
      SortedTail(b);
      SortedUnique(a[1..], b[1..]);
      assert a == [a[0]] + a[1..] && b == [b[0]] + b[1..];
    }
  }

  lemma SortedTail(a: seq<real>)
    requires SortedReals(a) && a != []
    ensures SortedReals(a[1..])
  {
    forall i, j | 0 <= i < j < |a| - 1
      ensures a[1..][i] <= a[1..][j]
    {
      assert a[1..][i] == a[i + 1] && a[1..][j] == a[j + 1];
    }
  }

  lemma HeadIsLeast(a: seq<real>, x: real)
    requires SortedReals(a) && x in multiset(a)
    ensures a[0] <= x
  {
    var i :| 0 <= i < |a| && a[i] == x;
  }

  lemma MultisetTail(a: seq<real>)
    requires a != []
    ensures multiset(a[1..]) == multiset(a) - multiset{a[0]}
  {
    assert a == [a[0]] + a[1..];
  }

  /**
   * The value `medianOf` returns: 0 for an empty vector, otherwise the element at index
   * size/2 of the sorted vector.
   */
  function Median(s: seq<real>): real
  {
    if s == [] then 0.0 else SortedCopy(s)[|s| / 2]
  }

  // ---------------------------------------------------------------------------------------
  // `sort(v.begin(), v.end())` and `medianOf`, in place on an array.

  /** Sorts `a` in place (insertion sort by adjacent swaps). */
  method SortInPlace(a: array<real>)
    modifies a
    ensures SortedReals(a[..])
    ensures multiset(a[..]) == multiset(old(a[..]))
  {
    var i := 0;
    while i < a.Length
      invariant 0 <= i <= a.Length
      invariant SortedReals(a[..i])
      invariant multiset(a[..]) == multiset(old(a[..]))
    {
      SinkLast(a, i);
      i := i + 1;
    }
    assert a[..a.Length] == a[..];
  }

  /** Moves a[i] down past the larger elements of the sorted prefix a[..i]. */
  method SinkLast(a: array<real>, i: int)
    requires 0 <= i < a.Length && SortedReals(a[..i])
    modifies a
    ensures SortedReals(a[..i + 1])
    ensures multiset(a[..]) == multiset(old(a[..]))
  {
    var j := i;
    while j > 0 && a[j - 1] > a[j]
      invariant 0 <= j <= i
      invariant forall p, q :: 0 <= p < q <= i && p != j && q != j ==> a[p] <= a[q]
      invariant forall q :: j < q <= i ==> a[j] < a[q]
      invariant multiset(a[..]) == multiset(old(a[..]))
    {
      a[j - 1], a[j] := a[j], a[j - 1];
      j := j - 1;
    }
  }

  /** `medianOf(v)`: sorts the caller's vector in place and returns its element size/2. */
  method MedianOf(v: array<real>) returns (m: real)
    modifies v
    ensures v.Length == 0 ==> m == 0.0 && v[..] == old(v[..])
    ensures v.Length > 0 ==> SortedReals(v[..]) && m == v[v.Length / 2]
    ensures multiset(v[..]) == multiset(old(v[..]))
    ensures m == Median(old(v[..]))
  {
    if v.Length == 0 {
      return 0.0;
    }
    SortInPlace(v);
    SortedCopySorted(old(v[..]));
    SortedUnique(v[..], SortedCopy(old(v[..])));
    m := v[v.Length / 2];
  }

  // ---------------------------------------------------------------------------------------
  // What the median is, independently of sorting: its rank.

  function CountLess(s: seq<real>, x: real): nat
  {
    if s == [] then 0 else (if s[0] < x then 1 else 0) + CountLess(s[1..], x)
  }

  function CountGreater(s: seq<real>, x: real): nat
  {
    if s == [] then 0 else (if s[0] > x then 1 else 0) + CountGreater(s[1..], x)
  }

  lemma {:induction false} CountSplit(a: seq<real>, b: seq<real>, x: real)
    ensures CountLess(a + b, x) == CountLess(a, x) + CountLess(b, x)
    ensures CountGreater(a + b, x) == CountGreater(a, x) + CountGreater(b, x)
  {
    if a == [] {
      assert a + b == b;
    } else {
      assert (a + b)[0] == a[0] && (a + b)[1..] == a[1..] + b;
      CountSplit(a[1..], b, x);
    }
  }

  lemma {:induction false} CountInsert(y: real, s: seq<real>, x: real)
    ensures CountLess(InsertSorted(y, s), x) == CountLess(s, x) + (if y < x then 1 else 0)
    ensures CountGreater(InsertSorted(y, s), x) == CountGreater(s, x) + (if y > x then 1 else 0)
  {
    if s == [] || y <= s[0] {
      assert ([y] + s)[1..] == s;
    } else {
      CountInsert(y, s[1..], x);
      assert ([s[0]] + InsertSorted(y, s[1..]))[1..] == InsertSorted(y, s[1..]);
    }
  }

  lemma {:induction false} CountSortedCopy(s: seq<real>, x: real)
    ensures CountLess(SortedCopy(s), x) == CountLess(s, x)
    ensures CountGreater(SortedCopy(s), x) == CountGreater(s, x)
  {
    if s != [] {
      CountSortedCopy(s[1..], x);
      CountInsert(s[0], SortedCopy(s[1..]), x);
    }
  }

  lemma {:induction false} CountNone(s: seq<real>, x: real)
    ensures (forall i :: 0 <= i < |s| ==> s[i] >= x) ==> CountLess(s, x) == 0
    ensures (forall i :: 0 <= i < |s| ==> s[i] <= x) ==> CountGreater(s, x) == 0
    ensures CountLess(s, x) <= |s| && CountGreater(s, x) <= |s|
  {
    if s != [] {
      CountNone(s[1..], x);
    }
  }

  /**
   * The median is an element of `s` with at most |s|/2 elements below it and at most
   * (|s|-1)/2 above it: for an even count that is the upper of the two middle elements
   * (the lower one could have |s|/2 elements above it).
   */
  lemma MedianRank(s: seq<real>)
    requires s != []
    ensures Median(s) in multiset(s)
    ensures CountLess(s, Median(s)) <= |s| / 2
    ensures CountGreater(s, Median(s)) <= (|s| - 1) / 2
  {
    var t := SortedCopy(s);
    SortedCopySorted(s);
    assert t[|s| / 2] in multiset(t);
    SortedRank(t, |s| / 2);
    CountSortedCopy(s, t[|s| / 2]);
  }

  /** In a sorted sequence, at most k elements lie below t[k] and at most |t|-1-k above it. */
  lemma SortedRank(t: seq<real>, k: nat)
    requires SortedReals(t) && k < |t|
    ensures CountLess(t, t[k]) <= k
    ensures CountGreater(t, t[k]) <= |t| - 1 - k
  {
    var m := t[k];
    assert t == t[..k] + t[k..] && t[k..] == [m] + t[k + 1..];
    CountSplit(t[..k], t[k..], m);
    CountSplit([m], t[k + 1..], m);
    CountNone(t[..k], m);
    CountNone(t[k..], m);
    CountNone(t[k + 1..], m);
    CountNone([m], m);
  }

  /** The median of `s` is the middle element of any sorted arrangement of it. */
  lemma MedianOfArrangement(s: seq<real>, t: seq<real>)
    requires SortedReals(t) && multiset(s) == multiset(t) && s != []
    ensures |s| == |t| && Median(s) == t[|t| / 2]
  {
    assert |s| == |multiset(s)| == |multiset(t)| == |t|;
    SortedCopySorted(s);
    SortedUnique(SortedCopy(s), t);
  }

  /**
   * For an even count the median is the upper of the two middle elements: of four values
   * w < x < y < z, in whatever order, it is y.
   */
  lemma MedianIsUpperMiddle(s: seq<real>, w: real, x: real, y: real, z: real)
    requires w < x < y < z
    requires multiset(s) == multiset([w, x, y, z])
    ensures Median(s) == y
  {
    var t := [w, x, y, z];
    FourSorted(t, w, x, y, z);
    MedianOfArrangement(s, t);
    assert t[|t| / 2] == t[2] == y;
  }

  lemma FourSorted(t: seq<real>, w: real, x: real, y: real, z: real)
    requires t == [w, x, y, z] && w < x < y < z
    ensures SortedReals(t) && |t| == 4
  {
  }

  // ---------------------------------------------------------------------------------------
  // The other figures main prints for each run.

  /** `max_element` of the wins, 0 for none. */
  function BestWin(s: seq<real>): (r: real)
    ensures s == [] ==> r == 0.0
    ensures s != [] ==> r in s && forall i :: 0 <= i < |s| ==> s[i] <= r
  {
    if s == [] then 0.0
    else if |s| == 1 then s[0]
    else var m := BestWin(s[1..]); if s[0] >= m then s[0] else m
  }

  /** `min_element` of the losses, 0 for none. */
  function WorstLoss(s: seq<real>): (r: real)
    ensures s == [] ==> r == 0.0
    ensures s != [] ==> r in s && forall i :: 0 <= i < |s| ==> r <= s[i]
  {
    if s == [] then 0.0
    else if |s| == 1 then s[0]
    else var m := WorstLoss(s[1..]); if s[0] <= m then s[0] else m
  }

  /** Percentage of buys that closed at a profit; 0 (not NaN) when nothing was bought. */
  function Accuracy(totalTrades: int, profitableTrades: int): (r: real)
    ensures totalTrades == 0 ==> r == 0.0
    ensures totalTrades != 0 ==> r * totalTrades as real == profitableTrades as real * 100.0
  {
    if totalTrades == 0 then 0.0 else profitableTrades as real / totalTrades as real * 100.0
  }

  /**
   * Expected return of a run: each profitable trade earns the median win, every other trade
   * the median loss.
   */
  function ExpectedReturn(trades: int, profitable: int, medWin: real, medLoss: real): real
  {
    profitable as real * medWin + (trades - profitable) as real * medLoss
  }

  /**
   * When the median loss does not exceed the median win, the expected return lies between
   * every trade earning the median loss and every trade earning the median win.
   */
  lemma ExpectedReturnBetween(trades: int, profitable: int, medWin: real, medLoss: real)
    requires 0 <= profitable <= trades
    requires medLoss <= medWin
    ensures trades as real * medLoss <= ExpectedReturn(trades, profitable, medWin, medLoss)
    ensures ExpectedReturn(trades, profitable, medWin, medLoss) <= trades as real * medWin
  {
    var p, q := profitable as real, (trades - profitable) as real;
    var d := medWin - medLoss;
    assert p * medWin == p * medLoss + p * d;
    assert q * medLoss == q * medWin - q * d;
    assert p * d >= 0.0 && q * d >= 0.0;
  }

  /** With all wins positive and all losses non-positive, the medians keep those signs. */
  lemma MedianSigns(wins: seq<real>, losses: seq<real>)
    requires forall i :: 0 <= i < |wins| ==> wins[i] > 0.0
    requires forall i :: 0 <= i < |losses| ==> losses[i] <= 0.0
    ensures wins != [] ==> Median(wins) > 0.0
    ensures Median(losses) <= 0.0
  {
    if wins != [] {
      MedianRank(wins);
    }
    if losses != [] {
      MedianRank(losses);
    }
  }
}
