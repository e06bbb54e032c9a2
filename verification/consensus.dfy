/**
 The inlier cluster of `CanonicalPricePolicy._consensus_cluster` (canonical.py): the first largest
 contiguous window of the price-sorted quotes that lies within tolerance of its own median.
 */
module Consensus {
  import opened Wrappers
  import opened Models
  import opened Anomaly

  /** A quote together with the price it offers. */
  datatype Offer<T> = Offer(price: Price, quote: T)

  ghost predicate Sorted<T>(s: seq<Offer<T>>) {
    forall i, j :: 0 <= i < j < |s| ==> s[i].price <= s[j].price
  }

  /** Stable insertion: `q` stood to the left of everything in `s`, so it precedes its equals. */
  function Insert<T>(q: Offer<T>, s: seq<Offer<T>>): (r: seq<Offer<T>>)
    ensures |r| == |s| + 1
  {
    if s == [] || q.price <= s[0].price then [q] + s else [s[0]] + Insert(q, s[1..])
  }

  function SortByPrice<T>(s: seq<Offer<T>>): (r: seq<Offer<T>>)
    ensures |r| == |s|
  {
    if s == [] then [] else Insert(s[0], SortByPrice(s[1..]))
  }

  lemma {:induction false} InsertPermutes<T>(q: Offer<T>, s: seq<Offer<T>>)
    ensures multiset(Insert(q, s)) == multiset(s) + multiset{q}
  {
    if s != [] && q.price > s[0].price {
      InsertPermutes(q, s[1..]);
      assert s == [s[0]] + s[1..];
    }
  }

  lemma {:induction false} InsertKeepsBound<T>(q: Offer<T>, s: seq<Offer<T>>, low: real)
    requires low <= q.price && forall i | 0 <= i < |s| :: low <= s[i].price
    ensures forall i | 0 <= i < |Insert(q, s)| :: low <= Insert(q, s)[i].price
  {
    if s != [] && q.price > s[0].price {
      InsertKeepsBound(q, s[1..], low);
    }
  }

  lemma {:induction false} InsertSorts<T>(q: Offer<T>, s: seq<Offer<T>>)
    requires Sorted(s)
    ensures Sorted(Insert(q, s))
  {
    if s != [] && q.price > s[0].price {
      InsertSorts(q, s[1..]);
      InsertKeepsBound(q, s[1..], s[0].price);
    }
  }

  /** Sorting gives an ordered permutation of the quotes. */
  lemma {:induction false} SortByPriceSorts<T>(s: seq<Offer<T>>)
    ensures Sorted(SortByPrice(s))
    ensures multiset(SortByPrice(s)) == multiset(s)
  {
    if s != [] {
      SortByPriceSorts(s[1..]);
      InsertSorts(s[0], SortByPrice(s[1..]));
      InsertPermutes(s[0], SortByPrice(s[1..]));
      assert s == [s[0]] + s[1..];
    }
  }

  /** `statistics.median` of quotes that are already in price order. */
  function Median<T>(window: seq<Offer<T>>): Price
    requires window != []
  {
    var n := |window|;
    if n % 2 == 1 then window[n / 2].price
    else (window[n / 2 - 1].price + window[n / 2].price) / 2.0
  }

  predicate WithinTolerance(price: real, center: Price, tolerance: real) {
    Abs(price - center) / center * 100.0 <= tolerance
  }

  predicate Fits<T>(window: seq<Offer<T>>, tolerance: real)
    requires window != []
  {
    forall i | 0 <= i < |window| :: WithinTolerance(window[i].price, Median(window), tolerance)
  }

  function ScanEnds<T>(
    ordered: seq<Offer<T>>, tolerance: real, start: nat, end: nat, best: seq<Offer<T>>): seq<Offer<T>>
    requires start < end <= |ordered| + 1
    decreases |ordered| + 1 - end
  {
    if end > |ordered| then best else
      var window := ordered[start..end];
      ScanEnds(ordered, tolerance, start, end + 1, if Fits(window, tolerance)
        && |window| > |best| then window else best)
  }

  function ScanStarts<T>(ordered: seq<Offer<T>>, tolerance: real, start: nat, best: seq<Offer<T>>): seq<Offer<T>>
    requires start <= |ordered|
    decreases |ordered| - start
  {
    if start == |ordered| then best else
      ScanStarts(ordered, tolerance, start + 1, ScanEnds(ordered, tolerance, start, start + 1, best))
  }

  function BestWindow<T>(ordered: seq<Offer<T>>, tolerance: real): seq<Offer<T>> {
    ScanStarts(ordered, tolerance, 0, [])
  }

  function Cluster<T>(quotes: seq<Offer<T>>, tolerance: real): seq<Offer<T>> {
    BestWindow(SortByPrice(quotes), tolerance)
  }

  /** The nested loops of the source. */
  method ConsensusCluster<T>(quotes: seq<Offer<T>>, tolerance: real) returns (best: seq<Offer<T>>)
    ensures best == Cluster(quotes, tolerance)
  {
    var ordered := SortByPrice(quotes);
    best := [];
    for start := 0 to |ordered|
      invariant ScanStarts(ordered, tolerance, start, best) == BestWindow(ordered, tolerance)
    {
      ghost var rowBest := ScanEnds(ordered, tolerance, start, start + 1, best);
      for end := start + 1 to |ordered| + 1
        invariant ScanEnds(ordered, tolerance, start, end, best) == rowBest
      {
        var window := ordered[start..end];
        if Fits(window, tolerance) && |window| > |best| {
          best := window;
        }
      }
    }
  }

  predicate IsFittingWindow<T>(ordered: seq<Offer<T>>, tolerance: real, start: nat, end: nat) {
    start < end <= |ordered| && Fits(ordered[start..end], tolerance)
  }

  /** `w` is a window of `ordered` that fits. */
  ghost predicate IsWindow<T>(ordered: seq<Offer<T>>, tolerance: real, w: seq<Offer<T>>) {
    exists start: nat, end: nat :: IsFittingWindow(ordered, tolerance, start, end) && w == ordered[start..end]
  }

  lemma {:induction false} ScanEndsIsMaximal<T>(
    ordered: seq<Offer<T>>, tolerance: real, start: nat, end: nat, best: seq<Offer<T>>)
    requires start < end <= |ordered| + 1
    ensures var r := ScanEnds(ordered, tolerance, start, end, best);
            && |best| <= |r|
            && (r == best || IsWindow(ordered, tolerance, r))
            && (forall e: nat :: end <= e && IsFittingWindow(ordered, tolerance, start, e) ==> e - start <= |r|)
    decreases |ordered| + 1 - end
  {
    if end <= |ordered| {
      var window := ordered[start..end];
      var best' := if Fits(window, tolerance) && |window| > |best| then window else best;
      ScanEndsIsMaximal(ordered, tolerance, start, end + 1, best');
      assert Fits(window, tolerance) ==> IsFittingWindow(ordered, tolerance, start, end);
    }
  }

  lemma {:induction false} ScanStartsIsMaximal<T>(
    ordered: seq<Offer<T>>, tolerance: real, start: nat, best: seq<Offer<T>>)
    requires start <= |ordered|
    ensures var r := ScanStarts(ordered, tolerance, start, best);
            && |best| <= |r|
            && (r == best || IsWindow(ordered, tolerance, r))
            && (forall s: nat, e: nat :: start <= s && IsFittingWindow(ordered, tolerance, s, e) ==> e - s <= |r|)
    decreases |ordered| - start
  {
    if start < |ordered| {
      var row := ScanEnds(ordered, tolerance, start, start + 1, best);
      ScanEndsIsMaximal(ordered, tolerance, start, start + 1, best);
      ScanStartsIsMaximal(ordered, tolerance, start + 1, row);
      var r := ScanStarts(ordered, tolerance, start, best);
      assert r == ScanStarts(ordered, tolerance, start + 1, row);
      forall s: nat, e: nat | start <= s && IsFittingWindow(ordered, tolerance, s, e) ensures e - s <= |r| {
        assert s == start ==> e - s <= |row|;
      }
    }
  }

  /** The cluster is empty or a window within tolerance of its own median, and no such window is longer. */
  lemma ClusterIsMaximalWindow<T>(quotes: seq<Offer<T>>, tolerance: real)
    ensures var ordered, r := SortByPrice(quotes), Cluster(quotes, tolerance);
            && Sorted(ordered) && multiset(ordered) == multiset(quotes)
            && (r == [] || (IsWindow(ordered, tolerance, r) && Fits(r, tolerance)))
            && (forall s: nat, e: nat :: IsFittingWindow(ordered, tolerance, s, e) ==> e - s <= |r|)
  {
    SortByPriceSorts(quotes);
    ScanStartsIsMaximal(SortByPrice(quotes), tolerance, 0, []);
  }

  ghost predicate Distinct<T>(s: seq<T>) {
    forall i, j :: 0 <= i < j < |s| ==> s[i] != s[j]
  }

  lemma {:induction false} DistinctCounts<T>(s: seq<T>)
    requires Distinct(s)
    ensures forall x :: multiset(s)[x] <= 1
  {
    if s != [] {
      DistinctCounts(s[1..]);
      assert s == [s[0]] + s[1..];
      assert s[0] !in s[1..];
    }
  }

  /** A permutation of pairwise different elements is pairwise different. */
  lemma PermutationIsDistinct<T>(s: seq<T>, r: seq<T>)
    requires Distinct(s) && multiset(r) == multiset(s)
    ensures Distinct(r)
  {
    DistinctCounts(s);
    forall i, j | 0 <= i < j < |r| ensures r[i] != r[j] {
      assert r == r[..j] + [r[j]] + r[j + 1..];
      assert r[i] in r[..j];
      assert r[i] == r[j] ==> multiset(r)[r[j]] >= 2;
    }
  }

  lemma PermutationMembers<T>(s: seq<T>, r: seq<T>)
    requires multiset(r) == multiset(s)
    ensures forall i | 0 <= i < |r| :: r[i] in s
  {
    forall i | 0 <= i < |r| ensures r[i] in s {
      assert r[i] in multiset(r);
    }
  }

  lemma WindowInherits<T>(s: seq<Offer<T>>, start: nat, end: nat)
    requires start <= end <= |s| && Sorted(s) && Distinct(s)
    ensures Sorted(s[start..end]) && Distinct(s[start..end])
    ensures forall i | 0 <= i < end - start :: s[start..end][i] == s[start + i]
  {
  }

  /** The cluster of pairwise different offers: sorted, within tolerance, drawn from them without repetition. */
  lemma ClusterOfDistinct<T>(offers: seq<Offer<T>>, tolerance: real)
    requires Distinct(offers)
    ensures var c := Cluster(offers, tolerance);
            && Sorted(c) && Distinct(c)
            && (forall i | 0 <= i < |c| :: c[i] in offers)
            && (c == [] || Fits(c, tolerance))
  {
    var ordered, c := SortByPrice(offers), Cluster(offers, tolerance);
    ClusterIsMaximalWindow(offers, tolerance);
    PermutationIsDistinct(offers, ordered);
    PermutationMembers(offers, ordered);
    if c != [] {
      var start: nat, end: nat :| IsFittingWindow(ordered, tolerance, start, end) && c == ordered[start..end];
      WindowInherits(ordered, start, end);
    }
  }

  /** A selection of quotes from the ordered list, contiguous or not. */
  ghost predicate IsSelection(indices: seq<nat>, n: nat) {
    && (forall i :: 0 <= i < |indices| ==> indices[i] < n)
    && (forall i, j :: 0 <= i < j < |indices| ==> indices[i] < indices[j])
  }

  function Select<T>(ordered: seq<Offer<T>>, indices: seq<nat>): (r: seq<Offer<T>>)
    requires forall i :: 0 <= i < |indices| ==> indices[i] < |ordered|
    ensures |r| == |indices|
  {
    seq(|indices|, i requires 0 <= i < |indices| => ordered[indices[i]])
  }

  /** Distinct increasing indices spread out at least as fast as their positions. */
  lemma {:induction false} SelectionSpreads(indices: seq<nat>, n: nat, i: nat, j: nat)
    requires IsSelection(indices, n) && i <= j < |indices|
    ensures indices[j] - indices[i] >= j - i
    decreases j - i
  {
    if i < j {
      SelectionSpreads(indices, n, i, j - 1);
    }
  }

  lemma ToleranceIsConvex(low: real, x: real, high: real, center: Price, tolerance: real)
    requires low <= x <= high
    requires WithinTolerance(low, center, tolerance) && WithinTolerance(high, center, tolerance)
    ensures WithinTolerance(x, center, tolerance)
  {
    DivisionFree(Abs(low - center), center, tolerance);
    DivisionFree(Abs(high - center), center, tolerance);
    DivisionFree(Abs(x - center), center, tolerance);
  }

  /** The elements of a selection that has the same middle as a contiguous window enclose that window. */
  lemma CentredWindowFits<T>(ordered: seq<Offer<T>>, tolerance: real, indices: seq<nat>, start: nat)
    requires Sorted(ordered) && IsSelection(indices, |ordered|) && indices != []
    requires Fits(Select(ordered, indices), tolerance)
    requires start + |indices| <= |ordered|
    requires indices[0] <= start && start + |indices| - 1 <= indices[|indices| - 1]
    requires Median(ordered[start..start + |indices|]) == Median(Select(ordered, indices))
    ensures IsFittingWindow(ordered, tolerance, start, start + |indices|)
  {
    var chosen, n := Select(ordered, indices), |indices|;
    var window := ordered[start..start + n];
    forall k | 0 <= k < n ensures WithinTolerance(window[k].price, Median(window), tolerance) {
      assert window[k] == ordered[start + k];
      ToleranceIsConvex(chosen[0].price, window[k].price, chosen[n - 1].price, Median(window), tolerance);
    }
  }

  /** A selection whose middle sits at `indices[k]` can be traded for the window around that middle. */
  lemma {:induction false} CompactSelection<T>(
    ordered: seq<Offer<T>>, tolerance: real, indices: seq<nat>) returns (start: nat)
    requires Sorted(ordered) && IsSelection(indices, |ordered|) && indices != []
    requires |indices| % 2 == 0 ==> indices[|indices| / 2] == indices[|indices| / 2 - 1] + 1
    requires Fits(Select(ordered, indices), tolerance)
    ensures IsFittingWindow(ordered, tolerance, start, start + |indices|)
  {
    var n, k := |indices|, |indices| / 2;
    SelectionSpreads(indices, |ordered|, 0, k);
    SelectionSpreads(indices, |ordered|, k, n - 1);
    start := indices[k] - k;
    if n % 2 == 0 {
      SelectionSpreads(indices, |ordered|, 0, k - 1);
    }
    CentredWindowFits(ordered, tolerance, indices, start);
  }

  /**
   No odd number of quotes, chosen in any way, agrees within tolerance of its own median and
   outnumbers the cluster; nor does an even number whose two middle quotes are price neighbours.
   */
  lemma ClusterBeatsSelections<T>(quotes: seq<Offer<T>>, tolerance: real, indices: seq<nat>)
    requires IsSelection(indices, |quotes|) && indices != []
    requires |indices| % 2 == 0 ==> indices[|indices| / 2] == indices[|indices| / 2 - 1] + 1
    requires Fits(Select(SortByPrice(quotes), indices), tolerance)
    ensures |indices| <= |Cluster(quotes, tolerance)|
  {
    ClusterIsMaximalWindow(quotes, tolerance);
    var start := CompactSelection(SortByPrice(quotes), tolerance, indices);
  }

  lemma {:induction false} SortKeepsSorted<T>(s: seq<Offer<T>>)
    requires Sorted(s)
    ensures SortByPrice(s) == s
  {
    if s != [] {
      SortKeepsSorted(s[1..]);
    }
  }

  /** A window refuses as soon as one of its quotes is too far from the centre. */
  lemma TooFar<T>(window: seq<Offer<T>>, tolerance: real, i: nat)
    requires i < |window|
    requires Abs(window[i].price - Median(window)) * 100.0 > tolerance * Median(window)
    ensures !Fits(window, tolerance)
  {
    DivisionFree(Abs(window[i].price - Median(window)), Median(window), tolerance);
  }

  lemma ClusterIsShort<T>(quotes: seq<Offer<T>>, tolerance: real, n: nat)
    requires 0 < n && Sorted(quotes)
    requires forall start: nat, end: nat :: start + n <= end <= |quotes| ==> !Fits(quotes[start..end], tolerance)
    ensures |Cluster(quotes, tolerance)| < n
  {
    SortKeepsSorted(quotes);
    ClusterIsMaximalWindow(quotes, tolerance);
  }

  /** Five offers, four of which agree within 5 percent if the third is left out. */
  predicate AreFive<T>(offers: seq<Offer<T>>) {
    && |offers| == 5
    && offers[0].price == 100.0 && offers[1].price == 100.0 && offers[2].price == 106.0
    && offers[3].price == 110.0 && offers[4].price == 110.0
  }

  lemma FourAgree<T>(chosen: seq<Offer<T>>)
    requires |chosen| == 4
    requires chosen[0].price == 100.0 && chosen[1].price == 100.0 && chosen[2].price == 110.0
             && chosen[3].price == 110.0
    ensures Fits(chosen, 5.0)
  {
    assert Median(chosen) == 105.0;
    DivisionFree(Abs(100.0 - 105.0), 105.0, 5.0);
    DivisionFree(Abs(110.0 - 105.0), 105.0, 5.0);
  }

  lemma NoLongWindowOfFiveFits<T>(offers: seq<Offer<T>>, start: nat, end: nat)
    requires AreFive(offers) && start + 4 <= end <= 5
    ensures !Fits(offers[start..end], 5.0)
  {
    if start == 0 && end == 4 {
      TooFar(offers[start..end], 5.0, 3);
    } else {
      TooFar(offers[start..end], 5.0, 0);
    }
  }

  /**
   Contiguity does cost something: of the prices 100, 100, 106, 110, 110 the four that leave out
   106 agree within 5 percent of their median, yet the cluster has at most three members.
   */
  lemma EvenSelectionMayOutnumber<T>(offers: seq<Offer<T>>, indices: seq<nat>)
    requires AreFive(offers) && indices == [0, 1, 3, 4]
    ensures IsSelection(indices, |offers|) && Fits(Select(SortByPrice(offers), indices), 5.0)
    ensures |Cluster(offers, 5.0)| < |indices|
  {
    SortKeepsSorted(offers);
    FourAgree(Select(offers, indices));
    forall start: nat, end: nat | start + 4 <= end <= |offers| ensures !Fits(offers[start..end], 5.0) {
      NoLongWindowOfFiveFits(offers, start, end);
    }
    ClusterIsShort(offers, 5.0, 4);
  }

  /** Offers of 100, 108 and 200 at 5 percent: the cluster is the near pair, whose median is 104. */
  lemma ClusterOfNearPair<T>(offers: seq<Offer<T>>)
    requires |offers| == 3 && offers[0].price == 100.0 && offers[1].price == 108.0 && offers[2].price == 200.0
    ensures Cluster(offers, 5.0) == offers[..2]
  {
    SortKeepsSorted(offers);
    ClusterIsMaximalWindow(offers, 5.0);
    PairFits(offers[0..2]);
    assert IsFittingWindow(offers, 5.0, 0, 2);
    TooFar(offers[1..3], 5.0, 0);
    assert offers[0..3] == offers;
    TooFar(offers, 5.0, 2);
  }

  lemma PairFits<T>(pair: seq<Offer<T>>)
    requires |pair| == 2 && pair[0].price == 100.0 && pair[1].price == 108.0
    ensures Fits(pair, 5.0)
  {
    assert Median(pair) == 104.0;
    DivisionFree(Abs(100.0 - 104.0), 104.0, 5.0);
    DivisionFree(Abs(108.0 - 104.0), 104.0, 5.0);
  }

  // ----- ties -------------------------------------------------------------------------------------

  function AtPriceOne<T>(q: Offer<T>, price: real): seq<Offer<T>> {
    if q.price == price then [q] else []
  }

  function AtPrice<T>(s: seq<Offer<T>>, price: real): seq<Offer<T>> {
    if s == [] then [] else AtPriceOne(s[0], price) + AtPrice(s[1..], price)
  }

  lemma AtPriceCons<T>(q: Offer<T>, s: seq<Offer<T>>, price: real)
    ensures AtPrice([q] + s, price) == AtPriceOne(q, price) + AtPrice(s, price)
  {
    assert ([q] + s)[1..] == s;
  }

  lemma SwapsWithEmpty<T>(a: seq<T>, b: seq<T>, rest: seq<T>)
    requires a == [] || b == []
    ensures a + (b + rest) == b + (a + rest)
  {
  }

  lemma {:induction false} InsertIsStable<T>(q: Offer<T>, s: seq<Offer<T>>, price: real)
    requires Sorted(s)
    ensures AtPrice(Insert(q, s), price) == AtPriceOne(q, price) + AtPrice(s, price)
  {
    if s == [] || q.price <= s[0].price {
      AtPriceCons(q, s, price);
    } else {
      InsertIsStable(q, s[1..], price);
      AtPriceCons(s[0], Insert(q, s[1..]), price);
      SwapsWithEmpty(AtPriceOne(s[0], price), AtPriceOne(q, price), AtPrice(s[1..], price));
    }
  }

  /** Quotes of the same price keep their order, so the first of them stays the first. */
  lemma {:induction false} SortIsStable<T>(s: seq<Offer<T>>, price: real)
    ensures AtPrice(SortByPrice(s), price) == AtPrice(s, price)
  {
    if s != [] {
      SortIsStable(s[1..], price);
      SortByPriceSorts(s[1..]);
      InsertIsStable(s[0], SortByPrice(s[1..]), price);
    }
  }

  lemma ToleranceExactlyWhen(price: real, center: Price, tolerance: real)
    ensures WithinTolerance(price, center, tolerance) <==> Within(price, center, tolerance)
  {
    DivisionFree(Abs(price - center), center, tolerance);
  }

  /** A window fits exactly when every price is off the median by at most the tolerance, in percent of the median. */
  lemma FitsExactlyWhen<T>(window: seq<Offer<T>>, tolerance: real)
    requires window != []
    ensures Fits(window, tolerance)
            <==> forall i | 0 <= i < |window| :: Within(window[i].price, Median(window), tolerance)
  {
    forall i | 0 <= i < |window|
      ensures WithinTolerance(window[i].price, Median(window), tolerance)
              <==> Within(window[i].price, Median(window), tolerance)
    {
      ToleranceExactlyWhen(window[i].price, Median(window), tolerance);
    }
  }

  /** The median has as many prices below it as above it: half of them are on either side. */
  lemma MedianIsMiddle<T>(window: seq<Offer<T>>)
    requires window != [] && Sorted(window)
    ensures var n := |window|;
            && (forall i | 0 <= i < n && 2 * i <= n - 1 :: window[i].price <= Median(window))
            && (forall i | 0 <= i < n && 2 * i >= n - 1 :: Median(window) <= window[i].price)
            && (n % 2 == 0 ==>
                  Median(window) - window[n / 2 - 1].price == window[n / 2].price - Median(window))
  {
  }

  // ----- which of the largest windows ---------------------------------------------------------------

  /** The scan over the ends of a row takes the first fitting window that beats what it has. */
  ghost predicate IsFirstLargest<T>(ordered: seq<Offer<T>>, tolerance: real, from: nat, start: nat, r: seq<Offer<T>>) {
    && start + |r| <= |ordered| && r == ordered[start..start + |r|]
    && (forall s: nat, e: nat :: from <= s < start && IsFittingWindow(ordered, tolerance, s, e) ==> e - s < |r|)
  }

  lemma {:induction false} ScanEndsKeepsOrExtends<T>(
    ordered: seq<Offer<T>>, tolerance: real, start: nat, end: nat, best: seq<Offer<T>>)
    requires start < end <= |ordered| + 1
    ensures var r := ScanEnds(ordered, tolerance, start, end, best);
            r == best || (|best| < |r| && start + |r| <= |ordered| && r == ordered[start..start + |r|])
    decreases |ordered| + 1 - end
  {
    if end <= |ordered| {
      var window := ordered[start..end];
      ScanEndsKeepsOrExtends(ordered, tolerance, start, end + 1,
                             if Fits(window, tolerance) && |window| > |best| then window else best);
    }
  }

  lemma {:induction false} ScanStartsFindsFirst<T>(
    ordered: seq<Offer<T>>, tolerance: real, start: nat, best: seq<Offer<T>>)
    returns (at: nat)
    requires start <= |ordered|
    ensures var r := ScanStarts(ordered, tolerance, start, best);
            r == best || (start <= at && |best| < |r| && IsFirstLargest(ordered, tolerance, start, at, r))
    decreases |ordered| - start
  {
    at := start;
    if start < |ordered| {
      var row := ScanEnds(ordered, tolerance, start, start + 1, best);
      ScanEndsIsMaximal(ordered, tolerance, start, start + 1, best);
      ScanEndsKeepsOrExtends(ordered, tolerance, start, start + 1, best);
      var later := ScanStartsFindsFirst(ordered, tolerance, start + 1, row);
      if ScanStarts(ordered, tolerance, start + 1, row) != row {
        at := later;
        var r := ScanStarts(ordered, tolerance, start, best);
        forall s: nat, e: nat | start <= s < at && IsFittingWindow(ordered, tolerance, s, e) ensures e - s < |r| {
          assert s == start ==> e - s <= |row|;
        }
      }
    }
  }

  /** Of several largest windows the cluster is the one of the lowest prices. */
  lemma ClusterIsFirst<T>(quotes: seq<Offer<T>>, tolerance: real) returns (at: nat)
    requires Cluster(quotes, tolerance) != []
    ensures IsFirstLargest(SortByPrice(quotes), tolerance, 0, at, Cluster(quotes, tolerance))
  {
    at := ScanStartsFindsFirst(SortByPrice(quotes), tolerance, 0, []);
  }
}
