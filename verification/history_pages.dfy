/** The page loop of a history fetch (`_execute_history_job` in backfill.py). */
module HistoryPages {
  import opened Wrappers

  const FULL_PAGE := 500
  const MAXIMUM_POINTS := 20_000
  const LAST_PAGE: nat := 41

  datatype Point = Point(at: int, price: real, volume: Option<real>)

  /** What asking for a page can lead to: before the request, on the wire, or a parsed page. */
  datatype Fetch = NotOwned | NoBudget | Rejected | Page(points: seq<Point>, rawCount: nat)

  datatype HistoryError = LostOwnership | OutOfBudget | RequestFailed | Conflict | DidNotAdvance | LimitExceeded

  type Pages = nat -> Fetch

  type Seen = map<int, Point>

  // ----- merging pages ------------------------------------------------------------------------

  function Merge(seen: Seen, points: seq<Point>): Option<Seen> {
    if points == [] then Some(seen) else
      var n := |points| - 1;
      var before :- Merge(seen, points[..n]);
      MergePoint(before, points[n])
  }

  /** One more point: new, already known, or in conflict with what is known. */
  function MergePoint(seen: Seen, p: Point): Option<Seen> {
    if p.at !in seen then Some(seen[p.at := p]) else if seen[p.at] == p then Some(seen) else None
  }

  /** No two points disagree at an instant. */
  ghost predicate IsConsistent(points: seq<Point>) {
    forall i, j :: 0 <= i < j < |points| && points[i].at == points[j].at ==> points[i] == points[j]
  }

  /** `seen` holds exactly the given points, by instant. */
  ghost predicate Holds(seen: Seen, points: seq<Point>) {
    && (forall p <- points :: p.at in seen && seen[p.at] == p)
    && (forall t <- seen :: seen[t] in points && seen[t].at == t)
  }

  lemma HoldsIsConsistent(seen: Seen, points: seq<Point>)
    requires Holds(seen, points)
    ensures IsConsistent(points)
  {
    forall i, j | 0 <= i < j < |points| && points[i].at == points[j].at ensures points[i] == points[j] {
      assert points[i] in points && points[j] in points;
    }
  }

  lemma {:induction false} MergeHolds(points: seq<Point>)
    ensures Merge(map[], points).Some? ==> Holds(Merge(map[], points).value, points)
  {
    if points != [] {
      var n := |points| - 1;
      MergeHolds(points[..n]);
      assert points == points[..n] + [points[n]];
    }
  }

  lemma {:induction false} ConsistentMerges(points: seq<Point>)
    requires IsConsistent(points)
    ensures Merge(map[], points).Some?
  {
    if points != [] {
      var n := |points| - 1;
      ConsistentMerges(points[..n]);
      MergeHolds(points[..n]);
      var before, p := Merge(map[], points[..n]).value, points[n];
      if p.at in before {
        var i :| 0 <= i < n && points[..n][i] == before[p.at];
        assert points[i] == points[n];
      }
    }
  }

  /** Pages merge exactly when no two of their points disagree, and then into exactly those points. */
  lemma MergeMeaning(points: seq<Point>)
    ensures Merge(map[], points).Some? <==> IsConsistent(points)
    ensures Merge(map[], points).Some? ==> Holds(Merge(map[], points).value, points)
  {
    MergeHolds(points);
    if IsConsistent(points) {
      ConsistentMerges(points);
    }
    if Merge(map[], points).Some? {
      HoldsIsConsistent(Merge(map[], points).value, points);
    }
  }

  lemma {:induction false} MergeConcat(seen: Seen, a: seq<Point>, b: seq<Point>)
    ensures Merge(seen, a + b) == if Merge(seen, a).None? then None else Merge(Merge(seen, a).value, b)
  {
    if b == [] {
      assert a + b == a;
    } else {
      var n := |b| - 1;
      assert (a + b)[..|a + b| - 1] == a + b[..n];
      MergeConcat(seen, a, b[..n]);
    }
  }

  // ----- the loop as a function ---------------------------------------------------------------

  function PaginateFrom(pages: Pages, page: nat, seen: Seen): Result<Seen, HistoryError>
    requires 1 <= page <= LAST_PAGE
    decreases LAST_PAGE - page
  {
    match pages(page)
    case NotOwned => Failure(LostOwnership)
    case NoBudget => Failure(OutOfBudget)
    case Rejected => Failure(RequestFailed)
    case Page(points, rawCount) =>
      var merged := Merge(seen, points);
      if merged.None? then Failure(Conflict)
      else if rawCount < FULL_PAGE then Success(merged.value)
      else if merged.value.Keys == seen.Keys then Failure(DidNotAdvance)
      else if |merged.value| > MAXIMUM_POINTS || page >= LAST_PAGE then Failure(LimitExceeded)
      else PaginateFrom(pages, page + 1, merged.value)
  }

  /** In time order, without repetitions, and exactly the points that were seen. */
  ghost predicate IsTimeline(points: seq<Point>, seen: Seen) {
    && (forall i, j :: 0 <= i < j < |points| ==> points[i].at < points[j].at)
    && (forall p <- points :: p.at in seen && seen[p.at] == p)
    && (forall t <- seen :: seen[t] in points)
  }

  ghost predicate IsWellKeyed(seen: Seen) {
    forall t <- seen :: seen[t].at == t
  }

  lemma {:induction false} MergeKeepsKeys(seen: Seen, points: seq<Point>)
    requires IsWellKeyed(seen)
    ensures Merge(seen, points).Some? ==>
              IsWellKeyed(Merge(seen, points).value) && seen.Keys <= Merge(seen, points).value.Keys
  {
    if points != [] {
      MergeKeepsKeys(seen, points[..|points| - 1]);
    }
  }

  /** `sorted` by instant: take the earliest remaining point until none is left. */
  method SortByTime(seen: Seen) returns (points: seq<Point>)
    requires IsWellKeyed(seen)
    ensures IsTimeline(points, seen)
  {
    points := [];
    var rest := seen;
    while rest != map[]
      invariant rest.Keys <= seen.Keys && forall t <- rest :: rest[t] == seen[t]
      invariant forall i, j :: 0 <= i < j < |points| ==> points[i].at < points[j].at
      invariant forall p <- points :: p.at in seen && seen[p.at] == p && p.at !in rest
      invariant forall t <- seen :: t in rest || seen[t] in points
      invariant forall p <- points :: forall t <- rest :: p.at < t
      decreases |rest|
    {
      var earliest := Earliest(rest);
      points := points + [rest[earliest]];
      rest := rest - {earliest};
    }
  }

  method Earliest(seen: Seen) returns (earliest: int)
    requires seen != map[]
    ensures earliest in seen && forall t <- seen :: earliest <= t
  {
    var rest := seen.Items;
    var first: (int, Point) :| first in rest;
    earliest := first.0;
    rest := rest - {first};
    while rest != {}
      invariant rest <= seen.Items && earliest in seen
      invariant forall t <- seen :: (t, seen[t]) in rest || earliest <= t
    {
      var item: (int, Point) :| item in rest;
      if item.0 < earliest {
        earliest := item.0;
      }
      rest := rest - {item};
    }
  }

  lemma MergeOneMore(seen: Seen, points: seq<Point>, i: nat)
    requires i < |points|
    ensures Merge(seen, points[..i + 1])
            == if Merge(seen, points[..i]).None? then None else MergePoint(Merge(seen, points[..i]).value, points[i])
  {
    assert points[..i + 1][..i] == points[..i];
  }

  /** The loop over the points of one page. */
  method MergePage(before: Seen, points: seq<Point>) returns (merged: Option<Seen>, added: nat)
    ensures merged == Merge(before, points)
    ensures merged.Some? ==> (added == 0 <==> merged.value.Keys == before.Keys)
  {
    var seen := before;
    added := 0;
    for i := 0 to |points|
      invariant Merge(before, points[..i]) == Some(seen)
      invariant before.Keys <= seen.Keys && (added == 0 <==> seen.Keys == before.Keys)
    {
      MergeOneMore(before, points, i);
      var p := points[i];
      if p.at in seen {
        if seen[p.at] != p {
          MergeFails(before, points, i + 1);
          return None, added;
        }
      } else {
        seen := seen[p.at := p];
        added := added + 1;
      }
    }
    assert points[..|points|] == points;
    merged := Some(seen);
  }

  /** The loop: fetch, merge, stop at a short page. */
  method FetchHistory(pages: Pages) returns (r: Result<seq<Point>, HistoryError>, requests: nat)
    ensures requests <= 41
    ensures var spec := PaginateFrom(pages, 1, map[]);
            if spec.Success? then r.Success? && IsTimeline(r.value, spec.value) else r == Failure(spec.error)
  {
    var page: nat := 1;
    var seen: Seen := map[];
    requests := 0;
    while true
      invariant 1 <= page <= LAST_PAGE && requests == page - 1
      invariant IsWellKeyed(seen)
      invariant PaginateFrom(pages, 1, map[]) == PaginateFrom(pages, page, seen)
      decreases LAST_PAGE - page
    {
      match pages(page) {
        case NotOwned => return Failure(LostOwnership), requests;
        case NoBudget => return Failure(OutOfBudget), requests;
        case Rejected => return Failure(RequestFailed), requests + 1;
        case Page(points, rawCount) =>
          requests := requests + 1;
          MergeKeepsKeys(seen, points);
          var merged, added := MergePage(seen, points);
          if merged.None? {
            return Failure(Conflict), requests;
          }
          seen := merged.value;
          if rawCount < FULL_PAGE {
            var timeline := SortByTime(seen);
            return Success(timeline), requests;
          }
          if added == 0 {
            return Failure(DidNotAdvance), requests;
          }
          if |seen| > MAXIMUM_POINTS || page >= LAST_PAGE {
            return Failure(LimitExceeded), requests;
          }
          page := page + 1;
      }
    }
  }

  lemma {:induction false} MergeFails(seen: Seen, points: seq<Point>, n: nat)
    requires n <= |points| && Merge(seen, points[..n]).None?
    ensures Merge(seen, points).None?
  {
    assert points == points[..n] + points[n..];
    MergeConcat(seen, points[..n], points[n..]);
  }

  // ----- when a fetch succeeds ----------------------------------------------------------------

  /** The points of pages 1 to n, in the order in which they came. */
  function AllPoints(pages: Pages, n: nat): seq<Point> {
    if n == 0 then [] else AllPoints(pages, n - 1) + if pages(n).Page? then pages(n).points else []
  }

  function Times(points: seq<Point>): set<int> {
    set p <- points :: p.at
  }

  /** Page k was full, brought something new, and left room for more. */
  ghost predicate GoesOn(pages: Pages, k: nat) {
    && 1 <= k
    && pages(k).Page? && pages(k).rawCount >= 500
    && Times(AllPoints(pages, k)) != Times(AllPoints(pages, k - 1))
    && |Times(AllPoints(pages, k))| <= 20_000
  }

  ghost predicate AllGoOn(pages: Pages, n: nat) {
    forall k: nat | 1 <= k < n :: GoesOn(pages, k)
  }

  /** Page n is the first short one, within the page limit, and no two pages disagree anywhere. */
  ghost predicate Completes(pages: Pages, n: nat) {
    && 1 <= n <= 41 && AllGoOn(pages, n)
    && pages(n).Page? && pages(n).rawCount < 500
    && IsConsistent(AllPoints(pages, n))
  }

  lemma KeysAreTimes(points: seq<Point>)
    requires Merge(map[], points).Some?
    ensures Merge(map[], points).value.Keys == Times(points)
    ensures |Merge(map[], points).value| == |Times(points)|
  {
    MergeMeaning(points);
    var m := Merge(map[], points).value;
    forall t | t in m ensures t in Times(points) {
      assert m[t] in points;
    }
    assert m.Keys == Times(points);
  }

  lemma MergeNextPage(pages: Pages, page: nat, seen: Seen)
    requires 1 <= page && pages(page).Page? && Merge(map[], AllPoints(pages, page - 1)) == Some(seen)
    ensures Merge(map[], AllPoints(pages, page)) == Merge(seen, pages(page).points)
  {
    MergeConcat(map[], AllPoints(pages, page - 1), pages(page).points);
  }

  lemma {:induction false} EarlierPagesMerge(pages: Pages, k: nat, n: nat)
    requires k <= n && Merge(map[], AllPoints(pages, n)).Some?
    ensures Merge(map[], AllPoints(pages, k)).Some?
    decreases n - k
  {
    if k < n {
      MergeConcat(map[], AllPoints(pages, n - 1), if pages(n).Page? then pages(n).points else []);
      EarlierPagesMerge(pages, k, n - 1);
    }
  }

  /** The points of the first k pages, merged. */
  function SeenAfter(pages: Pages, k: nat): Seen {
    Merge(map[], AllPoints(pages, k)).GetOr(map[])
  }

  /** The loop gets past page k: it merges, and it is either the short page n or full, new and within bounds. */
  ghost predicate Passes(pages: Pages, k: nat, n: nat) {
    && 1 <= k && pages(k).Page?
    && Merge(SeenAfter(pages, k - 1), pages(k).points) == Some(SeenAfter(pages, k))
    && (if k == n then pages(k).rawCount < FULL_PAGE
        else
          && pages(k).rawCount >= FULL_PAGE
          && SeenAfter(pages, k).Keys != SeenAfter(pages, k - 1).Keys
          && |SeenAfter(pages, k)| <= MAXIMUM_POINTS)
  }

  /** The loop gets past the pages from this one to the last, page n. */
  ghost predicate AllPass(pages: Pages, page: nat, n: nat)
    decreases n - page
  {
    page <= n ==> Passes(pages, page, n) && AllPass(pages, page + 1, n)
  }

  lemma {:induction false} EachPasses(pages: Pages, page: nat, n: nat, k: nat)
    requires AllPass(pages, page, n) && page <= k <= n
    ensures Passes(pages, k, n)
    decreases k - page
  {
    if page < k {
      EachPasses(pages, page + 1, n, k);
    }
  }

  lemma {:induction false} CompletionPassesAll(pages: Pages, page: nat, n: nat)
    requires 1 <= page && Completes(pages, n)
    ensures AllPass(pages, page, n)
    decreases n - page
  {
    if page <= n {
      CompletionPasses(pages, page, n);
      CompletionPassesAll(pages, page + 1, n);
    }
  }

  lemma CompletionPasses(pages: Pages, k: nat, n: nat)
    requires 1 <= k <= n && Completes(pages, n)
    ensures Passes(pages, k, n)
  {
    assert k < n ==> GoesOn(pages, k);
    MergeMeaning(AllPoints(pages, n));
    EarlierPagesMerge(pages, k, n);
    EarlierPagesMerge(pages, k - 1, n);
    MergeNextPage(pages, k, SeenAfter(pages, k - 1));
    KeysAreTimes(AllPoints(pages, k - 1));
    KeysAreTimes(AllPoints(pages, k));
  }

  /** A page of a successful fetch passes: it is the last, or the fetch goes on with what has been seen. */
  lemma SuccessfulPage(pages: Pages, page: nat)
    requires 1 <= page <= LAST_PAGE && Merge(map[], AllPoints(pages, page - 1)).Some?
    requires PaginateFrom(pages, page, SeenAfter(pages, page - 1)).Success?
    ensures pages(page).Page? && Merge(map[], AllPoints(pages, page)) == Some(SeenAfter(pages, page))
    ensures var r := PaginateFrom(pages, page, SeenAfter(pages, page - 1));
            if pages(page).rawCount < FULL_PAGE then Passes(pages, page, page) && r == Success(SeenAfter(pages, page))
            else
              && page < LAST_PAGE && r == PaginateFrom(pages, page + 1, SeenAfter(pages, page))
              && forall n: nat | page < n :: Passes(pages, page, n)
  {
    MergeNextPage(pages, page, SeenAfter(pages, page - 1));
  }

  lemma {:induction false} SuccessPasses(pages: Pages, page: nat) returns (n: nat)
    requires 1 <= page <= LAST_PAGE && Merge(map[], AllPoints(pages, page - 1)).Some?
    requires PaginateFrom(pages, page, SeenAfter(pages, page - 1)).Success?
    ensures page <= n <= LAST_PAGE && AllPass(pages, page, n)
    ensures Merge(map[], AllPoints(pages, n)) == Some(PaginateFrom(pages, page, SeenAfter(pages, page - 1)).value)
    decreases LAST_PAGE - page
  {
    SuccessfulPage(pages, page);
    if pages(page).rawCount < FULL_PAGE {
      n := page;
    } else {
      n := SuccessPasses(pages, page + 1);
    }
  }

  lemma PassingGoesOn(pages: Pages, k: nat, n: nat)
    requires 1 <= k < n && Passes(pages, k, n) && Merge(map[], AllPoints(pages, n)).Some?
    ensures GoesOn(pages, k)
  {
    EarlierPagesMerge(pages, k, n);
    EarlierPagesMerge(pages, k - 1, n);
    KeysAreTimes(AllPoints(pages, k - 1));
    KeysAreTimes(AllPoints(pages, k));
  }

  lemma PassingCompletes(pages: Pages, n: nat)
    requires 1 <= n <= LAST_PAGE && Merge(map[], AllPoints(pages, n)).Some?
    requires AllPass(pages, 1, n)
    ensures Completes(pages, n)
  {
    MergeMeaning(AllPoints(pages, n));
    EachPasses(pages, 1, n, n);
    forall k: nat | 1 <= k < n ensures GoesOn(pages, k) {
      EachPasses(pages, 1, n, k);
      PassingGoesOn(pages, k, n);
    }
  }

  lemma {:induction false} PassingSucceeds(pages: Pages, page: nat, n: nat)
    requires 1 <= page <= n <= LAST_PAGE && AllPass(pages, page, n)
    ensures PaginateFrom(pages, page, SeenAfter(pages, page - 1)).Success?
    decreases n - page
  {
    if page < n {
      PassingSucceeds(pages, page + 1, n);
    }
  }

  /**
   A fetch succeeds exactly when some page within the limit is the first short one, every page
   before it brought something new, and no two points of all pages disagree at an instant; it then
   holds exactly the union of all pages.
   */
  lemma FetchSucceedsExactlyWhen(pages: Pages)
    ensures PaginateFrom(pages, 1, map[]).Success? <==> exists n: nat :: Completes(pages, n)
    ensures PaginateFrom(pages, 1, map[]).Success? ==>
              exists n: nat :: Completes(pages, n) && Holds(PaginateFrom(pages, 1, map[]).value, AllPoints(pages, n))
  {
    if PaginateFrom(pages, 1, map[]).Success? {
      var n := SuccessPasses(pages, 1);
      PassingCompletes(pages, n);
      MergeMeaning(AllPoints(pages, n));
    }
    if n: nat :| Completes(pages, n) {
      CompletionPassesAll(pages, 1, n);
      PassingSucceeds(pages, 1, n);
    }
  }

  // ----- why a fetch fails ------------------------------------------------------------------------------

  lemma GoingOnPasses(pages: Pages, i: nat, k: nat)
    requires i < k && GoesOn(pages, i) && IsConsistent(AllPoints(pages, i))
    ensures Passes(pages, i, k)
  {
    MergeMeaning(AllPoints(pages, i));
    EarlierPagesMerge(pages, i - 1, i);
    MergeNextPage(pages, i, SeenAfter(pages, i - 1));
    KeysAreTimes(AllPoints(pages, i - 1));
    KeysAreTimes(AllPoints(pages, i));
  }

  lemma {:induction false} PassingReaches(pages: Pages, page: nat, k: nat)
    requires 1 <= page <= k <= 41 && forall i: nat | page <= i < k :: Passes(pages, i, k)
    ensures PaginateFrom(pages, page, SeenAfter(pages, page - 1)) == PaginateFrom(pages, k, SeenAfter(pages, k - 1))
    decreases k - page
  {
    if page < k {
      assert Passes(pages, page, k);
      PassingReaches(pages, page + 1, k);
    }
  }

  lemma EarlierIsConsistent(pages: Pages, i: nat, k: nat)
    requires i <= k && IsConsistent(AllPoints(pages, k))
    ensures IsConsistent(AllPoints(pages, i))
  {
    MergeMeaning(AllPoints(pages, k));
    EarlierPagesMerge(pages, i, k);
    MergeMeaning(AllPoints(pages, i));
  }

  lemma GoodPagesReach(pages: Pages, k: nat)
    requires 1 <= k <= 41 && AllGoOn(pages, k) && IsConsistent(AllPoints(pages, k - 1))
    ensures PaginateFrom(pages, 1, map[]) == PaginateFrom(pages, k, SeenAfter(pages, k - 1))
  {
    forall i: nat | 1 <= i < k ensures Passes(pages, i, k) {
      assert GoesOn(pages, i);
      EarlierIsConsistent(pages, i, k - 1);
      GoingOnPasses(pages, i, k);
    }
    assert SeenAfter(pages, 0) == map[];
    PassingReaches(pages, 1, k);
  }

  /**
   A fetch whose first k - 1 pages were full, new and consistent fails at page k for the reason that page
   gives: the job is lost, the budget is refused, the request fails, a point is in conflict, a full page
   brings nothing new, or there is too much.
   */
  lemma FailureIsNamed(pages: Pages, k: nat)
    requires 1 <= k <= 41 && AllGoOn(pages, k) && IsConsistent(AllPoints(pages, k - 1))
    ensures var r := PaginateFrom(pages, 1, map[]);
            && (pages(k).NotOwned? ==> r == Failure(LostOwnership))
            && (pages(k).NoBudget? ==> r == Failure(OutOfBudget))
            && (pages(k).Rejected? ==> r == Failure(RequestFailed))
            && (pages(k).Page? ==>
                  var isFull := pages(k).rawCount >= 500;
                  var isNew := Times(AllPoints(pages, k)) != Times(AllPoints(pages, k - 1));
                  var isTooMuch := |Times(AllPoints(pages, k))| > 20_000 || k == 41;
                  && (!IsConsistent(AllPoints(pages, k)) ==> r == Failure(Conflict))
                  && (IsConsistent(AllPoints(pages, k)) && isFull && !isNew ==> r == Failure(DidNotAdvance))
                  && (IsConsistent(AllPoints(pages, k)) && isFull && isNew && isTooMuch
                     ==> r == Failure(LimitExceeded)))
  {
    GoodPagesReach(pages, k);
    MergeMeaning(AllPoints(pages, k - 1));
    KeysAreTimes(AllPoints(pages, k - 1));
    if pages(k).Page? {
      MergeNextPage(pages, k, SeenAfter(pages, k - 1));
      MergeMeaning(AllPoints(pages, k));
      if IsConsistent(AllPoints(pages, k)) {
        KeysAreTimes(AllPoints(pages, k));
      }
    }
  }
}
