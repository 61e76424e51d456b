/**
  The flight search page: the search text it derives from the URL, the request it sends to the
  flights API, the client-side re-ordering of the page it gets back, and its pager.
*/
module ResourcesPage {
  import opened Common
  import opened Records
  import opened Sorting
  import ResourcesRoute

  /** Cards per page. */
  const Limit: int := 12

  /**
    The initial search built from the `origin` and `destination` URL parameters: the non-empty
    ones joined by one space, or none when both are absent or empty.
  */
  function UrlSearch(origin: Option<string>, destination: Option<string>): (search: Option<string>)
    ensures search.Some? <==> TruthyString(origin) || TruthyString(destination)
    ensures TruthyString(origin) && TruthyString(destination) ==> search == Some(origin.value + " " + destination.value)
    ensures TruthyString(origin) && !TruthyString(destination) ==> search == origin
    ensures !TruthyString(origin) && TruthyString(destination) ==> search == destination
    ensures search.Some? ==> search.value != ""
  {
    if TruthyString(origin) && TruthyString(destination) then Some(origin.value + " " + destination.value)
    else if TruthyString(origin) then origin
    else if TruthyString(destination) then destination
    else None
  }

  /** The query string of a listing request: page, limit, and the search only when non-empty. */
  datatype Query = Query(page: int, limit: int, search: Option<string>)

  function QueryFor(page: int, debouncedSearch: string): (q: Query)
    ensures q.page == page && q.limit == Limit
    ensures q.search.Some? <==> debouncedSearch != ""
    ensures q.search.Some? ==> q.search.value == debouncedSearch
  {
    Query(page, Limit, if debouncedSearch != "" then Some(debouncedSearch) else None)
  }

  /** What a listing request gave: a failure (network, HTTP status or body) or the body's fields. */
  datatype Fetched = FetchFailed | Fetched(data: Option<seq<Resource>>, total: Option<nat>)

  /** Sort keys of the three client-side modes; each sorts ascending by its key. */
  function PriceLow(r: Resource): int { r.priceInCents }

  function PriceHigh(r: Resource): int { -r.priceInCents }

  function MostAvailable(r: Resource): int { -r.availableSlots }

  /** The key of a sort mode; any other mode ("newest") keeps the server's order. */
  function SortKey(sortBy: string): (key: Option<Resource -> int>)
    ensures key.Some? <==> sortBy in {"price-low", "price-high", "available"}
  {
    if sortBy == "price-low" then Some(PriceLow)
    else if sortBy == "price-high" then Some(PriceHigh)
    else if sortBy == "available" then Some(MostAvailable)
    else None
  }

  /** The order the page shows a fetched page of flights in. */
  function Arranged(rows: seq<Resource>, sortBy: string): seq<Resource> {
    if SortKey(sortBy).Some? then InsertionSort(rows, SortKey(sortBy).value) else rows
  }

  /**
    Re-ordering shows the same flights, and orders them by ascending price, descending price or
    descending free seats as the mode says; any other mode shows the server's order.
  */
  lemma ArrangedOrders(rows: seq<Resource>, sortBy: string)
    ensures multiset(Arranged(rows, sortBy)) == multiset(rows)
    ensures var s := Arranged(rows, sortBy);
            sortBy == "price-low" ==> forall i, j :: 0 <= i < j < |s| ==> s[i].priceInCents <= s[j].priceInCents
    ensures var s := Arranged(rows, sortBy);
            sortBy == "price-high" ==> forall i, j :: 0 <= i < j < |s| ==> s[i].priceInCents >= s[j].priceInCents
    ensures var s := Arranged(rows, sortBy);
            sortBy == "available" ==> forall i, j :: 0 <= i < j < |s| ==> s[i].availableSlots >= s[j].availableSlots
    ensures SortKey(sortBy).None? ==> Arranged(rows, sortBy) == rows
  {
    if SortKey(sortBy).Some? {
      var key := SortKey(sortBy).value;
      InsertionSortPermutes(rows, key);
      InsertionSortSorted(rows, key);
      var s := InsertionSort(rows, key);
      forall i, j | 0 <= i < j < |s|
        ensures key(s[i]) <= key(s[j])
      {
      }
    }
  }

  /** Flights that tie under a mode's key keep the server's (newest-first) order. */
  lemma ArrangedKeepsTies(rows: seq<Resource>, sortBy: string, k: int)
    requires SortKey(sortBy).Some?
    ensures WithKey(Arranged(rows, sortBy), SortKey(sortBy).value, k) == WithKey(rows, SortKey(sortBy).value, k)
  {
    InsertionSortStable(rows, SortKey(sortBy).value, k);
  }

  /** The number of pages for `total` flights: the least count of 12-card pages holding them. */
  function Pages(total: nat): (pages: nat)
    ensures total <= pages * Limit
    ensures pages == 0 || (pages - 1) * Limit < total
  {
    CeilDiv(total, Limit)
  }

  /** The "previous" button's target; the button is disabled exactly when it would stay put. */
  function PrevTarget(page: int): (p: int)
    ensures p >= 1
    ensures page >= 1 ==> p <= page && (p == page <==> page == 1)
    ensures page > 1 ==> p == page - 1
  {
    Max(1, page - 1)
  }

  /** The "next" button's target; the button is disabled exactly when it would stay put. */
  function NextTarget(page: int, pages: int): (p: int)
    ensures p <= pages
    ensures page <= pages ==> page <= p && (p == page <==> page == pages)
    ensures page < pages ==> p == page + 1
  {
    Min(pages, page + 1)
  }

  /**
    The numbered buttons as written: up to five consecutive numbers from two below the current
    page (but at least 1). Near the last page they run past it.
  */
  function PageButtons(page: int, pages: int): (w: seq<int>)
    ensures |w| == Max(0, Min(5, pages))
    ensures forall i :: 0 <= i < |w| ==> w[i] == Max(1, page - 2) + i && w[i] >= 1
  {
    seq(Max(0, Min(5, pages)), i => Max(1, page - 2) + i)
  }

  /** On the last of five pages the buttons read 3, 4, 5, 6, 7: two of them name missing pages. */
  lemma ButtonsPastLastPage()
    ensures PageButtons(5, 5) == [3, 4, 5, 6, 7]
    ensures exists i :: 0 <= i < |PageButtons(5, 5)| && PageButtons(5, 5)[i] > 5
  {
    assert PageButtons(5, 5)[4] == 7;
  }

  /**
    The buttons as evidently intended: the same five-wide window, shifted left near the end so
    that every button names an existing page and the current page is among them.
  */
  function PagerButtons(page: int, pages: int): (w: seq<int>)
    requires 1 <= page <= pages
    ensures |w| == Min(5, pages)
    ensures forall i :: 0 <= i < |w| ==> 1 <= w[i] <= pages
    ensures forall i :: 0 < i < |w| ==> w[i] == w[i - 1] + 1
    ensures exists i :: 0 <= i < |w| && w[i] == page
    ensures Max(1, page - 2) + Min(5, pages) - 1 <= pages ==> w == PageButtons(page, pages)
  {
    var start := Max(1, Min(page - 2, pages - 4));
    var w := seq(Min(5, pages), i => start + i);
    assert w[page - start] == page;
    w
  }

  /** The page's state: the cards shown, the total they come from, the page and the sort mode. */
  class Page {
    var resources: seq<Resource>
    var total: nat
    var page: int
    var sortBy: string

    constructor ()
      ensures resources == [] && total == 0 && page == 1 && sortBy == "newest"
    {
      resources, total, page, sortBy := [], 0, 1, "newest";
    }

    /**
      Stores the outcome of a listing request: on success the returned flights in the current
      sort mode's order (sorted in place) with the returned total, 0 when absent; on failure no
      flights and a total of 0.
    */
    method FetchResources(response: Fetched)
      modifies this
      ensures response.FetchFailed? ==> resources == [] && total == 0
      ensures response.Fetched? ==>
                resources == Arranged(if response.data.Some? then response.data.value else [], sortBy)
                && total == (if response.total.Some? then response.total.value else 0)
      ensures page == old(page) && sortBy == old(sortBy)
    {
      match response
      case FetchFailed =>
        resources, total := [], 0;
      case Fetched(data, t) =>
        var rows := if data.Some? then data.value else [];
        var a := new Resource[|rows|](i requires 0 <= i < |rows| => rows[i]);
        assert a[..] == rows;
        var key := SortKey(sortBy);
        if key.Some? {
          SortInPlace(a, key.value);
        }
        resources := a[..];
        total := if t.Some? then t.value else 0;
    }
  }

  /**
    A successful request shows at most one page of flights, all of them flights that match the
    search, and the pager's page count is the one the API computed.
  */
  lemma ShownPageMatchesApi(rows: seq<Resource>, page: int, debouncedSearch: string, sortBy: string)
    requires page >= 1
    ensures var q := QueryFor(page, debouncedSearch);
            var l := ResourcesRoute.Get(rows, Some(q.page), Some(q.limit), q.search).value;
            var shown := Arranged(l.data, sortBy);
            && |shown| <= Limit
            && (forall x :: x in shown ==> x in rows && ResourcesRoute.MatchesSearch(x, debouncedSearch))
            && Pages(l.total) == l.pages
  {
    var q := QueryFor(page, debouncedSearch);
    var l := ResourcesRoute.Get(rows, Some(q.page), Some(q.limit), q.search).value;
    ArrangedOrders(l.data, sortBy);
    var shown := Arranged(l.data, sortBy);
    assert OrElse(q.search, "") == debouncedSearch;
    forall x | x in shown
      ensures x in rows && ResourcesRoute.MatchesSearch(x, debouncedSearch)
    {
      assert x in multiset(shown);
    }
  }
}
