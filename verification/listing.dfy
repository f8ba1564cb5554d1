/** The product listing page (app/page.tsx): the paginated accumulation of
    products, the request each fetch sends, and the state the page keeps
    between user actions. */
module Listing {

  import opened Wrappers
  import opened Text
  import opened QueryString
  import opened Products
  import opened SortProjection
  import opened CategoryDirectory

  /** `limit`: the number of products requested per page. */
  const PageSize: nat := 12

  /** The message shown once a product fetch has failed. */
  const FetchFailedMessage: string := "Failed to fetch products"

  /** How one product fetch ended: the `products` of a decoded OK response, or
      a failure (non-OK status, network error, undecodable body). */
  datatype FetchOutcome = Success(items: seq<Product>) | Failure

  /** The page and category a fetch was started for, as its closure saw them. */
  datatype PageRequest = PageRequest(page: nat, category: string)
  {
    /** `(page - 1) * limit`. */
    function Skip(): (r: nat)
      requires page >= 1
      ensures r % PageSize == 0 && r / PageSize == page - 1
    {
      (page - 1) * PageSize
    }

    /** The query the page writes: `limit`, then `skip`, then `category`
        unless the category is "all". */
    function Query(): (r: string)
      requires page >= 1
      ensures r == Encode(Params())
    {
      var limit := "limit=" + NatToDecimal(PageSize);
      var skip := "skip=" + NatToDecimal(Skip());
      var pcs := Pieces(Params());
      assert pcs[0] == limit && pcs[1] == skip;
      if category != "all" then
        var cat := "category=" + category;
        assert pcs[2] == cat;
        assert pcs == [limit, skip, cat];
        JoinThree(limit, skip, cat, '&');
        QueryWithCategory(NatToDecimal(PageSize), NatToDecimal(Skip()), category);
        "limit=" + NatToDecimal(PageSize) + "&skip=" + NatToDecimal(Skip()) + "&category=" + category
      else
        assert pcs == [limit, skip];
        JoinCons(limit, [skip], '&');
        assert "&skip=" == "&" + "skip=";
        "limit=" + NatToDecimal(PageSize) + "&skip=" + NatToDecimal(Skip())
    }

    /** The parameters of the request, in the order they are written. */
    function Params(): (r: seq<Param>)
      requires page >= 1
      ensures |r| == if category != "all" then 3 else 2
      ensures r[0] == ("limit", "12") && r[1] == ("skip", NatToDecimal(Skip()))
      ensures category != "all" ==> r[2] == ("category", category)
    {
      assert NatToDecimal(PageSize) == "12" by {
        assert NatToDecimal(1) == "1" && NatToDecimal(2) == "2";
      }
      [("limit", NatToDecimal(PageSize)), ("skip", NatToDecimal(Skip()))]
        + (if category != "all" then [("category", category)] else [])
    }

    /** The URL `fetchProducts` requests. */
    function Url(): (r: string)
      requires page >= 1
      ensures r == "/api/products?" + Encode(Params())
    {
      "/api/products?" + Query()
    }
  }

  lemma JoinThree(a: string, b: string, c: string, sep: char)
    ensures Join([a, b, c], sep) == a + [sep] + b + [sep] + c
  {
    JoinCons(a, [b, c], sep);
    JoinCons(b, [c], sep);
    assert [b, c][1..] == [c];
  }

  lemma QueryWithCategory(l: string, k: string, c: string)
    ensures "limit=" + l + "&skip=" + k + "&category=" + c
         == ("limit=" + l) + "&" + ("skip=" + k) + "&" + ("category=" + c)
  {
    assert "&skip=" == "&" + "skip=";
    assert "&category=" == "&" + "category=";
  }

  /** What a reader of the query finds: `limit` is "12", `skip` is the decimal
      text of `(page - 1) * 12`, and `category` is present exactly when the
      category is not "all". */
  lemma RequestParameters(req: PageRequest)
    requires req.page >= 1
    requires PlainValue(req.category)
    ensures Get(Parse(req.Query()), "limit") == Some("12")
    ensures Get(Parse(req.Query()), "skip") == Some(NatToDecimal(req.Skip()))
    ensures DecimalValue(Get(Parse(req.Query()), "skip").value) == (req.page - 1) * 12
    ensures Get(Parse(req.Query()), "category") == if req.category != "all" then Some(req.category) else None
  {
    ParseQuery(req);
    DecimalRoundTrip(req.Skip());
  }

  /** Reading the written query gives back the parameter list. */
  lemma ParseQuery(req: PageRequest)
    requires req.page >= 1
    requires PlainValue(req.category)
    ensures Parse(req.Query()) == req.Params()
  {
    var ps := req.Params();
    var skip := NatToDecimal(req.Skip());
    assert '&' !in skip by {
      forall k | 0 <= k < |skip| ensures skip[k] != '&' {
        assert IsDigit(skip[k]);
      }
    }
    assert forall i :: 0 <= i < |ps| ==> '&' !in ps[i].1;
    ParseEncode(ps);
  }

  /** The products after a successful page: page 1 replaces the accumulation,
      any later page appends to it. */
  function MergePage(acc: seq<Product>, page: nat, items: seq<Product>): (r: seq<Product>)
    ensures page == 1 ==> r == items
    ensures page != 1 ==> acc <= r && |r| == |acc| + |items| && r[|acc|..] == items
  {
    if page == 1 then items else acc + items
  }

  /** The state of the listing page: the accumulated products and their
      projection, the categories, the two selections, and the fetch state. */
  class ListingPage {
    var products: seq<Product>
    var filteredProducts: seq<Product>
    var categories: seq<string>
    var selectedCategory: string
    var sortOption: string
    var loading: bool
    var error: string
    var page: nat
    var hasMore: bool

    /** Pages are numbered from 1; the only error the page ever shows is the
        product-fetch failure. */
    ghost predicate Valid()
      reads this
    {
      page >= 1 && (error == "" || error == FetchFailedMessage)
    }

    /** The initial state of the page before its first fetch starts. */
    constructor ()
      ensures Valid()
      ensures products == [] && filteredProducts == [] && categories == []
      ensures selectedCategory == "all" && sortOption == "default"
      ensures loading && error == "" && page == 1 && hasMore
    {
      products := [];
      filteredProducts := [];
      categories := [];
      selectedCategory := "all";
      sortOption := "default";
      loading := true;
      error := "";
      page := 1;
      hasMore := true;
    }

    /** The first half of `fetchProducts`: mark the page as loading and send
        the request for the current page and category. */
    method StartFetch() returns (req: PageRequest)
      requires Valid()
      modifies this`loading
      ensures Valid() && loading
      ensures req == PageRequest(page, selectedCategory) && req.page >= 1
    {
      loading := true;
      req := PageRequest(page, selectedCategory);
    }

    /** The second half of `fetchProducts`: merge the outcome of the request
        `req` was sent for. The page number captured in `req` decides between
        replace and append; nothing checks that it is still the current one. */
    method ResolveFetch(req: PageRequest, outcome: FetchOutcome)
      requires Valid()
      modifies this`products, this`hasMore, this`loading, this`error
      ensures Valid() && !loading
      ensures outcome.Success? ==> products == MergePage(old(products), req.page, outcome.items)
      ensures outcome.Success? ==> (hasMore <==> |outcome.items| == 12)
      ensures outcome.Success? ==> error == old(error)
      ensures outcome.Failure? ==> products == old(products) && hasMore == old(hasMore)
      ensures outcome.Failure? ==> error == FetchFailedMessage
    {
      match outcome {
        case Success(items) =>
          if req.page == 1 {
            products := items;
          } else {
            products := products + items;
          }
          hasMore := |items| == PageSize;
        case Failure =>
          error := FetchFailedMessage;
      }
      loading := false;
    }

    /** `handleCategoryChange`: select the category and go back to page 1. */
    method HandleCategoryChange(category: string)
      requires Valid()
      modifies this`selectedCategory, this`page
      ensures Valid()
      ensures selectedCategory == category && page == 1
    {
      selectedCategory := category;
      page := 1;
    }

    /** `loadMore`: ask for the next page unless a fetch is running or the
        last page was short. */
    method LoadMore()
      requires Valid()
      modifies this`page
      ensures Valid()
      ensures page == if !loading && hasMore then old(page) + 1 else old(page)
    {
      if !loading && hasMore {
        page := page + 1;
      }
    }

    /** `onSortChange`, which is `setSortOption` itself. */
    method ChangeSort(option: string)
      requires Valid()
      modifies this`sortOption
      ensures Valid() && sortOption == option
    {
      sortOption := option;
    }

    /** `filterAndSortProducts`, run whenever the products or the sort option
        change: only the projection is written. */
    method RefreshProjection()
      requires Valid()
      modifies this`filteredProducts
      ensures Valid()
      ensures filteredProducts == Project(products, sortOption)
    {
      filteredProducts := Project(products, sortOption);
    }

    /** `fetchCategories`: store the sanitised category list. */
    method ReceiveCategories(fetch: CategoryFetch)
      requires Valid()
      modifies this`categories
      ensures Valid()
      ensures categories == SanitizeCategories(fetch)
    {
      categories := SanitizeCategories(fetch);
    }
  }

  /** A full first page followed by a short second page: 12 + 5 products, and
      no further page is offered. */
  method FullThenShortPage(first: seq<Product>, second: seq<Product>) returns (listing: ListingPage)
    requires |first| == 12 && |second| == 5
    ensures listing.Valid()
    ensures listing.products == first + second && |listing.products| == 17
    ensures !listing.hasMore && !listing.loading && listing.page == 2
  {
    listing := new ListingPage();
    var req1 := listing.StartFetch();
    listing.ResolveFetch(req1, Success(first));
    assert listing.hasMore;
    listing.LoadMore();
    var req2 := listing.StartFetch();
    assert req2.page == 2;
    listing.ResolveFetch(req2, Success(second));
  }

  /** The first fetch is still in flight when the category changes and a
      second fetch starts; the first fails, the second succeeds. The second
      page is stored in `products`, but the error set by the first is never
      cleared, so the page keeps rendering only the error message. */
  method FailureIsSticky(beautyPage: seq<Product>) returns (listing: ListingPage)
    ensures listing.Valid()
    ensures listing.error == FetchFailedMessage
    ensures listing.selectedCategory == "beauty"
    ensures listing.products == beautyPage && !listing.loading
  {
    listing := new ListingPage();
    var first := listing.StartFetch();
    listing.HandleCategoryChange("beauty");
    var second := listing.StartFetch();
    listing.ResolveFetch(first, Failure);
    assert second.page == 1;
    listing.ResolveFetch(second, Success(beautyPage));
  }

  /** A page-2 request still in flight when the category changes is appended
      to the new category's first page once it resolves. */
  method LateAppendAfterCategoryChange(first: seq<Product>, beautyPage: seq<Product>, late: seq<Product>)
    returns (listing: ListingPage)
    requires |first| == 12
    ensures listing.Valid()
    ensures listing.selectedCategory == "beauty" && listing.page == 1
    ensures listing.products == beautyPage + late
  {
    listing := new ListingPage();
    var req1 := listing.StartFetch();
    listing.ResolveFetch(req1, Success(first));
    listing.LoadMore();
    var req2 := listing.StartFetch();
    listing.HandleCategoryChange("beauty");
    var req3 := listing.StartFetch();
    listing.ResolveFetch(req3, Success(beautyPage));
    assert req2.page == 2;
    listing.ResolveFetch(req2, Success(late));
  }

  /** `loadMore` while a fetch is running changes nothing. */
  method LoadMoreWhileLoading() returns (listing: ListingPage)
    ensures listing.Valid() && listing.loading && listing.page == 1
  {
    listing := new ListingPage();
    var req := listing.StartFetch();
    listing.LoadMore();
  }
}
