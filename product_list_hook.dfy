/** The product list hook: option defaults, the cache key, the request it
    sends, and what it derives from the response. */
module ProductListHook {
  import opened Wrappers
  import opened Catalog
  import opened PageMath
  import opened ListResponse

  /** The hook's options; each may be left out. */
  datatype Options = Options(idCategory: Option<int>, page: Option<int>, pageSize: Option<int>)

  /** The options after defaults: the parameters of one listing request. */
  datatype Params = Params(idCategory: Option<int>, page: int, pageSize: int)

  const DefaultPage: int := 1
  const DefaultPageSize: int := 12

  /** Destructuring with defaults: page 1 and 12 per page replace only
      missing options; the category has no default. */
  function Resolve(o: Options): (p: Params)
    ensures p.idCategory == o.idCategory
    ensures o.page.Some? ==> p.page == o.page.value
    ensures o.page.None? ==> p.page == DefaultPage
    ensures o.pageSize.Some? ==> p.pageSize == o.pageSize.value
    ensures o.pageSize.None? ==> p.pageSize == DefaultPageSize
  {
    Params(o.idCategory,
      if o.page.Some? then o.page.value else DefaultPage,
      if o.pageSize.Some? then o.pageSize.value else DefaultPageSize)
  }

  /** The cache key: the scope "products" and the three resolved parameters. */
  datatype QueryKey = QueryKey(scope: string, params: Params)

  function QueryKeyOf(o: Options): (k: QueryKey)
    ensures k.scope == "products"
  {
    QueryKey("products", Resolve(o))
  }

  /** The parameters handed to the product HTTP client. */
  function RequestOf(o: Options): Params
  {
    Resolve(o)
  }

  /** The key holds exactly the request's parameters, and explicit options
      resolve to themselves. */
  lemma KeyIdentifiesRequest(o1: Options, o2: Options)
    ensures QueryKeyOf(o1).params == RequestOf(o1)
    ensures QueryKeyOf(o1) == QueryKeyOf(o2) <==> RequestOf(o1) == RequestOf(o2)
    ensures Resolve(Options(RequestOf(o1).idCategory, Some(RequestOf(o1).page), Some(RequestOf(o1).pageSize))) == RequestOf(o1)
  {
  }

  /** What the hook returns (loading flag, error and refetch left out). */
  datatype HookResult = HookResult(
    products: seq<Product>, total: int, page: int, pageSize: int, totalPages: PageCount)

  /** The hook, given the cached response for its key (none while loading or
      after an error). */
  function UseProductList(o: Options, response: Option<ListResponse<Product>>): (r: HookResult)
    ensures r.page == RequestOf(o).page && r.pageSize == RequestOf(o).pageSize
    ensures r.products == ItemsOrEmpty(response) && r.total == TotalOrZero(response)
    ensures r.totalPages == TotalPages(r.total, r.pageSize)
  {
    var p := Resolve(o);
    var total := TotalOrZero(response);
    HookResult(ItemsOrEmpty(response), total, p.page, p.pageSize, TotalPages(total, p.pageSize))
  }

  /** With a positive page size and a non-negative total, `totalPages` is the
      least page count that holds every item. */
  lemma TotalPagesCoverTotal(o: Options, response: Option<ListResponse<Product>>)
    requires RequestOf(o).pageSize > 0 && TotalOrZero(response) >= 0
    ensures var r := UseProductList(o, response);
      && r.totalPages.Finite?
      && (r.totalPages.pages - 1) * r.pageSize < r.total <= r.totalPages.pages * r.pageSize
      && forall k :: k * r.pageSize >= r.total ==> k >= r.totalPages.pages
  {
    var r := UseProductList(o, response);
    TotalPagesIsLeastCover(r.total, r.pageSize);
  }
}
