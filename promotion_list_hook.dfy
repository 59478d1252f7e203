/** The promotion list hook: option defaults, the cache key, the request it
    sends, and what it derives from the response. */
module PromotionListHook {
  import opened Wrappers
  import opened Catalog
  import opened PageMath
  import opened ListResponse

  /** The hook's options; each may be left out. */
  datatype Options = Options(
    idCategory: Option<int>, minDiscount: Option<int>, maxDiscount: Option<int>,
    sortBy: Option<SortBy>, page: Option<int>, pageSize: Option<int>)

  /** The options after defaults: the filter parameters of one listing request. */
  datatype Params = Params(
    idCategory: Option<int>, minDiscount: Option<int>, maxDiscount: Option<int>,
    sortBy: SortBy, page: int, pageSize: int)

  const DefaultSortBy: SortBy := MaiorDesconto
  const DefaultPage: int := 1
  const DefaultPageSize: int := 12

  function OrDefault<T>(o: Option<T>, default: T): (r: T)
    ensures o.Some? ==> r == o.value
    ensures o.None? ==> r == default
  {
    if o.Some? then o.value else default
  }

  /** Destructuring with defaults: a default replaces only a missing option,
      never a given one (a given page 0 stays 0); the bounds and the category
      have no default. */
  function Resolve(o: Options): (p: Params)
    ensures p.idCategory == o.idCategory && p.minDiscount == o.minDiscount && p.maxDiscount == o.maxDiscount
    ensures p.sortBy == OrDefault(o.sortBy, DefaultSortBy)
    ensures p.page == OrDefault(o.page, DefaultPage) && p.pageSize == OrDefault(o.pageSize, DefaultPageSize)
  {
    Params(o.idCategory, o.minDiscount, o.maxDiscount,
      OrDefault(o.sortBy, DefaultSortBy), OrDefault(o.page, DefaultPage), OrDefault(o.pageSize, DefaultPageSize))
  }

  /** The options that give every parameter explicitly. */
  function Explicit(p: Params): Options
  {
    Options(p.idCategory, p.minDiscount, p.maxDiscount, Some(p.sortBy), Some(p.page), Some(p.pageSize))
  }

  /** Defaults never override: explicit options resolve to themselves, and no
      options resolve to sort `maior_desconto`, page 1, 12 per page. */
  lemma ResolveKeepsGivenValues(p: Params)
    ensures Resolve(Explicit(p)) == p
    ensures Resolve(Options(None, None, None, None, None, None)) == Params(None, None, None, MaiorDesconto, 1, 12)
  {
  }

  /** The cache key: the scope "promotions" and all six resolved parameters. */
  datatype QueryKey = QueryKey(scope: string, params: Params)

  function QueryKeyOf(o: Options): (k: QueryKey)
    ensures k.scope == "promotions"
  {
    QueryKey("promotions", Resolve(o))
  }

  /** The parameters handed to the promotion HTTP client. */
  function RequestOf(o: Options): Params
  {
    Resolve(o)
  }

  /** The key holds exactly the request's parameters: two option sets share a
      cache entry exactly when they send the same request, so a change of any
      resolved parameter changes the key. */
  lemma KeyIdentifiesRequest(o1: Options, o2: Options)
    ensures QueryKeyOf(o1).params == RequestOf(o1)
    ensures QueryKeyOf(o1) == QueryKeyOf(o2) <==> RequestOf(o1) == RequestOf(o2)
  {
  }

  /** What the hook returns (loading flag, error and refetch left out). */
  datatype HookResult = HookResult(
    promotions: seq<Promotion>, total: int, page: int, pageSize: int, totalPages: PageCount)

  /** The hook, given the cached response for its key (none while loading or
      after an error). */
  function UsePromotionList(o: Options, response: Option<ListResponse<Promotion>>): (r: HookResult)
    ensures r.page == RequestOf(o).page && r.pageSize == RequestOf(o).pageSize
    ensures r.promotions == ItemsOrEmpty(response) && r.total == TotalOrZero(response)
    ensures r.totalPages == TotalPages(r.total, r.pageSize)
  {
    var p := Resolve(o);
    var total := TotalOrZero(response);
    HookResult(ItemsOrEmpty(response), total, p.page, p.pageSize, TotalPages(total, p.pageSize))
  }

  /** Without a response there are no promotions, the total is 0 and, for a
      positive page size, there are no pages. */
  lemma NoResponseNoPages(o: Options)
    requires RequestOf(o).pageSize > 0
    ensures UsePromotionList(o, None) == HookResult([], 0, RequestOf(o).page, RequestOf(o).pageSize, Finite(0))
  {
    TotalPagesIsLeastCover(0, RequestOf(o).pageSize);
  }

  /** With a positive page size and a non-negative total, `totalPages` is 0
      exactly for a total of 0 and is the least page count that holds every item. */
  lemma TotalPagesCoverTotal(o: Options, response: Option<ListResponse<Promotion>>)
    requires RequestOf(o).pageSize > 0 && TotalOrZero(response) >= 0
    ensures var r := UsePromotionList(o, response);
      && r.totalPages.Finite?
      && (r.total == 0 <==> r.totalPages.pages == 0)
      && (r.totalPages.pages - 1) * r.pageSize < r.total <= r.totalPages.pages * r.pageSize
      && forall k :: k * r.pageSize >= r.total ==> k >= r.totalPages.pages
  {
    var r := UsePromotionList(o, response);
    TotalPagesIsLeastCover(r.total, r.pageSize);
  }
}
