/** The promotions page: its filter and page state, the handlers that change
    it, the parsing of the selected discount range, and the options it hands
    to the promotion list hook. */
module Promotions {
  import opened Wrappers
  import opened Falsy
  import opened Catalog
  import opened Decimal
  import opened PromotionFilters
  import Hook = PromotionListHook
  import opened PageMath
  import opened ListResponse
  import Pagination

  /** The page always asks for twelve promotions per page. */
  const PageSize: int := 12

  /** The bounds read from a discount-range string; a missing bound is undefined. */
  datatype DiscountBounds = DiscountBounds(min: Option<ParsedNumber>, max: Option<ParsedNumber>)

  /** `getDiscountRange`: no range (or the empty string, which is falsy) gives
      no bounds; otherwise the string is split at '-' and the first two pieces
      are read as numbers, the second being undefined when there is no '-'. */
  function GetDiscountRange(range: Option<string>): (b: DiscountBounds)
    ensures range.None? || range == Some("") ==> b == DiscountBounds(None, None)
    ensures range.Some? && range.value != "" ==> b.min.Some?
    ensures range.Some? && range.value != "" && '-' !in range.value ==>
      b == DiscountBounds(Some(ToNumber(range.value)), None)
  {
    if range.None? || range.value == "" then DiscountBounds(None, None)
    else
      var parts := Split(range.value, '-');
      SplitNoSeparatorIfAbsent(range.value);
      DiscountBounds(Some(ToNumber(parts[0])), if |parts| > 1 then Some(ToNumber(parts[1])) else None)
  }

  lemma SplitNoSeparatorIfAbsent(s: string)
    ensures '-' !in s ==> Split(s, '-') == [s]
  {
    if '-' !in s {
      SplitNoSeparator(s, '-');
    }
  }

  /** Reading "lo-hi" gives back lo and hi. */
  lemma DiscountRangeRoundTrip(lo: nat, hi: nat)
    ensures GetDiscountRange(Some(FormatRange(lo, hi))) == DiscountBounds(Some(Integral(lo)), Some(Integral(hi)))
  {
    var a, b := NatToString(lo), NatToString(hi);
    NatToStringRoundTrip(lo);
    NatToStringRoundTrip(hi);
    assert '-' !in a by {
      forall i | 0 <= i < |a| ensures a[i] != '-' { assert IsDigit(a[i]); }
    }
    assert '-' !in b by {
      forall i | 0 <= i < |b| ensures b[i] != '-' { assert IsDigit(b[i]); }
    }
    assert FormatRange(lo, hi) == a + ['-'] + b;
    SplitPair(a, '-', b);
  }

  /** Every value of the filter table reads back as that option's own bounds;
      the "all discounts" option gives no bounds. */
  lemma TableRangesReadBack()
    ensures GetDiscountRange(DiscountRanges[0].value) == DiscountBounds(None, None)
    ensures forall i :: 1 <= i < |DiscountRanges| ==>
      DiscountRanges[i].min.Some? && DiscountRanges[i].max.Some? &&
      GetDiscountRange(DiscountRanges[i].value) ==
        DiscountBounds(Some(Integral(DiscountRanges[i].min.value)), Some(Integral(DiscountRanges[i].max.value)))
  {
    DiscountTableShape();
    forall i | 1 <= i < |DiscountRanges|
      ensures GetDiscountRange(DiscountRanges[i].value) ==
        DiscountBounds(Some(Integral(DiscountRanges[i].min.value)), Some(Integral(DiscountRanges[i].max.value)))
    {
      DiscountRangeRoundTrip(DiscountRanges[i].min.value, DiscountRanges[i].max.value);
    }
  }

  /** A bound that was read as an integer, or undefined. */
  function BoundValue(b: Option<ParsedNumber>): (r: Option<int>)
    requires b.None? || b.value.Integral?
    ensures b.None? <==> r.None?
    ensures b.Some? ==> r == Some(b.value.value)
  {
    if b.Some? then Some(b.value.value) else None
  }

  /** The hook options for a page state whose discount range came from the
      filter table: the category (`selectedCategory || undefined`, so 0 counts
      as none), the range's bounds, the
      sort, the current page, and twelve per page. */
  function HookOptionsFor(category: Option<int>, range: Option<string>, sortBy: SortBy, page: int): (o: Hook.Options)
    requires range in DiscountValues()
    ensures o.idCategory == OrAbsent(category)
    ensures o.sortBy == Some(sortBy) && o.page == Some(page) && o.pageSize == Some(PageSize)
    ensures range.None? ==> o.minDiscount.None? && o.maxDiscount.None?
    ensures forall i :: 1 <= i < |DiscountRanges| && range == DiscountRanges[i].value ==>
      o.minDiscount == DiscountRanges[i].min && o.maxDiscount == DiscountRanges[i].max
  {
    TableRangesReadBack();
    var bounds := GetDiscountRange(range);
    Hook.Options(OrAbsent(category), BoundValue(bounds.min), BoundValue(bounds.max), Some(sortBy), Some(page), Some(PageSize))
  }

  /** With no promotions to list (no response yet, or a total of 0), the page
      count is 0 and the pagination control renders nothing. */
  lemma EmptyListingHidesPagination(
    category: Option<int>, range: Option<string>, sortBy: SortBy, page: int,
    response: Option<ListResponse<Promotion>>)
    requires range in DiscountValues()
    requires TotalOrZero(response) == 0
    ensures var r := Hook.UsePromotionList(HookOptionsFor(category, range, sortBy, page), response);
      r.totalPages == Finite(0) && Pagination.Render(page, r.totalPages.pages).Hidden?
  {
    TotalPagesIsLeastCover(0, PageSize);
  }

  /** The page's state: selected category, selected discount range, sort and
      current page. */
  class PromotionsPage {
    var selectedCategory: Option<int>
    var selectedDiscountRange: Option<string>
    var sortBy: SortBy
    var currentPage: int

    /** The discount range is always one of the filter table's values. */
    ghost predicate Valid()
      reads this
    {
      selectedDiscountRange in DiscountValues()
    }

    /** No category, all discounts, largest discount first, page 1. */
    constructor ()
      ensures Valid()
      ensures selectedCategory == None && selectedDiscountRange == None
      ensures sortBy == MaiorDesconto && currentPage == 1
    {
      selectedCategory := None;
      selectedDiscountRange := None;
      sortBy := MaiorDesconto;
      currentPage := 1;
      assert DiscountRanges[0].value == None;
    }

    /** The options the page hands to the promotion list hook: the category
        with 0 counting as none, the selected range's bounds, the sort, the
        current page and twelve per page. */
    function HookOptions(): (o: Hook.Options)
      reads this
      requires Valid()
      ensures o.idCategory == OrAbsent(selectedCategory)
      ensures o.sortBy == Some(sortBy) && o.page == Some(currentPage) && o.pageSize == Some(PageSize)
      ensures selectedDiscountRange.None? ==> o.minDiscount.None? && o.maxDiscount.None?
      ensures forall i :: 1 <= i < |DiscountRanges| && selectedDiscountRange == DiscountRanges[i].value ==>
        o.minDiscount == DiscountRanges[i].min && o.maxDiscount == DiscountRanges[i].max
    {
      HookOptionsFor(selectedCategory, selectedDiscountRange, sortBy, currentPage)
    }

    method HandleCategoryChange(categoryId: Option<int>)
      requires Valid()
      modifies this
      ensures Valid()
      ensures selectedCategory == categoryId && currentPage == 1
      ensures selectedDiscountRange == old(selectedDiscountRange) && sortBy == old(sortBy)
      ensures Hook.RequestOf(HookOptions()) ==
        old(Hook.RequestOf(HookOptions())).(idCategory := OrAbsent(categoryId), page := 1)
    {
      selectedCategory := categoryId;
      currentPage := 1;
    }

    /** Called by the filter panel with one of its table's values. */
    method HandleDiscountRangeChange(range: Option<string>)
      requires Valid() && range in DiscountValues()
      modifies this
      ensures Valid()
      ensures selectedDiscountRange == range && currentPage == 1
      ensures selectedCategory == old(selectedCategory) && sortBy == old(sortBy)
      ensures Hook.RequestOf(HookOptions()) ==
        old(Hook.RequestOf(HookOptions())).(minDiscount := HookOptions().minDiscount,
                                            maxDiscount := HookOptions().maxDiscount, page := 1)
      ensures range.None? ==> Hook.RequestOf(HookOptions()).minDiscount.None? && Hook.RequestOf(HookOptions()).maxDiscount.None?
      ensures forall i :: 1 <= i < |DiscountRanges| && range == DiscountRanges[i].value ==>
        Hook.RequestOf(HookOptions()).minDiscount == DiscountRanges[i].min &&
        Hook.RequestOf(HookOptions()).maxDiscount == DiscountRanges[i].max
    {
      selectedDiscountRange := range;
      currentPage := 1;
    }

    method HandleSortChange(sort: SortBy)
      requires Valid()
      modifies this
      ensures Valid()
      ensures sortBy == sort && currentPage == 1
      ensures selectedCategory == old(selectedCategory) && selectedDiscountRange == old(selectedDiscountRange)
      ensures Hook.RequestOf(HookOptions()) == old(Hook.RequestOf(HookOptions())).(sortBy := sort, page := 1)
    {
      sortBy := sort;
      currentPage := 1;
    }

    /** A page change moves to the page and leaves every filter as it was. */
    method HandlePageChange(page: int)
      requires Valid()
      modifies this
      ensures Valid()
      ensures currentPage == page
      ensures selectedCategory == old(selectedCategory) && selectedDiscountRange == old(selectedDiscountRange)
      ensures sortBy == old(sortBy)
      ensures Hook.RequestOf(HookOptions()) == old(Hook.RequestOf(HookOptions())).(page := page)
    {
      currentPage := page;
    }
  }
}
