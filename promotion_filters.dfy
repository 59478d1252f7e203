/** The promotion filter panel: category buttons, the fixed discount-range
    table and the sort drop-down, with which button is shown as selected. */
module PromotionFilters {
  import opened Wrappers
  import opened Catalog
  import opened Decimal

  /** One discount-range choice: its text, the value handed to the page
      (none for "all discounts") and its bounds in percent. */
  datatype DiscountOption = DiscountOption(text: string, value: Option<string>, min: Option<int>, max: Option<int>)

  /** The spelling "min-max" of a discount range. */
  function FormatRange(lo: nat, hi: nat): string
  {
    NatToString(lo) + "-" + NatToString(hi)
  }

  /** The fixed table of discount ranges, in display order. */
  const DiscountRanges: seq<DiscountOption> := [
    DiscountOption("Todos os descontos", None, None, None),
    DiscountOption("Até 10%", Some("0-10"), Some(0), Some(10)),
    DiscountOption("10% a 30%", Some("10-30"), Some(10), Some(30)),
    DiscountOption("30% a 50%", Some("30-50"), Some(30), Some(50)),
    DiscountOption("Acima de 50%", Some("50-100"), Some(50), Some(100))
  ]

  /** The values a discount button can hand to the page. */
  function DiscountValues(): set<Option<string>>
  {
    set i | 0 <= i < |DiscountRanges| :: DiscountRanges[i].value
  }

  /** The first option is "all discounts" with no value and no bounds; every
      other option has both bounds, with 0 <= min < max <= 100, its value is
      the spelling "min-max" of its own bounds, and each range ends where the
      next begins, so that together they cover 0..100. */
  lemma DiscountTableShape()
    ensures DiscountRanges[0].value.None? && DiscountRanges[0].min.None? && DiscountRanges[0].max.None?
    ensures forall i :: 1 <= i < |DiscountRanges| ==>
      var r := DiscountRanges[i];
      && r.min.Some? && r.max.Some?
      && 0 <= r.min.value < r.max.value <= 100
      && r.value == Some(FormatRange(r.min.value, r.max.value))
    ensures DiscountRanges[1].min == Some(0) && DiscountRanges[|DiscountRanges| - 1].max == Some(100)
    ensures forall i :: 1 <= i < |DiscountRanges| - 1 ==> DiscountRanges[i].max == DiscountRanges[i + 1].min
  {
    assert NatToString(10) == "10";
    assert NatToString(30) == "30";
    assert NatToString(50) == "50";
    assert NatToString(100) == "100";
    assert FormatRange(0, 10) == "0-10";
    assert FormatRange(10, 30) == "10-30";
    assert FormatRange(30, 50) == "30-50";
    assert FormatRange(50, 100) == "50-100";
  }

  /** No two options share a value. */
  lemma DiscountValuesDistinct()
    ensures forall i, j :: 0 <= i < j < |DiscountRanges| ==> DiscountRanges[i].value != DiscountRanges[j].value
  {
    assert "0-10"[1] != "10-30"[1] && "0-10"[1] != "30-50"[1] && "0-10"[1] != "50-100"[1];
    assert "10-30"[0] != "30-50"[0] && "10-30"[0] != "50-100"[0];
    assert "30-50"[0] != "50-100"[0];
  }

  /** A button of the panel: its text, whether it is shown as selected, and
      what a click on it hands to the page. */
  datatype Button<T> = Button(text: string, selected: bool, onClick: T)

  /** What the panel renders: a spinner while categories load, otherwise the
      category buttons ("Todas" first), the discount buttons and the sort options. */
  datatype FiltersView =
    | Spinner
    | Filters(
        categoryButtons: seq<Button<Option<int>>>,
        discountButtons: seq<Button<Option<string>>>,
        sortOptions: seq<SortBy>,
        selectedSort: SortBy)

  function Render(
    categories: seq<Category>, selectedCategory: Option<int>, selectedDiscountRange: Option<string>,
    sortBy: SortBy, isLoading: bool): (v: FiltersView)
    ensures v.Spinner? <==> isLoading
    ensures v.Filters? ==>
      && |v.categoryButtons| == |categories| + 1
      && v.categoryButtons[0] == Button("Todas", selectedCategory.None?, None)
      && (forall i :: 0 <= i < |categories| ==>
            v.categoryButtons[i + 1].onClick == Some(categories[i].idCategory) &&
            v.categoryButtons[i + 1].text == categories[i].name)
      && |v.discountButtons| == |DiscountRanges|
      && (forall i :: 0 <= i < |DiscountRanges| ==>
            v.discountButtons[i].onClick == DiscountRanges[i].value &&
            v.discountButtons[i].text == DiscountRanges[i].text)
      && v.sortOptions == AllSortKeys && v.selectedSort == sortBy
  {
    if isLoading then Spinner
    else
      var all := Button("Todas", selectedCategory == None, None);
      var perCategory := seq(|categories|, i requires 0 <= i < |categories| =>
        Button(categories[i].name, selectedCategory == Some(categories[i].idCategory), Some(categories[i].idCategory)));
      var discounts := seq(|DiscountRanges|, i requires 0 <= i < |DiscountRanges| =>
        Button(DiscountRanges[i].text, selectedDiscountRange == DiscountRanges[i].value, DiscountRanges[i].value));
      Filters([all] + perCategory, discounts, AllSortKeys, sortBy)
  }

  /** A discount button is selected exactly when its value is the selected
      range, so at most one is selected, and one is selected exactly when the
      selected range is one of the table's values. A click hands the page one
      of the table's values. */
  lemma DiscountSelection(
    categories: seq<Category>, selectedCategory: Option<int>, selectedDiscountRange: Option<string>, sortBy: SortBy)
    ensures var v := Render(categories, selectedCategory, selectedDiscountRange, sortBy, false);
      && (forall i :: 0 <= i < |v.discountButtons| ==>
            (v.discountButtons[i].selected <==> v.discountButtons[i].onClick == selectedDiscountRange))
      && (forall i, j :: 0 <= i < j < |v.discountButtons| ==>
            !(v.discountButtons[i].selected && v.discountButtons[j].selected))
      && ((exists i :: 0 <= i < |v.discountButtons| && v.discountButtons[i].selected) <==>
            selectedDiscountRange in DiscountValues())
      && (forall i :: 0 <= i < |v.discountButtons| ==> v.discountButtons[i].onClick in DiscountValues())
  {
    DiscountValuesDistinct();
    var v := Render(categories, selectedCategory, selectedDiscountRange, sortBy, false);
    if selectedDiscountRange in DiscountValues() {
      var i :| 0 <= i < |DiscountRanges| && DiscountRanges[i].value == selectedDiscountRange;
      assert v.discountButtons[i].selected;
    }
  }

  /** "Todas" is selected exactly when no category is selected, a category
      button exactly when its id is the selected one; when the category ids are
      distinct, at most one button is selected. */
  lemma CategorySelection(
    categories: seq<Category>, selectedCategory: Option<int>, selectedDiscountRange: Option<string>, sortBy: SortBy)
    requires forall i, j :: 0 <= i < j < |categories| ==> categories[i].idCategory != categories[j].idCategory
    ensures var v := Render(categories, selectedCategory, selectedDiscountRange, sortBy, false);
      && (v.categoryButtons[0].selected <==> selectedCategory.None?)
      && (forall i :: 1 <= i < |v.categoryButtons| ==>
            (v.categoryButtons[i].selected <==> selectedCategory == Some(categories[i - 1].idCategory)))
      && (forall i, j :: 0 <= i < j < |v.categoryButtons| ==>
            !(v.categoryButtons[i].selected && v.categoryButtons[j].selected))
  {
  }

  /** Every sort option is accepted by the promotion endpoint's sort enum. */
  lemma SortOptionsMatchEndpoint()
    ensures forall k :: k in AllSortKeys ==> ParseSortBy(SortKey(k)) == Some(k)
    ensures forall k: SortBy :: k in AllSortKeys
  {
    forall k: SortBy ensures k in AllSortKeys {
      match k
      case MaiorDesconto => assert AllSortKeys[0] == k;
      case MenorPreco => assert AllSortKeys[1] == k;
      case MaiorPreco => assert AllSortKeys[2] == k;
      case Alfabetica => assert AllSortKeys[3] == k;
    }
  }
}
