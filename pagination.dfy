/** The pagination control: the visible window of page numbers, when the
    control is hidden, and when Previous/Next are disabled. */
module Pagination {

  /** One entry of the page list: a page button or an ellipsis marker. */
  datatype PageItem = Page(number: int) | Ellipsis

  /** With at most this many pages every page is listed. */
  const MaxVisible: int := 5

  /** The pages lo, lo+1, ..., hi (empty when hi < lo). */
  function PageRange(lo: int, hi: int): seq<PageItem>
    decreases hi - lo
  {
    if hi < lo then [] else PageRange(lo, hi - 1) + [Page(hi)]
  }

  lemma {:induction false} PageRangeAt(lo: int, hi: int)
    ensures |PageRange(lo, hi)| == if hi < lo then 0 else hi - lo + 1
    ensures forall k :: 0 <= k < |PageRange(lo, hi)| ==> PageRange(lo, hi)[k] == Page(lo + k)
    decreases hi - lo
  {
    if hi >= lo {
      PageRangeAt(lo, hi - 1);
    }
  }

  /** The page list for the current page and the page count: all pages when
      there are few, otherwise the first and last page, an ellipsis, and
      three or four pages near the start, the end or around the current page. */
  function PageWindow(currentPage: int, totalPages: int): seq<PageItem>
  {
    if totalPages <= MaxVisible then PageRange(1, totalPages)
    else if currentPage <= 3 then PageRange(1, 4) + [Ellipsis, Page(totalPages)]
    else if currentPage >= totalPages - 2 then [Page(1), Ellipsis] + PageRange(totalPages - 3, totalPages)
    else [Page(1), Ellipsis] + PageRange(currentPage - 1, currentPage + 1) + [Ellipsis, Page(totalPages)]
  }

  /** Builds the page list by pushing entries one at a time, as the component does. */
  method GetPageNumbers(currentPage: int, totalPages: int) returns (pages: seq<PageItem>)
    ensures pages == PageWindow(currentPage, totalPages)
  {
    pages := [];
    if totalPages <= MaxVisible {
      var i := 1;
      while i <= totalPages
        invariant 1 <= i <= if totalPages >= 1 then totalPages + 1 else 1
        invariant pages == PageRange(1, i - 1)
      {
        pages := pages + [Page(i)];
        i := i + 1;
      }
      assert pages == PageRange(1, totalPages);
    } else {
      if currentPage <= 3 {
        var i := 1;
        while i <= 4
          invariant 1 <= i <= 5
          invariant pages == PageRange(1, i - 1)
        {
          pages := pages + [Page(i)];
          i := i + 1;
        }
        ghost var start := pages;
        pages := pages + [Ellipsis];
        pages := pages + [Page(totalPages)];
        assert pages == start + [Ellipsis, Page(totalPages)];
      } else if currentPage >= totalPages - 2 {
        pages := pages + [Page(1)];
        pages := pages + [Ellipsis];
        var i := totalPages - 3;
        while i <= totalPages
          invariant totalPages - 3 <= i <= totalPages + 1
          invariant pages == [Page(1), Ellipsis] + PageRange(totalPages - 3, i - 1)
        {
          pages := pages + [Page(i)];
          i := i + 1;
        }
      } else {
        pages := pages + [Page(1)];
        pages := pages + [Ellipsis];
        var i := currentPage - 1;
        while i <= currentPage + 1
          invariant currentPage - 1 <= i <= currentPage + 2
          invariant pages == [Page(1), Ellipsis] + PageRange(currentPage - 1, i - 1)
        {
          pages := pages + [Page(i)];
          i := i + 1;
        }
        ghost var middle := pages;
        pages := pages + [Ellipsis];
        pages := pages + [Page(totalPages)];
        assert pages == middle + [Ellipsis, Page(totalPages)];
      }
    }
  }

  /** The numeric entries of a page list appear in strictly increasing order. */
  ghost predicate StrictlyIncreasing(pages: seq<PageItem>)
  {
    forall i, j :: 0 <= i < j < |pages| && pages[i].Page? && pages[j].Page? ==>
      pages[i].number < pages[j].number
  }

  /** Every ellipsis sits between two page numbers that are at least two apart
      (it stands for at least one hidden page), and two neighbouring page
      numbers differ by exactly one (no page is skipped silently). */
  ghost predicate GapsMarked(pages: seq<PageItem>)
  {
    && (forall i :: 0 <= i < |pages| && pages[i].Ellipsis? ==>
          0 < i < |pages| - 1 && pages[i - 1].Page? && pages[i + 1].Page? &&
          pages[i + 1].number >= pages[i - 1].number + 2)
    && (forall i :: 0 <= i < |pages| - 1 && pages[i].Page? && pages[i + 1].Page? ==>
          pages[i + 1].number == pages[i].number + 1)
  }

  /** The properties every window for a valid current page has: it starts at
      page 1 and ends at the last page, lists pages in increasing order within
      1..totalPages, shows the current page, marks every gap with an
      ellipsis, and has at most seven entries. */
  ghost predicate WellFormedWindow(w: seq<PageItem>, currentPage: int, totalPages: int)
  {
    && 1 <= |w| <= 7
    && w[0] == Page(1) && w[|w| - 1] == Page(totalPages)
    && (forall i :: 0 <= i < |w| && w[i].Page? ==> 1 <= w[i].number <= totalPages)
    && StrictlyIncreasing(w)
    && GapsMarked(w)
    && Page(currentPage) in w
  }

  lemma FewPagesWellFormed(currentPage: int, totalPages: int)
    requires 1 <= currentPage <= totalPages <= MaxVisible
    ensures WellFormedWindow(PageRange(1, totalPages), currentPage, totalPages)
  {
    PageRangeAt(1, totalPages);
    var w := PageRange(1, totalPages);
    assert w[currentPage - 1] == Page(currentPage);
  }

  lemma StartLayoutWellFormed(currentPage: int, t: int)
    requires 1 <= currentPage <= 3 && t > MaxVisible
    ensures WellFormedWindow([Page(1), Page(2), Page(3), Page(4), Ellipsis, Page(t)], currentPage, t)
  {
    var w := [Page(1), Page(2), Page(3), Page(4), Ellipsis, Page(t)];
    assert w[currentPage - 1] == Page(currentPage);
    assert StrictlyIncreasing(w) by {
      forall i, j | 0 <= i < j < |w| && w[i].Page? && w[j].Page? ensures w[i].number < w[j].number {
        assert w[i].number <= i + 1;
      }
    }
    assert GapsMarked(w) by {
      assert forall i :: 0 <= i < |w| && w[i].Ellipsis? ==> i == 4;
    }
  }

  lemma EndLayoutWellFormed(currentPage: int, t: int)
    requires 3 < currentPage && t - 2 <= currentPage <= t && t > MaxVisible
    ensures WellFormedWindow([Page(1), Ellipsis, Page(t - 3), Page(t - 2), Page(t - 1), Page(t)], currentPage, t)
  {
    var w := [Page(1), Ellipsis, Page(t - 3), Page(t - 2), Page(t - 1), Page(t)];
    assert w[currentPage - t + 5] == Page(currentPage);
  }

  lemma MiddleLayoutWellFormed(c: int, t: int)
    requires 3 < c < t - 2 && t > MaxVisible
    ensures WellFormedWindow([Page(1), Ellipsis, Page(c - 1), Page(c), Page(c + 1), Ellipsis, Page(t)], c, t)
  {
    var w := [Page(1), Ellipsis, Page(c - 1), Page(c), Page(c + 1), Ellipsis, Page(t)];
    assert w[3] == Page(c);
  }

  /** Every window for a current page inside 1..totalPages is well formed. */
  lemma WindowShape(currentPage: int, totalPages: int)
    requires 1 <= currentPage <= totalPages
    ensures WellFormedWindow(PageWindow(currentPage, totalPages), currentPage, totalPages)
  {
    if totalPages <= MaxVisible {
      FewPagesWellFormed(currentPage, totalPages);
    } else {
      ManyPagesLayouts(currentPage, totalPages);
      if currentPage <= 3 {
        StartLayoutWellFormed(currentPage, totalPages);
      } else if currentPage >= totalPages - 2 {
        EndLayoutWellFormed(currentPage, totalPages);
      } else {
        MiddleLayoutWellFormed(currentPage, totalPages);
      }
    }
  }

  /** With at most five pages the list is exactly 1..totalPages, with no ellipsis. */
  lemma FewPagesListsAll(currentPage: int, totalPages: int)
    requires totalPages <= MaxVisible
    ensures Ellipsis !in PageWindow(currentPage, totalPages)
    ensures |PageWindow(currentPage, totalPages)| == if totalPages < 1 then 0 else totalPages
    ensures forall k :: 0 <= k < |PageWindow(currentPage, totalPages)| ==>
      PageWindow(currentPage, totalPages)[k] == Page(k + 1)
  {
    PageRangeAt(1, totalPages);
  }

  /** The three layouts for more than five pages, written out. */
  lemma ManyPagesLayouts(currentPage: int, totalPages: int)
    requires totalPages > MaxVisible
    ensures currentPage <= 3 ==>
      PageWindow(currentPage, totalPages) == [Page(1), Page(2), Page(3), Page(4), Ellipsis, Page(totalPages)]
    ensures 3 < currentPage && currentPage >= totalPages - 2 ==>
      PageWindow(currentPage, totalPages) ==
        [Page(1), Ellipsis, Page(totalPages - 3), Page(totalPages - 2), Page(totalPages - 1), Page(totalPages)]
    ensures 3 < currentPage < totalPages - 2 ==>
      PageWindow(currentPage, totalPages) ==
        [Page(1), Ellipsis, Page(currentPage - 1), Page(currentPage), Page(currentPage + 1), Ellipsis, Page(totalPages)]
  {
    if currentPage <= 3 {
      PageRangeAt(1, 4);
    } else if currentPage >= totalPages - 2 {
      PageRangeAt(totalPages - 3, totalPages);
    } else {
      PageRangeAt(currentPage - 1, currentPage + 1);
    }
  }

  /** Three ten-page windows: at the start, at the end and in the middle. */
  lemma TenPageExamples()
    ensures PageWindow(1, 10) == [Page(1), Page(2), Page(3), Page(4), Ellipsis, Page(10)]
    ensures PageWindow(10, 10) == [Page(1), Ellipsis, Page(7), Page(8), Page(9), Page(10)]
    ensures PageWindow(5, 10) == [Page(1), Ellipsis, Page(4), Page(5), Page(6), Ellipsis, Page(10)]
  {
    ManyPagesLayouts(1, 10);
    ManyPagesLayouts(10, 10);
    ManyPagesLayouts(5, 10);
  }

  /** What the component renders: nothing, or Previous, the page list and Next. */
  datatype PaginationView =
    | Hidden
    | Controls(previousDisabled: bool, pages: seq<PageItem>, nextDisabled: bool)

  /** The rendered control: hidden with one page or fewer; otherwise the page
      window, with Previous disabled on the first page and Next on the last. */
  function Render(currentPage: int, totalPages: int): (v: PaginationView)
    ensures v.Hidden? <==> totalPages <= 1
    ensures v.Controls? ==> v.pages == PageWindow(currentPage, totalPages)
  {
    if totalPages <= 1 then Hidden
    else Controls(currentPage == 1, PageWindow(currentPage, totalPages), currentPage == totalPages)
  }

  /** On a valid page, Previous is enabled exactly when page currentPage - 1
      exists and Next exactly when page currentPage + 1 exists, so a click on
      an enabled button always asks for a page inside 1..totalPages; a click
      on a page button does too. */
  lemma NavigationTargetsInRange(currentPage: int, totalPages: int)
    requires 1 <= currentPage <= totalPages && totalPages > 1
    ensures Render(currentPage, totalPages).Controls?
    ensures !Render(currentPage, totalPages).previousDisabled <==> 1 <= currentPage - 1 <= totalPages
    ensures !Render(currentPage, totalPages).nextDisabled <==> 1 <= currentPage + 1 <= totalPages
    ensures forall p :: Page(p) in Render(currentPage, totalPages).pages ==> 1 <= p <= totalPages
  {
    WindowShape(currentPage, totalPages);
    var w := PageWindow(currentPage, totalPages);
    assert WellFormedWindow(w, currentPage, totalPages);
    forall p | Page(p) in w ensures 1 <= p <= totalPages {
      var i :| 0 <= i < |w| && w[i] == Page(p);
    }
  }
}
