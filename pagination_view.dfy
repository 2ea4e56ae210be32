/**
 * The pager (src/components/molecules/MessagePagination.tsx): the list of page
 * buttons with ellipses, the rule that hides the pager for a single page and
 * the "items shown" range. `currentPage` is the pagination store's value,
 * which the store does not validate.
 */
module PaginationView {
  import opened Arith
  import opened Types
  import opened Paginate

  /** A page button or an ellipsis marker. */
  datatype PageItem = PageNumber(page: int) | Ellipsis

  /** At most this many neighbours around the current page are shown. */
  const MAX_VISIBLE_PAGES: int := 5

  /** The buttons `lo`, `lo + 1`, …, `hi`; none when `lo > hi`. */
  function PageRange(lo: int, hi: int): (r: seq<PageItem>)
    ensures |r| == if lo <= hi then hi - lo + 1 else 0
    ensures forall i :: 0 <= i < |r| ==> r[i] == PageNumber(lo + i)
    decreases hi - lo
  {
    if lo > hi then [] else [PageNumber(lo)] + PageRange(lo + 1, hi)
  }

  function Max(a: int, b: int): int { if a >= b then a else b }

  function Min(a: int, b: int): int { if a <= b then a else b }

  /** The leading ellipsis, shown when the current page is past 3. */
  function LeadingGap(currentPage: int): seq<PageItem> {
    if currentPage > 3 then [Ellipsis] else []
  }

  /** The trailing ellipsis, shown when the current page is before `totalPages - 2`. */
  function TrailingGap(totalPages: int, currentPage: int): seq<PageItem> {
    if currentPage < totalPages - 2 then [Ellipsis] else []
  }

  /** The window around the current page: `max(2, cur - 1)`..`min(totalPages - 1, cur + 1)`. */
  function Window(totalPages: int, currentPage: int): seq<PageItem> {
    PageRange(Max(2, currentPage - 1), Min(totalPages - 1, currentPage + 1))
  }

  /** The list `getPageNumbers` builds. */
  function PageNumbers(totalPages: int, currentPage: int): seq<PageItem> {
    if totalPages <= MAX_VISIBLE_PAGES + 2 then PageRange(1, totalPages)
    else [PageNumber(1)] + LeadingGap(currentPage) + Window(totalPages, currentPage)
         + TrailingGap(totalPages, currentPage) + [PageNumber(totalPages)]
  }

  /** `getPageNumbers()`: pushes the buttons one by one, as the component does. */
  method GetPageNumbers(totalPages: int, currentPage: int) returns (pageNumbers: seq<PageItem>)
    ensures pageNumbers == PageNumbers(totalPages, currentPage)
  {
    pageNumbers := [];
    if totalPages <= MAX_VISIBLE_PAGES + 2 {
      var i := 1;
      while i <= totalPages
        invariant 1 <= i && (i <= totalPages + 1 || i == 1)
        invariant pageNumbers == PageRange(1, i - 1)
        decreases totalPages - i
      {
        PageRangeSnoc(1, i);
        pageNumbers := pageNumbers + [PageNumber(i)];
        i := i + 1;
      }
      assert i == totalPages + 1 || (totalPages < 1 && i == 1);
    } else {
      pageNumbers := pageNumbers + [PageNumber(1)];
      if currentPage > 3 {
        pageNumbers := pageNumbers + [Ellipsis];
      }
      ghost var before := pageNumbers;
      assert before == [PageNumber(1)] + LeadingGap(currentPage);
      var startPage := Max(2, currentPage - 1);
      var endPage := Min(totalPages - 1, currentPage + 1);
      var i := startPage;
      while i <= endPage
        invariant startPage <= i && (i <= endPage + 1 || i == startPage)
        invariant pageNumbers == before + PageRange(startPage, i - 1)
        decreases endPage - i
      {
        PageRangeSnoc(startPage, i);
        pageNumbers := pageNumbers + [PageNumber(i)];
        i := i + 1;
      }
      if startPage <= endPage {
        assert i - 1 == endPage;
      } else {
        assert |PageRange(startPage, i - 1)| == 0 == |Window(totalPages, currentPage)|;
      }
      assert pageNumbers == before + Window(totalPages, currentPage);
      ghost var middle := pageNumbers;
      if currentPage < totalPages - 2 {
        pageNumbers := pageNumbers + [Ellipsis];
      }
      assert pageNumbers == middle + TrailingGap(totalPages, currentPage);
      pageNumbers := pageNumbers + [PageNumber(totalPages)];
    }
  }

  /** Extending a range by its next page. */
  lemma PageRangeSnoc(lo: int, hi: int)
    requires lo <= hi
    ensures PageRange(lo, hi) == PageRange(lo, hi - 1) + [PageNumber(hi)]
  {
    var r := PageRange(lo, hi);
    var s := PageRange(lo, hi - 1) + [PageNumber(hi)];
    assert |r| == |s|;
    forall i | 0 <= i < |r| ensures r[i] == s[i] {
      if i < |r| - 1 {
        assert s[i] == PageRange(lo, hi - 1)[i];
      }
    }
  }

  /** Up to 7 pages, every page has its own button, in order. */
  lemma FewPagesAllShown(totalPages: int, currentPage: int)
    requires 0 <= totalPages <= MAX_VISIBLE_PAGES + 2
    ensures var items := PageNumbers(totalPages, currentPage);
            |items| == totalPages && forall i :: 0 <= i < |items| ==> items[i] == PageNumber(i + 1)
  {
  }

  /** The page numbers of a list, in list order. */
  function Numbers(items: seq<PageItem>): (r: seq<int>)
    ensures |r| <= |items|
  {
    if items == [] then []
    else (if items[0].PageNumber? then [items[0].page] else []) + Numbers(items[1..])
  }

  lemma {:induction false} NumbersAppend(a: seq<PageItem>, b: seq<PageItem>)
    ensures Numbers(a + b) == Numbers(a) + Numbers(b)
  {
    if a == [] {
      assert a + b == b;
    } else {
      assert (a + b)[0] == a[0];
      assert (a + b)[1..] == a[1..] + b;
      NumbersAppend(a[1..], b);
    }
  }

  /** The pages of a range are the range's numbers. */
  lemma {:induction false} NumbersOfRange(lo: int, hi: int)
    ensures var ns := Numbers(PageRange(lo, hi));
            |ns| == |PageRange(lo, hi)| && forall i :: 0 <= i < |ns| ==> ns[i] == lo + i
    decreases hi - lo
  {
    if lo <= hi {
      NumbersOfRange(lo + 1, hi);
      assert PageRange(lo, hi)[1..] == PageRange(lo + 1, hi);
    }
  }

  predicate StrictlyIncreasing(s: seq<int>) {
    forall i, j :: 0 <= i < j < |s| ==> s[i] < s[j]
  }

  /** Beyond 7 pages the numbers are 1, then the window, then the last page. */
  lemma NumbersOfManyPages(totalPages: int, currentPage: int)
    requires totalPages > MAX_VISIBLE_PAGES + 2
    ensures Numbers(PageNumbers(totalPages, currentPage))
            == [1] + Numbers(Window(totalPages, currentPage)) + [totalPages]
  {
    var lead := LeadingGap(currentPage);
    var trail := TrailingGap(totalPages, currentPage);
    var w := Window(totalPages, currentPage);
    var first := [PageNumber(1)];
    var last := [PageNumber(totalPages)];
    NumbersAppend(first, lead);
    NumbersAppend(first + lead, w);
    NumbersAppend(first + lead + w, trail);
    NumbersAppend(first + lead + w + trail, last);
    assert Numbers(first) == [1] by {
      assert first[1..] == [];
    }
    assert Numbers(last) == [totalPages] by {
      assert last[1..] == [];
    }
    assert Numbers(lead) == [] by {
      if lead != [] {
        assert lead[1..] == [];
      }
    }
    assert Numbers(trail) == [] by {
      if trail != [] {
        assert trail[1..] == [];
      }
    }
  }

  /**
   * Whatever the (unvalidated) current page, the numbered buttons are
   * strictly increasing and lie within 1..totalPages, and there are at most 7
   * entries.
   */
  lemma NumbersIncreasingInRange(totalPages: int, currentPage: int)
    ensures var ns := Numbers(PageNumbers(totalPages, currentPage));
            StrictlyIncreasing(ns) && forall i :: 0 <= i < |ns| ==> 1 <= ns[i] <= totalPages
    ensures |PageNumbers(totalPages, currentPage)| <= MAX_VISIBLE_PAGES + 2
  {
    if totalPages <= MAX_VISIBLE_PAGES + 2 {
      NumbersOfRange(1, totalPages);
    } else {
      var lo := Max(2, currentPage - 1);
      var hi := Min(totalPages - 1, currentPage + 1);
      NumbersOfRange(lo, hi);
      NumbersOfManyPages(totalPages, currentPage);
      var ns := Numbers(PageNumbers(totalPages, currentPage));
      var mid := Numbers(Window(totalPages, currentPage));
      assert forall i :: 0 <= i < |mid| ==> 2 <= mid[i] <= totalPages - 1;
      assert forall i :: 0 < i < |ns| - 1 ==> ns[i] == mid[i - 1];
      assert ns[0] == 1 && ns[|ns| - 1] == totalPages;
    }
  }

  /**
   * Beyond 7 pages, with the current page in range: the list starts with page 1
   * and ends with the last page; the entry after page 1 is an ellipsis exactly
   * when the current page is past 3, and the entry before the last page is one
   * exactly when the current page is before `totalPages - 2`; the current page
   * always has a button.
   */
  lemma ManyPagesShape(totalPages: int, currentPage: int)
    requires totalPages > MAX_VISIBLE_PAGES + 2
    requires 1 <= currentPage <= totalPages
    ensures var items := PageNumbers(totalPages, currentPage);
            && |items| >= 3
            && items[0] == PageNumber(1)
            && items[|items| - 1] == PageNumber(totalPages)
            && (items[1] == Ellipsis <==> currentPage > 3)
            && (items[|items| - 2] == Ellipsis <==> currentPage < totalPages - 2)
            && PageNumber(currentPage) in items
  {
    var lead := LeadingGap(currentPage);
    var trail := TrailingGap(totalPages, currentPage);
    var lo := Max(2, currentPage - 1);
    var hi := Min(totalPages - 1, currentPage + 1);
    var w := Window(totalPages, currentPage);
    var items := PageNumbers(totalPages, currentPage);
    assert lo <= hi;
    assert items == [PageNumber(1)] + lead + w + trail + [PageNumber(totalPages)];
    if currentPage == 1 {
      assert items[0] == PageNumber(currentPage);
    } else if currentPage == totalPages {
      assert items[|items| - 1] == PageNumber(currentPage);
    } else {
      assert w[currentPage - lo] == PageNumber(currentPage);
      assert items[1 + |lead| + currentPage - lo] == PageNumber(currentPage);
    }
    assert w[0] == PageNumber(lo) && w[|w| - 1] == PageNumber(hi);
    if currentPage <= 3 {
      assert items[1] == w[0];
    }
    if currentPage >= totalPages - 2 {
      assert items[|items| - 2] == w[|w| - 1];
    }
  }

  /** Nothing is rendered for a single page or none. */
  predicate Rendered(totalPages: int) {
    totalPages > 1
  }

  /** The pager is shown exactly when the messages do not fit on one page. */
  lemma RenderedIffOverflow(messages: seq<Message>, currentPage: int, itemsPerPage: nat)
    requires itemsPerPage > 0
    ensures Rendered(PaginateMessages(messages, currentPage, itemsPerPage).totalPages)
            <==> |messages| > itemsPerPage
  {
    CeilDivAboveOne(|messages|, itemsPerPage);
  }

  /** The "items shown" figures: `(currentPage - 1) * itemsPerPage + 1` to `min(currentPage * itemsPerPage, totalItems)`. */
  function ShownRange(currentPage: int, itemsPerPage: int, totalItems: int): (int, int) {
    ((currentPage - 1) * itemsPerPage + 1, Min(currentPage * itemsPerPage, totalItems))
  }

  /**
   * For a current page within the page count, the shown range numbers exactly
   * the messages `paginateMessages` puts on that page (1-based).
   */
  lemma ShownRangeMatchesPage(messages: seq<Message>, currentPage: int, itemsPerPage: nat)
    requires itemsPerPage > 0
    requires 1 <= currentPage <= PaginateMessages(messages, currentPage, itemsPerPage).totalPages
    ensures var r := PaginateMessages(messages, currentPage, itemsPerPage);
            var (first, last) := ShownRange(currentPage, itemsPerPage, |messages|);
            && r.currentPage == currentPage
            && first == (currentPage - 1) * itemsPerPage + 1
            && last - first + 1 == |r.messages|
            && r.messages == messages[first - 1..last]
  {
    PaginateSlice(messages, currentPage, itemsPerPage);
  }
}
