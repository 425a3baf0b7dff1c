/**
 * The page selector under result lists (`Pagination`): the window of page
 * numbers shown, with `...` markers standing for skipped runs, and the
 * guards that decide whether a button or the jump box requests a page.
 */
module Pagination {
  import opened Text

  /** An entry of the selector: a page button or a `'...'` marker. */
  datatype PageItem = Page(n: int) | Ellipsis

  /** `maxVisible`: up to this many pages are listed in full. */
  const MaxVisible: int := 7

  /** The buttons for pages `lo` to `hi` inclusive (none when `hi < lo`). */
  function PageRange(lo: int, hi: int): (r: seq<PageItem>)
    ensures |r| == if hi < lo then 0 else hi - lo + 1
    ensures forall k :: 0 <= k < |r| ==> r[k] == Page(lo + k)
    decreases hi - lo
  {
    if hi < lo then [] else PageRange(lo, hi - 1) + [Page(hi)]
  }

  /**
   * The selector's entries in closed form: every page when there are at
   * most seven; otherwise the first page, a window of pages and the last
   * page, with a marker on each side of the window that does not reach
   * the end it faces.  The window is pages 2-5 near the start, the last
   * four before the final page near the end, and the current page with
   * its two neighbours in between.
   */
  function PageNumbers(currentPage: int, totalPages: int): seq<PageItem>
  {
    if totalPages <= MaxVisible then PageRange(1, totalPages)
    else if currentPage <= 3 then [Page(1)] + PageRange(2, 5) + [Ellipsis] + [Page(totalPages)]
    else if currentPage >= totalPages - 2 then [Page(1)] + [Ellipsis] + PageRange(totalPages - 4, totalPages - 1) + [Page(totalPages)]
    else [Page(1)] + [Ellipsis] + PageRange(currentPage - 1, currentPage + 1) + [Ellipsis] + [Page(totalPages)]
  }

  /** Every page entry names a page that exists. */
  predicate InRange(pages: seq<PageItem>, totalPages: int)
  {
    forall i :: 0 <= i < |pages| && pages[i].Page? ==> 1 <= pages[i].n <= totalPages
  }

  /**
   * The list starts and ends with a page; a marker is never next to
   * another marker; two neighbouring pages are consecutive numbers; and a
   * marker stands exactly for a gap: the pages around it are not
   * consecutive.
   */
  ghost predicate WellSpaced(pages: seq<PageItem>)
  {
    && (|pages| > 0 ==> pages[0].Page? && pages[|pages| - 1].Page?)
    && (forall i, j :: 0 <= i < j < |pages| && j == i + 1 ==>
          (pages[i].Page? || pages[j].Page?)
          && (pages[i].Page? && pages[j].Page? ==> pages[j].n == pages[i].n + 1))
    && (forall i, j, k :: 0 <= i < j < k < |pages| && j == i + 1 && k == j + 1 && pages[j].Ellipsis? ==>
          pages[i].Page? && pages[k].Page? && pages[k].n > pages[i].n + 1)
  }

  /** In a well-spaced list the page numbers strictly increase from left to right. */
  lemma {:induction false} SpacedIncreasing(pages: seq<PageItem>, i: int, j: int)
    requires WellSpaced(pages)
    requires 0 <= i < j < |pages| && pages[i].Page? && pages[j].Page?
    ensures pages[i].n < pages[j].n
    decreases j - i
  {
    if pages[j - 1].Page? {
      assert pages[j].n == pages[j - 1].n + 1;
      if j - 1 > i {
        SpacedIncreasing(pages, i, j - 1);
      }
    } else {
      assert pages[j - 2].Page? && pages[j].n > pages[j - 2].n + 1;
      if j - 2 > i {
        SpacedIncreasing(pages, i, j - 2);
      }
    }
  }

  /** The window of middle pages of a long list, as the adjustments leave it. */
  function Window(currentPage: int, totalPages: int): (int, int)
  {
    if currentPage >= totalPages - 2 then (totalPages - 4, totalPages - 1)
    else if currentPage <= 3 then (2, 5)
    else (currentPage - 1, currentPage + 1)
  }

  /** A marker when `gap` holds, nothing otherwise. */
  function MarkerIf(gap: bool): seq<PageItem>
  {
    if gap then [Ellipsis] else []
  }

  /** Appending the next page extends a run of pages. */
  lemma ExtendRange(prefix: seq<PageItem>, lo: int, hi: int)
    requires lo <= hi + 1
    ensures prefix + PageRange(lo, hi) + [Page(hi + 1)] == prefix + PageRange(lo, hi + 1)
  {
    assert PageRange(lo, hi + 1) == PageRange(lo, hi) + [Page(hi + 1)];
  }

  /** A long list assembled from its window is the closed form. */
  lemma AssembleLarge(currentPage: int, totalPages: int, startPage: int, endPage: int)
    requires totalPages > MaxVisible && (startPage, endPage) == Window(currentPage, totalPages)
    ensures [Page(1)] + MarkerIf(startPage > 2) + PageRange(startPage, endPage)
            + MarkerIf(endPage < totalPages - 1) + [Page(totalPages)]
            == PageNumbers(currentPage, totalPages)
  {
  }

  /** `getPageNumbers`, built step by step as the component builds it. */
  method GetPageNumbers(currentPage: int, totalPages: int) returns (pages: seq<PageItem>)
    ensures pages == PageNumbers(currentPage, totalPages)
  {
    pages := [];
    if totalPages <= MaxVisible {
      var i := 1;
      while i <= totalPages
        invariant 1 <= i <= if totalPages < 1 then 1 else totalPages + 1
        invariant pages == PageRange(1, i - 1)
      {
        pages := pages + [Page(i)];
        i := i + 1;
      }
    } else {
      pages := pages + [Page(1)];
      var startPage := if 2 < currentPage - 1 then currentPage - 1 else 2;
      var endPage := if totalPages - 1 < currentPage + 1 then totalPages - 1 else currentPage + 1;
      if currentPage <= 3 {
        startPage := 2;
        endPage := 5;
      }
      if currentPage >= totalPages - 2 {
        startPage := totalPages - 4;
        endPage := totalPages - 1;
      }
      assert (startPage, endPage) == Window(currentPage, totalPages);
      if startPage > 2 {
        pages := pages + [Ellipsis];
      }
      ghost var prefix := [Page(1)] + MarkerIf(startPage > 2);
      assert pages == prefix + PageRange(startPage, startPage - 1);
      var i := startPage;
      while i <= endPage
        invariant startPage <= i <= endPage + 1
        invariant pages == prefix + PageRange(startPage, i - 1)
      {
        ExtendRange(prefix, startPage, i - 1);
        pages := pages + [Page(i)];
        i := i + 1;
      }
      ghost var middle := pages;
      if endPage < totalPages - 1 {
        pages := pages + [Ellipsis];
      }
      assert pages == middle + MarkerIf(endPage < totalPages - 1);
      pages := pages + [Page(totalPages)];
      AssembleLarge(currentPage, totalPages, startPage, endPage);
    }
  }

  /** At most seven pages are listed in full: `1, 2, ..., totalPages`. */
  lemma SmallPageCount(currentPage: int, totalPages: int)
    requires totalPages <= MaxVisible
    ensures var r := PageNumbers(currentPage, totalPages);
      && |r| == (if totalPages < 0 then 0 else totalPages)
      && forall i :: 0 <= i < |r| ==> r[i] == Page(i + 1)
  {
  }

  /** The three windows of a long list, entry by entry. */
  lemma LargePageWindows(currentPage: int, totalPages: int)
    requires totalPages > MaxVisible
    ensures var t := totalPages;
      PageNumbers(currentPage, t) ==
        if currentPage <= 3 then [Page(1), Page(2), Page(3), Page(4), Page(5), Ellipsis, Page(t)]
        else if currentPage >= t - 2 then [Page(1), Ellipsis, Page(t - 4), Page(t - 3), Page(t - 2), Page(t - 1), Page(t)]
        else [Page(1), Ellipsis, Page(currentPage - 1), Page(currentPage), Page(currentPage + 1), Ellipsis, Page(t)]
  {
    var t := totalPages;
    if currentPage <= 3 {
      var w := PageRange(2, 5);
      assert w == [Page(2), Page(3), Page(4), Page(5)];
    } else if currentPage >= t - 2 {
      var w := PageRange(t - 4, t - 1);
      assert w == [Page(t - 4), Page(t - 3), Page(t - 2), Page(t - 1)];
    } else {
      var w := PageRange(currentPage - 1, currentPage + 1);
      assert w == [Page(currentPage - 1), Page(currentPage), Page(currentPage + 1)];
    }
  }

  /** A long list has exactly seven entries, from page 1 to the last page, whatever the current page. */
  lemma LargePageCount(currentPage: int, totalPages: int)
    requires totalPages > MaxVisible
    ensures var r := PageNumbers(currentPage, totalPages);
      |r| == 7 && r[0] == Page(1) && r[6] == Page(totalPages)
  {
    LargePageWindows(currentPage, totalPages);
  }

  /** A run of consecutive pages is well spaced. */
  lemma RangeWellSpaced(lo: int, hi: int)
    ensures WellSpaced(PageRange(lo, hi))
  {
    var r := PageRange(lo, hi);
    forall i, j | 0 <= i < j < |r| && j == i + 1
      ensures r[j].n == r[i].n + 1
    {
      assert r[i] == Page(lo + i) && r[j] == Page(lo + j);
    }
  }

  /**
   * A seven-entry list that is page, page-or-marker, three consecutive
   * pages, page-or-marker, page, with consecutive neighbours and a gap at
   * each marker, is well spaced.
   */
  lemma SevenWellSpaced(pages: seq<PageItem>)
    requires |pages| == 7 && pages[0].Page? && pages[6].Page?
    requires pages[2].Page? && pages[3].Page? && pages[4].Page?
    requires pages[3].n == pages[2].n + 1 && pages[4].n == pages[3].n + 1
    requires pages[1].Page? ==> pages[1].n == pages[0].n + 1 && pages[2].n == pages[1].n + 1
    requires pages[1].Ellipsis? ==> pages[2].n > pages[0].n + 1
    requires pages[5].Page? ==> pages[5].n == pages[4].n + 1 && pages[6].n == pages[5].n + 1
    requires pages[5].Ellipsis? ==> pages[6].n > pages[4].n + 1
    ensures WellSpaced(pages)
  {
    forall i, j | 0 <= i < j < |pages| && j == i + 1
      ensures (pages[i].Page? || pages[j].Page?)
        && (pages[i].Page? && pages[j].Page? ==> pages[j].n == pages[i].n + 1)
    {
      if i == 0 { } else if i == 1 { } else if i == 2 { } else if i == 3 { } else if i == 4 { } else { }
    }
    forall i, j, k | 0 <= i < j < k < |pages| && j == i + 1 && k == j + 1 && pages[j].Ellipsis?
      ensures pages[i].Page? && pages[k].Page? && pages[k].n > pages[i].n + 1
    {
      assert j == 1 || j == 5;
    }
  }

  /** The entries of a long list name existing pages. */
  lemma LargeInRange(currentPage: int, totalPages: int)
    requires totalPages > MaxVisible
    ensures InRange(PageNumbers(currentPage, totalPages), totalPages)
  {
    var r := PageNumbers(currentPage, totalPages);
    LargePageWindows(currentPage, totalPages);
    forall i | 0 <= i < |r| && r[i].Page? ensures 1 <= r[i].n <= totalPages {
      if i == 0 { } else if i == 1 { } else if i == 2 { } else if i == 3 { } else if i == 4 { } else if i == 5 { } else { }
    }
  }

  /** The selector is well spaced and lists only existing pages, whatever the current page. */
  lemma PageNumbersWellSpaced(currentPage: int, totalPages: int)
    ensures WellSpaced(PageNumbers(currentPage, totalPages))
    ensures InRange(PageNumbers(currentPage, totalPages), totalPages)
  {
    if totalPages > MaxVisible {
      LargePageWindows(currentPage, totalPages);
      SevenWellSpaced(PageNumbers(currentPage, totalPages));
      LargeInRange(currentPage, totalPages);
    } else {
      RangeWellSpaced(1, totalPages);
    }
  }

  /** A current page that exists is always listed. */
  lemma CurrentPageShown(currentPage: int, totalPages: int)
    requires 1 <= currentPage <= totalPages
    ensures Page(currentPage) in PageNumbers(currentPage, totalPages)
  {
    var r := PageNumbers(currentPage, totalPages);
    if totalPages <= MaxVisible {
      assert r[currentPage - 1] == Page(currentPage);
    } else {
      LargePageWindows(currentPage, totalPages);
      if currentPage <= 3 {
        assert r[currentPage - 1] == Page(currentPage);
      } else if currentPage >= totalPages - 2 {
        assert r[currentPage - totalPages + 6] == Page(currentPage);
      } else {
        assert r[3] == Page(currentPage);
      }
    }
  }

  /** A page a button may request: an existing page other than the current one. */
  predicate ValidTarget(page: int, currentPage: int, totalPages: int)
  {
    1 <= page <= totalPages && page != currentPage
  }

  /** `handlePageClick`: markers, the current page and clicks while loading request nothing. */
  function PageClickTarget(item: PageItem, currentPage: int, loading: bool): (r: Option<int>)
    ensures r.Some? <==> item.Page? && !loading && item.n != currentPage
    ensures r.Some? ==> r.value == item.n
  {
    if item.Ellipsis? || loading || item.n == currentPage then None else Some(item.n)
  }

  /** Every page the selector lets the user click is an existing page other than the current one. */
  lemma ClickedPagesAreValid(currentPage: int, totalPages: int, i: int, loading: bool)
    requires 0 <= i < |PageNumbers(currentPage, totalPages)|
    ensures var r := PageClickTarget(PageNumbers(currentPage, totalPages)[i], currentPage, loading);
      r.Some? ==> ValidTarget(r.value, currentPage, totalPages)
  {
    PageNumbersWellSpaced(currentPage, totalPages);
  }

  /** `handlePrevious`. */
  function PreviousTarget(currentPage: int, totalPages: int, loading: bool): (r: Option<int>)
    ensures r.Some? ==> r.value == currentPage - 1
    ensures currentPage <= totalPages ==> (r.Some? <==> !loading && ValidTarget(currentPage - 1, currentPage, totalPages))
  {
    if currentPage > 1 && !loading then Some(currentPage - 1) else None
  }

  /** `handleNext`. */
  function NextTarget(currentPage: int, totalPages: int, loading: bool): (r: Option<int>)
    ensures r.Some? ==> r.value == currentPage + 1
    ensures 1 <= currentPage ==> (r.Some? <==> !loading && ValidTarget(currentPage + 1, currentPage, totalPages))
  {
    if currentPage < totalPages && !loading then Some(currentPage + 1) else None
  }

  /** `handleFirst`. */
  function FirstTarget(currentPage: int, totalPages: int, loading: bool): (r: Option<int>)
    ensures r.Some? ==> r.value == 1
    ensures 1 <= totalPages ==> (r.Some? <==> !loading && ValidTarget(1, currentPage, totalPages))
  {
    if currentPage != 1 && !loading then Some(1) else None
  }

  /** `handleLast`. */
  function LastTarget(currentPage: int, totalPages: int, loading: bool): (r: Option<int>)
    ensures r.Some? ==> r.value == totalPages
    ensures 1 <= totalPages ==> (r.Some? <==> !loading && ValidTarget(totalPages, currentPage, totalPages))
  {
    if currentPage != totalPages && !loading then Some(totalPages) else None
  }

  /** The jump box on Enter: the typed text, read by `parseInt`, must name another existing page. */
  function JumpTarget(typed: string, currentPage: int, totalPages: int, loading: bool): (r: Option<int>)
    ensures r.Some? <==> !loading && ParseInt(typed).Some? && ValidTarget(ParseInt(typed).value, currentPage, totalPages)
    ensures r.Some? ==> r == ParseInt(typed)
  {
    match ParseInt(typed)
    case Some(page) =>
      if 1 <= page <= totalPages && page != currentPage then PageClickTarget(Page(page), currentPage, loading) else None
    case None => None
  }

  /** Typing a page's own decimal numeral jumps to it when it is another existing page. */
  lemma JumpToTypedPage(page: int, currentPage: int, totalPages: int)
    requires ValidTarget(page, currentPage, totalPages)
    ensures JumpTarget(IntToDecimal(page), currentPage, totalPages, false) == Some(page)
  {
    ParseIntRoundTrip(page);
  }

  /** The selector is shown only when there is more than one page: when there are two pages to choose between. */
  predicate Renders(totalPages: int): (r: bool)
    ensures r <==> |PageRange(1, totalPages)| >= 2
  {
    totalPages > 1
  }
}
