/**
 * The page selector under the lesson and test lists: whether it shows at
 * all, which page numbers it shows (at most five), where it puts an
 * ellipsis, the "items a to b" range, and the pages the previous and next
 * buttons move to.
 */
module Pagination {
  import opened Wrappers

  /** The most page numbers shown at once. */
  const MAX_VISIBLE: int := 5

  /** The page size when the caller gives none. */
  const DEFAULT_ITEMS_PER_PAGE: int := 12

  /**
   * The selector is drawn only for more than one page and a total item count
   * JavaScript treats as true (present and non-zero).
   */
  predicate Rendered(totalPages: int, totalItems: Option<int>) {
    totalPages > 1 && totalItems.Some? && totalItems.value != 0
  }

  /** The pages from `lo` to `hi`, both included. */
  function Range(lo: int, hi: int): (r: seq<int>)
    ensures |r| == if hi < lo then 0 else hi - lo + 1
    ensures forall k :: 0 <= k < |r| ==> r[k] == lo + k
    decreases hi - lo
  {
    if hi < lo then [] else [lo] + Range(lo + 1, hi)
  }

  /**
   * The page numbers on show: every page up to five pages; beyond that the
   * first four and the last, the first and the last four, or the first, the
   * current page with its two neighbours, and the last.
   */
  function Window(currentPage: int, totalPages: int): (w: seq<int>) {
    if totalPages <= MAX_VISIBLE then Range(1, totalPages)
    else if currentPage <= 3 then [1, 2, 3, 4, totalPages]
    else if currentPage >= totalPages - 2 then [1, totalPages - 3, totalPages - 2, totalPages - 1, totalPages]
    else [1, currentPage - 1, currentPage, currentPage + 1, totalPages]
  }

  /** `getVisiblePages`: the pages pushed one by one, as the component does. */
  method VisiblePages(currentPage: int, totalPages: int) returns (pages: seq<int>)
    ensures pages == Window(currentPage, totalPages)
  {
    pages := [];
    if totalPages <= MAX_VISIBLE {
      pages := PushRange(pages, 1, totalPages);
    } else if currentPage <= 3 {
      pages := PushRange(pages, 1, 4);
      assert Range(1, 4) == [1, 2, 3, 4];
      pages := pages + [totalPages];
    } else if currentPage >= totalPages - 2 {
      pages := pages + [1];
      pages := PushRange(pages, totalPages - 3, totalPages);
      assert Range(totalPages - 3, totalPages) == [totalPages - 3, totalPages - 2, totalPages - 1, totalPages];
    } else {
      pages := pages + [1];
      pages := pages + [currentPage - 1];
      pages := pages + [currentPage];
      pages := pages + [currentPage + 1];
      pages := pages + [totalPages];
    }
  }

  /** A counting loop that pushes `lo`, `lo + 1`, ..., `hi`. */
  method PushRange(pages: seq<int>, lo: int, hi: int) returns (out: seq<int>)
    ensures out == pages + Range(lo, hi)
  {
    out := pages;
    var i := lo;
    while i <= hi
      invariant lo <= i <= (if hi >= lo then hi + 1 else lo)
      invariant out == pages + Range(lo, i - 1)
      decreases hi - i
    {
      RangeSnoc(lo, i);
      out := out + [i];
      i := i + 1;
    }
  }

  lemma RangeSnoc(lo: int, hi: int)
    requires lo <= hi
    ensures Range(lo, hi) == Range(lo, hi - 1) + [hi]
  {
  }

  ghost predicate StrictlyIncreasing(w: seq<int>) {
    forall i, j :: 0 <= i < j < |w| ==> w[i] < w[j]
  }

  /**
   * The window's shape: up to five pages it is exactly 1..totalPages; beyond
   * five it has exactly five pages, strictly increasing, from 1 to
   * totalPages. Every shown page exists, and the current page is shown
   * whenever it is a valid page.
   */
  lemma WindowShape(currentPage: int, totalPages: int)
    ensures var w := Window(currentPage, totalPages);
      && StrictlyIncreasing(w)
      && (forall k :: 0 <= k < |w| ==> 1 <= w[k] <= totalPages)
      && (1 <= currentPage <= totalPages ==> currentPage in w)
    ensures totalPages <= MAX_VISIBLE ==> Window(currentPage, totalPages) == Range(1, totalPages)
    ensures totalPages > MAX_VISIBLE ==>
      var w := Window(currentPage, totalPages);
      |w| == MAX_VISIBLE && w[0] == 1 && w[MAX_VISIBLE - 1] == totalPages
  {
    var w := Window(currentPage, totalPages);
    if totalPages <= MAX_VISIBLE && 1 <= currentPage <= totalPages {
      assert w[currentPage - 1] == currentPage;
    }
  }

  /** The page shown before index `i`, 0 before the first. */
  function PreviousShown(pages: seq<int>, i: nat): (p: int)
    requires i < |pages|
  {
    if i > 0 then pages[i - 1] else 0
  }

  /** An ellipsis is drawn before the page at index `i` when it does not follow the previous one. */
  predicate NeedEllipsis(pages: seq<int>, i: nat)
    requires i < |pages|
  {
    pages[i] - PreviousShown(pages, i) > 1
  }

  /**
   * In a window, an ellipsis appears exactly where a page is hidden: before
   * the page at index `i` iff the page just below it exists and is not
   * shown. With five or fewer pages there is none.
   */
  lemma EllipsisMarksHiddenPages(currentPage: int, totalPages: int, i: nat)
    requires i < |Window(currentPage, totalPages)|
    ensures var w := Window(currentPage, totalPages);
      NeedEllipsis(w, i) <==> 1 <= w[i] - 1 && w[i] - 1 !in w
    ensures totalPages <= MAX_VISIBLE ==> !NeedEllipsis(Window(currentPage, totalPages), i)
  {
    var w := Window(currentPage, totalPages);
    WindowShape(currentPage, totalPages);
  }

  /** The first item of the current page, counting from 1. */
  function StartItem(currentPage: int, itemsPerPage: int): int {
    (currentPage - 1) * itemsPerPage + 1
  }

  /** The last item of the current page: a full page's end, or the last item. */
  function EndItem(currentPage: int, itemsPerPage: int, totalItems: int): (e: int)
    ensures e <= totalItems && e <= currentPage * itemsPerPage
    ensures e == totalItems || e == currentPage * itemsPerPage
  {
    if currentPage * itemsPerPage <= totalItems then currentPage * itemsPerPage else totalItems
  }

  /**
   * For a page that holds at least one item, the range "start to end" is
   * non-empty, lies within 1..totalItems, and spans at most one page.
   */
  lemma ItemRange(currentPage: int, itemsPerPage: int, totalItems: int)
    requires currentPage >= 1 && itemsPerPage >= 1
    requires (currentPage - 1) * itemsPerPage < totalItems
    ensures 1 <= StartItem(currentPage, itemsPerPage) <= EndItem(currentPage, itemsPerPage, totalItems) <= totalItems
    ensures EndItem(currentPage, itemsPerPage, totalItems) - StartItem(currentPage, itemsPerPage) + 1 <= itemsPerPage
    ensures (currentPage * itemsPerPage <= totalItems) ==>
      EndItem(currentPage, itemsPerPage, totalItems) - StartItem(currentPage, itemsPerPage) + 1 == itemsPerPage
  {
    assert currentPage * itemsPerPage == (currentPage - 1) * itemsPerPage + itemsPerPage;
    assert (currentPage - 1) * itemsPerPage >= 0;
  }

  /** The page the "previous" button moves to, if it moves. */
  function PreviousTarget(currentPage: int): (p: Option<int>)
    ensures p.Some? <==> currentPage > 1
    ensures p.Some? ==> p.value >= 1 && p.value == currentPage - 1
  {
    if currentPage > 1 then Some(currentPage - 1) else None
  }

  /** The page the "next" button moves to, if it moves. */
  function NextTarget(currentPage: int, totalPages: int): (p: Option<int>)
    ensures p.Some? <==> currentPage < totalPages
    ensures p.Some? ==> p.value <= totalPages && p.value == currentPage + 1
  {
    if currentPage < totalPages then Some(currentPage + 1) else None
  }

  /** From a valid current page, both buttons only ever move to a valid page. */
  lemma ButtonsStayInRange(currentPage: int, totalPages: int)
    requires 1 <= currentPage <= totalPages
    ensures PreviousTarget(currentPage).Some? ==> 1 <= PreviousTarget(currentPage).value <= totalPages
    ensures NextTarget(currentPage, totalPages).Some? ==> 1 <= NextTarget(currentPage, totalPages).value <= totalPages
    ensures currentPage == 1 <==> PreviousTarget(currentPage).None?
    ensures currentPage == totalPages <==> NextTarget(currentPage, totalPages).None?
  {
  }

  /** What the selector draws. */
  datatype PaginationView = PaginationView(pages: seq<int>, startItem: int, endItem: int)

  /** The component: nothing when not rendered, otherwise its pages and item range. */
  method Render(currentPage: int, totalPages: int, itemsPerPageProp: Option<int>, totalItems: Option<int>)
    returns (view: Option<PaginationView>)
    ensures view.None? <==> !Rendered(totalPages, totalItems)
    ensures view.Some? ==>
      var itemsPerPage := itemsPerPageProp.GetOr(DEFAULT_ITEMS_PER_PAGE);
      && view.value.pages == Window(currentPage, totalPages)
      && view.value.startItem == StartItem(currentPage, itemsPerPage)
      && view.value.endItem == EndItem(currentPage, itemsPerPage, totalItems.value)
  {
    if !Rendered(totalPages, totalItems) {
      return None;
    }
    var itemsPerPage := itemsPerPageProp.GetOr(DEFAULT_ITEMS_PER_PAGE);
    var visiblePages := VisiblePages(currentPage, totalPages);
    var startItem := (currentPage - 1) * itemsPerPage + 1;
    var endItem := if currentPage * itemsPerPage <= totalItems.value then currentPage * itemsPerPage else totalItems.value;
    view := Some(PaginationView(visiblePages, startItem, endItem));
  }
}
