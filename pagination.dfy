/**
 * The page window of src/components/admin/pagination.tsx: which page
 * buttons, ellipses and arrows the pager shows for a page and a page count.
 *
 * At most five consecutive pages are shown around the current one, moved
 * left when they would run past the last page. A button for page 1 and one
 * for the last page are added when the window misses them, with an ellipsis
 * between when pages are skipped. Rendering is left out; the model is the
 * window computation and the conditions that choose what to render.
 */
module Pagination {
  import opened GameModel

  const MaxVisiblePages := 5

  /** What the pager renders. */
  datatype View = View(
    startPage: int,
    endPage: int,
    pages: seq<int>,
    firstButton: bool,
    leadingEllipsis: bool,
    trailingEllipsis: bool,
    lastButton: bool,
    prevDisabled: bool,
    nextDisabled: bool)

  function Max(a: int, b: int): int {
    if a >= b then a else b
  }

  function Min(a: int, b: int): int {
    if a <= b then a else b
  }

  /** The page numbers that have a button: the window, and page 1 and the last page when shown. */
  function Buttons(v: View, totalPages: int): set<int> {
    (set p | p in v.pages) + (if v.firstButton then {1} else {}) + (if v.lastButton then {totalPages} else {})
  }

  /**
   * The pager for `page` of `totalPages`. Nothing for a single page;
   * otherwise a window of min(5, totalPages) consecutive pages within
   * 1..totalPages that holds the current page whenever that is a real page.
   * Every page has a button or lies behind an ellipsis, and an ellipsis
   * appears only where it hides a page. The arrows are disabled at the ends.
   */
  method Paginate(page: int, totalPages: int) returns (view: Option<View>)
    ensures view.None? <==> totalPages <= 1
    ensures view.Some? ==>
      var v := view.value;
      1 <= v.startPage <= v.endPage <= totalPages &&
      |v.pages| == Min(MaxVisiblePages, totalPages) &&
      (forall k :: 0 <= k < |v.pages| ==> v.pages[k] == v.startPage + k) &&
      v.pages[|v.pages| - 1] == v.endPage &&
      (1 <= page <= totalPages ==> page in v.pages)
    ensures view.Some? ==>
      var v := view.value;
      (v.firstButton <==> 1 !in v.pages) && (v.lastButton <==> totalPages !in v.pages)
    ensures view.Some? ==>
      var v := view.value;
      forall p :: 1 <= p <= totalPages ==>
        p in Buttons(v, totalPages) || (v.leadingEllipsis && p < v.startPage) ||
        (v.trailingEllipsis && p > v.endPage)
    ensures view.Some? ==>
      var v := view.value;
      (v.leadingEllipsis ==> exists p :: 1 <= p < v.startPage && p !in Buttons(v, totalPages)) &&
      (v.trailingEllipsis ==> exists p :: v.endPage < p <= totalPages && p !in Buttons(v, totalPages))
    ensures view.Some? ==>
      (view.value.prevDisabled <==> page <= 1) && (view.value.nextDisabled <==> page >= totalPages)
  {
    if totalPages <= 1 {
      return None;
    }
    var startPage := Max(1, page - MaxVisiblePages / 2);
    var endPage := Min(totalPages, startPage + MaxVisiblePages - 1);
    if endPage - startPage + 1 < MaxVisiblePages {
      startPage := Max(1, endPage - MaxVisiblePages + 1);
    }
    var pages: seq<int> := [];
    var i := startPage;
    while i <= endPage
      invariant startPage <= i <= endPage + 1
      invariant |pages| == i - startPage
      invariant forall k :: 0 <= k < |pages| ==> pages[k] == startPage + k
    {
      pages := pages + [i];
      i := i + 1;
    }
    var v := View(startPage, endPage, pages,
      startPage > 1, startPage > 2, endPage < totalPages - 1, endPage < totalPages,
      page <= 1, page >= totalPages);
    if 1 <= page <= totalPages {
      assert pages[page - startPage] == page;
    }
    if startPage == 1 {
      assert pages[0] == 1;
    }
    if endPage == totalPages {
      assert pages[|pages| - 1] == totalPages;
    }
    if v.leadingEllipsis {
      assert 2 !in Buttons(v, totalPages);
    }
    if v.trailingEllipsis {
      assert totalPages - 1 !in Buttons(v, totalPages);
    }
    forall p | 1 <= p <= totalPages && startPage <= p <= endPage ensures p in Buttons(v, totalPages) {
      assert pages[p - startPage] == p;
    }
    view := Some(v);
  }
}
