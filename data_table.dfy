/** The pagination bar of the shared table component
    (src/components/ui/data-table.jsx) in its server-paged mode: which page
    buttons are shown and where the ellipses go, the "Showing X to Y of Z"
    range, the enabled navigation buttons and the page reported upwards. */
module DataTable {
  import opened Seqs

  /** The bar is rendered only when there is more than one page. */
  predicate ShowBar(pageCount: int) {
    pageCount > 1
  }

  /** `Array.from({ length: pageCount }, (_, i) => i + 1)`. */
  function Pages(pageCount: int): (r: seq<int>)
    ensures |r| == if pageCount < 0 then 0 else pageCount
    ensures forall i :: 0 <= i < |r| ==> r[i] == i + 1
    ensures forall p :: p in r <==> 1 <= p <= pageCount
    ensures Ascending(r)
  {
    if pageCount <= 0 then []
    else
      var r := seq(pageCount, i requires 0 <= i < pageCount => i + 1);
      forall p | 1 <= p <= pageCount ensures p in r {
        assert r[p - 1] == p;
      }
      r
  }

  /** The filter on page numbers: the first page, the last page and the
      pages next to the current one. */
  function Shown(current: int, total: int): int -> bool {
    (page: int) => page == 1 || page == total || (current - 1 <= page && page <= current + 1)
  }

  predicate Ascending(s: seq<int>) {
    forall i, j :: 0 <= i < j < |s| ==> s[i] < s[j]
  }

  /** The page buttons, in order. */
  function PageButtons(current: int, total: int): (r: seq<int>)
    ensures forall p :: p in r <==> 1 <= p <= total && (p == 1 || p == total || (current - 1 <= p && p <= current + 1))
    ensures Ascending(r)
    ensures |r| <= 5
    ensures total >= 1 ==> 1 in r && total in r
  {
    var r := Filter(Pages(total), Shown(current, total));
    FilterAscending(Pages(total), Shown(current, total));
    AtMostFive(r, current, total);
    r
  }

  lemma AtMostFive(r: seq<int>, current: int, total: int)
    requires Ascending(r)
    requires forall p :: p in r ==> p == 1 || p == total || (current - 1 <= p && p <= current + 1)
    ensures |r| <= 5
  {
    var pool := {1, total, current - 1, current, current + 1};
    assert forall p :: p in r ==> p in pool;
    AscendingWithin(r, pool);
    SmallSet(1, total, current - 1, current, current + 1);
  }

  lemma {:induction false} FilterAscending(s: seq<int>, p: int -> bool)
    requires Ascending(s)
    ensures Ascending(Filter(s, p))
  {
    if s != [] {
      FilterAscending(s[1..], p);
      var rest := Filter(s[1..], p);
      if p(s[0]) {
        var r := [s[0]] + rest;
        forall i, j | 0 <= i < j < |r| ensures r[i] < r[j] {
          if i == 0 {
            assert r[j] in s[1..];
          }
        }
      }
    }
  }

  /** An ascending sequence drawn from a finite set is no longer than the
      set is large. */
  lemma {:induction false} AscendingWithin(s: seq<int>, pool: set<int>)
    requires Ascending(s)
    requires forall x :: x in s ==> x in pool
    ensures |s| <= |pool|
  {
    if s != [] {
      assert forall x :: x in s[1..] ==> x in pool - {s[0]} by {
        forall x | x in s[1..] ensures x != s[0] {
          var k :| 0 <= k < |s[1..]| && s[1..][k] == x;
          assert s[k + 1] == x;
        }
      }
      assert Ascending(s[1..]) by {
        forall i, j | 0 <= i < j < |s[1..]| ensures s[1..][i] < s[1..][j] {
          assert s[1..][i] == s[i + 1] && s[1..][j] == s[j + 1];
        }
      }
      AscendingWithin(s[1..], pool - {s[0]});
      assert s[0] in s;
      assert |pool - {s[0]}| == |pool| - 1;
    }
  }

  lemma SmallSet(a: int, b: int, c: int, d: int, e: int)
    ensures |{a, b, c, d, e}| <= 5
  {
  }

  /** `prevPage && page - prevPage > 1`: an ellipsis goes before the button
      at `idx` when the page before it in the bar is more than one lower. */
  predicate EllipsisBefore(buttons: seq<int>, idx: int)
    requires 0 <= idx < |buttons|
  {
    idx > 0 && buttons[idx] - buttons[idx - 1] > 1
  }

  /** Consecutive buttons of an ascending bar have no button between them. */
  lemma NoneBetween(r: seq<int>, idx: int, p: int)
    requires Ascending(r) && 0 < idx < |r|
    requires r[idx - 1] < p < r[idx]
    ensures p !in r
  {
    forall k | 0 <= k < |r| ensures r[k] != p {
      if k < idx - 1 {
        assert r[k] < r[idx - 1];
      } else if k > idx {
        assert r[k] > r[idx];
      }
    }
  }

  /** An ellipsis marks exactly the places where existing pages are hidden. */
  lemma EllipsisMarksGap(current: int, total: int, idx: int)
    requires 0 <= idx < |PageButtons(current, total)|
    ensures var r := PageButtons(current, total);
      EllipsisBefore(r, idx) <==> idx > 0 && exists p :: r[idx - 1] < p < r[idx] && 1 <= p <= total && p !in r
  {
    var r := PageButtons(current, total);
    if EllipsisBefore(r, idx) {
      var p := r[idx - 1] + 1;
      assert r[idx - 1] in r && r[idx] in r;
      NoneBetween(r, idx, p);
    }
  }

  /** There are at most two ellipses: one before the first page of the
      current page's neighbourhood and one before the last page. */
  lemma EllipsisPlaces(current: int, total: int, idx: int)
    requires 0 <= idx < |PageButtons(current, total)|
    requires EllipsisBefore(PageButtons(current, total), idx)
    ensures PageButtons(current, total)[idx] == total || PageButtons(current, total)[idx] == current - 1
  {
    var r := PageButtons(current, total);
    assert r[idx - 1] in r && r[idx] in r;
    NoneBetween(r, idx, r[idx] - 1);
  }

  /** The first item number of the "Showing" text. */
  function ShowingFrom(current: int, pageSize: int): int {
    (current - 1) * pageSize + 1
  }

  /** The last item number: the page's end, or the total on the last page. */
  function ShowingTo(current: int, pageSize: int, totalItems: int): (to: int)
    ensures to <= totalItems && to <= current * pageSize
    ensures to == totalItems || to == current * pageSize
  {
    if current * pageSize < totalItems then current * pageSize else totalItems
  }

  /** On a page that holds items the range is non-empty, within the items
      and at most one page long; consecutive pages continue each other. */
  lemma ShowingRange(current: int, pageSize: int, totalItems: int)
    requires current >= 1 && pageSize >= 1
    requires (current - 1) * pageSize < totalItems
    ensures 1 <= ShowingFrom(current, pageSize) <= ShowingTo(current, pageSize, totalItems) <= totalItems
    ensures ShowingTo(current, pageSize, totalItems) - ShowingFrom(current, pageSize) < pageSize
    ensures current * pageSize < totalItems ==> ShowingFrom(current + 1, pageSize) == ShowingTo(current, pageSize, totalItems) + 1
  {
    assert (current - 1) * pageSize >= 0;
    assert current * pageSize == (current - 1) * pageSize + pageSize;
  }

  /** First and Previous are disabled on page 1. */
  predicate BackDisabled(current: int) {
    current == 1
  }

  /** Next and Last are disabled from the last page on. */
  predicate ForwardDisabled(current: int, pageCount: int) {
    current >= pageCount
  }

  /** Every enabled navigation button asks for a page that exists. */
  lemma NavigationInRange(current: int, pageCount: int)
    requires 1 <= current <= pageCount
    ensures !BackDisabled(current) ==> 1 <= current - 1 <= pageCount
    ensures !ForwardDisabled(current, pageCount) ==> 1 <= current + 1 <= pageCount
    ensures BackDisabled(current) && ForwardDisabled(current, pageCount) <==> !ShowBar(pageCount)
  {
  }

  /** The table's pagination state: a zero-based page index and the size. */
  datatype PaginationState = PaginationState(pageIndex: int, pageSize: int)

  /** What the table library hands to `onPaginationChange`: a new state or
      a function of the current one. */
  datatype Updater = Value(state: PaginationState) | Apply(f: PaginationState -> PaginationState)

  /** The one-based page passed to `onPageChange`. */
  function RequestedPage(u: Updater, currentPage: int, pageSize: int): (page: int)
    ensures u.Value? ==> page == u.state.pageIndex + 1
    ensures u.Apply? ==> page == u.f(PaginationState(currentPage - 1, pageSize)).pageIndex + 1
  {
    var next := match u
      case Value(state) => state
      case Apply(f) => f(PaginationState(currentPage - 1, pageSize));
    next.pageIndex + 1
  }

  /** The one-based page and the library's zero-based index convert back
      and forth: an updater that keeps the state reports the current page,
      one that moves the index by `delta` reports the page `delta` away. */
  lemma RequestedPageShift(currentPage: int, pageSize: int, delta: int)
    ensures RequestedPage(Apply((s: PaginationState) => s), currentPage, pageSize) == currentPage
    ensures RequestedPage(Apply((s: PaginationState) => s.(pageIndex := s.pageIndex + delta)), currentPage, pageSize) == currentPage + delta
    ensures RequestedPage(Value(PaginationState(currentPage - 1, pageSize)), currentPage, pageSize) == currentPage
  {
  }
}
