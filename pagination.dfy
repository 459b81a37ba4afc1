/** `usePagination`: the page-number strip shown under the table (page numbers with "..." for
    skipped runs), the page count, and the index window of the current page. */
module Pagination {
  import opened Sequences

  datatype PageItem = Page(number: int) | Dots

  /** `Math.ceil(a / b)` for a non-negative count and a positive divisor. */
  function CeilDiv(a: nat, b: nat): (r: nat)
    requires b > 0
    ensures (r - 1) * b < a <= r * b
  {
    var q := a / b;
    assert a == q * b + a % b;
    if a % b == 0 then q else q + 1
  }

  /** `Array.from({ length: count }, (_, i) => start + i)`. */
  function Pages(start: int, count: nat): (r: seq<PageItem>)
    ensures |r| == count && forall i :: 0 <= i < count ==> r[i] == Page(start + i)
  {
    seq(count, i => Page(start + i))
  }

  /** The page strip for `totalPages` pages around `currentPage`, with `siblings` neighbours on
      each side of the current page. */
  function PaginationRange(totalPages: nat, currentPage: int, siblings: nat): (r: seq<PageItem>)
    ensures |r| <= 2 * siblings + 5
    ensures forall i :: 0 <= i < |r| && r[i].Page? ==> 1 <= r[i].number <= totalPages
  {
    var totalNumbers := siblings * 2 + 3;
    var totalBlocks := totalNumbers + 2;
    if totalPages <= totalBlocks then Pages(1, totalPages)
    else
      var leftSiblingIndex := Max(currentPage - siblings, 1);
      var rightSiblingIndex := Min(currentPage + siblings, totalPages);
      var showLeftDots := leftSiblingIndex > 2;
      var showRightDots := rightSiblingIndex < totalPages - 2;
      if !showLeftDots && showRightDots then
        Pages(1, 3 + 2 * siblings) + [Dots, Page(totalPages)]
      else if showLeftDots && !showRightDots then
        var rightItemCount := 3 + 2 * siblings;
        [Page(1), Dots] + Pages(totalPages - rightItemCount + 1, rightItemCount)
      else if showLeftDots && showRightDots then
        [Page(1), Dots] + Pages(leftSiblingIndex, rightSiblingIndex - leftSiblingIndex + 1) + [Dots, Page(totalPages)]
      else
        []
  }

  /** A well-formed strip: it starts at page 1 and ends at the last page, neighbouring numbers are
      consecutive pages, and every "..." sits between two numbers and stands for at least one
      skipped page. */
  ghost predicate WellFormed(r: seq<PageItem>, totalPages: int) {
    && |r| > 0 && r[0] == Page(1) && r[|r| - 1] == Page(totalPages)
    && (forall i :: 0 <= i < |r| - 1 && r[i].Page? && r[i + 1].Page? ==> r[i + 1].number == r[i].number + 1)
    && (forall i :: 0 <= i < |r| && r[i].Dots? ==>
          0 < i < |r| - 1 && r[i - 1].Page? && r[i + 1].Page? && r[i + 1].number > r[i - 1].number + 1)
  }

  ghost predicate StrictlyIncreasing(r: seq<PageItem>) {
    forall i, j :: 0 <= i < j < |r| && r[i].Page? && r[j].Page? ==> r[i].number < r[j].number
  }

  ghost predicate NoAdjacentDots(r: seq<PageItem>) {
    forall i :: 0 <= i < |r| - 1 ==> !(r[i].Dots? && r[i + 1].Dots?)
  }

  lemma {:induction false} WellFormedIncreasingFrom(r: seq<PageItem>, totalPages: int, i: nat, j: nat)
    requires WellFormed(r, totalPages)
    requires i < j < |r| && r[i].Page? && r[j].Page?
    ensures r[i].number < r[j].number
    decreases j - i
  {
    if r[i + 1].Page? {
      if i + 1 < j {
        WellFormedIncreasingFrom(r, totalPages, i + 1, j);
      }
    } else {
      assert r[i + 2].Page? && r[i + 2].number > r[i].number + 1;
      if i + 2 < j {
        WellFormedIncreasingFrom(r, totalPages, i + 2, j);
      }
    }
  }

  /** A well-formed strip lists strictly increasing pages between 1 and the last page and never
      shows two "..." in a row. */
  lemma WellFormedConsequences(r: seq<PageItem>, totalPages: int)
    requires WellFormed(r, totalPages)
    ensures StrictlyIncreasing(r) && NoAdjacentDots(r)
    ensures forall i :: 0 <= i < |r| && r[i].Page? ==> 1 <= r[i].number <= totalPages
  {
    forall i, j | 0 <= i < j < |r| && r[i].Page? && r[j].Page?
      ensures r[i].number < r[j].number
    {
      WellFormedIncreasingFrom(r, totalPages, i, j);
    }
  }

  /** Few pages: every page is listed, with no "...". */
  lemma ShortRange(totalPages: nat, currentPage: int, siblings: nat)
    requires totalPages <= 2 * siblings + 5
    ensures var r := PaginationRange(totalPages, currentPage, siblings);
      && r == Pages(1, totalPages)
      && Dots !in r
      && (totalPages > 0 ==> WellFormed(r, totalPages))
      && (1 <= currentPage <= totalPages ==> Page(currentPage) in r)
  {
    var r := PaginationRange(totalPages, currentPage, siblings);
    if 1 <= currentPage <= totalPages {
      assert r[currentPage - 1] == Page(currentPage);
    }
  }

  /** The strip with only right-hand dots is well formed. */
  lemma LeftShapeWellFormed(n: nat, t: int)
    requires n >= 1 && t > n + 1
    ensures WellFormed(Pages(1, n) + [Dots, Page(t)], t)
  {
    var r := Pages(1, n) + [Dots, Page(t)];
    assert forall i :: 0 <= i < n ==> r[i] == Page(1 + i);
    assert r[n] == Dots && r[n + 1] == Page(t);
  }

  /** The strip with only left-hand dots is well formed. */
  lemma RightShapeWellFormed(a: int, n: nat, t: int)
    requires n >= 1 && a > 2 && a + n - 1 == t
    ensures WellFormed([Page(1), Dots] + Pages(a, n), t)
  {
    var r := [Page(1), Dots] + Pages(a, n);
    assert forall i :: 2 <= i < |r| ==> r[i] == Page(a + i - 2);
  }

  /** The strip with dots on both sides is well formed. */
  lemma MiddleShapeWellFormed(a: int, n: nat, t: int)
    requires n >= 1 && a > 2 && a + n - 1 < t - 1
    ensures WellFormed([Page(1), Dots] + Pages(a, n) + [Dots, Page(t)], t)
  {
    var r := [Page(1), Dots] + Pages(a, n) + [Dots, Page(t)];
    assert forall i :: 2 <= i < n + 2 ==> r[i] == Page(a + i - 2);
    assert r[n + 2] == Dots && r[n + 3] == Page(t);
  }

  /** The strip in the many-pages case, with all three shapes spelled out. */
  ghost predicate TruncatedShape(r: seq<PageItem>, totalPages: nat, currentPage: int, siblings: nat) {
    var t, n := totalPages, 2 * siblings + 3;
    var left, right := Max(currentPage - siblings, 1), Min(currentPage + siblings, t);
    if left <= 2 && right < t - 2 then r == Pages(1, n) + [Dots, Page(t)]
    else if left > 2 && right >= t - 2 then r == [Page(1), Dots] + Pages(t - n + 1, n)
    else (left == currentPage - siblings && right == currentPage + siblings
      && r == [Page(1), Dots] + Pages(left, n - 2) + [Dots, Page(t)])
  }

  lemma TruncatedRangeShape(totalPages: nat, currentPage: int, siblings: nat)
    requires totalPages > 2 * siblings + 5
    ensures TruncatedShape(PaginationRange(totalPages, currentPage, siblings), totalPages, currentPage, siblings)
  {
  }

  /** What the many-pages case promises about a strip `r`. */
  ghost predicate TruncatedFacts(r: seq<PageItem>, totalPages: nat, currentPage: int, siblings: nat) {
    && |r| == 2 * siblings + 5
    && WellFormed(r, totalPages)
    && (1 <= currentPage <= totalPages ==> Page(currentPage) in r)
  }

  lemma LeftShapeFacts(r: seq<PageItem>, t: nat, currentPage: int, s: nat)
    requires t > 2 * s + 5 && currentPage - s <= 2 && currentPage + s < t - 2
    requires r == Pages(1, 2 * s + 3) + [Dots, Page(t)]
    ensures TruncatedFacts(r, t, currentPage, s)
  {
    LeftShapeWellFormed(2 * s + 3, t);
    if 1 <= currentPage <= t {
      assert r[currentPage - 1] == Page(currentPage);
    }
  }

  lemma RightShapeFacts(r: seq<PageItem>, t: nat, currentPage: int, s: nat)
    requires t > 2 * s + 5 && currentPage - s > 2 && currentPage + s >= t - 2
    requires r == [Page(1), Dots] + Pages(t - 2 * s - 2, 2 * s + 3)
    ensures TruncatedFacts(r, t, currentPage, s)
  {
    RightShapeWellFormed(t - 2 * s - 2, 2 * s + 3, t);
    if 1 <= currentPage <= t {
      assert r[currentPage - (t - 2 * s - 2) + 2] == Page(currentPage);
    }
  }

  lemma MiddleShapeFacts(r: seq<PageItem>, t: nat, currentPage: int, s: nat)
    requires t > 2 * s + 5 && currentPage - s > 2 && currentPage + s < t - 2
    requires r == [Page(1), Dots] + Pages(currentPage - s, 2 * s + 1) + [Dots, Page(t)]
    ensures TruncatedFacts(r, t, currentPage, s)
  {
    MiddleShapeWellFormed(currentPage - s, 2 * s + 1, t);
    assert r[s + 2] == Page(currentPage);
  }

  /** Many pages: the strip has exactly `2 * siblings + 5` entries in one of three shapes, is
      well formed, and shows the current page whenever that page exists. The final `return []` of
      the source is never reached. */
  lemma TruncatedRange(totalPages: nat, currentPage: int, siblings: nat)
    requires totalPages > 2 * siblings + 5
    ensures TruncatedFacts(PaginationRange(totalPages, currentPage, siblings), totalPages, currentPage, siblings)
  {
    var s, t := siblings, totalPages;
    var r := PaginationRange(t, currentPage, s);
    TruncatedRangeShape(t, currentPage, s);
    var left := Max(currentPage - s, 1);
    var right := Min(currentPage + s, t);
    if left <= 2 && right < t - 2 {
      LeftShapeFacts(r, t, currentPage, s);
    } else if left > 2 && right >= t - 2 {
      RightShapeFacts(r, t, currentPage, s);
    } else {
      MiddleShapeFacts(r, t, currentPage, s);
    }
  }

  /** The index window `[startIndex, endIndex)` of the items on `currentPage`. */
  datatype PageWindow = PageWindow(startIndex: int, endIndex: int)

  function PageBounds(currentPage: int, itemsPerPage: nat): (w: PageWindow)
    ensures w.startIndex == (currentPage - 1) * itemsPerPage
    ensures w.endIndex - w.startIndex == itemsPerPage
    ensures currentPage >= 1 ==> w.startIndex >= 0
  {
    var startIndex := (currentPage - 1) * itemsPerPage;
    PageWindow(startIndex, startIndex + itemsPerPage)
  }

  /** Every item index lies in the window of exactly one page, and that page exists. */
  lemma PageOfItem(k: nat, totalItems: nat, itemsPerPage: nat)
    requires itemsPerPage > 0 && k < totalItems
    ensures var page := k / itemsPerPage + 1;
      && 1 <= page <= CeilDiv(totalItems, itemsPerPage)
      && InWindow(k, page, itemsPerPage)
      && forall other :: InWindow(k, other, itemsPerPage) ==> other == page
  {
    var page := k / itemsPerPage + 1;
    QuotientPageInRange(k, totalItems, itemsPerPage);
    QuotientPageHoldsItem(k, itemsPerPage);
    forall other | InWindow(k, other, itemsPerPage)
      ensures other == page
    {
      WindowsDisjoint(k, page, other, itemsPerPage);
    }
  }

  lemma QuotientPageInRange(k: nat, totalItems: nat, b: nat)
    requires b > 0 && k < totalItems
    ensures 1 <= k / b + 1 <= CeilDiv(totalItems, b)
  {
    var q := k / b;
    var total := CeilDiv(totalItems, b);
    DivisionBounds(k, b);
    if q + 1 > total {
      MultiplyMonotone(total, q, b);
    }
  }

  lemma QuotientPageHoldsItem(k: nat, b: nat)
    requires b > 0
    ensures InWindow(k, k / b + 1, b)
  {
    DivisionBounds(k, b);
    var w := PageBounds(k / b + 1, b);
    assert w.startIndex == (k / b) * b;
  }

  /** Two pages whose windows hold the same item are the same page. */
  lemma WindowsDisjoint(k: int, page: int, other: int, b: nat)
    requires b > 0 && InWindow(k, page, b) && InWindow(k, other, b)
    ensures page == other
  {
    if other < page {
      MultiplyMonotone(other, page - 1, b);
    } else if other > page {
      MultiplyMonotone(page, other - 1, b);
    }
  }

  /** Item `k` is shown on `page` when it lies in that page's window. */
  predicate InWindow(k: int, page: int, itemsPerPage: nat) {
    PageBounds(page, itemsPerPage).startIndex <= k < PageBounds(page, itemsPerPage).endIndex
  }

  lemma DivisionBounds(k: nat, b: nat)
    requires b > 0
    ensures (k / b) * b <= k < (k / b) * b + b
  {
    assert k == (k / b) * b + k % b;
  }

  lemma MultiplyMonotone(x: int, y: int, b: nat)
    requires x <= y
    ensures x * b <= y * b
  {
    assert y * b - x * b == (y - x) * b;
  }

  datatype PaginationResult = PaginationResult(paginationRange: seq<PageItem>, totalPages: nat, paginatedData: PageWindow)

  /** `usePagination({ totalItems, itemsPerPage, currentPage, siblings })`. */
  function UsePagination(totalItems: nat, itemsPerPage: nat, currentPage: int, siblings: nat): (r: PaginationResult)
    requires itemsPerPage > 0
    ensures (r.totalPages - 1) * itemsPerPage < totalItems <= r.totalPages * itemsPerPage
    ensures r.paginationRange == PaginationRange(r.totalPages, currentPage, siblings)
    ensures r.paginatedData.startIndex == (currentPage - 1) * itemsPerPage
    ensures r.paginatedData.endIndex - r.paginatedData.startIndex == itemsPerPage
  {
    var totalPages := CeilDiv(totalItems, itemsPerPage);
    PaginationResult(PaginationRange(totalPages, currentPage, siblings), totalPages, PageBounds(currentPage, itemsPerPage))
  }
}
