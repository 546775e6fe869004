/**
 * The two pagers: the numbered block pager of the list widgets
 * (`Pagination`), which shows one block of 5 or 10 page buttons between
 * first/previous-block and next-block/last buttons, and the grid's pager
 * (`GridPagination`), which hands the page count and the current page to a
 * library pager. Both render nothing when there is at most one page.
 */
module Pagination {
  import opened JsValues
  import opened Arith

  /** `Math.ceil(totalCount / pageSize)`. */
  function TotalPages(totalCount: nat, pageSize: nat): (n: nat)
    requires pageSize >= 1
    ensures totalCount <= pageSize * n
    ensures n == 0 || pageSize * (n - 1) < totalCount
  {
    var q := CeilDiv(totalCount, pageSize);
    assert pageSize * (q - 1) == pageSize * q - pageSize;
    q
  }

  /** Five page buttons on a viewport at most 768 pixels wide, else ten. */
  function BlockSize(narrow: bool): (size: nat)
    ensures size >= 1
    ensures narrow <==> size == 5
  {
    if narrow then 5 else 10
  }

  /** `Math.ceil(currentPage / pageBlockSize)`. */
  function BlockOf(page: int, size: nat): int
    requires size >= 1
  {
    CeilDiv(page, size)
  }

  function StartOf(page: int, size: nat): int
    requires size >= 1
  {
    (BlockOf(page, size) - 1) * size + 1
  }

  function EndOf(page: int, size: nat, totalPages: nat): int
    requires size >= 1
  {
    Min(StartOf(page, size) + size - 1, totalPages)
  }

  function Min(a: int, b: int): (m: int)
    ensures m <= a && m <= b && (m == a || m == b)
  {
    if a <= b then a else b
  }

  /** A navigation button: the page it goes to and whether it is disabled. */
  datatype NavButton = NavButton(target: int, disabled: bool)

  datatype PageButton = PageButton(number: int, active: bool)

  datatype Pager =
    | Hidden
    | Pager(first: NavButton, previous: NavButton, pages: seq<PageButton>, next: NavButton, last: NavButton)

  /** The consecutive page buttons `start..end`, the current one active. */
  function PageButtons(start: int, end: int, current: int): (r: seq<PageButton>)
    ensures |r| == if end < start then 0 else end - start + 1
    ensures forall i :: 0 <= i < |r| ==> r[i] == PageButton(start + i, start + i == current)
  {
    var n := if end < start then 0 else end - start + 1;
    seq(n, i requires 0 <= i < n => PageButton(start + i, start + i == current))
  }

  /** The block pager for `currentPage`. */
  function Paginate(currentPage: int, totalCount: nat, pageSize: nat, narrow: bool): (p: Pager)
    requires pageSize >= 1
    ensures p.Hidden? <==> TotalPages(totalCount, pageSize) <= 1
  {
    var total := TotalPages(totalCount, pageSize);
    var size := BlockSize(narrow);
    var start := StartOf(currentPage, size);
    var end := EndOf(currentPage, size, total);
    if total <= 1 then Hidden
    else Pager(
      NavButton(1, currentPage == 1),
      NavButton(start - 1, BlockOf(currentPage, size) == 1),
      PageButtons(start, end, currentPage),
      NavButton(end + 1, end >= total),
      NavButton(total, currentPage == total))
  }

  /** For a page in range, the block shown starts at or before it and ends at
      or after it, holds at most one block's worth of consecutive pages, and
      marks exactly that page active. */
  lemma CurrentPageInBlock(currentPage: int, totalCount: nat, pageSize: nat, narrow: bool)
    requires pageSize >= 1
    requires 1 <= currentPage <= TotalPages(totalCount, pageSize)
    requires TotalPages(totalCount, pageSize) > 1
    ensures var p := Paginate(currentPage, totalCount, pageSize, narrow);
      var size := BlockSize(narrow);
      && p.Pager?
      && 1 <= |p.pages| <= size
      && p.pages[0].number <= currentPage <= p.pages[|p.pages| - 1].number
      && p.pages[currentPage - p.pages[0].number].active
      && (forall i :: 0 <= i < |p.pages| ==> (p.pages[i].active <==> p.pages[i].number == currentPage))
  {
    var size := BlockSize(narrow);
    var b := BlockOf(currentPage, size);
    assert size * (b - 1) == (b - 1) * size == size * b - size;
  }

  /** Every page of a block shows the same block, so moving within it does
      not change which page buttons are shown. */
  lemma BlockSharedWithinBlock(page: int, other: int, size: nat)
    requires size >= 1
    requires StartOf(page, size) <= other <= StartOf(page, size) + size - 1
    ensures BlockOf(other, size) == BlockOf(page, size)
    ensures StartOf(other, size) == StartOf(page, size)
  {
    var b := BlockOf(page, size);
    assert size * (b - 1) == (b - 1) * size == size * b - size;
    CeilUnique(other, size, b);
  }

  /** The previous-block button goes to the last page of the previous block,
      and the next-block button, when enabled, to the first page of the next. */
  lemma NavigationCrossesOneBlock(currentPage: int, totalCount: nat, pageSize: nat, narrow: bool)
    requires pageSize >= 1
    requires TotalPages(totalCount, pageSize) > 1
    ensures var p := Paginate(currentPage, totalCount, pageSize, narrow);
      var size := BlockSize(narrow);
      var b := BlockOf(currentPage, size);
      && BlockOf(p.previous.target, size) == b - 1
      && (!p.next.disabled ==> BlockOf(p.next.target, size) == b + 1 && p.next.target <= TotalPages(totalCount, pageSize))
  {
    var size := BlockSize(narrow);
    var b := BlockOf(currentPage, size);
    var start := StartOf(currentPage, size);
    assert size * (b - 1) == (b - 1) * size == size * b - size;
    assert size * (b - 2) == size * (b - 1) - size;
    CeilUnique(start - 1, size, b - 1);
    assert size * (b + 1) == size * b + size;
    CeilUnique(start + size, size, b + 1);
  }

  /** The first and last buttons go to the ends of the page range and are
      disabled exactly on those pages. */
  lemma EndsOfRange(currentPage: int, totalCount: nat, pageSize: nat, narrow: bool)
    requires pageSize >= 1
    requires TotalPages(totalCount, pageSize) > 1
    ensures var p := Paginate(currentPage, totalCount, pageSize, narrow);
      && p.first.target == 1 && (p.first.disabled <==> currentPage == 1)
      && p.last.target == TotalPages(totalCount, pageSize)
      && (p.last.disabled <==> currentPage == TotalPages(totalCount, pageSize))
      && (p.previous.disabled <==> p.previous.target == 0)
  {
    var size := BlockSize(narrow);
    var b := BlockOf(currentPage, size);
    assert (b - 1) * size == 0 <==> b == 1 by {
      if b != 1 {
        MulGap(size, 0, if b > 1 then b - 1 else 1 - b);
      }
    }
  }

  // ---------------------------------------------------------------------------
  // The grid's pager
  // ---------------------------------------------------------------------------

  /** The library pager's inputs: the page count, the current page, and the
      small size on a phone. */
  datatype GridPager = GridPager(count: nat, page: int, small: bool)

  function GridPagination(currentPage: int, totalCount: nat, pageSize: nat, mobile: bool): (r: Option<GridPager>)
    requires pageSize >= 1
    ensures r.None? <==> TotalPages(totalCount, pageSize) <= 1
    ensures r.Some? ==> r.value == GridPager(TotalPages(totalCount, pageSize), currentPage, mobile)
  {
    var total := TotalPages(totalCount, pageSize);
    if total <= 1 then None else Some(GridPager(total, currentPage, mobile))
  }

  /** Both pagers appear for the same data, and then agree on the page count. */
  lemma PagersAgree(currentPage: int, totalCount: nat, pageSize: nat, narrow: bool, mobile: bool)
    requires pageSize >= 1
    ensures GridPagination(currentPage, totalCount, pageSize, mobile).None?
        <==> Paginate(currentPage, totalCount, pageSize, narrow).Hidden?
    ensures GridPagination(currentPage, totalCount, pageSize, mobile).Some? ==>
      GridPagination(currentPage, totalCount, pageSize, mobile).value.count
        == Paginate(currentPage, totalCount, pageSize, narrow).last.target
  {
  }

  /** A pager appears exactly when there are more rows than fit on one page. */
  lemma ShownIffMoreThanOnePage(totalCount: nat, pageSize: nat)
    requires pageSize >= 1
    ensures TotalPages(totalCount, pageSize) > 1 <==> totalCount > pageSize
  {
    var n := TotalPages(totalCount, pageSize);
    if n <= 1 {
      MulLe(pageSize, n, 1);
    } else {
      MulLe(pageSize, 1, n - 1);
    }
  }
}
