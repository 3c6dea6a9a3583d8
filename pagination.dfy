/**
 * `Pagination`: a list of items cut into pages of a fixed size, with a
 * 0-based current page that navigation keeps inside the pages that exist.
 */
module Paging {
  import opened Wrappers

  /** `ceil(n / d)`. */
  function CeilDiv(n: nat, d: nat): (r: nat)
    requires d > 0
    ensures r * d >= n
    ensures r > 0 ==> (r - 1) * d < n
    ensures n == 0 <==> r == 0
  {
    (n + d - 1) / d
  }

  /** Page `k` (0-based): `items[k*size : min(k*size + size, len)]`. */
  function PageOf<T>(items: seq<T>, size: nat, k: nat): (r: seq<T>)
    requires size > 0 && k * size <= |items|
    ensures |r| <= size && k * size + |r| <= |items|
    ensures forall i :: 0 <= i < |r| ==> r[i] == items[k * size + i]
  {
    var start := k * size;
    var end := if start + size < |items| then start + size else |items|;
    items[start..end]
  }

  /** Pages `0 .. k-1`, one after the other. */
  function Pages<T>(items: seq<T>, size: nat, k: nat): seq<T>
    requires size > 0 && k <= CeilDiv(|items|, size)
  {
    if k == 0 then [] else
      LessPagesFit(|items|, size, k - 1);
      Pages(items, size, k - 1) + PageOf(items, size, k - 1)
  }

  lemma LessPagesFit(n: nat, size: nat, k: nat)
    requires size > 0 && k < CeilDiv(n, size)
    ensures k * size < n
  {
    var c := CeilDiv(n, size);
    assert (c - 1) * size < n;
    assert k * size <= (c - 1) * size by {
      MulMono(k, c - 1, size);
    }
  }

  /** More items never mean fewer pages. */
  lemma CeilDivMono(a: nat, b: nat, d: nat)
    requires d > 0 && a <= b
    ensures CeilDiv(a, d) <= CeilDiv(b, d)
  {
    var ca, cb := CeilDiv(a, d), CeilDiv(b, d);
    if ca > cb {
      assert cb * d >= b >= a;
      assert (ca - 1) * d < a;
      MulMono(cb, ca - 1, d);
    }
  }

  lemma MulMono(a: nat, b: nat, m: nat)
    requires a <= b
    ensures a * m <= b * m
  {
  }

  /** The first `k` pages are the first `min(k*size, len)` items. */
  lemma {:induction false} PagesArePrefix<T>(items: seq<T>, size: nat, k: nat)
    requires size > 0 && k <= CeilDiv(|items|, size)
    ensures Pages(items, size, k) == items[..if k * size < |items| then k * size else |items|]
  {
    if k > 0 {
      LessPagesFit(|items|, size, k - 1);
      PagesArePrefix(items, size, k - 1);
      assert (k - 1) * size + size == k * size;
      var start := (k - 1) * size;
      var end := if k * size < |items| then k * size else |items|;
      assert items[..start] + items[start..end] == items[..end];
    }
  }

  /** Together the pages hold every item, in order, each exactly once. */
  lemma PagesCoverItems<T>(items: seq<T>, size: nat)
    requires size > 0
    ensures Pages(items, size, CeilDiv(|items|, size)) == items
  {
    PagesArePrefix(items, size, CeilDiv(|items|, size));
    assert items[..|items|] == items;
  }

  /** Every page but the last is full, and no page is empty. */
  lemma PageSizes<T>(items: seq<T>, size: nat, k: nat)
    requires size > 0 && k < CeilDiv(|items|, size)
    ensures k * size < |items|
    ensures |PageOf(items, size, k)| >= 1
    ensures k + 1 < CeilDiv(|items|, size) ==> |PageOf(items, size, k)| == size
  {
    LessPagesFit(|items|, size, k);
    if k + 1 < CeilDiv(|items|, size) {
      LessPagesFit(|items|, size, k + 1);
      assert (k + 1) * size == k * size + size;
    }
  }

  /** The current page of a valid pagination starts inside the items (at 0 when there are none). */
  lemma CurrentPageStarts(n: nat, size: nat, current: nat)
    requires size > 0 && (current < CeilDiv(n, size) || current == 0)
    ensures current * size <= n
    ensures n > 0 ==> current < CeilDiv(n, size) && current * size < n
  {
    if n > 0 {
      LessPagesFit(n, size, current);
    }
  }

  /** A page follows page `current` exactly when items lie past its end. */
  lemma NextPageExists(n: nat, size: nat, current: nat)
    requires size > 0 && (current < CeilDiv(n, size) || current == 0)
    ensures current + 1 < CeilDiv(n, size) <==> current * size + size < n
  {
    var c := CeilDiv(n, size);
    assert (current + 1) * size == current * size + size;
    if current + 1 < c {
      LessPagesFit(n, size, current + 1);
    }
  }

  /** The position of the first occurrence of `x`. */
  function FirstIndex<T(==)>(xs: seq<T>, x: T): (i: nat)
    requires x in xs
    ensures i < |xs| && xs[i] == x
    ensures x !in xs[..i]
  {
    if xs[0] == x then 0
    else
      var j := FirstIndex(xs[1..], x);
      assert xs[..j + 1] == [xs[0]] + xs[1..][..j];
      j + 1
  }

  /** The first occurrence of `x` removed (`list.remove`): the rest keep their order. */
  function RemoveFirst<T(==)>(xs: seq<T>, x: T): (r: seq<T>)
    requires x in xs
    ensures r == xs[..FirstIndex(xs, x)] + xs[FirstIndex(xs, x) + 1..]
    ensures |r| == |xs| - 1
    ensures multiset(r) == multiset(xs) - multiset{x}
  {
    if xs[0] == x then
      assert xs == [xs[0]] + xs[1..];
      xs[1..]
    else
      var i := FirstIndex(xs[1..], x);
      var rest := RemoveFirst(xs[1..], x);
      assert FirstIndex(xs, x) == i + 1;
      CutAfterHead(xs, i, rest);
      ConsMultiset(xs, x, rest);
      [xs[0]] + rest
  }

  /** Cutting out position `i + 1` of `xs` is keeping the head and cutting position `i` out of the tail. */
  lemma CutAfterHead<T>(xs: seq<T>, i: nat, rest: seq<T>)
    requires i + 1 < |xs|
    requires rest == xs[1..][..i] + xs[1..][i + 1..]
    ensures [xs[0]] + rest == xs[..i + 1] + xs[i + 2..]
  {
    ConsSlices(xs, i);
    assert [xs[0]] + (xs[1..][..i] + xs[1..][i + 1..]) == ([xs[0]] + xs[1..][..i]) + xs[1..][i + 1..];
  }

  lemma ConsMultiset<T>(xs: seq<T>, x: T, rest: seq<T>)
    requires xs != [] && xs[0] != x
    requires multiset(rest) == multiset(xs[1..]) - multiset{x}
    ensures multiset([xs[0]] + rest) == multiset(xs) - multiset{x}
  {
    assert xs == [xs[0]] + xs[1..];
  }

  lemma ConsSlices<T>(xs: seq<T>, i: nat)
    requires i + 1 < |xs|
    ensures xs[..i + 1] == [xs[0]] + xs[1..][..i]
    ensures xs[i + 2..] == xs[1..][i + 1..]
  {
  }

  class Pagination<T(==)> {
    var items: seq<T>
    var pageSize: int
    var currentPage: int   // 0-based
    var totalPages: int

    /** The page count matches the items, and the current page exists (page 0 stands for an empty list). */
    predicate Valid()
      reads this
    {
      && pageSize > 0
      && totalPages == CeilDiv(|items|, pageSize)
      && 0 <= currentPage
      && (currentPage < totalPages || currentPage == 0)
    }

    constructor(items: seq<T>, pageSize: int)
      requires pageSize > 0
      ensures Valid()
      ensures this.items == items && this.pageSize == pageSize && currentPage == 0
    {
      this.items := items;
      this.pageSize := pageSize;
      currentPage := 0;
      totalPages := CeilDiv(|items|, pageSize);
    }

    /** `Pagination(items, page_size)`: a page size of 0 or less is refused (ValueError). */
    static method Create(items: seq<T>, pageSize: int) returns (r: Option<Pagination<T>>)
      ensures r.None? <==> pageSize <= 0
      ensures r.Some? ==> fresh(r.value) && r.value.Valid() && r.value.items == items && r.value.currentPage == 0
    {
      if pageSize <= 0 {
        return None;
      }
      var p := new Pagination(items, pageSize);
      return Some(p);
    }

    /** Some items lie after the current page. */
    function HasNextPage(): (r: bool)
      reads this
      requires Valid()
      ensures r <==> EndIndex() < |items|
    {
      NextPageExists(|items|, pageSize, currentPage);
      currentPage < totalPages - 1
    }

    /** Some items lie before the current page. */
    function HasPreviousPage(): (r: bool)
      reads this
      requires Valid()
      ensures r <==> StartIndex() > 0
    {
      currentPage > 0
    }

    /** The items before the current page are exactly the earlier pages. */
    function StartIndex(): (r: nat)
      reads this
      requires Valid()
      ensures r <= |items|
      ensures items != [] ==> r < |items|
      ensures items[..r] == Pages(items, pageSize, currentPage)
    {
      CurrentPageStarts(|items|, pageSize, currentPage);
      PagesArePrefix(items, pageSize, currentPage);
      currentPage * pageSize
    }

    /** The items up to the end of the current page are the pages up to and including it. */
    function EndIndex(): (r: nat)
      reads this
      requires Valid()
      ensures StartIndex() <= r <= |items|
      ensures r - StartIndex() <= pageSize
      ensures items == [] ==> r == 0
      ensures items != [] ==> items[..r] == Pages(items, pageSize, currentPage + 1)
    {
      CurrentPageStarts(|items|, pageSize, currentPage);
      var end := if StartIndex() + pageSize < |items| then StartIndex() + pageSize else |items|;
      assert items != [] ==> items[..end] == Pages(items, pageSize, currentPage + 1) by {
        if items != [] {
          PagesArePrefix(items, pageSize, currentPage + 1);
          assert (currentPage + 1) * pageSize == currentPage * pageSize + pageSize;
        }
      }
      end
    }

    /** The items shown: the current page of the items. */
    function GetCurrentPageItems(): (r: seq<T>)
      reads this
      requires Valid()
      ensures r == PageOf(items, pageSize, currentPage)
      ensures |items| > 0 ==> 1 <= |r| <= pageSize
    {
      CurrentPageStarts(|items|, pageSize, currentPage);
      assert |items| > 0 ==> |PageOf(items, pageSize, currentPage)| >= 1 by {
        if |items| > 0 {
          PageSizes(items, pageSize, currentPage);
        }
      }
      items[StartIndex()..EndIndex()]
    }

    /** The page number shown to users: 1-based, so the pages before the shown one number one less. */
    function CurrentPage(): (r: int)
      reads this
      requires Valid()
      ensures 1 <= r && (totalPages > 0 ==> r <= totalPages)
      ensures 1 <= r <= totalPages + 1 && Pages(items, pageSize, r - 1) == items[..StartIndex()]
    {
      var start := StartIndex();
      assert items[..start] == Pages(items, pageSize, currentPage);
      currentPage + 1
    }

    /** The number of items: what the pages hold together, filling `totalPages` pages. */
    function TotalItems(): (r: nat)
      reads this
      requires Valid()
      ensures r == |Pages(items, pageSize, totalPages)|
      ensures (totalPages - 1) * pageSize < r <= totalPages * pageSize || (r == 0 && totalPages == 0)
    {
      PagesCoverItems(items, pageSize);
      |items|
    }

    method AddItem(item: T)
      requires Valid()
      modifies this
      ensures Valid()
      ensures items == old(items) + [item]
      ensures currentPage == old(currentPage) && pageSize == old(pageSize)
      ensures totalPages == CeilDiv(|old(items)| + 1, pageSize)
    {
      CeilDivMono(|items|, |items| + 1, pageSize);
      items := items + [item];
      totalPages := CeilDiv(|items|, pageSize);
    }

    /**
     * Removes the first occurrence (`list.remove`, which raises ValueError
     * when the item is absent: `removed` is false and nothing changes); a
     * current page that no longer exists moves to the last page.
     */
    method RemoveItem(item: T) returns (removed: bool)
      requires Valid()
      modifies this
      ensures Valid()
      ensures removed <==> item in old(items)
      ensures !removed ==> items == old(items) && currentPage == old(currentPage) && totalPages == old(totalPages)
      ensures removed ==> items == RemoveFirst(old(items), item)
      ensures removed ==> currentPage == if old(currentPage) < totalPages then old(currentPage) else (if totalPages > 0 then totalPages - 1 else 0)
      ensures pageSize == old(pageSize)
    {
      if item !in items {
        return false;
      }
      items := RemoveFirst(items, item);
      totalPages := CeilDiv(|items|, pageSize);
      if currentPage >= totalPages {
        currentPage := if totalPages - 1 > 0 then totalPages - 1 else 0;
      }
      return true;
    }

    method GoBack()
      requires Valid()
      modifies this
      ensures Valid()
      ensures currentPage == if old(HasPreviousPage()) then old(currentPage) - 1 else old(currentPage)
      ensures items == old(items) && pageSize == old(pageSize) && totalPages == old(totalPages)
    {
      if HasPreviousPage() {
        currentPage := currentPage - 1;
      }
    }

    method GoNext()
      requires Valid()
      modifies this
      ensures Valid()
      ensures currentPage == if old(HasNextPage()) then old(currentPage) + 1 else old(currentPage)
      ensures items == old(items) && pageSize == old(pageSize) && totalPages == old(totalPages)
    {
      if HasNextPage() {
        currentPage := currentPage + 1;
      }
    }

    /** Jump to a page, clamped into `0 .. total_pages - 1` (0 when there are no pages). */
    method GoPage(pageNumber: int)
      requires Valid()
      modifies this
      ensures Valid()
      ensures 0 <= pageNumber < totalPages ==> currentPage == pageNumber
      ensures pageNumber < 0 ==> currentPage == 0
      ensures pageNumber >= totalPages ==> currentPage == if totalPages > 0 then totalPages - 1 else 0
      ensures items == old(items) && pageSize == old(pageSize) && totalPages == old(totalPages)
    {
      var upper := if pageNumber < totalPages - 1 then pageNumber else totalPages - 1;
      currentPage := if 0 > upper then 0 else upper;
    }
  }
}
