/** The pagination both API controllers apply to a full listing: the page size is clamped to
    1..100, the page number to at least 1, and the page is `Skip((pageNumber - 1) * pageSize)`
    followed by `Take(pageSize)`. The offset is computed in C# `int` arithmetic, which wraps
    around for large page numbers; `PageAsWritten` keeps that behaviour and `Page` computes the
    offset without overflow. */
module Paging {
  import opened Numerics
  import opened Linq

  /** A page of a listing: `StandardListResponse` and `CategoryListResponse`. */
  datatype ListPage<T> = ListPage(items: seq<T>, totalCount: int, pageNumber: int, pageSize: int)

  const MaxPageSize := 100

  /** `Math.Min(Math.Max(pageSize, 1), 100)`. */
  function ClampPageSize(pageSize: int32): (s: int32)
    ensures 1 <= s <= MaxPageSize
    ensures 1 <= pageSize <= MaxPageSize ==> s == pageSize
    ensures pageSize < 1 ==> s == 1
    ensures pageSize > MaxPageSize ==> s == MaxPageSize
  {
    Min(Max(pageSize, 1), MaxPageSize)
  }

  /** `Math.Max(pageNumber, 1)`. */
  function ClampPageNumber(pageNumber: int32): (p: int32)
    ensures p >= 1
    ensures pageNumber >= 1 ==> p == pageNumber
    ensures pageNumber < 1 ==> p == 1
  {
    Max(pageNumber, 1)
  }

  /** The items of page `pageNumber` with the offset computed as C# does, wrapping at 32 bits. */
  function PageItemsAsWritten<T>(all: seq<T>, pageNumber: int32, pageSize: int32): (r: seq<T>)
    requires pageNumber >= 1 && 1 <= pageSize <= MaxPageSize
    ensures |r| <= pageSize
  {
    Take(Skip(all, Wrap32((pageNumber - 1) * pageSize)), pageSize)
  }

  /** The items of page `pageNumber`: the slice of `all` from `(pageNumber - 1) * pageSize`
      holding at most `pageSize` items, empty past the end of the listing. */
  function PageItems<T>(all: seq<T>, pageNumber: int32, pageSize: int32): (r: seq<T>)
    requires pageNumber >= 1 && 1 <= pageSize <= MaxPageSize
    ensures |r| <= pageSize
    ensures var start := Offset(pageNumber, pageSize);
      r == all[Min(start, |all|)..Min(start + pageSize, |all|)]
    ensures Offset(pageNumber, pageSize) >= |all| ==> r == []
  {
    Take(Skip(all, Offset(pageNumber, pageSize)), pageSize)
  }

  /** The number of items before page `pageNumber`: `pageNumber - 1` whole pages. */
  function Offset(pageNumber: nat, pageSize: nat): (k: nat)
    requires pageNumber >= 1
  {
    if pageNumber == 1 then 0 else Offset(pageNumber - 1, pageSize) + pageSize
  }

  /** The offset is the product the controllers compute. */
  lemma {:induction false} OffsetIsProduct(pageNumber: nat, pageSize: nat)
    requires pageNumber >= 1
    ensures Offset(pageNumber, pageSize) == (pageNumber - 1) * pageSize
  {
    if pageNumber > 1 {
      OffsetIsProduct(pageNumber - 1, pageSize);
    }
  }

  /** The controllers' `GetAll…` listing, offset computed as C# does. */
  function PageAsWritten<T>(all: seq<T>, pageNumber: int32, pageSize: int32): (r: ListPage<T>)
    ensures r.totalCount == |all|
    ensures r.pageNumber == ClampPageNumber(pageNumber) && r.pageSize == ClampPageSize(pageSize)
    ensures |r.items| <= r.pageSize
  {
    var s := ClampPageSize(pageSize);
    var p := ClampPageNumber(pageNumber);
    ListPage(PageItemsAsWritten(all, p, s), |all|, p, s)
  }

  /** The controllers' `GetAll…` listing with the offset computed without overflow. */
  function Page<T>(all: seq<T>, pageNumber: int32, pageSize: int32): (r: ListPage<T>)
    ensures r.totalCount == |all|
    ensures r.pageNumber == ClampPageNumber(pageNumber) && r.pageSize == ClampPageSize(pageSize)
    ensures |r.items| <= r.pageSize
    ensures r.items == PageItems(all, r.pageNumber, r.pageSize)
  {
    var s := ClampPageSize(pageSize);
    var p := ClampPageNumber(pageNumber);
    ListPage(PageItems(all, p, s), |all|, p, s)
  }

  /** While the offset fits in an `int`, the code as written computes the intended page. */
  lemma PageAsWrittenWithoutOverflow<T>(all: seq<T>, pageNumber: int32, pageSize: int32)
    requires (ClampPageNumber(pageNumber) - 1) * ClampPageSize(pageSize) <= Int32Max
    ensures PageAsWritten(all, pageNumber, pageSize) == Page(all, pageNumber, pageSize)
  {
    var p := ClampPageNumber(pageNumber);
    var s := ClampPageSize(pageSize);
    OffsetFits(p, s);
    assert PageItemsAsWritten(all, p, s) == PageItems(all, p, s);
  }

  /** An offset that fits in an `int` is computed exactly. */
  lemma OffsetFits(p: int32, s: int32)
    requires p >= 1 && 1 <= s && (p - 1) * s <= Int32Max
    ensures Wrap32((p - 1) * s) == Offset(p, s)
  {
    OffsetIsProduct(p, s);
    assert 0 <= (p - 1) * s;
  }

  /** Page 21474838 of 100 items: the offset 2147483700 wraps to -2147483596, `Skip` of a
      negative count skips nothing, and the first page comes back instead of an empty one. */
  lemma PageOffsetOverflow()
    ensures Wrap32((21474838 - 1) * 100) == -2147483596
    ensures PageAsWritten([1, 2, 3], 21474838, 100).items == [1, 2, 3]
    ensures Page([1, 2, 3], 21474838, 100).items == []
  {
    var k := (21474838 - 1) * 100;
    assert k == 2147483700;
    assert k % 0x1_0000_0000 == k;
    assert Wrap32(k) == -2147483596;
    assert Skip([1, 2, 3], -2147483596) == [1, 2, 3];
    assert PageItemsAsWritten([1, 2, 3], 21474838, 100) == [1, 2, 3];
    OffsetIsProduct(21474838, 100);
    assert Offset(21474838, 100) >= 3;
  }

  /** Every item of the listing is on page `i / pageSize + 1`, at position `i % pageSize`. */
  lemma ItemOnItsPage<T>(all: seq<T>, i: nat, pageSize: int32)
    requires i < |all| && 1 <= pageSize <= MaxPageSize
    requires i / pageSize + 1 <= Int32Max
    ensures var p := i / pageSize + 1;
      |PageItems(all, p, pageSize)| > i % pageSize &&
      PageItems(all, p, pageSize)[i % pageSize] == all[i]
  {
    var p := i / pageSize + 1;
    var r := i % pageSize;
    var start := Offset(p, pageSize);
    assert start + r == i && r < pageSize by {
      DivModSplit(i, pageSize);
    }
    assert PageItems(all, p, pageSize)[r] == all[start + r];
  }

  /** `i` is `i / d` whole blocks of `d` plus the remainder. */
  lemma DivModSplit(i: nat, d: nat)
    requires d > 0
    ensures Offset(i / d + 1, d) + i % d == i && 0 <= i % d < d
  {
    OffsetIsProduct(i / d + 1, d);
  }

  /** Consecutive pages continue where the previous one stopped: pages 1..n together are the
      items before page n + 1, so no item is shown twice or skipped. */
  lemma {:induction false} PagesConcatenate<T>(all: seq<T>, n: nat, pageSize: int32)
    requires 1 <= pageSize <= MaxPageSize && n < Int32Max
    ensures Pages(all, n, pageSize) == all[..Min(Offset(n + 1, pageSize), |all|)]
  {
    if n > 0 {
      PagesConcatenate(all, n - 1, pageSize);
      var start := Offset(n, pageSize);
      assert Offset(n + 1, pageSize) == start + pageSize;
      var a := Min(start, |all|);
      var b := Min(start + pageSize, |all|);
      assert Pages(all, n - 1, pageSize) == all[..a];
      assert PageItems(all, n, pageSize) == all[a..b];
      PrefixThenSlice(all, a, b);
    }
  }

  /** A prefix followed by the slice that continues it is the longer prefix. */
  lemma PrefixThenSlice<T>(all: seq<T>, a: nat, b: nat)
    requires a <= b <= |all|
    ensures all[..a] + all[a..b] == all[..b]
  {
  }

  /** Pages 1..n of the listing, one after another. */
  function Pages<T>(all: seq<T>, n: nat, pageSize: int32): seq<T>
    requires 1 <= pageSize <= MaxPageSize && n < Int32Max
  {
    if n == 0 then [] else Pages(all, n - 1, pageSize) + PageItems(all, n, pageSize)
  }
}
