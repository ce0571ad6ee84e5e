/** The list and search view models of the admin pages: the page count both list models derive
    from `TotalCount` and `PageSize`, their defaults, the search model's result count, and the
    status and priority choices the edit form offers. */
module ViewModels {
  import opened Numerics
  import opened StandardEnums
  import opened StandardEntity
  import opened Paging
  import EditPage

  /** `TotalPages` of `StandardListViewModel` and `CategoryListViewModel`:
      `(TotalCount + PageSize - 1) / PageSize` in C# `int` arithmetic. Without overflow it is
      the ceiling of `totalCount / pageSize`: its pages hold every item, and one page fewer
      would not. */
  function TotalPages(totalCount: int32, pageSize: int32): (n: int)
    requires pageSize > 0
    ensures 0 <= totalCount && totalCount + pageSize - 1 <= Int32Max ==>
      n >= 0 && n * pageSize >= totalCount && (n - 1) * pageSize < totalCount
  {
    var q := TruncDiv(Wrap32(totalCount + pageSize - 1), pageSize);
    if 0 <= totalCount && totalCount + pageSize - 1 <= Int32Max then
      CeilingOfQuotient(totalCount, pageSize, q);
      q
    else q
  }

  /** A product of a negative and a positive number is negative. */
  lemma NegativeTimesPositive(x: int, y: int)
    requires x < 0 && y > 0
    ensures x * y < 0
  {
  }

  /** The truncated quotient `q` of `t + b - 1` by `b` is the ceiling of `t / b`. */
  lemma CeilingOfQuotient(t: int, b: int, q: int)
    requires 0 <= t && b > 0 && q * b <= t + b - 1 < q * b + b
    ensures q >= 0 && q * b >= t && (q - 1) * b < t
  {
    assert (q - 1) * b == q * b - b;
    if q < 0 {
      NegativeTimesPositive(q, b);
    }
  }

  /** No number of pages below the page count holds every item. */
  lemma TotalPagesLeast(totalCount: int32, pageSize: int32, k: int)
    requires 0 <= totalCount && pageSize > 0 && totalCount + pageSize - 1 <= Int32Max
    requires k * pageSize >= totalCount
    ensures TotalPages(totalCount, pageSize) <= k
  {
    var n := TotalPages(totalCount, pageSize);
    if n - 1 >= k {
      assert (n - 1) * pageSize - k * pageSize == (n - 1 - k) * pageSize;
      if n - 1 - k > 0 {
        NegativeTimesPositive(k - (n - 1), pageSize);
      }
    }
  }

  /** An empty listing has no pages. */
  lemma NoItemsNoPages(pageSize: int32)
    requires pageSize > 0
    ensures TotalPages(0, pageSize) == 0
  {
    TotalPagesLeast(0, pageSize, 0);
  }

  /** Later pages start no earlier. */
  lemma {:induction false} OffsetMonotone(p: nat, q: nat, pageSize: nat)
    requires 1 <= p <= q
    ensures Offset(p, pageSize) <= Offset(q, pageSize)
    decreases q - p
  {
    if p < q {
      OffsetMonotone(p, q - 1, pageSize);
    }
  }

  /** Every page starts at least one item later than the one before it. */
  lemma {:induction false} OffsetAtLeast(p: nat, pageSize: nat)
    requires p >= 1 && pageSize >= 1
    ensures Offset(p, pageSize) >= p - 1
  {
    if p > 1 {
      OffsetAtLeast(p - 1, pageSize);
    }
  }

  /** The page count in terms of page offsets: the last page starts inside the listing and the
      one after it starts past its end. */
  lemma TotalPagesOffsets(totalCount: int32, pageSize: int32)
    requires 0 <= totalCount && pageSize > 0 && totalCount + pageSize - 1 <= Int32Max
    ensures var n := TotalPages(totalCount, pageSize);
      && n >= 0
      && (n >= 1 ==> Offset(n, pageSize) < totalCount)
      && Offset(n + 1, pageSize) >= totalCount
  {
    var n := TotalPages(totalCount, pageSize);
    OffsetIsProduct(n + 1, pageSize);
    if n >= 1 {
      OffsetIsProduct(n, pageSize);
    }
  }

  /** The page count agrees with the API's pages: each page up to it holds items, and the page
      after it is empty. */
  lemma PagesUpToTotal<T>(all: seq<T>, pageSize: int32)
    requires 1 <= pageSize <= MaxPageSize && |all| + pageSize <= Int32Max
    ensures var n := TotalPages(|all|, pageSize);
      && 0 <= n < Int32Max
      && (forall p: int32 :: 1 <= p <= n ==> PageItems(all, p, pageSize) != [])
      && PageItems(all, n + 1, pageSize) == []
  {
    var n := TotalPages(|all|, pageSize);
    TotalPagesOffsets(|all|, pageSize);
    if n >= 1 {
      OffsetAtLeast(n, pageSize);
    }
    forall p: int32 | 1 <= p <= n ensures PageItems(all, p, pageSize) != [] {
      OffsetMonotone(p, n, pageSize);
    }
  }

  /** The page number, page size and total count of a list view model. */
  datatype ListState = ListState(totalCount: int32, pageNumber: int32, pageSize: int32)

  /** `new StandardListViewModel()`. */
  const NewStandardList := ListState(0, 1, 10)

  /** `new CategoryListViewModel()`. */
  const NewCategoryList := ListState(0, 1, 20)

  /** A new list view model asks for the API's first page, at a page size the API keeps. */
  lemma DefaultListsAreFirstPages()
    ensures ClampPageNumber(NewStandardList.pageNumber) == NewStandardList.pageNumber == 1
    ensures ClampPageSize(NewStandardList.pageSize) == NewStandardList.pageSize == 10
    ensures ClampPageNumber(NewCategoryList.pageNumber) == NewCategoryList.pageNumber == 1
    ensures ClampPageSize(NewCategoryList.pageSize) == NewCategoryList.pageSize == 20
  {
  }

  /** A new list view model has no pages until a count arrives. */
  lemma NewListsHaveNoPages()
    ensures TotalPages(NewStandardList.totalCount, NewStandardList.pageSize) == 0
    ensures TotalPages(NewCategoryList.totalCount, NewCategoryList.pageSize) == 0
  {
    NoItemsNoPages(NewStandardList.pageSize);
    NoItemsNoPages(NewCategoryList.pageSize);
  }

  /** `StandardCreateViewModel.Priority` starts at `Medium`. */
  const NewCreatePriority: int32 := 1

  /** The create form's starting priority is the one the API gives a standard created without
      one, and the one the edit form reads for a priority it does not know. */
  lemma CreateDefaultIsMedium()
    ensures StandardPriority(NewCreatePriority) == Medium
    ensures PriorityName(StandardPriority(NewCreatePriority)) == "Medium"
    ensures EditPage.PriorityValue("Unknown") == NewCreatePriority
  {
  }

  /** `StandardSearchViewModel.ResultCount`: the number of results shown, zero exactly when
      there are none. */
  function ResultCount<T>(results: seq<T>): (n: nat)
    ensures n == 0 <==> results == []
  {
    |results|
  }

  /** `StandardEditViewModel.AvailableStatuses`. */
  const AvailableStatuses: seq<(int32, string)> := [(0, "Active"), (1, "Inactive"), (2, "Archived"), (3, "Deprecated")]

  /** `StandardEditViewModel.AvailablePriorities`. */
  const AvailablePriorities: seq<(int32, string)> := [(0, "Low"), (1, "Medium"), (2, "High"), (3, "Critical")]

  /** Each status choice pairs a value with the name the API prints for it, and the edit form
      reads that name back as the same value. */
  lemma StatusChoices()
    ensures |AvailableStatuses| == |StatusNames|
    ensures forall i :: 0 <= i < |AvailableStatuses| ==>
      && AvailableStatuses[i].0 == i
      && AvailableStatuses[i].1 == StatusName(StandardStatus(i))
      && EditPage.StatusValue(AvailableStatuses[i].1) == i
  {
  }

  /** Each priority choice pairs a value with the name the API prints for it, and the edit form
      reads that name back as the same value. */
  lemma PriorityChoices()
    ensures |AvailablePriorities| == |PriorityNames|
    ensures forall i :: 0 <= i < |AvailablePriorities| ==>
      && AvailablePriorities[i].0 == i
      && AvailablePriorities[i].1 == PriorityName(StandardPriority(i))
      && EditPage.PriorityValue(AvailablePriorities[i].1) == i
  {
  }
}
