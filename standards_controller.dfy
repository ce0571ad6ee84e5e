/** The parts of `StandardsController` with behaviour of their own: the paged listing, the
    search endpoint's query guard and category filter, and the order of steps in
    `CreateStandard`. */
module StandardsApi {
  import opened Wrappers
  import opened Errors
  import opened Numerics
  import opened Guids
  import opened StandardEnums
  import opened StandardEntity
  import opened ChromaModels
  import opened StandardServices
  import opened Paging
  import opened ApiModels
  import Text

  /** `GetAllStandards`: the requested page of the full listing `all`, its offset computed in
      32-bit arithmetic as the controller does; while that offset fits in an `int` it is the
      intended page. */
  function GetAllStandards(all: seq<Standard>, pageNumber: int32, pageSize: int32): (r: ActionResult<ListPage<Standard>>)
    ensures r.Ok?
    ensures r.body.totalCount == |all| && |r.body.items| <= r.body.pageSize <= MaxPageSize
    ensures r.body.pageNumber == ClampPageNumber(pageNumber) && r.body.pageSize == ClampPageSize(pageSize)
    ensures (ClampPageNumber(pageNumber) - 1) * ClampPageSize(pageSize) <= Int32Max ==>
      r.body == Page(all, pageNumber, pageSize)
  {
    if (ClampPageNumber(pageNumber) - 1) * ClampPageSize(pageSize) <= Int32Max then
      PageAsWrittenWithoutOverflow(all, pageNumber, pageSize);
      Ok(PageAsWritten(all, pageNumber, pageSize))
    else Ok(PageAsWritten(all, pageNumber, pageSize))
  }

  /** The search results whose category equals `category` ignoring ASCII case, in order. */
  function FilterByCategory(results: seq<Standard>, category: string): (r: seq<Standard>)
    ensures |r| <= |results|
    ensures forall i :: 0 <= i < |r| ==> r[i] in results && Text.EqualsIgnoreCase(r[i].category, category)
    ensures forall i :: 0 <= i < |results| && Text.EqualsIgnoreCase(results[i].category, category) ==> results[i] in r
  {
    if |results| == 0 then []
    else
      var last := results[|results| - 1];
      FilterByCategory(results[..|results| - 1], category)
        + if Text.EqualsIgnoreCase(last.category, category) then [last] else []
  }

  /** Filtering keeps the order: the filter of a concatenation is the concatenation of the
      filters. */
  lemma {:induction false} FilterByCategoryAppend(a: seq<Standard>, b: seq<Standard>, category: string)
    ensures FilterByCategory(a + b, category) == FilterByCategory(a, category) + FilterByCategory(b, category)
  {
    if |b| == 0 {
      assert a + b == a;
    } else {
      assert (a + b)[..|a + b| - 1] == a + b[..|b| - 1];
      FilterByCategoryAppend(a, b[..|b| - 1], category);
    }
  }

  /** Results that all match are kept as they are. */
  lemma {:induction false} FilterByCategoryAllMatch(results: seq<Standard>, category: string)
    requires forall i :: 0 <= i < |results| ==> Text.EqualsIgnoreCase(results[i].category, category)
    ensures FilterByCategory(results, category) == results
  {
    if |results| > 0 {
      FilterByCategoryAllMatch(results[..|results| - 1], category);
      assert results[..|results| - 1] + [results[|results| - 1]] == results;
    }
  }

  const EmptyQuery := ApiErrorResponse(400, "Search query cannot be empty", None)

  /** The body of a successful search: one page holding every result. */
  function SearchPage(results: seq<Standard>): ListPage<Standard> {
    ListPage(results, |results|, 1, |results|)
  }

  /** `SearchStandards`: a blank query is refused before the service is asked; otherwise the
      service's results, narrowed to `category` when one is given, come back as one page. */
  method SearchStandards(service: StandardService, query: string, category: Option<string>,
                         all: seq<Standard>, keywordMatches: seq<Standard>)
    returns (r: ActionResult<ListPage<Standard>>)
    ensures Text.Blank(query) ==> r == BadRequest(EmptyQuery)
    ensures !Text.Blank(query) ==>
      var results := service.SearchResults(query, all, keywordMatches);
      var kept := if Text.NullOrBlank(category) then results else FilterByCategory(results, category.value);
      r == Ok(SearchPage(kept))
    ensures r.Ok? ==> r.body.pageNumber == 1 && r.body.totalCount == r.body.pageSize == |r.body.items|
  {
    if Text.Blank(query) {
      return BadRequest(EmptyQuery);
    }
    var results, _ := service.Search(query, all, keywordMatches);
    if !Text.NullOrBlank(category) {
      results := FilterByCategory(results, category.value);
    }
    r := Ok(SearchPage(results));
  }

  /** `CreateStandardRequest`. */
  datatype CreateStandardRequest = CreateStandardRequest(
    title: string, description: string, category: string,
    priority: Option<int32>, tags: Option<seq<string>>)

  /** The tags after `AddTag` has been applied for each of `xs` in turn. */
  function WithTags(tags: seq<string>, xs: seq<string>): (r: seq<string>)
    ensures TagsWellFormed(tags) ==> TagsWellFormed(r)
  {
    if |xs| == 0 then tags
    else WithTag(WithTags(tags, xs[..|xs| - 1]), xs[|xs| - 1])
  }

  /** A tag ends up on the standard exactly when it was there already or was requested and is
      not blank. */
  lemma {:induction false} WithTagsMembers(tags: seq<string>, xs: seq<string>)
    ensures forall x :: x in WithTags(tags, xs) <==> x in tags || (x in xs && !Text.Blank(x))
  {
    if |xs| > 0 {
      var init := xs[..|xs| - 1];
      WithTagsMembers(tags, init);
      assert xs == init + [xs[|xs| - 1]];
    }
  }

  /** Adding the request's tags one by one gives the same list as adding them in bulk would:
      the non-blank tags in first-seen order, each once. */
  lemma {:induction false} WithTagsAppend(tags: seq<string>, xs: seq<string>, ys: seq<string>)
    ensures WithTags(tags, xs + ys) == WithTags(WithTags(tags, xs), ys)
  {
    if |ys| == 0 {
      assert xs + ys == xs;
    } else {
      assert (xs + ys)[..|xs + ys| - 1] == xs + ys[..|ys| - 1];
      WithTagsAppend(tags, xs, ys[..|ys| - 1]);
    }
  }

  /** Tags that are non-blank and distinct are all kept, in their order. */
  lemma {:induction false} WithTagsDistinct(xs: seq<string>)
    requires TagsWellFormed(xs)
    ensures WithTags([], xs) == xs
  {
    if |xs| > 0 {
      var init := xs[..|xs| - 1];
      assert TagsWellFormed(init);
      WithTagsDistinct(init);
      assert xs[|xs| - 1] !in init;
      assert init + [xs[|xs| - 1]] == xs;
    }
  }

  /** The `UpdateStandardAsync` call `CreateStandard` makes when the request names a priority. */
  method SetRequestedPriority(service: StandardService, id: Guid, priority: Option<int32>, now: DateTime)
    requires service.Valid() && id in service.store
    modifies service.store[id]
    ensures service.Valid()
    ensures priority.Some? ==> service.store[id].priority == StandardPriority(priority.value)
    ensures priority.None? ==> service.store[id].priority == old(service.store[id].priority)
    ensures service.store[id].status == old(service.store[id].status)
    ensures service.store[id].tags == old(service.store[id].tags)
  {
    if priority.Some? {
      var _ := service.Update(id, None, None, None, Some(StandardPriority(priority.value)), now);
    }
  }

  /** The `AddTagAsync` call `CreateStandard` makes for each requested tag, in order. */
  method AddTags(service: StandardService, id: Guid, tags: seq<string>, now: DateTime)
    requires service.Valid() && id in service.store
    modifies service.store[id]
    ensures service.Valid()
    ensures service.store[id].tags == WithTags(old(service.store[id].tags), tags)
    ensures service.store[id].status == old(service.store[id].status)
    ensures service.store[id].priority == old(service.store[id].priority)
  {
    var s := service.store[id];
    ghost var start := s.tags;
    for i := 0 to |tags|
      invariant service.Valid()
      invariant s.tags == WithTags(start, tags[..i])
      invariant s.status == old(s.status) && s.priority == old(s.priority)
    {
      var _ := service.AddTag(id, tags[i], now);
      assert tags[..i + 1][..i] == tags[..i];
    }
    assert tags[..|tags|] == tags;
  }

  /** `CreateStandard`. The standard is created, and indexed, before the requested priority
      and tags are applied; so when indexing succeeds the index holds the default priority and
      no tags, whatever the request asked for. */
  method CreateStandard(service: StandardService, request: CreateStandardRequest, id: Guid, now: DateTime)
    returns (r: ActionResult<Standard>)
    requires service.Valid()
    requires id !in service.store
    modifies service, service.index
    ensures service.Valid()
    ensures r.Created? <==> !Text.Blank(request.title) && !Text.Blank(request.description) && !Text.Blank(request.category)
    ensures !r.Created? ==>
      && r.BadRequest? && r.error.statusCode == 400 && r.error.details == None
      && r.error.message in {TitleEmpty.message, DescriptionEmpty.message, CategoryEmpty.message}
      && service.store == old(service.store)
      && service.index.collections == old(service.index.collections)
    ensures r.Created? ==>
      var s := r.body;
      && fresh(s) && service.store == old(service.store)[id := s]
      && s.title == request.title && s.description == request.description && s.category == request.category
      && s.status == Active
      && s.priority == (if request.priority.Some? then StandardPriority(request.priority.value) else Medium)
      && s.tags == WithTags([], request.tags.GetOr([]))
    ensures r.Created? && service.IndexName() in old(service.index.collections) ==>
      var name := service.IndexName();
      service.index.collections == old(service.index.collections)[name :=
        old(service.index.collections)[name]
          + [service.IndexRecord(id, request.title, request.description, request.category, Medium, [])]]
  {
    var created := service.Create(request.title, request.description, request.category, id, now);
    if created.Failure? {
      return BadRequest(ApiErrorResponse(400, created.error.message, None));
    }
    var s := created.value;
    ghost var indexed := service.index.collections;
    SetRequestedPriority(service, id, request.priority, now);
    AddTags(service, id, request.tags.GetOr([]), now);
    r := Created(s);
  }
}
