/** `StandardService`: creates, finds, updates and deletes standards, keeping the vector index
    of their text up to date. It runs against the in-memory `MockChromaClient` and
    `MockEmbeddingService` the application registers. */
module StandardServices {
  import opened Wrappers
  import opened Errors
  import opened Guids
  import opened StandardEnums
  import opened StandardEntity
  import opened ChromaModels
  import opened ChromaSearch
  import opened ChromaClient
  import opened EmbeddingService
  import Text

  /** The `KeyNotFoundException` for an unknown standard. */
  function StandardNotFound(id: Guid): Error {
    Error(KeyNotFoundException, "Standard with ID " + Guids.ToString(id) + " not found")
  }

  /** The number of hits a semantic search asks the index for. */
  const SearchLimit := 20

  /** The text a standard is indexed under: title, description and tags, space separated. */
  function SearchText(title: string, description: string, tags: seq<string>): (t: string)
    ensures !Text.Blank(title) ==> !Text.Blank(t)
  {
    var t := title + " " + description + " " + Text.Join(" ", tags);
    assert !Text.Blank(title) ==> !Text.IsWhiteSpace(t[TrimmedStart(title)]) by {
      if !Text.Blank(title) {
        var k := TrimmedStart(title);
        assert t[k] == title[k];
      }
    }
    t
  }

  /** The position of the first character of a non-blank string that is not white space. */
  function TrimmedStart(s: string): (k: nat)
    requires !Text.Blank(s)
    ensures k < |s| && !Text.IsWhiteSpace(s[k])
  {
    if !Text.IsWhiteSpace(s[0]) then 0
    else
      assert !Text.Blank(s[1..]) by {
        var j :| 0 <= j < |s| && !Text.IsWhiteSpace(s[j]);
        assert s[1..][j - 1] == s[j];
      }
      1 + TrimmedStart(s[1..])
  }

  /** The metadata stored with a standard's vector: exactly the keys `standard_id`, `title`,
      `category` and `priority`, where the id parses back to the standard's id and the priority
      is its printed name. */
  function StandardMetadata(id: Guid, title: string, category: string, priority: StandardPriority): (m: map<string, string>)
    ensures m.Keys == {"standard_id", "title", "category", "priority"}
    ensures Guids.TryParse(m["standard_id"]) == Some(id)
    ensures m["title"] == title && m["category"] == category
    ensures m["priority"] in PriorityNames <==> 0 <= priority.value < |PriorityNames|
  {
    Guids.ParseToString(id);
    map["standard_id" := Guids.ToString(id), "title" := title, "category" := category,
        "priority" := PriorityName(priority)]
  }

  /** The id a hit's `standard_id` metadata names, if it has one that parses as a GUID. */
  function HitId(h: VectorSearchResult): Option<Guid> {
    if "standard_id" in h.Metadata then Guids.TryParse(h.Metadata["standard_id"]) else None
  }

  /** The ids named by the hits' `standard_id` metadata, in hit order; hits without one, or
      with one that is not a GUID, are skipped (see `HitIdsOne` and `HitIdsMembers`). */
  function HitIds(hits: seq<VectorSearchResult>): (ids: seq<Guid>)
    ensures |ids| <= |hits|
  {
    if |hits| == 0 then []
    else
      var h := hits[|hits| - 1];
      HitIds(hits[..|hits| - 1]) + if HitId(h).Some? then [HitId(h).value] else []
  }

  /** One hit gives its id when it names one, and nothing otherwise: a hit without a
      `standard_id`, or with one that is not a GUID, is skipped. */
  lemma HitIdsOne(h: VectorSearchResult)
    ensures HitIds([h]) == if HitId(h).Some? then [HitId(h).value] else []
  {
    assert [h][..0] == [];
  }

  /** A hit for a vector this service stored names exactly the standard it was stored for. */
  lemma HitIdsOfIndexedStandard(h: VectorSearchResult, id: Guid, title: string, category: string, priority: StandardPriority)
    requires h.Metadata == StandardMetadata(id, title, category, priority)
    ensures HitIds([h]) == [id]
  {
    HitIdsOne(h);
  }

  /** `HitIds` handles each hit on its own, so it respects concatenation. */
  lemma {:induction false} HitIdsAppend(a: seq<VectorSearchResult>, b: seq<VectorSearchResult>)
    ensures HitIds(a + b) == HitIds(a) + HitIds(b)
  {
    if |b| > 0 {
      assert (a + b)[..|a + b| - 1] == a + b[..|b| - 1];
      HitIdsAppend(a, b[..|b| - 1]);
    } else {
      assert a + b == a;
    }
  }

  /** Every hit that names an id contributes it, and every listed id is named by a hit. */
  lemma {:induction false} HitIdsMembers(hits: seq<VectorSearchResult>)
    ensures forall i :: 0 <= i < |hits| && HitId(hits[i]).Some? ==> HitId(hits[i]).value in HitIds(hits)
    ensures forall j :: 0 <= j < |HitIds(hits)| ==> exists i :: 0 <= i < |hits| && HitId(hits[i]) == Some(HitIds(hits)[j])
  {
    forall i | 0 <= i < |hits| && HitId(hits[i]).Some?
      ensures HitId(hits[i]).value in HitIds(hits)
    {
      var before, after := hits[..i], hits[i + 1..];
      assert hits == before + [hits[i]] + after;
      HitIdsAppend(before + [hits[i]], after);
      HitIdsAppend(before, [hits[i]]);
      HitIdsOne(hits[i]);
    }
    if |hits| > 0 {
      var init := hits[..|hits| - 1];
      var last := hits[|hits| - 1];
      HitIdsMembers(init);
      assert HitIds(hits) == HitIds(init) + if HitId(last).Some? then [HitId(last).value] else [];
      forall j | 0 <= j < |HitIds(hits)|
        ensures exists i :: 0 <= i < |hits| && HitId(hits[i]) == Some(HitIds(hits)[j])
      {
        if j < |HitIds(init)| {
          assert HitIds(hits)[j] == HitIds(init)[j];
          var i :| 0 <= i < |init| && HitId(init[i]) == Some(HitIds(init)[j]);
          assert hits[i] == init[i];
          assert HitId(hits[i]) == Some(HitIds(hits)[j]);
        } else {
          var i := |hits| - 1;
          assert hits[i] == last;
          assert HitId(hits[i]) == Some(HitIds(hits)[j]);
        }
      }
    } else {
      assert HitIds(hits) == [];
    }
  }

  /** The stored standards for `ids`, in order, skipping ids that are not stored (see
      `ResolveOne`, `ResolveAppend` and `ResolveMembers`). */
  function Resolve(ids: seq<Guid>, store: map<Guid, Standard>): (r: seq<Standard>)
    ensures |r| <= |ids|
    ensures forall i :: 0 <= i < |r| ==> r[i] in store.Values
  {
    if |ids| == 0 then []
    else
      var id := ids[|ids| - 1];
      Resolve(ids[..|ids| - 1], store) + if id in store then [store[id]] else []
  }

  /** One id resolves to its stored standard, or to nothing when it is not stored. */
  lemma ResolveOne(id: Guid, store: map<Guid, Standard>)
    ensures Resolve([id], store) == if id in store then [store[id]] else []
  {
    assert [id][..0] == [];
  }

  /** Ids are resolved one at a time, so a stale id contributes nothing and the others keep
      their order. */
  lemma {:induction false} ResolveAppend(a: seq<Guid>, b: seq<Guid>, store: map<Guid, Standard>)
    ensures Resolve(a + b, store) == Resolve(a, store) + Resolve(b, store)
  {
    if |b| > 0 {
      assert (a + b)[..|a + b| - 1] == a + b[..|b| - 1];
      ResolveAppend(a, b[..|b| - 1], store);
    } else {
      assert a + b == a;
    }
  }

  /** Every stored id contributes its standard to the result. */
  lemma ResolveMembers(ids: seq<Guid>, store: map<Guid, Standard>)
    ensures forall i :: 0 <= i < |ids| && ids[i] in store ==> store[ids[i]] in Resolve(ids, store)
  {
    forall i | 0 <= i < |ids| && ids[i] in store
      ensures store[ids[i]] in Resolve(ids, store)
    {
      var before, after := ids[..i], ids[i + 1..];
      assert ids == before + [ids[i]] + after;
      ResolveAppend(before + [ids[i]], after, store);
      ResolveAppend(before, [ids[i]], store);
      ResolveOne(ids[i], store);
    }
  }

  /** Every result is the standard stored under one of the ids. */
  lemma {:induction false} ResolveSources(ids: seq<Guid>, store: map<Guid, Standard>, j: nat)
    requires j < |Resolve(ids, store)|
    ensures exists i :: 0 <= i < |ids| && ids[i] in store && Resolve(ids, store)[j] == store[ids[i]]
  {
    var init := ids[..|ids| - 1];
    var last := ids[|ids| - 1];
    var front := Resolve(init, store);
    assert Resolve(ids, store) == front + if last in store then [store[last]] else [];
    if j < |front| {
      ResolveSources(init, store, j);
      var i :| 0 <= i < |init| && init[i] in store && front[j] == store[init[i]];
      assert ids[i] == init[i];
      assert Resolve(ids, store)[j] == store[ids[i]];
    } else {
      var i := |ids| - 1;
      assert ids[i] == last;
      assert Resolve(ids, store)[j] == store[ids[i]];
    }
  }

  /** `s` is the standard stored under the id one of the hits names. */
  predicate StoredUnderHit(hits: seq<VectorSearchResult>, store: map<Guid, Standard>, s: Standard) {
    exists i :: 0 <= i < |hits| && HitId(hits[i]).Some? && HitId(hits[i]).value in store &&
      s == store[HitId(hits[i]).value]
  }

  /** The standards a search resolves are exactly those stored under an id some hit names:
      each such standard appears, and nothing else does. */
  lemma HitsResolve(hits: seq<VectorSearchResult>, store: map<Guid, Standard>)
    ensures forall i :: 0 <= i < |hits| && HitId(hits[i]).Some? && HitId(hits[i]).value in store ==>
      store[HitId(hits[i]).value] in Resolve(HitIds(hits), store)
    ensures forall j :: 0 <= j < |Resolve(HitIds(hits), store)| ==>
      StoredUnderHit(hits, store, Resolve(HitIds(hits), store)[j])
  {
    var ids := HitIds(hits);
    HitIdsMembers(hits);
    ResolveMembers(ids, store);
    forall j | 0 <= j < |Resolve(ids, store)|
      ensures StoredUnderHit(hits, store, Resolve(ids, store)[j])
    {
      ResolveSources(ids, store, j);
      var k :| 0 <= k < |ids| && ids[k] in store && Resolve(ids, store)[j] == store[ids[k]];
      var i :| 0 <= i < |hits| && HitId(hits[i]) == Some(ids[k]);
      assert HitId(hits[i]).value == ids[k];
    }
  }

  /** When every id is stored, each one resolves to its own standard. */
  lemma {:induction false} ResolveAllStored(ids: seq<Guid>, store: map<Guid, Standard>)
    requires forall i :: 0 <= i < |ids| ==> ids[i] in store
    ensures |Resolve(ids, store)| == |ids|
    ensures forall i :: 0 <= i < |ids| ==> Resolve(ids, store)[i] == store[ids[i]]
  {
    if |ids| > 0 {
      ResolveAllStored(ids[..|ids| - 1], store);
    }
  }

  /** How `SearchStandardsAsync` produced its answer. */
  datatype SearchRoute = AllStandards | Semantic | KeywordFallback

  class StandardService {
    /** The standard repository, as the map from id to tracked entity. */
    var store: map<Guid, Standard>
    const index: MockChromaClient
    const config: ChromaConfiguration
    const rt: Runtime

    ghost predicate Valid()
      reads this, store.Values
    {
      forall k :: k in store ==> store[k].id == k && store[k].Valid()
    }

    constructor (index: MockChromaClient, config: ChromaConfiguration, rt: Runtime)
      ensures Valid()
      ensures store == map[] && this.index == index && this.config == config && this.rt == rt
    {
      store := map[];
      this.index := index;
      this.config := config;
      this.rt := rt;
    }

    /** The index collection: the configured prefix followed by "standards". */
    function IndexName(): string {
      GetCollectionName(config, "standards")
    }

    /** The vector stored for a standard: its id is the standard's id as text, its metadata
        names the standard, its document is the description, and its embedding has the fixed
        dimension. */
    function IndexRecord(id: Guid, title: string, description: string, category: string,
                         priority: StandardPriority, tags: seq<string>): (v: VectorEmbedding)
      ensures v.Id == Guids.ToString(id) && v.Document == Some(description)
      ensures HitIds([VectorSearchResult(v.Id, 0.0, v.Metadata, v.Document)]) == [id]
      ensures |v.Embedding| == EmbeddingDimension
    {
      VectorEmbedding(
        Guids.ToString(id),
        EmbeddingOf(rt, SearchText(title, description, tags)),
        StandardMetadata(id, title, category, priority),
        Some(description))
    }

    method GetStandard(id: Guid) returns (r: Option<Standard>)
      ensures r.Some? <==> id in store
      ensures r.Some? ==> r.value == store[id]
    {
      r := if id in store then Some(store[id]) else None;
    }

    /** `CreateStandardAsync`: validates, stores, then indexes the new standard. Indexing
        failures are swallowed; the standard then has no vector id. */
    method Create(title: string, description: string, category: string, id: Guid, now: DateTime)
      returns (r: Result<Standard, Error>)
      requires Valid()
      requires id !in store
      modifies this, index
      ensures Valid()
      ensures r.Failure? <==> Text.Blank(title) || Text.Blank(description) || Text.Blank(category)
      ensures Text.Blank(title) ==> r == Failure(TitleEmpty)
      ensures !Text.Blank(title) && Text.Blank(description) ==> r == Failure(DescriptionEmpty)
      ensures !Text.Blank(title) && !Text.Blank(description) && Text.Blank(category) ==> r == Failure(CategoryEmpty)
      ensures r.Failure? ==> store == old(store) && index.collections == old(index.collections)
      ensures r.Success? ==>
        var s := r.value;
        && fresh(s) && store == old(store)[id := s]
        && s.id == id && s.title == title && s.description == description && s.category == category
        && s.status == Active && s.priority == Medium && s.tags == []
        && s.createdAt == now && s.updatedAt == now
      ensures r.Success? && IndexName() in old(index.collections) ==>
        && r.value.vectorId == Some(Guids.ToString(id))
        && index.collections == old(index.collections)[IndexName() :=
             old(index.collections)[IndexName()] + [IndexRecord(id, title, description, category, Medium, [])]]
      ensures r.Success? && IndexName() !in old(index.collections) ==>
        r.value.vectorId == None && index.collections == old(index.collections)
    {
      r := NewStandard(id, title, description, category, now);
      if r.Failure? {
        return;
      }
      var s := r.value;
      store := store[id := s];
      EmbedAndStore(s);
    }

    /** `EmbedAndStoreStandardAsync`: embeds the standard's text and appends the vector to the
        index; on success records the vector id, on failure changes nothing. */
    method EmbedAndStore(s: Standard)
      requires s.Valid()
      modifies index, s
      ensures s.status == old(s.status) && s.priority == old(s.priority) && s.tags == old(s.tags)
      ensures s.updatedAt == old(s.updatedAt)
      ensures IndexName() in old(index.collections) ==>
        && s.vectorId == Some(Guids.ToString(s.id))
        && index.collections == old(index.collections)[IndexName() :=
             old(index.collections)[IndexName()] + [IndexRecord(s.id, s.title, s.description, s.category, s.priority, s.tags)]]
      ensures IndexName() !in old(index.collections) ==>
        s.vectorId == old(s.vectorId) && index.collections == old(index.collections)
    {
      var text := SearchText(s.title, s.description, s.tags);
      var embedding := GetEmbedding(rt, text);
      if embedding.Failure? {
        return;
      }
      var record := VectorEmbedding(
        Guids.ToString(s.id), embedding.value,
        StandardMetadata(s.id, s.title, s.category, s.priority), Some(s.description));
      var added := index.AddEmbeddings(IndexName(), [record]);
      if added.Fail? {
        return;
      }
      s.vectorId := Some(Guids.ToString(s.id));
    }

    /** What `SearchStandardsAsync` returns. A blank query lists every standard (`all`, in
        the repository's order). Otherwise the query is embedded and the 20 nearest vectors are
        mapped back to stored standards in hit order; if the index fails, the repository's
        title-or-description match (`keywordMatches`) is returned instead. */
    function SearchResults(query: string, all: seq<Standard>, keywordMatches: seq<Standard>): (r: seq<Standard>)
      reads this, index
      ensures Text.Blank(query) ==> r == all
      ensures !Text.Blank(query) && IndexName() !in index.collections ==> r == keywordMatches
      ensures !Text.Blank(query) && r != keywordMatches ==>
        |r| <= SearchLimit && forall s :: s in r ==> s in store.Values
      ensures !Text.Blank(query) && IndexName() in index.collections ==>
        var hits := Nearest(index.collections[IndexName()], EmbeddingOf(rt, query), SearchLimit);
        hits.Success? ==>
          (forall i :: 0 <= i < |hits.value| && HitId(hits.value[i]).Some? && HitId(hits.value[i]).value in store ==>
            store[HitId(hits.value[i]).value] in r) &&
          (forall j :: 0 <= j < |r| ==> StoredUnderHit(hits.value, store, r[j]))
    {
      if Text.Blank(query) then all
      else if IndexName() !in index.collections then keywordMatches
      else
        var hits := Nearest(index.collections[IndexName()], EmbeddingOf(rt, query), SearchLimit);
        if hits.Failure? then keywordMatches
        else
          NearestCount(index.collections[IndexName()], EmbeddingOf(rt, query), SearchLimit);
          HitsResolve(hits.value, store);
          Resolve(HitIds(hits.value), store)
    }

    /** `SearchStandardsAsync`, with the route it took. */
    method Search(query: string, all: seq<Standard>, keywordMatches: seq<Standard>)
      returns (r: seq<Standard>, route: SearchRoute)
      ensures r == SearchResults(query, all, keywordMatches)
      ensures Text.Blank(query) <==> route == AllStandards
      ensures route == KeywordFallback ==> r == keywordMatches
    {
      if Text.Blank(query) {
        return all, AllStandards;
      }
      var embedding := GetEmbedding(rt, query);
      if embedding.Failure? {
        return keywordMatches, KeywordFallback;
      }
      var hits := index.Search(IndexName(), embedding.value, SearchLimit);
      if hits.Failure? {
        return keywordMatches, KeywordFallback;
      }
      var ids := HitIds(hits.value);
      r := [];
      for n := 0 to |ids|
        invariant r == Resolve(ids[..n], store)
      {
        var found := GetStandard(ids[n]);
        if found.Some? {
          r := r + [found.value];
        }
        assert ids[..n + 1][..n] == ids[..n];
      }
      assert ids[..|ids|] == ids;
      route := Semantic;
    }

    /** `UpdateStandardAsync`: sets the status and the priority that are given. The title and
        the description it is passed are ignored. */
    method Update(id: Guid, title: Option<string>, description: Option<string>,
                  status: Option<StandardStatus>, priority: Option<StandardPriority>, now: DateTime)
      returns (r: Outcome<Error>)
      requires Valid()
      modifies if id in store then {store[id]} else {}
      ensures Valid()
      ensures id !in store ==> r == Fail(StandardNotFound(id))
      ensures id in store ==>
        var s := store[id];
        && r == Pass
        && s.status == (if status.Some? then status.value else old(s.status))
        && s.priority == (if priority.Some? then priority.value else old(s.priority))
        && s.tags == old(s.tags) && s.vectorId == old(s.vectorId)
        && s.updatedAt == (if status.Some? || priority.Some? then now else old(s.updatedAt))
    {
      var found := GetStandard(id);
      if found.None? {
        return Fail(StandardNotFound(id));
      }
      var s := found.value;
      if status.Some? {
        s.UpdateStatus(status.value, now);
      }
      if priority.Some? {
        s.UpdatePriority(priority.value, now);
      }
      r := Pass;
    }

    /** `DeleteStandardAsync`: an unknown id is ignored. A standard with a vector id first has
        its vector removed from the index; if that throws, the standard is kept. */
    method Delete(id: Guid) returns (r: Outcome<Error>)
      requires Valid()
      modifies this, index
      ensures Valid()
      ensures id !in old(store) ==>
        r == Pass && store == old(store) && index.collections == old(index.collections)
      ensures id in old(store) && Text.NullOrBlank(old(store)[id].vectorId) ==>
        r == Pass && store == old(store) - {id} && index.collections == old(index.collections)
      ensures id in old(store) && !Text.NullOrBlank(old(store)[id].vectorId) ==>
        var vid := old(store)[id].vectorId.value;
        if IndexName() in old(index.collections) then
          && r == Pass && store == old(store) - {id}
          && index.collections == old(index.collections)[IndexName() := RemoveById(old(index.collections)[IndexName()], vid)]
        else
          r == Fail(MissingCollection(IndexName())) && store == old(store)
          && index.collections == old(index.collections)
    {
      var found := GetStandard(id);
      if found.None? {
        return Pass;
      }
      var s := found.value;
      if !Text.NullOrBlank(s.vectorId) {
        var removed := index.DeleteEmbedding(IndexName(), s.vectorId.value);
        if removed.Fail? {
          return removed;
        }
      }
      store := store - {id};
      r := Pass;
    }

    /** `AddTagToStandardAsync`. */
    method AddTag(id: Guid, tag: string, now: DateTime) returns (r: Outcome<Error>)
      requires Valid()
      modifies if id in store then {store[id]} else {}
      ensures Valid()
      ensures id !in store ==> r == Fail(StandardNotFound(id))
      ensures id in store ==>
        r == Pass && store[id].tags == WithTag(old(store[id].tags), tag)
        && store[id].status == old(store[id].status) && store[id].priority == old(store[id].priority)
        && store[id].vectorId == old(store[id].vectorId)
        && store[id].updatedAt == (if store[id].tags != old(store[id].tags) then now else old(store[id].updatedAt))
    {
      var found := GetStandard(id);
      if found.None? {
        return Fail(StandardNotFound(id));
      }
      found.value.AddTag(tag, now);
      r := Pass;
    }

    /** `RemoveTagFromStandardAsync`. */
    method RemoveTag(id: Guid, tag: string, now: DateTime) returns (r: Outcome<Error>)
      requires Valid()
      modifies if id in store then {store[id]} else {}
      ensures Valid()
      ensures id !in store ==> r == Fail(StandardNotFound(id))
      ensures id in store ==>
        r == Pass && store[id].tags == WithoutTag(old(store[id].tags), tag)
        && store[id].status == old(store[id].status) && store[id].priority == old(store[id].priority)
        && store[id].vectorId == old(store[id].vectorId)
        && store[id].updatedAt == (if tag in old(store[id].tags) then now else old(store[id].updatedAt))
    {
      var found := GetStandard(id);
      if found.None? {
        return Fail(StandardNotFound(id));
      }
      found.value.RemoveTag(tag, now);
      r := Pass;
    }
  }
}
