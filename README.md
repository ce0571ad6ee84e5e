# CodingAgentHelper core, modelled in Dafny

CodingAgentHelper keeps a catalogue of coding standards. Each standard has a title, a description, a category, a status, a priority and tags. Standards are grouped into categories and indexed in a vector store for semantic search.

This project models the parts of that system with behaviour of their own:

- **Domain entities** (`StandardEntity`, `CategoryEntity`). `Standard` and `Category` are classes whose fields the entity methods update in place.
- **Tag rules.** `AddTag` appends a non-blank tag that is not present yet. `RemoveTag` removes the first copy.
- **In-memory vector store** (`ChromaClient`, `ChromaSearch`, `ChromaModels`). `MockChromaClient` is a class over a dictionary from collection name to stored embeddings. Its search ranks every stored vector by Euclidean distance to the query with a stable sort, then keeps the first `limit` hits.
- **Mock embedding service** (`EmbeddingService`). It fills a 384-element array from a hash-seeded pseudo-random generator and normalises it in place. The hash, the generator and the square root are parameters.
- **Application services** (`StandardServices`, `CategoryServices`). Their repositories are maps from id to tracked entity.
  - `StandardService` creates standards and indexes each new one best effort. Its search is semantic when the index collection exists and falls back to a keyword search otherwise.
  - `CategoryService` enforces unique category names.
- **REST controllers** (`StandardsApi`, `CategoriesApi`, over `Paging`):
  - clamping of the page number and page size, and the page slice;
  - the search guard and the category filter;
  - the order of steps in `CreateStandard`;
  - the description defaulting in the categories controller.
- **Exception middleware** (`ExceptionMiddleware`, `Errors`). It maps an escaped exception to 400, 404 or 500 by its place in the .NET exception hierarchy.
- **Admin web pages** (`EditPage`, `CreatePage`, `WebClient`, `TagInput`, `ViewModels`):
  - the comma-separated tag parser;
  - the mapping between the status and priority names the API prints and the form's numbers;
  - the requests the pages send and the results they return;
  - the page count and defaults of the view models.

Supporting modules model the .NET behaviour the code relies on:

- `Text`: `char.IsWhiteSpace`, `Trim`, `Split`, `Join` and `int.ToString`.
- `Guids`: the "D" format of `Guid`.
- `Numerics`: 32-bit `int` wrap-around and truncating division.
- `Linq`: `Take` and `Skip` with their edge cases.
- `StandardEnums`: C# enums that hold any `int`.

The main results:

- A search returns exactly the nearest stored vectors, nearest first, with ties in storage order. The ranking is the unique such arrangement.
- The Edit page's tag field round-trips. Loading a standard and saving the form untouched sends back its own status, priority and tags.
- Creating a standard with requested tags gives exactly the non-blank requested tags, each once, in order.
- The exception classification is total and is consistent with subclassing.
- The controllers' paging is correct while the offset fits in an `int`. It misbehaves past that point (see Findings).

Paths below are relative to the repository root.

## Model

| member | source | states |
|---|---|---|
| StandardEntity.Standard.constructor | src/CodingAgentHelper.Core/Domain/Entities/Standard.cs:8-26 | a new standard is Active, Medium, untagged, has no vector id, and carries the given id, title, description, category and creation time |
| StandardEntity.NewStandard | src/CodingAgentHelper.Core/Domain/Entities/Standard.cs:10-15 | construction fails exactly when title, description or category is blank; the first blank one in that order names the ArgumentException; otherwise the fields are as given |
| StandardEntity.Standard.UpdateStatus | src/CodingAgentHelper.Core/Domain/Entities/Standard.cs:39-43 | sets the status and the update time; priority, tags and vector id are unchanged |
| StandardEntity.Standard.UpdatePriority | src/CodingAgentHelper.Core/Domain/Entities/Standard.cs:45-49 | sets the priority and the update time; status, tags and vector id are unchanged |
| StandardEntity.Standard.AddTag | src/CodingAgentHelper.Core/Domain/Entities/Standard.cs:51-58 | tags become WithTag(old tags, tag); the update time moves only when the list changed; the no-blank, no-duplicate invariant is kept |
| StandardEntity.Standard.RemoveTag | src/CodingAgentHelper.Core/Domain/Entities/Standard.cs:60-66 | tags become WithoutTag(old tags, tag); the update time moves only when the tag was present; the invariant is kept |
| StandardEntity.WithTag | src/CodingAgentHelper.Core/Domain/Entities/Standard.cs:51-58 | a string is in the result iff it was a tag already or it is the added tag and not blank; a well-formed list stays well formed |
| StandardEntity.WithoutTag | src/CodingAgentHelper.Core/Domain/Entities/Standard.cs:60-66 | removes exactly one copy of the tag (multiset difference); a list without the tag is unchanged; one element shorter otherwise |
| StandardEntity.WithoutTagWellFormed | src/CodingAgentHelper.Core/Domain/Entities/Standard.cs:60-66 | on a well-formed list the removed tag was the only copy: membership is "was a tag and is not the removed one", and the list stays well formed |
| StandardEntity.WithTagIdempotent | src/CodingAgentHelper.Core/Domain/Entities/Standard.cs:53 | adding the same tag twice equals adding it once |
| StandardEntity.AddThenRemove | src/CodingAgentHelper.Core/Domain/Entities/Standard.cs:51-66 | removing a non-blank tag just added to a list without it restores the list |
| CategoryEntity.Category.constructor | src/CodingAgentHelper.Core/Domain/Entities/Category.cs:8-17 | a new category has the given id and name, a null description stored as "", no standards and the given creation time |
| CategoryEntity.NewCategory | src/CodingAgentHelper.Core/Domain/Entities/Category.cs:10-11 | construction fails with the "Name cannot be empty" ArgumentException exactly when the name is blank |
| CategoryEntity.Category.UpdateDescription | src/CodingAgentHelper.Core/Domain/Entities/Category.cs:25-28 | the description becomes the new one, or "" for null; the standard count is unchanged |
| StandardEnums.StatusNameInjective | src/CodingAgentHelper.Core/Domain/Entities/StandardEnums.cs:3-9 | two statuses, declared or not, that print the same are equal |
| StandardEnums.PriorityNameInjective | src/CodingAgentHelper.Core/Domain/Entities/StandardEnums.cs:11-17 | two priorities, declared or not, that print the same are equal |
| StandardEnums.EnumNameInjective | src/CodingAgentHelper.Core/Domain/Entities/StandardEnums.cs:3-17 | `Enum.ToString()` is injective for member names starting with a capital letter, because an undeclared value prints as its number |
| StandardEnums.StatusName | src/CodingAgentHelper.Core/Domain/Entities/StandardEnums.cs:3-9 | a status prints as a member name iff it is declared; an undeclared one prints as a number that parses back to it |
| StandardEnums.PriorityName | src/CodingAgentHelper.Core/Domain/Entities/StandardEnums.cs:11-17 | a priority prints as a member name iff it is declared; an undeclared one prints as a number that parses back to it |
| StandardEnums.NumberNotAName | src/CodingAgentHelper.Core/Domain/Entities/StandardEnums.cs:3-17 | the printed form of an undeclared value is none of the member names |
| ChromaModels.GetConnectionUrl | src/CodingAgentHelper.Core/Infrastructure/VectorStore/ChromaModels.cs:14-17 | the URL is the host, a colon, then the port in decimal, which parses back to the port |
| ChromaModels.ConnectionUrlPort | src/CodingAgentHelper.Core/Infrastructure/VectorStore/ChromaModels.cs:14-17 | the port parsed back from the connection URL is the configured port |
| ChromaModels.GetCollectionName | src/CodingAgentHelper.Core/Infrastructure/VectorStore/ChromaModels.cs:19-22 | the name is the configured prefix followed by the collection type |
| ChromaModels.CollectionNameInjective | src/CodingAgentHelper.Core/Infrastructure/VectorStore/ChromaModels.cs:19-22 | different collection types never share a collection name |
| ChromaModels.DefaultStandardsCollection | src/CodingAgentHelper.Core/Infrastructure/VectorStore/ChromaModels.cs:8-12 | under the default configuration the standards collection is "cah_standards" |
| ChromaModels.GetTimeout | src/CodingAgentHelper.Core/Infrastructure/VectorStore/ChromaModels.cs:24-27 | the timeout is a whole number of seconds equal to the configured seconds |
| ChromaClient.MockChromaClient.constructor | src/CodingAgentHelper.Core/Infrastructure/VectorStore/ChromaClient.cs:30-35 | the store starts with no collections |
| ChromaClient.MockChromaClient.HealthCheck | src/CodingAgentHelper.Core/Infrastructure/VectorStore/ChromaClient.cs:37-41 | the mock store always reports healthy |
| ChromaClient.MockChromaClient.CreateCollection | src/CodingAgentHelper.Core/Infrastructure/VectorStore/ChromaClient.cs:43-57 | a blank name fails and changes nothing; otherwise the collection exists afterwards; an existing one keeps its contents, and a new one starts empty |
| ChromaClient.MockChromaClient.DeleteCollection | src/CodingAgentHelper.Core/Infrastructure/VectorStore/ChromaClient.cs:59-66 | the collection is gone and every other collection is unchanged; an unknown name is not an error |
| ChromaClient.MockChromaClient.CollectionExists | src/CodingAgentHelper.Core/Infrastructure/VectorStore/ChromaClient.cs:68-71 | true iff the collection is present |
| ChromaClient.MockChromaClient.AddEmbeddings | src/CodingAgentHelper.Core/Infrastructure/VectorStore/ChromaClient.cs:73-83 | an unknown collection fails with ChromaException and changes nothing; otherwise the batch is appended in order and nothing else changes |
| ChromaClient.MockChromaClient.Search | src/CodingAgentHelper.Core/Infrastructure/VectorStore/ChromaClient.cs:85-111 | an unknown collection fails with ChromaException; otherwise the result is Nearest of the stored vectors |
| ChromaClient.MockChromaClient.DeleteEmbedding | src/CodingAgentHelper.Core/Infrastructure/VectorStore/ChromaClient.cs:113-122 | an unknown collection fails and changes nothing; otherwise every embedding with that id is removed, and only those |
| ChromaSearch.SumOfSquares | src/CodingAgentHelper.Core/Infrastructure/VectorStore/ChromaClient.cs:130 | the squared distance is never negative |
| ChromaSearch.SumOfSquaresSymmetric | src/CodingAgentHelper.Core/Infrastructure/VectorStore/ChromaClient.cs:124-132 | the distance from a to b equals the distance from b to a |
| ChromaSearch.SumOfSquaresZeroIffEqual | src/CodingAgentHelper.Core/Infrastructure/VectorStore/ChromaClient.cs:124-132 | the distance is zero iff the vectors are equal |
| ChromaSearch.CalculateDistance | src/CodingAgentHelper.Core/Infrastructure/VectorStore/ChromaClient.cs:124-132 | fails with "Embeddings must have the same dimension" iff the lengths differ; otherwise the distance is non-negative and zero iff the vectors are equal |
| ChromaSearch.Insert | src/CodingAgentHelper.Core/Infrastructure/VectorStore/ChromaClient.cs:98 | inserting a later-stored record into a ranked list gives a ranked permutation of the list plus that record |
| ChromaSearch.StableSort | src/CodingAgentHelper.Core/Infrastructure/VectorStore/ChromaClient.cs:98 | `OrderBy(Distance)` on records in storage order yields a permutation ordered by distance, with ties in storage order |
| ChromaSearch.RankedPermutationUnique | src/CodingAgentHelper.Core/Infrastructure/VectorStore/ChromaClient.cs:98 | two ranked permutations of the same records are equal, so any stable sort gives the same order |
| ChromaSearch.Score | src/CodingAgentHelper.Core/Infrastructure/VectorStore/ChromaClient.cs:92-97 | each record is paired with its position and distance, one entry per record, in storage order |
| ChromaSearch.Rank | src/CodingAgentHelper.Core/Infrastructure/VectorStore/ChromaClient.cs:92-98 | the scored collection, ranked, as a permutation |
| ChromaSearch.RankIsPermutationOfRecords | src/CodingAgentHelper.Core/Infrastructure/VectorStore/ChromaClient.cs:92-98 | every ranked entry is a stored record with its own distance, and every stored record appears |
| ChromaSearch.Hits | src/CodingAgentHelper.Core/Infrastructure/VectorStore/ChromaClient.cs:100-106 | one search result per ranked entry |
| ChromaSearch.Nearest | src/CodingAgentHelper.Core/Infrastructure/VectorStore/ChromaClient.cs:90-107 | fails with the dimension error iff the limit is positive and some stored vector has another length; `Take` with a non-positive limit enumerates nothing |
| ChromaSearch.NearestCount | src/CodingAgentHelper.Core/Infrastructure/VectorStore/ChromaClient.cs:99 | a search returns min(limit, collection size) hits, and none for a non-positive limit |
| ChromaSearch.NearestAscending | src/CodingAgentHelper.Core/Infrastructure/VectorStore/ChromaClient.cs:98-99 | the hits come nearest first |
| ChromaSearch.NearestAreClosest | src/CodingAgentHelper.Core/Infrastructure/VectorStore/ChromaClient.cs:92-107 | no stored vector left out of the hits is nearer than any hit |
| ChromaSearch.NearestExactMatchFirst | src/CodingAgentHelper.Core/Infrastructure/VectorStore/ChromaClient.cs:92-107 | a stored vector equal to the query makes the first hit one at distance zero |
| ChromaSearch.NearestExample | src/CodingAgentHelper.Core/Infrastructure/VectorStore/ChromaClient.cs:85-111 | for A=(1,0), B=(0,1), C=(1,1) and query (1,0) with limit 2, the hits are A then C |
| ChromaSearch.RemoveById | src/CodingAgentHelper.Core/Infrastructure/VectorStore/ChromaClient.cs:118 | an embedding survives iff it was stored and has another id |
| ChromaSearch.RemoveByIdAppend | src/CodingAgentHelper.Core/Infrastructure/VectorStore/ChromaClient.cs:118 | removal distributes over concatenation, so the survivors keep their order |
| ChromaSearch.RemoveByIdAbsent | src/CodingAgentHelper.Core/Infrastructure/VectorStore/ChromaClient.cs:118 | removing an id no embedding has changes nothing |
| ChromaSearch.RemoveByIdIdempotent | src/CodingAgentHelper.Core/Infrastructure/VectorStore/ChromaClient.cs:118 | removing an id twice equals removing it once |
| EmbeddingService.RawEmbedding | src/CodingAgentHelper.Core/Infrastructure/VectorStore/EmbeddingService.cs:43-51 | the raw vector has 384 coordinates |
| EmbeddingService.RawEmbeddingInRange | src/CodingAgentHelper.Core/Infrastructure/VectorStore/EmbeddingService.cs:43-51 | with `NextDouble()` in [0, 1), every raw coordinate lies in [-1, 1) |
| EmbeddingService.Normalize | src/CodingAgentHelper.Core/Infrastructure/VectorStore/EmbeddingService.cs:53-61 | with a positive magnitude each coordinate times the magnitude gives the old coordinate; otherwise the vector is unchanged |
| EmbeddingService.EmbeddingOf | src/CodingAgentHelper.Core/Infrastructure/VectorStore/EmbeddingService.cs:40-64 | every embedding has 384 coordinates |
| EmbeddingService.SameHashSameEmbedding | src/CodingAgentHelper.Core/Infrastructure/VectorStore/EmbeddingService.cs:40-64 | texts with equal hash codes get equal embeddings |
| EmbeddingService.GenerateEmbedding | src/CodingAgentHelper.Core/Infrastructure/VectorStore/EmbeddingService.cs:40-64 | the fresh array filled and normalised in place holds EmbeddingOf(text) |
| EmbeddingService.DivideInPlace | src/CodingAgentHelper.Core/Infrastructure/VectorStore/EmbeddingService.cs:55-60 | the array afterwards is the old contents divided by the magnitude |
| EmbeddingService.GetEmbedding | src/CodingAgentHelper.Core/Infrastructure/VectorStore/EmbeddingService.cs:21-28 | fails with "Text cannot be empty" iff the text is blank; otherwise returns the text's embedding |
| EmbeddingService.GetEmbeddings | src/CodingAgentHelper.Core/Infrastructure/VectorStore/EmbeddingService.cs:30-38 | the keys are exactly the distinct texts, blank ones included, each mapped to its embedding |
| StandardServices.SearchText | src/CodingAgentHelper.Core/Application/Services/StandardService.cs:194 | a standard with a non-blank title has non-blank search text, so embedding it cannot fail |
| StandardServices.HitIds | src/CodingAgentHelper.Core/Application/Services/StandardService.cs:100-103 | at most one id per hit |
| StandardServices.HitIdsOne | src/CodingAgentHelper.Core/Application/Services/StandardService.cs:100-103 | a single hit gives its `standard_id` when that parses as a GUID, and nothing when the key is missing or does not parse |
| StandardServices.HitIdsMembers | src/CodingAgentHelper.Core/Application/Services/StandardService.cs:100-103 | every id a hit names is listed, and every listed id is named by some hit |
| StandardServices.StandardMetadata | src/CodingAgentHelper.Core/Application/Services/StandardService.cs:205-211 | the metadata has exactly the keys standard_id, title, category and priority; the id parses back to the standard's id; the priority entry is a member name iff the priority is declared |
| StandardServices.StandardService.IndexRecord | src/CodingAgentHelper.Core/Application/Services/StandardService.cs:201-213 | the vector's id is the standard's id as text, a hit carrying its metadata names exactly that standard, its document is the description and its embedding has 384 dimensions |
| StandardServices.HitIdsOfIndexedStandard | src/CodingAgentHelper.Core/Application/Services/StandardService.cs:100-103 | a hit carrying the metadata this service stores names exactly the standard it was stored for |
| StandardServices.HitIdsAppend | src/CodingAgentHelper.Core/Application/Services/StandardService.cs:100-103 | hits are handled one at a time, so ids keep hit order |
| StandardServices.Resolve | src/CodingAgentHelper.Core/Application/Services/StandardService.cs:105-111 | at most one standard per id, each a stored one |
| StandardServices.ResolveOne | src/CodingAgentHelper.Core/Application/Services/StandardService.cs:105-111 | one id yields its stored standard, or nothing when no standard is stored under it |
| StandardServices.ResolveAppend | src/CodingAgentHelper.Core/Application/Services/StandardService.cs:105-111 | ids are resolved one at a time: resolving a concatenation concatenates the results, so a stale id drops out and the others keep their order |
| StandardServices.ResolveMembers | src/CodingAgentHelper.Core/Application/Services/StandardService.cs:105-111 | every id that is stored contributes its standard |
| StandardServices.ResolveSources | src/CodingAgentHelper.Core/Application/Services/StandardService.cs:105-111 | each result is the standard stored under one of the ids |
| StandardServices.HitsResolve | src/CodingAgentHelper.Core/Application/Services/StandardService.cs:100-111 | the standards a search resolves are exactly those stored under an id some hit names |
| StandardServices.ResolveAllStored | src/CodingAgentHelper.Core/Application/Services/StandardService.cs:105-111 | when every id is stored, the i-th result is the standard stored under the i-th id |
| StandardServices.StandardService.constructor | src/CodingAgentHelper.Core/Application/Services/StandardService.cs:37-51 | a service over an empty repository and the given index |
| StandardServices.StandardService.GetStandard | src/CodingAgentHelper.Core/Application/Services/StandardService.cs:75-78 | finds a standard iff its id is stored, and returns that standard |
| StandardServices.StandardService.Create | src/CodingAgentHelper.Core/Application/Services/StandardService.cs:53-73 | fails with the entity's ArgumentException exactly on a blank field and then changes nothing; otherwise stores a new Active, Medium, untagged standard, and indexes it when the collection exists (vector id set) or leaves it unindexed |
| StandardServices.StandardService.EmbedAndStore | src/CodingAgentHelper.Core/Application/Services/StandardService.cs:189-223 | with the collection present, appends the standard's vector and sets its vector id to its id's text; with it missing, the exception is swallowed and nothing changes |
| StandardServices.StandardService.SearchResults | src/CodingAgentHelper.Core/Application/Services/StandardService.cs:85-122 | a blank query returns every standard; without the index collection a query returns the keyword matches; an answer other than the keyword matches holds at most 20 standards, each of them stored; when the nearest-neighbour query succeeds, every standard stored under an id a hit names is in the answer and every answer is such a standard |
| StandardServices.StandardService.Search | src/CodingAgentHelper.Core/Application/Services/StandardService.cs:85-122 | a blank query lists everything; otherwise the route is semantic or the keyword fallback, and the fallback returns the keyword matches |
| StandardServices.StandardService.Update | src/CodingAgentHelper.Core/Application/Services/StandardService.cs:134-148 | an unknown id fails with KeyNotFoundException; otherwise only the given status and priority change, and the update time moves only when one was given |
| StandardServices.StandardService.Delete | src/CodingAgentHelper.Core/Application/Services/StandardService.cs:150-165 | an unknown id changes nothing; otherwise the standard is removed, after its vector, when it has a vector id |
| StandardServices.StandardService.AddTag | src/CodingAgentHelper.Core/Application/Services/StandardService.cs:167-176 | an unknown id fails with KeyNotFoundException; otherwise the standard's tags become WithTag of its old tags, its vector id is unchanged and its update time moves only when the tags changed |
| StandardServices.StandardService.RemoveTag | src/CodingAgentHelper.Core/Application/Services/StandardService.cs:178-187 | an unknown id fails with KeyNotFoundException; otherwise the standard's tags become WithoutTag of its old tags, its vector id is unchanged and its update time moves only when the tag was present |
| CategoryServices.CategoryService.constructor | src/CodingAgentHelper.Core/Application/Services/CategoryService.cs:29-35 | a service over an empty repository |
| CategoryServices.CategoryService.GetCategory | src/CodingAgentHelper.Core/Application/Services/CategoryService.cs:59-62 | finds a category iff its id is stored |
| CategoryServices.CategoryService.FindByName | src/CodingAgentHelper.Core/Application/Services/CategoryService.cs:64-70 | finds a category iff one is called the name, and returns one so called |
| CategoryServices.CategoryService.GetCategoryByName | src/CodingAgentHelper.Core/Application/Services/CategoryService.cs:64-70 | a blank name fails with ArgumentException; otherwise finds a category iff the name is taken |
| CategoryServices.CategoryService.Create | src/CodingAgentHelper.Core/Application/Services/CategoryService.cs:37-57 | fails iff the name is taken (InvalidOperationException, checked first) or blank (ArgumentException), and then changes nothing; otherwise stores exactly the new category; names stay unique |
| CategoryServices.CategoryService.Update | src/CodingAgentHelper.Core/Application/Services/CategoryService.cs:82-91 | an unknown id fails with KeyNotFoundException; otherwise only the description changes |
| CategoryServices.CategoryService.Delete | src/CodingAgentHelper.Core/Application/Services/CategoryService.cs:93-97 | the category is removed and nothing else; an unknown id is ignored |
| CategoryServices.CreateTwice | src/CodingAgentHelper.Core/Application/Services/CategoryService.cs:42-44 | a second category with a name already in use is refused and only the first is stored |
| Paging.ClampPageSize | src/CodingAgentHelper.Api/Controllers/StandardsController.cs:43 | the size lies in 1..100: in-range sizes are kept, smaller ones become 1 and larger ones 100 |
| Paging.ClampPageNumber | src/CodingAgentHelper.Api/Controllers/StandardsController.cs:42 | the page number is at least 1; valid numbers are kept |
| Paging.PageItems | src/CodingAgentHelper.Api/Controllers/StandardsController.cs:49-53 | the slice starting (page-1)*size items in, clipped to the listing, at most size long; empty past the end |
| Paging.OffsetIsProduct | src/CodingAgentHelper.Api/Controllers/StandardsController.cs:50 | the items before page n are (n-1)*size |
| Paging.Page | src/CodingAgentHelper.Api/Controllers/StandardsController.cs:42-61 | the response carries the total count, the clamped page number and size, and that page's items |
| Paging.ItemOnItsPage | src/CodingAgentHelper.Api/Controllers/StandardsController.cs:49-53 | item i of the listing is at position i % size of page i / size + 1 |
| Paging.PagesConcatenate | src/CodingAgentHelper.Api/Controllers/StandardsController.cs:49-53 | pages 1..n laid end to end are the listing's prefix up to page n+1's offset, with no gap or overlap |
| Paging.PageItemsAsWritten | src/CodingAgentHelper.Api/Controllers/StandardsController.cs:49-53 | the page as the code computes it, offset wrapping at 32 bits; at most size items |
| Paging.PageAsWritten | src/CodingAgentHelper.Api/Controllers/CategoriesController.cs:41-60 | the response as the code computes it: total count and clamped page number and size |
| Paging.PageAsWrittenWithoutOverflow | src/CodingAgentHelper.Api/Controllers/StandardsController.cs:49-53 | while the offset fits in an int, the code as written returns the intended page |
| Paging.PageOffsetOverflow | src/CodingAgentHelper.Api/Controllers/StandardsController.cs:50 | page 21474838 of size 100 over 3 items: the offset wraps negative and the code returns all 3 items where the page is empty |
| StandardsApi.GetAllStandards | src/CodingAgentHelper.Api/Controllers/StandardsController.cs:38-74 | 200 with the clamped page number and size, at most 100 items and the full count; the items are taken at the 32-bit offset the code computes, which while `(pageNumber - 1) * pageSize` fits in an int is exactly Page(all, pageNumber, pageSize) |
| StandardsApi.FilterByCategory | src/CodingAgentHelper.Api/Controllers/StandardsController.cs:285-288 | keeps a result iff its category equals the filter ignoring ASCII and Latin-1 letter case |
| StandardsApi.FilterByCategoryAppend | src/CodingAgentHelper.Api/Controllers/StandardsController.cs:285-288 | filtering distributes over concatenation, so the order is kept |
| StandardsApi.FilterByCategoryAllMatch | src/CodingAgentHelper.Api/Controllers/StandardsController.cs:285-288 | results that all match pass through unchanged |
| StandardsApi.SearchStandards | src/CodingAgentHelper.Api/Controllers/StandardsController.cs:270-309 | a blank query is a 400 "Search query cannot be empty"; otherwise 200 with the service's results, filtered when a category is given, as one page whose size and count equal the number of items |
| StandardsApi.WithTags | src/CodingAgentHelper.Api/Controllers/StandardsController.cs:149-155 | adding tags one by one keeps a well-formed list well formed |
| StandardsApi.WithTagsMembers | src/CodingAgentHelper.Api/Controllers/StandardsController.cs:149-155 | a tag ends up present iff it was already there or was requested and is not blank |
| StandardsApi.WithTagsAppend | src/CodingAgentHelper.Api/Controllers/StandardsController.cs:149-155 | adding xs and then ys equals adding xs + ys |
| StandardsApi.WithTagsDistinct | src/CodingAgentHelper.Api/Controllers/StandardsController.cs:149-155 | distinct non-blank tags are all kept, in their order |
| StandardsApi.SetRequestedPriority | src/CodingAgentHelper.Api/Controllers/StandardsController.cs:144-147 | a requested priority is set through the service, and no priority leaves it; status and tags are unchanged |
| StandardsApi.AddTags | src/CodingAgentHelper.Api/Controllers/StandardsController.cs:149-155 | each requested tag is added in turn: the tags become WithTags(old, requested); status and priority are unchanged |
| StandardsApi.CreateStandard | src/CodingAgentHelper.Api/Controllers/StandardsController.cs:124-173 | 201 iff title, description and category are non-blank; otherwise 400 with the entity's message and nothing stored or indexed; the created standard has the requested priority (default Medium) and WithTags of the requested tags; the index holds its vector from before the priority and tags were applied |
| CategoriesApi.GetAllCategories | src/CodingAgentHelper.Api/Controllers/CategoriesController.cs:37-73 | 200 with the clamped page number and size, at most 100 items and the full count; the items are taken at the 32-bit offset the code computes, which while `(pageNumber - 1) * pageSize` fits in an int is exactly Page(all, pageNumber, pageSize) |
| CategoriesApi.GetCategory | src/CodingAgentHelper.Api/Controllers/CategoriesController.cs:85-111 | 200 with the stored category, or 404 for an unknown id |
| CategoriesApi.CreateCategory | src/CodingAgentHelper.Api/Controllers/CategoriesController.cs:123-163 | 201 iff the name is free and non-blank; a null description is stored as ""; otherwise 400 with the duplicate or empty-name message and nothing stored |
| CategoriesApi.UpdateCategory | src/CodingAgentHelper.Api/Controllers/CategoriesController.cs:176-205 | 404 for an unknown id; otherwise 200, and the description is replaced when given and kept when null |
| CategoriesApi.DeleteCategory | src/CodingAgentHelper.Api/Controllers/CategoriesController.cs:217-243 | 404 and nothing removed for an unknown id; otherwise 204 and the category is removed |
| Errors.BaseType | src/CodingAgentHelper.Api/Middleware/ExceptionHandlingMiddleware.cs:53-82 | each exception type other than System.Exception has a direct base one level closer to the root |
| ExceptionMiddleware.HttpResponse.constructor | src/CodingAgentHelper.Api/Middleware/ExceptionHandlingMiddleware.cs:27-38 | a response not yet written: status 200, no content type, no body |
| ExceptionMiddleware.HandleException | src/CodingAgentHelper.Api/Middleware/ExceptionHandlingMiddleware.cs:43-85 | content type `application/json; charset=utf-8` (what `WriteAsJsonAsync` leaves); status and message by the exception's family; the exception's message as details |
| ExceptionMiddleware.Invoke | src/CodingAgentHelper.Api/Middleware/ExceptionHandlingMiddleware.cs:27-38 | a request that completes leaves the response untouched; an escaped exception is written as HandleException writes it |
| ExceptionMiddleware.Classify | src/CodingAgentHelper.Api/Middleware/ExceptionHandlingMiddleware.cs:53-82 | the status is 400, 404 or 500; each of the three specific answers (400 "Invalid argument", 404 "Resource not found", 400 "Invalid operation") is given iff the exception is, subclasses included, of the matching type, so the order of the cases does not matter; a 4xx is returned iff the exception belongs to one of those three families |
| ExceptionMiddleware.SubclassesFollowTheirBase | src/CodingAgentHelper.Api/Middleware/ExceptionHandlingMiddleware.cs:55-81 | ArgumentNull and ArgumentOutOfRange are "Invalid argument", ObjectDisposed is "Invalid operation", and ChromaException is a 500 |
| ExceptionMiddleware.FamiliesDisjoint | src/CodingAgentHelper.Api/Middleware/ExceptionHandlingMiddleware.cs:55-74 | no type belongs to two of the three caught families, so the order of the cases does not matter |
| TagInput.Clean | src/CodingAgentHelper.Web/Pages/Admin/Standards/Edit.cshtml.cs:137-139 | trimming and dropping blanks never adds pieces |
| TagInput.CleanedArePlain | src/CodingAgentHelper.Web/Pages/Admin/Standards/Edit.cshtml.cs:136-139 | pieces split at commas clean up to trimmed, non-blank tags without commas |
| TagInput.ParseTags | src/CodingAgentHelper.Web/Pages/Admin/Standards/Edit.cshtml.cs:134-139 | null or blank input gives no tags; every parsed tag is trimmed, non-blank and comma-free |
| TagInput.SplitJoined | src/CodingAgentHelper.Web/Pages/Admin/Standards/Edit.cshtml.cs:94 | splitting tags joined with ", " gives the first tag and then each later tag behind one blank |
| TagInput.CleanJoined | src/CodingAgentHelper.Web/Pages/Admin/Standards/Edit.cshtml.cs:94-139 | splitting and cleaning the joined text of plain tags gives the tags back |
| TagInput.ParseJoinedTags | src/CodingAgentHelper.Web/Pages/Admin/Standards/Edit.cshtml.cs:94-139 | parsing the text the Edit page shows gives the same plain tags back, in order and with repeats |
| EditPage.StatusValue | src/CodingAgentHelper.Web/Pages/Admin/Standards/Edit.cshtml.cs:78-85 | a status name maps to its position among the statuses; any other text maps to Active |
| EditPage.PriorityValue | src/CodingAgentHelper.Web/Pages/Admin/Standards/Edit.cshtml.cs:86-93 | a priority name maps to its position among the priorities; any other text maps to Medium |
| EditPage.StatusValueOfName | src/CodingAgentHelper.Web/Pages/Admin/Standards/Edit.cshtml.cs:78-85 | reading back the printed status gives the status, or Active for an undeclared number |
| EditPage.PriorityValueOfName | src/CodingAgentHelper.Web/Pages/Admin/Standards/Edit.cshtml.cs:86-93 | reading back the printed priority gives the priority, or Medium for an undeclared number |
| EditPage.TagsText | src/CodingAgentHelper.Web/Pages/Admin/Standards/Edit.cshtml.cs:94 | the tag field filled from plain tags parses back to those tags; with no list it parses to no tags |
| EditPage.InputFor | src/CodingAgentHelper.Web/Pages/Admin/Standards/Edit.cshtml.cs:72-95 | the form copies id, title, description and category, maps status and priority through the switches, and joins the tags |
| EditPage.UpdateFor | src/CodingAgentHelper.Web/Pages/Admin/Standards/Edit.cshtml.cs:142-147 | the PUT body carries the form's status and priority and its parsed tags |
| EditPage.SaveUntouchedForm | src/CodingAgentHelper.Web/Pages/Admin/Standards/Edit.cshtml.cs:72-147 | loading a declared-status, declared-priority, plain-tagged standard and saving untouched sends its own status, priority and tags |
| EditPage.Loaded | src/CodingAgentHelper.Web/Pages/Admin/Standards/Edit.cshtml.cs:192-216 | a failed reply or an exception keeps the displayed standard; a readable success replaces it |
| EditPage.GetResult | src/CodingAgentHelper.Web/Pages/Admin/Standards/Edit.cshtml.cs:56-113 | the page shows iff the GET succeeds with a readable body; 404 iff the reply is 404; other failures keep their status; exceptions give 500 |
| EditPage.EditPageModel.constructor | src/CodingAgentHelper.Web/Pages/Admin/Standards/Edit.cshtml.cs:20-42 | an empty standard and form, no messages |
| EditPage.EditPageModel.OnGet | src/CodingAgentHelper.Web/Pages/Admin/Standards/Edit.cshtml.cs:47-114 | the empty GUID is not found without a request; otherwise one GET, whose reply decides the result; a shown page holds the loaded standard and its form |
| EditPage.EditPageModel.LoadStandard | src/CodingAgentHelper.Web/Pages/Admin/Standards/Edit.cshtml.cs:192-216 | one GET; the displayed standard becomes Loaded of the reply |
| EditPage.EditPageModel.OnPost | src/CodingAgentHelper.Web/Pages/Admin/Standards/Edit.cshtml.cs:119-187 | the empty GUID is not found without a request; otherwise GET, PUT of UpdateFor, and a second GET only after success, so a saved page shows the standard as the server returns it after the PUT; 404 only for a 404 reply; the messages follow the reply |
| CreatePage.PayloadFor | src/CodingAgentHelper.Web/Pages/Admin/Standards/Create.cshtml.cs:64-79 | the POST body carries the form's fields and its parsed tags, which are plain |
| CreatePage.BoundRequest | src/CodingAgentHelper.Api/Models/StandardDtos.cs:6-32 | the API request bound from the page's payload has the same fields, with priority and tags present |
| CreatePage.CreatedTags | src/CodingAgentHelper.Web/Pages/Admin/Standards/Create.cshtml.cs:64-78 | a standard created from the form gets exactly the parsed tags, and the parsed list itself when it has no repeats |
| CreatePage.CreatePageModel.constructor | src/CodingAgentHelper.Web/Pages/Admin/Standards/Create.cshtml.cs:21-37 | an empty form with priority Medium, no messages |
| CreatePage.CreatePageModel.OnGet | src/CodingAgentHelper.Web/Pages/Admin/Standards/Create.cshtml.cs:42-46 | the form is reset to a new empty one |
| CreatePage.CreatePageModel.OnPost | src/CodingAgentHelper.Web/Pages/Admin/Standards/Create.cshtml.cs:51-113 | an invalid form shows an error and sends nothing; otherwise one POST; success redirects to the list, and a failure shows the message for 400, other statuses or an exception |
| WebClient.StandardUrlInjective | src/CodingAgentHelper.Web/Pages/Admin/Standards/Edit.cshtml.cs:57 | different standards have different URLs |
| WebClient.ApiClient.constructor | src/CodingAgentHelper.Web/Pages/Admin/Standards/Edit.cshtml.cs:56 | a client that has sent nothing |
| WebClient.ApiClient.Send | src/CodingAgentHelper.Web/Pages/Admin/Standards/Edit.cshtml.cs:57 | the request is logged and the server's reply to it, given the requests sent before, returned |
| ViewModels.TotalPages | src/CodingAgentHelper.Web/Models/StandardViewModels.cs:82 | without overflow the page count is the ceiling of count / size: its pages hold every item and one fewer would not |
| ViewModels.TotalPagesLeast | src/CodingAgentHelper.Web/Models/CategoryViewModels.cs:62 | no smaller number of pages holds every item |
| ViewModels.NoItemsNoPages | src/CodingAgentHelper.Web/Models/StandardViewModels.cs:82 | an empty listing has no pages |
| ViewModels.TotalPagesOffsets | src/CodingAgentHelper.Web/Models/StandardViewModels.cs:82 | the last page starts inside the listing and the next one starts past its end |
| ViewModels.PagesUpToTotal | src/CodingAgentHelper.Web/Models/StandardViewModels.cs:82 | the view's page count agrees with the API's pages: pages 1..TotalPages are non-empty and the next is empty |
| ViewModels.DefaultListsAreFirstPages | src/CodingAgentHelper.Web/Models/StandardViewModels.cs:72-77 | the list models start at page 1 with sizes 10 and 20, values the API keeps when clamping |
| ViewModels.NewListsHaveNoPages | src/CodingAgentHelper.Web/Models/CategoryViewModels.cs:52-62 | a new list model has zero pages |
| ViewModels.CreateDefaultIsMedium | src/CodingAgentHelper.Web/Models/StandardViewModels.cs:118 | the create form's default priority is Medium, as the API and the edit switch default |
| ViewModels.ResultCount | src/CodingAgentHelper.Web/Models/StandardViewModels.cs:227 | the count of results shown, zero exactly when there are none |
| ViewModels.StatusChoices | src/CodingAgentHelper.Web/Models/StandardViewModels.cs:174-180 | each status choice pairs its value with the name the API prints, and the edit switch reads it back as that value |
| ViewModels.PriorityChoices | src/CodingAgentHelper.Web/Models/StandardViewModels.cs:185-191 | each priority choice pairs its value with the name the API prints, and the edit switch reads it back as that value |
| Text.Trim | src/CodingAgentHelper.Web/Pages/Admin/Standards/Edit.cshtml.cs:137 | the result has no white space at either end |
| Text.TrimEmptyIffBlank | src/CodingAgentHelper.Web/Pages/Admin/Standards/Edit.cshtml.cs:137-138 | trimming yields "" iff the text is blank |
| Text.TrimTrimmed | src/CodingAgentHelper.Web/Pages/Admin/Standards/Edit.cshtml.cs:137 | trimming is the identity on trimmed text |
| Text.Split | src/CodingAgentHelper.Web/Pages/Admin/Standards/Edit.cshtml.cs:136 | at least one piece, none containing the separator |
| Text.SplitAtFirst | src/CodingAgentHelper.Web/Pages/Admin/Standards/Edit.cshtml.cs:136 | splitting at the first separator peels off the first piece |
| Text.IntToStringRoundTrip | src/CodingAgentHelper.Core/Infrastructure/VectorStore/ChromaModels.cs:16 | parsing the printed integer gives it back |
| Text.EqualsIgnoreCase | src/CodingAgentHelper.Api/Controllers/StandardsController.cs:287 | two strings are equal ignoring case iff their upper-cased forms are equal; a string equals itself |
| Guids.ToString | src/CodingAgentHelper.Core/Application/Services/StandardService.cs:216 | the text of a GUID has 36 characters |
| Guids.ParseToString | src/CodingAgentHelper.Core/Application/Services/StandardService.cs:216 | parsing the text of a GUID gives the GUID back |
| Guids.ToStringInjective | src/CodingAgentHelper.Core/Application/Services/StandardService.cs:216 | distinct GUIDs have distinct texts |
| Guids.TryParse | src/CodingAgentHelper.Core/Application/Services/StandardService.cs:101-102 | a GUID read from text prints as that text with its hexadecimal letters in lower case |
| Linq.Take | src/CodingAgentHelper.Core/Infrastructure/VectorStore/ChromaClient.cs:99 | a prefix of min(n, length) items, none for n <= 0 |
| Linq.Skip | src/CodingAgentHelper.Api/Controllers/StandardsController.cs:50 | a suffix: everything for n <= 0, the last length - n items otherwise |
| Numerics.Wrap32 | src/CodingAgentHelper.Web/Models/StandardViewModels.cs:82 | the result is congruent to the input modulo 2^32 and equals it when it fits in an int |
| Numerics.TruncDiv | src/CodingAgentHelper.Web/Models/StandardViewModels.cs:82 | the quotient rounds toward zero, for divisors of either sign |

## Left out

- Floating point. Vectors are sequences of reals and the distance is the squared Euclidean distance. The square root is monotone, so the order of hits is the same; the `Distance` a hit reports is the square of the source's. Float rounding is not modelled.
- Hashing, the pseudo-random generator and `Math.Sqrt` in the embedding service. They are fields of a `Runtime` parameter, so embeddings are stated in terms of them rather than computed.
- `Guid.NewGuid()` and `DateTime.UtcNow`. The new id and the current time are parameters.
- The repositories' storage. A repository is a map from id to entity. The queries whose implementation is not part of this model are parameters of the members that use them: the full listing, the keyword search and the listing with standard counts.
- Database failures, cancellation and concurrency.
- JSON serialisation, HTTP transport, logging, and the trace id and timestamp of `ApiErrorResponse`. A JSON body is `View`, `Null` or `Unreadable`.
- The server behind the admin pages is a function of the requests already sent and the new one. The API behind it is not tied to the modelled controllers.
- ASP.NET model binding. `ModelState.IsValid` is the `modelValid` parameter of the create page. The API controllers' `ModelState` checks (StandardsController.cs:128-136, CategoriesController.cs:127-135) are not modelled.
- The controllers' `catch (Exception)` 500 branches. No modelled operation throws there, except the exceptions the middleware classifies.
- `GetStandard`, `UpdateStandard`, `DeleteStandard`, `AddTag` and `RemoveTag` of StandardsController. They are thin wrappers over the modelled service methods.
- The Index, Details and Delete admin pages.
- The Edit page's tags.
  - They are parsed and put in the PUT body, and `EditPage.UpdateFor` models that.
  - The API's `UpdateStandardRequest` (StandardDtos.cs:37-48) binds only status and priority, so the tags are not applied.
  - `StandardServices.StandardService.Update` accepts a title and a description that it ignores.
- `StandardServices.StandardService.Search`:
  - does not model an exception thrown by the repository lookup of a hit;
  - takes the full listing and the keyword matches as parameters.
- The standards collection is never created. No code wires up "cah_standards", so with the mock index every create leaves the vector id null and every non-blank search takes the keyword fallback. `StandardServices.StandardService.SearchResults` states that consequence.
- Search with a non-positive limit.
  - A limit below 1 returns no hits: `Take` with such a limit does not enumerate, so no dimensions are compared.
- ViewModels.TotalPages: bounds proved only while `TotalCount + PageSize - 1` fits in an `int`.
  - Past that point the sum wraps and the count is wrong. The lists never reach such totals.
  - A page size of 0 divides by zero in the source, and a negative page size gives a truncated, meaningless count. Neither is covered: the requires asks for a positive page size.
- StandardsApi.FilterByCategory: the comparison folds the ASCII and Latin-1 letters only (`"École"` matches `"école"`). `OrdinalIgnoreCase` also folds the letters of other scripts (Greek, Cyrillic and the rest of Unicode); such categories count as different here.
- StandardServices.HitIds: only the 36-character hyphenated ("D") form of a GUID is parsed. `Guid.TryParse` also accepts the "N", "B", "P" and "X" forms and white space around the text; hits whose `standard_id` is written that way are dropped here. This service always writes the "D" form.
- JSON `null` for strings is modelled only where the source declares the field nullable or coalesces it. That covers category descriptions, the tag field and the `tags` array.

## Findings

| source | as written | input that shows it | evidently intended | confidence | as-written member | corrected member |
|---|---|---|---|---|---|---|
| src/CodingAgentHelper.Api/Controllers/StandardsController.cs:49-53 (also CategoriesController.cs:48-52) | `Skip((pageNumber - 1) * pageSize)` computes the offset in 32-bit `int`. A large page number wraps it negative, and `Skip` of a negative count skips nothing. | pageNumber 21474838, pageSize 100, 3 items: the offset wraps to -2147483596 and the response holds all 3 items | a page past the end is empty | not executed | Paging.PageOffsetOverflow (about Paging.PageAsWritten, which StandardsApi.GetAllStandards and CategoriesApi.GetAllCategories return) | Paging.Page, with Paging.PagesConcatenate and Paging.ItemOnItsPage |
