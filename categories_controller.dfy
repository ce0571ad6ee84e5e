/** The parts of `CategoriesController` with behaviour of their own: the paged listing, the
    defaulting of a missing description on create and update, and the not-found guards. */
module CategoriesApi {
  import opened Wrappers
  import opened Errors
  import opened Numerics
  import opened Guids
  import opened StandardEntity
  import opened CategoryEntity
  import opened CategoryServices
  import opened Paging
  import opened ApiModels
  import Text

  /** The 404 body the controller writes for an unknown id. */
  function CategoryMissing(id: Guid): ApiErrorResponse {
    ApiErrorResponse(404, "Category with ID " + Guids.ToString(id) + " not found", None)
  }

  /** `GetAllCategories`: the requested page of the listing with standard counts, its offset
      computed in 32-bit arithmetic as the controller does; while that offset fits in an `int`
      it is the intended page. */
  function GetAllCategories(all: seq<Category>, pageNumber: int32, pageSize: int32): (r: ActionResult<ListPage<Category>>)
    ensures r.Ok?
    ensures r.body.totalCount == |all| && |r.body.items| <= r.body.pageSize <= MaxPageSize
    ensures r.body.pageNumber == ClampPageNumber(pageNumber) && r.body.pageSize == ClampPageSize(pageSize)
    ensures (ClampPageNumber(pageNumber) - 1) * ClampPageSize(pageSize) <= Int32Max ==>
      r.body == Page(all, pageNumber, pageSize)
  {
    if (ClampPageNumber(pageNumber) - 1) * ClampPageSize(pageSize) <= Int32Max then
      PageAsWrittenWithoutOverflow(all, pageNumber, pageSize);
      Ok(PageAsWritten(all, pageNumber, pageSize))
    else Ok(PageAsWritten(all, pageNumber, pageSize))
  }

  /** `GetCategory`. */
  method GetCategory(service: CategoryService, id: Guid) returns (r: ActionResult<Category>)
    ensures id in service.store ==> r == Ok(service.store[id])
    ensures id !in service.store ==> r == NotFound(CategoryMissing(id))
  {
    var found := service.GetCategory(id);
    if found.None? {
      return NotFound(CategoryMissing(id));
    }
    r := Ok(found.value);
  }

  /** `CreateCategory`: a missing description is passed on as the empty string; the argument
      and duplicate-name exceptions become 400 responses carrying their message. */
  method CreateCategory(service: CategoryService, name: string, description: Option<string>, id: Guid, now: DateTime)
    returns (r: ActionResult<Category>)
    requires service.Valid()
    requires id !in service.store
    modifies service
    ensures service.Valid()
    ensures r.Created? <==> !old(service.NameTaken(name)) && !Text.Blank(name)
    ensures old(service.NameTaken(name)) ==> r == BadRequest(ApiErrorResponse(400, DuplicateName(name).message, None))
    ensures !old(service.NameTaken(name)) && Text.Blank(name) ==> r == BadRequest(ApiErrorResponse(400, NameEmpty.message, None))
    ensures !r.Created? ==> service.store == old(service.store)
    ensures r.Created? ==>
      && service.store == old(service.store)[id := r.body]
      && r.body.name == name && r.body.description == description.GetOr("")
  {
    var created := service.Create(name, description.GetOr(""), id, now);
    if created.Failure? {
      return BadRequest(ApiErrorResponse(400, created.error.message, None));
    }
    r := Created(created.value);
  }

  /** `UpdateCategory`: an absent description keeps the current one. */
  method UpdateCategory(service: CategoryService, id: Guid, description: Option<string>)
    returns (r: ActionResult<Category>)
    requires service.Valid()
    modifies if id in service.store then {service.store[id]} else {}
    ensures service.Valid()
    ensures id !in service.store ==> r == NotFound(CategoryMissing(id))
    ensures id in service.store ==>
      && r == Ok(service.store[id])
      && service.store[id].description == description.GetOr(old(service.store[id].description))
      && service.store[id].standardCount == old(service.store[id].standardCount)
  {
    var found := service.GetCategory(id);
    if found.None? {
      return NotFound(CategoryMissing(id));
    }
    var category := found.value;
    var _ := service.Update(id, description.GetOr(category.description));
    r := Ok(category);
  }

  /** `DeleteCategory`: an unknown id is answered with 404 and nothing is removed. */
  method DeleteCategory(service: CategoryService, id: Guid) returns (r: ActionResult<Category>)
    requires service.Valid()
    modifies service
    ensures service.Valid()
    ensures id !in old(service.store) ==> r == NotFound(CategoryMissing(id)) && service.store == old(service.store)
    ensures id in old(service.store) ==> r == NoContent && service.store == old(service.store) - {id}
  {
    var found := service.GetCategory(id);
    if found.None? {
      return NotFound(CategoryMissing(id));
    }
    service.Delete(id);
    r := NoContent;
  }
}
