/** `CategoryService`: creates, finds, updates and deletes categories. The category
    repository is modelled as the map from id to tracked entity; it looks names up exactly. */
module CategoryServices {
  import opened Wrappers
  import opened Errors
  import opened Guids
  import opened StandardEntity
  import opened CategoryEntity
  import Text

  /** The `InvalidOperationException` for a name already in use. */
  function DuplicateName(name: string): Error {
    Error(InvalidOperationException, "Category '" + name + "' already exists")
  }

  /** The `KeyNotFoundException` for an unknown category. */
  function CategoryNotFound(id: Guid): Error {
    Error(KeyNotFoundException, "Category with ID " + Guids.ToString(id) + " not found")
  }

  class CategoryService {
    /** The category repository, as the map from id to tracked entity. */
    var store: map<Guid, Category>

    /** Every stored category sits under its own id, has a non-blank name, and no two
        categories share a name. */
    ghost predicate Valid()
      reads this, store.Values
    {
      && (forall k :: k in store ==> store[k].id == k && !Text.Blank(store[k].name))
      && (forall k1, k2 :: k1 in store && k2 in store && store[k1].name == store[k2].name ==> k1 == k2)
    }

    /** Whether some stored category is called `name`. */
    ghost predicate NameTaken(name: string)
      reads this, store.Values
    {
      exists k :: k in store && store[k].name == name
    }

    constructor ()
      ensures Valid() && store == map[]
    {
      store := map[];
    }

    /** `GetByIdAsync`. */
    method GetCategory(id: Guid) returns (r: Option<Category>)
      ensures r.Some? <==> id in store
      ensures r.Some? ==> r.value == store[id]
    {
      r := if id in store then Some(store[id]) else None;
    }

    /** `GetByNameAsync`: the category called `name`, if any. */
    method FindByName(name: string) returns (r: Option<Category>)
      requires Valid()
      ensures r.Some? <==> NameTaken(name)
      ensures r.Some? ==> r.value in store.Values && r.value.name == name
    {
      if k :| k in store && store[k].name == name {
        r := Some(store[k]);
      } else {
        r := None;
      }
    }

    /** `GetCategoryByNameAsync`: a blank name is rejected before the lookup. */
    method GetCategoryByName(name: string) returns (r: Result<Option<Category>, Error>)
      requires Valid()
      ensures Text.Blank(name) ==> r == Failure(NameEmpty)
      ensures !Text.Blank(name) ==> r.Success? && (r.value.Some? <==> NameTaken(name))
      ensures r.Success? && r.value.Some? ==> r.value.value in store.Values && r.value.value.name == name
    {
      if Text.Blank(name) {
        return Failure(NameEmpty);
      }
      var found := FindByName(name);
      r := Success(found);
    }

    /** `CreateCategoryAsync`: a name already in use is rejected, then the entity's own
        validation runs; on success exactly one category is added. */
    method Create(name: string, description: string, id: Guid, now: DateTime)
      returns (r: Result<Category, Error>)
      requires Valid()
      requires id !in store
      modifies this
      ensures Valid()
      ensures r.Failure? <==> old(NameTaken(name)) || Text.Blank(name)
      ensures old(NameTaken(name)) ==> r == Failure(DuplicateName(name))
      ensures !old(NameTaken(name)) && Text.Blank(name) ==> r == Failure(NameEmpty)
      ensures r.Failure? ==> store == old(store)
      ensures r.Success? ==>
        && fresh(r.value) && store == old(store)[id := r.value]
        && r.value.id == id && r.value.name == name && r.value.description == description
        && r.value.standardCount == 0 && r.value.createdAt == now
    {
      var existing := FindByName(name);
      if existing.Some? {
        return Failure(DuplicateName(name));
      }
      r := NewCategory(id, name, Some(description), now);
      if r.Success? {
        store := store[id := r.value];
      }
    }

    /** `UpdateCategoryAsync`: replaces the description of a known category. */
    method Update(id: Guid, description: string) returns (r: Outcome<Error>)
      requires Valid()
      modifies if id in store then {store[id]} else {}
      ensures Valid()
      ensures id !in store ==> r == Fail(CategoryNotFound(id))
      ensures id in store ==>
        r == Pass && store[id].description == description
        && store[id].standardCount == old(store[id].standardCount)
    {
      var found := GetCategory(id);
      if found.None? {
        return Fail(CategoryNotFound(id));
      }
      found.value.UpdateDescription(Some(description));
      r := Pass;
    }

    /** `DeleteCategoryAsync`: removes the category if it is stored; an unknown id is not an
        error. */
    method Delete(id: Guid)
      requires Valid()
      modifies this
      ensures Valid()
      ensures store == old(store) - {id}
    {
      store := store - {id};
    }
  }

  /** The duplicate-name rule: a second category with the same name is refused and the first
      one stays the only one under that name. */
  method CreateTwice(service: CategoryService, name: string, id1: Guid, id2: Guid, now: DateTime)
    returns (first: Result<Category, Error>, second: Result<Category, Error>)
    requires service.Valid()
    requires id1 != id2 && id1 !in service.store && id2 !in service.store
    requires !Text.Blank(name) && !service.NameTaken(name)
    modifies service
    ensures first.Success? && second == Failure(DuplicateName(name))
    ensures service.store == old(service.store)[id1 := first.value]
  {
    first := service.Create(name, "", id1, now);
    assert service.store[id1].name == name;
    second := service.Create(name, "", id2, now);
  }
}
