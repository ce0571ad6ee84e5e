/** The `Category` entity: a named group of standards. */
module CategoryEntity {
  import opened Wrappers
  import opened Errors
  import opened Guids
  import opened Numerics
  import opened StandardEntity
  import Text

  const NameEmpty := Error(ArgumentException, "Name cannot be empty (Parameter 'name')")

  class Category {
    const id: Guid
    const name: string
    var description: string
    var standardCount: int32
    const createdAt: DateTime

    /** A null description is stored as the empty string. */
    constructor (id: Guid, name: string, description: Option<string>, now: DateTime)
      requires !Text.Blank(name)
      ensures this.id == id && this.name == name && this.description == description.GetOr("")
      ensures standardCount == 0 && createdAt == now
    {
      this.id := id;
      this.name := name;
      this.description := description.GetOr("");
      standardCount := 0;
      createdAt := now;
    }

    /** Replaces the description; null becomes the empty string. */
    method UpdateDescription(newDescription: Option<string>)
      modifies this
      ensures description == newDescription.GetOr("")
      ensures newDescription.None? ==> description == ""
      ensures standardCount == old(standardCount)
    {
      description := newDescription.GetOr("");
    }
  }

  /** `new Category(name, description)`, which throws on a blank name. */
  method NewCategory(id: Guid, name: string, description: Option<string>, now: DateTime)
    returns (r: Result<Category, Error>)
    ensures r.Failure? <==> Text.Blank(name)
    ensures r.Failure? ==> r.error == NameEmpty
    ensures r.Success? ==>
      && fresh(r.value) && r.value.id == id && r.value.name == name
      && r.value.description == description.GetOr("") && r.value.standardCount == 0
      && r.value.createdAt == now
  {
    if Text.Blank(name) {
      return Failure(NameEmpty);
    }
    var c := new Category(id, name, description, now);
    r := Success(c);
  }
}
