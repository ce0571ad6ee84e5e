/** The `Standard` entity: a coding standard with its status, priority and tags. */
module StandardEntity {
  import opened Wrappers
  import opened Errors
  import opened Guids
  import opened StandardEnums
  import Text

  /** A `DateTime`, as ticks; the clock is read by the caller and passed in as `now`. */
  type DateTime = int

  /** A tag list as `AddTag` keeps it: no blank tag and no tag twice. */
  predicate TagsWellFormed(tags: seq<string>) {
    && (forall i :: 0 <= i < |tags| ==> !Text.Blank(tags[i]))
    && (forall i, j :: 0 <= i < j < |tags| ==> tags[i] != tags[j])
  }

  /** The tags after `AddTag(tag)`: appended unless blank or already present. */
  function WithTag(tags: seq<string>, tag: string): (r: seq<string>)
    ensures forall x :: x in r <==> x in tags || (x == tag && !Text.Blank(tag))
    ensures TagsWellFormed(tags) ==> TagsWellFormed(r)
  {
    if !Text.Blank(tag) && tag !in tags then tags + [tag] else tags
  }

  /** The tags after `RemoveTag(tag)`: `List.Remove` drops the first occurrence only. */
  function WithoutTag(tags: seq<string>, tag: string): (r: seq<string>)
    ensures tag in tags ==> |r| == |tags| - 1
    ensures tag !in tags ==> r == tags
    ensures multiset(r) == multiset(tags) - multiset{tag}
  {
    if |tags| == 0 then []
    else
      assert tags == [tags[0]] + tags[1..];
      if tags[0] == tag then tags[1..]
      else [tags[0]] + WithoutTag(tags[1..], tag)
  }

  /** In a well-formed list the removed tag was the only copy, and the rest stays well formed. */
  lemma WithoutTagWellFormed(tags: seq<string>, tag: string)
    requires TagsWellFormed(tags)
    ensures TagsWellFormed(WithoutTag(tags, tag))
    ensures forall x :: x in WithoutTag(tags, tag) <==> x in tags && x != tag
  {
    var r := WithoutTag(tags, tag);
    forall x
      ensures x in r <==> x in tags && x != tag
    {
      assert x in r <==> x in multiset(r);
      assert x in tags <==> x in multiset(tags);
      if x == tag && tag in tags {
        var i :| 0 <= i < |tags| && tags[i] == tag;
        assert multiset(tags)[tag] == 1 by { CountOfUnique(tags, i); }
      }
    }
    forall i, j | 0 <= i < j < |r|
      ensures r[i] != r[j]
    {
      if r[i] == r[j] {
        assert multiset(r)[r[i]] >= 2 by { CountAtLeastTwo(r, i, j); }
        assert multiset(tags)[r[i]] >= 2;
        var k :| 0 <= k < |tags| && tags[k] == r[i] by { assert r[i] in multiset(tags); }
        CountOfUnique(tags, k);
      }
    }
    forall i | 0 <= i < |r|
      ensures !Text.Blank(r[i])
    {
      assert r[i] in multiset(r);
    }
  }

  lemma CountOfUnique(s: seq<string>, k: nat)
    requires k < |s|
    requires forall i, j :: 0 <= i < j < |s| ==> s[i] != s[j]
    ensures multiset(s)[s[k]] == 1
  {
    assert s == s[..k] + [s[k]] + s[k + 1..];
    assert s[k] !in s[..k] && s[k] !in s[k + 1..];
    assert multiset(s) == multiset(s[..k]) + multiset{s[k]} + multiset(s[k + 1..]);
  }

  lemma CountAtLeastTwo(s: seq<string>, i: nat, j: nat)
    requires i < j < |s|
    requires s[i] == s[j]
    ensures multiset(s)[s[i]] >= 2
  {
    assert s == s[..i] + [s[i]] + s[i + 1..j] + [s[j]] + s[j + 1..];
    assert multiset(s) == multiset(s[..i]) + multiset{s[i]} + multiset(s[i + 1..j]) + multiset{s[j]} + multiset(s[j + 1..]);
  }

  /** Adding a tag that is already there, or adding it twice, changes nothing more. */
  lemma WithTagIdempotent(tags: seq<string>, tag: string)
    ensures WithTag(WithTag(tags, tag), tag) == WithTag(tags, tag)
  {
  }

  /** Removing a tag that was just added gives the original list back. */
  lemma {:induction false} AddThenRemove(tags: seq<string>, tag: string)
    requires tag !in tags && !Text.Blank(tag)
    ensures WithoutTag(WithTag(tags, tag), tag) == tags
  {
    if |tags| > 0 {
      AddThenRemove(tags[1..], tag);
      assert (tags + [tag])[1..] == tags[1..] + [tag];
      assert WithTag(tags[1..], tag) == tags[1..] + [tag];
    }
  }

  const TitleEmpty := Error(ArgumentException, "Title cannot be empty (Parameter 'title')")
  const DescriptionEmpty := Error(ArgumentException, "Description cannot be empty (Parameter 'description')")
  const CategoryEmpty := Error(ArgumentException, "Category cannot be empty (Parameter 'category')")

  class Standard {
    const id: Guid
    const title: string
    const description: string
    const category: string
    var status: StandardStatus
    var priority: StandardPriority
    var tags: seq<string>
    var vectorId: Option<string>
    const createdAt: DateTime
    var updatedAt: DateTime

    ghost predicate Valid()
      reads this
    {
      !Text.Blank(title) && !Text.Blank(description) && !Text.Blank(category) && TagsWellFormed(tags)
    }

    /** A new active standard of medium priority with no tags and no vector. */
    constructor (id: Guid, title: string, description: string, category: string, now: DateTime)
      requires !Text.Blank(title) && !Text.Blank(description) && !Text.Blank(category)
      ensures Valid()
      ensures this.id == id && this.title == title && this.description == description
      ensures this.category == category
      ensures status == Active && priority == Medium && tags == [] && vectorId == None
      ensures createdAt == now && updatedAt == now
    {
      this.id := id;
      this.title := title;
      this.description := description;
      this.category := category;
      status := Active;
      priority := Medium;
      tags := [];
      vectorId := None;
      createdAt := now;
      updatedAt := now;
    }

    method UpdateStatus(newStatus: StandardStatus, now: DateTime)
      modifies this
      ensures status == newStatus && updatedAt == now
      ensures priority == old(priority) && tags == old(tags) && vectorId == old(vectorId)
    {
      status := newStatus;
      updatedAt := now;
    }

    method UpdatePriority(newPriority: StandardPriority, now: DateTime)
      modifies this
      ensures priority == newPriority && updatedAt == now
      ensures status == old(status) && tags == old(tags) && vectorId == old(vectorId)
    {
      priority := newPriority;
      updatedAt := now;
    }

    /** Appends a non-blank tag not yet present; the timestamp moves only then. */
    method AddTag(tag: string, now: DateTime)
      requires Valid()
      modifies this
      ensures Valid()
      ensures tags == WithTag(old(tags), tag)
      ensures updatedAt == if tags != old(tags) then now else old(updatedAt)
      ensures status == old(status) && priority == old(priority) && vectorId == old(vectorId)
    {
      if !Text.Blank(tag) && tag !in tags {
        tags := tags + [tag];
        updatedAt := now;
      }
    }

    /** Removes the tag if present; the timestamp moves only then. */
    method RemoveTag(tag: string, now: DateTime)
      requires Valid()
      modifies this
      ensures Valid()
      ensures tags == WithoutTag(old(tags), tag)
      ensures updatedAt == if tag in old(tags) then now else old(updatedAt)
      ensures status == old(status) && priority == old(priority) && vectorId == old(vectorId)
    {
      WithoutTagWellFormed(tags, tag);
      if tag in tags {
        tags := WithoutTag(tags, tag);
        updatedAt := now;
      }
    }
  }

  /** `new Standard(title, description, category)`, which throws on the first blank argument. */
  method NewStandard(id: Guid, title: string, description: string, category: string, now: DateTime)
    returns (r: Result<Standard, Error>)
    ensures Text.Blank(title) ==> r == Failure(TitleEmpty)
    ensures !Text.Blank(title) && Text.Blank(description) ==> r == Failure(DescriptionEmpty)
    ensures !Text.Blank(title) && !Text.Blank(description) && Text.Blank(category) ==> r == Failure(CategoryEmpty)
    ensures r.Success? ==>
      && fresh(r.value) && r.value.Valid()
      && r.value.id == id && r.value.title == title && r.value.description == description
      && r.value.category == category && r.value.status == Active && r.value.priority == Medium
      && r.value.tags == [] && r.value.vectorId == None
      && r.value.createdAt == now && r.value.updatedAt == now
    ensures r.Failure? <==> Text.Blank(title) || Text.Blank(description) || Text.Blank(category)
  {
    if Text.Blank(title) {
      return Failure(TitleEmpty);
    }
    if Text.Blank(description) {
      return Failure(DescriptionEmpty);
    }
    if Text.Blank(category) {
      return Failure(CategoryEmpty);
    }
    var s := new Standard(id, title, description, category, now);
    r := Success(s);
  }
}
