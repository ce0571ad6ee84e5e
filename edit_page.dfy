/** The admin page that edits a standard's status, priority and tags. `OnGet` loads the standard
    from the API and fills the form: the status and priority names the API prints become the
    form's numbers, and the tags are joined with ", ". `OnPost` reloads the standard for
    display, parses the tag field and sends status, priority and tags back with a PUT. */
module EditPage {
  import opened Wrappers
  import opened Guids
  import opened Numerics
  import opened Text
  import opened StandardEnums
  import opened TagInput
  import opened WebClient

  /** The `Status` switch of `OnGet`: the number of a status name, `Active` for any other text. */
  function StatusValue(name: string): (v: int)
    ensures 0 <= v < |StatusNames|
    ensures name in StatusNames ==> StatusNames[v] == name
    ensures name !in StatusNames ==> v == Active.value
  {
    if name == "Active" then 0
    else if name == "Inactive" then 1
    else if name == "Archived" then 2
    else if name == "Deprecated" then 3
    else 0
  }

  /** The `Priority` switch of `OnGet`: the number of a priority name, `Medium` for any other text. */
  function PriorityValue(name: string): (v: int)
    ensures 0 <= v < |PriorityNames|
    ensures name in PriorityNames ==> PriorityNames[v] == name
    ensures name !in PriorityNames ==> v == Medium.value
  {
    if name == "Low" then 0
    else if name == "Medium" then 1
    else if name == "High" then 2
    else if name == "Critical" then 3
    else 1
  }

  /** Reading back the status the API prints gives the status, or `Active` for a number
      outside the declared statuses. */
  lemma StatusValueOfName(s: StandardStatus)
    ensures StatusValue(StatusName(s)) == if 0 <= s.value < |StatusNames| then s.value else Active.value
  {
    if !(0 <= s.value < |StatusNames|) {
      StandardEnums.NumberNotAName(s.value, StatusNames);
    }
  }

  /** Reading back the priority the API prints gives the priority, or `Medium` for a number
      outside the declared priorities. */
  lemma PriorityValueOfName(p: StandardPriority)
    ensures PriorityValue(PriorityName(p)) == if 0 <= p.value < |PriorityNames| then p.value else Medium.value
  {
    if !(0 <= p.value < |PriorityNames|) {
      StandardEnums.NumberNotAName(p.value, PriorityNames);
    }
  }

  /** The tag field's text: the tags joined by ", ", or empty when there are none or the JSON
      held no list. Saving the field as it was loaded sends the standard's own tags when each
      of them is a plain tag, and no tags when there was no list. */
  function TagsText(tags: Option<seq<string>>): (r: string)
    ensures tags.Some? && (forall i :: 0 <= i < |tags.value| ==> PlainTag(tags.value[i])) ==>
      ParseTags(Some(r)) == tags.value
    ensures tags.None? ==> ParseTags(Some(r)) == []
  {
    if tags.Some? && |tags.value| > 0 then
      if forall i :: 0 <= i < |tags.value| ==> PlainTag(tags.value[i]) then
        ParseJoinedTags(tags.value);
        Join(", ", tags.value)
      else Join(", ", tags.value)
    else ""
  }

  /** `StandardEditViewModel`, the bound form. The tag field is `None` when the form posts it
      empty. */
  datatype EditInput = EditInput(
    id: Guid,
    title: string,
    description: string,
    category: string,
    status: int32,
    priority: int32,
    tags: Option<string>)

  /** `new StandardEditViewModel()`. */
  const EmptyInput := EditInput(Empty, "", "", "", 0, 0, Some(""))

  /** The form `OnGet` fills from a loaded standard. */
  function InputFor(v: StandardView): (input: EditInput)
    ensures input.id == v.id && input.title == v.title
    ensures input.description == v.description && input.category == v.category
    ensures input.status == StatusValue(v.status) && input.priority == PriorityValue(v.priority)
    ensures input.tags == Some(TagsText(v.tags))
  {
    EditInput(v.id, v.title, v.description, v.category, StatusValue(v.status), PriorityValue(v.priority),
      Some(TagsText(v.tags)))
  }

  /** The body of the PUT `OnPost` sends for a form. */
  function UpdateFor(input: EditInput): (p: Payload)
    ensures p.UpdatePayload? && p.status == input.status && p.priority == input.priority
    ensures NullOrBlank(input.tags) ==> p.tags == []
    ensures forall i :: 0 <= i < |p.tags| ==> PlainTag(p.tags[i])
  {
    UpdatePayload(input.status, input.priority, ParseTags(input.tags))
  }

  /** Loading a standard for editing and saving the form untouched sends the standard's own
      status, priority and tags back, for a standard whose status and priority are declared
      values and whose tags are plain. */
  lemma SaveUntouchedForm(v: StandardView, status: StandardStatus, priority: StandardPriority, tags: seq<string>)
    requires v.status == StatusName(status) && v.priority == PriorityName(priority) && v.tags == Some(tags)
    requires 0 <= status.value < |StatusNames| && 0 <= priority.value < |PriorityNames|
    requires forall i :: 0 <= i < |tags| ==> PlainTag(tags[i])
    ensures UpdateFor(InputFor(v)) == UpdatePayload(status.value, priority.value, tags)
  {
    StatusValueOfName(status);
    PriorityValueOfName(priority);
  }

  /** `PUT {ApiBaseUrl}/standards/{id}` with a body. */
  function PutRequest(id: Guid, payload: Payload): HttpRequest {
    HttpRequest(Put, StandardUrl(id), Some(payload))
  }

  /** `LoadStandardAsync`: the displayed standard after a GET. A failed or unreadable reply,
      and an exception, leave it as it was; a JSON `null` resets it. */
  function Loaded(current: StandardView, e: Exchange): (v: StandardView)
    ensures !IsSuccess(e) ==> v == current
    ensures IsSuccess(e) && e.body.View? ==> v == e.body.view
  {
    if !IsSuccess(e) then current
    else if e.body.View? then e.body.view
    else if e.body.Null? then EmptyView
    else current
  }


  /** What `OnGet` returns for the reply to its GET. */
  function GetResult(e: Exchange): (r: PageResult)
    ensures r == ShowPage <==> IsSuccess(e) && !e.body.Unreadable?
    ensures r == NotFoundPage <==> e.Reply? && e.statusCode == 404
    ensures e.Reply? && !IsSuccess(e) && e.statusCode != 404 ==> r == StatusCodePage(e.statusCode)
    ensures r.StatusCodePage? && (e.Thrown? || IsSuccess(e)) ==> r.code == 500
  {
    if e.Thrown? then StatusCodePage(500)
    else if IsSuccess(e) then (if e.body.Unreadable? then StatusCodePage(500) else ShowPage)
    else if e.statusCode == 404 then NotFoundPage
    else StatusCodePage(e.statusCode)
  }

  const UpdatedMessage := "Standard updated successfully!"
  const InvalidDataMessage := "Invalid data provided. Please check your input."
  const UpdateFailedMessage := "Failed to update standard. Please try again."
  const UpdateErrorMessage := "An error occurred while updating the standard."

  /** The error `OnPost` shows for a reply to its PUT that is neither a success nor a 404. */
  function PostError(e: Exchange): string {
    if e.Thrown? then UpdateErrorMessage
    else if e.statusCode == 400 then InvalidDataMessage
    else UpdateFailedMessage
  }

  /** `EditModel`: the page state of one request. */
  class EditPageModel {
    var standard: StandardView
    var input: EditInput
    var successMessage: Option<string>
    var errorMessage: Option<string>

    constructor()
      ensures standard == EmptyView && input == EmptyInput
      ensures successMessage == None && errorMessage == None
    {
      standard := EmptyView;
      input := EmptyInput;
      successMessage := None;
      errorMessage := None;
    }

    /** `OnGetAsync(id)`: the empty GUID is not found without a request; otherwise the GET's
        reply decides the result, and a readable success fills the standard and the form. */
    method OnGet(id: Guid, client: ApiClient) returns (r: PageResult)
      modifies this, client
      ensures id == Empty ==> r == NotFoundPage && client.sent == old(client.sent)
      ensures id != Empty ==> client.sent == old(client.sent) + [GetStandardRequest(id)]
      ensures id != Empty ==> r == GetResult(client.server(old(client.sent), GetStandardRequest(id)))
      ensures r == ShowPage ==> standard == Loaded(old(standard), client.server(old(client.sent), GetStandardRequest(id)))
      ensures r == ShowPage ==> input == InputFor(standard)
      ensures r != ShowPage ==> standard == old(standard) && input == old(input)
      ensures successMessage == old(successMessage) && errorMessage == old(errorMessage)
    {
      if id == Empty {
        return NotFoundPage;
      }
      var e := client.Send(GetStandardRequest(id));
      r := GetResult(e);
      if r == ShowPage {
        standard := Loaded(standard, e);
        input := InputFor(standard);
      }
    }

    /** `LoadStandardAsync(id)`: reloads the displayed standard; nothing it meets is thrown on. */
    method LoadStandard(id: Guid, client: ApiClient)
      modifies this`standard, client
      ensures client.sent == old(client.sent) + [GetStandardRequest(id)]
      ensures standard == Loaded(old(standard), client.server(old(client.sent), GetStandardRequest(id)))
    {
      var e := client.Send(GetStandardRequest(id));
      standard := Loaded(standard, e);
    }

    /** `OnPostAsync()`: the empty GUID is not found without a request. Otherwise the standard
        is reloaded, the form's status, priority and parsed tags are PUT, and the reply decides:
        a success sets the success message and reloads once more, so the page shows the
        standard as the server returns it after the PUT; a 404 is not found, and any other reply
        or an exception sets the matching error message. */
    method OnPost(client: ApiClient) returns (r: PageResult)
      modifies this, client
      ensures input == old(input)
      ensures input.id == Empty ==> r == NotFoundPage && client.sent == old(client.sent)
      ensures input.id == Empty ==> standard == old(standard)
      ensures input.id == Empty ==> successMessage == old(successMessage) && errorMessage == old(errorMessage)
      ensures input.id != Empty ==>
        var get := GetStandardRequest(input.id);
        var put := PutRequest(input.id, UpdateFor(input));
        var before := Loaded(old(standard), client.server(old(client.sent), get));
        var e := client.server(old(client.sent) + [get], put);
        && client.sent == old(client.sent) + [get, put] + (if IsSuccess(e) then [get] else [])
        && standard == (if IsSuccess(e) then Loaded(before, client.server(old(client.sent) + [get, put], get)) else before)
        && r == (if e.Reply? && !IsSuccess(e) && e.statusCode == 404 then NotFoundPage else ShowPage)
        && successMessage == (if IsSuccess(e) then Some(UpdatedMessage) else old(successMessage))
        && errorMessage == (if IsSuccess(e) || r == NotFoundPage then old(errorMessage) else Some(PostError(e)))
    {
      if input.id == Empty {
        return NotFoundPage;
      }
      ghost var sent0 := client.sent;
      var get := GetStandardRequest(input.id);
      LoadStandard(input.id, client);
      var put := PutRequest(input.id, UpdateFor(input));
      var e := client.Send(put);
      assert client.sent == sent0 + [get, put];
      if IsSuccess(e) {
        successMessage := Some(UpdatedMessage);
        LoadStandard(input.id, client);
        r := ShowPage;
      } else if e.Thrown? || e.statusCode != 404 {
        errorMessage := Some(PostError(e));
        r := ShowPage;
      } else {
        r := NotFoundPage;
      }
    }
  }
}
