/** The admin page that creates a standard. `OnPost` refuses a form that did not bind, and
    otherwise POSTs the form's title, description, category and priority with the parsed tags:
    a success redirects to the list, a failure shows an error on the page. */
module CreatePage {
  import opened Wrappers
  import opened Numerics
  import opened Text
  import opened StandardEnums
  import opened StandardEntity
  import opened TagInput
  import opened WebClient
  import StandardsApi

  /** `StandardCreateViewModel`, the bound form. The tag field is `None` when the form posts it
      empty. */
  datatype CreateInput = CreateInput(
    title: string,
    description: string,
    category: string,
    priority: int32,
    tags: Option<string>)

  /** `new StandardCreateViewModel()`: priority `Medium`, no tags. */
  const EmptyInput := CreateInput("", "", "", Medium.value, None)

  /** The body of the POST `OnPost` sends for a form. */
  function PayloadFor(input: CreateInput): (p: Payload)
    ensures p.CreatePayload?
    ensures p.title == input.title && p.description == input.description
    ensures p.category == input.category && p.priority == input.priority
    ensures NullOrBlank(input.tags) ==> p.tags == []
    ensures forall i :: 0 <= i < |p.tags| ==> PlainTag(p.tags[i])
  {
    CreatePayload(input.title, input.description, input.category, input.priority, ParseTags(input.tags))
  }

  /** `POST {ApiBaseUrl}/standards`. */
  function PostRequest(payload: Payload): HttpRequest {
    HttpRequest(Post, ApiBaseUrl + "/standards", Some(payload))
  }

  /** The `CreateStandardRequest` the API binds from a create payload: priority and tags are
      always present. */
  function BoundRequest(p: Payload): (req: StandardsApi.CreateStandardRequest)
    requires p.CreatePayload?
    ensures req.title == p.title && req.description == p.description && req.category == p.category
    ensures req.priority == Some(p.priority) && req.tags == Some(p.tags)
  {
    StandardsApi.CreateStandardRequest(p.title, p.description, p.category, Some(p.priority), Some(p.tags))
  }

  /** The tags a standard created from the form gets: exactly the tags parsed from the field,
      each once; and the parsed list itself when it holds no repeats. */
  lemma CreatedTags(input: CreateInput)
    ensures var parsed := ParseTags(input.tags);
      var tags := StandardsApi.WithTags([], BoundRequest(PayloadFor(input)).tags.GetOr([]));
      && (forall x :: x in tags <==> x in parsed)
      && ((forall i, j :: 0 <= i < j < |parsed| ==> parsed[i] != parsed[j]) ==> tags == parsed)
  {
    var parsed := ParseTags(input.tags);
    assert BoundRequest(PayloadFor(input)).tags.GetOr([]) == parsed;
    PlainTagsAdded(parsed);
  }

  /** Adding plain tags to an empty list keeps exactly those tags, each once, and keeps the
      list itself when it has no repeats. */
  lemma PlainTagsAdded(parsed: seq<string>)
    requires forall i :: 0 <= i < |parsed| ==> PlainTag(parsed[i])
    ensures forall x :: x in StandardsApi.WithTags([], parsed) <==> x in parsed
    ensures (forall i, j :: 0 <= i < j < |parsed| ==> parsed[i] != parsed[j]) ==>
      StandardsApi.WithTags([], parsed) == parsed
  {
    StandardsApi.WithTagsMembers([], parsed);
    forall x | x in parsed ensures !Blank(x) {
      var i :| 0 <= i < |parsed| && parsed[i] == x;
      assert PlainTag(parsed[i]);
    }
    if forall i, j :: 0 <= i < j < |parsed| ==> parsed[i] != parsed[j] {
      assert TagsWellFormed(parsed);
      StandardsApi.WithTagsDistinct(parsed);
    }
  }

  const CreatedMessage := "Standard created successfully!"
  const InvalidModelMessage := "Please fill in all required fields correctly."
  const InvalidDataMessage := "Invalid data provided. Please check your input and try again."
  const CreateFailedMessage := "Failed to create standard. Please try again."
  const CreateErrorMessage := "An error occurred while creating the standard."

  /** The error `OnPost` shows for a reply to its POST that is not a success. */
  function PostError(e: Exchange): string {
    if e.Thrown? then CreateErrorMessage
    else if e.statusCode == 400 then InvalidDataMessage
    else CreateFailedMessage
  }

  /** `CreateModel`: the page state of one request. */
  class CreatePageModel {
    var input: CreateInput
    var successMessage: Option<string>
    var errorMessage: Option<string>

    constructor()
      ensures input == EmptyInput && successMessage == None && errorMessage == None
    {
      input := EmptyInput;
      successMessage := None;
      errorMessage := None;
    }

    /** `OnGet()`: an empty form. */
    method OnGet()
      modifies this`input
      ensures input == EmptyInput
    {
      input := EmptyInput;
    }

    /** `OnPostAsync()`. `modelValid` is `ModelState.IsValid` for the posted form. An invalid
        form shows an error without a request; otherwise the reply to the POST decides. */
    method OnPost(modelValid: bool, client: ApiClient) returns (r: PageResult)
      modifies this`errorMessage, client
      ensures !modelValid ==> r == ShowPage && errorMessage == Some(InvalidModelMessage)
      ensures !modelValid ==> client.sent == old(client.sent)
      ensures modelValid ==>
        var post := PostRequest(PayloadFor(input));
        var e := client.server(old(client.sent), post);
        && client.sent == old(client.sent) + [post]
        && r == (if IsSuccess(e) then RedirectToPage("Index", CreatedMessage) else ShowPage)
        && errorMessage == (if IsSuccess(e) then old(errorMessage) else Some(PostError(e)))
    {
      if !modelValid {
        errorMessage := Some(InvalidModelMessage);
        return ShowPage;
      }
      var e := client.Send(PostRequest(PayloadFor(input)));
      if IsSuccess(e) {
        r := RedirectToPage("Index", CreatedMessage);
      } else {
        errorMessage := Some(PostError(e));
        r := ShowPage;
      }
    }
  }
}
