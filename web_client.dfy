/** What the admin pages see of the API: the standard they display, the requests they send to
    it over `HttpClient`, and the replies they get. The API server is a function of the requests
    it has already been sent and the new request, so a GET after a PUT can see the update. */
module WebClient {
  import opened Wrappers
  import opened Guids
  import opened Numerics

  /** `StandardViewModel`: a standard as the API's JSON shows it, status and priority as the
      enum names the API prints. `tags` is `None` when the JSON holds `"tags": null`. */
  datatype StandardView = StandardView(
    id: Guid,
    title: string,
    description: string,
    category: string,
    status: string,
    priority: string,
    tags: Option<seq<string>>,
    createdAt: int,
    updatedAt: int)

  /** `new StandardViewModel()`. */
  const EmptyView := StandardView(Empty, "", "", "", "", "", Some([]), 0, 0)

  /** The body of a reply as `JsonSerializer.Deserialize` reads it: a standard, the JSON
      literal `null`, or text it cannot read (it then throws). */
  datatype Json = View(view: StandardView) | Null | Unreadable

  /** The JSON body a handler sends. */
  datatype Payload =
    | UpdatePayload(status: int32, priority: int32, tags: seq<string>)
    | CreatePayload(title: string, description: string, category: string, priority: int32, tags: seq<string>)

  datatype Verb = Get | Put | Post

  datatype HttpRequest = HttpRequest(verb: Verb, url: string, payload: Option<Payload>)

  /** What one call on `HttpClient` ends with: a reply, or an exception it throws. */
  datatype Exchange = Reply(statusCode: int, body: Json) | Thrown

  /** `HttpResponseMessage.IsSuccessStatusCode`. */
  predicate IsSuccess(e: Exchange) {
    e.Reply? && 200 <= e.statusCode <= 299
  }

  const ApiBaseUrl := "http://localhost:5000/api"

  /** The URL of one standard: `$"{ApiBaseUrl}/standards/{id}"`. */
  function StandardUrl(id: Guid): string {
    ApiBaseUrl + "/standards/" + Guids.ToString(id)
  }

  /** Different standards have different URLs. */
  lemma StandardUrlInjective(a: Guid, b: Guid)
    requires StandardUrl(a) == StandardUrl(b)
    ensures a == b
  {
    var n := |ApiBaseUrl + "/standards/"|;
    assert Guids.ToString(a) == StandardUrl(a)[n..];
    assert Guids.ToString(b) == StandardUrl(b)[n..];
    Guids.ToStringInjective(a, b);
  }

  /** `GET {ApiBaseUrl}/standards/{id}`. */
  function GetStandardRequest(id: Guid): HttpRequest {
    HttpRequest(Get, StandardUrl(id), None)
  }

  /** The `IActionResult` a page handler returns. */
  datatype PageResult = ShowPage | NotFoundPage | StatusCodePage(code: int) | RedirectToPage(page: string, message: string)

  /** The `HttpClient` the pages create, with the log of the requests sent through it. */
  class ApiClient {
    var sent: seq<HttpRequest>
    /** The reply to a request, given the requests sent before it. */
    const server: (seq<HttpRequest>, HttpRequest) -> Exchange

    constructor(server: (seq<HttpRequest>, HttpRequest) -> Exchange)
      ensures this.server == server && sent == []
    {
      this.server := server;
      sent := [];
    }

    /** Sends one request and returns the server's answer to it, given what was sent before. */
    method Send(request: HttpRequest) returns (e: Exchange)
      modifies this
      ensures sent == old(sent) + [request]
      ensures e == server(old(sent), request)
    {
      e := server(sent, request);
      sent := sent + [request];
    }
  }
}
