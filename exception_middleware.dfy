/** `ExceptionHandlingMiddleware`: turns an exception that escapes the rest of the pipeline into
    a JSON error response whose status depends on the exception's type. */
module ExceptionMiddleware {
  import opened Wrappers
  import opened Errors
  import opened ApiModels

  /** The content type `WriteAsJsonAsync` leaves on the response: it replaces the
      `application/json` the handler sets first. */
  const JsonContentType := "application/json; charset=utf-8"

  /** The status code and message the middleware reports for an exception of type `t`. The
      first matching case wins, and each case also catches the subclasses of its type. */
  function Classify(t: ExceptionType): (r: (int, string))
    ensures r.0 in {400, 404, 500}
    ensures r == (400, "Invalid argument") <==> IsA(t, ArgumentException)
    ensures r == (404, "Resource not found") <==> IsA(t, KeyNotFoundException)
    ensures r == (400, "Invalid operation") <==> IsA(t, InvalidOperationException)
    ensures r.0 < 500 <==>
      IsA(t, ArgumentException) || IsA(t, KeyNotFoundException) || IsA(t, InvalidOperationException)
  {
    FamiliesDisjoint(t);
    if IsA(t, ArgumentException) then (400, "Invalid argument")
    else if IsA(t, KeyNotFoundException) then (404, "Resource not found")
    else if IsA(t, InvalidOperationException) then (400, "Invalid operation")
    else (500, "An unexpected error occurred")
  }

  /** The response being written for the current request. */
  class HttpResponse {
    var statusCode: int
    var contentType: string
    var body: Option<ApiErrorResponse>

    constructor ()
      ensures statusCode == 200 && contentType == "" && body == None
    {
      statusCode := 200;
      contentType := "";
      body := None;
    }
  }

  /** `HandleExceptionAsync`: sets the content type and the status, and writes a body whose
      status code matches and whose details are the exception's message. */
  method HandleException(response: HttpResponse, ex: Error)
    modifies response
    ensures response.contentType == JsonContentType
    ensures response.statusCode == Classify(ex.kind).0
    ensures response.body == Some(ApiErrorResponse(response.statusCode, Classify(ex.kind).1, Some(ex.message)))
  {
    response.contentType := JsonContentType;
    var (status, message) := Classify(ex.kind);
    response.statusCode := status;
    response.body := Some(ApiErrorResponse(status, message, Some(ex.message)));
  }

  /** `InvokeAsync`: runs the rest of the pipeline (whose outcome is `next`) and handles the
      exception it throws, if any; a request that completes is left as the pipeline wrote it. */
  method Invoke(response: HttpResponse, next: Outcome<Error>)
    modifies response
    ensures next.Pass? ==> unchanged(response)
    ensures next.Fail? ==>
      && response.contentType == JsonContentType
      && response.statusCode == Classify(next.error.kind).0
      && response.body == Some(ApiErrorResponse(response.statusCode, Classify(next.error.kind).1, Some(next.error.message)))
  {
    if next.Fail? {
      HandleException(response, next.error);
    }
  }

  /** The subclasses go with their base class: `ArgumentNullException` and
      `ArgumentOutOfRangeException` are invalid arguments, `ObjectDisposedException` an invalid
      operation, while a vector-store `ChromaException` is unexpected. */
  lemma SubclassesFollowTheirBase()
    ensures Classify(ArgumentNullException) == (400, "Invalid argument")
    ensures Classify(ArgumentOutOfRangeException) == (400, "Invalid argument")
    ensures Classify(ObjectDisposedException) == (400, "Invalid operation")
    ensures Classify(ChromaException) == (500, "An unexpected error occurred")
    ensures Classify(SystemException) == (500, "An unexpected error occurred")
  {
  }

  /** A type is caught by at most one of the three specific cases, so their order does not
      matter. */
  lemma FamiliesDisjoint(t: ExceptionType)
    ensures !(IsA(t, ArgumentException) && IsA(t, KeyNotFoundException))
    ensures !(IsA(t, ArgumentException) && IsA(t, InvalidOperationException))
    ensures !(IsA(t, KeyNotFoundException) && IsA(t, InvalidOperationException))
  {
  }
}
