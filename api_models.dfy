/** The API's response shapes: the error body every failure carries and the kinds of action
    result the controllers return. */
module ApiModels {
  import opened Wrappers

  /** `ApiErrorResponse`, without its trace id and timestamp. */
  datatype ApiErrorResponse = ApiErrorResponse(statusCode: int, message: string, details: Option<string>)

  /** The `IActionResult` a controller action returns. */
  datatype ActionResult<T> =
    | Ok(body: T)
    | Created(body: T)
    | NoContent
    | BadRequest(error: ApiErrorResponse)
    | NotFound(error: ApiErrorResponse)
    | ServerError(error: ApiErrorResponse)
  {
    /** The HTTP status code of the result. */
    function Status(): int {
      match this
      case Ok(_) => 200
      case Created(_) => 201
      case NoContent => 204
      case BadRequest(_) => 400
      case NotFound(_) => 404
      case ServerError(_) => 500
    }
  }
}
