/**
  ServiceResponse and ServiceResponse<T>: the result records the services return, and their factories.
  A null field is None; for ServiceResponse<T>, a None `data` is `default(T)`.
 */
module ServiceResponses {
  import opened Wrappers

  datatype Response = Response(success: bool, message: Option<string>, errorCode: Option<string>, errors: Option<seq<string>>)

  datatype DataResponse<T> = DataResponse(
    success: bool, message: Option<string>, errorCode: Option<string>, errors: Option<seq<string>>, data: Option<T>)

  /** ServiceResponse.Ok(message): a success with that message and no error information. */
  function Ok(message: Option<string>): (r: Response)
    ensures r.success && r.message == message && r.errorCode.None? && r.errors.None?
  {
    Response(true, message, None, None)
  }

  /** ServiceResponse.Fail(message, errorCode, errors): a failure; `errors` is copied to an array in the same order. */
  function Fail(message: string, errorCode: Option<string>, errors: Option<seq<string>>): (r: Response)
    ensures !r.success && r.message == Some(message) && r.errorCode == errorCode && r.errors == errors
  {
    Response(false, Some(message), errorCode, errors)
  }

  /** ServiceResponse<T>.Ok(data, message): a success carrying `data`. */
  function OkWith<T>(data: T, message: Option<string>): (r: DataResponse<T>)
    ensures r.success && r.data == Some(data) && r.message == message && r.errorCode.None? && r.errors.None?
  {
    DataResponse(true, message, None, None, Some(data))
  }

  /** ServiceResponse<T>.Fail(message, errorCode, errors): a failure whose data is left at its default. */
  function FailWith<T>(message: string, errorCode: Option<string>, errors: Option<seq<string>>): (r: DataResponse<T>)
    ensures !r.success && r.data.None? && r.message == Some(message) && r.errorCode == errorCode && r.errors == errors
  {
    DataResponse(false, Some(message), errorCode, errors, None)
  }

  /** Fail with no error code and no error list, as every service in the core calls it. */
  function FailMessage<T>(message: string): (r: DataResponse<T>)
    ensures !r.success && r.data.None? && r.message == Some(message)
  {
    FailWith(message, None, None)
  }

  /** The non-generic Fail is the generic one without data: the two agree field by field. */
  lemma FailsAgree<T>(message: string, errorCode: Option<string>, errors: Option<seq<string>>)
    ensures var a := Fail(message, errorCode, errors); var b: DataResponse<T> := FailWith(message, errorCode, errors);
      a.success == b.success && a.message == b.message && a.errorCode == b.errorCode && a.errors == b.errors
  {
  }
}
