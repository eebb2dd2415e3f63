/**
 * The library's exception, `PoproxAwsUtilitiesException`, the SDK's `ClientError` it
 * wraps, and the outcome of an operation that may raise.
 */
module Exceptions {
  import opened Common
  import opened Json

  /**
   * What the SDK's `ClientError` carries: the error code and message of the response's
   * `Error` member, the `HTTPStatusCode` and `RequestId` of its `ResponseMetadata`, and
   * `str(error)` as the SDK renders it (the rendering itself belongs to the SDK).
   */
  datatype ClientError = ClientError(
    code: string,
    message: string,
    httpStatus: int,
    requestId: string,
    rendered: string)

  /** The `errors` argument of the exception's constructor: a `ClientError`, or any other
      value, `None` (JSON null) by default. */
  datatype ErrorsArgument = FromClientError(error: ClientError) | Plain(value: Value)

  /** A constructed `PoproxAwsUtilitiesException`: its `message` and `errors` attributes. */
  datatype AwsUtilitiesException = AwsUtilitiesException(message: string, errors: Value)

  /** The exception classes the library declares, with Python's `Exception` at the root. */
  datatype ExceptionClass = PythonException | PoproxUtilitiesException | PoproxAwsUtilitiesException

  /** The class each class derives from directly. */
  function Base(c: ExceptionClass): Option<ExceptionClass> {
    match c
    case PythonException => None
    case PoproxUtilitiesException => Some(PythonException)
    case PoproxAwsUtilitiesException => Some(PoproxUtilitiesException)
  }

  function Depth(c: ExceptionClass): nat {
    match c
    case PythonException => 0
    case PoproxUtilitiesException => 1
    case PoproxAwsUtilitiesException => 2
  }

  /** `issubclass(c, d)`: `d` is `c` or one of its ancestors. */
  predicate IsSubclass(c: ExceptionClass, d: ExceptionClass)
    decreases Depth(c)
  {
    c == d || (Base(c).Some? && IsSubclass(Base(c).value, d))
  }

  /** A handler for `PoproxUtilitiesException` catches the AWS exception, and not the reverse. */
  lemma AwsIsUtilities()
    ensures IsSubclass(PoproxAwsUtilitiesException, PoproxUtilitiesException)
    ensures IsSubclass(PoproxAwsUtilitiesException, PythonException)
    ensures !IsSubclass(PoproxUtilitiesException, PoproxAwsUtilitiesException)
  {
  }

  /** The `errors` attribute the constructor stores: a `ClientError` becomes the record of its
      HTTP status code (under `"code"`), its message and its request id; anything else is kept
      as it was passed. */
  function ErrorsPayload(errors: ErrorsArgument): (r: Value)
    ensures errors.Plain? ==> r == errors.value
    ensures errors.FromClientError? ==>
              r.Object? && |r.fields| == 3 && DistinctKeys(r.fields)
              && Lookup(r.fields, "code") == Some(Int(errors.error.httpStatus))
              && Lookup(r.fields, "message") == Some(Str(errors.error.message))
              && Lookup(r.fields, "requestId") == Some(Str(errors.error.requestId))
  {
    match errors
    case Plain(v) => v
    case FromClientError(e) =>
      var fields := [("code", Int(e.httpStatus)), ("message", Str(e.message)), ("requestId", Str(e.requestId))];
      assert fields[1..][1..] == [("requestId", Str(e.requestId))];
      assert "requestId"[0] != "code"[0] && "requestId"[0] != "message"[0];
      assert Lookup(fields[1..][1..], "requestId") == Some(Str(e.requestId));
      assert Lookup(fields[1..], "requestId") == Some(Str(e.requestId));
      Object(fields)
  }

  /** `PoproxAwsUtilitiesException(message, errors)`. */
  function NewException(message: string, errors: ErrorsArgument := Plain(Null)): (e: AwsUtilitiesException)
    ensures e.message == message && e.errors == ErrorsPayload(errors)
  {
    AwsUtilitiesException(message, ErrorsPayload(errors))
  }

  /** `str(e)`. */
  function Show(e: AwsUtilitiesException): string {
    e.message
  }

  /** `str()` gives back exactly the message the exception was built with, whatever `errors` was. */
  lemma ShowNewException(message: string, errors: ErrorsArgument)
    ensures Show(NewException(message, errors)) == message
    ensures errors.FromClientError? ==> NewException(message, errors).errors.Object?
  {
  }

  /** An exception as it leaves an operation. `cause` is what `raise ... from e` records. */
  datatype Raised =
    | Aws(exception: AwsUtilitiesException, cause: Option<ClientError>)
    | Client(error: ClientError)
    | KeyError(key: string)
    | Base64Error
    | UnicodeDecodeError
    | JsonDecodeError

  /** The outcome of an operation: a returned value or a raised exception. */
  datatype Result<+T> = Ok(value: T) | Raise(raised: Raised)

  /** A `ClientError` wrapped into the library's exception: `message` is the prefix followed by
      `str(e)`, `errors` is left at `None`, and the error is chained as the cause. */
  function Wrap(prefix: string, e: ClientError): (r: Raised)
    ensures r.Aws? && r.cause == Some(e) && r.exception.errors == Null
    ensures Show(r.exception) == prefix + e.rendered
  {
    Aws(NewException(prefix + e.rendered), Some(e))
  }
}
