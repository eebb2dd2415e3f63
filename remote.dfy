/**
 * The AWS services as the library sees them through the SDK: a call either answers with a
 * response or raises a `ClientError`. The network, the SDK's session and its parameter
 * handling are not part of this model.
 */
module Remote {
  import opened Json
  import opened Exceptions

  /** A response dictionary, from its top-level keys to their values. */
  type Response = map<string, Value>

  /** What one call to the service gives back. */
  datatype Reply<+T> = Answer(body: T) | Failed(error: ClientError)

  /** `response.get(key)`: the value under `key`, or `None` when the key is absent. */
  function Get(response: Response, key: string): (r: Value)
    ensures key in response ==> r == response[key]
    ensures key !in response ==> r == Null
  {
    if key in response then response[key] else Null
  }
}
