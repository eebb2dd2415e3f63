/**
 * The storage service wrapper (`S3` in `poprox_utils/aws/s3.py`): the bucket listing, the
 * object fetch, and the drain of the paginated object listing.
 */
module S3 {
  import opened Common
  import opened Json
  import opened Exceptions
  import opened Remote

  /** The one-shot calls the wrapper makes; `extra` holds the keyword arguments `get_object`
      passes through. */
  datatype S3Request =
    | ListBuckets
    | GetObject(bucket: string, key: string, extra: map<string, Value>)

  /** `list_buckets`: the response's `Buckets`, or `None` when the key is absent. */
  function ListBucketsCall(client: S3Request -> Reply<Response>): (r: Result<Value>)
    ensures client(ListBuckets).Answer? && "Buckets" in client(ListBuckets).body ==>
              r == Ok(client(ListBuckets).body["Buckets"])
    ensures client(ListBuckets).Answer? && "Buckets" !in client(ListBuckets).body ==> r == Ok(Null)
    ensures client(ListBuckets).Failed? ==> r == Raise(Wrap("Error listing buckets: ", client(ListBuckets).error))
  {
    match client(ListBuckets)
    case Failed(e) => Raise(Wrap("Error listing buckets: ", e))
    case Answer(response) => Ok(Get(response, "Buckets"))
  }

  /** The prefix of the message `get_object` raises: it names the key and the bucket. */
  function GetObjectPrefix(bucket: string, key: string): string {
    "Error getting object " + key + " from " + bucket + ": "
  }

  /** `get_object`: the response as it is, or the wrapped error naming key and bucket. */
  function GetObjectCall(client: S3Request -> Reply<Response>, bucket: string, key: string,
                         extra: map<string, Value>): (r: Result<Response>)
    ensures var reply := client(GetObject(bucket, key, extra));
            (reply.Answer? ==> r == Ok(reply.body))
            && (reply.Failed? ==> r == Raise(Wrap(GetObjectPrefix(bucket, key), reply.error)))
  {
    match client(GetObject(bucket, key, extra))
    case Failed(e) => Raise(Wrap(GetObjectPrefix(bucket, key), e))
    case Answer(response) => Ok(response)
  }

  /** The message of a failed fetch holds the key and the bucket, in that order, before the
      SDK's own rendering of the error. */
  lemma GetObjectMessage(bucket: string, key: string, e: ClientError)
    ensures var m := Show(Wrap(GetObjectPrefix(bucket, key), e).exception);
            var start := |"Error getting object "|;
            var from := start + |key| + |" from "|;
            m[start..start + |key|] == key
            && m[from..from + |bucket|] == bucket
            && m[|m| - |e.rendered|..] == e.rendered
  {
    var m := Show(Wrap(GetObjectPrefix(bucket, key), e).exception);
    assert m == "Error getting object " + key + " from " + bucket + ": " + e.rendered;
  }

  // ----- Object listing -----

  /** One response of `list_objects_v2`: its `Contents`, if the key is present, and its
      `NextContinuationToken`, `None` when absent. */
  datatype ObjectsPage = ObjectsPage(contents: Option<seq<Value>>, nextToken: Option<string>)

  /** The arguments of one `list_objects_v2` call. */
  datatype ObjectsRequest = ObjectsRequest(bucket: string, continuationToken: Option<string>)

  /** `response.get("Contents", [])`. */
  function ContentsOf(page: ObjectsPage): (r: seq<Value>)
    ensures page.contents.None? ==> r == []
    ensures page.contents.Some? ==> r == page.contents.value
  {
    if page.contents.None? then [] else page.contents.value
  }

  /** The drain stops at a reply that failed or that has no continuation token. */
  predicate ObjectsLast(reply: Reply<ObjectsPage>) {
    reply.Failed? || reply.body.nextToken.None?
  }

  /** The service's replies, in call order, reach a last one. */
  predicate ObjectsEnd(pages: seq<Reply<ObjectsPage>>) {
    exists k :: 0 <= k < |pages| && ObjectsLast(pages[k])
  }

  /** The position of the last reply the drain reads. */
  function ObjectsStop(pages: seq<Reply<ObjectsPage>>): (k: nat)
    requires ObjectsEnd(pages)
    ensures k < |pages| && ObjectsLast(pages[k])
    ensures forall j :: 0 <= j < k ==> !ObjectsLast(pages[j])
    decreases |pages|
  {
    if ObjectsLast(pages[0]) then 0
    else
      assert ObjectsEnd(pages[1..]) by {
        var k :| 0 <= k < |pages| && ObjectsLast(pages[k]);
        assert pages[1..][k - 1] == pages[k];
      }
      var k := ObjectsStop(pages[1..]);
      assert forall j :: 1 <= j < k + 1 ==> pages[j] == pages[1..][j - 1];
      k + 1
  }

  /** The objects of the first `n` replies, in call order. */
  function ObjectsSoFar(pages: seq<Reply<ObjectsPage>>, n: nat): seq<Value>
    requires n <= |pages|
    requires forall j :: 0 <= j < n ==> pages[j].Answer?
  {
    if n == 0 then [] else ObjectsSoFar(pages, n - 1) + ContentsOf(pages[n - 1].body)
  }

  /** `list_objects`, against a service whose successive replies are `pages`. `calls` is the
      log of the calls made: the first carries no token and each later one carries the token
      of the reply before it; the drain stops at the first reply without a token, having made
      one call per reply up to it, and returns every reply's objects in call order. A failed
      call raises the library's exception naming the bucket; what was gathered is dropped. */
  method ListObjects(bucket: string, pages: seq<Reply<ObjectsPage>>)
    returns (r: Result<seq<Value>>, calls: seq<ObjectsRequest>)
    requires ObjectsEnd(pages)
    ensures var k := ObjectsStop(pages);
            |calls| == k + 1
            && calls[0] == ObjectsRequest(bucket, None)
            && (forall i :: 0 < i <= k ==> calls[i] == ObjectsRequest(bucket, pages[i - 1].body.nextToken))
            && (pages[k].Failed? ==> r == Raise(Wrap("Error listing objects in " + bucket + ": ", pages[k].error)))
            && (pages[k].Answer? ==> r == Ok(ObjectsSoFar(pages, k + 1)))
  {
    ghost var k := ObjectsStop(pages);
    var objects: seq<Value> := [];
    var nextToken: Option<string> := None;
    calls := [];
    var i := 0;
    while true
      invariant 0 <= i <= k && |calls| == i
      invariant i == 0 ==> nextToken.None?
      invariant i > 0 ==> nextToken == pages[i - 1].body.nextToken
      invariant forall j :: 0 <= j < i ==> pages[j].Answer?
      invariant objects == ObjectsSoFar(pages, i)
      invariant forall j :: 0 <= j < i ==> calls[j] == ObjectsRequest(bucket, if j == 0 then None else pages[j - 1].body.nextToken)
      decreases k - i
    {
      var reply: Reply<ObjectsPage>;
      if nextToken.Some? {
        calls := calls + [ObjectsRequest(bucket, nextToken)];
      } else {
        calls := calls + [ObjectsRequest(bucket, None)];
      }
      reply := pages[i];
      if reply.Failed? {
        return Raise(Wrap("Error listing objects in " + bucket + ": ", reply.error)), calls;
      }
      objects := objects + ContentsOf(reply.body);
      nextToken := reply.body.nextToken;
      i := i + 1;
      if nextToken.None? {
        return Ok(objects), calls;
      }
    }
  }
}
