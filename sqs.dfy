/**
 * The queue service wrapper (`SQS` in `poprox_utils/aws/sqs.py`): the batch entries it
 * builds, the coercion of a message body, and the checks it makes on each response.
 */
module Sqs {
  import opened Common
  import opened Json
  import JsonRoundTrip
  import opened Decimal
  import opened Exceptions
  import opened Remote

  /** One entry of a batch: its `Id` and its `MessageBody`. */
  datatype Entry = Entry(id: string, messageBody: Value)

  /** The calls the wrapper makes on the service, with the arguments it passes. */
  datatype SqsRequest =
    | ReceiveMessage(queueUrl: string, maxNumberOfMessages: int)
    | SendMessage(queueUrl: string, messageBody: Value)
    | SendMessageBatch(queueUrl: string, entries: seq<Entry>)

  const ReceivePrefix: string := "Error receiving message from SQS: "
  const SendPrefix: string := "Error sending message to SQS: "
  const BatchPrefix: string := "Error sending message batch to SQS: "
  const NoMessageId: string := "Could not send message to SQS: "
  const NoSuccessful: string := "Could not send message batch to SQS: "

  /** The batch entries: one per body, in order, each identified by its position written in
      decimal. However many bodies there are, all of them are passed on. */
  function Entries(bodies: seq<Value>): (r: seq<Entry>)
    ensures |r| == |bodies|
    ensures forall i :: 0 <= i < |bodies| ==> r[i].id == NatToString(i) && r[i].messageBody == bodies[i]
  {
    seq(|bodies|, i requires 0 <= i < |bodies| => Entry(NatToString(i), bodies[i]))
  }

  /** The ids of a batch are pairwise distinct, and each reads back as its entry's position. */
  lemma EntryIds(bodies: seq<Value>)
    ensures var r := Entries(bodies);
            (forall i :: 0 <= i < |r| ==> AllDigits(r[i].id) && DigitsValue(r[i].id) == i)
            && (forall i, j :: 0 <= i < j < |r| ==> r[i].id != r[j].id)
  {
    var r := Entries(bodies);
    forall i | 0 <= i < |r|
      ensures AllDigits(r[i].id) && DigitsValue(r[i].id) == i
    {
      DigitsValueOfNatToString(i);
    }
    forall i, j | 0 <= i < j < |r|
      ensures r[i].id != r[j].id
    {
      NatToStringInjective(i, j);
    }
  }

  /** `message_body` as `send_message` passes it on: a dictionary is serialised to JSON text;
      anything else, a string in particular, goes as it is. */
  function MessageBody(body: Value): (r: Value)
    ensures !body.Object? ==> r == body
    ensures body.Object? ==> r.Str?
  {
    if body.Object? then Str(Dumps(body)) else body
  }

  /** The text a dictionary body is sent as parses back to that dictionary. */
  lemma MessageBodyRoundTrip(body: Value)
    requires body.Object? && WellFormed(body)
    ensures Loads(MessageBody(body).s) == Some(body)
  {
    JsonRoundTrip.LoadsDumps(body);
  }

  /** `receive_message`: the response's `Messages`, or an empty list when the key is absent;
      a `ClientError` is wrapped with the receive prefix. */
  function ReceiveMessageCall(client: SqsRequest -> Reply<Response>, queueUrl: string,
                              maxNumberOfMessages: int := 1): (r: Result<Value>)
    ensures var reply := client(ReceiveMessage(queueUrl, maxNumberOfMessages));
            (reply.Answer? && "Messages" in reply.body ==> r == Ok(reply.body["Messages"]))
            && (reply.Answer? && "Messages" !in reply.body ==> r == Ok(Array([])))
            && (reply.Failed? ==> r == Raise(Wrap(ReceivePrefix, reply.error)))
  {
    match client(ReceiveMessage(queueUrl, maxNumberOfMessages))
    case Failed(e) => Raise(Wrap(ReceivePrefix, e))
    case Answer(response) => if "Messages" in response then Ok(response["Messages"]) else Ok(Array([]))
  }

  /** `send_message`. `show` renders a response as the f-string does. */
  function SendMessageCall(client: SqsRequest -> Reply<Response>, show: Response -> string, queueUrl: string,
                           messageBody: Value): (r: Result<Response>)
    ensures var reply := client(SendMessage(queueUrl, MessageBody(messageBody)));
            (r.Ok? <==> reply.Answer? && "MessageId" in reply.body)
            && (r.Ok? ==> r.value == reply.body)
            && (reply.Answer? && "MessageId" !in reply.body ==>
                  r == Raise(Aws(NewException(NoMessageId + show(reply.body)), None)))
            && (reply.Failed? ==> r == Raise(Wrap(SendPrefix, reply.error)))
  {
    match client(SendMessage(queueUrl, MessageBody(messageBody)))
    case Failed(e) => Raise(Wrap(SendPrefix, e))
    case Answer(response) =>
      if "MessageId" in response then Ok(response)
      else Raise(Aws(NewException(NoMessageId + show(response)), None))
  }

  /** `send_message_batch`: the response is returned unchanged whenever it holds `Successful`,
      whatever `Failed` reports. */
  function SendMessageBatchCall(client: SqsRequest -> Reply<Response>, show: Response -> string, queueUrl: string,
                                messageBodies: seq<Value>): (r: Result<Response>)
    ensures var reply := client(SendMessageBatch(queueUrl, Entries(messageBodies)));
            (r.Ok? <==> reply.Answer? && "Successful" in reply.body)
            && (r.Ok? ==> r.value == reply.body)
            && (reply.Answer? && "Successful" !in reply.body ==>
                  r == Raise(Aws(NewException(NoSuccessful + show(reply.body)), None)))
            && (reply.Failed? ==> r == Raise(Wrap(BatchPrefix, reply.error)))
  {
    match client(SendMessageBatch(queueUrl, Entries(messageBodies)))
    case Failed(e) => Raise(Wrap(BatchPrefix, e))
    case Answer(response) =>
      if "Successful" in response then Ok(response)
      else Raise(Aws(NewException(NoSuccessful + show(response)), None))
  }

  /** A response without `MessageId` raises the library's exception directly: it is not a
      `ClientError`, so the handler does not re-wrap it, it has no cause, and its message is
      not the one a failed call gets. */
  lemma MissingMessageIdNotWrapped(client: SqsRequest -> Reply<Response>, show: Response -> string,
                                   queueUrl: string, messageBody: Value)
    requires var reply := client(SendMessage(queueUrl, MessageBody(messageBody)));
             reply.Answer? && "MessageId" !in reply.body
    ensures var r := SendMessageCall(client, show, queueUrl, messageBody);
            r.Raise? && r.raised.Aws? && r.raised.cause.None?
            && Show(r.raised.exception)[..|NoMessageId|] == NoMessageId
            && Show(r.raised.exception)[..|SendPrefix|] != SendPrefix
  {
    var r := SendMessageCall(client, show, queueUrl, messageBody);
    assert NoMessageId[0] == 'C' && SendPrefix[0] == 'E';
  }
}
