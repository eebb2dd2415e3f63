/**
 * The e-mail service wrapper (`Email` in `poprox_utils/aws/ses.py`): recipient
 * normalisation, the requests the sending and template operations make, the translation of
 * the service's error codes into the library's exception, and the drain of the paginated
 * template listing.
 */
module Ses {
  import opened Common
  import opened Json
  import JsonRoundTrip
  import opened Exceptions
  import opened Remote
  import Tracking

  // ----- Recipients -----

  /** `email_to`: a single address or a list of them. */
  datatype Recipients = One(address: string) | Many(addresses: seq<string>)

  /** A lone address becomes a one-element list; a list is kept as it is. */
  function Normalise(to: Recipients): (r: seq<string>)
    ensures to.One? ==> r == [to.address]
    ensures to.Many? ==> r == to.addresses
  {
    match to
    case One(a) => [a]
    case Many(s) => s
  }

  /** A list of addresses as the request carries it. */
  function AddressList(addresses: seq<string>): (r: Value)
    ensures r.Array? && |r.items| == |addresses|
    ensures forall i :: 0 <= i < |addresses| ==> r.items[i] == Str(addresses[i])
  {
    Array(seq(|addresses|, i requires 0 <= i < |addresses| => Str(addresses[i])))
  }

  // ----- Requests -----

  /** The calls the wrapper makes on the service, with the arguments it passes. The body
      of a plain message is the (possibly tracked) document; `templateData` is the JSON text
      of the caller's dictionary. */
  datatype SesRequest =
    | SendEmail(source: string, toAddresses: Value, subject: string, charset: string, html: Tracking.Document)
    | SendTemplatedEmail(source: string, toAddresses: Value, template: string, templateData: string)
    | CreateTemplate(templateName: string, htmlPart: string, subjectPart: string)
    | UpdateTemplate(templateName: string, htmlPart: string, subjectPart: string)

  /** The message raised when tracking is asked for without a base address. */
  const TrackingBaseMissing: string := "base_tracking_url must be provided if track_links is True"

  /** The request `send_email_with_template` makes. The normalised recipient list is wrapped
      in one more list, so `ToAddresses` holds a single element: the list of recipients. */
  function TemplatedEmailRequest(templateName: string, emailFrom: string, emailTo: Recipients, templateData: Fields): (q: SesRequest)
    ensures q.SendTemplatedEmail? && q.source == emailFrom && q.template == templateName
    ensures q.toAddresses.Array? && |q.toAddresses.items| == 1
    ensures var inner := q.toAddresses.items[0];
            inner.Array? && |inner.items| == |Normalise(emailTo)|
            && forall i :: 0 <= i < |inner.items| ==> inner.items[i] == Str(Normalise(emailTo)[i])
    ensures emailTo.One? ==> q.toAddresses == Array([Array([Str(emailTo.address)])])
  {
    var to := AddressList(Normalise(emailTo));
    assert emailTo.One? ==> to.items == [Str(emailTo.address)];
    SendTemplatedEmail(emailFrom, Array([to]), templateName, Dumps(Object(templateData)))
  }

  /** The template data travels as JSON text that parses back to the caller's dictionary. */
  lemma TemplateDataRoundTrip(templateName: string, emailFrom: string, emailTo: Recipients, templateData: Fields)
    requires WellFormed(Object(templateData))
    ensures Loads(TemplatedEmailRequest(templateName, emailFrom, emailTo, templateData).templateData) == Some(Object(templateData))
  {
    JsonRoundTrip.LoadsDumps(Object(templateData));
  }

  // ----- Error codes -----

  /** The codes an operation translates, each with the message of the exception it raises, in
      the order the handler tests them. */
  type ErrorTable = seq<(string, string)>

  /** The handler of a `ClientError`: the first entry whose code matches raises the library's
      exception with that entry's message, keeping the error's details and chaining it; a code
      that is not listed re-raises the original error unchanged. */
  function MapError(table: ErrorTable, e: ClientError): Raised
    decreases |table|
  {
    if table == [] then Client(e)
    else if table[0].0 == e.code then Translated(table[0].1, e)
    else MapError(table[1..], e)
  }

  /** A translated error: the library's exception with `message`, carrying the details of
      `e` and chained to it. */
  function Translated(message: string, e: ClientError): Raised {
    Aws(NewException(message, FromClientError(e)), Some(e))
  }

  const MessageRejected: string := "MessageRejected"
  const MailFromDomainNotVerified: string := "MailFromDomainNotVerified"
  const ConfigurationSetDoesNotExist: string := "ConfigurationSetDoesNotExist"
  const TemplateNameAlreadyExists: string := "TemplateNameAlreadyExists"
  const InvalidTemplate: string := "InvalidTemplate"
  const TemplateDoesNotExist: string := "TemplateDoesNotExist"

  /** The handler reaches entry `i` exactly when its code is the first to match. */
  lemma {:induction false} MapErrorFirst(table: ErrorTable, e: ClientError, i: int)
    requires 0 <= i < |table| && table[i].0 == e.code
    requires forall j :: 0 <= j < i ==> table[j].0 != e.code
    ensures MapError(table, e) == Translated(table[i].1, e)
    decreases i
  {
    if i > 0 {
      var tail := table[1..];
      assert table[0].0 != e.code;
      assert tail[i - 1] == table[i];
      assert forall j :: 0 <= j < i - 1 ==> tail[j] == table[j + 1];
      MapErrorFirst(tail, e, i - 1);
    }
  }

  /** The handler re-raises the original error exactly when no entry lists its code. */
  lemma {:induction false} MapErrorUnlisted(table: ErrorTable, e: ClientError)
    ensures MapError(table, e) == Client(e) <==> forall j :: 0 <= j < |table| ==> table[j].0 != e.code
    decreases |table|
  {
    if table != [] && table[0].0 != e.code {
      var tail := table[1..];
      MapErrorUnlisted(tail, e);
      assert forall j :: 1 <= j < |table| ==> table[j] == tail[j - 1];
    }
  }

  /** `send_email_without_template`'s handler. */
  function SendEmailTable(e: ClientError): ErrorTable {
    [(MessageRejected, "Message was rejected: " + e.message),
     (MailFromDomainNotVerified, "Domain from which you are sending email is not verified"),
     (ConfigurationSetDoesNotExist, "Configuration set not found")]
  }

  function SendEmailError(e: ClientError): Raised {
    MapError(SendEmailTable(e), e)
  }

  /** The three codes `send_email_without_template` translates, and the re-raise of any other. */
  lemma SendEmailErrorCodes(e: ClientError)
    ensures e.code == MessageRejected ==> SendEmailError(e) == Translated("Message was rejected: " + e.message, e)
    ensures e.code == MailFromDomainNotVerified ==> SendEmailError(e) == Translated("Domain from which you are sending email is not verified", e)
    ensures e.code == ConfigurationSetDoesNotExist ==> SendEmailError(e) == Translated("Configuration set not found", e)
    ensures e.code !in {MessageRejected, MailFromDomainNotVerified, ConfigurationSetDoesNotExist} ==> SendEmailError(e) == Client(e)
  {
    var t := SendEmailTable(e);
    if e.code == MessageRejected {
      MapErrorFirst(t, e, 0);
    } else if e.code == MailFromDomainNotVerified {
      MapErrorFirst(t, e, 1);
    } else if e.code == ConfigurationSetDoesNotExist {
      MapErrorFirst(t, e, 2);
    } else {
      MapErrorUnlisted(t, e);
    }
  }

  /** `create_template`'s handler. */
  function CreateTemplateTable(templateName: string): ErrorTable {
    [(TemplateNameAlreadyExists, "Template " + templateName + " already exists"),
     (InvalidTemplate, "Template " + templateName + " is invalid")]
  }

  function CreateTemplateError(templateName: string, e: ClientError): Raised {
    MapError(CreateTemplateTable(templateName), e)
  }

  /** The two codes `create_template` translates, both naming the template, and the re-raise
      of any other. */
  lemma CreateTemplateErrorCodes(templateName: string, e: ClientError)
    ensures e.code == TemplateNameAlreadyExists ==> CreateTemplateError(templateName, e) == Translated("Template " + templateName + " already exists", e)
    ensures e.code == InvalidTemplate ==> CreateTemplateError(templateName, e) == Translated("Template " + templateName + " is invalid", e)
    ensures e.code !in {TemplateNameAlreadyExists, InvalidTemplate} ==> CreateTemplateError(templateName, e) == Client(e)
  {
    var t := CreateTemplateTable(templateName);
    if e.code == TemplateNameAlreadyExists {
      MapErrorFirst(t, e, 0);
    } else if e.code == InvalidTemplate {
      MapErrorFirst(t, e, 1);
    } else {
      MapErrorUnlisted(t, e);
    }
  }

  /** `update_template`'s handler. */
  function UpdateTemplateTable(templateName: string): ErrorTable {
    [(TemplateDoesNotExist, "Template " + templateName + " does not exist"),
     (InvalidTemplate, "Template " + templateName + " is invalid")]
  }

  function UpdateTemplateError(templateName: string, e: ClientError): Raised {
    MapError(UpdateTemplateTable(templateName), e)
  }

  /** The two codes `update_template` translates, and the re-raise of any other. */
  lemma UpdateTemplateErrorCodes(templateName: string, e: ClientError)
    ensures e.code == TemplateDoesNotExist ==> UpdateTemplateError(templateName, e) == Translated("Template " + templateName + " does not exist", e)
    ensures e.code == InvalidTemplate ==> UpdateTemplateError(templateName, e) == Translated("Template " + templateName + " is invalid", e)
    ensures e.code !in {TemplateDoesNotExist, InvalidTemplate} ==> UpdateTemplateError(templateName, e) == Client(e)
  {
    var t := UpdateTemplateTable(templateName);
    if e.code == TemplateDoesNotExist {
      MapErrorFirst(t, e, 0);
    } else if e.code == InvalidTemplate {
      MapErrorFirst(t, e, 1);
    } else {
      MapErrorUnlisted(t, e);
    }
  }

  /** `send_email_with_template`'s handler: a missing template is tested first, then the
      three codes of the plain send, whose last message differs from the plain send's. */
  function SendTemplatedTable(templateName: string, e: ClientError): ErrorTable {
    [(TemplateDoesNotExist, "Template " + templateName + " not found"),
     (MessageRejected, "Message was rejected: " + e.message),
     (MailFromDomainNotVerified, "Domain from which you are sending email is not verified"),
     (ConfigurationSetDoesNotExist, "Configuration set does not exist")]
  }

  function SendTemplatedError(templateName: string, e: ClientError): Raised {
    MapError(SendTemplatedTable(templateName, e), e)
  }

  /** The four codes `send_email_with_template` translates, and the re-raise of any other. */
  lemma SendTemplatedErrorCodes(templateName: string, e: ClientError)
    ensures e.code == TemplateDoesNotExist ==> SendTemplatedError(templateName, e) == Translated("Template " + templateName + " not found", e)
    ensures e.code == MessageRejected ==> SendTemplatedError(templateName, e) == Translated("Message was rejected: " + e.message, e)
    ensures e.code == MailFromDomainNotVerified ==> SendTemplatedError(templateName, e) == Translated("Domain from which you are sending email is not verified", e)
    ensures e.code == ConfigurationSetDoesNotExist ==> SendTemplatedError(templateName, e) == Translated("Configuration set does not exist", e)
    ensures e.code !in {TemplateDoesNotExist, MessageRejected, MailFromDomainNotVerified, ConfigurationSetDoesNotExist} ==> SendTemplatedError(templateName, e) == Client(e)
  {
    var t := SendTemplatedTable(templateName, e);
    if e.code == TemplateDoesNotExist {
      MapErrorFirst(t, e, 0);
    } else if e.code == MessageRejected {
      MapErrorFirst(t, e, 1);
    } else if e.code == MailFromDomainNotVerified {
      MapErrorFirst(t, e, 2);
    } else if e.code == ConfigurationSetDoesNotExist {
      MapErrorFirst(t, e, 3);
    } else {
      MapErrorUnlisted(t, e);
    }
  }

  // ----- Operations -----

  /** The outcome of a call: the response, or the error as the operation's handler turns it. */
  function Outcome(reply: Reply<Response>, handler: ClientError -> Raised): (r: Result<Response>)
    ensures reply.Answer? ==> r == Ok(reply.body)
    ensures reply.Failed? ==> r == Raise(handler(reply.error))
  {
    match reply
    case Answer(response) => Ok(response)
    case Failed(e) => Raise(handler(e))
  }

  /** `send_email_without_template`. `sent` is the request made, if any: asking for tracking
      without a base address raises before anything is sent; otherwise the (tracked) body is
      sent to the normalised recipient list. */
  method SendEmailWithoutTemplate(client: SesRequest -> Reply<Response>, emailFrom: string, emailTo: Recipients,
                                  subject: string, bodyHtml: Tracking.Document, trackLinks: bool := false,
                                  base: Option<string> := None, parameters: Option<Fields> := None)
    returns (r: Result<Response>, sent: Option<SesRequest>)
    ensures trackLinks && base.None? ==> sent.None? && r == Raise(Aws(NewException(TrackingBaseMissing), None))
    ensures !(trackLinks && base.None?) ==>
              sent.Some? && sent.value.SendEmail? && sent.value.source == emailFrom
              && sent.value.toAddresses == AddressList(Normalise(emailTo))
              && sent.value.subject == subject && sent.value.charset == "UTF-8"
              && sent.value.html == (if trackLinks then Tracking.TrackedDocument(bodyHtml, base.value, parameters) else bodyHtml)
              && r == Outcome(client(sent.value), SendEmailError)
  {
    var to := Normalise(emailTo);
    if base.None? && trackLinks {
      return Raise(Aws(NewException(TrackingBaseMissing), None)), None;
    }
    var body := bodyHtml;
    if trackLinks {
      var tracked := Tracking.ReplaceUrlToAddTracking(body, base, parameters);
      body := tracked.value;
    }
    var request := SendEmail(emailFrom, AddressList(to), subject, "UTF-8", body);
    sent := Some(request);
    match client(request)
    case Answer(response) => r := Ok(response);
    case Failed(e) => r := Raise(SendEmailError(e));
  }

  /** `send_email_with_template`. */
  function SendEmailWithTemplate(client: SesRequest -> Reply<Response>, templateName: string, emailFrom: string,
                                 emailTo: Recipients, templateData: Fields): (r: Result<Response>)
    ensures var q := TemplatedEmailRequest(templateName, emailFrom, emailTo, templateData);
            (client(q).Answer? ==> r == Ok(client(q).body))
            && (client(q).Failed? ==> r == Raise(SendTemplatedError(templateName, client(q).error)))
  {
    Outcome(client(TemplatedEmailRequest(templateName, emailFrom, emailTo, templateData)),
            e => SendTemplatedError(templateName, e))
  }

  /** `create_template`. */
  function CreateTemplateCall(client: SesRequest -> Reply<Response>, templateName: string, subjectPart: string,
                              bodyHtml: string): (r: Result<Response>)
    ensures var q := CreateTemplate(templateName, bodyHtml, subjectPart);
            (client(q).Answer? ==> r == Ok(client(q).body))
            && (client(q).Failed? ==> r == Raise(CreateTemplateError(templateName, client(q).error)))
  {
    Outcome(client(CreateTemplate(templateName, bodyHtml, subjectPart)), e => CreateTemplateError(templateName, e))
  }

  /** `update_template`. */
  function UpdateTemplateCall(client: SesRequest -> Reply<Response>, templateName: string, subjectPart: string,
                              bodyHtml: string): (r: Result<Response>)
    ensures var q := UpdateTemplate(templateName, bodyHtml, subjectPart);
            (client(q).Answer? ==> r == Ok(client(q).body))
            && (client(q).Failed? ==> r == Raise(UpdateTemplateError(templateName, client(q).error)))
  {
    Outcome(client(UpdateTemplate(templateName, bodyHtml, subjectPart)), e => UpdateTemplateError(templateName, e))
  }

  // ----- Template listing -----

  /** One response of `list_templates`: its `TemplatesMetadata` list, if the key is present,
      and its `NextToken`, if that key is present. */
  datatype TemplatesPage = TemplatesPage(metadata: Option<seq<Value>>, nextToken: Option<Value>)

  /** The arguments of one `list_templates` call. */
  datatype TemplatesRequest = TemplatesRequest(maxItems: Option<int>, nextToken: Option<Value>)

  /** `response["TemplatesMetadata"]` of one reply; a failed call propagates its error as is. */
  function TemplatesOf(reply: Reply<TemplatesPage>): (r: Result<seq<Value>>)
    ensures reply.Failed? ==> r == Raise(Client(reply.error))
    ensures reply.Answer? && reply.body.metadata.None? ==> r == Raise(KeyError("TemplatesMetadata"))
    ensures reply.Answer? && reply.body.metadata.Some? ==> r == Ok(reply.body.metadata.value)
  {
    match reply
    case Failed(e) => Raise(Client(e))
    case Answer(page) => if page.metadata.None? then Raise(KeyError("TemplatesMetadata")) else Ok(page.metadata.value)
  }

  /** The drain stops at a reply that raises or that has no `NextToken`. */
  predicate TemplatesLast(reply: Reply<TemplatesPage>) {
    TemplatesOf(reply).Raise? || reply.body.nextToken.None?
  }

  /** The service's replies, in call order, reach a last one. */
  predicate TemplatesEnd(pages: seq<Reply<TemplatesPage>>) {
    exists k :: 0 <= k < |pages| && TemplatesLast(pages[k])
  }

  /** The position of the last reply the drain reads. */
  function TemplatesStop(pages: seq<Reply<TemplatesPage>>): (k: nat)
    requires TemplatesEnd(pages)
    ensures k < |pages| && TemplatesLast(pages[k])
    ensures forall j :: 0 <= j < k ==> !TemplatesLast(pages[j])
    decreases |pages|
  {
    if TemplatesLast(pages[0]) then 0
    else
      assert TemplatesEnd(pages[1..]) by {
        var k :| 0 <= k < |pages| && TemplatesLast(pages[k]);
        assert pages[1..][k - 1] == pages[k];
      }
      var k := TemplatesStop(pages[1..]);
      assert forall j :: 1 <= j < k + 1 ==> pages[j] == pages[1..][j - 1];
      k + 1
  }

  /** The templates of the first `n` replies, in call order. */
  function TemplatesSoFar(pages: seq<Reply<TemplatesPage>>, n: nat): seq<Value>
    requires n <= |pages|
    requires forall j :: 0 <= j < n ==> TemplatesOf(pages[j]).Ok?
  {
    if n == 0 then [] else TemplatesSoFar(pages, n - 1) + TemplatesOf(pages[n - 1]).value
  }

  /** `list_templates`, against a service whose successive replies are `pages`. `calls` is
      the log of the calls made. With `max_items`, one call is made and its templates are
      returned. Without it, the first call carries no token, each later call carries the
      previous reply's `NextToken`, the drain stops at the first reply without one, and the
      result is every reply's templates in call order; a reply that raises ends the drain
      with its exception. */
  method ListTemplates(maxItems: Option<int>, pages: seq<Reply<TemplatesPage>>)
    returns (r: Result<seq<Value>>, calls: seq<TemplatesRequest>)
    requires maxItems.Some? ==> |pages| >= 1
    requires maxItems.None? ==> TemplatesEnd(pages)
    ensures maxItems.Some? ==> calls == [TemplatesRequest(maxItems, None)] && r == TemplatesOf(pages[0])
    ensures maxItems.None? ==>
              var k := TemplatesStop(pages);
              |calls| == k + 1
              && calls[0] == TemplatesRequest(None, None)
              && (forall i :: 0 < i <= k ==> calls[i] == TemplatesRequest(None, pages[i - 1].body.nextToken))
              && (TemplatesOf(pages[k]).Raise? ==> r == TemplatesOf(pages[k]))
              && (TemplatesOf(pages[k]).Ok? ==> r == Ok(TemplatesSoFar(pages, k + 1)))
  {
    if maxItems.Some? {
      calls := [TemplatesRequest(maxItems, None)];
      r := TemplatesOf(pages[0]);
      return;
    }
    ghost var k := TemplatesStop(pages);
    var templates: seq<Value> := [];
    calls := [TemplatesRequest(None, None)];
    var i := 0;
    var response := pages[0];
    var metadata := TemplatesOf(response);
    if metadata.Raise? {
      return metadata, calls;
    }
    templates := templates + metadata.value;
    while response.body.nextToken.Some?
      invariant 0 <= i <= k && response == pages[i]
      invariant TemplatesOf(pages[i]).Ok?
      invariant templates == TemplatesSoFar(pages, i + 1)
      invariant |calls| == i + 1 && calls[0] == TemplatesRequest(None, None)
      invariant forall j :: 0 < j <= i ==> calls[j] == TemplatesRequest(None, pages[j - 1].body.nextToken)
      decreases k - i
    {
      calls := calls + [TemplatesRequest(None, response.body.nextToken)];
      i := i + 1;
      response := pages[i];
      metadata := TemplatesOf(response);
      if metadata.Raise? {
        return metadata, calls;
      }
      templates := templates + metadata.value;
    }
    r := Ok(templates);
  }
}
