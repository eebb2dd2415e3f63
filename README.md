# poprox-utils in Dafny

This is a model of the core of `poprox-utils`, a small Python library that wraps the AWS
e-mail (SES), queue (SQS) and storage (S3) services for the POPROX project. The model
covers four parts:

- **Click tracking for e-mail bodies.** `Email.replace_url_to_add_tracking` rewrites every
  link of a message so that it points at a tracking service. The original address and the
  caller's parameters are packed into the last path segment, as URL-safe base 64 of the
  UTF-8 of their JSON. `Email.extract_parameters_from_url` unpacks them again. The model
  proves that the two are inverse for every link the encoder writes, and that a trailing
  `/` on the base address makes no difference.
- **Pagination drains.** `Email.list_templates` follows `NextToken`, and `S3.list_objects`
  follows `NextContinuationToken`. Each is a loop over a scripted sequence of service
  replies. The model proves that the result is the in-order concatenation of the pages, and
  that the calls made follow the tokens and stop at the right page.
- **Response and error conventions.**
  - SQS: the batch entries, the body coercion, and the `Successful`, `MessageId` and
    `Messages` checks.
  - SES: the translation of error codes into the library's exception, with a re-raise for
    any other code.
  - S3: the wrapping of its errors.
- **The exception.** `PoproxAwsUtilitiesException` derives its structured `errors` payload
  from a `ClientError`, and `str()` gives back its message.

Python's `json`, UTF-8 and base 64 are modelled as concrete, verified codecs:

| module | what it models | what is proved |
|---|---|---|
| `Json`, `JsonRoundTrip` | `json.dumps` with its default settings, and a strict `json.loads` | `loads(dumps(v)) == v` for every value whose dictionaries have distinct keys |
| `Utf8` | UTF-8 as RFC 3629 defines it | decoding inverts encoding |
| `Base64Url` | the URL-safe alphabet with padding, as section 5 of RFC 4648 defines it | decoding inverts encoding |
| `Decimal` | `str(n)` for integers | reading `str(n)` back gives `n`, and distinct numbers have distinct renderings |

The AWS SDK is not modelled:

- A one-shot call is a function parameter `client` from the request the wrapper builds to
  the `Reply` the service gives back: a response map or a `ClientError`.
- A paginated call takes the sequence of replies the service gives, in call order, and
  returns the log of requests it made.
- The HTML document is a sequence of nodes, in document order. An anchor carries an
  optional `href`.

## Model

| member | source | states |
|---|---|---|
| Exceptions.ErrorsPayload | poprox_utils/exceptions.py:12-19 | A `ClientError` becomes a three-key record: `code` is the HTTP status, then `message` and `requestId`. Any other `errors` argument is stored exactly as passed. |
| Exceptions.NewException | poprox_utils/exceptions.py:9-19 | The constructed exception's `message` is the argument. Its `errors` is the derived payload, which is `None` by default. |
| Exceptions.ShowNewException | poprox_utils/exceptions.py:21-22 | `str()` of a constructed exception is exactly its message, whatever `errors` was. |
| Exceptions.AwsIsUtilities | poprox_utils/exceptions.py:4-8 | The AWS exception is a subclass of `PoproxUtilitiesException` and of `Exception`. The reverse does not hold. |
| Exceptions.Wrap | poprox_utils/aws/sqs.py:27-28 | A wrapped `ClientError` has message prefix + `str(e)`, `errors` None, and `e` as its cause. |
| Remote.Get | poprox_utils/aws/s3.py:16 | `dict.get`: the value under the key, or `None` when it is absent. |
| Tracking.StripSlash | poprox_utils/aws/ses.py:26-27 | Exactly one trailing `/` is removed. A base without one is unchanged. |
| Tracking.AddSlash | poprox_utils/aws/ses.py:47-48 | The result ends with `/`. A `/` is appended only when it was missing. |
| Tracking.AddSlashIsStripSlash | poprox_utils/aws/ses.py:26-27 | The decoder's prefix is the encoder's stripped base followed by `/`. |
| Tracking.TrackedDocumentSlash | poprox_utils/aws/ses.py:26-40 | Tracking with base `b + "/"` gives the same document as with `b`. |
| Tracking.ParametersOrEmpty | poprox_utils/aws/ses.py:29-30 | Missing parameters stand for `{}`. |
| Tracking.Payload | poprox_utils/aws/ses.py:33-34 | `url` maps to the anchor's href, even when the caller's parameters held a `url`. Every other key maps to what the parameters map it to. |
| Tracking.Token | poprox_utils/aws/ses.py:37 | The token uses only the URL-safe alphabet and `=`, so it holds no `/`. Its length is 4·⌈n/3⌉ for the n octets of the payload's UTF-8 JSON. |
| Tracking.TrackAnchors | poprox_utils/aws/ses.py:32-38 | The in-place loop leaves each node as `TrackNodes` prescribes for the original document. |
| Tracking.ReplaceUrlToAddTracking | poprox_utils/aws/ses.py:20-40 | A missing base raises before any other step. Otherwise the result is the tracked document. |
| Tracking.TrackedDocumentShape | poprox_utils/aws/ses.py:32-40 | Node count and order are kept. Each anchor with an href gets stripped base + `/` + the token of its own payload, and keeps its content. Anchors without an href and all other nodes are unchanged. |
| Tracking.Replace | poprox_utils/aws/ses.py:50 | `str.replace`, every occurrence from the left, including the empty pattern. Deleting a non-empty pattern never lengthens the text, and replacing a pattern by itself changes nothing. |
| Tracking.ReplaceLeadingPrefix | poprox_utils/aws/ses.py:50 | `str.replace` of a `/`-terminated prefix on prefix + a slash-free token leaves exactly the token. |
| Tracking.ExtractParametersFromUrl | poprox_utils/aws/ses.py:43-52 | A missing base raises the library's exception. Every other failure is a base 64, UTF-8 or JSON decoding error. |
| Tracking.DecodeToken | poprox_utils/aws/ses.py:37 | Each of the three decoding steps inverts its encoding step for a token's payload. |
| Tracking.ExtractInvertsTracking | poprox_utils/aws/ses.py:47-52 | A tracked href decodes to exactly its payload, with any base that normalises to the encoder's prefix. |
| Tracking.TrackedAnchorRoundTrip | poprox_utils/aws/ses.py:26-52 | Every rewritten anchor of a document decodes to its own payload, with base `b` and, when `b` has no trailing slash, with `b + "/"`. |
| Base64Url.Encode | poprox_utils/aws/ses.py:37 | The encoding has length 4·⌈n/3⌉, uses only alphabet and padding characters, and holds neither `/` nor `+`. |
| Base64Url.DecodeEncode | poprox_utils/aws/ses.py:37 | Decoding inverts encoding for every octet string. |
| Utf8.DecodeEncode | poprox_utils/aws/ses.py:37 | Decoding inverts encoding for every string. |
| Json.Lookup | poprox_utils/aws/ses.py:34 | A key is found exactly when the dictionary holds it. |
| Json.Put | poprox_utils/aws/ses.py:34 | After `d.update({k: v})`, `k` maps to `v`. Other keys are unchanged. A new key is appended at the end. |
| Json.PutInPlace | poprox_utils/aws/ses.py:34 | Updating a key that is present keeps the length and every key's position; only that key's value changes. |
| Json.PutWellFormed | poprox_utils/aws/ses.py:34 | Updating keeps the dictionary's keys distinct. |
| JsonRoundTrip.LoadsDumps | poprox_utils/aws/ses.py:37 | `json.loads(json.dumps(v)) == v` for every value whose dictionaries have distinct keys. |
| Decimal.NatToString | poprox_utils/aws/sqs.py:62 | `str(i)` is a non-empty string of digits, with no leading zero unless `i` is 0. |
| Decimal.DigitsValueOfNatToString | poprox_utils/aws/sqs.py:62 | Reading `str(i)` back gives `i`. |
| Decimal.NatToStringInjective | poprox_utils/aws/sqs.py:62 | Distinct numbers have distinct renderings. |
| Ses.Normalise | poprox_utils/aws/ses.py:76-77 | A lone address becomes a one-element list. A list is kept as it is. |
| Ses.AddressList | poprox_utils/aws/ses.py:92 | `ToAddresses` holds one string per recipient, in order. |
| Ses.TemplatedEmailRequest | poprox_utils/aws/ses.py:184-192 | The templated send nests the normalised list once more, so `ToAddresses` is a one-element list whose element is the recipient list. |
| Ses.TemplateDataRoundTrip | poprox_utils/aws/ses.py:192 | The template data sent parses back to the caller's dictionary. |
| Ses.MapErrorFirst | poprox_utils/aws/ses.py:98-114 | When entry `i` is the first whose code matches, the handler raises that entry's message, with the error's details as `errors` and the error as cause. |
| Ses.MapErrorUnlisted | poprox_utils/aws/ses.py:98-114 | The handler re-raises the original error unchanged exactly when no entry lists its code. |
| Ses.SendEmailErrorCodes | poprox_utils/aws/ses.py:98-114 | `MessageRejected` embeds the remote message. `MailFromDomainNotVerified` and `ConfigurationSetDoesNotExist` get fixed messages. Any other code re-raises the error. |
| Ses.CreateTemplateErrorCodes | poprox_utils/aws/ses.py:137-147 | `TemplateNameAlreadyExists` and `InvalidTemplate` get messages naming the template. Other codes re-raise. |
| Ses.UpdateTemplateErrorCodes | poprox_utils/aws/ses.py:158-168 | `TemplateDoesNotExist` and `InvalidTemplate` get messages naming the template. Other codes re-raise. |
| Ses.SendTemplatedErrorCodes | poprox_utils/aws/ses.py:194-214 | A missing template is reported as not found, then the three sending codes follow. A missing configuration set "does not exist" here. Other codes re-raise. |
| Ses.SendEmailWithoutTemplate | poprox_utils/aws/ses.py:55-114 | Tracking without a base raises before any send. Otherwise one request is sent to the normalised recipients, with the body tracked exactly when asked and charset UTF-8. Its outcome goes through the handler. |
| Ses.SendEmailWithTemplate | poprox_utils/aws/ses.py:177-214 | Returns the response, or raises what the templated handler makes of the error. |
| Ses.CreateTemplateCall | poprox_utils/aws/ses.py:128-147 | Returns the response, or raises what the create handler makes of the error. |
| Ses.UpdateTemplateCall | poprox_utils/aws/ses.py:149-168 | Returns the response, or raises what the update handler makes of the error. |
| Ses.TemplatesOf | poprox_utils/aws/ses.py:119-125 | `response["TemplatesMetadata"]`: the list, `KeyError` when it is absent, or the client's error unchanged. |
| Ses.TemplatesStop | poprox_utils/aws/ses.py:123 | The first reply that raises or has no `NextToken`. No earlier reply does either. |
| Ses.ListTemplates | poprox_utils/aws/ses.py:116-126 | With `max_items`, exactly one call is made and its templates are returned. Without it, the first call has no token and call i carries reply i-1's `NextToken`. There is one call per reply up to the stop. The result is the in-order concatenation, or the stopping reply's exception. |
| Sqs.Entries | poprox_utils/aws/sqs.py:59-64 | One entry per body, in input order, with no cap on the count. Entry i has id `str(i)` and carries body i. |
| Sqs.EntryIds | poprox_utils/aws/sqs.py:60-64 | Entry ids are pairwise distinct, and each reads back as its position. |
| Sqs.MessageBody | poprox_utils/aws/sqs.py:32-33 | A dictionary body becomes a string. Any other body passes unchanged. |
| Sqs.MessageBodyRoundTrip | poprox_utils/aws/sqs.py:32-33 | The string a dictionary body becomes parses back to the dictionary. |
| Sqs.ReceiveMessageCall | poprox_utils/aws/sqs.py:17-28 | Returns `Messages` when present and `[]` otherwise. A `ClientError` is wrapped with the receive prefix. |
| Sqs.SendMessageCall | poprox_utils/aws/sqs.py:30-42 | Returns the response, unchanged, if and only if it holds `MessageId`. Otherwise it raises. A `ClientError` is wrapped with the send prefix. |
| Sqs.SendMessageBatchCall | poprox_utils/aws/sqs.py:44-72 | Returns the response, unchanged, if and only if it holds `Successful`, whatever `Failed` holds. Otherwise it raises. A `ClientError` is wrapped with the batch prefix. |
| Sqs.MissingMessageIdNotWrapped | poprox_utils/aws/sqs.py:36-42 | The exception for a missing `MessageId` has no cause and starts with "Could not send", not with the `ClientError` prefix. |
| S3.ListBucketsCall | poprox_utils/aws/s3.py:13-18 | Returns `Buckets`, or `None` when it is absent. An error is wrapped with "Error listing buckets: ". |
| S3.GetObjectCall | poprox_utils/aws/s3.py:20-27 | Returns the response as it is, or the error wrapped with a prefix naming key and bucket. |
| S3.GetObjectMessage | poprox_utils/aws/s3.py:25-27 | The wrapped message holds the key, then the bucket, and ends with `str(e)`. |
| S3.ContentsOf | poprox_utils/aws/s3.py:46 | `response.get("Contents", [])`. |
| S3.ObjectsStop | poprox_utils/aws/s3.py:47-49 | The first reply that fails or lacks `NextContinuationToken`. No earlier reply does either. |
| S3.ListObjects | poprox_utils/aws/s3.py:29-49 | The first call has no token and call i carries reply i-1's token. There is exactly one call per reply up to the first one without a token. The result is the in-order concatenation of `Contents`. A failure raises an exception naming the bucket and drops what was gathered. |

## Left out

- HTML parsing and serialisation (BeautifulSoup): the document is a sequence of nodes, so
  `str(soup)` and the parser's own normalisation are not modelled. `SendEmail` carries the
  document rather than its text.
- Python's `base64.urlsafe_b64decode` is lenient: it drops characters outside the
  alphabet, accepts `+` and `/`, and stops at the first complete padding, ignoring what
  follows (`"QQ==QQ=="` decodes to `b"A"`). `Base64Url.Decode` is strict and rejects all
  of these. This leniency matters
  only for inputs the encoder never produces.
- Some JSON features are not modelled: floating-point numbers, `NaN` and `Infinity`. A
  decimal point or an exponent is rejected.
- Lone surrogate escapes are rejected by the JSON parser. Python's `json.loads` would
  produce an unpaired surrogate, which a Dafny `char` cannot hold.
- Non-string dictionary keys are outside the value type.
- Tracking.ExtractParametersFromUrl: CPython's limits on JSON are not modelled, so the
  model returns a value where Python raises. `Json.Dumps` and `Json.Loads` accept integers
  of any length and values nested to any depth. CPython refuses to convert an integer of
  more than 4300 digits to or from text: `json.dumps` raises `ValueError`, and so does
  `json.loads` on such a literal (a plain `ValueError`, not a decoding error). Both raise
  `RecursionError` past the recursion limit, about 1000 levels of nesting. On such values
  `Tracking.ReplaceUrlToAddTracking`, `Sqs.MessageBody` and `Ses.TemplatedEmailRequest`
  produce output, and `Tracking.ExtractParametersFromUrl` returns `Ok`, where Python
  raises.
- Tracking.Payload: the caller's dictionary is a value in this model, so "the caller's
  mapping is not mutated by `copy` + `update`" holds by construction rather than being
  proved about aliasing.
- The AWS SDK (boto3 and botocore): sessions, client construction, region defaults,
  parameter validation and the network are not modelled. The rendering `str(e)` of a
  `ClientError` is the field `rendered`. The f-string rendering of a response dict is the
  parameter `show`.
- `Email.get_template` is not modelled. It catches a client-specific exception class that
  exists only inside the SDK.
- `PoproxAwsUtilitiesException.__repr__` is Python dict-repr formatting.
- Ses.ListTemplates and S3.ListObjects: termination depends on the service. The model
  requires the scripted replies to reach a last page (`TemplatesEnd`, `ObjectsEnd`), so an
  endless chain of tokens is not modelled.
- Ses.ListTemplates: `TemplatesMetadata` is taken to be a list. Python's `extend` of
  another iterable (a string's characters, a dict's keys) is not modelled.
- S3.ListObjects: `Contents` is taken to be a list. Python's `extend` of another iterable
  is not modelled.
- `src/aws/email.py` is not part of this model. It is an older copy of `Email` whose
  `list_templates` is the same loop.
- `poprox_utils/aws/auth.py` and `poprox_utils/aws/__init__.py` are not part of this
  model. They hold session caching and re-exports.
- The tests under `tests/` are integration tests against a live endpoint, and are not
  part of this model.
