/**
 * Click tracking for e-mail bodies (`Email.replace_url_to_add_tracking` and
 * `Email.extract_parameters_from_url`): every link of a message is pointed at a tracking
 * service, with the original address and the caller's parameters packed into the last path
 * segment as URL-safe base 64 of the UTF-8 of their JSON.
 *
 * The HTML document is modelled as its sequence of nodes, in document order; an anchor
 * may or may not carry an `href` attribute.
 */
module Tracking {
  import opened Common
  import opened Json
  import Utf8
  import Base64Url
  import JsonRoundTrip
  import opened Exceptions

  datatype Node = Anchor(href: Option<string>, content: string) | Other(markup: string)

  type Document = seq<Node>

  /** The message both directions raise when no base address is given. */
  const BaseMissing: string := "base_tracking_url must be provided"

  predicate EndsWithSlash(s: string) {
    |s| > 0 && s[|s| - 1] == '/'
  }

  /** The encoder's normalisation: exactly one trailing `/` is dropped. */
  function StripSlash(base: string): (r: string)
    ensures EndsWithSlash(base) ==> r + "/" == base
    ensures !EndsWithSlash(base) ==> r == base
  {
    if EndsWithSlash(base) then base[..|base| - 1] else base
  }

  /** The decoder's normalisation: a `/` is appended unless one is already there. */
  function AddSlash(base: string): (r: string)
    ensures EndsWithSlash(r)
    ensures EndsWithSlash(base) ==> r == base
    ensures !EndsWithSlash(base) ==> r == base + "/"
  {
    if EndsWithSlash(base) then base else base + "/"
  }

  /** The two normalisations agree: the decoder looks for the encoder's base followed by `/`. */
  lemma AddSlashIsStripSlash(base: string)
    ensures AddSlash(base) == StripSlash(base) + "/"
    ensures StripSlash(base + "/") == base
  {
  }

  /** A trailing `/` on the base makes no difference to the tracked document. */
  lemma TrackedDocumentSlash(html: Document, base: string, parameters: Option<Fields>)
    requires !EndsWithSlash(base)
    ensures TrackedDocument(html, base + "/", parameters) == TrackedDocument(html, base, parameters)
  {
    AddSlashIsStripSlash(base);
  }

  /** `parameters`, or `{}` when it is `None`. */
  function ParametersOrEmpty(parameters: Option<Fields>): (r: Fields)
    ensures parameters.None? ==> r == []
    ensures parameters.Some? ==> r == parameters.value
  {
    if parameters.None? then [] else parameters.value
  }

  /** The payload of one anchor: a copy of the parameters with `"url"` set to the anchor's
      address, whether or not the caller's parameters already held a `"url"`. */
  function Payload(parameters: Fields, href: string): (r: Fields)
    ensures Lookup(r, "url") == Some(Str(href))
    ensures forall k :: k != "url" ==> Lookup(r, k) == Lookup(parameters, k)
  {
    Put(parameters, "url", Str(href))
  }

  /** The path segment that carries a payload. It is made of the URL-safe alphabet and
      padding only, so it never holds a `/`; its length is 4 * ceil(n / 3) for the n octets
      of the serialised payload. */
  function Token(payload: Fields): (t: string)
    ensures forall i :: 0 <= i < |t| ==> Base64Url.IsTokenChar(t[i])
    ensures '/' !in t
    ensures var n := |Utf8.Encode(Dumps(Object(payload)))|; |t| == 4 * ((n + 2) / 3)
  {
    Base64Url.Encode(Utf8.Encode(Dumps(Object(payload))))
  }

  /** One node after tracking: an anchor with an address points at the tracking service;
      every other node is left as it is. */
  function TrackNode(node: Node, stripped: string, parameters: Fields): Node {
    if node.Anchor? && node.href.Some? then
      Anchor(Some(stripped + "/" + Token(Payload(parameters, node.href.value))), node.content)
    else node
  }

  /** Every node of `nodes` after tracking, in the same order. */
  function TrackNodes(nodes: Document, stripped: string, parameters: Fields): Document {
    seq(|nodes|, i requires 0 <= i < |nodes| => TrackNode(nodes[i], stripped, parameters))
  }

  /** The tracked document: the nodes tracked with the normalised base and the parameters,
      `{}` standing for absent ones. */
  function TrackedDocument(html: Document, base: string, parameters: Option<Fields>): Document {
    TrackNodes(html, StripSlash(base), ParametersOrEmpty(parameters))
  }

  /** The loop over the parsed document: each anchor that has an address is rewritten in
      place, one at a time, with a fresh copy of the parameters holding its address. */
  method TrackAnchors(soup: array<Node>, stripped: string, parameters: Fields)
    modifies soup
    ensures soup[..] == TrackNodes(old(soup[..]), stripped, parameters)
  {
    ghost var html := soup[..];
    ghost var tracked := TrackNodes(html, stripped, parameters);
    var i := 0;
    while i < soup.Length
      invariant 0 <= i <= soup.Length == |html| == |tracked|
      invariant soup[..i] == tracked[..i]
      invariant soup[i..] == html[i..]
    {
      var a := soup[i];
      assert a == html[i] by { assert soup[i..][0] == html[i..][0]; }
      if a.Anchor? && a.href.Some? {
        var current := Payload(parameters, a.href.value);
        a := Anchor(Some(stripped + "/" + Token(current)), a.content);
      }
      assert a == tracked[i];
      ghost var done := soup[..i];
      soup[i] := a;
      assert soup[..i + 1] == done + [a];
      assert tracked[..i + 1] == tracked[..i] + [tracked[i]];
      assert soup[i + 1..] == html[i + 1..];
      i := i + 1;
    }
    assert soup[..] == tracked;
  }

  /** `Email.replace_url_to_add_tracking`: the document is parsed, its anchors are rewritten
      and it is given back; without a base address nothing is parsed and the call raises. */
  method ReplaceUrlToAddTracking(html: Document, base: Option<string>, parameters: Option<Fields>)
    returns (r: Result<Document>)
    ensures base.None? ==> r == Raise(Aws(NewException(BaseMissing), None))
    ensures base.Some? ==> r == Ok(TrackedDocument(html, base.value, parameters))
  {
    if base.None? {
      return Raise(Aws(NewException(BaseMissing), None));
    }
    var stripped := base.value;
    if EndsWithSlash(stripped) {
      stripped := stripped[..|stripped| - 1];
    }
    var params := if parameters.None? then [] else parameters.value;
    var soup := new Node[|html|](i requires 0 <= i < |html| => html[i]);
    assert soup[..] == html;
    TrackAnchors(soup, stripped, params);
    return Ok(soup[..]);
  }

  /** What tracking does to a document: the same number of nodes in the same order; every
      anchor with an address gets the normalised base, a `/` and its own payload's token,
      and keeps its content; anchors without an address and all other nodes are unchanged. */
  lemma TrackedDocumentShape(html: Document, base: string, parameters: Option<Fields>, i: int)
    requires 0 <= i < |html|
    ensures |TrackedDocument(html, base, parameters)| == |html|
    ensures var node, out := html[i], TrackedDocument(html, base, parameters)[i];
            if node.Anchor? && node.href.Some? then
              out.Anchor? && out.content == node.content
              && out.href == Some(StripSlash(base) + "/" + Token(Payload(ParametersOrEmpty(parameters), node.href.value)))
            else out == node
  {
  }

  // ----- Python's str.replace -----

  /** `replacement` before every character of `s` and at its end: `s.replace("", replacement)`. */
  function Interleave(s: string, replacement: string): string
    decreases |s|
  {
    if s == [] then replacement else replacement + [s[0]] + Interleave(s[1..], replacement)
  }

  /** `s.replace(pattern, replacement)`: every occurrence of `pattern` found scanning from the left, each
      search resuming after the previous match, is replaced by `replacement`. */
  function Replace(s: string, pattern: string, replacement: string): (r: string)
    ensures pattern != [] && replacement == [] ==> |r| <= |s|
    ensures pattern != [] && replacement == pattern ==> r == s
    decreases |s|
  {
    if pattern == [] then Interleave(s, replacement)
    else if |pattern| <= |s| && s[..|pattern|] == pattern then replacement + Replace(s[|pattern|..], pattern, replacement)
    else if s == [] then []
    else [s[0]] + Replace(s[1..], pattern, replacement)
  }

  /** A pattern that holds a `/` does not occur in a text without one. */
  lemma {:induction false} ReplaceAbsent(s: string, pattern: string, replacement: string)
    requires '/' in pattern && '/' !in s
    ensures Replace(s, pattern, replacement) == s
    decreases |s|
  {
    if s != [] {
      if |pattern| <= |s| {
        var k :| 0 <= k < |pattern| && pattern[k] == '/';
        assert s[..|pattern|][k] != pattern[k];
      }
      ReplaceAbsent(s[1..], pattern, replacement);
      assert s == [s[0]] + s[1..];
    }
  }

  /** Removing `prefix` from `prefix + token` leaves exactly `token` when the prefix ends with
      `/` and the token has none: the leading occurrence is the only one. */
  lemma ReplaceLeadingPrefix(prefix: string, token: string)
    requires EndsWithSlash(prefix) && '/' !in token
    ensures Replace(prefix + token, prefix, "") == token
  {
    var s := prefix + token;
    assert s[..|prefix|] == prefix;
    assert s[|prefix|..] == token;
    assert prefix[|prefix| - 1] == '/';
    ReplaceAbsent(token, prefix, "");
  }

  // ----- Decoding -----

  /** `Email.extract_parameters_from_url`: the payload a tracked address carries. */
  function ExtractParametersFromUrl(url: string, base: Option<string>): (r: Result<Value>)
    ensures base.None? ==> r == Raise(Aws(NewException(BaseMissing), None))
    ensures r.Raise? && base.Some? ==> r.raised in {Base64Error, UnicodeDecodeError, JsonDecodeError}
  {
    if base.None? then Raise(Aws(NewException(BaseMissing), None))
    else
      var encoded := Replace(url, AddSlash(base.value), "");
      match Base64Url.Decode(encoded)
      case None => Raise(Base64Error)
      case Some(bytes) =>
        match Utf8.Decode(bytes)
        case None => Raise(UnicodeDecodeError)
        case Some(text) =>
          match Loads(text)
          case None => Raise(JsonDecodeError)
          case Some(v) => Ok(v)
  }

  /** A token decodes back to its payload. */
  lemma DecodeToken(payload: Fields)
    requires WellFormed(Object(payload))
    ensures var t := Token(payload);
            Base64Url.Decode(t) == Some(Utf8.Encode(Dumps(Object(payload))))
            && Utf8.Decode(Utf8.Encode(Dumps(Object(payload)))) == Some(Dumps(Object(payload)))
            && Loads(Dumps(Object(payload))) == Some(Object(payload))
  {
    Base64Url.DecodeEncode(Utf8.Encode(Dumps(Object(payload))));
    Utf8.DecodeEncode(Dumps(Object(payload)));
    JsonRoundTrip.LoadsDumps(Object(payload));
  }

  /** The round trip: an address the encoder produced with base `base` is decoded, with any
      base `other` that normalises to the same prefix, to exactly the payload of its anchor. */
  lemma ExtractInvertsTracking(base: string, other: string, parameters: Fields, href: string)
    requires WellFormed(Object(parameters))
    requires AddSlash(other) == StripSlash(base) + "/"
    ensures var payload := Payload(parameters, href);
            ExtractParametersFromUrl(StripSlash(base) + "/" + Token(payload), Some(other)) == Ok(Object(payload))
  {
    var payload := Payload(parameters, href);
    PutWellFormed(parameters, "url", Str(href));
    var prefix := StripSlash(base) + "/";
    var t := Token(payload);
    ReplaceLeadingPrefix(prefix, t);
    DecodeToken(payload);
  }

  /** Both `base` and `base + "/"` decode what was encoded with `base` (for a base that does not
      already end with `/`), and the tracked address of every anchor decodes to its payload. */
  lemma TrackedAnchorRoundTrip(html: Document, base: string, parameters: Option<Fields>, i: int)
    requires 0 <= i < |html| && html[i].Anchor? && html[i].href.Some?
    requires WellFormed(Object(ParametersOrEmpty(parameters)))
    ensures var out := TrackedDocument(html, base, parameters)[i];
            var payload := Payload(ParametersOrEmpty(parameters), html[i].href.value);
            out.Anchor? && out.href.Some?
            && ExtractParametersFromUrl(out.href.value, Some(base)) == Ok(Object(payload))
            && (!EndsWithSlash(base) ==> ExtractParametersFromUrl(out.href.value, Some(base + "/")) == Ok(Object(payload)))
  {
    var params := ParametersOrEmpty(parameters);
    var href := html[i].href.value;
    AddSlashIsStripSlash(base);
    ExtractInvertsTracking(base, base, params, href);
    if !EndsWithSlash(base) {
      ExtractInvertsTracking(base, base + "/", params, href);
    }
  }
}
