/** HTTP signatures according to draft-cavage-http-signatures: signing, parsing, and what the signature base means. */
module Cavage {
  import opened Wrappers
  import opened Text
  import opened HttpMessage

  const REQUEST_TARGET: string := "(request-target)"
  const CREATED: string := "(created)"
  const EXPIRES: string := "(expires)"
  const SIGNATURE_EXPIRES_IN: int := 12 * 3600

  type Params = map<string, string>

  datatype SignatureData = SignatureData(
    keyId: string,
    base: string,
    signature: Bytes,
    expiresAt: int,
    authority: string,
    contentDigest: Option<Digest>)

  // ---------------------------------------------------------------------
  // The signature base

  function RequestTarget(method_: string, path: string): string {
    ToLower(method_) + " " + path
  }

  function Line(entry: (string, string)): string {
    entry.0 + ": " + entry.1
  }

  function Base(es: Entries): string {
    BaseOf(es, Line)
  }

  /** Entry lists that can be told apart after printing: no line breaks, no colon in the names. */
  ghost predicate Printable(es: Entries) {
    forall i :: 0 <= i < |es| ==> ':' !in es[i].0 && '\n' !in es[i].0 && '\n' !in es[i].1
  }

  /** The base is unambiguous: it determines names, values and order. */
  lemma BaseInjective(a: Entries, b: Entries)
    requires a != [] && b != [] && Printable(a) && Printable(b)
    requires Base(a) == Base(b)
    ensures a == b
  {
    forall i, j | 0 <= i < |a| && 0 <= j < |b| && Line(a[i]) == Line(b[j]) ensures a[i] == b[j] {
      LineInjective(a[i], b[j]);
    }
    BaseOfInjective(a, b, Line);
  }

  lemma LineInjective(a: (string, string), b: (string, string))
    requires ':' !in a.0 && ':' !in b.0 && Line(a) == Line(b)
    ensures a == b
  {
    assert Line(a) == a.0 + [':'] + (" " + a.1);
    assert Line(b) == b.0 + [':'] + (" " + b.1);
    PrefixInjective(a.0, " " + a.1, b.0, " " + b.1, ':');
    assert a.1 == (" " + a.1)[1..] && b.1 == (" " + b.1)[1..];
  }

  // ---------------------------------------------------------------------
  // Parsing the Signature header

  function RemoveQuotes(value: string): string {
    if |value| >= 2 && value[0] == '"' && value[|value| - 1] == '"' then value[1..|value| - 1] else value
  }

  /** `key=value` with a key of letters and a non-empty value on one line. */
  function ParseParam(item: string): Option<(string, string)> {
    var i := FirstIndex(item, '=');
    if i == 0 || i + 1 >= |item| then None
    else if exists k :: 0 <= k < i && !IsLetter(item[k]) then None
    else if '\n' in item[i + 1..] then None
    else Some((item[..i], RemoveQuotes(item[i + 1..])))
  }

  /** Later parameters replace earlier ones of the same name. */
  function ParseParams(items: seq<string>): Option<Params> {
    if items == [] then Some(map[])
    else
      match ParseParams(items[..|items| - 1])
      case None => None
      case Some(params) =>
        match ParseParam(items[|items| - 1])
        case None => None
        case Some((key, value)) => Some(params[key := value])
  }

  function Param(params: Params, name: string): Result<string, Error> {
    if name in params then Ok(params[name]) else Err(ParseError)
  }

  function ParseTimestamp(lib: Library, value: string): Result<int, Error> {
    var t :- lib.parseInteger(value).ToResult(ParseError);
    if lib.validTimestamp(t) then Ok(t) else Err(ParseError)
  }

  function CreatedAt(lib: Library, req: Request, params: Params): Result<int, Error> {
    if "created" in params then ParseTimestamp(lib, params["created"])
    else
      var date :- req.GetText("date");
      lib.parseDate(date).ToResult(InvalidHeader("Date"))
  }

  function ExpiresAt(lib: Library, params: Params, createdAt: int): Result<int, Error> {
    if "expires" in params then ParseTimestamp(lib, params["expires"]) else Ok(createdAt + SIGNATURE_EXPIRES_IN)
  }

  // ---------------------------------------------------------------------
  // Rebuilding the base

  function ComponentValue(req: Request, params: Params, header: string): Result<string, Error> {
    if header == REQUEST_TARGET then Ok(RequestTarget(req.method_, req.path))
    else if header == CREATED then Param(params, "created")
    else if header == EXPIRES then Param(params, "expires")
    else req.GetText(header)
  }

  function RebuildEntries(req: Request, params: Params, headers: seq<string>): Result<Entries, Error> {
    if headers == [] then Ok([])
    else
      var es :- RebuildEntries(req, params, headers[..|headers| - 1]);
      var value :- ComponentValue(req, params, headers[|headers| - 1]);
      Ok(Insert(es, headers[|headers| - 1], value))
  }

  /** Checks that enough is signed and rebuilds the entries; the second part is the content digest. */
  function Reassemble(lib: Library, req: Request, params: Params, components: seq<string>)
    : Result<(Entries, Option<Digest>), Error>
  {
    var digest :- GetContentDigest(lib, req, components);
    var required := [REQUEST_TARGET, "host"] + (if digest.Some? then [digest.value.0] else []);
    var missing := CheckRequiredComponents(components, required);
    if missing.Some? then Err(MissingComponent(missing.value))
    else
      var entries :- RebuildEntries(req, params, components);
      Ok((entries, if digest.Some? then Some(digest.value.1) else None))
  }

  function SignatureHeader(req: Request): Result<string, Error> {
    match req.Get("signature")
    case None => Err(NoSignature)
    case Some(Opaque) => Err(InvalidHeader("Signature"))
    case Some(Text(s)) => Ok(s)
  }

  /** The Signature header and what it says. */
  datatype Fields = Fields(header: string, params: Params, keyId: string, components: seq<string>,
                           signature: Bytes, authority: string, expiresAt: int)

  function ParseFields(lib: Library, req: Request): (r: Result<Fields, Error>)
    ensures r.Ok? ==>
      && SignatureHeader(req) == Ok(r.value.header)
      && ParseParams(Split(r.value.header, ',')) == Some(r.value.params)
      && Param(r.value.params, "keyId") == Ok(r.value.keyId)
      && req.GetText("Host") == Ok(r.value.authority)
  {
    var header :- SignatureHeader(req);
    var params :- ParseParams(Split(header, ',')).ToResult(InvalidHeader("Signature"));
    FieldsOf(lib, header, params, req.GetText("Host"), CreatedAt(lib, req, params))
  }

  /** What the parameters say, given the Host header and the time of creation. */
  function FieldsOf(lib: Library, header: string, params: Params, host: Result<string, Error>, created: Result<int, Error>)
    : Result<Fields, Error>
  {
    var keyId :- Param(params, "keyId");
    if !lib.validKeyId(keyId) then Err(ParseError)
    else
      var headers :- Param(params, "headers");
      var signatureText :- Param(params, "signature");
      var signature :- lib.decodeBase64(signatureText).ToResult(InvalidEncoding);
      var authority :- host;
      var createdAt :- created;
      var expiresAt :- ExpiresAt(lib, params, createdAt);
      Ok(Fields(header, params, keyId, Split(headers, ' '), signature, authority, expiresAt))
  }

  /** The parsed pieces of an accepted request. */
  datatype Accepted = Accepted(header: string, params: Params, components: seq<string>, entries: Entries,
                               data: SignatureData)

  function Parse(lib: Library, req: Request): Result<Accepted, Error> {
    var f :- ParseFields(lib, req);
    var (entries, digest) :- Reassemble(lib, req, f.params, f.components);
    Ok(Accepted(f.header, f.params, f.components, entries,
                SignatureData(f.keyId, Base(entries), f.signature, f.expiresAt, f.authority, digest)))
  }

  // ---------------------------------------------------------------------
  // Facts about accepted requests

  lemma {:induction false} RebuildFacts(req: Request, params: Params, headers: seq<string>)
    requires RebuildEntries(req, params, headers).Ok?
    ensures var es := RebuildEntries(req, params, headers).value;
      && DistinctKeys(es)
      && (forall k :: HasKey(es, k) <==> k in headers)
      && (forall i :: 0 <= i < |es| ==> ComponentValue(req, params, es[i].0) == Ok(es[i].1))
  {
    if headers != [] {
      var n := |headers| - 1;
      RebuildFacts(req, params, headers[..n]);
      assert headers == headers[..n] + [headers[n]];
      var before := RebuildEntries(req, params, headers[..n]).value;
      var es := RebuildEntries(req, params, headers).value;
      InsertFacts(before, headers[n], ComponentValue(req, params, headers[n]).value);
      forall i | 0 <= i < |es| ensures ComponentValue(req, params, es[i].0) == Ok(es[i].1) {
        if es[i] in before {
          var j :| 0 <= j < |before| && before[j] == es[i];
        }
      }
    }
  }

  lemma {:induction false} ParamsFacts(items: seq<string>)
    requires ParseParams(items).Some? && AllWithout(items, ',')
    ensures forall k :: k in ParseParams(items).value ==>
      ',' !in ParseParams(items).value[k] && '\n' !in ParseParams(items).value[k]
  {
    if items != [] {
      ParamsFacts(items[..|items| - 1]);
    }
  }

  /** What acceptance means. */
  ghost predicate Accepts(lib: Library, req: Request, a: Accepted) {
    && SignatureHeader(req) == Ok(a.header)
    && ParseParams(Split(a.header, ',')) == Some(a.params)
    && Param(a.params, "keyId") == Ok(a.data.keyId)
    && req.GetText("Host") == Ok(a.data.authority)
    && Reassembled(lib, req, a.params, a.components, a.entries, a.data.contentDigest)
    && a.data.base == Base(a.entries)
  }

  ghost predicate Reassembled(lib: Library, req: Request, params: Params, components: seq<string>,
                              entries: Entries, digest: Option<Digest>)
  {
    && RebuildEntries(req, params, components) == Ok(entries)
    && REQUEST_TARGET in components && "host" in components
    && (if HasBody(req.method_) then DigestSigned(lib, req, components, digest) else digest == None)
  }

  lemma ReassembleFacts(lib: Library, req: Request, params: Params, components: seq<string>)
    requires Reassemble(lib, req, params, components).Ok?
    ensures var (entries, digest) := Reassemble(lib, req, params, components).value;
      Reassembled(lib, req, params, components, entries, digest)
  {
    var digest := GetContentDigest(lib, req, components).value;
    var required := [REQUEST_TARGET, "host"] + (if digest.Some? then [digest.value.0] else []);
    assert required[0] in required && required[1] in required;
    if digest.Some? {
      assert required[2] in required;
      SignedDigest(lib, req, components);
    }
  }

  lemma ParseAccepts(lib: Library, req: Request)
    requires Parse(lib, req).Ok?
    ensures Accepts(lib, req, Parse(lib, req).value)
  {
    var a := Parse(lib, req).value;
    ReassembleFacts(lib, req, a.params, a.components);
  }

  /**
    What every accepted request has signed: its target and host, and for a
    POST, PUT or PATCH the digest of its body, read from a header that is among
    the signed components. For all other methods there is no digest.
   */
  lemma AcceptedIsCovered(lib: Library, req: Request)
    requires Parse(lib, req).Ok?
    ensures var a := Parse(lib, req).value;
      && "(request-target)" in a.components && "host" in a.components
      && (if req.method_ == "POST" || req.method_ == "PUT" || req.method_ == "PATCH"
          then a.data.contentDigest.Some? && ReadFromSigned(lib, req, a.components, a.data.contentDigest)
          else a.data.contentDigest == None)
  {
    ParseAccepts(lib, req);
    var a := Parse(lib, req).value;
    if HasBody(req.method_) {
      SignedMeansRead(lib, req, a.components, a.data.contentDigest);
    }
  }

  lemma AcceptedPrintable(lib: Library, req: Request, a: Accepted)
    requires req.WellTyped() && Accepts(lib, req, a)
    ensures Printable(a.entries) && a.entries != []
  {
    SplitWithout(a.header, ',');
    ParamsFacts(Split(a.header, ','));
    RebuildFacts(req, a.params, a.components);
    assert HasKey(a.entries, REQUEST_TARGET);
    forall i | 0 <= i < |a.entries|
      ensures ':' !in a.entries[i].0 && '\n' !in a.entries[i].0 && '\n' !in a.entries[i].1
    {
      ComponentPrintable(req, a.params, a.entries[i].0);
    }
  }

  lemma ComponentPrintable(req: Request, params: Params, name: string)
    requires req.WellTyped() && ComponentValue(req, params, name).Ok?
    requires forall k :: k in params ==> '\n' !in params[k]
    ensures ':' !in name && '\n' !in name && '\n' !in ComponentValue(req, params, name).value
  {
    if name == REQUEST_TARGET {
      LowerKeeps(req.method_, '\n');
    } else if name != CREATED && name != EXPIRES {
      GetTextFacts(req, name);
    }
  }

  /**
    The signature base is unambiguous. Two accepted requests with the same base
    sign the same components with the same values in the same order; hence they
    have the same path, host and lower-cased method, and the same content
    digest when both carry a body.
   */
  lemma BaseUnambiguous(lib: Library, r1: Request, r2: Request)
    requires r1.WellTyped() && r2.WellTyped() && Parse(lib, r1).Ok? && Parse(lib, r2).Ok?
    requires Parse(lib, r1).value.data.base == Parse(lib, r2).value.data.base
    ensures Parse(lib, r1).value.entries == Parse(lib, r2).value.entries
    ensures ToLower(r1.method_) == ToLower(r2.method_) && r1.path == r2.path
    ensures Parse(lib, r1).value.data.authority == Parse(lib, r2).value.data.authority
    ensures HasBody(r1.method_) && HasBody(r2.method_) ==>
      Parse(lib, r1).value.data.contentDigest == Parse(lib, r2).value.data.contentDigest
  {
    ParseAccepts(lib, r1);
    ParseAccepts(lib, r2);
    SameBaseSameRequest(lib, r1, Parse(lib, r1).value, r2, Parse(lib, r2).value);
  }

  lemma SameBaseSameRequest(lib: Library, r1: Request, a: Accepted, r2: Request, b: Accepted)
    requires r1.WellTyped() && r2.WellTyped() && Accepts(lib, r1, a) && Accepts(lib, r2, b)
    requires a.data.base == b.data.base
    ensures a.entries == b.entries
    ensures ToLower(r1.method_) == ToLower(r2.method_) && r1.path == r2.path
    ensures a.data.authority == b.data.authority
    ensures HasBody(r1.method_) && HasBody(r2.method_) ==> a.data.contentDigest == b.data.contentDigest
  {
    AcceptedPrintable(lib, r1, a);
    AcceptedPrintable(lib, r2, b);
    BaseInjective(a.entries, b.entries);
    SameTarget(lib, r1, a, r2, b);
    if HasBody(r1.method_) && HasBody(r2.method_) {
      SameDigest(lib, r1, a, r2, b);
    }
  }

  lemma SameValue(r1: Request, a: Accepted, r2: Request, b: Accepted, name: string)
    requires RebuildEntries(r1, a.params, a.components) == Ok(a.entries)
    requires RebuildEntries(r2, b.params, b.components) == Ok(b.entries)
    requires a.entries == b.entries
    ensures name in a.components <==> name in b.components
    ensures name in a.components ==>
      ComponentValue(r1, a.params, name).Ok? && ComponentValue(r1, a.params, name) == ComponentValue(r2, b.params, name)
  {
    RebuildFacts(r1, a.params, a.components);
    RebuildFacts(r2, b.params, b.components);
    assert name in a.components <==> HasKey(a.entries, name);
    assert name in b.components <==> HasKey(b.entries, name);
    if name in a.components {
      var i :| 0 <= i < |a.entries| && a.entries[i].0 == name;
    }
  }

  lemma TargetInjective(r1: Request, r2: Request)
    requires r1.WellTyped() && r2.WellTyped()
    requires RequestTarget(r1.method_, r1.path) == RequestTarget(r2.method_, r2.path)
    ensures ToLower(r1.method_) == ToLower(r2.method_) && r1.path == r2.path
  {
    LowerKeeps(r1.method_, ' ');
    LowerKeeps(r2.method_, ' ');
    PrefixInjective(ToLower(r1.method_), r1.path, ToLower(r2.method_), r2.path, ' ');
  }

  lemma SameTarget(lib: Library, r1: Request, a: Accepted, r2: Request, b: Accepted)
    requires r1.WellTyped() && r2.WellTyped() && Accepts(lib, r1, a) && Accepts(lib, r2, b) && a.entries == b.entries
    ensures ToLower(r1.method_) == ToLower(r2.method_) && r1.path == r2.path
    ensures a.data.authority == b.data.authority
  {
    SameValue(r1, a, r2, b, REQUEST_TARGET);
    TargetInjective(r1, r2);
    SameValue(r1, a, r2, b, "host");
    HostIsHeader(r1, a.params);
    HostIsHeader(r2, b.params);
  }

  lemma HostIsHeader(req: Request, params: Params)
    ensures req.GetText("Host").Ok? ==> ComponentValue(req, params, "host") == req.GetText("Host")
  {
    assert ToLower("Host") == ToLower("host");
  }

  lemma SameDigest(lib: Library, r1: Request, a: Accepted, r2: Request, b: Accepted)
    requires Accepts(lib, r1, a) && Accepts(lib, r2, b) && HasBody(r1.method_) && HasBody(r2.method_)
    requires a.entries == b.entries
    ensures a.data.contentDigest == b.data.contentDigest
  {
    SameValue(r1, a, r2, b, CONTENT_DIGEST);
    SameValue(r1, a, r2, b, DIGEST);
  }

  // ---------------------------------------------------------------------
  // What is not signed

  /** Requests that agree in method, path and headers. */
  ghost predicate AgreeOnSigned(r1: Request, r2: Request) {
    r1.method_ == r2.method_ && r1.path == r2.path && r1.headers == r2.headers
  }

  lemma SameText(r1: Request, r2: Request, name: string)
    requires AgreeOnSigned(r1, r2)
    ensures r1.Get(name) == r2.Get(name) && r1.GetText(name) == r2.GetText(name)
  {
  }

  lemma SameComponent(r1: Request, r2: Request, params: Params, header: string)
    requires AgreeOnSigned(r1, r2)
    ensures ComponentValue(r1, params, header) == ComponentValue(r2, params, header)
  {
    SameText(r1, r2, header);
  }

  lemma {:induction false} SameEntries(r1: Request, r2: Request, params: Params, headers: seq<string>)
    requires AgreeOnSigned(r1, r2)
    ensures RebuildEntries(r1, params, headers) == RebuildEntries(r2, params, headers)
  {
    if headers != [] {
      var n := |headers| - 1;
      SameEntries(r1, r2, params, headers[..n]);
      SameComponent(r1, r2, params, headers[n]);
    }
  }

  lemma SameContentDigest(lib: Library, r1: Request, r2: Request, components: seq<string>)
    requires AgreeOnSigned(r1, r2)
    ensures GetContentDigest(lib, r1, components) == GetContentDigest(lib, r2, components)
  {
    SameText(r1, r2, CONTENT_DIGEST);
    SameText(r1, r2, DIGEST);
  }

  lemma SameSignatureHeader(r1: Request, r2: Request)
    requires AgreeOnSigned(r1, r2)
    ensures SignatureHeader(r1) == SignatureHeader(r2)
  {
    SameText(r1, r2, "signature");
  }

  lemma SameFields(lib: Library, r1: Request, r2: Request)
    requires AgreeOnSigned(r1, r2)
    ensures ParseFields(lib, r1) == ParseFields(lib, r2)
  {
    SameSignatureHeader(r1, r2);
    SameText(r1, r2, "Host");
    if SignatureHeader(r1).Ok? {
      var params := ParseParams(Split(SignatureHeader(r1).value, ','));
      if params.Some? {
        SameCreated(lib, r1, r2, params.value);
      }
    }
  }

  lemma SameCreated(lib: Library, r1: Request, r2: Request, params: Params)
    requires AgreeOnSigned(r1, r2)
    ensures CreatedAt(lib, r1, params) == CreatedAt(lib, r2, params)
  {
    SameText(r1, r2, "date");
  }

  /** The query is not signed: every request, accepted or rejected, is parsed alike under any other query. */
  lemma TargetNotSigned(lib: Library, req: Request, query: Option<string>, uri: string)
    ensures Parse(lib, req.(query := query, uri := uri)) == Parse(lib, req)
  {
    var other := req.(query := query, uri := uri);
    SameFields(lib, other, req);
    if ParseFields(lib, req).Ok? {
      var f := ParseFields(lib, req).value;
      SameEntries(other, req, f.params, f.components);
      SameContentDigest(lib, other, req, f.components);
    }
  }

  /** Path and query as sent. */
  function FullTarget(req: Request): string {
    req.path + (if req.query.Some? then "?" + req.query.value else "")
  }

  /** Accepted requests with one base have the same full target exactly when their queries are the same. */
  lemma SameBaseSameTarget(lib: Library, r1: Request, r2: Request)
    requires r1.WellTyped() && r2.WellTyped() && Parse(lib, r1).Ok? && Parse(lib, r2).Ok?
    requires Parse(lib, r1).value.data.base == Parse(lib, r2).value.data.base
    ensures FullTarget(r1) == FullTarget(r2) <==> r1.query == r2.query
  {
    BaseUnambiguous(lib, r1, r2);
    var n := |r1.path|;
    if FullTarget(r1) == FullTarget(r2) {
      assert FullTarget(r1)[n..] == FullTarget(r2)[n..];
      assert r1.query.Some? ==> FullTarget(r1)[n..] == "?" + r1.query.value && FullTarget(r1)[n..][1..] == r1.query.value;
      assert r2.query.Some? ==> FullTarget(r2)[n..] == "?" + r2.query.value && FullTarget(r2)[n..][1..] == r2.query.value;
    }
  }

  /** So one signature covers different targets: a second accepted request with the same base and another target. */
  lemma OtherQueryAccepted(lib: Library, req: Request, query: Option<string>)
    requires req.WellTyped() && Parse(lib, req).Ok? && query != req.query && (query.Some? ==> '\n' !in query.value)
    ensures var other := req.(query := query);
      && other.WellTyped()
      && Parse(lib, other) == Parse(lib, req)
      && FullTarget(other) != FullTarget(req)
  {
    var other := req.(query := query);
    assert other == req.(query := query, uri := req.uri);
    TargetNotSigned(lib, req, query, req.uri);
    SameBaseSameTarget(lib, req, other);
  }

  // ---------------------------------------------------------------------
  // Exactly which requests are accepted

  lemma {:induction false} RebuildExactly(req: Request, params: Params, headers: seq<string>)
    ensures RebuildEntries(req, params, headers).Ok? <==> forall h :: h in headers ==> ComponentValue(req, params, h).Ok?
  {
    if headers != [] {
      var n := |headers| - 1;
      RebuildExactly(req, params, headers[..n]);
      assert headers == headers[..n] + [headers[n]];
    }
  }

  /** What the Signature header and the request say, field by field. */
  ghost predicate Says(lib: Library, req: Request, a: Accepted) {
    && req.GetText("signature") == Ok(a.header) && ParseParams(Split(a.header, ',')) == Some(a.params)
    && "keyId" in a.params && a.params["keyId"] == a.data.keyId && lib.validKeyId(a.data.keyId)
    && "headers" in a.params && a.components == Split(a.params["headers"], ' ')
    && "signature" in a.params && lib.decodeBase64(a.params["signature"]) == Some(a.data.signature)
    && req.GetText("Host") == Ok(a.data.authority)
    && CreatedAt(lib, req, a.params).Ok?
    && ExpiresAt(lib, a.params, CreatedAt(lib, req, a.params).value) == Ok(a.data.expiresAt)
    && Covers(lib, req, a)
  }

  /** The components cover what they have to, and the base is made of their values. */
  ghost predicate Covers(lib: Library, req: Request, a: Accepted) {
    && "(request-target)" in a.components && "host" in a.components
    && (if req.method_ == "POST" || req.method_ == "PUT" || req.method_ == "PATCH"
        then a.data.contentDigest.Some? && ReadFromSigned(lib, req, a.components, a.data.contentDigest)
        else a.data.contentDigest == None)
    && RebuildEntries(req, a.params, a.components) == Ok(a.entries)
    && a.data.base == Base(a.entries)
  }

  /** A request is accepted, with this result, exactly when it says so; in particular nothing else is a ground for rejection. */
  lemma AcceptedExactly(lib: Library, req: Request, a: Accepted)
    ensures Parse(lib, req) == Ok(a) <==> Says(lib, req, a)
  {
    if Parse(lib, req) == Ok(a) {
      AcceptedSays(lib, req, a);
    }
    if Says(lib, req, a) {
      SaidIsAccepted(lib, req, a);
    }
  }

  lemma AcceptedSays(lib: Library, req: Request, a: Accepted)
    requires Parse(lib, req) == Ok(a)
    ensures Says(lib, req, a)
  {
    ParseAccepts(lib, req);
    AcceptedIsCovered(lib, req);
    FieldsSay(lib, req);
  }

  lemma FieldsSay(lib: Library, req: Request)
    requires ParseFields(lib, req).Ok?
    ensures var f := ParseFields(lib, req).value;
      && req.GetText("signature") == Ok(f.header)
      && "keyId" in f.params && f.params["keyId"] == f.keyId && lib.validKeyId(f.keyId)
      && "headers" in f.params && f.components == Split(f.params["headers"], ' ')
      && "signature" in f.params && lib.decodeBase64(f.params["signature"]) == Some(f.signature)
      && CreatedAt(lib, req, f.params).Ok?
      && ExpiresAt(lib, f.params, CreatedAt(lib, req, f.params).value) == Ok(f.expiresAt)
  {
  }

  lemma SaidIsAccepted(lib: Library, req: Request, a: Accepted)
    requires Says(lib, req, a)
    ensures Parse(lib, req) == Ok(a)
  {
    assert ParseFields(lib, req) ==
      Ok(Fields(a.header, a.params, a.data.keyId, a.components, a.data.signature, a.data.authority, a.data.expiresAt));
    CoveredIsReassembled(lib, req, a);
  }

  lemma CoveredIsReassembled(lib: Library, req: Request, a: Accepted)
    requires Covers(lib, req, a)
    ensures Reassemble(lib, req, a.params, a.components) == Ok((a.entries, a.data.contentDigest))
  {
    if HasBody(req.method_) {
      ReadMeansFound(lib, req, a.components, a.data.contentDigest);
    }
  }
}
