/**
  HTTP message signatures (RFC 9421): the signature base of section 2.5, the
  derived components of section 2.2, and the round trip between signer and
  verifier. Structured fields are read and written by a library.
 */
module Rfc9421 {
  import opened Wrappers
  import opened Text
  import opened HttpMessage

  const METHOD: string := "@method"
  const TARGET_URI: string := "@target-uri"
  const SIGNATURE_PARAMS: string := "@signature-params"
  const SIGNATURE_EXPIRES_IN: int := 12 * 3600

  const SIGNATURE_LABEL: string := "sig1"

  datatype ParamValue = Str(s: string) | Int(i: int) | Unsupported

  /**
    An inner list: component identifiers (None: not a string), parameters in
    order, and what else is written (parameters of the items), which nobody reads.
   */
  datatype ParamList = ParamList(items: seq<Option<string>>, params: seq<(string, ParamValue)>, rest: string) {

    function Param(name: string): Option<ParamValue> {
      Find(params, name)
    }
  }

  function Find(params: seq<(string, ParamValue)>, name: string): Option<ParamValue> {
    if params == [] then None else if params[0].0 == name then Some(params[0].1) else Find(params[1..], name)
  }

  /** The structured field library: reading and writing of the two headers, and the parsers shared with the other scheme. */
  datatype Fields = Fields(
    firstSignature: string -> Option<(string, Option<Bytes>)>,
    inputOf: (string, string) -> Option<Option<ParamList>>,
    serialize: ParamList -> Option<string>,
    printSignature: (string, Bytes) -> Option<string>,
    printInput: (string, ParamList) -> Option<string>,
    lib: Library)
  {
    /** Serialized structured fields are a single line. */
    ghost predicate Ok() {
      forall l :: serialize(l).Some? ==> '\n' !in serialize(l).value
    }

    /** A dictionary with one entry is read back as it was written. */
    ghost predicate ReadsBack() {
      && (forall tag, b :: printSignature(tag, b).Some? ==>
            firstSignature(printSignature(tag, b).value) == Some((tag, Some(b))))
      && (forall tag, l :: printInput(tag, l).Some? ==> inputOf(printInput(tag, l).value, tag) == Some(Some(l)))
    }
  }

  datatype SignatureData = SignatureData(
    keyId: string,
    base: string,
    signature: Bytes,
    expiresAt: int,
    authority: string,
    contentDigest: Option<Digest>)

  // ---------------------------------------------------------------------
  // The signature base

  function Line(entry: (string, string)): string {
    "\"" + entry.0 + "\": " + entry.1
  }

  function Base(es: Entries): string {
    BaseOf(es, Line)
  }

  ghost predicate Printable(es: Entries) {
    forall i :: 0 <= i < |es| ==> '"' !in es[i].0 && '\n' !in es[i].0 && '\n' !in es[i].1
  }

  lemma BaseInjective(a: Entries, b: Entries)
    requires a != [] && b != [] && Printable(a) && Printable(b)
    requires Base(a) == Base(b)
    ensures a == b
  {
    forall i, j | 0 <= i < |a| && 0 <= j < |b| && Line(a[i]) == Line(b[j]) ensures a[i] == b[j] {
      LineInjective(a[i], b[j]);
    }
    BaseOfInjective(a, b, Line);
  }

  lemma LineInjective(a: (string, string), b: (string, string))
    requires '"' !in a.0 && '"' !in b.0 && Line(a) == Line(b)
    ensures a == b
  {
    assert Line(a)[1..] == a.0 + ['"'] + (": " + a.1);
    assert Line(b)[1..] == b.0 + ['"'] + (": " + b.1);
    PrefixInjective(a.0, ": " + a.1, b.0, ": " + b.1, '"');
    assert a.1 == (": " + a.1)[2..] && b.1 == (": " + b.1)[2..];
  }

  // ---------------------------------------------------------------------
  // Rebuilding the base

  /** The derived components of section 2.2 that are supported. */
  function DerivedValue(req: Request, authority: string, id: string): Option<string> {
    if id == METHOD then Some(req.method_)
    else if id == TARGET_URI then Some(req.uri)
    else if id == "@request-target" then
      Some(req.path + (if req.query.Some? then "?" + req.query.value else ""))
    else if id == "@path" then Some(req.path)
    else if id == "@query" then Some("?" + (if req.query.Some? then req.query.value else ""))
    else if id == "@authority" then Some(authority)
    else None
  }

  function ComponentValue(req: Request, authority: string, id: string): Result<string, Error> {
    match DerivedValue(req, authority, id)
    case Some(value) => Ok(value)
    case None => if id != [] && id[0] == '@' then Err(UnsupportedComponent(id)) else req.GetText(id)
  }

  /** Components must be distinct; a duplicate is an error. */
  function RebuildEntries(req: Request, authority: string, components: seq<string>): Result<Entries, Error> {
    if components == [] then Ok([])
    else
      var n := |components| - 1;
      var es :- RebuildEntries(req, authority, components[..n]);
      if Position(es, components[n]) < |es| then Err(ParseError)
      else
        var value :- ComponentValue(req, authority, components[n]);
        Ok(es + [(components[n], value)])
  }

  /** The component identifiers, unless one of them is not a string. */
  function ComponentIds(items: seq<Option<string>>): Option<seq<string>> {
    if items == [] then Some([])
    else
      match ComponentIds(items[..|items| - 1])
      case None => None
      case Some(ids) =>
        if items[|items| - 1].None? then None else Some(ids + [items[|items| - 1].value])
  }

  function ParseTimestamp(lib: Library, value: ParamValue): Result<int, Error> {
    if value.Int? && lib.validTimestamp(value.i) then Ok(value.i) else Err(ParseError)
  }

  function ExpiresAt(lib: Library, list: ParamList): Result<int, Error> {
    match list.Param("expires")
    case Some(value) => ParseTimestamp(lib, value)
    case None =>
      var value :- list.Param("created").ToResult(ParseError);
      var created :- ParseTimestamp(lib, value);
      Ok(created + SIGNATURE_EXPIRES_IN)
  }

  function Reassemble(lib: Library, req: Request, authority: string, components: seq<string>)
    : Result<(Entries, Option<Digest>), Error>
  {
    var digest :- GetContentDigest(lib, req, components);
    var required := [METHOD, TARGET_URI] + (if digest.Some? then [digest.value.0] else []);
    var missing := CheckRequiredComponents(components, required);
    if missing.Some? then Err(MissingComponent(missing.value))
    else
      var entries :- RebuildEntries(req, authority, components);
      Ok((entries, if digest.Some? then Some(digest.value.1) else None))
  }

  /** The two headers: signature, serialized parameters and parameter list. */
  function ParseHeaders(fields: Fields, req: Request): (r: Result<(Bytes, string, ParamList), Error>)
    ensures r.Ok? ==> fields.serialize(r.value.2) == Some(r.value.1)
  {
    var signatureHeader :- (if req.Get("signature").None? then Err(NoSignature) else req.GetText("signature"));
    var (tag, value) :- fields.firstSignature(signatureHeader).ToResult(ParseError);
    var signature :- value.ToResult(ParseError);
    var inputHeader :- (if req.Get("signature-input").None? then Err(NoSignature) else req.GetText("signature-input"));
    var input :- fields.inputOf(inputHeader, tag).ToResult(ParseError);
    var list :- input.ToResult(ParseError);
    var serialized :- fields.serialize(list).ToResult(ParseError);
    Ok((signature, serialized, list))
  }

  datatype Accepted = Accepted(components: seq<string>, entries: Entries, params: string, data: SignatureData)

  /** Key ID, expiry, component identifiers and authority. */
  function ParseClaims(lib: Library, req: Request, list: ParamList): (r: Result<(string, int, seq<string>, string), Error>)
    ensures r.Ok? ==> req.authority == Some(r.value.3)
  {
    var keyId :- list.Param("keyid").ToResult(ParseError);
    if !keyId.Str? || !lib.validKeyId(keyId.s) then Err(ParseError)
    else
      var expiresAt :- ExpiresAt(lib, list);
      var components :- ComponentIds(list.items).ToResult(ParseError);
      var authority :- req.authority.ToResult(ParseError);
      Ok((keyId.s, expiresAt, components, authority))
  }

  function Parse(fields: Fields, req: Request): Result<Accepted, Error> {
    var (signature, params, list) :- ParseHeaders(fields, req);
    var (keyId, expiresAt, components, authority) :- ParseClaims(fields.lib, req, list);
    var (entries, digest) :- Reassemble(fields.lib, req, authority, components);
    var base := Base(entries + [(SIGNATURE_PARAMS, params)]);
    Ok(Accepted(components, entries, params,
                SignatureData(keyId, base, signature, expiresAt, authority, digest)))
  }

  // ---------------------------------------------------------------------
  // Facts about accepted requests

  /** Every entry has the value that the request gives to its name. */
  ghost predicate HasValues(req: Request, authority: string, es: Entries) {
    forall i :: 0 <= i < |es| ==> ComponentValue(req, authority, es[i].0) == Ok(es[i].1)
  }

  lemma {:induction false} RebuildFacts(req: Request, authority: string, components: seq<string>)
    requires RebuildEntries(req, authority, components).Ok?
    ensures var es := RebuildEntries(req, authority, components).value;
      && Names(es) == components
      && DistinctKeys(es)
      && HasValues(req, authority, es)
  {
    if components != [] {
      var n := |components| - 1;
      RebuildFacts(req, authority, components[..n]);
      assert components == components[..n] + [components[n]];
    }
  }

  ghost predicate Accepts(fields: Fields, req: Request, a: Accepted) {
    && (exists l :: fields.serialize(l) == Some(a.params))
    && req.authority == Some(a.data.authority)
    && RebuildEntries(req, a.data.authority, a.components) == Ok(a.entries)
    && METHOD in a.components && TARGET_URI in a.components
    && a.data.base == Base(a.entries + [(SIGNATURE_PARAMS, a.params)])
    && (if HasBody(req.method_) then DigestSigned(fields.lib, req, a.components, a.data.contentDigest)
        else a.data.contentDigest == None)
  }

  lemma ReassembleFacts(lib: Library, req: Request, authority: string, components: seq<string>)
    requires Reassemble(lib, req, authority, components).Ok?
    ensures var (entries, digest) := Reassemble(lib, req, authority, components).value;
      && RebuildEntries(req, authority, components) == Ok(entries)
      && METHOD in components && TARGET_URI in components
      && (if HasBody(req.method_) then DigestSigned(lib, req, components, digest) else digest == None)
  {
    var digest := GetContentDigest(lib, req, components).value;
    var required := [METHOD, TARGET_URI] + (if digest.Some? then [digest.value.0] else []);
    assert required[0] in required && required[1] in required;
    if digest.Some? {
      assert required[2] in required;
      SignedDigest(lib, req, components);
    }
  }

  lemma ParseAccepts(fields: Fields, req: Request)
    requires Parse(fields, req).Ok?
    ensures Accepts(fields, req, Parse(fields, req).value)
  {
    var a := Parse(fields, req).value;
    ReassembleFacts(fields.lib, req, a.data.authority, a.components);
    assert fields.serialize(ParseHeaders(fields, req).value.2) == Some(a.params);
  }

  /**
    What every accepted request has signed: its method and target URI, and for
    a POST, PUT or PATCH the digest of its body, read from a header that is
    among the signed components. For all other methods there is no digest.
   */
  lemma AcceptedIsCovered(fields: Fields, req: Request)
    requires Parse(fields, req).Ok?
    ensures var a := Parse(fields, req).value;
      && "@method" in a.components && "@target-uri" in a.components
      && (if req.method_ == "POST" || req.method_ == "PUT" || req.method_ == "PATCH"
          then a.data.contentDigest.Some? && ReadFromSigned(fields.lib, req, a.components, a.data.contentDigest)
          else a.data.contentDigest == None)
  {
    ParseAccepts(fields, req);
    var a := Parse(fields, req).value;
    if HasBody(req.method_) {
      SignedMeansRead(fields.lib, req, a.components, a.data.contentDigest);
    }
  }

  lemma DerivedPrintable(req: Request, authority: string, id: string)
    requires req.WellTyped() && '\n' !in authority && DerivedValue(req, authority, id).Some?
    ensures '"' !in id && '\n' !in id && '\n' !in DerivedValue(req, authority, id).value
  {
    var value := DerivedValue(req, authority, id).value;
    if id == METHOD || id == TARGET_URI {
    } else if id == "@request-target" {
    } else if id == "@path" {
    } else if id == "@query" {
    } else {
      assert id == "@authority";
    }
  }

  lemma ComponentPrintable(req: Request, authority: string, id: string)
    requires req.WellTyped() && '\n' !in authority && ComponentValue(req, authority, id).Ok?
    ensures '"' !in id && '\n' !in id && '\n' !in ComponentValue(req, authority, id).value
  {
    if DerivedValue(req, authority, id).Some? {
      DerivedPrintable(req, authority, id);
    } else {
      GetTextFacts(req, id);
    }
  }

  lemma AcceptedPrintable(fields: Fields, req: Request, a: Accepted)
    requires fields.Ok() && req.WellTyped() && Accepts(fields, req, a)
    ensures Printable(a.entries + [(SIGNATURE_PARAMS, a.params)])
  {
    RebuildFacts(req, a.data.authority, a.components);
    EntriesPrintable(req, a.data.authority, a.entries);
    var list :| fields.serialize(list) == Some(a.params);
    PrintableSnoc(a.entries, a.params);
  }

  lemma PrintableSnoc(es: Entries, params: string)
    requires Printable(es) && '\n' !in params
    ensures Printable(es + [(SIGNATURE_PARAMS, params)])
  {
    assert '"' !in SIGNATURE_PARAMS && '\n' !in SIGNATURE_PARAMS;
  }

  lemma EntriesPrintable(req: Request, authority: string, es: Entries)
    requires req.WellTyped() && '\n' !in authority && HasValues(req, authority, es)
    ensures Printable(es)
  {
    forall i | 0 <= i < |es| ensures '"' !in es[i].0 && '\n' !in es[i].0 && '\n' !in es[i].1 {
      ComponentPrintable(req, authority, es[i].0);
    }
  }

  lemma SameValue(r1: Request, a: Accepted, r2: Request, b: Accepted, id: string)
    requires RebuildEntries(r1, a.data.authority, a.components) == Ok(a.entries)
    requires RebuildEntries(r2, b.data.authority, b.components) == Ok(b.entries)
    requires a.entries == b.entries
    ensures a.components == b.components
    ensures id in a.components ==>
      && ComponentValue(r1, a.data.authority, id).Ok?
      && ComponentValue(r1, a.data.authority, id) == ComponentValue(r2, b.data.authority, id)
  {
    RebuildFacts(r1, a.data.authority, a.components);
    RebuildFacts(r2, b.data.authority, b.components);
    if id in a.components {
      var i :| 0 <= i < |a.components| && a.components[i] == id;
      assert Names(a.entries)[i] == id;
    }
  }

  /**
    Two accepted requests with the same signature base sign the same components
    with the same values in the same order, under the same signature
    parameters; hence they have the same method and target URI, and the same
    content digest when the method carries a body.
   */
  lemma BaseUnambiguous(fields: Fields, r1: Request, r2: Request)
    requires fields.Ok() && r1.WellTyped() && r2.WellTyped()
    requires Parse(fields, r1).Ok? && Parse(fields, r2).Ok?
    requires Parse(fields, r1).value.data.base == Parse(fields, r2).value.data.base
    ensures Parse(fields, r1).value.entries == Parse(fields, r2).value.entries
    ensures Parse(fields, r1).value.components == Parse(fields, r2).value.components
    ensures Parse(fields, r1).value.params == Parse(fields, r2).value.params
    ensures r1.method_ == r2.method_ && r1.uri == r2.uri
    ensures Parse(fields, r1).value.data.contentDigest == Parse(fields, r2).value.data.contentDigest
  {
    ParseAccepts(fields, r1);
    ParseAccepts(fields, r2);
    SameBaseSameRequest(fields, r1, Parse(fields, r1).value, r2, Parse(fields, r2).value);
  }

  lemma SameBaseSameRequest(fields: Fields, r1: Request, a: Accepted, r2: Request, b: Accepted)
    requires fields.Ok() && r1.WellTyped() && r2.WellTyped() && Accepts(fields, r1, a) && Accepts(fields, r2, b)
    requires a.data.base == b.data.base
    ensures a.entries == b.entries && a.components == b.components && a.params == b.params
    ensures r1.method_ == r2.method_ && r1.uri == r2.uri
    ensures a.data.contentDigest == b.data.contentDigest
  {
    AcceptedPrintable(fields, r1, a);
    AcceptedPrintable(fields, r2, b);
    var x, y := a.entries + [(SIGNATURE_PARAMS, a.params)], b.entries + [(SIGNATURE_PARAMS, b.params)];
    BaseInjective(x, y);
    assert a.entries == x[..|x| - 1] && b.entries == y[..|y| - 1] && x[|x| - 1] == y[|y| - 1];
    SameValue(r1, a, r2, b, METHOD);
    SameValue(r1, a, r2, b, TARGET_URI);
    SameDigest(fields, r1, a, r2, b);
  }

  lemma SameDigest(fields: Fields, r1: Request, a: Accepted, r2: Request, b: Accepted)
    requires Accepts(fields, r1, a) && Accepts(fields, r2, b) && a.entries == b.entries && r1.method_ == r2.method_
    ensures a.data.contentDigest == b.data.contentDigest
  {
    SameValue(r1, a, r2, b, CONTENT_DIGEST);
    SameValue(r1, a, r2, b, DIGEST);
  }

  // ---------------------------------------------------------------------
  // The verifier's loop

  method FillEntries(req: Request, authority: string, components: seq<string>) returns (entries: Result<Entries, Error>)
    ensures entries == RebuildEntries(req, authority, components)
  {
    var filled: Entries := [];
    for i := 0 to |components|
      invariant RebuildEntries(req, authority, components[..i]) == Ok(filled)
    {
      assert components[..i + 1][..i] == components[..i];
      if Position(filled, components[i]) < |filled| {
        ErrorStays(req, authority, components, i + 1);
        return Err(ParseError);
      }
      var value := ComponentValue(req, authority, components[i]);
      if value.Err? {
        ErrorStays(req, authority, components, i + 1);
        return Err(value.error);
      }
      filled := filled + [(components[i], value.value)];
    }
    assert components[..|components|] == components;
    return Ok(filled);
  }

  lemma {:induction false} ErrorStays(req: Request, authority: string, components: seq<string>, i: nat)
    requires i <= |components| && RebuildEntries(req, authority, components[..i]).Err?
    ensures RebuildEntries(req, authority, components) == RebuildEntries(req, authority, components[..i])
  {
    if i == |components| {
      assert components[..i] == components;
    } else {
      var n := |components| - 1;
      assert components[..n][..i] == components[..i];
      ErrorStays(req, authority, components[..n], i);
    }
  }

  method FillComponents(items: seq<Option<string>>) returns (components: Option<seq<string>>)
    ensures components == ComponentIds(items)
  {
    var filled: seq<string> := [];
    for i := 0 to |items|
      invariant ComponentIds(items[..i]) == Some(filled)
    {
      assert items[..i + 1][..i] == items[..i];
      if items[i].None? {
        NotAString(items, i + 1);
        return None;
      }
      filled := filled + [items[i].value];
    }
    assert items[..|items|] == items;
    return Some(filled);
  }

  lemma {:induction false} NotAString(items: seq<Option<string>>, i: nat)
    requires i <= |items| && ComponentIds(items[..i]).None?
    ensures ComponentIds(items).None?
  {
    if i == |items| {
      assert items[..i] == items;
    } else {
      var n := |items| - 1;
      assert items[..n][..i] == items[..i];
      NotAString(items[..n], i);
    }
  }

  /** The parser, with its loops over the list items and over the components. */
  method ParseHttpSignature(fields: Fields, req: Request) returns (r: Result<Accepted, Error>)
    ensures r == Parse(fields, req)
  {
    var headers :- ParseHeaders(fields, req);
    var (signature, params, list) := headers;
    var claims :- ReadClaims(fields.lib, req, list);
    var (keyId, expiresAt, components, authority) := claims;
    var digest :- GetContentDigest(fields.lib, req, components);
    var required := [METHOD, TARGET_URI];
    if digest.Some? {
      required := required + [digest.value.0];
    }
    assert required == [METHOD, TARGET_URI] + (if digest.Some? then [digest.value.0] else []);
    var missing := CheckRequiredComponents(components, required);
    if missing.Some? {
      return Err(MissingComponent(missing.value));
    }
    var entries :- FillEntries(req, authority, components);
    var base := Base(entries + [(SIGNATURE_PARAMS, params)]);
    return Ok(Accepted(components, entries, params,
                       SignatureData(keyId, base, signature, expiresAt, authority,
                                     if digest.Some? then Some(digest.value.1) else None)));
  }

  method ReadClaims(lib: Library, req: Request, list: ParamList)
    returns (r: Result<(string, int, seq<string>, string), Error>)
    ensures r == ParseClaims(lib, req, list)
  {
    var keyId :- list.Param("keyid").ToResult(ParseError);
    if !keyId.Str? || !lib.validKeyId(keyId.s) {
      return Err(ParseError);
    }
    var expiresAt :- ExpiresAt(lib, list);
    var filled := FillComponents(list.items);
    var components :- filled.ToResult(ParseError);
    var authority :- req.authority.ToResult(ParseError);
    return Ok((keyId.s, expiresAt, components, authority));
  }

  // ---------------------------------------------------------------------
  // The signer and the round trip

  function SignedEntries(method_: string, uri: string, digest: Option<string>): Entries {
    [(METHOD, method_), (TARGET_URI, uri)] + (if digest.Some? then [(CONTENT_DIGEST, digest.value)] else [])
  }

  function SignedList(es: Entries, keyId: string, created: int, algorithm: string): ParamList {
    ParamList(seq(|es|, i requires 0 <= i < |es| => Some(es[i].0)),
              [("keyid", Str(keyId)), ("created", Int(created)), ("alg", Str(algorithm))], "")
  }

  lemma {:induction false} IdsOfSigned(es: Entries, keyId: string, created: int, algorithm: string)
    ensures ComponentIds(SignedList(es, keyId, created, algorithm).items) == Some(Names(es))
  {
    if es != [] {
      var n := |es| - 1;
      IdsOfSigned(es[..n], keyId, created, algorithm);
      assert SignedList(es, keyId, created, algorithm).items[..n] == SignedList(es[..n], keyId, created, algorithm).items;
      assert Names(es) == Names(es[..n]) + [es[n].0];
    } else {
      assert SignedList(es, keyId, created, algorithm).items == [] && Names(es) == [];
    }
  }

  lemma ParamsOfSigned(es: Entries, keyId: string, created: int, algorithm: string)
    ensures var list := SignedList(es, keyId, created, algorithm);
      && list.Param("keyid") == Some(Str(keyId))
      && list.Param("created") == Some(Int(created))
      && list.Param("expires") == None
  {
    var k, c, a := ("keyid", Str(keyId)), ("created", Int(created)), ("alg", Str(algorithm));
    assert "keyid"[0] == 'k' && "created"[0] == 'c' && "alg"[0] == 'a' && "expires"[0] == 'e';
    assert [k, c, a][1..] == [c, a] && [c, a][1..] == [a] && [a][1..] == [];
    assert Find([], "expires") == None;
    assert Find([a], "expires") == None;
    assert Find([c, a], "expires") == None && Find([c, a], "created") == Some(Int(created));
  }

  lemma LastValue(req: Request, authority: string, es: Entries, n: nat)
    requires DistinctKeys(es) && HasValues(req, authority, es) && n == |es| - 1
    ensures DistinctKeys(es[..n]) && HasValues(req, authority, es[..n])
    ensures ComponentValue(req, authority, es[n].0) == Ok(es[n].1)
    ensures forall i :: 0 <= i < n ==> es[..n][i].0 != es[n].0
  {
  }

  lemma {:induction false} DistinctComponentsInOrder(req: Request, authority: string, es: Entries)
    requires DistinctKeys(es) && HasValues(req, authority, es)
    ensures RebuildEntries(req, authority, Names(es)) == Ok(es)
  {
    if es != [] {
      var n := |es| - 1;
      LastValue(req, authority, es, n);
      DistinctComponentsInOrder(req, authority, es[..n]);
      LastEntry(es, n);
      RebuildSnoc(req, authority, Names(es[..n]), es[..n], es[n], Names(es), es);
    }
  }

  lemma RebuildSnoc(req: Request, authority: string, components: seq<string>, es: Entries, e: (string, string),
                    components': seq<string>, es': Entries)
    requires RebuildEntries(req, authority, components) == Ok(es) && ComponentValue(req, authority, e.0) == Ok(e.1)
    requires forall i :: 0 <= i < |es| ==> es[i].0 != e.0
    requires components' == components + [e.0] && es' == es + [e]
    ensures RebuildEntries(req, authority, components') == Ok(es')
  {
    assert components'[..|components'| - 1] == components;
    assert Position(es, e.0) == |es|;
  }

  /** The request as sent: a signed Content-Digest, if there is a body, and the two signature headers. */
  ghost function SignedRequest(method_: string, uri: string, path: string, query: Option<string>, authority: string,
                               digest: Option<string>, signature: string, input: string): Request
  {
    var headers := map["signature" := HttpMessage.Text(signature), "signature-input" := HttpMessage.Text(input)];
    Request(method_, uri, path, query, Some(authority),
            if digest.Some? then headers[CONTENT_DIGEST := HttpMessage.Text(digest.value)] else headers)
  }

  lemma SignedHeaders(method_: string, uri: string, path: string, query: Option<string>, authority: string,
                      digest: Option<string>, signature: string, input: string)
    ensures var req := SignedRequest(method_, uri, path, query, authority, digest, signature, input);
      && req.GetText("signature") == Ok(signature) && req.GetText("signature-input") == Ok(input)
      && Carries(req, digest)
      && (digest.None? ==> req.Get(CONTENT_DIGEST) == None && req.Get(DIGEST) == None)
  {
    assert ToLower("signature") == "signature" && ToLower("signature-input") == "signature-input";
    assert ToLower(CONTENT_DIGEST) == CONTENT_DIGEST && ToLower(DIGEST) == DIGEST;
    assert |"signature"| == 9 && |"signature-input"| == 15 && |CONTENT_DIGEST| == 14 && |DIGEST| == 6;
  }

  /** The request carries the Content-Digest header that was signed. */
  ghost predicate Carries(req: Request, digest: Option<string>) {
    digest.Some? ==> req.GetText(CONTENT_DIGEST) == Ok(digest.value)
  }

  lemma SignedValues(req: Request, authority: string, digest: Option<string>)
    requires Carries(req, digest)
    ensures var es := SignedEntries(req.method_, req.uri, digest);
      DistinctKeys(es) && HasValues(req, authority, es)
  {
    assert |METHOD| == 7 && |TARGET_URI| == 11 && |CONTENT_DIGEST| == 14 && CONTENT_DIGEST[0] == 'c';
  }

  lemma ReassembleRoundTrip(lib: Library, req: Request, authority: string, digest: Option<string>)
    requires Carries(req, digest)
    requires digest.Some? ==> lib.parseContentDigest(digest.value).Some?
    requires HasBody(req.method_) ==> digest.Some?
    ensures var es := SignedEntries(req.method_, req.uri, digest);
      Reassemble(lib, req, authority, Names(es))
      == Ok((es, if HasBody(req.method_) then lib.parseContentDigest(digest.value) else None))
  {
    var es := SignedEntries(req.method_, req.uri, digest);
    SignedValues(req, authority, digest);
    DistinctComponentsInOrder(req, authority, es);
    var names := Names(es);
    assert names[0] == METHOD && names[1] == TARGET_URI;
    if HasBody(req.method_) {
      assert names[2] == CONTENT_DIGEST && |CONTENT_DIGEST| == 14 && |DIGEST| == 6;
    }
  }

  lemma ClaimsRoundTrip(lib: Library, req: Request, es: Entries, keyId: string, created: int, algorithm: string)
    requires lib.validKeyId(keyId) && lib.validTimestamp(created) && req.authority.Some?
    ensures ParseClaims(lib, req, SignedList(es, keyId, created, algorithm)) ==
      Ok((keyId, created + SIGNATURE_EXPIRES_IN, Names(es), req.authority.value))
  {
    IdsOfSigned(es, keyId, created, algorithm);
    ParamsOfSigned(es, keyId, created, algorithm);
  }

  lemma HeadersRoundTrip(fields: Fields, req: Request, list: ParamList, signature: Bytes)
    requires fields.ReadsBack() && fields.serialize(list).Some?
    requires fields.printSignature(SIGNATURE_LABEL, signature).Some? && fields.printInput(SIGNATURE_LABEL, list).Some?
    requires req.GetText("signature") == Ok(fields.printSignature(SIGNATURE_LABEL, signature).value)
    requires req.GetText("signature-input") == Ok(fields.printInput(SIGNATURE_LABEL, list).value)
    ensures ParseHeaders(fields, req) == Ok((signature, fields.serialize(list).value, list))
  {
  }

  /** The signer's data that the libraries have to accept. */
  ghost predicate Readable(fields: Fields, digest: Option<string>, keyId: string, created: int) {
    && fields.ReadsBack()
    && fields.lib.validKeyId(keyId) && fields.lib.validTimestamp(created)
    && (digest.Some? ==> fields.lib.parseContentDigest(digest.value).Some?)
  }

  /** The two headers of a signed request. */
  datatype SignedHeaderPair = SignedHeaderPair(base: string, signature: string, input: string)

  /** Signs the entries; None if something cannot be serialized. */
  function Sign(fields: Fields, method_: string, uri: string, digest: Option<string>, keyId: string, created: int,
                algorithm: string, sign: string -> Bytes): Option<SignedHeaderPair>
  {
    var es := SignedEntries(method_, uri, digest);
    var list := SignedList(es, keyId, created, algorithm);
    match fields.serialize(list)
    case None => None
    case Some(params) =>
      var base := Base(es + [(SIGNATURE_PARAMS, params)]);
      var signature := fields.printSignature(SIGNATURE_LABEL, sign(base));
      var input := fields.printInput(SIGNATURE_LABEL, list);
      if signature.None? || input.None? then None else Some(SignedHeaderPair(base, signature.value, input.value))
  }

  /**
    Sign, then verify: when the structured field library reads back what it
    wrote, the verifier rebuilds exactly the signed base and recovers the key
    ID, the signature and the content digest. A method that carries a body has
    to be signed with a digest; otherwise the request is rejected.
   */
  lemma RoundTrip(fields: Fields, method_: string, uri: string, path: string, query: Option<string>, authority: string,
                  digest: Option<string>, keyId: string, created: int, algorithm: string, sign: string -> Bytes)
    requires Readable(fields, digest, keyId, created)
    requires Sign(fields, method_, uri, digest, keyId, created, algorithm, sign).Some?
    ensures var h := Sign(fields, method_, uri, digest, keyId, created, algorithm, sign).value;
      var r := Parse(fields, SignedRequest(method_, uri, path, query, authority, digest, h.signature, h.input));
      var data := SignatureData(
        keyId, h.base, sign(h.base), created + SIGNATURE_EXPIRES_IN, authority,
        if HasBody(method_) && digest.Some? then fields.lib.parseContentDigest(digest.value) else None);
      if HasBody(method_) && digest.None? then r == Err(NoDigest) else r.Ok? && r.value.data == data
  {
    var h := Sign(fields, method_, uri, digest, keyId, created, algorithm, sign).value;
    var req := SignedRequest(method_, uri, path, query, authority, digest, h.signature, h.input);
    var es := SignedEntries(method_, uri, digest);
    SignedHeaders(method_, uri, path, query, authority, digest, h.signature, h.input);
    HeadersRoundTrip(fields, req, SignedList(es, keyId, created, algorithm), sign(h.base));
    ClaimsRoundTrip(fields.lib, req, es, keyId, created, algorithm);
    if HasBody(method_) && digest.None? {
      NoDigestFound(fields.lib, req, Names(es));
    } else {
      ReassembleRoundTrip(fields.lib, req, authority, digest);
    }
  }

  /**
    The signer as the program runs it. Whoever receives the signed request
    reads back the key ID, the signature and the base that was signed.
   */
  method CreateHttpSignature(fields: Fields, method_: string, uri: string, digest: Option<string>, keyId: string,
                             created: int, algorithm: string, sign: string -> Bytes,
                             ghost path: string, ghost query: Option<string>, ghost authority: string)
    returns (r: Option<SignedHeaderPair>)
    ensures r == Sign(fields, method_, uri, digest, keyId, created, algorithm, sign)
    ensures r.Some? && Readable(fields, digest, keyId, created) && (HasBody(method_) ==> digest.Some?) ==>
      var req := SignedRequest(method_, uri, path, query, authority, digest, r.value.signature, r.value.input);
      var parsed := Parse(fields, req);
      && parsed.Ok?
      && parsed.value.data.base == r.value.base
      && parsed.value.data.keyId == keyId
      && parsed.value.data.signature == sign(r.value.base)
  {
    var entries: Entries := [(METHOD, method_), (TARGET_URI, uri)];
    if digest.Some? {
      entries := entries + [(CONTENT_DIGEST, digest.value)];
    }
    assert entries == SignedEntries(method_, uri, digest);
    var list := SignedList(entries, keyId, created, algorithm);
    var params := fields.serialize(list);
    if params.None? {
      return None;
    }
    entries := entries + [(SIGNATURE_PARAMS, params.value)];
    var base := Base(entries);
    var input := fields.printInput(SIGNATURE_LABEL, list);
    var signature := fields.printSignature(SIGNATURE_LABEL, sign(base));
    if input.None? || signature.None? {
      return None;
    }
    r := Some(SignedHeaderPair(base, signature.value, input.value));
    if Readable(fields, digest, keyId, created) {
      RoundTrip(fields, method_, uri, path, query, authority, digest, keyId, created, algorithm, sign);
    }
  }

  // ---------------------------------------------------------------------
  // The wire format in full

  /** The values of the derived components, section 2.2 of RFC 9421. */
  lemma DerivedComponents(req: Request, authority: string)
    ensures ComponentValue(req, authority, "@method") == Ok(req.method_)
    ensures ComponentValue(req, authority, "@target-uri") == Ok(req.uri)
    ensures ComponentValue(req, authority, "@authority") == Ok(authority)
    ensures ComponentValue(req, authority, "@path") == Ok(req.path)
    ensures req.query.Some? ==>
      && ComponentValue(req, authority, "@query") == Ok("?" + req.query.value)
      && ComponentValue(req, authority, "@request-target") == Ok(req.path + "?" + req.query.value)
    ensures req.query.None? ==>
      && ComponentValue(req, authority, "@query") == Ok("?")
      && ComponentValue(req, authority, "@request-target") == Ok(req.path)
  {
    assert |"@method"| == 7 && |"@target-uri"| == 11 && |"@request-target"| == 15 && |"@path"| == 5;
    assert |"@query"| == 6 && |"@authority"| == 10;
    if req.query.Some? {
      ConcatThree(req.path, "?", req.query.value);
    } else {
      assert "?" + "" == "?" && req.path + "" == req.path;
    }
  }

  /** No other component whose name starts with '@' is accepted, and all others are headers. */
  lemma OtherComponents(req: Request, authority: string, id: string)
    requires id !in ["@method", "@target-uri", "@request-target", "@path", "@query", "@authority"]
    ensures id != [] && id[0] == '@' ==> ComponentValue(req, authority, id) == Err(UnsupportedComponent(id))
    ensures id == [] || id[0] != '@' ==> ComponentValue(req, authority, id) == req.GetText(id)
  {
  }

  /** The expiry of a signature: `expires` if it is given, else twelve hours after `created`; anything else is an error. */
  lemma ExpiryExactly(lib: Library, list: ParamList)
    ensures list.Param("expires").Some? ==>
      ExpiresAt(lib, list) == TimeOf(lib, list.Param("expires").value, 0)
    ensures list.Param("expires").None? && list.Param("created").Some? ==>
      ExpiresAt(lib, list) == TimeOf(lib, list.Param("created").value, 43200)
    ensures list.Param("expires").None? && list.Param("created").None? ==> ExpiresAt(lib, list) == Err(ParseError)
  {
  }

  /** A valid timestamp, moved by some seconds. */
  ghost function TimeOf(lib: Library, value: ParamValue, later: int): Result<int, Error> {
    match value
    case Int(t) => if lib.validTimestamp(t) then Ok(t + later) else Err(ParseError)
    case _ => Err(ParseError)
  }

  /** The text that is signed for a request without a body and for one with a body. */
  lemma SignedText(method_: string, uri: string, digest: string, params: string)
    ensures Base(SignedEntries(method_, uri, None) + [(SIGNATURE_PARAMS, params)]) ==
      "\"@method\": " + method_ + "\n" + ("\"@target-uri\": " + uri) + "\n" + ("\"@signature-params\": " + params)
    ensures Base(SignedEntries(method_, uri, Some(digest)) + [(SIGNATURE_PARAMS, params)]) ==
      "\"@method\": " + method_ + "\n" + ("\"@target-uri\": " + uri) + "\n" + ("\"content-digest\": " + digest) + "\n"
      + ("\"@signature-params\": " + params)
  {
    TextWithoutBody(method_, uri, params);
    TextWithBody(method_, uri, digest, params);
  }

  /** The lines of a signature base, section 2.5 of RFC 9421. */
  lemma SignedLines(method_: string, uri: string, digest: string, params: string)
    ensures Line((METHOD, method_)) == "\"@method\": " + method_
    ensures Line((TARGET_URI, uri)) == "\"@target-uri\": " + uri
    ensures Line((CONTENT_DIGEST, digest)) == "\"content-digest\": " + digest
    ensures Line((SIGNATURE_PARAMS, params)) == "\"@signature-params\": " + params
  {
    assert "\"" + METHOD + "\": " == "\"@method\": ";
    assert "\"" + TARGET_URI + "\": " == "\"@target-uri\": ";
    assert "\"" + CONTENT_DIGEST + "\": " == "\"content-digest\": ";
    assert "\"" + SIGNATURE_PARAMS + "\": " == "\"@signature-params\": ";
  }

  lemma TextWithoutBody(method_: string, uri: string, params: string)
    ensures Base(SignedEntries(method_, uri, None) + [(SIGNATURE_PARAMS, params)]) ==
      "\"@method\": " + method_ + "\n" + ("\"@target-uri\": " + uri) + "\n" + ("\"@signature-params\": " + params)
  {
    var es := SignedEntries(method_, uri, None) + [(SIGNATURE_PARAMS, params)];
    SignedLines(method_, uri, "", params);
    var m, u, p := Line((METHOD, method_)), Line((TARGET_URI, uri)), Line((SIGNATURE_PARAMS, params));
    assert LinesOf(es, Line) == [m, u, p];
    JoinThree(m, u, p, "\n");
  }

  lemma TextWithBody(method_: string, uri: string, digest: string, params: string)
    ensures Base(SignedEntries(method_, uri, Some(digest)) + [(SIGNATURE_PARAMS, params)]) ==
      "\"@method\": " + method_ + "\n" + ("\"@target-uri\": " + uri) + "\n" + ("\"content-digest\": " + digest) + "\n"
      + ("\"@signature-params\": " + params)
  {
    var es := SignedEntries(method_, uri, Some(digest)) + [(SIGNATURE_PARAMS, params)];
    SignedLines(method_, uri, digest, params);
    var m, u, d, p := Line((METHOD, method_)), Line((TARGET_URI, uri)), Line((CONTENT_DIGEST, digest)),
      Line((SIGNATURE_PARAMS, params));
    assert LinesOf(es, Line) == [m, u, d, p];
    JoinFour(m, u, d, p, "\n");
  }

  // ---------------------------------------------------------------------
  // Exactly which requests are accepted

  /** Components are available, and none is listed twice. */
  lemma {:induction false} RebuildExactly(req: Request, authority: string, components: seq<string>)
    ensures RebuildEntries(req, authority, components).Ok? <==>
      && (forall i, j :: 0 <= i < j < |components| ==> components[i] != components[j])
      && (forall i :: 0 <= i < |components| ==> ComponentValue(req, authority, components[i]).Ok?)
  {
    if components != [] {
      var n := |components| - 1;
      RebuildExactly(req, authority, components[..n]);
      if RebuildEntries(req, authority, components[..n]).Ok? {
        ListedTwice(req, authority, components, n);
      } else {
        assert forall i :: 0 <= i < n ==> components[..n][i] == components[i];
      }
    }
  }

  lemma ListedTwice(req: Request, authority: string, components: seq<string>, n: nat)
    requires n < |components| && RebuildEntries(req, authority, components[..n]).Ok?
    ensures var es := RebuildEntries(req, authority, components[..n]).value;
      Position(es, components[n]) < |es| <==> exists i :: 0 <= i < n && components[i] == components[n]
  {
    RebuildFacts(req, authority, components[..n]);
    var es := RebuildEntries(req, authority, components[..n]).value;
    assert |es| == |Names(es)| == n;
    forall i | 0 <= i < n ensures es[i].0 == components[i] {
      assert Names(es)[i] == components[..n][i];
    }
  }

  lemma {:induction false} ComponentIdsExactly(items: seq<Option<string>>, ids: seq<string>)
    ensures ComponentIds(items) == Some(ids) <==>
      |ids| == |items| && forall i :: 0 <= i < |items| ==> items[i] == Some(ids[i])
  {
    if items != [] {
      var n := |items| - 1;
      if |ids| == |items| {
        ComponentIdsExactly(items[..n], ids[..n]);
        assert ids == ids[..n] + [ids[n]];
      }
      if ComponentIds(items[..n]).Some? {
        ComponentIdsExactly(items[..n], ComponentIds(items[..n]).value);
      }
    }
  }

  /** What the two headers and the request say: `tag` labels the first signature and its parameters. */
  ghost predicate Says(fields: Fields, req: Request, tag: string, list: ParamList, a: Accepted) {
    && req.GetText("signature").Ok? && req.GetText("signature-input").Ok?
    && fields.firstSignature(req.GetText("signature").value) == Some((tag, Some(a.data.signature)))
    && fields.inputOf(req.GetText("signature-input").value, tag) == Some(Some(list))
    && fields.serialize(list) == Some(a.params)
    && list.Param("keyid") == Some(Str(a.data.keyId)) && fields.lib.validKeyId(a.data.keyId)
    && ExpiresAt(fields.lib, list) == Ok(a.data.expiresAt)
    && ComponentIds(list.items) == Some(a.components)
    && req.authority == Some(a.data.authority)
    && Covers(fields.lib, req, a)
  }

  ghost predicate Covers(lib: Library, req: Request, a: Accepted) {
    && "@method" in a.components && "@target-uri" in a.components
    && (if req.method_ == "POST" || req.method_ == "PUT" || req.method_ == "PATCH"
        then a.data.contentDigest.Some? && ReadFromSigned(lib, req, a.components, a.data.contentDigest)
        else a.data.contentDigest == None)
    && RebuildEntries(req, a.data.authority, a.components) == Ok(a.entries)
    && a.data.base == Base(a.entries + [("@signature-params", a.params)])
  }

  /** A request is accepted, with this result, exactly when it says so. */
  lemma AcceptedExactly(fields: Fields, req: Request, a: Accepted)
    ensures Parse(fields, req) == Ok(a) <==> exists tag, list :: Says(fields, req, tag, list, a)
  {
    if Parse(fields, req) == Ok(a) {
      AcceptedSays(fields, req, a);
    }
    if tag, list :| Says(fields, req, tag, list, a) {
      SaidIsAccepted(fields, req, tag, list, a);
    }
  }

  lemma AcceptedSays(fields: Fields, req: Request, a: Accepted)
    requires Parse(fields, req) == Ok(a)
    ensures exists tag, list :: Says(fields, req, tag, list, a)
  {
    ParseAccepts(fields, req);
    AcceptedIsCovered(fields, req);
    var (signature, params, list) := ParseHeaders(fields, req).value;
    var tag := HeadersSay(fields, req);
    ClaimsSay(fields.lib, req, list);
    assert Says(fields, req, tag, list, a);
  }

  lemma HeadersSay(fields: Fields, req: Request) returns (tag: string)
    requires ParseHeaders(fields, req).Ok?
    ensures var (signature, params, list) := ParseHeaders(fields, req).value;
      && req.GetText("signature").Ok? && req.GetText("signature-input").Ok?
      && fields.firstSignature(req.GetText("signature").value) == Some((tag, Some(signature)))
      && fields.inputOf(req.GetText("signature-input").value, tag) == Some(Some(list))
      && fields.serialize(list) == Some(params)
  {
    tag := fields.firstSignature(req.GetText("signature").value).value.0;
  }

  lemma ClaimsSay(lib: Library, req: Request, list: ParamList)
    requires ParseClaims(lib, req, list).Ok?
    ensures var (keyId, expiresAt, components, authority) := ParseClaims(lib, req, list).value;
      && list.Param("keyid") == Some(Str(keyId)) && lib.validKeyId(keyId)
      && ExpiresAt(lib, list) == Ok(expiresAt)
      && ComponentIds(list.items) == Some(components)
      && req.authority == Some(authority)
  {
  }

  lemma SaidIsAccepted(fields: Fields, req: Request, tag: string, list: ParamList, a: Accepted)
    requires Says(fields, req, tag, list, a)
    ensures Parse(fields, req) == Ok(a)
  {
    assert ParseHeaders(fields, req) == Ok((a.data.signature, a.params, list));
    assert ParseClaims(fields.lib, req, list) == Ok((a.data.keyId, a.data.expiresAt, a.components, a.data.authority));
    CoveredIsReassembled(fields.lib, req, a);
  }

  lemma CoveredIsReassembled(lib: Library, req: Request, a: Accepted)
    requires Covers(lib, req, a)
    ensures Reassemble(lib, req, a.data.authority, a.components) == Ok((a.entries, a.data.contentDigest))
  {
    if HasBody(req.method_) {
      ReadMeansFound(lib, req, a.components, a.data.contentDigest);
    }
  }
}
