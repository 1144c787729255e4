/** Creating draft-cavage signatures, the parser in its imperative form, and the round trip between the two. */
module CavageSigning {
  import opened Wrappers
  import opened Text
  import opened HttpMessage
  import opened Cavage

  // ---------------------------------------------------------------------
  // The parser's loops

  method FillParameters(header: string) returns (params: Option<Params>)
    ensures params == ParseParams(Split(header, ','))
  {
    var items := Split(header, ',');
    var filled: Params := map[];
    for i := 0 to |items|
      invariant ParseParams(items[..i]) == Some(filled)
    {
      assert items[..i + 1][..i] == items[..i];
      var param := ParseParam(items[i]);
      if param.None? {
        NoneStays(items, i + 1);
        return None;
      }
      filled := filled[param.value.0 := param.value.1];
    }
    assert items[..|items|] == items;
    return Some(filled);
  }

  lemma {:induction false} NoneStays(items: seq<string>, i: nat)
    requires i <= |items| && ParseParams(items[..i]).None?
    ensures ParseParams(items).None?
  {
    if i == |items| {
      assert items[..i] == items;
    } else {
      var n := |items| - 1;
      assert items[..n][..i] == items[..i];
      NoneStays(items[..n], i);
    }
  }

  method FillEntries(req: Request, params: Params, headers: seq<string>) returns (entries: Result<Entries, Error>)
    ensures entries == RebuildEntries(req, params, headers)
  {
    var filled: Entries := [];
    for i := 0 to |headers|
      invariant RebuildEntries(req, params, headers[..i]) == Ok(filled)
    {
      assert headers[..i + 1][..i] == headers[..i];
      var value := ComponentValue(req, params, headers[i]);
      if value.Err? {
        ErrorStays(req, params, headers, i + 1);
        return Err(value.error);
      }
      filled := Insert(filled, headers[i], value.value);
    }
    assert headers[..|headers|] == headers;
    return Ok(filled);
  }

  lemma {:induction false} ErrorStays(req: Request, params: Params, headers: seq<string>, i: nat)
    requires i <= |headers| && RebuildEntries(req, params, headers[..i]).Err?
    ensures RebuildEntries(req, params, headers) == RebuildEntries(req, params, headers[..i])
  {
    if i == |headers| {
      assert headers[..i] == headers;
    } else {
      var n := |headers| - 1;
      assert headers[..n][..i] == headers[..i];
      ErrorStays(req, params, headers[..n], i);
    }
  }

  // ---------------------------------------------------------------------
  // The signer

  function SignedEntries(method_: string, path: string, host: string, date: string, digest: Option<string>): Entries {
    [(REQUEST_TARGET, RequestTarget(method_, path)), ("host", host), ("date", date)]
    + (if digest.Some? then [(DIGEST, digest.value)] else [])
  }

  function Quoted(key: string, value: string): string {
    key + "=\"" + value + "\""
  }

  function HeaderText(keyId: string, algorithm: string, headers: string, signature: string): string {
    Quoted("keyId", keyId) + "," + Quoted("algorithm", algorithm) + ","
    + Quoted("headers", headers) + "," + Quoted("signature", signature)
  }

  // ---------------------------------------------------------------------
  // Round trip

  lemma QuotedParses(key: string, value: string)
    requires key != [] && (forall k :: 0 <= k < |key| ==> IsLetter(key[k])) && '\n' !in value
    ensures ParseParam(Quoted(key, value)) == Some((key, value))
  {
    var rest := "\"" + value + "\"";
    assert Quoted(key, value) == key + "=" + rest;
    ParamBuilt(Quoted(key, value), key, rest);
    QuotesRemoved(value);
  }

  lemma ParamBuilt(item: string, key: string, raw: string)
    requires item == key + "=" + raw && raw != [] && '\n' !in raw
    requires key != [] && forall k :: 0 <= k < |key| ==> IsLetter(key[k])
    ensures ParseParam(item) == Some((key, RemoveQuotes(raw)))
  {
    assert '=' !in key;
    FirstIndexAt(key, '=', raw);
    assert item[..|key|] == key && item[|key| + 1..] == raw;
  }

  lemma HeaderSplits(keyId: string, algorithm: string, headers: string, signature: string)
    requires ',' !in keyId && ',' !in algorithm && ',' !in headers && ',' !in signature
    ensures Split(HeaderText(keyId, algorithm, headers, signature), ',') ==
      [Quoted("keyId", keyId), Quoted("algorithm", algorithm), Quoted("headers", headers), Quoted("signature", signature)]
  {
    var a, b, c, d :=
      Quoted("keyId", keyId), Quoted("algorithm", algorithm), Quoted("headers", headers), Quoted("signature", signature);
    assert HeaderText(keyId, algorithm, headers, signature) == a + "," + b + "," + c + "," + d;
    QuotedWithoutComma("keyId", keyId);
    QuotedWithoutComma("algorithm", algorithm);
    QuotedWithoutComma("headers", headers);
    QuotedWithoutComma("signature", signature);
    SplitFour(a, b, c, d);
  }

  lemma QuotedWithoutComma(key: string, value: string)
    requires ',' !in key && ',' !in value
    ensures ',' !in Quoted(key, value)
  {
  }

  lemma SplitFour(a: string, b: string, c: string, d: string)
    requires ',' !in a && ',' !in b && ',' !in c && ',' !in d
    ensures Split(a + "," + b + "," + c + "," + d, ',') == [a, b, c, d]
  {
    assert a + "," + b + "," + c + "," + d == a + [','] + (b + [','] + (c + [','] + d));
    SplitPrefix(a, b + [','] + (c + [','] + d), ',');
    SplitPrefix(b, c + [','] + d, ',');
    SplitPrefix(c, d, ',');
    SplitSingle(d, ',');
  }

  ghost function SignedParams(keyId: string, algorithm: string, headers: string, signature: string): Params {
    map["keyId" := keyId, "algorithm" := algorithm, "headers" := headers, "signature" := signature]
  }

  lemma HeaderParses(keyId: string, algorithm: string, headers: string, signature: string)
    requires '\n' !in keyId && '\n' !in algorithm && '\n' !in headers && '\n' !in signature
    ensures ParseParams([Quoted("keyId", keyId), Quoted("algorithm", algorithm),
                         Quoted("headers", headers), Quoted("signature", signature)])
      == Some(SignedParams(keyId, algorithm, headers, signature))
  {
    var a, b, c, d :=
      Quoted("keyId", keyId), Quoted("algorithm", algorithm), Quoted("headers", headers), Quoted("signature", signature);
    QuotedParses("keyId", keyId);
    QuotedParses("algorithm", algorithm);
    QuotedParses("headers", headers);
    QuotedParses("signature", signature);
    ParamsOfFour(a, b, c, d);
  }

  lemma ParamsOfFour(a: string, b: string, c: string, d: string)
    requires ParseParam(a).Some? && ParseParam(b).Some? && ParseParam(c).Some? && ParseParam(d).Some?
    ensures var p, q, r, t := ParseParam(a).value, ParseParam(b).value, ParseParam(c).value, ParseParam(d).value;
      ParseParams([a, b, c, d]) == Some(map[p.0 := p.1][q.0 := q.1][r.0 := r.1][t.0 := t.1])
  {
    assert [] + [a] == [a] && [a] + [b] == [a, b] && [a, b] + [c] == [a, b, c] && [a, b, c] + [d] == [a, b, c, d];
    ParamsAppend([], a);
    ParamsAppend([a], b);
    ParamsAppend([a, b], c);
    ParamsAppend([a, b, c], d);
  }

  lemma ParamsAppend(items: seq<string>, item: string)
    requires ParseParams(items).Some? && ParseParam(item).Some?
    ensures ParseParams(items + [item]) == Some(ParseParams(items).value[ParseParam(item).value.0 := ParseParam(item).value.1])
  {
    assert (items + [item])[..|items + [item]| - 1] == items;
  }

  /** Every entry has the value that the request gives to its name. */
  ghost predicate HasValues(req: Request, params: Params, es: Entries) {
    forall i :: 0 <= i < |es| ==> ComponentValue(req, params, es[i].0) == Ok(es[i].1)
  }

  lemma LastValue(req: Request, params: Params, es: Entries, n: nat)
    requires DistinctKeys(es) && HasValues(req, params, es) && n == |es| - 1
    ensures DistinctKeys(es[..n]) && HasValues(req, params, es[..n])
    ensures ComponentValue(req, params, es[n].0) == Ok(es[n].1)
    ensures forall i :: 0 <= i < n ==> es[..n][i].0 != es[n].0
  {
  }

  /** Distinct headers are entered in the order in which they are listed. */
  lemma {:induction false} DistinctHeadersInOrder(req: Request, params: Params, es: Entries)
    requires DistinctKeys(es) && HasValues(req, params, es)
    ensures RebuildEntries(req, params, Names(es)) == Ok(es)
  {
    if es != [] {
      var n := |es| - 1;
      LastValue(req, params, es, n);
      DistinctHeadersInOrder(req, params, es[..n]);
      LastEntry(es, n);
      RebuildSnoc(req, params, Names(es[..n]), es[..n], es[n], Names(es), es);
    }
  }

  lemma RebuildSnoc(req: Request, params: Params, headers: seq<string>, es: Entries, e: (string, string),
                    headers': seq<string>, es': Entries)
    requires RebuildEntries(req, params, headers) == Ok(es) && ComponentValue(req, params, e.0) == Ok(e.1)
    requires forall i :: 0 <= i < |es| ==> es[i].0 != e.0
    requires headers' == headers + [e.0] && es' == es + [e]
    ensures RebuildEntries(req, params, headers') == Ok(es')
  {
    assert headers'[..|headers'| - 1] == headers;
    assert Position(es, e.0) == |es|;
  }

  /** The request as sent: the signed headers plus the Signature header. */
  ghost function SignedRequest(method_: string, uri: string, path: string, host: string, date: string,
                               digest: Option<string>, header: string): Request
  {
    var headers := map["host" := HttpMessage.Text(host), "date" := HttpMessage.Text(date),
                       "signature" := HttpMessage.Text(header)];
    Request(method_, uri, path, None, None,
            if digest.Some? then headers[DIGEST := HttpMessage.Text(digest.value)] else headers)
  }

  lemma LowerNames()
    ensures ToLower("host") == "host" == ToLower("Host") && ToLower("date") == "date"
    ensures ToLower("signature") == "signature" && ToLower(DIGEST) == DIGEST
  {
  }

  /** What the libraries have to get right for one particular signed message. */
  ghost predicate LibraryOk(lib: Library, keyId: string, date: string, digest: Option<string>,
                            signature: Bytes, encoded: string)
  {
    && lib.decodeBase64(encoded) == Some(signature)
    && ',' !in encoded && '\n' !in encoded
    && lib.validKeyId(keyId)
    && lib.parseDate(date).Some?
    && (digest.Some? ==> lib.parseDigest(digest.value).Some?)
  }

  /** Key ID and algorithm fit into the header, and the libraries do their part. */
  ghost predicate Readable(lib: Library, keyId: string, algorithm: string, date: string, digest: Option<string>,
                           signature: Bytes, encoded: string)
  {
    && ',' !in keyId && '\n' !in keyId
    && ',' !in algorithm && '\n' !in algorithm
    && LibraryOk(lib, keyId, date, digest, signature, encoded)
  }

  /** The verifier finds for every signed header the value that the signer used. */
  lemma SignedValues(method_: string, uri: string, path: string, host: string, date: string, digest: Option<string>,
                     header: string, params: Params)
    ensures var req := SignedRequest(method_, uri, path, host, date, digest, header);
      var es := SignedEntries(method_, path, host, date, digest);
      && DistinctKeys(es)
      && HasValues(req, params, es)
      && req.GetText("Host") == Ok(host) && req.GetText("date") == Ok(date)
      && SignatureHeader(req) == Ok(header)
  {
    LowerNames();
    var es := SignedEntries(method_, path, host, date, digest);
    assert REQUEST_TARGET[0] == CREATED[0] == EXPIRES[0] == '(';
    assert "host"[0] == 'h' && "date"[0] == DIGEST[0] == 'd' && |DIGEST| == 6 && |"date"| == 4;
  }

  lemma NamesSplit(es: Entries)
    requires es != [] && forall i :: 0 <= i < |es| ==> ' ' !in es[i].0 && ',' !in es[i].0 && '\n' !in es[i].0
    ensures Split(Join(Names(es), " "), ' ') == Names(es)
    ensures ',' !in Join(Names(es), " ") && '\n' !in Join(Names(es), " ")
  {
    SplitJoin(Names(es), ' ');
    JoinWithout(Names(es), " ", ',');
    JoinWithout(Names(es), " ", '\n');
  }

  lemma {:induction false} JoinWithout(parts: seq<string>, sep: string, c: char)
    requires AllWithout(parts, c) && c !in sep
    ensures c !in Join(parts, sep)
  {
    if |parts| > 1 {
      JoinWithout(parts[1..], sep, c);
    }
  }

  /** The Signature header gives back the key ID, the header list and the signature. */
  lemma FieldsRoundTrip(lib: Library, req: Request, keyId: string, algorithm: string, headers: string,
                        signature: Bytes, encoded: string, host: string, date: string)
    requires ',' !in keyId && ',' !in algorithm && ',' !in headers && ',' !in encoded
    requires '\n' !in keyId && '\n' !in algorithm && '\n' !in headers && '\n' !in encoded
    requires lib.decodeBase64(encoded) == Some(signature) && lib.validKeyId(keyId) && lib.parseDate(date).Some?
    requires SignatureHeader(req) == Ok(HeaderText(keyId, algorithm, headers, encoded))
    requires req.GetText("Host") == Ok(host) && req.GetText("date") == Ok(date)
    ensures var r := ParseFields(lib, req);
      && r.Ok?
      && r.value.keyId == keyId
      && r.value.components == Split(headers, ' ')
      && r.value.signature == signature
      && r.value.authority == host
      && r.value.expiresAt == lib.parseDate(date).value + SIGNATURE_EXPIRES_IN
  {
    var header := HeaderText(keyId, algorithm, headers, encoded);
    var params := SignedParams(keyId, algorithm, headers, encoded);
    HeaderSplits(keyId, algorithm, headers, encoded);
    HeaderParses(keyId, algorithm, headers, encoded);
    ParamsLookup(keyId, algorithm, headers, encoded);
    DateIsRead(lib, req, params, date);
    FieldsAreRead(lib, req, header, params, keyId, headers, encoded, signature, host);
  }

  lemma SignedNames(method_: string, path: string, host: string, date: string, digest: Option<string>)
    ensures var es := SignedEntries(method_, path, host, date, digest);
      && Split(Join(Names(es), " "), ' ') == Names(es)
      && ',' !in Join(Names(es), " ") && '\n' !in Join(Names(es), " ")
  {
    NamesSplit(SignedEntries(method_, path, host, date, digest));
  }

  lemma FieldsAreRead(lib: Library, req: Request, header: string, params: Params, keyId: string, headers: string,
                      encoded: string, signature: Bytes, host: string)
    requires SignatureHeader(req) == Ok(header) && ParseParams(Split(header, ',')) == Some(params)
    requires Param(params, "keyId") == Ok(keyId) && lib.validKeyId(keyId)
    requires Param(params, "headers") == Ok(headers)
    requires Param(params, "signature") == Ok(encoded) && lib.decodeBase64(encoded) == Some(signature)
    requires req.GetText("Host") == Ok(host)
    requires CreatedAt(lib, req, params).Ok? && ExpiresAt(lib, params, CreatedAt(lib, req, params).value).Ok?
    ensures ParseFields(lib, req) ==
      Ok(Fields(header, params, keyId, Split(headers, ' '), signature, host,
                ExpiresAt(lib, params, CreatedAt(lib, req, params).value).value))
  {
  }

  lemma ParamsLookup(keyId: string, algorithm: string, headers: string, signature: string)
    ensures var params := SignedParams(keyId, algorithm, headers, signature);
      && Param(params, "keyId") == Ok(keyId)
      && Param(params, "headers") == Ok(headers)
      && Param(params, "signature") == Ok(signature)
      && "created" !in params && "expires" !in params
  {
    assert |"keyId"| == 5 && |"algorithm"| == 9 && |"headers"| == 7 && |"signature"| == 9;
    assert "algorithm"[0] == 'a' && "signature"[0] == 's' && "created"[0] == 'c' && "expires"[0] == 'e' && "headers"[0] == 'h';
  }

  lemma DateIsRead(lib: Library, req: Request, params: Params, date: string)
    requires "created" !in params && "expires" !in params
    requires req.GetText("date") == Ok(date) && lib.parseDate(date).Some?
    ensures CreatedAt(lib, req, params) == Ok(lib.parseDate(date).value)
    ensures ExpiresAt(lib, params, lib.parseDate(date).value) == Ok(lib.parseDate(date).value + SIGNATURE_EXPIRES_IN)
  {
  }

  /**
    Sign, then verify: for every method, path, host, date and comma-free key ID,
    with a digest whenever the method carries a body, the verifier recovers the
    key ID and the signature, rebuilds exactly the signed base, and lets the
    signature expire twelve hours after the date.
   */
  lemma RoundTrip(lib: Library, method_: string, uri: string, path: string, host: string, date: string,
                  digest: Option<string>, keyId: string, algorithm: string, signature: Bytes, encoded: string)
    requires Readable(lib, keyId, algorithm, date, digest, signature, encoded)
    requires HasBody(method_) ==> digest.Some?
    ensures var es := SignedEntries(method_, path, host, date, digest);
      var header := HeaderText(keyId, algorithm, Join(Names(es), " "), encoded);
      var r := Parse(lib, SignedRequest(method_, uri, path, host, date, digest, header));
      && r.Ok?
      && r.value.components == Names(es)
      && r.value.data == SignatureData(keyId, Base(es), signature, lib.parseDate(date).value + SIGNATURE_EXPIRES_IN, host,
                                       if HasBody(method_) then lib.parseDigest(digest.value) else None)
  {
    var es := SignedEntries(method_, path, host, date, digest);
    var header := HeaderText(keyId, algorithm, Join(Names(es), " "), encoded);
    var req := SignedRequest(method_, uri, path, host, date, digest, header);
    SignedNames(method_, path, host, date, digest);
    SignedValues(method_, uri, path, host, date, digest, header, map[]);
    FieldsRoundTrip(lib, req, keyId, algorithm, Join(Names(es), " "), signature, encoded, host, date);
    ReassembleRoundTrip(lib, method_, uri, path, host, date, digest, header, ParseFields(lib, req).value.params);
  }

  /** A method that carries a body has to be signed with a digest: otherwise the verifier rejects the request. */
  lemma MissingDigestRejected(lib: Library, method_: string, uri: string, path: string, host: string, date: string,
                              keyId: string, algorithm: string, signature: Bytes, encoded: string)
    requires Readable(lib, keyId, algorithm, date, None, signature, encoded) && HasBody(method_)
    ensures var es := SignedEntries(method_, path, host, date, None);
      var header := HeaderText(keyId, algorithm, Join(Names(es), " "), encoded);
      Parse(lib, SignedRequest(method_, uri, path, host, date, None, header)) == Err(NoDigest)
  {
    var es := SignedEntries(method_, path, host, date, None);
    var header := HeaderText(keyId, algorithm, Join(Names(es), " "), encoded);
    var req := SignedRequest(method_, uri, path, host, date, None, header);
    SignedNames(method_, path, host, date, None);
    SignedValues(method_, uri, path, host, date, None, header, map[]);
    FieldsRoundTrip(lib, req, keyId, algorithm, Join(Names(es), " "), signature, encoded, host, date);
    NoDigestHeader(req);
    NoDigestFound(lib, req, Names(es));
  }

  lemma NoDigestHeader(req: Request)
    requires req.headers.Keys == {"host", "date", "signature"}
    ensures req.Get(CONTENT_DIGEST) == None && req.Get(DIGEST) == None
  {
    assert ToLower(DIGEST) == DIGEST && ToLower(CONTENT_DIGEST) == CONTENT_DIGEST;
    assert |DIGEST| == 6 && |CONTENT_DIGEST| == 14 && |"host"| == 4 && |"date"| == 4 && |"signature"| == 9;
  }

  lemma ReassembleRoundTrip(lib: Library, method_: string, uri: string, path: string, host: string, date: string,
                            digest: Option<string>, header: string, params: Params)
    requires digest.Some? ==> lib.parseDigest(digest.value).Some?
    requires HasBody(method_) ==> digest.Some?
    ensures var es := SignedEntries(method_, path, host, date, digest);
      Reassemble(lib, SignedRequest(method_, uri, path, host, date, digest, header), params, Names(es))
      == Ok((es, if HasBody(method_) then lib.parseDigest(digest.value) else None))
  {
    var es := SignedEntries(method_, path, host, date, digest);
    var req := SignedRequest(method_, uri, path, host, date, digest, header);
    SignedValues(method_, uri, path, host, date, digest, header, params);
    DistinctHeadersInOrder(req, params, es);
    SignedDigestRead(lib, method_, uri, path, host, date, digest, header);
    ReassembleFrom(lib, req, params, Names(es), es);
  }

  lemma SignedDigestRead(lib: Library, method_: string, uri: string, path: string, host: string, date: string,
                         digest: Option<string>, header: string)
    requires digest.Some? ==> lib.parseDigest(digest.value).Some?
    requires HasBody(method_) ==> digest.Some?
    ensures var req := SignedRequest(method_, uri, path, host, date, digest, header);
      var names := Names(SignedEntries(method_, path, host, date, digest));
      && REQUEST_TARGET in names && "host" in names
      && (HasBody(method_) ==> DIGEST in names)
      && GetContentDigest(lib, req, names) ==
           Ok(if HasBody(method_) then Some((DIGEST, lib.parseDigest(digest.value).value)) else None)
  {
    var names := Names(SignedEntries(method_, path, host, date, digest));
    assert names[0] == REQUEST_TARGET && names[1] == "host" && names[2] == "date";
    if HasBody(method_) {
      LowerNames();
      assert names[3] == DIGEST;
      DigestIsSigned(lib, SignedRequest(method_, uri, path, host, date, digest, header), names, digest.value);
    }
  }

  lemma ReassembleFrom(lib: Library, req: Request, params: Params, components: seq<string>, entries: Entries)
    requires GetContentDigest(lib, req, components).Ok?
    requires REQUEST_TARGET in components && "host" in components
    requires var digest := GetContentDigest(lib, req, components).value; digest.Some? ==> digest.value.0 in components
    requires RebuildEntries(req, params, components) == Ok(entries)
    ensures var digest := GetContentDigest(lib, req, components).value;
      Reassemble(lib, req, params, components) == Ok((entries, if digest.Some? then Some(digest.value.1) else None))
  {
  }

  lemma DigestIsSigned(lib: Library, req: Request, names: seq<string>, value: string)
    requires HasBody(req.method_) && |names| == 4 && names[3] == DIGEST
    requires forall i :: 0 <= i < 3 ==> |names[i]| != 14
    requires req.Get(DIGEST) == Some(HttpMessage.Text(value)) && lib.parseDigest(value).Some?
    ensures GetContentDigest(lib, req, names) == Ok(Some((DIGEST, lib.parseDigest(value).value)))
  {
    assert |CONTENT_DIGEST| == 14 && |DIGEST| == 6;
    assert CONTENT_DIGEST !in names;
    assert names[3] in names;
  }

  /** A key ID with a comma is never recovered: what the parser reads is free of commas. */
  lemma ParsedKeyIdHasNoComma(lib: Library, req: Request)
    requires Parse(lib, req).Ok?
    ensures ',' !in Parse(lib, req).value.data.keyId
  {
    ParseAccepts(lib, req);
    var a := Parse(lib, req).value;
    SplitWithout(a.header, ',');
    ParamsFacts(Split(a.header, ','));
  }

  // ---------------------------------------------------------------------
  // The signer and the parser as the program runs them

  /**
    Returns the signed base and the Signature header. Whoever receives the
    signed request, under whatever query, reads back the key ID, the signature
    and the base that was signed.
   */
  method CreateHttpSignature(method_: string, path: string, host: string, date: string, digest: Option<string>,
                             keyId: string, algorithm: string, sign: string -> Bytes, encode: Bytes -> string,
                             ghost lib: Library, ghost uri: string, ghost query: Option<string>)
    returns (base: string, header: string)
    ensures header == HeaderText(keyId, algorithm,
                                 Join(Names(SignedEntries(method_, path, host, date, digest)), " "), encode(sign(base)))
    ensures Readable(lib, keyId, algorithm, date, digest, sign(base), encode(sign(base))) ==>
      var r := Parse(lib, SignedRequest(method_, uri, path, host, date, digest, header).(query := query));
      var data := SignatureData(keyId, base, sign(base), lib.parseDate(date).value + SIGNATURE_EXPIRES_IN, host,
                                if HasBody(method_) && digest.Some? then lib.parseDigest(digest.value) else None);
      if HasBody(method_) && digest.None? then r == Err(NoDigest) else r.Ok? && r.value.data == data
  {
    var headers: Entries := [(REQUEST_TARGET, RequestTarget(method_, path)), ("host", host), ("date", date)];
    if digest.Some? {
      headers := headers + [(DIGEST, digest.value)];
    }
    assert headers == SignedEntries(method_, path, host, date, digest);
    base := Base(headers);
    header := HeaderText(keyId, algorithm, Join(Names(headers), " "), encode(sign(base)));
    TargetNotSigned(lib, SignedRequest(method_, uri, path, host, date, digest, header), query, uri);
    if Readable(lib, keyId, algorithm, date, digest, sign(base), encode(sign(base))) {
      if HasBody(method_) && digest.None? {
        MissingDigestRejected(lib, method_, uri, path, host, date, keyId, algorithm, sign(base), encode(sign(base)));
      } else {
        RoundTrip(lib, method_, uri, path, host, date, digest, keyId, algorithm, sign(base), encode(sign(base)));
      }
    }
  }

  /** The parser, with its loops over the parameters and over the signed headers. */
  method ParseHttpSignature(lib: Library, req: Request) returns (r: Result<Accepted, Error>)
    ensures r == Parse(lib, req)
  {
    var fields :- ReadFields(lib, req);
    var digest :- GetContentDigest(lib, req, fields.components);
    var required := [REQUEST_TARGET, "host"];
    if digest.Some? {
      required := required + [digest.value.0];
    }
    assert required == [REQUEST_TARGET, "host"] + (if digest.Some? then [digest.value.0] else []);
    var missing := CheckRequiredComponents(fields.components, required);
    if missing.Some? {
      return Err(MissingComponent(missing.value));
    }
    var entries :- FillEntries(req, fields.params, fields.components);
    return Ok(Accepted(fields.header, fields.params, fields.components, entries,
                       SignatureData(fields.keyId, Base(entries), fields.signature, fields.expiresAt, fields.authority,
                                     if digest.Some? then Some(digest.value.1) else None)));
  }

  /** The first half of the parser: everything that is read from the Signature header, the Host and the Date. */
  method ReadFields(lib: Library, req: Request) returns (r: Result<Fields, Error>)
    ensures r == ParseFields(lib, req)
  {
    var header :- SignatureHeader(req);
    var filled := FillParameters(header);
    var params :- filled.ToResult(InvalidHeader("Signature"));
    var keyId :- Param(params, "keyId");
    if !lib.validKeyId(keyId) {
      return Err(ParseError);
    }
    var headers :- Param(params, "headers");
    var signatureText :- Param(params, "signature");
    var signature :- lib.decodeBase64(signatureText).ToResult(InvalidEncoding);
    var authority :- req.GetText("Host");
    var createdAt :- CreatedAt(lib, req, params);
    var expiresAt :- ExpiresAt(lib, params, createdAt);
    return Ok(Fields(header, params, keyId, Split(headers, ' '), signature, authority, expiresAt));
  }

  // ---------------------------------------------------------------------
  // The wire format in full

  /** The text that is signed for a request without a body and for one with a body. */
  lemma SignedText(method_: string, path: string, host: string, date: string, digest: string)
    ensures Base(SignedEntries(method_, path, host, date, None)) ==
      "(request-target): " + (ToLower(method_) + " " + path) + "\n" + ("host: " + host) + "\n" + ("date: " + date)
    ensures Base(SignedEntries(method_, path, host, date, Some(digest))) ==
      "(request-target): " + (ToLower(method_) + " " + path) + "\n" + ("host: " + host) + "\n" + ("date: " + date) + "\n"
      + ("digest: " + digest)
  {
    var r, h, d, g := "(request-target): " + (ToLower(method_) + " " + path), "host: " + host, "date: " + date,
      "digest: " + digest;
    assert Line((REQUEST_TARGET, RequestTarget(method_, path))) == r && Line(("host", host)) == h;
    assert Line(("date", date)) == d && Line((DIGEST, digest)) == g;
    assert LinesOf(SignedEntries(method_, path, host, date, None), Line) == [r, h, d];
    assert LinesOf(SignedEntries(method_, path, host, date, Some(digest)), Line) == [r, h, d, g];
    JoinThree(r, h, d, "\n");
    JoinFour(r, h, d, g, "\n");
  }

  /** The Signature header. */
  lemma HeaderTextExactly(keyId: string, algorithm: string, headers: string, signature: string)
    ensures HeaderText(keyId, algorithm, headers, signature) ==
      ("keyId=\"" + keyId + "\"") + "," + ("algorithm=\"" + algorithm + "\"") + ","
      + ("headers=\"" + headers + "\"") + "," + ("signature=\"" + signature + "\"")
  {
  }

  /** The values of the signed components: request target, the two parameters, and headers. */
  lemma ComponentsExactly(req: Request, params: Params, header: string)
    ensures ComponentValue(req, params, "(request-target)") == Ok(ToLower(req.method_) + " " + req.path)
    ensures ComponentValue(req, params, "(created)") ==
      if "created" in params then Ok(params["created"]) else Err(ParseError)
    ensures ComponentValue(req, params, "(expires)") ==
      if "expires" in params then Ok(params["expires"]) else Err(ParseError)
    ensures header !in ["(request-target)", "(created)", "(expires)"] ==>
      ComponentValue(req, params, header) == req.GetText(header)
  {
    assert |"(request-target)"| == 16 && "(created)"[1] == 'c' && "(expires)"[1] == 'e';
  }

  /**
    The expiry of a signature: the `expires` parameter if it is given, else
    twelve hours after the `created` parameter, or after the Date header if
    there is none.
   */
  lemma ExpiryExactly(lib: Library, req: Request, params: Params)
    ensures "created" in params ==> CreatedAt(lib, req, params) == TimeOf(lib, params["created"])
    ensures "created" !in params && req.GetText("date").Ok? ==>
      CreatedAt(lib, req, params) == lib.parseDate(req.GetText("date").value).ToResult(InvalidHeader("Date"))
    ensures "created" !in params && req.GetText("date").Err? ==>
      CreatedAt(lib, req, params) == Err(req.GetText("date").error)
    ensures forall createdAt :: "expires" in params ==> ExpiresAt(lib, params, createdAt) == TimeOf(lib, params["expires"])
    ensures forall createdAt :: "expires" !in params ==> ExpiresAt(lib, params, createdAt) == Ok(createdAt + 43200)
  {
  }

  ghost function TimeOf(lib: Library, text: string): Result<int, Error> {
    match lib.parseInteger(text)
    case None => Err(ParseError)
    case Some(t) => if lib.validTimestamp(t) then Ok(t) else Err(ParseError)
  }

  /** A parameter is a key of letters, '=', and a value on one line, from which enclosing quotes are removed. */
  lemma ParamExactly(item: string, key: string, value: string)
    ensures ParseParam(item) == Some((key, value)) <==>
      && key != [] && (forall k :: 0 <= k < |key| ==> IsLetter(key[k]))
      && exists raw :: item == key + "=" + raw && raw != [] && '\n' !in raw && value == RemoveQuotes(raw)
  {
    if ParseParam(item) == Some((key, value)) {
      var i := FirstIndex(item, '=');
      assert item == item[..i] + "=" + item[i + 1..];
    }
    if raw :| item == key + "=" + raw && raw != [] && '\n' !in raw && value == RemoveQuotes(raw) {
      if key != [] && forall k :: 0 <= k < |key| ==> IsLetter(key[k]) {
        ParamBuilt(item, key, raw);
      }
    }
  }

  /** Quotes are removed if there is one at either end. */
  lemma QuotesRemoved(value: string)
    ensures RemoveQuotes("\"" + value + "\"") == value
    ensures (forall inner :: value != "\"" + inner + "\"") ==> RemoveQuotes(value) == value
  {
    var quoted := "\"" + value + "\"";
    assert quoted[1..|quoted| - 1] == value;
    if |value| >= 2 && value[0] == '"' && value[|value| - 1] == '"' {
      assert value == "\"" + value[1..|value| - 1] + "\"";
    }
  }
}
