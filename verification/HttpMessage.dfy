/** Requests as the signature code sees them, and the content digest rule shared by both signature schemes. */
module HttpMessage {
  import opened Wrappers
  import opened Text

  type Bytes = seq<nat>

  /** A header value converts to text, or contains bytes that do not. */
  datatype HeaderValue = Text(s: string) | Opaque

  datatype Digest = Digest(algorithm: string, bytes: Bytes)

  datatype Error =
    | NoSignature
    | MissingHeader(name: string)
    | InvalidHeader(name: string)
    | ParseError
    | MissingComponent(name: string)
    | UnsupportedComponent(name: string)
    | InvalidEncoding
    | NoDigest

  /** `headers` is keyed by lower-case names; the URI is kept both whole and in parts. */
  datatype Request = Request(
    method_: string,
    uri: string,
    path: string,
    query: Option<string>,
    authority: Option<string>,
    headers: map<string, HeaderValue>)
  {
    /** Header lookup ignores letter case. */
    function Get(name: string): Option<HeaderValue> {
      if ToLower(name) in headers then Some(headers[ToLower(name)]) else None
    }

    function GetText(name: string): Result<string, Error> {
      match Get(name)
      case None => Err(MissingHeader(name))
      case Some(Opaque) => Err(InvalidHeader(name))
      case Some(Text(s)) => Ok(s)
    }

    /** What the types of the HTTP library guarantee: no line breaks anywhere, methods and names are tokens. */
    ghost predicate WellTyped() {
      && ' ' !in method_ && '\n' !in method_
      && '\n' !in uri && '\n' !in path
      && (query.Some? ==> '\n' !in query.value)
      && (authority.Some? ==> '\n' !in authority.value)
      && (forall name :: name in headers ==> ':' !in name && '"' !in name && '\n' !in name)
      && (forall name :: name in headers && headers[name].Text? ==> '\n' !in headers[name].s)
    }
  }

  lemma GetTextFacts(req: Request, name: string)
    requires req.WellTyped() && req.GetText(name).Ok?
    ensures ':' !in name && '"' !in name && '\n' !in name
    ensures '\n' !in req.GetText(name).value
  {
    LowerKeeps(name, ':');
    LowerKeeps(name, '"');
    LowerKeeps(name, '\n');
  }

  /** Header lookup ignores letter case, and tells missing headers from those that are not text. */
  lemma GetTextExactly(req: Request, name: string)
    ensures ToLower(name) !in req.headers ==> req.GetText(name) == Err(MissingHeader(name))
    ensures ToLower(name) in req.headers ==>
      match req.headers[ToLower(name)]
      case Text(s) => req.GetText(name) == Ok(s)
      case Opaque => req.GetText(name) == Err(InvalidHeader(name))
  {
  }

  /** Parsers that live in other libraries. */
  datatype Library = Library(
    decodeBase64: string -> Option<Bytes>,
    validKeyId: string -> bool,
    parseInteger: string -> Option<int>,
    validTimestamp: int -> bool,
    parseDate: string -> Option<int>,
    parseDigest: string -> Option<Digest>,
    parseContentDigest: string -> Option<Digest>)

  // ---------------------------------------------------------------------
  // Content digest

  const DIGEST: string := "digest"
  const CONTENT_DIGEST: string := "content-digest"

  predicate HasBody(method_: string) {
    method_ == "POST" || method_ == "PUT" || method_ == "PATCH"
  }

  /** A signed header is preferred over an unsigned one, Content-Digest over Digest. */
  function DigestHeader(req: Request, components: seq<string>): string {
    if CONTENT_DIGEST in components then CONTENT_DIGEST
    else if DIGEST in components then DIGEST
    else if req.Get(CONTENT_DIGEST).Some? then CONTENT_DIGEST
    else DIGEST
  }

  function ParseDigestHeader(lib: Library, name: string, value: string): Option<Digest> {
    if name == DIGEST then lib.parseDigest(value) else lib.parseContentDigest(value)
  }

  /** The digest and the header it came from, for methods that carry a body. */
  function GetContentDigest(lib: Library, req: Request, components: seq<string>): Result<Option<(string, Digest)>, Error> {
    if !HasBody(req.method_) then Ok(None)
    else
      var name := DigestHeader(req, components);
      match req.Get(name)
      case None => Err(NoDigest)
      case Some(Opaque) => Err(InvalidHeader(name))
      case Some(Text(value)) =>
        match ParseDigestHeader(lib, name, value)
        case None => Err(InvalidHeader(name))
        case Some(digest) => Ok(Some((name, digest)))
  }

  /** The first required component that is not signed, if any. */
  function CheckRequiredComponents(components: seq<string>, required: seq<string>): (missing: Option<string>)
    ensures missing.None? <==> forall r :: r in required ==> r in components
    ensures missing.Some? ==> missing.value in required && missing.value !in components
  {
    if required == [] then None
    else if required[0] !in components then Some(required[0])
    else
      var rest := CheckRequiredComponents(components, required[1..]);
      assert required == [required[0]] + required[1..];
      rest
  }

  /** The digest was read from a signed header. */
  ghost predicate DigestSigned(lib: Library, req: Request, components: seq<string>, digest: Option<Digest>) {
    var name := if CONTENT_DIGEST in components then CONTENT_DIGEST else DIGEST;
    && name in components
    && req.GetText(name).Ok?
    && digest.Some?
    && ParseDigestHeader(lib, name, req.GetText(name).value) == digest
  }

  /** The digest is what the parser for the header reads from a signed one; Content-Digest is preferred over Digest. */
  ghost predicate ReadFromSigned(lib: Library, req: Request, components: seq<string>, digest: Option<Digest>) {
    || ("content-digest" in components && req.GetText("content-digest").Ok?
        && digest == lib.parseContentDigest(req.GetText("content-digest").value))
    || ("content-digest" !in components && "digest" in components && req.GetText("digest").Ok?
        && digest == lib.parseDigest(req.GetText("digest").value))
  }

  lemma SignedMeansRead(lib: Library, req: Request, components: seq<string>, digest: Option<Digest>)
    requires DigestSigned(lib, req, components, digest)
    ensures ReadFromSigned(lib, req, components, digest)
  {
    assert |"digest"| == 6 && |"content-digest"| == 14;
  }

  /** A digest that is read from a signed header is the one that counts, and its header is signed. */
  lemma ReadMeansFound(lib: Library, req: Request, components: seq<string>, digest: Option<Digest>)
    requires HasBody(req.method_) && digest.Some? && ReadFromSigned(lib, req, components, digest)
    ensures var r := GetContentDigest(lib, req, components);
      r.Ok? && r.value.Some? && r.value.value.0 in components && r.value.value.1 == digest.value
  {
    assert |"digest"| == 6 && |"content-digest"| == 14;
  }

  lemma SignedDigest(lib: Library, req: Request, components: seq<string>)
    requires GetContentDigest(lib, req, components).Ok? && GetContentDigest(lib, req, components).value.Some?
    requires GetContentDigest(lib, req, components).value.value.0 in components
    ensures DigestSigned(lib, req, components, Some(GetContentDigest(lib, req, components).value.value.1))
  {
  }

  lemma NoDigestFound(lib: Library, req: Request, components: seq<string>)
    requires HasBody(req.method_) && req.Get(CONTENT_DIGEST) == None && req.Get(DIGEST) == None
    ensures GetContentDigest(lib, req, components) == Err(NoDigest)
  {
  }

  // ---------------------------------------------------------------------
  // Ordered entry lists

  type Entries = seq<(string, string)>

  ghost predicate DistinctKeys(es: Entries) {
    forall i, j :: 0 <= i < j < |es| ==> es[i].0 != es[j].0
  }

  ghost predicate HasKey(es: Entries, key: string) {
    exists i :: 0 <= i < |es| && es[i].0 == key
  }

  /** Position of the key, or the length of the list. */
  function Position(es: Entries, key: string): (i: nat)
    ensures i <= |es|
    ensures forall j :: 0 <= j < i ==> es[j].0 != key
    ensures i < |es| ==> es[i].0 == key
  {
    if es == [] || es[0].0 == key then 0 else 1 + Position(es[1..], key)
  }

  /** Insertion into an insertion-ordered map: an existing key keeps its place. */
  function Insert(es: Entries, key: string, value: string): Entries {
    var i := Position(es, key);
    if i < |es| then es[i := (key, value)] else es + [(key, value)]
  }

  /** Insertion keeps keys distinct and adds exactly one; all other entries are as before. */
  lemma InsertFacts(es: Entries, key: string, value: string)
    ensures var r := Insert(es, key, value);
      && (DistinctKeys(es) ==> DistinctKeys(r))
      && (forall k :: HasKey(r, k) <==> HasKey(es, k) || k == key)
      && (forall i :: 0 <= i < |r| ==> r[i] == (key, value) || r[i] in es)
      && (forall i :: 0 <= i < |es| ==> r[i].0 == es[i].0)
  {
    var i := Position(es, key);
    var r := Insert(es, key, value);
    assert forall j :: 0 <= j < |es| ==> r[j].0 == es[j].0;
    assert i == |es| ==> r[|es|].0 == key;
  }

  function Names(es: Entries): seq<string> {
    seq(|es|, i requires 0 <= i < |es| => es[i].0)
  }

  lemma LastEntry(es: Entries, n: nat)
    requires n == |es| - 1
    ensures Names(es) == Names(es[..n]) + [es[n].0] && es == es[..n] + [es[n]]
  {
  }

  // ---------------------------------------------------------------------
  // Signature bases

  /** The lines of a signature base; the two schemes print an entry differently. */
  function LinesOf(es: Entries, line: ((string, string)) -> string): seq<string> {
    seq(|es|, i requires 0 <= i < |es| => line(es[i]))
  }

  function BaseOf(es: Entries, line: ((string, string)) -> string): string {
    Join(LinesOf(es, line), "\n")
  }

  /** A base determines its entries if a line determines its entry and stays on one line. */
  lemma BaseOfInjective(a: Entries, b: Entries, line: ((string, string)) -> string)
    requires a != [] && b != [] && BaseOf(a, line) == BaseOf(b, line)
    requires forall i :: 0 <= i < |a| ==> '\n' !in line(a[i])
    requires forall i :: 0 <= i < |b| ==> '\n' !in line(b[i])
    requires forall i, j :: 0 <= i < |a| && 0 <= j < |b| && line(a[i]) == line(b[j]) ==> a[i] == b[j]
    ensures a == b
  {
    var x, y := LinesOf(a, line), LinesOf(b, line);
    assert AllWithout(x, '\n') && AllWithout(y, '\n');
    JoinInjective(x, y, '\n');
    forall i | 0 <= i < |a| ensures |a| == |b| && a[i] == b[i] {
      assert x[i] == y[i];
    }
    assert |a| == |x| == |y| == |b|;
  }
}
