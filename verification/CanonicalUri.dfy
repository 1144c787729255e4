/** Canonical and compatible forms of identifiers (FEP-ef61). */
module CanonicalUri {
  import opened Wrappers
  import opened Text
  import opened Uri

  const GATEWAY_PATH_PREFIX: string := "/.well-known/apgateway/"

  datatype Library = Library(http: HttpLibrary, did: DidLibrary)

  /** An identifier as written: an 'ap' URI may be reached through a gateway. */
  datatype NonCanonicalUri = Http(http: HttpUri) | Ap(gateway: Option<HttpUri>, ap: ApUri) {

    function ToString(): string {
      match this
      case Http(u) => u.ToString()
      case Ap(Some(g), u) => WithGateway(u, g.ToString())
      case Ap(None, u) => u.ToString()
    }

    function IntoCanonical(): CanonicalUri {
      match this
      case Http(u) => CanonicalHttp(u)
      case Ap(_, u) => CanonicalAp(u.WithoutQuery())
    }
  }

  datatype CanonicalUri = CanonicalHttp(http: HttpUri) | CanonicalAp(ap: ApUri) {

    function ToString(): string {
      match this
      case CanonicalHttp(u) => u.ToString()
      case CanonicalAp(u) => u.ToString()
    }
  }

  function WithGateway(u: ApUri, gatewayBase: string): string {
    gatewayBase + GATEWAY_PATH_PREFIX + u.ToDidUrl()
  }

  function ParseCompatible(lib: Library, u: HttpUri): Option<NonCanonicalUri> {
    var relative := u.ToRelative();
    if !(GATEWAY_PATH_PREFIX <= relative) then None
    else
      var ap := ParseAp(lib.did, AP_PREFIX + relative[|GATEWAY_PATH_PREFIX|..]);
      var gateway := ParseHttp(lib.http, u.Base());
      if ap.None? || gateway.None? then None else Some(Ap(Some(gateway.value), ap.value))
  }

  function Parse(lib: Library, s: string): (r: Option<NonCanonicalUri>)
    ensures r.Some? && r.value.Http? ==> ParseHttp(lib.http, s) == Some(r.value.http)
  {
    if AP_PREFIX <= s then
      match ParseAp(lib.did, s)
      case None => None
      case Some(u) => Some(Ap(None, u))
    else
      match ParseHttp(lib.http, s)
      case None => None
      case Some(u) => if GATEWAY_PATH_PREFIX <= u.relative.path then ParseCompatible(lib, u) else Some(Http(u))
  }

  function Canonicalize(lib: Library, s: string): Option<CanonicalUri> {
    match Parse(lib, s)
    case None => None
    case Some(u) => Some(u.IntoCanonical())
  }

  /** Accepts only what is canonical already. */
  function ParseCanonical(lib: Library, s: string): Option<CanonicalUri> {
    var c := Canonicalize(lib, s);
    if c.Some? && c.value.ToString() == s then c else None
  }

  // ---------------------------------------------------------------------
  // Printing and parsing

  const NOTHING: Relative := Relative("", None, None)

  /** A gateway consists of scheme and authority only. */
  ghost predicate IsGateway(lib: Library, g: HttpUri) {
    ValidHttp(lib.http, g) && WellSeparated(g) && g.relative == NOTHING
  }

  lemma GatewayPrints(lib: Library, g: HttpUri)
    requires IsGateway(lib, g)
    ensures g.ToString() == g.Base() && ParseHttp(lib.http, g.Base()) == Some(g)
  {
    assert g.ToRelative() == "";
    SplitPrintHttp(g);
  }

  /** The HTTP URI that a gateway and an 'ap' URI make up. */
  function Compatible(g: HttpUri, u: ApUri): HttpUri {
    HttpUri(g.scheme, g.authority,
            Relative(GATEWAY_PATH_PREFIX + u.did + u.location.path, u.location.query, u.location.fragment))
  }

  lemma CompatiblePrints(g: HttpUri, u: ApUri)
    requires g.relative == NOTHING
    ensures Compatible(g, u).ToString() == WithGateway(u, g.ToString())
    ensures Compatible(g, u).ToRelative() == GATEWAY_PATH_PREFIX + u.ToDidUrl()
    ensures Compatible(g, u).Base() == g.Base()
  {
    assert g.ToRelative() == "";
    var l := u.location;
    ConcatPath(GATEWAY_PATH_PREFIX, u.did, l.path, Optional('?', l.query), Optional('#', l.fragment));
    assert g.Base() + (GATEWAY_PATH_PREFIX + u.ToDidUrl()) == g.Base() + GATEWAY_PATH_PREFIX + u.ToDidUrl();
  }

  lemma ConcatPath(a: string, b: string, c: string, d: string, e: string)
    ensures a + b + c + d + e == a + (b + (c + d + e))
  {
  }

  lemma CompatibleValid(lib: Library, g: HttpUri, u: ApUri)
    requires IsGateway(lib, g) && ParsedAp(lib.did, u)
    ensures ValidHttp(lib.http, Compatible(g, u)) && WellSeparated(Compatible(g, u))
  {
    GatewayPathValid();
    DidIsPath(u.did);
    ValidCharsConcat(GATEWAY_PATH_PREFIX, u.did, IsPathChar);
    ValidCharsConcat(GATEWAY_PATH_PREFIX + u.did, u.location.path, IsPathChar);
    ValidSeparable(Compatible(g, u).relative);
  }

  lemma GatewayPathPlain()
    ensures IsPlainText(GATEWAY_PATH_PREFIX)
  {
  }

  lemma GatewayPathValid()
    ensures ValidChars(GATEWAY_PATH_PREFIX, IsPathChar)
  {
    GatewayPathPlain();
    ValidCharsPlain(GATEWAY_PATH_PREFIX, IsPathChar);
  }

  lemma DidIsPath(did: string)
    requires IsPlainDid(did)
    ensures ValidChars(did, IsPathChar)
  {
    forall i | 0 <= i < |did| ensures did[i] != '%' && IsPathChar(did[i]) {
      assert IsDidChar(did[i]);
    }
    ValidCharsPlain(did, IsPathChar);
  }

  lemma HttpIsNotAp(u: HttpUri)
    requires u.scheme == "http" || u.scheme == "https"
    ensures !(AP_PREFIX <= u.ToString())
  {
    assert u.ToString()[0] == 'h' && AP_PREFIX[0] == 'a';
  }

  lemma ParseCompatibleForm(lib: Library, g: HttpUri, u: ApUri)
    requires lib.did.Ok() && IsGateway(lib, g) && ParsedAp(lib.did, u) && PrintRelative(u.location) != "/"
    ensures ParseCompatible(lib, Compatible(g, u)) == Some(Ap(Some(g), u))
  {
    CompatiblePrints(g, u);
    GatewayPrints(lib, g);
    ApRoundTrip(lib.did, u);
    StripPrefix(GATEWAY_PATH_PREFIX, u.ToDidUrl());
    ApPrints(u);
  }

  lemma ApPrints(u: ApUri)
    ensures u.ToString() == AP_PREFIX + u.ToDidUrl()
    ensures AP_PREFIX <= u.ToString()
  {
    assert AP_PREFIX + u.did + PrintRelative(u.location) == AP_PREFIX + (u.did + PrintRelative(u.location));
    StripPrefix(AP_PREFIX, u.ToDidUrl());
  }

  /** The compatible form of an 'ap' URI gives back gateway and URI. */
  lemma CompatibleParses(lib: Library, g: HttpUri, u: ApUri)
    requires lib.did.Ok() && IsGateway(lib, g) && ParsedAp(lib.did, u) && PrintRelative(u.location) != "/"
    ensures Parse(lib, WithGateway(u, g.ToString())) == Some(Ap(Some(g), u))
  {
    CompatiblePrints(g, u);
    CompatibleValid(lib, g, u);
    GatewayPathOfCompatible(g, u);
    HttpParses(lib, Compatible(g, u));
    ParseCompatibleForm(lib, g, u);
  }

  lemma GatewayPathOfCompatible(g: HttpUri, u: ApUri)
    ensures GATEWAY_PATH_PREFIX <= Compatible(g, u).relative.path
  {
    assert Compatible(g, u).relative.path == GATEWAY_PATH_PREFIX + (u.did + u.location.path);
    StripPrefix(GATEWAY_PATH_PREFIX, u.did + u.location.path);
  }

  /** A valid HTTP URI parses back; its path decides whether it stands for an 'ap' URI. */
  lemma HttpParses(lib: Library, v: HttpUri)
    requires ValidHttp(lib.http, v) && WellSeparated(v)
    ensures Parse(lib, v.ToString()) ==
      if GATEWAY_PATH_PREFIX <= v.relative.path then ParseCompatible(lib, v) else Some(Http(v))
  {
    SplitPrintHttp(v);
    HttpIsNotAp(v);
  }

  /** An 'ap' URI in canonical notation parses back, exactly unless its location is a lone slash. */
  lemma ApParses(lib: Library, u: ApUri)
    requires lib.did.Ok() && ParsedAp(lib.did, u)
    ensures Parse(lib, u.ToString()) == if PrintRelative(u.location) == "/" then None else Some(Ap(None, u))
  {
    ApPrints(u);
    ApRoundTrip(lib.did, u);
  }

  lemma ParsedGateway(lib: Library, s: string, u: HttpUri)
    requires ParseHttp(lib.http, s) == Some(u) && ParseHttp(lib.http, u.Base()).Some?
    ensures IsGateway(lib, ParseHttp(lib.http, u.Base()).value)
  {
    HttpPrintsOriginal(lib.http, s);
    var g := HttpUri(u.scheme, u.authority, NOTHING);
    assert g.ToRelative() == "";
    assert g.ToString() == u.Base();
    SplitPrintHttp(g);
  }

  /** Reparsing the printed form of any parsed URI gives it back. */
  lemma UriRoundTrip(lib: Library, s: string)
    requires lib.did.Ok() && Parse(lib, s).Some?
    ensures Parse(lib, Parse(lib, s).value.ToString()) == Parse(lib, s)
  {
    var u := Parse(lib, s).value;
    if u.Http? {
      HttpIsCanonical(lib, s);
    } else {
      ParsedApFacts(lib, s);
      if u.gateway.Some? {
        CompatibleParses(lib, u.gateway.value, u.ap);
      } else {
        ApParses(lib, u.ap);
      }
    }
  }

  /** What parsing guarantees about 'ap' identifiers. */
  lemma ParsedApFacts(lib: Library, s: string)
    requires lib.did.Ok() && Parse(lib, s).Some? && Parse(lib, s).value.Ap?
    ensures ParsedAp(lib.did, Parse(lib, s).value.ap)
    ensures |PrintRelative(Parse(lib, s).value.ap.location)| >= 2
    ensures Parse(lib, s).value.gateway.Some? ==> IsGateway(lib, Parse(lib, s).value.gateway.value)
  {
    if AP_PREFIX <= s {
      ParseDidUrlFacts(lib.did, s[|AP_PREFIX|..]);
    } else {
      var u := ParseHttp(lib.http, s).value;
      var didUrl := u.ToRelative()[|GATEWAY_PATH_PREFIX|..];
      StripPrefix(AP_PREFIX, didUrl);
      ParseDidUrlFacts(lib.did, didUrl);
      ParsedGateway(lib, s, u);
    }
  }

  // ---------------------------------------------------------------------
  // Canonicalization

  lemma CanonicalApFacts(lib: Library, u: ApUri)
    requires ParsedAp(lib.did, u)
    ensures u.WithoutQuery() == ApUri(u.did, u.location.(query := None))
    ensures ParsedAp(lib.did, u.WithoutQuery())
    ensures u.WithoutQuery().WithoutQuery() == u.WithoutQuery()
  {
    ValidSeparable(u.location);
    RemoveQueryDropsQuery(u.location);
    RemoveQueryDropsQuery(u.location.(query := None));
  }

  /** The canonical form does not depend on the gateway, nor on whether there is one. */
  lemma GatewayIndependent(lib: Library, g: HttpUri, u: ApUri)
    requires lib.did.Ok() && IsGateway(lib, g) && ParsedAp(lib.did, u) && PrintRelative(u.location) != "/"
    ensures Canonicalize(lib, WithGateway(u, g.ToString())) == Canonicalize(lib, u.ToString())
    ensures Canonicalize(lib, u.ToString()) == Some(CanonicalAp(u.WithoutQuery()))
  {
    CompatibleParses(lib, g, u);
    ApParses(lib, u);
  }

  ghost predicate LoneSlash(c: CanonicalUri) {
    c.CanonicalAp? && PrintRelative(c.ap.location) == "/"
  }

  /** Canonical forms are stable under printing and parsing, exactly unless the location is a lone slash. */
  lemma CanonicalIdempotent(lib: Library, s: string)
    requires lib.did.Ok() && Canonicalize(lib, s).Some?
    ensures var c := Canonicalize(lib, s).value;
      Canonicalize(lib, c.ToString()) == if LoneSlash(c) then None else Some(c)
  {
    var u := Parse(lib, s).value;
    if u.Http? {
      HttpIsCanonical(lib, s);
    } else {
      ParsedApFacts(lib, s);
      ApIdempotent(lib, u.ap);
    }
  }

  lemma HttpIsCanonical(lib: Library, s: string)
    requires Parse(lib, s).Some? && Parse(lib, s).value.Http?
    ensures Parse(lib, s).value.IntoCanonical().ToString() == s
  {
    HttpPrintsOriginal(lib.http, s);
  }

  lemma ApIdempotent(lib: Library, u: ApUri)
    requires lib.did.Ok() && ParsedAp(lib.did, u)
    ensures var v := u.WithoutQuery();
      Canonicalize(lib, v.ToString()) == if PrintRelative(v.location) == "/" then None else Some(CanonicalAp(v))
  {
    CanonicalApFacts(lib, u);
    ApParses(lib, u.WithoutQuery());
  }

  /** The exception is real: an accepted identifier whose canonical form is rejected. */
  lemma LoneSlashExample(lib: Library, did: string)
    requires lib.did.Ok() && IsPlainDid(did) && lib.did.parse(did) == Some(did)
    ensures var s := AP_PREFIX + did + "/?q";
      && Canonicalize(lib, s).Some?
      && LoneSlash(Canonicalize(lib, s).value)
      && Canonicalize(lib, Canonicalize(lib, s).value.ToString()) == None
  {
    var u := ApUri(did, Relative("/", Some("q"), None));
    var s := AP_PREFIX + did + "/?q";
    assert PrintRelative(u.location) == "/?q";
    assert u.ToString() == s;
    ValidCharsPlain("/", IsPathChar);
    ValidCharsPlain("q", IsQueryChar);
    assert ParsedAp(lib.did, u);
    ApParses(lib, u);
    CanonicalApFacts(lib, u);
    assert PrintRelative(Relative("/", None, None)) == "/";
    CanonicalIdempotent(lib, s);
  }

  // ---------------------------------------------------------------------
  // Comparison

  datatype Origin = Tuple(scheme: string, host: string, port: nat) | DidOrigin(did: string)

  function HttpOrigin(lib: HttpLibrary, u: HttpUri): Origin {
    var port := lib.port(u.authority);
    Tuple(u.scheme, lib.host(u.authority),
          if port.Some? then port.value else if u.scheme == "http" then 80 else 443)
  }

  function OriginOf(lib: Library, c: CanonicalUri): Origin {
    match c
    case CanonicalHttp(u) => HttpOrigin(lib.http, u)
    case CanonicalAp(u) => DidOrigin(u.did)
  }

  function IsSameUri(lib: Library, a: string, b: string): Option<bool> {
    var x, y := Canonicalize(lib, a), Canonicalize(lib, b);
    if x.None? || y.None? then None else Some(x.value == y.value)
  }

  function IsSameOrigin(lib: Library, a: string, b: string): Option<bool> {
    var x, y := Canonicalize(lib, a), Canonicalize(lib, b);
    if x.None? || y.None? then None else Some(OriginOf(lib, x.value) == OriginOf(lib, y.value))
  }

  /** As an equality of canonical forms, same URI is an equivalence on valid identifiers and implies same origin. */
  lemma SameUriEquivalence(lib: Library, a: string, b: string, c: string)
    requires Parse(lib, a).Some? && Parse(lib, b).Some? && Parse(lib, c).Some?
    ensures IsSameUri(lib, a, a) == Some(true)
    ensures IsSameUri(lib, a, b) == IsSameUri(lib, b, a)
    ensures IsSameUri(lib, a, b) == Some(true) && IsSameUri(lib, b, c) == Some(true) ==> IsSameUri(lib, a, c) == Some(true)
    ensures IsSameUri(lib, a, b) == Some(true) ==> IsSameOrigin(lib, a, b) == Some(true)
  {
  }

  /** The port of an HTTP URI: the one it names, or the usual one of its scheme. */
  ghost predicate HasPort(lib: Library, u: HttpUri, port: nat) {
    match lib.http.port(u.authority)
    case Some(p) => port == p
    case None => (u.scheme == "http" && port == 80) || (u.scheme == "https" && port == 443)
  }

  ghost predicate SameEndpoint(lib: Library, u: HttpUri, v: HttpUri) {
    && u.scheme == v.scheme
    && lib.http.host(u.authority) == lib.http.host(v.authority)
    && exists port :: HasPort(lib, u, port) && HasPort(lib, v, port)
  }

  /**
    Exactly when two identifiers have the same origin: for HTTP URIs if scheme,
    host and port agree, for 'ap' URIs if their DIDs agree, and never for one of
    each kind.
   */
  lemma SameOriginExactly(lib: Library, a: string, b: string)
    requires Parse(lib, a).Some? && Parse(lib, b).Some?
    ensures var x, y := Parse(lib, a).value, Parse(lib, b).value;
      && IsSameOrigin(lib, a, b).Some?
      && (x.Http? && y.Http? ==>
            (IsSameOrigin(lib, a, b).value <==> SameEndpoint(lib, x.http, y.http)))
      && (x.Ap? && y.Ap? ==> (IsSameOrigin(lib, a, b).value <==> x.ap.did == y.ap.did))
      && (x.Http? != y.Http? ==> !IsSameOrigin(lib, a, b).value)
  {
    SameOriginParts(lib, Parse(lib, a).value, Parse(lib, b).value);
  }

  lemma SameOriginParts(lib: Library, x: NonCanonicalUri, y: NonCanonicalUri)
    requires x.Http? ==> x.http.scheme == "http" || x.http.scheme == "https"
    requires y.Http? ==> y.http.scheme == "http" || y.http.scheme == "https"
    ensures var same := OriginOf(lib, x.IntoCanonical()) == OriginOf(lib, y.IntoCanonical());
      && (x.Http? && y.Http? ==> (same <==> SameEndpoint(lib, x.http, y.http)))
      && (x.Ap? && y.Ap? ==> (same <==> x.ap.did == y.ap.did))
      && (x.Http? != y.Http? ==> !same)
  {
    if x.Http? && y.Http? {
      PortOfOrigin(lib, x.http);
      PortOfOrigin(lib, y.http);
      assert HasPort(lib, x.http, HttpOrigin(lib.http, x.http).port);
    }
  }

  lemma PortOfOrigin(lib: Library, u: HttpUri)
    requires u.scheme == "http" || u.scheme == "https"
    ensures forall port :: HasPort(lib, u, port) <==> port == HttpOrigin(lib.http, u).port
  {
  }

  /** The notations in full. */
  lemma NotationExactly(u: ApUri, gateway: string)
    ensures u.ToString() == "ap://" + u.did + PrintRelative(u.location)
    ensures WithGateway(u, gateway) == gateway + "/.well-known/apgateway/" + (u.did + PrintRelative(u.location))
  {
  }

  /** An identifier and its form behind any gateway are the same URI and have the same origin. */
  lemma SameUriBehindGateway(lib: Library, g: HttpUri, u: ApUri)
    requires lib.did.Ok() && IsGateway(lib, g) && ParsedAp(lib.did, u) && PrintRelative(u.location) != "/"
    ensures IsSameUri(lib, u.ToString(), WithGateway(u, g.ToString())) == Some(true)
    ensures IsSameOrigin(lib, u.ToString(), WithGateway(u, g.ToString())) == Some(true)
  {
    GatewayIndependent(lib, g, u);
  }
}
