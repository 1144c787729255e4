/** What an identifier becomes when an arbitrary HTTP URI is used as its gateway. */
module GatewayForms {
  import opened Wrappers
  import opened Text
  import opened Uri
  import opened CanonicalUri

  // ---------------------------------------------------------------------
  // Reading a gateway path

  lemma ColonStripped(s: string, c: char)
    requires StripColon(s).Some? && !IsDidChar(c)
    ensures c in s ==> c in StripColon(s).value
  {
    var rest := StripColon(s).value;
    assert s == s[..|s| - |rest|] + rest;
    if ":" <= s {
      assert s[..1] == ":";
    } else {
      assert s[..3] == "%3A";
    }
  }

  lemma LettersStripped(s: string, c: char)
    requires !IsLetter(c)
    ensures c in s ==> c in s[LetterRun(s)..]
  {
    var k := LetterRun(s);
    assert s == s[..k] + s[k..];
  }

  lemma DidHasNoMarks(raw: string, c: char)
    requires MatchesDid(raw) && !IsDidChar(c)
    ensures c !in raw
  {
    var rest := StripColon(raw[3..]).value;
    var tail := rest[LetterRun(rest)..];
    if c in raw {
      assert raw == raw[..3] + raw[3..] && raw[..3] == "did";
      ColonStripped(raw[3..], c);
      LettersStripped(rest, c);
      ColonStripped(tail, c);
      assert false;
    }
  }

  /** Without a slash in the path nothing that precedes the first slash is a DID. */
  lemma NoSlashInPath(lib: DidLibrary, path: string, rest: string)
    requires '/' !in path && (rest != [] ==> rest[0] == '?' || rest[0] == '#')
    ensures ParseDidUrl(lib, path + rest) == None
  {
    var s := path + rest;
    var i := FirstIndex(s, '/');
    if i < |s| {
      assert i >= |path|;
      assert s[|path|] == rest[0] && i > |path|;
      assert s[..i][|path|] == rest[0];
      if MatchesDid(s[..i]) {
        DidHasNoMarks(s[..i], rest[0]);
      }
    }
  }

  /** The DID of a gateway path ends at the first slash; the location is what follows, with query and fragment. */
  function FromPath(lib: DidLibrary, r: Relative): Option<ApUri> {
    var i := FirstIndex(r.path, '/');
    if i < |r.path| then FromParts(lib, r.path[..i], r.(path := r.path[i..])) else None
  }

  lemma DidUrlOfPath(lib: DidLibrary, r: Relative)
    requires Separable(r)
    ensures ParseDidUrl(lib, PrintRelative(r)) == FromPath(lib, r)
  {
    var i := FirstIndex(r.path, '/');
    var rest := Optional('?', r.query) + Optional('#', r.fragment);
    ConcatThree(r.path, Optional('?', r.query), Optional('#', r.fragment));
    if i < |r.path| {
      var location := r.(path := r.path[i..]);
      PrintFrom(r, i, location);
      DidUrlParts(lib, r.path[..i], location);
    } else {
      assert r.path[..i] == r.path;
      NoSlashInPath(lib, r.path, rest);
    }
  }

  lemma PrintFrom(r: Relative, i: nat, location: Relative)
    requires i <= |r.path| && location == r.(path := r.path[i..])
    ensures PrintRelative(r) == r.path[..i] + PrintRelative(location)
    ensures Separable(r) ==> Separable(location)
  {
    var a, b, q, f := r.path[..i], r.path[i..], Optional('?', r.query), Optional('#', r.fragment);
    assert r.path == a + b;
    ConcatFour(a, b, q, f);
  }

  // ---------------------------------------------------------------------
  // Attaching an 'ap' URI to an HTTP URI

  /** The path, query and fragment of what is printed for `u` behind a gateway with the given ones. */
  function Attach(r: Relative, u: ApUri): Relative {
    var path := GATEWAY_PATH_PREFIX + u.did + u.location.path;
    if r.fragment.Some? then r.(fragment := Some(r.fragment.value + GATEWAY_PATH_PREFIX + u.ToDidUrl()))
    else if r.query.Some? then
      Relative(r.path, Some(r.query.value + path + Optional('?', u.location.query)), u.location.fragment)
    else Relative(r.path + path, u.location.query, u.location.fragment)
  }

  lemma AttachPrints(r: Relative, u: ApUri)
    ensures PrintRelative(Attach(r, u)) == PrintRelative(r) + GATEWAY_PATH_PREFIX + u.ToDidUrl()
  {
    var l := u.location;
    var q, f := Optional('?', l.query), Optional('#', l.fragment);
    if r.fragment.Some? {
      IntoFragment(r.path + Optional('?', r.query), r.fragment.value, GATEWAY_PATH_PREFIX, u.ToDidUrl());
    } else if r.query.Some? {
      IntoQuery(r.path, r.query.value, GATEWAY_PATH_PREFIX, u.did, l.path, q, f);
    } else {
      IntoPath(r.path, GATEWAY_PATH_PREFIX, u.did, l.path, q, f);
    }
  }

  lemma IntoFragment(main: string, fragment: string, prefix: string, rest: string)
    ensures main + (['#'] + (fragment + prefix + rest)) == main + (['#'] + fragment) + prefix + rest
  {
  }

  lemma IntoQuery(path: string, query: string, prefix: string, did: string, p: string, q: string, f: string)
    ensures path + (['?'] + (query + (prefix + did + p) + q)) + f ==
      path + (['?'] + query) + [] + prefix + (did + (p + q + f))
  {
    var main := path + (['?'] + query);
    assert path + (['?'] + (query + (prefix + did + p) + q)) == main + (prefix + did + p) + q;
    IntoPath(main, prefix, did, p, q, f);
    assert main + [] == main;
  }

  lemma IntoPath(path: string, prefix: string, did: string, p: string, q: string, f: string)
    ensures path + (prefix + did + p) + q + f == path + prefix + (did + (p + q + f))
  {
    var x := path + prefix;
    assert path + (prefix + did + p) == x + did + p;
    ConcatPath(x, did, p, q, f);
  }

  /** Canonicalization of an HTTP URI under the gateway path, part by part. */
  lemma CanonicalOfHttp(lib: Library, h: HttpUri)
    requires ValidHttp(lib.http, h) && WellSeparated(h)
    ensures Canonicalize(lib, h.ToString()) ==
      if GATEWAY_PATH_PREFIX <= h.relative.path then
        match FromPath(lib.did, h.relative.(path := h.relative.path[|GATEWAY_PATH_PREFIX|..]))
        case None => None
        case Some(v) => Some(CanonicalAp(v.WithoutQuery()))
      else Some(CanonicalHttp(h))
  {
    HttpParses(lib, h);
    if GATEWAY_PATH_PREFIX <= h.relative.path {
      UnderGatewayPath(lib, h);
    }
  }

  lemma UnderGatewayPath(lib: Library, h: HttpUri)
    requires ValidHttp(lib.http, h) && WellSeparated(h) && GATEWAY_PATH_PREFIX <= h.relative.path
    ensures var v := FromPath(lib.did, h.relative.(path := h.relative.path[|GATEWAY_PATH_PREFIX|..]));
      var r := ParseCompatible(lib, h);
      if v.None? then r == None else r.Some? && r.value.Ap? && r.value.ap == v.value
  {
    var r := h.relative.(path := h.relative.path[|GATEWAY_PATH_PREFIX|..]);
    PrintUnderPrefix(GATEWAY_PATH_PREFIX, h.relative, r);
    ApOfPath(lib.did, r);
    BaseParses(lib, h);
  }

  lemma ApOfPath(lib: DidLibrary, r: Relative)
    requires Separable(r)
    ensures ParseAp(lib, AP_PREFIX + PrintRelative(r)) == FromPath(lib, r)
  {
    PrefixedDidUrl(lib, PrintRelative(r));
    DidUrlOfPath(lib, r);
  }

  lemma PrintUnderPrefix(prefix: string, r: Relative, r': Relative)
    requires prefix <= r.path && Separable(r) && r' == r.(path := r.path[|prefix|..])
    ensures prefix <= PrintRelative(r) && PrintRelative(r)[|prefix|..] == PrintRelative(r')
    ensures Separable(r')
  {
    assert r.path == prefix + r'.path;
    assert PrintRelative(r) == prefix + PrintRelative(r');
    StripPrefix(prefix, PrintRelative(r'));
  }

  lemma BaseParses(lib: Library, h: HttpUri)
    requires ValidHttp(lib.http, h) && WellSeparated(h)
    ensures ParseHttp(lib.http, h.Base()).Some?
  {
    GatewayPrints(lib, HttpUri(h.scheme, h.authority, NOTHING));
  }

  // ---------------------------------------------------------------------
  // When the identity is kept

  /** The URI used as a gateway is itself an identifier of the object, with a query that swallows the rest. */
  ghost predicate Detour(lib: Library, g: HttpUri, u: ApUri) {
    && g.relative.query.Some?
    && Canonicalize(lib, g.ToString()) == Some(CanonicalAp(ApUri(u.did, Relative(u.location.path, None, None))))
  }

  function Attached(g: HttpUri, u: ApUri): HttpUri {
    HttpUri(g.scheme, g.authority, Attach(g.relative, u))
  }

  lemma AttachedPrints(g: HttpUri, u: ApUri)
    ensures Attached(g, u).ToString() == WithGateway(u, g.ToString())
  {
    AttachPrints(g.relative, u);
    ConcatFour(g.Base(), PrintRelative(g.relative), GATEWAY_PATH_PREFIX, u.ToDidUrl());
  }

  lemma ConcatFour(a: string, b: string, c: string, d: string)
    ensures a + (b + c + d) == a + b + c + d
  {
  }

  lemma {:induction false} PathIsQuery(s: string)
    requires ValidChars(s, IsPathChar)
    ensures ValidChars(s, IsQueryChar)
  {
    if s != [] {
      PathIsQuery(if s[0] == '%' then s[3..] else s[1..]);
    }
  }

  lemma GatewayPathHasNoMarks(u: ApUri)
    requires IsPlainDid(u.did) && ValidLocation(u.location)
    ensures var path := GATEWAY_PATH_PREFIX + u.did + u.location.path; '?' !in path && '#' !in path
  {
    ValidSeparable(u.location);
    PlainDidHasNo(u.did, '?');
    PlainDidHasNo(u.did, '#');
    GatewayPathPlain();
    PlainTextHasNoMarks(GATEWAY_PATH_PREFIX);
    NotInParts(GATEWAY_PATH_PREFIX, u.did, u.location.path, '?');
    NotInParts(GATEWAY_PATH_PREFIX, u.did, u.location.path, '#');
  }

  lemma PlainTextHasNoMarks(s: string)
    requires IsPlainText(s)
    ensures '?' !in s && '#' !in s
  {
  }

  lemma NotInParts(a: string, b: string, d: string, c: char)
    requires c !in a && c !in b && c !in d
    ensures c !in a + b + d
  {
  }

  lemma AttachSeparable(r: Relative, path: string, query: Option<string>)
    requires Separable(r) && '?' !in path && '#' !in path && (query.Some? ==> '#' !in query.value)
    ensures '?' !in r.path + path && '#' !in r.path + path
    ensures r.query.Some? ==> '#' !in r.query.value + path + Optional('?', query)
  {
  }

  lemma AttachedSeparated(lib: Library, g: HttpUri, u: ApUri)
    requires WellSeparated(g) && ParsedAp(lib.did, u)
    ensures WellSeparated(Attached(g, u))
  {
    GatewayPathHasNoMarks(u);
    ValidSeparable(u.location);
    AttachSeparable(g.relative, GATEWAY_PATH_PREFIX + u.did + u.location.path, u.location.query);
    assert GATEWAY_PATH_PREFIX[0] == '/';
  }

  lemma InvalidHttp(lib: Library, h: HttpUri)
    requires WellSeparated(h) && (h.scheme == "http" || h.scheme == "https") && !ValidHttp(lib.http, h)
    ensures Canonicalize(lib, h.ToString()) == None
  {
    SplitPrintHttp(h);
    HttpIsNotAp(h);
  }

  /** What is read from a gateway path, and its canonical form. */
  lemma FromPathFacts(lib: DidLibrary, r: Relative)
    requires FromPath(lib, r).Some?
    ensures var v := FromPath(lib, r).value;
      && v.location == r.(path := r.path[FirstIndex(r.path, '/')..]) && ValidLocation(v.location)
      && v.WithoutQuery() == ApUri(v.did, v.location.(query := None))
  {
    var v := FromPath(lib, r).value;
    ValidSeparable(v.location);
    RemoveQueryDropsQuery(v.location);
  }

  /** The canonical form of an HTTP URI that stands for an 'ap' URI has its fragment and the end of its path. */
  lemma CanonicalParts(lib: Library, h: HttpUri, w: ApUri)
    requires WellSeparated(h) && (h.scheme == "http" || h.scheme == "https")
    requires Canonicalize(lib, h.ToString()) == Some(CanonicalAp(w))
    ensures ValidHttp(lib.http, h) && GATEWAY_PATH_PREFIX <= h.relative.path
    ensures var path := h.relative.path[|GATEWAY_PATH_PREFIX|..];
      var i := FirstIndex(path, '/');
      && i < |path| && MatchesDid(path[..i]) && lib.did.parse(lib.did.decode(path[..i])) == Some(w.did)
      && w.location == Relative(path[i..], None, h.relative.fragment)
      && ValidLocation(h.relative.(path := path[i..]))
  {
    if !ValidHttp(lib.http, h) {
      InvalidHttp(lib, h);
    }
    CanonicalOfHttp(lib, h);
    FromPathFacts(lib.did, h.relative.(path := h.relative.path[|GATEWAY_PATH_PREFIX|..]));
  }

  /** A fragment of the gateway swallows everything. */
  lemma GatewayWithFragment(lib: Library, g: HttpUri, u: ApUri)
    requires ValidHttp(lib.http, g) && WellSeparated(g) && ParsedAp(lib.did, u) && g.relative.fragment.Some?
    ensures Canonicalize(lib, WithGateway(u, g.ToString())) != Some(CanonicalAp(u.WithoutQuery()))
    ensures !Detour(lib, g, u)
  {
    AttachedSeparated(lib, g, u);
    AttachedPrints(g, u);
    CanonicalApFacts(lib, u);
    assert |u.ToDidUrl()| >= |Optional('#', u.location.fragment)|;
    if Canonicalize(lib, WithGateway(u, g.ToString())) == Some(CanonicalAp(u.WithoutQuery())) {
      CanonicalParts(lib, Attached(g, u), u.WithoutQuery());
    }
    if Detour(lib, g, u) {
      CanonicalParts(lib, g, ApUri(u.did, Relative(u.location.path, None, None)));
    }
  }

  /** A path of the gateway becomes part of the location, or the result is an ordinary HTTP URI. */
  lemma GatewayWithPath(lib: Library, g: HttpUri, u: ApUri)
    requires ValidHttp(lib.http, g) && WellSeparated(g) && ParsedAp(lib.did, u)
    requires g.relative.fragment.None? && g.relative.query.None? && g.relative.path != []
    ensures Canonicalize(lib, WithGateway(u, g.ToString())) != Some(CanonicalAp(u.WithoutQuery()))
  {
    AttachedSeparated(lib, g, u);
    AttachedPrints(g, u);
    CanonicalApFacts(lib, u);
    if Canonicalize(lib, WithGateway(u, g.ToString())) == Some(CanonicalAp(u.WithoutQuery())) {
      CanonicalParts(lib, Attached(g, u), u.WithoutQuery());
      var p := g.relative.path;
      var path := p + (GATEWAY_PATH_PREFIX + u.did + u.location.path);
      SlashBeforeDid(p, u.did, u.location.path, path);
    }
  }

  lemma SlashBeforeDid(p: string, did: string, location: string, path: string)
    requires p != [] && path == p + (GATEWAY_PATH_PREFIX + did + location) && location != []
    ensures |path| >= |GATEWAY_PATH_PREFIX|
    ensures var tail := path[|GATEWAY_PATH_PREFIX|..];
      tail[FirstIndex(tail, '/')..] != location
  {
    var n := |GATEWAY_PATH_PREFIX|;
    assert GATEWAY_PATH_PREFIX[n - 1] == '/';
    assert path[|p| + n - 1] == '/';
    var tail := path[n..];
    assert tail[|p| - 1] == '/';
    var i := FirstIndex(tail, '/');
    assert forall k :: 0 <= k < i ==> tail[k] == tail[..i][k];
  }

  lemma AttachedQueryValid(lib: Library, g: HttpUri, u: ApUri)
    requires ValidHttp(lib.http, g) && ParsedAp(lib.did, u) && g.relative.fragment.None? && g.relative.query.Some?
    ensures ValidHttp(lib.http, Attached(g, u))
    ensures ValidChars(Attached(g, u).relative.query.value, IsQueryChar)
  {
    var q, l := g.relative.query.value, u.location;
    var path := GATEWAY_PATH_PREFIX + u.did + l.path;
    GatewayPathValid();
    DidIsPath(u.did);
    ValidCharsConcat(GATEWAY_PATH_PREFIX, u.did, IsPathChar);
    ValidCharsConcat(GATEWAY_PATH_PREFIX + u.did, l.path, IsPathChar);
    PathIsQuery(path);
    ValidCharsConcat(q, path, IsQueryChar);
    OptionalQueryValid(l.query);
    ValidCharsConcat(q + path, Optional('?', l.query), IsQueryChar);
  }

  lemma OptionalQueryValid(query: Option<string>)
    requires query.Some? ==> ValidChars(query.value, IsQueryChar)
    ensures ValidChars(Optional('?', query), IsQueryChar)
  {
    if query.Some? {
      ValidCharsPlain("?", IsQueryChar);
      ValidCharsConcat("?", query.value, IsQueryChar);
    }
  }

  /** A query of the gateway swallows everything but the fragment, so the gateway's own path has to be right. */
  lemma GatewayWithQuery(lib: Library, g: HttpUri, u: ApUri)
    requires ValidHttp(lib.http, g) && WellSeparated(g) && ParsedAp(lib.did, u)
    requires g.relative.fragment.None? && g.relative.query.Some?
    ensures Canonicalize(lib, WithGateway(u, g.ToString())) == Some(CanonicalAp(u.WithoutQuery())) <==> Detour(lib, g, u)
  {
    var h := Attached(g, u);
    AttachedSeparated(lib, g, u);
    AttachedPrints(g, u);
    AttachedQueryValid(lib, g, u);
    CanonicalApFacts(lib, u);
    var plain := ApUri(u.did, Relative(u.location.path, None, None));
    if Canonicalize(lib, h.ToString()) == Some(CanonicalAp(u.WithoutQuery())) {
      CanonicalParts(lib, h, u.WithoutQuery());
      CanonicalFromParts(lib, g, plain);
    }
    if Detour(lib, g, u) {
      CanonicalParts(lib, g, plain);
      CanonicalFromParts(lib, h, u.WithoutQuery());
    }
  }

  lemma CanonicalFromParts(lib: Library, h: HttpUri, w: ApUri)
    requires ValidHttp(lib.http, h) && WellSeparated(h) && GATEWAY_PATH_PREFIX <= h.relative.path
    requires h.relative.query.Some?
    requires var path := h.relative.path[|GATEWAY_PATH_PREFIX|..];
      var i := FirstIndex(path, '/');
      && i < |path| && MatchesDid(path[..i]) && lib.did.parse(lib.did.decode(path[..i])) == Some(w.did)
      && w.location == Relative(path[i..], None, h.relative.fragment)
      && ValidLocation(w.location)
    ensures Canonicalize(lib, h.ToString()) == Some(CanonicalAp(w))
  {
    CanonicalOfHttp(lib, h);
    var r := h.relative.(path := h.relative.path[|GATEWAY_PATH_PREFIX|..]);
    var location := r.(path := r.path[FirstIndex(r.path, '/')..]);
    assert |PrintRelative(location)| >= 2;
    FromPathFacts(lib.did, r);
  }

  /**
    An identifier behind an HTTP URI names the same object exactly when the
    HTTP URI consists of scheme and authority, or is itself an identifier of
    the object with a query. A trailing slash is enough to break it.
   */
  lemma IdentityBehindGateway(lib: Library, g: HttpUri, u: ApUri)
    requires lib.did.Ok() && ValidHttp(lib.http, g) && WellSeparated(g)
    requires ParsedAp(lib.did, u) && PrintRelative(u.location) != "/"
    ensures Canonicalize(lib, WithGateway(u, g.ToString())) == Some(CanonicalAp(u.WithoutQuery())) <==>
      g.relative == NOTHING || Detour(lib, g, u)
  {
    if g.relative.fragment.Some? {
      GatewayWithFragment(lib, g, u);
    } else if g.relative.query.Some? {
      GatewayWithQuery(lib, g, u);
    } else if g.relative.path != [] {
      GatewayWithPath(lib, g, u);
    } else {
      assert g.relative == NOTHING;
      GatewayIndependent(lib, g, u);
    }
  }
}
