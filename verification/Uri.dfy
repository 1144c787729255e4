/** URIs (section 3 of RFC 3986): HTTP URIs and 'ap' URIs (FEP-ef61), parsed and printed character by character. */
module Uri {
  import opened Wrappers
  import opened Text

  // ---------------------------------------------------------------------
  // Character classes

  predicate IsDigit(c: char) {
    '0' <= c <= '9'
  }

  predicate IsHex(c: char) {
    IsDigit(c) || 'a' <= c <= 'f' || 'A' <= c <= 'F'
  }

  predicate IsUnreserved(c: char) {
    IsLetter(c) || IsDigit(c) || c == '-' || c == '.' || c == '_' || c == '~'
  }

  predicate IsSubDelimiter(c: char) {
    || c == '!' || c == '$' || c == '&' || c == '\'' || c == '(' || c == ')'
    || c == '*' || c == '+' || c == ',' || c == ';' || c == '='
  }

  predicate IsPathChar(c: char) {
    IsUnreserved(c) || IsSubDelimiter(c) || c == ':' || c == '@' || c == '/'
  }

  predicate IsQueryChar(c: char) {
    IsPathChar(c) || c == '?'
  }

  /** Allowed characters and well-formed percent escapes. */
  predicate ValidChars(s: string, allowed: char -> bool) {
    s == [] ||
    (if s[0] == '%' then |s| >= 3 && IsHex(s[1]) && IsHex(s[2]) && ValidChars(s[3..], allowed)
     else allowed(s[0]) && ValidChars(s[1..], allowed))
  }

  lemma {:induction false} ValidCharsConcat(a: string, b: string, allowed: char -> bool)
    requires ValidChars(a, allowed) && ValidChars(b, allowed)
    ensures ValidChars(a + b, allowed)
  {
    if a == [] {
      assert a + b == b;
    } else if a[0] == '%' {
      ValidCharsConcat(a[3..], b, allowed);
      assert (a + b)[3..] == a[3..] + b;
    } else {
      ValidCharsConcat(a[1..], b, allowed);
      assert (a + b)[1..] == a[1..] + b;
    }
  }

  lemma {:induction false} ValidCharsPlain(s: string, allowed: char -> bool)
    requires forall i :: 0 <= i < |s| ==> s[i] != '%' && allowed(s[i])
    ensures ValidChars(s, allowed)
  {
    if s != [] {
      ValidCharsPlain(s[1..], allowed);
    }
  }

  /** Path characters without percent escapes. */
  predicate IsPlainText(s: string) {
    forall i :: 0 <= i < |s| ==> s[i] != '%' && IsPathChar(s[i])
  }

  lemma {:induction false} ValidCharsExcludes(s: string, allowed: char -> bool, c: char)
    requires ValidChars(s, allowed) && !allowed(c) && c != '%' && !IsHex(c)
    ensures c !in s
  {
    if s != [] {
      if s[0] == '%' {
        ValidCharsExcludes(s[3..], allowed, c);
        assert s == [s[0], s[1], s[2]] + s[3..];
      } else {
        ValidCharsExcludes(s[1..], allowed, c);
        assert s == [s[0]] + s[1..];
      }
    }
  }

  // ---------------------------------------------------------------------
  // Relative references: path, query and fragment

  datatype Relative = Relative(path: string, query: Option<string>, fragment: Option<string>)

  function Optional(mark: char, part: Option<string>): string {
    if part.Some? then [mark] + part.value else []
  }

  function PrintRelative(r: Relative): string {
    r.path + Optional('?', r.query) + Optional('#', r.fragment)
  }

  /** The part before the first `mark`, and the part after it if there is one. */
  function Cut(s: string, mark: char): (string, Option<string>) {
    var i := FirstIndex(s, mark);
    (s[..i], if i < |s| then Some(s[i + 1..]) else None)
  }

  function SplitRelative(s: string): Relative {
    var (main, fragment) := Cut(s, '#');
    var (path, query) := Cut(main, '?');
    Relative(path, query, fragment)
  }

  lemma CutPrint(s: string, mark: char, part: Option<string>)
    requires mark !in s
    ensures Cut(s + Optional(mark, part), mark) == (s, part)
  {
    if part.Some? {
      assert s + Optional(mark, part) == s + [mark] + part.value;
      FirstIndexAt(s, mark, part.value);
    } else {
      assert s + [] == s;
      assert forall i :: 0 <= i < |s| ==> s[i] in s;
      assert FirstIndex(s, mark) == |s|;
    }
  }

  lemma PrintCut(s: string, mark: char)
    ensures Cut(s, mark).0 + Optional(mark, Cut(s, mark).1) == s
    ensures mark !in Cut(s, mark).0
  {
    var i := FirstIndex(s, mark);
    if i < |s| {
      Rejoin(s, i);
    } else {
      assert s[..i] == s && s + [] == s;
    }
  }

  lemma Rejoin(s: string, i: nat)
    requires i < |s|
    ensures s[..i] + ([s[i]] + s[i + 1..]) == s
  {
  }

  ghost predicate Separable(r: Relative) {
    && '?' !in r.path && '#' !in r.path
    && (r.query.Some? ==> '#' !in r.query.value)
  }

  lemma SplitPrintRelative(r: Relative)
    requires Separable(r)
    ensures SplitRelative(PrintRelative(r)) == r
  {
    CutPrint(r.path + Optional('?', r.query), '#', r.fragment);
    CutPrint(r.path, '?', r.query);
  }

  lemma PrintSplitRelative(s: string)
    ensures PrintRelative(SplitRelative(s)) == s
    ensures Separable(SplitRelative(s))
  {
    PrintCut(s, '#');
    PrintCut(Cut(s, '#').0, '?');
  }

  /** Prints the reference without its query and parses it again. */
  function RemoveQuery(r: Relative): Relative {
    SplitRelative(r.path + Optional('#', r.fragment))
  }

  lemma RemoveQueryDropsQuery(r: Relative)
    requires Separable(r)
    ensures RemoveQuery(r) == r.(query := None)
  {
    assert r.path + Optional('#', r.fragment) == PrintRelative(r.(query := None));
    SplitPrintRelative(r.(query := None));
  }

  predicate ValidRelative(r: Relative) {
    && ValidChars(r.path, IsPathChar)
    && (r.query.Some? ==> ValidChars(r.query.value, IsQueryChar))
    && (r.fragment.Some? ==> ValidChars(r.fragment.value, IsQueryChar))
  }

  lemma ValidSeparable(r: Relative)
    requires ValidRelative(r)
    ensures Separable(r)
  {
    ValidCharsExcludes(r.path, IsPathChar, '?');
    ValidCharsExcludes(r.path, IsPathChar, '#');
    if r.query.Some? {
      ValidCharsExcludes(r.query.value, IsQueryChar, '#');
    }
  }

  // ---------------------------------------------------------------------
  // HTTP URIs

  /** A parsed HTTP URI; its printed form is the original string. */
  datatype HttpUri = HttpUri(scheme: string, authority: string, relative: Relative) {

    function Base(): string {
      scheme + "://" + authority
    }

    function ToRelative(): string {
      PrintRelative(relative)
    }

    function ToString(): string {
      Base() + ToRelative()
    }
  }

  predicate IsMark(c: char) {
    c == '/' || c == '?' || c == '#'
  }

  /** Length of the part before the first '/', '?' or '#'. */
  function AuthorityEnd(s: string): (k: nat)
    ensures k <= |s|
    ensures forall i :: 0 <= i < k ==> !IsMark(s[i])
    ensures k < |s| ==> IsMark(s[k])
  {
    if s == [] || IsMark(s[0]) then 0 else 1 + AuthorityEnd(s[1..])
  }

  lemma {:induction false} AuthorityEndAt(a: string, rest: string)
    requires forall i :: 0 <= i < |a| ==> !IsMark(a[i])
    requires rest != [] ==> IsMark(rest[0])
    ensures AuthorityEnd(a + rest) == |a|
  {
    if a == [] {
      assert a + rest == rest;
    } else {
      AuthorityEndAt(a[1..], rest);
      assert (a + rest)[1..] == a[1..] + rest;
    }
  }

  /** Authority and the rest. */
  function SplitAuthority(rest: string): (string, string) {
    var k := AuthorityEnd(rest);
    (rest[..k], rest[k..])
  }

  function SplitHttp(s: string): Option<HttpUri> {
    var (scheme, after) := Cut(s, ':');
    if after.None? || !("//" <= after.value) then None
    else
      var (authority, tail) := SplitAuthority(after.value[2..]);
      Some(HttpUri(scheme, authority, SplitRelative(tail)))
  }

  ghost predicate FreeOfMarks(authority: string) {
    forall i :: 0 <= i < |authority| ==> !IsMark(authority[i])
  }

  lemma PrintSplitAuthority(rest: string)
    ensures var (authority, tail) := SplitAuthority(rest);
      && authority + tail == rest
      && FreeOfMarks(authority)
      && (tail != [] ==> IsMark(tail[0]))
  {
    var k := AuthorityEnd(rest);
    assert rest[..k] + rest[k..] == rest;
  }

  lemma PathStart(tail: string)
    requires tail != [] ==> IsMark(tail[0])
    ensures SplitRelative(tail).path != [] ==> SplitRelative(tail).path[0] == '/'
  {
    PrintSplitRelative(tail);
    var path := SplitRelative(tail).path;
    if path != [] {
      assert tail[0] == path[0] && path[0] in path;
    }
  }

  lemma SplitPrintAuthority(authority: string, tail: string)
    requires FreeOfMarks(authority) && (tail != [] ==> IsMark(tail[0]))
    ensures SplitAuthority(authority + tail) == (authority, tail)
  {
    AuthorityEndAt(authority, tail);
    assert (authority + tail)[..|authority|] == authority && (authority + tail)[|authority|..] == tail;
  }

  /** Parts that do not run into each other when printed. */
  ghost predicate WellSeparated(u: HttpUri) {
    && ':' !in u.scheme
    && FreeOfMarks(u.authority)
    && Separable(u.relative)
    && (u.relative.path != [] ==> u.relative.path[0] == '/')
  }

  lemma SchemePrint(scheme: string, rest: string)
    requires ':' !in scheme
    ensures Cut(scheme + "://" + rest, ':') == (scheme, Some("//" + rest))
    ensures ("//" + rest)[2..] == rest
  {
    assert scheme + "://" + rest == scheme + Optional(':', Some("//" + rest));
    CutPrint(scheme, ':', Some("//" + rest));
  }

  lemma PrintSplitHttp(s: string)
    requires SplitHttp(s).Some?
    ensures SplitHttp(s).value.ToString() == s
    ensures WellSeparated(SplitHttp(s).value)
  {
    var (scheme, after) := Cut(s, ':');
    PrintCut(s, ':');
    var rest := after.value[2..];
    PrintSplitAuthority(rest);
    var (authority, tail) := SplitAuthority(rest);
    PrintSplitRelative(tail);
    PathStart(tail);
    assert after.value == "//" + rest;
    ConcatScheme(scheme, authority, tail);
  }

  lemma ConcatScheme(scheme: string, authority: string, rel: string)
    ensures scheme + ([':'] + ("//" + (authority + rel))) == scheme + "://" + authority + rel
  {
  }

  lemma SplitPrintHttp(u: HttpUri)
    requires WellSeparated(u)
    ensures SplitHttp(u.ToString()) == Some(u)
  {
    var rest := u.authority + u.ToRelative();
    assert u.ToString() == u.scheme + "://" + rest;
    SchemePrint(u.scheme, rest);
    assert "//" <= "//" + rest;
    RelativeStart(u.relative);
    SplitPrintAuthority(u.authority, u.ToRelative());
    SplitPrintRelative(u.relative);
  }

  lemma RelativeStart(r: Relative)
    requires r.path != [] ==> r.path[0] == '/'
    ensures PrintRelative(r) != [] ==> IsMark(PrintRelative(r)[0])
  {
  }

  /** `authorityOk` stands for the checks on user info, host and port; the functions read host and port out. */
  datatype HttpLibrary = HttpLibrary(
    authorityOk: string -> bool,
    host: string -> string,
    port: string -> Option<nat>)

  predicate ValidHttp(lib: HttpLibrary, u: HttpUri) {
    && (u.scheme == "http" || u.scheme == "https")
    && u.authority != [] && lib.authorityOk(u.authority)
    && ValidRelative(u.relative)
  }

  function ParseHttp(lib: HttpLibrary, s: string): Option<HttpUri> {
    var u := SplitHttp(s);
    if u.Some? && ValidHttp(lib, u.value) then u else None
  }

  /** An HTTP URI prints as the string it was parsed from. */
  lemma HttpPrintsOriginal(lib: HttpLibrary, s: string)
    requires ParseHttp(lib, s).Some?
    ensures ParseHttp(lib, s).value.ToString() == s
    ensures WellSeparated(ParseHttp(lib, s).value)
  {
    PrintSplitHttp(s);
  }

  // ---------------------------------------------------------------------
  // 'ap' URIs

  const AP_PREFIX: string := "ap://"
  const AP_EF61_PREFIX: string := "ap+ef61://"

  /** A DID is represented by its printed form. */
  datatype ApUri = ApUri(did: string, location: Relative) {

    function Base(): string {
      AP_PREFIX + did
    }

    function ToDidUrl(): string {
      did + PrintRelative(location)
    }

    function ToString(): string {
      Base() + PrintRelative(location)
    }

    function WithoutQuery(): ApUri {
      ApUri(did, RemoveQuery(location))
    }
  }

  /** Percent decoding, and parsing of a decoded DID into its printed form (Ed25519 keys only). */
  datatype DidLibrary = DidLibrary(decode: string -> string, parse: string -> Option<string>) {

    /** Printed DIDs are plain, and printing and parsing a DID gives it back. */
    ghost predicate Ok() {
      && (forall s :: '%' !in s ==> decode(s) == s)
      && (forall d :: parse(d).Some? ==> IsPlainDid(parse(d).value) && parse(parse(d).value) == parse(d))
    }
  }

  predicate IsDidChar(c: char) {
    IsLetter(c) || IsDigit(c) || c == '.' || c == '_' || c == ':' || c == '%' || c == '-'
  }

  /** A separator, possibly percent-encoded. */
  function StripColon(s: string): Option<string> {
    if ":" <= s then Some(s[1..])
    else if "%3A" <= s then Some(s[3..])
    else None
  }

  function LetterRun(s: string): (k: nat)
    ensures k <= |s|
    ensures forall i :: 0 <= i < k ==> IsLetter(s[i])
    ensures k < |s| ==> !IsLetter(s[k])
  {
    if s == [] || !IsLetter(s[0]) then 0 else 1 + LetterRun(s[1..])
  }

  predicate MatchesDid(raw: string) {
    "did" <= raw &&
    var rest := StripColon(raw[3..]);
    rest.Some? &&
    var k := LetterRun(rest.value);
    k > 0 &&
    var id := StripColon(rest.value[k..]);
    id.Some? && id.value != [] && forall i :: 0 <= i < |id.value| ==> IsDidChar(id.value[i])
  }

  predicate IsPlainDid(did: string) {
    MatchesDid(did) && forall i :: 0 <= i < |did| ==> IsDidChar(did[i]) && did[i] != '%'
  }

  /** An absolute path that is not a network-path reference, with valid characters. */
  predicate ValidLocation(r: Relative) {
    && r.path != [] && r.path[0] == '/' && !("//" <= r.path)
    && ValidRelative(r)
  }

  function ParseDidUrl(lib: DidLibrary, s: string): Option<ApUri> {
    var i := FirstIndex(s, '/');
    if |s| - i < 2 || '\n' in s[i + 1..] || !MatchesDid(s[..i]) then None
    else
      var did := lib.parse(lib.decode(s[..i]));
      var location := SplitRelative(s[i..]);
      if did.None? || !ValidLocation(location) then None else Some(ApUri(did.value, location))
  }

  function ParseAp(lib: DidLibrary, s: string): Option<ApUri> {
    if AP_PREFIX <= s then ParseDidUrl(lib, s[|AP_PREFIX|..])
    else if AP_EF61_PREFIX <= s then ParseDidUrl(lib, s[|AP_EF61_PREFIX|..])
    else None
  }

  /** What parsing guarantees about an 'ap' URI. */
  ghost predicate ParsedAp(lib: DidLibrary, u: ApUri) {
    && IsPlainDid(u.did) && lib.parse(u.did) == Some(u.did)
    && ValidLocation(u.location)
  }

  lemma ParseDidUrlFacts(lib: DidLibrary, s: string)
    requires lib.Ok() && ParseDidUrl(lib, s).Some?
    ensures ParsedAp(lib, ParseDidUrl(lib, s).value)
    ensures |PrintRelative(ParseDidUrl(lib, s).value.location)| >= 2
  {
    var i := FirstIndex(s, '/');
    PrintSplitRelative(s[i..]);
  }

  lemma LocationHasNoBreak(r: Relative)
    requires ValidLocation(r)
    ensures '\n' !in PrintRelative(r)
  {
    ValidCharsExcludes(r.path, IsPathChar, '\n');
    if r.query.Some? {
      ValidCharsExcludes(r.query.value, IsQueryChar, '\n');
    }
    if r.fragment.Some? {
      ValidCharsExcludes(r.fragment.value, IsQueryChar, '\n');
    }
  }

  /** A DID and a location, unless the DID is not valid or the location is not. */
  function FromParts(lib: DidLibrary, head: string, location: Relative): Option<ApUri> {
    var did := lib.parse(lib.decode(head));
    if MatchesDid(head) && did.Some? && ValidLocation(location) && PrintRelative(location) != "/"
    then Some(ApUri(did.value, location)) else None
  }

  lemma DidUrlParts(lib: DidLibrary, head: string, location: Relative)
    requires '/' !in head && location.path != [] && location.path[0] == '/' && Separable(location)
    ensures ParseDidUrl(lib, head + PrintRelative(location)) == FromParts(lib, head, location)
  {
    var rel := PrintRelative(location);
    var s := head + rel;
    assert s == head + ['/'] + rel[1..];
    FirstIndexAt(head, '/', rel[1..]);
    assert s[..|head|] == head && s[|head|..] == rel && s[|head| + 1..] == rel[1..];
    SplitPrintRelative(location);
    if ValidLocation(location) {
      LocationHasNoBreak(location);
    }
    assert |rel| == 1 ==> rel == "/";
  }

  /** A DID URL parses back, exactly unless its location is a lone slash. */
  lemma DidUrlRoundTrip(lib: DidLibrary, u: ApUri)
    requires lib.Ok() && ParsedAp(lib, u)
    ensures ParseDidUrl(lib, u.ToDidUrl()) == if PrintRelative(u.location) == "/" then None else Some(u)
  {
    PlainDidHasNo(u.did, '/');
    ValidSeparable(u.location);
    DidUrlParts(lib, u.did, u.location);
    PlainDidHasNoPercent(u.did);
  }

  lemma PlainDidHasNo(did: string, c: char)
    requires IsPlainDid(did) && !IsDidChar(c)
    ensures c !in did
  {
  }

  lemma PlainDidHasNoPercent(did: string)
    requires IsPlainDid(did)
    ensures '%' !in did
  {
  }

  lemma ApRoundTrip(lib: DidLibrary, u: ApUri)
    requires lib.Ok() && ParsedAp(lib, u)
    ensures ParseAp(lib, u.ToString()) == if PrintRelative(u.location) == "/" then None else Some(u)
  {
    ConcatThree(AP_PREFIX, u.did, PrintRelative(u.location));
    PrefixedDidUrl(lib, u.ToDidUrl());
    DidUrlRoundTrip(lib, u);
  }

  lemma PrefixedDidUrl(lib: DidLibrary, didUrl: string)
    ensures ParseAp(lib, AP_PREFIX + didUrl) == ParseDidUrl(lib, didUrl)
  {
    StripPrefix(AP_PREFIX, didUrl);
  }

  // ---------------------------------------------------------------------
  // Exactly which strings are accepted

  /** A string is an HTTP URI with given parts exactly when it is made up of them and they are valid. */
  lemma HttpExactly(lib: HttpLibrary, s: string, u: HttpUri)
    ensures ParseHttp(lib, s) == Some(u) <==>
      && s == u.scheme + "://" + u.authority + PrintRelative(u.relative)
      && (u.scheme == "http" || u.scheme == "https")
      && u.authority != [] && lib.authorityOk(u.authority) && FreeOfMarks(u.authority)
      && (u.relative.path != [] ==> u.relative.path[0] == '/')
      && ValidChars(u.relative.path, IsPathChar)
      && (u.relative.query.Some? ==> ValidChars(u.relative.query.value, IsQueryChar))
      && (u.relative.fragment.Some? ==> ValidChars(u.relative.fragment.value, IsQueryChar))
  {
    if ParseHttp(lib, s) == Some(u) {
      HttpPrintsOriginal(lib, s);
    }
    if s == u.ToString() && ValidHttp(lib, u) && FreeOfMarks(u.authority)
      && (u.relative.path != [] ==> u.relative.path[0] == '/')
    {
      ValidSeparable(u.relative);
      assert ':' !in "http" && ':' !in "https";
      SplitPrintHttp(u);
    }
  }

  /** Percent signs introduce two hexadecimal digits; every other character has to be allowed. */
  lemma EscapesExactly(a: char, b: char, c: char, rest: string, allowed: char -> bool)
    ensures ValidChars([], allowed)
    ensures c != '%' ==> (ValidChars([c] + rest, allowed) <==> allowed(c) && ValidChars(rest, allowed))
    ensures ValidChars(['%', a, b] + rest, allowed) <==> IsHex(a) && IsHex(b) && ValidChars(rest, allowed)
    ensures !ValidChars(['%'], allowed) && !ValidChars(['%', a], allowed)
  {
    assert ([c] + rest)[1..] == rest && (['%', a, b] + rest)[3..] == rest;
  }

  /**
    A DID URL is read exactly when it is a DID followed by an absolute path
    that is not a network path, with valid query and fragment, and more than a
    lone slash.
   */
  lemma DidUrlExactly(lib: DidLibrary, s: string, u: ApUri)
    ensures ParseDidUrl(lib, s) == Some(u) <==> exists raw :: IsDidUrl(lib, s, raw, u)
  {
    if ParseDidUrl(lib, s) == Some(u) {
      DidUrlRead(lib, s, u);
    }
    if raw :| IsDidUrl(lib, s, raw, u) {
      DidUrlBuilt(lib, s, raw, u);
    }
  }

  lemma DidUrlRead(lib: DidLibrary, s: string, u: ApUri)
    requires ParseDidUrl(lib, s) == Some(u)
    ensures IsDidUrl(lib, s, s[..FirstIndex(s, '/')], u)
  {
    var i := FirstIndex(s, '/');
    PrintSplitRelative(s[i..]);
    assert s == s[..i] + s[i..];
  }

  lemma DidUrlBuilt(lib: DidLibrary, s: string, raw: string, u: ApUri)
    requires IsDidUrl(lib, s, raw, u)
    ensures ParseDidUrl(lib, s) == Some(u)
  {
    ValidSeparable(u.location);
    DidHasNoSlash(raw);
    DidUrlParts(lib, raw, u.location);
  }

  ghost predicate IsDidUrl(lib: DidLibrary, s: string, raw: string, u: ApUri) {
    && s == raw + PrintRelative(u.location) && PrintRelative(u.location) != "/"
    && MatchesDid(raw) && lib.parse(lib.decode(raw)) == Some(u.did)
    && u.location.path != [] && u.location.path[0] == '/' && !(|u.location.path| >= 2 && u.location.path[1] == '/')
    && ValidChars(u.location.path, IsPathChar)
    && (u.location.query.Some? ==> ValidChars(u.location.query.value, IsQueryChar))
    && (u.location.fragment.Some? ==> ValidChars(u.location.fragment.value, IsQueryChar))
  }

  lemma DidHasNoSlash(raw: string)
    requires MatchesDid(raw)
    ensures '/' !in raw
  {
    var c, method_, d, id := DidHasShape(raw);
    assert '/' !in "did" && '/' !in c && '/' !in method_ && '/' !in d && '/' !in id;
    NotInConcat("did", c + (method_ + (d + id)), '/');
    NotInConcat(c, method_ + (d + id), '/');
    NotInConcat(method_, d + id, '/');
    NotInConcat(d, id, '/');
  }

  lemma NotInConcat(a: string, b: string, c: char)
    ensures c in a + b <==> c in a || c in b
  {
  }

  /** The two spellings of the scheme of 'ap' URIs. */
  lemma ApSchemes(lib: DidLibrary, didUrl: string)
    ensures ParseAp(lib, "ap://" + didUrl) == ParseDidUrl(lib, didUrl)
    ensures ParseAp(lib, "ap+ef61://" + didUrl) == ParseDidUrl(lib, didUrl)
  {
    PrefixedDidUrl(lib, didUrl);
    OtherScheme(didUrl);
    StripPrefix(AP_EF61_PREFIX, didUrl);
  }

  lemma OtherScheme(didUrl: string)
    ensures !(AP_PREFIX <= AP_EF61_PREFIX + didUrl)
  {
    var s := AP_EF61_PREFIX + didUrl;
    assert s[2] == AP_EF61_PREFIX[2] == '+' && AP_PREFIX[2] == ':';
  }

  predicate IsSeparator(s: string) {
    s == ":" || s == "%3A"
  }

  /** `raw` is "did", a method of letters and an identifier, with separators between them. */
  ghost predicate DidOf(raw: string, c: string, method_: string, d: string, id: string) {
    && raw == "did" + (c + (method_ + (d + id)))
    && IsSeparator(c) && IsSeparator(d)
    && method_ != [] && (forall i :: 0 <= i < |method_| ==> IsLetter(method_[i]))
    && id != [] && (forall i :: 0 <= i < |id| ==> IsDidChar(id[i]))
  }

  lemma StripSeparator(c: string, rest: string)
    requires IsSeparator(c)
    ensures StripColon(c + rest) == Some(rest)
  {
    var s := c + rest;
    if c == ":" {
      assert s[1..] == rest;
    } else {
      assert s[0] == '%' && s[3..] == rest;
    }
  }

  lemma SeparatorOf(s: string) returns (c: string)
    requires StripColon(s).Some?
    ensures IsSeparator(c) && s == c + StripColon(s).value
  {
    c := if ":" <= s then ":" else "%3A";
  }

  lemma {:induction false} LetterRunAt(m: string, rest: string)
    requires forall i :: 0 <= i < |m| ==> IsLetter(m[i])
    requires rest != [] ==> !IsLetter(rest[0])
    ensures LetterRun(m + rest) == |m|
  {
    if m == [] {
      assert m + rest == rest;
    } else {
      LetterRunAt(m[1..], rest);
      assert (m + rest)[1..] == m[1..] + rest;
    }
  }

  /** The shape of a DID, its separators possibly percent-encoded. */
  lemma DidAccepted(raw: string, c: string, method_: string, d: string, id: string)
    requires DidOf(raw, c, method_, d, id)
    ensures MatchesDid(raw)
  {
    StripPrefix("did", c + (method_ + (d + id)));
    StripSeparator(c, method_ + (d + id));
    LetterRunAt(method_, d + id);
    StripPrefix(method_, d + id);
    StripSeparator(d, id);
  }

  lemma DidHasShape(raw: string) returns (c: string, method_: string, d: string, id: string)
    requires MatchesDid(raw)
    ensures DidOf(raw, c, method_, d, id)
  {
    var tail := raw[3..];
    var rest := StripColon(tail).value;
    var k := LetterRun(rest);
    method_ := rest[..k];
    id := StripColon(rest[k..]).value;
    c := SeparatorOf(tail);
    d := SeparatorOf(rest[k..]);
    assert raw == "did" + tail && rest == method_ + rest[k..];
  }

  // ---------------------------------------------------------------------
  // Character classes in full

  predicate IsAlphanumeric(c: char) {
    'A' <= c <= 'Z' || 'a' <= c <= 'z' || '0' <= c <= '9'
  }

  /** Path, query and fragment characters, sections 3.3 to 3.5 of RFC 3986. */
  lemma UriCharacters(c: char)
    ensures IsPathChar(c) <==> IsAlphanumeric(c) || c in "-._~!$&'()*+,;=:@/"
    ensures IsQueryChar(c) <==> IsAlphanumeric(c) || c in "-._~!$&'()*+,;=:@/?"
    ensures IsHex(c) <==> '0' <= c <= '9' || c in "abcdefABCDEF"
    ensures IsDidChar(c) <==> IsAlphanumeric(c) || c in "._:%-"
  {
  }
}
