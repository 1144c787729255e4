/** Identifiers of local actors, activities and objects: building them and recognizing them. */
module LocalIds {
  import opened Wrappers
  import opened Text
  import opened Uri
  import opened CanonicalUri

  /** A UUID is represented by its printed form; reading one is left to a library. */
  datatype IdLibrary = IdLibrary(uris: Library, parseUuid: string -> Option<string>)

  datatype AuthorityRoot = Server(uri: HttpUri) | Key(did: string) {

    function ToString(): string {
      match this
      case Server(uri) => uri.ToString()
      case Key(did) => AP_PREFIX + did
    }
  }

  datatype Authority = Authority(root: AuthorityRoot, httpBase: Option<HttpUri>, preferCompatible: bool) {

    /** Base of object IDs. */
    function ToString(): string {
      if root.Key? && httpBase.Some? && preferCompatible
      then httpBase.value.ToString() + GATEWAY_PATH_PREFIX + root.did
      else root.ToString()
    }
  }

  datatype UuidOrUsername = Uuid(uuid: string) | Username(username: string)

  // ---------------------------------------------------------------------
  // Building

  function LocalActorPath(root: AuthorityRoot, internalId: string, username: string): string {
    match root
    case Server(_) => "/users/" + username
    case Key(_) => "/actors/" + internalId
  }

  function LocalActivityPath(activityType: string, internalId: string): string {
    "/activities/" + ToLower(activityType) + "/" + internalId
  }

  /** The canonical ID for a path; None where the source expects success. */
  function LocalId(lib: Library, root: AuthorityRoot, path: string): Option<CanonicalUri> {
    ParseCanonical(lib, root.ToString() + path)
  }

  /** Canonical IDs of portable objects get a gateway if compatible IDs are preferred. */
  function Build(a: Authority, id: CanonicalUri): NonCanonicalUri {
    match id
    case CanonicalHttp(u) => Http(u)
    case CanonicalAp(u) => Ap(if a.preferCompatible then a.httpBase else None, u)
  }

  function LocalObjectId(a: Authority, internalId: string): string {
    a.ToString() + "/objects/" + internalId
  }

  // ---------------------------------------------------------------------
  // Recognizing

  predicate IsUsernameChar(c: char) {
    IsDigit(c) || IsLetter(c) || c == '_' || c == '-'
  }

  predicate IsUuidChar(c: char) {
    IsDigit(c) || 'a' <= c <= 'f' || c == '-'
  }

  predicate AllNonEmpty(s: string, p: char -> bool) {
    s != [] && forall i :: 0 <= i < |s| ==> p(s[i])
  }

  /** What follows the prefix, if it is non-empty and consists of allowed characters. */
  function MatchTail(path: string, prefix: string, allowed: char -> bool): Option<string> {
    if prefix <= path && AllNonEmpty(path[|prefix|..], allowed) then Some(path[|prefix|..]) else None
  }

  /** A lower-case type, a slash and a UUID. */
  function MatchActivity(path: string): Option<string> {
    if !("/activities/" <= path) then None
    else
      var (kind, id) := Cut(path[|"/activities/"|..], '/');
      if AllNonEmpty(kind, (c: char) => 'a' <= c <= 'z') && id.Some? && AllNonEmpty(id.value, IsUuidChar)
      then id else None
  }

  /** Base and path of a canonical ID. */
  function BaseAndPath(c: CanonicalUri): (string, string) {
    match c
    case CanonicalHttp(u) => (u.Base(), u.ToRelative())
    case CanonicalAp(u) => (u.Base(), PrintRelative(u.location))
  }

  /** The path of an ID under this authority. */
  function LocalPath(lib: Library, a: Authority, id: string): Option<string> {
    match ParseCanonical(lib, id)
    case None => None
    case Some(c) => if BaseAndPath(c).0 == a.root.ToString() then Some(BaseAndPath(c).1) else None
  }

  function ParseLocalActorId(lib: IdLibrary, a: Authority, id: string): Option<UuidOrUsername> {
    match LocalPath(lib.uris, a, id)
    case None => None
    case Some(path) =>
      match a.root
      case Server(_) =>
        (match MatchTail(path, "/users/", IsUsernameChar)
         case None => None
         case Some(username) => Some(Username(username)))
      case Key(_) =>
        (match ParseUuidTail(lib, MatchTail(path, "/actors/", IsUuidChar))
         case None => None
         case Some(uuid) => Some(Uuid(uuid)))
  }

  function ParseUuidTail(lib: IdLibrary, tail: Option<string>): Option<string> {
    match tail
    case None => None
    case Some(s) => lib.parseUuid(s)
  }

  function ParseLocalObjectId(lib: IdLibrary, a: Authority, id: string): Option<string> {
    match LocalPath(lib.uris, a, id)
    case None => None
    case Some(path) => ParseUuidTail(lib, MatchTail(path, "/objects/", IsUuidChar))
  }

  /** Object IDs are accepted as activity IDs of an older format. */
  function ParseLocalActivityId(lib: IdLibrary, a: Authority, id: string): Option<string> {
    var legacy := ParseLocalObjectId(lib, a, id);
    if legacy.Some? then legacy
    else
      match LocalPath(lib.uris, a, id)
      case None => None
      case Some(path) => ParseUuidTail(lib, MatchActivity(path))
  }

  // ---------------------------------------------------------------------
  // Round trips

  ghost predicate AuthorityOk(lib: Library, a: Authority) {
    && lib.did.Ok()
    && (match a.root
        case Server(uri) => IsGateway(lib, uri)
        case Key(did) => IsPlainDid(did) && lib.did.parse(did) == Some(did))
    && (a.httpBase.Some? ==> IsGateway(lib, a.httpBase.value))
  }

  ghost predicate IsUuid(lib: IdLibrary, u: string) {
    AllNonEmpty(u, IsUuidChar) && lib.parseUuid(u) == Some(u)
  }

  /** A plain absolute path that is not a gateway path. */
  ghost predicate PlainPath(path: string) {
    && |path| >= 2 && path[0] == '/' && path[1] != '/' && path[1] != '.'
    && IsPlainText(path)
  }

  function IdOf(root: AuthorityRoot, path: string): CanonicalUri {
    match root
    case Server(uri) => CanonicalHttp(HttpUri(uri.scheme, uri.authority, Relative(path, None, None)))
    case Key(did) => CanonicalAp(ApUri(did, Relative(path, None, None)))
  }

  lemma PlainPathValid(path: string)
    requires PlainPath(path)
    ensures ValidLocation(Relative(path, None, None))
    ensures Separable(Relative(path, None, None))
    ensures PrintRelative(Relative(path, None, None)) == path
    ensures !(GATEWAY_PATH_PREFIX <= path)
  {
    ValidCharsPlain(path, IsPathChar);
    PrefixAgrees("//", path);
    PrefixAgrees(GATEWAY_PATH_PREFIX, path);
    assert Optional('?', None) == "" && Optional('#', None) == "";
  }

  lemma PrefixAgrees(prefix: string, path: string)
    requires |prefix| >= 2 && |path| >= 2 && prefix[1] != path[1]
    ensures !(prefix <= path)
  {
  }

  /** The string of a local ID parses to the ID, whatever form it is written in. */
  lemma LocalIdForms(lib: Library, a: Authority, path: string)
    requires AuthorityOk(lib, a) && PlainPath(path)
    ensures IdOf(a.root, path).ToString() == a.root.ToString() + path
    ensures Canonicalize(lib, Build(a, IdOf(a.root, path)).ToString()) == Some(IdOf(a.root, path))
    ensures ParseCanonical(lib, a.root.ToString() + path) == Some(IdOf(a.root, path))
    ensures BaseAndPath(IdOf(a.root, path)) == (a.root.ToString(), path)
  {
    match a.root {
      case Server(uri) => ServerIdForms(lib, uri, path);
      case Key(did) => KeyIdForms(lib, a, did, path);
    }
  }

  lemma ServerIdForms(lib: Library, uri: HttpUri, path: string)
    requires IsGateway(lib, uri) && PlainPath(path)
    ensures var u := HttpUri(uri.scheme, uri.authority, Relative(path, None, None));
      && u.ToString() == uri.ToString() + path
      && u.Base() == uri.ToString() && u.ToRelative() == path
      && Parse(lib, u.ToString()) == Some(Http(u))
  {
    var u := HttpUri(uri.scheme, uri.authority, Relative(path, None, None));
    PlainPathValid(path);
    GatewayPrints(lib, uri);
    HttpParses(lib, u);
  }

  lemma KeyIdForms(lib: Library, a: Authority, did: string, path: string)
    requires AuthorityOk(lib, a) && a.root == Key(did) && PlainPath(path)
    ensures var u := ApUri(did, Relative(path, None, None));
      && u.ToString() == AP_PREFIX + did + path
      && PrintRelative(u.location) == path
      && Canonicalize(lib, u.ToString()) == Some(CanonicalAp(u))
      && Canonicalize(lib, Build(a, CanonicalAp(u)).ToString()) == Some(CanonicalAp(u))
  {
    var u := ApUri(did, Relative(path, None, None));
    PlainPathValid(path);
    ApParses(lib, u);
    CanonicalApFacts(lib, u);
    if a.preferCompatible && a.httpBase.Some? {
      CompatibleParses(lib, a.httpBase.value, u);
    }
  }

  lemma LocalPathOfId(lib: Library, a: Authority, path: string)
    requires AuthorityOk(lib, a) && PlainPath(path)
    ensures LocalPath(lib, a, IdOf(a.root, path).ToString()) == Some(path)
  {
    LocalIdForms(lib, a, path);
  }

  lemma PrefixedPath(prefix: string, tail: string, allowed: char -> bool)
    requires PlainPath(prefix)
    requires AllNonEmpty(tail, allowed) && forall c :: allowed(c) ==> c != '%' && IsPathChar(c)
    ensures PlainPath(prefix + tail)
    ensures MatchTail(prefix + tail, prefix, allowed) == Some(tail)
  {
    assert (prefix + tail)[|prefix|..] == tail;
  }

  /** A local actor ID, built and written in compatible or canonical form, is recognized as the same actor. */
  lemma ActorIdRoundTrip(lib: IdLibrary, a: Authority, internalId: string, username: string)
    requires AuthorityOk(lib.uris, a) && IsUuid(lib, internalId) && AllNonEmpty(username, IsUsernameChar)
    ensures var id := LocalId(lib.uris, a.root, LocalActorPath(a.root, internalId, username));
      && id.Some?
      && Canonicalize(lib.uris, Build(a, id.value).ToString()) == id
      && ParseLocalActorId(lib, a, id.value.ToString()) ==
           Some(if a.root.Server? then Username(username) else Uuid(internalId))
  {
    var path := LocalActorPath(a.root, internalId, username);
    if a.root.Server? {
      PrefixedPath("/users/", username, IsUsernameChar);
    } else {
      PrefixedPath("/actors/", internalId, IsUuidChar);
    }
    LocalIdForms(lib.uris, a, path);
    LocalPathOfId(lib.uris, a, path);
  }

  lemma LowerLetters(s: string)
    requires AllNonEmpty(s, IsLetter)
    ensures AllNonEmpty(ToLower(s), (c: char) => 'a' <= c <= 'z')
  {
  }

  lemma ActivityPathMatches(kind: string, id: string)
    requires AllNonEmpty(kind, IsLetter) && AllNonEmpty(id, IsUuidChar)
    ensures PlainPath(LocalActivityPath(kind, id))
    ensures MatchActivity(LocalActivityPath(kind, id)) == Some(id)
    ensures MatchTail(LocalActivityPath(kind, id), "/objects/", IsUuidChar) == None
  {
    var low := ToLower(kind);
    LowerLetters(kind);
    ActivityPathPlain(low, id);
    ActivityPathCut(low, id);
    PrefixAgrees("/objects/", LocalActivityPath(kind, id));
  }

  lemma ActivityPathCut(low: string, id: string)
    requires AllNonEmpty(low, (c: char) => 'a' <= c <= 'z') && AllNonEmpty(id, IsUuidChar)
    ensures MatchActivity("/activities/" + low + "/" + id) == Some(id)
  {
    var rest := low + Optional('/', Some(id));
    assert "/activities/" + low + "/" + id == "/activities/" + rest;
    StripPrefix("/activities/", rest);
    assert '/' !in low;
    CutPrint(low, '/', Some(id));
  }

  lemma ActivityPathPlain(low: string, id: string)
    requires AllNonEmpty(low, (c: char) => 'a' <= c <= 'z') && AllNonEmpty(id, IsUuidChar)
    ensures PlainPath("/activities/" + low + "/" + id)
  {
    assert IsPlainText("/activities/") && IsPlainText(low) && IsPlainText("/") && IsPlainText(id);
  }

  /** A local activity ID is recognized as the same activity, and never as an object. */
  lemma ActivityIdRoundTrip(lib: IdLibrary, a: Authority, activityType: string, internalId: string)
    requires AuthorityOk(lib.uris, a) && IsUuid(lib, internalId) && AllNonEmpty(activityType, IsLetter)
    ensures var id := LocalId(lib.uris, a.root, LocalActivityPath(activityType, internalId));
      && id.Some?
      && Canonicalize(lib.uris, Build(a, id.value).ToString()) == id
      && ParseLocalActivityId(lib, a, id.value.ToString()) == Some(internalId)
      && ParseLocalObjectId(lib, a, id.value.ToString()) == None
  {
    var path := LocalActivityPath(activityType, internalId);
    ActivityPathMatches(activityType, internalId);
    LocalIdForms(lib.uris, a, path);
    LocalPathOfId(lib.uris, a, path);
  }

  /** A local object ID is recognized as the same object, and also as an activity ID of the older format. */
  lemma ObjectIdRoundTrip(lib: IdLibrary, a: Authority, internalId: string)
    requires AuthorityOk(lib.uris, a) && IsUuid(lib, internalId)
    ensures var id := Canonicalize(lib.uris, LocalObjectId(a, internalId));
      && id.Some?
      && ParseLocalObjectId(lib, a, id.value.ToString()) == Some(internalId)
      && ParseLocalActivityId(lib, a, id.value.ToString()) == Some(internalId)
  {
    var path := "/objects/" + internalId;
    PrefixedPath("/objects/", internalId, IsUuidChar);
    LocalIdForms(lib.uris, a, path);
    LocalPathOfId(lib.uris, a, path);
    ObjectIdIsBuilt(lib.uris, a, internalId);
  }

  lemma ObjectIdIsBuilt(lib: Library, a: Authority, internalId: string)
    requires AuthorityOk(lib, a) && PlainPath("/objects/" + internalId)
    ensures LocalObjectId(a, internalId) == Build(a, IdOf(a.root, "/objects/" + internalId)).ToString()
  {
    var path := "/objects/" + internalId;
    assert LocalObjectId(a, internalId) == a.ToString() + path;
    if a.root.Key? && a.httpBase.Some? && a.preferCompatible {
      PlainPathValid(path);
      CompatibleText(a.httpBase.value.ToString(), a.root.did, path);
    } else {
      LocalIdForms(lib, a, path);
    }
  }

  lemma CompatibleText(base: string, did: string, path: string)
    requires PrintRelative(Relative(path, None, None)) == path
    ensures WithGateway(ApUri(did, Relative(path, None, None)), base) == base + GATEWAY_PATH_PREFIX + did + path
  {
    assert base + GATEWAY_PATH_PREFIX + did + path == base + GATEWAY_PATH_PREFIX + (did + path);
  }

  // ---------------------------------------------------------------------
  // Exactly which strings are recognized

  /** A string with a local path is the authority followed by that path. */
  lemma LocalPathMeans(lib: Library, a: Authority, id: string)
    requires LocalPath(lib, a, id).Some?
    ensures id == a.root.ToString() + LocalPath(lib, a, id).value
  {
    var c := ParseCanonical(lib, id).value;
    assert c.ToString() == BaseAndPath(c).0 + BaseAndPath(c).1;
  }

  lemma LocalPathExactly(lib: Library, a: Authority, path: string)
    requires AuthorityOk(lib, a) && PlainPath(path)
    ensures LocalPath(lib, a, a.root.ToString() + path) == Some(path)
  {
    LocalIdForms(lib, a, path);
    LocalPathOfId(lib, a, path);
  }

  /** What follows the prefix in the local path of an ID. */
  function LocalTail(lib: Library, a: Authority, prefix: string, allowed: char -> bool, id: string): Option<string> {
    match LocalPath(lib, a, id)
    case None => None
    case Some(path) => MatchTail(path, prefix, allowed)
  }

  lemma TailMeans(path: string, prefix: string, allowed: char -> bool)
    requires MatchTail(path, prefix, allowed).Some?
    ensures path == prefix + MatchTail(path, prefix, allowed).value
    ensures AllNonEmpty(MatchTail(path, prefix, allowed).value, allowed)
  {
  }

  lemma TailRead(lib: Library, a: Authority, prefix: string, allowed: char -> bool, id: string, u: string)
    requires LocalTail(lib, a, prefix, allowed, id) == Some(u)
    ensures AllNonEmpty(u, allowed) && id == a.root.ToString() + (prefix + u)
  {
    LocalPathMeans(lib, a, id);
    TailMeans(LocalPath(lib, a, id).value, prefix, allowed);
  }

  lemma TailBuilt(lib: Library, a: Authority, prefix: string, allowed: char -> bool, u: string)
    requires AuthorityOk(lib, a) && PlainPath(prefix)
    requires AllNonEmpty(u, allowed) && forall c :: allowed(c) ==> c != '%' && IsPathChar(c)
    ensures LocalTail(lib, a, prefix, allowed, a.root.ToString() + (prefix + u)) == Some(u)
  {
    PrefixedPath(prefix, u, allowed);
    LocalPathExactly(lib, a, prefix + u);
  }

  /** `id` is the prefix under this authority followed by a UUID that reads as `v`. */
  ghost predicate HasForm(lib: IdLibrary, a: Authority, prefix: string, id: string, v: string) {
    exists u :: IsFormed(lib, a, prefix, id, u, v)
  }

  ghost predicate IsFormed(lib: IdLibrary, a: Authority, prefix: string, id: string, u: string, v: string) {
    id == a.root.ToString() + (prefix + u) && AllNonEmpty(u, IsUuidChar) && lib.parseUuid(u) == Some(v)
  }

  /** A prefix and a UUID are recognized exactly in the strings made up of them. */
  lemma UuidTailExactly(lib: IdLibrary, a: Authority, prefix: string, id: string, v: string)
    requires AuthorityOk(lib.uris, a) && PlainPath(prefix)
    ensures ParseUuidTail(lib, LocalTail(lib.uris, a, prefix, IsUuidChar, id)) == Some(v) <==>
      HasForm(lib, a, prefix, id, v)
  {
    var tail := LocalTail(lib.uris, a, prefix, IsUuidChar, id);
    if tail.Some? {
      TailRead(lib.uris, a, prefix, IsUuidChar, id, tail.value);
      assert lib.parseUuid(tail.value) == Some(v) ==> IsFormed(lib, a, prefix, id, tail.value, v);
    }
    if HasForm(lib, a, prefix, id, v) {
      var u :| IsFormed(lib, a, prefix, id, u, v);
      TailBuilt(lib.uris, a, prefix, IsUuidChar, u);
    }
  }

  lemma PlainPrefixes()
    ensures PlainPath("/objects/") && PlainPath("/actors/") && PlainPath("/users/")
  {
  }

  /** A string is a local object ID exactly when it is the authority, "/objects/" and a UUID. */
  lemma ObjectIdsExactly(lib: IdLibrary, a: Authority, id: string, v: string)
    requires AuthorityOk(lib.uris, a)
    ensures ParseLocalObjectId(lib, a, id) == Some(v) <==> HasForm(lib, a, "/objects/", id, v)
  {
    PlainPrefixes();
    UuidTailExactly(lib, a, "/objects/", id, v);
    assert ParseLocalObjectId(lib, a, id) == ParseUuidTail(lib, LocalTail(lib.uris, a, "/objects/", IsUuidChar, id));
  }

  /** The prefix of the current format: the lower-case type is part of the path. */
  function ActivityPrefix(kind: string): string {
    "/activities/" + kind + "/"
  }

  ghost predicate IsKind(kind: string) {
    AllNonEmpty(kind, (c: char) => 'a' <= c <= 'z')
  }

  lemma ActivityPathMeans(path: string) returns (kind: string)
    requires MatchActivity(path).Some?
    ensures IsKind(kind) && AllNonEmpty(MatchActivity(path).value, IsUuidChar)
    ensures path == ActivityPrefix(kind) + MatchActivity(path).value
  {
    var rest := path[|"/activities/"|..];
    kind := Cut(rest, '/').0;
    PrintCut(rest, '/');
    var u := MatchActivity(path).value;
    assert path == "/activities/" + rest && rest == kind + (['/'] + u);
    assert "/activities/" + (kind + (['/'] + u)) == "/activities/" + kind + "/" + u;
  }

  /**
    A string is accepted as a local activity ID exactly when it is the
    authority followed by "/activities/", a type and a UUID, or has the form of
    an object ID; no string has both forms.
   */
  lemma ActivityIdsExactly(lib: IdLibrary, a: Authority, id: string, v: string)
    requires AuthorityOk(lib.uris, a)
    ensures ParseLocalActivityId(lib, a, id) == Some(v) <==>
      || HasForm(lib, a, "/objects/", id, v)
      || exists kind :: IsKind(kind) && HasForm(lib, a, ActivityPrefix(kind), id, v)
    ensures forall kind :: IsKind(kind) && HasForm(lib, a, ActivityPrefix(kind), id, v) ==>
      ParseLocalObjectId(lib, a, id) == None
  {
    ObjectIdsExactly(lib, a, id, v);
    forall kind | IsKind(kind) && HasForm(lib, a, ActivityPrefix(kind), id, v)
      ensures ParseLocalObjectId(lib, a, id) == None && ParseLocalActivityId(lib, a, id) == Some(v)
    {
      ActivityFormAccepted(lib, a, kind, id, v);
    }
    if ParseLocalActivityId(lib, a, id) == Some(v) && ParseLocalObjectId(lib, a, id).None? {
      ActivityAcceptedForm(lib, a, id, v);
    }
  }

  lemma ActivityFormAccepted(lib: IdLibrary, a: Authority, kind: string, id: string, v: string)
    requires AuthorityOk(lib.uris, a) && IsKind(kind) && HasForm(lib, a, ActivityPrefix(kind), id, v)
    ensures ParseLocalObjectId(lib, a, id) == None && ParseLocalActivityId(lib, a, id) == Some(v)
  {
    var u :| IsFormed(lib, a, ActivityPrefix(kind), id, u, v);
    var path := ActivityPrefix(kind) + u;
    ActivityPathFacts(kind, u);
    LocalPathExactly(lib.uris, a, path);
    ActivityPathParsed(lib, a, id, path, u);
  }

  lemma ActivityPathFacts(kind: string, u: string)
    requires IsKind(kind) && AllNonEmpty(u, IsUuidChar)
    ensures var path := ActivityPrefix(kind) + u;
      && PlainPath(path) && MatchActivity(path) == Some(u) && MatchTail(path, "/objects/", IsUuidChar) == None
  {
    ActivityPathPlain(kind, u);
    ActivityPathCut(kind, u);
    PrefixAgrees("/objects/", ActivityPrefix(kind) + u);
  }

  lemma ActivityPathParsed(lib: IdLibrary, a: Authority, id: string, path: string, u: string)
    requires LocalPath(lib.uris, a, id) == Some(path)
    requires MatchActivity(path) == Some(u) && MatchTail(path, "/objects/", IsUuidChar) == None
    ensures ParseLocalObjectId(lib, a, id) == None && ParseLocalActivityId(lib, a, id) == lib.parseUuid(u)
  {
  }

  lemma ActivityAcceptedForm(lib: IdLibrary, a: Authority, id: string, v: string)
    requires ParseLocalActivityId(lib, a, id) == Some(v) && ParseLocalObjectId(lib, a, id).None?
    ensures exists kind :: IsKind(kind) && HasForm(lib, a, ActivityPrefix(kind), id, v)
  {
    LocalPathMeans(lib.uris, a, id);
    var path := LocalPath(lib.uris, a, id).value;
    var kind := ActivityPathMeans(path);
    assert IsFormed(lib, a, ActivityPrefix(kind), id, MatchActivity(path).value, v);
  }

  /** A string is a local actor ID exactly when it is the authority, the prefix of its kind, and a username or UUID. */
  lemma ActorIdsExactly(lib: IdLibrary, a: Authority, id: string, v: string)
    requires AuthorityOk(lib.uris, a)
    ensures a.root.Server? ==>
      (ParseLocalActorId(lib, a, id) == Some(Username(v)) <==>
        AllNonEmpty(v, IsUsernameChar) && id == a.root.ToString() + ("/users/" + v))
    ensures a.root.Key? ==> (ParseLocalActorId(lib, a, id) == Some(Uuid(v)) <==> HasForm(lib, a, "/actors/", id, v))
  {
    if a.root.Server? {
      ServerActorIds(lib, a, id, v);
    } else {
      KeyActorIds(lib, a, id, v);
    }
  }

  lemma ServerActorIds(lib: IdLibrary, a: Authority, id: string, v: string)
    requires AuthorityOk(lib.uris, a) && a.root.Server?
    ensures ParseLocalActorId(lib, a, id) == Some(Username(v)) <==>
      AllNonEmpty(v, IsUsernameChar) && id == a.root.ToString() + ("/users/" + v)
  {
    PlainPrefixes();
    var tail := LocalTail(lib.uris, a, "/users/", IsUsernameChar, id);
    assert ParseLocalActorId(lib, a, id) == if tail.Some? then Some(Username(tail.value)) else None;
    if tail.Some? {
      TailRead(lib.uris, a, "/users/", IsUsernameChar, id, tail.value);
    }
    if AllNonEmpty(v, IsUsernameChar) && id == a.root.ToString() + ("/users/" + v) {
      TailBuilt(lib.uris, a, "/users/", IsUsernameChar, v);
    }
  }

  lemma KeyActorIds(lib: IdLibrary, a: Authority, id: string, v: string)
    requires AuthorityOk(lib.uris, a) && a.root.Key?
    ensures ParseLocalActorId(lib, a, id) == Some(Uuid(v)) <==> HasForm(lib, a, "/actors/", id, v)
  {
    PlainPrefixes();
    UuidTailExactly(lib, a, "/actors/", id, v);
    var uuid := ParseUuidTail(lib, LocalTail(lib.uris, a, "/actors/", IsUuidChar, id));
    assert ParseLocalActorId(lib, a, id) == if uuid.Some? then Some(Uuid(uuid.value)) else None;
  }

  // ---------------------------------------------------------------------
  // The text of built IDs

  /** How a local ID is written: canonically, or for a key behind the server's gateway if that is preferred. */
  lemma BuiltText(lib: Library, a: Authority, path: string)
    requires AuthorityOk(lib, a) && PlainPath(path)
    ensures a.root.Server? ==> Build(a, IdOf(a.root, path)).ToString() == a.root.uri.ToString() + path
    ensures a.root.Key? ==>
      Build(a, IdOf(a.root, path)).ToString() ==
        (if a.preferCompatible && a.httpBase.Some?
         then a.httpBase.value.ToString() + "/.well-known/apgateway/" + (a.root.did + path)
         else "ap://" + a.root.did + path)
  {
    LocalIdForms(lib, a, path);
    PlainPathValid(path);
  }

  /** The same for object IDs, which are put together from the text of the authority. */
  lemma ObjectIdText(lib: Library, a: Authority, internalId: string)
    requires AuthorityOk(lib, a) && PlainPath("/objects/" + internalId)
    ensures a.root.Server? ==> LocalObjectId(a, internalId) == a.root.uri.ToString() + ("/objects/" + internalId)
    ensures a.root.Key? ==>
      LocalObjectId(a, internalId) ==
        (if a.preferCompatible && a.httpBase.Some?
         then a.httpBase.value.ToString() + "/.well-known/apgateway/" + (a.root.did + ("/objects/" + internalId))
         else "ap://" + a.root.did + ("/objects/" + internalId))
  {
    ObjectIdIsBuilt(lib, a, internalId);
    BuiltText(lib, a, "/objects/" + internalId);
  }

  /** The characters of usernames and UUIDs. */
  lemma IdCharacters(c: char)
    ensures IsUsernameChar(c) <==> IsAlphanumeric(c) || c in "_-"
    ensures IsUuidChar(c) <==> '0' <= c <= '9' || c in "abcdef-"
  {
  }
}
