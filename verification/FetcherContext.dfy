/** The pool of gateways through which 'ap' URIs are resolved. */
module FetcherContext {
  import opened Wrappers
  import opened Uri
  import opened CanonicalUri
  import opened GatewayForms

  datatype FetchError = UrlError | NoGateway

  /** Gateways found in an ID are put in front, last one first, unless they are in the pool. */
  function Merge(pool: seq<string>, found: seq<string>): seq<string> {
    if found == [] then pool
    else
      var rest := Merge(pool, found[1..]);
      if found[0] in rest then rest else [found[0]] + rest
  }

  ghost predicate Distinct(s: seq<string>) {
    forall i, j :: 0 <= i < j < |s| ==> s[i] != s[j]
  }

  /** Merging keeps the old pool as it is, adds exactly what is missing, and never adds anything twice. */
  lemma {:induction false} MergeAdds(pool: seq<string>, found: seq<string>)
    ensures var r := Merge(pool, found);
      && |pool| <= |r| && r[|r| - |pool|..] == pool
      && (forall g :: g in r <==> g in pool || g in found)
      && (Distinct(pool) ==> Distinct(r))
  {
    if found != [] {
      MergeAdds(pool, found[1..]);
      assert found == [found[0]] + found[1..];
      var rest := Merge(pool, found[1..]);
      if found[0] !in rest {
        var r := [found[0]] + rest;
        assert r[|r| - |pool|..] == rest[|rest| - |pool|..];
      }
    }
  }

  /** A gateway that is not in the pool and is not mentioned again. */
  predicate Newcomer(pool: seq<string>, found: seq<string>, i: nat) {
    i < |found| && found[i] !in pool && found[i] !in found[i + 1..]
  }

  ghost predicate IsFirstNewcomer(pool: seq<string>, found: seq<string>, i: nat) {
    Newcomer(pool, found, i) && forall j: nat :: j < i ==> !Newcomer(pool, found, j)
  }

  lemma {:induction false} NoNewcomer(pool: seq<string>, found: seq<string>)
    requires forall i: nat :: i < |found| ==> !Newcomer(pool, found, i)
    ensures Merge(pool, found) == pool
    ensures forall g :: g in found ==> g in pool
  {
    if found != [] {
      forall i | 0 <= i < |found| - 1 ensures !Newcomer(pool, found[1..], i) {
        assert found[1..][i + 1..] == found[i + 2..];
        assert !Newcomer(pool, found, i + 1);
      }
      NoNewcomer(pool, found[1..]);
      assert !Newcomer(pool, found, 0);
      assert found == [found[0]] + found[1..];
    }
  }

  /** The front of the pool is the first newcomer. */
  lemma {:induction false} FirstNewcomer(pool: seq<string>, found: seq<string>, i: nat)
    requires IsFirstNewcomer(pool, found, i)
    ensures Merge(pool, found) != [] && Merge(pool, found)[0] == found[i]
  {
    MergeAdds(pool, found[1..]);
    if i > 0 {
      forall j | 0 <= j < |found| - 1 ensures Newcomer(pool, found[1..], j) <==> Newcomer(pool, found, j + 1) {
        assert found[1..][j + 1..] == found[j + 2..];
      }
      FirstNewcomer(pool, found[1..], i - 1);
      assert !Newcomer(pool, found, 0);
    }
  }

  /**
    When the ID's own gateway (the first one found) ends up in front: if no
    newcomer is mentioned before its last mention and it is new, or if there is
    no newcomer and the pool starts with it.
   */
  lemma OwnGatewayFirst(pool: seq<string>, own: string, others: seq<string>)
    ensures own in Merge(pool, [own] + others)
    ensures var found := [own] + others;
      Merge(pool, found)[0] == own <==>
        || (exists i: nat :: IsFirstNewcomer(pool, found, i) && found[i] == own)
        || ((forall g :: g in found ==> g in pool) && pool[0] == own)
  {
    var found := [own] + others;
    MergeAdds(pool, found);
    assert found[0] in found;
    if i: nat :| Newcomer(pool, found, i) {
      var first := LeastNewcomer(pool, found, i);
      FirstNewcomer(pool, found, first);
      assert found[first] in found && found[first] !in pool;
      forall k: nat | IsFirstNewcomer(pool, found, k) ensures k == first {
      }
    } else {
      NoNewcomer(pool, found);
    }
  }

  lemma LeastNewcomer(pool: seq<string>, found: seq<string>, i: nat) returns (first: nat)
    requires Newcomer(pool, found, i)
    ensures IsFirstNewcomer(pool, found, first)
  {
    first := 0;
    while !Newcomer(pool, found, first)
      invariant first <= i && forall j: nat :: j < first ==> !Newcomer(pool, found, j)
      decreases i - first
    {
      first := first + 1;
    }
  }

  /** It does not always: a gateway that the pool lists second stays second. */
  lemma OwnGatewayNotAlwaysFirst(a: string, b: string)
    requires a != b
    ensures Merge([a, b], [b]) == [a, b]
  {
    assert [b][1..] == [];
  }

  class FetcherContext {
    var gateways: seq<string>

    constructor (gateways: seq<string>)
      ensures this.gateways == gateways
    {
      this.gateways := gateways;
    }

    /** Adds the gateways that an ID mentions, the ID's own gateway last and thus in front. */
    method AddGateways(found: seq<string>)
      modifies this
      ensures gateways == Merge(old(gateways), found)
    {
      var i := |found|;
      assert found[i..] == [];
      while i > 0
        invariant 0 <= i <= |found|
        invariant gateways == Merge(old(gateways), found[i..])
      {
        i := i - 1;
        assert found[i..][1..] == found[i + 1..];
        if found[i] !in gateways {
          gateways := [found[i]] + gateways;
        }
      }
      assert found[0..] == found;
    }

    /**
      The HTTP URI under which an object can be fetched. HTTP IDs are returned
      as they are; for 'ap' IDs the first gateway of the extended pool is used.
     */
    method PrepareObjectId(lib: Library, objectId: string, gatewaysOf: ApUri -> seq<string>)
      returns (r: Result<string, FetchError>)
      modifies this
      ensures var id := Parse(lib, objectId);
        && (id.None? ==> r == Err(UrlError) && gateways == old(gateways))
        && (id.Some? && id.value.Http? ==> r == Ok(id.value.ToString()) && gateways == old(gateways))
        && (id.Some? && id.value.Ap? ==>
              && gateways == Merge(old(gateways), Found(id.value, gatewaysOf))
              && (gateways == [] ==> r == Err(NoGateway))
              && (gateways != [] ==> r == Resolved(lib, id.value.ap, gateways[0])))
    {
      var id := Parse(lib, objectId);
      if id.None? {
        return Err(UrlError);
      }
      if id.value.Http? {
        return Ok(id.value.ToString());
      }
      AddGateways(Found(id.value, gatewaysOf));
      if gateways == [] {
        return Err(NoGateway);
      }
      return Resolved(lib, id.value.ap, gateways[0]);
    }
  }

  function Found(id: NonCanonicalUri, gatewaysOf: ApUri -> seq<string>): seq<string>
    requires id.Ap?
  {
    (if id.gateway.Some? then [id.gateway.value.ToString()] else []) + gatewaysOf(id.ap)
  }

  /** The gateway of the ID itself comes first, then those of its query. */
  lemma FoundExactly(id: NonCanonicalUri, gatewaysOf: ApUri -> seq<string>)
    requires id.Ap?
    ensures id.gateway.Some? ==>
      |Found(id, gatewaysOf)| == 1 + |gatewaysOf(id.ap)| && Found(id, gatewaysOf)[0] == id.gateway.value.ToString()
      && Found(id, gatewaysOf)[1..] == gatewaysOf(id.ap)
    ensures id.gateway.None? ==> Found(id, gatewaysOf) == gatewaysOf(id.ap)
  {
  }

  /**
    When an ID is prepared, its own gateway is used exactly if it is new to the
    pool and no gateway of the query comes before its last mention as a
    newcomer, or if nothing is new and the pool starts with it.
   */
  lemma OwnGatewayUsed(id: NonCanonicalUri, pool: seq<string>, gatewaysOf: ApUri -> seq<string>)
    requires id.Ap? && id.gateway.Some?
    ensures var own := id.gateway.value.ToString();
      var found := [own] + gatewaysOf(id.ap);
      var merged := Merge(pool, Found(id, gatewaysOf));
      && merged != []
      && (merged[0] == own <==>
            || (exists i: nat :: IsFirstNewcomer(pool, found, i) && found[i] == own)
            || ((forall g :: g in found ==> g in pool) && pool[0] == own))
  {
    var own := id.gateway.value.ToString();
    FoundExactly(id, gatewaysOf);
    assert Found(id, gatewaysOf) == [own] + gatewaysOf(id.ap);
    OwnGatewayFirst(pool, own, gatewaysOf(id.ap));
  }

  function Resolved(lib: Library, u: ApUri, gateway: string): Result<string, FetchError> {
    match ParseHttp(lib.http, gateway)
    case None => Err(UrlError)
    case Some(g) => Ok(Ap(Some(g), u).ToString())
  }

  /**
    The prepared URI still names the same object exactly when the gateway
    consists of scheme and authority, or is itself an identifier of the object
    with a query.
   */
  lemma PreparedIdKeepsIdentity(lib: Library, objectId: string, gateway: string)
    requires lib.did.Ok() && Parse(lib, objectId).Some? && Parse(lib, objectId).value.Ap?
    requires ParseHttp(lib.http, gateway).Some?
    ensures var g, u := ParseHttp(lib.http, gateway).value, Parse(lib, objectId).value.ap;
      var r := Resolved(lib, u, gateway);
      r.Ok? && (IsSameUri(lib, objectId, r.value) == Some(true) <==> g.relative == NOTHING || Detour(lib, g, u))
  {
    ParsedApFacts(lib, objectId);
    var g, u := ParseHttp(lib.http, gateway).value, Parse(lib, objectId).value.ap;
    HttpPrintsOriginal(lib.http, gateway);
    IdentityBehindGateway(lib, g, u);
    SameAsObject(lib, objectId, WithGateway(u, g.ToString()));
  }

  lemma SameAsObject(lib: Library, objectId: string, s: string)
    requires Parse(lib, objectId).Some? && Parse(lib, objectId).value.Ap?
    ensures IsSameUri(lib, objectId, s) == Some(true) <==>
      Canonicalize(lib, s) == Some(CanonicalAp(Parse(lib, objectId).value.ap.WithoutQuery()))
  {
  }

  /** What the validator of actors asks of a gateway: it parses, and is its own base. */
  predicate Validated(lib: Library, gateway: string) {
    var g := ParseHttp(lib.http, gateway);
    g.Some? && g.value.Base() == gateway
  }

  /** A gateway is its own base exactly when it consists of scheme and authority. */
  lemma ValidatedExactly(lib: Library, gateway: string)
    requires ParseHttp(lib.http, gateway).Some?
    ensures Validated(lib, gateway) <==> ParseHttp(lib.http, gateway).value.relative == NOTHING
  {
    var g := ParseHttp(lib.http, gateway).value;
    HttpPrintsOriginal(lib.http, gateway);
    assert gateway == g.Base() + g.ToRelative();
    PrintsNothing(g.relative);
  }

  lemma PrintsNothing(r: Relative)
    ensures PrintRelative(r) == "" <==> r == NOTHING
  {
  }

  /** The gateway of a compatible ID is always one. */
  lemma OwnGatewayValidated(lib: Library, objectId: string)
    requires lib.did.Ok() && Parse(lib, objectId).Some? && Parse(lib, objectId).value.Ap?
    requires Parse(lib, objectId).value.gateway.Some?
    ensures Validated(lib, Parse(lib, objectId).value.gateway.value.ToString())
  {
    ParsedApFacts(lib, objectId);
    GatewayPrints(lib, Parse(lib, objectId).value.gateway.value);
  }

  /**
    With a pool of validated gateways, and none of another kind in the ID's
    query, the prepared URI always names the same object.
   */
  lemma ValidatedPoolKeepsIdentity(lib: Library, objectId: string, pool: seq<string>, gatewaysOf: ApUri -> seq<string>)
    requires lib.did.Ok() && Parse(lib, objectId).Some? && Parse(lib, objectId).value.Ap?
    requires forall g :: g in pool || g in gatewaysOf(Parse(lib, objectId).value.ap) ==> Validated(lib, g)
    ensures var id := Parse(lib, objectId).value;
      var merged := Merge(pool, Found(id, gatewaysOf));
      merged != [] ==>
        var r := Resolved(lib, id.ap, merged[0]);
        r.Ok? && IsSameUri(lib, objectId, r.value) == Some(true)
  {
    var id := Parse(lib, objectId).value;
    var found := Found(id, gatewaysOf);
    var merged := Merge(pool, found);
    MergeAdds(pool, found);
    if id.gateway.Some? {
      OwnGatewayValidated(lib, objectId);
    }
    if merged != [] {
      assert merged[0] in merged && Validated(lib, merged[0]);
      ValidatedExactly(lib, merged[0]);
      PreparedIdKeepsIdentity(lib, objectId, merged[0]);
    }
  }

  /** It is not always kept: a gateway written with a trailing slash leads to an unrelated HTTP URI. */
  lemma TrailingSlashChangesIdentity(lib: Library, objectId: string, gateway: string)
    requires lib.did.Ok() && Parse(lib, objectId).Some? && Parse(lib, objectId).value.Ap?
    requires ParseHttp(lib.http, gateway).Some?
    requires ParseHttp(lib.http, gateway).value.relative == Relative("/", None, None)
    ensures IsSameUri(lib, objectId, Resolved(lib, Parse(lib, objectId).value.ap, gateway).value) != Some(true)
  {
    PreparedIdKeepsIdentity(lib, objectId, gateway);
  }
}
