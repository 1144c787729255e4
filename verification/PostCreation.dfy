/**
  Creating posts from a collected thread. The objects are gone through from the
  last collected one to the first; creating a post looks up its parent and its
  links among the posts that exist by then.
 */
module PostCreation {
  import opened Wrappers
  import opened Importer

  /** A post as created from an object: it carries the canonical object ID. */
  datatype Post = Post(objectId: string)

  function Resolve(redirects: map<string, string>, id: string): string {
    if id in redirects then redirects[id] else id
  }

  /** The canonical IDs of the objects. */
  function IdsOf(w: World, objects: seq<Object>): set<string> {
    set o | o in objects && w.canonicalize(o.id).Some? :: w.canonicalize(o.id).value
  }

  /** The lookup by canonical ID: local posts, stored remote posts and the posts created so far. */
  predicate Present(w: World, created: set<string>, id: string) {
    w.Stored(id) || (w.canonicalize(id).Some? && !w.IsLocal(id) && w.canonicalize(id).value in created)
  }

  /** The post can be created: its ID is new, its references are present, and nothing else is wrong with it. */
  ghost predicate Creatable(w: World, o: Object, redirects: map<string, string>, created: set<string>) {
    && w.canonicalize(o.id).Some?
    && w.canonicalize(o.id).value !in created && !w.StoredRemote(o.id)
    && (forall id :: id in o.References() ==> Present(w, created, Resolve(redirects, id)))
    && w.accepts(o)
  }

  /** The only grounds for not creating the post. */
  ghost predicate Refuses(w: World, o: Object, redirects: map<string, string>, created: set<string>, error: Error) {
    match error
    case InvalidId => w.canonicalize(o.id).None?
    case MissingReference => exists id :: id in o.References() && !Present(w, created, Resolve(redirects, id))
    case AlreadyExists => w.canonicalize(o.id).Some? && (w.canonicalize(o.id).value in created || w.StoredRemote(o.id))
    case CreateFailed => !w.accepts(o)
    case _ => false
  }

  method CreateRemotePost(w: World, o: Object, redirects: map<string, string>, created: set<string>)
    returns (r: Result<Post, Error>)
    ensures r.Ok? <==> Creatable(w, o, redirects, created)
    ensures r.Ok? ==> w.canonicalize(o.id) == Some(r.value.objectId)
    ensures r.Err? ==> Refuses(w, o, redirects, created, r.error)
  {
    var canonical := w.canonicalize(o.id);
    if canonical.None? {
      return Err(InvalidId);
    }
    var references := o.References();
    for i := 0 to |references|
      invariant forall j :: 0 <= j < i ==> Present(w, created, Resolve(redirects, references[j]))
    {
      if !Present(w, created, Resolve(redirects, references[i])) {
        assert references[i] in o.References();
        return Err(MissingReference);
      }
    }
    if !w.accepts(o) {
      return Err(CreateFailed);
    }
    if canonical.value in created || w.StoredRemote(o.id) {
      return Err(AlreadyExists);
    }
    return Ok(Post(canonical.value));
  }

  // ---------------------------------------------------------------------
  // When creation succeeds

  ghost predicate DistinctCanonicalIds(w: World, objects: seq<Object>) {
    forall i, j :: 0 <= i < j < |objects| ==> w.canonicalize(objects[i].id) != w.canonicalize(objects[j].id)
  }

  /** The reference leads to an object that was collected no later than the object that makes it. */
  ghost predicate LeadsBack(objects: seq<Object>, redirects: map<string, string>, k: nat, id: string)
    requires k < |objects|
  {
    Collected(objects[..k + 1], Resolve(redirects, id))
  }

  ghost predicate NothingLeadsBack(objects: seq<Object>, redirects: map<string, string>) {
    forall k, id :: 0 <= k < |objects| && id in objects[k].References() ==> !LeadsBack(objects, redirects, k, id)
  }

  ghost predicate Importable(w: World, objects: seq<Object>, redirects: map<string, string>) {
    && (forall o :: o in objects ==> w.accepts(o))
    && DistinctCanonicalIds(w, objects)
    && NothingLeadsBack(objects, redirects)
  }

  lemma ReferenceSettled(w: World, objects: seq<Object>, redirects: map<string, string>, k: nat, id: string)
    requires Ready(w, objects, redirects) && k < |objects| && id in objects[k].References()
    ensures var r := Resolve(redirects, id); w.Stored(r) || Collected(objects, r)
  {
    ReferencesAreCollected(objects[k], id);
    assert Settled(w, objects, redirects, id);
  }

  lemma SplitCollected(objects: seq<Object>, k: nat, r: string)
    requires k < |objects|
    ensures Collected(objects, r) <==> Collected(objects[..k + 1], r) || Collected(objects[k + 1..], r)
  {
    if Collected(objects, r) {
      var l :| 0 <= l < |objects| && objects[l].id == r;
      if l <= k {
        assert objects[..k + 1][l].id == r;
      } else {
        assert objects[k + 1..][l - k - 1].id == r;
      }
    }
    if Collected(objects[k + 1..], r) {
      var l :| 0 <= l < |objects| - k - 1 && objects[k + 1..][l].id == r;
      assert objects[l + k + 1].id == r;
    }
  }

  lemma CollectedOnce(objects: seq<Object>, k: nat, r: string)
    requires DistinctIds(objects) && k < |objects| && Collected(objects[..k + 1], r)
    ensures !Collected(objects[k + 1..], r)
  {
    var l :| 0 <= l < k + 1 && objects[..k + 1][l].id == r;
    var later := objects[k + 1..];
    assert forall m :: 0 <= m < |later| ==> later[m] == objects[m + k + 1];
  }

  /** What was collected is not stored. */
  lemma CollectedIsNew(w: World, objects: seq<Object>, r: string)
    requires NewPosts(w, objects) && Collected(objects, r)
    ensures w.Unknown(r) && !w.Stored(r)
  {
    var l :| 0 <= l < |objects| && objects[l].id == r;
    assert w.Unknown(objects[l].id);
  }

  /**
    Parents and links are there in time exactly unless the reference leads back
    to an object that was collected no later: the ID that the loop detection or
    an earlier visit took care of.
   */
  lemma ReferenceInTime(w: World, objects: seq<Object>, redirects: map<string, string>, k: nat, id: string)
    requires Ready(w, objects, redirects) && k < |objects| && id in objects[k].References()
    ensures var r := Resolve(redirects, id);
      w.Stored(r) || Collected(objects[k + 1..], r) <==> !LeadsBack(objects, redirects, k, id)
  {
    var r := Resolve(redirects, id);
    ReferenceSettled(w, objects, redirects, k, id);
    SplitCollected(objects, k, r);
    if Collected(objects[..k + 1], r) {
      CollectedOnce(objects, k, r);
      CollectedIsNew(w, objects, r);
    }
  }

  lemma IdsOfCollected(w: World, objects: seq<Object>, r: string)
    requires NewPosts(w, objects) && Collected(objects, r)
    ensures w.canonicalize(r).Some? && w.canonicalize(r).value in IdsOf(w, objects)
  {
    var l :| 0 <= l < |objects| && objects[l].id == r;
    assert objects[l] in objects && w.Unknown(objects[l].id);
  }

  /** A canonical ID among the created ones belongs to an object collected later. */
  lemma IdsOfLater(w: World, objects: seq<Object>, k: nat, c: string) returns (l: nat)
    requires k < |objects| && c in IdsOf(w, objects[k + 1..])
    ensures k < l < |objects| && w.canonicalize(objects[l].id) == Some(c)
  {
    var o :| o in objects[k + 1..] && w.canonicalize(o.id) == Some(c);
    var m :| 0 <= m < |objects| - k - 1 && objects[k + 1..][m] == o;
    l := m + k + 1;
  }

  lemma EarlierIsAbsent(w: World, objects: seq<Object>, k: nat, r: string)
    requires NewPosts(w, objects) && DistinctCanonicalIds(w, objects) && k < |objects|
    requires Collected(objects[..k + 1], r)
    ensures !Present(w, IdsOf(w, objects[k + 1..]), r)
  {
    SplitCollected(objects, k, r);
    CollectedIsNew(w, objects, r);
    var m :| 0 <= m < k + 1 && objects[..k + 1][m].id == r;
    assert objects[m].id == r;
    if w.canonicalize(r).value in IdsOf(w, objects[k + 1..]) {
      var l := IdsOfLater(w, objects, k, w.canonicalize(r).value);
      assert false;
    }
  }

  /** The lookup finds a reference that does not lead back, and with distinct canonical IDs no other. */
  lemma ReferencePresent(w: World, objects: seq<Object>, redirects: map<string, string>, k: nat, id: string)
    requires Ready(w, objects, redirects) && k < |objects| && id in objects[k].References()
    ensures var r := Resolve(redirects, id);
      var created := IdsOf(w, objects[k + 1..]);
      && (!LeadsBack(objects, redirects, k, id) ==> Present(w, created, r))
      && (DistinctCanonicalIds(w, objects) && LeadsBack(objects, redirects, k, id) ==> !Present(w, created, r))
  {
    var r := Resolve(redirects, id);
    ReferenceInTime(w, objects, redirects, k, id);
    var later := objects[k + 1..];
    if !LeadsBack(objects, redirects, k, id) && !w.Stored(r) {
      IdsOfCollected(w, later, r);
      SplitCollected(objects, k, r);
      CollectedIsNew(w, objects, r);
    }
    if DistinctCanonicalIds(w, objects) && LeadsBack(objects, redirects, k, id) {
      EarlierIsAbsent(w, objects, k, r);
    }
  }

  ghost predicate AllCreatable(w: World, objects: seq<Object>, redirects: map<string, string>, from: nat) {
    forall k :: from <= k < |objects| ==> Creatable(w, objects[k], redirects, IdsOf(w, objects[k + 1..]))
  }

  lemma CreatableDistinct(w: World, objects: seq<Object>, redirects: map<string, string>)
    requires NewPosts(w, objects) && AllCreatable(w, objects, redirects, 0)
    ensures DistinctCanonicalIds(w, objects)
  {
    forall i, j | 0 <= i < j < |objects| ensures w.canonicalize(objects[i].id) != w.canonicalize(objects[j].id) {
      assert Creatable(w, objects[i], redirects, IdsOf(w, objects[i + 1..])) && w.Unknown(objects[j].id);
      assert objects[i + 1..][j - i - 1] == objects[j];
      assert objects[j] in objects[i + 1..];
    }
  }

  lemma CreatableImportable(w: World, objects: seq<Object>, redirects: map<string, string>)
    requires Ready(w, objects, redirects) && AllCreatable(w, objects, redirects, 0)
    ensures Importable(w, objects, redirects)
  {
    CreatableDistinct(w, objects, redirects);
    forall k, id | 0 <= k < |objects| && id in objects[k].References() ensures !LeadsBack(objects, redirects, k, id) {
      ReferencePresent(w, objects, redirects, k, id);
      assert Creatable(w, objects[k], redirects, IdsOf(w, objects[k + 1..]));
    }
  }

  lemma ImportableCreatable(w: World, objects: seq<Object>, redirects: map<string, string>, k: nat)
    requires Ready(w, objects, redirects) && Importable(w, objects, redirects) && k < |objects|
    ensures Creatable(w, objects[k], redirects, IdsOf(w, objects[k + 1..]))
  {
    var created := IdsOf(w, objects[k + 1..]);
    assert w.Unknown(objects[k].id) && objects[k] in objects;
    forall id | id in objects[k].References() ensures Present(w, created, Resolve(redirects, id)) {
      ReferencePresent(w, objects, redirects, k, id);
    }
    if w.canonicalize(objects[k].id).value in created {
      var l := IdsOfLater(w, objects, k, w.canonicalize(objects[k].id).value);
      assert false;
    }
  }

  /** All posts can be created one after the other exactly when the collection is importable. */
  lemma CreationOrder(w: World, objects: seq<Object>, redirects: map<string, string>)
    requires Ready(w, objects, redirects)
    ensures AllCreatable(w, objects, redirects, 0) <==> Importable(w, objects, redirects)
  {
    if AllCreatable(w, objects, redirects, 0) {
      CreatableImportable(w, objects, redirects);
    }
    if Importable(w, objects, redirects) {
      forall k | 0 <= k < |objects| ensures Creatable(w, objects[k], redirects, IdsOf(w, objects[k + 1..])) {
        ImportableCreatable(w, objects, redirects, k);
      }
    }
  }

  lemma IdsOfTail(w: World, objects: seq<Object>, k: nat)
    requires k < |objects| && w.canonicalize(objects[k].id).Some?
    ensures IdsOf(w, objects[k..]) == IdsOf(w, objects[k + 1..]) + {w.canonicalize(objects[k].id).value}
  {
    assert objects[k..] == [objects[k]] + objects[k + 1..];
  }

  /** Creates the posts, the last collected object first; succeeds exactly when the collection is importable. */
  method CreatePosts(w: World, objects: seq<Object>, redirects: map<string, string>)
    returns (r: Result<seq<Post>, Error>)
    requires Ready(w, objects, redirects)
    ensures r.Ok? <==> Importable(w, objects, redirects)
    ensures r.Ok? ==> |r.value| == |objects| && forall l :: 0 <= l < |objects| ==>
      w.canonicalize(objects[|objects| - 1 - l].id) == Some(r.value[l].objectId)
    ensures r.Err? ==> exists k ::
      0 <= k < |objects| && Refuses(w, objects[k], redirects, IdsOf(w, objects[k + 1..]), r.error)
  {
    CreationOrder(w, objects, redirects);
    var posts: seq<Post> := [];
    var created: set<string> := {};
    var k := |objects|;
    while k > 0
      invariant 0 <= k && k + |posts| == |objects|
      invariant created == IdsOf(w, objects[k..])
      invariant AllCreatable(w, objects, redirects, k)
      invariant forall l :: 0 <= l < |posts| ==>
        w.canonicalize(objects[|objects| - 1 - l].id) == Some(posts[l].objectId)
    {
      k := k - 1;
      var post := CreateRemotePost(w, objects[k], redirects, created);
      if post.Err? {
        return Err(post.error);
      }
      IdsOfTail(w, objects, k);
      created := created + {post.value.objectId};
      posts := posts + [post.value];
    }
    return Ok(posts);
  }
}
