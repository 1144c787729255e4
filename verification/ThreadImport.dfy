/** The import of a thread in the form in which the program does it: the collecting loop, then the creation of posts. */
module ThreadImport {
  import opened Wrappers
  import opened Iteration
  import opened Importer
  import opened PostCreation

  lemma {:induction false} ReversedSnoc(ids: seq<string>, id: string)
    ensures Reversed(ids + [id]) == [id] + Reversed(ids)
  {
    if ids == [] {
      assert ids + [id] == [id];
      assert [id][1..] == [];
    } else {
      ReversedSnoc(ids[1..], id);
      assert (ids + [id])[1..] == ids[1..] + [id];
    }
  }

  method ExtendQueue(queue0: seq<string>, o: Object) returns (queue: seq<string>)
    ensures queue == Extended(queue0, o)
  {
    queue := queue0;
    if o.inReplyTo.Some? {
      queue := queue + [o.inReplyTo.value];
    }
    ghost var base := queue;
    var links := o.Links();
    for i := 0 to |links|
      invariant queue == Reversed(links[..i]) + base
    {
      queue := [links[i]] + queue;
      ReversedSnoc(links[..i], links[i]);
      assert links[..i + 1] == links[..i] + [links[i]];
    }
    assert links[..|links|] == links;
    assert base == queue0 + Listed(o.inReplyTo);
  }

  method IsCollected(objects: seq<Object>, id: string) returns (found: bool)
    ensures found <==> Collected(objects, id)
  {
    for k := 0 to |objects|
      invariant forall l :: 0 <= l < k ==> objects[l].id != id
    {
      if objects[k].id == id {
        return true;
      }
    }
    return false;
  }

  datatype Status = Looped | KnownLocal | KnownRemote | New | Rejected(error: Error)

  /** What is known about a popped ID. */
  method LookUp(w: World, objects: seq<Object>, id: string) returns (status: Status)
    ensures status.Looped? <==> Collected(objects, id)
    ensures status.KnownLocal? ==> w.StoredLocal(id) && objects != []
    ensures status.KnownRemote? ==> w.StoredRemote(id)
    ensures status.New? ==> w.Unknown(id)
    ensures status.Rejected? ==>
      match status.error
      case InvalidId => w.canonicalize(id).None?
      case LocalObject => w.IsLocal(id) && objects == []
      case LocalPostNotFound => w.IsLocal(id) && objects != [] && !w.StoredLocal(id)
      case DatabaseFailure =>
        w.canonicalize(id).Some? && !w.IsLocal(id) && w.remotePost(w.canonicalize(id).value).Failed?
      case _ => false
  {
    var seen := IsCollected(objects, id);
    if seen {
      return Looped;
    }
    var canonical := w.canonicalize(id);
    if canonical.None? {
      return Rejected(InvalidId);
    }
    var localPost := w.localPost(canonical.value);
    if localPost.Some? {
      if objects == [] {
        return Rejected(LocalObject);
      }
      return if w.localExists(localPost.value) then KnownLocal else Rejected(LocalPostNotFound);
    }
    match w.remotePost(canonical.value) {
      case Found => return KnownRemote;
      case Failed => return Rejected(DatabaseFailure);
      case NotFound => return New;
    }
  }

  /** The object of an ID that is neither collected nor stored is collected, or its redirect is recorded. */
  method AbsorbObject(w: World, id: string, queue0: seq<string>, objects0: seq<Object>,
                      redirects0: map<string, string>, inHand0: Option<Object>, fetches0: nat, ghost s: Work)
    returns (done: Option<Outcome>, queue: seq<string>, objects: seq<Object>, redirects: map<string, string>,
             inHand: Option<Object>, fetches: nat)
    requires s == Work(queue0 + [id], objects0, redirects0, inHand0, fetches0, s.hops, s.direct)
    ensures done.Some? ==> Importer.Absorb(w, s) == Done(done.value)
    ensures done.None? ==> Importer.Absorb(w, s).Continue? && Holds(Importer.Absorb(w, s).next, queue, objects, redirects, inHand, fetches)
  {
    queue, objects, redirects, inHand, fetches := queue0, objects0, redirects0, inHand0, fetches0;
    done := None;
    assert Top(s) == id && Popped(s) == queue0;
    var item: Object;
    if inHand.Some? {
      item := inHand.value;
    } else {
      if fetches >= w.limit {
        done := Some(Error(RecursionLimit));
        return;
      }
      var answer := w.fetch(fetches, id);
      if answer.None? {
        done := Some(Error(FetchFailed));
        return;
      }
      item := answer.value;
      fetches := fetches + 1;
    }
    if item.id != id {
      redirects := redirects[id := item.id];
      queue := queue + [item.id];
      inHand := Some(item);
    } else {
      queue := ExtendQueue(queue, item);
      inHand := None;
      objects := objects + [item];
    }
  }

  /** The program's variables are those of the state. */
  ghost predicate Holds(s: Work, queue: seq<string>, objects: seq<Object>, redirects: map<string, string>,
                        inHand: Option<Object>, fetches: nat)
  {
    && s.queue == queue && s.objects == objects && s.redirects == redirects
    && s.inHand == inHand && s.fetches == fetches
  }

  /** One iteration: exactly the step of the model. */
  method Iterate(w: World, queue0: seq<string>, objects0: seq<Object>, redirects0: map<string, string>,
                 inHand0: Option<Object>, fetches0: nat, ghost s: Work)
    returns (done: Option<Outcome>, queue: seq<string>, objects: seq<Object>, redirects: map<string, string>,
             inHand: Option<Object>, fetches: nat)
    requires Holds(s, queue0, objects0, redirects0, inHand0, fetches0)
    ensures done.Some? ==> Step(w, s) == Done(done.value)
    ensures done.None? ==> Step(w, s).Continue? && Holds(Step(w, s).next, queue, objects, redirects, inHand, fetches)
  {
    queue, objects, redirects, inHand, fetches := queue0, objects0, redirects0, inHand0, fetches0;
    done := None;
    if queue == [] {
      done := Some(Gathered(objects, redirects));
      return;
    }
    var id := queue[|queue| - 1];
    queue := queue[..|queue| - 1];
    var status := LookUp(w, objects, id);
    match status {
      case Rejected(error) =>
        done := Some(Error(error));
      case Looped =>
        inHand := None;
      case KnownLocal =>
      case KnownRemote =>
        if objects == [] {
          done := Some(Existing(id));
        } else {
          inHand := None;
        }
      case New =>
        assert queue + [id] == queue0;
        done, queue, objects, redirects, inHand, fetches :=
          AbsorbObject(w, id, queue, objects, redirects, inHand, fetches, s);
    }
  }

  /**
    The collecting loop. It terminates against any fetcher after `n` iterations
    in the state `s`, and its outcome means what it should.
   */
  method CollectThread(w: World, start: string, received: Option<Object>)
    returns (outcome: Outcome, ghost s: Work, ghost n: nat)
    requires w.Ok()
    requires received.Some? ==> received.value.id == start
    ensures After(w, start, received, n) == Some(s) && Step(w, s) == Done(outcome)
    ensures Ends(w, start, received, s, outcome) && s.fetches <= w.limit
    ensures w.IsLocal(start) ==> outcome == Error(LocalObject)
  {
    var queue := [start];
    var fetches := 0;
    var inHand := received;
    var objects: seq<Object> := [];
    var redirects: map<string, string> := map[];
    s, n := Init(start, received), 0;
    InitInv(w, start, received);
    while true
      invariant After(w, start, received, n) == Some(s)
      invariant Holds(s, queue, objects, redirects, inHand, fetches)
      invariant Inv(w, start, received, s)
      decreases w.limit - fetches, Bit(inHand.Some?), |queue|
    {
      var done: Option<Outcome>;
      done, queue, objects, redirects, inHand, fetches := Iterate(w, queue, objects, redirects, inHand, fetches, s);
      if done.Some? {
        StepEnds(w, start, received, s);
        return done.value, s, n;
      }
      StepKeepsInv(w, start, received, s);
      AfterNext(w, start, received, n, s);
      s, n := Step(w, s).next, n + 1;
    }
  }

  /** The search for the requested post; it is the last one created at the latest, so it cannot run out. */
  method FindPost(posts: seq<Post>, objectId: string) returns (post: Post)
    requires posts != [] && posts[|posts| - 1].objectId == objectId
    ensures post in posts && post.objectId == objectId
  {
    var m := 0;
    while posts[m].objectId != objectId
      invariant m < |posts|
      decreases |posts| - m
    {
      m := m + 1;
    }
    return posts[m];
  }

  /** What an import leads to, given how the collection ended. */
  ghost predicate Imports(w: World, start: string, s: Work, outcome: Outcome, result: Result<Post, Error>) {
    match outcome
    case Existing(id) => result.Ok? && w.canonicalize(id) == Some(result.value.objectId)
    case Error(error) => result == Err(error)
    case Gathered(objects, redirects) =>
      && (result.Ok? <==> Importable(w, objects, redirects))
      && (result.Ok? ==> objects != [] && w.canonicalize(objects[0].id) == Some(result.value.objectId))
      && (result.Err? ==> exists k ::
            0 <= k < |objects| && Refuses(w, objects[k], redirects, IdsOf(w, objects[k + 1..]), result.error))
  }

  /**
    Imports a post with everything it depends on. The result is determined by
    the run: a stored post, the error of the collecting loop, or the created
    post for the first collected object; creation succeeds exactly when the
    collection is importable.
   */
  method ImportPost(w: World, start: string, received: Option<Object>)
    returns (result: Result<Post, Error>, ghost s: Work, ghost n: nat)
    requires w.Ok()
    requires received.Some? ==> received.value.id == start
    ensures After(w, start, received, n) == Some(s) && Step(w, s).Done?
    ensures Ends(w, start, received, s, Step(w, s).outcome) && s.fetches <= w.limit
    ensures Imports(w, start, s, Step(w, s).outcome, result)
  {
    var outcome;
    outcome, s, n := CollectThread(w, start, received);
    match outcome {
      case Existing(id) =>
        return Ok(Post(w.canonicalize(id).value)), s, n;
      case Error(error) =>
        return Err(error), s, n;
      case Gathered(objects, redirects) =>
        assert w.Unknown(objects[0].id);
        var initial := w.canonicalize(objects[0].id).value;
        var posts := CreatePosts(w, objects, redirects);
        if posts.Err? {
          return Err(posts.error), s, n;
        }
        var post := FindPost(posts.value, initial);
        return Ok(post), s, n;
    }
  }
}
