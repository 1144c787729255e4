/**
  Thread import: a work list that is used as a stack for reply parents and as
  a tail for links, with redirects, loop detection and a fetch budget. The
  fetcher is arbitrary and may answer differently every time it is asked. A run
  is the sequence of states that the collecting loop goes through.
 */
module Importer {
  import opened Wrappers
  import opened Iteration

  const LINK_LIMIT: nat := 10

  function Listed(id: Option<string>): seq<string> {
    if id.Some? then [id.value] else []
  }

  function Hrefs(tags: seq<Option<string>>): seq<string> {
    if tags == [] then [] else Listed(tags[0]) + Hrefs(tags[1..])
  }

  /** Keeps the first of several equal IDs. */
  function Unique(ids: seq<string>): seq<string> {
    if ids == [] then []
    else
      var kept := Unique(ids[..|ids| - 1]);
      if ids[|ids| - 1] in kept then kept else kept + [ids[|ids| - 1]]
  }

  /** `tags` are the link tags in order; None stands for a malformed one or one of another media type. */
  datatype Object = Object(id: string, inReplyTo: Option<string>, tags: seq<Option<string>>, quote: Option<string>) {

    /** What is queued for collection besides the parent. */
    function Links(): seq<string> {
      Unique(Hrefs(tags) + Listed(quote))
    }

    /** What is looked up when the post is created; tags beyond the limit are not. */
    function References(): seq<string> {
      Listed(inReplyTo) + Hrefs(if |tags| > LINK_LIMIT then tags[..LINK_LIMIT] else tags) + Listed(quote)
    }
  }

  datatype Lookup = Found | NotFound | Failed

  datatype Error =
    | LocalObject
    | InvalidId
    | LocalPostNotFound
    | DatabaseFailure
    | RecursionLimit
    | FetchFailed
    | MissingReference
    | AlreadyExists
    | CreateFailed

  /**
    Everything outside the importer: URI parsing, a database snapshot, the n-th
    answer of the network, and what creating a post requires of the object alone.
   */
  datatype World = World(
    canonicalize: string -> Option<string>,
    localPost: string -> Option<nat>,
    localExists: nat -> bool,
    remotePost: string -> Lookup,
    fetch: (nat, string) -> Option<Object>,
    limit: nat,
    accepts: Object -> bool)
  {
    predicate IsLocal(id: string) {
      canonicalize(id).Some? && localPost(canonicalize(id).value).Some?
    }

    predicate StoredLocal(id: string) {
      IsLocal(id) && localExists(localPost(canonicalize(id).value).value)
    }

    predicate StoredRemote(id: string) {
      canonicalize(id).Some? && !IsLocal(id) && remotePost(canonicalize(id).value).Found?
    }

    predicate Stored(id: string) {
      StoredLocal(id) || StoredRemote(id)
    }

    /** A valid remote ID that the database does not know. */
    predicate Unknown(id: string) {
      canonicalize(id).Some? && !IsLocal(id) && remotePost(canonicalize(id).value).NotFound?
    }

    /** Objects with local IDs are refused by the fetcher. */
    ghost predicate Ok() {
      forall n, id :: fetch(n, id).Some? ==> !IsLocal(fetch(n, id).value.id)
    }
  }

  ghost predicate Collected(objects: seq<Object>, id: string) {
    exists k :: 0 <= k < |objects| && objects[k].id == id
  }

  ghost predicate Refers(o: Object, id: string) {
    o.inReplyTo == Some(id) || id in o.Links()
  }

  lemma {:induction false} UniqueMembers(ids: seq<string>, id: string)
    ensures id in Unique(ids) <==> id in ids
  {
    if ids != [] {
      var n := |ids| - 1;
      UniqueMembers(ids[..n], id);
      assert ids == ids[..n] + [ids[n]];
    }
  }

  lemma {:induction false} HrefsOfPrefix(tags: seq<Option<string>>, n: nat, id: string)
    requires n <= |tags| && id in Hrefs(tags[..n])
    ensures id in Hrefs(tags)
  {
    if n > 0 {
      assert tags[..n][1..] == tags[1..][..n - 1];
      if id in Hrefs(tags[1..][..n - 1]) {
        HrefsOfPrefix(tags[1..], n - 1, id);
      }
    }
  }

  lemma {:induction false} HrefsExactly(tags: seq<Option<string>>, id: string)
    ensures id in Hrefs(tags) <==> Some(id) in tags
  {
    if tags != [] {
      HrefsExactly(tags[1..], id);
      assert tags == [tags[0]] + tags[1..];
    }
  }

  /** What is looked up on creation: the parent, the quote, and the first ten link tags. */
  lemma ReferencesExactly(o: Object, id: string)
    ensures id in o.References() <==>
      || o.inReplyTo == Some(id)
      || o.quote == Some(id)
      || exists k :: 0 <= k < 10 && k < |o.tags| && o.tags[k] == Some(id)
  {
    var looked := if |o.tags| > LINK_LIMIT then o.tags[..LINK_LIMIT] else o.tags;
    HrefsExactly(looked, id);
    if k :| 0 <= k < 10 && k < |o.tags| && o.tags[k] == Some(id) {
      assert looked[k] == Some(id);
    }
    if Some(id) in looked {
      var k :| 0 <= k < |looked| && looked[k] == Some(id);
      assert o.tags[k] == Some(id);
    }
  }

  /** What is queued besides the parent: every link tag and the quote, once each. */
  lemma LinksExactly(o: Object, id: string)
    ensures id in o.Links() <==> o.quote == Some(id) || Some(id) in o.tags
    ensures multiset(o.Links())[id] <= 1
  {
    UniqueMembers(Hrefs(o.tags) + Listed(o.quote), id);
    UniqueOnce(Hrefs(o.tags) + Listed(o.quote), id);
    HrefsExactly(o.tags, id);
  }

  lemma {:induction false} UniqueOnce(ids: seq<string>, id: string)
    ensures multiset(Unique(ids))[id] <= 1
  {
    if ids != [] {
      var n := |ids| - 1;
      UniqueOnce(ids[..n], id);
      if ids[n] !in Unique(ids[..n]) {
        assert ids[n] !in multiset(Unique(ids[..n]));
      }
    }
  }

  /** Everything that is looked up on creation has been queued for collection. */
  lemma ReferencesAreCollected(o: Object, id: string)
    requires id in o.References()
    ensures Refers(o, id)
  {
    UniqueMembers(Hrefs(o.tags) + Listed(o.quote), id);
    var n := if |o.tags| > LINK_LIMIT then LINK_LIMIT else |o.tags|;
    assert o.tags[..|o.tags|] == o.tags;
    if id in Hrefs(o.tags[..n]) {
      HrefsOfPrefix(o.tags, n, id);
    }
  }

  // ---------------------------------------------------------------------
  // The collecting loop

  /**
    The loop's variables, plus the redirects in the order they were seen and
    the IDs of the objects that were collected as soon as they were fetched.
   */
  datatype Work = Work(
    queue: seq<string>,
    objects: seq<Object>,
    redirects: map<string, string>,
    inHand: Option<Object>,
    fetches: nat,
    hops: seq<(string, string)>,
    direct: seq<string>)

  datatype Outcome =
    | Gathered(objects: seq<Object>, redirects: map<string, string>)
    | Existing(id: string)
    | Error(error: Error)

  function Init(start: string, received: Option<Object>): Work {
    Work([start], [], map[], received, 0, [], [])
  }

  function Top(s: Work): string
    requires s.queue != []
  {
    s.queue[|s.queue| - 1]
  }

  function Popped(s: Work): seq<string>
    requires s.queue != []
  {
    s.queue[..|s.queue| - 1]
  }

  /** The popped ID is stored or collected already. */
  function Skip(s: Work): Work
    requires s.queue != []
  {
    s.(queue := Popped(s), inHand := None)
  }

  /** The object has another ID than the popped one. */
  function Redirect(s: Work, o: Object): Work
    requires s.queue != []
  {
    s.(queue := Popped(s) + [o.id], redirects := s.redirects[Top(s) := o.id], inHand := Some(o),
       hops := s.hops + [(Top(s), o.id)], fetches := s.fetches + Bit(s.inHand.None?))
  }

  function Reversed(ids: seq<string>): seq<string> {
    if ids == [] then [] else Reversed(ids[1..]) + [ids[0]]
  }

  /** Parents go on top of the queue; links go to its bottom, one by one. */
  function Extended(queue: seq<string>, o: Object): seq<string> {
    Reversed(o.Links()) + queue + Listed(o.inReplyTo)
  }

  function Collect(s: Work, o: Object): Work
    requires s.queue != []
  {
    s.(queue := Extended(Popped(s), o), objects := s.objects + [o], inHand := None,
       fetches := s.fetches + Bit(s.inHand.None?), direct := s.direct + (if s.inHand.None? then [o.id] else []))
  }

  function Place(s: Work, o: Object): Work
    requires s.queue != []
  {
    if o.id == Top(s) then Collect(s, o) else Redirect(s, o)
  }

  /** An ID that is neither collected nor stored: its object is at hand or has to be fetched. */
  function Absorb(w: World, s: Work): Progress<Work, Outcome>
    requires s.queue != []
  {
    if s.inHand.Some? then Continue(Place(s, s.inHand.value))
    else if s.fetches >= w.limit then Done(Error(RecursionLimit))
    else
      match w.fetch(s.fetches, Top(s))
      case None => Done(Error(FetchFailed))
      case Some(o) => Continue(Place(s, o))
  }

  /** One iteration of the loop. */
  ghost function Step(w: World, s: Work): Progress<Work, Outcome> {
    if s.queue == [] then Done(Gathered(s.objects, s.redirects))
    else if Collected(s.objects, Top(s)) then Continue(Skip(s))
    else
      match w.canonicalize(Top(s))
      case None => Done(Error(InvalidId))
      case Some(canonical) =>
        if w.IsLocal(Top(s)) then
          if s.objects == [] then Done(Error(LocalObject))
          else if w.StoredLocal(Top(s)) then Continue(s.(queue := Popped(s)))
          else Done(Error(LocalPostNotFound))
        else
          match w.remotePost(canonical)
          case Found => if s.objects == [] then Done(Existing(Top(s))) else Continue(Skip(s))
          case Failed => Done(Error(DatabaseFailure))
          case NotFound => Absorb(w, s)
  }

  ghost function Stepper(w: World): Work -> Progress<Work, Outcome> {
    (s: Work) => Step(w, s)
  }

  /** The state after `n` iterations; None if the loop has ended before. */
  ghost function After(w: World, start: string, received: Option<Object>, n: nat): Option<Work> {
    Iterate(Stepper(w), Init(start, received), n)
  }

  lemma AfterNext(w: World, start: string, received: Option<Object>, n: nat, s: Work)
    requires After(w, start, received, n) == Some(s) && Step(w, s).Continue?
    ensures After(w, start, received, n + 1) == Some(Step(w, s).next)
  {
    assert Stepper(w)(s) == Step(w, s);
  }

  lemma AfterPrevious(w: World, start: string, received: Option<Object>, n: nat)
    requires n > 0 && After(w, start, received, n).Some?
    ensures After(w, start, received, n - 1).Some?
    ensures Step(w, After(w, start, received, n - 1).value) == Continue(After(w, start, received, n).value)
  {
    var s := After(w, start, received, n - 1).value;
    assert Stepper(w)(s) == Step(w, s);
  }

  // ---------------------------------------------------------------------
  // What a finished collection guarantees

  /** Stored, collected, or a redirect whose target is stored or collected: one hop is enough. */
  ghost predicate Settled(w: World, objects: seq<Object>, redirects: map<string, string>, id: string) {
    || w.Stored(id)
    || Collected(objects, id)
    || (id in redirects && (w.StoredRemote(redirects[id]) || Collected(objects, redirects[id])))
  }

  ghost predicate Closed(w: World, objects: seq<Object>, redirects: map<string, string>) {
    forall k, id :: 0 <= k < |objects| && Refers(objects[k], id) ==> Settled(w, objects, redirects, id)
  }

  /** No redirect leads to another redirect or to nothing. */
  ghost predicate TargetsSettled(w: World, objects: seq<Object>, redirects: map<string, string>) {
    forall id :: id in redirects ==> w.StoredRemote(redirects[id]) || Collected(objects, redirects[id])
  }

  ghost predicate DistinctIds(objects: seq<Object>) {
    forall i, j :: 0 <= i < j < |objects| ==> objects[i].id != objects[j].id
  }

  /** `r` is `id` itself or what the fetcher returned for it. */
  ghost predicate Leads(hops: seq<(string, string)>, id: string, r: string) {
    r == id || (id, r) in hops
  }

  /** Object `k`'s parent comes right after it, unless it was stored or collected before. */
  ghost predicate ParentNext(w: World, objects: seq<Object>, hops: seq<(string, string)>, k: nat)
    requires k < |objects| && objects[k].inReplyTo.Some?
  {
    exists r :: Leads(hops, objects[k].inReplyTo.value, r) &&
      (w.Stored(r) || Collected(objects[..k + 1], r) || (k + 1 < |objects| && objects[k + 1].id == r))
  }

  ghost predicate ParentsNext(w: World, objects: seq<Object>, hops: seq<(string, string)>) {
    forall k :: 0 <= k < |objects| && objects[k].inReplyTo.Some? ==> ParentNext(w, objects, hops, k)
  }

  /** Every recorded hop is an answer of the fetcher. */
  ghost predicate HopsFetched(w: World, hops: seq<(string, string)>, fetches: nat) {
    forall h :: h in hops ==>
      exists n: nat :: n < fetches && w.fetch(n, h.0).Some? && w.fetch(n, h.0).value.id == h.1
  }

  /** The hops are answers of the fetcher; the redirect map holds the last one for each ID. */
  ghost predicate HopsGenuine(w: World, redirects: map<string, string>, hops: seq<(string, string)>, fetches: nat) {
    && HopsFetched(w, hops, fetches)
    && (forall id :: id in redirects ==> (id, redirects[id]) in hops)
    && (forall h :: h in hops ==> h.0 in redirects)
  }

  ghost predicate NewPosts(w: World, objects: seq<Object>) {
    forall k :: 0 <= k < |objects| ==> w.Unknown(objects[k].id)
  }

  /** A collection from which posts can be created. */
  ghost predicate Ready(w: World, objects: seq<Object>, redirects: map<string, string>) {
    && DistinctIds(objects)
    && NewPosts(w, objects)
    && Closed(w, objects, redirects)
    && TargetsSettled(w, objects, redirects)
  }

  /** Everything that a normal end of the loop guarantees. */
  ghost predicate Complete(w: World, start: string, received: Option<Object>, s: Work) {
    && s.objects != []
    && Leads(s.hops, start, s.objects[0].id)
    && s.fetches <= w.limit
    && s.fetches == |s.hops| + |s.direct|
    && |s.objects| <= s.fetches + Bit(received.Some?)
    && Ready(w, s.objects, s.redirects)
    && ParentsNext(w, s.objects, s.hops)
    && HopsGenuine(w, s.redirects, s.hops, s.fetches)
  }

  // ---------------------------------------------------------------------
  // Where errors come from

  /** The ID was asked for, is the target of a redirect, or is mentioned by a collected object. */
  ghost predicate Arises(start: string, s: Work, id: string) {
    || id == start
    || (exists h :: h in s.hops && h.1 == id)
    || (exists k :: 0 <= k < |s.objects| && Refers(s.objects[k], id))
  }

  /** The only grounds for giving up at the ID. */
  ghost predicate Cause(w: World, s: Work, id: string, error: Error) {
    match error
    case LocalObject => w.IsLocal(id) && s.objects == []
    case InvalidId => w.canonicalize(id).None?
    case LocalPostNotFound => w.IsLocal(id) && !w.StoredLocal(id)
    case DatabaseFailure => w.canonicalize(id).Some? && !w.IsLocal(id) && w.remotePost(w.canonicalize(id).value).Failed?
    case RecursionLimit => w.Unknown(id) && s.inHand.None? && s.fetches == w.limit
    case FetchFailed => w.Unknown(id) && s.inHand.None? && s.fetches < w.limit && w.fetch(s.fetches, id).None?
    case _ => false
  }

  /** The run ends at an ID of its own that is not collected and gives cause for the error. */
  ghost predicate Explains(w: World, start: string, s: Work, error: Error) {
    && s.queue != []
    && Arises(start, s, Top(s))
    && !Collected(s.objects, Top(s))
    && Cause(w, s, Top(s), error)
  }

  // ---------------------------------------------------------------------
  // The loop invariant

  /** The object in hand is the one whose ID is about to be popped. */
  ghost predicate Shape(w: World, start: string, received: Option<Object>, s: Work) {
    && DistinctIds(s.objects)
    && NewPosts(w, s.objects)
    && s.fetches <= w.limit
    && s.fetches == |s.hops| + |s.direct|
    && |s.objects| + Bit(s.inHand.Some?) <= s.fetches + Bit(received.Some?)
    && (s.inHand.Some? ==> s.queue != [] && Top(s) == s.inHand.value.id)
    && (s.objects == [] ==> |s.queue| == 1 && Leads(s.hops, start, s.queue[0]))
    && (s.objects == [] && s.inHand.None? ==> s.queue[0] == start)
    && (w.IsLocal(start) ==> s.objects == [] && s.queue == [start])
    && (s.inHand.Some? ==> s.inHand.value.id == start || !w.IsLocal(s.inHand.value.id))
    && (s.objects != [] ==> Leads(s.hops, start, s.objects[0].id))
  }

  ghost predicate Open(w: World, s: Work, id: string) {
    || id in s.queue
    || Settled(w, s.objects, s.redirects, id)
    || (s.inHand.Some? && id in s.redirects && s.redirects[id] == s.inHand.value.id)
  }

  ghost predicate Closing(w: World, s: Work) {
    && (forall k, id :: 0 <= k < |s.objects| && Refers(s.objects[k], id) ==> Open(w, s, id))
    && (forall id :: id in s.redirects ==>
          || w.StoredRemote(s.redirects[id])
          || Collected(s.objects, s.redirects[id])
          || (s.inHand.Some? && s.redirects[id] == s.inHand.value.id))
  }

  /** The last object's parent is on top of the queue. */
  ghost predicate ParentPending(s: Work, k: nat)
    requires k < |s.objects| && s.objects[k].inReplyTo.Some?
  {
    && k == |s.objects| - 1 && s.queue != []
    && Leads(s.hops, s.objects[k].inReplyTo.value, Top(s))
    && (s.inHand.None? ==> Top(s) == s.objects[k].inReplyTo.value)
  }

  ghost predicate Ordered(w: World, s: Work) {
    forall k :: 0 <= k < |s.objects| && s.objects[k].inReplyTo.Some? ==>
      ParentNext(w, s.objects, s.hops, k) || ParentPending(s, k)
  }

  ghost predicate Traced(start: string, s: Work) {
    forall id :: id in s.queue ==> Arises(start, s, id)
  }

  ghost predicate Inv(w: World, start: string, received: Option<Object>, s: Work) {
    && Shape(w, start, received, s)
    && Closing(w, s)
    && Ordered(w, s)
    && HopsGenuine(w, s.redirects, s.hops, s.fetches)
    && Traced(start, s)
  }

  lemma {:induction false} ReversedMembers(ids: seq<string>, id: string)
    ensures id in Reversed(ids) <==> id in ids
  {
    if ids != [] {
      ReversedMembers(ids[1..], id);
      assert ids == [ids[0]] + ids[1..];
    }
  }

  lemma QueueWithoutTop(s: Work, id: string)
    requires s.queue != [] && id in s.queue && id != Top(s)
    ensures id in Popped(s)
  {
    assert s.queue == Popped(s) + [Top(s)];
  }

  // Skip

  ghost predicate Known(w: World, s: Work)
    requires s.queue != []
  {
    w.Stored(Top(s)) || Collected(s.objects, Top(s))
  }

  lemma SkipKeepsClosing(w: World, start: string, received: Option<Object>, s: Work)
    requires Shape(w, start, received, s) && Closing(w, s) && s.objects != [] && s.queue != [] && Known(w, s)
    ensures Closing(w, Skip(s))
  {
    var s' := Skip(s);
    forall id | id in s.redirects
      ensures w.StoredRemote(s.redirects[id]) || Collected(s.objects, s.redirects[id])
    {
      assert s.inHand.Some? && s.redirects[id] == s.inHand.value.id ==> !w.IsLocal(Top(s));
    }
    forall k, id | 0 <= k < |s.objects| && Refers(s.objects[k], id) ensures Open(w, s', id) {
      assert Open(w, s, id);
      if id in s.queue && id != Top(s) {
        QueueWithoutTop(s, id);
      }
    }
  }

  lemma SkipKeepsOrdered(w: World, s: Work)
    requires Ordered(w, s) && s.queue != [] && Known(w, s)
    ensures Ordered(w, Skip(s))
  {
    var s' := Skip(s);
    forall k | 0 <= k < |s.objects| && s.objects[k].inReplyTo.Some? ensures ParentNext(w, s'.objects, s'.hops, k) {
      if ParentPending(s, k) {
        assert s.objects[..k + 1] == s.objects;
        assert Leads(s.hops, s.objects[k].inReplyTo.value, Top(s));
      }
    }
  }

  lemma SkipKeepsInv(w: World, start: string, received: Option<Object>, s: Work)
    requires Inv(w, start, received, s) && s.objects != [] && s.queue != [] && Known(w, s)
    ensures Inv(w, start, received, Skip(s))
  {
    SkipKeepsClosing(w, start, received, s);
    SkipKeepsOrdered(w, s);
    forall id | id in Popped(s) ensures Arises(start, Skip(s), id) {
      assert Arises(start, s, id);
    }
  }

  // Redirect

  lemma RedirectKeepsClosing(w: World, s: Work, o: Object)
    requires Closing(w, s) && s.queue != [] && s.inHand.None?
    ensures Closing(w, Redirect(s, o))
  {
    var s' := Redirect(s, o);
    forall k, id | 0 <= k < |s.objects| && Refers(s.objects[k], id) ensures Open(w, s', id) {
      assert Open(w, s, id);
      if id in s.queue && id != Top(s) {
        QueueWithoutTop(s, id);
      }
    }
  }

  lemma RedirectKeepsOrdered(w: World, s: Work, o: Object)
    requires Ordered(w, s) && s.queue != [] && s.inHand.None?
    ensures Ordered(w, Redirect(s, o))
  {
    var s' := Redirect(s, o);
    forall k | 0 <= k < |s.objects| && s.objects[k].inReplyTo.Some?
      ensures ParentNext(w, s'.objects, s'.hops, k) || ParentPending(s', k)
    {
      if ParentPending(s, k) {
        assert (Top(s), o.id) in s'.hops;
        assert ParentPending(s', k);
      } else {
        MoreHops(w, s.objects, s.hops, s'.hops, k);
      }
    }
  }

  lemma MoreHops(w: World, objects: seq<Object>, hops: seq<(string, string)>, hops': seq<(string, string)>, k: nat)
    requires k < |objects| && objects[k].inReplyTo.Some? && ParentNext(w, objects, hops, k)
    requires forall h :: h in hops ==> h in hops'
    ensures ParentNext(w, objects, hops', k)
  {
    var p := objects[k].inReplyTo.value;
    var r :| Leads(hops, p, r) &&
      (w.Stored(r) || Collected(objects[..k + 1], r) || (k + 1 < |objects| && objects[k + 1].id == r));
    assert Leads(hops', p, r);
  }

  lemma RedirectKeepsGenuine(w: World, s: Work, o: Object)
    requires HopsGenuine(w, s.redirects, s.hops, s.fetches) && s.queue != [] && s.inHand.None?
    requires w.fetch(s.fetches, Top(s)) == Some(o)
    ensures var s' := Redirect(s, o); HopsGenuine(w, s'.redirects, s'.hops, s'.fetches)
  {
    var s' := Redirect(s, o);
    forall h | h in s'.hops
      ensures exists n: nat :: n < s'.fetches && w.fetch(n, h.0).Some? && w.fetch(n, h.0).value.id == h.1
    {
      if h in s.hops {
        var n: nat :| n < s.fetches && w.fetch(n, h.0).Some? && w.fetch(n, h.0).value.id == h.1;
        assert n < s'.fetches;
      } else {
        assert h == (Top(s), o.id);
        assert s.fetches < s'.fetches;
      }
    }
    assert s'.hops[|s.hops|] == (Top(s), o.id);
  }

  lemma RedirectKeepsTraced(start: string, s: Work, o: Object)
    requires Traced(start, s) && s.queue != []
    ensures Traced(start, Redirect(s, o))
  {
    var s' := Redirect(s, o);
    assert s'.hops[|s.hops|] == (Top(s), o.id);
    forall id | id in Popped(s) ensures Arises(start, s', id) {
      assert Arises(start, s, id);
      if h :| h in s.hops && h.1 == id {
        assert h in s'.hops;
      }
    }
  }

  lemma RedirectKeepsInv(w: World, start: string, received: Option<Object>, s: Work, o: Object)
    requires w.Ok() && Inv(w, start, received, s) && s.queue != [] && s.inHand.None?
    requires s.fetches < w.limit && w.fetch(s.fetches, Top(s)) == Some(o) && !w.IsLocal(Top(s))
    ensures Inv(w, start, received, Redirect(s, o))
  {
    RedirectKeepsClosing(w, s, o);
    RedirectKeepsOrdered(w, s, o);
    RedirectKeepsGenuine(w, s, o);
    RedirectKeepsTraced(start, s, o);
    var s' := Redirect(s, o);
    assert s'.hops[|s.hops|] == (Top(s), o.id);
    assert Shape(w, start, received, s');
  }

  // Collect

  lemma MoreCollected(objects: seq<Object>, o: Object, id: string)
    ensures Collected(objects + [o], id) <==> Collected(objects, id) || id == o.id
  {
    if Collected(objects, id) {
      var k :| 0 <= k < |objects| && objects[k].id == id;
      assert (objects + [o])[k].id == id;
    }
    assert (objects + [o])[|objects|] == o;
  }

  lemma ExtendedMembers(queue: seq<string>, o: Object, id: string)
    ensures id in Extended(queue, o) <==> id in queue || Refers(o, id)
  {
    ReversedMembers(o.Links(), id);
  }

  lemma CollectKeepsClosing(w: World, start: string, received: Option<Object>, s: Work, o: Object)
    requires Shape(w, start, received, s) && Closing(w, s) && s.queue != [] && o.id == Top(s)
    ensures Closing(w, Collect(s, o))
  {
    var s' := Collect(s, o);
    forall id | id in s.redirects
      ensures w.StoredRemote(s.redirects[id]) || Collected(s'.objects, s.redirects[id])
    {
      MoreCollected(s.objects, o, s.redirects[id]);
    }
    forall k, id | 0 <= k < |s'.objects| && Refers(s'.objects[k], id) ensures Open(w, s', id) {
      MoreCollected(s.objects, o, id);
      ExtendedMembers(Popped(s), o, id);
      if k < |s.objects| {
        assert Refers(s.objects[k], id) && Open(w, s, id);
        if id in s.queue && id != Top(s) {
          QueueWithoutTop(s, id);
        }
      }
    }
  }

  lemma CollectKeepsOrdered(w: World, s: Work, o: Object)
    requires Ordered(w, s) && s.queue != [] && o.id == Top(s)
    ensures Ordered(w, Collect(s, o))
  {
    var s' := Collect(s, o);
    forall k | 0 <= k < |s'.objects| && s'.objects[k].inReplyTo.Some?
      ensures ParentNext(w, s'.objects, s'.hops, k) || ParentPending(s', k)
    {
      if k < |s.objects| {
        assert s'.objects[k] == s.objects[k] && s'.objects[..k + 1] == s.objects[..k + 1];
        if ParentPending(s, k) {
          assert s'.objects[k + 1].id == Top(s);
          assert Leads(s.hops, s.objects[k].inReplyTo.value, Top(s));
        } else {
          var p := s.objects[k].inReplyTo.value;
          var r :| Leads(s.hops, p, r) &&
            (w.Stored(r) || Collected(s.objects[..k + 1], r) || (k + 1 < |s.objects| && s.objects[k + 1].id == r));
          assert k + 1 < |s.objects| ==> s'.objects[k + 1] == s.objects[k + 1];
        }
      } else {
        assert ParentPending(s', k);
      }
    }
  }

  lemma CollectKeepsTraced(start: string, s: Work, o: Object)
    requires Traced(start, s) && s.queue != []
    ensures Traced(start, Collect(s, o))
  {
    var s' := Collect(s, o);
    forall id | id in s'.queue ensures Arises(start, s', id) {
      ExtendedMembers(Popped(s), o, id);
      if Refers(o, id) {
        assert s'.objects[|s.objects|] == o;
      } else {
        assert Arises(start, s, id);
        if k :| 0 <= k < |s.objects| && Refers(s.objects[k], id) {
          assert s'.objects[k] == s.objects[k];
        }
      }
    }
  }

  lemma CollectKeepsGenuine(w: World, s: Work, o: Object)
    requires HopsGenuine(w, s.redirects, s.hops, s.fetches) && s.queue != []
    ensures var s' := Collect(s, o); HopsGenuine(w, s'.redirects, s'.hops, s'.fetches)
  {
    var s' := Collect(s, o);
    forall h | h in s.hops
      ensures exists n: nat :: n < s'.fetches && w.fetch(n, h.0).Some? && w.fetch(n, h.0).value.id == h.1
    {
      var n: nat :| n < s.fetches && w.fetch(n, h.0).Some? && w.fetch(n, h.0).value.id == h.1;
      assert n < s'.fetches;
    }
  }

  lemma CollectKeepsInv(w: World, start: string, received: Option<Object>, s: Work, o: Object)
    requires Inv(w, start, received, s) && s.queue != [] && o.id == Top(s)
    requires !Collected(s.objects, o.id) && w.Unknown(o.id)
    requires s.inHand.None? ==> s.fetches < w.limit
    ensures Inv(w, start, received, Collect(s, o))
  {
    CollectKeepsClosing(w, start, received, s, o);
    CollectKeepsOrdered(w, s, o);
    CollectKeepsTraced(start, s, o);
    CollectKeepsGenuine(w, s, o);
    var s' := Collect(s, o);
    assert forall k :: 0 <= k < |s.objects| ==> s'.objects[k] == s.objects[k];
    assert DistinctIds(s'.objects) && NewPosts(w, s'.objects);
  }

  // ---------------------------------------------------------------------
  // Every run

  /** The lexicographic measure: fetches left, whether an object is in hand, length of the queue. */
  ghost predicate Decreases(w: World, s: Work, s': Work) {
    || w.limit - s'.fetches < w.limit - s.fetches
    || (s'.fetches == s.fetches && Bit(s'.inHand.Some?) < Bit(s.inHand.Some?))
    || (s'.fetches == s.fetches && s'.inHand.Some? == s.inHand.Some? && |s'.queue| < |s.queue|)
  }

  /** At an unknown ID an object in hand is the one wanted. */
  lemma AbsorbKeepsInv(w: World, start: string, received: Option<Object>, s: Work)
    requires w.Ok() && Inv(w, start, received, s) && s.queue != [] && Absorb(w, s).Continue?
    requires w.Unknown(Top(s)) && !Collected(s.objects, Top(s))
    ensures Inv(w, start, received, Absorb(w, s).next) && Decreases(w, s, Absorb(w, s).next)
  {
    var o := if s.inHand.Some? then s.inHand.value else w.fetch(s.fetches, Top(s)).value;
    if o.id == Top(s) {
      CollectKeepsInv(w, start, received, s, o);
    } else {
      RedirectKeepsInv(w, start, received, s, o);
    }
  }

  /** A known ID is dropped; at a local one nothing is in hand. */
  lemma DropKeepsInv(w: World, start: string, received: Option<Object>, s: Work)
    requires Inv(w, start, received, s) && s.queue != [] && s.objects != [] && Known(w, s)
    ensures Inv(w, start, received, Skip(s)) && Decreases(w, s, Skip(s))
    ensures w.IsLocal(Top(s)) ==> s.(queue := Popped(s)) == Skip(s)
  {
    SkipKeepsInv(w, start, received, s);
  }

  lemma StepKeepsInv(w: World, start: string, received: Option<Object>, s: Work)
    requires w.Ok() && Inv(w, start, received, s) && Step(w, s).Continue?
    ensures Inv(w, start, received, Step(w, s).next) && Decreases(w, s, Step(w, s).next)
  {
    if !Collected(s.objects, Top(s)) && w.Unknown(Top(s)) {
      AbsorbKeepsInv(w, start, received, s);
    } else {
      DropKeepsInv(w, start, received, s);
    }
  }

  lemma InitInv(w: World, start: string, received: Option<Object>)
    requires received.Some? ==> received.value.id == start
    ensures Inv(w, start, received, Init(start, received))
  {
  }

  lemma {:induction false} ReachableInv(w: World, start: string, received: Option<Object>, n: nat)
    requires w.Ok() && (received.Some? ==> received.value.id == start)
    requires After(w, start, received, n).Some?
    ensures Inv(w, start, received, After(w, start, received, n).value)
  {
    if n == 0 {
      InitInv(w, start, received);
    } else {
      AfterPrevious(w, start, received, n);
      ReachableInv(w, start, received, n - 1);
      StepKeepsInv(w, start, received, After(w, start, received, n - 1).value);
    }
  }

  /** With an empty queue nothing is open and no parent is pending. */
  lemma FinishedCollection(w: World, start: string, received: Option<Object>, s: Work)
    requires Inv(w, start, received, s) && s.queue == []
    ensures Complete(w, start, received, s)
  {
    forall k, id | 0 <= k < |s.objects| && Refers(s.objects[k], id) ensures Settled(w, s.objects, s.redirects, id) {
      assert Open(w, s, id);
    }
    forall k | 0 <= k < |s.objects| && s.objects[k].inReplyTo.Some? ensures ParentNext(w, s.objects, s.hops, k) {
      assert !ParentPending(s, k);
    }
  }

  /** What the end of a run means, whatever the fetcher answered. */
  ghost predicate Ends(w: World, start: string, received: Option<Object>, s: Work, outcome: Outcome) {
    match outcome
    case Gathered(objects, redirects) =>
      objects == s.objects && redirects == s.redirects && Complete(w, start, received, s)
    case Existing(id) => w.StoredRemote(id) && Leads(s.hops, start, id) && HopsFetched(w, s.hops, s.fetches)
    case Error(error) => Explains(w, start, s, error)
  }

  lemma StepEnds(w: World, start: string, received: Option<Object>, s: Work)
    requires Inv(w, start, received, s) && Step(w, s).Done?
    ensures Ends(w, start, received, s, Step(w, s).outcome)
    ensures w.IsLocal(start) ==> Step(w, s).outcome == Error(LocalObject)
  {
    if s.queue == [] {
      FinishedCollection(w, start, received, s);
    } else {
      assert Top(s) in s.queue && Arises(start, s, Top(s));
    }
  }

  /** Every run: the invariant holds throughout, and its end means what it should. */
  lemma RunEnds(w: World, start: string, received: Option<Object>, n: nat)
    requires w.Ok() && (received.Some? ==> received.value.id == start)
    requires After(w, start, received, n).Some? && Step(w, After(w, start, received, n).value).Done?
    ensures var s := After(w, start, received, n).value;
      Ends(w, start, received, s, Step(w, s).outcome)
    ensures w.IsLocal(start) ==> Step(w, After(w, start, received, n).value).outcome == Error(LocalObject)
  {
    ReachableInv(w, start, received, n);
    StepEnds(w, start, received, After(w, start, received, n).value);
  }

  /**
    If the network answers consistently, the redirect map used when posts are
    created leads every parent reference to the very object the collection was
    ordered for.
   */
  lemma ConsistentRedirects(w: World, redirects: map<string, string>, hops: seq<(string, string)>, fetches: nat,
                            id: string, r: string)
    requires forall m, n, x :: w.fetch(m, x) == w.fetch(n, x)
    requires HopsGenuine(w, redirects, hops, fetches) && Leads(hops, id, r) && r != id
    ensures id in redirects && redirects[id] == r
  {
    assert (id, r) in hops;
    assert (id, redirects[id]) in hops;
    var h, g := (id, r), (id, redirects[id]);
    var m: nat :| m < fetches && w.fetch(m, h.0).Some? && w.fetch(m, h.0).value.id == h.1;
    var n: nat :| n < fetches && w.fetch(n, g.0).Some? && w.fetch(n, g.0).value.id == g.1;
    assert w.fetch(m, id) == w.fetch(n, id);
  }
}
