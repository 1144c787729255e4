/** Threads that the importer collects and then fails to create, because posts are not created parent-first. */
module ImportExamples {
  import opened Wrappers
  import opened Iteration
  import opened Importer
  import opened PostCreation
  import ThreadImport

  /** The object is unknown and is what the n-th fetch returns for its ID. */
  ghost predicate Answers(w: World, n: nat, o: Object) {
    w.Unknown(o.id) && n < w.limit && w.fetch(n, o.id) == Some(o)
  }

  /** A state without redirects and with nothing in hand. */
  function Plain(queue: seq<string>, objects: seq<Object>, direct: seq<string>): Work {
    Work(queue, objects, map[], None, |direct|, [], direct)
  }

  /** The popped ID is fetched and collected. */
  lemma StepCollects(w: World, queue: seq<string>, objects: seq<Object>, direct: seq<string>, o: Object,
                     s: Work, s': Work)
    requires s == Plain(queue + [o.id], objects, direct)
    requires Answers(w, |direct|, o) && forall k :: 0 <= k < |objects| ==> objects[k].id != o.id
    requires s' == Plain(Extended(queue, o), objects + [o], direct + [o.id])
    ensures Step(w, s) == Continue(s')
  {
    assert Top(s) == o.id && Popped(s) == queue;
  }

  /** The last queued ID has been collected before. */
  lemma StepSkips(w: World, objects: seq<Object>, direct: seq<string>, k: nat)
    requires k < |objects|
    ensures Step(w, Plain([objects[k].id], objects, direct)) == Continue(Plain([], objects, direct))
  {
    var s := Plain([objects[k].id], objects, direct);
    assert Top(s) == objects[k].id && Popped(s) == [] && Collected(objects, objects[k].id);
  }

  /** An object with the given link tags and nothing else. */
  function Linking(id: string, links: seq<string>): Object {
    Object(id, None, seq(|links|, i requires 0 <= i < |links| => Some(links[i])), None)
  }

  function Reply(id: string, parent: string): Object {
    Object(id, Some(parent), [], None)
  }

  lemma LinksOfReply(id: string, parent: string)
    ensures Reply(id, parent).Links() == [] && Reply(id, parent).References() == [parent]
    ensures Extended([], Reply(id, parent)) == [parent]
  {
    assert Hrefs([]) + Listed(None) == [];
  }

  lemma LinksOfNone(id: string, queue: seq<string>)
    ensures Extended(queue, Linking(id, [])) == queue
  {
    assert Linking(id, []).tags == [] && Hrefs([]) + Listed(None) == [];
  }

  lemma LinksOfOne(id: string, b: string)
    ensures Extended([], Linking(id, [b])) == [b]
  {
    var tags := Linking(id, [b]).tags;
    assert tags == [Some(b)] && tags[1..] == [] && Hrefs([]) == [];
    assert Hrefs(tags) == [b];
    assert [b] + Listed(None) == [b];
    assert [b][..0] == [] && Unique([]) == [] && [b][1..] == [] && Reversed([b]) == [b];
  }

  lemma LinksOfTwo(id: string, b: string, c: string)
    requires b != c
    ensures Extended([], Linking(id, [b, c])) == [c, b]
  {
    var tags := Linking(id, [b, c]).tags;
    assert tags == [Some(b), Some(c)] && tags[1..] == [Some(c)] && [Some(c)][1..] == [] && Hrefs([]) == [];
    assert Hrefs([Some(c)]) == [c];
    assert Hrefs(tags) == [b, c];
    assert [b, c] + Listed(None) == [b, c];
    assert [b, c][..1] == [b] && [b][..0] == [] && Unique([]) == [] && Unique([b]) == [b];
    assert Unique([b, c]) == [b, c];
    ReversedTwo(b, c);
  }

  lemma ReversedTwo(b: string, c: string)
    ensures Reversed([b, c]) == [c, b]
  {
    assert [c][1..] == [];
    assert Reversed([c]) == [c];
    assert [b, c][1..] == [c];
    assert Reversed([b, c]) == Reversed([c]) + [b];
  }

  lemma FirstStep(w: World, a: Object)
    requires w.Unknown(a.id)
    ensures Step(w, Init(a.id, Some(a))) == Continue(Plain(Extended([], a), [a], []))
  {
    var s := Init(a.id, Some(a));
    assert Popped(s) == [] && Top(s) == a.id && !Collected([], a.id);
    assert Collect(s, a) == Plain(Extended([], a), [a], []);
  }

  lemma BackReference(w: World, objects: seq<Object>, k: nat, l: nat, id: string)
    requires l <= k < |objects| && id in objects[k].References() && objects[l].id == id
    ensures LeadsBack(objects, map[], k, id) && !Importable(w, objects, map[])
  {
    assert objects[..k + 1][l].id == id;
    assert LeadsBack(objects, map[], k, id);
  }

  /** The import of the received object ends, after `n` iterations, by gathering these objects without redirects. */
  ghost predicate Gathers(w: World, a: Object, n: nat, objects: seq<Object>) {
    && After(w, a.id, Some(a), n).Some?
    && Step(w, After(w, a.id, Some(a), n).value) == Done(Gathered(objects, map[]))
  }

  lemma GathersAfterThree(w: World, a: Object, s1: Work, s2: Work, objects: seq<Object>, direct: seq<string>)
    requires Step(w, Init(a.id, Some(a))) == Continue(s1) && Step(w, s1) == Continue(s2)
    requires Step(w, s2) == Continue(Plain([], objects, direct))
    ensures Gathers(w, a, 3, objects)
  {
    ThreeSteps(Stepper(w), Init(a.id, Some(a)), s1, s2, Plain([], objects, direct));
  }

  lemma GathersAfterFour(w: World, a: Object, s1: Work, s2: Work, s3: Work, objects: seq<Object>, direct: seq<string>)
    requires Step(w, Init(a.id, Some(a))) == Continue(s1) && Step(w, s1) == Continue(s2) && Step(w, s2) == Continue(s3)
    requires Step(w, s3) == Continue(Plain([], objects, direct))
    ensures Gathers(w, a, 4, objects)
  {
    FourSteps(Stepper(w), Init(a.id, Some(a)), s1, s2, s3, Plain([], objects, direct));
  }

  /**
    A post that links to its own reply: the reply is collected second and
    created first, its parent is not there, and the import fails.
   */
  lemma LinkedReplyFails(w: World, a: string, b: string)
    requires a != b && w.Unknown(a) && Answers(w, 0, Reply(b, a))
    ensures var parent, reply := Linking(a, [b]), Reply(b, a);
      && Gathers(w, parent, 3, [parent, reply])
      && LeadsBack([parent, reply], map[], 1, a)
      && !Importable(w, [parent, reply], map[])
  {
    var parent, reply := Linking(a, [b]), Reply(b, a);
    LinksOfOne(a, b);
    LinksOfReply(b, a);
    LinkedReplyRun(w, parent, reply);
    BackReference(w, [parent, reply], 1, 0, a);
  }

  lemma LinkedReplyRun(w: World, parent: Object, reply: Object)
    requires parent.id != reply.id && w.Unknown(parent.id) && Answers(w, 0, reply)
    requires Extended([], parent) == [reply.id] && Extended([], reply) == [parent.id]
    ensures Gathers(w, parent, 3, [parent, reply])
  {
    var both := [parent, reply];
    var s1, s2 := Plain([reply.id], [parent], []), Plain([parent.id], both, [reply.id]);
    FirstStep(w, parent);
    assert [] + [reply.id] == [reply.id] && [parent] + [reply] == both;
    StepCollects(w, [], [parent], [], reply, s1, s2);
    StepSkips(w, both, [reply.id], 0);
    GathersAfterThree(w, parent, s1, s2, both, [reply.id]);
  }

  /** The same with a quote: a post links to another, which quotes it. */
  lemma LinkedQuoteFails(w: World, a: string, b: string)
    requires a != b && w.Unknown(a) && Answers(w, 0, Quoting(b, a))
    ensures var top, quoting := Linking(a, [b]), Quoting(b, a);
      && Gathers(w, top, 3, [top, quoting])
      && LeadsBack([top, quoting], map[], 1, a)
      && !Importable(w, [top, quoting], map[])
  {
    var top, quoting := Linking(a, [b]), Quoting(b, a);
    LinksOfOne(a, b);
    LinksOfQuoting(b, a);
    LinkedReplyRun(w, top, quoting);
    ReferencesExactly(quoting, a);
    BackReference(w, [top, quoting], 1, 0, a);
  }

  /** A post that quotes another one. */
  function Quoting(id: string, quoted: string): Object {
    Object(id, None, [], Some(quoted))
  }

  lemma LinksOfQuoting(id: string, quoted: string)
    ensures Extended([], Quoting(id, quoted)) == [quoted]
  {
    assert Hrefs([]) == [] && [] + [quoted] == [quoted];
    assert [quoted][..0] == [] && Unique([]) == [] && Unique([quoted]) == [quoted];
    assert [quoted][1..] == [] && Reversed([quoted]) == [quoted];
  }

  /** The same without a cycle: of two linked posts the second is a reply to the first. */
  lemma LinkedSiblingsFail(w: World, a: string, b: string, c: string)
    requires a != b && a != c && b != c && w.Unknown(a)
    requires Answers(w, 0, Linking(b, [])) && Answers(w, 1, Reply(c, b))
    ensures var objects := [Linking(a, [b, c]), Linking(b, []), Reply(c, b)];
      && Gathers(w, objects[0], 4, objects)
      && LeadsBack(objects, map[], 2, b)
      && !Importable(w, objects, map[])
  {
    var top, first, second := Linking(a, [b, c]), Linking(b, []), Reply(c, b);
    LinksOfTwo(a, b, c);
    LinksOfNone(b, [c]);
    LinksOfReply(c, b);
    SiblingsRun(w, top, first, second);
    BackReference(w, [top, first, second], 2, 1, b);
  }

  lemma SiblingsRun(w: World, top: Object, first: Object, second: Object)
    requires top.id != first.id && top.id != second.id && first.id != second.id && w.Unknown(top.id)
    requires Extended([], top) == [second.id, first.id] && Extended([second.id], first) == [second.id]
    requires Extended([], second) == [first.id] && Answers(w, 0, first) && Answers(w, 1, second)
    ensures Gathers(w, top, 4, [top, first, second])
  {
    var b, c, all := first.id, second.id, [top, first, second];
    var s1, s2, s3 := Plain([c, b], [top], []), Plain([c], [top, first], [b]), Plain([b], all, [b, c]);
    FirstTwo(w, top, first, second, s1, s2);
    LastTwo(w, top, first, second, s2, s3);
    GathersAfterFour(w, top, s1, s2, s3, all, [b, c]);
  }

  lemma LastTwo(w: World, top: Object, first: Object, second: Object, s2: Work, s3: Work)
    requires top.id != second.id && first.id != second.id && Extended([], second) == [first.id] && Answers(w, 1, second)
    requires s2 == Plain([second.id], [top, first], [first.id])
    requires s3 == Plain([first.id], [top, first, second], [first.id, second.id])
    ensures Step(w, s2) == Continue(s3)
    ensures Step(w, s3) == Continue(Plain([], [top, first, second], [first.id, second.id]))
  {
    var b, c, all := first.id, second.id, [top, first, second];
    assert [] + [c] == [c] && [top, first] + [second] == all && [b] + [c] == [b, c];
    StepCollects(w, [], [top, first], [b], second, s2, s3);
    StepSkips(w, all, [b, c], 1);
  }

  lemma FirstTwo(w: World, top: Object, first: Object, second: Object, s1: Work, s2: Work)
    requires top.id != first.id && first.id != second.id && w.Unknown(top.id) && Answers(w, 0, first)
    requires Extended([], top) == [second.id, first.id] && Extended([second.id], first) == [second.id]
    requires s1 == Plain([second.id, first.id], [top], []) && s2 == Plain([second.id], [top, first], [first.id])
    ensures Step(w, Init(top.id, Some(top))) == Continue(s1) && Step(w, s1) == Continue(s2)
  {
    var b, c := first.id, second.id;
    FirstStep(w, top);
    assert [c] + [b] == [c, b] && [] + [b] == [b] && [top] + [first] == [top, first];
    StepCollects(w, [c], [top], [], first, s1, s2);
  }

  /** Two spellings of one ID, for instance through two gateways: both are collected, and the second cannot be created. */
  lemma TwoSpellingsFail(w: World, a: string, b: string, c: string)
    requires a != b && a != c && b != c && w.Unknown(a) && w.canonicalize(b) == w.canonicalize(c)
    requires Answers(w, 0, Linking(b, [])) && Answers(w, 1, Linking(c, []))
    ensures var objects := [Linking(a, [b, c]), Linking(b, []), Linking(c, [])];
      && Gathers(w, objects[0], 3, objects)
      && !DistinctCanonicalIds(w, objects)
      && !Importable(w, objects, map[])
  {
    var top, first, second := Linking(a, [b, c]), Linking(b, []), Linking(c, []);
    LinksOfTwo(a, b, c);
    LinksOfNone(b, [c]);
    LinksOfNone(c, []);
    SpellingsRun(w, top, first, second);
    SameCanonicalId(w, [top, first, second], 1, 2);
  }

  lemma SpellingsRun(w: World, top: Object, first: Object, second: Object)
    requires top.id != first.id && top.id != second.id && first.id != second.id && w.Unknown(top.id)
    requires Extended([], top) == [second.id, first.id] && Extended([second.id], first) == [second.id]
    requires Extended([], second) == []
    requires Answers(w, 0, first) && Answers(w, 1, second)
    ensures Gathers(w, top, 3, [top, first, second])
  {
    var b, c, all := first.id, second.id, [top, first, second];
    var s1, s2 := Plain([c, b], [top], []), Plain([c], [top, first], [b]);
    FirstTwo(w, top, first, second, s1, s2);
    assert [] + [c] == [c] && [top, first] + [second] == all && [b] + [c] == [b, c];
    StepCollects(w, [], [top, first], [b], second, s2, Plain([], all, [b, c]));
    GathersAfterThree(w, top, s1, s2, all, [b, c]);
  }

  lemma SameCanonicalId(w: World, objects: seq<Object>, i: nat, j: nat)
    requires i < j < |objects| && w.canonicalize(objects[i].id) == w.canonicalize(objects[j].id)
    ensures !DistinctCanonicalIds(w, objects) && !Importable(w, objects, map[])
  {
  }

  /** A database without posts and a network that serves a post "a" with a link to its reply "b". */
  const EXAMPLE: World := World(
    (id: string) => Some(id),
    (id: string) => None,
    (post: nat) => false,
    (id: string) => NotFound,
    (n: nat, id: string) => if id == "b" then Some(Reply("b", "a")) else if id == "a" then Some(Linking("a", ["b"])) else None,
    10,
    (o: Object) => true)

  /** The concrete import: the thread of two posts is collected, "b" would have to be created before "a". */
  lemma ExampleFails()
    ensures EXAMPLE.Ok()
    ensures Gathers(EXAMPLE, Linking("a", ["b"]), 3, [Linking("a", ["b"]), Reply("b", "a")])
    ensures !Importable(EXAMPLE, [Linking("a", ["b"]), Reply("b", "a")], map[])
  {
    assert "a"[0] != "b"[0];
    LinkedReplyFails(EXAMPLE, "a", "b");
  }

  lemma SameEnd(w: World, a: Object, m: nat, objects: seq<Object>, n: nat, s: Work)
    requires Gathers(w, a, m, objects) && After(w, a.id, Some(a), n) == Some(s) && Step(w, s).Done?
    ensures Step(w, s) == Done(Gathered(objects, map[]))
  {
    EndsOnce(Stepper(w), Init(a.id, Some(a)), m, n);
  }

  /** Importing the example fails for want of a parent that has been collected all along. */
  method ImportExample() returns (result: Result<Post, Error>)
    ensures result == Err(MissingReference)
  {
    ExampleFails();
    var a, b := Linking("a", ["b"]), Reply("b", "a");
    ghost var s, n;
    result, s, n := ThreadImport.ImportPost(EXAMPLE, a.id, Some(a));
    SameEnd(EXAMPLE, a, 3, [a, b], n, s);
    NoOtherError(result.error);
  }

  lemma NoOtherError(error: Error)
    requires exists k :: 0 <= k < 2 && var objects := [Linking("a", ["b"]), Reply("b", "a")];
      Refuses(EXAMPLE, objects[k], map[], IdsOf(EXAMPLE, objects[k + 1..]), error)
    ensures error == MissingReference
  {
    var a, b := Linking("a", ["b"]), Reply("b", "a");
    assert [a, b][1..] == [b] && [a, b][2..] == [];
    assert IdsOf(EXAMPLE, []) == {} && IdsOf(EXAMPLE, [b]) == {"b"};
    assert "a"[0] != "b"[0];
  }
}
