/** When the fetch budget suffices: a consistent network, and what every visit to it costs. */
module ImportBudget {
  import opened Wrappers
  import opened Iteration
  import opened Importer

  /**
    `net` describes everything that can be reached from `start` and is not
    stored: what the network answers for an ID, always the same, and for the ID
    of an answer that answer again.
   */
  ghost predicate Describes(w: World, net: map<string, Object>, start: string, received: Option<Object>) {
    && start in net
    && (received.Some? ==> received.value.id == start && received.value == net[start])
    && (forall id :: id in net ==> w.Unknown(id))
    && (forall n, id :: id in net ==> w.fetch(n, id) == Some(net[id]))
    && (forall id :: id in net ==> net[id].id in net && net[net[id].id] == net[id])
    && (forall id, x :: id in net && Refers(net[id], x) ==> x in net || w.Stored(x))
  }

  /** IDs under which the object of that very ID is found. */
  ghost function Originals(net: map<string, Object>): set<string> {
    set id | id in net && net[id].id == id
  }

  predicate Redirects(net: map<string, Object>, id: string) {
    id in net && net[id].id != id
  }

  /** How many of the references are redirected: each of them costs a fetch whenever it comes up. */
  function Bounces(net: map<string, Object>, ids: seq<string>): nat {
    if ids == [] then 0 else Bit(Redirects(net, ids[|ids| - 1])) + Bounces(net, ids[..|ids| - 1])
  }

  /** Fetching an original, and the redirected references it contains. */
  function CostOf(net: map<string, Object>, id: string): nat
    requires id in net
  {
    1 + Bounces(net, Extended([], net[id]))
  }

  ghost function Total(net: map<string, Object>, ids: set<string>): nat
    requires ids <= net.Keys
  {
    if ids == {} then 0
    else
      var id :| id in ids;
      CostOf(net, id) + Total(net, ids - {id})
  }

  /** One fetch for every original and one for every redirected reference, the initial one included. */
  ghost function Budget(net: map<string, Object>, start: string): nat {
    Bit(Redirects(net, start)) + Total(net, Originals(net))
  }

  lemma {:induction false} TotalRemove(net: map<string, Object>, ids: set<string>, id: string)
    requires ids <= net.Keys && id in ids
    ensures Total(net, ids) == CostOf(net, id) + Total(net, ids - {id})
    decreases ids
  {
    var other :| other in ids && Total(net, ids) == CostOf(net, other) + Total(net, ids - {other});
    if other != id {
      TotalRemove(net, ids - {other}, id);
      TotalRemove(net, ids - {id}, other);
      assert ids - {other} - {id} == ids - {id} - {other};
    }
  }

  lemma {:induction false} BouncesConcat(net: map<string, Object>, a: seq<string>, b: seq<string>)
    ensures Bounces(net, a + b) == Bounces(net, a) + Bounces(net, b)
  {
    if b == [] {
      assert a + b == a;
    } else {
      var n := |b| - 1;
      BouncesConcat(net, a, b[..n]);
      assert (a + b)[..|a + b| - 1] == a + b[..n];
    }
  }

  lemma BouncesExtended(net: map<string, Object>, queue: seq<string>, o: Object)
    ensures Bounces(net, Extended(queue, o)) == Bounces(net, queue) + Bounces(net, Extended([], o))
  {
    var links, parent := Reversed(o.Links()), Listed(o.inReplyTo);
    BouncesConcat(net, links + queue, parent);
    BouncesConcat(net, links, queue);
    assert links + [] == links;
    BouncesConcat(net, links, parent);
  }

  // ---------------------------------------------------------------------
  // The potential

  ghost function Left(net: map<string, Object>, s: Work): set<string> {
    set id | id in Originals(net) && !Collected(s.objects, id)
  }

  /** The queue without the entry of the object in hand. */
  function Waiting(s: Work): seq<string> {
    if s.inHand.Some? && s.queue != [] then Popped(s) else s.queue
  }

  /** Fetches made, plus at most what is still to come. */
  ghost function Potential(net: map<string, Object>, s: Work): nat {
    s.fetches + Bounces(net, Waiting(s)) + Total(net, Left(net, s))
  }

  ghost predicate Within(w: World, net: map<string, Object>, start: string, s: Work) {
    && (forall id :: id in s.queue ==> id in net || w.Stored(id))
    && (s.inHand.Some? ==>
          s.queue != [] && Top(s) == s.inHand.value.id && Top(s) in net && net[Top(s)] == s.inHand.value)
    && Potential(net, s) <= Budget(net, start)
  }

  lemma BouncesTop(net: map<string, Object>, s: Work)
    requires s.queue != []
    ensures Bounces(net, s.queue) == Bounces(net, Popped(s)) + Bit(Redirects(net, Top(s)))
  {
  }

  lemma SkipWithin(w: World, net: map<string, Object>, start: string, s: Work)
    requires Within(w, net, start, s) && s.queue != []
    ensures Within(w, net, start, Skip(s))
  {
    BouncesTop(net, s);
    assert Left(net, Skip(s)) == Left(net, s);
  }

  lemma RedirectWithin(w: World, net: map<string, Object>, start: string, received: Option<Object>, s: Work)
    requires Describes(w, net, start, received) && Within(w, net, start, s)
    requires s.queue != [] && s.inHand.None? && Redirects(net, Top(s))
    ensures Within(w, net, start, Redirect(s, net[Top(s)]))
  {
    var s' := Redirect(s, net[Top(s)]);
    assert Popped(s') == Popped(s) && Top(s') == net[Top(s)].id;
    RedirectPotential(net, s, s');
    forall id | id in s'.queue ensures id in net || w.Stored(id) {
      assert id in Popped(s) || id == net[Top(s)].id;
    }
  }

  lemma RedirectPotential(net: map<string, Object>, s: Work, s': Work)
    requires s.queue != [] && s.inHand.None? && Redirects(net, Top(s))
    requires s'.queue != [] && s'.inHand.Some? && Popped(s') == Popped(s)
    requires s'.fetches == s.fetches + 1 && s'.objects == s.objects
    ensures Potential(net, s') == Potential(net, s)
  {
    BouncesTop(net, s);
    assert Left(net, s') == Left(net, s);
  }

  lemma CollectWithin(w: World, net: map<string, Object>, start: string, received: Option<Object>, s: Work)
    requires Describes(w, net, start, received) && Within(w, net, start, s)
    requires s.queue != [] && !Collected(s.objects, Top(s)) && Top(s) in net && net[Top(s)].id == Top(s)
    ensures Within(w, net, start, Collect(s, net[Top(s)]))
  {
    var o := net[Top(s)];
    var s' := Collect(s, o);
    CollectPotential(net, s, o, s');
    forall id | id in s'.queue ensures id in net || w.Stored(id) {
      ExtendedMembers(Popped(s), o, id);
    }
  }

  lemma CollectPotential(net: map<string, Object>, s: Work, o: Object, s': Work)
    requires s.queue != [] && o.id == Top(s) && Top(s) in net && net[Top(s)] == o && !Collected(s.objects, o.id)
    requires s'.queue == Extended(Popped(s), o) && s'.inHand.None? && s'.objects == s.objects + [o]
    requires s'.fetches <= s.fetches + 1
    ensures Potential(net, s') <= Potential(net, s)
  {
    BouncesTop(net, s);
    BouncesExtended(net, Popped(s), o);
    LeftAfter(net, s, o, s');
    TotalRemove(net, Left(net, s), o.id);
  }

  lemma LeftAfter(net: map<string, Object>, s: Work, o: Object, s': Work)
    requires s'.objects == s.objects + [o]
    ensures Left(net, s') == Left(net, s) - {o.id}
  {
    forall id ensures Collected(s'.objects, id) <==> Collected(s.objects, id) || id == o.id {
      MoreCollected(s.objects, o, id);
    }
  }

  lemma InitWithin(w: World, net: map<string, Object>, start: string, received: Option<Object>)
    requires Describes(w, net, start, received)
    ensures Within(w, net, start, Init(start, received))
  {
    var s := Init(start, received);
    assert Left(net, s) == Originals(net);
    BouncesTop(net, s);
    assert Popped(s) == [];
  }

  /** A reachable unknown ID is collected or redirected, in both cases as described. */
  lemma AbsorbDescribed(w: World, net: map<string, Object>, start: string, received: Option<Object>, s: Work)
    requires Describes(w, net, start, received) && Within(w, net, start, s) && s.queue != [] && Top(s) in net
    ensures Absorb(w, s) ==
      if s.inHand.None? && s.fetches >= w.limit then Done(Error(RecursionLimit)) else Continue(Place(s, net[Top(s)]))
    ensures s.inHand.Some? ==> net[Top(s)].id == Top(s)
  {
  }

  /** What an iteration does at an ID that is neither collected nor stored, and at one that is. */
  lemma StepDescribed(w: World, net: map<string, Object>, start: string, received: Option<Object>, s: Work)
    requires Describes(w, net, start, received) && Within(w, net, start, s) && s.queue != []
    ensures !Collected(s.objects, Top(s)) && Top(s) in net ==> Step(w, s) == Absorb(w, s)
    ensures (Collected(s.objects, Top(s)) || Top(s) !in net) && s.objects != [] ==> Step(w, s) == Continue(Skip(s))
  {
    assert Top(s) in s.queue;
    assert Top(s) in net ==> w.Unknown(Top(s));
  }

  lemma StepWithin(w: World, net: map<string, Object>, start: string, received: Option<Object>, s: Work)
    requires Describes(w, net, start, received) && Within(w, net, start, s) && Step(w, s).Continue?
    ensures Within(w, net, start, Step(w, s).next)
  {
    StepDescribed(w, net, start, received, s);
    if !Collected(s.objects, Top(s)) && Top(s) in net {
      AbsorbDescribed(w, net, start, received, s);
      if net[Top(s)].id == Top(s) {
        CollectWithin(w, net, start, received, s);
      } else {
        RedirectWithin(w, net, start, received, s);
      }
    } else {
      assert s.objects != [];
      SkipWithin(w, net, start, s);
    }
  }

  lemma {:induction false} RunWithin(w: World, net: map<string, Object>, start: string, received: Option<Object>, n: nat)
    requires Describes(w, net, start, received) && After(w, start, received, n).Some?
    ensures Within(w, net, start, After(w, start, received, n).value)
  {
    if n == 0 {
      InitWithin(w, net, start, received);
    } else {
      AfterPrevious(w, start, received, n);
      RunWithin(w, net, start, received, n - 1);
      StepWithin(w, net, start, received, After(w, start, received, n - 1).value);
    }
  }

  /** At an ID that has to be fetched there is budget left. */
  lemma BudgetLeft(w: World, net: map<string, Object>, start: string, s: Work)
    requires Within(w, net, start, s) && s.queue != [] && s.inHand.None?
    requires Top(s) in net && !Collected(s.objects, Top(s))
    ensures s.fetches < Budget(net, start)
  {
    BouncesTop(net, s);
    if !Redirects(net, Top(s)) {
      TotalRemove(net, Left(net, s), Top(s));
    }
  }

  /** A run against a consistent network makes no more fetches than the budget. */
  lemma FetchesBounded(w: World, net: map<string, Object>, start: string, received: Option<Object>, n: nat)
    requires Describes(w, net, start, received) && After(w, start, received, n).Some?
    ensures After(w, start, received, n).value.fetches <= Budget(net, start)
  {
    RunWithin(w, net, start, received, n);
  }

  /**
    If the limit is at least the budget, the collection always ends normally:
    nothing that is reachable is missed and the recursion limit is never hit.
   */
  lemma BudgetSuffices(w: World, net: map<string, Object>, start: string, received: Option<Object>, n: nat)
    requires w.Ok() && Describes(w, net, start, received) && Budget(net, start) <= w.limit
    requires After(w, start, received, n).Some? && Step(w, After(w, start, received, n).value).Done?
    ensures Step(w, After(w, start, received, n).value).outcome.Gathered?
  {
    var s := After(w, start, received, n).value;
    RunWithin(w, net, start, received, n);
    ReachableInv(w, start, received, n);
    if s.queue != [] {
      FirstIsDescribed(w, net, start, received, s);
      NoEarlyEnd(w, net, start, received, s);
    }
  }

  lemma FirstIsDescribed(w: World, net: map<string, Object>, start: string, received: Option<Object>, s: Work)
    requires start in net && Within(w, net, start, s) && Shape(w, start, received, s)
    ensures s.objects == [] ==> s.queue != [] && Top(s) in net
  {
  }

  lemma NoEarlyEnd(w: World, net: map<string, Object>, start: string, received: Option<Object>, s: Work)
    requires Describes(w, net, start, received) && Within(w, net, start, s) && Budget(net, start) <= w.limit
    requires s.queue != [] && (s.objects == [] ==> Top(s) in net)
    ensures Step(w, s).Continue?
  {
    StepDescribed(w, net, start, received, s);
    if !Collected(s.objects, Top(s)) && Top(s) in net {
      AbsorbDescribed(w, net, start, received, s);
      if s.inHand.None? {
        BudgetLeft(w, net, start, s);
      }
    }
  }
}
