/** The final fold of a delivery job: per-actor reachability from per-inbox results. */
module Reachability {
  import opened Recipients
  import opened Sorting

  /** Groups recipients by actor ID, in list order (the source's fold into an ordered map). */
  function GroupByActor(rs: seq<Recipient>): map<string, seq<Recipient>> {
    if rs == [] then map[]
    else
      var groups := GroupByActor(rs[..|rs| - 1]);
      var r := rs[|rs| - 1];
      groups[r.id := (if r.id in groups then groups[r.id] else []) + [r]]
  }

  /** Actor ID to `is_unreachable` status, as handed to the database. */
  function Statuses(rs: seq<Recipient>): map<string, bool> {
    var groups := GroupByActor(rs);
    map actor | actor in groups :: !exists r :: r in groups[actor] && r.isDelivered
  }

  /** Actors all of whose inboxes answered 410. */
  function GoneActors(rs: seq<Recipient>): set<string> {
    var groups := GroupByActor(rs);
    set actor | actor in groups && forall r :: r in groups[actor] ==> r.isGone
  }

  function OfActor(actor: string): Recipient -> bool {
    (r: Recipient) => r.id == actor
  }

  lemma {:induction false} FilterAppend(rs: seq<Recipient>, r: Recipient, p: Recipient -> bool)
    ensures Filter(rs + [r], p) == Filter(rs, p) + (if p(r) then [r] else [])
  {
    if rs == [] {
      assert rs + [r] == [r];
      assert [r][1..] == [];
    } else {
      FilterAppend(rs[1..], r, p);
      assert (rs + [r])[1..] == rs[1..] + [r];
    }
  }

  /** Grouping is a partition: an actor's group is its recipients, all of them, in order. */
  lemma {:induction false} GroupsAreFilters(rs: seq<Recipient>, actor: string)
    ensures actor in GroupByActor(rs) <==> exists r :: r in rs && r.id == actor
    ensures actor in GroupByActor(rs) ==> GroupByActor(rs)[actor] == Filter(rs, OfActor(actor))
    ensures actor !in GroupByActor(rs) ==> Filter(rs, OfActor(actor)) == []
  {
    if rs != [] {
      var n := |rs| - 1;
      GroupsAreFilters(rs[..n], actor);
      FilterAppend(rs[..n], rs[n], OfActor(actor));
      assert rs == rs[..n] + [rs[n]];
      assert rs[n] in rs;
    }
  }

  lemma {:induction false} FilterMembers(rs: seq<Recipient>, p: Recipient -> bool, r: Recipient)
    ensures r in Filter(rs, p) <==> r in rs && p(r)
  {
    if rs != [] {
      FilterMembers(rs[1..], p, r);
      assert rs == [rs[0]] + rs[1..];
    }
  }

  lemma {:induction false} FilterMultiplicity(rs: seq<Recipient>, p: Recipient -> bool, r: Recipient)
    ensures multiset(Filter(rs, p))[r] == if p(r) then multiset(rs)[r] else 0
  {
    if rs != [] {
      FilterMultiplicity(rs[1..], p, r);
      assert rs == [rs[0]] + rs[1..];
    }
  }

  /** Conservation: every recipient is in its own actor's group as often as in the list, and in no other. */
  lemma GroupingConserves(rs: seq<Recipient>, r: Recipient, actor: string)
    requires actor in GroupByActor(rs)
    ensures multiset(GroupByActor(rs)[actor])[r] == if r.id == actor then multiset(rs)[r] else 0
  {
    GroupsAreFilters(rs, actor);
    FilterMultiplicity(rs, OfActor(actor), r);
  }

  /**
    Every actor of the job gets exactly one status. It is reachable exactly
    when one of its inboxes was delivered to, and gone exactly when all of its
    inboxes are flagged gone.
   */
  lemma ReachabilityFold(rs: seq<Recipient>, actor: string)
    ensures actor in Statuses(rs) <==> exists r :: r in rs && r.id == actor
    ensures actor in Statuses(rs) ==>
      (Statuses(rs)[actor] <==> forall r :: r in rs && r.id == actor ==> !r.isDelivered)
    ensures actor in GoneActors(rs) <==>
      && actor in Statuses(rs)
      && (forall r :: r in rs && r.id == actor ==> r.isGone)
  {
    GroupsAreFilters(rs, actor);
    forall r ensures r in Filter(rs, OfActor(actor)) <==> r in rs && r.id == actor {
      FilterMembers(rs, OfActor(actor), r);
    }
  }
}
