/** Normalization of the recipient list when an outgoing job is created. */
module RecipientList {
  import opened Recipients
  import opened Sorting

  /** Sort key (inbox, not primary). */
  predicate InboxFirst(a: Recipient, b: Recipient) {
    if a.inbox == b.inbox then a.isPrimary || !b.isPrimary else StringLe(a.inbox, b.inbox)
  }

  /** Sort key (not primary, inbox). */
  predicate PrimaryFirst(a: Recipient, b: Recipient) {
    if a.isPrimary == b.isPrimary then StringLe(a.inbox, b.inbox) else a.isPrimary
  }

  /** Keeps the first element of every run of equal inboxes. */
  function DedupByInbox(s: seq<Recipient>): seq<Recipient> {
    if |s| <= 1 then s
    else
      var kept := DedupByInbox(s[..|s| - 1]);
      if s[|s| - 1].inbox == s[|s| - 2].inbox then kept else kept + [s[|s| - 1]]
  }

  function SortRecipients(rs: seq<Recipient>): seq<Recipient> {
    StableSort(DedupByInbox(StableSort(rs, InboxFirst)), PrimaryFirst)
  }

  lemma KeysAreOrders()
    ensures TotalPreorder(InboxFirst) && TotalPreorder(PrimaryFirst)
  {
    forall a, b ensures InboxFirst(a, b) || InboxFirst(b, a)
      ensures PrimaryFirst(a, b) || PrimaryFirst(b, a)
    {
      StringLeTotal(a.inbox, b.inbox);
    }
    forall a, b, c | InboxFirst(a, b) && InboxFirst(b, c) ensures InboxFirst(a, c) {
      InboxFirstTransitive(a, b, c);
    }
    forall a, b, c | PrimaryFirst(a, b) && PrimaryFirst(b, c) ensures PrimaryFirst(a, c) {
      if a.isPrimary == b.isPrimary == c.isPrimary {
        StringLeTransitive(a.inbox, b.inbox, c.inbox);
      }
    }
  }

  lemma InboxFirstTransitive(a: Recipient, b: Recipient, c: Recipient)
    requires InboxFirst(a, b) && InboxFirst(b, c)
    ensures InboxFirst(a, c)
  {
    if a.inbox != b.inbox && b.inbox != c.inbox {
      StringLeTransitive(a.inbox, b.inbox, c.inbox);
      if a.inbox == c.inbox {
        StringLeAntisymmetric(a.inbox, b.inbox);
      }
    }
  }

  // ---------------------------------------------------------------------
  // What normalization promises

  ghost predicate DistinctInboxes(s: seq<Recipient>) {
    forall i, j :: 0 <= i < j < |s| ==> s[i].inbox != s[j].inbox
  }

  ghost predicate HasInbox(s: seq<Recipient>, inbox: string) {
    exists r :: r in s && r.inbox == inbox
  }

  ghost predicate HasPrimary(s: seq<Recipient>, inbox: string) {
    exists r :: r in s && r.inbox == inbox && r.isPrimary
  }

  /** `out` has the inboxes of `rs`, once each, primary exactly when some input for the inbox was. */
  ghost predicate Represents(out: seq<Recipient>, rs: seq<Recipient>) {
    && DistinctInboxes(out)
    && (forall r :: r in out ==> r in rs)
    && (forall b :: HasInbox(out, b) <==> HasInbox(rs, b))
    && (forall r :: r in out ==> (r.isPrimary <==> HasPrimary(rs, r.inbox)))
  }

  lemma SortedPrefix(s: seq<Recipient>, n: nat)
    requires Sorted(s, InboxFirst) && n <= |s|
    ensures Sorted(s[..n], InboxFirst)
  {
  }

  /** In an inbox-sorted list the kept elements are the first of their inbox, hence the primary ones. */
  lemma {:induction false} DedupRepresents(s: seq<Recipient>)
    requires Sorted(s, InboxFirst)
    ensures Represents(DedupByInbox(s), s)
  {
    if |s| == 1 {
      SingleRepresents(s);
    } else if |s| >= 2 {
      var n := |s| - 1;
      SortedPrefix(s, n);
      DedupRepresents(s[..n]);
      DedupStep(s, s[..n], s[n], DedupByInbox(s[..n]));
    }
  }

  lemma SingleRepresents(s: seq<Recipient>)
    requires |s| == 1
    ensures Represents(s, s)
  {
    assert s[0] in s;
  }

  lemma DedupStep(s: seq<Recipient>, p: seq<Recipient>, last: Recipient, kept: seq<Recipient>)
    requires p != [] && s == p + [last] && Sorted(s, InboxFirst) && Represents(kept, p)
    ensures last.inbox == s[|s| - 2].inbox ==> Represents(kept, s)
    ensures last.inbox != s[|s| - 2].inbox ==> Represents(kept + [last], s)
  {
    var prev := p[|p| - 1];
    assert prev in p && s[|s| - 2] == prev && s[|s| - 1] == last && InboxFirst(prev, last);
    if last.inbox == prev.inbox {
      forall b ensures HasInbox(kept, b) <==> HasInbox(s, b) {
        assert HasInbox(s, b) ==> HasInbox(p, b) || b == prev.inbox;
        assert HasInbox(p, b) ==> HasInbox(s, b);
        assert HasInbox(kept, b) <==> HasInbox(p, b);
      }
      forall r | r in kept ensures r.isPrimary <==> HasPrimary(s, r.inbox) {
        assert HasPrimary(p, r.inbox) ==> HasPrimary(s, r.inbox);
        assert last.isPrimary ==> prev.isPrimary;
      }
    } else {
      LastInboxIsNew(p, last);
      forall b ensures HasInbox(kept + [last], b) <==> HasInbox(s, b) {
        assert HasInbox(kept, b) <==> HasInbox(p, b);
        assert HasInbox(s, b) ==> HasInbox(p, b) || b == last.inbox;
        assert HasInbox(p, b) ==> HasInbox(s, b);
        assert last in s && last in kept + [last];
      }
      forall r | r in kept + [last] ensures r.isPrimary <==> HasPrimary(s, r.inbox) {
        assert HasPrimary(p, r.inbox) ==> HasPrimary(s, r.inbox);
      }
    }
  }

  lemma LastInboxIsNew(p: seq<Recipient>, last: Recipient)
    requires p != [] && Sorted(p + [last], InboxFirst) && last.inbox != p[|p| - 1].inbox
    ensures forall r :: r in p ==> r.inbox != last.inbox
  {
    var s := p + [last];
    NewInboxAtEnd(s, |p|);
    assert forall j :: 0 <= j < |p| ==> s[j] == p[j];
  }

  lemma RepresentsPermuted(out: seq<Recipient>, out': seq<Recipient>, rs: seq<Recipient>, rs': seq<Recipient>)
    requires Represents(out, rs) && multiset(out') == multiset(out) && multiset(rs') == multiset(rs)
    ensures Represents(out', rs')
  {
    forall x ensures x in out' <==> x in out {
      SameElements(out', out, x);
    }
    forall x ensures x in rs' <==> x in rs {
      SameElements(rs', rs, x);
    }
    forall b ensures HasInbox(out', b) <==> HasInbox(out, b)
      ensures HasInbox(rs', b) <==> HasInbox(rs, b)
      ensures HasPrimary(rs', b) <==> HasPrimary(rs, b)
    {
    }
    DistinctPermuted(out, out');
  }

  lemma DistinctPermuted(out: seq<Recipient>, out': seq<Recipient>)
    requires DistinctInboxes(out) && multiset(out') == multiset(out)
    ensures DistinctInboxes(out')
  {
    forall i, j | 0 <= i < j < |out'| ensures out'[i].inbox != out'[j].inbox {
      var x, y := out'[i], out'[j];
      if x.inbox == y.inbox {
        SameElements(out', out, x);
        SameElements(out', out, y);
        assert x == y;
        TwiceMeansTwo(out', i, j);
        OnceMeansOne(out, x);
      }
    }
  }

  lemma {:induction false} OnceMeansOne(s: seq<Recipient>, x: Recipient)
    requires DistinctInboxes(s)
    ensures multiset(s)[x] <= 1
  {
    if s != [] {
      OnceMeansOne(s[1..], x);
      assert s == [s[0]] + s[1..];
      if s[0] == x {
        assert x !in s[1..];
        assert x !in multiset(s[1..]);
      }
    }
  }

  /**
    The normalized list holds exactly the input's inboxes, each once, primary
    exactly when some input for that inbox was primary, primary recipients
    first and then by inbox.
   */
  lemma Normalized(rs: seq<Recipient>)
    ensures Represents(SortRecipients(rs), rs)
    ensures StrictlySorted(SortRecipients(rs), PrimaryFirst)
  {
    KeysAreOrders();
    var sorted := StableSort(rs, InboxFirst);
    var unique := DedupByInbox(sorted);
    SortCorrect(rs, InboxFirst);
    DedupRepresents(sorted);
    SortCorrect(unique, PrimaryFirst);
    var out := SortRecipients(rs);
    RepresentsPermuted(unique, out, sorted, rs);
    forall i, j | 0 <= i < j < |out| ensures PrimaryFirst(out[i], out[j]) && !PrimaryFirst(out[j], out[i]) {
      if PrimaryFirst(out[j], out[i]) {
        StringLeAntisymmetric(out[i].inbox, out[j].inbox);
      }
    }
  }

  /** The order in terms of the fields: primary recipients first, and then by inbox in lexicographic order. */
  lemma NormalizedOrder(rs: seq<Recipient>, i: nat, j: nat)
    requires i < j < |SortRecipients(rs)|
    ensures var a, b := SortRecipients(rs)[i], SortRecipients(rs)[j];
      || (a.isPrimary && !b.isPrimary)
      || (a.isPrimary == b.isPrimary && a.inbox != b.inbox &&
          (a.inbox <= b.inbox || exists k: nat :: SmallerAt(a.inbox, b.inbox, k)))
  {
    Normalized(rs);
    var out := SortRecipients(rs);
    assert PrimaryFirst(out[i], out[j]) && !PrimaryFirst(out[j], out[i]);
    StringLeExactly(out[i].inbox, out[j].inbox);
  }

  /** Normalizing twice changes nothing. */
  lemma NormalizationIdempotent(rs: seq<Recipient>)
    ensures SortRecipients(SortRecipients(rs)) == SortRecipients(rs)
  {
    var out := SortRecipients(rs);
    var again := SortRecipients(out);
    Normalized(rs);
    Normalized(out);
    forall x ensures x in again <==> x in out {
      if x in out {
        assert HasInbox(out, x.inbox);
        var y :| y in again && y.inbox == x.inbox;
        assert y in out;
        assert y == x;
      }
    }
    StrictlySortedUnique(again, out, PrimaryFirst);
  }

  // ---------------------------------------------------------------------
  // Independence from the input order

  ghost function Keys(s: seq<Recipient>): seq<(string, bool)> {
    seq(|s|, i requires 0 <= i < |s| => (s[i].inbox, s[i].isPrimary))
  }

  predicate KeyLe(a: (string, bool), b: (string, bool)) {
    if a.1 == b.1 then StringLe(a.0, b.0) else a.1
  }

  /** The order in which recipients were collected does not influence the normalized (inbox, primary) list. */
  lemma NormalizationOrderFree(rs: seq<Recipient>, rs': seq<Recipient>)
    requires multiset(rs) == multiset(rs')
    ensures Keys(SortRecipients(rs)) == Keys(SortRecipients(rs'))
  {
    var out, out' := SortRecipients(rs), SortRecipients(rs');
    Normalized(rs);
    Normalized(rs');
    RepresentsPermuted(out, out, rs, rs');
    forall k ensures k in Keys(out) <==> k in Keys(out') {
      KeysAgree(out, out', rs', k);
      KeysAgree(out', out, rs', k);
    }
    StrictlySortedUnique(Keys(out), Keys(out'), KeyLe);
  }

  lemma KeysAgree(out: seq<Recipient>, out': seq<Recipient>, rs: seq<Recipient>, k: (string, bool))
    requires Represents(out, rs) && Represents(out', rs)
    ensures k in Keys(out) ==> k in Keys(out')
  {
    if k in Keys(out) {
      var i :| 0 <= i < |out| && Keys(out)[i] == k;
      assert out[i] in out;
      assert HasInbox(out, k.0) && HasInbox(out', k.0);
      var y :| y in out' && y.inbox == k.0;
      var j :| 0 <= j < |out'| && out'[j] == y;
      assert Keys(out')[j] == k;
    }
  }

  // ---------------------------------------------------------------------
  // Which of several recipients with one inbox is kept

  function SameKey(r: Recipient): Recipient -> bool {
    (x: Recipient) => x.inbox == r.inbox && x.isPrimary == r.isPrimary
  }

  lemma {:induction false} FilterFirst(s: seq<Recipient>, p: Recipient -> bool, i: nat)
    requires i < |s| && p(s[i])
    requires forall j :: 0 <= j < i ==> !p(s[j])
    ensures Filter(s, p) != [] && Filter(s, p)[0] == s[i]
  {
    if i > 0 {
      FilterFirst(s[1..], p, i - 1);
    }
  }

  lemma {:induction false} DedupFirst(s: seq<Recipient>, r: Recipient) returns (i: nat)
    requires Sorted(s, InboxFirst) && r in DedupByInbox(s)
    ensures i < |s| && s[i] == r
    ensures forall j :: 0 <= j < i ==> s[j].inbox != r.inbox
  {
    if |s| <= 1 {
      return 0;
    }
    var n := |s| - 1;
    if r in DedupByInbox(s[..n]) {
      SortedPrefix(s, n);
      i := DedupFirst(s[..n], r);
    } else {
      assert r == s[n] && s[n].inbox != s[n - 1].inbox;
      NewInboxAtEnd(s, n);
      return n;
    }
  }

  lemma NewInboxAtEnd(s: seq<Recipient>, n: nat)
    requires Sorted(s, InboxFirst) && 1 <= n < |s| && s[n].inbox != s[n - 1].inbox
    ensures forall j :: 0 <= j < n ==> s[j].inbox != s[n].inbox
  {
    forall j | 0 <= j < n - 1 ensures s[j].inbox != s[n].inbox {
      if s[j].inbox == s[n].inbox {
        assert InboxFirst(s[j], s[n - 1]) && InboxFirst(s[n - 1], s[n]);
        StringLeAntisymmetric(s[n].inbox, s[n - 1].inbox);
      }
    }
  }

  /** The kept recipient is the first one collected for its inbox with that primary flag. */
  lemma NormalizationKeepsFirst(rs: seq<Recipient>, r: Recipient)
    requires r in SortRecipients(rs)
    ensures Filter(rs, SameKey(r)) != [] && Filter(rs, SameKey(r))[0] == r
  {
    KeysAreOrders();
    var sorted := StableSort(rs, InboxFirst);
    SortCorrect(rs, InboxFirst);
    SortCorrect(DedupByInbox(sorted), PrimaryFirst);
    SameElements(SortRecipients(rs), DedupByInbox(sorted), r);
    var i := DedupFirst(sorted, r);
    FilterFirst(sorted, SameKey(r), i);
    SortStable(rs, InboxFirst, SameKey(r));
  }
}
