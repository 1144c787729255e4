/**
  The outgoing delivery worker: a bounded pool of concurrent requests with at
  most one request per host and one onion request overall. Completions arrive
  in any order. A run is recorded as a trace of start and finish events, and
  what a run may look like is said about that trace alone.
 */
module Deliverer {
  import opened Wrappers
  import opened Recipients

  const HTTP_410_GONE: nat := 410

  datatype SendResult = Success | HttpError(status: nat) | OtherError

  datatype Delivery = Delivery(index: nat, hostname: string)

  datatype Event = Started(index: nat) | Finished(index: nat)

  predicate IsOnion(hostname: string) {
    |hostname| >= 6 && hostname[|hostname| - 6..] == ".onion"
  }

  /** The two reasons for which the worker postpones a delivery. */
  predicate Conflict(h1: string, h2: string) {
    h1 == h2 || (IsOnion(h1) && IsOnion(h2))
  }

  // ---------------------------------------------------------------------
  // Effect of one attempt on the recipients

  function ApplyResult(r: Recipient, result: SendResult): Recipient {
    match result
    case Success => r.(isDelivered := true)
    case HttpError(status) => if status == HTTP_410_GONE then r.(isGone := true) else r
    case OtherError => r
  }

  /** Every unfinished recipient gets the result of its own request; the others are untouched. */
  function AfterAttempt(rs: seq<Recipient>, net: nat -> SendResult): seq<Recipient> {
    seq(|rs|, i requires 0 <= i < |rs| =>
      if rs[i].IsFinished() then rs[i] else ApplyResult(rs[i], net(i)))
  }

  /** What an answer means for its recipient: success delivers, 410 means gone, and nothing else changes. */
  ghost predicate Answered(r: Recipient, result: SendResult, r': Recipient) {
    && r'.id == r.id && r'.inbox == r.inbox && r'.isPrimary == r.isPrimary && r'.isUnreachable == r.isUnreachable
    && (r'.isDelivered <==> r.isDelivered || result == Success)
    && (r'.isGone <==> r.isGone || result == HttpError(410))
  }

  lemma ApplyAnswers(r: Recipient, result: SendResult)
    ensures Answered(r, result, ApplyResult(r, result))
  {
  }

  /** Recipients that were delivered to or given up stay as they are; the others have been answered. */
  ghost predicate Attempted(rs: seq<Recipient>, net: nat -> SendResult, rs': seq<Recipient>) {
    && |rs'| == |rs|
    && forall i: nat :: i < |rs| ==>
         if rs[i].isDelivered || rs[i].isUnreachable then rs'[i] == rs[i] else Answered(rs[i], net(i), rs'[i])
  }

  /** An attempt, field by field. */
  lemma AttemptAnswers(rs: seq<Recipient>, net: nat -> SendResult)
    ensures Attempted(rs, net, AfterAttempt(rs, net))
  {
    forall i: nat | i < |rs| && !(rs[i].isDelivered || rs[i].isUnreachable)
      ensures Answered(rs[i], net(i), AfterAttempt(rs, net)[i])
    {
      ApplyAnswers(rs[i], net(i));
    }
  }

  // ---------------------------------------------------------------------
  // Traces

  ghost function StartedIn(t: seq<Event>): set<nat> {
    if t == [] then {}
    else match t[|t| - 1]
      case Started(i) => StartedIn(t[..|t| - 1]) + {i}
      case Finished(_) => StartedIn(t[..|t| - 1])
  }

  ghost function InFlight(t: seq<Event>): set<nat> {
    if t == [] then {}
    else match t[|t| - 1]
      case Started(i) => InFlight(t[..|t| - 1]) + {i}
      case Finished(i) => InFlight(t[..|t| - 1]) - {i}
  }

  /** The requests that have been answered. */
  ghost function Done(t: seq<Event>): set<nat> {
    StartedIn(t) - InFlight(t)
  }

  /** Some request in the set excludes a request to `host`. */
  ghost predicate Blocked(hosts: map<nat, string>, busy: set<nat>, host: string) {
    exists j :: j in busy && j in hosts && Conflict(hosts[j], host)
  }

  /** The pool is full, or nothing that is still waiting could be started. */
  ghost predicate Saturated(pool: nat, hosts: map<nat, string>, t: seq<Event>) {
    || |InFlight(t)| == pool
    || forall k :: k in hosts && k !in StartedIn(t) ==> Blocked(hosts, InFlight(t), hosts[k])
  }

  /** Everything before `i` in the list that conflicts with it has been completed. */
  ghost predicate EarlierDone(hosts: map<nat, string>, t: seq<Event>, i: nat)
    requires i in hosts
  {
    forall m :: m in hosts && m < i && Conflict(hosts[m], hosts[i]) ==> m in Done(t)
  }

  ghost predicate LegalEvent(pool: nat, hosts: map<nat, string>, t: seq<Event>, e: Event) {
    match e
    case Started(i) =>
      && i in hosts
      && i !in StartedIn(t)
      && |InFlight(t)| < pool
      && !Blocked(hosts, InFlight(t), hosts[i])
      && EarlierDone(hosts, t, i)
    case Finished(i) =>
      && i in InFlight(t)
      && Saturated(pool, hosts, t)
  }

  /** A trace the scheduler may produce for the deliveries `hosts` (list index to host name). */
  ghost predicate Legal(pool: nat, hosts: map<nat, string>, t: seq<Event>) {
    t == [] || (Legal(pool, hosts, t[..|t| - 1]) && LegalEvent(pool, hosts, t[..|t| - 1], t[|t| - 1]))
  }

  ghost predicate Complete(hosts: map<nat, string>, t: seq<Event>) {
    StartedIn(t) == hosts.Keys && InFlight(t) == {}
  }

  // ---------------------------------------------------------------------
  // What legality means

  lemma {:induction false} LegalPrefix(pool: nat, hosts: map<nat, string>, t: seq<Event>, k: nat)
    requires Legal(pool, hosts, t) && k <= |t|
    ensures Legal(pool, hosts, t[..k])
  {
    if k == |t| {
      assert t[..k] == t;
    } else {
      LegalPrefix(pool, hosts, t[..|t| - 1], k);
      assert t[..|t| - 1][..k] == t[..k];
    }
  }

  lemma {:induction false} PoolBounds(pool: nat, hosts: map<nat, string>, t: seq<Event>)
    requires Legal(pool, hosts, t)
    ensures InFlight(t) <= StartedIn(t) <= hosts.Keys
    ensures |InFlight(t)| <= pool
  {
    if t != [] {
      PoolBounds(pool, hosts, t[..|t| - 1]);
    }
  }

  /** Pool safety: holds in every state that a run goes through (every prefix of a legal trace). */
  lemma {:induction false} PoolSafety(pool: nat, hosts: map<nat, string>, t: seq<Event>)
    requires Legal(pool, hosts, t)
    ensures InFlight(t) <= StartedIn(t) <= hosts.Keys
    ensures |InFlight(t)| <= pool
    ensures forall i, j :: i in InFlight(t) && j in InFlight(t) && i != j ==> !Conflict(hosts[i], hosts[j])
  {
    if t != [] {
      PoolBounds(pool, hosts, t);
      PoolSafety(pool, hosts, t[..|t| - 1]);
    }
  }

  lemma {:induction false} StartedMeansEvent(t: seq<Event>, i: nat)
    ensures i in StartedIn(t) <==> Started(i) in t
  {
    if t != [] {
      StartedMeansEvent(t[..|t| - 1], i);
      assert t == t[..|t| - 1] + [t[|t| - 1]];
    }
  }

  /** In a legal trace every delivery is started and finished at most once, and finished only after its start. */
  lemma {:induction false} CountEvents(pool: nat, hosts: map<nat, string>, t: seq<Event>, i: nat)
    requires Legal(pool, hosts, t)
    ensures multiset(t)[Started(i)] == if i in StartedIn(t) then 1 else 0
    ensures multiset(t)[Finished(i)] == if i in Done(t) then 1 else 0
  {
    if t != [] {
      var p := t[..|t| - 1];
      CountEvents(pool, hosts, p, i);
      PoolBounds(pool, hosts, p);
      assert t == p + [t[|t| - 1]];
    }
  }

  /** A completed run sends every delivery exactly once and nothing else. */
  lemma ExactlyOnce(pool: nat, hosts: map<nat, string>, t: seq<Event>, i: nat)
    requires Legal(pool, hosts, t) && Complete(hosts, t)
    ensures multiset(t)[Started(i)] == (if i in hosts then 1 else 0)
    ensures multiset(t)[Finished(i)] == (if i in hosts then 1 else 0)
  {
    CountEvents(pool, hosts, t, i);
  }

  lemma {:induction false} EventCount(pool: nat, hosts: map<nat, string>, t: seq<Event>)
    requires Legal(pool, hosts, t)
    ensures |t| == 2 * |StartedIn(t)| - |InFlight(t)|
  {
    if t != [] {
      EventCount(pool, hosts, t[..|t| - 1]);
      PoolBounds(pool, hosts, t[..|t| - 1]);
    }
  }

  /** Postponement partitions the deliveries: conflicting with each other is an equivalence. */
  lemma ConflictIsEquivalence(a: string, b: string, c: string)
    ensures Conflict(a, a)
    ensures Conflict(a, b) ==> Conflict(b, a)
    ensures Conflict(a, b) && Conflict(b, c) ==> Conflict(a, c)
  {
  }

  /**
    Ordering over a whole run: of two deliveries to one host (or two onion
    deliveries), the earlier one in the list has been completed before the
    later one is started.
   */
  lemma SequentialPerHost(pool: nat, hosts: map<nat, string>, t: seq<Event>, i: nat, j: nat, p: nat)
    requires Legal(pool, hosts, t)
    requires i in hosts && j in hosts && i < j && Conflict(hosts[i], hosts[j])
    requires p < |t| && t[p] == Started(j)
    ensures Started(i) in t[..p] && Finished(i) in t[..p]
  {
    LegalPrefix(pool, hosts, t, p + 1);
    assert t[..p + 1][..p] == t[..p];
    StartedMeansEvent(t[..p], i);
    CountEvents(pool, hosts, t[..p], i);
    assert multiset(t[..p])[Finished(i)] == 1;
  }

  /** The name ends in the suffix. */
  ghost predicate EndsIn(hostname: string, suffix: string) {
    exists p :: hostname == p + suffix
  }

  lemma OnionSuffix(hostname: string)
    ensures IsOnion(hostname) <==> EndsIn(hostname, ".onion")
  {
    if IsOnion(hostname) {
      assert hostname == hostname[..|hostname| - 6] + ".onion";
    }
  }

  /** The two rules of the pool, in terms of the host names alone. */
  lemma OnePerHostOneOnion(pool: nat, hosts: map<nat, string>, t: seq<Event>, i: nat, j: nat)
    requires Legal(pool, hosts, t) && i in InFlight(t) && j in InFlight(t) && i != j
    ensures i in hosts && j in hosts && hosts[i] != hosts[j]
    ensures !(EndsIn(hosts[i], ".onion") && EndsIn(hosts[j], ".onion"))
  {
    PoolSafety(pool, hosts, t);
    OnionSuffix(hosts[i]);
    OnionSuffix(hosts[j]);
  }

  /** Whenever an answer is awaited, the pool is full or every waiting delivery is excluded by one of the two rules. */
  lemma GreedyWhenAwaiting(pool: nat, hosts: map<nat, string>, t: seq<Event>, p: nat, k: nat) returns (j: nat)
    requires Legal(pool, hosts, t) && p < |t| && t[p].Finished?
    requires |InFlight(t[..p])| != pool && k in hosts && k !in StartedIn(t[..p])
    ensures j in InFlight(t[..p]) && j in hosts
    ensures hosts[j] == hosts[k] || (EndsIn(hosts[j], ".onion") && EndsIn(hosts[k], ".onion"))
  {
    LegalPrefix(pool, hosts, t, p + 1);
    assert t[..p + 1][..p] == t[..p];
    j :| j in InFlight(t[..p]) && j in hosts && Conflict(hosts[j], hosts[k]);
    OnionSuffix(hosts[j]);
    OnionSuffix(hosts[k]);
  }

  /** With an empty pool and work left, a saturated state is impossible: something was started. */
  lemma EmptyPoolStartsWork(pool: nat, hosts: map<nat, string>, t: seq<Event>)
    requires pool >= 1 && Saturated(pool, hosts, t) && InFlight(t) == {}
    ensures hosts.Keys <= StartedIn(t)
  {
    assert forall k :: k in hosts ==> !Blocked(hosts, {}, hosts[k]);
  }

  /**
    With a pool of size 0 the worker makes no progress: the only legal trace is
    the empty one, so a run with unfinished deliveries is never complete.
   */
  lemma {:induction false} ZeroPoolIsStuck(hosts: map<nat, string>, t: seq<Event>)
    requires Legal(0, hosts, t)
    ensures t == []
    ensures hosts != map[] ==> !Complete(hosts, t)
  {
    if t != [] {
      ZeroPoolIsStuck(hosts, t[..|t| - 1]);
    }
    assert hosts != map[] ==> hosts.Keys != {};
  }

  lemma Extend(pool: nat, hosts: map<nat, string>, t: seq<Event>, e: Event)
    requires Legal(pool, hosts, t) && LegalEvent(pool, hosts, t, e)
    ensures Legal(pool, hosts, t + [e])
    ensures StartedIn(t + [e]) == if e.Started? then StartedIn(t) + {e.index} else StartedIn(t)
    ensures InFlight(t + [e]) == if e.Started? then InFlight(t) + {e.index} else InFlight(t) - {e.index}
  {
    assert (t + [e])[..|t + [e]| - 1] == t;
  }

  // ---------------------------------------------------------------------
  // The worker

  /** The hosts of the recipients that still need a request, by list index. */
  ghost function Pending(rs: seq<Recipient>, hostnameOf: string -> Option<string>): map<nat, string> {
    map i: nat | i < |rs| && !rs[i].IsFinished() && hostnameOf(rs[i].inbox).Some? :: hostnameOf(rs[i].inbox).value
  }

  ghost predicate AllHostsKnown(rs: seq<Recipient>, hostnameOf: string -> Option<string>) {
    forall i :: 0 <= i < |rs| && !rs[i].IsFinished() ==> hostnameOf(rs[i].inbox).Some?
  }

  /** A completed run for a list of recipients contacts exactly those neither delivered to nor given up, once each. */
  lemma ContactedOnce(rs: seq<Recipient>, hostnameOf: string -> Option<string>, pool: nat, t: seq<Event>, i: nat)
    requires AllHostsKnown(rs, hostnameOf) && i < |rs|
    requires Legal(pool, Pending(rs, hostnameOf), t) && Complete(Pending(rs, hostnameOf), t)
    ensures multiset(t)[Started(i)] == if rs[i].isDelivered || rs[i].isUnreachable then 0 else 1
  {
    ExactlyOnce(pool, Pending(rs, hostnameOf), t, i);
  }

  /** The delivery list holds the pending recipients once each, in list order. */
  ghost predicate Lists(deliveries: seq<Delivery>, hosts: map<nat, string>) {
    && (forall k :: 0 <= k < |deliveries| ==>
          deliveries[k].index in hosts && hosts[deliveries[k].index] == deliveries[k].hostname)
    && (forall k, l :: 0 <= k < l < |deliveries| ==> deliveries[k].index < deliveries[l].index)
    && (forall i :: i in hosts ==> exists k :: 0 <= k < |deliveries| && deliveries[k].index == i)
  }

  method CollectDeliveries(recipients: array<Recipient>, hostnameOf: string -> Option<string>)
    returns (deliveries: Option<seq<Delivery>>)
    ensures deliveries.Some? <==> AllHostsKnown(recipients[..], hostnameOf)
    ensures deliveries.Some? ==> Lists(deliveries.value, Pending(recipients[..], hostnameOf))
  {
    var list: seq<Delivery> := [];
    ghost var hosts := Pending(recipients[..], hostnameOf);
    for index := 0 to recipients.Length
      invariant forall i :: 0 <= i < index && !recipients[i].IsFinished() ==> hostnameOf(recipients[i].inbox).Some?
      invariant forall k :: 0 <= k < |list| ==>
        list[k].index < index && list[k].index in hosts && hosts[list[k].index] == list[k].hostname
      invariant forall k, l :: 0 <= k < l < |list| ==> list[k].index < list[l].index
      invariant forall i: nat :: i < index && i in hosts ==> exists k :: 0 <= k < |list| && list[k].index == i
    {
      if recipients[index].IsFinished() {
        continue;
      }
      var hostname := hostnameOf(recipients[index].inbox);
      if hostname.None? {
        return None;
      }
      ghost var before := list;
      list := list + [Delivery(index, hostname.value)];
      assert list[|before|].index == index;
      assert forall k :: 0 <= k < |before| ==> list[k] == before[k];
    }
    return Some(list);
  }

  /** How the worker's own variables relate to the trace so far. */
  ghost predicate Tracked(poolSize: nat, hosts: map<nat, string>, t: seq<Event>,
                          sent: set<nat>, pool: set<nat>, poolState: map<nat, string>)
  {
    && Legal(poolSize, hosts, t)
    && sent == StartedIn(t)
    && pool == poolState.Keys == InFlight(t)
    && (forall i :: i in poolState ==> i in hosts && poolState[i] == hosts[i])
  }

  predicate HostBusy(poolState: map<nat, string>, hostname: string) {
    exists i :: i in poolState && poolState[i] == hostname
  }

  predicate OnionBusy(poolState: map<nat, string>) {
    exists i :: i in poolState && IsOnion(poolState[i])
  }

  /** The first `k` list entries have been started or cannot be started now. */
  ghost predicate Scanned(deliveries: seq<Delivery>, hosts: map<nat, string>, t: seq<Event>, k: nat) {
    forall l :: 0 <= l < k && l < |deliveries| ==>
      deliveries[l].index in StartedIn(t) || Blocked(hosts, InFlight(t), deliveries[l].hostname)
  }

  /** Starts the list entry at hand unless it was started before or conflicts with a request in the pool. */
  method Consider(poolSize: nat, deliveries: seq<Delivery>, k: nat, sent0: set<nat>, pool0: set<nat>,
                  poolState0: map<nat, string>, ghost hosts: map<nat, string>, ghost t0: seq<Event>)
    returns (sent: set<nat>, pool: set<nat>, poolState: map<nat, string>, ghost t: seq<Event>)
    requires Lists(deliveries, hosts) && k < |deliveries| && Scanned(deliveries, hosts, t0, k)
    requires Tracked(poolSize, hosts, t0, sent0, pool0, poolState0) && |poolState0| != poolSize
    ensures Tracked(poolSize, hosts, t, sent, pool, poolState)
    ensures Done(t) == Done(t0)
    ensures Scanned(deliveries, hosts, t, k + 1)
  {
    sent, pool, poolState, t := sent0, pool0, poolState0, t0;
    var Delivery(index, hostname) := deliveries[k];
    if index in sent {
      return;
    }
    if HostBusy(poolState, hostname) || (IsOnion(hostname) && OnionBusy(poolState)) {
      BlockedByState(hosts, t, poolState, hostname);
      return;
    }
    StartEntry(poolSize, deliveries, hosts, t, k, sent, pool, poolState);
    pool := pool + {index};
    poolState := poolState[index := hostname];
    sent := sent + {index};
    t := t + [Started(index)];
  }

  method FillPass(poolSize: nat, deliveries: seq<Delivery>, sent0: set<nat>, pool0: set<nat>,
                  poolState0: map<nat, string>, ghost hosts: map<nat, string>, ghost t0: seq<Event>)
    returns (sent: set<nat>, pool: set<nat>, poolState: map<nat, string>, ghost t: seq<Event>)
    requires Lists(deliveries, hosts)
    requires Tracked(poolSize, hosts, t0, sent0, pool0, poolState0)
    ensures Tracked(poolSize, hosts, t, sent, pool, poolState)
    ensures Saturated(poolSize, hosts, t)
    ensures Done(t) == Done(t0)
  {
    sent, pool, poolState, t := sent0, pool0, poolState0, t0;
    var k := 0;
    while k < |deliveries|
      invariant k <= |deliveries|
      invariant Tracked(poolSize, hosts, t, sent, pool, poolState)
      invariant Done(t) == Done(t0)
      invariant Scanned(deliveries, hosts, t, k)
    {
      if |poolState| == poolSize {
        assert poolState.Keys == InFlight(t);
        return;
      }
      sent, pool, poolState, t := Consider(poolSize, deliveries, k, sent, pool, poolState, hosts, t);
      k := k + 1;
    }
    ScannedAll(poolSize, deliveries, hosts, t);
  }

  lemma ScannedAll(poolSize: nat, deliveries: seq<Delivery>, hosts: map<nat, string>, t: seq<Event>)
    requires Lists(deliveries, hosts) && Scanned(deliveries, hosts, t, |deliveries|)
    ensures Saturated(poolSize, hosts, t)
  {
  }

  /** Starting the next list entry keeps the bookkeeping. */
  lemma StartStep(poolSize: nat, hosts: map<nat, string>, t: seq<Event>, index: nat, hostname: string,
                  sent: set<nat>, pool: set<nat>, poolState: map<nat, string>)
    requires Tracked(poolSize, hosts, t, sent, pool, poolState)
    requires LegalEvent(poolSize, hosts, t, Started(index)) && hosts[index] == hostname
    ensures Tracked(poolSize, hosts, t + [Started(index)],
                    sent + {index}, pool + {index}, poolState[index := hostname])
    ensures StartedIn(t + [Started(index)]) == StartedIn(t) + {index}
    ensures InFlight(t + [Started(index)]) == InFlight(t) + {index}
  {
    Extend(poolSize, hosts, t, Started(index));
    assert poolState[index := hostname].Keys == pool + {index};
  }

  lemma ScannedStep(deliveries: seq<Delivery>, hosts: map<nat, string>, t: seq<Event>, t': seq<Event>, k: nat)
    requires Scanned(deliveries, hosts, t, k) && k < |deliveries|
    requires StartedIn(t') == StartedIn(t) + {deliveries[k].index}
    requires InFlight(t') == InFlight(t) + {deliveries[k].index}
    ensures Scanned(deliveries, hosts, t', k + 1)
  {
    forall l | 0 <= l < k && deliveries[l].index !in StartedIn(t)
      ensures Blocked(hosts, InFlight(t'), deliveries[l].hostname)
    {
      BlockedMonotone(hosts, InFlight(t), InFlight(t'), deliveries[l].hostname);
    }
  }

  lemma BlockedByState(hosts: map<nat, string>, t: seq<Event>, poolState: map<nat, string>, hostname: string)
    requires poolState.Keys == InFlight(t)
    requires forall i :: i in poolState ==> i in hosts && poolState[i] == hosts[i]
    requires HostBusy(poolState, hostname) || (IsOnion(hostname) && OnionBusy(poolState))
    ensures Blocked(hosts, InFlight(t), hostname)
  {
    var i :| i in poolState && Conflict(poolState[i], hostname);
    assert i in InFlight(t);
  }

  /** Starting the list entry at hand keeps the bookkeeping, the scan and the set of completed requests. */
  lemma StartEntry(poolSize: nat, deliveries: seq<Delivery>, hosts: map<nat, string>, t: seq<Event>, k: nat,
                   sent: set<nat>, pool: set<nat>, poolState: map<nat, string>)
    requires Lists(deliveries, hosts) && k < |deliveries| && Scanned(deliveries, hosts, t, k)
    requires Tracked(poolSize, hosts, t, sent, pool, poolState)
    requires |poolState| != poolSize && deliveries[k].index !in sent
    requires !HostBusy(poolState, deliveries[k].hostname)
    requires !(IsOnion(deliveries[k].hostname) && OnionBusy(poolState))
    ensures var Delivery(index, hostname) := deliveries[k];
      var t' := t + [Started(index)];
      && Tracked(poolSize, hosts, t', sent + {index}, pool + {index}, poolState[index := hostname])
      && Done(t') == Done(t)
      && Scanned(deliveries, hosts, t', k + 1)
  {
    var Delivery(index, hostname) := deliveries[k];
    assert poolState.Keys == InFlight(t);
    StartIsLegal(poolSize, hosts, deliveries, t, k);
    StartStep(poolSize, hosts, t, index, hostname, sent, pool, poolState);
    ScannedStep(deliveries, hosts, t, t + [Started(index)], k);
    PoolBounds(poolSize, hosts, t);
  }

  lemma BlockedMonotone(hosts: map<nat, string>, a: set<nat>, b: set<nat>, host: string)
    requires Blocked(hosts, a, host) && a <= b
    ensures Blocked(hosts, b, host)
  {
  }

  /** The scan goes through the list in order, so what it starts has no unfinished conflicting predecessor. */
  lemma StartIsLegal(poolSize: nat, hosts: map<nat, string>, deliveries: seq<Delivery>, t: seq<Event>, k: nat)
    requires Lists(deliveries, hosts) && Legal(poolSize, hosts, t) && k < |deliveries|
    requires |InFlight(t)| != poolSize
    requires deliveries[k].index !in StartedIn(t)
    requires !Blocked(hosts, InFlight(t), deliveries[k].hostname)
    requires Scanned(deliveries, hosts, t, k)
    ensures LegalEvent(poolSize, hosts, t, Started(deliveries[k].index))
  {
    PoolBounds(poolSize, hosts, t);
    var i := deliveries[k].index;
    forall m | m in hosts && m < i && Conflict(hosts[m], hosts[i]) ensures m in Done(t) {
      EarlierIsDone(hosts, deliveries, t, k, m);
    }
  }

  /** An earlier entry of the same lane has been started, since nothing blocks it, and is not in flight. */
  lemma EarlierIsDone(hosts: map<nat, string>, deliveries: seq<Delivery>, t: seq<Event>, k: nat, m: nat)
    requires Lists(deliveries, hosts) && k < |deliveries| && Scanned(deliveries, hosts, t, k)
    requires !Blocked(hosts, InFlight(t), deliveries[k].hostname)
    requires m in hosts && m < deliveries[k].index && Conflict(hosts[m], deliveries[k].hostname)
    ensures m in Done(t)
  {
    var host := deliveries[k].hostname;
    var l := PlaceInList(hosts, deliveries, k, m);
    if Blocked(hosts, InFlight(t), hosts[m]) {
      BlockedInLane(hosts, InFlight(t), hosts[m], host);
    }
    assert m in StartedIn(t);
  }

  lemma PlaceInList(hosts: map<nat, string>, deliveries: seq<Delivery>, k: nat, m: nat) returns (l: nat)
    requires Lists(deliveries, hosts) && k < |deliveries| && m in hosts && m < deliveries[k].index
    ensures l < k && deliveries[l].index == m && deliveries[l].hostname == hosts[m]
  {
    l :| 0 <= l < |deliveries| && deliveries[l].index == m;
    assert l != k && !(k < l);
  }

  /** What blocks one host blocks every host of the same lane. */
  lemma BlockedInLane(hosts: map<nat, string>, busy: set<nat>, host: string, other: string)
    requires Blocked(hosts, busy, host) && Conflict(host, other)
    ensures Blocked(hosts, busy, other)
  {
    var j :| j in busy && j in hosts && Conflict(hosts[j], host);
    ConflictIsEquivalence(hosts[j], host, other);
  }

  lemma FinishStep(poolSize: nat, hosts: map<nat, string>, t: seq<Event>, index: nat,
                   sent: set<nat>, pool: set<nat>, poolState: map<nat, string>)
    requires Tracked(poolSize, hosts, t, sent, pool, poolState)
    requires index in pool && Saturated(poolSize, hosts, t)
    ensures var t' := t + [Finished(index)];
      && Tracked(poolSize, hosts, t', sent, pool - {index}, poolState - {index})
      && Done(t') == Done(t) + {index}
  {
    PoolBounds(poolSize, hosts, t);
    Extend(poolSize, hosts, t, Finished(index));
  }

  /** The recipients after the requests in `done` have been answered. */
  ghost function Progress(rs: seq<Recipient>, net: nat -> SendResult, done: set<nat>): seq<Recipient> {
    seq(|rs|, i requires 0 <= i < |rs| => if i in done then ApplyResult(rs[i], net(i)) else rs[i])
  }

  function Max(a: nat, b: nat): nat {
    if a < b then b else a
  }

  lemma ProgressStep(rs: seq<Recipient>, net: nat -> SendResult, done: set<nat>, index: nat)
    requires index < |rs| && index !in done
    ensures Progress(rs, net, done)[index] == rs[index]
    ensures Progress(rs, net, done)[index := ApplyResult(rs[index], net(index))] == Progress(rs, net, done + {index})
  {
  }

  lemma CompleteProgress(rs: seq<Recipient>, hostnameOf: string -> Option<string>, net: nat -> SendResult)
    requires AllHostsKnown(rs, hostnameOf)
    ensures Progress(rs, net, Pending(rs, hostnameOf).Keys) == AfterAttempt(rs, net)
  {
  }

  /** The loop's exit test is exactly completion of the schedule. */
  lemma ExitTest(poolSize: nat, deliveries: seq<Delivery>, hosts: map<nat, string>, t: seq<Event>,
                 sent: set<nat>, pool: set<nat>, poolState: map<nat, string>)
    requires Lists(deliveries, hosts) && Tracked(poolSize, hosts, t, sent, pool, poolState)
    ensures (poolState == map[] && forall d :: d in deliveries ==> d.index in sent) <==> Complete(hosts, t)
    ensures Complete(hosts, t) <==> Done(t) == hosts.Keys
  {
    PoolBounds(poolSize, hosts, t);
    assert poolState == map[] <==> poolState.Keys == {};
    if forall d :: d in deliveries ==> d.index in sent {
      forall i | i in hosts ensures i in StartedIn(t) {
        var k :| 0 <= k < |deliveries| && deliveries[k].index == i;
        assert deliveries[k] in deliveries;
      }
    }
  }

  lemma IdlePoolMeansComplete(poolSize: nat, hosts: map<nat, string>, t: seq<Event>)
    requires Legal(poolSize, hosts, t) && Saturated(poolSize, hosts, t) && InFlight(t) == {}
    requires poolSize == 0 ==> hosts == map[]
    ensures Complete(hosts, t)
  {
    PoolBounds(poolSize, hosts, t);
    if poolSize >= 1 {
      EmptyPoolStartsWork(poolSize, hosts, t);
    }
  }

  /** One request is answered per round, and a run with nothing to send still takes one round. */
  ghost predicate Rounds(hosts: map<nat, string>, done: set<nat>, rounds: nat) {
    rounds == |done| || (rounds == 1 && done == {} && hosts == map[])
  }

  lemma RoundsStep(hosts: map<nat, string>, done: set<nat>, rounds: nat, index: nat)
    requires Rounds(hosts, done, rounds) && index in hosts && index !in done
    ensures Rounds(hosts, done + {index}, rounds + 1) && done + {index} != {}
  {
    assert |done + {index}| == |done| + 1;
  }

  /** Handles the answer to one request; which one is answered next is not under the worker's control. */
  method AwaitOne(index: nat, net: nat -> SendResult, recipients: array<Recipient>, sent: set<nat>,
                  pool0: set<nat>, poolState0: map<nat, string>,
                  ghost poolSize: nat, ghost hosts: map<nat, string>, ghost t0: seq<Event>)
    returns (pool: set<nat>, poolState: map<nat, string>, ghost t: seq<Event>)
    requires Tracked(poolSize, hosts, t0, sent, pool0, poolState0) && Saturated(poolSize, hosts, t0)
    requires index in pool0
    requires forall i :: i in hosts ==> i < recipients.Length
    modifies recipients
    ensures index < recipients.Length
    ensures recipients[..] == old(recipients[..])[index := ApplyResult(old(recipients[index]), net(index))]
    ensures Answered(old(recipients[index]), net(index), recipients[index])
    ensures Tracked(poolSize, hosts, t, sent, pool, poolState)
    ensures index in hosts && index !in Done(t0) && Done(t) == Done(t0) + {index}
  {
    // The two expectations of the source: the finished future is tracked and its index is in bounds.
    assert index in poolState0;
    assert index < recipients.Length;
    FinishStep(poolSize, hosts, t0, index, sent, pool0, poolState0);
    t := t0 + [Finished(index)];
    pool := pool0 - {index};
    poolState := poolState0 - {index};
    ApplyAnswers(recipients[index], net(index));
    recipients[index] := ApplyResult(recipients[index], net(index));
  }

  /** One iteration of the pool loop: fill the pool, await one answer if there is any, test for exit. */
  method Round(poolSize: nat, deliveries: seq<Delivery>, net: nat -> SendResult, recipients: array<Recipient>,
               sent0: set<nat>, pool0: set<nat>, poolState0: map<nat, string>,
               ghost hosts: map<nat, string>, ghost t0: seq<Event>)
    returns (finished: Option<nat>, exit: bool, sent: set<nat>, pool: set<nat>, poolState: map<nat, string>,
             ghost t: seq<Event>)
    requires Lists(deliveries, hosts)
    requires forall i :: i in hosts ==> i < recipients.Length
    requires poolSize == 0 ==> hosts == map[]
    requires Tracked(poolSize, hosts, t0, sent0, pool0, poolState0)
    modifies recipients
    ensures Tracked(poolSize, hosts, t, sent, pool, poolState)
    ensures finished.None? ==> exit && Done(t) == Done(t0) && recipients[..] == old(recipients[..])
    ensures finished.Some? ==>
      && finished.value in hosts && finished.value !in Done(t0) && Done(t) == Done(t0) + {finished.value}
      && finished.value < recipients.Length
      && recipients[..] == old(recipients[..])[finished.value :=
                             ApplyResult(old(recipients[..])[finished.value], net(finished.value))]
    ensures exit <==> Complete(hosts, t)
    ensures exit <==> Done(t) == hosts.Keys
  {
    sent, pool, poolState, t := FillPass(poolSize, deliveries, sent0, pool0, poolState0, hosts, t0);
    if pool != {} {
      var index :| index in pool;
      pool, poolState, t := AwaitOne(index, net, recipients, sent, pool, poolState, poolSize, hosts, t);
      finished := Some(index);
    } else {
      finished := None;
      IdlePoolMeansComplete(poolSize, hosts, t);
    }
    exit := NothingLeft(deliveries, sent, pool, poolState, poolSize, hosts, t);
  }

  /** The exit test; the pool is empty when it succeeds. */
  method NothingLeft(deliveries: seq<Delivery>, sent: set<nat>, pool: set<nat>, poolState: map<nat, string>,
                     ghost poolSize: nat, ghost hosts: map<nat, string>, ghost t: seq<Event>)
    returns (exit: bool)
    requires Lists(deliveries, hosts) && Tracked(poolSize, hosts, t, sent, pool, poolState)
    ensures exit <==> Complete(hosts, t)
    ensures exit <==> Done(t) == hosts.Keys
    ensures exit ==> pool == {}
  {
    ExitTest(poolSize, deliveries, hosts, t, sent, pool, poolState);
    return poolState == map[] && forall d :: d in deliveries ==> d.index in sent;
  }

  /** The pool loop: terminates for every completion order; `rounds` counts its iterations. */
  method RunPool(poolSize: nat, deliveries: seq<Delivery>, net: nat -> SendResult, recipients: array<Recipient>,
                 ghost hosts: map<nat, string>)
    returns (ghost t: seq<Event>, ghost rounds: nat)
    requires Lists(deliveries, hosts)
    requires forall i :: i in hosts ==> i < recipients.Length
    requires poolSize == 0 ==> hosts == map[]
    modifies recipients
    ensures recipients[..] == Progress(old(recipients[..]), net, hosts.Keys)
    ensures Legal(poolSize, hosts, t) && Complete(hosts, t)
    ensures Rounds(hosts, hosts.Keys, rounds) && rounds >= 1
  {
    var sent: set<nat> := {};
    var pool: set<nat> := {};
    var poolState: map<nat, string> := map[];
    ghost var rs := recipients[..];
    ghost var done: set<nat> := {};
    t, rounds := [], 0;
    while true
      invariant Tracked(poolSize, hosts, t, sent, pool, poolState)
      invariant done == Done(t)
      invariant Rounds(hosts, done, rounds) && (rounds == 0 || done != hosts.Keys)
      invariant recipients[..] == Progress(rs, net, done)
      decreases hosts.Keys - done
    {
      var finished: Option<nat>, exit: bool;
      finished, exit, sent, pool, poolState, t :=
        Round(poolSize, deliveries, net, recipients, sent, pool, poolState, hosts, t);
      if finished.Some? {
        RoundsStep(hosts, done, rounds, finished.value);
        ProgressStep(rs, net, done, finished.value);
        done := done + {finished.value};
      }
      rounds := rounds + 1;
      if exit {
        return;
      }
    }
  }

  /** The worker: one delivery attempt for every unfinished recipient. */
  method DeliverActivityWorker(poolSize: nat, hostnameOf: string -> Option<string>, net: nat -> SendResult,
                               recipients: array<Recipient>)
    returns (ok: bool, ghost t: seq<Event>, ghost rounds: nat)
    requires poolSize == 0 ==> Pending(recipients[..], hostnameOf) == map[]
    modifies recipients
    ensures ok <==> AllHostsKnown(old(recipients[..]), hostnameOf)
    ensures !ok ==> recipients[..] == old(recipients[..]) && t == []
    ensures ok ==> recipients[..] == AfterAttempt(old(recipients[..]), net)
    ensures ok ==> Attempted(old(recipients[..]), net, recipients[..])
    ensures ok ==>
      var hosts := Pending(old(recipients[..]), hostnameOf);
      && Legal(poolSize, hosts, t)
      && Complete(hosts, t)
      && rounds == Max(|hosts|, 1)
  {
    var collected := CollectDeliveries(recipients, hostnameOf);
    if collected.None? {
      return false, [], 0;
    }
    ghost var hosts := Pending(recipients[..], hostnameOf);
    CompleteProgress(recipients[..], hostnameOf, net);
    AttemptAnswers(recipients[..], net);
    t, rounds := RunPool(poolSize, collected.value, net, recipients, hosts);
    ok := true;
  }
}
