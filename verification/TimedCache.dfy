/**
  A cache with expiry and a size limit. Its meaning is given by the history of
  calls: what was last set for a key, and at which eviction a key was lost.
 */
module TimedCache {
  import opened Wrappers
  import opened Sorting

  /** Clock readings are in nanoseconds; the time to live is in whole seconds. */
  const NANOS: nat := 1_000_000_000

  datatype Event = Set(key: string, val: string, time: nat) | Evict(now: nat)

  function ElapsedSeconds(since: nat, now: nat): nat {
    if now < since then 0 else (now - since) / NANOS
  }

  predicate IsLive(ttl: nat, since: nat, now: nat) {
    ElapsedSeconds(since, now) < ttl
  }

  /** An entry lives as long as less than `ttl` whole seconds have passed. */
  lemma LiveExactly(ttl: nat, since: nat, now: nat)
    ensures IsLive(ttl, since, now) <==> ttl > 0 && now - since < ttl * 1_000_000_000
  {
    if now >= since {
      WholeSeconds(now - since, ttl);
    }
  }

  lemma WholeSeconds(nanos: nat, ttl: nat)
    ensures nanos / 1_000_000_000 < ttl <==> nanos < ttl * 1_000_000_000
  {
  }

  // ---------------------------------------------------------------------
  // Histories

  /** Time and value of the last `set` for the key. */
  ghost function LastSet(h: seq<Event>, key: string): Option<(nat, string)> {
    if h == [] then None
    else match h[|h| - 1]
      case Set(k, v, t) => if k == key then Some((t, v)) else LastSet(h[..|h| - 1], key)
      case Evict(_) => LastSet(h[..|h| - 1], key)
  }

  function Clock(e: Event): nat {
    match e
    case Set(_, _, t) => t
    case Evict(now) => now
  }

  /** `size` other keys had been set no earlier than this one. */
  ghost predicate Crowded(h: seq<Event>, size: nat, key: string) {
    && LastSet(h, key).Some?
    && exists others: set<string> ::
         && |others| == size && key !in others
         && forall o :: o in others ==>
              LastSet(h, o).Some? && LastSet(h, o).value.0 >= LastSet(h, key).value.0
  }

  /** An eviction at `now`, after the history `h`, removes the key. */
  ghost predicate Removes(h: seq<Event>, now: nat, ttl: nat, size: nat, key: string) {
    LastSet(h, key).Some? && (!IsLive(ttl, LastSet(h, key).value.0, now) || Crowded(h, size, key))
  }

  /** Since it was last set, the key has expired or been crowded out at some eviction. */
  ghost predicate Lost(h: seq<Event>, ttl: nat, size: nat, key: string) {
    h != [] &&
    var before, last := h[..|h| - 1], h[|h| - 1];
    if last.Set? then last.key != key && Lost(before, ttl, size, key)
    else Lost(before, ttl, size, key) || Removes(before, last.now, ttl, size, key)
  }

  /** Position `p` is an eviction after the key's last `set` at which it was crowded out. */
  ghost predicate CrowdedOutAt(h: seq<Event>, size: nat, key: string, p: nat) {
    && p < |h| && h[p].Evict?
    && LastSet(h[..p], key) == LastSet(h, key)
    && (forall q :: p <= q < |h| ==> !(h[q].Set? && h[q].key == key))
    && Crowded(h[..p], size, key)
  }

  /** A key that has not expired can only have been lost by being crowded out. */
  lemma {:induction false} LostWhileLive(h: seq<Event>, ttl: nat, size: nat, key: string, now: nat) returns (p: nat)
    requires Lost(h, ttl, size, key) && LastSet(h, key).Some?
    requires forall i :: 0 <= i < |h| ==> Clock(h[i]) <= now
    requires IsLive(ttl, LastSet(h, key).value.0, now)
    ensures CrowdedOutAt(h, size, key, p)
  {
    var n := |h| - 1;
    var before := h[..n];
    if Lost(before, ttl, size, key) {
      p := LostWhileLive(before, ttl, size, key, now);
      assert before[..p] == h[..p];
    } else {
      p := n;
    }
  }

  lemma {:induction false} LastSetSeen(h: seq<Event>, key: string, now: nat)
    requires LastSet(h, key).Some? && forall i :: 0 <= i < |h| ==> Clock(h[i]) <= now
    ensures LastSet(h, key).value.0 <= now
  {
    var n := |h| - 1;
    if !(h[n].Set? && h[n].key == key) {
      LastSetSeen(h[..n], key, now);
    }
  }

  lemma LastSetAppend(h: seq<Event>, e: Event, key: string)
    ensures LastSet(h + [e], key) == if e.Set? && e.key == key then Some((e.time, e.val)) else LastSet(h, key)
  {
    assert (h + [e])[..|h + [e]| - 1] == h;
  }

  lemma LostAppend(h: seq<Event>, e: Event, ttl: nat, size: nat, key: string)
    ensures e.Set? ==> (Lost(h + [e], ttl, size, key) <==> e.key != key && Lost(h, ttl, size, key))
    ensures e.Evict? ==>
      (Lost(h + [e], ttl, size, key) <==> Lost(h, ttl, size, key) || Removes(h, e.now, ttl, size, key))
  {
    assert (h + [e])[..|h + [e]| - 1] == h;
  }

  // ---------------------------------------------------------------------
  // Choosing the latest entries

  type Store = map<string, (nat, string)>

  function TimeOf(store: Store, key: string): nat {
    if key in store then store[key].0 else 0
  }

  function ByTime(store: Store): (string, string) -> bool {
    (a: string, b: string) => TimeOf(store, a) <= TimeOf(store, b)
  }

  /** The iteration order of a hash map: any order, each key once. */
  method Enumerate(keys: set<string>) returns (order: seq<string>)
    ensures multiset(order) == multiset(keys)
  {
    order := [];
    var rest := keys;
    while rest != {}
      invariant rest <= keys
      invariant multiset(order) == multiset(keys - rest)
      decreases rest
    {
      var k :| k in rest;
      assert keys - (rest - {k}) == (keys - rest) + {k};
      rest := rest - {k};
      order := order + [k];
    }
    assert keys - rest == keys;
  }

  lemma {:induction false} OrderLength(order: seq<string>, keys: set<string>)
    requires multiset(order) == multiset(keys)
    ensures |order| == |keys|
    ensures forall i, j :: 0 <= i < j < |order| ==> order[i] != order[j]
    ensures forall k :: k in order <==> k in keys
  {
    assert |multiset(order)| == |order|;
    assert |multiset(keys)| == |keys|;
    forall i, j | 0 <= i < j < |order| ensures order[i] != order[j] {
      if order[i] == order[j] {
        TwiceMeansTwo(order, i, j);
      }
    }
    forall k ensures k in order <==> k in keys {
      assert k in order <==> k in multiset(order);
    }
  }

  lemma {:induction false} DistinctSetSize(s: seq<string>)
    requires forall i, j :: 0 <= i < j < |s| ==> s[i] != s[j]
    ensures |(set k | k in s)| == |s|
  {
    if s != [] {
      DistinctSetSize(s[1..]);
      assert (set k | k in s) == {s[0]} + set k | k in s[1..];
    }
  }

  /** `latest` are `size` keys of the store, none of them older than a key left out. */
  ghost predicate LatestKeys(store: Store, size: nat, latest: set<string>) {
    && latest <= store.Keys && |latest| == size
    && forall a, b :: a in latest && b in store && b !in latest ==> store[a].0 >= store[b].0
  }

  method Latest(store: Store, size: nat) returns (latest: set<string>)
    requires |store| > size
    ensures LatestKeys(store, size, latest)
  {
    var order := Enumerate(store.Keys);
    var sorted := StableSort(order, ByTime(store));
    SortCorrect(order, ByTime(store));
    OrderLength(sorted, store.Keys);
    var taken := sorted[|sorted| - size..];
    assert sorted == sorted[..|sorted| - size] + taken;
    LastOnesAreLatest(store, sorted[..|sorted| - size], taken);
    latest := set k | k in taken;
  }

  lemma LastOnesAreLatest(store: Store, dropped: seq<string>, taken: seq<string>)
    requires multiset(dropped + taken) == multiset(store.Keys) && Sorted(dropped + taken, ByTime(store))
    ensures LatestKeys(store, |taken|, set k | k in taken)
  {
    var sorted := dropped + taken;
    OrderLength(sorted, store.Keys);
    assert forall i :: 0 <= i < |taken| ==> taken[i] == sorted[|dropped| + i];
    DistinctSetSize(taken);
    forall a, b | a in taken && b in store && b !in taken ensures store[a].0 >= store[b].0 {
      assert b in sorted;
      LaterIsNoOlder(store, dropped, taken, a, b);
    }
  }

  lemma LaterIsNoOlder(store: Store, dropped: seq<string>, taken: seq<string>, a: string, b: string)
    requires Sorted(dropped + taken, ByTime(store)) && a in taken && b in dropped && a in store && b in store
    ensures store[a].0 >= store[b].0
  {
    var i :| 0 <= i < |taken| && taken[i] == a;
    var j :| 0 <= j < |dropped| && dropped[j] == b;
    var sorted := dropped + taken;
    assert sorted[j] == b && sorted[|dropped| + i] == a;
    assert ByTime(store)(sorted[j], sorted[|dropped| + i]);
  }

  // ---------------------------------------------------------------------
  // The cache

  /** The store holds last-set values, and everything else that was ever set is lost. */
  ghost predicate Agrees(store: Store, h: seq<Event>, ttl: nat, size: nat) {
    && (forall k :: k in store ==> LastSet(h, k) == Some(store[k]))
    && (forall k :: k !in store && LastSet(h, k).Some? ==> Lost(h, ttl, size, k))
  }

  function LiveEntries(store: Store, ttl: nat, now: nat): Store {
    map k | k in store && IsLive(ttl, store[k].0, now) :: store[k]
  }

  lemma EvictAgrees(store: Store, kept: Store, h: seq<Event>, ttl: nat, size: nat, now: nat)
    requires Agrees(store, h, ttl, size)
    requires forall k :: k in kept ==> k in store && kept[k] == store[k]
    requires forall k :: k in store && k !in kept ==>
      !IsLive(ttl, store[k].0, now) || LatestKeys(LiveEntries(store, ttl, now), size, kept.Keys)
    ensures Agrees(kept, h + [Evict(now)], ttl, size)
  {
    var h' := h + [Evict(now)];
    forall k ensures LastSet(h', k) == LastSet(h, k) {
      LastSetAppend(h, Evict(now), k);
    }
    forall k | k !in kept && LastSet(h', k).Some? ensures Lost(h', ttl, size, k) {
      LostAppend(h, Evict(now), ttl, size, k);
      if k in store && IsLive(ttl, store[k].0, now) {
        assert forall o :: o in kept.Keys ==> LastSet(h, o).Some? && LastSet(h, o).value.0 >= store[k].0;
        assert |kept.Keys| == size && k !in kept.Keys;
        assert Crowded(h, size, k);
      }
    }
  }

  lemma SetAgrees(store: Store, h: seq<Event>, ttl: nat, size: nat, e: Event)
    requires Agrees(store, h, ttl, size) && e.Set?
    ensures Agrees(store[e.key := (e.time, e.val)], h + [e], ttl, size)
  {
    forall k ensures LastSet(h + [e], k) == if k == e.key then Some((e.time, e.val)) else LastSet(h, k)
      ensures k != e.key && Lost(h, ttl, size, k) ==> Lost(h + [e], ttl, size, k)
    {
      LastSetAppend(h, e, k);
      LostAppend(h, e, ttl, size, k);
    }
  }

  class TimedCache {
    var store: Store
    const ttl: nat
    const size: nat
    ghost var history: seq<Event>

    ghost predicate Valid()
      reads this
    {
      && Agrees(store, history, ttl, size)
      && |store| <= size + 1
    }

    constructor (ttl: nat, size: nat)
      ensures Valid() && store == map[] && history == []
      ensures this.ttl == ttl && this.size == size
    {
      store := map[];
      this.ttl := ttl;
      this.size := size;
      history := [];
    }

    /** Removes expired entries, then all but the `size` latest ones. */
    method Evict(now: nat)
      requires Valid()
      modifies this
      ensures Valid() && history == old(history) + [Event.Evict(now)]
      ensures |store| <= size
      ensures forall k :: k in store ==> k in old(store) && store[k] == old(store)[k] && IsLive(ttl, store[k].0, now)
    {
      ghost var before := store;
      store := LiveEntries(store, ttl, now);
      if |store| > size {
        var latest := Latest(store, size);
        assert latest == (map k | k in store && k in latest :: store[k]).Keys;
        store := map k | k in store && k in latest :: store[k];
        assert |store.Keys| == size;
      }
      EvictAgrees(before, store, history, ttl, size, now);
      history := history + [Event.Evict(now)];
    }

    method Set(key: string, val: string, now: nat, later: nat)
      requires Valid() && now <= later
      modifies this
      ensures Valid() && history == old(history) + [Event.Evict(now), Event.Set(key, val, later)]
      ensures key in store && store[key] == (later, val)
      ensures |store| <= size + 1
    {
      Evict(now);
      ghost var e := Event.Set(key, val, later);
      SetAgrees(store, history, ttl, size, e);
      ghost var before := store;
      store := store[key := (later, val)];
      assert store.Keys == before.Keys + {key};
      assert |store.Keys| <= |before.Keys| + 1;
      history := history + [e];
      assert history == old(history) + [Event.Evict(now), e];
    }

    /**
      Returns nothing, or the last value set for the key, still live. A live
      value is missing only if the key was crowded out at some eviction.
     */
    method Get(key: string, now: nat) returns (val: Option<string>)
      requires Valid()
      requires forall i :: 0 <= i < |history| ==> Clock(history[i]) <= now
      modifies this
      ensures Valid() && history == old(history) + [Event.Evict(now)]
      ensures |store| <= size
      ensures val.Some? ==>
        && LastSet(history, key).Some?
        && LastSet(history, key).value.1 == val.value
        && now - LastSet(history, key).value.0 < ttl * 1_000_000_000
      ensures val.None? && LastSet(history, key).Some? && now - LastSet(history, key).value.0 < ttl * 1_000_000_000 ==>
        exists p :: CrowdedOutAt(history, size, key, p)
    {
      Evict(now);
      if LastSet(history, key).Some? {
        LastSetSeen(history, key, now);
        LiveExactly(ttl, LastSet(history, key).value.0, now);
      }
      if key in store {
        return Some(store[key].1);
      }
      if LastSet(history, key).Some? && IsLive(ttl, LastSet(history, key).value.0, now) {
        ghost var p := LostWhileLive(history, ttl, size, key, now);
      }
      return None;
    }
  }
}
