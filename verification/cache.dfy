/**
 * The in-memory tier of `RecommendationCache`: a dictionary from key to
 * (value, expiry) with hit, miss and eviction counters, lazy expiry on
 * `get`, a capacity sweep once the dictionary passes 1000 entries, and
 * substring invalidation. Time is a parameter `now` in whole seconds; the
 * Redis tier is not part of this model.
 *
 * A Python dictionary iterates its keys in insertion order, and the sweep
 * sorts those keys stably, so the model keeps that order beside the map.
 */
module Cache {
  import opened Common
  import CacheKeys

  /** One dictionary value: `{'value': ..., 'expires_at': ...}`. */
  datatype Entry<V> = Entry(value: V, expiresAt: int)

  /** A dictionary: its entries and its keys in insertion order. */
  datatype Dict<V> = Dict(entries: map<string, Entry<V>>, order: seq<string>)

  /** What `get_stats` reports. */
  datatype Stats = Stats(
    hits: nat, misses: nat, evictions: nat,
    hitRate: real, memoryEntries: nat, totalRequests: nat)

  /** Above this many entries a store triggers the sweep. */
  const Capacity: nat := 1000
  /** How many earliest-expiring entries the sweep removes. */
  const SweepCount: nat := 100
  const DefaultTtl: int := 3600

  /** `order` lists every key of `m` exactly once. */
  ghost predicate KeyOrder<V>(order: seq<string>, m: map<string, Entry<V>>) {
    Distinct(order) && forall k :: k in order <==> k in m
  }

  /** The entries that have not expired at `now`. */
  function Live<V>(m: map<string, Entry<V>>, now: int): (r: map<string, Entry<V>>)
    ensures r.Keys <= m.Keys
    ensures forall k :: k in m ==> (k in r <==> m[k].expiresAt > now)
    ensures forall k :: k in r ==> r[k] == m[k]
  {
    map k | k in m && m[k].expiresAt > now :: m[k]
  }

  /** The keys `_evict_expired` deletes. */
  function Expired<V>(m: map<string, Entry<V>>, now: int): set<string> {
    set k | k in m && m[k].expiresAt <= now
  }

  /** The entries whose key does not contain `pattern`. */
  function Surviving<V>(m: map<string, Entry<V>>, pattern: string): (r: map<string, Entry<V>>)
    ensures r.Keys <= m.Keys
    ensures forall k :: k in m ==> (k in r <==> !CacheKeys.Contains(k, pattern))
    ensures forall k :: k in r ==> r[k] == m[k]
  {
    map k | k in m && !CacheKeys.Contains(k, pattern) :: m[k]
  }

  /** The keys `invalidate` deletes. */
  function Matching<V>(m: map<string, Entry<V>>, pattern: string): set<string> {
    set k | k in m && CacheKeys.Contains(k, pattern)
  }

  /** The entries whose key is not in `gone`. */
  function Drop<V>(m: map<string, Entry<V>>, gone: set<string>): (r: map<string, Entry<V>>)
    ensures r.Keys == m.Keys - gone
    ensures forall k :: k in r ==> r[k] == m[k]
  {
    map k | k in m && k !in gone :: m[k]
  }

  /** Deleting present keys shrinks the dictionary by their number. */
  lemma DropSize<V>(m: map<string, Entry<V>>, gone: set<string>)
    requires gone <= m.Keys
    ensures |Drop(m, gone)| == |m| - |gone|
  {
    assert m.Keys == Drop(m, gone).Keys + gone;
    assert Drop(m, gone).Keys !! gone;
  }

  /**
   * The keys of `order` that are not in `gone`, in their order: what the
   * dictionary iterates after those keys are deleted.
   */
  function Remaining(order: seq<string>, gone: set<string>): (r: seq<string>)
    ensures forall k :: k in r <==> k in order && k !in gone
  {
    if order == [] then []
    else
      var init, last := order[..|order| - 1], order[|order| - 1];
      assert order == init + [last];
      if last in gone then Remaining(init, gone) else Remaining(init, gone) + [last]
  }

  /** Deleting keys keeps each remaining key listed once. */
  lemma {:induction false} RemainingDistinct(order: seq<string>, gone: set<string>)
    requires Distinct(order)
    ensures Distinct(Remaining(order, gone))
  {
    if order != [] {
      var init, last := order[..|order| - 1], order[|order| - 1];
      DistinctInit(order);
      RemainingDistinct(init, gone);
      DistinctSnoc(Remaining(init, gone), last);
    }
  }

  /** Deleting the keys `gone` from a dictionary and from its key order keeps them in step. */
  lemma KeyOrderRemaining<V>(order: seq<string>, m: map<string, Entry<V>>, gone: set<string>, r: map<string, Entry<V>>)
    requires KeyOrder(order, m) && r.Keys == m.Keys - gone
    ensures KeyOrder(Remaining(order, gone), r)
  {
    RemainingDistinct(order, gone);
  }

  /** The expiry of key `k`; every key the sweep sorts is in the dictionary. */
  function ExpiryOf<V>(m: map<string, Entry<V>>, k: string): int {
    if k in m then m[k].expiresAt else 0
  }

  /**
   * Inserts `k` before the first key of `s` that expires no earlier than
   * it, so that keys of equal expiry stay in the order they arrive in.
   */
  function InsertByExpiry<V>(k: string, s: seq<string>, m: map<string, Entry<V>>): (r: seq<string>)
    ensures |r| == |s| + 1
  {
    if s == [] || ExpiryOf(m, k) <= ExpiryOf(m, s[0]) then [k] + s
    else [s[0]] + InsertByExpiry(k, s[1..], m)
  }

  /**
   * `sorted(keys, key=lambda k: expires_at)`: the keys by ascending expiry.
   * The sort is stable, so keys of equal expiry keep their dictionary order.
   */
  function ByExpiry<V>(order: seq<string>, m: map<string, Entry<V>>): (r: seq<string>)
    ensures |r| == |order|
  {
    if order == [] then [] else InsertByExpiry(order[0], ByExpiry(order[1..], m), m)
  }

  /** Insertion adds exactly the inserted key. */
  lemma {:induction false} InsertKeys<V>(k: string, s: seq<string>, m: map<string, Entry<V>>)
    ensures forall x :: x in InsertByExpiry(k, s, m) <==> x == k || x in s
  {
    if s != [] && ExpiryOf(m, k) > ExpiryOf(m, s[0]) {
      InsertKeys(k, s[1..], m);
      assert s == [s[0]] + s[1..];
    }
  }

  /** The sorted keys are the keys of the order. */
  lemma {:induction false} ByExpiryKeys<V>(order: seq<string>, m: map<string, Entry<V>>)
    ensures forall k :: k in ByExpiry(order, m) <==> k in order
  {
    if order != [] {
      ByExpiryKeys(order[1..], m);
      InsertKeys(order[0], ByExpiry(order[1..], m), m);
      assert order == [order[0]] + order[1..];
    }
  }

  /** Keys in non-decreasing order of expiry. */
  ghost predicate Ascending<V>(s: seq<string>, m: map<string, Entry<V>>) {
    forall i, j :: 0 <= i < j < |s| ==> ExpiryOf(m, s[i]) <= ExpiryOf(m, s[j])
  }

  lemma {:induction false} InsertAscending<V>(k: string, s: seq<string>, m: map<string, Entry<V>>)
    requires Ascending(s, m)
    ensures Ascending(InsertByExpiry(k, s, m), m)
  {
    if s != [] && ExpiryOf(m, k) > ExpiryOf(m, s[0]) {
      var t := InsertByExpiry(k, s[1..], m);
      InsertAscending(k, s[1..], m);
      InsertKeys(k, s[1..], m);
      var r := [s[0]] + t;
      forall i, j | 0 <= i < j < |r|
        ensures ExpiryOf(m, r[i]) <= ExpiryOf(m, r[j])
      {
        if i == 0 {
          assert r[j] == t[j - 1];
          assert t[j - 1] in t;
        } else {
          assert r[i] == t[i - 1] && r[j] == t[j - 1];
        }
      }
    }
  }

  /** The sorted keys are in non-decreasing order of expiry. */
  lemma {:induction false} ByExpiryOrdered<V>(order: seq<string>, m: map<string, Entry<V>>)
    ensures Ascending(ByExpiry(order, m), m)
  {
    if order != [] {
      ByExpiryOrdered(order[1..], m);
      InsertAscending(order[0], ByExpiry(order[1..], m), m);
    }
  }

  /** Keys of equal expiry are sorted in the order they were first stored. */
  lemma {:induction false} ByExpiryTies<V>(order: seq<string>, m: map<string, Entry<V>>, t: int)
    requires forall k :: k in order ==> k in m && m[k].expiresAt == t
    ensures ByExpiry(order, m) == order
  {
    if order != [] {
      ByExpiryTies(order[1..], m, t);
      assert order == [order[0]] + order[1..];
    }
  }

  /** A sequence with the same elements and length as a duplicate-free one is duplicate-free. */
  lemma SameElemsDistinct<T>(s: seq<T>, t: seq<T>)
    requires Distinct(s) && |s| == |t|
    requires forall x :: x in s <==> x in t
    ensures Distinct(t)
  {
    DistinctCardinality(s);
    assert Elems(s) == Elems(t);
    ElemsCardinality(t);
  }

  /** `sorted_keys[:n]`: the keys the sweep deletes. */
  function SweepKeys<V>(order: seq<string>, m: map<string, Entry<V>>, n: nat): set<string> {
    FirstKeys(ByExpiry(order, m), n)
  }

  /** `set(s[:n])` */
  function FirstKeys(s: seq<string>, n: nat): set<string> {
    if n == 0 || s == [] then {} else {s[0]} + FirstKeys(s[1..], n - 1)
  }

  lemma {:induction false} FirstKeysElems(s: seq<string>, n: nat)
    ensures FirstKeys(s, n) == Elems(Take(s, n))
  {
    if n != 0 && s != [] {
      FirstKeysElems(s[1..], n - 1);
      assert Take(s, n) == [s[0]] + Take(s[1..], n - 1);
    }
  }

  /** A key order is as long as the dictionary is large. */
  lemma KeyOrderSize<V>(order: seq<string>, m: map<string, Entry<V>>)
    requires KeyOrder(order, m)
    ensures |order| == |m|
  {
    DistinctCardinality(order);
    assert Elems(order) == m.Keys;
  }

  /** The first `n` elements of a duplicate-free sequence are `n` distinct values. */
  lemma TakeDistinct<T>(s: seq<T>, n: nat)
    requires Distinct(s) && n <= |s|
    ensures |Elems(Take(s, n))| == n
  {
    var t := Take(s, n);
    assert t == s[..n];
    assert Distinct(t);
    DistinctCardinality(t);
  }

  /** The sweep deletes exactly `n` keys of the dictionary. */
  lemma SweepKeysCount<V>(order: seq<string>, m: map<string, Entry<V>>, n: nat)
    requires KeyOrder(order, m) && n <= |m|
    ensures SweepKeys(order, m, n) <= m.Keys
    ensures |SweepKeys(order, m, n)| == n
  {
    var r := ByExpiry(order, m);
    FirstKeysElems(r, n);
    ByExpiryKeys(order, m);
    SameElemsDistinct(order, r);
    KeyOrderSize(order, m);
    TakeDistinct(r, n);
  }

  /** In an ascending sequence, the first `n` keys expire no later than the others. */
  lemma PrefixEarliest<V>(r: seq<string>, m: map<string, Entry<V>>, n: nat)
    requires Ascending(r, m)
    ensures forall a, b :: a in Take(r, n) && b in r && b !in Take(r, n) ==> ExpiryOf(m, a) <= ExpiryOf(m, b)
  {
    var t := Take(r, n);
    forall a, b | a in t && b in r && b !in t
      ensures ExpiryOf(m, a) <= ExpiryOf(m, b)
    {
      var i :| 0 <= i < |t| && t[i] == a;
      var j :| 0 <= j < |r| && r[j] == b;
      assert r[i] == a;
      assert |t| <= j;
    }
  }

  /** Each key the sweep deletes expires no later than every key it keeps. */
  lemma SweepKeysEarliest<V>(order: seq<string>, m: map<string, Entry<V>>, n: nat)
    requires KeyOrder(order, m)
    ensures forall a, b :: a in SweepKeys(order, m, n) && b in m && b !in SweepKeys(order, m, n) ==>
      a in m && m[a].expiresAt <= m[b].expiresAt
  {
    var r := ByExpiry(order, m);
    FirstKeysElems(r, n);
    ByExpiryOrdered(order, m);
    ByExpiryKeys(order, m);
    PrefixEarliest(r, m, n);
    var t := Take(r, n);
    forall a, b | a in Elems(t) && b in m && b !in Elems(t)
      ensures a in m && m[a].expiresAt <= m[b].expiresAt
    {
      assert a in t && b in r;
      assert ExpiryOf(m, a) <= ExpiryOf(m, b);
    }
  }

  /** Both facts about the sweep together. */
  lemma SweepKeysFacts<V>(order: seq<string>, m: map<string, Entry<V>>, n: nat)
    requires KeyOrder(order, m) && n <= |m|
    ensures SweepKeys(order, m, n) <= m.Keys
    ensures |SweepKeys(order, m, n)| == n
    ensures forall a, b :: a in SweepKeys(order, m, n) && b in m && b !in SweepKeys(order, m, n) ==>
      m[a].expiresAt <= m[b].expiresAt
  {
    SweepKeysCount(order, m, n);
    SweepKeysEarliest(order, m, n);
  }

  lemma Without<V>(m: map<string, Entry<V>>, k: string)
    requires k in m
    ensures (m - {k}).Keys == m.Keys - {k}
    ensures |m - {k}| == |m| - 1
  {
    assert (m - {k}).Keys == m.Keys - {k};
    assert |(m - {k}).Keys| == |m.Keys| - 1;
  }

  lemma SmallerMap<V>(a: map<string, Entry<V>>, b: map<string, Entry<V>>)
    requires a.Keys <= b.Keys
    ensures |a| <= |b|
  {
    SubsetCardinality(a.Keys, b.Keys);
  }

  lemma SameEntries<V>(a: map<string, Entry<V>>, b: map<string, Entry<V>>)
    requires a.Keys == b.Keys
    requires forall k :: k in a ==> a[k] == b[k]
    ensures a == b
  {
  }

  /**
   * The deletion loops of `_evict_expired`, `invalidate` and the sweep:
   * delete the listed keys one at a time and count the deletions.
   */
  method DeleteKeys<V>(m: map<string, Entry<V>>, doomed: set<string>)
      returns (r: map<string, Entry<V>>, removed: nat)
    requires doomed <= m.Keys
    ensures r == Drop(m, doomed)
    ensures |r| + removed == |m|
  {
    r, removed := m, 0;
    var todo := doomed;
    ghost var rest := m.Keys - doomed;
    while todo != {}
      invariant todo <= r.Keys
      invariant r.Keys == rest + todo
      invariant rest !! todo
      invariant r.Keys <= m.Keys
      invariant forall k :: k in r ==> r[k] == m[k]
      invariant |r| + removed == |m|
      decreases |todo|
    {
      var k :| k in todo;
      Without(r, k);
      r := r - {k};
      removed := removed + 1;
      todo := todo - {k};
    }
    SameEntries(r, Drop(m, doomed));
  }

  /**
   * The sweep of `_store_in_memory`: sorts the keys by expiry and deletes
   * the first `n`, one at a time. It deletes exactly `n` entries.
   */
  method SweepEarliest<V>(m: map<string, Entry<V>>, order: seq<string>, n: nat)
      returns (r: map<string, Entry<V>>, rest: seq<string>, removed: nat)
    requires KeyOrder(order, m) && n <= |m|
    ensures r == Drop(m, SweepKeys(order, m, n))
    ensures rest == Remaining(order, SweepKeys(order, m, n))
    ensures KeyOrder(rest, r)
    ensures removed == n && |r| == |m| - n
  {
    var sortedKeys := ByExpiry(order, m);
    var doomed := FirstKeys(sortedKeys, n);
    SweepKeysCount(order, m, n);
    r, removed := DeleteKeys(m, doomed);
    DropSize(m, doomed);
    KeyOrderRemaining(order, m, doomed, r);
    rest := Remaining(order, doomed);
  }

  /** The first capacity check of `_store_in_memory`, run on the dictionary. */
  method PurgeWhenFull<V>(d: Dict<V>, now: int) returns (r: Dict<V>, removed: nat)
    requires KeyOrder(d.order, d.entries)
    ensures r == Purge(d, now)
    ensures KeyOrder(r.order, r.entries)
    ensures |r.entries| + removed == |d.entries|
  {
    if |d.entries| > Capacity {
      var expired := set k | k in d.entries && d.entries[k].expiresAt <= now;
      var kept;
      kept, removed := DeleteKeys(d.entries, expired);
      SameEntries(kept, Live(d.entries, now));
      KeyOrderRemaining(d.order, d.entries, expired, kept);
      r := Dict(kept, Remaining(d.order, expired));
    } else {
      r, removed := d, 0;
    }
  }

  /** The second capacity check of `_store_in_memory`: the sweep, when still full. */
  method SweepWhenFull<V>(d: Dict<V>) returns (r: Dict<V>, removed: nat)
    requires KeyOrder(d.order, d.entries) && |d.entries| <= Capacity + 1
    ensures r == Sweep(d)
    ensures KeyOrder(r.order, r.entries) && |r.entries| <= Capacity
    ensures |r.entries| + removed == |d.entries|
  {
    if |d.entries| > Capacity {
      var kept, rest;
      kept, rest, removed := SweepEarliest(d.entries, d.order, SweepCount);
      r := Dict(kept, rest);
    } else {
      r, removed := d, 0;
    }
  }

  /** `ttl`, or the default when it is None. */
  function TtlOrDefault(ttl: Option<int>, defaultTtl: int): int {
    if ttl.Some? then ttl.value else defaultTtl
  }

  /** `hits / total_requests` */
  function HitRate(hits: nat, total: nat): (r: real)
    requires 0 < total && hits <= total
    ensures 0.0 <= r <= 1.0
    ensures r * total as real == hits as real
  {
    hits as real / total as real
  }

  /** `d[key] = e`: a new key goes to the end of the order, a present one keeps its place. */
  function Assign<V>(d: Dict<V>, key: string, e: Entry<V>): (r: Dict<V>)
    ensures KeyOrder(d.order, d.entries) ==> KeyOrder(r.order, r.entries)
    ensures r.entries.Keys == d.entries.Keys + {key}
    ensures key in r.entries && r.entries[key] == e
    ensures forall k :: k in d.entries && k != key ==> k in r.entries && r.entries[k] == d.entries[k]
  {
    Dict(d.entries[key := e], if key in d.entries then d.order else d.order + [key])
  }

  /** The expiry purge, run when the dictionary passes the capacity. */
  function Purge<V>(d: Dict<V>, now: int): Dict<V> {
    if |d.entries| > Capacity
    then Dict(Live(d.entries, now), Remaining(d.order, Expired(d.entries, now)))
    else d
  }

  /** The sweep, run when the dictionary still passes the capacity. */
  function Sweep<V>(d: Dict<V>): Dict<V> {
    if |d.entries| > Capacity then
      var swept := SweepKeys(d.order, d.entries, SweepCount);
      Dict(Drop(d.entries, swept), Remaining(d.order, swept))
    else d
  }

  /**
   * What `_store_in_memory` leaves behind: the new entry is written; if the
   * dictionary then passes the capacity, the expired entries go; if it
   * still passes it, the `SweepCount` earliest-expiring keys go too.
   */
  function AfterStore<V>(d: Dict<V>, key: string, e: Entry<V>, now: int): Dict<V>
    requires KeyOrder(d.order, d.entries)
  {
    Sweep(Purge(Assign(d, key, e), now))
  }

  /** `after` is what storing `e` under `key` at `now` leaves of `before`. */
  ghost predicate StoreOutcome<V>(before: Dict<V>, key: string, e: Entry<V>, now: int, after: Dict<V>)
    requires KeyOrder(before.order, before.entries)
  {
    after == AfterStore(before, key, e, now)
  }

  /**
   * A store keeps the key order and, from at most `Capacity` entries, the
   * capacity bound. It removes nothing below the capacity, and above it
   * every expired entry; every entry kept is the one stored.
   */
  lemma StoreFacts<V>(d: Dict<V>, key: string, e: Entry<V>, now: int)
    requires KeyOrder(d.order, d.entries) && |d.entries| <= Capacity
    ensures var r := AfterStore(d, key, e, now);
      var stored := Assign(d, key, e).entries;
      && KeyOrder(r.order, r.entries)
      && |r.entries| <= Capacity
      && r.entries.Keys <= stored.Keys
      && (forall k :: k in r.entries ==> r.entries[k] == stored[k])
      && (|stored| <= Capacity ==> r == Assign(d, key, e))
      && (|stored| > Capacity ==> forall k :: k in stored && stored[k].expiresAt <= now ==> k !in r.entries)
  {
    var stored := Assign(d, key, e);
    assert |stored.entries| <= |d.entries| + 1 by {
      assert stored.entries.Keys == d.entries.Keys + {key};
    }
    if |stored.entries| > Capacity {
      var live := Live(stored.entries, now);
      var liveOrder := Remaining(stored.order, Expired(stored.entries, now));
      KeyOrderRemaining(stored.order, stored.entries, Expired(stored.entries, now), live);
      SmallerMap(live, stored.entries);
      if |live| > Capacity {
        var swept := SweepKeys(liveOrder, live, SweepCount);
        SweepKeysCount(liveOrder, live, SweepCount);
        DropSize(live, swept);
        KeyOrderRemaining(liveOrder, live, swept, Drop(live, swept));
        assert AfterStore(d, key, e, now) == Dict(Drop(live, swept), Remaining(liveOrder, swept));
      } else {
        assert AfterStore(d, key, e, now) == Dict(live, liveOrder);
      }
    }
  }

  /**
   * When the expiry purge leaves more than `Capacity` entries, the sweep
   * deletes `SweepCount` of them, and each one deleted expires no later
   * than every one kept.
   */
  lemma StoreSweepsEarliest<V>(d: Dict<V>, key: string, e: Entry<V>, now: int)
    requires KeyOrder(d.order, d.entries) && |d.entries| <= Capacity
    requires |Live(Assign(d, key, e).entries, now)| > Capacity
    ensures var r := AfterStore(d, key, e, now);
      var live := Live(Assign(d, key, e).entries, now);
      && r.entries.Keys <= live.Keys
      && |r.entries| == |live| - SweepCount
      && forall a, b :: a in live && a !in r.entries && b in r.entries ==> live[a].expiresAt <= r.entries[b].expiresAt
  {
    var stored := Assign(d, key, e);
    var live := Live(stored.entries, now);
    SmallerMap(live, stored.entries);
    var liveOrder := Remaining(stored.order, Expired(stored.entries, now));
    KeyOrderRemaining(stored.order, stored.entries, Expired(stored.entries, now), live);
    var swept := SweepKeys(liveOrder, live, SweepCount);
    SweepKeysFacts(liveOrder, live, SweepCount);
    DropSize(live, swept);
  }

  class RecommendationCache<V> {
    /** `in_memory_cache`: its entries and its key order */
    var entries: map<string, Entry<V>>
    var order: seq<string>
    /** `cache_stats` */
    var hits: nat
    var misses: nat
    var evictions: nat
    var defaultTtl: int

    /** The dictionary never holds more than `Capacity` entries; `order` lists its keys. */
    ghost predicate Valid()
      reads this
    {
      |entries| <= Capacity && KeyOrder(order, entries)
    }

    constructor (defaultTtl: int)
      ensures Valid()
      ensures entries == map[] && order == [] && hits == 0 && misses == 0 && evictions == 0
      ensures this.defaultTtl == defaultTtl
    {
      entries, order := map[], [];
      hits, misses, evictions := 0, 0, 0;
      this.defaultTtl := defaultTtl;
    }

    /**
     * `get(key)` against the in-memory tier: a live entry is a hit, an
     * expired one is deleted and counted as an eviction and then as a miss,
     * an absent one is a miss.
     */
    method Get(key: string, now: int) returns (r: Option<V>)
      modifies this
      ensures defaultTtl == old(defaultTtl)
      ensures old(Valid()) ==> Valid()
      ensures key in old(entries) && old(entries)[key].expiresAt > now ==>
        && r == Some(old(entries)[key].value)
        && entries == old(entries) && order == old(order)
        && hits == old(hits) + 1 && misses == old(misses) && evictions == old(evictions)
      ensures key in old(entries) && old(entries)[key].expiresAt <= now ==>
        && r == None
        && entries == old(entries) - {key} && order == Remaining(old(order), {key})
        && hits == old(hits) && misses == old(misses) + 1 && evictions == old(evictions) + 1
      ensures key !in old(entries) ==>
        && r == None
        && entries == old(entries) && order == old(order)
        && hits == old(hits) && misses == old(misses) + 1 && evictions == old(evictions)
    {
      if key in entries {
        var entry := entries[key];
        if entry.expiresAt > now {
          hits := hits + 1;
          return Some(entry.value);
        } else {
          if KeyOrder(order, entries) {
            KeyOrderRemaining(order, entries, {key}, entries - {key});
          }
          entries := entries - {key};
          order := Remaining(order, {key});
          evictions := evictions + 1;
        }
      }
      misses := misses + 1;
      return None;
    }

    /** `set(key, value, ttl)`: `ttl` None stands for the default TTL. */
    method Set(key: string, value: V, ttl: Option<int>, now: int) returns (ok: bool)
      requires Valid()
      modifies this
      ensures ok
      ensures Valid()
      ensures defaultTtl == old(defaultTtl)
      ensures hits == old(hits) && misses == old(misses)
      ensures StoreOutcome(Dict(old(entries), old(order)), key, Entry(value, now + TtlOrDefault(ttl, old(defaultTtl))), now,
                           Dict(entries, order))
      ensures evictions == old(evictions) + (|old(entries)[key := Entry(value, now + TtlOrDefault(ttl, old(defaultTtl)))]| - |entries|)
    {
      var t := TtlOrDefault(ttl, defaultTtl);
      ghost var before := Dict(entries, order);
      ghost var e := Entry(value, now + t);
      assert e == Entry(value, now + TtlOrDefault(ttl, old(defaultTtl)));
      StoreInMemory(key, value, t, now);
      assert StoreOutcome(before, key, e, now, Dict(entries, order));
      ok := true;
    }

    /**
     * `_store_in_memory`. The sweep may remove the entry just written: with
     * a non-positive TTL on a full dictionary it always does.
     */
    method StoreInMemory(key: string, value: V, ttl: int, now: int)
      requires Valid()
      modifies this
      ensures Valid()
      ensures defaultTtl == old(defaultTtl)
      ensures hits == old(hits) && misses == old(misses)
      ensures StoreOutcome(Dict(old(entries), old(order)), key, Entry(value, now + ttl), now, Dict(entries, order))
      ensures evictions == old(evictions) + (|old(entries)[key := Entry(value, now + ttl)]| - |entries|)
      ensures |old(entries)[key := Entry(value, now + ttl)]| > Capacity && ttl <= 0 ==> key !in entries
    {
      ghost var d := Dict(entries, order);
      var e := Entry(value, now + ttl);
      if key !in entries {
        order := order + [key];
      }
      entries := entries[key := e];
      assert Dict(entries, order) == Assign(d, key, e);
      assert |entries| <= Capacity + 1 by {
        assert entries.Keys == d.entries.Keys + {key};
      }
      ghost var stored := Dict(entries, order);
      Shrink(now);
      assert StoreOutcome(d, key, e, now, Dict(entries, order));
    }

    /**
     * The two capacity checks of `_store_in_memory`, after the write: past
     * `Capacity` entries the expired ones go, and if the dictionary still
     * passes it the sweep runs.
     */
    method Shrink(now: int)
      requires KeyOrder(order, entries) && |entries| <= Capacity + 1
      modifies this
      ensures Valid()
      ensures Dict(entries, order) == Sweep(Purge(old(Dict(entries, order)), now))
      ensures evictions == old(evictions) + (|old(entries)| - |entries|)
      ensures hits == old(hits) && misses == old(misses) && defaultTtl == old(defaultTtl)
    {
      var purged, expiredCount := PurgeWhenFull(Dict(entries, order), now);
      var swept, sweptCount := SweepWhenFull(purged);
      entries, order := swept.entries, swept.order;
      evictions := evictions + expiredCount + sweptCount;
    }

    /** `_evict_expired`: drops every entry whose expiry is at or before `now`. */
    method EvictExpired(now: int)
      modifies this
      ensures entries == Live(old(entries), now)
      ensures order == Remaining(old(order), Expired(old(entries), now))
      ensures evictions == old(evictions) + (|old(entries)| - |entries|)
      ensures |entries| <= |old(entries)|
      ensures hits == old(hits) && misses == old(misses) && defaultTtl == old(defaultTtl)
      ensures KeyOrder(old(order), old(entries)) ==> KeyOrder(order, entries)
    {
      var expired := set k | k in entries && entries[k].expiresAt <= now;
      var kept, removed := DeleteKeys(entries, expired);
      SameEntries(kept, Live(entries, now));
      SmallerMap(kept, entries);
      if KeyOrder(order, entries) {
        KeyOrderRemaining(order, entries, expired, kept);
      }
      entries := kept;
      order := Remaining(order, expired);
      evictions := evictions + removed;
    }

    /** `invalidate(pattern)`: removes exactly the keys containing `pattern`. */
    method Invalidate(pattern: string)
      modifies this
      ensures entries == Surviving(old(entries), pattern)
      ensures order == Remaining(old(order), Matching(old(entries), pattern))
      ensures hits == old(hits) && misses == old(misses) && evictions == old(evictions)
      ensures defaultTtl == old(defaultTtl)
      ensures old(Valid()) ==> Valid()
    {
      var doomed := set k | k in entries && CacheKeys.Contains(k, pattern);
      var kept, _ := DeleteKeys(entries, doomed);
      SameEntries(kept, Surviving(entries, pattern));
      SmallerMap(kept, entries);
      if KeyOrder(order, entries) {
        KeyOrderRemaining(order, entries, doomed, kept);
      }
      entries := kept;
      order := Remaining(order, doomed);
    }

    /** `get_stats` */
    function GetStats(): (s: Stats)
      reads this
      ensures s.hits == hits && s.misses == misses && s.evictions == evictions
      ensures s.memoryEntries == |entries| && s.totalRequests == hits + misses
      ensures 0.0 <= s.hitRate <= 1.0
      ensures hits + misses == 0 ==> s.hitRate == 0.0
      ensures hits + misses > 0 ==> s.hitRate * (hits + misses) as real == hits as real
    {
      var total := hits + misses;
      var rate := if total > 0 then HitRate(hits, total) else 0.0;
      Stats(hits, misses, evictions, rate, |entries|, total)
    }

    /** `clear`: empties the dictionary and zeroes the counters. */
    method Clear()
      modifies this
      ensures entries == map[] && order == [] && hits == 0 && misses == 0 && evictions == 0
      ensures defaultTtl == old(defaultTtl)
      ensures Valid()
    {
      entries, order := map[], [];
      hits, misses, evictions := 0, 0, 0;
    }
  }

  /**
   * `set(k, v, ttl)` followed by `get(k)` before the expiry returns v and
   * counts one hit when the entry survived the store, and otherwise misses.
   * It always survives when the store cannot have triggered the sweep (the
   * key was already present, or the dictionary had room).
   */
  method SetThenGet<V>(c: RecommendationCache<V>, key: string, value: V, ttl: int, now: int, later: int)
      returns (r: Option<V>, ghost survived: bool)
    requires c.Valid()
    requires now <= later < now + ttl
    modifies c
    ensures survived ==> r == Some(value) && c.hits == old(c.hits) + 1 && c.misses == old(c.misses)
    ensures !survived ==> r == None && c.hits == old(c.hits) && c.misses == old(c.misses) + 1
    ensures key in old(c.entries) || |old(c.entries)| < Capacity ==> survived
  {
    ghost var d := Dict(c.entries, c.order);
    ghost var stored := old(c.entries)[key := Entry(value, now + ttl)];
    if key in old(c.entries) {
      assert |stored| == |old(c.entries)|;
    } else {
      assert |stored| == |old(c.entries)| + 1;
    }
    StoreFacts(d, key, Entry(value, now + ttl), now);
    var _ := c.Set(key, value, Some(ttl), now);
    survived := key in c.entries;
    assert Dict(c.entries, c.order) == AfterStore(d, key, Entry(value, now + ttl), now);
    assert survived ==> c.entries[key] == Entry(value, now + ttl);
    r := c.Get(key, later);
  }
}
