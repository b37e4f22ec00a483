/** The LRU cache of ABI serializers of the elasticsearch plugin (`abi_cache_index`,
    `purge_abi_cache`, `search_abi_by_account`, `get_abi_serializer`). The cache is keyed
    uniquely by account, which a `map` gives for free; the second, non-unique index by
    `last_accessed` is the `lastAccessed` field of each entry. */
module AbiCache {
  import opened Wrappers
  import opened ChainTypes
  import opened AbiPatch

  /** `is_2xx`: the success condition for every response of the search backend; exactly
      the status codes of the 2xx class. */
  function IsTwoXX(status: int): (r: bool)
    ensures r <==> status / 100 == 2
  {
    199 < status < 300
  }

  /** The `_source.abi` value of an accounts document, before conversion to `abi_def`. */
  datatype AbiVariant = AbiVariant(json: string)

  /** One search hit; `abi` is None when the hit has no `_source.abi` member. */
  datatype Hit = Hit(abi: Option<AbiVariant>)

  /** The `hits` object of a search response: `hits.total` and the `hits.hits` array. */
  datatype SearchBody = SearchBody(total: int, hits: seq<Hit>)

  /** A search response; `body` is None when the text is not JSON with a `hits` object. */
  datatype SearchResponse = SearchResponse(status: int, body: Option<SearchBody>)

  /** The foreign collaborators of a cache miss: the accounts search on the backend, the
      `variant` to `abi_def` conversion, and whether `abi_serializer::set_abi` accepts an ABI
      (it throws otherwise). */
  datatype AbiSource = AbiSource(
    search: Name -> SearchResponse,
    convert: AbiVariant -> Option<AbiDef>,
    setAbiAccepts: AbiDef -> bool)

  /** `search_abi_by_account` together with the exceptions its caller swallows: the stored
      ABI of the account when the search succeeded and found exactly one document that has
      an ABI, and nothing otherwise. */
  function SearchAbiByAccount(resp: SearchResponse): (r: Option<AbiVariant>)
    ensures r.Some? <==> && IsTwoXX(resp.status) && resp.body.Some?
                         && resp.body.value.total == 1
                         && |resp.body.value.hits| > 0 && resp.body.value.hits[0].abi.Some?
    ensures r.Some? ==> r == resp.body.value.hits[0].abi
  {
    if !IsTwoXX(resp.status) then None          // the helper's EOS_ASSERT throws
    else match resp.body
      case None => None                         // `res["hits"]` throws
      case Some(b) =>
        if b.total != 1 then None
        else if |b.hits| == 0 then None         // undefined in the source: `hits[0]` is not bounds-checked
        else b.hits[0].abi                      // a missing `_source.abi` throws inside the try
  }

  /** The ABI a cache miss obtains for account `n`, if the search finds it and it converts:
      only a successful search with exactly one document holding an ABI yields one, and it
      is that document's ABI, converted. */
  function FetchAbi(n: Name, src: AbiSource): (r: Option<AbiDef>)
    ensures r.Some? ==>
              var resp := src.search(n);
              && IsTwoXX(resp.status) && resp.body.Some? && resp.body.value.total == 1
              && |resp.body.value.hits| > 0 && resp.body.value.hits[0].abi.Some?
              && r == src.convert(resp.body.value.hits[0].abi.value)
    ensures SearchAbiByAccount(src.search(n)).None? ==> r.None?
  {
    match SearchAbiByAccount(src.search(n))
    case None => None
    case Some(v) => src.convert(v)
  }

  /** The serializer a lookup of account `n` yields straight from the backend: none for an
      invalid name, a failed search or conversion, or an ABI `set_abi` rejects; otherwise the
      serializer built from the patched ABI. */
  function Resolved(n: Name, src: AbiSource): (r: Option<Patched>)
    ensures !Good(n) ==> r.None?
    ensures r.Some? ==> src.setAbiAccepts(r.value.abi)
    ensures r.Some? && r.value.abiDefUnpacker ==> n == SystemAccount
  {
    if !Good(n) then None
    else match FetchAbi(n, src)
      case None => None
      case Some(abi) =>
        var s := PatchSetabi(n, abi);
        if src.setAbiAccepts(s.abi) then Some(s) else None
  }

  /** A cache entry (the account is its key in the map). */
  datatype CacheEntry = CacheEntry(lastAccessed: nat, serializer: Patched)

  /** `v` is an entry with the smallest `last_accessed`: the first one of the by-access index. */
  predicate IsLeastRecent(m: map<Name, CacheEntry>, v: Name) {
    v in m && forall n :: n in m ==> m[v].lastAccessed <= m[n].lastAccessed
  }

  /** What `purge_abi_cache` may leave: the cache as it was while it is below capacity (or
      empty), and otherwise the cache without one least recently accessed entry. */
  ghost predicate Purged(before: map<Name, CacheEntry>, after: map<Name, CacheEntry>, capacity: nat) {
    if |before| < capacity || before == map[] then after == before
    else exists v :: IsLeastRecent(before, v) && after == before - {v}
  }

  /** If account `n` is cached, its serializer is the one a direct lookup yields. */
  ghost predicate AgreesAt(m: map<Name, CacheEntry>, src: AbiSource, n: Name) {
    n in m ==> Resolved(n, src) == Some(m[n].serializer)
  }

  /** Every cached serializer is the one a direct lookup of its account yields. */
  ghost predicate Agrees(m: map<Name, CacheEntry>, src: AbiSource) {
    forall n :: AgreesAt(m, src, n)
  }

  /** Purging only removes entries, so it keeps the cache agreeing with the backend. */
  lemma PurgedAgrees(before: map<Name, CacheEntry>, after: map<Name, CacheEntry>, capacity: nat, src: AbiSource)
    requires Purged(before, after, capacity)
    ensures Agrees(before, src) ==> Agrees(after, src)
  {
    if Agrees(before, src) && !(|before| < capacity || before == map[]) {
      var v :| IsLeastRecent(before, v) && after == before - {v};
      forall k ensures AgreesAt(after, src, k) {
        assert AgreesAt(before, src, k);
      }
    }
  }

  /** Refreshing or inserting an entry whose serializer is the resolved one keeps the cache
      agreeing with the backend. */
  lemma UpdateAgrees(m: map<Name, CacheEntry>, src: AbiSource, n: Name, e: CacheEntry)
    requires Resolved(n, src) == Some(e.serializer)
    ensures Agrees(m, src) ==> Agrees(m[n := e], src)
  {
    if Agrees(m, src) {
      var updated := m[n := e];
      forall k ensures AgreesAt(updated, src, k) {
        assert AgreesAt(m, src, k);
      }
    }
  }

  /** The size the cache never exceeds once a lookup returns: its capacity, except that a
      capacity of 0 still lets the one entry inserted after the (empty) purge stay. */
  function Bound(capacity: nat): nat {
    if capacity == 0 then 1 else capacity
  }

  /** Every non-empty cache has an entry with minimal `last_accessed`. */
  lemma {:induction false} LeastRecentExists(m: map<Name, CacheEntry>)
    requires m != map[]
    ensures exists v :: IsLeastRecent(m, v)
    decreases |m|
  {
    var k :| k in m;
    var rest := m - {k};
    if rest == map[] {
      forall n | n in m ensures m[k].lastAccessed <= m[n].lastAccessed {
        assert n !in rest;
      }
      assert IsLeastRecent(m, k);
    } else {
      assert |rest.Keys| < |m.Keys| by { assert rest.Keys == m.Keys - {k}; }
      LeastRecentExists(rest);
      var v :| IsLeastRecent(rest, v);
      var w := if m[k].lastAccessed <= m[v].lastAccessed then k else v;
      forall n | n in m ensures m[w].lastAccessed <= m[n].lastAccessed {
        if n != k { assert n in rest; }
      }
      assert IsLeastRecent(m, w);
    }
  }

  /** Purging and then inserting an absent account keeps the cache within its bound. */
  lemma PurgeThenInsertWithinBound(m: map<Name, CacheEntry>, p: map<Name, CacheEntry>, capacity: nat,
                                   n: Name, e: CacheEntry)
    requires |m| <= Bound(capacity) && n !in m
    requires Purged(m, p, capacity)
    ensures |p[n := e]| <= Bound(capacity)
    ensures p.Keys <= m.Keys && |m| - 1 <= |p|
  {
    if |m| < capacity || m == map[] {
      assert p == m;
    } else {
      var v :| IsLeastRecent(m, v) && p == m - {v};
      assert p.Keys == m.Keys - {v};
      assert |p.Keys| == |m.Keys| - 1;
    }
    assert n !in p;
    assert p[n := e].Keys == p.Keys + {n};
    assert |p[n := e].Keys| == |p.Keys| + 1;
  }

  class AbiSerializerCache {
    var entries: map<Name, CacheEntry>
    /** `abi_cache_size` */
    const capacity: nat
    /** The clock that `fc::time_point::now()` reads. */
    const clock: Clock

    /** The cache stays within its bound, every timestamp lies in the past of the clock,
        and only the system account's serializer carries the "abi_def" unpacker. */
    ghost predicate Valid()
      reads this, clock
    {
      && |entries| <= Bound(capacity)
      && (forall n :: n in entries ==> entries[n].lastAccessed < clock.time)
      && (forall n :: n in entries && entries[n].serializer.abiDefUnpacker ==> n == SystemAccount)
    }

    constructor (capacity: nat, clock: Clock)
      ensures Valid()
      ensures entries == map[] && this.capacity == capacity && this.clock == clock
    {
      this.entries := map[];
      this.capacity := capacity;
      this.clock := clock;
    }

    /** `purge_abi_cache`: a no-op below capacity, otherwise erases one least recently
        accessed entry. */
    method Purge()
      requires Valid()
      modifies this`entries
      ensures Valid()
      ensures Purged(old(entries), entries, capacity)
    {
      if |entries| < capacity {
        return;
      }
      if entries != map[] {
        LeastRecentExists(entries);
        var v :| IsLeastRecent(entries, v);
        assert (entries - {v}).Keys == entries.Keys - {v};
        entries := entries - {v};
      }
    }

    /** `get_abi_serializer`: a hit refreshes the entry's timestamp and returns its
        serializer; a miss fetches and converts the account's ABI, purges, and inserts a
        serializer built from the (patched) ABI; every failure returns None. */
    method Get(n: Name, src: AbiSource) returns (r: Option<Patched>)
      requires Valid()
      modifies this`entries, clock`time
      ensures Valid()
      ensures r.Some? && r.value.abiDefUnpacker ==> n == SystemAccount
      // an invalid name is never looked up
      ensures !Good(n) ==> r == None && entries == old(entries) && clock.time == old(clock.time)
      // hit: only the entry's timestamp changes
      ensures Good(n) && n in old(entries) ==>
                && r == Some(old(entries)[n].serializer)
                && entries == old(entries)[n := CacheEntry(old(clock.time), old(entries)[n].serializer)]
                && clock.time == old(clock.time) + 1
      // miss whose search or conversion fails: the cache is untouched
      ensures Good(n) && n !in old(entries) && FetchAbi(n, src).None? ==>
                r == None && entries == old(entries) && clock.time == old(clock.time)
      // miss with an ABI: purge, then insert unless `set_abi` throws
      ensures Good(n) && n !in old(entries) && FetchAbi(n, src).Some? ==>
                var s := PatchSetabi(n, FetchAbi(n, src).value);
                && clock.time == old(clock.time) + 1
                && (src.setAbiAccepts(s.abi) ==>
                      r == Some(s) && exists p :: Purged(old(entries), p, capacity)
                                                  && entries == p[n := CacheEntry(old(clock.time), s)])
                && (!src.setAbiAccepts(s.abi) ==> r == None && Purged(old(entries), entries, capacity))
      // a cache that agrees with the backend keeps agreeing and answers as a direct lookup
      ensures Agrees(old(entries), src) ==> Agrees(entries, src) && r == Resolved(n, src)
    {
      if !Good(n) {
        return None;
      }
      if n in entries {
        var t := clock.Now();
        var e := entries[n];
        if Agrees(entries, src) {
          assert AgreesAt(entries, src, n);
          UpdateAgrees(entries, src, n, e.(lastAccessed := t));
        }
        entries := entries[n := e.(lastAccessed := t)];
        return Some(e.serializer);
      }
      r := FetchAndInsert(n, src);
    }

    /** The miss path of `get_abi_serializer`: fetch and convert the account's ABI, purge,
        and insert the serializer unless `set_abi` throws. */
    method FetchAndInsert(n: Name, src: AbiSource) returns (r: Option<Patched>)
      requires Valid() && Good(n) && n !in entries
      modifies this`entries, clock`time
      ensures Valid()
      ensures r.Some? && r.value.abiDefUnpacker ==> n == SystemAccount
      ensures FetchAbi(n, src).None? ==> r == None && entries == old(entries) && clock.time == old(clock.time)
      ensures FetchAbi(n, src).Some? ==>
                var s := PatchSetabi(n, FetchAbi(n, src).value);
                && clock.time == old(clock.time) + 1
                && (src.setAbiAccepts(s.abi) ==>
                      r == Some(s) && exists p :: Purged(old(entries), p, capacity)
                                                  && entries == p[n := CacheEntry(old(clock.time), s)])
                && (!src.setAbiAccepts(s.abi) ==> r == None && Purged(old(entries), entries, capacity))
      ensures Agrees(old(entries), src) ==> Agrees(entries, src) && r == Resolved(n, src)
    {
      var found := SearchAbiByAccount(src.search(n));
      if found.None? {
        return None;
      }
      var abi := src.convert(found.value);
      if abi.None? {
        return None;
      }
      ghost var before := entries;
      Purge();
      PurgeThenInsertWithinBound(before, entries, capacity, n, CacheEntry(clock.time, PatchSetabi(n, abi.value)));
      PurgedAgrees(before, entries, capacity, src);
      var t := clock.Now();
      var serializer := PatchSetabi(n, abi.value);
      if !src.setAbiAccepts(serializer.abi) {
        return None;
      }
      UpdateAgrees(entries, src, n, CacheEntry(t, serializer));
      entries := entries[n := CacheEntry(t, serializer)];
      r := Some(serializer);
    }
  }

  /** A miss below capacity only adds the new entry. */
  lemma InsertBelowCapacity(before: map<Name, CacheEntry>, after: map<Name, CacheEntry>, capacity: nat,
                            n: Name, e: CacheEntry)
    requires |before| < capacity
    requires exists p :: Purged(before, p, capacity) && after == p[n := e]
    ensures after == before[n := e]
  {
  }

  /** A miss at capacity replaces the unique least recently accessed entry by the new one. */
  lemma InsertEvicting(before: map<Name, CacheEntry>, after: map<Name, CacheEntry>, capacity: nat,
                       v: Name, n: Name, e: CacheEntry)
    requires |before| >= capacity && v in before && n !in before
    requires forall k :: k in before && k != v ==> before[v].lastAccessed < before[k].lastAccessed
    requires exists p :: Purged(before, p, capacity) && after == p[n := e]
    ensures after == (before - {v})[n := e]
    ensures n in after && v !in after && forall k :: k in before && k != v ==> k in after
  {
    var p :| Purged(before, p, capacity) && after == p[n := e];
    var w :| IsLeastRecent(before, w) && p == before - {w};
    assert w == v;
  }

  lemma SourceAlwaysFinds(src: AbiSource, found: SearchResponse, abi: AbiDef, n: Name)
    requires found == SearchResponse(200, Some(SearchBody(1, [Hit(Some(AbiVariant("{}")))])))
    requires abi == AbiDef("eosio::abi/1.0", [])
    requires src.search(n) == found && src.convert(AbiVariant("{}")) == Some(abi)
    requires src.setAbiAccepts(abi)
    ensures FetchAbi(n, src) == Some(abi) && PatchSetabi(n, abi) == Patched(abi, false)
    ensures src.setAbiAccepts(PatchSetabi(n, abi).abi)
  {
  }

  /** Looking up two new accounts in an empty cache of capacity 2 inserts both, stamped in
      the order they were looked up. */
  method LookUpBoth(cache: AbiSerializerCache, src: AbiSource, a: Name, b: Name, ghost e: Patched)
    requires cache.Valid() && cache.capacity == 2 && cache.entries == map[] && cache.clock.time == 0
    requires Good(a) && Good(b) && a != b
    requires FetchAbi(a, src) == Some(e.abi) && PatchSetabi(a, e.abi) == e && src.setAbiAccepts(e.abi)
    requires FetchAbi(b, src) == Some(e.abi) && PatchSetabi(b, e.abi) == e
    modifies cache`entries, cache.clock`time
    ensures cache.Valid() && cache.clock.time == 2
    ensures cache.entries == map[a := CacheEntry(0, e), b := CacheEntry(1, e)]
  {
    var r := cache.Get(a, src);
    InsertBelowCapacity(map[], cache.entries, 2, a, CacheEntry(0, e));
    ghost var afterA := cache.entries;
    assert afterA == map[a := CacheEntry(0, e)] && |afterA| == 1;
    assert b !in afterA && cache.clock.time == 1;
    r := cache.Get(b, src);
    InsertBelowCapacity(afterA, cache.entries, 2, b, CacheEntry(1, e));
  }

  /** First half of the scenario below: looking up `a`, `b` and `a` again in an empty cache
      of capacity 2 leaves `b` as the least recently accessed entry. */
  method LookUpTwice(cache: AbiSerializerCache, src: AbiSource, a: Name, b: Name, ghost e: Patched)
    requires cache.Valid() && cache.capacity == 2 && cache.entries == map[] && cache.clock.time == 0
    requires Good(a) && Good(b) && a != b
    requires FetchAbi(a, src) == Some(e.abi) && PatchSetabi(a, e.abi) == e && src.setAbiAccepts(e.abi)
    requires FetchAbi(b, src) == Some(e.abi) && PatchSetabi(b, e.abi) == e
    modifies cache`entries, cache.clock`time
    ensures cache.Valid() && cache.clock.time == 3
    ensures cache.entries.Keys == {a, b}
    ensures cache.entries[a] == CacheEntry(2, e) && cache.entries[b] == CacheEntry(1, e)
  {
    LookUpBoth(cache, src, a, b, e);
    assert a in cache.entries;
    var r := cache.Get(a, src);
  }

  /** Second half of the scenario below: with `b` least recently accessed in a full cache,
      looking up a new account `c` evicts `b` and keeps `a`. */
  method LookUpThird(cache: AbiSerializerCache, src: AbiSource, a: Name, b: Name, c: Name, ghost e: Patched)
    requires cache.Valid() && cache.capacity == 2 && cache.clock.time == 3
    requires cache.entries == map[a := CacheEntry(2, e), b := CacheEntry(1, e)]
    requires Good(c) && a != b && b != c && a != c
    requires FetchAbi(c, src) == Some(e.abi) && PatchSetabi(c, e.abi) == e && src.setAbiAccepts(e.abi)
    modifies cache`entries, cache.clock`time
    ensures cache.entries.Keys == {a, c}
  {
    ghost var before := cache.entries;
    assert before.Keys == {a, b} && |before| == |before.Keys| == 2;
    assert forall k :: k in before && k != b ==> k == a;
    var r := cache.Get(c, src);
    InsertEvicting(before, cache.entries, 2, b, c, CacheEntry(3, e));
  }

  /** The least-recently-used scenario with capacity 2: looking up A, B, A again and then C
      evicts B, not A. */
  method LruScenario(a: Name, b: Name, c: Name) returns (kept: set<Name>)
    requires Good(a) && Good(b) && Good(c)
    requires a != b && b != c && a != c
    ensures a in kept && c in kept && b !in kept
  {
    var clock := new Clock();
    var cache := new AbiSerializerCache(2, clock);
    var found := SearchResponse(200, Some(SearchBody(1, [Hit(Some(AbiVariant("{}")))])));
    var src := AbiSource(n => found, v => Some(AbiDef("eosio::abi/1.0", [])), d => true);
    ghost var abi := AbiDef("eosio::abi/1.0", []);
    SourceAlwaysFinds(src, found, abi, a);
    SourceAlwaysFinds(src, found, abi, b);
    SourceAlwaysFinds(src, found, abi, c);
    ghost var e := Patched(abi, false);
    LookUpTwice(cache, src, a, b, e);
    assert cache.entries == map[a := CacheEntry(2, e), b := CacheEntry(1, e)];
    LookUpThird(cache, src, a, b, c, e);
    kept := cache.entries.Keys;
  }
}
