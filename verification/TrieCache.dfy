/** The trie database: a store with a write-through cache in front of it that is trimmed at random. */
module TrieCache {
  import opened ChainTypes

  type Table = map<Bytes, Bytes>

  datatype CacheState = CacheState(db: Table, cache: Table)

  function Lookup(m: Table, key: Bytes): Option<Bytes> {
    if key in m then Some(m[key]) else None
  }

  /** Puts in order; a later put of the same key wins. */
  function PutAll(m: Table, keys: seq<Bytes>, values: seq<Bytes>): Table
    requires |keys| == |values|
  {
    if keys == [] then m
    else PutAll(m, keys[..|keys| - 1], values[..|keys| - 1])[keys[|keys| - 1] := values[|keys| - 1]]
  }

  // ---------------------------------------------------------------- runs

  /** A completed call and its answer. `ok` says whether the store accepted the write. */
  datatype Event =
    | Got(key: Bytes, answer: Option<Bytes>)
    | Contained(key: Bytes, found: bool)
    | ReadFailed(key: Bytes)
    | Inserted(key: Bytes, value: Bytes, ok: bool)
    | BatchInserted(keys: seq<Bytes>, values: seq<Bytes>, ok: bool)
    | LengthMismatch(keys: seq<Bytes>, values: seq<Bytes>)
    | Flushed

  /** The cache after a successful read of a key. */
  function Warmed(s: CacheState, key: Bytes): Table {
    if key !in s.cache && key in s.db then s.cache[key := s.db[key]] else s.cache
  }

  ghost predicate Step(s: CacheState, e: Event, t: CacheState) {
    match e
    case Got(key, answer) =>
      && answer == (if key in s.cache then Some(s.cache[key]) else Lookup(s.db, key))
      && t == s.(cache := Warmed(s, key))
    case Contained(key, found) =>
      && found == (key in s.cache || key in s.db)
      && t == s.(cache := Warmed(s, key))
    case ReadFailed(key) => key !in s.cache && t == s
    case Inserted(key, value, ok) =>
      t == CacheState(if ok then s.db[key := value] else s.db, s.cache[key := value])
    case BatchInserted(keys, values, ok) =>
      && |keys| == |values|
      && t == CacheState(if ok then PutAll(s.db, keys, values) else s.db, PutAll(s.cache, keys, values))
    case LengthMismatch(keys, values) => |keys| != |values| && t == s
    case Flushed => t.db == s.db && Within(t.cache, s.cache)
  }

  ghost predicate Within(small: Table, big: Table) {
    forall k :: k in small ==> k in big && small[k] == big[k]
  }

  /** Everything cached is what the store holds. */
  ghost predicate Transparent(s: CacheState) {
    Within(s.cache, s.db)
  }

  predicate WriteOk(e: Event) {
    match e
    case Inserted(_, _, ok) => ok
    case BatchInserted(keys, values, ok) => ok && |keys| == |values|
    case _ => true
  }

  /** The same calls on the store alone. */
  function StoreAlone(db: Table, es: seq<Event>): Table
    requires forall i :: 0 <= i < |es| ==> WriteOk(es[i])
  {
    if es == [] then db
    else
      var m := StoreAlone(db, es[..|es| - 1]);
      match es[|es| - 1]
      case Inserted(key, value, _) => m[key := value]
      case BatchInserted(keys, values, _) => assert WriteOk(es[|es| - 1]); PutAll(m, keys, values)
      case _ => m
  }

  /** The answer of a call is the answer of the given table. */
  ghost predicate AnsweredBy(m: Table, e: Event) {
    match e
    case Got(key, answer) => answer == Lookup(m, key)
    case Contained(key, found) => found == (key in m)
    case _ => true
  }

  ghost predicate IsRun(states: seq<CacheState>, es: seq<Event>) {
    |states| == |es| + 1 && forall i :: 0 <= i < |es| ==> Step(states[i], es[i], states[i + 1])
  }

  lemma {:induction false} PutAllWithin(small: Table, big: Table, keys: seq<Bytes>, values: seq<Bytes>)
    requires |keys| == |values| && Within(small, big)
    ensures Within(PutAll(small, keys, values), PutAll(big, keys, values))
    decreases |keys|
  {
    if keys != [] {
      PutAllWithin(small, big, keys[..|keys| - 1], values[..|keys| - 1]);
    }
  }

  lemma StepKeepsTransparent(s: CacheState, e: Event, t: CacheState)
    requires Step(s, e, t) && Transparent(s) && WriteOk(e)
    ensures Transparent(t) && AnsweredBy(s.db, e)
  {
    if e.BatchInserted? {
      PutAllWithin(s.cache, s.db, e.keys, e.values);
    }
  }

  /** Over every run whose writes succeed, every answer is the one the store alone would give, whatever the
      flushes evicted. */
  lemma {:induction false} CacheIsTransparent(states: seq<CacheState>, es: seq<Event>)
    requires IsRun(states, es) && Transparent(states[0]) && forall i :: 0 <= i < |es| ==> WriteOk(es[i])
    ensures Transparent(states[|es|]) && states[|es|].db == StoreAlone(states[0].db, es)
    ensures forall i :: 0 <= i < |es| ==> AnsweredBy(StoreAlone(states[0].db, es[..i]), es[i])
    decreases |es|
  {
    if es != [] {
      var front := es[..|es| - 1];
      CacheIsTransparent(states[..|es|], front);
      StepKeepsTransparent(states[|es| - 1], es[|es| - 1], states[|es|]);
      forall i | 0 <= i < |es|
        ensures AnsweredBy(StoreAlone(states[0].db, es[..i]), es[i])
      {
        if i < |front| {
          assert front[..i] == es[..i] && front[i] == es[i];
        }
      }
    }
  }

  /** Whether the call leaves the key in the cache: a write of it, or a read that found it. */
  predicate Fetches(e: Event, key: Bytes) {
    match e
    case Got(k, answer) => k == key && answer.Some?
    case Contained(k, found) => k == key && found
    case Inserted(k, _, _) => k == key
    case BatchInserted(keys, values, _) => key in keys
    case _ => false
  }

  lemma FetchedIsCached(s: CacheState, e: Event, t: CacheState, key: Bytes)
    requires Step(s, e, t)
    ensures Fetches(e, key) ==> key in t.cache
    ensures key in s.cache && !e.Flushed? ==> key in t.cache
  {
    if e.BatchInserted? {
      PutAllKeys(s.cache, e.keys, e.values, key);
    }
  }

  /** From a write of a key or a read that found it to the next flush, the store is not asked for the key again: no
      read of it fails, whatever the store does. */
  lemma {:induction false} CachedUntilFlush(states: seq<CacheState>, es: seq<Event>, i: nat, j: nat, key: Bytes)
    requires IsRun(states, es) && i < j <= |es| && Fetches(es[i], key)
    requires forall k :: i < k < j ==> !es[k].Flushed?
    ensures key in states[j].cache && (j < |es| ==> es[j] != ReadFailed(key))
    decreases j
  {
    hide Fetches;
    if i + 1 < j {
      CachedUntilFlush(states, es, i, j - 1, key);
    }
    assert Step(states[j - 1], es[j - 1], states[j]);
    FetchedIsCached(states[j - 1], es[j - 1], states[j], key);
    if j < |es| {
      assert Step(states[j], es[j], states[j + 1]);
    }
  }

  // ---------------------------------------------------------------- a write the store refuses

  lemma {:induction false} PutAllKeys(m: Table, keys: seq<Bytes>, values: seq<Bytes>, k: Bytes)
    requires |keys| == |values|
    ensures k in PutAll(m, keys, values) <==> k in m || k in keys
    ensures k in keys ==>
              k in PutAll(map[], keys, values) && PutAll(m, keys, values)[k] == PutAll(map[], keys, values)[k]
    ensures k in m && k !in keys ==> PutAll(m, keys, values)[k] == m[k]
    decreases |keys|
  {
    if keys != [] {
      var last := |keys| - 1;
      PutAllKeys(m, keys[..last], values[..last], k);
      PutAllKeys(map[], keys[..last], values[..last], k);
      assert keys == keys[..last] + [keys[last]];
    }
  }

  /** The cache is filled before the store is asked. After a refused write it stays transparent exactly when the
      store already held every value written. */
  lemma RefusedWriteTransparentIff(s: CacheState, keys: seq<Bytes>, values: seq<Bytes>, t: CacheState)
    requires |keys| == |values| && Transparent(s) && Step(s, BatchInserted(keys, values, false), t)
    ensures Transparent(t) <==> Within(PutAll(map[], keys, values), s.db)
  {
    forall k
      ensures k in t.cache <==> k in s.cache || k in keys
      ensures k in PutAll(map[], keys, values) <==> k in keys
      ensures k in keys ==> t.cache[k] == PutAll(map[], keys, values)[k]
      ensures k in s.cache && k !in keys ==> t.cache[k] == s.cache[k]
    {
      PutAllKeys(s.cache, keys, values, k);
      PutAllKeys(map[], keys, values, k);
    }
  }

  // ---------------------------------------------------------------- random eviction

  lemma RemoveAt<T>(s: seq<T>, i: nat)
    requires NoDup(s) && i < |s|
    ensures var t := s[..i] + s[i + 1..]; NoDup(t) && s[i] !in t && forall x :: x in t ==> x in s
  {
  }

  /** `None` is the panic of an empty list or an empty range. Whatever the generator draws, the result is
      duplicate-free and has the requested length; the last key is never drawn. */
  method RandRemoveList<T>(keys: seq<T>, num: nat) returns (r: Option<seq<T>>)
    requires NoDup(keys)
    ensures r.None? <==> |keys| == 0 || num >= |keys|
    ensures r.Some? ==> |r.value| == num && NoDup(r.value)
    ensures r.Some? ==> forall x :: x in r.value ==> x in keys[..|keys| - 1]
  {
    if |keys| == 0 {
      return None;
    }
    var len := |keys| - 1;
    var idxList: seq<nat> := seq(len, i => i);
    var ret: seq<T> := [];
    ghost var drawn: seq<nat> := [];
    for n := 0 to num
      invariant len == |idxList| == |keys| - 1 - n
      invariant |ret| == |drawn| == n
      invariant NoDup(idxList) && NoDup(drawn)
      invariant forall i: nat :: i in idxList ==> i < |keys| - 1
      invariant forall i: nat :: i in drawn ==> i < |keys| - 1 && i !in idxList
      invariant forall i :: 0 <= i < n ==> drawn[i] in drawn && ret[i] == keys[drawn[i]]
    {
      if len == 0 {
        return None;
      }
      var tmp :| 0 <= tmp < len;
      RemoveAt(idxList, tmp);
      var idx := idxList[tmp];
      assert idx in idxList;
      idxList := idxList[..tmp] + idxList[tmp + 1..];
      drawn := drawn + [idx];
      ret := ret + [keys[idx]];
      len := len - 1;
    }
    return Some(ret);
  }

  lemma EvictedSize(cache: Table, keys: seq<Bytes>, list: seq<Bytes>)
    requires Elements(keys) == cache.Keys && NoDup(list) && forall x :: x in list ==> x in keys
    ensures |cache - Elements(list)| == |cache| - |list|
  {
    NoDupSize(list);
    assert Elements(list) <= cache.Keys;
    assert (cache - Elements(list)).Keys == cache.Keys - Elements(list);
  }

  // ---------------------------------------------------------------- the object

  class RocksTrieDB {
    const cacheSize: nat
    var db: Table
    var cache: Table

    constructor (cacheSize: nat, db: Table)
      ensures this.cacheSize == cacheSize && State() == CacheState(db, map[]) && Transparent(State())
    {
      this.cacheSize := cacheSize;
      this.db := db;
      cache := map[];
    }

    ghost function State(): CacheState
      reads this
    {
      CacheState(db, cache)
    }

    /** `readable` says whether the store answers a read. */
    method Get(key: Bytes, readable: bool) returns (r: Option<Option<Bytes>>)
      modifies this`cache
      ensures r.Some? ==> Step(old(State()), Got(key, r.value), State())
      ensures r.None? ==> !readable && Step(old(State()), ReadFailed(key), State())
    {
      if key !in cache {
        if !readable {
          return None;
        }
        var ret := Lookup(db, key);
        if ret.Some? {
          cache := cache[key := ret.value];
        }
        return Some(ret);
      }
      return Some(Some(cache[key]));
    }

    method Contains(key: Bytes, readable: bool) returns (r: Option<bool>)
      modifies this`cache
      ensures r.Some? ==> Step(old(State()), Contained(key, r.value), State())
      ensures r.None? ==> !readable && Step(old(State()), ReadFailed(key), State())
    {
      if key in cache {
        return Some(true);
      }
      if !readable {
        return None;
      }
      if key in db {
        cache := cache[key := db[key]];
        return Some(true);
      }
      return Some(false);
    }

    method Insert(key: Bytes, value: Bytes, writable: bool) returns (ok: bool)
      modifies this
      ensures ok == writable && Step(old(State()), Inserted(key, value, ok), State())
    {
      cache := cache[key := value];
      if writable {
        db := db[key := value];
      }
      return writable;
    }

    method InsertBatch(keys: seq<Bytes>, values: seq<Bytes>, writable: bool) returns (ok: bool)
      modifies this
      ensures ok == (writable && |keys| == |values|)
      ensures |keys| != |values| ==> Step(old(State()), LengthMismatch(keys, values), State())
      ensures |keys| == |values| ==> Step(old(State()), BatchInserted(keys, values, ok), State())
    {
      if |keys| != |values| {
        return false;
      }
      var batch := db;
      for i := 0 to |keys|
        invariant db == old(db)
        invariant batch == PutAll(old(db), keys[..i], values[..i])
        invariant cache == PutAll(old(cache), keys[..i], values[..i])
      {
        assert keys[..i + 1][..i] == keys[..i] && values[..i + 1][..i] == values[..i];
        batch := batch[keys[i] := values[i]];
        cache := cache[keys[i] := values[i]];
      }
      assert keys[..|keys|] == keys && values[..|keys|] == values;
      if writable {
        db := batch;
      }
      return writable;
    }

    /** Trims the cache to its limit. It panics exactly when the limit is zero and there is something to evict. */
    method Flush() returns (panicked: bool)
      modifies this`cache
      ensures panicked <==> cacheSize == 0 && |old(cache)| > 0
      ensures panicked ==> cache == old(cache)
      ensures Step(old(State()), Flushed, State())
      ensures !panicked ==> |cache| == if |old(cache)| > cacheSize then cacheSize else |old(cache)|
    {
      if |cache| <= cacheSize {
        return false;
      }
      var keys := CacheKeys();
      var list := RandRemoveList(keys, |cache| - cacheSize);
      if list.None? {
        return true;
      }
      EvictedSize(cache, keys, list.value);
      Evict(list.value);
      return false;
    }

    method Evict(list: seq<Bytes>)
      modifies this`cache
      ensures cache == old(cache) - Elements(list)
    {
      for i := 0 to |list|
        invariant cache == old(cache) - Elements(list[..i])
      {
        assert Elements(list[..i + 1]) == Elements(list[..i]) + {list[i]};
        cache := cache - {list[i]};
      }
      assert list[..|list|] == list;
    }

    /** The keys in the order the cache happens to list them. */
    method CacheKeys() returns (keys: seq<Bytes>)
      ensures NoDup(keys) && Elements(keys) == cache.Keys && |keys| == |cache|
    {
      keys := [];
      var rest := cache.Keys;
      while rest != {}
        invariant NoDup(keys) && rest !! Elements(keys) && rest + Elements(keys) == cache.Keys
        decreases rest
      {
        var k :| k in rest;
        assert k !in Elements(keys);
        keys := keys + [k];
        rest := rest - {k};
      }
      NoDupSize(keys);
    }
  }
}
