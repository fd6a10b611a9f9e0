/**
  The embedding cache of the Rust core: a bounded map with a queue of keys, most
  recently used first, and entries that expire.
*/
module EmbeddingCache {
  import opened Basics
  import opened ChainCache

  datatype Cached<V> = Cached(vector: V, createdAt: int)

  /** The queue and the map. */
  datatype Store<V> = Store(queue: seq<string>, at: map<string, Cached<V>>)

  /** The queue lists every key once. */
  ghost predicate Listed<V>(s: Store<V>) { Wellformed(Contents(s.queue, s.at)) }

  predicate Fresh<V>(c: Cached<V>, now: int, ttl: int) { now - c.createdAt < ttl }

  function Drop<V>(s: Store<V>, key: string): Store<V> { Store(Without(s.queue, key), s.at - {key}) }

  function AfterRead<V>(s: Store<V>, key: string, now: int, ttl: int): Store<V> {
    if key !in s.at then s
    else if Fresh(s.at[key], now, ttl) then Store([key] + Without(s.queue, key), s.at)
    else Drop(s, key)
  }

  /** The store before the insertion: the key off the queue, and the last key of the queue gone if the map is full. */
  function MadeRoom<V>(s: Store<V>, key: string, maxSize: nat): Store<V> {
    var rest := Without(s.queue, key);
    if |s.at| >= maxSize && |rest| > 0 then Store(rest[..|rest| - 1], s.at - {rest[|rest| - 1]})
    else Store(rest, s.at)
  }

  function AfterPut<V>(s: Store<V>, key: string, value: V, now: int, maxSize: nat): Store<V> {
    if maxSize == 0 then s
    else
      var r := MadeRoom(s, key, maxSize);
      Store([key] + r.queue, r.at[key := Cached(value, now)])
  }

  class EmbeddingCache<V(==)> {
    const maxSize: nat
    const ttl: int
    var cache: map<string, Cached<V>>
    var accessOrder: seq<string>

    function Value(): Store<V>
      reads this
    {
      Store(accessOrder, cache)
    }

    ghost predicate Valid()
      reads this
    {
      Listed(Value()) && |accessOrder| <= maxSize
    }

    constructor (maxSize: nat, ttlSeconds: nat)
      ensures Valid() && Value() == Store([], map[]) && this.maxSize == maxSize && ttl == ttlSeconds * 1000
    {
      this.maxSize, ttl, cache, accessOrder := maxSize, ttlSeconds * 1000, map[], [];
    }

    method Get(key: string, now: int) returns (r: Option<V>)
      requires Valid()
      modifies this
      ensures Valid() && Value() == AfterRead(old(Value()), key, now, ttl)
      ensures r == if key in old(cache) && now - old(cache)[key].createdAt < ttl then Some(old(cache)[key].vector) else None
      ensures r.Some? ==> cache == old(cache) && accessOrder == [key] + Without(old(accessOrder), key)
      ensures r == None ==> cache == old(cache) - {key} && accessOrder == Without(old(accessOrder), key)
    {
      hide Wellformed, Without;
      if key in cache {
        Off(Value(), key);
        if now - cache[key].createdAt < ttl {
          OnFront(Value(), key, cache[key]);
          assert cache[key := cache[key]] == cache;
          accessOrder := Without(accessOrder, key);
          accessOrder := [key] + accessOrder;
          return Some(cache[key].vector);
        }
        cache := cache - {key};
        accessOrder := Without(accessOrder, key);
        return None;
      }
      Absent(Value(), key);
      assert cache - {key} == cache;
      return None;
    }

    method Put(key: string, value: V, now: int)
      requires Valid()
      modifies this
      ensures Valid() && Value() == AfterPut(old(Value()), key, value, now, maxSize)
    {
      hide Wellformed, Without;
      if maxSize == 0 { return; }
      PutKeeps(Value(), key, value, now, maxSize);
      CountKeys(Value());
      if key in cache { accessOrder := Without(accessOrder, key); } else { Absent(Value(), key); }
      if |cache| >= maxSize {
        if |accessOrder| > 0 {
          var lru := accessOrder[|accessOrder| - 1];
          accessOrder := accessOrder[..|accessOrder| - 1];
          cache := cache - {lru};
        }
      }
      cache := cache[key := Cached(value, now)];
      accessOrder := [key] + accessOrder;
    }

    /** The expired keys are collected first, in any order. */
    method EvictExpired(now: int) returns (count: nat)
      requires Valid()
      modifies this
      ensures Valid()
      ensures var expired := set k | k in old(cache) && now - old(cache)[k].createdAt >= ttl;
        Value() == Store(Dropping(old(accessOrder), expired), old(cache) - expired) && count == |expired|
    {
      hide Listed, Without, Dropping;
      ghost var start := Value();
      var expired := set k | k in cache && now - cache[k].createdAt >= ttl;
      count := |expired|;
      ghost var gone: set<string> := {};
      DroppingNone(accessOrder);
      while expired != {}
        invariant Valid() && gone !! expired && expired <= cache.Keys
        invariant gone + expired == set k | k in start.at && now - start.at[k].createdAt >= ttl
        invariant Value() == Store(Dropping(start.queue, gone), start.at - gone)
        decreases |expired|
      {
        var key :| key in expired;
        Off(Value(), key);
        DroppingMore(start.queue, gone, key);
        assert start.at - gone - {key} == start.at - (gone + {key});
        cache := cache - {key};
        accessOrder := Without(accessOrder, key);
        expired := expired - {key};
        gone := gone + {key};
      }
    }
  }

  // ---------- The queue stays a duplicate-free listing ----------

  lemma CountKeys<V>(s: Store<V>)
    requires Listed(s)
    ensures |s.at| == |s.queue|
  {
    ListingSize(s.queue, s.at.Keys);
  }

  lemma {:induction false} ListingSize(queue: seq<string>, keys: set<string>)
    requires Distinct(queue) && forall k :: k in queue <==> k in keys
    ensures |queue| == |keys|
  {
    if |queue| == 0 {
      assert keys == {};
    } else {
      assert queue == [queue[0]] + queue[1..];
      ListingSize(queue[1..], keys - {queue[0]});
    }
  }

  lemma Off<V>(s: Store<V>, key: string)
    requires Listed(s) && key in s.at
    ensures Listed(Drop(s, key)) && |Without(s.queue, key)| == |s.queue| - 1
  {
    WithoutMembers(s.queue, key);
    WithoutLength(s.queue, key);
  }

  lemma Absent<V>(s: Store<V>, key: string)
    requires Listed(s) && key !in s.at
    ensures Without(s.queue, key) == s.queue
  {
    WithoutAbsent(s.queue, key);
  }

  lemma OnFront<V>(s: Store<V>, key: string, c: Cached<V>)
    requires Listed(s)
    ensures Listed(Store([key] + Without(s.queue, key), s.at[key := c]))
  {
    hide Without;
    WithoutMembers(s.queue, key);
    var rest := Without(s.queue, key);
    assert forall i :: 0 <= i < |rest| ==> rest[i] in rest;
  }

  lemma OffOrAbsent<V>(s: Store<V>, key: string)
    requires Listed(s)
    ensures Listed(Store(Without(s.queue, key), s.at - {key}))
    ensures |Without(s.queue, key)| == |s.queue| - if key in s.at then 1 else 0
  {
    hide Without, Listed;
    if key in s.at {
      Off(s, key);
    } else {
      Absent(s, key);
      assert s.at - {key} == s.at;
    }
  }

  lemma TrimLast<V>(s: Store<V>)
    requires Listed(s) && |s.queue| > 0
    ensures Listed(Store(s.queue[..|s.queue| - 1], s.at - {s.queue[|s.queue| - 1]}))
  {
    var n := |s.queue| - 1;
    assert s.queue == s.queue[..n] + [s.queue[n]];
  }

  lemma MadeRoomOk<V>(s: Store<V>, key: string, maxSize: nat)
    requires Listed(s) && |s.queue| <= maxSize && maxSize > 0
    ensures var r := MadeRoom(s, key, maxSize);
      Listed(Store(r.queue, r.at - {key})) && |r.queue| < maxSize
  {
    hide Without, Listed;
    CountKeys(s);
    OffOrAbsent(s, key);
    var rest := Store(Without(s.queue, key), s.at - {key});
    if |s.at| >= maxSize && |rest.queue| > 0 {
      TrimLast(rest);
      var lru := rest.queue[|rest.queue| - 1];
      assert (s.at - {lru}) - {key} == rest.at - {lru};
    }
  }

  lemma FiledInFront<V>(queue: seq<string>, at: map<string, Cached<V>>, key: string, c: Cached<V>)
    requires Listed(Store(queue, at - {key}))
    ensures Listed(Store([key] + queue, at[key := c]))
  {
    assert forall i :: 0 <= i < |queue| ==> queue[i] in queue;
  }

  /** A put keeps the queue a duplicate-free listing of the keys, no longer than the limit. */
  lemma PutKeeps<V>(s: Store<V>, key: string, value: V, now: int, maxSize: nat)
    requires Listed(s) && |s.queue| <= maxSize
    ensures Listed(AfterPut(s, key, value, now, maxSize)) && |AfterPut(s, key, value, now, maxSize).queue| <= maxSize
  {
    hide Listed, MadeRoom;
    if maxSize > 0 {
      MadeRoomOk(s, key, maxSize);
      var r := MadeRoom(s, key, maxSize);
      FiledInFront(r.queue, r.at, key, Cached(value, now));
    }
  }

  // ---------- Where this is not least-recently-used ----------

  /** A put loses some other key exactly when the map is full and holds another key, its own key present or not. */
  lemma PutLosesAnother<V>(s: Store<V>, key: string, value: V, now: int, maxSize: nat)
    requires Listed(s) && |s.queue| <= maxSize
    ensures (exists other :: other != key && other in s.at && other !in AfterPut(s, key, value, now, maxSize).at)
       <==> |s.at| == maxSize && exists other :: other != key && other in s.at
  {
    hide Without;
    CountKeys(s);
    WithoutMembers(s.queue, key);
    var rest := Without(s.queue, key);
    var after := AfterPut(s, key, value, now, maxSize);
    if |s.at| == maxSize && maxSize > 0 && |rest| > 0 {
      var lost := rest[|rest| - 1];
      assert lost in rest;
      assert lost != key && lost in s.at && lost !in after.at;
    } else {
      assert forall other :: other != key && other in s.at ==> other in rest;
    }
  }

  /** The first `n` keys of the queue and their entries. */
  function Foremost<V>(s: Store<V>, n: nat): Store<V> {
    if |s.queue| <= n then s
    else Store(s.queue[..n], map k | k in s.at && k in s.queue[..n] :: s.at[k])
  }

  /** What a least-recently-used store does: the key is filed in front, and what no longer fits goes. */
  function ExactPut<V>(s: Store<V>, key: string, value: V, now: int, maxSize: nat): Store<V> {
    Foremost(Store([key] + Without(s.queue, key), s.at[key := Cached(value, now)]), maxSize)
  }

  /** A new key in a full map: the last key of the queue makes room for it, whichever comes first. */
  lemma LastGoesEitherWay<V>(s: Store<V>, key: string, c: Cached<V>)
    requires Listed(s) && key !in s.at && |s.queue| > 0
    ensures var n := |s.queue| - 1;
      Foremost(Store([key] + s.queue, s.at[key := c]), n + 1)
        == Store([key] + s.queue[..n], (s.at - {s.queue[n]})[key := c])
  {
    var n := |s.queue| - 1;
    var front := ([key] + s.queue)[..n + 1];
    assert front == [key] + s.queue[..n];
    assert s.queue == s.queue[..n] + [s.queue[n]];
    var kept, m := (s.at - {s.queue[n]})[key := c], s.at[key := c];
    forall k
      ensures k in m && k in front <==> k in kept
    {
      assert k in front <==> k == key || k in s.queue[..n];
    }
  }

  /** The put is the one of a least-recently-used store except when it rewrites a key of a full map that holds other keys. */
  lemma PutIsExactIff<V>(s: Store<V>, key: string, value: V, now: int, maxSize: nat)
    requires Listed(s) && |s.queue| <= maxSize
    ensures AfterPut(s, key, value, now, maxSize) == ExactPut(s, key, value, now, maxSize)
       <==> !(key in s.at && |s.at| == maxSize && maxSize > 1)
  {
    hide Without, Wellformed;
    CountKeys(s);
    var c := Cached(value, now);
    if maxSize == 0 {
      EmptyStore(s);
      Absent(s, key);
    } else if key in s.at {
      QueueDistinct(s);
      WithoutLength(s.queue, key);
      var a, e := AfterPut(s, key, value, now, maxSize), ExactPut(s, key, value, now, maxSize);
      assert e == Store([key] + Without(s.queue, key), s.at[key := c]);
      if |s.at| == maxSize && maxSize > 1 {
        assert |a.queue| < |e.queue|;
      }
    } else {
      Absent(s, key);
      if |s.at| == maxSize { LastGoesEitherWay(s, key, c); }
    }
  }

  lemma QueueDistinct<V>(s: Store<V>)
    requires Listed(s)
    ensures Distinct(s.queue) && forall k :: k in s.queue <==> k in s.at
  {}

  lemma EmptyStore<V>(s: Store<V>)
    requires Listed(s) && |s.queue| == 0
    ensures s == Store([], map[])
  {
    QueueDistinct(s);
    assert s.at == map[];
  }
}
