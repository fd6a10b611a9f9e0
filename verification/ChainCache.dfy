/**
  The in-memory block cache: two insertion-ordered maps used as a least-recently-used
  store, with a running byte estimate.
*/
module ChainCache {
  import opened Basics

  // ---------- Keys ----------

  function MakeKey(chain: string, index: nat): string { chain + ":" + Decimal(index) }

  predicate StartsWith(s: string, prefix: string) { prefix <= s }

  /** The name comes back as what stands before the last colon. */
  lemma KeyShape(c: string, i: nat)
    ensures var k := MakeKey(c, i);
      && |k| > |c| && k[..|c|] == c && k[|c|] == ':' && k[|c| + 1..] == Decimal(i)
      && forall p :: |c| < p < |k| ==> k[p] != ':'
  {
    hide Decimal;
    DecimalDigits(i);
    var d, k := Decimal(i), MakeKey(c, i);
    assert k == (c + ":") + d;
    assert forall p :: |c| < p < |k| ==> k[p] == d[p - |c| - 1];
  }

  /** A key names one chain and one index, colons in the name or not. */
  lemma KeyInjective(c: string, i: nat, d: string, j: nat)
    ensures MakeKey(c, i) == MakeKey(d, j) <==> c == d && i == j
  {
    hide Decimal, MakeKey;
    KeyShape(c, i);
    KeyShape(d, j);
    if MakeKey(c, i) == MakeKey(d, j) { DecimalUnique(i, j); }
  }

  /** Which keys the invalidation of `c` hits: those of `c`, and those of chains named `c`, a colon, and more. */
  lemma PrefixMeaning(c: string, d: string, j: nat)
    ensures StartsWith(MakeKey(d, j), c + ":") <==> d == c || StartsWith(d, c + ":")
  {
    hide Decimal, MakeKey;
    KeyShape(d, j);
    var k, p := MakeKey(d, j), c + ":";
    assert p[|c|] == ':' && p[..|c|] == c;
    assert StartsWith(k, p) ==> p == k[..|p|];
    assert |p| <= |d| ==> k[..|p|] == d[..|p|];
    assert |c| == |d| ==> k[..|p|] == k[..|d|] + [k[|d|]];
  }

  /** For a chain name without a colon, invalidation hits that chain's blocks and no others. */
  lemma PrefixIsChain(c: string, d: string, j: nat)
    requires forall i :: 0 <= i < |d| ==> d[i] != ':'
    ensures StartsWith(MakeKey(d, j), c + ":") <==> d == c
  {
    hide MakeKey;
    PrefixMeaning(c, d, j);
    assert (c + ":")[|c|] == ':';
  }

  // ---------- Contents ----------

  /** An insertion-ordered map: its keys, oldest first, and its entries. */
  datatype Contents<V> = Contents(order: seq<string>, at: map<string, V>)

  function Empty<V>(): Contents<V> { Contents([], map[]) }

  predicate Distinct(keys: seq<string>) {
    forall i, j :: 0 <= i < j < |keys| ==> keys[i] != keys[j]
  }

  ghost predicate Wellformed<V>(c: Contents<V>) {
    Distinct(c.order) && forall k :: k in c.order <==> k in c.at
  }

  function Without(keys: seq<string>, key: string): (r: seq<string>) {
    if |keys| == 0 then []
    else if keys[0] == key then Without(keys[1..], key)
    else [keys[0]] + Without(keys[1..], key)
  }

  /** `key` becomes the newest. */
  function Touch(keys: seq<string>, key: string): seq<string> { Without(keys, key) + [key] }

  function Newest(keys: seq<string>, n: nat): seq<string> {
    if |keys| <= n then keys else keys[|keys| - n..]
  }

  function AfterGet<V>(c: Contents<V>, key: string): Contents<V> {
    if key in c.at then Contents(Touch(c.order, key), c.at) else c
  }

  function AfterSet<V>(c: Contents<V>, key: string, value: V, maxBlocks: nat): Contents<V> {
    var order, at := Touch(c.order, key), c.at[key := value];
    if |order| > maxBlocks then Contents(order[1..], at - {order[0]}) else Contents(order, at)
  }

  lemma {:induction false} WithoutMembers(keys: seq<string>, key: string)
    ensures forall k :: k in Without(keys, key) <==> k in keys && k != key
    ensures Distinct(keys) ==> Distinct(Without(keys, key))
  {
    if |keys| > 0 {
      assert keys == [keys[0]] + keys[1..];
      WithoutMembers(keys[1..], key);
      assert Distinct(keys) ==> keys[0] !in keys[1..] && Distinct(keys[1..]);
    }
  }

  lemma {:induction false} WithoutAbsent(keys: seq<string>, key: string)
    requires key !in keys
    ensures Without(keys, key) == keys
  {
    if |keys| > 0 { WithoutAbsent(keys[1..], key); }
  }

  lemma {:induction false} WithoutLength(keys: seq<string>, key: string)
    requires Distinct(keys) && key in keys
    ensures |Without(keys, key)| == |keys| - 1
  {
    if keys[0] == key {
      WithoutAbsent(keys[1..], key);
    } else {
      assert key in keys[1..];
      WithoutLength(keys[1..], key);
    }
  }

  lemma {:induction false} WithoutConcat(a: seq<string>, b: seq<string>, key: string)
    ensures Without(a + b, key) == Without(a, key) + Without(b, key)
  {
    if |a| == 0 {
      assert a + b == b;
    } else {
      assert (a + b)[0] == a[0] && (a + b)[1..] == a[1..] + b;
      WithoutConcat(a[1..], b, key);
    }
  }

  lemma TouchKeeps<V>(c: Contents<V>, key: string, value: V)
    requires Wellformed(c)
    ensures Wellformed(Contents(Touch(c.order, key), c.at[key := value]))
    ensures |Touch(c.order, key)| == |c.order| + if key in c.at then 0 else 1
  {
    WithoutMembers(c.order, key);
    if key in c.at { WithoutLength(c.order, key); } else { WithoutAbsent(c.order, key); }
    assert forall k :: k in Touch(c.order, key) <==> k in Without(c.order, key) || k == key;
  }

  lemma DropOldestKeeps<V>(c: Contents<V>)
    requires Wellformed(c) && |c.order| > 0
    ensures Wellformed(Contents(c.order[1..], c.at - {c.order[0]}))
  {
    assert c.order == [c.order[0]] + c.order[1..];
    assert c.order[0] !in c.order[1..];
  }

  lemma SetKeeps<V>(c: Contents<V>, key: string, value: V, maxBlocks: nat)
    requires Wellformed(c)
    ensures Wellformed(AfterSet(c, key, value, maxBlocks))
  {
    hide Wellformed, Without;
    TouchKeeps(c, key, value);
    DropOldestKeeps(Contents(Touch(c.order, key), c.at[key := value]));
  }

  // ---------- Least recently used, exactly ----------

  datatype Use<V> = Get(key: string) | Set(key: string, value: V)

  function Apply<V>(c: Contents<V>, use: Use<V>, maxBlocks: nat): Contents<V> {
    match use
    case Get(key) => AfterGet(c, key)
    case Set(key, value) => AfterSet(c, key, value, maxBlocks)
  }

  function Run<V>(uses: seq<Use<V>>, maxBlocks: nat): Contents<V> {
    if |uses| == 0 then Empty()
    else Apply(Run(uses[..|uses| - 1], maxBlocks), uses[|uses| - 1], maxBlocks)
  }

  /** Whether the last use of a run touches its key: a write, or a read that hits. */
  predicate Touches<V>(uses: seq<Use<V>>, maxBlocks: nat)
    requires |uses| > 0
  {
    var last := uses[|uses| - 1];
    last.Set? || last.key in Run(uses[..|uses| - 1], maxBlocks).at
  }

  /** Every key ever used, the most recently used last. */
  function Recency<V>(uses: seq<Use<V>>, maxBlocks: nat): seq<string> {
    if |uses| == 0 then []
    else
      var before := Recency(uses[..|uses| - 1], maxBlocks);
      if Touches(uses, maxBlocks) then Touch(before, uses[|uses| - 1].key) else before
  }

  /** The value last written under each key. */
  function LastWritten<V>(uses: seq<Use<V>>): map<string, V> {
    if |uses| == 0 then map[]
    else
      var before, last := LastWritten(uses[..|uses| - 1]), uses[|uses| - 1];
      if last.Set? then before[last.key := last.value] else before
  }

  lemma NewestOf(gone: seq<string>, kept: seq<string>, n: nat)
    requires |kept| == n || (gone == [] && |kept| < n)
    ensures Newest(gone + kept, n) == kept
  {}

  lemma TouchDistinct(keys: seq<string>, key: string)
    requires Distinct(keys)
    ensures Distinct(Touch(keys, key))
  {
    hide Without;
    WithoutMembers(keys, key);
    var rest := Without(keys, key);
    forall i | 0 <= i < |rest|
      ensures rest[i] != key
    {
      assert rest[i] in rest;
    }
  }

  /** Touching a key in the whole list and in its newest part. */
  lemma NewestTouch(all: seq<string>, key: string, n: nat)
    requires Distinct(all) && n > 0
    ensures |Newest(all, n)| <= n
    ensures var kept := Newest(all, n);
      && (key in kept ==> Newest(Touch(all, key), n) == Touch(kept, key))
      && (key !in kept && |kept| < n ==> Newest(Touch(all, key), n) == kept + [key])
      && (key !in kept && |kept| == n ==> Newest(Touch(all, key), n) == kept[1..] + [key])
  {
    var kept := Newest(all, n);
    var gone := all[..|all| - |kept|];
    assert all == gone + kept;
    hide Newest, Distinct, Touch;
    if key in kept {
      TouchKept(gone, kept, key, n);
    } else {
      TouchGone(gone, kept, key, n);
    }
  }

  lemma TouchKept(gone: seq<string>, kept: seq<string>, key: string, n: nat)
    requires Distinct(gone + kept) && key in kept && (|kept| == n || (gone == [] && |kept| < n))
    ensures Newest(Touch(gone + kept, key), n) == Touch(kept, key)
  {
    hide Without, Newest, Distinct;
    WithoutConcat(gone, kept, key);
    DistinctParts(gone, kept, key);
    WithoutAbsent(gone, key);
    assert Touch(gone + kept, key) == gone + Touch(kept, key);
    NewestOf(gone, Touch(kept, key), n);
  }

  lemma TouchGone(gone: seq<string>, kept: seq<string>, key: string, n: nat)
    requires key !in kept && (|kept| == n || (gone == [] && |kept| < n)) && n > 0
    ensures Newest(Touch(gone + kept, key), n) == if |kept| < n then kept + [key] else kept[1..] + [key]
  {
    hide Without, Newest;
    WithoutConcat(gone, kept, key);
    WithoutAbsent(kept, key);
    if |kept| < n {
      WithoutAbsent([], key);
      assert Touch(gone + kept, key) == [] + (kept + [key]);
      NewestOf([], kept + [key], n);
    } else {
      assert kept == [kept[0]] + kept[1..];
      assert Touch(gone + kept, key) == (Without(gone, key) + [kept[0]]) + (kept[1..] + [key]);
      NewestOf(Without(gone, key) + [kept[0]], kept[1..] + [key], n);
    }
  }

  lemma DistinctParts(a: seq<string>, b: seq<string>, key: string)
    requires Distinct(a + b) && key in b
    ensures key !in a && |Without(b, key)| == |b| - 1
  {
    var all := a + b;
    var j :| 0 <= j < |b| && b[j] == key;
    assert all[|a| + j] == key;
    assert forall i :: 0 <= i < |a| ==> all[i] == a[i];
    assert forall i :: 0 <= i < |b| ==> all[|a| + i] == b[i];
    WithoutLength(b, key);
  }

  /** The cache is the newest `maxBlocks` of all keys used, with the values last written. */
  ghost predicate IsNewest<V>(c: Contents<V>, recency: seq<string>, written: map<string, V>, maxBlocks: nat) {
    && Wellformed(c) && Distinct(recency)
    && c.order == Newest(recency, maxBlocks)
    && forall k :: k in c.at ==> k in written && c.at[k] == written[k]
  }

  lemma GetKeepsNewest<V>(c: Contents<V>, recency: seq<string>, written: map<string, V>, maxBlocks: nat, key: string)
    requires IsNewest(c, recency, written, maxBlocks) && maxBlocks > 0 && key in c.at
    ensures IsNewest(AfterGet(c, key), Touch(recency, key), written, maxBlocks)
  {
    hide Newest, Touch, Distinct;
    TouchKeeps(c, key, c.at[key]);
    assert c.at[key := c.at[key]] == c.at;
    NewestTouch(recency, key, maxBlocks);
    TouchDistinct(recency, key);
  }

  lemma SetKeepsNewest<V>(c: Contents<V>, recency: seq<string>, written: map<string, V>, maxBlocks: nat,
                          key: string, value: V)
    requires IsNewest(c, recency, written, maxBlocks) && maxBlocks > 0
    ensures IsNewest(AfterSet(c, key, value, maxBlocks), Touch(recency, key), written[key := value], maxBlocks)
  {
    hide Without, Newest, Distinct;
    SetKeeps(c, key, value, maxBlocks);
    TouchKeeps(c, key, value);
    NewestTouch(recency, key, maxBlocks);
    TouchDistinct(recency, key);
    if key !in c.at {
      WithoutAbsent(c.order, key);
      assert |c.order| == maxBlocks ==> (c.order + [key])[1..] == c.order[1..] + [key];
    }
  }

  /**
    Over any run of reads and writes, the cache holds exactly the `maxBlocks` most
    recently used distinct keys, in order of use, with the values last written.
  */
  lemma {:induction false} LeastRecentlyUsed<V>(uses: seq<Use<V>>, maxBlocks: nat)
    requires maxBlocks > 0
    ensures IsNewest(Run(uses, maxBlocks), Recency(uses, maxBlocks), LastWritten(uses), maxBlocks)
  {
    hide IsNewest, AfterGet, AfterSet, Touch, Newest;
    if |uses| == 0 {
      EmptyIsNewest<V>(maxBlocks);
    } else {
      var front, last := uses[..|uses| - 1], uses[|uses| - 1];
      LeastRecentlyUsed(front, maxBlocks);
      var c := Run(front, maxBlocks);
      match last
      case Set(key, value) =>
        SetKeepsNewest(c, Recency(front, maxBlocks), LastWritten(front), maxBlocks, key, value);
      case Get(key) =>
        MissChangesNothing(c, key);
        if key in c.at { GetKeepsNewest(c, Recency(front, maxBlocks), LastWritten(front), maxBlocks, key); }
    }
  }

  lemma EmptyIsNewest<V>(maxBlocks: nat)
    ensures IsNewest(Empty<V>(), [], map[], maxBlocks)
  {}

  lemma MissChangesNothing<V>(c: Contents<V>, key: string)
    ensures key !in c.at ==> AfterGet(c, key) == c
  {}

  // ---------- The byte estimate ----------

  function Sum(order: seq<string>, sizes: map<string, nat>): nat
    requires forall k :: k in order ==> k in sizes
  {
    if |order| == 0 then 0 else sizes[order[0]] + Sum(order[1..], sizes)
  }

  lemma {:induction false} SumConcat(a: seq<string>, b: seq<string>, sizes: map<string, nat>)
    requires forall k :: k in a + b ==> k in sizes
    ensures forall k :: (k in a ==> k in sizes) && (k in b ==> k in sizes)
    ensures Sum(a + b, sizes) == Sum(a, sizes) + Sum(b, sizes)
  {
    assert forall k :: k in a || k in b ==> k in a + b;
    if |a| == 0 {
      assert a + b == b;
    } else {
      assert (a + b)[0] == a[0] && (a + b)[1..] == a[1..] + b;
      SumConcat(a[1..], b, sizes);
    }
  }

  lemma {:induction false} SumWithout(order: seq<string>, key: string, sizes: map<string, nat>)
    requires Distinct(order) && key in order && forall k :: k in order ==> k in sizes
    ensures forall k :: k in Without(order, key) ==> k in sizes
    ensures Sum(Without(order, key), sizes) == Sum(order, sizes) - sizes[key]
  {
    WithoutMembers(order, key);
    if order[0] == key {
      WithoutAbsent(order[1..], key);
    } else {
      assert key in order[1..];
      WithoutMembers(order[1..], key);
      SumWithout(order[1..], key, sizes);
    }
  }

  lemma {:induction false} SumOther(order: seq<string>, sizes: map<string, nat>, other: map<string, nat>)
    requires forall k :: k in order ==> k in sizes && k in other && sizes[k] == other[k]
    ensures Sum(order, sizes) == Sum(order, other)
  {
    if |order| > 0 { SumOther(order[1..], sizes, other); }
  }

  // ---------- The cache ----------

  /** `serialise` gives the printed form of a record. */
  class ChainCache<R(==)> {
    const maxBlocks: nat
    const serialise: R -> string
    var order: seq<string>
    var blocks: map<string, R>
    var sizes: map<string, nat>
    var hits: nat
    var misses: nat
    var writes: nat
    var invalidations: nat
    var estimatedBytes: int

    /** Two bytes for each character of the key and of the printed record. */
    function Estimate(key: string, value: R): (bytes: nat)
      ensures bytes == 2 * (|key| + |serialise(value)|)
    {
      |key| * 2 + |serialise(value)| * 2
    }

    function Value(): Contents<R>
      reads this
    {
      Contents(order, blocks)
    }

    /** The estimate is the sum of the sizes of what is held. */
    ghost predicate Consistent()
      reads this
    {
      && Wellformed(Value()) && sizes.Keys == blocks.Keys
      && (forall k :: k in blocks ==> sizes[k] == Estimate(k, blocks[k]))
      && estimatedBytes == Sum(order, sizes)
    }

    ghost predicate Valid()
      reads this
    {
      maxBlocks > 0 && Consistent() && |order| <= maxBlocks
    }

    constructor (limit: Option<int>, serialise: R -> string)
      ensures Valid() && Value() == Empty() && this.serialise == serialise && estimatedBytes == 0
      ensures maxBlocks == if limit.None? then 512 else if limit.value < 1 then 1 else limit.value
      ensures hits == misses == writes == invalidations == 0
    {
      maxBlocks := if limit.None? then 512 else if limit.value < 1 then 1 else limit.value;
      this.serialise := serialise;
      order, blocks, sizes := [], map[], map[];
      hits, misses, writes, invalidations, estimatedBytes := 0, 0, 0, 0, 0;
    }

    method Get(chain: string, index: nat) returns (r: Option<R>)
      requires Valid()
      modifies this`order, this`hits, this`misses
      ensures Valid() && Value() == AfterGet(old(Value()), MakeKey(chain, index))
      ensures var key := MakeKey(chain, index);
        if key in blocks then r == Some(blocks[key]) && hits == old(hits) + 1 && misses == old(misses)
        else r == None && hits == old(hits) && misses == old(misses) + 1
    {
      hide MakeKey, Without, Sum, Wellformed;
      var key := MakeKey(chain, index);
      if key in blocks {
        TouchKeeps(Value(), key, blocks[key]);
        assert blocks[key := blocks[key]] == blocks;
        SumTouch(order, key, sizes, sizes[key], blocks);
        assert sizes[key := sizes[key]] == sizes;
        hits := hits + 1;
        order := Touch(order, key);
        return Some(blocks[key]);
      }
      misses := misses + 1;
      return None;
    }

    method Set(chain: string, index: nat, value: R)
      requires Valid()
      modifies this`order, this`blocks, this`sizes, this`estimatedBytes, this`writes
      ensures Valid() && Value() == AfterSet(old(Value()), MakeKey(chain, index), value, maxBlocks)
      ensures writes == old(writes) + 1
    {
      hide MakeKey, Without, Sum, Wellformed, Estimate;
      var key := MakeKey(chain, index);
      TouchKeeps(Value(), key, value);
      SumTouch(order, key, sizes, Estimate(key, value), blocks);
      if key in blocks {
        SumBound(order, key, sizes, blocks);
        var oldSize := sizes[key];
        estimatedBytes := if estimatedBytes - oldSize > 0 then estimatedBytes - oldSize else 0;
      }
      order := Without(order, key) + [key];
      blocks := blocks[key := value];
      var estimate := Estimate(key, value);
      sizes := sizes[key := estimate];
      estimatedBytes := estimatedBytes + estimate;
      writes := writes + 1;
      if |order| > maxBlocks {
        EvictOldest();
      }
    }

    /** What a write does when one key too many is held. */
    method EvictOldest()
      requires Consistent() && |order| > 0
      modifies this`order, this`blocks, this`sizes, this`estimatedBytes
      ensures Consistent() && Value() == Contents(old(order)[1..], old(blocks) - {old(order)[0]})
    {
      hide Without, Sum, Wellformed, Estimate;
      var oldest := order[0];
      DropOldestKeeps(Value());
      SumDrop(order, sizes, blocks);
      order := order[1..];
      blocks := blocks - {oldest};
      var oldestSize := sizes[oldest];
      sizes := sizes - {oldest};
      estimatedBytes := if estimatedBytes - oldestSize > 0 then estimatedBytes - oldestSize else 0;
    }

    /** Drops one held key. */
    method Remove(key: string)
      requires Valid() && key in blocks
      modifies this`order, this`blocks, this`sizes, this`estimatedBytes
      ensures Valid() && Value() == Contents(Without(old(order), key), old(blocks) - {key})
    {
      hide Without, Sum, Wellformed, Estimate;
      RemoveKeeps(order, key, sizes, blocks);
      SumBound(order, key, sizes, blocks);
      blocks := blocks - {key};
      order := Without(order, key);
      var oldSize := sizes[key];
      sizes := sizes - {key};
      estimatedBytes := if estimatedBytes - oldSize > 0 then estimatedBytes - oldSize else 0;
    }

    method RemoveAll(toRemove: seq<string>)
      requires Valid() && Distinct(toRemove) && forall k :: k in toRemove ==> k in blocks
      modifies this`order, this`blocks, this`sizes, this`estimatedBytes
      ensures Valid()
      ensures var gone := set k | k in toRemove;
        Value() == Contents(Dropping(old(order), gone), old(blocks) - gone) && |gone| == |toRemove|
    {
      hide Without, Sum, Wellformed, Estimate, Dropping, Valid;
      ghost var start := Value();
      ghost var gone: set<string> := {};
      DroppingNone(order);
      for i := 0 to |toRemove|
        invariant Valid() && i == |gone|
        invariant forall k :: k in gone <==> k in toRemove[..i]
        invariant Value() == Contents(Dropping(start.order, gone), start.at - gone)
      {
        assert toRemove[..i + 1] == toRemove[..i] + [toRemove[i]];
        assert toRemove[i] !in toRemove[..i];
        DroppingMore(start.order, gone, toRemove[i]);
        Remove(toRemove[i]);
        gone := gone + {toRemove[i]};
      }
      assert toRemove[..|toRemove|] == toRemove;
      assert gone == set k | k in toRemove;
    }

    method InvalidateChain(chain: string) returns (removed: nat)
      requires Valid()
      modifies this`order, this`blocks, this`sizes, this`estimatedBytes, this`invalidations
      ensures Valid()
      ensures var hit := set k | k in old(order) && StartsWith(k, chain + ":");
        && Value() == Contents(Dropping(old(order), hit), old(blocks) - hit)
        && removed == |hit| && invalidations == old(invalidations) + if removed > 0 then 1 else 0
    {
      hide Sum, Wellformed, Estimate, Dropping, Starting;
      var toRemove := KeysStarting(Value(), chain + ":");
      ghost var hit := set k | k in order && StartsWith(k, chain + ":");
      StartingIs(order, chain + ":");
      assert (set k | k in toRemove) == hit;
      RemoveAll(toRemove);
      removed := |toRemove|;
      if removed > 0 { invalidations := invalidations + 1; }
    }

    method InvalidateBlock(chain: string, index: nat) returns (deleted: bool)
      requires Valid()
      modifies this`order, this`blocks, this`sizes, this`estimatedBytes, this`invalidations
      ensures Valid() && deleted == (MakeKey(chain, index) in old(blocks))
      ensures var key := MakeKey(chain, index);
        Value() == Contents(Without(old(order), key), old(blocks) - {key})
      ensures invalidations == old(invalidations) + if deleted then 1 else 0
    {
      hide MakeKey, Without, Sum;
      var key := MakeKey(chain, index);
      deleted := key in blocks;
      if deleted {
        Remove(key);
        invalidations := invalidations + 1;
      } else {
        WithoutAbsent(order, key);
      }
    }

    method Clear()
      requires Valid()
      modifies this`order, this`blocks, this`sizes, this`estimatedBytes, this`invalidations
      ensures Valid() && Value() == Empty() && estimatedBytes == 0
      ensures invalidations == old(invalidations) + if |old(order)| > 0 then 1 else 0
    {
      if |order| > 0 {
        order, blocks, sizes, estimatedBytes := [], map[], map[], 0;
        invalidations := invalidations + 1;
      } else {
        assert blocks == map[];
      }
    }
  }

  function Starting(keys: seq<string>, prefix: string): set<string> {
    set k | k in keys && StartsWith(k, prefix)
  }

  lemma StartingIs(keys: seq<string>, prefix: string)
    ensures Starting(keys, prefix) == set k | k in keys && StartsWith(k, prefix)
  {}

  method KeysStarting<R(==)>(c: Contents<R>, prefix: string) returns (found: seq<string>)
    requires Wellformed(c)
    ensures Distinct(found) && forall k :: k in found <==> k in Starting(c.order, prefix)
    ensures forall k :: k in found ==> k in c.at
  {
    found := [];
    for i := 0 to |c.order|
      invariant forall k :: k in found <==> k in c.order[..i] && StartsWith(k, prefix)
      invariant Distinct(found)
    {
      assert c.order[..i + 1] == c.order[..i] + [c.order[i]];
      assert c.order[i] !in c.order[..i];
      if StartsWith(c.order[i], prefix) { found := found + [c.order[i]]; }
    }
    assert c.order[..|c.order|] == c.order;
  }

  /** The keys outside a set, in order. */
  function Dropping(keys: seq<string>, gone: set<string>): seq<string> {
    if |keys| == 0 then []
    else (if keys[0] in gone then [] else [keys[0]]) + Dropping(keys[1..], gone)
  }

  lemma {:induction false} DroppingNone(keys: seq<string>)
    ensures Dropping(keys, {}) == keys
  {
    if |keys| > 0 { DroppingNone(keys[1..]); }
  }

  lemma {:induction false} DroppingMore(keys: seq<string>, gone: set<string>, key: string)
    ensures Without(Dropping(keys, gone), key) == Dropping(keys, gone + {key})
  {
    if |keys| > 0 {
      var head := if keys[0] in gone then [] else [keys[0]];
      WithoutConcat(head, Dropping(keys[1..], gone), key);
      DroppingMore(keys[1..], gone, key);
      if keys[0] !in gone { assert head[1..] == []; }
    }
  }

  lemma RemoveKeeps<R>(order: seq<string>, key: string, sizes: map<string, nat>, blocks: map<string, R>)
    requires Wellformed(Contents(order, blocks)) && sizes.Keys == blocks.Keys && key in blocks
    ensures Wellformed(Contents(Without(order, key), blocks - {key}))
    ensures |Without(order, key)| < |order|
    ensures forall k :: k in order ==> k in sizes
    ensures forall k :: k in Without(order, key) ==> k in sizes - {key}
    ensures Sum(Without(order, key), sizes - {key}) == Sum(order, sizes) - sizes[key]
  {
    WithoutMembers(order, key);
    WithoutLength(order, key);
    SumWithout(order, key, sizes);
    SumOther(Without(order, key), sizes, sizes - {key});
  }

  /** Re-filing a key under a new size. */
  lemma SumTouch<R>(order: seq<string>, key: string, sizes: map<string, nat>, size: nat, blocks: map<string, R>)
    requires Wellformed(Contents(order, blocks)) && sizes.Keys == blocks.Keys
    ensures forall k :: k in Touch(order, key) ==> k in sizes[key := size]
    ensures forall k :: k in order ==> k in sizes
    ensures Sum(Touch(order, key), sizes[key := size])
         == Sum(order, sizes) + size - if key in blocks then sizes[key] else 0
  {
    var rest := Without(order, key);
    WithoutMembers(order, key);
    var after := sizes[key := size];
    assert forall k :: k in rest + [key] <==> k in rest || k == key;
    SumConcat(rest, [key], after);
    assert Sum([key], after) == size by { assert [key][1..] == []; }
    SumOther(rest, sizes, after);
    if key in blocks { SumWithout(order, key, sizes); } else { WithoutAbsent(order, key); }
  }

  lemma SumBound<R>(order: seq<string>, key: string, sizes: map<string, nat>, blocks: map<string, R>)
    requires Wellformed(Contents(order, blocks)) && sizes.Keys == blocks.Keys && key in blocks
    ensures forall k :: k in order ==> k in sizes
    ensures sizes[key] <= Sum(order, sizes)
  {
    SumWithout(order, key, sizes);
  }

  lemma SumDrop<R>(order: seq<string>, sizes: map<string, nat>, blocks: map<string, R>)
    requires Wellformed(Contents(order, blocks)) && sizes.Keys == blocks.Keys && |order| > 0
    ensures forall k :: k in order ==> k in sizes
    ensures forall k :: k in order[1..] ==> k in sizes - {order[0]}
    ensures Sum(order[1..], sizes - {order[0]}) == Sum(order, sizes) - sizes[order[0]]
  {
    DropOldestKeeps(Contents(order, blocks));
    SumOther(order[1..], sizes, sizes - {order[0]});
  }
}
