/**
  What merging guarantees: the pointwise meaning of a merged list, the algebra of
  last-write-wins, the diff, and what a pull leaves to be pulled.
*/
module MergeLaws {
  import opened Basics
  import opened ReplicaMerge
  import Canonical
  import Json

  type BlockMap = map<string, Block>

  /** The merge of two maps, key by key. */
  function Merge(lib: Library, strategy: Strategy, a: BlockMap, b: BlockMap): BlockMap {
    map k | k in a.Keys + b.Keys ::
      if k !in b then a[k] else if k !in a then b[k] else Winner(lib, strategy, a[k], b[k])
  }

  /** Every entry is filed under its own key. */
  predicate Keyed(lib: Library, m: BlockMap) {
    forall k :: k in m ==> BlockKey(lib, m[k]) == k
  }

  predicate Distinct(keys: seq<string>) {
    forall i, j :: 0 <= i < j < |keys| ==> keys[i] != keys[j]
  }

  // ---------- Lists and the maps they build ----------

  lemma {:induction false} FirstKeysDistinct(lib: Library, blocks: seq<Block>)
    ensures Distinct(FirstKeys(lib, blocks))
  {
    hide BlockKey;
    if |blocks| > 0 { FirstKeysDistinct(lib, blocks[..|blocks| - 1]); }
  }

  /** Every entry of the map is the last block of its key. */
  lemma {:induction false} KeyMapEntry(lib: Library, blocks: seq<Block>, k: string)
    ensures k in KeyMap(lib, blocks) <==> exists i :: 0 <= i < |blocks| && BlockKey(lib, blocks[i]) == k
    ensures k in KeyMap(lib, blocks) ==> BlockKey(lib, KeyMap(lib, blocks)[k]) == k && KeyMap(lib, blocks)[k] in blocks
  {
    hide BlockKey;
    if |blocks| > 0 {
      var n := |blocks| - 1;
      KeyMapEntry(lib, blocks[..n], k);
      assert forall i :: 0 <= i < n ==> blocks[..n][i] == blocks[i];
    }
  }

  lemma {:induction false} KeyMapAt(lib: Library, blocks: seq<Block>, i: nat)
    requires DuplicateFree(lib, blocks) && i < |blocks|
    ensures var k := BlockKey(lib, blocks[i]); k in KeyMap(lib, blocks) && KeyMap(lib, blocks)[k] == blocks[i]
  {
    hide BlockKey;
    var n := |blocks| - 1;
    if i < n {
      assert blocks[..n][i] == blocks[i];
      KeyMapAt(lib, blocks[..n], i);
    }
  }

  /** Duplicate-free lists of the same blocks build the same map. */
  lemma SameElementsSameMap(lib: Library, a: seq<Block>, b: seq<Block>)
    requires DuplicateFree(lib, a) && DuplicateFree(lib, b) && forall x :: x in a <==> x in b
    ensures KeyMap(lib, a) == KeyMap(lib, b)
  {
    hide BlockKey, KeyMap, DuplicateFree;
    forall k
      ensures k in KeyMap(lib, a) <==> k in KeyMap(lib, b)
      ensures k in KeyMap(lib, a) ==> KeyMap(lib, a)[k] == KeyMap(lib, b)[k]
    {
      EntryElsewhere(lib, a, b, k);
      EntryElsewhere(lib, b, a, k);
    }
  }

  lemma EntryElsewhere(lib: Library, a: seq<Block>, b: seq<Block>, k: string)
    requires DuplicateFree(lib, b) && forall x :: x in a ==> x in b
    ensures k in KeyMap(lib, a) ==> k in KeyMap(lib, b) && KeyMap(lib, b)[k] == KeyMap(lib, a)[k]
  {
    hide BlockKey, KeyMap, DuplicateFree;
    KeyMapEntry(lib, a, k);
    if k in KeyMap(lib, a) {
      var x := KeyMap(lib, a)[k];
      assert x in b;
      var i :| 0 <= i < |b| && b[i] == x;
      KeyMapAt(lib, b, i);
    }
  }

  /** Without duplicates, absorbing a list is merging its map. */
  lemma {:induction false} AbsorbIsMerge(lib: Library, strategy: Strategy, m: BlockMap, remote: seq<Block>)
    requires DuplicateFree(lib, remote)
    ensures Absorb(lib, strategy, m, remote) == Merge(lib, strategy, m, KeyMap(lib, remote))
  {
    hide BlockKey, Winner;
    if |remote| > 0 {
      var n := |remote| - 1;
      AbsorbIsMerge(lib, strategy, m, remote[..n]);
      KeyMapEntry(lib, remote[..n], BlockKey(lib, remote[n]));
    }
  }

  lemma ValuesShape(lib: Library, order: seq<string>, at: BlockMap)
    requires forall k :: k in order <==> k in at
    requires Distinct(order)
    requires Keyed(lib, at)
    ensures DuplicateFree(lib, Values(order, at)) && KeyMap(lib, Values(order, at)) == at
  {
    hide BlockKey, KeyMap;
    var values := Values(order, at);
    forall k
      ensures k in KeyMap(lib, values) <==> k in at
      ensures k in at ==> KeyMap(lib, values)[k] == at[k]
    {
      KeyMapEntry(lib, values, k);
      if k in at {
        var i :| 0 <= i < |order| && order[i] == k;
        KeyMapAt(lib, values, i);
      }
      if i :| 0 <= i < |values| && BlockKey(lib, values[i]) == k {
        assert order[i] in at;
      }
    }
  }

  lemma {:induction false} AbsorbKeyed(lib: Library, strategy: Strategy, m: BlockMap, remote: seq<Block>)
    requires Keyed(lib, m)
    ensures Keyed(lib, Absorb(lib, strategy, m, remote))
  {
    hide BlockKey, Timestamp;
    if |remote| > 0 { AbsorbKeyed(lib, strategy, m, remote[..|remote| - 1]); }
  }

  // ---------- Sorting ----------

  lemma {:induction false} InsertKeeps(lib: Library, b: Block, blocks: seq<Block>)
    requires InOrder(lib, blocks)
    ensures InOrder(lib, InsertBlock(lib, b, blocks))
    ensures forall x :: x in InsertBlock(lib, b, blocks) <==> x == b || x in blocks
  {
    hide Timestamp, Position;
    if |blocks| == 0 || !Before(lib, blocks[0], b) {
      assert forall x :: x in [b] + blocks <==> x == b || x in blocks;
    } else {
      var rest := blocks[1..];
      assert blocks == [blocks[0]] + rest;
      InsertKeeps(lib, b, rest);
      var r := InsertBlock(lib, b, rest);
      forall i | 0 <= i < |r|
        ensures !Before(lib, r[i], blocks[0])
      {
        assert r[i] in r;
        if r[i] != b {
          var j :| 0 <= j < |rest| && rest[j] == r[i];
          assert blocks[j + 1] == r[i];
        }
      }
      assert InsertBlock(lib, b, blocks) == [blocks[0]] + r;
    }
  }

  lemma {:induction false} InsertDuplicateFree(lib: Library, b: Block, blocks: seq<Block>)
    requires InOrder(lib, blocks) && DuplicateFree(lib, blocks)
    requires forall x :: x in blocks ==> BlockKey(lib, x) != BlockKey(lib, b)
    ensures DuplicateFree(lib, InsertBlock(lib, b, blocks))
  {
    hide BlockKey, Before;
    if |blocks| > 0 && Before(lib, blocks[0], b) {
      var rest := blocks[1..];
      InsertDuplicateFree(lib, b, rest);
      InsertKeeps(lib, b, rest);
      var r := InsertBlock(lib, b, rest);
      forall i | 0 <= i < |r|
        ensures BlockKey(lib, r[i]) != BlockKey(lib, blocks[0])
      {
        assert r[i] in r;
        if r[i] != b {
          var j :| 0 <= j < |rest| && rest[j] == r[i];
          assert blocks[j + 1] == r[i];
        }
      }
    }
  }

  lemma {:induction false} SortKeeps(lib: Library, blocks: seq<Block>)
    requires DuplicateFree(lib, blocks)
    ensures InOrder(lib, SortBlocks(lib, blocks)) && DuplicateFree(lib, SortBlocks(lib, blocks))
    ensures forall x :: x in SortBlocks(lib, blocks) <==> x in blocks
  {
    hide BlockKey, Before;
    if |blocks| > 0 {
      var rest := blocks[1..];
      assert blocks == [blocks[0]] + rest;
      SortKeeps(lib, rest);
      InsertKeeps(lib, blocks[0], SortBlocks(lib, rest));
      InsertDuplicateFree(lib, blocks[0], SortBlocks(lib, rest));
    }
  }

  lemma {:induction false} SortOfSorted(lib: Library, blocks: seq<Block>)
    requires InOrder(lib, blocks)
    ensures SortBlocks(lib, blocks) == blocks
  {
    hide Before;
    if |blocks| > 0 { SortOfSorted(lib, blocks[1..]); }
  }

  // ---------- What a merged list is ----------

  /** The merged list holds one block per key, sorted, whatever duplicates came in. */
  lemma ResolveShape(lib: Library, strategy: Strategy, local: seq<Block>, remote: seq<Block>)
    ensures var r := Resolve(lib, strategy, local, remote);
      && DuplicateFree(lib, r) && InOrder(lib, r)
      && KeyMap(lib, r) == Absorb(lib, strategy, KeyMap(lib, local), remote)
      && |r| == |FirstKeys(lib, local + remote)|
  {
    hide BlockKey, KeyMap, Absorb, FirstKeys, DuplicateFree, InOrder, SortBlocks, Values;
    var order, at := FirstKeys(lib, local + remote), Absorb(lib, strategy, KeyMap(lib, local), remote);
    AbsorbKeys(lib, strategy, local, remote);
    FirstKeysDistinct(lib, local + remote);
    forall k | k in KeyMap(lib, local)
      ensures BlockKey(lib, KeyMap(lib, local)[k]) == k
    {
      KeyMapEntry(lib, local, k);
    }
    AbsorbKeyed(lib, strategy, KeyMap(lib, local), remote);
    ValuesShape(lib, order, at);
    SortKeeps(lib, Values(order, at));
    SameElementsSameMap(lib, Values(order, at), SortBlocks(lib, Values(order, at)));
  }

  /** With no duplicates on the remote side, a merged list is the merge of the two maps. */
  lemma ResolveIsMerge(lib: Library, strategy: Strategy, local: seq<Block>, remote: seq<Block>)
    requires DuplicateFree(lib, remote)
    ensures var r := Resolve(lib, strategy, local, remote);
      && DuplicateFree(lib, r) && InOrder(lib, r)
      && KeyMap(lib, r) == Merge(lib, strategy, KeyMap(lib, local), KeyMap(lib, remote))
  {
    hide *;
    ResolveShape(lib, strategy, local, remote);
    AbsorbIsMerge(lib, strategy, KeyMap(lib, local), remote);
  }

  /**
    Last-write-wins on any two lists, duplicates included: the block kept for a key
    was there, and none of the remote blocks of that key, nor the last local one, is later.
  */
  lemma {:induction false} LatestIsKept(lib: Library, local: seq<Block>, remote: seq<Block>, k: string)
    ensures var m := Absorb(lib, LastWriteWins, KeyMap(lib, local), remote);
      && (k in m <==> k in KeyMap(lib, local) || k in KeyMap(lib, remote))
      && (k in m ==> m[k] in local || m[k] in remote)
      && (k in KeyMap(lib, local) ==> Timestamp(lib, m[k]) >= Timestamp(lib, KeyMap(lib, local)[k]))
      && (k in m ==> NoneLater(lib, remote, k, Timestamp(lib, m[k])))
  {
    hide BlockKey, Timestamp;
    KeyMapEntry(lib, local, k);
    if |remote| > 0 {
      var n := |remote| - 1;
      LatestIsKept(lib, local, remote[..n], k);
      assert forall x :: x in remote[..n] ==> x in remote;
      assert forall j :: 0 <= j < n ==> remote[..n][j] == remote[j];
      KeyMapEntry(lib, remote, k);
      KeyMapEntry(lib, remote[..n], k);
    }
  }

  predicate NoneLater(lib: Library, blocks: seq<Block>, k: string, t: int) {
    forall j :: 0 <= j < |blocks| && BlockKey(lib, blocks[j]) == k ==> Timestamp(lib, blocks[j]) <= t
  }

  // ---------- What counts as later ----------

  /** The date of a block is what its timestamp parses to; a missing, empty or unparsable one counts as zero. */
  predicate IsDate(lib: Library, b: Block, t: int) {
    match b.timestamp
    case None => t == 0
    case Some(text) =>
      match lib.date(text)
      case None => t == 0
      case Some(d) => if text == "" then t == 0 else t == d
  }

  lemma OneBlock(lib: Library, b: Block)
    ensures KeyMap(lib, [b]) == map[BlockKey(lib, b) := b] && FirstKeys(lib, [b]) == [BlockKey(lib, b)]
    ensures SortBlocks(lib, [b]) == [b]
  {
    hide BlockKey;
    assert [b][..0] == [] && [b][1..] == [];
  }

  /** One block against another of its key: the remote one is kept exactly when its date is no earlier. */
  lemma LaterWins(lib: Library, local: Block, remote: Block, s: int, t: int)
    requires BlockKey(lib, local) == BlockKey(lib, remote) && IsDate(lib, local, s) && IsDate(lib, remote, t)
    ensures Resolve(lib, LastWriteWins, [local], [remote]) == if t >= s then [remote] else [local]
  {
    hide BlockKey;
    var k := BlockKey(lib, local);
    var m := KeyMap(lib, [local]);
    OneBlock(lib, local);
    OneBlock(lib, if t >= s then remote else local);
    FirstKeysNext(lib, [local] + [remote]);
    assert ([local] + [remote])[..1] == [local] && [remote][..0] == [];
    assert Absorb(lib, LastWriteWins, m, [remote][..0]) == m;
    AbsorbNext(lib, LastWriteWins, m, [remote]);
    hide KeyMap, FirstKeys, Absorb, SortBlocks;
    assert Winner(lib, LastWriteWins, local, remote) == if t >= s then remote else local;
    assert Values([k], m[k := if t >= s then remote else local]) == [if t >= s then remote else local];
  }

  /** The block kept for a key is no earlier than any remote block of the key, nor than the last local one. */
  lemma LatestDateKept(lib: Library, local: seq<Block>, remote: seq<Block>, b: Block, t: int, u: int)
    requires b in remote || (BlockKey(lib, b) in KeyMap(lib, local) && KeyMap(lib, local)[BlockKey(lib, b)] == b)
    ensures var m := KeyMap(lib, Resolve(lib, LastWriteWins, local, remote));
      && BlockKey(lib, b) in m
      && (IsDate(lib, b, t) && IsDate(lib, m[BlockKey(lib, b)], u) ==> t <= u)
  {
    var k := BlockKey(lib, b);
    hide BlockKey, KeyMap, Absorb, Resolve;
    ResolveShape(lib, LastWriteWins, local, remote);
    LatestIsKept(lib, local, remote, k);
    if b in remote {
      var j :| 0 <= j < |remote| && remote[j] == b;
      KeyMapEntry(lib, remote, k);
    }
  }

  /** The order of a merged list: by index, blocks without one after all others, and by date where indices agree. */
  lemma MergedOrder(lib: Library, strategy: Strategy, local: seq<Block>, remote: seq<Block>, i: nat, j: nat, s: int, t: int)
    requires i < j < |Resolve(lib, strategy, local, remote)|
    ensures var x, y := Resolve(lib, strategy, local, remote)[i], Resolve(lib, strategy, local, remote)[j];
      && (x.index.Some? && y.index.Some? ==> x.index.value <= y.index.value)
      && (y.index.Some? && y.index.value < 9007199254740991 ==> x.index.Some?)
      && (x.index == y.index && IsDate(lib, x, s) && IsDate(lib, y, t) ==> s <= t)
  {
    hide Resolve, BlockKey, KeyMap, Absorb, FirstKeys, DuplicateFree;
    ResolveShape(lib, strategy, local, remote);
    var r := Resolve(lib, strategy, local, remote);
    assert !Before(lib, r[j], r[i]);
  }

  // ---------- The algebra of last-write-wins ----------

  /** Blocks of one key with one timestamp are one block. */
  predicate TiesAgree(lib: Library, a: BlockMap, b: BlockMap) {
    forall k :: k in a && k in b && Timestamp(lib, a[k]) == Timestamp(lib, b[k]) ==> a[k] == b[k]
  }

  /** Merging commutes exactly when ties agree. */
  lemma MergeCommutes(lib: Library, a: BlockMap, b: BlockMap)
    ensures Merge(lib, LastWriteWins, a, b) == Merge(lib, LastWriteWins, b, a) <==> TiesAgree(lib, a, b)
  {
    hide Timestamp;
    var ab, ba := Merge(lib, LastWriteWins, a, b), Merge(lib, LastWriteWins, b, a);
    if TiesAgree(lib, a, b) {
      assert forall k :: k in ab ==> k in ba && ab[k] == ba[k];
      assert ab == ba;
    } else {
      var k :| k in a && k in b && Timestamp(lib, a[k]) == Timestamp(lib, b[k]) && a[k] != b[k];
      assert ab[k] != ba[k];
    }
  }

  lemma MergeAssociates(lib: Library, a: BlockMap, b: BlockMap, c: BlockMap)
    ensures Merge(lib, LastWriteWins, Merge(lib, LastWriteWins, a, b), c)
         == Merge(lib, LastWriteWins, a, Merge(lib, LastWriteWins, b, c))
  {
    hide Timestamp;
    var l := Merge(lib, LastWriteWins, Merge(lib, LastWriteWins, a, b), c);
    var r := Merge(lib, LastWriteWins, a, Merge(lib, LastWriteWins, b, c));
    assert l.Keys == r.Keys;
    assert forall k :: k in l ==> l[k] == r[k];
  }

  /** Preferring local is preferring remote from the other side. */
  lemma PreferencesMirror(lib: Library, a: BlockMap, b: BlockMap)
    ensures Merge(lib, PreferLocal, a, b) == Merge(lib, PreferRemote, b, a)
  {
    var l, r := Merge(lib, PreferLocal, a, b), Merge(lib, PreferRemote, b, a);
    assert l.Keys == r.Keys;
    assert forall k :: k in l ==> l[k] == r[k];
  }

  lemma {:induction false} FirstKeysOfDuplicateFree(lib: Library, blocks: seq<Block>)
    requires DuplicateFree(lib, blocks)
    ensures |FirstKeys(lib, blocks)| == |blocks|
    ensures forall i :: 0 <= i < |blocks| ==> FirstKeys(lib, blocks)[i] == BlockKey(lib, blocks[i])
  {
    hide BlockKey;
    if |blocks| > 0 {
      var n := |blocks| - 1;
      FirstKeysOfDuplicateFree(lib, blocks[..n]);
      KeyMapKeys(lib, blocks[..n]);
      KeyMapEntry(lib, blocks[..n], BlockKey(lib, blocks[n]));
    }
  }

  /** Keys already present add nothing to the order. */
  lemma {:induction false} FirstKeysStable(lib: Library, local: seq<Block>, remote: seq<Block>)
    requires forall i :: 0 <= i < |remote| ==> BlockKey(lib, remote[i]) in FirstKeys(lib, local)
    ensures FirstKeys(lib, local + remote) == FirstKeys(lib, local)
  {
    hide BlockKey, FirstKeys;
    if |remote| == 0 {
      assert local + remote == local;
    } else {
      FirstKeysStable(lib, local, remote[..|remote| - 1]);
      FirstKeysExtend(lib, local, remote);
    }
  }

  lemma ValuesOfOwn(lib: Library, blocks: seq<Block>)
    requires DuplicateFree(lib, blocks)
    ensures forall k :: k in FirstKeys(lib, blocks) ==> k in KeyMap(lib, blocks)
    ensures Values(FirstKeys(lib, blocks), KeyMap(lib, blocks)) == blocks
  {
    hide BlockKey, KeyMap, FirstKeys;
    FirstKeysOfDuplicateFree(lib, blocks);
    KeyMapKeys(lib, blocks);
    var values := Values(FirstKeys(lib, blocks), KeyMap(lib, blocks));
    forall i | 0 <= i < |blocks|
      ensures values[i] == blocks[i]
    {
      KeyMapAt(lib, blocks, i);
    }
  }

  /** Pulling a sorted duplicate-free list into itself changes nothing, order included, under any strategy. */
  lemma ResolveIdempotent(lib: Library, strategy: Strategy, blocks: seq<Block>)
    requires DuplicateFree(lib, blocks) && InOrder(lib, blocks)
    ensures Resolve(lib, strategy, blocks, blocks) == blocks
  {
    hide BlockKey, KeyMap, FirstKeys, Absorb, Values, SortBlocks, InOrder, DuplicateFree;
    var m := KeyMap(lib, blocks);
    AbsorbKeys(lib, strategy, blocks, blocks);
    AbsorbIsMerge(lib, strategy, m, blocks);
    assert Merge(lib, strategy, m, m) == m;
    forall i | 0 <= i < |blocks|
      ensures BlockKey(lib, blocks[i]) in FirstKeys(lib, blocks)
    {
      KeyMapEntry(lib, blocks, BlockKey(lib, blocks[i]));
      KeyMapKeys(lib, blocks);
    }
    FirstKeysStable(lib, blocks, blocks);
    ValuesOfOwn(lib, blocks);
    SortOfSorted(lib, blocks);
  }

  // ---------- The diff ----------

  datatype Conflict = Conflict(key: string, local: Block, remote: Block)

  /** The entries of an insertion-ordered map that pass a test, in order. */
  function Only(order: seq<string>, at: BlockMap, other: BlockMap): (r: seq<Block>)
    requires forall k :: k in order ==> k in at
  {
    if |order| == 0 then []
    else
      var last := order[|order| - 1];
      Only(order[..|order| - 1], at, other) + if last in other then [] else [at[last]]
  }

  function Conflicts(lib: Library, order: seq<string>, at: BlockMap, other: BlockMap): (r: seq<Conflict>)
    requires forall k :: k in order ==> k in at
  {
    if |order| == 0 then []
    else
      var last := order[|order| - 1];
      Conflicts(lib, order[..|order| - 1], at, other)
      + if last in other && BlockFingerprint(lib, at[last]) != BlockFingerprint(lib, other[last])
        then [Conflict(last, at[last], other[last])] else []
  }

  /** The blocks of `here` whose key `there` lacks. */
  function Missing(lib: Library, here: seq<Block>, there: seq<Block>): seq<Block> {
    KeyMapKeys(lib, here);
    Only(FirstKeys(lib, here), KeyMap(lib, here), KeyMap(lib, there))
  }

  function Differing(lib: Library, local: seq<Block>, remote: seq<Block>): seq<Conflict> {
    KeyMapKeys(lib, local);
    Conflicts(lib, FirstKeys(lib, local), KeyMap(lib, local), KeyMap(lib, remote))
  }

  method DetectChainDiff(lib: Library, local: seq<Block>, remote: seq<Block>)
    returns (localOnly: seq<Block>, remoteOnly: seq<Block>, conflicts: seq<Conflict>)
    ensures localOnly == Missing(lib, local, remote) && remoteOnly == Missing(lib, remote, local)
    ensures conflicts == Differing(lib, local, remote)
  {
    hide BlockKey, KeyMap, FirstKeys, BlockFingerprint;
    var localOrder, localMap := BuildMap(lib, local);
    var remoteOrder, remoteMap := BuildMap(lib, remote);
    KeyMapKeys(lib, local);
    KeyMapKeys(lib, remote);
    localOnly, remoteOnly, conflicts := [], [], [];
    for i := 0 to |localOrder|
      invariant localOnly == Only(localOrder[..i], localMap, remoteMap)
      invariant conflicts == Conflicts(lib, localOrder[..i], localMap, remoteMap)
    {
      assert localOrder[..i + 1][..i] == localOrder[..i];
      var key := localOrder[i];
      if key !in remoteMap {
        localOnly := localOnly + [localMap[key]];
        continue;
      }
      if BlockFingerprint(lib, localMap[key]) != BlockFingerprint(lib, remoteMap[key]) {
        conflicts := conflicts + [Conflict(key, localMap[key], remoteMap[key])];
      }
    }
    for j := 0 to |remoteOrder|
      invariant remoteOnly == Only(remoteOrder[..j], remoteMap, localMap)
    {
      assert remoteOrder[..j + 1][..j] == remoteOrder[..j];
      if remoteOrder[j] !in localMap { remoteOnly := remoteOnly + [remoteMap[remoteOrder[j]]]; }
    }
    assert localOrder[..|localOrder|] == localOrder && remoteOrder[..|remoteOrder|] == remoteOrder;
  }

  predicate OnOneSide(here: BlockMap, there: BlockMap, b: Block) {
    exists k :: k in here && k !in there && here[k] == b
  }

  /** The one-sided part of a diff: one block per key the other side lacks. */
  lemma MissingMeaning(lib: Library, here: seq<Block>, there: seq<Block>, b: Block)
    ensures b in Missing(lib, here, there) <==> OnOneSide(KeyMap(lib, here), KeyMap(lib, there), b)
    ensures |Missing(lib, here, there)| == |KeyMap(lib, here).Keys - KeyMap(lib, there).Keys|
  {
    hide BlockKey, KeyMap, FirstKeys, Only, OnOneSide, Distinct;
    KeyMapKeys(lib, here);
    FirstKeysDistinct(lib, here);
    OnlyMembers(FirstKeys(lib, here), KeyMap(lib, here), KeyMap(lib, there), b);
    OnlyCount(FirstKeys(lib, here), KeyMap(lib, here), KeyMap(lib, there));
  }

  /** The conflicts of a diff: the shared keys whose blocks differ in some field, data up to key order. */
  lemma DifferingMeaning(lib: Library, local: seq<Block>, remote: seq<Block>, c: Conflict)
    requires StrictTotal(lib.less) && Json.WellFormed(c.local.data) && Json.WellFormed(c.remote.data)
    ensures c in Differing(lib, local, remote) <==>
      && c.key in KeyMap(lib, local) && c.key in KeyMap(lib, remote)
      && c.local == KeyMap(lib, local)[c.key] && c.remote == KeyMap(lib, remote)[c.key]
      && !SameBlock(c.local, c.remote)
  {
    hide BlockKey, KeyMap, FirstKeys, BlockFingerprint, SameBlock, Conflicts;
    KeyMapKeys(lib, local);
    ConflictMembers(lib, FirstKeys(lib, local), KeyMap(lib, local), KeyMap(lib, remote), c);
    FingerprintMeaning(lib, c.local, c.remote);
  }

  lemma OnlyMembers(order: seq<string>, at: BlockMap, other: BlockMap, b: Block)
    requires forall k :: k in order <==> k in at
    ensures b in Only(order, at, other) <==> OnOneSide(at, other, b)
  {
    OnlyListed(order, at, other, b);
  }

  lemma {:induction false} OnlyListed(order: seq<string>, at: BlockMap, other: BlockMap, b: Block)
    requires forall k :: k in order ==> k in at
    ensures b in Only(order, at, other) <==> exists k :: k in order && k !in other && at[k] == b
  {
    if |order| > 0 {
      var n := |order| - 1;
      assert order == order[..n] + [order[n]];
      OnlyListed(order[..n], at, other, b);
    }
  }

  lemma OnlyCount(order: seq<string>, at: BlockMap, other: BlockMap)
    requires forall k :: k in order <==> k in at
    requires Distinct(order)
    ensures |Only(order, at, other)| == |at.Keys - other.Keys|
  {
    OnlyListedCount(order, at, other);
    assert (set k | k in order && k !in other) == at.Keys - other.Keys;
  }

  lemma {:induction false} OnlyListedCount(order: seq<string>, at: BlockMap, other: BlockMap)
    requires forall k :: k in order ==> k in at
    requires Distinct(order)
    ensures |Only(order, at, other)| == |(set k | k in order && k !in other)|
  {
    if |order| > 0 {
      var n := |order| - 1;
      var last, rest := order[n], order[..n];
      OnlyListedCount(rest, at, other);
      hide Only;
      ListedWithout(order, other);
    } else {
      assert (set k | k in order && k !in other) == {};
    }
  }

  lemma ListedWithout(order: seq<string>, other: BlockMap)
    requires |order| > 0 && Distinct(order)
    ensures var n := |order| - 1;
      var before, after := set k | k in order[..n] && k !in other, set k | k in order && k !in other;
      after == (if order[n] in other then before else before + {order[n]}) && order[n] !in before
  {
    var n := |order| - 1;
    assert order == order[..n] + [order[n]];
    assert order[n] !in order[..n];
  }

  lemma {:induction false} ConflictMembers(lib: Library, order: seq<string>, at: BlockMap, other: BlockMap, c: Conflict)
    requires forall k :: k in order ==> k in at
    ensures c in Conflicts(lib, order, at, other) <==>
      && c.key in order && c.key in other && c.local == at[c.key] && c.remote == other[c.key]
      && BlockFingerprint(lib, c.local) != BlockFingerprint(lib, c.remote)
  {
    hide BlockFingerprint;
    if |order| > 0 {
      var n := |order| - 1;
      assert order == order[..n] + [order[n]];
      ConflictMembers(lib, order[..n], at, other, c);
    }
  }

  // ---------- What a pull leaves to be pulled ----------

  /**
    After a pull nothing of the remote is missing; the block count grows by the
    number of remote-only keys; and a key still differs from the remote only where
    the strategy kept the local block: nowhere under prefer-remote, everywhere it
    differed under prefer-local, and where the local block was strictly later
    under last-write-wins.
  */
  lemma PullThenDiff(lib: Library, strategy: Strategy, local: seq<Block>, remote: seq<Block>)
    requires DuplicateFree(lib, local) && DuplicateFree(lib, remote)
    ensures var l, r := KeyMap(lib, local), KeyMap(lib, remote);
      var m := KeyMap(lib, Resolve(lib, strategy, local, remote));
      && r.Keys <= m.Keys && m.Keys - r.Keys == l.Keys - r.Keys
      && |Resolve(lib, strategy, local, remote)| == |local| + |r.Keys - l.Keys|
      && forall k :: k in r ==>
           (BlockFingerprint(lib, m[k]) != BlockFingerprint(lib, r[k]) <==>
              && k in l && BlockFingerprint(lib, l[k]) != BlockFingerprint(lib, r[k])
              && (strategy.PreferLocal? ||
                  (strategy.LastWriteWins? && Timestamp(lib, l[k]) > Timestamp(lib, r[k]))))
  {
    hide BlockKey, KeyMap, BlockFingerprint, Timestamp, Resolve, DuplicateFree, InOrder;
    var l, r := KeyMap(lib, local), KeyMap(lib, remote);
    var merged := Resolve(lib, strategy, local, remote);
    ResolveIsMerge(lib, strategy, local, remote);
    SizeIsKeys(lib, local);
    SizeIsKeys(lib, merged);
    var m := KeyMap(lib, merged);
    assert m.Keys == l.Keys + (r.Keys - l.Keys);
  }

  lemma SizeIsKeys(lib: Library, blocks: seq<Block>)
    requires DuplicateFree(lib, blocks)
    ensures |blocks| == |KeyMap(lib, blocks).Keys|
  {
    hide BlockKey, KeyMap, FirstKeys, DuplicateFree;
    FirstKeysOfDuplicateFree(lib, blocks);
    KeyMapKeys(lib, blocks);
    FirstKeysDistinct(lib, blocks);
    DistinctCount(FirstKeys(lib, blocks), KeyMap(lib, blocks).Keys);
  }

  lemma {:induction false} DistinctCount(keys: seq<string>, s: set<string>)
    requires forall k :: k in keys <==> k in s
    requires Distinct(keys)
    ensures |keys| == |s|
  {
    if |keys| > 0 {
      var n := |keys| - 1;
      assert keys[n] in s;
      forall k
        ensures k in keys[..n] <==> k in s - {keys[n]}
      {
        assert k in keys <==> k in keys[..n] || k == keys[n];
      }
      DistinctCount(keys[..n], s - {keys[n]});
    } else {
      assert s == {} by {
        assert forall k :: k in s ==> k in keys;
      }
    }
  }
}
