/**
  Merging two copies of a chain: keys and fingerprints of loose blocks, the diff,
  the three conflict strategies, and the algebra of last-write-wins.
*/
module ReplicaMerge {
  import opened Basics
  import opened Json
  import Canonical
  import BlockFiles
  import KeyText

  /** A block as replicas exchange it: every field may be missing (missing data is Undefined). */
  datatype Block = Block(
    index: Option<int>, timestamp: Option<string>, hash: Option<string>, chain: Option<string>, data: Json)

  /** The collation of object keys, and the date parser (None where the result is not finite). */
  datatype Library = Library(less: TextOrder, date: string -> Option<int>)

  datatype Strategy = LastWriteWins | PreferLocal | PreferRemote

  // ---------- Keys and fingerprints ----------

  function IndexText(i: int): string {
    if i < 0 then "-" + Decimal(-i) else Decimal(i)
  }

  /** The block's data, an empty object standing for null or missing data. */
  function DataOf(b: Block): Json {
    if b.data.Null? || b.data.Undefined? then Obj([]) else b.data
  }

  predicate Hashed(b: Block) { b.hash.Some? && b.hash.value != "" }

  /** The timestamp as keys show it. */
  function Stamp(b: Block): string { if b.timestamp.Some? then b.timestamp.value else "unknown" }

  function BlockKey(lib: Library, b: Block): string {
    if Hashed(b) then "hash:" + b.hash.value
    else if b.index.Some? then "idx:" + IndexText(b.index.value)
    else "ts:" + Stamp(b) + ":" + Canonical.StableStringify(lib.less, DataOf(b))
  }

  function OrUndefined(s: Option<string>): Json {
    match s case Some(text) => Str(text) case None => Undefined
  }

  function FingerprintedValue(b: Block): Json {
    Obj([Field("index", if b.index.Some? then Num(IndexText(b.index.value)) else Undefined),
         Field("timestamp", OrUndefined(b.timestamp)), Field("hash", OrUndefined(b.hash)),
         Field("chain", OrUndefined(b.chain)), Field("data", DataOf(b))])
  }

  function BlockFingerprint(lib: Library, b: Block): string {
    Canonical.StableStringify(lib.less, FingerprintedValue(b))
  }

  /** The same data: up to key order; null or missing data counts as the empty object, and a list of one
      undefined item as the empty list. */
  predicate SameData(a: Block, b: Block) {
    Canonical.SameUpToKeyOrder(
      Joined(if a.data == Null || a.data == Undefined then Obj([]) else a.data),
      Joined(if b.data == Null || b.data == Undefined then Obj([]) else b.data))
  }

  /** What a fingerprint compares. */
  predicate SameBlock(a: Block, b: Block) {
    && a.index == b.index && a.timestamp == b.timestamp && a.hash == b.hash && a.chain == b.chain
    && SameData(a, b)
  }

  lemma IndexTextUnique(i: int, j: int)
    ensures IndexText(i) == IndexText(j) <==> i == j
    ensures IsNumberText(IndexText(i))
  {
    DecimalDigits(if i < 0 then -i else i);
    DecimalDigits(if j < 0 then -j else j);
    if IndexText(i) == IndexText(j) {
      var m, n := if i < 0 then -i else i, if j < 0 then -j else j;
      assert (i < 0) == (j < 0) by {
        assert IndexText(i)[0] == IndexText(j)[0];
      }
      assert i < 0 ==> IndexText(i)[1..] == Decimal(m) && IndexText(j)[1..] == Decimal(n);
      DecimalUnique(m, n);
    }
  }

  /** Two blocks have one fingerprint exactly when they agree in every field and hold the same data. */
  lemma FingerprintMeaning(lib: Library, a: Block, b: Block)
    requires StrictTotal(lib.less) && WellFormed(a.data) && WellFormed(b.data)
    ensures BlockFingerprint(lib, a) == BlockFingerprint(lib, b) <==> SameBlock(a, b)
  {
    hide WellFormed, SameBlock, FingerprintedValue, StrictTotal;
    FingerprintWellFormed(a);
    FingerprintWellFormed(b);
    Canonical.CanonicalText(lib.less, FingerprintedValue(a), FingerprintedValue(b));
    SameFingerprinted(a, b);
  }

  lemma SameFingerprinted(a: Block, b: Block)
    ensures Canonical.SameUpToKeyOrder(Joined(FingerprintedValue(a)), Joined(FingerprintedValue(b))) <==> SameBlock(a, b)
  {
    hide IndexText, Joined, DistinctKeys;
    IndexTexts(a, b);
    JoinedFingerprint(a);
    JoinedFingerprint(b);
    var f, g := Joined(FingerprintedValue(a)).fields, Joined(FingerprintedValue(b)).fields;
    SameLeaves(f[0].value, g[0].value);
    SameLeaves(f[1].value, g[1].value);
    SameLeaves(f[2].value, g[2].value);
    SameLeaves(f[3].value, g[3].value);
    FingerprintFields(b);
    hide Canonical.SameUpToKeyOrder;
    BlockFiles.SameFive(f, g);
  }

  /** Only the data can hold a list. */
  lemma JoinedFingerprint(b: Block)
    ensures Joined(FingerprintedValue(b)) ==
      Obj(FingerprintedValue(b).fields[..4] + [Field("data", Joined(DataOf(b)))])
  {
    hide IndexText, DataOf;
    var f := FingerprintedValue(b).fields;
    var r := JoinedFields(f);
    assert forall i :: 0 <= i < 5 ==> r[i] == Field(f[i].key, Joined(f[i].value));
    assert r == f[..4] + [Field("data", Joined(DataOf(b)))];
  }

  lemma IndexTexts(a: Block, b: Block)
    ensures a.index.Some? && b.index.Some? ==>
      (IndexText(a.index.value) == IndexText(b.index.value) <==> a.index == b.index)
  {
    if a.index.Some? && b.index.Some? { IndexTextUnique(a.index.value, b.index.value); }
  }

  lemma SameLeaves(v: Json, w: Json)
    requires v.Num? || v.Str? || v.Undefined?
    ensures Canonical.SameUpToKeyOrder(v, w) <==> v == w
  {}

  lemma FingerprintFields(b: Block)
    ensures DistinctKeys(FingerprintedValue(b).fields) && DistinctKeys(Joined(FingerprintedValue(b)).fields)
  {
    var f := FingerprintedValue(b).fields;
    assert f[0].key[0] == 'i' && f[1].key[0] == 't' && f[2].key[0] == 'h' && f[3].key[0] == 'c' && f[4].key[0] == 'd';
  }

  lemma FingerprintWellFormed(b: Block)
    requires WellFormed(b.data)
    ensures WellFormed(FingerprintedValue(b))
  {
    if b.index.Some? { IndexTextUnique(b.index.value, b.index.value); }
    FingerprintFields(b);
  }

  /** Two blocks share a key exactly when they share a hash, or neither has one and they share an index, or neither
      has an index either and they share timestamp and data; a missing timestamp counts as the text "unknown". */
  lemma KeyMeaning(lib: Library, a: Block, b: Block)
    requires StrictTotal(lib.less) && WellFormed(a.data) && WellFormed(b.data)
    ensures BlockKey(lib, a) == BlockKey(lib, b) <==>
      if (a.hash.Some? && a.hash != Some("")) || (b.hash.Some? && b.hash != Some("")) then a.hash == b.hash
      else if a.index.Some? || b.index.Some? then a.index == b.index
      else
        && (a.timestamp == b.timestamp
            || (a.timestamp == None && b.timestamp == Some("unknown"))
            || (a.timestamp == Some("unknown") && b.timestamp == None))
        && SameData(a, b)
  {
    hide WellFormed, IndexText, Canonical.StableStringify, SameData;
    IndexTexts(a, b);
    Strip("hash:", if a.hash.Some? then a.hash.value else "", if b.hash.Some? then b.hash.value else "");
    Strip("idx:", if a.index.Some? then IndexText(a.index.value) else "", if b.index.Some? then IndexText(b.index.value) else "");
    StampedKeys(lib, a, b);
    assert BlockKey(lib, a)[0] == if Hashed(a) then 'h' else if a.index.Some? then 'i' else 't';
    assert BlockKey(lib, b)[0] == if Hashed(b) then 'h' else if b.index.Some? then 'i' else 't';
  }

  /** Whatever the timestamps, colons included, the key tells timestamp and data apart. */
  lemma StampedKeys(lib: Library, a: Block, b: Block)
    requires StrictTotal(lib.less) && WellFormed(a.data) && WellFormed(b.data)
    ensures "ts:" + Stamp(a) + ":" + Canonical.StableStringify(lib.less, DataOf(a))
            == "ts:" + Stamp(b) + ":" + Canonical.StableStringify(lib.less, DataOf(b))
            <==> Stamp(a) == Stamp(b) && SameData(a, b)
  {
    hide WellFormed, Stamp, Canonical.SameUpToKeyOrder, Canonical.SortValue, Print, Joined;
    var x, y := Canonical.StableStringify(lib.less, DataOf(a)), Canonical.StableStringify(lib.less, DataOf(b));
    DataWellFormed(a);
    DataWellFormed(b);
    Canonical.CanonicalText(lib.less, DataOf(a), DataOf(b));
    Canonical.SortKeepsWellFormed(lib.less, DataOf(a));
    Canonical.SortKeepsWellFormed(lib.less, DataOf(b));
    KeyText.SplitUnique(Stamp(a), Stamp(b), Canonical.SortValue(lib.less, DataOf(a)), Canonical.SortValue(lib.less, DataOf(b)));
    Strip("ts:", Stamp(a) + ":" + x, Stamp(b) + ":" + y);
    assert "ts:" + Stamp(a) + ":" + x == "ts:" + (Stamp(a) + ":" + x);
    assert "ts:" + Stamp(b) + ":" + y == "ts:" + (Stamp(b) + ":" + y);
  }

  lemma DataWellFormed(b: Block)
    requires WellFormed(b.data)
    ensures WellFormed(DataOf(b))
  {}

  lemma Strip(p: string, s: string, t: string)
    ensures p + s == p + t <==> s == t
  {
    assert (p + s)[|p|..] == s && (p + t)[|p|..] == t;
  }

  // ---------- Lists of blocks as maps ----------

  /** The map a list builds: the last block of each key. */
  function KeyMap(lib: Library, blocks: seq<Block>): map<string, Block> {
    if |blocks| == 0 then map[]
    else var last := blocks[|blocks| - 1]; KeyMap(lib, blocks[..|blocks| - 1])[BlockKey(lib, last) := last]
  }

  /** The keys of a list in the order they first appear: the order of an insertion-ordered map. */
  function FirstKeys(lib: Library, blocks: seq<Block>): seq<string> {
    if |blocks| == 0 then []
    else
      var before, k := FirstKeys(lib, blocks[..|blocks| - 1]), BlockKey(lib, blocks[|blocks| - 1]);
      if k in before then before else before + [k]
  }

  predicate DuplicateFree(lib: Library, blocks: seq<Block>) {
    forall i, j :: 0 <= i < j < |blocks| ==> BlockKey(lib, blocks[i]) != BlockKey(lib, blocks[j])
  }

  function Timestamp(lib: Library, b: Block): int {
    if b.timestamp.Some? && b.timestamp.value != "" && lib.date(b.timestamp.value).Some?
    then lib.date(b.timestamp.value).value else 0
  }

  function Winner(lib: Library, strategy: Strategy, local: Block, remote: Block): Block {
    match strategy
    case PreferLocal => local
    case PreferRemote => remote
    case LastWriteWins => if Timestamp(lib, remote) >= Timestamp(lib, local) then remote else local
  }

  /** One remote block meeting the merged map. */
  function Meet(lib: Library, strategy: Strategy, m: map<string, Block>, b: Block): map<string, Block> {
    var k := BlockKey(lib, b);
    m[k := if k in m then Winner(lib, strategy, m[k], b) else b]
  }

  function Absorb(lib: Library, strategy: Strategy, m: map<string, Block>, remote: seq<Block>): map<string, Block> {
    if |remote| == 0 then m
    else Meet(lib, strategy, Absorb(lib, strategy, m, remote[..|remote| - 1]), remote[|remote| - 1])
  }

  // ---------- The final order ----------

  const MAX_SAFE_INTEGER: int := 9007199254740991

  function Position(b: Block): int { if b.index.Some? then b.index.value else MAX_SAFE_INTEGER }

  predicate Before(lib: Library, a: Block, b: Block) {
    if Position(a) != Position(b) then Position(a) < Position(b) else Timestamp(lib, a) < Timestamp(lib, b)
  }

  predicate InOrder(lib: Library, blocks: seq<Block>) {
    forall i, j :: 0 <= i < j < |blocks| ==> !Before(lib, blocks[j], blocks[i])
  }

  function InsertBlock(lib: Library, b: Block, blocks: seq<Block>): (r: seq<Block>)
    ensures |r| == |blocks| + 1
  {
    if |blocks| == 0 || !Before(lib, blocks[0], b) then [b] + blocks
    else [blocks[0]] + InsertBlock(lib, b, blocks[1..])
  }

  /** The stable sort by index, then timestamp. */
  function SortBlocks(lib: Library, blocks: seq<Block>): (r: seq<Block>)
    ensures |r| == |blocks|
  {
    if |blocks| == 0 then [] else InsertBlock(lib, blocks[0], SortBlocks(lib, blocks[1..]))
  }

  function Values(order: seq<string>, at: map<string, Block>): (r: seq<Block>)
    requires forall k :: k in order ==> k in at
    ensures |r| == |order|
  {
    seq(|order|, i requires 0 <= i < |order| => at[order[i]])
  }

  // ---------- The operations ----------

  lemma {:induction false} KeyMapKeys(lib: Library, blocks: seq<Block>)
    ensures forall k :: k in KeyMap(lib, blocks) <==> k in FirstKeys(lib, blocks)
  {
    hide BlockKey;
    if |blocks| > 0 { KeyMapKeys(lib, blocks[..|blocks| - 1]); }
  }

  lemma {:induction false} AbsorbKeys(lib: Library, strategy: Strategy, local: seq<Block>, remote: seq<Block>)
    ensures forall k ::
      k in Absorb(lib, strategy, KeyMap(lib, local), remote) <==> k in FirstKeys(lib, local + remote)
  {
    hide BlockKey, Winner;
    if |remote| == 0 {
      assert local + remote == local;
      KeyMapKeys(lib, local);
    } else {
      AbsorbKeys(lib, strategy, local, remote[..|remote| - 1]);
      FirstKeysExtend(lib, local, remote);
    }
  }

  lemma FirstKeysNext(lib: Library, blocks: seq<Block>)
    requires |blocks| > 0
    ensures var before, k := FirstKeys(lib, blocks[..|blocks| - 1]), BlockKey(lib, blocks[|blocks| - 1]);
      FirstKeys(lib, blocks) == if k in before then before else before + [k]
  {
    hide BlockKey;
  }

  lemma FirstKeysExtend(lib: Library, local: seq<Block>, remote: seq<Block>)
    requires |remote| > 0
    ensures var before, k := FirstKeys(lib, local + remote[..|remote| - 1]), BlockKey(lib, remote[|remote| - 1]);
      FirstKeys(lib, local + remote) == if k in before then before else before + [k]
  {
    hide BlockKey, FirstKeys;
    var all := local + remote;
    FirstKeysNext(lib, all);
    assert all[..|all| - 1] == local + remote[..|remote| - 1] && all[|all| - 1] == remote[|remote| - 1];
  }

  lemma NothingAbsorbed(lib: Library, strategy: Strategy, m: map<string, Block>)
    ensures Absorb(lib, strategy, m, []) == m
  {}

  lemma AbsorbNext(lib: Library, strategy: Strategy, m: map<string, Block>, remote: seq<Block>)
    requires |remote| > 0
    ensures Absorb(lib, strategy, m, remote)
         == Meet(lib, strategy, Absorb(lib, strategy, m, remote[..|remote| - 1]), remote[|remote| - 1])
  {
    hide Meet;
  }

  /** The merged list. */
  function Resolve(lib: Library, strategy: Strategy, local: seq<Block>, remote: seq<Block>): seq<Block> {
    AbsorbKeys(lib, strategy, local, remote);
    SortBlocks(lib, Values(FirstKeys(lib, local + remote), Absorb(lib, strategy, KeyMap(lib, local), remote)))
  }

  /** A list as an insertion-ordered map. */
  method BuildMap(lib: Library, blocks: seq<Block>) returns (order: seq<string>, at: map<string, Block>)
    ensures order == FirstKeys(lib, blocks) && at == KeyMap(lib, blocks)
  {
    hide BlockKey;
    order, at := [], map[];
    for i := 0 to |blocks|
      invariant order == FirstKeys(lib, blocks[..i]) && at == KeyMap(lib, blocks[..i])
    {
      assert blocks[..i + 1][..i] == blocks[..i];
      KeyMapKeys(lib, blocks[..i]);
      var key := BlockKey(lib, blocks[i]);
      if key !in at { order := order + [key]; }
      at := at[key := blocks[i]];
    }
    assert blocks[..|blocks|] == blocks;
  }

  method ResolveChainConflicts(lib: Library, strategy: Strategy, local: seq<Block>, remote: seq<Block>)
    returns (merged: seq<Block>)
    ensures merged == Resolve(lib, strategy, local, remote)
  {
    hide BlockKey, Timestamp, SortBlocks, KeyMap, FirstKeys, Absorb, Values;
    NothingAbsorbed(lib, strategy, KeyMap(lib, local));
    var order, at := BuildMap(lib, local);
    assert local + remote[..0] == local;
    for j := 0 to |remote|
      invariant order == FirstKeys(lib, local + remote[..j])
      invariant at == Absorb(lib, strategy, KeyMap(lib, local), remote[..j])
    {
      assert remote[..j + 1][..j] == remote[..j];
      AbsorbKeys(lib, strategy, local, remote[..j]);
      FirstKeysExtend(lib, local, remote[..j + 1]);
      AbsorbNext(lib, strategy, KeyMap(lib, local), remote[..j + 1]);
      var key := BlockKey(lib, remote[j]);
      if key !in at {
        order := order + [key];
        at := at[key := remote[j]];
        continue;
      }
      if strategy.PreferLocal? { continue; }
      if strategy.PreferRemote? {
        at := at[key := remote[j]];
        continue;
      }
      if Timestamp(lib, remote[j]) >= Timestamp(lib, at[key]) {
        at := at[key := remote[j]];
      }
    }
    assert remote[..|remote|] == remote;
    AbsorbKeys(lib, strategy, local, remote);
    merged := SortBlocks(lib, Values(order, at));
  }
}
