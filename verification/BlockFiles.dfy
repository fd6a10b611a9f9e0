/**
  One chain on disk: numbered block files, their validation, the hash of a block,
  and the removal of trailing empty files.
*/
module BlockFiles {
  import opened Basics
  import opened Json
  import Canonical
  import Scanner = JsonScanner

  datatype Result<+T> = Ok(value: T) | IntegrityError(file: nat)

  datatype Block = Block(index: nat, timestamp: string, chain: string, data: Json, prevHash: string, hash: string)

  /** SHA-256 in hex, the enumeration order of object keys, the JSON parser, and the reading of whole numbers. */
  datatype Library = Library(
    sha256: string -> string, less: TextOrder, parse: Scanner.Parser, number: string -> Option<nat>)

  const GENESIS_PREV_HASH: string := Repeat('0', 64)

  /** The object that is hashed: the block without its hash. */
  function HashedValue(b: Block): Json {
    Obj([Field("index", Num(Decimal(b.index))), Field("timestamp", Str(b.timestamp)), Field("chain", Str(b.chain)),
         Field("data", b.data), Field("prev_hash", Str(b.prevHash))])
  }

  function HashBlock(lib: Library, b: Block): string {
    lib.sha256(Canonical.SortedText(lib.less, HashedValue(b)))
  }

  /** What early versions stored: the hash of the data alone, in its own key order. */
  function LegacyHash(lib: Library, b: Block): string {
    lib.sha256(Stringify(b.data, COMPACT))
  }

  predicate HashOk(lib: Library, b: Block) {
    b.hash == HashBlock(lib, b) || b.hash == LegacyHash(lib, b)
  }

  /** A block that may follow `previous`. */
  predicate Follows(lib: Library, b: Block, previous: Option<Block>) {
    && HashOk(lib, b)
    && match previous
       case None => b.index == 1 && (b.prevHash == "" || b.prevHash == GENESIS_PREV_HASH)
       case Some(p) =>
         && b.index == p.index + 1 && b.prevHash == p.hash
         && (b.index == 1 ==> b.prevHash == "" || b.prevHash == GENESIS_PREV_HASH)
  }

  function Last(blocks: seq<Block>): Option<Block> {
    if |blocks| == 0 then None else Some(blocks[|blocks| - 1])
  }

  /** The chains the validation accepts. */
  predicate ChainOk(lib: Library, blocks: seq<Block>) {
    forall i :: 0 <= i < |blocks| ==> Follows(lib, blocks[i], Last(blocks[..i]))
  }

  lemma ChainSnoc(lib: Library, blocks: seq<Block>, b: Block)
    requires ChainOk(lib, blocks) && Follows(lib, b, Last(blocks))
    ensures ChainOk(lib, blocks + [b])
  {
    hide Follows;
    var all := blocks + [b];
    forall i | 0 <= i < |all|
      ensures Follows(lib, all[i], Last(all[..i]))
    {
      if i < |blocks| {
        assert all[..i] == blocks[..i];
      } else {
        assert all[..i] == blocks;
      }
    }
  }

  lemma ChainPrefix(lib: Library, blocks: seq<Block>, n: nat)
    requires ChainOk(lib, blocks) && n <= |blocks|
    ensures ChainOk(lib, blocks[..n])
  {
    hide Follows;
    forall i | 0 <= i < n
      ensures Follows(lib, blocks[..n][i], Last(blocks[..n][..i]))
    {
      assert blocks[..n][..i] == blocks[..i];
    }
  }

  lemma {:induction false} ChainIndices(lib: Library, blocks: seq<Block>, i: nat)
    requires ChainOk(lib, blocks) && i < |blocks|
    ensures blocks[i].index == i + 1
  {
    if i > 0 {
      ChainIndices(lib, blocks, i - 1);
      assert Last(blocks[..i]) == Some(blocks[i - 1]);
    }
  }

  /** The blocks are numbered from 1. */
  predicate Numbered(blocks: seq<Block>) {
    forall i :: 0 <= i < |blocks| ==> blocks[i].index == i + 1
  }

  /** Each block names the hash of the one before; the first names none. */
  predicate Linked(blocks: seq<Block>) {
    forall i :: 0 <= i < |blocks| ==> LinkOk(blocks, i)
  }

  predicate LinkOk(blocks: seq<Block>, i: nat)
    requires i < |blocks|
  {
    if i == 0 then blocks[0].prevHash == "" || blocks[0].prevHash == GENESIS_PREV_HASH
    else blocks[i].prevHash == blocks[i - 1].hash
  }

  /** The hash before the first block: 64 zeros. */
  lemma GenesisHashIs(s: string)
    ensures s == GENESIS_PREV_HASH <==> |s| == 64 && forall i :: 0 <= i < 64 ==> s[i] == '0'
  {
    assert |GENESIS_PREV_HASH| == 64 && forall i :: 0 <= i < 64 ==> GENESIS_PREV_HASH[i] == '0';
    if |s| == 64 && forall i :: 0 <= i < 64 ==> s[i] == '0' {
      assert forall i :: 0 <= i < |s| ==> s[i] == GENESIS_PREV_HASH[i];
    }
  }

  lemma FollowsMeaning(lib: Library, blocks: seq<Block>, i: nat)
    requires i < |blocks| && (i > 0 ==> blocks[i - 1].index == i)
    ensures Follows(lib, blocks[i], Last(blocks[..i])) <==>
      blocks[i].index == i + 1 && HashOk(lib, blocks[i]) && LinkOk(blocks, i)
  {
    hide HashOk;
    if i > 0 { assert blocks[..i][i - 1] == blocks[i - 1]; }
  }

  /** What the validation accepts, told of the blocks themselves. */
  lemma ChainMeaning(lib: Library, blocks: seq<Block>)
    ensures ChainOk(lib, blocks) <==>
      && Numbered(blocks) && Linked(blocks)
      && forall b :: b in blocks ==> b.hash == HashBlock(lib, b) || b.hash == lib.sha256(Stringify(b.data, COMPACT))
  {
    hide Follows, HashBlock, Stringify, LinkOk;
    if ChainOk(lib, blocks) {
      forall i | 0 <= i < |blocks|
        ensures blocks[i].index == i + 1 && HashOk(lib, blocks[i]) && LinkOk(blocks, i)
      {
        if i > 0 { ChainIndices(lib, blocks, i - 1); }
        FollowsMeaning(lib, blocks, i);
      }
    } else {
      var i :| 0 <= i < |blocks| && !Follows(lib, blocks[i], Last(blocks[..i]));
      if Numbered(blocks) { FollowsMeaning(lib, blocks, i); }
      assert blocks[i] in blocks;
    }
  }

  // ---------- One file ----------

  /** The shape check: all six fields, each of its type, and data an object. */
  function ToChainBlock(lib: Library, v: Json): Option<Block> {
    if !v.Obj? then None
    else
      var index, timestamp, chain := Get(v.fields, "index"), Get(v.fields, "timestamp"), Get(v.fields, "chain");
      var data, prevHash, hash := Get(v.fields, "data"), Get(v.fields, "prev_hash"), Get(v.fields, "hash");
      if index.Num? && lib.number(index.text).Some? && timestamp.Str? && chain.Str? && prevHash.Str? && hash.Str?
         && data.Obj?
      then Some(Block(lib.number(index.text).value, timestamp.chars, chain.chars, data, prevHash.chars, hash.chars))
      else None
  }

  /** An object is taken for a block exactly when each of the six fields is there with its type, whatever else is. */
  lemma ShapeIff(lib: Library, v: Json, b: Block)
    ensures ToChainBlock(lib, v) == Some(b) <==>
      && v.Obj? && b.data.Obj? && Get(v.fields, "data") == b.data
      && Get(v.fields, "index").Num? && lib.number(Get(v.fields, "index").text) == Some(b.index)
      && Get(v.fields, "timestamp") == Str(b.timestamp) && Get(v.fields, "chain") == Str(b.chain)
      && Get(v.fields, "prev_hash") == Str(b.prevHash) && Get(v.fields, "hash") == Str(b.hash)
  {
    hide Get;
  }

  /** The block a file holds: none if it is empty, holds no object that parses, or one of the wrong shape. */
  function ReadBlockFile(lib: Library, raw: string): Option<Block> {
    match Scanner.FileValue(raw, lib.parse)
    case FoundValue(v) => ToChainBlock(lib, v)
    case _ => None
  }

  function ReadAll(lib: Library, raws: seq<string>): (files: seq<Option<Block>>)
    ensures |files| == |raws| && forall i :: 0 <= i < |raws| ==> files[i] == ReadBlockFile(lib, raws[i])
  {
    seq(|raws|, i requires 0 <= i < |raws| => ReadBlockFile(lib, raws[i]))
  }

  /** The object an append writes. */
  function BlockValue(b: Block): Json {
    Obj([Field("index", Num(Decimal(b.index))), Field("timestamp", Str(b.timestamp)), Field("chain", Str(b.chain)),
         Field("data", b.data), Field("prev_hash", Str(b.prevHash)), Field("hash", Str(b.hash))])
  }

  function FileText(b: Block): string { Stringify(BlockValue(b), Style("  ", "")) }

  /** The block as its file tells it: undefined parts of the data were not written. */
  function Stored(b: Block): Block { b.(data := Dropped(b.data)) }

  lemma KeysApart()
    ensures "index" != "timestamp" && "index" != "chain" && "index" != "data" && "index" != "prev_hash"
    ensures "index" != "hash" && "timestamp" != "chain" && "timestamp" != "data" && "timestamp" != "prev_hash"
    ensures "timestamp" != "hash" && "chain" != "data" && "chain" != "prev_hash" && "chain" != "hash"
    ensures "data" != "prev_hash" && "data" != "hash" && "prev_hash" != "hash"
  {
    assert "index"[0] == 'i' && "timestamp"[0] == 't' && "chain"[0] == 'c' && "data"[0] == 'd';
    assert "prev_hash"[0] == 'p' && "hash"[0] == 'h';
  }

  lemma BlockValueStored(b: Block)
    requires b.data.Obj?
    ensures Dropped(BlockValue(b)) == BlockValue(Stored(b))
    ensures Dropped(HashedValue(b)) == HashedValue(Stored(b))
  {
    var f, g := BlockValue(b).fields, HashedValue(b).fields;
    assert Leaves(f, 3) && Leaves(g, 3);
    DroppedAllButOne(f, 3);
    DroppedAllButOne(g, 3);
    assert f[3 := Field("data", Dropped(b.data))] == BlockValue(Stored(b)).fields;
    assert g[3 := Field("data", Dropped(b.data))] == HashedValue(Stored(b)).fields;
  }

  /** Every field but the i-th is a number or a text. */
  predicate Leaves(fields: seq<Field>, i: nat) {
    forall k :: 0 <= k < |fields| && k != i ==> fields[k].value.Num? || fields[k].value.Str?
  }

  lemma {:induction false} DroppedAllButOne(fields: seq<Field>, i: nat)
    requires i < |fields| && Leaves(fields, i) && fields[i].value.Obj?
    ensures DroppedFields(fields) == fields[i := Field(fields[i].key, Dropped(fields[i].value))]
  {
    var rest := fields[1..];
    if i == 0 {
      DroppedFieldsIdentity(rest);
    } else {
      assert Leaves(rest, i - 1);
      DroppedAllButOne(rest, i - 1);
    }
  }

  /** Reading a written file gives the stored block back. */
  lemma FileRoundTrip(lib: Library, b: Block)
    requires b.data.Obj?
    requires lib.parse(FileText(b)) == Some(Dropped(BlockValue(b))) && lib.number(Decimal(b.index)) == Some(b.index)
    ensures ReadBlockFile(lib, FileText(b)) == Some(Stored(b))
  {
    assert Stored(b).data.Obj?;
    hide Decimal, Dropped, Print, Scanner.Trim;
    BlockValueStored(b);
    Scanner.ObjectTextTrimmed(BlockValue(Stored(b)).fields, Style("  ", ""));
    hide Stringify, FileText;
    assert Scanner.FileValue(FileText(b), lib.parse) == Scanner.FoundValue(BlockValue(Stored(b))) by {
      FileTextIs(b);
    }
    ShapeRoundTrip(lib, Stored(b));
  }

  lemma FileTextIs(b: Block)
    ensures FileText(b) == Print(Dropped(BlockValue(b)), Style("  ", ""))
  {}

  /** The shape check gives back every block that is written. */
  lemma ShapeRoundTrip(lib: Library, b: Block)
    requires b.data.Obj? && lib.number(Decimal(b.index)) == Some(b.index)
    ensures ToChainBlock(lib, BlockValue(b)) == Some(b)
  {
    KeysApart();
    var f := BlockValue(b).fields;
    hide Decimal, Get;
    GetAt(f, 0);
    GetAt(f, 1);
    GetAt(f, 2);
    GetAt(f, 3);
    GetAt(f, 4);
    GetAt(f, 5);
  }

  /** Where keys are distinct each field is found under its key. */
  lemma {:induction false} GetAt(fields: seq<Field>, i: nat)
    requires DistinctKeys(fields) && i < |fields|
    ensures Get(fields, fields[i].key) == fields[i].value
  {
    if i > 0 { GetAt(fields[1..], i - 1); }
  }

  /** Whether a block is taken for intact does not depend on undefined parts of its data. */
  lemma StoredHashesAlike(lib: Library, b: Block)
    requires StrictTotal(lib.less) && WellFormed(b.data) && b.data.Obj?
    ensures HashBlock(lib, Stored(b)) == HashBlock(lib, b) && (HashOk(lib, Stored(b)) <==> HashOk(lib, b))
  {
    hide Decimal, Dropped, Print, WellFormed, StrictTotal;
    BlockValueStored(b);
    HashedWellFormed(b);
    DroppedTwice(HashedValue(b));
    DroppedTwice(b.data);
    StoredWellFormed(b);
    HashedWellFormed(Stored(b));
    Canonical.DroppedSort(lib.less, HashedValue(b));
    Canonical.DroppedSort(lib.less, HashedValue(Stored(b)));
  }

  lemma StoredWellFormed(b: Block)
    requires WellFormed(b.data)
    ensures WellFormed(Stored(b).data)
  {
    DroppedClear(b.data);
  }

  // ---------- Reading and validating ----------

  /** The texts of the files in order of their numbers. */
  method ReadAndValidate(lib: Library, raws: seq<string>) returns (r: Result<seq<Block>>)
    ensures var files := ReadAll(lib, raws);
      && (r.Ok? <==> NoneEmpty(files) && ChainOk(lib, Contents(files)))
      && (r.Ok? ==> r.value == Contents(files))
      && (r.Ok? ==> Numbered(r.value) && Linked(r.value) && forall b :: b in r.value ==>
            b.hash == HashBlock(lib, b) || b.hash == lib.sha256(Stringify(b.data, COMPACT)))
      && (r.IntegrityError? ==> r.file < |files| && FirstOffence(lib, files, r.file))
  {
    hide ReadBlockFile, HashBlock, LegacyHash;
    ghost var files := ReadAll(lib, raws);
    var loaded: seq<Block> := [];
    for i := 0 to |raws|
      invariant |loaded| == i && forall j :: 0 <= j < i ==> files[j] == Some(loaded[j])
    {
      var parsed := ReadBlockFile(lib, raws[i]);
      if parsed.None? {
        return IntegrityError(i);
      }
      loaded := loaded + [parsed.value];
    }
    assert loaded == Contents(files);
    var blocks: seq<Block> := [];
    for i := 0 to |loaded|
      invariant blocks == loaded[..i] && ChainOk(lib, blocks)
    {
      var current := loaded[i];
      if current.hash != HashBlock(lib, current) && current.hash != LegacyHash(lib, current) {
        NotAChain(lib, loaded, i);
        return IntegrityError(i);
      }
      if current.index == 1 && current.prevHash != "" && current.prevHash != GENESIS_PREV_HASH {
        NotAChain(lib, loaded, i);
        return IntegrityError(i);
      }
      if |blocks| == 0 {
        if current.index != 1 || (current.prevHash != "" && current.prevHash != GENESIS_PREV_HASH) {
          NotAChain(lib, loaded, i);
          return IntegrityError(i);
        }
      } else {
        var previous := blocks[|blocks| - 1];
        if current.index != previous.index + 1 || current.prevHash != previous.hash {
          NotAChain(lib, loaded, i);
          return IntegrityError(i);
        }
      }
      ChainSnoc(lib, blocks, current);
      assert loaded[..i + 1] == loaded[..i] + [current];
      blocks := blocks + [current];
    }
    assert loaded[..|loaded|] == loaded;
    ChainMeaning(lib, loaded);
    r := Ok(blocks);
  }

  /** The file an error names: the first that holds no block, or else the first whose block may not follow those before. */
  predicate FirstOffence(lib: Library, files: seq<Option<Block>>, i: nat)
    requires i < |files|
  {
    if NoneEmpty(files) then
      var blocks := Contents(files);
      ChainOk(lib, blocks[..i]) && !Follows(lib, blocks[i], Last(blocks[..i]))
    else
      files[i].None? && NoneEmpty(files[..i])
  }

  predicate NoneEmpty(files: seq<Option<Block>>) {
    forall i :: 0 <= i < |files| ==> files[i].Some?
  }

  function Contents(files: seq<Option<Block>>): (blocks: seq<Block>)
    requires NoneEmpty(files)
    ensures |blocks| == |files| && forall i :: 0 <= i < |files| ==> files[i] == Some(blocks[i])
  {
    seq(|files|, i requires 0 <= i < |files| => files[i].value)
  }

  lemma NotAChain(lib: Library, blocks: seq<Block>, i: nat)
    requires i < |blocks| && !Follows(lib, blocks[i], Last(blocks[..i]))
    ensures !ChainOk(lib, blocks)
  {}

  // ---------- What the block hash covers ----------

  lemma HashedFields(b: Block)
    ensures var f := HashedValue(b).fields;
      && Canonical.Keys(f) == {"index", "timestamp", "chain", "data", "prev_hash"}
      && DistinctKeys(f)
  {
    var f := HashedValue(b).fields;
    assert f[0].key == "index" && f[1].key == "timestamp" && f[2].key == "chain";
    assert f[3].key == "data" && f[4].key == "prev_hash";
  }

  lemma HashedWellFormed(b: Block)
    requires WellFormed(b.data)
    ensures WellFormed(HashedValue(b))
  {
    DecimalDigits(b.index);
    HashedFields(b);
  }

  /**
    With a collision-free digest, two blocks hash alike exactly when they agree in index, timestamp, chain,
    predecessor hash, and in their data up to the order of object keys and undefined parts.
  */
  lemma HashCovers(lib: Library, a: Block, b: Block)
    requires StrictTotal(lib.less) && WellFormed(a.data) && WellFormed(b.data) && a.data.Obj? && b.data.Obj?
    requires forall s, t :: lib.sha256(s) == lib.sha256(t) ==> s == t
    ensures HashBlock(lib, a) == HashBlock(lib, b) <==>
      && a.index == b.index && a.timestamp == b.timestamp && a.chain == b.chain && a.prevHash == b.prevHash
      && Canonical.SameUpToKeyOrder(Dropped(a.data), Dropped(b.data))
  {
    HashedWellFormed(a);
    HashedWellFormed(b);
    Canonical.SortedTextMeaning(lib.less, HashedValue(a), HashedValue(b));
    hide WellFormed, Dropped, HashedValue, Canonical.SameUpToKeyOrder, Canonical.SortedText;
    BlockValueStored(a);
    BlockValueStored(b);
    SameHashedValues(Stored(a), Stored(b));
  }

  lemma SameHashedValues(a: Block, b: Block)
    ensures Canonical.SameUpToKeyOrder(HashedValue(a), HashedValue(b)) <==>
      && a.index == b.index && a.timestamp == b.timestamp && a.chain == b.chain && a.prevHash == b.prevHash
      && Canonical.SameUpToKeyOrder(a.data, b.data)
  {
    var f, g := HashedValue(a).fields, HashedValue(b).fields;
    HashedFields(b);
    if Decimal(a.index) == Decimal(b.index) { DecimalUnique(a.index, b.index); }
    SameScalars(f[0].value, g[0].value);
    SameScalars(f[1].value, g[1].value);
    SameScalars(f[2].value, g[2].value);
    SameScalars(f[4].value, g[4].value);
    hide Decimal, Canonical.SameUpToKeyOrder, DistinctKeys;
    SameFive(f, g);
  }

  lemma SameFive(f: seq<Field>, g: seq<Field>)
    requires |f| == |g| == 5 && DistinctKeys(g)
    requires f[0].key == g[0].key && f[1].key == g[1].key && f[2].key == g[2].key
    requires f[3].key == g[3].key && f[4].key == g[4].key
    ensures Canonical.SameUpToKeyOrder(Obj(f), Obj(g)) <==>
      && Canonical.SameUpToKeyOrder(f[0].value, g[0].value) && Canonical.SameUpToKeyOrder(f[1].value, g[1].value)
      && Canonical.SameUpToKeyOrder(f[2].value, g[2].value) && Canonical.SameUpToKeyOrder(f[3].value, g[3].value)
      && Canonical.SameUpToKeyOrder(f[4].value, g[4].value)
  {
    hide Canonical.SameUpToKeyOrder, DistinctKeys;
    Canonical.SameKeysInOrder(f, g);
  }

  lemma SameScalars(v: Json, w: Json)
    requires v.Num? || v.Str?
    ensures Canonical.SameUpToKeyOrder(v, w) <==> v == w
  {}

  // ---------- Altered files ----------

  /** The two agree in everything a block hash covers. */
  predicate SameHashed(a: Block, b: Block) {
    && a.index == b.index && a.timestamp == b.timestamp && a.chain == b.chain && a.prevHash == b.prevHash
    && Canonical.SameUpToKeyOrder(Dropped(a.data), Dropped(b.data))
  }

  /** The one way an altered block can keep its hash: the early form covers the data alone.  Either the block
      was hashed in that form and its data is as written, or the data of one of the two is what the other hashes. */
  predicate LegacyCovers(lib: Library, b: Block, altered: Block) {
    if b.hash == lib.sha256(Stringify(b.data, COMPACT)) then
      || Dropped(altered.data) == Dropped(b.data)
      || Dropped(b.data) == Canonical.SortValue(lib.less, Dropped(HashedValue(altered)))
    else
      Dropped(altered.data) == Canonical.SortValue(lib.less, Dropped(HashedValue(b)))
  }

  lemma LegacyText(lib: Library, a: Block, b: Block)
    requires StrictTotal(lib.less) && WellFormed(a.data) && WellFormed(b.data)
    requires forall s, t :: lib.sha256(s) == lib.sha256(t) ==> s == t
    ensures LegacyHash(lib, a) == LegacyHash(lib, b) <==> Dropped(a.data) == Dropped(b.data)
    ensures LegacyHash(lib, a) == HashBlock(lib, b) <==>
      Dropped(a.data) == Canonical.SortValue(lib.less, Dropped(HashedValue(b)))
  {
    hide Dropped, WellFormed, HashedValue, Canonical.SortValue, StrictTotal;
    HashedWellFormed(b);
    Canonical.SortKeepsWellFormed(lib.less, HashedValue(b));
    Canonical.DroppedSort(lib.less, HashedValue(b));
    StringifyMeaning(a.data, b.data, COMPACT);
    StringifyMeaning(a.data, Canonical.SortValue(lib.less, HashedValue(b)), COMPACT);
  }

  /** An altered block with its hash kept passes for intact exactly where the early form covers the change. */
  lemma AlteredHash(lib: Library, b: Block, altered: Block)
    requires StrictTotal(lib.less) && forall s, t :: lib.sha256(s) == lib.sha256(t) ==> s == t
    requires WellFormed(b.data) && WellFormed(altered.data) && b.data.Obj? && altered.data.Obj?
    requires HashOk(lib, b) && altered.hash == b.hash && !SameHashed(b, altered)
    ensures HashOk(lib, altered) <==> LegacyCovers(lib, b, altered)
  {
    HashCovers(lib, b, altered);
    LegacyText(lib, b, altered);
    LegacyText(lib, altered, b);
    hide HashBlock, Stringify, Dropped, WellFormed, HashedValue, Canonical.SortValue;
  }

  /**
    Altering one file of an accepted chain in anything its hash covers, with the hash kept, makes the read fail,
    unless the number stays, the block still names a predecessor that is accepted, and the early form covers the change.
  */
  lemma AlteredFileDetected(lib: Library, blocks: seq<Block>, i: nat, altered: Block)
    requires StrictTotal(lib.less) && forall s, t :: lib.sha256(s) == lib.sha256(t) ==> s == t
    requires ChainOk(lib, blocks) && i < |blocks| && altered.hash == blocks[i].hash && !SameHashed(blocks[i], altered)
    requires WellFormed(blocks[i].data) && WellFormed(altered.data) && blocks[i].data.Obj? && altered.data.Obj?
    ensures ChainOk(lib, blocks[i := altered]) <==>
      && LegacyCovers(lib, blocks[i], altered) && altered.index == i + 1
      && (altered.prevHash == blocks[i].prevHash
          || (i == 0 && (altered.prevHash == "" || altered.prevHash == GENESIS_PREV_HASH)))
  {
    hide LegacyCovers, SameHashed, HashOk, WellFormed, ChainOk;
    AcceptedBlock(lib, blocks, i);
    AlteredHash(lib, blocks[i], altered);
    ReplacedBlock(lib, blocks, i, altered);
  }

  lemma AcceptedBlock(lib: Library, blocks: seq<Block>, i: nat)
    requires ChainOk(lib, blocks) && i < |blocks|
    ensures HashOk(lib, blocks[i])
  {
    hide HashOk;
    assert Follows(lib, blocks[i], Last(blocks[..i]));
  }

  /** Replacing one block by another with its hash leaves all links to it as they were. */
  lemma ReplacedBlock(lib: Library, blocks: seq<Block>, i: nat, other: Block)
    requires ChainOk(lib, blocks) && i < |blocks| && other.hash == blocks[i].hash
    ensures ChainOk(lib, blocks[i := other]) <==>
      && HashOk(lib, other) && other.index == i + 1
      && (other.prevHash == blocks[i].prevHash
          || (i == 0 && (other.prevHash == "" || other.prevHash == GENESIS_PREV_HASH)))
  {
    ChainMeaning(lib, blocks);
    ChainMeaning(lib, blocks[i := other]);
    hide ChainOk, HashBlock, Stringify;
    var changed := blocks[i := other];
    assert changed[i] in changed;
    assert forall x :: x in changed ==> x in blocks || x == other;
    ReplacedLinks(blocks, i, other);
  }

  lemma ReplacedLinks(blocks: seq<Block>, i: nat, other: Block)
    requires Numbered(blocks) && Linked(blocks) && i < |blocks| && other.hash == blocks[i].hash
    ensures Numbered(blocks[i := other]) <==> other.index == i + 1
    ensures Linked(blocks[i := other]) <==>
      (other.prevHash == blocks[i].prevHash
       || (i == 0 && (other.prevHash == "" || other.prevHash == GENESIS_PREV_HASH)))
  {
    var changed := blocks[i := other];
    assert changed[i] == other;
    assert forall j :: 0 <= j < |blocks| && j != i ==> changed[j] == blocks[j];
    assert forall j :: 0 <= j < |blocks| ==> changed[j].hash == blocks[j].hash;
    assert LinkOk(blocks, i);
    assert LinkOk(changed, i) <==>
      (other.prevHash == blocks[i].prevHash
       || (i == 0 && (other.prevHash == "" || other.prevHash == GENESIS_PREV_HASH)));
    assert forall j :: 0 <= j < |blocks| && j != i ==> (LinkOk(changed, j) <==> LinkOk(blocks, j));
  }

  // ---------- Pruning ----------

  /** Numbered files; an empty file holds no block. */
  type Dir = map<nat, Option<Block>>

  predicate Descending(listing: seq<nat>) {
    forall i, j :: 0 <= i < j < |listing| ==> listing[i] > listing[j]
  }

  /** No file at or above this number holds a block. */
  predicate TrailingEmpty(dir: Dir, n: nat) {
    n in dir && forall m :: m in dir && m >= n ==> dir[m].None?
  }

  /** From the highest number down, empty files are removed until a file with contents is met. */
  method PruneTrailingEmptyBlockFiles(dir: Dir, listing: seq<nat>) returns (pruned: Dir)
    requires Descending(listing) && forall n :: n in listing <==> n in dir
    ensures pruned.Keys <= dir.Keys && forall n :: n in pruned ==> pruned[n] == dir[n]
    ensures forall n :: n in dir ==> (n in pruned <==> !TrailingEmpty(dir, n))
  {
    pruned := dir;
    for i := 0 to |listing|
      invariant pruned.Keys <= dir.Keys && forall n :: n in pruned ==> pruned[n] == dir[n]
      invariant forall n :: n in dir && n !in pruned <==> n in listing[..i]
      invariant forall j :: 0 <= j < i ==> dir[listing[j]].None?
    {
      var n := listing[i];
      assert n in listing;
      HigherListed(dir, listing, i);
      if pruned[n].Some? {
        return;
      }
      assert listing[..i + 1] == listing[..i] + [n];
      pruned := pruned - {n};
    }
    assert listing[..|listing|] == listing;
  }

  lemma HigherListed(dir: Dir, listing: seq<nat>, i: nat)
    requires Descending(listing) && (forall n :: n in listing <==> n in dir) && i < |listing|
    ensures listing[i] !in listing[..i]
    ensures forall n :: n in dir && n > listing[i] ==> n in listing[..i]
    ensures forall n :: n in listing[..i] ==> n > listing[i]
  {
    forall n | n in dir && n > listing[i]
      ensures n in listing[..i]
    {
      var j :| 0 <= j < |listing| && listing[j] == n;
      assert j < i;
      assert listing[..i][j] == n;
    }
  }
}
