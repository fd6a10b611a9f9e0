/**
  What an import guarantees: one linked chain of distinct blocks, an account of every
  candidate, when it is called valid, and that importing its own output changes nothing.
*/
module ImportLaws {
  import opened Basics
  import opened Json
  import opened ImportJson
  import BlockFiles

  // ---------- Deduplication ----------

  lemma {:induction false} DedupedHashes(lib: Library, candidates: seq<Json>)
    ensures var d := Deduped(lib, candidates);
      && (forall i, j :: 0 <= i < j < |d| ==> d[i].hash != d[j].hash)
      && |d| + |FirstIssues(lib, candidates)| == |candidates|
  {
    hide NormalizeCandidate, Hashes;
    if |candidates| > 0 {
      var n := |candidates| - 1;
      DedupedHashes(lib, candidates[..n]);
      var before := Deduped(lib, candidates[..n]);
      forall i | 0 <= i < |before|
        ensures before[i].hash in Hashes(before)
      {
        HashOf(before, i);
      }
    }
  }

  lemma HashOf(blocks: seq<Block>, i: nat)
    requires i < |blocks|
    ensures blocks[i].hash in Hashes(blocks)
  {}

  predicate HasHash(lib: Library, candidates: seq<Json>, i: nat, h: string)
    requires i < |candidates|
  {
    var c := NormalizeCandidate(lib, candidates[i], i);
    c.Good? && c.block.hash == h
  }

  predicate SomeHas(lib: Library, candidates: seq<Json>, h: string) {
    exists i :: 0 <= i < |candidates| && HasHash(lib, candidates, i, h)
  }

  lemma SomeHasMore(lib: Library, candidates: seq<Json>, h: string)
    requires |candidates| > 0
    ensures var n := |candidates| - 1;
      SomeHas(lib, candidates, h) <==> SomeHas(lib, candidates[..n], h) || HasHash(lib, candidates, n, h)
  {
    hide NormalizeCandidate;
    var n := |candidates| - 1;
    assert forall i :: 0 <= i < n ==> HasHash(lib, candidates[..n], i, h) == HasHash(lib, candidates, i, h);
  }

  /** A hash has been seen exactly when some good candidate had it. */
  lemma {:induction false} SeenHashes(lib: Library, candidates: seq<Json>, h: string)
    ensures h in Hashes(Deduped(lib, candidates)) <==> SomeHas(lib, candidates, h)
  {
    hide NormalizeCandidate, Hashes, SomeHas;
    NoHashes();
    if |candidates| == 0 {
      NoneHas(lib, h);
    } else {
      var n := |candidates| - 1;
      SeenHashes(lib, candidates[..n], h);
      SomeHasMore(lib, candidates, h);
      var c := NormalizeCandidate(lib, candidates[n], n);
      if c.Good? { HashesGrow(Deduped(lib, candidates[..n]), c.block); }
    }
  }

  lemma NoneHas(lib: Library, h: string)
    ensures !SomeHas(lib, [], h)
  {}

  /** `b` is the block of candidate `i`, and no candidate before has its hash. */
  predicate FirstOfItsHash(lib: Library, candidates: seq<Json>, i: nat, b: Block)
    requires i < |candidates|
  {
    NormalizeCandidate(lib, candidates[i], i) == Good(b) && !SomeHas(lib, candidates[..i], b.hash)
  }

  predicate IsFirst(lib: Library, candidates: seq<Json>, b: Block) {
    exists i :: 0 <= i < |candidates| && FirstOfItsHash(lib, candidates, i, b)
  }

  lemma IsFirstMore(lib: Library, candidates: seq<Json>, b: Block)
    requires |candidates| > 0
    ensures var n := |candidates| - 1;
      IsFirst(lib, candidates, b) <==> IsFirst(lib, candidates[..n], b) || FirstOfItsHash(lib, candidates, n, b)
  {
    hide NormalizeCandidate, SomeHas;
    var n := |candidates| - 1;
    forall i | 0 <= i < n
      ensures FirstOfItsHash(lib, candidates[..n], i, b) == FirstOfItsHash(lib, candidates, i, b)
    {
      assert candidates[..n][..i] == candidates[..i];
    }
  }

  /** The blocks kept are exactly the first good candidates of their hashes. */
  lemma {:induction false} DedupedMeaning(lib: Library, candidates: seq<Json>, b: Block)
    ensures b in Deduped(lib, candidates) <==> IsFirst(lib, candidates, b)
  {
    hide NormalizeCandidate, Hashes, SomeHas, IsFirst;
    if |candidates| == 0 {
      NoneFirst(lib, b);
    } else {
      var n := |candidates| - 1;
      DedupedMeaning(lib, candidates[..n], b);
      IsFirstMore(lib, candidates, b);
      var c := NormalizeCandidate(lib, candidates[n], n);
      if c.Good? { SeenHashes(lib, candidates[..n], c.block.hash); }
    }
  }

  lemma NoneFirst(lib: Library, b: Block)
    ensures !IsFirst(lib, [], b)
  {}

  // ---------- The chain that comes out ----------

  predicate LinkedChain(blocks: seq<Block>) {
    && (forall i :: 0 <= i < |blocks| ==>
          blocks[i].index == Finite(i) && blocks[i].prevHash == if i == 0 then GENESIS_PREV_HASH else blocks[i - 1].hash)
    && (forall i, j :: 0 <= i < j < |blocks| ==> blocks[i].hash != blocks[j].hash)
  }

  /**
    Every import that finishes yields one chain 0, 1, 2, … linked hash to hash with
    distinct hashes; each block is a kept candidate but for its index and link; and
    every candidate is accounted for.
  */
  lemma ImportedChain(lib: Library, payload: Json)
    requires Import(lib, payload).Imported?
    ensures var r := Import(lib, payload).report;
      var d := Deduped(lib, ResolvePayloadShape(payload).value.1);
      && LinkedChain(r.blocks) && r.imported == |r.blocks| && r.skipped == r.total - r.imported
      && |r.blocks| <= |d| && r.total == |ResolvePayloadShape(payload).value.1|
      && (forall i :: 0 <= i < |r.blocks| ==>
            r.blocks[i] == d[i].(index := r.blocks[i].index, prevHash := r.blocks[i].prevHash))
      && r.skipped == |FirstIssues(lib, ResolvePayloadShape(payload).value.1)| + if LastInfinite(d) then 1 else 0
  {
    hide Deduped, FirstIssues, ResolvePayloadShape, Duplicates, OnlyDuplicates, LinkIssues, IndexRewrites;
    var candidates := ResolvePayloadShape(payload).value.1;
    DedupedHashes(lib, candidates);
    RelinkedIsChain(Kept(Deduped(lib, candidates)));
  }

  lemma RelinkedIsChain(d: seq<Block>)
    requires forall i, j :: 0 <= i < j < |d| ==> d[i].hash != d[j].hash
    ensures LinkedChain(Relinked(d))
  {}

  // ---------- Validity ----------

  predicate AllGood(lib: Library, candidates: seq<Json>) {
    forall i :: 0 <= i < |candidates| ==> NormalizeCandidate(lib, candidates[i], i).Good?
  }

  predicate AllLinked(d: seq<Block>) {
    forall i :: 0 <= i < |d| ==> d[i].prevHash == PrevHashFor(d, i)
  }

  /** An import is called valid exactly when every candidate was good, every link was right, and no index was infinite. */
  lemma ValidIff(lib: Library, payload: Json)
    requires Import(lib, payload).Imported?
    ensures var candidates := ResolvePayloadShape(payload).value.1;
      var d := Deduped(lib, candidates);
      Import(lib, payload).report.valid <==>
        && AllGood(lib, candidates) && AllLinked(d)
        && !LastInfinite(d)
  {
    hide Deduped, FirstIssues, ResolvePayloadShape, Duplicates, NormalizeCandidate, LinkIssues, IndexRewrites, HashRef;
    hide OnlyDuplicates, AllGood, AllLinked;
    var candidates := ResolvePayloadShape(payload).value.1;
    var d := Deduped(lib, candidates);
    var a, b := FirstIssues(lib, candidates), LinkIssues(Kept(d));
    var c := if LastInfinite(d) then [Issue(HashRef(d[|d| - 1]), InvalidIndex)] else [];
    OnlyParts(a, b);
    OnlyParts(a + b, c);
    OnlyOne(c);
    GoodIff(lib, candidates);
    LinksIff(Kept(d));
    assert !LastInfinite(d) ==> Kept(d) == d;
  }

  lemma OnlyParts(a: seq<Issue>, b: seq<Issue>)
    ensures OnlyDuplicates(a + b) <==> OnlyDuplicates(a) && OnlyDuplicates(b)
  {
    var all := a + b;
    assert forall i :: 0 <= i < |a| ==> all[i] == a[i];
    assert forall i :: 0 <= i < |b| ==> all[|a| + i] == b[i];
  }

  lemma OnlyOne(c: seq<Issue>)
    requires |c| <= 1
    ensures OnlyDuplicates(c) <==> c == [] || c[0].reason.DuplicateHash?
  {}

  lemma AllGoodMore(lib: Library, candidates: seq<Json>)
    requires |candidates| > 0
    ensures var n := |candidates| - 1;
      AllGood(lib, candidates) <==> AllGood(lib, candidates[..n]) && NormalizeCandidate(lib, candidates[n], n).Good?
  {
    hide NormalizeCandidate;
    var n := |candidates| - 1;
    assert forall j :: 0 <= j < n ==> candidates[..n][j] == candidates[j];
  }

  lemma {:induction false} GoodIff(lib: Library, candidates: seq<Json>)
    ensures OnlyDuplicates(FirstIssues(lib, candidates)) <==> AllGood(lib, candidates)
  {
    hide Hashes, Deduped, OnlyDuplicates, NormalizeCandidate, HashRef;
    OnlyOne([]);
    if |candidates| > 0 {
      var n := |candidates| - 1;
      GoodIff(lib, candidates[..n]);
      AllGoodMore(lib, candidates);
      hide AllGood;
      var c := NormalizeCandidate(lib, candidates[n], n);
      BadIsNoDuplicate(lib, candidates[n], n);
      var issue := if c.Bad? then c.issue else Issue(HashRef(c.block), DuplicateHash);
      OnlyOne([issue]);
      OnlyParts(FirstIssues(lib, candidates[..n]), [issue]);
    }
  }

  lemma BadIsNoDuplicate(lib: Library, raw: Json, hint: nat)
    ensures var c := NormalizeCandidate(lib, raw, hint); c.Bad? ==> !c.issue.reason.DuplicateHash?
  {}

  lemma AllLinkedMore(d: seq<Block>)
    requires |d| > 0
    ensures var n := |d| - 1; AllLinked(d) <==> AllLinked(d[..n]) && d[n].prevHash == PrevHashFor(d, n)
  {
    hide PrevHashFor;
    var n := |d| - 1;
    forall i | 0 <= i < n
      ensures PrevHashFor(d[..n], i) == PrevHashFor(d, i) && d[..n][i] == d[i]
    {
      PrevHashOfFront(d, n, i);
    }
  }

  lemma PrevHashOfFront(d: seq<Block>, n: nat, i: nat)
    requires i < n <= |d|
    ensures PrevHashFor(d[..n], i) == PrevHashFor(d, i) && d[..n][i] == d[i]
  {}

  lemma {:induction false} LinksIff(d: seq<Block>)
    ensures OnlyDuplicates(LinkIssues(d)) <==> LinkIssues(d) == []
    ensures LinkIssues(d) == [] <==> AllLinked(d)
  {
    hide OnlyDuplicates, HashRef, PrevHashFor;
    OnlyOne([]);
    if |d| > 0 {
      var n := |d| - 1;
      LinksIff(d[..n]);
      AllLinkedMore(d);
      hide AllLinked;
      var before := LinkIssues(d[..n]);
      var last := if d[n].prevHash == PrevHashFor(d, n) then []
                  else [Issue(HashRef(d[n]),
                              if n == 0 && d[n].prevHash == "" then MissingGenesisPrevHash else PrevHashMismatch)];
      assert LinkIssues(d) == before + last;
      OnlyParts(before, last);
      OnlyOne(last);
    }
  }

  // ---------- Importing the output again ----------

  predicate NonEmpty(s: Option<string>) { s.Some? ==> s.value != "" }

  /** What every normalised block is like, index aside. */
  predicate Clean(b: Block) {
    && b.hash != "" && b.prevHash != "" && NonEmpty(b.timestamp) && NonEmpty(b.chain)
    && (b.data.Some? ==>
          var d := b.data.value;
          NonEmpty(d.kind) && NonEmpty(d.content) && (d.kind.Some? || d.content.Some? || d.tags.Some?))
  }

  function OptionalText(key: string, s: Option<string>): seq<Field> {
    match s case Some(t) => [Field(key, Str(t))] case None => []
  }

  function TextItems(texts: seq<string>): (r: seq<Json>)
    ensures |r| == |texts|
  {
    if |texts| == 0 then [] else [Str(texts[0])] + TextItems(texts[1..])
  }

  function OptionalTags(tags: Option<seq<string>>): seq<Field> {
    match tags case Some(ts) => [Field("tags", Arr(TextItems(ts)))] case None => []
  }

  function DataFields(d: BlockData): seq<Field> {
    OptionalText("type", d.kind) + OptionalText("content", d.content) + OptionalTags(d.tags)
  }

  function OptionalData(d: Option<BlockData>): seq<Field> {
    match d case Some(data) => [Field("data", Obj(DataFields(data)))] case None => []
  }

  /** A reconciled block as it is written out, missing fields dropped. */
  function ToJson(b: Block, index: nat): Json {
    Obj([Field("index", Num(Decimal(index))), Field("hash", Str(b.hash)), Field("prev_hash", Str(b.prevHash))]
        + OptionalText("timestamp", b.timestamp) + OptionalText("chain", b.chain) + OptionalData(b.data))
  }

  function AllToJson(blocks: seq<Block>): (r: seq<Json>)
    ensures |r| == |blocks| && forall i :: 0 <= i < |blocks| ==> r[i] == ToJson(blocks[i], i)
  {
    seq(|blocks|, i requires 0 <= i < |blocks| => ToJson(blocks[i], i))
  }

  lemma {:induction false} FindConcat(a: seq<Field>, b: seq<Field>, key: string)
    ensures Find(a + b, key) == Or(Find(a, key), Find(b, key))
  {
    if |a| == 0 {
      assert a + b == b;
    } else {
      assert (a + b)[0] == a[0] && (a + b)[1..] == a[1..] + b;
      FindConcat(a[1..], b, key);
    }
  }

  lemma FindOne(key: string, value: Json, other: string)
    ensures Find([Field(key, value)], other) == if key == other then Some(value) else None
  {
    assert [Field(key, value)][1..] == [];
  }

  function TextValue(s: Option<string>): Option<Json> {
    match s case Some(t) => Some(Str(t)) case None => None
  }

  lemma FindText(key: string, s: Option<string>, other: string)
    ensures Find(OptionalText(key, s), other) == if key == other then TextValue(s) else None
  {
    if s.Some? { FindOne(key, Str(s.value), other); }
  }

  lemma {:induction false} TextsBack(texts: seq<string>)
    ensures Texts(TextItems(texts)) == Some(texts)
  {
    if |texts| > 0 {
      TextsBack(texts[1..]);
      assert TextItems(texts)[1..] == TextItems(texts[1..]);
      assert [texts[0]] + texts[1..] == texts;
      assert TextItems(texts)[0] == Str(texts[0]);
    }
  }

  /** What a lookup finds among the fields of a written block. */
  lemma FindInBlock(b: Block, index: nat, key: string)
    ensures Find(ToJson(b, index).fields, key) ==
      if key == "index" then Some(Num(Decimal(index)))
      else if key == "hash" then Some(Str(b.hash))
      else if key == "prev_hash" then Some(Str(b.prevHash))
      else if key == "timestamp" then TextValue(b.timestamp)
      else if key == "chain" then TextValue(b.chain)
      else if key == "data" then
        if b.data.Some? then Some(Obj(DataFields(b.data.value))) else None
      else None
  {
    hide Find, OptionalText, DataFields, Decimal, TextValue;
    BlockKeysApart();
    var i, h, p := Field("index", Num(Decimal(index))), Field("hash", Str(b.hash)),
                   Field("prev_hash", Str(b.prevHash));
    var t, c := OptionalText("timestamp", b.timestamp), OptionalText("chain", b.chain);
    FindConcat([i, h, p] + t + c, OptionalData(b.data), key);
    FindConcat([i, h, p] + t, c, key);
    FindConcat([i, h, p], t, key);
    FindThree(i, h, p, key);
    FindText("timestamp", b.timestamp, key);
    FindText("chain", b.chain, key);
    if b.data.Some? { FindOne("data", Obj(DataFields(b.data.value)), key); } else { FindNothing(key); }
  }

  lemma FindNothing(key: string)
    ensures Find([], key) == None
  {}

  lemma FindThree(a: Field, b: Field, c: Field, key: string)
    ensures Find([a, b, c], key) ==
      if a.key == key then Some(a.value)
      else if b.key == key then Some(b.value)
      else if c.key == key then Some(c.value) else None
  {
    hide Find;
    assert [a, b, c] == [a] + ([b] + [c]);
    FindConcat([a], [b] + [c], key);
    FindConcat([b], [c], key);
    FindOne(a.key, a.value, key);
    FindOne(b.key, b.value, key);
    FindOne(c.key, c.value, key);
  }

  lemma BlockKeysApart()
    ensures "index" != "hash" && "index" != "prev_hash" && "index" != "timestamp" && "index" != "chain" && "index" != "data"
    ensures "hash" != "prev_hash" && "hash" != "timestamp" && "hash" != "chain" && "hash" != "data"
    ensures "prev_hash" != "timestamp" && "prev_hash" != "chain" && "prev_hash" != "data"
    ensures "timestamp" != "chain" && "timestamp" != "data" && "chain" != "data"
  {
    assert "index"[0] == 'i' && "hash"[0] == 'h' && "prev_hash"[0] == 'p' && "timestamp"[0] == 't';
    assert "chain"[0] == 'c' && "data"[0] == 'd';
  }

  /** What a lookup finds among the fields of a written block's data. */
  lemma FindInData(d: BlockData, key: string)
    ensures Find(DataFields(d), key) ==
      if key == "type" then TextValue(d.kind)
      else if key == "content" then TextValue(d.content)
      else if key == "tags" && d.tags.Some? then Some(Arr(TextItems(d.tags.value)))
      else None
  {
    hide Find, OptionalText, TextValue, TextItems;
    assert "type"[1] == 'y' && "tags"[1] == 'a' && "content"[1] == 'o';
    FindConcat(OptionalText("type", d.kind) + OptionalText("content", d.content), OptionalTags(d.tags), key);
    FindConcat(OptionalText("type", d.kind), OptionalText("content", d.content), key);
    FindText("type", d.kind, key);
    FindText("content", d.content, key);
    if d.tags.Some? { FindOne("tags", Arr(TextItems(d.tags.value)), key); } else { FindNothing(key); }
  }

  lemma PickFirst(fields: seq<Field>, keys: seq<string>, s: Option<string>)
    requires |keys| > 0 && NonEmpty(s) && Find(fields, keys[0]) == TextValue(s)
    requires forall i :: 1 <= i < |keys| ==> Find(fields, keys[i]).None?
    ensures PickString(fields, keys) == s
  {
    hide Find;
    PickNone(fields, keys[1..]);
  }

  lemma {:induction false} PickNone(fields: seq<Field>, keys: seq<string>)
    requires forall i :: 0 <= i < |keys| ==> Find(fields, keys[i]).None?
    ensures PickString(fields, keys).None?
  {
    hide Find;
    if |keys| > 0 { PickNone(fields, keys[1..]); }
  }

  /** Reading a written block gives it back. */
  lemma RoundTrip(lib: Library, b: Block, index: nat, hint: nat)
    requires Clean(b) && b.index == Finite(index) && lib.toNumber(Decimal(index)) == Finite(index)
    ensures NormalizeCandidate(lib, ToJson(b, index), hint) == Good(b)
  {
    hide Find, PickString, ToJson, DataFields, Decimal;
    assert ToJson(b, index).Obj? by { WrittenIsObject(b, index); }
    var f := ToJson(b, index).fields;
    TopLevel(b, index, f);
    IndexBack(lib, b, index, f);
    if b.data.Some? {
      DataBack(b.data.value);
    } else {
      NothingInside();
    }
  }

  lemma WrittenIsObject(b: Block, index: nat)
    ensures ToJson(b, index).Obj?
  {}

  lemma NothingInside()
    ensures PickString([], ["content", "text"]).None? && PickString([], ["type", "block_type"]).None? && TagsAt([]).None?
  {}

  lemma TopLevel(b: Block, index: nat, f: seq<Field>)
    requires ToJson(b, index) == Obj(f) && Clean(b)
    ensures PickString(f, ["hash", "block_hash"]) == Some(b.hash)
    ensures PickString(f, ["prev_hash", "prevHash", "previous_hash", "previousHash"]) == Some(b.prevHash)
    ensures PickString(f, ["timestamp", "ts", "created_at"]) == b.timestamp
    ensures PickString(f, ["chain", "chain_name"]) == b.chain
    ensures PickString(f, ["content"]).None? && TagsAt(f).None? && PickString(f, ["type", "block_type"]).None?
    ensures Find(f, "data") ==
      if b.data.Some? then Some(Obj(DataFields(b.data.value))) else None
  {
    hide Find, PickString, ToJson, DataFields, Decimal;
    BlockKeysApart();
    OtherKeysApart();
    forall key { FindInBlock(b, index, key); }
    PickFirst(f, ["hash", "block_hash"], Some(b.hash));
    PickFirst(f, ["prev_hash", "prevHash", "previous_hash", "previousHash"], Some(b.prevHash));
    PickFirst(f, ["timestamp", "ts", "created_at"], b.timestamp);
    PickFirst(f, ["chain", "chain_name"], b.chain);
    PickNone(f, ["content"]);
    PickNone(f, ["type", "block_type"]);
  }

  predicate BlockField(key: string) {
    key == "index" || key == "hash" || key == "prev_hash" || key == "timestamp" || key == "chain" || key == "data"
  }

  lemma OtherKeysApart()
    ensures !BlockField("block_hash") && !BlockField("prevHash") && !BlockField("previous_hash")
    ensures !BlockField("previousHash") && !BlockField("ts") && !BlockField("created_at") && !BlockField("chain_name")
    ensures !BlockField("content") && !BlockField("type") && !BlockField("block_type") && !BlockField("tags")
  {
    assert "type"[1] == 'y' && "tags"[1] == 'a' && "hash"[0] == 'h' && "data"[0] == 'd';
  }

  lemma IndexBack(lib: Library, b: Block, index: nat, f: seq<Field>)
    requires ToJson(b, index) == Obj(f) && lib.toNumber(Decimal(index)) == Finite(index)
    ensures PickNumber(lib, f, ["index", "idx", "height"]) == Some(Finite(index))
  {
    hide Find, ToJson, Decimal;
    FindInBlock(b, index, "index");
  }

  lemma DataBack(d: BlockData)
    requires NonEmpty(d.kind) && NonEmpty(d.content)
    ensures PickString(DataFields(d), ["content", "text"]) == d.content
    ensures PickString(DataFields(d), ["type", "block_type"]) == d.kind
    ensures TagsAt(DataFields(d)) == d.tags
  {
    hide Find, PickString, DataFields, Texts, TextItems;
    assert "type"[1] == 'y' && "tags"[1] == 'a' && "text"[1] == 'e' && "content"[1] == 'o';
    forall key { FindInData(d, key); }
    PickFirst(DataFields(d), ["content", "text"], d.content);
    PickFirst(DataFields(d), ["type", "block_type"], d.kind);
    if d.tags.Some? { TextsBack(d.tags.value); }
  }

  // ---------- Every normalised block is clean ----------

  lemma {:induction false} PickedNonEmpty(fields: seq<Field>, keys: seq<string>)
    ensures NonEmpty(PickString(fields, keys))
  {
    hide Find;
    if |keys| > 0 { PickedNonEmpty(fields, keys[1..]); }
  }

  lemma NormalizedIsClean(lib: Library, raw: Json, hint: nat)
    ensures var c := NormalizeCandidate(lib, raw, hint); c.Good? ==> Clean(c.block)
  {
    hide Find, PickString, PickNumber, TagsAt;
    forall fields, keys { PickedNonEmpty(fields, keys); }
    GenesisNonEmpty();
  }

  lemma GenesisNonEmpty()
    ensures GENESIS_PREV_HASH != ""
  {
    assert |GENESIS_PREV_HASH| == 64;
  }

  lemma {:induction false} DedupedClean(lib: Library, candidates: seq<Json>)
    ensures forall b :: b in Deduped(lib, candidates) ==> Clean(b)
  {
    hide NormalizeCandidate, Hashes, Clean;
    if |candidates| > 0 {
      var n := |candidates| - 1;
      DedupedClean(lib, candidates[..n]);
      NormalizedIsClean(lib, candidates[n], n);
    }
  }

  lemma RelinkedClean(d: seq<Block>)
    requires forall i :: 0 <= i < |d| ==> Clean(d[i])
    ensures forall i :: 0 <= i < |d| ==> Clean(Relinked(d)[i])
  {
    GenesisNonEmpty();
    forall i | 0 <= i < |d|
      ensures Clean(Relinked(d)[i])
    {
      assert Clean(d[i]);
      if i > 0 { assert Clean(d[i - 1]); }
    }
  }

  /** The candidates of a written chain are its blocks, with no issue. */
  lemma {:induction false} WrittenBack(lib: Library, blocks: seq<Block>, n: nat)
    requires LinkedChain(blocks) && n <= |blocks|
    requires forall i :: 0 <= i < |blocks| ==> Clean(blocks[i])
    requires forall i: nat :: i < |blocks| ==> lib.toNumber(Decimal(i)) == Finite(i)
    ensures Deduped(lib, AllToJson(blocks)[..n]) == blocks[..n] && FirstIssues(lib, AllToJson(blocks)[..n]) == []
  {
    hide NormalizeCandidate, ToJson, Hashes, Clean, Decimal, LinkedChain;
    if n > 0 {
      var all := AllToJson(blocks);
      WrittenBack(lib, blocks, n - 1);
      assert all[..n][..n - 1] == all[..n - 1] && all[..n][n - 1] == ToJson(blocks[n - 1], n - 1);
      ChainAt(blocks, n - 1);
      RoundTrip(lib, blocks[n - 1], n - 1, n - 1);
      assert blocks[..n] == blocks[..n - 1] + [blocks[n - 1]];
    }
  }

  lemma ChainAt(blocks: seq<Block>, i: nat)
    requires LinkedChain(blocks) && i < |blocks|
    ensures blocks[i].index == Finite(i) && blocks[i].hash !in Hashes(blocks[..i])
    ensures blocks[i].prevHash == PrevHashFor(blocks, i)
  {}

  lemma {:induction false} NoRewrites(blocks: seq<Block>, n: nat)
    requires LinkedChain(blocks) && n <= |blocks|
    ensures IndexRewrites(blocks[..n]) == 0 && LinkIssues(blocks[..n]) == []
  {
    hide LinkedChain, IndexRewrites, LinkIssues, HashRef, Relinked;
    if n == 0 {
      NothingKept(blocks);
    } else {
      NoRewrites(blocks, n - 1);
      RelinkedNext(blocks, n - 1);
      ChainAt(blocks, n - 1);
    }
  }

  lemma LinkedIsFixed(blocks: seq<Block>)
    requires LinkedChain(blocks)
    ensures Relinked(blocks) == blocks && !StopsEarly(blocks) && Kept(blocks) == blocks && !LastInfinite(blocks)
  {
    forall i | 0 <= i < |blocks|
      ensures Relinked(blocks)[i] == blocks[i] && !blocks[i].index.Infinite?
    {
      ChainAt(blocks, i);
    }
  }

  /**
    Importing the written output of an import gives back the same blocks, rewrites
    nothing, skips nothing and reports no issue, when the indices of those blocks
    are read back as they are printed.
  */
  lemma ReimportIsIdentity(lib: Library, payload: Json)
    requires Import(lib, payload).Imported?
    requires forall i: nat :: i < |Import(lib, payload).report.blocks| ==> lib.toNumber(Decimal(i)) == Finite(i)
    ensures var blocks := Import(lib, payload).report.blocks;
      var n := |blocks|;
      Import(lib, Obj([Field("blocks", Arr(AllToJson(blocks)))]))
        == Imported(Report(ObjectBlocks, n, n, 0, true, n, 0, 0, 0, [], blocks))
  {
    hide Deduped, FirstIssues, ToJson, Decimal, LinkIssues, IndexRewrites, NormalizeCandidate, Clean;
    hide LinkedChain, ResolvePayloadShape, Kept, Relinked, LastInfinite, StopsEarly;
    var candidates := ResolvePayloadShape(payload).value.1;
    var blocks := Import(lib, payload).report.blocks;
    ImportedChain(lib, payload);
    OutputClean(lib, candidates);
    var written := AllToJson(blocks);
    WrittenShape(written);
    WrittenBack(lib, blocks, |blocks|);
    assert written[..|blocks|] == written && blocks[..|blocks|] == blocks;
    NoRewrites(blocks, |blocks|);
    LinkedIsFixed(blocks);
  }

  lemma OutputClean(lib: Library, candidates: seq<Json>)
    ensures var r := Relinked(Kept(Deduped(lib, candidates))); forall i :: 0 <= i < |r| ==> Clean(r[i])
  {
    hide Deduped, Clean;
    DedupedClean(lib, candidates);
    var d := Deduped(lib, candidates);
    assert forall i :: 0 <= i < |Kept(d)| ==> Kept(d)[i] in d;
    RelinkedClean(Kept(d));
  }

  lemma WrittenShape(written: seq<Json>)
    ensures ResolvePayloadShape(Obj([Field("blocks", Arr(written))])) == Some((ObjectBlocks, written))
  {
    FindOne("blocks", Arr(written), "blocks");
  }

  // ---------- Where a candidate's fields come from ----------

  /** The first of these that is there. */
  ghost predicate FirstOf<T>(options: seq<Option<T>>, v: Option<T>) {
    match v
    case None => forall i :: 0 <= i < |options| ==> options[i].None?
    case Some(_) =>
      exists i :: 0 <= i < |options| && options[i] == v && forall j :: 0 <= j < i ==> options[j].None?
  }

  lemma FirstOfOr<T>(a: seq<Option<T>>, b: seq<Option<T>>, x: Option<T>, y: Option<T>)
    requires FirstOf(a, x) && FirstOf(b, y)
    ensures FirstOf(a + b, Or(x, y))
  {
    var all := a + b;
    assert forall i :: 0 <= i < |a| ==> all[i] == a[i];
    assert forall i :: 0 <= i < |b| ==> all[|a| + i] == b[i];
    if x.Some? {
      var i :| 0 <= i < |a| && a[i] == x && forall j :: 0 <= j < i ==> a[j].None?;
      assert all[i] == x;
    } else if y.Some? {
      var i :| 0 <= i < |b| && b[i] == y && forall j :: 0 <= j < i ==> b[j].None?;
      assert all[|a| + i] == y && forall j :: 0 <= j < |a| + i ==> all[j].None?;
    }
  }

  lemma FirstOfOne<T>(x: Option<T>)
    ensures FirstOf([x], x)
  {
    assert [x][0] == x;
  }

  lemma PickTwo(f: seq<Field>, a: string, b: string)
    ensures FirstOf([StringAt(f, a), StringAt(f, b)], PickString(f, [a, b]))
  {
    hide StringAt;
    assert [a, b][1..] == [b] && [b][1..] == [];
    FirstOfOne(StringAt(f, a));
    FirstOfOne(StringAt(f, b));
    FirstOfOr([StringAt(f, a)], [StringAt(f, b)], StringAt(f, a), StringAt(f, b));
    assert [StringAt(f, a)] + [StringAt(f, b)] == [StringAt(f, a), StringAt(f, b)];
    assert PickString(f, [b]) == StringAt(f, b);
  }

  lemma PickThree(f: seq<Field>, a: string, b: string, c: string)
    ensures FirstOf([StringAt(f, a), StringAt(f, b), StringAt(f, c)], PickString(f, [a, b, c]))
  {
    PickTwo(f, b, c);
    hide StringAt;
    assert [a, b, c][1..] == [b, c];
    FirstOfOne(StringAt(f, a));
    FirstOfOr([StringAt(f, a)], [StringAt(f, b), StringAt(f, c)], StringAt(f, a), PickString(f, [b, c]));
    assert [StringAt(f, a)] + [StringAt(f, b), StringAt(f, c)] == [StringAt(f, a), StringAt(f, b), StringAt(f, c)];
  }

  lemma PickFour(f: seq<Field>, a: string, b: string, c: string, d: string)
    ensures FirstOf([StringAt(f, a), StringAt(f, b), StringAt(f, c), StringAt(f, d)], PickString(f, [a, b, c, d]))
  {
    PickThree(f, b, c, d);
    hide StringAt;
    assert [a, b, c, d][1..] == [b, c, d];
    FirstOfOne(StringAt(f, a));
    FirstOfOr([StringAt(f, a)], [StringAt(f, b), StringAt(f, c), StringAt(f, d)], StringAt(f, a), PickString(f, [b, c, d]));
    assert [StringAt(f, a)] + [StringAt(f, b), StringAt(f, c), StringAt(f, d)]
        == [StringAt(f, a), StringAt(f, b), StringAt(f, c), StringAt(f, d)];
  }

  lemma PickNumberThree(lib: Library, f: seq<Field>, a: string, b: string, c: string)
    ensures FirstOf([NumberAt(lib, f, a), NumberAt(lib, f, b), NumberAt(lib, f, c)], PickNumber(lib, f, [a, b, c]))
  {
    hide NumberAt;
    var x, y, z := NumberAt(lib, f, a), NumberAt(lib, f, b), NumberAt(lib, f, c);
    assert [a, b, c][1..] == [b, c] && [b, c][1..] == [c] && [c][1..] == [];
    assert PickNumber(lib, f, [c]) == z;
    FirstOfOne(x);
    FirstOfOne(y);
    FirstOfOne(z);
    FirstOfOr([y], [z], y, z);
    FirstOfOr([x], [y] + [z], x, Or(y, z));
    assert [x] + ([y] + [z]) == [x, y, z];
  }

  /** What counts as there: a text that is not empty; a finite number or a string of digits; a list of texts. */
  lemma FieldMeaning(lib: Library, f: seq<Field>, key: string)
    ensures forall s :: StringAt(f, key) == Some(s) <==> Find(f, key) == Some(Str(s)) && s != ""
    ensures forall n :: NumberAt(lib, f, key) == Some(n) <==>
      || (exists t :: Find(f, key) == Some(Num(t)) && n == lib.toNumber(t) && !n.Infinite?)
      || (exists t :: Find(f, key) == Some(Str(t)) && |t| > 0 && n == lib.toNumber(t)
                      && forall i :: 0 <= i < |t| ==> '0' <= t[i] <= '9')
  {}

  /** Where the list of candidates is found: the payload itself, its "blocks", or the older "chain". */
  lemma ShapeMeaning(payload: Json, items: seq<Json>)
    ensures ResolvePayloadShape(payload) == Some((ArrayShape, items)) <==> payload == Arr(items)
    ensures ResolvePayloadShape(payload) == Some((ObjectBlocks, items)) <==>
      payload.Obj? && Find(payload.fields, "blocks") == Some(Arr(items))
    ensures ResolvePayloadShape(payload) == Some((LegacyChain, items)) <==>
      && payload.Obj? && Find(payload.fields, "chain") == Some(Arr(items))
      && !(Find(payload.fields, "blocks").Some? && Find(payload.fields, "blocks").value.Arr?)
  {
    hide Find;
  }

  /** The number of duplicates is the number of issues that say so. */
  lemma DuplicatesMeaning(issues: seq<Issue>, last: Issue)
    ensures Duplicates([]) == 0
    ensures Duplicates(issues + [last]) == Duplicates(issues) + if last.reason == DuplicateHash then 1 else 0
  {
    assert (issues + [last])[..|issues|] == issues;
  }

  /** How a candidate that is no good, or comes a second time, is named among the issues. */
  lemma IssueMeaning(lib: Library, candidates: seq<Json>, hint: nat)
    requires hint == |candidates| - 1
    ensures var c, before := candidates[hint], candidates[..hint];
      FirstIssues(lib, candidates) == FirstIssues(lib, before) +
        match NormalizeCandidate(lib, c, hint)
        case Bad(_) => [Issue("candidate[" + Decimal(hint) + "]", if c.Obj? then MissingHash else NotAnObject)]
        case Good(b) => if b.hash in Hashes(Deduped(lib, before)) then [Issue("hash:" + b.hash, DuplicateHash)] else []
  {
    hide StringAt, Find, Decimal, Hashes, Deduped;
    var c, before := candidates[hint], FirstIssues(lib, candidates[..hint]);
    assert before + [] == before;
    hide PickString, PickNumber;
  }

  lemma {:induction false} TextsMeaning(items: seq<Json>)
    ensures var r := Texts(items);
      && (r.Some? <==> forall i :: 0 <= i < |items| ==> items[i].Str?)
      && (r.Some? ==> |r.value| == |items| && forall i :: 0 <= i < |items| ==> items[i] == Str(r.value[i]))
  {
    if |items| > 0 {
      TextsMeaning(items[1..]);
      var rest := items[1..];
      assert forall i :: 1 <= i < |items| ==> items[i] == rest[i - 1];
    }
  }

  /** The object under "data", or nothing. */
  function Inner(f: seq<Field>): seq<Field> {
    match Find(f, "data") case Some(Obj(g)) => g case _ => []
  }

  /**
    Each field of a block is the first one there among the names it may have, a flat name before a nested one;
    a candidate without a hash is refused, and one without index or link gets its place and the genesis hash.
  */
  lemma CandidateFields(lib: Library, f: seq<Field>, hint: nat)
    ensures var c := NormalizeCandidate(lib, Obj(f), hint);
      && (c.Bad? <==> StringAt(f, "hash").None? && StringAt(f, "block_hash").None?)
      && (c.Good? ==>
            && FirstOf([StringAt(f, "hash"), StringAt(f, "block_hash")], Some(c.block.hash))
            && FirstOf([NumberAt(lib, f, "index"), NumberAt(lib, f, "idx"), NumberAt(lib, f, "height"),
                        Some(Finite(hint))], Some(c.block.index))
            && FirstOf([StringAt(f, "prev_hash"), StringAt(f, "prevHash"), StringAt(f, "previous_hash"),
                        StringAt(f, "previousHash"), Some(GENESIS_PREV_HASH)], Some(c.block.prevHash))
            && FirstOf([StringAt(f, "timestamp"), StringAt(f, "ts"), StringAt(f, "created_at")], c.block.timestamp)
            && FirstOf([StringAt(f, "chain"), StringAt(f, "chain_name")], c.block.chain))
  {
    hide StringAt, NumberAt, Find, TagsAt, PickString, PickNumber;
    hide FirstOf;
    PickTwo(f, "hash", "block_hash");
    PickFour(f, "prev_hash", "prevHash", "previous_hash", "previousHash");
    PickThree(f, "timestamp", "ts", "created_at");
    PickTwo(f, "chain", "chain_name");
    PickNumberThree(lib, f, "index", "idx", "height");
    DefaultLast([NumberAt(lib, f, "index"), NumberAt(lib, f, "idx"), NumberAt(lib, f, "height")],
                PickNumber(lib, f, ["index", "idx", "height"]), Finite(hint));
    DefaultLast([StringAt(f, "prev_hash"), StringAt(f, "prevHash"), StringAt(f, "previous_hash"), StringAt(f, "previousHash")],
                PickString(f, ["prev_hash", "prevHash", "previous_hash", "previousHash"]), GENESIS_PREV_HASH);
    var i0, i1, i2 := NumberAt(lib, f, "index"), NumberAt(lib, f, "idx"), NumberAt(lib, f, "height");
    var p0, p1, p2 := StringAt(f, "prev_hash"), StringAt(f, "prevHash"), StringAt(f, "previous_hash");
    var p3 := StringAt(f, "previousHash");
    assert [i0, i1, i2] + [Some(Finite(hint))] == [i0, i1, i2, Some(Finite(hint))];
    assert [p0, p1, p2, p3] + [Some(GENESIS_PREV_HASH)] == [p0, p1, p2, p3, Some(GENESIS_PREV_HASH)];
    NoneOfTwo([StringAt(f, "hash"), StringAt(f, "block_hash")], PickString(f, ["hash", "block_hash"]));
  }

  lemma NoneOfTwo<T>(options: seq<Option<T>>, v: Option<T>)
    requires FirstOf(options, v) && |options| == 2
    ensures v.None? <==> options[0].None? && options[1].None?
  {}

  lemma DefaultLast<T>(options: seq<Option<T>>, v: Option<T>, otherwise: T)
    requires FirstOf(options, v)
    ensures FirstOf(options + [Some(otherwise)], Or(v, Some(otherwise)))
  {
    FirstOfOne(Some(otherwise));
    FirstOfOr(options, [Some(otherwise)], v, Some(otherwise));
  }

  /** The same of the contents: kind, text and tags, each flat or under "data"; without any there is no data. */
  lemma CandidateData(lib: Library, f: seq<Field>, hint: nat)
    requires NormalizeCandidate(lib, Obj(f), hint).Good?
    ensures var b, g := NormalizeCandidate(lib, Obj(f), hint).block, Inner(f);
      var kind := if b.data.Some? then b.data.value.kind else None;
      var content := if b.data.Some? then b.data.value.content else None;
      var tags := if b.data.Some? then b.data.value.tags else None;
      && FirstOf([StringAt(f, "type"), StringAt(f, "block_type"), StringAt(g, "type"), StringAt(g, "block_type")], kind)
      && FirstOf([StringAt(f, "content"), StringAt(g, "content"), StringAt(g, "text")], content)
      && FirstOf([TagsAt(f), TagsAt(g)], tags)
      && (b.data.Some? <==> kind.Some? || content.Some? || tags.Some?)
  {
    hide StringAt, NumberAt, Find, TagsAt, PickNumber;
    hide FirstOf;
    var g := Inner(f);
    PickTwo(f, "type", "block_type");
    PickTwo(g, "type", "block_type");
    PickTwo(g, "content", "text");
    FirstOfOr([StringAt(f, "type"), StringAt(f, "block_type")], [StringAt(g, "type"), StringAt(g, "block_type")],
              PickString(f, ["type", "block_type"]), PickString(g, ["type", "block_type"]));
    FirstOfOne(StringAt(f, "content"));
    assert ["content"][1..] == [] && PickString(f, ["content"]) == StringAt(f, "content");
    FirstOfOr([StringAt(f, "content")], [StringAt(g, "content"), StringAt(g, "text")],
              StringAt(f, "content"), PickString(g, ["content", "text"]));
    FirstOfOne(TagsAt(f));
    FirstOfOne(TagsAt(g));
    FirstOfOr([TagsAt(f)], [TagsAt(g)], TagsAt(f), TagsAt(g));
    SideBySide(f, g);
  }

  lemma SideBySide(f: seq<Field>, g: seq<Field>)
    ensures [StringAt(f, "type"), StringAt(f, "block_type")] + [StringAt(g, "type"), StringAt(g, "block_type")]
         == [StringAt(f, "type"), StringAt(f, "block_type"), StringAt(g, "type"), StringAt(g, "block_type")]
    ensures [StringAt(f, "content")] + [StringAt(g, "content"), StringAt(g, "text")]
         == [StringAt(f, "content"), StringAt(g, "content"), StringAt(g, "text")]
    ensures [TagsAt(f)] + [TagsAt(g)] == [TagsAt(f), TagsAt(g)]
  {
    hide StringAt, TagsAt;
  }

  // ---------- The skipped block ----------

  /** A digit string too long for a number crashes the import, unless its block is the last one kept. */
  lemma LongIndexCrashes(lib: Library, digits: string, h: string, k: string)
    requires IsDigits(digits) && lib.toNumber(digits).Infinite? && h != "" && k != "" && h != k
    ensures var long, plain := Obj([Field("hash", Str(h)), Field("index", Str(digits))]), Obj([Field("hash", Str(k))]);
      && Import(lib, Arr([long, plain])) == Crashed
      && Import(lib, Arr([plain, long])).Imported? && Import(lib, Arr([plain, long])).report.imported == 1
  {
    hide NormalizeCandidate, Hashes, HashRef, LinkIssues, IndexRewrites, Duplicates, OnlyDuplicates, FirstIssues;
    var long, plain := Obj([Field("hash", Str(h)), Field("index", Str(digits))]), Obj([Field("hash", Str(k))]);
    LongBlock(lib, digits, h, 0);
    LongBlock(lib, digits, h, 1);
    PlainBlock(lib, k, 0);
    PlainBlock(lib, k, 1);
    TwoCandidates(lib, long, plain);
    TwoCandidates(lib, plain, long);
    var d := Deduped(lib, [long, plain]);
    assert d[0].index.Infinite?;
  }

  lemma TwoCandidates(lib: Library, a: Json, b: Json)
    requires var x, y := NormalizeCandidate(lib, a, 0), NormalizeCandidate(lib, b, 1);
      x.Good? && y.Good? ==> x.block.hash != y.block.hash
    ensures var x, y := NormalizeCandidate(lib, a, 0), NormalizeCandidate(lib, b, 1);
      x.Good? && y.Good? ==> Deduped(lib, [a, b]) == [x.block, y.block]
  {
    hide NormalizeCandidate;
    assert [a, b][..1] == [a] && [a][..0] == [];
    var x, y := NormalizeCandidate(lib, a, 0), NormalizeCandidate(lib, b, 1);
    assert Deduped(lib, []) == [];
    assert Hashes([]) == {};
    if x.Good? && y.Good? {
      assert Deduped(lib, [a]) == [x.block];
      assert y.block.hash !in Hashes([x.block]);
    }
  }

  lemma LongBlock(lib: Library, digits: string, h: string, hint: nat)
    requires IsDigits(digits) && lib.toNumber(digits).Infinite? && h != ""
    ensures var c := NormalizeCandidate(lib, Obj([Field("hash", Str(h)), Field("index", Str(digits))]), hint);
      c.Good? && c.block.hash == h && c.block.index.Infinite?
  {
    hide PickString, TagsAt;
    var f := [Field("hash", Str(h)), Field("index", Str(digits))];
    BlockKeysApart();
    assert f[1..] == [f[1]] && f[1..][1..] == [];
    assert Find(f, "hash") == Some(Str(h)) && Find(f, "index") == Some(Str(digits));
    PickStringOne(f, "hash", "block_hash", h);
  }

  lemma PickStringOne(f: seq<Field>, key: string, other: string, s: string)
    requires Find(f, key) == Some(Str(s)) && s != ""
    ensures PickString(f, [key, other]) == Some(s)
  {
    hide Find;
  }

  lemma PlainBlock(lib: Library, k: string, hint: nat)
    requires k != ""
    ensures var c := NormalizeCandidate(lib, Obj([Field("hash", Str(k))]), hint);
      c.Good? && c.block.hash == k && c.block.index == Finite(hint)
  {
    hide PickString, TagsAt;
    var f := [Field("hash", Str(k))];
    FindOne("hash", Str(k), "hash");
    FindOne("hash", Str(k), "index");
    FindOne("hash", Str(k), "idx");
    FindOne("hash", Str(k), "height");
    assert "hash"[0] == 'h' && "index"[0] == 'i' && |"idx"| == 3 && |"height"| == 6;
    PickStringOne(f, "hash", "block_hash", k);
    NumberAbsent(lib, f);
  }

  lemma NumberAbsent(lib: Library, f: seq<Field>)
    requires Find(f, "index").None? && Find(f, "idx").None? && Find(f, "height").None?
    ensures PickNumber(lib, f, ["index", "idx", "height"]).None?
  {
    hide Find;
    assert ["index", "idx", "height"][1..] == ["idx", "height"] && ["idx", "height"][1..] == ["height"];
    assert ["height"][1..] == [];
    assert PickNumber(lib, f, ["height"]).None?;
    assert PickNumber(lib, f, ["idx", "height"]).None?;
  }
}
