/**
  Importing an exported chain: candidates are normalised, duplicates by hash are
  dropped, and what is left is renumbered and relinked into one chain.
*/
module ImportJson {
  import opened Basics
  import opened Json
  import BlockFiles

  datatype JsNumber = Finite(value: int) | Fraction(text: string) | Infinite

  /** Reading a number's text, or a digit string, as a number; a long digit string reads as infinite. */
  datatype Library = Library(toNumber: string -> JsNumber)

  datatype BlockData = BlockData(kind: Option<string>, content: Option<string>, tags: Option<seq<string>>)

  datatype Block = Block(
    index: JsNumber, prevHash: string, hash: string,
    timestamp: Option<string>, chain: Option<string>, data: Option<BlockData>)

  datatype Reason =
    | NotAnObject
    | MissingHash
    | DuplicateHash
    | InvalidIndex
    | MissingGenesisPrevHash
    | PrevHashMismatch

  datatype Issue = Issue(blockRef: string, reason: Reason)

  datatype Shape = ArrayShape | ObjectBlocks | LegacyChain

  datatype Report = Report(
    shape: Shape, total: nat, imported: nat, skipped: int, valid: bool, reconciled: nat,
    indexRewritten: nat, prevHashRewritten: nat, duplicatesSkipped: nat, issues: seq<Issue>, blocks: seq<Block>)

  /** `Crashed` is the type error of reading the hash of a block that was skipped. */
  datatype Outcome = Imported(report: Report) | UnknownShape | Crashed

  const GENESIS_PREV_HASH: string := BlockFiles.GENESIS_PREV_HASH

  // ---------- Reading a candidate ----------

  function Find(fields: seq<Field>, key: string): Option<Json> {
    if |fields| == 0 then None
    else if fields[0].key == key then Some(fields[0].value)
    else Find(fields[1..], key)
  }

  function Or<T>(first: Option<T>, second: Option<T>): Option<T> { if first.Some? then first else second }

  function StringAt(fields: seq<Field>, key: string): Option<string> {
    var v := Find(fields, key);
    if v.Some? && v.value.Str? && v.value.chars != "" then Some(v.value.chars) else None
  }

  function PickString(fields: seq<Field>, keys: seq<string>): Option<string> {
    if |keys| == 0 then None else Or(StringAt(fields, keys[0]), PickString(fields, keys[1..]))
  }

  predicate IsDigits(s: string) { |s| > 0 && forall i :: 0 <= i < |s| ==> '0' <= s[i] <= '9' }

  function NumberAt(lib: Library, fields: seq<Field>, key: string): Option<JsNumber> {
    var v := Find(fields, key);
    if v.Some? && v.value.Num? && !lib.toNumber(v.value.text).Infinite? then Some(lib.toNumber(v.value.text))
    else if v.Some? && v.value.Str? && IsDigits(v.value.chars) then Some(lib.toNumber(v.value.chars))
    else None
  }

  function PickNumber(lib: Library, fields: seq<Field>, keys: seq<string>): Option<JsNumber> {
    if |keys| == 0 then None else Or(NumberAt(lib, fields, keys[0]), PickNumber(lib, fields, keys[1..]))
  }

  function Texts(items: seq<Json>): Option<seq<string>> {
    if |items| == 0 then Some([])
    else
      var rest := Texts(items[1..]);
      if items[0].Str? && rest.Some? then Some([items[0].chars] + rest.value) else None
  }

  function TagsAt(fields: seq<Field>): Option<seq<string>> {
    var v := Find(fields, "tags");
    if v.Some? && v.value.Arr? then Texts(v.value.items) else None
  }

  datatype Candidate = Good(block: Block) | Bad(issue: Issue)

  function CandidateRef(hint: nat): string { "candidate[" + Decimal(hint) + "]" }

  function NormalizeCandidate(lib: Library, raw: Json, hint: nat): Candidate {
    if !raw.Obj? then Bad(Issue(CandidateRef(hint), NotAnObject))
    else
      var f := raw.fields;
      var hash := PickString(f, ["hash", "block_hash"]);
      if hash.None? then Bad(Issue(CandidateRef(hint), MissingHash))
      else
        var index := Or(PickNumber(lib, f, ["index", "idx", "height"]), Some(Finite(hint)));
        var prev := Or(PickString(f, ["prev_hash", "prevHash", "previous_hash", "previousHash"]),
                       Some(GENESIS_PREV_HASH));
        var inner := match Find(f, "data") case Some(Obj(g)) => g case _ => [];
        var content := Or(PickString(f, ["content"]), PickString(inner, ["content", "text"]));
        var tags := Or(TagsAt(f), TagsAt(inner));
        var kind := Or(PickString(f, ["type", "block_type"]), PickString(inner, ["type", "block_type"]));
        Good(Block(index.value, prev.value, hash.value, PickString(f, ["timestamp", "ts", "created_at"]),
                   PickString(f, ["chain", "chain_name"]),
                   if content.Some? || tags.Some? || kind.Some? then Some(BlockData(kind, content, tags))
                   else None))
  }

  function ResolvePayloadShape(payload: Json): Option<(Shape, seq<Json>)> {
    if payload.Arr? then Some((ArrayShape, payload.items))
    else if !payload.Obj? then None
    else
      var blocks, legacy := Find(payload.fields, "blocks"), Find(payload.fields, "chain");
      if blocks.Some? && blocks.value.Arr? then Some((ObjectBlocks, blocks.value.items))
      else if legacy.Some? && legacy.value.Arr? then Some((LegacyChain, legacy.value.items))
      else None
  }

  // ---------- What the two passes produce ----------

  function Hashes(blocks: seq<Block>): set<string> { set i | 0 <= i < |blocks| :: blocks[i].hash }

  function HashRef(b: Block): string { "hash:" + b.hash }

  /** The first candidate of each hash, in order. */
  function Deduped(lib: Library, candidates: seq<Json>): seq<Block> {
    if |candidates| == 0 then []
    else
      var n := |candidates| - 1;
      var before, c := Deduped(lib, candidates[..n]), NormalizeCandidate(lib, candidates[n], n);
      if c.Good? && c.block.hash !in Hashes(before) then before + [c.block] else before
  }

  function FirstIssues(lib: Library, candidates: seq<Json>): seq<Issue> {
    if |candidates| == 0 then []
    else
      var n := |candidates| - 1;
      var before, c := FirstIssues(lib, candidates[..n]), NormalizeCandidate(lib, candidates[n], n);
      match c
      case Bad(issue) => before + [issue]
      case Good(block) =>
        if block.hash in Hashes(Deduped(lib, candidates[..n])) then before + [Issue(HashRef(block), DuplicateHash)]
        else before
  }

  function PrevHashFor(blocks: seq<Block>, i: nat): string
    requires i <= |blocks|
  {
    if i == 0 then GENESIS_PREV_HASH else blocks[i - 1].hash
  }

  /** The blocks renumbered from 0 and linked hash to hash. */
  function Relinked(blocks: seq<Block>): (r: seq<Block>)
    ensures |r| == |blocks|
  {
    seq(|blocks|, i requires 0 <= i < |blocks| =>
      blocks[i].(index := Finite(i), prevHash := PrevHashFor(blocks, i)))
  }

  function IndexRewrites(blocks: seq<Block>): nat {
    if |blocks| == 0 then 0
    else
      var n := |blocks| - 1;
      IndexRewrites(blocks[..n]) + if blocks[n].index != Finite(n) then 1 else 0
  }

  /** The issues of relinking: one for each block whose previous hash was not the one expected. */
  function LinkIssues(blocks: seq<Block>): seq<Issue> {
    if |blocks| == 0 then []
    else
      var n := |blocks| - 1;
      LinkIssues(blocks[..n])
      + if blocks[n].prevHash == PrevHashFor(blocks, n) then []
        else [Issue(HashRef(blocks[n]),
                    if n == 0 && blocks[n].prevHash == "" then MissingGenesisPrevHash else PrevHashMismatch)]
  }

  /** A block whose index reads as infinite is skipped, which the loop survives only at the very end. */
  predicate StopsEarly(blocks: seq<Block>) {
    exists i :: 0 <= i < |blocks| - 1 && blocks[i].index.Infinite?
  }

  predicate LastInfinite(blocks: seq<Block>) { |blocks| > 0 && blocks[|blocks| - 1].index.Infinite? }

  function Kept(blocks: seq<Block>): seq<Block> {
    if LastInfinite(blocks) then blocks[..|blocks| - 1] else blocks
  }

  function AllIssues(lib: Library, candidates: seq<Json>): seq<Issue> {
    var d := Deduped(lib, candidates);
    FirstIssues(lib, candidates) + LinkIssues(Kept(d))
    + if LastInfinite(d) then [Issue(HashRef(d[|d| - 1]), InvalidIndex)] else []
  }

  predicate OnlyDuplicates(issues: seq<Issue>) {
    forall i :: 0 <= i < |issues| ==> issues[i].reason.DuplicateHash?
  }

  function Duplicates(issues: seq<Issue>): nat {
    if |issues| == 0 then 0
    else Duplicates(issues[..|issues| - 1]) + if issues[|issues| - 1].reason.DuplicateHash? then 1 else 0
  }

  function Import(lib: Library, payload: Json): Outcome {
    var source := ResolvePayloadShape(payload);
    if source.None? then UnknownShape
    else
      var (shape, candidates) := source.value;
      var d := Deduped(lib, candidates);
      if StopsEarly(d) then Crashed
      else
        var blocks, issues := Relinked(Kept(d)), AllIssues(lib, candidates);
        Imported(Report(shape, |candidates|, |blocks|, |candidates| - |blocks|, OnlyDuplicates(issues), |d|,
                        IndexRewrites(Kept(d)), |LinkIssues(Kept(d))|, Duplicates(issues), issues, blocks))
  }

  // ---------- The two loops ----------

  lemma HashesGrow(blocks: seq<Block>, b: Block)
    ensures Hashes(blocks + [b]) == Hashes(blocks) + {b.hash}
  {
    var after := blocks + [b];
    forall h | h in Hashes(blocks) + {b.hash}
      ensures h in Hashes(after)
    {
      if h == b.hash {
        assert after[|blocks|].hash == h;
      } else {
        var i :| 0 <= i < |blocks| && blocks[i].hash == h;
        assert after[i].hash == h;
      }
    }
  }

  lemma KeptNext(d: seq<Block>, i: nat)
    requires i < |d| && !StopsEarly(d[..i]) && !LastInfinite(d[..i])
    ensures Kept(d[..i]) == d[..i] && !StopsEarly(d[..i + 1])
    ensures Kept(d[..i + 1]) == if d[i].index.Infinite? then d[..i] else d[..i + 1]
    ensures LastInfinite(d[..i + 1]) == d[i].index.Infinite?
  {
    assert d[..i + 1][..i] == d[..i];
    assert forall j :: 0 <= j < i ==> d[..i][j] == d[j] == d[..i + 1][j];
    assert i > 0 ==> d[..i][i - 1] == d[i - 1];
  }

  lemma RelinkedNext(d: seq<Block>, i: nat)
    requires i < |d|
    ensures Relinked(d[..i + 1]) == Relinked(d[..i]) + [d[i].(index := Finite(i), prevHash := PrevHashFor(d, i))]
    ensures i > 0 ==> PrevHashFor(d, i) == Relinked(d[..i])[i - 1].hash
    ensures IndexRewrites(d[..i + 1]) == IndexRewrites(d[..i]) + if d[i].index != Finite(i) then 1 else 0
    ensures LinkIssues(d[..i + 1]) == LinkIssues(d[..i]) +
      if d[i].prevHash == PrevHashFor(d, i) then []
      else [Issue(HashRef(d[i]), if i == 0 && d[i].prevHash == "" then MissingGenesisPrevHash else PrevHashMismatch)]
  {
    assert d[..i + 1][..i] == d[..i];
    assert PrevHashFor(d[..i + 1], i) == PrevHashFor(d, i);
  }

  method DropDuplicates(lib: Library, candidates: seq<Json>) returns (deduped: seq<Block>, issues: seq<Issue>)
    ensures deduped == Deduped(lib, candidates) && issues == FirstIssues(lib, candidates)
  {
    hide NormalizeCandidate, Hashes;
    deduped, issues := [], [];
    var seenHash: set<string> := {};
    assert Hashes([]) == {} by { NoHashes(); }
    for i := 0 to |candidates|
      invariant deduped == Deduped(lib, candidates[..i]) && issues == FirstIssues(lib, candidates[..i])
      invariant seenHash == Hashes(deduped)
    {
      assert candidates[..i + 1][..i] == candidates[..i];
      var candidate := NormalizeCandidate(lib, candidates[i], i);
      if candidate.Bad? {
        issues := issues + [candidate.issue];
        continue;
      }
      var block := candidate.block;
      if block.hash in seenHash {
        issues := issues + [Issue(HashRef(block), DuplicateHash)];
        continue;
      }
      HashesGrow(deduped, block);
      seenHash := seenHash + {block.hash};
      deduped := deduped + [block];
    }
    assert candidates[..|candidates|] == candidates;
  }

  lemma NoHashes()
    ensures Hashes([]) == {}
  {}

  method RunImportJsonPayload(lib: Library, payload: Json) returns (outcome: Outcome)
    ensures outcome == Import(lib, payload)
  {
    hide ResolvePayloadShape, Deduped, FirstIssues, IndexRewrites, LinkIssues, Kept, LastInfinite, StopsEarly, Relinked;
    hide OnlyDuplicates, Duplicates, HashRef, PrevHashFor;
    var source := ResolvePayloadShape(payload);
    if source.None? { return UnknownShape; }
    var (shape, candidates) := source.value;
    var deduped, issues := DropDuplicates(lib, candidates);
    ghost var first := issues;
    var reconciled: seq<Block>, indexRewritten, prevHashRewritten := [], 0, 0;
    NothingKept(deduped);
    for i := 0 to |deduped|
      invariant !StopsEarly(deduped[..i])
      invariant reconciled == Relinked(Kept(deduped[..i])) && indexRewritten == IndexRewrites(Kept(deduped[..i]))
      invariant prevHashRewritten == |LinkIssues(Kept(deduped[..i]))|
      invariant issues == first + LinkIssues(Kept(deduped[..i]))
        + if LastInfinite(deduped[..i]) then [Issue(HashRef(deduped[..i][i - 1]), InvalidIndex)] else []
    {
      var b := deduped[i];
      SkippedIff(deduped, i);
      if i > 0 && |reconciled| < i { return Crashed; }
      KeptNext(deduped, i);
      RelinkedNext(deduped, i);
      FirstPrevHash(deduped);
      var expectedPrevHash := if i == 0 then GENESIS_PREV_HASH else reconciled[i - 1].hash;
      if b.index.Infinite? {
        issues := issues + [Issue(HashRef(b), InvalidIndex)];
        continue;
      }
      var out := b;
      if b.index != Finite(i) {
        out := out.(index := Finite(i));
        indexRewritten := indexRewritten + 1;
      }
      if b.prevHash != expectedPrevHash {
        if i == 0 && b.prevHash == "" {
          issues := issues + [Issue(HashRef(b), MissingGenesisPrevHash)];
        } else {
          issues := issues + [Issue(HashRef(b), PrevHashMismatch)];
        }
        out := out.(prevHash := expectedPrevHash);
        prevHashRewritten := prevHashRewritten + 1;
      }
      reconciled := reconciled + [out];
    }
    assert deduped[..|deduped|] == deduped;
    return Imported(Report(shape, |candidates|, |reconciled|, |candidates| - |reconciled|, OnlyDuplicates(issues),
                           |deduped|, indexRewritten, prevHashRewritten, Duplicates(issues), issues, reconciled));
  }

  lemma NothingKept(d: seq<Block>)
    ensures !StopsEarly(d[..0]) && Kept(d[..0]) == [] && Relinked([]) == [] && IndexRewrites([]) == 0
    ensures LinkIssues([]) == [] && !LastInfinite(d[..0])
  {}

  lemma FirstPrevHash(d: seq<Block>)
    ensures PrevHashFor(d, 0) == GENESIS_PREV_HASH
  {}

  /** The loop falls behind exactly when the block before was skipped, and then a skipped block is not the last. */
  lemma SkippedIff(d: seq<Block>, i: nat)
    requires i < |d| && !StopsEarly(d[..i])
    ensures |Relinked(Kept(d[..i]))| < i <==> LastInfinite(d[..i])
    ensures LastInfinite(d[..i]) ==> StopsEarly(d) && i > 0
    ensures !LastInfinite(d[..i]) ==> |Relinked(Kept(d[..i]))| == i
  {
    if LastInfinite(d[..i]) { assert d[..i][i - 1] == d[i - 1]; }
  }
}
