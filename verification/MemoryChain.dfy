/**
  The in-memory block chain: validation of a block against its predecessor,
  append, tail, replay of an untrusted block list, and snapshots.

  SHA-256, signature checking and RFC 3339 parsing are parameters.
*/
module MemoryChain {
  import opened Basics

  type U64 = x: int | 0 <= x < 0x1_0000_0000_0000_0000

  /** Index arithmetic wraps, as it does in a release build. */
  function NextIndex(i: U64): U64 { (i + 1) % 0x1_0000_0000_0000_0000 }

  datatype BlockType =
    | Journal | Ask | Decision | System | SystemEvent | ToolCall | ToolResult | ErrorEvent
    | WalletTxRequested | WalletTxSigned | WalletTxBroadcast | WalletTxConfirmed | WalletTxFailed

  datatype BlockData = BlockData(blockType: BlockType, content: string, tags: seq<string>)

  datatype Block = Block(
    index: U64, timestamp: string, chain: string, data: BlockData, prevHash: string, hash: string,
    signer: Option<string>, signature: Option<string>)

  /** The hashed fields. */
  datatype Payload = Payload(index: U64, timestamp: string, chain: string, data: BlockData, prevHash: string)

  function PayloadOf(b: Block): Payload { Payload(b.index, b.timestamp, b.chain, b.data, b.prevHash) }

  datatype SignatureCheck = Verified | NotVerified | Malformed

  datatype Library = Library(
    isSpace: char -> bool,                                  // what `trim` removes
    hash: Payload -> string,                                // SHA-256 of the serialised payload, in hex
    digest: string -> string,                               // SHA-256 of a text, in hex
    parseTime: string -> Option<int>,                       // RFC 3339
    check: (string, string, string) -> SignatureCheck)      // signer, signature, signed hash

  const ZERO_HASH: string := Repeat('0', 64)

  function ComputeHash(lib: Library, b: Block): string { lib.hash(PayloadOf(b)) }

  function VerifySignature(lib: Library, b: Block): SignatureCheck {
    if b.signer.None? && b.signature.None? then NotVerified
    else if b.signer.None? || b.signature.None? then Malformed
    else lib.check(b.signer.value, b.signature.value, ComputeHash(lib, b))
  }

  predicate Blank(lib: Library, s: string) { forall i :: 0 <= i < |s| ==> lib.isSpace(s[i]) }

  predicate HasDotDot(s: string) { exists i :: 0 <= i < |s| - 1 && s[i] == '.' && s[i + 1] == '.' }

  // ---------- What makes a block valid after another ----------

  datatype Problem =
    | ChainEmpty | ChainHasNull | ChainHasPath | ContentEmpty | BadTimestamp | HashMismatch
    | SignatureRequired | SignatureInvalid | GenesisIndex | GenesisPrevHash
    | IndexNotSequential | PrevHashMismatch | PrevBadTimestamp | TimestampBeforePrevious

  /** The reasons for rejecting a block, each stated on its own. */
  predicate Has(lib: Library, b: Block, prev: Option<Block>, strict: bool, p: Problem) {
    match p
    case ChainEmpty => Blank(lib, b.chain)
    case ChainHasNull => '\0' in b.chain
    case ChainHasPath => HasDotDot(b.chain) || '/' in b.chain || '\\' in b.chain
    case ContentEmpty => Blank(lib, b.data.content)
    case BadTimestamp => lib.parseTime(b.timestamp).None?
    case HashMismatch => b.hash != ComputeHash(lib, b)
    case SignatureRequired => strict && VerifySignature(lib, b).NotVerified?
    case SignatureInvalid => VerifySignature(lib, b).Malformed?
    case GenesisIndex => prev.None? && b.index != 0 && b.index != 1
    case GenesisPrevHash => prev.None? && b.prevHash != ZERO_HASH
    case IndexNotSequential => prev.Some? && b.index != NextIndex(prev.value.index)
    case PrevHashMismatch => prev.Some? && b.prevHash != prev.value.hash
    case PrevBadTimestamp => prev.Some? && lib.parseTime(prev.value.timestamp).None?
    case TimestampBeforePrevious =>
      && prev.Some? && lib.parseTime(b.timestamp).Some? && lib.parseTime(prev.value.timestamp).Some?
      && lib.parseTime(b.timestamp).value < lib.parseTime(prev.value.timestamp).value
  }

  ghost predicate ValidBlock(lib: Library, b: Block, prev: Option<Block>, strict: bool) {
    forall p :: !Has(lib, b, prev, strict, p)
  }

  datatype Aspect = OfText | OfSeal | OfLink

  function AspectOf(p: Problem): Aspect {
    match p
    case ChainEmpty => OfText
    case ChainHasNull => OfText
    case ChainHasPath => OfText
    case ContentEmpty => OfText
    case BadTimestamp => OfSeal
    case HashMismatch => OfSeal
    case SignatureRequired => OfSeal
    case SignatureInvalid => OfSeal
    case _ => OfLink
  }

  method CheckText(lib: Library, b: Block, ghost prev: Option<Block>, ghost strict: bool) returns (errors: seq<Problem>)
    ensures forall p :: p in errors <==> AspectOf(p) == OfText && Has(lib, b, prev, strict, p)
  {
    errors := [];
    if Blank(lib, b.chain) { errors := errors + [ChainEmpty]; }
    if '\0' in b.chain { errors := errors + [ChainHasNull]; }
    if HasDotDot(b.chain) || '/' in b.chain || '\\' in b.chain { errors := errors + [ChainHasPath]; }
    if Blank(lib, b.data.content) { errors := errors + [ContentEmpty]; }
  }

  method CheckSeal(lib: Library, b: Block, ghost prev: Option<Block>, strict: bool) returns (errors: seq<Problem>)
    ensures forall p :: p in errors <==> AspectOf(p) == OfSeal && Has(lib, b, prev, strict, p)
  {
    errors := [];
    if lib.parseTime(b.timestamp).None? { errors := errors + [BadTimestamp]; }
    if b.hash != ComputeHash(lib, b) { errors := errors + [HashMismatch]; }
    match VerifySignature(lib, b) {
      case Verified =>
      case NotVerified => if strict { errors := errors + [SignatureRequired]; }
      case Malformed => errors := errors + [SignatureInvalid];
    }
  }

  method CheckLink(lib: Library, b: Block, prev: Option<Block>, strict: bool) returns (errors: seq<Problem>)
    ensures forall p :: p in errors <==> AspectOf(p) == OfLink && Has(lib, b, prev, strict, p)
  {
    errors := [];
    match prev {
      case None =>
        if b.index != 0 && b.index != 1 { errors := errors + [GenesisIndex]; }
        if b.prevHash != ZERO_HASH { errors := errors + [GenesisPrevHash]; }
      case Some(q) =>
        if b.index != NextIndex(q.index) { errors := errors + [IndexNotSequential]; }
        if b.prevHash != q.hash { errors := errors + [PrevHashMismatch]; }
        var ts, prevTs := lib.parseTime(b.timestamp), lib.parseTime(q.timestamp);
        if prevTs.None? { errors := errors + [PrevBadTimestamp]; }
        if ts.Some? && prevTs.Some? && ts.value < prevTs.value { errors := errors + [TimestampBeforePrevious]; }
    }
  }

  /** Every reason that applies is reported, and no other. */
  method ValidateBlock(lib: Library, b: Block, prev: Option<Block>, strict: bool) returns (errors: seq<Problem>)
    ensures forall p :: p in errors <==> Has(lib, b, prev, strict, p)
    ensures errors == [] <==> ValidBlock(lib, b, prev, strict)
  {
    hide Has;
    var text := CheckText(lib, b, prev, strict);
    var seal := CheckSeal(lib, b, prev, strict);
    var link := CheckLink(lib, b, prev, strict);
    errors := text + seal + link;
    ValidIffNoErrors(lib, b, prev, strict, errors);
  }

  lemma ValidIffNoErrors(lib: Library, b: Block, prev: Option<Block>, strict: bool, errors: seq<Problem>)
    requires forall p :: p in errors <==> Has(lib, b, prev, strict, p)
    ensures errors == [] <==> ValidBlock(lib, b, prev, strict)
  {
    hide Has;
    if errors != [] { assert errors[0] in errors; }
  }

  // ---------- Valid chains ----------

  function Prev(blocks: seq<Block>, i: nat): Option<Block>
    requires i <= |blocks|
  {
    if i == 0 then None else Some(blocks[i - 1])
  }

  ghost predicate ValidChain(lib: Library, blocks: seq<Block>) {
    forall i :: 0 <= i < |blocks| ==> ValidBlock(lib, blocks[i], Prev(blocks, i), false)
  }

  lemma StrictIsStronger(lib: Library, b: Block, prev: Option<Block>)
    requires ValidBlock(lib, b, prev, true)
    ensures ValidBlock(lib, b, prev, false)
  {
    forall p
      ensures !Has(lib, b, prev, false, p)
    {
      assert !Has(lib, b, prev, true, p);
    }
  }

  lemma ValidLinks(lib: Library, b: Block, prev: Option<Block>)
    requires ValidBlock(lib, b, prev, false)
    ensures b.hash == ComputeHash(lib, b)
    ensures b.prevHash == if prev.Some? then prev.value.hash else ZERO_HASH
  {
    assert !Has(lib, b, prev, false, HashMismatch);
    assert !Has(lib, b, prev, false, GenesisPrevHash);
    assert !Has(lib, b, prev, false, PrevHashMismatch);
  }

  lemma ValidSnoc(lib: Library, blocks: seq<Block>, b: Block)
    requires ValidChain(lib, blocks) && ValidBlock(lib, b, Prev(blocks, |blocks|), false)
    ensures ValidChain(lib, blocks + [b])
  {
    hide ValidBlock;
    var all := blocks + [b];
    forall i | 0 <= i < |all|
      ensures ValidBlock(lib, all[i], Prev(all, i), false)
    {
      if i < |blocks| { assert all[i] == blocks[i] && Prev(all, i) == Prev(blocks, i); }
    }
  }

  lemma ValidPrefix(lib: Library, blocks: seq<Block>, n: nat)
    requires ValidChain(lib, blocks) && n <= |blocks|
    ensures ValidChain(lib, blocks[..n])
  {
    hide ValidBlock;
    forall i | 0 <= i < n
      ensures ValidBlock(lib, blocks[..n][i], Prev(blocks[..n], i), false)
    {
      assert blocks[..n][i] == blocks[i] && Prev(blocks[..n], i) == Prev(blocks, i);
    }
  }

  // ---------- What a valid chain looks like ----------

  /** Both signer and signature are there and the signature checks against the hash of the block's contents. */
  predicate Signed(lib: Library, b: Block) {
    && b.signer.Some? && b.signature.Some?
    && lib.check(b.signer.value, b.signature.value, lib.hash(PayloadOf(b))).Verified?
  }

  /** A strictly valid block is a valid block that is signed. */
  lemma StrictMeansSigned(lib: Library, b: Block, prev: Option<Block>)
    ensures ValidBlock(lib, b, prev, true) <==> ValidBlock(lib, b, prev, false) && Signed(lib, b)
  {
    assert forall p :: p != SignatureRequired ==> (Has(lib, b, prev, true, p) <==> Has(lib, b, prev, false, p));
    assert !Has(lib, b, prev, false, SignatureRequired);
    assert Has(lib, b, prev, true, SignatureRequired) || Has(lib, b, prev, true, SignatureInvalid) <==> !Signed(lib, b);
    if ValidBlock(lib, b, prev, true) {
      StrictIsStronger(lib, b, prev);
      assert !Has(lib, b, prev, true, SignatureRequired) && !Has(lib, b, prev, true, SignatureInvalid);
    }
  }

  /** The contents a valid block has, wherever it stands. */
  predicate Sound(lib: Library, b: Block) {
    && (exists i :: 0 <= i < |b.chain| && !lib.isSpace(b.chain[i]))
    && (exists i :: 0 <= i < |b.data.content| && !lib.isSpace(b.data.content[i]))
    && lib.parseTime(b.timestamp).Some?
    && '\0' !in b.chain && '/' !in b.chain && '\\' !in b.chain
    && (forall i :: 0 <= i < |b.chain| - 1 ==> b.chain[i] != '.' || b.chain[i + 1] != '.')
    && b.hash == lib.hash(PayloadOf(b)) && (b.signer.Some? <==> b.signature.Some?)
    && (b.signer.Some? && b.signature.Some? ==>
          !lib.check(b.signer.value, b.signature.value, lib.hash(PayloadOf(b))).Malformed?)
  }

  /** How a valid block follows the one before, or begins a chain. */
  predicate Succeeds(lib: Library, b: Block, prev: Option<Block>) {
    match prev
    case None => (b.index == 0 || b.index == 1) && |b.prevHash| == 64 && forall i :: 0 <= i < 64 ==> b.prevHash[i] == '0'
    case Some(q) =>
      && b.index == (q.index + 1) % 0x1_0000_0000_0000_0000 && b.prevHash == q.hash
      && lib.parseTime(q.timestamp).Some?
      && (lib.parseTime(b.timestamp).Some? ==> lib.parseTime(q.timestamp).value <= lib.parseTime(b.timestamp).value)
  }

  /** A block is valid exactly when its contents are sound and it follows the one before. */
  lemma ValidIff(lib: Library, b: Block, prev: Option<Block>)
    ensures ValidBlock(lib, b, prev, false) <==> Sound(lib, b) && Succeeds(lib, b, prev)
  {
    assert Sound(lib, b) <==> forall p :: AspectOf(p) != OfLink ==> !Has(lib, b, prev, false, p) by {
      SoundIff(lib, b, prev);
    }
    assert Succeeds(lib, b, prev) <==> forall p :: AspectOf(p) == OfLink ==> !Has(lib, b, prev, false, p) by {
      SucceedsIff(lib, b, prev);
    }
    hide Has, Sound, Succeeds;
  }

  lemma SoundIff(lib: Library, b: Block, prev: Option<Block>)
    ensures Sound(lib, b) <==> forall p :: AspectOf(p) != OfLink ==> !Has(lib, b, prev, false, p)
  {
    if forall p :: AspectOf(p) != OfLink ==> !Has(lib, b, prev, false, p) {
      assert !Has(lib, b, prev, false, ChainEmpty) && !Has(lib, b, prev, false, ContentEmpty);
      assert !Has(lib, b, prev, false, BadTimestamp) && !Has(lib, b, prev, false, HashMismatch);
      assert !Has(lib, b, prev, false, ChainHasNull) && !Has(lib, b, prev, false, ChainHasPath);
      assert !Has(lib, b, prev, false, SignatureInvalid);
    }
  }

  lemma ZeroHashIs(s: string)
    ensures s == ZERO_HASH <==> |s| == 64 && forall i :: 0 <= i < 64 ==> s[i] == '0'
  {
    assert |ZERO_HASH| == 64 && forall i :: 0 <= i < 64 ==> ZERO_HASH[i] == '0';
    if |s| == 64 && forall i :: 0 <= i < 64 ==> s[i] == '0' {
      assert forall i :: 0 <= i < |s| ==> s[i] == ZERO_HASH[i];
    }
  }

  lemma SucceedsIff(lib: Library, b: Block, prev: Option<Block>)
    ensures Succeeds(lib, b, prev) <==> forall p :: AspectOf(p) == OfLink ==> !Has(lib, b, prev, false, p)
  {
    ZeroHashIs(b.prevHash);
    if forall p :: AspectOf(p) == OfLink ==> !Has(lib, b, prev, false, p) {
      assert !Has(lib, b, prev, false, GenesisIndex) && !Has(lib, b, prev, false, GenesisPrevHash);
      assert !Has(lib, b, prev, false, IndexNotSequential) && !Has(lib, b, prev, false, PrevHashMismatch);
      assert !Has(lib, b, prev, false, PrevBadTimestamp) && !Has(lib, b, prev, false, TimestampBeforePrevious);
    }
  }

  lemma ValidNeighbours(lib: Library, blocks: seq<Block>, i: nat)
    requires ValidChain(lib, blocks) && i < |blocks|
    ensures i == 0 ==> (blocks[0].index == 0 || blocks[0].index == 1) && blocks[0].prevHash == ZERO_HASH
    ensures lib.parseTime(blocks[i].timestamp).Some?
    ensures i > 0 ==>
      && blocks[i].index == (blocks[i - 1].index + 1) % 0x1_0000_0000_0000_0000
      && blocks[i].prevHash == blocks[i - 1].hash
      && lib.parseTime(blocks[i - 1].timestamp).Some?
      && lib.parseTime(blocks[i - 1].timestamp).value <= lib.parseTime(blocks[i].timestamp).value
  {
    assert ValidBlock(lib, blocks[i], Prev(blocks, i), false);
    ValidIff(lib, blocks[i], Prev(blocks, i));
    ZeroHashIs(blocks[i].prevHash);
  }

  /** The blocks of a valid chain are numbered one after the other from 0 or 1, up to the wrap of the number type. */
  lemma {:induction false} ValidIndices(lib: Library, blocks: seq<Block>, i: nat)
    requires ValidChain(lib, blocks) && i < |blocks|
    ensures blocks[0].index == 0 || blocks[0].index == 1
    ensures blocks[i].index == (blocks[0].index + i) % 0x1_0000_0000_0000_0000
  {
    hide ValidChain;
    ValidNeighbours(lib, blocks, i);
    if i > 0 { ValidIndices(lib, blocks, i - 1); }
  }

  /** The times of a valid chain never go back. */
  lemma {:induction false} TimesNeverGoBack(lib: Library, blocks: seq<Block>, i: nat, j: nat)
    requires ValidChain(lib, blocks) && i <= j < |blocks|
    ensures lib.parseTime(blocks[i].timestamp).Some? && lib.parseTime(blocks[j].timestamp).Some?
    ensures lib.parseTime(blocks[i].timestamp).value <= lib.parseTime(blocks[j].timestamp).value
  {
    if i < j {
      hide ValidChain;
      ValidNeighbours(lib, blocks, j);
      TimesNeverGoBack(lib, blocks, i, j - 1);
    } else {
      ValidNeighbours(lib, blocks, i);
    }
  }

  // ---------- The last hash fixes the history ----------

  /** The hash behaves as an ideal one: different payloads, different hashes; never all zeros; never blank. */
  ghost predicate IdealHash(lib: Library) {
    && (forall p, q :: lib.hash(p) == lib.hash(q) ==> p == q)
    && (forall p :: lib.hash(p) != ZERO_HASH && !Blank(lib, lib.hash(p)))
  }

  /** Agreement block by block in every hashed field and in the stored hash. */
  predicate SameHistory(a: seq<Block>, b: seq<Block>) {
    |a| == |b| && forall i :: 0 <= i < |a| ==> PayloadOf(a[i]) == PayloadOf(b[i]) && a[i].hash == b[i].hash
  }

  lemma {:induction false} LastHashFixesHistory(lib: Library, a: seq<Block>, b: seq<Block>)
    requires IdealHash(lib) && ValidChain(lib, a) && ValidChain(lib, b) && |a| > 0 && |b| > 0
    requires a[|a| - 1].hash == b[|b| - 1].hash
    ensures SameHistory(a, b)
    decreases |a|
  {
    hide ValidBlock, ValidChain, IdealHash;
    var m, n := |a| - 1, |b| - 1;
    StoredHashIsPayload(lib, a, m);
    StoredHashIsPayload(lib, b, n);
    HashInjective(lib, PayloadOf(a[m]), PayloadOf(b[n]));
    GenesisOrLinked(lib, a, m);
    GenesisOrLinked(lib, b, n);
    if m > 0 {
      ValidPrefix(lib, a, m);
      ValidPrefix(lib, b, n);
      LastHashFixesHistory(lib, a[..m], b[..n]);
      assert forall i :: 0 <= i < m ==> a[..m][i] == a[i] && b[..n][i] == b[i];
    }
  }

  lemma HashInjective(lib: Library, p: Payload, q: Payload)
    requires IdealHash(lib) && lib.hash(p) == lib.hash(q)
    ensures p == q
  {}

  lemma StoredHashIsPayload(lib: Library, blocks: seq<Block>, i: nat)
    requires ValidChain(lib, blocks) && i < |blocks|
    ensures blocks[i].hash == lib.hash(PayloadOf(blocks[i]))
  {
    ValidLinks(lib, blocks[i], Prev(blocks, i));
    hide ValidBlock;
  }

  /** A block is the first one exactly when its predecessor hash is all zeros. */
  lemma GenesisOrLinked(lib: Library, blocks: seq<Block>, i: nat)
    requires IdealHash(lib) && ValidChain(lib, blocks) && i < |blocks|
    ensures i == 0 <==> blocks[i].prevHash == ZERO_HASH
    ensures i > 0 ==> blocks[i].prevHash == blocks[i - 1].hash
  {
    ValidLinks(lib, blocks[i], Prev(blocks, i));
    if i > 0 { StoredHashIsPayload(lib, blocks, i - 1); }
    hide ValidBlock, ValidChain;
  }

  /** Any difference in a hashed field, anywhere, shows in the last hash. */
  lemma TamperingShows(lib: Library, a: seq<Block>, b: seq<Block>, i: nat)
    requires IdealHash(lib) && ValidChain(lib, a) && ValidChain(lib, b)
    requires i < |a| && i < |b| && PayloadOf(a[i]) != PayloadOf(b[i])
    ensures a[|a| - 1].hash != b[|b| - 1].hash
  {
    if a[|a| - 1].hash == b[|b| - 1].hash { LastHashFixesHistory(lib, a, b); }
  }

  // ---------- The chain object ----------

  class MemoryChain {
    const lib: Library
    const name: string
    var blocks: seq<Block>

    constructor (lib: Library, name: string)
      ensures blocks == [] && this.lib == lib && this.name == name
    {
      this.lib, this.name, this.blocks := lib, name, [];
    }

    /** Accepts exactly the valid blocks; a rejected block changes nothing. */
    method Append(block: Block) returns (errors: seq<Problem>)
      modifies this
      ensures errors == [] <==> ValidBlock(lib, block, Prev(old(blocks), |old(blocks)|), false)
      ensures blocks == if errors == [] then old(blocks) + [block] else old(blocks)
      ensures old(ValidChain(lib, blocks)) ==> ValidChain(lib, blocks)
    {
      errors := ValidateBlock(lib, block, Prev(blocks, |blocks|), false);
      if errors == [] {
        if ValidChain(lib, blocks) { ValidSnoc(lib, blocks, block); }
        blocks := blocks + [block];
      }
    }

    /** As `Append`, and the block must carry a verified signature. */
    method AppendStrict(block: Block) returns (errors: seq<Problem>)
      modifies this
      ensures errors == [] <==> ValidBlock(lib, block, Prev(old(blocks), |old(blocks)|), true)
      ensures errors == [] ==> VerifySignature(lib, block).Verified?
      ensures blocks == if errors == [] then old(blocks) + [block] else old(blocks)
      ensures old(ValidChain(lib, blocks)) ==> ValidChain(lib, blocks)
    {
      var prev := Prev(blocks, |blocks|);
      errors := ValidateBlock(lib, block, prev, true);
      if errors == [] {
        assert !Has(lib, block, prev, true, SignatureRequired) && !Has(lib, block, prev, true, SignatureInvalid);
        StrictIsStronger(lib, block, prev);
        if ValidChain(lib, blocks) { ValidSnoc(lib, blocks, block); }
        blocks := blocks + [block];
      }
    }

    /** The last n blocks, newest first. */
    method Tail(n: nat) returns (t: seq<Block>)
      ensures |t| == (if n < |blocks| then n else |blocks|)
      ensures forall i :: 0 <= i < |t| ==> t[i] == blocks[|blocks| - 1 - i]
    {
      t := [];
      while |t| < n && |t| < |blocks|
        invariant |t| <= n && |t| <= |blocks|
        invariant forall i :: 0 <= i < |t| ==> t[i] == blocks[|blocks| - 1 - i]
        decreases |blocks| - |t|
      {
        t := t + [blocks[|blocks| - 1 - |t|]];
      }
    }
  }

  // ---------- Replay ----------

  /** The greedy selection: each block is kept if it is valid after the blocks kept so far. */
  ghost function Kept(lib: Library, chain: seq<Block>, blocks: seq<Block>): seq<Block>
    decreases |blocks|
  {
    if |blocks| == 0 then chain
    else if ValidBlock(lib, blocks[0], Prev(chain, |chain|), false) then Kept(lib, chain + [blocks[0]], blocks[1..])
    else Kept(lib, chain, blocks[1..])
  }

  /** The indices of the blocks the selection passes over, in order. */
  ghost function Refused(lib: Library, chain: seq<Block>, blocks: seq<Block>): seq<U64>
    decreases |blocks|
  {
    if |blocks| == 0 then []
    else if ValidBlock(lib, blocks[0], Prev(chain, |chain|), false) then Refused(lib, chain + [blocks[0]], blocks[1..])
    else [blocks[0].index] + Refused(lib, chain, blocks[1..])
  }

  function Indices(errors: seq<(U64, seq<Problem>)>): seq<U64> {
    seq(|errors|, i requires 0 <= i < |errors| => errors[i].0)
  }

  datatype Snapshot = Snapshot(blocks: nat, lastHash: Option<string>, stateHash: string)

  datatype Report = Report(accepted: nat, rejected: nat, errors: seq<(U64, seq<Problem>)>, snapshot: Snapshot)

  /** A stored hash that is blank is recomputed. */
  function HashText(lib: Library, b: Block): string {
    if Blank(lib, b.hash) then ComputeHash(lib, b) else b.hash
  }

  function HashTexts(lib: Library, blocks: seq<Block>): string {
    if |blocks| == 0 then "" else HashTexts(lib, blocks[..|blocks| - 1]) + HashText(lib, blocks[|blocks| - 1])
  }

  function SnapshotOf(lib: Library, blocks: seq<Block>): Snapshot {
    Snapshot(|blocks|,
             if |blocks| == 0 then None else Some(HashText(lib, blocks[|blocks| - 1])),
             lib.digest(HashTexts(lib, blocks)))
  }

  method TakeSnapshot(lib: Library, blocks: seq<Block>) returns (s: Snapshot)
    ensures s == SnapshotOf(lib, blocks)
  {
    var fed := "";
    for i := 0 to |blocks|
      invariant fed == HashTexts(lib, blocks[..i])
    {
      assert blocks[..i + 1][..i] == blocks[..i];
      var h := if Blank(lib, blocks[i].hash) then ComputeHash(lib, blocks[i]) else blocks[i].hash;
      fed := fed + h;
    }
    assert blocks[..|blocks|] == blocks;
    s := Snapshot(|blocks|, if |blocks| == 0 then None else Some(HashText(lib, blocks[|blocks| - 1])), lib.digest(fed));
  }

  /** `kept` is what remains of `blocks` when some of them are struck out. */
  predicate Subsequence(kept: seq<Block>, blocks: seq<Block>)
    decreases |blocks|
  {
    if |kept| == 0 then true
    else if |blocks| == 0 then false
    else if kept[0] == blocks[0] then Subsequence(kept[1..], blocks[1..])
    else Subsequence(kept, blocks[1..])
  }

  lemma {:induction false} KeptNext(lib: Library, chain: seq<Block>, blocks: seq<Block>, b: Block)
    ensures var k := Kept(lib, chain, blocks);
      Kept(lib, chain, blocks + [b]) == if ValidBlock(lib, b, Prev(k, |k|), false) then k + [b] else k
    decreases |blocks|
  {
    hide ValidBlock;
    var all := blocks + [b];
    if |blocks| == 0 {
      assert all == [b] && [b][1..] == [];
    } else {
      assert all[0] == blocks[0] && all[1..] == blocks[1..] + [b];
      if ValidBlock(lib, blocks[0], Prev(chain, |chain|), false) {
        KeptNext(lib, chain + [blocks[0]], blocks[1..], b);
      } else {
        KeptNext(lib, chain, blocks[1..], b);
      }
    }
  }

  /** What the snapshot digests: the stored hash of each block in turn, recomputed where there is none but spaces. */
  lemma HashTextsMeaning(lib: Library, blocks: seq<Block>, b: Block)
    ensures HashTexts(lib, []) == ""
    ensures HashTexts(lib, blocks + [b]) == HashTexts(lib, blocks) +
      if exists i :: 0 <= i < |b.hash| && !lib.isSpace(b.hash[i]) then b.hash else lib.hash(PayloadOf(b))
  {
    hide Blank;
    var all := blocks + [b];
    assert all[..|blocks|] == blocks && all[|blocks|] == b;
    BlankMeaning(lib, b.hash);
  }

  lemma BlankMeaning(lib: Library, s: string)
    ensures Blank(lib, s) <==> !exists i :: 0 <= i < |s| && !lib.isSpace(s[i])
  {}

  /** The reasons reported for block `i`: exactly those it has after what was kept of the blocks before it. */
  ghost predicate Explains(lib: Library, blocks: seq<Block>, i: nat, error: (U64, seq<Problem>))
    requires i < |blocks|
  {
    var k := Kept(lib, [], blocks[..i]);
    error.0 == blocks[i].index && forall p :: p in error.1 <==> Has(lib, blocks[i], Prev(k, |k|), false, p)
  }

  lemma ExplainsAt(lib: Library, blocks: seq<Block>, i: nat, chain: seq<Block>, errs: seq<Problem>)
    requires i < |blocks| && chain == Kept(lib, [], blocks[..i])
    requires forall p :: p in errs <==> Has(lib, blocks[i], Prev(chain, |chain|), false, p)
    ensures Explains(lib, blocks, i, (blocks[i].index, errs))
  {
    hide Kept, Has;
  }

  lemma NothingLeft(lib: Library, chain: seq<Block>)
    ensures Kept(lib, chain, []) == chain && Refused(lib, chain, []) == [] && Indices([]) == []
    ensures ValidChain(lib, [])
  {}

  lemma RefusedNext(lib: Library, chain: seq<Block>, blocks: seq<Block>, i: nat, errors: seq<(U64, seq<Problem>)>)
    requires i < |blocks|
    ensures var refused := Indices(errors) + Refused(lib, chain, blocks[i..]);
      if ValidBlock(lib, blocks[i], Prev(chain, |chain|), false) then
        refused == Indices(errors) + Refused(lib, chain + [blocks[i]], blocks[i + 1..])
      else
        forall errs :: refused == Indices(errors + [(blocks[i].index, errs)]) + Refused(lib, chain, blocks[i + 1..])
  {
    hide ValidBlock;
    assert blocks[i..][0] == blocks[i] && blocks[i..][1..] == blocks[i + 1..];
    forall errs: seq<Problem>
      ensures Indices(errors + [(blocks[i].index, errs)]) == Indices(errors) + [blocks[i].index]
    {}
  }

  method Replay(lib: Library, name: string, blocks: seq<Block>)
    returns (report: Report, ghost kept: seq<Block>, ghost passed: seq<nat>)
    ensures kept == Kept(lib, [], blocks) && ValidChain(lib, kept)
    ensures report.accepted == |kept| && report.accepted + report.rejected == |blocks|
    ensures |report.errors| == report.rejected && Indices(report.errors) == Refused(lib, [], blocks)
    ensures forall i :: 0 <= i < |report.errors| ==> report.errors[i].1 != []
    ensures |passed| == |report.errors| && forall i, j :: 0 <= i < j < |passed| ==> passed[i] < passed[j]
    ensures forall i :: 0 <= i < |passed| ==> passed[i] < |blocks| && Explains(lib, blocks, passed[i], report.errors[i])
    ensures report.snapshot == SnapshotOf(lib, kept)
  {
    hide ValidBlock, ValidChain, Has, Kept, Refused, Indices, Explains;
    var chain: seq<Block> := [];
    var accepted, rejected := 0, 0;
    var errors: seq<(U64, seq<Problem>)> := [];
    NothingLeft(lib, []);
    assert blocks[0..] == blocks && blocks[..0] == [] && [] + Refused(lib, [], blocks) == Refused(lib, [], blocks);
    passed := [];
    for i := 0 to |blocks|
      invariant chain == Kept(lib, [], blocks[..i])
      invariant |passed| == |errors| && (forall j, k :: 0 <= j < k < |passed| ==> passed[j] < passed[k])
      invariant forall j :: 0 <= j < |passed| ==> passed[j] < i && Explains(lib, blocks, passed[j], errors[j])
      invariant ValidChain(lib, chain)
      invariant accepted == |chain| && accepted + rejected == i && |errors| == rejected
      invariant Refused(lib, [], blocks) == Indices(errors) + Refused(lib, chain, blocks[i..])
      invariant forall j :: 0 <= j < |errors| ==> errors[j].1 != []
    {
      RefusedNext(lib, chain, blocks, i, errors);
      KeptNext(lib, [], blocks[..i], blocks[i]);
      assert blocks[..i + 1] == blocks[..i] + [blocks[i]];
      var errs := ValidateBlock(lib, blocks[i], Prev(chain, |chain|), false);
      if errs == [] {
        ValidSnoc(lib, chain, blocks[i]);
        chain := chain + [blocks[i]];
        accepted := accepted + 1;
      } else {
        rejected := rejected + 1;
        ExplainsAt(lib, blocks, i, chain, errs);
        errors := errors + [(blocks[i].index, errs)];
        passed := passed + [i];
      }
    }
    NothingLeft(lib, chain);
    assert blocks[..|blocks|] == blocks && blocks[|blocks|..] == [] && Indices(errors) + [] == Indices(errors);
    kept := chain;
    var snapshot := TakeSnapshot(lib, chain);
    report := Report(accepted, rejected, errors, snapshot);
  }

  lemma {:induction false} KeptIsSubsequence(lib: Library, chain: seq<Block>, blocks: seq<Block>)
    ensures chain <= Kept(lib, chain, blocks)
    ensures Subsequence(Kept(lib, chain, blocks)[|chain|..], blocks)
    decreases |blocks|
  {
    hide ValidBlock;
    var kept := Kept(lib, chain, blocks);
    if |blocks| > 0 {
      if ValidBlock(lib, blocks[0], Prev(chain, |chain|), false) {
        KeptIsSubsequence(lib, chain + [blocks[0]], blocks[1..]);
        assert kept[|chain|] == blocks[0];
        assert kept[|chain|..][1..] == kept[|chain| + 1..];
      } else {
        KeptIsSubsequence(lib, chain, blocks[1..]);
        SkipFirst(kept[|chain|..], blocks);
      }
    }
  }

  lemma {:induction false} SkipFirst(kept: seq<Block>, blocks: seq<Block>)
    requires |blocks| > 0 && Subsequence(kept, blocks[1..])
    ensures Subsequence(kept, blocks)
    decreases |blocks|, 0
  {
    if |kept| > 0 && kept[0] == blocks[0] {
      DropFirst(kept, blocks[1..]);
    }
  }

  lemma {:induction false} DropFirst(kept: seq<Block>, blocks: seq<Block>)
    requires |kept| > 0 && Subsequence(kept, blocks)
    ensures Subsequence(kept[1..], blocks)
    decreases |blocks|, 1
  {
    if kept[0] == blocks[0] {
      SkipFirst(kept[1..], blocks);
    } else {
      DropFirst(kept, blocks[1..]);
      SkipFirst(kept[1..], blocks);
    }
  }

  /** Replaying a valid chain keeps all of it. */
  lemma {:induction false} ValidChainIsKept(lib: Library, chain: seq<Block>, blocks: seq<Block>)
    requires ValidChain(lib, chain + blocks)
    ensures Kept(lib, chain, blocks) == chain + blocks
    decreases |blocks|
  {
    hide ValidBlock;
    if |blocks| > 0 {
      var n := |chain|;
      assert (chain + blocks)[n] == blocks[0] && Prev(chain + blocks, n) == Prev(chain, n);
      assert chain + blocks == chain + [blocks[0]] + blocks[1..];
      ValidChainIsKept(lib, chain + [blocks[0]], blocks[1..]);
    } else {
      assert chain + blocks == chain;
    }
  }

  lemma {:induction false} KeptIsValid(lib: Library, chain: seq<Block>, blocks: seq<Block>)
    requires ValidChain(lib, chain)
    ensures ValidChain(lib, Kept(lib, chain, blocks))
    decreases |blocks|
  {
    hide ValidBlock, ValidChain;
    if |blocks| > 0 {
      if ValidBlock(lib, blocks[0], Prev(chain, |chain|), false) {
        ValidSnoc(lib, chain, blocks[0]);
        KeptIsValid(lib, chain + [blocks[0]], blocks[1..]);
      } else {
        KeptIsValid(lib, chain, blocks[1..]);
      }
    }
  }

  /** Replaying what a replay accepted accepts everything again and gives the same snapshot. */
  lemma ReplayIsIdempotent(lib: Library, blocks: seq<Block>)
    ensures var kept := Kept(lib, [], blocks);
      Kept(lib, [], kept) == kept && SnapshotOf(lib, Kept(lib, [], kept)) == SnapshotOf(lib, kept)
  {
    var kept := Kept(lib, [], blocks);
    KeptIsValid(lib, [], blocks);
    hide ValidChain;
    assert [] + kept == kept;
    ValidChainIsKept(lib, [], kept);
  }

  /** Valid chains with one last hash have one snapshot. */
  lemma SnapshotFollowsLastHash(lib: Library, a: seq<Block>, b: seq<Block>)
    requires IdealHash(lib) && ValidChain(lib, a) && ValidChain(lib, b) && |a| > 0 && |b| > 0
    ensures SnapshotOf(lib, a).lastHash == SnapshotOf(lib, b).lastHash <==> SnapshotOf(lib, a) == SnapshotOf(lib, b)
  {
    hide ValidChain;
    if SnapshotOf(lib, a).lastHash == SnapshotOf(lib, b).lastHash {
      StoredHashNotBlank(lib, a, |a| - 1);
      StoredHashNotBlank(lib, b, |b| - 1);
      LastHashFixesHistory(lib, a, b);
      SameTexts(lib, a, b);
    }
  }

  lemma StoredHashNotBlank(lib: Library, blocks: seq<Block>, i: nat)
    requires IdealHash(lib) && ValidChain(lib, blocks) && i < |blocks|
    ensures HashText(lib, blocks[i]) == blocks[i].hash
  {
    StoredHashIsPayload(lib, blocks, i);
  }

  lemma {:induction false} SameTexts(lib: Library, a: seq<Block>, b: seq<Block>)
    requires SameHistory(a, b)
    ensures HashTexts(lib, a) == HashTexts(lib, b)
    decreases |a|
  {
    if |a| > 0 {
      SameTexts(lib, a[..|a| - 1], b[..|b| - 1]);
    }
  }
}
