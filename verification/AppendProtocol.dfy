/**
  Several processes appending to one chain directory.  Each action on the file
  system is one atomic step, steps of different processes interleave freely, a
  process may die between any two of its steps, and a power loss may empty any
  number of the last files.  A stale lock file is removed only when its owner is
  no longer running.
*/
module AppendProtocol {
  import opened Basics
  import opened BlockFiles
  import opened Json

  type Pid = nat

  const LOCK_ATTEMPTS: nat := 200

  /** Where a process stands. */
  datatype Stage =
    | Idle
    | Trying(data: Json, attempts: nat)
    | Entered(data: Json)
    | Pruning(data: Json, todo: seq<nat>)
    | Pruned(data: Json)
    | Reading(data: Json, todo: seq<nat>, got: seq<Block>)
    | Ready(block: Block)
    | Staged(block: Block)
    | Stored(block: Block)
    | Failing

  /** Between creating the lock file and removing it. */
  predicate InSection(st: Stage) { !st.Idle? && !st.Trying? }

  datatype Receipt = Receipt(index: nat, hash: string)

  datatype TempFile = TempFile(pid: Pid, block: Block)

  datatype System = System(
    dir: Dir, temps: set<TempFile>, lock: Option<Pid>, stages: map<Pid, Stage>,
    receipts: seq<Receipt>)          // history: the appends that returned and whose file a power loss has not emptied

  function StageOf(s: System, p: Pid): Stage { if p in s.stages then s.stages[p] else Idle }

  function Move(s: System, p: Pid, st: Stage): System { s.(stages := s.stages[p := st]) }

  datatype Event =
    | Begin(p: Pid, data: Json)
    | TryLock(p: Pid)
    | ListForPrune(p: Pid, listing: seq<nat>)
    | PruneOne(p: Pid)
    | ListForRead(p: Pid, listing: seq<nat>)
    | ReadOne(p: Pid)
    | Validate(p: Pid, chain: string, timestamp: string)
    | WriteTemp(p: Pid)
    | Rename(p: Pid)
    | Fail(p: Pid)
    | Unlock(p: Pid)
    | Crash(p: Pid)
    | ClearStaleLock
    | PowerLoss(survive: nat)

  predicate Ascending(listing: seq<nat>) {
    forall i, j :: 0 <= i < j < |listing| ==> listing[i] < listing[j]
  }

  ghost predicate ListsDir(dir: Dir, listing: seq<nat>) {
    forall n :: n in listing <==> n in dir
  }

  function NextBlock(lib: Library, blocks: seq<Block>, data: Json, chain: string, timestamp: string): Block {
    var bare := Block(if |blocks| == 0 then 1 else blocks[|blocks| - 1].index + 1, timestamp, chain, data,
                      if |blocks| == 0 then GENESIS_PREV_HASH else blocks[|blocks| - 1].hash, "");
    bare.(hash := HashBlock(lib, bare))
  }

  ghost predicate Enabled(lib: Library, s: System, ev: Event) {
    match ev
    case Begin(p, _) => StageOf(s, p).Idle?
    case TryLock(p) => StageOf(s, p).Trying?
    case ListForPrune(p, listing) => StageOf(s, p).Entered? && Descending(listing) && ListsDir(s.dir, listing)
    case PruneOne(p) => StageOf(s, p).Pruning?
    case ListForRead(p, listing) => StageOf(s, p).Pruned? && Ascending(listing) && ListsDir(s.dir, listing)
    case ReadOne(p) => StageOf(s, p).Reading? && |StageOf(s, p).todo| > 0
    case Validate(p, _, _) => StageOf(s, p).Reading? && |StageOf(s, p).todo| == 0
    case WriteTemp(p) => StageOf(s, p).Ready?
    case Rename(p) => StageOf(s, p).Staged?
    case Fail(p) => InSection(StageOf(s, p)) && !StageOf(s, p).Stored?
    case Unlock(p) => StageOf(s, p).Stored? || StageOf(s, p).Failing?
    case Crash(p) => true
    case ClearStaleLock => s.lock.Some? && !InSection(StageOf(s, s.lock.value))
    case PowerLoss(_) => true
  }

  function Step(lib: Library, s: System, ev: Event): System
    requires Enabled(lib, s, ev)
  {
    match ev
    case Begin(p, data) => Move(s, p, Trying(data, 0))
    case TryLock(p) =>
      var st := StageOf(s, p);
      if s.lock.None? then Move(s, p, Entered(st.data)).(lock := Some(p))
      else if st.attempts + 1 < LOCK_ATTEMPTS then Move(s, p, Trying(st.data, st.attempts + 1))
      else Move(s, p, Idle)
    case ListForPrune(p, listing) => Move(s, p, Pruning(StageOf(s, p).data, listing))
    case PruneOne(p) =>
      var st := StageOf(s, p);
      if |st.todo| == 0 then Move(s, p, Pruned(st.data))
      else if st.todo[0] !in s.dir then Move(s, p, Pruning(st.data, st.todo[1..]))
      else if s.dir[st.todo[0]].Some? then Move(s, p, Pruned(st.data))
      else Move(s, p, Pruning(st.data, st.todo[1..])).(dir := s.dir - {st.todo[0]})
    case ListForRead(p, listing) => Move(s, p, Reading(StageOf(s, p).data, listing, []))
    case ReadOne(p) =>
      var st := StageOf(s, p);
      if st.todo[0] in s.dir && s.dir[st.todo[0]].Some?
      then Move(s, p, Reading(st.data, st.todo[1..], st.got + [s.dir[st.todo[0]].value]))
      else Move(s, p, Failing)
    case Validate(p, chain, timestamp) =>
      var st := StageOf(s, p);
      if ChainOk(lib, st.got) then Move(s, p, Ready(NextBlock(lib, st.got, st.data, chain, timestamp)))
      else Move(s, p, Failing)
    case WriteTemp(p) =>
      var st := StageOf(s, p);
      Move(s, p, Staged(st.block)).(temps := s.temps + {TempFile(p, st.block)})
    case Rename(p) =>
      var st := StageOf(s, p);
      Move(s, p, Stored(st.block)).(dir := s.dir[st.block.index := Some(st.block)],
                                    temps := s.temps - {TempFile(p, st.block)})
    case Fail(p) => Move(s, p, Failing)
    case Unlock(p) =>
      var st := StageOf(s, p);
      var out := Move(s, p, Idle).(lock := None);
      if st.Stored? then out.(receipts := s.receipts + [Receipt(st.block.index, st.block.hash)]) else out
    case Crash(p) => Move(s, p, Idle)
    case ClearStaleLock => s.(lock := None)
    case PowerLoss(survive) =>
      s.(dir := map n | n in s.dir :: if n <= survive then s.dir[n] else None,
         stages := map[],
         receipts := UpTo(s.receipts, survive))
  }

  function UpTo(receipts: seq<Receipt>, n: nat): seq<Receipt> {
    if |receipts| == 0 then []
    else UpTo(receipts[..|receipts| - 1], n)
         + (if receipts[|receipts| - 1].index <= n then [receipts[|receipts| - 1]] else [])
  }

  // ---------- The invariant ----------

  /** The files 1..m hold a chain that validates; the files after them, if any, are empty. */
  ghost predicate DirOk(lib: Library, dir: Dir, chain: seq<Block>, total: nat) {
    && |chain| <= total && ChainOk(lib, chain)
    && (forall n :: n in dir <==> 1 <= n <= total)
    && (forall n :: n in dir ==> dir[n] == if n <= |chain| then Some(chain[n - 1]) else None)
  }

  /** The numbers from n down to 1. */
  function DownFrom(n: nat): seq<nat> { seq(n, i requires 0 <= i < n => n - i) }

  /** The numbers from a to b. */
  function Between(a: nat, b: nat): seq<nat>
    requires a <= b + 1
  {
    seq(b + 1 - a, i requires 0 <= i < b + 1 - a => a + i)
  }

  /** What a process in the locked section knows of the directory. */
  predicate StageOk(lib: Library, st: Stage, chain: seq<Block>, total: nat) {
    match st
    case Pruning(_, todo) => todo == DownFrom(total)
    case Pruned(_) => total == |chain|
    case Reading(_, todo, got) =>
      total == |chain| && |got| <= |chain| && got == chain[..|got|] && todo == Between(|got| + 1, |chain|)
    case Ready(block) => total == |chain| && Follows(lib, block, Last(chain))
    case Staged(block) => total == |chain| && Follows(lib, block, Last(chain))
    case Stored(block) => total == |chain| && |chain| > 0 && chain[|chain| - 1] == block
    case _ => true
  }

  /** Receipts are for different files, in increasing order, and each names the block its file still holds. */
  predicate ReceiptsOk(receipts: seq<Receipt>, chain: seq<Block>) {
    && (forall i, j :: 0 <= i < j < |receipts| ==> receipts[i].index < receipts[j].index)
    && forall i :: 0 <= i < |receipts| ==>
         1 <= receipts[i].index <= |chain| && chain[receipts[i].index - 1].hash == receipts[i].hash
  }

  /** A block that is stored but not yet acknowledged is newer than every receipt. */
  predicate Unacknowledged(st: Stage, receipts: seq<Receipt>) {
    st.Stored? ==> forall i :: 0 <= i < |receipts| ==> receipts[i].index < st.block.index
  }

  ghost predicate SectionOk(lib: Library, s: System, chain: seq<Block>, total: nat) {
    forall p :: p in s.stages && InSection(s.stages[p]) ==>
      s.lock == Some(p) && StageOk(lib, s.stages[p], chain, total) && Unacknowledged(s.stages[p], s.receipts)
  }

  ghost predicate Inv(lib: Library, s: System, chain: seq<Block>, total: nat) {
    DirOk(lib, s.dir, chain, total) && SectionOk(lib, s, chain, total) && ReceiptsOk(s.receipts, chain)
  }

  lemma StageInv(lib: Library, s: System, chain: seq<Block>, total: nat, p: Pid)
    requires Inv(lib, s, chain, total) && InSection(StageOf(s, p))
    ensures s.lock == Some(p) && StageOk(lib, StageOf(s, p), chain, total)
    ensures Unacknowledged(StageOf(s, p), s.receipts)
    ensures forall q :: q != p ==> !InSection(StageOf(s, q))
  {
    hide StageOk, DirOk, ReceiptsOk, Unacknowledged;
  }

  /** A process moves on inside the section, possibly changing the directory: nobody else is inside. */
  lemma InsideKeeps(lib: Library, s: System, s': System, chain: seq<Block>, total: nat, p: Pid,
                    st: Stage, chain': seq<Block>, total': nat)
    requires Inv(lib, s, chain, total) && InSection(StageOf(s, p))
    requires s'.stages == s.stages[p := st] && s'.lock == s.lock && s'.receipts == s.receipts
    requires DirOk(lib, s'.dir, chain', total') && StageOk(lib, st, chain', total')
    requires Unacknowledged(st, s.receipts) && chain <= chain'
    ensures Inv(lib, s', chain', total')
  {
    hide StageOk, DirOk, ReceiptsOk, Unacknowledged, InSection;
    StageInv(lib, s, chain, total, p);
    ReceiptsStay(s.receipts, chain, chain');
    assert forall q :: q in s'.stages && q != p ==> StageOf(s, q) == s'.stages[q];
    assert s'.stages[p] == st;
  }

  lemma ReceiptsStay(receipts: seq<Receipt>, chain: seq<Block>, chain': seq<Block>)
    requires ReceiptsOk(receipts, chain) && chain <= chain'
    ensures ReceiptsOk(receipts, chain')
  {}

  /** A process moves outside the section. */
  lemma OutsideKeeps(lib: Library, s: System, chain: seq<Block>, total: nat, p: Pid, st: Stage)
    requires Inv(lib, s, chain, total) && !InSection(st)
    ensures Inv(lib, Move(s, p, st), chain, total)
  {
    hide StageOk, DirOk, ReceiptsOk, Unacknowledged;
  }

  lemma EnterKeeps(lib: Library, s: System, chain: seq<Block>, total: nat, p: Pid, data: Json)
    requires Inv(lib, s, chain, total) && s.lock.None?
    ensures Inv(lib, Move(s, p, Entered(data)).(lock := Some(p)), chain, total)
  {
    hide DirOk, ReceiptsOk;
  }

  // ---------- Listings ----------

  lemma {:induction false} DescendingIsDown(listing: seq<nat>, n: nat)
    requires Descending(listing) && forall m :: m in listing <==> 1 <= m <= n
    ensures listing == DownFrom(n)
    decreases n
  {
    assert |listing| > 0 ==> listing[0] in listing;
    if n > 0 {
      assert n in listing;
      assert listing[0] in listing;
      assert listing[0] == n;
      var rest := listing[1..];
      forall m
        ensures m in rest <==> 1 <= m <= n - 1
      {
        assert listing == [n] + rest;
        if m in rest {
          var i :| 0 <= i < |rest| && rest[i] == m;
          assert listing[0] > listing[i + 1] == m && m in listing;
        }
        if m in listing && m != n { assert m in rest; }
      }
      DescendingIsDown(rest, n - 1);
      assert listing == [n] + DownFrom(n - 1);
    }
  }

  lemma {:induction false} AscendingIsBetween(listing: seq<nat>, a: nat, n: nat)
    requires a <= n + 1 && Ascending(listing) && forall m :: m in listing <==> a <= m <= n
    ensures listing == Between(a, n)
    decreases n + 1 - a
  {
    assert |listing| > 0 ==> listing[0] in listing;
    if a <= n {
      assert a in listing;
      assert listing[0] in listing;
      assert listing[0] == a;
      var rest := listing[1..];
      forall m
        ensures m in rest <==> a + 1 <= m <= n
      {
        assert listing == [a] + rest;
        if m in rest {
          var i :| 0 <= i < |rest| && rest[i] == m;
          assert listing[0] < listing[i + 1] == m && m in listing;
        }
        if m in listing && m != a { assert m in rest; }
      }
      AscendingIsBetween(rest, a + 1, n);
      assert listing == [a] + Between(a + 1, n);
    }
  }

  // ---------- Each step ----------

  lemma PruneKeeps(lib: Library, s: System, chain: seq<Block>, total: nat, p: Pid) returns (total': nat)
    requires Inv(lib, s, chain, total) && Enabled(lib, s, PruneOne(p))
    ensures Inv(lib, Step(lib, s, PruneOne(p)), chain, total')
  {
    StageInv(lib, s, chain, total, p);
    var st := StageOf(s, p);
    var s' := Step(lib, s, PruneOne(p));
    total' := total;
    if |st.todo| == 0 {
      assert total == 0;
      InsideKeeps(lib, s, s', chain, total, p, Pruned(st.data), chain, total);
    } else {
      assert st.todo[0] == total && total in s.dir;
      if s.dir[total].Some? {
        assert total <= |chain|;
        InsideKeeps(lib, s, s', chain, total, p, Pruned(st.data), chain, total);
      } else {
        total' := total - 1;
        assert st.todo[1..] == DownFrom(total - 1);
        assert DirOk(lib, s.dir - {total}, chain, total - 1);
        InsideKeeps(lib, s, s', chain, total, p, Pruning(st.data, st.todo[1..]), chain, total - 1);
      }
    }
  }

  lemma ReadStage(lib: Library, dir: Dir, st: Stage, chain: seq<Block>, total: nat)
    requires DirOk(lib, dir, chain, total) && StageOk(lib, st, chain, total) && st.Reading? && |st.todo| > 0
    ensures st.todo[0] in dir && dir[st.todo[0]].Some?
    ensures StageOk(lib, Reading(st.data, st.todo[1..], st.got + [dir[st.todo[0]].value]), chain, total)
  {
    hide ChainOk;
    var n := |st.got| + 1;
    assert st.todo[0] == n && n in dir && dir[n] == Some(chain[n - 1]);
    assert st.todo[1..] == Between(n + 1, |chain|);
    assert st.got + [chain[n - 1]] == chain[..n];
  }

  /** Inside the section no read fails. */
  lemma ReadKeeps(lib: Library, s: System, chain: seq<Block>, total: nat, p: Pid)
    requires Inv(lib, s, chain, total) && Enabled(lib, s, ReadOne(p))
    ensures Inv(lib, Step(lib, s, ReadOne(p)), chain, total) && StageOf(Step(lib, s, ReadOne(p)), p).Reading?
  {
    hide DirOk, StageOk, SectionOk, ReceiptsOk;
    StageInv(lib, s, chain, total, p);
    var st := StageOf(s, p);
    ReadStage(lib, s.dir, st, chain, total);
    var st' := Reading(st.data, st.todo[1..], st.got + [s.dir[st.todo[0]].value]);
    InsideKeeps(lib, s, Step(lib, s, ReadOne(p)), chain, total, p, st', chain, total);
  }

  lemma NextFollows(lib: Library, blocks: seq<Block>, data: Json, chain: string, timestamp: string)
    requires ChainOk(lib, blocks)
    ensures Follows(lib, NextBlock(lib, blocks, data, chain, timestamp), Last(blocks))
    ensures NextBlock(lib, blocks, data, chain, timestamp).index == |blocks| + 1
  {
    if |blocks| > 0 { ChainIndices(lib, blocks, |blocks| - 1); }
    HashIgnoresHash(lib, blocks, data, chain, timestamp);
  }

  lemma HashIgnoresHash(lib: Library, blocks: seq<Block>, data: Json, chain: string, timestamp: string)
    ensures var b := NextBlock(lib, blocks, data, chain, timestamp); b.hash == HashBlock(lib, b)
  {
    var b := NextBlock(lib, blocks, data, chain, timestamp);
    assert HashedValue(b) == HashedValue(b.(hash := ""));
  }

  /** Validation inside the section always succeeds. */
  lemma AllRead(lib: Library, st: Stage, chain: seq<Block>, total: nat)
    requires StageOk(lib, st, chain, total) && st.Reading? && |st.todo| == 0
    ensures st.got == chain && total == |chain|
  {}

  lemma ValidateKeeps(lib: Library, s: System, chain: seq<Block>, total: nat, p: Pid, name: string, timestamp: string)
    requires Inv(lib, s, chain, total) && Enabled(lib, s, Validate(p, name, timestamp))
    ensures Inv(lib, Step(lib, s, Validate(p, name, timestamp)), chain, total)
    ensures StageOf(Step(lib, s, Validate(p, name, timestamp)), p).Ready?
  {
    hide SectionOk, ReceiptsOk, ChainOk, Follows, NextBlock;
    StageInv(lib, s, chain, total, p);
    var st := StageOf(s, p);
    AllRead(lib, st, chain, total);
    NextFollows(lib, chain, st.data, name, timestamp);
    InsideKeeps(lib, s, Step(lib, s, Validate(p, name, timestamp)), chain, total, p,
                Ready(NextBlock(lib, chain, st.data, name, timestamp)), chain, total);
  }

  lemma RenameDir(lib: Library, dir: Dir, chain: seq<Block>, block: Block)
    requires DirOk(lib, dir, chain, |chain|) && Follows(lib, block, Last(chain))
    ensures DirOk(lib, dir[block.index := Some(block)], chain + [block], |chain| + 1)
    ensures block.index == |chain| + 1
  {
    hide ChainOk, Follows, Last;
    ChainSnoc(lib, chain, block);
    ChainIndices(lib, chain + [block], |chain|);
  }

  lemma ReceiptsBelow(receipts: seq<Receipt>, chain: seq<Block>, n: nat)
    requires ReceiptsOk(receipts, chain) && n > |chain|
    ensures forall i :: 0 <= i < |receipts| ==> receipts[i].index < n
  {}

  lemma RenameKeeps(lib: Library, s: System, chain: seq<Block>, total: nat, p: Pid)
    requires Inv(lib, s, chain, total) && Enabled(lib, s, Rename(p))
    ensures Inv(lib, Step(lib, s, Rename(p)), chain + [StageOf(s, p).block], total + 1)
  {
    hide DirOk, SectionOk, ReceiptsOk, Follows, Last;
    StageInv(lib, s, chain, total, p);
    var block := StageOf(s, p).block;
    RenameDir(lib, s.dir, chain, block);
    ReceiptsBelow(s.receipts, chain, block.index);
    InsideKeeps(lib, s, Step(lib, s, Rename(p)), chain, total, p, Stored(block), chain + [block], total + 1);
  }

  lemma ReceiptAdded(receipts: seq<Receipt>, chain: seq<Block>, block: Block)
    requires ReceiptsOk(receipts, chain) && |chain| > 0 && chain[|chain| - 1] == block && block.index == |chain|
    requires forall i :: 0 <= i < |receipts| ==> receipts[i].index < block.index
    ensures ReceiptsOk(receipts + [Receipt(block.index, block.hash)], chain)
  {}

  lemma LeaveKeeps(lib: Library, s: System, chain: seq<Block>, total: nat, p: Pid, receipts: seq<Receipt>)
    requires Inv(lib, s, chain, total) && InSection(StageOf(s, p)) && ReceiptsOk(receipts, chain)
    ensures Inv(lib, Move(s, p, Idle).(lock := None, receipts := receipts), chain, total)
  {
    StageInv(lib, s, chain, total, p);
    hide DirOk, ReceiptsOk, StageOk, Unacknowledged;
    assert forall q :: q in s.stages ==> StageOf(s, q) == s.stages[q];
  }

  lemma UnlockKeeps(lib: Library, s: System, chain: seq<Block>, total: nat, p: Pid)
    requires Inv(lib, s, chain, total) && Enabled(lib, s, Unlock(p))
    ensures Inv(lib, Step(lib, s, Unlock(p)), chain, total)
  {
    hide SectionOk, ReceiptsOk, ChainOk;
    StageInv(lib, s, chain, total, p);
    var st := StageOf(s, p);
    if st.Stored? {
      ChainIndices(lib, chain, |chain| - 1);
      hide DirOk;
      ReceiptAdded(s.receipts, chain, st.block);
      LeaveKeeps(lib, s, chain, total, p, s.receipts + [Receipt(st.block.index, st.block.hash)]);
    } else {
      hide DirOk;
      LeaveKeeps(lib, s, chain, total, p, s.receipts);
    }
  }

  lemma {:induction false} UpToMembers(receipts: seq<Receipt>, n: nat)
    ensures forall r :: r in UpTo(receipts, n) <==> r in receipts && r.index <= n
    decreases |receipts|
  {
    if |receipts| > 0 {
      assert receipts == receipts[..|receipts| - 1] + [receipts[|receipts| - 1]];
      UpToMembers(receipts[..|receipts| - 1], n);
    }
  }

  predicate Increasing(receipts: seq<Receipt>) {
    forall i, j :: 0 <= i < j < |receipts| ==> receipts[i].index < receipts[j].index
  }

  lemma {:induction false} UpToIncreasing(receipts: seq<Receipt>, n: nat)
    requires Increasing(receipts)
    ensures Increasing(UpTo(receipts, n))
    decreases |receipts|
  {
    if |receipts| > 0 {
      var init, last := receipts[..|receipts| - 1], receipts[|receipts| - 1];
      UpToIncreasing(init, n);
      UpToMembers(init, n);
      var kept := UpTo(init, n);
      forall i | 0 <= i < |kept|
        ensures kept[i].index < last.index
      {
        assert kept[i] in init;
        var j :| 0 <= j < |init| && init[j] == kept[i];
        assert receipts[j] == kept[i];
      }
    }
  }

  lemma UpToKeeps(receipts: seq<Receipt>, chain: seq<Block>, n: nat)
    requires ReceiptsOk(receipts, chain)
    ensures ReceiptsOk(UpTo(receipts, n), chain[..if n < |chain| then n else |chain|])
  {
    UpToIncreasing(receipts, n);
    UpToMembers(receipts, n);
    var kept := UpTo(receipts, n);
    forall i | 0 <= i < |kept|
      ensures 1 <= kept[i].index <= |chain| && kept[i].index <= n && chain[kept[i].index - 1].hash == kept[i].hash
    {
      assert kept[i] in receipts;
    }
  }

  lemma EmptiedDir(lib: Library, dir: Dir, chain: seq<Block>, total: nat, survive: nat)
    requires DirOk(lib, dir, chain, total)
    ensures DirOk(lib, map n | n in dir :: if n <= survive then dir[n] else None,
                  chain[..if survive < |chain| then survive else |chain|], total)
  {
    ChainPrefix(lib, chain, if survive < |chain| then survive else |chain|);
    hide ChainOk;
  }

  lemma PowerLossKeeps(lib: Library, s: System, chain: seq<Block>, total: nat, survive: nat)
    requires Inv(lib, s, chain, total)
    ensures Inv(lib, Step(lib, s, PowerLoss(survive)), chain[..if survive < |chain| then survive else |chain|], total)
  {
    hide DirOk, ReceiptsOk, UpTo, StageOk, Unacknowledged;
    EmptiedDir(lib, s.dir, chain, total, survive);
    UpToKeeps(s.receipts, chain, survive);
    assert Step(lib, s, PowerLoss(survive)).stages == map[];
  }

  lemma ListForReadKeeps(lib: Library, s: System, chain: seq<Block>, total: nat, p: Pid, listing: seq<nat>)
    requires Inv(lib, s, chain, total) && Enabled(lib, s, ListForRead(p, listing))
    ensures Inv(lib, Step(lib, s, ListForRead(p, listing)), chain, total)
  {
    StageInv(lib, s, chain, total, p);
    AscendingIsBetween(listing, 1, total);
    hide DirOk, SectionOk, ReceiptsOk;
    InsideKeeps(lib, s, Step(lib, s, ListForRead(p, listing)), chain, total, p,
                Reading(StageOf(s, p).data, listing, []), chain, total);
  }

  lemma ListForPruneKeeps(lib: Library, s: System, chain: seq<Block>, total: nat, p: Pid, listing: seq<nat>)
    requires Inv(lib, s, chain, total) && Enabled(lib, s, ListForPrune(p, listing))
    ensures Inv(lib, Step(lib, s, ListForPrune(p, listing)), chain, total)
  {
    DescendingIsDown(listing, total);
    hide DirOk, SectionOk, ReceiptsOk;
    InsideKeeps(lib, s, Step(lib, s, ListForPrune(p, listing)), chain, total, p,
                Pruning(StageOf(s, p).data, listing), chain, total);
  }

  lemma WriteTempKeeps(lib: Library, s: System, chain: seq<Block>, total: nat, p: Pid)
    requires Inv(lib, s, chain, total) && Enabled(lib, s, WriteTemp(p))
    ensures Inv(lib, Step(lib, s, WriteTemp(p)), chain, total)
  {
    StageInv(lib, s, chain, total, p);
    hide DirOk, SectionOk, ReceiptsOk;
    InsideKeeps(lib, s, Step(lib, s, WriteTemp(p)), chain, total, p, Staged(StageOf(s, p).block), chain, total);
  }

  lemma StepKeeps(lib: Library, s: System, ev: Event, chain: seq<Block>, total: nat)
    returns (chain': seq<Block>, total': nat)
    requires Inv(lib, s, chain, total) && Enabled(lib, s, ev)
    ensures Inv(lib, Step(lib, s, ev), chain', total')
    ensures !ev.PowerLoss? ==> chain <= chain'
  {
    hide DirOk, SectionOk, ReceiptsOk, ChainOk, NextBlock;
    chain', total' := chain, total;
    match ev {
      case Begin(p, data) => OutsideKeeps(lib, s, chain, total, p, Trying(data, 0));
      case TryLock(p) =>
        if s.lock.None? { EnterKeeps(lib, s, chain, total, p, StageOf(s, p).data); }
        else {
          OutsideKeeps(lib, s, chain, total, p, Trying(StageOf(s, p).data, StageOf(s, p).attempts + 1));
          OutsideKeeps(lib, s, chain, total, p, Idle);
        }
      case ListForPrune(p, listing) =>
        ListForPruneKeeps(lib, s, chain, total, p, listing);
      case PruneOne(p) => total' := PruneKeeps(lib, s, chain, total, p);
      case ListForRead(p, listing) =>
        ListForReadKeeps(lib, s, chain, total, p, listing);
      case ReadOne(p) => ReadKeeps(lib, s, chain, total, p);
      case Validate(p, name, timestamp) => ValidateKeeps(lib, s, chain, total, p, name, timestamp);
      case WriteTemp(p) =>
        WriteTempKeeps(lib, s, chain, total, p);
      case Rename(p) =>
        chain', total' := chain + [StageOf(s, p).block], total + 1;
        RenameKeeps(lib, s, chain, total, p);
      case Fail(p) => InsideKeeps(lib, s, Step(lib, s, ev), chain, total, p, Failing, chain, total);
      case Unlock(p) => UnlockKeeps(lib, s, chain, total, p);
      case Crash(p) => OutsideKeeps(lib, s, chain, total, p, Idle);
      case ClearStaleLock => ClearKeeps(lib, s, chain, total);
      case PowerLoss(survive) =>
        chain' := chain[..if survive < |chain| then survive else |chain|];
        PowerLossKeeps(lib, s, chain, total, survive);
    }
  }

  lemma ClearKeeps(lib: Library, s: System, chain: seq<Block>, total: nat)
    requires Inv(lib, s, chain, total) && s.lock.Some? && !InSection(StageOf(s, s.lock.value))
    ensures Inv(lib, s.(lock := None), chain, total)
  {
    hide DirOk, StageOk, ReceiptsOk, Unacknowledged;
  }

  // ---------- Whole runs ----------

  ghost predicate RunEnabled(lib: Library, s: System, run: seq<Event>)
    decreases |run|
  {
    |run| == 0 || (Enabled(lib, s, run[0]) && RunEnabled(lib, Step(lib, s, run[0]), run[1..]))
  }

  ghost function After(lib: Library, s: System, run: seq<Event>): System
    requires RunEnabled(lib, s, run)
    decreases |run|
  {
    if |run| == 0 then s else After(lib, Step(lib, s, run[0]), run[1..])
  }

  /** Any directory that holds a valid chain followed by empty files; nobody is running. */
  predicate Start(s: System) { s.lock.None? && s.stages == map[] && s.receipts == [] }

  predicate NoPowerLoss(run: seq<Event>) { forall i :: 0 <= i < |run| ==> !run[i].PowerLoss? }

  lemma {:induction false} RunKeeps(lib: Library, s: System, run: seq<Event>, chain: seq<Block>, total: nat)
    returns (chain': seq<Block>, total': nat)
    requires Inv(lib, s, chain, total) && RunEnabled(lib, s, run)
    ensures Inv(lib, After(lib, s, run), chain', total')
    ensures NoPowerLoss(run) ==> chain <= chain'
    decreases |run|
  {
    hide Inv, Step, Enabled;
    chain', total' := chain, total;
    if |run| > 0 {
      chain', total' := StepKeeps(lib, s, run[0], chain, total);
      chain', total' := RunKeeps(lib, Step(lib, s, run[0]), run[1..], chain', total');
    }
  }

  /**
    Under every interleaving, with processes dying anywhere and power losses: at most one process is in
    the locked section; the stored files are the blocks 1..m of a chain that validates, followed only by
    empty files; the appends that returned have distinct indices and name the blocks still stored
    under them; and without a power loss no block is ever lost or changed.
  */
  lemma SafeUnderEveryInterleaving(lib: Library, s: System, run: seq<Event>, chain: seq<Block>, total: nat)
    returns (chain': seq<Block>, total': nat)
    requires Start(s) && DirOk(lib, s.dir, chain, total) && RunEnabled(lib, s, run)
    ensures var t := After(lib, s, run);
      && DirOk(lib, t.dir, chain', total')
      && (forall p, q :: InSection(StageOf(t, p)) && InSection(StageOf(t, q)) ==> p == q)
      && ReceiptsOk(t.receipts, chain')
    ensures NoPowerLoss(run) ==> chain <= chain'
  {
    hide DirOk, Step, Enabled, StageOk, Unacknowledged;
    chain', total' := RunKeeps(lib, s, run, chain, total);
    var t := After(lib, s, run);
    forall p, q | InSection(StageOf(t, p)) && InSection(StageOf(t, q))
      ensures p == q
    {
      StageInv(lib, t, chain', total', p);
    }
  }

  /** Reading, in the locked section and after pruning, every file of such a directory is accepted. */
  lemma PrunedDirValidates(lib: Library, dir: Dir, chain: seq<Block>, files: seq<Option<Block>>)
    requires DirOk(lib, dir, chain, |chain|)
    requires |files| == |chain| && forall i :: 0 <= i < |files| ==> i + 1 in dir && files[i] == dir[i + 1]
    ensures NoneEmpty(files) && Contents(files) == chain && ChainOk(lib, Contents(files))
  {
    hide ChainOk;
    forall i | 0 <= i < |files|
      ensures files[i] == Some(chain[i])
    {
      assert i + 1 in dir;
    }
    assert Contents(files) == chain;
  }

  // ---------- Progress ----------

  /** A step of process p on its way through an append. */
  predicate Forward(p: Pid, ev: Event) {
    match ev
    case Begin(q, _) => q == p
    case TryLock(q) => q == p
    case ListForPrune(q, _) => q == p
    case PruneOne(q) => q == p
    case ListForRead(q, _) => q == p
    case ReadOne(q) => q == p
    case Validate(q, _, _) => q == p
    case WriteTemp(q) => q == p
    case Rename(q) => q == p
    case Unlock(q) => q == p
    case _ => false
  }

  /** The run consists of p's own steps, stores `block` as the next one, acknowledges it and frees the lock. */
  ghost predicate Appends(lib: Library, s: System, run: seq<Event>, p: Pid, n: nat, block: Block) {
    && RunEnabled(lib, s, run)
    && (forall i :: 0 <= i < |run| ==> Forward(p, run[i]))
    && var t := After(lib, s, run);
       && t.receipts == s.receipts + [Receipt(n, block.hash)] && t.lock.None?
       && n in t.dir && t.dir[n] == Some(block)
  }

  lemma FirstStep(lib: Library, s: System, ev: Event, rest: seq<Event>, p: Pid, n: nat, block: Block)
    requires Enabled(lib, s, ev) && Forward(p, ev) && Step(lib, s, ev).receipts == s.receipts
    requires Appends(lib, Step(lib, s, ev), rest, p, n, block)
    ensures Appends(lib, s, [ev] + rest, p, n, block)
  {
    hide Step, Enabled, Forward;
    var run := [ev] + rest;
    assert run[0] == ev && run[1..] == rest;
  }

  lemma StoredAppends(lib: Library, s: System, chain: seq<Block>, total: nat, p: Pid) returns (run: seq<Event>)
    requires Inv(lib, s, chain, total) && StageOf(s, p).Stored?
    ensures Appends(lib, s, run, p, |chain|, StageOf(s, p).block)
  {
    hide SectionOk, ReceiptsOk, ChainOk;
    StageInv(lib, s, chain, total, p);
    ChainIndices(lib, chain, |chain| - 1);
    run := [Unlock(p)];
    assert run[1..] == [];
    var t := Step(lib, s, Unlock(p));
    hide Inv;
    assert RunEnabled(lib, t, []) && After(lib, t, []) == t;
    assert RunEnabled(lib, s, run) && After(lib, s, run) == t;
    assert t.dir == s.dir && |chain| in s.dir by { LastInDir(lib, s, chain, total); }
    LastInDir(lib, s, chain, total);
  }

  lemma LastInDir(lib: Library, s: System, chain: seq<Block>, total: nat)
    requires Inv(lib, s, chain, total) && |chain| > 0
    ensures |chain| in s.dir && s.dir[|chain|] == Some(chain[|chain| - 1])
  {
    hide ChainOk, SectionOk, ReceiptsOk;
  }

  lemma ReadyAppends(lib: Library, s: System, chain: seq<Block>, total: nat, p: Pid) returns (run: seq<Event>)
    requires Inv(lib, s, chain, total) && StageOf(s, p).Ready?
    ensures Appends(lib, s, run, p, |chain| + 1, StageOf(s, p).block)
  {
    hide Inv, Appends, StageOk, Follows;
    var block := StageOf(s, p).block;
    var staged := Step(lib, s, WriteTemp(p));
    WriteTempKeeps(lib, s, chain, total, p);
    RenameKeeps(lib, staged, chain, total, p);
    var stored := Step(lib, staged, Rename(p));
    run := StoredAppends(lib, stored, chain + [block], total + 1, p);
    FirstStep(lib, staged, Rename(p), run, p, |chain| + 1, block);
    FirstStep(lib, s, WriteTemp(p), [Rename(p)] + run, p, |chain| + 1, block);
    run := [WriteTemp(p)] + ([Rename(p)] + run);
  }

  lemma ValidatedBlock(lib: Library, s: System, chain: seq<Block>, total: nat, p: Pid, name: string, timestamp: string)
    requires Inv(lib, s, chain, total) && Enabled(lib, s, Validate(p, name, timestamp))
    ensures StageOf(Step(lib, s, Validate(p, name, timestamp)), p)
         == Ready(NextBlock(lib, chain, StageOf(s, p).data, name, timestamp))
  {
    StageInv(lib, s, chain, total, p);
    hide NextBlock, ChainOk, SectionOk, ReceiptsOk;
    var st := StageOf(s, p);
    assert |st.got| == |chain| && st.got == chain;
  }

  lemma {:induction false} ReadingAppends(lib: Library, s: System, chain: seq<Block>, total: nat, p: Pid,
                                          name: string, timestamp: string) returns (run: seq<Event>)
    requires Inv(lib, s, chain, total) && StageOf(s, p).Reading?
    ensures Appends(lib, s, run, p, |chain| + 1, NextBlock(lib, chain, StageOf(s, p).data, name, timestamp))
    decreases |StageOf(s, p).todo|
  {
    hide Inv, Appends, StageOk, NextBlock, ChainOk;
    var block := NextBlock(lib, chain, StageOf(s, p).data, name, timestamp);
    if |StageOf(s, p).todo| == 0 {
      ValidateKeeps(lib, s, chain, total, p, name, timestamp);
      ValidatedBlock(lib, s, chain, total, p, name, timestamp);
      run := ReadyAppends(lib, Step(lib, s, Validate(p, name, timestamp)), chain, total, p);
      FirstStep(lib, s, Validate(p, name, timestamp), run, p, |chain| + 1, block);
      run := [Validate(p, name, timestamp)] + run;
    } else {
      ReadKeeps(lib, s, chain, total, p);
      run := ReadingAppends(lib, Step(lib, s, ReadOne(p)), chain, total, p, name, timestamp);
      FirstStep(lib, s, ReadOne(p), run, p, |chain| + 1, block);
      run := [ReadOne(p)] + run;
    }
  }

  lemma ListingUp(lib: Library, s: System, chain: seq<Block>, total: nat)
    requires Inv(lib, s, chain, total)
    ensures Ascending(Between(1, total)) && ListsDir(s.dir, Between(1, total))
    ensures Descending(DownFrom(total)) && ListsDir(s.dir, DownFrom(total))
  {
    hide ChainOk, SectionOk, ReceiptsOk;
    forall n
      ensures n in Between(1, total) <==> n in s.dir
      ensures n in DownFrom(total) <==> n in s.dir
    {
      if n in s.dir {
        assert Between(1, total)[n - 1] == n && DownFrom(total)[total - n] == n;
      }
    }
  }

  lemma PrunedAppends(lib: Library, s: System, chain: seq<Block>, total: nat, p: Pid,
                      name: string, timestamp: string) returns (run: seq<Event>)
    requires Inv(lib, s, chain, total) && StageOf(s, p).Pruned?
    ensures Appends(lib, s, run, p, |chain| + 1, NextBlock(lib, chain, StageOf(s, p).data, name, timestamp))
  {
    hide Inv, Appends, StageOk, NextBlock, ListsDir, Ascending, Between;
    ListingUp(lib, s, chain, total);
    var ev := ListForRead(p, Between(1, total));
    ListForReadKeeps(lib, s, chain, total, p, Between(1, total));
    run := ReadingAppends(lib, Step(lib, s, ev), chain, total, p, name, timestamp);
    FirstStep(lib, s, ev, run, p, |chain| + 1, NextBlock(lib, chain, StageOf(s, p).data, name, timestamp));
    run := [ev] + run;
  }

  lemma PruneShrinks(lib: Library, s: System, chain: seq<Block>, total: nat, p: Pid)
    requires Inv(lib, s, chain, total) && StageOf(s, p).Pruning?
    ensures var st, st' := StageOf(s, p), StageOf(Step(lib, s, PruneOne(p)), p);
      || st' == Pruned(st.data)
      || (st'.Pruning? && st'.data == st.data && |st'.todo| < |st.todo|)
    ensures Step(lib, s, PruneOne(p)).receipts == s.receipts
  {
    hide Inv;
  }

  lemma {:induction false} PruningAppends(lib: Library, s: System, chain: seq<Block>, total: nat, p: Pid,
                                          name: string, timestamp: string) returns (run: seq<Event>)
    requires Inv(lib, s, chain, total) && StageOf(s, p).Pruning?
    ensures Appends(lib, s, run, p, |chain| + 1, NextBlock(lib, chain, StageOf(s, p).data, name, timestamp))
    decreases |StageOf(s, p).todo|
  {
    hide Inv, Appends, StageOk, NextBlock;
    PruneShrinks(lib, s, chain, total, p);
    var total' := PruneKeeps(lib, s, chain, total, p);
    hide Step;
    var next := Step(lib, s, PruneOne(p));
    if StageOf(next, p).Pruned? {
      run := PrunedAppends(lib, next, chain, total', p, name, timestamp);
    } else {
      run := PruningAppends(lib, next, chain, total', p, name, timestamp);
    }
    FirstStep(lib, s, PruneOne(p), run, p, |chain| + 1, NextBlock(lib, chain, StageOf(s, p).data, name, timestamp));
    run := [PruneOne(p)] + run;
  }

  lemma NextBlockFields(lib: Library, chain: seq<Block>, data: Json, name: string, timestamp: string)
    requires ChainOk(lib, chain)
    ensures var b := NextBlock(lib, chain, data, name, timestamp);
      && b.index == |chain| + 1 && b.timestamp == timestamp && b.chain == name && b.data == data
      && b.prevHash == (if |chain| == 0 then GENESIS_PREV_HASH else chain[|chain| - 1].hash)
      && b.hash == HashBlock(lib, b)
  {
    NextFollows(lib, chain, data, name, timestamp);
    HashIgnoresHash(lib, chain, data, name, timestamp);
  }

  lemma InvChain(lib: Library, s: System, chain: seq<Block>, total: nat)
    requires Inv(lib, s, chain, total)
    ensures ChainOk(lib, chain)
  {
    hide SectionOk, ReceiptsOk;
  }

  /** A process that is in the section and left alone stores its data in the next block: numbered next, linked
      to the last block stored, hashed, and with the name and time of the call. */
  lemma EnteredAppends(lib: Library, s: System, chain: seq<Block>, total: nat, p: Pid,
                       name: string, timestamp: string) returns (run: seq<Event>, block: Block)
    requires Inv(lib, s, chain, total) && StageOf(s, p).Entered?
    ensures Appends(lib, s, run, p, |chain| + 1, block)
    ensures block.index == |chain| + 1 && block.timestamp == timestamp && block.chain == name
    ensures block.data == StageOf(s, p).data
    ensures block.prevHash == if |chain| == 0 then GENESIS_PREV_HASH else chain[|chain| - 1].hash
    ensures block.hash == HashBlock(lib, block)
  {
    hide Inv, Appends, StageOk, NextBlock, ListsDir, Descending, DownFrom, HashBlock, ChainOk;
    block := NextBlock(lib, chain, StageOf(s, p).data, name, timestamp);
    InvChain(lib, s, chain, total);
    NextBlockFields(lib, chain, StageOf(s, p).data, name, timestamp);
    ListingUp(lib, s, chain, total);
    var ev := ListForPrune(p, DownFrom(total));
    ListForPruneKeeps(lib, s, chain, total, p, DownFrom(total));
    run := PruningAppends(lib, Step(lib, s, ev), chain, total, p, name, timestamp);
    FirstStep(lib, s, ev, run, p, |chain| + 1, block);
    run := [ev] + run;
  }

  /**
    Whatever has happened before, an append that starts while the lock is free and is left alone succeeds:
    by its own steps the process stores the data of the call in the next block of the chain, is told its
    index and hash, and frees the lock.
  */
  lemma AppendSucceeds(lib: Library, s: System, chain: seq<Block>, total: nat, p: Pid, data: Json,
                       name: string, timestamp: string) returns (run: seq<Event>, block: Block)
    requires Inv(lib, s, chain, total) && StageOf(s, p).Idle? && s.lock.None?
    ensures Appends(lib, s, run, p, |chain| + 1, block)
    ensures block.index == |chain| + 1 && block.timestamp == timestamp && block.chain == name && block.data == data
    ensures block.prevHash == if |chain| == 0 then GENESIS_PREV_HASH else chain[|chain| - 1].hash
    ensures block.hash == HashBlock(lib, block)
  {
    hide Inv, Appends, StageOk, HashBlock;
    var a := Step(lib, s, Begin(p, data));
    OutsideKeeps(lib, s, chain, total, p, Trying(data, 0));
    var b := Step(lib, a, TryLock(p));
    EnterKeeps(lib, a, chain, total, p, data);
    run, block := EnteredAppends(lib, b, chain, total, p, name, timestamp);
    FirstStep(lib, a, TryLock(p), run, p, |chain| + 1, block);
    FirstStep(lib, s, Begin(p, data), [TryLock(p)] + run, p, |chain| + 1, block);
    run := [Begin(p, data)] + ([TryLock(p)] + run);
  }

  // ---------- The data of a call ----------

  /** The append in progress, if there is one, is of this data. */
  predicate Carries(st: Stage, data: Json) {
    match st
    case Idle => true
    case Failing => true
    case Ready(block) => block.data == data
    case Staged(block) => block.data == data
    case Stored(block) => block.data == data
    case _ => st.data == data
  }

  lemma StepCarries(lib: Library, s: System, ev: Event, p: Pid, data: Json)
    requires Enabled(lib, s, ev) && Carries(StageOf(s, p), data) && !(ev.Begin? && ev.p == p)
    ensures Carries(StageOf(Step(lib, s, ev), p), data)
    ensures ev == Rename(p) ==>
      var b := StageOf(s, p).block; b.data == data && b.index in Step(lib, s, ev).dir && Step(lib, s, ev).dir[b.index] == Some(b)
  {
    hide HashBlock, ChainOk, ListsDir, Descending, Ascending, UpTo;
  }

  /** Whatever other processes do meanwhile, an append stores the data it was called with. */
  lemma {:induction false} RunCarries(lib: Library, s: System, run: seq<Event>, p: Pid, data: Json)
    requires RunEnabled(lib, s, run) && Carries(StageOf(s, p), data)
    requires forall i :: 0 <= i < |run| ==> !(run[i].Begin? && run[i].p == p)
    ensures Carries(StageOf(After(lib, s, run), p), data)
    decreases |run|
  {
    hide Step, Enabled, Carries;
    if |run| > 0 {
      StepCarries(lib, s, run[0], p, data);
      RunCarries(lib, Step(lib, s, run[0]), run[1..], p, data);
    }
  }

  // ---------- Temporary files, stale locks and refusals ----------

  /** What a process is about to rename is there to be renamed. */
  predicate TempsOk(s: System) {
    forall p :: p in s.stages && s.stages[p].Staged? ==> TempFile(p, s.stages[p].block) in s.temps
  }

  lemma StepTemps(lib: Library, s: System, ev: Event)
    requires Enabled(lib, s, ev) && TempsOk(s)
    ensures TempsOk(Step(lib, s, ev))
    ensures ev.Rename? ==>
      var tmp := TempFile(ev.p, StageOf(s, ev.p).block);
      tmp in s.temps && Step(lib, s, ev).temps == s.temps - {tmp}
  {
    hide HashBlock, ChainOk, ListsDir, Descending, Ascending, UpTo, NextBlock;
  }

  /** In every run each rename finds its temporary file and takes it away. */
  lemma {:induction false} RunTemps(lib: Library, s: System, run: seq<Event>)
    requires RunEnabled(lib, s, run) && TempsOk(s)
    ensures TempsOk(After(lib, s, run))
    decreases |run|
  {
    hide Step, Enabled, TempsOk;
    if |run| > 0 {
      StepTemps(lib, s, run[0]);
      RunTemps(lib, Step(lib, s, run[0]), run[1..]);
    }
  }

  /** `n` attempts in a row at the lock. */
  function Attempts(p: Pid, n: nat): (run: seq<Event>)
    ensures |run| == n && forall i :: 0 <= i < n ==> run[i] == TryLock(p)
  {
    seq(n, _ => TryLock(p))
  }

  /** While another process holds the lock an append keeps trying: it gives up at the 200th attempt, not before,
      and changes nothing. */
  lemma {:induction false} GivesUp(lib: Library, s: System, p: Pid, data: Json, tried: nat, n: nat)
    requires StageOf(s, p) == Trying(data, tried) && s.lock.Some? && tried + n <= 200 && tried < 200
    ensures RunEnabled(lib, s, Attempts(p, n))
    ensures var t := After(lib, s, Attempts(p, n));
      && StageOf(t, p) == (if tried + n < 200 then Trying(data, tried + n) else Idle)
      && t.dir == s.dir && t.temps == s.temps && t.lock == s.lock && t.receipts == s.receipts
    decreases n
  {
    var run := Attempts(p, n);
    if n > 0 {
      var next := Step(lib, s, TryLock(p));
      assert run[1..] == Attempts(p, n - 1);
      if tried + 1 < 200 {
        GivesUp(lib, next, p, data, tried + 1, n - 1);
      } else {
        assert run[1..] == [];
      }
    }
  }

  /** The lock of a process that is gone can be taken away, and then an append can begin. */
  lemma StaleLockClears(lib: Library, s: System, chain: seq<Block>, total: nat, p: Pid)
    requires Inv(lib, s, chain, total) && s.lock == Some(p)
    ensures Enabled(lib, s, Crash(p)) && Inv(lib, Step(lib, s, Crash(p)), chain, total)
    ensures var gone := Step(lib, s, Crash(p));
      && Enabled(lib, gone, ClearStaleLock)
      && var t := Step(lib, gone, ClearStaleLock);
         Inv(lib, t, chain, total) && t.lock.None? && t.dir == s.dir && t.receipts == s.receipts && StageOf(t, p).Idle?
  {
    hide Inv;
    OutsideKeeps(lib, s, chain, total, p, Idle);
    ClearKeeps(lib, Move(s, p, Idle), chain, total);
  }

  /** Whatever the directory holds: blocks that do not validate, or a file that holds none, make the append fail
      without writing anything. */
  lemma RefusesBadFiles(lib: Library, s: System, p: Pid, name: string, timestamp: string)
    requires StageOf(s, p).Reading?
    ensures var st := StageOf(s, p);
      |st.todo| == 0 && !ChainOk(lib, st.got) ==>
        Enabled(lib, s, Validate(p, name, timestamp)) && Step(lib, s, Validate(p, name, timestamp)) == Move(s, p, Failing)
    ensures var st := StageOf(s, p);
      |st.todo| > 0 && (st.todo[0] !in s.dir || s.dir[st.todo[0]].None?) ==>
        Enabled(lib, s, ReadOne(p)) && Step(lib, s, ReadOne(p)) == Move(s, p, Failing)
    ensures Enabled(lib, Move(s, p, Failing), Unlock(p))
    ensures var t := Step(lib, Move(s, p, Failing), Unlock(p));
      t.dir == s.dir && t.temps == s.temps && t.receipts == s.receipts && t.lock.None? && StageOf(t, p).Idle?
  {
    hide ChainOk, NextBlock;
  }
}
