/**
  What stays on disk.  Rotation moves the active file to a name made of the clock;
  the archived files in the order of their names, then the active file, hold every
  record that was ever acknowledged, as long as no two rotations share a clock reading.
*/
module QueueArchive {
  import opened Basics
  import opened QueueModel
  import opened QueueCrash
  import W = WalFormat

  /** The clock readings in the archive names, in order. */
  ghost predicate Chronicle(archives: map<int, Bytes>, times: seq<int>) {
    && (forall i, j :: 0 <= i < j < |times| ==> times[i] < times[j])
    && forall t :: t in times <==> t in archives
  }

  /** The records in the archived files, file after file. */
  function Shelf(archives: map<int, Bytes>, times: seq<int>): seq<Bytes> {
    if |times| == 0 then []
    else
      var last := times[|times| - 1];
      Shelf(archives, times[..|times| - 1]) + if last in archives then W.Scan(archives[last]) else []
  }

  /** Every archive name in use is earlier. */
  predicate Latest(archives: map<int, Bytes>, now: int) {
    forall t :: t in archives ==> t < now
  }

  lemma {:induction false} ShelfAlike(a: map<int, Bytes>, b: map<int, Bytes>, times: seq<int>)
    requires forall t :: t in times ==> t in a && t in b && a[t] == b[t]
    ensures Shelf(a, times) == Shelf(b, times)
  {
    if |times| > 0 {
      assert times[|times| - 1] in times && forall t :: t in times[..|times| - 1] ==> t in times;
      ShelfAlike(a, b, times[..|times| - 1]);
    }
  }

  /** A later name comes last. */
  lemma ChronicleLast(archives: map<int, Bytes>, now: int, file: Bytes, times: seq<int>)
    requires Latest(archives, now) && Chronicle(archives[now := file], times)
    ensures |times| > 0 && times[|times| - 1] == now && Chronicle(archives, times[..|times| - 1])
  {
    var n := |times| - 1;
    assert now in times;
    var i :| 0 <= i < |times| && times[i] == now;
    assert times[n] in times && times[n] >= now;
    var init := times[..n];
    assert times == init + [now];
    assert forall t :: t in times <==> t in init || t == now;
    assert now !in init;
  }

  /** Rotation at a later moment adds the records of the file to the shelf. */
  lemma ShelfGrows(archives: map<int, Bytes>, now: int, file: Bytes, times: seq<int>)
    requires Latest(archives, now) && Chronicle(archives[now := file], times)
    ensures |times| > 0 && Chronicle(archives, times[..|times| - 1])
    ensures Shelf(archives[now := file], times) == Shelf(archives, times[..|times| - 1]) + W.Scan(file)
  {
    hide W.Scan;
    ChronicleLast(archives, now, file, times);
    var init := times[..|times| - 1];
    assert forall t :: t in init ==> t in archives && t != now;
    ShelfAlike(archives, archives[now := file], init);
  }

  // ---------- One step ----------

  /** The archives hold exactly the records before the active segment; in financial mode the acknowledged
      records of the whole history are the operations that returned. */
  ghost predicate ArchiveOk(s: Setup, sys: System) {
    && sys.segment <= |sys.log|
    && (forall times :: Chronicle(sys.disk.archives, times) ==>
          Shelf(sys.disk.archives, times) == Payloads(s.codec, sys.past + sys.log[..sys.segment]))
    && (s.wal.financial ==> Acked(sys.past + sys.log) == sys.acks)
  }

  /** The event moves the active file aside. */
  predicate RotatesAt(s: Setup, sys: System, ev: Event) {
    match ev
    case Call(op, _) => Writes(s, sys, op) && MustRotate(s.wal, sys.disk, |Payload(s.codec, Record(op))| + 8)
    case Crash(inFlight, _, _, _) =>
      && inFlight.Some? && Writes(s, sys, inFlight.value)
      && MustRotate(s.wal, sys.disk, |Payload(s.codec, Record(inFlight.value))| + 8)
    case Restart => false
  }

  /** If it does, the clock shows a later time than at any rotation before. */
  predicate RotatesLater(s: Setup, sys: System, ev: Event) {
    RotatesAt(s, sys, ev) && !ev.Restart? ==> Latest(sys.disk.archives, ev.now)
  }

  lemma ActiveScan(s: Setup, sys: System)
    requires Inv(s, sys) && sys.live.Some?
    ensures W.Scan(sys.disk.active) == Payloads(s.codec, sys.log[sys.segment..])
  {
    hide LiveOk, AckOk, Capped, FreshIds, Written, W.Stream, W.Scan, Payloads;
    var all := Payloads(s.codec, sys.log[sys.segment..]);
    assert sys.disk.active == W.Stream(all) + [];
    W.EmptyStartsNoFrame();
    W.ScanOfStream(all, []);
  }

  lemma PayloadsConcat(c: Codec, a: seq<Entry>, b: seq<Entry>)
    ensures Payloads(c, a + b) == Payloads(c, a) + Payloads(c, b)
  {
    hide Payload;
  }

  /** Writing a record: the archives grow by the old segment exactly if the write rotates. */
  lemma BegunArchives(s: Setup, sys: System, op: Op, now: int)
    requires Writes(s, sys, op)
    ensures var b := Begun(s, sys, op, now);
      && b.past == sys.past && b.log == sys.log + [Entry(Record(op), false)] && b.acks == sys.acks
      && if MustRotate(s.wal, sys.disk, |Payload(s.codec, Record(op))| + 8)
         then b.disk.archives == sys.disk.archives[now := sys.disk.active] && b.segment == |sys.log|
         else b.disk.archives == sys.disk.archives && b.segment == sys.segment
  {
    hide Payload, Record, W.Encode;
  }

  lemma DoneArchives(s: Setup, sys: System, op: Op, now: int)
    requires Writes(s, sys, op)
    ensures var b, d := Begun(s, sys, op, now), Done(s, sys, op, now);
      && d.past == b.past && d.segment == b.segment && d.disk.archives == b.disk.archives
      && d.log == sys.log + [Entry(Record(op), true)] && d.acks == sys.acks + [Record(op)]
  {
    hide Payload, Record, W.Encode;
  }

  /** The shelf after a write, whichever way the record is marked. */
  lemma WriteShelves(s: Setup, sys: System, archives: map<int, Bytes>, segment: nat, e: Entry, now: int, rotates: bool)
    requires Inv(s, sys) && ArchiveOk(s, sys) && sys.live.Some? && (rotates ==> Latest(sys.disk.archives, now))
    requires archives == if rotates then sys.disk.archives[now := sys.disk.active] else sys.disk.archives
    requires segment == if rotates then |sys.log| else sys.segment
    ensures segment <= |sys.log + [e]|
    ensures forall times :: Chronicle(archives, times) ==>
      Shelf(archives, times) == Payloads(s.codec, sys.past + (sys.log + [e])[..segment])
  {
    hide Inv, Shelf, Chronicle, Payloads, Acked, Latest;
    assert (sys.log + [e])[..segment] == sys.log[..segment];
    if rotates {
      ActiveScan(s, sys);
      var before := sys.past + sys.log[..sys.segment];
      assert sys.past + sys.log[..segment] == before + sys.log[sys.segment..];
      PayloadsConcat(s.codec, before, sys.log[sys.segment..]);
      forall times | Chronicle(archives, times)
        ensures Shelf(archives, times) == Payloads(s.codec, sys.past + sys.log[..segment])
      {
        ShelfGrows(sys.disk.archives, now, sys.disk.active, times);
      }
    }
  }

  lemma AckedMore(past: seq<Entry>, log: seq<Entry>, e: Entry)
    ensures Acked(past + (log + [e])) == Acked(past + log) + if e.acked then [e.record] else []
  {
    assert past + (log + [e]) == (past + log) + [e];
    OneAcked(e);
    AckedSplit(past + log, [e]);
  }

  lemma CallArchives(s: Setup, sys: System, op: Op, now: int)
    requires Inv(s, sys) && ArchiveOk(s, sys) && Enabled(s, sys, Call(op, now)) && RotatesLater(s, sys, Call(op, now))
    ensures ArchiveOk(s, Step(s, sys, Call(op, now)))
  {
    if Writes(s, sys, op) {
      var e := Entry(Record(op), true);
      var rotates := MustRotate(s.wal, sys.disk, |Payload(s.codec, Record(op))| + 8);
      hide Inv, Shelf, Chronicle, Payloads, Payload, Record, Acked, Latest, MustRotate, Writes, Begun, Done;
      BegunArchives(s, sys, op, now);
      DoneArchives(s, sys, op, now);
      var d := Done(s, sys, op, now);
      WriteShelves(s, sys, d.disk.archives, d.segment, e, now, rotates);
      AckedMore(sys.past, sys.log, e);
    }
  }

  lemma CrashArchives(s: Setup, sys: System, inFlight: Option<Op>, now: int, kept: nat, lockLeft: bool)
    requires Inv(s, sys) && ArchiveOk(s, sys) && Enabled(s, sys, Crash(inFlight, now, kept, lockLeft))
    requires RotatesLater(s, sys, Crash(inFlight, now, kept, lockLeft))
    ensures ArchiveOk(s, Step(s, sys, Crash(inFlight, now, kept, lockLeft)))
  {
    if inFlight.Some? && Writes(s, sys, inFlight.value) {
      var op := inFlight.value;
      var e := Entry(Record(op), false);
      var rotates := MustRotate(s.wal, sys.disk, |Payload(s.codec, Record(op))| + 8);
      hide Inv, Shelf, Chronicle, Payloads, Payload, Record, Acked, Latest, MustRotate, Writes, Begun;
      BegunArchives(s, sys, op, now);
      var b := Begun(s, sys, op, now);
      WriteShelves(s, sys, b.disk.archives, b.segment, e, now, rotates);
      AckedMore(sys.past, sys.log, e);
      assert Acked(sys.past + sys.log) + [] == Acked(sys.past + sys.log);
    }
  }

  /** Records after everything acknowledged do not count. */
  lemma AckedUpTo(past: seq<Entry>, log: seq<Entry>, durable: nat, n: nat)
    requires durable <= n <= |log| && NoneAcked(log[durable..])
    ensures Acked(past + log[..n]) == Acked(past + log)
  {
    hide Acked;
    var rest := log[n..];
    assert forall i :: 0 <= i < |rest| ==> rest[i] == log[durable..][n - durable + i];
    NothingAcked(rest);
    assert past + log == (past + log[..n]) + rest;
    AckedSplit(past + log[..n], rest);
    assert Acked(past + log[..n]) + [] == Acked(past + log[..n]);
  }

  lemma RestartDisk(s: Setup, sys: System)
    requires Enabled(s, sys, Restart)
    ensures Step(s, sys, Restart).disk.archives == sys.disk.archives
  {
    hide W.Scan, W.Stream, Replay;
  }

  lemma RestartArchives(s: Setup, sys: System)
    requires Faithful(s.codec) && Inv(s, sys) && ArchiveOk(s, sys) && Enabled(s, sys, Restart)
    ensures ArchiveOk(s, Step(s, sys, Restart))
  {
    hide *;
    RestartIsDown(s, sys);
    RestartDisk(s, sys);
    var n := RestartReplays(s, sys);
    InvAcks(s, sys);
    WindowArchives(s, sys, Step(s, sys, Restart), n);
  }

  /** What was before the active segment is archived; what was never acknowledged may be gone. */
  lemma WindowArchives(s: Setup, sys: System, up: System, n: nat)
    requires ArchiveOk(s, sys) && sys.segment <= sys.durable <= n <= |sys.log|
    requires s.wal.financial ==> NoneAcked(sys.log[sys.durable..])
    requires up.past == sys.past + sys.log[..sys.segment] && up.log == sys.log[sys.segment..n] && up.segment == 0
    requires up.disk.archives == sys.disk.archives && up.acks == sys.acks
    ensures ArchiveOk(s, up)
  {
    hide Shelf, Chronicle, Payloads, Acked, NoneAcked;
    assert up.past + up.log[..0] == up.past;
    assert up.past + up.log == sys.past + sys.log[..n];
    if s.wal.financial { AckedUpTo(sys.past, sys.log, sys.durable, n); }
  }

  lemma StepArchives(s: Setup, sys: System, ev: Event)
    requires Faithful(s.codec) && Inv(s, sys) && ArchiveOk(s, sys) && Enabled(s, sys, ev) && RotatesLater(s, sys, ev)
    ensures ArchiveOk(s, Step(s, sys, ev))
  {
    hide *;
    match ev
    case Call(op, now) => CallArchives(s, sys, op, now);
    case Crash(inFlight, now, kept, lockLeft) => CrashArchives(s, sys, inFlight, now, kept, lockLeft);
    case Restart => RestartArchives(s, sys);
  }

  // ---------- Whole runs ----------

  /** Every rotation of the run happens at a later clock reading than the rotations before it. */
  predicate RotationsApart(s: Setup, sys: System, run: seq<Event>)
    requires RunEnabled(s, sys, run)
    decreases |run|
  {
    |run| > 0 ==> RotatesLater(s, sys, run[0]) && RotationsApart(s, Step(s, sys, run[0]), run[1..])
  }

  lemma {:induction false} RunArchives(s: Setup, sys: System, run: seq<Event>)
    requires Faithful(s.codec) && Inv(s, sys) && ArchiveOk(s, sys) && RunEnabled(s, sys, run)
    requires RotationsApart(s, sys, run)
    ensures ArchiveOk(s, After(s, sys, run))
    decreases |run|
  {
    hide Inv, Step, Enabled, ArchiveOk, RotatesLater, Faithful;
    if |run| > 0 {
      StepArchives(s, sys, run[0]);
      StepKeeps(s, sys, run[0]);
      RunArchives(s, Step(s, sys, run[0]), run[1..]);
    }
  }

  lemma FreshArchives(s: Setup)
    ensures ArchiveOk(s, FRESH_START)
  {
    assert forall times :: Chronicle(FRESH_START.disk.archives, times) ==> |times| == 0 || times[0] in times;
    assert FRESH_START.past + FRESH_START.log[..0] == [];
  }

  /**
    No acknowledged record ever leaves the disk.  In financial mode, after any run whose rotations happen at
    ever later clock readings, the archived files in the order of their names, followed by the active file,
    hold the whole history of records up to a point n of the log after which nothing was acknowledged; and the
    acknowledged records of that history are all operations that ever returned.
  */
  lemma NothingLeavesTheDisk(s: Setup, run: seq<Event>, times: seq<int>) returns (n: nat)
    requires Faithful(s.codec) && s.wal.financial
    requires RunEnabled(s, FRESH_START, run) && RotationsApart(s, FRESH_START, run)
    requires Chronicle(After(s, FRESH_START, run).disk.archives, times)
    ensures var sys := After(s, FRESH_START, run);
      && sys.durable <= n <= |sys.log|
      && Shelf(sys.disk.archives, times) + W.Scan(sys.disk.active) == Payloads(s.codec, sys.past + sys.log[..n])
      && Acked(sys.past + sys.log[..n]) == sys.acks
      && forall e :: e in sys.acks ==>
           Payload(s.codec, e) in Shelf(sys.disk.archives, times) + W.Scan(sys.disk.active)
  {
    hide Inv, After, RunEnabled, RotationsApart, Faithful, Shelf, Chronicle, Payloads, Payload, Acked;
    FreshStartOk(s);
    FreshArchives(s);
    RunKeeps(s, FRESH_START, run);
    RunArchives(s, FRESH_START, run);
    var sys := After(s, FRESH_START, run);
    n := OnDisk(s, sys);
    InvAcks(s, sys);
    hide NoneAcked;
    var before := sys.past + sys.log[..sys.segment];
    assert sys.past + sys.log[..n] == before + sys.log[sys.segment..n];
    PayloadsConcat(s.codec, before, sys.log[sys.segment..n]);
    AckedUpTo(sys.past, sys.log, sys.durable, n);
    AckedPayloads(s.codec, sys.past + sys.log[..n]);
  }

  lemma OnDisk(s: Setup, sys: System) returns (n: nat)
    requires Inv(s, sys)
    ensures sys.durable <= n <= |sys.log| && sys.segment <= n
    ensures W.Scan(sys.disk.active) == Payloads(s.codec, sys.log[sys.segment..n])
  {
    hide LiveOk, AckOk, Capped, FreshIds, W.Stream, W.Scan, Payloads, AllWritten;
    n := RestartWindow(s.codec, sys.disk, sys.log, sys.segment, sys.durable);
  }

  lemma {:induction false} AckedPayloads(c: Codec, log: seq<Entry>)
    ensures forall e :: e in Acked(log) ==> Payload(c, e) in Payloads(c, log)
    decreases |log|
  {
    hide Payload;
    if |log| > 0 {
      var init, last := log[..|log| - 1], log[|log| - 1];
      AckedPayloads(c, init);
      assert log == init + [last];
      PayloadsConcat(c, init, [last]);
      assert Payloads(c, [last])[0] == Payload(c, last.record);
    }
  }

  // ---------- Two rotations at one clock reading ----------

  /** Three enqueues, each of which fills the file. */
  predicate EachFills(s: Setup, a: Op, b: Op, c: Op) {
    && a.Enqueue? && b.Enqueue? && c.Enqueue? && a.id != b.id && a.id != c.id && b.id != c.id
    && Written(s.codec, Record(a)) && Written(s.codec, Record(b)) && Written(s.codec, Record(c))
    && s.wal.financial && !s.wal.failRotation && s.maxPending >= 3
    && |Payload(s.codec, Record(a))| + 8 <= s.wal.maxWalBytes
    && |Payload(s.codec, Record(a))| + 8 + |Payload(s.codec, Record(b))| + 8 > s.wal.maxWalBytes
    && |Payload(s.codec, Record(b))| + 8 + |Payload(s.codec, Record(c))| + 8 > s.wal.maxWalBytes
  }

  lemma FirstCall(s: Setup, sys: System, op: Op, now: int, rotates: bool)
    requires sys.live.Some? && op.Enqueue? && Written(s.codec, Record(op)) && s.wal.financial && !s.wal.failRotation
    requires op.id !in sys.live.value.pending && |sys.live.value.pending| < s.maxPending && !sys.disk.lockFile
    requires rotates <==> |sys.disk.active| + |Payload(s.codec, Record(op))| + 8 > s.wal.maxWalBytes
    ensures Enabled(s, sys, Call(op, now))
    ensures var next := Step(s, sys, Call(op, now));
      && next.live.Some? && next.live.value.pending.Keys == sys.live.value.pending.Keys + {op.id}
      && |next.live.value.pending| == |sys.live.value.pending| + 1
      && next.acks == sys.acks + [Record(op)] && !next.disk.lockFile
      && next.disk.archives == (if rotates then sys.disk.archives[now := sys.disk.active] else sys.disk.archives)
      && next.disk.active == (if rotates then W.Encode(Payload(s.codec, Record(op)))
                              else sys.disk.active + W.Encode(Payload(s.codec, Record(op))))
  {
    hide Payload, Recordable, Record, W.Encode;
    assert Writes(s, sys, op);
    assert [] + W.Encode(Payload(s.codec, Record(op))) == W.Encode(Payload(s.codec, Record(op)));
    var q := Applied(sys.live.value, op);
    assert q.pending.Keys == sys.live.value.pending.Keys + {op.id};
    assert |q.pending| == |q.pending.Keys| && |sys.live.value.pending| == |sys.live.value.pending.Keys|;
  }

  lemma NamedTwice(archives: map<int, Bytes>, now: int, first: Bytes, second: Bytes)
    requires archives == map[now := first] || archives == map[][now := first]
    ensures archives[now := second] == map[now := second]
  {}

  lemma LastTwoCalls(s: Setup, a: Op, b: Op, c: Op, now: int, one: System)
    requires EachFills(s, a, b, c) && one.live.Some? && one.live.value.pending.Keys == {a.id}
    requires |one.live.value.pending| == 1 && one.acks == [Record(a)] && !one.disk.lockFile
    requires one.disk.archives == map[] && |one.disk.active| == |Payload(s.codec, Record(a))| + 8
    ensures RunEnabled(s, one, [Call(b, now), Call(c, now)])
    ensures var sys := After(s, one, [Call(b, now), Call(c, now)]);
      && sys.acks == [Record(a), Record(b), Record(c)]
      && sys.disk.archives == map[now := W.Encode(Payload(s.codec, Record(b)))]
      && sys.disk.active == W.Encode(Payload(s.codec, Record(c)))
  {
    hide Payload, Record, W.Encode, Written, Step, Enabled, RunEnabled, After;
    EncodedSize(s, b);
    FirstCall(s, one, b, now, true);
    var two := Step(s, one, Call(b, now));
    FirstCall(s, two, c, now, true);
    NamedTwice(two.disk.archives, now, one.disk.active, two.disk.active);
    TwoSteps(s, one, Call(b, now), Call(c, now));
  }

  lemma ThreeCalls(s: Setup, a: Op, b: Op, c: Op, now: int)
    requires EachFills(s, a, b, c)
    ensures var run := [Call(a, now), Call(b, now), Call(c, now)];
      && RunEnabled(s, FRESH_START, run)
      && var sys := After(s, FRESH_START, run);
         && sys.acks == [Record(a), Record(b), Record(c)]
         && sys.disk.archives == map[now := W.Encode(Payload(s.codec, Record(b)))]
         && sys.disk.active == W.Encode(Payload(s.codec, Record(c)))
  {
    hide Payload, Record, W.Encode, Written, Step, Enabled, RunEnabled, After;
    EncodedSize(s, a);
    FreshState();
    FirstCall(s, FRESH_START, a, now, false);
    LastTwoCalls(s, a, b, c, now, Step(s, FRESH_START, Call(a, now)));
    OneStep(s, FRESH_START, Call(a, now), [Call(b, now), Call(c, now)]);
    assert [Call(a, now)] + [Call(b, now), Call(c, now)] == [Call(a, now), Call(b, now), Call(c, now)];
  }

  /**
    The clock readings must differ: when the second and the third of three enqueues rotate the file at one
    reading, the record of the first, though acknowledged, is in no file any more.
  */
  lemma SameReadingLoses(s: Setup, a: Op, b: Op, c: Op, now: int)
    requires Faithful(s.codec) && EachFills(s, a, b, c)
    ensures var run := [Call(a, now), Call(b, now), Call(c, now)];
      && RunEnabled(s, FRESH_START, run)
      && var sys := After(s, FRESH_START, run);
         && sys.acks == [Record(a), Record(b), Record(c)] && Chronicle(sys.disk.archives, [now])
         && Shelf(sys.disk.archives, [now]) + W.Scan(sys.disk.active)
              == [Payload(s.codec, Record(b)), Payload(s.codec, Record(c))]
         && Payload(s.codec, Record(a)) !in Shelf(sys.disk.archives, [now]) + W.Scan(sys.disk.active)
  {
    hide Payload, Record, W.Encode, W.Scan, Faithful, Written, Shelf, Chronicle, RunEnabled, After;
    ThreeCalls(s, a, b, c, now);
    OneFrame(s, b);
    OneFrame(s, c);
    OneShelf(After(s, FRESH_START, [Call(a, now), Call(b, now), Call(c, now)]).disk.archives, now);
    PayloadsApart(s, a, b);
    PayloadsApart(s, a, c);
  }

  lemma FreshState()
    ensures FRESH_START.live.Some? && FRESH_START.live.value.pending == map[] && !FRESH_START.disk.lockFile
    ensures FRESH_START.disk.active == [] && FRESH_START.disk.archives == map[] && FRESH_START.acks == []
  {}

  lemma EncodedSize(s: Setup, op: Op)
    requires Written(s.codec, Record(op))
    ensures |W.Encode(Payload(s.codec, Record(op)))| == |Payload(s.codec, Record(op))| + 8
  {
    hide Payload, Record;
    EncodeSize(Payload(s.codec, Record(op)));
  }

  lemma OneStep(s: Setup, sys: System, ev: Event, rest: seq<Event>)
    requires Enabled(s, sys, ev) && RunEnabled(s, Step(s, sys, ev), rest)
    ensures RunEnabled(s, sys, [ev] + rest) && After(s, sys, [ev] + rest) == After(s, Step(s, sys, ev), rest)
  {
    hide Enabled, Step;
    assert ([ev] + rest)[1..] == rest;
  }

  lemma OneFrame(s: Setup, op: Op)
    requires Written(s.codec, Record(op))
    ensures W.Scan(W.Encode(Payload(s.codec, Record(op)))) == [Payload(s.codec, Record(op))]
  {
    hide Payload, Record, W.Encode, W.Scan, W.Stream;
    WrittenIsShort(s.codec, Record(op));
    var p := Payload(s.codec, Record(op));
    W.StreamOne(p);
    W.EmptyStartsNoFrame();
    W.ScanOfStream([p], []);
    assert W.Stream([p]) + [] == W.Stream([p]);
  }

  lemma OneShelf(archives: map<int, Bytes>, now: int)
    requires archives.Keys == {now}
    ensures Chronicle(archives, [now]) && Shelf(archives, [now]) == W.Scan(archives[now])
  {
    hide W.Scan;
    assert [now][..0] == [];
    assert [] + W.Scan(archives[now]) == W.Scan(archives[now]);
  }

  /** Records of different tasks are different bytes. */
  lemma PayloadsApart(s: Setup, a: Op, b: Op)
    requires Faithful(s.codec) && Written(s.codec, Record(a)) && Written(s.codec, Record(b)) && a.id != b.id
    ensures Payload(s.codec, Record(a)) != Payload(s.codec, Record(b))
  {
    hide Payload, Decode, Faithful;
    RecordRoundTrip(s.codec, Record(a));
    RecordRoundTrip(s.codec, Record(b));
    assert Record(a).taskId == a.id && Record(b).taskId == b.id;
  }
}
