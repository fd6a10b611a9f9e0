/**
  Whole runs of the task queue with crashes.  A crash may happen at any time, also
  in the middle of a write; it keeps any prefix of the active file that is at least
  as long as the part known to be durable.  Restart clears a stale lock file, cuts
  the file back to its valid frames and replays them.

  `log` is a history variable: the records written since the state the last restart
  read, oldest first, each marked with whether its operation had returned; `past` holds
  those that were archived before.
*/
module QueueCrash {
  import opened Basics
  import opened QueueModel
  import opened Json
  import W = WalFormat

  // ---------- Operations on a log of records ----------

  datatype Entry = Entry(record: Envelope, acked: bool)

  type Pending = map<string, PendingTask>

  function Effect(p: Pending, e: Envelope): Pending {
    match e
    case EnqueueOp(id, at, task) => p[id := PendingTask(id, at, task)]
    case FinishOp(id, _, _, _) => p - {id}
  }

  /** The tasks pending after a log. */
  function PendingOf(log: seq<Entry>): Pending {
    if |log| == 0 then map[] else Effect(PendingOf(log[..|log| - 1]), log[|log| - 1].record)
  }

  function Enqueues(log: seq<Entry>): nat {
    if |log| == 0 then 0 else Enqueues(log[..|log| - 1]) + (if log[|log| - 1].record.EnqueueOp? then 1 else 0)
  }

  function Finishes(log: seq<Entry>): nat {
    if |log| == 0 then 0 else Finishes(log[..|log| - 1]) + (if log[|log| - 1].record.FinishOp? then 1 else 0)
  }

  /** Finish records whose task is not pending at that point of the log. */
  function Orphans(log: seq<Entry>): nat {
    if |log| == 0 then 0
    else
      var e := log[|log| - 1].record;
      Orphans(log[..|log| - 1]) + (if e.FinishOp? && e.taskId !in PendingOf(log[..|log| - 1]) then 1 else 0)
  }

  /** No task is enqueued while a task of the same id is pending. */
  predicate FreshIds(log: seq<Entry>) {
    |log| == 0 ||
    (FreshIds(log[..|log| - 1])
     && (log[|log| - 1].record.EnqueueOp? ==> log[|log| - 1].record.taskId !in PendingOf(log[..|log| - 1])))
  }

  function EnqueuedIds(log: seq<Entry>): set<string> {
    set i | 0 <= i < |log| && log[i].record.EnqueueOp? :: log[i].record.taskId
  }

  function Acked(log: seq<Entry>): seq<Envelope> {
    if |log| == 0 then []
    else Acked(log[..|log| - 1]) + (if log[|log| - 1].acked then [log[|log| - 1].record] else [])
  }

  function Unacked(log: seq<Entry>): nat {
    if |log| == 0 then 0 else Unacked(log[..|log| - 1]) + (if log[|log| - 1].acked then 0 else 1)
  }

  function Payloads(c: Codec, log: seq<Entry>): (ps: seq<Bytes>)
    ensures |ps| == |log|
    ensures forall i :: 0 <= i < |log| ==> ps[i] == Payload(c, log[i].record)
  {
    seq(|log|, i requires 0 <= i < |log| => Payload(c, log[i].record))
  }

  predicate Written(c: Codec, e: Envelope) {
    Recordable(c, e) && |Payload(c, e)| < W.LENGTH_LIMIT
  }

  predicate AllWritten(c: Codec, log: seq<Entry>) {
    forall i :: 0 <= i < |log| ==> Written(c, log[i].record)
  }

  lemma Snoc(log: seq<Entry>, e: Entry)
    ensures (log + [e])[..|log|] == log && (log + [e])[|log|] == e
  {}

  // ---------- Suffixes of a log ----------

  /** What a suffix leaves pending is what the whole log leaves pending of the tasks enqueued in it. */
  lemma {:induction false} SuffixPending(a: seq<Entry>, b: seq<Entry>)
    ensures forall id :: id in PendingOf(b) ==> id in EnqueuedIds(b)
    ensures forall id :: id in EnqueuedIds(b) ==> (id in PendingOf(a + b) <==> id in PendingOf(b))
    ensures forall id :: id in PendingOf(b) ==> id in PendingOf(a + b) && PendingOf(a + b)[id] == PendingOf(b)[id]
    decreases |b|
  {
    if |b| > 0 {
      var init, last := b[..|b| - 1], b[|b| - 1];
      SuffixPending(a, init);
      assert (a + b)[..|a + b| - 1] == a + init && (a + b)[|a + b| - 1] == last;
      EnqueuedIdsSnoc(init, last);
      assert b == init + [last];
    }
  }

  lemma EnqueuedIdsSnoc(log: seq<Entry>, e: Entry)
    ensures EnqueuedIds(log + [e]) == EnqueuedIds(log) + (if e.record.EnqueueOp? then {e.record.taskId} else {})
  {
    var all := log + [e];
    forall id | id in EnqueuedIds(log)
      ensures id in EnqueuedIds(all)
    {
      var i :| 0 <= i < |log| && log[i].record.EnqueueOp? && log[i].record.taskId == id;
      assert all[i] == log[i];
    }
    if e.record.EnqueueOp? { assert all[|log|] == e; }
  }

  function Restrict(p: Pending, ids: set<string>): Pending {
    map id | id in p && id in ids :: p[id]
  }

  lemma SuffixIsRestriction(a: seq<Entry>, b: seq<Entry>)
    ensures PendingOf(b) == Restrict(PendingOf(a + b), EnqueuedIds(b))
    ensures |PendingOf(b)| <= |PendingOf(a + b)|
  {
    SuffixPending(a, b);
    assert PendingOf(b).Keys <= PendingOf(a + b).Keys;
    CardinalitySubset(PendingOf(b).Keys, PendingOf(a + b).Keys);
  }

  lemma {:induction false} AckedSplit(a: seq<Entry>, b: seq<Entry>)
    ensures Acked(a + b) == Acked(a) + Acked(b) && Unacked(a + b) == Unacked(a) + Unacked(b)
    decreases |b|
  {
    if |b| == 0 {
      assert a + b == a;
    } else {
      assert (a + b)[..|a + b| - 1] == a + b[..|b| - 1];
      AckedSplit(a, b[..|b| - 1]);
    }
  }

  // ---------- Conservation ----------

  /** Exact bookkeeping: the only thing that can unbalance the totals is an orphan finish record. */
  lemma {:induction false} Bookkeeping(log: seq<Entry>)
    requires FreshIds(log)
    ensures Enqueues(log) + Orphans(log) == Finishes(log) + |PendingOf(log)|
    decreases |log|
  {
    if |log| > 0 {
      var init := log[..|log| - 1];
      Bookkeeping(init);
      var p, id := PendingOf(init), log[|log| - 1].record.taskId;
      if log[|log| - 1].record.EnqueueOp? {
        assert PendingOf(log).Keys == p.Keys + {id};
      } else {
        assert PendingOf(log).Keys == p.Keys - {id};
      }
    }
  }

  // ---------- Replay of a log ----------

  lemma {:induction false} ReplayOfLog(c: Codec, log: seq<Entry>)
    requires Faithful(c) && AllWritten(c, log)
    ensures var q := Replay(c, Payloads(c, log));
      && q.pending == PendingOf(log) && q.recovered == q.pending.Keys
      && q.totalEnqueued == Enqueues(log) && q.totalFinished == Finishes(log)
    decreases |log|
  {
    if |log| > 0 {
      var init := log[..|log| - 1];
      ReplayOfLog(c, init);
      assert Payloads(c, log)[..|log| - 1] == Payloads(c, init);
      RecordRoundTrip(c, log[|log| - 1].record);
      hide Decode, Payload;
      assert Decode(c, Payloads(c, log)[|log| - 1]) == Some(log[|log| - 1].record);
    }
  }

  // ---------- The system ----------

  datatype Setup = Setup(codec: Codec, wal: WalConfig, maxPending: nat)

  /** `live` is missing while the process is down; `segment` is where the active file begins in the log;
      the records before `durable` are known to be on disk; `acks` are the operations that returned,
      the first `archived` of them before the last rotation. */
  datatype System = System(
    disk: Disk, live: Option<QueueState>, past: seq<Entry>, log: seq<Entry>,
    segment: nat, durable: nat, acks: seq<Envelope>, archived: nat, crashes: nat)

  const FRESH_START := System(Disk([], 0, map[], false), Some(EMPTY_QUEUE), [], [], 0, 0, [], 0, 0)

  datatype Event =
    | Call(op: Op, now: int)
    | Crash(inFlight: Option<Op>, now: int, kept: nat, lockLeft: bool)
    | Restart

  /** The operation reaches the log. */
  predicate Writes(s: Setup, sys: System, op: Op) {
    && sys.live.Some? && Admitted(s.maxPending, sys.live.value, op)
    && Refusal(s.wal, sys.disk, Payload(s.codec, Record(op))).None?
  }

  /** The record stands in the file, nothing has been synced or returned yet. */
  function Begun(s: Setup, sys: System, op: Op, now: int): System
    requires Writes(s, sys, op)
  {
    var payload := Payload(s.codec, Record(op));
    var base := Prepared(s.wal, sys.disk, payload, now);
    var rotate := MustRotate(s.wal, sys.disk, |payload| + 8);
    sys.(disk := base.(active := base.active + W.Encode(payload)),
         log := sys.log + [Entry(Record(op), false)],
         segment := if rotate then |sys.log| else sys.segment,
         durable := if rotate then |sys.log| else sys.durable,
         archived := if rotate then |sys.acks| else sys.archived)
  }

  /** The operation has returned to its caller. */
  function Done(s: Setup, sys: System, op: Op, now: int): System
    requires Writes(s, sys, op)
  {
    var b := Begun(s, sys, op, now);
    b.(disk := Appended(s.wal, sys.disk, Payload(s.codec, Record(op)), now),
       live := Some(Applied(sys.live.value, op)),
       log := sys.log + [Entry(Record(op), true)],
       durable := if s.wal.financial then |sys.log| + 1 else b.durable,
       acks := sys.acks + [Record(op)])
  }

  /** The state in which the crash strikes. */
  function Struck(s: Setup, sys: System, inFlight: Option<Op>, now: int): System {
    if inFlight.Some? && Writes(s, sys, inFlight.value) then Begun(s, sys, inFlight.value, now) else sys
  }

  /** Calls come while the process is up, with recordable contents and a fresh id; a crash keeps a prefix
      of the file no shorter than its durable part; restart follows a crash. */
  predicate Enabled(s: Setup, sys: System, ev: Event) {
    match ev
    case Call(op, _) => sys.live.Some? && Recordable(s.codec, Record(op)) && FreshOp(sys.live.value, op)
    case Crash(inFlight, now, kept, _) =>
      && (inFlight.Some? ==>
            Recordable(s.codec, Record(inFlight.value)) && sys.live.Some? && FreshOp(sys.live.value, inFlight.value))
      && Struck(s, sys, inFlight, now).disk.synced <= kept <= |Struck(s, sys, inFlight, now).disk.active|
    case Restart => sys.live.None?
  }

  function Step(s: Setup, sys: System, ev: Event): System
    requires Enabled(s, sys, ev)
  {
    match ev
    case Call(op, now) => if Writes(s, sys, op) then Done(s, sys, op, now) else sys
    case Crash(inFlight, now, kept, lockLeft) =>
      var b := Struck(s, sys, inFlight, now);
      b.(disk := b.disk.(active := b.disk.active[..kept], lockFile := lockLeft), live := None,
         crashes := b.crashes + 1)
    case Restart =>
      var payloads := W.Scan(sys.disk.active);
      var n := if sys.segment + |payloads| <= |sys.log| then sys.segment + |payloads| else |sys.log|;
      sys.(disk := Truncated(sys.disk.(lockFile := false)),
           live := Some(Replay(s.codec, payloads)),
           past := if sys.segment <= |sys.log| then sys.past + sys.log[..sys.segment] else sys.past,
           log := if sys.segment <= n then sys.log[sys.segment..n] else [],
           segment := 0,
           durable := if sys.segment <= sys.durable then sys.durable - sys.segment else 0)
  }

  // ---------- The invariant ----------

  /** The file holds the records of the log from `segment` on, up to a torn tail while the process is down;
      the durable part of the file is the records before `durable`. */
  ghost predicate FileOk(c: Codec, disk: Disk, log: seq<Entry>, segment: nat, durable: nat, up: bool) {
    && segment <= durable <= |log|
    && AllWritten(c, log)
    && W.Encodable(Payloads(c, log[segment..]))
    && W.Encodable(Payloads(c, log[segment..durable]))
    && disk.synced == |W.Stream(Payloads(c, log[segment..durable]))|
    && disk.synced <= |disk.active|
    && disk.active <= W.Stream(Payloads(c, log[segment..]))
    && (up ==> |disk.active| == |W.Stream(Payloads(c, log[segment..]))| && !disk.lockFile)
  }

  predicate LiveOk(q: QueueState, log: seq<Entry>) {
    && Plainly(q.pending) == PendingOf(log) && q.recovered <= q.pending.Keys
    && q.totalEnqueued == Enqueues(log) && q.totalFinished == Finishes(log)
  }

  /** At every point of the log at most `max` tasks are pending. */
  predicate Capped(max: nat, log: seq<Entry>) {
    forall i :: 0 <= i <= |log| ==> |PendingOf(log[..i])| <= max
  }

  predicate NoneAcked(log: seq<Entry>) {
    forall i :: 0 <= i < |log| ==> !log[i].acked
  }

  /** In financial mode the returned records of the active segment are exactly the acknowledged operations
      since the last rotation, all of them durable; and there is at most one record per crash that was
      never acknowledged. */
  predicate AckOk(financial: bool, log: seq<Entry>, segment: nat, durable: nat,
                  acks: seq<Envelope>, archived: nat, crashes: nat) {
    && segment <= durable <= |log| && archived <= |acks|
    && (financial ==> Acked(log[segment..]) == acks[archived..] && NoneAcked(log[durable..]))
    && Unacked(log) <= crashes
  }

  ghost predicate Inv(s: Setup, sys: System) {
    && FileOk(s.codec, sys.disk, sys.log, sys.segment, sys.durable, sys.live.Some?)
    && (sys.live.Some? ==> LiveOk(sys.live.value, sys.log))
    && FreshIds(sys.log) && Capped(s.maxPending, sys.log)
    && AckOk(s.wal.financial, sys.log, sys.segment, sys.durable, sys.acks, sys.archived, sys.crashes)
  }

  // ---------- The file ----------

  lemma PayloadsSnoc(c: Codec, log: seq<Entry>, e: Entry)
    requires W.Encodable(Payloads(c, log)) && |Payload(c, e.record)| < W.LENGTH_LIMIT
    ensures Payloads(c, log + [e]) == Payloads(c, log) + [Payload(c, e.record)]
    ensures W.Encodable(Payloads(c, log + [e]))
    ensures W.Stream(Payloads(c, log + [e])) == W.Stream(Payloads(c, log)) + W.Encode(Payload(c, e.record))
  {
    hide Payload, W.Stream, W.Encode;
    W.StreamOne(Payload(c, e.record));
    W.StreamSplit(Payloads(c, log), [Payload(c, e.record)]);
    assert Payloads(c, log + [e]) == Payloads(c, log) + [Payload(c, e.record)];
  }

  lemma EmptyStream(c: Codec)
    ensures Payloads(c, []) == [] && W.Encodable([]) && W.Stream([]) == []
  {}

  /** A record written at the end of the file, not yet synced. */
  lemma WriteKeepsFile(c: Codec, disk: Disk, log: seq<Entry>, segment: nat, durable: nat, e: Entry)
    requires FileOk(c, disk, log, segment, durable, true) && Written(c, e.record)
    ensures FileOk(c, disk.(active := disk.active + W.Encode(Payload(c, e.record))), log + [e], segment, durable, true)
  {
    hide Written, W.Stream, W.Encode, Payload, Payloads;
    assert (log + [e])[segment..] == log[segment..] + [e];
    assert (log + [e])[segment..durable] == log[segment..durable];
    WrittenIsShort(c, e.record);
    PayloadsSnoc(c, log[segment..], e);
  }

  lemma WrittenIsShort(c: Codec, e: Envelope)
    requires Written(c, e)
    ensures |Payload(c, e)| < W.LENGTH_LIMIT
  {}

  lemma RotateKeepsFile(c: Codec, disk: Disk, log: seq<Entry>, segment: nat, durable: nat, now: int)
    requires FileOk(c, disk, log, segment, durable, true)
    ensures FileOk(c, Rotated(disk, now), log, |log|, |log|, true)
  {
    hide Written, W.Stream, Payload;
    assert log[|log|..] == [] && log[|log|..|log|] == [];
    EmptyStream(c);
  }

  lemma SyncKeepsFile(c: Codec, disk: Disk, log: seq<Entry>, segment: nat, durable: nat)
    requires FileOk(c, disk, log, segment, durable, true)
    ensures FileOk(c, disk.(synced := |disk.active|), log, segment, |log|, true)
  {
    hide Written, W.Stream, Payloads;
    assert log[segment..|log|] == log[segment..];
  }

  /** Marking a record as acknowledged changes nothing on disk. */
  lemma AckKeepsFile(c: Codec, disk: Disk, log: seq<Entry>, log': seq<Entry>, segment: nat, durable: nat, up: bool)
    requires FileOk(c, disk, log, segment, durable, up)
    requires |log'| == |log| && forall i :: 0 <= i < |log| ==> log'[i].record == log[i].record
    ensures FileOk(c, disk, log', segment, durable, up)
  {
    hide Written, W.Stream, Payload;
    assert Payloads(c, log'[segment..]) == Payloads(c, log[segment..]);
    assert Payloads(c, log'[segment..durable]) == Payloads(c, log[segment..durable]);
    forall i | 0 <= i < |log'|
      ensures Written(c, log'[i].record)
    {
      assert Written(c, log[i].record);
    }
  }

  lemma CutKeepsFile(c: Codec, disk: Disk, log: seq<Entry>, segment: nat, durable: nat, up: bool, kept: nat, lockLeft: bool)
    requires FileOk(c, disk, log, segment, durable, up) && disk.synced <= kept <= |disk.active|
    ensures FileOk(c, disk.(active := disk.active[..kept], lockFile := lockLeft), log, segment, durable, false)
  {
    hide Written, W.Stream, Payloads;
  }

  /** The records a restart finds: a window of the log that starts with the active file
      and covers everything durable. */
  lemma RestartWindow(c: Codec, disk: Disk, log: seq<Entry>, segment: nat, durable: nat) returns (n: nat)
    requires FileOk(c, disk, log, segment, durable, false)
    ensures durable <= n <= |log|
    ensures W.Scan(disk.active) == Payloads(c, log[segment..n])
    ensures disk.synced <= |W.Stream(W.Scan(disk.active))|
  {
    hide Written, W.Stream, W.Scan, Payload;
    var all := Payloads(c, log[segment..]);
    var k := |disk.active|;
    assert disk.active == W.Stream(all)[..k];
    var m := W.ScanOfPrefix(all, k);
    n := segment + m;
    assert all[..m] == Payloads(c, log[segment..n]);
    var d := durable - segment;
    assert all[..d] == Payloads(c, log[segment..durable]);
    if m < d {
      StreamMonotone(all, m + 1, d);
      assert false;
    }
    StreamMonotone(all, d, m);
  }

  lemma StreamMonotone(ps: seq<Bytes>, i: nat, j: nat)
    requires W.Encodable(ps) && i <= j <= |ps|
    ensures |W.Stream(ps[..i])| <= |W.Stream(ps[..j])|
  {
    hide W.Stream;
    assert ps[..j] == ps[..i] + ps[i..j];
    W.StreamSplit(ps[..i], ps[i..j]);
  }

  lemma TruncatedFile(d: Disk)
    requires d.synced <= |W.Stream(W.Scan(d.active))|
    ensures var t := Truncated(d.(lockFile := false));
      && t.active == W.Stream(W.Scan(d.active)) && t.synced == d.synced && !t.lockFile
  {
    hide W.Stream, W.Scan;
    W.ScanTiles(d.active);
    assert d.active[..|d.active|] == d.active;
  }

  lemma RestartKeepsFile(c: Codec, disk: Disk, log: seq<Entry>, segment: nat, durable: nat, n: nat)
    requires FileOk(c, disk, log, segment, durable, false) && durable <= n <= |log|
    requires W.Scan(disk.active) == Payloads(c, log[segment..n])
    requires disk.synced <= |W.Stream(W.Scan(disk.active))|
    ensures FileOk(c, Truncated(disk.(lockFile := false)), log[segment..n], 0, durable - segment, true)
  {
    hide AllWritten, W.Stream, W.Scan, Payloads, Truncated;
    TruncatedFile(disk);
    WrittenWindow(c, log, segment, n);
    var log' := log[segment..n];
    assert log'[0..] == log' && log'[0..durable - segment] == log[segment..durable];
    assert W.Encodable(W.Scan(disk.active));
  }

  // ---------- Pending tasks ----------

  lemma CappedWhole(max: nat, log: seq<Entry>)
    requires Capped(max, log)
    ensures |PendingOf(log)| <= max
  {
    hide PendingOf;
    assert log[..|log|] == log;
  }

  lemma CappedSnoc(max: nat, log: seq<Entry>, e: Entry)
    requires Capped(max, log) && |PendingOf(log + [e])| <= max
    ensures Capped(max, log + [e])
  {
    hide PendingOf;
    var log' := log + [e];
    assert log'[..|log'|] == log';
    forall i | 0 <= i <= |log'|
      ensures |PendingOf(log'[..i])| <= max
    {
      if i <= |log| { assert log'[..i] == log[..i]; }
    }
  }

  lemma EffectSize(log: seq<Entry>, e: Entry, max: nat)
    requires |PendingOf(log)| <= max
    requires e.record.EnqueueOp? ==> |PendingOf(log)| < max
    ensures |PendingOf(log + [e])| <= max
  {
    Snoc(log, e);
    var p, id := PendingOf(log), e.record.taskId;
    if e.record.EnqueueOp? {
      assert PendingOf(log + [e]).Keys == p.Keys + {id};
    } else {
      assert PendingOf(log + [e]).Keys == p.Keys - {id};
    }
  }

  lemma PlainlyKeys(p: Pending)
    ensures Plainly(p).Keys == p.Keys && |Plainly(p)| == |p|
  {
    assert |Plainly(p)| == |Plainly(p).Keys| && |p| == |p.Keys|;
  }

  /** What the log tells of an operation is what the operation does to the live map, undefined parts aside. */
  lemma PlainlyApplied(q: QueueState, op: Op)
    ensures Plainly(Applied(q, op).pending) == Effect(Plainly(q.pending), Record(op))
  {
    hide Dropped;
  }

  /** The tasks a log tells of have no undefined parts. */
  lemma {:induction false} PendingPlain(c: Codec, log: seq<Entry>)
    requires AllWritten(c, log)
    ensures Plainly(PendingOf(log)) == PendingOf(log)
    decreases |log|
  {
    hide Dropped;
    if |log| > 0 {
      var init, e := log[..|log| - 1], log[|log| - 1].record;
      PendingPlain(c, init);
      assert Written(c, e);
    }
  }

  lemma WriteKeepsPending(max: nat, q: QueueState, log: seq<Entry>, op: Op, acked: bool)
    requires FreshIds(log) && Capped(max, log) && LiveOk(q, log) && Admitted(max, q, op) && FreshOp(q, op)
    ensures var log' := log + [Entry(Record(op), acked)];
      FreshIds(log') && Capped(max, log') && LiveOk(Applied(q, op), log')
  {
    var e := Entry(Record(op), acked);
    hide Capped, Plainly, Dropped, Effect;
    Snoc(log, e);
    CappedWhole(max, log);
    PlainlyKeys(q.pending);
    EffectSize(log, e, max);
    CappedSnoc(max, log, e);
    PlainlyApplied(q, op);
  }

  lemma {:induction false} FreshSuffix(a: seq<Entry>, b: seq<Entry>)
    requires FreshIds(a + b)
    ensures FreshIds(b)
    decreases |b|
  {
    if |b| > 0 {
      var init := b[..|b| - 1];
      assert (a + b)[..|a + b| - 1] == a + init;
      FreshSuffix(a, init);
      SuffixPending(a, init);
    }
  }

  lemma {:induction false} FreshPrefix(a: seq<Entry>, b: seq<Entry>)
    requires FreshIds(a + b)
    ensures FreshIds(a)
    decreases |b|
  {
    if |b| == 0 {
      assert a + b == a;
    } else {
      assert (a + b)[..|a + b| - 1] == a + b[..|b| - 1];
      FreshPrefix(a, b[..|b| - 1]);
    }
  }

  lemma WindowKeepsPending(max: nat, log: seq<Entry>, from: nat, to: nat)
    requires FreshIds(log) && Capped(max, log) && from <= to <= |log|
    ensures FreshIds(log[from..to]) && Capped(max, log[from..to])
  {
    hide PendingOf, FreshIds;
    var log' := log[from..to];
    assert log == log[..to] + log[to..] && log[..to] == log[..from] + log';
    FreshPrefix(log[..to], log[to..]);
    FreshSuffix(log[..from], log');
    forall i | 0 <= i <= |log'|
      ensures |PendingOf(log'[..i])| <= max
    {
      assert log[..from + i] == log[..from] + log'[..i];
      SuffixIsRestriction(log[..from], log'[..i]);
    }
  }

  // ---------- Acknowledgements ----------

  lemma OneAcked(e: Entry)
    ensures Acked([e]) == (if e.acked then [e.record] else []) && Unacked([e]) == (if e.acked then 0 else 1)
  {
    assert [e][..0] == [];
  }

  lemma RotateKeepsAcks(financial: bool, log: seq<Entry>, segment: nat, durable: nat,
                        acks: seq<Envelope>, archived: nat, crashes: nat)
    requires AckOk(financial, log, segment, durable, acks, archived, crashes)
    ensures AckOk(financial, log, |log|, |log|, acks, |acks|, crashes)
  {
    assert log[|log|..] == [];
  }

  /** A record that will never be acknowledged: its operation is struck by a crash. */
  lemma StruckKeepsAcks(financial: bool, log: seq<Entry>, segment: nat, durable: nat,
                        acks: seq<Envelope>, archived: nat, crashes: nat, e: Entry)
    requires AckOk(financial, log, segment, durable, acks, archived, crashes) && !e.acked
    ensures AckOk(financial, log + [e], segment, durable, acks, archived, crashes + 1)
  {
    hide Acked, Unacked;
    OneAcked(e);
    AckedSplit(log, [e]);
    AckedSplit(log[segment..], [e]);
    assert (log + [e])[segment..] == log[segment..] + [e];
    assert (log + [e])[durable..] == log[durable..] + [e];
    assert Acked(log[segment..]) + [] == Acked(log[segment..]);
  }

  lemma ReturnKeepsAcks(financial: bool, log: seq<Entry>, segment: nat, durable: nat,
                        acks: seq<Envelope>, archived: nat, crashes: nat, e: Entry)
    requires AckOk(financial, log, segment, durable, acks, archived, crashes) && e.acked
    ensures AckOk(financial, log + [e], segment, if financial then |log| + 1 else durable,
                  acks + [e.record], archived, crashes)
  {
    hide Acked, Unacked;
    OneAcked(e);
    AckedSplit(log, [e]);
    AckedSplit(log[segment..], [e]);
    assert (log + [e])[segment..] == log[segment..] + [e];
    assert (log + [e])[|log| + 1..] == [];
    assert (acks + [e.record])[archived..] == acks[archived..] + [e.record];
  }

  lemma RestartKeepsAcks(financial: bool, log: seq<Entry>, segment: nat, durable: nat,
                         acks: seq<Envelope>, archived: nat, crashes: nat, n: nat)
    requires AckOk(financial, log, segment, durable, acks, archived, crashes) && durable <= n <= |log|
    ensures AckOk(financial, log[segment..n], 0, durable - segment, acks, archived, crashes)
  {
    hide Acked, Unacked;
    var window, rest := log[segment..n], log[n..];
    assert log[segment..] == window + rest && log == log[..segment] + log[segment..];
    AckedSplit(window, rest);
    AckedSplit(log[..segment], log[segment..]);
    assert window[0..] == window;
    if financial {
      assert NoneAcked(rest) by { assert forall i :: 0 <= i < |rest| ==> rest[i] == log[durable..][n - durable + i]; }
      NothingAcked(rest);
      assert Acked(window) + [] == Acked(window);
      assert forall i :: 0 <= i < |window[durable - segment..]| ==> window[durable - segment..][i] == log[durable..][i];
    }
  }

  lemma {:induction false} NothingAcked(log: seq<Entry>)
    requires NoneAcked(log)
    ensures Acked(log) == []
    decreases |log|
  {
    if |log| > 0 { NothingAcked(log[..|log| - 1]); }
  }

  // ---------- Each event keeps the invariant ----------

  lemma BegunKeeps(s: Setup, sys: System, op: Op, now: int)
    requires Inv(s, sys) && Writes(s, sys, op) && Recordable(s.codec, Record(op)) && FreshOp(sys.live.value, op)
    ensures var b := Begun(s, sys, op, now);
      && FileOk(s.codec, b.disk, b.log, b.segment, b.durable, true)
      && FreshIds(b.log) && Capped(s.maxPending, b.log)
      && AckOk(s.wal.financial, b.log, b.segment, b.durable, b.acks, b.archived, b.crashes + 1)
    ensures var log' := sys.log + [Entry(Record(op), true)];
      FreshIds(log') && Capped(s.maxPending, log') && LiveOk(Applied(sys.live.value, op), log')
  {
    hide FileOk, AckOk, Capped, FreshIds, LiveOk, W.Encode;
    var payload := Payload(s.codec, Record(op));
    var e := Entry(Record(op), false);
    WriteKeepsPending(s.maxPending, sys.live.value, sys.log, op, false);
    WriteKeepsPending(s.maxPending, sys.live.value, sys.log, op, true);
    if MustRotate(s.wal, sys.disk, |payload| + 8) {
      var n := |sys.log|;
      RotateKeepsFile(s.codec, sys.disk, sys.log, sys.segment, sys.durable, now);
      WriteKeepsFile(s.codec, Rotated(sys.disk, now), sys.log, n, n, e);
      RotateKeepsAcks(s.wal.financial, sys.log, sys.segment, sys.durable, sys.acks, sys.archived, sys.crashes);
      StruckKeepsAcks(s.wal.financial, sys.log, n, n, sys.acks, |sys.acks|, sys.crashes, e);
    } else {
      WriteKeepsFile(s.codec, sys.disk, sys.log, sys.segment, sys.durable, e);
      StruckKeepsAcks(s.wal.financial, sys.log, sys.segment, sys.durable, sys.acks, sys.archived, sys.crashes, e);
    }
  }

  lemma DoneKeepsAcks(s: Setup, sys: System, op: Op, now: int)
    requires Inv(s, sys) && Writes(s, sys, op)
    ensures var d := Done(s, sys, op, now);
      AckOk(s.wal.financial, d.log, d.segment, d.durable, d.acks, d.archived, d.crashes)
  {
    hide FileOk, AckOk, Capped, FreshIds, LiveOk, W.Encode;
    var payload := Payload(s.codec, Record(op));
    var e := Entry(Record(op), true);
    var n := |sys.log|;
    if MustRotate(s.wal, sys.disk, |payload| + 8) {
      RotateKeepsAcks(s.wal.financial, sys.log, sys.segment, sys.durable, sys.acks, sys.archived, sys.crashes);
      ReturnKeepsAcks(s.wal.financial, sys.log, n, n, sys.acks, |sys.acks|, sys.crashes, e);
    } else {
      ReturnKeepsAcks(s.wal.financial, sys.log, sys.segment, sys.durable, sys.acks, sys.archived, sys.crashes, e);
    }
  }

  lemma DoneKeepsFile(s: Setup, sys: System, op: Op, now: int)
    requires Writes(s, sys, op)
    requires var b := Begun(s, sys, op, now); FileOk(s.codec, b.disk, b.log, b.segment, b.durable, true)
    ensures var d := Done(s, sys, op, now); FileOk(s.codec, d.disk, d.log, d.segment, d.durable, true)
  {
    hide FileOk, W.Encode, Payload, PendingOf;
    var b, d := Begun(s, sys, op, now), Done(s, sys, op, now);
    AckKeepsFile(s.codec, b.disk, b.log, d.log, b.segment, b.durable, true);
    if s.wal.financial {
      SyncKeepsFile(s.codec, b.disk, d.log, b.segment, b.durable);
    }
  }

  lemma CallKeeps(s: Setup, sys: System, op: Op, now: int)
    requires Inv(s, sys) && Enabled(s, sys, Call(op, now))
    ensures Inv(s, Step(s, sys, Call(op, now)))
  {
    if Writes(s, sys, op) {
      BegunKeeps(s, sys, op, now);
      DoneKeepsFile(s, sys, op, now);
      DoneKeepsAcks(s, sys, op, now);
      hide FileOk, AckOk, Capped, FreshIds, LiveOk, Writes, Appended, Begun, Applied;
    }
  }

  function Down(b: System, kept: nat, lockLeft: bool): System
    requires kept <= |b.disk.active|
  {
    b.(disk := b.disk.(active := b.disk.active[..kept], lockFile := lockLeft), live := None, crashes := b.crashes + 1)
  }

  lemma DownKeeps(s: Setup, b: System, up: bool, kept: nat, lockLeft: bool)
    requires FileOk(s.codec, b.disk, b.log, b.segment, b.durable, up)
    requires FreshIds(b.log) && Capped(s.maxPending, b.log)
    requires AckOk(s.wal.financial, b.log, b.segment, b.durable, b.acks, b.archived, b.crashes + 1)
    requires b.disk.synced <= kept <= |b.disk.active|
    ensures Inv(s, Down(b, kept, lockLeft))
  {
    hide FileOk, AckOk, Capped, FreshIds;
    CutKeepsFile(s.codec, b.disk, b.log, b.segment, b.durable, up, kept, lockLeft);
  }

  lemma CrashKeeps(s: Setup, sys: System, inFlight: Option<Op>, now: int, kept: nat, lockLeft: bool)
    requires Inv(s, sys) && Enabled(s, sys, Crash(inFlight, now, kept, lockLeft))
    ensures Inv(s, Step(s, sys, Crash(inFlight, now, kept, lockLeft)))
  {
    hide FileOk, Capped, FreshIds, LiveOk, Begun, Writes, Unacked, Acked, Recordable;
    var b := Struck(s, sys, inFlight, now);
    if inFlight.Some? && Writes(s, sys, inFlight.value) {
      BegunKeeps(s, sys, inFlight.value, now);
      DownKeeps(s, b, true, kept, lockLeft);
    } else {
      DownKeeps(s, b, sys.live.Some?, kept, lockLeft);
    }
    assert Step(s, sys, Crash(inFlight, now, kept, lockLeft)) == Down(b, kept, lockLeft);
  }

  lemma RestartFields(s: Setup, sys: System, n: nat)
    requires sys.live.None? && sys.segment <= sys.durable <= n <= |sys.log|
    requires W.Scan(sys.disk.active) == Payloads(s.codec, sys.log[sys.segment..n])
    ensures Step(s, sys, Restart) ==
      System(Truncated(sys.disk.(lockFile := false)), Some(Replay(s.codec, Payloads(s.codec, sys.log[sys.segment..n]))),
             sys.past + sys.log[..sys.segment], sys.log[sys.segment..n], 0, sys.durable - sys.segment, sys.acks, sys.archived, sys.crashes)
  {
    hide Truncated, Replay, W.Scan, Payload;
  }

  /** A restart replays a window of the log that covers everything durable. */
  lemma RestartReplays(s: Setup, sys: System) returns (n: nat)
    requires Faithful(s.codec) && Inv(s, sys) && sys.live.None?
    ensures sys.durable <= n <= |sys.log|
    ensures var sys' := Step(s, sys, Restart);
      && Inv(s, sys') && sys'.live.Some?
      && sys'.log == sys.log[sys.segment..n] && sys'.past == sys.past + sys.log[..sys.segment] && sys'.segment == 0
      && sys'.acks == sys.acks
      && sys'.live.value.pending == PendingOf(sys'.log)
      && sys'.live.value.recovered == sys'.live.value.pending.Keys
  {
    hide Step, AckOk, Capped, FreshIds, PendingOf, Enqueues, Finishes, Replay, Truncated, Faithful,
      W.Scan, W.Stream, Payloads, Written;
    n := RestartWindow(s.codec, sys.disk, sys.log, sys.segment, sys.durable);
    RestartKeepsFile(s.codec, sys.disk, sys.log, sys.segment, sys.durable, n);
    WindowKeepsPending(s.maxPending, sys.log, sys.segment, n);
    RestartKeepsAcks(s.wal.financial, sys.log, sys.segment, sys.durable, sys.acks, sys.archived, sys.crashes, n);
    WrittenWindow(s.codec, sys.log, sys.segment, n);
    ReplayOfLog(s.codec, sys.log[sys.segment..n]);
    PendingPlain(s.codec, sys.log[sys.segment..n]);
    RestartFields(s, sys, n);
    hide FileOk;
  }

  lemma WrittenWindow(c: Codec, log: seq<Entry>, from: nat, to: nat)
    requires AllWritten(c, log) && from <= to <= |log|
    ensures AllWritten(c, log[from..to])
  {
    hide Written;
  }

  // ---------- Whole runs ----------

  predicate RunEnabled(s: Setup, sys: System, run: seq<Event>)
    decreases |run|
  {
    |run| == 0 || (Enabled(s, sys, run[0]) && RunEnabled(s, Step(s, sys, run[0]), run[1..]))
  }

  function After(s: Setup, sys: System, run: seq<Event>): System
    requires RunEnabled(s, sys, run)
    decreases |run|
  {
    if |run| == 0 then sys else After(s, Step(s, sys, run[0]), run[1..])
  }

  lemma StepKeeps(s: Setup, sys: System, ev: Event)
    requires Faithful(s.codec) && Inv(s, sys) && Enabled(s, sys, ev)
    ensures Inv(s, Step(s, sys, ev))
  {
    hide Inv, Step, Enabled;
    match ev {
      case Call(op, now) => CallKeeps(s, sys, op, now);
      case Crash(inFlight, now, kept, lockLeft) => CrashKeeps(s, sys, inFlight, now, kept, lockLeft);
      case Restart =>
        RestartIsDown(s, sys);
        var _ := RestartReplays(s, sys);
    }
  }

  lemma RestartIsDown(s: Setup, sys: System)
    requires Enabled(s, sys, Restart)
    ensures sys.live.None?
  {}

  lemma {:induction false} RunKeeps(s: Setup, sys: System, run: seq<Event>)
    requires Faithful(s.codec) && Inv(s, sys) && RunEnabled(s, sys, run)
    ensures Inv(s, After(s, sys, run))
    decreases |run|
  {
    hide Inv, Step, Enabled;
    if |run| > 0 {
      StepKeeps(s, sys, run[0]);
      RunKeeps(s, Step(s, sys, run[0]), run[1..]);
    }
  }

  lemma FreshStartOk(s: Setup)
    ensures Inv(s, FRESH_START)
  {
    EmptyStream(s.codec);
    assert FRESH_START.log[0..] == [] && FRESH_START.log[0..0] == [];
  }

  /** What a restart of a system that is down brings back. */
  ghost predicate Refines(s: Setup, down: System, up: System, n: nat) {
    && down.segment <= down.durable <= n <= |down.log| && up.live.Some?
    && up.live.value.pending == Restrict(PendingOf(down.log[..n]), EnqueuedIds(down.log[down.segment..n]))
    && (down.segment == 0 ==> up.live.value.pending == PendingOf(down.log[..n]))
    && (s.wal.financial ==> NoneAcked(down.log[n..]))
  }

  lemma WindowRefines(s: Setup, down: System, up: System, n: nat)
    requires down.segment <= down.durable <= n <= |down.log| && up.live.Some?
    requires up.live.value.pending == PendingOf(down.log[down.segment..n])
    requires s.wal.financial ==> NoneAcked(down.log[down.durable..])
    ensures Refines(s, down, up, n)
  {
    hide PendingOf, EnqueuedIds;
    var log, k := down.log, down.segment;
    assert log[..n] == log[..k] + log[k..n];
    SuffixIsRestriction(log[..k], log[k..n]);
    assert k == 0 ==> log[k..n] == log[..n];
    assert forall i :: 0 <= i < |log[n..]| ==> log[n..][i] == log[down.durable..][n - down.durable + i];
  }

  /**
    Crash recovery refines the live queue.  In any run from a fresh start, after any crash, the restarted
    process holds exactly the tasks pending after some point n of the operations written so far, restricted
    to tasks enqueued in the active segment; the point is no earlier than everything synced, and in
    financial mode no operation that had returned lies after it.
  */
  lemma RestartRefines(s: Setup, run: seq<Event>) returns (n: nat)
    requires Faithful(s.codec) && RunEnabled(s, FRESH_START, run)
    requires After(s, FRESH_START, run).live.None?
    ensures var down := After(s, FRESH_START, run); Refines(s, down, Step(s, down, Restart), n)
  {
    hide Inv, Step, Faithful, After, Refines, RunEnabled;
    FreshStartOk(s);
    RunKeeps(s, FRESH_START, run);
    var down := After(s, FRESH_START, run);
    n := RestartReplays(s, down);
    InvAcks(s, down);
    WindowRefines(s, down, Step(s, down, Restart), n);
  }

  lemma RestrictAll(p: Pending, ids: set<string>)
    ensures Restrict(p, ids) == p <==> p.Keys <= ids
  {
    if p.Keys <= ids { assert Restrict(p, ids) == p; }
    if Restrict(p, ids) == p { assert p.Keys == Restrict(p, ids).Keys; }
  }

  /** A restart brings back everything pending at that point exactly when all of it was enqueued in the
      active segment. */
  lemma RestartRestoresAllIff(s: Setup, run: seq<Event>) returns (n: nat)
    requires Faithful(s.codec) && RunEnabled(s, FRESH_START, run)
    requires After(s, FRESH_START, run).live.None?
    ensures var down := After(s, FRESH_START, run);
      var up := Step(s, down, Restart);
      && Refines(s, down, up, n)
      && (up.live.value.pending == PendingOf(down.log[..n])
          <==> PendingOf(down.log[..n]).Keys <= EnqueuedIds(down.log[down.segment..n]))
  {
    hide Step, Faithful, After, RunEnabled, PendingOf, EnqueuedIds, Restrict, NoneAcked;
    n := RestartRefines(s, run);
    var down := After(s, FRESH_START, run);
    RestrictAll(PendingOf(down.log[..n]), EnqueuedIds(down.log[down.segment..n]));
  }

  lemma InvAcks(s: Setup, sys: System)
    requires Inv(s, sys)
    ensures sys.segment <= sys.durable <= |sys.log|
    ensures s.wal.financial ==> NoneAcked(sys.log[sys.durable..])
  {}

  /**
    In financial mode no acknowledged operation is ever lost while it stands in the active segment: at any
    time, after any crashes, the queue is the outcome of a log whose acknowledged records are exactly the
    operations that returned since the last rotation, and which holds at most one other record per crash.
  */
  lemma AcknowledgedSurvives(s: Setup, run: seq<Event>)
    requires Faithful(s.codec) && s.wal.financial && RunEnabled(s, FRESH_START, run)
    requires After(s, FRESH_START, run).live.Some?
    ensures var up := After(s, FRESH_START, run);
      && Plainly(up.live.value.pending) == PendingOf(up.log)
      && up.segment <= |up.log| && up.archived <= |up.acks|
      && Acked(up.log[up.segment..]) == up.acks[up.archived..]
      && Unacked(up.log) <= up.crashes
  {
    FreshStartOk(s);
    RunKeeps(s, FRESH_START, run);
  }

  /** A run rotates when some write of it moves the active file aside. */
  predicate Rotates(s: Setup, sys: System, run: seq<Event>)
    requires RunEnabled(s, sys, run)
    decreases |run|
  {
    |run| > 0 &&
    (Step(s, sys, run[0]).archived != sys.archived || Step(s, sys, run[0]).segment != 0
     || Rotates(s, Step(s, sys, run[0]), run[1..]))
  }

  lemma {:induction false} NoRotation(s: Setup, sys: System, run: seq<Event>)
    requires RunEnabled(s, sys, run) && !Rotates(s, sys, run) && sys.segment == 0 && sys.archived == 0
    ensures After(s, sys, run).segment == 0 && After(s, sys, run).archived == 0
    decreases |run|
  {
    hide Step, Enabled;
    if |run| > 0 {
      NoRotation(s, Step(s, sys, run[0]), run[1..]);
    }
  }

  /** Without rotation: the acknowledged records of the log are all the operations that ever returned. */
  lemma NothingLostWithoutRotation(s: Setup, run: seq<Event>)
    requires Faithful(s.codec) && s.wal.financial && RunEnabled(s, FRESH_START, run)
    requires !Rotates(s, FRESH_START, run) && After(s, FRESH_START, run).live.Some?
    ensures var up := After(s, FRESH_START, run);
      Plainly(up.live.value.pending) == PendingOf(up.log) && Acked(up.log) == up.acks && Unacked(up.log) <= up.crashes
  {
    AcknowledgedSurvives(s, run);
    NoRotation(s, FRESH_START, run);
    var up := After(s, FRESH_START, run);
    assert up.log[0..] == up.log && up.acks[0..] == up.acks;
  }

  lemma LiveFacts(s: Setup, sys: System)
    requires Inv(s, sys) && sys.live.Some?
    ensures var q := sys.live.value;
      && |q.pending| == |PendingOf(sys.log)| <= s.maxPending && q.recovered <= q.pending.Keys
      && q.pending.Keys == PendingOf(sys.log).Keys
      && q.totalEnqueued == Enqueues(sys.log) && q.totalFinished == Finishes(sys.log)
    ensures FreshIds(sys.log)
  {
    hide FileOk, AckOk, Capped, FreshIds, PendingOf, Enqueues, Finishes, Plainly;
    PlainlyKeys(sys.live.value.pending);
    CappedWhole(s.maxPending, sys.log);
  }

  /** The pending tasks never exceed the fixed maximum, across any crashes, restarts and rotations,
      and the recovered ids are always among them. */
  lemma PendingBounded(s: Setup, run: seq<Event>)
    requires Faithful(s.codec) && RunEnabled(s, FRESH_START, run) && After(s, FRESH_START, run).live.Some?
    ensures var q := After(s, FRESH_START, run).live.value;
      |q.pending| <= s.maxPending && q.recovered <= q.pending.Keys
  {
    hide Inv, After, RunEnabled, Faithful;
    FreshStartOk(s);
    RunKeeps(s, FRESH_START, run);
    LiveFacts(s, After(s, FRESH_START, run));
  }

  // ---------- Conservation over runs ----------

  /** Every finish record follows an enqueue of its task. */
  predicate Rooted(log: seq<Entry>) {
    forall i :: 0 <= i < |log| && log[i].record.FinishOp? ==> log[i].record.taskId in EnqueuedIds(log[..i])
  }

  /** A finish record follows an enqueue of its task only while the task is pending. */
  predicate Targeted(log: seq<Entry>) {
    forall i :: 0 <= i < |log| ==> Targets(log[..i], log[i].record)
  }

  predicate Targets(log: seq<Entry>, e: Envelope) {
    e.FinishOp? && e.taskId in EnqueuedIds(log) ==> e.taskId in PendingOf(log)
  }

  lemma PendingIsEnqueued(log: seq<Entry>, id: string)
    requires id in PendingOf(log)
    ensures id in EnqueuedIds(log)
  {
    SuffixPending([], log);
  }

  /** The orphans of such a log are the finish records that follow no enqueue of their task. */
  lemma {:induction false} OrphansRooted(log: seq<Entry>)
    requires Targeted(log)
    ensures Orphans(log) == 0 <==> Rooted(log)
    decreases |log|
  {
    if |log| > 0 {
      var init, e := log[..|log| - 1], log[|log| - 1].record;
      assert Targets(init, e);
      hide EnqueuedIds, PendingOf;
      assert forall i :: 0 <= i < |init| ==> init[..i] == log[..i] && init[i] == log[i];
      OrphansRooted(init);
      if e.FinishOp? && e.taskId in PendingOf(init) { PendingIsEnqueued(init, e.taskId); }
    }
  }

  lemma TargetedSnoc(log: seq<Entry>, e: Entry)
    requires Targeted(log) && Targets(log, e.record)
    ensures Targeted(log + [e])
  {
    hide Targets;
    var all := log + [e];
    forall i | 0 <= i < |all|
      ensures Targets(all[..i], all[i].record)
    {
      if i < |log| { assert all[..i] == log[..i]; } else { assert all[..i] == log; }
    }
  }

  lemma TargetedWindow(log: seq<Entry>, from: nat, to: nat)
    requires Targeted(log) && from <= to <= |log|
    ensures Targeted(log[from..to])
  {
    var window := log[from..to];
    forall i | 0 <= i < |window|
      ensures Targets(window[..i], window[i].record)
    {
      assert Targets(log[..from + i], log[from + i].record);
      assert log[..from + i] == log[..from] + window[..i];
      SuffixTargets(log[..from], window[..i], window[i].record);
    }
  }

  lemma SuffixTargets(a: seq<Entry>, b: seq<Entry>, e: Envelope)
    requires Targets(a + b, e)
    ensures Targets(b, e)
  {
    SuffixPending(a, b);
    hide PendingOf;
    if e.taskId in EnqueuedIds(b) {
      var i :| 0 <= i < |b| && b[i].record.EnqueueOp? && b[i].record.taskId == e.taskId;
      assert (a + b)[|a| + i] == b[i];
    }
  }

  lemma WriteTargets(max: nat, q: QueueState, log: seq<Entry>, op: Op)
    requires q.pending.Keys == PendingOf(log).Keys && Admitted(max, q, op)
    ensures Targets(log, Record(op))
  {
    hide PendingOf, EnqueuedIds;
  }

  lemma StepTargets(s: Setup, sys: System, ev: Event)
    requires Faithful(s.codec) && Inv(s, sys) && Enabled(s, sys, ev) && Targeted(sys.log)
    ensures Targeted(Step(s, sys, ev).log)
  {
    hide Inv, Targeted, Targets, Faithful, Step, Admitted, Enabled, Refusal, PendingOf;
    if ev.Restart? {
      RestartIsDown(s, sys);
      var n := RestartReplays(s, sys);
      InvAcks(s, sys);
      TargetedWindow(sys.log, sys.segment, n);
    } else {
      LogGrows(s, sys, ev);
      if sys.live.Some? {
        LiveFacts(s, sys);
        if ev.Call? && Writes(s, sys, ev.op) {
          WriteTargets(s.maxPending, sys.live.value, sys.log, ev.op);
          TargetedSnoc(sys.log, Entry(Record(ev.op), true));
        }
        if ev.Crash? && ev.inFlight.Some? && Writes(s, sys, ev.inFlight.value) {
          WriteTargets(s.maxPending, sys.live.value, sys.log, ev.inFlight.value);
          TargetedSnoc(sys.log, Entry(Record(ev.inFlight.value), false));
        }
      }
    }
  }

  lemma {:induction false} RunTargets(s: Setup, sys: System, run: seq<Event>)
    requires Faithful(s.codec) && Inv(s, sys) && RunEnabled(s, sys, run) && Targeted(sys.log)
    ensures Targeted(After(s, sys, run).log)
    decreases |run|
  {
    hide Inv, Step, Enabled, Targeted, Faithful;
    if |run| > 0 {
      StepTargets(s, sys, run[0]);
      StepKeeps(s, sys, run[0]);
      RunTargets(s, Step(s, sys, run[0]), run[1..]);
    }
  }

  lemma NothingTargeted()
    ensures Targeted(FRESH_START.log)
  {}

  lemma Balance(s: Setup, sys: System)
    requires Inv(s, sys) && Targeted(sys.log) && sys.live.Some?
    ensures var q := sys.live.value;
      && q.totalEnqueued + Orphans(sys.log) == q.totalFinished + |q.pending|
      && (q.totalEnqueued == q.totalFinished + |q.pending| <==> Rooted(sys.log))
  {
    hide Inv, Targeted, Rooted, Orphans, PendingOf, Enqueues, Finishes, FreshIds;
    LiveFacts(s, sys);
    Bookkeeping(sys.log);
    OrphansRooted(sys.log);
  }

  /** The totals of a running process, exactly: only orphan finish records unbalance them, and there are none
      exactly when every finish record of the log follows an enqueue of its task. */
  lemma TotalsBalance(s: Setup, run: seq<Event>)
    requires Faithful(s.codec) && RunEnabled(s, FRESH_START, run) && After(s, FRESH_START, run).live.Some?
    ensures var up := After(s, FRESH_START, run);
      var q := up.live.value;
      && q.totalEnqueued + Orphans(up.log) == q.totalFinished + |q.pending|
      && (q.totalEnqueued == q.totalFinished + |q.pending| <==> Rooted(up.log))
  {
    hide Inv, After, RunEnabled, Faithful, Rooted, Orphans;
    FreshStartOk(s);
    NothingTargeted();
    RunKeeps(s, FRESH_START, run);
    RunTargets(s, FRESH_START, run);
    Balance(s, After(s, FRESH_START, run));
  }

  /** The same told of the log before a restart: the totals balance after it exactly when every finish record
      that is read back from the active segment follows an enqueue of its task in that segment. */
  lemma RestartBalances(s: Setup, run: seq<Event>) returns (n: nat)
    requires Faithful(s.codec) && RunEnabled(s, FRESH_START, run)
    requires After(s, FRESH_START, run).live.None?
    ensures var down := After(s, FRESH_START, run);
      var up := Step(s, down, Restart);
      && down.segment <= down.durable <= n <= |down.log| && up.live.Some?
      && up.live.value.pending == PendingOf(down.log[down.segment..n])
      && (up.live.value.totalEnqueued == up.live.value.totalFinished + |up.live.value.pending|
          <==> Rooted(down.log[down.segment..n]))
  {
    hide Inv, Step, Faithful, After, RunEnabled, Targeted, Rooted, PendingOf, Orphans;
    FreshStartOk(s);
    NothingTargeted();
    RunKeeps(s, FRESH_START, run);
    RunTargets(s, FRESH_START, run);
    var down := After(s, FRESH_START, run);
    n := RestartReplays(s, down);
    InvAcks(s, down);
    TargetedWindow(down.log, down.segment, n);
    Balance(s, Step(s, down, Restart));
  }

  lemma {:induction false} PrefixOrphans(a: seq<Entry>, b: seq<Entry>)
    ensures Orphans(a) <= Orphans(a + b)
    decreases |b|
  {
    if |b| == 0 {
      assert a + b == a;
    } else {
      assert (a + b)[..|a + b| - 1] == a + b[..|b| - 1];
      PrefixOrphans(a, b[..|b| - 1]);
    }
  }

  lemma WriteMakesNoOrphan(max: nat, q: QueueState, log: seq<Entry>, op: Op, acked: bool)
    requires LiveOk(q, log) && Admitted(max, q, op) && Orphans(log) == 0
    ensures Orphans(log + [Entry(Record(op), acked)]) == 0
  {
    Snoc(log, Entry(Record(op), acked));
  }

  /** How a call or a crash extends the log. */
  lemma LogGrows(s: Setup, sys: System, ev: Event)
    requires Enabled(s, sys, ev) && !ev.Restart?
    ensures var log' := Step(s, sys, ev).log;
      || log' == sys.log
      || (ev.Call? && Writes(s, sys, ev.op) && log' == sys.log + [Entry(Record(ev.op), true)])
      || (ev.Crash? && ev.inFlight.Some? && Writes(s, sys, ev.inFlight.value)
          && log' == sys.log + [Entry(Record(ev.inFlight.value), false)])
  {
    hide Writes, Recordable, FreshOp;
  }

  lemma LiveIsOk(s: Setup, sys: System)
    requires Inv(s, sys) && sys.live.Some?
    ensures LiveOk(sys.live.value, sys.log)
  {}

  lemma StepMakesNoOrphan(s: Setup, sys: System, ev: Event)
    requires Faithful(s.codec) && Inv(s, sys) && Enabled(s, sys, ev)
    requires Orphans(sys.log) == 0 && sys.segment == 0
    ensures Orphans(Step(s, sys, ev).log) == 0
  {
    hide Inv, LiveOk, Orphans, Faithful, Step, Admitted, Enabled, Refusal;
    if ev.Restart? {
      RestartIsDown(s, sys);
      var n := RestartReplays(s, sys);
      InvAcks(s, sys);
      assert sys.log == sys.log[0..n] + sys.log[n..];
      PrefixOrphans(sys.log[0..n], sys.log[n..]);
    } else {
      LogGrows(s, sys, ev);
      if sys.live.Some? {
        LiveIsOk(s, sys);
        if ev.Call? && Writes(s, sys, ev.op) {
          WriteMakesNoOrphan(s.maxPending, sys.live.value, sys.log, ev.op, true);
        }
        if ev.Crash? && ev.inFlight.Some? && Writes(s, sys, ev.inFlight.value) {
          WriteMakesNoOrphan(s.maxPending, sys.live.value, sys.log, ev.inFlight.value, false);
        }
      }
    }
  }

  lemma {:induction false} RunMakesNoOrphan(s: Setup, sys: System, run: seq<Event>)
    requires Faithful(s.codec) && Inv(s, sys) && RunEnabled(s, sys, run)
    requires Orphans(sys.log) == 0 && sys.segment == 0 && !Rotates(s, sys, run)
    ensures Orphans(After(s, sys, run).log) == 0
    decreases |run|
  {
    hide Inv, Step, Enabled, Orphans, Faithful;
    if |run| > 0 {
      StepMakesNoOrphan(s, sys, run[0]);
      StepKeeps(s, sys, run[0]);
      RunMakesNoOrphan(s, Step(s, sys, run[0]), run[1..]);
    }
  }

  /** Conservation: without rotation, enqueued equals finished plus pending at any time, across crashes. */
  lemma Conservation(s: Setup, run: seq<Event>)
    requires Faithful(s.codec) && RunEnabled(s, FRESH_START, run)
    requires !Rotates(s, FRESH_START, run) && After(s, FRESH_START, run).live.Some?
    ensures var q := After(s, FRESH_START, run).live.value;
      q.totalEnqueued == q.totalFinished + |q.pending|
  {
    FreshStartOk(s);
    RunMakesNoOrphan(s, FRESH_START, run);
    TotalsBalance(s, run);
  }

  // ---------- What rotation does to recovery ----------

  /** Stopping with nothing in flight and nothing lost. */
  function CleanStop(sys: System, now: int): Event { Crash(None, now, |sys.disk.active|, false) }

  lemma CleanStopFields(s: Setup, sys: System, now: int)
    requires Inv(s, sys) && sys.live.Some?
    ensures Enabled(s, sys, CleanStop(sys, now))
    ensures var down := Step(s, sys, CleanStop(sys, now));
      down.log == sys.log && down.segment == sys.segment && down.durable == sys.durable && down.live.None?
  {
    hide LiveOk, AckOk, Capped, FreshIds, W.Stream, Payloads, Written;
  }

  /** With everything durable, a clean stop and restart brings back what the active segment tells. */
  lemma StopAndRestart(s: Setup, sys: System, now: int)
    requires Faithful(s.codec) && Inv(s, sys) && sys.live.Some? && sys.durable == |sys.log|
    ensures Enabled(s, sys, CleanStop(sys, now))
    ensures var down := Step(s, sys, CleanStop(sys, now));
      && Enabled(s, down, Restart)
      && var up := Step(s, down, Restart);
         && sys.segment <= |sys.log| && up.live.Some?
         && up.live.value.pending == PendingOf(sys.log[sys.segment..])
         && up.live.value.totalEnqueued == Enqueues(sys.log[sys.segment..])
         && up.live.value.totalFinished == Finishes(sys.log[sys.segment..])
  {
    hide Inv, Step, Faithful, PendingOf, Enqueues, Finishes, FreshIds, CleanStop;
    CleanStopFields(s, sys, now);
    StepKeeps(s, sys, CleanStop(sys, now));
    var down := Step(s, sys, CleanStop(sys, now));
    var n := RestartReplays(s, down);
    InvAcks(s, sys);
    assert down.log[down.segment..n] == sys.log[sys.segment..];
    LiveFacts(s, Step(s, down, Restart));
  }

  /** The sizes that make two enqueues fill and rotate the file, and the finish of the first fit after them. */
  predicate SecondRotates(s: Setup, a: Op, b: Op, done: Op) {
    && a.Enqueue? && b.Enqueue? && a.id != b.id && done.Finish? && done.id == a.id
    && Written(s.codec, Record(a)) && Written(s.codec, Record(b)) && Written(s.codec, Record(done))
    && s.wal.financial && !s.wal.failRotation && s.maxPending >= 2
    && |Payload(s.codec, Record(a))| + 8 <= s.wal.maxWalBytes
    && |Payload(s.codec, Record(a))| + 8 + |Payload(s.codec, Record(b))| + 8 > s.wal.maxWalBytes
    && |Payload(s.codec, Record(b))| + 8 + |Payload(s.codec, Record(done))| + 8 <= s.wal.maxWalBytes
  }

  lemma FirstTwoCalls(s: Setup, a: Op, b: Op, done: Op, now: int)
    requires SecondRotates(s, a, b, done)
    ensures Enabled(s, FRESH_START, Call(a, now))
    ensures var one := Step(s, FRESH_START, Call(a, now));
      && Enabled(s, one, Call(b, now))
      && var two := Step(s, one, Call(b, now));
         && two.live.Some? && two.live.value.pending.Keys == {a.id, b.id}
         && two.log == [Entry(Record(a), true), Entry(Record(b), true)]
         && two.segment == 1 && two.durable == 2
         && |two.disk.active| == |Payload(s.codec, Record(b))| + 8 && !two.disk.lockFile
  {
    hide Payload, Recordable, Record, W.Encode;
    var one := Step(s, FRESH_START, Call(a, now));
    EncodeSize(Payload(s.codec, Record(a)));
    EncodeSize(Payload(s.codec, Record(b)));
    assert Writes(s, FRESH_START, a);
    assert one.live.value.pending.Keys == {a.id};
    assert |one.live.value.pending| == |one.live.value.pending.Keys| == 1;
    assert Writes(s, one, b);
  }

  lemma EncodeSize(payload: Bytes)
    requires |payload| < W.LENGTH_LIMIT
    ensures |W.Encode(payload)| == |payload| + 8
  {}

  lemma ThirdCall(s: Setup, a: Op, b: Op, done: Op, now: int, two: System)
    requires SecondRotates(s, a, b, done)
    requires two.live.Some? && two.live.value.pending.Keys == {a.id, b.id}
    requires two.log == [Entry(Record(a), true), Entry(Record(b), true)] && two.segment == 1
    requires |two.disk.active| == |Payload(s.codec, Record(b))| + 8 && !two.disk.lockFile
    ensures Enabled(s, two, Call(done, now))
    ensures var three := Step(s, two, Call(done, now));
      && three.live.Some? && three.segment == 1 && three.durable == 3
      && three.log == [Entry(Record(a), true), Entry(Record(b), true), Entry(Record(done), true)]
  {
    hide Payload, Recordable, Record, W.Encode;
    assert Writes(s, two, done);
  }

  lemma SnocTotals(log: seq<Entry>, e: Entry)
    ensures PendingOf(log + [e]) == Effect(PendingOf(log), e.record)
    ensures Enqueues(log + [e]) == Enqueues(log) + if e.record.EnqueueOp? then 1 else 0
    ensures Finishes(log + [e]) == Finishes(log) + if e.record.FinishOp? then 1 else 0
  {
    hide Effect;
    Snoc(log, e);
  }

  lemma NoTotals()
    ensures PendingOf([]) == map[] && Enqueues([]) == 0 && Finishes([]) == 0
  {}

  lemma SegmentTotals(a: Op, b: Op, done: Op)
    requires a.Enqueue? && b.Enqueue? && a.id != b.id && done.Finish? && done.id == a.id
    ensures PendingOf([Entry(Record(b), true)]).Keys == {b.id}
    ensures var log := [Entry(Record(b), true), Entry(Record(done), true)];
      PendingOf(log).Keys == {b.id} && |PendingOf(log)| == 1 && Enqueues(log) == 1 && Finishes(log) == 1
  {
    hide Dropped, PendingOf, Enqueues, Finishes;
    var first, second := Entry(Record(b), true), Entry(Record(done), true);
    SnocTotals([], first);
    SnocTotals([first], second);
    NoTotals();
    assert [] + [first] == [first] && [first] + [second] == [first, second];
    assert PendingOf([first]).Keys == {b.id};
    assert PendingOf([first, second]) == PendingOf([first]) - {a.id};
    assert PendingOf([first, second]).Keys == {b.id};
    assert |PendingOf([first, second])| == |PendingOf([first, second]).Keys|;
  }

  /**
    Pending tasks of a rotated segment are not recovered, and a finish recorded after the rotation unbalances
    the totals.  Two enqueues, the second of which rotates the file: after a clean stop and restart only the
    second task is pending.  With the first task finished before the stop, the restarted process counts one
    enqueued, one finished and one pending.
  */
  lemma RotationForgets(s: Setup, a: Op, b: Op, done: Op, now: int)
    requires Faithful(s.codec) && SecondRotates(s, a, b, done)
    ensures RunEnabled(s, FRESH_START, [Call(a, now), Call(b, now)])
    ensures var two := After(s, FRESH_START, [Call(a, now), Call(b, now)]);
      && two.live.Some? && two.live.value.pending.Keys == {a.id, b.id}
      && RunEnabled(s, two, [CleanStop(two, now), Restart])
      && var up := After(s, two, [CleanStop(two, now), Restart]);
         up.live.Some? && up.live.value.pending.Keys == {b.id}
    ensures var two := After(s, FRESH_START, [Call(a, now), Call(b, now)]);
      && Enabled(s, two, Call(done, now))
      && var three := Step(s, two, Call(done, now));
         && RunEnabled(s, three, [CleanStop(three, now), Restart])
         && var up := After(s, three, [CleanStop(three, now), Restart]);
            && up.live.Some? && up.live.value.totalEnqueued == 1 && up.live.value.totalFinished == 1
            && |up.live.value.pending| == 1
  {
    FirstTwoCalls(s, a, b, done, now);
    FreshStartOk(s);
    hide Step, Enabled, SecondRotates, Faithful, Inv, Record, CleanStop;
    hide PendingOf, Enqueues, Finishes;
    var run := [Call(a, now), Call(b, now)];
    TwoSteps(s, FRESH_START, run[0], run[1]);
    RunKeeps(s, FRESH_START, run);
    var two := After(s, FRESH_START, run);
    ThirdCall(s, a, b, done, now, two);
    StepKeeps(s, two, Call(done, now));
    var three := Step(s, two, Call(done, now));
    StopAndRestart(s, two, now);
    StopAndRestart(s, three, now);
    TwoSteps(s, two, CleanStop(two, now), Restart);
    TwoSteps(s, three, CleanStop(three, now), Restart);
    DistinctOps(s, a, b, done);
    SegmentTotals(a, b, done);
    assert two.log[1..] == [Entry(Record(b), true)];
    assert three.log[1..] == [Entry(Record(b), true), Entry(Record(done), true)];
  }

  /** What a crash in the middle of the first write leaves on disk. */
  lemma StruckDisk(s: Setup, a: Op, now: int, kept: nat, lockLeft: bool)
    requires a.Enqueue? && Written(s.codec, Record(a)) && s.maxPending >= 1
    requires |Payload(s.codec, Record(a))| + 8 <= s.wal.maxWalBytes && kept <= |Payload(s.codec, Record(a))| + 8
    ensures Enabled(s, FRESH_START, Crash(Some(a), now, kept, lockLeft))
    ensures var down := Step(s, FRESH_START, Crash(Some(a), now, kept, lockLeft));
      && down.live.None? && down.segment == 0 && down.durable == 0 && down.log == [Entry(Record(a), false)]
      && down.acks == [] && down.crashes == 1 && down.past == []
      && down.disk.active == W.Encode(Payload(s.codec, Record(a)))[..kept]
  {
    hide Payload, Recordable, Record, W.Encode;
    EncodeSize(Payload(s.codec, Record(a)));
    assert Writes(s, FRESH_START, a);
    assert [] + W.Encode(Payload(s.codec, Record(a))) == W.Encode(Payload(s.codec, Record(a)));
  }

  lemma ScanOfStruck(p: Bytes, kept: nat)
    requires |p| < W.LENGTH_LIMIT && kept <= |p| + 8
    ensures |W.Encode(p)| == |p| + 8 && W.Scan(W.Encode(p)[..kept]) == if kept == |p| + 8 then [p] else []
  {
    EncodeSize(p);
    hide W.Encode, W.Scan, W.Stream;
    EmptyStreamIs();
    if kept == |p| + 8 {
      W.StreamOne(p);
      W.EmptyStartsNoFrame();
      W.ScanOfStream([p], []);
      assert W.Encode(p)[..kept] == W.Stream([p]) + [];
    } else {
      W.TornTailRoundTrip([], p, W.Encode(p)[..kept]);
      assert W.Stream([]) + W.Encode(p)[..kept] == W.Encode(p)[..kept];
    }
  }

  lemma EmptyStreamIs()
    ensures W.Stream([]) == [] && W.Encodable([])
  {}

  /**
    An operation struck by a crash was never acknowledged, and may be recovered all the same: exactly when all of
    its record reached the disk.
  */
  lemma StruckRecord(s: Setup, a: Op, now: int, kept: nat, lockLeft: bool)
    requires Faithful(s.codec) && a.Enqueue? && Written(s.codec, Record(a)) && s.maxPending >= 1
    requires |Payload(s.codec, Record(a))| + 8 <= s.wal.maxWalBytes && kept <= |Payload(s.codec, Record(a))| + 8
    ensures RunEnabled(s, FRESH_START, [Crash(Some(a), now, kept, lockLeft), Restart])
    ensures var up := After(s, FRESH_START, [Crash(Some(a), now, kept, lockLeft), Restart]);
      && up.live.Some? && up.acks == [] && up.crashes == 1
      && up.live.value.pending.Keys == if kept == |Payload(s.codec, Record(a))| + 8 then {a.id} else {}
  {
    var crash := Crash(Some(a), now, kept, lockLeft);
    var p := Payload(s.codec, Record(a));
    StruckDisk(s, a, now, kept, lockLeft);
    WrittenIsShort(s.codec, Record(a));
    ScanOfStruck(p, kept);
    var down := Step(s, FRESH_START, crash);
    var log := if kept == |p| + 8 then [Entry(Record(a), false)] else [];
    assert AllWritten(s.codec, log);
    ReplayOfLog(s.codec, log);
    assert Payloads(s.codec, log) == W.Scan(down.disk.active);
    hide Step, Payload, Record, Faithful, Written, W.Encode, W.Scan, PendingOf, Payloads, Replay;
    RestartLive(s, down);
    TwoSteps(s, FRESH_START, crash, Restart);
    NoTotals();
    SnocTotals([], Entry(Record(a), false));
    assert [] + [Entry(Record(a), false)] == [Entry(Record(a), false)];
    RecordOf(a);
  }

  lemma RecordOf(op: Op)
    requires op.Enqueue?
    ensures Record(op).EnqueueOp? && Record(op).taskId == op.id
  {}

  lemma RestartLive(s: Setup, down: System)
    requires down.live.None?
    ensures Enabled(s, down, Restart)
    ensures var up := Step(s, down, Restart);
      up.live == Some(Replay(s.codec, W.Scan(down.disk.active))) && up.acks == down.acks && up.crashes == down.crashes
  {
    hide Replay, W.Scan, Truncated;
  }

  lemma DistinctOps(s: Setup, a: Op, b: Op, done: Op)
    requires SecondRotates(s, a, b, done)
    ensures a.Enqueue? && b.Enqueue? && a.id != b.id && done.Finish? && done.id == a.id
  {}

  lemma TwoSteps(s: Setup, sys: System, first: Event, second: Event)
    requires Enabled(s, sys, first) && Enabled(s, Step(s, sys, first), second)
    ensures RunEnabled(s, sys, [first, second])
    ensures After(s, sys, [first, second]) == Step(s, Step(s, sys, first), second)
  {
    hide Enabled, Step;
    var run := [first, second];
    assert run[1..] == [second] && run[1..][1..] == [];
    assert RunEnabled(s, Step(s, sys, first), run[1..]);
    assert After(s, Step(s, sys, first), run[1..]) == Step(s, Step(s, sys, first), second);
  }
}
