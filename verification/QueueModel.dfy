/**
  What the task queue and its log mean: the records, the file on disk, the effect
  of one operation on the file and on the in-memory queue, and replay.
*/
module QueueModel {
  import opened Basics
  import opened Json
  import WalFormat

  type Bytes = WalFormat.Bytes

  datatype Result<+T, +E> = Ok(value: T) | Err(error: E)

  // ---------- Records ----------

  datatype Status = Completed | Failed | Canceled

  datatype Envelope =
    | EnqueueOp(taskId: string, enqueuedAt: string, task: Json)
    | FinishOp(taskId: string, status: Status, finishedAt: string, metadata: Option<Json>)

  datatype PendingTask = PendingTask(taskId: string, enqueuedAt: string, task: Json)

  /** A task description is an object with a textual type. */
  predicate IsTask(v: Json) { v.Obj? && Get(v.fields, "type").Str? }

  predicate ValidEnvelope(e: Envelope) { e.EnqueueOp? ==> IsTask(e.task) }

  function StatusText(s: Status): string {
    match s
    case Completed => "completed"
    case Failed => "failed"
    case Canceled => "canceled"
  }

  function ParseStatus(v: Json): Option<Status> {
    if v == Str("completed") then Some(Completed)
    else if v == Str("failed") then Some(Failed)
    else if v == Str("canceled") then Some(Canceled)
    else None
  }

  /** The object that is written for an operation; a missing metadata field is not written. */
  function EnvelopeValue(e: Envelope): Json {
    match e
    case EnqueueOp(id, at, task) =>
      Obj([Field("op", Str("enqueue")), Field("taskId", Str(id)), Field("enqueuedAt", Str(at)), Field("task", task)])
    case FinishOp(id, status, at, metadata) =>
      Obj([Field("op", Str("finish")), Field("taskId", Str(id)), Field("status", Str(StatusText(status))),
           Field("finishedAt", Str(at))]
          + if metadata.Some? then [Field("metadata", metadata.value)] else [])
  }

  /** The shape check on a value read back; anything else is skipped. */
  function ParseEnvelope(parsed: Option<Json>): Option<Envelope> {
    if parsed.None? || !parsed.value.Obj? then None
    else
      var f := parsed.value.fields;
      var id := Get(f, "taskId");
      if Get(f, "op") == Str("enqueue") && id.Str? && Get(f, "enqueuedAt").Str? && IsTask(Get(f, "task")) then
        Some(EnqueueOp(id.chars, Get(f, "enqueuedAt").chars, Get(f, "task")))
      else if Get(f, "op") == Str("finish") && id.Str? && Get(f, "finishedAt").Str?
              && ParseStatus(Get(f, "status")).Some? then
        var metadata := Get(f, "metadata");
        Some(FinishOp(id.chars, ParseStatus(Get(f, "status")).value, Get(f, "finishedAt").chars,
                      if metadata == Undefined then None else Some(metadata)))
      else None
  }

  /** A parsed value is taken for a record exactly when it has this shape: the operation named, the texts texts, the
      task an object with a textual type, the status one of three. */
  lemma ParseIff(v: Json, e: Envelope)
    ensures ParseEnvelope(Some(v)) == Some(e) <==>
      && v.Obj? && Get(v.fields, "taskId") == Str(e.taskId)
      && match e
         case EnqueueOp(_, at, task) =>
           && Get(v.fields, "op") == Str("enqueue") && Get(v.fields, "enqueuedAt") == Str(at)
           && Get(v.fields, "task") == task && task.Obj? && Get(task.fields, "type").Str?
         case FinishOp(_, status, at, metadata) =>
           && Get(v.fields, "op") == Str("finish") && Get(v.fields, "finishedAt") == Str(at)
           && ((status == Completed && Get(v.fields, "status") == Str("completed"))
               || (status == Failed && Get(v.fields, "status") == Str("failed"))
               || (status == Canceled && Get(v.fields, "status") == Str("canceled")))
           && (if metadata.Some? then metadata.value != Undefined && Get(v.fields, "metadata") == metadata.value
               else Get(v.fields, "metadata") == Undefined)
  {
    hide Get;
    StatusTexts();
  }

  lemma StatusTexts()
    ensures "enqueue" != "finish" && "completed" != "failed" && "completed" != "canceled" && "failed" != "canceled"
  {
    assert "enqueue"[0] != "finish"[0] && "completed"[1] != "failed"[1];
    assert "completed"[1] != "canceled"[1] && "failed"[0] != "canceled"[0];
  }

  /** The record as it reads back: undefined parts are not written. */
  function Kept(e: Envelope): Envelope {
    match e
    case EnqueueOp(id, at, task) => EnqueueOp(id, at, Dropped(task))
    case FinishOp(id, status, at, metadata) =>
      FinishOp(id, status, at,
               if metadata.Some? && !metadata.value.Undefined? then Some(Dropped(metadata.value)) else None)
  }

  /** Text to bytes and the parser of bytes; `holds` tells the values a runtime can hold without undefined parts. */
  datatype Codec = Codec(utf8: string -> Bytes, read: Bytes -> Option<Json>, holds: Json -> bool)

  /** What is printed of a value that can be held is read back as that value. */
  ghost predicate Faithful(c: Codec) {
    forall v :: c.holds(v) ==> c.read(c.utf8(Print(v, COMPACT))) == Some(v)
  }

  ghost function ReaderOf(utf8: string -> Bytes): Bytes -> Option<Json> {
    b => if exists v :: Clear(v) && utf8(Print(v, COMPACT)) == b
         then Some(var v :| Clear(v) && utf8(Print(v, COMPACT)) == b; v)
         else None
  }

  /** Faithfulness can be had on all values whose print is legible: with any encoding that keeps texts apart,
      some parser reads every one of them back. */
  lemma FaithfulReader(utf8: string -> Bytes)
    requires forall a, b :: utf8(a) == utf8(b) ==> a == b
    ensures Faithful(Codec(utf8, ReaderOf(utf8), v => Clear(v)))
  {
    forall v | Clear(v)
      ensures ReaderOf(utf8)(utf8(Print(v, COMPACT))) == Some(v)
    {
      var b := utf8(Print(v, COMPACT));
      var w :| Clear(w) && utf8(Print(w, COMPACT)) == b && ReaderOf(utf8)(b) == Some(w);
      PrintInjective(v, w, COMPACT);
    }
  }

  /** A record that can be read back: nothing in it is undefined, and its value is one a runtime can hold. */
  predicate Recordable(c: Codec, e: Envelope) {
    ValidEnvelope(e) && Kept(e) == e && c.holds(EnvelopeValue(e))
  }

  function Payload(c: Codec, e: Envelope): Bytes { c.utf8(Stringify(EnvelopeValue(e), COMPACT)) }

  function Decode(c: Codec, payload: Bytes): Option<Envelope> { ParseEnvelope(c.read(payload)) }

  lemma DroppedAppend(a: seq<Field>, b: Field)
    requires forall i :: 0 <= i < |a| ==> NoUndefined(a[i].value)
    ensures DroppedFields(a + [b]) == a + if b.value.Undefined? then [] else [Field(b.key, Dropped(b.value))]
  {
    DroppedSplit(a, [b]);
    DroppedFieldsIdentity(a);
    hide Dropped, NoUndefined;
    assert [b][1..] == [];
  }

  /** Writing a record is writing what reads back. */
  lemma DroppedEnvelope(e: Envelope)
    requires e.EnqueueOp? ==> !e.task.Undefined?
    ensures Dropped(EnvelopeValue(e)) == EnvelopeValue(Kept(e))
  {
    match e {
      case EnqueueOp(id, at, task) =>
        var a := [Field("op", Str("enqueue")), Field("taskId", Str(id)), Field("enqueuedAt", Str(at))];
        DroppedAppend(a, Field("task", task));
        assert EnvelopeValue(e).fields == a + [Field("task", task)];
      case FinishOp(id, status, at, metadata) =>
        var a := [Field("op", Str("finish")), Field("taskId", Str(id)), Field("status", Str(StatusText(status))),
                  Field("finishedAt", Str(at))];
        if metadata.Some? {
          DroppedAppend(a, Field("metadata", metadata.value));
        } else {
          DroppedFieldsIdentity(a);
          assert a + [] == a;
        }
    }
  }

  lemma KeptTwice(e: Envelope)
    ensures Kept(Kept(e)) == Kept(e)
  {
    hide Dropped;
    match e {
      case EnqueueOp(_, _, task) => DroppedTwice(task);
      case FinishOp(_, _, _, metadata) =>
        if metadata.Some? {
          DroppedTwice(metadata.value);
          StaysDefined(metadata.value);
        }
    }
  }

  lemma StaysDefined(v: Json)
    ensures Dropped(v).Undefined? <==> v.Undefined?
  {}

  /** The bytes of a record are those of what reads back. */
  lemma PayloadKept(c: Codec, e: Envelope)
    requires e.EnqueueOp? ==> !e.task.Undefined?
    ensures Payload(c, Kept(e)) == Payload(c, e)
  {
    hide Dropped, Print, EnvelopeValue;
    DroppedEnvelope(e);
    DroppedTwice(EnvelopeValue(e));
  }

  /** A described task stays one when its undefined parts are left out. */
  lemma KeptIsValid(e: Envelope)
    requires ValidEnvelope(e)
    ensures ValidEnvelope(Kept(e))
  {
    if e.EnqueueOp? { GetDropped(e.task.fields, "type"); }
  }

  lemma GetSkips(fields: seq<Field>, key: string)
    requires |fields| > 0 && fields[0].key != key
    ensures Get(fields, key) == Get(fields[1..], key)
  {}

  lemma EnqueueShape(id: string, at: string, task: Json)
    ensures var f := EnvelopeValue(EnqueueOp(id, at, task)).fields;
      && Get(f, "op") == Str("enqueue") && Get(f, "taskId") == Str(id)
      && Get(f, "enqueuedAt") == Str(at) && Get(f, "task") == task
  {
    var f := EnvelopeValue(EnqueueOp(id, at, task)).fields;
    assert f[1..][1..] == f[2..] && f[2..][1..] == f[3..];
    GetSkips(f, "taskId");
    GetSkips(f, "enqueuedAt");
    GetSkips(f[1..], "enqueuedAt");
    GetSkips(f, "task");
    GetSkips(f[1..], "task");
    GetSkips(f[2..], "task");
  }

  lemma FinishShape(id: string, status: Status, at: string, metadata: Option<Json>)
    ensures var f := EnvelopeValue(FinishOp(id, status, at, metadata)).fields;
      && Get(f, "op") == Str("finish") && Get(f, "taskId") == Str(id)
      && Get(f, "status") == Str(StatusText(status)) && Get(f, "finishedAt") == Str(at)
      && Get(f, "metadata") == (if metadata.Some? then metadata.value else Undefined)
  {
    var f := EnvelopeValue(FinishOp(id, status, at, metadata)).fields;
    assert f[1..][1..] == f[2..] && f[2..][1..] == f[3..] && f[3..][1..] == f[4..];
    assert f[4..] == if metadata.Some? then [Field("metadata", metadata.value)] else [];
    GetSkips(f, "taskId");
    GetSkips(f, "status");
    GetSkips(f[1..], "status");
    GetSkips(f, "finishedAt");
    GetSkips(f[1..], "finishedAt");
    GetSkips(f[2..], "finishedAt");
    GetSkips(f, "metadata");
    GetSkips(f[1..], "metadata");
    GetSkips(f[2..], "metadata");
    GetSkips(f[3..], "metadata");
  }

  lemma ShapeRoundTrip(e: Envelope)
    requires ValidEnvelope(e) && Kept(e) == e
    ensures ParseEnvelope(Some(EnvelopeValue(e))) == Some(e)
  {
    hide Get, EnvelopeValue;
    match e {
      case EnqueueOp(id, at, task) => EnqueueShape(id, at, task);
      case FinishOp(id, status, at, metadata) => FinishShape(id, status, at, metadata);
    }
    EnvelopeIsObject(e);
    MetadataDefined(e);
  }

  lemma MetadataDefined(e: Envelope)
    requires Kept(e) == e
    ensures e.FinishOp? && e.metadata.Some? ==> !e.metadata.value.Undefined?
  {}

  lemma EnvelopeIsObject(e: Envelope)
    ensures EnvelopeValue(e).Obj?
  {}

  lemma RecordRoundTrip(c: Codec, e: Envelope)
    requires Faithful(c) && Recordable(c, e)
    ensures Decode(c, Payload(c, e)) == Some(e)
  {
    hide EnvelopeValue, ParseEnvelope, Print, Dropped;
    if e.EnqueueOp? { DescribedTask(e); }
    DroppedEnvelope(e);
    ShapeRoundTrip(e);
  }

  lemma DescribedTask(e: Envelope)
    requires ValidEnvelope(e) && e.EnqueueOp?
    ensures !e.task.Undefined?
  {}

  // ---------- The in-memory queue ----------

  datatype QueueState = QueueState(
    pending: map<string, PendingTask>,
    recovered: set<string>,
    totalEnqueued: nat,
    totalFinished: nat)

  const EMPTY_QUEUE := QueueState(map[], {}, 0, 0)

  function Enqueued(q: QueueState, id: string, at: string, task: Json): QueueState {
    q.(pending := q.pending[id := PendingTask(id, at, task)], totalEnqueued := q.totalEnqueued + 1)
  }

  function Finished(q: QueueState, id: string): QueueState {
    q.(pending := q.pending - {id}, recovered := q.recovered - {id}, totalFinished := q.totalFinished + 1)
  }

  /** One record of the log during recovery. */
  function Recover(q: QueueState, e: Envelope): QueueState {
    match e
    case EnqueueOp(id, at, task) =>
      var q' := Enqueued(q, id, at, task);
      q'.(recovered := q'.recovered + {id})
    case FinishOp(id, _, _, _) => Finished(q, id)
  }

  /** Replaying the payloads of a log; payloads that are no records are skipped. */
  function Replay(c: Codec, payloads: seq<Bytes>): QueueState {
    if |payloads| == 0 then EMPTY_QUEUE
    else
      var q := Replay(c, payloads[..|payloads| - 1]);
      var e := Decode(c, payloads[|payloads| - 1]);
      if e.None? then q else Recover(q, e.value)
  }

  // ---------- Operations of the service ----------

  datatype Op =
    | Enqueue(id: string, at: string, task: Json)
    | Finish(id: string, status: Status, at: string, metadata: Option<Json>)

  /** What the service passes to the log for an operation. */
  function Intended(op: Op): Envelope {
    match op
    case Enqueue(id, at, task) => EnqueueOp(id, at, task)
    case Finish(id, status, at, metadata) => FinishOp(id, status, at, metadata)
  }

  /** The record of an operation, as it reads back. */
  function Record(op: Op): Envelope { Kept(Intended(op)) }

  /** A pending map as the log tells it. */
  function Plainly(p: map<string, PendingTask>): map<string, PendingTask> {
    map id | id in p :: p[id].(task := Dropped(p[id].task))
  }

  /** Whether the service gets as far as writing a record: it refuses when full, and ignores unknown tasks. */
  predicate Admitted(maxPending: nat, q: QueueState, op: Op) {
    match op
    case Enqueue(_, _, _) => |q.pending| < maxPending
    case Finish(id, _, _, _) => id in q.pending
  }

  function Applied(q: QueueState, op: Op): QueueState {
    match op
    case Enqueue(id, at, task) => Enqueued(q, id, at, task)
    case Finish(id, _, _, _) => Finished(q, id)
  }

  predicate FreshOp(q: QueueState, op: Op) { op.Enqueue? ==> op.id !in q.pending }

  // ---------- The file ----------

  datatype WalConfig = WalConfig(financial: bool, maxWalBytes: nat, failRotation: bool)

  /** The active file, how much of it is known to be durable, the rotated files by the clock reading
      in their names, and whether the lock file exists. */
  datatype Disk = Disk(active: Bytes, synced: nat, archives: map<int, Bytes>, lockFile: bool)

  datatype WalError = PayloadTooLong | LockTimeout | RotationFault

  predicate MustRotate(cfg: WalConfig, d: Disk, recordBytes: nat) {
    |d.active| + recordBytes > cfg.maxWalBytes
  }

  function Rotated(d: Disk, now: int): Disk {
    d.(active := [], synced := 0, archives := d.archives[now := d.active])
  }

  /** The file the record goes to: the active one, or a fresh one after rotation. */
  function Prepared(cfg: WalConfig, d: Disk, payload: Bytes, now: int): Disk {
    if MustRotate(cfg, d, |payload| + 8) then Rotated(d, now) else d
  }

  function Refusal(cfg: WalConfig, d: Disk, payload: Bytes): Option<WalError> {
    if |payload| >= WalFormat.LENGTH_LIMIT then Some(PayloadTooLong)
    else if d.lockFile then Some(LockTimeout)
    else if MustRotate(cfg, d, |payload| + 8) && cfg.failRotation then Some(RotationFault)
    else None
  }

  function Appended(cfg: WalConfig, d: Disk, payload: Bytes, now: int): Disk
    requires Refusal(cfg, d, payload).None?
  {
    var base := Prepared(cfg, d, payload, now);
    var active := base.active + WalFormat.Encode(payload);
    base.(active := active, synced := if cfg.financial then |active| else base.synced)
  }

  /** Recovery cuts the file back to its valid frames. */
  function Truncated(d: Disk): Disk {
    var valid := |WalFormat.Stream(WalFormat.Scan(d.active))|;
    if valid < |d.active| then d.(active := d.active[..valid], synced := if d.synced < valid then d.synced else valid)
    else d
  }
}
