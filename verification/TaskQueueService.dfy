/**
  The task queue: an in-memory map of pending tasks in front of the log.  Every
  change is written to the log first; the map is rebuilt from the log at start.

  The clock, the id generator and the redispatch handler are parameters.  What
  other callers do while a resume waits for the handler is part of the handler's
  answer, so every interleaving at that point is covered.
*/
module TaskQueueService {
  import opened Basics
  import opened QueueModel
  import opened Json
  import W = WalFormat
  import Wal = TaskQueueWal

  datatype QueueError = Overload | LogError(error: WalError)

  datatype Ticket = Ticket(taskId: string, enqueuedAt: string)

  datatype Policy = KeepTasks | FailTasks | Redispatch

  datatype ResumeResult = ResumeResult(
    policy: Policy, scanned: nat, redispatched: nat, failed: nat, canceled: nat, kept: nat, errors: seq<string>)

  /** The handler's answer for one task: a status, nothing, or an exception. */
  datatype Outcome = Returned(status: Option<Status>) | Threw(message: string)

  /** What other callers did while the handler was awaited, and the handler's answer. */
  datatype Dispatch = Dispatch(others: seq<Op>, outcome: Outcome)

  function NormalizeResumeStatus(status: Option<Status>): Status {
    if status.Some? then status.value else Completed
  }

  function Accounted(r: ResumeResult): nat { r.redispatched + r.failed + r.canceled + r.kept }

  /** How a resumed task is finished: the status, the reason noted with it, and the error if there was one. */
  datatype Verdict = Verdict(status: Status, reason: string, error: Option<string>)

  /** A missing answer means that tasks are failed without asking. */
  function VerdictOf(answer: Option<Dispatch>): Verdict {
    if answer.None? then Verdict(Failed, "resume_policy_fail", None)
    else
      match answer.value.outcome
      case Threw(message) => Mishap(message)
      case Returned(status) => Verdict(NormalizeResumeStatus(status), "resume_policy_redispatch", None)
  }

  function Mishap(message: string): Verdict {
    Verdict(Failed, "resume_policy_redispatch_error", Some(message))
  }

  function Note(v: Verdict): Json {
    Obj([Field("reason", Str(v.reason)), Field("recoveredOnStartup", Bool(true))]
        + if v.error.Some? then [Field("error", Str(v.error.value))] else [])
  }

  /** The operation that finishes a resumed task. */
  function Settling(taskId: string, v: Verdict, at: string): Op {
    Op.Finish(taskId, v.status, at, Some(Note(v)))
  }

  /** The record that finishes a resumed task, by the handler's answer. */
  lemma SettlingMeaning(taskId: string, answer: Option<Dispatch>, at: string)
    ensures var reason := (text: string) => [Field("reason", Str(text)), Field("recoveredOnStartup", Bool(true))];
      Settling(taskId, VerdictOf(answer), at) ==
        match answer
        case None => Op.Finish(taskId, Failed, at, Some(Obj(reason("resume_policy_fail"))))
        case Some(Dispatch(_, Threw(message))) =>
          Op.Finish(taskId, Failed, at,
                    Some(Obj(reason("resume_policy_redispatch_error") + [Field("error", Str(message))])))
        case Some(Dispatch(_, Returned(status))) =>
          Op.Finish(taskId, if status.Some? then status.value else Completed, at,
                    Some(Obj(reason("resume_policy_redispatch"))))
  {
    var fields := [Field("reason", Str(VerdictOf(answer).reason)), Field("recoveredOnStartup", Bool(true))];
    assert fields + [] == fields;
  }

  /** One more task counted: by its status, and with its error listed. */
  function Counted(r: ResumeResult, taskId: string, v: Verdict): ResumeResult {
    var r' := match v.status
      case Completed => r.(redispatched := r.redispatched + 1)
      case Canceled => r.(canceled := r.canceled + 1)
      case Failed => r.(failed := r.failed + 1);
    if v.error.Some? then r'.(errors := r'.errors + ["task " + taskId + ": " + v.error.value]) else r'
  }

  /** All tasks counted in order, each by its answer. */
  function Tally(r: ResumeResult, tasks: seq<PendingTask>, answers: nat -> Option<Dispatch>): ResumeResult {
    if |tasks| == 0 then r
    else
      var last := |tasks| - 1;
      Counted(Tally(r, tasks[..last], answers), tasks[last].taskId, VerdictOf(answers(last)))
  }

  lemma TallyNext(r: ResumeResult, tasks: seq<PendingTask>, answers: nat -> Option<Dispatch>, i: nat)
    requires i < |tasks|
    ensures Tally(r, tasks[..i + 1], answers) ==
      Counted(Tally(r, tasks[..i], answers), tasks[i].taskId, VerdictOf(answers(i)))
  {
    assert tasks[..i + 1][..i] == tasks[..i];
  }

  predicate SaysCompleted(answer: Option<Dispatch>) {
    answer.Some? && (answer.value.outcome == Returned(None) || answer.value.outcome == Returned(Some(Completed)))
  }

  predicate SaysCanceled(answer: Option<Dispatch>) {
    answer.Some? && answer.value.outcome == Returned(Some(Canceled))
  }

  predicate SaysFailed(answer: Option<Dispatch>) {
    answer.None? || answer.value.outcome.Threw? || answer.value.outcome == Returned(Some(Failed))
  }

  /** How many of the first `n` answers say so. */
  function Saying(says: Option<Dispatch> -> bool, answers: nat -> Option<Dispatch>, n: nat): nat {
    if n == 0 then 0 else Saying(says, answers, n - 1) + if says(answers(n - 1)) then 1 else 0
  }

  /** The lines for the tasks whose handler threw, in order. */
  function Complaints(tasks: seq<PendingTask>, answers: nat -> Option<Dispatch>): seq<string> {
    if |tasks| == 0 then []
    else
      var last := |tasks| - 1;
      Complaints(tasks[..last], answers)
        + if answers(last).Some? && answers(last).value.outcome.Threw?
          then ["task " + tasks[last].taskId + ": " + answers(last).value.outcome.message] else []
  }

  /**
    What a tally says of the answers: a task counts as redispatched when the handler said so or said nothing, as
    canceled when it said so, and otherwise as failed; only a handler that threw leaves a line among the errors.
  */
  lemma {:induction false} TallyMeaning(r: ResumeResult, tasks: seq<PendingTask>, answers: nat -> Option<Dispatch>)
    ensures var t := Tally(r, tasks, answers);
      && t.redispatched == r.redispatched + Saying(SaysCompleted, answers, |tasks|)
      && t.canceled == r.canceled + Saying(SaysCanceled, answers, |tasks|)
      && t.failed == r.failed + Saying(SaysFailed, answers, |tasks|)
      && t.errors == r.errors + Complaints(tasks, answers)
      && t.kept == r.kept && t.scanned == r.scanned && t.policy == r.policy
  {
    if |tasks| > 0 {
      var last := |tasks| - 1;
      TallyMeaning(r, tasks[..last], answers);
      CountedMeaning(Tally(r, tasks[..last], answers), tasks[last].taskId, answers(last));
      hide Counted, VerdictOf;
    }
  }

  lemma CountedMeaning(r: ResumeResult, taskId: string, answer: Option<Dispatch>)
    ensures var t := Counted(r, taskId, VerdictOf(answer));
      && t.redispatched == r.redispatched + (if SaysCompleted(answer) then 1 else 0)
      && t.canceled == r.canceled + (if SaysCanceled(answer) then 1 else 0)
      && t.failed == r.failed + (if SaysFailed(answer) then 1 else 0)
      && t.errors == r.errors + (if answer.Some? && answer.value.outcome.Threw?
                                 then ["task " + taskId + ": " + answer.value.outcome.message] else [])
      && t.kept == r.kept && t.scanned == r.scanned && t.policy == r.policy
  {
    assert r.errors + [] == r.errors;
  }

  /** The answers of a resume: none under the fail policy or without a handler. */
  function Answers(policy: Policy, handler: Option<nat -> Dispatch>): nat -> Option<Dispatch> {
    if policy.FailTasks? || handler.None? then (_: nat) => None else (i: nat) => Some(handler.value(i))
  }

  lemma AnswersShape(policy: Policy, handler: Option<nat -> Dispatch>)
    ensures policy.FailTasks? ==> forall i: nat :: Answers(policy, handler)(i).None?
    ensures !policy.FailTasks? && handler.Some? ==> forall i: nat :: Answers(policy, handler)(i) == Some(handler.value(i))
  {}

  /** Oldest first; equal times by id. */
  predicate Before(less: TextOrder, a: PendingTask, b: PendingTask) {
    if a.enqueuedAt == b.enqueuedAt then less(a.taskId, b.taskId) else less(a.enqueuedAt, b.enqueuedAt)
  }

  predicate InOrder(less: TextOrder, tasks: seq<PendingTask>) {
    forall i, j :: 0 <= i < j < |tasks| ==> Before(less, tasks[i], tasks[j])
  }

  /** In such a list no task is older than one before it, and tasks of one time are in the order of their ids. */
  lemma OldestFirst(less: TextOrder, tasks: seq<PendingTask>, i: nat, j: nat)
    requires StrictTotal(less) && InOrder(less, tasks) && i < j < |tasks|
    ensures !less(tasks[j].enqueuedAt, tasks[i].enqueuedAt)
    ensures tasks[i].enqueuedAt == tasks[j].enqueuedAt ==> less(tasks[i].taskId, tasks[j].taskId)
  {
    assert Before(less, tasks[i], tasks[j]);
  }

  function Ids(tasks: seq<PendingTask>): set<string> {
    set i | 0 <= i < |tasks| :: tasks[i].taskId
  }

  /** The list shows exactly the tasks stored under `ids`, each once. */
  ghost predicate Lists(tasks: seq<PendingTask>, pending: map<string, PendingTask>, ids: set<string>) {
    && Ids(tasks) == ids && ids <= pending.Keys && |tasks| == |ids|
    && forall i :: 0 <= i < |tasks| ==> tasks[i].taskId in pending && tasks[i] == pending[tasks[i].taskId]
  }

  function InsertTask(less: TextOrder, t: PendingTask, tasks: seq<PendingTask>): (r: seq<PendingTask>)
    ensures |r| == |tasks| + 1 && multiset(r) == multiset(tasks) + multiset{t}
  {
    if |tasks| == 0 then [t]
    else if Before(less, t, tasks[0]) then [t] + tasks
    else
      assert tasks == [tasks[0]] + tasks[1..];
      [tasks[0]] + InsertTask(less, t, tasks[1..])
  }

  lemma PrependKeepsOrder(less: TextOrder, t: PendingTask, tasks: seq<PendingTask>)
    requires InOrder(less, tasks) && forall x :: x in tasks ==> Before(less, t, x)
    ensures InOrder(less, [t] + tasks)
  {}

  lemma IdsOfRest(tasks: seq<PendingTask>)
    requires |tasks| > 0
    ensures Ids(tasks[1..]) <= Ids(tasks) && tasks[0].taskId in Ids(tasks)
  {
    forall id | id in Ids(tasks[1..])
      ensures id in Ids(tasks)
    {
      var i :| 0 <= i < |tasks[1..]| && tasks[1..][i].taskId == id;
      assert tasks[i + 1].taskId == id;
    }
  }

  lemma {:induction false} InsertKeepsOrder(less: TextOrder, t: PendingTask, tasks: seq<PendingTask>)
    requires StrictTotal(less) && InOrder(less, tasks) && t.taskId !in Ids(tasks)
    ensures InOrder(less, InsertTask(less, t, tasks))
  {
    if |tasks| > 0 {
      var first, rest := tasks[0], tasks[1..];
      assert tasks == [first] + rest;
      assert forall x :: x in rest ==> Before(less, first, x);
      IdsOfRest(tasks);
      if Before(less, t, first) {
        PrependKeepsOrder(less, t, tasks);
      } else {
        InsertKeepsOrder(less, t, rest);
        var r := InsertTask(less, t, rest);
        assert forall x :: x in r ==> x in multiset(r);
        assert forall x :: x in r ==> x == t || x in rest;
        PrependKeepsOrder(less, first, r);
      }
    }
  }

  lemma InsertLists(less: TextOrder, t: PendingTask, tasks: seq<PendingTask>, pending: map<string, PendingTask>, ids: set<string>)
    requires Lists(tasks, pending, ids) && t.taskId in pending && t == pending[t.taskId] && t.taskId !in ids
    ensures Lists(InsertTask(less, t, tasks), pending, ids + {t.taskId})
  {
    var r := InsertTask(less, t, tasks);
    forall i | 0 <= i < |r|
      ensures r[i].taskId in pending && r[i] == pending[r[i].taskId] && r[i].taskId in ids + {t.taskId}
    {
      assert r[i] in multiset(r);
      if r[i] != t {
        assert r[i] in multiset(tasks);
        var j :| 0 <= j < |tasks| && tasks[j] == r[i];
        assert tasks[j].taskId in Ids(tasks);
      }
    }
    forall id | id in ids + {t.taskId}
      ensures id in Ids(r)
    {
      var x := if id == t.taskId then t else pending[id];
      if id in ids {
        var j :| 0 <= j < |tasks| && tasks[j].taskId == id;
        assert tasks[j] in multiset(tasks);
      }
      assert x in multiset(r);
      var k :| 0 <= k < |r| && r[k] == x;
      assert r[k].taskId == id;
    }
  }

  function FilterTasks(tasks: seq<PendingTask>, ids: set<string>): seq<PendingTask> {
    if |tasks| == 0 then []
    else (if tasks[0].taskId in ids then [tasks[0]] else []) + FilterTasks(tasks[1..], ids)
  }

  lemma {:induction false} IdsCount(tasks: seq<PendingTask>)
    ensures |Ids(tasks)| <= |tasks|
  {
    if |tasks| > 0 {
      IdsSplit(tasks, 0);
      IdsCount(tasks[1..]);
      assert tasks[0..] == tasks;
    }
  }

  lemma ListsIds(tasks: seq<PendingTask>, pending: map<string, PendingTask>, ids: set<string>)
    requires Lists(tasks, pending, ids)
    ensures Ids(tasks) == ids && |tasks| == |ids|
  {}

  lemma NothingListed(less: TextOrder, pending: map<string, PendingTask>)
    ensures Lists([], pending, {}) && InOrder(less, [])
  {}

  lemma FilterFirst(tasks: seq<PendingTask>, ids: set<string>)
    requires |tasks| > 0
    ensures var r := FilterTasks(tasks[1..], ids);
      FilterTasks(tasks, ids) == if tasks[0].taskId in ids then [tasks[0]] + r else r
  {}

  lemma OneMore(s: set<string>, id: string)
    ensures id !in s ==> |{id} + s| == |s| + 1
  {
    if id !in s { assert {id} + s == s + {id}; }
  }

  lemma {:induction false} FilterCount(tasks: seq<PendingTask>, ids: set<string>)
    requires |Ids(tasks)| == |tasks|
    ensures var r := FilterTasks(tasks, ids); Ids(r) == Ids(tasks) * ids && |r| == |Ids(r)|
  {
    if |tasks| > 0 {
      var t, rest := tasks[0], tasks[1..];
      IdsSplit(tasks, 0);
      assert tasks[0..] == tasks;
      IdsCount(rest);
      hide Ids;
      assert t.taskId !in Ids(rest);
      FilterCount(rest, ids);
      var r := FilterTasks(rest, ids);
      FilterFirst(tasks, ids);
      hide FilterTasks;
      IdsConcat([t], r);
      IdsOfOne(t);
      OneMore(Ids(r), t.taskId);
    }
  }

  lemma NoIds()
    ensures Ids([]) == {}
  {}

  lemma IdsOfOne(t: PendingTask)
    ensures Ids([t]) == {t.taskId}
  {
    assert [t][0] == t;
  }

  lemma {:induction false} FilterKeeps(less: TextOrder, tasks: seq<PendingTask>, ids: set<string>)
    requires InOrder(less, tasks)
    ensures InOrder(less, FilterTasks(tasks, ids))
    ensures forall x :: x in FilterTasks(tasks, ids) ==> x in tasks
  {
    if |tasks| > 0 {
      hide Before;
      FilterKeeps(less, tasks[1..], ids);
      var r := FilterTasks(tasks[1..], ids);
      assert forall x :: x in r ==> Before(less, tasks[0], x);
      PrependKeepsOrder(less, tasks[0], r);
    }
  }

  lemma FilteredRecovered(less: TextOrder, tasks: seq<PendingTask>, pending: map<string, PendingTask>, ids: set<string>)
    requires Lists(tasks, pending, pending.Keys) && InOrder(less, tasks) && ids <= pending.Keys
    ensures var r := FilterTasks(tasks, ids); Lists(r, pending, ids) && InOrder(less, r)
  {
    hide InOrder;
    FilterCount(tasks, ids);
    FilterKeeps(less, tasks, ids);
    assert pending.Keys * ids == ids;
    var r := FilterTasks(tasks, ids);
    hide FilterTasks, Ids;
    forall i | 0 <= i < |r|
      ensures r[i].taskId in pending && r[i] == pending[r[i].taskId]
    {
      assert r[i] in tasks;
    }
  }

  function EnqueuedBy(ops: seq<Op>): set<string> {
    set i | 0 <= i < |ops| && ops[i].Enqueue? :: ops[i].id
  }

  function Newcomers(answer: Option<Dispatch>): set<string> {
    if answer.None? then {} else EnqueuedBy(answer.value.others)
  }

  /** No other caller enqueues a task under one of these ids. */
  ghost predicate LeavesAlone(answers: nat -> Option<Dispatch>, ids: set<string>) {
    forall i: nat :: Newcomers(answers(i)) !! ids
  }

  lemma OthersLeaveAlone(answers: nat -> Option<Dispatch>, i: nat, ids: set<string>)
    requires LeavesAlone(answers, ids)
    ensures Newcomers(answers(i)) !! ids
  {}

  lemma IdsSplit(tasks: seq<PendingTask>, i: nat)
    requires i < |tasks|
    ensures Ids(tasks[..i + 1]) == Ids(tasks[..i]) + {tasks[i].taskId}
    ensures Ids(tasks[i..]) == Ids(tasks[i + 1..]) + {tasks[i].taskId}
  {
    var a, b := tasks[..i], tasks[i..];
    assert tasks[..i + 1] == a + [tasks[i]] && b == [tasks[i]] + tasks[i + 1..];
    IdsConcat(a, [tasks[i]]);
    IdsConcat([tasks[i]], tasks[i + 1..]);
    assert Ids([tasks[i]]) == {tasks[i].taskId} by { assert [tasks[i]][0] == tasks[i]; }
  }

  lemma IdsSubset(tasks: seq<PendingTask>, i: nat)
    requires i < |tasks|
    ensures tasks[i].taskId in Ids(tasks) && Ids(tasks[..i]) <= Ids(tasks)
  {
    IdsConcat(tasks[..i], tasks[i..]);
    assert tasks == tasks[..i] + tasks[i..];
    assert tasks[i].taskId in Ids(tasks);
  }

  lemma IdsConcat(a: seq<PendingTask>, b: seq<PendingTask>)
    ensures Ids(a + b) == Ids(a) + Ids(b)
  {
    forall id | id in Ids(a) + Ids(b)
      ensures id in Ids(a + b)
    {
      if id in Ids(a) {
        var i :| 0 <= i < |a| && a[i].taskId == id;
        assert (a + b)[i].taskId == id;
      } else {
        var i :| 0 <= i < |b| && b[i].taskId == id;
        assert (a + b)[|a| + i].taskId == id;
      }
    }
  }

  lemma OneMoreTask(pending: map<string, PendingTask>, t: PendingTask)
    requires t.taskId !in pending
    ensures |pending[t.taskId := t]| == |pending| + 1
  {
    assert pending[t.taskId := t].Keys == pending.Keys + {t.taskId};
  }

  lemma OneTaskLess(pending: map<string, PendingTask>, id: string)
    requires id in pending
    ensures |pending - {id}| == |pending| - 1
  {
    assert (pending - {id}).Keys == pending.Keys - {id};
  }

  /** The record of the operation fits the length field of a frame. */
  predicate Short(c: Codec, op: Op) { |Payload(c, Intended(op))| < W.LENGTH_LIMIT }

  /** Every answer can be recorded for every task. */
  ghost predicate AllShort(c: Codec, ids: set<string>, answers: nat -> Option<Dispatch>, at: string) {
    forall id, i: nat :: id in ids ==> Short(c, Settling(id, VerdictOf(answers(i)), at))
  }

  lemma ShortAnswer(c: Codec, ids: set<string>, answers: nat -> Option<Dispatch>, at: string, id: string, i: nat)
    requires AllShort(c, ids, answers, at) && id in ids
    ensures Short(c, Settling(id, VerdictOf(answers(i)), at))
  {}

  /** An open log refuses long records only, and stays open. */
  lemma OpenLog(cfg: WalConfig, d: Disk, payload: Bytes, now: int)
    requires !d.lockFile && !cfg.failRotation
    ensures Refusal(cfg, d, payload).None? <==> |payload| < W.LENGTH_LIMIT
    ensures Refusal(cfg, d, payload).None? ==> !Appended(cfg, d, payload, now).lockFile
  {
    hide W.Encode;
  }

  function Start(policy: Policy, scanned: nat): ResumeResult { ResumeResult(policy, scanned, 0, 0, 0, 0, []) }

  /** `n` more tasks are accounted for, none of them as kept. */
  predicate Completes(before: ResumeResult, r: ResumeResult, n: nat) {
    && Accounted(r) == Accounted(before) + n
    && r.policy == before.policy && r.scanned == before.scanned && r.kept == before.kept
  }

  lemma NothingCounted(r: ResumeResult)
    requires Accounted(r) == 0
    ensures Completes(r, r, 0) && r.failed == 0
  {}

  lemma CountedCompletes(before: ResumeResult, r: ResumeResult, n: nat, taskId: string, answer: Option<Dispatch>,
                         r': ResumeResult, explain: WalError -> string)
    requires Completes(before, r, n)
    requires r' == Counted(r, taskId, VerdictOf(answer)) || exists e: WalError :: r' == Counted(r, taskId, Mishap(explain(e)))
    ensures Completes(before, r', n + 1)
    ensures answer.None? ==> r'.failed == r.failed + 1
  {}

  lemma NoTally(r: ResumeResult, answers: nat -> Option<Dispatch>)
    ensures Tally(r, [], answers) == r
  {}

  lemma Settled(less: TextOrder, pending: map<string, PendingTask>, ids: set<string>, tasks: seq<PendingTask>,
                answers: nat -> Option<Dispatch>, before: ResumeResult)
    requires Lists(tasks, pending, ids) && InOrder(less, tasks)
    ensures SettledInOrder(less, pending, ids, answers, before, Tally(before, tasks, answers))
    ensures |tasks| == |ids|
  {}

  /** The tasks of a resume, oldest first, each counted by its answer. */
  ghost predicate SettledInOrder(less: TextOrder, pending: map<string, PendingTask>, ids: set<string>,
                                 answers: nat -> Option<Dispatch>, before: ResumeResult, r: ResumeResult) {
    exists tasks :: Lists(tasks, pending, ids) && InOrder(less, tasks) && r == Tally(before, tasks, answers)
  }

  class TaskQueueService {
    const wal: Wal.TaskQueueWal
    const codec: Codec
    const maxPending: nat
    const defaultPolicy: Policy
    const explain: WalError -> string
    var pending: map<string, PendingTask>
    var recoveredTaskIds: set<string>
    var totalEnqueued: nat
    var totalFinished: nat
    var lastResume: Option<ResumeResult>

    ghost predicate Valid()
      reads this, wal, wal.table
    {
      && wal.Valid() && recoveredTaskIds <= pending.Keys
      && forall id :: id in pending ==> pending[id].taskId == id
    }

    ghost function State(): QueueState
      reads this
    {
      QueueState(pending, recoveredTaskIds, totalEnqueued, totalFinished)
    }

    /** What enqueues have put in beyond what was finished or is still pending. */
    ghost function Imbalance(): int
      reads this`pending, this`totalEnqueued, this`totalFinished
    {
      totalEnqueued - totalFinished - |pending|
    }

    /** No stale lock file, and rotation works: the log refuses long records only. */
    ghost predicate LogOpen()
      reads wal
    {
      !wal.disk.lockFile && !wal.config.failRotation
    }

    function Chosen(requested: Option<Policy>): Policy {
      if requested.Some? then requested.value else defaultPolicy
    }

    constructor (wal: Wal.TaskQueueWal, codec: Codec, maxPending: nat, defaultPolicy: Policy, explain: WalError -> string)
      requires wal.Valid()
      ensures Valid() && State() == EMPTY_QUEUE && lastResume == None
      ensures this.wal == wal && this.codec == codec && this.maxPending == maxPending
    {
      this.wal, this.codec, this.maxPending := wal, codec, maxPending;
      this.defaultPolicy, this.explain := defaultPolicy, explain;
      pending, recoveredTaskIds, totalEnqueued, totalFinished, lastResume := map[], {}, 0, 0, None;
    }

    /** Rebuild the map from the log. */
    method Recover() returns (r: Result<(), WalError>)
      requires Valid() && State() == EMPTY_QUEUE
      modifies this`pending, this`recoveredTaskIds, this`totalEnqueued, this`totalFinished, wal`disk
      ensures Valid()
      ensures old(wal.disk.lockFile) ==> r.Err? && State() == EMPTY_QUEUE && wal.disk == old(wal.disk)
      ensures !old(wal.disk.lockFile) ==>
        && r.Ok? && State() == Replay(codec, W.Scan(old(wal.disk.active)))
        && wal.disk == Truncated(old(wal.disk))
    {
      hide W.Scan, W.Stream, W.Placed, Truncated, Decode, Payload;
      var read := wal.RecoverAndRead();
      if read.Err? {
        return Err(read.error);
      }
      var records := read.value;
      ghost var payloads := W.Payloads(records);
      for i := 0 to |records|
        invariant Valid() && wal.disk == Truncated(old(wal.disk))
        invariant State() == Replay(codec, payloads[..i])
      {
        assert payloads[..i + 1][..i] == payloads[..i];
        var envelope := Decode(codec, records[i].payload);
        if envelope.None? {
          continue;
        }
        if envelope.value.EnqueueOp? {
          var id := envelope.value.taskId;
          pending := pending[id := PendingTask(id, envelope.value.enqueuedAt, envelope.value.task)];
          recoveredTaskIds := recoveredTaskIds + {id};
          totalEnqueued := totalEnqueued + 1;
          continue;
        }
        pending := pending - {envelope.value.taskId};
        recoveredTaskIds := recoveredTaskIds - {envelope.value.taskId};
        totalFinished := totalFinished + 1;
      }
      assert payloads[..|records|] == payloads;
      r := Ok(());
    }

    /** Refused when full, or when the log refuses; otherwise logged and then pending. */
    method Enqueue(task: Json, taskId: string, enqueuedAt: string, now: int) returns (r: Result<Ticket, QueueError>)
      requires Valid() && taskId !in pending
      modifies this`pending, this`totalEnqueued, wal`disk
      ensures Valid() && Imbalance() == old(Imbalance()) && (old(LogOpen()) ==> LogOpen())
      ensures var op := Op.Enqueue(taskId, enqueuedAt, task);
        var payload := Payload(codec, Intended(op));
        if !Admitted(maxPending, old(State()), op) then
          r == Err(Overload) && State() == old(State()) && wal.disk == old(wal.disk)
        else
          match Refusal(wal.config, old(wal.disk), payload)
          case Some(e) => r == Err(LogError(e)) && State() == old(State()) && wal.disk == old(wal.disk)
          case None =>
            && r == Ok(Ticket(taskId, enqueuedAt)) && State() == Applied(old(State()), op)
            && wal.disk == Appended(wal.config, old(wal.disk), payload, now)
    {
      hide Refusal, Appended, Payload, Wal.Logged;
      if LogOpen() { OpenLog(wal.config, wal.disk, Payload(codec, EnqueueOp(taskId, enqueuedAt, task)), now); }
      if |pending| >= maxPending {
        return Err(Overload);
      }
      var written := wal.Enqueue(Payload(codec, EnqueueOp(taskId, enqueuedAt, task)), now);
      if written.Err? {
        return Err(LogError(written.error));
      }
      OneMoreTask(pending, PendingTask(taskId, enqueuedAt, task));
      pending := pending[taskId := PendingTask(taskId, enqueuedAt, task)];
      totalEnqueued := totalEnqueued + 1;
      r := Ok(Ticket(taskId, enqueuedAt));
    }

    /** False for an unknown task; otherwise logged and then removed. */
    method Finish(taskId: string, status: Status, metadata: Option<Json>, finishedAt: string, now: int)
      returns (r: Result<bool, WalError>)
      requires Valid()
      modifies this`pending, this`recoveredTaskIds, this`totalFinished, wal`disk
      ensures Valid() && Imbalance() == old(Imbalance())
      ensures old(LogOpen()) ==> LogOpen() && (Short(codec, Op.Finish(taskId, status, finishedAt, metadata)) ==> r.Ok?)
      ensures var op := Op.Finish(taskId, status, finishedAt, metadata);
        var payload := Payload(codec, Intended(op));
        if !Admitted(maxPending, old(State()), op) then
          r == Ok(false) && State() == old(State()) && wal.disk == old(wal.disk)
        else
          match Refusal(wal.config, old(wal.disk), payload)
          case Some(e) => r == Err(e) && State() == old(State()) && wal.disk == old(wal.disk)
          case None =>
            && r == Ok(true) && State() == Applied(old(State()), op)
            && wal.disk == Appended(wal.config, old(wal.disk), payload, now)
    {
      hide Refusal, Appended, Payload, Wal.Logged;
      if LogOpen() { OpenLog(wal.config, wal.disk, Payload(codec, FinishOp(taskId, status, finishedAt, metadata)), now); }
      if taskId !in pending {
        return Ok(false);
      }
      var written := wal.Enqueue(Payload(codec, FinishOp(taskId, status, finishedAt, metadata)), now);
      if written.Err? {
        return Err(written.error);
      }
      OneTaskLess(pending, taskId);
      pending := pending - {taskId};
      recoveredTaskIds := recoveredTaskIds - {taskId};
      totalFinished := totalFinished + 1;
      r := Ok(true);
    }

    /** The pending tasks, oldest first. */
    method ListPending(less: TextOrder) returns (tasks: seq<PendingTask>)
      requires Valid() && StrictTotal(less)
      ensures Lists(tasks, pending, pending.Keys) && InOrder(less, tasks)
      ensures forall i, j :: 0 <= i < j < |tasks| ==>
        && !less(tasks[j].enqueuedAt, tasks[i].enqueuedAt)
        && (tasks[i].enqueuedAt == tasks[j].enqueuedAt ==> less(tasks[i].taskId, tasks[j].taskId))
    {
      tasks := [];
      var rest := pending.Keys;
      hide Before, Lists, InOrder, InsertTask, Ids;
      NothingListed(less, pending);
      assert pending.Keys - rest == {};
      while rest != {}
        invariant rest <= pending.Keys
        invariant Lists(tasks, pending, pending.Keys - rest) && InOrder(less, tasks)
      {
        var id :| id in rest;
        assert pending.Keys - (rest - {id}) == (pending.Keys - rest) + {id};
        ListsIds(tasks, pending, pending.Keys - rest);
        InsertLists(less, pending[id], tasks, pending, pending.Keys - rest);
        InsertKeepsOrder(less, pending[id], tasks);
        tasks := InsertTask(less, pending[id], tasks);
        rest := rest - {id};
      }
      assert pending.Keys - rest == pending.Keys;
      forall i, j | 0 <= i < j < |tasks|
        ensures !less(tasks[j].enqueuedAt, tasks[i].enqueuedAt)
        ensures tasks[i].enqueuedAt == tasks[j].enqueuedAt ==> less(tasks[i].taskId, tasks[j].taskId)
      {
        OldestFirst(less, tasks, i, j);
      }
    }

    method ListRecovered(less: TextOrder) returns (tasks: seq<PendingTask>)
      requires Valid() && StrictTotal(less)
      ensures Lists(tasks, pending, recoveredTaskIds) && InOrder(less, tasks)
    {
      var listed := ListPending(less);
      tasks := FilterTasks(listed, recoveredTaskIds);
      FilteredRecovered(less, listed, pending, recoveredTaskIds);
    }

    /** What other callers do while a resume is waiting: any calls, with ids that are not in use. */
    method RunOthers(ops: seq<Op>, now: int)
      requires Valid()
      modifies this`pending, this`recoveredTaskIds, this`totalEnqueued, this`totalFinished, wal`disk
      ensures Valid() && Imbalance() == old(Imbalance()) && (old(LogOpen()) ==> LogOpen())
      ensures recoveredTaskIds <= old(recoveredTaskIds)
      ensures forall id :: id in pending && id !in old(pending) ==> id in EnqueuedBy(ops)
    {
      for i := 0 to |ops|
        invariant Valid() && Imbalance() == old(Imbalance()) && (old(LogOpen()) ==> LogOpen())
        invariant recoveredTaskIds <= old(recoveredTaskIds)
        invariant forall id :: id in pending && id !in old(pending) ==> id in EnqueuedBy(ops)
      {
        hide Imbalance, LogOpen, Refusal, Appended, Payload, Short;
        assert ops[i].Enqueue? ==> ops[i].id in EnqueuedBy(ops);
        match ops[i] {
          case Enqueue(id, at, task) =>
            if id !in pending {
              var _ := Enqueue(task, id, at, now);
            }
          case Finish(id, status, at, metadata) =>
            var _ := Finish(id, status, metadata, at, now);
        }
      }
    }

    /** Finish a task as its answer says; what went wrong is returned when it could not be done. */
    method TryTask(task: PendingTask, answer: Option<Dispatch>, before: ResumeResult, at: string, now: int)
      returns (out: ResumeResult, thrown: Option<string>)
      requires Valid()
      modifies this`pending, this`recoveredTaskIds, this`totalEnqueued, this`totalFinished, wal`disk
      ensures Valid() && Imbalance() == old(Imbalance()) && (old(LogOpen()) ==> LogOpen())
      ensures recoveredTaskIds <= old(recoveredTaskIds)
      ensures forall id :: id in pending && id !in old(pending) ==> id in Newcomers(answer)
      ensures thrown.None? ==> out == Counted(before, task.taskId, VerdictOf(answer)) && task.taskId !in pending
      ensures thrown.Some? ==> out == before && Mishaps(answer, thrown.value)
      ensures old(LogOpen()) && Short(codec, Settling(task.taskId, VerdictOf(answer), at)) && thrown.Some? ==>
        VerdictOf(answer) == Mishap(thrown.value)
      ensures answer.None? ==> pending == old(pending) - if thrown.None? then {task.taskId} else {}
    {
      hide Imbalance, LogOpen, Refusal, Appended, Payload, Short, Note;
      out, thrown := before, None;
      if answer.None? {
        var first := Finish(task.taskId, Failed, Some(Note(VerdictOf(answer))), at, now);
        if first.Err? {
          return out, Some(explain(first.error));
        }
        return out.(failed := out.failed + 1), None;
      }
      RunOthers(answer.value.others, now);
      if answer.value.outcome.Threw? {
        return out, Some(answer.value.outcome.message);
      }
      var status := NormalizeResumeStatus(answer.value.outcome.status);
      var first := Finish(task.taskId, status, Some(Note(VerdictOf(answer))), at, now);
      if first.Err? {
        return out, Some(explain(first.error));
      }
      match status {
        case Completed => out := out.(redispatched := out.redispatched + 1);
        case Canceled => out := out.(canceled := out.canceled + 1);
        case Failed => out := out.(failed := out.failed + 1);
      }
    }

    /** The message is the handler's or tells why the log refused a record. */
    ghost predicate Mishaps(answer: Option<Dispatch>, message: string) {
      VerdictOf(answer) == Mishap(message) || exists e: WalError :: message == explain(e)
    }

    /** One task of a resume: finished as its answer says, or, when that cannot be recorded, as failed
        with the reason; an error is returned when neither can be recorded. */
    method ResumeTask(task: PendingTask, answer: Option<Dispatch>, before: ResumeResult, at: string, now: int)
      returns (r: Result<ResumeResult, WalError>)
      requires Valid()
      modifies this`pending, this`recoveredTaskIds, this`totalEnqueued, this`totalFinished, wal`disk
      ensures Valid() && Imbalance() == old(Imbalance()) && (old(LogOpen()) ==> LogOpen())
      ensures recoveredTaskIds <= old(recoveredTaskIds) - {task.taskId}
      ensures forall id :: id in pending && id !in old(pending) ==> id in Newcomers(answer)
      ensures r.Ok? ==>
        && task.taskId !in pending
        && (|| r.value == Counted(before, task.taskId, VerdictOf(answer))
            || exists e: WalError :: r.value == Counted(before, task.taskId, Mishap(explain(e))))
      ensures old(LogOpen()) && Short(codec, Settling(task.taskId, VerdictOf(answer), at)) ==>
        r == Ok(Counted(before, task.taskId, VerdictOf(answer)))
      ensures r.Ok? && answer.None? ==> pending == old(pending) - {task.taskId}
    {
      hide Imbalance, LogOpen, Refusal, Appended, Payload, Short, Note, VerdictOf;
      var out, thrown := TryTask(task, answer, before, at, now);
      if thrown.Some? {
        var second := Finish(task.taskId, Failed, Some(Note(Mishap(thrown.value))), at, now);
        if second.Err? {
          recoveredTaskIds := recoveredTaskIds - {task.taskId};
          return Err(second.error);
        }
        out := out.(failed := out.failed + 1, errors := out.errors + ["task " + task.taskId + ": " + thrown.value]);
        assert out == Counted(before, task.taskId, Mishap(thrown.value));
      }
      recoveredTaskIds := recoveredTaskIds - {task.taskId};
      r := Ok(out);
    }

    /** The loop over the recovered tasks. */
    method ResumeAll(
        recovered: seq<PendingTask>, answers: nat -> Option<Dispatch>, before: ResumeResult, at: string, now: int)
      returns (r: Result<ResumeResult, WalError>)
      requires Valid() && recoveredTaskIds <= Ids(recovered)
      requires Accounted(before) == 0
      modifies this`pending, this`recoveredTaskIds, this`totalEnqueued, this`totalFinished, wal`disk
      ensures Valid() && Imbalance() == old(Imbalance())
      ensures old(LogOpen()) && AllShort(codec, Ids(recovered), answers, at) ==>
        r == Ok(Tally(before, recovered, answers))
      ensures r.Ok? ==> recoveredTaskIds == {} && Completes(before, r.value, |recovered|)
      ensures r.Ok? && (forall i: nat :: answers(i).None?) ==>
        r.value.failed == |recovered| && pending == old(pending) - Ids(recovered)
      ensures r.Ok? && LeavesAlone(answers, Ids(recovered)) ==> pending.Keys !! Ids(recovered)
    {
      hide Imbalance, LogOpen, Refusal, Appended, Payload, Completes, Newcomers, LeavesAlone, Ids;
      hide AllShort, Short, Settling, Counted, Tally;
      var out := before;
      NothingCounted(before);
      NoIds();
      NoTally(before, answers);
      assert recovered[..0] == [] && recovered[0..] == recovered;
      for i := 0 to |recovered|
        invariant Valid() && Imbalance() == old(Imbalance()) && (old(LogOpen()) ==> LogOpen())
        invariant Completes(before, out, i)
        invariant old(LogOpen()) && AllShort(codec, Ids(recovered), answers, at) ==>
          out == Tally(before, recovered[..i], answers)
        invariant recoveredTaskIds <= Ids(recovered[i..])
        invariant (forall k: nat :: answers(k).None?) ==>
          out.failed == i && pending == old(pending) - Ids(recovered[..i])
        invariant LeavesAlone(answers, Ids(recovered)) ==> pending.Keys !! Ids(recovered[..i])
      {
        IdsSplit(recovered, i);
        IdsSubset(recovered, i);
        TallyNext(before, recovered, answers, i);
        if LeavesAlone(answers, Ids(recovered)) { OthersLeaveAlone(answers, i, Ids(recovered)); }
        if AllShort(codec, Ids(recovered), answers, at) {
          ShortAnswer(codec, Ids(recovered), answers, at, recovered[i].taskId, i);
        }
        var next := ResumeTask(recovered[i], answers(i), out, at, now);
        if next.Err? {
          return Err(next.error);
        }
        CountedCompletes(before, out, i, recovered[i].taskId, answers(i), next.value, explain);
        out := next.value;
      }
      assert recovered[..|recovered|] == recovered && recovered[|recovered|..] == [];
      r := Ok(out);
    }

    /** Finish the recovered tasks one by one, and keep the summary. */
    method ResumeEach(
        less: TextOrder, policy: Policy, recovered: seq<PendingTask>, handler: Option<nat -> Dispatch>, at: string, now: int)
      returns (r: Result<ResumeResult, WalError>)
      requires Valid() && Lists(recovered, pending, recoveredTaskIds) && InOrder(less, recovered)
      requires policy.FailTasks? || (policy.Redispatch? && handler.Some?)
      modifies this, wal`disk
      ensures Valid() && Imbalance() == old(Imbalance())
      ensures r.Ok? ==>
        && Completes(Start(policy, |old(recoveredTaskIds)|), r.value, |old(recoveredTaskIds)|)
        && recoveredTaskIds == {} && lastResume == Some(r.value)
      ensures var answers := Answers(policy, handler);
        && (old(LogOpen()) && AllShort(codec, old(recoveredTaskIds), answers, at) ==>
              r.Ok? && SettledInOrder(less, old(pending), old(recoveredTaskIds), answers,
                                      Start(policy, |old(recoveredTaskIds)|), r.value))
        && (r.Ok? && policy.FailTasks? ==>
              r.value.failed == |old(recoveredTaskIds)| && pending == old(pending) - old(recoveredTaskIds))
        && (r.Ok? && LeavesAlone(answers, old(recoveredTaskIds)) ==> pending.Keys !! old(recoveredTaskIds))
    {
      hide Imbalance, LogOpen, Refusal, Appended, Payload, Lists, InOrder, Ids, Newcomers, LeavesAlone;
      hide AllShort, SettledInOrder, Tally, Answers, Completes;
      var answers := Answers(policy, handler);
      AnswersShape(policy, handler);
      ListsIds(recovered, pending, recoveredTaskIds);
      var out := Start(policy, |recovered|);
      Settled(less, pending, recoveredTaskIds, recovered, answers, out);
      r := ResumeAll(recovered, answers, out, at, now);
      if r.Ok? {
        lastResume := Some(r.value);
      }
    }

    /**
      Resume the tasks that were pending at start.  Every scanned task is accounted for exactly once,
      no task stays marked as recovered, and the totals stay balanced, whatever other callers do while
      the handler is awaited; with an open log and records that fit, each task is counted as its answer says.
    */
    method ResumeRecoveredPending(
        less: TextOrder, requested: Option<Policy>, handler: Option<nat -> Dispatch>, at: string, now: int)
      returns (r: Result<ResumeResult, WalError>)
      requires Valid() && StrictTotal(less)
      modifies this, wal`disk
      ensures Valid() && Imbalance() == old(Imbalance())
      ensures r.Ok? ==>
        && r.value.scanned == |old(recoveredTaskIds)| == Accounted(r.value)
        && recoveredTaskIds == {} && lastResume == Some(r.value)
        && r.value.policy == (if requested.Some? then requested.value else defaultPolicy)
      ensures Chosen(requested).KeepTasks? || (Chosen(requested).Redispatch? && handler.None?) ==>
        && r.Ok? && r.value.kept == r.value.scanned
        && pending == old(pending) && wal.disk == old(wal.disk)
      ensures Chosen(requested).FailTasks? || (Chosen(requested).Redispatch? && handler.Some?) ==>
        var answers := Answers(Chosen(requested), handler);
        && (old(LogOpen()) && AllShort(codec, old(recoveredTaskIds), answers, at) ==>
              r.Ok? && SettledInOrder(less, old(pending), old(recoveredTaskIds), answers,
                                      Start(Chosen(requested), |old(recoveredTaskIds)|), r.value))
        && (r.Ok? && Chosen(requested).FailTasks? ==>
              r.value.failed == r.value.scanned && pending == old(pending) - old(recoveredTaskIds))
        && (r.Ok? && LeavesAlone(answers, old(recoveredTaskIds)) ==>
              r.value.kept == 0 && pending.Keys !! old(recoveredTaskIds))
    {
      hide Valid, Imbalance, LogOpen, Refusal, Appended, Payload, Lists, InOrder, Ids, Newcomers, LeavesAlone;
      hide AllShort, SettledInOrder, Tally, Answers;
      var policy := Chosen(requested);
      var recovered := ListRecovered(less);
      ListsIds(recovered, pending, recoveredTaskIds);
      var out := Start(policy, |recovered|);
      if |recovered| == 0 {
        Settled(less, pending, recoveredTaskIds, recovered, Answers(policy, handler), out);
        NoTally(out, Answers(policy, handler));
        KeepSummary(out);
        return Ok(out);
      }
      if policy.KeepTasks? {
        out := out.(kept := |recovered|);
        KeepSummary(out);
        return Ok(out);
      }
      if policy.Redispatch? && handler.None? {
        out := out.(kept := |recovered|, errors := ["resume redispatch requested but no redispatch handler was provided"]);
        KeepSummary(out);
        return Ok(out);
      }
      r := ResumeEach(less, policy, recovered, handler, at, now);
    }

    /** The recovered marks, if any are left, are cleared and the summary is kept. */
    method KeepSummary(out: ResumeResult)
      requires Valid()
      modifies this`recoveredTaskIds, this`lastResume
      ensures Valid() && recoveredTaskIds == {} && lastResume == Some(out)
    {
      recoveredTaskIds := {};
      lastResume := Some(out);
    }
  }
}
