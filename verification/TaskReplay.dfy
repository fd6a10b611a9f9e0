/**
  Executions of many runs over one chain, with restarts.  A run is executed by one
  caller at a time; a crash drops every execution in progress and keeps the chain.
*/
module TaskReplay {
  import opened Basics
  import opened LoopEngine
  import opened TaskExecutor

  /** How far the execution of a run has got. */
  datatype Stage =
    | Created
    | Called
    | Found(cached: GenerateResult)
    | Missed
    | Provided(answer: GenerateResult)
    | Failing
    | Settled(result: GenerateResult)
    | Finished(result: GenerateResult)

  /** A provider call and the chain length at that moment; a result handed to the caller. */
  datatype Call = Call(runId: string, at: nat)
  datatype Answer = Answer(runId: string, result: GenerateResult)

  datatype World = World(chain: seq<Block>, running: map<string, Stage>, calls: seq<Call>, answers: seq<Answer>)

  datatype Step =
    | Begin(runId: string)
    | EmitToolCall(runId: string)
    | Lookup(runId: string, listing: seq<Block>)
    | EmitReused(runId: string)
    | CallProvider(runId: string, provider: Option<GenerateResult>)
    | EmitResult(runId: string)
    | EmitError(runId: string)
    | EmitCompleted(runId: string)
    | GiveBack(runId: string)
    | Foreign(block: Block)
    | Crash

  const EMPTY: World := World([], map[], [], [])

  predicate At(w: World, runId: string, stage: Stage) { runId in w.running && w.running[runId] == stage }

  /** Other components append blocks too, but none that claims to be a tool result. */
  predicate Enabled(w: World, step: Step) {
    match step
    case Begin(runId) => runId !in w.running
    case EmitToolCall(runId) => At(w, runId, Created)
    case Lookup(runId, listing) => At(w, runId, Called) && multiset(listing) == multiset(w.chain)
    case EmitReused(runId) => runId in w.running && w.running[runId].Found?
    case CallProvider(runId, _) => At(w, runId, Missed)
    case EmitResult(runId) => runId in w.running && w.running[runId].Provided?
    case EmitError(runId) => At(w, runId, Failing)
    case EmitCompleted(runId) => runId in w.running && w.running[runId].Settled?
    case GiveBack(runId) => runId in w.running && w.running[runId].Finished?
    case Foreign(block) => block.Unreadable? || block.event != "task.tool_result"
    case Crash => true
  }

  function Append(w: World, b: Block): World { w.(chain := w.chain + [b]) }

  function Move(w: World, runId: string, stage: Stage): World { w.(running := w.running[runId := stage]) }

  function Leave(w: World, runId: string): World { w.(running := w.running - {runId}) }

  function Take(w: World, step: Step): World
    requires Enabled(w, step)
  {
    match step
    case Begin(runId) => Move(Append(w, RunEvent("task.created", runId)), runId, Created)
    case EmitToolCall(runId) => Move(Append(w, ToolEvent("task.tool_call", runId)), runId, Called)
    case Lookup(runId, listing) =>
      var cached := FirstOffer(listing, runId);
      Move(w, runId, if cached.Some? then Found(cached.value) else Missed)
    case EmitReused(runId) =>
      Move(Append(w, ToolEvent("task.tool_result.reused", runId)), runId, Settled(w.running[runId].cached))
    case CallProvider(runId, provider) =>
      Move(w, runId, if provider.Some? then Provided(provider.value) else Failing)
      .(calls := w.calls + [Call(runId, |w.chain|)])
    case EmitResult(runId) =>
      var r := w.running[runId].answer;
      Move(Append(w, ResultEvent(runId, r)), runId, Settled(r))
    case EmitError(runId) => Leave(Append(w, RunEvent("task.error", runId)), runId)
    case EmitCompleted(runId) =>
      Move(Append(w, RunEvent("task.completed", runId)), runId, Finished(w.running[runId].result))
    case GiveBack(runId) =>
      Leave(w, runId).(answers := w.answers + [Answer(runId, w.running[runId].result)])
    case Foreign(block) => Append(w, block)
    case Crash => w.(running := map[])
  }

  predicate CanRun(w: World, steps: seq<Step>)
    decreases |steps|
  {
    |steps| > 0 ==> Enabled(w, steps[0]) && CanRun(Take(w, steps[0]), steps[1..])
  }

  function Run(w: World, steps: seq<Step>): World
    requires CanRun(w, steps)
    decreases |steps|
  {
    if |steps| == 0 then w else Run(Take(w, steps[0]), steps[1..])
  }

  /** After a crash nothing is in progress: every run can be executed again, and the chain is as it was. */
  lemma CrashRestarts(w: World, runId: string)
    ensures Enabled(w, Crash) && Enabled(Take(w, Crash), Begin(runId))
    ensures Take(w, Crash).chain == w.chain && Take(w, Crash).answers == w.answers
  {}

  /** Every result the provider gives in these steps is well formed. */
  predicate ProviderWellFormed(steps: seq<Step>) {
    forall i :: 0 <= i < |steps| && steps[i].CallProvider? && steps[i].provider.Some? ==>
      WellFormed(steps[i].provider.value)
  }

  // ---------- What a lookup finds ----------

  predicate HasResult(chain: seq<Block>, runId: string, r: GenerateResult) { ResultEvent(runId, r) in chain }

  predicate NoResult(chain: seq<Block>, runId: string) {
    forall i :: 0 <= i < |chain| ==> !IsResultOf(chain[i], runId)
  }

  /** The tool results of a run on the chain are stored, well-formed results, and there is at most one. */
  ghost predicate ResultsOk(chain: seq<Block>, runId: string) {
    && (forall i :: 0 <= i < |chain| && IsResultOf(chain[i], runId) ==>
          exists r :: chain[i] == ResultEvent(runId, r) && WellFormed(r))
    && (forall i, j :: 0 <= i < j < |chain| ==> !(IsResultOf(chain[i], runId) && IsResultOf(chain[j], runId)))
  }

  /** `r` is the stored result of the run, or its reused form. */
  ghost predicate Agrees(chain: seq<Block>, runId: string, r: GenerateResult) {
    exists q :: HasResult(chain, runId, q) && WellFormed(q) && (r == q || r == Reused(q))
  }

  lemma {:induction false} OfferFound(listing: seq<Block>, runId: string)
    ensures var r := FirstOffer(listing, runId);
      if r.Some? then exists b :: b in listing && Offer(b, runId) == r
      else forall b :: b in listing ==> Offer(b, runId).None?
  {
    hide Offer;
    if |listing| > 0 && Offer(listing[0], runId).None? {
      OfferFound(listing[1..], runId);
      assert listing == [listing[0]] + listing[1..];
    }
  }

  lemma OfferOfResult(runId: string, r: GenerateResult)
    ensures IsResultOf(ResultEvent(runId, r), runId)
    ensures Offer(ResultEvent(runId, r), runId) == if WellFormed(r) then Some(Reused(r)) else None
  {
    hide Stored, AsGenerateResult, WellFormed, Reused;
    StoredReadsBack(r);
  }

  /** Whatever the order of the listing, a lookup finds the stored result, or nothing where there is none. */
  lemma LookupSound(chain: seq<Block>, listing: seq<Block>, runId: string)
    requires ResultsOk(chain, runId) && multiset(listing) == multiset(chain)
    ensures var cached := FirstOffer(listing, runId);
      if cached.Some? then Agrees(chain, runId, cached.value) else NoResult(chain, runId)
  {
    hide FirstOffer, Offer, IsResultOf, ResultEvent, WellFormed, Reused;
    OfferFound(listing, runId);
    assert forall b :: b in listing <==> b in multiset(listing);
    assert forall b :: b in chain <==> b in multiset(chain);
    var cached := FirstOffer(listing, runId);
    if cached.Some? {
      var b :| b in listing && Offer(b, runId) == cached;
      OfferNeedsResult(b, runId);
      var i :| 0 <= i < |chain| && chain[i] == b;
      var q :| b == ResultEvent(runId, q) && WellFormed(q);
      OfferOfResult(runId, q);
      assert HasResult(chain, runId, q);
    } else {
      forall i | 0 <= i < |chain|
        ensures !IsResultOf(chain[i], runId)
      {
        assert chain[i] in listing;
        if IsResultOf(chain[i], runId) {
          var q :| chain[i] == ResultEvent(runId, q) && WellFormed(q);
          OfferOfResult(runId, q);
        }
      }
    }
  }

  lemma OfferNeedsResult(b: Block, runId: string)
    ensures Offer(b, runId).Some? ==> IsResultOf(b, runId)
  {}

  // ---------- The invariant ----------

  ghost predicate StageOk(chain: seq<Block>, runId: string, stage: Stage) {
    match stage
    case Missed => NoResult(chain, runId)
    case Failing => NoResult(chain, runId)
    case Provided(r) => NoResult(chain, runId) && WellFormed(r)
    case Found(r) => Agrees(chain, runId, r)
    case Settled(r) => Agrees(chain, runId, r)
    case Finished(r) => Agrees(chain, runId, r)
    case _ => true
  }

  ghost predicate WorldOk(w: World) {
    && (forall runId :: ResultsOk(w.chain, runId))
    && (forall runId :: runId in w.running ==> StageOk(w.chain, runId, w.running[runId]))
    && (forall c :: c in w.calls ==> c.at <= |w.chain| && NoResult(w.chain[..c.at], c.runId))
    && (forall r :: r in w.answers ==> Agrees(w.chain, r.runId, r.result))
  }

  /** A block that is no result of the run changes nothing for it. */
  lemma PlainBlock(chain: seq<Block>, b: Block, runId: string)
    requires !IsResultOf(b, runId)
    ensures ResultsOk(chain, runId) ==> ResultsOk(chain + [b], runId)
    ensures NoResult(chain, runId) ==> NoResult(chain + [b], runId)
  {
    hide IsResultOf, ResultEvent, WellFormed;
    var after := chain + [b];
    assert forall i :: 0 <= i < |chain| ==> after[i] == chain[i];
    if ResultsOk(chain, runId) {
      forall i | 0 <= i < |after| && IsResultOf(after[i], runId)
        ensures exists r :: after[i] == ResultEvent(runId, r) && WellFormed(r)
      {
        assert i < |chain|;
        var r :| chain[i] == ResultEvent(runId, r) && WellFormed(r);
      }
    }
  }

  lemma AgreesGrows(chain: seq<Block>, b: Block, runId: string, r: GenerateResult)
    requires Agrees(chain, runId, r)
    ensures Agrees(chain + [b], runId, r)
  {
    hide ResultEvent, WellFormed, Reused;
    var q :| HasResult(chain, runId, q) && WellFormed(q) && (r == q || r == Reused(q));
    assert HasResult(chain + [b], runId, q);
  }

  lemma StageGrows(chain: seq<Block>, b: Block, runId: string, stage: Stage)
    requires StageOk(chain, runId, stage) && !IsResultOf(b, runId)
    ensures StageOk(chain + [b], runId, stage)
  {
    hide IsResultOf, Agrees, NoResult, ResultsOk;
    PlainBlock(chain, b, runId);
    match stage
    case Found(r) => AgreesGrows(chain, b, runId, r);
    case Settled(r) => AgreesGrows(chain, b, runId, r);
    case Finished(r) => AgreesGrows(chain, b, runId, r);
    case _ =>
  }

  /** The history stays explained when the chain grows. */
  lemma HistoryGrows(w: World, b: Block)
    requires WorldOk(w)
    ensures forall c :: c in w.calls ==>
      c.at <= |w.chain + [b]| && NoResult((w.chain + [b])[..c.at], c.runId)
    ensures forall r :: r in w.answers ==> Agrees(w.chain + [b], r.runId, r.result)
  {
    hide IsResultOf, Agrees, NoResult, ResultsOk, StageOk;
    forall c | c in w.calls
      ensures c.at <= |w.chain + [b]| && NoResult((w.chain + [b])[..c.at], c.runId)
    {
      assert (w.chain + [b])[..c.at] == w.chain[..c.at];
    }
    forall r | r in w.answers
      ensures Agrees(w.chain + [b], r.runId, r.result)
    {
      AgreesGrows(w.chain, b, r.runId, r.result);
    }
  }

  /** Appending a block that is no tool result. */
  lemma AppendKeeps(w: World, b: Block)
    requires WorldOk(w) && forall runId :: !IsResultOf(b, runId)
    ensures WorldOk(Append(w, b))
  {
    hide IsResultOf, Agrees, NoResult, ResultsOk, StageOk;
    HistoryGrows(w, b);
    forall runId
      ensures ResultsOk(w.chain + [b], runId)
    {
      PlainBlock(w.chain, b, runId);
    }
    forall runId | runId in w.running
      ensures StageOk(w.chain + [b], runId, w.running[runId])
    {
      StageGrows(w.chain, b, runId, w.running[runId]);
    }
  }

  lemma MoveKeeps(w: World, runId: string, stage: Stage)
    requires WorldOk(w) && StageOk(w.chain, runId, stage)
    ensures WorldOk(Move(w, runId, stage))
  {
    hide IsResultOf, Agrees, NoResult, ResultsOk, StageOk;
  }

  lemma LeaveKeeps(w: World, runId: string)
    requires WorldOk(w)
    ensures WorldOk(Leave(w, runId))
  {
    hide IsResultOf, Agrees, NoResult, ResultsOk, StageOk;
  }

  /** Storing the first result of a run. */
  lemma ResultKeeps(w: World, runId: string, r: GenerateResult)
    requires WorldOk(w) && NoResult(w.chain, runId) && WellFormed(r)
    ensures WorldOk(Move(Append(w, ResultEvent(runId, r)), runId, Settled(r)))
  {
    hide IsResultOf, Agrees, NoResult, ResultsOk, StageOk, ResultEvent, WellFormed;
    var b := ResultEvent(runId, r);
    HistoryGrows(w, b);
    forall other
      ensures ResultsOk(w.chain + [b], other)
    {
      if other == runId {
        FirstResult(w.chain, runId, r);
      } else {
        ResultOfOther(runId, other, r);
        PlainBlock(w.chain, b, other);
      }
    }
    forall other | other in w.running && other != runId
      ensures StageOk(w.chain + [b], other, w.running[other])
    {
      ResultOfOther(runId, other, r);
      StageGrows(w.chain, b, other, w.running[other]);
    }
    FirstResult(w.chain, runId, r);
    SettledIsOk(w.chain + [b], runId, r);
  }

  lemma SettledIsOk(chain: seq<Block>, runId: string, r: GenerateResult)
    requires Agrees(chain, runId, r)
    ensures StageOk(chain, runId, Settled(r)) && StageOk(chain, runId, Finished(r)) && StageOk(chain, runId, Found(r))
  {}

  lemma ResultOfOther(runId: string, other: string, r: GenerateResult)
    requires runId != other
    ensures !IsResultOf(ResultEvent(runId, r), other)
  {}

  lemma FirstResult(chain: seq<Block>, runId: string, r: GenerateResult)
    requires NoResult(chain, runId) && WellFormed(r)
    ensures ResultsOk(chain + [ResultEvent(runId, r)], runId)
    ensures Agrees(chain + [ResultEvent(runId, r)], runId, r)
  {
    hide IsResultOf, ResultEvent, WellFormed, Reused;
    var b := ResultEvent(runId, r);
    var after := chain + [b];
    assert after[|chain|] == b;
    assert forall i :: 0 <= i < |chain| ==> after[i] == chain[i];
    assert HasResult(after, runId, r);
  }

  lemma EventNames(runId: string, other: string)
    ensures !IsResultOf(RunEvent("task.created", runId), other) && !IsResultOf(RunEvent("task.completed", runId), other)
    ensures !IsResultOf(RunEvent("task.error", runId), other) && !IsResultOf(ToolEvent("task.tool_call", runId), other)
    ensures !IsResultOf(ToolEvent("task.tool_result.reused", runId), other)
  {
    assert "task.created"[5] == 'c' && "task.completed"[5] == 'c' && "task.error"[5] == 'e';
    assert |"task.tool_call"| == 14 && |"task.tool_result"| == 16 && |"task.tool_result.reused"| == 23;
    assert "task.tool_result"[5] == 't';
  }

  lemma CallKeeps(w: World, runId: string, stage: Stage)
    requires WorldOk(w) && NoResult(w.chain, runId) && StageOk(w.chain, runId, stage)
    ensures WorldOk(Move(w, runId, stage).(calls := w.calls + [Call(runId, |w.chain|)]))
  {
    hide IsResultOf, Agrees, NoResult, ResultsOk, StageOk;
    MoveKeeps(w, runId, stage);
    assert w.chain[..|w.chain|] == w.chain;
  }

  lemma ReturnKeeps(w: World, runId: string, r: GenerateResult)
    requires WorldOk(w) && Agrees(w.chain, runId, r)
    ensures WorldOk(Leave(w, runId).(answers := w.answers + [Answer(runId, r)]))
  {
    hide IsResultOf, Agrees, NoResult, ResultsOk, StageOk;
    LeaveKeeps(w, runId);
  }

  lemma AppendMoveKeeps(w: World, b: Block, runId: string, stage: Stage)
    requires WorldOk(w) && StageOk(w.chain, runId, stage) && forall other :: !IsResultOf(b, other)
    ensures WorldOk(Move(Append(w, b), runId, stage))
  {
    hide IsResultOf, StageOk, WorldOk;
    AppendKeeps(w, b);
    StageGrows(w.chain, b, runId, stage);
    MoveKeeps(Append(w, b), runId, stage);
  }

  lemma StageOf(w: World, runId: string)
    requires WorldOk(w) && runId in w.running
    ensures StageOk(w.chain, runId, w.running[runId]) && ResultsOk(w.chain, runId)
  {}

  lemma StageFacts(chain: seq<Block>, runId: string, stage: Stage)
    requires StageOk(chain, runId, stage)
    ensures stage.Missed? || stage.Provided? || stage.Failing? ==> NoResult(chain, runId)
    ensures stage.Provided? ==> WellFormed(stage.answer)
    ensures stage.Found? ==> Agrees(chain, runId, stage.cached)
    ensures stage.Settled? || stage.Finished? ==> Agrees(chain, runId, stage.result)
  {}

  lemma MissIsOk(chain: seq<Block>, runId: string, provider: Option<GenerateResult>)
    requires NoResult(chain, runId) && (provider.Some? ==> WellFormed(provider.value))
    ensures StageOk(chain, runId, Missed)
    ensures StageOk(chain, runId, if provider.Some? then Provided(provider.value) else Failing)
  {}

  lemma StepKeeps(w: World, step: Step)
    requires WorldOk(w) && Enabled(w, step)
    requires step.CallProvider? && step.provider.Some? ==> WellFormed(step.provider.value)
    ensures WorldOk(Take(w, step))
  {
    hide WorldOk, StageOk, NoResult, Agrees, WellFormed, FirstOffer, IsResultOf, ResultsOk;
    hide RunEvent, ToolEvent, ResultEvent, Append, Move, Leave;
    if step.Foreign? {
      ForeignPlain(step.block);
      AppendKeeps(w, step.block);
    } else if step.Crash? {
      CrashKeeps(w);
    } else {
      var runId := step.runId;
      forall other { EventNames(runId, other); }
      if step.Begin? {
        EarlyStages(w.chain, runId);
        AppendMoveKeeps(w, RunEvent("task.created", runId), runId, Created);
      } else {
        StageOf(w, runId);
        var stage := w.running[runId];
        StageFacts(w.chain, runId, stage);
        match step {
          case EmitToolCall(_) =>
            EarlyStages(w.chain, runId);
            AppendMoveKeeps(w, ToolEvent("task.tool_call", runId), runId, Called);
          case Lookup(_, listing) =>
            LookupSound(w.chain, listing, runId);
            var cached := FirstOffer(listing, runId);
            if cached.Some? { SettledIsOk(w.chain, runId, cached.value); } else { MissIsOk(w.chain, runId, None); }
            MoveKeeps(w, runId, if cached.Some? then Found(cached.value) else Missed);
          case EmitReused(_) =>
            SettledIsOk(w.chain, runId, stage.cached);
            AppendMoveKeeps(w, ToolEvent("task.tool_result.reused", runId), runId, Settled(stage.cached));
          case CallProvider(_, provider) =>
            MissIsOk(w.chain, runId, provider);
            CallKeeps(w, runId, if provider.Some? then Provided(provider.value) else Failing);
          case EmitResult(_) => ResultKeeps(w, runId, stage.answer);
          case EmitError(_) =>
            AppendKeeps(w, RunEvent("task.error", runId));
            LeaveKeeps(Append(w, RunEvent("task.error", runId)), runId);
          case EmitCompleted(_) =>
            SettledIsOk(w.chain, runId, stage.result);
            AppendMoveKeeps(w, RunEvent("task.completed", runId), runId, Finished(stage.result));
          case GiveBack(_) => ReturnKeeps(w, runId, stage.result);
        }
      }
    }
  }

  lemma EarlyStages(chain: seq<Block>, runId: string)
    ensures StageOk(chain, runId, Created) && StageOk(chain, runId, Called)
  {}

  lemma ForeignPlain(b: Block)
    requires b.Unreadable? || b.event != "task.tool_result"
    ensures forall runId :: !IsResultOf(b, runId)
  {}

  lemma CrashKeeps(w: World)
    requires WorldOk(w)
    ensures WorldOk(w.(running := map[]))
  {
    hide IsResultOf, Agrees, NoResult, ResultsOk, StageOk;
  }

  lemma {:induction false} RunKeeps(w: World, steps: seq<Step>)
    requires WorldOk(w) && CanRun(w, steps) && ProviderWellFormed(steps)
    ensures WorldOk(Run(w, steps))
    decreases |steps|
  {
    hide WorldOk, Take, Enabled, WellFormed;
    if |steps| > 0 {
      StepKeeps(w, steps[0]);
      RunKeeps(Take(w, steps[0]), steps[1..]);
    }
  }

  lemma EmptyOk()
    ensures WorldOk(EMPTY)
  {
    hide IsResultOf;
  }

  // ---------- At most once ----------

  /** However often and wherever the process restarts, a run stores at most one tool result. */
  lemma AtMostOneResult(steps: seq<Step>, runId: string, i: nat, j: nat)
    requires CanRun(EMPTY, steps) && ProviderWellFormed(steps)
    ensures var chain := Run(EMPTY, steps).chain;
      i < j < |chain| ==> !(IsResultOf(chain[i], runId) && IsResultOf(chain[j], runId))
  {
    hide IsResultOf, StageOk, NoResult, Agrees, CanRun, Run, ProviderWellFormed;
    EmptyOk();
    RunKeeps(EMPTY, steps);
    assert ResultsOk(Run(EMPTY, steps).chain, runId);
  }

  /** The provider is only ever called while the chain holds no result of the run. */
  lemma NeverCalledAgain(steps: seq<Step>, c: Call, i: nat)
    requires CanRun(EMPTY, steps) && ProviderWellFormed(steps)
    ensures var w := Run(EMPTY, steps);
      c in w.calls && i < c.at ==> i < |w.chain| && !IsResultOf(w.chain[i], c.runId)
  {
    hide IsResultOf, StageOk, ResultsOk, Agrees, CanRun, Run, ProviderWellFormed;
    EmptyOk();
    RunKeeps(EMPTY, steps);
    var w := Run(EMPTY, steps);
    if c in w.calls && i < c.at {
      assert w.chain[..c.at][i] == w.chain[i];
    }
  }

  /** Every completed execution of a run hands back one result: the stored one, its timing in whole milliseconds when reused. */
  lemma OneAnswer(steps: seq<Step>, a: Answer, b: Answer)
    requires CanRun(EMPTY, steps) && ProviderWellFormed(steps)
    requires a in Run(EMPTY, steps).answers && b in Run(EMPTY, steps).answers && a.runId == b.runId
    ensures Agrees(Run(EMPTY, steps).chain, a.runId, a.result)
    ensures Reused(a.result) == Reused(b.result)
    ensures a.result == b.result || a.result == Reused(b.result) || b.result == Reused(a.result)
  {
    hide IsResultOf, StageOk, NoResult, CanRun, Run, ProviderWellFormed, WellFormed, ResultEvent, Agrees, ResultsOk;
    EmptyOk();
    RunKeeps(EMPTY, steps);
    var w := Run(EMPTY, steps);
    assert ResultsOk(w.chain, a.runId);
    SameStored(w.chain, a.runId, a.result, b.result);
  }

  lemma SameStored(chain: seq<Block>, runId: string, a: GenerateResult, b: GenerateResult)
    requires ResultsOk(chain, runId) && Agrees(chain, runId, a) && Agrees(chain, runId, b)
    ensures Reused(a) == Reused(b)
    ensures a == b || a == Reused(b) || b == Reused(a)
  {
    hide IsResultOf, ResultEvent, WellFormed, Stored;
    var p :| HasResult(chain, runId, p) && WellFormed(p) && (a == p || a == Reused(p));
    var q :| HasResult(chain, runId, q) && WellFormed(q) && (b == q || b == Reused(q));
    OfferOfResult(runId, p);
    OfferOfResult(runId, q);
    var i :| 0 <= i < |chain| && chain[i] == ResultEvent(runId, p);
    var j :| 0 <= j < |chain| && chain[j] == ResultEvent(runId, q);
    if i < j {} else if j < i {}
    assert i == j;
    SameEvent(runId, p, q);
  }

  lemma SameEvent(runId: string, p: GenerateResult, q: GenerateResult)
    requires ResultEvent(runId, p) == ResultEvent(runId, q)
    ensures p == q
  {
    hide Stored;
    StoredInjective(p, q);
  }

  // ---------- Exactly when the stored result is reused ----------

  /**
    Once a result of the run has been stored, wherever it stands on the chain and in whatever order the blocks
    are listed, the next execution calls the provider again exactly when the result was not well formed (stored,
    it is not read back), or when reuse is off: switched off by the flag, or by a request without flag and run id.
  */
  lemma CalledAgainIff(runId: string, request: Option<string>, flag: Option<bool>, r: GenerateResult,
                       provider: Option<GenerateResult>, chain: seq<Block>, between: seq<Block>, listing: seq<Block>)
    requires request.Some? ==> request.value == runId
    requires NoResult(chain, runId) && NoResult(between, runId)
    requires multiset(listing) == multiset(chain + [ResultEvent(runId, r)] + between)
    ensures var next := Execution(runId, DedupeEnabled(flag, request), listing, provider);
      && (next.called <==>
            !WellFormed(r) || flag == Some(false) || (flag == None && (request == None || request == Some(""))))
      && next.returned == if next.called then provider else Some(Reused(r))
  {
    hide Offer, WellFormed, Reused, IsResultOf, ResultEvent, RunEvent, ToolEvent;
    var result := ResultEvent(runId, r);
    var all := chain + [result] + between;
    assert all[|chain|] == result && result in multiset(all) && result in listing;
    forall b | b in listing && b != result
      ensures Offer(b, runId).None?
    {
      assert b in multiset(listing) && b in all;
      OfferNeedsResult(b, runId);
    }
    OfferOfResult(runId, r);
    OfferFound(listing, runId);
  }

  // ---------- An execution is a run of the steps ----------

  /** The steps of an execution that nothing interrupts, from the lookup on. */
  function AfterLookup(runId: string, cached: Option<GenerateResult>, provider: Option<GenerateResult>): seq<Step> {
    if cached.Some? then [EmitReused(runId), EmitCompleted(runId), GiveBack(runId)]
    else if provider.Some? then [CallProvider(runId, provider), EmitResult(runId), EmitCompleted(runId), GiveBack(runId)]
    else [CallProvider(runId, None), EmitError(runId)]
  }

  function Uninterrupted(runId: string, listing: seq<Block>, provider: Option<GenerateResult>): seq<Step> {
    [Begin(runId), EmitToolCall(runId), Lookup(runId, listing)]
    + AfterLookup(runId, FirstOffer(listing, runId), provider)
  }

  lemma Prepend(w: World, step: Step, rest: seq<Step>)
    requires Enabled(w, step) && CanRun(Take(w, step), rest)
    ensures CanRun(w, [step] + rest) && Run(w, [step] + rest) == Run(Take(w, step), rest)
  {
    hide Take, Enabled;
    var all := [step] + rest;
    assert all[0] == step && all[1..] == rest;
  }

  lemma TwoSteps(w: World, a: Step, b: Step)
    requires Enabled(w, a) && Enabled(Take(w, a), b)
    ensures CanRun(w, [a, b]) && Run(w, [a, b]) == Take(Take(w, a), b)
  {
    hide Take, Enabled;
    var v := Take(Take(w, a), b);
    assert CanRun(v, []) && Run(v, []) == v;
    Prepend(Take(w, a), b, []);
    assert [b] + [] == [b];
    Prepend(w, a, [b]);
    assert [a] + [b] == [a, b];
  }

  lemma ThreeSteps(w: World, a: Step, b: Step, c: Step)
    requires Enabled(w, a) && Enabled(Take(w, a), b) && Enabled(Take(Take(w, a), b), c)
    ensures CanRun(w, [a, b, c]) && Run(w, [a, b, c]) == Take(Take(Take(w, a), b), c)
  {
    hide Take, Enabled;
    TwoSteps(Take(w, a), b, c);
    Prepend(w, a, [b, c]);
    assert [a] + [b, c] == [a, b, c];
  }

  lemma LookedUp(w: World, runId: string, listing: seq<Block>, provider: Option<GenerateResult>)
    requires At(w, runId, if FirstOffer(listing, runId).Some? then Found(FirstOffer(listing, runId).value) else Missed)
    ensures CanRun(w, AfterLookup(runId, FirstOffer(listing, runId), provider))
    ensures var cached := FirstOffer(listing, runId);
      var after := Run(w, AfterLookup(runId, cached, provider));
      if cached.Some? then
        && after.chain == w.chain + [ToolEvent("task.tool_result.reused", runId), RunEvent("task.completed", runId)]
        && after.answers == w.answers + [Answer(runId, cached.value)] && after.calls == w.calls
      else
        && after.calls == w.calls + [Call(runId, |w.chain|)]
        && if provider.Some? then
             && after.chain == w.chain + [ResultEvent(runId, provider.value), RunEvent("task.completed", runId)]
             && after.answers == w.answers + [Answer(runId, provider.value)]
           else
             after.chain == w.chain + [RunEvent("task.error", runId)] && after.answers == w.answers
    ensures Run(w, AfterLookup(runId, FirstOffer(listing, runId), provider)).running == w.running - {runId}
  {
    hide FirstOffer, RunEvent, ToolEvent, ResultEvent, CanRun, Run;
    var cached := FirstOffer(listing, runId);
    if cached.Some? {
      ThreeSteps(w, EmitReused(runId), EmitCompleted(runId), GiveBack(runId));
    } else {
      var called := Take(w, CallProvider(runId, provider));
      if provider.Some? {
        ThreeSteps(called, EmitResult(runId), EmitCompleted(runId), GiveBack(runId));
        Prepend(w, CallProvider(runId, provider), [EmitResult(runId), EmitCompleted(runId), GiveBack(runId)]);
        assert [CallProvider(runId, provider)] + [EmitResult(runId), EmitCompleted(runId), GiveBack(runId)]
            == AfterLookup(runId, cached, provider);
      } else {
        TwoSteps(w, CallProvider(runId, None), EmitError(runId));
      }
    }
  }

  lemma OpeningSteps(w: World, runId: string, listing: seq<Block>)
    requires runId !in w.running
    requires multiset(listing) ==
      multiset(w.chain + [RunEvent("task.created", runId), ToolEvent("task.tool_call", runId)])
    ensures Enabled(w, Begin(runId))
    ensures var a := Take(w, Begin(runId));
      Enabled(a, EmitToolCall(runId)) && Enabled(Take(a, EmitToolCall(runId)), Lookup(runId, listing))
    ensures var c := Take(Take(Take(w, Begin(runId)), EmitToolCall(runId)), Lookup(runId, listing));
      && c.chain == w.chain + [RunEvent("task.created", runId), ToolEvent("task.tool_call", runId)]
      && c.calls == w.calls && c.answers == w.answers && c.running - {runId} == w.running
      && At(c, runId, if FirstOffer(listing, runId).Some? then Found(FirstOffer(listing, runId).value) else Missed)
  {
    hide FirstOffer, RunEvent, ToolEvent;
    var b := Take(Take(w, Begin(runId)), EmitToolCall(runId));
    assert b.chain == w.chain + [RunEvent("task.created", runId), ToolEvent("task.tool_call", runId)];
  }

  /** The opening steps lead to the lookup, and the rest of the run goes on from there. */
  lemma OpeningRun(w: World, runId: string, listing: seq<Block>, provider: Option<GenerateResult>) returns (c: World)
    requires runId !in w.running
    requires multiset(listing) ==
      multiset(w.chain + [RunEvent("task.created", runId), ToolEvent("task.tool_call", runId)])
    ensures c.chain == w.chain + [RunEvent("task.created", runId), ToolEvent("task.tool_call", runId)]
    ensures c.calls == w.calls && c.answers == w.answers && c.running - {runId} == w.running
    ensures At(c, runId, if FirstOffer(listing, runId).Some? then Found(FirstOffer(listing, runId).value) else Missed)
    ensures var rest, steps := AfterLookup(runId, FirstOffer(listing, runId), provider), Uninterrupted(runId, listing, provider);
      CanRun(c, rest) ==> CanRun(w, steps) && Run(w, steps) == Run(c, rest)
  {
    hide FirstOffer, RunEvent, ToolEvent, ResultEvent, CanRun, Run, AfterLookup, Take, Enabled;
    OpeningSteps(w, runId, listing);
    var a := Take(w, Begin(runId));
    var b := Take(a, EmitToolCall(runId));
    c := Take(b, Lookup(runId, listing));
    var rest := AfterLookup(runId, FirstOffer(listing, runId), provider);
    if CanRun(c, rest) {
      Prepend(b, Lookup(runId, listing), rest);
      Prepend(a, EmitToolCall(runId), [Lookup(runId, listing)] + rest);
      Prepend(w, Begin(runId), [EmitToolCall(runId)] + ([Lookup(runId, listing)] + rest));
      assert [Begin(runId)] + ([EmitToolCall(runId)] + ([Lookup(runId, listing)] + rest))
          == Uninterrupted(runId, listing, provider);
    }
  }

  /** What `Execute` does to the chain is what the steps of an uninterrupted execution do, and nothing of it is left
      in progress. */
  lemma ExecutionIsRun(w: World, runId: string, listing: seq<Block>, provider: Option<GenerateResult>)
    requires runId !in w.running
    requires multiset(listing) ==
      multiset(w.chain + [RunEvent("task.created", runId), ToolEvent("task.tool_call", runId)])
    ensures var steps, effect := Uninterrupted(runId, listing, provider), Execution(runId, true, listing, provider);
      && CanRun(w, steps)
      && Run(w, steps).chain == w.chain + effect.events && Run(w, steps).running == w.running
      && (|Run(w, steps).calls| == |w.calls| + 1 <==> effect.called)
      && Run(w, steps).answers
         == w.answers + if effect.returned.Some? then [Answer(runId, effect.returned.value)] else []
  {
    hide FirstOffer, RunEvent, ToolEvent, ResultEvent, CanRun, Run, AfterLookup, Take, Enabled, Uninterrupted;
    var c := OpeningRun(w, runId, listing, provider);
    LookedUp(c, runId, listing, provider);
    var opening := [RunEvent("task.created", runId), ToolEvent("task.tool_call", runId)];
    Associate(w.chain, opening, [ToolEvent("task.tool_result.reused", runId), RunEvent("task.completed", runId)]);
    Associate(w.chain, opening, [RunEvent("task.error", runId)]);
    if provider.Some? {
      Associate(w.chain, opening, [ResultEvent(runId, provider.value), RunEvent("task.completed", runId)]);
    }
  }

  lemma Associate<T>(a: seq<T>, b: seq<T>, c: seq<T>)
    ensures (a + b) + c == a + (b + c)
  {}
}
