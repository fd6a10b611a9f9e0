/**
  One generation request: its events on the chain, the bounded loop around the
  provider call, and the reuse of a stored result when a run is executed again.
*/
module TaskExecutor {
  import opened Basics
  import opened LoopEngine

  // ---------- Results as stored and as read back ----------

  /** A parsed JSON value. */
  datatype Value =
    | Null
    | Bool(flag: bool)
    | Number(number: real)
    | Text(text: string)
    | List(items: seq<Value>)
    | Object(fields: map<string, Value>)

  datatype GenerateResult = GenerateResult(
    id: string, providerUsed: string, modelUsed: Option<string>, output: string,
    usage: Option<map<string, Value>>, timingMs: real, trace: Option<map<string, Value>>)

  predicate IsProviderName(s: string) {
    s == "shared-llm" || s == "decentralized-llm" || s == "local-fallback" || s == "ollama"
  }

  function Entry(key: string, value: Option<Value>): map<string, Value> {
    match value case Some(v) => map[key := v] case None => map[]
  }

  function AsText(s: Option<string>): Option<Value> {
    match s case Some(t) => Some(Text(t)) case None => None
  }

  function AsObject(o: Option<map<string, Value>>): Option<Value> {
    match o case Some(fields) => Some(Object(fields)) case None => None
  }

  /** What is read back from the printed result: absent fields are dropped. */
  function Stored(r: GenerateResult): (v: Value)
    ensures v.Object?
  {
    Object(map["id" := Text(r.id), "providerUsed" := Text(r.providerUsed), "output" := Text(r.output),
               "timingMs" := Number(r.timingMs)]
           + Entry("modelUsed", AsText(r.modelUsed)) + Entry("usage", AsObject(r.usage))
           + Entry("trace", AsObject(r.trace)))
  }

  function TextIn(fields: map<string, Value>, key: string): Option<string> {
    if key in fields && fields[key].Text? then Some(fields[key].text) else None
  }

  function ObjectIn(fields: map<string, Value>, key: string): Option<map<string, Value>> {
    if key in fields && fields[key].Object? then Some(fields[key].fields) else None
  }

  /** The reading of a stored value as a result; None where the value is not one. */
  function AsGenerateResult(value: Option<Value>): Option<GenerateResult> {
    if value.None? || !value.value.Object? then None
    else
      var f := value.value.fields;
      var provider, id, output := TextIn(f, "providerUsed"), TextIn(f, "id"), TextIn(f, "output");
      if provider.None? || !IsProviderName(provider.value) then None
      else if id.None? || id.value == "" then None
      else if output.None? then None
      else if "timingMs" !in f || !f["timingMs"].Number? || f["timingMs"].number < 0.0 then None
      else Some(GenerateResult(id.value, provider.value, TextIn(f, "modelUsed"), output.value, ObjectIn(f, "usage"),
                               f["timingMs"].number.Floor as real, ObjectIn(f, "trace")))
  }

  /** Results that survive being stored. */
  predicate WellFormed(r: GenerateResult) {
    IsProviderName(r.providerUsed) && r.id != "" && r.timingMs >= 0.0
  }

  /** A result as reused: the timing in whole milliseconds. */
  function Reused(r: GenerateResult): GenerateResult {
    r.(timingMs := r.timingMs.Floor as real)
  }

  lemma StoredFields(r: GenerateResult)
    ensures var f := Stored(r).fields;
      && "id" in f && f["id"] == Text(r.id) && "providerUsed" in f && f["providerUsed"] == Text(r.providerUsed)
      && "output" in f && f["output"] == Text(r.output) && "timingMs" in f && f["timingMs"] == Number(r.timingMs)
      && TextIn(f, "modelUsed") == r.modelUsed && ObjectIn(f, "usage") == r.usage && ObjectIn(f, "trace") == r.trace
  {
    hide Stored, Entry, TextIn, ObjectIn;
    var required := map["id" := Text(r.id), "providerUsed" := Text(r.providerUsed), "output" := Text(r.output),
                        "timingMs" := Number(r.timingMs)];
    StoredParts(r, required);
    assert |"id"| == 2 && |"providerUsed"| == 12 && |"output"| == 6 && |"timingMs"| == 8;
    assert |"modelUsed"| == 9 && |"usage"| == 5 && |"trace"| == 5 && "usage"[0] == 'u' && "trace"[0] == 't';
    EntryShape("modelUsed", AsText(r.modelUsed));
    EntryShape("usage", AsObject(r.usage));
    EntryShape("trace", AsObject(r.trace));
    var f := Stored(r).fields;
    TextAt(f, "modelUsed", r.modelUsed);
    ObjectAt(f, "usage", r.usage);
    ObjectAt(f, "trace", r.trace);
  }

  lemma StoredParts(r: GenerateResult, required: map<string, Value>)
    requires required == map["id" := Text(r.id), "providerUsed" := Text(r.providerUsed), "output" := Text(r.output),
                             "timingMs" := Number(r.timingMs)]
    ensures Stored(r).fields == required + Entry("modelUsed", AsText(r.modelUsed)) + Entry("usage", AsObject(r.usage))
                                + Entry("trace", AsObject(r.trace))
  {}

  lemma EntryShape(key: string, value: Option<Value>)
    ensures var e := Entry(key, value);
      e.Keys == (if value.Some? then {key} else {}) && (value.Some? ==> e[key] == value.value)
  {}

  lemma TextAt(f: map<string, Value>, key: string, t: Option<string>)
    requires key in f <==> t.Some?
    requires t.Some? ==> f[key] == Text(t.value)
    ensures TextIn(f, key) == t
  {}

  lemma ObjectAt(f: map<string, Value>, key: string, o: Option<map<string, Value>>)
    requires key in f <==> o.Some?
    requires o.Some? ==> f[key] == Object(o.value)
    ensures ObjectIn(f, key) == o
  {}

  /** A stored result is read back exactly when it is well formed, with its timing truncated. */
  lemma StoredReadsBack(r: GenerateResult)
    ensures AsGenerateResult(Some(Stored(r))) == if WellFormed(r) then Some(Reused(r)) else None
  {
    hide Stored, TextIn, ObjectIn;
    StoredFields(r);
    TextAt(Stored(r).fields, "id", Some(r.id));
    TextAt(Stored(r).fields, "providerUsed", Some(r.providerUsed));
    TextAt(Stored(r).fields, "output", Some(r.output));
  }

  lemma StoredInjective(q: GenerateResult, r: GenerateResult)
    requires Stored(q) == Stored(r)
    ensures q == r
  {
    hide Stored, TextIn, ObjectIn;
    StoredFields(q);
    StoredFields(r);
  }

  // ---------- The chain ----------

  datatype Block =
    | Unreadable
    | Event(event: string, runId: Option<string>, toolCallId: Option<string>, result: Option<Value>)

  function ToolCallId(runId: string): string { "tool:provider.generate:" + runId }

  function RunEvent(event: string, runId: string): Block { Event(event, Some(runId), None, None) }

  function ToolEvent(event: string, runId: string): Block { Event(event, Some(runId), Some(ToolCallId(runId)), None) }

  function ResultEvent(runId: string, r: GenerateResult): Block {
    Event("task.tool_result", Some(runId), Some(ToolCallId(runId)), Some(Stored(r)))
  }

  predicate IsResultOf(b: Block, runId: string) {
    && b.Event? && b.event == "task.tool_result" && b.runId == Some(runId)
    && b.toolCallId == Some(ToolCallId(runId))
  }

  /** Which blocks count as the result of a run, and which results are fit to be used again. */
  lemma ResultMeaning(b: Block, runId: string, r: GenerateResult)
    ensures IsResultOf(b, runId) <==>
      && b.Event? && b.event == "task.tool_result" && b.runId == Some(runId)
      && b.toolCallId == Some("tool:provider.generate:" + runId)
    ensures WellFormed(r) <==>
      && r.id != "" && r.timingMs >= 0.0
      && r.providerUsed in {"shared-llm", "decentralized-llm", "local-fallback", "ollama"}
  {}

  /** The result a block offers to a later execution of the run. */
  function Offer(b: Block, runId: string): Option<GenerateResult> {
    if IsResultOf(b, runId) then AsGenerateResult(b.result) else None
  }

  function FirstOffer(listing: seq<Block>, runId: string): Option<GenerateResult> {
    if |listing| == 0 then None
    else if Offer(listing[0], runId).Some? then Offer(listing[0], runId)
    else FirstOffer(listing[1..], runId)
  }

  method FindCachedResult(listing: seq<Block>, runId: string, toolCallId: string) returns (r: Option<GenerateResult>)
    requires toolCallId == ToolCallId(runId)
    ensures r == FirstOffer(listing, runId)
  {
    hide AsGenerateResult;
    for i := 0 to |listing|
      invariant FirstOffer(listing, runId) == FirstOffer(listing[i..], runId)
    {
      var block := listing[i];
      if block.Unreadable? || block.event != "task.tool_result" { continue; }
      if block.runId != Some(runId) { continue; }
      if block.toolCallId != Some(toolCallId) { continue; }
      var cached := AsGenerateResult(block.result);
      if cached.Some? { return cached; }
    }
    return None;
  }

  // ---------- One execution without a crash ----------

  predicate DedupeEnabled(flag: Option<bool>, runId: Option<string>) {
    match flag case Some(on) => on case None => runId.Some? && runId.value != ""
  }

  /** What an execution does: the blocks it appends, whether it calls the provider, and what it returns. */
  datatype Effect = Effect(events: seq<Block>, called: bool, returned: Option<GenerateResult>)

  function Execution(runId: string, dedupe: bool, listing: seq<Block>, provider: Option<GenerateResult>): Effect {
    var opening := [RunEvent("task.created", runId), ToolEvent("task.tool_call", runId)];
    var cached := if dedupe then FirstOffer(listing, runId) else None;
    if cached.Some? then
      Effect(opening + [ToolEvent("task.tool_result.reused", runId), RunEvent("task.completed", runId)], false, cached)
    else match provider
      case Some(r) => Effect(opening + [ResultEvent(runId, r), RunEvent("task.completed", runId)], true, provider)
      case None => Effect(opening + [RunEvent("task.error", runId)], true, None)
  }

  /** Reuse follows the flag; without one, a request that names its run asks for it. */
  lemma ReuseMeaning(runId: string, flag: Option<bool>, request: Option<string>, listing: seq<Block>,
                     provider: Option<GenerateResult>)
    ensures var effect := Execution(runId, DedupeEnabled(flag, request), listing, provider);
      && (flag == Some(false) || (flag == None && (request == None || request == Some(""))) ==>
            effect.called && effect.returned == provider)
      && (flag == Some(true) || (flag == None && request.Some? && request.value != "") ==>
            && (effect.called <==> FirstOffer(listing, runId).None?)
            && effect.returned == if effect.called then provider else FirstOffer(listing, runId))
  {
    hide FirstOffer, ResultEvent, RunEvent, ToolEvent;
  }

  /** The executor's view of the chain; `Listing` is the order in which the block files are scanned. */
  class TaskExecutor {
    var chain: seq<Block>

    constructor (stored: seq<Block>)
      ensures chain == stored
    {
      chain := stored;
    }

    method Emit(block: Block)
      modifies this
      ensures chain == old(chain) + [block]
    {
      chain := chain + [block];
    }

    /**
      Runs one request.  `freshId` is the generated id used when the request names
      none, `scan` the order in which the stored blocks are listed, `provider` the
      provider's result or None when it throws.
    */
    method Execute(requestRunId: Option<string>, flag: Option<bool>, freshId: string,
                   scan: seq<Block> -> seq<Block>, provider: Option<GenerateResult>)
      returns (called: bool, result: Option<GenerateResult>)
      modifies this
      ensures var runId := if requestRunId.Some? then requestRunId.value else "run_" + freshId;
        var before := old(chain) + [RunEvent("task.created", runId), ToolEvent("task.tool_call", runId)];
        var effect := Execution(runId, DedupeEnabled(flag, requestRunId), scan(before), provider);
        chain == old(chain) + effect.events && called == effect.called && result == effect.returned
      ensures flag == Some(false) || (flag == None && (requestRunId == None || requestRunId == Some(""))) ==>
        called && result == provider
      ensures flag == Some(true) || (flag == None && requestRunId.Some? && requestRunId.value != "") ==>
        var runId := if requestRunId.Some? then requestRunId.value else "run_" + freshId;
        var offer := FirstOffer(scan(old(chain) + [RunEvent("task.created", runId), ToolEvent("task.tool_call", runId)]), runId);
        (called <==> offer.None?) && result == if called then provider else offer
    {
      hide FirstOffer, Stored, FallbackStep, DedupeEnabled, ToolCallId, RunEvent, ToolEvent, ResultEvent;
      ghost var named := if requestRunId.Some? then requestRunId.value else "run_" + freshId;
      ReuseMeaning(named, flag, requestRunId,
                   scan(chain + [RunEvent("task.created", named), ToolEvent("task.tool_call", named)]), provider);
      var runId := if requestRunId.Some? then requestRunId.value else "run_" + freshId;
      var toolCallId := ToolCallId(runId);
      var loopState := INITIAL;
      var dedupe := DedupeEnabled(flag, requestRunId);
      called, result := false, None;

      Emit(RunEvent("task.created", runId));
      GenerationFitsDefaults("provider.generate", "");
      var afterCall, answer := ApplyFallbackLoopStep(loopState, ToolCall("provider.generate"), DEFAULT_LIMITS);
      loopState := afterCall;
      if answer != Applied {
        assert false; // the first step is always accepted
      }
      Emit(ToolEvent("task.tool_call", runId));
      assert chain == old(chain) + [RunEvent("task.created", runId), ToolEvent("task.tool_call", runId)];
      if dedupe {
        result := FindCachedResult(scan(chain), runId, toolCallId);
        if result.Some? { Emit(ToolEvent("task.tool_result.reused", runId)); }
      }
      if result.None? {
        called := true;
        result := provider;
        if result.None? {
          loopState, answer := ApplyFallbackLoopStep(loopState, Error(false, "provider failed"), DEFAULT_LIMITS);
          Emit(RunEvent("task.error", runId));
          return;
        }
        Emit(ResultEvent(runId, result.value));
      }
      var summary := if |result.value.output| > 120 then result.value.output[..120] else result.value.output;
      GenerationFitsDefaults("provider.generate", summary);
      loopState, answer := ApplyFallbackLoopStep(loopState, Complete(summary), DEFAULT_LIMITS);
      if answer != Applied {
        assert false; // so is the second
      }
      Emit(RunEvent("task.completed", runId));
    }
  }
}
