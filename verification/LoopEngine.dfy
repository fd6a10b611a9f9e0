/**
  The bounded agent loop, twice: the engine of the Rust core, with its saturating
  counters, and the TypeScript fallback used when the native bridge is missing.
*/
module LoopEngine {
  import opened Basics

  const U32_MAX: nat := 0xFFFF_FFFF
  const U64_MAX: nat := 0xFFFF_FFFF_FFFF_FFFF

  type u32 = n: nat | n <= U32_MAX
  type u64 = n: nat | n <= U64_MAX

  /** An action; durations are u64 in the engine and any finite number in the fallback. */
  datatype Action<+D> =
    | ToolCall(tool: string)
    | Wait(durationMs: D)
    | Complete(summary: string)
    | Error(recoverable: bool, message: string)

  datatype Limits = Limits(maxSteps: u32, maxToolCalls: u32, maxWaitMs: u64, maxErrors: u32)

  const DEFAULT_LIMITS: Limits := Limits(32, 16, 120_000, 4)

  datatype State = State(
    steps: nat, toolCalls: nat, waitMs: nat, errors: nat, completed: bool, haltReason: Option<string>)

  const INITIAL: State := State(0, 0, 0, 0, false, None)

  datatype Outcome = Applied | Rejected(reason: string)

  predicate ShouldHalt(s: State) { s.completed || s.haltReason.Some? }

  // ---------- The engine ----------

  function Saturate(n: nat, max: nat): nat { if n > max then max else n }

  function Halt(s: State, reason: string): (State, Outcome) {
    (s.(haltReason := Some(reason)), Rejected(reason))
  }

  function EngineStep(s: State, action: Action<nat>, limits: Limits): (State, Outcome) {
    if ShouldHalt(s) then (s, Rejected("loop_already_halted"))
    else
      var n := s.(steps := Saturate(s.steps + 1, U32_MAX));
      if n.steps > limits.maxSteps then Halt(n, "max_steps_exceeded")
      else match action
        case ToolCall(_) =>
          var t := n.(toolCalls := Saturate(n.toolCalls + 1, U32_MAX));
          if t.toolCalls > limits.maxToolCalls then Halt(t, "max_tool_calls_exceeded") else (t, Applied)
        case Wait(ms) =>
          var w := n.(waitMs := Saturate(n.waitMs + ms, U64_MAX));
          if w.waitMs > limits.maxWaitMs then Halt(w, "max_wait_exceeded") else (w, Applied)
        case Error(recoverable, _) =>
          var e := n.(errors := Saturate(n.errors + 1, U32_MAX));
          if e.errors > limits.maxErrors then Halt(e, "max_errors_exceeded")
          else if recoverable then (e, Applied)
          else (e.(completed := true, haltReason := Some("non_recoverable_error")), Applied)
        case Complete(_) => (n.(completed := true), Applied)
  }

  class LoopState {
    var steps: u32
    var toolCalls: u32
    var waitMs: u64
    var errors: u32
    var completed: bool
    var haltReason: Option<string>

    function Value(): State
      reads this
    {
      State(steps, toolCalls, waitMs, errors, completed, haltReason)
    }

    constructor ()
      ensures Value() == INITIAL
    {
      steps, toolCalls, waitMs, errors, completed, haltReason := 0, 0, 0, 0, false, None;
    }

    method Apply(action: Action<u64>, limits: Limits) returns (outcome: Outcome)
      modifies this
      ensures (Value(), outcome) == EngineStep(old(Value()), action, limits)
    {
      if completed || haltReason.Some? { return Rejected("loop_already_halted"); }
      steps := if steps < U32_MAX then steps + 1 else U32_MAX;
      if steps > limits.maxSteps {
        haltReason := Some("max_steps_exceeded");
        return Rejected("max_steps_exceeded");
      }
      match action {
        case ToolCall(_) =>
          toolCalls := if toolCalls < U32_MAX then toolCalls + 1 else U32_MAX;
          if toolCalls > limits.maxToolCalls {
            haltReason := Some("max_tool_calls_exceeded");
            return Rejected("max_tool_calls_exceeded");
          }
        case Wait(ms) =>
          waitMs := if waitMs + ms <= U64_MAX then waitMs + ms else U64_MAX;
          if waitMs > limits.maxWaitMs {
            haltReason := Some("max_wait_exceeded");
            return Rejected("max_wait_exceeded");
          }
        case Error(recoverable, _) =>
          errors := if errors < U32_MAX then errors + 1 else U32_MAX;
          if errors > limits.maxErrors {
            haltReason := Some("max_errors_exceeded");
            return Rejected("max_errors_exceeded");
          }
          if !recoverable {
            completed := true;
            haltReason := Some("non_recoverable_error");
          }
        case Complete(_) => completed := true;
      }
      return Applied;
    }
  }

  // ---------- The fallback ----------

  /** The fallback's notion of a halted state: an empty reason does not count. */
  predicate Stopped(s: State) { s.completed || (s.haltReason.Some? && s.haltReason.value != "") }

  /** The whole milliseconds of a duration; a negative one counts as none. */
  function Whole(d: real): (n: nat)
    ensures d >= 0.0 ==> n as real <= d < n as real + 1.0
    ensures d < 0.0 ==> n == 0
  {
    if d < 0.0 then 0 else d.Floor
  }

  function FallbackStep(s: State, action: Action<real>, limits: Limits): (State, Outcome) {
    var n := s.(steps := s.steps + 1);
    if Stopped(s) then (n, Rejected("loop_already_halted"))
    else if n.steps > limits.maxSteps then Halt(n, "max_steps_exceeded")
    else match action
      case ToolCall(_) =>
        var t := n.(toolCalls := n.toolCalls + 1);
        if t.toolCalls > limits.maxToolCalls then Halt(t, "max_tool_calls_exceeded") else (t, Applied)
      case Wait(d) =>
        var w := n.(waitMs := n.waitMs + Whole(d));
        if w.waitMs > limits.maxWaitMs then Halt(w, "max_wait_exceeded") else (w, Applied)
      case Error(recoverable, _) =>
        var e := n.(errors := n.errors + 1);
        if e.errors > limits.maxErrors then Halt(e, "max_errors_exceeded")
        else if recoverable then (e, Applied)
        else (e.(completed := true, haltReason := Some("non_recoverable_error")), Applied)
      case Complete(_) => (n.(completed := true), Applied)
  }

  method ApplyFallbackLoopStep(s: State, action: Action<real>, limits: Limits)
    returns (next: State, outcome: Outcome)
    ensures (next, outcome) == FallbackStep(s, action, limits)
  {
    next := s.(steps := s.steps + 1);
    if next.completed || (next.haltReason.Some? && next.haltReason.value != "") {
      return next, Rejected("loop_already_halted");
    }
    if next.steps > limits.maxSteps {
      next := next.(haltReason := Some("max_steps_exceeded"));
      return next, Rejected("max_steps_exceeded");
    }
    if action.ToolCall? {
      next := next.(toolCalls := next.toolCalls + 1);
      if next.toolCalls > limits.maxToolCalls {
        next := next.(haltReason := Some("max_tool_calls_exceeded"));
        return next, Rejected("max_tool_calls_exceeded");
      }
    } else if action.Wait? {
      var truncated := if action.durationMs < 0.0 then -((-action.durationMs).Floor) else action.durationMs.Floor;
      next := next.(waitMs := next.waitMs + if truncated > 0 then truncated else 0);
      if next.waitMs > limits.maxWaitMs {
        next := next.(haltReason := Some("max_wait_exceeded"));
        return next, Rejected("max_wait_exceeded");
      }
    } else if action.Error? {
      next := next.(errors := next.errors + 1);
      if next.errors > limits.maxErrors {
        next := next.(haltReason := Some("max_errors_exceeded"));
        return next, Rejected("max_errors_exceeded");
      }
      if !action.recoverable { next := next.(completed := true, haltReason := Some("non_recoverable_error")); }
    } else if action.Complete? {
      next := next.(completed := true);
    }
    return next, Applied;
  }

  // ---------- One step compared ----------

  /** The engine's action for a fallback action: the duration truncated, negative ones zero. */
  function Lower(action: Action<real>): (a: Action<nat>) {
    match action
    case ToolCall(tool) => ToolCall(tool)
    case Wait(d) => Wait(Whole(d))
    case Complete(summary) => Complete(summary)
    case Error(recoverable, message) => Error(recoverable, message)
  }

  /** No counter of the step saturates. */
  predicate Room(s: State, a: Action<nat>) {
    && s.steps < U32_MAX && s.toolCalls < U32_MAX && s.errors < U32_MAX
    && s.waitMs + (if a.Wait? then a.durationMs else 0) <= U64_MAX
  }

  /** The two implementations agree on a step exactly when the engine has not halted. */
  lemma AgreeUnlessHalted(s: State, action: Action<real>, limits: Limits)
    requires Room(s, Lower(action))
    ensures FallbackStep(s, action, limits) == EngineStep(s, Lower(action), limits) <==> !ShouldHalt(s)
  {
    var f, e := FallbackStep(s, action, limits), EngineStep(s, Lower(action), limits);
    if ShouldHalt(s) {
      assert e.0.steps == s.steps && f.0.steps == s.steps + 1;
      assert f.0 != e.0;
    }
  }

  // ---------- Whole runs ----------

  function Front<D>(actions: seq<Action<D>>): seq<Action<D>>
    requires |actions| > 0
  {
    actions[..|actions| - 1]
  }

  function Last<D>(actions: seq<Action<D>>): Action<D>
    requires |actions| > 0
  {
    actions[|actions| - 1]
  }

  function EngineRun(actions: seq<Action<nat>>, limits: Limits): State
    decreases |actions|
  {
    if |actions| == 0 then INITIAL else EngineStep(EngineRun(Front(actions), limits), Last(actions), limits).0
  }

  /** What the caller is told about the last action of a run. */
  function EngineAnswer(actions: seq<Action<nat>>, limits: Limits): Outcome
    requires |actions| > 0
  {
    EngineStep(EngineRun(Front(actions), limits), Last(actions), limits).1
  }

  function FallbackRun(actions: seq<Action<real>>, limits: Limits): State
    decreases |actions|
  {
    if |actions| == 0 then INITIAL else FallbackStep(FallbackRun(Front(actions), limits), Last(actions), limits).0
  }

  function FallbackAnswer(actions: seq<Action<real>>, limits: Limits): Outcome
    requires |actions| > 0
  {
    FallbackStep(FallbackRun(Front(actions), limits), Last(actions), limits).1
  }

  function LowerAll(actions: seq<Action<real>>): (r: seq<Action<nat>>)
    ensures |r| == |actions|
  {
    if |actions| == 0 then [] else LowerAll(Front(actions)) + [Lower(Last(actions))]
  }

  function Waited(actions: seq<Action<nat>>): nat {
    if |actions| == 0 then 0 else Waited(Front(actions)) + if Last(actions).Wait? then Last(actions).durationMs else 0
  }

  function ToolCalls(actions: seq<Action<nat>>): nat {
    if |actions| == 0 then 0 else ToolCalls(Front(actions)) + if Last(actions).ToolCall? then 1 else 0
  }

  function Errors(actions: seq<Action<nat>>): nat {
    if |actions| == 0 then 0 else Errors(Front(actions)) + if Last(actions).Error? then 1 else 0
  }

  /** The actions of a run that the engine accepted. */
  function Accepted(actions: seq<Action<nat>>, limits: Limits): seq<Action<nat>> {
    if |actions| == 0 then []
    else
      Accepted(Front(actions), limits) + if EngineAnswer(actions, limits) == Applied then [Last(actions)] else []
  }

  predicate Closing(a: Action<nat>) { a.Complete? || (a.Error? && !a.recoverable) }

  // ---------- The limits hold ----------

  /** The counters of a run that has not halted are the totals of what was accepted. */
  predicate Tallied(s: State, accepted: seq<Action<nat>>) {
    && s.steps == |accepted| && s.toolCalls == ToolCalls(accepted)
    && s.waitMs == Waited(accepted) && s.errors == Errors(accepted)
  }

  predicate WithinLimits(accepted: seq<Action<nat>>, limits: Limits) {
    && |accepted| <= limits.maxSteps && ToolCalls(accepted) <= limits.maxToolCalls
    && Waited(accepted) <= limits.maxWaitMs && Errors(accepted) <= limits.maxErrors
  }

  lemma {:induction false} CountsWithinLength(actions: seq<Action<nat>>)
    ensures ToolCalls(actions) <= |actions| && Errors(actions) <= |actions|
  {
    if |actions| > 0 { CountsWithinLength(Front(actions)); }
  }

  lemma AddLast(actions: seq<Action<nat>>, a: Action<nat>)
    ensures Front(actions + [a]) == actions && Last(actions + [a]) == a
  {}

  lemma InitialTally(limits: Limits)
    ensures Tallied(INITIAL, []) && WithinLimits([], limits)
  {}

  /** Durations as the engine takes them. */
  predicate Fits(a: Action<nat>) { a.Wait? ==> a.durationMs <= U64_MAX }

  predicate AllFit(actions: seq<Action<nat>>) {
    forall i :: 0 <= i < |actions| ==> Fits(actions[i])
  }

  /** Limits no saturated counter can hide behind. */
  predicate Effective(limits: Limits) {
    limits.maxSteps < U32_MAX && (limits.maxWaitMs < U64_MAX || limits.maxSteps <= 1)
  }

  lemma StepKeepsTally(s: State, accepted: seq<Action<nat>>, a: Action<nat>, limits: Limits)
    requires Effective(limits) && Fits(a)
    requires !ShouldHalt(s) && Tallied(s, accepted) && WithinLimits(accepted, limits)
    ensures var (t, answer) := EngineStep(s, a, limits);
      && (answer == Applied ==> WithinLimits(accepted + [a], limits))
      && (answer == Applied && !ShouldHalt(t) ==> Tallied(t, accepted + [a]) && !Closing(a))
      && (answer != Applied ==> ShouldHalt(t))
  {
    CountsWithinLength(accepted);
    AddLast(accepted, a);
  }

  /**
    In every run the accepted actions, tool calls, waits and errors stay within their
    limits, the counters of an unhalted run are exactly their totals, and a closing
    action is the last one accepted.
  */
  lemma {:induction false} LimitsHold(actions: seq<Action<nat>>, limits: Limits)
    requires Effective(limits) && AllFit(actions)
    ensures WithinLimits(Accepted(actions, limits), limits)
    ensures !ShouldHalt(EngineRun(actions, limits)) ==> Tallied(EngineRun(actions, limits), Accepted(actions, limits))
    ensures var acc := Accepted(actions, limits);
      && (forall i :: 0 <= i < |acc| - 1 ==> !Closing(acc[i]))
      && (|acc| > 0 && Closing(acc[|acc| - 1]) ==> ShouldHalt(EngineRun(actions, limits)))
    decreases |actions|
  {
    hide EngineStep, Tallied, WithinLimits, ShouldHalt, Effective, Fits;
    if |actions| > 0 {
      var s, before := EngineRun(Front(actions), limits), Accepted(Front(actions), limits);
      LimitsHold(Front(actions), limits);
      if ShouldHalt(s) {
        HaltStays(s, Last(actions), limits);
        assert before + [] == before;
      } else {
        assert before + [] == before;
        StepKeepsTally(s, before, Last(actions), limits);
      }
    } else {
      InitialTally(limits);
    }
  }

  // ---------- Exactly what is accepted ----------

  lemma StepExact(s: State, accepted: seq<Action<nat>>, a: Action<nat>, limits: Limits)
    requires Effective(limits) && Fits(a)
    requires !ShouldHalt(s) && Tallied(s, accepted) && WithinLimits(accepted, limits)
    ensures var (t, answer) := EngineStep(s, a, limits);
      && (answer == Applied <==> WithinLimits(accepted + [a], limits))
      && (ShouldHalt(t) <==> answer != Applied || Closing(a))
  {
    CountsWithinLength(accepted);
    AddLast(accepted, a);
  }

  predicate NoneCloses(actions: seq<Action<nat>>) {
    forall i :: 0 <= i < |actions| ==> !Closing(actions[i])
  }

  lemma {:induction false} FrontWithinLimits(actions: seq<Action<nat>>, limits: Limits)
    requires |actions| > 0 && WithinLimits(actions, limits)
    ensures WithinLimits(Front(actions), limits)
  {}

  lemma {:induction false} AcceptedFits(actions: seq<Action<nat>>, limits: Limits)
    ensures |Accepted(actions, limits)| <= |actions|
    ensures |actions| > 0 ==>
      Accepted(actions, limits)
        == Accepted(Front(actions), limits) + if EngineAnswer(actions, limits) == Applied then [Last(actions)] else []
    decreases |actions|
  {
    hide EngineAnswer;
    if |actions| > 0 { AcceptedFits(Front(actions), limits); }
  }

  /**
    A run goes on exactly as long as the totals of its actions are within the limits and none of them closes it:
    a recoverable error does not stop it.  A run is accepted in full exactly when the totals are within the
    limits and only its last action, if any, closes it.
  */
  lemma {:induction false} AcceptedIff(actions: seq<Action<nat>>, limits: Limits)
    requires Effective(limits) && AllFit(actions)
    ensures !ShouldHalt(EngineRun(actions, limits)) <==> WithinLimits(actions, limits) && NoneCloses(actions)
    ensures Accepted(actions, limits) == actions <==>
      WithinLimits(actions, limits) && (|actions| > 0 ==> NoneCloses(Front(actions)))
    decreases |actions|
  {
    if |actions| == 0 {
      InitialTally(limits);
    } else {
      hide EngineStep, Tallied, WithinLimits, ShouldHalt, Effective, Fits, Accepted, Closing;
      var front, a := Front(actions), Last(actions);
      assert actions == front + [a];
      AcceptedIff(front, limits);
      AcceptedFits(actions, limits);
      AcceptedFits(front, limits);
      LimitsHold(front, limits);
      var s := EngineRun(front, limits);
      if WithinLimits(actions, limits) { FrontWithinLimits(actions, limits); }
      if ShouldHalt(s) {
        HaltStays(s, a, limits);
      } else {
        UnhaltedAccepts(front, limits);
        StepExact(s, front, a, limits);
      }
    }
  }

  /** The default limits: a run is accepted in full exactly with at most 32 actions, 16 tool calls, two minutes of
      waiting and 4 errors, and nothing after an action that closes it. */
  lemma DefaultsAccept(actions: seq<Action<nat>>)
    requires AllFit(actions)
    ensures Accepted(actions, DEFAULT_LIMITS) == actions <==>
      && |actions| <= 32 && ToolCalls(actions) <= 16 && Waited(actions) <= 120_000 && Errors(actions) <= 4
      && forall i :: 0 <= i < |actions| - 1 ==> !Closing(actions[i])
  {
    hide Accepted, EngineRun, ToolCalls, Waited, Errors, Closing;
    AcceptedIff(actions, DEFAULT_LIMITS);
    if |actions| > 0 { assert forall i :: 0 <= i < |actions| - 1 ==> Front(actions)[i] == actions[i]; }
  }

  lemma {:induction false} UnhaltedAccepts(actions: seq<Action<nat>>, limits: Limits)
    requires Effective(limits) && AllFit(actions) && !ShouldHalt(EngineRun(actions, limits))
    ensures Accepted(actions, limits) == actions
    decreases |actions|
  {
    hide Tallied, WithinLimits, Effective, Fits;
    if |actions| > 0 {
      UnhaltedAccepts(Front(actions), limits);
      assert actions == Front(actions) + [Last(actions)];
    }
  }

  lemma HaltStays(s: State, action: Action<nat>, limits: Limits)
    requires ShouldHalt(s)
    ensures EngineStep(s, action, limits) == (s, Rejected("loop_already_halted"))
  {}

  /** A run of any more than `maxSteps` actions has halted. */
  lemma LongRunHalts(actions: seq<Action<nat>>, limits: Limits)
    requires limits.maxSteps < U32_MAX && |actions| > limits.maxSteps
    ensures ShouldHalt(EngineRun(actions, limits))
  {
    UnhaltedSteps(actions, limits);
  }

  lemma {:induction false} UnhaltedSteps(actions: seq<Action<nat>>, limits: Limits)
    requires limits.maxSteps < U32_MAX
    ensures !ShouldHalt(EngineRun(actions, limits)) ==> EngineRun(actions, limits).steps == |actions| <= limits.maxSteps
    decreases |actions|
  {
    if |actions| > 0 { UnhaltedSteps(Front(actions), limits); }
  }

  function Idle(n: nat): (r: seq<Action<nat>>)
    ensures |r| == n
  {
    if n == 0 then [] else Idle(n - 1) + [Wait(0)]
  }

  lemma {:induction false} IdleNeverHalts(n: nat, limits: Limits)
    requires limits.maxSteps == U32_MAX
    ensures var s := EngineRun(Idle(n), limits); !ShouldHalt(s) && s.waitMs == 0 && s.steps <= U32_MAX
  {
    if n > 0 {
      IdleNeverHalts(n - 1, limits);
      AddLast(Idle(n - 1), Wait(0));
      IdleStep(EngineRun(Idle(n - 1), limits), limits);
      hide EngineStep;
    }
  }

  lemma IdleStep(s: State, limits: Limits)
    requires limits.maxSteps == U32_MAX && !ShouldHalt(s) && s.waitMs == 0
    ensures var t := EngineStep(s, Wait(0), limits).0; !ShouldHalt(t) && t.waitMs == 0 && t.steps <= U32_MAX
  {}

  /** Every run longer than `maxSteps` halts exactly when `maxSteps` is below the largest u32, where the counter sticks. */
  lemma HaltsIffBelowMaximum(limits: Limits)
    ensures (forall actions :: |actions| > limits.maxSteps ==> ShouldHalt(EngineRun(actions, limits)))
       <==> limits.maxSteps < U32_MAX
  {
    if limits.maxSteps < U32_MAX {
      forall actions: seq<Action<nat>> | |actions| > limits.maxSteps
        ensures ShouldHalt(EngineRun(actions, limits))
      {
        LongRunHalts(actions, limits);
      }
    } else {
      IdleNeverHalts(limits.maxSteps + 1, limits);
      assert |Idle(limits.maxSteps + 1)| > limits.maxSteps;
    }
  }

  lemma {:induction false} IdleAccepted(n: nat, limits: Limits)
    requires limits.maxSteps == U32_MAX
    ensures Accepted(Idle(n), limits) == Idle(n) && AllFit(Idle(n))
  {
    if n > 0 {
      IdleNeverHalts(n - 1, limits);
      AddLast(Idle(n - 1), Wait(0));
      IdleAccepted(n - 1, limits);
      IdleApplied(EngineRun(Idle(n - 1), limits), limits);
      hide EngineStep, EngineRun;
    }
  }

  lemma IdleApplied(s: State, limits: Limits)
    requires limits.maxSteps == U32_MAX && !ShouldHalt(s) && s.waitMs == 0
    ensures EngineStep(s, Wait(0), limits).1 == Applied
  {}

  lemma WaitAccepted(s: State, limits: Limits)
    requires 2 <= limits.maxSteps < U32_MAX && limits.maxWaitMs == U64_MAX && !ShouldHalt(s) && s.steps <= 1
    ensures var (t, answer) := EngineStep(s, Wait(U64_MAX), limits);
      answer == Applied && (s == INITIAL ==> !ShouldHalt(t) && t.steps == 1)
  {}

  lemma TwoLongWaits(limits: Limits)
    requires 2 <= limits.maxSteps < U32_MAX && limits.maxWaitMs == U64_MAX
    ensures var waits := [Wait(U64_MAX), Wait(U64_MAX)];
      AllFit(waits) && Accepted(waits, limits) == waits && Waited(waits) == 2 * U64_MAX
  {
    hide EngineStep, EngineRun, Accepted, Waited;
    var w: Action<nat> := Wait(U64_MAX);
    NothingRun(limits);
    OneMoreAction([], w, limits);
    OneMoreAction([w], w, limits);
    assert [] + [w] == [w] && [w] + [w] == [w, w];
    WaitAccepted(INITIAL, limits);
    WaitAccepted(EngineRun([w], limits), limits);
  }

  lemma NothingRun(limits: Limits)
    ensures EngineRun([], limits) == INITIAL && Accepted([], limits) == [] && Waited([]) == 0
    ensures !ShouldHalt(INITIAL) && INITIAL.steps == 0
  {}

  lemma OneMoreAction(actions: seq<Action<nat>>, a: Action<nat>, limits: Limits)
    ensures var (t, answer) := EngineStep(EngineRun(actions, limits), a, limits);
      && EngineRun(actions + [a], limits) == t
      && Accepted(actions + [a], limits) == Accepted(actions, limits) + if answer == Applied then [a] else []
    ensures Waited(actions + [a]) == Waited(actions) + if a.Wait? then a.durationMs else 0
  {
    hide EngineStep;
    AddLast(actions, a);
  }

  /** All runs stay within their limits exactly when the limits lie below the values at which counters stick. */
  lemma LimitsHoldIff(limits: Limits)
    ensures (forall actions :: AllFit(actions) ==> WithinLimits(Accepted(actions, limits), limits))
       <==> Effective(limits)
  {
    hide EngineStep, EngineRun, Accepted, AllFit;
    if Effective(limits) {
      forall actions | AllFit(actions)
        ensures WithinLimits(Accepted(actions, limits), limits)
      {
        LimitsHold(actions, limits);
      }
    } else if limits.maxSteps == U32_MAX {
      var n := U32_MAX + 1;
      IdleAccepted(n, limits);
      assert AllFit(Idle(n)) && !WithinLimits(Accepted(Idle(n), limits), limits);
    } else {
      TwoLongWaits(limits);
      var waits: seq<Action<nat>> := [Wait(U64_MAX), Wait(U64_MAX)];
      assert AllFit(waits) && !WithinLimits(Accepted(waits, limits), limits);
    }
  }

  // ---------- The fallback simulates the engine ----------

  lemma {:induction false} CountersBounded(actions: seq<Action<nat>>, limits: Limits)
    requires limits.maxSteps < U32_MAX
    ensures Bounded(EngineRun(actions, limits), Waited(actions), limits)
    decreases |actions|
  {
    hide EngineStep, Bounded;
    if |actions| == 0 {
      StartBounded(limits);
    } else {
      CountersBounded(Front(actions), limits);
      StepBounded(EngineRun(Front(actions), limits), Waited(Front(actions)), Last(actions), limits);
    }
  }

  /** Counters of a reachable state; a reason is never the empty text. */
  predicate Bounded(s: State, waited: nat, limits: Limits) {
    && s.steps <= limits.maxSteps + 1 && (!ShouldHalt(s) ==> s.steps <= limits.maxSteps)
    && s.toolCalls <= s.steps && s.errors <= s.steps && s.waitMs <= waited
    && (s.haltReason.Some? ==> s.haltReason.value != "")
  }

  lemma StartBounded(limits: Limits)
    ensures Bounded(INITIAL, 0, limits)
  {}

  lemma StepBounded(s: State, waited: nat, a: Action<nat>, limits: Limits)
    requires Bounded(s, waited, limits) && limits.maxSteps < U32_MAX
    ensures Bounded(EngineStep(s, a, limits).0, waited + if a.Wait? then a.durationMs else 0, limits)
  {}

  /** One step from states that agree in all but `steps`. */
  lemma StepSimulates(e: State, f: State, action: Action<real>, waited: nat, limits: Limits)
    requires Bounded(e, waited, limits) && limits.maxSteps < U32_MAX
    requires waited + (if action.Wait? then Whole(action.durationMs) else 0) <= U64_MAX
    requires f.(steps := e.steps) == e && e.steps <= f.steps && (!ShouldHalt(e) ==> f == e)
    ensures var (e', x) := EngineStep(e, Lower(action), limits);
      var (f', y) := FallbackStep(f, action, limits);
      && f'.(steps := e'.steps) == e' && x == y && f'.steps == f.steps + 1 && e'.steps <= f'.steps
      && (f' == e' <==> !ShouldHalt(e))
  {
    if !ShouldHalt(e) { AgreeUnlessHalted(e, action, limits); }
  }

  /**
    The fallback simulates the engine over whole runs: every action gets the same
    answer, and the states agree in all but `steps`, which the fallback keeps
    counting after a halt.
  */
  lemma {:induction false} FallbackSimulatesEngine(actions: seq<Action<real>>, limits: Limits)
    requires limits.maxSteps < U32_MAX && Waited(LowerAll(actions)) <= U64_MAX
    ensures var e, f := EngineRun(LowerAll(actions), limits), FallbackRun(actions, limits);
      && f.(steps := e.steps) == e && f.steps == |actions| && e.steps <= f.steps
      && (!ShouldHalt(e) ==> f == e)
      && (|actions| > 0 ==>
            && FallbackAnswer(actions, limits) == EngineAnswer(LowerAll(actions), limits)
            && (f == e <==> !ShouldHalt(EngineRun(LowerAll(Front(actions)), limits))))
    decreases |actions|
  {
    hide EngineStep, FallbackStep, Bounded, ShouldHalt, Whole;
    if |actions| > 0 {
      var front, last := LowerAll(Front(actions)), Last(actions);
      AddLast(front, Lower(last));
      FallbackSimulatesEngine(Front(actions), limits);
      CountersBounded(front, limits);
      var e, f := EngineRun(front, limits), FallbackRun(Front(actions), limits);
      StepSimulates(e, f, last, Waited(front), limits);
      if ShouldHalt(e) { HaltStays(e, Lower(last), limits); }
    }
  }

  /** The two actions a generation applies are accepted under the default limits. */
  lemma GenerationFitsDefaults(tool: string, summary: string)
    ensures var calling := FallbackStep(INITIAL, ToolCall(tool), DEFAULT_LIMITS);
      && calling.1 == Applied
      && FallbackStep(calling.0, Complete(summary), DEFAULT_LIMITS).1 == Applied
      && EngineStep(INITIAL, ToolCall(tool), DEFAULT_LIMITS) == calling
      && EngineStep(calling.0, Complete(summary), DEFAULT_LIMITS)
         == FallbackStep(calling.0, Complete(summary), DEFAULT_LIMITS)
  {}
}
