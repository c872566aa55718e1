/** How many calls a plan can make under a limit on charged calls, and when they stay within it. */
module CallLimit {
  import opened Collections
  import opened Option
  import opened Text
  import opened PlanRepair
  import opened AgentLoop

  predicate IsCall(s: PlanStep) {
    s.intent == Tool && s.tool.Some?
  }

  /** The steps that call a tool, before the answer. */
  function Calls(steps: seq<PlanStep>): nat {
    if steps == [] then 0
    else if steps[0].done then Calls(steps[1..])
    else if steps[0].intent == Synthesize then 0
    else (if IsCall(steps[0]) then 1 else 0) + Calls(steps[1..])
  }

  /** The most calls that many steps can make: a step makes two if it is corrected, and is free if it raises. */
  function MostCalls(calls: nat, max: nat): nat {
    if max == 0 then 0 else if calls <= max / 2 then 2 * calls else calls + max / 2
  }

  lemma {:induction false} CallsNext(steps: seq<PlanStep>)
    requires var i := NextStep(steps); i < |steps| && steps[i].intent != Synthesize
    ensures var i := NextStep(steps);
            Calls(steps) == Calls(Done(steps, i)) + if IsCall(steps[i]) then 1 else 0
  {
    var i := NextStep(steps);
    var after := Done(steps, i);
    if i == 0 {
      assert after[1..] == steps[1..];
    } else {
      CallsNext(steps[1..]);
      assert after[0] == steps[0] && after[1..] == Done(steps[1..], i - 1);
    }
  }

  lemma {:induction false} NoCallsLeft(steps: seq<PlanStep>)
    requires var i := NextStep(steps); i == |steps| || steps[i].intent == Synthesize
    ensures Calls(steps) == 0
  {
    if steps != [] && steps[0].done {
      NoCallsLeft(steps[1..]);
    }
  }

  // ----------------------------------------------------------- no more than that

  /** What holds however far a plan with that many calls has got. */
  predicate Within(r: Run, calls: nat, max: nat) {
    && r.used <= max && (max == 0 ==> r.dispatched == 0)
    && 2 * r.dispatched + 2 * Calls(r.steps) <= 2 * calls + r.used
    && r.dispatched + 2 * Calls(r.steps) <= 2 * calls
  }

  lemma ActStaysWithin(r: Run, step: PlanStep, rest: seq<PlanStep>, w: World, calls: nat, max: nat)
    requires Within(r, calls, max) && r.used < max && step.intent == Tool
    requires Calls(r.steps) == Calls(rest) + if IsCall(step) then 1 else 0
    ensures Within(Acted(r, step.tool, w, max).(steps := rest), calls, max)
  {
  }

  lemma StepStaysWithin(r: Run, step: PlanStep, rest: seq<PlanStep>, w: World, max: nat, retriever: bool, calls: nat)
    requires Within(r, calls, max) && r.used < max && step.intent != Synthesize
    requires Calls(r.steps) == Calls(rest) + if IsCall(step) then 1 else 0
    ensures Within(StepTaken(r, step, w, max, retriever).(steps := rest), calls, max)
  {
    if step.intent == PlanRepair.Retrieve {
      RetrievedCallsNothing(r, w);
    } else {
      ActStaysWithin(r, step, rest, w, calls, max);
    }
  }

  lemma RoundStaysWithin(r: Run, w: World, max: nat, retriever: bool, calls: nat)
    requires Within(r, calls, max)
    ensures Within(StepOnce(r, w, max, retriever).run, calls, max)
  {
    if StepOnce(r, w, max, retriever).again {
      var i := NextStep(r.steps);
      CallsNext(r.steps);
      StepStaysWithin(r.(checks := r.checks + 1), r.steps[i], Done(r.steps, i), w, max, retriever, calls);
    }
  }

  lemma {:induction false} RunStaysWithin(r: Run, w: World, max: nat, retriever: bool, calls: nat)
    requires Within(r, calls, max)
    ensures Within(Execute(r, w, max, retriever), calls, max)
    decreases Undone(r.steps)
  {
    RoundStaysWithin(r, w, max, retriever, calls);
    var c := StepOnce(r, w, max, retriever);
    if c.again {
      RunStaysWithin(c.run, w, max, retriever, calls);
    }
  }

  // ------------------------------------------------------------- and no fewer

  /** How many calls raise, if the rest are to use up the limit. */
  function Raising(calls: nat, max: nat): nat {
    if calls > (max + 1) / 2 then calls - (max + 1) / 2 else 0
  }

  /** The first calls raise, and the rest are refused and corrected. */
  function Worst(raising: nat): World {
    World(_ => Look([], true, false),
          (k: nat) => Attempt(true, false, false, None, false, if k < raising then Raised else Refused, true),
          _ => false)
  }

  function Over(k: nat, raising: nat): nat {
    if k <= raising then 0 else k - raising
  }

  function Least(a: nat, b: nat): nat {
    if a <= b then a else b
  }

  /** Where such a run stands after `r.attempts` of its calls. */
  predicate Worsening(r: Run, calls: nat, max: nat, raising: nat) {
    && Calls(r.steps) + r.attempts == calls
    && r.used == Least(2 * Over(r.attempts, raising), max)
    && r.dispatched == r.attempts + Least(Over(r.attempts, raising), max / 2)
  }

  lemma ActWorsens(r: Run, step: PlanStep, rest: seq<PlanStep>, calls: nat, max: nat, raising: nat)
    requires Worsening(r, calls, max, raising) && r.used < max && step.intent == Tool
    requires Calls(r.steps) == Calls(rest) + if IsCall(step) then 1 else 0
    ensures Worsening(Acted(r, step.tool, Worst(raising), max).(steps := rest), calls, max, raising)
  {
    if step.tool.Some? {
      var a := Worst(raising).attempts(r.attempts);
      assert a == Attempt(true, false, false, None, false, if r.attempts < raising then Raised else Refused, true);
      assert Over(r.attempts + 1, raising) == if r.attempts < raising then 0 else Over(r.attempts, raising) + 1;
    }
  }

  lemma StepWorsens(r: Run, step: PlanStep, rest: seq<PlanStep>, max: nat, retriever: bool, calls: nat, raising: nat)
    requires Worsening(r, calls, max, raising) && r.used < max && step.intent != Synthesize
    requires Calls(r.steps) == Calls(rest) + if IsCall(step) then 1 else 0
    ensures Worsening(StepTaken(r, step, Worst(raising), max, retriever).(steps := rest), calls, max, raising)
  {
    if step.intent == PlanRepair.Retrieve {
      RetrievedCallsNothing(r, Worst(raising));
    } else {
      ActWorsens(r, step, rest, calls, max, raising);
    }
  }

  lemma RoundWorsens(r: Run, max: nat, retriever: bool, calls: nat, raising: nat)
    requires Worsening(r, calls, max, raising)
    ensures Worsening(StepOnce(r, Worst(raising), max, retriever).run, calls, max, raising)
  {
    if StepOnce(r, Worst(raising), max, retriever).again {
      var i := NextStep(r.steps);
      CallsNext(r.steps);
      StepWorsens(r.(checks := r.checks + 1), r.steps[i], Done(r.steps, i), max, retriever, calls, raising);
    }
  }

  lemma {:induction false} RunWorsens(r: Run, max: nat, retriever: bool, calls: nat, raising: nat)
    requires Worsening(r, calls, max, raising)
    ensures Worsening(Execute(r, Worst(raising), max, retriever), calls, max, raising)
    decreases Undone(r.steps)
  {
    RoundWorsens(r, max, retriever, calls, raising);
    var c := StepOnce(r, Worst(raising), max, retriever);
    if c.again {
      RunWorsens(c.run, max, retriever, calls, raising);
    }
  }

  /** Such a run stops with all its calls made, or with the limit used up. */
  lemma WorstEnds(r: Run, max: nat, calls: nat)
    requires max >= 1 && Worsening(r, calls, max, Raising(calls, max))
    requires Calls(r.steps) == 0 || r.used >= max
    ensures r.dispatched == MostCalls(calls, max)
  {
    assert r.attempts == calls;
  }

  lemma StartsWithin(steps: seq<PlanStep>, max: nat, raising: nat)
    ensures Within(Start(steps), Calls(steps), max) && Worsening(Start(steps), Calls(steps), max, raising)
  {
  }

  /** The most calls a run of the plan can make, whatever happens, and a world in which it makes them. */
  lemma MostCallsIsMost(steps: seq<PlanStep>, w: World, max: nat, retriever: bool)
    ensures Execute(Start(steps), w, max, retriever).dispatched <= MostCalls(Calls(steps), max)
    ensures Execute(Start(steps), Worst(Raising(Calls(steps), max)), max, retriever).dispatched
            == MostCalls(Calls(steps), max)
  {
    var calls := Calls(steps);
    StartsWithin(steps, max, Raising(calls, max));
    RunStaysWithin(Start(steps), w, max, retriever, calls);
    WorstIsMost(steps, max, retriever);
  }

  lemma WorstIsMost(steps: seq<PlanStep>, max: nat, retriever: bool)
    ensures Execute(Start(steps), Worst(Raising(Calls(steps), max)), max, retriever).dispatched
            == MostCalls(Calls(steps), max)
  {
    var calls := Calls(steps);
    var worst := Worst(Raising(calls, max));
    var r := Execute(Start(steps), worst, max, retriever);
    StartsWithin(steps, max, Raising(calls, max));
    if max == 0 {
      RunStaysWithin(Start(steps), worst, max, retriever, calls);
    } else {
      RunWorsens(Start(steps), max, retriever, calls, Raising(calls, max));
      StopsForAReason(Start(steps), worst, max, retriever);
      if r.used < max {
        NoCallsLeft(r.steps);
      }
      WorstEnds(r, max, calls);
    }
  }

  // ------------------------------------------------------------ the condition

  /** The limit holds for calls made, and not only for calls charged. */
  ghost predicate CallsStayWithin(steps: seq<PlanStep>, max: nat) {
    forall w: World, retriever: bool :: Execute(Start(steps), w, max, retriever).dispatched <= max
  }

  /** Calls made stay within a limit, whatever happens, iff the plan's tool steps are at most half of it, rounded up. */
  lemma LimitHoldsForFew(steps: seq<PlanStep>, max: nat)
    ensures CallsStayWithin(steps, max) <==> max == 0 || 2 * Calls(steps) <= max + 1
  {
    if max == 0 || 2 * Calls(steps) <= max + 1 {
      forall w: World, retriever: bool
        ensures Execute(Start(steps), w, max, retriever).dispatched <= max
      {
        MostCallsIsMost(steps, w, max, retriever);
      }
    } else {
      WorstIsMost(steps, max, true);
    }
  }

  // ------------------------------------------------------- plans as they are made

  const DEFAULT_MAX_TOOL_CALLS: nat := 12

  /** A repaired plan, as the loop takes it up. */
  function ToRun(plan: seq<Step>): (r: seq<PlanStep>)
    ensures |r| == |plan|
  {
    seq(|plan|, i requires 0 <= i < |plan| => PlanStep(plan[i].intent, plan[i].tool, false))
  }

  lemma {:induction false} CallsAreSteps(steps: seq<PlanStep>)
    ensures Calls(steps) <= |steps|
  {
    if steps != [] {
      CallsAreSteps(steps[1..]);
    }
  }

  /** The limit holds for calls made under every plan the planner's replies lead to. */
  ghost predicate EveryPlanStaysWithin(max: nat) {
    forall reply: Option<seq<RawStep>>, asked: Option<string>, available: set<string> ::
      CallsStayWithin(ToRun(ParsePlan(reply, asked, available)), max)
  }

  lemma PlanStaysWithin(reply: Option<seq<RawStep>>, asked: Option<string>, available: set<string>, max: nat)
    requires max == 0 || max >= 2 * MAX_STEPS - 1
    ensures CallsStayWithin(ToRun(ParsePlan(reply, asked, available)), max)
  {
    var steps := ToRun(ParsePlan(reply, asked, available));
    EveryPlanIsNormal(reply, asked, available);
    CallsAreSteps(steps);
    LimitHoldsForFew(steps, max);
  }

  const CALCULATE := RawStep("s", Some("tool"), "calculator")
  const CALCULATION := Step(Given("s"), Tool, Some("calculator"))

  lemma ReadsCalculation(index: nat)
    ensures ReadStep(CALCULATE, index, {"calculator"}) == Some(CALCULATION)
  {
    TrimmedStaysWhole("calculator");
  }

  lemma {:induction false} CalculationsAreKept(n: nat)
    ensures ReadSteps(Repeat(CALCULATE, n), {"calculator"}) == Repeat(CALCULATION, n)
    ensures Actions(Repeat(CALCULATION, n)) == Repeat(CALCULATION, n)
    ensures Dedup(Repeat(CALCULATION, n)) == Repeat(CALCULATION, n)
  {
    if n > 0 {
      CalculationsAreKept(n - 1);
      RepeatInit(CALCULATE, n);
      RepeatInit(CALCULATION, n);
      ReadsCalculation(n);
      assert "calculator"[0] != "artifact."[0];
    }
  }

  lemma {:induction false} CalculationsAreCalls(n: nat)
    ensures Calls(ToRun(Repeat(CALCULATION, n))) == n
  {
    if n > 0 {
      CalculationsAreCalls(n - 1);
      RepeatTail(CALCULATION, n);
      assert ToRun(Repeat(CALCULATION, n))[1..] == ToRun(Repeat(CALCULATION, n - 1));
    }
  }

  /** A reply of six tool steps is a plan of six calls. */
  lemma SixCalls()
    ensures ParsePlan(Some(Repeat(CALCULATE, MAX_STEPS)), None, {"calculator"}) == Repeat(CALCULATION, MAX_STEPS)
  {
    var steps := Repeat(CALCULATION, MAX_STEPS);
    CalculationsAreKept(MAX_STEPS);
    assert EnsureArtifact(steps, None, {"calculator"}) == steps;
    assert (steps + [AnswerOf(steps)])[..MAX_STEPS] == steps;
  }

  /**
   For every plan there can be, the limit holds for calls made from eleven on; so it does
   with the default of twelve, and not with the smaller limits a request may ask for.
   */
  lemma ElevenIsEnough(max: nat)
    ensures EveryPlanStaysWithin(max) <==> max == 0 || max >= 11
    ensures EveryPlanStaysWithin(DEFAULT_MAX_TOOL_CALLS)
  {
    forall limit: nat, reply: Option<seq<RawStep>>, asked: Option<string>, available: set<string>
      | limit == 0 || limit >= 11
      ensures CallsStayWithin(ToRun(ParsePlan(reply, asked, available)), limit)
    {
      PlanStaysWithin(reply, asked, available, limit);
    }
    if 0 < max < 11 {
      SixCalls();
      CalculationsAreCalls(MAX_STEPS);
      LimitHoldsForFew(ToRun(Repeat(CALCULATION, MAX_STEPS)), max);
      assert !CallsStayWithin(ToRun(ParsePlan(Some(Repeat(CALCULATE, MAX_STEPS)), None, {"calculator"})), max);
    }
  }
}
