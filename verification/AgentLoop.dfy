/** The agent's execute loop: which step is next, how often it may search, and what its budget is charged for. */
module AgentLoop {
  import opened Option
  import opened Evidence
  import opened PlanRepair

  // What searches find, what tools answer, what people decide and whether tokens or time ran out
  // is the `World`, and is arbitrary.

  const MAX_RETRIEVE_LOOPS: nat := 3

  datatype PlanStep = PlanStep(intent: Intent, tool: Option<string>, done: bool)

  /** One search: what it found, whether that was judged enough, and whether another query came back. */
  datatype Look = Look(found: seq<Item>, sufficient: bool, rewritten: bool)

  datatype Reply = Raised | Refused | Answered

  /** One attempt at a tool step. `deferred` says that carrying out the approved action gave a result. */
  datatype Attempt = Attempt(
    bound: bool,
    needsApproval: bool,
    gatePresent: bool,
    decision: Option<bool>,
    deferred: bool,
    first: Reply,
    rebound: bool)

  /** By number: searches, attempts, and whether a budget check finds tokens or time used up. */
  datatype World = World(looks: nat -> Look, attempts: nat -> Attempt, spent: nat -> bool)

  datatype Run = Run(
    steps: seq<PlanStep>,
    evidence: seq<Item>,
    loops: nat,
    searches: nat,
    attempts: nat,
    checks: nat,
    used: nat,
    dispatched: nat,
    raised: nat,
    taken: nat)

  function Start(steps: seq<PlanStep>): Run {
    Run(steps, [], 0, 0, 0, 0, 0, 0, 0, 0)
  }

  // ------------------------------------------------------------- one step

  /** A run, and whether the loop goes round again. */
  datatype Round = Round(run: Run, again: bool)

  /** One search of a retrieve step. */
  function LookOnce(r: Run, w: World): (c: Round)
    ensures c.again ==> c.run.loops == r.loops + 1 < MAX_RETRIEVE_LOOPS
  {
    var look := w.looks(r.searches);
    var s := r.(evidence := Merge(r.evidence, look.found), searches := r.searches + 1);
    if s.loops >= MAX_RETRIEVE_LOOPS - 1 || look.sufficient || s.evidence == [] then Round(s, false)
    else Round(s.(loops := s.loops + 1), look.rewritten)
  }

  function Retrieved(r: Run, w: World): Run
    decreases MAX_RETRIEVE_LOOPS - r.loops
  {
    var c := LookOnce(r, w);
    if c.again then Retrieved(c.run, w) else c.run
  }

  /** The calls one attempt makes, and those it is charged for. */
  function Attempted(r: Run, a: Attempt, max: nat): Run {
    if !a.bound then r
    else if a.needsApproval && a.gatePresent && a.decision != Some(true) then r
    else if a.needsApproval && a.gatePresent && a.deferred then r.(used := r.used + 1, taken := r.taken + 1)
    else if a.first == Raised then r.(dispatched := r.dispatched + 1, raised := r.raised + 1)
    else if a.first == Refused && !a.needsApproval && r.used + 1 < max && a.rebound
    then r.(used := r.used + 2, dispatched := r.dispatched + 2)
    else r.(used := r.used + 1, dispatched := r.dispatched + 1)
  }

  function Acted(r: Run, tool: Option<string>, w: World, max: nat): Run {
    if tool.None? then r else Attempted(r.(attempts := r.attempts + 1), w.attempts(r.attempts), max)
  }

  // ------------------------------------------------------------- the loop

  /** The first step not done, or the number of steps. */
  function NextStep(steps: seq<PlanStep>): (i: nat)
    ensures i <= |steps| && (i < |steps| ==> !steps[i].done)
    ensures forall k :: 0 <= k < i ==> steps[k].done
  {
    if steps == [] || !steps[0].done then 0
    else
      assert forall k :: 0 < k < |steps| ==> steps[k] == steps[1..][k - 1];
      1 + NextStep(steps[1..])
  }

  function Undone(steps: seq<PlanStep>): nat {
    if steps == [] then 0 else Undone(steps[..|steps| - 1]) + if steps[|steps| - 1].done then 0 else 1
  }

  /** Retrieve steps, or tool steps, still to come. */
  function Waiting(steps: seq<PlanStep>, retrieve: bool): nat {
    if steps == [] then 0
    else
      var last := steps[|steps| - 1];
      Waiting(steps[..|steps| - 1], retrieve) + if !last.done && (last.intent == Retrieve) == retrieve then 1 else 0
  }

  function Done(steps: seq<PlanStep>, i: nat): seq<PlanStep>
    requires i < |steps|
  {
    steps[i := steps[i].(done := true)]
  }

  lemma {:induction false} DoneCounts(steps: seq<PlanStep>, i: nat)
    requires i < |steps| && !steps[i].done
    ensures Undone(Done(steps, i)) + 1 == Undone(steps)
    ensures forall retrieve: bool ::
              Waiting(Done(steps, i), retrieve) + (if (steps[i].intent == Retrieve) == retrieve then 1 else 0)
              == Waiting(steps, retrieve)
  {
    var init := steps[..|steps| - 1];
    if i == |init| {
      assert Done(steps, i)[..|steps| - 1] == init;
    } else {
      DoneCounts(init, i);
      assert Done(steps, i)[..|steps| - 1] == Done(init, i);
    }
  }

  /** What a step leaves behind, before it is marked done. */
  function StepTaken(r: Run, step: PlanStep, w: World, max: nat, retriever: bool): Run {
    if step.intent == Retrieve then (if retriever then Retrieved(r, w) else r) else Acted(r, step.tool, w, max)
  }

  lemma {:induction false} PlanIsKept(r: Run, w: World)
    ensures Retrieved(r, w).steps == r.steps
    decreases MAX_RETRIEVE_LOOPS - r.loops
  {
    var c := LookOnce(r, w);
    if c.again {
      PlanIsKept(c.run, w);
    }
  }

  /** One round of the execute loop. */
  function StepOnce(r: Run, w: World, max: nat, retriever: bool): (c: Round)
    ensures c.again ==> Undone(c.run.steps) < Undone(r.steps)
  {
    var i := NextStep(r.steps);
    if i == |r.steps| || r.steps[i].intent == Synthesize then Round(r, false)
    else
      var checked := r.(checks := r.checks + 1);
      if r.used >= max || w.spent(r.checks) then Round(checked, false)
      else
        DoneCounts(r.steps, i);
        Round(StepTaken(checked, r.steps[i], w, max, retriever).(steps := Done(r.steps, i)), true)
  }

  function Execute(r: Run, w: World, max: nat, retriever: bool): Run
    decreases Undone(r.steps)
  {
    var c := StepOnce(r, w, max, retriever);
    if c.again then Execute(c.run, w, max, retriever) else c.run
  }

  /** A run in progress; `state` is the dictionary the agent's nodes update. */
  class AgentRun {
    const world: World
    const maxToolCalls: nat
    const retriever: bool
    var state: Run

    constructor (steps: seq<PlanStep>, world: World, maxToolCalls: nat, retriever: bool)
      ensures state == Start(steps) && state.steps == steps && state.evidence == []
      ensures state.loops == state.searches == state.attempts == state.checks == state.used == 0
      ensures state.dispatched == state.raised == state.taken == 0
      ensures this.world == world && this.maxToolCalls == maxToolCalls && this.retriever == retriever
    {
      state := Start(steps);
      this.world, this.maxToolCalls, this.retriever := world, maxToolCalls, retriever;
    }

    method SearchOnce() returns (again: bool)
      modifies this
      ensures Round(state, again) == LookOnce(old(state), world)
    {
      var look := world.looks(state.searches);
      var evidence := MergeEvidence(state.evidence, look.found);
      state := state.(evidence := evidence, searches := state.searches + 1);
      if state.loops >= MAX_RETRIEVE_LOOPS - 1 {
        return false;
      }
      if look.sufficient || state.evidence == [] {
        return false;
      }
      state := state.(loops := state.loops + 1);
      again := look.rewritten;
    }

    /** Searches, and while that is judged not enough, searches again with another query. */
    method Retrieve()
      modifies this
      ensures state == if retriever then Retrieved(old(state), world) else old(state)
    {
      if !retriever {
        return;
      }
      var again := true;
      while again
        invariant (if again then Retrieved(state, world) else state) == Retrieved(old(state), world)
        decreases again, MAX_RETRIEVE_LOOPS - state.loops
      {
        again := SearchOnce();
      }
    }

    /** One tool step, through the approval gate, and once more if the tool refuses its arguments. */
    method Act(tool: Option<string>)
      modifies this
      ensures state == Acted(old(state), tool, world, maxToolCalls)
    {
      if tool.None? {
        return;
      }
      var a := world.attempts(state.attempts);
      state := state.(attempts := state.attempts + 1);
      if !a.bound {
        return;
      }
      if a.needsApproval && a.gatePresent {
        if a.decision != Some(true) {
          return;
        }
        if a.deferred {
          state := state.(used := state.used + 1, taken := state.taken + 1);
          return;
        }
      }
      state := state.(dispatched := state.dispatched + 1);
      if a.first == Raised {
        state := state.(raised := state.raised + 1);
        return;
      }
      state := state.(used := state.used + 1);
      var headroom := state.used < maxToolCalls;
      if a.first == Refused && !a.needsApproval && headroom {
        if a.rebound {
          state := state.(used := state.used + 1);
          state := state.(dispatched := state.dispatched + 1);
        }
      }
    }

    method TakeStep(step: PlanStep)
      modifies this
      ensures state == StepTaken(old(state), step, world, maxToolCalls, retriever)
    {
      if step.intent == PlanRepair.Retrieve {
        Retrieve();
      } else {
        Act(step.tool);
      }
    }

    method NextRound() returns (again: bool)
      modifies this
      ensures Round(state, again) == StepOnce(old(state), world, maxToolCalls, retriever)
    {
      var i := NextStep(state.steps);
      if i == |state.steps| || state.steps[i].intent == Synthesize {
        return false;
      }
      var step := state.steps[i];
      state := state.(checks := state.checks + 1);
      if state.used >= maxToolCalls || world.spent(state.checks - 1) {
        return false;
      }
      PlanIsKept(state, world);
      TakeStep(step);
      state := state.(steps := state.steps[i := step.(done := true)]);
      again := true;
    }

    /** Runs the plan up to its answer, or until the budget is used up. */
    method ExecuteLoop()
      modifies this
      ensures state == Execute(old(state), world, maxToolCalls, retriever)
    {
      var again := true;
      while again
        invariant (if again then Execute(state, world, maxToolCalls, retriever) else state)
                  == Execute(old(state), world, maxToolCalls, retriever)
        decreases again, Undone(state.steps)
      {
        again := NextRound();
      }
    }
  }

  // --------------------------------------------------------------- one step

  /** Searching again always costs one of the run's two retries. */
  lemma {:induction false} RetrievedBounds(r: Run, w: World)
    requires r.loops < MAX_RETRIEVE_LOOPS
    ensures var s := Retrieved(r, w);
            && r.loops <= s.loops < MAX_RETRIEVE_LOOPS
            && r.searches < s.searches <= r.searches + 1 + (s.loops - r.loops)
    decreases MAX_RETRIEVE_LOOPS - r.loops
  {
    var c := LookOnce(r, w);
    if c.again {
      RetrievedBounds(c.run, w);
    }
  }

  /** Everything the first `n` searches found. */
  function Seen(w: World, n: nat): seq<Item> {
    if n == 0 then [] else Seen(w, n - 1) + w.looks(n - 1).found
  }

  ghost predicate Best(evidence: seq<Item>, w: World, searches: nat) {
    BestOf(evidence, Seen(w, searches)) && BestFirst(evidence)
  }

  ghost predicate EvidenceIsBest(r: Run, w: World) {
    Best(r.evidence, w, r.searches)
  }

  lemma SearchKeepsBest(evidence: seq<Item>, w: World, n: nat)
    requires Best(evidence, w, n)
    ensures Best(Merge(evidence, w.looks(n).found), w, n + 1)
  {
    MergeKeepsBest(evidence, Seen(w, n), w.looks(n).found);
  }

  lemma LookKeepsBest(r: Run, w: World)
    requires EvidenceIsBest(r, w)
    ensures EvidenceIsBest(LookOnce(r, w).run, w)
  {
    SearchKeepsBest(r.evidence, w, r.searches);
    LookResult(r, w);
  }

  lemma LookResult(r: Run, w: World)
    ensures LookOnce(r, w).run.evidence == Merge(r.evidence, w.looks(r.searches).found)
    ensures LookOnce(r, w).run.searches == r.searches + 1
  {
  }

  lemma {:induction false} RetrievedKeepsBest(r: Run, w: World)
    requires EvidenceIsBest(r, w)
    ensures EvidenceIsBest(Retrieved(r, w), w)
    decreases MAX_RETRIEVE_LOOPS - r.loops
  {
    LookKeepsBest(r, w);
    var c := LookOnce(r, w);
    if c.again {
      RetrievedKeepsBest(c.run, w);
    }
  }

  /** What searching leaves alone. */
  lemma {:induction false} RetrievedCallsNothing(r: Run, w: World)
    ensures var s := Retrieved(r, w);
            && s.used == r.used && s.dispatched == r.dispatched && s.raised == r.raised && s.taken == r.taken
            && s.attempts == r.attempts
    decreases MAX_RETRIEVE_LOOPS - r.loops
  {
    var c := LookOnce(r, w);
    if c.again {
      RetrievedCallsNothing(c.run, w);
    }
  }

  // ------------------------------------------------------------ every round

  /** What holds of a run, however far it has got with a plan of `retrieves` and `tools` steps. */
  predicate Inv(r: Run, max: nat, retrieves: nat, tools: nat) {
    && r.used <= max && r.loops < MAX_RETRIEVE_LOOPS
    && r.searches + Waiting(r.steps, true) <= retrieves + r.loops
    && r.dispatched + r.taken == r.used + r.raised
    && r.dispatched + 2 * Waiting(r.steps, false) <= 2 * tools
  }

  lemma ActedBounds(r: Run, tool: Option<string>, w: World, max: nat)
    requires r.used < max
    ensures var s := Acted(r, tool, w, max);
            && s.used <= max && s.loops == r.loops && s.searches == r.searches && s.evidence == r.evidence
            && s.dispatched + s.taken + r.used + r.raised == s.used + s.raised + r.dispatched + r.taken
            && s.dispatched <= r.dispatched + 2
  {
  }

  lemma RoundKeepsInv(r: Run, w: World, max: nat, retriever: bool, retrieves: nat, tools: nat)
    requires Inv(r, max, retrieves, tools)
    ensures Inv(StepOnce(r, w, max, retriever).run, max, retrieves, tools)
  {
    var i := NextStep(r.steps);
    if StepOnce(r, w, max, retriever).again {
      DoneWaits(r.steps, i);
      StepKeepsInv(r.(checks := r.checks + 1), r.steps[i], w, max, retriever, retrieves, tools, Done(r.steps, i));
    }
  }

  /** What a round that goes on has done. */
  lemma RoundTakesStep(r: Run, w: World, max: nat, retriever: bool)
    requires StepOnce(r, w, max, retriever).again
    ensures var i := NextStep(r.steps);
            && i < |r.steps| && r.steps[i].intent != Synthesize
            && StepOnce(r, w, max, retriever).run
               == StepTaken(r.(checks := r.checks + 1), r.steps[i], w, max, retriever).(steps := Done(r.steps, i))
  {
  }

  /** A round that does not go on leaves all but the number of checks. */
  lemma RoundStops(r: Run, w: World, max: nat, retriever: bool)
    requires !StepOnce(r, w, max, retriever).again
    ensures var s := StepOnce(r, w, max, retriever).run; s == r || s == r.(checks := r.checks + 1)
  {
  }

  lemma StepKeepsInv(
    r: Run, step: PlanStep, w: World, max: nat, retriever: bool, retrieves: nat, tools: nat, rest: seq<PlanStep>)
    requires Inv(r, max, retrieves, tools) && r.used < max
    requires Waiting(rest, true) + (if step.intent == PlanRepair.Retrieve then 1 else 0) == Waiting(r.steps, true)
    requires Waiting(rest, false) + (if step.intent == PlanRepair.Retrieve then 0 else 1) == Waiting(r.steps, false)
    ensures Inv(StepTaken(r, step, w, max, retriever).(steps := rest), max, retrieves, tools)
  {
    if step.intent == PlanRepair.Retrieve {
      RetrieveKeepsInv(r, w, max, retriever, retrieves, tools, rest);
    } else {
      ActKeepsInv(r, step.tool, w, max, retrieves, tools, rest);
    }
  }

  lemma DoneWaits(steps: seq<PlanStep>, i: nat)
    requires i < |steps| && !steps[i].done
    ensures Waiting(Done(steps, i), true) + (if steps[i].intent == PlanRepair.Retrieve then 1 else 0)
            == Waiting(steps, true)
    ensures Waiting(Done(steps, i), false) + (if steps[i].intent == PlanRepair.Retrieve then 0 else 1)
            == Waiting(steps, false)
  {
    DoneCounts(steps, i);
  }

  lemma ActKeepsInv(r: Run, tool: Option<string>, w: World, max: nat, retrieves: nat, tools: nat, rest: seq<PlanStep>)
    requires Inv(r, max, retrieves, tools) && r.used < max
    requires Waiting(rest, true) == Waiting(r.steps, true) && Waiting(rest, false) + 1 == Waiting(r.steps, false)
    ensures Inv(Acted(r, tool, w, max).(steps := rest), max, retrieves, tools)
  {
    ActedBounds(r, tool, w, max);
  }

  lemma RetrieveKeepsInv(r: Run, w: World, max: nat, retriever: bool, retrieves: nat, tools: nat, rest: seq<PlanStep>)
    requires Inv(r, max, retrieves, tools)
    requires Waiting(rest, true) + 1 == Waiting(r.steps, true) && Waiting(rest, false) == Waiting(r.steps, false)
    ensures Inv((if retriever then Retrieved(r, w) else r).(steps := rest), max, retrieves, tools)
  {
    if retriever {
      RetrievedBounds(r, w);
      RetrievedCallsNothing(r, w);
    }
  }

  lemma {:induction false} ExecuteKeepsInv(r: Run, w: World, max: nat, retriever: bool, retrieves: nat, tools: nat)
    requires Inv(r, max, retrieves, tools)
    ensures Inv(Execute(r, w, max, retriever), max, retrieves, tools)
    decreases Undone(r.steps)
  {
    RoundKeepsInv(r, w, max, retriever, retrieves, tools);
    var c := StepOnce(r, w, max, retriever);
    if c.again {
      ExecuteKeepsInv(c.run, w, max, retriever, retrieves, tools);
    }
  }

  // ------------------------------------------------------------ main results

  /**
   Whatever the world does, a run ends within its limits: charged calls, searches over the
   whole run, and calls made. A first call that raises is made and not charged.
   */
  lemma RunKeepsItsLimits(steps: seq<PlanStep>, w: World, max: nat, retriever: bool)
    ensures var r := Execute(Start(steps), w, max, retriever);
            && r.used <= max
            && r.searches <= Waiting(steps, true) + MAX_RETRIEVE_LOOPS - 1
            && r.dispatched + r.taken == r.used + r.raised
            && r.dispatched <= 2 * Waiting(steps, false)
  {
    StartHolds(steps, w, max);
    ExecuteKeepsInv(Start(steps), w, max, retriever, Waiting(steps, true), Waiting(steps, false));
  }

  lemma StartHolds(steps: seq<PlanStep>, w: World, max: nat)
    ensures Inv(Start(steps), max, Waiting(steps, true), Waiting(steps, false)) && EvidenceIsBest(Start(steps), w)
  {
    assert Seen(w, 0) == [];
  }

  /** The evidence a run ends with has one item a chunk, the best that any of its searches found. */
  lemma RunKeepsTheBest(steps: seq<PlanStep>, w: World, max: nat, retriever: bool)
    ensures EvidenceIsBest(Execute(Start(steps), w, max, retriever), w)
  {
    StartHolds(steps, w, max);
    ExecuteKeepsBest(Start(steps), w, max, retriever);
  }

  lemma {:induction false} ExecuteKeepsBest(r: Run, w: World, max: nat, retriever: bool)
    requires EvidenceIsBest(r, w)
    ensures EvidenceIsBest(Execute(r, w, max, retriever), w)
    decreases Undone(r.steps)
  {
    RoundKeepsBest(r, w, max, retriever);
    var c := StepOnce(r, w, max, retriever);
    if c.again {
      ExecuteKeepsBest(c.run, w, max, retriever);
    }
  }

  lemma RoundKeepsBest(r: Run, w: World, max: nat, retriever: bool)
    requires EvidenceIsBest(r, w)
    ensures EvidenceIsBest(StepOnce(r, w, max, retriever).run, w)
  {
    var checked := r.(checks := r.checks + 1);
    assert EvidenceIsBest(checked, w);
    RetrievedKeepsBest(checked, w);
  }

  /** The loop stops at the answer, at the end of the plan, or because a limit was reached. */
  lemma {:induction false} StopsForAReason(r: Run, w: World, max: nat, retriever: bool)
    ensures Stopped(Execute(r, w, max, retriever), w, max)
    decreases Undone(r.steps)
  {
    var c := StepOnce(r, w, max, retriever);
    if c.again {
      StopsForAReason(c.run, w, max, retriever);
    }
  }

  predicate Stopped(r: Run, w: World, max: nat) {
    var i := NextStep(r.steps);
    || i == |r.steps| || r.steps[i].intent == Synthesize
    || r.used >= max || (r.checks > 0 && w.spent(r.checks - 1))
  }

  // ------------------------------------------- the limit is on charged calls

  function ToolSteps(n: nat): (r: seq<PlanStep>)
    ensures |r| == n
  {
    seq(n, _ => PlanStep(Tool, Some("calculator"), false))
  }

  const EVERY_CALL_RAISES := World(
    _ => Look([], true, false), _ => Attempt(true, false, false, None, false, Raised, false), _ => false)

  predicate FirstDone(steps: seq<PlanStep>, k: nat) {
    && k <= |steps|
    && forall i :: 0 <= i < |steps| ==> steps[i] == PlanStep(Tool, Some("calculator"), i < k)
  }

  lemma {:induction false} RaisingIsFree(r: Run, k: nat)
    requires FirstDone(r.steps, k) && r.used == 0 && r.dispatched == k
    ensures var s := Execute(r, EVERY_CALL_RAISES, 1, true);
            s.used == 0 && s.dispatched == |r.steps|
    decreases |r.steps| - k
  {
    var i := NextStep(r.steps);
    assert k < |r.steps| ==> r.steps[k] == PlanStep(Tool, Some("calculator"), false);
    assert i < |r.steps| ==> r.steps[i] == PlanStep(Tool, Some("calculator"), i < k);
    if k < |r.steps| {
      RaisingIsFree(StepOnce(r, EVERY_CALL_RAISES, 1, true).run, k + 1);
    }
  }

  /** With a limit of one call, a plan of `n` steps whose tool breaks makes `n` of them. */
  lemma LimitIsOnChargedCalls(n: nat)
    ensures var r := Execute(Start(ToolSteps(n)), EVERY_CALL_RAISES, 1, true);
            r.used == 0 && r.dispatched == n
  {
    RaisingIsFree(Start(ToolSteps(n)), 0);
  }
}
