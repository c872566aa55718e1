/** Which attempts call their tool, and how often: the approval gate, results taken over, and the one correction. */
module GatedCalls {
  import opened Option
  import opened Evidence
  import opened PlanRepair
  import opened AgentLoop
  import opened CallLimit

  // ---------------------------------------------------------- one attempt

  /** The tool waits for a person, and that person has not said yes. */
  predicate Withheld(a: Attempt) {
    a.needsApproval && a.gatePresent && a.decision != Some(true)
  }

  /** Carrying out the approved action has given the result already. */
  predicate TakenOver(a: Attempt) {
    a.needsApproval && a.gatePresent && a.deferred
  }

  /** The most calls an attempt can make: a second one only after a refusal, and never behind the gate. */
  function MostOf(a: Attempt): nat {
    if !a.bound || Withheld(a) || TakenOver(a) then 0
    else if a.needsApproval || a.first != Refused || !a.rebound then 1
    else 2
  }

  /** The calls an attempt makes; `headroom` says that one more charge leaves some of the budget. */
  function CallsOf(a: Attempt, headroom: bool): nat {
    if MostOf(a) == 2 && !headroom then 1 else MostOf(a)
  }

  /** What it is charged: its calls, but not a first one that raises; and one for a result taken over. */
  function ChargeOf(a: Attempt, headroom: bool): nat {
    if a.bound && !Withheld(a) && TakenOver(a) then 1
    else if MostOf(a) > 0 && a.first == Raised then 0
    else CallsOf(a, headroom)
  }

  lemma AttemptCounts(r: Run, tool: string, w: World, max: nat)
    ensures var a := w.attempts(r.attempts);
            var s := Acted(r, Some(tool), w, max);
            && s.attempts == r.attempts + 1
            && s.dispatched == r.dispatched + CallsOf(a, r.used + 1 < max)
            && s.used == r.used + ChargeOf(a, r.used + 1 < max)
  {
  }

  /** An attempt that is approved and bound makes one call and no more, unless its result is there already. */
  lemma ApprovedIsCalledOnce(r: Run, tool: string, w: World, max: nat)
    requires var a := w.attempts(r.attempts); a.bound && a.needsApproval && a.gatePresent && a.decision == Some(true)
    ensures var a := w.attempts(r.attempts);
            var s := Acted(r, Some(tool), w, max);
            if a.deferred then s.dispatched == r.dispatched && s.used == r.used + 1 && s.taken == r.taken + 1
            else s.dispatched == r.dispatched + 1 && s.taken == r.taken
                 && s.used == r.used + if a.first == Raised then 0 else 1
  {
  }

  // ------------------------------------------------------------- whole runs

  /** What the first `n` attempts are charged in all. */
  function Charges(w: World, n: nat, max: nat): nat {
    if n == 0 then 0
    else
      var before := Charges(w, n - 1, max);
      before + ChargeOf(w.attempts(n - 1), before + 1 < max)
  }

  /** The calls they make in all. */
  function CallsBy(w: World, n: nat, max: nat): nat {
    if n == 0 then 0
    else CallsBy(w, n - 1, max) + CallsOf(w.attempts(n - 1), Charges(w, n - 1, max) + 1 < max)
  }

  predicate Counted(r: Run, w: World, max: nat, calls: nat) {
    && r.used == Charges(w, r.attempts, max) && r.dispatched == CallsBy(w, r.attempts, max)
    && r.attempts + Calls(r.steps) == calls
  }

  lemma StepIsCounted(r: Run, step: PlanStep, rest: seq<PlanStep>, w: World, max: nat, retriever: bool, calls: nat)
    requires Counted(r, w, max, calls) && step.intent != Synthesize
    requires Calls(r.steps) == Calls(rest) + if IsCall(step) then 1 else 0
    ensures Counted(StepTaken(r, step, w, max, retriever).(steps := rest), w, max, calls)
  {
    if step.intent == PlanRepair.Retrieve {
      RetrievedCallsNothing(r, w);
    } else if step.tool.Some? {
      AttemptCounts(r, step.tool.value, w, max);
    }
  }

  lemma StopIsCounted(r: Run, s: Run, w: World, max: nat, calls: nat)
    requires Counted(r, w, max, calls) && (s == r || s == r.(checks := r.checks + 1))
    ensures Counted(s, w, max, calls)
  {
  }

  lemma {:induction false} RunIsCounted(r: Run, w: World, max: nat, retriever: bool, calls: nat)
    requires Counted(r, w, max, calls)
    ensures Counted(Execute(r, w, max, retriever), w, max, calls)
    decreases Undone(r.steps)
  {
    var c := StepOnce(r, w, max, retriever);
    if c.again {
      var i := NextStep(r.steps);
      RoundTakesStep(r, w, max, retriever);
      CallsNext(r.steps);
      StepIsCounted(r.(checks := r.checks + 1), r.steps[i], Done(r.steps, i), w, max, retriever, calls);
      RunIsCounted(c.run, w, max, retriever, calls);
    } else {
      RoundStops(r, w, max, retriever);
      StopIsCounted(r, c.run, w, max, calls);
    }
  }

  /**
   Whatever the world does, a run's calls and charges are those of the attempts it made, one
   attempt for each tool step it got to.
   */
  lemma CallsAreTheAttempts(steps: seq<PlanStep>, w: World, max: nat, retriever: bool)
    ensures var r := Execute(Start(steps), w, max, retriever);
            && r.dispatched == CallsBy(w, r.attempts, max) && r.used == Charges(w, r.attempts, max)
            && r.attempts + Calls(r.steps) == Calls(steps)
  {
    RunIsCounted(Start(steps), w, max, retriever, Calls(steps));
  }

  /** The most calls the first `n` attempts can make. */
  function MostBy(w: World, n: nat): nat {
    if n == 0 then 0 else MostBy(w, n - 1) + MostOf(w.attempts(n - 1))
  }

  lemma {:induction false} CallsWithinMost(w: World, n: nat, max: nat)
    ensures CallsBy(w, n, max) <= MostBy(w, n)
  {
    if n > 0 {
      CallsWithinMost(w, n - 1, max);
    }
  }

  lemma CallsAreBounded(steps: seq<PlanStep>, w: World, max: nat, retriever: bool)
    ensures var r := Execute(Start(steps), w, max, retriever); r.dispatched <= MostBy(w, r.attempts)
  {
    CallsAreTheAttempts(steps, w, max, retriever);
    CallsWithinMost(w, Execute(Start(steps), w, max, retriever).attempts, max);
  }

  lemma {:induction false} NothingWithoutYes(w: World, n: nat, max: nat)
    requires forall i: nat :: Withheld(w.attempts(i))
    ensures CallsBy(w, n, max) == 0 && Charges(w, n, max) == 0
  {
    if n > 0 {
      NothingWithoutYes(w, n - 1, max);
    }
  }

  /** Where nobody says yes, nothing is called, taken over or charged, however long the plan. */
  lemma NoCallWithoutApproval(steps: seq<PlanStep>, w: World, max: nat, retriever: bool)
    requires forall i: nat :: Withheld(w.attempts(i))
    ensures var r := Execute(Start(steps), w, max, retriever);
            r.dispatched == 0 && r.taken == 0 && r.used == 0 && r.raised == 0
  {
    CallsAreTheAttempts(steps, w, max, retriever);
    var r := Execute(Start(steps), w, max, retriever);
    NothingWithoutYes(w, r.attempts, max);
    RunKeepsItsLimits(steps, w, max, retriever);
    NothingRaised(Start(steps), w, max, retriever);
  }

  lemma {:induction false} NothingRaised(r: Run, w: World, max: nat, retriever: bool)
    requires (forall i: nat :: Withheld(w.attempts(i))) && r.raised == 0
    ensures Execute(r, w, max, retriever).raised == 0
    decreases Undone(r.steps)
  {
    RetrievedCallsNothing(r.(checks := r.checks + 1), w);
    var c := StepOnce(r, w, max, retriever);
    assert Withheld(w.attempts(r.attempts));
    if c.again {
      NothingRaised(c.run, w, max, retriever);
    }
  }

  // --------------------------------------------------------------- searches

  /** The looks from `from` to `to` were not enough, and each brought another query. */
  predicate NotEnough(w: World, from: nat, to: nat) {
    forall k: nat :: from <= k < to ==> !w.looks(k).sufficient && w.looks(k).rewritten
  }

  /**
   A retrieve step searches again exactly as long as what it has is not enough, there is
   something, a new query comes, and the run has retries left.
   */
  lemma {:induction false} SearchesWhileNeeded(r: Run, w: World)
    requires r.loops <= 2
    ensures var s := Retrieved(r, w);
            && s.searches > r.searches && NotEnough(w, r.searches, s.searches - 1)
            && var last := w.looks(s.searches - 1);
            && (s.loops == 2 || last.sufficient || s.evidence == [] || !last.rewritten)
            && (s.searches > r.searches + 1 ==> r.evidence != [] || w.looks(r.searches).found != [])
            && s.loops - r.loops <= s.searches - r.searches <= s.loops - r.loops + 1
            && (s.searches - r.searches == s.loops - r.loops ==> !last.sufficient && !last.rewritten)
            && (s.searches - r.searches == s.loops - r.loops + 1 ==>
                  s.loops == 2 || last.sufficient || s.evidence == [])
    decreases 2 - r.loops
  {
    var c := LookOnce(r, w);
    NothingOfNothing();
    if c.again {
      SearchesWhileNeeded(c.run, w);
    }
  }

  lemma NothingOfNothing()
    ensures Merge([], []) == []
  {
    assert PutAll([]) == [];
    assert AbsorbAll([], []) == [];
  }

  /** No look is ever enough, each finds something, and each brings another query. */
  predicate NeverEnough(w: World, n: nat) {
    forall k: nat :: k < n ==> !w.looks(k).sufficient && w.looks(k).rewritten && w.looks(k).found != []
  }

  lemma SomethingFound(existing: seq<Item>, found: seq<Item>)
    requires found != []
    ensures Merge(existing, found) != []
  {
    var d := AbsorbAll(PutAll(existing), found);
    AbsorbsSomething(PutAll(existing), found);
    InsertItems(Sorted(d[..|d| - 1]), d[|d| - 1]);
  }

  lemma AbsorbsSomething(d: seq<Item>, found: seq<Item>)
    requires found != []
    ensures AbsorbAll(d, found) != []
  {
    var before := AbsorbAll(d, found[..|found| - 1]);
    GetMeansHas(before, found[|found| - 1].chunkId);
  }

  /** A run has two retries: where nothing is ever enough, its first retrieve step searches three times. */
  lemma SearchesThreeTimes(steps: seq<PlanStep>, w: World)
    requires NeverEnough(w, 3)
    ensures var s := Retrieved(Start(steps), w); s.searches == 3 && s.loops == 2
  {
    var r := Start(steps);
    SomethingFound([], w.looks(0).found);
    var r1 := LookOnce(r, w).run;
    SomethingFound(r1.evidence, w.looks(1).found);
    var r2 := LookOnce(r1, w).run;
    SomethingFound(r2.evidence, w.looks(2).found);
    assert Retrieved(r2, w) == LookOnce(r2, w).run;
    assert Retrieved(r1, w) == Retrieved(r2, w);
  }

  /** Retrieve steps search, if there is a retriever; without one nothing does. */
  predicate Searched(r: Run, retriever: bool, retrieves: nat) {
    if retriever then r.searches + Waiting(r.steps, true) >= retrieves && r.loops < MAX_RETRIEVE_LOOPS
    else r.searches == 0 && r.evidence == []
  }

  lemma ActSearchesNothing(r: Run, tool: Option<string>, w: World, max: nat)
    ensures var s := Acted(r, tool, w, max);
            s.searches == r.searches && s.evidence == r.evidence && s.loops == r.loops
  {
  }

  lemma StepSearches(
    r: Run, step: PlanStep, rest: seq<PlanStep>, w: World, max: nat, retriever: bool, retrieves: nat)
    requires Searched(r, retriever, retrieves)
    requires Waiting(rest, true) + (if step.intent == PlanRepair.Retrieve then 1 else 0) == Waiting(r.steps, true)
    ensures Searched(StepTaken(r, step, w, max, retriever).(steps := rest), retriever, retrieves)
  {
    if step.intent != PlanRepair.Retrieve {
      ActSearchesNothing(r, step.tool, w, max);
    } else if retriever {
      RetrievedBounds(r, w);
    }
  }

  lemma {:induction false} RunSearches(r: Run, w: World, max: nat, retriever: bool, retrieves: nat)
    requires Searched(r, retriever, retrieves)
    ensures Searched(Execute(r, w, max, retriever), retriever, retrieves)
    decreases Undone(r.steps)
  {
    var c := StepOnce(r, w, max, retriever);
    if c.again {
      var i := NextStep(r.steps);
      RoundTakesStep(r, w, max, retriever);
      DoneWaits(r.steps, i);
      StepSearches(r.(checks := r.checks + 1), r.steps[i], Done(r.steps, i), w, max, retriever, retrieves);
      RunSearches(c.run, w, max, retriever, retrieves);
    } else {
      RoundStops(r, w, max, retriever);
    }
  }

  /** Every retrieve step a run got through made at least one search, and without a retriever there was none. */
  lemma RetrieveStepsSearch(steps: seq<PlanStep>, w: World, max: nat, retriever: bool)
    ensures var r := Execute(Start(steps), w, max, retriever);
            if retriever then r.searches + Waiting(r.steps, true) >= Waiting(steps, true)
            else r.searches == 0 && r.evidence == []
  {
    RunSearches(Start(steps), w, max, retriever, Waiting(steps, true));
  }
}
