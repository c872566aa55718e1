/** What a run of the protocol comes to, read off the steps that were taken and nothing else. */
module Decisions {
  import opened Option
  import opened ApprovalRecord
  import opened DeferredExecution

  // ------------------------------------------------------------- the two clocks

  /** What the wall clock shows after the first `n` steps: what it was last set to. */
  function WallAt(steps: seq<Step>, n: nat): int
    requires n <= |steps|
  {
    if n == 0 then 0 else if steps[n - 1].Tick? then steps[n - 1].wall else WallAt(steps, n - 1)
  }

  /** What the monotonic clock shows: all the time that has passed. */
  function MonoAt(steps: seq<Step>, n: nat): nat
    requires n <= |steps|
  {
    if n == 0 then 0 else MonoAt(steps, n - 1) + if steps[n - 1].Tick? then steps[n - 1].elapsed else 0
  }

  // ------------------------------------------------------- step after step

  /** The state after the first `n` steps. */
  function StateAt(steps: seq<Step>, n: nat): State
    requires Legal(INITIAL, steps) && n <= |steps|
  {
    PrefixIsLegal(INITIAL, steps, n);
    After(INITIAL, steps[..n])
  }

  lemma {:induction false} PrefixIsLegal(s: State, steps: seq<Step>, n: nat)
    requires Legal(s, steps) && n <= |steps|
    ensures Legal(s, steps[..n])
    decreases n
  {
    if n > 0 {
      PrefixIsLegal(Next(s, steps[0]), steps[1..], n - 1);
      assert steps[..n][1..] == steps[1..][..n - 1];
    }
  }

  lemma {:induction false} PrefixStep(s: State, steps: seq<Step>, n: nat)
    requires Legal(s, steps) && n < |steps| && Legal(s, steps[..n]) && Legal(s, steps[..n + 1])
    ensures Enabled(After(s, steps[..n]), steps[n])
    ensures After(s, steps[..n + 1]) == Next(After(s, steps[..n]), steps[n])
    decreases n
  {
    if n > 0 {
      assert steps[..n][1..] == steps[1..][..n - 1] && steps[..n + 1][1..] == steps[1..][..n];
      PrefixStep(Next(s, steps[0]), steps[1..], n - 1);
    } else {
      assert steps[..1][1..] == [];
    }
  }

  lemma OneStep(steps: seq<Step>, n: nat)
    requires Legal(INITIAL, steps) && n < |steps|
    ensures Enabled(StateAt(steps, n), steps[n]) && StateAt(steps, n + 1) == Next(StateAt(steps, n), steps[n])
    ensures Inv(StateAt(steps, n))
  {
    PrefixIsLegal(INITIAL, steps, n);
    PrefixIsLegal(INITIAL, steps, n + 1);
    PrefixStep(INITIAL, steps, n);
    StepsKeepInv(INITIAL, steps[..n]);
  }

  lemma WholeRun(steps: seq<Step>)
    requires Legal(INITIAL, steps)
    ensures StateAt(steps, |steps|) == After(INITIAL, steps)
  {
    assert steps[..|steps|] == steps;
  }

  // ------------------------------------------------------------ the decision

  const A_DAY := 86400

  /** The first request among the first `n` steps, or `n`. */
  function Asked(steps: seq<Step>, n: nat): (j: nat)
    requires n <= |steps|
    ensures j <= n && (j < n ==> steps[j].Request?)
    ensures forall k :: 0 <= k < j ==> !steps[k].Request?
  {
    if n == 0 then 0
    else
      var j := Asked(steps, n - 1);
      if j < n - 1 || steps[n - 1].Request? then j else n
  }

  /** Step `i` settles the request of step `j`: someone else speaks, or the sweep comes by after a day. */
  predicate Settles(steps: seq<Step>, j: nat, i: nat)
    requires j < i < |steps| && steps[j].Request?
  {
    || (steps[i].Decide? && steps[i].approver != steps[j].requester)
    || (steps[i].Sweep? && WallAt(steps, i) > WallAt(steps, j) + A_DAY)
  }

  /** The first step before `n` that settles the request of step `j`, or `n`. */
  function Settled(steps: seq<Step>, j: nat, n: nat): (i: nat)
    requires j < n <= |steps| && steps[j].Request?
    ensures j < i <= n && (i < n ==> Settles(steps, j, i))
    ensures forall k :: j < k < i ==> !Settles(steps, j, k)
  {
    if n == j + 1 then n
    else
      var i := Settled(steps, j, n - 1);
      if i < n - 1 || Settles(steps, j, n - 1) then i else n
  }

  /** What became of the request: it is up to the first word that counts, and to when it came. */
  function Verdict(steps: seq<Step>, j: nat, n: nat): Status
    requires j < n <= |steps| && steps[j].Request?
  {
    var i := Settled(steps, j, n);
    if i == n then Pending
    else if WallAt(steps, i) > WallAt(steps, j) + A_DAY then Expired
    else if steps[i].approved then Approved
    else Rejected
  }

  /** The row is what the steps say it must be. */
  predicate Told(s: State, steps: seq<Step>, n: nat)
    requires n <= |steps|
  {
    var j := Asked(steps, n);
    && s.wall == WallAt(steps, n) && s.mono == MonoAt(steps, n)
    && (j == n ==> s.row.None?)
    && (j < n ==> s.row.Some? && ToldRow(s.row.value, steps, j, n))
  }

  predicate ToldRow(r: Row, steps: seq<Step>, j: nat, n: nat)
    requires j < n <= |steps| && steps[j].Request?
  {
    var i := Settled(steps, j, n);
    && r.requestedBy == Some(steps[j].requester) && r.deferred == steps[j].deferred
    && r.expiresAt == Some(WallAt(steps, j) + A_DAY)
    && r.status == Verdict(steps, j, n)
    && (r.status == Approved || r.status == Rejected ==>
          r.decidedBy == Some(steps[i].approver) && r.decidedAt == Some(WallAt(steps, i)) &&
          r.comment == Some(steps[i].comment))
  }

  lemma RequestIsTold(s: State, steps: seq<Step>, n: nat)
    requires n < |steps| && Told(s, steps, n) && Enabled(s, steps[n]) && steps[n].Request?
    ensures Told(Next(s, steps[n]), steps, n + 1)
  {
  }

  lemma DecisionIsTold(s: State, steps: seq<Step>, n: nat)
    requires n < |steps| && Told(s, steps, n) && Enabled(s, steps[n]) && (steps[n].Decide? || steps[n].Sweep?)
    ensures Told(Next(s, steps[n]), steps, n + 1)
  {
  }

  lemma OtherIsTold(s: State, steps: seq<Step>, n: nat)
    requires n < |steps| && Told(s, steps, n) && Enabled(s, steps[n])
    requires !steps[n].Request? && !steps[n].Decide? && !steps[n].Sweep?
    ensures Told(Next(s, steps[n]), steps, n + 1)
  {
  }

  lemma {:induction false} EveryStepIsTold(steps: seq<Step>, n: nat)
    requires Legal(INITIAL, steps) && n <= |steps|
    ensures Told(StateAt(steps, n), steps, n)
  {
    if n > 0 {
      EveryStepIsTold(steps, n - 1);
      OneStep(steps, n - 1);
      var s := StateAt(steps, n - 1);
      if steps[n - 1].Request? {
        RequestIsTold(s, steps, n - 1);
      } else if steps[n - 1].Decide? || steps[n - 1].Sweep? {
        DecisionIsTold(s, steps, n - 1);
      } else {
        OtherIsTold(s, steps, n - 1);
      }
    }
  }

  /**
   In every run the row's status is what was said: pending until someone other than the
   requester speaks or a day has passed at a sweep; then expired if it was too late, and
   otherwise approved or rejected as they said, under their name, at that time.
   */
  lemma StatusIsTheVerdict(steps: seq<Step>)
    requires Legal(INITIAL, steps)
    ensures var j := Asked(steps, |steps|);
            var row := After(INITIAL, steps).row;
            if j == |steps| then row.None? else row.Some? && ToldRow(row.value, steps, j, |steps|)
  {
    EveryStepIsTold(steps, |steps|);
    WholeRun(steps);
  }

  /** Someone other than the requester said yes, within a day of the request. */
  predicate SaidYes(steps: seq<Step>) {
    exists j, i :: 0 <= j < i < |steps| && IsYes(steps, j, i)
  }

  predicate IsYes(steps: seq<Step>, j: nat, i: nat)
    requires j < i < |steps|
  {
    && steps[j].Request? && steps[i].Decide? && steps[i].approved && steps[i].approver != steps[j].requester
    && WallAt(steps, i) <= WallAt(steps, j) + A_DAY
  }

  /** Nothing is dispatched unless somebody other than the requester said yes, in time. */
  lemma DispatchedOnlyOnYes(steps: seq<Step>)
    requires Legal(INITIAL, steps)
    ensures After(INITIAL, steps).dispatches > 0 ==> SaidYes(steps)
  {
    var s := After(INITIAL, steps);
    StepsKeepInv(INITIAL, steps);
    StatusIsTheVerdict(steps);
    if s.dispatches > 0 {
      var j := Asked(steps, |steps|);
      var i := Settled(steps, j, |steps|);
      assert IsYes(steps, j, i);
    }
  }

  // ------------------------------------------------------------ after a no

  /** The run that asked has not gone on to the action, and will not. */
  predicate HeldBack(s: State, status: Status) {
    && s.row.Some? && s.row.value.status == status && s.dispatches == 0
    && (s.run.Waiting? || s.run.Refused? || s.run.StillWaiting? || s.run.Dead?)
  }

  lemma NoHoldsBack(s: State)
    requires Inv(s) && s.row.Some? && (s.row.value.status == Rejected || s.row.value.status == Expired)
    ensures HeldBack(s, s.row.value.status)
  {
  }

  lemma StaysHeldBack(s: State, status: Status, step: Step)
    requires Inv(s) && HeldBack(s, status) && (status == Rejected || status == Expired) && Enabled(s, step)
    ensures HeldBack(Next(s, step), status)
    ensures step.RunPoll? || s.run.Refused? ==> Next(s, step).run.Refused?
  {
    StepKeepsInv(s, step);
    StepContinuesRow(s, step);
  }

  lemma {:induction false} HeldBackForGood(s: State, status: Status, more: seq<Step>)
    requires Inv(s) && HeldBack(s, status) && (status == Rejected || status == Expired) && Legal(s, more)
    ensures HeldBack(After(s, more), status)
    ensures s.run.Refused? || (exists k :: 0 <= k < |more| && more[k].RunPoll?) ==> After(s, more).run.Refused?
    decreases |more|
  {
    if more != [] {
      StepKeepsInv(s, more[0]);
      StaysHeldBack(s, status, more[0]);
      HeldBackForGood(Next(s, more[0]), status, more[1..]);
      forall k | 0 < k < |more| && more[k].RunPoll?
        ensures 0 <= k - 1 < |more[1..]| && more[1..][k - 1].RunPoll?
      {
      }
    }
  }

  /** The first word that counted was a no, or came too late. */
  predicate SaidNo(steps: seq<Step>) {
    var j := Asked(steps, |steps|);
    j < |steps| && (Verdict(steps, j, |steps|) == Rejected || Verdict(steps, j, |steps|) == Expired)
  }

  /**
   Once someone else has said no, or the request has run out, nothing is ever dispatched,
   and the run that asked is refused as soon as it looks.
   */
  lemma NoMeansNo(steps: seq<Step>, more: seq<Step>)
    requires Legal(INITIAL, steps) && Legal(After(INITIAL, steps), more)
    requires SaidNo(steps)
    ensures var s := After(INITIAL, steps);
            var t := After(s, more);
            && t.dispatches == 0
            && t.row.Some? && t.row.value.status == Verdict(steps, Asked(steps, |steps|), |steps|)
            && (s.run.Refused? || (exists k :: 0 <= k < |more| && more[k].RunPoll?) ==> t.run.Refused?)
  {
    var s := After(INITIAL, steps);
    StepsKeepInv(INITIAL, steps);
    StatusIsTheVerdict(steps);
    NoHoldsBack(s);
    HeldBackForGood(s, s.row.value.status, more);
  }

  // --------------------------------------------------------------- waiting

  predicate IsTurn(step: Step, c: nat) {
    (step.ReadRow? || step.Claim?) && step.caller == c
  }

  /** The last step before `n` at which caller `c` looked at the row to find work, or `n`. */
  function LastTurn(steps: seq<Step>, c: nat, n: nat): (k: nat)
    requires n <= |steps|
    ensures k <= n && (k < n ==> IsTurn(steps[k], c))
  {
    if n == 0 then 0
    else if IsTurn(steps[n - 1], c) then n - 1
    else
      var k := LastTurn(steps, c, n - 1);
      if k < n - 1 then k else n
  }

  /** The run waits three minutes from the request. */
  predicate RunTimed(s: State, steps: seq<Step>, n: nat)
    requires n <= |steps|
  {
    && s.mono == MonoAt(steps, n)
    && (s.run.NotAsked? ==> Asked(steps, n) == n)
    && (s.run.Waiting? ==> Asked(steps, n) < n && s.run.deadline == MonoAt(steps, Asked(steps, n)) + 180)
  }

  function WaitEnds(steps: seq<Step>, c: nat, n: nat): int
    requires n <= |steps|
  {
    MonoAt(steps, LastTurn(steps, c, n)) + 30
  }

  /** A caller waits thirty seconds from its last look. */
  predicate CallerTimed(s: State, steps: seq<Step>, n: nat, c: nat)
    requires n <= |steps|
  {
    c in s.callers && s.callers[c].Awaiting? ==>
      LastTurn(steps, c, n) < n && s.callers[c].deadline == WaitEnds(steps, c, n)
  }

  lemma RunStaysTimed(s: State, steps: seq<Step>, n: nat)
    requires n < |steps| && RunTimed(s, steps, n) && Enabled(s, steps[n])
    ensures RunTimed(Next(s, steps[n]), steps, n + 1)
  {
  }

  lemma CallerStaysTimed(s: State, steps: seq<Step>, n: nat, c: nat)
    requires n < |steps| && CallerTimed(s, steps, n, c) && s.mono == MonoAt(steps, n) && Enabled(s, steps[n])
    ensures CallerTimed(Next(s, steps[n]), steps, n + 1, c)
  {
  }

  lemma {:induction false} EveryStepIsTimed(steps: seq<Step>, n: nat, c: nat)
    requires Legal(INITIAL, steps) && n <= |steps|
    ensures RunTimed(StateAt(steps, n), steps, n) && CallerTimed(StateAt(steps, n), steps, n, c)
  {
    if n > 0 {
      EveryStepIsTimed(steps, n - 1, c);
      OneStep(steps, n - 1);
      RunStaysTimed(StateAt(steps, n - 1), steps, n - 1);
      CallerStaysTimed(StateAt(steps, n - 1), steps, n - 1, c);
    }
  }

  lemma WhenWaitsEnd(s: State, steps: seq<Step>, n: nat, c: nat)
    requires n <= |steps| && RunTimed(s, steps, n) && CallerTimed(s, steps, n, c)
    ensures s.run.Waiting? ==>
              (Enabled(s, RunTimesOut) <==> MonoAt(steps, n) >= MonoAt(steps, Asked(steps, n)) + 180)
    ensures Enabled(s, RunTimesOut) ==> Next(s, RunTimesOut).run == StillWaiting
    ensures Enabled(s, GiveUp(c)) ==> Next(s, GiveUp(c)).callers[c] == Returned(TimedOut, NEVER_ARRIVED)
    ensures c in s.callers && s.callers[c].Awaiting? ==>
              (Enabled(s, GiveUp(c)) <==> MonoAt(steps, n) >= MonoAt(steps, LastTurn(steps, c, n)) + 30)
  {
  }

  /** Neither wait can end by itself before its time, and from then on either can. */
  lemma WaitsAreKept(steps: seq<Step>, c: nat)
    requires Legal(INITIAL, steps)
    ensures var s := After(INITIAL, steps);
            && (Enabled(s, RunTimesOut) ==> Next(s, RunTimesOut).run == StillWaiting)
            && (Enabled(s, GiveUp(c)) ==> Next(s, GiveUp(c)).callers[c] == Returned(TimedOut, NEVER_ARRIVED))
    ensures var s := After(INITIAL, steps);
            var n := |steps|;
            && (s.run.Waiting? ==>
                  (Enabled(s, RunTimesOut) <==> MonoAt(steps, n) >= MonoAt(steps, Asked(steps, n)) + 180))
            && (c in s.callers && s.callers[c].Awaiting? ==>
                  (Enabled(s, GiveUp(c)) <==> MonoAt(steps, n) >= MonoAt(steps, LastTurn(steps, c, n)) + 30))
  {
    EveryStepIsTimed(steps, |steps|, c);
    WholeRun(steps);
    WhenWaitsEnd(After(INITIAL, steps), steps, |steps|, c);
  }

  // ---------------------------------------------------------------- results

  /** What is recorded for a step: the tool's own summary with its artifacts, or a failure that names the tool. */
  predicate CameOf(step: Step, tool: string, result: Json) {
    match step
    case ToolReturns(_, Finished(summary, artifacts)) =>
      && result.Keys == summary.Keys + {"artifacts"} && result["artifacts"] == artifacts
      && forall k <- summary :: k != "artifacts" ==> result[k] == summary[k]
    case ToolReturns(_, Raised(error)) => result == map["ok" := "false", "tool" := tool, "error" := error]
    case RequesterGone(_) => result == map["ok" := "false", "tool" := tool, "error" := "unavailable"]
    case _ => false
  }

  /** The result came of one of the first `n` steps, taken by caller `c`. */
  predicate Made(steps: seq<Step>, n: nat, c: nat, tool: string, result: Json)
    requires n <= |steps|
  {
    exists k :: 0 <= k < n && CameOf(steps[k], tool, result) && steps[k].caller == c
  }

  function NamedTool(deferred: Json): string {
    if "tool" in deferred then deferred["tool"] else ""
  }

  predicate Sourced(s: State, steps: seq<Step>, n: nat)
    requires n <= |steps|
  {
    s.row.Some? ==>
      var r := s.row.value;
      && (forall c <- s.callers :: s.callers[c].Recording? ==>
            Made(steps, n, c, NamedTool(r.deferred), s.callers[c].result))
      && (r.executionResult != map[] && s.claimant.Some? ==>
            Made(steps, n, s.claimant.value, NamedTool(r.deferred), r.executionResult))
  }

  lemma MadeEarlier(steps: seq<Step>, n: nat, c: nat, tool: string, result: Json)
    requires n < |steps| && Made(steps, n, c, tool, result)
    ensures Made(steps, n + 1, c, tool, result)
  {
  }

  lemma MadeNow(s: State, steps: seq<Step>, n: nat)
    requires n < |steps| && Enabled(s, steps[n]) && (steps[n].ToolReturns? || steps[n].RequesterGone?)
    ensures var c := steps[n].caller;
            var t := Next(s, steps[n]);
            t.callers[c].Recording? && Made(steps, n + 1, c, NamedTool(s.row.value.deferred), t.callers[c].result)
  {
    var tool := NamedTool(s.row.value.deferred);
    assert CameOf(steps[n], tool, Next(s, steps[n]).callers[steps[n].caller].result);
  }

  lemma CallerIsSourced(s: State, steps: seq<Step>, n: nat, c: nat)
    requires n < |steps| && Sourced(s, steps, n) && Enabled(s, steps[n]) && s.row.Some?
    requires var t := Next(s, steps[n]); c in t.callers && t.callers[c].Recording?
    ensures Made(steps, n + 1, c, NamedTool(s.row.value.deferred), Next(s, steps[n]).callers[c].result)
  {
    if steps[n].ToolReturns? || steps[n].RequesterGone? {
      MadeNow(s, steps, n);
    }
    if c in s.callers && s.callers[c] == Next(s, steps[n]).callers[c] {
      MadeEarlier(steps, n, c, NamedTool(s.row.value.deferred), s.callers[c].result);
    }
  }

  lemma StepIsSourced(s: State, steps: seq<Step>, n: nat)
    requires n < |steps| && Sourced(s, steps, n) && Inv(s) && Enabled(s, steps[n]) && s.row.Some?
    ensures Sourced(Next(s, steps[n]), steps, n + 1)
  {
    var t := Next(s, steps[n]);
    StepContinuesRow(s, steps[n]);
    forall c | c in t.callers && t.callers[c].Recording?
      ensures Made(steps, n + 1, c, NamedTool(s.row.value.deferred), t.callers[c].result)
    {
      CallerIsSourced(s, steps, n, c);
    }
    ResultIsSourced(s, steps, n);
  }

  lemma ResultIsSourced(s: State, steps: seq<Step>, n: nat)
    requires n < |steps| && Sourced(s, steps, n) && Inv(s) && Enabled(s, steps[n]) && s.row.Some?
    ensures var t := Next(s, steps[n]);
            t.row.Some? && (t.row.value.executionResult != map[] && t.claimant.Some? ==>
              Made(steps, n + 1, t.claimant.value, NamedTool(s.row.value.deferred), t.row.value.executionResult))
  {
    var t := Next(s, steps[n]);
    var tool := NamedTool(s.row.value.deferred);
    if steps[n].Record? {
      MadeEarlier(steps, n, steps[n].caller, tool, s.callers[steps[n].caller].result);
    } else if s.row.value.executionResult != map[] {
      MadeEarlier(steps, n, s.claimant.value, tool, s.row.value.executionResult);
    }
  }

  lemma {:induction false} EveryStepIsSourced(steps: seq<Step>, n: nat)
    requires Legal(INITIAL, steps) && n <= |steps|
    ensures Sourced(StateAt(steps, n), steps, n)
  {
    if n > 0 {
      EveryStepIsSourced(steps, n - 1);
      OneStep(steps, n - 1);
      var s := StateAt(steps, n - 1);
      if s.row.Some? {
        StepIsSourced(s, steps, n - 1);
      }
    }
  }

  /**
   What is recorded, and so what every caller is given, is what the tool gave the caller who
   holds the claim, or the failure that kept it from being called.
   */
  lemma ResultIsTheTools(steps: seq<Step>)
    requires Legal(INITIAL, steps)
    ensures var s := After(INITIAL, steps);
            s.row.Some? && s.row.value.executionResult != map[] ==>
              s.claimant.Some? &&
              Made(steps, |steps|, s.claimant.value, NamedTool(s.row.value.deferred), s.row.value.executionResult)
  {
    StepsKeepInv(INITIAL, steps);
    EveryStepIsSourced(steps, |steps|);
    WholeRun(steps);
  }

  // -------------------------------------------------- carrying the action out

  lemma {:induction false} Append(s: State, steps: seq<Step>, more: seq<Step>)
    requires Legal(s, steps) && Legal(After(s, steps), more)
    ensures Legal(s, steps + more) && After(s, steps + more) == After(After(s, steps), more)
    decreases |steps|
  {
    if steps == [] {
      assert steps + more == more;
    } else {
      Append(Next(s, steps[0]), steps[1..], more);
      assert (steps + more)[1..] == steps[1..] + more;
    }
  }

  lemma Cons(s: State, step: Step, more: seq<Step>)
    requires Enabled(s, step) && Legal(Next(s, step), more)
    ensures Legal(s, [step] + more) && After(s, [step] + more) == After(Next(s, step), more)
  {
    assert ([step] + more)[1..] == more;
  }

  /** An approved row with an action that nobody has claimed. */
  predicate Open(s: State) {
    && s.row.Some? && s.row.value.status == Approved && s.row.value.deferred != map[]
    && s.row.value.executedAt.None?
  }

  /** A caller on its way in claims the action and dispatches it. */
  lemma ClaimsAndDispatches(s: State, c: nat) returns (more: seq<Step>)
    requires Inv(s) && Open(s) && c in s.callers && s.callers[c].Entering?
    ensures Legal(s, more) && After(s, more).dispatches == 1
    ensures c in After(s, more).callers && After(s, more).callers[c].Dispatching? && After(s, more).row.Some?
    ensures After(s, more).run == s.run && After(s, more).row.value.deferred == s.row.value.deferred
  {
    var s1 := Next(s, Step.ReadRow(c));
    var s2 := Next(s1, Step.Claim(c));
    Cons(s2, Step.Dispatch(c), []);
    Cons(s1, Step.Claim(c), [Step.Dispatch(c)] + []);
    Cons(s, Step.ReadRow(c), [Step.Claim(c)] + ([Step.Dispatch(c)] + []));
    more := [Step.ReadRow(c)] + ([Step.Claim(c)] + ([Step.Dispatch(c)] + []));
  }

  lemma FinishesAndRecords(s: State, c: nat, summary: Json, artifacts: string) returns (more: seq<Step>)
    requires s.row.Some? && c in s.callers && s.callers[c].Dispatching?
    ensures Legal(s, more) && After(s, more).dispatches == s.dispatches && After(s, more).run == s.run
    ensures var result := summary["artifacts" := artifacts];
            && After(s, more).row.Some? && After(s, more).row.value.executionResult == result
            && c in After(s, more).callers && After(s, more).callers[c] == Returned(Owner, result)
  {
    var answer := Step.ToolReturns(c, Finished(summary, artifacts));
    Cons(Next(s, answer), Step.Record(c), []);
    Cons(s, answer, [Step.Record(c)] + []);
    more := [answer] + ([Step.Record(c)] + []);
  }

  /** The run takes what its own call returned. */
  lemma TakesTheResult(s: State, result: Json)
    requires s.run.Executing? && RUN in s.callers && s.callers[RUN] == Returned(Owner, result) && result != map[]
    ensures Legal(s, [RunResumes] + []) && After(s, [RunResumes] + []).dispatches == s.dispatches
    ensures After(s, [RunResumes] + []).run == RunPc.Delivered(result)
  {
    Cons(s, RunResumes, []);
  }

  /** A run on its way in carries the action out and takes its result. */
  lemma RunCarriesOut(s: State, summary: Json, artifacts: string) returns (more: seq<Step>)
    requires Inv(s) && Open(s) && s.run.Executing? && RUN in s.callers && s.callers[RUN].Entering?
    ensures Legal(s, more) && After(s, more).dispatches == 1
    ensures After(s, more).run == RunPc.Delivered(summary["artifacts" := artifacts])
  {
    var claims := ClaimsAndDispatches(s, RUN);
    var s2 := After(s, claims);
    var records := FinishesAndRecords(s2, RUN, summary, artifacts);
    assert "artifacts" in summary["artifacts" := artifacts];
    TakesTheResult(After(s2, records), summary["artifacts" := artifacts]);
    Append(s, claims, records);
    Append(s, claims + records, [RunResumes] + []);
    more := claims + records + ([RunResumes] + []);
  }

  lemma PollStartsTheCall(s: State)
    requires Inv(s) && Open(s) && s.run.Waiting?
    ensures Enabled(s, RunPoll)
    ensures var t := Next(s, RunPoll);
            Inv(t) && Open(t) && t.run.Executing? && RUN in t.callers && t.callers[RUN].Entering?
  {
    StepKeepsInv(s, RunPoll);
  }

  /**
   The run that waits for an approval can go on from it to the tool's result: from any
   state in which the row is approved and unclaimed there are steps that carry the action
   out once, record what the tool gave, and hand it to the run.
   */
  lemma ApprovedCanBeDelivered(steps: seq<Step>, summary: Json, artifacts: string) returns (more: seq<Step>)
    requires Legal(INITIAL, steps) && Open(After(INITIAL, steps)) && After(INITIAL, steps).run.Waiting?
    ensures Legal(After(INITIAL, steps), more)
    ensures var t := After(After(INITIAL, steps), more);
            t.dispatches == 1 && t.run == RunPc.Delivered(summary["artifacts" := artifacts])
  {
    var s := After(INITIAL, steps);
    StepsKeepInv(INITIAL, steps);
    PollStartsTheCall(s);
    var rest := RunCarriesOut(Next(s, RunPoll), summary, artifacts);
    Cons(s, RunPoll, rest);
    more := [RunPoll] + rest;
  }

  /**
   What a caller's first look comes to: nothing to do unless the row is approved with an
   action; the recorded result if there is one; a wait if someone has the claim; and a try for
   the claim only if nobody has.
   */
  lemma FirstLook(s: State, c: nat)
    requires c in s.callers && s.callers[c].Entering?
    ensures var pc := Next(s, Step.ReadRow(c)).callers[c];
            if s.row.None? || s.row.value.status != Approved || s.row.value.deferred == map[]
            then pc == Returned(NoWork, map[])
            else if s.row.value.executedAt.None? then pc == Claiming
            else if s.row.value.executionResult != map[] then pc == Returned(Reader, s.row.value.executionResult)
            else pc == Awaiting(s.mono + 30)
  {
  }
}
