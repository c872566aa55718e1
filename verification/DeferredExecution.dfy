/** Carrying out an approved action at most once. */
module DeferredExecution {
  import opened Option
  import opened ApprovalRecord

  // Any number of callers of `execute_approved`, one waiting run, the decision, the expiry sweep,
  // the passing of time and crashes interleave over one approval row. Each database block is one
  // atomic step; a caller holds a program counter between its blocks. `dispatches` counts every
  // time the action is carried out, by a caller that holds the claim or by the run falling
  // through to its own dispatch.

  /** How a caller of `execute_approved` came by its return value. */
  datatype Source = NoWork | Owner | Reader | TimedOut

  datatype Pc =
    | Entering                             // before the first block
    | Claiming                             // read an unexecuted row; UPDATE not yet sent
    | Holding                              // its UPDATE matched; nothing dispatched yet
    | Dispatching                          // the tool has been called
    | Recording(result: Json)              // about to store the result
    | Awaiting(deadline: int)              // polling for the winner's result
    | Returned(source: Source, value: Json)
    | Gone                                 // crashed, or raised out of the call

  /** The run that asked: `_await_approval` and then the rest of `_act`. */
  datatype RunPc =
    | NotAsked
    | Waiting(deadline: int)
    | Executing                            // inside `execute_approved`, as caller RUN
    | FallingThrough                       // got an empty result: about to dispatch itself
    | Delivered(value: Json)
    | DispatchedItself
    | Refused
    | StillWaiting
    | Dead

  datatype State = State(
    row: Option<Row>,
    run: RunPc,
    callers: map<nat, Pc>,
    claimant: Option<nat>,  // whose UPDATE matched
    dispatches: nat,
    lost: bool,             // the claim's owner stopped before dispatching
    mono: int,              // the monotonic clock
    wall: int)              // the wall clock

  const RUN: nat := 0
  const RESULT_WAIT := 30
  const APPROVAL_WAIT := 180

  /** The fixed failure of a caller whose wait ran out. */
  const NEVER_ARRIVED: Json := map["ok" := "false", "error" := "elsewhere"]

  /** What the tool call and the artifact rows after it came to. */
  datatype ToolOutcome = Finished(summary: Json, artifacts: string) | Raised(error: string)

  function SummaryOf(outcome: ToolOutcome, tool: string): Json {
    match outcome
    case Finished(summary, artifacts) => summary["artifacts" := artifacts]
    case Raised(error) => map["ok" := "false", "tool" := tool, "error" := error]
  }

  /** What is stored when the requester's account can no longer act. */
  function Unavailable(tool: string): Json {
    map["ok" := "false", "tool" := tool, "error" := "unavailable"]
  }

  lemma SummaryIsTruthy(outcome: ToolOutcome, tool: string)
    ensures SummaryOf(outcome, tool) != map[]
  {
    assert (if outcome.Finished? then "artifacts" else "error") in SummaryOf(outcome, tool);
  }

  lemma UnavailableIsTruthy(tool: string)
    ensures Unavailable(tool) != map[]
  {
    assert "ok" in Unavailable(tool);
  }

  lemma NeverArrivedIsTruthy()
    ensures NEVER_ARRIVED != map[] && NEVER_ARRIVED == map["ok" := "false", "error" := "elsewhere"]
  {
    assert "ok" in NEVER_ARRIVED;
  }

  function ToolOf(deferred: Json): string {
    if "tool" in deferred then deferred["tool"] else ""
  }

  datatype Step =
    | Request(requester: string, deferred: Json)
    | Decide(approver: string, approved: bool, comment: string)
    | Sweep
    | Tick(elapsed: nat, wall: int)
    | Call(caller: nat)
    | ReadRow(caller: nat)
    | Claim(caller: nat)
    | RequesterGone(caller: nat)
    | Dispatch(caller: nat)
    | ToolReturns(caller: nat, outcome: ToolOutcome)
    | Record(caller: nat)
    | Poll(caller: nat)
    | GiveUp(caller: nat)
    | Crash(caller: nat)
    | RunPoll
    | RunTimesOut
    | RunResumes
    | RunDispatches
    | RunCrashes

  const INITIAL := State(None, NotAsked, map[], None, 0, false, 0, 0)

  predicate At(s: State, caller: nat) {
    caller in s.callers && s.row.Some?
  }

  predicate Enabled(s: State, step: Step) {
    match step
    case Request(_, _) => s.row.None? && s.run.NotAsked?
    case Decide(_, _, _) => true
    case Sweep => true
    case Tick(_, _) => true
    case Call(c) => c != RUN && c !in s.callers
    case ReadRow(c) => c in s.callers && s.callers[c].Entering?
    case Claim(c) => At(s, c) && s.callers[c].Claiming?
    case RequesterGone(c) => At(s, c) && s.callers[c].Holding?
    case Dispatch(c) => At(s, c) && s.callers[c].Holding?
    case ToolReturns(c, _) => At(s, c) && s.callers[c].Dispatching?
    case Record(c) => At(s, c) && s.callers[c].Recording?
    case Poll(c) => At(s, c) && s.callers[c].Awaiting?
    case GiveUp(c) => c in s.callers && s.callers[c].Awaiting? && s.callers[c].deadline <= s.mono
    case Crash(c) => c in s.callers && !s.callers[c].Returned? && !s.callers[c].Gone?
    case RunPoll => s.run.Waiting? && s.row.Some?
    case RunTimesOut => s.run.Waiting? && s.run.deadline <= s.mono
    case RunResumes => s.run.Executing? && RUN in s.callers && (s.callers[RUN].Returned? || s.callers[RUN].Gone?)
    case RunDispatches => s.run.FallingThrough?
    case RunCrashes => s.run.NotAsked? || s.run.Waiting? || s.run.FallingThrough?
  }

  function AfterRead(row: Option<Row>, mono: int): Pc {
    match Read(row)
    case NothingToDo => Returned(NoWork, map[])
    case Recorded(result) => Returned(Reader, result)
    case WaitForWinner => Awaiting(mono + RESULT_WAIT)
    case TryClaim => Claiming
  }

  function Write(s: State, w: ApprovalRecord.Write): State {
    if s.row.Some? then s.(row := Some(Apply(s.row.value, w))) else s
  }

  function Move(s: State, caller: nat, pc: Pc): State {
    s.(callers := s.callers[caller := pc])
  }

  function Next(s: State, step: Step): State
    requires Enabled(s, step)
  {
    match step
    case Request(requester, deferred) =>
      s.(row := Some(NewRequest(requester, deferred, s.wall)), run := Waiting(s.mono + APPROVAL_WAIT))
    case Decide(approver, approved, comment) => Write(s, ApprovalRecord.Decide(approver, approved, comment, s.wall))
    case Sweep => Write(s, ApprovalRecord.Sweep(s.wall))
    case Tick(elapsed, wall) => s.(mono := s.mono + elapsed, wall := wall)
    case Call(c) => Move(s, c, Entering)
    case ReadRow(c) => Move(s, c, AfterRead(s.row, s.mono))
    case Claim(c) =>
      if Claimable(s.row.value) then Move(Write(s, ApprovalRecord.Claim(s.wall)), c, Holding).(claimant := Some(c))
      else Move(s, c, Awaiting(s.mono + RESULT_WAIT))
    case RequesterGone(c) => Move(s, c, Recording(Unavailable(ToolOf(s.row.value.deferred)))).(lost := true)
    case Dispatch(c) => Move(s, c, Dispatching).(dispatches := s.dispatches + 1)
    case ToolReturns(c, outcome) => Move(s, c, Recording(SummaryOf(outcome, ToolOf(s.row.value.deferred))))
    case Record(c) =>
      var result := s.callers[c].result;
      Move(Write(s, ApprovalRecord.Record(result)), c, Returned(Owner, result))
    case Poll(c) =>
      var result := s.row.value.executionResult;
      if result != map[] then Move(s, c, Returned(Reader, result)) else s
    case GiveUp(c) => Move(s, c, Returned(TimedOut, NEVER_ARRIVED))
    case Crash(c) => Move(s, c, Gone).(lost := s.lost || s.callers[c].Holding?)
    case RunPoll =>
      (match s.row.value.status
       case Pending => s
       case Approved => Move(s, RUN, Entering).(run := Executing)
       case Rejected => s.(run := Refused)
       case Expired => s.(run := Refused))
    case RunTimesOut => s.(run := StillWaiting)
    case RunResumes =>
      (match s.callers[RUN]
       case Returned(_, value) => if value != map[] then s.(run := Delivered(value)) else s.(run := FallingThrough)
       case _ => s.(run := Dead))
    case RunDispatches => s.(run := DispatchedItself, dispatches := s.dispatches + 1)
    case RunCrashes => s.(run := Dead)
  }

  /** `steps` can be taken one after another from `s`. */
  predicate Legal(s: State, steps: seq<Step>)
    decreases |steps|
  {
    steps == [] || (Enabled(s, steps[0]) && Legal(Next(s, steps[0]), steps[1..]))
  }

  function After(s: State, steps: seq<Step>): State
    requires Legal(s, steps)
    decreases |steps|
  {
    if steps == [] then s else After(Next(s, steps[0]), steps[1..])
  }

  // ---------------------------------------------------------------- invariant

  /** States only the caller whose UPDATE matched can be in. */
  predicate OwnsClaim(pc: Pc) {
    pc.Holding? || pc.Dispatching? || pc.Recording? || (pc.Returned? && pc.source.Owner?)
  }

  predicate CallerOk(s: State, r: Row, pc: Pc) {
    match pc
    case Entering => true
    case Gone => true
    case Claiming => r.status == Approved && r.deferred != map[]
    case Holding => r.executedAt.Some? && r.executionResult == map[] && s.dispatches == 0 && !s.lost
    case Dispatching => r.executedAt.Some? && r.executionResult == map[] && s.dispatches == 1 && !s.lost
    case Recording(result) =>
      && r.executedAt.Some? && r.executionResult == map[] && result != map[]
      && (s.lost <==> s.dispatches == 0)
    case Awaiting(_) => r.executedAt.Some?
    case Returned(NoWork, value) => value == map[]
    case Returned(TimedOut, value) => value == NEVER_ARRIVED && r.executedAt.Some?
    case Returned(_, value) => value != map[] && value == r.executionResult
  }

  /** Every dispatch is accounted for: by the claim, or by the run itself. */
  predicate Accounted(s: State, r: Row) {
    && (r.executedAt.Some? <==> s.claimant.Some?)
    && (r.executedAt.Some? ==> r.deferred != map[] && s.dispatches <= 1 && s.claimant.value in s.callers)
    && (r.executedAt.Some? && !s.callers[s.claimant.value].Holding? ==> (s.dispatches == 1 <==> !s.lost))
    && (r.executedAt.None? ==>
          !s.lost && s.dispatches == (if s.run.DispatchedItself? then 1 else 0))
    && (r.deferred != map[] && r.executedAt.None? ==> s.dispatches == 0)
  }

  predicate RunOk(s: State, r: Row) {
    match s.run
    case NotAsked => false
    case Waiting(_) => RUN !in s.callers && (r.executedAt.None? ==> s.dispatches == 0)
    case Executing =>
      && RUN in s.callers && r.status == Approved
      && (s.callers[RUN].Returned? && s.callers[RUN].source.NoWork? ==> r.deferred == map[])
      && (r.executedAt.None? ==> s.dispatches == 0)
    case FallingThrough => r.status == Approved && r.deferred == map[] && s.dispatches == 0
    case Delivered(value) => value != map[] && r.status == Approved
    case DispatchedItself => r.status == Approved && r.deferred == map[]
    case _ => true
  }

  predicate Inv(s: State) {
    match s.row
    case None =>
      && (s.run.NotAsked? || s.run.Dead?) && s.claimant.None? && s.dispatches == 0 && !s.lost && RUN !in s.callers
      && forall c <- s.callers ::
           s.callers[c].Entering? || s.callers[c].Gone? || s.callers[c] == Returned(NoWork, map[])
    case Some(r) =>
      && Sound(r)
      && (forall c <- s.callers :: CallerOk(s, r, s.callers[c]))
      && (forall c <- s.callers :: OwnsClaim(s.callers[c]) ==> s.claimant == Some(c))
      && Accounted(s, r)
      && RunOk(s, r)
  }

  predicate OfWaitingRun(step: Step) {
    step.RunPoll? || step.RunTimesOut? || step.RunCrashes?
  }

  predicate OfResumedRun(step: Step) {
    step.RunResumes? || step.RunDispatches?
  }

  predicate OfEnvironment(step: Step) {
    step.Request? || step.Decide? || step.Sweep? || step.Tick? || step.Call?
  }

  lemma EnvironmentKeepsInv(s: State, step: Step)
    requires Inv(s) && Enabled(s, step) && OfEnvironment(step)
    ensures Inv(Next(s, step))
  {
  }

  lemma WaitingRunKeepsInv(s: State, step: Step)
    requires Inv(s) && Enabled(s, step) && OfWaitingRun(step)
    ensures Inv(Next(s, step))
  {
  }

  lemma ResumedRunKeepsInv(s: State, step: Step)
    requires Inv(s) && Enabled(s, step) && OfResumedRun(step)
    ensures Inv(Next(s, step))
  {
    NeverArrivedIsTruthy();
  }

  predicate OfClaimant(step: Step) {
    step.RequesterGone? || step.Dispatch? || step.ToolReturns? || step.Record?
  }

  lemma ClaimantKeepsInv(s: State, step: Step)
    requires Inv(s) && Enabled(s, step) && OfClaimant(step)
    ensures Inv(Next(s, step))
  {
    match step
    case RequesterGone(c) => UnavailableIsTruthy(ToolOf(s.row.value.deferred));
    case Dispatch(c) =>
    case ToolReturns(c, outcome) => SummaryIsTruthy(outcome, ToolOf(s.row.value.deferred));
    case Record(c) =>
  }

  lemma ReadKeepsInv(s: State, step: Step)
    requires Inv(s) && Enabled(s, step) && step.ReadRow?
    ensures Inv(Next(s, step))
  {
  }

  lemma ClaimKeepsInv(s: State, step: Step)
    requires Inv(s) && Enabled(s, step) && step.Claim?
    ensures Inv(Next(s, step))
  {
  }

  lemma WaiterKeepsInv(s: State, step: Step)
    requires Inv(s) && Enabled(s, step) && (step.Poll? || step.GiveUp? || step.Crash?)
    ensures Inv(Next(s, step))
  {
  }

  lemma StepKeepsInv(s: State, step: Step)
    requires Inv(s) && Enabled(s, step)
    ensures Inv(Next(s, step))
  {
    if OfEnvironment(step) {
      EnvironmentKeepsInv(s, step);
    } else if OfWaitingRun(step) {
      WaitingRunKeepsInv(s, step);
    } else if OfResumedRun(step) {
      ResumedRunKeepsInv(s, step);
    } else if OfClaimant(step) {
      ClaimantKeepsInv(s, step);
    } else if step.ReadRow? {
      ReadKeepsInv(s, step);
    } else if step.Claim? {
      ClaimKeepsInv(s, step);
    } else {
      WaiterKeepsInv(s, step);
    }
  }

  predicate RowContinues(s: State, t: State) {
    s.row.Some? ==> t.row.Some? && Continues(s.row.value, t.row.value)
  }

  lemma StepContinuesRow(s: State, step: Step)
    requires Inv(s) && Enabled(s, step)
    ensures RowContinues(s, Next(s, step))
  {
    if s.row.Some? {
      var r := s.row.value;
      match step
      case Decide(a, ok, comment) => WriteKeepsSound(r, ApprovalRecord.Decide(a, ok, comment, s.wall));
      case Sweep => WriteKeepsSound(r, ApprovalRecord.Sweep(s.wall));
      case Claim(_) => WriteKeepsSound(r, ApprovalRecord.Claim(s.wall));
      case Record(c) => WriteKeepsSound(r, ApprovalRecord.Record(s.callers[c].result));
      case _ =>
    }
  }

  lemma {:induction false} StepsKeepInv(s: State, steps: seq<Step>)
    requires Inv(s) && Legal(s, steps)
    ensures Inv(After(s, steps)) && RowContinues(s, After(s, steps))
    decreases |steps|
  {
    if steps != [] {
      StepKeepsInv(s, steps[0]);
      StepContinuesRow(s, steps[0]);
      StepsKeepInv(Next(s, steps[0]), steps[1..]);
    }
  }

  // ----------------------------------------------------------- main theorems

  /**
   In every interleaving the action is dispatched at most once, counting the
   deferred dispatch and the run's own; and the run's own happens only for an
   approval that carries no action to defer.
   */
  lemma AtMostOnce(steps: seq<Step>)
    requires Legal(INITIAL, steps)
    ensures var s := After(INITIAL, steps);
            && s.dispatches <= 1
            && (s.row.Some? && s.row.value.deferred != map[] ==>
                  !s.run.FallingThrough? && !s.run.DispatchedItself? &&
                  (s.dispatches == 1 ==> s.row.value.executedAt.Some?))
  {
    StepsKeepInv(INITIAL, steps);
  }

  /** Nothing is carried out unless somebody other than the requester approved it. */
  lemma OnlyWhenApproved(steps: seq<Step>)
    requires Legal(INITIAL, steps)
    ensures var s := After(INITIAL, steps);
            s.row.Some? ==>
              && Sound(s.row.value)
              && (s.dispatches == 1 ==>
                    s.row.value.status == Approved && s.row.value.decidedBy != s.row.value.requestedBy)
  {
    StepsKeepInv(INITIAL, steps);
  }

  /** A decision, a claim and a result are each final, whatever happens next. */
  lemma DecisionIsFinal(steps: seq<Step>, more: seq<Step>)
    requires Legal(INITIAL, steps) && After(INITIAL, steps).row.Some?
    requires Legal(After(INITIAL, steps), more)
    ensures var s := After(INITIAL, steps);
            var t := After(s, more);
            t.row.Some? && Continues(s.row.value, t.row.value)
  {
    StepsKeepInv(INITIAL, steps);
    StepsKeepInv(After(INITIAL, steps), more);
  }

  /**
   What a caller gets back: the recorded result, the fixed failure, or nothing
   at all; and any two callers that got a result got the same one.
   */
  lemma ReturnsTheRecord(steps: seq<Step>, c: nat, d: nat)
    requires Legal(INITIAL, steps)
    requires var s := After(INITIAL, steps);
             c in s.callers && d in s.callers && s.callers[c].Returned? && s.callers[d].Returned?
    ensures var s := After(INITIAL, steps);
            var (pc, pd) := (s.callers[c], s.callers[d]);
            && (pc.source.NoWork? <==> pc.value == map[])
            && (pc.source.TimedOut? ==> pc.value == NEVER_ARRIVED)
            && (pc.source.Owner? || pc.source.Reader? ==>
                  s.row.Some? && pc.value == s.row.value.executionResult)
            && (pc.source.Owner? && pd.source.Owner? ==> c == d)
            && (!pc.source.NoWork? && !pd.source.NoWork? && !pc.source.TimedOut? && !pd.source.TimedOut? ==>
                  pc.value == pd.value)
  {
    StepsKeepInv(INITIAL, steps);
    NeverArrivedIsTruthy();
  }

  /** The call has seen, or will see, an approved row that carries an action. */
  predicate HasWork(s: State, c: nat) {
    && s.row.Some? && s.row.value.status == Approved && s.row.value.deferred != map[]
    && c in s.callers && !(s.callers[c].Returned? && s.callers[c].value == map[])
  }

  /** A row approved with an action stays one. */
  lemma WorkStays(s: State, t: State)
    requires s.row.Some? && s.row.value.status == Approved && s.row.value.deferred != map[] && RowContinues(s, t)
    ensures t.row.Some? && t.row.value.status == Approved && t.row.value.deferred != map[]
  {
  }

  /** On such a row no caller is sent away empty. */
  lemma NotSentAway(s: State, c: nat, step: Step)
    requires Inv(s) && HasWork(s, c) && Enabled(s, step)
    ensures var t := Next(s, step);
            c in t.callers && (t.callers[c].Returned? && t.callers[c].value == map[] ==> !t.callers[c].source.NoWork?)
  {
  }

  lemma StepKeepsWork(s: State, c: nat, step: Step)
    requires Inv(s) && HasWork(s, c) && Enabled(s, step) && RowContinues(s, Next(s, step)) && Inv(Next(s, step))
    ensures HasWork(Next(s, step), c)
  {
    var t := Next(s, step);
    WorkStays(s, t);
    NotSentAway(s, c, step);
    NeverArrivedIsTruthy();
    assert CallerOk(t, t.row.value, t.callers[c]);
  }

  lemma {:induction false} WorkIsNeverForgotten(s: State, c: nat, steps: seq<Step>)
    requires Inv(s) && HasWork(s, c) && Legal(s, steps)
    ensures HasWork(After(s, steps), c)
    decreases |steps|
  {
    if steps != [] {
      StepKeepsInv(s, steps[0]);
      StepContinuesRow(s, steps[0]);
      StepKeepsWork(s, c, steps[0]);
      WorkIsNeverForgotten(Next(s, steps[0]), c, steps[1..]);
    }
  }

  /**
   A call that starts on an approved row with an action never returns the empty
   object, so no caller reads it as an invitation to do the work itself.
   */
  lemma ApprovedCallIsNeverEmpty(steps: seq<Step>, c: nat, more: seq<Step>)
    requires Legal(INITIAL, steps)
    requires var s := After(INITIAL, steps);
             && s.row.Some? && s.row.value.status == Approved && s.row.value.deferred != map[]
             && c in s.callers && s.callers[c].Entering?
             && Legal(s, more)
    ensures var t := After(After(INITIAL, steps), more);
            c in t.callers && (t.callers[c].Returned? ==> t.callers[c].value != map[])
  {
    StepsKeepInv(INITIAL, steps);
    WorkIsNeverForgotten(After(INITIAL, steps), c, more);
  }

  // ------------------------------------------------- at least once, and when

  /** The steps by which the owner of the claim stops short of dispatching. */
  predicate Loses(s: State, step: Step) {
    || step.RequesterGone?
    || (step.Crash? && step.caller in s.callers && s.callers[step.caller].Holding?)
  }

  predicate NothingLost(s: State, steps: seq<Step>)
    requires Legal(s, steps)
    decreases |steps|
  {
    steps == [] || (!Loses(s, steps[0]) && NothingLost(Next(s, steps[0]), steps[1..]))
  }

  lemma {:induction false} LostMeansLost(s: State, steps: seq<Step>)
    requires Inv(s) && Legal(s, steps)
    ensures After(s, steps).lost <==> s.lost || !NothingLost(s, steps)
    decreases |steps|
  {
    if steps != [] {
      StepKeepsInv(s, steps[0]);
      LostMeansLost(Next(s, steps[0]), steps[1..]);
    }
  }

  /**
   Exactly once, exactly when: once a claim has been taken and its owner has
   moved on, the action has been dispatched if and only if the owner neither
   crashed nor found the requester's account gone before dispatching.
   */
  lemma ExactlyOnceUnlessLost(steps: seq<Step>)
    requires Legal(INITIAL, steps)
    requires var s := After(INITIAL, steps);
             s.claimant.Some? && s.claimant.value in s.callers && !s.callers[s.claimant.value].Holding?
    ensures After(INITIAL, steps).dispatches == 1 <==> NothingLost(INITIAL, steps)
  {
    StepsKeepInv(INITIAL, steps);
    LostMeansLost(INITIAL, steps);
  }

  lemma {:induction false} LostStaysLost(s: State, steps: seq<Step>)
    requires Inv(s) && s.row.Some? && s.lost && s.dispatches == 0 && Legal(s, steps)
    ensures After(s, steps).dispatches == 0
    decreases |steps|
  {
    if steps != [] {
      StepKeepsInv(s, steps[0]);
      StepContinuesRow(s, steps[0]);
      LostStaysLost(Next(s, steps[0]), steps[1..]);
    }
  }

  lemma Extend(s: State, steps: seq<Step>, last: Step)
    requires Legal(s, steps) && Enabled(After(s, steps), last)
    ensures Legal(s, steps + [last]) && After(s, steps + [last]) == Next(After(s, steps), last)
    decreases |steps|
  {
    if steps == [] {
      assert (steps + [last])[1..] == [];
    } else {
      Extend(Next(s, steps[0]), steps[1..], last);
      assert (steps + [last])[1..] == steps[1..] + [last];
    }
  }

  /** Ask, approve, read, claim, crash: the shortest run that loses an approved action. */
  lemma CrashAfterClaim(deferred: Json) returns (steps: seq<Step>)
    requires deferred != map[]
    ensures Legal(INITIAL, steps)
    ensures var s := After(INITIAL, steps);
            && s.row.Some? && s.row.value.status == Approved && s.row.value.executedAt.Some?
            && s.dispatches == 0 && s.lost
  {
    steps := [];
    for i := 0 to 6
      invariant Legal(INITIAL, steps)
      invariant var s := After(INITIAL, steps);
                && s.dispatches == 0 && s.wall == 0
                && (s.lost <==> i == 6)
                && (i == 0 ==> s == INITIAL)
                && (i > 0 ==> s.row.Some? && s.row.value.deferred == deferred)
                && (i == 1 ==> s.row.value == NewRequest("requester", deferred, 0))
                && (i > 1 ==> s.row.value.status == Approved)
                && (1 <= i < 3 ==> s.callers == map[])
                && (2 <= i < 5 ==> s.row.value.executedAt.None?)
                && (i == 3 ==> s.callers == map[1 := Entering])
                && (i == 4 ==> s.callers == map[1 := Claiming])
                && (i == 5 ==> s.callers == map[1 := Holding])
                && (i >= 5 ==> s.row.value.executedAt.Some?)
    {
      var step := match i
        case 0 => Request("requester", deferred)
        case 1 => Step.Decide("approver", true, "")
        case 2 => Call(1)
        case 3 => ReadRow(1)
        case 4 => Step.Claim(1)
        case _ => Crash(1);
      Extend(INITIAL, steps, step);
      steps := steps + [step];
    }
  }

  /**
   So exactly-once is not unconditional: an approved, claimed action can be left
   undone, and then no continuation ever carries it out.
   */
  lemma ClaimCanBeLostForever(deferred: Json)
    requires deferred != map[]
    ensures exists steps :: Legal(INITIAL, steps) &&
              var s := After(INITIAL, steps);
              && s.row.Some? && s.row.value.status == Approved && s.row.value.executedAt.Some?
              && forall more :: Legal(s, more) ==> After(s, more).dispatches == 0
  {
    var steps := CrashAfterClaim(deferred);
    var s := After(INITIAL, steps);
    StepsKeepInv(INITIAL, steps);
    forall more | Legal(s, more)
      ensures After(s, more).dispatches == 0
    {
      LostStaysLost(s, more);
    }
  }
}
