/**
 Turning the planner's reply into a plan: reading its steps, adding the document step the
 request asked for, putting one answer at the end, and cutting to six steps.
 */
module PlanRepair {
  import opened Option
  import opened Text

  const MAX_STEPS := 6

  datatype Intent = Retrieve | Tool | Synthesize

  datatype StepId = Given(text: string) | Numbered(n: nat) | Final | Artifact

  datatype Step = Step(id: StepId, intent: Intent, tool: Option<string>)

  /** A step as the planner wrote it; a missing intent means `retrieve`. */
  datatype RawStep = RawStep(id: string, intent: Option<string>, tool: string)

  const DEFAULT_ANSWER := Step(Final, Synthesize, None)
  const FALLBACK := [Step(Given("s1"), Retrieve, None), Step(Given("s2"), Synthesize, None)]

  predicate IsArtifact(s: Step) {
    s.tool.Some? && "artifact." <= s.tool.value
  }

  // ------------------------------------------------------------ reading steps

  function ReadIntent(raw: Option<string>): Option<Intent> {
    match raw
    case None => Some(Retrieve)
    case Some(s) =>
      if s == "retrieve" then Some(Retrieve)
      else if s == "tool" then Some(Tool)
      else if s == "synthesize" then Some(Synthesize)
      else None
  }

  function ReadTool(raw: string): Option<string> {
    var tool := Strip(raw);
    if tool == "" || tool == "null" || tool == "none" || tool == "None" then None else Some(tool)
  }

  /** A step that names a tool is a tool step, unless it is a retrieve step. */
  function EffectiveIntent(intent: Intent, tool: Option<string>): Intent {
    if tool.Some? && intent != Retrieve then Tool else intent
  }

  predicate Offered(tool: Option<string>, available: set<string>) {
    tool.Some? && tool.value in available
  }

  /** The step, or none if it has no known intent or needs a tool that is not offered. */
  function ReadStep(raw: RawStep, index: nat, available: set<string>): Option<Step> {
    var intent := ReadIntent(raw.intent);
    if intent.None? then None
    else
      var tool := ReadTool(raw.tool);
      var effective := EffectiveIntent(intent.value, tool);
      if effective == Tool && !Offered(tool, available) then None
      else Some(Step(if raw.id == "" then Numbered(index) else Given(raw.id), effective, tool))
  }

  /** What reading guarantees of a step. */
  predicate WellRead(s: Step, available: set<string>) {
    && (s.intent == Tool ==> Offered(s.tool, available))
    && (s.intent == Synthesize ==> s.tool == None)
  }

  predicate AllWellRead(steps: seq<Step>, available: set<string>) {
    forall i :: 0 <= i < |steps| ==> WellRead(steps[i], available)
  }

  function ReadSteps(raws: seq<RawStep>, available: set<string>): (r: seq<Step>)
    ensures AllWellRead(r, available)
  {
    if raws == [] then []
    else
      match ReadStep(raws[|raws| - 1], |raws|, available)
      case None => ReadSteps(raws[..|raws| - 1], available)
      case Some(s) => ReadSteps(raws[..|raws| - 1], available) + [s]
  }

  /** Steps dropped because their tool is not offered: those the run reports. */
  function DroppedCount(raws: seq<RawStep>, available: set<string>): nat {
    if raws == [] then 0
    else
      var raw := raws[|raws| - 1];
      DroppedCount(raws[..|raws| - 1], available)
      + if ReadIntent(raw.intent).Some? && ReadStep(raw, |raws|, available).None? then 1 else 0
  }

  // ------------------------------------------------------------ normal form

  function Actions(steps: seq<Step>): seq<Step> {
    if steps == [] then []
    else if steps[|steps| - 1].intent == Synthesize then Actions(steps[..|steps| - 1])
    else Actions(steps[..|steps| - 1]) + [steps[|steps| - 1]]
  }

  function Answers(steps: seq<Step>): seq<Step> {
    if steps == [] then []
    else if steps[|steps| - 1].intent != Synthesize then Answers(steps[..|steps| - 1])
    else Answers(steps[..|steps| - 1]) + [steps[|steps| - 1]]
  }

  predicate Names(steps: seq<Step>, tool: string) {
    exists i :: 0 <= i < |steps| && steps[i].tool == Some(tool)
  }

  /** Only the first step naming each document tool is kept. */
  function Dedup(steps: seq<Step>): seq<Step> {
    if steps == [] then []
    else
      var init, last := steps[..|steps| - 1], steps[|steps| - 1];
      if IsArtifact(last) && Names(init, last.tool.value) then Dedup(init) else Dedup(init) + [last]
  }

  function AnswerOf(steps: seq<Step>): Step {
    var answers := Answers(steps);
    if answers == [] then DEFAULT_ANSWER else answers[|answers| - 1]
  }

  function SynthesisLast(steps: seq<Step>): seq<Step> {
    Dedup(Actions(steps)) + [AnswerOf(steps)]
  }

  function ArtifactStep(tool: string): Step {
    Step(Artifact, Tool, Some(tool))
  }

  /** How many steps come before the closing run of answers. */
  function BeforeAnswers(steps: seq<Step>): (n: nat)
    ensures n <= |steps|
  {
    if steps == [] || steps[|steps| - 1].intent != Synthesize then |steps|
    else BeforeAnswers(steps[..|steps| - 1])
  }

  /** The document tool the request asks for, when the caller may use it and no step names it yet. */
  function Missing(steps: seq<Step>, asked: Option<string>, available: set<string>): Option<string> {
    if asked.Some? && asked.value in available && !Names(steps, asked.value) then asked else None
  }

  function EnsureArtifact(steps: seq<Step>, asked: Option<string>, available: set<string>): seq<Step> {
    match Missing(steps, asked, available)
    case None => steps
    case Some(tool) =>
      var n := BeforeAnswers(steps);
      steps[..n] + [ArtifactStep(tool)] + steps[n..]
  }

  function Cut(steps: seq<Step>): seq<Step> {
    if |steps| <= MAX_STEPS then steps else steps[..MAX_STEPS]
  }

  function Repair(steps: seq<Step>, asked: Option<string>, available: set<string>): seq<Step> {
    Cut(SynthesisLast(EnsureArtifact(steps, asked, available)))
  }

  /** `None` is a reply that is not JSON. */
  function ParsePlan(reply: Option<seq<RawStep>>, asked: Option<string>, available: set<string>): seq<Step> {
    if reply.None? then FALLBACK
    else
      var steps := ReadSteps(reply.value, available);
      if steps == [] then FALLBACK else Repair(steps, asked, available)
  }

  // ------------------------------------------------------------- as loops

  method SynthesisLastLoop(steps: seq<Step>) returns (r: seq<Step>)
    ensures r == SynthesisLast(steps)
  {
    var actions, synthesis: seq<Step> := [], [];
    for i := 0 to |steps|
      invariant actions == Actions(steps[..i]) && synthesis == Answers(steps[..i])
    {
      assert steps[..i + 1][..i] == steps[..i];
      if steps[i].intent != Synthesize {
        actions := actions + [steps[i]];
      } else {
        synthesis := synthesis + [steps[i]];
      }
    }
    assert steps[..|steps|] == steps;
    var deduplicated := DedupLoop(actions);
    r := deduplicated + [if synthesis != [] then synthesis[|synthesis| - 1] else DEFAULT_ANSWER];
  }

  method DedupLoop(actions: seq<Step>) returns (deduplicated: seq<Step>)
    ensures deduplicated == Dedup(actions)
  {
    var seen: set<string> := {};
    deduplicated := [];
    for i := 0 to |actions|
      invariant deduplicated == Dedup(actions[..i])
      invariant forall tool: string :: "artifact." <= tool ==> (tool in seen <==> Names(actions[..i], tool))
    {
      var step := actions[i];
      assert actions[..i + 1][..i] == actions[..i];
      NamesNext(actions, i);
      if step.tool.Some? && "artifact." <= step.tool.value {
        if step.tool.value in seen {
          continue;
        }
        seen := seen + {step.tool.value};
      }
      deduplicated := deduplicated + [step];
    }
    assert actions[..|actions|] == actions;
  }

  lemma NamesNext(steps: seq<Step>, i: nat)
    requires i < |steps|
    ensures forall tool: string ::
              Names(steps[..i + 1], tool) <==> Names(steps[..i], tool) || steps[i].tool == Some(tool)
  {
    forall tool: string
      ensures Names(steps[..i + 1], tool) <==> Names(steps[..i], tool) || steps[i].tool == Some(tool)
    {
      NamesOne(steps, i, tool);
    }
  }

  lemma NamesOne(steps: seq<Step>, i: nat, tool: string)
    requires i < |steps|
    ensures Names(steps[..i + 1], tool) <==> Names(steps[..i], tool) || steps[i].tool == Some(tool)
  {
    if Names(steps[..i], tool) {
      var k :| 0 <= k < i && steps[..i][k].tool == Some(tool);
      assert steps[..i + 1][k].tool == Some(tool);
    }
    if Names(steps[..i + 1], tool) && steps[i].tool != Some(tool) {
      var k :| 0 <= k < i + 1 && steps[..i + 1][k].tool == Some(tool);
      assert steps[..i][k].tool == Some(tool);
    }
    if steps[i].tool == Some(tool) {
      assert steps[..i + 1][i].tool == Some(tool);
    }
  }

  /** `r` is `steps` with one more before its closing run of answers, which starts at `n`. */
  predicate IsInserted(r: seq<Step>, steps: seq<Step>, n: nat, added: Step)
    requires n <= |steps|
  {
    && r == steps[..n] + [added] + steps[n..]
    && (forall k :: n <= k < |steps| ==> steps[k].intent == Synthesize)
    && (n > 0 ==> steps[n - 1].intent != Synthesize)
  }

  method EnsureRequestedArtifact(steps: seq<Step>, asked: Option<string>, available: set<string>) returns (r: seq<Step>)
    ensures r == EnsureArtifact(steps, asked, available)
    ensures asked.None? || asked.value !in available || (exists s <- steps :: s.tool == asked) ==> r == steps
    ensures asked.Some? && asked.value in available && (forall s <- steps :: s.tool != asked) ==>
              exists n: nat :: n <= |steps| && IsInserted(r, steps, n, Step(Artifact, Tool, asked))
  {
    if asked.None? || asked.value !in available {
      return steps;
    }
    for i := 0 to |steps|
      invariant forall k :: 0 <= k < i ==> steps[k].tool != asked
    {
      if steps[i].tool == asked {
        return steps;
      }
    }
    var insertAt: nat := |steps|;
    assert steps[..|steps|] == steps;
    while insertAt > 0 && steps[insertAt - 1].intent == Synthesize
      invariant forall k :: insertAt <= k < |steps| ==> steps[k].intent == Synthesize
      invariant insertAt <= |steps| && BeforeAnswers(steps) == BeforeAnswers(steps[..insertAt])
    {
      assert steps[..insertAt][..insertAt - 1] == steps[..insertAt - 1];
      insertAt := insertAt - 1;
    }
    r := steps[..insertAt] + [ArtifactStep(asked.value)] + steps[insertAt..];
    assert IsInserted(r, steps, insertAt, ArtifactStep(asked.value));
  }

  /** `errors` counts the steps dropped for want of their tool. */
  method ReadStepsLoop(raws: seq<RawStep>, available: set<string>) returns (steps: seq<Step>, errors: nat)
    ensures steps == ReadSteps(raws, available) && errors == DroppedCount(raws, available)
  {
    steps, errors := [], 0;
    for i := 0 to |raws|
      invariant steps == ReadSteps(raws[..i], available) && errors == DroppedCount(raws[..i], available)
    {
      assert raws[..i + 1][..i] == raws[..i] && |raws[..i + 1]| == i + 1;
      var intent := ReadIntent(raws[i].intent);
      if intent.None? {
        continue;
      }
      var tool := ReadTool(raws[i].tool);
      var effective := EffectiveIntent(intent.value, tool);
      if effective == Tool && !Offered(tool, available) {
        errors := errors + 1;
      } else {
        steps := steps + [Step(if raws[i].id == "" then Numbered(i + 1) else Given(raws[i].id), effective, tool)];
      }
    }
    assert raws[..|raws|] == raws;
  }

  /** A reply that is not JSON counts as one error. */
  method ReadPlan(reply: Option<seq<RawStep>>, asked: Option<string>, available: set<string>)
    returns (plan: seq<Step>, errors: nat)
    ensures plan == ParsePlan(reply, asked, available)
    ensures errors == if reply.None? then 1 else DroppedCount(reply.value, available)
  {
    if reply.None? {
      return FALLBACK, 1;
    }
    var steps;
    steps, errors := ReadStepsLoop(reply.value, available);
    if steps == [] {
      return FALLBACK, errors;
    }
    steps := EnsureRequestedArtifact(steps, asked, available);
    steps := SynthesisLastLoop(steps);
    plan := if |steps| <= MAX_STEPS then steps else steps[..MAX_STEPS];
  }

  // ----------------------------------------------------------- what is kept

  predicate NoAnswers(steps: seq<Step>) {
    forall i :: 0 <= i < |steps| ==> steps[i].intent != Synthesize
  }

  predicate ArtifactsDiffer(steps: seq<Step>) {
    forall i, j :: 0 <= i < j < |steps| && IsArtifact(steps[i]) ==> steps[j].tool != steps[i].tool
  }

  /** `a` is `b` with some steps left out. */
  predicate Subsequence(a: seq<Step>, b: seq<Step>)
    decreases |b|
  {
    if b == [] then a == []
    else
      || Subsequence(a, b[..|b| - 1])
      || (a != [] && a[|a| - 1] == b[|b| - 1] && Subsequence(a[..|a| - 1], b[..|b| - 1]))
  }

  predicate SameNames(a: seq<Step>, b: seq<Step>) {
    && (forall i :: 0 <= i < |a| && a[i].tool.Some? ==> Names(b, a[i].tool.value))
    && (forall i :: 0 <= i < |b| && b[i].tool.Some? ==> Names(a, b[i].tool.value))
  }

  lemma SameNamesMeans(a: seq<Step>, b: seq<Step>, tool: string)
    requires SameNames(a, b)
    ensures Names(a, tool) <==> Names(b, tool)
  {
  }

  lemma SameNamesFor(a: seq<Step>, b: seq<Step>)
    requires forall tool: string :: Names(a, tool) <==> Names(b, tool)
    ensures SameNames(a, b)
  {
    forall i | 0 <= i < |a| && a[i].tool.Some?
      ensures Names(b, a[i].tool.value)
    {
      assert Names(a, a[i].tool.value);
    }
    forall i | 0 <= i < |b| && b[i].tool.Some?
      ensures Names(a, b[i].tool.value)
    {
      assert Names(b, b[i].tool.value);
    }
  }

  /** A step put at the end of both, or one that adds no name to the longer. */
  lemma SameNamesSnoc(a: seq<Step>, b: seq<Step>, s: Step)
    requires SameNames(a, b)
    ensures SameNames(a + [s], b + [s])
    ensures s.tool.None? || Names(b, s.tool.value) ==> SameNames(a, b + [s])
  {
    forall tool: string
      ensures Names(a + [s], tool) <==> Names(b + [s], tool)
      ensures s.tool.None? || Names(b, s.tool.value) ==> (Names(a, tool) <==> Names(b + [s], tool))
    {
      NamesSnoc(a, s, tool);
      NamesSnoc(b, s, tool);
      SameNamesMeans(a, b, tool);
    }
    SameNamesFor(a + [s], b + [s]);
    if s.tool.None? || Names(b, s.tool.value) {
      SameNamesFor(a, b + [s]);
    }
  }

  lemma {:induction false} ActionsProperties(steps: seq<Step>, available: set<string>)
    requires AllWellRead(steps, available)
    ensures NoAnswers(Actions(steps)) && AllWellRead(Actions(steps), available)
    ensures SameNames(Actions(steps), steps)
  {
    if steps != [] {
      var init, last := steps[..|steps| - 1], steps[|steps| - 1];
      ActionsProperties(init, available);
      assert WellRead(last, available);
      SameNamesSnoc(Actions(init), init, last);
      assert steps == init + [last];
    }
  }

  lemma NamesSnoc(steps: seq<Step>, s: Step, tool: string)
    ensures Names(steps + [s], tool) <==> Names(steps, tool) || s.tool == Some(tool)
  {
    var all := steps + [s];
    assert all[..|steps|] == steps && all[..|steps| + 1] == all;
    NamesOne(all, |steps|, tool);
  }

  lemma {:induction false} AnswersProperties(steps: seq<Step>, available: set<string>)
    requires AllWellRead(steps, available)
    ensures AllWellRead(Answers(steps), available)
    ensures forall i :: 0 <= i < |Answers(steps)| ==> Answers(steps)[i].intent == Synthesize
  {
    if steps != [] {
      assert WellRead(steps[|steps| - 1], available);
      AnswersProperties(steps[..|steps| - 1], available);
    }
  }

  lemma AnswerIsAnswer(steps: seq<Step>, available: set<string>)
    requires AllWellRead(steps, available)
    ensures AnswerOf(steps).intent == Synthesize && AnswerOf(steps).tool == None
  {
    AnswersProperties(steps, available);
    var answers := Answers(steps);
    if answers != [] {
      assert WellRead(answers[|answers| - 1], available);
    }
  }

  /** What collapsing keeps. */
  ghost predicate DedupKeeps(kept: seq<Step>, steps: seq<Step>, available: set<string>) {
    && Subsequence(kept, steps) && ArtifactsDiffer(kept) && NoAnswers(kept) && AllWellRead(kept, available)
    && SameNames(kept, steps)
  }

  lemma DedupStepKeeps(kept: seq<Step>, steps: seq<Step>, last: Step, available: set<string>)
    requires DedupKeeps(kept, steps, available) && NoAnswers([last]) && AllWellRead([last], available)
    requires IsArtifact(last) ==> !Names(steps, last.tool.value)
    ensures DedupKeeps(kept + [last], steps + [last], available)
  {
    assert [last][0] == last;
    SameNamesSnoc(kept, steps, last);
    DedupAppends(kept, steps, last);
    SubsequenceSnoc(kept, steps, last);
  }

  /** Collapsing repeats leaves the order, every name, and one step for each document tool. */
  lemma {:induction false} DedupProperties(steps: seq<Step>, available: set<string>)
    requires NoAnswers(steps) && AllWellRead(steps, available)
    ensures DedupKeeps(Dedup(steps), steps, available)
  {
    if steps != [] {
      var init, last := steps[..|steps| - 1], steps[|steps| - 1];
      DedupProperties(init, available);
      assert steps == init + [last];
      if IsArtifact(last) && Names(init, last.tool.value) {
        SameNamesSnoc(Dedup(init), init, last);
      } else {
        DedupStepKeeps(Dedup(init), init, last, available);
      }
    }
  }

  lemma SubsequenceSnoc(a: seq<Step>, b: seq<Step>, s: Step)
    requires Subsequence(a, b)
    ensures Subsequence(a + [s], b + [s])
  {
    assert (b + [s])[..|b|] == b && (a + [s])[..|a|] == a;
  }

  lemma DedupAppends(kept: seq<Step>, steps: seq<Step>, last: Step)
    requires ArtifactsDiffer(kept) && SameNames(kept, steps)
    requires IsArtifact(last) ==> !Names(steps, last.tool.value)
    ensures ArtifactsDiffer(kept + [last])
  {
    var all := kept + [last];
    forall i, j | 0 <= i < j < |all| && IsArtifact(all[i])
      ensures all[j].tool != all[i].tool
    {
      assert all[i] == kept[i] && Names(steps, kept[i].tool.value);
    }
  }

  // ------------------------------------------------------- the added step

  lemma {:induction false} AnswersAfter(steps: seq<Step>)
    ensures Actions(steps) == Actions(steps[..BeforeAnswers(steps)])
    ensures Actions(steps[BeforeAnswers(steps)..]) == []
  {
    var n := BeforeAnswers(steps);
    if n == |steps| {
      assert steps[..n] == steps && steps[n..] == [];
    } else {
      var init := steps[..|steps| - 1];
      AnswersAfter(init);
      assert init[..n] == steps[..n];
      assert steps[n..] == init[n..] + [steps[|steps| - 1]];
      assert steps[n..][..|steps[n..]| - 1] == init[n..];
    }
  }

  lemma {:induction false} ActionsConcat(a: seq<Step>, b: seq<Step>)
    ensures Actions(a + b) == Actions(a) + Actions(b)
    ensures Answers(a + b) == Answers(a) + Answers(b)
  {
    if b == [] {
      assert a + b == a;
    } else {
      var init, last := b[..|b| - 1], b[|b| - 1];
      assert a + b == (a + init) + [last];
      assert (a + b)[..|a + b| - 1] == a + init;
      ActionsConcat(a, init);
    }
  }

  function Added(steps: seq<Step>, asked: Option<string>, available: set<string>): seq<Step> {
    match Missing(steps, asked, available) case None => [] case Some(tool) => [ArtifactStep(tool)]
  }

  lemma ActionsOfOne(s: Step)
    ensures s.intent != Synthesize ==> Actions([s]) == [s] && Answers([s]) == []
  {
    assert [s][..0] == [] && Actions([]) == [] && Answers([]) == [];
  }

  /** The added step comes after every action, and changes nothing else. */
  lemma EnsureAddsLast(steps: seq<Step>, asked: Option<string>, available: set<string>)
    ensures Actions(EnsureArtifact(steps, asked, available)) == Actions(steps) + Added(steps, asked, available)
    ensures Answers(EnsureArtifact(steps, asked, available)) == Answers(steps)
  {
    var missing := Missing(steps, asked, available);
    if missing.None? {
      assert Actions(steps) + [] == Actions(steps);
    } else {
      var before, after := SplitAtAnswers(steps);
      AddBetween(steps, before, ArtifactStep(missing.value), after);
    }
  }

  /** The steps before the closing answers, and those answers. */
  lemma SplitAtAnswers(steps: seq<Step>) returns (before: seq<Step>, after: seq<Step>)
    ensures before == steps[..BeforeAnswers(steps)] && after == steps[BeforeAnswers(steps)..]
    ensures before + after == steps && Actions(after) == []
  {
    AnswersAfter(steps);
    before, after := steps[..BeforeAnswers(steps)], steps[BeforeAnswers(steps)..];
  }

  lemma AddBetween(steps: seq<Step>, before: seq<Step>, s: Step, after: seq<Step>)
    requires s.intent != Synthesize && Actions(after) == [] && before + after == steps
    ensures Actions(before + [s] + after) == Actions(steps) + [s]
    ensures Answers(before + [s] + after) == Answers(steps)
  {
    ActionsOfOne(s);
    ActionsConcat(before, after);
    ActionsConcat(before, [s]);
    ActionsConcat(before + [s], after);
    SameAnswers(Answers(before), Answers(after));
  }

  lemma SameAnswers(a: seq<Step>, b: seq<Step>)
    ensures a + [] + b == a + b
  {
  }

  /** The actions of the repaired plan, before it is cut. */
  function Planned(steps: seq<Step>, asked: Option<string>, available: set<string>): seq<Step> {
    Dedup(Actions(steps) + Added(steps, asked, available))
  }

  lemma RepairShape(steps: seq<Step>, asked: Option<string>, available: set<string>)
    requires AllWellRead(steps, available)
    ensures Repair(steps, asked, available) == Cut(Planned(steps, asked, available) + [AnswerOf(steps)])
  {
    EnsureAddsLast(steps, asked, available);
  }

  lemma PlannedProperties(steps: seq<Step>, asked: Option<string>, available: set<string>)
    requires AllWellRead(steps, available)
    ensures var planned := Planned(steps, asked, available);
            && Subsequence(planned, Actions(steps) + Added(steps, asked, available))
            && ArtifactsDiffer(planned) && NoAnswers(planned) && AllWellRead(planned, available)
    ensures SameNames(Planned(steps, asked, available), Actions(steps) + Added(steps, asked, available))
  {
    ActionsProperties(steps, available);
    DedupProperties(Actions(steps) + Added(steps, asked, available), available);
  }

  // ------------------------------------------------------------ main results

  predicate NormalForm(plan: seq<Step>, available: set<string>) {
    && 0 < |plan| <= MAX_STEPS
    && NoAnswers(plan[..|plan| - 1])
    && ArtifactsDiffer(plan)
    && AllWellRead(plan, available)
  }

  /** Whatever the planner replies, the plan is in normal form. */
  lemma EveryPlanIsNormal(reply: Option<seq<RawStep>>, asked: Option<string>, available: set<string>)
    ensures NormalForm(ParsePlan(reply, asked, available), available)
  {
    if reply.Some? {
      var steps := ReadSteps(reply.value, available);
      if steps != [] {
        RepairIsNormal(steps, asked, available);
      }
    }
  }

  lemma RepairIsNormal(steps: seq<Step>, asked: Option<string>, available: set<string>)
    requires AllWellRead(steps, available)
    ensures NormalForm(Repair(steps, asked, available), available)
  {
    RepairShape(steps, asked, available);
    PlannedProperties(steps, asked, available);
    AnswerIsAnswer(steps, available);
    AnswerAtEnd(Planned(steps, asked, available), AnswerOf(steps), available);
  }

  lemma AnswerAtEnd(planned: seq<Step>, answer: Step, available: set<string>)
    requires ArtifactsDiffer(planned) && NoAnswers(planned) && AllWellRead(planned, available)
    requires answer.intent == Synthesize && answer.tool == None
    ensures NormalForm(Cut(planned + [answer]), available)
  {
  }

  /** The plan keeps the planner's order: its actions are the first kept ones, and it answers last or not at all. */
  lemma PlanKeepsOrder(steps: seq<Step>, asked: Option<string>, available: set<string>)
    requires AllWellRead(steps, available)
    ensures var planned := Planned(steps, asked, available);
            && Subsequence(planned, Actions(steps) + Added(steps, asked, available))
            && Repair(steps, asked, available)
               == if |planned| < MAX_STEPS then planned + [AnswerOf(steps)] else planned[..MAX_STEPS]
    ensures var plan := Repair(steps, asked, available);
            plan != [] && (plan[|plan| - 1].intent == Synthesize <==> |Planned(steps, asked, available)| < MAX_STEPS)
  {
    var planned := Planned(steps, asked, available);
    RepairShape(steps, asked, available);
    PlannedProperties(steps, asked, available);
    AnswerIsAnswer(steps, available);
    if |planned| >= MAX_STEPS {
      assert (planned + [AnswerOf(steps)])[..MAX_STEPS] == planned[..MAX_STEPS];
    }
  }

  predicate Produces(plan: seq<Step>, tool: string) {
    exists i :: 0 <= i < |plan| && plan[i].intent == Tool && plan[i].tool == Some(tool)
  }

  /** The first step to name the tool only retrieves. */
  predicate RetrievesFirst(steps: seq<Step>, tool: string) {
    exists i :: 0 <= i < |steps| && steps[i].intent == Retrieve && steps[i].tool == Some(tool)
                && forall k :: 0 <= k < i ==> steps[k].tool != Some(tool)
  }

  lemma NamedAfterAll(steps: seq<Step>, wanted: string, available: set<string>)
    requires AllWellRead(steps, available) && wanted in available
    ensures Names(Actions(steps) + Added(steps, Some(wanted), available), wanted)
  {
    ActionsProperties(steps, available);
    SameNamesMeans(Actions(steps), steps, wanted);
    if !Names(steps, wanted) {
      NamesSnoc(Actions(steps), ArtifactStep(wanted), wanted);
    } else {
      assert Actions(steps) + [] == Actions(steps);
    }
  }

  lemma {:induction false} RetrievesFirstInActions(steps: seq<Step>, tool: string, available: set<string>)
    requires AllWellRead(steps, available)
    ensures RetrievesFirst(steps, tool) <==> RetrievesFirst(Actions(steps), tool)
  {
    if steps != [] {
      var init, last := steps[..|steps| - 1], steps[|steps| - 1];
      assert WellRead(last, available) && steps == init + [last];
      RetrievesFirstInActions(init, tool, available);
      ActionsProperties(init, available);
      SameNamesMeans(Actions(init), init, tool);
      RetrievesFirstSnoc(init, last, tool);
      RetrievesFirstSnoc(Actions(init), last, tool);
    }
  }

  lemma RetrievesFirstSnoc(steps: seq<Step>, s: Step, tool: string)
    ensures RetrievesFirst(steps + [s], tool)
            <==> RetrievesFirst(steps, tool) || (!Names(steps, tool) && s.intent == Retrieve && s.tool == Some(tool))
  {
    var all := steps + [s];
    if RetrievesFirst(all, tool) {
      var i :| 0 <= i < |all| && all[i].intent == Retrieve && all[i].tool == Some(tool)
               && forall k :: 0 <= k < i ==> all[k].tool != Some(tool);
      assert forall k :: 0 <= k < |steps| ==> all[k] == steps[k];
      if i < |steps| {
        assert steps[i].tool == Some(tool);
      }
    }
    if RetrievesFirst(steps, tool) {
      var i :| 0 <= i < |steps| && steps[i].intent == Retrieve && steps[i].tool == Some(tool)
               && forall k :: 0 <= k < i ==> steps[k].tool != Some(tool);
      assert all[i] == steps[i];
    }
    if !Names(steps, tool) && s.intent == Retrieve && s.tool == Some(tool) {
      assert all[|steps|] == s;
    }
  }

  /** The one step that collapsing leaves for a document tool is the first that named it. */
  lemma {:induction false} DedupKeepsFirst(steps: seq<Step>, tool: string, available: set<string>)
    requires NoAnswers(steps) && AllWellRead(steps, available) && "artifact." <= tool
    ensures Produces(Dedup(steps), tool) <==> Names(steps, tool) && !RetrievesFirst(steps, tool)
  {
    if steps != [] {
      var init, last := steps[..|steps| - 1], steps[|steps| - 1];
      DedupKeepsFirst(init, tool, available);
      assert steps == init + [last];
      NamesSnoc(init, last, tool);
      RetrievesFirstSnoc(init, last, tool);
      ProducesSnoc(Dedup(init), last, tool);
      RetrievesFirstNames(init, tool);
    }
  }

  lemma RetrievesFirstNames(steps: seq<Step>, tool: string)
    ensures RetrievesFirst(steps, tool) ==> Names(steps, tool)
  {
  }

  lemma ProducesSnoc(steps: seq<Step>, s: Step, tool: string)
    ensures Produces(steps + [s], tool) <==> Produces(steps, tool) || (s.intent == Tool && s.tool == Some(tool))
  {
    var all := steps + [s];
    if Produces(steps, tool) {
      var i :| 0 <= i < |steps| && steps[i].intent == Tool && steps[i].tool == Some(tool);
      assert all[i] == steps[i];
    }
    if s.intent == Tool && s.tool == Some(tool) {
      assert all[|steps|] == s;
    }
  }

  /**
   A plan of at most six actions produces the document asked for exactly when the first
   step the planner wrote for it, if there is one, is not a retrieve step.
   */
  lemma DocumentIsPlanned(steps: seq<Step>, wanted: string, available: set<string>)
    requires AllWellRead(steps, available) && wanted in available && "artifact." <= wanted
    requires |Planned(steps, Some(wanted), available)| <= MAX_STEPS
    ensures Produces(Repair(steps, Some(wanted), available), wanted) <==> !RetrievesFirst(steps, wanted)
  {
    var planned := Planned(steps, Some(wanted), available);
    PlanKeepsOrder(steps, Some(wanted), available);
    AnswerIsAnswer(steps, available);
    ProducesSnoc(planned, AnswerOf(steps), wanted);
    DocumentSurvives(steps, wanted, available);
    assert |planned| == MAX_STEPS ==> planned[..MAX_STEPS] == planned;
  }

  lemma DocumentSurvives(steps: seq<Step>, wanted: string, available: set<string>)
    requires AllWellRead(steps, available) && wanted in available && "artifact." <= wanted
    ensures Produces(Planned(steps, Some(wanted), available), wanted) <==> !RetrievesFirst(steps, wanted)
  {
    ActionsProperties(steps, available);
    DedupKeepsFirst(Actions(steps) + Added(steps, Some(wanted), available), wanted, available);
    NamedAfterAll(steps, wanted, available);
    RetrievesFirstInActions(steps, wanted, available);
    AddedNeverRetrieves(steps, wanted, available);
  }

  lemma AddedNeverRetrieves(steps: seq<Step>, wanted: string, available: set<string>)
    ensures RetrievesFirst(Actions(steps) + Added(steps, Some(wanted), available), wanted)
            <==> RetrievesFirst(Actions(steps), wanted)
  {
    if Added(steps, Some(wanted), available) == [] {
      assert Actions(steps) + [] == Actions(steps);
    } else {
      RetrievesFirstSnoc(Actions(steps), ArtifactStep(wanted), wanted);
    }
  }

  // ------------------------------------------------------------- repairing twice

  lemma {:induction false} NothingToCollapse(steps: seq<Step>)
    requires NoAnswers(steps) && ArtifactsDiffer(steps)
    ensures Actions(steps) == steps && Dedup(steps) == steps && Answers(steps) == []
  {
    if steps != [] {
      var init, last := steps[..|steps| - 1], steps[|steps| - 1];
      assert steps == init + [last];
      NothingToCollapse(init);
    }
  }

  lemma WholePlanAgain(steps: seq<Step>, asked: Option<string>, available: set<string>)
    requires AllWellRead(steps, available) && |Planned(steps, asked, available)| < MAX_STEPS
    ensures var plan := Repair(steps, asked, available);
            Repair(plan, asked, available) == plan
  {
    var planned, answer := Planned(steps, asked, available), AnswerOf(steps);
    PlanKeepsOrder(steps, asked, available);
    PlannedProperties(steps, asked, available);
    AnswerIsAnswer(steps, available);
    NothingToCollapse(planned);
    ActionsSnoc(planned, answer);
    NothingMissing(steps, asked, available);
    assert EnsureArtifact(planned + [answer], asked, available) == planned + [answer];
    assert Answers(planned + [answer]) == [answer];
  }

  lemma ActionsSnoc(steps: seq<Step>, answer: Step)
    requires answer.intent == Synthesize
    ensures Actions(steps + [answer]) == Actions(steps) && Answers(steps + [answer]) == Answers(steps) + [answer]
  {
    assert (steps + [answer])[..|steps|] == steps;
  }

  lemma NothingMissing(steps: seq<Step>, asked: Option<string>, available: set<string>)
    requires AllWellRead(steps, available)
    ensures Missing(Planned(steps, asked, available) + [AnswerOf(steps)], asked, available) == None
  {
    if asked.Some? && asked.value in available {
      NamedAfterAll(steps, asked.value, available);
      PlannedProperties(steps, asked, available);
      SameNamesMeans(Planned(steps, asked, available), Actions(steps) + Added(steps, asked, available), asked.value);
      NamesSnoc(Planned(steps, asked, available), AnswerOf(steps), asked.value);
    }
  }

  /** A plan cut to six actions: a step added for the document would be cut off again. */
  lemma CutPlanAgain(plan: seq<Step>, asked: Option<string>, available: set<string>)
    requires |plan| == MAX_STEPS && NoAnswers(plan) && ArtifactsDiffer(plan) && AllWellRead(plan, available)
    ensures Repair(plan, asked, available) == plan
  {
    NothingToCollapse(plan);
    RepairShape(plan, asked, available);
    var added := Added(plan, asked, available);
    if added == [] {
      assert plan + [] == plan;
    } else {
      assert (plan + added)[..|plan|] == plan;
    }
    assert plan <= Planned(plan, asked, available);
  }

  /** Repair is a normal form: repairing a repaired plan changes nothing. */
  lemma RepairIsIdempotent(steps: seq<Step>, asked: Option<string>, available: set<string>)
    requires AllWellRead(steps, available)
    ensures Repair(Repair(steps, asked, available), asked, available) == Repair(steps, asked, available)
  {
    var planned := Planned(steps, asked, available);
    PlanKeepsOrder(steps, asked, available);
    if |planned| < MAX_STEPS {
      WholePlanAgain(steps, asked, available);
    } else {
      PlannedProperties(steps, asked, available);
      CutPlanAgain(planned[..MAX_STEPS], asked, available);
    }
  }
}
