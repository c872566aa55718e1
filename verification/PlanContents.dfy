/** What a plan holds, in terms of the planner's reply alone: what each step is read as, and which steps are kept. */
module PlanContents {
  import opened Option
  import opened Text
  import opened PlanRepair

  // ------------------------------------------------------- one step of a reply

  /** The tool a step names, once blanks and the ways of writing nothing are set aside. */
  function ToolNamed(raw: RawStep): Option<string> {
    if Strip(raw.tool) in {"", "null", "none", "None"} then None else Some(Strip(raw.tool))
  }

  predicate IsSearch(raw: RawStep) {
    raw.intent == None || raw.intent == Some("retrieve")
  }

  /** A step that neither searches nor answers: it says so, or it names a tool. */
  predicate IsToolStep(raw: RawStep) {
    raw.intent == Some("tool") || (raw.intent == Some("synthesize") && ToolNamed(raw).Some?)
  }

  predicate IsAnswer(raw: RawStep) {
    raw.intent == Some("synthesize") && ToolNamed(raw).None?
  }

  /** A tool step whose tool the caller does not have. */
  predicate LacksTool(raw: RawStep, available: set<string>) {
    IsToolStep(raw) && !(ToolNamed(raw).Some? && ToolNamed(raw).value in available)
  }

  predicate Usable(raw: RawStep, available: set<string>) {
    IsSearch(raw) || IsAnswer(raw) || (IsToolStep(raw) && !LacksTool(raw, available))
  }

  /** `s` is what the reply's step stands for. */
  predicate StandsForStep(s: Step, raw: RawStep) {
    && s.tool == ToolNamed(raw)
    && (s.intent == Retrieve <==> IsSearch(raw))
    && (s.intent == Tool <==> IsToolStep(raw))
    && (s.intent == Synthesize <==> IsAnswer(raw))
    && (raw.id != "" ==> s.id == Given(raw.id))
  }

  /** A step is read for what it says, except that one naming a tool and not a search is a tool step. */
  lemma ReadAsMeant(raw: RawStep, index: nat, available: set<string>)
    ensures ReadStep(raw, index, available).Some? <==> Usable(raw, available)
    ensures Usable(raw, available) ==>
              var s := ReadStep(raw, index, available).value;
              StandsForStep(s, raw) && (raw.id == "" ==> s.id == Numbered(index))
  {
  }

  /** Some step of the reply is kept as `s`. */
  predicate IsKept(s: Step, raws: seq<RawStep>, available: set<string>) {
    exists i :: 0 <= i < |raws| && Usable(raws[i], available) && StandsForStep(s, raws[i])
  }

  lemma {:induction false} OnlyUsableKept(raws: seq<RawStep>, available: set<string>, s: Step)
    requires s in ReadSteps(raws, available)
    ensures IsKept(s, raws, available)
  {
    var init, last := raws[..|raws| - 1], raws[|raws| - 1];
    ReadAsMeant(last, |raws|, available);
    if s in ReadSteps(init, available) {
      OnlyUsableKept(init, available, s);
      var i :| 0 <= i < |init| && Usable(init[i], available) && StandsForStep(s, init[i]);
      assert raws[i] == init[i];
    } else {
      assert StandsForStep(s, last) && Usable(last, available);
    }
  }

  lemma {:induction false} EveryUsableKept(raws: seq<RawStep>, available: set<string>, i: nat) returns (s: Step)
    requires i < |raws| && Usable(raws[i], available)
    ensures s in ReadSteps(raws, available) && StandsForStep(s, raws[i])
  {
    var init := raws[..|raws| - 1];
    if i < |init| {
      s := EveryUsableKept(init, available, i);
    } else {
      LastIsKept(raws, available);
      s := ReadStep(raws[i], |raws|, available).value;
    }
  }

  /** What is read is what is usable: every usable step is there for what it says, and nothing else is. */
  lemma KeptSteps(raws: seq<RawStep>, available: set<string>)
    ensures forall s <- ReadSteps(raws, available) :: IsKept(s, raws, available)
    ensures forall i :: 0 <= i < |raws| && Usable(raws[i], available) ==>
              exists s <- ReadSteps(raws, available) :: StandsForStep(s, raws[i])
  {
    forall s | s in ReadSteps(raws, available)
      ensures IsKept(s, raws, available)
    {
      OnlyUsableKept(raws, available, s);
    }
    forall i | 0 <= i < |raws| && Usable(raws[i], available)
      ensures exists s <- ReadSteps(raws, available) :: StandsForStep(s, raws[i])
    {
      var s := EveryUsableKept(raws, available, i);
    }
  }

  lemma LastIsKept(raws: seq<RawStep>, available: set<string>)
    requires raws != [] && Usable(raws[|raws| - 1], available)
    ensures var s := ReadStep(raws[|raws| - 1], |raws|, available);
            s.Some? && s.value in ReadSteps(raws, available) && StandsForStep(s.value, raws[|raws| - 1])
  {
    ReadAsMeant(raws[|raws| - 1], |raws|, available);
    var s := ReadStep(raws[|raws| - 1], |raws|, available).value;
    assert ReadSteps(raws, available) == ReadSteps(raws[..|raws| - 1], available) + [s];
  }

  /** How many steps of the reply want a tool the caller does not have. */
  function Lacking(raws: seq<RawStep>, available: set<string>): nat {
    if raws == [] then 0
    else Lacking(raws[..|raws| - 1], available) + if LacksTool(raws[|raws| - 1], available) then 1 else 0
  }

  /** Those are the steps reported as dropped; a step of unknown intent goes unreported. */
  lemma {:induction false} DroppedAreLacking(raws: seq<RawStep>, available: set<string>)
    ensures DroppedCount(raws, available) == Lacking(raws, available)
  {
    if raws != [] {
      DroppedAreLacking(raws[..|raws| - 1], available);
      ReadAsMeant(raws[|raws| - 1], |raws|, available);
    }
  }

  // --------------------------------------------------------------- the plan

  /** A reply that cannot be used, or has no usable step, becomes a search and an answer. */
  lemma UnusableReplySearches(reply: Option<seq<RawStep>>, asked: Option<string>, available: set<string>)
    requires reply.Some? ==> forall i :: 0 <= i < |reply.value| ==> !Usable(reply.value[i], available)
    ensures ParsePlan(reply, asked, available)
         == [Step(Given("s1"), Retrieve, None), Step(Given("s2"), Synthesize, None)]
  {
    if reply.Some? && ReadSteps(reply.value, available) != [] {
      OnlyUsableKept(reply.value, available, ReadSteps(reply.value, available)[0]);
    }
  }

  /** Sorting actions from answers loses neither. */
  lemma {:induction false} ActionsAndAnswers(steps: seq<Step>)
    ensures multiset(Actions(steps)) + multiset(Answers(steps)) == multiset(steps)
    ensures Subsequence(Actions(steps), steps)
  {
    if steps != [] {
      var init, last := steps[..|steps| - 1], steps[|steps| - 1];
      ActionsAndAnswers(init);
      assert steps == init + [last];
      if last.intent != Synthesize {
        SubsequenceSnoc(Actions(init), init, last);
      }
    }
  }

  /** A document step after another for the same document. */
  predicate IsRepeat(steps: seq<Step>, i: nat)
    requires i < |steps|
  {
    && steps[i].tool.Some? && "artifact." <= steps[i].tool.value
    && exists k :: 0 <= k < i && steps[k].tool == steps[i].tool
  }

  lemma RepeatsBefore(steps: seq<Step>, last: Step, i: nat)
    requires i < |steps|
    ensures IsRepeat(steps + [last], i) <==> IsRepeat(steps, i)
  {
    assert forall k :: 0 <= k < |steps| ==> (steps + [last])[k] == steps[k];
  }

  /** Collapsing drops nothing but repeats. */
  lemma {:induction false} OnlyRepeatsGo(steps: seq<Step>)
    ensures forall i :: 0 <= i < |steps| && !IsRepeat(steps, i) ==> steps[i] in Dedup(steps)
    ensures Subsequence(Dedup(steps), steps)
  {
    if steps != [] {
      var init, last := steps[..|steps| - 1], steps[|steps| - 1];
      OnlyRepeatsGo(init);
      assert steps == init + [last];
      forall i | 0 <= i < |init| && !IsRepeat(steps, i)
        ensures steps[i] in Dedup(init)
      {
        RepeatsBefore(init, last, i);
      }
      if IsArtifact(last) && Names(init, last.tool.value) {
        var k :| 0 <= k < |init| && init[k].tool == Some(last.tool.value);
        assert steps[k].tool == steps[|init|].tool;
      } else {
        SubsequenceSnoc(Dedup(init), init, last);
      }
    }
  }

  /** The closing answer is the planner's last one, or the default. */
  lemma {:induction false} LastAnswerCloses(steps: seq<Step>)
    ensures if exists i :: 0 <= i < |steps| && steps[i].intent == Synthesize
            then exists i :: 0 <= i < |steps| && steps[i] == AnswerOf(steps) && steps[i].intent == Synthesize &&
                             forall k :: i < k < |steps| ==> steps[k].intent != Synthesize
            else AnswerOf(steps) == Step(Final, Synthesize, None)
  {
    if steps != [] {
      var init, last := steps[..|steps| - 1], steps[|steps| - 1];
      LastAnswerCloses(init);
      if last.intent == Synthesize {
        assert steps[|init|] == AnswerOf(steps);
      } else {
        assert AnswerOf(steps) == AnswerOf(init);
        if exists i :: 0 <= i < |init| && init[i].intent == Synthesize {
          var i :| 0 <= i < |init| && init[i] == AnswerOf(init) && init[i].intent == Synthesize &&
                   forall k :: i < k < |init| ==> init[k].intent != Synthesize;
          assert steps[i] == init[i];
          assert forall k :: i < k < |init| ==> steps[k] == init[k];
        }
      }
    }
  }

  lemma {:induction false} SubsequenceHolds(a: seq<Step>, b: seq<Step>, s: Step)
    requires Subsequence(a, b) && s in a
    ensures s in b
    decreases |b|
  {
    var init := b[..|b| - 1];
    if Subsequence(a, init) {
      SubsequenceHolds(a, init, s);
    } else if s != a[|a| - 1] {
      assert a == a[..|a| - 1] + [a[|a| - 1]];
      SubsequenceHolds(a[..|a| - 1], init, s);
    }
  }

  /** The document asked for was permitted and the reply named it nowhere. */
  predicate IsAddedStep(s: Step, steps: seq<Step>, asked: Option<string>, available: set<string>) {
    && s == Step(Artifact, Tool, asked) && asked.Some? && asked.value in available
    && forall i :: 0 <= i < |steps| ==> steps[i].tool != asked
  }

  /** Nothing is in a plan but the reply's steps, the document step that was missing, and an answer. */
  lemma PlanMakesNothingUp(steps: seq<Step>, asked: Option<string>, available: set<string>, s: Step)
    requires AllWellRead(steps, available) && s in Repair(steps, asked, available)
    ensures s in steps || IsAddedStep(s, steps, asked, available) || s == Step(Final, Synthesize, None)
  {
    var planned := Planned(steps, asked, available);
    var all := Actions(steps) + Added(steps, asked, available);
    PlanKeepsOrder(steps, asked, available);
    LastAnswerCloses(steps);
    if s in planned {
      SubsequenceHolds(planned, all, s);
      if s in Actions(steps) {
        ActionsAndAnswers(steps);
        SubsequenceHolds(Actions(steps), steps, s);
      } else {
        assert Missing(steps, asked, available) == asked && s == ArtifactStep(asked.value);
        assert forall i :: 0 <= i < |steps| ==> steps[i].tool != Some(asked.value);
      }
    } else {
      assert s == AnswerOf(steps);
    }
  }

  /**
   Every search and every tool step of the reply that is not a repeated document step is in
   the plan, if at most six actions are kept.
   */
  lemma PlanLeavesNothingOut(steps: seq<Step>, asked: Option<string>, available: set<string>, i: nat)
    requires AllWellRead(steps, available) && i < |steps| && steps[i].intent != Synthesize && !IsRepeat(steps, i)
    requires |Planned(steps, asked, available)| <= 6
    ensures steps[i] in Repair(steps, asked, available)
  {
    var planned := Planned(steps, asked, available);
    var all := Actions(steps) + Added(steps, asked, available);
    PlanKeepsOrder(steps, asked, available);
    var j := ActionAt(steps, i);
    assert all[j] == steps[i] && all[..j] == Actions(steps)[..j];
    OnlyRepeatsGo(all);
    NotRepeatedThere(all, j, steps, i);
    assert |planned| == 6 ==> planned[..6] == planned;
  }

  /** The first `j` steps of `a` are all among the first `i` of `b`. */
  predicate OnlyEarlier(a: seq<Step>, j: nat, b: seq<Step>, i: nat)
    requires j <= |a| && i <= |b|
  {
    forall k :: 0 <= k < j ==> a[k] in b[..i]
  }

  lemma NotRepeatedThere(a: seq<Step>, j: nat, b: seq<Step>, i: nat)
    requires j < |a| && i < |b| && a[j] == b[i] && OnlyEarlier(a, j, b, i) && !IsRepeat(b, i)
    ensures !IsRepeat(a, j)
  {
    if b[i].tool.Some? && "artifact." <= b[i].tool.value {
      forall k | 0 <= k < j
        ensures a[k].tool != a[j].tool
      {
        assert a[k] in b[..i];
        var m :| 0 <= m < i && b[..i][m] == a[k];
        assert b[m].tool != b[i].tool;
      }
    }
  }

  lemma {:induction false} ActionsPrefix(steps: seq<Step>, i: nat)
    requires i <= |steps|
    ensures Actions(steps[..i]) <= Actions(steps)
  {
    assert steps == steps[..i] + steps[i..];
    ActionsConcat(steps[..i], steps[i..]);
  }

  /** Where an action stands among the actions: nothing comes before it there that did not before. */
  lemma ActionAt(steps: seq<Step>, i: nat) returns (j: nat)
    requires i < |steps| && steps[i].intent != Synthesize
    ensures j < |Actions(steps)| && Actions(steps)[j] == steps[i] && OnlyEarlier(Actions(steps), j, steps, i)
  {
    var before := Actions(steps[..i]);
    j := |before|;
    assert steps[..i + 1][..i] == steps[..i];
    assert Actions(steps[..i + 1]) == before + [steps[i]];
    ActionsPrefix(steps, i + 1);
    forall k | 0 <= k < j
      ensures Actions(steps)[k] in steps[..i]
    {
      assert Actions(steps)[k] == before[k];
      ActionsAndAnswers(steps[..i]);
      SubsequenceHolds(before, steps[..i], before[k]);
    }
  }
}
