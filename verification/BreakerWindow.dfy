/** When failures open a breaker whose window starts with a failure and does not slide. */
module BreakerWindow {
  import opened Option
  import opened Failover

  /** A failed call, or what makes the breaker forget: a success, or being asked after its cooldown. */
  datatype Report = Cleared | Failure(at: real)

  function AfterReports(reports: seq<Report>): BreakerState {
    if reports == [] then FRESH
    else
      match reports[|reports| - 1]
      case Cleared => FRESH
      case Failure(at) => Failed(AfterReports(reports[..|reports| - 1]), at)
  }

  /** When the failures since the breaker last forgot were. */
  function Streak(reports: seq<Report>): seq<real> {
    if reports == [] then []
    else
      match reports[|reports| - 1]
      case Cleared => []
      case Failure(at) => Streak(reports[..|reports| - 1]) + [at]
  }

  function AfterFailures(times: seq<real>): BreakerState {
    if times == [] then FRESH else Failed(AfterFailures(times[..|times| - 1]), times[|times| - 1])
  }

  lemma {:induction false} StreakDecides(reports: seq<Report>)
    ensures AfterReports(reports) == AfterFailures(Streak(reports))
  {
    if reports != [] && reports[|reports| - 1].Failure? {
      var init, at := reports[..|reports| - 1], reports[|reports| - 1].at;
      StreakDecides(init);
      assert (Streak(init) + [at])[..|Streak(init)|] == Streak(init);
    }
  }

  /** The class, told of one report after another, comes to that state, and tells no other model's apart. */
  method Tell(breaker: CircuitBreaker, name: string, reports: seq<Report>)
    requires At(breaker.states, name) == FRESH
    modifies breaker
    ensures At(breaker.states, name) == AfterReports(reports)
    ensures forall other | other != name :: At(breaker.states, other) == old(At(breaker.states, other))
  {
    for i := 0 to |reports|
      invariant At(breaker.states, name) == AfterReports(reports[..i])
      invariant forall other | other != name :: At(breaker.states, other) == old(At(breaker.states, other))
    {
      assert reports[..i + 1][..i] == reports[..i];
      match reports[i]
      case Cleared => breaker.RecordSuccess(name);
      case Failure(at) => breaker.RecordFailure(name, at);
    }
    assert reports[..|reports|] == reports;
  }

  // ------------------------------------------------------------------ windows

  /** The failure that starts the window failure `i` falls in. */
  function Start(times: seq<real>, i: nat): (s: nat)
    requires i < |times|
    ensures s <= i
  {
    if i == 0 then 0
    else
      var s := Start(times, i - 1);
      if times[i] - times[s] > WINDOW_S then i else s
  }

  /**
   What the windows are: each reaches at most a minute from the failure that starts it,
   and starts with the first failure beyond the one before.
   */
  lemma {:induction false} StartIsWindow(times: seq<real>, i: nat)
    requires i < |times|
    ensures var s := Start(times, i);
            && times[i] - times[s] <= WINDOW_S
            && (forall j :: s <= j <= i ==> Start(times, j) == s)
            && (s > 0 ==> times[s] - times[Start(times, s - 1)] > WINDOW_S)
  {
    if i > 0 && Start(times, i) != i {
      StartIsWindow(times, i - 1);
    }
  }

  /** The failure at `i` is the third of its window, or a later one. */
  predicate IsThird(times: seq<real>, i: nat)
    requires i < |times|
  {
    i - Start(times, i) >= FAILURE_THRESHOLD - 1
  }

  predicate HasThird(times: seq<real>) {
    exists i :: 0 <= i < |times| && IsThird(times, i)
  }

  lemma {:induction false} StartOfInit(times: seq<real>, last: real, i: nat)
    requires i < |times|
    ensures Start(times + [last], i) == Start(times, i)
  {
    if i > 0 {
      StartOfInit(times, last, i - 1);
    }
  }

  lemma HasThirdSnoc(times: seq<real>, last: real)
    ensures HasThird(times + [last]) <==> HasThird(times) || IsThird(times + [last], |times|)
  {
    forall i | 0 <= i < |times|
      ensures IsThird(times + [last], i) == IsThird(times, i)
    {
      StartOfInit(times, last, i);
    }
  }

  /** What is counted after some failures: those of the last window. */
  predicate Counts(times: seq<real>, s: BreakerState) {
    && (times == [] ==> s.failures == 0)
    && (times != [] ==>
          var start := Start(times, |times| - 1);
          s.failures == |times| - start && s.firstFailureAt == times[start])
  }

  lemma StepCounts(times: seq<real>, s: BreakerState, at: real)
    requires Counts(times, s)
    ensures Counts(times + [at], Failed(s, at))
    ensures Failed(s, at).openedAt.Some? <==> s.openedAt.Some? || IsThird(times + [at], |times|)
  {
    if times != [] {
      StartOfInit(times, at, |times| - 1);
    }
  }

  lemma {:induction false} FailuresCount(times: seq<real>)
    ensures Counts(times, AfterFailures(times))
    ensures AfterFailures(times).openedAt.Some? <==> HasThird(times)
  {
    if times != [] {
      var init, at := times[..|times| - 1], times[|times| - 1];
      assert times == init + [at];
      FailuresCount(init);
      StepCounts(init, AfterFailures(init), at);
      HasThirdSnoc(init, at);
    }
  }

  /** The breaker opens if and only if some window since it last forgot has a third failure. */
  lemma OpensAtThird(reports: seq<Report>)
    ensures AfterReports(reports).openedAt.Some? <==> HasThird(Streak(reports))
  {
    StreakDecides(reports);
    FailuresCount(Streak(reports));
  }

  // --------------------------------------------------- three are too few, four enough

  predicate Rising(times: seq<real>) {
    forall i, j :: 0 <= i < j < |times| ==> times[i] <= times[j]
  }

  /** `count` failures in a row end at `i` and lie within the length of a window. */
  predicate Burst(times: seq<real>, i: nat, count: nat)
    requires i < |times|
  {
    count >= 1 && i + 1 >= count && times[i] - times[i + 1 - count] <= 60.0
  }

  /** No breaker opens without three failures within a minute. */
  lemma ThirdIsBurst(times: seq<real>, i: nat)
    requires Rising(times) && i < |times| && IsThird(times, i)
    ensures Burst(times, i, 3)
  {
    StartIsWindow(times, i);
    assert times[Start(times, i)] <= times[i - 2];
  }

  /** Four within a minute always open it, wherever the windows fall. */
  lemma FourOpen(times: seq<real>, i: nat)
    requires Rising(times) && i < |times| && Burst(times, i, 4)
    ensures HasThird(times)
  {
    var s := Start(times, i - 3);
    if Start(times, i - 2) == i - 2 {
      assert times[i - 3] <= times[i - 2] <= times[i - 1];
      assert Start(times, i - 1) == i - 2 && Start(times, i) == i - 2;
      assert IsThird(times, i);
    } else if s < i - 3 {
      assert IsThird(times, i - 2);
    } else {
      assert times[i - 1] <= times[i];
      assert IsThird(times, i - 1);
    }
  }

  /** Three are not enough: these fall into two windows, though three come within three seconds. */
  lemma ThreeMayNotOpen()
    ensures var times := [0.0, 59.0, 61.0, 62.0];
            && Rising(times) && Burst(times, 3, 3)
            && AfterReports([Failure(0.0), Failure(59.0), Failure(61.0), Failure(62.0)]).openedAt == None
  {
    var reports := [Failure(0.0), Failure(59.0), Failure(61.0), Failure(62.0)];
    assert reports[..3][..2][..1][..0] == [];
    assert AfterReports(reports[..3][..2][..1]) == BreakerState(1, None, 0.0);
    assert AfterReports(reports[..3][..2]) == BreakerState(2, None, 0.0);
    assert AfterReports(reports[..3]) == BreakerState(1, None, 61.0);
  }
}
