/** When a call can come back to a backend it has found dead, and does so without bound. */
module FailoverCycle {
  import opened Collections
  import opened Option
  import opened Failover

  // ----------------------------------------------------------- a ring of backends

  function Name(i: nat): (r: string)
    ensures |r| == i + 1
  {
    Repeat('a', i + 1)
  }

  function Members(n: nat): (r: seq<string>)
    ensures |r| == n && forall i :: 0 <= i < n ==> r[i] == Name(i)
  {
    seq(n, i requires 0 <= i < n => Name(i))
  }

  function NameSet(n: nat): (r: set<string>)
    ensures |r| == n && forall name <- r :: |name| <= n
    ensures forall name :: name in r <==> name in Members(n)
  {
    if n == 0 then {}
    else
      assert Members(n) == Members(n - 1) + [Name(n - 1)];
      NameSet(n - 1) + {Name(n - 1)}
  }

  /** `n` models in one lane, each on a backend of its own. */
  function Ring(n: nat): Registry {
    Registry(map name | name in NameSet(n) :: name, [LaneOf("reasoning", Members(n))], NameSet(n), None)
  }

  lemma {:induction false} OnlyAll(names: seq<string>, wanted: set<string>)
    requires forall name <- names :: name in wanted
    ensures Only(names, wanted) == names
  {
    if names != [] {
      assert names[0] in names && forall name <- names[1..] :: name in names;
      OnlyAll(names[1..], wanted);
    }
  }

  /** What the rest needs of such a registry. */
  predicate IsRing(reg: Registry, n: nat) {
    && (forall i :: 0 <= i < n ==> Name(i) in reg.models)
    && (forall name <- reg.models :: reg.models[name] == name)
    && (forall i :: 0 <= i < n ==> FirstLane(reg.lanes, Name(i)) == Some(Members(n)))
    && LaneCandidates(reg, Members(n)) == Members(n)
  }

  lemma RingLane(n: nat)
    ensures LaneCandidates(Ring(n), Members(n)) == Members(n)
  {
    assert Usable(Ring(n)) == NameSet(n);
    OnlyAll(Members(n), NameSet(n));
  }

  lemma RingMember(n: nat, i: nat)
    requires i < n
    ensures Name(i) in Ring(n).models && FirstLane(Ring(n).lanes, Name(i)) == Some(Members(n))
  {
    assert Members(n)[i] in Members(n);
  }

  lemma RingIsRing(n: nat)
    ensures IsRing(Ring(n), n)
  {
    RingLane(n);
    forall i | 0 <= i < n
      ensures Name(i) in Ring(n).models && FirstLane(Ring(n).lanes, Name(i)) == Some(Members(n))
    {
      RingMember(n, i);
    }
  }

  lemma UsableInRing(n: nat)
    ensures Usable(Ring(n)) == NameSet(n)
    ensures forall name <- NameSet(n) :: InSomeLane(Ring(n), name) && Ring(n).models[name] == name
  {
    assert Ring(n).lanes[0] in Ring(n).lanes;
  }

  lemma ReachableInRing(n: nat)
    requires n >= 1
    ensures |Reachable(Ring(n), Name(0))| == n
  {
    UsableInRing(n);
    RingMember(n, 0);
    assert Reachable(Ring(n), Name(0)) == NameSet(n);
  }

  // ------------------------------------------------------------------- the clock

  /** The longest pace at which the last backend is dead just when the first has cooled. */
  function Pace(n: nat): real
    requires n >= 2
  {
    COOLDOWN_S / (n - 1) as real
  }

  lemma PaceFills(n: nat)
    requires n >= 2
    ensures Steps(n - 1, Pace(n)) == COOLDOWN_S && Pace(n) > 0.0
  {
    StepsMultiply(n - 1, Pace(n));
    var m := (n - 1) as real;
    assert m * (COOLDOWN_S / m) == COOLDOWN_S;
  }

  lemma PaceIsLeast(n: nat, d: real)
    requires n >= 2 && (n - 1) as real * d >= COOLDOWN_S
    ensures Pace(n) <= d
  {
    Divided((n - 1) as real, COOLDOWN_S, d);
  }

  lemma Divided(m: real, total: real, d: real)
    requires m > 0.0 && m * d >= total
    ensures total / m <= d
  {
    assert m * (total / m) == total;
    assert m * (d - total / m) >= 0.0;
  }

  lemma {:induction false} StepsAdd(a: nat, b: nat, d: real)
    ensures Steps(a + b, d) == Steps(a, d) + Steps(b, d)
  {
    if b > 0 {
      StepsAdd(a, b - 1, d);
      assert a + b - 1 == a + (b - 1);
    }
  }

  /** `count` calls, each found unreachable one pace after the last; the first of them is call `k`. */
  function Failing(n: nat, k: nat, count: nat): (r: seq<Moment>)
    requires n >= 2
    ensures |r| == count
  {
    seq(count, i requires 0 <= i < count => Instant(Steps(k + 1 + i, Pace(n))))
  }

  function Instant(t: real): Moment {
    Moment(t, t)
  }

  lemma FailingNext(n: nat, k: nat, count: nat)
    requires n >= 2 && count > 0
    ensures Failing(n, k, count)[0] == Instant(Steps(k + 1, Pace(n)))
    ensures Failing(n, k, count)[1..] == Failing(n, k + 1, count - 1)
  {
  }

  lemma FailingAt(n: nat, count: nat, i: nat)
    requires n >= 2 && i < count
    ensures Failing(n, 0, count)[i] == Instant(Steps(i + 1, Pace(n)))
  {
    assert 0 + 1 + i == i + 1;
  }

  lemma FailingInTime(n: nat, count: nat)
    requires n >= 2
    ensures InTime(Failing(n, 0, count))
  {
    var script := Failing(n, 0, count);
    PaceFills(n);
    forall i | 0 <= i < count
      ensures script[i].seen <= script[i].noted
    {
      FailingAt(n, count, i);
    }
    forall i, j | 0 <= i < j < count
      ensures script[i].noted <= script[j].seen
    {
      FailingAt(n, count, i);
      FailingAt(n, count, j);
      MoreSteps(i + 1, j + 1, Pace(n));
    }
  }

  lemma FailingPaced(n: nat, count: nat, d: real)
    requires n >= 2 && Pace(n) <= d
    ensures Paced(Failing(n, 0, count), d)
  {
    var script := Failing(n, 0, count);
    forall i | 0 <= i && i + 1 < count
      ensures script[i + 1].noted - script[i].noted <= d
    {
      FailingAt(n, count, i);
      FailingAt(n, count, i + 1);
    }
  }

  // ---------------------------------------------------------------- one turn

  function Next(n: nat, p: nat): nat {
    if p + 1 == n then 0 else p + 1
  }

  /** How many calls ago the backend at `i` was last due, when the one at `p` is. */
  function Age(n: nat, p: nat, i: nat): nat
    requires p < n && i < n
  {
    if i <= p then p - i else p - i + n
  }

  /** When the backend at `i` was last taken out, if it has been called before call `k`. */
  function LastOut(n: nat, p: nat, k: nat, i: nat): Option<real>
    requires n >= 2 && p < n && i < n
  {
    if Age(n, p, i) <= k then Some(Steps(k + 1 - Age(n, p, i), Pace(n))) else None
  }

  /** At call `k`, when the backend at `p` is due, every other one was taken out in its turn. */
  predicate Turning(n: nat, b: Breakers, p: nat, k: nat)
    requires n >= 2
  {
    && p < n && p <= k
    && forall i :: 0 <= i < n && i != p ==> At(b, Name(i)).openedAt == LastOut(n, p, k, i)
  }

  /** A backend is out exactly if it has been called and is not the next one due. */
  lemma OutOrDue(n: nat, b: Breakers, p: nat, k: nat, i: nat)
    requires n >= 2 && Turning(n, b, p, k) && i < n && i != p
    ensures IsOpen(b, Name(i), Steps(k + 1, Pace(n))) <==> Age(n, p, i) <= k && Age(n, p, i) < n - 1
  {
    var age := Age(n, p, i);
    if age <= k {
      StepsAdd(k + 1 - age, age, Pace(n));
      PaceFills(n);
      if age < n - 1 {
        MoreSteps(age, n - 2, Pace(n));
      }
    }
  }

  lemma NamesDiffer(i: nat, j: nat)
    requires i != j
    ensures Name(i) != Name(j)
  {
    assert |Name(i)| != |Name(j)|;
  }

  /** Who the stand-in of the backend at `p` can be. */
  lemma FitInRing(reg: Registry, n: nat, b: Breakers, p: nat, k: nat, i: nat)
    requires n >= 2 && IsRing(reg, n) && Turning(n, b, p, k) && i < n
    ensures Fit(reg, b, Name(p), Name(i), Steps(k + 1, Pace(n)))
       <==> i != p && !(Age(n, p, i) <= k && Age(n, p, i) < n - 1)
  {
    if i != p {
      NamesDiffer(i, p);
      OutOrDue(n, b, p, k, i);
    }
  }

  lemma {:induction false} FirstFitIsTaken(reg: Registry, b: Breakers, failed: string, candidates: seq<string>,
                                           now: real, q: nat)
    requires failed in reg.models && (forall c <- candidates :: c in reg.models) && q < |candidates|
    requires Fit(reg, b, failed, candidates[q], now)
    requires forall i :: 0 <= i < q ==> !Fit(reg, b, failed, candidates[i], now)
    ensures Search(reg, b, failed, candidates, now) == Choice(Some(candidates[q]), Asked(b, candidates[q], now))
  {
    if q > 0 {
      assert !Fit(reg, b, failed, candidates[0], now);
      FirstFitIsTaken(reg, b, failed, candidates[1..], now, q - 1);
    }
  }

  lemma NextStandsIn(reg: Registry, n: nat, b: Breakers, p: nat, k: nat)
    requires n >= 2 && IsRing(reg, n) && Turning(n, b, p, k)
    ensures var q, now := Next(n, p), Steps(k + 1, Pace(n));
            StandInFor(reg, b, Name(p), now) == Choice(Some(Name(q)), Asked(b, Name(q), now))
  {
    var q, now := Next(n, p), Steps(k + 1, Pace(n));
    FitInRing(reg, n, b, p, k, q);
    CandidatesAreModels(reg, Members(n));
    forall i | 0 <= i < q
      ensures !Fit(reg, b, Name(p), Members(n)[i], now)
    {
      FitInRing(reg, n, b, p, k, i);
    }
    FirstFitIsTaken(reg, b, Name(p), Members(n), now, q);
  }

  lemma OneSibling(reg: Registry, n: nat, p: nat)
    requires IsRing(reg, n) && p < n
    ensures Siblings(reg, reg.models[Name(p)]) == {Name(p)}
  {
  }

  /** Only the model asked and the model tripped change. */
  lemma OthersStay(reg: Registry, n: nat, b: Breakers, p: nat, asked: string, now: real, name: string)
    requires IsRing(reg, n) && p < n && name != Name(p) && name != asked
    ensures At(TripAll(reg, Asked(b, asked, now), Name(p), now), name) == At(b, name)
  {
    OneSibling(reg, n, p);
  }

  lemma FailedIsOut(reg: Registry, n: nat, b: Breakers, p: nat, now: real)
    requires IsRing(reg, n) && p < n
    ensures At(TripAll(reg, b, Name(p), now), Name(p)).openedAt == Some(now)
  {
    OneSibling(reg, n, p);
  }

  lemma AgeNext(n: nat, p: nat, i: nat)
    requires p < n && i < n && i != Next(n, p)
    ensures Age(n, Next(n, p), i) == Age(n, p, i) + 1
  {
  }

  /** The breakers after the backend at `p` has failed at call `k`. */
  function AfterTurn(reg: Registry, n: nat, b: Breakers, p: nat, k: nat): Breakers
    requires n >= 2 && p < n && Name(p) in reg.models
  {
    var now := Steps(k + 1, Pace(n));
    TripAll(reg, Asked(b, Name(Next(n, p)), now), Name(p), now)
  }

  lemma LastOutNext(reg: Registry, n: nat, b: Breakers, p: nat, k: nat, i: nat)
    requires n >= 2 && IsRing(reg, n) && Turning(n, b, p, k) && i < n && i != Next(n, p)
    ensures At(AfterTurn(reg, n, b, p, k), Name(i)).openedAt == LastOut(n, Next(n, p), k + 1, i)
  {
    var q, now := Next(n, p), Steps(k + 1, Pace(n));
    AgeNext(n, p, i);
    if i == p {
      FailedIsOut(reg, n, Asked(b, Name(q), now), p, now);
    } else {
      NamesDiffer(i, p);
      NamesDiffer(i, q);
      OthersStay(reg, n, b, p, Name(q), now, Name(i));
    }
  }

  lemma TurnKeepsTurning(reg: Registry, n: nat, b: Breakers, p: nat, k: nat)
    requires n >= 2 && IsRing(reg, n) && Turning(n, b, p, k)
    ensures Turning(n, AfterTurn(reg, n, b, p, k), Next(n, p), k + 1)
  {
    forall i | 0 <= i < n && i != Next(n, p)
      ensures At(AfterTurn(reg, n, b, p, k), Name(i)).openedAt == LastOut(n, Next(n, p), k + 1, i)
    {
      LastOutNext(reg, n, b, p, k, i);
    }
  }

  /** One failing call: the next backend stands in, and the turn goes on. */
  lemma TurnOnce(reg: Registry, n: nat, b: Breakers, p: nat, k: nat)
    requires n >= 2 && IsRing(reg, n) && Turning(n, b, p, k)
    ensures AfterFailure(reg, b, Name(p), Instant(Steps(k + 1, Pace(n))))
            == Choice(Some(Name(Next(n, p))), AfterTurn(reg, n, b, p, k))
  {
    NextStandsIn(reg, n, b, p, k);
  }

  // ---------------------------------------------------------------- all turns

  /** The backends in turn, `count` of them from the one at `p` on. */
  function Round(n: nat, p: nat, count: nat): (r: seq<string>)
    ensures |r| == count
    decreases count
  {
    if count == 0 then [] else [Name(p)] + Round(n, Next(n, p), count - 1)
  }

  /** The calls from call `k` on go round the ring. */
  ghost predicate GoesRound(reg: Registry, n: nat, b: Breakers, p: nat, k: nat, count: nat)
    requires n >= 2 && Name(p) in reg.models
  {
    Visits(reg, b, Name(p), Failing(n, k, count)) == Round(n, p, count + 1)
  }

  lemma {:induction false} LastCall(reg: Registry, n: nat, b: Breakers, p: nat, k: nat)
    requires n >= 2 && Name(p) in reg.models
    ensures GoesRound(reg, n, b, p, k, 0)
  {
    assert Round(n, p, 1) == [Name(p)] + Round(n, Next(n, p), 0);
  }

  lemma {:induction false} OneCallMore(reg: Registry, n: nat, b: Breakers, p: nat, k: nat, count: nat)
    requires n >= 2 && IsRing(reg, n) && Turning(n, b, p, k)
    requires GoesRound(reg, n, AfterTurn(reg, n, b, p, k), Next(n, p), k + 1, count)
    ensures GoesRound(reg, n, b, p, k, count + 1)
  {
    FailingNext(n, k, count + 1);
    TurnOnce(reg, n, b, p, k);
    VisitsOn(reg, b, Name(p), Failing(n, k, count + 1), Name(Next(n, p)), AfterTurn(reg, n, b, p, k));
    assert Round(n, p, count + 2) == [Name(p)] + Round(n, Next(n, p), count + 1);
  }

  lemma {:induction false} TurnsForever(reg: Registry, n: nat, b: Breakers, p: nat, k: nat, count: nat)
    requires n >= 2 && IsRing(reg, n) && Turning(n, b, p, k)
    ensures GoesRound(reg, n, b, p, k, count)
    decreases count
  {
    if count == 0 {
      LastCall(reg, n, b, p, k);
    } else {
      TurnKeepsTurning(reg, n, b, p, k);
      TurnsForever(reg, n, AfterTurn(reg, n, b, p, k), Next(n, p), k + 1, count - 1);
      OneCallMore(reg, n, b, p, k, count - 1);
    }
  }

  lemma {:induction false} RoundReturns(n: nat, p: nat, count: nat)
    requires p < n && count > n - p
    ensures Round(n, p, count)[n - p] == Name(0)
    decreases n - p
  {
    if p + 1 == n {
      assert Round(n, p, count)[1] == Round(n, 0, count - 1)[0];
    } else {
      RoundReturns(n, p + 1, count - 1);
      assert Round(n, p, count)[n - p] == Round(n, p + 1, count - 1)[n - p - 1];
    }
  }

  lemma NothingCalledYet(n: nat)
    requires n >= 2
    ensures Turning(n, map[], 0, 0)
  {
  }

  lemma RingIsChain(n: nat, count: nat, d: real)
    requires n >= 2 && (n - 1) as real * d >= COOLDOWN_S
    ensures Chain(Ring(n), Name(0), Failing(n, 0, count), d) && |Reachable(Ring(n), Name(0))| == n
  {
    PaceIsLeast(n, d);
    FailingInTime(n, count);
    FailingPaced(n, count, d);
    RingIsRing(n);
    ReachableInRing(n);
  }

  lemma {:induction false} RingTurns(reg: Registry, n: nat, count: nat)
    requires n >= 2 && IsRing(reg, n)
    ensures |Visits(reg, map[], Name(0), Failing(n, 0, count))| == count + 1
    ensures count >= n ==> Visits(reg, map[], Name(0), Failing(n, 0, count))[n] == Name(0)
  {
    NothingCalledYet(n);
    TurnsForever(reg, n, map[], 0, 0, count);
    if count >= n {
      RoundReturns(n, 0, count + 1);
    }
  }

  /** However many calls fail, there is one more, and the first backend is called again after all the others. */
  lemma {:induction false} RingIsCalledForever(n: nat, count: nat, d: real)
    requires n >= 2 && (n - 1) as real * d >= COOLDOWN_S
    ensures Chain(Ring(n), Name(0), Failing(n, 0, count), d) && |Reachable(Ring(n), Name(0))| == n
    ensures |Visits(Ring(n), map[], Name(0), Failing(n, 0, count))| == count + 1
    ensures count >= n ==> Visits(Ring(n), map[], Name(0), Failing(n, 0, count))[n] == Name(0)
  {
    RingIsChain(n, count, d);
    RingIsRing(n);
    RingTurns(Ring(n), n, count);
  }

  /** With `n` providers in reach, and calls given up at most `d` apart, no call comes back to a provider. */
  ghost predicate NeverTwice(n: nat, d: real) {
    forall reg: Registry, b: Breakers, name: string, script: seq<Moment> ::
      Chain(reg, name, script, d) && |Reachable(reg, name)| == n ==> Distinct(reg, Visits(reg, b, name, script))
  }

  /**
   That each call is shorter than the cooldown is not enough: what decides is whether going
   once through the other providers is.
   */
  lemma CooldownDecides(n: nat, d: real)
    requires n >= 1
    ensures NeverTwice(n, d) <==> (n - 1) as real * d < COOLDOWN_S
  {
    if (n - 1) as real * d < COOLDOWN_S {
      forall reg: Registry, b: Breakers, name: string, script: seq<Moment>
        | Chain(reg, name, script, d) && |Reachable(reg, name)| == n
        ensures Distinct(reg, Visits(reg, b, name, script))
      {
        FailoverEnds(reg, b, name, script, d);
      }
    } else {
      SomeCallReturns(n, d);
    }
  }

  lemma SomeCallReturns(n: nat, d: real)
    requires n >= 1 && (n - 1) as real * d >= COOLDOWN_S
    ensures !NeverTwice(n, d)
  {
    RingIsCalledForever(n, n, d);
    var visited := Visits(Ring(n), map[], Name(0), Failing(n, 0, n));
    assert visited[0] == visited[n];
    assert !Distinct(Ring(n), visited);
  }
}
