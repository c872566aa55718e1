/** Provider failover: the circuit breaker, the choice of a stand-in, and the call moving from backend to backend. */
module Failover {
  import opened Collections
  import opened Option

  // Clock readings are parameters; one reading serves each search for a stand-in, and one each
  // round of trips.

  datatype BreakerState = BreakerState(failures: nat, openedAt: Option<real>, firstFailureAt: real)

  const FRESH := BreakerState(0, None, 0.0)
  const FAILURE_THRESHOLD: nat := 3
  const WINDOW_S := 60.0
  const COOLDOWN_S := 120.0

  type Breakers = map<string, BreakerState>

  function At(b: Breakers, name: string): BreakerState {
    if name in b then b[name] else FRESH
  }

  predicate Cooled(s: BreakerState, now: real) {
    s.openedAt.Some? && now - s.openedAt.value >= COOLDOWN_S
  }

  predicate IsOpen(b: Breakers, name: string, now: real) {
    At(b, name).openedAt.Some? && !Cooled(At(b, name), now)
  }

  /** Asking closes a breaker whose cooldown has passed. */
  function Asked(b: Breakers, name: string, now: real): Breakers {
    if Cooled(At(b, name), now) then b[name := FRESH] else b
  }

  function Failed(s: BreakerState, now: real): BreakerState {
    var counted := if s.failures == 0 || now - s.firstFailureAt > WINDOW_S
                   then s.(failures := 1, firstFailureAt := now) else s.(failures := s.failures + 1);
    if counted.failures >= FAILURE_THRESHOLD then counted.(openedAt := Some(now)) else counted
  }

  function Tripped(s: BreakerState, now: real): BreakerState {
    BreakerState(if s.failures < FAILURE_THRESHOLD then FAILURE_THRESHOLD else s.failures, Some(now), now)
  }

  class CircuitBreaker {
    var states: Breakers

    constructor ()
      ensures states == map[]
    {
      states := map[];
    }

    method Ask(name: string, now: real) returns (open: bool)
      modifies this
      ensures open == IsOpen(old(states), name, now) && states == Asked(old(states), name, now)
      ensures open <==> name in old(states) && old(states)[name].openedAt.Some? &&
                        now - old(states)[name].openedAt.value < 120.0
      ensures open ==> states == old(states)
      ensures !open && name in old(states) && old(states)[name].openedAt.Some? ==>
                name in states && states[name].openedAt == None && states[name].failures == 0
      ensures name !in old(states) || old(states)[name].openedAt.None? ==> states == old(states)
    {
      var state := At(states, name);
      if state.openedAt.None? {
        return false;
      }
      if now - state.openedAt.value >= COOLDOWN_S {
        states := states[name := FRESH];
        return false;
      }
      return true;
    }

    method RecordSuccess(name: string)
      modifies this
      ensures states == old(states)[name := FRESH]
    {
      states := states[name := FRESH];
    }

    method RecordFailure(name: string, now: real)
      modifies this
      ensures states == old(states)[name := Failed(At(old(states), name), now)]
      ensures states[name].failures >= 3 ==> states[name].openedAt == Some(now)
      ensures states[name].failures < 3 ==> states[name].openedAt == At(old(states), name).openedAt
    {
      var state := At(states, name);
      if state.failures == 0 || now - state.firstFailureAt > WINDOW_S {
        state := state.(failures := 1, firstFailureAt := now);
      } else {
        state := state.(failures := state.failures + 1);
      }
      if state.failures >= FAILURE_THRESHOLD {
        state := state.(openedAt := Some(now));
      }
      states := states[name := state];
    }

    method Trip(name: string, now: real)
      modifies this
      ensures states == old(states)[name := Tripped(At(old(states), name), now)]
      ensures states[name].openedAt == Some(now) && states[name].firstFailureAt == now
      ensures states[name].failures == if At(old(states), name).failures < 3 then 3 else At(old(states), name).failures
    {
      var state := At(states, name);
      var failures := if state.failures < FAILURE_THRESHOLD then FAILURE_THRESHOLD else state.failures;
      states := states[name := BreakerState(failures, Some(now), now)];
    }
  }

  // ---------------------------------------------------------------- registry

  datatype LaneOf = LaneOf(name: string, members: seq<string>)

  /** `models` gives each model's provider; `lanes` are in the manifest's order. */
  datatype Registry = Registry(
    models: map<string, string>,
    lanes: seq<LaneOf>,
    providers: set<string>,
    available: Option<set<string>>)

  function Only(names: seq<string>, wanted: set<string>): seq<string> {
    if names == [] then []
    else (if names[0] in wanted then [names[0]] else []) + Only(names[1..], wanted)
  }

  function Usable(reg: Registry): set<string> {
    set name | name in reg.models && reg.models[name] in reg.providers
  }

  function LaneCandidates(reg: Registry, members: seq<string>): seq<string> {
    var candidates := Only(members, Usable(reg));
    match reg.available
    case None => candidates
    case Some(available) =>
      var present := Only(candidates, available);
      if present == [] then candidates else present
  }

  /** The first lane that lists a model. */
  function FirstLane(lanes: seq<LaneOf>, name: string): Option<seq<string>> {
    if lanes == [] then None
    else if name in lanes[0].members then Some(lanes[0].members)
    else FirstLane(lanes[1..], name)
  }

  // ------------------------------------------------------ choosing a stand-in

  /** A candidate on another backend whose breaker is not open. */
  predicate Fit(reg: Registry, b: Breakers, failed: string, name: string, now: real)
    requires failed in reg.models && name in reg.models
  {
    name != failed && reg.models[name] != reg.models[failed] && !IsOpen(b, name, now)
  }

  datatype Choice = Choice(standIn: Option<string>, breakers: Breakers)

  function Search(reg: Registry, b: Breakers, failed: string, candidates: seq<string>, now: real): Choice
    requires failed in reg.models && forall c <- candidates :: c in reg.models
  {
    if candidates == [] then Choice(None, b)
    else
      var name := candidates[0];
      if name == failed || reg.models[name] == reg.models[failed] then Search(reg, b, failed, candidates[1..], now)
      else if IsOpen(b, name, now) then Search(reg, b, failed, candidates[1..], now)
      else Choice(Some(name), Asked(b, name, now))
  }

  lemma {:induction false} OnlyKeeps(names: seq<string>, wanted: set<string>)
    ensures forall c <- Only(names, wanted) :: c in wanted && c in names
  {
    if names != [] {
      OnlyKeeps(names[1..], wanted);
    }
  }

  lemma CandidatesAreModels(reg: Registry, members: seq<string>)
    ensures forall c <- LaneCandidates(reg, members) :: c in reg.models && c in members && c in Usable(reg)
  {
    OnlyKeeps(members, Usable(reg));
    if reg.available.Some? {
      OnlyKeeps(Only(members, Usable(reg)), reg.available.value);
    }
  }

  function StandInFor(reg: Registry, b: Breakers, failed: string, now: real): Choice
    requires failed in reg.models
  {
    match FirstLane(reg.lanes, failed)
    case None => Choice(None, b)
    case Some(members) =>
      CandidatesAreModels(reg, members);
      Search(reg, b, failed, LaneCandidates(reg, members), now)
  }

  /** The stand-in is the first fit candidate; there is none only when no candidate is fit. */
  lemma {:induction false} SearchFindsFirst(reg: Registry, b: Breakers, failed: string, candidates: seq<string>,
                                            now: real)
    requires failed in reg.models && forall c <- candidates :: c in reg.models
    ensures var r := Search(reg, b, failed, candidates, now);
            match r.standIn
            case None => r.breakers == b && forall c <- candidates :: !Fit(reg, b, failed, c, now)
            case Some(m) =>
              && r.breakers == Asked(b, m, now)
              && exists k :: 0 <= k < |candidates| && candidates[k] == m && Fit(reg, b, failed, m, now)
                             && forall i :: 0 <= i < k ==> !Fit(reg, b, failed, candidates[i], now)
  {
    if candidates != [] && !Fit(reg, b, failed, candidates[0], now) {
      SearchFindsFirst(reg, b, failed, candidates[1..], now);
      var r := Search(reg, b, failed, candidates[1..], now);
      if r.standIn.Some? {
        var k :| 0 <= k < |candidates[1..]| && candidates[1..][k] == r.standIn.value
                 && forall i :: 0 <= i < k ==> !Fit(reg, b, failed, candidates[1..][i], now);
        assert candidates[k + 1] == r.standIn.value;
        assert forall i :: 0 < i < k + 1 ==> candidates[i] == candidates[1..][i - 1];
      }
    }
  }

  function Siblings(reg: Registry, provider: string): set<string> {
    set name | name in reg.models && reg.models[name] == provider
  }

  function TripSet(b: Breakers, names: set<string>, now: real): Breakers {
    b + map name | name in names :: Tripped(At(b, name), now)
  }

  lemma TripOneMore(b: Breakers, names: set<string>, name: string, now: real)
    requires name !in names
    ensures TripSet(b, names, now)[name := Tripped(At(b, name), now)] == TripSet(b, names + {name}, now)
    ensures At(TripSet(b, names, now), name) == At(b, name)
  {
  }

  /** Every model of the failed model's provider is tripped. */
  function TripAll(reg: Registry, b: Breakers, failed: string, now: real): Breakers
    requires failed in reg.models
  {
    TripSet(b, Siblings(reg, reg.models[failed]), now)
  }

  class Router {
    const registry: Registry
    const breaker: CircuitBreaker

    constructor (registry: Registry, breaker: CircuitBreaker)
      ensures this.registry == registry && this.breaker == breaker
    {
      this.registry, this.breaker := registry, breaker;
    }

    /** Takes every model of the failed model's backend out of routing. */
    method NoteUnreachable(name: string, now: real)
      requires name in registry.models
      modifies breaker
      ensures breaker.states == TripAll(registry, old(breaker.states), name, now)
      ensures forall n <- registry.models :: registry.models[n] == registry.models[name] ==>
                n in breaker.states && breaker.states[n].openedAt == Some(now) && breaker.states[n].failures >= 3
      ensures forall n <- breaker.states :: n !in registry.models || registry.models[n] != registry.models[name] ==>
                n in old(breaker.states) && breaker.states[n] == old(breaker.states)[n]
    {
      var siblings := Siblings(registry, registry.models[name]);
      ghost var before := breaker.states;
      ghost var done: set<string> := {};
      while siblings != {}
        invariant done !! siblings && done + siblings == Siblings(registry, registry.models[name])
        invariant breaker.states == TripSet(before, done, now)
        decreases |siblings|
      {
        var n :| n in siblings;
        TripOneMore(before, done, n, now);
        breaker.Trip(n, now);
        siblings := siblings - {n};
        done := done + {n};
      }
    }

    /** Another model in the same lane, on a backend that is still up. */
    method FindStandIn(name: string, now: real) returns (standIn: Option<string>)
      requires name in registry.models
      modifies breaker
      ensures Choice(standIn, breaker.states) == StandInFor(registry, old(breaker.states), name, now)
    {
      var lane := FirstLane(registry.lanes, name);
      if lane.None? {
        return None;
      }
      var candidates := LaneCandidates(registry, lane.value);
      CandidatesAreModels(registry, lane.value);
      ghost var before := breaker.states;
      for i := 0 to |candidates|
        invariant breaker.states == before
        invariant Search(registry, before, name, candidates, now)
                  == Search(registry, before, name, candidates[i..], now)
      {
        var candidate := candidates[i];
        assert candidates[i..][0] == candidate && candidates[i..][1..] == candidates[i + 1..];
        if candidate == name || registry.models[candidate] == registry.models[name] {
          continue;
        }
        var open := breaker.Ask(candidate, now);
        if open {
          continue;
        }
        return Some(candidate);
      }
      return None;
    }
  }

  // --------------------------------------------------------------- the chain

  /** When a call was found unreachable, and when its backend was taken out. */
  datatype Moment = Moment(seen: real, noted: real)

  predicate InTime(script: seq<Moment>) {
    && (forall i :: 0 <= i < |script| ==> script[i].seen <= script[i].noted)
    && (forall i, j :: 0 <= i < j < |script| ==> script[i].noted <= script[j].seen)
  }

  function AfterFailure(reg: Registry, b: Breakers, name: string, at: Moment): Choice
    requires name in reg.models
  {
    var choice := StandInFor(reg, b, name, at.seen);
    Choice(choice.standIn, TripAll(reg, choice.breakers, name, at.noted))
  }

  lemma StandInIsModel(reg: Registry, b: Breakers, name: string, now: real)
    requires name in reg.models
    ensures var r := StandInFor(reg, b, name, now);
            r.standIn.Some? ==> r.standIn.value in reg.models && reg.models[r.standIn.value] != reg.models[name]
                                && !IsOpen(b, r.standIn.value, now) && r.breakers == Asked(b, r.standIn.value, now)
    ensures StandInFor(reg, b, name, now).standIn.None? ==> StandInFor(reg, b, name, now).breakers == b
  {
    var lane := FirstLane(reg.lanes, name);
    if lane.Some? {
      CandidatesAreModels(reg, lane.value);
      SearchFindsFirst(reg, b, name, LaneCandidates(reg, lane.value), now);
    }
  }

  /**
   The models one call goes through, when each is unreachable at the moments of `script`
   and the call after the last of them is answered.
   */
  function Visits(reg: Registry, b: Breakers, name: string, script: seq<Moment>): (r: seq<string>)
    requires name in reg.models
    ensures r != [] && r[0] == name && |r| <= |script| + 1
    decreases |script|
  {
    if script == [] then [name]
    else
      var next := AfterFailure(reg, b, name, script[0]);
      StandInIsModel(reg, b, name, script[0].seen);
      if next.standIn.None? then [name]
      else [name] + Visits(reg, next.breakers, next.standIn.value, script[1..])
  }

  /** One model call, with its stand-ins: recursive, as the agent runner makes it. */
  method Generate(router: Router, name: string, script: seq<Moment>) returns (visited: seq<string>)
    requires name in router.registry.models
    modifies router.breaker
    ensures visited == Visits(router.registry, old(router.breaker.states), name, script)
    decreases |script|
  {
    if script == [] {
      return [name];
    }
    StandInIsModel(router.registry, router.breaker.states, name, script[0].seen);
    var standIn := router.FindStandIn(name, script[0].seen);
    router.NoteUnreachable(name, script[0].noted);
    if standIn.None? {
      return [name];
    }
    var rest := Generate(router, standIn.value, script[1..]);
    visited := [name] + rest;
  }

  /** Since `since`, every model of the provider has been held open. */
  predicate Cooling(reg: Registry, b: Breakers, provider: string, since: real) {
    forall name <- reg.models :: reg.models[name] == provider ==>
      At(b, name).openedAt.Some? && At(b, name).openedAt.value >= since
  }

  lemma TripStartsCooling(reg: Registry, b: Breakers, failed: string, now: real)
    requires failed in reg.models
    ensures Cooling(reg, TripAll(reg, b, failed, now), reg.models[failed], now)
  {
  }

  lemma TripKeepsCooling(reg: Registry, b: Breakers, failed: string, now: real, provider: string, since: real)
    requires failed in reg.models && Cooling(reg, b, provider, since) && since <= now
    ensures Cooling(reg, TripAll(reg, b, failed, now), provider, since)
  {
  }

  /** While it cools, a provider is not chosen, and asking does not close its breakers. */
  lemma NotChosenWhileCooling(reg: Registry, b: Breakers, failed: string, at: Moment, provider: string, since: real)
    requires failed in reg.models && Cooling(reg, b, provider, since)
    requires since <= at.seen <= at.noted && at.seen - since < COOLDOWN_S
    ensures var next := AfterFailure(reg, b, failed, at);
            && Cooling(reg, next.breakers, provider, since)
            && (next.standIn.Some? ==> next.standIn.value in reg.models && reg.models[next.standIn.value] != provider)
  {
    var choice := StandInFor(reg, b, failed, at.seen);
    StandInIsModel(reg, b, failed, at.seen);
    assert Cooling(reg, choice.breakers, provider, since);
    TripKeepsCooling(reg, choice.breakers, failed, at.noted, provider, since);
  }

  function ProviderOf(reg: Registry, name: string): string {
    if name in reg.models then reg.models[name] else ""
  }

  lemma TailInTime(script: seq<Moment>)
    requires script != [] && InTime(script)
    ensures InTime(script[1..])
  {
  }

  lemma {:induction false} CoolingIsAvoided(
    reg: Registry, b: Breakers, name: string, script: seq<Moment>, provider: string, since: real, j: nat)
    requires name in reg.models && InTime(script) && Cooling(reg, b, provider, since)
    requires script != [] ==> since <= script[0].seen
    requires 0 < j < |Visits(reg, b, name, script)| && script[j - 1].seen - since < COOLDOWN_S
    ensures ProviderOf(reg, Visits(reg, b, name, script)[j]) != provider
    decreases |script|
  {
    var next := AfterFailure(reg, b, name, script[0]);
    assert script[0].seen <= script[j - 1].seen;
    NotChosenWhileCooling(reg, b, name, script[0], provider, since);
    StandInIsModel(reg, b, name, script[0].seen);
    if j > 1 {
      TailInTime(script);
      assert script[1..][j - 2] == script[j - 1];
      CoolingIsAvoided(reg, next.breakers, next.standIn.value, script[1..], provider, since, j - 1);
    }
  }

  lemma VisitsOn(reg: Registry, b: Breakers, name: string, script: seq<Moment>, standIn: string, after: Breakers)
    requires name in reg.models && standIn in reg.models && script != []
    requires AfterFailure(reg, b, name, script[0]) == Choice(Some(standIn), after)
    ensures Visits(reg, b, name, script) == [name] + Visits(reg, after, standIn, script[1..])
  {
  }

  /** After the first, the visits are those of the stand-in. */
  lemma VisitsNext(reg: Registry, b: Breakers, name: string, script: seq<Moment>)
    requires name in reg.models && |Visits(reg, b, name, script)| > 1
    ensures script != []
    ensures var next := AfterFailure(reg, b, name, script[0]);
            && next.standIn.Some? && next.standIn.value in reg.models
            && Visits(reg, b, name, script) == [name] + Visits(reg, next.breakers, next.standIn.value, script[1..])
  {
    StandInIsModel(reg, b, name, script[0].seen);
  }

  /** If visits `i` and `j` are to one provider, a whole cooldown lies between them. */
  predicate CooledBetween(reg: Registry, visited: seq<string>, script: seq<Moment>, i: nat, j: nat)
    requires i < j < |visited| && j <= |script|
  {
    ProviderOf(reg, visited[i]) == ProviderOf(reg, visited[j]) ==> script[j - 1].seen - script[i].noted >= COOLDOWN_S
  }

  lemma CooledLater(reg: Registry, name: string, visited: seq<string>, script: seq<Moment>, i: nat, j: nat)
    requires 1 <= i < j <= |visited| && j <= |script|
    requires CooledBetween(reg, visited, script[1..], i - 1, j - 1)
    ensures CooledBetween(reg, [name] + visited, script, i, j)
  {
    assert script[1..][i - 1] == script[i] && script[1..][j - 2] == script[j - 1];
  }

  /**
   Unconditionally: a provider found unreachable is not called again until its cooldown has
   passed.
   */
  lemma {:induction false} NotRetriedBeforeCooldown(
    reg: Registry, b: Breakers, name: string, script: seq<Moment>, i: nat, j: nat)
    requires name in reg.models && InTime(script) && i < j < |Visits(reg, b, name, script)|
    ensures CooledBetween(reg, Visits(reg, b, name, script), script, i, j)
    decreases |script|
  {
    VisitsNext(reg, b, name, script);
    if i > 0 {
      var next := AfterFailure(reg, b, name, script[0]);
      TailInTime(script);
      NotRetriedBeforeCooldown(reg, next.breakers, next.standIn.value, script[1..], i - 1, j - 1);
      CooledLater(reg, name, Visits(reg, next.breakers, next.standIn.value, script[1..]), script, i, j);
    } else if script[j - 1].seen - script[0].noted < COOLDOWN_S {
      FirstIsAvoided(reg, b, name, script, j);
    }
  }

  /** The stand-in is on another provider, and those after it come while the first one cools. */
  lemma {:induction false} FirstIsAvoided(reg: Registry, b: Breakers, name: string, script: seq<Moment>, j: nat)
    requires name in reg.models && InTime(script) && 1 <= j < |Visits(reg, b, name, script)|
    requires script[j - 1].seen - script[0].noted < COOLDOWN_S
    ensures ProviderOf(reg, Visits(reg, b, name, script)[j]) != ProviderOf(reg, name)
  {
    var choice := StandInFor(reg, b, name, script[0].seen);
    var next := AfterFailure(reg, b, name, script[0]);
    StandInIsModel(reg, b, name, script[0].seen);
    VisitsNext(reg, b, name, script);
    if j > 1 {
      TailInTime(script);
      TripStartsCooling(reg, choice.breakers, name, script[0].noted);
      assert script[1..][j - 2] == script[j - 1];
      CoolingIsAvoided(reg, next.breakers, next.standIn.value, script[1..], reg.models[name], script[0].noted, j - 1);
    }
  }

  // ----------------------------------------------------- how long a chain is

  predicate InSomeLane(reg: Registry, name: string) {
    exists lane <- reg.lanes :: name in lane.members
  }

  /** The providers a call can turn to: its own, and those of the usable models some lane lists. */
  function Reachable(reg: Registry, name: string): set<string> {
    {ProviderOf(reg, name)} + set m | m in Usable(reg) && InSomeLane(reg, m) :: reg.models[m]
  }

  lemma {:induction false} FirstLaneIsListed(lanes: seq<LaneOf>, name: string)
    ensures var lane := FirstLane(lanes, name);
            lane.Some? ==> exists l <- lanes :: l.members == lane.value
  {
    if lanes != [] {
      if name in lanes[0].members {
        assert lanes[0] in lanes;
      } else {
        FirstLaneIsListed(lanes[1..], name);
      }
    }
  }

  lemma StandInIsReachable(reg: Registry, b: Breakers, name: string, now: real)
    requires name in reg.models
    ensures var r := StandInFor(reg, b, name, now);
            r.standIn.Some? ==> r.standIn.value in Usable(reg) && InSomeLane(reg, r.standIn.value)
  {
    var lane := FirstLane(reg.lanes, name);
    if lane.Some? {
      var candidates := LaneCandidates(reg, lane.value);
      CandidatesAreModels(reg, lane.value);
      SearchFindsFirst(reg, b, name, candidates, now);
      FirstLaneIsListed(reg.lanes, name);
      var r := StandInFor(reg, b, name, now);
      assert r.standIn.Some? ==> r.standIn.value in candidates;
    }
  }

  lemma ReachableShrinks(reg: Registry, name: string, next: string)
    requires next in Usable(reg) && InSomeLane(reg, next)
    ensures Reachable(reg, next) <= Reachable(reg, name)
  {
  }

  lemma {:induction false} VisitsAreReachable(reg: Registry, b: Breakers, name: string, script: seq<Moment>)
    requires name in reg.models
    ensures forall v <- Visits(reg, b, name, script) :: ProviderOf(reg, v) in Reachable(reg, name)
    decreases |script|
  {
    if script != [] {
      var next := AfterFailure(reg, b, name, script[0]);
      StandInIsModel(reg, b, name, script[0].seen);
      StandInIsReachable(reg, b, name, script[0].seen);
      if next.standIn.Some? {
        VisitsAreReachable(reg, next.breakers, next.standIn.value, script[1..]);
        ReachableShrinks(reg, name, next.standIn.value);
      }
    }
  }

  /** Each call is given up at most `d` after the one before it. */
  predicate Paced(script: seq<Moment>, d: real) {
    forall i :: 0 <= i && i + 1 < |script| ==> script[i + 1].noted - script[i].noted <= d
  }

  /** `n` times `d`. */
  function Steps(n: nat, d: real): real {
    if n == 0 then 0.0 else Steps(n - 1, d) + d
  }

  lemma {:induction false} StepsMultiply(n: nat, d: real)
    ensures Steps(n, d) == n as real * d
  {
    if n > 0 {
      var before := (n - 1) as real;
      StepsMultiply(n - 1, d);
      assert n as real == before + 1.0;
      assert (before + 1.0) * d == before * d + d;
    }
  }

  lemma {:induction false} MoreSteps(a: nat, b: nat, d: real)
    requires a <= b && d >= 0.0
    ensures Steps(a, d) <= Steps(b, d)
  {
    if a < b {
      MoreSteps(a, b - 1, d);
    }
  }

  lemma {:induction false} PacedSpan(script: seq<Moment>, d: real, i: nat, steps: nat)
    requires Paced(script, d) && i + steps < |script|
    ensures script[i + steps].noted - script[i].noted <= Steps(steps, d)
  {
    if steps == 0 {
      assert i + steps == i;
    } else {
      var before := i + (steps - 1);
      PacedSpan(script, d, i, steps - 1);
      assert script[before + 1].noted - script[before].noted <= d;
      assert before + 1 == i + steps;
    }
  }

  predicate Distinct(reg: Registry, visited: seq<string>) {
    forall i, j :: 0 <= i < j < |visited| ==> ProviderOf(reg, visited[i]) != ProviderOf(reg, visited[j])
  }

  function ProviderSet(reg: Registry, visited: seq<string>): set<string> {
    if visited == [] then {}
    else ProviderSet(reg, visited[..|visited| - 1]) + {ProviderOf(reg, visited[|visited| - 1])}
  }

  lemma {:induction false} DistinctCount(reg: Registry, visited: seq<string>, all: set<string>)
    requires Distinct(reg, visited) && forall v <- visited :: ProviderOf(reg, v) in all
    ensures |ProviderSet(reg, visited)| == |visited| && ProviderSet(reg, visited) <= all
    ensures forall p <- ProviderSet(reg, visited) :: exists i :: 0 <= i < |visited| && ProviderOf(reg, visited[i]) == p
  {
    if visited != [] {
      var init := visited[..|visited| - 1];
      DistinctCount(reg, init, all);
      assert forall i :: 0 <= i < |init| ==> init[i] == visited[i];
    }
  }

  lemma SpanUnderCooldown(script: seq<Moment>, d: real, i: nat, steps: nat, n: nat)
    requires Paced(script, d) && InTime(script) && i + steps < |script| && d >= 0.0
    requires steps <= n && Steps(n, d) < COOLDOWN_S
    ensures script[i + steps].seen - script[i].noted < COOLDOWN_S
  {
    PacedSpan(script, d, i, steps);
    MoreSteps(steps, n, d);
  }

  /** What a chain is run on, and how it is paced. */
  predicate Chain(reg: Registry, name: string, script: seq<Moment>, d: real) {
    name in reg.models && InTime(script) && Paced(script, d)
  }

  lemma {:induction false} DistinctPair(
    reg: Registry, b: Breakers, name: string, script: seq<Moment>, d: real, i: nat, j: nat, n: nat)
    requires Chain(reg, name, script, d) && d >= 0.0
    requires i < j < |Visits(reg, b, name, script)| && j <= n + 1 && Steps(n, d) < COOLDOWN_S
    ensures ProviderOf(reg, Visits(reg, b, name, script)[i]) != ProviderOf(reg, Visits(reg, b, name, script)[j])
  {
    NotRetriedBeforeCooldown(reg, b, name, script, i, j);
    SpanUnderCooldown(script, d, i, j - 1 - i, n);
    assert i + (j - 1 - i) == j - 1;
  }

  lemma {:induction false} DistinctWhilePaced(
    reg: Registry, b: Breakers, name: string, script: seq<Moment>, d: real, m: nat, n: nat)
    requires Chain(reg, name, script, d) && d >= 0.0
    requires m <= |Visits(reg, b, name, script)| && m <= n + 2 && Steps(n, d) < COOLDOWN_S
    ensures Distinct(reg, Visits(reg, b, name, script)[..m])
  {
    var visited := Visits(reg, b, name, script);
    forall i, j | 0 <= i < j < m
      ensures ProviderOf(reg, visited[..m][i]) != ProviderOf(reg, visited[..m][j])
    {
      DistinctPair(reg, b, name, script, d, i, j, n);
    }
  }

  /** Visits to distinct providers are no more than the providers. */
  lemma FirstVisitsCount(reg: Registry, visited: seq<string>, all: set<string>, m: nat)
    requires m <= |visited| && Distinct(reg, visited[..m]) && forall v <- visited :: ProviderOf(reg, v) in all
    ensures m <= |all|
  {
    DistinctCount(reg, visited[..m], all);
    SubsetCount(ProviderSet(reg, visited[..m]), all);
  }

  /** How many other providers are in reach. */
  function Others(reg: Registry, name: string): (n: nat)
    ensures n == |Reachable(reg, name)| - 1
  {
    assert ProviderOf(reg, name) in Reachable(reg, name);
    |Reachable(reg, name)| - 1
  }

  lemma {:induction false} NoMoreThanProviders(reg: Registry, b: Breakers, name: string, script: seq<Moment>, d: real)
    requires Chain(reg, name, script, d) && d >= 0.0 && Steps(Others(reg, name), d) < COOLDOWN_S
    ensures |Visits(reg, b, name, script)| <= Others(reg, name) + 1
  {
    var n := Others(reg, name);
    if |Visits(reg, b, name, script)| > n + 1 {
      VisitsAreReachable(reg, b, name, script);
      DistinctWhilePaced(reg, b, name, script, d, n + 2, n);
      FirstVisitsCount(reg, Visits(reg, b, name, script), Reachable(reg, name), n + 2);
    }
  }

  lemma {:induction false} PacedEndsSoon(reg: Registry, b: Breakers, name: string, script: seq<Moment>, d: real)
    requires Chain(reg, name, script, d) && d >= 0.0 && Steps(Others(reg, name), d) < COOLDOWN_S
    ensures |Visits(reg, b, name, script)| <= |Reachable(reg, name)|
    ensures Distinct(reg, Visits(reg, b, name, script))
  {
    var visited := Visits(reg, b, name, script);
    NoMoreThanProviders(reg, b, name, script, d);
    DistinctWhilePaced(reg, b, name, script, d, |visited|, Others(reg, name));
    assert visited[..|visited|] == visited;
  }

  /**
   If going once through the other providers in reach takes less than the cooldown, no
   provider is called twice, and a call goes through at most as many models as there are
   providers in reach.
   */
  lemma {:induction false} FailoverEnds(reg: Registry, b: Breakers, name: string, script: seq<Moment>, d: real)
    requires Chain(reg, name, script, d) && Others(reg, name) as real * d < COOLDOWN_S
    ensures |Visits(reg, b, name, script)| <= |Reachable(reg, name)|
    ensures Distinct(reg, Visits(reg, b, name, script))
  {
    if d >= 0.0 {
      StepsMultiply(Others(reg, name), d);
      PacedEndsSoon(reg, b, name, script, d);
    } else {
      NoSteps(Others(reg, name));
      assert Paced(script, 0.0);
      PacedEndsSoon(reg, b, name, script, 0.0);
    }
  }

  lemma {:induction false} NoSteps(n: nat)
    ensures Steps(n, 0.0) == 0.0
  {
    if n > 0 {
      NoSteps(n - 1);
    }
  }
}
