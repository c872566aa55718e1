/** Which model stands in for one whose backend is down, read off the manifest and the breakers. */
module StandIns {
  import opened Option
  import opened Failover

  /** The first lane, in the manifest's order, that lists the model. */
  predicate IsLaneOf(lanes: seq<LaneOf>, name: string, k: nat) {
    && k < |lanes| && name in lanes[k].members
    && forall i :: 0 <= i < k ==> name !in lanes[i].members
  }

  lemma {:induction false} FirstLaneIsFirst(lanes: seq<LaneOf>, name: string) returns (k: nat)
    ensures k <= |lanes|
    ensures if FirstLane(lanes, name).Some?
            then IsLaneOf(lanes, name, k) && lanes[k].members == FirstLane(lanes, name).value
            else k == |lanes| && forall i :: 0 <= i < |lanes| ==> name !in lanes[i].members
  {
    if lanes == [] || name in lanes[0].members {
      k := 0;
    } else {
      var j := FirstLaneIsFirst(lanes[1..], name);
      k := j + 1;
      assert forall i :: 0 < i < |lanes| ==> lanes[i] == lanes[1..][i - 1];
    }
  }

  /** The model is in the manifest and its backend is enabled. */
  predicate Runs(reg: Registry, name: string) {
    name in reg.models && reg.models[name] in reg.providers
  }

  /** What the backends are known to serve is respected, unless it leaves the lane nothing. */
  predicate Serves(reg: Registry, members: seq<string>, name: string) {
    || reg.available.None?
    || name in reg.available.value
    || forall c <- members :: Runs(reg, c) ==> c !in reg.available.value
  }

  /** It would be asked: no breaker is open for it, or it has been open for two minutes. */
  predicate MayBeAsked(b: Breakers, name: string, now: real) {
    name !in b || b[name].openedAt.None? || now - b[name].openedAt.value >= 120.0
  }

  /** The model can take the place of the failed one. */
  predicate Suits(reg: Registry, b: Breakers, failed: string, members: seq<string>, name: string, now: real)
    requires failed in reg.models
  {
    && Runs(reg, name) && Serves(reg, members, name)
    && reg.models[name] != reg.models[failed] && MayBeAsked(b, name, now)
  }

  lemma {:induction false} OnlyTwice(names: seq<string>, a: set<string>, b: set<string>)
    ensures Only(Only(names, a), b) == Only(names, a * b)
  {
    if names != [] {
      OnlyTwice(names[1..], a, b);
      var rest := Only(names[1..], a);
      if names[0] in a {
        assert Only(names, a)[0] == names[0] && Only(names, a)[1..] == rest;
      } else {
        assert Only(names, a) == rest;
      }
    }
  }

  lemma {:induction false} OnlyIsEmpty(names: seq<string>, wanted: set<string>)
    ensures Only(names, wanted) == [] <==> forall c <- names :: c !in wanted
  {
    if names != [] {
      OnlyIsEmpty(names[1..], wanted);
    }
  }

  /** The names candidates are taken from. */
  function Choosable(reg: Registry, members: seq<string>): set<string> {
    if reg.available.Some? && (exists c <- members :: Runs(reg, c) && c in reg.available.value)
    then Usable(reg) * reg.available.value
    else Usable(reg)
  }

  lemma CandidatesAreChoosable(reg: Registry, members: seq<string>)
    ensures LaneCandidates(reg, members) == Only(members, Choosable(reg, members))
  {
    if reg.available.Some? {
      OnlyTwice(members, Usable(reg), reg.available.value);
      OnlyIsEmpty(members, Usable(reg) * reg.available.value);
    }
  }

  /** `names[k]` is the first that is wanted and fit. */
  predicate IsFirstFit(reg: Registry, b: Breakers, failed: string, names: seq<string>, wanted: set<string>, now: real,
                       k: nat)
    requires failed in reg.models && wanted <= reg.models.Keys
  {
    && k < |names| && names[k] in wanted && Fit(reg, b, failed, names[k], now)
    && forall i :: 0 <= i < k && names[i] in wanted ==> !Fit(reg, b, failed, names[i], now)
  }

  predicate NoneFits(reg: Registry, b: Breakers, failed: string, names: seq<string>, wanted: set<string>, now: real)
    requires failed in reg.models && wanted <= reg.models.Keys
  {
    forall c <- names :: c in wanted ==> !Fit(reg, b, failed, c, now)
  }

  lemma {:induction false} SearchOfOnly(
    reg: Registry, b: Breakers, failed: string, names: seq<string>, wanted: set<string>, now: real) returns (k: nat)
    requires failed in reg.models && wanted <= reg.models.Keys
    requires forall c <- Only(names, wanted) :: c in reg.models
    ensures match Search(reg, b, failed, Only(names, wanted), now).standIn
            case None => NoneFits(reg, b, failed, names, wanted, now)
            case Some(m) => IsFirstFit(reg, b, failed, names, wanted, now, k) && names[k] == m
  {
    k := 0;
    if names != [] {
      var rest := Only(names[1..], wanted);
      if names[0] in wanted {
        assert Only(names, wanted)[1..] == rest && Only(names, wanted)[0] == names[0];
      } else {
        assert Only(names, wanted) == rest;
      }
      if !(names[0] in wanted && Fit(reg, b, failed, names[0], now)) {
        assert forall c <- rest :: c in Only(names, wanted);
        var j := SearchOfOnly(reg, b, failed, names[1..], wanted, now);
        k := j + 1;
        assert forall i :: 0 < i < |names| ==> names[i] == names[1..][i - 1];
      }
    }
  }

  lemma FitIsSuited(reg: Registry, b: Breakers, failed: string, members: seq<string>, name: string, now: real)
    requires failed in reg.models && name in members
    ensures name in Choosable(reg, members) && Fit(reg, b, failed, name, now)
            <==> Suits(reg, b, failed, members, name, now)
  {
  }

  /** The stand-in is the first suitable model of the failed one's first lane, and there is none only if none suits. */
  ghost predicate IsStandIn(reg: Registry, b: Breakers, failed: string, now: real, members: seq<string>,
                            m: Option<string>)
    requires failed in reg.models
  {
    match m
    case None => forall c <- members :: !Suits(reg, b, failed, members, c, now)
    case Some(name) =>
      exists k :: 0 <= k < |members| && members[k] == name && Suits(reg, b, failed, members, name, now) &&
                  forall i :: 0 <= i < k ==> !Suits(reg, b, failed, members, members[i], now)
  }

  lemma FirstOfTheLane(reg: Registry, b: Breakers, failed: string, now: real, members: seq<string>)
    requires failed in reg.models && FirstLane(reg.lanes, failed) == Some(members)
    ensures IsStandIn(reg, b, failed, now, members, StandInFor(reg, b, failed, now).standIn)
  {
    var wanted := Choosable(reg, members);
    CandidatesAreModels(reg, members);
    CandidatesAreChoosable(reg, members);
    var k := SearchOfOnly(reg, b, failed, members, wanted, now);
    forall c | c in members
      ensures c in wanted && Fit(reg, b, failed, c, now) <==> Suits(reg, b, failed, members, c, now)
    {
      FitIsSuited(reg, b, failed, members, c, now);
    }
  }

  /**
   A failed model is replaced by the first suitable one of the first lane that lists it; by
   none if it is in no lane, or none of that lane suits.
   */
  lemma StandInIsTheFirst(reg: Registry, b: Breakers, failed: string, now: real)
    requires failed in reg.models
    ensures var m := StandInFor(reg, b, failed, now).standIn;
            if exists k: nat :: IsLaneOf(reg.lanes, failed, k)
            then exists k: nat ::
                   IsLaneOf(reg.lanes, failed, k) && IsStandIn(reg, b, failed, now, reg.lanes[k].members, m)
            else m == None
  {
    var k := FirstLaneIsFirst(reg.lanes, failed);
    var lane := FirstLane(reg.lanes, failed);
    if lane.Some? {
      FirstOfTheLane(reg, b, failed, now, lane.value);
      assert IsLaneOf(reg.lanes, failed, k) && IsStandIn(reg, b, failed, now, reg.lanes[k].members,
                                                         StandInFor(reg, b, failed, now).standIn);
    }
  }
}
