/**
 What the residency ledger charges: one amount per physical model, the largest estimate among
 the logical names that share it. How the total moves when a name is added or dropped follows
 from that, and so does when the test for room is right.
 */
module ResidencyLedger {
  datatype ModelInfo = ModelInfo(logicalName: string, provider: string, physicalId: string,
                                 approxRamGb: real, pinned: bool)

  datatype Entry = Entry(logicalName: string, sizeGb: real, pinned: bool, lastUsed: real,
                         loadCount: nat, totalLoadS: real)

  const DEFAULT_SWAP_COST_S := 6.0

  /** `mean_load_s`. */
  function MeanLoadS(e: Entry): real {
    if e.loadCount == 0 then DEFAULT_SWAP_COST_S else e.totalLoadS / e.loadCount as real
  }

  type Models = map<string, ModelInfo>
  type Ledger = map<string, Entry>

  function Max(x: real, y: real): real {
    if x < y then y else x
  }

  function PhysicalOf(models: Models, name: string): string {
    if name in models then models[name].physicalId else name
  }

  function Aliases(models: Models, entries: Ledger, physical: string): set<string> {
    set n | n in entries && PhysicalOf(models, n) == physical
  }

  function Physicals(models: Models, entries: Ledger): set<string> {
    set n | n in entries :: PhysicalOf(models, n)
  }

  /** The largest size among `names`, never below zero. */
  ghost function Largest(entries: Ledger, names: set<string>): (r: real)
    requires names <= entries.Keys
    ensures r >= 0.0 && forall n <- names :: entries[n].sizeGb <= r
    ensures r == 0.0 || exists n <- names :: entries[n].sizeGb == r
  {
    if names == {} then 0.0
    else
      var n :| n in names;
      Max(entries[n].sizeGb, Largest(entries, names - {n}))
  }

  ghost function Charge(models: Models, entries: Ledger, physical: string): real {
    Largest(entries, Aliases(models, entries, physical))
  }

  ghost function Charges(models: Models, entries: Ledger): map<string, real> {
    map p | p in Physicals(models, entries) :: Charge(models, entries, p)
  }

  ghost function Sum(m: map<string, real>): real {
    if m == map[] then 0.0
    else
      var k :| k in m;
      m[k] + Sum(m - {k})
  }

  ghost function ResidentGb(models: Models, entries: Ledger): real {
    Sum(Charges(models, entries))
  }

  /** The sum does not depend on which key is taken first. */
  lemma {:induction false} SumTake(m: map<string, real>, k: string)
    requires k in m
    ensures Sum(m) == m[k] + Sum(m - {k})
    decreases |m|
  {
    var j :| j in m && Sum(m) == m[j] + Sum(m - {j});
    if j != k {
      SumTake(m - {j}, k);
      SumTake(m - {k}, j);
      assert m - {j} - {k} == m - {k} - {j};
    }
  }

  lemma SumPut(m: map<string, real>, k: string, v: real)
    ensures Sum(m[k := v]) == Sum(m) - (if k in m then m[k] else 0.0) + v
  {
    SumTake(m[k := v], k);
    assert m[k := v] - {k} == m - {k};
    if k in m {
      SumTake(m, k);
    } else {
      assert m - {k} == m;
    }
  }

  lemma LargestIs(entries: Ledger, names: set<string>, r: real)
    requires names <= entries.Keys
    requires r >= 0.0 && forall n <- names :: entries[n].sizeGb <= r
    requires r == 0.0 || exists n <- names :: entries[n].sizeGb == r
    ensures Largest(entries, names) == r
  {
  }

  /** Two ledgers that agree on the aliases of a physical model charge it alike. */
  lemma ChargeFrame(models: Models, a: Ledger, b: Ledger, p: string)
    requires Aliases(models, a, p) == Aliases(models, b, p)
    requires forall n <- Aliases(models, a, p) :: a[n].sizeGb == b[n].sizeGb
    ensures Charge(models, a, p) == Charge(models, b, p)
  {
    LargestIs(a, Aliases(models, a, p), Charge(models, b, p));
  }

  lemma ChargeAfterAdding(models: Models, entries: Ledger, name: string, e: Entry)
    requires name !in entries
    ensures var p := PhysicalOf(models, name);
            Charge(models, entries[name := e], p) == Max(Charge(models, entries, p), e.sizeGb)
  {
    var p := PhysicalOf(models, name);
    var next := entries[name := e];
    var others := Aliases(models, entries, p);
    var was := Charge(models, entries, p);
    assert Aliases(models, next, p) == others + {name};
    if was != 0.0 && e.sizeGb < was {
      var n :| n in others && entries[n].sizeGb == was;
      assert next[n].sizeGb == was;
    }
    assert next[name].sizeGb == e.sizeGb;
    LargestIs(next, others + {name}, Max(was, e.sizeGb));
  }

  lemma NoAliasesNoCharge(models: Models, entries: Ledger, p: string)
    ensures p in Physicals(models, entries) <==> Aliases(models, entries, p) != {}
    ensures p !in Physicals(models, entries) ==> Charge(models, entries, p) == 0.0
  {
    if p in Physicals(models, entries) {
      var n :| n in entries && PhysicalOf(models, n) == p;
      assert n in Aliases(models, entries, p);
    }
  }

  lemma PhysicalsAfterAdding(models: Models, entries: Ledger, name: string, e: Entry)
    ensures Physicals(models, entries[name := e]) == Physicals(models, entries) + {PhysicalOf(models, name)}
  {
    var next := entries[name := e];
    assert name in next;
    forall n | n in entries
      ensures PhysicalOf(models, n) in Physicals(models, next)
    {
      assert n in next;
    }
  }

  lemma ChargeElsewhere(models: Models, entries: Ledger, name: string, e: Entry, q: string)
    requires q != PhysicalOf(models, name)
    ensures Charge(models, entries[name := e], q) == Charge(models, entries, q)
  {
    assert Aliases(models, entries[name := e], q) == Aliases(models, entries, q);
    ChargeFrame(models, entries[name := e], entries, q);
  }

  lemma IsUpdate(before: map<string, real>, after: map<string, real>, p: string, v: real)
    requires after.Keys == before.Keys + {p} && after[p] == v
    requires forall q | q in before && q != p :: after[q] == before[q]
    ensures after == before[p := v]
  {
  }

  /** Adding a name raises the charge of its physical model to its own size, if that is larger. */
  lemma ChargesAfterAdding(models: Models, entries: Ledger, name: string, e: Entry)
    requires name !in entries
    ensures var p := PhysicalOf(models, name);
            Charges(models, entries[name := e])
              == Charges(models, entries)[p := Max(Charge(models, entries, p), e.sizeGb)]
  {
    var p := PhysicalOf(models, name);
    var next := entries[name := e];
    PhysicalsAfterAdding(models, entries, name, e);
    ChargeAfterAdding(models, entries, name, e);
    forall q | q != p
      ensures Charge(models, next, q) == Charge(models, entries, q)
    {
      ChargeElsewhere(models, entries, name, e, q);
    }
    IsUpdate(Charges(models, entries), Charges(models, next), p, Charge(models, next, p));
  }

  /** Loading a name costs at most its size, and never lowers the total. */
  lemma AddingCosts(models: Models, entries: Ledger, name: string, e: Entry)
    requires name !in entries
    ensures ResidentGb(models, entries) <= ResidentGb(models, entries[name := e])
    ensures ResidentGb(models, entries[name := e]) <= ResidentGb(models, entries) + Max(e.sizeGb, 0.0)
  {
    ChargesAfterAdding(models, entries, name, e);
    var p := PhysicalOf(models, name);
    var before := Charges(models, entries);
    NoAliasesNoCharge(models, entries, p);
    SumPut(before, p, Max(Charge(models, entries, p), e.sizeGb));
  }

  /** What a name of the given size adds to the total: what it needs beyond the other names of its physical model. */
  ghost function Extra(models: Models, entries: Ledger, name: string, sizeGb: real): real {
    Max(sizeGb - Charge(models, entries, PhysicalOf(models, name)), 0.0)
  }

  lemma AddedExactly(models: Models, entries: Ledger, name: string, e: Entry)
    requires name !in entries
    ensures ResidentGb(models, entries[name := e]) == ResidentGb(models, entries)
            + Extra(models, entries, name, e.sizeGb)
  {
    ChargesAfterAdding(models, entries, name, e);
    var p := PhysicalOf(models, name);
    NoAliasesNoCharge(models, entries, p);
    SumPut(Charges(models, entries), p, Max(Charge(models, entries, p), e.sizeGb));
  }

  /** Another name of the same weights is in the ledger at that size or more. */
  predicate SharesWeights(models: Models, entries: Ledger, name: string, sizeGb: real) {
    exists m <- entries ::
      && m in models && name in models && models[m].physicalId == models[name].physicalId
      && entries[m].sizeGb >= sizeGb
  }

  /** Every name in the ledger and `name` itself are in the manifest. */
  predicate Listed(models: Models, entries: Ledger, name: string) {
    name in models && forall m <- entries :: m in models
  }

  /** Weights are charged once: adding a name is free exactly when another name of them is charged as much. */
  lemma SharedWeightsAreFree(models: Models, entries: Ledger, name: string, e: Entry)
    requires name !in entries && e.sizeGb > 0.0 && Listed(models, entries, name)
    ensures ResidentGb(models, entries[name := e]) == ResidentGb(models, entries)
       <==> SharesWeights(models, entries, name, e.sizeGb)
    ensures (forall m <- entries :: models[m].physicalId != models[name].physicalId) ==>
              ResidentGb(models, entries[name := e]) == ResidentGb(models, entries) + e.sizeGb
  {
    AddedExactly(models, entries, name, e);
    var p := PhysicalOf(models, name);
    var aliases := Aliases(models, entries, p);
    if Charge(models, entries, p) >= e.sizeGb {
      var m :| m in aliases && entries[m].sizeGb == Charge(models, entries, p);
      assert models[m].physicalId == models[name].physicalId;
    }
    if SharesWeights(models, entries, name, e.sizeGb) {
      var m :| m in entries && models[m].physicalId == models[name].physicalId && entries[m].sizeGb >= e.sizeGb;
      assert m in aliases;
    }
  }

  /** The mean of the loads so far, and a default before the first. */
  lemma MeanOfLoads(e: Entry)
    ensures if e.loadCount == 0 then MeanLoadS(e) == 6.0 else MeanLoadS(e) * e.loadCount as real == e.totalLoadS
  {
  }

  /** The test for room: the total and the whole size within the budget. */
  predicate SeemsToFit(total: real, sizeGb: real, max: real) {
    total + sizeGb <= max
  }

  /** The test agrees with what loading the model will really take, whatever the budget. */
  ghost predicate TestIsExact(models: Models, entries: Ledger, name: string, e: Entry) {
    forall max: real ::
      SeemsToFit(ResidentGb(models, entries), e.sizeGb, max) <==> ResidentGb(models, entries[name := e]) <= max
  }

  /**
   The test for room is exact if and only if no other name of the same weights is charged.
   Where one is, there are budgets at which models are evicted though the new name would fit.
   */
  lemma RoomTestIsExact(models: Models, entries: Ledger, name: string, e: Entry)
    requires name !in entries && e.sizeGb > 0.0
    ensures TestIsExact(models, entries, name, e) <==> Charge(models, entries, PhysicalOf(models, name)) == 0.0
    ensures SeemsToFit(ResidentGb(models, entries), e.sizeGb, ResidentGb(models, entries[name := e]))
       <==> Charge(models, entries, PhysicalOf(models, name)) == 0.0
  {
    AddedExactly(models, entries, name, e);
    var enough := ResidentGb(models, entries[name := e]);
    assert SeemsToFit(ResidentGb(models, entries), e.sizeGb, enough)
      <==> Charge(models, entries, PhysicalOf(models, name)) == 0.0;
  }

  /**
   Dropping a name frees exactly what it added beyond the other names of the same
   physical model; so it frees something exactly when it was the strictly largest
   estimate of that model.
   */
  lemma DroppingFrees(models: Models, entries: Ledger, name: string)
    requires name in entries
    ensures ResidentGb(models, entries - {name}) <= ResidentGb(models, entries)
    ensures var p := PhysicalOf(models, name);
            ResidentGb(models, entries - {name}) < ResidentGb(models, entries) <==>
              entries[name].sizeGb > Largest(entries, Aliases(models, entries, p) - {name})
  {
    var p := PhysicalOf(models, name);
    var rest := entries - {name};
    assert rest[name := entries[name]] == entries;
    ChargesAfterAdding(models, rest, name, entries[name]);
    NoAliasesNoCharge(models, rest, p);
    SumPut(Charges(models, rest), p, Max(Charge(models, rest, p), entries[name].sizeGb));
    assert Aliases(models, rest, p) == Aliases(models, entries, p) - {name};
    LargestIs(entries, Aliases(models, entries, p) - {name}, Charge(models, rest, p));
  }

  /**
   Evicting a name unloads its physical model, whichever names share it. The ledger
   goes on charging that model exactly when another name of it stays behind.
   */
  lemma EvictedButStillCharged(models: Models, entries: Ledger, name: string)
    requires name in entries
    ensures var p := PhysicalOf(models, name);
            p in Physicals(models, entries - {name}) <==> Aliases(models, entries, p) != {name}
  {
    var p := PhysicalOf(models, name);
    NoAliasesNoCharge(models, entries - {name}, p);
    assert Aliases(models, entries - {name}, p) == Aliases(models, entries, p) - {name};
    assert name in Aliases(models, entries, p);
  }
}
