/**
 Admission control for models: which may be in memory, and what is evicted to make room. The
 manager keeps one entry for each logical name; the ledger and the meter are two views of
 those, and reconciliation with the backends is the only other thing that changes them.
 */
module Residency {
  import opened Option
  import opened ResidencyLedger
  import opened ResidencyMeter

  // Every method is one call on the manager with no other call in between; the activation lock
  // makes that so for large models. Whether a backend's load or unload succeeds changes nothing
  // here: both failures are logged and ignored.

  const SMALL_MODEL_GB := 4.0

  /** Raised for a name the manifest does not list, or a backend it disables. */
  datatype ConfigurationError = UnknownModel(name: string) | UnknownProvider(provider: string)

  /** What the backends answered: no entry for one that could not be asked. */
  type Polls = map<string, set<string>>

  predicate Reported(polls: Polls, info: ModelInfo) {
    info.provider in polls && polls[info.provider] != {}
  }

  predicate Held(polls: Polls, info: ModelInfo) {
    Reported(polls, info) && info.physicalId in polls[info.provider]
  }

  function Adopted(name: string, info: ModelInfo, now: real): Entry {
    Entry(name, info.approxRamGb, false, now, 0, 0.0)
  }

  /** The entry a reconciliation leaves under `name`, if any. */
  function Reconciled(models: Models, entries: Ledger, polls: Polls, now: real, name: string): Option<Entry> {
    if name !in models || !Reported(polls, models[name]) then
      if name in entries then Some(entries[name]) else None
    else if !Held(polls, models[name]) then None
    else if name in entries then Some(entries[name])
    else Some(Adopted(name, models[name], now))
  }

  /** The entry after one more load of `info`; its size and pin are kept if it had one. */
  function Loaded(entries: Ledger, info: ModelInfo, now: real, elapsed: real): Entry {
    var name := info.logicalName;
    if name in entries then
      entries[name].(lastUsed := now, loadCount := entries[name].loadCount + 1,
                     totalLoadS := entries[name].totalLoadS + elapsed)
    else Entry(name, info.approxRamGb, info.pinned, now, 1, elapsed)
  }

  /** The entry of a model just loaded that had none. */
  function FreshEntry(info: ModelInfo, now: real, elapsed: real): Entry {
    Loaded(map[], info, now, elapsed)
  }

  /** What the ledger charges once a model it lacks is added: its size, less what its weights are charged already. */
  ghost function Charged(models: Models, entries: Ledger, info: ModelInfo): real {
    ResidentGb(models, entries) + Extra(models, entries, info.logicalName, info.approxRamGb)
  }

  /** What is left once `gone` have been evicted. */
  function Without(entries: Ledger, gone: seq<string>): Ledger {
    entries - (set n | n in gone)
  }

  lemma WithoutOneMore(entries: Ledger, gone: seq<string>, name: string)
    ensures Without(entries, []) == entries
    ensures Without(entries, gone + [name]) == Without(entries, gone) - {name}
  {
  }

  /** One more visited entry extends the charges of those visited before it. */
  lemma ChargeNext(models: Models, entries: Ledger, rest: set<string>, name: string, byPhysical: map<string, real>)
    requires rest <= entries.Keys && name in rest && byPhysical == Charges(models, entries - rest)
    ensures var p := PhysicalOf(models, name);
            var charged := if p in byPhysical then byPhysical[p] else 0.0;
            byPhysical[p := Max(charged, entries[name].sizeGb)] == Charges(models, entries - (rest - {name}))
  {
    assert entries - (rest - {name}) == (entries - rest)[name := entries[name]];
    ChargesAfterAdding(models, entries - rest, name, entries[name]);
    NoAliasesNoCharge(models, entries - rest, PhysicalOf(models, name));
  }

  lemma ChargeEnds(models: Models, entries: Ledger)
    ensures Charges(models, entries - entries.Keys) == map[]
    ensures entries - {} == entries
  {
  }

  /** Names in order of last use, oldest first. */
  predicate OldestFirst(entries: Ledger, order: seq<string>) {
    && (forall n <- order :: n in entries)
    && (forall i, j :: 0 <= i < j < |order| ==>
          order[i] != order[j] && entries[order[i]].lastUsed <= entries[order[j]].lastUsed)
  }

  /** `gone` are unpinned, in order of last use, and no unpinned entry left behind is older. */
  predicate LeastRecentlyUsed(entries: Ledger, gone: seq<string>) {
    && OldestFirst(entries, gone)
    && (forall n <- gone :: !entries[n].pinned)
    && (forall n <- gone, m <- entries :: m !in gone && !entries[m].pinned ==>
          entries[n].lastUsed <= entries[m].lastUsed)
  }

  lemma PrefixLeastRecentlyUsed(entries: Ledger, evictable: seq<string>, gone: seq<string>)
    requires OldestFirst(entries, evictable) && gone <= evictable
    requires forall n :: n in evictable <==> n in entries && !entries[n].pinned
    ensures LeastRecentlyUsed(entries, gone)
    ensures gone == evictable ==> forall n <- Without(entries, gone) :: entries[n].pinned
    ensures |gone| < |evictable| ==> evictable[|gone|] in Without(entries, gone)
  {
    assert forall i :: 0 <= i < |gone| ==> gone[i] == evictable[i];
    forall n, m | n in gone && m in entries && m !in gone && !entries[m].pinned
      ensures entries[n].lastUsed <= entries[m].lastUsed
    {
      var i :| 0 <= i < |gone| && gone[i] == n;
      var j :| 0 <= j < |evictable| && evictable[j] == m;
      assert i < j;
    }
  }

  /** The budget was exceeded before each eviction. */
  ghost predicate EachNeeded(models: Models, entries: Ledger, gone: seq<string>, needed: real, max: real) {
    forall i :: 0 <= i < |gone| ==> ResidentGb(models, Without(entries, gone[..i])) + needed > max
  }

  lemma OneMoreNeeded(models: Models, entries: Ledger, gone: seq<string>, name: string, needed: real, max: real)
    requires EachNeeded(models, entries, gone, needed, max)
    requires ResidentGb(models, Without(entries, gone)) + needed > max
    ensures EachNeeded(models, entries, gone + [name], needed, max)
  {
    forall i | 0 <= i <= |gone|
      ensures ResidentGb(models, Without(entries, (gone + [name])[..i])) + needed > max
    {
      assert (gone + [name])[..i] == gone[..i];
      assert gone[..|gone|] == gone;
    }
  }

  class ResidencyManager {
    var models: Models
    var providers: set<string>
    var maxResidentGb: real
    var allowSwap: bool
    var entries: Ledger

    ghost predicate Valid()
      reads this
    {
      && (forall n <- entries :: entries[n].logicalName == n)
      && (forall n <- models :: models[n].logicalName == n)
    }

    ghost function Resident(): real
      reads this
    {
      ResidentGb(models, entries)
    }

    /** One charge per physical model, in whatever order the entries are visited. */
    method ChargeByPhysical() returns (byPhysical: map<string, real>)
      ensures byPhysical == Charges(models, entries)
    {
      byPhysical := map[];
      var rest := entries.Keys;
      ChargeEnds(models, entries);
      while rest != {}
        invariant rest <= entries.Keys && byPhysical == Charges(models, entries - rest)
      {
        var name :| name in rest;
        ChargeNext(models, entries, rest, name, byPhysical);
        var physical := PhysicalOf(models, name);
        var charged := if physical in byPhysical then byPhysical[physical] else 0.0;
        byPhysical := byPhysical[physical := Max(charged, entries[name].sizeGb)];
        rest := rest - {name};
      }
    }

    /** `resident_gb`. */
    method ComputeResidentGb() returns (total: real)
      ensures total == Resident()
    {
      var byPhysical := ChargeByPhysical();
      total := 0.0;
      var rest := byPhysical;
      while rest != map[]
        invariant total + Sum(rest) == Sum(byPhysical)
        decreases |rest|
      {
        var p :| p in rest;
        SumTake(rest, p);
        total := total + rest[p];
        rest := rest - {p};
      }
    }

    /** Zero when loaded; otherwise a price from the manifest alone. */
    function SwapCostS(name: string): real
      reads this
    {
      if name in entries then 0.0
      else if name !in models then DEFAULT_SWAP_COST_S
      else DEFAULT_SWAP_COST_S * Max(0.5, models[name].approxRamGb / 6.0)
    }

    /** Drops the record; the timing history goes with it. */
    method Forget(name: string)
      modifies this`entries
      ensures entries == old(entries) - {name}
    {
      entries := entries - {name};
    }

    /** Why `name` cannot be handed to its backend. */
    function Unreachable(name: string): Option<ConfigurationError>
      reads this
    {
      if name !in models then Some(UnknownModel(name))
      else if models[name].provider !in providers then Some(UnknownProvider(models[name].provider))
      else None
    }

    /** Evicts an unpinned entry. Its next load is priced as if it had never been loaded. */
    method Release(name: string) returns (outcome: Result<(), ConfigurationError>)
      requires Valid()
      modifies this`entries
      ensures Valid()
      ensures name !in old(entries) || old(entries)[name].pinned ==> outcome.Ok? && entries == old(entries)
      ensures name in old(entries) && !old(entries)[name].pinned ==>
                if old(Unreachable(name)).Some?
                then outcome == Err(old(Unreachable(name)).value) && entries == old(entries)
                else outcome.Ok? && entries == old(entries) - {name} &&
                     SwapCostS(name) == DEFAULT_SWAP_COST_S * Max(0.5, models[name].approxRamGb / 6.0)
      ensures outcome.Err? ==>
                match outcome.error
                case UnknownModel(unknown) => unknown == name && name !in models
                case UnknownProvider(provider) =>
                  name in models && provider == models[name].provider && provider !in providers
      ensures name in models && models[name].provider in providers ==> outcome.Ok?
    {
      if name !in entries || entries[name].pinned {
        return Ok(());
      }
      if name !in models {
        return Err(UnknownModel(name));
      }
      if models[name].provider !in providers {
        return Err(UnknownProvider(models[name].provider));
      }
      entries := entries - {name};
      outcome := Ok(());
    }

    method Load(info: ModelInfo, now: real, elapsed: real) returns (outcome: Result<(), ConfigurationError>)
      requires Valid() && info.logicalName in models && models[info.logicalName] == info
      modifies this`entries
      ensures Valid()
      ensures outcome.Err? <==> info.provider !in providers
      ensures outcome.Err? ==> outcome.error == UnknownProvider(info.provider) && entries == old(entries)
      ensures outcome.Ok? ==> entries == old(entries)[info.logicalName := Loaded(old(entries), info, now, elapsed)]
      ensures outcome.Ok? && info.logicalName !in old(entries) ==>
                entries[info.logicalName] == Entry(info.logicalName, info.approxRamGb, info.pinned, now, 1, elapsed)
      ensures outcome.Ok? && info.logicalName in old(entries) ==>
                var (was, e) := (old(entries)[info.logicalName], entries[info.logicalName]);
                && e.sizeGb == was.sizeGb && e.pinned == was.pinned && e.lastUsed == now
                && e.loadCount == was.loadCount + 1 && e.totalLoadS == was.totalLoadS + elapsed
    {
      if info.provider !in providers {
        return Err(UnknownProvider(info.provider));
      }
      var name := info.logicalName;
      var entry := if name in entries then entries[name]
                   else Entry(name, info.approxRamGb, info.pinned, now, 0, 0.0);
      entry := entry.(lastUsed := now, loadCount := entry.loadCount + 1, totalLoadS := entry.totalLoadS + elapsed);
      entries := entries[name := entry];
      outcome := Ok(());
    }

    method SortByLastUse(names: set<string>) returns (order: seq<string>)
      requires names <= entries.Keys
      ensures OldestFirst(entries, order)
      ensures forall n :: n in order <==> n in names
    {
      order := [];
      var rest := names;
      while rest != {}
        invariant rest <= names && OldestFirst(entries, order)
        invariant forall n :: n in order <==> n in names - rest
        invariant forall n <- order, m <- rest :: entries[n].lastUsed <= entries[m].lastUsed
      {
        var oldest := OldestOf(rest);
        order := order + [oldest];
        rest := rest - {oldest};
      }
    }

    method OldestOf(names: set<string>) returns (oldest: string)
      requires names != {} && names <= entries.Keys
      ensures oldest in names && forall n <- names :: entries[oldest].lastUsed <= entries[n].lastUsed
    {
      oldest :| oldest in names;
      var rest := names - {oldest};
      while rest != {}
        invariant rest < names && oldest in names - rest
        invariant forall n <- names - rest :: entries[oldest].lastUsed <= entries[n].lastUsed
      {
        var n :| n in rest;
        if entries[n].lastUsed < entries[oldest].lastUsed {
          oldest := n;
        }
        rest := rest - {n};
      }
    }

    /** Evicts along `evictable` until `needed` fits, or it runs out, or an eviction raises. */
    method EvictUntilFits(evictable: seq<string>, needed: real)
      returns (outcome: Result<(), ConfigurationError>, evicted: seq<string>)
      requires Valid() && OldestFirst(entries, evictable) && forall n <- evictable :: !entries[n].pinned
      modifies this`entries
      ensures Valid() && evicted <= evictable
      ensures entries == Without(old(entries), evicted)
      ensures old(EachNeeded(models, entries, evicted, needed, maxResidentGb))
      ensures outcome.Ok? ==> Resident() + needed <= maxResidentGb || evicted == evictable
      ensures outcome.Err? ==> |evicted| < |evictable| && Unreachable(evictable[|evicted|]) == Some(outcome.error)
    {
      evicted := [];
      outcome := Ok(());
      ghost var start := entries;
      WithoutOneMore(start, [], "");
      for i := 0 to |evictable|
        invariant Valid() && evicted == evictable[..i] && entries == Without(start, evicted) && outcome.Ok?
        invariant EachNeeded(models, start, evicted, needed, maxResidentGb)
      {
        var resident := ComputeResidentGb();
        if resident + needed <= maxResidentGb {
          return;
        }
        var name := evictable[i];
        assert name in entries && !entries[name].pinned;
        outcome := Release(name);
        if outcome.Err? {
          return;
        }
        OneMoreNeeded(models, start, evicted, name, needed, maxResidentGb);
        WithoutOneMore(start, evicted, name);
        evicted := evicted + [name];
      }
    }

    method MakeRoomFor(info: ModelInfo) returns (outcome: Result<(), ConfigurationError>, evicted: seq<string>)
      requires Valid()
      modifies this`entries
      ensures Valid() && entries == Without(old(entries), evicted)
      ensures LeastRecentlyUsed(old(entries), evicted)
      ensures old(EachNeeded(models, entries, evicted, info.approxRamGb, maxResidentGb))
      ensures !allowSwap ==> evicted == [] && outcome.Ok?
      ensures old(Resident()) + info.approxRamGb <= maxResidentGb ==> evicted == [] && outcome.Ok?
      ensures outcome.Ok? && allowSwap ==>
                Resident() + info.approxRamGb <= maxResidentGb || forall n <- entries :: entries[n].pinned
      ensures outcome.Err? ==>
                exists n <- entries :: !entries[n].pinned && Unreachable(n) == Some(outcome.error)
    {
      evicted := [];
      outcome := Ok(());
      WithoutOneMore(entries, [], "");
      var resident := ComputeResidentGb();
      if resident + info.approxRamGb <= maxResidentGb {
        return;
      }
      if !allowSwap {
        return;
      }
      ghost var start := entries;
      var evictable := SortByLastUse(set n | n in entries && !entries[n].pinned);
      outcome, evicted := EvictUntilFits(evictable, info.approxRamGb);
      PrefixLeastRecentlyUsed(start, evictable, evicted);
    }

    /** The part of `acquire` under the activation lock. */
    method AcquireLarge(info: ModelInfo, now: real, elapsed: real)
      returns (outcome: Result<(), ConfigurationError>, evicted: seq<string>)
      requires Valid() && info.logicalName in models && models[info.logicalName] == info
      requires info.logicalName !in entries && info.approxRamGb > SMALL_MODEL_GB
      modifies this`entries
      ensures Valid()
      ensures LeastRecentlyUsed(old(entries), evicted)
      ensures old(EachNeeded(models, entries, evicted, info.approxRamGb, maxResidentGb))
      ensures outcome.Err? ==> entries == Without(old(entries), evicted)
      ensures outcome.Ok? ==>
                entries == Without(old(entries), evicted)[info.logicalName := FreshEntry(info, now, elapsed)]
      ensures outcome.Ok? ==>
                Resident() == old(Charged(models, Without(entries, evicted), info))
      ensures outcome.Ok? && allowSwap ==>
                Resident() <= maxResidentGb || forall n <- entries :: n != info.logicalName ==> entries[n].pinned
    {
      outcome, evicted := MakeRoomFor(info);
      if outcome.Err? {
        return;
      }
      AddingCosts(models, entries, info.logicalName, FreshEntry(info, now, elapsed));
      AddedExactly(models, entries, info.logicalName, FreshEntry(info, now, elapsed));
      outcome := Load(info, now, elapsed);
    }

    /** The part of `acquire` for a model that is not resident. */
    method AcquireAbsent(info: ModelInfo, now: real, elapsed: real)
      returns (outcome: Result<(), ConfigurationError>, evicted: seq<string>)
      requires Valid() && info.logicalName in models && models[info.logicalName] == info
      requires info.logicalName !in entries
      modifies this`entries
      ensures Valid()
      ensures LeastRecentlyUsed(old(entries), evicted)
      ensures old(EachNeeded(models, entries, evicted, info.approxRamGb, maxResidentGb))
      ensures outcome.Err? ==> entries == Without(old(entries), evicted)
      ensures outcome.Ok? ==>
                entries == Without(old(entries), evicted)[info.logicalName := FreshEntry(info, now, elapsed)]
      ensures outcome.Ok? ==>
                Resident() == old(Charged(models, Without(entries, evicted), info))
      ensures info.approxRamGb <= 4.0 ==> evicted == []
      ensures outcome.Ok? && info.approxRamGb > 4.0 && allowSwap ==>
                Resident() <= maxResidentGb || forall n <- entries :: n != info.logicalName ==> entries[n].pinned
    {
      evicted := [];
      if info.approxRamGb <= SMALL_MODEL_GB {
        WithoutOneMore(entries, [], "");
        AddedExactly(models, entries, info.logicalName, FreshEntry(info, now, elapsed));
        outcome := Load(info, now, elapsed);
        return;
      }
      outcome, evicted := AcquireLarge(info, now, elapsed);
    }

    /** Makes a model usable now, evicting others if it is large and they must go. */
    method Acquire(name: string, now: real, elapsed: real)
      returns (outcome: Result<(), ConfigurationError>, evicted: seq<string>)
      requires Valid()
      modifies this`entries
      ensures Valid()
      ensures name !in models ==> outcome == Err(UnknownModel(name)) && entries == old(entries)
      ensures name in models && name in old(entries) ==>
                outcome.Ok? && entries == old(entries)[name := old(entries)[name].(lastUsed := now)]
      ensures LeastRecentlyUsed(old(entries), evicted)
      ensures name in models ==>
                old(EachNeeded(models, entries, evicted, models[name].approxRamGb, maxResidentGb))
      ensures outcome.Err? ==> entries == Without(old(entries), evicted)
      ensures outcome.Ok? && name !in old(entries) ==>
                entries == Without(old(entries), evicted)[name := FreshEntry(models[name], now, elapsed)]
      ensures outcome.Ok? && name !in old(entries) ==>
                && entries[name].sizeGb == models[name].approxRamGb && entries[name].pinned == models[name].pinned
                && entries[name].lastUsed == now && entries[name].loadCount == 1 && MeanLoadS(entries[name]) == elapsed
                && Resident() == old(Charged(models, Without(entries, evicted), models[name]))
      ensures outcome.Ok? ==> SwapCostS(name) == 0.0
      ensures name in models && models[name].approxRamGb <= 4.0 ==> evicted == []
      ensures outcome.Ok? && name !in old(entries) && models[name].approxRamGb > 4.0 && allowSwap ==>
                Resident() <= maxResidentGb || forall n <- entries :: n != name ==> entries[n].pinned
    {
      evicted := [];
      WithoutOneMore(entries, [], "");
      if name !in models {
        return Err(UnknownModel(name)), evicted;
      }
      var info := models[name];
      if name in entries {
        entries := entries[name := entries[name].(lastUsed := now)];
        return Ok(()), evicted;
      }
      outcome, evicted := AcquireAbsent(info, now, elapsed);
    }

    // ------------------------------------------------------------ two views

    method GroupByPhysical(order: seq<Entry>, now: real) returns (grouped: map<string, Row>)
      ensures Grouped(models, grouped, order, now)
    {
      grouped := map[];
      for i := 0 to |order|
        invariant Grouped(models, grouped, order[..i], now)
      {
        var entry := order[i];
        var physical := PhysicalOf(models, entry.logicalName);
        assert order[..i + 1] == order[..i] + [entry];
        GroupedNext(models, grouped, order[..i], entry, now);
        if physical in grouped {
          grouped := grouped[physical := Joined(grouped[physical], entry)];
        } else {
          grouped := grouped[physical := FirstRow(physical, entry, now)];
        }
      }
      assert order[..|order|] == order;
    }

    /** `list(grouped.values())`. */
    method Rows(grouped: map<string, Row>) returns (rows: seq<Row>)
      requires forall p <- grouped :: grouped[p].physicalId == p
      ensures forall i, j :: 0 <= i < j < |rows| ==> rows[i].physicalId != rows[j].physicalId
      ensures forall r <- rows :: r.physicalId in grouped && r == grouped[r.physicalId]
      ensures forall p <- grouped :: grouped[p] in rows
    {
      rows := [];
      var rest := grouped.Keys;
      while rest != {}
        invariant rest <= grouped.Keys
        invariant forall r <- rows :: r.physicalId in grouped.Keys - rest && r == grouped[r.physicalId]
        invariant forall p <- grouped.Keys - rest :: grouped[p] in rows
        invariant forall i, j :: 0 <= i < j < |rows| ==> rows[i].physicalId != rows[j].physicalId
      {
        var p :| p in rest;
        rows := rows + [grouped[p]];
        rest := rest - {p};
      }
    }

    method EntriesNewestFirst() returns (order: seq<Entry>)
      requires Valid()
      ensures NewestFirst(entries, order)
    {
      var names := SortByLastUse(entries.Keys);
      order := [];
      for i := 0 to |names|
        invariant |order| == i && forall j :: 0 <= j < i ==> order[j] == entries[names[|names| - 1 - j]]
      {
        order := order + [entries[names[|names| - 1 - i]]];
      }
      forall n | n in entries
        ensures entries[n] in order
      {
        ghost var i :| 0 <= i < |names| && names[i] == n;
        assert order[|names| - 1 - i] == entries[n];
      }
    }

    /**
     The residency meter: one row per physical model, each resident name in exactly
     one of them, and sizes that add up to the total charged against the budget.
     */
    method Snapshot(now: real) returns (rows: seq<Row>)
      requires Valid()
      ensures forall i, j :: 0 <= i < j < |rows| ==> rows[i].physicalId != rows[j].physicalId
      ensures forall n <- entries :: exists r <- rows :: r.physicalId == PhysicalOf(models, n)
      ensures forall r <- rows :: Describes(models, entries, r, now)
      ensures (forall n <- entries :: entries[n].sizeGb >= 0.0) ==> TotalGb(rows) == Resident()
    {
      var order := EntriesNewestFirst();
      var grouped := GroupByPhysical(order, now);
      forall p | p in grouped
        ensures grouped[p].physicalId == p && Describes(models, entries, grouped[p], now)
      {
        RowDescribes(models, entries, order, grouped, p, now);
      }
      rows := Rows(grouped);
      forall n | n in entries
        ensures exists r <- rows :: r.physicalId == PhysicalOf(models, n)
      {
        EveryNameGrouped(models, entries, order, grouped, n, now);
        assert grouped[PhysicalOf(models, n)] in rows;
      }
      MeterTotal(models, entries, rows, now);
    }

    /** Reconciles the ledger with what the backends that answered actually hold. */
    method SyncFromProviders(polls: Polls, now: real)
      requires Valid()
      modifies this`entries
      ensures Valid()
      ensures forall n :: n in entries <==> old(Reconciled(models, entries, polls, now, n)).Some?
      ensures forall n <- entries :: Some(entries[n]) == old(Reconciled(models, entries, polls, now, n))
      ensures forall n <- models :: models[n].provider in polls && polls[models[n].provider] != {} ==>
                (n in entries <==> models[n].physicalId in polls[models[n].provider])
      ensures forall n | n !in models || models[n].provider !in polls || polls[models[n].provider] == {} ::
                (n in entries <==> n in old(entries))
      ensures forall n <- entries :: entries[n] ==
                if n in old(entries) then old(entries)[n]
                else Entry(n, models[n].approxRamGb, false, now, 0, 0.0)
    {
      ghost var start := entries;
      var rest := models.Keys;
      while rest != {}
        invariant rest <= models.Keys && Valid()
        invariant forall n :: n in entries <==>
                    (if n in models.Keys - rest then Reconciled(models, start, polls, now, n).Some? else n in start)
        invariant forall n <- entries ::
                    Some(entries[n]) == if n in models.Keys - rest then Reconciled(models, start, polls, now, n)
                                        else Some(start[n])
      {
        var name :| name in rest;
        var info := models[name];
        if info.provider in polls && polls[info.provider] != {} {
          var resident := info.physicalId in polls[info.provider];
          if resident && name !in entries {
            entries := entries[name := Entry(name, info.approxRamGb, false, now, 0, 0.0)];
          } else if !resident && name in entries {
            entries := entries - {name};
          }
        }
        rest := rest - {name};
      }
    }
  }

  /**
   A reconciliation agrees with every backend that answered, leaves the rest of the
   ledger alone, and leaves nothing for a second one to do.
   */
  lemma ReconciliationSettles(models: Models, entries: Ledger, after: Ledger, polls: Polls, now: real, later: real,
                              n: string)
    requires forall m :: m in after <==> Reconciled(models, entries, polls, now, m).Some?
    requires forall m <- after :: Some(after[m]) == Reconciled(models, entries, polls, now, m)
    ensures n in models && Reported(polls, models[n]) ==>
              (n in after <==> models[n].physicalId in polls[models[n].provider])
    ensures n !in models || !Reported(polls, models[n]) ==>
              (n in after <==> n in entries) && (n in after ==> after[n] == entries[n])
    ensures n in entries && n in after ==> after[n] == entries[n]
    ensures n in after && n !in entries ==> !after[n].pinned && after[n].sizeGb == models[n].approxRamGb
    ensures Reconciled(models, after, polls, later, n) == if n in after then Some(after[n]) else None
  {
  }
}
