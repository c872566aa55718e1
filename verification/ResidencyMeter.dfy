/**
 The residency meter of the admin page: one row per physical model, folded from the entries
 in the order they are visited, most recently used first. Its rows are proved to describe the
 ledger, and to add up to what the ledger charges.
 */
module ResidencyMeter {
  import opened ResidencyLedger

  datatype Row = Row(logicalName: string, physicalId: string, alsoServes: seq<string>,
                     sizeGb: real, pinned: bool, idleS: real, meanLoadS: real)

  function Names(row: Row): seq<string> {
    [row.logicalName] + row.alsoServes
  }

  function FirstRow(physical: string, entry: Entry, now: real): Row {
    Row(entry.logicalName, physical, [], entry.sizeGb, entry.pinned, now - entry.lastUsed, MeanLoadS(entry))
  }

  /** The same weights under another name: the larger estimate, pinned if either is. */
  function Joined(row: Row, entry: Entry): Row {
    row.(alsoServes := row.alsoServes + [entry.logicalName], sizeGb := Max(row.sizeGb, entry.sizeGb),
         pinned := row.pinned || entry.pinned)
  }

  /** The entries among `visited` that share physical model `p`, in visiting order. */
  function Members(models: Models, visited: seq<Entry>, p: string): (m: seq<Entry>)
    ensures forall e :: e in m <==> e in visited && PhysicalOf(models, e.logicalName) == p
  {
    if visited == [] then []
    else
      var last := visited[|visited| - 1];
      Members(models, visited[..|visited| - 1], p)
      + if PhysicalOf(models, last.logicalName) == p then [last] else []
  }

  function RowOf(physical: string, members: seq<Entry>, now: real): Row
    requires members != []
  {
    var last := members[|members| - 1];
    if |members| == 1 then FirstRow(physical, last, now)
    else Joined(RowOf(physical, members[..|members| - 1], now), last)
  }

  ghost predicate Grouped(models: Models, grouped: map<string, Row>, visited: seq<Entry>, now: real) {
    forall p :: (p in grouped <==> Members(models, visited, p) != []) &&
                (p in grouped ==> grouped[p] == RowOf(p, Members(models, visited, p), now))
  }

  lemma MembersNext(models: Models, visited: seq<Entry>, entry: Entry, q: string)
    ensures Members(models, visited + [entry], q)
            == if PhysicalOf(models, entry.logicalName) == q then Members(models, visited, q) + [entry]
               else Members(models, visited, q)
  {
    assert (visited + [entry])[..|visited|] == visited;
  }

  lemma RowNext(physical: string, members: seq<Entry>, entry: Entry, now: real)
    ensures RowOf(physical, members + [entry], now)
            == if members == [] then FirstRow(physical, entry, now) else Joined(RowOf(physical, members, now), entry)
  {
    assert (members + [entry])[..|members|] == members;
  }

  lemma GroupedNext(models: Models, grouped: map<string, Row>, visited: seq<Entry>, entry: Entry, now: real)
    requires Grouped(models, grouped, visited, now)
    ensures var p := PhysicalOf(models, entry.logicalName);
            var row := if p in grouped then Joined(grouped[p], entry) else FirstRow(p, entry, now);
            Grouped(models, grouped[p := row], visited + [entry], now)
  {
    var p := PhysicalOf(models, entry.logicalName);
    var row := if p in grouped then Joined(grouped[p], entry) else FirstRow(p, entry, now);
    RowNext(p, Members(models, visited, p), entry, now);
    forall q
      ensures (q in grouped[p := row] <==> Members(models, visited + [entry], q) != [])
      ensures q in grouped[p := row] ==> grouped[p := row][q] == RowOf(q, Members(models, visited + [entry], q), now)
    {
      MembersNext(models, visited, entry, q);
    }
  }

  // ---------------------------------------------------------- what a row says

  lemma {:induction false} RowLists(physical: string, members: seq<Entry>, now: real)
    requires members != []
    ensures var row := RowOf(physical, members, now);
            && row.physicalId == physical && row.idleS == now - members[0].lastUsed
            && row.meanLoadS == MeanLoadS(members[0])
            && |Names(row)| == |members|
            && (forall i :: 0 <= i < |members| ==> Names(row)[i] == members[i].logicalName)
  {
    if |members| > 1 {
      RowLists(physical, members[..|members| - 1], now);
    }
  }

  /** A size no member exceeds and some member has. */
  predicate IsLargest(members: seq<Entry>, size: real) {
    && (forall e <- members :: e.sizeGb <= size)
    && (exists e <- members :: e.sizeGb == size)
  }

  predicate AnyPinned(members: seq<Entry>) {
    exists e <- members :: e.pinned
  }

  lemma OneMoreMember(init: seq<Entry>, last: Entry)
    ensures AnyPinned(init + [last]) <==> AnyPinned(init) || last.pinned
    ensures forall size :: IsLargest(init, size) ==> IsLargest(init + [last], Max(size, last.sizeGb))
  {
    var all := init + [last];
    assert all[|init|] == last && last in all;
    assert forall e <- init :: e in all;
  }

  lemma {:induction false} RowSummarises(physical: string, members: seq<Entry>, now: real)
    requires members != []
    ensures var row := RowOf(physical, members, now);
            (row.pinned <==> AnyPinned(members)) && IsLargest(members, row.sizeGb)
  {
    var init := members[..|members| - 1];
    var last := members[|members| - 1];
    assert members == init + [last];
    if init == [] {
      assert last in members;
    } else {
      RowSummarises(physical, init, now);
      OneMoreMember(init, last);
    }
  }

  /** Distinct names, most recently used first. */
  predicate Descending(order: seq<Entry>) {
    forall i, j :: 0 <= i < j < |order| ==>
      order[i].logicalName != order[j].logicalName && order[i].lastUsed >= order[j].lastUsed
  }

  predicate NewestFirst(entries: Ledger, order: seq<Entry>) {
    && (forall n <- entries :: entries[n] in order)
    && (forall e <- order :: e.logicalName in entries && entries[e.logicalName] == e)
    && Descending(order)
  }

  lemma {:induction false} MembersKeepOrder(models: Models, order: seq<Entry>, p: string)
    requires Descending(order)
    ensures Descending(Members(models, order, p))
  {
    if order != [] {
      var init := order[..|order| - 1];
      var last := order[|order| - 1];
      var m := Members(models, init, p);
      MembersKeepOrder(models, init, p);
      forall e | e in m
        ensures e.logicalName != last.logicalName && e.lastUsed >= last.lastUsed
      {
        var k :| 0 <= k < |init| && init[k] == e;
        assert order[k] == e;
      }
      AppendKeepsOrder(m, last);
    }
  }

  lemma AppendKeepsOrder(m: seq<Entry>, last: Entry)
    requires Descending(m)
    requires forall e <- m :: e.logicalName != last.logicalName && e.lastUsed >= last.lastUsed
    ensures Descending(m + [last]) && m + [] == m
  {
    assert forall i :: 0 <= i < |m| ==> m[i] in m;
  }

  /** `row` lists the names of its physical model, once each. */
  ghost predicate ListsAliases(models: Models, entries: Ledger, row: Row) {
    && (forall n :: n in Names(row) <==> n in Aliases(models, entries, row.physicalId))
    && (forall i, j :: 0 <= i < j < |Names(row)| ==> Names(row)[i] != Names(row)[j])
  }

  /** A row goes by its most recently used name, and shows how long that has been idle and took to load. */
  ghost predicate DescribesNewest(entries: Ledger, aliases: set<string>, row: Row, now: real)
    requires aliases <= entries.Keys
  {
    && row.logicalName in aliases
    && row.idleS == now - entries[row.logicalName].lastUsed && row.meanLoadS == MeanLoadS(entries[row.logicalName])
    && forall n <- aliases :: entries[n].lastUsed <= entries[row.logicalName].lastUsed
  }

  /** `row` is what the ledger holds on its physical model. */
  ghost predicate Describes(models: Models, entries: Ledger, row: Row, now: real) {
    var aliases := Aliases(models, entries, row.physicalId);
    && aliases != {} && ListsAliases(models, entries, row)
    && (row.pinned <==> exists n <- aliases :: entries[n].pinned)
    && DescribesNewest(entries, aliases, row, now)
    && ((forall n <- entries :: entries[n].sizeGb >= 0.0) ==> row.sizeGb == Charge(models, entries, row.physicalId))
  }

  lemma NamesAreAliases(models: Models, entries: Ledger, order: seq<Entry>, p: string, now: real)
    requires NewestFirst(entries, order) && forall n <- entries :: entries[n].logicalName == n
    requires Members(models, order, p) != []
    ensures var row := RowOf(p, Members(models, order, p), now);
            row.physicalId == p && ListsAliases(models, entries, row)
  {
    var members := Members(models, order, p);
    var row := RowOf(p, members, now);
    RowLists(p, members, now);
    MembersKeepOrder(models, order, p);
    AliasesAreMembers(models, entries, order, p);
    forall n | n in Names(row)
      ensures n in Aliases(models, entries, p)
    {
      var i :| 0 <= i < |members| && Names(row)[i] == n;
      assert members[i] in members;
    }
    forall n | n in Aliases(models, entries, p)
      ensures n in Names(row)
    {
      var i :| 0 <= i < |members| && members[i] == entries[n];
      assert Names(row)[i] == n;
    }
  }

  lemma RowDescribes(models: Models, entries: Ledger, order: seq<Entry>, grouped: map<string, Row>, p: string,
                     now: real)
    requires NewestFirst(entries, order) && Grouped(models, grouped, order, now) && p in grouped
    requires forall n <- entries :: entries[n].logicalName == n
    ensures grouped[p].physicalId == p && Describes(models, entries, grouped[p], now)
  {
    var members := Members(models, order, p);
    var aliases := Aliases(models, entries, p);
    var row := RowOf(p, members, now);
    assert row == grouped[p];
    NamesAreAliases(models, entries, order, p, now);
    AliasesAreMembers(models, entries, order, p);
    RowLists(p, members, now);
    RowSummarises(p, members, now);
    MembersKeepOrder(models, order, p);
    assert members[0] in members && forall e <- members :: e.lastUsed <= members[0].lastUsed;
    assert Names(row)[0] == members[0].logicalName;
    SizeIsCharge(models, entries, members, p, row.sizeGb);
  }

  lemma SizeIsCharge(models: Models, entries: Ledger, members: seq<Entry>, p: string, size: real)
    requires forall e <- members :: e.logicalName in Aliases(models, entries, p) && entries[e.logicalName] == e
    requires forall n <- Aliases(models, entries, p) :: entries[n] in members
    requires IsLargest(members, size)
    ensures (forall n <- entries :: entries[n].sizeGb >= 0.0) ==> size == Charge(models, entries, p)
  {
    var top :| top in members && top.sizeGb == size;
    if forall n <- entries :: entries[n].sizeGb >= 0.0 {
      assert entries[top.logicalName].sizeGb == size;
      LargestIs(entries, Aliases(models, entries, p), size);
    }
  }

  lemma AliasesAreMembers(models: Models, entries: Ledger, order: seq<Entry>, p: string)
    requires NewestFirst(entries, order) && forall n <- entries :: entries[n].logicalName == n
    ensures forall n <- Aliases(models, entries, p) :: entries[n] in Members(models, order, p)
    ensures forall e <- Members(models, order, p) ::
              e.logicalName in Aliases(models, entries, p) && entries[e.logicalName] == e
  {
  }

  lemma EveryNameGrouped(models: Models, entries: Ledger, order: seq<Entry>, grouped: map<string, Row>, n: string,
                         now: real)
    requires NewestFirst(entries, order) && Grouped(models, grouped, order, now)
    requires n in entries && entries[n].logicalName == n
    ensures PhysicalOf(models, n) in grouped
  {
    assert entries[n] in Members(models, order, PhysicalOf(models, n));
  }

  // ------------------------------------------------------------- and the total

  function TotalGb(rows: seq<Row>): real {
    if rows == [] then 0.0 else TotalGb(rows[..|rows| - 1]) + rows[|rows| - 1].sizeGb
  }

  /** The rows carry each key of `m` once, at its value. */
  predicate Carry(rows: seq<Row>, m: map<string, real>) {
    && (forall i, j :: 0 <= i < j < |rows| ==> rows[i].physicalId != rows[j].physicalId)
    && (forall i :: 0 <= i < |rows| ==> rows[i].physicalId in m && m[rows[i].physicalId] == rows[i].sizeGb)
    && (forall k <- m :: exists i :: 0 <= i < |rows| && rows[i].physicalId == k)
  }

  lemma CarryInit(rows: seq<Row>, m: map<string, real>)
    requires rows != [] && Carry(rows, m)
    ensures Carry(rows[..|rows| - 1], m - {rows[|rows| - 1].physicalId})
  {
    var init, last := rows[..|rows| - 1], rows[|rows| - 1];
    forall k | k in m && k != last.physicalId
      ensures exists i :: 0 <= i < |init| && init[i].physicalId == k
    {
      var i :| 0 <= i < |rows| && rows[i].physicalId == k;
      assert init[i].physicalId == k;
    }
  }

  lemma {:induction false} RowsTotalSum(rows: seq<Row>, m: map<string, real>)
    requires Carry(rows, m)
    ensures TotalGb(rows) == Sum(m)
  {
    if rows == [] {
      assert m == map[];
    } else {
      var last := rows[|rows| - 1];
      SumTake(m, last.physicalId);
      CarryInit(rows, m);
      RowsTotalSum(rows[..|rows| - 1], m - {last.physicalId});
    }
  }

  lemma RowsCarryCharges(models: Models, entries: Ledger, rows: seq<Row>, now: real)
    requires forall i, j :: 0 <= i < j < |rows| ==> rows[i].physicalId != rows[j].physicalId
    requires forall n <- entries :: exists r <- rows :: r.physicalId == PhysicalOf(models, n)
    requires forall r <- rows :: Describes(models, entries, r, now)
    requires forall n <- entries :: entries[n].sizeGb >= 0.0
    ensures Carry(rows, Charges(models, entries))
  {
    forall i | 0 <= i < |rows|
      ensures rows[i].physicalId in Physicals(models, entries)
      ensures rows[i].sizeGb == Charge(models, entries, rows[i].physicalId)
    {
      assert rows[i] in rows;
      NoAliasesNoCharge(models, entries, rows[i].physicalId);
    }
    forall p | p in Physicals(models, entries)
      ensures exists i :: 0 <= i < |rows| && rows[i].physicalId == p
    {
      var n :| n in entries && PhysicalOf(models, n) == p;
      var r :| r in rows && r.physicalId == p;
    }
  }

  lemma MeterTotal(models: Models, entries: Ledger, rows: seq<Row>, now: real)
    requires forall i, j :: 0 <= i < j < |rows| ==> rows[i].physicalId != rows[j].physicalId
    requires forall n <- entries :: exists r <- rows :: r.physicalId == PhysicalOf(models, n)
    requires forall r <- rows :: Describes(models, entries, r, now)
    ensures (forall n <- entries :: entries[n].sizeGb >= 0.0) ==> TotalGb(rows) == ResidentGb(models, entries)
  {
    if forall n <- entries :: entries[n].sizeGb >= 0.0 {
      RowsCarryCharges(models, entries, rows, now);
      RowsTotalSum(rows, Charges(models, entries));
    }
  }
}
