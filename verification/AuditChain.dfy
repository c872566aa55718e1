/** The hash-chained audit log: appending, verifying whole or in windows, and what verification notices. */
module AuditChain {
  import opened Option

  // The hash is a parameter: any function that never gives two inputs one digest, and never gives
  // the digest reserved for "no predecessor" or the empty string.

  /** What a row's digest commits to. Roles are sorted before hashing, so only which roles, and how often. */
  datatype Payload = Payload(seqNo: nat, fields: string, roles: multiset<string>)

  /** A stored row. `aside` stands for the columns no digest covers: address, agent, latency, tokens, request. */
  datatype Row = Row(seqNo: nat, fields: string, roles: seq<string>, aside: string, prev: string, hash: string)

  type ChainHash = (Payload, string) -> string

  const GENESIS_HASH: string := Zeros(64)

  function Zeros(n: nat): string {
    if n == 0 then "" else Zeros(n - 1) + "0"
  }

  function Digest(h: ChainHash, payload: Payload, prev: string): string {
    h(payload, prev)
  }

  ghost predicate Injective(h: ChainHash) {
    forall p: Payload, q: string, p2: Payload, q2: string ::
      Digest(h, p, q) == Digest(h, p2, q2) ==> p == p2 && q == q2
  }

  ghost predicate Ideal(h: ChainHash) {
    Injective(h) && forall p: Payload, q: string :: Digest(h, p, q) != GENESIS_HASH && Digest(h, p, q) != ""
  }

  function PayloadOf(r: Row): Payload {
    Payload(r.seqNo, r.fields, multiset(r.roles))
  }

  function OrGenesis(hash: string): string {
    if hash == "" then GENESIS_HASH else hash
  }

  /** The digest a successor of these rows must name. */
  function LastHash(rows: seq<Row>): string {
    if rows == [] then GENESIS_HASH else OrGenesis(rows[|rows| - 1].hash)
  }

  // ------------------------------------------------------------ verification

  /** The digest row `i` is expected to name as its predecessor. */
  function Expected(rows: seq<Row>, first: string, i: nat): string
    requires i < |rows|
  {
    if i == 0 then first else rows[i - 1].hash
  }

  predicate Holds(h: ChainHash, rows: seq<Row>, first: string, i: nat)
    requires i < |rows|
  {
    rows[i].prev == Expected(rows, first, i) && rows[i].hash == Digest(h, PayloadOf(rows[i]), rows[i].prev)
  }

  /** Every row names its predecessor's digest and hashes to its own. */
  predicate Chain(h: ChainHash, rows: seq<Row>, first: string) {
    forall i :: 0 <= i < |rows| ==> Holds(h, rows, first, i)
  }

  datatype Report = Report(valid: bool, eventsChecked: nat, firstInvalid: Option<nat>)

  /** A report names the first row that does not hold, and counts the rows before it. */
  predicate Reports(h: ChainHash, rows: seq<Row>, first: string, report: Report) {
    && report.eventsChecked <= |rows|
    && (forall i :: 0 <= i < report.eventsChecked ==> Holds(h, rows, first, i))
    && (report.valid <==> report.eventsChecked == |rows|)
    && (report.valid ==> report.firstInvalid == None)
    && (!report.valid ==> && !Holds(h, rows, first, report.eventsChecked)
                          && report.firstInvalid == Some(rows[report.eventsChecked].seqNo))
  }

  /** The table in the order every query reads it. */
  predicate InOrder(rows: seq<Row>) {
    && (forall i :: 0 <= i < |rows| ==> rows[i].seqNo > 0)
    && (forall i, j :: 0 <= i < j < |rows| ==> rows[i].seqNo < rows[j].seqNo)
  }

  /** How many rows have a sequence number up to `start`. */
  function CountUpTo(rows: seq<Row>, start: nat): (n: nat)
    ensures n <= |rows|
  {
    if rows == [] then 0
    else CountUpTo(rows[..|rows| - 1], start) + if rows[|rows| - 1].seqNo <= start then 1 else 0
  }

  /** In an ordered table, those rows are the first ones. */
  lemma {:induction false} CountSplits(rows: seq<Row>, start: nat)
    requires InOrder(rows)
    ensures forall i :: 0 <= i < |rows| ==> (i < CountUpTo(rows, start) <==> rows[i].seqNo <= start)
  {
    if rows != [] {
      var init := rows[..|rows| - 1];
      CountSplits(init, start);
      assert forall i :: 0 <= i < |init| ==> rows[i] == init[i];
    }
  }

  function Take(rows: seq<Row>, limit: Option<nat>): seq<Row> {
    if limit.None? || limit.value == 0 || limit.value >= |rows| then rows else rows[..limit.value]
  }

  function Window(rows: seq<Row>, start: nat, limit: Option<nat>): seq<Row> {
    Take(rows[CountUpTo(rows, start)..], limit)
  }

  function Prior(rows: seq<Row>, start: nat): string {
    if start == 0 then GENESIS_HASH else LastHash(rows[..CountUpTo(rows, start)])
  }

  /** Walks a window of the table, and stops at the first break. */
  method VerifyChain(h: ChainHash, rows: seq<Row>, start: nat, limit: Option<nat>) returns (report: Report)
    ensures Reports(h, Window(rows, start, limit), Prior(rows, start), report)
  {
    var events := Window(rows, start, limit);
    if events == [] {
      return Report(true, 0, None);
    }
    var first := Prior(rows, start);
    var expected := first;
    for i := 0 to |events|
      invariant expected == if i == 0 then first else events[i - 1].hash
      invariant forall k :: 0 <= k < i ==> Holds(h, events, first, k)
    {
      var event := events[i];
      if event.prev != expected {
        return Report(false, i, Some(event.seqNo));
      }
      var recomputed := Digest(h, PayloadOf(event), event.prev);
      if recomputed != event.hash {
        return Report(false, i, Some(event.seqNo));
      }
      expected := event.hash;
    }
    report := Report(true, |events|, None);
  }

  /** There is only one report of a window, and it says valid exactly when the window is a chain. */
  lemma ReportIsUnique(h: ChainHash, rows: seq<Row>, first: string, a: Report, b: Report)
    requires Reports(h, rows, first, a) && Reports(h, rows, first, b)
    ensures a == b && (a.valid <==> Chain(h, rows, first))
  {
  }

  /**
   Verifying what is up to a sequence number, and then the window that starts there, gives
   the report of the whole table.
   */
  lemma WindowsCompose(h: ChainHash, rows: seq<Row>, start: nat, head: Report, tail: Report)
    requires Ideal(h) && InOrder(rows) && 0 < CountUpTo(rows, start)
    requires Reports(h, Window(rows, 0, Some(CountUpTo(rows, start))), Prior(rows, 0), head)
    requires Reports(h, Window(rows, start, None), Prior(rows, start), tail)
    ensures Reports(h, Window(rows, 0, None), Prior(rows, 0),
                    if head.valid then tail.(eventsChecked := head.eventsChecked + tail.eventsChecked) else head)
  {
    WindowCut(rows, start);
    PartsCompose(h, rows, CountUpTo(rows, start), head, tail);
  }

  lemma PartsCompose(h: ChainHash, rows: seq<Row>, n: nat, head: Report, tail: Report)
    requires Ideal(h) && 0 < n <= |rows|
    requires Reports(h, rows[..n], GENESIS_HASH, head) && Reports(h, rows[n..], LastHash(rows[..n]), tail)
    ensures Reports(h, rows, GENESIS_HASH,
                    if head.valid then tail.(eventsChecked := head.eventsChecked + tail.eventsChecked) else head)
  {
    if head.valid {
      assert Chain(h, rows[..n], GENESIS_HASH);
      PrefixHash(h, rows[..n]);
      TailReport(h, rows, n, tail);
    } else {
      HeadReport(h, rows, n, head);
    }
  }

  lemma WindowCut(rows: seq<Row>, start: nat)
    requires InOrder(rows) && 0 < CountUpTo(rows, start)
    ensures var n := CountUpTo(rows, start);
            && Window(rows, 0, None) == rows && Window(rows, 0, Some(n)) == rows[..n]
            && Window(rows, start, None) == rows[n..]
            && Prior(rows, 0) == GENESIS_HASH && Prior(rows, start) == LastHash(rows[..n])
  {
    CountSplits(rows, 0);
    CountSplits(rows, start);
    assert rows[0].seqNo > 0 && CountUpTo(rows, 0) == 0;
    assert rows[0..] == rows && rows[..|rows|] == rows;
  }

  lemma HeadReport(h: ChainHash, rows: seq<Row>, n: nat, head: Report)
    requires n <= |rows| && Reports(h, rows[..n], GENESIS_HASH, head) && !head.valid
    ensures Reports(h, rows, GENESIS_HASH, head)
  {
    HeadHolds(h, rows, n);
  }

  lemma TailReport(h: ChainHash, rows: seq<Row>, n: nat, tail: Report)
    requires 0 < n <= |rows| && Chain(h, rows[..n], GENESIS_HASH)
    requires Reports(h, rows[n..], rows[n - 1].hash, tail)
    ensures Reports(h, rows, GENESIS_HASH, tail.(eventsChecked := n + tail.eventsChecked))
  {
    HeadHolds(h, rows, n);
    TailHolds(h, rows, n);
    forall i | 0 <= i < n + tail.eventsChecked
      ensures Holds(h, rows, GENESIS_HASH, i)
    {
      if i < n {
        assert Holds(h, rows[..n], GENESIS_HASH, i);
      } else {
        assert Holds(h, rows[n..], rows[n - 1].hash, i - n);
      }
    }
  }

  lemma HeadHolds(h: ChainHash, rows: seq<Row>, n: nat)
    requires n <= |rows|
    ensures forall i :: 0 <= i < n ==> (Holds(h, rows, GENESIS_HASH, i) <==> Holds(h, rows[..n], GENESIS_HASH, i))
  {
  }

  lemma TailHolds(h: ChainHash, rows: seq<Row>, n: nat)
    requires 0 < n <= |rows|
    ensures forall i :: n <= i < |rows| ==>
              (Holds(h, rows, GENESIS_HASH, i) <==> Holds(h, rows[n..], rows[n - 1].hash, i - n))
  {
  }

  // ------------------------------------------------- what the last hash fixes

  lemma ChainPrefix(h: ChainHash, rows: seq<Row>, n: nat)
    requires n <= |rows| && Chain(h, rows, GENESIS_HASH)
    ensures Chain(h, rows[..n], GENESIS_HASH)
  {
    HeadHolds(h, rows, n);
  }

  /** The columns a digest covers, and the two digests themselves. */
  predicate SameCommitted(a: Row, b: Row) {
    PayloadOf(a) == PayloadOf(b) && a.prev == b.prev && a.hash == b.hash
  }

  predicate AllSameCommitted(a: seq<Row>, b: seq<Row>) {
    |a| == |b| && forall i :: 0 <= i < |a| ==> SameCommitted(a[i], b[i])
  }

  /**
   A verified chain is determined by its last digest, but for the columns no digest covers.
   */
  lemma {:induction false} LastHashDetermines(h: ChainHash, a: seq<Row>, b: seq<Row>)
    requires Ideal(h) && Chain(h, a, GENESIS_HASH) && Chain(h, b, GENESIS_HASH)
    requires LastHash(a) == LastHash(b)
    ensures AllSameCommitted(a, b)
    decreases |a|
  {
    if a == [] || b == [] {
      EmptyByHash(h, a);
      EmptyByHash(h, b);
    } else {
      var i, j := |a| - 1, |b| - 1;
      assert Holds(h, a, GENESIS_HASH, i) && Holds(h, b, GENESIS_HASH, j);
      ChainPrefix(h, a, i);
      ChainPrefix(h, b, j);
      PrefixHash(h, a);
      PrefixHash(h, b);
      LastHashDetermines(h, a[..i], b[..j]);
      assert forall k :: 0 <= k < i ==> SameCommitted(a[..i][k], b[..j][k]);
    }
  }

  lemma EmptyByHash(h: ChainHash, rows: seq<Row>)
    requires Ideal(h) && Chain(h, rows, GENESIS_HASH)
    ensures rows == [] <==> LastHash(rows) == GENESIS_HASH
  {
    if rows != [] {
      assert Holds(h, rows, GENESIS_HASH, |rows| - 1);
    }
  }

  lemma PrefixHash(h: ChainHash, rows: seq<Row>)
    requires Ideal(h) && Chain(h, rows, GENESIS_HASH) && rows != []
    ensures rows[|rows| - 1].prev == LastHash(rows[..|rows| - 1])
    ensures LastHash(rows) == rows[|rows| - 1].hash
  {
    var n := |rows| - 1;
    assert Holds(h, rows, GENESIS_HASH, n);
    if n > 0 {
      assert Holds(h, rows, GENESIS_HASH, n - 1);
    }
  }

  /** No two prefixes of a chain end in one digest. */
  lemma DigestsDiffer(h: ChainHash, rows: seq<Row>, m: nat, n: nat)
    requires Ideal(h) && Chain(h, rows, GENESIS_HASH) && m <= |rows| && n <= |rows|
    ensures LastHash(rows[..m]) == LastHash(rows[..n]) <==> m == n
  {
    if LastHash(rows[..m]) == LastHash(rows[..n]) {
      ChainPrefix(h, rows, m);
      ChainPrefix(h, rows, n);
      LastHashDetermines(h, rows[..m], rows[..n]);
    }
  }

  // ------------------------------------------------------ what tampering does

  /**
   Changing a row and leaving its digests alone is noticed exactly when a covered column
   changed, and is reported at that row.
   */
  lemma EditIsNoticed(h: ChainHash, rows: seq<Row>, i: nat, edited: Row)
    requires Ideal(h) && Chain(h, rows, GENESIS_HASH) && i < |rows|
    requires edited.prev == rows[i].prev && edited.hash == rows[i].hash
    ensures Chain(h, rows[i := edited], GENESIS_HASH) <==> PayloadOf(edited) == PayloadOf(rows[i])
    ensures PayloadOf(edited) != PayloadOf(rows[i])
            ==> Reports(h, rows[i := edited], GENESIS_HASH, Report(false, i, Some(edited.seqNo)))
  {
    var after := rows[i := edited];
    assert Holds(h, rows, GENESIS_HASH, i);
    forall k | 0 <= k < |rows| && k != i
      ensures Holds(h, after, GENESIS_HASH, k)
    {
      assert Holds(h, rows, GENESIS_HASH, k);
    }
    assert Holds(h, after, GENESIS_HASH, i) <==> PayloadOf(edited) == PayloadOf(rows[i]);
  }

  /**
   Taking rows out of the middle is noticed, at the row that follows them; taking them off
   the end is not, since nothing says how long the log should be.
   */
  lemma DeletionIsNoticed(h: ChainHash, rows: seq<Row>, i: nat, j: nat)
    requires Ideal(h) && Chain(h, rows, GENESIS_HASH) && i <= j <= |rows|
    ensures Chain(h, rows[..i] + rows[j..], GENESIS_HASH) <==> i == j || j == |rows|
    ensures i < j < |rows|
            ==> Reports(h, rows[..i] + rows[j..], GENESIS_HASH, Report(false, i, Some(rows[j].seqNo)))
  {
    var left := rows[..i] + rows[j..];
    if i == j {
      assert left == rows;
    } else if j == |rows| {
      assert left == rows[..i];
      ChainPrefix(h, rows, i);
    } else {
      assert left[..i] == rows[..i] && left[i] == rows[j];
      HeadHolds(h, rows, i);
      HeadHolds(h, left, i);
      BreakAfterGap(h, rows, i, j);
    }
  }

  lemma BreakAfterGap(h: ChainHash, rows: seq<Row>, i: nat, j: nat)
    requires Ideal(h) && Chain(h, rows, GENESIS_HASH) && i < j < |rows|
    ensures !Holds(h, rows[..i] + rows[j..], GENESIS_HASH, i)
  {
    var left := rows[..i] + rows[j..];
    DigestsDiffer(h, rows, i, j);
    PrevIsLast(h, rows, j);
    assert left[i] == rows[j];
    if i > 0 {
      ChainPrefix(h, rows, i);
      PrefixHash(h, rows[..i]);
      assert left[i - 1] == rows[i - 1];
    }
  }

  lemma PrevIsLast(h: ChainHash, rows: seq<Row>, j: nat)
    requires Ideal(h) && Chain(h, rows, GENESIS_HASH) && j < |rows|
    ensures rows[j].prev == LastHash(rows[..j])
  {
    ChainPrefix(h, rows, j + 1);
    PrefixHash(h, rows[..j + 1]);
    assert rows[..j + 1][..j] == rows[..j];
  }

  // ---------------------------------------------------------------- appending

  /** A new row, made by a writer that sees the first `seen` rows of the log. */
  function Logged(h: ChainHash, rows: seq<Row>, seen: nat, seqNo: nat, fields: string, roles: seq<string>,
                  aside: string): Row
    requires seen <= |rows|
  {
    var prev := LastHash(rows[..seen]);
    Row(seqNo, fields, roles, aside, prev, Digest(h, Payload(seqNo, fields, multiset(roles)), prev))
  }

  /**
   Appending keeps the chain exactly when the writer saw the row it comes after. The lock
   around `log` is released before the transaction commits, so that is not automatic.
   */
  lemma AppendKeepsChain(h: ChainHash, rows: seq<Row>, seen: nat, seqNo: nat, fields: string, roles: seq<string>,
                         aside: string)
    requires Ideal(h) && Chain(h, rows, GENESIS_HASH) && seen <= |rows|
    ensures Chain(h, rows + [Logged(h, rows, seen, seqNo, fields, roles, aside)], GENESIS_HASH) <==> seen == |rows|
  {
    assert rows[..|rows|] == rows;
    DigestsDiffer(h, rows, seen, |rows|);
    ExtendsIffLinked(h, rows, Logged(h, rows, seen, seqNo, fields, roles, aside));
  }

  /** A row that hashes to its own digest extends a chain exactly when it names the last one. */
  lemma ExtendsIffLinked(h: ChainHash, rows: seq<Row>, row: Row)
    requires Ideal(h) && Chain(h, rows, GENESIS_HASH) && row.hash == Digest(h, PayloadOf(row), row.prev)
    ensures Chain(h, rows + [row], GENESIS_HASH) <==> row.prev == LastHash(rows)
  {
    var n := |rows|;
    assert (rows + [row])[..n] == rows;
    HeadHolds(h, rows + [row], n);
    if n > 0 {
      PrefixHash(h, rows);
    }
    assert Holds(h, rows + [row], GENESIS_HASH, n) <==> row.prev == LastHash(rows);
  }

  /**
   A request that has logged but not committed, and an event recorded meanwhile on a
   connection of its own: if the request then commits, the chain is broken at the second
   row; if it rolls back, the chain stands.
   */
  lemma DurableInsideRequest(h: ChainHash, rows: seq<Row>, pending: Row, durable: Row)
    requires Ideal(h) && Chain(h, rows, GENESIS_HASH)
    requires pending == Logged(h, rows, |rows|, pending.seqNo, pending.fields, pending.roles, pending.aside)
    requires durable == Logged(h, rows, |rows|, durable.seqNo, durable.fields, durable.roles, durable.aside)
    ensures Reports(h, rows + [pending, durable], GENESIS_HASH, Report(false, |rows| + 1, Some(durable.seqNo)))
    ensures Chain(h, rows + [durable], GENESIS_HASH)
  {
    var n := |rows|;
    AppendKeepsChain(h, rows, n, durable.seqNo, durable.fields, durable.roles, durable.aside);
    AppendKeepsChain(h, rows, n, pending.seqNo, pending.fields, pending.roles, pending.aside);
    var all := rows + [pending];
    assert all[..n] == rows && rows[..n] == rows && rows + [pending, durable] == all + [durable];
    assert durable == Logged(h, all, n, durable.seqNo, durable.fields, durable.roles, durable.aside);
    HeadHolds(h, all + [durable], n + 1);
    assert (all + [durable])[..n + 1] == all;
    DigestsDiffer(h, all, n, n + 1);
    PrevIsLast(h, all, n);
    PrefixHash(h, all);
    assert all[..n + 1] == all;
    assert !Holds(h, all + [durable], GENESIS_HASH, n + 1);
  }

  class AuditLog {
    var rows: seq<Row>
    var lastSeq: nat

    ghost predicate Valid()
      reads this
    {
      InOrder(rows) && forall i :: 0 <= i < |rows| ==> rows[i].seqNo <= lastSeq
    }

    constructor ()
      ensures Valid() && rows == []
    {
      rows, lastSeq := [], 0;
    }

    /**
     Appends one event; `seen` is how much of the log the writer's transaction can read, and
     `lost` how many numbers went to transactions rolled back since the last event.
     */
    method Log(h: ChainHash, seen: nat, lost: nat, fields: string, roles: seq<string>,
               aside: string) returns (event: Row)
      requires Valid() && seen <= |rows|
      modifies this
      ensures Valid() && event.seqNo == lastSeq == old(lastSeq) + lost + 1
      ensures event == Logged(h, old(rows), seen, event.seqNo, fields, roles, aside) && rows == old(rows) + [event]
      ensures Ideal(h) && Chain(h, old(rows), GENESIS_HASH) ==> (Chain(h, rows, GENESIS_HASH) <==> seen == |old(rows)|)
    {
      lastSeq := lastSeq + lost + 1;
      var prev := LastHash(rows[..seen]);
      event := Row(lastSeq, fields, roles, aside, prev, Digest(h, Payload(lastSeq, fields, multiset(roles)), prev));
      ghost var before := rows;
      rows := rows + [event];
      if Ideal(h) && Chain(h, before, GENESIS_HASH) {
        AppendKeepsChain(h, before, seen, lastSeq, fields, roles, aside);
      }
    }
  }

  // ---------------------------------------------------- such a hash there is

  /** `s` so written that what comes after it cannot be taken for part of it. */
  function Marked(s: string): string {
    if s == "" then "." else "," + [s[0]] + Marked(s[1..])
  }

  lemma {:induction false} MarkedEnds(a: string, after: string, b: string, later: string)
    requires Marked(a) + after == Marked(b) + later
    ensures a == b && after == later
  {
    var left, right := Marked(a) + after, Marked(b) + later;
    assert left[0] == Marked(a)[0] && right[0] == Marked(b)[0];
    if a == "" {
      assert b == "";
      assert left[1..] == after && right[1..] == later;
    } else {
      assert b != "";
      assert left[1] == a[0] && right[1] == b[0];
      assert left[2..] == Marked(a[1..]) + after && right[2..] == Marked(b[1..]) + later;
      MarkedEnds(a[1..], after, b[1..], later);
    }
  }

  function MarkedAll(parts: seq<string>): string {
    if parts == [] then "." else "," + Marked(parts[0]) + MarkedAll(parts[1..])
  }

  lemma MarkedHead(parts: seq<string>)
    ensures MarkedAll(parts)[0] == if parts == [] then '.' else ','
    ensures parts != [] ==> MarkedAll(parts)[1..] == Marked(parts[0]) + MarkedAll(parts[1..])
  {
  }

  lemma {:induction false} MarkedAllDiffer(a: seq<string>, b: seq<string>)
    requires MarkedAll(a) == MarkedAll(b)
    ensures a == b
  {
    MarkedHead(a);
    MarkedHead(b);
    if a != [] {
      MarkedEnds(a[0], MarkedAll(a[1..]), b[0], MarkedAll(b[1..]));
      MarkedAllDiffer(a[1..], b[1..]);
      assert a == [a[0]] + a[1..] && b == [b[0]] + b[1..];
    }
  }

  /** The members of a multiset, in some order. */
  ghost function Listed(m: multiset<string>): (r: seq<string>)
    ensures multiset(r) == m
  {
    if m == multiset{} then []
    else
      var x :| x in m;
      [x] + Listed(m - multiset{x})
  }

  ghost function Written(p: Payload, prev: string): string {
    "," + (Marked(Zeros(p.seqNo)) + (Marked(p.fields) + (Marked(prev) + MarkedAll(Listed(p.roles)))))
  }

  lemma {:induction false} ZerosCount(n: nat)
    ensures |Zeros(n)| == n && (n > 0 ==> Zeros(n)[0] == '0')
  {
    if n > 0 {
      ZerosCount(n - 1);
    }
  }

  lemma WrittenDiffer(p: Payload, prev: string, p2: Payload, prev2: string)
    requires Written(p, prev) == Written(p2, prev2)
    ensures p == p2 && prev == prev2
  {
    var c, c2 := Marked(prev) + MarkedAll(Listed(p.roles)), Marked(prev2) + MarkedAll(Listed(p2.roles));
    var b, b2 := Marked(p.fields) + c, Marked(p2.fields) + c2;
    var a, a2 := Marked(Zeros(p.seqNo)) + b, Marked(Zeros(p2.seqNo)) + b2;
    assert a == Written(p, prev)[1..] && a2 == Written(p2, prev2)[1..];
    MarkedEnds(Zeros(p.seqNo), b, Zeros(p2.seqNo), b2);
    MarkedEnds(p.fields, c, p2.fields, c2);
    MarkedEnds(prev, MarkedAll(Listed(p.roles)), prev2, MarkedAll(Listed(p2.roles)));
    MarkedAllDiffer(Listed(p.roles), Listed(p2.roles));
    ZerosCount(p.seqNo);
    ZerosCount(p2.seqNo);
  }

  lemma WrittenIsNoGenesis(p: Payload, prev: string)
    ensures Written(p, prev) != GENESIS_HASH && Written(p, prev) != ""
  {
    ZerosCount(64);
    assert Written(p, prev)[0] == ',';
  }

  /** The assumption made of the hash can be met. */
  lemma SomeHashIsIdeal() returns (h: ChainHash)
    ensures Ideal(h)
  {
    h := (p: Payload, prev: string) => Written(p, prev);
    forall p: Payload, q: string, p2: Payload, q2: string | Digest(h, p, q) == Digest(h, p2, q2)
      ensures p == p2 && q == q2
    {
      WrittenDiffer(p, q, p2, q2);
    }
    forall p: Payload, q: string
      ensures Digest(h, p, q) != GENESIS_HASH && Digest(h, p, q) != ""
    {
      WrittenIsNoGenesis(p, q);
    }
  }
}
