/** The approval row and every transaction that touches it. */
module ApprovalRecord {
  import opened Option

  // One row is written by the gate (request, decide, expire) and by the deferred executor (read,
  // claim, record). Each function below is the effect of one `session_scope()` block on the row;
  // `ApprovalTable` performs the same transactions in place, on a table of rows. `decide` and
  // `expire_stale` read and write the row in one step, which is what the finality of a decision
  // rests on.

  datatype Status = Pending | Approved | Rejected | Expired

  /** A JSON object. The empty object is the falsy one. */
  type Json = map<string, string>

  datatype Row = Row(
    requestedBy: Option<string>,
    deferred: Json,
    status: Status,
    decidedBy: Option<string>,
    decidedAt: Option<int>,
    comment: Option<string>,
    expiresAt: Option<int>,
    executedAt: Option<int>,
    executionResult: Json)

  datatype GateError = NotFound | AlreadyDecided(status: Status) | OwnRequest | ExpiredUndecided

  const EXPIRY_HOURS := 24
  const SECONDS_PER_HOUR := 3600

  function NewRequest(requester: string, deferred: Json, now: int): Row {
    Row(Some(requester), deferred, Pending, None, None, None,
        Some(now + EXPIRY_HOURS * SECONDS_PER_HOUR), None, map[])
  }

  predicate PastExpiry(row: Row, now: int) {
    row.expiresAt.Some? && row.expiresAt.value < now
  }

  /** What `decide` raises, if it raises. */
  function Refusal(row: Option<Row>, approver: string, now: int): Option<GateError> {
    match row
    case None => Some(NotFound)
    case Some(r) =>
      if r.status != Pending then Some(AlreadyDecided(r.status))
      else if r.requestedBy == Some(approver) then Some(OwnRequest)
      else if PastExpiry(r, now) then Some(ExpiredUndecided)
      else None
  }

  function Decided(row: Row, approver: string, approved: bool, comment: string, now: int): Row {
    match Refusal(Some(row), approver, now)
    case Some(ExpiredUndecided) => row.(status := Expired)
    case Some(_) => row
    case None => row.(status := if approved then Approved else Rejected,
                      decidedBy := Some(approver), decidedAt := Some(now), comment := Some(comment))
  }

  predicate Stale(row: Row, now: int) {
    row.status == Pending && PastExpiry(row, now)
  }

  function Swept(row: Row, now: int): Row {
    if Stale(row, now) then row.(status := Expired) else row
  }

  /** The first block of `execute_approved`. */
  datatype Reading = NothingToDo | Recorded(result: Json) | WaitForWinner | TryClaim

  function Read(row: Option<Row>): Reading {
    if row.None? || row.value.status != Approved then NothingToDo
    else if row.value.deferred == map[] then NothingToDo
    else if row.value.executedAt.Some? then
      if row.value.executionResult != map[] then Recorded(row.value.executionResult) else WaitForWinner
    else TryClaim
  }

  /** Whether the conditional UPDATE matches this row. */
  predicate Claimable(row: Row) {
    row.executedAt.None? && row.status == Approved
  }

  function Claimed(row: Row, now: int): Row {
    if Claimable(row) then row.(executedAt := Some(now)) else row
  }

  /** The writes that can reach a row in one transaction. */
  datatype Write =
    | Decide(approver: string, approved: bool, comment: string, now: int)
    | Sweep(now: int)
    | Claim(now: int)
    | Record(result: Json)

  function Apply(row: Row, w: Write): Row {
    match w
    case Decide(approver, approved, comment, now) => Decided(row, approver, approved, comment, now)
    case Sweep(now) => Swept(row, now)
    case Claim(now) => Claimed(row, now)
    case Record(result) => row.(executionResult := result)
  }

  /** Separation of duties, and execution only of what was approved. */
  predicate Sound(row: Row) {
    && (row.status == Pending ==> row.decidedBy.None?)
    && (row.status == Approved ==> row.decidedBy.Some? && row.decidedBy != row.requestedBy)
    && (row.executedAt.Some? ==> row.status == Approved)
    && (row.executionResult != map[] ==> row.executedAt.Some?)
  }

  /** `later` continues `earlier`: what was settled in `earlier` is unchanged. */
  predicate Continues(earlier: Row, later: Row) {
    && later.requestedBy == earlier.requestedBy
    && later.deferred == earlier.deferred
    && (earlier.status != Pending ==>
          later.status == earlier.status && later.decidedBy == earlier.decidedBy &&
          later.decidedAt == earlier.decidedAt)
    && (earlier.executedAt.Some? ==> later.executedAt == earlier.executedAt)
    && (earlier.executionResult != map[] ==> later.executionResult == earlier.executionResult)
  }

  /** A result is recorded only on a claimed row that has none yet. */
  predicate Permitted(row: Row, w: Write) {
    w.Record? ==> row.executedAt.Some? && row.executionResult == map[]
  }

  /**
   Every write keeps a row sound and continues it, provided a result is recorded
   only on a claimed row that has none yet. That proviso is what the protocol in
   `DeferredExecution` has to supply.
   */
  lemma WriteKeepsSound(row: Row, w: Write)
    requires Sound(row) && Permitted(row, w)
    ensures Sound(Apply(row, w)) && Continues(row, Apply(row, w))
  {
    match w
    case Decide(approver, approved, comment, now) =>
      assert Refusal(Some(row), approver, now).None? ==> row.requestedBy != Some(approver);
    case Sweep(now) =>
    case Claim(now) =>
    case Record(result) =>
  }

  function ApplyAll(row: Row, writes: seq<Write>): Row
    decreases |writes|
  {
    if writes == [] then row else ApplyAll(Apply(row, writes[0]), writes[1..])
  }

  predicate AllPermitted(row: Row, writes: seq<Write>)
    decreases |writes|
  {
    writes != [] ==> Permitted(row, writes[0]) && AllPermitted(Apply(row, writes[0]), writes[1..])
  }

  /** Whatever is written from `row` on, the conditional UPDATE does not match. */
  ghost predicate NeverClaimable(row: Row) {
    forall writes: seq<Write> :: AllPermitted(row, writes) ==> !Claimable(ApplyAll(row, writes))
  }

  lemma {:induction false} DecidedStaysUnclaimable(row: Row, writes: seq<Write>)
    requires Sound(row) && row.status != Pending && !Claimable(row) && AllPermitted(row, writes)
    ensures !Claimable(ApplyAll(row, writes))
    decreases |writes|
  {
    if writes != [] {
      WriteKeepsSound(row, writes[0]);
      DecidedStaysUnclaimable(Apply(row, writes[0]), writes[1..]);
    }
  }

  /** Someone else may still approve a pending row. */
  lemma PendingCanBeApproved(row: Row)
    requires Sound(row) && row.status == Pending
    ensures !NeverClaimable(row)
  {
    var approver := if row.requestedBy.Some? then row.requestedBy.value + "x" else "x";
    var now := if row.expiresAt.Some? then row.expiresAt.value else 0;
    var writes := [Decide(approver, true, "", now)];
    assert row.requestedBy.Some? ==> |approver| != |row.requestedBy.value|;
    assert Refusal(Some(row), approver, now).None?;
    var approved := Apply(row, writes[0]);
    assert writes[1..] == [] && AllPermitted(approved, []) && ApplyAll(approved, []) == approved;
    assert AllPermitted(row, writes) && ApplyAll(row, writes) == approved;
    assert Claimable(ApplyAll(row, writes));
  }

  /**
   The claim is the lock: once it was tried on a decided row, no attempt after any writes
   matches. An attempt on a pending row locks nothing: the row can still be approved.
   */
  lemma ClaimIsExclusive(row: Row, now: int)
    requires Sound(row)
    ensures NeverClaimable(Claimed(row, now)) <==> row.status != Pending
  {
    if row.status == Pending {
      PendingCanBeApproved(row);
    } else {
      WriteKeepsSound(row, Write.Claim(now));
      forall writes: seq<Write> | AllPermitted(Claimed(row, now), writes)
        ensures !Claimable(ApplyAll(Claimed(row, now), writes))
      {
        DecidedStaysUnclaimable(Claimed(row, now), writes);
      }
    }
  }

  class ApprovalTable {
    var rows: map<string, Row>

    constructor ()
      ensures rows == map[]
    {
      rows := map[];
    }

    function Lookup(id: string): Option<Row>
      reads this
    {
      if id in rows then Some(rows[id]) else None
    }

    method Request(id: string, requester: string, deferred: Json, now: int)
      requires id !in rows
      modifies this
      ensures rows == old(rows)[id := NewRequest(requester, deferred, now)]
      ensures rows[id].status == Pending && rows[id].requestedBy == Some(requester)
      ensures rows[id].deferred == deferred && rows[id].expiresAt == Some(now + 86400)
    {
      rows := rows[id := Row(Some(requester), deferred, Pending, None, None, None,
                             Some(now + EXPIRY_HOURS * SECONDS_PER_HOUR), None, map[])];
    }

    method Decide(id: string, approver: string, approved: bool, comment: string, now: int)
      returns (outcome: Result<Row, GateError>)
      modifies this
      ensures id !in old(rows) ==> rows == old(rows)
      ensures id in old(rows) ==>
                rows == old(rows)[id := Apply(old(rows)[id], Write.Decide(approver, approved, comment, now))]
      ensures outcome.Ok? <==> old(Refusal(Lookup(id), approver, now)).None?
      ensures outcome.Err? ==> Some(outcome.error) == old(Refusal(Lookup(id), approver, now))
      ensures outcome.Ok? ==> id in rows && outcome.value == rows[id]
      ensures outcome.Ok? ==>
                && old(rows)[id].status == Pending && old(rows)[id].requestedBy != Some(approver)
                && (old(rows)[id].expiresAt.Some? ==> now <= old(rows)[id].expiresAt.value)
                && outcome.value.status == (if approved then Approved else Rejected)
                && outcome.value.decidedBy == Some(approver) && outcome.value.decidedAt == Some(now)
      ensures outcome.Err? ==>
                match outcome.error
                case NotFound => id !in old(rows)
                case AlreadyDecided(status) => id in old(rows) && status == old(rows)[id].status != Pending
                case OwnRequest => id in old(rows) && old(rows)[id].requestedBy == Some(approver)
                case ExpiredUndecided => id in rows && rows[id] == old(rows)[id].(status := Expired)
    {
      if id !in rows {
        return Err(NotFound);
      }
      var row := rows[id];
      if row.status != Pending {
        return Err(AlreadyDecided(row.status));
      }
      if row.requestedBy == Some(approver) {
        return Err(OwnRequest);
      }
      if PastExpiry(row, now) {
        rows := rows[id := row.(status := Expired)];
        return Err(ExpiredUndecided);
      }
      row := row.(status := if approved then Approved else Rejected, decidedBy := Some(approver),
                  decidedAt := Some(now), comment := Some(comment));
      rows := rows[id := row];
      outcome := Ok(row);
    }

    /** Resolves every stale request, and nothing else. */
    method ExpireStale(now: int) returns (count: nat)
      modifies this
      ensures rows.Keys == old(rows).Keys
      ensures forall id <- rows :: rows[id] == Apply(old(rows)[id], Sweep(now))
      ensures count == |set id | id in old(rows) && Stale(old(rows)[id], now)|
      ensures forall id <- rows :: !Stale(rows[id], now)
      ensures forall id <- rows :: rows[id] != old(rows)[id] <==>
                                     old(rows)[id].status == Pending && old(rows)[id].expiresAt.Some? &&
                                     old(rows)[id].expiresAt.value < now
      ensures forall id <- rows :: rows[id] != old(rows)[id] ==> rows[id] == old(rows)[id].(status := Expired)
    {
      var stale := set id | id in rows && Stale(rows[id], now);
      count := |stale|;
      var pending := stale;
      while pending != {}
        invariant pending <= stale && rows.Keys == old(rows).Keys
        invariant forall id <- rows ::
                    rows[id] == if id in stale - pending then Swept(old(rows)[id], now) else old(rows)[id]
      {
        var id :| id in pending;
        rows := rows[id := rows[id].(status := Expired)];
        pending := pending - {id};
      }
    }

    /** The conditional UPDATE, returning whether it matched. */
    method Claim(id: string, now: int) returns (matched: bool)
      modifies this
      ensures matched <==> id in old(rows) && Claimable(old(rows)[id])
      ensures matched ==> old(rows)[id].status == Approved && old(rows)[id].executedAt.None?
      ensures matched ==> rows == old(rows)[id := old(rows)[id].(executedAt := Some(now))]
      ensures id !in old(rows) ==> rows == old(rows)
      ensures id in old(rows) ==> rows == old(rows)[id := Apply(old(rows)[id], Write.Claim(now))]
    {
      matched := id in rows && rows[id].executedAt.None? && rows[id].status == Approved;
      if matched {
        rows := rows[id := rows[id].(executedAt := Some(now))];
      }
    }

    method Record(id: string, result: Json)
      modifies this
      ensures id !in old(rows) ==> rows == old(rows)
      ensures id in old(rows) ==> rows == old(rows)[id := Apply(old(rows)[id], Write.Record(result))]
    {
      if id in rows {
        rows := rows[id := rows[id].(executionResult := result)];
      }
    }
  }
}
