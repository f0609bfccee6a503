/** One outbox table and the SQL statements that read and write it. The gateway's and the
    messaging service's tables run the same statements, so both are instances of this
    module. Each statement has a function giving its effect on the rows. */
module OutboxTable {
  import opened Wrappers
  import opened Json
  import RetryPolicy

  type RowId = nat

  datatype Status = Pending | Sent | Failed

  /** The columns no statement ever rewrites. */
  datatype EventRecord = EventRecord(
    eventId: Option<string>,
    eventType: string,
    payload: Json,
    correlationId: Option<string>,
    maxAttempts: int)

  datatype Row = Row(
    ev: EventRecord,
    status: Status,
    attempts: nat,
    nextRetryAt: int,
    lockVersion: nat,
    lockedAt: Option<int>,
    lockedBy: Option<string>,
    lastError: Option<string>,
    sentAt: Option<int>)

  type Rows = map<RowId, Row>

  /** What RETURNING hands to the claimant of one row. */
  datatype ClaimedRow = ClaimedRow(id: RowId, ev: EventRecord, attempts: nat, token: nat)

  function NewRow(ev: EventRecord, now: int): Row {
    Row(ev, Pending, 0, now, 0, None, None, None, None)
  }

  predicate Due(r: Row, now: int) {
    r.status.Pending? && r.nextRetryAt <= now
  }

  /** The partial UNIQUE index on event_id. */
  ghost predicate EventIdFree(rows: Rows, eventId: Option<string>) {
    eventId.Some? ==> forall id | id in rows :: rows[id].ev.eventId != eventId
  }

  /** What the claim's sub-select may return: at most `limit` due rows that no concurrent
      statement holds, earliest first, and all of them if they fit. The UPDATE returns them
      in no particular order. */
  ghost predicate IsClaimSelection(rows: Rows, now: int, skipped: set<RowId>, limit: nat, ids: seq<RowId>) {
    var eligible := Eligible(rows, now, skipped);
    && Distinct(ids)
    && (forall id | id in ids :: id in eligible)
    && |ids| <= limit
    && (|ids| < limit ==> forall id | id in eligible :: id in ids)
    && (forall id, other | id in ids && other in eligible && other !in ids ::
          rows[id].nextRetryAt <= rows[other].nextRetryAt)
  }

  function Eligible(rows: Rows, now: int, skipped: set<RowId>): set<RowId> {
    set id | id in rows && Due(rows[id], now) && id !in skipped
  }

  ghost predicate Distinct(ids: seq<RowId>) {
    forall i, j | 0 <= i < j < |ids| :: ids[i] != ids[j]
  }

  function ClaimRow(r: Row, now: int, relay: string): Row {
    r.(lockedAt := Some(now), lockedBy := Some(relay), lockVersion := r.lockVersion + 1)
  }

  function ClaimRows(rows: Rows, ids: seq<RowId>, now: int, relay: string): Rows {
    map id | id in rows :: if id in ids then ClaimRow(rows[id], now, relay) else rows[id]
  }

  /** The rows RETURNING yields, as the claim leaves them. */
  function Snapshots(rows: Rows, ids: seq<RowId>): seq<ClaimedRow>
    requires forall id | id in ids :: id in rows
  {
    seq(|ids|, i requires 0 <= i < |ids| && ids[i] in rows => Snapshot(rows, ids[i]))
  }

  function Snapshot(rows: Rows, id: RowId): ClaimedRow
    requires id in rows
  {
    ClaimedRow(id, rows[id].ev, rows[id].attempts, rows[id].lockVersion + 1)
  }

  /** The guard shared by the two closing statements. */
  predicate Owns(rows: Rows, id: RowId, token: nat) {
    id in rows && rows[id].lockVersion == token
  }

  function SentRow(r: Row, now: int): Row {
    r.(status := Sent, sentAt := Some(now), lockedAt := None, lockedBy := None)
  }

  function FailedRow(r: Row, attemptsBefore: nat, maxAttempts: int, now: int, error: string): Row {
    var outcome := RetryPolicy.ComputeFailureOutcome(attemptsBefore, maxAttempts, now);
    r.(status := if outcome.DeadLetter? then Failed else Pending,
       attempts := outcome.newAttempts,
       lastError := Some(error),
       nextRetryAt := if outcome.Retry? then outcome.nextRetryAt else now,
       lockedAt := None, lockedBy := None)
  }

  function MarkSentRows(rows: Rows, id: RowId, token: nat, now: int): Rows {
    if Owns(rows, id, token) then rows[id := SentRow(rows[id], now)] else rows
  }

  function MarkFailedRows(rows: Rows, c: ClaimedRow, now: int, error: string): Rows {
    if Owns(rows, c.id, c.token)
    then rows[c.id := FailedRow(rows[c.id], c.attempts, c.ev.maxAttempts, now, error)]
    else rows
  }

  predicate LockIsStale(r: Row, now: int, ttlMs: int) {
    r.status.Pending? && r.lockedAt.Some? && r.lockedAt.value < now - ttlMs
  }

  function Unlocked(r: Row): Row {
    r.(lockedAt := None, lockedBy := None)
  }

  function ReapRows(rows: Rows, now: int, ttlMs: int): Rows {
    map id | id in rows :: if LockIsStale(rows[id], now, ttlMs) then Unlocked(rows[id]) else rows[id]
  }

  function ReplayedRow(r: Row, now: int): Row {
    r.(status := Pending, attempts := 0, nextRetryAt := now, lockedAt := None, lockedBy := None)
  }

  /** Which failed rows a replay request names: one id, or all of one type. An empty type
      string filters nothing: `replayAllFailed` tests the filter for truthiness. */
  datatype ReplayRequest = ById(id: RowId) | AllFailed(eventType: Option<string>)

  predicate Replays(q: ReplayRequest, id: RowId, r: Row) {
    && r.status.Failed?
    && match q
       case ById(wanted) => id == wanted
       case AllFailed(None) => true
       case AllFailed(Some(t)) => t == "" || r.ev.eventType == t
  }

  function ReplayRows(rows: Rows, q: ReplayRequest, now: int): Rows {
    map id | id in rows :: if Replays(q, id, rows[id]) then ReplayedRow(rows[id], now) else rows[id]
  }

  /** A selection always exists: take an earliest eligible row, then select from the others. */
  lemma {:induction false} ClaimSelectionExists(rows: Rows, now: int, skipped: set<RowId>, limit: nat)
    returns (ids: seq<RowId>)
    ensures IsClaimSelection(rows, now, skipped, limit, ids)
    decreases limit
  {
    var eligible := Eligible(rows, now, skipped);
    if limit == 0 || eligible == {} {
      ids := [];
    } else {
      var first := EarliestOf(rows, eligible);
      var rest := ClaimSelectionExists(rows, now, skipped + {first}, limit - 1);
      assert Eligible(rows, now, skipped + {first}) == eligible - {first};
      ids := [first] + rest;
      assert forall id :: id in ids <==> id == first || id in rest;
    }
  }

  lemma {:induction false} EarliestOf(rows: Rows, due: set<RowId>) returns (first: RowId)
    requires due != {} && due <= rows.Keys
    ensures first in due && forall id | id in due :: rows[first].nextRetryAt <= rows[id].nextRetryAt
    decreases due
  {
    first :| first in due;
    var rest := due - {first};
    assert forall id | id in due :: id == first || id in rest;
    if rest != {} {
      var other := EarliestOf(rows, rest);
      if rows[other].nextRetryAt < rows[first].nextRetryAt {
        first := other;
      }
    }
  }

  /** Due rows always get into some batch: a selection from a non-empty due set is non-empty. */
  lemma SelectionNonEmpty(rows: Rows, now: int, limit: nat, ids: seq<RowId>, id: RowId)
    requires limit > 0 && id in rows && Due(rows[id], now)
    requires IsClaimSelection(rows, now, {}, limit, ids)
    ensures ids != []
  {
    assert id in Eligible(rows, now, {});
  }

  /** What no statement but a claim changes: the event and the token. */
  predicate SameIdentity(before: Row, after: Row) {
    after.ev == before.ev && after.lockVersion == before.lockVersion
  }

  /** The table object the services hold: one statement per method. */
  class Table {
    var rows: Rows

    constructor ()
      ensures rows == map[]
    {
      rows := map[];
    }

    /** Inserts inside a transaction that commits; refused when the event id is taken. A new row
        is pending, due at once, without attempts, lock or history. */
    method Insert(id: RowId, ev: EventRecord, now: int) returns (inserted: bool)
      requires id !in rows
      modifies this
      ensures inserted <==> ev.eventId == None || forall other | other in old(rows) :: old(rows)[other].ev.eventId != ev.eventId
      ensures rows == if inserted then old(rows)[id := NewRow(ev, now)] else old(rows)
      ensures inserted ==>
                && id in rows && rows[id].ev == ev && rows[id].status == Pending && rows[id].attempts == 0
                && rows[id].nextRetryAt == now && rows[id].lockVersion == 0 && rows[id].lockedAt == None
                && rows[id].lockedBy == None && rows[id].lastError == None && rows[id].sentAt == None
    {
      inserted := ev.eventId.None? || forall other | other in rows :: rows[other].ev.eventId != ev.eventId;
      if inserted {
        rows := rows[id := NewRow(ev, now)];
      }
    }

    /** `ids` is what the database selected. Only due rows are claimed, no more than the limit;
        their lock and token change and nothing else does; the snapshots carry the new token. */
    method ClaimBatch(ghost limit: nat, ghost skipped: set<RowId>, ids: seq<RowId>, now: int, relay: string)
      returns (claimed: seq<ClaimedRow>)
      requires IsClaimSelection(rows, now, skipped, limit, ids)
      modifies this
      ensures forall id | id in ids :: id in old(rows)
      ensures rows == ClaimRows(old(rows), ids, now, relay) && claimed == Snapshots(old(rows), ids)
      ensures |claimed| == |ids| <= limit && forall j | 0 <= j < |ids| :: claimed[j].id == ids[j]
      ensures forall c | c in claimed ::
                var was, claimedRow := old(rows)[c.id], rows[c.id];
                && was.status == Pending && was.nextRetryAt <= now && c.id !in skipped
                && claimedRow == was.(lockVersion := was.lockVersion + 1, lockedAt := Some(now), lockedBy := Some(relay))
                && c.token == claimedRow.lockVersion && c.attempts == claimedRow.attempts && c.ev == claimedRow.ev
      ensures forall id | id in rows && id !in ids :: rows[id] == old(rows)[id]
      ensures forall id | id in rows && id !in ids && rows[id].status == Pending && rows[id].nextRetryAt <= now && id !in skipped ::
                |ids| == limit && forall other | other in ids :: rows[other].nextRetryAt <= rows[id].nextRetryAt
    {
      forall id | id in rows
        ensures id in Eligible(rows, now, skipped) <==>
                rows[id].status == Pending && rows[id].nextRetryAt <= now && id !in skipped
      {
      }
      forall id | id in ids ensures id in rows && Due(rows[id], now) {
        assert id in Eligible(rows, now, skipped);
      }
      claimed := Snapshots(rows, ids);
      rows := ClaimRows(rows, ids, now, relay);
    }

    /** If the token is current the row is sent and unlocked, with its token, event, attempts
        and due time as they were; otherwise, and for every other row, nothing changes. */
    method MarkSent(id: RowId, token: nat, now: int) returns (stillOwned: bool)
      modifies this
      ensures stillOwned <==> id in old(rows) && old(rows)[id].lockVersion == token
      ensures rows == MarkSentRows(old(rows), id, token, now)
      ensures rows.Keys == old(rows).Keys
      ensures forall other | other in rows && (other != id || !stillOwned) :: rows[other] == old(rows)[other]
      ensures stillOwned ==>
                && rows[id].status == Sent && rows[id].sentAt == Some(now)
                && rows[id].lockedAt == None && rows[id].lockedBy == None
                && SameIdentity(old(rows)[id], rows[id])
                && rows[id].attempts == old(rows)[id].attempts && rows[id].nextRetryAt == old(rows)[id].nextRetryAt
                && rows[id].lastError == old(rows)[id].lastError
    {
      stillOwned := Owns(rows, id, token);
      rows := MarkSentRows(rows, id, token, now);
    }

    /** If the token is current the row counts one attempt more than the snapshot, records the
        error and is unlocked; it has failed exactly when that uses up the snapshot's budget,
        and otherwise is pending and due after the back-off. Nothing else changes. */
    method MarkFailedAttempt(c: ClaimedRow, now: int, error: string) returns (stillOwned: bool)
      modifies this
      ensures stillOwned <==> c.id in old(rows) && old(rows)[c.id].lockVersion == c.token
      ensures rows == MarkFailedRows(old(rows), c, now, error)
      ensures rows.Keys == old(rows).Keys
      ensures forall other | other in rows && (other != c.id || !stillOwned) :: rows[other] == old(rows)[other]
      ensures stillOwned ==>
                && rows[c.id].attempts == c.attempts + 1 && rows[c.id].lastError == Some(error)
                && rows[c.id].lockedAt == None && rows[c.id].lockedBy == None
                && SameIdentity(old(rows)[c.id], rows[c.id]) && rows[c.id].sentAt == old(rows)[c.id].sentAt
                && (if c.attempts + 1 >= c.ev.maxAttempts then rows[c.id].status == Failed
                    else rows[c.id].status == Pending
                         && rows[c.id].nextRetryAt == now + RetryPolicy.RetryDelayMs(c.attempts + 1))
    {
      stillOwned := Owns(rows, c.id, c.token);
      rows := MarkFailedRows(rows, c, now, error);
    }

    /** Unlocks the pending rows whose lock is older than the limit, and touches no row's
        status, attempts, due time or token. */
    method ReapStaleLocks(now: int, ttlMs: int) returns (reaped: set<RowId>)
      modifies this
      ensures rows == ReapRows(old(rows), now, ttlMs)
      ensures rows.Keys == old(rows).Keys && reaped <= rows.Keys
      ensures forall id | id in rows ::
                && SameIdentity(old(rows)[id], rows[id])
                && rows[id].status == old(rows)[id].status && rows[id].attempts == old(rows)[id].attempts
                && rows[id].nextRetryAt == old(rows)[id].nextRetryAt
                && (id !in reaped ==> rows[id] == old(rows)[id])
      ensures forall id | id in rows ::
                id in reaped <==> old(rows)[id].status == Pending && old(rows)[id].lockedAt.Some?
                                  && now - old(rows)[id].lockedAt.value > ttlMs
      ensures forall id | id in reaped :: rows[id].lockedAt == None && rows[id].lockedBy == None
    {
      reaped := set id | id in rows && LockIsStale(rows[id], now, ttlMs);
      rows := ReapRows(rows, now, ttlMs);
    }

    /** The failed rows asked for become pending, due now, with no attempts and no lock, and
        keep their event and their token; every other row stays. */
    method Replay(q: ReplayRequest, now: int) returns (replayed: set<RowId>)
      modifies this
      ensures rows == ReplayRows(old(rows), q, now)
      ensures rows.Keys == old(rows).Keys && replayed <= rows.Keys
      ensures forall id | id in rows && id !in replayed :: rows[id] == old(rows)[id]
      ensures forall id | id in replayed ::
                && old(rows)[id].status == Failed && rows[id].status == Pending
                && rows[id].attempts == 0 && rows[id].nextRetryAt == now
                && rows[id].lockedAt == None && rows[id].lockedBy == None
                && SameIdentity(old(rows)[id], rows[id])
      ensures q.ById? ==> forall id | id in rows :: id in replayed <==> id == q.id && old(rows)[id].status == Failed
      ensures q.AllFailed? ==>
                forall id | id in rows ::
                  id in replayed <==> old(rows)[id].status == Failed
                                      && (q.eventType in {None, Some("")} || q.eventType == Some(old(rows)[id].ev.eventType))
    {
      replayed := set id | id in rows && Replays(q, id, rows[id]);
      rows := ReplayRows(rows, q, now);
    }
  }
}
