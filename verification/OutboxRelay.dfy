/** The relay service as one process runs it: `publishOne` and the batch loop of a tick,
    statement by statement, with the broker's and the database's behaviour as parameters.
    A tick undisturbed by other relays is specified row by row, and shown to be a run of the
    interleaved protocol. */
module OutboxRelay {
  import opened Wrappers
  import opened OutboxTable
  import P = RelayProtocol
  import RelayRecovery
  import RetryPolicy

  /** What happens to one publish. Only `Fine` ends in `markSent` without an exception. */
  datatype Fault =
    | Fine
    | NotWritten(reached: bool)      // no channel, or publish returned false
    | NotConfirmed(reached: bool)    // waitForConfirms rejected
    | MarkSentLost(tookEffect: bool) // markSent threw

  /** `elapsed`: time the publish takes. `error`: the message of the exception, if any.
      `recordLost`: markFailedAttempt throws too, and did or did not take effect; that exception
      then ends the whole tick. */
  datatype Attempt = Attempt(elapsed: nat, fault: Fault, error: string, recordLost: Option<bool>)

  predicate Reaches(f: Fault) {
    match f
    case Fine => true
    case NotWritten(reached) => reached
    case NotConfirmed(reached) => reached
    case MarkSentLost(_) => true
  }

  /** Where an undisturbed attempt leaves the claimed row. */
  function Settled(r: Row, c: ClaimedRow, a: Attempt, now: int): Row {
    match a.fault
    case Fine => SentRow(r, now)
    case _ =>
      var marked := if a.fault == MarkSentLost(true) then SentRow(r, now) else r;
      if a.recordLost == Some(false) then marked
      else FailedRow(marked, c.attempts, c.ev.maxAttempts, now, a.error)
  }

  /** The clock once the first `done` attempts have taken their time. */
  function ClockAfter(start: int, attempts: seq<Attempt>, done: nat): int
    requires done <= |attempts|
  {
    if done == 0 then start else ClockAfter(start, attempts, done - 1) + attempts[done - 1].elapsed
  }

  /** The copies the broker received from the first `done` attempts. */
  function Received(claimed: seq<ClaimedRow>, attempts: seq<Attempt>, done: nat): seq<P.Copy>
    requires done <= |claimed| <= |attempts|
  {
    if done == 0 then [] else Received(claimed, attempts, done - 1) + ReceivedOne(claimed[done - 1], attempts[done - 1])
  }

  function ReceivedOne(c: ClaimedRow, a: Attempt): seq<P.Copy> {
    if Reaches(a.fault) then [P.CopyOf(c)] else []
  }

  /** The protocol steps of one attempt by activation `c`, once its time has passed. */
  function AttemptSteps(c: P.ClaimId, a: Attempt): seq<P.Step> {
    var record := if a.recordLost == Some(false) then P.Abandon(c) else P.MarkFailed(c, a.error);
    match a.fault
    case Fine => [P.Publish(c, true, true), P.Confirm(c), P.MarkSent(c)]
    case NotWritten(reached) => [P.Publish(c, false, reached), record]
    case NotConfirmed(reached) => [P.Publish(c, true, reached), P.ConfirmFails(c), record]
    case MarkSentLost(tookEffect) => [P.Publish(c, true, true), P.Confirm(c), P.MarkSentThrows(c, tookEffect), record]
  }

  ghost predicate AfterAttempt(s: P.State, c: P.ClaimId, a: Attempt, t: P.State)
    requires c in s.claims && s.claims[c].row.id in s.rows
  {
    var row := s.claims[c].row;
    && t.now == s.now
    && t.rows == s.rows[row.id := Settled(s.rows[row.id], row, a, s.now)]
    && t.published == s.published + ReceivedOne(row, a)
    && t.claims == s.claims - {c}
    && t.nextClaim == s.nextClaim
  }

  ghost predicate ReadyToPublish(s: P.State, c: P.ClaimId) {
    && c in s.claims && s.claims[c].phase.Claimed? && P.Holds(s, c)
    && s.claims[c].row.ev == s.rows[s.claims[c].row.id].ev
  }

  lemma AttemptIsRun(cfg: P.Config, s: P.State, c: P.ClaimId, a: Attempt)
    requires ReadyToPublish(s, c)
    ensures P.ValidRun(cfg, s, AttemptSteps(c, a))
    ensures AfterAttempt(s, c, a, P.Run(cfg, s, AttemptSteps(c, a)))
  {
    match a.fault {
      case Fine => var _ := RelayRecovery.SendClaimed(cfg, s, c);
      case NotWritten(_) => NotWrittenIsRun(cfg, s, c, a);
      case NotConfirmed(_) => NotConfirmedIsRun(cfg, s, c, a);
      case MarkSentLost(_) => MarkSentLostIsRun(cfg, s, c, a);
    }
  }

  lemma NotWrittenIsRun(cfg: P.Config, s: P.State, c: P.ClaimId, a: Attempt)
    requires ReadyToPublish(s, c) && a.fault.NotWritten?
    ensures P.ValidRun(cfg, s, AttemptSteps(c, a))
    ensures AfterAttempt(s, c, a, P.Run(cfg, s, AttemptSteps(c, a)))
  {
    var steps := AttemptSteps(c, a);
    RunTwo(cfg, s, steps[0], steps[1]);
    assert P.Run(cfg, s, steps).claims == s.claims - {c};
  }

  lemma NotConfirmedIsRun(cfg: P.Config, s: P.State, c: P.ClaimId, a: Attempt)
    requires ReadyToPublish(s, c) && a.fault.NotConfirmed?
    ensures P.ValidRun(cfg, s, AttemptSteps(c, a))
    ensures AfterAttempt(s, c, a, P.Run(cfg, s, AttemptSteps(c, a)))
  {
    var steps := AttemptSteps(c, a);
    RunThree(cfg, s, steps[0], steps[1], steps[2]);
    assert P.Run(cfg, s, steps).claims == s.claims - {c};
  }

  lemma MarkSentLostIsRun(cfg: P.Config, s: P.State, c: P.ClaimId, a: Attempt)
    requires ReadyToPublish(s, c) && a.fault.MarkSentLost?
    ensures P.ValidRun(cfg, s, AttemptSteps(c, a))
    ensures AfterAttempt(s, c, a, P.Run(cfg, s, AttemptSteps(c, a)))
  {
    var steps := AttemptSteps(c, a);
    RunFour(cfg, s, steps[0], steps[1], steps[2], steps[3]);
    assert P.Run(cfg, s, steps).claims == s.claims - {c};
  }

  lemma RunOne(cfg: P.Config, s: P.State, a: P.Step)
    requires P.Enabled(cfg, s, a)
    ensures P.ValidRun(cfg, s, [a]) && P.Run(cfg, s, [a]) == P.Next(cfg, s, a)
  {
    assert P.ValidRun(cfg, P.Next(cfg, s, a), []);
    P.Unroll(cfg, s, a, []);
    assert [a] + [] == [a];
  }

  lemma RunTwo(cfg: P.Config, s: P.State, a: P.Step, b: P.Step)
    requires P.Enabled(cfg, s, a) && P.Enabled(cfg, P.Next(cfg, s, a), b)
    ensures P.ValidRun(cfg, s, [a, b]) && P.Run(cfg, s, [a, b]) == P.Next(cfg, P.Next(cfg, s, a), b)
  {
    RunOne(cfg, P.Next(cfg, s, a), b);
    P.Unroll(cfg, s, a, [b]);
    assert [a] + [b] == [a, b];
  }

  lemma RunThree(cfg: P.Config, s: P.State, a: P.Step, b: P.Step, c: P.Step)
    requires P.Enabled(cfg, s, a) && P.Enabled(cfg, P.Next(cfg, s, a), b)
    requires P.Enabled(cfg, P.Next(cfg, P.Next(cfg, s, a), b), c)
    ensures P.ValidRun(cfg, s, [a, b, c])
    ensures P.Run(cfg, s, [a, b, c]) == P.Next(cfg, P.Next(cfg, P.Next(cfg, s, a), b), c)
  {
    RunTwo(cfg, P.Next(cfg, s, a), b, c);
    P.Unroll(cfg, s, a, [b, c]);
    assert [a] + [b, c] == [a, b, c];
  }

  lemma RunFour(cfg: P.Config, s: P.State, a: P.Step, b: P.Step, c: P.Step, d: P.Step)
    requires P.Enabled(cfg, s, a) && P.Enabled(cfg, P.Next(cfg, s, a), b)
    requires P.Enabled(cfg, P.Next(cfg, P.Next(cfg, s, a), b), c)
    requires P.Enabled(cfg, P.Next(cfg, P.Next(cfg, P.Next(cfg, s, a), b), c), d)
    ensures P.ValidRun(cfg, s, [a, b, c, d])
    ensures P.Run(cfg, s, [a, b, c, d]) == P.Next(cfg, P.Next(cfg, P.Next(cfg, P.Next(cfg, s, a), b), c), d)
  {
    RunThree(cfg, P.Next(cfg, s, a), b, c, d);
    P.Unroll(cfg, s, a, [b, c, d]);
    assert [a] + [b, c, d] == [a, b, c, d];
  }

  // ---- A whole tick ----

  /** The rows once the first `done` claimed rows of a batch have been published and closed. */
  function TickRows(rows: Rows, claimed: seq<ClaimedRow>, attempts: seq<Attempt>, start: int, done: nat): Rows
    requires done <= |claimed| <= |attempts|
  {
    if done == 0 then rows
    else
      CloseRow(TickRows(rows, claimed, attempts, start, done - 1), claimed[done - 1], attempts[done - 1],
               ClockAfter(start, attempts, done))
  }

  /** A stale claimant's closing statement matches nothing. */
  function CloseRow(rows: Rows, c: ClaimedRow, a: Attempt, now: int): Rows {
    if Owns(rows, c.id, c.token) then rows[c.id := Settled(rows[c.id], c, a, now)] else rows
  }

  lemma OneFurther(rows: Rows, claimed: seq<ClaimedRow>, attempts: seq<Attempt>, start: int, done: nat)
    requires done < |claimed| <= |attempts|
    ensures ClockAfter(start, attempts, done + 1) == ClockAfter(start, attempts, done) + attempts[done].elapsed
    ensures TickRows(rows, claimed, attempts, start, done + 1) ==
            CloseRow(TickRows(rows, claimed, attempts, start, done), claimed[done], attempts[done],
                     ClockAfter(start, attempts, done + 1))
    ensures Received(claimed, attempts, done + 1) == Received(claimed, attempts, done) + ReceivedOne(claimed[done], attempts[done])
  {
  }

  /** Row by row: a claimed row is settled by its own attempt alone, the rest of the batch
      stays claimed, and rows outside the batch are not touched. */
  ghost predicate RowByRow(t: Rows, rows: Rows, ids: seq<RowId>, relay: string, start: int, attempts: seq<Attempt>, done: nat)
    requires (forall id | id in ids :: id in rows) && done <= |ids| == |attempts|
  {
    && t.Keys == rows.Keys
    && (forall id | id in rows && id !in ids :: t[id] == rows[id])
    && (forall j | 0 <= j < done :: t[ids[j]] == TickRow(rows, ids, relay, start, attempts, j))
    && (forall j | done <= j < |ids| :: t[ids[j]] == ClaimRow(rows[ids[j]], start, relay))
  }

  lemma NoneClosed(rows: Rows, ids: seq<RowId>, relay: string, start: int, attempts: seq<Attempt>)
    requires (forall id | id in ids :: id in rows) && |ids| == |attempts|
    ensures RowByRow(ClaimRows(rows, ids, start, relay), rows, ids, relay, start, attempts, 0)
  {
    forall j | 0 <= j < |ids| ensures ClaimRows(rows, ids, start, relay)[ids[j]] == ClaimRow(rows[ids[j]], start, relay) {
      assert ids[j] in ids;
    }
  }

  lemma CloseNext(t: Rows, rows: Rows, ids: seq<RowId>, relay: string, start: int, attempts: seq<Attempt>, done: nat)
    requires Distinct(ids) && (forall id | id in ids :: id in rows) && done < |ids| == |attempts|
    requires RowByRow(t, rows, ids, relay, start, attempts, done)
    ensures RowByRow(CloseRow(t, Snapshot(rows, ids[done]), attempts[done], ClockAfter(start, attempts, done + 1)),
                     rows, ids, relay, start, attempts, done + 1)
  {
    assert t[ids[done]] == ClaimRow(rows[ids[done]], start, relay);
    assert Owns(t, ids[done], Snapshot(rows, ids[done]).token);
    assert ids[done] in ids;
  }

  lemma {:induction false} TickRowByRow(rows: Rows, ids: seq<RowId>, relay: string, start: int, attempts: seq<Attempt>, done: nat)
    requires Distinct(ids) && (forall id | id in ids :: id in rows) && done <= |ids| == |attempts|
    ensures RowByRow(TickRows(ClaimRows(rows, ids, start, relay), Snapshots(rows, ids), attempts, start, done),
                     rows, ids, relay, start, attempts, done)
  {
    var claimedRows := ClaimRows(rows, ids, start, relay);
    if done == 0 {
      NoneClosed(rows, ids, relay, start, attempts);
    } else {
      var claimed := Snapshots(rows, ids);
      TickRowByRow(rows, ids, relay, start, attempts, done - 1);
      CloseNext(TickRows(claimedRows, claimed, attempts, start, done - 1), rows, ids, relay, start, attempts, done - 1);
      OneFurther(claimedRows, claimed, attempts, start, done - 1);
      assert claimed[done - 1] == Snapshot(rows, ids[done - 1]);
    }
  }

  function TickRow(rows: Rows, ids: seq<RowId>, relay: string, start: int, attempts: seq<Attempt>, j: nat): Row
    requires j < |ids| <= |attempts| && ids[j] in rows
  {
    Settled(ClaimRow(rows[ids[j]], start, relay), Snapshot(rows, ids[j]), attempts[j], ClockAfter(start, attempts, j + 1))
  }

  /** The activations of the rows still to do are as the claim created them. */
  ghost predicate Waiting(t: P.State, first: P.ClaimId, claimed: seq<ClaimedRow>, done: nat) {
    forall j | done <= j < |claimed| :: WaitingAt(t, first + j, claimed[j])
  }

  ghost predicate WaitingAt(t: P.State, c: P.ClaimId, row: ClaimedRow) {
    c in t.claims && t.claims[c].phase.Claimed? && t.claims[c].row == row
  }

  /** `steps` is a run that does what the first `done` publishes of the tick do. */
  ghost predicate TickRuns(cfg: P.Config, s: P.State, ids: seq<RowId>, relay: string, attempts: seq<Attempt>, done: nat,
                           steps: seq<P.Step>)
    requires done <= |ids| == |attempts| && forall id | id in ids :: id in s.rows
  {
    && P.ValidRun(cfg, s, steps)
    && var t := P.Run(cfg, s, steps);
       var claimed := Snapshots(s.rows, ids);
       && t.rows == TickRows(ClaimRows(s.rows, ids, s.now, relay), claimed, attempts, s.now, done)
       && t.published == s.published + Received(claimed, attempts, done)
       && t.now == ClockAfter(s.now, attempts, done)
       && Waiting(t, s.nextClaim, claimed, done)
  }

  lemma ClaimRuns(cfg: P.Config, s: P.State, ids: seq<RowId>, relay: string, attempts: seq<Attempt>)
    requires P.Enabled(cfg, s, P.ClaimBatch(ids, {}, relay)) && |ids| == |attempts|
    ensures forall id | id in ids :: id in s.rows
    ensures TickRuns(cfg, s, ids, relay, attempts, 0, [P.ClaimBatch(ids, {}, relay)])
  {
    forall id | id in ids ensures id in s.rows {
      assert id in Eligible(s.rows, s.now, {});
    }
    RunOne(cfg, s, P.ClaimBatch(ids, {}, relay));
    var t := P.Next(cfg, s, P.ClaimBatch(ids, {}, relay));
    forall j | 0 <= j < |ids| ensures WaitingAt(t, s.nextClaim + j, Snapshots(s.rows, ids)[j]) {
      assert t.claims[s.nextClaim + j] == P.NewClaim(s, ids[j]);
    }
  }

  lemma NextIsReady(t: P.State, first: P.ClaimId, rows: Rows, ids: seq<RowId>, relay: string, start: int,
                    attempts: seq<Attempt>, done: nat)
    requires Distinct(ids) && done < |ids| == |attempts| && forall id | id in ids :: id in rows
    requires t.rows == TickRows(ClaimRows(rows, ids, start, relay), Snapshots(rows, ids), attempts, start, done)
    requires Waiting(t, first, Snapshots(rows, ids), done)
    ensures ReadyToPublish(t, first + done) && t.claims[first + done].row == Snapshots(rows, ids)[done]
  {
    TickRowByRow(rows, ids, relay, start, attempts, done);
    assert WaitingAt(t, first + done, Snapshots(rows, ids)[done]);
    assert t.rows[ids[done]] == ClaimRow(rows[ids[done]], start, relay);
  }

  lemma StillWaiting(t: P.State, u: P.State, first: P.ClaimId, claimed: seq<ClaimedRow>, done: nat)
    requires Waiting(t, first, claimed, done) && u.claims == t.claims - {first + done}
    ensures Waiting(u, first, claimed, done + 1)
  {
    forall j | done + 1 <= j < |claimed| ensures WaitingAt(u, first + j, claimed[j]) {
      assert WaitingAt(t, first + j, claimed[j]);
    }
  }

  lemma PublishRuns(cfg: P.Config, s: P.State, ids: seq<RowId>, relay: string, attempts: seq<Attempt>, done: nat,
                    steps: seq<P.Step>)
    returns (longer: seq<P.Step>)
    requires Distinct(ids) && done < |ids| == |attempts| && forall id | id in ids :: id in s.rows
    requires TickRuns(cfg, s, ids, relay, attempts, done, steps)
    ensures TickRuns(cfg, s, ids, relay, attempts, done + 1, longer)
  {
    var claimed := Snapshots(s.rows, ids);
    var t := P.Run(cfg, s, steps);
    NextIsReady(t, s.nextClaim, s.rows, ids, relay, s.now, attempts, done);
    var more := OneMoreAttempt(cfg, t, s.nextClaim + done, attempts[done]);
    P.RunAppend(cfg, s, steps, more);
    longer := steps + more;
    StillWaiting(t, P.Run(cfg, s, longer), s.nextClaim, claimed, done);
  }

  /** An undisturbed tick is a run of the interleaved protocol: same rows, same copies. */
  lemma {:induction false} TickIsRun(cfg: P.Config, s: P.State, ids: seq<RowId>, relay: string, attempts: seq<Attempt>, done: nat)
    returns (steps: seq<P.Step>)
    requires P.Enabled(cfg, s, P.ClaimBatch(ids, {}, relay))
    requires done <= |ids| == |attempts|
    ensures forall id | id in ids :: id in s.rows
    ensures TickRuns(cfg, s, ids, relay, attempts, done, steps)
  {
    ClaimRuns(cfg, s, ids, relay, attempts);
    if done == 0 {
      steps := [P.ClaimBatch(ids, {}, relay)];
    } else {
      steps := TickIsRun(cfg, s, ids, relay, attempts, done - 1);
      steps := PublishRuns(cfg, s, ids, relay, attempts, done - 1, steps);
    }
  }

  lemma OneMoreAttempt(cfg: P.Config, t: P.State, c: P.ClaimId, a: Attempt) returns (more: seq<P.Step>)
    requires ReadyToPublish(t, c)
    ensures P.ValidRun(cfg, t, more)
    ensures var row := t.claims[c].row;
            var u := P.Run(cfg, t, more);
            && u.now == t.now + a.elapsed
            && u.rows == CloseRow(t.rows, row, a, u.now)
            && u.published == t.published + ReceivedOne(row, a)
            && u.claims == t.claims - {c}
  {
    var wait := P.Advance(a.elapsed);
    AttemptIsRun(cfg, P.Next(cfg, t, wait), c, a);
    P.Unroll(cfg, t, wait, AttemptSteps(c, a));
    more := [wait] + AttemptSteps(c, a);
  }

  lemma SelectionKnown(rows: Rows, now: int, skipped: set<RowId>, limit: nat, ids: seq<RowId>)
    requires IsClaimSelection(rows, now, skipped, limit, ids)
    ensures forall id | id in ids :: id in rows
  {
    forall id | id in ids ensures id in rows {
      assert id in Eligible(rows, now, skipped);
    }
  }

  class OutboxRelay {
    const table: Table
    const instanceId: string
    var published: seq<P.Copy>

    constructor (table: Table, instanceId: string)
      ensures this.table == table && this.instanceId == instanceId && published == []
    {
      this.table := table;
      this.instanceId := instanceId;
      published := [];
    }

    /** Publishes one claimed row and closes it. `threw`: the exception escaped, which takes both
        a fault and a failure record that throws. The broker gets at most one copy, of the row's
        event under its token. A stale claim changes no row, a current one none but its own: that
        is sent if nothing went wrong, counts one more failure if the record went through, and is
        otherwise as it was, or sent if only the reply of `markSent` was lost. */
    method PublishOne(row: ClaimedRow, a: Attempt, now: int) returns (threw: bool)
      modifies this, table
      ensures threw <==> a.fault != Fine && a.recordLost != None
      ensures table.rows == CloseRow(old(table.rows), row, a, now)
      ensures published == old(published) + ReceivedOne(row, a)
      ensures ReceivedOne(row, a) ==
              if a.fault == NotWritten(false) || a.fault == NotConfirmed(false) then [] else [P.Copy(row.id, row.token, row.ev)]
      ensures table.rows.Keys == old(table.rows).Keys
      ensures forall id | id in table.rows && (id != row.id || old(table.rows)[id].lockVersion != row.token) ::
                table.rows[id] == old(table.rows)[id]
      ensures row.id in old(table.rows) && old(table.rows)[row.id].lockVersion == row.token ==>
                var r := table.rows[row.id];
                && r.lockVersion == row.token && r.ev == old(table.rows)[row.id].ev
                && (a.fault == Fine ==> r.status == Sent && r.sentAt == Some(now) && r.attempts == old(table.rows)[row.id].attempts)
                && (a.fault != Fine && a.recordLost != Some(false) ==>
                      && r.attempts == row.attempts + 1 && r.lastError == Some(a.error) && r.lockedAt == None
                      && (if row.attempts + 1 >= row.ev.maxAttempts then r.status == Failed
                          else r.status == Pending && r.nextRetryAt == now + RetryPolicy.RetryDelayMs(row.attempts + 1)))
                && (a.fault != Fine && a.recordLost == Some(false) ==>
                      if a.fault == MarkSentLost(true) then r.status == Sent else r == old(table.rows)[row.id])
    {
      if Reaches(a.fault) {
        published := published + [P.CopyOf(row)];
      }
      if a.fault.Fine? || a.fault == MarkSentLost(true) {
        var _ := table.MarkSent(row.id, row.token, now);
      }
      if a.fault.Fine? {
        return false;
      }
      if a.recordLost != Some(false) {
        var _ := table.MarkFailedAttempt(row, now, a.error);
      }
      threw := a.recordLost.Some?;
    }

    /** Claims a batch, then publishes its rows one after the other until one throws.
        `claimLost`: the claim statement threw, and did or did not take effect; the tick then
        ends, and what was claimed is not published. A failed publish alone does not end a tick:
        it goes through the whole batch unless recording a failure throws, and then stops right
        there. */
    method RunRelayTick(ghost limit: nat, ghost skipped: set<RowId>, ids: seq<RowId>, claimLost: Option<bool>,
                        attempts: seq<Attempt>, start: int)
      returns (done: nat)
      requires IsClaimSelection(table.rows, start, skipped, limit, ids) && |attempts| == |ids|
      modifies this, table
      ensures forall id | id in ids :: id in old(table.rows)
      ensures claimLost.Some? ==>
                && done == 0 && published == old(published)
                && table.rows == if claimLost.value then ClaimRows(old(table.rows), ids, start, instanceId) else old(table.rows)
      ensures claimLost.None? ==>
                && done <= |ids|
                && (forall j | 0 <= j < done - 1 :: attempts[j].fault == Fine || attempts[j].recordLost == None)
                && (done < |ids| ==> done > 0 && attempts[done - 1].fault != Fine && attempts[done - 1].recordLost != None)
                && ((forall j | 0 <= j < |ids| :: attempts[j].recordLost == None) ==> done == |ids|)
                && table.rows == TickRows(ClaimRows(old(table.rows), ids, start, instanceId),
                                          Snapshots(old(table.rows), ids), attempts, start, done)
                && published == old(published) + Received(Snapshots(old(table.rows), ids), attempts, done)
    {
      SelectionKnown(table.rows, start, skipped, limit, ids);
      if claimLost == Some(false) {
        return 0;
      }
      var claimed := table.ClaimBatch(limit, skipped, ids, start, instanceId);
      if claimLost.Some? {
        return 0;
      }
      done := PublishBatch(claimed, attempts, start);
    }

    /** The batch loop of a tick. */
    method PublishBatch(claimed: seq<ClaimedRow>, attempts: seq<Attempt>, start: int) returns (done: nat)
      requires |attempts| == |claimed|
      modifies this, table
      ensures done <= |claimed|
      ensures forall j | 0 <= j < done - 1 :: attempts[j].fault == Fine || attempts[j].recordLost == None
      ensures done < |claimed| ==> done > 0 && attempts[done - 1].fault != Fine && attempts[done - 1].recordLost != None
      ensures table.rows == TickRows(old(table.rows), claimed, attempts, start, done)
      ensures published == old(published) + Received(claimed, attempts, done)
    {
      var now := start;
      ghost var before, sent := table.rows, published;
      done := 0;
      while done < |claimed|
        invariant done <= |claimed|
        invariant forall j | 0 <= j < done :: attempts[j].fault == Fine || attempts[j].recordLost == None
        invariant now == ClockAfter(start, attempts, done)
        invariant table.rows == TickRows(before, claimed, attempts, start, done)
        invariant published == sent + Received(claimed, attempts, done)
      {
        now := now + attempts[done].elapsed;
        OneFurther(before, claimed, attempts, start, done);
        var threw := PublishOne(claimed[done], attempts[done], now);
        done := done + 1;
        if threw {
          return;
        }
      }
    }
  }
}
