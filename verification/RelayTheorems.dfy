/** What holds in every reachable state of the relay protocol and over every run of it. */
module RelayTheorems {
  import opened OutboxTable
  import opened RelayProtocol
  import RetryPolicy

  // ---- Fencing ----

  /** Outstanding claims of one row hold distinct tokens it has issued; at most one of them
      would win the compare-and-swap; none would once the row has failed, so a replay, which
      issues no token, cannot be undone by an earlier claimant. */
  lemma TokensFence(cfg: Config, s: State)
    requires Reachable(cfg, s)
    ensures forall c | c in s.claims :: s.claims[c].row.id in s.rows &&
              s.claims[c].row.token <= s.rows[s.claims[c].row.id].lockVersion
    ensures forall c, d | c in s.claims && d in s.claims && c != d && s.claims[c].row.id == s.claims[d].row.id ::
              s.claims[c].row.token != s.claims[d].row.token && !(Holds(s, c) && Holds(s, d))
    ensures forall c | c in s.claims && Holds(s, c) :: !s.rows[s.claims[c].row.id].status.Failed?
    ensures forall c | c in s.claims && Holds(s, c) && s.rows[s.claims[c].row.id].status.Sent? ::
              s.claims[c].phase == InCatch(true)
  {
    ReachableInv(cfg, s);
    forall c | c in s.claims ensures ClaimFits(s, c) {
    }
  }

  /** A claimant whose token is stale changes no row, whatever it does next. */
  lemma StaleClaimantInert(cfg: Config, s: State, step: Step)
    requires Enabled(cfg, s, step)
    requires step.Publish? || step.Confirm? || step.ConfirmFails? || step.Abandon? || ClosesClaim(step)
    requires !Holds(s, step.c)
    ensures Next(cfg, s, step).rows == s.rows
  {
  }

  /** Writing the attempt count from the claim's snapshot is the same as incrementing the
      stored count in place, and the stored budget decides the outcome. */
  lemma SnapshotWriteIsIncrement(cfg: Config, s: State, step: Step)
    requires Reachable(cfg, s) && Enabled(cfg, s, step) && step.MarkFailed? && Holds(s, step.c)
    ensures var id := s.claims[step.c].row.id;
            var r := s.rows[id];
            && Next(cfg, s, step).rows == s.rows[id := FailedRow(r, r.attempts, r.ev.maxAttempts, s.now, step.error)]
            && Next(cfg, s, step).rows[id].attempts == r.attempts + 1
            && (Next(cfg, s, step).rows[id].status.Failed? <==>
                  r.attempts + 1 == RetryPolicy.Budget(r.ev.maxAttempts))
  {
    ReachableInv(cfg, s);
    assert ClaimFits(s, step.c);
    var id := s.claims[step.c].row.id;
    assert RowCounted(s.rows[id], s.failures[id]);
    RetryPolicy.OutcomeFollowsBudget(s.rows[id].attempts, s.rows[id].ev.maxAttempts, s.now);
  }

  /** `attempts` is the number of failures recorded since the last replay; it stays below the
      budget until the row fails, and a failed row has used exactly its budget. */
  lemma AttemptsCountFailures(cfg: Config, s: State, id: RowId)
    requires Reachable(cfg, s) && id in s.rows
    ensures id in s.failures && s.rows[id].attempts == |s.failures[id]|
    ensures s.rows[id].attempts <= RetryPolicy.Budget(s.rows[id].ev.maxAttempts)
    ensures s.rows[id].status.Failed? <==> s.rows[id].attempts == RetryPolicy.Budget(s.rows[id].ev.maxAttempts)
  {
    ReachableInv(cfg, s);
    assert RowCounted(s.rows[id], s.failures[id]);
  }

  // ---- Sent ----

  /** A sent row's token belongs to a claim whose publish the broker confirmed, and the
      broker holds a copy of the row's event from that claim. */
  lemma SentMeansConfirmed(cfg: Config, s: State, id: RowId)
    requires Reachable(cfg, s) && id in s.rows && s.rows[id].status.Sent?
    ensures (id, s.rows[id].lockVersion) in s.confirmed
    ensures Copy(id, s.rows[id].lockVersion, s.rows[id].ev) in s.published
  {
    ReachableInv(cfg, s);
    var token := s.rows[id].lockVersion;
    assert (id, token) in s.confirmed;
    assert ReceivedFrom(s, id, token);
    var p :| p in s.published && p.row == id && p.token == token;
  }

  /** Somewhere in the run the broker confirms a publish made under this token of the row. */
  ghost predicate ConfirmsIn(cfg: Config, s: State, steps: seq<Step>, id: RowId, token: nat)
    requires ValidRun(cfg, s, steps)
    decreases |steps|
  {
    steps != []
    && ((steps[0].Confirm? && s.claims[steps[0].c].row.id == id && s.claims[steps[0].c].row.token == token)
        || ConfirmsIn(cfg, Next(cfg, s, steps[0]), steps[1..], id, token))
  }

  /** And somewhere it receives that publish, of this event. */
  ghost predicate ReceivesIn(cfg: Config, s: State, steps: seq<Step>, id: RowId, token: nat, ev: EventRecord)
    requires ValidRun(cfg, s, steps)
    decreases |steps|
  {
    steps != []
    && ((steps[0].Publish? && steps[0].reached && s.claims[steps[0].c].row.id == id
         && s.claims[steps[0].c].row.token == token && s.claims[steps[0].c].row.ev == ev)
        || ReceivesIn(cfg, Next(cfg, s, steps[0]), steps[1..], id, token, ev))
  }

  lemma {:induction false} ConfirmedByStep(cfg: Config, s: State, steps: seq<Step>, id: RowId, token: nat, ev: EventRecord)
    requires ValidRun(cfg, s, steps)
    ensures (id, token) in Run(cfg, s, steps).confirmed <==> (id, token) in s.confirmed || ConfirmsIn(cfg, s, steps, id, token)
    ensures Copy(id, token, ev) in Run(cfg, s, steps).published <==>
            Copy(id, token, ev) in s.published || ReceivesIn(cfg, s, steps, id, token, ev)
    decreases |steps|
  {
    if steps != [] {
      ConfirmedByStep(cfg, Next(cfg, s, steps[0]), steps[1..], id, token, ev);
    }
  }

  /** In every run that ends with the row sent, the broker received the row's event from the
      claim whose token the row ends with, and confirmed it. */
  lemma SentMeansConfirmedInRun(cfg: Config, steps: seq<Step>, id: RowId)
    requires ValidRun(cfg, INIT, steps)
    requires var t := Run(cfg, INIT, steps); id in t.rows && t.rows[id].status.Sent?
    ensures var r := Run(cfg, INIT, steps).rows[id];
            ConfirmsIn(cfg, INIT, steps, id, r.lockVersion) && ReceivesIn(cfg, INIT, steps, id, r.lockVersion, r.ev)
  {
    var t := Run(cfg, INIT, steps);
    SentMeansConfirmed(cfg, t, id);
    ConfirmedByStep(cfg, INIT, steps, id, t.rows[id].lockVersion, t.rows[id].ev);
  }

  /** Across retries, reclaims and replays every copy of a row is the same event. */
  lemma CopiesAgree(cfg: Config, s: State, p: Copy, q: Copy)
    requires Reachable(cfg, s) && p in s.published && q in s.published
    ensures p.ev.eventId.Some? && p.ev.eventId == q.ev.eventId ==> p.row == q.row
    ensures p.row == q.row ==> p.ev == q.ev
  {
    ReachableInv(cfg, s);
  }

  /** A step changes a sent row exactly when it is the failure record of a claim that still
      holds the row's token; that claim's own `markSent` had taken effect and thrown. */
  lemma SentUndoneExactlyWhen(cfg: Config, s: State, step: Step, id: RowId)
    requires Reachable(cfg, s) && Enabled(cfg, s, step) && id in s.rows && s.rows[id].status.Sent?
    ensures id in Next(cfg, s, step).rows
    ensures Next(cfg, s, step).rows[id] != s.rows[id] <==>
            step.MarkFailed? && s.claims[step.c].row.id == id && Holds(s, step.c)
    ensures step.MarkFailed? && s.claims[step.c].row.id == id && Holds(s, step.c) ==>
              s.claims[step.c].phase == InCatch(true)
              && !Next(cfg, s, step).rows[id].status.Sent?
  {
    ReachableInv(cfg, s);
    SentStep(cfg, s, step, id);
  }

  lemma SentStep(cfg: Config, s: State, step: Step, id: RowId)
    requires Fenced(s) && Enabled(cfg, s, step) && id in s.rows && s.rows[id].status.Sent?
    ensures id in Next(cfg, s, step).rows
    ensures if step.MarkFailed? && s.claims[step.c].row.id == id && Holds(s, step.c)
            then s.claims[step.c].phase == InCatch(true)
                 && !Next(cfg, s, step).rows[id].status.Sent?
            else Next(cfg, s, step).rows[id] == s.rows[id]
  {
    RowMoves(cfg, s, step, id);
    if ClosesClaim(step) {
      assert ClaimFits(s, step.c);
    }
  }

  /** Some outstanding claim could still undo the row. */
  ghost predicate Undoable(s: State, id: RowId) {
    exists c :: c in s.claims && s.claims[c].phase == InCatch(true) && s.claims[c].row.id == id
  }

  ghost predicate LosesNoAck(steps: seq<Step>) {
    forall i | 0 <= i < |steps| :: !(steps[i].MarkSentThrows? && steps[i].tookEffect)
  }

  lemma SentStaysFinal(cfg: Config, s: State, step: Step, id: RowId)
    requires Fenced(s) && Enabled(cfg, s, step) && !(step.MarkSentThrows? && step.tookEffect)
    requires id in s.rows && s.rows[id].status.Sent? && !Undoable(s, id)
    ensures var t := Next(cfg, s, step); id in t.rows && t.rows[id] == s.rows[id] && !Undoable(t, id)
  {
    SentStep(cfg, s, step, id);
    var t := Next(cfg, s, step);
    forall c | c in t.claims && t.claims[c].phase == InCatch(true) ensures t.claims[c].row.id != id {
      assert c in s.claims && s.claims[c] == t.claims[c];
    }
  }

  /** As long as no `markSent` takes effect and throws, sent is final: no run changes the row. */
  lemma {:induction false} SentIsFinal(cfg: Config, s: State, steps: seq<Step>, id: RowId)
    requires Fenced(s) && ValidRun(cfg, s, steps) && LosesNoAck(steps)
    requires id in s.rows && s.rows[id].status.Sent? && !Undoable(s, id)
    ensures var t := Run(cfg, s, steps); id in t.rows && t.rows[id] == s.rows[id]
    decreases |steps|
  {
    if steps != [] {
      var t := Next(cfg, s, steps[0]);
      FencedKept(cfg, s, steps[0]);
      SentStaysFinal(cfg, s, steps[0], id);
      SentIsFinal(cfg, t, steps[1..], id);
    }
  }

  /** A claim whose effective `markSent` threw still holds its row. */
  ghost predicate LostAcksHold(s: State) {
    forall c | c in s.claims && s.claims[c].phase == InCatch(true) :: Holds(s, c)
  }

  lemma LostAckHeld(cfg: Config, s: State, step: Step, c: ClaimId)
    requires Fenced(s) && LostAcksHold(s) && Enabled(cfg, s, step)
    requires c in Next(cfg, s, step).claims && Next(cfg, s, step).claims[c].phase == InCatch(true)
    ensures Holds(Next(cfg, s, step), c)
  {
    if c !in s.claims {
      NewClaimFits(cfg, s, step, c);
    } else {
      OldClaimMoves(cfg, s, step, c);
      assert ClaimFits(s, c);
      RowMoves(cfg, s, step, s.claims[c].row.id);
    }
  }

  lemma {:induction false} RunKeepsLostAcks(cfg: Config, s: State, steps: seq<Step>)
    requires Fenced(s) && LostAcksHold(s) && ValidRun(cfg, s, steps)
    ensures LostAcksHold(Run(cfg, s, steps))
    decreases |steps|
  {
    if steps != [] {
      var t := Next(cfg, s, steps[0]);
      FencedKept(cfg, s, steps[0]);
      forall c | c in t.claims && t.claims[c].phase == InCatch(true) ensures Holds(t, c) {
        LostAckHeld(cfg, s, steps[0], c);
      }
      RunKeepsLostAcks(cfg, t, steps[1..]);
    }
  }

  lemma ReachableLostAcks(cfg: Config, s: State)
    requires Reachable(cfg, s)
    ensures LostAcksHold(s)
  {
    var steps :| ValidRun(cfg, INIT, steps) && Run(cfg, INIT, steps) == s;
    RunKeepsLostAcks(cfg, INIT, steps);
  }

  /** Some run in which no further reply is lost changes the row. */
  ghost predicate CanChange(cfg: Config, s: State, id: RowId)
    requires id in s.rows
  {
    exists steps :: ValidRun(cfg, s, steps) && LosesNoAck(steps) && Changed(s, Run(cfg, s, steps), id)
  }

  ghost predicate Changed(s: State, t: State, id: RowId)
    requires id in s.rows
  {
    id !in t.rows || t.rows[id] != s.rows[id]
  }

  /** In any reachable state, a sent row can still change without a further lost reply exactly
      when the reply of its own `markSent` was lost and its claimant has yet to react. */
  lemma SentIsFinalExactly(cfg: Config, s: State, id: RowId)
    requires Reachable(cfg, s) && id in s.rows && s.rows[id].status.Sent?
    ensures CanChange(cfg, s, id) <==> Undoable(s, id)
  {
    ReachableInv(cfg, s);
    ReachableLostAcks(cfg, s);
    if Undoable(s, id) {
      var c :| c in s.claims && s.claims[c].phase == InCatch(true) && s.claims[c].row.id == id;
      var step := MarkFailed(c, "");
      SentStep(cfg, s, step, id);
      assert ValidRun(cfg, Next(cfg, s, step), []);
      Unroll(cfg, s, step, []);
      assert [step] + [] == [step] && Changed(s, Run(cfg, s, [step]), id);
      assert LosesNoAck([step]);
    } else {
      forall steps | ValidRun(cfg, s, steps) && LosesNoAck(steps) ensures !Changed(s, Run(cfg, s, steps), id) {
        SentIsFinal(cfg, s, steps, id);
      }
    }
  }

  /** Without that assumption it is not: whenever a confirmed claim holds its row, a
      `markSent` that takes effect and throws is followed by a failure record that takes
      the row out of `sent` again. */
  lemma LostAckUndoesSent(cfg: Config, s: State, c: ClaimId, error: string)
    requires c in s.claims && s.claims[c].phase.Confirmed? && Holds(s, c)
    ensures var id := s.claims[c].row.id;
            var lost := MarkSentThrows(c, true);
            var record := MarkFailed(c, error);
            && Enabled(cfg, s, lost)
            && Next(cfg, s, lost).rows[id].status.Sent?
            && Enabled(cfg, Next(cfg, s, lost), record)
            && !Next(cfg, Next(cfg, s, lost), record).rows[id].status.Sent?
  {
  }

  /** Such a claim exists: one row, claimed, published and confirmed. */
  lemma ConfirmedClaimReachable(ev: EventRecord) returns (cfg: Config, s: State)
    ensures Reachable(cfg, s)
    ensures 0 in s.claims && s.claims[0].phase.Confirmed? && Holds(s, 0) && s.claims[0].row.ev == ev
  {
    cfg := Config(1, 60000);
    ReachableInit(cfg);
    ReachableNext(cfg, INIT, Insert(0, ev));
    s := Next(cfg, INIT, Insert(0, ev));
    assert Eligible(s.rows, 0, {}) == {0};
    assert Enabled(cfg, s, ClaimBatch([0], {}, "relay"));
    ReachableNext(cfg, s, ClaimBatch([0], {}, "relay"));
    s := Next(cfg, s, ClaimBatch([0], {}, "relay"));
    ReachableNext(cfg, s, Publish(0, true, true));
    s := Next(cfg, s, Publish(0, true, true));
    ReachableNext(cfg, s, Confirm(0));
    s := Next(cfg, s, Confirm(0));
  }

  // ---- Back-off ----

  /** Consecutive recorded failures, with no replay in between, are at least the back-off
      delay apart. */
  lemma FailuresAreSpaced(cfg: Config, s: State, id: RowId, k: nat)
    requires Reachable(cfg, s) && id in s.rows && id in s.failures && 1 <= k < |s.failures[id]|
    ensures s.failures[id][k] - s.failures[id][k - 1] >= RetryPolicy.RetryDelayMs(k)
  {
    ReachableInv(cfg, s);
    assert RowSpaced(s.rows[id], s.failures[id], s.now);
  }

  /** A row that failed and may try again becomes due exactly the back-off delay of its latest
      failure later, not sooner and not later. */
  lemma RetryDueExactly(cfg: Config, s: State, id: RowId)
    requires Reachable(cfg, s) && id in s.rows && s.rows[id].status.Pending? && s.rows[id].attempts > 0
    ensures id in s.failures && |s.failures[id]| == s.rows[id].attempts
    ensures s.rows[id].nextRetryAt ==
            s.failures[id][s.rows[id].attempts - 1] + RetryPolicy.RetryDelayMs(s.rows[id].attempts)
  {
    AttemptsCountFailures(cfg, s, id);
    ReachableInv(cfg, s);
    assert RowSpaced(s.rows[id], s.failures[id], s.now);
  }

  lemma {:induction false} FirstToMth(cfg: Config, s: State, id: RowId, m: nat)
    requires Reachable(cfg, s) && id in s.rows && id in s.failures && 1 <= m <= |s.failures[id]|
    ensures s.failures[id][m - 1] - s.failures[id][0] >= RetryPolicy.TotalDelay(m)
  {
    if m > 1 {
      FirstToMth(cfg, s, id, m - 1);
      FailuresAreSpaced(cfg, s, id, m - 1);
    }
  }

  /** A row with a budget of m attempts is not dead-lettered sooner after its first failure
      than the curve adds up to: 2000 * (2^(m-1) - 1) ms up to five, 30000 * (m - 4) from there. */
  lemma DeadLetterTakes(cfg: Config, s: State, id: RowId)
    requires Reachable(cfg, s) && id in s.rows && s.rows[id].status.Failed?
    ensures var m := RetryPolicy.Budget(s.rows[id].ev.maxAttempts);
            && id in s.failures && |s.failures[id]| == m
            && var elapsed := s.failures[id][m - 1] - s.failures[id][0];
               && (m <= 5 ==> elapsed >= 2000 * (RetryPolicy.Pow2(m - 1) - 1))
               && (m >= 5 ==> elapsed >= 30000 * (m - 4))
  {
    AttemptsCountFailures(cfg, s, id);
    var m := RetryPolicy.Budget(s.rows[id].ev.maxAttempts);
    FirstToMth(cfg, s, id, m);
    RetryPolicy.TotalDelayClosedForm(m);
  }

  // ---- The lock columns ----

  function EraseRows(rows: Rows): Rows {
    map id | id in rows :: Unlocked(rows[id])
  }

  /** The state as it looks to everything but the reaper. */
  function Erase(s: State): State {
    s.(rows := EraseRows(s.rows))
  }

  // Each statement acts on the erased rows as it does on the rows.

  lemma EraseClaim(rows: Rows, ids: seq<RowId>, now: int, relay: string)
    ensures EraseRows(ClaimRows(EraseRows(rows), ids, now, relay)) == EraseRows(ClaimRows(rows, ids, now, relay))
  {
  }

  lemma EraseClose(rows: Rows, c: ClaimedRow, now: int, error: string)
    ensures Owns(EraseRows(rows), c.id, c.token) == Owns(rows, c.id, c.token)
    ensures EraseRows(MarkSentRows(EraseRows(rows), c.id, c.token, now)) == EraseRows(MarkSentRows(rows, c.id, c.token, now))
    ensures EraseRows(MarkFailedRows(EraseRows(rows), c, now, error)) == EraseRows(MarkFailedRows(rows, c, now, error))
  {
  }

  lemma EraseReap(rows: Rows, now: int, ttlMs: int)
    ensures EraseRows(ReapRows(EraseRows(rows), now, ttlMs)) == EraseRows(ReapRows(rows, now, ttlMs)) == EraseRows(rows)
  {
  }

  lemma EraseReplay(rows: Rows, q: ReplayRequest, now: int)
    ensures EraseRows(ReplayRows(EraseRows(rows), q, now)) == EraseRows(ReplayRows(rows, q, now))
  {
  }

  lemma EraseInsert(rows: Rows, id: RowId, ev: EventRecord, now: int)
    ensures EraseRows(EraseRows(rows)[id := NewRow(ev, now)]) == EraseRows(rows[id := NewRow(ev, now)])
    ensures EventIdFree(EraseRows(rows), ev.eventId) == EventIdFree(rows, ev.eventId)
  {
    assert forall i | i in rows :: EraseRows(rows)[i].ev == rows[i].ev;
    assert EraseRows(rows).Keys == rows.Keys;
  }

  lemma EraseTwice(rows: Rows)
    ensures EraseRows(EraseRows(rows)) == EraseRows(rows)
  {
  }

  lemma EraseEnabled(cfg: Config, s: State, step: Step)
    ensures Enabled(cfg, Erase(s), step) <==> Enabled(cfg, s, step)
  {
    assert Erase(s).rows.Keys == s.rows.Keys;
    match step {
      case Insert(id, ev) => EraseInsert(s.rows, id, ev, s.now);
      case ClaimBatch(_, skipped, _) => assert Eligible(Erase(s).rows, s.now, skipped) == Eligible(s.rows, s.now, skipped);
      case _ =>
    }
  }

  lemma EraseClosing(cfg: Config, s: State, step: Step)
    requires ClosesClaim(step) && Enabled(cfg, s, step) && Enabled(cfg, Erase(s), step)
    ensures Erase(Next(cfg, Erase(s), step)) == Erase(Next(cfg, s, step))
  {
    EraseTwice(s.rows);
    EraseClose(s.rows, s.claims[step.c].row, s.now, if step.MarkFailed? then step.error else "");
  }

  lemma EraseClaiming(s: State, ids: seq<RowId>, relay: string)
    requires forall id | id in ids :: id in s.rows && id in Erase(s).rows
    ensures Erase(AfterClaim(Erase(s), ids, relay)) == Erase(AfterClaim(s, ids, relay))
  {
    EraseClaim(s.rows, ids, s.now, relay);
    assert NewClaims(s, ids) == NewClaims(Erase(s), ids);
  }

  lemma EraseNext(cfg: Config, s: State, step: Step)
    requires Enabled(cfg, s, step) && Enabled(cfg, Erase(s), step)
    ensures Erase(Next(cfg, Erase(s), step)) == Erase(Next(cfg, s, step))
    ensures step.Reap? ==> Erase(Next(cfg, s, step)) == Erase(s)
  {
    if ClosesClaim(step) {
      EraseClosing(cfg, s, step);
    } else {
      match step {
        case Insert(id, ev) => EraseInsert(s.rows, id, ev, s.now);
        case ClaimBatch(_, _, _) => EraseClaiming(s, step.ids, step.relay);
        case Reap => EraseReap(s.rows, s.now, cfg.lockTtlMs);
        case Replay(q) =>
          EraseReplay(s.rows, q, s.now);
          assert Next(cfg, Erase(s), step).failures == Next(cfg, s, step).failures;
        case _ => EraseTwice(s.rows);
      }
    }
  }

  /** Two states that differ only in the lock columns allow the same steps, and every step
      takes them to states that differ only there; a reap changes nothing else. */
  lemma LocksUnobservable(cfg: Config, s: State, t: State, step: Step)
    requires Erase(s) == Erase(t)
    ensures Enabled(cfg, s, step) <==> Enabled(cfg, t, step)
    ensures Enabled(cfg, s, step) ==> Erase(Next(cfg, s, step)) == Erase(Next(cfg, t, step))
    ensures step.Reap? ==> Erase(Next(cfg, s, step)) == Erase(s)
  {
    EraseEnabled(cfg, s, step);
    EraseEnabled(cfg, t, step);
    if Enabled(cfg, s, step) {
      EraseNext(cfg, s, step);
      EraseNext(cfg, t, step);
    }
  }

  function WithoutReaps(steps: seq<Step>): seq<Step> {
    if steps == [] then []
    else if steps[0].Reap? then WithoutReaps(steps[1..])
    else [steps[0]] + WithoutReaps(steps[1..])
  }

  /** Striking the reaper out of any run leaves a run with the same outcome, and putting it
      back anywhere never blocks one. */
  lemma {:induction false} ReaperIsRedundant(cfg: Config, s: State, t: State, steps: seq<Step>)
    requires Erase(s) == Erase(t)
    ensures ValidRun(cfg, s, steps) <==> ValidRun(cfg, t, WithoutReaps(steps))
    ensures ValidRun(cfg, s, steps) ==>
              Erase(Run(cfg, s, steps)) == Erase(Run(cfg, t, WithoutReaps(steps)))
    decreases |steps|
  {
    if steps != [] {
      LocksUnobservable(cfg, s, t, steps[0]);
      if steps[0].Reap? {
        ReaperIsRedundant(cfg, Next(cfg, s, steps[0]), t, steps[1..]);
      } else {
        assert WithoutReaps(steps)[1..] == WithoutReaps(steps[1..]);
        if Enabled(cfg, s, steps[0]) {
          ReaperIsRedundant(cfg, Next(cfg, s, steps[0]), Next(cfg, t, steps[0]), steps[1..]);
        }
      }
    }
  }
}
