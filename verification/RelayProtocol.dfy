/** The relay protocol as a state machine: any number of relay processes, each running any
    number of overlapping ticks, against one outbox table. Every SQL statement and every
    broker interaction of `publishOne` is one atomic step, so steps of different activations
    interleave freely. A crash is an activation that stops (`Abandon`). */
module RelayProtocol {
  import opened OutboxTable
  import RetryPolicy

  datatype Config = Config(batchSize: int, lockTtlMs: int)

  /** Where one activation of `publishOne` is. `Written(reached)`: `publish` returned true,
      and `reached` says whether the broker got the copy. `InCatch(lostAck)`: an exception
      was raised; `lostAck` when it came from a `markSent` that took effect all the same. */
  datatype Phase = Claimed | Written(reached: bool) | Confirmed | InCatch(lostAck: bool)

  datatype Claim = Claim(row: ClaimedRow, claimedAt: int, phase: Phase)

  type ClaimId = nat

  /** A message the broker received from a relay. */
  datatype Copy = Copy(row: RowId, token: nat, ev: EventRecord)

  /** `published`, `confirmed` and `failures` are history: no step reads them. `failures`
      holds, per row, the times of the failures recorded since the last replay. */
  datatype State = State(
    now: int,
    rows: Rows,
    claims: map<ClaimId, Claim>,
    nextClaim: ClaimId,
    published: seq<Copy>,
    confirmed: set<(RowId, nat)>,
    failures: map<RowId, seq<int>>)

  const INIT: State := State(0, map[], map[], 0, [], {}, map[])

  datatype Step =
    | Advance(ms: nat)
    | Insert(id: RowId, ev: EventRecord)
    | ClaimBatch(ids: seq<RowId>, skipped: set<RowId>, relay: string)
    | Publish(c: ClaimId, accepted: bool, reached: bool)
    | Confirm(c: ClaimId)
    | ConfirmFails(c: ClaimId)
    | MarkSent(c: ClaimId)
    | MarkSentThrows(c: ClaimId, tookEffect: bool)
    | MarkFailed(c: ClaimId, error: string)
    | Abandon(c: ClaimId)
    | Reap
    | Replay(request: ReplayRequest)

  ghost predicate Enabled(cfg: Config, s: State, step: Step) {
    match step
    case Advance(_) => true
    case Insert(id, ev) => id !in s.rows && EventIdFree(s.rows, ev.eventId)
    case ClaimBatch(ids, skipped, _) => cfg.batchSize >= 0 && IsClaimSelection(s.rows, s.now, skipped, cfg.batchSize, ids)
    case Publish(c, _, _) => c in s.claims && s.claims[c].phase.Claimed?
    case Confirm(c) => c in s.claims && s.claims[c].phase == Written(true)
    case ConfirmFails(c) => c in s.claims && s.claims[c].phase.Written?
    case MarkSent(c) => c in s.claims && s.claims[c].phase.Confirmed?
    case MarkSentThrows(c, _) => c in s.claims && s.claims[c].phase.Confirmed?
    case MarkFailed(c, _) => c in s.claims && s.claims[c].phase.InCatch?
    case Abandon(c) => c in s.claims
    case Reap => true
    case Replay(_) => true
  }

  function Next(cfg: Config, s: State, step: Step): State
    requires Enabled(cfg, s, step)
  {
    match step
    case Advance(ms) => s.(now := s.now + ms)
    case Insert(id, ev) => s.(rows := s.rows[id := NewRow(ev, s.now)], failures := s.failures[id := []])
    case ClaimBatch(ids, _, relay) => AfterClaim(s, ids, relay)
    case Publish(c, accepted, reached) =>
      s.(claims := s.claims[c := s.claims[c].(phase := if accepted then Written(reached) else InCatch(false))],
         published := if reached then s.published + [CopyOf(s.claims[c].row)] else s.published)
    case Confirm(c) =>
      s.(claims := s.claims[c := s.claims[c].(phase := Confirmed)],
         confirmed := s.confirmed + {(s.claims[c].row.id, s.claims[c].row.token)})
    case ConfirmFails(c) => s.(claims := s.claims[c := s.claims[c].(phase := InCatch(false))])
    case MarkSent(c) =>
      s.(rows := MarkSentRows(s.rows, s.claims[c].row.id, s.claims[c].row.token, s.now), claims := s.claims - {c})
    case MarkSentThrows(c, tookEffect) =>
      var r := s.claims[c].row;
      if tookEffect && Owns(s.rows, r.id, r.token) then
        s.(rows := MarkSentRows(s.rows, r.id, r.token, s.now),
           claims := s.claims[c := s.claims[c].(phase := InCatch(true))])
      else s.(claims := s.claims[c := s.claims[c].(phase := InCatch(false))])
    case MarkFailed(c, error) =>
      var r := s.claims[c].row;
      s.(rows := MarkFailedRows(s.rows, r, s.now, error),
         claims := s.claims - {c},
         failures := if Owns(s.rows, r.id, r.token) && r.id in s.failures
                     then s.failures[r.id := s.failures[r.id] + [s.now]] else s.failures)
    case Abandon(c) => s.(claims := s.claims - {c})
    case Reap => s.(rows := ReapRows(s.rows, s.now, cfg.lockTtlMs))
    case Replay(q) =>
      s.(rows := ReplayRows(s.rows, q, s.now),
         failures := map id | id in s.failures ::
                       if id in s.rows && Replays(q, id, s.rows[id]) then [] else s.failures[id])
  }

  function AfterClaim(s: State, ids: seq<RowId>, relay: string): State
    requires forall id | id in ids :: id in s.rows
  {
    s.(rows := ClaimRows(s.rows, ids, s.now, relay),
       claims := s.claims + NewClaims(s, ids),
       nextClaim := s.nextClaim + |ids|)
  }

  /** The i-th selected row gets the i-th fresh activation. */
  function NewClaims(s: State, ids: seq<RowId>): map<ClaimId, Claim>
    requires forall id | id in ids :: id in s.rows
  {
    map c | c in FreshIds(s.nextClaim, |ids|) :: NewClaim(s, ids[c - s.nextClaim])
  }

  function FreshIds(first: ClaimId, n: nat): (ids: set<ClaimId>)
    ensures forall c :: c in ids <==> first <= c < first + n
  {
    if n == 0 then {} else FreshIds(first, n - 1) + {first + n - 1}
  }

  function NewClaim(s: State, id: RowId): Claim
    requires id in s.rows
  {
    Claim(Snapshot(s.rows, id), s.now, Claimed)
  }

  function CopyOf(r: ClaimedRow): Copy {
    Copy(r.id, r.token, r.ev)
  }

  ghost predicate ValidRun(cfg: Config, s: State, steps: seq<Step>)
    decreases |steps|
  {
    steps == [] || (Enabled(cfg, s, steps[0]) && ValidRun(cfg, Next(cfg, s, steps[0]), steps[1..]))
  }

  ghost function Run(cfg: Config, s: State, steps: seq<Step>): State
    requires ValidRun(cfg, s, steps)
    decreases |steps|
  {
    if steps == [] then s else Run(cfg, Next(cfg, s, steps[0]), steps[1..])
  }

  ghost predicate Reachable(cfg: Config, s: State) {
    exists steps :: ValidRun(cfg, INIT, steps) && Run(cfg, INIT, steps) == s
  }

  // ---- The invariant ----

  /** Claims carry a token their row has issued, no two the same one, and a claim holding the
      newest token knows the row's attempt count and finds it pending, unless its own
      `markSent` took effect without it learning so. */
  ghost predicate Fenced(s: State) {
    && (forall c | c in s.claims :: ClaimFits(s, c))
    && (forall c, d | c in s.claims && d in s.claims && c != d ::
          s.claims[c].row.id == s.claims[d].row.id ==> s.claims[c].row.token != s.claims[d].row.token)
  }

  ghost predicate ClaimFits(s: State, c: ClaimId)
    requires c in s.claims
  {
    var k := s.claims[c];
    && c < s.nextClaim
    && k.row.id in s.rows
    && 0 < k.row.token <= s.rows[k.row.id].lockVersion
    && k.row.ev == s.rows[k.row.id].ev
    && k.claimedAt <= s.now
    && (Holds(s, c) ==>
          && k.row.attempts == s.rows[k.row.id].attempts
          && s.rows[k.row.id].nextRetryAt <= k.claimedAt
          && s.rows[k.row.id].status == if k.phase == InCatch(true) then Sent else Pending)
  }

  /** The claim would win the compare-and-swap now. */
  ghost predicate Holds(s: State, c: ClaimId)
    requires c in s.claims
  {
    Owns(s.rows, s.claims[c].row.id, s.claims[c].row.token)
  }

  /** `attempts` counts the failures since the last replay, against the row's budget. */
  ghost predicate Counted(s: State) {
    && s.failures.Keys == s.rows.Keys
    && forall id | id in s.rows :: RowCounted(s.rows[id], s.failures[id])
  }

  ghost predicate RowCounted(r: Row, failures: seq<int>) {
    && |failures| == r.attempts
    && (if r.status.Failed? then r.attempts == RetryPolicy.Budget(r.ev.maxAttempts)
        else r.attempts < RetryPolicy.Budget(r.ev.maxAttempts))
  }

  /** A sent row's token was confirmed by the broker, what was confirmed was received, and
      what was received is the row's event. */
  ghost predicate Delivered(s: State) {
    && (forall id | id in s.rows && s.rows[id].status.Sent? :: (id, s.rows[id].lockVersion) in s.confirmed)
    && (forall c | c in s.claims :: ClaimDelivered(s, c))
    && (forall p | p in s.confirmed :: ReceivedFrom(s, p.0, p.1))
    && (forall p | p in s.published :: p.row in s.rows && p.ev == s.rows[p.row].ev)
  }

  ghost predicate ClaimDelivered(s: State, c: ClaimId)
    requires c in s.claims
  {
    var k := s.claims[c];
    && (k.phase.Confirmed? || k.phase == InCatch(true) ==> (k.row.id, k.row.token) in s.confirmed)
    && (k.phase == Written(true) ==> ReceivedFrom(s, k.row.id, k.row.token))
  }

  ghost predicate ReceivedFrom(s: State, id: RowId, token: nat) {
    exists p :: p in s.published && p.row == id && p.token == token
  }

  /** Recorded failures respect the back-off delays, and the next one cannot come early. */
  ghost predicate Spaced(s: State) {
    forall id | id in s.rows && id in s.failures :: RowSpaced(s.rows[id], s.failures[id], s.now)
  }

  ghost predicate RowSpaced(r: Row, failures: seq<int>, now: int) {
    && (forall k | 1 <= k < |failures| :: failures[k] - failures[k - 1] >= RetryPolicy.RetryDelayMs(k))
    && (forall k | 0 <= k < |failures| :: failures[k] <= now)
    && (|failures| > 0 && !r.status.Failed? ==>
          r.nextRetryAt == failures[|failures| - 1] + RetryPolicy.RetryDelayMs(|failures|))
  }

  ghost predicate Inv(s: State) {
    Fenced(s) && Counted(s) && Delivered(s) && Spaced(s) && DistinctEvents(s)
  }

  ghost predicate DistinctEvents(s: State) {
    forall i, j | i in s.rows && j in s.rows && i != j && s.rows[i].ev.eventId.Some? ::
      s.rows[i].ev.eventId != s.rows[j].ev.eventId
  }

  // ---- Every step keeps it ----

  /** A step rewrites the protocol columns of a row in four ways only. */
  lemma RowMoves(cfg: Config, s: State, step: Step, id: RowId)
    requires Enabled(cfg, s, step) && id in s.rows
    ensures var t := Next(cfg, s, step);
            && id in t.rows
            && t.rows[id].ev == s.rows[id].ev
            && (if step.ClaimBatch? && id in step.ids
                then t.rows[id].lockVersion == s.rows[id].lockVersion + 1 && SameStage(s.rows[id], t.rows[id])
                     && Due(s.rows[id], s.now)
                else t.rows[id].lockVersion == s.rows[id].lockVersion
                     && (|| SameStage(s.rows[id], t.rows[id])
                         || (step.Replay? && s.rows[id].status.Failed?)
                         || (ClosesClaim(step) && Holds(s, step.c) && s.claims[step.c].row.id == id)))
  {
  }

  /** The columns the reaper leaves alone. */
  predicate SameStage(r: Row, q: Row) {
    r.status == q.status && r.attempts == q.attempts && r.nextRetryAt == q.nextRetryAt
  }

  predicate ClosesClaim(step: Step) {
    step.MarkSent? || step.MarkSentThrows? || step.MarkFailed?
  }

  lemma NewClaimFits(cfg: Config, s: State, step: Step, c: ClaimId)
    requires Enabled(cfg, s, step) && c in Next(cfg, s, step).claims && c !in s.claims
    ensures step.ClaimBatch? && s.nextClaim <= c < s.nextClaim + |step.ids|
    ensures Next(cfg, s, step).claims[c] == NewClaim(s, step.ids[c - s.nextClaim])
    ensures ClaimFits(Next(cfg, s, step), c)
  {
    if step.ClaimBatch? {
      var id := step.ids[c - s.nextClaim];
      assert id in Eligible(s.rows, s.now, step.skipped);
      RowMoves(cfg, s, step, id);
    }
  }

  lemma OldClaimFits(cfg: Config, s: State, step: Step, c: ClaimId)
    requires Fenced(s) && Enabled(cfg, s, step) && c in s.claims && c in Next(cfg, s, step).claims
    ensures ClaimFits(Next(cfg, s, step), c)
  {
    assert ClaimFits(s, c);
    OldClaimMoves(cfg, s, step, c);
    RowMoves(cfg, s, step, s.claims[c].row.id);
    if ClosesClaim(step) && step.c != c && s.claims[step.c].row.id == s.claims[c].row.id {
      assert s.claims[step.c].row.token != s.claims[c].row.token;
    }
  }

  lemma FencedKept(cfg: Config, s: State, step: Step)
    requires Fenced(s) && Enabled(cfg, s, step)
    ensures Fenced(Next(cfg, s, step))
  {
    var t := Next(cfg, s, step);
    forall c | c in t.claims ensures ClaimFits(t, c) {
      if c in s.claims {
        OldClaimFits(cfg, s, step, c);
      } else {
        NewClaimFits(cfg, s, step, c);
      }
    }
    forall c, d | c in t.claims && d in t.claims && c < d && t.claims[c].row.id == t.claims[d].row.id
      ensures t.claims[c].row.token != t.claims[d].row.token
    {
      TokensDiffer(cfg, s, step, c, d);
    }
  }

  lemma TokensDiffer(cfg: Config, s: State, step: Step, c: ClaimId, d: ClaimId)
    requires Fenced(s) && Enabled(cfg, s, step)
    requires var t := Next(cfg, s, step); c in t.claims && d in t.claims && c < d && t.claims[c].row.id == t.claims[d].row.id
    ensures var t := Next(cfg, s, step); t.claims[c].row.token != t.claims[d].row.token
  {
    if d in s.claims {
      assert ClaimFits(s, d);
      if c !in s.claims {
        NewClaimFits(cfg, s, step, c);
      } else {
        OldClaimMoves(cfg, s, step, c);
        OldClaimMoves(cfg, s, step, d);
      }
    } else {
      NewClaimFits(cfg, s, step, d);
      if c in s.claims {
        assert ClaimFits(s, c);
        OldClaimMoves(cfg, s, step, c);
      } else {
        NewClaimFits(cfg, s, step, c);
      }
    }
  }

  lemma CountedKept(cfg: Config, s: State, step: Step)
    requires Fenced(s) && Counted(s) && Enabled(cfg, s, step)
    ensures Counted(Next(cfg, s, step))
  {
    var t := Next(cfg, s, step);
    forall id | id in t.rows ensures RowCounted(t.rows[id], t.failures[id]) {
      if id in s.rows {
        RowCountedKept(cfg, s, step, id);
      }
    }
  }

  lemma RowCountedKept(cfg: Config, s: State, step: Step, id: RowId)
    requires Fenced(s) && Counted(s) && Enabled(cfg, s, step) && id in s.rows
    ensures var t := Next(cfg, s, step); id in t.rows && id in t.failures && RowCounted(t.rows[id], t.failures[id])
  {
    assert RowCounted(s.rows[id], s.failures[id]);
    RowMoves(cfg, s, step, id);
    if ClosesClaim(step) && Holds(s, step.c) && s.claims[step.c].row.id == id {
      assert ClaimFits(s, step.c);
    }
  }

  lemma ReceivedKept(cfg: Config, s: State, step: Step, id: RowId, token: nat)
    requires Enabled(cfg, s, step) && ReceivedFrom(s, id, token)
    ensures ReceivedFrom(Next(cfg, s, step), id, token)
  {
    var p :| p in s.published && p.row == id && p.token == token;
    assert p in Next(cfg, s, step).published;
  }

  lemma ClaimDeliveredKept(cfg: Config, s: State, step: Step, c: ClaimId)
    requires Fenced(s) && Delivered(s) && Enabled(cfg, s, step) && c in Next(cfg, s, step).claims
    ensures ClaimDelivered(Next(cfg, s, step), c)
  {
    var t := Next(cfg, s, step);
    var k := t.claims[c];
    if c !in s.claims {
      NewClaimFits(cfg, s, step, c);
    } else {
      assert ClaimDelivered(s, c);
      OldClaimMoves(cfg, s, step, c);
      if step.Publish? && step.c == c && step.reached {
        assert CopyOf(k.row) in t.published;
      } else if s.claims[c].phase == Written(true) {
        ReceivedKept(cfg, s, step, k.row.id, k.row.token);
      }
    }
  }

  /** What a step does to an outstanding claim: its row stays, and so does its phase unless the
      step is its own. */
  lemma OldClaimMoves(cfg: Config, s: State, step: Step, c: ClaimId)
    requires Fenced(s) && Enabled(cfg, s, step) && c in s.claims && c in Next(cfg, s, step).claims
    ensures var k, j := s.claims[c], Next(cfg, s, step).claims[c];
            && j.row == k.row
            && (j.phase == k.phase
                || (step.Publish? && step.c == c && (j.phase == Written(step.reached) || j.phase == InCatch(false)))
                || (step.Confirm? && step.c == c && j.phase == Confirmed)
                || (step.ConfirmFails? && step.c == c && j.phase == InCatch(false))
                || (step.MarkSentThrows? && step.c == c && k.phase.Confirmed? && j.phase.InCatch?))
    ensures s.confirmed <= Next(cfg, s, step).confirmed
    ensures step.Confirm? ==> (s.claims[step.c].row.id, s.claims[step.c].row.token) in Next(cfg, s, step).confirmed
  {
    assert ClaimFits(s, c);
  }

  lemma DeliveredKept(cfg: Config, s: State, step: Step)
    requires Fenced(s) && Delivered(s) && Enabled(cfg, s, step)
    ensures Delivered(Next(cfg, s, step))
  {
    var t := Next(cfg, s, step);
    forall c | c in t.claims ensures ClaimDelivered(t, c) {
      ClaimDeliveredKept(cfg, s, step, c);
    }
    forall p | p in t.confirmed ensures ReceivedFrom(t, p.0, p.1) {
      ReceivedKept(cfg, s, step, p.0, p.1);
    }
    forall id | id in t.rows && t.rows[id].status.Sent? ensures (id, t.rows[id].lockVersion) in t.confirmed {
      if id in s.rows {
        RowMoves(cfg, s, step, id);
      }
    }
    forall p | p in t.published ensures p.row in t.rows && p.ev == t.rows[p.row].ev {
      if p in s.published {
        RowMoves(cfg, s, step, p.row);
      } else {
        assert ClaimFits(s, step.c);
      }
    }
  }

  lemma FailureSpaced(r: Row, failures: seq<int>, before: int, now: int, error: string)
    requires RowSpaced(r, failures, before) && RowCounted(r, failures) && !r.status.Failed?
    requires before <= now && r.nextRetryAt <= now
    ensures RowSpaced(FailedRow(r, r.attempts, r.ev.maxAttempts, now, error), failures + [now], now)
  {
  }

  lemma RowSpacedKept(cfg: Config, s: State, step: Step, id: RowId)
    requires Fenced(s) && Counted(s) && Spaced(s) && Enabled(cfg, s, step)
    requires id in s.rows
    ensures var t := Next(cfg, s, step);
            id in t.rows && id in t.failures && RowSpaced(t.rows[id], t.failures[id], t.now)
  {
    RowMoves(cfg, s, step, id);
    assert RowSpaced(s.rows[id], s.failures[id], s.now);
    if step.MarkFailed? && Holds(s, step.c) && s.claims[step.c].row.id == id {
      assert ClaimFits(s, step.c);
      assert RowCounted(s.rows[id], s.failures[id]);
      FailureSpaced(s.rows[id], s.failures[id], s.now, s.now, step.error);
    } else if !(step.Replay? && Replays(step.request, id, s.rows[id])) {
      StaysSpaced(s.rows[id], Next(cfg, s, step).rows[id], s.failures[id], s.now, Next(cfg, s, step).now);
    }
  }

  lemma StaysSpaced(r: Row, q: Row, failures: seq<int>, before: int, now: int)
    requires RowSpaced(r, failures, before) && before <= now && r.nextRetryAt == q.nextRetryAt
    requires r.status.Failed? ==> q.status.Failed?
    ensures RowSpaced(q, failures, now)
  {
  }

  lemma SpacedKept(cfg: Config, s: State, step: Step)
    requires Fenced(s) && Counted(s) && Spaced(s) && Enabled(cfg, s, step)
    ensures Spaced(Next(cfg, s, step))
  {
    var t := Next(cfg, s, step);
    forall id | id in t.rows && id in t.failures ensures RowSpaced(t.rows[id], t.failures[id], t.now) {
      if id in s.rows {
        RowSpacedKept(cfg, s, step, id);
      }
    }
  }

  lemma DistinctKept(cfg: Config, s: State, step: Step)
    requires DistinctEvents(s) && Enabled(cfg, s, step)
    ensures DistinctEvents(Next(cfg, s, step))
  {
  }

  lemma InvKept(cfg: Config, s: State, step: Step)
    requires Inv(s) && Enabled(cfg, s, step)
    ensures Inv(Next(cfg, s, step))
  {
    FencedKept(cfg, s, step);
    CountedKept(cfg, s, step);
    DeliveredKept(cfg, s, step);
    SpacedKept(cfg, s, step);
    DistinctKept(cfg, s, step);
  }

  lemma {:induction false} RunKeepsInv(cfg: Config, s: State, steps: seq<Step>)
    requires Inv(s) && ValidRun(cfg, s, steps)
    ensures Inv(Run(cfg, s, steps))
    decreases |steps|
  {
    if steps != [] {
      InvKept(cfg, s, steps[0]);
      RunKeepsInv(cfg, Next(cfg, s, steps[0]), steps[1..]);
    }
  }

  lemma ReachableInv(cfg: Config, s: State)
    requires Reachable(cfg, s)
    ensures Inv(s)
  {
    var steps :| ValidRun(cfg, INIT, steps) && Run(cfg, INIT, steps) == s;
    RunKeepsInv(cfg, INIT, steps);
  }

  lemma {:induction false} RunAppend(cfg: Config, s: State, first: seq<Step>, second: seq<Step>)
    requires ValidRun(cfg, s, first) && ValidRun(cfg, Run(cfg, s, first), second)
    ensures ValidRun(cfg, s, first + second)
    ensures Run(cfg, s, first + second) == Run(cfg, Run(cfg, s, first), second)
    decreases |first|
  {
    if first == [] {
      assert first + second == second;
    } else {
      RunAppend(cfg, Next(cfg, s, first[0]), first[1..], second);
      assert (first + second)[1..] == first[1..] + second;
    }
  }

  lemma Unroll(cfg: Config, s: State, step: Step, rest: seq<Step>)
    requires Enabled(cfg, s, step) && ValidRun(cfg, Next(cfg, s, step), rest)
    ensures ValidRun(cfg, s, [step] + rest)
    ensures Run(cfg, s, [step] + rest) == Run(cfg, Next(cfg, s, step), rest)
  {
    assert ([step] + rest)[1..] == rest;
  }

  lemma ReachableNext(cfg: Config, s: State, step: Step)
    requires Reachable(cfg, s) && Enabled(cfg, s, step)
    ensures Reachable(cfg, Next(cfg, s, step))
  {
    var t := Next(cfg, s, step);
    assert [step][1..] == [];
    assert ValidRun(cfg, t, []) && Run(cfg, t, []) == t;
    assert ValidRun(cfg, s, [step]) && Run(cfg, s, [step]) == t;
    ReachableRun(cfg, s, [step]);
  }

  lemma ReachableRun(cfg: Config, s: State, steps: seq<Step>)
    requires Reachable(cfg, s) && ValidRun(cfg, s, steps)
    ensures Reachable(cfg, Run(cfg, s, steps))
  {
    var before :| ValidRun(cfg, INIT, before) && Run(cfg, INIT, before) == s;
    RunAppend(cfg, INIT, before, steps);
  }

  lemma ReachableInit(cfg: Config)
    ensures Reachable(cfg, INIT)
  {
    assert ValidRun(cfg, INIT, []) && Run(cfg, INIT, []) == INIT;
  }
}
