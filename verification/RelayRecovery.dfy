/** No row is ever stuck: from every state some continuation sends it, provided the batch
    size lets a tick claim anything at all. */
module RelayRecovery {
  import opened OutboxTable
  import opened RelayProtocol

  function PendingIds(rows: Rows): set<RowId> {
    set id | id in rows && rows[id].status.Pending?
  }

  /** A run that inserts no rows. */
  ghost predicate InsertsNothing(steps: seq<Step>) {
    forall i | 0 <= i < |steps| :: !steps[i].Insert?
  }

  /** How many copies of a row the broker has received. */
  function RowCopies(published: seq<Copy>, id: RowId): nat {
    if published == [] then 0
    else RowCopies(published[..|published| - 1], id) + if published[|published| - 1].row == id then 1 else 0
  }

  lemma OneMoreCopy(published: seq<Copy>, p: Copy, id: RowId)
    ensures RowCopies(published + [p], id) == RowCopies(published, id) + if p.row == id then 1 else 0
  {
    assert (published + [p])[..|published|] == published;
  }

  /** The clean path of one activation: published, confirmed, marked sent. */
  lemma SendClaimed(cfg: Config, s: State, c: ClaimId) returns (steps: seq<Step>)
    requires c in s.claims && s.claims[c].phase.Claimed? && Holds(s, c)
    ensures steps == [Publish(c, true, true), Confirm(c), MarkSent(c)]
    ensures ValidRun(cfg, s, steps)
    ensures var r := s.claims[c].row;
            var t := Run(cfg, s, steps);
            && t.rows == s.rows[r.id := SentRow(s.rows[r.id], s.now)]
            && t.now == s.now
            && t.claims == s.claims - {c}
            && t.nextClaim == s.nextClaim
            && t.failures == s.failures
            && t.published == s.published + [CopyOf(r)]
            && t.confirmed == s.confirmed + {(r.id, r.token)}
  {
    var t1 := Next(cfg, s, Publish(c, true, true));
    var t2 := Next(cfg, t1, Confirm(c));
    var t3 := Next(cfg, t2, MarkSent(c));
    assert ValidRun(cfg, t3, []) && Run(cfg, t3, []) == t3;
    Unroll(cfg, t2, MarkSent(c), []);
    Unroll(cfg, t1, Confirm(c), [MarkSent(c)]);
    Unroll(cfg, s, Publish(c, true, true), [Confirm(c), MarkSent(c)]);
    steps := [Publish(c, true, true), Confirm(c), MarkSent(c)];
    assert [Publish(c, true, true)] + [Confirm(c), MarkSent(c)] == steps;
    assert [Confirm(c)] + [MarkSent(c)] == [Confirm(c), MarkSent(c)];
    assert [MarkSent(c)] + [] == [MarkSent(c)];
    assert t3.claims == s.claims - {c};
  }

  /** One tick that claims a batch and sends its `pick`-th row. */
  lemma TickSends(cfg: Config, s: State, ids: seq<RowId>, pick: nat) returns (steps: seq<Step>)
    requires cfg.batchSize >= 0 && IsClaimSelection(s.rows, s.now, {}, cfg.batchSize, ids) && pick < |ids|
    ensures ValidRun(cfg, s, steps) && InsertsNothing(steps)
    ensures var t := Run(cfg, s, steps);
            && t.now == s.now && t.rows.Keys == s.rows.Keys
            && ids[pick] in t.rows && t.rows[ids[pick]].status.Sent?
            && (forall id | id in s.rows && id != ids[pick] :: SameStage(s.rows[id], t.rows[id]))
            && exists p :: t.published == s.published + [p] && p.row == ids[pick]
  {
    assert ids[pick] in Eligible(s.rows, s.now, {});
    var claim := ClaimBatch(ids, {}, "relay");
    var t := Next(cfg, s, claim);
    var c := s.nextClaim + pick;
    assert ids[pick] in ids;
    assert t.claims[c] == NewClaim(s, ids[pick]);
    steps := SendClaimed(cfg, t, c);
    Unroll(cfg, s, claim, steps);
    steps := [claim] + steps;
    assert Run(cfg, s, steps).published == s.published + [CopyOf(t.claims[c].row)];
  }

  /** Other due rows may fill earlier batches, but every tick leaves fewer rows pending. */
  lemma {:induction false} DrainUntilSent(cfg: Config, s: State, id: RowId) returns (steps: seq<Step>)
    requires cfg.batchSize >= 1 && id in s.rows && Due(s.rows[id], s.now)
    ensures ValidRun(cfg, s, steps) && InsertsNothing(steps)
    ensures var t := Run(cfg, s, steps);
            id in t.rows && t.rows[id].status.Sent? && RowCopies(t.published, id) > RowCopies(s.published, id)
    decreases |PendingIds(s.rows)|
  {
    var ids := ClaimSelectionExists(s.rows, s.now, {}, cfg.batchSize);
    SelectionNonEmpty(s.rows, s.now, cfg.batchSize, ids, id);
    var pick: nat := if id in ids then var i :| 0 <= i < |ids| && ids[i] == id; i else 0;
    steps := TickSends(cfg, s, ids, pick);
    var t := Run(cfg, s, steps);
    var p :| t.published == s.published + [p] && p.row == ids[pick];
    OneMoreCopy(s.published, p, id);
    if ids[pick] != id {
      assert ids[pick] in Eligible(s.rows, s.now, {});
      assert PendingIds(t.rows) == PendingIds(s.rows) - {ids[pick]};
      var rest := DrainUntilSent(cfg, t, id);
      RunAppend(cfg, s, steps, rest);
      steps := steps + rest;
    }
  }

  /** From every state, replaying if the row has failed, letting time pass, and ticking on a
      working channel ends with the row sent. */
  lemma EveryRowCanBeSent(cfg: Config, s: State, id: RowId) returns (steps: seq<Step>)
    requires cfg.batchSize >= 1 && id in s.rows
    ensures ValidRun(cfg, s, steps) && InsertsNothing(steps)
    ensures var t := Run(cfg, s, steps);
            id in t.rows && t.rows[id].status.Sent?
            && (!s.rows[id].status.Sent? ==> RowCopies(t.published, id) > RowCopies(s.published, id))
  {
    if s.rows[id].status.Sent? {
      steps := [];
    } else {
      var first := if s.rows[id].status.Failed? then Replay(ById(id)) else Advance(Wait(s, id));
      var t := Next(cfg, s, first);
      steps := DrainUntilSent(cfg, t, id);
      Unroll(cfg, s, first, steps);
      steps := [first] + steps;
    }
  }

  function Wait(s: State, id: RowId): nat
    requires id in s.rows
  {
    if s.rows[id].nextRetryAt <= s.now then 0 else s.rows[id].nextRetryAt - s.now
  }

  /** A batch size of zero or less claims nothing, ever. */
  ghost predicate NothingClaimed(s: State) {
    s.claims == map[] && forall id | id in s.rows :: !s.rows[id].status.Sent?
  }

  lemma {:induction false} EmptyBatchesSendNothing(cfg: Config, s: State, steps: seq<Step>)
    requires cfg.batchSize <= 0 && NothingClaimed(s) && ValidRun(cfg, s, steps)
    ensures NothingClaimed(Run(cfg, s, steps))
    decreases |steps|
  {
    if steps != [] {
      EmptyBatchesSendNothing(cfg, Next(cfg, s, steps[0]), steps[1..]);
    }
  }

  ghost predicate Recoverable(cfg: Config, s: State, id: RowId) {
    exists steps :: ValidRun(cfg, s, steps) && id in Run(cfg, s, steps).rows && Run(cfg, s, steps).rows[id].status.Sent?
  }

  /** Rows are recoverable in every reachable state exactly when a batch can hold a row. */
  lemma RecoverableIffBatches(cfg: Config, ev: EventRecord)
    ensures cfg.batchSize >= 1 <==> forall s, id | Reachable(cfg, s) && id in s.rows :: Recoverable(cfg, s, id)
  {
    if cfg.batchSize >= 1 {
      forall s, id | Reachable(cfg, s) && id in s.rows ensures Recoverable(cfg, s, id) {
        var steps := EveryRowCanBeSent(cfg, s, id);
      }
    } else {
      ReachableInit(cfg);
      ReachableNext(cfg, INIT, Insert(0, ev));
      var s := Next(cfg, INIT, Insert(0, ev));
      assert 0 in s.rows && NothingClaimed(s);
      forall steps | ValidRun(cfg, s, steps)
        ensures !(0 in Run(cfg, s, steps).rows && Run(cfg, s, steps).rows[0].status.Sent?)
      {
        EmptyBatchesSendNothing(cfg, s, steps);
      }
    }
  }
}
