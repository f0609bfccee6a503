/** How fast one undisturbed relay empties a backlog when the broker confirms everything. */
module DrainBound {
  import opened OutboxTable
  import opened OutboxRelay
  import P = RelayProtocol
  import RelayRecovery

  /** What a tick does when every publish is confirmed: the batch is sent, nothing else moves. */
  ghost predicate ConfirmedTick(before: Rows, now: int, limit: nat, ids: seq<RowId>, after: Rows) {
    && IsClaimSelection(before, now, {}, limit, ids)
    && after.Keys == before.Keys
    && forall id | id in before :: if id in ids then after[id].status.Sent? else after[id] == before[id]
  }

  /** The batch loop does exactly that, and the broker receives each row of the batch once. */
  lemma FineTickConfirms(before: Rows, now: int, limit: nat, ids: seq<RowId>, relay: string, attempts: seq<Attempt>)
    requires IsClaimSelection(before, now, {}, limit, ids)
    requires |attempts| == |ids| && forall j | 0 <= j < |ids| :: attempts[j].fault.Fine?
    ensures forall id | id in ids :: id in before
    ensures ConfirmedTick(before, now, limit, ids,
              TickRows(ClaimRows(before, ids, now, relay), Snapshots(before, ids), attempts, now, |ids|))
    ensures |Received(Snapshots(before, ids), attempts, |ids|)| == |ids|
    ensures forall j | 0 <= j < |ids| :: Received(Snapshots(before, ids), attempts, |ids|)[j].row == ids[j]
  {
    forall id | id in ids ensures id in before {
      assert id in Eligible(before, now, {});
    }
    TickRowByRow(before, ids, relay, now, attempts, |ids|);
    FineReceivesAll(Snapshots(before, ids), attempts, |ids|);
  }

  lemma {:induction false} FineReceivesAll(claimed: seq<ClaimedRow>, attempts: seq<Attempt>, done: nat)
    requires done <= |claimed| == |attempts| && forall j | 0 <= j < |attempts| :: attempts[j].fault.Fine?
    ensures |Received(claimed, attempts, done)| == done
    ensures forall j | 0 <= j < done :: Received(claimed, attempts, done)[j] == P.CopyOf(claimed[j])
  {
    if done > 0 {
      FineReceivesAll(claimed, attempts, done - 1);
    }
  }

  /** A sequence of ticks on a rising clock; `tables[k]` is the table after k of them. */
  ghost predicate Drains(tables: seq<Rows>, clocks: seq<int>, limit: nat, batches: seq<seq<RowId>>) {
    && |tables| == |batches| + 1 && |clocks| == |batches|
    && (forall k | 0 <= k < |batches| :: ConfirmedTick(tables[k], clocks[k], limit, batches[k], tables[k + 1]))
    && (forall i, j | 0 <= i < j < |clocks| :: clocks[i] <= clocks[j])
    && (|clocks| > 0 ==> forall id | id in RelayRecovery.PendingIds(tables[0]) :: tables[0][id].nextRetryAt <= clocks[0])
  }

  /** Rows either stay as they were or are sent, so whatever is pending was due from the start. */
  lemma {:induction false} PendingUntouched(tables: seq<Rows>, clocks: seq<int>, limit: nat, batches: seq<seq<RowId>>, k: nat)
    requires Drains(tables, clocks, limit, batches) && k <= |batches|
    ensures tables[k].Keys == tables[0].Keys
    ensures forall id | id in tables[k] && tables[k][id].status.Pending? :: tables[k][id] == tables[0][id]
    ensures k < |batches| ==> Eligible(tables[k], clocks[k], {}) == RelayRecovery.PendingIds(tables[k])
  {
    if k > 0 {
      PendingUntouched(tables, clocks, limit, batches, k - 1);
      assert ConfirmedTick(tables[k - 1], clocks[k - 1], limit, batches[k - 1], tables[k]);
    }
    if k < |batches| {
      forall id | id in RelayRecovery.PendingIds(tables[k]) ensures Due(tables[k][id], clocks[k]) {
        assert id in RelayRecovery.PendingIds(tables[0]);
      }
    }
  }

  function ToSet(ids: seq<RowId>): set<RowId> {
    set id | id in ids
  }

  lemma {:induction false} DistinctSize(ids: seq<RowId>)
    requires Distinct(ids)
    ensures |ToSet(ids)| == |ids|
  {
    if ids != [] {
      var init := ids[..|ids| - 1];
      DistinctSize(init);
      assert ToSet(ids) == ToSet(init) + {ids[|ids| - 1]};
    }
  }

  lemma OneTick(tables: seq<Rows>, clocks: seq<int>, limit: nat, batches: seq<seq<RowId>>, k: nat)
    requires Drains(tables, clocks, limit, batches) && k < |batches|
    ensures RelayRecovery.PendingIds(tables[k + 1]) == RelayRecovery.PendingIds(tables[k]) - ToSet(batches[k])
    ensures ToSet(batches[k]) <= RelayRecovery.PendingIds(tables[k])
    ensures |ToSet(batches[k])| == Min(limit, |RelayRecovery.PendingIds(tables[k])|)
  {
    PendingUntouched(tables, clocks, limit, batches, k);
    assert ConfirmedTick(tables[k], clocks[k], limit, batches[k], tables[k + 1]);
    var pending := RelayRecovery.PendingIds(tables[k]);
    var batch := ToSet(batches[k]);
    DistinctSize(batches[k]);
    SubsetSize(batch, pending);
    if |batches[k]| < limit {
      assert batch == pending;
    }
  }

  lemma {:induction false} SubsetSize(a: set<RowId>, b: set<RowId>)
    requires a <= b
    ensures |a| <= |b| && |b - a| == |b| - |a|
  {
    assert b == a + (b - a);
  }

  function Min(a: nat, b: nat): nat {
    if a <= b then a else b
  }

  /** After k ticks of a backlog of N due rows, exactly max(0, N - k * batchSize) are pending. */
  lemma {:induction false} BacklogAfter(tables: seq<Rows>, clocks: seq<int>, limit: nat, batches: seq<seq<RowId>>, k: nat)
    requires Drains(tables, clocks, limit, batches) && k <= |batches|
    ensures var n := |RelayRecovery.PendingIds(tables[0])|;
            |RelayRecovery.PendingIds(tables[k])| == n - Min(n, k * limit)
  {
    if k > 0 {
      BacklogAfter(tables, clocks, limit, batches, k - 1);
      OneTick(tables, clocks, limit, batches, k - 1);
      SubsetSize(ToSet(batches[k - 1]), RelayRecovery.PendingIds(tables[k - 1]));
      assert k * limit == (k - 1) * limit + limit;
    }
  }

  /** A row of the backlog is published in exactly one tick, or not yet: it is out of the
      pending set after k ticks exactly when it was in one of the first k batches. */
  lemma {:induction false} PublishedOnce(tables: seq<Rows>, clocks: seq<int>, limit: nat, batches: seq<seq<RowId>>, k: nat, id: RowId)
    requires Drains(tables, clocks, limit, batches) && k <= |batches|
    requires id in RelayRecovery.PendingIds(tables[0])
    ensures id !in RelayRecovery.PendingIds(tables[k]) <==> exists i :: 0 <= i < k && id in batches[i]
    ensures forall i, j | 0 <= i < j < k && id in batches[i] :: id !in batches[j]
  {
    if k > 0 {
      PublishedOnce(tables, clocks, limit, batches, k - 1, id);
      OneTick(tables, clocks, limit, batches, k - 1);
      assert id in batches[k - 1] ==> id in ToSet(batches[k - 1]);
    }
  }

  /** Earlier batches hold the rows that were due earlier. */
  lemma EarliestFirst(tables: seq<Rows>, clocks: seq<int>, limit: nat, batches: seq<seq<RowId>>, i: nat, j: nat, a: RowId, b: RowId)
    requires Drains(tables, clocks, limit, batches) && i < j < |batches|
    requires a in batches[i] && b in batches[j]
    ensures a in tables[0] && b in tables[0] && tables[0][a].nextRetryAt <= tables[0][b].nextRetryAt
  {
    PendingUntouched(tables, clocks, limit, batches, i);
    PendingUntouched(tables, clocks, limit, batches, j);
    OneTick(tables, clocks, limit, batches, i);
    OneTick(tables, clocks, limit, batches, j);
    assert a in ToSet(batches[i]) && b in ToSet(batches[j]);
    PendingShrinks(tables, clocks, limit, batches, i, j);
    assert ConfirmedTick(tables[i], clocks[i], limit, batches[i], tables[i + 1]);
  }

  lemma {:induction false} PendingShrinks(tables: seq<Rows>, clocks: seq<int>, limit: nat, batches: seq<seq<RowId>>, i: nat, j: nat)
    requires Drains(tables, clocks, limit, batches) && i < j <= |batches|
    ensures RelayRecovery.PendingIds(tables[j]) <= RelayRecovery.PendingIds(tables[i]) - ToSet(batches[i])
    decreases j
  {
    OneTick(tables, clocks, limit, batches, j - 1);
    if i < j - 1 {
      PendingShrinks(tables, clocks, limit, batches, i, j - 1);
    }
  }
}
