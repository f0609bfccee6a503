/** When an accepted event is beyond help: from every reachable state of the pipeline some
    continuation makes it take effect, unless its row was sent into an unbound exchange. */
module PipelineRecovery {
  import opened Wrappers
  import opened Topology
  import opened ErrorClassifier
  import opened OutboxTable
  import opened GatewayAcceptance
  import opened Pipeline
  import opened PipelineTheorems
  import R = RelayProtocol
  import C = ConsumerProtocol
  import ConsumerInvariants
  import ConsumerTheorems
  import RelayRecovery
  import RelayTheorems

  ghost predicate CanProcess(cfg: Config, s: State, e: C.EventId) {
    exists steps :: ValidRun(cfg, s, steps) && e in Run(cfg, s, steps).consumer.db.processed
  }

  lemma Back(cfg: Config, s: State, step: Step, e: C.EventId)
    requires Enabled(cfg, s, step) && CanProcess(cfg, Next(cfg, s, step), e)
    ensures CanProcess(cfg, s, e)
  {
    var t := Next(cfg, s, step);
    var steps :| ValidRun(cfg, t, steps) && e in Run(cfg, t, steps).consumer.db.processed;
    var longer := [step] + steps;
    assert longer[1..] == steps;
    assert ValidRun(cfg, s, longer) && Run(cfg, s, longer) == Run(cfg, t, steps);
  }

  lemma Done(cfg: Config, s: State, e: C.EventId)
    requires e in s.consumer.db.processed
    ensures CanProcess(cfg, s, e)
  {
    assert ValidRun(cfg, s, []) && Run(cfg, s, []) == s;
  }

  // ---- Fresh names for the row the commit writes ----

  lemma {:induction false} FreshId(used: set<RowId>) returns (id: RowId)
    ensures id !in used
    ensures forall i | i in used :: i < id
    decreases used
  {
    if used == {} {
      id := 0;
    } else {
      var x :| x in used;
      var other := FreshId(used - {x});
      id := if x < other then other else x + 1;
      forall i | i in used ensures i < id {
        assert i == x || i in used - {x};
      }
    }
  }

  lemma {:induction false} FreshText(used: set<string>) returns (text: string)
    ensures text !in used
    ensures forall t | t in used :: |t| < |text|
    decreases used
  {
    if used == {} {
      text := "";
    } else {
      var x :| x in used;
      var other := FreshText(used - {x});
      text := if |x| < |other| then other else x + "x";
      forall t | t in used ensures |t| < |text| {
        assert t == x || t in used - {x};
      }
    }
  }

  function EventIds(rows: Rows): set<string> {
    set id | id in rows && rows[id].ev.eventId.Some? :: rows[id].ev.eventId.value
  }

  lemma FreshNames(rows: Rows) returns (id: RowId, text: string)
    ensures id !in rows && EventIdFree(rows, Some(text))
  {
    id := FreshId(rows.Keys);
    text := FreshText(EventIds(rows));
    forall i | i in rows ensures rows[i].ev.eventId != Some(text) {
      if rows[i].ev.eventId.Some? {
        assert rows[i].ev.eventId.value in EventIds(rows);
      }
    }
  }

  // ---- One handler run to its commit ----

  /** How far the run is from its commit: on the clean path, with nobody else inserting `e`. */
  function Distance(p: C.Phase, e: C.EventId): Option<nat> {
    match p
    case Received => Some(5)
    case Counted(_) => Some(4)
    case InTx(_, tx) =>
      if tx == C.EMPTY_TX then Some(3)
      else if tx == C.Tx(multiset{e}, multiset{}, multiset{}) then Some(2)
      else if tx == C.Tx(multiset{e}, multiset{e}, multiset{}) then Some(1)
      else if tx == C.Tx(multiset{e}, multiset{e}, multiset{e}) then Some(0)
      else None
    case _ => None
  }

  ghost predicate OnCleanPath(cfg: C.Config, s: C.State, tag: C.Tag, e: C.EventId, distance: nat) {
    && C.Running(cfg, s.net, tag, e) && e !in s.db.processed
    && Distance(s.net.handlers[tag].phase, e) == Some(distance)
    && forall other :: C.HoldsKey(s.net, other, e) ==> other == tag
  }

  function CleanStep(distance: nat): C.HandlerStep
    requires 1 <= distance <= 5
  {
    match distance
    case 5 => C.Record
    case 4 => C.Begin
    case 3 => C.InsertLedger
    case 2 => C.SaveMessage
    case _ => C.SaveOutbox
  }

  lemma CleanStepCloser(cfg: C.Config, s: C.State, tag: C.Tag, e: C.EventId, distance: nat)
    requires OnCleanPath(cfg, s, tag, e, distance) && 1 <= distance <= 5
    ensures C.Enabled(cfg, s, C.Handle(tag, e, CleanStep(distance)))
    ensures OnCleanPath(cfg, C.Next(cfg, s, C.Handle(tag, e, CleanStep(distance))), tag, e, distance - 1)
  {
    var h := CleanStep(distance);
    if distance == 3 {
      assert !C.HoldsKey(s.net, tag, e);
      assert C.KeyFree(s.net, e);
    }
    assert C.HandlerEnabled(cfg, s, tag, e, h);
    var t := C.Next(cfg, s, C.Handle(tag, e, h));
    forall other | C.HoldsKey(t.net, other, e) ensures other == tag {
      if other != tag {
        assert C.HoldsKey(s.net, other, e);
      }
    }
  }

  lemma CommitNow(cfg: Config, s: State, tag: C.Tag, e: C.EventId)
    requires s.broker == DECLARED && OnCleanPath(Reading(cfg), s.consumer, tag, e, 0)
    ensures CanProcess(cfg, s, e)
  {
    var id, text := FreshNames(s.messaging.rows);
    var step := Persist(tag, e, true, Permanent, id, text);
    assert C.HandlerEnabled(Reading(cfg), s.consumer, tag, e, C.Commit(true, Permanent));
    assert Enabled(cfg, s, step);
    Done(cfg, Next(cfg, s, step), e);
    Back(cfg, s, step, e);
  }

  lemma CleanPipelineStep(cfg: Config, s: State, tag: C.Tag, e: C.EventId, distance: nat)
    requires s.broker == DECLARED && 1 <= distance <= 5 && OnCleanPath(Reading(cfg), s.consumer, tag, e, distance)
    ensures Enabled(cfg, s, Consumer(C.Handle(tag, e, CleanStep(distance))))
    ensures var t := Next(cfg, s, Consumer(C.Handle(tag, e, CleanStep(distance))));
            t.broker == DECLARED && OnCleanPath(Reading(cfg), t.consumer, tag, e, distance - 1)
  {
    CleanStepCloser(Reading(cfg), s.consumer, tag, e, distance);
  }

  lemma {:induction false} HandleToCommit(cfg: Config, s: State, tag: C.Tag, e: C.EventId, distance: nat)
    requires s.broker == DECLARED && distance <= 5 && OnCleanPath(Reading(cfg), s.consumer, tag, e, distance)
    ensures CanProcess(cfg, s, e)
    decreases distance
  {
    if distance == 0 {
      CommitNow(cfg, s, tag, e);
    } else {
      CleanPipelineStep(cfg, s, tag, e, distance);
      var step := Consumer(C.Handle(tag, e, CleanStep(distance)));
      HandleToCommit(cfg, Next(cfg, s, step), tag, e, distance - 1);
      Back(cfg, s, step, e);
    }
  }

  /** When the process whose transaction holds the key is gone, the key is free. */
  lemma CrashFreesKey(cfg: C.Config, s: C.State, holder: C.Tag, tag: C.Tag, e: C.EventId)
    requires ConsumerInvariants.OneHolder(s.net) && C.HoldsKey(s.net, holder, e) && e !in s.db.processed
    requires C.Running(cfg, s.net, tag, e) && s.net.handlers[tag].phase.Received?
    ensures C.Enabled(cfg, s, C.World(C.Crash(holder)))
    ensures OnCleanPath(cfg, C.Next(cfg, s, C.World(C.Crash(holder))), tag, e, 5)
  {
    var t := C.Next(cfg, s, C.World(C.Crash(holder)));
    forall other ensures !C.HoldsKey(t.net, other, e) {
      if C.HoldsKey(t.net, other, e) {
        assert C.HoldsKey(s.net, other, e);
      }
    }
  }

  /** A fresh run commits, if need be after the transaction that holds the key is gone. */
  lemma FreshRun(cfg: Config, s: State, tag: C.Tag, e: C.EventId)
    requires s.broker == DECLARED && ConsumerInvariants.OneHolder(s.consumer.net) && e !in s.consumer.db.processed
    requires C.Running(Reading(cfg), s.consumer.net, tag, e) && s.consumer.net.handlers[tag].phase.Received?
    ensures CanProcess(cfg, s, e)
  {
    if holder :| C.HoldsKey(s.consumer.net, holder, e) {
      CrashFreesKey(Reading(cfg), s.consumer, holder, tag, e);
      var step := Consumer(C.World(C.Crash(holder)));
      HandleToCommit(cfg, Next(cfg, s, step), tag, e, 5);
      Back(cfg, s, step, e);
    } else {
      HandleToCommit(cfg, s, tag, e, 5);
    }
  }

  // ---- From wherever a copy is ----

  lemma FromWork(cfg: Config, s: State, c: C.CopyId, e: C.EventId)
    requires ConsumerInvariants.Linked(s.consumer.net) && ConsumerInvariants.OneHolder(s.consumer.net)
    requires s.broker == DECLARED && e !in s.consumer.db.processed
    requires c in s.consumer.net.copies && C.EventOf(Reading(cfg), s.consumer.net.copies[c].msg) == Some(e)
    requires s.consumer.net.copies[c].place == C.InQueue(WorkQueue)
    ensures CanProcess(cfg, s, e)
  {
    var step := Consumer(C.World(C.Deliver(c)));
    var t := Next(cfg, s, step);
    forall a, b, f | C.HoldsKey(t.consumer.net, a, f) && C.HoldsKey(t.consumer.net, b, f) ensures a == b {
      assert C.HoldsKey(s.consumer.net, a, f) && C.HoldsKey(s.consumer.net, b, f);
    }
    FreshRun(cfg, t, s.consumer.net.nextTag, e);
    Back(cfg, s, step, e);
  }

  /** The step that brings a copy, or a new copy of its message, back to the work queue. */
  ghost function ToWork(n: C.Net, d: C.CopyId): C.BrokerStep
    requires d in n.copies && OnCommandSide(n.copies[d].place) && n.copies[d].place != C.InQueue(WorkQueue)
  {
    match n.copies[d].place
    case InQueue(q) => if q.RetryQueue? then C.Expire(d, WorkQueue) else C.Reinject(d, n.copies[d].msg.headers)
    case Unacked(tag) => C.Crash(tag)
    case _ => C.Reinject(d, n.copies[d].msg.headers)
  }

  lemma ToWorkWorks(cfg: C.Config, s: C.State, d: C.CopyId)
    requires ConsumerInvariants.Linked(s.net) && d in s.net.copies && OnCommandSide(s.net.copies[d].place)
    requires s.net.copies[d].place != C.InQueue(WorkQueue)
    ensures C.Enabled(cfg, s, C.World(ToWork(s.net, d)))
    ensures var t := C.Next(cfg, s, C.World(ToWork(s.net, d)));
            && t.db == s.db
            && (forall a, f | C.HoldsKey(t.net, a, f) :: C.HoldsKey(s.net, a, f))
            && exists c :: c in t.net.copies && t.net.copies[c] == C.Copy(s.net.copies[d].msg, C.InQueue(WorkQueue))
  {
    DeadLetterHops(KeyRetry);
    var b := ToWork(s.net, d);
    var t := C.Next(cfg, s, C.World(b));
    var c := if b.Reinject? then s.net.nextCopy else d;
    assert t.net.copies[c] == C.Copy(s.net.copies[d].msg, C.InQueue(WorkQueue));
  }

  lemma FromUnderway(cfg: Config, s: State, d: C.CopyId, e: C.EventId)
    requires ConsumerInvariants.Linked(s.consumer.net) && ConsumerInvariants.OneHolder(s.consumer.net)
    requires s.broker == DECLARED && e !in s.consumer.db.processed && Underway(cfg, s.consumer.net, d, e)
    ensures CanProcess(cfg, s, e)
  {
    if s.consumer.net.copies[d].place == C.InQueue(WorkQueue) {
      FromWork(cfg, s, d, e);
    } else {
      var b := C.World(ToWork(s.consumer.net, d));
      ToWorkWorks(Reading(cfg), s.consumer, d);
      ConsumerInvariants.LinkedKept(Reading(cfg), s.consumer, b);
      var t := Next(cfg, s, Consumer(b));
      var c :| c in t.consumer.net.copies
               && t.consumer.net.copies[c] == C.Copy(s.consumer.net.copies[d].msg, C.InQueue(WorkQueue));
      FromWork(cfg, t, c, e);
      Back(cfg, s, Consumer(b), e);
    }
  }

  // ---- From the gateway's side, once the topology stands ----

  lemma FromRouted(cfg: Config, s: State, id: RowId, e: C.EventId)
    requires Inv(cfg, s) && s.broker == DECLARED && AcceptedAs(s.gateway.rows, id, e) && RoutedOnce(s, id)
    ensures CanProcess(cfg, s, e)
  {
    ConsumerTheorems.ReachableInv(Reading(cfg), s.consumer);
    SafeExactlyWhenRouted(cfg, s, id, e);
    if e in s.consumer.db.processed {
      Done(cfg, s, e);
    } else {
      var d :| Underway(cfg, s.consumer.net, d, e);
      FromUnderway(cfg, s, d, e);
    }
  }

  lemma GatewayStepEnabled(cfg: Config, s: State, r: R.Step)
    requires Inv(cfg, s) && s.broker == DECLARED && R.Enabled(cfg.gateway, s.gateway, r) && !r.Insert?
    ensures Enabled(cfg, s, Gateway(r, WorkQueue))
    ensures Publishes(r) ==> Lands(s.broker, s.gateway, r)
  {
    if Publishes(r) {
      PublishedBody(cfg.gateway, s.gateway, r);
      assert Readable(cfg.lex, s.gateway.claims[r.c].row.ev);
      PublishTargets(s.gateway.claims[r.c].row.ev.eventType);
    }
  }

  /** A copy of the row the relay adds is one that finds the queue. */
  lemma CopyLands(cfg: Config, s: State, r: R.Step, id: RowId)
    requires Enabled(cfg, s, Gateway(r, WorkQueue)) && (Publishes(r) ==> Lands(s.broker, s.gateway, r))
    ensures var t := Next(cfg, s, Gateway(r, WorkQueue));
            && (RoutedOnce(s, id) ==> RoutedOnce(t, id))
            && (RelayRecovery.RowCopies(t.gateway.published, id) > RelayRecovery.RowCopies(s.gateway.published, id) ==>
                  RoutedOnce(t, id))
  {
    var step := Gateway(r, WorkQueue);
    var t := Next(cfg, s, step);
    RoutedGrows(cfg, s, step);
    RelayPublished(cfg.gateway, s.gateway, r);
    if RoutedOnce(s, id) {
      var p :| p in s.routed && p.row == id;
      assert p in t.routed;
    }
    if Publishes(r) {
      var p := R.CopyOf(s.gateway.claims[r.c].row);
      RelayRecovery.OneMoreCopy(s.gateway.published, p, id);
      assert p in t.routed;
    }
  }

  /** A run of the gateway's relays that publishes the row is part of a run of the pipeline. */
  lemma {:induction false} GatewayRuns(cfg: Config, s: State, rs: seq<R.Step>, id: RowId, e: C.EventId)
    requires Inv(cfg, s) && s.broker == DECLARED
    requires R.ValidRun(cfg.gateway, s.gateway, rs) && RelayRecovery.InsertsNothing(rs)
    requires AcceptedAs(s.gateway.rows, id, e)
    requires RoutedOnce(s, id)
             || RelayRecovery.RowCopies(R.Run(cfg.gateway, s.gateway, rs).published, id)
                > RelayRecovery.RowCopies(s.gateway.published, id)
    ensures CanProcess(cfg, s, e)
    decreases |rs|
  {
    if rs == [] {
      FromRouted(cfg, s, id, e);
    } else {
      var step := Gateway(rs[0], WorkQueue);
      assert RelayRecovery.InsertsNothing(rs[1..]);
      GatewayStepEnabled(cfg, s, rs[0]);
      CopyLands(cfg, s, rs[0], id);
      InvKept(cfg, s, step);
      var t := Next(cfg, s, step);
      AcceptedAsKept(cfg.gateway, s.gateway, t.gateway, Some(rs[0]), id, e);
      GatewayRuns(cfg, t, rs[1..], id, e);
      Back(cfg, s, step, e);
    }
  }

  lemma FromUnsent(cfg: Config, s: State, id: RowId, e: C.EventId)
    requires Inv(cfg, s) && s.broker == DECLARED && AcceptedAs(s.gateway.rows, id, e)
    requires !s.gateway.rows[id].status.Sent? && cfg.gateway.batchSize >= 1
    ensures CanProcess(cfg, s, e)
  {
    var rs := RelayRecovery.EveryRowCanBeSent(cfg.gateway, s.gateway, id);
    GatewayRuns(cfg, s, rs, id, e);
  }

  /** A relay still has to publish the row, or to react to the lost reply of its `markSent`. */
  ghost predicate Revivable(r: R.State, id: RowId) {
    exists c :: Revives(r, id, c)
  }

  ghost predicate Revives(r: R.State, id: RowId, c: R.ClaimId) {
    c in r.claims && r.claims[c].row.id == id && (r.claims[c].phase.Claimed? || r.claims[c].phase == R.InCatch(true))
  }

  lemma FromRevivable(cfg: Config, s: State, id: RowId, e: C.EventId, c: R.ClaimId)
    requires Inv(cfg, s) && s.broker == DECLARED && AcceptedAs(s.gateway.rows, id, e) && cfg.gateway.batchSize >= 1
    requires s.gateway.rows[id].status.Sent? && Revives(s.gateway, id, c)
    ensures CanProcess(cfg, s, e)
  {
    var r := if s.gateway.claims[c].phase.Claimed? then R.Publish(c, true, true) else R.MarkFailed(c, "");
    var step := Gateway(r, WorkQueue);
    GatewayStepEnabled(cfg, s, r);
    InvKept(cfg, s, step);
    var t := Next(cfg, s, step);
    AcceptedAsKept(cfg.gateway, s.gateway, t.gateway, Some(r), id, e);
    if r.Publish? {
      CopyOnQueue(cfg, s, r);
      FromRouted(cfg, t, id, e);
    } else {
      R.ReachableInv(cfg.gateway, s.gateway);
      RelayTheorems.ReachableLostAcks(cfg.gateway, s.gateway);
      RelayTheorems.SentStep(cfg.gateway, s.gateway, r, id);
      FromUnsent(cfg, t, id, e);
    }
    Back(cfg, s, step, e);
  }

  lemma CopyOnQueue(cfg: Config, s: State, r: R.Step)
    requires Enabled(cfg, s, Gateway(r, WorkQueue)) && Lands(s.broker, s.gateway, r)
    ensures RoutedOnce(Next(cfg, s, Gateway(r, WorkQueue)), s.gateway.claims[r.c].row.id)
  {
    RoutedGrows(cfg, s, Gateway(r, WorkQueue));
    assert R.CopyOf(s.gateway.claims[r.c].row) in Next(cfg, s, Gateway(r, WorkQueue)).routed;
  }

  // ---- Beyond help ----

  /** The row is sent, none of its publishes found a queue, and no relay will touch it again. */
  ghost predicate Stranded(s: State, id: RowId) {
    && id in s.gateway.rows && s.gateway.rows[id].status.Sent?
    && !RoutedOnce(s, id) && !Revivable(s.gateway, id)
  }

  lemma StaysUnrevivable(rc: R.Config, r: R.State, step: R.Step, id: RowId)
    requires R.Fenced(r) && R.Enabled(rc, r, step) && id in r.rows && r.rows[id].status.Sent? && !Revivable(r, id)
    ensures var t := R.Next(rc, r, step);
            id in t.rows && t.rows[id].status.Sent? && !Revivable(t, id)
            && (Publishes(step) ==> r.claims[step.c].row.id != id)
  {
    if step.Publish? || step.MarkFailed? {
      assert !Revives(r, id, step.c);
    }
    RelayTheorems.SentStep(rc, r, step, id);
    var t := R.Next(rc, r, step);
    forall c ensures !Revives(t, id, c) {
      if Revives(t, id, c) {
        NoNewRevival(rc, r, step, id, c);
      }
    }
  }

  lemma NoNewRevival(rc: R.Config, r: R.State, step: R.Step, id: RowId, c: R.ClaimId)
    requires R.Fenced(r) && R.Enabled(rc, r, step) && id in r.rows && r.rows[id].status.Sent?
    requires Revives(R.Next(rc, r, step), id, c)
    ensures Revives(r, id, c)
  {
    if c !in r.claims {
      R.NewClaimFits(rc, r, step, c);
      assert step.ids[c - r.nextClaim] in step.ids;
      R.RowMoves(rc, r, step, id);
    } else {
      R.OldClaimMoves(rc, r, step, c);
      assert R.ClaimFits(r, c);
    }
  }

  lemma StrandedStays(cfg: Config, s: State, step: Step, id: RowId)
    requires R.Fenced(s.gateway) && Stranded(s, id) && Enabled(cfg, s, step)
    ensures Stranded(Next(cfg, s, step), id)
  {
    Projections(cfg, s, step);
    RoutedGrows(cfg, s, step);
    var r := GatewayStep(cfg, step);
    if r.Some? {
      StaysUnrevivable(cfg.gateway, s.gateway, r.value, id);
    }
    var t := Next(cfg, s, step);
    forall p | p in t.routed ensures p.row != id {
      if p in s.routed {
        assert !(p.row == id);
      }
    }
  }

  lemma {:induction false} StrandedForGood(cfg: Config, s: State, steps: seq<Step>, id: RowId, e: C.EventId)
    requires Inv(cfg, s) && Stranded(s, id) && AcceptedAs(s.gateway.rows, id, e) && ValidRun(cfg, s, steps)
    ensures e !in Run(cfg, s, steps).consumer.db.processed
    decreases |steps|
  {
    if steps == [] {
      SafeExactlyWhenRouted(cfg, s, id, e);
    } else {
      var t := Next(cfg, s, steps[0]);
      Projections(cfg, s, steps[0]);
      InvKept(cfg, s, steps[0]);
      R.ReachableInv(cfg.gateway, s.gateway);
      StrandedStays(cfg, s, steps[0], id);
      AcceptedAsKept(cfg.gateway, s.gateway, t.gateway, GatewayStep(cfg, steps[0]), id, e);
      StrandedForGood(cfg, t, steps[1..], id, e);
    }
  }

  /** With an empty batch no relay of the gateway ever claims or publishes anything. */
  ghost predicate Idle(s: State) {
    s.gateway.claims == map[] && s.routed == []
  }

  lemma {:induction false} IdleForGood(cfg: Config, s: State, steps: seq<Step>)
    requires cfg.gateway.batchSize <= 0 && Idle(s) && ValidRun(cfg, s, steps)
    ensures Idle(Run(cfg, s, steps))
    decreases |steps|
  {
    if steps != [] {
      IdleStays(cfg, s, steps[0]);
      IdleForGood(cfg, Next(cfg, s, steps[0]), steps[1..]);
    }
  }

  lemma IdleStays(cfg: Config, s: State, step: Step)
    requires cfg.gateway.batchSize <= 0 && Idle(s) && Enabled(cfg, s, step)
    ensures Idle(Next(cfg, s, step))
  {
    RoutedGrows(cfg, s, step);
  }

  lemma IdleNeverProcesses(cfg: Config, s: State, e: C.EventId)
    requires cfg.gateway.batchSize <= 0 && Reachable(cfg, s)
    ensures !CanProcess(cfg, s, e)
  {
    var before :| ValidRun(cfg, INIT, before) && Run(cfg, INIT, before) == s;
    IdleForGood(cfg, INIT, before);
    ReachableInv(cfg, s);
    forall steps | ValidRun(cfg, s, steps) ensures e !in Run(cfg, s, steps).consumer.db.processed {
      IdleForGood(cfg, s, steps);
      RunKeepsInv(cfg, s, steps);
    }
  }

  // ---- The exact condition ----

  lemma NotStrandedIsHelped(cfg: Config, s: State, id: RowId, e: C.EventId)
    requires Inv(cfg, s) && AcceptedAs(s.gateway.rows, id, e) && !Stranded(s, id) && cfg.gateway.batchSize >= 1
    ensures CanProcess(cfg, s, e)
  {
    var step := Declare(DECLARED);
    InvKept(cfg, s, step);
    var t := Next(cfg, s, step);
    if RoutedOnce(s, id) {
      assert RoutedOnce(t, id);
      FromRouted(cfg, t, id, e);
    } else if !s.gateway.rows[id].status.Sent? {
      FromUnsent(cfg, t, id, e);
    } else {
      var c :| Revives(s.gateway, id, c);
      FromRevivable(cfg, t, id, e, c);
    }
    Back(cfg, s, step, e);
  }

  /** In every reachable state, whatever crashed, was dead-lettered or used up its attempts, an
      accepted event can still take effect exactly when a relay batch can hold a row and the
      event's row is not stranded: sent, with every publish made before the work queue was
      bound, and with no relay left that would publish it again. */
  lemma CanTakeEffectExactly(cfg: Config, s: State, id: RowId, e: C.EventId)
    requires Reachable(cfg, s) && AcceptedAs(s.gateway.rows, id, e)
    ensures CanProcess(cfg, s, e) <==> cfg.gateway.batchSize >= 1 && !Stranded(s, id)
  {
    ReachableInv(cfg, s);
    if cfg.gateway.batchSize <= 0 {
      IdleNeverProcesses(cfg, s, e);
    } else if Stranded(s, id) {
      forall steps | ValidRun(cfg, s, steps) ensures e !in Run(cfg, s, steps).consumer.db.processed {
        StrandedForGood(cfg, s, steps, id, e);
      }
    } else {
      NotStrandedIsHelped(cfg, s, id, e);
    }
  }

  /** In a run that drops nothing no row is stranded, so every accepted event can still take
      effect. */
  lemma EveryAcceptedEventCanTakeEffect(cfg: Config, steps: seq<Step>, id: RowId)
    requires ValidRun(cfg, INIT, steps) && DropsNothing(cfg, INIT, steps) && cfg.gateway.batchSize >= 1
    requires id in Run(cfg, INIT, steps).gateway.rows
    ensures var s := Run(cfg, INIT, steps);
            s.gateway.rows[id].ev.eventId.Some? && CanProcess(cfg, s, s.gateway.rows[id].ev.eventId.value)
  {
    var s := Run(cfg, INIT, steps);
    InitInv(cfg);
    NothingDroppedOverRuns(cfg, INIT, steps);
    assert Readable(cfg.lex, s.gateway.rows[id].ev);
    if s.gateway.rows[id].status.Sent? {
      RelayTheorems.SentMeansConfirmed(cfg.gateway, s.gateway, id);
      assert RoutedOnce(s, id);
    }
    NotStrandedIsHelped(cfg, s, id, s.gateway.rows[id].ev.eventId.value);
  }

  lemma ReachableNext(cfg: Config, s: State, step: Step)
    requires Reachable(cfg, s) && Enabled(cfg, s, step)
    ensures Reachable(cfg, Next(cfg, s, step))
  {
    var steps :| ValidRun(cfg, INIT, steps) && Run(cfg, INIT, steps) == s;
    RunExtend(cfg, INIT, steps, step);
  }

  lemma {:induction false} RunExtend(cfg: Config, s: State, steps: seq<Step>, step: Step)
    requires ValidRun(cfg, s, steps) && Enabled(cfg, Run(cfg, s, steps), step)
    ensures ValidRun(cfg, s, steps + [step])
    ensures Run(cfg, s, steps + [step]) == Next(cfg, Run(cfg, s, steps), step)
    decreases |steps|
  {
    if steps == [] {
      assert steps + [step] == [step] && [step][1..] == [];
    } else {
      RunExtend(cfg, Next(cfg, s, steps[0]), steps[1..], step);
      assert (steps + [step])[1..] == steps[1..] + [step];
    }
  }

  /** Every request that validates can be accepted, on a broker with as much of the topology
      as one likes. */
  lemma AcceptedState(cfg: Config, broker: PartialBroker, request: Request, correlationId: string, eventId: string, timestamp: string)
    returns (s: State)
    requires RecordFor(cfg.lex, request, correlationId, eventId, timestamp).Some?
    ensures Reachable(cfg, s) && s.broker == broker && s.routed == [] && s.consumer == C.INIT
    ensures var ev := RecordFor(cfg.lex, request, correlationId, eventId, timestamp).value;
            && AcceptedAs(s.gateway.rows, 0, eventId) && ev.eventType in COMMAND_EVENT_TYPES
            && s.gateway == R.Next(cfg.gateway, R.INIT, R.Insert(0, ev))
  {
    AcceptedIsReadable(cfg.lex, request, correlationId, eventId, timestamp);
    assert ValidRun(cfg, INIT, []) && Run(cfg, INIT, []) == INIT;
    ReachableNext(cfg, INIT, Declare(broker));
    s := Next(cfg, INIT, Declare(broker));
    ReachableNext(cfg, s, Accept(0, request, correlationId, eventId, timestamp));
    s := Next(cfg, s, Accept(0, request, correlationId, eventId, timestamp));
  }

  /** And once accepted it can take effect. */
  lemma AcceptedRequestCanTakeEffect(cfg: Config, broker: PartialBroker, request: Request, correlationId: string, eventId: string,
                                     timestamp: string)
    returns (s: State)
    requires RecordFor(cfg.lex, request, correlationId, eventId, timestamp).Some? && cfg.gateway.batchSize >= 1
    ensures Reachable(cfg, s) && AcceptedAs(s.gateway.rows, 0, eventId) && eventId !in s.consumer.db.processed
    ensures CanProcess(cfg, s, eventId)
  {
    s := AcceptedState(cfg, broker, request, correlationId, eventId, timestamp);
    CanTakeEffectExactly(cfg, s, 0, eventId);
  }

  /** The main exchange, and nothing bound to it. */
  const UNBOUND: PartialBroker := Broker(map[MainExchange := Direct], map[], {})

  lemma UnboundEnabled(cfg: Config, s: State, r: R.Step)
    requires Reachable(cfg, s) && s.broker == UNBOUND && R.Enabled(cfg.gateway, s.gateway, r) && !r.Insert?
    ensures Enabled(cfg, s, Gateway(r, WorkQueue))
    ensures Next(cfg, s, Gateway(r, WorkQueue)) == s.(gateway := R.Next(cfg.gateway, s.gateway, r))
  {
    ReachableInv(cfg, s);
    if Publishes(r) {
      PublishedBody(cfg.gateway, s.gateway, r);
      assert Readable(cfg.lex, s.gateway.claims[r.c].row.ev);
    }
  }

  /** Everything the relays do, they do on a broker that has the main exchange and no binding. */
  lemma {:induction false} UnboundRun(cfg: Config, s: State, rs: seq<R.Step>) returns (t: State)
    requires Reachable(cfg, s) && s.broker == UNBOUND
    requires R.ValidRun(cfg.gateway, s.gateway, rs) && RelayRecovery.InsertsNothing(rs)
    ensures Reachable(cfg, t) && t == s.(gateway := R.Run(cfg.gateway, s.gateway, rs))
    decreases |rs|
  {
    if rs == [] {
      t := s;
    } else {
      var step := Gateway(rs[0], WorkQueue);
      UnboundEnabled(cfg, s, rs[0]);
      assert RelayRecovery.InsertsNothing(rs[1..]);
      ReachableNext(cfg, s, step);
      t := UnboundRun(cfg, Next(cfg, s, step), rs[1..]);
    }
  }

  ghost predicate SentAlone(r: R.State, ev: EventRecord) {
    r.rows.Keys == {0} && r.rows[0].ev == ev && r.rows[0].status.Sent? && r.claims == map[]
  }

  lemma AloneIsStranded(s: State, ev: EventRecord, e: C.EventId)
    requires SentAlone(s.gateway, ev) && s.routed == [] && ev.eventId == Some(e)
    ensures Stranded(s, 0) && AcceptedAs(s.gateway.rows, 0, e)
  {
  }

  /** One row, claimed, published, confirmed and marked sent by the only relay there is. */
  lemma SendAlone(rc: R.Config, ev: EventRecord) returns (rs: seq<R.Step>)
    requires rc.batchSize >= 1
    ensures R.Enabled(rc, R.INIT, R.Insert(0, ev)) && RelayRecovery.InsertsNothing(rs)
    ensures var r := R.Next(rc, R.INIT, R.Insert(0, ev));
            && R.ValidRun(rc, r, rs)
            && SentAlone(R.Run(rc, r, rs), ev)
  {
    var r := R.Next(rc, R.INIT, R.Insert(0, ev));
    assert Eligible(r.rows, 0, {}) == {0};
    var claim := R.ClaimBatch([0], {}, "relay");
    var t := R.Next(rc, r, claim);
    assert t.claims.Keys == {0};
    rs := RelayRecovery.SendClaimed(rc, t, 0);
    assert (t.claims - {0}).Keys == {};
    R.Unroll(rc, r, claim, rs);
    rs := [claim] + rs;
  }

  /** The failing run: the main exchange is declared, the work queue is not bound yet, and a
      relay claims, publishes, gets its confirmation and marks the row sent. */
  lemma StrandedRun(cfg: Config, request: Request, correlationId: string, eventId: string, timestamp: string) returns (s: State)
    requires RecordFor(cfg.lex, request, correlationId, eventId, timestamp).Some? && cfg.gateway.batchSize >= 1
    ensures Reachable(cfg, s) && AcceptedAs(s.gateway.rows, 0, eventId) && s.gateway.rows[0].status.Sent?
    ensures Stranded(s, 0) && !CanProcess(cfg, s, eventId)
  {
    var accepted := AcceptedState(cfg, UNBOUND, request, correlationId, eventId, timestamp);
    var ev := RecordFor(cfg.lex, request, correlationId, eventId, timestamp).value;
    AcceptedIsReadable(cfg.lex, request, correlationId, eventId, timestamp);
    s := SentUnbound(cfg, accepted, ev);
    AloneIsStranded(s, ev, eventId);
    CanTakeEffectExactly(cfg, s, 0, eventId);
  }

  lemma SentUnbound(cfg: Config, accepted: State, ev: EventRecord) returns (s: State)
    requires Reachable(cfg, accepted) && accepted.broker == UNBOUND && cfg.gateway.batchSize >= 1
    requires R.Enabled(cfg.gateway, R.INIT, R.Insert(0, ev))
    requires accepted.gateway == R.Next(cfg.gateway, R.INIT, R.Insert(0, ev))
    ensures Reachable(cfg, s) && SentAlone(s.gateway, ev) && s.routed == accepted.routed
  {
    var rs := SendAlone(cfg.gateway, ev);
    s := UnboundRun(cfg, accepted, rs);
  }
}
