/** A delivery handled without interference is a run of the interleaved consumer protocol: the
    steps of one handler, ending with the same tables, the same disposition and the same retry
    copy as the handler's specification. */
module HandlerRefinement {
  import opened Wrappers
  import opened Contracts
  import opened Topology
  import opened ErrorClassifier
  import opened IdempotentTransaction
  import opened ConsumerProtocol
  import MC = MessagingController
  import ContractDispatch
  import RetryPolicy

  /** `steps` leads from `s` to `u`, which differs in the run's phase, the tables and the history. */
  ghost predicate At(cfg: Config, s: State, steps: seq<Step>, u: State, tag: Tag, p: Phase) {
    && tag in s.net.handlers
    && ValidRun(cfg, s, steps) && Run(cfg, s, steps) == u && OnlyBy(steps, tag)
    && u.net == Enter(s.net, tag, p)
  }

  predicate By(step: Step, tag: Tag) {
    (step.Handle? && step.tag == tag) || step == Reject(tag)
  }

  /** All steps are steps of one run. */
  ghost predicate OnlyBy(steps: seq<Step>, tag: Tag) {
    forall i | 0 <= i < |steps| :: By(steps[i], tag)
  }

  predicate IsCommit(step: Step) {
    step.Handle? && step.h.Commit?
  }

  function CommitsIn(steps: seq<Step>): nat {
    if steps == [] then 0 else CommitsIn(steps[..|steps| - 1]) + if IsCommit(steps[|steps| - 1]) then 1 else 0
  }

  lemma OneMore(steps: seq<Step>, step: Step)
    ensures CommitsIn(steps + [step]) == CommitsIn(steps) + if IsCommit(step) then 1 else 0
  {
    assert (steps + [step])[..|steps|] == steps;
  }

  predicate Inner(h: HandlerStep) {
    !Closes(h) && !h.PublishRetry?
  }

  lemma Go(cfg: Config, s: State, steps: seq<Step>, u: State, tag: Tag, e: EventId, p: Phase, h: HandlerStep)
    returns (more: seq<Step>, v: State)
    requires At(cfg, s, steps, u, tag, p) && Running(cfg, s.net, tag, e)
    requires Inner(h) && PhaseAllows(p, h) && WorldAllows(u, e, h)
    ensures At(cfg, s, more, v, tag, PhaseAfter(u, e, p, h)) && v.db == DbAfter(u.db, e, p, h)
    ensures CommitsIn(more) == CommitsIn(steps) + if h.Commit? then 1 else 0
  {
    assert HandlerEnabled(cfg, u, tag, e, h);
    RunExtend(cfg, s, steps, Handle(tag, e, h));
    OneMore(steps, Handle(tag, e, h));
    more := steps + [Handle(tag, e, h)];
    v := Next(cfg, u, Handle(tag, e, h));
  }

  lemma FreeBeforeInsert(s: State, u: State, tag: Tag, e: EventId, k: nat)
    requires tag in s.net.handlers && KeyFree(s.net, e) && u.net == Enter(s.net, tag, InTx(k, EMPTY_TX))
    ensures KeyFree(u.net, e)
  {
    forall other ensures !HoldsKey(u.net, other, e) {
      assert !HoldsKey(s.net, other, e);
    }
  }

  /** Begin the transaction and insert the ledger row. */
  lemma ToLedger(cfg: Config, s: State, steps: seq<Step>, u: State, tag: Tag, e: EventId, k: nat)
    returns (more: seq<Step>, v: State)
    requires At(cfg, s, steps, u, tag, Counted(k)) && Running(cfg, s.net, tag, e)
    requires KeyFree(s.net, e) && e !in u.db.processed
    ensures At(cfg, s, more, v, tag, InTx(k, Tx(multiset{e}, multiset{}, multiset{}))) && v.db == u.db
    ensures CommitsIn(more) == CommitsIn(steps)
  {
    more, v := Go(cfg, s, steps, u, tag, e, Counted(k), Begin);
    FreeBeforeInsert(s, v, tag, e, k);
    more, v := Go(cfg, s, more, v, tag, e, InTx(k, EMPTY_TX), InsertLedger);
  }

  lemma ToOutbox(cfg: Config, s: State, steps: seq<Step>, u: State, tag: Tag, e: EventId, k: nat)
    returns (more: seq<Step>, v: State)
    requires At(cfg, s, steps, u, tag, Counted(k)) && Running(cfg, s.net, tag, e)
    requires KeyFree(s.net, e) && e !in u.db.processed
    ensures At(cfg, s, more, v, tag, InTx(k, Tx(multiset{e}, multiset{e}, multiset{e}))) && v.db == u.db
    ensures CommitsIn(more) == CommitsIn(steps)
  {
    more, v := ToLedger(cfg, s, steps, u, tag, e, k);
    more, v := Go(cfg, s, more, v, tag, e, InTx(k, Tx(multiset{e}, multiset{}, multiset{})), SaveMessage);
    more, v := Go(cfg, s, more, v, tag, e, InTx(k, Tx(multiset{e}, multiset{e}, multiset{})), SaveOutbox);
  }

  /** Where the transaction leaves the run. */
  function PhaseOf(k: nat, r: TxResult): Phase {
    match r
    case Threw(err) => InCatch(k, ClassifyError(err))
    case _ => Settled(k)
  }

  function ClassOf(r: TxResult): ErrorClass {
    if r.Threw? then ClassifyError(r.err) else Permanent
  }

  /** The ledger insert reports a taken id exactly when it is taken. */
  predicate Honest(f: TxFaults) {
    f.ledger.Some? ==> !IsUniqueViolation(f.ledger.value)
  }

  lemma CommittingRun(cfg: Config, s: State, steps: seq<Step>, u: State, tag: Tag, e: EventId, k: nat, f: TxFaults)
    returns (more: seq<Step>, v: State)
    requires At(cfg, s, steps, u, tag, Counted(k)) && Running(cfg, s.net, tag, e) && KeyFree(s.net, e)
    requires Commits(u.db.processed, e, 1, f)
    ensures At(cfg, s, more, v, tag, PhaseOf(k, ResultOf(u.db.processed, e, 1, f))) && v.db == DbAfterTx(u.db, e, 1, f)
    ensures CommitsIn(more) == CommitsIn(steps) + 1
  {
    var r := ResultOf(u.db.processed, e, 1, f);
    more, v := ToOutbox(cfg, s, steps, u, tag, e, k);
    more, v := Go(cfg, s, more, v, tag, e, InTx(k, Tx(multiset{e}, multiset{e}, multiset{e})),
                  Commit(r.First?, ClassOf(r)));
    assert multiset{}[e := 1] == multiset{e};
  }

  lemma OtherRun(cfg: Config, s: State, steps: seq<Step>, u: State, tag: Tag, e: EventId, k: nat, f: TxFaults)
    returns (more: seq<Step>, v: State)
    requires At(cfg, s, steps, u, tag, Counted(k)) && Running(cfg, s.net, tag, e)
    requires !Commits(u.db.processed, e, 1, f) && Honest(f)
    ensures At(cfg, s, more, v, tag, PhaseOf(k, ResultOf(u.db.processed, e, 1, f))) && v.db == u.db
    ensures CommitsIn(more) == CommitsIn(steps)
  {
    var r := ResultOf(u.db.processed, e, 1, f);
    if f.begin.Some? {
      more, v := Go(cfg, s, steps, u, tag, e, Counted(k), BeginFails(ClassOf(r)));
    } else {
      more, v := Go(cfg, s, steps, u, tag, e, Counted(k), Begin);
      if r.Duplicate? {
        more, v := Go(cfg, s, more, v, tag, e, InTx(k, EMPTY_TX), FindDuplicate);
      } else {
        ResultTellsEffect(u.db, e, 1, f);
        more, v := Go(cfg, s, more, v, tag, e, InTx(k, EMPTY_TX), TxFails(ClassOf(r)));
      }
    }
  }

  lemma TransactionIsRun(cfg: Config, s: State, steps: seq<Step>, u: State, tag: Tag, e: EventId, k: nat, f: TxFaults)
    returns (more: seq<Step>, v: State)
    requires At(cfg, s, steps, u, tag, Counted(k)) && Running(cfg, s.net, tag, e) && KeyFree(s.net, e) && Honest(f)
    ensures At(cfg, s, more, v, tag, PhaseOf(k, ResultOf(u.db.processed, e, 1, f))) && v.db == DbAfterTx(u.db, e, 1, f)
    ensures CommitsIn(more) == CommitsIn(steps) + if Commits(u.db.processed, e, 1, f) then 1 else 0
  {
    if Commits(u.db.processed, e, 1, f) {
      more, v := CommittingRun(cfg, s, steps, u, tag, e, k, f);
    } else {
      more, v := OtherRun(cfg, s, steps, u, tag, e, k, f);
    }
  }

  lemma BusinessIsRun(cfg: Config, s: State, steps: seq<Step>, u: State, tag: Tag, e: EventId, k: nat, f: MC.Faults)
    returns (more: seq<Step>, v: State)
    requires At(cfg, s, steps, u, tag, Counted(k)) && Running(cfg, s.net, tag, e) && KeyFree(s.net, e) && Honest(f.tx)
    ensures var failure := MC.Failure(u.db, e, f);
            At(cfg, s, more, v, tag, if failure.None? then Cleared else InCatch(k, ClassifyError(failure.value)))
    ensures v.db == MC.DbAfterBusiness(u.db, e, f)
    ensures CommitsIn(more) == CommitsIn(steps) + if Commits(u.db.processed, e, 1, f.tx) then 1 else 0
  {
    more, v := TransactionIsRun(cfg, s, steps, u, tag, e, k, f.tx);
    if !ResultOf(u.db.processed, e, 1, f.tx).Threw? {
      if f.clear.Answered? {
        more, v := Go(cfg, s, more, v, tag, e, Settled(k), Clear);
      } else {
        more, v := Go(cfg, s, more, v, tag, e, Settled(k), ClearFails(f.clear.tookEffect, ClassifyError(f.clear.err)));
      }
    }
  }

  // ---- The end of the run ----

  function PlaceOf(d: MC.Disposition): Place
    requires !d.Unsettled?
  {
    match d
    case Acked => Place.Acked
    case Requeued => InQueue(WorkQueue)
    case DeadLettered => InQueue(DeadLetterQueue)
  }

  /** The broker after the delivery: the copy where the disposition puts it, the run gone, and
      one more copy on the retry queue if a retry reached the broker. */
  ghost predicate Concluded(n: Net, m: Net, tag: Tag, end: MC.Ending)
    requires tag in n.handlers && n.handlers[tag].copy in n.copies && !end.disposition.Unsettled?
  {
    var c := n.handlers[tag].copy;
    var kept := n.copies[c := n.copies[c].(place := PlaceOf(end.disposition))];
    && m.handlers == n.handlers - {tag} && m.nextTag == n.nextTag
    && m.copies == (if end.retry.Some? then kept[n.nextCopy := Copy(end.retry.value, InQueue(RetryQueue))] else kept)
  }

  lemma CloseIsRun(cfg: Config, s: State, steps: seq<Step>, u: State, tag: Tag, e: EventId, p: Phase, h: HandlerStep,
                   end: MC.Ending)
    returns (more: seq<Step>, v: State)
    requires At(cfg, s, steps, u, tag, p) && Running(cfg, s.net, tag, e) && Attached(s.net, tag)
    requires Closes(h) && PhaseAllows(p, h) && WorldAllows(u, e, h)
    requires end.db == u.db && end.retry.None? && !end.disposition.Unsettled? && PlaceAfter(h) == PlaceOf(end.disposition)
    ensures ValidRun(cfg, s, more) && Run(cfg, s, more) == v && v.db == end.db && Concluded(s.net, v.net, tag, end)
    ensures OnlyBy(more, tag) && CommitsIn(more) == CommitsIn(steps)
  {
    assert HandlerEnabled(cfg, u, tag, e, h);
    RunExtend(cfg, s, steps, Handle(tag, e, h));
    OneMore(steps, Handle(tag, e, h));
    more := steps + [Handle(tag, e, h)];
    v := Next(cfg, u, Handle(tag, e, h));
    assert Enter(s.net, tag, p).handlers - {tag} == s.net.handlers - {tag};
  }

  /** The broker once publishToRetry is over. */
  function Published(n: Net, tag: Tag, p: Phase, retry: Option<Msg>): Net
    requires tag in n.handlers
  {
    if retry.Some? then AddCopy(Enter(n, tag, p), retry.value, InQueue(RetryQueue)) else Enter(n, tag, p)
  }

  lemma PublishIsRun(cfg: Config, s: State, steps: seq<Step>, u: State, tag: Tag, e: EventId, k: nat, h: HandlerStep)
    returns (more: seq<Step>, v: State)
    requires At(cfg, s, steps, u, tag, InCatch(k, Transient)) && Running(cfg, s.net, tag, e)
    requires k < RetryPolicy.MAX_ATTEMPTS && h.PublishRetry? && h.q == RetryQueue && (h.confirmed ==> h.reached)
    ensures ValidRun(cfg, s, more) && Run(cfg, s, more) == v && v.db == u.db
    ensures OnlyBy(more, tag) && CommitsIn(more) == CommitsIn(steps)
    ensures v.net == Published(s.net, tag, if h.confirmed then RetrySent(k, s.net.nextCopy) else RetryRefused(k),
                               if h.reached then Some(RetryMsgOf(s.net, tag, h)) else None)
  {
    PublishTargets("");
    assert HandlerEnabled(cfg, u, tag, e, h);
    RunExtend(cfg, s, steps, Handle(tag, e, h));
    OneMore(steps, Handle(tag, e, h));
    more := steps + [Handle(tag, e, h)];
    v := Next(cfg, u, Handle(tag, e, h));
  }

  lemma SettleIsRun(cfg: Config, s: State, steps: seq<Step>, u: State, tag: Tag, e: EventId, p: Phase, h: HandlerStep,
                    end: MC.Ending)
    returns (more: seq<Step>, v: State)
    requires Running(cfg, s.net, tag, e) && Attached(s.net, tag) && s.net.nextCopy !in s.net.copies
    requires ValidRun(cfg, s, steps) && Run(cfg, s, steps) == u && OnlyBy(steps, tag)
    requires u.net == Published(s.net, tag, p, end.retry)
    requires (h.AckRetried? || h.NackRequeue?) && PhaseAllows(p, h)
    requires end.db == u.db && !end.disposition.Unsettled? && PlaceAfter(h) == PlaceOf(end.disposition)
    ensures ValidRun(cfg, s, more) && Run(cfg, s, more) == v && v.db == end.db && Concluded(s.net, v.net, tag, end)
    ensures OnlyBy(more, tag) && CommitsIn(more) == CommitsIn(steps)
  {
    assert HandlerEnabled(cfg, u, tag, e, h);
    RunExtend(cfg, s, steps, Handle(tag, e, h));
    OneMore(steps, Handle(tag, e, h));
    more := steps + [Handle(tag, e, h)];
    v := Next(cfg, u, Handle(tag, e, h));
    SettledNet(s.net, tag, p, end);
  }

  lemma SettledNet(n: Net, tag: Tag, p: Phase, end: MC.Ending)
    requires Attached(n, tag) && n.nextCopy !in n.copies && !end.disposition.Unsettled?
    ensures var m := Published(n, tag, p, end.retry);
            Attached(m, tag) && Concluded(n, Finish(m, tag, PlaceOf(end.disposition)), tag, end)
  {
    var m := Published(n, tag, p, end.retry);
    assert Finish(m, tag, PlaceOf(end.disposition)).handlers == n.handlers - {tag};
  }

  /** Publish the retry copy, then ack or requeue. */
  lemma RetryIsRun(cfg: Config, s: State, steps: seq<Step>, u: State, tag: Tag, e: EventId, k: nat, correlationId: string,
                   f: MC.Faults, end: MC.Ending)
    returns (more: seq<Step>, v: State)
    requires At(cfg, s, steps, u, tag, InCatch(k, Transient)) && Running(cfg, s.net, tag, e) && Attached(s.net, tag)
    requires k < RetryPolicy.MAX_ATTEMPTS && s.net.nextCopy !in s.net.copies
    requires var copy := RetryMsg(s.net.copies[s.net.handlers[tag].copy].msg, f.message, f.now, correlationId);
             && end.db == u.db
             && match MC.PublishResult(f.publish)
                case Scheduled => end.disposition == MC.Acked && end.retry == Some(copy)
                case Refused(reached) => end.disposition == MC.Requeued && end.retry == if reached then Some(copy) else None
    ensures ValidRun(cfg, s, more) && Run(cfg, s, more) == v && v.db == end.db && Concluded(s.net, v.net, tag, end)
    ensures OnlyBy(more, tag) && CommitsIn(more) == CommitsIn(steps)
  {
    var published := MC.PublishResult(f.publish);
    var ok := published.Scheduled?;
    var h := PublishRetry(RetryQueue, ok || published.reached, ok, f.message, f.now, correlationId);
    more, v := PublishIsRun(cfg, s, steps, u, tag, e, k, h);
    if ok {
      more, v := SettleIsRun(cfg, s, more, v, tag, e, RetrySent(k, s.net.nextCopy), AckRetried, end);
    } else {
      more, v := SettleIsRun(cfg, s, more, v, tag, e, RetryRefused(k), NackRequeue, end);
    }
  }

  /** The error path: retry or dead-letter. */
  lemma DecisionIsRun(cfg: Config, s: State, steps: seq<Step>, u: State, tag: Tag, e: EventId, k: nat, err: Thrown,
                      correlationId: string, f: MC.Faults, end: MC.Ending)
    returns (more: seq<Step>, v: State)
    requires At(cfg, s, steps, u, tag, InCatch(k, ClassifyError(err))) && Running(cfg, s.net, tag, e) && Attached(s.net, tag)
    requires s.net.nextCopy !in s.net.copies && end.db == u.db
    requires (end.disposition, end.retry) ==
             MC.Decision(k, err, s.net.copies[s.net.handlers[tag].copy].msg, correlationId, f)
    ensures ValidRun(cfg, s, more) && Run(cfg, s, more) == v && v.db == end.db
    ensures !end.disposition.Unsettled? && Concluded(s.net, v.net, tag, end)
    ensures OnlyBy(more, tag) && CommitsIn(more) == CommitsIn(steps)
  {
    if MC.RetryDue(k, err) {
      more, v := RetryIsRun(cfg, s, steps, u, tag, e, k, correlationId, f, end);
    } else {
      DeadLetterHops(KeyWork);
      more, v := CloseIsRun(cfg, s, steps, u, tag, e, InCatch(k, ClassifyError(err)), NackDead(DeadLetterQueue), end);
    }
  }

  /** The run has a fresh delivery of a message that validated as `e`, and nobody else is
      inserting `e` at the moment. */
  ghost predicate FreshDelivery(cfg: Config, n: Net, tag: Tag, e: EventId) {
    && Running(cfg, n, tag, e) && Attached(n, tag) && n.handlers[tag].phase.Received?
    && KeyFree(n, e) && n.nextCopy !in n.copies
  }

  lemma HandlingIsRun(cfg: Config, s: State, tag: Tag, event: EventV2, f: MC.Faults)
    returns (steps: seq<Step>, t: State)
    requires FreshDelivery(cfg, s.net, tag, event.env.eventId) && Honest(f.tx)
    ensures ValidRun(cfg, s, steps) && Run(cfg, s, steps) == t && OnlyBy(steps, tag)
    ensures var end := MC.HandledEnding(s.db, event, s.net.copies[s.net.handlers[tag].copy].msg, f);
            && t.db == end.db && CommitsIn(steps) == (if end.wrote.Some? then 1 else 0)
            && if end.disposition.Unsettled? then t.net == Enter(s.net, tag, Stuck)
               else Concluded(s.net, t.net, tag, end)
  {
    var msg := s.net.copies[s.net.handlers[tag].copy].msg;
    var e := event.env.eventId;
    var end := MC.HandledEnding(s.db, event, msg, f);
    assert s.net == Enter(s.net, tag, Received) by {
      assert s.net.handlers == s.net.handlers[tag := s.net.handlers[tag].(phase := Received)];
    }
    assert At(cfg, s, [], s, tag, Received);
    if f.record.Lost? {
      steps, t := Go(cfg, s, [], s, tag, e, Received, RecordFails(f.record.tookEffect));
    } else {
      var k := CountOf(s.db.attempts, e) + 1;
      steps, t := Go(cfg, s, [], s, tag, e, Received, Record);
      var recorded := t.db;
      steps, t := BusinessIsRun(cfg, s, steps, t, tag, e, k, f);
      var failure := MC.Failure(recorded, e, f);
      if failure.None? {
        steps, t := CloseIsRun(cfg, s, steps, t, tag, e, Cleared, AckDone, end);
      } else {
        steps, t := DecisionIsRun(cfg, s, steps, t, tag, e, k, failure.value, event.env.correlationId, f, end);
      }
    }
  }

  /** The whole handler, rejected messages included. */
  lemma DeliveryIsRun(lex: Lexical, s: State, tag: Tag, f: MC.Faults) returns (steps: seq<Step>, t: State)
    requires Attached(s.net, tag) && s.net.handlers[tag].phase.Received? && s.net.nextCopy !in s.net.copies
    requires (forall e :: KeyFree(s.net, e)) && Honest(f.tx)
    ensures var cfg := MC.IdentifyWith(lex); ValidRun(cfg, s, steps) && Run(cfg, s, steps) == t && OnlyBy(steps, tag)
    ensures var end := MC.EndingOf(lex, s.db, s.net.copies[s.net.handlers[tag].copy].msg, f);
            && t.db == end.db && CommitsIn(steps) == (if end.wrote.Some? then 1 else 0)
            && if end.disposition.Unsettled? then t.net == Enter(s.net, tag, Stuck)
               else Concluded(s.net, t.net, tag, end)
  {
    var cfg := MC.IdentifyWith(lex);
    var msg := s.net.copies[s.net.handlers[tag].copy].msg;
    match ContractDispatch.Consume(lex, msg.body, msg.headers.schemaVersion) {
      case None =>
        assert Event(cfg, s.net, tag).None?;
        assert ValidRun(cfg, s, []) && Run(cfg, s, []) == s;
        RunExtend(cfg, s, [], Reject(tag));
        OneMore([], Reject(tag));
        steps := [] + [Reject(tag)];
        t := Next(cfg, s, Reject(tag));
      case Some(event) =>
        assert Event(cfg, s.net, tag) == Some(event.env.eventId);
        assert KeyFree(s.net, event.env.eventId);
        steps, t := HandlingIsRun(cfg, s, tag, event, f);
    }
  }
}
