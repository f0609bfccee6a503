/** What holds in every reachable state of the consumer protocol and over every run of it. */
module ConsumerTheorems {
  import opened Wrappers
  import opened Json
  import opened SchemaVersion
  import opened Topology
  import opened ConsumerProtocol
  import opened ConsumerInvariants
  import opened ConsumerBudget
  import RetryPolicy

  ghost predicate Inv(cfg: Config, s: State) {
    && Linked(s.net) && Isolated(cfg, s) && OnceIn(s.db, s.hist) && Conserved(cfg, s)
    && Routed(s.net) && Budgeted(cfg, s) && Tallied(cfg, s)
  }

  lemma InvInit(cfg: Config)
    ensures Inv(cfg, INIT)
  {
    forall e ensures BudgetOf(cfg, INIT, e) && TalliedOf(cfg, INIT, e) {
      assert Numbers(INIT.hist.retried, e) == {} && Numbers(INIT.hist.ended, e) == {};
      assert CopiesOf(cfg, INIT.net, e) == {};
    }
  }

  lemma InvKept(cfg: Config, s: State, step: Step)
    requires Inv(cfg, s) && Enabled(cfg, s, step)
    ensures Inv(cfg, Next(cfg, s, step))
  {
    LinkedKept(cfg, s, step);
    IsolatedKept(cfg, s, step);
    OnceKept(cfg, s, step);
    ConservedKept(cfg, s, step);
    RoutedKept(cfg, s, step);
    BudgetedKept(cfg, s, step);
    TalliedKept(cfg, s, step);
  }

  lemma {:induction false} RunKeepsInv(cfg: Config, s: State, steps: seq<Step>)
    requires Inv(cfg, s) && ValidRun(cfg, s, steps)
    ensures Inv(cfg, Run(cfg, s, steps))
    decreases |steps|
  {
    if steps != [] {
      InvKept(cfg, s, steps[0]);
      RunKeepsInv(cfg, Next(cfg, s, steps[0]), steps[1..]);
    }
  }

  lemma ReachableInv(cfg: Config, s: State)
    requires Reachable(cfg, s)
    ensures Inv(cfg, s)
  {
    var steps :| ValidRun(cfg, INIT, steps) && Run(cfg, INIT, steps) == s;
    InvInit(cfg);
    RunKeepsInv(cfg, INIT, steps);
  }

  // ---- At most once ----

  /** Under any interleaving, rollback, ambiguous commit and redelivery, the ledger rows, the
      messages and the MessagePersisted rows of an event are equal in number and at most one,
      and no more `duplicate: false` results than that are returned. */
  lemma AtMostOnce(cfg: Config, s: State, e: EventId)
    requires Reachable(cfg, s)
    ensures s.db.processed[e] == s.db.messages[e] == s.db.persisted[e]
    ensures s.hist.firstResults[e] <= s.db.processed[e] <= 1
  {
    ReachableInv(cfg, s);
  }

  // ---- Conservation ----

  /** Where a copy still counts: queued, being handled, or dead-lettered and logged. */
  predicate Kept(p: Place) {
    !p.Acked?
  }

  /** The copy of `e` that is still kept, from any copy of it. */
  lemma {:induction false} KeptCopy(cfg: Config, s: State, c: CopyId, e: EventId) returns (d: CopyId)
    requires Linked(s.net) && Conserved(cfg, s)
    requires c in s.net.copies && EventOf(cfg, s.net.copies[c].msg) == Some(e) && e !in s.db.processed
    ensures d in s.net.copies && EventOf(cfg, s.net.copies[d].msg) == Some(e) && Kept(s.net.copies[d].place)
    decreases s.net.nextCopy - c
  {
    if Kept(s.net.copies[c].place) {
      d := c;
    } else {
      assert AckJustified(cfg, s, c);
      var later :| SucceededBy(cfg, s.net, c, later);
      d := KeptCopy(cfg, s, later, e);
    }
  }

  /** An event the broker ever had a copy of is processed, or a command copy of it waits in
      the work or retry queue, is with a handler, or was dead-lettered; a domain event's copy
      is on the audit queue. */
  lemma NothingLost(cfg: Config, s: State, c: CopyId, e: EventId)
    requires Reachable(cfg, s) && c in s.net.copies && EventOf(cfg, s.net.copies[c].msg) == Some(e)
    ensures e in s.db.processed || exists d :: Holding(cfg, s.net, d, e)
  {
    ReachableInv(cfg, s);
    if e !in s.db.processed {
      var d := KeptCopy(cfg, s, c, e);
      assert Holding(cfg, s.net, d, e);
    }
  }

  ghost predicate Holding(cfg: Config, n: Net, d: CopyId, e: EventId) {
    && d in n.copies && EventOf(cfg, n.copies[d].msg) == Some(e)
    && match n.copies[d].place
       case InQueue(q) => q.AuditQueue? <==> n.copies[d].msg.eventType !in COMMAND_EVENT_TYPES
       case Unacked(tag) => tag in n.handlers && n.handlers[tag].copy == d
       case Logged => n.copies[d].msg.eventType in COMMAND_EVENT_TYPES
       case Acked => false
  }

  // ---- Routing ----

  /** Retry and dead-letter hops, redeliveries and re-injections included, command copies stay
      off the audit queue and every other copy stays on it, so it is never handled. */
  lemma RoutingIsolated(cfg: Config, s: State, c: CopyId)
    requires Reachable(cfg, s) && c in s.net.copies
    ensures s.net.copies[c].place == InQueue(AuditQueue) <==> s.net.copies[c].msg.eventType !in COMMAND_EVENT_TYPES
    ensures forall tag | tag in s.net.handlers && s.net.handlers[tag].copy == c ::
              s.net.copies[c].msg.eventType in COMMAND_EVENT_TYPES
  {
    ReachableInv(cfg, s);
  }

  // ---- The retry budget ----

  lemma {:induction false} NumbersBelow(numbers: set<nat>, bound: nat)
    requires forall k | k in numbers :: 1 <= k <= bound
    ensures |numbers| <= bound
  {
    if bound == 0 {
      assert numbers == {};
    } else {
      NumbersBelow(numbers - {bound}, bound - 1);
    }
  }

  lemma FewNumbers(pairs: set<(EventId, nat)>, e: EventId)
    requires forall k | (e, k) in pairs :: 1 <= k < RetryPolicy.MAX_ATTEMPTS
    ensures |Numbers(pairs, e)| <= RetryPolicy.MAX_ATTEMPTS - 1
  {
    forall k | k in Numbers(pairs, e) ensures 1 <= k <= RetryPolicy.MAX_ATTEMPTS - 1 {
      NumbersGrow(pairs, e, k, e);
    }
    NumbersBelow(Numbers(pairs, e), RetryPolicy.MAX_ATTEMPTS - 1);
  }

  /** Until an event is processed its stored counter is the number of recordAttempt
      executions for it, publishToRetry is called for it at most four times across all
      consumers, at most four completed runs end in retry or requeue, and there are at most
      four copies beyond those the relay and the operator published. */
  lemma RetryBudget(cfg: Config, s: State, e: EventId)
    requires Reachable(cfg, s) && e !in s.db.processed
    ensures CountOf(s.db.attempts, e) == CountOf(s.hist.recorded, e)
    ensures CountOf(s.hist.retryEnds, e) <= CountOf(s.hist.retryCalls, e) <= 4
    ensures |CopiesOf(cfg, s.net, e)| <= CountOf(s.hist.arrivals, e) + CountOf(s.hist.reinjections, e) + 4
  {
    ReachableInv(cfg, s);
    assert BudgetOf(cfg, s, e) && TalliedOf(cfg, s, e);
    FewNumbers(s.hist.retried, e);
    forall k | k in Numbers(s.hist.ended, e) ensures k in Numbers(s.hist.retried, e) {
      NumbersGrow(s.hist.ended, e, k, e);
      NumbersGrow(s.hist.retried, e, k, e);
    }
    SubsetSize(Numbers(s.hist.ended, e), Numbers(s.hist.retried, e));
  }

  lemma {:induction false} SubsetSize(small: set<nat>, large: set<nat>)
    requires small <= large
    ensures |small| <= |large|
    decreases small
  {
    if small != {} {
      var k :| k in small;
      SubsetSize(small - {k}, large - {k});
    }
  }

  // ---- The same over the steps of a run ----

  function CountIn(steps: seq<Step>, counts: Step -> bool): nat {
    if steps == [] then 0 else (if counts(steps[0]) then 1 else 0) + CountIn(steps[1..], counts)
  }

  predicate OfEvent(step: Step, e: EventId) {
    step.Handle? && step.e == e
  }

  /** recordAttempt took effect for `e`. */
  predicate Records(step: Step, e: EventId) {
    OfEvent(step, e) && (step.h == Record || step.h == RecordFails(true))
  }

  predicate CallsRetry(step: Step, e: EventId) {
    OfEvent(step, e) && step.h.PublishRetry?
  }

  predicate EndsInRetry(step: Step, e: EventId) {
    OfEvent(step, e) && (step.h == AckRetried || step.h == NackRequeue)
  }

  predicate CommitsFor(step: Step, e: EventId) {
    OfEvent(step, e) && step.h.Commit?
  }

  lemma StepCounts(cfg: Config, s: State, step: Step, e: EventId)
    requires Enabled(cfg, s, step)
    ensures var t := Next(cfg, s, step).hist;
            && CountOf(t.recorded, e) == CountOf(s.hist.recorded, e) + (if Records(step, e) then 1 else 0)
            && CountOf(t.retryCalls, e) == CountOf(s.hist.retryCalls, e) + (if CallsRetry(step, e) then 1 else 0)
            && CountOf(t.retryEnds, e) == CountOf(s.hist.retryEnds, e) + (if EndsInRetry(step, e) then 1 else 0)
  {
    match step {
      case World(b) => WorldHistory(cfg, s, b);
      case Reject(_) =>
      case Handle(tag, f, h) => HandlerHistory(s.hist, f, s.net.handlers[tag].phase, h, e);
    }
  }

  lemma {:induction false} RunCounts(cfg: Config, s: State, steps: seq<Step>, e: EventId)
    requires ValidRun(cfg, s, steps)
    ensures var t := Run(cfg, s, steps).hist;
            && CountOf(t.recorded, e) == CountOf(s.hist.recorded, e) + CountIn(steps, step => Records(step, e))
            && CountOf(t.retryCalls, e) == CountOf(s.hist.retryCalls, e) + CountIn(steps, step => CallsRetry(step, e))
            && CountOf(t.retryEnds, e) == CountOf(s.hist.retryEnds, e) + CountIn(steps, step => EndsInRetry(step, e))
    decreases |steps|
  {
    if steps != [] {
      StepCounts(cfg, s, steps[0], e);
      RunCounts(cfg, Next(cfg, s, steps[0]), steps[1..], e);
    }
  }

  /** In every run that leaves the event unprocessed, its stored counter is the number of
      recordAttempt executions, at most four publishToRetry calls are made for it across all
      consumers, and at most four handler runs end in retry or requeue. */
  lemma RetryBudgetOverRuns(cfg: Config, steps: seq<Step>, e: EventId)
    requires ValidRun(cfg, INIT, steps) && e !in Run(cfg, INIT, steps).db.processed
    ensures CountOf(Run(cfg, INIT, steps).db.attempts, e) == CountIn(steps, step => Records(step, e))
    ensures CountIn(steps, step => CallsRetry(step, e)) <= 4
    ensures CountIn(steps, step => EndsInRetry(step, e)) <= 4
  {
    RunCounts(cfg, INIT, steps, e);
    RetryBudget(cfg, Run(cfg, INIT, steps), e);
  }

  lemma StepEffects(cfg: Config, s: State, step: Step, e: EventId)
    requires Inv(cfg, s) && Enabled(cfg, s, step)
    ensures Next(cfg, s, step).db.processed[e] == s.db.processed[e] + if CommitsFor(step, e) then 1 else 0
  {
    if step.Handle? {
      assert RunFits(cfg, s, step.tag);
    }
  }

  lemma {:induction false} RunEffects(cfg: Config, s: State, steps: seq<Step>, e: EventId)
    requires Inv(cfg, s) && ValidRun(cfg, s, steps)
    ensures Run(cfg, s, steps).db.processed[e] == s.db.processed[e] + CountIn(steps, step => CommitsFor(step, e))
    decreases |steps|
  {
    if steps != [] {
      StepEffects(cfg, s, steps[0], e);
      InvKept(cfg, s, steps[0]);
      RunEffects(cfg, Next(cfg, s, steps[0]), steps[1..], e);
    }
  }

  /** In every run at most one transaction commits for an event, and each of the three tables
      holds as many rows of it. */
  lemma AtMostOnceOverRuns(cfg: Config, steps: seq<Step>, e: EventId)
    requires ValidRun(cfg, INIT, steps)
    ensures var t := Run(cfg, INIT, steps).db;
            t.processed[e] == t.messages[e] == t.persisted[e] == CountIn(steps, step => CommitsFor(step, e)) <= 1
  {
    InvInit(cfg);
    RunEffects(cfg, INIT, steps, e);
    AtMostOnce(cfg, Run(cfg, INIT, steps), e);
  }

  // ---- The cap survives replays ----

  lemma RecordedGrows(cfg: Config, s: State, step: Step, e: EventId)
    requires Enabled(cfg, s, step)
    ensures CountOf(Next(cfg, s, step).hist.recorded, e) >= CountOf(s.hist.recorded, e)
  {
    match step {
      case World(b) => WorldHistory(cfg, s, b);
      case Reject(_) =>
      case Handle(tag, f, h) => HandlerHistory(s.hist, f, s.net.handlers[tag].phase, h, e);
    }
  }

  lemma {:induction false} RecordedGrowsOverRuns(cfg: Config, s: State, steps: seq<Step>, e: EventId)
    requires ValidRun(cfg, s, steps)
    ensures CountOf(Run(cfg, s, steps).hist.recorded, e) >= CountOf(s.hist.recorded, e)
    ensures e in s.db.processed ==> e in Run(cfg, s, steps).db.processed
    decreases |steps|
  {
    if steps != [] {
      RecordedGrows(cfg, s, steps[0], e);
      if e in s.db.processed {
        ProcessedGrows(cfg, s, steps[0], e);
      }
      RecordedGrowsOverRuns(cfg, Next(cfg, s, steps[0]), steps[1..], e);
    }
  }

  /** Nothing that happens to an unprocessed event resets its counter. */
  lemma CounterNeverFalls(cfg: Config, s: State, steps: seq<Step>, e: EventId)
    requires Inv(cfg, s) && ValidRun(cfg, s, steps) && e !in Run(cfg, s, steps).db.processed
    ensures CountOf(Run(cfg, s, steps).db.attempts, e) >= CountOf(s.db.attempts, e)
  {
    var t := Run(cfg, s, steps);
    RecordedGrowsOverRuns(cfg, s, steps, e);
    RunKeepsInv(cfg, s, steps);
    assert BudgetOf(cfg, s, e) && BudgetOf(cfg, t, e);
  }

  predicate RetryStep(h: HandlerStep) {
    h.PublishRetry? || h.AckRetried? || h.NackRequeue?
  }

  /** A run numbered at or past the cap: finished, or in a phase that still carries the number. */
  predicate Capped(n: Net, tag: Tag) {
    && tag < n.nextTag
    && (tag in n.handlers ==>
          match n.handlers[tag].phase
          case Counted(k) => k >= RetryPolicy.MAX_ATTEMPTS
          case InTx(k, _) => k >= RetryPolicy.MAX_ATTEMPTS
          case Settled(k) => k >= RetryPolicy.MAX_ATTEMPTS
          case InCatch(k, _) => k >= RetryPolicy.MAX_ATTEMPTS
          case Cleared => true
          case _ => false)
  }

  lemma CappedKept(cfg: Config, s: State, step: Step, tag: Tag)
    requires Linked(s.net) && Capped(s.net, tag) && Enabled(cfg, s, step)
    ensures Capped(Next(cfg, s, step).net, tag)
    ensures step.Handle? && step.tag == tag ==> !RetryStep(step.h)
  {
    if tag in Next(cfg, s, step).net.handlers {
      OtherRunsKept(cfg, s, step, tag);
    }
  }

  lemma {:induction false} CappedOverRuns(cfg: Config, s: State, steps: seq<Step>, tag: Tag)
    requires Linked(s.net) && Capped(s.net, tag) && ValidRun(cfg, s, steps)
    ensures Linked(Run(cfg, s, steps).net) && Capped(Run(cfg, s, steps).net, tag)
    decreases |steps|
  {
    if steps != [] {
      LinkedKept(cfg, s, steps[0]);
      CappedKept(cfg, s, steps[0], tag);
      CappedOverRuns(cfg, Next(cfg, s, steps[0]), steps[1..], tag);
    }
  }

  lemma RecordCaps(cfg: Config, u: State, tag: Tag, e: EventId)
    requires Linked(u.net) && Enabled(cfg, u, Handle(tag, e, Record))
    requires CountOf(u.db.attempts, e) >= RetryPolicy.MAX_ATTEMPTS - 1
    ensures Capped(Next(cfg, u, Handle(tag, e, Record)).net, tag)
  {
  }

  lemma CappedStep(cfg: Config, t: State, tag: Tag, f: EventId, h: HandlerStep)
    requires Linked(t.net) && Isolated(cfg, t) && Capped(t.net, tag) && Enabled(cfg, t, Handle(tag, f, h))
    ensures !RetryStep(h) && (Closes(h) ==> h.NackDead? || f in t.db.processed)
  {
    CappedKept(cfg, t, Handle(tag, f, h), tag);
    assert RunFits(cfg, t, tag);
  }

  /** The state a capped run is in after `before`, its own record, and `after`. */
  ghost predicate Later(cfg: Config, s: State, before: seq<Step>, tag: Tag, e: EventId, after: seq<Step>, t: State) {
    && ValidRun(cfg, s, before)
    && var u := Run(cfg, s, before);
       && e !in u.db.processed && Enabled(cfg, u, Handle(tag, e, Record))
       && var v := Next(cfg, u, Handle(tag, e, Record));
          ValidRun(cfg, v, after) && Run(cfg, v, after) == t
  }

  lemma CappedLater(cfg: Config, s: State, before: seq<Step>, tag: Tag, e: EventId, after: seq<Step>, t: State)
    requires Inv(cfg, s) && CountOf(s.db.attempts, e) >= RetryPolicy.MAX_ATTEMPTS - 1
    requires Later(cfg, s, before, tag, e, after, t)
    ensures Linked(t.net) && Isolated(cfg, t) && Capped(t.net, tag)
  {
    var u := Run(cfg, s, before);
    RunKeepsInv(cfg, s, before);
    CounterNeverFalls(cfg, s, before, e);
    RecordCaps(cfg, u, tag, e);
    InvKept(cfg, u, Handle(tag, e, Record));
    var v := Next(cfg, u, Handle(tag, e, Record));
    CappedOverRuns(cfg, v, after, tag);
    RunKeepsInv(cfg, v, after);
  }

  /** Once four attempts are recorded against an unprocessed event, a run that records its own
      attempt after any further history never publishes to retry or requeues; if it completes,
      it dead-letters the message or acks it with the event processed. Nothing is asked of the
      headers the message carries or of how it got here. */
  lemma ReplayProofCap(cfg: Config, s: State, before: seq<Step>, tag: Tag, e: EventId, after: seq<Step>, t: State,
                       f: EventId, h: HandlerStep)
    requires Reachable(cfg, s) && CountOf(s.db.attempts, e) >= 4
    requires Later(cfg, s, before, tag, e, after, t) && Enabled(cfg, t, Handle(tag, f, h))
    ensures !RetryStep(h)
    ensures Closes(h) ==> h.NackDead? || f in t.db.processed
  {
    ReachableInv(cfg, s);
    CappedLater(cfg, s, before, tag, e, after, t);
    CappedStep(cfg, t, tag, f, h);
  }

  // ---- Retry hops ----

  /** What the handler of one hop puts in: the error text, the time, the correlation id. */
  datatype Hop = Hop(error: string, now: string, correlationId: string)

  function AfterHops(msg: Msg, hops: seq<Hop>): Msg {
    if hops == [] then msg
    else
      var last := hops[|hops| - 1];
      RetryMsg(AfterHops(msg, hops[..|hops| - 1]), last.error, last.now, last.correlationId)
  }

  /** Over any number of hops the header counts the hops, the first error and failure time
      stay, the error class and the correlation id are the latest, and the message resolves to the same version and validates as the same event. */
  lemma {:induction false} HopsKeepTheEvent(cfg: Config, msg: Msg, hops: seq<Hop>)
    ensures var t := AfterHops(msg, hops);
            && t.body == msg.body && t.eventType == msg.eventType
            && ResolveSchemaVersion(t.body, t.headers.schemaVersion, None) ==
               ResolveSchemaVersion(msg.body, msg.headers.schemaVersion, None)
            && EventOf(cfg, t) == EventOf(cfg, msg)
            && ReadRetryCount(t.headers) == ReadRetryCount(msg.headers) + |hops| as real
            && (hops != [] ==> t.headers.firstError == KeepFirst(msg.headers.firstError, hops[0].error)
                               && t.headers.failedAt == KeepFirst(msg.headers.failedAt, hops[0].now)
                               && t.headers.errorClass == Plain(JStr("TRANSIENT"))
                               && t.headers.correlationId == Plain(JStr(hops[|hops| - 1].correlationId)))
  {
    if hops != [] {
      var front := hops[..|hops| - 1];
      HopsKeepTheEvent(cfg, msg, front);
      if front != [] {
        assert front[0] == hops[0];
      }
    }
  }
}
