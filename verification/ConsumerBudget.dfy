/** The durable retry budget and the number of copies: further invariants of the consumer
    protocol, for events that are not processed yet. */
module ConsumerBudget {
  import opened Wrappers
  import opened Topology
  import opened ConsumerProtocol
  import opened ConsumerInvariants
  import RetryPolicy

  // ---- Attempt numbers ----

  /** The run has an attempt number and no retry decision behind it yet. */
  predicate Undecided(p: Phase) {
    p.Counted? || p.InTx? || p.InCatch?
  }

  predicate Retrying(p: Phase) {
    p.RetrySent? || p.RetryRefused?
  }

  predicate Numbered(p: Phase) {
    Undecided(p) || Retrying(p)
  }

  /** Attempt numbers recorded against one event. */
  function Numbers(pairs: set<(EventId, nat)>, e: EventId): set<nat> {
    set p | p in pairs && p.0 == e :: p.1
  }

  ghost predicate NumberFits(s: State, e: EventId, p: Phase)
    requires Numbered(p)
  {
    && 1 <= p.k <= CountOf(s.hist.recorded, e)
    && (if Undecided(p) then (e, p.k) !in s.hist.retried
        else (e, p.k) in s.hist.retried && (e, p.k) !in s.hist.ended)
  }

  /** The run works on `e` under an attempt number. */
  ghost predicate Works(cfg: Config, n: Net, tag: Tag, e: EventId) {
    Running(cfg, n, tag, e) && Numbered(n.handlers[tag].phase)
  }

  /** One event's share of the invariant. */
  ghost predicate BudgetOf(cfg: Config, s: State, e: EventId) {
    && CountOf(s.db.attempts, e) == CountOf(s.hist.recorded, e)
    && (forall tag | Works(cfg, s.net, tag, e) :: NumberFits(s, e, s.net.handlers[tag].phase))
    && (forall a, b | Works(cfg, s.net, a, e) && Works(cfg, s.net, b, e) && a != b ::
          s.net.handlers[a].phase.k != s.net.handlers[b].phase.k)
    && CallsFit(s, e)
  }

  ghost predicate Budgeted(cfg: Config, s: State) {
    forall e | e !in s.db.processed :: BudgetOf(cfg, s, e)
  }

  lemma NumbersGrow(pairs: set<(EventId, nat)>, e: EventId, k: nat, f: EventId)
    ensures Numbers(pairs + {(e, k)}, f) == if e == f then Numbers(pairs, f) + {k} else Numbers(pairs, f)
    ensures k in Numbers(pairs, e) <==> (e, k) in pairs
  {
  }

  /** A run that works on `e` after the step did so before, with the same number, or has just
      recorded its attempt, unless `e` is processed. */
  lemma WorksBefore(cfg: Config, s: State, step: Step, x: Tag, e: EventId)
    requires Linked(s.net) && Isolated(cfg, s) && Enabled(cfg, s, step) && e !in s.db.processed
    requires Works(cfg, Next(cfg, s, step).net, x, e)
    ensures var t := Next(cfg, s, step);
            if step == Handle(x, e, Record) then t.net.handlers[x].phase == Counted(CountOf(s.db.attempts, e) + 1)
            else
              && Works(cfg, s.net, x, e) && t.net.handlers[x].phase.k == s.net.handlers[x].phase.k
              && (t.net.handlers[x] == s.net.handlers[x]
                  || (&& step.Handle? && step.tag == x && step.e == e
                      && Undecided(s.net.handlers[x].phase)
                      && (step.h.PublishRetry? <==> Retrying(t.net.handlers[x].phase))))
  {
    OtherRunsKept(cfg, s, step, x);
    MessagesKept(cfg, s, step);
    if x in s.net.handlers {
      assert RunFits(cfg, s, x);
    }
  }

  /** The stored counter follows the count of recordAttempt executions as long as nothing
      clears it, and clearing needs a processed event. */
  lemma CountAfter(db: Db, hist: History, f: EventId, p: Phase, h: HandlerStep, e: EventId)
    requires PhaseAllows(p, h) && CountOf(db.attempts, e) == CountOf(hist.recorded, e)
    requires p.Settled? ==> f != e
    ensures CountOf(DbAfter(db, f, p, h).attempts, e) == CountOf(HistoryAfter(hist, f, p, h).recorded, e)
  {
  }

  lemma CountKept(cfg: Config, s: State, step: Step, e: EventId)
    requires Linked(s.net) && Isolated(cfg, s) && Enabled(cfg, s, step) && e !in s.db.processed
    requires CountOf(s.db.attempts, e) == CountOf(s.hist.recorded, e)
    ensures CountOf(Next(cfg, s, step).db.attempts, e) == CountOf(Next(cfg, s, step).hist.recorded, e)
  {
    match step {
      case World(b) => WorldHistory(cfg, s, b);
      case Reject(_) =>
      case Handle(tag, f, h) =>
        assert RunFits(cfg, s, tag);
        CountAfter(s.db, s.hist, f, s.net.handlers[tag].phase, h, e);
    }
  }

  /** What a step of a run on `f` adds to the history of `e`. */
  ghost predicate HistoryGrows(before: History, after: History, e: EventId, mine: bool, k: nat, h: HandlerStep) {
    && CountOf(after.recorded, e) ==
       CountOf(before.recorded, e) + (if mine && (h.Record? || (h.RecordFails? && h.tookEffect)) then 1 else 0)
    && after.retried == (if mine && h.PublishRetry? then before.retried + {(e, k)} else after.retried)
    && CountOf(after.retryCalls, e) == CountOf(before.retryCalls, e) + (if mine && h.PublishRetry? then 1 else 0)
    && (!(mine && h.PublishRetry?) ==> forall i :: (e, i) in after.retried <==> (e, i) in before.retried)
    && after.ended == (if mine && EndsRetry(h) then before.ended + {(e, k)} else after.ended)
    && CountOf(after.retryEnds, e) == CountOf(before.retryEnds, e) + (if mine && EndsRetry(h) then 1 else 0)
    && (!(mine && EndsRetry(h)) ==> forall i :: (e, i) in after.ended <==> (e, i) in before.ended)
  }

  predicate EndsRetry(h: HandlerStep) {
    h.AckRetried? || h.NackRequeue?
  }

  function NumberOf(p: Phase): nat {
    if Numbered(p) then p.k else 0
  }

  lemma HandlerHistory(hist: History, f: EventId, p: Phase, h: HandlerStep, e: EventId)
    requires PhaseAllows(p, h)
    ensures HistoryGrows(hist, HistoryAfter(hist, f, p, h), e, f == e, NumberOf(p), h)
  {
  }

  lemma WorldHistory(cfg: Config, s: State, b: BrokerStep)
    requires BrokerEnabled(s.net, b)
    ensures var t := BrokerHistory(cfg, s, b);
            && t.recorded == s.hist.recorded && t.retryCalls == s.hist.retryCalls && t.retryEnds == s.hist.retryEnds
            && t.retried == s.hist.retried && t.ended == s.hist.ended && t.retryCopies == s.hist.retryCopies
  {
  }

  lemma SameNumbers(p: set<(EventId, nat)>, q: set<(EventId, nat)>, e: EventId)
    requires forall k :: (e, k) in p <==> (e, k) in q
    ensures Numbers(p, e) == Numbers(q, e)
  {
    forall k ensures k in Numbers(p, e) <==> k in Numbers(q, e) {
      NumbersGrow(p, e, k, e);
      NumbersGrow(q, e, k, e);
    }
  }

  lemma NumberFitsKept(cfg: Config, s: State, step: Step, x: Tag, e: EventId)
    requires Linked(s.net) && Isolated(cfg, s) && Enabled(cfg, s, step) && e !in s.db.processed && BudgetOf(cfg, s, e)
    requires Works(cfg, Next(cfg, s, step).net, x, e)
    ensures NumberFits(Next(cfg, s, step), e, Next(cfg, s, step).net.handlers[x].phase)
  {
    WorksBefore(cfg, s, step, x, e);
    match step {
      case World(b) => WorldHistory(cfg, s, b);
      case Reject(_) =>
      case Handle(tag, f, h) =>
        HandlerHistory(s.hist, f, s.net.handlers[tag].phase, h, e);
        if f == e && tag != x && Works(cfg, s.net, tag, e) {
          assert Works(cfg, s.net, x, e);
        }
    }
    if Works(cfg, s.net, x, e) {
      assert NumberFits(s, e, s.net.handlers[x].phase);
    } else {
      RecordIsFresh(s, e);
    }
  }

  lemma RecordIsFresh(s: State, e: EventId)
    requires CallsFit(s, e)
    ensures (e, CountOf(s.hist.recorded, e) + 1) !in s.hist.retried
  {
  }

  lemma NumbersDifferKept(cfg: Config, s: State, step: Step, a: Tag, b: Tag, e: EventId)
    requires Linked(s.net) && Isolated(cfg, s) && Enabled(cfg, s, step) && e !in s.db.processed && BudgetOf(cfg, s, e)
    requires Works(cfg, Next(cfg, s, step).net, a, e) && Works(cfg, Next(cfg, s, step).net, b, e) && a != b
    ensures Next(cfg, s, step).net.handlers[a].phase.k != Next(cfg, s, step).net.handlers[b].phase.k
  {
    WorksBefore(cfg, s, step, a, e);
    WorksBefore(cfg, s, step, b, e);
    if Works(cfg, s.net, a, e) {
      assert NumberFits(s, e, s.net.handlers[a].phase);
    }
    if Works(cfg, s.net, b, e) {
      assert NumberFits(s, e, s.net.handlers[b].phase);
    }
  }

  /** What is left of one event's share once counter and runs are dealt with. */
  ghost predicate CallsFit(s: State, e: EventId) {
    && (forall k | (e, k) in s.hist.retried :: 1 <= k < RetryPolicy.MAX_ATTEMPTS && k <= CountOf(s.hist.recorded, e))
    && (forall k | (e, k) in s.hist.ended :: (e, k) in s.hist.retried)
    && CountOf(s.hist.retryCalls, e) == |Numbers(s.hist.retried, e)|
    && CountOf(s.hist.retryEnds, e) == |Numbers(s.hist.ended, e)|
  }

  lemma PairsGrow(before: set<(EventId, nat)>, after: set<(EventId, nat)>, e: EventId, k: nat, grows: bool)
    requires if grows then after == before + {(e, k)} && (e, k) !in before
             else forall i :: (e, i) in after <==> (e, i) in before
    ensures |Numbers(after, e)| == |Numbers(before, e)| + if grows then 1 else 0
  {
    if grows {
      NumbersGrow(before, e, k, e);
    } else {
      SameNumbers(before, after, e);
    }
  }

  lemma CallsGrow(before: State, after: State, e: EventId, mine: bool, p: Phase, h: HandlerStep)
    requires CallsFit(before, e) && PhaseAllows(p, h)
    requires HistoryGrows(before.hist, after.hist, e, mine, NumberOf(p), h)
    requires mine && Numbered(p) ==> NumberFits(before, e, p)
    ensures CallsFit(after, e)
  {
    var k := NumberOf(p);
    PairsGrow(before.hist.retried, after.hist.retried, e, k, mine && h.PublishRetry?);
    PairsGrow(before.hist.ended, after.hist.ended, e, k, mine && EndsRetry(h));
  }

  lemma CallsKept(cfg: Config, s: State, step: Step, e: EventId)
    requires Linked(s.net) && Enabled(cfg, s, step) && e !in s.db.processed && BudgetOf(cfg, s, e)
    ensures CallsFit(Next(cfg, s, step), e)
  {
    match step {
      case World(b) => WorldHistory(cfg, s, b);
      case Reject(_) =>
      case Handle(tag, f, h) =>
        var p := s.net.handlers[tag].phase;
        HandlerHistory(s.hist, f, p, h, e);
        assert f == e && Numbered(p) ==> Works(cfg, s.net, tag, e);
        CallsGrow(s, Next(cfg, s, step), e, f == e, p, h);
    }
  }

  lemma BudgetedKept(cfg: Config, s: State, step: Step)
    requires Linked(s.net) && Isolated(cfg, s) && Budgeted(cfg, s) && Enabled(cfg, s, step)
    ensures Budgeted(cfg, Next(cfg, s, step))
  {
    var t := Next(cfg, s, step);
    forall e | e !in t.db.processed ensures BudgetOf(cfg, t, e) {
      if e in s.db.processed {
        ProcessedGrows(cfg, s, step, e);
      }
      assert BudgetOf(cfg, s, e);
      CountKept(cfg, s, step, e);
      forall x | Works(cfg, t.net, x, e) ensures NumberFits(t, e, t.net.handlers[x].phase) {
        NumberFitsKept(cfg, s, step, x, e);
      }
      forall a, b | Works(cfg, t.net, a, e) && Works(cfg, t.net, b, e) && a != b
        ensures t.net.handlers[a].phase.k != t.net.handlers[b].phase.k
      {
        NumbersDifferKept(cfg, s, step, a, b, e);
      }
      CallsKept(cfg, s, step, e);
    }
  }

  // ---- How many copies there are ----

  ghost function CopiesOf(cfg: Config, n: Net, e: EventId): set<CopyId> {
    set c | c in n.copies && EventOf(cfg, n.copies[c].msg) == Some(e)
  }

  /** Copies of `e` that arrived from a relay, from an operator, or from a retry. */
  function Origins(s: State, e: EventId): nat {
    CountOf(s.hist.arrivals, e) + CountOf(s.hist.reinjections, e) + CountOf(s.hist.retryCopies, e)
  }

  ghost predicate TalliedOf(cfg: Config, s: State, e: EventId) {
    && |CopiesOf(cfg, s.net, e)| == Origins(s, e)
    && CountOf(s.hist.retryCopies, e) <= CountOf(s.hist.retryCalls, e)
  }

  ghost predicate Tallied(cfg: Config, s: State) {
    forall e :: TalliedOf(cfg, s, e)
  }

  lemma TalliedAdd(cfg: Config, n: Net, m: Net, msg: Msg, q: Queue, e: EventId)
    requires n.nextCopy !in n.copies && m.copies == n.copies[n.nextCopy := Copy(msg, InQueue(q))]
    ensures |CopiesOf(cfg, m, e)| == |CopiesOf(cfg, n, e)| + (if EventOf(cfg, msg) == Some(e) then 1 else 0)
  {
    var c := n.nextCopy;
    forall d ensures d in CopiesOf(cfg, m, e) <==> d in CopiesOf(cfg, n, e) || (d == c && EventOf(cfg, msg) == Some(e)) {
      if d != c && d in n.copies {
        assert m.copies[d] == n.copies[d];
      }
    }
    if EventOf(cfg, msg) == Some(e) {
      assert CopiesOf(cfg, m, e) == CopiesOf(cfg, n, e) + {c};
    } else {
      assert CopiesOf(cfg, m, e) == CopiesOf(cfg, n, e);
    }
  }

  lemma TalliedSame(cfg: Config, n: Net, m: Net, e: EventId)
    requires SameMessages(n, m) && m.copies.Keys == n.copies.Keys
    ensures CopiesOf(cfg, m, e) == CopiesOf(cfg, n, e)
  {
  }

  /** The message a step adds a copy of. */
  ghost function Added(s: State, step: Step): Option<Msg>
    requires step.World? && step.b.Reinject? ==> step.b.c in s.net.copies
    requires step.Handle? && step.h.PublishRetry? ==>
               step.tag in s.net.handlers && s.net.handlers[step.tag].copy in s.net.copies
  {
    if step.World? && step.b.Arrive? then Some(step.b.msg)
    else if step.World? && step.b.Reinject? then Some(s.net.copies[step.b.c].msg.(headers := step.b.headers))
    else if step.Handle? && step.h.PublishRetry? && step.h.reached then Some(RetryMsgOf(s.net, step.tag, step.h))
    else None
  }

  lemma CopiesAdded(cfg: Config, s: State, step: Step)
    requires Linked(s.net) && Enabled(cfg, s, step)
    ensures var m := Next(cfg, s, step).net;
            match Added(s, step)
            case None => m.copies.Keys == s.net.copies.Keys
            case Some(msg) => exists q :: m.copies == s.net.copies[s.net.nextCopy := Copy(msg, InQueue(q))]
  {
    var m := Next(cfg, s, step).net;
    match Added(s, step) {
      case None =>
      case Some(msg) =>
        var q := if step.World? && step.b.Arrive? then step.b.q else if step.Handle? then step.h.q else WorkQueue;
        assert m.copies == s.net.copies[s.net.nextCopy := Copy(msg, InQueue(q))];
    }
  }

  /** The event a step adds a copy of. */
  ghost function AddedEvent(cfg: Config, s: State, step: Step): Option<EventId>
    requires Enabled(cfg, s, step)
  {
    match Added(s, step) case None => None case Some(msg) => EventOf(cfg, msg)
  }

  lemma OriginsCounted(cfg: Config, s: State, step: Step, e: EventId)
    requires Enabled(cfg, s, step)
    ensures Origins(Next(cfg, s, step), e) == Origins(s, e) + if AddedEvent(cfg, s, step) == Some(e) then 1 else 0
    ensures CountOf(s.hist.retryCopies, e) <= CountOf(s.hist.retryCalls, e) ==>
            CountOf(Next(cfg, s, step).hist.retryCopies, e) <= CountOf(Next(cfg, s, step).hist.retryCalls, e)
  {
    if step.Handle? && step.h.PublishRetry? {
      RetryKeepsEvent(cfg, s.net.copies[s.net.handlers[step.tag].copy].msg, step.h.error, step.h.now, step.h.correlationId);
    }
  }

  lemma TalliedKept(cfg: Config, s: State, step: Step)
    requires Linked(s.net) && Tallied(cfg, s) && Enabled(cfg, s, step)
    ensures Tallied(cfg, Next(cfg, s, step))
  {
    var t := Next(cfg, s, step);
    CopiesAdded(cfg, s, step);
    MessagesKept(cfg, s, step);
    forall e ensures TalliedOf(cfg, t, e) {
      assert TalliedOf(cfg, s, e);
      OriginsCounted(cfg, s, step, e);
      if Added(s, step).None? {
        TalliedSame(cfg, s.net, t.net, e);
      } else {
        var q :| t.net.copies == s.net.copies[s.net.nextCopy := Copy(Added(s, step).value, InQueue(q))];
        TalliedAdd(cfg, s.net, t.net, Added(s, step).value, q, e);
      }
    }
  }
}
