/** The inductive invariants of the consumer protocol. */
module ConsumerInvariants {
  import opened Topology
  import opened ConsumerProtocol

  // ---- Copies and handler runs refer to each other ----

  ghost predicate Linked(n: Net) {
    && (forall tag | tag in n.handlers :: tag < n.nextTag && n.handlers[tag].copy in n.copies)
    && (forall c | c in n.copies :: c < n.nextCopy)
    && (forall c | c in n.copies && n.copies[c].place.Unacked? ::
          n.copies[c].place.tag in n.handlers && n.handlers[n.copies[c].place.tag].copy == c)
  }

  lemma LinkedMove(n: Net, c: CopyId, place: Place)
    requires Linked(n) && c in n.copies && !place.Unacked?
    ensures Linked(Move(n, c, place))
  {
  }

  lemma LinkedFinish(n: Net, tag: Tag, place: Place)
    requires Linked(n) && tag in n.handlers && !place.Unacked?
    ensures Linked(Finish(n, tag, place))
  {
  }

  lemma LinkedEnter(n: Net, tag: Tag, p: Phase)
    requires Linked(n) && tag in n.handlers
    ensures Linked(Enter(n, tag, p))
  {
  }

  lemma LinkedAdd(n: Net, msg: Msg, q: Queue)
    requires Linked(n)
    ensures Linked(AddCopy(n, msg, InQueue(q)))
  {
  }

  lemma LinkedByBroker(n: Net, b: BrokerStep)
    requires Linked(n) && BrokerEnabled(n, b)
    ensures Linked(BrokerNet(n, b))
  {
    match b {
      case Arrive(msg, q) => LinkedAdd(n, msg, q);
      case Deliver(_) =>
      case Expire(c, q) => LinkedMove(n, c, InQueue(q));
      case ChannelLost(tag) => LinkedMove(n, n.handlers[tag].copy, InQueue(WorkQueue));
      case Crash(tag) => LinkedFinish(n, tag, InQueue(WorkQueue));
      case LogDead(c) => LinkedMove(n, c, Logged);
      case Reinject(c, headers) => LinkedAdd(n, n.copies[c].msg.(headers := headers), WorkQueue);
    }
  }

  lemma LinkedByHandler(s: State, tag: Tag, e: EventId, h: HandlerStep)
    requires Linked(s.net) && tag in s.net.handlers && PhaseAllows(s.net.handlers[tag].phase, h)
    ensures Linked(HandlerNet(s, tag, e, h))
  {
    if Closes(h) {
      LinkedFinish(s.net, tag, PlaceAfter(h));
    } else {
      var p := PhaseAfter(s, e, s.net.handlers[tag].phase, h);
      LinkedEnter(s.net, tag, p);
      if h.PublishRetry? && h.reached {
        LinkedAdd(Enter(s.net, tag, p), RetryMsgOf(s.net, tag, h), h.q);
      }
    }
  }

  lemma LinkedKept(cfg: Config, s: State, step: Step)
    requires Linked(s.net) && Enabled(cfg, s, step)
    ensures Linked(Next(cfg, s, step).net)
  {
    match step {
      case World(b) => LinkedByBroker(s.net, b);
      case Reject(tag) => LinkedFinish(s.net, tag, Acked);
      case Handle(tag, e, h) => LinkedByHandler(s, tag, e, h);
    }
  }

  // ---- Transactions and the ledger ----

  /** An open transaction has written nothing, the ledger row, that and the message, or all
      three, always for its own event; a run that reports an outcome has a ledger row. */
  ghost predicate PhaseFits(processed: multiset<EventId>, e: EventId, p: Phase) {
    match p
    case InTx(_, tx) =>
      || tx == EMPTY_TX
      || (&& tx.ledger == multiset{e} && e !in processed
          && (|| (tx.messages == multiset{} && tx.outbox == multiset{})
              || (tx.messages == multiset{e} && (tx.outbox == multiset{} || tx.outbox == multiset{e}))))
    case Settled(_) => e in processed
    case Cleared => e in processed
    case _ => true
  }

  ghost predicate RunFits(cfg: Config, s: State, tag: Tag)
    requires tag in s.net.handlers && s.net.handlers[tag].copy in s.net.copies
  {
    var e := Event(cfg, s.net, tag);
    if e.None? then s.net.handlers[tag].phase.Received? else PhaseFits(s.db.processed, e.value, s.net.handlers[tag].phase)
  }

  ghost predicate Isolated(cfg: Config, s: State) {
    && (forall tag | tag in s.net.handlers && s.net.handlers[tag].copy in s.net.copies :: RunFits(cfg, s, tag))
    && OneHolder(s.net)
  }

  ghost predicate OneHolder(n: Net) {
    forall a, b, e | HoldsKey(n, a, e) && HoldsKey(n, b, e) :: a == b
  }

  /** The three tables agree row for row, and hold each event at most once. */
  ghost predicate OnceIn(db: Db, hist: History) {
    && db.messages == db.processed && db.persisted == db.processed
    && (forall e :: db.processed[e] <= 1)
    && (forall e :: hist.firstResults[e] <= db.processed[e])
  }

  /** Every message keeps its content, so a copy keeps its event. */
  ghost predicate SameMessages(n: Net, m: Net) {
    forall c | c in n.copies :: c in m.copies && m.copies[c].msg == n.copies[c].msg
  }

  lemma MessagesKept(cfg: Config, s: State, step: Step)
    requires Linked(s.net) && Enabled(cfg, s, step)
    ensures SameMessages(s.net, Next(cfg, s, step).net)
  {
  }

  /** Runs other than the stepping one are as they were. */
  lemma OtherRunsKept(cfg: Config, s: State, step: Step, x: Tag)
    requires Linked(s.net) && Enabled(cfg, s, step) && x in Next(cfg, s, step).net.handlers
    ensures var t := Next(cfg, s, step);
            || (x in s.net.handlers && t.net.handlers[x] == s.net.handlers[x])
            || (step.Handle? && step.tag == x && !Closes(step.h) && x in s.net.handlers
                && t.net.handlers[x] == Handler(s.net.handlers[x].copy, PhaseAfter(s, step.e, s.net.handlers[x].phase, step.h)))
            || (x == s.net.nextTag && t.net.handlers[x].phase.Received? && t.net.handlers[x].copy in s.net.copies)
  {
  }

  lemma OwnRunFits(cfg: Config, s: State, tag: Tag, e: EventId, h: HandlerStep)
    requires Linked(s.net) && Isolated(cfg, s) && HandlerEnabled(cfg, s, tag, e, h) && !Closes(h)
    ensures PhaseFits(DbAfter(s.db, e, s.net.handlers[tag].phase, h).processed, e,
                      PhaseAfter(s, e, s.net.handlers[tag].phase, h))
  {
    assert RunFits(cfg, s, tag);
  }

  lemma OtherRunFits(cfg: Config, s: State, step: Step, x: Tag)
    requires Linked(s.net) && Isolated(cfg, s) && Enabled(cfg, s, step) && x in s.net.handlers
    requires Event(cfg, s.net, x).Some?
    requires !(step.Handle? && step.tag == x)
    ensures PhaseFits(Next(cfg, s, step).db.processed, Event(cfg, s.net, x).value, s.net.handlers[x].phase)
  {
    assert RunFits(cfg, s, x);
    if step.Handle? && step.h.Commit? {
      assert RunFits(cfg, s, step.tag);
      assert HoldsKey(s.net, step.tag, step.e);
      assert !HoldsKey(s.net, x, step.e);
    }
  }

  lemma RunFitsKept(cfg: Config, s: State, step: Step, x: Tag)
    requires Linked(s.net) && Isolated(cfg, s) && Enabled(cfg, s, step)
    requires x in Next(cfg, s, step).net.handlers && Next(cfg, s, step).net.handlers[x].copy in Next(cfg, s, step).net.copies
    ensures RunFits(cfg, Next(cfg, s, step), x)
  {
    OtherRunsKept(cfg, s, step, x);
    MessagesKept(cfg, s, step);
    if x in s.net.handlers {
      assert RunFits(cfg, s, x);
      if step.Handle? && step.tag == x {
        OwnRunFits(cfg, s, x, step.e, step.h);
      } else if Event(cfg, s.net, x).Some? {
        OtherRunFits(cfg, s, step, x);
      }
    }
  }

  /** Only a ledger insert acquires a key, and it needs the key free. */
  lemma KeyOrigin(cfg: Config, s: State, step: Step, x: Tag, e: EventId)
    requires Linked(s.net) && Isolated(cfg, s) && Enabled(cfg, s, step) && HoldsKey(Next(cfg, s, step).net, x, e)
    ensures HoldsKey(s.net, x, e) || (step.Handle? && step.tag == x && step.h.InsertLedger? && step.e == e)
  {
    OtherRunsKept(cfg, s, step, x);
  }

  lemma IsolatedKept(cfg: Config, s: State, step: Step)
    requires Linked(s.net) && Isolated(cfg, s) && Enabled(cfg, s, step)
    ensures Isolated(cfg, Next(cfg, s, step))
  {
    var t := Next(cfg, s, step);
    forall x | x in t.net.handlers && t.net.handlers[x].copy in t.net.copies ensures RunFits(cfg, t, x) {
      RunFitsKept(cfg, s, step, x);
    }
    forall a, b, e | HoldsKey(t.net, a, e) && HoldsKey(t.net, b, e) ensures a == b {
      KeyOrigin(cfg, s, step, a, e);
      KeyOrigin(cfg, s, step, b, e);
    }
  }

  lemma OnceAfter(db: Db, hist: History, e: EventId, p: Phase, h: HandlerStep)
    requires PhaseAllows(p, h) && PhaseFits(db.processed, e, p) && OnceIn(db, hist)
    ensures OnceIn(DbAfter(db, e, p, h), HistoryAfter(hist, e, p, h))
  {
  }

  lemma OnceKept(cfg: Config, s: State, step: Step)
    requires Linked(s.net) && Isolated(cfg, s) && OnceIn(s.db, s.hist) && Enabled(cfg, s, step)
    ensures OnceIn(Next(cfg, s, step).db, Next(cfg, s, step).hist)
  {
    if step.Handle? {
      assert RunFits(cfg, s, step.tag);
      OnceAfter(s.db, s.hist, step.e, s.net.handlers[step.tag].phase, step.h);
    }
  }

  // ---- Nothing is acked away ----

  ghost predicate SucceededBy(cfg: Config, n: Net, c: CopyId, d: CopyId) {
    c in n.copies && d in n.copies && c < d && EventOf(cfg, n.copies[d].msg) == EventOf(cfg, n.copies[c].msg)
  }

  ghost predicate AckJustified(cfg: Config, s: State, c: CopyId)
    requires c in s.net.copies
  {
    var e := EventOf(cfg, s.net.copies[c].msg);
    s.net.copies[c].place.Acked? && e.Some? ==> e.value in s.db.processed || exists d :: SucceededBy(cfg, s.net, c, d)
  }

  /** A copy of a valid event is acked only once the event is processed or a later copy of it
      exists, and a run that is about to ack for a retry knows that copy. */
  ghost predicate Conserved(cfg: Config, s: State) {
    && (forall c | c in s.net.copies :: AckJustified(cfg, s, c))
    && (forall tag | tag in s.net.handlers && s.net.handlers[tag].phase.RetrySent? ::
          SucceededBy(cfg, s.net, s.net.handlers[tag].copy, s.net.handlers[tag].phase.successor))
  }

  lemma SuccessorKept(cfg: Config, s: State, step: Step, c: CopyId, d: CopyId)
    requires Linked(s.net) && Enabled(cfg, s, step) && SucceededBy(cfg, s.net, c, d)
    ensures SucceededBy(cfg, Next(cfg, s, step).net, c, d)
  {
    MessagesKept(cfg, s, step);
  }

  lemma ProcessedGrows(cfg: Config, s: State, step: Step, e: EventId)
    requires Enabled(cfg, s, step) && e in s.db.processed
    ensures e in Next(cfg, s, step).db.processed
  {
  }

  /** A copy becomes acked in three ways only. */
  lemma AckedBy(cfg: Config, s: State, step: Step, c: CopyId)
    requires Linked(s.net) && Enabled(cfg, s, step)
    requires c in Next(cfg, s, step).net.copies && Next(cfg, s, step).net.copies[c].place.Acked?
    ensures c in s.net.copies
    ensures || s.net.copies[c].place.Acked?
            || (step.Reject? && s.net.handlers[step.tag].copy == c)
            || (step.Handle? && (step.h.AckDone? || step.h.AckRetried?) && s.net.handlers[step.tag].copy == c)
  {
  }

  lemma AckJustifiedKept(cfg: Config, s: State, step: Step, c: CopyId)
    requires Linked(s.net) && Isolated(cfg, s) && Conserved(cfg, s) && Enabled(cfg, s, step)
    requires c in Next(cfg, s, step).net.copies
    ensures AckJustified(cfg, Next(cfg, s, step), c)
  {
    var t := Next(cfg, s, step);
    if t.net.copies[c].place.Acked? && EventOf(cfg, t.net.copies[c].msg).Some? {
      AckedBy(cfg, s, step, c);
      MessagesKept(cfg, s, step);
      var e := EventOf(cfg, s.net.copies[c].msg).value;
      if s.net.copies[c].place.Acked? {
        assert AckJustified(cfg, s, c);
      } else if step.Handle? {
        assert RunFits(cfg, s, step.tag);
      }
      if e in s.db.processed {
        ProcessedGrows(cfg, s, step, e);
      } else {
        var d :| SucceededBy(cfg, s.net, c, d);
        SuccessorKept(cfg, s, step, c, d);
      }
    }
  }

  lemma RetryKeepsEvent(cfg: Config, msg: Msg, error: string, now: string, correlationId: string)
    ensures EventOf(cfg, RetryMsg(msg, error, now, correlationId)) == EventOf(cfg, msg)
  {
  }

  lemma ConservedKept(cfg: Config, s: State, step: Step)
    requires Linked(s.net) && Isolated(cfg, s) && Conserved(cfg, s) && Enabled(cfg, s, step)
    ensures Conserved(cfg, Next(cfg, s, step))
  {
    var t := Next(cfg, s, step);
    forall c | c in t.net.copies ensures AckJustified(cfg, t, c) {
      AckJustifiedKept(cfg, s, step, c);
    }
    forall x | x in t.net.handlers && t.net.handlers[x].phase.RetrySent?
      ensures SucceededBy(cfg, t.net, t.net.handlers[x].copy, t.net.handlers[x].phase.successor)
    {
      OtherRunsKept(cfg, s, step, x);
      if x in s.net.handlers && t.net.handlers[x] == s.net.handlers[x] {
        SuccessorKept(cfg, s, step, s.net.handlers[x].copy, s.net.handlers[x].phase.successor);
      } else {
        RetryKeepsEvent(cfg, s.net.copies[s.net.handlers[x].copy].msg, step.h.error, step.h.now, step.h.correlationId);
      }
    }
  }

  // ---- Routing ----

  /** Command copies stay on the command side of the broker, domain events on the audit queue. */
  ghost predicate Routed(n: Net) {
    && (forall c | c in n.copies ::
          n.copies[c].place == InQueue(AuditQueue) <==> n.copies[c].msg.eventType !in COMMAND_EVENT_TYPES)
    && (forall tag | tag in n.handlers && n.handlers[tag].copy in n.copies ::
          n.copies[n.handlers[tag].copy].msg.eventType in COMMAND_EVENT_TYPES)
  }

  /** The queue a step moves a copy to, as far as the bindings decide it. */
  lemma QueuesDecided(cfg: Config, s: State, step: Step)
    requires Enabled(cfg, s, step)
    ensures step.World? && step.b.Arrive? ==>
              (step.b.q == AuditQueue <==> step.b.msg.eventType !in COMMAND_EVENT_TYPES)
    ensures step.World? && step.b.Expire? ==> step.b.q == WorkQueue
    ensures step.Handle? && step.h.PublishRetry? ==> step.h.q == RetryQueue
    ensures step.Handle? && step.h.NackDead? ==> step.h.q == DeadLetterQueue
  {
    if step.World? && step.b.Arrive? {
      PublishTargets(step.b.msg.eventType);
    } else {
      PublishTargets("");
    }
    DeadLetterHops(KeyWork);
    DeadLetterHops(KeyRetry);
  }

  lemma RoutedKept(cfg: Config, s: State, step: Step)
    requires Linked(s.net) && Routed(s.net) && Enabled(cfg, s, step)
    ensures Routed(Next(cfg, s, step).net)
  {
    QueuesDecided(cfg, s, step);
  }
}
