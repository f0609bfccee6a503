/** The consumer side as a state machine: broker copies, any number of concurrent handler
    runs, Postgres transactions that interleave, the idempotency ledger and the durable
    attempt counter. Every database statement and broker interaction of the handler is one
    atomic step. The topology stands; `Pipeline` is about messages published before it does. */
module ConsumerProtocol {
  import opened Wrappers
  import opened Json
  import opened SchemaVersion
  import opened Topology
  import opened ErrorClassifier
  import RetryPolicy

  type EventId = string
  type CopyId = nat
  type Tag = nat

  /** The message headers the handler reads or writes. */
  datatype Headers = Headers(
    schemaVersion: Header, retryCount: Header, firstError: Header, errorClass: Header, failedAt: Header,
    correlationId: Header)

  /** `eventType` is the outbox row's type, by which the relay routed the message. */
  datatype Msg = Msg(eventType: string, body: Json, headers: Headers)

  /** How the handler reads a body: the event id if it validates. The protocol's properties
      hold for any such reading. */
  datatype Config = Config(identify: (Json, Header) -> Option<EventId>)

  function EventOf(cfg: Config, msg: Msg): Option<EventId> {
    cfg.identify(msg.body, msg.headers.schemaVersion)
  }

  function ReadRetryCount(h: Headers): real {
    if h.retryCount.Plain? && h.retryCount.value.JNum? then h.retryCount.value.n else 0.0
  }

  /** `previous ?? value`: the first hop's value stays. */
  function KeepFirst(previous: Header, value: string): Header {
    if previous.Absent? || previous == Plain(JNull) then Plain(JStr(value)) else previous
  }

  function RetryHeaders(h: Headers, error: string, errorClass: string, now: string, correlationId: string): Headers {
    h.(retryCount := Plain(JNum(ReadRetryCount(h) + 1.0)),
       firstError := KeepFirst(h.firstError, error),
       errorClass := Plain(JStr(errorClass)),
       failedAt := KeepFirst(h.failedAt, now),
       correlationId := Plain(JStr(correlationId)))
  }

  /** `Logged`: taken off the dead-letter queue by its consumer, which logs and acks. */
  datatype Place = InQueue(q: Queue) | Unacked(tag: Tag) | Acked | Logged

  datatype Copy = Copy(msg: Msg, place: Place)

  /** Rows an open transaction has written and nobody else sees yet. */
  datatype Tx = Tx(ledger: multiset<EventId>, messages: multiset<EventId>, outbox: multiset<EventId>)

  const EMPTY_TX: Tx := Tx(multiset{}, multiset{}, multiset{})

  /** Where a handler run is; `k` is the attempt number it was given. */
  datatype Phase =
    | Received
    | Counted(k: nat)
    | InTx(k: nat, tx: Tx)
    | Settled(k: nat)                     // persisted or duplicate; counter not cleared yet
    | Cleared                             // about to ack
    | InCatch(k: nat, cls: ErrorClass)
    | RetrySent(k: nat, successor: CopyId) // publishToRetry returned
    | RetryRefused(k: nat)                // publishToRetry threw
    | Stuck                               // the exception escaped; the message stays unacked

  datatype Handler = Handler(copy: CopyId, phase: Phase)

  /** Broker copies and handler runs. */
  datatype Net = Net(copies: map<CopyId, Copy>, nextCopy: CopyId, handlers: map<Tag, Handler>, nextTag: Tag)

  /** Committed rows: processed_events, messages written for an event, MessagePersisted outbox
      rows written for an event, event_attempts. */
  datatype Db = Db(
    processed: multiset<EventId>, messages: multiset<EventId>, persisted: multiset<EventId>,
    attempts: map<EventId, nat>)

  /** What happened so far; no step reads it. `recorded`: recordAttempt executions.
      `firstResults`: results `duplicate: false`. `retryCalls`, `retried`: publishToRetry calls
      and their attempt numbers. `retryEnds`, `ended`: completed runs that ended in retry or
      requeue and their attempt numbers. The rest count the copies made, by origin. */
  datatype History = History(
    recorded: map<EventId, nat>,
    firstResults: multiset<EventId>,
    retryCalls: map<EventId, nat>,
    retryEnds: map<EventId, nat>,
    retried: set<(EventId, nat)>,
    ended: set<(EventId, nat)>,
    arrivals: map<EventId, nat>,
    reinjections: map<EventId, nat>,
    retryCopies: map<EventId, nat>)

  datatype State = State(net: Net, db: Db, hist: History)

  const INIT: State := State(
    Net(map[], 0, map[], 0),
    Db(multiset{}, multiset{}, multiset{}, map[]),
    History(map[], multiset{}, map[], map[], {}, {}, map[], map[], map[]))

  /** Steps of the broker and of processes failing. */
  datatype BrokerStep =
    | Arrive(msg: Msg, q: Queue)
    | Deliver(c: CopyId)
    | Expire(c: CopyId, q: Queue)
    | ChannelLost(tag: Tag)
    | Crash(tag: Tag)
    | LogDead(c: CopyId)
    | Reinject(c: CopyId, headers: Headers)

  /** Steps of one handler run past validation. */
  datatype HandlerStep =
    | Record
    | RecordFails(tookEffect: bool)
    | Begin
    | BeginFails(cls: ErrorClass)
    | InsertLedger
    | FindDuplicate
    | SaveMessage
    | SaveOutbox
    | Commit(acknowledged: bool, cls: ErrorClass)
    | TxFails(cls: ErrorClass)
    | Clear
    | ClearFails(tookEffect: bool, cls: ErrorClass)
    | AckDone
    | PublishRetry(q: Queue, reached: bool, confirmed: bool, error: string, now: string, correlationId: string)
    | AckRetried
    | NackRequeue
    | NackDead(q: Queue)

  /** `Reject`: the run of a message that does not validate. */
  datatype Step = World(b: BrokerStep) | Reject(tag: Tag) | Handle(tag: Tag, e: EventId, h: HandlerStep)

  function CountOf(counts: map<EventId, nat>, e: EventId): nat {
    if e in counts then counts[e] else 0
  }

  function CountUp(counts: map<EventId, nat>, e: EventId): map<EventId, nat> {
    counts[e := CountOf(counts, e) + 1]
  }

  function Event(cfg: Config, n: Net, tag: Tag): Option<EventId>
    requires tag in n.handlers && n.handlers[tag].copy in n.copies
  {
    EventOf(cfg, n.copies[n.handlers[tag].copy].msg)
  }

  /** The broker still counts the message as delivered to this run. */
  predicate Attached(n: Net, tag: Tag) {
    tag in n.handlers && n.handlers[tag].copy in n.copies && n.copies[n.handlers[tag].copy].place == Unacked(tag)
  }

  predicate Running(cfg: Config, n: Net, tag: Tag, e: EventId) {
    tag in n.handlers && n.handlers[tag].copy in n.copies && Event(cfg, n, tag) == Some(e)
  }

  predicate HoldsKey(n: Net, tag: Tag, e: EventId) {
    tag in n.handlers && n.handlers[tag].phase.InTx? && e in n.handlers[tag].phase.tx.ledger
  }

  /** UNIQUE(event_id): an insert waits while another transaction holds the key. */
  ghost predicate KeyFree(n: Net, e: EventId) {
    forall tag :: !HoldsKey(n, tag, e)
  }

  predicate Retryable(p: Phase) {
    p.InCatch? && p.cls.Transient? && p.k < RetryPolicy.MAX_ATTEMPTS
  }

  ghost predicate BrokerEnabled(n: Net, step: BrokerStep) {
    match step
    case Arrive(msg, q) => var r := ResolveOutboxRoute(msg.eventType); q in Targets(DECLARED, r.exchange, r.key)
    case Deliver(c) => c in n.copies && n.copies[c].place == InQueue(WorkQueue)
    case Expire(c, q) =>
      c in n.copies && n.copies[c].place == InQueue(RetryQueue) && q in DeadLetterTargets(DECLARED, RetryQueue, KeyRetry)
    case ChannelLost(tag) => Attached(n, tag)
    case Crash(tag) => tag in n.handlers
    case LogDead(c) => c in n.copies && n.copies[c].place == InQueue(DeadLetterQueue)
    case Reinject(c, _) => c in n.copies && (n.copies[c].place == InQueue(DeadLetterQueue) || n.copies[c].place == Logged)
  }

  predicate PhaseAllows(p: Phase, h: HandlerStep) {
    match h
    case Record => p.Received?
    case RecordFails(_) => p.Received?
    case Begin => p.Counted?
    case BeginFails(_) => p.Counted?
    case InsertLedger => p.InTx? && p.tx == EMPTY_TX
    case FindDuplicate => p.InTx? && p.tx == EMPTY_TX
    case SaveMessage => p.InTx? && p.tx.ledger != multiset{} && p.tx.messages == multiset{}
    case SaveOutbox => p.InTx? && p.tx.messages != multiset{} && p.tx.outbox == multiset{}
    case Commit(_, _) => p.InTx? && p.tx.outbox != multiset{}
    case TxFails(_) => p.InTx?
    case Clear => p.Settled?
    case ClearFails(_, _) => p.Settled?
    case AckDone => p.Cleared?
    case PublishRetry(_, _, _, _, _, _) => Retryable(p)
    case AckRetried => p.RetrySent?
    case NackRequeue => p.RetryRefused?
    case NackDead(_) => p.InCatch? && !Retryable(p)
  }

  /** What a step needs beyond the phase of its own run. */
  ghost predicate WorldAllows(s: State, e: EventId, h: HandlerStep) {
    match h
    case InsertLedger => e !in s.db.processed && KeyFree(s.net, e)
    case FindDuplicate => e in s.db.processed
    case PublishRetry(q, reached, confirmed, _, _, _) =>
      q in Targets(DECLARED, MainExchange, KeyRetry) && (confirmed ==> reached)
    case NackDead(q) => q in DeadLetterTargets(DECLARED, WorkQueue, KeyWork)
    case _ => true
  }

  /** `e` is the event the run's message validated as. */
  ghost predicate HandlerEnabled(cfg: Config, s: State, tag: Tag, e: EventId, h: HandlerStep) {
    Running(cfg, s.net, tag, e) && PhaseAllows(s.net.handlers[tag].phase, h) && WorldAllows(s, e, h)
  }

  ghost predicate Enabled(cfg: Config, s: State, step: Step) {
    match step
    case World(b) => BrokerEnabled(s.net, b)
    case Reject(tag) =>
      && tag in s.net.handlers && s.net.handlers[tag].copy in s.net.copies
      && s.net.handlers[tag].phase.Received? && Event(cfg, s.net, tag).None?
    case Handle(tag, e, h) => HandlerEnabled(cfg, s, tag, e, h)
  }

  function Move(n: Net, c: CopyId, place: Place): Net
    requires c in n.copies
  {
    n.(copies := n.copies[c := n.copies[c].(place := place)])
  }

  /** The run ends with an ack or nack; a broker that took the message back ignores it. */
  function Finish(n: Net, tag: Tag, place: Place): Net
    requires tag in n.handlers
  {
    var m := n.(handlers := n.handlers - {tag});
    if Attached(n, tag) then Move(m, n.handlers[tag].copy, place) else m
  }

  function Enter(n: Net, tag: Tag, phase: Phase): Net
    requires tag in n.handlers
  {
    n.(handlers := n.handlers[tag := n.handlers[tag].(phase := phase)])
  }

  function AddCopy(n: Net, msg: Msg, place: Place): Net {
    n.(copies := n.copies[n.nextCopy := Copy(msg, place)], nextCopy := n.nextCopy + 1)
  }

  function Tally(counts: map<EventId, nat>, e: Option<EventId>): map<EventId, nat> {
    if e.Some? then CountUp(counts, e.value) else counts
  }

  function BrokerNet(n: Net, step: BrokerStep): Net
    requires BrokerEnabled(n, step)
  {
    match step
    case Arrive(msg, q) => AddCopy(n, msg, InQueue(q))
    case Deliver(c) =>
      Move(n, c, Unacked(n.nextTag)).(handlers := n.handlers[n.nextTag := Handler(c, Received)], nextTag := n.nextTag + 1)
    case Expire(c, q) => Move(n, c, InQueue(q))
    case ChannelLost(tag) => Move(n, n.handlers[tag].copy, InQueue(WorkQueue))
    case Crash(tag) => Finish(n, tag, InQueue(WorkQueue))
    case LogDead(c) => Move(n, c, Logged)
    case Reinject(c, headers) => AddCopy(n, n.copies[c].msg.(headers := headers), InQueue(WorkQueue))
  }

  function BrokerHistory(cfg: Config, s: State, step: BrokerStep): History
    requires BrokerEnabled(s.net, step)
  {
    match step
    case Arrive(msg, _) => s.hist.(arrivals := Tally(s.hist.arrivals, EventOf(cfg, msg)))
    case Reinject(c, headers) =>
      s.hist.(reinjections := Tally(s.hist.reinjections, EventOf(cfg, s.net.copies[c].msg.(headers := headers))))
    case _ => s.hist
  }

  /** The phase a step of a run leads to, for the steps after which the run goes on. */
  function PhaseAfter(s: State, e: EventId, p: Phase, h: HandlerStep): Phase
    requires PhaseAllows(p, h)
  {
    match h
    case Record => Counted(CountOf(s.db.attempts, e) + 1)
    case RecordFails(_) => Stuck
    case Begin => InTx(p.k, EMPTY_TX)
    case BeginFails(cls) => InCatch(p.k, cls)
    case InsertLedger => p.(tx := p.tx.(ledger := multiset{e}))
    case FindDuplicate => Settled(p.k)
    case SaveMessage => p.(tx := p.tx.(messages := multiset{e}))
    case SaveOutbox => p.(tx := p.tx.(outbox := multiset{e}))
    case Commit(acknowledged, cls) => if acknowledged then Settled(p.k) else InCatch(p.k, cls)
    case TxFails(cls) => InCatch(p.k, cls)
    case Clear => Cleared
    case ClearFails(_, cls) => InCatch(p.k, cls)
    case PublishRetry(_, _, confirmed, _, _, _) => if confirmed then RetrySent(p.k, s.net.nextCopy) else RetryRefused(p.k)
    case _ => p
  }

  /** What a step of a run commits. The rows of a transaction appear together. */
  function DbAfter(db: Db, e: EventId, p: Phase, h: HandlerStep): Db
    requires PhaseAllows(p, h)
  {
    match h
    case Record => db.(attempts := CountUp(db.attempts, e))
    case RecordFails(tookEffect) => if tookEffect then db.(attempts := CountUp(db.attempts, e)) else db
    case Commit(_, _) =>
      db.(processed := db.processed + p.tx.ledger,
          messages := db.messages + p.tx.messages,
          persisted := db.persisted + p.tx.outbox)
    case Clear => db.(attempts := db.attempts - {e})
    case ClearFails(tookEffect, _) => if tookEffect then db.(attempts := db.attempts - {e}) else db
    case _ => db
  }

  function HistoryAfter(hist: History, e: EventId, p: Phase, h: HandlerStep): History
    requires PhaseAllows(p, h)
  {
    match h
    case Record => hist.(recorded := CountUp(hist.recorded, e))
    case RecordFails(tookEffect) => if tookEffect then hist.(recorded := CountUp(hist.recorded, e)) else hist
    case Commit(acknowledged, _) =>
      if acknowledged then hist.(firstResults := hist.firstResults + p.tx.ledger) else hist
    case PublishRetry(_, reached, _, _, _, _) =>
      hist.(retryCalls := CountUp(hist.retryCalls, e), retried := hist.retried + {(e, p.k)},
            retryCopies := if reached then CountUp(hist.retryCopies, e) else hist.retryCopies)
    case AckRetried => hist.(retryEnds := CountUp(hist.retryEnds, e), ended := hist.ended + {(e, p.k)})
    case NackRequeue => hist.(retryEnds := CountUp(hist.retryEnds, e), ended := hist.ended + {(e, p.k)})
    case _ => hist
  }

  predicate Closes(h: HandlerStep) {
    h.AckDone? || h.AckRetried? || h.NackRequeue? || h.NackDead?
  }

  function PlaceAfter(h: HandlerStep): Place
    requires Closes(h)
  {
    match h
    case AckDone => Acked
    case AckRetried => Acked
    case NackRequeue => InQueue(WorkQueue)
    case NackDead(q) => InQueue(q)
  }

  function RetryMsg(msg: Msg, error: string, now: string, correlationId: string): Msg {
    msg.(headers := RetryHeaders(msg.headers, error, "TRANSIENT", now, correlationId))
  }

  function HandlerNet(s: State, tag: Tag, e: EventId, h: HandlerStep): Net
    requires tag in s.net.handlers && s.net.handlers[tag].copy in s.net.copies && PhaseAllows(s.net.handlers[tag].phase, h)
  {
    var p := s.net.handlers[tag].phase;
    if Closes(h) then Finish(s.net, tag, PlaceAfter(h))
    else if h.PublishRetry? && h.reached then
      AddCopy(Enter(s.net, tag, PhaseAfter(s, e, p, h)), RetryMsgOf(s.net, tag, h), InQueue(h.q))
    else Enter(s.net, tag, PhaseAfter(s, e, p, h))
  }

  function RetryMsgOf(n: Net, tag: Tag, h: HandlerStep): Msg
    requires tag in n.handlers && n.handlers[tag].copy in n.copies && h.PublishRetry?
  {
    RetryMsg(n.copies[n.handlers[tag].copy].msg, h.error, h.now, h.correlationId)
  }

  function Next(cfg: Config, s: State, step: Step): State
    requires Enabled(cfg, s, step)
  {
    match step
    case World(b) => s.(net := BrokerNet(s.net, b), hist := BrokerHistory(cfg, s, b))
    case Reject(tag) => s.(net := Finish(s.net, tag, Acked))
    case Handle(tag, e, h) =>
      var p := s.net.handlers[tag].phase;
      State(HandlerNet(s, tag, e, h), DbAfter(s.db, e, p, h), HistoryAfter(s.hist, e, p, h))
  }

  ghost predicate ValidRun(cfg: Config, s: State, steps: seq<Step>)
    decreases |steps|
  {
    steps == [] || (Enabled(cfg, s, steps[0]) && ValidRun(cfg, Next(cfg, s, steps[0]), steps[1..]))
  }

  ghost function Run(cfg: Config, s: State, steps: seq<Step>): State
    requires ValidRun(cfg, s, steps)
    decreases |steps|
  {
    if steps == [] then s else Run(cfg, Next(cfg, s, steps[0]), steps[1..])
  }

  ghost predicate Reachable(cfg: Config, s: State) {
    exists steps :: ValidRun(cfg, INIT, steps) && Run(cfg, INIT, steps) == s
  }

  lemma {:induction false} RunExtend(cfg: Config, s: State, steps: seq<Step>, step: Step)
    requires ValidRun(cfg, s, steps) && Enabled(cfg, Run(cfg, s, steps), step)
    ensures ValidRun(cfg, s, steps + [step])
    ensures Run(cfg, s, steps + [step]) == Next(cfg, Run(cfg, s, steps), step)
    decreases |steps|
  {
    if steps == [] {
      assert steps + [step] == [step] && [step][1..] == [];
    } else {
      RunExtend(cfg, Next(cfg, s, steps[0]), steps[1..], step);
      assert (steps + [step])[1..] == steps[1..] + [step];
    }
  }

  lemma ReachableNext(cfg: Config, s: State, step: Step)
    requires Reachable(cfg, s) && Enabled(cfg, s, step)
    ensures Reachable(cfg, Next(cfg, s, step))
  {
    var steps :| ValidRun(cfg, INIT, steps) && Run(cfg, INIT, steps) == s;
    RunExtend(cfg, INIT, steps, step);
  }

  lemma ReachableInit(cfg: Config)
    ensures Reachable(cfg, INIT)
  {
    assert ValidRun(cfg, INIT, []) && Run(cfg, INIT, []) == INIT;
  }
}
