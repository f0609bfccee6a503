/** Gateway outbox, relays, broker, consumer and messaging outbox put together: every step of
    the whole is a step of its parts, synchronised where one part hands over to the next. The
    messaging service declares the topology, bit by bit, while the gateway may already publish:
    a message that finds no bound queue is confirmed all the same, and dropped. */
module Pipeline {
  import opened Wrappers
  import opened Json
  import opened SchemaVersion
  import opened Contracts
  import opened Topology
  import opened ErrorClassifier
  import opened OutboxTable
  import opened GatewayAcceptance
  import R = RelayProtocol
  import C = ConsumerProtocol
  import ContractDispatch
  import IdempotentTransaction
  import MessagingController

  datatype Config = Config(lex: Lexical, gateway: R.Config, messaging: R.Config)

  /** `broker` is what has been declared so far. The rest is history: the gateway's copies that
      found a queue, the request a gateway row was accepted for, and the event whose processing
      wrote a row of the messaging outbox. */
  datatype State = State(
    gateway: R.State, consumer: C.State, messaging: R.State, broker: PartialBroker,
    routed: seq<R.Copy>, requests: map<RowId, Acceptance>, causes: map<RowId, C.EventId>)

  const NOTHING: PartialBroker := Broker(map[], map[], {})
  const INIT: State := State(R.INIT, C.INIT, R.INIT, NOTHING, [], map[], map[])

  /** `Declare`: more of the topology is in place. `Accept`: an HTTP request that is answered
      202. `Persist`: the commit of a handler's transaction. `q` is where the broker puts a
      published copy, if it has a queue for it. */
  datatype Step =
    | Declare(broker: PartialBroker)
    | Accept(id: RowId, request: Request, correlationId: string, eventId: string, timestamp: string)
    | Gateway(step: R.Step, q: Queue)
    | Messaging(step: R.Step, q: Queue)
    | Consumer(inner: C.Step)
    | Persist(tag: C.Tag, e: C.EventId, acknowledged: bool, cls: ErrorClass, id: RowId, rowEventId: string)

  function Reading(cfg: Config): C.Config {
    MessagingController.IdentifyWith(cfg.lex)
  }

  /** What either relay puts on the wire for a row. No schema-version header is set. */
  function MsgOf(ev: EventRecord): C.Msg {
    C.Msg(ev.eventType, ev.payload,
          C.Headers(Absent, Absent, Absent, Absent, Absent,
                    Plain(JStr(if ev.correlationId.Some? then ev.correlationId.value else ""))))
  }

  predicate Publishes(step: R.Step) {
    step.Publish? && step.reached
  }

  /** The queues a row's message gets into. */
  function QueuesFor(b: Broker, ev: EventRecord): set<Queue> {
    var route := ResolveOutboxRoute(ev.eventType);
    Targets(b, route.exchange, route.key)
  }

  /** The step publishes, and a queue is bound to take the message. */
  predicate Lands(b: Broker, s: R.State, step: R.Step) {
    Publishes(step) && step.c in s.claims && QueuesFor(b, s.claims[step.c].row.ev) != {}
  }

  function ArrivalOf(s: R.State, step: R.Step, q: Queue): C.Step
    requires Publishes(step) && step.c in s.claims
  {
    C.World(C.Arrive(MsgOf(s.claims[step.c].row.ev), q))
  }

  predicate IsCommit(step: C.Step) {
    step.Handle? && step.h.Commit?
  }

  predicate IsArrival(step: C.Step) {
    step.World? && step.b.Arrive?
  }

  /** Without its exchange a publish closes the channel, so the broker has not got it. */
  ghost predicate RelayEnabled(rc: R.Config, relay: R.State, b: PartialBroker, step: R.Step, q: Queue) {
    && !step.Insert? && R.Enabled(rc, relay, step)
    && (Publishes(step) ==>
          var ev := relay.claims[step.c].row.ev;
          ResolveOutboxRoute(ev.eventType).exchange in b.exchanges
          && (QueuesFor(b, ev) != {} ==> q in QueuesFor(b, ev)))
  }

  lemma LandingArrives(cfg: Config, rc: R.Config, relay: R.State, consumer: C.State, b: PartialBroker, step: R.Step, q: Queue)
    requires RelayEnabled(rc, relay, b, step, q) && Lands(b, relay, step)
    ensures C.Enabled(Reading(cfg), consumer, ArrivalOf(relay, step, q))
  {
    var route := ResolveOutboxRoute(relay.claims[step.c].row.ev.eventType);
    TargetsWithin(b, DECLARED, route.exchange, route.key);
  }

  function Delivered(cfg: Config, rc: R.Config, relay: R.State, consumer: C.State, b: PartialBroker, step: R.Step, q: Queue): C.State
    requires RelayEnabled(rc, relay, b, step, q)
  {
    if Lands(b, relay, step) then
      LandingArrives(cfg, rc, relay, consumer, b, step, q);
      C.Next(Reading(cfg), consumer, ArrivalOf(relay, step, q))
    else consumer
  }

  /** The MessagePersisted row that processing a message writes. */
  function PersistedRecord(event: EventV2, rowEventId: string): EventRecord {
    IdempotentTransaction.RecordOf(
      MessagingController.PersistedEvent(event.payload, event.env.correlationId), rowEventId)
  }

  function ReadBy(cfg: Config, n: C.Net, tag: C.Tag): Option<EventV2>
    requires tag in n.handlers && n.handlers[tag].copy in n.copies
  {
    var msg := n.copies[n.handlers[tag].copy].msg;
    ContractDispatch.Consume(cfg.lex, msg.body, msg.headers.schemaVersion)
  }

  /** The messaging service handles messages once its topology stands. */
  ghost predicate Enabled(cfg: Config, s: State, step: Step) {
    match step
    case Declare(b) => Within(s.broker, b)
    case Accept(id, request, correlationId, eventId, timestamp) =>
      var ev := RecordFor(cfg.lex, request, correlationId, eventId, timestamp);
      ev.Some? && R.Enabled(cfg.gateway, s.gateway, R.Insert(id, ev.value))
    case Gateway(r, q) => RelayEnabled(cfg.gateway, s.gateway, s.broker, r, q)
    case Messaging(r, q) => RelayEnabled(cfg.messaging, s.messaging, s.broker, r, q)
    case Consumer(c) => s.broker == DECLARED && C.Enabled(Reading(cfg), s.consumer, c) && !IsCommit(c) && !IsArrival(c)
    case Persist(tag, e, acknowledged, cls, id, rowEventId) =>
      && s.broker == DECLARED
      && C.Enabled(Reading(cfg), s.consumer, C.Handle(tag, e, C.Commit(acknowledged, cls)))
      && ReadBy(cfg, s.consumer.net, tag).Some?
      && R.Enabled(cfg.messaging, s.messaging,
                   R.Insert(id, PersistedRecord(ReadBy(cfg, s.consumer.net, tag).value, rowEventId)))
  }

  function Next(cfg: Config, s: State, step: Step): State
    requires Enabled(cfg, s, step)
  {
    match step
    case Declare(b) => s.(broker := b)
    case Accept(id, request, correlationId, eventId, timestamp) =>
      var ev := RecordFor(cfg.lex, request, correlationId, eventId, timestamp).value;
      s.(gateway := R.Next(cfg.gateway, s.gateway, R.Insert(id, ev)),
         requests := s.requests[id := Acceptance(request, correlationId, eventId, timestamp)])
    case Gateway(r, q) =>
      s.(gateway := R.Next(cfg.gateway, s.gateway, r),
         consumer := Delivered(cfg, cfg.gateway, s.gateway, s.consumer, s.broker, r, q),
         routed := if Lands(s.broker, s.gateway, r) then s.routed + [R.CopyOf(s.gateway.claims[r.c].row)] else s.routed)
    case Messaging(r, q) =>
      s.(messaging := R.Next(cfg.messaging, s.messaging, r),
         consumer := Delivered(cfg, cfg.messaging, s.messaging, s.consumer, s.broker, r, q))
    case Consumer(c) => s.(consumer := C.Next(Reading(cfg), s.consumer, c))
    case Persist(tag, e, acknowledged, cls, id, rowEventId) =>
      s.(consumer := C.Next(Reading(cfg), s.consumer, C.Handle(tag, e, C.Commit(acknowledged, cls))),
         messaging := R.Next(cfg.messaging, s.messaging,
                             R.Insert(id, PersistedRecord(ReadBy(cfg, s.consumer.net, tag).value, rowEventId))),
         causes := s.causes[id := e])
  }

  ghost predicate ValidRun(cfg: Config, s: State, steps: seq<Step>)
    decreases |steps|
  {
    steps == [] || (Enabled(cfg, s, steps[0]) && ValidRun(cfg, Next(cfg, s, steps[0]), steps[1..]))
  }

  ghost function Run(cfg: Config, s: State, steps: seq<Step>): State
    requires ValidRun(cfg, s, steps)
    decreases |steps|
  {
    if steps == [] then s else Run(cfg, Next(cfg, s, steps[0]), steps[1..])
  }

  ghost predicate Reachable(cfg: Config, s: State) {
    exists steps :: ValidRun(cfg, INIT, steps) && Run(cfg, INIT, steps) == s
  }
}
