/** Exchanges, queues and bindings, the service that declares them, and the routing that
    follows from the declarations. */
module Topology {
  datatype Exchange = MainExchange | DeadLetterExchange | DlqExchange | EventsExchange
  datatype Kind = Direct | Fanout
  datatype Queue = WorkQueue | RetryQueue | DeadLetterQueue | AuditQueue
  datatype RoutingKey = KeyWork | KeyRetry | KeyDead | KeyEmpty

  /** Where a queue sends rejected and expired messages; `KeepKey` keeps the key they were
      published with. */
  datatype DeadLetterRule =
    | NoRule
    | KeepKey(exchange: Exchange)
    | UseKey(exchange: Exchange, key: RoutingKey)

  datatype Binding = Binding(queue: Queue, exchange: Exchange, key: RoutingKey)

  datatype Broker = Broker(
    exchanges: map<Exchange, Kind>,
    queues: map<Queue, DeadLetterRule>,
    bindings: set<Binding>)

  /** Queues that get a copy of a message published to `exchange` with `key`. */
  function Targets(b: Broker, exchange: Exchange, key: RoutingKey): set<Queue> {
    if exchange !in b.exchanges then {}
    else set binding | binding in b.bindings && binding.exchange == exchange &&
                       (b.exchanges[exchange].Fanout? || binding.key == key) :: binding.queue
  }

  /** Queues that get a message rejected by or expired in `queue`. */
  function DeadLetterTargets(b: Broker, queue: Queue, publishedKey: RoutingKey): set<Queue> {
    if queue !in b.queues then {}
    else match b.queues[queue]
         case NoRule => {}
         case KeepKey(exchange) => Targets(b, exchange, publishedKey)
         case UseKey(exchange, key) => Targets(b, exchange, key)
  }

  datatype OutboxRoute = OutboxRoute(exchange: Exchange, key: RoutingKey)

  const COMMAND_EVENT_TYPES: set<string> := {"CreateMessageEvent.v1", "CreateMessageEvent.v2"}

  function ResolveOutboxRoute(eventType: string): OutboxRoute {
    if eventType in COMMAND_EVENT_TYPES then OutboxRoute(MainExchange, KeyWork)
    else OutboxRoute(EventsExchange, KeyEmpty)
  }

  function DeclaredKind(e: Exchange): Kind {
    match e
    case MainExchange => Direct
    case DeadLetterExchange => Fanout
    case DlqExchange => Direct
    case EventsExchange => Fanout
  }

  function DeclaredRule(q: Queue): DeadLetterRule {
    match q
    case WorkQueue => KeepKey(DeadLetterExchange)
    case RetryQueue => UseKey(MainExchange, KeyWork)
    case DeadLetterQueue => NoRule
    case AuditQueue => NoRule
  }

  /** The topology the messaging service declares at start-up. */
  const DECLARED: Broker := Broker(
    map e: Exchange | true :: DeclaredKind(e),
    map q: Queue | true :: DeclaredRule(q),
    {Binding(DeadLetterQueue, DlqExchange, KeyDead), Binding(RetryQueue, MainExchange, KeyRetry),
     Binding(WorkQueue, MainExchange, KeyWork), Binding(DeadLetterQueue, DeadLetterExchange, KeyEmpty),
     Binding(AuditQueue, EventsExchange, KeyEmpty)})

  /** Everything `a` has, `b` has with the same properties. */
  ghost predicate Within(a: Broker, b: Broker) {
    && (forall e | e in a.exchanges :: e in b.exchanges && b.exchanges[e] == a.exchanges[e])
    && (forall q | q in a.queues :: q in b.queues && b.queues[q] == a.queues[q])
    && a.bindings <= b.bindings
  }

  /** A broker on which part of the topology, or none, or all of it has been declared. */
  type PartialBroker = b: Broker | Within(b, DECLARED) witness Broker(map[], map[], {})

  lemma TargetsWithin(a: Broker, b: Broker, e: Exchange, key: RoutingKey)
    requires Within(a, b)
    ensures Targets(a, e, key) <= Targets(b, e, key)
  {
  }

  /** A declaration is refused when the name exists with other properties. */
  predicate Compatible(b: Broker) {
    && (forall e :: ExchangeFits(b, e))
    && (forall q :: QueueFits(b, q))
  }

  predicate ExchangeFits(b: Broker, e: Exchange) {
    e in b.exchanges ==> b.exchanges[e] == DeclaredKind(e)
  }

  predicate QueueFits(b: Broker, q: Queue) {
    q in b.queues ==> b.queues[q] == DeclaredRule(q)
  }

  function Merge(b: Broker, d: Broker): Broker {
    Broker(b.exchanges + d.exchanges, b.queues + d.queues, b.bindings + d.bindings)
  }

  lemma CompatibleByPart(b: Broker)
    ensures Compatible(b) <==>
            && ExchangeFits(b, DeadLetterExchange) && ExchangeFits(b, DlqExchange) && ExchangeFits(b, MainExchange)
            && QueueFits(b, DeadLetterQueue) && QueueFits(b, RetryQueue) && QueueFits(b, WorkQueue)
            && ExchangeFits(b, EventsExchange) && QueueFits(b, AuditQueue)
  {
  }

  lemma Assembled(b: Broker)
    ensures b.exchanges[DeadLetterExchange := Fanout][DlqExchange := Direct][MainExchange := Direct]
              [EventsExchange := Fanout] == b.exchanges + DECLARED.exchanges
    ensures b.queues[DeadLetterQueue := NoRule][RetryQueue := UseKey(MainExchange, KeyWork)]
              [WorkQueue := KeepKey(DeadLetterExchange)][AuditQueue := NoRule] == b.queues + DECLARED.queues
    ensures b.bindings + {Binding(DeadLetterQueue, DlqExchange, KeyDead)}
              + {Binding(RetryQueue, MainExchange, KeyRetry)} + {Binding(WorkQueue, MainExchange, KeyWork)}
              + {Binding(DeadLetterQueue, DeadLetterExchange, KeyEmpty)}
              + {Binding(AuditQueue, EventsExchange, KeyEmpty)} == b.bindings + DECLARED.bindings
  {
    assert forall e: Exchange :: e in DECLARED.exchanges && DECLARED.exchanges[e] == DeclaredKind(e);
    assert forall q: Queue :: q in DECLARED.queues && DECLARED.queues[q] == DeclaredRule(q);
  }

  /** The broker as one administrative channel sees it. */
  class Channel {
    var exchanges: map<Exchange, Kind>
    var queues: map<Queue, DeadLetterRule>
    var bindings: set<Binding>

    function View(): Broker
      reads this
    {
      Broker(exchanges, queues, bindings)
    }

    method AssertExchange(e: Exchange, kind: Kind) returns (ok: bool)
      modifies this`exchanges
      ensures ok == (e in old(exchanges) ==> old(exchanges)[e] == kind)
      ensures exchanges == if ok then old(exchanges)[e := kind] else old(exchanges)
    {
      ok := e in exchanges ==> exchanges[e] == kind;
      if ok {
        exchanges := exchanges[e := kind];
      }
    }

    method AssertQueue(q: Queue, rule: DeadLetterRule) returns (ok: bool)
      modifies this`queues
      ensures ok == (q in old(queues) ==> old(queues)[q] == rule)
      ensures queues == if ok then old(queues)[q := rule] else old(queues)
    {
      ok := q in queues ==> queues[q] == rule;
      if ok {
        queues := queues[q := rule];
      }
    }

    method BindQueue(q: Queue, e: Exchange, key: RoutingKey)
      modifies this`bindings
      ensures bindings == old(bindings) + {Binding(q, e, key)}
    {
      bindings := bindings + {Binding(q, e, key)};
    }

    /** Runs the declarations in order and stops at the first refused one. It succeeds from
        every broker that does not contradict it, including one it already configured. */
    method AssertTopology() returns (ok: bool)
      modifies this
      ensures ok <==> Compatible(old(View()))
      ensures ok ==> View() == Merge(old(View()), DECLARED)
    {
      ghost var before := View();
      CompatibleByPart(before);
      Assembled(before);
      ok := AssertCommandExchanges();
      if !ok { return; }
      ok := AssertCommandQueues();
      if !ok { return; }
      ok := AssertEventBus();
    }

    /** Steps 1 to 3: the two dead-letter exchanges and the main exchange. */
    method AssertCommandExchanges() returns (ok: bool)
      modifies this`exchanges
      ensures ok <==> ExchangeFits(old(View()), DeadLetterExchange) && ExchangeFits(old(View()), DlqExchange)
                      && ExchangeFits(old(View()), MainExchange)
      ensures ok ==> exchanges == old(exchanges)[DeadLetterExchange := Fanout][DlqExchange := Direct][MainExchange := Direct]
    {
      ok := AssertExchange(DeadLetterExchange, Fanout);
      if !ok { return; }
      ok := AssertExchange(DlqExchange, Direct);
      if !ok { return; }
      ok := AssertExchange(MainExchange, Direct);
    }

    /** Steps 4 to 7: the dead-letter, retry and work queues with their bindings. */
    method AssertCommandQueues() returns (ok: bool)
      modifies this`queues, this`bindings
      ensures ok <==> QueueFits(old(View()), DeadLetterQueue) && QueueFits(old(View()), RetryQueue)
                      && QueueFits(old(View()), WorkQueue)
      ensures ok ==> queues == old(queues)[DeadLetterQueue := NoRule][RetryQueue := UseKey(MainExchange, KeyWork)]
                               [WorkQueue := KeepKey(DeadLetterExchange)]
      ensures ok ==> bindings == old(bindings) + {Binding(DeadLetterQueue, DlqExchange, KeyDead)}
                                 + {Binding(RetryQueue, MainExchange, KeyRetry)}
                                 + {Binding(WorkQueue, MainExchange, KeyWork)}
                                 + {Binding(DeadLetterQueue, DeadLetterExchange, KeyEmpty)}
    {
      ok := AssertQueue(DeadLetterQueue, NoRule);
      if !ok { return; }
      BindQueue(DeadLetterQueue, DlqExchange, KeyDead);
      ok := AssertQueue(RetryQueue, UseKey(MainExchange, KeyWork));
      if !ok { return; }
      BindQueue(RetryQueue, MainExchange, KeyRetry);
      ok := AssertQueue(WorkQueue, KeepKey(DeadLetterExchange));
      if !ok { return; }
      BindQueue(WorkQueue, MainExchange, KeyWork);
      BindQueue(DeadLetterQueue, DeadLetterExchange, KeyEmpty);
    }

    /** Step 8: the domain-event bus. */
    method AssertEventBus() returns (ok: bool)
      modifies this
      ensures ok <==> ExchangeFits(old(View()), EventsExchange) && QueueFits(old(View()), AuditQueue)
      ensures ok ==> exchanges == old(exchanges)[EventsExchange := Fanout]
      ensures ok ==> queues == old(queues)[AuditQueue := NoRule]
      ensures ok ==> bindings == old(bindings) + {Binding(AuditQueue, EventsExchange, KeyEmpty)}
    {
      ok := AssertExchange(EventsExchange, Fanout);
      if !ok { return; }
      ok := AssertQueue(AuditQueue, NoRule);
      if !ok { return; }
      BindQueue(AuditQueue, EventsExchange, KeyEmpty);
    }
  }

  lemma AssertTopologyIsIdempotent(b: Broker)
    requires Compatible(b)
    ensures Compatible(Merge(b, DECLARED))
    ensures Merge(Merge(b, DECLARED), DECLARED) == Merge(b, DECLARED)
  {
    var once := Merge(b, DECLARED);
    assert once.exchanges + DECLARED.exchanges == once.exchanges;
    assert once.queues + DECLARED.queues == once.queues;
  }

  /** Every publish the services make reaches exactly one queue. */
  lemma PublishTargets(eventType: string)
    ensures var r := ResolveOutboxRoute(eventType);
            Targets(DECLARED, r.exchange, r.key) ==
            if eventType in COMMAND_EVENT_TYPES then {WorkQueue} else {AuditQueue}
    ensures Targets(DECLARED, MainExchange, KeyRetry) == {RetryQueue}
  {
    assert Binding(WorkQueue, MainExchange, KeyWork) in DECLARED.bindings;
    assert Binding(AuditQueue, EventsExchange, KeyEmpty) in DECLARED.bindings;
    assert Binding(RetryQueue, MainExchange, KeyRetry) in DECLARED.bindings;
  }

  /** By name: the two create-message types go to the work queue, any other type to the audit queue. */
  lemma RoutesByName(eventType: string)
    ensures var r := ResolveOutboxRoute(eventType);
            Targets(DECLARED, r.exchange, r.key) ==
            if eventType == "CreateMessageEvent.v1" || eventType == "CreateMessageEvent.v2" then {WorkQueue} else {AuditQueue}
  {
    PublishTargets(eventType);
  }

  /** The only dead-letter hops, whatever key a message was published with: work to the
      dead-letter queue, retry to work, none out of the dead-letter and audit queues. */
  lemma DeadLetterHops(key: RoutingKey)
    ensures DeadLetterTargets(DECLARED, WorkQueue, key) == {DeadLetterQueue}
    ensures DeadLetterTargets(DECLARED, RetryQueue, key) == {WorkQueue}
    ensures DeadLetterTargets(DECLARED, DeadLetterQueue, key) == {}
    ensures DeadLetterTargets(DECLARED, AuditQueue, key) == {}
  {
    assert Binding(DeadLetterQueue, DeadLetterExchange, KeyEmpty) in DECLARED.bindings;
    assert Binding(WorkQueue, MainExchange, KeyWork) in DECLARED.bindings;
  }

  /** Queues a message can be in after `hops` dead-letterings. */
  function AfterHops(q: Queue, hops: nat): set<Queue> {
    if hops == 0 then {q}
    else set q1, key: RoutingKey, q2 |
           q1 in AfterHops(q, hops - 1) && q2 in DeadLetterTargets(DECLARED, q1, key) :: q2
  }

  /** A domain event never reaches a command queue, and a command never reaches the audit
      queue, by any number of dead-letter hops. */
  lemma {:induction false} RoutingIsolation(eventType: string, start: Queue, hops: nat)
    requires var r := ResolveOutboxRoute(eventType); start in Targets(DECLARED, r.exchange, r.key)
    ensures eventType in COMMAND_EVENT_TYPES ==> AuditQueue !in AfterHops(start, hops)
    ensures eventType !in COMMAND_EVENT_TYPES ==> AfterHops(start, hops) <= {AuditQueue}
  {
    PublishTargets(eventType);
    forall key: RoutingKey {
      DeadLetterHops(key);
    }
    if hops > 0 {
      RoutingIsolation(eventType, start, hops - 1);
    }
  }
}
