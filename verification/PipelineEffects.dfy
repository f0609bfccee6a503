/** Further end-to-end facts: how often an accepted event can reach the consumer before it takes
    effect, and that what takes effect is what was requested. */
module PipelineEffects {
  import opened Wrappers
  import opened Json
  import opened SchemaVersion
  import opened Contracts
  import opened GatewayAcceptance
  import opened OutboxTable
  import opened Pipeline
  import opened PipelineTheorems
  import R = RelayProtocol
  import C = ConsumerProtocol
  import ConsumerBudget
  import ConsumerTheorems
  import ContractDispatch
  import MC = MessagingController

  // ---- Copies are paid for by publishes ----

  /** How many of the copies are copies of `e`. */
  function PublishesOf(published: seq<R.Copy>, e: C.EventId): nat {
    if published == [] then 0
    else
      PublishesOf(published[..|published| - 1], e)
      + if published[|published| - 1].ev.eventId == Some(e) then 1 else 0
  }

  /** Arrivals are the gateway's publishes that found a queue. */
  ghost predicate Balanced(s: State) {
    forall e ::
      C.CountOf(s.consumer.hist.arrivals, e) == PublishesOf(s.routed, e) <= PublishesOf(s.gateway.published, e)
  }

  lemma PublishesGrow(published: seq<R.Copy>, p: R.Copy, e: C.EventId)
    ensures PublishesOf(published + [p], e) == PublishesOf(published, e) + if p.ev.eventId == Some(e) then 1 else 0
  {
    assert (published + [p])[..|published|] == published;
  }

  /** What a step of the consumer's side adds to the arrivals of `e`. */
  lemma ArrivalsGrow(cc: C.Config, s: C.State, step: C.Step, e: C.EventId)
    requires C.Enabled(cc, s, step)
    ensures C.CountOf(C.Next(cc, s, step).hist.arrivals, e) ==
            C.CountOf(s.hist.arrivals, e)
            + if IsArrival(step) && C.EventOf(cc, step.b.msg) == Some(e) then 1 else 0
  {
    match step {
      case World(b) => BrokerArrivals(cc, s, b, e);
      case Reject(_) =>
      case Handle(tag, f, h) => HandlerArrivals(s.hist, f, s.net.handlers[tag].phase, h);
    }
  }

  lemma BrokerArrivals(cc: C.Config, s: C.State, b: C.BrokerStep, e: C.EventId)
    requires C.BrokerEnabled(s.net, b)
    ensures C.CountOf(C.BrokerHistory(cc, s, b).arrivals, e) ==
            C.CountOf(s.hist.arrivals, e) + if b.Arrive? && C.EventOf(cc, b.msg) == Some(e) then 1 else 0
  {
  }

  lemma HandlerArrivals(hist: C.History, f: C.EventId, p: C.Phase, h: C.HandlerStep)
    requires C.PhaseAllows(p, h)
    ensures C.HistoryAfter(hist, f, p, h).arrivals == hist.arrivals
  {
  }

  /** An arriving message is read as the event of a gateway row, or not at all. */
  lemma ArrivalRead(cfg: Config, s: State, step: Step)
    requires Inv(cfg, s) && Enabled(cfg, s, step)
    requires (step.Gateway? || step.Messaging?) && Publishes(step.step)
    ensures var relay := if step.Gateway? then s.gateway else s.messaging;
            C.EventOf(Reading(cfg), MsgOf(relay.claims[step.step.c].row.ev)) ==
            if step.Gateway? then relay.claims[step.step.c].row.ev.eventId else None
  {
    if step.Gateway? {
      PublishedBody(cfg.gateway, s.gateway, step.step);
      ReadableIsRead(cfg, s.gateway.claims[step.step.c].row.ev);
    } else {
      PublishedBody(cfg.messaging, s.messaging, step.step);
      assert Unreadable(cfg.lex, s.messaging.claims[step.step.c].row.ev.payload);
    }
  }

  /** The event a step adds an arrival of. */
  ghost function ArrivedEvent(s: State, step: Step): Option<C.EventId> {
    if step.Gateway? && Lands(s.broker, s.gateway, step.step) then s.gateway.claims[step.step.c].row.ev.eventId else None
  }

  lemma ArrivalsFollow(cfg: Config, s: State, step: Step, e: C.EventId)
    requires Inv(cfg, s) && Enabled(cfg, s, step)
    ensures C.CountOf(Next(cfg, s, step).consumer.hist.arrivals, e) ==
            C.CountOf(s.consumer.hist.arrivals, e) + if ArrivedEvent(s, step) == Some(e) then 1 else 0
  {
    Projections(cfg, s, step);
    if (step.Gateway? || step.Messaging?) && Publishes(step.step) {
      ArrivalRead(cfg, s, step);
    }
    var c := ConsumerStep(cfg, s, step);
    if c.Some? {
      ArrivalsGrow(Reading(cfg), s.consumer, c.value, e);
    }
  }

  lemma PublishesFollow(cfg: Config, s: State, step: Step, e: C.EventId)
    requires Enabled(cfg, s, step)
    ensures PublishesOf(Next(cfg, s, step).routed, e) ==
            PublishesOf(s.routed, e) + if ArrivedEvent(s, step) == Some(e) then 1 else 0
    ensures PublishesOf(Next(cfg, s, step).gateway.published, e) >=
            PublishesOf(s.gateway.published, e) + if ArrivedEvent(s, step) == Some(e) then 1 else 0
  {
    RoutedGrows(cfg, s, step);
    if step.Gateway? {
      RelayPublished(cfg.gateway, s.gateway, step.step);
      if Publishes(step.step) {
        var p := R.CopyOf(s.gateway.claims[step.step.c].row);
        PublishesGrow(s.gateway.published, p, e);
        PublishesGrow(s.routed, p, e);
      }
    } else {
      assert Next(cfg, s, step).routed == s.routed;
    }
  }

  lemma BalancedKept(cfg: Config, s: State, step: Step)
    requires Inv(cfg, s) && Balanced(s) && Enabled(cfg, s, step)
    ensures Balanced(Next(cfg, s, step))
  {
    var t := Next(cfg, s, step);
    forall e
      ensures C.CountOf(t.consumer.hist.arrivals, e) == PublishesOf(t.routed, e) <= PublishesOf(t.gateway.published, e)
    {
      ArrivalsFollow(cfg, s, step, e);
      PublishesFollow(cfg, s, step, e);
    }
  }

  // ---- What is written is what was accepted ----

  function SubjectOf(body: Json): Option<Json> {
    var payload :- FieldOf(body, "payload");
    FieldOf(payload, "subject")
  }

  /** A MessagePersisted row names the subject and the correlation id of its gateway event. */
  ghost predicate Reports(gateway: Rows, g: RowId, e: C.EventId, ev: EventRecord) {
    && AcceptedAs(gateway, g, e)
    && FieldOf(ev.payload, "title").Some? && FieldOf(ev.payload, "title") == SubjectOf(gateway[g].ev.payload)
    && ev.eventType == "MessagePersisted"
    && ev.correlationId.Some? && FieldOf(gateway[g].ev.payload, "correlationId") == Some(JStr(ev.correlationId.value))
  }

  ghost predicate Faithful(s: State) {
    forall id | id in s.causes && id in s.messaging.rows ::
      exists g :: Reports(s.gateway.rows, g, s.causes[id], s.messaging.rows[id].ev)
  }

  lemma V1Keeps(lex: Lexical, body: Json)
    requires ParseV1(lex, body).Some?
    ensures var e := ParseV1(lex, body).value;
            SubjectOf(body) == Some(JStr(e.payload.subject))
            && FieldOf(body, "correlationId") == Some(JStr(e.env.correlationId))
  {
  }

  lemma V2Keeps(lex: Lexical, body: Json)
    requires ParseV2(lex, body).Some?
    ensures var e := ParseV2(lex, body).value;
            SubjectOf(body) == Some(JStr(e.payload.subject))
            && FieldOf(body, "correlationId") == Some(JStr(e.env.correlationId))
  {
  }

  /** Reading a message keeps subject and correlation id, in either version. */
  lemma ReadingKeeps(lex: Lexical, body: Json, header: Header)
    requires ContractDispatch.Consume(lex, body, header).Some?
    ensures var e := ContractDispatch.Consume(lex, body, header).value;
            SubjectOf(body) == Some(JStr(e.payload.subject))
            && FieldOf(body, "correlationId") == Some(JStr(e.env.correlationId))
  {
    match ResolveSchemaVersion(body, header, None) {
      case V1 =>
        V1Keeps(lex, body);
        ContractDispatch.ParsedV1IsGood(lex, body);
        ContractDispatch.UpcastExactly(lex, ParseV1(lex, body).value);
      case V2 => V2Keeps(lex, body);
    }
  }

  lemma ReportsFor(event: EventV2, rowEventId: string)
    ensures var ev := PersistedRecord(event, rowEventId);
            FieldOf(ev.payload, "title") == Some(JStr(event.payload.subject))
            && ev.eventType == "MessagePersisted" && ev.correlationId == Some(event.env.correlationId)
  {
  }

  lemma ReportsKept(cfg: Config, s: State, step: Step, g: RowId, e: C.EventId, ev: EventRecord)
    requires Enabled(cfg, s, step) && Reports(s.gateway.rows, g, e, ev)
    ensures Reports(Next(cfg, s, step).gateway.rows, g, e, ev)
  {
    Projections(cfg, s, step);
    var t := Next(cfg, s, step);
    var r := GatewayStep(cfg, step);
    AcceptedAsKept(cfg.gateway, s.gateway, t.gateway, r, g, e);
    if r.Some? {
      RelayRows(cfg.gateway, s.gateway, r.value, g);
    }
  }

  lemma NewRowReports(cfg: Config, s: State, step: Step) returns (g: RowId)
    requires Inv(cfg, s) && Enabled(cfg, s, step) && step.Persist?
    ensures Reports(s.gateway.rows, g, step.e, PersistedRecord(ReadBy(cfg, s.consumer.net, step.tag).value, step.rowEventId))
  {
    var c := s.consumer.net.handlers[step.tag].copy;
    var msg := s.consumer.net.copies[c].msg;
    var p := ReadFromRow(cfg, s, c, step.e);
    g := p.row;
    ReadingKeeps(cfg.lex, msg.body, msg.headers.schemaVersion);
    ReportsFor(ReadBy(cfg, s.consumer.net, step.tag).value, step.rowEventId);
  }

  /** A row of the messaging outbox keeps its event and its cause, or is the one just written. */
  lemma RowOrigin(cfg: Config, s: State, step: Step, id: RowId)
    requires Enabled(cfg, s, step) && id in Next(cfg, s, step).messaging.rows
    requires s.causes.Keys == s.messaging.rows.Keys
    ensures var t := Next(cfg, s, step);
            if id in s.messaging.rows
            then t.messaging.rows[id].ev == s.messaging.rows[id].ev && id in t.causes && t.causes[id] == s.causes[id]
            else step.Persist? && step.id == id && t.causes == s.causes[id := step.e]
                 && t.messaging.rows[id].ev == PersistedRecord(ReadBy(cfg, s.consumer.net, step.tag).value, step.rowEventId)
  {
    var r := MessagingStep(cfg, s, step);
    if r.Some? {
      RelayRows(cfg.messaging, s.messaging, r.value, id);
    }
  }

  lemma OldRowReports(cfg: Config, s: State, step: Step, id: RowId) returns (g: RowId)
    requires Faithful(s) && Enabled(cfg, s, step) && s.causes.Keys == s.messaging.rows.Keys
    requires id in s.messaging.rows && id in Next(cfg, s, step).messaging.rows
    ensures id in Next(cfg, s, step).causes
    ensures Reports(s.gateway.rows, g, Next(cfg, s, step).causes[id], Next(cfg, s, step).messaging.rows[id].ev)
  {
    RowOrigin(cfg, s, step, id);
    g :| Reports(s.gateway.rows, g, s.causes[id], s.messaging.rows[id].ev);
  }

  lemma FaithfulKept(cfg: Config, s: State, step: Step)
    requires Inv(cfg, s) && Faithful(s) && Enabled(cfg, s, step)
    ensures Faithful(Next(cfg, s, step))
  {
    var t := Next(cfg, s, step);
    forall id | id in t.causes && id in t.messaging.rows
      ensures exists g :: Reports(t.gateway.rows, g, t.causes[id], t.messaging.rows[id].ev)
    {
      var g: RowId;
      if id in s.messaging.rows {
        g := OldRowReports(cfg, s, step, id);
      } else {
        RowOrigin(cfg, s, step, id);
        g := NewRowReports(cfg, s, step);
      }
      ReportsKept(cfg, s, step, g, t.causes[id], t.messaging.rows[id].ev);
    }
  }

  // ---- What is accepted is what was requested ----

  ghost predicate AsRequested(cfg: Config, s: State) {
    && s.requests.Keys == s.gateway.rows.Keys
    && forall id | id in s.requests :: RecordOfAcceptance(cfg.lex, s.requests[id]) == Some(s.gateway.rows[id].ev)
  }

  lemma AsRequestedKept(cfg: Config, s: State, step: Step)
    requires AsRequested(cfg, s) && Enabled(cfg, s, step)
    ensures AsRequested(cfg, Next(cfg, s, step))
  {
    var t := Next(cfg, s, step);
    var r := GatewayStep(cfg, step);
    if r.Some? {
      RelayKeepsRows(cfg.gateway, s.gateway, r.value);
      forall id | id in t.gateway.rows
        ensures id in t.requests && RecordOfAcceptance(cfg.lex, t.requests[id]) == Some(t.gateway.rows[id].ev)
      {
        RelayRows(cfg.gateway, s.gateway, r.value, id);
      }
    }
  }

  // ---- Over runs ----

  lemma {:induction false} RunKeeps(cfg: Config, s: State, steps: seq<Step>)
    requires Inv(cfg, s) && Balanced(s) && Faithful(s) && AsRequested(cfg, s) && ValidRun(cfg, s, steps)
    ensures Balanced(Run(cfg, s, steps)) && Faithful(Run(cfg, s, steps)) && AsRequested(cfg, Run(cfg, s, steps))
    decreases |steps|
  {
    if steps != [] {
      InvKept(cfg, s, steps[0]);
      BalancedKept(cfg, s, steps[0]);
      FaithfulKept(cfg, s, steps[0]);
      AsRequestedKept(cfg, s, steps[0]);
      RunKeeps(cfg, Next(cfg, s, steps[0]), steps[1..]);
    }
  }

  lemma ReachableKeeps(cfg: Config, s: State)
    requires Reachable(cfg, s)
    ensures Inv(cfg, s) && Balanced(s) && Faithful(s) && AsRequested(cfg, s)
  {
    ReachableInv(cfg, s);
    var steps :| ValidRun(cfg, INIT, steps) && Run(cfg, INIT, steps) == s;
    InitInv(cfg);
    RunKeeps(cfg, INIT, steps);
  }

  /** Until an accepted event takes effect, the broker has seen at most four copies of it more
      than relay publishes found a queue and operators re-injected. */
  lemma CopiesBounded(cfg: Config, s: State, e: C.EventId)
    requires Reachable(cfg, s) && e !in s.consumer.db.processed
    ensures |ConsumerBudget.CopiesOf(Reading(cfg), s.consumer.net, e)| <=
            PublishesOf(s.routed, e) + C.CountOf(s.consumer.hist.reinjections, e) + 4
    ensures PublishesOf(s.routed, e) <= PublishesOf(s.gateway.published, e)
  {
    ReachableKeeps(cfg, s);
    ConsumerTheorems.RetryBudget(Reading(cfg), s.consumer, e);
  }

  /** Every MessagePersisted row reports a processed event, with the subject and correlation id
      requested for it. */
  lemma EffectsAreFaithful(cfg: Config, s: State, id: RowId)
    requires Reachable(cfg, s) && id in s.messaging.rows
    ensures id in s.causes && s.causes[id] in s.consumer.db.processed
    ensures exists g :: RequestedAs(s, g, s.causes[id]) && TitledAs(s.messaging.rows[id].ev, s.requests[g])
  {
    ReachableKeeps(cfg, s);
    var g :| Reports(s.gateway.rows, g, s.causes[id], s.messaging.rows[id].ev);
    RowSaysRequest(cfg.lex, s.requests[g]);
    ReportsTitle(s.gateway.rows[g].ev, s.gateway.rows, g, s.causes[id], s.messaging.rows[id].ev, s.requests[g]);
    assert RequestedAs(s, g, s.causes[id]);
  }

  lemma ReportsTitle(accepted: EventRecord, gateway: Rows, g: RowId, e: C.EventId, ev: EventRecord, a: Acceptance)
    requires Reports(gateway, g, e, ev) && gateway[g].ev == accepted && SaysRequest(accepted, a)
    ensures TitledAs(ev, a) && a.eventId == e
  {
  }

  ghost predicate TitledAs(ev: EventRecord, a: Acceptance) {
    && ev.eventType == "MessagePersisted" && ev.correlationId == Some(a.correlationId)
    && FieldOf(ev.payload, "title").Some? && FieldOf(ev.payload, "title") == Requested(a.request, "subject")
  }

  /** The request an event goes back to. */
  ghost predicate RequestedAs(s: State, id: RowId, e: C.EventId) {
    id in s.requests && s.requests[id].eventId == e
  }

  /** Every gateway row says, field by field, what the request it was accepted for says. */
  lemma RowsAreAsRequested(cfg: Config, s: State, id: RowId)
    requires Reachable(cfg, s) && id in s.gateway.rows
    ensures id in s.requests && SaysRequest(s.gateway.rows[id].ev, s.requests[id])
  {
    ReachableKeeps(cfg, s);
    RowSaysRequest(cfg.lex, s.requests[id]);
  }

  /** Subject and content of a body. */
  function ContentOf(body: Json): Option<Json> {
    var payload :- FieldOf(body, "payload");
    FieldOf(payload, "content")
  }

  lemma ReadingKeepsContent(lex: Lexical, body: Json, header: Header)
    requires ContractDispatch.Consume(lex, body, header).Some?
    ensures var e := ContractDispatch.Consume(lex, body, header).value;
            ContentOf(body) == Some(JStr(e.payload.content)) && FieldOf(body, "eventId") == Some(JStr(e.env.eventId))
  {
    var e := ContractDispatch.Consume(lex, body, header).value;
    ContractDispatch.ConsumesExactly(lex, body, header, e);
  }

  /** The event says what the request says. */
  ghost predicate ReadsAsRequested(event: EventV2, a: Acceptance) {
    && event.env.eventId == a.eventId && event.env.correlationId == a.correlationId
    && Some(JStr(event.payload.subject)) == Requested(a.request, "subject")
    && Some(JStr(event.payload.content)) == Requested(a.request, "content")
  }

  lemma BodyReadsAsRequested(lex: Lexical, body: Json, header: Header, a: Acceptance, ev: EventRecord)
    requires ContractDispatch.Consume(lex, body, header).Some? && SaysRequest(ev, a) && ev.payload == body
    ensures ReadsAsRequested(ContractDispatch.Consume(lex, body, header).value, a)
  {
    ReadingKeeps(lex, body, header);
    ReadingKeepsContent(lex, body, header);
  }

  /** Whatever a handler makes of any copy in a reachable state is what was requested. */
  lemma CopiesReadAsRequested(cfg: Config, s: State, c: C.CopyId) returns (id: RowId)
    requires Inv(cfg, s) && AsRequested(cfg, s) && c in s.consumer.net.copies
    requires C.EventOf(Reading(cfg), s.consumer.net.copies[c].msg).Some?
    ensures var msg := s.consumer.net.copies[c].msg;
            var event := ContractDispatch.Consume(cfg.lex, msg.body, msg.headers.schemaVersion);
            event.Some? && id in s.requests && ReadsAsRequested(event.value, s.requests[id])
  {
    var msg := s.consumer.net.copies[c].msg;
    var p := ReadFromRow(cfg, s, c, C.EventOf(Reading(cfg), msg).value);
    id := p.row;
    RowSaysRequest(cfg.lex, s.requests[id]);
    BodyReadsAsRequested(cfg.lex, msg.body, msg.headers.schemaVersion, s.requests[id], p.ev);
  }

  /** Whatever a handler writes, in any reachable state and under any faults, is what was
      requested: the message's title and content are the subject and the content of one
      accepted request, and the MessagePersisted row carries that subject and the request's
      correlation id. */
  lemma StoredAsRequested(cfg: Config, s: State, c: C.CopyId, f: MC.Faults) returns (id: RowId)
    requires Reachable(cfg, s) && c in s.consumer.net.copies
    requires MC.EndingOf(cfg.lex, s.consumer.db, s.consumer.net.copies[c].msg, f).wrote.Some?
    ensures id in s.requests
    ensures WrittenAsRequested(MC.EndingOf(cfg.lex, s.consumer.db, s.consumer.net.copies[c].msg, f).wrote.value, s.requests[id])
  {
    ReachableKeeps(cfg, s);
    var msg := s.consumer.net.copies[c].msg;
    var event := ContractDispatch.Consume(cfg.lex, msg.body, msg.headers.schemaVersion).value;
    assert C.EventOf(Reading(cfg), msg) == Some(event.env.eventId);
    id := CopiesReadAsRequested(cfg, s, c);
    EffectAsRequested(s.consumer.db, event, msg, f, s.requests[id]);
  }

  ghost predicate WrittenAsRequested(wrote: MC.Effect, a: Acceptance) {
    && Some(JStr(wrote.message.title)) == Requested(a.request, "subject")
    && Some(JStr(wrote.message.content)) == Requested(a.request, "content")
    && wrote.event.eventType == "MessagePersisted"
    && FieldOf(wrote.event.payload, "title") == Requested(a.request, "subject")
    && wrote.event.correlationId == Some(a.correlationId)
  }

  lemma EffectAsRequested(db: C.Db, event: EventV2, msg: C.Msg, f: MC.Faults, a: Acceptance)
    requires ReadsAsRequested(event, a) && MC.HandledEnding(db, event, msg, f).wrote.Some?
    ensures WrittenAsRequested(MC.HandledEnding(db, event, msg, f).wrote.value, a)
  {
    MC.EndingsAtomic(db, event, msg, f);
  }
}
