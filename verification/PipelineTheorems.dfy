/** End to end: what holds of an accepted event in every reachable state of the pipeline. */
module PipelineTheorems {
  import opened Wrappers
  import opened Json
  import opened SchemaVersion
  import opened Contracts
  import opened Topology
  import opened OutboxTable
  import opened GatewayAcceptance
  import opened Pipeline
  import R = RelayProtocol
  import C = ConsumerProtocol
  import RelayTheorems
  import ConsumerInvariants
  import ConsumerBudget
  import ConsumerTheorems
  import ContractDispatch

  // ---- What the handover between the parts keeps ----

  ghost predicate Parts(cfg: Config, s: State) {
    && R.Reachable(cfg.gateway, s.gateway)
    && C.Reachable(Reading(cfg), s.consumer)
    && R.Reachable(cfg.messaging, s.messaging)
  }

  ghost predicate HasCopy(n: C.Net, msg: C.Msg) {
    exists c :: c in n.copies && n.copies[c].msg == msg
  }

  /** What found a queue was published, and is, or was, a copy in the broker. */
  ghost predicate Arrived(routed: seq<R.Copy>, published: seq<R.Copy>, n: C.Net) {
    forall p | p in routed :: p in published && HasCopy(n, MsgOf(p.ev))
  }

  predicate ReadsAs(lex: Lexical, body: Json, header: Header, id: string) {
    var e := ContractDispatch.Consume(lex, body, header);
    e.Some? ==> e.value.env.eventId == id
  }

  /** The consumer reads the row's payload as the row's event, and never as another one. */
  ghost predicate Readable(lex: Lexical, ev: EventRecord) {
    && ev.eventId.Some? && ev.eventType in COMMAND_EVENT_TYPES
    && ContractDispatch.Consume(lex, ev.payload, Absent).Some?
    && forall header: Header :: ReadsAs(lex, ev.payload, header, ev.eventId.value)
  }

  ghost predicate Unreadable(lex: Lexical, body: Json) {
    forall header: Header :: ContractDispatch.Consume(lex, body, header).None?
  }

  ghost predicate RowsReadable(lex: Lexical, rows: Rows) {
    forall id | id in rows :: Readable(lex, rows[id].ev)
  }

  ghost predicate RowsUnreadable(lex: Lexical, rows: Rows) {
    forall id | id in rows :: Unreadable(lex, rows[id].ev.payload) && rows[id].ev.eventType !in COMMAND_EVENT_TYPES
  }

  ghost predicate IsOf(routed: seq<R.Copy>, p: R.Copy, msg: C.Msg) {
    p in routed && p.ev.payload == msg.body && p.ev.eventType == msg.eventType
  }

  /** Every message in the broker has the payload of a gateway copy that found a queue, or one
      no handler accepts. */
  ghost predicate Sourced(lex: Lexical, routed: seq<R.Copy>, n: C.Net) {
    forall c | c in n.copies :: SourcedMsg(lex, routed, n.copies[c].msg)
  }

  ghost predicate SourcedMsg(lex: Lexical, routed: seq<R.Copy>, msg: C.Msg) {
    (exists p :: IsOf(routed, p, msg)) || Unreadable(lex, msg.body)
  }

  /** The gateway row whose event this is. */
  ghost predicate AcceptedAs(rows: Rows, id: RowId, e: C.EventId) {
    id in rows && rows[id].ev.eventId == Some(e)
  }

  ghost predicate RoutedAs(routed: seq<R.Copy>, p: R.Copy, e: C.EventId) {
    p in routed && p.ev.eventId == Some(e)
  }

  ghost predicate AllRouted(routed: seq<R.Copy>, processed: multiset<C.EventId>) {
    forall e | e in processed :: exists p :: RoutedAs(routed, p, e)
  }

  ghost predicate WrittenFor(causes: map<RowId, C.EventId>, id: RowId, e: C.EventId) {
    id in causes && causes[id] == e
  }

  ghost predicate OneRowEach(causes: map<RowId, C.EventId>) {
    forall i, j | i in causes && j in causes && causes[i] == causes[j] :: i == j
  }

  ghost predicate RangesOver(causes: map<RowId, C.EventId>, processed: multiset<C.EventId>) {
    && (forall id | id in causes :: causes[id] in processed)
    && (forall e | e in processed :: exists id :: WrittenFor(causes, id, e))
  }

  /** Rows of the messaging outbox and processed events are in one-to-one correspondence. */
  ghost predicate Caused(causes: map<RowId, C.EventId>, rows: Rows, processed: multiset<C.EventId>) {
    causes.Keys == rows.Keys && OneRowEach(causes) && RangesOver(causes, processed)
  }

  ghost predicate Inv(cfg: Config, s: State) {
    && Parts(cfg, s)
    && Arrived(s.routed, s.gateway.published, s.consumer.net)
    && RowsReadable(cfg.lex, s.gateway.rows) && RowsUnreadable(cfg.lex, s.messaging.rows)
    && Sourced(cfg.lex, s.routed, s.consumer.net)
    && AllRouted(s.routed, s.consumer.db.processed)
    && Caused(s.causes, s.messaging.rows, s.consumer.db.processed)
  }

  // ---- Contract facts ----

  lemma AcceptedIsReadable(lex: Lexical, request: Request, correlationId: string, eventId: string, timestamp: string)
    requires RecordFor(lex, request, correlationId, eventId, timestamp).Some?
    ensures Readable(lex, RecordFor(lex, request, correlationId, eventId, timestamp).value)
    ensures RecordFor(lex, request, correlationId, eventId, timestamp).value.eventId == Some(eventId)
  {
    var ev := RecordFor(lex, request, correlationId, eventId, timestamp).value;
    forall header: Header
      ensures ReadsAs(lex, ev.payload, header, eventId)
      ensures header.Absent? ==> ContractDispatch.Consume(lex, ev.payload, header).Some?
    {
      match request {
        case RequestV1(payload) =>
          ContractDispatch.AcceptedV1IsConsumed(lex, payload, correlationId, eventId, timestamp, header);
        case RequestV2(body) =>
          ContractDispatch.AcceptedV2IsConsumed(lex, body, correlationId, eventId, timestamp, header);
      }
    }
  }

  lemma PersistedIsUnreadable(lex: Lexical, event: EventV2, rowEventId: string)
    ensures Unreadable(lex, PersistedRecord(event, rowEventId).payload)
    ensures PersistedRecord(event, rowEventId).eventType !in COMMAND_EVENT_TYPES
  {
    var body := PersistedRecord(event, rowEventId).payload;
    forall header: Header ensures ContractDispatch.Consume(lex, body, header).None? {
      assert "eventId" != "title" by { assert |"eventId"| == 7 && |"title"| == 5; }
      assert FieldOf(body, "eventId") == None;
    }
    assert |"MessagePersisted"| == 16;
    forall name | name in COMMAND_EVENT_TYPES ensures |name| == 21 {
    }
  }

  // ---- How the parts move ----

  lemma RelayRows(rc: R.Config, r: R.State, step: R.Step, id: RowId)
    requires R.Enabled(rc, r, step) && id in R.Next(rc, r, step).rows
    ensures if id in r.rows then R.Next(rc, r, step).rows[id].ev == r.rows[id].ev
            else step.Insert? && step.id == id && R.Next(rc, r, step).rows[id].ev == step.ev
  {
    if id in r.rows {
      R.RowMoves(rc, r, step, id);
    }
  }

  lemma RelayKeepsRows(rc: R.Config, r: R.State, step: R.Step)
    requires R.Enabled(rc, r, step)
    ensures r.rows.Keys <= R.Next(rc, r, step).rows.Keys
    ensures !step.Insert? ==> R.Next(rc, r, step).rows.Keys == r.rows.Keys
    ensures step.Insert? ==> R.Next(rc, r, step).rows.Keys == r.rows.Keys + {step.id}
  {
  }

  lemma RelayPublished(rc: R.Config, r: R.State, step: R.Step)
    requires R.Enabled(rc, r, step)
    ensures R.Next(rc, r, step).published ==
            r.published + if Publishes(step) then [R.CopyOf(r.claims[step.c].row)] else []
  {
  }

  ghost predicate SameContent(a: C.Msg, b: C.Msg) {
    a.body == b.body && a.eventType == b.eventType
  }

  /** Where the content of a copy comes from. */
  lemma BodyOrigin(cc: C.Config, s: C.State, step: C.Step, c: C.CopyId)
    requires ConsumerInvariants.Linked(s.net) && C.Enabled(cc, s, step) && c in C.Next(cc, s, step).net.copies
    ensures var t := C.Next(cc, s, step).net;
            || (IsArrival(step) && t.copies[c].msg == step.b.msg)
            || exists d :: d in s.net.copies && SameContent(s.net.copies[d].msg, t.copies[c].msg)
  {
    ConsumerInvariants.MessagesKept(cc, s, step);
    ConsumerBudget.CopiesAdded(cc, s, step);
    if c in s.net.copies {
      assert SameContent(s.net.copies[c].msg, C.Next(cc, s, step).net.copies[c].msg);
    } else if step.World? && step.b.Reinject? {
      assert SameContent(s.net.copies[step.b.c].msg, C.Next(cc, s, step).net.copies[c].msg);
    } else if step.Handle? {
      assert SameContent(s.net.copies[s.net.handlers[step.tag].copy].msg, C.Next(cc, s, step).net.copies[c].msg);
    }
  }

  lemma ProcessedOrigin(cc: C.Config, s: C.State, step: C.Step)
    requires C.Reachable(cc, s) && C.Enabled(cc, s, step)
    ensures !IsCommit(step) ==> C.Next(cc, s, step).db.processed == s.db.processed
    ensures IsCommit(step) ==> step.e !in s.db.processed
                               && C.Next(cc, s, step).db.processed == s.db.processed + multiset{step.e}
  {
    ConsumerTheorems.ReachableInv(cc, s);
    if step.Handle? {
      assert ConsumerInvariants.RunFits(cc, s, step.tag);
      LedgerOfCommit(s.db, step.e, s.net.handlers[step.tag].phase, step.h);
    }
  }

  lemma LedgerOfCommit(db: C.Db, e: C.EventId, p: C.Phase, h: C.HandlerStep)
    requires C.PhaseAllows(p, h) && ConsumerInvariants.PhaseFits(db.processed, e, p)
    ensures if h.Commit? then e !in db.processed && C.DbAfter(db, e, p, h).processed == db.processed + multiset{e}
            else C.DbAfter(db, e, p, h).processed == db.processed
  {
  }

  // ---- Each step of the whole is a step of its parts ----

  function GatewayStep(cfg: Config, step: Step): Option<R.Step> {
    match step
    case Accept(id, request, correlationId, eventId, timestamp) =>
      var ev :- RecordFor(cfg.lex, request, correlationId, eventId, timestamp);
      Some(R.Insert(id, ev))
    case Gateway(r, _) => Some(r)
    case _ => None
  }

  ghost function MessagingStep(cfg: Config, s: State, step: Step): Option<R.Step>
    requires Enabled(cfg, s, step)
  {
    match step
    case Messaging(r, _) => Some(r)
    case Persist(tag, _, _, _, id, rowEventId) =>
      Some(R.Insert(id, PersistedRecord(ReadBy(cfg, s.consumer.net, tag).value, rowEventId)))
    case _ => None
  }

  ghost function ConsumerStep(cfg: Config, s: State, step: Step): Option<C.Step>
    requires Enabled(cfg, s, step)
  {
    match step
    case Gateway(r, q) => if Lands(s.broker, s.gateway, r) then Some(ArrivalOf(s.gateway, r, q)) else None
    case Messaging(r, q) => if Lands(s.broker, s.messaging, r) then Some(ArrivalOf(s.messaging, r, q)) else None
    case Consumer(c) => Some(c)
    case Persist(tag, e, acknowledged, cls, _, _) => Some(C.Handle(tag, e, C.Commit(acknowledged, cls)))
    case _ => None
  }

  lemma Projections(cfg: Config, s: State, step: Step)
    requires Enabled(cfg, s, step)
    ensures var t := Next(cfg, s, step);
            && RelayMoves(cfg.gateway, s.gateway, t.gateway, GatewayStep(cfg, step))
            && RelayMoves(cfg.messaging, s.messaging, t.messaging, MessagingStep(cfg, s, step))
            && ConsumerMoves(Reading(cfg), s.consumer, t.consumer, ConsumerStep(cfg, s, step))
  {
    if step.Gateway? && Lands(s.broker, s.gateway, step.step) {
      LandingArrives(cfg, cfg.gateway, s.gateway, s.consumer, s.broker, step.step, step.q);
    } else if step.Messaging? && Lands(s.broker, s.messaging, step.step) {
      LandingArrives(cfg, cfg.messaging, s.messaging, s.consumer, s.broker, step.step, step.q);
    }
  }

  ghost predicate RelayMoves(rc: R.Config, before: R.State, after: R.State, step: Option<R.Step>) {
    if step.Some? then R.Enabled(rc, before, step.value) && after == R.Next(rc, before, step.value) else after == before
  }

  ghost predicate ConsumerMoves(cc: C.Config, before: C.State, after: C.State, step: Option<C.Step>) {
    if step.Some? then C.Enabled(cc, before, step.value) && after == C.Next(cc, before, step.value) else after == before
  }

  lemma RelayReaches(rc: R.Config, before: R.State, after: R.State, step: Option<R.Step>)
    requires R.Reachable(rc, before) && RelayMoves(rc, before, after, step)
    ensures R.Reachable(rc, after)
  {
    if step.Some? {
      R.ReachableNext(rc, before, step.value);
    }
  }

  lemma ConsumerReaches(cc: C.Config, before: C.State, after: C.State, step: Option<C.Step>)
    requires C.Reachable(cc, before) && ConsumerMoves(cc, before, after, step)
    ensures C.Reachable(cc, after)
  {
    if step.Some? {
      C.ReachableNext(cc, before, step.value);
    }
  }

  lemma PartsKept(cfg: Config, s: State, step: Step)
    requires Parts(cfg, s) && Enabled(cfg, s, step)
    ensures Parts(cfg, Next(cfg, s, step))
  {
    var t := Next(cfg, s, step);
    Projections(cfg, s, step);
    RelayReaches(cfg.gateway, s.gateway, t.gateway, GatewayStep(cfg, step));
    RelayReaches(cfg.messaging, s.messaging, t.messaging, MessagingStep(cfg, s, step));
    ConsumerReaches(Reading(cfg), s.consumer, t.consumer, ConsumerStep(cfg, s, step));
  }

  // ---- Each conjunct is kept ----

  lemma HasCopyKept(cc: C.Config, s: C.State, t: C.State, step: Option<C.Step>, msg: C.Msg)
    requires C.Reachable(cc, s) && ConsumerMoves(cc, s, t, step)
    ensures HasCopy(s.net, msg) ==> HasCopy(t.net, msg)
    ensures step.Some? && IsArrival(step.value) && step.value.b.msg == msg ==> HasCopy(t.net, msg)
  {
    if step.Some? {
      ConsumerTheorems.ReachableInv(cc, s);
      ConsumerInvariants.MessagesKept(cc, s, step.value);
      if HasCopy(s.net, msg) {
        var c :| c in s.net.copies && s.net.copies[c].msg == msg;
        assert t.net.copies[c].msg == msg;
      }
      if IsArrival(step.value) && step.value.b.msg == msg {
        assert t.net.copies[s.net.nextCopy].msg == msg;
      }
    }
  }

  /** Only a gateway publish that lands adds to what found a queue. */
  lemma RoutedGrows(cfg: Config, s: State, step: Step)
    requires Enabled(cfg, s, step)
    ensures Next(cfg, s, step).routed ==
            s.routed + if step.Gateway? && Lands(s.broker, s.gateway, step.step)
                       then [R.CopyOf(s.gateway.claims[step.step.c].row)] else []
    ensures step.Gateway? ==> forall p | p in s.gateway.published :: p in Next(cfg, s, step).gateway.published
    ensures step.Gateway? && Publishes(step.step) ==>
              R.CopyOf(s.gateway.claims[step.step.c].row) in Next(cfg, s, step).gateway.published
    ensures !step.Gateway? ==> Next(cfg, s, step).gateway.published == s.gateway.published
  {
    if step.Gateway? {
      RelayPublished(cfg.gateway, s.gateway, step.step);
    }
  }

  lemma ArrivedKept(cfg: Config, s: State, step: Step)
    requires Parts(cfg, s) && Arrived(s.routed, s.gateway.published, s.consumer.net) && Enabled(cfg, s, step)
    ensures var t := Next(cfg, s, step); Arrived(t.routed, t.gateway.published, t.consumer.net)
  {
    var t := Next(cfg, s, step);
    Projections(cfg, s, step);
    RoutedGrows(cfg, s, step);
    forall p | p in t.routed ensures p in t.gateway.published && HasCopy(t.consumer.net, MsgOf(p.ev)) {
      HasCopyKept(Reading(cfg), s.consumer, t.consumer, ConsumerStep(cfg, s, step), MsgOf(p.ev));
    }
  }

  lemma RowsReadableKept(cfg: Config, s: State, step: Step)
    requires RowsReadable(cfg.lex, s.gateway.rows) && Enabled(cfg, s, step)
    ensures RowsReadable(cfg.lex, Next(cfg, s, step).gateway.rows)
  {
    var t := Next(cfg, s, step);
    var r := GatewayStep(cfg, step);
    Projections(cfg, s, step);
    forall id | id in t.gateway.rows ensures Readable(cfg.lex, t.gateway.rows[id].ev) {
      if r.Some? {
        RelayRows(cfg.gateway, s.gateway, r.value, id);
      }
      if id !in s.gateway.rows {
        AcceptedIsReadable(cfg.lex, step.request, step.correlationId, step.eventId, step.timestamp);
      }
    }
  }

  lemma RowsUnreadableKept(cfg: Config, s: State, step: Step)
    requires RowsUnreadable(cfg.lex, s.messaging.rows) && Enabled(cfg, s, step)
    ensures RowsUnreadable(cfg.lex, Next(cfg, s, step).messaging.rows)
  {
    var t := Next(cfg, s, step);
    var r := MessagingStep(cfg, s, step);
    Projections(cfg, s, step);
    forall id | id in t.messaging.rows
      ensures Unreadable(cfg.lex, t.messaging.rows[id].ev.payload) && t.messaging.rows[id].ev.eventType !in COMMAND_EVENT_TYPES
    {
      if r.Some? {
        RelayRows(cfg.messaging, s.messaging, r.value, id);
      }
      if id !in s.messaging.rows {
        PersistedIsUnreadable(cfg.lex, ReadBy(cfg, s.consumer.net, step.tag).value, step.rowEventId);
      }
    }
  }

  /** What a relay publishes is its row's payload. */
  lemma PublishedBody(rc: R.Config, r: R.State, step: R.Step)
    requires R.Reachable(rc, r) && R.Enabled(rc, r, step) && Publishes(step)
    ensures r.claims[step.c].row.id in r.rows && r.rows[r.claims[step.c].row.id].ev == r.claims[step.c].row.ev
  {
    R.ReachableInv(rc, r);
    assert R.ClaimFits(r, step.c);
  }

  lemma CopySourced(lex: Lexical, routed: seq<R.Copy>, cc: C.Config, before: C.State, after: C.State, step: Option<C.Step>,
                    d: C.CopyId)
    requires C.Reachable(cc, before) && ConsumerMoves(cc, before, after, step) && Sourced(lex, routed, before.net)
    requires step.Some? && IsArrival(step.value) ==> SourcedMsg(lex, routed, step.value.b.msg)
    requires d in after.net.copies
    ensures SourcedMsg(lex, routed, after.net.copies[d].msg)
  {
    if step.Some? {
      ConsumerTheorems.ReachableInv(cc, before);
      BodyOrigin(cc, before, step.value, d);
      var msg := after.net.copies[d].msg;
      if !(IsArrival(step.value) && msg == step.value.b.msg) {
        var o :| o in before.net.copies && SameContent(before.net.copies[o].msg, msg);
        if p :| IsOf(routed, p, before.net.copies[o].msg) {
          assert IsOf(routed, p, msg);
        }
      }
    }
  }

  lemma SourcedStays(lex: Lexical, routed: seq<R.Copy>, more: seq<R.Copy>, n: C.Net)
    requires Sourced(lex, routed, n)
    ensures Sourced(lex, routed + more, n)
  {
    forall c | c in n.copies ensures SourcedMsg(lex, routed + more, n.copies[c].msg) {
      if p :| IsOf(routed, p, n.copies[c].msg) {
        assert IsOf(routed + more, p, n.copies[c].msg);
      }
    }
  }

  lemma SourcedKept(cfg: Config, s: State, step: Step)
    requires Parts(cfg, s) && RowsUnreadable(cfg.lex, s.messaging.rows) && Enabled(cfg, s, step)
    requires Sourced(cfg.lex, s.routed, s.consumer.net)
    ensures Sourced(cfg.lex, Next(cfg, s, step).routed, Next(cfg, s, step).consumer.net)
  {
    var t := Next(cfg, s, step);
    Projections(cfg, s, step);
    RoutedGrows(cfg, s, step);
    var c := ConsumerStep(cfg, s, step);
    SourcedStays(cfg.lex, s.routed, t.routed[|s.routed|..], s.consumer.net);
    assert t.routed == s.routed + t.routed[|s.routed|..];
    if c.Some? && IsArrival(c.value) {
      ArrivalSourced(cfg, s, step);
    }
    forall d | d in t.consumer.net.copies ensures SourcedMsg(cfg.lex, t.routed, t.consumer.net.copies[d].msg) {
      CopySourced(cfg.lex, t.routed, Reading(cfg), s.consumer, t.consumer, c, d);
    }
  }

  lemma ArrivalSourced(cfg: Config, s: State, step: Step)
    requires Parts(cfg, s) && RowsUnreadable(cfg.lex, s.messaging.rows) && Enabled(cfg, s, step)
    requires var c := ConsumerStep(cfg, s, step); c.Some? && IsArrival(c.value)
    ensures SourcedMsg(cfg.lex, Next(cfg, s, step).routed, ConsumerStep(cfg, s, step).value.b.msg)
  {
    if step.Gateway? {
      var p := R.CopyOf(s.gateway.claims[step.step.c].row);
      assert IsOf(Next(cfg, s, step).routed, p, MsgOf(p.ev));
    } else if step.Messaging? {
      PublishedBody(cfg.messaging, s.messaging, step.step);
    }
  }

  lemma AcceptedAsKept(rc: R.Config, before: R.State, after: R.State, step: Option<R.Step>, id: RowId, e: C.EventId)
    requires RelayMoves(rc, before, after, step) && AcceptedAs(before.rows, id, e)
    ensures AcceptedAs(after.rows, id, e)
  {
    if step.Some? {
      RelayKeepsRows(rc, before, step.value);
      RelayRows(rc, before, step.value, id);
    }
  }

  /** What found a queue is the event of its row. */
  lemma RoutedIsAccepted(cfg: Config, s: State, p: R.Copy)
    requires R.Reachable(cfg.gateway, s.gateway) && RowsReadable(cfg.lex, s.gateway.rows)
    requires Arrived(s.routed, s.gateway.published, s.consumer.net) && p in s.routed
    ensures p.row in s.gateway.rows && p.ev == s.gateway.rows[p.row].ev && Readable(cfg.lex, p.ev)
    ensures AcceptedAs(s.gateway.rows, p.row, p.ev.eventId.value)
  {
    R.ReachableInv(cfg.gateway, s.gateway);
  }

  /** A message read as event `e` carries the payload and the type of the gateway row of `e`,
      one of whose publishes found a queue. */
  lemma ReadFromRow(cfg: Config, s: State, c: C.CopyId, e: C.EventId) returns (p: R.Copy)
    requires R.Reachable(cfg.gateway, s.gateway) && RowsReadable(cfg.lex, s.gateway.rows)
    requires Arrived(s.routed, s.gateway.published, s.consumer.net) && Sourced(cfg.lex, s.routed, s.consumer.net)
    requires c in s.consumer.net.copies && C.EventOf(Reading(cfg), s.consumer.net.copies[c].msg) == Some(e)
    ensures RoutedAs(s.routed, p, e) && IsOf(s.routed, p, s.consumer.net.copies[c].msg)
    ensures AcceptedAs(s.gateway.rows, p.row, e) && p.ev == s.gateway.rows[p.row].ev
    ensures s.consumer.net.copies[c].msg.eventType in COMMAND_EVENT_TYPES
  {
    var msg := s.consumer.net.copies[c].msg;
    assert ContractDispatch.Consume(cfg.lex, msg.body, msg.headers.schemaVersion).Some?;
    assert SourcedMsg(cfg.lex, s.routed, msg);
    p :| IsOf(s.routed, p, msg);
    RoutedIsAccepted(cfg, s, p);
    assert ReadsAs(cfg.lex, msg.body, msg.headers.schemaVersion, p.ev.eventId.value);
  }

  lemma AllRoutedKept(cfg: Config, s: State, step: Step)
    requires Inv(cfg, s) && Enabled(cfg, s, step)
    ensures AllRouted(Next(cfg, s, step).routed, Next(cfg, s, step).consumer.db.processed)
  {
    var t := Next(cfg, s, step);
    Projections(cfg, s, step);
    RoutedGrows(cfg, s, step);
    var c := ConsumerStep(cfg, s, step);
    if c.Some? {
      ProcessedOrigin(Reading(cfg), s.consumer, c.value);
    }
    forall e | e in t.consumer.db.processed ensures exists p :: RoutedAs(t.routed, p, e) {
      var p: R.Copy;
      if e in s.consumer.db.processed {
        p :| RoutedAs(s.routed, p, e);
      } else {
        p := ReadFromRow(cfg, s, s.consumer.net.handlers[c.value.tag].copy, e);
      }
      assert RoutedAs(t.routed, p, e);
    }
  }

  lemma OneRowEachGrows(causes: map<RowId, C.EventId>, id: RowId, e: C.EventId)
    requires OneRowEach(causes) && id !in causes && forall i | i in causes :: causes[i] != e
    ensures OneRowEach(causes[id := e])
  {
  }

  lemma RangesOverGrows(causes: map<RowId, C.EventId>, processed: multiset<C.EventId>, more: multiset<C.EventId>,
                        id: RowId, e: C.EventId)
    requires RangesOver(causes, processed) && id !in causes
    requires forall f :: f in more <==> f in processed || f == e
    ensures RangesOver(causes[id := e], more)
  {
    var grown := causes[id := e];
    forall f | f in more ensures exists i :: WrittenFor(grown, i, f) {
      if f == e {
        assert WrittenFor(grown, id, e);
      } else {
        var i :| WrittenFor(causes, i, f);
        assert WrittenFor(grown, i, f);
      }
    }
  }

  lemma PersistEffects(cfg: Config, s: State, step: Step)
    requires C.Reachable(Reading(cfg), s.consumer) && Enabled(cfg, s, step) && step.Persist?
    ensures var t := Next(cfg, s, step);
            && step.id !in s.messaging.rows && t.messaging.rows.Keys == s.messaging.rows.Keys + {step.id}
            && step.e !in s.consumer.db.processed && t.consumer.db.processed == s.consumer.db.processed + multiset{step.e}
            && t.causes == s.causes[step.id := step.e]
  {
    ProcessedOrigin(Reading(cfg), s.consumer, ConsumerStep(cfg, s, step).value);
    RelayKeepsRows(cfg.messaging, s.messaging, MessagingStep(cfg, s, step).value);
  }

  lemma OthersHaveNoEffect(cfg: Config, s: State, step: Step)
    requires C.Reachable(Reading(cfg), s.consumer) && Enabled(cfg, s, step) && !step.Persist?
    ensures var t := Next(cfg, s, step);
            && t.messaging.rows.Keys == s.messaging.rows.Keys
            && t.consumer.db.processed == s.consumer.db.processed && t.causes == s.causes
  {
    var c := ConsumerStep(cfg, s, step);
    if c.Some? {
      ProcessedOrigin(Reading(cfg), s.consumer, c.value);
    }
    if step.Messaging? {
      RelayKeepsRows(cfg.messaging, s.messaging, step.step);
    }
  }

  lemma CausedGrows(causes: map<RowId, C.EventId>, rows: Rows, after: Rows, processed: multiset<C.EventId>, id: RowId, e: C.EventId)
    requires Caused(causes, rows, processed) && id !in rows && after.Keys == rows.Keys + {id} && e !in processed
    ensures Caused(causes[id := e], after, processed + multiset{e})
  {
    OneRowEachGrows(causes, id, e);
    RangesOverGrows(causes, processed, processed + multiset{e}, id, e);
  }

  lemma CausedKept(cfg: Config, s: State, step: Step)
    requires Parts(cfg, s) && Caused(s.causes, s.messaging.rows, s.consumer.db.processed) && Enabled(cfg, s, step)
    ensures var t := Next(cfg, s, step); Caused(t.causes, t.messaging.rows, t.consumer.db.processed)
  {
    if step.Persist? {
      PersistEffects(cfg, s, step);
      CausedGrows(s.causes, s.messaging.rows, Next(cfg, s, step).messaging.rows, s.consumer.db.processed, step.id, step.e);
    } else {
      OthersHaveNoEffect(cfg, s, step);
    }
  }

  lemma InvKept(cfg: Config, s: State, step: Step)
    requires Inv(cfg, s) && Enabled(cfg, s, step)
    ensures Inv(cfg, Next(cfg, s, step))
  {
    PartsKept(cfg, s, step);
    ArrivedKept(cfg, s, step);
    RowsReadableKept(cfg, s, step);
    RowsUnreadableKept(cfg, s, step);
    SourcedKept(cfg, s, step);
    AllRoutedKept(cfg, s, step);
    CausedKept(cfg, s, step);
  }

  lemma {:induction false} RunKeepsInv(cfg: Config, s: State, steps: seq<Step>)
    requires Inv(cfg, s) && ValidRun(cfg, s, steps)
    ensures Inv(cfg, Run(cfg, s, steps))
    decreases |steps|
  {
    if steps != [] {
      InvKept(cfg, s, steps[0]);
      RunKeepsInv(cfg, Next(cfg, s, steps[0]), steps[1..]);
    }
  }

  lemma ReachableInv(cfg: Config, s: State)
    requires Reachable(cfg, s)
    ensures Inv(cfg, s)
  {
    var steps :| ValidRun(cfg, INIT, steps) && Run(cfg, INIT, steps) == s;
    InitInv(cfg);
    RunKeepsInv(cfg, INIT, steps);
  }

  lemma InitInv(cfg: Config)
    ensures Inv(cfg, INIT)
  {
    R.ReachableInit(cfg.gateway);
    R.ReachableInit(cfg.messaging);
    C.ReachableInit(Reading(cfg));
  }

  // ---- End to end ----

  predicate OnCommandSide(p: C.Place) {
    || p == C.InQueue(WorkQueue) || p == C.InQueue(RetryQueue) || p == C.InQueue(DeadLetterQueue)
    || p.Unacked? || p.Logged?
  }

  /** A copy of `e` waits for work or for a retry, is with a handler, or was dead-lettered. */
  ghost predicate Underway(cfg: Config, n: C.Net, d: C.CopyId, e: C.EventId) {
    d in n.copies && C.EventOf(Reading(cfg), n.copies[d].msg) == Some(e) && OnCommandSide(n.copies[d].place)
  }

  /** The event has reached the consumer's side and is still there, or has taken effect. */
  ghost predicate Safe(cfg: Config, s: State, e: C.EventId) {
    e in s.consumer.db.processed || exists d :: Underway(cfg, s.consumer.net, d, e)
  }

  /** One of the row's publishes found a queue. */
  ghost predicate RoutedOnce(s: State, id: RowId) {
    exists p :: p in s.routed && p.row == id
  }

  lemma OneRowPerEvent(rc: R.Config, r: R.State, i: RowId, j: RowId, e: C.EventId)
    requires R.Reachable(rc, r) && AcceptedAs(r.rows, i, e) && AcceptedAs(r.rows, j, e)
    ensures i == j
  {
    R.ReachableInv(rc, r);
  }

  /** An accepted event has taken effect or has a copy underway or dead-lettered in the broker
      exactly when some publish of its row found the work queue bound. */
  lemma SafeExactlyWhenRouted(cfg: Config, s: State, id: RowId, e: C.EventId)
    requires Inv(cfg, s) && AcceptedAs(s.gateway.rows, id, e)
    ensures Safe(cfg, s, e) <==> RoutedOnce(s, id)
  {
    if RoutedOnce(s, id) {
      var p :| p in s.routed && p.row == id;
      RoutedIsAccepted(cfg, s, p);
      RoutedIsSafe(cfg, s, p, e);
    }
    if Safe(cfg, s, e) {
      var p := SafeIsRouted(cfg, s, e);
      RoutedIsAccepted(cfg, s, p);
      OneRowPerEvent(cfg.gateway, s.gateway, p.row, id, e);
      assert RoutedOnce(s, id);
    }
  }

  lemma RoutedIsSafe(cfg: Config, s: State, p: R.Copy, e: C.EventId)
    requires Inv(cfg, s) && RoutedAs(s.routed, p, e)
    ensures Safe(cfg, s, e)
  {
    RoutedIsAccepted(cfg, s, p);
    ReadableIsRead(cfg, p.ev);
    var c :| c in s.consumer.net.copies && s.consumer.net.copies[c].msg == MsgOf(p.ev);
    ConsumerTheorems.NothingLost(Reading(cfg), s.consumer, c, e);
    if e !in s.consumer.db.processed {
      var d :| ConsumerTheorems.Holding(Reading(cfg), s.consumer.net, d, e);
      HoldingIsUnderway(cfg, s, d, e);
    }
  }

  lemma HoldingIsUnderway(cfg: Config, s: State, d: C.CopyId, e: C.EventId)
    requires R.Reachable(cfg.gateway, s.gateway) && RowsReadable(cfg.lex, s.gateway.rows)
    requires Arrived(s.routed, s.gateway.published, s.consumer.net) && Sourced(cfg.lex, s.routed, s.consumer.net)
    requires ConsumerTheorems.Holding(Reading(cfg), s.consumer.net, d, e)
    ensures Underway(cfg, s.consumer.net, d, e)
  {
    var _ := ReadFromRow(cfg, s, d, e);
  }

  lemma SafeIsRouted(cfg: Config, s: State, e: C.EventId) returns (p: R.Copy)
    requires Inv(cfg, s) && Safe(cfg, s, e)
    ensures RoutedAs(s.routed, p, e)
  {
    if e in s.consumer.db.processed {
      p :| RoutedAs(s.routed, p, e);
    } else {
      var d :| Underway(cfg, s.consumer.net, d, e);
      p := ReadFromRow(cfg, s, d, e);
    }
  }

  /** Every gateway publish the broker received found a queue. */
  ghost predicate NothingDropped(s: State) {
    forall p | p in s.gateway.published :: p in s.routed
  }

  /** The run drops nothing: whenever a gateway publish reaches the broker, a queue is bound. */
  ghost predicate DropsNothing(cfg: Config, s: State, steps: seq<Step>)
    requires ValidRun(cfg, s, steps)
    decreases |steps|
  {
    steps != [] ==>
      && (steps[0].Gateway? && Publishes(steps[0].step) ==> Lands(s.broker, s.gateway, steps[0].step))
      && DropsNothing(cfg, Next(cfg, s, steps[0]), steps[1..])
  }

  lemma {:induction false} NothingDroppedOverRuns(cfg: Config, s: State, steps: seq<Step>)
    requires Inv(cfg, s) && NothingDropped(s) && ValidRun(cfg, s, steps) && DropsNothing(cfg, s, steps)
    ensures NothingDropped(Run(cfg, s, steps)) && Inv(cfg, Run(cfg, s, steps))
    decreases |steps|
  {
    if steps != [] {
      InvKept(cfg, s, steps[0]);
      DropKept(cfg, s, steps[0]);
      NothingDroppedOverRuns(cfg, Next(cfg, s, steps[0]), steps[1..]);
    }
  }

  lemma DropKept(cfg: Config, s: State, step: Step)
    requires NothingDropped(s) && Enabled(cfg, s, step)
    requires step.Gateway? && Publishes(step.step) ==> Lands(s.broker, s.gateway, step.step)
    ensures NothingDropped(Next(cfg, s, step))
  {
    RoutedGrows(cfg, s, step);
    if step.Gateway? {
      RelayPublished(cfg.gateway, s.gateway, step.step);
    }
  }

  /** Once the topology stands, nothing is dropped any more. */
  lemma {:induction false} StandingTopologyDropsNothing(cfg: Config, s: State, steps: seq<Step>)
    requires Inv(cfg, s) && s.broker == DECLARED && ValidRun(cfg, s, steps)
    ensures DropsNothing(cfg, s, steps)
    decreases |steps|
  {
    if steps != [] {
      var step := steps[0];
      if step.Gateway? && Publishes(step.step) {
        PublishTargets(s.gateway.claims[step.step.c].row.ev.eventType);
      }
      InvKept(cfg, s, step);
      StaysDeclared(cfg, s, step);
      StandingTopologyDropsNothing(cfg, Next(cfg, s, step), steps[1..]);
    }
  }

  lemma StaysDeclared(cfg: Config, s: State, step: Step)
    requires s.broker == DECLARED && Enabled(cfg, s, step)
    ensures Next(cfg, s, step).broker == DECLARED
  {
    if step.Declare? {
      assert step.broker.exchanges == DECLARED.exchanges && step.broker.queues == DECLARED.queues;
      assert step.broker.bindings == DECLARED.bindings;
    }
  }

  /** In a run that drops nothing an accepted event is never lost: its row is still to be sent
      or was dead-lettered in the outbox, where an operator can replay it, or a copy of it is
      underway or dead-lettered in the broker, or it has been processed. */
  lemma NeverLost(cfg: Config, steps: seq<Step>, id: RowId)
    requires ValidRun(cfg, INIT, steps) && DropsNothing(cfg, INIT, steps)
    requires id in Run(cfg, INIT, steps).gateway.rows
    ensures var s := Run(cfg, INIT, steps);
            var row := s.gateway.rows[id];
            row.ev.eventId.Some? && (row.status.Pending? || row.status.Failed? || Safe(cfg, s, row.ev.eventId.value))
  {
    InitInv(cfg);
    NothingDroppedOverRuns(cfg, INIT, steps);
    var s := Run(cfg, INIT, steps);
    assert Readable(cfg.lex, s.gateway.rows[id].ev);
    SafeExactlyWhenRouted(cfg, s, id, s.gateway.rows[id].ev.eventId.value);
    if s.gateway.rows[id].status.Sent? {
      RelayTheorems.SentMeansConfirmed(cfg.gateway, s.gateway, id);
      assert RoutedOnce(s, id);
    }
  }

  /** In any run at all, a sent event is lost exactly when every publish of its row came before
      the work queue was bound. */
  lemma LostExactlyWhen(cfg: Config, s: State, id: RowId)
    requires Reachable(cfg, s) && id in s.gateway.rows && s.gateway.rows[id].status.Sent?
    ensures s.gateway.rows[id].ev.eventId.Some?
    ensures !Safe(cfg, s, s.gateway.rows[id].ev.eventId.value) <==> forall p | p in s.routed :: p.row != id
    ensures exists p :: p in s.gateway.published && p.row == id
  {
    ReachableInv(cfg, s);
    assert Readable(cfg.lex, s.gateway.rows[id].ev);
    SafeExactlyWhenRouted(cfg, s, id, s.gateway.rows[id].ev.eventId.value);
    RelayTheorems.SentMeansConfirmed(cfg.gateway, s.gateway, id);
  }

  lemma ReadableIsRead(cfg: Config, ev: EventRecord)
    requires Readable(cfg.lex, ev)
    ensures C.EventOf(Reading(cfg), MsgOf(ev)) == ev.eventId
  {
    assert ReadsAs(cfg.lex, ev.payload, Absent, ev.eventId.value);
  }

  /** It takes effect at most once, and its effects come together: one ledger row, one message
      and one MessagePersisted row, or none of them. */
  lemma AtMostOneEffect(cfg: Config, s: State, e: C.EventId)
    requires Reachable(cfg, s)
    ensures s.consumer.db.processed[e] == s.consumer.db.messages[e] == s.consumer.db.persisted[e] <= 1
    ensures s.consumer.hist.firstResults[e] <= 1
    ensures e in s.consumer.db.processed <==> exists id :: WrittenFor(s.causes, id, e)
    ensures forall i, j | WrittenFor(s.causes, i, e) && WrittenFor(s.causes, j, e) :: i == j
    ensures s.causes.Keys == s.messaging.rows.Keys
  {
    ReachableInv(cfg, s);
    ConsumerTheorems.AtMostOnce(Reading(cfg), s.consumer, e);
  }

  /** Nothing takes effect that was not accepted. */
  lemma OnlyAcceptedTakeEffect(cfg: Config, s: State, e: C.EventId)
    requires Reachable(cfg, s) && e in s.consumer.db.processed
    ensures exists id :: AcceptedAs(s.gateway.rows, id, e)
    ensures forall i, j | AcceptedAs(s.gateway.rows, i, e) && AcceptedAs(s.gateway.rows, j, e) :: i == j
  {
    ReachableInv(cfg, s);
    var p :| RoutedAs(s.routed, p, e);
    RoutedIsAccepted(cfg, s, p);
    R.ReachableInv(cfg.gateway, s.gateway);
  }
}
