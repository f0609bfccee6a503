/** How the gateway accepts a request: build the event, validate it, store it in the outbox in
    one transaction, answer. */
module GatewayAcceptance {
  import opened Wrappers
  import opened Json
  import opened SchemaVersion
  import opened Contracts
  import opened ErrorClassifier
  import opened OutboxTable
  import opened IdempotentTransaction
  import ContractDispatch

  datatype Request = RequestV1(payload: PayloadV1) | RequestV2(body: Json)

  /** The outbox row of a request; None if the built event does not validate. */
  function RecordFor(lex: Lexical, request: Request, correlationId: string, eventId: string, timestamp: string): Option<EventRecord> {
    match request
    case RequestV1(payload) =>
      var e :- ContractDispatch.AcceptV1(lex, payload, correlationId, eventId, timestamp);
      Some(EventRecord(Some(eventId), NAME_V1, JsonV1(e), Some(correlationId), DEFAULT_MAX_ATTEMPTS))
    case RequestV2(body) =>
      var e :- ContractDispatch.AcceptV2(lex, body, correlationId, eventId, timestamp);
      Some(EventRecord(Some(eventId), NAME_V2, JsonV2(e), Some(correlationId), DEFAULT_MAX_ATTEMPTS))
  }

  /** What a request and the values drawn for it determine. */
  datatype Acceptance = Acceptance(request: Request, correlationId: string, eventId: string, timestamp: string)

  function RecordOfAcceptance(lex: Lexical, a: Acceptance): Option<EventRecord> {
    RecordFor(lex, a.request, a.correlationId, a.eventId, a.timestamp)
  }

  /** A field of the payload as the request gives it. */
  function Requested(request: Request, name: string): Option<Json> {
    match request
    case RequestV2(body) => FieldOf(body, name)
    case RequestV1(p) =>
      if name == "subject" then Some(JStr(p.subject))
      else if name == "content" then Some(JStr(p.content))
      else if name == "recipient" && p.recipient.Some? then Some(JStr(p.recipient.value))
      else None
  }

  /** The row says what was requested and drawn, field by field. */
  ghost predicate SaysRequest(ev: EventRecord, a: Acceptance) {
    var payload := FieldOf(ev.payload, "payload");
    var name := if a.request.RequestV1? then "CreateMessageEvent.v1" else "CreateMessageEvent.v2";
    && ev.eventId == Some(a.eventId) && ev.correlationId == Some(a.correlationId) && ev.maxAttempts == 5
    && ev.eventType == name && FieldOf(ev.payload, "type") == Some(JStr(name))
    && FieldOf(ev.payload, "schemaVersion") == (if a.request.RequestV1? then None else Some(JStr("2")))
    && FieldOf(ev.payload, "eventId") == Some(JStr(a.eventId))
    && FieldOf(ev.payload, "correlationId") == Some(JStr(a.correlationId))
    && FieldOf(ev.payload, "timestamp") == Some(JStr(a.timestamp))
    && FieldOf(ev.payload, "source") == Some(JStr("gateway"))
    && FieldOf(ev.payload, "trace") == Some(JArr([JStr("gateway")]))
    && payload.Some?
    && FieldOf(payload.value, "subject") == Requested(a.request, "subject")
    && FieldOf(payload.value, "content") == Requested(a.request, "content")
    && FieldOf(payload.value, "recipient") == Requested(a.request, "recipient")
    && (a.request.RequestV2? ==>
          && FieldOf(payload.value, "priority") ==
             (if Requested(a.request, "priority") == None then Some(JStr("normal")) else Requested(a.request, "priority"))
          && FieldOf(payload.value, "metadata") ==
             (if Requested(a.request, "metadata") == None then Some(JObj(map[])) else Requested(a.request, "metadata")))
  }

  lemma RowSaysRequest(lex: Lexical, a: Acceptance)
    requires RecordOfAcceptance(lex, a).Some?
    ensures SaysRequest(RecordOfAcceptance(lex, a).value, a)
  {
    match a.request {
      case RequestV1(p) => V1RowSays(lex, p, a.correlationId, a.eventId, a.timestamp);
      case RequestV2(body) => V2RowSays(lex, body, a.correlationId, a.eventId, a.timestamp);
    }
  }

  lemma GatewayTrace(correlationId: string, eventId: string, timestamp: string)
    ensures var e := ContractDispatch.GatewayEnvelope(correlationId, eventId, timestamp);
            && EnvelopeFields(e)["trace"] == JArr([JStr("gateway")]) && EnvelopeFields(e)["source"] == JStr("gateway")
            && e.eventId == eventId && e.correlationId == correlationId && e.timestamp == timestamp
  {
  }

  lemma FieldNamesDiffer()
    ensures "subject" != "content" && "subject" != "recipient" && "content" != "recipient"
  {
    assert "subject"[0] == 's' && "content"[0] == 'c' && "recipient"[0] == 'r';
  }

  lemma V1RowSays(lex: Lexical, p: PayloadV1, correlationId: string, eventId: string, timestamp: string)
    requires ContractDispatch.AcceptV1(lex, p, correlationId, eventId, timestamp).Some?
    ensures var body := JsonV1(ContractDispatch.AcceptV1(lex, p, correlationId, eventId, timestamp).value);
            && CarriesEnvelope(body, ContractDispatch.GatewayEnvelope(correlationId, eventId, timestamp))
            && FieldOf(body, "trace") == Some(JArr([JStr("gateway")])) && FieldOf(body, "source") == Some(JStr("gateway"))
            && FieldOf(body, "type") == Some(JStr("CreateMessageEvent.v1")) && FieldOf(body, "schemaVersion") == None
            && FieldOf(body, "payload") == Some(PayloadV1Json(p))
            && FieldOf(PayloadV1Json(p), "subject") == Some(JStr(p.subject))
            && FieldOf(PayloadV1Json(p), "content") == Some(JStr(p.content))
            && FieldOf(PayloadV1Json(p), "recipient") == (if p.recipient.Some? then Some(JStr(p.recipient.value)) else None)
    ensures Requested(RequestV1(p), "subject") == Some(JStr(p.subject))
    ensures Requested(RequestV1(p), "content") == Some(JStr(p.content))
    ensures Requested(RequestV1(p), "recipient") == if p.recipient.Some? then Some(JStr(p.recipient.value)) else None
  {
    var built := EventV1(ContractDispatch.GatewayEnvelope(correlationId, eventId, timestamp), None, p);
    V1RoundTrip(lex, built);
    EventV1Fields(built);
    GatewayTrace(correlationId, eventId, timestamp);
    FieldNamesDiffer();
  }

  lemma V2RowSays(lex: Lexical, b: Json, correlationId: string, eventId: string, timestamp: string)
    requires ContractDispatch.AcceptV2(lex, b, correlationId, eventId, timestamp).Some?
    ensures var body := JsonV2(ContractDispatch.AcceptV2(lex, b, correlationId, eventId, timestamp).value);
            && CarriesEnvelope(body, ContractDispatch.GatewayEnvelope(correlationId, eventId, timestamp))
            && FieldOf(body, "trace") == Some(JArr([JStr("gateway")])) && FieldOf(body, "source") == Some(JStr("gateway"))
            && FieldOf(body, "type") == Some(JStr("CreateMessageEvent.v2")) && FieldOf(body, "schemaVersion") == Some(JStr("2"))
            && FieldOf(body, "payload").Some? && PayloadKept(FieldOf(body, "payload").value, b)
  {
    var parsed := ParsePayloadV2(Some(b)).value;
    var built := EventV2(ContractDispatch.GatewayEnvelope(correlationId, eventId, timestamp), parsed);
    V2RoundTrip(lex, built);
    EventV2Fields(built);
    GatewayTrace(correlationId, eventId, timestamp);
    PayloadSays(b);
  }

  /** The parsed payload written out again is the payload given, with the defaults filled in. */
  ghost predicate PayloadKept(v: Json, b: Json) {
    && FieldOf(v, "subject") == FieldOf(b, "subject")
    && FieldOf(v, "content") == FieldOf(b, "content")
    && FieldOf(v, "recipient") == FieldOf(b, "recipient")
    && FieldOf(v, "priority") == (if FieldOf(b, "priority") == None then Some(JStr("normal")) else FieldOf(b, "priority"))
    && FieldOf(v, "metadata") == (if FieldOf(b, "metadata") == None then Some(JObj(map[])) else FieldOf(b, "metadata"))
  }

  lemma PayloadSays(b: Json)
    requires ParsePayloadV2(Some(b)).Some?
    ensures PayloadKept(PayloadV2Json(ParsePayloadV2(Some(b)).value), b)
  {
    var p := ParsePayloadV2(Some(b)).value;
    PayloadV2Reads(b, p);
    PayloadV2Fields(p);
    NamesDiffer();
    var written := map k | k in p.metadata :: JStr(p.metadata[k]);
    if FieldOf(b, "metadata").Some? {
      assert FieldOf(b, "metadata").value.fields == written;
    } else {
      assert written == map[];
    }
  }

  /** A request is accepted exactly if what was drawn for it is well formed and its payload is
      within the bounds of its version. */
  lemma AcceptedExactly(lex: Lexical, request: Request, correlationId: string, eventId: string, timestamp: string)
    ensures RecordFor(lex, request, correlationId, eventId, timestamp).Some? <==>
            && lex.isUuid(eventId) && lex.isUuid(correlationId) && lex.isIsoDateTime(timestamp)
            && match request
               case RequestV1(p) =>
                 1 <= JsLength(p.subject) <= 255 && 1 <= JsLength(p.content)
                 && (p.recipient.Some? ==> JsLength(p.recipient.value) <= 255)
               case RequestV2(b) => exists p :: SaysPayloadV2(b, p)
  {
    var env := ContractDispatch.GatewayEnvelope(correlationId, eventId, timestamp);
    match request {
      case RequestV1(p) => V1RoundTrip(lex, EventV1(env, None, p));
      case RequestV2(b) =>
        if ParsePayloadV2(Some(b)).Some? {
          PayloadV2Reads(b, ParsePayloadV2(Some(b)).value);
          ContractDispatch.ParsedPayloadV2IsGood(Some(b));
          V2RoundTrip(lex, EventV2(env, ParsePayloadV2(Some(b)).value));
        }
        forall p ensures ParsePayloadV2(Some(b)) == Some(p) <==> SaysPayloadV2(b, p) {
          PayloadV2Reads(b, p);
        }
    }
  }

  /** The builder returns an event; for version 2 it parses the payload, and raises if that fails. */
  predicate Builds(request: Request) {
    match request
    case RequestV1(_) => true
    case RequestV2(body) => ParsePayloadV2(Some(body)).Some?
  }

  /** What goes wrong during the acceptance transaction; `insert` is any failure of the insert
      but a taken event id. */
  datatype Faults = Faults(
    begin: Option<Thrown>, work: Option<Thrown>, insert: Option<Thrown>, commit: Reply, rollback: Option<Thrown>,
    release: Option<Thrown>)

  datatype Stored = Stored(row: Row) | NotConfirmed(err: Thrown)

  /** The row is committed. */
  ghost predicate Durable(rows: Rows, ev: EventRecord, f: Faults) {
    && f.begin.None? && f.work.None? && f.insert.None? && EventIdFree(rows, ev.eventId)
    && (f.commit.Lost? ==> f.commit.tookEffect)
  }

  /** The caller is told so. */
  ghost predicate Confirmed(rows: Rows, ev: EventRecord, f: Faults) {
    Durable(rows, ev, f) && f.commit.Answered? && f.release.None?
  }

  class GatewayOutboxTransaction {
    const table: Table

    constructor (table: Table)
      ensures this.table == table
    {
      this.table := table;
    }

    /** A confirmed event is durable, and one that is not durable is not confirmed. The row is
        stored unless the transaction cannot be opened, the caller's work or the insert raises,
        the event id is taken, or the commit fails; it is reported if the commit is also
        answered and the connection released. */
    method RunWithOutboxEvent(id: RowId, ev: EventRecord, now: int, f: Faults) returns (result: Stored)
      requires id !in table.rows
      modifies table
      ensures var free := ev.eventId == None || forall other | other in old(table.rows) :: old(table.rows)[other].ev.eventId != ev.eventId;
              var written := f.begin == None && f.work == None && f.insert == None && free;
              && (id in table.rows <==> written && (f.commit == Answered || f.commit.tookEffect))
              && (id in table.rows ==> table.rows[id].ev == ev && table.rows[id].status == Pending && table.rows[id].nextRetryAt == now)
              && (forall other | other != id ::
                    (other in table.rows <==> other in old(table.rows))
                    && (other in table.rows ==> table.rows[other] == old(table.rows)[other]))
              && (result.Stored? <==> written && f.commit == Answered && f.release == None)
      ensures f.begin.Some? ==> result == NotConfirmed(f.begin.value)
      ensures f.begin == None && f.release.Some? ==> result == NotConfirmed(f.release.value)
      ensures f.begin == None && f.release == None && f.rollback.Some? && !result.Stored? ==>
                result == NotConfirmed(f.rollback.value)
      ensures f.begin == None && f.release == None && f.rollback == None && f.work.Some? ==> result == NotConfirmed(f.work.value)
      ensures f.begin == None && f.release == None && f.rollback == None && f.work == None && f.insert.Some? ==>
                result == NotConfirmed(f.insert.value)
      ensures table.rows == if Durable(old(table.rows), ev, f) then old(table.rows)[id := NewRow(ev, now)] else old(table.rows)
      ensures result.Stored? <==> Confirmed(old(table.rows), ev, f)
      ensures result.Stored? ==> id in table.rows && table.rows[id] == result.row
    {
      if f.begin.Some? {
        return NotConfirmed(f.begin.value);
      }
      var err := f.work;
      if err.None? {
        err := f.insert;
      }
      if err.None? {
        err := InsertAndCommit(id, ev, now, f.commit);
      }
      if f.release.Some? {
        return NotConfirmed(f.release.value);
      }
      if err.Some? {
        return NotConfirmed(if f.rollback.Some? then f.rollback.value else err.value);
      }
      result := Stored(NewRow(ev, now));
    }

    /** The insert becomes visible with the commit. */
    method InsertAndCommit(id: RowId, ev: EventRecord, now: int, commit: Reply) returns (err: Option<Thrown>)
      requires id !in table.rows
      modifies table
      ensures var free := EventIdFree(old(table.rows), ev.eventId);
              && table.rows == (if free && (commit.Lost? ==> commit.tookEffect)
                                then old(table.rows)[id := NewRow(ev, now)] else old(table.rows))
              && (err.None? <==> free && commit.Answered?)
    {
      if commit.Lost? && !commit.tookEffect {
        return Some(commit.err);
      }
      var inserted := table.Insert(id, ev, now);
      if !inserted {
        return Some(UNIQUE_VIOLATION);
      }
      err := if commit.Lost? then Some(commit.err) else None;
    }
  }

  datatype Answer = Accepted(eventId: string, row: RowId) | BadRequest | ServerError

  class AppController {
    const outbox: GatewayOutboxTransaction

    constructor (outbox: GatewayOutboxTransaction)
      ensures this.outbox == outbox
    {
      this.outbox := outbox;
    }

    /** `eventId`, `timestamp` and `row` are the fresh values the services draw. A payload the
        builder raises on is a server error and a built event that does not validate a bad
        request, and neither leaves a trace; an accepted one is in the outbox as built. */
    method Send(lex: Lexical, request: Request, correlationId: string, eventId: string, timestamp: string,
                row: RowId, now: int, f: Faults)
      returns (answer: Answer)
      requires row !in outbox.table.rows
      modifies outbox.table
      ensures var ev := RecordFor(lex, request, correlationId, eventId, timestamp);
              && (answer.BadRequest? <==> Builds(request) && ev.None?)
              && (!Builds(request) ==> answer.ServerError? && outbox.table.rows == old(outbox.table.rows))
              && (answer.Accepted? <==> ev.Some? && Confirmed(old(outbox.table.rows), ev.value, f))
              && (answer.Accepted? ==> answer == Accepted(eventId, row) && row in outbox.table.rows)
              && outbox.table.rows == (if ev.Some? && Durable(old(outbox.table.rows), ev.value, f)
                                       then old(outbox.table.rows)[row := NewRow(ev.value, now)] else old(outbox.table.rows))
      ensures answer.Accepted? ==>
                && outbox.table.rows[row].status == Pending && outbox.table.rows[row].nextRetryAt == now
                && SaysRequest(outbox.table.rows[row].ev, Acceptance(request, correlationId, eventId, timestamp))
    {
      if !Builds(request) {
        return ServerError;
      }
      var ev := RecordFor(lex, request, correlationId, eventId, timestamp);
      if ev.None? {
        return BadRequest;
      }
      RowSaysRequest(lex, Acceptance(request, correlationId, eventId, timestamp));
      var stored := outbox.RunWithOutboxEvent(row, ev.value, now, f);
      answer := if stored.Stored? then Accepted(eventId, row) else ServerError;
    }
  }
}
